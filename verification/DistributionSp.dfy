/** The user fields of the two distribution smart processes: how a field is named when it is created,
    how the portal lists it, how items address it, and which fields still have to be created
    (app/config/distributionSp.ts). Case mapping is the ASCII one: field codes are ASCII. */
module DistributionSp {
  import opened Outcome
  import opened Text
  import opened Numerals

  /** A smart process: the id its items are addressed by, and the id its user fields are named after. */
  datatype SpRef = SpRef(entityTypeId: nat, id: nat)

  // ---- Names

  /** `String(n)` of a whole number. */
  function Decimal(n: nat): (s: string)
    ensures s != "" && Digits(s) && Value(s) == n
  {
    var last := ['0' + (n % 10) as char];
    if n < 10 then last
    else
      var s := Decimal(n / 10) + last;
      assert s[..|s| - 1] == Decimal(n / 10);
      s
  }

  function Lower(c: char): char
  {
    if 'A' <= c <= 'Z' then 'a' + (c - 'A') else c
  }

  function Upper(c: char): char
  {
    if 'a' <= c <= 'z' then 'A' + (c - 'a') else c
  }

  function LowerAll(s: string): (r: string)
    ensures |r| == |s| && forall k :: 0 <= k < |s| ==> r[k] == Lower(s[k])
  {
    seq(|s|, k requires 0 <= k < |s| => Lower(s[k]))
  }

  function Capitalized(word: string): (r: string)
    ensures |r| == |word|
  {
    if word == "" then "" else [Upper(word[0])] + LowerAll(word[1..])
  }

  function Pascal(words: seq<string>): string
  {
    if words == [] then "" else Capitalized(words[0]) + Pascal(words[1..])
  }

  /** The name a field is created under. */
  function CreatedName(id: nat, postfix: string): string
  {
    "UF_CRM_" + Decimal(id) + "_" + postfix
  }

  /** The name the portal stores and lists. */
  function StoredName(id: nat, postfix: string): string
  {
    "UF_CRM" + Decimal(id) + "_" + postfix
  }

  /** The name items are read, written and filtered by. */
  function CamelName(id: nat, postfix: string): string
  {
    "ufCrm" + Decimal(id) + Pascal(SplitOn(postfix, '_'))
  }

  /** The form names are compared in. */
  function Normal(name: string): string
  {
    if name == "" then "" else (if name[0] == '_' then "" else [Lower(name[0])]) + Normal(name[1..])
  }

  /** Case mapping is that of ASCII: each letter to the one thirty-two further up or down, all else to itself. */
  lemma CaseExactly(c: char)
    ensures if 'A' <= c <= 'Z' then Lower(c) as int == c as int + 32 else Lower(c) == c
    ensures if 'a' <= c <= 'z' then Upper(c) as int == c as int - 32 else Upper(c) == c
  {
  }

  // ---- One normal form

  lemma {:induction false} NormalAppend(a: string, b: string)
    ensures Normal(a + b) == Normal(a) + Normal(b)
  {
    if a == "" {
      assert a + b == b;
    } else {
      assert (a + b)[1..] == a[1..] + b;
      NormalAppend(a[1..], b);
    }
  }

  lemma {:induction false} NormalOfLower(s: string)
    ensures Normal(LowerAll(s)) == Normal(s)
  {
    if s != "" {
      assert LowerAll(s)[1..] == LowerAll(s[1..]);
      NormalOfLower(s[1..]);
    }
  }

  lemma NormalOfCapitalized(word: string)
    ensures Normal(Capitalized(word)) == Normal(word)
  {
    if word != "" {
      NormalOfLower(word[1..]);
      assert Capitalized(word)[1..] == LowerAll(word[1..]);
    }
  }

  lemma {:induction false} NormalOfPascal(words: seq<string>)
    requires words != []
    ensures Normal(Pascal(words)) == Normal(Join(words, "_"))
  {
    hide Normal, Capitalized;
    NormalOfCapitalized(words[0]);
    NormalAppend(Capitalized(words[0]), Pascal(words[1..]));
    if |words| > 1 {
      NormalOfPascal(words[1..]);
      NormalAppend(words[0] + "_", Join(words[1..], "_"));
      NormalAppend(words[0], "_");
      Underscore();
    } else {
      assert words[1..] == [];
      assert Pascal(words[1..]) == "" && Capitalized(words[0]) + "" == Capitalized(words[0]);
    }
  }

  lemma Underscore()
    ensures Normal("_") == ""
  {
    assert "_"[1..] == "";
  }

  function Prefix(id: nat): string
  {
    Normal("UF_CRM") + Normal(Decimal(id))
  }

  lemma PrefixForms()
    ensures Normal("ufCrm") == Normal("UF_CRM") && Normal("UF_CRM_") == Normal("UF_CRM")
  {
    hide Normal;
    NormalAppend("UF_CRM", "_");
    Underscore();
    assert "UF_CRM_" == "UF_CRM" + "_";
    NormalAppend("UF", "_" + "CRM");
    NormalAppend("_", "CRM");
    NormalAppend("uf", "Crm");
    assert "UF_CRM" == "UF" + ("_" + "CRM") && "ufCrm" == "uf" + "Crm";
    NormalOfLower("UF");
    NormalOfLower("uf");
    NormalOfLower("CRM");
    NormalOfLower("Crm");
    assert LowerAll("UF") == LowerAll("uf") && LowerAll("CRM") == LowerAll("Crm");
  }

  /** The three spellings of one field compare as equal, for every id and postfix. */
  lemma OneNormalForm(id: nat, postfix: string)
    ensures Normal(CreatedName(id, postfix)) == Normal(StoredName(id, postfix))
         == Normal(CamelName(id, postfix)) == Prefix(id) + Normal(postfix)
  {
    hide Normal, Pascal;
    var d := Decimal(id);
    PrefixForms();
    Underscore();
    NormalAppend("UF_CRM_" + d + "_", postfix);
    NormalAppend("UF_CRM_" + d, "_");
    NormalAppend("UF_CRM_", d);
    NormalAppend("UF_CRM" + d + "_", postfix);
    NormalAppend("UF_CRM" + d, "_");
    NormalAppend("UF_CRM", d);
    var words := SplitOn(postfix, '_');
    NormalAppend("ufCrm" + d, Pascal(words));
    NormalAppend("ufCrm", d);
    NormalOfPascal(words);
    JoinSplit(postfix, '_');
  }

  // ---- Camel names tell fields apart

  predicate Upcase(c: char)
  {
    'A' <= c <= 'Z'
  }

  /** Upper-case letters and digits, a letter first. */
  predicate Word(s: string)
  {
    s != "" && Upcase(s[0]) && forall k :: 0 <= k < |s| ==> Upcase(s[k]) || Digit(s[k])
  }

  /** A postfix of words joined by single underscores, as every field of ours has. */
  predicate Postfix(p: string)
  {
    forall k :: 0 <= k < |SplitOn(p, '_')| ==> Word(SplitOn(p, '_')[k])
  }

  /** Upper-case letters, digits and underscores, wherever they stand, but no digit where a word begins. */
  predicate Code(p: string)
  {
    && (forall k :: 0 <= k < |p| ==> Upcase(p[k]) || Digit(p[k]) || p[k] == '_')
    && (forall k :: 0 <= k < |p| && Digit(p[k]) ==> k > 0 && p[k - 1] != '_')
  }

  /** The words of a postfix: its non-empty segments. */
  function Words(segments: seq<string>): seq<string>
  {
    if segments == [] then []
    else (if segments[0] == "" then [] else [segments[0]]) + Words(segments[1..])
  }

  /** The segments of a code, its first one cut off anywhere. */
  lemma {:induction false} SegmentsOfCode(p: string)
    requires forall k :: 0 <= k < |p| ==> Upcase(p[k]) || Digit(p[k]) || p[k] == '_'
    requires forall k :: 0 < k < |p| && Digit(p[k]) ==> p[k - 1] != '_'
    ensures var segments := SplitOn(p, '_');
            && (forall k :: 1 <= k < |segments| ==> segments[k] == "" || Word(segments[k]))
            && (forall k :: 0 <= k < |segments[0]| ==> Upcase(segments[0][k]) || Digit(segments[0][k]))
            && (segments[0] != "" ==> p != "" && segments[0][0] == p[0])
  {
    if p != "" {
      SegmentsOfCode(p[1..]);
      var rest, segments := SplitOn(p[1..], '_'), SplitOn(p, '_');
      if p[0] == '_' {
        assert rest[0] != "" ==> p[1..][0] == p[1] && !Digit(p[1]);
        assert segments == [""] + rest;
      } else {
        assert segments == [[p[0]] + rest[0]] + rest[1..];
      }
    }
  }

  lemma WordsOfCode(p: string)
    requires Code(p)
    ensures forall k :: 0 <= k < |SplitOn(p, '_')| ==> SplitOn(p, '_')[k] == "" || Word(SplitOn(p, '_')[k])
  {
    hide SplitOn;
    SegmentsOfCode(p);
  }

  lemma {:induction false} WordsAreWords(segments: seq<string>)
    requires forall k :: 0 <= k < |segments| ==> segments[k] == "" || Word(segments[k])
    ensures forall k :: 0 <= k < |Words(segments)| ==> Word(Words(segments)[k])
    ensures Pascal(Words(segments)) == Pascal(segments)
    ensures (forall k :: 0 <= k < |segments| ==> segments[k] != "") ==> Words(segments) == segments
  {
    if segments != [] {
      hide Word, Words, Pascal;
      var rest := segments[1..];
      WordsAreWords(rest);
      WordsStep(segments);
      PascalStep(segments[0], rest);
      assert segments == [segments[0]] + rest;
      if segments[0] == "" {
        assert "" + Pascal(rest) == Pascal(rest);
        EmptySegment();
      } else {
        PascalStep(segments[0], Words(rest));
      }
    }
  }

  lemma EmptySegment()
    ensures Capitalized("") == ""
  {
  }

  lemma WordsStep(segments: seq<string>)
    requires segments != []
    ensures Words(segments) == if segments[0] == "" then Words(segments[1..]) else [segments[0]] + Words(segments[1..])
  {
    assert [] + Words(segments[1..]) == Words(segments[1..]);
  }

  lemma PascalStep(word: string, rest: seq<string>)
    ensures Pascal([word] + rest) == Capitalized(word) + Pascal(rest)
  {
    assert ([word] + rest)[1..] == rest;
  }

  lemma {:induction false} PascalLetters(words: seq<string>)
    requires forall k :: 0 <= k < |words| ==> Word(words[k])
    ensures words == [] <==> Pascal(words) == ""
    ensures words != [] ==> Upcase(Pascal(words)[0])
  {
    if words != [] {
      assert Pascal(words)[0] == Capitalized(words[0])[0];
    }
  }

  lemma CapitalizedInjective(a: string, b: string)
    requires Word(a) && Word(b) && Capitalized(a) == Capitalized(b)
    ensures a == b
  {
    forall k | 0 <= k < |a| ensures a[k] == b[k] {
      if k > 0 {
        assert Capitalized(a)[k] == Lower(a[k]) && Capitalized(b)[k] == Lower(b[k]);
      } else {
        assert Capitalized(a)[0] == a[0] && Capitalized(b)[0] == b[0];
      }
    }
  }

  lemma FirstWordNotShorter(a: string, x: string, b: string, y: string)
    requires Word(a) && Word(b) && Capitalized(a) + x == Capitalized(b) + y
    requires x != "" ==> Upcase(x[0])
    ensures |a| >= |b|
  {
    hide Word, Capitalized;
    CapitalizedTail(b);
    var whole := Capitalized(a) + x;
    assert whole == Capitalized(b) + y;
    assert x != "" ==> whole[|a|] == x[0];
    assert forall k :: 1 <= k < |b| ==> whole[k] == Capitalized(b)[k];
    NotEmptyWord(a);
  }

  lemma NotEmptyWord(a: string)
    requires Word(a)
    ensures a != ""
  {
  }

  /** Only the first character of a capitalized word is upper-case. */
  lemma CapitalizedTail(b: string)
    requires Word(b)
    ensures forall k :: 1 <= k < |b| ==> !Upcase(Capitalized(b)[k])
  {
    hide Upcase, Lower, Upper;
    forall k | 1 <= k < |b| ensures !Upcase(Capitalized(b)[k]) {
      assert Capitalized(b)[k] == Lower(b[k]);
      LowerNotUpcase(b[k]);
    }
  }

  lemma LowerNotUpcase(c: char)
    ensures !Upcase(Lower(c))
  {
  }

  /** Capital letters mark where each word begins, so the words can be read back. */
  lemma {:induction false} PascalInjective(a: seq<string>, b: seq<string>)
    requires forall k :: 0 <= k < |a| ==> Word(a[k])
    requires forall k :: 0 <= k < |b| ==> Word(b[k])
    requires Pascal(a) == Pascal(b)
    ensures a == b
  {
    hide Word, Capitalized;
    PascalLetters(a);
    PascalLetters(b);
    if a != [] && b != [] {
      PascalLetters(a[1..]);
      PascalLetters(b[1..]);
      FirstWordNotShorter(a[0], Pascal(a[1..]), b[0], Pascal(b[1..]));
      FirstWordNotShorter(b[0], Pascal(b[1..]), a[0], Pascal(a[1..]));
      SameParts(Capitalized(a[0]), Pascal(a[1..]), Capitalized(b[0]), Pascal(b[1..]));
      CapitalizedInjective(a[0], b[0]);
      PascalInjective(a[1..], b[1..]);
      assert a == [a[0]] + a[1..] && b == [b[0]] + b[1..];
    }
  }

  lemma SameParts(a: string, x: string, b: string, y: string)
    requires |a| == |b| && a + x == b + y
    ensures a == b && x == y
  {
    assert (a + x)[..|a|] == a && (b + y)[..|b|] == b && (a + x)[|a|..] == x && (b + y)[|b|..] == y;
  }

  lemma DigitsEndAtLetters(a: string, x: string, b: string, y: string)
    requires Digits(a) && Digits(b) && a + x == b + y
    requires (x != "" ==> !Digit(x[0])) && (y != "" ==> !Digit(y[0]))
    ensures a == b && x == y
  {
    var whole := a + x;
    assert x != "" ==> whole[|a|] == x[0];
    assert forall k :: 0 <= k < |a| ==> whole[k] == a[k];
    assert whole == b + y;
    assert y != "" ==> whole[|b|] == y[0];
    assert forall k :: 0 <= k < |b| ==> whole[k] == b[k];
    SameParts(a, x, b, y);
  }

  /** Two camel names are equal exactly when the ids are and the postfixes have the same words. */
  lemma CamelInjective(i: nat, p: string, j: nat, q: string)
    requires Code(p) && Code(q)
    ensures CamelName(i, p) == CamelName(j, q) <==>
            i == j && Words(SplitOn(p, '_')) == Words(SplitOn(q, '_'))
  {
    hide Word, Words, Pascal, SplitOn, Code;
    var a, b := SplitOn(p, '_'), SplitOn(q, '_');
    WordsOfCode(p);
    WordsOfCode(q);
    WordsAreWords(a);
    WordsAreWords(b);
    PascalLetters(Words(a));
    PascalLetters(Words(b));
    if CamelName(i, p) == CamelName(j, q) {
      SameParts("ufCrm", Decimal(i) + Pascal(a), "ufCrm", Decimal(j) + Pascal(b)) by {
        assert CamelName(i, p) == "ufCrm" + (Decimal(i) + Pascal(a));
        assert CamelName(j, q) == "ufCrm" + (Decimal(j) + Pascal(b));
      }
      DigitsEndAtLetters(Decimal(i), Pascal(a), Decimal(j), Pascal(b));
      PascalInjective(Words(a), Words(b));
    }
  }

  /** Fields of ours never share a camel name. */
  lemma CamelNamesApart(i: nat, p: string, j: nat, q: string)
    requires Postfix(p) && Postfix(q)
    ensures CamelName(i, p) == CamelName(j, q) <==> i == j && p == q
  {
    hide Word, Words, SplitOn;
    PostfixCode(p);
    PostfixCode(q);
    CamelInjective(i, p, j, q);
    JoinSplit(p, '_');
    JoinSplit(q, '_');
  }

  lemma PostfixCode(p: string)
    requires Postfix(p)
    ensures Code(p) && Words(SplitOn(p, '_')) == SplitOn(p, '_')
  {
    hide Words, SplitOn;
    var segments := SplitOn(p, '_');
    WordsAreWords(segments);
    JoinSplit(p, '_');
    JoinedCode(segments);
  }

  lemma {:induction false} JoinedCode(words: seq<string>)
    requires forall k :: 0 <= k < |words| ==> Word(words[k])
    ensures Code(Join(words, "_")) && (words != [] ==> Join(words, "_") != "" && Upcase(Join(words, "_")[0]))
  {
    if |words| > 1 {
      JoinedCode(words[1..]);
      var first, rest := words[0] + "_", Join(words[1..], "_");
      var p := first + rest;
      assert p == Join(words, "_");
      forall k | 0 <= k < |p| && Digit(p[k]) ensures k > 0 && p[k - 1] != '_' {
        if k < |first| {
          assert p[k] == first[k] && k < |words[0]|;
        } else {
          assert p[k] == rest[k - |first|] && k > |first|;
          assert p[k - 1] == rest[k - |first| - 1];
        }
      }
    }
  }

  lemma DigitsHaveNoCase(c: char)
    requires Digit(c)
    ensures Upper(c) == Lower(c) == c
  {
  }

  lemma LowerAllAppend(a: string, b: string)
    ensures LowerAll(a + b) == LowerAll(a) + LowerAll(b)
  {
    hide Lower;
  }

  lemma CapitalizedDigits(digits: string)
    requires digits != "" && Digit(digits[0])
    ensures Capitalized(digits) == LowerAll(digits)
  {
    hide Lower, Upper;
    DigitsHaveNoCase(digits[0]);
  }

  lemma CapitalizedJoined(word: string, digits: string)
    requires word != "" && digits != "" && Digit(digits[0])
    ensures Capitalized(word + digits) == Capitalized(word) + Capitalized(digits)
  {
    hide Lower, Upper, LowerAll;
    CapitalizedDigits(digits);
    LowerAllAppend(word[1..], digits);
    assert (word + digits)[1..] == word[1..] + digits && (word + digits)[0] == word[0];
  }

  lemma PascalFirst(word: string, rest: seq<string>)
    ensures Pascal([word] + rest) == Capitalized(word) + Pascal(rest)
  {
    assert ([word] + rest)[1..] == rest;
  }

  /** A later word that begins with a digit never shows: it reads as the end of the word before it. */
  lemma {:induction false} DigitWordsMerge(front: seq<string>, word: string, digits: string, rest: seq<string>)
    requires word != "" && digits != "" && Digit(digits[0])
    ensures Pascal(front + ([word, digits] + rest)) == Pascal(front + ([word + digits] + rest))
  {
    hide Pascal, Capitalized;
    if front == [] {
      CapitalizedJoined(word, digits);
      PascalFirst(word, [digits] + rest);
      PascalFirst(digits, rest);
      PascalFirst(word + digits, rest);
      assert [word, digits] + rest == [word] + ([digits] + rest);
      assert front + ([word, digits] + rest) == [word, digits] + rest && front + ([word + digits] + rest) == [word + digits] + rest;
    } else {
      DigitWordsMerge(front[1..], word, digits, rest);
      PascalFirst(front[0], front[1..] + ([word, digits] + rest));
      PascalFirst(front[0], front[1..] + ([word + digits] + rest));
      assert front + ([word, digits] + rest) == [front[0]] + (front[1..] + ([word, digits] + rest));
      assert front + ([word + digits] + rest) == [front[0]] + (front[1..] + ([word + digits] + rest));
    }
  }

  lemma {:induction false} PascalAppend(a: seq<string>, b: seq<string>)
    ensures Pascal(a + b) == Pascal(a) + Pascal(b)
  {
    hide Capitalized;
    if a == [] {
      assert a + b == b;
    } else {
      assert (a + b)[1..] == a[1..] + b;
      PascalAppend(a[1..], b);
    }
  }

  lemma {:induction false} WordsAppend(a: seq<string>, b: seq<string>)
    ensures Words(a + b) == Words(a) + Words(b)
  {
    if a == [] {
      assert a + b == b;
    } else {
      assert (a + b)[1..] == a[1..] + b;
      WordsAppend(a[1..], b);
    }
  }

  /** What a postfix gives to the name, and how many words it has. */
  function PascalOf(p: string): string
  {
    Pascal(SplitOn(p, '_'))
  }

  function WordCount(p: string): nat
  {
    |Words(SplitOn(p, '_'))|
  }

  /** One more character in front of a split text. */
  function Cons(c: char, parts: seq<string>): seq<string>
    requires parts != []
  {
    if c == '_' then [""] + parts else [[c] + parts[0]] + parts[1..]
  }

  /** The last of the one list and the first of the other made one. */
  function Fused(x: seq<string>, y: seq<string>): (z: seq<string>)
    requires x != [] && y != []
    ensures z != []
  {
    x[..|x| - 1] + ([x[|x| - 1] + y[0]] + y[1..])
  }

  lemma SplitFirst(s: string)
    requires s != ""
    ensures SplitOn(s, '_') == Cons(s[0], SplitOn(s[1..], '_'))
  {
  }

  lemma ConsFused(c: char, x: seq<string>, y: seq<string>)
    requires x != [] && y != []
    ensures Cons(c, x) != [] && Cons(c, Fused(x, y)) == Fused(Cons(c, x), y)
  {
    if c != '_' && |x| == 1 {
      assert [c] + (x[0] + y[0]) == ([c] + x[0]) + y[0];
      assert Fused(x, y) == [x[0] + y[0]] + y[1..];
    }
  }

  /** Run together, the last segment of one text and the first of the other become one. */
  lemma {:induction false} RunTogether(a: string, b: string)
    ensures SplitOn(a + b, '_') == Fused(SplitOn(a, '_'), SplitOn(b, '_'))
  {
    hide SplitOn, Cons, Fused;
    if a == "" {
      assert a + b == b;
      NothingFused(SplitOn(b, '_'));
    } else {
      assert (a + b)[1..] == a[1..] + b && (a + b)[0] == a[0];
      RunTogether(a[1..], b);
      SplitFirst(a);
      SplitFirst(a + b);
      ConsFused(a[0], SplitOn(a[1..], '_'), SplitOn(b, '_'));
    }
  }

  lemma NothingFused(y: seq<string>)
    requires y != []
    ensures SplitOn("", '_') == [""] && Fused([""], y) == y
  {
    assert "" + y[0] == y[0] && [y[0]] + y[1..] == y;
  }

  lemma FusedBlank(x: seq<string>, y: seq<string>)
    requires x != []
    ensures Fused(x, [""] + y) == x + y
  {
    assert x[|x| - 1] + "" == x[|x| - 1] && x == x[..|x| - 1] + [x[|x| - 1]];
  }

  /** An underscore joins what stands on its sides, empty or not. */
  lemma UnderscoreJoins(a: string, b: string)
    ensures PascalOf(a + "_" + b) == PascalOf(a) + PascalOf(b) && WordCount(a + "_" + b) == WordCount(a) + WordCount(b)
  {
    hide SplitOn, Pascal, Words, Fused;
    RunTogether(a, "_" + b);
    assert a + "_" + b == a + ("_" + b) && ("_" + b)[1..] == b;
    SplitFirst("_" + b);
    FusedBlank(SplitOn(a, '_'), SplitOn(b, '_'));
    PascalAppend(SplitOn(a, '_'), SplitOn(b, '_'));
    WordsAppend(SplitOn(a, '_'), SplitOn(b, '_'));
  }

  lemma {:induction false} LastSegment(a: string)
    requires a != "" && a[|a| - 1] != '_'
    ensures var x := SplitOn(a, '_'); x[|x| - 1] != ""
  {
    if |a| > 1 {
      LastSegment(a[1..]);
      assert a[1..][|a[1..]| - 1] == a[|a| - 1];
    } else {
      assert a[1..] == "";
    }
  }

  lemma FirstSegment(b: string)
    requires b != "" && b[0] != '_'
    ensures var y := SplitOn(b, '_'); y[0] != "" && y[0][0] == b[0]
  {
  }

  lemma OneWordCount(words: seq<string>)
    requires |words| == 1 && words[0] != ""
    ensures Words(words) == words
  {
    assert words[1..] == [] && [words[0]] == words;
  }

  /** The underscore before a digit does not show in the name, though it parts two words. */
  lemma DigitUnderscore(a: string, b: string)
    requires a != "" && a[|a| - 1] != '_' && b != "" && Digit(b[0])
    ensures PascalOf(a + b) == PascalOf(a) + PascalOf(b) && WordCount(a + b) + 1 == WordCount(a) + WordCount(b)
  {
    hide SplitOn, Pascal, Words;
    var x, y := SplitOn(a, '_'), SplitOn(b, '_');
    var n := |x| - 1;
    RunTogether(a, b);
    LastSegment(a);
    FirstSegment(b);
    DigitWordsMerge(x[..n], x[n], y[0], y[1..]);
    assert x == x[..n] + [x[n]] && y == [y[0]] + y[1..];
    assert x[..n] + ([x[n], y[0]] + y[1..]) == x + y;
    PascalAppend(x, y);
    WordsAppend(x[..n], [x[n]]);
    WordsAppend([y[0]], y[1..]);
    WordsAppend(x[..n], [x[n] + y[0]] + y[1..]);
    WordsAppend([x[n] + y[0]], y[1..]);
    OneWordCount([x[n]]);
    OneWordCount([y[0]]);
    OneWordCount([x[n] + y[0]]);
  }

  /** The last digit of an id can stand before a first word that begins with a digit. */
  lemma FirstDigitMoves(i: nat, p: string)
    requires i >= 10 && p != "" && Digit(p[0])
    ensures CamelName(i, p) == CamelName(i / 10, ['0' + (i % 10) as char] + p)
  {
    hide SplitOn, Pascal, Capitalized;
    var last := ['0' + (i % 10) as char];
    var y := SplitOn(p, '_');
    LastDigit(i);
    RunTogether(last, p);
    SplitPlain(last, '_');
    FirstSegment(p);
    CapitalizedJoined(last, y[0]);
    CapitalizedDigit(last);
    PascalFirst(last + y[0], y[1..]);
    PascalFirst(y[0], y[1..]);
    assert [y[0]] + y[1..] == y;
    assert Fused([last], y) == [last + y[0]] + y[1..];
    assert "ufCrm" + Decimal(i / 10) + (last + Pascal(y)) == "ufCrm" + (Decimal(i / 10) + last) + Pascal(y);
  }

  lemma LastDigit(i: nat)
    requires i >= 10
    ensures Decimal(i) == Decimal(i / 10) + ['0' + (i % 10) as char]
    ensures Digit('0' + (i % 10) as char) && '0' + (i % 10) as char != '_'
  {
  }

  lemma CapitalizedDigit(last: string)
    requires |last| == 1 && Digit(last[0])
    ensures Capitalized(last) == last
  {
    DigitsHaveNoCase(last[0]);
    assert last[1..] == "" && LowerAll("") == "";
  }

  lemma LeadingUnderscore(b: string)
    ensures PascalOf("_" + b) == PascalOf(b)
  {
    UnderscoreJoins("", b);
    assert "" + "_" + b == "_" + b && PascalOf("") == "" by {
      assert SplitOn("", '_') == [""] && [""][1..] == [];
      assert Capitalized("") + Pascal([]) == "";
    }
  }

  /** What stands in front of a digit that begins a word: underscores, and before them a word or nothing. */
  lemma {:induction false} BeforeDigit(a: string, b: string)
    requires b != "" && Digit(b[0]) && (a == "" || a[|a| - 1] == '_')
    ensures PascalOf(a + b) == PascalOf(b) || exists q :: PascalOf(q) == PascalOf(a + b) && WordCount(q) != WordCount(a + b)
    decreases |a|, 0
  {
    hide PascalOf, WordCount;
    if a == "" {
      assert a + b == b;
    } else {
      var n := |a| - 1;
      var front := a[..n];
      assert a == front + "_" && a + b == front + "_" + b;
      UnderscoreJoins(front, b);
      if front == "" || front[|front| - 1] == '_' {
        OnlyUnderscores(front, b);
      } else {
        DigitUnderscore(front, b);
        assert PascalOf(front + b) == PascalOf(a + b);
      }
    }
  }

  /** One underscore less. */
  lemma OnlyUnderscores(front: string, b: string)
    requires b != "" && Digit(b[0]) && (front == "" || front[|front| - 1] == '_')
    ensures PascalOf(front + "_" + b) == PascalOf(b) ||
            exists q :: PascalOf(q) == PascalOf(front + "_" + b) && WordCount(q) != WordCount(front + "_" + b)
    decreases |front|, 1
  {
    hide PascalOf, WordCount;
    UnderscoreJoins(front, b);
    if front == "" {
      LeadingUnderscore(b);
      assert front + "_" + b == "_" + b;
    } else {
      BeforeDigit(front, b);
      EmptyEnd(front, b);
    }
  }

  /** Behind an underscore nothing of the name tells whether there is one more. */
  lemma EmptyEnd(front: string, b: string)
    requires front != "" && front[|front| - 1] == '_'
    ensures PascalOf(front + b) == PascalOf(front) + PascalOf(b) && WordCount(front + b) == WordCount(front) + WordCount(b)
  {
    hide PascalOf, WordCount;
    var core := front[..|front| - 1];
    assert front == core + "_" && front + b == core + "_" + b && front == core + "_" + "";
    UnderscoreJoins(core, b);
    UnderscoreJoins(core, "");
    NoWords();
  }

  lemma NoWords()
    ensures PascalOf("") == "" && WordCount("") == 0
  {
    assert SplitOn("", '_') == [""] && [""][1..] == [];
  }

  /** The words alone decide the name's end, and a first word that begins with a digit moves its id. */
  predicate Meets(i: nat, p: string, j: nat, q: string)
  {
    CamelName(i, p) == CamelName(j, q) && (i != j || Words(SplitOn(p, '_')) != Words(SplitOn(q, '_')))
  }

  /** Every postfix that has a digit where a word begins shares a camel name with another id or with other
      words: the condition of `CamelInjective` cannot be widened. */
  lemma DigitBeginsMeets(a: string, b: string)
    requires b != "" && Digit(b[0]) && (a == "" || a[|a| - 1] == '_')
    ensures exists i: nat, j: nat, q :: Meets(i, a + b, j, q)
  {
    hide PascalOf, WordCount, SplitOn, Words, Pascal;
    BeforeDigit(a, b);
    if PascalOf(a + b) == PascalOf(b) {
      FirstDigitMoves(10, b);
      SameEnd(10, a + b, b);
      assert Meets(10, a + b, 1, ['0' + (10 % 10) as char] + b);
    } else {
      var q :| PascalOf(q) == PascalOf(a + b) && WordCount(q) != WordCount(a + b);
      SameEnd(0, a + b, q);
      assert WordCount(q) == |Words(SplitOn(q, '_'))| && WordCount(a + b) == |Words(SplitOn(a + b, '_'))| by { CountIs(q); CountIs(a + b); }
      assert Meets(0, a + b, 0, q);
    }
  }

  lemma CountIs(p: string)
    ensures WordCount(p) == |Words(SplitOn(p, '_'))|
  {
  }

  lemma SameEnd(i: nat, p: string, q: string)
    requires PascalOf(p) == PascalOf(q)
    ensures CamelName(i, p) == CamelName(i, q)
  {
  }

  /** With words that begin with digits the guarantee is gone: two different postfixes, one camel name. */
  lemma DigitsBreakCamel()
    ensures CamelName(7, "A_1") == CamelName(7, "A1") && "A_1" != "A1"
  {
    SplitAppend("A", "1", '_');
    SplitPlain("1", '_');
    SplitPlain("A1", '_');
    assert "A_1" == "A" + "_" + "1";
    assert Pascal(["A", "1"]) == "A1" by {
      assert ["A", "1"][1..] == ["1"] && ["1"][1..] == [];
      assert Capitalized("A") == "A" && Capitalized("1") == "1";
    }
    assert Pascal(["A1"]) == "A1" by {
      assert ["A1"][1..] == [] && Capitalized("A1") == "A1";
    }
  }

  // ---- The fields

  datatype UserType = Double | Boolean | Textual | Integer | Date

  datatype Field = Field(postfix: string, userType: UserType)

  const TOTAL := Field("TOTAL", Double)
  const CURRENCY := Field("CURRENCY", Textual)
  const NEED_DISTR := Field("NEED" + "_" + "DISTR", Double)
  const NEEDS_REDISTR := Field("NEEDS" + "_" + "REDISTR", Boolean)
  const MARKER := Field("MARKER", Textual)
  const OP_DATE := Field("OP" + "_" + "DATE", Date)
  const DIRECTION := Field("DIRECTION", Textual)
  const COUNTERPARTY := Field("COUNTERPARTY", Textual)
  const CP_ACCOUNT := Field("CP" + "_" + "ACCOUNT", Textual)
  const CP_UNP := Field("CP" + "_" + "UNP", Textual)
  const PURPOSE := Field("PURPOSE", Textual)
  const OWN_ACCOUNT := Field("OWN" + "_" + "ACCOUNT", Textual)
  const BANK := Field("BANK", Textual)

  const PARENT_PAYMENT := Field("PARENT" + "_" + "PAYMENT", Integer)
  const AMOUNT := Field("AMOUNT", Double)
  const TARGET_KIND := Field("TARGET" + "_" + "KIND", Textual)
  const TARGET_ID := Field("TARGET" + "_" + "ID", Textual)
  const SOURCE := Field("SOURCE", Textual)
  const STATUS := Field("STATUS", Textual)

  const PAYMENT_FIELDS := [TOTAL, CURRENCY, NEED_DISTR, NEEDS_REDISTR, MARKER, OP_DATE, DIRECTION, COUNTERPARTY,
                           CP_ACCOUNT, CP_UNP, PURPOSE, OWN_ACCOUNT, BANK]
  const DISTRIBUTION_FIELDS := [PARENT_PAYMENT, AMOUNT, CURRENCY, TARGET_KIND, TARGET_ID, SOURCE, STATUS, MARKER]

  /** No two fields of a table compare as equal. */
  predicate Apart(fields: seq<Field>)
  {
    forall i, j :: 0 <= i < j < |fields| ==> Normal(fields[i].postfix) != Normal(fields[j].postfix)
  }

  lemma {:induction false} NormalOfWord(w: string)
    requires w != "" && '_' !in w
    ensures |Normal(w)| == |w| && Normal(w)[0] == Lower(w[0]) && (|w| > 1 ==> Normal(w)[1] == Lower(w[1]))
  {
    if |w| > 1 {
      NormalOfWord(w[1..]);
    } else {
      assert w[1..] == "";
    }
  }

  lemma TwoWords(a: string, b: string)
    requires Word(a) && Word(b)
    ensures |Normal(a + "_" + b)| == |a| + |b| && Normal(a + "_" + b)[0] == Lower(a[0])
    ensures Postfix(a + "_" + b)
  {
    hide Normal;
    assert '_' !in a && '_' !in b;
    NormalOfWord(a);
    NormalOfWord(b);
    NormalAppend(a + "_", b);
    NormalAppend(a, "_");
    Underscore();
    SplitJoin([a, b], '_');
    assert [a, b][1..] == [b];
    assert Join([a, b], ['_']) == a + "_" + b;
  }

  lemma OneWord(w: string)
    requires Word(w)
    ensures |Normal(w)| == |w| && Normal(w)[0] == Lower(w[0]) && (|w| > 1 ==> Normal(w)[1] == Lower(w[1]))
    ensures Postfix(w)
  {
    assert '_' !in w;
    NormalOfWord(w);
    SplitPlain(w, '_');
  }

  /** The place of a payment field, told from the length and the first letter of its normal form. */
  function PaymentPlace(n: nat, c: char): nat
  {
    if n == 5 && c == 't' then 0
    else if n == 8 && c == 'c' then 1
    else if n == 9 && c == 'n' then 2
    else if n == 12 && c == 'n' then 3
    else if n == 6 && c == 'm' then 4
    else if n == 6 && c == 'o' then 5
    else if n == 9 && c == 'd' then 6
    else if n == 12 && c == 'c' then 7
    else if n == 9 && c == 'c' then 8
    else if n == 5 && c == 'c' then 9
    else if n == 7 && c == 'p' then 10
    else if n == 10 && c == 'o' then 11
    else 12
  }

  predicate PaymentPlaced(f: Field, k: nat)
  {
    Postfix(f.postfix) && Normal(f.postfix) != "" && PaymentPlace(|Normal(f.postfix)|, Normal(f.postfix)[0]) == k
  }

  lemma PaymentMoneyPlaced()
    ensures PaymentPlaced(TOTAL, 0) && PaymentPlaced(CURRENCY, 1) && PaymentPlaced(NEED_DISTR, 2) && PaymentPlaced(NEEDS_REDISTR, 3)
  {
    hide Normal, Postfix;
    OneWord("TOTAL");
    OneWord("CURRENCY");
    TwoWords("NEED", "DISTR");
    TwoWords("NEEDS", "REDISTR");
  }

  lemma PaymentOperationPlaced()
    ensures PaymentPlaced(MARKER, 4) && PaymentPlaced(OP_DATE, 5) && PaymentPlaced(DIRECTION, 6) && PaymentPlaced(COUNTERPARTY, 7)
  {
    hide Normal, Postfix;
    OneWord("MARKER");
    TwoWords("OP", "DATE");
    OneWord("DIRECTION");
    OneWord("COUNTERPARTY");
  }

  lemma PaymentAccountPlaced()
    ensures PaymentPlaced(CP_ACCOUNT, 8) && PaymentPlaced(CP_UNP, 9) && PaymentPlaced(PURPOSE, 10) && PaymentPlaced(OWN_ACCOUNT, 11) && PaymentPlaced(BANK, 12)
  {
    hide Normal, Postfix;
    TwoWords("CP", "ACCOUNT");
    TwoWords("CP", "UNP");
    OneWord("PURPOSE");
    TwoWords("OWN", "ACCOUNT");
    OneWord("BANK");
  }

  lemma PaymentAt(k: nat)
    requires k < |PAYMENT_FIELDS|
    ensures PaymentPlaced(PAYMENT_FIELDS[k], k)
  {
    hide PaymentPlaced, TOTAL, CURRENCY, NEED_DISTR, NEEDS_REDISTR, MARKER, OP_DATE, DIRECTION, COUNTERPARTY, CP_ACCOUNT,
         CP_UNP, PURPOSE, OWN_ACCOUNT, BANK;
    PaymentMoneyPlaced();
    PaymentOperationPlaced();
    PaymentAccountPlaced();
  }

  /** The payment fields compare apart, and each has a postfix of plain words. */
  lemma PaymentFieldsApart()
    ensures Apart(PAYMENT_FIELDS) && forall f :: f in PAYMENT_FIELDS ==> Postfix(f.postfix)
  {
    hide Normal, Postfix, PaymentPlace, PAYMENT_FIELDS;
    forall k | 0 <= k < |PAYMENT_FIELDS| ensures PaymentPlaced(PAYMENT_FIELDS[k], k) {
      PaymentAt(k);
    }
  }

  /** The same for the fields of the ledger rows; SOURCE and STATUS differ in their second letter. */
  function RowPlace(n: string): nat
    requires |n| > 1
  {
    if |n| == 13 then 0
    else if |n| == 10 then 3
    else if |n| == 8 then if n[0] == 'c' then 2 else 4
    else if n[0] == 'a' then 1
    else if n[0] == 'm' then 7
    else if n[1] == 'o' then 5 else 6
  }

  predicate RowPlaced(f: Field, k: nat)
  {
    Postfix(f.postfix) && |Normal(f.postfix)| > 1 && RowPlace(Normal(f.postfix)) == k
  }

  lemma RowTargetPlaced()
    ensures RowPlaced(PARENT_PAYMENT, 0) && RowPlaced(TARGET_KIND, 3) && RowPlaced(TARGET_ID, 4) && RowPlaced(CURRENCY, 2)
  {
    hide Normal, Postfix;
    TwoWords("PARENT", "PAYMENT");
    TwoWords("TARGET", "KIND");
    TwoWords("TARGET", "ID");
    OneWord("CURRENCY");
  }

  lemma RowStatePlaced()
    ensures RowPlaced(AMOUNT, 1) && RowPlaced(SOURCE, 5) && RowPlaced(STATUS, 6) && RowPlaced(MARKER, 7)
  {
    hide Normal, Postfix;
    OneWord("AMOUNT");
    OneWord("SOURCE");
    OneWord("STATUS");
    OneWord("MARKER");
  }

  lemma RowAt(k: nat)
    requires k < |DISTRIBUTION_FIELDS|
    ensures RowPlaced(DISTRIBUTION_FIELDS[k], k)
  {
    hide RowPlaced, PARENT_PAYMENT, AMOUNT, CURRENCY, TARGET_KIND, TARGET_ID, SOURCE, STATUS, MARKER;
    RowTargetPlaced();
    RowStatePlaced();
  }

  /** The ledger row fields compare apart, and each has a postfix of plain words. */
  lemma RowFieldsApart()
    ensures Apart(DISTRIBUTION_FIELDS) && forall f :: f in DISTRIBUTION_FIELDS ==> Postfix(f.postfix)
  {
    hide Normal, Postfix, RowPlace, DISTRIBUTION_FIELDS;
    forall k | 0 <= k < |DISTRIBUTION_FIELDS| ensures RowPlaced(DISTRIBUTION_FIELDS[k], k) {
      RowAt(k);
    }
  }

  // ---- Planning the missing fields

  /** One `userfieldconfig.add` call; money fields carry a precision of 2. */
  datatype FieldCall = FieldCall(entityId: string, fieldName: string, userType: UserType, precision: Option<nat>)

  function FieldConfigCall(id: nat, f: Field): FieldCall
  {
    FieldCall("CRM_" + Decimal(id), CreatedName(id, f.postfix), f.userType, if f.userType.Double? then Some(2) else None)
  }

  predicate Present(name: string, existing: seq<string>)
  {
    exists k :: 0 <= k < |existing| && Normal(existing[k]) == Normal(name)
  }

  function PlanMissing(id: nat, fields: seq<Field>, existing: seq<string>): seq<FieldCall>
  {
    if fields == [] then []
    else
      (if Present(CreatedName(id, fields[0].postfix), existing) then [] else [FieldConfigCall(id, fields[0])])
      + PlanMissing(id, fields[1..], existing)
  }

  // ---- What planning achieves

  /** `name` spells the field with this postfix, in one of the three forms. */
  predicate Spells(name: string, id: nat, postfix: string)
  {
    name == CreatedName(id, postfix) || name == StoredName(id, postfix) || name == CamelName(id, postfix)
  }

  /** A listing of a process that has the fields of `present`: each is spelled in some form, and any
      other name compares unlike every field of the table. */
  ghost predicate Lists(id: nat, fields: seq<Field>, present: set<string>, listing: seq<string>)
  {
    && (forall p :: p in present ==> exists k :: 0 <= k < |listing| && Spells(listing[k], id, p))
    && (forall k :: 0 <= k < |listing| ==>
          || (exists f :: f in fields && f.postfix in present && Spells(listing[k], id, f.postfix))
          || (forall f :: f in fields ==> Normal(listing[k]) != Normal(CreatedName(id, f.postfix))))
  }

  ghost function Absent(fields: seq<Field>, present: set<string>): seq<Field>
  {
    if fields == [] then []
    else (if fields[0].postfix in present then [] else [fields[0]]) + Absent(fields[1..], present)
  }

  ghost function Calls(id: nat, fields: seq<Field>): (calls: seq<FieldCall>)
    ensures |calls| == |fields|
  {
    seq(|fields|, k requires 0 <= k < |fields| => FieldConfigCall(id, fields[k]))
  }

  lemma SpelledAlike(name: string, id: nat, p: string)
    requires Spells(name, id, p)
    ensures Normal(name) == Prefix(id) + Normal(p) && Normal(name) == Normal(CreatedName(id, p))
  {
    OneNormalForm(id, p);
  }

  lemma ApartNames(id: nat, fields: seq<Field>, f: Field, g: Field)
    requires Apart(fields) && f in fields && g in fields
    requires Normal(CreatedName(id, f.postfix)) == Normal(CreatedName(id, g.postfix))
    ensures f.postfix == g.postfix
  {
    hide Normal, CreatedName;
    OneNormalForm(id, f.postfix);
    OneNormalForm(id, g.postfix);
    SameParts(Prefix(id), Normal(f.postfix), Prefix(id), Normal(g.postfix));
  }

  /** A field is seen in a listing exactly when the process has it, whichever forms are listed. */
  lemma PresentExactly(id: nat, fields: seq<Field>, present: set<string>, listing: seq<string>, f: Field)
    requires Apart(fields) && Lists(id, fields, present, listing) && f in fields
    ensures Present(CreatedName(id, f.postfix), listing) <==> f.postfix in present
  {
    hide Normal, CreatedName, Spells, Apart;
    if f.postfix in present {
      var k :| 0 <= k < |listing| && Spells(listing[k], id, f.postfix);
      SpelledAlike(listing[k], id, f.postfix);
    }
    if Present(CreatedName(id, f.postfix), listing) {
      var k :| 0 <= k < |listing| && Normal(listing[k]) == Normal(CreatedName(id, f.postfix));
      var g :| g in fields && g.postfix in present && Spells(listing[k], id, g.postfix);
      SpelledAlike(listing[k], id, g.postfix);
      ApartNames(id, fields, f, g);
    }
  }

  lemma {:induction false} PlanOf(id: nat, fields: seq<Field>, present: set<string>, listing: seq<string>)
    requires forall f :: f in fields ==> (Present(CreatedName(id, f.postfix), listing) <==> f.postfix in present)
    ensures PlanMissing(id, fields, listing) == Calls(id, Absent(fields, present))
  {
    hide Present, CreatedName;
    if fields != [] {
      PlanOf(id, fields[1..], present, listing);
    }
  }

  /** Planning creates exactly the absent fields, in table order, whichever forms the portal lists. */
  lemma PlanExactly(id: nat, fields: seq<Field>, present: set<string>, listing: seq<string>)
    requires Apart(fields) && Lists(id, fields, present, listing)
    ensures PlanMissing(id, fields, listing) == Calls(id, Absent(fields, present))
  {
    hide Present, CreatedName, Lists, Apart;
    forall f | f in fields ensures Present(CreatedName(id, f.postfix), listing) <==> f.postfix in present {
      PresentExactly(id, fields, present, listing, f);
    }
    PlanOf(id, fields, present, listing);
  }

  /** Each planned call is for a field of the table that is listed in no form: created at the type, under the long name,
      with its own type, and with two digits behind the point exactly if it is an amount. */
  lemma {:induction false} PlannedFor(id: nat, fields: seq<Field>, existing: seq<string>, call: FieldCall)
    requires call in PlanMissing(id, fields, existing)
    ensures exists f :: f in fields && call == FieldCall("CRM_" + Decimal(id), "UF_CRM_" + Decimal(id) + "_" + f.postfix, f.userType,
                                                         if f.userType == Double then Some(2) else None)
                        && forall k :: 0 <= k < |existing| ==> Normal(existing[k]) != Normal("UF_CRM_" + Decimal(id) + "_" + f.postfix)
  {
    hide Normal, Decimal;
    if call == FieldConfigCall(id, fields[0]) && !Present(CreatedName(id, fields[0].postfix), existing) {
      assert fields[0] in fields;
    } else {
      PlannedFor(id, fields[1..], existing, call);
    }
  }

  ghost function Postfixes(fields: seq<Field>): set<string>
  {
    set f | f in fields :: f.postfix
  }

  lemma {:induction false} OtherFieldIrrelevant(fields: seq<Field>, present: set<string>, p: string)
    requires forall f :: f in fields ==> f.postfix != p
    ensures Absent(fields, present + {p}) == Absent(fields, present)
  {
    if fields != [] {
      OtherFieldIrrelevant(fields[1..], present, p);
    }
  }

  lemma PostfixesOfMore(f: Field, fields: seq<Field>)
    ensures Postfixes([f] + fields) == {f.postfix} + Postfixes(fields)
  {
    assert f in [f] + fields;
    assert forall g :: g in fields ==> g in [f] + fields;
  }

  lemma {:induction false} AbsentAfter(fields: seq<Field>, present: set<string>, n: nat)
    requires n <= |Absent(fields, present)|
    requires forall i, j :: 0 <= i < j < |fields| ==> fields[i].postfix != fields[j].postfix
    ensures Absent(fields, present + Postfixes(Absent(fields, present)[..n])) == Absent(fields, present)[n..]
  {
    hide Postfixes, Absent;
    if n == 0 {
      assert present + Postfixes([]) == present by { NoPostfixes(); }
      assert Absent(fields, present)[..0] == [];
    } else {
      assert fields != [] by { NothingAbsent(present); }
      AbsentFirst(fields, present);
      var f, rest := fields[0], fields[1..];
      var later := Absent(rest, present);
      if f.postfix in present {
        AbsentAfter(rest, present, n);
        assert [] + later == later;
        var done := present + Postfixes(later[..n]);
        AbsentFirst(fields, done);
        assert [] + Absent(rest, done) == Absent(rest, done);
      } else {
        AbsentAfter(rest, present, n - 1);
        var head := later[..n - 1];
        AbsentFirst(fields, present + Postfixes(head) + {f.postfix});
        assert [] + later[n - 1..] == later[n - 1..];
        assert ([f] + later)[..n] == [f] + head && ([f] + later)[n..] == later[n - 1..];
        PostfixesOfMore(f, head);
        assert present + Postfixes([f] + head) == present + Postfixes(head) + {f.postfix};
        OtherFieldIrrelevant(rest, present + Postfixes(head), f.postfix);
      }
    }
  }

  lemma NothingAbsent(present: set<string>)
    ensures Absent([], present) == []
  {
  }

  lemma AbsentFirst(fields: seq<Field>, present: set<string>)
    requires fields != []
    ensures Absent(fields, present) == (if fields[0].postfix in present then [] else [fields[0]]) + Absent(fields[1..], present)
  {
  }

  lemma NoPostfixes()
    ensures Postfixes([]) == {}
  {
  }

  lemma {:induction false} NoneAbsent(fields: seq<Field>, present: set<string>)
    ensures Absent(fields, present) == [] <==> Postfixes(fields) <= present
  {
    if fields != [] {
      NoneAbsent(fields[1..], present);
      assert Postfixes(fields) == {fields[0].postfix} + Postfixes(fields[1..]);
    }
  }

  /** Provisioning heals itself: stopped after any number of calls, the next run, over a listing in any
      forms, plans exactly the calls still due, and once all are done it plans nothing and the process
      has every field. */
  lemma PlanResumes(id: nat, fields: seq<Field>, present: set<string>, listing: seq<string>, n: nat, later: seq<string>)
    requires Apart(fields) && Lists(id, fields, present, listing) && n <= |Absent(fields, present)|
    requires Lists(id, fields, present + Postfixes(Absent(fields, present)[..n]), later)
    ensures |PlanMissing(id, fields, listing)| == |Absent(fields, present)|
    ensures PlanMissing(id, fields, later) == PlanMissing(id, fields, listing)[n..]
    ensures n == |Absent(fields, present)| ==>
              PlanMissing(id, fields, later) == [] && Postfixes(fields) <= present + Postfixes(Absent(fields, present)[..n])
  {
    hide Lists, Normal, PlanMissing;
    var absent := Absent(fields, present);
    var done := present + Postfixes(absent[..n]);
    PlanExactly(id, fields, present, listing);
    PlanExactly(id, fields, done, later);
    AbsentAfter(fields, present, n);
    NoneAbsent(fields, done);
    assert Calls(id, absent)[n..] == Calls(id, absent[n..]);
  }
}
