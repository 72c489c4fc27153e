/** What a feedback issue tells its reader (app/utils/feedback.ts): the rating, the comment, each context
    value under its title, and the statement, as they were given. */
module FeedbackReport {
  import opened Outcome
  import opened Text
  import opened Feedback

  // ---- Reading escaped text

  /** What a reader of HTML sees. */
  function Unescaped(t: string): string
  {
    if t == "" then ""
    else if |t| >= 5 && t[..5] == "&amp;" then "&" + Unescaped(t[5..])
    else if |t| >= 4 && t[..4] == "&lt;" then "<" + Unescaped(t[4..])
    else if |t| >= 4 && t[..4] == "&gt;" then ">" + Unescaped(t[4..])
    else [t[0]] + Unescaped(t[1..])
  }

  lemma EntityReads(c: char, rest: string)
    ensures Unescaped(Entity(c) + rest) == [c] + Unescaped(rest)
  {
    var t := Entity(c) + rest;
    if c == '&' {
      assert t[..5] == "&amp;" && t[5..] == rest;
    } else if c == '<' {
      assert t[..4] == "&lt;" && t[4..] == rest && t[1] != 'a';
      assert |t| >= 5 ==> t[..5][1] == 'l' && "&amp;"[1] == 'a';
    } else if c == '>' {
      assert t[..4] == "&gt;" && t[4..] == rest && t[1] != 'a';
      assert |t| >= 5 ==> t[..5][1] == 'g' && "&amp;"[1] == 'a';
      assert t[..4][1] == 'g' && "&lt;"[1] == 'l';
    } else {
      assert t[0] == c && t[1..] == rest;
      assert |t| >= 5 ==> t[..5][0] != '&';
      assert |t| >= 4 ==> t[..4][0] != '&';
    }
  }

  /** Escaping loses nothing: the reader sees the text itself. */
  lemma {:induction false} EscapeReads(s: string)
    ensures Unescaped(EscapeEach(s)) == s
  {
    hide Entity, Unescaped;
    if s == "" {
      NothingReads();
    } else {
      EscapeReads(s[1..]);
      EntityReads(s[0], EscapeEach(s[1..]));
      assert s == [s[0]] + s[1..];
    }
  }

  lemma NothingReads()
    ensures Unescaped("") == ""
  {
  }

  lemma SpaceStays(c: char)
    ensures IsSpace(c) ==> Entity(c) == [c]
    ensures Entity(c) != "" && (IsSpace(Entity(c)[0]) ==> IsSpace(c)) && (IsSpace(Entity(c)[|Entity(c)| - 1]) ==> IsSpace(c))
  {
  }

  lemma {:induction false} BlankEscapes(s: string)
    requires Blank(s)
    ensures EscapeEach(s) == s
  {
    hide Entity, IsSpace;
    if s != "" {
      SpaceStays(s[0]);
      BlankEscapes(s[1..]);
      assert s == [s[0]] + s[1..];
    }
  }

  lemma TrimmedEscapes(s: string)
    requires Trimmed(s)
    ensures Trimmed(EscapeEach(s)) && (EscapeEach(s) == "" <==> s == "")
  {
    hide Entity, IsSpace, EscapeEach;
    if s == "" {
      NothingEscapes();
    } else {
      var n := |s| - 1;
      EscapeFirst(s);
      SpaceStays(s[0]);
      SpaceStays(s[n]);
      EscapedSplit(s, n);
      NothingEscapes();
      assert s[n + 1..] == "";
      var e := EscapeEach(s);
      assert e == EscapeEach(s[..n]) + Entity(s[n]);
      assert e[0] == Entity(s[0])[0];
      assert e[|e| - 1] == Entity(s[n])[|Entity(s[n])| - 1];
    }
  }

  lemma NothingEscapes()
    ensures EscapeEach("") == ""
  {
  }

  /** Trimming the escaped text is escaping the trimmed one. */
  lemma EscapeTrims(s: string)
    ensures Trim(EscapeEach(s)) == EscapeEach(Trim(s))
  {
    hide Entity, IsSpace, EscapeEach, Trim;
    var left, right := TrimKeeps(s);
    EscapeAppend(left + Trim(s), right);
    EscapeAppend(left, Trim(s));
    BlankEscapes(left);
    BlankEscapes(right);
    TrimmedEscapes(Trim(s));
    TrimPadded(left, EscapeEach(Trim(s)), right);
  }

  // ---- What is stripped, and what is cut

  lemma {:induction false} StripAppend(a: string, b: string)
    ensures StripHostileChars(a + b) == StripHostileChars(a) + StripHostileChars(b)
  {
    hide Hostile;
    if a == "" {
      assert a + b == b;
    } else {
      assert (a + b)[1..] == a[1..] + b;
      StripAppend(a[1..], b);
    }
  }

  lemma {:induction false} StripPlain(s: string)
    requires forall k :: 0 <= k < |s| ==> !Hostile(s[k])
    ensures StripHostileChars(s) == s
  {
    hide Hostile;
    if s != "" {
      StripPlain(s[1..]);
      assert s == [s[0]] + s[1..];
    }
  }

  /** A hostile character goes, wherever it stands; every other one stays where it is. */
  lemma StripExactly(a: string, c: char, b: string)
    ensures StripHostileChars(a + [c] + b) == StripHostileChars(a) + (if Hostile(c) then "" else [c]) + StripHostileChars(b)
  {
    hide Hostile, StripHostileChars;
    StripAppend(a + [c], b);
    StripAppend(a, [c]);
    StripOne(c);
  }

  lemma StripOne(c: char)
    ensures StripHostileChars([c]) == if Hostile(c) then "" else [c]
  {
    hide Hostile;
    assert [c][1..] == "";
  }

  const DIRECTION_CONTROLS := ['\U{61C}', '\U{202A}', '\U{202B}', '\U{202C}', '\U{202D}', '\U{202E}', '\U{2066}', '\U{2067}', '\U{2068}', '\U{2069}']
  const INVISIBLE := ['\U{200B}', '\U{200C}', '\U{200D}', '\U{2028}', '\U{2029}', '\U{2060}', '\U{2061}', '\U{2062}', '\U{2063}', '\U{2064}', '\U{FEFF}']

  /** Below the space only tab, line feed and carriage return stay; of the rest exactly these go. */
  lemma HostileExactly(c: char)
    ensures c < ' ' ==> (Hostile(c) <==> c !in "\t\n\r")
    ensures c >= ' ' ==> (Hostile(c) <==> c in DIRECTION_CONTROLS || c in INVISIBLE)
  {
  }

  /** A comment is kept whole up to five thousand characters, and cut there with a note otherwise. */
  lemma SanitizeExactly(comment: string)
    ensures var kept := StripHostileChars(comment);
            SanitizeComment(comment) == if |kept| <= 5000 then kept else kept[..5000] + "…\n\n[truncated to 5000 characters]"
  {
  }

  // ---- The comment

  /** The lines of the body. */
  function BodyLines(kind: Kind, comment: string, c: Context, file: string): seq<string>
  {
    FrontLines(kind, comment, c) + FileEmbedLines(file)
  }

  /** The body begins with the rating and, between the two tags, the comment as its reader sees it. */
  lemma CommentShown(kind: Kind, comment: string, c: Context, file: string)
    ensures var lines, said := BodyLines(kind, comment, c, file), Trim(SanitizeComment(comment));
            && IssueBody(kind, comment, c, file) == Join(lines, "\n") && |lines| >= 6
            && lines[0] == "- **Оценка:** " + (match kind case Up => "положительный " + Encoded('👍') case Down => "отрицательный " + Encoded('👎'))
            && lines[1] == "" && lines[2] == "**Комментарий:**" && lines[3] == "<pre><code>" && lines[5] == "</code></pre>"
            && (if said == "" then lines[4] == "(без текста)" else lines[4] == EscapeEach(said) && Unescaped(lines[4]) == said)
  {
    hide Encoded, Trim, SanitizeComment, EscapeHtml, EscapeEach, ContextLines, FileEmbedLines, Unescaped, Join;
    var safe := SanitizeComment(comment);
    EscapeIsPerCharacter(safe);
    EscapeTrims(safe);
    var left, right := TrimKeeps(safe);
    TrimmedEscapes(Trim(safe));
    EscapeReads(Trim(safe));
  }

  /** A comment with nothing hostile in it, not too long and not padded, is read as it was written. */
  lemma CommentReadsBack(kind: Kind, comment: string, c: Context, file: string)
    requires comment != "" && Trimmed(comment) && |comment| <= 5000 && forall k :: 0 <= k < |comment| ==> !Hostile(comment[k])
    ensures var lines := BodyLines(kind, comment, c, file); |lines| >= 6 && Unescaped(lines[4]) == comment
  {
    hide Hostile, Trim, IsSpace, BodyLines, Unescaped;
    StripPlain(comment);
    SanitizeExactly(comment);
    TrimOfTrimmed(comment);
    CommentShown(kind, comment, c, file);
  }

  // ---- The context

  function Given(operation: Option<map<string, string>>, key: string): string
  {
    if operation.Some? && key in operation.value then operation.value[key] else ""
  }

  /** Every value a context may hold, under its title. */
  function Titled(c: Context): seq<(string, string)>
  {
    [("Где", c.place), ("Файл", c.fileName), ("Версия приложения", c.appVersion),
     ("Направление", Given(c.operation, "direction")), ("Сумма", Given(c.operation, "amount")),
     ("Валюта", Given(c.operation, "currency")), ("Назначение", Given(c.operation, "purpose")),
     ("Контрагент", Given(c.operation, "counterparty")), ("Счёт контрагента", Given(c.operation, "counterpartyAccount")),
     ("УНП контрагента", Given(c.operation, "counterpartyUnp"))]
  }

  /** The lines of the values that are not blank, in order. */
  function LinesOf(titled: seq<(string, string)>): seq<string>
  {
    if titled == [] then []
    else
      var (title, value) := titled[0];
      (if Flat(value) == "" then [] else ["- **" + title + ":** `" + Flat(value) + "`"]) + LinesOf(titled[1..])
  }

  lemma {:induction false} LinesAppend(a: seq<(string, string)>, b: seq<(string, string)>)
    ensures LinesOf(a + b) == LinesOf(a) + LinesOf(b)
  {
    hide Flat;
    if a == [] {
      assert a + b == b;
    } else {
      assert (a + b)[1..] == a[1..] + b;
      LinesAppend(a[1..], b);
    }
  }

  lemma OneTitled(title: string, value: string)
    ensures ContextLine(title, value) == LinesOf([(title, value)])
  {
    hide Flat;
    assert [(title, value)][1..] == [];
    assert LinesOf([]) == [];
  }

  function FieldsGiven(operation: Option<map<string, string>>, n: nat): seq<(string, string)>
    requires n <= |OPERATION_FIELDS|
  {
    if n == 0 then []
    else
      var (key, title) := OPERATION_FIELDS[n - 1];
      FieldsGiven(operation, n - 1) + [(title, Given(operation, key))]
  }

  lemma FieldsNext(operation: Option<map<string, string>>, n: nat)
    requires 1 <= n <= |OPERATION_FIELDS|
    ensures var (key, title) := OPERATION_FIELDS[n - 1];
            LinesOf(FieldsGiven(operation, n)) == LinesOf(FieldsGiven(operation, n - 1)) + LinesOf([(title, Given(operation, key))])
  {
    hide OPERATION_FIELDS, LinesOf, Given;
    var (key, title) := OPERATION_FIELDS[n - 1];
    LinesAppend(FieldsGiven(operation, n - 1), [(title, Given(operation, key))]);
  }

  lemma OperationNext(operation: map<string, string>, n: nat)
    requires 1 <= n <= |OPERATION_FIELDS|
    ensures var (key, title) := OPERATION_FIELDS[n - 1];
            OperationLines(operation, n) == OperationLines(operation, n - 1) + ContextLine(title, Given(Some(operation), key))
  {
    hide OPERATION_FIELDS, ContextLine;
  }

  lemma {:induction false} OperationTitled(operation: map<string, string>, n: nat)
    requires n <= |OPERATION_FIELDS|
    ensures OperationLines(operation, n) == LinesOf(FieldsGiven(Some(operation), n))
  {
    hide OPERATION_FIELDS, ContextLine, LinesOf, FieldsGiven, OperationLines, Given;
    if n == 0 {
      NoFields(operation);
    } else {
      var (key, title) := OPERATION_FIELDS[n - 1];
      OperationTitled(operation, n - 1);
      OneTitled(title, Given(Some(operation), key));
      FieldsNext(Some(operation), n);
      OperationNext(operation, n);
    }
  }

  lemma NoFields(operation: map<string, string>)
    ensures OperationLines(operation, 0) == [] && forall given :: LinesOf(FieldsGiven(given, 0)) == []
  {
  }

  lemma {:induction false} NoneGiven(n: nat)
    requires n <= |OPERATION_FIELDS|
    ensures LinesOf(FieldsGiven(None, n)) == []
  {
    hide OPERATION_FIELDS, LinesOf, FieldsGiven;
    if n == 0 {
      NoFields(map[]);
    } else {
      NoneGiven(n - 1);
      var (key, title) := OPERATION_FIELDS[n - 1];
      FieldsNext(None, n);
      BlankLine(title);
      assert Given(None, key) == "";
    }
  }

  lemma BlankLine(title: string)
    ensures LinesOf([(title, "")]) == []
  {
    assert StripHostileChars("") == "" && FlattenBreaks("", false) == "" && ReplaceChar("", '`', "") == "";
    assert [(title, "")][1..] == [];
  }

  lemma FieldsListed(operation: Option<map<string, string>>)
    ensures FieldsGiven(operation, 7) ==
            [("Направление", Given(operation, "direction")), ("Сумма", Given(operation, "amount")),
             ("Валюта", Given(operation, "currency")), ("Назначение", Given(operation, "purpose")),
             ("Контрагент", Given(operation, "counterparty")), ("Счёт контрагента", Given(operation, "counterpartyAccount")),
             ("УНП контрагента", Given(operation, "counterpartyUnp"))]
  {
    hide Given;
    assert FieldsGiven(operation, 0) == [];
    assert FieldsGiven(operation, 2) == [("Направление", Given(operation, "direction")), ("Сумма", Given(operation, "amount"))];
    assert FieldsGiven(operation, 4) == FieldsGiven(operation, 2) + [("Валюта", Given(operation, "currency")), ("Назначение", Given(operation, "purpose"))];
    assert FieldsGiven(operation, 6) == FieldsGiven(operation, 4)
        + [("Контрагент", Given(operation, "counterparty")), ("Счёт контрагента", Given(operation, "counterpartyAccount"))];
  }

  /** The context holds a line for each value that is not blank, under its own title, and no other. */
  lemma ContextExactly(c: Context)
    ensures ContextLines(c) == LinesOf(Titled(c))
  {
    hide ContextLine, LinesOf, FieldsGiven, OperationLines, Given;
    OneTitled("Где", c.place);
    OneTitled("Файл", c.fileName);
    OneTitled("Версия приложения", c.appVersion);
    var top := [("Где", c.place)] + [("Файл", c.fileName)] + [("Версия приложения", c.appVersion)];
    LinesAppend([("Где", c.place)], [("Файл", c.fileName)]);
    LinesAppend([("Где", c.place)] + [("Файл", c.fileName)], [("Версия приложения", c.appVersion)]);
    FieldsListed(c.operation);
    assert |OPERATION_FIELDS| == 7;
    LinesAppend(top, FieldsGiven(c.operation, 7));
    assert Titled(c) == top + FieldsGiven(c.operation, 7);
    if c.operation.Some? {
      OperationTitled(c.operation.value, 7);
    } else {
      NoneGiven(7);
    }
  }

  /** And it stands in the body below the comment, under its heading; without a value there is no heading. */
  lemma ContextShown(kind: Kind, comment: string, c: Context)
    ensures var lines, context := FrontLines(kind, comment, c), LinesOf(Titled(c));
            |lines| >= 6 && lines[6..] == if context == [] then [] else ["", "**Контекст:**"] + context
  {
    hide SafeComment, KindWord, LinesOf, Titled;
    ContextExactly(c);
    hide ContextLines;
    var head := ["- **Оценка:** " + KindWord(kind), "", "**Комментарий:**", "<pre><code>", SafeComment(comment), "</code></pre>"];
    var tail := if ContextLines(c) == [] then [] else ["", "**Контекст:**"] + ContextLines(c);
    assert FrontLines(kind, comment, c) == head + tail;
  }

  /** A plain value is shown as it was given, as far as its first three hundred characters. */
  lemma FlatPlain(value: string)
    requires Trimmed(value)
    requires forall k :: 0 <= k < |value| ==> !Hostile(value[k]) && value[k] !in "\r\n\t" && value[k] != '`'
    ensures Flat(value) == if |value| <= 300 then value else value[..300]
  {
    hide Hostile, IsSpace, Trim, FlattenBreaks, ReplaceChar;
    StripPlain(value);
    NoBreaks(value, false);
    ReplaceNone(value, '`', "");
    TrimOfTrimmed(value);
  }

  lemma {:induction false} NoBreaks(s: string, inRun: bool)
    requires forall k :: 0 <= k < |s| ==> s[k] !in "\r\n\t"
    ensures FlattenBreaks(s, inRun) == s
  {
    if s != "" {
      NoBreaks(s[1..], false);
      assert s == [s[0]] + s[1..];
    }
  }

  /** A run of line breaks and tabs becomes one space. */
  lemma {:induction false} BreaksBecomeSpace(a: string, run: string, b: string, inRun: bool)
    requires run != "" && (forall k :: 0 <= k < |run| ==> run[k] in "\r\n\t") && (forall k :: 0 <= k < |a| ==> a[k] !in "\r\n\t")
    requires (a != "" || !inRun) && (b != "" ==> b[0] !in "\r\n\t")
    ensures FlattenBreaks(a + run + b, inRun) == a + " " + FlattenBreaks(b, false)
  {
    if a == "" {
      assert a + run + b == run + b && (run + b)[1..] == run[1..] + b;
      RunSwallowed(run[1..], b);
    } else {
      assert (a + run + b)[1..] == a[1..] + run + b;
      BreaksBecomeSpace(a[1..], run, b, false);
      assert a == [a[0]] + a[1..];
    }
  }

  lemma {:induction false} RunSwallowed(run: string, b: string)
    requires (forall k :: 0 <= k < |run| ==> run[k] in "\r\n\t") && (b != "" ==> b[0] !in "\r\n\t")
    ensures FlattenBreaks(run + b, true) == FlattenBreaks(b, false)
  {
    if run == "" {
      assert run + b == b;
    } else {
      assert (run + b)[1..] == run[1..] + b;
      RunSwallowed(run[1..], b);
    }
  }

  // ---- The statement

  /** The statement is shown whole when it fits the two caps, and otherwise as much of it as does. */
  lemma FileShown(value: string)
    ensures var raw := StripHostileChars(value);
            && (|raw| <= 30000 && |EscapeEach(raw)| <= 35000 ==> Unescaped(FileContent(value)) == raw)
            && (|raw| > 30000 && |EscapeEach(CapRaw(raw))| <= 35000 ==>
                  Unescaped(FileContent(value)) == raw[..30000] + "\n\n[обрезано до 30000 символов]")
            && (|EscapeEach(CapRaw(raw))| > 35000 ==>
                  var k := Fitting(CapRaw(raw), 35000);
                  FileContent(value) == EscapeEach(CapRaw(raw)[..k]) + "\n\n[обрезано]")
  {
    hide EscapeEach, EscapeHtml, StripHostileChars, DropPartialEntity, Unescaped;
    var raw := StripHostileChars(value);
    EscapeIsPerCharacter(CapRaw(raw));
    EscapeReads(CapRaw(raw));
    if |EscapeEach(CapRaw(raw))| > 35000 {
      CutIsEscapedPrefix(CapRaw(raw), 35000);
    }
  }

  /** A file with any text in it is embedded below its caption, and no other is. */
  lemma EmbedShown(value: string)
    ensures FileEmbedLines(value) == [] <==> Blank(StripHostileChars(value))
    ensures FileEmbedLines(value) != [] ==>
              |FileEmbedLines(value)| == 8 && FileEmbedLines(value)[5] == FileContent(value)
              && FileEmbedLines(value)[4] == "<pre><code>" && FileEmbedLines(value)[6] == "</code></pre>"
  {
    hide FileContent, StripHostileChars, IsSpace, Trim;
    var s := StripHostileChars(value);
    var left, right := TrimKeeps(s);
    if Blank(s) {
      TrimPadded(s, "", "");
      assert s + "" + "" == s;
    }
    if Trim(s) == "" {
      assert s == left + right;
    }
  }
}
