/** The string operations of ECMAScript that the modelled code relies on. An ECMAScript string is a
    sequence of 16-bit code units, and so is a `string` here: see `CharOf`. */
module Text {

  // ---- UTF-16

  /** A code unit of an ECMAScript string. */
  newtype Unit = n: int | 0 <= n < 0x1_0000

  /** The `char` that stands for a unit: a character of the basic plane stands for itself; the halves of
      surrogate pairs, which are no characters, have the first 0x800 characters past that plane. */
  function CharOf(u: Unit): char
  {
    if 0xD800 <= u < 0xE000 then (u as int + 0x2800) as char else u as char
  }

  function UnitOf(c: char): nat
  {
    if 0x1_0000 <= c as int < 0x1_0800 then c as int - 0x2800 else c as int
  }

  function OfUnits(units: seq<Unit>): (s: string)
    ensures |s| == |units| && forall k :: 0 <= k < |s| ==> s[k] == CharOf(units[k])
  {
    seq(|units|, k requires 0 <= k < |units| => CharOf(units[k]))
  }

  /** Every unit has a `char` of its own, and no two `char`s stand for one unit. */
  lemma UnitsApart(u: Unit, c: char, d: char)
    ensures UnitOf(CharOf(u)) == u as int
    ensures UnitOf(c) == UnitOf(d) <==> c == d
  {
  }

  /** Strings of units are told apart, and have as many `char`s as units. */
  lemma TextsApart(a: seq<Unit>, b: seq<Unit>)
    ensures OfUnits(a) == OfUnits(b) <==> a == b
    ensures |OfUnits(a)| == |a|
  {
    hide CharOf, UnitOf;
    if OfUnits(a) == OfUnits(b) {
      forall k | 0 <= k < |a| ensures a[k] == b[k] {
        assert OfUnits(a)[k] == CharOf(a[k]) && OfUnits(b)[k] == CharOf(b[k]);
        UnitsApart(a[k], ' ', ' ');
        UnitsApart(b[k], ' ', ' ');
      }
    }
  }

  /** A character in UTF-16: one unit, or two past the basic plane. */
  function Encoded(c: char): string
  {
    if c as int < 0x1_0000 then [c]
    else
      var rest := c as int - 0x1_0000;
      [CharOf((0xD800 + rest / 0x400) as Unit), CharOf((0xDC00 + rest % 0x400) as Unit)]
  }

  // ---- White space

  /** White space and line terminators, exactly as `String.prototype.trim` sees them. */
  predicate IsSpace(c: char)
  {
    || '\t' <= c <= '\r' || c == ' ' || c == '\U{A0}' || c == '\U{1680}'
    || '\U{2000}' <= c <= '\U{200A}' || c == '\U{2028}' || c == '\U{2029}'
    || c == '\U{202F}' || c == '\U{205F}' || c == '\U{3000}' || c == '\U{FEFF}'
  }

  predicate Blank(s: string)
  {
    forall k :: 0 <= k < |s| ==> IsSpace(s[k])
  }

  /** The first visible character at or after `i`, or the end. */
  function Lead(s: string, i: nat): (k: nat)
    requires i <= |s|
    ensures i <= k <= |s| && (k < |s| ==> !IsSpace(s[k]))
    ensures forall j :: i <= j < k ==> IsSpace(s[j])
    decreases |s| - i
  {
    if i < |s| && IsSpace(s[i]) then Lead(s, i + 1) else i
  }

  /** Just after the last visible character of `s[lo..hi]`, or `lo`. */
  function Rear(s: string, lo: nat, hi: nat): (k: nat)
    requires lo <= hi <= |s|
    ensures lo <= k <= hi && (lo < k ==> !IsSpace(s[k - 1]))
    ensures forall j :: k <= j < hi ==> IsSpace(s[j])
  {
    if lo < hi && IsSpace(s[hi - 1]) then Rear(s, lo, hi - 1) else hi
  }

  function Trim(s: string): string
  {
    s[Lead(s, 0)..Rear(s, Lead(s, 0), |s|)]
  }

  /** Nothing to trim: both ends are already visible characters. */
  predicate Trimmed(s: string)
  {
    s != "" ==> !IsSpace(s[0]) && !IsSpace(s[|s| - 1])
  }

  function Join(parts: seq<string>, sep: string): string
  {
    if parts == [] then ""
    else if |parts| == 1 then parts[0]
    else parts[0] + sep + Join(parts[1..], sep)
  }

  /** `String.prototype.split` with a one-character separator. */
  function SplitOn(s: string, sep: char): (parts: seq<string>)
    ensures |parts| >= 1
  {
    if s == "" then [""]
    else
      var rest := SplitOn(s[1..], sep);
      if s[0] == sep then [""] + rest else [[s[0]] + rest[0]] + rest[1..]
  }

  /** `replaceAll(c, r)` for a one-character pattern. */
  function ReplaceChar(s: string, c: char, r: string): string
  {
    if s == "" then "" else (if s[0] == c then r else [s[0]]) + ReplaceChar(s[1..], c, r)
  }

  /** One carriage return before a line feed belongs to the line break. */
  function DropCr(line: string): string
  {
    if line != "" && line[|line| - 1] == '\r' then line[..|line| - 1] else line
  }

  function DropCrs(parts: seq<string>): (lines: seq<string>)
    ensures |lines| == |parts|
  {
    if |parts| <= 1 then parts else [DropCr(parts[0])] + DropCrs(parts[1..])
  }

  /** `split(/\r?\n/)`. */
  function SplitLines(s: string): (lines: seq<string>)
    ensures |lines| >= 1
  {
    DropCrs(SplitOn(s, '\n'))
  }

  predicate Contains(s: string, p: string)
  {
    exists i :: 0 <= i <= |s| && StartsAt(s, i, p)
  }

  predicate StartsAt(s: string, i: nat, p: string)
  {
    i + |p| <= |s| && s[i..i + |p|] == p
  }

  // ---- Join and split

  lemma JoinFirst(parts: seq<string>, sep: string)
    requires |parts| > 1
    ensures Join(parts, sep) == parts[0] + sep + Join(parts[1..], sep)
  {
  }

  lemma JoinOne(part: string, sep: string)
    ensures Join([part], sep) == part
  {
  }

  lemma {:induction false} JoinAppend(a: seq<string>, b: seq<string>, sep: string)
    requires a != [] && b != []
    ensures Join(a + b, sep) == Join(a, sep) + sep + Join(b, sep)
  {
    hide Join;
    JoinFirst(a + b, sep);
    if |a| == 1 {
      JoinOne(a[0], sep);
      assert a == [a[0]] && (a + b)[1..] == b;
    } else {
      JoinFirst(a, sep);
      JoinAppend(a[1..], b, sep);
      assert (a + b)[1..] == a[1..] + b;
    }
  }

  /** A first part put in front, or a first character put into the first part. */
  lemma JoinInFront(parts: seq<string>, c: char, sep: string)
    requires parts != []
    ensures Join([""] + parts, sep) == sep + Join(parts, sep)
    ensures Join([[c] + parts[0]] + parts[1..], sep) == [c] + Join(parts, sep)
  {
    assert ([""] + parts)[1..] == parts;
    assert ([[c] + parts[0]] + parts[1..])[1..] == parts[1..];
  }

  lemma {:induction false} JoinSplit(s: string, sep: char)
    ensures Join(SplitOn(s, sep), [sep]) == s
    ensures forall k :: 0 <= k < |SplitOn(s, sep)| ==> sep !in SplitOn(s, sep)[k]
  {
    hide Join;
    if s == "" {
      JoinOne("", [sep]);
    } else {
      JoinSplit(s[1..], sep);
      JoinInFront(SplitOn(s[1..], sep), s[0], [sep]);
      assert s == [s[0]] + s[1..];
    }
  }

  lemma {:induction false} SplitPlain(s: string, sep: char)
    requires sep !in s
    ensures SplitOn(s, sep) == [s]
  {
    if s != "" {
      SplitPlain(s[1..], sep);
      assert [s[0]] + s[1..] == s;
    }
  }

  lemma {:induction false} SplitAppend(s: string, t: string, sep: char)
    requires sep !in s
    ensures SplitOn(s + [sep] + t, sep) == [s] + SplitOn(t, sep)
  {
    var whole := s + [sep] + t;
    if s == "" {
      assert whole[1..] == t;
    } else {
      SplitAppend(s[1..], t, sep);
      assert whole[1..] == s[1..] + [sep] + t;
      assert [s[0]] + s[1..] == s;
    }
  }

  lemma {:induction false} SplitJoin(parts: seq<string>, sep: char)
    requires parts != []
    requires forall k :: 0 <= k < |parts| ==> sep !in parts[k]
    ensures SplitOn(Join(parts, [sep]), sep) == parts
  {
    hide SplitOn;
    if |parts| == 1 {
      SplitPlain(parts[0], sep);
    } else {
      SplitJoin(parts[1..], sep);
      SplitAppend(parts[0], Join(parts[1..], [sep]), sep);
    }
  }

  predicate NoBreak(line: string)
  {
    '\n' !in line && '\r' !in line
  }

  function AddCrs(lines: seq<string>): (parts: seq<string>)
    ensures |parts| == |lines|
  {
    if |lines| <= 1 then lines else [lines[0] + "\r"] + AddCrs(lines[1..])
  }

  lemma {:induction false} CrsCancel(lines: seq<string>, crlf: bool)
    requires forall k :: 0 <= k < |lines| ==> NoBreak(lines[k])
    ensures DropCrs(if crlf then AddCrs(lines) else lines) == lines
    ensures forall k :: 0 <= k < |lines| ==> '\n' !in AddCrs(lines)[k]
    ensures Join(AddCrs(lines), "\n") == Join(lines, "\r\n")
  {
    if |lines| > 1 {
      CrsCancel(lines[1..], crlf);
      assert DropCr(lines[0] + "\r") == lines[0];
      assert DropCr(lines[0]) == lines[0];
      assert AddCrs(lines)[1..] == AddCrs(lines[1..]);
      assert lines[0] + "\r" + "\n" == lines[0] + "\r\n";
    }
  }

  /** Lines joined with either line break come back. */
  lemma SplitLinesJoin(lines: seq<string>, crlf: bool)
    requires lines != [] && forall k :: 0 <= k < |lines| ==> NoBreak(lines[k])
    ensures SplitLines(Join(lines, if crlf then "\r\n" else "\n")) == lines
  {
    hide Join, SplitOn, DropCrs, AddCrs;
    CrsCancel(lines, crlf);
    SplitJoin(if crlf then AddCrs(lines) else lines, '\n');
  }

  // ---- Trimming

  lemma TrimOfTrimmed(s: string)
    requires Trimmed(s)
    ensures Trim(s) == s
  {
    hide IsSpace;
    TrimPadded("", s, "");
    assert "" + s + "" == s;
  }

  /** Blank text on either side of an already trimmed text is exactly what trimming removes. */
  lemma TrimPadded(left: string, s: string, right: string)
    requires Blank(left) && Blank(right) && Trimmed(s)
    ensures Trim(left + s + right) == s
  {
    hide IsSpace, Lead, Rear;
    var t := left + s + right;
    assert forall j :: 0 <= j < |left| ==> t[j] == left[j];
    assert forall j :: 0 <= j < |right| ==> t[|left| + |s| + j] == right[j];
    var a := Lead(t, 0);
    if s == "" {
      assert a == |t|;
    } else {
      assert t[|left|] == s[0] && t[|left| + |s| - 1] == s[|s| - 1];
      assert a == |left| && Rear(t, a, |t|) == |left| + |s|;
      assert t[|left|..|left| + |s|] == s;
    }
  }

  ghost predicate Pads(s: string, left: string, right: string)
  {
    Blank(left) && Blank(right) && s == left + Trim(s) + right
  }

  /** Trimming takes blank text off both ends and leaves a trimmed text. */
  lemma TrimKeeps(s: string) returns (left: string, right: string)
    ensures Trimmed(Trim(s)) && Pads(s, left, right)
  {
    hide IsSpace, Lead, Rear;
    var a := Lead(s, 0);
    var e := Rear(s, a, |s|);
    left, right := s[..a], s[e..];
    assert s == s[..a] + s[a..e] + s[e..];
  }

  lemma TrimCount(s: string, c: char)
    requires !IsSpace(c)
    ensures multiset(Trim(s))[c] == multiset(s)[c]
  {
    var left, right := TrimKeeps(s);
    assert c !in left && c !in right;
    assert multiset(s) == multiset(left) + multiset(Trim(s)) + multiset(right);
  }

  lemma {:induction false} JoinCount(parts: seq<string>, sep: char)
    requires parts != []
    requires forall k :: 0 <= k < |parts| ==> sep !in parts[k]
    ensures multiset(Join(parts, [sep]))[sep] == |parts| - 1
  {
    if |parts| > 1 {
      JoinCount(parts[1..], sep);
      var rest := Join(parts[1..], [sep]);
      assert Join(parts, [sep]) == parts[0] + ([sep] + rest);
      assert multiset(parts[0] + ([sep] + rest)) == multiset(parts[0]) + (multiset{sep} + multiset(rest));
      assert sep !in parts[0];
    }
  }

  // ---- Order

  /** `a < b` on strings: lexicographic by code unit. */
  predicate StrLess(a: string, b: string)
  {
    if b == "" then false
    else if a == "" then true
    else UnitOf(a[0]) < UnitOf(b[0]) || (a[0] == b[0] && StrLess(a[1..], b[1..]))
  }

  lemma {:induction false} StrTrichotomy(a: string, b: string)
    ensures StrLess(a, b) || StrLess(b, a) || a == b
    ensures !(StrLess(a, b) && StrLess(b, a))
    ensures !StrLess(a, a)
  {
    if a != "" && b != "" {
      StrTrichotomy(a[1..], b[1..]);
      assert a == [a[0]] + a[1..] && b == [b[0]] + b[1..];
    }
    if a != "" {
      StrIrreflexive(a);
    }
  }

  lemma {:induction false} StrIrreflexive(a: string)
    ensures !StrLess(a, a)
  {
    if a != "" {
      StrIrreflexive(a[1..]);
    }
  }

  lemma {:induction false} StrTransitive(a: string, b: string, c: string)
    requires StrLess(a, b) && StrLess(b, c)
    ensures StrLess(a, c)
  {
    if a != "" && a[0] == b[0] && b[0] == c[0] {
      StrTransitive(a[1..], b[1..], c[1..]);
    }
  }

  lemma {:induction false} LessAppend(p: string, q: string, x: string, y: string)
    requires |p| == |q|
    ensures StrLess(p + x, q + y) <==> StrLess(p, q) || (p == q && StrLess(x, y))
  {
    if p == "" {
      assert p + x == x && q + y == y;
    } else {
      assert (p + x)[1..] == p[1..] + x && (q + y)[1..] == q[1..] + y;
      LessAppend(p[1..], q[1..], x, y);
      assert p == [p[0]] + p[1..] && q == [q[0]] + q[1..];
    }
  }

  // ---- Replacing

  lemma {:induction false} ReplaceAppend(a: string, b: string, c: char, r: string)
    ensures ReplaceChar(a + b, c, r) == ReplaceChar(a, c, r) + ReplaceChar(b, c, r)
  {
    if a == "" {
      assert a + b == b;
    } else {
      assert (a + b)[1..] == a[1..] + b;
      ReplaceAppend(a[1..], b, c, r);
    }
  }

  lemma {:induction false} ReplaceNone(a: string, c: char, r: string)
    requires c !in a
    ensures ReplaceChar(a, c, r) == a
  {
    if a != "" {
      ReplaceNone(a[1..], c, r);
      assert [a[0]] + a[1..] == a;
    }
  }
}
