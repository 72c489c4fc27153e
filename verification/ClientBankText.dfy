/** The `***** ^Type=` client-bank text export (app/utils/clientBankText.ts). */
module ClientBankText {
  import opened Outcome
  import opened Text

  const FILE_HEADER := "***** ^Type="

  const HEADER_KEYS := {
    "Time", "Header1", "Header2", "Header3", "Header4", "Header5", "DateBegin", "DateEnd", "DateIn",
    "RestIn", "CrIn", "CrInQ", "RestInQ", "InCre", "InCreQ", "AcPa", "AcPa1", "I1", "I1str", "UNN", "CurrCode"}
  const FOOTER_KEYS := {
    "DB", "CR", "RestOut", "DebVQ", "CreVQ", "DebV", "CreV", "RestOutQ", "CrOut", "OutCre", "DebOut"}
  const ITEM_KEYS := {
    "DocDate", "DocTime", "Num", "Opr", "PaymCode", "Code", "Cod", "Acc", "DebQ", "CreQ", "Deb", "Cre",
    "I2", "Amount", "Rate", "KorUNP", "UNNRec", "KorName", "Nazn", "Nazn2", "OpDate", "DocID",
    "OperationID", "Credit", "Db", "OutRate"}

  type Fields = map<string, string>

  datatype Section = Section(header: Fields, items: seq<Fields>, footer: Fields, unrouted: Fields)

  datatype General = General(typ: string, acc: string, title: string)

  datatype Parsed = Parsed(general: General, inParam: Section, outParam: Section)

  datatype Error = TooLarge | UnexpectedFormat

  const EMPTY_SECTION := Section(map[], [], map[], map[])

  // ---- Where a key goes

  datatype Bucket = Header | Footer | Items | Unrouted

  function BucketOf(key: string): Bucket
  {
    if key in HEADER_KEYS then Header
    else if key in FOOTER_KEYS then Footer
    else if key in ITEM_KEYS then Items
    else Unrouted
  }

  /** The second field a key is copied to. */
  function AliasOf(key: string): Option<string>
  {
    if key == "CrIn" || key == "InCre" then Some("RestIn")
    else if key == "CrOut" || key == "OutCre" then Some("RestOut")
    else if key == "DocDate" then Some("OpDate")
    else if key == "DocTime" then Some("OpTime")
    else if key == "UNNRec" then Some("KorUNP")
    else None
  }

  datatype Pair = Pair(key: string, value: string)

  function StoredValue(p: Pair): string
  {
    if p.key == "DocDate" then ReplaceChar(p.value, '/', ".") else p.value
  }

  function Put(fields: Fields, p: Pair): Fields
  {
    var direct := fields[p.key := StoredValue(p)];
    match AliasOf(p.key)
    case None => direct
    case Some(alias) => direct[alias := StoredValue(p)]
  }

  /** A section being filled, and the row its item keys go to (-1 before the first `DocDate`). */
  datatype Filling = Filling(section: Section, itemIndex: int)

  const FRESH := Filling(EMPTY_SECTION, -1)

  predicate Sound(f: Filling)
  {
    -1 <= f.itemIndex < |f.section.items|
  }

  /** Item keys before the first `DocDate` are skipped. A plain object cannot hold `__proto__`. */
  function Store(f: Filling, p: Pair): (g: Filling)
    requires Sound(f)
    ensures Sound(g)
  {
    var s := f.section;
    match BucketOf(p.key)
    case Header => f.(section := s.(header := Put(s.header, p)))
    case Footer => f.(section := s.(footer := Put(s.footer, p)))
    case Items =>
      var i := if p.key == "DocDate" then f.itemIndex + 1 else f.itemIndex;
      if i < 0 then f
      else if i == |s.items| then Filling(s.(items := s.items + [Put(map[], p)]), i)
      else Filling(s.(items := s.items[i := Put(s.items[i], p)]), i)
    case Unrouted =>
      if p.key == "__proto__" then f else f.(section := s.(unrouted := s.unrouted[p.key := p.value]))
  }

  // ---- Lines

  lemma {:induction false} FirstPart(s: string, sep: char)
    ensures var parts := SplitOn(s, sep);
            && parts[0] <= s && (|parts| > 1 ==> |parts[0]| < |s| && s[|parts[0]|] == sep)
            && (|parts| == 1 ==> parts[0] == s)
  {
    if s != "" {
      FirstPart(s[1..], sep);
      var rest := SplitOn(s[1..], sep);
      if s[0] != sep {
        assert [s[0]] + s[1..] == s;
        assert s[1..][..|rest[0]|] == rest[0];
      }
    }
  }

  /** The key ends at the first `=`; `^` marks are dropped everywhere. */
  function SplitKeyValue(line: string): Pair
  {
    var cleaned := ReplaceChar(line, '^', "");
    var parts := SplitOn(cleaned, '=');
    FirstPart(cleaned, '=');
    if |parts| == 1 then Pair(Trim(cleaned), "")
    else Pair(Trim(parts[0]), Trim(cleaned[|parts[0]| + 1..]))
  }

  function NonEmpty(parts: seq<string>): seq<string>
  {
    if parts == [] then [] else (if parts[0] == "" then [] else [parts[0]]) + NonEmpty(parts[1..])
  }

  function PartAt(parts: seq<string>, i: nat): string
  {
    if i < |parts| then parts[i] else ""
  }

  function TitleOf(parts: seq<string>): string
  {
    var at4 := SplitOn(PartAt(parts, 4), '-');
    var pieces := if |at4| < 2 then SplitOn(PartAt(parts, 6), '-') else at4;
    Trim(Join(pieces[1..], "-"))
  }

  function ReadGeneral(line: string): General
  {
    var parts := NonEmpty(SplitOn(line, '^'));
    General(PartAt(SplitOn(PartAt(parts, 1), '='), 1), PartAt(SplitOn(PartAt(parts, 3), '='), 1), TitleOf(parts))
  }

  datatype Current = Nowhere | InIn | InOut

  datatype State = State(general: General, inParam: Filling, outParam: Filling, current: Current)

  const START := State(General("", "", ""), FRESH, FRESH, Nowhere)

  predicate SoundState(st: State)
  {
    Sound(st.inParam) && Sound(st.outParam)
  }

  function Step(st: State, line: string): (r: State)
    requires SoundState(st)
    ensures SoundState(r)
  {
    if line == "" then st
    else if line[0] == '*' then st.(general := ReadGeneral(line))
    else if line[0] == '[' then
      var tag := Trim(line);
      if tag == "[OUT_PARAM]" then st.(outParam := st.outParam.(itemIndex := -1), current := InOut)
      else if tag == "[IN_PARAM]" then st.(inParam := st.inParam.(itemIndex := -1), current := InIn)
      else st
    else if line[0] == '^' then
      match st.current
      case Nowhere => st
      case InIn => st.(inParam := Store(st.inParam, SplitKeyValue(line)))
      case InOut => st.(outParam := Store(st.outParam, SplitKeyValue(line)))
    else st
  }

  function Run(lines: seq<string>): (st: State)
    ensures SoundState(st)
  {
    if lines == [] then START else Step(Run(lines[..|lines| - 1]), lines[|lines| - 1])
  }

  function Finish(st: State): Parsed
  {
    Parsed(st.general, st.inParam.section, st.outParam.section)
  }

  function Parse(content: string, maxChars: nat): Result<Parsed, Error>
  {
    if |content| > maxChars then Err(TooLarge)
    else if !StartsAt(content, 0, FILE_HEADER) then Err(UnexpectedFormat)
    else Ok(Finish(Run(SplitLines(content))))
  }

  method StoreKey(section: Section, itemIndex: int, line: string) returns (s: Section, index: int)
    requires Sound(Filling(section, itemIndex))
    ensures Filling(s, index) == Store(Filling(section, itemIndex), SplitKeyValue(line))
  {
    hide SplitKeyValue, StoredValue;
    var p := SplitKeyValue(line);
    s, index := section, itemIndex;
    if p.key in HEADER_KEYS {
      s := s.(header := Put(s.header, p));
    } else if p.key in FOOTER_KEYS {
      s := s.(footer := Put(s.footer, p));
    } else if p.key in ITEM_KEYS {
      if p.key == "DocDate" {
        index := index + 1;
      }
      if index >= 0 {
        if index == |s.items| {
          s := s.(items := s.items + [map[]]);
        }
        s := s.(items := s.items[index := Put(s.items[index], p)]);
        assert index == |section.items| ==> s.items == section.items + [Put(map[], p)];
      }
    } else if p.key != "__proto__" {
      s := s.(unrouted := s.unrouted[p.key := p.value]);
    }
  }

  method ParseClientBankText(content: string, maxChars: nat) returns (r: Result<Parsed, Error>)
    ensures r == Parse(content, maxChars)
  {
    hide SplitLines, ReadGeneral, Store, SplitKeyValue, Trim;
    if |content| > maxChars {
      return Err(TooLarge);
    }
    if !StartsAt(content, 0, FILE_HEADER) {
      return Err(UnexpectedFormat);
    }
    var lines := SplitLines(content);
    var general := General("", "", "");
    var inParam, outParam := EMPTY_SECTION, EMPTY_SECTION;
    var itemIndex := -1;
    var current := Nowhere;
    // The row counter is shared, and every section tag resets it: what a section left off at is never
    // needed again, and is kept here only to name the machine's state.
    ghost var inIndex, outIndex := -1, -1;
    for i := 0 to |lines|
      invariant Sound(Filling(inParam, inIndex)) && Sound(Filling(outParam, outIndex))
      invariant State(general, Filling(inParam, inIndex), Filling(outParam, outIndex), current) == Run(lines[..i])
      invariant (current == InIn ==> itemIndex == inIndex) && (current == InOut ==> itemIndex == outIndex)
    {
      assert lines[..i + 1][..i] == lines[..i];
      var line := lines[i];
      if line == "" {
        continue;
      }
      if line[0] == '*' {
        general := ReadGeneral(line);
      } else if line[0] == '[' {
        var tag := Trim(line);
        if tag == "[OUT_PARAM]" {
          current, itemIndex, outIndex := InOut, -1, -1;
        } else if tag == "[IN_PARAM]" {
          current, itemIndex, inIndex := InIn, -1, -1;
        }
      } else if line[0] == '^' {
        if current == InIn {
          inParam, itemIndex := StoreKey(inParam, itemIndex, line);
          inIndex := itemIndex;
        } else if current == InOut {
          outParam, itemIndex := StoreKey(outParam, itemIndex, line);
          outIndex := itemIndex;
        }
      }
    }
    assert lines[..|lines|] == lines;
    r := Ok(Parsed(general, inParam, outParam));
  }

  // ---- What a section holds, said without the machine

  function StoreAll(pairs: seq<Pair>): (f: Filling)
    ensures Sound(f)
  {
    if pairs == [] then FRESH else Store(StoreAll(pairs[..|pairs| - 1]), pairs[|pairs| - 1])
  }

  /** The number of `DocDate` lines among the first `n`. */
  function DocDates(pairs: seq<Pair>, n: nat): (k: nat)
    requires n <= |pairs|
  {
    if n == 0 then 0 else DocDates(pairs, n - 1) + if pairs[n - 1].key == "DocDate" then 1 else 0
  }

  predicate Names(p: Pair, key: string)
  {
    p.key == key || AliasOf(p.key) == Some(key)
  }

  /** The value last written under `key` in a bucket by the first `n` lines. */
  function LastWrite(pairs: seq<Pair>, n: nat, bucket: Bucket, key: string): Option<string>
    requires n <= |pairs|
  {
    if n == 0 then None
    else
      var p := pairs[n - 1];
      if BucketOf(p.key) == bucket && Names(p, key) && p.key != "__proto__" then Some(StoredValue(p))
      else LastWrite(pairs, n - 1, bucket, key)
  }

  /** The same for row `row`: only the lines from its own `DocDate` up to the next one count. */
  function LastRowWrite(pairs: seq<Pair>, n: nat, row: nat, key: string): Option<string>
    requires n <= |pairs|
  {
    if n == 0 then None
    else
      var p := pairs[n - 1];
      if BucketOf(p.key) == Items && Names(p, key) && DocDates(pairs, n) == row + 1 then Some(StoredValue(p))
      else LastRowWrite(pairs, n - 1, row, key)
  }

  function Lookup(fields: Fields, key: string): Option<string>
  {
    if key in fields then Some(fields[key]) else None
  }

  lemma PutLookup(fields: Fields, p: Pair, key: string)
    ensures Lookup(Put(fields, p), key) == if Names(p, key) then Some(StoredValue(p)) else Lookup(fields, key)
  {
    hide StoredValue, AliasOf;
  }

  lemma StoreAllNext(pairs: seq<Pair>, n: nat)
    requires n < |pairs|
    ensures StoreAll(pairs[..n + 1]) == Store(StoreAll(pairs[..n]), pairs[n])
  {
    assert pairs[..n + 1][..n] == pairs[..n];
  }

  lemma StoreFields(f: Filling, p: Pair, key: string)
    requires Sound(f)
    ensures var s, t, hit := f.section, Store(f, p).section, Names(p, key) && p.key != "__proto__";
            && Lookup(t.header, key) == (if BucketOf(p.key) == Header && hit then Some(StoredValue(p)) else Lookup(s.header, key))
            && Lookup(t.footer, key) == (if BucketOf(p.key) == Footer && hit then Some(StoredValue(p)) else Lookup(s.footer, key))
            && Lookup(t.unrouted, key) ==
               (if BucketOf(p.key) == Unrouted && hit then Some(StoredValue(p)) else Lookup(s.unrouted, key))
  {
    hide BucketOf, AliasOf, StoredValue, Put, Names;
    PutLookup(f.section.header, p, key);
    PutLookup(f.section.footer, p, key);
    UnroutedNames(p, key);
  }

  lemma UnroutedNames(p: Pair, key: string)
    ensures BucketOf(p.key) == Unrouted ==> StoredValue(p) == p.value && (Names(p, key) <==> p.key == key)
    ensures BucketOf(p.key) != Unrouted ==> p.key != "__proto__"
  {
  }

  function RowLookup(f: Filling, row: nat, key: string): Option<string>
  {
    if row < |f.section.items| then Lookup(f.section.items[row], key) else None
  }

  lemma StoreRow(f: Filling, p: Pair, row: nat, key: string)
    requires Sound(f) && |f.section.items| == f.itemIndex + 1
    ensures var g := Store(f, p);
            && |g.section.items| == g.itemIndex + 1
            && g.itemIndex == f.itemIndex + (if p.key == "DocDate" then 1 else 0)
            && RowLookup(g, row, key) ==
               if BucketOf(p.key) == Items && Names(p, key) && g.itemIndex == row then Some(StoredValue(p))
               else RowLookup(f, row, key)
  {
    hide BucketOf, AliasOf, StoredValue, Put, Names;
    assert BucketOf("DocDate") == Items by { DocDateIsItem(); }
    PutLookup(map[], p, key);
    if row < |f.section.items| {
      PutLookup(f.section.items[row], p, key);
    }
  }

  lemma DocDateIsItem()
    ensures BucketOf("DocDate") == Items
  {
  }

  /** Header, footer and the catch-all hold, under each key, what was last written to it directly or
      through an alias. */
  lemma {:induction false} FieldsClosure(pairs: seq<Pair>, n: nat, key: string)
    requires n <= |pairs|
    ensures var s := StoreAll(pairs[..n]).section;
            && Lookup(s.header, key) == LastWrite(pairs, n, Header, key)
            && Lookup(s.footer, key) == LastWrite(pairs, n, Footer, key)
            && Lookup(s.unrouted, key) == LastWrite(pairs, n, Unrouted, key)
  {
    hide BucketOf, StoredValue, Store, Names;
    if n > 0 {
      FieldsClosure(pairs, n - 1, key);
      StoreAllNext(pairs, n - 1);
      StoreFields(StoreAll(pairs[..n - 1]), pairs[n - 1], key);
    } else {
      assert pairs[..0] == [];
    }
  }

  /** Rows correspond one to one with `DocDate` lines, and each row holds exactly what the lines of its
      own stretch wrote. */
  lemma {:induction false} RowsClosure(pairs: seq<Pair>, n: nat, row: nat, key: string)
    requires n <= |pairs|
    ensures var f := StoreAll(pairs[..n]);
            && |f.section.items| == DocDates(pairs, n) == f.itemIndex + 1
            && LastRowWrite(pairs, n, row, key) == RowLookup(f, row, key)
  {
    hide BucketOf, StoredValue, Store, Names, RowLookup;
    if n > 0 {
      RowsClosure(pairs, n - 1, row, key);
      StoreAllNext(pairs, n - 1);
      StoreRow(StoreAll(pairs[..n - 1]), pairs[n - 1], row, key);
    } else {
      assert pairs[..0] == [];
      NoRows(row, key);
    }
  }

  lemma NoRows(row: nat, key: string)
    ensures RowLookup(FRESH, row, key) == None
  {
  }

  // ---- When a section tag is repeated

  predicate OutTag(line: string)
  {
    line != "" && line[0] == '[' && Trim(line) == "[OUT_PARAM]"
  }

  /** Line `k` is a `DocDate` line of `[OUT_PARAM]`. */
  predicate OutDate(lines: seq<string>, k: nat)
    requires k < |lines|
  {
    && Run(lines[..k]).current == InOut
    && lines[k] != "" && lines[k][0] == '^' && SplitKeyValue(lines[k]).key == "DocDate"
  }

  function OutDates(lines: seq<string>, n: nat): nat
    requires n <= |lines|
  {
    if n == 0 then 0 else OutDates(lines, n - 1) + if OutDate(lines, n - 1) then 1 else 0
  }

  /** No `[OUT_PARAM]` tag stands between lines `i` and `n`. */
  predicate NoTagBetween(lines: seq<string>, i: nat, n: nat)
    requires n <= |lines|
  {
    forall k :: i < k < n ==> !OutTag(lines[k])
  }

  predicate AllCurrent(lines: seq<string>, n: nat)
    requires n <= |lines|
  {
    forall i :: 0 <= i < n && OutDate(lines, i) ==> NoTagBetween(lines, i, n)
  }

  /** All `DocDate` lines of `[OUT_PARAM]` stand under one and the same tag line. */
  predicate OneStretch(lines: seq<string>, n: nat)
    requires n <= |lines|
  {
    forall i, j :: 0 <= i < j < n && OutDate(lines, i) && OutDate(lines, j) ==> NoTagBetween(lines, i, j)
  }

  lemma OutStep(lines: seq<string>, n: nat)
    requires n < |lines|
    ensures var f, g := Run(lines[..n]).outParam, Run(lines[..n + 1]).outParam;
            var c, m := f.itemIndex + 1, |f.section.items|;
            if OutTag(lines[n]) then g == f.(itemIndex := -1)
            else if OutDate(lines, n) then g.itemIndex == c && |g.section.items| == (if m > c then m else c + 1)
            else g.itemIndex == f.itemIndex && |g.section.items| == m
  {
    hide Trim, SplitKeyValue, ReadGeneral;
    assert lines[..n + 1] == lines[..n] + [lines[n]];
    RunNext(lines[..n], lines[n]);
    if lines[n] != "" && lines[n][0] == '^' {
      StoreSize(Run(lines[..n]).outParam, SplitKeyValue(lines[n]));
    }
  }

  lemma StoreSize(f: Filling, p: Pair)
    requires Sound(f)
    ensures var g, c, m := Store(f, p), f.itemIndex + 1, |f.section.items|;
            if p.key == "DocDate" then g.itemIndex == c && |g.section.items| == (if m > c then m else c + 1)
            else g.itemIndex == f.itemIndex && |g.section.items| == m
  {
    hide Put, BucketOf;
    DocDateIsItem();
  }

  lemma {:induction false} NoDates(lines: seq<string>, n: nat)
    requires n <= |lines|
    ensures OutDates(lines, n) == 0 <==> forall i :: 0 <= i < n ==> !OutDate(lines, i)
  {
    hide OutDate;
    if n > 0 {
      NoDates(lines, n - 1);
    }
  }

  lemma AllCurrentNext(lines: seq<string>, n: nat)
    requires n < |lines|
    ensures AllCurrent(lines, n + 1) <==>
            if OutTag(lines[n]) then (forall i :: 0 <= i < n ==> !OutDate(lines, i)) else AllCurrent(lines, n)
    ensures OneStretch(lines, n + 1) <==> OneStretch(lines, n) && (OutDate(lines, n) ==> AllCurrent(lines, n))
  {
    hide OutDate, OutTag;
    assert OutTag(lines[n]) ==> !OutDate(lines, n) by { TagIsNoDate(lines, n); }
    if AllCurrent(lines, n) && !OutTag(lines[n]) {
      forall i | 0 <= i < n + 1 && OutDate(lines, i) ensures NoTagBetween(lines, i, n + 1) {
        assert i < n ==> NoTagBetween(lines, i, n);
      }
    }
    if AllCurrent(lines, n + 1) {
      forall i | 0 <= i < n && OutDate(lines, i) ensures !OutTag(lines[n]) && NoTagBetween(lines, i, n) {
        assert NoTagBetween(lines, i, n + 1);
      }
    }
  }

  lemma TagIsNoDate(lines: seq<string>, n: nat)
    requires n < |lines|
    ensures OutTag(lines[n]) ==> !OutDate(lines, n)
  {
  }

  /** Rows and `DocDate` lines of `[OUT_PARAM]` agree in number exactly when those lines are not spread
      over several tags: a repeated tag starts again at the first row and writes over it. */
  lemma {:induction false} RowsMatchDatesExactly(lines: seq<string>, n: nat)
    requires n <= |lines|
    ensures var f := Run(lines[..n]).outParam;
            && f.itemIndex + 1 <= |f.section.items| <= OutDates(lines, n)
            && (f.itemIndex + 1 == OutDates(lines, n) <==> AllCurrent(lines, n))
            && (|f.section.items| == OutDates(lines, n) <==> OneStretch(lines, n))
  {
    hide Run, OutDate, OutTag, AllCurrent, OneStretch;
    if n == 0 {
      NothingYet(lines);
    } else {
      RowsMatchDatesExactly(lines, n - 1);
      OutStep(lines, n - 1);
      AllCurrentNext(lines, n - 1);
      NoDates(lines, n - 1);
      TagIsNoDate(lines, n - 1);
      CurrentIsOneStretch(lines, n - 1);
    }
  }

  lemma CurrentIsOneStretch(lines: seq<string>, n: nat)
    requires n <= |lines|
    ensures AllCurrent(lines, n) ==> OneStretch(lines, n)
  {
    hide OutDate, OutTag;
    if AllCurrent(lines, n) {
      forall i, j | 0 <= i < j < n && OutDate(lines, i) && OutDate(lines, j) ensures NoTagBetween(lines, i, j) {
        assert NoTagBetween(lines, i, n);
      }
    }
  }

  lemma NothingYet(lines: seq<string>)
    ensures Run(lines[..0]).outParam == FRESH && OutDates(lines, 0) == 0
    ensures AllCurrent(lines, 0) && OneStretch(lines, 0)
  {
    assert lines[..0] == [];
  }

  // ---- Printing a statement and reading it back

  datatype Document = Document(general: General, inPairs: seq<Pair>, outPairs: seq<Pair>, crlf: bool)

  predicate PlainText(s: string)
  {
    NoBreak(s) && '^' !in s && Trimmed(s)
  }

  predicate PrintablePair(p: Pair)
  {
    PlainText(p.key) && '=' !in p.key && PlainText(p.value)
  }

  predicate WellFormed(d: Document)
  {
    && PlainText(d.general.typ) && '=' !in d.general.typ
    && PlainText(d.general.acc) && '=' !in d.general.acc
    && PlainText(d.general.title)
    && (forall k :: 0 <= k < |d.inPairs| ==> PrintablePair(d.inPairs[k]))
    && (forall k :: 0 <= k < |d.outPairs| ==> PrintablePair(d.outPairs[k]))
  }

  function PrintGeneral(g: General): string
  {
    FILE_HEADER + g.typ + "^ ^Acc=" + g.acc + "^  -  " + g.title
  }

  function PrintPair(p: Pair): string
  {
    "^" + p.key + "=" + p.value + "^"
  }

  function PrintPairs(pairs: seq<Pair>): (lines: seq<string>)
    ensures |lines| == |pairs|
    ensures forall k :: 0 <= k < |pairs| ==> lines[k] == PrintPair(pairs[k])
  {
    seq(|pairs|, k requires 0 <= k < |pairs| => PrintPair(pairs[k]))
  }

  function PrintLines(d: Document): seq<string>
  {
    [PrintGeneral(d.general), "[IN_PARAM]"] + PrintPairs(d.inPairs) + ["[OUT_PARAM]"] + PrintPairs(d.outPairs)
  }

  function Print(d: Document): string
  {
    Join(PrintLines(d), if d.crlf then "\r\n" else "\n")
  }

  /** A printed key line reads back as its key and value; only the first `=` separates. */
  lemma PairReads(p: Pair)
    requires PrintablePair(p)
    ensures SplitKeyValue(PrintPair(p)) == p
  {
    hide Trim, SplitOn, IsSpace;
    var inner := p.key + "=" + p.value;
    assert ReplaceChar(PrintPair(p), '^', "") == inner by {
      assert PrintPair(p) == "^" + inner + "^";
      ReplaceAppend("^" + inner, "^", '^', "");
      ReplaceAppend("^", inner, '^', "");
      ReplaceNone(inner, '^', "");
      assert "^"[1..] == "";
    }
    assert inner == p.key + ['='] + p.value;
    SplitAppend(p.key, p.value, '=');
    assert inner[|p.key| + 1..] == p.value;
    TrimOfTrimmed(p.key);
    TrimOfTrimmed(p.value);
  }

  lemma TwoParts(name: string, value: string)
    requires '=' !in name && '=' !in value
    ensures PartAt(SplitOn(name + "=" + value, '='), 1) == value
  {
    hide SplitOn;
    assert name + "=" + value == name + ['='] + value;
    SplitAppend(name, value, '=');
    SplitPlain(value, '=');
  }

  lemma TitleReads(title: string)
    requires Trimmed(title)
    ensures var pieces := SplitOn("  -  " + title, '-');
            |pieces| >= 2 && Trim(Join(pieces[1..], "-")) == title
  {
    hide SplitOn, Trim, Join, IsSpace;
    var rest := "  " + title;
    assert "  -  " + title == "  " + ['-'] + rest;
    SplitAppend("  ", rest, '-');
    JoinSplit(rest, '-');
    assert (["  "] + SplitOn(rest, '-'))[1..] == SplitOn(rest, '-');
    assert Blank("  ") by { assert IsSpace(' ') by { SpaceIsSpace(); } }
    TrimPadded("  ", title, "");
    assert "  " + title + "" == rest;
  }

  lemma SpaceIsSpace()
    ensures IsSpace(' ')
  {
  }

  lemma GeneralParts(g: General)
    requires '^' !in g.typ && '^' !in g.acc && '^' !in g.title
    ensures NonEmpty(SplitOn(PrintGeneral(g), '^')) ==
            ["***** ", "Type=" + g.typ, " ", "Acc=" + g.acc, "  -  " + g.title]
  {
    hide SplitOn, Join, NonEmpty, PrintGeneral;
    var a, b, c, d, e := "***** ", "Type=" + g.typ, " ", "Acc=" + g.acc, "  -  " + g.title;
    var parts := [a, b, c, d, e];
    GeneralJoined(g);
    FiveJoined(a, b, c, d, e);
    assert ['^'] == "^";
    SplitJoin(parts, '^');
    KeepAll(parts);
  }

  lemma GeneralJoined(g: General)
    ensures PrintGeneral(g) ==
            "***** " + "^" + ("Type=" + g.typ + "^" + (" " + "^" + ("Acc=" + g.acc + "^" + ("  -  " + g.title))))
  {
    assert FILE_HEADER == "***** " + "^" + "Type=" && "^ ^Acc=" == "^" + " " + "^" + "Acc=" && "^  -  " == "^" + "  -  ";
  }

  lemma FiveJoined(a: string, b: string, c: string, d: string, e: string)
    ensures Join([a, b, c, d, e], "^") == a + "^" + (b + "^" + (c + "^" + (d + "^" + e)))
  {
    assert [a, b, c, d, e][1..] == [b, c, d, e] && [b, c, d, e][1..] == [c, d, e] && [c, d, e][1..] == [d, e] && [d, e][1..] == [e];
    assert Join([d, e], "^") == d + "^" + e;
    assert Join([c, d, e], "^") == c + "^" + Join([d, e], "^");
    assert Join([b, c, d, e], "^") == b + "^" + Join([c, d, e], "^");
  }

  lemma {:induction false} KeepAll(parts: seq<string>)
    requires forall k :: 0 <= k < |parts| ==> parts[k] != ""
    ensures NonEmpty(parts) == parts
  {
    if parts != [] {
      KeepAll(parts[1..]);
      assert [parts[0]] + parts[1..] == parts;
    }
  }

  lemma GeneralReads(g: General)
    requires '^' !in g.typ && '^' !in g.acc && '^' !in g.title && Trimmed(g.title)
    requires '=' !in g.typ && '=' !in g.acc
    ensures ReadGeneral(PrintGeneral(g)) == g
  {
    hide SplitOn, PrintGeneral, Trim, Join, NonEmpty;
    GeneralParts(g);
    assert "Type=" + g.typ == "Type" + "=" + g.typ && "Acc=" + g.acc == "Acc" + "=" + g.acc;
    TwoParts("Type", g.typ);
    TwoParts("Acc", g.acc);
    TitleReads(g.title);
  }

  /** A header line with one more mark in it has its title behind that. */
  lemma LongHeaderReads(g: General, more: string)
    requires '^' !in g.typ && '^' !in g.acc && '^' !in g.title && Trimmed(g.title) && '^' !in more && more != ""
    requires '=' !in g.typ && '=' !in g.acc
    ensures ReadGeneral(Join(["***** ", "Type=" + g.typ, " ", "Acc=" + g.acc, " ", more, "  -  " + g.title], "^")) == g
  {
    hide SplitOn, Trim, Join, NonEmpty;
    var parts := ["***** ", "Type=" + g.typ, " ", "Acc=" + g.acc, " ", more, "  -  " + g.title];
    assert ['^'] == "^";
    SplitJoin(parts, '^');
    KeepAll(parts);
    assert "Type=" + g.typ == "Type" + "=" + g.typ && "Acc=" + g.acc == "Acc" + "=" + g.acc;
    TwoParts("Type", g.typ);
    TwoParts("Acc", g.acc);
    SplitPlain(" ", '-');
    TitleReads(g.title);
  }

  lemma RunNext(lines: seq<string>, line: string)
    ensures Run(lines + [line]) == Step(Run(lines), line)
  {
    assert (lines + [line])[..|lines|] == lines;
  }

  lemma StepPair(st: State, p: Pair)
    requires SoundState(st) && PrintablePair(p)
    ensures Step(st, PrintPair(p)) ==
            match st.current
            case Nowhere => st
            case InIn => st.(inParam := Store(st.inParam, p))
            case InOut => st.(outParam := Store(st.outParam, p))
  {
    hide SplitKeyValue, PrintablePair, Store;
    PairReads(p);
  }

  lemma {:induction false} RunPairs(lines: seq<string>, pairs: seq<Pair>, out: bool)
    requires forall k :: 0 <= k < |pairs| ==> PrintablePair(pairs[k])
    requires var st := Run(lines);
             if out then st.current == InOut && st.outParam == FRESH else st.current == InIn && st.inParam == FRESH
    ensures Run(lines + PrintPairs(pairs)) ==
            var st := Run(lines);
            if out then st.(outParam := StoreAll(pairs)) else st.(inParam := StoreAll(pairs))
  {
    hide Step, PrintPair, PrintablePair, Store, Run;
    if pairs == [] {
      assert lines + PrintPairs(pairs) == lines;
    } else {
      var n := |pairs| - 1;
      var before := lines + PrintPairs(pairs[..n]);
      RunPairs(lines, pairs[..n], out);
      assert lines + PrintPairs(pairs) == before + [PrintPair(pairs[n])];
      RunNext(before, PrintPair(pairs[n]));
      StepPair(Run(before), pairs[n]);
    }
  }

  lemma RunPrinted(d: Document)
    requires WellFormed(d)
    ensures Run(PrintLines(d)) == State(d.general, StoreAll(d.inPairs), StoreAll(d.outPairs), InOut)
  {
    hide ReadGeneral, PrintPair, Trim, Run, Store, SplitKeyValue, PlainText;
    var l0: seq<string> := [];
    assert Run(l0) == START by { RunEmpty(); }
    var g := PrintGeneral(d.general);
    assert g[0] == '*';
    PlainHeader(d);
    GeneralReads(d.general);
    RunNext(l0, g);
    assert l0 + [g] == [g];
    RunNext([g], "[IN_PARAM]");
    Tags();
    var l2 := [g] + ["[IN_PARAM]"];
    RunPairs(l2, d.inPairs, false);
    var l3 := l2 + PrintPairs(d.inPairs);
    RunNext(l3, "[OUT_PARAM]");
    RunPairs(l3 + ["[OUT_PARAM]"], d.outPairs, true);
    assert PrintLines(d) == l3 + ["[OUT_PARAM]"] + PrintPairs(d.outPairs);
  }

  /** Two output tags, one document each: the second document is written over the first. */
  lemma RepeatedTagOverwrites(first: string, second: string)
    requires PlainText(first) && PlainText(second)
    ensures var a, b := Pair("DocDate", first), Pair("DocDate", second);
            var lines := ["[OUT_PARAM]", PrintPair(a), "[OUT_PARAM]", PrintPair(b)];
            && Run(lines).outParam == Filling(EMPTY_SECTION.(items := [Put(Put(map[], a), b)]), 0)
            && Put(Put(map[], a), b)["DocDate"] == ReplaceChar(second, '/', ".")
  {
    hide ReadGeneral, PrintPair, Trim, Run, SplitKeyValue, PlainText, ReplaceChar;
    var a, b := Pair("DocDate", first), Pair("DocDate", second);
    var l0: seq<string> := [];
    assert Run(l0) == START by { RunEmpty(); }
    Tags();
    DocDateIsItem();
    DocDatePrints(first);
    DocDatePrints(second);
    RunNext(l0, "[OUT_PARAM]");
    assert l0 + ["[OUT_PARAM]"] == ["[OUT_PARAM]"];
    var l1 := ["[OUT_PARAM]"];
    RunNext(l1, PrintPair(a));
    StepPair(Run(l1), a);
    var l2 := l1 + [PrintPair(a)];
    RunNext(l2, "[OUT_PARAM]");
    var l3 := l2 + ["[OUT_PARAM]"];
    RunNext(l3, PrintPair(b));
    StepPair(Run(l3), b);
    assert l3 + [PrintPair(b)] == ["[OUT_PARAM]", PrintPair(a), "[OUT_PARAM]", PrintPair(b)];
    assert [Put(map[], a)][0 := Put(Put(map[], a), b)] == [Put(Put(map[], a), b)];
  }

  lemma DocDatePrints(date: string)
    requires PlainText(date)
    ensures PrintablePair(Pair("DocDate", date))
  {
  }

  lemma RunEmpty()
    ensures Run([]) == START
  {
  }

  lemma Tags()
    ensures Trim("[IN_PARAM]") == "[IN_PARAM]" && Trim("[OUT_PARAM]") == "[OUT_PARAM]"
  {
    hide Trim;
    TrimOfTrimmed("[IN_PARAM]");
    TrimOfTrimmed("[OUT_PARAM]");
  }

  lemma PlainHeader(d: Document)
    requires WellFormed(d)
    ensures var g := d.general;
            && '^' !in g.typ && '^' !in g.acc && '^' !in g.title && Trimmed(g.title)
            && NoBreak(g.typ) && NoBreak(g.acc) && NoBreak(g.title)
  {
  }

  lemma PrintedLinesUnbroken(d: Document, k: nat)
    requires WellFormed(d) && k < |PrintLines(d)|
    ensures NoBreak(PrintLines(d)[k])
  {
    PlainHeader(d);
    var n := |d.inPairs|;
    if 2 <= k < n + 2 {
      UnbrokenPair(d.inPairs[k - 2]);
    } else if k > n + 2 {
      UnbrokenPair(d.outPairs[k - n - 3]);
    }
  }

  lemma UnbrokenPair(p: Pair)
    requires PrintablePair(p)
    ensures NoBreak(PrintPair(p))
  {
  }

  /** Reading a printed statement gives its header line and, for each section, exactly the sections
      `FieldsClosure` and `RowsClosure` describe. */
  lemma ParsePrinted(d: Document, maxChars: nat)
    requires WellFormed(d) && |Print(d)| <= maxChars
    ensures Parse(Print(d), maxChars) ==
            Ok(Parsed(d.general, StoreAll(d.inPairs).section, StoreAll(d.outPairs).section))
  {
    hide Run, StoreAll, SplitLines, Join;
    var lines, eol := PrintLines(d), if d.crlf then "\r\n" else "\n";
    forall k | 0 <= k < |lines| ensures NoBreak(lines[k]) {
      PrintedLinesUnbroken(d, k);
    }
    SplitLinesJoin(lines, d.crlf);
    RunPrinted(d);
    assert lines == [lines[0]] + lines[1..];
    JoinAppend([lines[0]], lines[1..], eol);
    JoinOne(lines[0], eol);
    assert StartsAt(Print(d), 0, FILE_HEADER);
  }

  lemma JoinOne(line: string, eol: string)
    ensures Join([line], eol) == line
  {
  }
}
