/** Splitting one CSV line into cells, and gluing back the last meaningful column
    (app/utils/csvLine.ts). */
module CsvLine {
  import opened Text

  // ---- The splitter

  /** What the splitter still has to produce when it stands in front of `line` with the cell `cur`
      begun, inside or outside quotes. */
  function Scan(line: string, sep: char, cur: string, quoted: bool): (cells: seq<string>)
    ensures |cells| >= 1
    decreases |line|
  {
    if line == "" then [cur]
    else if quoted then
      if line[0] != '"' then Scan(line[1..], sep, cur + [line[0]], true)
      else if |line| > 1 && line[1] == '"' then Scan(line[2..], sep, cur + "\"", true)
      else Scan(line[1..], sep, cur, false)
    else if line[0] == '"' && cur == "" then Scan(line[1..], sep, cur, true)
    else if line[0] == sep then [cur] + Scan(line[1..], sep, "", false)
    else Scan(line[1..], sep, cur + [line[0]], false)
  }

  function Cells(line: string, sep: char): (cells: seq<string>)
    ensures |cells| >= 1
  {
    Scan(line, sep, "", false)
  }

  method SplitCsvLine(line: string, sep: char) returns (cells: seq<string>)
    ensures cells == Cells(line, sep)
  {
    cells := [];
    var cur := "";
    var quoted := false;
    var i := 0;
    while i < |line|
      invariant 0 <= i <= |line|
      invariant cells + Scan(line[i..], sep, cur, quoted) == Cells(line, sep)
    {
      var ch := line[i];
      assert line[i..][0] == ch && line[i..][1..] == line[i + 1..];
      if quoted {
        if ch != '"' {
          cur := cur + [ch];
        } else if i + 1 < |line| && line[i + 1] == '"' {
          assert line[i..][1] == '"' && line[i..][2..] == line[i + 2..];
          cur := cur + "\"";
          i := i + 1;
        } else {
          quoted := false;
        }
      } else if ch == '"' && cur == "" {
        quoted := true;
      } else if ch == sep {
        cells := cells + [cur];
        cur := "";
      } else {
        cur := cur + [ch];
      }
      i := i + 1;
    }
    assert line[i..] == "";
    cells := cells + [cur];
  }

  // ---- The printer it inverts (RFC 4180, section 2)

  datatype Cell = Cell(text: string, quoted: bool)

  /** A text the splitter reads back without quotes around it. */
  predicate PlainSafe(text: string, sep: char)
  {
    sep !in text && (text != "" ==> text[0] != '"')
  }

  function Render(c: Cell): string
  {
    if c.quoted then "\"" + ReplaceChar(c.text, '"', "\"\"") + "\"" else c.text
  }

  function RenderAll(cells: seq<Cell>): (r: seq<string>)
    ensures |r| == |cells|
  {
    if cells == [] then [] else [Render(cells[0])] + RenderAll(cells[1..])
  }

  function Texts(cells: seq<Cell>): (r: seq<string>)
    ensures |r| == |cells|
  {
    seq(|cells|, i requires 0 <= i < |cells| => cells[i].text)
  }

  /** Every cell is quoted, or needs no quotes. */
  predicate Printable(cells: seq<Cell>, sep: char)
  {
    forall k :: 0 <= k < |cells| ==> cells[k].quoted || PlainSafe(cells[k].text, sep)
  }

  lemma {:induction false} ScanQuoted(text: string, rest: string, sep: char, cur: string)
    requires rest != "" ==> rest[0] != '"'
    ensures Scan(ReplaceChar(text, '"', "\"\"") + "\"" + rest, sep, cur, true) == Scan(rest, sep, cur + text, false)
    decreases |text|
  {
    var line := ReplaceChar(text, '"', "\"\"") + "\"" + rest;
    if text == "" {
      assert line[1..] == rest && cur + text == cur;
    } else {
      var tail := ReplaceChar(text[1..], '"', "\"\"") + "\"" + rest;
      ScanQuoted(text[1..], rest, sep, cur + [text[0]]);
      assert cur + [text[0]] + text[1..] == cur + text;
      if text[0] == '"' {
        assert line == "\"\"" + tail && line[2..] == tail;
      } else {
        assert line == [text[0]] + tail && line[1..] == tail;
      }
    }
  }

  lemma {:induction false} ScanPlain(text: string, rest: string, sep: char, cur: string)
    requires sep !in text && (cur == "" && text != "" ==> text[0] != '"')
    ensures Scan(text + rest, sep, cur, false) == Scan(rest, sep, cur + text, false)
    decreases |text|
  {
    if text == "" {
      assert text + rest == rest && cur + text == cur;
    } else {
      assert (text + rest)[1..] == text[1..] + rest;
      ScanPlain(text[1..], rest, sep, cur + [text[0]]);
      assert cur + [text[0]] + text[1..] == cur + text;
    }
  }

  lemma ScanCell(c: Cell, rest: string, sep: char)
    requires c.quoted || PlainSafe(c.text, sep)
    requires rest != "" ==> rest[0] != '"'
    ensures Scan(Render(c) + rest, sep, "", false) == Scan(rest, sep, c.text, false)
  {
    if c.quoted {
      ScanQuoted(c.text, rest, sep, "");
      var line := Render(c) + rest;
      assert line[1..] == ReplaceChar(c.text, '"', "\"\"") + "\"" + rest;
    } else {
      ScanPlain(c.text, rest, sep, "");
    }
    assert "" + c.text == c.text;
  }

  /** Splitting undoes printing, whichever cells the printer chose to quote. */
  lemma {:induction false} SplitInvertsPrint(cells: seq<Cell>, sep: char)
    requires cells != [] && sep != '"' && Printable(cells, sep)
    ensures Cells(Join(RenderAll(cells), [sep]), sep) == Texts(cells)
  {
    hide Join;
    var first := cells[0];
    if |cells| == 1 {
      JoinOne(Render(first), [sep]);
      ScanCell(first, "", sep);
      assert Render(first) + "" == Render(first);
      assert RenderAll(cells[1..]) == [];
      assert RenderAll(cells) == [Render(first)];
    } else {
      var rest := Join(RenderAll(cells[1..]), [sep]);
      ScanCell(first, [sep] + rest, sep);
      assert ([sep] + rest)[1..] == rest;
      assert RenderAll(cells)[1..] == RenderAll(cells[1..]);
      JoinFirst(RenderAll(cells), [sep]);
      assert Render(first) + [sep] + rest == Render(first) + ([sep] + rest);
      SplitInvertsPrint(cells[1..], sep);
    }
    assert Texts(cells) == [first.text] + Texts(cells[1..]);
  }

  function Weight(cells: seq<string>): nat
  {
    if cells == [] then 0 else |cells[0]| + Weight(cells[1..])
  }

  lemma {:induction false} ScanWeight(line: string, sep: char, cur: string, quoted: bool)
    ensures Weight(Scan(line, sep, cur, quoted)) <= |cur| + |line|
    decreases |line|
  {
    if line == "" {
      assert [cur][1..] == [];
    } else if quoted {
      if line[0] != '"' {
        ScanWeight(line[1..], sep, cur + [line[0]], true);
      } else if |line| > 1 && line[1] == '"' {
        ScanWeight(line[2..], sep, cur + "\"", true);
      } else {
        ScanWeight(line[1..], sep, cur, false);
      }
    } else if line[0] == '"' && cur == "" {
      ScanWeight(line[1..], sep, cur, true);
    } else if line[0] == sep {
      ScanWeight(line[1..], sep, "", false);
      var rest := Scan(line[1..], sep, "", false);
      assert ([cur] + rest)[1..] == rest;
    } else {
      ScanWeight(line[1..], sep, cur + [line[0]], false);
    }
  }

  function FirstAt(s: string, c: char): (k: nat)
    requires c in s
    ensures k < |s| && s[k] == c && c !in s[..k]
  {
    if s[0] == c then 0
    else
      assert s[1..] == s[1..];
      assert c in s[1..];
      var k := FirstAt(s[1..], c);
      assert s[..k + 1] == [s[0]] + s[1..][..k];
      k + 1
  }

  /** Quotes are needed exactly for a text that holds the separator or opens with a quote. */
  lemma PlainExactly(text: string, sep: char)
    requires sep != '"'
    ensures Cells(text, sep) == [text] <==> PlainSafe(text, sep)
  {
    if PlainSafe(text, sep) {
      ScanPlain(text, "", sep, "");
      assert text + "" == text && "" + text == text;
    } else if text[0] == '"' {
      ScanWeight(text[1..], sep, "", true);
      assert [text][1..] == [];
      assert Weight([text]) == |text|;
    } else {
      var k := FirstAt(text, sep);
      var rest := text[k + 1..];
      ScanPlain(text[..k], [sep] + rest, sep, "");
      assert text == text[..k] + ([sep] + rest) && ([sep] + rest)[1..] == rest;
    }
  }

  // ---- The last meaningful column

  function DropBlankTail(cells: seq<string>): (r: seq<string>)
    ensures r <= cells
  {
    if |cells| > 1 && Trim(cells[|cells| - 1]) == "" then DropBlankTail(cells[..|cells| - 1]) else cells
  }

  function Tail(cells: seq<string>, from: nat, sep: char): string
  {
    Trim(Join(DropBlankTail(if from <= |cells| then cells[from..] else []), [sep]))
  }

  method TailCell(cells: seq<string>, from: nat, sep: char) returns (text: string)
    ensures text == Tail(cells, from, sep)
  {
    var tail := if from <= |cells| then cells[from..] else [];
    ghost var all := tail;
    while |tail| > 1 && Trim(tail[|tail| - 1]) == ""
      invariant DropBlankTail(tail) == DropBlankTail(all)
      decreases |tail|
    {
      tail := tail[..|tail| - 1];
    }
    text := Trim(Join(tail, [sep]));
  }

  lemma BlankIffTrimsAway(s: string)
    ensures Trim(s) == "" <==> Blank(s)
  {
    var left, right := TrimKeeps(s);
    if Blank(s) {
      TrimPadded(s, "", "");
      assert s + "" + "" == s;
    }
  }

  lemma {:induction false} DropBlanks(segs: seq<string>, blanks: seq<string>)
    requires segs != [] && AllBlank(blanks)
    ensures DropBlankTail(segs + blanks) == DropBlankTail(segs)
  {
    if blanks == [] {
      assert segs + blanks == segs;
    } else {
      hide Trim, Blank;
      var all := segs + blanks;
      assert all[|all| - 1] == blanks[|blanks| - 1];
      BlankIffTrimsAway(all[|all| - 1]);
      assert all[..|all| - 1] == segs + blanks[..|blanks| - 1];
      DropBlanks(segs, blanks[..|blanks| - 1]);
    }
  }

  predicate AllBlank(texts: seq<string>)
  {
    forall k :: 0 <= k < |texts| ==> Blank(texts[k])
  }

  predicate AllPlainSafe(texts: seq<string>, sep: char)
  {
    forall k :: 0 <= k < |texts| ==> PlainSafe(texts[k], sep)
  }

  function Plain(texts: seq<string>): (r: seq<Cell>)
    ensures |r| == |texts|
  {
    seq(|texts|, i requires 0 <= i < |texts| => Cell(texts[i], false))
  }

  lemma {:induction false} RenderPlain(texts: seq<string>)
    ensures RenderAll(Plain(texts)) == texts && Texts(Plain(texts)) == texts
  {
    if texts != [] {
      RenderPlain(texts[1..]);
      assert Plain(texts)[1..] == Plain(texts[1..]);
    }
  }

  lemma {:induction false} RenderAppend(a: seq<Cell>, b: seq<Cell>)
    ensures RenderAll(a + b) == RenderAll(a) + RenderAll(b)
  {
    if a == [] {
      assert a + b == b;
    } else {
      assert (a + b)[1..] == a[1..] + b;
      RenderAppend(a[1..], b);
    }
  }

  /** Putting the segments of a text back in its place does not change the joined line. */
  lemma JoinOpened(before: seq<string>, text: string, after: seq<string>, sep: char)
    ensures Join(before + SplitOn(text, sep) + after, [sep]) == Join(before + [text] + after, [sep])
  {
    var segs := SplitOn(text, sep);
    JoinSplit(text, sep);
    assert Join([text], [sep]) == text;
    if after != [] {
      JoinAppend(segs, after, [sep]);
      JoinAppend([text], after, [sep]);
    } else {
      assert segs + after == segs && [text] + after == [text];
    }
    assert before + segs + after == before + (segs + after);
    assert before + [text] + after == before + ([text] + after);
    if before != [] {
      JoinAppend(before, segs + after, [sep]);
      JoinAppend(before, [text] + after, [sep]);
    } else {
      assert before + (segs + after) == segs + after;
      assert before + ([text] + after) == [text] + after;
    }
  }

  /** A line whose last column is left unquoted, followed only by blank columns. */
  function OpenLine(before: seq<Cell>, text: string, blanks: seq<string>, sep: char): string
  {
    Join(RenderAll(before) + [text] + blanks, [sep])
  }

  /** A bank that leaves the last column unquoted, separators and all, and then only blank columns:
      the purpose comes back whole exactly when its own last segment is not blank. */
  lemma TailRestores(before: seq<Cell>, text: string, blanks: seq<string>, sep: char)
    requires sep != '"' && !IsSpace(sep) && Printable(before, sep)
    requires AllPlainSafe(SplitOn(text, sep), sep) && AllBlank(blanks)
    ensures var got := Tail(Cells(OpenLine(before, text, blanks, sep), sep), |before|, sep);
            var segs := SplitOn(text, sep);
            && got == Trim(Join(DropBlankTail(segs), [sep]))
            && (got == Trim(text) <==> |segs| == 1 || !Blank(segs[|segs| - 1]))
  {
    hide SplitOn, Trim, Join, DropBlankTail, IsSpace, Cells, OpenLine;
    var segs := SplitOn(text, sep);
    var cells := Cells(OpenLine(before, text, blanks, sep), sep);
    assert |before| <= |cells| && cells[|before|..] == segs + blanks by {
      TailCells(before, text, blanks, sep);
    }
    assert DropBlankTail(segs + blanks) == DropBlankTail(segs) by {
      DropBlanks(segs, blanks);
    }
    assert Tail(cells, |before|, sep) == Trim(Join(DropBlankTail(segs), [sep]));
    LastSegment(segs, text, sep);
  }

  lemma TailCells(before: seq<Cell>, text: string, blanks: seq<string>, sep: char)
    requires sep != '"' && !IsSpace(sep) && Printable(before, sep)
    requires AllPlainSafe(SplitOn(text, sep), sep) && AllBlank(blanks)
    ensures var cells := Cells(OpenLine(before, text, blanks, sep), sep);
            |before| <= |cells| && cells[|before|..] == SplitOn(text, sep) + blanks
  {
    var segs := SplitOn(text, sep);
    var open := Plain(segs + blanks);
    forall k | 0 <= k < |before + open| ensures (before + open)[k].quoted || PlainSafe((before + open)[k].text, sep) {
      if k >= |before| + |segs| {
        var b := blanks[k - |before| - |segs|];
        assert Blank(b) && sep !in b;
      }
    }
    SplitInvertsPrint(before + open, sep);
    RenderAppend(before, open);
    RenderPlain(segs + blanks);
    assert RenderAll(before) + (segs + blanks) == RenderAll(before) + segs + blanks;
    JoinOpened(RenderAll(before), text, blanks, sep);
    assert Texts(before + open)[|before|..] == segs + blanks;
  }

  lemma LastSegment(segs: seq<string>, text: string, sep: char)
    requires !IsSpace(sep) && segs == SplitOn(text, sep)
    ensures Trim(Join(DropBlankTail(segs), [sep])) == Trim(text) <==> |segs| == 1 || !Blank(segs[|segs| - 1])
  {
    hide SplitOn, Trim, Join, DropBlankTail, IsSpace;
    JoinSplit(text, sep);
    DropExactly(segs);
    if |segs| > 1 && Blank(segs[|segs| - 1]) {
      var kept := DropBlankTail(segs);
      TrimCount(text, sep);
      TrimCount(Join(kept, [sep]), sep);
      JoinCount(segs, sep);
      JoinCount(kept, sep);
    }
  }

  lemma {:induction false} DropExactly(segs: seq<string>)
    requires segs != []
    ensures DropBlankTail(segs) != []
    ensures DropBlankTail(segs) == segs <==> |segs| == 1 || !Blank(segs[|segs| - 1])
  {
    hide Trim;
    BlankIffTrimsAway(segs[|segs| - 1]);
    if |segs| > 1 {
      DropExactly(segs[..|segs| - 1]);
    }
  }

  /** A text that ends in a blank segment comes back without it. */
  lemma BlankSegmentLost()
    ensures Tail(Cells("a;", ';'), 0, ';') == "a" && Trim("a;") == "a;"
  {
    hide Tail, Cells, OpenLine, Trim, IsSpace, SplitOn, AllPlainSafe, AllBlank, Printable, DropBlankTail, Join;
    TwoSegments();
    LastBlank();
    TailRestores([], "a;", [], ';');
    OpenText("a;");
    assert [';'] == ";";
  }

  lemma TwoSegments()
    ensures SplitOn("a;", ';') == ["a", ""]
  {
    var none, blank := SplitOn("", ';'), SplitOn(";", ';');
    assert none == [""];
    assert ";"[1..] == "" && "a;"[1..] == ";";
    assert blank == [""] + none == ["", ""];
    assert SplitOn("a;", ';') == [['a'] + blank[0]] + blank[1..];
    assert ['a'] + "" == "a" && blank[1..] == [""];
    assert ["a"] + [""] == ["a", ""];
  }

  lemma OpenText(text: string)
    ensures OpenLine([], text, [], ';') == text
  {
    assert RenderAll([]) + [text] + [] == [text];
  }

  lemma LastBlank()
    ensures Trim("a;") == "a;" && Trim(Join(DropBlankTail(["a", ""]), ";")) == "a" && !IsSpace(';')
    ensures AllPlainSafe(["a", ""], ';') && AllBlank([]) && Printable([], ';')
  {
    hide Trim;
    TrimOfTrimmed("a;");
    TrimOfTrimmed("a");
    TrimOfTrimmed("");
    assert ["a", ""][..1] == ["a"];
    assert Join(["a"], ";") == "a";
  }
}
