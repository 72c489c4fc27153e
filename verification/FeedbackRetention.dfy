/** The sweep that cuts aged statements out of closed issues (app/utils/feedbackRetention.ts), and why
    it agrees with what the issue builder writes. */
module FeedbackRetention {
  import opened Outcome
  import opened Text
  import opened Feedback

  const REDACTION_MARKER := "_[выписка " + "удалена по " + "retention-" + "политике " + "(#284)]_"
  const DAY_MS := 86400000

  /** The first occurrence of `p` at or after `i`, or the end. */
  function Next(s: string, p: string, i: nat): (k: nat)
    requires i <= |s| && p != ""
    ensures i <= k <= |s| && (k < |s| ==> StartsAt(s, k, p))
    ensures forall j :: i <= j < k ==> !StartsAt(s, j, p)
    decreases |s| - i
  {
    if i == |s| || StartsAt(s, i, p) then i else Next(s, p, i + 1)
  }

  /** The statement pattern matches at `i`: an opening, then anything, then the nearest closing. */
  predicate BlockAt(s: string, i: nat)
  {
    StartsAt(s, i, OPENING) && Next(s, CLOSING, i + |OPENING|) < |s|
  }

  /** Where the match at `i` ends. */
  function BlockEnd(s: string, i: nat): (k: nat)
    requires BlockAt(s, i)
    ensures i + |OPENING| + |CLOSING| <= k <= |s|
  {
    Next(s, CLOSING, i + |OPENING|) + |CLOSING|
  }

  /** Global replacement with the shortest match: leftmost match first, scanning on after its end. */
  function ReplaceBlocks(s: string): string
    decreases |s|
  {
    if s == "" then ""
    else if BlockAt(s, 0) then REDACTION_MARKER + ReplaceBlocks(s[BlockEnd(s, 0)..])
    else [s[0]] + ReplaceBlocks(s[1..])
  }

  function RedactStatementBlocks(body: string): string
  {
    if !Contains(body, SUMMARY_TAG) then body else ReplaceBlocks(body)
  }

  predicate HasStatementBlock(body: string)
  {
    exists i :: 0 <= i < |body| && BlockAt(body, i)
  }

  // ---- Positions

  lemma MarkerHasNoTag()
    ensures '<' !in REDACTION_MARKER && |REDACTION_MARKER| > 0 && REDACTION_MARKER[0] == '_'
  {
    assert '<' !in "_[выписка " && '<' !in "удалена по " && '<' !in "retention-" && '<' !in "политике " && '<' !in "(#284)]_";
  }

  /** `<` stands in the opening at 0, 9 and 37 only, and is followed by `d` at 0 only. */
  lemma OpeningTags()
    ensures |OPENING| == 47 && OPENING[0] == '<' && OPENING[1] == 'd' && OPENING[2] == 'e'
    ensures OPENING[10] == 's' && OPENING[11] == 'u' && OPENING[38] == '/' && OPENING[39] == 's'
    ensures forall k :: 0 <= k < |OPENING| && k != 0 && k != 9 && k != 37 ==> OPENING[k] != '<'
  {
    var a, b, c, d, e := "<details>", "<summary>", "Показать ", "содержимое", "</summary>";
    assert '<' !in a[1..] && '<' !in b[1..] && '<' !in c && '<' !in d && '<' !in e[1..];
    forall k | 0 <= k < |OPENING| && k != 0 && k != 9 && k != 37 ensures OPENING[k] != '<' {
      if k < 9 {
        assert OPENING[k] == a[1..][k - 1];
      } else if k < 18 {
        assert OPENING[k] == b[1..][k - 10];
      } else if k < 27 {
        assert OPENING[k] == c[k - 18];
      } else if k < 37 {
        assert OPENING[k] == d[k - 27];
      } else {
        assert OPENING[k] == e[1..][k - 38];
      }
    }
  }

  lemma OpeningHasNoUnderscore()
    ensures '_' !in OPENING
  {
    assert '_' !in "<details>" && '_' !in "<summary>" && '_' !in "Показать " && '_' !in "содержимое" && '_' !in "</summary>";
  }

  lemma ClosingTags()
    ensures |CLOSING| == 10 && CLOSING[0] == '<' && CLOSING[1] == '/' && CLOSING[2] == 'd'
    ensures forall k :: 0 <= k < |CLOSING| && CLOSING[k] == '<' ==> k == 0
  {
  }

  lemma At(s: string, i: nat, p: string, k: nat)
    requires StartsAt(s, i, p) && k < |p|
    ensures s[i + k] == p[k]
  {
    assert s[i..i + |p|][k] == s[i + k];
  }

  lemma NotAt(s: string, i: nat, p: string, k: nat)
    requires k < |p| && (i + |p| <= |s| ==> s[i + k] != p[k])
    ensures !StartsAt(s, i, p)
  {
    if StartsAt(s, i, p) {
      At(s, i, p, k);
      assert false;
    }
  }

  /** Occurrences are found where they are, whatever is cut off in front. */
  lemma Shift(s: string, n: nat, i: nat, p: string)
    requires n <= |s|
    ensures StartsAt(s[n..], i, p) == StartsAt(s, n + i, p)
  {
    if n + i + |p| <= |s| {
      assert s[n..][i..i + |p|] == s[n + i..n + i + |p|];
    }
  }

  lemma NextUnique(s: string, p: string, i: nat, k: nat)
    requires i <= k <= |s| && p != "" && (k < |s| ==> StartsAt(s, k, p))
    requires forall j :: i <= j < k ==> !StartsAt(s, j, p)
    ensures Next(s, p, i) == k
  {
    hide StartsAt;
  }

  lemma NextShift(s: string, n: nat, i: nat, p: string)
    requires n + i <= |s| && p != ""
    ensures Next(s, p, n + i) == n + Next(s[n..], p, i)
  {
    hide StartsAt;
    var k := Next(s[n..], p, i);
    Shift(s, n, k, p);
    forall j | n + i <= j < n + k ensures !StartsAt(s, j, p) {
      Shift(s, n, j - n, p);
      assert !StartsAt(s[n..], j - n, p);
    }
    NextUnique(s, p, n + i, n + k);
  }

  lemma BlockShift(s: string, n: nat, i: nat)
    requires n <= |s|
    ensures BlockAt(s[n..], i) == BlockAt(s, n + i)
    ensures BlockAt(s, n + i) ==> BlockEnd(s, n + i) == n + BlockEnd(s[n..], i)
  {
    hide StartsAt, Next;
    Shift(s, n, i, OPENING);
    if StartsAt(s, n + i, OPENING) {
      Fits(s, n + i, OPENING);
      NextShift(s, n, i + |OPENING|, CLOSING);
    }
  }

  lemma Fits(s: string, i: nat, p: string)
    requires StartsAt(s, i, p)
    ensures i + |p| <= |s|
  {
  }

  // ---- No block is left

  /** A `_`-free text at the front of the result was at the front of the input. */
  lemma {:induction false} FrontSurvives(t: string, p: string)
    requires StartsAt(ReplaceBlocks(t), 0, p) && '_' !in p
    ensures StartsAt(t, 0, p)
  {
    hide BlockAt;
    if p != "" {
      At(ReplaceBlocks(t), 0, p, 0);
      MarkerHasNoTag();
      assert t != "" && !BlockAt(t, 0);
      var r := ReplaceBlocks(t[1..]);
      assert ([t[0]] + r)[1..] == r;
      assert ([t[0]] + r)[..|p|] == p;
      assert r[..|p| - 1] == p[1..];
      FrontSurvives(t[1..], p[1..]);
      assert t[..|p|] == p;
    }
  }

  lemma {:induction false} NothingToReplace(s: string)
    requires !HasStatementBlock(s)
    ensures ReplaceBlocks(s) == s
  {
    hide BlockAt;
    if s != "" {
      assert !BlockAt(s, 0);
      forall i | 0 <= i < |s[1..]| ensures !BlockAt(s[1..], i) {
        BlockShift(s, 1, i);
        assert !BlockAt(s, 1 + i);
      }
      NothingToReplace(s[1..]);
      assert [s[0]] + s[1..] == s;
    }
  }

  /** An unmatched opening means that no closing follows, so nothing after it is replaced either. */
  lemma UnmatchedOpening(s: string)
    requires StartsAt(s, 0, OPENING) && !BlockAt(s, 0)
    ensures !HasStatementBlock(s)
  {
    hide StartsAt, Next;
    Fits(s, 0, OPENING);
    forall i | 0 <= i < |s| ensures !BlockAt(s, i) {
      if StartsAt(s, i, OPENING) {
        Fits(s, i, OPENING);
        assert Next(s, CLOSING, |OPENING|) == |s|;
      }
    }
  }

  /** Whatever the body holds, no statement block is left in the result. */
  lemma {:induction false} NoBlockLeft(s: string)
    ensures !HasStatementBlock(ReplaceBlocks(s))
    decreases |s|
  {
    hide BlockAt, StartsAt;
    if s != "" {
      if BlockAt(s, 0) {
        NoBlockLeft(s[BlockEnd(s, 0)..]);
        NoBlockAfterMarker(ReplaceBlocks(s[BlockEnd(s, 0)..]));
      } else {
        NoBlockLeft(s[1..]);
        NoBlockAfterCopy(s);
      }
    }
  }

  /** Text without an opening in front adds no block. */
  lemma NoOpeningInFront(s: string, m: nat)
    requires m <= |s| && !HasStatementBlock(s[m..])
    requires forall i :: 0 <= i < m ==> !StartsAt(s, i, OPENING)
    ensures !HasStatementBlock(s)
  {
    forall i | 0 <= i < |s| ensures !BlockAt(s, i) {
      hide StartsAt, Next, OPENING, CLOSING;
      if i < m {
        assert !StartsAt(s, i, OPENING);
      } else {
        BlockShift(s, m, i - m);
        assert !BlockAt(s[m..], i - m);
      }
    }
  }

  lemma NoBlockAfterMarker(r: string)
    requires !HasStatementBlock(r)
    ensures !HasStatementBlock(REDACTION_MARKER + r)
  {
    hide StartsAt, HasStatementBlock, OPENING, REDACTION_MARKER;
    var out, m := REDACTION_MARKER + r, |REDACTION_MARKER|;
    OpeningTags();
    MarkerHasNoTag();
    forall i | 0 <= i < m ensures !StartsAt(out, i, OPENING) {
      assert out[i] == REDACTION_MARKER[i];
      NotAt(out, i, OPENING, 0);
    }
    assert out[m..] == r;
    NoOpeningInFront(out, m);
  }

  lemma NoBlockAfterCopy(s: string)
    requires s != "" && !BlockAt(s, 0) && !HasStatementBlock(ReplaceBlocks(s[1..]))
    ensures !HasStatementBlock(ReplaceBlocks(s))
  {
    hide StartsAt, BlockAt, BlockEnd, HasStatementBlock, OPENING, REDACTION_MARKER;
    var out := ReplaceBlocks(s);
    if StartsAt(out, 0, OPENING) {
      OpeningHasNoUnderscore();
      FrontSurvives(s, OPENING);
      UnmatchedOpening(s);
      NothingToReplace(s);
    } else {
      assert out[1..] == ReplaceBlocks(s[1..]);
      NoOpeningInFront(out, 1);
    }
  }

  lemma CharacterCopied(s: string)
    requires s != "" && !BlockAt(s, 0)
    ensures ReplaceBlocks(s) == [s[0]] + ReplaceBlocks(s[1..])
  {
    hide BlockAt;
  }

  lemma BlockReplaced(s: string)
    requires s != "" && BlockAt(s, 0)
    ensures ReplaceBlocks(s) == REDACTION_MARKER + ReplaceBlocks(s[BlockEnd(s, 0)..])
  {
    hide BlockAt;
  }

  /** Up to the first block the text is copied; the block itself becomes the marker. */
  lemma {:induction false} FirstBlock(s: string, i: nat)
    requires i < |s| && BlockAt(s, i) && forall j :: 0 <= j < i ==> !BlockAt(s, j)
    ensures ReplaceBlocks(s) == s[..i] + REDACTION_MARKER + ReplaceBlocks(s[BlockEnd(s, i)..])
    decreases i
  {
    hide BlockAt, ReplaceBlocks, Next, OPENING, CLOSING, REDACTION_MARKER;
    if i == 0 {
      BlockReplaced(s);
    } else {
      BlockShift(s, 1, i - 1);
      forall j | 0 <= j < i - 1 ensures !BlockAt(s[1..], j) {
        BlockShift(s, 1, j);
        assert !BlockAt(s, 1 + j);
      }
      FirstBlock(s[1..], i - 1);
      assert !BlockAt(s, 0);
      CharacterCopied(s);
      assert s[1..][BlockEnd(s[1..], i - 1)..] == s[BlockEnd(s, i)..];
      assert [s[0]] + s[1..][..i - 1] == s[..i];
    }
  }

  lemma ChangedOnlyByBlocks(s: string)
    ensures (ReplaceBlocks(s) != s) <==> HasStatementBlock(s)
  {
    hide BlockAt, ReplaceBlocks, OPENING, CLOSING, REDACTION_MARKER;
    if HasStatementBlock(s) {
      var i := FirstBlockIndex(s);
      FirstBlock(s, i);
      MarkerHasNoTag();
      BlockOpens(s, i);
      assert ReplaceBlocks(s)[i] == '_';
    } else {
      NothingToReplace(s);
    }
  }

  lemma BlockOpens(s: string, i: nat)
    requires BlockAt(s, i)
    ensures i < |s| && s[i] == '<'
  {
    hide StartsAt, Next, OPENING, CLOSING;
    OpeningTags();
    Fits(s, i, OPENING);
    At(s, i, OPENING, 0);
  }

  lemma FirstBlockIndex(s: string) returns (i: nat)
    requires HasStatementBlock(s)
    ensures i < |s| && BlockAt(s, i) && forall j :: 0 <= j < i ==> !BlockAt(s, j)
  {
    hide BlockAt;
    i := 0;
    while !BlockAt(s, i)
      decreases |s| - i
      invariant i < |s| && forall j :: 0 <= j < i ==> !BlockAt(s, j)
    {
      i := i + 1;
    }
  }

  /** The quick test for the summary tag never hides a block. */
  lemma QuickTestHarmless(body: string)
    ensures RedactStatementBlocks(body) == ReplaceBlocks(body)
  {
    hide ReplaceBlocks, Next, CLOSING, SUMMARY_TAG;
    if HasStatementBlock(body) {
      var i := FirstBlockIndex(body);
      assert body[i + 9..i + 9 + |SUMMARY_TAG|] == body[i..i + |OPENING|][9..] == SUMMARY_TAG;
      assert StartsAt(body, i + 9, SUMMARY_TAG);
    } else {
      NothingToReplace(body);
    }
  }

  /** For every body: no statement block survives, a second sweep changes nothing, and a sweep changes
      the body exactly when it held a block. */
  lemma RedactionComplete(body: string)
    ensures !HasStatementBlock(RedactStatementBlocks(body))
    ensures RedactStatementBlocks(RedactStatementBlocks(body)) == RedactStatementBlocks(body)
    ensures RedactStatementBlocks(body) != body <==> HasStatementBlock(body)
  {
    hide HasStatementBlock, ReplaceBlocks, RedactStatementBlocks;
    QuickTestHarmless(body);
    NoBlockLeft(body);
    QuickTestHarmless(ReplaceBlocks(body));
    ChangedOnlyByBlocks(body);
    ChangedOnlyByBlocks(ReplaceBlocks(body));
  }

  // ---- The embedded statement leaves no trace

  /** Text in which no opening and no closing can begin, whatever surrounds it. */
  predicate Inert(x: string)
  {
    forall k :: 0 <= k < |x| && x[k] == '<' ==> k + 2 < |x| && x[k + 2] != 'd' && x[k + 1] != 'd'
  }

  function Wrapped(a: string, x: string): string
  {
    a + OPENING + x + CLOSING
  }

  /** No closing begins between the end of the front and the end of the block. */
  lemma OnlyClosingAtEnd(a: string, x: string, j: nat)
    requires Inert(x) && |a| < j + |CLOSING| <= |Wrapped(a, x)| && j < |a| + |OPENING| + |x|
    ensures !StartsAt(Wrapped(a, x), j, CLOSING)
  {
    hide StartsAt, OPENING, CLOSING;
    var s, n := Wrapped(a, x), |a|;
    OpeningTags();
    ClosingTags();
    if j < n {
      assert s[j + (n - j)] == OPENING[0];
      NotAt(s, j, CLOSING, n - j);
    } else if j < n + |OPENING| {
      var k := j - n;
      assert s[j] == OPENING[k];
      if OPENING[k] != '<' {
        NotAt(s, j, CLOSING, 0);
      } else {
        assert k == 0 || k == 9 || k == 37;
        assert s[j + 2] == OPENING[k + 2];
        NotAt(s, j, CLOSING, 2);
      }
    } else {
      var k := j - n - |OPENING|;
      assert s[j] == x[k];
      if x[k] != '<' {
        NotAt(s, j, CLOSING, 0);
      } else {
        assert s[j + 2] == x[k + 2];
        NotAt(s, j, CLOSING, 2);
      }
    }
  }

  lemma ClosingAtEnd(a: string, x: string)
    ensures StartsAt(Wrapped(a, x), |a| + |OPENING| + |x|, CLOSING)
  {
    var s, e := Wrapped(a, x), |a| + |OPENING| + |x|;
    assert s[e..e + |CLOSING|] == CLOSING;
  }

  /** An opening cannot straddle the end of the front. */
  lemma NoStraddle(a: string, x: string)
    requires 0 < |a| < |OPENING|
    ensures !StartsAt(Wrapped(a, x), 0, OPENING)
  {
    hide StartsAt, OPENING, CLOSING;
    var s, n := Wrapped(a, x), |a|;
    OpeningTags();
    assert s[n] == '<' && s[n + 1] == 'd';
    if n == 9 || n == 37 {
      NotAt(s, 0, OPENING, n + 1);
    } else {
      NotAt(s, 0, OPENING, n);
    }
  }

  /** Inside the front, a text occurs whatever follows. */
  lemma InFront(a: string, x: string, j: nat, p: string)
    requires j + |p| <= |a|
    ensures StartsAt(Wrapped(a, x), j, p) == StartsAt(a, j, p)
  {
    assert Wrapped(a, x)[j..j + |p|] == a[j..j + |p|];
  }

  /** The nearest closing after a place in the front: in the front, or else the block's own. */
  lemma NextClosing(a: string, x: string, i: nat)
    requires Inert(x) && i <= |a| + |OPENING|
    ensures var k := if i <= |a| then Next(a, CLOSING, i) else |a|;
            Next(Wrapped(a, x), CLOSING, i) == if k < |a| then k else |a| + |OPENING| + |x|
  {
    hide StartsAt, OPENING, CLOSING;
    var s, e := Wrapped(a, x), |a| + |OPENING| + |x|;
    ClosingTags();
    var k := if i <= |a| then Next(a, CLOSING, i) else |a|;
    ClosingAtEnd(a, x);
    if k < |a| {
      Fits(a, k, CLOSING);
      InFront(a, x, k, CLOSING);
    }
    forall j | i <= j < if k < |a| then k else e ensures !StartsAt(s, j, CLOSING) {
      if j + |CLOSING| <= |a| {
        InFront(a, x, j, CLOSING);
        assert j < k;
      } else {
        OnlyClosingAtEnd(a, x, j);
      }
    }
    NextUnique(s, CLOSING, i, if k < |a| then k else e);
  }

  lemma ReplaceAt(s: string)
    ensures s == "" ==> ReplaceBlocks(s) == ""
    ensures s != "" && !BlockAt(s, 0) ==> ReplaceBlocks(s) == [s[0]] + ReplaceBlocks(s[1..])
    ensures BlockAt(s, 0) ==> ReplaceBlocks(s) == REDACTION_MARKER + ReplaceBlocks(s[BlockEnd(s, 0)..])
  {
    hide StartsAt, Next, OPENING, CLOSING, REDACTION_MARKER;
    OpeningTags();
  }

  /** What the first step of the sweep does depends on the front only: copy a character, take out a
      block the front closes, or take out everything that is left. */
  lemma SweepStep(a: string, x: string)
    requires Inert(x)
    ensures a == "" ==> ReplaceBlocks(Wrapped(a, x)) == REDACTION_MARKER
    ensures a != "" && !StartsAt(a, 0, OPENING) ==>
              ReplaceBlocks(Wrapped(a, x)) == [a[0]] + ReplaceBlocks(Wrapped(a[1..], x))
    ensures StartsAt(a, 0, OPENING) && !BlockAt(a, 0) ==> ReplaceBlocks(Wrapped(a, x)) == REDACTION_MARKER
    ensures BlockAt(a, 0) ==>
              ReplaceBlocks(Wrapped(a, x)) == REDACTION_MARKER + ReplaceBlocks(Wrapped(a[BlockEnd(a, 0)..], x))
  {
    hide StartsAt, Next, OPENING, CLOSING, REDACTION_MARKER, Inert, ReplaceBlocks, Wrapped;
    var s := Wrapped(a, x);
    OpeningTags();
    ClosingTags();
    ReplaceAt(s);
    if 0 < |a| < |OPENING| {
      NoStraddle(a, x);
      WrappedRest(a, x, 1);
      ShortFront(a);
    } else {
      OpensSame(a, x);
      NextClosing(a, x, |OPENING|);
      WrappedRest(a, x, if a != "" then 1 else 0);
      if BlockAt(a, 0) {
        WrappedRest(a, x, BlockEnd(a, 0));
      }
      ReplaceAt("");
      assert REDACTION_MARKER + "" == REDACTION_MARKER;
    }
  }

  lemma ShortFront(a: string)
    requires |a| < |OPENING|
    ensures !StartsAt(a, 0, OPENING)
  {
  }

  lemma OpensSame(a: string, x: string)
    requires a == "" || |a| >= |OPENING|
    ensures StartsAt(Wrapped(a, x), 0, OPENING) == (a == "" || StartsAt(a, 0, OPENING))
    ensures a == "" ==> !StartsAt(a, 0, OPENING)
  {
    hide OPENING, CLOSING;
    OpeningTags();
    if a == "" {
      assert Wrapped(a, x)[..|OPENING|] == OPENING;
    } else {
      InFront(a, x, 0, OPENING);
    }
  }

  lemma WrappedRest(a: string, x: string, n: nat)
    requires n <= |a|
    ensures Wrapped(a, x)[n..] == Wrapped(a[n..], x)
    ensures a != "" ==> Wrapped(a, x)[0] == a[0]
    ensures |Wrapped(a, x)| == |a| + |OPENING| + |x| + |CLOSING|
    ensures Wrapped(a, x)[|Wrapped(a, x)|..] == ""
  {
    hide OPENING, CLOSING;
  }

  /** After the sweep nothing tells one embedded statement from another, whatever stands in front. */
  lemma {:induction false} Vanishes(a: string, x: string, y: string)
    requires Inert(x) && Inert(y)
    ensures ReplaceBlocks(Wrapped(a, x)) == ReplaceBlocks(Wrapped(a, y))
    decreases |a|
  {
    hide StartsAt, Next, OPENING, CLOSING, REDACTION_MARKER, Inert, ReplaceBlocks, Wrapped;
    SweepStep(a, x);
    SweepStep(a, y);
    OpeningTags();
    if BlockAt(a, 0) {
      Vanishes(a[BlockEnd(a, 0)..], x, y);
    } else if a != "" {
      Vanishes(a[1..], x, y);
    }
  }

  /** The rest of the body stays as it was exactly when no opening occurs in front of the block. */
  lemma {:induction false} RestKept(a: string, x: string)
    requires Inert(x)
    ensures ReplaceBlocks(Wrapped(a, x)) == a + REDACTION_MARKER <==> !Contains(a, OPENING)
  {
    hide StartsAt, Next, OPENING, CLOSING, REDACTION_MARKER, Inert, ReplaceBlocks, Wrapped, BlockAt;
    SweepStep(a, x);
    OpeningTags();
    MarkerHasNoTag();
    if a == "" {
      ShortFront(a);
      assert a + REDACTION_MARKER == REDACTION_MARKER;
    } else if StartsAt(a, 0, OPENING) {
      At(a, 0, OPENING, 0);
      assert ReplaceBlocks(Wrapped(a, x))[0] == '_' && (a + REDACTION_MARKER)[0] == '<';
    } else {
      RestKept(a[1..], x);
      ContainsRest(a, OPENING);
      assert a + REDACTION_MARKER == [a[0]] + (a[1..] + REDACTION_MARKER);
      assert ([a[0]] + (a[1..] + REDACTION_MARKER))[1..] == a[1..] + REDACTION_MARKER;
      assert ([a[0]] + ReplaceBlocks(Wrapped(a[1..], x)))[1..] == ReplaceBlocks(Wrapped(a[1..], x));
    }
  }

  lemma ContainsRest(a: string, p: string)
    requires a != "" && !StartsAt(a, 0, p)
    ensures Contains(a, p) <==> Contains(a[1..], p)
  {
    hide StartsAt;
    if Contains(a, p) {
      var i :| 0 <= i <= |a| && StartsAt(a, i, p);
      Shift(a, 1, i - 1, p);
    }
    if Contains(a[1..], p) {
      var i :| 0 <= i <= |a[1..]| && StartsAt(a[1..], i, p);
      Shift(a, 1, i, p);
    }
  }

  // ---- The bodies the builder writes

  predicate HasFile(file: string)
  {
    Trim(StripHostileChars(file)) != ""
  }

  function FrontText(kind: Kind, comment: string, c: Context): string
  {
    Join(FrontLines(kind, comment, c) + ["", CAPTION], "\n") + "\n"
  }

  function Embedded(file: string): string
  {
    "\n" + "" + "\n" + "<pre><code>" + "\n" + FileContent(file) + "\n" + "</code></pre>" + "\n"
  }

  lemma BodyShape(kind: Kind, comment: string, c: Context, file: string)
    requires HasFile(file)
    ensures IssueBody(kind, comment, c, file) == Wrapped(FrontText(kind, comment, c), Embedded(file))
  {
    hide FrontLines, FileContent, HasFile, OPENING, CLOSING, CAPTION, Join;
    var front := FrontLines(kind, comment, c) + ["", CAPTION];
    var block := [OPENING, "", "<pre><code>", FileContent(file), "</code></pre>", CLOSING];
    EmbedShape(file);
    assert FrontLines(kind, comment, c) + FileEmbedLines(file) == front + block;
    JoinAppend(front, block, "\n");
    SixJoined(OPENING, "", "<pre><code>", FileContent(file), "</code></pre>", CLOSING);
  }

  lemma EmbedShape(file: string)
    requires HasFile(file)
    ensures FileEmbedLines(file) ==
            ["", CAPTION] + [OPENING, "", "<pre><code>", FileContent(file), "</code></pre>", CLOSING]
  {
  }

  lemma SixJoined(a: string, b: string, c: string, d: string, e: string, f: string)
    ensures Join([a, b, c, d, e, f], "\n") == a + ("\n" + b + "\n" + c + "\n" + d + "\n" + e + "\n") + f
  {
    TwoJoined(a, b);
    TwoJoined(c, d);
    TwoJoined(e, f);
    hide Join;
    JoinAppend([a, b], [c, d], "\n");
    JoinAppend([a, b] + [c, d], [e, f], "\n");
    assert [a, b] + [c, d] + [e, f] == [a, b, c, d, e, f];
  }

  lemma TwoJoined(a: string, b: string)
    ensures Join([a, b], "\n") == a + "\n" + b
  {
    assert [a, b][1..] == [b];
  }

  lemma InertJoined(a: string, b: string)
    requires Inert(a) && Inert(b)
    ensures Inert(a + b)
  {
    var x := a + b;
    forall k | 0 <= k < |x| && x[k] == '<' ensures k + 2 < |x| && x[k + 2] != 'd' && x[k + 1] != 'd' {
      if k < |a| {
        assert x[k] == a[k];
      } else {
        assert x[k] == b[k - |a|];
        assert x[k + 2] == b[k - |a| + 2] && x[k + 1] == b[k - |a| + 1];
      }
    }
  }

  lemma TagsInert()
    ensures Inert("\n<pre><code>") && Inert("\n") && Inert("\n</code></pre>")
  {
    var a, b := "\n<pre><code>", "\n</code></pre>";
    assert forall k :: 0 <= k < |a| && a[k] == '<' ==> k == 1 || k == 6;
    assert forall k :: 0 <= k < |b| && b[k] == '<' ==> k == 1 || k == 8;
  }

  lemma EmbeddedInert(file: string)
    ensures Inert(Embedded(file))
  {
    FileContentInert(file);
    TagsInert();
    hide FileContent;
    var content := FileContent(file);
    assert Inert(content);
    hide Inert;
    InertJoined("\n", "\n<pre><code>");
    InertJoined("\n" + "\n<pre><code>", "\n");
    InertJoined("\n" + "\n<pre><code>" + "\n", content);
    InertJoined("\n</code></pre>", "\n");
    InertJoined("\n" + "\n<pre><code>" + "\n" + content, "\n</code></pre>" + "\n");
    EmbeddedParts(file);
  }

  lemma EmbeddedParts(file: string)
    ensures Embedded(file)
         == "\n" + "\n<pre><code>" + "\n" + FileContent(file) + ("\n</code></pre>" + "\n")
  {
    hide FileContent;
    BrokenTags();
    var open, close, content := "<pre><code>", "</code></pre>", FileContent(file);
    assert "\n" + "" + "\n" + open + "\n" + content + "\n" + close + "\n" ==
           "\n" + ("\n" + open) + "\n" + content + (("\n" + close) + "\n");
  }

  lemma BrokenTags()
    ensures "\n<pre><code>" == "\n" + "<pre><code>" && "\n</code></pre>" == "\n" + "</code></pre>"
  {
  }

  /** Whatever the comment and the context hold: the sweep finds the block of every issue with a file,
      leaves none, and two issues that differ in the attached file only become the same text. */
  lemma StatementLeavesNoTrace(kind: Kind, comment: string, c: Context, file: string, other: string)
    requires HasFile(file) && HasFile(other)
    ensures HasStatementBlock(IssueBody(kind, comment, c, file))
    ensures !HasStatementBlock(RedactStatementBlocks(IssueBody(kind, comment, c, file)))
    ensures RedactStatementBlocks(IssueBody(kind, comment, c, file)) == RedactStatementBlocks(IssueBody(kind, comment, c, other))
  {
    hide IssueBody, RedactStatementBlocks, HasFile, FrontText, Embedded, Inert;
    BodyShape(kind, comment, c, file);
    BodyShape(kind, comment, c, other);
    EmbeddedInert(file);
    EmbeddedInert(other);
    var a := FrontText(kind, comment, c);
    Vanishes(a, Embedded(file), Embedded(other));
    QuickTestHarmless(Wrapped(a, Embedded(file)));
    QuickTestHarmless(Wrapped(a, Embedded(other)));
    RedactionComplete(Wrapped(a, Embedded(file)));
    EmbeddedIsBlock(a, Embedded(file));
  }

  lemma EmbeddedIsBlock(a: string, x: string)
    requires Inert(x)
    ensures HasStatementBlock(Wrapped(a, x))
  {
    hide Inert, Next, OPENING, CLOSING;
    var s := Wrapped(a, x);
    assert s[|a|..|a| + |OPENING|] == OPENING;
    NextClosing(a, x, |a| + |OPENING|);
    ClosingTags();
    assert BlockAt(s, |a|);
  }

  // ---- What is left of the report

  /** A text without line breaks occurs in one line or in none. */
  lemma BreakSeparates(a: string, b: string, p: string)
    requires p != "" && '\n' !in p
    ensures Contains(a + "\n" + b, p) <==> Contains(a, p) || Contains(b, p)
  {
    hide StartsAt;
    var s, n := a + "\n" + b, |a| + 1;
    assert s[n..] == b && s[|a|] == '\n';
    forall i: nat | StartsAt(s, i, p) ensures Contains(a, p) || Contains(b, p) {
      if i >= n {
        Fits(s, i, p);
        Shift(s, n, i - n, p);
        assert StartsAt(b, i - n, p);
      } else {
        Fits(s, i, p);
        if i + |p| > |a| {
          At(s, i, p, |a| - i);
          assert false;
        }
        InFrontOf(a, "\n" + b, i, p);
        assert s == a + ("\n" + b);
        assert StartsAt(a, i, p);
      }
    }
    if i :| 0 <= i <= |a| && StartsAt(a, i, p) {
      Fits(a, i, p);
      InFrontOf(a, "\n" + b, i, p);
      assert s == a + ("\n" + b);
    }
    if i :| 0 <= i <= |b| && StartsAt(b, i, p) {
      Shift(s, n, i, p);
      assert StartsAt(s, n + i, p);
    }
  }

  lemma InFrontOf(a: string, rest: string, j: nat, p: string)
    requires j + |p| <= |a|
    ensures StartsAt(a + rest, j, p) == StartsAt(a, j, p)
  {
    assert (a + rest)[j..j + |p|] == a[j..j + |p|];
  }

  lemma JoinMore(lines: seq<string>)
    requires lines != []
    ensures |lines| == 1 ==> Join(lines, "\n") == lines[0]
    ensures |lines| > 1 ==> Join(lines, "\n") == lines[0] + "\n" + Join(lines[1..], "\n")
  {
  }

  predicate SomeContains(lines: seq<string>, p: string)
  {
    exists k :: 0 <= k < |lines| && Contains(lines[k], p)
  }

  lemma {:induction false} JoinContains(lines: seq<string>, p: string)
    requires lines != [] && p != "" && '\n' !in p
    ensures Contains(Join(lines, "\n"), p) <==> SomeContains(lines, p)
  {
    hide Contains, Join, SomeContains;
    JoinMore(lines);
    SomeFirst(lines, p);
    if |lines| > 1 {
      JoinContains(lines[1..], p);
      BreakSeparates(lines[0], Join(lines[1..], "\n"), p);
    }
  }

  lemma SomeFirst(lines: seq<string>, p: string)
    requires lines != []
    ensures SomeContains(lines, p) <==> Contains(lines[0], p) || (|lines| > 1 && SomeContains(lines[1..], p))
  {
    hide Contains;
    if |lines| > 1 && SomeContains(lines[1..], p) {
      var k :| 0 <= k < |lines[1..]| && Contains(lines[1..][k], p);
      assert Contains(lines[k + 1], p);
    }
    if k :| 1 <= k < |lines| && Contains(lines[k], p) {
      assert Contains(lines[1..][k - 1], p);
    }
  }

  lemma SomeAppend(a: seq<string>, b: seq<string>, p: string)
    ensures SomeContains(a + b, p) <==> SomeContains(a, p) || SomeContains(b, p)
  {
    hide Contains;
    if k :| 0 <= k < |a| && Contains(a[k], p) {
      assert Contains((a + b)[k], p);
    }
    if k :| 0 <= k < |b| && Contains(b[k], p) {
      assert Contains((a + b)[|a| + k], p);
    }
  }

  lemma NoTagNoOpening(line: string)
    requires '<' !in line || |line| < 47
    ensures !Contains(line, OPENING)
  {
    hide OPENING;
    OpeningTags();
    forall i | 0 <= i <= |line| ensures !StartsAt(line, i, OPENING) {
      NotAt(line, i, OPENING, 0);
    }
  }

  /** Only a context value can smuggle an opening into the front: the comment is escaped. */
  lemma OpeningOnlyInContext(kind: Kind, comment: string, c: Context)
    ensures Contains(FrontText(kind, comment, c), OPENING) <==> SomeContains(ContextLines(c), OPENING)
  {
    hide Contains, ContextLines, SafeComment, OPENING, CAPTION, Join;
    var first := ["- **Оценка:** " + KindWord(kind), "", "**Комментарий:**", "<pre><code>", SafeComment(comment), "</code></pre>"];
    var mark := ["", "**Контекст:**"];
    var end := ["", CAPTION];
    var lines := FrontLines(kind, comment, c) + end;
    FixedLines(kind);
    CommentInert(comment);
    forall k | 0 <= k < |first| ensures !Contains(first[k], OPENING) {
      NoTagNoOpening(first[k]);
    }
    forall k | 0 <= k < 2 ensures !Contains(mark[k], OPENING) && !Contains(end[k], OPENING) {
      NoTagNoOpening(mark[k]);
      NoTagNoOpening(end[k]);
    }
    NoTagNoOpening("");
    SomeAppend(FrontLines(kind, comment, c), end, OPENING);
    SomeAppend(mark, ContextLines(c), OPENING);
    SomeAppend(first, if ContextLines(c) == [] then [] else mark + ContextLines(c), OPENING);
    OpeningHasNoBreak();
    JoinContains(lines, OPENING);
    BreakSeparates(Join(lines, "\n"), "", OPENING);
    assert FrontText(kind, comment, c) == Join(lines, "\n") + "\n" + "";
  }

  lemma OpeningHasNoBreak()
    ensures OPENING != "" && '\n' !in OPENING
  {
    assert '\n' !in "<details>" && '\n' !in "<summary>" && '\n' !in "Показать " && '\n' !in "содержимое" && '\n' !in "</summary>";
  }

  lemma FixedLines(kind: Kind)
    ensures |"- **Оценка:** " + KindWord(kind)| < 47 && |"**Комментарий:**"| < 47 && |"</code></pre>"| < 47
    ensures |"<pre><code>"| < 47 && |"**Контекст:**"| < 47 && '<' !in CAPTION
  {
    assert '<' !in "**Файл выписки** " && '<' !in "(приложен " && '<' !in "по согласию " && '<' !in "сотрудника):";
  }

  lemma CommentInert(comment: string)
    ensures '<' !in SafeComment(comment)
  {
    hide EscapeHtml, EscapeEach, SanitizeComment, Trim;
    EscapeIsPerCharacter(SanitizeComment(comment));
    EscapeInert(SanitizeComment(comment));
    InTrim(EscapeHtml(SanitizeComment(comment)), '<');
  }

  /** The report around the statement stays exactly as it was written, with the marker in place of the
      block, unless a context value spells out the opening of a block. */
  lemma ReportKeptIntact(kind: Kind, comment: string, c: Context, file: string)
    requires HasFile(file)
    ensures RedactStatementBlocks(IssueBody(kind, comment, c, file)) == FrontText(kind, comment, c) + REDACTION_MARKER
            <==> !SomeContains(ContextLines(c), OPENING)
  {
    hide IssueBody, RedactStatementBlocks, HasFile, FrontText, Embedded, Inert, ContextLines, SomeContains, Contains;
    BodyShape(kind, comment, c, file);
    EmbeddedInert(file);
    RestKept(FrontText(kind, comment, c), Embedded(file));
    QuickTestHarmless(IssueBody(kind, comment, c, file));
    OpeningOnlyInContext(kind, comment, c);
  }

  // ---- A report that is dragged along

  /** Nothing but the first opening of a front is left of what follows it, unless the front closes it. */
  lemma {:induction false} DraggedAway(x: string, y: string, e: string)
    requires Inert(x) && Inert(e) && '<' !in y
    ensures ReplaceBlocks(Wrapped(x + OPENING + y, e)) == x + REDACTION_MARKER
    decreases |x|
  {
    hide StartsAt, Next, OPENING, CLOSING, REDACTION_MARKER, ReplaceBlocks, Wrapped, BlockAt, Inert;
    var a := x + OPENING + y;
    SweepStep(a, e);
    if x == "" {
      assert a == OPENING + y;
      OpensUnclosed(y);
      assert "" + REDACTION_MARKER == REDACTION_MARKER;
    } else {
      NotYetOpen(x, y);
      InertRest(x);
      DraggedAway(x[1..], y, e);
      assert a[1..] == x[1..] + OPENING + y && a[0] == x[0];
      assert x + REDACTION_MARKER == [x[0]] + (x[1..] + REDACTION_MARKER);
      OpeningTags();
    }
  }

  lemma InertRest(x: string)
    requires Inert(x) && x != ""
    ensures Inert(x[1..])
  {
    forall k | 0 <= k < |x[1..]| && x[1..][k] == '<' ensures k + 2 < |x[1..]| && x[1..][k + 2] != 'd' && x[1..][k + 1] != 'd' {
      assert x[k + 1] == '<';
    }
  }

  lemma OpensUnclosed(y: string)
    requires '<' !in y
    ensures StartsAt(OPENING + y, 0, OPENING) && !BlockAt(OPENING + y, 0)
  {
    hide StartsAt, OPENING, CLOSING;
    var s := OPENING + y;
    assert s[..|OPENING|] == OPENING;
    assert StartsAt(s, 0, OPENING) by { StartsInFront(OPENING, y); }
    ClosingTags();
    forall j | |OPENING| <= j < |s| ensures !StartsAt(s, j, CLOSING) {
      assert s[j] == y[j - |OPENING|];
      NotAt(s, j, CLOSING, 0);
    }
    NextUnique(s, CLOSING, |OPENING|, |s|);
  }

  lemma StartsInFront(p: string, y: string)
    ensures StartsAt(p + y, 0, p)
  {
    assert (p + y)[0..|p|] == p;
  }

  lemma NotYetOpen(x: string, y: string)
    requires Inert(x) && x != ""
    ensures !StartsAt(x + OPENING + y, 0, OPENING) && !BlockAt(x + OPENING + y, 0)
  {
    hide StartsAt, OPENING, CLOSING, Next;
    var s := x + OPENING + y;
    OpeningTags();
    if x[0] == '<' {
      assert s[1] == x[1];
      NotAt(s, 0, OPENING, 1);
    } else {
      NotAt(s, 0, OPENING, 0);
    }
  }

  /** Text that a context line leaves as it is. */
  predicate Tame(s: string)
  {
    forall k :: 0 <= k < |s| ==> !Hostile(s[k]) && s[k] !in "\r\n\t" && s[k] != '`'
  }

  lemma {:induction false} TameKept(s: string)
    requires Tame(s)
    ensures StripHostileChars(s) == s && FlattenBreaks(s, false) == s && ReplaceChar(s, '`', "") == s
  {
    hide Hostile;
    if s != "" {
      assert Tame(s[1..]) && !Hostile(s[0]) && s[0] !in "\r\n\t" && s[0] != '`';
      TameKept(s[1..]);
      assert [s[0]] + s[1..] == s;
    }
  }

  lemma TameJoined(a: string, b: string)
    requires Tame(a) && Tame(b)
    ensures Tame(a + b)
  {
    hide Hostile;
  }

  lemma OpeningTame()
    ensures Tame(OPENING)
  {
    var a, b, c, d, e := "<details>", "<summary>", "Показать ", "содержимое", "</summary>";
    assert Tame(a) && Tame(b) && Tame(c) && Tame(d) && Tame(e);
    hide Tame;
    TameJoined(c, d);
    TameJoined(b, c + d);
    TameJoined(b + (c + d), e);
    TameJoined(a, b + (c + d) + e);
  }

  /** A file named like an opening keeps its name. */
  lemma OpeningKept()
    ensures Flat(OPENING) == OPENING
  {
    hide Trim, StripHostileChars, FlattenBreaks, ReplaceChar, OPENING, Tame;
    OpeningTame();
    TameKept(OPENING);
    OpeningTags();
    OpeningEnds();
    TrimOfTrimmed(OPENING);
  }

  lemma OpeningEnds()
    ensures OPENING[46] == '>' && Trimmed(OPENING)
  {
    OpeningTags();
    assert "</summary>"[9] == '>';
    assert OPENING[46] == "</summary>"[46 - 37];
  }

  function TopLines(kind: Kind, comment: string): seq<string>
  {
    ["- **Оценка:** " + KindWord(kind), "", "**Комментарий:**", "<pre><code>", SafeComment(comment), "</code></pre>"]
    + ["", "**Контекст:**"]
  }

  /** The report up to the name of the file, and from there to the block. */
  function BeforeName(kind: Kind, comment: string): string
  {
    Join(TopLines(kind, comment), "\n") + "\n" + ("- **" + "Файл" + ":** `")
  }

  function AfterName(version: string): string
  {
    "`" + "\n" + Join(ContextLine("Версия приложения", version) + ["", CAPTION], "\n") + "\n"
  }

  /** A file named like the opening of a block: with the statement goes everything from that name on, the
      line of the version included. */
  lemma NameDragsReport(kind: Kind, comment: string, version: string, file: string)
    requires HasFile(file) && '<' !in Flat(version)
    ensures var c := Context("", OPENING, version, None);
            var body := IssueBody(kind, comment, c, file);
            && SomeContains(ContextLines(c), OPENING)
            && body == BeforeName(kind, comment) + OPENING + AfterName(version) + OPENING + Embedded(file) + CLOSING
            && RedactStatementBlocks(body) == BeforeName(kind, comment) + REDACTION_MARKER
  {
    hide IssueBody, RedactStatementBlocks, HasFile, FrontText, Embedded, Inert, ContextLines, SomeContains, BeforeName, AfterName,
         OPENING, CLOSING, REDACTION_MARKER;
    var c := Context("", OPENING, version, None);
    BodyShape(kind, comment, c, file);
    EmbeddedInert(file);
    NamedFront(kind, comment, version);
    BeforeInert(kind, comment);
    AfterPlain(version);
    DraggedAway(BeforeName(kind, comment), AfterName(version), Embedded(file));
    QuickTestHarmless(IssueBody(kind, comment, c, file));
    NameContains(version);
  }

  lemma NameContains(version: string)
    ensures SomeContains(ContextLines(Context("", OPENING, version, None)), OPENING)
  {
    hide OPENING, StartsAt;
    var lines := ContextLines(Context("", OPENING, version, None));
    NamedLines(version);
    var line := "- **" + "Файл" + ":** `" + OPENING + "`";
    var n := |"- **" + "Файл" + ":** `"|;
    assert line[n..n + |OPENING|] == OPENING;
    assert StartsAt(line, n, OPENING) by { StartsThere("- **" + "Файл" + ":** `", OPENING, "`"); }
    assert Contains(line, OPENING) && lines[0] == line;
  }

  lemma StartsThere(a: string, p: string, b: string)
    ensures StartsAt(a + p + b, |a|, p)
  {
    assert (a + p + b)[|a|..|a| + |p|] == p;
  }

  lemma FlatEmpty()
    ensures Flat("") == ""
  {
  }

  lemma NamedLines(version: string)
    ensures ContextLines(Context("", OPENING, version, None)) ==
            ["- **" + "Файл" + ":** `" + OPENING + "`"] + ContextLine("Версия приложения", version)
  {
    hide Flat, OPENING;
    FlatEmpty();
    OpeningKept();
    OpeningTags();
  }

  lemma NamedFront(kind: Kind, comment: string, version: string)
    ensures FrontText(kind, comment, Context("", OPENING, version, None)) == BeforeName(kind, comment) + OPENING + AfterName(version)
  {
    hide Join, ContextLine, ContextLines, OPENING, CAPTION, SafeComment, KindWord;
    NamedLines(version);
    var name := "- **" + "Файл" + ":** `" + OPENING + "`";
    var top, end := TopLines(kind, comment), ContextLine("Версия приложения", version) + ["", CAPTION];
    assert FrontLines(kind, comment, Context("", OPENING, version, None)) + ["", CAPTION] == top + ([name] + end);
    JoinAppend(top, [name] + end, "\n");
    JoinAppend([name], end, "\n");
    JoinedOne(name);
    assert name == "- **" + "Файл" + ":** `" + OPENING + "`";
  }

  lemma JoinedOne(line: string)
    ensures Join([line], "\n") == line
  {
  }

  lemma {:induction false} JoinInert(lines: seq<string>)
    requires forall k :: 0 <= k < |lines| ==> Inert(lines[k])
    ensures Inert(Join(lines, "\n"))
  {
    hide Inert;
    TagsInert();
    if lines == [] {
      PlainInert("");
    } else {
      JoinMore(lines);
      if |lines| > 1 {
        JoinInert(lines[1..]);
        InertJoined(lines[0], "\n");
        InertJoined(lines[0] + "\n", Join(lines[1..], "\n"));
      }
    }
  }

  lemma PlainInert(s: string)
    requires '<' !in s
    ensures Inert(s)
  {
  }

  lemma KindPlain(kind: Kind)
    ensures '<' !in KindWord(kind)
  {
    assert '<' !in "положительный " && '<' !in "отрицательный ";
    assert '<' !in Encoded('👍') && '<' !in Encoded('👎');
  }

  lemma PreTags()
    ensures Inert("<pre><code>") && Inert("</code></pre>")
  {
    var a, b := "<pre><code>", "</code></pre>";
    assert forall k :: 0 <= k < |a| && a[k] == '<' ==> k == 0 || k == 5;
    assert forall k :: 0 <= k < |b| && b[k] == '<' ==> k == 0 || k == 7;
  }

  lemma TopPlain(kind: Kind)
    ensures '<' !in "- **Оценка:** " + KindWord(kind) && '<' !in "**Комментарий:**" && '<' !in "**Контекст:**"
    ensures '<' !in "- **" + "Файл" + ":** `" && Inert("<pre><code>") && Inert("</code></pre>")
  {
    hide KindWord, Inert;
    KindPlain(kind);
    PreTags();
    assert '<' !in "- **Оценка:** " && '<' !in "- **" && '<' !in "Файл" && '<' !in ":** `";
  }

  lemma TopInert(kind: Kind, comment: string, k: nat)
    requires k < 8
    ensures Inert(TopLines(kind, comment)[k])
  {
    hide SafeComment, KindWord, Inert;
    TopPlain(kind);
    CommentInert(comment);
    var line := TopLines(kind, comment)[k];
    if k != 3 && k != 5 {
      PlainInert(line);
    }
  }

  lemma BeforeInert(kind: Kind, comment: string)
    ensures Inert(BeforeName(kind, comment))
  {
    hide TopLines, Join, Inert;
    var top := TopLines(kind, comment);
    assert |top| == 8 by { EightLines(kind, comment); }
    forall k | 0 <= k < |top| ensures Inert(top[k]) {
      TopInert(kind, comment, k);
    }
    TopPlain(kind);
    PlainInert("- **" + "Файл" + ":** `");
    TagsInert();
    JoinInert(top);
    InertJoined(Join(top, "\n"), "\n");
    InertJoined(Join(top, "\n") + "\n", "- **" + "Файл" + ":** `");
  }

  lemma EightLines(kind: Kind, comment: string)
    ensures |TopLines(kind, comment)| == 8
  {
  }

  lemma AfterPlain(version: string)
    requires '<' !in Flat(version)
    ensures '<' !in AfterName(version)
  {
    hide Flat, Join, CAPTION;
    var lines := ContextLine("Версия приложения", version);
    FixedLines(Up);
    assert '<' !in "- **" && '<' !in "Версия " && '<' !in ":** `";
    VersionTitle();
    assert lines != [] ==> '<' !in lines[0];
    JoinPlain(lines + ["", CAPTION]);
  }

  lemma VersionTitle()
    ensures '<' !in "Версия приложения"
  {
    assert "Версия приложения" == "Версия " + "приложения";
    assert '<' !in "Версия " && '<' !in "приложения";
  }

  lemma {:induction false} JoinPlain(lines: seq<string>)
    requires forall k :: 0 <= k < |lines| ==> '<' !in lines[k]
    ensures '<' !in Join(lines, "\n")
  {
    if lines != [] {
      JoinMore(lines);
      if |lines| > 1 {
        JoinPlain(lines[1..]);
      }
    }
  }

  // ---- The sweep

  /** What the decision reads of an issue; `closedAt` is the parsed closing time, if there is one that
      parses, and an absent body is the empty string. */
  datatype Issue = Issue(number: nat, state: string, closedAt: Option<int>, body: string)

  datatype Redaction = Redaction(number: nat, body: string)

  predicate IsPurgeable(issue: Issue, now: int, retentionDays: int)
  {
    && issue.state == "closed"
    && issue.closedAt.Some?
    && issue.closedAt.value <= now - retentionDays * DAY_MS
    && HasStatementBlock(issue.body)
  }

  /** One redaction per purgeable issue, in order. */
  ghost function Plan(issues: seq<Issue>, now: int, retentionDays: int): seq<Redaction>
  {
    if issues == [] then []
    else
      var last := issues[|issues| - 1];
      Plan(issues[..|issues| - 1], now, retentionDays)
      + if IsPurgeable(last, now, retentionDays) then [Redaction(last.number, RedactStatementBlocks(last.body))] else []
  }

  method PlanRetention(issues: seq<Issue>, now: int, retentionDays: int) returns (out: seq<Redaction>)
    ensures out == Plan(issues, now, retentionDays)
  {
    hide HasStatementBlock, RedactStatementBlocks;
    out := [];
    for i := 0 to |issues|
      invariant out == Plan(issues[..i], now, retentionDays)
    {
      var issue := issues[i];
      assert issues[..i + 1][..i] == issues[..i];
      if !IsPurgeable(issue, now, retentionDays) {
        continue;
      }
      RedactionComplete(issue.body);
      var body := RedactStatementBlocks(issue.body);
      if body != issue.body {
        out := out + [Redaction(issue.number, body)];
      }
    }
    assert issues[..|issues|] == issues;
  }

  /** The issue once the planned body, if there is one for its number, has been written back. */
  ghost function Swept(issue: Issue, plan: seq<Redaction>): Issue
  {
    if exists r :: r in plan && r.number == issue.number then
      var r :| r in plan && r.number == issue.number;
      issue.(body := r.body)
    else issue
  }

  ghost predicate DistinctNumbers(issues: seq<Issue>)
  {
    forall i, j :: 0 <= i < j < |issues| ==> issues[i].number != issues[j].number
  }

  lemma {:induction false} PlannedExactly(issues: seq<Issue>, now: int, days: int, r: Redaction)
    ensures r in Plan(issues, now, days) <==>
            exists i :: 0 <= i < |issues| && IsPurgeable(issues[i], now, days)
                        && r == Redaction(issues[i].number, RedactStatementBlocks(issues[i].body))
  {
    hide IsPurgeable, RedactStatementBlocks;
    if issues != [] {
      var front := issues[..|issues| - 1];
      PlannedExactly(front, now, days, r);
      if i :| 0 <= i < |issues| && IsPurgeable(issues[i], now, days)
              && r == Redaction(issues[i].number, RedactStatementBlocks(issues[i].body)) {
        assert i < |front| ==> front[i] == issues[i];
      }
    }
  }

  /** Closed, and for so many days. */
  predicate ClosedFor(issue: Issue, now: int, days: int)
  {
    issue.state == "closed" && issue.closedAt.Some? && now - issue.closedAt.value >= days * 86_400_000
  }

  /** Writing the plan back redacts exactly the issues that have been closed for the window, takes every
      statement out of them, and leaves nothing for the next sweep, at the same time or with a longer
      window. */
  lemma SweptExactly(issues: seq<Issue>, now: int, days: int, i: nat, later: int, window: int)
    requires DistinctNumbers(issues) && i < |issues|
    ensures var swept := Swept(issues[i], Plan(issues, now, days));
            && swept == issues[i].(body := if ClosedFor(issues[i], now, days) then RedactStatementBlocks(issues[i].body)
                                           else issues[i].body)
            && (ClosedFor(issues[i], now, days) ==> !HasStatementBlock(swept.body))
            && (later - window * DAY_MS <= now - days * DAY_MS ==> !IsPurgeable(swept, later, window))
  {
    hide HasStatementBlock, RedactStatementBlocks;
    var plan, issue := Plan(issues, now, days), issues[i];
    forall r | r in plan && r.number == issue.number
      ensures IsPurgeable(issue, now, days) && r.body == RedactStatementBlocks(issue.body)
    {
      PlannedExactly(issues, now, days, r);
    }
    PlannedExactly(issues, now, days, Redaction(issue.number, RedactStatementBlocks(issue.body)));
    RedactionComplete(issue.body);
  }
}
