/** Polling for the outcome of uploads (app/composables/useImportBatches.ts), with the rule that ends it
    (app/utils/importBatchView.ts). The clock never runs backwards. */
module ImportBatches {
  import opened Outcome

  const POLL_INTERVAL_MS := 5000
  const POLL_TIMEOUT_MS := 180_000

  // ---- When to stop

  datatype BatchState = Queued | Done | Error

  /** One upload's outcome; a counter that is not a finite number is absent. */
  datatype BatchResult = BatchResult(batchId: string, state: BatchState, operations: Option<int>, created: Option<int>,
                                     notified: Option<int>, unmatched: Option<int>)

  /** The last result listed for an upload. */
  function ById(results: seq<BatchResult>, id: string): Option<BatchResult>
  {
    if results == [] then None
    else
      var last := results[|results| - 1];
      if last.batchId == id then Some(last) else ById(results[..|results| - 1], id)
  }

  predicate Final(results: seq<BatchResult>, id: string)
  {
    ById(results, id).Some? && ById(results, id).value.state != Queued
  }

  /** The upload is listed, and its last entry says it is done or failed. */
  ghost predicate Settled(results: seq<BatchResult>, id: string)
  {
    exists k :: 0 <= k < |results| && LastOf(results, id, k) && results[k].state in {Done, Error}
  }

  ghost predicate LastOf(results: seq<BatchResult>, id: string, k: nat)
    requires k < |results|
  {
    results[k].batchId == id && forall j :: k < j < |results| ==> results[j].batchId != id
  }

  lemma {:induction false} FinalMeans(results: seq<BatchResult>, id: string)
    ensures Final(results, id) <==> Settled(results, id)
  {
    if results != [] {
      var n := |results| - 1;
      var front := results[..n];
      FinalMeans(front, id);
      if results[n].batchId == id {
        assert LastOf(results, id, n);
      } else {
        if k :| 0 <= k < n && LastOf(front, id, k) && front[k].state in {Done, Error} {
          assert LastOf(results, id, k);
        }
        if k :| 0 <= k <= n && LastOf(results, id, k) && results[k].state in {Done, Error} {
          assert LastOf(front, id, k);
        }
      }
    }
  }

  /** An upload with nothing but queued entries, or none, is not settled. */
  lemma OnlyQueued(results: seq<BatchResult>, id: string)
    requires forall k :: 0 <= k < |results| && results[k].batchId == id ==> results[k].state == Queued
    ensures !Settled(results, id)
  {
  }

  predicate HasPending(ids: seq<string>, results: seq<BatchResult>)
  {
    exists k :: 0 <= k < |ids| && !Final(results, ids[k])
  }

  predicate ShouldKeepPolling(ids: seq<string>, results: seq<BatchResult>, elapsedMs: int)
  {
    HasPending(ids, results) && elapsedMs < POLL_TIMEOUT_MS
  }

  datatype Totals = Totals(operations: int, created: int, notified: int, unmatched: int, failed: nat)

  function CountOf(n: Option<int>): int
  {
    if n.Some? then n.value else 0
  }

  function Plus(a: Totals, b: Totals): Totals
  {
    Totals(a.operations + b.operations, a.created + b.created, a.notified + b.notified, a.unmatched + b.unmatched, a.failed + b.failed)
  }

  const ZERO := Totals(0, 0, 0, 0, 0)

  function Share(r: BatchResult): Totals
  {
    if r.state == Queued then ZERO
    else Totals(CountOf(r.operations), CountOf(r.created), CountOf(r.notified), CountOf(r.unmatched), if r.state == Error then 1 else 0)
  }

  function TotalsOf(results: seq<BatchResult>): Totals
  {
    if results == [] then ZERO else Plus(TotalsOf(results[..|results| - 1]), Share(results[|results| - 1]))
  }

  /** The totals depend on nothing but which finished results there are: order does not matter and an
      unfinished one changes nothing. */
  lemma {:induction false} TotalsOfRest(results: seq<BatchResult>, k: nat)
    requires k < |results|
    ensures TotalsOf(results) == Plus(TotalsOf(results[..k] + results[k + 1..]), Share(results[k]))
  {
    hide TotalsOf, Plus, Share;
    var n := |results| - 1;
    var rest := results[..k] + results[k + 1..];
    TotalsNext(results);
    if k == n {
      assert rest == results[..n];
    } else {
      TotalsOfRest(results[..n], k);
      TotalsNext(rest);
      assert rest[..|rest| - 1] == results[..n][..k] + results[..n][k + 1..] && rest[|rest| - 1] == results[n];
      PlusSwaps(TotalsOf(rest[..|rest| - 1]), Share(results[k]), Share(results[n]));
    }
  }

  /** What the finished results carry of one counter; one that is not a finite number counts as nothing. */
  function SumOfFinished(results: seq<BatchResult>, counter: BatchResult -> Option<int>): int
  {
    if results == [] then 0
    else
      var last := results[|results| - 1];
      SumOfFinished(results[..|results| - 1], counter)
      + if last.state in {Done, Error} && counter(last).Some? then counter(last).value else 0
  }

  function FailedIn(results: seq<BatchResult>): nat
  {
    if results == [] then 0 else FailedIn(results[..|results| - 1]) + if results[|results| - 1].state == Error then 1 else 0
  }

  /** Each total is the sum of its own counter. */
  lemma {:induction false} TotalsExactly(results: seq<BatchResult>)
    ensures var t := TotalsOf(results);
            && t.operations == SumOfFinished(results, (r: BatchResult) => r.operations)
            && t.created == SumOfFinished(results, (r: BatchResult) => r.created)
            && t.notified == SumOfFinished(results, (r: BatchResult) => r.notified)
            && t.unmatched == SumOfFinished(results, (r: BatchResult) => r.unmatched)
            && t.failed == FailedIn(results)
  {
    if results != [] {
      TotalsExactly(results[..|results| - 1]);
    }
  }

  lemma TotalsNext(results: seq<BatchResult>)
    requires results != []
    ensures TotalsOf(results) == Plus(TotalsOf(results[..|results| - 1]), Share(results[|results| - 1]))
  {
    hide Plus, Share;
  }

  lemma PlusSwaps(a: Totals, b: Totals, c: Totals)
    ensures Plus(Plus(a, b), c) == Plus(Plus(a, c), b)
  {
  }

  // ---- The controller's state

  /** An armed timer: its handle, the run it belongs to, when it is due. */
  datatype Timer = Timer(id: nat, run: nat, due: int)

  /** A request not answered yet: the run it belongs to, and whether it is the run's first. */
  datatype Wait = Wait(run: nat, first: bool)

  /** `handle` is the last timer set; `stored` is the tab's session storage; `fires` counts the timer
      firings of the current run and `timers` all timers ever set. */
  datatype State = State(ids: seq<string>, results: seq<BatchResult>, polling: bool, timedOut: bool, handle: Option<nat>,
                         startedAt: int, runSeq: nat, stored: seq<string>, now: int, armed: set<Timer>, waits: multiset<Wait>,
                         timers: nat, fires: nat)

  datatype Event =
    | Track(newIds: seq<string>)
    | Restore
    | Retry
    | Reset
    | Fire(timer: Timer)
    | Responded(wait: Wait, batches: seq<BatchResult>)
    | NoAnswer(wait: Wait)
    | Clock(to: int)
    | Dispose

  /** Keeps the first of equal entries. */
  function Unique(seen: seq<string>, more: seq<string>): seq<string>
    decreases more
  {
    if more == [] then seen
    else Unique(if more[0] in seen then seen else seen + [more[0]], more[1..])
  }

  lemma {:induction false} UniqueExactly(seen: seq<string>, more: seq<string>)
    ensures forall id :: id in Unique(seen, more) <==> id in seen || id in more
    ensures Distinct(seen) ==> Distinct(Unique(seen, more))
    decreases more
  {
    if more != [] {
      UniqueExactly(if more[0] in seen then seen else seen + [more[0]], more[1..]);
      assert more == [more[0]] + more[1..];
    }
  }

  predicate Distinct(ids: seq<string>)
  {
    forall i, j :: 0 <= i < j < |ids| ==> ids[i] != ids[j]
  }

  function Stopped(s: State): State
  {
    s.(armed := if s.handle.Some? then set t | t in s.armed && t.id != s.handle.value else s.armed, handle := None, polling := false)
  }

  function Armed(s: State, run: nat): State
  {
    s.(armed := s.armed + {Timer(s.timers, run, s.now + POLL_INTERVAL_MS)}, handle := Some(s.timers), timers := s.timers + 1)
  }

  function Finished(s: State): State
  {
    var timedOut := ShouldKeepPolling(s.ids, s.results, 0);
    var t := Stopped(s.(timedOut := timedOut));
    if timedOut then t else t.(stored := [])
  }

  function Tracked(s: State, newIds: seq<string>): State
  {
    if newIds == [] then s
    else
      var ids := Unique([], s.ids + newIds);
      var t := Stopped(s.(runSeq := s.runSeq + 1, ids := ids, stored := ids));
      t.(timedOut := false, startedAt := s.now, polling := true, waits := s.waits + multiset{Wait(s.runSeq + 1, true)}, fires := 0)
  }

  /** What follows an answer, or the lack of one. */
  function Continued(s: State, wait: Wait): State
  {
    if wait.run != s.runSeq then s
    else if ShouldKeepPolling(s.ids, s.results, if wait.first then 0 else s.now - s.startedAt) then Armed(s, wait.run)
    else Finished(s)
  }

  function Step(s: State, e: Event): State
  {
    match e
    case Track(newIds) => Tracked(s, newIds)
    case Restore => Tracked(s, s.stored)
    case Retry => Tracked(s, s.ids)
    case Reset => Stopped(s.(runSeq := s.runSeq + 1)).(ids := [], results := [], timedOut := false, stored := [])
    case Fire(timer) => s.(armed := s.armed - {timer}, waits := s.waits + multiset{Wait(timer.run, false)}, fires := s.fires + 1)
    case Responded(wait, batches) =>
      var t := s.(waits := s.waits - multiset{wait});
      Continued(if wait.run == s.runSeq then t.(results := batches) else t, wait)
    case NoAnswer(wait) => Continued(s.(waits := s.waits - multiset{wait}), wait)
    case Clock(to) => s.(now := to)
    case Dispose => Stopped(s)
  }

  predicate Enabled(s: State, e: Event)
  {
    match e
    case Fire(timer) => timer in s.armed && s.now >= timer.due
    case Responded(wait, _) => wait in s.waits
    case NoAnswer(wait) => wait in s.waits
    case Clock(to) => to >= s.now
    case _ => true
  }

  /** A fresh page: nothing tracked, whatever an earlier page left in the storage. */
  function Initial(stored: seq<string>, now: int): State
  {
    State([], [], false, false, None, 0, 0, stored, now, {}, multiset{}, 0, 0)
  }

  // ---- One chain

  /** The current run's links: armed timers and requests on their way. */
  ghost function Links(s: State): nat
  {
    |s.armed| + s.waits[Wait(s.runSeq, true)] + s.waits[Wait(s.runSeq, false)]
  }

  /** Every armed timer is the one the handle names and belongs to the current run; no request belongs
      to a run to come; and there is at most one link. */
  ghost predicate OneChain(s: State)
  {
    && (forall t :: t in s.armed ==> s.handle == Some(t.id) && t.run == s.runSeq && t.id < s.timers)
    && (s.handle.Some? ==> s.handle.value < s.timers)
    && (forall w :: w in s.waits ==> w.run <= s.runSeq)
    && Links(s) <= 1
  }

  /** How far the clock must be after so many firings. */
  ghost predicate OnTime(s: State)
  {
    && s.fires <= 36
    && (forall t :: t in s.armed ==> s.fires <= 35 && t.due >= s.startedAt + POLL_INTERVAL_MS * (s.fires + 1))
    && (Wait(s.runSeq, true) in s.waits ==> s.fires == 0)
    && (Wait(s.runSeq, false) in s.waits ==> s.now >= s.startedAt + POLL_INTERVAL_MS * s.fires)
    && (Links(s) == 1 ==> s.now >= s.startedAt)
  }

  /** Storage matches what is tracked for as long as the outcome is still awaited. */
  ghost predicate Kept(s: State)
  {
    Links(s) == 1 || s.timedOut ==> s.stored == s.ids
  }

  ghost predicate Inv(s: State)
  {
    OneChain(s) && OnTime(s) && Kept(s) && (s.polling ==> Links(s) == 1)
  }

  lemma StoppedClears(s: State)
    requires forall t :: t in s.armed ==> s.handle == Some(t.id)
    ensures Stopped(s).armed == {}
  {
  }

  lemma TrackedKeeps(s: State, newIds: seq<string>)
    requires OneChain(s) && newIds != []
    ensures var t := Tracked(s, newIds);
            && Inv(t) && t.polling && Links(t) == 1 && t.armed == {} && t.startedAt == t.now
  {
    hide Unique;
    StoppedClears(s);
    var t := Tracked(s, newIds);
    assert t.waits[Wait(t.runSeq, true)] == 1 && t.waits[Wait(t.runSeq, false)] == 0;
    forall w | w in t.waits ensures w.run <= t.runSeq {
      assert w in s.waits || w == Wait(s.runSeq + 1, true);
    }
  }

  lemma LastLink(s: State, wait: Wait)
    requires OneChain(s) && wait in s.waits && wait.run == s.runSeq
    ensures s.armed == {} && s.waits[wait] == 1 && Links(s) == 1
    ensures var left := s.(waits := s.waits - multiset{wait}); Links(left) == 0
  {
    assert wait == Wait(s.runSeq, true) || wait == Wait(s.runSeq, false);
  }

  /** Between an answer and what follows it the current run has no link. */
  ghost predicate Unlinked(s: State)
  {
    OneChain(s) && Links(s) == 0 && s.armed == {} && s.fires <= 36 && s.now >= s.startedAt && s.stored == s.ids
  }

  lemma AnsweredUnlinks(s: State, wait: Wait, results: seq<BatchResult>)
    requires Inv(s) && wait in s.waits && wait.run == s.runSeq
    ensures Unlinked(s.(waits := s.waits - multiset{wait}, results := results)) && Links(s) == 1
  {
    LastLink(s, wait);
    var left := s.(waits := s.waits - multiset{wait}, results := results);
    forall w | w in left.waits ensures w.run <= s.runSeq {
      assert w in s.waits;
    }
    assert left.waits[Wait(s.runSeq, true)] == 0 && left.waits[Wait(s.runSeq, false)] == 0;
  }

  lemma ArmedKeeps(s: State)
    requires Unlinked(s) && s.fires <= 35 && s.now >= s.startedAt + POLL_INTERVAL_MS * s.fires
    ensures Inv(Armed(s, s.runSeq)) && Links(Armed(s, s.runSeq)) == 1
  {
    var t := Armed(s, s.runSeq);
    assert t.armed == {Timer(s.timers, s.runSeq, s.now + POLL_INTERVAL_MS)};
  }

  lemma FinishedKeeps(s: State)
    requires Unlinked(s)
    ensures Inv(Finished(s)) && Links(Finished(s)) == 0 && !Finished(s).polling
  {
    hide ShouldKeepPolling;
    StoppedClears(s.(timedOut := ShouldKeepPolling(s.ids, s.results, 0)));
  }

  lemma ContinuedKeeps(s: State, wait: Wait, results: seq<BatchResult>)
    requires Inv(s) && wait in s.waits && wait.run == s.runSeq
    ensures var t := Continued(s.(waits := s.waits - multiset{wait}, results := results), wait);
            && Inv(t) && (s.polling ==> (t.polling <==> Links(t) == 1)) && Links(s) == 1
  {
    hide ShouldKeepPolling, OneChain, OnTime, Kept, Links, Armed, Finished;
    AnsweredUnlinks(s, wait, results);
    var left := s.(waits := s.waits - multiset{wait}, results := results);
    if ShouldKeepPolling(s.ids, results, if wait.first then 0 else s.now - s.startedAt) {
      StillTime(s, wait, results);
      ArmedKeeps(left);
      ArmedPolls(left);
    } else {
      FinishedKeeps(left);
    }
  }

  lemma ArmedPolls(s: State)
    ensures Armed(s, s.runSeq).polling == s.polling
  {
  }

  lemma StillTime(s: State, wait: Wait, results: seq<BatchResult>)
    requires Inv(s) && wait in s.waits && wait.run == s.runSeq
    requires ShouldKeepPolling(s.ids, results, if wait.first then 0 else s.now - s.startedAt)
    ensures s.fires <= 35 && s.now >= s.startedAt + POLL_INTERVAL_MS * s.fires
  {
    hide HasPending;
    LastLink(s, wait);
    assert wait == Wait(s.runSeq, true) || wait == Wait(s.runSeq, false);
  }

  /** An answer to a request of an earlier run changes nothing but the requests in flight. */
  lemma StaleChangesNothing(s: State, wait: Wait, batches: seq<BatchResult>)
    requires wait.run != s.runSeq
    ensures Step(s, Responded(wait, batches)) == s.(waits := s.waits - multiset{wait})
    ensures Step(s, NoAnswer(wait)) == s.(waits := s.waits - multiset{wait})
  {
  }

  lemma StaleKeeps(s: State, wait: Wait)
    requires Inv(s) && wait in s.waits && wait.run != s.runSeq
    ensures var t := s.(waits := s.waits - multiset{wait}); Inv(t) && Links(t) == Links(s)
  {
    var t := s.(waits := s.waits - multiset{wait});
    assert t.waits[Wait(s.runSeq, true)] == s.waits[Wait(s.runSeq, true)];
    assert t.waits[Wait(s.runSeq, false)] == s.waits[Wait(s.runSeq, false)];
    forall w | w in t.waits ensures w in s.waits {
    }
  }

  lemma FireKeeps(s: State, timer: Timer)
    requires Inv(s) && timer in s.armed && s.now >= timer.due
    ensures var t := Step(s, Fire(timer)); Inv(t) && Links(t) == 1 && Links(s) == 1 && t.polling == s.polling
  {
    var t := Step(s, Fire(timer));
    assert s.armed == {timer} by {
      forall u | u in s.armed ensures u == timer {
        assert u.id == timer.id;
        if u != timer {
          assert {u, timer} <= s.armed;
          Two(s.armed, u, timer);
        }
      }
    }
    assert t.waits[Wait(s.runSeq, false)] == 1 && t.waits[Wait(s.runSeq, true)] == 0;
    forall w | w in t.waits ensures w.run <= s.runSeq {
      assert w in s.waits || w == Wait(timer.run, false);
    }
  }

  lemma Two<T>(s: set<T>, a: T, b: T)
    requires a in s && b in s && a != b
    ensures |s| >= 2
  {
    assert |s - {a}| == |s| - 1 && b in s - {a};
  }

  lemma ResetKeeps(s: State)
    requires Inv(s)
    ensures Inv(Step(s, Reset)) && Links(Step(s, Reset)) == 0 && !Step(s, Reset).polling
  {
    StoppedClears(s);
  }

  /** Every step, disposal included: at most one armed timer or live request of the current run, no more
      than 36 firings in a run, and `polling` only while that chain lives. Until disposal, `polling` is
      exactly that. */
  lemma StepKeeps(s: State, e: Event)
    requires Inv(s) && Enabled(s, e)
    ensures Inv(Step(s, e))
    ensures !e.Dispose? && (s.polling <==> Links(s) == 1) ==> (Step(s, e).polling <==> Links(Step(s, e)) == 1)
  {
    hide Continued, Tracked, OneChain, OnTime, Kept;
    match e
    case Track(newIds) => RestartKeeps(s, newIds);
    case Restore => RestartKeeps(s, s.stored);
    case Retry => RestartKeeps(s, s.ids);
    case Reset => ResetKeeps(s);
    case Fire(timer) => FireKeeps(s, timer);
    case Responded(wait, batches) =>
      if wait.run == s.runSeq {
        ContinuedKeeps(s, wait, batches);
      } else {
        StaleChangesNothing(s, wait, batches);
        StaleKeeps(s, wait);
      }
    case NoAnswer(wait) =>
      if wait.run == s.runSeq {
        ContinuedKeeps(s, wait, s.results);
        assert s.(waits := s.waits - multiset{wait}, results := s.results) == s.(waits := s.waits - multiset{wait});
      } else {
        StaleChangesNothing(s, wait, []);
        StaleKeeps(s, wait);
      }
    case Clock(to) => ClockKeeps(s, to);
    case Dispose => DisposeKeeps(s);
  }

  lemma RestartKeeps(s: State, newIds: seq<string>)
    requires Inv(s)
    ensures Inv(Tracked(s, newIds))
    ensures newIds == [] ==> Tracked(s, newIds) == s
    ensures newIds != [] ==> Tracked(s, newIds).polling && Links(Tracked(s, newIds)) == 1
  {
    if newIds != [] {
      TrackedKeeps(s, newIds);
    }
  }

  lemma ClockKeeps(s: State, to: int)
    requires Inv(s) && to >= s.now
    ensures Inv(s.(now := to)) && Links(s.(now := to)) == Links(s)
  {
  }

  lemma DisposeKeeps(s: State)
    requires Inv(s)
    ensures Inv(Stopped(s))
  {
    StoppedClears(s);
  }

  ghost function Run(s: State, events: seq<Event>): State
  {
    if events == [] then s else Step(Run(s, events[..|events| - 1]), events[|events| - 1])
  }

  ghost predicate AllEnabled(s: State, events: seq<Event>)
  {
    events == [] || (AllEnabled(s, events[..|events| - 1]) && Enabled(Run(s, events[..|events| - 1]), events[|events| - 1]))
  }

  lemma StartKeeps(stored: seq<string>, now: int)
    ensures Inv(Initial(stored, now)) && Links(Initial(stored, now)) == 0
  {
  }

  /** Every run, from a fresh page. */
  lemma {:induction false} EveryRun(stored: seq<string>, now: int, events: seq<Event>)
    requires AllEnabled(Initial(stored, now), events)
    ensures var s := Run(Initial(stored, now), events);
            && Links(s) <= 1 && s.fires <= 36 && Inv(s)
            && ((forall k :: 0 <= k < |events| ==> !events[k].Dispose?) ==> (s.polling <==> Links(s) == 1))
  {
    hide Step, Enabled, Kept;
    StartKeeps(stored, now);
    if events != [] {
      var front, last := events[..|events| - 1], events[|events| - 1];
      EveryRun(stored, now, front);
      StepKeeps(Run(Initial(stored, now), front), last);
    }
  }

  // ---- What an answer brings

  /** Every tracked upload is settled by this list. */
  ghost predicate AllSettled(s: State, results: seq<BatchResult>)
  {
    forall id :: id in s.ids ==> Settled(results, id)
  }

  lemma PendingMeans(s: State, results: seq<BatchResult>)
    ensures HasPending(s.ids, results) <==> !AllSettled(s, results)
  {
    hide Final, Settled;
    forall id ensures Final(results, id) <==> Settled(results, id) {
      FinalMeans(results, id);
    }
    if id :| id in s.ids && !Settled(results, id) {
      var k :| 0 <= k < |s.ids| && s.ids[k] == id;
    }
  }

  /** What an answer of the current run leads to, told from the uploads it lists and the clock. Unless every
      tracked upload is settled, or this is not the first answer and three minutes are over, the next request
      is due in five seconds and everything is kept. Otherwise the run ends; the stored keys go if and only if
      all is settled, and if not, the run has timed out. */
  lemma AnswerExactly(s: State, wait: Wait, batches: seq<BatchResult>)
    requires Inv(s) && wait in s.waits && wait.run == s.runSeq
    ensures var t, settled := Step(s, Responded(wait, batches)), AllSettled(s, batches);
            var over := !wait.first && s.now >= s.startedAt + 180_000;
            && t.results == batches && t.ids == s.ids
            && (t.armed != {} <==> !settled && !over)
            && (t.armed != {} ==> (exists timer :: t.armed == {timer} && timer.due == s.now + 5_000 && timer.run == s.runSeq)
                                  && t.stored == s.stored && t.polling == s.polling && t.timedOut == s.timedOut)
            && (t.armed == {} ==> !t.polling && t.timedOut == !settled && t.stored == (if settled then [] else s.stored))
  {
    hide HasPending, AllSettled, OnTime, Kept;
    PendingMeans(s, batches);
    LastLink(s, wait);
    hide Links, OneChain;
    var u := s.(waits := s.waits - multiset{wait}, results := batches);
    assert u.armed == {};
    ContinuedEither(u, wait);
  }

  /** The same where no answer comes: what was listed before decides. */
  lemma NoAnswerExactly(s: State, wait: Wait)
    requires Inv(s) && wait in s.waits && wait.run == s.runSeq
    ensures var t, settled := Step(s, NoAnswer(wait)), AllSettled(s, s.results);
            var over := !wait.first && s.now >= s.startedAt + 180_000;
            && t.results == s.results && t.ids == s.ids
            && (t.armed != {} <==> !settled && !over)
            && (t.armed == {} ==> !t.polling && t.timedOut == !settled && t.stored == (if settled then [] else s.stored))
  {
    hide HasPending, AllSettled, OnTime, Kept;
    PendingMeans(s, s.results);
    LastLink(s, wait);
    hide Links, OneChain;
    var u := s.(waits := s.waits - multiset{wait});
    assert u.armed == {};
    ContinuedEither(u, wait);
  }

  lemma ContinuedEither(u: State, wait: Wait)
    requires u.armed == {} && wait.run == u.runSeq
    ensures var t, pending, over := Continued(u, wait), HasPending(u.ids, u.results), !wait.first && u.now >= u.startedAt + 180_000;
            && t.results == u.results && t.ids == u.ids
            && (pending && !over ==> t.armed == {Timer(u.timers, u.runSeq, u.now + 5_000)}
                                     && t.stored == u.stored && t.polling == u.polling && t.timedOut == u.timedOut)
            && (!pending || over ==> t.armed == {} && !t.polling && t.timedOut == pending
                                     && t.stored == (if pending then u.stored else []))
  {
    hide HasPending;
    assert POLL_TIMEOUT_MS == 180_000 && POLL_INTERVAL_MS == 5_000;
  }

  // ---- Starting and forgetting

  lemma {:induction false} UniqueKeeps(seen: seq<string>, more: seq<string>)
    requires Distinct(more) && forall id :: id in more ==> id !in seen
    ensures Unique(seen, more) == seen + more
    decreases more
  {
    if more != [] {
      UniqueKeeps(seen + [more[0]], more[1..]);
      assert seen + [more[0]] + more[1..] == seen + more;
    }
  }

  lemma {:induction false} UniqueInTwo(seen: seq<string>, a: seq<string>, b: seq<string>)
    ensures Unique(seen, a + b) == Unique(Unique(seen, a), b)
    decreases a
  {
    if a == [] {
      assert a + b == b;
    } else {
      assert (a + b)[0] == a[0] && (a + b)[1..] == a[1..] + b;
      UniqueInTwo(if a[0] in seen then seen else seen + [a[0]], a[1..], b);
    }
  }

  lemma {:induction false} UniqueExtends(seen: seq<string>, more: seq<string>)
    ensures seen <= Unique(seen, more)
    decreases more
  {
    if more != [] {
      UniqueExtends(if more[0] in seen then seen else seen + [more[0]], more[1..]);
    }
  }

  /** Following more uploads: those already followed stay in front, the new ones come behind, each once; all of
      them are stored, whatever an earlier run left is called off, and a request goes out at once. What is shown
      stays until it is answered. */
  lemma TrackExactly(s: State, newIds: seq<string>)
    requires Inv(s) && Distinct(s.ids)
    ensures newIds == [] ==> Step(s, Track(newIds)) == s
    ensures newIds != [] ==>
              var t := Step(s, Track(newIds));
              && s.ids <= t.ids && Distinct(t.ids) && (forall id :: id in t.ids <==> id in s.ids || id in newIds)
              && (Distinct(newIds) && (forall id :: id in newIds ==> id !in s.ids) ==> t.ids == s.ids + newIds)
              && t.stored == t.ids && t.results == s.results && t.polling && !t.timedOut && t.armed == {}
              && t.waits == s.waits + multiset{Wait(t.runSeq, true)} && t.runSeq == s.runSeq + 1 && t.startedAt == s.now
  {
    hide Unique, Distinct;
    if newIds != [] {
      StoppedClears(s);
      UniqueInTwo([], s.ids, newIds);
      UniqueKeeps([], s.ids);
      assert [] + s.ids == s.ids;
      UniqueExtends(s.ids, newIds);
      UniqueExactly(s.ids, newIds);
      if Distinct(newIds) && forall id :: id in newIds ==> id !in s.ids {
        UniqueKeeps(s.ids, newIds);
      }
    }
  }

  /** No upload is followed twice, whatever happens. */
  lemma FollowedOnce(s: State, e: Event)
    requires Distinct(s.ids)
    ensures Distinct(Step(s, e).ids)
  {
    hide Distinct, Unique, Final, HasPending;
    match e
    case Track(newIds) => TrackedOnce(s, newIds);
    case Restore => TrackedOnce(s, s.stored);
    case Retry => TrackedOnce(s, s.ids);
    case Reset => NoneTwice();
    case _ =>
  }

  lemma TrackedOnce(s: State, newIds: seq<string>)
    requires Distinct(s.ids)
    ensures Distinct(Tracked(s, newIds).ids)
  {
    hide Distinct, Unique;
    NoneTwice();
    UniqueExactly([], s.ids + newIds);
  }

  lemma NoneTwice()
    ensures Distinct([])
  {
  }

  /** After a reset nothing is followed, shown or stored, no timer is armed, and no answer still on its way
      is of the current run. */
  lemma ResetExactly(s: State)
    requires Inv(s)
    ensures var t := Step(s, Reset);
            && t.ids == [] && t.results == [] && t.stored == [] && !t.polling && !t.timedOut && t.armed == {}
            && t.waits == s.waits && forall wait :: wait in t.waits ==> wait.run != t.runSeq
  {
    StoppedClears(s);
  }

  // ---- What the storage forgets

  /** The stored keys go only on a reset, or at the end of a run in which every tracked upload has its
      final result; and while an outcome is awaited, storage holds exactly what is tracked. */
  lemma StoredDropped(s: State, e: Event)
    requires Inv(s) && Enabled(s, e) && s.stored != [] && Step(s, e).stored == []
    ensures e.Reset? || forall k :: 0 <= k < |s.ids| ==> Settled(Step(s, e).results, s.ids[k])
  {
    hide HasPending, OneChain, OnTime, Settled, Kept, Links;
    PendingMeans(s, Step(s, e).results);
    match e
    case Track(newIds) => TrackedStores(s, newIds);
    case Restore => TrackedStores(s, s.stored);
    case Retry => TrackedStores(s, s.ids);
    case _ =>
  }

  lemma TrackedStores(s: State, newIds: seq<string>)
    ensures newIds != [] ==> Tracked(s, newIds).stored != []
  {
    if newIds != [] {
      UniqueExactly([], s.ids + newIds);
      assert newIds[0] in s.ids + newIds;
    }
  }

  // ---- Disposal

  /** Disposal does not end the chain: the request it left in the air arms a timer again when its answer
      comes, with `polling` already off. */
  lemma DisposalLeavesTimer(id: string, now: int)
    ensures var s := Step(Step(Step(Initial([], now), Track([id])), Dispose), Responded(Wait(1, true), []));
            !s.polling && Links(s) == 1 && |s.armed| == 1
  {
    var s1 := Tracked(Initial([], now), [id]);
    UniqueExactly([], [] + [id]);
    assert Initial([], now).ids + [id] == [id];
    assert id in s1.ids;
    var s2 := Stopped(s1);
    assert s2.armed == {} && s2.waits == multiset{Wait(1, true)};
    var s3 := Step(s2, Responded(Wait(1, true), []));
    var k :| 0 <= k < |s2.ids| && s2.ids[k] == id;
    assert !Final([], s2.ids[k]);
    assert ShouldKeepPolling(s2.ids, [], 0);
    assert s3.armed == {Timer(0, 1, now + POLL_INTERVAL_MS)};
    assert s3.waits == multiset{};
  }

  /** Following uploads anew is the only way to start a run. */
  predicate Restarts(e: Event)
  {
    e.Track? || e.Restore? || e.Retry?
  }

  /** Events that can happen one after the other without a new run. */
  ghost predicate Continuation(s: State, events: seq<Event>)
  {
    AllEnabled(s, events) && forall k :: 0 <= k < |events| ==> !Restarts(events[k])
  }

  /** The answer to a request would keep the run going: something is tracked and time is left. */
  predicate TimeLeft(s: State, wait: Wait)
  {
    wait.run == s.runSeq && s.ids != [] && (wait.first || s.now - s.startedAt < POLL_TIMEOUT_MS)
  }

  /** A request of the current run is in the air, with time left. */
  ghost predicate InTheAir(s: State)
  {
    exists wait :: wait in s.waits && TimeLeft(s, wait)
  }

  ghost predicate Quiet(s: State)
  {
    s.armed == {} && (forall wait :: wait in s.waits ==> wait.run <= s.runSeq) && !InTheAir(s)
  }

  lemma NothingToWaitFor(s: State, elapsed: int)
    requires s.ids == [] || elapsed >= POLL_TIMEOUT_MS
    ensures !ShouldKeepPolling(s.ids, s.results, elapsed)
  {
  }

  lemma QuietLess(s: State, wait: Wait, results: seq<BatchResult>)
    requires Quiet(s)
    ensures Quiet(s.(waits := s.waits - multiset{wait}, results := results))
  {
    var u := s.(waits := s.waits - multiset{wait}, results := results);
    forall w | w in u.waits ensures w in s.waits && !TimeLeft(u, w) {
      assert !TimeLeft(s, w);
    }
  }

  lemma QuietFinished(s: State)
    requires Quiet(s)
    ensures Quiet(Finished(s))
  {
    hide ShouldKeepPolling;
    forall w | w in s.waits ensures !TimeLeft(Finished(s), w) {
      assert !TimeLeft(s, w);
    }
  }

  lemma QuietContinued(s: State, wait: Wait, results: seq<BatchResult>)
    requires Quiet(s) && wait in s.waits
    ensures Quiet(Continued(s.(waits := s.waits - multiset{wait}, results := results), wait))
  {
    hide ShouldKeepPolling, Armed, Finished, Quiet;
    var u := s.(waits := s.waits - multiset{wait}, results := results);
    QuietLess(s, wait, results);
    QuietFinished(u);
    NoTime(s, wait);
    if wait.run == s.runSeq {
      NothingToWaitFor(u, if wait.first then 0 else u.now - u.startedAt);
    }
  }

  lemma NoTime(s: State, wait: Wait)
    requires Quiet(s) && wait in s.waits
    ensures !TimeLeft(s, wait)
  {
  }

  lemma QuietAnswer(s: State, wait: Wait, batches: seq<BatchResult>)
    requires Quiet(s) && wait in s.waits
    ensures Quiet(Step(s, Responded(wait, batches))) && Quiet(Step(s, NoAnswer(wait)))
  {
    hide Step, Continued, Quiet;
    AnsweredIs(s, wait, batches);
    QuietLess(s, wait, s.results);
    QuietContinued(s, wait, batches);
    QuietContinued(s, wait, s.results);
    var u := s.(waits := s.waits - multiset{wait});
    assert u.(results := s.results) == u;
  }

  lemma QuietStep(s: State, e: Event)
    requires Quiet(s) && Enabled(s, e) && !Restarts(e)
    ensures Quiet(Step(s, e))
  {
    match e
    case Responded(wait, batches) => QuietAnswer(s, wait, batches);
    case NoAnswer(wait) => QuietAnswer(s, wait, []);
    case Clock(to) =>
      forall wait | wait in s.waits ensures !TimeLeft(s.(now := to), wait) {
        assert !TimeLeft(s, wait);
      }
    case Reset =>
    case Dispose =>
      forall wait | wait in s.waits ensures !TimeLeft(Stopped(s), wait) {
        assert !TimeLeft(s, wait);
      }
    case _ =>
  }

  lemma {:induction false} QuietRun(s: State, events: seq<Event>)
    requires Quiet(s) && Continuation(s, events)
    ensures Quiet(Run(s, events))
  {
    hide Quiet, Step, Enabled, Restarts;
    if events != [] {
      var front := events[..|events| - 1];
      assert forall k :: 0 <= k < |front| ==> front[k] == events[k];
      QuietRun(s, front);
      QuietStep(Run(s, front), events[|events| - 1]);
    }
  }

  /** The answer `[]` to a request with time left arms a timer. */
  lemma AnswerArms(s: State, wait: Wait)
    requires wait in s.waits && TimeLeft(s, wait)
    ensures Continuation(s, [Responded(wait, [])]) && Run(s, [Responded(wait, [])]).armed != {}
  {
    var e := Responded(wait, []);
    assert [e][..0] == [] && AllEnabled(s, []) && Enabled(s, e);
    var u := s.(waits := s.waits - multiset{wait}, results := []);
    assert !Final([], s.ids[0]);
    assert ShouldKeepPolling(u.ids, [], if wait.first then 0 else u.now - u.startedAt);
    assert Step(s, e) == Armed(u, wait.run);
    assert Timer(u.timers, wait.run, u.now + POLL_INTERVAL_MS) in Armed(u, wait.run).armed;
  }

  /** Disposal silences the controller, in the sense that nothing short of a new run ever arms a timer
      again, exactly when no request of the current run is in the air with time left. */
  lemma DisposalSilencesExactly(s: State)
    requires Inv(s)
    ensures !InTheAir(s) <==> forall events :: Continuation(Stopped(s), events) ==> Run(Stopped(s), events).armed == {}
  {
    hide Continuation, Run, Step, OnTime, Kept, Links;
    var t := Stopped(s);
    StoppedClears(s);
    if InTheAir(s) {
      var wait :| wait in s.waits && TimeLeft(s, wait);
      assert TimeLeft(t, wait);
      AnswerArms(t, wait);
    } else {
      forall wait | wait in t.waits ensures !TimeLeft(t, wait) {
        assert !TimeLeft(s, wait);
      }
      forall events | Continuation(t, events) ensures Run(t, events).armed == {} {
        QuietRun(t, events);
      }
    }
  }

  // ---- Only the current run writes

  /** The event answers a request of an earlier run. */
  predicate Stale(s: State, e: Event)
  {
    match e
    case Responded(wait, _) => wait.run != s.runSeq
    case NoAnswer(wait) => wait.run != s.runSeq
    case _ => false
  }

  ghost function WithoutStale(s: State, events: seq<Event>): seq<Event>
  {
    if events == [] then []
    else
      var front, last := events[..|events| - 1], events[|events| - 1];
      WithoutStale(s, front) + if Stale(Run(s, front), last) then [] else [last]
  }

  /** Two states that differ at most in the requests in flight. */
  ghost predicate Alike(s: State, t: State)
  {
    s.(waits := t.waits) == t
  }

  lemma AlikeStopped(s: State, t: State)
    requires Alike(s, t)
    ensures Alike(Stopped(s), Stopped(t)) && Alike(Finished(s), Finished(t)) && Alike(Armed(s, s.runSeq), Armed(t, t.runSeq))
  {
    hide ShouldKeepPolling;
  }

  lemma AlikeTracked(s: State, t: State, newIds: seq<string>)
    requires Alike(s, t)
    ensures Alike(Tracked(s, newIds), Tracked(t, newIds))
  {
    hide Unique;
  }

  lemma AlikeContinued(s: State, t: State, wait: Wait)
    requires Alike(s, t)
    ensures Alike(Continued(s, wait), Continued(t, wait))
  {
    hide ShouldKeepPolling, Stopped, Armed, Finished;
    AlikeStopped(s, t);
  }

  lemma AlikeSteps(s: State, t: State, e: Event)
    requires Alike(s, t)
    ensures Alike(Step(s, e), Step(t, e))
    ensures Stale(s, e) ==> Alike(Step(s, e), t)
  {
    hide ShouldKeepPolling, Stopped, Tracked, Continued;
    match e
    case Track(newIds) => AlikeTracked(s, t, newIds);
    case Restore => AlikeTracked(s, t, s.stored);
    case Retry => AlikeTracked(s, t, s.ids);
    case Reset => AlikeStopped(s.(runSeq := s.runSeq + 1), t.(runSeq := t.runSeq + 1));
    case Responded(wait, batches) => AlikeAnswered(s, t, wait, batches);
    case NoAnswer(wait) => AlikeAnswered(s, t, wait, []);
    case Dispose => AlikeStopped(s, t);
    case _ =>
  }

  lemma AnsweredIs(s: State, wait: Wait, batches: seq<BatchResult>)
    ensures var u := s.(waits := s.waits - multiset{wait});
            && Step(s, Responded(wait, batches)) == (if wait.run == s.runSeq then Continued(u.(results := batches), wait) else u)
            && Step(s, NoAnswer(wait)) == (if wait.run == s.runSeq then Continued(u, wait) else u)
  {
    hide ShouldKeepPolling, Armed, Finished;
  }

  lemma AlikeAnswered(s: State, t: State, wait: Wait, batches: seq<BatchResult>)
    requires Alike(s, t)
    ensures Alike(Step(s, Responded(wait, batches)), Step(t, Responded(wait, batches)))
    ensures Alike(Step(s, NoAnswer(wait)), Step(t, NoAnswer(wait)))
    ensures wait.run != s.runSeq ==> Alike(Step(s, Responded(wait, batches)), t) && Alike(Step(s, NoAnswer(wait)), t)
  {
    hide Continued, Step;
    AnsweredIs(s, wait, batches);
    AnsweredIs(t, wait, batches);
    var u, v := s.(waits := s.waits - multiset{wait}), t.(waits := t.waits - multiset{wait});
    AlikeContinued(u.(results := batches), v.(results := batches), wait);
    AlikeContinued(u, v, wait);
  }

  /** Dropping every stale answer from any run leaves everything but the requests in flight as it was. */
  lemma {:induction false} OnlyCurrentWrites(s: State, events: seq<Event>)
    ensures Alike(Run(s, events), Run(s, WithoutStale(s, events)))
  {
    hide Step, Stale;
    if events != [] {
      var front, last := events[..|events| - 1], events[|events| - 1];
      var kept := WithoutStale(s, front);
      OnlyCurrentWrites(s, front);
      AlikeSteps(Run(s, front), Run(s, kept), last);
      if Stale(Run(s, front), last) {
        assert WithoutStale(s, events) == kept;
      } else {
        assert (kept + [last])[..|kept|] == kept;
        assert WithoutStale(s, events) == kept + [last];
      }
    }
  }

  // ---- The controller itself

  class Batches {
    var ids: seq<string>
    var results: seq<BatchResult>
    var polling: bool
    var timedOut: bool
    var handle: Option<nat>
    var startedAt: int
    var runSeq: nat
    var stored: seq<string>
    var now: int
    var armed: set<Timer>
    var waits: multiset<Wait>
    var timers: nat
    ghost var fires: nat

    constructor (stored: seq<string>, now: int)
      ensures View() == Initial(stored, now)
    {
      ids, results, polling, timedOut, handle, startedAt, runSeq := [], [], false, false, None, 0, 0;
      this.stored, this.now, armed, waits, timers, fires := stored, now, {}, multiset{}, 0, 0;
    }

    ghost function View(): State
      reads this
    {
      State(ids, results, polling, timedOut, handle, startedAt, runSeq, stored, now, armed, waits, timers, fires)
    }

    method Stop()
      modifies this`armed, this`handle, this`polling
      ensures View() == Stopped(old(View()))
    {
      if handle.Some? {
        armed := set t | t in armed && t.id != handle.value;
      }
      handle := None;
      polling := false;
    }

    /** Sets the timer of the next poll. */
    method Tick(run: nat)
      modifies this`armed, this`handle, this`timers
      ensures View() == Armed(old(View()), run)
    {
      armed := armed + {Timer(timers, run, now + POLL_INTERVAL_MS)};
      handle := Some(timers);
      timers := timers + 1;
    }

    method Finish()
      modifies this
      ensures View() == Finished(old(View()))
    {
      hide ShouldKeepPolling;
      timedOut := ShouldKeepPolling(ids, results, 0);
      Stop();
      if !timedOut {
        stored := [];
      }
    }

    method Adopt(newIds: seq<string>)
      modifies this`runSeq, this`ids, this`stored
      ensures var all := Unique([], old(ids) + newIds);
              View() == old(View()).(runSeq := old(runSeq) + 1, ids := all, stored := all)
    {
      hide Unique;
      runSeq := runSeq + 1;
      ids := Unique([], ids + newIds);
      stored := ids;
    }

    method BeginRun()
      modifies this`timedOut, this`startedAt, this`polling, this`waits, this`fires
      ensures View() == old(View()).(timedOut := false, startedAt := now, polling := true,
                                     waits := old(waits) + multiset{Wait(runSeq, true)}, fires := 0)
    {
      timedOut, startedAt, polling := false, now, true;
      waits := waits + multiset{Wait(runSeq, true)};
      fires := 0;
    }

    /** Starting to follow uploads, up to the first request. */
    method TrackUploads(newIds: seq<string>)
      modifies this
      ensures View() == Tracked(old(View()), newIds)
    {
      hide Unique, Stopped;
      if newIds == [] {
        return;
      }
      Adopt(newIds);
      Stop();
      BeginRun();
    }

    method RestoreUploads()
      modifies this
      ensures View() == Step(old(View()), Restore)
    {
      TrackUploads(stored);
    }

    method RetryUploads()
      modifies this
      ensures View() == Step(old(View()), Retry)
    {
      TrackUploads(ids);
    }

    method ForgetUploads()
      modifies this
      ensures View() == Step(old(View()), Reset)
    {
      hide Stopped;
      runSeq := runSeq + 1;
      Stop();
      Clear();
    }

    method Clear()
      modifies this`ids, this`results, this`timedOut, this`stored
      ensures View() == old(View()).(ids := [], results := [], timedOut := false, stored := [])
    {
      ids, results, timedOut, stored := [], [], false, [];
    }

    /** A timer firing: the next request goes out. */
    method TimerFired(timer: Timer)
      requires timer in armed
      modifies this`armed, this`waits, this`fires
      ensures View() == Step(old(View()), Fire(timer))
    {
      armed := armed - {timer};
      waits := waits + multiset{Wait(timer.run, false)};
      fires := fires + 1;
    }

    /** What follows a request: an answer, or nothing. */
    method Answer(wait: Wait, batches: Option<seq<BatchResult>>)
      requires wait in waits
      modifies this
      ensures View() == Step(old(View()), if batches.Some? then Responded(wait, batches.value) else NoAnswer(wait))
    {
      hide Continued, Step;
      AnsweredIs(View(), wait, if batches.Some? then batches.value else []);
      waits := waits - multiset{wait};
      if wait.run != runSeq {
        return;
      }
      if batches.Some? {
        results := batches.value;
      }
      Continue(wait);
    }

    method Continue(wait: Wait)
      requires wait.run == runSeq
      modifies this
      ensures View() == Continued(old(View()), wait)
    {
      hide ShouldKeepPolling, Armed, Finished;
      if ShouldKeepPolling(ids, results, if wait.first then 0 else now - startedAt) {
        Tick(wait.run);
      } else {
        Finish();
      }
    }
  }
}
