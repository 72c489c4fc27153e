/** Automatic erasing of imported activities (app/utils/autoEraseActivities.ts) against the rolling poll
    window (server/queue/cron.ts): the deduplication marker lives on the activity, so what is erased
    must already be out of every later poll's reach. */
module AutoErase {
  import opened Outcome
  import opened DayValue

  const GRACE_DAYS := 2
  const MIN_DAYS := 5
  const MAX_DAYS := 400
  const OFFSET_MS := 10_800_000
  const ORIGIN := "ShefClientBankAlfaBy"

  // ---- Days

  /** `Math.floor` of the configured lookback; a non-positive one counts as none. */
  function LookbackDays(lookback: real): nat
  {
    if lookback > 0.0 then lookback.Floor else 0
  }

  function ThresholdDays(lookback: real): (d: nat)
    ensures MIN_DAYS <= d <= MAX_DAYS
  {
    var grown := if LookbackDays(lookback) + GRACE_DAYS > MIN_DAYS then LookbackDays(lookback) + GRACE_DAYS else MIN_DAYS;
    if grown < MAX_DAYS then grown else MAX_DAYS
  }

  /** The threshold in days: two more than the whole days of the lookback, but five at least and four hundred
      at most. */
  lemma ThresholdExactly(lookback: real, days: nat)
    requires days as real <= lookback < (days + 1) as real || (days == 0 && lookback < 0.0)
    ensures ThresholdDays(lookback) == if days <= 3 then 5 else if days <= 398 then days + 2 else 400
  {
  }

  /** The number of the calendar day in UTC, and in the portal's zone, three hours ahead. */
  function UtcDay(ms: int): int
  {
    ms / MS_PER_DAY
  }

  function PortalDay(ms: int): int
  {
    (ms + OFFSET_MS) / MS_PER_DAY
  }

  predicate FourDigitYear(ms: int)
  {
    100 <= FromDays(ms / MS_PER_DAY).year < 10000
  }

  function Shifted(now: int, daysBack: int): int
  {
    now + OFFSET_MS - (if daysBack > 0 then daysBack else 0) * MS_PER_DAY
  }

  /** The portal's calendar day some days back, as text. */
  function PortalDayBack(now: int, daysBack: int): string
    requires FourDigitYear(Shifted(now, daysBack))
  {
    IsoDayFromMs(Shifted(now, daysBack))
  }

  /** Midnight, portal time, of a day given as text. */
  function PortalMidnight(day: string): int
    requires IsIsoDay(day)
  {
    DayNumber(day) * MS_PER_DAY - OFFSET_MS
  }

  /** The erasing boundary: midnight of the portal day `ThresholdDays` back. */
  function CutoffMs(now: int, lookback: real): int
  {
    (PortalDay(now) - ThresholdDays(lookback)) * MS_PER_DAY - OFFSET_MS
  }

  /** Naming the boundary day as text and reading it back gives that midnight. */
  lemma CutoffThroughText(now: int, lookback: real)
    requires FourDigitYear(Shifted(now, ThresholdDays(lookback)))
    ensures var day := PortalDayBack(now, ThresholdDays(lookback));
            IsIsoDay(day) && PortalMidnight(day) == CutoffMs(now, lookback)
  {
    hide ThresholdDays, FromDays, IsoText, DayNumber, IsIsoDay;
    var d := ThresholdDays(lookback);
    IsoDayFromMsNames(Shifted(now, d));
    DayUnique(DayNumber(PortalDayBack(now, d)) + d, now + OFFSET_MS);
  }

  lemma DayUnique(day: int, ms: int)
    requires day * MS_PER_DAY <= ms < (day + 1) * MS_PER_DAY
    ensures ms / MS_PER_DAY == day
  {
  }

  // ---- Which activities go

  /** A listed activity; `created` is its creation time, if it can be read. */
  datatype Row = Row(id: string, originatorId: string, created: Option<int>)

  predicate AutoErasable(r: Row, cutoffMs: int)
  {
    r.originatorId == ORIGIN && r.id != "" && r.created.Some? && r.created.value < cutoffMs
  }

  function SelectAutoErasable(rows: seq<Row>, cutoffMs: int): seq<Row>
  {
    if rows == [] then []
    else (if AutoErasable(rows[0], cutoffMs) then [rows[0]] else []) + SelectAutoErasable(rows[1..], cutoffMs)
  }

  /** A row is selected exactly when it is one of ours, named, of a known age, and created on a portal
      day more than the whole threshold ago; it is then older than the threshold in hours too. */
  lemma {:induction false} SelectedExactly(rows: seq<Row>, now: int, lookback: real, r: Row)
    ensures r in SelectAutoErasable(rows, CutoffMs(now, lookback)) <==>
            && r in rows && r.originatorId == ORIGIN && r.id != "" && r.created.Some?
            && PortalDay(r.created.value) < PortalDay(now) - ThresholdDays(lookback)
    ensures r in SelectAutoErasable(rows, CutoffMs(now, lookback)) ==>
              now - r.created.value > ThresholdDays(lookback) * MS_PER_DAY
  {
    hide ThresholdDays;
    if rows != [] {
      SelectedExactly(rows[1..], now, lookback, r);
    }
    if r.created.Some? {
      BeforeMidnight(r.created.value, PortalDay(now) - ThresholdDays(lookback));
    }
    assert PortalDay(now) * MS_PER_DAY <= now + OFFSET_MS;
    assert rows != [] ==> rows == [rows[0]] + rows[1..];
  }

  /** The boundary is a midnight of the portal, three hours ahead of Greenwich, and the last that lies the
      threshold and no whole day more behind now. */
  lemma CutoffExactly(now: int, lookback: real)
    ensures var cutoff, back := CutoffMs(now, lookback), ThresholdDays(lookback) * 86_400_000;
            && (cutoff + 10_800_000) % 86_400_000 == 0 && cutoff <= now - back < cutoff + 86_400_000
  {
    hide ThresholdDays;
    var d := PortalDay(now);
    assert d * MS_PER_DAY <= now + OFFSET_MS < (d + 1) * MS_PER_DAY;
    assert CutoffMs(now, lookback) + 10_800_000 == (d - ThresholdDays(lookback)) * 86_400_000;
    WholeDays(d - ThresholdDays(lookback));
  }

  lemma WholeDays(n: int)
    ensures (n * 86_400_000) % 86_400_000 == 0
  {
  }

  /** Ours are the activities with this mark. */
  lemma OursExactly(r: Row, cutoff: int)
    ensures AutoErasable(r, cutoff) <==>
            r.originatorId == "ShefClientBankAlfaBy" && |r.id| > 0 && r.created != None && r.created.value + 1 <= cutoff
  {
  }

  lemma BeforeMidnight(ms: int, day: int)
    ensures ms < day * MS_PER_DAY - OFFSET_MS <==> PortalDay(ms) < day
  {
  }

  // ---- Runs

  /** A bank operation: what tells it apart, and its day. */
  datatype Op = Op(key: string, day: int)

  /** The clock, the live activities with their creation times, and every operation whose activity
      auto-erase has ever removed. */
  datatype State = State(now: int, live: map<Op, int>, erased: set<Op>)

  /** `Poll` runs a job planned at `planned`, over what the bank returned for its window; `Upload` is a
      statement loaded by hand, or a single day fetched by hand; `AutoErase` removes some of what the
      rule selects; `HandErase` removes anything. */
  datatype Event =
    | Tick(to: int)
    | Poll(planned: int, returned: set<Op>)
    | Upload(ops: set<Op>)
    | AutoErase(chosen: set<Op>)
    | HandErase(chosen: set<Op>)

  predicate InWindow(op: Op, planned: int, lookback: real)
  {
    UtcDay(planned - LookbackDays(lookback) * MS_PER_DAY) <= op.day <= UtcDay(planned)
  }

  function Fresh(s: State, ops: set<Op>): set<Op>
  {
    set op | op in ops && op !in s.live
  }

  function Imported(s: State, ops: set<Op>): State
  {
    s.(live := s.live + map op | op in Fresh(s, ops) :: s.now)
  }

  function Apply(s: State, e: Event): State
  {
    match e
    case Tick(to) => s.(now := to)
    case Poll(_, returned) => Imported(s, returned)
    case Upload(ops) => Imported(s, ops)
    case AutoErase(chosen) => s.(live := s.live - chosen, erased := s.erased + chosen)
    case HandErase(chosen) => s.(live := s.live - chosen)
  }

  /** A job starts at most `delay` days after the day it was planned; the bank returns only its window;
      a hand-loaded operation is not of a later day than its activity; auto-erase keeps to its rule. */
  predicate Enabled(s: State, e: Event, lookback: real, delay: nat)
  {
    match e
    case Tick(to) => to >= s.now
    case Poll(planned, returned) =>
      planned <= s.now && UtcDay(s.now) - UtcDay(planned) <= delay && forall op :: op in returned ==> InWindow(op, planned, lookback)
    case Upload(ops) => forall op :: op in ops ==> op.day <= PortalDay(s.now)
    case AutoErase(chosen) => forall op :: op in chosen ==> op in s.live && s.live[op] < CutoffMs(s.now, lookback)
    case HandErase(chosen) => true
  }

  ghost function Run(s: State, events: seq<Event>): State
  {
    if events == [] then s else Apply(Run(s, events[..|events| - 1]), events[|events| - 1])
  }

  ghost predicate AllEnabled(s: State, events: seq<Event>, lookback: real, delay: nat)
  {
    events == []
    || (AllEnabled(s, events[..|events| - 1], lookback, delay)
        && Enabled(Run(s, events[..|events| - 1]), events[|events| - 1], lookback, delay))
  }

  /** The last step is a poll that brings back an operation auto-erase once removed. */
  ghost predicate Revives(s: State, events: seq<Event>)
  {
    && events != [] && events[|events| - 1].Poll?
    && var before := Run(s, events[..|events| - 1]);
       Fresh(before, events[|events| - 1].returned) * before.erased != {}
  }

  /** The whole window and the delay lie inside the threshold. */
  predicate Safe(lookback: real, delay: nat)
  {
    LookbackDays(lookback) + delay < ThresholdDays(lookback)
  }

  ghost predicate Inv(s: State, lookback: real)
  {
    && (forall op :: op in s.live ==> s.live[op] <= s.now && op.day <= PortalDay(s.live[op]))
    && (forall op :: op in s.erased ==> op.day + ThresholdDays(lookback) < PortalDay(s.now))
  }

  lemma DaysGrow(a: int, b: int)
    requires a <= b
    ensures PortalDay(a) <= PortalDay(b) && UtcDay(a) <= UtcDay(b) && UtcDay(b) <= PortalDay(b) <= UtcDay(b) + 1
  {
  }

  lemma StepKeeps(s: State, e: Event, lookback: real, delay: nat)
    requires Inv(s, lookback) && Enabled(s, e, lookback, delay)
    ensures Inv(Apply(s, e), lookback)
  {
    hide ThresholdDays, LookbackDays;
    match e
    case Tick(to) =>
      DaysGrow(s.now, to);
    case Poll(planned, returned) =>
      DaysGrow(planned, s.now);
    case Upload(ops) =>
    case AutoErase(chosen) =>
      forall op | op in chosen ensures op.day + ThresholdDays(lookback) < PortalDay(s.now) {
        BeforeMidnight(s.live[op], PortalDay(s.now) - ThresholdDays(lookback));
      }
    case HandErase(chosen) =>
  }

  lemma {:induction false} RunKeeps(now: int, events: seq<Event>, lookback: real, delay: nat)
    requires AllEnabled(State(now, map[], {}), events, lookback, delay)
    ensures Inv(Run(State(now, map[], {}), events), lookback)
  {
    hide Apply, Enabled;
    if events != [] {
      RunKeeps(now, events[..|events| - 1], lookback, delay);
      StepKeeps(Run(State(now, map[], {}), events[..|events| - 1]), events[|events| - 1], lookback, delay);
    }
  }

  /** With the window and the delay inside the threshold, no run ever has a poll bring an erased
      operation back. */
  lemma NothingRevived(now: int, events: seq<Event>, lookback: real, delay: nat)
    requires Safe(lookback, delay) && AllEnabled(State(now, map[], {}), events, lookback, delay)
    ensures !Revives(State(now, map[], {}), events)
  {
    hide ThresholdDays, LookbackDays;
    if events != [] && events[|events| - 1].Poll? {
      var before := Run(State(now, map[], {}), events[..|events| - 1]);
      var poll := events[|events| - 1];
      RunKeeps(now, events[..|events| - 1], lookback, delay);
      DaysGrow(poll.planned, before.now);
      forall op | op in poll.returned ensures op !in before.erased {
        WindowStart(op, poll.planned, lookback);
      }
    }
  }

  lemma WindowStart(op: Op, planned: int, lookback: real)
    requires InWindow(op, planned, lookback)
    ensures UtcDay(planned) - LookbackDays(lookback) <= op.day
  {
    hide LookbackDays;
    assert (planned - LookbackDays(lookback) * MS_PER_DAY) / MS_PER_DAY == planned / MS_PER_DAY - LookbackDays(lookback) by {
      DayUnique(planned / MS_PER_DAY - LookbackDays(lookback), planned - LookbackDays(lookback) * MS_PER_DAY);
    }
  }

  /** The run that revives an operation once the window and the delay reach the threshold: import, erase
      at the first midnight that allows it, then run a job planned as early as the delay lets it. */
  function Revival(lookback: real, delay: nat): seq<Event>
  {
    var d := ThresholdDays(lookback);
    var op := Op("x", 0);
    var erase := (d + 1) * MS_PER_DAY - OFFSET_MS;
    [Upload({op}), Tick(erase), AutoErase({op}), Poll(erase - (if delay < d then delay else d) * MS_PER_DAY, {op})]
  }

  lemma RevivalRuns(lookback: real, delay: nat)
    requires !Safe(lookback, delay)
    ensures AllEnabled(State(0, map[], {}), Revival(lookback, delay), lookback, delay)
    ensures Revives(State(0, map[], {}), Revival(lookback, delay))
  {
    hide ThresholdDays, LookbackDays;
    var start := State(0, map[], {});
    var d := ThresholdDays(lookback);
    var back := if delay < d then delay else d;
    var op := Op("x", 0);
    var erase := (d + 1) * MS_PER_DAY - OFFSET_MS;
    var e1, e2, e3, e4: Event := Upload({op}), Tick(erase), AutoErase({op}), Poll(erase - back * MS_PER_DAY, {op});
    DayUnique(d, erase);
    DayUnique(d - back, erase - back * MS_PER_DAY);
    DayUnique(d - back - LookbackDays(lookback), erase - back * MS_PER_DAY - LookbackDays(lookback) * MS_PER_DAY);
    var s1, s2, s3 := State(0, map[op := 0], {}), State(erase, map[op := 0], {}), State(erase, map[], {op});
    assert Apply(start, e1) == s1 && Apply(s1, e2) == s2 && Apply(s2, e3) == s3;
    assert Enabled(start, e1, lookback, delay) && Enabled(s1, e2, lookback, delay);
    assert Enabled(s2, e3, lookback, delay) && Enabled(s3, e4, lookback, delay);
    FourSteps(start, e1, e2, e3, e4, lookback, delay);
    assert op in Fresh(s3, {op}) * s3.erased;
  }

  lemma FourSteps(s: State, e1: Event, e2: Event, e3: Event, e4: Event, lookback: real, delay: nat)
    ensures var s1 := Apply(s, e1); var s2 := Apply(s1, e2); var s3 := Apply(s2, e3);
            && Run(s, [e1, e2, e3]) == s3
            && (AllEnabled(s, [e1, e2, e3, e4], lookback, delay) <==>
                Enabled(s, e1, lookback, delay) && Enabled(s1, e2, lookback, delay) && Enabled(s2, e3, lookback, delay)
                && Enabled(s3, e4, lookback, delay))
            && [e1, e2, e3, e4][..3] == [e1, e2, e3]
  {
    hide Apply, Enabled;
    assert [e1][..0] == [] && [e1, e2][..1] == [e1] && [e1, e2, e3][..2] == [e1, e2] && [e1, e2, e3, e4][..3] == [e1, e2, e3];
    assert Run(s, [e1]) == Apply(Run(s, []), e1);
    assert Run(s, [e1, e2]) == Apply(Run(s, [e1]), e2);
    assert AllEnabled(s, [e1], lookback, delay) == Enabled(s, e1, lookback, delay);
    assert AllEnabled(s, [e1, e2], lookback, delay) == (AllEnabled(s, [e1], lookback, delay) && Enabled(Run(s, [e1]), e2, lookback, delay));
    assert AllEnabled(s, [e1, e2, e3], lookback, delay) ==
           (AllEnabled(s, [e1, e2], lookback, delay) && Enabled(Run(s, [e1, e2]), e3, lookback, delay));
  }

  /** The exact condition, for every run and every configuration; and what it says of the lookback: with
      jobs run on the day they were planned 399 days are safe and 400 are not, with a job that may slip
      past one midnight 398 are safe and 399 are not. */
  lemma SafeExactly(lookback: real, delay: nat)
    ensures Safe(lookback, delay) <==>
            forall now: int, events: seq<Event> | AllEnabled(State(now, map[], {}), events, lookback, delay) ::
              !Revives(State(now, map[], {}), events)
    ensures Safe(lookback, 0) <==> LookbackDays(lookback) <= 399
    ensures Safe(lookback, 1) <==> LookbackDays(lookback) <= 398
  {
    hide AllEnabled, Revives;
    if Safe(lookback, delay) {
      forall now: int, events: seq<Event> | AllEnabled(State(now, map[], {}), events, lookback, delay)
        ensures !Revives(State(now, map[], {}), events)
      {
        NothingRevived(now, events, lookback, delay);
      }
    } else {
      RevivalRuns(lookback, delay);
    }
  }
}
