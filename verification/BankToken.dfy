/** The life of a bank connection (app/utils/bankTokenLifetime.ts): what can honestly be said of it, why
    it expired, and when a dead one may be told by date (app/utils/bankReaper.ts,
    app/utils/bankDisconnectNotice.ts). Times are milliseconds; zero stands for an absent mark. */
module BankToken {
  import opened Outcome

  const DAY_MS := 86_400_000

  datatype Provider = AlfaBy | PriorBy | ManualUpload

  /** Lifetime of a refresh token; only one of the figures is measured. */
  function TtlMs(p: Provider): int
  {
    match p
    case AlfaBy => 36_000_000
    case PriorBy => 43_200_000
    case ManualUpload => 0
  }

  predicate Measured(p: Provider)
  {
    p == AlfaBy
  }

  /** Half the lifetime. */
  function RefreshAtAgeMs(p: Provider): int
  {
    TtlMs(p) / 2
  }

  /** `connectedAt` is the last time a good pair was held; the marks are the bank's consent date, our last
      attempt, and the bank's last definite refusal. */
  datatype Connection = Connection(provider: Provider, connectedAt: int, hasRefresh: bool, consentExpiresAt: int,
                                   lastAttemptAt: int, refreshRejectedAt: int)

  datatype Health = Fresh | Due | Expired | NoRefresh | Unknown

  predicate ConsentExpired(c: Connection, now: int)
  {
    c.consentExpiresAt > 0 && now >= c.consentExpiresAt
  }

  predicate RefreshRejectedByBank(c: Connection)
  {
    c.refreshRejectedAt > 0 && c.refreshRejectedAt > c.connectedAt
  }

  function ConnectionHealth(c: Connection, now: int): Health
  {
    if ConsentExpired(c, now) then Expired
    else if !c.hasRefresh then NoRefresh
    else if RefreshRejectedByBank(c) then Expired
    else if TtlMs(c.provider) <= 0 then Unknown
    else
      var age := now - c.connectedAt;
      if age < 0 then Unknown
      else if age >= TtlMs(c.provider) then if Measured(c.provider) then Expired else Due
      else if age >= RefreshAtAgeMs(c.provider) then Due
      else Fresh
  }

  predicate NeedsHuman(h: Health)
  {
    h == Expired || h == NoRefresh
  }

  // ---- Why it expired

  datatype Cause = BankRefused | NeverTried

  function ExpiredCause(c: Connection): Cause
  {
    if RefreshRejectedByBank(c) then BankRefused
    else if c.lastAttemptAt <= 0 then NeverTried
    else if c.lastAttemptAt > c.connectedAt then BankRefused
    else NeverTried
  }

  /** What happens to a stored connection. `Attempted` is written before the bank is asked; `Renewed` and
      `Reconnected` only once a pair is there, and only a renewal clears the refusal; `Refused` is the
      bank's definite answer, `ConsentDated` a new consent date; other failures write nothing. */
  datatype Event =
    | Attempted(at: int)
    | Renewed(at: int)
    | Refused(at: int)
    | Reconnected(at: int)
    | ConsentDated(at: int, until: int)

  function Write(c: Connection, e: Event): Connection
  {
    match e
    case Attempted(at) => c.(lastAttemptAt := at)
    case Renewed(at) => c.(connectedAt := at, refreshRejectedAt := 0)
    case Refused(at) => c.(refreshRejectedAt := at)
    case Reconnected(at) => c.(connectedAt := at)
    case ConsentDated(_, until) => c.(consentExpiresAt := until)
  }

  function Run(c: Connection, events: seq<Event>): Connection
  {
    if events == [] then c else Write(Run(c, events[..|events| - 1]), events[|events| - 1])
  }

  predicate IsSuccess(e: Event)
  {
    e.Renewed? || e.Reconnected?
  }

  predicate IsTry(e: Event)
  {
    e.Attempted? || e.Refused?
  }

  /** Each event is later than the one before it, and all are later than the connection. */
  predicate Ordered(start: int, events: seq<Event>)
  {
    (forall k :: 0 <= k < |events| ==> start < events[k].at) && forall i, j :: 0 <= i < j < |events| ==> events[i].at < events[j].at
  }

  /** Something was tried or refused after the last success of the run. */
  predicate TriedSinceSuccess(events: seq<Event>)
  {
    exists k :: 0 <= k < |events| && IsTry(events[k]) && NoSuccessAfter(events, k)
  }

  predicate NoSuccessAfter(events: seq<Event>, k: nat)
  {
    forall j :: k < j < |events| ==> !IsSuccess(events[j])
  }

  lemma TriedStep(events: seq<Event>)
    requires events != []
    ensures var front, last := events[..|events| - 1], events[|events| - 1];
            TriedSinceSuccess(events) <==> IsTry(last) || (TriedSinceSuccess(front) && !IsSuccess(last))
  {
    var n := |events| - 1;
    var front := events[..n];
    assert NoSuccessAfter(events, n);
    if TriedSinceSuccess(front) && !IsSuccess(events[n]) {
      var k :| 0 <= k < n && IsTry(front[k]) && NoSuccessAfter(front, k);
      assert forall j :: k < j < n ==> events[j] == front[j];
      assert IsTry(events[k]) && NoSuccessAfter(events, k);
    }
    if TriedSinceSuccess(events) && !IsTry(events[n]) {
      var k :| 0 <= k < |events| && IsTry(events[k]) && NoSuccessAfter(events, k);
      assert forall j :: k < j < n ==> events[j] == front[j];
      assert IsTry(front[k]) && NoSuccessAfter(front, k);
    }
  }

  /** The latest mark of a run. */
  function Latest(start: int, events: seq<Event>): int
  {
    if events == [] then start else events[|events| - 1].at
  }

  lemma {:induction false} MarksFollow(c: Connection, events: seq<Event>)
    requires c.connectedAt > 0 && c.lastAttemptAt == 0 && c.refreshRejectedAt == 0 && Ordered(c.connectedAt, events)
    ensures var d := Run(c, events);
            && 0 < d.connectedAt <= Latest(c.connectedAt, events)
            && 0 <= d.lastAttemptAt <= Latest(c.connectedAt, events) && 0 <= d.refreshRejectedAt <= Latest(c.connectedAt, events)
            && (TriedSinceSuccess(events) <==> d.lastAttemptAt > d.connectedAt || d.refreshRejectedAt > d.connectedAt)
  {
    if events != [] {
      MarksFollow(c, events[..|events| - 1]);
      TriedStep(events);
    }
  }

  /** Over every run of a stored connection, the cause given for its expiry is exact: the bank is named
      exactly when something was tried or refused after the last good pair. */
  lemma CauseExact(c: Connection, events: seq<Event>)
    requires c.connectedAt > 0 && c.lastAttemptAt == 0 && c.refreshRejectedAt == 0 && Ordered(c.connectedAt, events)
    ensures ExpiredCause(Run(c, events)) == BankRefused <==> TriedSinceSuccess(events)
  {
    hide Run, TriedSinceSuccess;
    MarksFollow(c, events);
  }

  // ---- Keeping alive

  /** One tick of the keep-alive: a connection in its renewal zone is renewed, and that succeeds. */
  function KeptAlive(c: Connection, now: int): Connection
  {
    if ConnectionHealth(c, now) == Due then c.(connectedAt := now, refreshRejectedAt := 0) else c
  }

  function Ticks(c: Connection, times: seq<int>): Connection
  {
    if times == [] then c else KeptAlive(Ticks(c, times[..|times| - 1]), times[|times| - 1])
  }

  /** The moment before the k-th tick: the tick before it, or the connection. */
  function Before(start: int, times: seq<int>, k: nat): int
    requires k <= |times|
  {
    if k == 0 then start else times[k - 1]
  }

  predicate CloseTo(start: int, times: seq<int>, k: nat, at: int, gap: int)
    requires k <= |times|
  {
    0 <= at - Before(start, times, k) <= gap
  }

  /** Neighbouring ticks, the connection itself and the moment of asking are never further apart than the gap. */
  predicate Dense(start: int, times: seq<int>, now: int, gap: int)
  {
    && (forall k :: 0 <= k < |times| ==> CloseTo(start, times, k, times[k], gap))
    && CloseTo(start, times, |times|, now, gap)
  }

  lemma DenseFront(start: int, times: seq<int>, now: int, gap: int)
    requires times != [] && Dense(start, times, now, gap)
    ensures var n := |times| - 1; Dense(start, times[..n], times[n], gap)
    ensures CloseTo(start, times, |times|, now, gap)
  {
    var n := |times| - 1;
    assert CloseTo(start, times, n, times[n], gap);
    forall k | 0 <= k < n ensures CloseTo(start, times[..n], k, times[..n][k], gap) {
      assert CloseTo(start, times, k, times[k], gap);
    }
  }

  /** With ticks at most half a lifetime apart, and no consent lapsed, a connection is never expired, at
      any moment of any run. */
  lemma {:induction false} KeepAliveKeepsAlive(c: Connection, times: seq<int>, now: int)
    requires c.hasRefresh && TtlMs(c.provider) > 0 && c.refreshRejectedAt == 0
    requires Dense(c.connectedAt, times, now, TtlMs(c.provider) / 2)
    requires c.consentExpiresAt <= 0 || now < c.consentExpiresAt
    ensures var d := Ticks(c, times);
            && ConnectionHealth(d, now) in {Fresh, Due}
            && d.(connectedAt := c.connectedAt) == c && 0 <= now - d.connectedAt < TtlMs(c.provider)
            && (times != [] ==> times[|times| - 1] - d.connectedAt < TtlMs(c.provider) / 2)
  {
    if times != [] {
      var n := |times| - 1;
      DenseFront(c.connectedAt, times, now, TtlMs(c.provider) / 2);
      KeepAliveKeepsAlive(c, times[..n], times[n]);
    }
  }

  // ---- Deaths with a date

  /** The marks the reaper collects, in the order it collects them. */
  method DeathMarks(c: Connection, now: int) returns (marks: seq<int>)
    ensures marks == (if ConsentExpired(c, now) then [c.consentExpiresAt] else [])
                     + (if LifetimeOver(c, now) then [c.connectedAt + TtlMs(c.provider)] else [])
  {
    marks := [];
    if ConsentExpired(c, now) {
      marks := marks + [c.consentExpiresAt];
    }
    if TtlMs(c.provider) > 0 && Measured(c.provider) && c.hasRefresh {
      var deathAt := c.connectedAt + TtlMs(c.provider);
      if now >= deathAt {
        marks := marks + [deathAt];
      }
    }
  }

  predicate LifetimeOver(c: Connection, now: int)
  {
    TtlMs(c.provider) > 0 && Measured(c.provider) && c.hasRefresh && now >= c.connectedAt + TtlMs(c.provider)
  }

  function Min(a: int, b: int): int
  {
    if a < b then a else b
  }

  function BankDeathSince(c: Connection, now: int): Option<int>
  {
    var lifetimeEnd := c.connectedAt + TtlMs(c.provider);
    if ConsentExpired(c, now) && LifetimeOver(c, now) then Some(Min(c.consentExpiresAt, lifetimeEnd))
    else if ConsentExpired(c, now) then Some(c.consentExpiresAt)
    else if LifetimeOver(c, now) then Some(lifetimeEnd)
    else None
  }

  /** `Math.min` of some marks. */
  function Least(marks: seq<int>): int
    requires marks != []
  {
    if |marks| == 1 then marks[0] else Min(marks[0], Least(marks[1..]))
  }

  method DeathSince(c: Connection, now: int) returns (since: Option<int>)
    ensures since == BankDeathSince(c, now)
  {
    var marks := DeathMarks(c, now);
    since := if marks == [] then None else Some(Least(marks));
    LeastOfTwo(c.consentExpiresAt, c.connectedAt + TtlMs(c.provider));
    assert ConsentExpired(c, now) && LifetimeOver(c, now) ==> marks == [c.consentExpiresAt, c.connectedAt + TtlMs(c.provider)];
    assert ConsentExpired(c, now) && !LifetimeOver(c, now) ==> marks == [c.consentExpiresAt];
    assert !ConsentExpired(c, now) && LifetimeOver(c, now) ==> marks == [c.connectedAt + TtlMs(c.provider)];
  }

  lemma LeastOfTwo(a: int, b: int)
    ensures Least([a]) == a && Least([b]) == b && Least([a, b]) == Min(a, b)
  {
    assert [a, b][1..] == [b];
  }

  /** The date a connection dies on, known beforehand: the earlier of the consent's end and the end of a
      measured lifetime, of those there are. */
  function DueToDie(c: Connection): Option<int>
  {
    var lifetimeEnd := c.connectedAt + TtlMs(c.provider);
    var counted := TtlMs(c.provider) > 0 && Measured(c.provider) && c.hasRefresh;
    if c.consentExpiresAt > 0 then Some(if counted then Min(c.consentExpiresAt, lifetimeEnd) else c.consentExpiresAt)
    else if counted then Some(lifetimeEnd)
    else None
  }

  /** The death date is that date once it has come, so it never moves as time goes on. */
  lemma DeathDateFixed(c: Connection, now: int, later: int)
    ensures BankDeathSince(c, now) == if DueToDie(c).Some? && DueToDie(c).value <= now then DueToDie(c) else None
    ensures now <= later && BankDeathSince(c, now).Some? ==> BankDeathSince(c, later) == BankDeathSince(c, now)
  {
  }

  datatype Reason = ConsentOver | RefreshDead | NoRefreshToken

  function DisconnectReason(c: Connection, now: int): Option<Reason>
  {
    if ConsentExpired(c, now) then Some(ConsentOver)
    else if !c.hasRefresh then Some(NoRefreshToken)
    else if TtlMs(c.provider) > 0 && Measured(c.provider) && now >= c.connectedAt + TtlMs(c.provider) then Some(RefreshDead)
    else None
  }

  /** A dated death is an expiry with a reason to disconnect. An expiry without a date, or without a
      reason, is exactly the bank's own refusal with nothing else against the connection. */
  lemma DeathsAgree(c: Connection, now: int)
    ensures BankDeathSince(c, now).Some? ==> ConnectionHealth(c, now) == Expired && DisconnectReason(c, now).Some?
    ensures var refusedOnly := c.hasRefresh && RefreshRejectedByBank(c) && !ConsentExpired(c, now) && !LifetimeOver(c, now);
            && (ConnectionHealth(c, now) == Expired && BankDeathSince(c, now).None? <==> refusedOnly)
            && (ConnectionHealth(c, now) == Expired && DisconnectReason(c, now).None? <==> refusedOnly)
            && (NeedsHuman(ConnectionHealth(c, now)) <==> DisconnectReason(c, now).Some? || refusedOnly)
  {
  }

  /** Which reason, by the marks and the clock. Only Alfa's lifetime is measured: ten hours. */
  lemma ReasonExactly(c: Connection, now: int)
    ensures var over := c.consentExpiresAt > 0 && c.consentExpiresAt <= now;
            && (DisconnectReason(c, now) == Some(ConsentOver) <==> over)
            && (DisconnectReason(c, now) == Some(NoRefreshToken) <==> !over && !c.hasRefresh)
            && (DisconnectReason(c, now) == Some(RefreshDead) <==>
                !over && c.hasRefresh && c.provider == AlfaBy && c.connectedAt + 36_000_000 <= now)
  {
  }

  /** The reason says what the state and the date say: no refresh token is a state of its own, and the other
      two are the dated deaths. */
  lemma ReasonAgrees(c: Connection, now: int)
    ensures DisconnectReason(c, now) == Some(NoRefreshToken) <==> ConnectionHealth(c, now) == NoRefresh
    ensures DisconnectReason(c, now) in {Some(ConsentOver), Some(RefreshDead)} <==> BankDeathSince(c, now).Some?
    ensures DisconnectReason(c, now) == Some(ConsentOver) ==> BankDeathSince(c, now).value <= c.consentExpiresAt
    ensures DisconnectReason(c, now) == Some(RefreshDead) ==> BankDeathSince(c, now) == Some(c.connectedAt + 36_000_000)
  {
  }

  /** The state of a connection with a token and nothing against it, by its age alone: fresh for the first
      half of its lifetime, then due; only Alfa's is known well enough to call it expired. */
  lemma HealthByAge(c: Connection, now: int)
    requires c.hasRefresh && c.consentExpiresAt == 0 && c.refreshRejectedAt == 0
    ensures var age, h := now - c.connectedAt, ConnectionHealth(c, now);
            && (c.provider == ManualUpload || age < 0 <==> h == Unknown)
            && (c.provider == AlfaBy && age >= 0 ==> h == if age < 18_000_000 then Fresh else if age < 36_000_000 then Due else Expired)
            && (c.provider == PriorBy && age >= 0 ==> h == if age < 21_600_000 then Fresh else Due)
  {
  }

  /** What goes before its age, in this order: the bank's consent, the token, the bank's refusal. */
  lemma HealthByMarks(c: Connection, now: int)
    ensures var over, h := c.consentExpiresAt > 0 && c.consentExpiresAt <= now, ConnectionHealth(c, now);
            && (over ==> h == Expired) && (h == NoRefresh <==> !over && !c.hasRefresh)
            && (!over && c.hasRefresh && c.refreshRejectedAt > c.connectedAt && c.refreshRejectedAt > 0 ==> h == Expired)
            && (!over && c.hasRefresh && (c.refreshRejectedAt <= c.connectedAt || c.refreshRejectedAt <= 0) ==>
                  h == ConnectionHealth(c.(consentExpiresAt := 0, refreshRejectedAt := 0), now))
  {
  }

  function DeadForDays(since: Option<int>, now: int): Option<int>
  {
    if since.None? then None else Some(if now < since.value then 0 else (now - since.value) / DAY_MS)
  }

  /** Whole days since the death, none before it. */
  lemma DeadDaysExactly(since: int, now: int)
    ensures DeadForDays(None, now) == None
    ensures now < since ==> DeadForDays(Some(since), now) == Some(0)
    ensures now >= since ==> exists days :: DeadForDays(Some(since), now) == Some(days) && days * 86_400_000 <= now - since < (days + 1) * 86_400_000
  {
    if now >= since {
      var days := (now - since) / 86_400_000;
      assert DeadForDays(Some(since), now) == Some(days);
    }
  }

  /** Ten hours, measured, for Alfa; twelve, not measured, for Prior; none for uploads by hand. */
  lemma LifetimesAre()
    ensures TtlMs(AlfaBy) == 36_000_000 && TtlMs(PriorBy) == 43_200_000 && TtlMs(ManualUpload) == 0
    ensures Measured(AlfaBy) && !Measured(PriorBy) && !Measured(ManualUpload)
    ensures forall p :: RefreshAtAgeMs(p) + RefreshAtAgeMs(p) == TtlMs(p)
  {
  }

  // ---- Abandoned connections

  const PENDING_PREFIX := "~pending:"

  predicate IsPendingAccountKey(key: string)
  {
    PENDING_PREFIX <= key
  }

  predicate AbandonedPending(c: Connection, accountKey: string, now: int, maxAgeDays: int)
  {
    && IsPendingAccountKey(accountKey)
    && (ConnectionHealth(c, now) == Expired || now - c.connectedAt >= (if maxAgeDays > 1 then maxAgeDays else 1) * DAY_MS)
  }

  /** Once a pending connection is abandoned it stays so; one that is not proven dead gets a full day,
      whatever the setting; and one with an account is never swept. */
  lemma AbandonedStays(c: Connection, key: string, now: int, later: int, days: int)
    requires now <= later && AbandonedPending(c, key, now, days)
    ensures AbandonedPending(c, key, later, days)
    ensures ConnectionHealth(c, now) == Expired || now - c.connectedAt >= DAY_MS
    ensures IsPendingAccountKey(key)
  {
  }

  /** A connection is abandoned while it waits for its account and its consent, token or lifetime is over, or it
      is as many days old as the setting says, one at least. */
  lemma AbandonedExactly(c: Connection, key: string, now: int, days: int)
    ensures AbandonedPending(c, key, now, days) <==>
            && "~pending:" <= key
            && (ConnectionHealth(c, now) == Expired || (days <= 1 && now - c.connectedAt >= 86_400_000)
                || (days > 1 && now - c.connectedAt >= days * 86_400_000))
  {
  }
}
