/** The operator's overview of all bank connections (app/utils/bankHealthOverview.ts): counts by state, and
    the two lists a connection can be disconnected from. Portal labels are lower-case hexadecimal digits,
    which collation orders by code unit. */
module BankHealthOverview {
  import opened Outcome
  import opened Text
  import opened BankToken
  import opened Ordering

  datatype Row = Row(id: nat, memberId: string, accountKey: string, connection: Connection)

  datatype Attention = Attention(id: nat, portalHash: string, provider: Provider, health: Health, deadDays: Option<int>)

  datatype SubscriptionDead = SubscriptionDead(id: nat, portalHash: string, provider: Provider, deadDays: int, health: Health)

  datatype Bucket = Bucket(connections: nat, portals: nat)

  /** The lists are there only when portals can be given as irreversible labels. */
  datatype Overview = Overview(byHealth: map<Health, Bucket>, pending: Bucket, total: Bucket, needAttention: nat,
                               attentionPortals: Option<seq<string>>, attention: Option<seq<Attention>>,
                               subscriptionDead: Option<seq<SubscriptionDead>>)

  function DeadDays(endedAt: int, now: int): int
  {
    if endedAt <= 0 then 0 else if now > endedAt then (now - endedAt) / DAY_MS else 0
  }

  function EndedAt(ended: map<string, int>, memberId: string): int
  {
    if memberId in ended then ended[memberId] else 0
  }

  predicate Pending(r: Row)
  {
    IsPendingAccountKey(r.accountKey)
  }

  function HealthOf(r: Row, now: int): Health
  {
    ConnectionHealth(r.connection, now)
  }

  /** Which of the five states, or pending, a row is counted in. */
  datatype Place = WaitsForAccount | InState(health: Health)

  function PlaceOf(r: Row, now: int): Place
  {
    if Pending(r) then WaitsForAccount else InState(HealthOf(r, now))
  }

  function RowAt(now: int, p: Place): Row -> Option<Row>
  {
    r => if PlaceOf(r, now) == p then Some(r) else None
  }

  function CountAt(rows: seq<Row>, now: int, p: Place): nat
  {
    |Collect(rows, RowAt(now, p))|
  }

  function PortalsAt(rows: seq<Row>, now: int, p: Place): set<string>
  {
    set r | r in rows && PlaceOf(r, now) == p :: r.memberId
  }

  predicate NeedsAttention(r: Row, now: int)
  {
    !Pending(r) && NeedsHuman(HealthOf(r, now))
  }

  /** The subscription has ended and the bank has nothing more urgent to say. */
  predicate SubscriptionOver(r: Row, now: int, ended: map<string, int>)
  {
    EndedAt(ended, r.memberId) > 0 && !NeedsAttention(r, now)
  }

  function AttentionOf(r: Row, now: int, hash: string -> string): Attention
  {
    Attention(r.id, hash(r.memberId), r.connection.provider, HealthOf(r, now), DeadForDays(BankDeathSince(r.connection, now), now))
  }

  function SubscriptionOf(r: Row, now: int, ended: map<string, int>, hash: string -> string): SubscriptionDead
  {
    SubscriptionDead(r.id, hash(r.memberId), r.connection.provider, DeadDays(EndedAt(ended, r.memberId), now),
                     if Pending(r) then Unknown else HealthOf(r, now))
  }

  function Attends(now: int, hash: string -> string): Row -> Option<Attention>
  {
    r => if NeedsAttention(r, now) then Some(AttentionOf(r, now, hash)) else None
  }

  function Subscribes(now: int, ended: map<string, int>, hash: string -> string): Row -> Option<SubscriptionDead>
  {
    r => if SubscriptionOver(r, now, ended) then Some(SubscriptionOf(r, now, ended, hash)) else None
  }

  /** The portals that need someone, in the order of their first rows. */
  function AttentionMembers(rows: seq<Row>, now: int): seq<string>
  {
    if rows == [] then []
    else
      var before, r := AttentionMembers(rows[..|rows| - 1], now), rows[|rows| - 1];
      if NeedsAttention(r, now) && r.memberId !in before then before + [r.memberId] else before
  }

  function HealthName(h: Health): string
  {
    match h
    case Fresh => "ok"
    case Due => "due"
    case Expired => "expired"
    case NoRefresh => "no-refresh"
    case Unknown => "unknown"
  }

  predicate AttentionBefore(a: Attention, b: Attention)
  {
    if a.health != b.health then StrLess(HealthName(a.health), HealthName(b.health))
    else if a.portalHash != b.portalHash then StrLess(a.portalHash, b.portalHash)
    else a.id < b.id
  }

  predicate SubscriptionBefore(a: SubscriptionDead, b: SubscriptionDead)
  {
    if a.deadDays != b.deadDays then a.deadDays > b.deadDays
    else if a.portalHash != b.portalHash then StrLess(a.portalHash, b.portalHash)
    else a.id < b.id
  }

  function Label(hash: string -> string): string -> Option<string>
  {
    m => Some(hash(m))
  }

  function Labels(rows: seq<Row>, now: int, hash: string -> string): seq<string>
  {
    Sorted(Collect(AttentionMembers(rows, now), Label(hash)), StrLess)
  }

  function AttentionList(rows: seq<Row>, now: int, hash: string -> string): seq<Attention>
  {
    Sorted(Collect(rows, Attends(now, hash)), AttentionBefore)
  }

  function SubscriptionList(rows: seq<Row>, now: int, ended: map<string, int>, hash: string -> string): seq<SubscriptionDead>
  {
    Sorted(Collect(rows, Subscribes(now, ended, hash)), SubscriptionBefore)
  }

  function AttentionPortals(rows: seq<Row>, now: int): set<string>
  {
    set r | r in rows && NeedsAttention(r, now) :: r.memberId
  }

  function AllPortals(rows: seq<Row>): set<string>
  {
    set r | r in rows :: r.memberId
  }

  function BucketAt(rows: seq<Row>, now: int, p: Place): Bucket
  {
    Bucket(CountAt(rows, now, p), |PortalsAt(rows, now, p)|)
  }

  function StateBuckets(rows: seq<Row>, now: int): map<Health, Bucket>
  {
    map[Fresh := BucketAt(rows, now, InState(Fresh)), Due := BucketAt(rows, now, InState(Due)),
        Expired := BucketAt(rows, now, InState(Expired)), NoRefresh := BucketAt(rows, now, InState(NoRefresh)),
        Unknown := BucketAt(rows, now, InState(Unknown))]
  }

  function Summary(rows: seq<Row>, now: int, hash: Option<string -> string>, ended: map<string, int>): Overview
  {
    Overview(StateBuckets(rows, now), BucketAt(rows, now, WaitsForAccount), Bucket(|rows|, |AllPortals(rows)|),
             |AttentionPortals(rows, now)|,
             if hash.Some? then Some(Labels(rows, now, hash.value)) else None,
             if hash.Some? then Some(AttentionList(rows, now, hash.value)) else None,
             if hash.Some? && SubscriptionList(rows, now, ended, hash.value) != []
             then Some(SubscriptionList(rows, now, ended, hash.value)) else None)
  }

  /** The running counters: connections and portals by place. */
  datatype Tally = Tally(counts: map<Place, nat>, portals: map<Place, set<string>>)

  const NO_TALLY := Tally(
    map[WaitsForAccount := 0, InState(Fresh) := 0, InState(Due) := 0, InState(Expired) := 0, InState(NoRefresh) := 0, InState(Unknown) := 0],
    map[WaitsForAccount := {}, InState(Fresh) := {}, InState(Due) := {}, InState(Expired) := {}, InState(NoRefresh) := {},
        InState(Unknown) := {}])

  ghost predicate Exact(t: Tally, rows: seq<Row>, now: int)
  {
    forall p :: p in t.counts && p in t.portals && t.counts[p] == CountAt(rows, now, p) && t.portals[p] == PortalsAt(rows, now, p)
  }

  lemma EmptyExact(now: int)
    ensures Exact(NO_TALLY, [], now)
  {
    forall p: Place ensures p in NO_TALLY.counts && p in NO_TALLY.portals && NO_TALLY.counts[p] == 0 && NO_TALLY.portals[p] == {} {
      match p
      case WaitsForAccount =>
      case InState(health) =>
        match health
        case Fresh =>
        case Due =>
        case Expired =>
        case NoRefresh =>
        case Unknown =>
    }
  }

  method Counted(t: Tally, p: Place, memberId: string) returns (u: Tally)
    requires p in t.counts && p in t.portals
    ensures u == Tally(t.counts[p := t.counts[p] + 1], t.portals[p := t.portals[p] + {memberId}])
  {
    u := Tally(t.counts[p := t.counts[p] + 1], t.portals[p := t.portals[p] + {memberId}]);
  }

  lemma CountStep(rows: seq<Row>, r: Row, now: int, p: Place)
    ensures CountAt(rows + [r], now, p) == CountAt(rows, now, p) + if PlaceOf(r, now) == p then 1 else 0
    ensures PortalsAt(rows + [r], now, p) == PortalsAt(rows, now, p) + if PlaceOf(r, now) == p then {r.memberId} else {}
  {
    hide PlaceOf;
    var more := rows + [r];
    assert more[..|rows|] == rows && more[|rows|] == r;
    assert r in more;
    forall x | x in more ensures x in rows || x == r {
    }
  }

  lemma CountedExact(t: Tally, rows: seq<Row>, r: Row, now: int)
    requires Exact(t, rows, now)
    ensures var p := PlaceOf(r, now);
            Exact(Tally(t.counts[p := t.counts[p] + 1], t.portals[p := t.portals[p] + {r.memberId}]), rows + [r], now)
  {
    hide PlaceOf, CountAt, PortalsAt;
    forall p: Place ensures
        && CountAt(rows + [r], now, p) == CountAt(rows, now, p) + (if PlaceOf(r, now) == p then 1 else 0)
        && PortalsAt(rows + [r], now, p) == PortalsAt(rows, now, p) + if PlaceOf(r, now) == p then {r.memberId} else {}
    {
      CountStep(rows, r, now, p);
    }
  }

  lemma ListsStep(rows: seq<Row>, r: Row, now: int, hash: Option<string -> string>, ended: map<string, int>)
    ensures AllPortals(rows + [r]) == AllPortals(rows) + {r.memberId}
    ensures AttentionMembers(rows + [r], now) ==
            var before := AttentionMembers(rows, now);
            if NeedsAttention(r, now) && r.memberId !in before then before + [r.memberId] else before
    ensures hash.Some? ==>
              && Collect(rows + [r], Attends(now, hash.value)) ==
                 Collect(rows, Attends(now, hash.value)) + (if NeedsAttention(r, now) then [AttentionOf(r, now, hash.value)] else [])
              && Collect(rows + [r], Subscribes(now, ended, hash.value)) ==
                 Collect(rows, Subscribes(now, ended, hash.value))
                 + (if SubscriptionOver(r, now, ended) then [SubscriptionOf(r, now, ended, hash.value)] else [])
  {
    hide NeedsAttention, SubscriptionOver, AttentionOf, SubscriptionOf;
    var more := rows + [r];
    assert more[..|more| - 1] == rows && more[|more| - 1] == r;
    forall x | x in more ensures x in rows || x == r {
    }
  }

  /** One pass over the rows; the lists are sorted at the end. */
  method SummarizeBankHealth(rows: seq<Row>, now: int, hash: Option<string -> string>, ended: map<string, int>)
    returns (overview: Overview)
    ensures overview == Summary(rows, now, hash, ended)
  {
    hide ConnectionHealth, BankDeathSince, IsPendingAccountKey, CountAt, PortalsAt, AllPortals, NO_TALLY, DeadDays, Sorted, Collect,
         AttentionMembers, AttentionPortals;
    var tally := NO_TALLY;
    var attentionPortals, allPortals, attention, subscriptionDead := [], {}, [], [];
    EmptyExact(now);
    NothingListed(now, hash, ended);
    for i := 0 to |rows|
      invariant Exact(tally, rows[..i], now)
      invariant attentionPortals == AttentionMembers(rows[..i], now) && allPortals == AllPortals(rows[..i])
      invariant hash.Some? ==> attention == Collect(rows[..i], Attends(now, hash.value))
                               && subscriptionDead == Collect(rows[..i], Subscribes(now, ended, hash.value))
    {
      var r := rows[i];
      assert rows[..i + 1] == rows[..i] + [r];
      CountedExact(tally, rows[..i], r, now);
      ListsStep(rows[..i], r, now, hash, ended);
      allPortals := allPortals + {r.memberId};
      var subEnded := EndedAt(ended, r.memberId);
      tally := Counted(tally, PlaceOf(r, now), r.memberId);
      if Pending(r) {
        if hash.Some? && subEnded > 0 {
          subscriptionDead := subscriptionDead
            + [SubscriptionDead(r.id, hash.value(r.memberId), r.connection.provider, DeadDays(subEnded, now), Unknown)];
        }
        continue;
      }
      var health := HealthOf(r, now);
      if hash.Some? && !NeedsHuman(health) && subEnded > 0 {
        subscriptionDead := subscriptionDead
          + [SubscriptionDead(r.id, hash.value(r.memberId), r.connection.provider, DeadDays(subEnded, now), health)];
      }
      if NeedsHuman(health) {
        if r.memberId !in attentionPortals {
          attentionPortals := attentionPortals + [r.memberId];
        }
        if hash.Some? {
          attention := attention + [AttentionOf(r, now, hash.value)];
        }
      }
    }
    assert rows[..|rows|] == rows;
    MembersExactly(rows, now);
    if hash.Some? {
      SortedSame(subscriptionDead, SubscriptionBefore);
    }
    var byHealth := Buckets(tally);
    overview := Overview(byHealth, BucketOf(tally, WaitsForAccount), Bucket(|rows|, |allPortals|), |attentionPortals|,
                         if hash.Some? then Some(Sorted(Collect(attentionPortals, Label(hash.value)), StrLess)) else None,
                         if hash.Some? then Some(Sorted(attention, AttentionBefore)) else None,
                         if hash.Some? && subscriptionDead != [] then Some(Sorted(subscriptionDead, SubscriptionBefore)) else None);
  }

  lemma {:induction false} MembersExactly(rows: seq<Row>, now: int)
    ensures var members := AttentionMembers(rows, now);
            NoRepeats(members) && (forall m :: m in members <==> m in AttentionPortals(rows, now)) && |members| == |AttentionPortals(rows, now)|
  {
    hide NeedsAttention, AttentionPortals;
    var members := AttentionMembers(rows, now);
    if rows == [] {
      NobodyAttends(now);
    } else {
      var n := |rows| - 1;
      MembersExactly(rows[..n], now);
      PortalsStep(rows[..n], rows[n], now);
      assert rows == rows[..n] + [rows[n]];
    }
    SetOfDistinct(members, AttentionPortals(rows, now));
  }

  lemma SetOfDistinct(members: seq<string>, portals: set<string>)
    requires NoRepeats(members) && forall m :: m in members <==> m in portals
    ensures |members| == |portals|
  {
    CountOfDistinct(members);
    assert (set m | m in members) == portals;
  }

  lemma NobodyAttends(now: int)
    ensures AttentionPortals([], now) == {}
  {
  }

  lemma PortalsStep(rows: seq<Row>, r: Row, now: int)
    ensures AttentionPortals(rows + [r], now) == AttentionPortals(rows, now) + if NeedsAttention(r, now) then {r.memberId} else {}
  {
    hide NeedsAttention;
    forall x | x in rows + [r] ensures x in rows || x == r {
    }
    assert r in rows + [r];
  }

  function BucketOf(t: Tally, p: Place): Bucket
    requires p in t.counts && p in t.portals
  {
    Bucket(t.counts[p], |t.portals[p]|)
  }

  function Buckets(t: Tally): map<Health, Bucket>
    requires forall h :: InState(h) in t.counts && InState(h) in t.portals
  {
    map[Fresh := BucketOf(t, InState(Fresh)), Due := BucketOf(t, InState(Due)), Expired := BucketOf(t, InState(Expired)),
        NoRefresh := BucketOf(t, InState(NoRefresh)), Unknown := BucketOf(t, InState(Unknown))]
  }

  lemma NothingListed(now: int, hash: Option<string -> string>, ended: map<string, int>)
    ensures AttentionMembers([], now) == [] && AllPortals([]) == {}
    ensures hash.Some? ==> Collect([], Attends(now, hash.value)) == [] && Collect([], Subscribes(now, ended, hash.value)) == []
  {
  }

  // ---- What the overview says

  function UnhealthyConnections(o: Overview): nat
    requires Expired in o.byHealth && NoRefresh in o.byHealth
  {
    o.byHealth[Expired].connections + o.byHealth[NoRefresh].connections
  }

  /** Every row is counted once: in one of the five states, or as waiting for its account. */
  lemma {:induction false} EveryRowCounted(rows: seq<Row>, now: int)
    ensures |rows| == CountAt(rows, now, WaitsForAccount) + CountAt(rows, now, InState(Fresh)) + CountAt(rows, now, InState(Due))
                      + CountAt(rows, now, InState(Expired)) + CountAt(rows, now, InState(NoRefresh)) + CountAt(rows, now, InState(Unknown))
  {
    hide PlaceOf, CountAt;
    if rows == [] {
      NoneCounted(now);
    } else {
      var n := |rows| - 1;
      EveryRowCounted(rows[..n], now);
      assert rows == rows[..n] + [rows[n]];
      forall p: Place ensures CountAt(rows, now, p) == CountAt(rows[..n], now, p) + if PlaceOf(rows[n], now) == p then 1 else 0 {
        CountStep(rows[..n], rows[n], now, p);
      }
      match PlaceOf(rows[n], now)
      case WaitsForAccount =>
      case InState(health) =>
        match health
        case Fresh =>
        case Due =>
        case Expired =>
        case NoRefresh =>
        case Unknown =>
    }
  }

  lemma NoneCounted(now: int)
    ensures forall p :: CountAt([], now, p) == 0
  {
  }

  lemma {:induction false} AttentionCount(rows: seq<Row>, now: int, hash: string -> string)
    ensures |Collect(rows, Attends(now, hash))| == CountAt(rows, now, InState(Expired)) + CountAt(rows, now, InState(NoRefresh))
  {
    hide ConnectionHealth, BankDeathSince, IsPendingAccountKey, CountAt, AttentionOf;
    if rows == [] {
      NoneCounted(now);
    } else {
      var n := |rows| - 1;
      AttentionCount(rows[..n], now, hash);
      assert rows == rows[..n] + [rows[n]];
      CountStep(rows[..n], rows[n], now, InState(Expired));
      CountStep(rows[..n], rows[n], now, InState(NoRefresh));
    }
  }

  /** The states and the waiting rows partition all rows; the attention list has exactly as many entries
      as there are unhealthy connections, and as many labels as there are portals behind them. */
  lemma OverviewAddsUp(rows: seq<Row>, now: int, hash: Option<string -> string>, ended: map<string, int>)
    ensures var o := Summary(rows, now, hash, ended);
            && o.total.connections == o.pending.connections + o.byHealth[Fresh].connections + o.byHealth[Due].connections
                                      + o.byHealth[Expired].connections + o.byHealth[NoRefresh].connections
                                      + o.byHealth[Unknown].connections
            && (hash.Some? ==> o.attention.Some? && |o.attention.value| == UnhealthyConnections(o)
                               && o.attentionPortals.Some? && |o.attentionPortals.value| == o.needAttention)
            && (hash.None? ==> o.attentionPortals.None? && o.attention.None? && o.subscriptionDead.None?)
  {
    hide CountAt, PortalsAt, Collect, Sorted, SubscriptionList, AttentionMembers, AttentionPortals;
    EveryRowCounted(rows, now);
    if hash.Some? {
      AttentionCount(rows, now, hash.value);
      SortedSame(Collect(rows, Attends(now, hash.value)), AttentionBefore);
      MembersExactly(rows, now);
      LabelEach(AttentionMembers(rows, now), hash.value);
      SortedSame(Collect(AttentionMembers(rows, now), Label(hash.value)), StrLess);
    }
  }

  lemma {:induction false} LabelEach(members: seq<string>, hash: string -> string)
    ensures |Collect(members, Label(hash))| == |members|
  {
    if members != [] {
      LabelEach(members[..|members| - 1], hash);
    }
  }

  ghost predicate DistinctRows(rows: seq<Row>)
  {
    forall i, j :: 0 <= i < j < |rows| ==> rows[i].id != rows[j].id
  }

  /** The labels are those of the portals on the attention list, and of no others. */
  lemma LabelsExactly(rows: seq<Row>, now: int, hash: string -> string, l: string)
    ensures l in Labels(rows, now, hash) <==> exists a :: a in AttentionList(rows, now, hash) && a.portalHash == l
  {
    hide NeedsAttention, HealthOf, DeadForDays, Sorted, Collect, AttentionMembers;
    var members := AttentionMembers(rows, now);
    SortedSame(Collect(members, Label(hash)), StrLess);
    SortedSame(Collect(rows, Attends(now, hash)), AttentionBefore);
    MembersExactly(rows, now);
    if l in Labels(rows, now, hash) {
      CollectedFrom(members, Label(hash), l);
      var k :| 0 <= k < |members| && Label(hash)(members[k]) == Some(l);
      assert members[k] in AttentionPortals(rows, now);
      var r :| r in rows && NeedsAttention(r, now) && r.memberId == members[k];
      var i :| 0 <= i < |rows| && rows[i] == r;
      CollectedAll(rows, Attends(now, hash), i);
      assert AttentionOf(r, now, hash) in AttentionList(rows, now, hash);
    }
    if a :| a in AttentionList(rows, now, hash) && a.portalHash == l {
      CollectedFrom(rows, Attends(now, hash), a);
      var k :| 0 <= k < |rows| && Attends(now, hash)(rows[k]) == Some(a);
      assert rows[k].memberId in AttentionPortals(rows, now);
      var i :| 0 <= i < |members| && members[i] == rows[k].memberId;
      CollectedAll(members, Label(hash), i);
    }
  }

  /** No connection is offered for disconnection twice: the two lists share no row. */
  lemma ListsShareNoRow(rows: seq<Row>, now: int, ended: map<string, int>, hash: string -> string, a: Attention, d: SubscriptionDead)
    requires DistinctRows(rows) && a in AttentionList(rows, now, hash) && d in SubscriptionList(rows, now, ended, hash)
    ensures a.id != d.id
  {
    hide NeedsAttention, HealthOf, DeadForDays, DeadDays, Sorted, Collect, Pending;
    SortedSame(Collect(rows, Attends(now, hash)), AttentionBefore);
    SortedSame(Collect(rows, Subscribes(now, ended, hash)), SubscriptionBefore);
    CollectedFrom(rows, Attends(now, hash), a);
    CollectedFrom(rows, Subscribes(now, ended, hash), d);
    var i :| 0 <= i < |rows| && Attends(now, hash)(rows[i]) == Some(a);
    var j :| 0 <= j < |rows| && Subscribes(now, ended, hash)(rows[j]) == Some(d);
  }

  // ---- Order of the rows

  lemma AttentionOrders(rows: seq<Row>, now: int, hash: string -> string)
    requires DistinctRows(rows)
    ensures Orders(Collect(rows, Attends(now, hash)), AttentionBefore)
  {
    hide NeedsAttention, AttentionOf, Collect, HealthName, StrLess, Pending, HealthOf;
    var list := Collect(rows, Attends(now, hash));
    forall a, b | a in list && b in list && a.id == b.id ensures a == b {
      CollectedFrom(rows, Attends(now, hash), a);
      CollectedFrom(rows, Attends(now, hash), b);
      var i :| 0 <= i < |rows| && Attends(now, hash)(rows[i]) == Some(a);
      var j :| 0 <= j < |rows| && Attends(now, hash)(rows[j]) == Some(b);
      AttentionIds(rows[i], now, hash);
      AttentionIds(rows[j], now, hash);
    }
    forall a, b | a in list && b in list
      ensures (a == b || AttentionBefore(a, b) || AttentionBefore(b, a)) && !(AttentionBefore(a, b) && AttentionBefore(b, a))
    {
      StrTrichotomy(a.portalHash, b.portalHash);
      NamesApart(a.health, b.health);
    }
    forall a, b, c | a in list && b in list && c in list && AttentionBefore(a, b) && AttentionBefore(b, c) ensures AttentionBefore(a, c)
    {
      AttentionTransitive(a, b, c);
    }
  }

  lemma AttentionIds(r: Row, now: int, hash: string -> string)
    ensures AttentionOf(r, now, hash).id == r.id
  {
  }

  lemma NamesApart(g: Health, h: Health)
    ensures g != h ==> StrLess(HealthName(g), HealthName(h)) || StrLess(HealthName(h), HealthName(g))
    ensures !(StrLess(HealthName(g), HealthName(h)) && StrLess(HealthName(h), HealthName(g)))
  {
    hide StrLess;
    StrTrichotomy(HealthName(g), HealthName(h));
  }

  lemma AttentionTransitive(a: Attention, b: Attention, c: Attention)
    requires AttentionBefore(a, b) && AttentionBefore(b, c)
    ensures AttentionBefore(a, c)
  {
    hide StrLess, HealthName;
    NamesApart(a.health, b.health);
    NamesApart(b.health, c.health);
    if a.health != b.health && b.health != c.health {
      StrTransitive(HealthName(a.health), HealthName(b.health), HealthName(c.health));
    }
    StrTrichotomy(a.portalHash, b.portalHash);
    StrTrichotomy(b.portalHash, c.portalHash);
    if StrLess(a.portalHash, b.portalHash) && StrLess(b.portalHash, c.portalHash) {
      StrTransitive(a.portalHash, b.portalHash, c.portalHash);
    }
  }

  lemma SubscriptionOrders(rows: seq<Row>, now: int, ended: map<string, int>, hash: string -> string)
    requires DistinctRows(rows)
    ensures Orders(Collect(rows, Subscribes(now, ended, hash)), SubscriptionBefore)
  {
    hide SubscriptionOver, SubscriptionOf, Collect, StrLess;
    var list := Collect(rows, Subscribes(now, ended, hash));
    forall a, b | a in list && b in list && a.id == b.id ensures a == b {
      CollectedFrom(rows, Subscribes(now, ended, hash), a);
      CollectedFrom(rows, Subscribes(now, ended, hash), b);
      var i :| 0 <= i < |rows| && Subscribes(now, ended, hash)(rows[i]) == Some(a);
      var j :| 0 <= j < |rows| && Subscribes(now, ended, hash)(rows[j]) == Some(b);
      SubscriptionIds(rows[i], now, ended, hash);
      SubscriptionIds(rows[j], now, ended, hash);
    }
    forall a, b | a in list && b in list
      ensures (a == b || SubscriptionBefore(a, b) || SubscriptionBefore(b, a)) && !(SubscriptionBefore(a, b) && SubscriptionBefore(b, a))
    {
      StrTrichotomy(a.portalHash, b.portalHash);
    }
    forall a, b, c | a in list && b in list && c in list && SubscriptionBefore(a, b) && SubscriptionBefore(b, c) ensures SubscriptionBefore(a, c)
    {
      SubscriptionTransitive(a, b, c);
    }
  }

  lemma SubscriptionIds(r: Row, now: int, ended: map<string, int>, hash: string -> string)
    ensures SubscriptionOf(r, now, ended, hash).id == r.id
  {
  }

  lemma SubscriptionTransitive(a: SubscriptionDead, b: SubscriptionDead, c: SubscriptionDead)
    requires SubscriptionBefore(a, b) && SubscriptionBefore(b, c)
    ensures SubscriptionBefore(a, c)
  {
    hide StrLess;
    StrTrichotomy(a.portalHash, b.portalHash);
    StrTrichotomy(b.portalHash, c.portalHash);
    if StrLess(a.portalHash, b.portalHash) && StrLess(b.portalHash, c.portalHash) {
      StrTransitive(a.portalHash, b.portalHash, c.portalHash);
    }
  }

  lemma LabelsAlike(rows: seq<Row>, others: seq<Row>, now: int, hash: string -> string)
    requires multiset(rows) == multiset(others)
    ensures Labels(rows, now, hash) == Labels(others, now, hash) && AttentionPortals(rows, now) == AttentionPortals(others, now)
  {
    hide NeedsAttention, Collect, Sorted, AttentionMembers, StrLess;
    InBoth(rows, others);
    assert AttentionPortals(rows, now) == AttentionPortals(others, now);
    MembersExactly(rows, now);
    MembersExactly(others, now);
    SameElements(AttentionMembers(rows, now), AttentionMembers(others, now));
    CollectPermuted(AttentionMembers(rows, now), AttentionMembers(others, now), Label(hash));
    TextOrders(Collect(AttentionMembers(rows, now), Label(hash)));
    SortedAlike(Collect(AttentionMembers(rows, now), Label(hash)), Collect(AttentionMembers(others, now), Label(hash)), StrLess);
  }

  lemma BucketsAlike(rows: seq<Row>, others: seq<Row>, now: int, p: Place)
    requires multiset(rows) == multiset(others)
    ensures BucketAt(rows, now, p) == BucketAt(others, now, p)
  {
    hide PlaceOf, Collect;
    InBoth(rows, others);
    assert PortalsAt(rows, now, p) == PortalsAt(others, now, p);
    CollectPermuted(rows, others, RowAt(now, p));
    SameLength(Collect(rows, RowAt(now, p)), Collect(others, RowAt(now, p)));
  }

  /** The overview does not depend on the order the rows come in. */
  lemma OverviewOrderIrrelevant(rows: seq<Row>, others: seq<Row>, now: int, hash: Option<string -> string>, ended: map<string, int>)
    requires DistinctRows(rows) && multiset(rows) == multiset(others)
    ensures Summary(rows, now, hash, ended) == Summary(others, now, hash, ended)
  {
    hide BucketAt, Collect, Sorted, Labels, AttentionPortals, DistinctRows, AttentionBefore, SubscriptionBefore;
    InBoth(rows, others);
    SameLength(rows, others);
    assert AllPortals(rows) == AllPortals(others);
    forall p: Place ensures BucketAt(rows, now, p) == BucketAt(others, now, p) {
      BucketsAlike(rows, others, now, p);
    }
    LabelsAlike(rows, others, now, m => m);
    if hash.Some? {
      LabelsAlike(rows, others, now, hash.value);
      AttentionOrders(rows, now, hash.value);
      CollectPermuted(rows, others, Attends(now, hash.value));
      SortedAlike(Collect(rows, Attends(now, hash.value)), Collect(others, Attends(now, hash.value)), AttentionBefore);
      SubscriptionOrders(rows, now, ended, hash.value);
      CollectPermuted(rows, others, Subscribes(now, ended, hash.value));
      SortedAlike(Collect(rows, Subscribes(now, ended, hash.value)), Collect(others, Subscribes(now, ended, hash.value)), SubscriptionBefore);
    }
  }

  /** The attention list shows what has expired ahead of what has no refresh token. */
  lemma ExpiredFirst(rows: seq<Row>, now: int, hash: string -> string, i: nat, j: nat)
    requires DistinctRows(rows) && i < j < |AttentionList(rows, now, hash)|
    ensures !(AttentionList(rows, now, hash)[i].health == NoRefresh && AttentionList(rows, now, hash)[j].health == Expired)
  {
    hide Sorted, Collect, DistinctRows, Orders;
    AttentionOrders(rows, now, hash);
    OrdersWeakly(Collect(rows, Attends(now, hash)), AttentionBefore);
    SortedAscends(Collect(rows, Attends(now, hash)), AttentionBefore);
    assert StrLess("expired", "no-refresh");
  }

  // ---- The figures and the entries, row by row

  /** Expired and without a refresh token, among the rows that have an account. */
  predicate Broken(r: Row, now: int)
  {
    && !("~pending:" <= r.accountKey)
    && (ConnectionHealth(r.connection, now) == Expired || ConnectionHealth(r.connection, now) == NoRefresh)
  }

  lemma BrokenAttends(r: Row, now: int)
    ensures NeedsAttention(r, now) <==> Broken(r, now)
  {
    hide ConnectionHealth;
  }

  ghost function Positions(rows: seq<Row>, now: int, p: Place): set<nat>
  {
    set i: nat | i < |rows| && PlaceOf(rows[i], now) == p
  }

  lemma PositionsStep(rows: seq<Row>, r: Row, now: int, p: Place)
    ensures Positions(rows + [r], now, p) == Positions(rows, now, p) + if PlaceOf(r, now) == p then {|rows|} else {}
  {
    hide PlaceOf;
    forall i: nat | i <= |rows| ensures (rows + [r])[i] == if i < |rows| then rows[i] else r {
    }
  }

  lemma {:induction false} PositionsCounted(rows: seq<Row>, now: int, p: Place)
    ensures CountAt(rows, now, p) == |Positions(rows, now, p)|
  {
    hide PlaceOf, CountAt;
    if rows == [] {
      NoneCounted(now);
      assert Positions(rows, now, p) == {};
    } else {
      hide Positions;
      var rest, last := rows[..|rows| - 1], rows[|rows| - 1];
      assert rest + [last] == rows;
      PositionsCounted(rest, now, p);
      CountStep(rest, last, now, p);
      PositionsStep(rest, last, now, p);
      NotYetThere(rest, now, p);
      var before := Positions(rest, now, p);
      assert |before + {|rest|}| == |before| + 1;
    }
  }

  lemma NotYetThere(rows: seq<Row>, now: int, p: Place)
    ensures |rows| !in Positions(rows, now, p)
  {
  }

  /** The waiting rows are counted by the rows alone, a portal once however many rows it has. */
  lemma PendingExactly(rows: seq<Row>, now: int, hash: Option<string -> string>, ended: map<string, int>)
    ensures var o := Summary(rows, now, hash, ended);
            && o.pending.connections == |set i: nat | i < |rows| && "~pending:" <= rows[i].accountKey|
            && o.pending.portals == |set r | r in rows && "~pending:" <= r.accountKey :: r.memberId|
  {
    hide ConnectionHealth, CountAt, Labels, AttentionList, SubscriptionList, AttentionPortals, StateBuckets, AllPortals;
    PositionsCounted(rows, now, WaitsForAccount);
    assert Positions(rows, now, WaitsForAccount) == set i: nat | i < |rows| && "~pending:" <= rows[i].accountKey;
    assert PortalsAt(rows, now, WaitsForAccount) == set r | r in rows && "~pending:" <= r.accountKey :: r.memberId;
  }

  /** Every other row is counted in the state it is in. */
  lemma StatesExactly(rows: seq<Row>, now: int, hash: Option<string -> string>, ended: map<string, int>, h: Health)
    ensures var o := Summary(rows, now, hash, ended);
            && h in o.byHealth
            && o.byHealth[h].connections
               == |set i: nat | i < |rows| && !("~pending:" <= rows[i].accountKey) && ConnectionHealth(rows[i].connection, now) == h|
            && o.byHealth[h].portals
               == |set r | r in rows && !("~pending:" <= r.accountKey) && ConnectionHealth(r.connection, now) == h :: r.memberId|
  {
    hide ConnectionHealth, Labels, AttentionList, SubscriptionList, AttentionPortals, AllPortals;
    StateListed(rows, now, h);
    hide CountAt, StateBuckets;
    PositionsCounted(rows, now, InState(h));
    assert Positions(rows, now, InState(h))
        == set i: nat | i < |rows| && !("~pending:" <= rows[i].accountKey) && ConnectionHealth(rows[i].connection, now) == h;
    assert PortalsAt(rows, now, InState(h))
        == set r | r in rows && !("~pending:" <= r.accountKey) && ConnectionHealth(r.connection, now) == h :: r.memberId;
  }

  lemma StateListed(rows: seq<Row>, now: int, h: Health)
    ensures h in StateBuckets(rows, now) && StateBuckets(rows, now)[h] == BucketAt(rows, now, InState(h))
  {
    hide BucketAt;
    match h
    case Fresh =>
    case Due =>
    case Expired =>
    case NoRefresh =>
    case Unknown =>
  }

  /** All rows, all portals, and the portals that need someone. */
  lemma TotalsExactly(rows: seq<Row>, now: int, hash: Option<string -> string>, ended: map<string, int>)
    ensures var o := Summary(rows, now, hash, ended);
            && o.total == Bucket(|rows|, |set r | r in rows :: r.memberId|)
            && o.needAttention == |set r | r in rows && Broken(r, now) :: r.memberId|
  {
    hide Broken, NeedsAttention, Labels, AttentionList, SubscriptionList, StateBuckets, BucketAt;
    forall r: Row ensures NeedsAttention(r, now) <==> Broken(r, now) {
      BrokenAttends(r, now);
    }
    assert AttentionPortals(rows, now) == set r | r in rows && Broken(r, now) :: r.memberId;
  }

  /** The attention list holds exactly the broken connections, each as it stands. */
  lemma AttentionExactly(rows: seq<Row>, now: int, hash: string -> string, a: Attention)
    ensures a in AttentionList(rows, now, hash) <==>
            exists r :: r in rows && Broken(r, now) && a.id == r.id && a.portalHash == hash(r.memberId)
                        && a.provider == r.connection.provider && a.health == ConnectionHealth(r.connection, now)
                        && a.deadDays == DeadForDays(BankDeathSince(r.connection, now), now)
  {
    hide ConnectionHealth, DeadForDays, BankDeathSince, Sorted, Collect, Broken, NeedsAttention;
    SortedSame(Collect(rows, Attends(now, hash)), AttentionBefore);
    if a in AttentionList(rows, now, hash) {
      CollectedFrom(rows, Attends(now, hash), a);
      var k :| 0 <= k < |rows| && Attends(now, hash)(rows[k]) == Some(a);
      BrokenAttends(rows[k], now);
      assert rows[k] in rows;
    }
    if r :| r in rows && Broken(r, now) && a.id == r.id && a.portalHash == hash(r.memberId)
            && a.provider == r.connection.provider && a.health == ConnectionHealth(r.connection, now)
            && a.deadDays == DeadForDays(BankDeathSince(r.connection, now), now) {
      BrokenAttends(r, now);
      var k :| 0 <= k < |rows| && rows[k] == r;
      CollectedAll(rows, Attends(now, hash), k);
      assert AttentionOf(r, now, hash) == a;
    }
  }

  /** The connections of a portal whose subscription is over are exactly those on the other list, unless broken:
      a connection without an account is shown there with no state of its own. */
  lemma SubscriptionsExactly(rows: seq<Row>, now: int, ended: map<string, int>, hash: string -> string, d: SubscriptionDead)
    ensures d in SubscriptionList(rows, now, ended, hash) <==>
            exists r :: r in rows && !Broken(r, now) && r.memberId in ended && ended[r.memberId] > 0
                        && d.id == r.id && d.portalHash == hash(r.memberId) && d.provider == r.connection.provider
                        && d.deadDays == WholeDays(ended[r.memberId], now)
                        && d.health == if "~pending:" <= r.accountKey then Unknown else ConnectionHealth(r.connection, now)
  {
    hide ConnectionHealth, Sorted, Collect, Broken, NeedsAttention;
    SortedSame(Collect(rows, Subscribes(now, ended, hash)), SubscriptionBefore);
    if d in SubscriptionList(rows, now, ended, hash) {
      CollectedFrom(rows, Subscribes(now, ended, hash), d);
      var k :| 0 <= k < |rows| && Subscribes(now, ended, hash)(rows[k]) == Some(d);
      BrokenAttends(rows[k], now);
      assert rows[k] in rows;
    }
    if r :| r in rows && !Broken(r, now) && r.memberId in ended && ended[r.memberId] > 0
            && d.id == r.id && d.portalHash == hash(r.memberId) && d.provider == r.connection.provider
            && d.deadDays == WholeDays(ended[r.memberId], now)
            && d.health == if "~pending:" <= r.accountKey then Unknown else ConnectionHealth(r.connection, now) {
      BrokenAttends(r, now);
      var k :| 0 <= k < |rows| && rows[k] == r;
      CollectedAll(rows, Subscribes(now, ended, hash), k);
      assert SubscriptionOf(r, now, ended, hash) == d;
    }
  }

  /** Whole days since an instant, none before it. */
  function WholeDays(since: int, now: int): (days: int)
    ensures now <= since ==> days == 0
    ensures now > since ==> days * 86_400_000 <= now - since < (days + 1) * 86_400_000
  {
    if now > since then (now - since) / 86_400_000 else 0
  }

  /** A connection whose portal has been silent longer stands first, and equal ones go by label and then by id. */
  lemma LongestSilentFirst(rows: seq<Row>, now: int, ended: map<string, int>, hash: string -> string, i: nat, j: nat)
    requires DistinctRows(rows) && i < j < |SubscriptionList(rows, now, ended, hash)|
    ensures var d, e := SubscriptionList(rows, now, ended, hash)[i], SubscriptionList(rows, now, ended, hash)[j];
            && d.deadDays >= e.deadDays
            && (d.deadDays == e.deadDays ==> !StrLess(e.portalHash, d.portalHash) && (d.portalHash == e.portalHash ==> d.id <= e.id))
  {
    hide Sorted, Collect, DistinctRows, Orders, StrLess;
    SubscriptionOrders(rows, now, ended, hash);
    OrdersWeakly(Collect(rows, Subscribes(now, ended, hash)), SubscriptionBefore);
    SortedAscends(Collect(rows, Subscribes(now, ended, hash)), SubscriptionBefore);
    StrTrichotomy(SubscriptionList(rows, now, ended, hash)[i].portalHash, SubscriptionList(rows, now, ended, hash)[j].portalHash);
  }
}
