/** Recomputing all payments after a crash (server/utils/distributionLedgerWrite.ts): the portal-wide
    listing stops at the newest two hundred, and so does the recovery. */
module LedgerRecovery {
  import opened Outcome
  import opened Money
  import opened DistributionSp
  import opened ItemStore
  import opened DistributionLedger
  import opened LedgerWrite
  import opened LedgerRuns
  import opened LedgerSafety

  // ---- One carrier after the other

  function IdsOf(carriers: seq<Carrier>): (ids: seq<real>)
    ensures |ids| == |carriers| && forall k :: 0 <= k < |carriers| ==> ids[k] == carriers[k].id as real
  {
    seq(|carriers|, k requires 0 <= k < |carriers| => carriers[k].id as real)
  }

  ghost predicate Shows(s: Store, pay: SpRef, c: Carrier)
  {
    exists k :: 0 <= k < |s.items| && s.items[k].etid == pay.entityTypeId && c == ParsePaymentCarrier(s.items[k], pay)
  }

  /** Every carrier shows a payment of the store. */
  ghost predicate Shown(s: Store, pay: SpRef, carriers: seq<Carrier>)
  {
    forall i :: 0 <= i < |carriers| ==> Shows(s, pay, carriers[i])
  }

  /** Totals listed beforehand serve as well as totals read one at a time: no recompute changes them. */
  lemma {:induction false} CarriersAsParents(s: Store, pay: SpRef, dist: SpRef, carriers: seq<Carrier>, cap: nat, n: nat)
    requires Valid(s) && Shown(s, pay, carriers) && n <= |carriers| && pay.entityTypeId != dist.entityTypeId
    ensures CarriersRecomputed(s, pay, dist, carriers, cap, n) == ParentsRecomputed(s, pay, dist, IdsOf(carriers), {}, cap, n)
  {
    hide Valid, ParsePaymentCarrier, Recomputed, ParentRecomputed;
    if n > 0 {
      CarriersAsParents(s, pay, dist, carriers, cap, n - 1);
      assert Shows(s, pay, carriers[n - 1]);
      var k :| 0 <= k < |s.items| && s.items[k].etid == pay.entityTypeId && carriers[n - 1] == ParsePaymentCarrier(s.items[k], pay);
      CarrierAsParent(s, pay, dist, carriers, cap, n - 1, k);
    }
  }

  lemma CarrierAsParent(s: Store, pay: SpRef, dist: SpRef, carriers: seq<Carrier>, cap: nat, n: nat, k: nat)
    requires Valid(s) && n < |carriers| && pay.entityTypeId != dist.entityTypeId
    requires k < |s.items| && s.items[k].etid == pay.entityTypeId && carriers[n] == ParsePaymentCarrier(s.items[k], pay)
    ensures var u, c := ParentsRecomputed(s, pay, dist, IdsOf(carriers), {}, cap, n), carriers[n];
            Recomputed(u, pay, dist, c.id, c.total, c.currency, cap) == ParentRecomputed(u, pay, dist, c.id as real, false, cap)
  {
    hide Valid, Recomputed, ParentsRecomputed, Col, TOTAL, CURRENCY, MARKER, NEED_DISTR, NEEDS_REDISTR, MoneyOf, TextOf, Found;
    var ids := IdsOf(carriers);
    var u := ParentsRecomputed(s, pay, dist, ids, {}, cap, n);
    ComputedApart(pay);
    var fields := [TOTAL, CURRENCY, MARKER];
    assert fields[0] in fields && fields[1] in fields;
    ParentsTouch(s, pay, dist, ids, {}, cap, n, pay.entityTypeId, Col(pay, TOTAL));
    ParentsTouch(s, pay, dist, ids, {}, cap, n, pay.entityTypeId, Col(pay, CURRENCY));
    AlignedValid(s, u);
    PaymentFound(u, pay, carriers[n].id as real, k);
  }

  // ---- Which payments are recomputed

  lemma NewestShown(s: Store, pay: SpRef, limit: nat)
    requires Valid(s)
    ensures Shown(s, pay, NewestCarriers(s, pay, limit))
  {
    hide Newest, ParsePaymentCarrier;
    var all := Newest(s.items, pay.entityTypeId);
    NewestListed(s.items, pay.entityTypeId);
    var carriers := NewestCarriers(s, pay, limit);
    forall i | 0 <= i < |carriers| ensures Shows(s, pay, carriers[i]) {
      assert all[i] in all;
      var k :| 0 <= k < |s.items| && s.items[k] == all[i];
    }
  }

  /** A payment is among the newest exactly when fewer than so many are newer. */
  lemma AmongNewest(s: Store, pay: SpRef, limit: nat, k: nat)
    requires Valid(s) && k < |s.items| && s.items[k].etid == pay.entityTypeId
    ensures var ids := IdsOf(NewestCarriers(s, pay, limit));
            Done(ids, |ids|, s.items[k].id) <==> Newer(s.items, pay.entityTypeId, s.items[k].id) < limit
  {
    hide Newest, Newer;
    var all := Newest(s.items, pay.entityTypeId);
    NewestListed(s.items, pay.entityTypeId);
    assert s.items[k] in all;
    var j :| 0 <= j < |all| && all[j] == s.items[k];
    NewestPlace(s.items, pay.entityTypeId, j);
    var carriers := NewestCarriers(s, pay, limit);
    var ids := IdsOf(carriers);
    if j < limit {
      assert ids[j] == s.items[k].id as real;
    }
    if i :| 0 <= i < |ids| && ids[i] == s.items[k].id as real {
      assert all[i].id == all[j].id;
      NewestPlace(s.items, pay.entityTypeId, i);
      assert i < limit;
    }
  }

  // ---- What the recovery recovers

  /** After recomputing all, exactly the newest payments show what is due on them after the rows that are
      read; the others show what they showed, and what is due on any payment is what it was. */
  lemma RecomputedExactly(s: Store, pay: SpRef, dist: SpRef, cap: nat, limit: nat, k: nat)
    requires Valid(s) && pay.entityTypeId != dist.entityTypeId && k < |s.items| && s.items[k].etid == pay.entityTypeId
    ensures var t := AllRecomputed(s, pay, dist, cap, limit);
            && Aligned(s, t) && DueOn(t, t.items[k], pay, dist) == DueOn(s, s.items[k], pay, dist)
            && Cell(t.items[k], pay, NEED_DISTR) ==
               (if Newer(s.items, pay.entityTypeId, s.items[k].id) < limit then Some(Num(ShownAfter(s, s.items[k], pay, dist, cap)))
                else Cell(s.items[k], pay, NEED_DISTR))
            && (ShownAfter(s, s.items[k], pay, dist, cap) == DueOn(s, s.items[k], pay, dist) <==> ReadsRight(s, s.items[k], pay, dist, cap))
  {
    hide Cell, DueOn, ShownAfter, ReadsRight, ParentsRecomputed, CarriersRecomputed, Valid, NewestCarriers, Newer, Done;
    var carriers := NewestCarriers(s, pay, limit);
    var ids := IdsOf(carriers);
    NewestShown(s, pay, limit);
    CarriersAsParents(s, pay, dist, carriers, cap, |carriers|);
    AmongNewest(s, pay, limit, k);
    ParentsStep(s, pay, dist, ids, {}, cap, |ids|, k);
    ParentsKeepDue(s, pay, dist, ids, {}, cap, |ids|, k);
    ShownIsDue(s, s.items[k], pay, dist, cap);
  }

  /** A payment whose remainder is not what is due on it. */
  ghost predicate Stale(s: Store, item: Item, pay: SpRef, dist: SpRef)
  {
    item.etid == pay.entityTypeId && Cell(item, pay, NEED_DISTR) != Some(Num(DueOn(s, item, pay, dist)))
  }

  /** A payment that is right after recomputing all: it is among the newest, and its rows past the cap do not
      matter, or it is not, and was right. */
  ghost predicate Recovers(s: Store, item: Item, pay: SpRef, dist: SpRef, cap: nat, limit: nat)
  {
    if Newer(s.items, pay.entityTypeId, item.id) < limit then ReadsRight(s, item, pay, dist, cap) else !Stale(s, item, pay, dist)
  }

  lemma RecoversExactly(s: Store, pay: SpRef, dist: SpRef, cap: nat, limit: nat, k: nat)
    requires Valid(s) && pay.entityTypeId != dist.entityTypeId && k < |s.items| && s.items[k].etid == pay.entityTypeId
    ensures var t := AllRecomputed(s, pay, dist, cap, limit);
            && Aligned(s, t)
            && (Cell(t.items[k], pay, NEED_DISTR) == Some(Num(DueOn(t, t.items[k], pay, dist))) <==>
                Recovers(s, s.items[k], pay, dist, cap, limit))
  {
    hide Cell, DueOn, ShownAfter, ReadsRight, AllRecomputed, Valid, Newer;
    RecomputedExactly(s, pay, dist, cap, limit, k);
  }

  /** Recomputing all makes the ledger right exactly when every payment recovers; where no payment has more
      active rows than are read, exactly when every stale payment is among the newest. */
  lemma RecoveryExactly(s: Store, pay: SpRef, dist: SpRef, cap: nat, limit: nat)
    requires Valid(s) && pay.entityTypeId != dist.entityTypeId
    ensures NeedRight(AllRecomputed(s, pay, dist, cap, limit), pay, dist) <==>
            forall item :: item in s.items && item.etid == pay.entityTypeId ==> Recovers(s, item, pay, dist, cap, limit)
    ensures Fits(s, dist, cap) ==>
              (NeedRight(AllRecomputed(s, pay, dist, cap, limit), pay, dist) <==>
               forall item :: item in s.items && Stale(s, item, pay, dist) ==> Newer(s.items, pay.entityTypeId, item.id) < limit)
  {
    hide Cell, DueOn, AllRecomputed, Valid, Newer, Recovers, ActiveRows;
    var t := AllRecomputed(s, pay, dist, cap, limit);
    RecomputedAll(s, pay, dist, cap, limit);
    forall k | 0 <= k < |s.items| && s.items[k].etid == pay.entityTypeId
      ensures Cell(t.items[k], pay, NEED_DISTR) == Some(Num(DueOn(t, t.items[k], pay, dist))) <==>
              Recovers(s, s.items[k], pay, dist, cap, limit)
    {
      RecoversExactly(s, pay, dist, cap, limit, k);
    }
    InPlace(s, t, pay, dist, cap, limit);
    if Fits(s, dist, cap) {
      forall item | item in s.items && item.etid == pay.entityTypeId
        ensures Recovers(s, item, pay, dist, cap, limit) <==>
                (Stale(s, item, pay, dist) ==> Newer(s.items, pay.entityTypeId, item.id) < limit)
      {
        RecoversWhenRead(s, item, pay, dist, cap, limit);
      }
    }
  }

  lemma RecoversWhenRead(s: Store, item: Item, pay: SpRef, dist: SpRef, cap: nat, limit: nat)
    requires Fits(s, dist, cap)
    ensures Recovers(s, item, pay, dist, cap, limit) <==> (Stale(s, item, pay, dist) ==> Newer(s.items, pay.entityTypeId, item.id) < limit)
  {
    hide Stale, Newer, ReadsRight, ShownAfter, DueOn, ActiveRows;
    ShownIsDue(s, item, pay, dist, cap);
  }

  lemma InPlace(s: Store, t: Store, pay: SpRef, dist: SpRef, cap: nat, limit: nat)
    requires Aligned(s, t)
    requires forall k :: 0 <= k < |s.items| && s.items[k].etid == pay.entityTypeId ==>
               (Cell(t.items[k], pay, NEED_DISTR) == Some(Num(DueOn(t, t.items[k], pay, dist))) <==>
                Recovers(s, s.items[k], pay, dist, cap, limit))
    ensures NeedRight(t, pay, dist) <==>
            forall item :: item in s.items && item.etid == pay.entityTypeId ==> Recovers(s, item, pay, dist, cap, limit)
  {
    hide Cell, DueOn, Recovers;
    if NeedRight(t, pay, dist) {
      forall item | item in s.items && item.etid == pay.entityTypeId ensures Recovers(s, item, pay, dist, cap, limit) {
        var k :| 0 <= k < |s.items| && s.items[k] == item;
        assert t.items[k] in t.items;
      }
    }
    if forall item :: item in s.items && item.etid == pay.entityTypeId ==> Recovers(s, item, pay, dist, cap, limit) {
      forall item | item in t.items && item.etid == pay.entityTypeId
        ensures Cell(item, pay, NEED_DISTR) == Some(Num(DueOn(t, item, pay, dist)))
      {
        var k :| 0 <= k < |t.items| && t.items[k] == item;
        assert s.items[k] in s.items;
      }
    }
  }

  lemma RecomputedAll(s: Store, pay: SpRef, dist: SpRef, cap: nat, limit: nat)
    requires Valid(s) && pay.entityTypeId != dist.entityTypeId
    ensures Aligned(s, AllRecomputed(s, pay, dist, cap, limit))
  {
    hide ParentsRecomputed, CarriersRecomputed, Valid, NewestCarriers;
    var carriers := NewestCarriers(s, pay, limit);
    NewestShown(s, pay, limit);
    CarriersAsParents(s, pay, dist, carriers, cap, |carriers|);
    ParentsTouch(s, pay, dist, IdsOf(carriers), {}, cap, |carriers|, pay.entityTypeId + 1, "");
  }

  // ---- A payment the recovery does not reach

  function Marks(i: nat): (m: string)
    ensures |m| == i
  {
    if i == 0 then "" else Marks(i - 1) + "x"
  }

  /** The operations of the run: one rouble each, told apart by their ids. */
  function OpOf(i: nat): Operation
  {
    Operation("", Marks(i), 1.0, "")
  }

  const BOOKS := Books(key => 1.0, key => "")
  const NOTHING_KNOWN := NO_REGISTRY

  /** The first operation is allocated to a deal; `n` more are recorded after it. */
  function Events(n: nat): seq<Event>
  {
    if n == 0 then [Allocated(OpOf(0), "deal", "7", None, None)]
    else Events(n - 1) + [Recorded(OpOf(n), NOTHING_KNOWN, "", None, None)]
  }

  /** The store after it: the first payment, its row, and the later payments in order. */
  ghost predicate Shape(s: Store, pay: SpRef, dist: SpRef, n: nat)
  {
    && |s.items| == n + 2 && LastId(s, pay.entityTypeId) == n + 1
    && Is(s.items[0], pay.entityTypeId, 1) && Is(s.items[1], dist.entityTypeId, 1)
    && (forall i :: 2 <= i < n + 2 ==> Is(s.items[i], pay.entityTypeId, i))
    && (forall i :: 0 <= i < n + 2 && i != 1 ==>
          Cell(s.items[i], pay, MARKER) == Some(Str(DedupKey(OpOf(if i == 0 then 0 else i - 1)))))
    && ParsePaymentTotal(s.items[0], pay) == Total(1.0, "")
    && IsActiveRowOf(s.items[1], dist, 1) && IsActiveOnTarget(s.items[1], dist, "deal", "7")
    && ActiveAmount(s.items[1], dist, 1, "") == 1.0
  }

  lemma OneRouble()
    ensures Round2(1.0) == 1.0
  {
    CentsOfWhole(100);
  }

  lemma FirstPayment(pay: SpRef, dist: SpRef)
    requires pay.entityTypeId != dist.entityTypeId
    ensures var op := OpOf(0);
            var w := PaymentEnsured(Store([], map[]), pay, CarrierInput(op, None, None));
            var call := PaymentElementAddCall(pay, CarrierInput(op, None, None));
            && w.id == 1 && w.store.items == [Item(pay.entityTypeId, 1, call.fields)]
            && LastId(w.store, pay.entityTypeId) == 1 && LastId(w.store, dist.entityTypeId) == 0
  {
    hide PaymentElementAddCall, Matches;
    var input := CarrierInput(OpOf(0), None, None);
    AddIsForPayments(pay, input);
    assert FindByMarker(Store([], map[]), pay, input.marker).None?;
    assert [] + [Item(pay.entityTypeId, 1, PaymentElementAddCall(pay, input).fields)] ==
           [Item(pay.entityTypeId, 1, PaymentElementAddCall(pay, input).fields)];
  }

  lemma NoRowYet(s: Store, pay: SpRef, dist: SpRef, marker: string)
    requires |s.items| == 1 && s.items[0].etid == pay.entityTypeId != dist.entityTypeId
    ensures FindByMarker(s, dist, marker).None?
  {
    hide Matches, MarkerListCall;
    var q := MarkerListCall(dist, marker);
    OtherProcessItem(s.items[0], dist, marker);
    FilterNone(s.items, item => Matches(item, q));
  }

  lemma OtherProcessItem(item: Item, sp: SpRef, marker: string)
    requires item.etid != sp.entityTypeId
    ensures !Matches(item, MarkerListCall(sp, marker))
  {
    hide Value;
  }

  lemma FirstRow(pay: SpRef, dist: SpRef)
    requires pay.entityTypeId != dist.entityTypeId
    ensures var op := OpOf(0);
            var w := PaymentEnsured(Store([], map[]), pay, CarrierInput(op, None, None));
            var t := FactWritten(Store([], map[]), pay, dist, op, 1.0, "deal", "7", None, None).store;
            && t.items == w.store.items + [Item(dist.entityTypeId, 1, RowFields(dist, FactInput(op, 1, 1.0, "deal", "7", None)))]
            && LastId(t, pay.entityTypeId) == 1
  {
    hide PaymentEnsured, DistributionRowAddCall, RowFields, FindByMarker, FactInput;
    FirstPayment(pay, dist);
    var op := OpOf(0);
    var w := PaymentEnsured(Store([], map[]), pay, CarrierInput(op, None, None));
    var input := FactInput(op, 1, 1.0, "deal", "7", None);
    NoRowYet(w.store, pay, dist, input.marker);
    AddIsForRows(dist, input);
  }

  /** The first event leaves the first payment and its row. */
  lemma FirstShape(pay: SpRef, dist: SpRef, cap: nat)
    requires pay.entityTypeId != dist.entityTypeId
    ensures Shape(AllocationWritten(Store([], map[]), pay, dist, OpOf(0), "deal", "7", None, None, cap), pay, dist, 0)
  {
    hide PaymentEnsured, FactWritten, Remaining, Cell, RowFields, PaymentElementAddCall, Col, MARKER, TOTAL, CURRENCY, NEED_DISTR,
         NEEDS_REDISTR, DedupKey, Round2, IsActiveRowOf, IsActiveOnTarget, ActiveAmount;
    var op := OpOf(0);
    var input := FactInput(op, 1, 1.0, "deal", "7", None);
    FirstPayment(pay, dist);
    FirstRow(pay, dist);
    OneRouble();
    var s := FactWritten(Store([], map[]), pay, dist, op, 1.0, "deal", "7", None, None).store;
    var t := Recomputed(s, pay, dist, 1, 1.0, "", cap);
    assert t == AllocationWritten(Store([], map[]), pay, dist, op, "deal", "7", None, None, cap);
    assert t.items[1] == s.items[1];
    FirstCells(pay, dist);
    KeptCells(s, pay, dist, cap);
    FirstRowCells(dist, input);
  }

  lemma FirstCells(pay: SpRef, dist: SpRef)
    ensures var item := Item(pay.entityTypeId, 1, PaymentElementAddCall(pay, CarrierInput(OpOf(0), None, None)).fields);
            && Cell(item, pay, MARKER) == Some(Str(DedupKey(OpOf(0))))
            && ParsePaymentTotal(item, pay) == Total(1.0, "")
  {
    hide Cell, DedupKey, PaymentElementAddCall, Round2, MARKER, TOTAL, CURRENCY, NEED_DISTR;
    OneRouble();
    PaymentCells(pay, CarrierInput(OpOf(0), None, None), pay.entityTypeId, 1);
  }

  lemma KeptCells(s: Store, pay: SpRef, dist: SpRef, cap: nat)
    requires |s.items| > 0 && s.items[0].etid == pay.entityTypeId
    ensures var t := Recomputed(s, pay, dist, 1, 1.0, "", cap);
            && Aligned(s, t) && Cell(t.items[0], pay, MARKER) == Cell(s.items[0], pay, MARKER)
            && ParsePaymentTotal(t.items[0], pay) == ParsePaymentTotal(s.items[0], pay)
  {
    hide Recomputed, Col, MARKER, TOTAL, CURRENCY, NEED_DISTR, NEEDS_REDISTR;
    ComputedApart(pay);
    var fields := [TOTAL, CURRENCY, MARKER];
    assert fields[0] in fields && fields[1] in fields && fields[2] in fields;
    RecomputeTouches(s, pay, dist, 1, 1.0, "", cap, pay.entityTypeId, Col(pay, MARKER));
    RecomputeTouches(s, pay, dist, 1, 1.0, "", cap, pay.entityTypeId, Col(pay, TOTAL));
    RecomputeTouches(s, pay, dist, 1, 1.0, "", cap, pay.entityTypeId, Col(pay, CURRENCY));
  }

  lemma FirstRowCells(dist: SpRef, input: RowInput)
    requires input == FactInput(OpOf(0), 1, 1.0, "deal", "7", None)
    ensures var item := Item(dist.entityTypeId, 1, RowFields(dist, input));
            && IsActiveRowOf(item, dist, 1) && IsActiveOnTarget(item, dist, "deal", "7") && ActiveAmount(item, dist, 1, "") == 1.0
  {
    hide Cell, RowFields, Round2, PARENT_PAYMENT, STATUS, AMOUNT, CURRENCY, TARGET_KIND, TARGET_ID, DedupKey, FactKey;
    OneRouble();
    RowCells(dist, input, dist.entityTypeId, 1);
    NewRowAmount(dist, input, 1, 1, "");
  }

  /** Each later event adds the next payment. */
  lemma NextShape(s: Store, pay: SpRef, dist: SpRef, n: nat)
    requires Shape(s, pay, dist, n) && pay.entityTypeId != dist.entityTypeId
    ensures Shape(PaymentEnsured(s, pay, RecordInput(Recorded(OpOf(n + 1), NOTHING_KNOWN, "", None, None))).store, pay, dist, n + 1)
  {
    hide PaymentElementAddCall, Cell, DedupKey, MARKER, TOTAL, CURRENCY, NEED_DISTR, IsActiveRowOf, IsActiveOnTarget, ActiveAmount,
         ParsePaymentTotal, FindByMarker, Round2;
    var input := RecordInput(Recorded(OpOf(n + 1), NOTHING_KNOWN, "", None, None));
    NotRecorded(s, pay, dist, n);
    AddIsForPayments(pay, input);
    PaymentCells(pay, input, pay.entityTypeId, n + 2);
  }

  lemma KeysApart(i: nat, j: nat)
    requires i != j
    ensures DedupKey(OpOf(i)) != DedupKey(OpOf(j))
  {
    assert |DedupKey(OpOf(i))| == i + 1 && |DedupKey(OpOf(j))| == j + 1;
  }

  lemma NotRecorded(s: Store, pay: SpRef, dist: SpRef, n: nat)
    requires Shape(s, pay, dist, n) && pay.entityTypeId != dist.entityTypeId
    ensures FindByMarker(s, pay, DedupKey(OpOf(n + 1))).None?
  {
    hide Cell, DedupKey, MARKER, IsActiveRowOf, IsActiveOnTarget, ActiveAmount, ParsePaymentTotal, Matches, MarkerListCall;
    var key := DedupKey(OpOf(n + 1));
    var found := Found(s, MarkerListCall(pay, key));
    if found != [] {
      assert found[0] in found;
      MarkerFilterMeans(found[0], pay, key);
      var i :| 0 <= i < |s.items| && s.items[i] == found[0];
      KeysApart(if i == 0 then 0 else i - 1, n + 1);
      assert false;
    }
  }

  lemma FirstFits(pay: SpRef, dist: SpRef, cap: nat)
    requires pay.entityTypeId != dist.entityTypeId && cap > 0
    ensures Fits(FactWritten(Store([], map[]), pay, dist, OpOf(0), 1.0, "deal", "7", None, None).store, dist, cap)
  {
    hide FactWritten, PaymentEnsured, RowFields, Value, PaymentElementAddCall;
    FirstPayment(pay, dist);
    FirstRow(pay, dist);
    var s := FactWritten(Store([], map[]), pay, dist, OpOf(0), 1.0, "deal", "7", None, None).store;
    forall id: nat ensures |ActiveRows(s, dist, id)| <= cap {
      TwoItems(s, pay, ActiveRowsListCall(dist, id));
    }
  }

  lemma TwoItems(s: Store, pay: SpRef, q: Query)
    requires |s.items| == 2 && s.items[0].etid == pay.entityTypeId != q.etid
    ensures |Found(s, q)| <= 1
  {
    OneItem(s, q);
  }

  lemma EventsEnd(n: nat)
    ensures |Events(n)| == n + 1
    ensures n > 0 ==> Events(n)[..n] == Events(n - 1) && Events(n)[n] == Recorded(OpOf(n), NOTHING_KNOWN, "", None, None)
  {
    if n > 0 {
      EventsEnd(n - 1);
    }
  }

  lemma EmptyRun(pay: SpRef, dist: SpRef, cap: nat)
    ensures Run(Store([], map[]), pay, dist, cap, []) == Store([], map[])
    ensures AllEnabled(Store([], map[]), pay, dist, cap, BOOKS, [])
  {
  }

  lemma FirstEvent(pay: SpRef, dist: SpRef, cap: nat)
    requires pay.entityTypeId != dist.entityTypeId && cap > 0
    ensures AllEnabled(Store([], map[]), pay, dist, cap, BOOKS, Events(0))
    ensures Shape(Run(Store([], map[]), pay, dist, cap, Events(0)), pay, dist, 0)
  {
    hide Shape, Fits, FactWritten, PaymentEnsured, AllocationWritten, DedupKey;
    EmptyRun(pay, dist, cap);
    FirstShape(pay, dist, cap);
    FirstFits(pay, dist, cap);
    var start, e := Store([], map[]), Events(0)[0];
    assert Events(0) == [e] && [e][..0] == [];
    assert Enabled(start, pay, dist, cap, BOOKS, e);
    assert Run(start, pay, dist, cap, [e]) == Step(start, pay, dist, cap, e);
  }

  lemma OneMoreEvent(pay: SpRef, dist: SpRef, cap: nat, n: nat)
    requires n > 0 && AllEnabled(Store([], map[]), pay, dist, cap, BOOKS, Events(n - 1))
    ensures var s := Run(Store([], map[]), pay, dist, cap, Events(n - 1));
            Run(Store([], map[]), pay, dist, cap, Events(n)) ==
            PaymentEnsured(s, pay, RecordInput(Recorded(OpOf(n), NOTHING_KNOWN, "", None, None))).store
    ensures AllEnabled(Store([], map[]), pay, dist, cap, BOOKS, Events(n))
  {
    hide PaymentEnsured, DedupKey, Events;
    EventsEnd(n);
  }

  /** The run can happen, and leaves that shape. */
  lemma {:induction false} EventsShape(pay: SpRef, dist: SpRef, cap: nat, n: nat)
    requires pay.entityTypeId != dist.entityTypeId && cap > 0
    ensures AllEnabled(Store([], map[]), pay, dist, cap, BOOKS, Events(n))
    ensures Shape(Run(Store([], map[]), pay, dist, cap, Events(n)), pay, dist, n)
  {
    hide Shape, Run, AllEnabled, PaymentEnsured, Events, OpOf;
    if n == 0 {
      FirstEvent(pay, dist, cap);
    } else {
      EventsShape(pay, dist, cap, n - 1);
      OneMoreEvent(pay, dist, cap, n);
      NextShape(Run(Store([], map[]), pay, dist, cap, Events(n - 1)), pay, dist, n - 1);
    }
  }

  lemma {:induction false} AllPass(items: seq<Item>, p: Item -> bool)
    requires forall x :: x in items ==> p(x)
    ensures |Filter(items, p)| == |items|
  {
    if items != [] {
      AllPass(items[1..], p);
    }
  }

  lemma BehindTwo(items: seq<Item>, p: Item -> bool)
    requires |items| >= 2
    ensures Filter(items, p) == (if p(items[0]) then [items[0]] else []) + (if p(items[1]) then [items[1]] else []) + Filter(items[2..], p)
  {
    hide Filter;
    FilterFirst(items, p);
    FilterFirst(items[1..], p);
    assert items[1..][1..] == items[2..] && items[1..][0] == items[1];
    ThreeJoined(if p(items[0]) then [items[0]] else [], if p(items[1]) then [items[1]] else [], Filter(items[2..], p));
  }

  lemma ThreeJoined(a: seq<Item>, b: seq<Item>, c: seq<Item>)
    ensures a + (b + c) == a + b + c
  {
  }

  lemma FilterFirst(items: seq<Item>, p: Item -> bool)
    requires items != []
    ensures Filter(items, p) == (if p(items[0]) then [items[0]] else []) + Filter(items[1..], p)
  {
  }

  /** The first payment has all the later ones before it. */
  lemma OldestPlace(s: Store, pay: SpRef, dist: SpRef, n: nat)
    requires |s.items| == n + 2 && s.items[0].id == 1 && s.items[1].etid != pay.entityTypeId
    requires forall i :: 2 <= i < n + 2 ==> Is(s.items[i], pay.entityTypeId, i)
    ensures Newer(s.items, pay.entityTypeId, 1) == n
  {
    var p := NewerIn(pay.entityTypeId, 1);
    var later := s.items[2..];
    BehindTwo(s.items, p);
    forall x | x in later ensures p(x) {
      var k :| 0 <= k < |later| && later[k] == x;
      assert Is(s.items[k + 2], pay.entityTypeId, k + 2);
    }
    AllPass(later, p);
  }

  /** Where the deal is deleted next and a crash strikes once the row is deactivated, one rouble is due on
      the first payment again. */
  lemma DueAgain(s: Store, pay: SpRef, dist: SpRef, cap: nat, n: nat)
    requires Valid(s) && Shape(s, pay, dist, n) && pay.entityTypeId != dist.entityTypeId && |TargetRows(s, dist, "deal", "7")| <= cap
    ensures var refs := TargetRefs(Loaded(TargetRows(s, dist, "deal", "7"), cap), dist);
            var t := Deactivated(s, dist, refs, |refs|);
            && Aligned(s, t) && DueOn(t, t.items[0], pay, dist) == 1.0 && DueOn(s, s.items[0], pay, dist) == 0.0
            && Cell(t.items[0], pay, NEED_DISTR) == Cell(s.items[0], pay, NEED_DISTR)
  {
    hide Valid, Cell, TargetRows, TargetRefs, Loaded, Deactivated, MARKER, ActiveAmount, IsActiveRowOf, IsActiveOnTarget, TargetSum, ReadTargetSum,
         PastTargetSum, ActiveSum, Untouched, NEED_DISTR, TOTAL, CURRENCY, Round2, DedupKey, TextOf, MoneyOf, Due;
    var refs := TargetRefs(Loaded(TargetRows(s, dist, "deal", "7"), cap), dist);
    var t := Deactivated(s, dist, refs, |refs|);
    DeactivatedSum(s, dist, "deal", "7", cap, 1, "");
    TargetSumParts(s, dist, "deal", "7", cap, 1, "");
    SumsOfFirst(s, pay, dist, n);
    PaymentsKept(s, pay, dist, refs);
    DueOneOrNone();
  }

  lemma PaymentsKept(s: Store, pay: SpRef, dist: SpRef, refs: seq<TargetRowRef>)
    requires |s.items| > 0 && s.items[0].etid == pay.entityTypeId != dist.entityTypeId
    ensures var t := Deactivated(s, dist, refs, |refs|);
            && Aligned(s, t) && Cell(t.items[0], pay, NEED_DISTR) == Cell(s.items[0], pay, NEED_DISTR)
            && ParsePaymentTotal(t.items[0], pay) == ParsePaymentTotal(s.items[0], pay)
  {
    hide Col, Deactivated, NEED_DISTR, TOTAL, CURRENCY;
    DeactivateTouches(s, dist, refs, |refs|, pay.entityTypeId, Col(pay, NEED_DISTR));
    DeactivateTouches(s, dist, refs, |refs|, pay.entityTypeId, Col(pay, TOTAL));
    DeactivateTouches(s, dist, refs, |refs|, pay.entityTypeId, Col(pay, CURRENCY));
  }

  lemma DueOneOrNone()
    ensures Due(1.0, 1.0) == 0.0 && Due(1.0, 0.0) == 1.0
  {
    OneRouble();
  }

  lemma SumsOfFirst(s: Store, pay: SpRef, dist: SpRef, n: nat)
    requires Shape(s, pay, dist, n) && pay.entityTypeId != dist.entityTypeId
    ensures ActiveSum(s, dist, 1, "") == 1.0 && TargetSum(s, dist, "deal", "7", 1, "") == 1.0
  {
    hide Cell, MARKER, ActiveAmount, IsActiveOnTarget, IsActiveRowOf, ParsePaymentTotal, DedupKey;
    var w := item => ActiveAmount(item, dist, 1, "");
    var v := item => TargetAmount(item, dist, "deal", "7", 1, "");
    forall i | 0 <= i < n + 2 && i != 1 ensures w(s.items[i]) == 0.0 && v(s.items[i]) == 0.0 {
      PaymentNotRow(s.items[i], pay, dist, 1, "");
    }
    OnlySecond(s.items, w);
    OnlySecond(s.items, v);
  }

  lemma OnlySecond(items: seq<Item>, w: Item -> real)
    requires |items| >= 2 && forall i :: 0 <= i < |items| && i != 1 ==> w(items[i]) == 0.0
    ensures Tally(items, w) == w(items[1])
  {
    assert items == [items[0]] + ([items[1]] + items[2..]);
    TallyAppend([items[0]], [items[1]] + items[2..], w);
    TallyAppend([items[1]], items[2..], w);
    forall k | 0 <= k < |items[2..]| ensures w(items[2..][k]) == 0.0 {
      assert items[2..][k] == items[k + 2];
    }
    TallyZero(items[2..], w);
    One(items[0], w);
    One(items[1], w);
  }

  lemma One(item: Item, w: Item -> real)
    ensures Tally([item], w) == w(item)
  {
    assert [item][1..] == [];
  }

  /** After such a run the ledger is right; the deal is deleted, and a crash strikes before the payment is
      recomputed; recomputing all does not make the ledger right if as many payments as it takes in are
      newer than the first one. */
  lemma OldestNotRecovered(pay: SpRef, dist: SpRef, cap: nat, limit: nat, n: nat)
    requires pay.entityTypeId != dist.entityTypeId && cap > 0 && limit <= n
    ensures AllEnabled(Store([], map[]), pay, dist, cap, BOOKS, Events(n))
    ensures var s := Run(Store([], map[]), pay, dist, cap, Events(n));
            var refs := TargetRefs(Loaded(TargetRows(s, dist, "deal", "7"), cap), dist);
            && NeedRight(s, pay, dist)
            && !NeedRight(AllRecomputed(Deactivated(s, dist, refs, |refs|), pay, dist, cap, limit), pay, dist)
  {
    hide Cell, DueOn, NeedRight, TargetRefs, Loaded, TargetRows, Deactivated, AllRecomputed, Fits, Valid, Newer, Run, AllEnabled, Core;
    EventsShape(pay, dist, cap, n);
    LedgerAlwaysRight(pay, dist, cap, BOOKS, Events(n));
    var s := Run(Store([], map[]), pay, dist, cap, Events(n));
    CoreValid(s, pay, dist, BOOKS);
    var refs := TargetRefs(Loaded(TargetRows(s, dist, "deal", "7"), cap), dist);
    var t := Deactivated(s, dist, refs, |refs|);
    ShapeFits(s, pay, dist, n, cap);
    TargetRowsFit(s, pay, dist, n, cap);
    DueAgain(s, pay, dist, cap, n);
    DeactivatedFits(s, dist, refs, cap);
    AlignedValid(s, t);
    RightAt(s, pay, dist, 0);
    OldestPlace(t, pay, dist, n);
    RecoveryExactly(t, pay, dist, cap, limit);
    assert t.items[0] in t.items && Stale(t, t.items[0], pay, dist);
  }

  lemma TargetRowsFit(s: Store, pay: SpRef, dist: SpRef, n: nat, cap: nat)
    requires Shape(s, pay, dist, n) && pay.entityTypeId != dist.entityTypeId && cap > 0
    ensures |TargetRows(s, dist, "deal", "7")| <= cap
  {
    hide Cell, MARKER, ActiveAmount, IsActiveOnTarget, IsActiveRowOf, ParsePaymentTotal, DedupKey, Matches;
    OneItem(s, TargetRowsListCall(dist, "deal", "7"));
  }

  lemma RightAt(s: Store, pay: SpRef, dist: SpRef, k: nat)
    requires NeedRight(s, pay, dist) && k < |s.items| && s.items[k].etid == pay.entityTypeId
    ensures Cell(s.items[k], pay, NEED_DISTR) == Some(Num(DueOn(s, s.items[k], pay, dist)))
  {
    hide Cell, DueOn;
    assert s.items[k] in s.items;
  }

  lemma ShapeFits(s: Store, pay: SpRef, dist: SpRef, n: nat, cap: nat)
    requires Shape(s, pay, dist, n) && pay.entityTypeId != dist.entityTypeId && cap > 0
    ensures Fits(s, dist, cap)
  {
    hide Cell, MARKER, ActiveAmount, IsActiveOnTarget, IsActiveRowOf, ParsePaymentTotal, DedupKey, Matches;
    forall id: nat ensures |ActiveRows(s, dist, id)| <= cap {
      OneItem(s, ActiveRowsListCall(dist, id));
    }
  }

  lemma OneItem(s: Store, q: Query)
    requires |s.items| >= 2 && forall i :: 0 <= i < |s.items| && i != 1 ==> s.items[i].etid != q.etid
    ensures |Found(s, q)| <= 1
  {
    hide Value;
    var p := item => Matches(item, q);
    BehindTwo(s.items, p);
    forall x | x in s.items[2..] ensures !p(x) {
      var k :| 0 <= k < |s.items[2..]| && s.items[2..][k] == x;
      assert s.items[k + 2] == x;
    }
    FilterNone(s.items[2..], p);
  }

  /** Two hundred and one payments, whatever the size of a page: the oldest is never made right. */
  lemma TwoHundredAndOne(pay: SpRef, dist: SpRef, pageSize: nat)
    requires pay.entityTypeId != dist.entityTypeId && pageSize > 0
    ensures var cap, limit := MAX_LEDGER_PAGES * pageSize, CarrierCap(pageSize);
            var s := Run(Store([], map[]), pay, dist, cap, Events(200));
            var refs := TargetRefs(Loaded(TargetRows(s, dist, "deal", "7"), cap), dist);
            && AllEnabled(Store([], map[]), pay, dist, cap, BOOKS, Events(200)) && NeedRight(s, pay, dist)
            && !NeedRight(AllRecomputed(Deactivated(s, dist, refs, |refs|), pay, dist, cap, limit), pay, dist)
  {
    hide AllEnabled, Run, Events, NeedRight, AllRecomputed, TargetRefs, Loaded, TargetRows, Deactivated;
    OldestNotRecovered(pay, dist, MAX_LEDGER_PAGES * pageSize, CarrierCap(pageSize), 200);
  }
}
