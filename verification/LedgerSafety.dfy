/** Safety of the distribution ledger over every run: recording, allocating, firing triggers, filling
    registry columns, freeing deleted targets, and elements deleted by hand, in any order. */
module LedgerSafety {
  import opened Outcome
  import opened Money
  import opened DistributionSp
  import opened ItemStore
  import opened DistributionLedger
  import opened LedgerWrite
  import opened LedgerRuns

  /** Recomputing one payment from its own total makes it right and leaves the others right. */
  lemma RecomputeRights(s: Store, pay: SpRef, dist: SpRef, b: Books, id: nat, marker: string, total: real, currency: string, cap: nat)
    requires Core(s, pay, dist, b) && NeedRightBut(s, pay, dist, id) && pay.entityTypeId != dist.entityTypeId
    requires |ActiveRows(s, dist, id)| <= cap
    requires marker != "" && total == b.amountOf(marker) && currency == b.currencyOf(marker)
    requires exists item :: item in s.items && HasMarker(item, pay, marker) && item.id == id
    ensures Inv(Recomputed(s, pay, dist, id, total, currency, cap), pay, dist, b)
  {
    hide Cell, DueOn, Core, Recomputed, ActiveRows, HasMarker, Valid;
    var t := Recomputed(s, pay, dist, id, total, currency, cap);
    RecomputeKeepsCore(s, pay, dist, b, id, total, currency, cap);
    CoreValid(s, pay, dist, b);
    forall item | item in t.items && item.etid == pay.entityTypeId
      ensures Cell(item, pay, NEED_DISTR) == Some(Num(DueOn(t, item, pay, dist)))
    {
      var k :| 0 <= k < |t.items| && t.items[k] == item;
      RecomputedAligned(s, pay, dist, id, total, currency, cap);
      assert s.items[k] in s.items;
      RecomputedDue(s, pay, dist, id, total, currency, cap, k);
      if item.id == id {
        MarkedPayment(s, pay, dist, b, k, marker);
        RecomputedCell(s, pay, dist, id, total, currency, cap, k);
      } else {
        OtherCell(s, pay, dist, id, total, currency, cap, k);
      }
    }
  }

  lemma CoreValid(s: Store, pay: SpRef, dist: SpRef, b: Books)
    requires Core(s, pay, dist, b)
    ensures Valid(s)
  {
  }

  lemma RecomputedAligned(s: Store, pay: SpRef, dist: SpRef, id: nat, total: real, currency: string, cap: nat)
    ensures Aligned(s, Recomputed(s, pay, dist, id, total, currency, cap))
  {
    hide Recomputed;
    RecomputeTouches(s, pay, dist, id, total, currency, cap, pay.entityTypeId + 1, "");
  }

  /** The element with an operation's marker holds that operation's money. */
  lemma MarkedPayment(s: Store, pay: SpRef, dist: SpRef, b: Books, k: nat, marker: string)
    requires Core(s, pay, dist, b) && marker != "" && k < |s.items| && s.items[k].etid == pay.entityTypeId
    requires exists item :: item in s.items && HasMarker(item, pay, marker) && item.id == s.items[k].id
    ensures ParsePaymentTotal(s.items[k], pay) == Total(Round2(b.amountOf(marker)), b.currencyOf(marker))
  {
    hide Cell, HasMarker, Round2, TOTAL, CURRENCY, OnePerMarker, ParentsKnown;
    var item :| item in s.items && HasMarker(item, pay, marker) && item.id == s.items[k].id;
    MarkerProcess(item, pay, marker);
    var j :| 0 <= j < |s.items| && s.items[j] == item;
    SameById(s, j, k);
    Rounded(b.amountOf(marker));
  }

  lemma MarkerProcess(item: Item, sp: SpRef, marker: string)
    requires HasMarker(item, sp, marker)
    ensures item.etid == sp.entityTypeId
  {
  }

  lemma RecomputedCell(s: Store, pay: SpRef, dist: SpRef, id: nat, total: real, currency: string, cap: nat, k: nat)
    requires k < |s.items| && s.items[k].etid == pay.entityTypeId && s.items[k].id == id && |ActiveRows(s, dist, id)| <= cap
    requires ParsePaymentTotal(s.items[k], pay) == Total(Round2(total), currency)
    ensures Cell(Recomputed(s, pay, dist, id, total, currency, cap).items[k], pay, NEED_DISTR) ==
            Some(Num(DueOn(s, s.items[k], pay, dist)))
  {
    hide Col, ActiveRows, ActiveSum, Remaining, Round2, ParsePaymentTotal, NEED_DISTR, BUILT_IN;
    RemainingIsDue(s, dist, id, total, currency, cap);
    Rounded(total);
    NotBuiltIn(pay, NEED_DISTR);
    BuiltInNames();
  }

  lemma OtherCell(s: Store, pay: SpRef, dist: SpRef, id: nat, total: real, currency: string, cap: nat, k: nat)
    requires k < |s.items| && s.items[k].id != id
    ensures |Recomputed(s, pay, dist, id, total, currency, cap).items| == |s.items|
    ensures Recomputed(s, pay, dist, id, total, currency, cap).items[k] == s.items[k]
  {
  }

  /** A recompute changes nothing that what is due depends on. */
  lemma RecomputedDue(s: Store, pay: SpRef, dist: SpRef, id: nat, total: real, currency: string, cap: nat, k: nat)
    requires k < |s.items| && s.items[k].etid == pay.entityTypeId && pay.entityTypeId != dist.entityTypeId
    ensures var t := Recomputed(s, pay, dist, id, total, currency, cap);
            |t.items| == |s.items| && DueOn(t, t.items[k], pay, dist) == DueOn(s, s.items[k], pay, dist)
  {
    hide Col, DueOn, Recomputed, ActiveSum, TOTAL, CURRENCY, MARKER, NEED_DISTR, NEEDS_REDISTR;
    var t := Recomputed(s, pay, dist, id, total, currency, cap);
    ComputedApart(pay);
    var fields := [TOTAL, CURRENCY, MARKER];
    assert fields[0] in fields && fields[1] in fields;
    RecomputeTouches(s, pay, dist, id, total, currency, cap, pay.entityTypeId, Col(pay, TOTAL));
    RecomputeTouches(s, pay, dist, id, total, currency, cap, pay.entityTypeId, Col(pay, CURRENCY));
    forall c ensures ActiveSum(t, dist, s.items[k].id, c) == ActiveSum(s, dist, s.items[k].id, c) {
      RecomputedSum(s, pay, dist, id, total, currency, cap, s.items[k].id, c);
    }
    DueUntouched(s, t, pay, dist, k);
  }

  lemma RecomputedSum(s: Store, pay: SpRef, dist: SpRef, id: nat, total: real, currency: string, cap: nat, paymentId: nat, c: string)
    requires pay.entityTypeId != dist.entityTypeId
    ensures ActiveSum(Recomputed(s, pay, dist, id, total, currency, cap), dist, paymentId, c) == ActiveSum(s, dist, paymentId, c)
  {
    hide Col, Recomputed, ActiveSum, Untouched;
    var t := Recomputed(s, pay, dist, id, total, currency, cap);
    forall f | f in [PARENT_PAYMENT, STATUS, AMOUNT, CURRENCY] ensures Untouched(s, t, dist.entityTypeId, Col(dist, f)) {
      RecomputeTouches(s, pay, dist, id, total, currency, cap, dist.entityTypeId, Col(dist, f));
    }
    SumUntouched(s, t, dist, paymentId, c);
  }

  // ---- The core survives every update

  /** Updates that leave totals, currencies, markers, parents alone, and activate no row, keep the core. */
  lemma UpdateKeepsCore(s: Store, t: Store, pay: SpRef, dist: SpRef, b: Books)
    requires Core(s, pay, dist, b)
    requires forall f :: f in [TOTAL, CURRENCY, MARKER] ==> Untouched(s, t, pay.entityTypeId, Col(pay, f))
    requires forall f :: f in [PARENT_PAYMENT, MARKER] ==> Untouched(s, t, dist.entityTypeId, Col(dist, f))
    requires |t.items| == |s.items|
    requires forall k :: 0 <= k < |s.items| && s.items[k].etid == dist.entityTypeId ==>
               (Cell(t.items[k], dist, STATUS) == Some(Str("active")) ==> Cell(s.items[k], dist, STATUS) == Some(Str("active")))
    ensures Core(t, pay, dist, b)
  {
    hide Col, TOTAL, CURRENCY, MARKER, PARENT_PAYMENT, STATUS, OnePerMarker, Valid;
    var a, c := [TOTAL, CURRENCY, MARKER], [PARENT_PAYMENT, MARKER];
    assert a[0] in a && a[1] in a && a[2] in a && c[0] in c && c[1] in c;
    AlignedValid(s, t);
    UntouchedMarkers(s, t, pay);
    UntouchedMarkers(s, t, dist);
    forall item, m | item in t.items && m != "" && HasMarker(item, pay, m)
      ensures Cell(item, pay, TOTAL) == Some(Num(Round2(b.amountOf(m)))) && Cell(item, pay, CURRENCY) == Some(Str(b.currencyOf(m)))
    {
      var k :| 0 <= k < |t.items| && t.items[k] == item;
      assert s.items[k] in s.items && HasMarker(s.items[k], pay, m);
    }
    forall item, id: nat | item in t.items && IsActiveRowOf(item, dist, id) ensures id <= LastId(t, pay.entityTypeId) {
      var k :| 0 <= k < |t.items| && t.items[k] == item;
      assert s.items[k] in s.items && IsActiveRowOf(s.items[k], dist, id);
    }
  }

  lemma RecomputeKeepsCore(s: Store, pay: SpRef, dist: SpRef, b: Books, id: nat, total: real, currency: string, cap: nat)
    requires Core(s, pay, dist, b) && pay.entityTypeId != dist.entityTypeId
    ensures Core(Recomputed(s, pay, dist, id, total, currency, cap), pay, dist, b)
  {
    hide Col, Recomputed, Core, TOTAL, CURRENCY, MARKER, PARENT_PAYMENT, STATUS, NEED_DISTR, NEEDS_REDISTR;
    var t := Recomputed(s, pay, dist, id, total, currency, cap);
    ComputedApart(pay);
    forall f | f in [TOTAL, CURRENCY, MARKER] ensures Untouched(s, t, pay.entityTypeId, Col(pay, f)) {
      RecomputeTouches(s, pay, dist, id, total, currency, cap, pay.entityTypeId, Col(pay, f));
    }
    forall f | f in [PARENT_PAYMENT, MARKER] ensures Untouched(s, t, dist.entityTypeId, Col(dist, f)) {
      RecomputeTouches(s, pay, dist, id, total, currency, cap, dist.entityTypeId, Col(dist, f));
    }
    RecomputeTouches(s, pay, dist, id, total, currency, cap, dist.entityTypeId, Col(dist, STATUS));
    UpdateKeepsCore(s, t, pay, dist, b);
  }

  lemma FreeingKeepsCore(s: Store, pay: SpRef, dist: SpRef, b: Books, targetKind: string, targetId: string, cap: nat)
    requires Core(s, pay, dist, b) && pay.entityTypeId != dist.entityTypeId
    ensures Core(TargetFreed(s, pay, dist, targetKind, targetId, cap), pay, dist, b)
  {
    hide Col, TargetFreed, Core, TOTAL, CURRENCY, MARKER, PARENT_PAYMENT, STATUS, AMOUNT, NEED_DISTR, NEEDS_REDISTR;
    var t := TargetFreed(s, pay, dist, targetKind, targetId, cap);
    ComputedApart(pay);
    StatusApart(dist);
    forall f | f in [TOTAL, CURRENCY, MARKER] ensures Untouched(s, t, pay.entityTypeId, Col(pay, f)) {
      FreeingTouches(s, pay, dist, targetKind, targetId, cap, pay.entityTypeId, Col(pay, f));
    }
    forall f | f in [PARENT_PAYMENT, MARKER] ensures Untouched(s, t, dist.entityTypeId, Col(dist, f)) {
      assert f in [PARENT_PAYMENT, AMOUNT, CURRENCY, MARKER];
      FreeingTouches(s, pay, dist, targetKind, targetId, cap, dist.entityTypeId, Col(dist, f));
    }
    FreeingAligned(s, pay, dist, targetKind, targetId, cap);
    forall k | 0 <= k < |s.items| && s.items[k].etid == dist.entityTypeId
      ensures Cell(t.items[k], dist, STATUS) == Some(Str("active")) ==> Cell(s.items[k], dist, STATUS) == Some(Str("active"))
    {
      FreeingActivatesNothing(s, pay, dist, targetKind, targetId, cap, k);
    }
    UpdateKeepsCore(s, t, pay, dist, b);
  }

  lemma FreeingActivatesNothing(s: Store, pay: SpRef, dist: SpRef, targetKind: string, targetId: string, cap: nat, k: nat)
    requires k < |s.items| && s.items[k].etid == dist.entityTypeId && pay.entityTypeId != dist.entityTypeId
    ensures var t := TargetFreed(s, pay, dist, targetKind, targetId, cap);
            && |t.items| == |s.items|
            && (Cell(t.items[k], dist, STATUS) == Some(Str("active")) ==> Cell(s.items[k], dist, STATUS) == Some(Str("active")))
  {
    hide Col, Deactivated, ParentsRecomputed, TargetRefs, Parents, ManualParents, STATUS;
    var refs := TargetRefs(Loaded(TargetRows(s, dist, targetKind, targetId), cap), dist);
    var u := Deactivated(s, dist, refs, |refs|);
    StatusAfter(s, dist, refs, |refs|, k);
    ParentsTouch(u, pay, dist, Parents(refs, |refs|), ManualParents(refs, |refs|), cap, |Parents(refs, |refs|)|,
                 dist.entityTypeId, Col(dist, STATUS));
    assert "reverted" != "active";
  }

  // ---- Registry columns and deletions

  lemma FillKeeps(s: Store, pay: SpRef, dist: SpRef, b: Books, elementId: nat, registry: Registry)
    requires Inv(s, pay, dist, b) && pay.entityTypeId != dist.entityTypeId
    ensures Inv(Exec(s, Update(pay.entityTypeId, elementId, RegistryFieldPayload(pay, registry))), pay, dist, b)
  {
    hide Col, Core, Cell, DueOn, RegistryFieldPayload, Exec, TOTAL, CURRENCY, MARKER, PARENT_PAYMENT, STATUS, AMOUNT, NEED_DISTR, NEEDS_REDISTR;
    var t := Exec(s, Update(pay.entityTypeId, elementId, RegistryFieldPayload(pay, registry)));
    forall f | f in [TOTAL, CURRENCY, NEED_DISTR, NEEDS_REDISTR, MARKER] ensures Untouched(s, t, pay.entityTypeId, Col(pay, f)) {
      if Col(pay, f) in RegistryFieldPayload(pay, registry) {
        RegistryTouchesOnlyItsColumns(pay, registry, Col(pay, f));
      }
      UpdateTouchesItsFields(s, pay.entityTypeId, elementId, RegistryFieldPayload(pay, registry), pay.entityTypeId, Col(pay, f));
    }
    var own := [TOTAL, CURRENCY, NEED_DISTR, NEEDS_REDISTR, MARKER];
    assert own[0] in own && own[1] in own && own[2] in own && own[4] in own;
    forall f ensures Untouched(s, t, dist.entityTypeId, Col(dist, f)) {
      UpdateTouchesItsFields(s, pay.entityTypeId, elementId, RegistryFieldPayload(pay, registry), dist.entityTypeId, Col(dist, f));
    }
    StatusKept(s, t, dist);
    UpdateKeepsCore(s, t, pay, dist, b);
    NeedUntouched(s, t, pay, dist);
  }

  lemma StatusKept(s: Store, t: Store, dist: SpRef)
    requires Untouched(s, t, dist.entityTypeId, Col(dist, STATUS))
    ensures forall k :: 0 <= k < |s.items| && s.items[k].etid == dist.entityTypeId ==>
              Cell(t.items[k], dist, STATUS) == Cell(s.items[k], dist, STATUS)
  {
    hide Col, STATUS;
  }

  lemma NeedUntouched(s: Store, t: Store, pay: SpRef, dist: SpRef)
    requires NeedRight(s, pay, dist)
    requires forall f :: f in [TOTAL, CURRENCY, NEED_DISTR] ==> Untouched(s, t, pay.entityTypeId, Col(pay, f))
    requires forall f :: f in [PARENT_PAYMENT, STATUS, AMOUNT, CURRENCY] ==> Untouched(s, t, dist.entityTypeId, Col(dist, f))
    ensures NeedRight(t, pay, dist)
  {
    hide Col, DueOn, ActiveSum, TOTAL, CURRENCY, NEED_DISTR, PARENT_PAYMENT, STATUS, AMOUNT;
    var own := [TOTAL, CURRENCY, NEED_DISTR];
    assert own[0] in own && own[1] in own && own[2] in own;
    forall item | item in t.items && item.etid == pay.entityTypeId
      ensures Cell(item, pay, NEED_DISTR) == Some(Num(DueOn(t, item, pay, dist)))
    {
      var k :| 0 <= k < |t.items| && t.items[k] == item;
      assert s.items[k] in s.items;
      forall c ensures ActiveSum(t, dist, s.items[k].id, c) == ActiveSum(s, dist, s.items[k].id, c) {
        SumUntouched(s, t, dist, s.items[k].id, c);
      }
      DueUntouched(s, t, pay, dist, k);
    }
  }

  lemma RemovalKeeps(s: Store, pay: SpRef, dist: SpRef, b: Books, elementId: nat)
    requires Inv(s, pay, dist, b) && pay.entityTypeId != dist.entityTypeId
    ensures Inv(Removed(s, pay.entityTypeId, elementId), pay, dist, b)
  {
    hide Cell, HasMarker, IsActiveRowOf, Valid, Due, ParsePaymentTotal, ActiveSum;
    var t := Removed(s, pay.entityTypeId, elementId);
    RemovedKeepsValid(s, pay.entityTypeId, elementId);
    forall id: nat, c ensures ActiveSum(t, dist, id, c) == ActiveSum(s, dist, id, c) {
      RemovalSum(s, pay, dist, elementId, id, c);
    }
  }

  lemma RemovalSum(s: Store, pay: SpRef, dist: SpRef, elementId: nat, id: nat, c: string)
    requires pay.entityTypeId != dist.entityTypeId
    ensures ActiveSum(Removed(s, pay.entityTypeId, elementId), dist, id, c) == ActiveSum(s, dist, id, c)
  {
    hide ActiveAmount;
    forall item | Is(item, pay.entityTypeId, elementId) ensures ActiveAmount(item, dist, id, c) == 0.0 {
      PaymentNotRow(item, pay, dist, id, c);
    }
    TallyFiltered(s.items, item => !Is(item, pay.entityTypeId, elementId), item => ActiveAmount(item, dist, id, c),
                  item => ActiveAmount(item, dist, id, c));
  }

  // ---- Every step, every run

  lemma KeyNotBlank(op: Operation)
    ensures DedupKey(op) != ""
  {
    assert '|' in DedupKey(op);
  }

  lemma ElementKnown(s: Store, pay: SpRef, dist: SpRef, b: Books, marker: string, id: nat)
    requires Core(s, pay, dist, b)
    requires exists item :: item in s.items && HasMarker(item, pay, marker) && item.id == id
    ensures id <= LastId(s, pay.entityTypeId)
  {
    hide HasMarker, OnePerMarker, TotalsKept, ParentsKnown;
    var item :| item in s.items && HasMarker(item, pay, marker) && item.id == id;
    MarkerProcess(item, pay, marker);
  }

  lemma FactKeeps(s: Store, pay: SpRef, dist: SpRef, b: Books, op: Operation, amount: real, targetKind: string, targetId: string,
                  companyId: Option<nat>, responsible: Option<nat>)
    requires Inv(s, pay, dist, b) && pay.entityTypeId != dist.entityTypeId && FromBooks(op, b)
    ensures var id := PaymentEnsured(s, pay, CarrierInput(op, companyId, responsible)).id;
            var t := FactWritten(s, pay, dist, op, amount, targetKind, targetId, companyId, responsible).store;
            && Core(t, pay, dist, b) && NeedRightBut(t, pay, dist, id)
            && (amount == 0.0 ==> NeedRight(t, pay, dist))
            && exists item :: item in t.items && HasMarker(item, pay, DedupKey(op)) && item.id == id
  {
    hide PaymentEnsured, RowWritten, NeedRight, NeedRightBut, Core, HasMarker, DedupKey;
    var input := CarrierInput(op, companyId, responsible);
    KeyNotBlank(op);
    EnsuredKeeps(s, pay, dist, input, b);
    var w := PaymentEnsured(s, pay, input);
    ElementKnown(w.store, pay, dist, b, DedupKey(op), w.id);
    RowWrittenKeeps(w.store, pay, dist, FactInput(op, w.id, amount, targetKind, targetId, responsible), b);
  }

  /** Every enabled step keeps the ledger right: one element and one row per marker, totals as the bank
      gave them, no row of an unknown element, and on each payment exactly what is due. */
  lemma StepKeeps(s: Store, pay: SpRef, dist: SpRef, cap: nat, b: Books, e: Event)
    requires Inv(s, pay, dist, b) && pay.entityTypeId != dist.entityTypeId && Enabled(s, pay, dist, cap, b, e)
    ensures Inv(Step(s, pay, dist, cap, e), pay, dist, b)
  {
    hide Inv, FactWritten, PaymentEnsured, TargetFreed, Recomputed, Removed, Fits, RegistryFieldPayload, Exec, DedupKey;
    match e
    case Recorded(op, _, _, _, _) =>
      KeyNotBlank(op);
      EnsuredKeeps(s, pay, dist, RecordInput(e), b);
    case Allocated(op, kind, id, companyId, responsible) =>
      FactKeeps(s, pay, dist, b, op, op.amount, kind, id, companyId, responsible);
      AllocationKeeps(s, pay, dist, b, op, kind, id, companyId, responsible, cap);
    case Triggered(op, kind, id, companyId, responsible) =>
      TriggerKeeps(s, pay, dist, b, op, kind, id, companyId, responsible);
    case Filled(elementId, registry) =>
      FillKeeps(s, pay, dist, b, elementId, registry);
    case TargetDeleted(kind, id) =>
      DeletionKeeps(s, pay, dist, b, kind, id, cap);
    case PaymentGone(elementId) =>
      RemovalKeeps(s, pay, dist, b, elementId);
  }

  lemma AllocationKeeps(s: Store, pay: SpRef, dist: SpRef, b: Books, op: Operation, targetKind: string, targetId: string,
                        companyId: Option<nat>, responsible: Option<nat>, cap: nat)
    requires Inv(s, pay, dist, b) && pay.entityTypeId != dist.entityTypeId && FromBooks(op, b)
    requires Fits(FactWritten(s, pay, dist, op, op.amount, targetKind, targetId, companyId, responsible).store, dist, cap)
    ensures Inv(AllocationWritten(s, pay, dist, op, targetKind, targetId, companyId, responsible, cap), pay, dist, b)
  {
    hide Inv, FactWritten, PaymentEnsured, Recomputed, DedupKey, ActiveRows, TargetRows, NeedRightBut, Core, HasMarker;
    FactKeeps(s, pay, dist, b, op, op.amount, targetKind, targetId, companyId, responsible);
    KeyNotBlank(op);
    var id := PaymentEnsured(s, pay, CarrierInput(op, companyId, responsible)).id;
    var t := FactWritten(s, pay, dist, op, op.amount, targetKind, targetId, companyId, responsible).store;
    assert |ActiveRows(t, dist, id)| <= cap;
    RecomputeRights(t, pay, dist, b, id, DedupKey(op), op.amount, op.currency, cap);
  }

  lemma TriggerKeeps(s: Store, pay: SpRef, dist: SpRef, b: Books, op: Operation, targetKind: string, targetId: string,
                     companyId: Option<nat>, responsible: Option<nat>)
    requires Inv(s, pay, dist, b) && pay.entityTypeId != dist.entityTypeId && FromBooks(op, b)
    ensures Inv(FactWritten(s, pay, dist, op, 0.0, targetKind, targetId, companyId, responsible).store, pay, dist, b)
  {
    hide FactWritten, NeedRight, NeedRightBut, Core, HasMarker, DedupKey;
    FactKeeps(s, pay, dist, b, op, 0.0, targetKind, targetId, companyId, responsible);
  }

  lemma DeletionKeeps(s: Store, pay: SpRef, dist: SpRef, b: Books, targetKind: string, targetId: string, cap: nat)
    requires Inv(s, pay, dist, b) && pay.entityTypeId != dist.entityTypeId && Fits(s, dist, cap)
    ensures Inv(TargetFreed(s, pay, dist, targetKind, targetId, cap), pay, dist, b)
  {
    hide TargetFreed, NeedRight, Fits;
    FreeingKeepsCore(s, pay, dist, b, targetKind, targetId, cap);
    FreeingKeepsNeedRight(s, pay, dist, targetKind, targetId, cap);
  }

  ghost function Run(s: Store, pay: SpRef, dist: SpRef, cap: nat, events: seq<Event>): Store
  {
    if events == [] then s
    else Step(Run(s, pay, dist, cap, events[..|events| - 1]), pay, dist, cap, events[|events| - 1])
  }

  ghost predicate AllEnabled(s: Store, pay: SpRef, dist: SpRef, cap: nat, b: Books, events: seq<Event>)
  {
    events == []
    || (AllEnabled(s, pay, dist, cap, b, events[..|events| - 1])
        && Enabled(Run(s, pay, dist, cap, events[..|events| - 1]), pay, dist, cap, b, events[|events| - 1]))
  }

  /** Over every run from an empty portal. */
  lemma {:induction false} LedgerAlwaysRight(pay: SpRef, dist: SpRef, cap: nat, b: Books, events: seq<Event>)
    requires pay.entityTypeId != dist.entityTypeId
    requires AllEnabled(Store([], map[]), pay, dist, cap, b, events)
    ensures Inv(Run(Store([], map[]), pay, dist, cap, events), pay, dist, b)
  {
    hide Step, Enabled, Core, NeedRight;
    if events == [] {
      EmptyStart(pay, dist, b);
    } else {
      var front := events[..|events| - 1];
      LedgerAlwaysRight(pay, dist, cap, b, front);
      StepKeeps(Run(Store([], map[]), pay, dist, cap, front), pay, dist, cap, b, events[|events| - 1]);
    }
  }

  lemma EmptyStart(pay: SpRef, dist: SpRef, b: Books)
    ensures Inv(Store([], map[]), pay, dist, b)
  {
  }

  // ---- A crash

  /** A crash between deactivating rows and recomputing their parents leaves everything but the
      remainders right, wherever it struck. */
  lemma CrashKeepsCore(s: Store, pay: SpRef, dist: SpRef, b: Books, refs: seq<TargetRowRef>, n: nat)
    requires Core(s, pay, dist, b) && pay.entityTypeId != dist.entityTypeId && n <= |refs|
    ensures Core(Deactivated(s, dist, refs, n), pay, dist, b)
  {
    hide Col, Deactivated, Core, TOTAL, CURRENCY, MARKER, PARENT_PAYMENT, STATUS, AMOUNT, Listed;
    var t := Deactivated(s, dist, refs, n);
    StatusApart(dist);
    forall f | f in [TOTAL, CURRENCY, MARKER] ensures Untouched(s, t, pay.entityTypeId, Col(pay, f)) {
      DeactivateTouches(s, dist, refs, n, pay.entityTypeId, Col(pay, f));
    }
    forall f | f in [PARENT_PAYMENT, MARKER] ensures Untouched(s, t, dist.entityTypeId, Col(dist, f)) {
      assert f in [PARENT_PAYMENT, AMOUNT, CURRENCY, MARKER];
      DeactivateTouches(s, dist, refs, n, dist.entityTypeId, Col(dist, f));
    }
    DeactivateTouches(s, dist, refs, n, dist.entityTypeId + 1, "");
    forall k | 0 <= k < |s.items| && s.items[k].etid == dist.entityTypeId
      ensures Cell(t.items[k], dist, STATUS) == Some(Str("active")) ==> Cell(s.items[k], dist, STATUS) == Some(Str("active"))
    {
      StatusAfter(s, dist, refs, n, k);
      assert "reverted" != "active";
    }
    UpdateKeepsCore(s, t, pay, dist, b);
  }
}
