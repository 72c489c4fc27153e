/** The ledger at work: finding or creating elements and rows by their markers, recomputing what is
    left to distribute, and freeing the rows of a deleted target (server/utils/distributionLedgerWrite.ts).
    The calls of one operation run without others between them; `LedgerInterleaving` takes them apart. */
module LedgerWrite {
  import opened Outcome
  import opened Money
  import opened DistributionSp
  import opened ItemStore
  import opened DistributionLedger

  const MAX_LEDGER_PAGES := 100

  // ---- Loading

  /** What the page loop brings back: everything, up to its cap. */
  function Loaded(all: seq<Item>, cap: nat): seq<Item>
  {
    if |all| <= cap then all else all[..cap]
  }

  method LoadAll(portal: Portal, q: Query) returns (items: seq<Item>)
    requires portal.pageSize > 0
    ensures items == Loaded(Found(portal.store, q), MAX_LEDGER_PAGES * portal.pageSize)
  {
    hide Found;
    items := [];
    var start: Option<nat> := Some(0);
    var page := 0;
    ghost var all, reached, cap := Found(portal.store, q), 0, MAX_LEDGER_PAGES * portal.pageSize;
    while page < MAX_LEDGER_PAGES && start.Some?
      invariant page <= MAX_LEDGER_PAGES && reached + PagesLeft(page, portal.pageSize) == cap
      invariant start.Some? ==> start.value == reached <= |all| && items == all[..reached] && (page > 0 ==> reached < |all|)
      invariant start.None? ==> items == all && |all| <= reached
      decreases MAX_LEDGER_PAGES - page
    {
      var batch, next := portal.ListPage(q, start.value);
      items := items + batch;
      start := next;
      page := page + 1;
      reached := reached + portal.pageSize;
    }
  }

  /** How much the remaining pages could still bring. */
  ghost function PagesLeft(page: nat, pageSize: nat): (left: nat)
    requires page <= MAX_LEDGER_PAGES
    ensures left == (MAX_LEDGER_PAGES - page) * pageSize
    decreases MAX_LEDGER_PAGES - page
  {
    if page == MAX_LEDGER_PAGES then 0 else pageSize + PagesLeft(page + 1, pageSize)
  }

  function Entries(items: seq<Item>, dist: SpRef): (entries: seq<Entry>)
    ensures |entries| == |items| && forall k :: 0 <= k < |items| ==> entries[k] == ParseLedgerRow(items[k], dist)
  {
    seq(|items|, k requires 0 <= k < |items| => ParseLedgerRow(items[k], dist))
  }

  function ActiveRows(s: Store, dist: SpRef, paymentId: nat): seq<Item>
  {
    Found(s, ActiveRowsListCall(dist, paymentId))
  }

  function TargetRows(s: Store, dist: SpRef, targetKind: string, targetId: string): seq<Item>
  {
    Found(s, TargetRowsListCall(dist, targetKind, targetId))
  }

  function TargetRefs(items: seq<Item>, dist: SpRef): seq<TargetRowRef>
  {
    if items == [] then []
    else
      var ref := ParseTargetRow(items[0], dist);
      (if ref.Some? then [ref.value] else []) + TargetRefs(items[1..], dist)
  }

  // ---- Find or create

  function FindByMarker(s: Store, sp: SpRef, marker: string): Option<nat>
  {
    if marker == "" then None
    else
      var found := Found(s, MarkerListCall(sp, marker));
      if found == [] then None else Some(found[0].id)
  }

  datatype Written = Written(store: Store, id: nat, created: bool)

  function FindOrAdd(s: Store, sp: SpRef, marker: string, add: Call): Written
    requires add.Add?
  {
    match FindByMarker(s, sp, marker)
    case Some(id) => Written(s, id, false)
    case None => Written(Exec(s, add), LastId(Exec(s, add), add.etid), true)
  }

  function PaymentEnsured(s: Store, pay: SpRef, input: PaymentInput): Written
  {
    FindOrAdd(s, pay, input.marker, PaymentElementAddCall(pay, input))
  }

  function RowWritten(s: Store, dist: SpRef, input: RowInput): Written
  {
    FindOrAdd(s, dist, input.marker, DistributionRowAddCall(dist, input))
  }

  method FindElementByMarker(portal: Portal, sp: SpRef, marker: string) returns (id: Option<nat>)
    requires portal.pageSize > 0
    ensures id == FindByMarker(portal.store, sp, marker)
  {
    if marker == "" {
      return None;
    }
    var page, _ := portal.ListPage(MarkerListCall(sp, marker), 0);
    id := if page == [] then None else Some(page[0].id);
  }

  method EnsurePaymentElement(portal: Portal, pay: SpRef, input: PaymentInput) returns (id: nat, created: bool)
    requires portal.pageSize > 0
    modifies portal
    ensures Written(portal.store, id, created) == PaymentEnsured(old(portal.store), pay, input)
  {
    var existing := FindElementByMarker(portal, pay, input.marker);
    if existing.Some? {
      return existing.value, false;
    }
    id := portal.Send(PaymentElementAddCall(pay, input));
    created := true;
  }

  method WriteDistributionRow(portal: Portal, dist: SpRef, input: RowInput) returns (id: nat, created: bool)
    requires portal.pageSize > 0
    modifies portal
    ensures Written(portal.store, id, created) == RowWritten(old(portal.store), dist, input)
  {
    var existing := FindElementByMarker(portal, dist, input.marker);
    if existing.Some? {
      return existing.value, false;
    }
    id := portal.Send(DistributionRowAddCall(dist, input));
    created := true;
  }

  // ---- Recompute

  function Remaining(s: Store, dist: SpRef, paymentId: nat, total: real, currency: string, cap: nat): real
  {
    DistributionSummary(total, currency, Entries(Loaded(ActiveRows(s, dist, paymentId), cap), dist)).remaining
  }

  function Recomputed(s: Store, pay: SpRef, dist: SpRef, paymentId: nat, total: real, currency: string, cap: nat): Store
  {
    Exec(s, NeedRecomputeCall(pay, paymentId, Remaining(s, dist, paymentId, total, currency, cap)))
  }

  method RecomputeNeedDistribution(portal: Portal, pay: SpRef, paymentId: nat, dist: SpRef, total: real, currency: string)
    returns (remaining: real)
    requires portal.pageSize > 0
    modifies portal
    ensures remaining == Remaining(old(portal.store), dist, paymentId, total, currency, MAX_LEDGER_PAGES * portal.pageSize)
    ensures portal.store == Recomputed(old(portal.store), pay, dist, paymentId, total, currency, MAX_LEDGER_PAGES * portal.pageSize)
  {
    var rows := LoadAll(portal, ActiveRowsListCall(dist, paymentId));
    remaining := DistributionSummary(total, currency, Entries(rows, dist)).remaining;
    var _ := portal.Send(NeedRecomputeCall(pay, paymentId, remaining));
  }

  // ---- A deleted target

  /** The first `n` rows deactivated, in order. */
  function Deactivated(s: Store, dist: SpRef, refs: seq<TargetRowRef>, n: nat): Store
    requires n <= |refs|
  {
    if n == 0 then s else Exec(Deactivated(s, dist, refs, n - 1), DeactivateRowCall(dist, refs[n - 1].rowId))
  }

  /** The parents of the first `n` rows, each once, in order of first appearance. */
  function Parents(refs: seq<TargetRowRef>, n: nat): seq<real>
    requires n <= |refs|
  {
    if n == 0 then []
    else
      var front := Parents(refs, n - 1);
      if refs[n - 1].parent in front then front else front + [refs[n - 1].parent]
  }

  function ManualParents(refs: seq<TargetRowRef>, n: nat): set<real>
    requires n <= |refs|
  {
    set k | 0 <= k < n && refs[k].source == Manual :: refs[k].parent
  }

  /** One parent brought up to date; a payment that is gone is passed over. */
  function ParentRecomputed(s: Store, pay: SpRef, dist: SpRef, parent: real, manual: bool, cap: nat): Store
  {
    var found := Found(s, PaymentReadCall(pay, parent));
    if found == [] then s
    else
      var total := ParsePaymentTotal(found[0], pay);
      var t := Recomputed(s, pay, dist, found[0].id, total.total, total.currency, cap);
      if manual then Exec(t, RequiresRedistributionCall(pay, found[0].id, true)) else t
  }

  function ParentsRecomputed(s: Store, pay: SpRef, dist: SpRef, parents: seq<real>, manual: set<real>, cap: nat, n: nat): Store
    requires n <= |parents|
  {
    if n == 0 then s
    else
      ParentRecomputed(ParentsRecomputed(s, pay, dist, parents, manual, cap, n - 1), pay, dist, parents[n - 1],
                       parents[n - 1] in manual, cap)
  }

  /** How many of the first `n` parents were still there to be brought up to date. */
  function Reached(s: Store, pay: SpRef, dist: SpRef, parents: seq<real>, manual: set<real>, cap: nat, n: nat): nat
    requires n <= |parents|
  {
    if n == 0 then 0
    else
      var front := ParentsRecomputed(s, pay, dist, parents, manual, cap, n - 1);
      Reached(s, pay, dist, parents, manual, cap, n - 1) + if Found(front, PaymentReadCall(pay, parents[n - 1])) == [] then 0 else 1
  }

  function TargetFreed(s: Store, pay: SpRef, dist: SpRef, targetKind: string, targetId: string, cap: nat): Store
  {
    var refs := TargetRefs(Loaded(TargetRows(s, dist, targetKind, targetId), cap), dist);
    var parents := Parents(refs, |refs|);
    ParentsRecomputed(Deactivated(s, dist, refs, |refs|), pay, dist, parents, ManualParents(refs, |refs|), cap, |parents|)
  }

  method ReadPayment(portal: Portal, pay: SpRef, parent: real) returns (item: Option<Item>)
    requires portal.pageSize > 0
    ensures var found := Found(portal.store, PaymentReadCall(pay, parent));
            item == if found == [] then None else Some(found[0])
  {
    hide Found;
    var page, _ := portal.ListPage(PaymentReadCall(pay, parent), 0);
    item := if page == [] then None else Some(page[0]);
  }

  method DeactivateRows(portal: Portal, dist: SpRef, rows: seq<TargetRowRef>)
    modifies portal
    ensures portal.store == Deactivated(old(portal.store), dist, rows, |rows|)
  {
    hide Exec;
    for i := 0 to |rows|
      invariant portal.store == Deactivated(old(portal.store), dist, rows, i)
    {
      var _ := portal.Send(DeactivateRowCall(dist, rows[i].rowId));
    }
  }

  lemma NoManual(refs: seq<TargetRowRef>)
    ensures ManualParents(refs, 0) == {}
  {
  }

  lemma ManualNext(refs: seq<TargetRowRef>, n: nat)
    requires n < |refs|
    ensures ManualParents(refs, n + 1) == ManualParents(refs, n) + if refs[n].source.Manual? then {refs[n].parent} else {}
  {
  }

  method GroupParents(rows: seq<TargetRowRef>) returns (parents: seq<real>, manual: set<real>)
    ensures parents == Parents(rows, |rows|) && manual == ManualParents(rows, |rows|)
  {
    hide ManualParents;
    assert ManualParents(rows, 0) == {} by { NoManual(rows); }
    manual, parents := {}, [];
    for i := 0 to |rows|
      invariant parents == Parents(rows, i) && manual == ManualParents(rows, i)
    {
      ManualNext(rows, i);
      if rows[i].parent !in parents {
        parents := parents + [rows[i].parent];
      }
      if rows[i].source.Manual? {
        manual := manual + {rows[i].parent};
      }
    }
  }

  method RecomputeParents(portal: Portal, pay: SpRef, dist: SpRef, parents: seq<real>, manual: set<real>) returns (reached: nat)
    requires portal.pageSize > 0
    modifies portal
    ensures var cap := MAX_LEDGER_PAGES * portal.pageSize;
            && portal.store == ParentsRecomputed(old(portal.store), pay, dist, parents, manual, cap, |parents|)
            && reached == Reached(old(portal.store), pay, dist, parents, manual, cap, |parents|)
  {
    hide Exec, DistributionSummary, Recomputed, Remaining, ParsePaymentTotal, Found;
    ghost var cap := MAX_LEDGER_PAGES * portal.pageSize;
    reached := 0;
    for i := 0 to |parents|
      invariant portal.store == ParentsRecomputed(old(portal.store), pay, dist, parents, manual, cap, i)
      invariant reached == Reached(old(portal.store), pay, dist, parents, manual, cap, i)
    {
      var payment := ReadPayment(portal, pay, parents[i]);
      if payment.None? {
        continue;
      }
      var total := ParsePaymentTotal(payment.value, pay);
      var _ := RecomputeNeedDistribution(portal, pay, payment.value.id, dist, total.total, total.currency);
      reached := reached + 1;
      if parents[i] in manual {
        var _ := portal.Send(RequiresRedistributionCall(pay, payment.value.id, true));
      }
    }
  }

  method ReconcileTargetDeletion(portal: Portal, pay: SpRef, dist: SpRef, targetKind: string, targetId: string)
    returns (freed: nat, parentsRecomputed: nat, manualParents: nat)
    requires portal.pageSize > 0
    modifies portal
    ensures portal.store == TargetFreed(old(portal.store), pay, dist, targetKind, targetId, MAX_LEDGER_PAGES * portal.pageSize)
    ensures var cap := MAX_LEDGER_PAGES * portal.pageSize;
            var refs := TargetRefs(Loaded(TargetRows(old(portal.store), dist, targetKind, targetId), cap), dist);
            var parents, manual := Parents(refs, |refs|), ManualParents(refs, |refs|);
            && freed == |refs| && manualParents == |manual|
            && parentsRecomputed == Reached(Deactivated(old(portal.store), dist, refs, |refs|), pay, dist, parents, manual, cap, |parents|)
  {
    hide Found, TargetRefs, Deactivated, Parents, ManualParents, ParentsRecomputed, Reached, TargetRowsListCall;
    var items := LoadAll(portal, TargetRowsListCall(dist, targetKind, targetId));
    var rows := TargetRefs(items, dist);
    if rows == [] {
      NothingFreed(portal.store, pay, dist, MAX_LEDGER_PAGES * portal.pageSize);
      return 0, 0, 0;
    }
    DeactivateRows(portal, dist, rows);
    var parents, manual := GroupParents(rows);
    parentsRecomputed := RecomputeParents(portal, pay, dist, parents, manual);
    freed, manualParents := |rows|, |manual|;
  }

  lemma NothingFreed(s: Store, pay: SpRef, dist: SpRef, cap: nat)
    ensures Deactivated(s, dist, [], 0) == s && Parents([], 0) == [] && ManualParents([], 0) == {}
    ensures ParentsRecomputed(s, pay, dist, [], {}, cap, 0) == s && Reached(s, pay, dist, [], {}, cap, 0) == 0
  {
  }

  // ---- Every payment anew

  /** How many payments one portal-wide listing takes in: so many, or what its pages hold. */
  const MAX_LEDGER_PAYMENTS := 200

  function CarrierCap(pageSize: nat): nat
  {
    if MAX_LEDGER_PAGES * pageSize < MAX_LEDGER_PAYMENTS then MAX_LEDGER_PAGES * pageSize else MAX_LEDGER_PAYMENTS
  }

  function Carriers(items: seq<Item>, pay: SpRef): (carriers: seq<Carrier>)
    ensures |carriers| == |items| && forall k :: 0 <= k < |items| ==> carriers[k] == ParsePaymentCarrier(items[k], pay)
  {
    seq(|items|, k requires 0 <= k < |items| => ParsePaymentCarrier(items[k], pay))
  }

  /** The newest payments, up to a number. */
  function NewestCarriers(s: Store, pay: SpRef, limit: nat): seq<Carrier>
  {
    Carriers(Loaded(Newest(s.items, pay.entityTypeId), limit), pay)
  }

  function Least(a: nat, b: nat): nat
  {
    if a < b then a else b
  }

  /** One page taken in, up to the number of payments. */
  method TakeCarriers(carriers: seq<Carrier>, batch: seq<Item>, pay: SpRef) returns (taken: seq<Carrier>)
    requires |carriers| < MAX_LEDGER_PAYMENTS
    ensures taken == carriers + Carriers(batch[..Least(|batch|, MAX_LEDGER_PAYMENTS - |carriers|)], pay)
  {
    hide ParsePaymentCarrier;
    taken := carriers;
    for i := 0 to |batch|
      invariant |carriers| + i < MAX_LEDGER_PAYMENTS && taken == carriers + Carriers(batch[..i], pay)
    {
      assert Carriers(batch[..i + 1], pay) == Carriers(batch[..i], pay) + [ParsePaymentCarrier(batch[i], pay)];
      taken := taken + [ParsePaymentCarrier(batch[i], pay)];
      if |taken| >= MAX_LEDGER_PAYMENTS {
        return;
      }
    }
  }

  /** What has been taken in when a listing has come so many places: all up to there, or to the cap. */
  ghost predicate TakenUpTo(carriers: seq<Carrier>, all: seq<Item>, pay: SpRef, reached: nat)
  {
    carriers == Carriers(all[..Least(Least(reached, |all|), MAX_LEDGER_PAYMENTS)], pay)
  }

  lemma TakenNext(carriers: seq<Carrier>, all: seq<Item>, pay: SpRef, reached: nat, pageSize: nat, batch: seq<Item>)
    requires TakenUpTo(carriers, all, pay, reached) && reached <= |all| && |carriers| < MAX_LEDGER_PAYMENTS
    requires batch == all[reached..Least(reached + pageSize, |all|)]
    ensures TakenUpTo(carriers + Carriers(batch[..Least(|batch|, MAX_LEDGER_PAYMENTS - |carriers|)], pay), all, pay, reached + pageSize)
  {
    hide ParsePaymentCarrier;
    assert |carriers| == reached;
    var more := Least(|batch|, MAX_LEDGER_PAYMENTS - reached);
    assert Least(Least(reached + pageSize, |all|), MAX_LEDGER_PAYMENTS) == reached + more;
    assert Carriers(all[..reached], pay) + Carriers(batch[..more], pay) == Carriers(all[..reached + more], pay);
  }

  lemma TakenNothing(all: seq<Item>, pay: SpRef)
    ensures TakenUpTo([], all, pay, 0)
  {
  }

  lemma TakenAll(carriers: seq<Carrier>, s: Store, pay: SpRef, reached: nat, pageSize: nat)
    requires TakenUpTo(carriers, Newest(s.items, pay.entityTypeId), pay, reached) && reached <= MAX_LEDGER_PAGES * pageSize
    requires |carriers| >= MAX_LEDGER_PAYMENTS || |Newest(s.items, pay.entityTypeId)| <= reached || reached == MAX_LEDGER_PAGES * pageSize
    ensures carriers == NewestCarriers(s, pay, CarrierCap(pageSize))
  {
    hide Newest, ParsePaymentCarrier;
    var all := Newest(s.items, pay.entityTypeId);
    assert Loaded(all, CarrierCap(pageSize)) == all[..Least(Least(reached, |all|), MAX_LEDGER_PAYMENTS)];
  }

  method LoadCarriers(portal: Portal, pay: SpRef) returns (carriers: seq<Carrier>)
    requires portal.pageSize > 0
    ensures carriers == NewestCarriers(portal.store, pay, CarrierCap(portal.pageSize))
  {
    hide Newest, Carriers, TakenUpTo, NewestCarriers;
    carriers := [];
    var start: Option<nat> := Some(0);
    var page := 0;
    ghost var all, reached, cap := Newest(portal.store.items, pay.entityTypeId), 0, MAX_LEDGER_PAGES * portal.pageSize;
    TakenNothing(all, pay);
    while page < MAX_LEDGER_PAGES && start.Some? && |carriers| < MAX_LEDGER_PAYMENTS
      invariant page <= MAX_LEDGER_PAGES && reached + PagesLeft(page, portal.pageSize) == cap
      invariant start.Some? ==> start.value == reached <= |all|
      invariant start.None? ==> |all| <= reached
      invariant TakenUpTo(carriers, all, pay, reached)
      decreases MAX_LEDGER_PAGES - page
    {
      var batch, next := portal.ListNewest(pay.entityTypeId, start.value);
      TakenNext(carriers, all, pay, reached, portal.pageSize, batch);
      carriers := TakeCarriers(carriers, batch, pay);
      start := next;
      page := page + 1;
      reached := reached + portal.pageSize;
    }
    TakenAll(carriers, portal.store, pay, reached, portal.pageSize);
  }

  /** The first `n` carriers recomputed, each from the total its listing showed. */
  function CarriersRecomputed(s: Store, pay: SpRef, dist: SpRef, carriers: seq<Carrier>, cap: nat, n: nat): Store
    requires n <= |carriers|
  {
    if n == 0 then s
    else
      var c := carriers[n - 1];
      Recomputed(CarriersRecomputed(s, pay, dist, carriers, cap, n - 1), pay, dist, c.id, c.total, c.currency, cap)
  }

  function AllRecomputed(s: Store, pay: SpRef, dist: SpRef, cap: nat, limit: nat): Store
  {
    var carriers := NewestCarriers(s, pay, limit);
    CarriersRecomputed(s, pay, dist, carriers, cap, |carriers|)
  }

  method RecomputeAllPayments(portal: Portal, pay: SpRef, dist: SpRef) returns (recomputed: nat)
    requires portal.pageSize > 0
    modifies portal
    ensures portal.store == AllRecomputed(old(portal.store), pay, dist, MAX_LEDGER_PAGES * portal.pageSize, CarrierCap(portal.pageSize))
    ensures recomputed == |NewestCarriers(old(portal.store), pay, CarrierCap(portal.pageSize))|
  {
    hide Recomputed, Remaining, NewestCarriers;
    var carriers := LoadCarriers(portal, pay);
    recomputed := 0;
    for i := 0 to |carriers|
      invariant recomputed == i
      invariant portal.store == CarriersRecomputed(old(portal.store), pay, dist, carriers, MAX_LEDGER_PAGES * portal.pageSize, i)
    {
      var _ := RecomputeNeedDistribution(portal, pay, carriers[i].id, dist, carriers[i].total, carriers[i].currency);
      recomputed := recomputed + 1;
    }
  }

  // ---- One allocation, one trigger

  /** What the ledger needs of a statement operation: its account, what tells it apart on the account
      (the bank's id, or a signature), and the money. */
  datatype Operation = Operation(account: string, docPart: string, amount: real, currency: string)

  function DedupKey(op: Operation): string
  {
    op.account + "|" + op.docPart
  }

  function FactKey(op: Operation, targetKind: string, targetId: string): string
  {
    DedupKey(op) + "|" + targetKind + "|" + targetId
  }

  const NO_REGISTRY := Registry("", "", "", "", "", "", "", "")

  function CarrierInput(op: Operation, companyId: Option<nat>, responsible: Option<nat>): PaymentInput
  {
    PaymentInput(op.amount, op.currency, DedupKey(op), companyId, NO_REGISTRY, "", responsible)
  }

  function FactInput(op: Operation, paymentId: nat, amount: real, targetKind: string, targetId: string, responsible: Option<nat>): RowInput
  {
    RowInput(paymentId, amount, op.currency, targetKind, targetId, Auto, FactKey(op, targetKind, targetId), responsible)
  }

  /** The element and the row of an allocation, in place; `amount` is zero for a trigger. */
  function FactWritten(s: Store, pay: SpRef, dist: SpRef, op: Operation, amount: real, targetKind: string, targetId: string,
                       companyId: Option<nat>, responsible: Option<nat>): Written
  {
    var payment := PaymentEnsured(s, pay, CarrierInput(op, companyId, responsible));
    RowWritten(payment.store, dist, FactInput(op, payment.id, amount, targetKind, targetId, responsible))
  }

  function AllocationWritten(s: Store, pay: SpRef, dist: SpRef, op: Operation, targetKind: string, targetId: string,
                             companyId: Option<nat>, responsible: Option<nat>, cap: nat): Store
  {
    var payment := PaymentEnsured(s, pay, CarrierInput(op, companyId, responsible));
    var row := FactWritten(s, pay, dist, op, op.amount, targetKind, targetId, companyId, responsible);
    Recomputed(row.store, pay, dist, payment.id, op.amount, op.currency, cap)
  }

  method WriteLedgerAllocation(portal: Portal, pay: SpRef, dist: SpRef, op: Operation, targetKind: string, targetId: string,
                               companyId: Option<nat>, responsible: Option<nat>)
    returns (paymentId: nat, rowId: nat, rowCreated: bool, remaining: real)
    requires portal.pageSize > 0
    modifies portal
    ensures portal.store == AllocationWritten(old(portal.store), pay, dist, op, targetKind, targetId, companyId, responsible,
                                              MAX_LEDGER_PAGES * portal.pageSize)
    ensures var row := FactWritten(old(portal.store), pay, dist, op, op.amount, targetKind, targetId, companyId, responsible);
            && paymentId == PaymentEnsured(old(portal.store), pay, CarrierInput(op, companyId, responsible)).id
            && rowId == row.id && rowCreated == row.created
            && remaining == Remaining(row.store, dist, paymentId, op.amount, op.currency, MAX_LEDGER_PAGES * portal.pageSize)
  {
    hide PaymentEnsured, RowWritten, Recomputed, Remaining;
    var found: bool;
    paymentId, found := EnsurePaymentElement(portal, pay, CarrierInput(op, companyId, responsible));
    rowId, rowCreated := WriteDistributionRow(portal, dist, FactInput(op, paymentId, op.amount, targetKind, targetId, responsible));
    remaining := RecomputeNeedDistribution(portal, pay, paymentId, dist, op.amount, op.currency);
  }

  method WriteTriggerLedgerFact(portal: Portal, pay: SpRef, dist: SpRef, op: Operation, targetKind: string, targetId: string,
                                companyId: Option<nat>, responsible: Option<nat>)
    returns (created: bool)
    requires portal.pageSize > 0
    modifies portal
    ensures var w := FactWritten(old(portal.store), pay, dist, op, 0.0, targetKind, targetId, companyId, responsible);
            portal.store == w.store && created == w.created
  {
    hide PaymentEnsured, RowWritten;
    var paymentId, _ := EnsurePaymentElement(portal, pay, CarrierInput(op, companyId, responsible));
    var _, rowCreated := WriteDistributionRow(portal, dist, FactInput(op, paymentId, 0.0, targetKind, targetId, responsible));
    created := rowCreated;
  }
}
