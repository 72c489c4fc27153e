/** What the ledger keeps over every run of its operations: one element and one row per marker, and on
    every payment exactly what is left to distribute. */
module LedgerRuns {
  import opened Outcome
  import opened Money
  import opened DistributionSp
  import opened ItemStore
  import opened DistributionLedger
  import opened LedgerWrite

  // ---- What an operation leaves alone

  /** The same items in the same places: nothing added, nothing deleted. */
  ghost predicate Aligned(s: Store, t: Store)
  {
    && t.last == s.last && |t.items| == |s.items|
    && forall k :: 0 <= k < |s.items| ==> t.items[k].etid == s.items[k].etid && t.items[k].id == s.items[k].id
  }

  /** One column of one process holds what it held. */
  ghost predicate Untouched(s: Store, t: Store, etid: nat, name: string)
  {
    && Aligned(s, t)
    && forall k :: 0 <= k < |s.items| && s.items[k].etid == etid ==> Value(t.items[k], name) == Value(s.items[k], name)
  }

  lemma UpdateTouchesItsFields(s: Store, etid: nat, id: nat, fields: map<string, Val>, e: nat, name: string)
    requires e != etid || name !in fields
    ensures Untouched(s, Exec(s, Update(etid, id, fields)), e, name)
  {
  }

  lemma AlignedValid(s: Store, t: Store)
    requires Valid(s) && Aligned(s, t)
    ensures Valid(t)
  {
  }

  /** A recompute touches the column it computes and no other. */
  lemma RecomputeTouches(s: Store, pay: SpRef, dist: SpRef, paymentId: nat, total: real, currency: string, cap: nat, e: nat, name: string)
    requires e != pay.entityTypeId || name != Col(pay, NEED_DISTR)
    ensures Untouched(s, Recomputed(s, pay, dist, paymentId, total, currency, cap), e, name)
  {
    hide Remaining, Col, Exec, Untouched;
    UpdateTouchesItsFields(s, pay.entityTypeId, paymentId,
                           map[Col(pay, NEED_DISTR) := Num(Round2(Remaining(s, dist, paymentId, total, currency, cap)))], e, name);
  }

  lemma ParentTouches(s: Store, pay: SpRef, dist: SpRef, parent: real, manual: bool, cap: nat, e: nat, name: string)
    requires e != pay.entityTypeId || (name != Col(pay, NEED_DISTR) && name != Col(pay, NEEDS_REDISTR))
    ensures Untouched(s, ParentRecomputed(s, pay, dist, parent, manual, cap), e, name)
  {
    hide Recomputed, Found, Col, Exec;
    var found := Found(s, PaymentReadCall(pay, parent));
    if found != [] {
      var total := ParsePaymentTotal(found[0], pay);
      var t := Recomputed(s, pay, dist, found[0].id, total.total, total.currency, cap);
      RecomputeTouches(s, pay, dist, found[0].id, total.total, total.currency, cap, e, name);
      UpdateTouchesItsFields(t, pay.entityTypeId, found[0].id, map[Col(pay, NEEDS_REDISTR) := Str("Y")], e, name);
    }
  }

  lemma {:induction false} ParentsTouch(s: Store, pay: SpRef, dist: SpRef, parents: seq<real>, manual: set<real>, cap: nat, n: nat,
                                        e: nat, name: string)
    requires n <= |parents|
    requires e != pay.entityTypeId || (name != Col(pay, NEED_DISTR) && name != Col(pay, NEEDS_REDISTR))
    ensures Untouched(s, ParentsRecomputed(s, pay, dist, parents, manual, cap, n), e, name)
  {
    hide ParentRecomputed, Col;
    if n > 0 {
      ParentsTouch(s, pay, dist, parents, manual, cap, n - 1, e, name);
      ParentTouches(ParentsRecomputed(s, pay, dist, parents, manual, cap, n - 1), pay, dist, parents[n - 1],
                    parents[n - 1] in manual, cap, e, name);
    }
  }

  lemma {:induction false} DeactivateTouches(s: Store, dist: SpRef, refs: seq<TargetRowRef>, n: nat, e: nat, name: string)
    requires n <= |refs| && (e != dist.entityTypeId || name != Col(dist, STATUS))
    ensures Untouched(s, Deactivated(s, dist, refs, n), e, name)
  {
    hide Exec, Col;
    if n > 0 {
      DeactivateTouches(s, dist, refs, n - 1, e, name);
      UpdateTouchesItsFields(Deactivated(s, dist, refs, n - 1), dist.entityTypeId, refs[n - 1].rowId,
                             map[Col(dist, STATUS) := Str("reverted")], e, name);
    }
  }

  /** Freeing a target deletes no row and no element, and touches only the rows' status and the
      payments' two computed columns. */
  lemma FreeingTouches(s: Store, pay: SpRef, dist: SpRef, targetKind: string, targetId: string, cap: nat, e: nat, name: string)
    requires e != dist.entityTypeId || name != Col(dist, STATUS)
    requires e != pay.entityTypeId || (name != Col(pay, NEED_DISTR) && name != Col(pay, NEEDS_REDISTR))
    ensures Untouched(s, TargetFreed(s, pay, dist, targetKind, targetId, cap), e, name)
  {
    hide Deactivated, ParentsRecomputed, TargetRefs, Parents, ManualParents, Col;
    var refs := TargetRefs(Loaded(TargetRows(s, dist, targetKind, targetId), cap), dist);
    DeactivateTouches(s, dist, refs, |refs|, e, name);
    ParentsTouch(Deactivated(s, dist, refs, |refs|), pay, dist, Parents(refs, |refs|), ManualParents(refs, |refs|), cap,
                 |Parents(refs, |refs|)|, e, name);
  }

  // ---- One element and one row per marker

  ghost predicate OnePerMarker(s: Store, sp: SpRef)
  {
    forall a, b, m :: a in s.items && b in s.items && m != "" && HasMarker(a, sp, m) && HasMarker(b, sp, m) ==> a.id == b.id
  }

  lemma NotFound(s: Store, sp: SpRef, marker: string)
    requires marker != "" && FindByMarker(s, sp, marker).None?
    ensures forall a :: a in s.items ==> !HasMarker(a, sp, marker)
  {
    hide Matches, HasMarker, MarkerListCall;
    forall a | a in s.items ensures !HasMarker(a, sp, marker) {
      MarkerFilterMeans(a, sp, marker);
      assert a !in Found(s, MarkerListCall(sp, marker));
    }
  }

  lemma FoundHas(s: Store, sp: SpRef, marker: string)
    requires FindByMarker(s, sp, marker).Some?
    ensures exists a :: a in s.items && HasMarker(a, sp, marker) && a.id == FindByMarker(s, sp, marker).value
  {
    hide Matches, HasMarker, MarkerListCall;
    var found := Found(s, MarkerListCall(sp, marker));
    assert found[0] in found;
    MarkerFilterMeans(found[0], sp, marker);
  }

  /** Finding before adding keeps one item per non-empty marker; an item of the other process is
      nobody's duplicate. */
  lemma FindOrAddKeepsMarkers(s: Store, sp: SpRef, marker: string, add: Call, other: SpRef)
    requires add.Add? && add.etid == sp.entityTypeId
    requires HasMarker(Item(add.etid, LastId(s, add.etid) + 1, add.fields), sp, marker)
    requires OnePerMarker(s, sp) && OnePerMarker(s, other) && other.entityTypeId != sp.entityTypeId
    ensures OnePerMarker(FindOrAdd(s, sp, marker, add).store, sp) && OnePerMarker(FindOrAdd(s, sp, marker, add).store, other)
  {
    hide HasMarker, FindByMarker;
    if FindByMarker(s, sp, marker).None? {
      var item := Item(add.etid, LastId(s, add.etid) + 1, add.fields);
      assert Exec(s, add).items == s.items + [item];
      forall a, m | a in s.items && m != "" && HasMarker(item, sp, m) ensures !HasMarker(a, sp, m) {
        OneMarkerEach(item, sp, m, marker);
        NotFound(s, sp, marker);
      }
      forall m ensures !HasMarker(item, other, m) {
        OtherProcess(item, sp, other, m);
      }
    }
  }

  lemma OneMarkerEach(item: Item, sp: SpRef, m: string, n: string)
    requires HasMarker(item, sp, m) && HasMarker(item, sp, n)
    ensures m == n
  {
  }

  lemma OtherProcess(item: Item, sp: SpRef, other: SpRef, m: string)
    requires item.etid == sp.entityTypeId != other.entityTypeId
    ensures !HasMarker(item, other, m)
  {
  }

  lemma UntouchedMarkers(s: Store, t: Store, sp: SpRef)
    requires OnePerMarker(s, sp) && Untouched(s, t, sp.entityTypeId, Col(sp, MARKER))
    ensures OnePerMarker(t, sp)
  {
    hide Col;
    forall a, b, m | a in t.items && b in t.items && m != "" && HasMarker(a, sp, m) && HasMarker(b, sp, m) ensures a.id == b.id {
      var i :| 0 <= i < |t.items| && t.items[i] == a;
      var j :| 0 <= j < |t.items| && t.items[j] == b;
      assert HasMarker(s.items[i], sp, m) && HasMarker(s.items[j], sp, m);
    }
  }

  // ---- Sums of active rows

  /** What an item takes from a payment in a currency. */
  ghost function ActiveAmount(item: Item, dist: SpRef, paymentId: nat, currency: string): real
  {
    if IsActiveRowOf(item, dist, paymentId) && TextOf(Cell(item, dist, CURRENCY)) == currency then MoneyOf(Cell(item, dist, AMOUNT))
    else 0.0
  }

  ghost function ActiveSum(s: Store, dist: SpRef, paymentId: nat, currency: string): real
  {
    Tally(s.items, item => ActiveAmount(item, dist, paymentId, currency))
  }

  lemma {:induction false} EntriesSum(items: seq<Item>, dist: SpRef, currency: string)
    ensures Distributed(Entries(items, dist), currency) == Tally(items, item => Counted(ParseLedgerRow(item, dist), currency))
  {
    hide Counted, ParseLedgerRow;
    if items != [] {
      EntriesSum(items[1..], dist, currency);
      assert Entries(items, dist)[1..] == Entries(items[1..], dist);
    }
  }

  lemma ActiveCounted(item: Item, dist: SpRef, paymentId: nat, currency: string)
    ensures ActiveAmount(item, dist, paymentId, currency)
         == if Matches(item, ActiveRowsListCall(dist, paymentId)) then Counted(ParseLedgerRow(item, dist), currency) else 0.0
  {
    hide Cell, Round2, Matches, ActiveRowsListCall;
    FiltersMean(item, dist, paymentId, "", "");
    var cell := Cell(item, dist, AMOUNT);
    if cell.Some? && cell.value.Num? {
      Rounded(cell.value.number);
    } else {
      Round2Whole(0.0);
      WholeCentsRound(0.0);
    }
    assert "active" != "reverted";
  }

  /** What the recompute reads, when the page cap is not hit, is the sum of the active rows. */
  lemma RowsReadSum(s: Store, dist: SpRef, paymentId: nat, currency: string)
    ensures Distributed(Entries(ActiveRows(s, dist, paymentId), dist), currency) == ActiveSum(s, dist, paymentId, currency)
  {
    hide ActiveAmount, Matches, Counted, ParseLedgerRow, ActiveRowsListCall, Entries;
    var q := ActiveRowsListCall(dist, paymentId);
    EntriesSum(ActiveRows(s, dist, paymentId), dist, currency);
    forall item ensures ActiveAmount(item, dist, paymentId, currency)
                     == if Matches(item, q) then Counted(ParseLedgerRow(item, dist), currency) else 0.0
    {
      ActiveCounted(item, dist, paymentId, currency);
    }
    TallyFiltered(s.items, item => Matches(item, q), item => Counted(ParseLedgerRow(item, dist), currency),
                item => ActiveAmount(item, dist, paymentId, currency));
  }

  /** What is due on a payment: its total less its active rows, never below zero. */
  ghost function Due(total: real, distributed: real): real
  {
    Max0(Max0(Round2(total)) - distributed)
  }

  /** The active rows a recompute gets to read. */
  ghost function LoadedSum(s: Store, dist: SpRef, paymentId: nat, currency: string, cap: nat): real
  {
    Distributed(Entries(Loaded(ActiveRows(s, dist, paymentId), cap), dist), currency)
  }

  /** The recomputed remainder is exactly what is due after the rows that were read. That is what is due
      exactly when the rows past the cap carry nothing on balance, or either sum uses the total up. */
  lemma RemainingIsDue(s: Store, dist: SpRef, paymentId: nat, total: real, currency: string, cap: nat)
    ensures var remaining, loaded, active, whole := Remaining(s, dist, paymentId, total, currency, cap),
                LoadedSum(s, dist, paymentId, currency, cap), ActiveSum(s, dist, paymentId, currency), Max0(Round2(total));
            && remaining == Due(total, loaded) && Round2(remaining) == remaining
            && (|ActiveRows(s, dist, paymentId)| <= cap ==> loaded == active)
            && (remaining == Due(total, active) <==> loaded == active || (loaded >= whole && active >= whole))
  {
    hide ActiveSum, ActiveRows, Distributed, Round2, Entries;
    var rows := Entries(Loaded(ActiveRows(s, dist, paymentId), cap), dist);
    SummaryExact(total, currency, rows);
    RowsReadSum(s, dist, paymentId, currency);
    Rounded(Max0(Max0(Round2(total)) - Round2(Distributed(rows, currency))));
  }

  /** Freeing or recomputing other columns leaves every sum as it was. */
  lemma SumUntouched(s: Store, t: Store, dist: SpRef, paymentId: nat, currency: string)
    requires forall f :: f in [PARENT_PAYMENT, STATUS, AMOUNT, CURRENCY] ==> Untouched(s, t, dist.entityTypeId, Col(dist, f))
    ensures ActiveSum(t, dist, paymentId, currency) == ActiveSum(s, dist, paymentId, currency)
  {
    hide Col, TextOf, MoneyOf, PARENT_PAYMENT, STATUS, AMOUNT, CURRENCY;
    var fields := [PARENT_PAYMENT, STATUS, AMOUNT, CURRENCY];
    assert fields[0] in fields && fields[1] in fields && fields[2] in fields && fields[3] in fields;
    forall k | 0 <= k < |s.items|
      ensures ActiveAmount(t.items[k], dist, paymentId, currency) == ActiveAmount(s.items[k], dist, paymentId, currency)
    {
    }
    TallySame(t.items, s.items, item => ActiveAmount(item, dist, paymentId, currency),
            item => ActiveAmount(item, dist, paymentId, currency));
  }

  // ---- Freeing a target

  /** A target's own share of a payment. */
  ghost function TargetAmount(item: Item, dist: SpRef, targetKind: string, targetId: string, paymentId: nat, currency: string): real
  {
    if IsActiveOnTarget(item, dist, targetKind, targetId) then ActiveAmount(item, dist, paymentId, currency) else 0.0
  }

  ghost function TargetSum(s: Store, dist: SpRef, targetKind: string, targetId: string, paymentId: nat, currency: string): real
  {
    Tally(s.items, item => TargetAmount(item, dist, targetKind, targetId, paymentId, currency))
  }

  predicate HasParent(item: Item, dist: SpRef)
  {
    ParseTargetRow(item, dist).Some?
  }

  lemma {:induction false} RefsMean(items: seq<Item>, dist: SpRef, ref: TargetRowRef)
    ensures ref in TargetRefs(items, dist) <==> exists item :: item in items && ParseTargetRow(item, dist) == Some(ref)
  {
    hide ParseTargetRow;
    if items != [] {
      RefsMean(items[1..], dist, ref);
      assert items == [items[0]] + items[1..];
      assert ref in TargetRefs(items, dist) <==> ParseTargetRow(items[0], dist) == Some(ref) || ref in TargetRefs(items[1..], dist);
    }
  }

  ghost predicate Listed(refs: seq<TargetRowRef>, n: nat, id: nat)
    requires n <= |refs|
  {
    exists i :: 0 <= i < n && refs[i].rowId == id
  }

  lemma {:induction false} StatusAfter(s: Store, dist: SpRef, refs: seq<TargetRowRef>, n: nat, k: nat)
    requires n <= |refs| && k < |s.items| && s.items[k].etid == dist.entityTypeId
    ensures Aligned(s, Deactivated(s, dist, refs, n))
    ensures Cell(Deactivated(s, dist, refs, n).items[k], dist, STATUS)
         == if Listed(refs, n, s.items[k].id) then Some(Str("reverted")) else Cell(s.items[k], dist, STATUS)
  {
    hide Col, STATUS;
    if n > 0 {
      StatusAfter(s, dist, refs, n - 1, k);
      NotBuiltIn(dist, STATUS);
      BuiltInNames();
    }
  }

  /** How many of the target's active rows are listed ahead of the one at `k`. */
  ghost function TargetRowsBefore(s: Store, dist: SpRef, targetKind: string, targetId: string, k: nat): nat
    requires k <= |s.items|
  {
    |TargetRows(s.(items := s.items[..k]), dist, targetKind, targetId)|
  }

  /** The target's rows that the page loop reads. */
  function RowsRead(s: Store, dist: SpRef, targetKind: string, targetId: string, cap: nat): seq<Item>
  {
    Loaded(TargetRows(s, dist, targetKind, targetId), cap)
  }

  lemma ReadAmongFirst(s: Store, dist: SpRef, targetKind: string, targetId: string, cap: nat, k: nat)
    requires Valid(s) && k < |s.items|
    ensures s.items[k] in RowsRead(s, dist, targetKind, targetId, cap) <==>
            IsActiveOnTarget(s.items[k], dist, targetKind, targetId) && TargetRowsBefore(s, dist, targetKind, targetId, k) < cap
  {
    hide IsActiveOnTarget, Matches, TargetRowsListCall, Filter;
    var q := TargetRowsListCall(dist, targetKind, targetId);
    FiltersMean(s.items[k], dist, 0, targetKind, targetId);
    FirstOnes(s.items, item => Matches(item, q), k, cap);
  }

  /** The freed rows are exactly the target's active rows that name a parent and have fewer of the target's
      active rows listed ahead of them than the page loop reads; where those rows fit, none is left out. */
  lemma FreedExactly(s: Store, dist: SpRef, targetKind: string, targetId: string, cap: nat, k: nat)
    requires Valid(s) && k < |s.items| && s.items[k].etid == dist.entityTypeId
    ensures var refs := TargetRefs(Loaded(TargetRows(s, dist, targetKind, targetId), cap), dist);
            Listed(refs, |refs|, s.items[k].id) <==>
            && IsActiveOnTarget(s.items[k], dist, targetKind, targetId) && HasParent(s.items[k], dist)
            && TargetRowsBefore(s, dist, targetKind, targetId, k) < cap
    ensures |TargetRows(s, dist, targetKind, targetId)| <= cap && IsActiveOnTarget(s.items[k], dist, targetKind, targetId) ==>
              TargetRowsBefore(s, dist, targetKind, targetId, k) < cap
  {
    hide IsActiveOnTarget, TargetRefs, TargetRows, TargetRowsBefore, HasParent, Listed, Valid;
    ReadAmongFirst(s, dist, targetKind, targetId, cap, k);
    FreedRead(s, dist, targetKind, targetId, cap, k);
    TargetRowsAre(s, dist, targetKind, targetId, s.items[k]);
  }

  lemma FreedRead(s: Store, dist: SpRef, targetKind: string, targetId: string, cap: nat, k: nat)
    requires Valid(s) && k < |s.items| && s.items[k].etid == dist.entityTypeId
    ensures var rows := RowsRead(s, dist, targetKind, targetId, cap);
            var refs := TargetRefs(rows, dist);
            Listed(refs, |refs|, s.items[k].id) <==> s.items[k] in rows && HasParent(s.items[k], dist)
  {
    hide Col, IsActiveOnTarget, Matches, TargetRowsListCall, TargetRefs, ParseTargetRow, TargetRows;
    var rows := RowsRead(s, dist, targetKind, targetId, cap);
    var refs := TargetRefs(rows, dist);
    var item := s.items[k];
    if item in rows && HasParent(item, dist) {
      var ref := ParseTargetRow(item, dist).value;
      RefsMean(rows, dist, ref);
      var i :| 0 <= i < |refs| && refs[i] == ref;
      RowIdKept(item, dist);
    }
    if Listed(refs, |refs|, item.id) {
      var i :| 0 <= i < |refs| && refs[i].rowId == item.id;
      RefsMean(rows, dist, refs[i]);
      var other :| other in rows && ParseTargetRow(other, dist) == Some(refs[i]);
      assert other in TargetRows(s, dist, targetKind, targetId);
      TargetRowsAre(s, dist, targetKind, targetId, other);
      RowIdKept(other, dist);
      TargetRowsOfProcess(other, dist, targetKind, targetId);
      var j :| 0 <= j < |s.items| && s.items[j] == other;
      SameById(s, k, j);
    }
  }

  lemma TargetRowsAre(s: Store, dist: SpRef, targetKind: string, targetId: string, item: Item)
    ensures item in TargetRows(s, dist, targetKind, targetId) <==>
            item in s.items && IsActiveOnTarget(item, dist, targetKind, targetId)
  {
    hide IsActiveOnTarget, Matches, TargetRowsListCall;
    FiltersMean(item, dist, 0, targetKind, targetId);
  }

  lemma RowIdKept(item: Item, dist: SpRef)
    ensures HasParent(item, dist) ==> ParseTargetRow(item, dist).value.rowId == item.id
  {
  }

  lemma TargetRowsOfProcess(item: Item, dist: SpRef, targetKind: string, targetId: string)
    requires IsActiveOnTarget(item, dist, targetKind, targetId)
    ensures item.etid == dist.entityTypeId
  {
  }

  lemma StatusApart(dist: SpRef)
    ensures forall f :: f in [PARENT_PAYMENT, AMOUNT, CURRENCY, MARKER] ==> Col(dist, f) != Col(dist, STATUS)
  {
    hide Col, DISTRIBUTION_FIELDS, BUILT_IN, PARENT_PAYMENT, STATUS, AMOUNT, CURRENCY, MARKER, TARGET_KIND, TARGET_ID, SOURCE;
    RowColumns(dist);
    RowFieldsListed();
    assert Col(dist, DISTRIBUTION_FIELDS[6]) == Col(dist, STATUS);
    forall f | f in [PARENT_PAYMENT, AMOUNT, CURRENCY, MARKER] ensures Col(dist, f) != Col(dist, STATUS) {
      assert f == DISTRIBUTION_FIELDS[0] || f == DISTRIBUTION_FIELDS[1] || f == DISTRIBUTION_FIELDS[2] || f == DISTRIBUTION_FIELDS[7];
    }
  }

  lemma ComputedApart(pay: SpRef)
    ensures forall f :: f in [TOTAL, CURRENCY, MARKER] ==> Col(pay, f) != Col(pay, NEED_DISTR) && Col(pay, f) != Col(pay, NEEDS_REDISTR)
    ensures Col(pay, NEED_DISTR) != Col(pay, NEEDS_REDISTR)
  {
    hide Col, PAYMENT_FIELDS, REGISTRY_FIELDS, BUILT_IN, TOTAL, CURRENCY, MARKER, NEED_DISTR, NEEDS_REDISTR;
    PaymentColumns(pay);
    PaymentFieldsListed();
    assert Col(pay, PAYMENT_FIELDS[2]) == Col(pay, NEED_DISTR) && Col(pay, PAYMENT_FIELDS[3]) == Col(pay, NEEDS_REDISTR);
    forall f | f in [TOTAL, CURRENCY, MARKER] ensures Col(pay, f) != Col(pay, NEED_DISTR) && Col(pay, f) != Col(pay, NEEDS_REDISTR) {
      assert f == PAYMENT_FIELDS[0] || f == PAYMENT_FIELDS[1] || f == PAYMENT_FIELDS[4];
    }
  }

  /** What the target's rows that are read carry, and what those past the cap do. */
  ghost function ReadAmount(item: Item, rows: seq<Item>, dist: SpRef, targetKind: string, targetId: string, paymentId: nat, currency: string): real
  {
    if item in rows then TargetAmount(item, dist, targetKind, targetId, paymentId, currency) else 0.0
  }

  ghost function ReadTargetSum(s: Store, dist: SpRef, targetKind: string, targetId: string, cap: nat, paymentId: nat, currency: string): real
  {
    var rows := RowsRead(s, dist, targetKind, targetId, cap);
    Tally(s.items, item => ReadAmount(item, rows, dist, targetKind, targetId, paymentId, currency))
  }

  ghost function PastTargetSum(s: Store, dist: SpRef, targetKind: string, targetId: string, cap: nat, paymentId: nat, currency: string): real
  {
    var rows := RowsRead(s, dist, targetKind, targetId, cap);
    Tally(s.items, item => if item in rows then 0.0 else TargetAmount(item, dist, targetKind, targetId, paymentId, currency))
  }

  lemma TargetSumParts(s: Store, dist: SpRef, targetKind: string, targetId: string, cap: nat, paymentId: nat, currency: string)
    ensures TargetSum(s, dist, targetKind, targetId, paymentId, currency) ==
            ReadTargetSum(s, dist, targetKind, targetId, cap, paymentId, currency)
            + PastTargetSum(s, dist, targetKind, targetId, cap, paymentId, currency)
    ensures |TargetRows(s, dist, targetKind, targetId)| <= cap ==> PastTargetSum(s, dist, targetKind, targetId, cap, paymentId, currency) == 0.0
  {
    hide TargetRows, IsActiveOnTarget, ActiveAmount;
    var rows := RowsRead(s, dist, targetKind, targetId, cap);
    var own := item => TargetAmount(item, dist, targetKind, targetId, paymentId, currency);
    var read := item => ReadAmount(item, rows, dist, targetKind, targetId, paymentId, currency);
    var past := item => if item in rows then 0.0 else TargetAmount(item, dist, targetKind, targetId, paymentId, currency);
    TallyLess(s.items, s.items, read, own, past);
    if |TargetRows(s, dist, targetKind, targetId)| <= cap {
      forall k | 0 <= k < |s.items| ensures past(s.items[k]) == 0.0 {
        TargetRowsAre(s, dist, targetKind, targetId, s.items[k]);
      }
      TallyZero(s.items, past);
    }
  }

  lemma DeactivatedSum(s: Store, dist: SpRef, targetKind: string, targetId: string, cap: nat, paymentId: nat, currency: string)
    requires Valid(s)
    ensures var refs := TargetRefs(Loaded(TargetRows(s, dist, targetKind, targetId), cap), dist);
            ActiveSum(Deactivated(s, dist, refs, |refs|), dist, paymentId, currency) ==
            ActiveSum(s, dist, paymentId, currency) - ReadTargetSum(s, dist, targetKind, targetId, cap, paymentId, currency)
  {
    hide Col, TextOf, MoneyOf, PARENT_PAYMENT, STATUS, AMOUNT, CURRENCY, MARKER, Deactivated, TargetRefs, Loaded, TargetRows, HasParent,
         IsActiveOnTarget, Listed;
    var rows := RowsRead(s, dist, targetKind, targetId, cap);
    var refs := TargetRefs(rows, dist);
    var t := Deactivated(s, dist, refs, |refs|);
    StatusApart(dist);
    var kept := [PARENT_PAYMENT, AMOUNT, CURRENCY, MARKER];
    assert kept[0] in kept && kept[1] in kept && kept[2] in kept;
    DeactivateTouches(s, dist, refs, |refs|, dist.entityTypeId, Col(dist, PARENT_PAYMENT));
    DeactivateTouches(s, dist, refs, |refs|, dist.entityTypeId, Col(dist, AMOUNT));
    DeactivateTouches(s, dist, refs, |refs|, dist.entityTypeId, Col(dist, CURRENCY));
    forall k | 0 <= k < |s.items|
      ensures ActiveAmount(t.items[k], dist, paymentId, currency)
           == ActiveAmount(s.items[k], dist, paymentId, currency)
              - ReadAmount(s.items[k], rows, dist, targetKind, targetId, paymentId, currency)
    {
      if s.items[k].etid == dist.entityTypeId {
        StatusAfter(s, dist, refs, |refs|, k);
        FreedRead(s, dist, targetKind, targetId, cap, k);
        ReadIsTarget(s, dist, targetKind, targetId, cap, s.items[k]);
        RowHasParent(s.items[k], dist, paymentId);
        assert "reverted" != "active";
      }
    }
    TallyLess(t.items, s.items, item => ActiveAmount(item, dist, paymentId, currency),
              item => ActiveAmount(item, dist, paymentId, currency),
              item => ReadAmount(item, rows, dist, targetKind, targetId, paymentId, currency));
  }

  lemma ReadIsTarget(s: Store, dist: SpRef, targetKind: string, targetId: string, cap: nat, item: Item)
    ensures item in RowsRead(s, dist, targetKind, targetId, cap) ==> item in s.items && IsActiveOnTarget(item, dist, targetKind, targetId)
  {
    hide TargetRows, IsActiveOnTarget;
    TargetRowsAre(s, dist, targetKind, targetId, item);
  }

  lemma RowHasParent(item: Item, dist: SpRef, paymentId: nat)
    ensures IsActiveRowOf(item, dist, paymentId) ==>
              HasParent(item, dist) && ParseTargetRow(item, dist).value.parent == paymentId as real
  {
  }

  /** Freeing a deleted target lowers what each payment has distributed, in each currency, by what those of
      the target's own active rows carry that are read; that is by all of them exactly when the rows past
      the cap carry nothing on balance, and so whenever the rows fit. */
  lemma FreeingLowers(s: Store, pay: SpRef, dist: SpRef, targetKind: string, targetId: string, cap: nat, paymentId: nat, currency: string)
    requires Valid(s) && pay.entityTypeId != dist.entityTypeId
    ensures var before, after := ActiveSum(s, dist, paymentId, currency),
                ActiveSum(TargetFreed(s, pay, dist, targetKind, targetId, cap), dist, paymentId, currency);
            var own, past := TargetSum(s, dist, targetKind, targetId, paymentId, currency),
                PastTargetSum(s, dist, targetKind, targetId, cap, paymentId, currency);
            && after == before - ReadTargetSum(s, dist, targetKind, targetId, cap, paymentId, currency)
            && (after == before - own <==> past == 0.0)
            && (|TargetRows(s, dist, targetKind, targetId)| <= cap ==> past == 0.0)
  {
    hide Col, PARENT_PAYMENT, STATUS, AMOUNT, CURRENCY, Deactivated, TargetRefs, Loaded, TargetRows, ActiveSum, TargetSum, ReadTargetSum,
         PastTargetSum, ParentsRecomputed, Untouched;
    var refs := TargetRefs(Loaded(TargetRows(s, dist, targetKind, targetId), cap), dist);
    var t := Deactivated(s, dist, refs, |refs|);
    DeactivatedSum(s, dist, targetKind, targetId, cap, paymentId, currency);
    TargetSumParts(s, dist, targetKind, targetId, cap, paymentId, currency);
    ParentsKeepSums(t, pay, dist, Parents(refs, |refs|), ManualParents(refs, |refs|), cap, |Parents(refs, |refs|)|, paymentId, currency);
  }

  lemma ParentsKeepSums(s: Store, pay: SpRef, dist: SpRef, parents: seq<real>, manual: set<real>, cap: nat, n: nat,
                        paymentId: nat, currency: string)
    requires n <= |parents| && pay.entityTypeId != dist.entityTypeId
    ensures ActiveSum(ParentsRecomputed(s, pay, dist, parents, manual, cap, n), dist, paymentId, currency) ==
            ActiveSum(s, dist, paymentId, currency)
  {
    hide Col, ActiveSum, ParentsRecomputed, Untouched;
    var t := ParentsRecomputed(s, pay, dist, parents, manual, cap, n);
    forall f | f in [PARENT_PAYMENT, STATUS, AMOUNT, CURRENCY] ensures Untouched(s, t, dist.entityTypeId, Col(dist, f)) {
      ParentsTouch(s, pay, dist, parents, manual, cap, n, dist.entityTypeId, Col(dist, f));
    }
    SumUntouched(s, t, dist, paymentId, currency);
  }

  // ---- What is left is always right

  /** The «left to distribute» column of a payment, against its ledger. */
  ghost function DueOn(s: Store, item: Item, pay: SpRef, dist: SpRef): real
  {
    var total := ParsePaymentTotal(item, pay);
    Due(total.total, ActiveSum(s, dist, item.id, total.currency))
  }

  ghost predicate NeedRight(s: Store, pay: SpRef, dist: SpRef)
  {
    forall item :: item in s.items && item.etid == pay.entityTypeId ==>
      Cell(item, pay, NEED_DISTR) == Some(Num(DueOn(s, item, pay, dist)))
  }

  /** No payment has more active rows than the page loop reads. */
  ghost predicate Fits(s: Store, dist: SpRef, cap: nat)
  {
    forall id: nat :: |ActiveRows(s, dist, id)| <= cap
  }

  /** What a recompute makes a payment show. */
  ghost function ShownAfter(s: Store, item: Item, pay: SpRef, dist: SpRef, cap: nat): real
  {
    var total := ParsePaymentTotal(item, pay);
    Due(total.total, LoadedSum(s, dist, item.id, total.currency, cap))
  }

  /** The rows past the cap carry nothing on balance, or with them and without them the total is used up. */
  ghost predicate ReadsRight(s: Store, item: Item, pay: SpRef, dist: SpRef, cap: nat)
  {
    var total := ParsePaymentTotal(item, pay);
    var loaded, active, whole := LoadedSum(s, dist, item.id, total.currency, cap), ActiveSum(s, dist, item.id, total.currency),
        Max0(Round2(total.total));
    loaded == active || (loaded >= whole && active >= whole)
  }

  lemma ShownIsDue(s: Store, item: Item, pay: SpRef, dist: SpRef, cap: nat)
    ensures ShownAfter(s, item, pay, dist, cap) == DueOn(s, item, pay, dist) <==> ReadsRight(s, item, pay, dist, cap)
    ensures |ActiveRows(s, dist, item.id)| <= cap ==> ReadsRight(s, item, pay, dist, cap)
  {
    hide Remaining, LoadedSum, ActiveSum, ActiveRows, Round2, ParsePaymentTotal;
    var total := ParsePaymentTotal(item, pay);
    RemainingIsDue(s, dist, item.id, total.total, total.currency, cap);
  }

  lemma DueUntouched(s: Store, t: Store, pay: SpRef, dist: SpRef, k: nat)
    requires k < |s.items| && s.items[k].etid == pay.entityTypeId
    requires Untouched(s, t, pay.entityTypeId, Col(pay, TOTAL)) && Untouched(s, t, pay.entityTypeId, Col(pay, CURRENCY))
    requires forall currency :: ActiveSum(t, dist, s.items[k].id, currency) == ActiveSum(s, dist, s.items[k].id, currency)
    ensures DueOn(t, t.items[k], pay, dist) == DueOn(s, s.items[k], pay, dist)
  {
    hide Col, TOTAL, CURRENCY, ActiveSum, Due;
  }

  /** One parent: its remainder becomes what is due after the rows that are read, its flag is raised when
      asked, and every other payment stays as it was. */
  lemma ParentStep(s: Store, pay: SpRef, dist: SpRef, parent: real, manual: bool, cap: nat, k: nat)
    requires Valid(s) && k < |s.items| && s.items[k].etid == pay.entityTypeId
    ensures var t := ParentRecomputed(s, pay, dist, parent, manual, cap);
            && Aligned(s, t)
            && Cell(t.items[k], pay, NEED_DISTR) ==
               (if s.items[k].id as real == parent then Some(Num(ShownAfter(s, s.items[k], pay, dist, cap)))
                else Cell(s.items[k], pay, NEED_DISTR))
            && Cell(t.items[k], pay, NEEDS_REDISTR) ==
               (if s.items[k].id as real == parent && manual then Some(Str("Y")) else Cell(s.items[k], pay, NEEDS_REDISTR))
  {
    hide Col, TOTAL, CURRENCY, NEED_DISTR, NEEDS_REDISTR, ActiveSum, LoadedSum, Due, Remaining, ActiveRows, TargetRows, BUILT_IN,
         PaymentReadCall, ParsePaymentTotal, Round2, Matches;
    var found := Found(s, PaymentReadCall(pay, parent));
    PaymentFound(s, pay, parent, k);
    if found != [] {
      var total := ParsePaymentTotal(found[0], pay);
      RemainingIsDue(s, dist, found[0].id, total.total, total.currency, cap);
      ComputedApart(pay);
      NotBuiltIn(pay, NEED_DISTR);
      NotBuiltIn(pay, NEEDS_REDISTR);
      BuiltInNames();
    }
  }

  lemma PaymentFound(s: Store, pay: SpRef, parent: real, k: nat)
    requires Valid(s) && k < |s.items| && s.items[k].etid == pay.entityTypeId
    ensures var found := Found(s, PaymentReadCall(pay, parent));
            && (found != [] ==> found[0].etid == pay.entityTypeId && (found[0].id as real == parent))
            && (s.items[k].id as real == parent <==> found != [] && found[0] == s.items[k])
            && (found != [] ==> (found[0].id == s.items[k].id <==> found[0] == s.items[k]))
  {
    hide Matches, PaymentReadCall;
    var q := PaymentReadCall(pay, parent);
    var found := Found(s, q);
    ReadFilterMeans(s.items[k], pay, parent);
    if found != [] {
      assert found[0] in found;
      ReadFilterMeans(found[0], pay, parent);
      var j :| 0 <= j < |s.items| && s.items[j] == found[0];
      if found[0].id == s.items[k].id {
        SameById(s, j, k);
      }
    } else {
      assert s.items[k] !in found;
    }
  }

  /** Rows that keep their parent, and are active only if they were, are found no more often. */
  lemma FitsKept(s: Store, t: Store, dist: SpRef, cap: nat)
    requires Fits(s, dist, cap) && Aligned(s, t) && Untouched(s, t, dist.entityTypeId, Col(dist, PARENT_PAYMENT))
    requires forall k :: 0 <= k < |s.items| && Cell(t.items[k], dist, STATUS) == Some(Str("active")) && s.items[k].etid == dist.entityTypeId ==>
               Cell(s.items[k], dist, STATUS) == Some(Str("active"))
    ensures Fits(t, dist, cap)
  {
    hide Col, PARENT_PAYMENT, STATUS, Matches, ActiveRowsListCall;
    forall id: nat ensures |ActiveRows(t, dist, id)| <= cap {
      assert |ActiveRows(s, dist, id)| <= cap;
      forall k | 0 <= k < |s.items| && Matches(t.items[k], ActiveRowsListCall(dist, id))
        ensures Matches(s.items[k], ActiveRowsListCall(dist, id))
      {
        FiltersMean(t.items[k], dist, id, "", "");
        FiltersMean(s.items[k], dist, id, "", "");
      }
      FewerFound(t.items, s.items, item => Matches(item, ActiveRowsListCall(dist, id)));
    }
  }

  lemma DeactivatedFits(s: Store, dist: SpRef, refs: seq<TargetRowRef>, cap: nat)
    requires Fits(s, dist, cap)
    ensures Fits(Deactivated(s, dist, refs, |refs|), dist, cap) && Aligned(s, Deactivated(s, dist, refs, |refs|))
  {
    hide Col, PARENT_PAYMENT, STATUS, AMOUNT, CURRENCY, MARKER, Deactivated, Fits, Listed;
    var t := Deactivated(s, dist, refs, |refs|);
    StatusApart(dist);
    var kept := [PARENT_PAYMENT, AMOUNT, CURRENCY, MARKER];
    assert kept[0] in kept;
    DeactivateTouches(s, dist, refs, |refs|, dist.entityTypeId, Col(dist, PARENT_PAYMENT));
    forall k | 0 <= k < |s.items| && Cell(t.items[k], dist, STATUS) == Some(Str("active")) && s.items[k].etid == dist.entityTypeId
      ensures Cell(s.items[k], dist, STATUS) == Some(Str("active"))
    {
      StatusAfter(s, dist, refs, |refs|, k);
      assert "reverted" != "active";
    }
    FitsKept(s, t, dist, cap);
  }

  lemma {:induction false} FilterWhereAlike(xs: seq<Item>, ys: seq<Item>, p: Item -> bool)
    requires |xs| == |ys| && forall k :: 0 <= k < |xs| ==> xs[k] == ys[k] || (!p(xs[k]) && !p(ys[k]))
    ensures Filter(xs, p) == Filter(ys, p)
  {
    if xs != [] {
      FilterWhereAlike(xs[1..], ys[1..], p);
    }
  }

  /** An update of a payment leaves the rows of every payment as they are. */
  lemma RowsAfterUpdate(s: Store, dist: SpRef, etid: nat, id: nat, fields: map<string, Val>, paymentId: nat)
    requires etid != dist.entityTypeId
    ensures ActiveRows(Exec(s, Update(etid, id, fields)), dist, paymentId) == ActiveRows(s, dist, paymentId)
  {
    var q := ActiveRowsListCall(dist, paymentId);
    FilterWhereAlike(Exec(s, Update(etid, id, fields)).items, s.items, item => Matches(item, q));
  }

  lemma RowsAfterParent(s: Store, pay: SpRef, dist: SpRef, parent: real, manual: bool, cap: nat, paymentId: nat)
    requires pay.entityTypeId != dist.entityTypeId
    ensures ActiveRows(ParentRecomputed(s, pay, dist, parent, manual, cap), dist, paymentId) == ActiveRows(s, dist, paymentId)
  {
    hide Exec, ActiveRows, Remaining, Found, Col;
    var found := Found(s, PaymentReadCall(pay, parent));
    if found != [] {
      var total := ParsePaymentTotal(found[0], pay);
      var remaining := Remaining(s, dist, found[0].id, total.total, total.currency, cap);
      RowsAfterUpdate(s, dist, pay.entityTypeId, found[0].id, map[Col(pay, NEED_DISTR) := Num(Round2(remaining))], paymentId);
      var t := Recomputed(s, pay, dist, found[0].id, total.total, total.currency, cap);
      RowsAfterUpdate(t, dist, pay.entityTypeId, found[0].id, map[Col(pay, NEEDS_REDISTR) := Str("Y")], paymentId);
    }
  }

  lemma {:induction false} RowsAfterParents(s: Store, pay: SpRef, dist: SpRef, parents: seq<real>, manual: set<real>, cap: nat, n: nat,
                                            paymentId: nat)
    requires n <= |parents| && pay.entityTypeId != dist.entityTypeId
    ensures ActiveRows(ParentsRecomputed(s, pay, dist, parents, manual, cap, n), dist, paymentId) == ActiveRows(s, dist, paymentId)
  {
    hide ParentRecomputed, ActiveRows;
    if n > 0 {
      RowsAfterParents(s, pay, dist, parents, manual, cap, n - 1, paymentId);
      RowsAfterParent(ParentsRecomputed(s, pay, dist, parents, manual, cap, n - 1), pay, dist, parents[n - 1], parents[n - 1] in manual,
                      cap, paymentId);
    }
  }

  ghost predicate Done(parents: seq<real>, n: nat, id: nat)
    requires n <= |parents|
  {
    exists i :: 0 <= i < n && parents[i] == id as real
  }

  /** After the first `n` parents, exactly those payments hold what a recompute makes them show. */
  lemma {:induction false} ParentsStep(s: Store, pay: SpRef, dist: SpRef, parents: seq<real>, manual: set<real>, cap: nat, n: nat, k: nat)
    requires Valid(s) && n <= |parents| && pay.entityTypeId != dist.entityTypeId
    requires k < |s.items| && s.items[k].etid == pay.entityTypeId
    ensures var t := ParentsRecomputed(s, pay, dist, parents, manual, cap, n);
            && Aligned(s, t)
            && Cell(t.items[k], pay, NEED_DISTR) ==
               (if Done(parents, n, s.items[k].id) then Some(Num(ShownAfter(s, s.items[k], pay, dist, cap)))
                else Cell(s.items[k], pay, NEED_DISTR))
            && Cell(t.items[k], pay, NEEDS_REDISTR) ==
               (if Done(parents, n, s.items[k].id) && s.items[k].id as real in manual then Some(Str("Y"))
                else Cell(s.items[k], pay, NEEDS_REDISTR))
  {
    hide Cell, ShownAfter, ParentRecomputed, Untouched, Valid;
    if n > 0 {
      var u := ParentsRecomputed(s, pay, dist, parents, manual, cap, n - 1);
      ParentsStep(s, pay, dist, parents, manual, cap, n - 1, k);
      AlignedValid(s, u);
      ParentStep(u, pay, dist, parents[n - 1], parents[n - 1] in manual, cap, k);
      ParentsKeepShown(s, pay, dist, parents, manual, cap, n - 1, k);
    }
  }

  lemma ParentsKeepTotal(s: Store, pay: SpRef, dist: SpRef, parents: seq<real>, manual: set<real>, cap: nat, n: nat, k: nat)
    requires n <= |parents| && k < |s.items| && s.items[k].etid == pay.entityTypeId
    ensures var t := ParentsRecomputed(s, pay, dist, parents, manual, cap, n);
            && Aligned(s, t) && ParsePaymentTotal(t.items[k], pay) == ParsePaymentTotal(s.items[k], pay)
  {
    hide Col, ParentsRecomputed, TOTAL, CURRENCY, MARKER, NEED_DISTR, NEEDS_REDISTR;
    ComputedApart(pay);
    var fields := [TOTAL, CURRENCY, MARKER];
    assert fields[0] in fields && fields[1] in fields;
    ParentsTouch(s, pay, dist, parents, manual, cap, n, pay.entityTypeId, Col(pay, TOTAL));
    ParentsTouch(s, pay, dist, parents, manual, cap, n, pay.entityTypeId, Col(pay, CURRENCY));
  }

  lemma ParentsKeepShown(s: Store, pay: SpRef, dist: SpRef, parents: seq<real>, manual: set<real>, cap: nat, n: nat, k: nat)
    requires n <= |parents| && pay.entityTypeId != dist.entityTypeId && k < |s.items| && s.items[k].etid == pay.entityTypeId
    ensures var t := ParentsRecomputed(s, pay, dist, parents, manual, cap, n);
            && Aligned(s, t) && ShownAfter(t, t.items[k], pay, dist, cap) == ShownAfter(s, s.items[k], pay, dist, cap)
  {
    hide ParentsRecomputed, ActiveRows, ParsePaymentTotal, Due, Distributed, Entries;
    ParentsKeepTotal(s, pay, dist, parents, manual, cap, n, k);
    RowsAfterParents(s, pay, dist, parents, manual, cap, n, s.items[k].id);
  }

  lemma ParentsKeepDue(s: Store, pay: SpRef, dist: SpRef, parents: seq<real>, manual: set<real>, cap: nat, n: nat, k: nat)
    requires n <= |parents| && pay.entityTypeId != dist.entityTypeId
    requires k < |s.items| && s.items[k].etid == pay.entityTypeId
    ensures var t := ParentsRecomputed(s, pay, dist, parents, manual, cap, n);
            Aligned(s, t) && DueOn(t, t.items[k], pay, dist) == DueOn(s, s.items[k], pay, dist)
  {
    hide ParentsRecomputed, ActiveSum, ParsePaymentTotal, Due;
    ParentsKeepTotal(s, pay, dist, parents, manual, cap, n, k);
    ParentsKeepSums(s, pay, dist, parents, manual, cap, n, s.items[k].id, ParsePaymentTotal(s.items[k], pay).currency);
  }

  lemma {:induction false} ParentsMean(refs: seq<TargetRowRef>, n: nat, parent: real)
    requires n <= |refs|
    ensures parent in Parents(refs, n) <==> exists i :: 0 <= i < n && refs[i].parent == parent
  {
    if n > 0 {
      ParentsMean(refs, n - 1, parent);
    }
  }

  /** A payment none of whose rows is freed has no share of those that are read. */
  lemma NoShare(s: Store, dist: SpRef, targetKind: string, targetId: string, cap: nat, paymentId: nat, currency: string)
    requires var refs := TargetRefs(Loaded(TargetRows(s, dist, targetKind, targetId), cap), dist);
             paymentId as real !in Parents(refs, |refs|)
    ensures ReadTargetSum(s, dist, targetKind, targetId, cap, paymentId, currency) == 0.0
  {
    hide IsActiveOnTarget, IsActiveRowOf, ParseTargetRow, TargetRefs, Parents, TargetRows;
    var rows := RowsRead(s, dist, targetKind, targetId, cap);
    var refs := TargetRefs(rows, dist);
    forall k | 0 <= k < |s.items| ensures ReadAmount(s.items[k], rows, dist, targetKind, targetId, paymentId, currency) == 0.0 {
      var item := s.items[k];
      RowHasParent(item, dist, paymentId);
      ParentsMean(refs, |refs|, paymentId as real);
      if item in rows && IsActiveRowOf(item, dist, paymentId) {
        var ref := ParseTargetRow(item, dist).value;
        RefsMean(rows, dist, ref);
        assert false;
      }
    }
    TallyZero(s.items, item => ReadAmount(item, rows, dist, targetKind, targetId, paymentId, currency));
  }

  lemma FreeingAligned(s: Store, pay: SpRef, dist: SpRef, targetKind: string, targetId: string, cap: nat)
    ensures Aligned(s, TargetFreed(s, pay, dist, targetKind, targetId, cap))
  {
    hide TargetFreed;
    FreeingTouches(s, pay, dist, targetKind, targetId, cap, pay.entityTypeId + dist.entityTypeId + 1, "");
  }

  /** The freed manual rows of a payment. */
  ghost predicate LostManualRow(s: Store, dist: SpRef, targetKind: string, targetId: string, cap: nat, paymentId: nat)
  {
    var refs := TargetRefs(Loaded(TargetRows(s, dist, targetKind, targetId), cap), dist);
    exists i :: 0 <= i < |refs| && refs[i].parent == paymentId as real && refs[i].source == Manual
  }

  /** A payment one of whose rows is freed. */
  ghost predicate Freed(s: Store, dist: SpRef, targetKind: string, targetId: string, cap: nat, paymentId: nat)
  {
    var refs := TargetRefs(Loaded(TargetRows(s, dist, targetKind, targetId), cap), dist);
    exists i :: 0 <= i < |refs| && refs[i].parent == paymentId as real
  }

  /** One payment after the freeing. What is due on it has gone up by its share of the rows that were read.
      If one of its rows was freed it shows what a recompute makes it show, and that is what is due exactly
      when its own rows past the cap do not matter; else it is as right as it was. The flag went up exactly
      if it lost a manual row. */
  lemma FreedPayment(s: Store, pay: SpRef, dist: SpRef, targetKind: string, targetId: string, cap: nat, k: nat)
    requires Valid(s) && pay.entityTypeId != dist.entityTypeId && k < |s.items| && s.items[k].etid == pay.entityTypeId
    ensures var t, id, total := TargetFreed(s, pay, dist, targetKind, targetId, cap), s.items[k].id, ParsePaymentTotal(s.items[k], pay);
            && Aligned(s, t)
            && DueOn(t, t.items[k], pay, dist) ==
               Due(total.total, ActiveSum(s, dist, id, total.currency) - ReadTargetSum(s, dist, targetKind, targetId, cap, id, total.currency))
            && (Freed(s, dist, targetKind, targetId, cap, id) ==>
                  && Cell(t.items[k], pay, NEED_DISTR) == Some(Num(ShownAfter(t, t.items[k], pay, dist, cap)))
                  && (ShownAfter(t, t.items[k], pay, dist, cap) == DueOn(t, t.items[k], pay, dist) <==> ReadsRight(t, t.items[k], pay, dist, cap)))
            && (!Freed(s, dist, targetKind, targetId, cap, id) ==>
                  Cell(t.items[k], pay, NEED_DISTR) == Cell(s.items[k], pay, NEED_DISTR)
                  && DueOn(t, t.items[k], pay, dist) == DueOn(s, s.items[k], pay, dist))
            && Cell(t.items[k], pay, NEEDS_REDISTR) ==
               (if LostManualRow(s, dist, targetKind, targetId, cap, id) then Some(Str("Y")) else Cell(s.items[k], pay, NEEDS_REDISTR))
  {
    hide DueOn, ShownAfter, ReadsRight, Cell, Deactivated, ParentsRecomputed, TargetRefs, Parents, ManualParents, ActiveSum, TargetSum, ReadTargetSum,
         Valid, Untouched, TargetRows, Loaded, ParsePaymentTotal;
    var refs := TargetRefs(Loaded(TargetRows(s, dist, targetKind, targetId), cap), dist);
    var parents, manual := Parents(refs, |refs|), ManualParents(refs, |refs|);
    var id := s.items[k].id;
    var u := Deactivated(s, dist, refs, |refs|);
    DeactivatedCells(s, pay, dist, refs, k);
    DeactivateTouches(s, dist, refs, |refs|, pay.entityTypeId + dist.entityTypeId + 1, "");
    AlignedOf(s, u, pay.entityTypeId + dist.entityTypeId + 1, "");
    AlignedValid(s, u);
    ParentsStep(u, pay, dist, parents, manual, cap, |parents|, k);
    ParentsKeepDue(u, pay, dist, parents, manual, cap, |parents|, k);
    ParentsKeepShown(u, pay, dist, parents, manual, cap, |parents|, k);
    DoneMeans(parents, id);
    ParentsMean(refs, |refs|, id as real);
    ManualMeans(refs, id);
    FreedDue(s, pay, dist, targetKind, targetId, cap, k);
    var t := TargetFreed(s, pay, dist, targetKind, targetId, cap);
    ShownIsDue(t, t.items[k], pay, dist, cap);
  }

  lemma AlignedOf(s: Store, t: Store, etid: nat, name: string)
    requires Untouched(s, t, etid, name)
    ensures Aligned(s, t)
  {
  }

  /** After a deleted target is freed from a right ledger, it is right exactly when the freed payments' own
      rows past the cap do not matter. */
  lemma FreeingRightExactly(s: Store, pay: SpRef, dist: SpRef, targetKind: string, targetId: string, cap: nat)
    requires Valid(s) && pay.entityTypeId != dist.entityTypeId && NeedRight(s, pay, dist)
    ensures var t := TargetFreed(s, pay, dist, targetKind, targetId, cap);
            NeedRight(t, pay, dist) <==>
            forall item :: item in t.items && item.etid == pay.entityTypeId && Freed(s, dist, targetKind, targetId, cap, item.id) ==>
              ReadsRight(t, item, pay, dist, cap)
  {
    hide DueOn, ShownAfter, ReadsRight, Cell, TargetFreed, Freed, LostManualRow, Valid, ActiveSum, ReadTargetSum;
    var t := TargetFreed(s, pay, dist, targetKind, targetId, cap);
    FreeingAligned(s, pay, dist, targetKind, targetId, cap);
    forall item | item in t.items && item.etid == pay.entityTypeId
      ensures Cell(item, pay, NEED_DISTR) == Some(Num(DueOn(t, item, pay, dist))) <==>
              (Freed(s, dist, targetKind, targetId, cap, item.id) ==> ReadsRight(t, item, pay, dist, cap))
    {
      var k :| 0 <= k < |t.items| && t.items[k] == item;
      assert s.items[k] in s.items;
      FreedPayment(s, pay, dist, targetKind, targetId, cap, k);
      ShownIsDue(t, item, pay, dist, cap);
    }
  }

  /** And so whenever no payment has more active rows than are read. */
  lemma FreeingKeepsNeedRight(s: Store, pay: SpRef, dist: SpRef, targetKind: string, targetId: string, cap: nat)
    requires Valid(s) && Fits(s, dist, cap) && pay.entityTypeId != dist.entityTypeId && NeedRight(s, pay, dist)
    ensures NeedRight(TargetFreed(s, pay, dist, targetKind, targetId, cap), pay, dist)
  {
    hide NeedRight, TargetFreed, Freed, ReadsRight, ActiveRows, Valid;
    var t := TargetFreed(s, pay, dist, targetKind, targetId, cap);
    FreeingRightExactly(s, pay, dist, targetKind, targetId, cap);
    FreedFits(s, pay, dist, targetKind, targetId, cap);
    forall item | item in t.items ensures ReadsRight(t, item, pay, dist, cap) {
      ShownIsDue(t, item, pay, dist, cap);
    }
  }

  lemma FreedFits(s: Store, pay: SpRef, dist: SpRef, targetKind: string, targetId: string, cap: nat)
    requires Fits(s, dist, cap) && pay.entityTypeId != dist.entityTypeId
    ensures Fits(TargetFreed(s, pay, dist, targetKind, targetId, cap), dist, cap)
  {
    hide Deactivated, ParentsRecomputed, TargetRefs, Parents, ManualParents, TargetRows, Loaded, ActiveRows;
    var refs := TargetRefs(Loaded(TargetRows(s, dist, targetKind, targetId), cap), dist);
    var u, parents := Deactivated(s, dist, refs, |refs|), Parents(refs, |refs|);
    DeactivatedFits(s, dist, refs, cap);
    forall id: nat ensures |ActiveRows(TargetFreed(s, pay, dist, targetKind, targetId, cap), dist, id)| <= cap {
      RowsAfterParents(u, pay, dist, parents, ManualParents(refs, |refs|), cap, |parents|, id);
      assert |ActiveRows(u, dist, id)| <= cap;
    }
  }

  lemma DoneMeans(parents: seq<real>, id: nat)
    ensures Done(parents, |parents|, id) <==> id as real in parents
  {
  }

  lemma ManualMeans(refs: seq<TargetRowRef>, id: nat)
    ensures id as real in ManualParents(refs, |refs|) <==>
            exists i :: 0 <= i < |refs| && refs[i].parent == id as real && refs[i].source == Manual
    ensures id as real in ManualParents(refs, |refs|) ==> id as real in Parents(refs, |refs|)
  {
    ParentsMean(refs, |refs|, id as real);
  }

  /** Deactivating rows leaves the payments' own cells alone. */
  lemma DeactivatedCells(s: Store, pay: SpRef, dist: SpRef, refs: seq<TargetRowRef>, k: nat)
    requires pay.entityTypeId != dist.entityTypeId && k < |s.items| && s.items[k].etid == pay.entityTypeId
    ensures var u := Deactivated(s, dist, refs, |refs|);
            && |u.items| == |s.items| && u.items[k].id == s.items[k].id && u.items[k].etid == s.items[k].etid
            && forall f :: f in [TOTAL, CURRENCY, NEED_DISTR, NEEDS_REDISTR, MARKER] ==> Cell(u.items[k], pay, f) == Cell(s.items[k], pay, f)
  {
    hide Deactivated, Col;
    forall f | f in [TOTAL, CURRENCY, NEED_DISTR, NEEDS_REDISTR, MARKER]
      ensures Untouched(s, Deactivated(s, dist, refs, |refs|), pay.entityTypeId, Col(pay, f))
    {
      DeactivateTouches(s, dist, refs, |refs|, pay.entityTypeId, Col(pay, f));
    }
    assert TOTAL in [TOTAL, CURRENCY, NEED_DISTR, NEEDS_REDISTR, MARKER];
  }

  /** What is due on a payment once the rows are deactivated. */
  lemma FreedDue(s: Store, pay: SpRef, dist: SpRef, targetKind: string, targetId: string, cap: nat, k: nat)
    requires Valid(s) && pay.entityTypeId != dist.entityTypeId && k < |s.items| && s.items[k].etid == pay.entityTypeId
    ensures var refs := TargetRefs(Loaded(TargetRows(s, dist, targetKind, targetId), cap), dist);
            var u, id, total := Deactivated(s, dist, refs, |refs|), s.items[k].id, ParsePaymentTotal(s.items[k], pay);
            && |u.items| == |s.items|
            && DueOn(u, u.items[k], pay, dist) ==
               Due(total.total, ActiveSum(s, dist, id, total.currency) - ReadTargetSum(s, dist, targetKind, targetId, cap, id, total.currency))
            && (id as real !in Parents(refs, |refs|) ==> DueOn(u, u.items[k], pay, dist) == DueOn(s, s.items[k], pay, dist))
  {
    hide Deactivated, TargetRefs, Parents, ActiveSum, ReadTargetSum, TargetRows, Loaded, Cell, Due, Valid;
    var refs := TargetRefs(Loaded(TargetRows(s, dist, targetKind, targetId), cap), dist);
    var id, currency := s.items[k].id, ParsePaymentTotal(s.items[k], pay).currency;
    DeactivatedCells(s, pay, dist, refs, k);
    var own := [TOTAL, CURRENCY, NEED_DISTR, NEEDS_REDISTR, MARKER];
    assert own[0] in own && own[1] in own;
    DeactivatedSum(s, dist, targetKind, targetId, cap, id, currency);
    if id as real !in Parents(refs, |refs|) {
      NoShare(s, dist, targetKind, targetId, cap, id, currency);
    }
  }

  // ---- Runs

  /** What the bank says of each operation, by its key: the same at every delivery. */
  datatype Books = Books(amountOf: string -> real, currencyOf: string -> string)

  datatype Event =
    | Recorded(op: Operation, registry: Registry, title: string, companyId: Option<nat>, responsible: Option<nat>)
    | Allocated(op: Operation, targetKind: string, targetId: string, companyId: Option<nat>, responsible: Option<nat>)
    | Triggered(op: Operation, targetKind: string, targetId: string, companyId: Option<nat>, responsible: Option<nat>)
    | Filled(elementId: nat, registry: Registry)
    | TargetDeleted(targetKind: string, targetId: string)
    | PaymentGone(elementId: nat)

  function RecordInput(e: Event): PaymentInput
    requires e.Recorded?
  {
    PaymentInput(e.op.amount, e.op.currency, DedupKey(e.op), e.companyId, e.registry, e.title, e.responsible)
  }

  ghost function Step(s: Store, pay: SpRef, dist: SpRef, cap: nat, e: Event): Store
  {
    match e
    case Recorded(_, _, _, _, _) => PaymentEnsured(s, pay, RecordInput(e)).store
    case Allocated(op, kind, id, companyId, responsible) => AllocationWritten(s, pay, dist, op, kind, id, companyId, responsible, cap)
    case Triggered(op, kind, id, companyId, responsible) => FactWritten(s, pay, dist, op, 0.0, kind, id, companyId, responsible).store
    case Filled(elementId, registry) =>
      var call := RegistryFillCall(pay, elementId, registry);
      if call.Some? then Exec(s, call.value) else s
    case TargetDeleted(kind, id) => TargetFreed(s, pay, dist, kind, id, cap)
    case PaymentGone(elementId) => Removed(s, pay.entityTypeId, elementId)
  }

  ghost predicate FromBooks(op: Operation, b: Books)
  {
    op.amount >= 0.0 && op.amount == b.amountOf(DedupKey(op)) && op.currency == b.currencyOf(DedupKey(op))
  }

  /** The event can happen: its operation is the bank's, and what it loads fits the page cap. */
  ghost predicate Enabled(s: Store, pay: SpRef, dist: SpRef, cap: nat, b: Books, e: Event)
  {
    match e
    case Recorded(op, _, _, _, _) => FromBooks(op, b)
    case Allocated(op, kind, id, companyId, responsible) =>
      FromBooks(op, b) && Fits(FactWritten(s, pay, dist, op, op.amount, kind, id, companyId, responsible).store, dist, cap)
    case Triggered(op, _, _, _, _) => FromBooks(op, b)
    case Filled(_, _) => true
    case TargetDeleted(_, _) => Fits(s, dist, cap)
    case PaymentGone(_) => true
  }

  /** A payment element holds the money its operation came with. */
  ghost predicate TotalsKept(s: Store, pay: SpRef, b: Books)
  {
    forall item, m :: item in s.items && m != "" && HasMarker(item, pay, m) ==>
      Cell(item, pay, TOTAL) == Some(Num(Round2(b.amountOf(m)))) && Cell(item, pay, CURRENCY) == Some(Str(b.currencyOf(m)))
  }

  /** No row points at an element that has never been. */
  ghost predicate ParentsKnown(s: Store, pay: SpRef, dist: SpRef)
  {
    forall item, id: nat :: item in s.items && IsActiveRowOf(item, dist, id) ==> id <= LastId(s, pay.entityTypeId)
  }

  ghost predicate Core(s: Store, pay: SpRef, dist: SpRef, b: Books)
  {
    Valid(s) && OnePerMarker(s, pay) && OnePerMarker(s, dist) && TotalsKept(s, pay, b) && ParentsKnown(s, pay, dist)
  }

  ghost predicate Inv(s: Store, pay: SpRef, dist: SpRef, b: Books)
  {
    Core(s, pay, dist, b) && NeedRight(s, pay, dist)
  }

  /** Right on every payment but one. */
  ghost predicate NeedRightBut(s: Store, pay: SpRef, dist: SpRef, id: nat)
  {
    forall item :: item in s.items && item.etid == pay.entityTypeId && item.id != id ==>
      Cell(item, pay, NEED_DISTR) == Some(Num(DueOn(s, item, pay, dist)))
  }

  lemma AddedSum(s: Store, etid: nat, fields: map<string, Val>, dist: SpRef, paymentId: nat, currency: string)
    ensures ActiveSum(Exec(s, Add(etid, fields)), dist, paymentId, currency) ==
            ActiveSum(s, dist, paymentId, currency) + ActiveAmount(Item(etid, LastId(s, etid) + 1, fields), dist, paymentId, currency)
  {
    hide ActiveAmount;
    var item := Item(etid, LastId(s, etid) + 1, fields);
    var w := (i: Item) => ActiveAmount(i, dist, paymentId, currency);
    TallyAppend(s.items, [item], w);
    assert [item][1..] == [];
    assert Tally([item], w) == w(item) + Tally([], w);
  }

  lemma NonNegative(x: real)
    requires x >= 0.0
    ensures Round2(x) >= 0.0 && Round2(0.0) == 0.0
  {
    CentsOfWhole(0);
    CentsMonotone(0.0, x);
  }

  /** A new element starts with everything on it still to distribute, which is what is due on it. */
  lemma NewPaymentDue(s: Store, pay: SpRef, dist: SpRef, input: PaymentInput, currency: string)
    requires ParentsKnown(s, pay, dist) && pay.entityTypeId != dist.entityTypeId
    ensures ActiveSum(s, dist, LastId(s, pay.entityTypeId) + 1, currency) == 0.0
  {
    hide IsActiveRowOf;
    var id := LastId(s, pay.entityTypeId) + 1;
    forall k | 0 <= k < |s.items| ensures ActiveAmount(s.items[k], dist, id, currency) == 0.0 {
      assert s.items[k] in s.items;
    }
    TallyZero(s.items, item => ActiveAmount(item, dist, id, currency));
  }

  lemma PaymentNotRow(item: Item, pay: SpRef, dist: SpRef, paymentId: nat, currency: string)
    requires item.etid == pay.entityTypeId != dist.entityTypeId
    ensures ActiveAmount(item, dist, paymentId, currency) == 0.0 && !IsActiveRowOf(item, dist, paymentId)
  {
  }

  lemma NewPaymentKeepsCore(s: Store, pay: SpRef, dist: SpRef, input: PaymentInput, b: Books)
    requires Core(s, pay, dist, b) && pay.entityTypeId != dist.entityTypeId && input.marker != ""
    requires input.amount == b.amountOf(input.marker) && input.currency == b.currencyOf(input.marker)
    requires FindByMarker(s, pay, input.marker).None?
    ensures Core(Exec(s, PaymentElementAddCall(pay, input)), pay, dist, b)
  {
    hide Cell, HasMarker, FindByMarker, PaymentElementAddCall, Valid, IsActiveRowOf, TOTAL, CURRENCY, MARKER;
    var call := PaymentElementAddCall(pay, input);
    AddIsForPayments(pay, input);
    var item := Item(call.etid, LastId(s, call.etid) + 1, call.fields);
    var t := Exec(s, call);
    assert t.items == s.items + [item];
    PaymentCells(pay, input, item.etid, item.id);
    HasItsMarker(item, pay, input.marker);
    AddKeepsValid(s, call.etid, call.fields);
    FindOrAddKeepsMarkers(s, pay, input.marker, call, dist);
    forall m | m != "" && HasMarker(item, pay, m) ensures m == input.marker {
      OneMarkerEach(item, pay, m, input.marker);
    }
    forall id: nat ensures !IsActiveRowOf(item, dist, id) {
      PaymentNotRow(item, pay, dist, id, "");
    }
  }

  lemma AddIsForPayments(pay: SpRef, input: PaymentInput)
    ensures PaymentElementAddCall(pay, input).Add? && PaymentElementAddCall(pay, input).etid == pay.entityTypeId
  {
  }

  lemma HasItsMarker(item: Item, sp: SpRef, marker: string)
    requires item.etid == sp.entityTypeId && Cell(item, sp, MARKER) == Some(Str(marker))
    ensures HasMarker(item, sp, marker)
  {
  }

  lemma NewPaymentKeepsNeed(s: Store, pay: SpRef, dist: SpRef, input: PaymentInput, b: Books)
    requires Inv(s, pay, dist, b) && pay.entityTypeId != dist.entityTypeId && input.amount >= 0.0
    ensures NeedRight(Exec(s, PaymentElementAddCall(pay, input)), pay, dist)
  {
    hide Cell, OnePerMarker, PaymentElementAddCall, Valid, ActiveSum, Round2, TotalsKept, TOTAL, CURRENCY, MARKER, NEED_DISTR;
    var call := PaymentElementAddCall(pay, input);
    AddIsForPayments(pay, input);
    var item := Item(call.etid, LastId(s, call.etid) + 1, call.fields);
    var t := Exec(s, call);
    assert t.items == s.items + [item];
    PaymentCells(pay, input, item.etid, item.id);
    forall id: nat, currency ensures ActiveSum(t, dist, id, currency) == ActiveSum(s, dist, id, currency) {
      AddedSum(s, call.etid, call.fields, dist, id, currency);
      PaymentNotRow(item, pay, dist, id, currency);
    }
    NewPaymentDue(s, pay, dist, input, input.currency);
    NonNegative(input.amount);
    Rounded(input.amount);
    Rounded(Round2(input.amount));
  }

  /** Recording an operation keeps every guarantee and names an element that is there. */
  lemma EnsuredKeeps(s: Store, pay: SpRef, dist: SpRef, input: PaymentInput, b: Books)
    requires Inv(s, pay, dist, b) && pay.entityTypeId != dist.entityTypeId && input.marker != "" && input.amount >= 0.0
    requires input.amount == b.amountOf(input.marker) && input.currency == b.currencyOf(input.marker)
    ensures var w := PaymentEnsured(s, pay, input);
            && Inv(w.store, pay, dist, b)
            && exists item :: item in w.store.items && HasMarker(item, pay, input.marker) && item.id == w.id
  {
    hide Inv, HasMarker, PaymentElementAddCall, FindByMarker, PaymentEnsured, Exec;
    EnsuredIs(s, pay, input);
    if FindByMarker(s, pay, input.marker).None? {
      NewPaymentKeepsInv(s, pay, dist, input, b);
      NewPaymentIsThere(s, pay, input);
    } else {
      FoundHas(s, pay, input.marker);
    }
  }

  lemma EnsuredIs(s: Store, pay: SpRef, input: PaymentInput)
    ensures var found := FindByMarker(s, pay, input.marker);
            var t := Exec(s, PaymentElementAddCall(pay, input));
            PaymentEnsured(s, pay, input) ==
            if found.Some? then Written(s, found.value, false) else Written(t, LastId(t, pay.entityTypeId), true)
  {
    hide FindByMarker;
  }

  lemma NewPaymentKeepsInv(s: Store, pay: SpRef, dist: SpRef, input: PaymentInput, b: Books)
    requires Inv(s, pay, dist, b) && pay.entityTypeId != dist.entityTypeId && input.marker != "" && input.amount >= 0.0
    requires input.amount == b.amountOf(input.marker) && input.currency == b.currencyOf(input.marker)
    requires FindByMarker(s, pay, input.marker).None?
    ensures Inv(Exec(s, PaymentElementAddCall(pay, input)), pay, dist, b)
  {
    hide Core, NeedRight, FindByMarker, Exec, PaymentElementAddCall;
    NewPaymentKeepsCore(s, pay, dist, input, b);
    NewPaymentKeepsNeed(s, pay, dist, input, b);
  }

  lemma NewPaymentIsThere(s: Store, pay: SpRef, input: PaymentInput)
    ensures var t := Exec(s, PaymentElementAddCall(pay, input));
            exists item :: item in t.items && HasMarker(item, pay, input.marker) && item.id == LastId(t, pay.entityTypeId)
  {
    hide Cell, PaymentElementAddCall, HasMarker;
    var call := PaymentElementAddCall(pay, input);
    AddIsForPayments(pay, input);
    var item := Item(call.etid, LastId(s, call.etid) + 1, call.fields);
    PaymentCells(pay, input, item.etid, item.id);
    HasItsMarker(item, pay, input.marker);
    var t := Exec(s, call);
    assert t.items == s.items + [item];
    assert item in t.items;
  }

  // ---- Rows

  lemma AddIsForRows(dist: SpRef, input: RowInput)
    ensures DistributionRowAddCall(dist, input).Add? && DistributionRowAddCall(dist, input).etid == dist.entityTypeId
    ensures DistributionRowAddCall(dist, input).fields == RowFields(dist, input)
  {
  }

  /** A new row counts for its own payment in its own currency, and for nothing else. */
  lemma NewRowAmount(dist: SpRef, input: RowInput, id: nat, paymentId: nat, currency: string)
    ensures var item := Item(dist.entityTypeId, id, RowFields(dist, input));
            && (IsActiveRowOf(item, dist, paymentId) <==> paymentId == input.paymentId)
            && ActiveAmount(item, dist, paymentId, currency) ==
               if paymentId == input.paymentId && currency == input.currency then Round2(input.amount) else 0.0
  {
    hide Cell, RowFields, Round2, PARENT_PAYMENT, STATUS, AMOUNT, CURRENCY;
    RowCells(dist, input, dist.entityTypeId, id);
    Rounded(input.amount);
  }

  lemma NewRowKeepsCore(s: Store, pay: SpRef, dist: SpRef, input: RowInput, b: Books)
    requires Core(s, pay, dist, b) && pay.entityTypeId != dist.entityTypeId
    requires input.paymentId <= LastId(s, pay.entityTypeId)
    requires FindByMarker(s, dist, input.marker).None?
    ensures Core(Exec(s, DistributionRowAddCall(dist, input)), pay, dist, b)
  {
    hide Cell, HasMarker, FindByMarker, DistributionRowAddCall, Valid, IsActiveRowOf, TOTAL, CURRENCY, MARKER, RowFields;
    var call := DistributionRowAddCall(dist, input);
    AddIsForRows(dist, input);
    var item := Item(call.etid, LastId(s, call.etid) + 1, call.fields);
    var t := Exec(s, call);
    assert t.items == s.items + [item];
    RowCells(dist, input, item.etid, item.id);
    HasItsMarker(item, dist, input.marker);
    AddKeepsValid(s, call.etid, call.fields);
    FindOrAddKeepsMarkers(s, dist, input.marker, call, pay);
    forall m ensures !HasMarker(item, pay, m) {
      OtherProcess(item, dist, pay, m);
    }
    forall id: nat | IsActiveRowOf(item, dist, id) ensures id == input.paymentId {
      NewRowAmount(dist, input, item.id, id, "");
    }
  }

  lemma NewRowKeepsNeed(s: Store, pay: SpRef, dist: SpRef, input: RowInput)
    requires NeedRight(s, pay, dist) && pay.entityTypeId != dist.entityTypeId
    ensures NeedRightBut(Exec(s, DistributionRowAddCall(dist, input)), pay, dist, input.paymentId)
    ensures input.amount == 0.0 ==> NeedRight(Exec(s, DistributionRowAddCall(dist, input)), pay, dist)
  {
    hide Cell, DistributionRowAddCall, ActiveSum, ActiveAmount, Round2, RowFields, Due;
    var call := DistributionRowAddCall(dist, input);
    AddIsForRows(dist, input);
    var item := Item(call.etid, LastId(s, call.etid) + 1, call.fields);
    var t := Exec(s, call);
    assert t.items == s.items + [item];
    NonNegative(0.0);
    forall id: nat, currency | id != input.paymentId || input.amount == 0.0
      ensures ActiveSum(t, dist, id, currency) == ActiveSum(s, dist, id, currency)
    {
      AddedSum(s, call.etid, call.fields, dist, id, currency);
      NewRowAmount(dist, input, item.id, id, currency);
    }
  }

  lemma RowWrittenKeeps(s: Store, pay: SpRef, dist: SpRef, input: RowInput, b: Books)
    requires Inv(s, pay, dist, b) && pay.entityTypeId != dist.entityTypeId && input.paymentId <= LastId(s, pay.entityTypeId)
    ensures var t := RowWritten(s, dist, input).store;
            && Core(t, pay, dist, b) && NeedRightBut(t, pay, dist, input.paymentId)
            && (input.amount == 0.0 ==> NeedRight(t, pay, dist))
            && forall item :: item in s.items ==> item in t.items
  {
    hide Core, FindByMarker, DistributionRowAddCall, Cell, DueOn;
    AddIsForRows(dist, input);
    if FindByMarker(s, dist, input.marker).None? {
      NewRowKeepsCore(s, pay, dist, input, b);
      NewRowKeepsNeed(s, pay, dist, input);
    }
  }
}
