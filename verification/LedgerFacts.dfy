/** What the ledger's writers put into the portal, cell by cell (server/utils/distributionLedgerWrite.ts):
    the row of an allocation or a trigger, the element of a payment, and that automatic writing never asks
    for a redistribution. */
module LedgerFacts {
  import opened Outcome
  import opened Text
  import opened Money
  import opened DistributionSp
  import opened ItemStore
  import opened DistributionLedger
  import opened LedgerWrite
  import opened LedgerRuns
  import opened LedgerSafety
  import opened LedgerRedelivery

  // ---- The row

  /** An item is the row of this much, written by us, of this payment for this target. */
  ghost predicate AutoRow(item: Item, dist: SpRef, paymentId: nat, op: Operation, amount: real, targetKind: string, targetId: string)
  {
    && item.etid == dist.entityTypeId
    && ParseLedgerRow(item, dist) == Entry(targetKind, targetId, Round2(amount), op.currency, Auto, true)
    && ParseTargetRow(item, dist) == Some(TargetRowRef(item.id, paymentId as real, Auto))
    && IsActiveRowOf(item, dist, paymentId) && IsActiveOnTarget(item, dist, targetKind, targetId)
    && HasMarker(item, dist, DedupKey(op) + "|" + targetKind + "|" + targetId)
    && Cell(item, dist, SOURCE) == Some(Str("auto")) && Cell(item, dist, STATUS) == Some(Str("active"))
  }

  lemma FactItem(dist: SpRef, op: Operation, paymentId: nat, amount: real, targetKind: string, targetId: string, responsible: Option<nat>, id: nat)
    ensures AutoRow(Item(dist.entityTypeId, id, RowFields(dist, FactInput(op, paymentId, amount, targetKind, targetId, responsible))),
                    dist, paymentId, op, amount, targetKind, targetId)
  {
    hide Cell, RowFields, Round2, DedupKey, ParseLedgerRow, ParseTargetRow;
    var input := FactInput(op, paymentId, amount, targetKind, targetId, responsible);
    RowReadsBack(dist, input, dist.entityTypeId, id);
    RowCells(dist, input, dist.entityTypeId, id);
  }

  /** A fact that is new leaves its row behind everything else; one that is not adds nothing. */
  lemma FactWrittenExactly(s: Store, pay: SpRef, dist: SpRef, op: Operation, amount: real, targetKind: string, targetId: string,
                           companyId: Option<nat>, responsible: Option<nat>)
    requires pay.entityTypeId != dist.entityTypeId
    ensures var p := PaymentEnsured(s, pay, CarrierInput(op, companyId, responsible));
            var w := FactWritten(s, pay, dist, op, amount, targetKind, targetId, companyId, responsible);
            && (w.created ==> exists item :: w.store.items == p.store.items + [item] && item.id == w.id
                                             && AutoRow(item, dist, p.id, op, amount, targetKind, targetId))
            && (!w.created ==> w.store == p.store)
  {
    hide PaymentEnsured, FindByMarker, RowFields, AutoRow, FactInput;
    var p := PaymentEnsured(s, pay, CarrierInput(op, companyId, responsible));
    var input := FactInput(op, p.id, amount, targetKind, targetId, responsible);
    AddIsForRows(dist, input);
    var item := Item(dist.entityTypeId, LastId(p.store, dist.entityTypeId) + 1, RowFields(dist, input));
    FactItem(dist, op, p.id, amount, targetKind, targetId, responsible, item.id);
  }

  lemma RowStays(s: Store, pay: SpRef, dist: SpRef, id: nat, total: real, currency: string, cap: nat, k: nat)
    requires pay.entityTypeId != dist.entityTypeId && k < |s.items| && s.items[k].etid == dist.entityTypeId
    ensures var t := Recomputed(s, pay, dist, id, total, currency, cap); |t.items| == |s.items| && t.items[k] == s.items[k]
  {
    hide Remaining;
  }

  /** What an allocation that is new leaves: its row, last, with all of the amount. */
  lemma AllocationRow(s: Store, pay: SpRef, dist: SpRef, op: Operation, targetKind: string, targetId: string,
                      companyId: Option<nat>, responsible: Option<nat>, cap: nat)
    requires pay.entityTypeId != dist.entityTypeId
    requires FactWritten(s, pay, dist, op, op.amount, targetKind, targetId, companyId, responsible).created
    ensures var t := AllocationWritten(s, pay, dist, op, targetKind, targetId, companyId, responsible, cap);
            && t.items != []
            && AutoRow(t.items[|t.items| - 1], dist, PaymentEnsured(s, pay, CarrierInput(op, companyId, responsible)).id,
                       op, op.amount, targetKind, targetId)
  {
    hide PaymentEnsured, FactWritten, AutoRow, Recomputed;
    FactWrittenExactly(s, pay, dist, op, op.amount, targetKind, targetId, companyId, responsible);
    var w := FactWritten(s, pay, dist, op, op.amount, targetKind, targetId, companyId, responsible).store;
    var p := PaymentEnsured(s, pay, CarrierInput(op, companyId, responsible));
    assert w.items[|w.items| - 1].etid == dist.entityTypeId by { RowOfProcess(w.items[|w.items| - 1], dist, p.id, op, op.amount, targetKind, targetId); }
    RowStays(w, pay, dist, p.id, op.amount, op.currency, cap, |w.items| - 1);
  }

  lemma RowOfProcess(item: Item, dist: SpRef, paymentId: nat, op: Operation, amount: real, targetKind: string, targetId: string)
    requires AutoRow(item, dist, paymentId, op, amount, targetKind, targetId)
    ensures item.etid == dist.entityTypeId
  {
  }

  /** What a trigger that is new leaves: a row of no money. */
  lemma TriggerRow(s: Store, pay: SpRef, dist: SpRef, op: Operation, targetKind: string, targetId: string,
                   companyId: Option<nat>, responsible: Option<nat>)
    requires pay.entityTypeId != dist.entityTypeId
    requires FactWritten(s, pay, dist, op, 0.0, targetKind, targetId, companyId, responsible).created
    ensures var t := FactWritten(s, pay, dist, op, 0.0, targetKind, targetId, companyId, responsible).store;
            && t.items != []
            && AutoRow(t.items[|t.items| - 1], dist, PaymentEnsured(s, pay, CarrierInput(op, companyId, responsible)).id,
                       op, 0.0, targetKind, targetId)
            && ParseLedgerRow(t.items[|t.items| - 1], dist).amount == 0.0
  {
    hide PaymentEnsured, FactWritten, Round2, ParseTargetRow, ParseLedgerRow, IsActiveRowOf, IsActiveOnTarget, HasMarker;
    FactWrittenExactly(s, pay, dist, op, 0.0, targetKind, targetId, companyId, responsible);
    NonNegative(0.0);
  }

  // ---- The element

  /** What a new element holds of the registry: each fact that is not blank in its own column, trimmed. */
  lemma RegistryPlaced(pay: SpRef, input: PaymentInput, id: nat)
    ensures var item, r := Item(pay.entityTypeId, id, PaymentElementAddCall(pay, input).fields), input.registry;
            && FactIn(item, pay, OP_DATE, r.operationDate) && FactIn(item, pay, DIRECTION, r.direction)
            && FactIn(item, pay, COUNTERPARTY, r.counterparty) && FactIn(item, pay, CP_ACCOUNT, r.counterpartyAccount)
            && FactIn(item, pay, CP_UNP, r.counterpartyUnp) && FactIn(item, pay, PURPOSE, r.purpose)
            && FactIn(item, pay, OWN_ACCOUNT, r.ownAccount) && FactIn(item, pay, BANK, r.bank)
  {
    hide FactIn, PaymentElementAddCall;
    FactPlaced(pay, input, id, 0);
    FactPlaced(pay, input, id, 1);
    FactPlaced(pay, input, id, 2);
    FactPlaced(pay, input, id, 3);
    FactPlaced(pay, input, id, 4);
    FactPlaced(pay, input, id, 5);
    FactPlaced(pay, input, id, 6);
    FactPlaced(pay, input, id, 7);
  }

  predicate FactIn(item: Item, pay: SpRef, f: Field, fact: string)
  {
    Cell(item, pay, f) == if Trim(fact) == "" then None else Some(Str(Trim(fact)))
  }

  lemma FactPlaced(pay: SpRef, input: PaymentInput, id: nat, k: nat)
    requires k < |REGISTRY_FIELDS|
    ensures FactIn(Item(pay.entityTypeId, id, PaymentElementAddCall(pay, input).fields), pay, REGISTRY_FIELDS[k], Facts(input.registry)[k])
  {
    hide Col, Trim, REGISTRY_FIELDS, PAYMENT_FIELDS, CORE_FIELDS, BUILT_IN, RegistryCells, Facts, Cells, TOTAL, CURRENCY, NEED_DISTR, NEEDS_REDISTR, MARKER;
    var name := Col(pay, REGISTRY_FIELDS[k]);
    RegistryCellsAt(pay, Facts(input.registry), |REGISTRY_FIELDS|);
    NotBuiltIn(pay, REGISTRY_FIELDS[k]);
    BuiltInNames();
    RegistryNotCore(pay, k);
    CoreNames(pay, input);
  }

  lemma RegistryNotCore(pay: SpRef, k: nat)
    requires k < |REGISTRY_FIELDS|
    ensures forall f :: f in CORE_FIELDS ==> Col(pay, f) != Col(pay, REGISTRY_FIELDS[k])
    ensures forall j :: 0 <= j < |REGISTRY_FIELDS| && j != k ==> Col(pay, REGISTRY_FIELDS[j]) != Col(pay, REGISTRY_FIELDS[k])
  {
    hide Col, REGISTRY_FIELDS, PAYMENT_FIELDS, CORE_FIELDS, BUILT_IN, TOTAL, CURRENCY, NEED_DISTR, NEEDS_REDISTR, MARKER;
    PaymentColumns(pay);
    PaymentFieldsListed();
    CoreListed(pay);
    forall f | f in CORE_FIELDS ensures Col(pay, f) != Col(pay, REGISTRY_FIELDS[k]) {
      var j :| 0 <= j < 4 && CORE_FIELDS[j] == f;
      assert f == PAYMENT_FIELDS[if j < 3 then j else 4];
    }
  }

  lemma CoreNames(pay: SpRef, input: PaymentInput)
    ensures forall name :: name in CoreCells(pay, input) ==> exists f :: f in CORE_FIELDS && name == Col(pay, f)
  {
    hide Col, TOTAL, CURRENCY, NEED_DISTR, MARKER;
    var vals := [Num(Round2(input.amount)), Str(input.currency), Num(Round2(input.amount)), Str(input.marker)];
    CellNames(pay, CORE_FIELDS, vals);
  }

  lemma {:induction false} CellNames(sp: SpRef, fields: seq<Field>, vals: seq<Val>)
    requires |fields| == |vals|
    ensures forall name :: name in Cells(sp, fields, vals) ==> exists f :: f in fields && name == Col(sp, f)
  {
    hide Col;
    if fields != [] {
      var n := |fields| - 1;
      CellNames(sp, fields[..n], vals[..n]);
      forall name | name in Cells(sp, fields, vals) ensures exists f :: f in fields && name == Col(sp, f) {
        if name != Col(sp, fields[n]) {
          assert name in Cells(sp, fields[..n], vals[..n]);
          var f :| f in fields[..n] && name == Col(sp, f);
          assert f in fields;
        } else {
          assert fields[n] in fields;
        }
      }
    }
  }

  /** And what it holds besides: title, outer key, company and responsible, each only if it is given. */
  lemma OuterPlaced(pay: SpRef, input: PaymentInput, id: nat)
    ensures var item := Item(pay.entityTypeId, id, PaymentElementAddCall(pay, input).fields);
            && Value(item, "title") == (if Trim(input.title) == "" then None else Some(Str(Trim(input.title))))
            && Value(item, "xmlId") == (if input.marker == "" then None else Some(Str(input.marker)))
            && Value(item, "companyId") ==
               (if input.companyId.Some? && input.companyId.value != 0 then Some(Num(input.companyId.value as real)) else None)
            && Value(item, "assignedById") ==
               (if input.assignedById.Some? && input.assignedById.value != 0 then Some(Num(input.assignedById.value as real)) else None)
  {
    hide Col, Trim, PaymentElementAddCall, OuterCells, BUILT_IN;
    BuiltInNames();
    OuterCellsSay(input);
    forall name | name in BUILT_IN
      ensures (name in PaymentElementAddCall(pay, input).fields <==> name in OuterCells(input))
              && (name in OuterCells(input) ==> PaymentElementAddCall(pay, input).fields[name] == OuterCells(input)[name])
    {
      OuterAlone(pay, input, name);
    }
  }

  lemma OuterAlone(pay: SpRef, input: PaymentInput, name: string)
    requires name in BUILT_IN
    ensures var fields := PaymentElementAddCall(pay, input).fields;
            && (name in fields <==> name in OuterCells(input))
            && (name in OuterCells(input) ==> fields[name] == OuterCells(input)[name])
  {
    hide Col, Trim, RegistryFieldPayload, CoreCells, OuterCells, BUILT_IN;
    OuterOnly(pay, input);
  }

  lemma OuterCellsSay(input: PaymentInput)
    ensures var cells := OuterCells(input);
            && ("title" in cells <==> Trim(input.title) != "") && ("title" in cells ==> cells["title"] == Str(Trim(input.title)))
            && ("xmlId" in cells <==> input.marker != "") && ("xmlId" in cells ==> cells["xmlId"] == Str(input.marker))
            && ("companyId" in cells <==> input.companyId.Some? && input.companyId.value != 0)
            && ("companyId" in cells ==> cells["companyId"] == Num(input.companyId.value as real))
            && ("assignedById" in cells <==> input.assignedById.Some? && input.assignedById.value != 0)
            && ("assignedById" in cells ==> cells["assignedById"] == Num(input.assignedById.value as real))
  {
    hide Trim;
    assert "title" != "xmlId" && "title" != "companyId" && "xmlId" != "companyId" && "assignedById" != "title";
    assert "assignedById" != "xmlId" && "assignedById" != "companyId";
  }

  lemma OuterOnly(pay: SpRef, input: PaymentInput)
    ensures forall name :: name in BUILT_IN ==> name !in RegistryFieldPayload(pay, input.registry) && name !in CoreCells(pay, input)
  {
    hide Col, Trim, RegistryFieldPayload, CORE_FIELDS, BUILT_IN, Cells, CoreCells, TOTAL, CURRENCY, NEED_DISTR, NEEDS_REDISTR, MARKER;
    forall name | name in BUILT_IN ensures name !in RegistryFieldPayload(pay, input.registry) && name !in CoreCells(pay, input) {
      if name in RegistryFieldPayload(pay, input.registry) {
        RegistryTouchesOnlyItsColumns(pay, input.registry, name);
      }
      if name in CoreCells(pay, input) {
        CoreNames(pay, input);
        var f :| f in CORE_FIELDS && name == Col(pay, f);
        NotBuiltIn(pay, f);
      }
    }
  }

  /** The element a fact brings with it: the operation's money and key, and nothing of the registry. */
  lemma CarrierHolds(pay: SpRef, op: Operation, companyId: Option<nat>, responsible: Option<nat>, id: nat)
    ensures var item := Item(pay.entityTypeId, id, PaymentElementAddCall(pay, CarrierInput(op, companyId, responsible)).fields);
            && Cell(item, pay, TOTAL) == Some(Num(Round2(op.amount))) && Cell(item, pay, NEED_DISTR) == Some(Num(Round2(op.amount)))
            && Cell(item, pay, CURRENCY) == Some(Str(op.currency)) && Cell(item, pay, MARKER) == Some(Str(DedupKey(op)))
            && (forall f :: f in REGISTRY_FIELDS ==> Cell(item, pay, f) == None)
            && Value(item, "title") == None
  {
    hide Cell, PaymentElementAddCall, REGISTRY_FIELDS, Facts, Round2, DedupKey, TOTAL, CURRENCY, NEED_DISTR, NEEDS_REDISTR, MARKER;
    var input := CarrierInput(op, companyId, responsible);
    PaymentCells(pay, input, pay.entityTypeId, id);
    OuterPlaced(pay, input, id);
    NothingGiven();
    forall f | f in REGISTRY_FIELDS
      ensures Cell(Item(pay.entityTypeId, id, PaymentElementAddCall(pay, input).fields), pay, f) == None
    {
      var k :| 0 <= k < |REGISTRY_FIELDS| && REGISTRY_FIELDS[k] == f;
      FactPlaced(pay, input, id, k);
    }
  }

  lemma NothingGiven()
    ensures |Facts(NO_REGISTRY)| == |REGISTRY_FIELDS| && forall k :: 0 <= k < |REGISTRY_FIELDS| ==> Trim(Facts(NO_REGISTRY)[k]) == ""
    ensures Trim("") == ""
  {
  }

  /** A new element is read back with its total and currency, and without a flag; the flag is read from its own column. */
  lemma CarrierReads(pay: SpRef, input: PaymentInput, id: nat)
    ensures ParsePaymentCarrier(Item(pay.entityTypeId, id, PaymentElementAddCall(pay, input).fields), pay)
            == Carrier(id, Round2(input.amount), input.currency, false)
  {
    hide Cell, PaymentElementAddCall, Round2;
    PaymentCells(pay, input, pay.entityTypeId, id);
    NewElementUnflagged(pay, input, id);
    Rounded(input.amount);
  }

  lemma FlagReads(item: Item, pay: SpRef)
    ensures ParsePaymentCarrier(item, pay).requiresRedistribution <==> Cell(item, pay, NEEDS_REDISTR) == Some(Str("Y"))
  {
    hide Cell;
  }

  /** A row names its responsible exactly when one is given. */
  lemma RowAssigned(dist: SpRef, input: RowInput, id: nat)
    ensures Value(Item(dist.entityTypeId, id, RowFields(dist, input)), "assignedById") ==
            if input.assignedById.Some? && input.assignedById.value != 0 then Some(Num(input.assignedById.value as real)) else None
  {
    hide Col, DISTRIBUTION_FIELDS, BUILT_IN, PARENT_PAYMENT, AMOUNT, CURRENCY, TARGET_KIND, TARGET_ID, SOURCE, STATUS, MARKER;
    var vals := [Num(input.paymentId as real), Num(Round2(input.amount)), Str(input.currency), Str(input.targetKind),
                 Str(input.targetId), Str(SourceText(input.source)), Str("active"), Str(input.marker)];
    RowFieldsListed();
    BuiltInNames();
    CellNames(dist, DISTRIBUTION_FIELDS, vals);
    if "assignedById" in Cells(dist, DISTRIBUTION_FIELDS, vals) {
      var f :| f in DISTRIBUTION_FIELDS && "assignedById" == Col(dist, f);
      NotBuiltIn(dist, f);
    }
  }

  /** Filling registry columns later asks for an update of this element, of exactly the facts that are not blank, and for
      none without any or without an element. */
  lemma FillExactly(pay: SpRef, elementId: nat, registry: Registry)
    ensures var call := RegistryFillCall(pay, elementId, registry);
            && (call.Some? <==> elementId != 0 && exists k :: 0 <= k < |REGISTRY_FIELDS| && Trim(Facts(registry)[k]) != "")
            && (call.Some? ==>
                  && call.value.Update? && call.value.etid == pay.entityTypeId && call.value.id == elementId
                  && (forall name :: name in call.value.fields ==> exists k :: 0 <= k < |REGISTRY_FIELDS| && name == Col(pay, REGISTRY_FIELDS[k]))
                  && forall k :: 0 <= k < |REGISTRY_FIELDS| ==>
                       if Trim(Facts(registry)[k]) == "" then Col(pay, REGISTRY_FIELDS[k]) !in call.value.fields
                       else Col(pay, REGISTRY_FIELDS[k]) in call.value.fields
                            && call.value.fields[Col(pay, REGISTRY_FIELDS[k])] == Str(Trim(Facts(registry)[k])))
  {
    hide Col, Trim, REGISTRY_FIELDS, Facts, RegistryCells;
    var facts := Facts(registry);
    RegistryCellsAt(pay, facts, |REGISTRY_FIELDS|);
    var fields := RegistryFieldPayload(pay, registry);
    assert fields == map[] <==> forall k :: 0 <= k < |REGISTRY_FIELDS| ==> Trim(facts[k]) == "" by {
      if fields != map[] {
        var name :| name in fields;
        var k :| 0 <= k < |REGISTRY_FIELDS| && name == Col(pay, REGISTRY_FIELDS[k]);
      }
    }
  }

  // ---- No redistribution is asked for

  /** No row is a manual one, and no payment asks for a redistribution. */
  ghost predicate Unflagged(s: Store, pay: SpRef, dist: SpRef)
  {
    && (forall item :: item in s.items && item.etid == dist.entityTypeId ==> Cell(item, dist, SOURCE) != Some(Str("manual")))
    && forall item :: item in s.items && item.etid == pay.entityTypeId ==> Cell(item, pay, NEEDS_REDISTR) != Some(Str("Y"))
  }

  lemma NewElementUnflagged(pay: SpRef, input: PaymentInput, id: nat)
    ensures Cell(Item(pay.entityTypeId, id, PaymentElementAddCall(pay, input).fields), pay, NEEDS_REDISTR) == None
  {
    hide Col, Trim, RegistryFieldPayload, CORE_FIELDS, PAYMENT_FIELDS, BUILT_IN, Cells, CoreCells, TOTAL, CURRENCY, NEED_DISTR, NEEDS_REDISTR, MARKER;
    var name := Col(pay, NEEDS_REDISTR);
    NotBuiltIn(pay, NEEDS_REDISTR);
    BuiltInNames();
    var own := [TOTAL, CURRENCY, NEED_DISTR, NEEDS_REDISTR, MARKER];
    assert own[3] in own;
    if name in RegistryFieldPayload(pay, input.registry) {
      RegistryTouchesOnlyItsColumns(pay, input.registry, name);
    }
    CoreUnflagged(pay, input);
  }

  lemma CoreUnflagged(pay: SpRef, input: PaymentInput)
    ensures Col(pay, NEEDS_REDISTR) !in CoreCells(pay, input)
  {
    hide Col, CORE_FIELDS, PAYMENT_FIELDS, Cells, CoreCells, TOTAL, CURRENCY, NEED_DISTR, NEEDS_REDISTR, MARKER;
    CoreNames(pay, input);
    CoreListed(pay);
    ComputedApart(pay);
    var fields := [TOTAL, CURRENCY, MARKER];
    assert fields[0] in fields && fields[1] in fields && fields[2] in fields;
    forall f | f in CORE_FIELDS ensures Col(pay, f) != Col(pay, NEEDS_REDISTR) {
      var j :| 0 <= j < 4 && CORE_FIELDS[j] == f;
    }
  }

  lemma EnsuredUnflagged(s: Store, pay: SpRef, dist: SpRef, input: PaymentInput)
    requires Unflagged(s, pay, dist) && pay.entityTypeId != dist.entityTypeId
    ensures Unflagged(PaymentEnsured(s, pay, input).store, pay, dist)
  {
    hide Cell, FindByMarker, PaymentElementAddCall;
    AddIsForPayments(pay, input);
    NewElementUnflagged(pay, input, LastId(s, pay.entityTypeId) + 1);
  }

  lemma FactUnflagged(s: Store, pay: SpRef, dist: SpRef, op: Operation, amount: real, targetKind: string, targetId: string,
                      companyId: Option<nat>, responsible: Option<nat>)
    requires Unflagged(s, pay, dist) && pay.entityTypeId != dist.entityTypeId
    ensures Unflagged(FactWritten(s, pay, dist, op, amount, targetKind, targetId, companyId, responsible).store, pay, dist)
  {
    hide Cell, FindByMarker, PaymentEnsured, RowFields;
    EnsuredUnflagged(s, pay, dist, CarrierInput(op, companyId, responsible));
    var p := PaymentEnsured(s, pay, CarrierInput(op, companyId, responsible));
    var input := FactInput(op, p.id, amount, targetKind, targetId, responsible);
    AddIsForRows(dist, input);
    RowCells(dist, input, dist.entityTypeId, LastId(p.store, dist.entityTypeId) + 1);
    assert "auto" != "manual";
  }

  /** Updates of other columns leave both as they are. */
  lemma UpdateUnflagged(s: Store, t: Store, pay: SpRef, dist: SpRef)
    requires Unflagged(s, pay, dist)
    requires Untouched(s, t, dist.entityTypeId, Col(dist, SOURCE)) && Untouched(s, t, pay.entityTypeId, Col(pay, NEEDS_REDISTR))
    ensures Unflagged(t, pay, dist)
  {
    hide Col, SOURCE, NEEDS_REDISTR;
    forall item | item in t.items && item.etid == dist.entityTypeId ensures Cell(item, dist, SOURCE) != Some(Str("manual")) {
      var k :| 0 <= k < |t.items| && t.items[k] == item;
      assert s.items[k] in s.items;
    }
    forall item | item in t.items && item.etid == pay.entityTypeId ensures Cell(item, pay, NEEDS_REDISTR) != Some(Str("Y")) {
      var k :| 0 <= k < |t.items| && t.items[k] == item;
      assert s.items[k] in s.items;
    }
  }

  lemma RecomputeUnflagged(s: Store, pay: SpRef, dist: SpRef, id: nat, total: real, currency: string, cap: nat)
    requires Unflagged(s, pay, dist) && pay.entityTypeId != dist.entityTypeId
    ensures Unflagged(Recomputed(s, pay, dist, id, total, currency, cap), pay, dist)
  {
    hide Col, Recomputed, Unflagged, SOURCE, NEEDS_REDISTR, NEED_DISTR;
    var t := Recomputed(s, pay, dist, id, total, currency, cap);
    ComputedApart(pay);
    RecomputeTouches(s, pay, dist, id, total, currency, cap, dist.entityTypeId, Col(dist, SOURCE));
    RecomputeTouches(s, pay, dist, id, total, currency, cap, pay.entityTypeId, Col(pay, NEEDS_REDISTR));
    UpdateUnflagged(s, t, pay, dist);
  }

  lemma SourceApart(dist: SpRef)
    ensures Col(dist, SOURCE) != Col(dist, STATUS)
  {
    hide Col, DISTRIBUTION_FIELDS, BUILT_IN, PARENT_PAYMENT, STATUS, AMOUNT, CURRENCY, MARKER, TARGET_KIND, TARGET_ID, SOURCE;
    RowColumns(dist);
    RowFieldsListed();
    assert Col(dist, DISTRIBUTION_FIELDS[5]) == Col(dist, SOURCE) && Col(dist, DISTRIBUTION_FIELDS[6]) == Col(dist, STATUS);
  }

  lemma NoManualLost(s: Store, pay: SpRef, dist: SpRef, targetKind: string, targetId: string, cap: nat, paymentId: nat)
    requires Unflagged(s, pay, dist)
    ensures !LostManualRow(s, dist, targetKind, targetId, cap, paymentId)
  {
    hide Col, Matches, TargetRowsListCall, SOURCE, NEEDS_REDISTR, TargetRefs, TargetRows;
    var rows := Loaded(TargetRows(s, dist, targetKind, targetId), cap);
    var refs := TargetRefs(rows, dist);
    forall i | 0 <= i < |refs| ensures refs[i].source != Manual {
      RefsMean(rows, dist, refs[i]);
      var item :| item in rows && ParseTargetRow(item, dist) == Some(refs[i]);
      assert item in TargetRows(s, dist, targetKind, targetId);
      TargetRowsAre(s, dist, targetKind, targetId, item);
      TargetRowsOfProcess(item, dist, targetKind, targetId);
      assert item in s.items;
    }
  }

  lemma FreedUnflagged(s: Store, pay: SpRef, dist: SpRef, targetKind: string, targetId: string, cap: nat)
    requires Unflagged(s, pay, dist) && Valid(s) && pay.entityTypeId != dist.entityTypeId
    ensures Unflagged(TargetFreed(s, pay, dist, targetKind, targetId, cap), pay, dist)
  {
    hide Col, TargetFreed, SOURCE, NEEDS_REDISTR, STATUS, LostManualRow, ReadsRight, ShownAfter, DueOn, Freed, Valid, ReadTargetSum;
    var t := TargetFreed(s, pay, dist, targetKind, targetId, cap);
    SourceApart(dist);
    FreeingTouches(s, pay, dist, targetKind, targetId, cap, dist.entityTypeId, Col(dist, SOURCE));
    forall item | item in t.items && item.etid == dist.entityTypeId ensures Cell(item, dist, SOURCE) != Some(Str("manual")) {
      var k :| 0 <= k < |t.items| && t.items[k] == item;
      assert s.items[k] in s.items;
    }
    forall item | item in t.items && item.etid == pay.entityTypeId ensures Cell(item, pay, NEEDS_REDISTR) != Some(Str("Y")) {
      var k :| 0 <= k < |t.items| && t.items[k] == item;
      assert s.items[k] in s.items;
      NoManualLost(s, pay, dist, targetKind, targetId, cap, s.items[k].id);
      FreedPayment(s, pay, dist, targetKind, targetId, cap, k);
    }
  }

  lemma FilledUnflagged(s: Store, pay: SpRef, dist: SpRef, elementId: nat, registry: Registry)
    requires Unflagged(s, pay, dist) && pay.entityTypeId != dist.entityTypeId
    ensures Unflagged(Exec(s, Update(pay.entityTypeId, elementId, RegistryFieldPayload(pay, registry))), pay, dist)
  {
    hide Col, Unflagged, RegistryFieldPayload, Exec, TOTAL, CURRENCY, MARKER, NEED_DISTR, NEEDS_REDISTR, SOURCE, Untouched;
    var fields := RegistryFieldPayload(pay, registry);
    var own := [TOTAL, CURRENCY, NEED_DISTR, NEEDS_REDISTR, MARKER];
    assert own[3] in own;
    if Col(pay, NEEDS_REDISTR) in fields {
      RegistryTouchesOnlyItsColumns(pay, registry, Col(pay, NEEDS_REDISTR));
    }
    UpdateTouchesItsFields(s, pay.entityTypeId, elementId, fields, pay.entityTypeId, Col(pay, NEEDS_REDISTR));
    UpdateTouchesItsFields(s, pay.entityTypeId, elementId, fields, dist.entityTypeId, Col(dist, SOURCE));
    UpdateUnflagged(s, Exec(s, Update(pay.entityTypeId, elementId, fields)), pay, dist);
  }

  lemma StepUnflagged(s: Store, pay: SpRef, dist: SpRef, cap: nat, e: Event)
    requires Unflagged(s, pay, dist) && Valid(s) && pay.entityTypeId != dist.entityTypeId
    ensures Unflagged(Step(s, pay, dist, cap, e), pay, dist)
  {
    hide FactWritten, PaymentEnsured, TargetFreed, Recomputed, RegistryFieldPayload, Exec, DedupKey, Cell;
    match e
    case Recorded(_, _, _, _, _) => EnsuredUnflagged(s, pay, dist, RecordInput(e));
    case Allocated(op, kind, id, companyId, responsible) =>
      FactUnflagged(s, pay, dist, op, op.amount, kind, id, companyId, responsible);
      RecomputeUnflagged(FactWritten(s, pay, dist, op, op.amount, kind, id, companyId, responsible).store, pay, dist,
                         PaymentEnsured(s, pay, CarrierInput(op, companyId, responsible)).id, op.amount, op.currency, cap);
    case Triggered(op, kind, id, companyId, responsible) =>
      FactUnflagged(s, pay, dist, op, 0.0, kind, id, companyId, responsible);
    case Filled(elementId, registry) =>
      FilledUnflagged(s, pay, dist, elementId, registry);
    case TargetDeleted(kind, id) => FreedUnflagged(s, pay, dist, kind, id, cap);
    case PaymentGone(elementId) =>
  }

  /** Over every run: what is written automatically is never taken for manual, so no payment is ever marked
      as requiring redistribution. */
  lemma {:induction false} NeverFlagged(pay: SpRef, dist: SpRef, cap: nat, b: Books, events: seq<Event>)
    requires pay.entityTypeId != dist.entityTypeId
    requires AllEnabled(Store([], map[]), pay, dist, cap, b, events)
    ensures Unflagged(Run(Store([], map[]), pay, dist, cap, events), pay, dist)
  {
    hide Step, Enabled, Core, NeedRight, Unflagged;
    if events == [] {
      NothingFlagged(pay, dist);
    } else {
      var front := events[..|events| - 1];
      NeverFlagged(pay, dist, cap, b, front);
      LedgerAlwaysRight(pay, dist, cap, b, front);
      CoreValid(Run(Store([], map[]), pay, dist, cap, front), pay, dist, b);
      StepUnflagged(Run(Store([], map[]), pay, dist, cap, front), pay, dist, cap, events[|events| - 1]);
    }
  }

  lemma NothingFlagged(pay: SpRef, dist: SpRef)
    ensures Unflagged(Store([], map[]), pay, dist)
  {
  }
}
