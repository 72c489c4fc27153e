/** What happens when the same operation is delivered again, and where the find-before-add rule ends. */
module LedgerRedelivery {
  import opened Outcome
  import opened Money
  import opened DistributionSp
  import opened ItemStore
  import opened DistributionLedger
  import opened LedgerWrite
  import opened LedgerRuns
  import opened LedgerSafety
  import opened LedgerRecovery

  // ---- Finding what was written

  lemma FindAfterAdd(s: Store, sp: SpRef, marker: string, add: Call)
    requires add.Add? && add.etid == sp.entityTypeId && marker != ""
    requires HasMarker(Item(add.etid, LastId(s, add.etid) + 1, add.fields), sp, marker)
    ensures var w := FindOrAdd(s, sp, marker, add);
            FindByMarker(w.store, sp, marker) == Some(w.id)
  {
    hide Matches, HasMarker, MarkerListCall;
    if FindByMarker(s, sp, marker).None? {
      var item := Item(add.etid, LastId(s, add.etid) + 1, add.fields);
      AddedFound(s, add, MarkerListCall(sp, marker));
      MarkerFilterMeans(item, sp, marker);
      assert [] + [item] == [item];
    }
  }

  lemma AddedFound(s: Store, add: Call, q: Query)
    requires add.Add?
    ensures var item := Item(add.etid, LastId(s, add.etid) + 1, add.fields);
            Found(Exec(s, add), q) == Found(s, q) + if Matches(item, q) then [item] else []
  {
    hide Matches;
    var item := Item(add.etid, LastId(s, add.etid) + 1, add.fields);
    FilterAppend(s.items, [item], i => Matches(i, q));
    assert [item][1..] == [];
    assert Filter([], (i: Item) => Matches(i, q)) == [];
    assert Filter([item], (i: Item) => Matches(i, q)) == (if Matches(item, q) then [item] else []) + [];
  }

  lemma FindElsewhere(s: Store, sp: SpRef, marker: string, add: Call)
    requires add.Add? && add.etid != sp.entityTypeId
    ensures FindByMarker(Exec(s, add), sp, marker) == FindByMarker(s, sp, marker)
  {
    hide Matches, MarkerListCall;
    var item := Item(add.etid, LastId(s, add.etid) + 1, add.fields);
    AddedFound(s, add, MarkerListCall(sp, marker));
    MarkerFilterMeans(item, sp, marker);
    assert Found(s, MarkerListCall(sp, marker)) + [] == Found(s, MarkerListCall(sp, marker));
  }

  lemma {:induction false} FirstFound(xs: seq<Item>, ys: seq<Item>, p: Item -> bool)
    requires |xs| == |ys| && forall k :: 0 <= k < |xs| ==> p(xs[k]) == p(ys[k]) && xs[k].id == ys[k].id
    ensures (Filter(xs, p) == [] <==> Filter(ys, p) == []) && (Filter(xs, p) != [] ==> Filter(xs, p)[0].id == Filter(ys, p)[0].id)
  {
    if xs != [] {
      FirstFound(xs[1..], ys[1..], p);
    }
  }

  lemma FindAfterUpdate(s: Store, t: Store, sp: SpRef, marker: string)
    requires Untouched(s, t, sp.entityTypeId, Col(sp, MARKER))
    ensures FindByMarker(t, sp, marker) == FindByMarker(s, sp, marker)
  {
    hide Matches, MarkerListCall, Col;
    var q := MarkerListCall(sp, marker);
    forall k | 0 <= k < |s.items| ensures Matches(t.items[k], q) == Matches(s.items[k], q) {
      MarkerFilterMeans(s.items[k], sp, marker);
      MarkerFilterMeans(t.items[k], sp, marker);
    }
    FirstFound(t.items, s.items, item => Matches(item, q));
  }

  // ---- A second delivery

  /** The rows of a payment are the same before and after its remainder is written. */
  lemma RowsAfterRecompute(s: Store, pay: SpRef, dist: SpRef, id: nat, total: real, currency: string, cap: nat)
    requires pay.entityTypeId != dist.entityTypeId
    ensures ActiveRows(Recomputed(s, pay, dist, id, total, currency, cap), dist, id) == ActiveRows(s, dist, id)
  {
    hide Remaining, ActiveRows, Exec, Col;
    RowsAfterUpdate(s, dist, pay.entityTypeId, id,
                    map[Col(pay, NEED_DISTR) := Num(Round2(Remaining(s, dist, id, total, currency, cap)))], id);
  }

  lemma UpdateTwice(s: Store, etid: nat, id: nat, fields: map<string, Val>)
    ensures Exec(Exec(s, Update(etid, id, fields)), Update(etid, id, fields)) == Exec(s, Update(etid, id, fields))
  {
    var t := Exec(s, Update(etid, id, fields));
    var u := Exec(t, Update(etid, id, fields));
    forall k | 0 <= k < |s.items| ensures u.items[k] == t.items[k] {
      assert s.items[k].cells + fields + fields == s.items[k].cells + fields;
    }
  }

  lemma RecomputeTwice(s: Store, pay: SpRef, dist: SpRef, id: nat, total: real, currency: string, cap: nat)
    requires pay.entityTypeId != dist.entityTypeId
    ensures var t := Recomputed(s, pay, dist, id, total, currency, cap);
            Recomputed(t, pay, dist, id, total, currency, cap) == t
  {
    hide Exec, DistributionSummary, ActiveRows;
    RowsAfterRecompute(s, pay, dist, id, total, currency, cap);
    UpdateTwice(s, pay.entityTypeId, id,
                map[Col(pay, NEED_DISTR) := Num(Money.Round2(Remaining(s, dist, id, total, currency, cap)))]);
  }

  lemma PaymentFoundAgain(s: Store, pay: SpRef, input: PaymentInput)
    requires input.marker != ""
    ensures var w := PaymentEnsured(s, pay, input);
            FindByMarker(w.store, pay, input.marker) == Some(w.id)
  {
    hide Cell, HasMarker, PaymentElementAddCall, FindByMarker, FindOrAdd;
    var call := PaymentElementAddCall(pay, input);
    AddIsForPayments(pay, input);
    PaymentCells(pay, input, call.etid, LastId(s, call.etid) + 1);
    HasItsMarker(Item(call.etid, LastId(s, call.etid) + 1, call.fields), pay, input.marker);
    FindAfterAdd(s, pay, input.marker, call);
  }

  lemma RowFoundAgain(s: Store, pay: SpRef, dist: SpRef, input: RowInput, marker: string)
    requires input.marker != "" && pay.entityTypeId != dist.entityTypeId
    ensures var w := RowWritten(s, dist, input);
            && FindByMarker(w.store, dist, input.marker) == Some(w.id)
            && FindByMarker(w.store, pay, marker) == FindByMarker(s, pay, marker)
  {
    hide Cell, HasMarker, DistributionRowAddCall, FindByMarker, RowFields;
    var call := DistributionRowAddCall(dist, input);
    AddIsForRows(dist, input);
    RowCells(dist, input, call.etid, LastId(s, call.etid) + 1);
    HasItsMarker(Item(call.etid, LastId(s, call.etid) + 1, call.fields), dist, input.marker);
    FindAfterAdd(s, dist, input.marker, call);
    FindElsewhere(s, pay, marker, call);
  }

  lemma FactFoundAgain(s: Store, pay: SpRef, dist: SpRef, op: Operation, amount: real, targetKind: string, targetId: string,
                       companyId: Option<nat>, responsible: Option<nat>)
    requires pay.entityTypeId != dist.entityTypeId
    ensures var payment := PaymentEnsured(s, pay, CarrierInput(op, companyId, responsible));
            var row := FactWritten(s, pay, dist, op, amount, targetKind, targetId, companyId, responsible);
            && FindByMarker(row.store, pay, DedupKey(op)) == Some(payment.id)
            && FindByMarker(row.store, dist, FactKey(op, targetKind, targetId)) == Some(row.id)
  {
    hide PaymentEnsured, RowWritten, FindByMarker, DedupKey;
    var input := CarrierInput(op, companyId, responsible);
    KeysNotBlank(op, targetKind, targetId);
    PaymentFoundAgain(s, pay, input);
    var payment := PaymentEnsured(s, pay, input);
    RowFoundAgain(payment.store, pay, dist, FactInput(op, payment.id, amount, targetKind, targetId, responsible), DedupKey(op));
  }

  lemma KeysNotBlank(op: Operation, targetKind: string, targetId: string)
    ensures DedupKey(op) != "" && FactKey(op, targetKind, targetId) != ""
  {
    assert '|' in DedupKey(op) && '|' in FactKey(op, targetKind, targetId);
  }

  /** Where both keys are already found, writing the fact again changes nothing. */
  lemma FactAgain(t: Store, pay: SpRef, dist: SpRef, op: Operation, amount: real, targetKind: string, targetId: string,
                  companyId: Option<nat>, responsible: Option<nat>)
    requires FindByMarker(t, pay, DedupKey(op)).Some? && FindByMarker(t, dist, FactKey(op, targetKind, targetId)).Some?
    ensures var again := FactWritten(t, pay, dist, op, amount, targetKind, targetId, companyId, responsible);
            again.store == t && !again.created && again.id == FindByMarker(t, dist, FactKey(op, targetKind, targetId)).value
    ensures PaymentEnsured(t, pay, CarrierInput(op, companyId, responsible)) ==
            Written(t, FindByMarker(t, pay, DedupKey(op)).value, false)
  {
    hide FindByMarker, PaymentElementAddCall, DistributionRowAddCall, DedupKey, FactKey;
    AddIsForPayments(pay, CarrierInput(op, companyId, responsible));
  }

  /** A redelivered allocation finds its element and its row and changes nothing, in any store. */
  lemma RedeliveryChangesNothing(s: Store, pay: SpRef, dist: SpRef, op: Operation, targetKind: string, targetId: string,
                                 companyId: Option<nat>, responsible: Option<nat>, cap: nat)
    requires pay.entityTypeId != dist.entityTypeId
    ensures var t := AllocationWritten(s, pay, dist, op, targetKind, targetId, companyId, responsible, cap);
            && AllocationWritten(t, pay, dist, op, targetKind, targetId, companyId, responsible, cap) == t
            && !FactWritten(t, pay, dist, op, op.amount, targetKind, targetId, companyId, responsible).created
  {
    hide PaymentEnsured, FactWritten, Recomputed, FindByMarker, DedupKey, FactKey, Col;
    var payment := PaymentEnsured(s, pay, CarrierInput(op, companyId, responsible));
    var row := FactWritten(s, pay, dist, op, op.amount, targetKind, targetId, companyId, responsible);
    var t := Recomputed(row.store, pay, dist, payment.id, op.amount, op.currency, cap);
    FactFoundAgain(s, pay, dist, op, op.amount, targetKind, targetId, companyId, responsible);
    MarkerAfterRecompute(row.store, pay, dist, payment.id, op.amount, op.currency, cap, DedupKey(op), FactKey(op, targetKind, targetId));
    FactAgain(t, pay, dist, op, op.amount, targetKind, targetId, companyId, responsible);
    RecomputeTwice(row.store, pay, dist, payment.id, op.amount, op.currency, cap);
  }

  lemma MarkerAfterRecompute(s: Store, pay: SpRef, dist: SpRef, id: nat, total: real, currency: string, cap: nat, key: string, fact: string)
    requires pay.entityTypeId != dist.entityTypeId
    ensures var t := Recomputed(s, pay, dist, id, total, currency, cap);
            FindByMarker(t, pay, key) == FindByMarker(s, pay, key) && FindByMarker(t, dist, fact) == FindByMarker(s, dist, fact)
  {
    hide Recomputed, FindByMarker, Col, TOTAL, CURRENCY, MARKER, NEED_DISTR, NEEDS_REDISTR;
    var t := Recomputed(s, pay, dist, id, total, currency, cap);
    ComputedApart(pay);
    var fields := [TOTAL, CURRENCY, MARKER];
    assert fields[2] in fields;
    RecomputeTouches(s, pay, dist, id, total, currency, cap, pay.entityTypeId, Col(pay, MARKER));
    RecomputeTouches(s, pay, dist, id, total, currency, cap, dist.entityTypeId, Col(dist, MARKER));
    FindAfterUpdate(s, t, pay, key);
    FindAfterUpdate(s, t, dist, fact);
  }

  // ---- A key delivered with another amount

  /** An operation that shares its key with an earlier one lands on the earlier one's payment: the total
      and the currency there stay, and the remainder becomes what is due of the delivered amount after the
      rows that are read. */
  lemma OtherAmountDelivered(s: Store, pay: SpRef, dist: SpRef, op: Operation, targetKind: string, targetId: string,
                             companyId: Option<nat>, responsible: Option<nat>, cap: nat, k: nat)
    requires Valid(s) && pay.entityTypeId != dist.entityTypeId && k < |s.items| && s.items[k].etid == pay.entityTypeId
    requires FindByMarker(s, pay, DedupKey(op)) == Some(s.items[k].id)
    ensures var t, id := AllocationWritten(s, pay, dist, op, targetKind, targetId, companyId, responsible, cap), s.items[k].id;
            && k < |t.items| && Is(t.items[k], pay.entityTypeId, id)
            && ParsePaymentTotal(t.items[k], pay) == ParsePaymentTotal(s.items[k], pay)
            && Cell(t.items[k], pay, NEED_DISTR) == Some(Num(Due(op.amount, LoadedSum(t, dist, id, op.currency, cap))))
  {
    hide Cell, FindByMarker, RowWritten, ParsePaymentTotal, Recomputed, ActiveRows, Distributed, Entries, DedupKey, Due;
    var id := s.items[k].id;
    var w := FactWritten(s, pay, dist, op, op.amount, targetKind, targetId, companyId, responsible).store;
    RowBehind(s, dist, FactInput(op, id, op.amount, targetKind, targetId, responsible), k);
    RecomputedOnly(w, pay, dist, id, op.amount, op.currency, cap, k);
    RowsAfterRecompute(w, pay, dist, id, op.amount, op.currency, cap);
  }

  lemma RowBehind(s: Store, dist: SpRef, input: RowInput, k: nat)
    requires k < |s.items|
    ensures var w := RowWritten(s, dist, input).store; k < |w.items| && w.items[k] == s.items[k]
  {
    hide FindByMarker, DistributionRowAddCall;
    AddIsForRows(dist, input);
  }

  lemma RecomputedOnly(w: Store, pay: SpRef, dist: SpRef, id: nat, total: real, currency: string, cap: nat, k: nat)
    requires k < |w.items| && Is(w.items[k], pay.entityTypeId, id)
    ensures var t := Recomputed(w, pay, dist, id, total, currency, cap);
            && Aligned(w, t) && ParsePaymentTotal(t.items[k], pay) == ParsePaymentTotal(w.items[k], pay)
            && Cell(t.items[k], pay, NEED_DISTR) == Some(Num(Due(total, LoadedSum(w, dist, id, currency, cap))))
  {
    hide Col, ActiveRows, ActiveSum, Remaining, Round2, NEED_DISTR, NEEDS_REDISTR, TOTAL, CURRENCY, MARKER, BUILT_IN, Due, LoadedSum;
    RemainingIsDue(w, dist, id, total, currency, cap);
    NotBuiltIn(pay, NEED_DISTR);
    BuiltInNames();
    ComputedApart(pay);
    var fields := [TOTAL, CURRENCY, MARKER];
    assert fields[0] in fields && fields[1] in fields;
  }

  lemma DueSame(x: real, a: real, y: real, b: real)
    ensures var u, v := Max0(Round2(x)) - a, Max0(Round2(y)) - b;
            Due(x, a) == Due(y, b) <==> u == v || (u <= 0.0 && v <= 0.0)
  {
    hide Round2;
  }

  /** A payment shows what is due on it. */
  ghost predicate ShowsDue(s: Store, pay: SpRef, dist: SpRef, k: nat)
    requires k < |s.items|
  {
    Cell(s.items[k], pay, NEED_DISTR) == Some(Num(DueOn(s, s.items[k], pay, dist)))
  }

  /** What the delivery adds to the payment's active rows: its amount, once. */
  ghost function NewlyDelivered(s: Store, dist: SpRef, op: Operation, targetKind: string, targetId: string): real
  {
    if FindByMarker(s, dist, FactKey(op, targetKind, targetId)).None? then Round2(op.amount) else 0.0
  }

  ghost function RowsDelivered(s: Store, dist: SpRef, op: Operation, targetKind: string, targetId: string): nat
  {
    if FindByMarker(s, dist, FactKey(op, targetKind, targetId)).None? then 1 else 0
  }

  lemma FactRow(s: Store, pay: SpRef, dist: SpRef, op: Operation, targetKind: string, targetId: string,
                companyId: Option<nat>, responsible: Option<nat>, id: nat)
    requires FindByMarker(s, pay, DedupKey(op)) == Some(id)
    ensures var input := FactInput(op, id, op.amount, targetKind, targetId, responsible);
            FactWritten(s, pay, dist, op, op.amount, targetKind, targetId, companyId, responsible).store ==
            if FindByMarker(s, dist, FactKey(op, targetKind, targetId)).Some? then s
            else Exec(s, Add(dist.entityTypeId, RowFields(dist, input)))
  {
    hide FindByMarker, DedupKey, FactKey, Exec, RowFields, PaymentElementAddCall;
    AddIsForPayments(pay, CarrierInput(op, companyId, responsible));
    AddIsForRows(dist, FactInput(op, id, op.amount, targetKind, targetId, responsible));
  }

  /** The sums after the row is written, from those before it. */
  lemma DeliveredSum(s: Store, pay: SpRef, dist: SpRef, op: Operation, targetKind: string, targetId: string,
                     companyId: Option<nat>, responsible: Option<nat>, id: nat, c: string)
    requires pay.entityTypeId != dist.entityTypeId && FindByMarker(s, pay, DedupKey(op)) == Some(id)
    ensures var w := FactWritten(s, pay, dist, op, op.amount, targetKind, targetId, companyId, responsible).store;
            ActiveSum(w, dist, id, c) ==
            ActiveSum(s, dist, id, c) + if c == op.currency then NewlyDelivered(s, dist, op, targetKind, targetId) else 0.0
  {
    hide FindByMarker, DedupKey, FactKey, Exec, FactWritten, RowFields, ActiveAmount, ActiveSum, Round2, IsActiveRowOf;
    FactRow(s, pay, dist, op, targetKind, targetId, companyId, responsible, id);
    var input := FactInput(op, id, op.amount, targetKind, targetId, responsible);
    NewRowAmount(dist, input, LastId(s, dist.entityTypeId) + 1, id, c);
    AddedSum(s, dist.entityTypeId, RowFields(dist, input), dist, id, c);
  }

  /** And the rows themselves: its own stands behind them. */
  lemma DeliveredRows(s: Store, pay: SpRef, dist: SpRef, op: Operation, targetKind: string, targetId: string,
                      companyId: Option<nat>, responsible: Option<nat>, id: nat) returns (own: seq<Item>)
    requires pay.entityTypeId != dist.entityTypeId && FindByMarker(s, pay, DedupKey(op)) == Some(id)
    ensures ActiveRows(FactWritten(s, pay, dist, op, op.amount, targetKind, targetId, companyId, responsible).store, dist, id) ==
            ActiveRows(s, dist, id) + own
    ensures |own| == RowsDelivered(s, dist, op, targetKind, targetId)
  {
    hide FindByMarker, DedupKey, FactKey, Exec, FactWritten, RowFields, ActiveAmount, Round2, IsActiveRowOf, Matches, Found, ActiveRowsListCall;
    FactRow(s, pay, dist, op, targetKind, targetId, companyId, responsible, id);
    if FindByMarker(s, dist, FactKey(op, targetKind, targetId)).Some? {
      own := [];
      assert ActiveRows(s, dist, id) + [] == ActiveRows(s, dist, id);
    } else {
      var input := FactInput(op, id, op.amount, targetKind, targetId, responsible);
      RowBehindRows(s, dist, input);
      own := [RowItem(s, dist, input)];
    }
  }

  function RowItem(s: Store, dist: SpRef, input: RowInput): Item
  {
    Item(dist.entityTypeId, LastId(s, dist.entityTypeId) + 1, RowFields(dist, input))
  }

  lemma RowMatches(s: Store, dist: SpRef, input: RowInput)
    ensures Matches(RowItem(s, dist, input), ActiveRowsListCall(dist, input.paymentId))
  {
    hide RowFields, ActiveAmount, IsActiveRowOf, IsActiveOnTarget, Matches, ActiveRowsListCall, TargetRowsListCall, LastId, Round2;
    NewRowAmount(dist, input, LastId(s, dist.entityTypeId) + 1, input.paymentId, "");
    FiltersMean(RowItem(s, dist, input), dist, input.paymentId, "", "");
  }

  lemma RowBehindRows(s: Store, dist: SpRef, input: RowInput)
    ensures ActiveRows(Exec(s, Add(dist.entityTypeId, RowFields(dist, input))), dist, input.paymentId) ==
            ActiveRows(s, dist, input.paymentId) + [RowItem(s, dist, input)]
  {
    hide Exec, RowFields, Matches, Found, ActiveRowsListCall, LastId;
    RowMatches(s, dist, input);
    AddedFound(s, Add(dist.entityTypeId, RowFields(dist, input)), ActiveRowsListCall(dist, input.paymentId));
  }

  /** What the recompute reads: its own row as well, unless as many as are read stand ahead of it. */
  ghost function ReadDelivered(s: Store, dist: SpRef, op: Operation, targetKind: string, targetId: string, cap: nat, id: nat): real
  {
    if |ActiveRows(s, dist, id)| < cap then LoadedSum(s, dist, id, op.currency, cap) + NewlyDelivered(s, dist, op, targetKind, targetId)
    else LoadedSum(s, dist, id, op.currency, cap)
  }

  lemma LoadedFront(rows: seq<Item>, more: seq<Item>, cap: nat)
    requires cap <= |rows|
    ensures Loaded(rows + more, cap) == Loaded(rows, cap)
  {
    assert (rows + more)[..cap] == rows[..cap];
    assert |rows| == cap ==> rows[..cap] == rows;
    assert more == [] ==> rows + more == rows;
  }

  lemma AllocationRead(s: Store, pay: SpRef, dist: SpRef, op: Operation, targetKind: string, targetId: string,
                       companyId: Option<nat>, responsible: Option<nat>, cap: nat, id: nat)
    requires pay.entityTypeId != dist.entityTypeId && FindByMarker(s, pay, DedupKey(op)) == Some(id)
    ensures LoadedSum(AllocationWritten(s, pay, dist, op, targetKind, targetId, companyId, responsible, cap), dist, id, op.currency, cap) ==
            ReadDelivered(s, dist, op, targetKind, targetId, cap, id)
    ensures |ActiveRows(s, dist, id)| <= cap ==> LoadedSum(s, dist, id, op.currency, cap) == ActiveSum(s, dist, id, op.currency)
  {
    hide FindByMarker, DedupKey, FactWritten, ActiveSum, ActiveRows, Recomputed, NewlyDelivered, Distributed, Entries, PaymentElementAddCall;
    AddIsForPayments(pay, CarrierInput(op, companyId, responsible));
    var w := FactWritten(s, pay, dist, op, op.amount, targetKind, targetId, companyId, responsible).store;
    RowsAfterRecompute(w, pay, dist, id, op.amount, op.currency, cap);
    var own := DeliveredRows(s, pay, dist, op, targetKind, targetId, companyId, responsible, id);
    RowsReadSum(s, dist, id, op.currency);
    if |ActiveRows(s, dist, id)| < cap {
      RowsReadSum(w, dist, id, op.currency);
      DeliveredSum(s, pay, dist, op, targetKind, targetId, companyId, responsible, id, op.currency);
    } else {
      LoadedFront(ActiveRows(s, dist, id), own, cap);
    }
  }

  lemma AllocationSums(s: Store, pay: SpRef, dist: SpRef, op: Operation, targetKind: string, targetId: string,
                       companyId: Option<nat>, responsible: Option<nat>, cap: nat, id: nat, c: string)
    requires pay.entityTypeId != dist.entityTypeId && FindByMarker(s, pay, DedupKey(op)) == Some(id)
    ensures ActiveSum(AllocationWritten(s, pay, dist, op, targetKind, targetId, companyId, responsible, cap), dist, id, c) ==
            ActiveSum(s, dist, id, c) + if c == op.currency then NewlyDelivered(s, dist, op, targetKind, targetId) else 0.0
  {
    hide FindByMarker, DedupKey, FactWritten, ActiveSum, Recomputed, PaymentEnsured, NewlyDelivered;
    DeliveredSum(s, pay, dist, op, targetKind, targetId, companyId, responsible, id, c);
    var w := FactWritten(s, pay, dist, op, op.amount, targetKind, targetId, companyId, responsible).store;
    RecomputedSum(w, pay, dist, PaymentEnsured(s, pay, CarrierInput(op, companyId, responsible)).id, op.amount, op.currency, cap, id, c);
  }

  /** Told from the rows before the delivery and whether its own row is new: afterwards the payment shows
      what is due on it exactly when the delivered amount and the payment's own leave the same, the one after
      the rows that are read, the other after its active rows, or both leave nothing; in one currency, where
      all rows are read, when they are the same money or both are used up. */
  lemma SharedKeyExactly(s: Store, pay: SpRef, dist: SpRef, op: Operation, targetKind: string, targetId: string,
                         companyId: Option<nat>, responsible: Option<nat>, cap: nat, k: nat)
    requires Valid(s) && pay.entityTypeId != dist.entityTypeId && k < |s.items| && s.items[k].etid == pay.entityTypeId
    requires FindByMarker(s, pay, DedupKey(op)) == Some(s.items[k].id)
    ensures var t, p := AllocationWritten(s, pay, dist, op, targetKind, targetId, companyId, responsible, cap), ParsePaymentTotal(s.items[k], pay);
            var delivered, own, more := Max0(Round2(op.amount)), Max0(Round2(p.total)), NewlyDelivered(s, dist, op, targetKind, targetId);
            var read := ReadDelivered(s, dist, op, targetKind, targetId, cap, s.items[k].id);
            var rows := ActiveSum(s, dist, s.items[k].id, p.currency) + if p.currency == op.currency then more else 0.0;
            && k < |t.items|
            && (ShowsDue(t, pay, dist, k) <==> delivered - read == own - rows || (delivered <= read && own <= rows))
            && (op.currency == p.currency && |ActiveRows(s, dist, s.items[k].id)| + RowsDelivered(s, dist, op, targetKind, targetId) <= cap ==>
                  (ShowsDue(t, pay, dist, k) <==> delivered == own || (delivered <= rows && own <= rows)))
  {
    hide Cell, FindByMarker, ParsePaymentTotal, AllocationWritten, FactWritten, ActiveRows, ActiveSum, LoadedSum, DedupKey, FactKey, Due, Round2;
    var id := s.items[k].id;
    var t, p := AllocationWritten(s, pay, dist, op, targetKind, targetId, companyId, responsible, cap), ParsePaymentTotal(s.items[k], pay);
    OtherAmountDelivered(s, pay, dist, op, targetKind, targetId, companyId, responsible, cap, k);
    AllocationRead(s, pay, dist, op, targetKind, targetId, companyId, responsible, cap, id);
    AllocationSums(s, pay, dist, op, targetKind, targetId, companyId, responsible, cap, id, p.currency);
    DueSame(op.amount, LoadedSum(t, dist, id, op.currency, cap), p.total, ActiveSum(t, dist, id, p.currency));
  }

  /** A delivery under a shared key leaves every other payment right, so the whole ledger is right after
      it exactly when that payment is. */
  lemma SharedKeyElsewhere(s: Store, pay: SpRef, dist: SpRef, op: Operation, targetKind: string, targetId: string,
                           companyId: Option<nat>, responsible: Option<nat>, cap: nat, k: nat)
    requires Valid(s) && NeedRight(s, pay, dist) && pay.entityTypeId != dist.entityTypeId
    requires k < |s.items| && s.items[k].etid == pay.entityTypeId
    requires FindByMarker(s, pay, DedupKey(op)) == Some(s.items[k].id)
    ensures var t := AllocationWritten(s, pay, dist, op, targetKind, targetId, companyId, responsible, cap);
            k < |t.items| && (NeedRight(t, pay, dist) <==> ShowsDue(t, pay, dist, k))
  {
    hide Cell, FindByMarker, DueOn, Recomputed, RowWritten, DedupKey, FactInput, Valid;
    var id := s.items[k].id;
    var input := FactInput(op, id, op.amount, targetKind, targetId, responsible);
    var w := RowWritten(s, dist, input).store;
    var t := Recomputed(w, pay, dist, id, op.amount, op.currency, cap);
    FactPayment(op, id, op.amount, targetKind, targetId, responsible);
    RowAround(s, pay, dist, input, k);
    RecomputedAligned(w, pay, dist, id, op.amount, op.currency, cap);
    forall j | 0 <= j < |t.items| && t.items[j].etid == pay.entityTypeId && t.items[j].id != id ensures ShowsDue(t, pay, dist, j) {
      assert w.items[j] in w.items;
      OtherCell(w, pay, dist, id, op.amount, op.currency, cap, j);
      RecomputedDue(w, pay, dist, id, op.amount, op.currency, cap, j);
    }
    forall j | 0 <= j < |t.items| && t.items[j].etid == pay.entityTypeId && t.items[j].id == id ensures j == k {
      SameById(w, j, k);
    }
    assert t.items[k] in t.items;
  }

  lemma FactPayment(op: Operation, id: nat, amount: real, targetKind: string, targetId: string, responsible: Option<nat>)
    ensures FactInput(op, id, amount, targetKind, targetId, responsible).paymentId == id
  {
  }

  /** Writing a row keeps every item in its place and every payment right but the row's own. */
  lemma RowAround(s: Store, pay: SpRef, dist: SpRef, input: RowInput, k: nat)
    requires Valid(s) && NeedRight(s, pay, dist) && pay.entityTypeId != dist.entityTypeId && k < |s.items|
    ensures var w := RowWritten(s, dist, input).store;
            && Valid(w) && NeedRightBut(w, pay, dist, input.paymentId) && k < |w.items| && w.items[k] == s.items[k]
  {
    hide Cell, FindByMarker, DueOn, DistributionRowAddCall, Valid;
    AddIsForRows(dist, input);
    if FindByMarker(s, dist, input.marker).None? {
      NewRowKeepsNeed(s, pay, dist, input);
      AddKeepsValid(s, dist.entityTypeId, DistributionRowAddCall(dist, input).fields);
    }
  }

  /** Two operations of one key: one of a hundred, one of sixty. */
  function OfKey(doc: string, amount: real): Operation
  {
    Operation("", doc, amount, "")
  }

  function HundredRecorded(pay: SpRef, doc: string): Store
  {
    PaymentEnsured(Store([], map[]), pay, CarrierInput(OfKey(doc, 100.0), None, None)).store
  }

  lemma WholeAmounts()
    ensures Round2(100.0) == 100.0 && Round2(60.0) == 60.0
  {
    CentsOfWhole(10000);
    CentsOfWhole(6000);
  }

  lemma OnlyPayment(pay: SpRef, doc: string)
    ensures var s, key := HundredRecorded(pay, doc), DedupKey(OfKey(doc, 100.0));
            && |s.items| == 1 && Is(s.items[0], pay.entityTypeId, 1) && Valid(s)
            && ParsePaymentTotal(s.items[0], pay) == Total(100.0, "")
            && Cell(s.items[0], pay, NEED_DISTR) == Some(Num(100.0))
            && FindByMarker(s, pay, key) == Some(1)
  {
    hide Cell, PaymentElementAddCall, Round2, TOTAL, CURRENCY, NEED_DISTR, MARKER, FindByMarker;
    var input := CarrierInput(OfKey(doc, 100.0), None, None);
    KeysNotBlank(OfKey(doc, 100.0), "", "");
    NothingFound(pay, input.marker);
    AddIsForPayments(pay, input);
    PaymentCells(pay, input, pay.entityTypeId, 1);
    PaymentFoundAgain(Store([], map[]), pay, input);
    WholeAmounts();
  }

  lemma NothingFound(pay: SpRef, marker: string)
    ensures FindByMarker(Store([], map[]), pay, marker).None?
  {
  }

  lemma OneItemSum(s: Store, pay: SpRef, dist: SpRef)
    requires |s.items| == 1 && s.items[0].etid == pay.entityTypeId != dist.entityTypeId
    ensures ActiveSum(s, dist, 1, "") == 0.0
  {
    hide ActiveAmount;
    var w := item => ActiveAmount(item, dist, 1, "");
    PaymentNotRow(s.items[0], pay, dist, 1, "");
    assert s.items == [s.items[0]];
    One(s.items[0], w);
  }

  function SixtyInput(doc: string): RowInput
  {
    FactInput(OfKey(doc, 60.0), 1, 60.0, "deal", "7", None)
  }

  /** What the allocation of sixty adds: its row, and no more. */
  lemma SixtyAdded(pay: SpRef, dist: SpRef, doc: string)
    requires pay.entityTypeId != dist.entityTypeId
    ensures FactWritten(HundredRecorded(pay, doc), pay, dist, OfKey(doc, 60.0), 60.0, "deal", "7", None, None).store ==
            Exec(HundredRecorded(pay, doc), Add(dist.entityTypeId, RowFields(dist, SixtyInput(doc))))
  {
    hide HundredRecorded, FindByMarker, Cell, ParsePaymentTotal, DedupKey, FactKey, Valid, RowFields, Exec;
    OnlyPayment(pay, doc);
    SameKey(doc);
    AddIsForRows(dist, SixtyInput(doc));
    NoRowYet(HundredRecorded(pay, doc), pay, dist, SixtyInput(doc).marker);
  }

  lemma SixtyRow(pay: SpRef, dist: SpRef, doc: string)
    requires pay.entityTypeId != dist.entityTypeId
    ensures var s, op := HundredRecorded(pay, doc), OfKey(doc, 60.0);
            var w := FactWritten(s, pay, dist, op, 60.0, "deal", "7", None, None).store;
            && |w.items| == 2 && w.items[0] == s.items[0] && w.items[1].etid == dist.entityTypeId
            && ActiveSum(w, dist, 1, "") == 60.0
  {
    hide HundredRecorded, FactWritten, FindByMarker, Cell, ParsePaymentTotal, DedupKey, FactKey, Valid, ActiveSum, RowFields,
         ActiveAmount, Round2;
    var s := HundredRecorded(pay, doc);
    SixtyAdded(pay, dist, doc);
    OnlyPayment(pay, doc);
    OneItemSum(s, pay, dist);
    AddedSum(s, dist.entityTypeId, RowFields(dist, SixtyInput(doc)), dist, 1, "");
    NewRowAmount(dist, SixtyInput(doc), LastId(s, dist.entityTypeId) + 1, 1, "");
    WholeAmounts();
  }

  lemma SameKey(doc: string)
    ensures DedupKey(OfKey(doc, 60.0)) == DedupKey(OfKey(doc, 100.0))
  {
  }

  /** A hundred is recorded, and sixty allocated under the same number and date: the payment shows nothing
      left while forty is due. */
  lemma SixtyOfAHundred(pay: SpRef, dist: SpRef, doc: string, cap: nat)
    requires pay.entityTypeId != dist.entityTypeId && cap > 0
    ensures var s := HundredRecorded(pay, doc);
            var t := AllocationWritten(s, pay, dist, OfKey(doc, 60.0), "deal", "7", None, None, cap);
            && |s.items| == 1 && DueOn(s, s.items[0], pay, dist) == 100.0 && ShowsDue(s, pay, dist, 0)
            && |t.items| == 2 && t.items[0].etid == pay.entityTypeId
            && Cell(t.items[0], pay, NEED_DISTR) == Some(Num(0.0)) && DueOn(t, t.items[0], pay, dist) == 40.0
  {
    hide HundredRecorded, AllocationWritten, FindByMarker, Cell, ParsePaymentTotal, DedupKey, Valid, ActiveSum, LoadedSum, Round2;
    var s := HundredRecorded(pay, doc);
    OnlyPayment(pay, doc);
    OneItemSum(s, pay, dist);
    SameKey(doc);
    WholeAmounts();
    SixtyAllocated(pay, dist, doc, cap);
    OtherAmountDelivered(s, pay, dist, OfKey(doc, 60.0), "deal", "7", None, None, cap, 0);
  }

  lemma SixtyAllocated(pay: SpRef, dist: SpRef, doc: string, cap: nat)
    requires pay.entityTypeId != dist.entityTypeId && cap > 0
    ensures var t := AllocationWritten(HundredRecorded(pay, doc), pay, dist, OfKey(doc, 60.0), "deal", "7", None, None, cap);
            |t.items| == 2 && ActiveSum(t, dist, 1, "") == 60.0 && LoadedSum(t, dist, 1, "", cap) == 60.0
  {
    hide HundredRecorded, FactWritten, FindByMarker, Cell, ParsePaymentTotal, Recomputed, DedupKey, Valid, ActiveSum, ActiveRows, Distributed,
         Entries;
    var s, op := HundredRecorded(pay, doc), OfKey(doc, 60.0);
    OnlyPayment(pay, doc);
    SameKey(doc);
    SixtyRow(pay, dist, doc);
    FoundPayment(s, pay, op);
    var w := FactWritten(s, pay, dist, op, 60.0, "deal", "7", None, None).store;
    OneActiveRow(w, dist);
    RecomputedSum(w, pay, dist, 1, 60.0, "", cap, 1, "");
    RecomputedAligned(w, pay, dist, 1, 60.0, "", cap);
    RowsAfterRecompute(w, pay, dist, 1, 60.0, "", cap);
    RowsReadSum(Recomputed(w, pay, dist, 1, 60.0, "", cap), dist, 1, "");
  }

  lemma FoundPayment(s: Store, pay: SpRef, op: Operation)
    requires FindByMarker(s, pay, DedupKey(op)) == Some(1)
    ensures PaymentEnsured(s, pay, CarrierInput(op, None, None)).id == 1
  {
    hide FindByMarker, DedupKey, PaymentElementAddCall;
    AddIsForPayments(pay, CarrierInput(op, None, None));
  }

  lemma OneActiveRow(w: Store, dist: SpRef)
    requires |w.items| == 2 && w.items[0].etid != dist.entityTypeId
    ensures |ActiveRows(w, dist, 1)| <= 1
  {
    OneItem(w, ActiveRowsListCall(dist, 1));
  }

  // ---- Keys

  lemma LastBar(a: string, x: string, b: string, y: string)
    requires '|' !in x && '|' !in y && a + "|" + x == b + "|" + y
    ensures a == b && x == y
  {
    var whole := a + "|" + x;
    assert whole[|a|] == '|' && (b + "|" + y)[|b|] == '|';
    assert forall k :: |a| < k < |whole| ==> whole[k] == x[k - |a| - 1];
    assert forall k :: |b| < k < |whole| ==> (b + "|" + y)[k] == y[k - |b| - 1];
    assert whole[..|a|] == a && (b + "|" + y)[..|b|] == b;
    assert whole[|a| + 1..] == x && (b + "|" + y)[|b| + 1..] == y;
  }

  /** Two facts share a marker only if they are the same target of operations with the same key. */
  lemma FactKeysApart(op: Operation, kind: string, id: string, op': Operation, kind': string, id': string)
    requires '|' !in kind && '|' !in id && '|' !in kind' && '|' !in id'
    ensures FactKey(op, kind, id) == FactKey(op', kind', id') <==> DedupKey(op) == DedupKey(op') && kind == kind' && id == id'
  {
    hide DedupKey;
    if FactKey(op, kind, id) == FactKey(op', kind', id') {
      LastBar(DedupKey(op) + "|" + kind, id, DedupKey(op') + "|" + kind', id');
      LastBar(DedupKey(op), kind, DedupKey(op'), kind');
    }
  }

  // ---- Where the rule ends

  /** Writing one row twice adds it twice exactly when its marker is blank. */
  lemma WrittenTwice(s: Store, pay: SpRef, dist: SpRef, input: RowInput)
    requires pay.entityTypeId != dist.entityTypeId
    ensures var once := RowWritten(s, dist, input);
            var twice := RowWritten(once.store, dist, input);
            twice.created <==> input.marker == ""
  {
    hide DistributionRowAddCall;
    AddIsForRows(dist, input);
    if input.marker != "" {
      RowFoundAgain(s, pay, dist, input, "");
    }
  }

  lemma BothStored(s: Store, x: Call, y: Call, a: Item, b: Item)
    requires x.Add? && y.Add? && x.etid == y.etid
    requires a == Item(x.etid, LastId(s, x.etid) + 1, x.fields) && b == Item(y.etid, a.id + 1, y.fields)
    ensures a in Exec(Exec(s, x), y).items && b in Exec(Exec(s, x), y).items
  {
    assert Exec(Exec(s, x), y).items == s.items + [a] + [b];
  }

  /** Two writers that both look before either adds leave two elements with one marker; `LedgerInterleaving`
      says exactly when writers do. */
  lemma InterleavedWritersDuplicate(s: Store, pay: SpRef, first: PaymentInput, second: PaymentInput)
    requires first.marker == second.marker != "" && FindByMarker(s, pay, first.marker).None?
    ensures !OnePerMarker(Exec(Exec(s, PaymentElementAddCall(pay, first)), PaymentElementAddCall(pay, second)), pay)
  {
    hide Cell, HasMarker, PaymentElementAddCall;
    var x, y := PaymentElementAddCall(pay, first), PaymentElementAddCall(pay, second);
    AddIsForPayments(pay, first);
    AddIsForPayments(pay, second);
    var id := LastId(s, pay.entityTypeId) + 1;
    var a, b := Item(x.etid, id, x.fields), Item(y.etid, id + 1, y.fields);
    PaymentCells(pay, first, a.etid, a.id);
    PaymentCells(pay, second, b.etid, b.id);
    HasItsMarker(a, pay, first.marker);
    HasItsMarker(b, pay, second.marker);
    BothStored(s, x, y, a, b);
    hide Exec, LastId;
    var t := Exec(Exec(s, x), y);
    assert a in t.items && b in t.items && a.id != b.id;
  }
}
