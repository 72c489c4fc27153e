/** The ledger's wire shapes: what is sent to create and change payment elements and distribution rows,
    how they are found, and how they are read back (app/utils/distributionLedger.ts), with the summary
    of a payment's distribution state (app/utils/manualAllocation.ts). */
module DistributionLedger {
  import opened Outcome
  import opened Text
  import opened Money
  import opened DistributionSp
  import opened ItemStore

  // ---- Columns

  function Col(sp: SpRef, f: Field): string
  {
    CamelName(sp.id, f.postfix)
  }

  function Cell(item: Item, sp: SpRef, f: Field): Option<Val>
  {
    Value(item, Col(sp, f))
  }

  /** The payload that gives each field its value; of two with one name the later wins. */
  function Cells(sp: SpRef, fields: seq<Field>, vals: seq<Val>): map<string, Val>
    requires |fields| == |vals|
  {
    if fields == [] then map[]
    else
      var n := |fields| - 1;
      Cells(sp, fields[..n], vals[..n])[Col(sp, fields[n]) := vals[n]]
  }

  /** Different fields, different columns; and no column is one of the built-in names. */
  ghost predicate ColumnsApart(sp: SpRef, fields: seq<Field>)
  {
    && (forall i, j :: 0 <= i < j < |fields| ==> Col(sp, fields[i]) != Col(sp, fields[j]))
    && (forall i :: 0 <= i < |fields| ==> Col(sp, fields[i]) !in BUILT_IN)
  }

  const BUILT_IN := ["id", "title", "xmlId", "companyId", "assignedById"]

  lemma NotBuiltIn(sp: SpRef, f: Field)
    ensures Col(sp, f) !in BUILT_IN
  {
    hide Decimal, Pascal, SplitOn;
    var name := Col(sp, f);
    assert |name| > 5 && name[0] == 'u';
    forall k | 0 <= k < |BUILT_IN| ensures BUILT_IN[k] != name {
      assert BUILT_IN[k][0] != 'u';
    }
  }

  lemma ColumnsOf(sp: SpRef, fields: seq<Field>)
    requires Apart(fields) && forall f :: f in fields ==> Postfix(f.postfix)
    ensures ColumnsApart(sp, fields)
  {
    hide Normal, Postfix, BUILT_IN;
    forall i, j | 0 <= i < j < |fields| ensures Col(sp, fields[i]) != Col(sp, fields[j]) {
      hide CamelName;
      CamelNamesApart(sp.id, fields[i].postfix, sp.id, fields[j].postfix);
    }
    forall i | 0 <= i < |fields| ensures Col(sp, fields[i]) !in BUILT_IN {
      NotBuiltIn(sp, fields[i]);
    }
  }

  lemma RowColumns(sp: SpRef)
    ensures ColumnsApart(sp, DISTRIBUTION_FIELDS)
  {
    hide Apart, ColumnsApart, Postfix, DISTRIBUTION_FIELDS;
    RowFieldsApart();
    ColumnsOf(sp, DISTRIBUTION_FIELDS);
  }

  lemma PaymentColumns(sp: SpRef)
    ensures ColumnsApart(sp, PAYMENT_FIELDS)
  {
    hide Apart, ColumnsApart, Postfix, PAYMENT_FIELDS;
    PaymentFieldsApart();
    ColumnsOf(sp, PAYMENT_FIELDS);
  }

  lemma {:induction false} CellsAt(sp: SpRef, fields: seq<Field>, vals: seq<Val>)
    requires |fields| == |vals| && ColumnsApart(sp, fields)
    ensures forall k :: 0 <= k < |fields| ==> Col(sp, fields[k]) in Cells(sp, fields, vals)
    ensures forall k :: 0 <= k < |fields| ==> Cells(sp, fields, vals)[Col(sp, fields[k])] == vals[k]
    ensures forall name :: name in Cells(sp, fields, vals) ==> exists k :: 0 <= k < |fields| && name == Col(sp, fields[k])
  {
    hide Col, BUILT_IN;
    if fields != [] {
      CellsAt(sp, fields[..|fields| - 1], vals[..|fields| - 1]);
    }
  }

  // ---- Distribution rows

  datatype Source = Auto | Manual

  function SourceText(source: Source): string
  {
    if source.Manual? then "manual" else "auto"
  }

  datatype RowInput = RowInput(paymentId: nat, amount: real, currency: string, targetKind: string, targetId: string,
                               source: Source, marker: string, assignedById: Option<nat>)

  /** The responsible, when the caller names one; otherwise the portal's default stands. */
  function ResponsibleField(assignedById: Option<nat>): map<string, Val>
  {
    if assignedById.Some? && assignedById.value > 0 then map["assignedById" := Num(assignedById.value as real)] else map[]
  }

  function RowFields(dist: SpRef, input: RowInput): map<string, Val>
  {
    Cells(dist, DISTRIBUTION_FIELDS,
          [Num(input.paymentId as real), Num(Round2(input.amount)), Str(input.currency), Str(input.targetKind),
           Str(input.targetId), Str(SourceText(input.source)), Str("active"), Str(input.marker)])
    + ResponsibleField(input.assignedById)
  }

  function DistributionRowAddCall(dist: SpRef, input: RowInput): Call
  {
    Add(dist.entityTypeId, RowFields(dist, input))
  }

  function MarkerListCall(sp: SpRef, marker: string): Query
  {
    List(sp.entityTypeId, map[Col(sp, MARKER) := Str(marker)])
  }

  function ActiveRowsListCall(dist: SpRef, paymentId: nat): Query
  {
    List(dist.entityTypeId, map[Col(dist, PARENT_PAYMENT) := Num(paymentId as real), Col(dist, STATUS) := Str("active")])
  }

  function TargetRowsListCall(dist: SpRef, targetKind: string, targetId: string): Query
  {
    List(dist.entityTypeId, map[Col(dist, TARGET_KIND) := Str(targetKind), Col(dist, TARGET_ID) := Str(targetId),
                                Col(dist, STATUS) := Str("active")])
  }

  function DeactivateRowCall(dist: SpRef, rowId: nat): Call
  {
    Update(dist.entityTypeId, rowId, map[Col(dist, STATUS) := Str("reverted")])
  }

  datatype Entry = Entry(targetKind: string, targetId: string, amount: real, currency: string, source: Source, active: bool)

  /** A text column, absent reading as blank; a money column, anything but a number reading as zero. */
  function TextOf(cell: Option<Val>): string
  {
    if cell.Some? && cell.value.Str? then cell.value.text else ""
  }

  function MoneyOf(cell: Option<Val>): real
  {
    if cell.Some? && cell.value.Num? then Round2(cell.value.number) else 0.0
  }

  function ParseLedgerRow(item: Item, dist: SpRef): Entry
  {
    Entry(TextOf(Cell(item, dist, TARGET_KIND)), TextOf(Cell(item, dist, TARGET_ID)), MoneyOf(Cell(item, dist, AMOUNT)),
          TextOf(Cell(item, dist, CURRENCY)), if TextOf(Cell(item, dist, SOURCE)) == "manual" then Manual else Auto,
          TextOf(Cell(item, dist, STATUS)) != "reverted")
  }

  datatype TargetRowRef = TargetRowRef(rowId: nat, parent: real, source: Source)

  /** A row of a deleted target; one without a parent is passed over. */
  function ParseTargetRow(item: Item, dist: SpRef): Option<TargetRowRef>
  {
    var parent := Cell(item, dist, PARENT_PAYMENT);
    if parent.None? || !parent.value.Num? then None
    else Some(TargetRowRef(item.id, parent.value.number,
                           if TextOf(Cell(item, dist, SOURCE)) == "manual" then Manual else Auto))
  }

  // ---- Payment elements

  const REGISTRY_FIELDS := [OP_DATE, DIRECTION, COUNTERPARTY, CP_ACCOUNT, CP_UNP, PURPOSE, OWN_ACCOUNT, BANK]

  /** What the statement said about an operation; an absent fact is the blank text. */
  datatype Registry = Registry(operationDate: string, direction: string, counterparty: string, counterpartyAccount: string,
                               counterpartyUnp: string, purpose: string, ownAccount: string, bank: string)

  function Facts(r: Registry): (facts: seq<string>)
    ensures |facts| == |REGISTRY_FIELDS|
  {
    [r.operationDate, r.direction, r.counterparty, r.counterpartyAccount, r.counterpartyUnp, r.purpose, r.ownAccount, r.bank]
  }

  datatype PaymentInput = PaymentInput(amount: real, currency: string, marker: string, companyId: Option<nat>,
                                       registry: Registry, title: string, assignedById: Option<nat>)

  /** The first `n` registry columns, blank facts left out. */
  function RegistryCells(pay: SpRef, facts: seq<string>, n: nat): map<string, Val>
    requires n <= |facts| == |REGISTRY_FIELDS|
  {
    if n == 0 then map[]
    else
      var rest, value := RegistryCells(pay, facts, n - 1), Trim(facts[n - 1]);
      if value == "" then rest else rest[Col(pay, REGISTRY_FIELDS[n - 1]) := Str(value)]
  }

  function RegistryFieldPayload(pay: SpRef, registry: Registry): map<string, Val>
  {
    RegistryCells(pay, Facts(registry), |REGISTRY_FIELDS|)
  }

  method BuildRegistryFieldPayload(pay: SpRef, registry: Registry) returns (out: map<string, Val>)
    ensures out == RegistryFieldPayload(pay, registry)
  {
    hide Trim, REGISTRY_FIELDS, Facts, Col;
    out := map[];
    var facts := Facts(registry);
    for i := 0 to |REGISTRY_FIELDS|
      invariant out == RegistryCells(pay, facts, i)
    {
      var value := Trim(facts[i]);
      if value != "" {
        out := out[Col(pay, REGISTRY_FIELDS[i]) := Str(value)];
      }
    }
  }

  const CORE_FIELDS := [TOTAL, CURRENCY, NEED_DISTR, MARKER]

  function CoreCells(pay: SpRef, input: PaymentInput): map<string, Val>
  {
    Cells(pay, CORE_FIELDS, [Num(Round2(input.amount)), Str(input.currency), Num(Round2(input.amount)), Str(input.marker)])
  }

  function OuterCells(input: PaymentInput): map<string, Val>
  {
    (if Trim(input.title) != "" then map["title" := Str(Trim(input.title))] else map[])
    + (if input.marker != "" then map["xmlId" := Str(input.marker)] else map[])
    + (if input.companyId.Some? && input.companyId.value > 0 then map["companyId" := Num(input.companyId.value as real)]
       else map[])
    + ResponsibleField(input.assignedById)
  }

  function PaymentElementAddCall(pay: SpRef, input: PaymentInput): Call
  {
    Add(pay.entityTypeId, CoreCells(pay, input) + RegistryFieldPayload(pay, input.registry) + OuterCells(input))
  }

  function NeedRecomputeCall(pay: SpRef, paymentId: nat, remaining: real): Call
  {
    Update(pay.entityTypeId, paymentId, map[Col(pay, NEED_DISTR) := Num(Round2(remaining))])
  }

  function RequiresRedistributionCall(pay: SpRef, paymentId: nat, value: bool): Call
  {
    Update(pay.entityTypeId, paymentId, map[Col(pay, NEEDS_REDISTR) := Str(if value then "Y" else "N")])
  }

  /** Nothing to send when no fact is known, or for an id no element has. */
  function RegistryFillCall(pay: SpRef, elementId: nat, registry: Registry): Option<Call>
  {
    var fields := RegistryFieldPayload(pay, registry);
    if fields == map[] || elementId == 0 then None else Some(Update(pay.entityTypeId, elementId, fields))
  }

  function PaymentReadCall(pay: SpRef, paymentId: real): Query
  {
    List(pay.entityTypeId, map["id" := Num(paymentId)])
  }

  datatype Total = Total(total: real, currency: string)

  function ParsePaymentTotal(item: Item, pay: SpRef): Total
  {
    Total(MoneyOf(Cell(item, pay, TOTAL)), TextOf(Cell(item, pay, CURRENCY)))
  }

  /** A payment element as the portal-wide list shows it. */
  datatype Carrier = Carrier(id: nat, total: real, currency: string, requiresRedistribution: bool)

  function ParsePaymentCarrier(item: Item, pay: SpRef): Carrier
  {
    Carrier(item.id, MoneyOf(Cell(item, pay, TOTAL)), TextOf(Cell(item, pay, CURRENCY)), TextOf(Cell(item, pay, NEEDS_REDISTR)) == "Y")
  }

  // ---- Writing and reading back

  lemma RowFieldsListed()
    ensures DISTRIBUTION_FIELDS[0] == PARENT_PAYMENT && DISTRIBUTION_FIELDS[1] == AMOUNT && DISTRIBUTION_FIELDS[2] == CURRENCY
    ensures DISTRIBUTION_FIELDS[3] == TARGET_KIND && DISTRIBUTION_FIELDS[4] == TARGET_ID && DISTRIBUTION_FIELDS[5] == SOURCE
    ensures DISTRIBUTION_FIELDS[6] == STATUS && DISTRIBUTION_FIELDS[7] == MARKER && |DISTRIBUTION_FIELDS| == 8
  {
  }

  /** The eight cells of a written row. */
  lemma RowCells(dist: SpRef, input: RowInput, etid: nat, id: nat)
    ensures var item := Item(etid, id, RowFields(dist, input));
            && Cell(item, dist, PARENT_PAYMENT) == Some(Num(input.paymentId as real))
            && Cell(item, dist, AMOUNT) == Some(Num(Round2(input.amount)))
            && Cell(item, dist, CURRENCY) == Some(Str(input.currency))
            && Cell(item, dist, TARGET_KIND) == Some(Str(input.targetKind))
            && Cell(item, dist, TARGET_ID) == Some(Str(input.targetId))
            && Cell(item, dist, SOURCE) == Some(Str(SourceText(input.source)))
            && Cell(item, dist, STATUS) == Some(Str("active"))
            && Cell(item, dist, MARKER) == Some(Str(input.marker))
  {
    hide Col, Cells, DISTRIBUTION_FIELDS, PARENT_PAYMENT, AMOUNT, CURRENCY, TARGET_KIND, TARGET_ID, SOURCE, STATUS, MARKER;
    RowColumns(dist);
    RowFieldsListed();
    BuiltInNames();
    var vals := [Num(input.paymentId as real), Num(Round2(input.amount)), Str(input.currency), Str(input.targetKind),
                 Str(input.targetId), Str(SourceText(input.source)), Str("active"), Str(input.marker)];
    CellsAt(dist, DISTRIBUTION_FIELDS, vals);
    forall k | 0 <= k < 8
      ensures Value(Item(etid, id, RowFields(dist, input)), Col(dist, DISTRIBUTION_FIELDS[k])) == Some(vals[k])
    {
    }
  }

  lemma BuiltInNames()
    ensures "id" in BUILT_IN && "title" in BUILT_IN && "xmlId" in BUILT_IN && "companyId" in BUILT_IN && "assignedById" in BUILT_IN
  {
    assert BUILT_IN[0] == "id" && BUILT_IN[1] == "title" && BUILT_IN[2] == "xmlId" && BUILT_IN[3] == "companyId";
    assert BUILT_IN[4] == "assignedById";
  }

  lemma Rounded(n: real)
    ensures Round2(Round2(n)) == Round2(n)
  {
    CentsOfWhole(Cents(n));
  }

  /** A row just written reads back as it was meant, rounded to cents and active. */
  lemma RowReadsBack(dist: SpRef, input: RowInput, etid: nat, id: nat)
    ensures ParseLedgerRow(Item(etid, id, RowFields(dist, input)), dist)
         == Entry(input.targetKind, input.targetId, Round2(input.amount), input.currency, input.source, true)
    ensures ParseTargetRow(Item(etid, id, RowFields(dist, input)), dist)
         == Some(TargetRowRef(id, input.paymentId as real, input.source))
  {
    hide Cell, RowFields, Round2;
    RowCells(dist, input, etid, id);
    Rounded(input.amount);
    assert "manual" != "auto" && "active" != "reverted";
  }

  lemma PaymentFieldsListed()
    ensures |PAYMENT_FIELDS| == 13 && |REGISTRY_FIELDS| == 8
    ensures PAYMENT_FIELDS[0] == TOTAL && PAYMENT_FIELDS[1] == CURRENCY && PAYMENT_FIELDS[2] == NEED_DISTR
    ensures PAYMENT_FIELDS[3] == NEEDS_REDISTR && PAYMENT_FIELDS[4] == MARKER
    ensures forall k :: 0 <= k < 8 ==> REGISTRY_FIELDS[k] == PAYMENT_FIELDS[5 + k]
  {
    hide TOTAL, CURRENCY, NEED_DISTR, NEEDS_REDISTR, MARKER, OP_DATE, DIRECTION, COUNTERPARTY, CP_ACCOUNT, CP_UNP, PURPOSE,
         OWN_ACCOUNT, BANK;
    assert PAYMENT_FIELDS[5..] == REGISTRY_FIELDS;
  }

  lemma {:induction false} RegistryCellsAt(pay: SpRef, facts: seq<string>, n: nat)
    requires n <= |facts| == |REGISTRY_FIELDS|
    ensures forall name :: name in RegistryCells(pay, facts, n) ==> exists k :: 0 <= k < n && name == Col(pay, REGISTRY_FIELDS[k])
    ensures forall k :: 0 <= k < n && Trim(facts[k]) != "" ==> Col(pay, REGISTRY_FIELDS[k]) in RegistryCells(pay, facts, n)
    ensures forall k :: 0 <= k < n && Trim(facts[k]) != "" ==>
              RegistryCells(pay, facts, n)[Col(pay, REGISTRY_FIELDS[k])] == Str(Trim(facts[k]))
    ensures forall k :: 0 <= k < n && Trim(facts[k]) == "" ==> Col(pay, REGISTRY_FIELDS[k]) !in RegistryCells(pay, facts, n)
  {
    hide Col, Trim, REGISTRY_FIELDS;
    if n > 0 {
      RegistryCellsAt(pay, facts, n - 1);
      RegistryApart(pay, n - 1);
    }
  }

  lemma RegistryApart(pay: SpRef, n: nat)
    requires n < |REGISTRY_FIELDS|
    ensures forall k :: 0 <= k < n ==> Col(pay, REGISTRY_FIELDS[k]) != Col(pay, REGISTRY_FIELDS[n])
  {
    hide Col, REGISTRY_FIELDS, PAYMENT_FIELDS, BUILT_IN;
    PaymentColumns(pay);
    PaymentFieldsListed();
    forall k | 0 <= k < n ensures Col(pay, REGISTRY_FIELDS[k]) != Col(pay, REGISTRY_FIELDS[n]) {
      assert REGISTRY_FIELDS[k] == PAYMENT_FIELDS[5 + k] && REGISTRY_FIELDS[n] == PAYMENT_FIELDS[5 + n];
    }
  }

  /** No registry fact lands in a column of ours that holds money or state. */
  lemma RegistryTouchesOnlyItsColumns(pay: SpRef, registry: Registry, name: string)
    requires name in RegistryFieldPayload(pay, registry)
    ensures name !in BUILT_IN
    ensures forall f :: f in [TOTAL, CURRENCY, NEED_DISTR, NEEDS_REDISTR, MARKER] ==> Col(pay, f) != name
  {
    hide Col, Trim, REGISTRY_FIELDS, PAYMENT_FIELDS, BUILT_IN, RegistryCells, Facts, TOTAL, CURRENCY, NEED_DISTR, NEEDS_REDISTR,
         MARKER;
    RegistryCellsAt(pay, Facts(registry), |REGISTRY_FIELDS|);
    PaymentColumns(pay);
    PaymentFieldsListed();
    var k :| 0 <= k < |REGISTRY_FIELDS| && name == Col(pay, REGISTRY_FIELDS[k]);
    NotBuiltIn(pay, REGISTRY_FIELDS[k]);
    forall f | f in [TOTAL, CURRENCY, NEED_DISTR, NEEDS_REDISTR, MARKER] ensures Col(pay, f) != name {
      var own := [TOTAL, CURRENCY, NEED_DISTR, NEEDS_REDISTR, MARKER];
      var j :| 0 <= j < |own| && own[j] == f;
      assert own[j] == PAYMENT_FIELDS[j];
    }
  }

  lemma CoreListed(pay: SpRef)
    ensures ColumnsApart(pay, CORE_FIELDS) && |CORE_FIELDS| == 4
    ensures CORE_FIELDS[0] == TOTAL && CORE_FIELDS[1] == CURRENCY && CORE_FIELDS[2] == NEED_DISTR && CORE_FIELDS[3] == MARKER
  {
    hide Col, PAYMENT_FIELDS, BUILT_IN, TOTAL, CURRENCY, NEED_DISTR, NEEDS_REDISTR, MARKER;
    PaymentColumns(pay);
    PaymentFieldsListed();
    forall i | 0 <= i < 4 ensures CORE_FIELDS[i] == PAYMENT_FIELDS[if i < 3 then i else 4] {
    }
  }

  /** What a new payment element holds: the whole amount, its currency, all of it still to distribute,
      and the operation's marker, whatever the registry and the outer fields bring. */
  lemma PaymentCells(pay: SpRef, input: PaymentInput, etid: nat, id: nat)
    ensures var item := Item(etid, id, PaymentElementAddCall(pay, input).fields);
            && Cell(item, pay, TOTAL) == Some(Num(Round2(input.amount)))
            && Cell(item, pay, CURRENCY) == Some(Str(input.currency))
            && Cell(item, pay, NEED_DISTR) == Some(Num(Round2(input.amount)))
            && Cell(item, pay, MARKER) == Some(Str(input.marker))
  {
    hide Col, Cells, CORE_FIELDS, TOTAL, CURRENCY, NEED_DISTR, MARKER, RegistryFieldPayload, BUILT_IN;
    CoreListed(pay);
    BuiltInNames();
    var vals := [Num(Round2(input.amount)), Str(input.currency), Num(Round2(input.amount)), Str(input.marker)];
    CellsAt(pay, CORE_FIELDS, vals);
    var item := Item(etid, id, PaymentElementAddCall(pay, input).fields);
    forall k | 0 <= k < 4
      ensures Value(item, Col(pay, CORE_FIELDS[k])) == Some(vals[k])
    {
      NotBuiltIn(pay, CORE_FIELDS[k]);
      CoreNotElsewhere(pay, input, Col(pay, CORE_FIELDS[k]), CORE_FIELDS[k]);
    }
  }

  lemma CoreNotElsewhere(pay: SpRef, input: PaymentInput, name: string, f: Field)
    requires f in [TOTAL, CURRENCY, NEED_DISTR, MARKER] && name == Col(pay, f)
    ensures name !in RegistryFieldPayload(pay, input.registry) && name !in OuterCells(input) && name != "id"
  {
    hide Col, Trim, RegistryFieldPayload, BUILT_IN, TOTAL, CURRENCY, NEED_DISTR, NEEDS_REDISTR, MARKER;
    NotBuiltIn(pay, f);
    BuiltInNames();
    assert f in [TOTAL, CURRENCY, NEED_DISTR, NEEDS_REDISTR, MARKER];
    if name in RegistryFieldPayload(pay, input.registry) {
      RegistryTouchesOnlyItsColumns(pay, input.registry, name);
    }
  }

  // ---- What the filters find

  predicate IsActiveRowOf(item: Item, dist: SpRef, paymentId: nat)
  {
    && item.etid == dist.entityTypeId
    && Cell(item, dist, PARENT_PAYMENT) == Some(Num(paymentId as real))
    && Cell(item, dist, STATUS) == Some(Str("active"))
  }

  predicate IsActiveOnTarget(item: Item, dist: SpRef, targetKind: string, targetId: string)
  {
    && item.etid == dist.entityTypeId
    && Cell(item, dist, TARGET_KIND) == Some(Str(targetKind))
    && Cell(item, dist, TARGET_ID) == Some(Str(targetId))
    && Cell(item, dist, STATUS) == Some(Str("active"))
  }

  predicate HasMarker(item: Item, sp: SpRef, marker: string)
  {
    item.etid == sp.entityTypeId && Cell(item, sp, MARKER) == Some(Str(marker))
  }

  lemma FiltersMean(item: Item, dist: SpRef, paymentId: nat, targetKind: string, targetId: string)
    ensures Matches(item, ActiveRowsListCall(dist, paymentId)) <==> IsActiveRowOf(item, dist, paymentId)
    ensures Matches(item, TargetRowsListCall(dist, targetKind, targetId)) <==> IsActiveOnTarget(item, dist, targetKind, targetId)
  {
    hide Col, Value, DISTRIBUTION_FIELDS, PARENT_PAYMENT, STATUS, TARGET_KIND, TARGET_ID, BUILT_IN;
    RowColumns(dist);
    RowFieldsListed();
    var a, b, c, d := Col(dist, PARENT_PAYMENT), Col(dist, STATUS), Col(dist, TARGET_KIND), Col(dist, TARGET_ID);
    assert a != b && b != c && b != d && c != d by {
      assert Col(dist, DISTRIBUTION_FIELDS[0]) == a && Col(dist, DISTRIBUTION_FIELDS[6]) == b;
      assert Col(dist, DISTRIBUTION_FIELDS[3]) == c && Col(dist, DISTRIBUTION_FIELDS[4]) == d;
    }
    var active, target := ActiveRowsListCall(dist, paymentId), TargetRowsListCall(dist, targetKind, targetId);
    assert active.filter.Keys == {a, b} && target.filter.Keys == {b, c, d};
    assert active.filter[a] == Num(paymentId as real) && active.filter[b] == Str("active");
    assert target.filter[c] == Str(targetKind) && target.filter[d] == Str(targetId) && target.filter[b] == Str("active");
  }

  lemma MarkerFilterMeans(item: Item, sp: SpRef, marker: string)
    ensures Matches(item, MarkerListCall(sp, marker)) <==> HasMarker(item, sp, marker)
  {
    hide Col, Value, MARKER;
    var q := MarkerListCall(sp, marker);
    assert q.filter.Keys == {Col(sp, MARKER)} && q.filter[Col(sp, MARKER)] == Str(marker);
  }

  lemma ReadFilterMeans(item: Item, pay: SpRef, paymentId: real)
    ensures Matches(item, PaymentReadCall(pay, paymentId)) <==> item.etid == pay.entityTypeId && item.id as real == paymentId
  {
    var q := PaymentReadCall(pay, paymentId);
    assert q.filter.Keys == {"id"} && q.filter["id"] == Num(paymentId);
  }

  // ---- The summary

  /** Half a kopeck. */
  const TOLERANCE := 0.005

  datatype Summary = Summary(total: real, distributed: real, remaining: real, overLimit: bool)

  function Counted(e: Entry, currency: string): real
  {
    if e.active && e.currency == currency then Round2(e.amount) else 0.0
  }

  function Distributed(entries: seq<Entry>, currency: string): real
  {
    if entries == [] then 0.0 else Counted(entries[0], currency) + Distributed(entries[1..], currency)
  }

  function DistributionSummary(total: real, currency: string, entries: seq<Entry>): Summary
  {
    var totalR := Max0(Round2(total));
    var distributed := Round2(Distributed(entries, currency));
    Summary(totalR, distributed, Round2(Max0(totalR - distributed)), distributed - totalR > TOLERANCE)
  }

  lemma {:induction false} DistributedWhole(entries: seq<Entry>, currency: string)
    ensures WholeCents(Distributed(entries, currency))
  {
    hide WholeCents, Round2;
    Round2Whole(0.0);
    if entries != [] {
      DistributedWhole(entries[1..], currency);
      Round2Whole(entries[0].amount);
      WholeCentsClosed(Counted(entries[0], currency), Distributed(entries[1..], currency));
    }
  }

  /** Every sum is of whole cents, so the roundings after the first lose nothing: what remains is the
      total less the active rows of its currency, never below zero, and the tolerance never matters. */
  lemma SummaryExact(total: real, currency: string, entries: seq<Entry>)
    ensures var s := DistributionSummary(total, currency, entries);
            var distributed := Distributed(entries, currency);
            && s.distributed == distributed
            && s.remaining == Max0(Max0(Round2(total)) - distributed)
            && (s.overLimit <==> distributed > s.total)
            && (!s.overLimit ==> s.distributed + s.remaining == s.total)
  {
    hide WholeCents, Round2, Distributed;
    Round2Whole(total);
    DistributedWhole(entries, currency);
    var t, d := Max0(Round2(total)), Distributed(entries, currency);
    WholeCentsClosed(Round2(total), 0.0);
    WholeCentsClosed(t, d);
    WholeCentsClosed(d, t);
    WholeCentsClosed(t - d, 0.0);
    WholeCentsRound(d);
    WholeCentsRound(Max0(t - d));
  }
}
