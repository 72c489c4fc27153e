/** Recomputing a payment while something else writes its rows (server/api/distribution/recompute.post.ts):
    recompute-all, allocation and deletion run in queues of their own, and write one and the same column. */
module LedgerOverlap {
  import opened Outcome
  import opened Money
  import opened DistributionSp
  import opened ItemStore
  import opened DistributionLedger
  import opened LedgerWrite
  import opened LedgerRuns
  import opened LedgerSafety
  import opened LedgerRecovery
  import opened LedgerRedelivery

  /** A recompute that read its rows in `s` writes the remainder in `t`. */
  function LateWrite(s: Store, t: Store, pay: SpRef, dist: SpRef, paymentId: nat, total: real, currency: string, cap: nat): Store
  {
    Exec(t, NeedRecomputeCall(pay, paymentId, Remaining(s, dist, paymentId, total, currency, cap)))
  }

  lemma LateWriteTouches(s: Store, t: Store, pay: SpRef, dist: SpRef, paymentId: nat, total: real, currency: string, cap: nat,
                         e: nat, name: string)
    requires e != pay.entityTypeId || name != Col(pay, NEED_DISTR)
    ensures Untouched(t, LateWrite(s, t, pay, dist, paymentId, total, currency, cap), e, name)
  {
    hide Remaining, Col, Exec, Untouched;
    UpdateTouchesItsFields(t, pay.entityTypeId, paymentId,
                           map[Col(pay, NEED_DISTR) := Num(Round2(Remaining(s, dist, paymentId, total, currency, cap)))], e, name);
  }

  lemma LateWriteSum(s: Store, t: Store, pay: SpRef, dist: SpRef, id: nat, total: real, currency: string, cap: nat, paymentId: nat, c: string)
    requires pay.entityTypeId != dist.entityTypeId
    ensures ActiveSum(LateWrite(s, t, pay, dist, id, total, currency, cap), dist, paymentId, c) == ActiveSum(t, dist, paymentId, c)
  {
    hide Col, LateWrite, ActiveSum, Untouched;
    var u := LateWrite(s, t, pay, dist, id, total, currency, cap);
    forall f | f in [PARENT_PAYMENT, STATUS, AMOUNT, CURRENCY] ensures Untouched(t, u, dist.entityTypeId, Col(dist, f)) {
      LateWriteTouches(s, t, pay, dist, id, total, currency, cap, dist.entityTypeId, Col(dist, f));
    }
    SumUntouched(t, u, dist, paymentId, c);
  }

  lemma LateWriteTotal(s: Store, t: Store, pay: SpRef, dist: SpRef, id: nat, total: real, currency: string, cap: nat, k: nat)
    requires k < |t.items| && t.items[k].etid == pay.entityTypeId
    ensures var u := LateWrite(s, t, pay, dist, id, total, currency, cap);
            Aligned(t, u) && ParsePaymentTotal(u.items[k], pay) == ParsePaymentTotal(t.items[k], pay)
  {
    hide Col, LateWrite, TOTAL, CURRENCY, MARKER, NEED_DISTR, NEEDS_REDISTR;
    ComputedApart(pay);
    var fields := [TOTAL, CURRENCY, MARKER];
    assert fields[0] in fields && fields[1] in fields;
    LateWriteTouches(s, t, pay, dist, id, total, currency, cap, pay.entityTypeId, Col(pay, TOTAL));
    LateWriteTouches(s, t, pay, dist, id, total, currency, cap, pay.entityTypeId, Col(pay, CURRENCY));
  }

  lemma LateWriteCell(s: Store, t: Store, pay: SpRef, dist: SpRef, id: nat, total: real, currency: string, cap: nat, k: nat)
    requires k < |t.items| && Is(t.items[k], pay.entityTypeId, id)
    ensures var u := LateWrite(s, t, pay, dist, id, total, currency, cap);
            k < |u.items| && Cell(u.items[k], pay, NEED_DISTR) == Some(Num(Due(total, LoadedSum(s, dist, id, currency, cap))))
    ensures |ActiveRows(s, dist, id)| <= cap ==> LoadedSum(s, dist, id, currency, cap) == ActiveSum(s, dist, id, currency)
  {
    hide Col, ActiveRows, ActiveSum, Remaining, Round2, NEED_DISTR, BUILT_IN, Due, LoadedSum;
    RemainingIsDue(s, dist, id, total, currency, cap);
    NotBuiltIn(pay, NEED_DISTR);
    BuiltInNames();
  }

  /** After a late write the payment shows what was due after the rows that were read; that is what is due
      now exactly when those rows and its active rows now come to the same, or both use the total up. Where
      the rows fit, those that were read are all that were active then. */
  lemma LateWriteExactly(s: Store, t: Store, pay: SpRef, dist: SpRef, id: nat, total: real, currency: string, cap: nat, k: nat)
    requires pay.entityTypeId != dist.entityTypeId && k < |t.items| && Is(t.items[k], pay.entityTypeId, id)
    requires ParsePaymentTotal(t.items[k], pay) == Total(Round2(total), currency)
    ensures var u := LateWrite(s, t, pay, dist, id, total, currency, cap);
            var read, now, whole := LoadedSum(s, dist, id, currency, cap), ActiveSum(t, dist, id, currency), Max0(Round2(total));
            && Aligned(t, u) && Cell(u.items[k], pay, NEED_DISTR) == Some(Num(Due(total, read)))
            && DueOn(u, u.items[k], pay, dist) == Due(total, now)
            && (ShowsDue(u, pay, dist, k) <==> read == now || (read >= whole && now >= whole))
            && (|ActiveRows(s, dist, id)| <= cap ==> read == ActiveSum(s, dist, id, currency))
  {
    hide Cell, LateWrite, ActiveRows, ActiveSum, LoadedSum, Due, Round2, ParsePaymentTotal;
    LateWriteCell(s, t, pay, dist, id, total, currency, cap, k);
    LateWriteTotal(s, t, pay, dist, id, total, currency, cap, k);
    LateWriteSum(s, t, pay, dist, id, total, currency, cap, id, currency);
    SameTotal(total, ActiveSum(t, dist, id, currency));
    DueSame(total, LoadedSum(s, dist, id, currency, cap), total, ActiveSum(t, dist, id, currency));
  }

  lemma SameTotal(total: real, sum: real)
    ensures Due(Round2(total), sum) == Due(total, sum)
  {
    hide Round2;
    Rounded(total);
  }

  // ---- A target freed in between

  /** The store of an allocation whose element and row are written and whose remainder is not yet. */
  function BeforeRemainder(pay: SpRef, dist: SpRef): Store
  {
    FactWritten(Store([], map[]), pay, dist, OpOf(0), 1.0, "deal", "7", None, None).store
  }

  lemma BeforeShape(pay: SpRef, dist: SpRef)
    requires pay.entityTypeId != dist.entityTypeId
    ensures Shape(BeforeRemainder(pay, dist), pay, dist, 0)
  {
    hide PaymentEnsured, FactWritten, Cell, RowFields, PaymentElementAddCall, Col, MARKER, TOTAL, CURRENCY, NEED_DISTR,
         NEEDS_REDISTR, DedupKey, Round2, IsActiveRowOf, IsActiveOnTarget, ActiveAmount, ParsePaymentTotal;
    FirstPayment(pay, dist);
    LedgerRecovery.FirstRow(pay, dist);
    FirstCells(pay, dist);
    FirstRowCells(dist, FactInput(OpOf(0), 1, 1.0, "deal", "7", None));
  }

  lemma BeforeValid(pay: SpRef, dist: SpRef)
    requires pay.entityTypeId != dist.entityTypeId
    ensures Valid(BeforeRemainder(pay, dist))
  {
    hide PaymentElementAddCall, FindByMarker, DistributionRowAddCall;
    var input := CarrierInput(OpOf(0), None, None);
    AddIsForPayments(pay, input);
    var w := PaymentEnsured(Store([], map[]), pay, input);
    EmptyValid();
    AddKeepsValid(Store([], map[]), pay.entityTypeId, PaymentElementAddCall(pay, input).fields);
    var row := FactInput(OpOf(0), w.id, 1.0, "deal", "7", None);
    AddIsForRows(dist, row);
    AddKeepsValid(w.store, dist.entityTypeId, DistributionRowAddCall(dist, row).fields);
  }

  lemma EmptyValid()
    ensures Valid(Store([], map[]))
  {
  }

  /** A rouble is allocated to a deal; after its rows are read and before the remainder is written the deal
      is deleted and its row freed: the payment then shows nothing left while the rouble is due. */
  lemma FreedInBetween(pay: SpRef, dist: SpRef, cap: nat)
    requires pay.entityTypeId != dist.entityTypeId && cap > 0
    ensures var s := BeforeRemainder(pay, dist);
            var t := TargetFreed(s, pay, dist, "deal", "7", cap);
            var u := LateWrite(s, t, pay, dist, 1, 1.0, "", cap);
            && |s.items| == |t.items| == |u.items| == 2 && Is(u.items[0], pay.entityTypeId, 1)
            && Cell(u.items[0], pay, NEED_DISTR) == Some(Num(0.0)) && DueOn(u, u.items[0], pay, dist) == 1.0
  {
    hide BeforeRemainder, LateWrite, TargetFreed, Cell, Valid, ActiveRows, TargetRows, ActiveSum, TargetSum, Due, DueOn, Round2,
         IsActiveRowOf, IsActiveOnTarget, ActiveAmount, DedupKey, ParsePaymentTotal, Untouched;
    var s := BeforeRemainder(pay, dist);
    var t := TargetFreed(s, pay, dist, "deal", "7", cap);
    BeforeShape(pay, dist);
    BeforeValid(pay, dist);
    ShapeFits(s, pay, dist, 0, cap);
    TargetRowsFit(s, pay, dist, 0, cap);
    assert |ActiveRows(s, dist, 1)| <= cap;
    SumsOfFirst(s, pay, dist, 0);
    FreeingLowers(s, pay, dist, "deal", "7", cap, 1, "");
    FreeingAligned(s, pay, dist, "deal", "7", cap);
    TotalFreed(s, pay, dist, cap);
    OneRouble();
    LateWriteExactly(s, t, pay, dist, 1, 1.0, "", cap, 0);
    DueOneOrNone();
  }

  lemma TotalFreed(s: Store, pay: SpRef, dist: SpRef, cap: nat)
    requires |s.items| > 0 && s.items[0].etid == pay.entityTypeId != dist.entityTypeId
    ensures var t := TargetFreed(s, pay, dist, "deal", "7", cap);
            |t.items| > 0 && ParsePaymentTotal(t.items[0], pay) == ParsePaymentTotal(s.items[0], pay)
  {
    hide Col, TargetFreed, TOTAL, CURRENCY, MARKER, NEED_DISTR, NEEDS_REDISTR;
    ComputedApart(pay);
    var fields := [TOTAL, CURRENCY, MARKER];
    assert fields[0] in fields && fields[1] in fields;
    FreeingTouches(s, pay, dist, "deal", "7", cap, pay.entityTypeId, Col(pay, TOTAL));
    FreeingTouches(s, pay, dist, "deal", "7", cap, pay.entityTypeId, Col(pay, CURRENCY));
  }
}
