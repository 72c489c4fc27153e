/** The portal under all of its writers at once, call by call. Any number of writers look for an element or
    a row and, not finding it, add it: crm-sync and the registry-write queue beside it
    (server/queue/worker.ts, server/utils/deferredWriteJobs.ts). Between any two calls others write
    remainders, deactivate rows, raise flags, fill registry columns, and portal users delete items. */
module LedgerInterleaving {
  import opened Outcome
  import opened Money
  import opened DistributionSp
  import opened ItemStore
  import opened DistributionLedger
  import opened LedgerWrite
  import opened LedgerRuns
  import opened LedgerSafety
  import opened LedgerRedelivery

  /** What a writer looks for, and adds when it is not there. */
  datatype Wanted = NewPayment(input: PaymentInput) | NewRow(row: RowInput)

  function MarkerOf(x: Wanted): string
  {
    match x
    case NewPayment(input) => input.marker
    case NewRow(row) => row.marker
  }

  function ProcessOf(x: Wanted, pay: SpRef, dist: SpRef): SpRef
  {
    if x.NewPayment? then pay else dist
  }

  function AddCall(x: Wanted, pay: SpRef, dist: SpRef): Call
  {
    match x
    case NewPayment(input) => PaymentElementAddCall(pay, input)
    case NewRow(row) => DistributionRowAddCall(dist, row)
  }

  predicate Present(s: Store, pay: SpRef, dist: SpRef, x: Wanted)
  {
    FindByMarker(s, ProcessOf(x, pay, dist), MarkerOf(x)).Some?
  }

  /** The store, and what each writer has not found and is about to add. */
  datatype Live = Live(store: Store, adding: map<nat, Wanted>)

  /** One call. `Abandoned` is the end of a writer's job, or its death. */
  datatype Move =
    | Sought(writer: nat, wanted: Wanted)
    | Added(writer: nat)
    | Abandoned(writer: nat)
    | RemainderWritten(paymentId: nat, remaining: real)
    | RowDeactivated(rowId: nat)
    | Flagged(paymentId: nat, value: bool)
    | RegistryFilled(elementId: nat, registry: Registry)
    | Deleted(etid: nat, id: nat)

  ghost function Next(l: Live, pay: SpRef, dist: SpRef, m: Move): Live
  {
    match m
    case Sought(w, x) => l.(adding := if Present(l.store, pay, dist, x) then l.adding - {w} else l.adding[w := x])
    case Added(w) => if w in l.adding then Live(Exec(l.store, AddCall(l.adding[w], pay, dist)), l.adding - {w}) else l
    case Abandoned(w) => l.(adding := l.adding - {w})
    case RemainderWritten(paymentId, remaining) => l.(store := Exec(l.store, NeedRecomputeCall(pay, paymentId, remaining)))
    case RowDeactivated(rowId) => l.(store := Exec(l.store, DeactivateRowCall(dist, rowId)))
    case Flagged(paymentId, value) => l.(store := Exec(l.store, RequiresRedistributionCall(pay, paymentId, value)))
    case RegistryFilled(elementId, registry) =>
      l.(store := Exec(l.store, Update(pay.entityTypeId, elementId, RegistryFieldPayload(pay, registry))))
    case Deleted(etid, id) => l.(store := Removed(l.store, etid, id))
  }

  /** A payment has a key and the bank's money; a row belongs to an element there has been. */
  ghost predicate Proper(s: Store, pay: SpRef, b: Books, x: Wanted)
  {
    match x
    case NewPayment(input) =>
      input.marker != "" && input.amount == b.amountOf(input.marker) && input.currency == b.currencyOf(input.marker)
    case NewRow(row) => row.paymentId <= LastId(s, pay.entityTypeId)
  }

  ghost predicate Possible(l: Live, pay: SpRef, b: Books, m: Move)
  {
    m.Sought? ==> Proper(l.store, pay, b, m.wanted)
  }

  ghost predicate AllProper(l: Live, pay: SpRef, b: Books)
  {
    forall w :: w in l.adding ==> Proper(l.store, pay, b, l.adding[w])
  }

  /** The writer is overtaken: it looked and did not find, but what it adds is there by now. */
  ghost predicate Overtaken(l: Live, pay: SpRef, dist: SpRef, w: nat)
  {
    w in l.adding && Present(l.store, pay, dist, l.adding[w])
  }

  ghost predicate Doubles(l: Live, pay: SpRef, dist: SpRef, m: Move)
  {
    m.Added? && Overtaken(l, pay, dist, m.writer)
  }

  // ---- Adding

  lemma AddIsOfProcess(x: Wanted, pay: SpRef, dist: SpRef)
    ensures AddCall(x, pay, dist).Add? && AddCall(x, pay, dist).etid == ProcessOf(x, pay, dist).entityTypeId
  {
    hide PaymentElementAddCall, DistributionRowAddCall;
    match x
    case NewPayment(input) => AddIsForPayments(pay, input);
    case NewRow(row) => AddIsForRows(dist, row);
  }

  /** The item an add leaves behind. */
  function NewItem(s: Store, x: Wanted, pay: SpRef, dist: SpRef): Item
    requires AddCall(x, pay, dist).Add?
  {
    var call := AddCall(x, pay, dist);
    Item(call.etid, LastId(s, call.etid) + 1, call.fields)
  }

  lemma NewItemMarked(s: Store, x: Wanted, pay: SpRef, dist: SpRef)
    requires AddCall(x, pay, dist).Add?
    ensures HasMarker(NewItem(s, x, pay, dist), ProcessOf(x, pay, dist), MarkerOf(x))
  {
    hide Cell, HasMarker, PaymentElementAddCall, DistributionRowAddCall;
    AddIsOfProcess(x, pay, dist);
    var item := NewItem(s, x, pay, dist);
    match x {
      case NewPayment(input) =>
        PaymentCells(pay, input, item.etid, item.id);
      case NewRow(row) =>
        AddIsForRows(dist, row);
        RowCells(dist, row, item.etid, item.id);
    }
    HasItsMarker(item, ProcessOf(x, pay, dist), MarkerOf(x));
  }

  /** Two writers want one and the same thing. */
  predicate SameThing(x: Wanted, y: Wanted)
  {
    x.NewPayment? == y.NewPayment? && MarkerOf(x) == MarkerOf(y) != ""
  }

  /** After an add there is what was there, and what was added. */
  lemma PresentAfterAdd(s: Store, pay: SpRef, dist: SpRef, x: Wanted, y: Wanted)
    requires pay.entityTypeId != dist.entityTypeId
    ensures Present(Exec(s, AddCall(x, pay, dist)), pay, dist, y) <==> Present(s, pay, dist, y) || SameThing(x, y)
  {
    hide Matches, HasMarker, MarkerListCall, AddCall, Exec, Found, MarkerOf;
    AddIsOfProcess(x, pay, dist);
    NewItemMarked(s, x, pay, dist);
    var sp, item := ProcessOf(y, pay, dist), NewItem(s, x, pay, dist);
    AddedFound(s, AddCall(x, pay, dist), MarkerListCall(sp, MarkerOf(y)));
    MarkerFilterMeans(item, sp, MarkerOf(y));
    if x.NewPayment? == y.NewPayment? {
      if HasMarker(item, sp, MarkerOf(y)) {
        OneMarkerEach(item, sp, MarkerOf(y), MarkerOf(x));
      }
    } else {
      OtherProcess(item, ProcessOf(x, pay, dist), sp, MarkerOf(y));
    }
  }

  lemma SecondOfMarker(s: Store, pay: SpRef, dist: SpRef, x: Wanted)
    requires Valid(s) && Present(s, pay, dist, x)
    ensures !OnePerMarker(Exec(s, AddCall(x, pay, dist)), ProcessOf(x, pay, dist))
  {
    hide HasMarker, FindByMarker, AddCall, MarkerOf;
    AddIsOfProcess(x, pay, dist);
    NewItemMarked(s, x, pay, dist);
    var sp, item, t := ProcessOf(x, pay, dist), NewItem(s, x, pay, dist), Exec(s, AddCall(x, pay, dist));
    FoundHas(s, sp, MarkerOf(x));
    FoundMarked(s, sp, MarkerOf(x));
    var a :| a in s.items && HasMarker(a, sp, MarkerOf(x));
    MarkerProcess(a, sp, MarkerOf(x));
    assert t.items == s.items + [item];
    assert a in t.items && item in t.items;
    assert a.id <= LastId(s, sp.entityTypeId) < item.id;
  }

  lemma FoundMarked(s: Store, sp: SpRef, marker: string)
    requires FindByMarker(s, sp, marker).Some?
    ensures marker != ""
  {
  }

  /** An add keeps the core exactly when what it adds is not there. */
  lemma AddExactly(s: Store, pay: SpRef, dist: SpRef, b: Books, x: Wanted)
    requires Core(s, pay, dist, b) && pay.entityTypeId != dist.entityTypeId && Proper(s, pay, b, x)
    ensures Core(Exec(s, AddCall(x, pay, dist)), pay, dist, b) <==> !Present(s, pay, dist, x)
    ensures Present(s, pay, dist, x) ==> !OnePerMarker(Exec(s, AddCall(x, pay, dist)), ProcessOf(x, pay, dist))
  {
    if Present(s, pay, dist, x) {
      hide Present, OnePerMarker, AddCall, TotalsKept, ParentsKnown, Valid, Exec;
      SecondOfMarker(s, pay, dist, x);
    } else {
      hide Core, FindByMarker, Exec, PaymentElementAddCall, DistributionRowAddCall;
      match x
      case NewPayment(input) => NewPaymentKeepsCore(s, pay, dist, input, b);
      case NewRow(row) => NewRowKeepsCore(s, pay, dist, row, b);
    }
  }

  // ---- Calls that change no marker

  /** An update that leaves totals, currencies, markers and parents alone and activates no row. */
  lemma HarmlessUpdate(s: Store, pay: SpRef, dist: SpRef, b: Books, etid: nat, id: nat, fields: map<string, Val>)
    requires Core(s, pay, dist, b)
    requires etid == pay.entityTypeId ==> forall f :: f in [TOTAL, CURRENCY, MARKER] ==> Col(pay, f) !in fields
    requires etid == dist.entityTypeId ==> forall f :: f in [PARENT_PAYMENT, MARKER] ==> Col(dist, f) !in fields
    requires etid == dist.entityTypeId && Col(dist, STATUS) in fields ==> fields[Col(dist, STATUS)] != Str("active")
    ensures Core(Exec(s, Update(etid, id, fields)), pay, dist, b)
    ensures forall x :: Present(Exec(s, Update(etid, id, fields)), pay, dist, x) <==> Present(s, pay, dist, x)
  {
    hide Col, Core, TOTAL, CURRENCY, MARKER, PARENT_PAYMENT, STATUS, FindByMarker, MarkerOf;
    var t := Exec(s, Update(etid, id, fields));
    forall f | f in [TOTAL, CURRENCY, MARKER] ensures Untouched(s, t, pay.entityTypeId, Col(pay, f)) {
      UpdateTouchesItsFields(s, etid, id, fields, pay.entityTypeId, Col(pay, f));
    }
    forall f | f in [PARENT_PAYMENT, MARKER] ensures Untouched(s, t, dist.entityTypeId, Col(dist, f)) {
      UpdateTouchesItsFields(s, etid, id, fields, dist.entityTypeId, Col(dist, f));
    }
    var own, rows := [TOTAL, CURRENCY, MARKER], [PARENT_PAYMENT, MARKER];
    assert own[2] in own && rows[1] in rows;
    UpdateKeepsCore(s, t, pay, dist, b);
    forall x ensures Present(t, pay, dist, x) <==> Present(s, pay, dist, x) {
      FindAfterUpdate(s, t, ProcessOf(x, pay, dist), MarkerOf(x));
    }
  }

  lemma RegistryHarmless(pay: SpRef, registry: Registry)
    ensures forall f :: f in [TOTAL, CURRENCY, MARKER] ==> Col(pay, f) !in RegistryFieldPayload(pay, registry)
  {
    hide Col, RegistryFieldPayload, TOTAL, CURRENCY, MARKER, NEED_DISTR, NEEDS_REDISTR;
    forall f | f in [TOTAL, CURRENCY, MARKER] ensures Col(pay, f) !in RegistryFieldPayload(pay, registry) {
      assert f in [TOTAL, CURRENCY, NEED_DISTR, NEEDS_REDISTR, MARKER];
      if Col(pay, f) in RegistryFieldPayload(pay, registry) {
        RegistryTouchesOnlyItsColumns(pay, registry, Col(pay, f));
      }
    }
  }

  /** A deleted item takes nothing else along, and nothing is found that was not. */
  lemma DeletionKeeps(s: Store, pay: SpRef, dist: SpRef, b: Books, etid: nat, id: nat)
    requires Core(s, pay, dist, b)
    ensures Core(Removed(s, etid, id), pay, dist, b)
    ensures forall x :: Present(Removed(s, etid, id), pay, dist, x) ==> Present(s, pay, dist, x)
  {
    hide Cell, HasMarker, IsActiveRowOf, Valid, FindByMarker, MarkerOf;
    RemovedKeepsValid(s, etid, id);
    forall x | !Present(s, pay, dist, x) ensures !Present(Removed(s, etid, id), pay, dist, x) {
      AbsentAfterRemoval(s, ProcessOf(x, pay, dist), MarkerOf(x), etid, id);
    }
  }

  lemma AbsentAfterRemoval(s: Store, sp: SpRef, marker: string, etid: nat, id: nat)
    requires FindByMarker(s, sp, marker).None?
    ensures FindByMarker(Removed(s, etid, id), sp, marker).None?
  {
    hide Matches, MarkerListCall;
    var q := MarkerListCall(sp, marker);
    var t := Removed(s, etid, id);
    if marker != "" && Found(t, q) != [] {
      assert Found(t, q)[0] in Found(t, q);
      assert Found(t, q)[0] in t.items;
      assert Found(t, q)[0] in Found(s, q);
    }
  }

  // ---- Every move

  /** A call that adds nothing keeps the core, and brings nothing about that was not there. */
  lemma OtherMove(l: Live, pay: SpRef, dist: SpRef, b: Books, m: Move)
    requires Core(l.store, pay, dist, b) && pay.entityTypeId != dist.entityTypeId && !m.Added?
    ensures Core(Next(l, pay, dist, m).store, pay, dist, b)
    ensures forall x :: Present(Next(l, pay, dist, m).store, pay, dist, x) ==> Present(l.store, pay, dist, x)
    ensures !m.Deleted? ==> forall x :: Present(l.store, pay, dist, x) ==> Present(Next(l, pay, dist, m).store, pay, dist, x)
  {
    hide Core, Col, Present, Exec, AddCall, Removed, RegistryFieldPayload, TOTAL, CURRENCY, MARKER, NEED_DISTR, NEEDS_REDISTR,
         PARENT_PAYMENT, STATUS, AMOUNT;
    ComputedApart(pay);
    StatusApart(dist);
    match m
    case Sought(_, _) =>
    case Abandoned(_) =>
    case RemainderWritten(paymentId, remaining) =>
      HarmlessUpdate(l.store, pay, dist, b, pay.entityTypeId, paymentId, map[Col(pay, NEED_DISTR) := Num(Round2(remaining))]);
    case RowDeactivated(rowId) =>
      assert forall f :: f in [PARENT_PAYMENT, MARKER] ==> f in [PARENT_PAYMENT, AMOUNT, CURRENCY, MARKER];
      assert "reverted" != "active";
      HarmlessUpdate(l.store, pay, dist, b, dist.entityTypeId, rowId, map[Col(dist, STATUS) := Str("reverted")]);
    case Flagged(paymentId, value) =>
      HarmlessUpdate(l.store, pay, dist, b, pay.entityTypeId, paymentId,
                     map[Col(pay, NEEDS_REDISTR) := Str(if value then "Y" else "N")]);
    case RegistryFilled(elementId, registry) =>
      RegistryHarmless(pay, registry);
      HarmlessUpdate(l.store, pay, dist, b, pay.entityTypeId, elementId, RegistryFieldPayload(pay, registry));
    case Deleted(etid, id) =>
      DeletionKeeps(l.store, pay, dist, b, etid, id);
  }

  /** Ids are never taken back. */
  lemma IdsGrow(l: Live, pay: SpRef, dist: SpRef, m: Move, etid: nat)
    ensures LastId(Next(l, pay, dist, m).store, etid) >= LastId(l.store, etid)
  {
    hide FindByMarker, PaymentElementAddCall, DistributionRowAddCall, RegistryFieldPayload, Col;
    if m.Added? && m.writer in l.adding {
      AddIsOfProcess(l.adding[m.writer], pay, dist);
    }
  }

  lemma MoveKeepsProper(l: Live, pay: SpRef, dist: SpRef, b: Books, m: Move)
    requires AllProper(l, pay, b) && Possible(l, pay, b, m)
    ensures AllProper(Next(l, pay, dist, m), pay, b)
  {
    IdsGrow(l, pay, dist, m, pay.entityTypeId);
    hide Exec, Present, AddCall, LastId, NeedRecomputeCall, DeactivateRowCall, RequiresRedistributionCall, RegistryFieldPayload, Removed;
  }

  /** A call keeps one element and one row for each marker, totals as the bank gave them, and no row of an
      unknown element, exactly when it is not the add of a writer that was overtaken. */
  lemma MoveKeeps(l: Live, pay: SpRef, dist: SpRef, b: Books, m: Move)
    requires Core(l.store, pay, dist, b) && AllProper(l, pay, b) && pay.entityTypeId != dist.entityTypeId
    ensures Core(Next(l, pay, dist, m).store, pay, dist, b) <==> !Doubles(l, pay, dist, m)
  {
    hide Core, Present, AddCall, Exec;
    if !m.Added? {
      OtherMove(l, pay, dist, b, m);
    } else if m.writer in l.adding {
      AddExactly(l.store, pay, dist, b, l.adding[m.writer]);
    }
  }

  /** Not a call of this writer. */
  predicate NotOf(m: Move, w: nat)
  {
    m.Sought? || m.Abandoned? || m.Added? ==> m.writer != w
  }

  /** The add of what this writer waits to add, by another one. */
  predicate AddsSame(l: Live, m: Move, w: nat)
    requires w in l.adding
  {
    m.Added? && m.writer in l.adding && SameThing(l.adding[m.writer], l.adding[w])
  }

  /** A waiting writer is overtaken by nothing but another one's add of the same thing, and stays so until
      something is deleted. */
  lemma OvertakenBy(l: Live, pay: SpRef, dist: SpRef, b: Books, m: Move, w: nat)
    requires Core(l.store, pay, dist, b) && pay.entityTypeId != dist.entityTypeId
    requires w in l.adding && NotOf(m, w)
    ensures var t := Next(l, pay, dist, m);
            && w in t.adding && t.adding[w] == l.adding[w]
            && (Overtaken(t, pay, dist, w) ==> Overtaken(l, pay, dist, w) || AddsSame(l, m, w))
            && (AddsSame(l, m, w) || (Overtaken(l, pay, dist, w) && !m.Deleted?) ==> Overtaken(t, pay, dist, w))
  {
    hide Core, Present, AddCall, Exec, SameThing, Removed, NeedRecomputeCall, DeactivateRowCall, RequiresRedistributionCall,
         RegistryFieldPayload;
    if !m.Added? {
      OtherMove(l, pay, dist, b, m);
    } else if m.writer in l.adding {
      PresentAfterAdd(l.store, pay, dist, l.adding[m.writer], l.adding[w]);
    }
  }

  // ---- Every interleaving

  ghost function Interleaved(l: Live, pay: SpRef, dist: SpRef, moves: seq<Move>): Live
  {
    if moves == [] then l else Next(Interleaved(l, pay, dist, moves[..|moves| - 1]), pay, dist, moves[|moves| - 1])
  }

  ghost predicate AllPossible(l: Live, pay: SpRef, dist: SpRef, b: Books, moves: seq<Move>)
  {
    moves == []
    || (AllPossible(l, pay, dist, b, moves[..|moves| - 1])
        && Possible(Interleaved(l, pay, dist, moves[..|moves| - 1]), pay, b, moves[|moves| - 1]))
  }

  ghost predicate AlwaysCore(l: Live, pay: SpRef, dist: SpRef, b: Books, moves: seq<Move>)
  {
    && Core(Interleaved(l, pay, dist, moves).store, pay, dist, b)
    && (moves != [] ==> AlwaysCore(l, pay, dist, b, moves[..|moves| - 1]))
  }

  /** No writer adds after it was overtaken. */
  ghost predicate NeverDoubles(l: Live, pay: SpRef, dist: SpRef, moves: seq<Move>)
  {
    moves != [] ==>
      && NeverDoubles(l, pay, dist, moves[..|moves| - 1])
      && !Doubles(Interleaved(l, pay, dist, moves[..|moves| - 1]), pay, dist, moves[|moves| - 1])
  }

  lemma {:induction false} InterleavingExactly(l: Live, pay: SpRef, dist: SpRef, b: Books, moves: seq<Move>)
    requires Core(l.store, pay, dist, b) && AllProper(l, pay, b)
    requires pay.entityTypeId != dist.entityTypeId && AllPossible(l, pay, dist, b, moves)
    ensures AllProper(Interleaved(l, pay, dist, moves), pay, b)
    ensures AlwaysCore(l, pay, dist, b, moves) <==> NeverDoubles(l, pay, dist, moves)
  {
    hide Core, Next, Possible, AllProper, Doubles;
    if moves != [] {
      var n := |moves| - 1;
      InterleavingExactly(l, pay, dist, b, moves[..n]);
      var s := Interleaved(l, pay, dist, moves[..n]);
      MoveKeepsProper(s, pay, dist, b, moves[n]);
      if AlwaysCore(l, pay, dist, b, moves[..n]) {
        AlwaysCoreNow(l, pay, dist, b, moves[..n]);
        MoveKeeps(s, pay, dist, b, moves[n]);
      }
    }
  }

  /** Some other writer has added the same thing in these calls. */
  ghost predicate AddedSince(l: Live, pay: SpRef, dist: SpRef, moves: seq<Move>, w: nat)
  {
    moves != [] &&
      var n := |moves| - 1;
      var s := Interleaved(l, pay, dist, moves[..n]);
      AddedSince(l, pay, dist, moves[..n], w) || (w in s.adding && AddsSame(s, moves[n], w))
  }

  lemma AlwaysCoreNow(l: Live, pay: SpRef, dist: SpRef, b: Books, moves: seq<Move>)
    requires AlwaysCore(l, pay, dist, b, moves)
    ensures Core(Interleaved(l, pay, dist, moves).store, pay, dist, b)
  {
    hide Core, Interleaved;
  }

  /** A writer that has looked in vain is overtaken only if another has added the same thing since; and where
      nothing is deleted, exactly then. */
  lemma {:induction false} OvertakenSince(l: Live, pay: SpRef, dist: SpRef, b: Books, moves: seq<Move>, w: nat)
    requires pay.entityTypeId != dist.entityTypeId && AlwaysCore(l, pay, dist, b, moves)
    requires w in l.adding && !Overtaken(l, pay, dist, w) && forall k :: 0 <= k < |moves| ==> NotOf(moves[k], w)
    ensures var t := Interleaved(l, pay, dist, moves);
            && w in t.adding && t.adding[w] == l.adding[w]
            && (Overtaken(t, pay, dist, w) ==> AddedSince(l, pay, dist, moves, w))
            && ((forall k :: 0 <= k < |moves| ==> !moves[k].Deleted?) ==>
                  (Overtaken(t, pay, dist, w) <==> AddedSince(l, pay, dist, moves, w)))
  {
    hide Core, Next, Overtaken, NotOf, AddsSame;
    if moves != [] {
      var n := |moves| - 1;
      OvertakenSince(l, pay, dist, b, moves[..n], w);
      AlwaysCoreNow(l, pay, dist, b, moves[..n]);
      OvertakenBy(Interleaved(l, pay, dist, moves[..n]), pay, dist, b, moves[n], w);
    }
  }

  const EMPTY := Live(Store([], map[]), map[])

  lemma EmptyPortal(pay: SpRef, dist: SpRef, b: Books)
    ensures Core(EMPTY.store, pay, dist, b) && AllProper(EMPTY, pay, b)
  {
  }

  /** In every interleaving of the calls, from an empty portal, however many writers there are: one element
      and one row for each marker, totals as the bank gave them, no row of an unknown element, throughout,
      exactly when no writer adds after another has added the same thing since it looked. */
  lemma InterleavingKeepsCore(pay: SpRef, dist: SpRef, b: Books, moves: seq<Move>)
    requires pay.entityTypeId != dist.entityTypeId && AllPossible(EMPTY, pay, dist, b, moves)
    ensures AlwaysCore(EMPTY, pay, dist, b, moves) <==> NeverDoubles(EMPTY, pay, dist, moves)
  {
    hide Core, AllProper, AllPossible, AlwaysCore, NeverDoubles;
    EmptyPortal(pay, dist, b);
    InterleavingExactly(EMPTY, pay, dist, b, moves);
  }

  // ---- What can still go wrong from here

  /** Nobody waits to add what is there, and no two wait to add one thing. */
  ghost predicate Clear(l: Live, pay: SpRef, dist: SpRef)
  {
    && (forall w :: w in l.adding ==> !Present(l.store, pay, dist, l.adding[w]))
    && forall w, v :: w in l.adding && v in l.adding && w != v ==> !SameThing(l.adding[w], l.adding[v])
  }

  /** No writer begins to look. */
  ghost predicate NoneSeeks(moves: seq<Move>)
  {
    forall k :: 0 <= k < |moves| ==> !moves[k].Sought?
  }

  lemma ClearStep(l: Live, pay: SpRef, dist: SpRef, b: Books, m: Move)
    requires Core(l.store, pay, dist, b) && AllProper(l, pay, b) && pay.entityTypeId != dist.entityTypeId && Clear(l, pay, dist)
    requires m.Sought? ==> forall v :: v in l.adding && v != m.writer ==> !SameThing(m.wanted, l.adding[v])
    ensures !Doubles(l, pay, dist, m) && Core(Next(l, pay, dist, m).store, pay, dist, b) && Clear(Next(l, pay, dist, m), pay, dist)
  {
    hide Core, AllProper, Present, SameThing, Next;
    MoveKeeps(l, pay, dist, b, m);
    if m.Added? {
      ClearAfterAdd(l, pay, dist, m.writer);
    } else {
      OtherMove(l, pay, dist, b, m);
      ClearAfterOther(l, pay, dist, m);
    }
  }

  lemma ClearAfterAdd(l: Live, pay: SpRef, dist: SpRef, w: nat)
    requires pay.entityTypeId != dist.entityTypeId && Clear(l, pay, dist)
    ensures Clear(Next(l, pay, dist, Added(w)), pay, dist)
  {
    hide Present, SameThing, AddCall, Exec;
    if w in l.adding {
      forall v | v in l.adding && v != w ensures !Present(Exec(l.store, AddCall(l.adding[w], pay, dist)), pay, dist, l.adding[v]) {
        PresentAfterAdd(l.store, pay, dist, l.adding[w], l.adding[v]);
      }
    }
  }

  lemma ClearAfterOther(l: Live, pay: SpRef, dist: SpRef, m: Move)
    requires Clear(l, pay, dist) && !m.Added?
    requires forall x :: Present(Next(l, pay, dist, m).store, pay, dist, x) ==> Present(l.store, pay, dist, x)
    requires m.Sought? ==> forall v :: v in l.adding && v != m.writer ==> !SameThing(m.wanted, l.adding[v])
    ensures Clear(Next(l, pay, dist, m), pay, dist)
  {
    hide Present, MarkerOf, Exec, Removed, NeedRecomputeCall, DeactivateRowCall, RequiresRedistributionCall, RegistryFieldPayload;
  }

  lemma {:induction false} ClearStays(l: Live, pay: SpRef, dist: SpRef, b: Books, moves: seq<Move>)
    requires Core(l.store, pay, dist, b) && AllProper(l, pay, b) && pay.entityTypeId != dist.entityTypeId && Clear(l, pay, dist)
    requires NoneSeeks(moves)
    ensures AlwaysCore(l, pay, dist, b, moves) && AllProper(Interleaved(l, pay, dist, moves), pay, b)
    ensures Clear(Interleaved(l, pay, dist, moves), pay, dist)
  {
    hide Core, Next, AllProper, Doubles, Clear;
    if moves != [] {
      var n := |moves| - 1;
      ClearStays(l, pay, dist, b, moves[..n]);
      AlwaysCoreNow(l, pay, dist, b, moves[..n]);
      MoveKeepsProper(Interleaved(l, pay, dist, moves[..n]), pay, dist, b, moves[n]);
      ClearStep(Interleaved(l, pay, dist, moves[..n]), pay, dist, b, moves[n]);
    }
  }

  lemma OneMove(l: Live, pay: SpRef, dist: SpRef, b: Books, m: Move)
    ensures Interleaved(l, pay, dist, [m]) == Next(l, pay, dist, m)
    ensures AllPossible(l, pay, dist, b, [m]) <==> Possible(l, pay, b, m)
  {
    hide Next, Possible;
    assert [m][..0] == [];
  }

  lemma TwoMoves(l: Live, pay: SpRef, dist: SpRef, b: Books, m: Move, n: Move)
    ensures Interleaved(l, pay, dist, [m, n]) == Next(Next(l, pay, dist, m), pay, dist, n)
    ensures AllPossible(l, pay, dist, b, [m, n]) <==> Possible(l, pay, b, m) && Possible(Next(l, pay, dist, m), pay, b, n)
  {
    hide Next, Possible;
    assert [m, n][..1] == [m];
    OneMove(l, pay, dist, b, m);
  }

  lemma OvertakenDoubles(l: Live, pay: SpRef, dist: SpRef, b: Books, w: nat)
    requires Core(l.store, pay, dist, b) && AllProper(l, pay, b) && pay.entityTypeId != dist.entityTypeId && Overtaken(l, pay, dist, w)
    ensures !AlwaysCore(l, pay, dist, b, [Added(w)])
  {
    hide Core, Next, AllProper, Overtaken;
    OneMove(l, pay, dist, b, Added(w));
    MoveKeeps(l, pay, dist, b, Added(w));
  }

  lemma AddOvertakes(l: Live, pay: SpRef, dist: SpRef, w: nat, v: nat)
    requires pay.entityTypeId != dist.entityTypeId
    requires w in l.adding && v in l.adding && w != v && SameThing(l.adding[w], l.adding[v])
    ensures Overtaken(Next(l, pay, dist, Added(w)), pay, dist, v)
  {
    hide Present, SameThing, AddCall, Exec;
    PresentAfterAdd(l.store, pay, dist, l.adding[w], l.adding[v]);
  }

  lemma ClashDoubles(l: Live, pay: SpRef, dist: SpRef, b: Books, w: nat, v: nat)
    requires Core(l.store, pay, dist, b) && AllProper(l, pay, b) && pay.entityTypeId != dist.entityTypeId
    requires w in l.adding && v in l.adding && w != v && SameThing(l.adding[w], l.adding[v])
    ensures !AlwaysCore(l, pay, dist, b, [Added(w), Added(v)])
  {
    hide Core, Next, AllProper, Overtaken, SameThing;
    var t := Next(l, pay, dist, Added(w));
    AddOvertakes(l, pay, dist, w, v);
    MoveKeepsProper(l, pay, dist, b, Added(w));
    var all := [Added(w), Added(v)];
    assert all[..1] == [Added(w)];
    OneMove(l, pay, dist, b, Added(w));
    TwoMoves(l, pay, dist, b, Added(w), Added(v));
    if AlwaysCore(l, pay, dist, b, all) {
      AlwaysCoreNow(l, pay, dist, b, [Added(w)]);
      MoveKeeps(t, pay, dist, b, Added(v));
    }
  }

  /** From any state that is right, everything that can follow before another look stays right exactly when
      nobody waits to add what is there, and no two wait to add one thing. */
  lemma ClearExactly(l: Live, pay: SpRef, dist: SpRef, b: Books)
    requires Core(l.store, pay, dist, b) && AllProper(l, pay, b) && pay.entityTypeId != dist.entityTypeId
    ensures Clear(l, pay, dist) <==> forall moves :: NoneSeeks(moves) ==> AlwaysCore(l, pay, dist, b, moves)
  {
    hide Core, AllProper, SameThing, Present, AlwaysCore;
    if Clear(l, pay, dist) {
      forall moves | NoneSeeks(moves) ensures AlwaysCore(l, pay, dist, b, moves) {
        ClearStays(l, pay, dist, b, moves);
      }
    } else if w :| w in l.adding && Present(l.store, pay, dist, l.adding[w]) {
      OvertakenDoubles(l, pay, dist, b, w);
      assert NoneSeeks([Added(w)]);
    } else {
      var w, v :| w in l.adding && v in l.adding && w != v && SameThing(l.adding[w], l.adding[v]);
      ClashDoubles(l, pay, dist, b, w, v);
      assert NoneSeeks([Added(w), Added(v)]);
    }
  }

  // ---- When each thing has one writer

  /** Every thing is looked for by the writer it belongs to. */
  ghost predicate Owned(moves: seq<Move>, owner: (bool, string) -> nat)
  {
    forall k :: 0 <= k < |moves| && moves[k].Sought? ==>
      owner(moves[k].wanted.NewPayment?, MarkerOf(moves[k].wanted)) == moves[k].writer
  }

  ghost predicate WaitingOwned(l: Live, owner: (bool, string) -> nat)
  {
    forall w :: w in l.adding ==> owner(l.adding[w].NewPayment?, MarkerOf(l.adding[w])) == w
  }

  /** One writer for everything, or for each marker of its own, is never overtaken: whatever the others do
      between its look and its add, every run keeps what it should. */
  lemma {:induction false} OwnersKeepCore(pay: SpRef, dist: SpRef, b: Books, moves: seq<Move>, owner: (bool, string) -> nat)
    requires pay.entityTypeId != dist.entityTypeId && AllPossible(EMPTY, pay, dist, b, moves) && Owned(moves, owner)
    ensures var l := Interleaved(EMPTY, pay, dist, moves);
            AlwaysCore(EMPTY, pay, dist, b, moves) && AllProper(l, pay, b) && Clear(l, pay, dist) && WaitingOwned(l, owner)
  {
    hide Core, Next, Possible, AllProper, Doubles, Clear, WaitingOwned, MarkerOf;
    if moves == [] {
      EmptyPortal(pay, dist, b);
      NobodyWaits(pay, dist, owner);
    } else {
      var n := |moves| - 1;
      OwnersKeepCore(pay, dist, b, moves[..n], owner);
      var l := Interleaved(EMPTY, pay, dist, moves[..n]);
      AlwaysCoreNow(EMPTY, pay, dist, b, moves[..n]);
      MoveKeepsProper(l, pay, dist, b, moves[n]);
      OwnersDiffer(l, pay, dist, moves[n], owner);
      ClearStep(l, pay, dist, b, moves[n]);
    }
  }

  lemma NobodyWaits(pay: SpRef, dist: SpRef, owner: (bool, string) -> nat)
    ensures Clear(EMPTY, pay, dist) && WaitingOwned(EMPTY, owner)
  {
  }

  lemma OwnersDiffer(l: Live, pay: SpRef, dist: SpRef, m: Move, owner: (bool, string) -> nat)
    requires WaitingOwned(l, owner) && (m.Sought? ==> owner(m.wanted.NewPayment?, MarkerOf(m.wanted)) == m.writer)
    ensures WaitingOwned(Next(l, pay, dist, m), owner)
    ensures m.Sought? ==> forall v :: v in l.adding && v != m.writer ==> !SameThing(m.wanted, l.adding[v])
  {
    hide Present, AddCall, Exec, MarkerOf, Removed, NeedRecomputeCall, DeactivateRowCall, RequiresRedistributionCall, RegistryFieldPayload;
  }

  // ---- Two queues, one operation

  /** The registry-write queue takes up an operation again (writer 0) while crm-sync allocates it
      (writer 1): both look before either adds, and the payment is there twice. */
  lemma RegistryWriteDoubles(pay: SpRef, dist: SpRef, b: Books, retried: PaymentInput, synced: PaymentInput)
    requires pay.entityTypeId != dist.entityTypeId && retried.marker == synced.marker
    requires Proper(EMPTY.store, pay, b, NewPayment(retried)) && Proper(EMPTY.store, pay, b, NewPayment(synced))
    ensures var moves := [Sought(0, NewPayment(retried)), Sought(1, NewPayment(synced)), Added(0), Added(1)];
            && AllPossible(EMPTY, pay, dist, b, moves)
            && !OnePerMarker(Interleaved(EMPTY, pay, dist, moves).store, pay)
            && !AlwaysCore(EMPTY, pay, dist, b, moves)
  {
    var x, y := NewPayment(retried), NewPayment(synced);
    var l := Live(EMPTY.store, map[0 := x, 1 := y]);
    EmptyPortal(pay, dist, b);
    BothWait(pay, dist, x, y);
    hide Core, Next, AllProper, Proper, OnePerMarker;
    var moves := [Sought(0, x), Sought(1, y), Added(0), Added(1)];
    assert moves[..3] == [Sought(0, x), Sought(1, y), Added(0)] && moves[..3][..2] == [Sought(0, x), Sought(1, y)];
    TwoMoves(EMPTY, pay, dist, b, Sought(0, x), Sought(1, y));
    assert Interleaved(EMPTY, pay, dist, moves[..3]) == Next(l, pay, dist, Added(0));
    assert Interleaved(EMPTY, pay, dist, moves) == Next(Next(l, pay, dist, Added(0)), pay, dist, Added(1));
    assert AllPossible(EMPTY, pay, dist, b, moves[..3]) by { NoLook(pay, b, l, Added(0)); }
    NoLook(pay, b, Next(l, pay, dist, Added(0)), Added(1));
    BothAdded(l, pay, dist, retried, synced);
    NothingThere(pay, retried.marker);
    InterleavedWritersDuplicate(EMPTY.store, pay, retried, synced);
    if AlwaysCore(EMPTY, pay, dist, b, moves) {
      AlwaysCoreNow(EMPTY, pay, dist, b, moves);
      CoreOne(Interleaved(EMPTY, pay, dist, moves).store, pay, dist, b);
    }
  }

  lemma NoLook(pay: SpRef, b: Books, l: Live, m: Move)
    requires !m.Sought?
    ensures Possible(l, pay, b, m)
  {
  }

  lemma NothingThere(pay: SpRef, marker: string)
    ensures FindByMarker(EMPTY.store, pay, marker).None?
  {
  }

  lemma BothWait(pay: SpRef, dist: SpRef, x: Wanted, y: Wanted)
    requires x.NewPayment? && y.NewPayment?
    ensures Next(Next(EMPTY, pay, dist, Sought(0, x)), pay, dist, Sought(1, y)) == Live(EMPTY.store, map[0 := x, 1 := y])
  {
    NothingThere(pay, MarkerOf(x));
    NothingThere(pay, MarkerOf(y));
    hide FindByMarker;
    assert map[0 := x][1 := y] == map[0 := x, 1 := y];
  }

  lemma BothAdded(l: Live, pay: SpRef, dist: SpRef, retried: PaymentInput, synced: PaymentInput)
    requires l == Live(EMPTY.store, map[0 := NewPayment(retried), 1 := NewPayment(synced)])
    ensures Next(Next(l, pay, dist, Added(0)), pay, dist, Added(1)).store ==
            Exec(Exec(EMPTY.store, PaymentElementAddCall(pay, retried)), PaymentElementAddCall(pay, synced))
  {
    hide Exec, PaymentElementAddCall;
  }

  lemma CoreOne(s: Store, pay: SpRef, dist: SpRef, b: Books)
    requires Core(s, pay, dist, b)
    ensures OnePerMarker(s, pay)
  {
  }

  // ---- Whole operations are runs of these calls

  lemma FiveMoves(l: Live, pay: SpRef, dist: SpRef, b: Books, m1: Move, m2: Move, m3: Move, m4: Move, m5: Move)
    requires var l1 := Next(l, pay, dist, m1);
             var l2 := Next(l1, pay, dist, m2);
             var l3 := Next(l2, pay, dist, m3);
             var l4 := Next(l3, pay, dist, m4);
             && Possible(l, pay, b, m1) && Possible(l1, pay, b, m2) && Possible(l2, pay, b, m3) && Possible(l3, pay, b, m4)
             && Possible(l4, pay, b, m5)
    ensures AllPossible(l, pay, dist, b, [m1, m2, m3, m4, m5])
    ensures Interleaved(l, pay, dist, [m1, m2, m3, m4, m5]) ==
            Next(Next(Next(Next(Next(l, pay, dist, m1), pay, dist, m2), pay, dist, m3), pay, dist, m4), pay, dist, m5)
  {
    hide Next, Possible;
    var all := [m1, m2, m3, m4, m5];
    assert all[..4] == [m1, m2, m3, m4] && all[..4][..3] == [m1, m2, m3] && all[..4][..3][..2] == [m1, m2];
    TwoMoves(l, pay, dist, b, m1, m2);
    assert Interleaved(l, pay, dist, [m1, m2, m3]) == Next(Interleaved(l, pay, dist, [m1, m2]), pay, dist, m3);
    assert AllPossible(l, pay, dist, b, [m1, m2, m3]);
    assert Interleaved(l, pay, dist, [m1, m2, m3, m4]) == Next(Interleaved(l, pay, dist, [m1, m2, m3]), pay, dist, m4);
    assert AllPossible(l, pay, dist, b, [m1, m2, m3, m4]);
  }

  /** A look and an add of one writer, with nobody between, find or create. */
  lemma SoughtAndAdded(l: Live, pay: SpRef, dist: SpRef, w: nat, x: Wanted)
    ensures AddCall(x, pay, dist).Add?
    ensures Next(Next(l, pay, dist, Sought(w, x)), pay, dist, Added(w)) ==
            Live(FindOrAdd(l.store, ProcessOf(x, pay, dist), MarkerOf(x), AddCall(x, pay, dist)).store, l.adding - {w})
  {
    hide FindByMarker, Exec, AddCall, MarkerOf;
    AddIsOfProcess(x, pay, dist);
    assert l.adding[w := x] - {w} == l.adding - {w};
    assert l.adding - {w} - {w} == l.adding - {w};
  }

  /** An ensured element has an id that has been given out. */
  lemma EnsuredKnown(s: Store, pay: SpRef, input: PaymentInput)
    requires Valid(s)
    ensures var p := PaymentEnsured(s, pay, input); p.id <= LastId(p.store, pay.entityTypeId)
  {
    hide FindByMarker, HasMarker, PaymentElementAddCall;
    AddIsForPayments(pay, input);
    if FindByMarker(s, pay, input.marker).Some? {
      FoundHas(s, pay, input.marker);
      var a :| a in s.items && HasMarker(a, pay, input.marker) && a.id == FindByMarker(s, pay, input.marker).value;
      MarkerProcess(a, pay, input.marker);
    }
  }

  /** An allocation is five of them, whatever the other writers are at and whatever the remainders show:
      look, add, look, add, write the remainder. */
  lemma AllocationAsMoves(l: Live, pay: SpRef, dist: SpRef, b: Books, w: nat, op: Operation, targetKind: string, targetId: string,
                          companyId: Option<nat>, responsible: Option<nat>, cap: nat)
    requires Valid(l.store) && op.amount == b.amountOf(DedupKey(op)) && op.currency == b.currencyOf(DedupKey(op))
    ensures var input := CarrierInput(op, companyId, responsible);
            var id := PaymentEnsured(l.store, pay, input).id;
            var row := FactInput(op, id, op.amount, targetKind, targetId, responsible);
            var t := FactWritten(l.store, pay, dist, op, op.amount, targetKind, targetId, companyId, responsible).store;
            var moves := [Sought(w, NewPayment(input)), Added(w), Sought(w, NewRow(row)), Added(w),
                          RemainderWritten(id, Remaining(t, dist, id, op.amount, op.currency, cap))];
            && AllPossible(l, pay, dist, b, moves)
            && Interleaved(l, pay, dist, moves) ==
               Live(AllocationWritten(l.store, pay, dist, op, targetKind, targetId, companyId, responsible, cap), l.adding - {w})
  {
    hide Valid, Next, Remaining, DedupKey, FactKey, HasMarker, Exec, NeedRecomputeCall, FindOrAdd, PaymentElementAddCall, DistributionRowAddCall,
         LastId;
    var input := CarrierInput(op, companyId, responsible);
    KeyNotBlank(op);
    EnsuredKnown(l.store, pay, input);
    var p := PaymentEnsured(l.store, pay, input);
    var row := FactInput(op, p.id, op.amount, targetKind, targetId, responsible);
    var r := RowWritten(p.store, dist, row);
    var waiting := l.adding - {w};
    assert waiting - {w} == waiting;
    SoughtAndAdded(l, pay, dist, w, NewPayment(input));
    SoughtAndAdded(Live(p.store, waiting), pay, dist, w, NewRow(row));
    var remaining := Remaining(r.store, dist, p.id, op.amount, op.currency, cap);
    LastWrite(Live(r.store, waiting), pay, dist, p.id, remaining);
    FiveMoves(l, pay, dist, b, Sought(w, NewPayment(input)), Added(w), Sought(w, NewRow(row)), Added(w), RemainderWritten(p.id, remaining));
  }

  lemma LastWrite(l: Live, pay: SpRef, dist: SpRef, id: nat, remaining: real)
    ensures Next(l, pay, dist, RemainderWritten(id, remaining)) == l.(store := Exec(l.store, NeedRecomputeCall(pay, id, remaining)))
  {
    hide Exec, NeedRecomputeCall;
  }

  /** Some run of remainders written, rows deactivated and flags raised leads from one store to the other,
      whatever the adding writers are at. */
  ghost predicate UpdatesTo(s: Store, t: Store, pay: SpRef, dist: SpRef)
  {
    exists moves :: OnlyUpdates(moves) && Leads(s, t, pay, dist, moves)
  }

  ghost predicate Leads(s: Store, t: Store, pay: SpRef, dist: SpRef, moves: seq<Move>)
  {
    forall adding :: Interleaved(Live(s, adding), pay, dist, moves) == Live(t, adding)
  }

  predicate OnlyUpdates(moves: seq<Move>)
  {
    forall k :: 0 <= k < |moves| ==> moves[k].RemainderWritten? || moves[k].RowDeactivated? || moves[k].Flagged?
  }

  lemma NoUpdate(s: Store, pay: SpRef, dist: SpRef)
    ensures UpdatesTo(s, s, pay, dist)
  {
    assert OnlyUpdates([]) && Leads(s, s, pay, dist, []);
  }

  lemma OneMore(s: Store, t: Store, u: Store, pay: SpRef, dist: SpRef, m: Move)
    requires UpdatesTo(s, t, pay, dist) && OnlyUpdates([m]) && Next(Live(t, map[]), pay, dist, m) == Live(u, map[])
    ensures UpdatesTo(s, u, pay, dist)
  {
    hide OnlyUpdates, Leads;
    var moves :| OnlyUpdates(moves) && Leads(s, t, pay, dist, moves);
    OneMoreUpdate(moves, m);
    OneMoreLeads(s, t, u, pay, dist, moves, m);
    assert OnlyUpdates(moves + [m]) && Leads(s, u, pay, dist, moves + [m]);
  }

  lemma OneMoreUpdate(moves: seq<Move>, m: Move)
    requires OnlyUpdates(moves) && OnlyUpdates([m])
    ensures OnlyUpdates(moves + [m])
  {
    assert [m][0] == m;
  }

  lemma OneMoreLeads(s: Store, t: Store, u: Store, pay: SpRef, dist: SpRef, moves: seq<Move>, m: Move)
    requires Leads(s, t, pay, dist, moves) && OnlyUpdates([m]) && Next(Live(t, map[]), pay, dist, m) == Live(u, map[])
    ensures Leads(s, u, pay, dist, moves + [m])
  {
    hide Next, OnlyUpdates;
    var more := moves + [m];
    assert more[..|more| - 1] == moves && more[|more| - 1] == m;
    forall adding ensures Interleaved(Live(s, adding), pay, dist, more) == Live(u, adding) {
      assert Interleaved(Live(s, adding), pay, dist, moves) == Live(t, adding);
      UpdateAnyhow(t, u, pay, dist, m, adding);
    }
  }

  /** What an update does to the store does not depend on who waits. */
  lemma UpdateAnyhow(t: Store, u: Store, pay: SpRef, dist: SpRef, m: Move, adding: map<nat, Wanted>)
    requires OnlyUpdates([m]) && Next(Live(t, map[]), pay, dist, m) == Live(u, map[])
    ensures Next(Live(t, adding), pay, dist, m) == Live(u, adding)
  {
    hide Exec, NeedRecomputeCall, DeactivateRowCall, RequiresRedistributionCall;
    assert [m][0] == m;
  }

  lemma {:induction false} DeactivatingUpdates(s: Store, pay: SpRef, dist: SpRef, refs: seq<TargetRowRef>, n: nat)
    requires n <= |refs|
    ensures UpdatesTo(s, Deactivated(s, dist, refs, n), pay, dist)
  {
    hide UpdatesTo, Exec, DeactivateRowCall;
    if n == 0 {
      NoUpdate(s, pay, dist);
    } else {
      DeactivatingUpdates(s, pay, dist, refs, n - 1);
      OneMore(s, Deactivated(s, dist, refs, n - 1), Deactivated(s, dist, refs, n), pay, dist, RowDeactivated(refs[n - 1].rowId));
    }
  }

  lemma RecomputeUpdates(s: Store, t: Store, pay: SpRef, dist: SpRef, id: nat, total: real, currency: string, cap: nat)
    requires UpdatesTo(s, t, pay, dist)
    ensures UpdatesTo(s, Recomputed(t, pay, dist, id, total, currency, cap), pay, dist)
  {
    hide UpdatesTo, Exec, NeedRecomputeCall, Remaining;
    OneMore(s, t, Recomputed(t, pay, dist, id, total, currency, cap), pay, dist,
            RemainderWritten(id, Remaining(t, dist, id, total, currency, cap)));
  }

  lemma ParentUpdates(s: Store, t: Store, pay: SpRef, dist: SpRef, parent: real, manual: bool, cap: nat)
    requires UpdatesTo(s, t, pay, dist)
    ensures UpdatesTo(s, ParentRecomputed(t, pay, dist, parent, manual, cap), pay, dist)
  {
    hide UpdatesTo, Exec, RequiresRedistributionCall, Recomputed, Found, ParsePaymentTotal;
    var found := Found(t, PaymentReadCall(pay, parent));
    if found != [] {
      var total := ParsePaymentTotal(found[0], pay);
      RecomputeUpdates(s, t, pay, dist, found[0].id, total.total, total.currency, cap);
      if manual {
        var u := Recomputed(t, pay, dist, found[0].id, total.total, total.currency, cap);
        OneMore(s, u, ParentRecomputed(t, pay, dist, parent, manual, cap), pay, dist, Flagged(found[0].id, true));
      }
    }
  }

  lemma {:induction false} ParentsUpdate(s: Store, t: Store, pay: SpRef, dist: SpRef, parents: seq<real>, manual: set<real>, cap: nat, n: nat)
    requires n <= |parents| && UpdatesTo(s, t, pay, dist)
    ensures UpdatesTo(s, ParentsRecomputed(t, pay, dist, parents, manual, cap, n), pay, dist)
  {
    hide UpdatesTo, ParentRecomputed;
    if n > 0 {
      ParentsUpdate(s, t, pay, dist, parents, manual, cap, n - 1);
      ParentUpdates(s, ParentsRecomputed(t, pay, dist, parents, manual, cap, n - 1), pay, dist, parents[n - 1], parents[n - 1] in manual, cap);
    }
  }

  lemma {:induction false} CarriersUpdate(s: Store, pay: SpRef, dist: SpRef, carriers: seq<Carrier>, cap: nat, n: nat)
    requires n <= |carriers|
    ensures UpdatesTo(s, CarriersRecomputed(s, pay, dist, carriers, cap, n), pay, dist)
  {
    hide UpdatesTo, Recomputed;
    if n == 0 {
      NoUpdate(s, pay, dist);
    } else {
      var c := carriers[n - 1];
      CarriersUpdate(s, pay, dist, carriers, cap, n - 1);
      RecomputeUpdates(s, CarriersRecomputed(s, pay, dist, carriers, cap, n - 1), pay, dist, c.id, c.total, c.currency, cap);
    }
  }

  /** Freeing a target and recomputing all payments are runs of updates alone. */
  lemma OthersOnlyUpdate(s: Store, pay: SpRef, dist: SpRef, targetKind: string, targetId: string, cap: nat, limit: nat)
    ensures UpdatesTo(s, TargetFreed(s, pay, dist, targetKind, targetId, cap), pay, dist)
    ensures UpdatesTo(s, AllRecomputed(s, pay, dist, cap, limit), pay, dist)
  {
    hide UpdatesTo, Deactivated, ParentsRecomputed, CarriersRecomputed, Parents, ManualParents, TargetRefs, NewestCarriers;
    var refs := TargetRefs(Loaded(TargetRows(s, dist, targetKind, targetId), cap), dist);
    var parents := Parents(refs, |refs|);
    DeactivatingUpdates(s, pay, dist, refs, |refs|);
    ParentsUpdate(s, Deactivated(s, dist, refs, |refs|), pay, dist, parents, ManualParents(refs, |refs|), cap, |parents|);
    var carriers := NewestCarriers(s, pay, limit);
    CarriersUpdate(s, pay, dist, carriers, cap, |carriers|);
  }
}
