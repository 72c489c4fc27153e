/** Which CRM target a payment closes (app/utils/allocation.ts): eligible candidates, equal targets
    collapsed, the smallest id chosen, more than one target flagged. Amounts are exact here; that
    comparing minor units is exact on doubles is `Money.MinorUnitsCompareExactly`. */
module Allocation {
  import opened Outcome
  import opened Ordering
  import opened Text
  import opened Numerals

  datatype Kind = Invoice | DealPayment | Deal | SmartProcess

  /** A candidate; an absent deal or account number is the empty string. */
  datatype Candidate = Candidate(kind: Kind, id: string, amount: real, currency: string, dealId: string, accountNumber: string)

  datatype Payment = Payment(amount: real, currency: string)

  predicate IsAmountTarget(kind: Kind)
  {
    kind == Invoice || kind == DealPayment
  }

  function ToMinorUnits(amount: real): int
  {
    (amount * 100.0 + 0.5).Floor
  }

  /** `upper` is `toUpperCase`. */
  predicate SameCurrency(upper: string -> string, a: string, b: string)
  {
    upper(Trim(a)) == upper(Trim(b))
  }

  predicate IsEligible(upper: string -> string, p: Payment, c: Candidate)
  {
    SameCurrency(upper, p.currency, c.currency) && ToMinorUnits(p.amount) == ToMinorUnits(c.amount)
  }

  /** Both amounts lie within half a cent of this many cents (above, short of it). */
  predicate BothAre(cents: int, a: real, b: real)
  {
    && cents as real <= a * 100.0 + 0.5 < (cents + 1) as real
    && cents as real <= b * 100.0 + 0.5 < (cents + 1) as real
  }

  /** The payment's currency, however padded and cased, and its cents. */
  ghost predicate Matches(upper: string -> string, p: Payment, c: Candidate)
  {
    upper(Trim(c.currency)) == upper(Trim(p.currency)) && exists cents :: BothAre(cents, p.amount, c.amount)
  }

  /** A candidate is eligible exactly when currency and cents are the payment's. */
  lemma EligibleMatches(upper: string -> string, p: Payment, c: Candidate)
    ensures IsEligible(upper, p, c) <==> Matches(upper, p, c)
  {
    hide Trim, ToMinorUnits, BothAre;
    SameCents(p.amount, c.amount);
  }

  lemma SameCents(a: real, b: real)
    ensures ToMinorUnits(a) == ToMinorUnits(b) <==> exists cents :: BothAre(cents, a, b)
  {
    hide ToMinorUnits;
    CentsLie(a, ToMinorUnits(a));
    CentsLie(b, ToMinorUnits(b));
    if ToMinorUnits(a) == ToMinorUnits(b) {
      assert BothAre(ToMinorUnits(a), a, b);
    }
    if cents :| BothAre(cents, a, b) {
      CentsLie(a, cents);
      CentsLie(b, cents);
    }
  }

  lemma CentsLie(a: real, cents: int)
    ensures ToMinorUnits(a) == cents <==> cents as real <= a * 100.0 + 0.5 < (cents + 1) as real
  {
    FloorLies(a * 100.0 + 0.5, cents);
  }

  lemma FloorLies(x: real, n: int)
    ensures x.Floor == n <==> n as real <= x < (n + 1) as real
  {
  }

  function Distance(a: real, b: real): real
  {
    if a < b then b - a else a - b
  }

  predicate WholeCents(a: real)
  {
    a * 100.0 == (a * 100.0).Floor as real
  }

  /** Such amounts are less than a cent apart, and equal if they are of whole cents. */
  lemma MatchesNear(upper: string -> string, p: Payment, c: Candidate)
    requires Matches(upper, p, c)
    ensures Distance(p.amount, c.amount) < 0.01
    ensures WholeCents(p.amount) && WholeCents(c.amount) ==> p.amount == c.amount
  {
    hide Trim;
    var cents :| BothAre(cents, p.amount, c.amount);
    var x, y := (p.amount * 100.0).Floor, (c.amount * 100.0).Floor;
    if WholeCents(p.amount) && WholeCents(c.amount) {
      assert x == cents && y == cents;
    }
  }

  // ---- Collapsing equal targets

  /** An invoice of the list stands for this deal. */
  predicate InvoiceCovers(candidates: seq<Candidate>, dealId: string)
  {
    dealId != "" && exists k :: 0 <= k < |candidates| && candidates[k].kind == Invoice && candidates[k].dealId == dealId
  }

  predicate Covered(candidates: seq<Candidate>, c: Candidate)
  {
    c.kind == DealPayment && InvoiceCovers(candidates, c.dealId)
  }

  predicate Repeats(kept: seq<Candidate>, c: Candidate)
  {
    exists k :: 0 <= k < |kept| && kept[k].kind == c.kind && kept[k].id == c.id
  }

  /** The first `n` candidates collapsed, against the invoices of the whole list. */
  function Collapse(candidates: seq<Candidate>, n: nat): seq<Candidate>
    requires n <= |candidates|
  {
    if n == 0 then []
    else
      var kept, c := Collapse(candidates, n - 1), candidates[n - 1];
      if Covered(candidates, c) || Repeats(kept, c) then kept else kept + [c]
  }

  function CollapseSameTarget(candidates: seq<Candidate>): seq<Candidate>
  {
    Collapse(candidates, |candidates|)
  }

  method CollapseTargets(candidates: seq<Candidate>) returns (kept: seq<Candidate>)
    ensures kept == CollapseSameTarget(candidates)
  {
    var invoiceDeals := set k | 0 <= k < |candidates| && candidates[k].kind == Invoice && candidates[k].dealId != "" :: candidates[k].dealId;
    kept := [];
    for i := 0 to |candidates|
      invariant kept == Collapse(candidates, i)
    {
      var c := candidates[i];
      if c.kind == DealPayment && c.dealId != "" && c.dealId in invoiceDeals {
        assert Covered(candidates, c);
        continue;
      }
      assert !Covered(candidates, c);
      if Repeats(kept, c) {
        continue;
      }
      kept := kept + [c];
    }
  }

  /** What names a target. */
  datatype Key = Key(kind: Kind, id: string)

  function KeyOf(c: Candidate): Key
  {
    Key(c.kind, c.id)
  }

  /** The distinct targets of a list: every candidate no invoice covers, by kind and id. */
  ghost function Survivors(candidates: seq<Candidate>): set<Key>
  {
    set c | c in candidates && !Covered(candidates, c) :: KeyOf(c)
  }

  ghost function Keys(list: seq<Candidate>): set<Key>
  {
    set c | c in list :: KeyOf(c)
  }

  ghost predicate DistinctTargets(list: seq<Candidate>)
  {
    forall i, j :: 0 <= i < j < |list| ==> KeyOf(list[i]) != KeyOf(list[j])
  }

  lemma {:induction false} CollapseKeeps(candidates: seq<Candidate>, n: nat)
    requires n <= |candidates|
    ensures DistinctTargets(Collapse(candidates, n))
    ensures forall c :: c in Collapse(candidates, n) ==> c in candidates[..n] && !Covered(candidates, c)
    ensures forall c :: c in candidates[..n] && !Covered(candidates, c) ==> KeyOf(c) in Keys(Collapse(candidates, n))
  {
    hide Covered;
    if n > 0 {
      CollapseKeeps(candidates, n - 1);
      var kept, c := Collapse(candidates, n - 1), candidates[n - 1];
      assert candidates[..n] == candidates[..n - 1] + [c];
      if Repeats(kept, c) {
        var k :| 0 <= k < |kept| && kept[k].kind == c.kind && kept[k].id == c.id;
        assert KeyOf(kept[k]) == KeyOf(c) && kept[k] in kept;
      } else {
        assert forall d :: d in kept ==> d in kept + [c];
        assert c in kept + [c];
      }
    }
  }

  /** Collapsing keeps one candidate per distinct target: those no invoice covers, each once. */
  lemma CollapsedExactly(candidates: seq<Candidate>)
    ensures var kept := CollapseSameTarget(candidates);
            && DistinctTargets(kept) && Keys(kept) == Survivors(candidates) && |kept| == |Survivors(candidates)|
            && forall c :: c in kept ==> c in candidates
  {
    hide Covered;
    var kept := CollapseSameTarget(candidates);
    CollapseKeeps(candidates, |candidates|);
    assert candidates[..|candidates|] == candidates;
    assert Keys(kept) == Survivors(candidates);
    KeysCount(kept);
  }

  /** A target stays exactly when some candidate naming it is no payment of a deal that one of the invoices
      belongs to. A deal that is not given covers nothing. */
  lemma KeptExactly(candidates: seq<Candidate>, key: Key)
    ensures key in Keys(CollapseSameTarget(candidates)) <==>
            exists c :: c in candidates && c.kind == key.kind && c.id == key.id
                        && !(c.kind == DealPayment && c.dealId != ""
                             && exists i :: i in candidates && i.kind == Invoice && i.dealId == c.dealId)
  {
    hide Covered, CollapseSameTarget;
    CollapsedExactly(candidates);
    forall c | c in candidates
      ensures Covered(candidates, c) <==> c.kind == DealPayment && c.dealId != ""
                                          && exists i :: i in candidates && i.kind == Invoice && i.dealId == c.dealId
    {
      CoveredMeans(candidates, c);
    }
    assert key in Survivors(candidates) <==> exists c :: c in candidates && !Covered(candidates, c) && c.kind == key.kind && c.id == key.id by {
      if c :| c in candidates && !Covered(candidates, c) && c.kind == key.kind && c.id == key.id {
        assert KeyOf(c) == key;
      }
    }
  }

  lemma CoveredMeans(candidates: seq<Candidate>, c: Candidate)
    ensures Covered(candidates, c) <==> c.kind == DealPayment && c.dealId != ""
                                        && exists i :: i in candidates && i.kind == Invoice && i.dealId == c.dealId
  {
    if c.kind == DealPayment && c.dealId != "" {
      if i :| i in candidates && i.kind == Invoice && i.dealId == c.dealId {
        var k :| 0 <= k < |candidates| && candidates[k] == i;
      }
    }
  }

  lemma {:induction false} KeysCount(list: seq<Candidate>)
    requires DistinctTargets(list)
    ensures |Keys(list)| == |list|
  {
    if list == [] {
      assert Keys(list) == {};
    } else {
      var n := |list| - 1;
      KeysCount(list[..n]);
      assert list == list[..n] + [list[n]];
      assert Keys(list) == Keys(list[..n]) + {KeyOf(list[n])};
      forall c | c in list[..n] ensures KeyOf(c) != KeyOf(list[n]) {
      }
    }
  }

  /** A list with a candidate in it still has one after collapsing: an invoice is never covered, and
      without invoices nothing is. */
  lemma SomethingSurvives(candidates: seq<Candidate>)
    requires candidates != []
    ensures CollapseSameTarget(candidates) != [] && Survivors(candidates) != {}
  {
    var c := SomeUncovered(candidates);
    assert KeyOf(c) in Survivors(candidates);
    CollapsedExactly(candidates);
  }

  lemma SomeUncovered(candidates: seq<Candidate>) returns (c: Candidate)
    requires candidates != []
    ensures c in candidates && !Covered(candidates, c)
  {
    c := candidates[0];
    if Covered(candidates, c) {
      var k :| 0 <= k < |candidates| && candidates[k].kind == Invoice && candidates[k].dealId == c.dealId;
      c := candidates[k];
    }
  }

  // ---- Comparing ids

  /** ECMAScript's comparison of two ids: as numbers when both are finite ones that differ, else as
      strings. `number` is `Number`, where finite. */
  function CompareIds(number: string -> Option<real>, a: string, b: string): int
  {
    var na, nb := number(a), number(b);
    if na.Some? && nb.Some? && na.value != nb.value then if na.value < nb.value then -1 else 1
    else if StrLess(a, b) then -1
    else if StrLess(b, a) then 1
    else 0
  }

  predicate Before(number: string -> Option<real>, a: string, b: string)
  {
    CompareIds(number, a, b) < 0
  }

  lemma BeforeFacts(number: string -> Option<real>, a: string, b: string)
    ensures CompareIds(number, a, b) > 0 <==> Before(number, b, a)
    ensures CompareIds(number, a, b) == 0 <==> a == b
    ensures !(Before(number, a, b) && Before(number, b, a)) && !Before(number, a, a)
  {
    hide StrLess;
    StrTrichotomy(a, b);
    StrTrichotomy(a, a);
  }

  /** `t` is no number and stands, as text, between two numbers whose texts are in the other order. */
  predicate Straddles(number: string -> Option<real>, t: string, a: string, b: string)
  {
    && number(t).None? && number(a).Some? && number(b).Some? && number(a).value < number(b).value
    && StrLess(b, t) && StrLess(t, a)
  }

  ghost predicate Comparable(number: string -> Option<real>, ids: set<string>)
  {
    forall t, a, b :: t in ids && a in ids && b in ids ==> !Straddles(number, t, a, b)
  }

  /** A circle of three is one number, a greater one, and a text between them. */
  lemma Circle(number: string -> Option<real>, a: string, b: string, c: string)
    requires Before(number, a, b) && Before(number, b, c) && !Before(number, a, c)
    ensures Straddles(number, c, a, b) || Straddles(number, a, b, c) || Straddles(number, b, c, a)
  {
    hide StrLess;
    StrTrichotomy(a, b);
    StrTrichotomy(b, c);
    StrTrichotomy(a, c);
    if StrLess(a, b) && StrLess(b, c) {
      StrTransitive(a, b, c);
    }
    if StrLess(b, c) && StrLess(c, a) {
      StrTransitive(b, c, a);
    }
    if StrLess(c, a) && StrLess(a, b) {
      StrTransitive(c, a, b);
    }
  }

  /** The comparison orders a set of ids, whatever their length, exactly when no text among them stands
      between two numbers that are in the other order as texts. */
  lemma CompareIsOrder(number: string -> Option<real>, ids: set<string>)
    ensures Comparable(number, ids) <==>
            forall a, b, c :: a in ids && b in ids && c in ids && Before(number, a, b) && Before(number, b, c) ==> Before(number, a, c)
  {
    hide Straddles, StrLess, CompareIds;
    if Comparable(number, ids) {
      forall a, b, c | a in ids && b in ids && c in ids && Before(number, a, b) && Before(number, b, c)
        ensures Before(number, a, c)
      {
        if !Before(number, a, c) {
          Circle(number, a, b, c);
          assert false;
        }
      }
    } else {
      var t, a, b :| t in ids && a in ids && b in ids && Straddles(number, t, a, b);
      StraddlesIsCircle(number, t, a, b);
      BeforeFacts(number, a, t);
    }
  }

  lemma StraddlesIsCircle(number: string -> Option<real>, t: string, a: string, b: string)
    requires Straddles(number, t, a, b)
    ensures Before(number, a, b) && Before(number, b, t) && Before(number, t, a)
  {
    hide StrLess;
  }

  /** All numbers, or none: both kinds of list are in order. */
  lemma UniformComparable(number: string -> Option<real>, ids: set<string>)
    requires (forall id :: id in ids ==> number(id).Some?) || (forall id :: id in ids ==> number(id).None?)
    ensures Comparable(number, ids)
  {
  }

  lemma NotAfter(number: string -> Option<real>, ids: set<string>, a: string, b: string, c: string)
    requires Comparable(number, ids) && a in ids && b in ids && c in ids
    requires !Before(number, b, a) && !Before(number, c, b)
    ensures !Before(number, c, a)
  {
    hide CompareIds, Comparable;
    CompareIsOrder(number, ids);
    BeforeFacts(number, a, b);
    BeforeFacts(number, b, c);
    BeforeFacts(number, a, c);
  }

  /** On other ids it is not: three ids in a circle. */
  lemma MixedIdsCircle(number: string -> Option<real>)
    requires number("10") == Some(10.0) && number("9") == Some(9.0) && number("1a") == None
    ensures Straddles(number, "1a", "9", "10") && !Comparable(number, {"9", "10", "1a"})
    ensures Before(number, "10", "1a") && Before(number, "1a", "9") && Before(number, "9", "10")
  {
    assert StrLess("10"[1..], "1a"[1..]);
    assert StrLess("1a", "9");
    StraddlesIsCircle(number, "1a", "9", "10");
  }

  // ---- Ids as the numbers they spell

  /** Digits that `Number` reads as some number. */
  predicate ReadDigits(number: string -> Option<real>, id: string)
  {
    id != "" && Digits(id) && number(id).Some?
  }

  /** By the number spelled, then by text. */
  predicate IdLess(a: string, b: string)
    requires Digits(a) && Digits(b)
  {
    Value(a) < Value(b) || (Value(a) == Value(b) && StrLess(a, b))
  }

  /** `Number` rounds, and so never reads the greater of two numbers as the less. */
  ghost predicate ReadsMonotone(number: string -> Option<real>)
  {
    forall a, b :: ReadDigits(number, a) && ReadDigits(number, b) && Value(a) <= Value(b) ==> number(a).value <= number(b).value
  }

  /** Two ids spell different numbers, read alike, and stand as texts in the other order. */
  predicate Confused(number: string -> Option<real>, a: string, b: string)
    requires ReadDigits(number, a) && ReadDigits(number, b)
  {
    number(a) == number(b) && Value(a) < Value(b) && StrLess(b, a)
  }

  /** Two ids of digits are in the order of the numbers they spell exactly when they are not confused. */
  lemma NumberOrderExactly(number: string -> Option<real>, a: string, b: string)
    requires ReadsMonotone(number) && ReadDigits(number, a) && ReadDigits(number, b)
    ensures !Confused(number, a, b) && !Confused(number, b, a) <==>
            (Before(number, a, b) <==> IdLess(a, b)) && (Before(number, b, a) <==> IdLess(b, a))
  {
    hide StrLess, Value, Digits;
    StrTrichotomy(a, b);
    assert Value(a) <= Value(b) ==> number(a).value <= number(b).value;
    assert Value(b) <= Value(a) ==> number(b).value <= number(a).value;
  }

  function Repeated(c: char, n: nat): string
  {
    if n == 0 then "" else Repeated(c, n - 1) + [c]
  }

  lemma DigitNext(t: string, c: char)
    requires Digits(t) && '0' <= c <= '9'
    ensures Digits(t + [c]) && Value(t + [c]) == 10 * Value(t) + (c - '0') as nat
  {
    assert (t + [c])[..|t|] == t;
  }

  lemma {:induction false} Nines(n: nat)
    ensures |Repeated('9', n)| == n && Digits(Repeated('9', n)) && Value(Repeated('9', n)) == Pow10(n) - 1
    ensures n > 0 ==> Repeated('9', n)[0] == '9'
  {
    hide Digits;
    if n == 0 {
      NoDigits();
    } else {
      Nines(n - 1);
      DigitNext(Repeated('9', n - 1), '9');
    }
  }

  lemma NoDigits()
    ensures Digits("") && Digits("1") && Value("1") == 1
  {
    assert "1"[..0] == "";
  }

  lemma {:induction false} Zeros(n: nat)
    ensures |Repeated('0', n)| == n && Digits("1" + Repeated('0', n)) && Value("1" + Repeated('0', n)) == Pow10(n)
  {
    hide Digits, Value;
    if n == 0 {
      NoDigits();
      assert "1" + Repeated('0', 0) == "1";
    } else {
      Zeros(n - 1);
      DigitNext("1" + Repeated('0', n - 1), '0');
      assert "1" + Repeated('0', n) == "1" + Repeated('0', n - 1) + ['0'];
    }
  }

  lemma {:induction false} PowersAdd(m: nat, n: nat)
    ensures Pow10(m + n) == Pow10(m) * Pow10(n)
  {
    if n > 0 {
      PowersAdd(m, n - 1);
    }
  }

  const SIXTEEN := Repeated('9', 16)
  const SEVENTEEN := "1" + Repeated('0', 16)

  lemma SixteenValues()
    ensures Digits(SIXTEEN) && Digits(SEVENTEEN) && |SIXTEEN| == 16 && |SEVENTEEN| == 17 && SIXTEEN[0] == '9' && SEVENTEEN[0] == '1'
    ensures Value(SIXTEEN) == 9999999999999999 && Value(SEVENTEEN) == 10000000000000000
  {
    hide Value, Digits, Repeated;
    Nines(16);
    Zeros(16);
    assert Pow10(1) == 10 && Pow10(2) == 100;
    PowersAdd(2, 2);
    PowersAdd(4, 4);
    PowersAdd(8, 8);
  }

  /** Past the exact numbers they are: of these two, read alike, the greater one is allocated. */
  lemma SixteenDigitsConfused(number: string -> Option<real>, upper: string -> string)
    requires number(SIXTEEN) == number(SEVENTEEN) == Some(10000000000000000.0)
    ensures Digits(SIXTEEN) && Digits(SEVENTEEN) && Value(SIXTEEN) == 9999999999999999 && Value(SEVENTEEN) == 10000000000000000
    ensures Confused(number, SIXTEEN, SEVENTEEN)
    ensures var less := Candidate(Invoice, SIXTEEN, 1.0, "", "", "");
            var greater := Candidate(Invoice, SEVENTEEN, 1.0, "", "", "");
            ResolveAllocation(number, upper, Payment(1.0, ""), [less, greater]) == Allocate(greater, true, [less])
  {
    hide CompareIds, Eligible, CollapseSameTarget;
    SixteenValues();
    var less := Candidate(Invoice, SIXTEEN, 1.0, "", "", "");
    var greater := Candidate(Invoice, SEVENTEEN, 1.0, "", "", "");
    TwoEligible(upper, less, greater);
    assert SIXTEEN[0] == '9' && SEVENTEEN[0] == '1';
    TwoDistinctCollapsed(less, greater);
    assert Before(number, SEVENTEEN, SIXTEEN) by { ByText(number, SEVENTEEN, SIXTEEN); }
    TwoSwapped(number, less, greater);
  }

  lemma ByText(number: string -> Option<real>, a: string, b: string)
    requires number(a) == number(b) && StrLess(a, b)
    ensures Before(number, a, b)
  {
    hide StrLess;
  }

  lemma TwoSwapped(number: string -> Option<real>, a: Candidate, b: Candidate)
    requires Before(number, b.id, a.id)
    ensures Ranked(number, [a, b]) == [b, a]
  {
    hide Before;
    SortedTwo(a, b, ById(number));
  }

  // ---- Ranking

  function ById(number: string -> Option<real>): (Candidate, Candidate) -> bool
  {
    (a: Candidate, b: Candidate) => Before(number, a.id, b.id)
  }

  /** The stable sort by id. */
  function Ranked(number: string -> Option<real>, list: seq<Candidate>): seq<Candidate>
  {
    Sorted(list, ById(number))
  }

  ghost predicate IdsIn(list: seq<Candidate>, ids: set<string>)
  {
    forall c :: c in list ==> c.id in ids
  }

  lemma RankedSame(number: string -> Option<real>, list: seq<Candidate>)
    ensures multiset(Ranked(number, list)) == multiset(list)
    ensures forall c :: c in Ranked(number, list) <==> c in list
  {
    SortedSame(list, ById(number));
  }

  lemma RankedAscends(number: string -> Option<real>, list: seq<Candidate>, ids: set<string>)
    requires Comparable(number, ids) && IdsIn(list, ids)
    ensures Ascending(Ranked(number, list), ById(number))
  {
    hide CompareIds, Comparable, Before;
    forall a, b | a in list && b in list ensures !(Before(number, a.id, b.id) && Before(number, b.id, a.id)) {
      BeforeFacts(number, a.id, b.id);
    }
    forall a, b, c | a in list && b in list && c in list && !Before(number, b.id, a.id) && !Before(number, c.id, b.id)
      ensures !Before(number, c.id, a.id)
    {
      NotAfter(number, ids, a.id, b.id, c.id);
    }
    SortedAscends(list, ById(number));
  }

  /** A first candidate that nothing precedes by its id stays first. */
  lemma RankedKeepsFirst(number: string -> Option<real>, list: seq<Candidate>)
    requires list != [] && forall c :: c in list ==> !Before(number, c.id, list[0].id)
    ensures Ranked(number, list) != [] && Ranked(number, list)[0] == list[0]
  {
    hide Before;
    SortedKeepsFirst(list, ById(number));
  }

  // ---- The decision

  datatype Decision =
    | Allocate(target: Candidate, ambiguous: bool, alternatives: seq<Candidate>)
    | NoCandidates
    | NoExactMatch(candidates: seq<Candidate>)

  function Eligible(upper: string -> string, p: Payment, candidates: seq<Candidate>): seq<Candidate>
  {
    if candidates == [] then []
    else
      var n := |candidates| - 1;
      Eligible(upper, p, candidates[..n]) + if IsEligible(upper, p, candidates[n]) then [candidates[n]] else []
  }

  lemma {:induction false} EligibleMembers(upper: string -> string, p: Payment, candidates: seq<Candidate>)
    ensures forall c :: c in Eligible(upper, p, candidates) <==> c in candidates && IsEligible(upper, p, c)
  {
    hide IsEligible;
    if candidates != [] {
      var n := |candidates| - 1;
      EligibleMembers(upper, p, candidates[..n]);
      assert candidates == candidates[..n] + [candidates[n]];
    }
  }

  /** The distinct targets in the order of their ids. */
  function RankTargets(number: string -> Option<real>, eligible: seq<Candidate>): (ranked: seq<Candidate>)
    requires eligible != []
    ensures ranked != []
  {
    var kept := CollapseSameTarget(eligible);
    SomethingSurvives(eligible);
    RankedSame(number, kept);
    assert kept[0] in kept;
    Ranked(number, kept)
  }

  function ResolveAllocation(number: string -> Option<real>, upper: string -> string, p: Payment, candidates: seq<Candidate>): Decision
  {
    var eligible := Eligible(upper, p, candidates);
    if eligible == [] then if candidates == [] then NoCandidates else NoExactMatch(candidates)
    else
      var ranked := RankTargets(number, eligible);
      Allocate(ranked[0], |ranked| > 1, ranked[1..])
  }

  ghost function IdsOf(keys: set<Key>): set<string>
  {
    set key | key in keys :: key.id
  }

  /** One of the ids, and none of them comes before it. */
  ghost predicate LeastId(number: string -> Option<real>, id: string, keys: set<Key>)
  {
    id in IdsOf(keys) && forall other :: other in IdsOf(keys) ==> !Before(number, other, id)
  }

  /** The decision: nothing without candidates, by hand without an exact match, and else one of the
      distinct eligible targets, flagged exactly when there is more than one; it is the one of least id
      whenever their ids are comparable. */
  lemma ResolvedExactly(number: string -> Option<real>, upper: string -> string, p: Payment, candidates: seq<Candidate>)
    ensures var d, eligible := ResolveAllocation(number, upper, p, candidates), Eligible(upper, p, candidates);
            && (d.NoCandidates? <==> candidates == [])
            && (d.NoExactMatch? <==> candidates != [] && eligible == [])
            && (d.NoExactMatch? ==> d.candidates == candidates)
            && (d.Allocate? ==>
                  && d.target in eligible && !Covered(eligible, d.target)
                  && (d.ambiguous <==> |Survivors(eligible)| > 1)
                  && Keys([d.target] + d.alternatives) == Survivors(eligible)
                  && (Comparable(number, IdsOf(Survivors(eligible))) ==> LeastId(number, d.target.id, Survivors(eligible))))
  {
    hide Before, Comparable, Ranked, CollapseSameTarget, Survivors, IsEligible, Covered, LeastId;
    var eligible := Eligible(upper, p, candidates);
    EligibleMembers(upper, p, candidates);
    if eligible != [] {
      var kept := CollapseSameTarget(eligible);
      SomethingSurvives(eligible);
      CollapsedExactly(eligible);
      KeptUncovered(eligible);
      var ranked := Ranked(number, kept);
      RankedSame(number, kept);
      SameLength(ranked, kept);
      assert [ranked[0]] + ranked[1..] == ranked;
      SameKeys(ranked, kept);
      assert ranked[0] in ranked;
      if Comparable(number, IdsOf(Survivors(eligible))) {
        KeysIds(kept);
        RankedAscends(number, kept, IdsOf(Survivors(eligible)));
        FirstLeast(number, ranked);
      }
    }
  }

  /** The decision by currency and cents alone: a payment is allocated if and only if some candidate has
      both, and only to such; without one it is left to a person, with all the candidates. */
  lemma DecidedByMoney(number: string -> Option<real>, upper: string -> string, p: Payment, candidates: seq<Candidate>)
    ensures var d := ResolveAllocation(number, upper, p, candidates);
            && (d.Allocate? <==> exists c :: c in candidates && Matches(upper, p, c))
            && (d.NoExactMatch? <==> candidates != [] && forall c :: c in candidates ==> !Matches(upper, p, c))
            && (d.Allocate? ==>
                  && (forall c :: c in [d.target] + d.alternatives ==>
                        c in candidates && Matches(upper, p, c) && Distance(p.amount, c.amount) < 0.01)
                  && (forall c :: c in candidates && Matches(upper, p, c) && c.kind != DealPayment ==>
                        KeyOf(c) in Keys([d.target] + d.alternatives)))
  {
    hide Trim, IsEligible, Matches, Eligible, Covered, CollapseSameTarget, Survivors, Comparable, LeastId, Ranked, ResolveAllocation;
    EligibleMembers(upper, p, candidates);
    forall c ensures IsEligible(upper, p, c) <==> Matches(upper, p, c) {
      EligibleMatches(upper, p, c);
    }
    ResolvedExactly(number, upper, p, candidates);
    var d, eligible := ResolveAllocation(number, upper, p, candidates), Eligible(upper, p, candidates);
    if eligible != [] {
      assert eligible[0] in eligible;
    }
    if d.Allocate? {
      NamedAreEligible(number, upper, p, candidates);
      forall c | c in [d.target] + d.alternatives ensures Distance(p.amount, c.amount) < 0.01 {
        MatchesNear(upper, p, c);
      }
      forall c | c in candidates && Matches(upper, p, c) && c.kind != DealPayment ensures KeyOf(c) in Keys([d.target] + d.alternatives) {
        NotDealPaymentSurvives(eligible, c);
      }
    }
  }

  lemma NamedAreEligible(number: string -> Option<real>, upper: string -> string, p: Payment, candidates: seq<Candidate>)
    requires ResolveAllocation(number, upper, p, candidates).Allocate?
    ensures var d := ResolveAllocation(number, upper, p, candidates);
            forall c :: c in [d.target] + d.alternatives ==> c in Eligible(upper, p, candidates)
  {
    hide IsEligible, Covered, CollapseSameTarget, Ranked, Eligible;
    var eligible := Eligible(upper, p, candidates);
    var kept := CollapseSameTarget(eligible);
    SomethingSurvives(eligible);
    KeptUncovered(eligible);
    RankedSame(number, kept);
    var ranked := Ranked(number, kept);
    assert [ranked[0]] + ranked[1..] == ranked;
  }

  lemma NotDealPaymentSurvives(list: seq<Candidate>, c: Candidate)
    requires c in list && c.kind != DealPayment
    ensures KeyOf(c) in Survivors(list)
  {
    assert !Covered(list, c);
  }

  lemma KeptUncovered(candidates: seq<Candidate>)
    ensures forall c :: c in CollapseSameTarget(candidates) ==> c in candidates && !Covered(candidates, c)
  {
    hide Covered;
    CollapseKeeps(candidates, |candidates|);
    assert candidates[..|candidates|] == candidates;
  }

  lemma SameKeys(a: seq<Candidate>, b: seq<Candidate>)
    requires forall c :: c in a <==> c in b
    ensures Keys(a) == Keys(b)
  {
  }

  lemma KeysIds(list: seq<Candidate>)
    ensures IdsIn(list, IdsOf(Keys(list)))
  {
    forall c | c in list ensures c.id in IdsOf(Keys(list)) {
      assert KeyOf(c) in Keys(list);
    }
  }

  lemma FirstLeast(number: string -> Option<real>, ranked: seq<Candidate>)
    requires Ascending(ranked, ById(number)) && ranked != []
    ensures LeastId(number, ranked[0].id, Keys(ranked))
  {
    hide Before;
    assert ranked[0] in ranked;
    KeysIds(ranked);
    forall other | other in IdsOf(Keys(ranked)) ensures !Before(number, other, ranked[0].id) {
      var key :| key in Keys(ranked) && key.id == other;
      var c :| c in ranked && KeyOf(c) == key;
      var k :| 0 <= k < |ranked| && ranked[k] == c;
      BeforeFacts(number, other, other);
    }
  }

  lemma LeastUnique(number: string -> Option<real>, a: string, b: string, keys: set<Key>)
    requires LeastId(number, a, keys) && LeastId(number, b, keys)
    ensures a == b
  {
    hide CompareIds;
    BeforeFacts(number, a, b);
  }

  /** With ids read for exactly what they spell, the target has the least number of all. */
  lemma LeastNumber(number: string -> Option<real>, upper: string -> string, p: Payment, candidates: seq<Candidate>)
    requires forall c :: c in candidates ==> ReadDigits(number, c.id) && number(c.id).value == Value(c.id) as real
    ensures var d, eligible := ResolveAllocation(number, upper, p, candidates), Eligible(upper, p, candidates);
            d.Allocate? ==> forall key :: key in Survivors(eligible) ==> Digits(key.id) && Digits(d.target.id) && Value(d.target.id) <= Value(key.id)
  {
    hide ResolveAllocation, StrLess, Value, Digits, Covered, Eligible, IsEligible;
    var d, eligible := ResolveAllocation(number, upper, p, candidates), Eligible(upper, p, candidates);
    ResolvedExactly(number, upper, p, candidates);
    EligibleMembers(upper, p, candidates);
    UniformComparable(number, IdsOf(Survivors(eligible)));
    if d.Allocate? {
      forall key | key in Survivors(eligible) ensures Digits(key.id) && Digits(d.target.id) && Value(d.target.id) <= Value(key.id) {
        assert key.id in IdsOf(Survivors(eligible));
      }
    }
  }

  // ---- What the order of the search cannot change

  /** The same candidates, in any order and any number of times. */
  ghost predicate SameCandidates(a: seq<Candidate>, b: seq<Candidate>)
  {
    forall c :: c in a <==> c in b
  }

  lemma SameCover(a: seq<Candidate>, b: seq<Candidate>, c: Candidate)
    requires SameCandidates(a, b)
    ensures Covered(a, c) <==> Covered(b, c)
  {
    if Covered(a, c) {
      var k :| 0 <= k < |a| && a[k].kind == Invoice && a[k].dealId == c.dealId;
      assert a[k] in b;
      var j :| 0 <= j < |b| && b[j] == a[k];
    }
    if Covered(b, c) {
      var k :| 0 <= k < |b| && b[k].kind == Invoice && b[k].dealId == c.dealId;
      assert b[k] in a;
      var j :| 0 <= j < |a| && a[j] == b[k];
    }
  }

  lemma SameSurvivors(a: seq<Candidate>, b: seq<Candidate>)
    requires SameCandidates(a, b)
    ensures Survivors(a) == Survivors(b)
  {
    hide Covered;
    forall c ensures Covered(a, c) <==> Covered(b, c) {
      SameCover(a, b, c);
    }
  }

  lemma SameEmpty(a: seq<Candidate>, b: seq<Candidate>)
    requires SameCandidates(a, b)
    ensures a == [] <==> b == []
  {
    if a != [] {
      assert a[0] in b;
    }
    if b != [] {
      assert b[0] in a;
    }
  }

  lemma SameEligible(upper: string -> string, p: Payment, a: seq<Candidate>, b: seq<Candidate>)
    requires SameCandidates(a, b)
    ensures SameCandidates(Eligible(upper, p, a), Eligible(upper, p, b))
  {
    hide IsEligible, Eligible;
    EligibleMembers(upper, p, a);
    EligibleMembers(upper, p, b);
  }

  /** Permuting or repeating candidates changes neither the kind of decision, nor the flag, nor which
      targets are named, nor, when their ids are comparable, the allocated id. */
  lemma OrderIrrelevant(number: string -> Option<real>, upper: string -> string, p: Payment, a: seq<Candidate>, b: seq<Candidate>)
    requires SameCandidates(a, b)
    ensures var d, e := ResolveAllocation(number, upper, p, a), ResolveAllocation(number, upper, p, b);
            && (d.NoCandidates? <==> e.NoCandidates?) && (d.NoExactMatch? <==> e.NoExactMatch?)
            && (d.Allocate? ==> d.ambiguous == e.ambiguous
                                && Keys([d.target] + d.alternatives) == Keys([e.target] + e.alternatives))
            && (d.Allocate? && Comparable(number, IdsOf(Survivors(Eligible(upper, p, a)))) ==> d.target.id == e.target.id)
  {
    hide ResolveAllocation, Survivors, LeastId, Keys, IsEligible, Eligible, Comparable, Covered, IdsOf, SameCandidates;
    var x, y := Eligible(upper, p, a), Eligible(upper, p, b);
    SameEligible(upper, p, a, b);
    SameSurvivors(x, y);
    SameEmpty(a, b);
    SameEmpty(x, y);
    ResolvedExactly(number, upper, p, a);
    ResolvedExactly(number, upper, p, b);
    var d, e := ResolveAllocation(number, upper, p, a), ResolveAllocation(number, upper, p, b);
    if d.Allocate? && Comparable(number, IdsOf(Survivors(x))) {
      LeastUnique(number, d.target.id, e.target.id, Survivors(x));
    }
  }

  // ---- When the target itself is the same in every order

  /** The least id names one target. */
  ghost predicate OneLeast(number: string -> Option<real>, keys: set<Key>)
  {
    forall k, l :: k in keys && l in keys && LeastId(number, k.id, keys) && LeastId(number, l.id, keys) ==> k == l
  }

  /** Which target is allocated does not depend on the order of the candidates exactly when the least id
      names one target; when it names two, some permutation allocates the other. */
  lemma TargetFixedExactly(number: string -> Option<real>, upper: string -> string, p: Payment, a: seq<Candidate>)
    requires ResolveAllocation(number, upper, p, a).Allocate? && Comparable(number, IdsOf(Survivors(Eligible(upper, p, a))))
    ensures var fixed := OneLeast(number, Survivors(Eligible(upper, p, a)));
            && (fixed ==> forall b :: SameCandidates(a, b) ==> SameTarget(number, upper, p, a, b))
            && (!fixed ==> exists b :: multiset(b) == multiset(a) && !SameTarget(number, upper, p, a, b))
  {
    hide ResolveAllocation, Survivors, LeastId, Keys, Eligible, Comparable, Covered, IdsOf, SameCandidates, SameTarget;
    if OneLeast(number, Survivors(Eligible(upper, p, a))) {
      forall b | SameCandidates(a, b) ensures SameTarget(number, upper, p, a, b) {
        FixedTarget(number, upper, p, a, b);
      }
    } else {
      var b := OtherOrder(number, upper, p, a);
      assert multiset(b) == multiset(a);
    }
  }

  ghost predicate SameTarget(number: string -> Option<real>, upper: string -> string, p: Payment, a: seq<Candidate>, b: seq<Candidate>)
  {
    var d, e := ResolveAllocation(number, upper, p, a), ResolveAllocation(number, upper, p, b);
    d.Allocate? && e.Allocate? && KeyOf(d.target) == KeyOf(e.target)
  }

  lemma FixedTarget(number: string -> Option<real>, upper: string -> string, p: Payment, a: seq<Candidate>, b: seq<Candidate>)
    requires ResolveAllocation(number, upper, p, a).Allocate? && Comparable(number, IdsOf(Survivors(Eligible(upper, p, a))))
    requires OneLeast(number, Survivors(Eligible(upper, p, a))) && SameCandidates(a, b)
    ensures SameTarget(number, upper, p, a, b)
  {
    hide ResolveAllocation, LeastId, Eligible, Comparable, Covered, IdsOf, SameCandidates;
    var x, y := Eligible(upper, p, a), Eligible(upper, p, b);
    SameEligible(upper, p, a, b);
    SameSurvivors(x, y);
    SameEmpty(a, b);
    SameEmpty(x, y);
    ResolvedExactly(number, upper, p, a);
    ResolvedExactly(number, upper, p, b);
    var d, e := ResolveAllocation(number, upper, p, a), ResolveAllocation(number, upper, p, b);
    assert KeyOf(d.target) in Survivors(x) && KeyOf(e.target) in Survivors(y);
  }

  /** Of two targets with the least id, the one put first is allocated. */
  lemma OtherOrder(number: string -> Option<real>, upper: string -> string, p: Payment, a: seq<Candidate>) returns (b: seq<Candidate>)
    requires ResolveAllocation(number, upper, p, a).Allocate? && !OneLeast(number, Survivors(Eligible(upper, p, a)))
    ensures multiset(b) == multiset(a) && !SameTarget(number, upper, p, a, b)
  {
    hide ResolveAllocation, LeastId, Eligible, Covered, IsEligible;
    var c := OtherLeast(number, Eligible(upper, p, a), KeyOf(ResolveAllocation(number, upper, p, a).target));
    EligibleMembers(upper, p, a);
    b := MovedFirst(a, c);
    PutFirst(number, upper, p, a, b, c);
  }

  lemma OtherLeast(number: string -> Option<real>, x: seq<Candidate>, now: Key) returns (c: Candidate)
    requires !OneLeast(number, Survivors(x))
    ensures c in x && !Covered(x, c) && KeyOf(c) != now && LeastId(number, c.id, Survivors(x))
  {
    hide LeastId, Covered;
    var k, l :| k in Survivors(x) && l in Survivors(x) && LeastId(number, k.id, Survivors(x)) && LeastId(number, l.id, Survivors(x)) && k != l;
    var other := if k == now then l else k;
    c :| c in x && !Covered(x, c) && KeyOf(c) == other;
  }

  lemma MovedFirst(a: seq<Candidate>, c: Candidate) returns (b: seq<Candidate>)
    requires c in a
    ensures multiset(b) == multiset(a) && b != [] && b[0] == c
  {
    var i :| 0 <= i < |a| && a[i] == c;
    b := [c] + (a[..i] + a[i + 1..]);
    assert a == a[..i] + ([c] + a[i + 1..]);
  }

  lemma PutFirst(number: string -> Option<real>, upper: string -> string, p: Payment, a: seq<Candidate>, b: seq<Candidate>, c: Candidate)
    requires multiset(a) == multiset(b) && b != [] && b[0] == c && IsEligible(upper, p, c) && !Covered(Eligible(upper, p, a), c)
    requires LeastId(number, c.id, Survivors(Eligible(upper, p, a)))
    ensures ResolveAllocation(number, upper, p, b).Allocate? && ResolveAllocation(number, upper, p, b).target == c
  {
    hide IsEligible, Covered, LeastId, Survivors, Eligible, Before, Ranked, IdsOf;
    var x, y := Eligible(upper, p, a), Eligible(upper, p, b);
    InBoth(a, b);
    SameEligible(upper, p, a, b);
    SameSurvivors(x, y);
    SameCover(x, y, c);
    EligibleFirst(upper, p, b);
    CollapseFirst(y, |y|);
    CollapsedExactly(y);
    FirstPrecedes(number, CollapseSameTarget(y));
    RankedKeepsFirst(number, CollapseSameTarget(y));
  }

  lemma FirstPrecedes(number: string -> Option<real>, list: seq<Candidate>)
    requires list != [] && LeastId(number, list[0].id, Keys(list))
    ensures forall c :: c in list ==> !Before(number, c.id, list[0].id)
  {
    hide Before;
    KeysIds(list);
  }

  lemma EligibleFirst(upper: string -> string, p: Payment, list: seq<Candidate>)
    requires list != [] && IsEligible(upper, p, list[0])
    ensures Eligible(upper, p, list) != [] && Eligible(upper, p, list)[0] == list[0]
  {
    hide IsEligible, Eligible;
    EligibleOne(upper, p, list[0]);
    EligibleAppend(upper, p, [list[0]], list[1..]);
    assert list == [list[0]] + list[1..];
  }

  lemma {:induction false} CollapseFirst(list: seq<Candidate>, n: nat)
    requires 0 < n <= |list| && !Covered(list, list[0])
    ensures Collapse(list, n) != [] && Collapse(list, n)[0] == list[0]
  {
    hide Covered, Repeats;
    if n == 1 {
      assert Collapse(list, 0) == [] && !Repeats([], list[0]) by { NothingRepeats(list[0]); }
    } else {
      CollapseFirst(list, n - 1);
    }
  }

  lemma NothingRepeats(c: Candidate)
    ensures !Repeats([], c)
  {
  }

  /** The kind of the target is not so fixed: an invoice and a deal payment with one id are ranked in the
      order they came. */
  lemma TieFollowsOrder(number: string -> Option<real>, upper: string -> string)
    ensures var invoice := Candidate(Invoice, "5", 1.0, "", "", "");
            var payment := Candidate(DealPayment, "5", 1.0, "", "7", "");
            && ResolveAllocation(number, upper, Payment(1.0, ""), [invoice, payment]) == Allocate(invoice, true, [payment])
            && ResolveAllocation(number, upper, Payment(1.0, ""), [payment, invoice]) == Allocate(payment, true, [invoice])
  {
    var invoice := Candidate(Invoice, "5", 1.0, "", "", "");
    var payment := Candidate(DealPayment, "5", 1.0, "", "7", "");
    TwoKept(number, upper, invoice, payment);
    TwoKept(number, upper, payment, invoice);
  }

  lemma TwoKept(number: string -> Option<real>, upper: string -> string, a: Candidate, b: Candidate)
    requires a.kind != b.kind && a.id == b.id == "5" && a.amount == b.amount == 1.0 && a.currency == b.currency == ""
    requires (a.kind == Invoice ==> a.dealId == "") && (b.kind == Invoice ==> b.dealId == "")
    ensures ResolveAllocation(number, upper, Payment(1.0, ""), [a, b]) == Allocate(a, true, [b])
  {
    hide IsEligible, Eligible, Ranked, CollapseSameTarget;
    TwoEligible(upper, a, b);
    TwoCollapsed(a, b);
    TwoRanked(number, a, b);
  }

  lemma TwoEligible(upper: string -> string, a: Candidate, b: Candidate)
    requires a.amount == b.amount == 1.0 && a.currency == b.currency == ""
    ensures Eligible(upper, Payment(1.0, ""), [a, b]) == [a, b]
  {
    EligibleOne(upper, Payment(1.0, ""), a);
    EligibleOne(upper, Payment(1.0, ""), b);
    hide Eligible;
    EligibleAppend(upper, Payment(1.0, ""), [a], [b]);
    assert [a] + [b] == [a, b];
  }

  lemma TwoDistinctCollapsed(a: Candidate, b: Candidate)
    requires a.kind == b.kind == Invoice && a.id != b.id
    ensures CollapseSameTarget([a, b]) == [a, b]
  {
    var list := [a, b];
    assert !Covered(list, a) && !Covered(list, b);
    hide Covered;
    assert Collapse(list, 0) == [] && !Repeats([], a);
    assert Collapse(list, 1) == [] + [a];
    assert Collapse(list, 1) == [a] && !Repeats([a], b);
    assert Collapse(list, 2) == [a] + [b];
  }

  lemma TwoCollapsed(a: Candidate, b: Candidate)
    requires a.kind != b.kind && (a.kind == Invoice ==> a.dealId == "") && (b.kind == Invoice ==> b.dealId == "")
    ensures CollapseSameTarget([a, b]) == [a, b]
  {
    var list := [a, b];
    assert !Covered(list, a) && !Covered(list, b);
    hide Covered;
    assert Collapse(list, 0) == [] && !Repeats([], a);
    assert Collapse(list, 1) == [] + [a];
    assert Collapse(list, 1) == [a] && !Repeats([a], b);
    assert Collapse(list, 2) == [a] + [b];
  }

  lemma TwoRanked(number: string -> Option<real>, a: Candidate, b: Candidate)
    requires a.id == b.id
    ensures Ranked(number, [a, b]) == [a, b]
  {
    BeforeFacts(number, a.id, b.id);
    hide Before;
    SortedTwo(a, b, ById(number));
  }

  // ---- A covered deal payment is invisible

  lemma {:induction false} EligibleAppend(upper: string -> string, p: Payment, a: seq<Candidate>, b: seq<Candidate>)
    ensures Eligible(upper, p, a + b) == Eligible(upper, p, a) + Eligible(upper, p, b)
  {
    if b == [] {
      assert a + b == a;
    } else {
      var n := |b| - 1;
      assert (a + b)[..|a + b| - 1] == a + b[..n];
      EligibleAppend(upper, p, a, b[..n]);
    }
  }

  /** Collapsing reads the list only through its cover. */
  lemma {:induction false} CollapseByCover(a: seq<Candidate>, b: seq<Candidate>, n: nat)
    requires n <= |a| && n <= |b| && a[..n] == b[..n]
    requires forall c :: c in a[..n] ==> (Covered(a, c) <==> Covered(b, c))
    ensures Collapse(a, n) == Collapse(b, n)
  {
    hide Covered, Repeats;
    if n > 0 {
      assert a[n - 1] == a[..n][n - 1] && b[n - 1] == b[..n][n - 1];
      assert a[..n - 1] == a[..n][..n - 1] && b[..n - 1] == b[..n][..n - 1];
      CollapseByCover(a, b, n - 1);
    }
  }

  /** Dropping a covered deal payment from a list leaves the collapsed list as it was. */
  lemma {:induction false} CollapseSkips(front: seq<Candidate>, c: Candidate, rest: seq<Candidate>, n: nat)
    requires Covered(front + rest, c) && n <= |rest|
    ensures Collapse(front + [c] + rest, |front| + 1 + n) == Collapse(front + rest, |front| + n)
  {
    hide Covered, Repeats;
    var with, without := front + [c] + rest, front + rest;
    forall d ensures Covered(with, d) <==> Covered(without, d) {
      CoverSkips(front, c, rest, d);
    }
    if n == 0 {
      assert with[..|front|] == front == without[..|front|];
      CollapseByCover(with, without, |front|);
      assert with[|front|] == c;
    } else {
      CollapseSkips(front, c, rest, n - 1);
      assert with[|front| + n] == rest[n - 1] == without[|front| + n - 1];
    }
  }

  lemma CoverSkips(front: seq<Candidate>, c: Candidate, rest: seq<Candidate>, d: Candidate)
    requires c.kind == DealPayment || Covered(front + rest, c)
    ensures Covered(front + [c] + rest, d) <==> Covered(front + rest, d)
  {
    var with, without := front + [c] + rest, front + rest;
    if Covered(with, d) {
      var k :| 0 <= k < |with| && with[k].kind == Invoice && with[k].dealId == d.dealId;
      assert without[if k < |front| then k else k - 1] == with[k];
    }
    if Covered(without, d) {
      var k :| 0 <= k < |without| && without[k].kind == Invoice && without[k].dealId == d.dealId;
      assert with[if k < |front| then k else k + 1] == without[k];
    }
  }

  /** Adding, anywhere, a deal payment of a deal that an eligible invoice stands for changes nothing at
      all in the decision to allocate. */
  lemma CoveredPaymentInvisible(number: string -> Option<real>, upper: string -> string, p: Payment, front: seq<Candidate>,
                                c: Candidate, rest: seq<Candidate>)
    requires c.kind == DealPayment && InvoiceCovers(Eligible(upper, p, front + rest), c.dealId)
    ensures ResolveAllocation(number, upper, p, front + [c] + rest) == ResolveAllocation(number, upper, p, front + rest)
    ensures ResolveAllocation(number, upper, p, front + rest).Allocate?
  {
    hide IsEligible, Ranked, Covered, InvoiceCovers, Eligible, CollapseSameTarget, RankTargets;
    EligibleAround(upper, p, front, c, rest);
    var x, y := Eligible(upper, p, front), Eligible(upper, p, rest);
    NotEmptyWhenCovering(x + y, c.dealId);
    CoversPayment(x + y, c);
    CollapseWithout(x, c, y);
    assert RankTargets(number, x + [c] + y) == RankTargets(number, x + y) by { RankByCollapse(number, x + [c] + y, x + y); }
  }

  lemma RankByCollapse(number: string -> Option<real>, a: seq<Candidate>, b: seq<Candidate>)
    requires a != [] && b != [] && CollapseSameTarget(a) == CollapseSameTarget(b)
    ensures RankTargets(number, a) == RankTargets(number, b)
  {
    hide CollapseSameTarget, Ranked;
  }

  lemma EligibleAround(upper: string -> string, p: Payment, front: seq<Candidate>, c: Candidate, rest: seq<Candidate>)
    ensures Eligible(upper, p, front + rest) == Eligible(upper, p, front) + Eligible(upper, p, rest)
    ensures Eligible(upper, p, front + [c] + rest) ==
            if IsEligible(upper, p, c) then Eligible(upper, p, front) + [c] + Eligible(upper, p, rest)
            else Eligible(upper, p, front) + Eligible(upper, p, rest)
  {
    hide IsEligible, Eligible;
    EligibleAppend(upper, p, front + [c], rest);
    EligibleAppend(upper, p, front, [c]);
    EligibleAppend(upper, p, front, rest);
    EligibleOne(upper, p, c);
    assert Eligible(upper, p, front) + [] == Eligible(upper, p, front);
  }

  lemma CollapseWithout(x: seq<Candidate>, c: Candidate, y: seq<Candidate>)
    requires Covered(x + y, c)
    ensures CollapseSameTarget(x + [c] + y) == CollapseSameTarget(x + y)
  {
    hide Covered, Collapse;
    CollapseSkips(x, c, y, |y|);
  }

  lemma CoversPayment(list: seq<Candidate>, c: Candidate)
    requires c.kind == DealPayment && InvoiceCovers(list, c.dealId)
    ensures Covered(list, c)
  {
  }

  lemma EligibleOne(upper: string -> string, p: Payment, c: Candidate)
    ensures Eligible(upper, p, [c]) == if IsEligible(upper, p, c) then [c] else []
  {
    hide IsEligible;
    assert [c][..0] == [];
    assert Eligible(upper, p, []) == [];
  }

  lemma NotEmptyWhenCovering(list: seq<Candidate>, dealId: string)
    requires InvoiceCovers(list, dealId)
    ensures list != []
  {
  }

  // ---- The summary of a payment

  datatype Label = Allocatable | Ambiguous | Manual | Nothing

  datatype Summary = Summary(decision: Decision, triggerTargets: nat, outcome: Label)

  function AmountTargets(candidates: seq<Candidate>): seq<Candidate>
  {
    if candidates == [] then []
    else
      var n := |candidates| - 1;
      AmountTargets(candidates[..n]) + if IsAmountTarget(candidates[n].kind) then [candidates[n]] else []
  }

  function KindText(kind: Kind): string
  {
    match kind
    case Invoice => "invoice"
    case DealPayment => "deal-payment"
    case Deal => "deal"
    case SmartProcess => "smart-process"
  }

  function TriggerName(c: Candidate): string
  {
    KindText(c.kind) + ":" + c.id
  }

  function TriggerNames(candidates: seq<Candidate>): set<string>
  {
    set c | c in candidates && !IsAmountTarget(c.kind) :: TriggerName(c)
  }

  function SummarizeAllocation(number: string -> Option<real>, upper: string -> string, p: Payment, candidates: seq<Candidate>): Summary
  {
    var triggerTargets := |TriggerNames(candidates)|;
    var decision := ResolveAllocation(number, upper, p, AmountTargets(candidates));
    Summary(decision, triggerTargets,
            if decision.Allocate? then if decision.ambiguous then Ambiguous else Allocatable
            else if triggerTargets > 0 then Allocatable
            else if decision.NoExactMatch? then Manual
            else Nothing)
  }

  lemma {:induction false} AmountMembers(candidates: seq<Candidate>)
    ensures forall c :: c in AmountTargets(candidates) <==> c in candidates && IsAmountTarget(c.kind)
  {
    if candidates != [] {
      var n := |candidates| - 1;
      AmountMembers(candidates[..n]);
      assert candidates == candidates[..n] + [candidates[n]];
    }
  }

  lemma SameColon(a: string, x: string, b: string, y: string)
    requires ':' !in a && ':' !in b && a + ":" + x == b + ":" + y
    ensures a == b && x == y
  {
    var whole := a + ":" + x;
    assert forall k :: 0 <= k < |a| ==> whole[k] == a[k];
    assert forall k :: 0 <= k < |b| ==> (b + ":" + y)[k] == b[k];
    assert whole[|a|] == ':' && (b + ":" + y)[|b|] == ':';
    assert whole[..|a|] == a && (b + ":" + y)[..|b|] == b;
    assert whole[|a| + 1..] == x && (b + ":" + y)[|b| + 1..] == y;
  }

  lemma KindsHaveNoColon(kind: Kind, other: Kind)
    ensures ':' !in KindText(kind) && (KindText(kind) == KindText(other) ==> kind == other)
  {
    assert |"deal"| == 4 && |"invoice"| == 7 && |"deal-payment"| == 12 && |"smart-process"| == 13;
  }

  /** Two trigger targets share a name only if they are one target: counting names counts targets. */
  lemma TriggerNamesApart(a: Candidate, b: Candidate)
    ensures TriggerName(a) == TriggerName(b) <==> KeyOf(a) == KeyOf(b)
  {
    hide KindText;
    KindsHaveNoColon(a.kind, b.kind);
    KindsHaveNoColon(b.kind, a.kind);
    if TriggerName(a) == TriggerName(b) {
      SameColon(KindText(a.kind), a.id, KindText(b.kind), b.id);
    }
  }

  function TriggerKeys(candidates: seq<Candidate>): set<Key>
  {
    set c | c in candidates && c.kind in {Deal, SmartProcess} :: KeyOf(c)
  }

  lemma TriggerStep(rest: seq<Candidate>, last: Candidate)
    ensures var triggers := !IsAmountTarget(last.kind);
            && TriggerNames(rest + [last]) == TriggerNames(rest) + (if triggers then {TriggerName(last)} else {})
            && TriggerKeys(rest + [last]) == TriggerKeys(rest) + if triggers then {KeyOf(last)} else {}
  {
    hide TriggerName;
    forall c ensures c in rest + [last] <==> c in rest || c == last {
    }
  }

  lemma TriggerKnown(rest: seq<Candidate>, last: Candidate)
    ensures !IsAmountTarget(last.kind) ==> (TriggerName(last) in TriggerNames(rest) <==> KeyOf(last) in TriggerKeys(rest))
  {
    hide TriggerName;
    forall c ensures TriggerName(c) == TriggerName(last) <==> KeyOf(c) == KeyOf(last) {
      TriggerNamesApart(c, last);
    }
  }

  lemma AddedOne<T>(s: set<T>, x: T)
    ensures |s + {x}| == |s| + if x in s then 0 else 1
  {
    assert x in s ==> s + {x} == s;
  }

  lemma {:induction false} NamesAsManyAsKeys(candidates: seq<Candidate>)
    ensures |TriggerNames(candidates)| == |TriggerKeys(candidates)|
  {
    if candidates == [] {
      assert TriggerNames(candidates) == {} && TriggerKeys(candidates) == {};
    } else {
      hide TriggerNames, TriggerKeys, TriggerName, IsAmountTarget, KeyOf;
      var rest, last := candidates[..|candidates| - 1], candidates[|candidates| - 1];
      assert rest + [last] == candidates;
      NamesAsManyAsKeys(rest);
      TriggerStep(rest, last);
      if IsAmountTarget(last.kind) {
        assert TriggerNames(candidates) == TriggerNames(rest) && TriggerKeys(candidates) == TriggerKeys(rest);
      } else {
        TriggerKnown(rest, last);
        AddedOne(TriggerNames(rest), TriggerName(last));
        AddedOne(TriggerKeys(rest), KeyOf(last));
      }
    }
  }

  /** The count is that of the distinct deals and smart-process items found, however often each was. */
  lemma TriggersCounted(number: string -> Option<real>, upper: string -> string, p: Payment, candidates: seq<Candidate>)
    ensures SummarizeAllocation(number, upper, p, candidates).triggerTargets == |TriggerKeys(candidates)|
  {
    hide ResolveAllocation, TriggerNames, TriggerKeys, AmountTargets;
    NamesAsManyAsKeys(candidates);
  }

  /** What each outcome means. */
  lemma OutcomeExactly(number: string -> Option<real>, upper: string -> string, p: Payment, candidates: seq<Candidate>)
    ensures var s := SummarizeAllocation(number, upper, p, candidates);
            var amount := AmountTargets(candidates);
            var eligible := Eligible(upper, p, amount);
            && (s.outcome == Ambiguous <==> |Survivors(eligible)| > 1)
            && (s.outcome == Allocatable <==> |Survivors(eligible)| == 1
                                              || (eligible == [] && exists c :: c in candidates && !IsAmountTarget(c.kind)))
            && (s.outcome == Manual <==> amount != [] && eligible == [] && forall c :: c in candidates ==> IsAmountTarget(c.kind))
            && (s.outcome == Nothing <==> candidates == [])
  {
    hide ResolveAllocation, Comparable, LeastId, Covered, Keys, Survivors, Eligible, TriggerName, IsAmountTarget;
    var amount := AmountTargets(candidates);
    var eligible := Eligible(upper, p, amount);
    AmountMembers(candidates);
    ResolvedExactly(number, upper, p, amount);
    SomeTrigger(candidates);
    EligibleMembers(upper, p, amount);
    if eligible != [] {
      SomethingSurvives(eligible);
      assert eligible[0] in amount;
    } else {
      NoneSurvive(eligible);
    }
    if candidates != [] {
      assert candidates[0] in candidates;
      assert IsAmountTarget(candidates[0].kind) ==> candidates[0] in amount;
    }
  }

  /** The outcome by kind, currency and cents alone. Invoices and deal payments are matched by amount; deals
      and smart-process items need no amount. */
  lemma OutcomeByMoney(number: string -> Option<real>, upper: string -> string, p: Payment, candidates: seq<Candidate>)
    ensures var outcome := SummarizeAllocation(number, upper, p, candidates).outcome;
            var matched := exists c :: c in candidates && c.kind in {Invoice, DealPayment} && Matches(upper, p, c);
            var triggered := exists c :: c in candidates && c.kind in {Deal, SmartProcess};
            && (outcome in {Allocatable, Ambiguous} <==> matched || triggered)
            && (outcome == Ambiguous ==> matched)
            && (outcome == Manual <==> candidates != [] && !matched && !triggered)
            && (outcome == Nothing <==> candidates == [])
  {
    hide Trim, Matches, Eligible, TriggerName, TriggerNames, ResolveAllocation, AmountTargets;
    AmountMembers(candidates);
    SomeTrigger(candidates);
    var amount := AmountTargets(candidates);
    DecidedByMoney(number, upper, p, amount);
    NothingWithout(number, upper, p, amount);
    var matched := exists c :: c in candidates && c.kind in {Invoice, DealPayment} && Matches(upper, p, c);
    var triggered := exists c :: c in candidates && c.kind in {Deal, SmartProcess};
    assert matched <==> exists c :: c in amount && Matches(upper, p, c) by {
      if c :| c in candidates && c.kind in {Invoice, DealPayment} && Matches(upper, p, c) {
        assert c in amount;
      }
      if c :| c in amount && Matches(upper, p, c) {
        assert c in candidates && c.kind in {Invoice, DealPayment};
      }
    }
    assert triggered <==> |TriggerNames(candidates)| > 0 by {
      if c :| c in candidates && !IsAmountTarget(c.kind) {
        assert c.kind in {Deal, SmartProcess};
      }
    }
    if candidates == [] {
      assert amount == [] by { NoneAmount(); }
    } else {
      assert candidates[0] in candidates;
      assert IsAmountTarget(candidates[0].kind) ==> candidates[0] in amount;
    }
  }

  lemma NoneAmount()
    ensures AmountTargets([]) == []
  {
  }

  lemma NothingWithout(number: string -> Option<real>, upper: string -> string, p: Payment, candidates: seq<Candidate>)
    ensures ResolveAllocation(number, upper, p, candidates).NoCandidates? <==> candidates == []
  {
    hide Survivors, Covered, Comparable, LeastId, Keys;
    ResolvedExactly(number, upper, p, candidates);
  }

  lemma NoneSurvive(list: seq<Candidate>)
    requires list == []
    ensures |Survivors(list)| == 0
  {
  }

  lemma SomeTrigger(candidates: seq<Candidate>)
    ensures |TriggerNames(candidates)| > 0 <==> exists c :: c in candidates && !IsAmountTarget(c.kind)
  {
    hide IsAmountTarget, TriggerName;
    if c :| c in candidates && !IsAmountTarget(c.kind) {
      assert TriggerName(c) in TriggerNames(candidates);
    } else {
      assert TriggerNames(candidates) == {};
    }
  }

  /** The outcome and the number of triggers are the same for the same candidates in any order. */
  lemma SummaryOrderIrrelevant(number: string -> Option<real>, upper: string -> string, p: Payment, a: seq<Candidate>, b: seq<Candidate>)
    requires SameCandidates(a, b)
    ensures var s, t := SummarizeAllocation(number, upper, p, a), SummarizeAllocation(number, upper, p, b);
            s.outcome == t.outcome && s.triggerTargets == t.triggerTargets
  {
    hide ResolveAllocation, Comparable, Survivors, Eligible, Keys, TriggerName, IsAmountTarget;
    AmountMembers(a);
    AmountMembers(b);
    OrderIrrelevant(number, upper, p, AmountTargets(a), AmountTargets(b));
    assert TriggerNames(a) == TriggerNames(b);
  }

  // ---- Narrowing a pool to one order

  function LastSlash(s: string): (k: int)
    ensures -1 <= k < |s| && (k >= 0 ==> s[k] == '/') && forall j :: k < j < |s| ==> s[j] != '/'
  {
    if s == "" then -1 else if s[|s| - 1] == '/' then |s| - 1 else LastSlash(s[..|s| - 1])
  }

  predicate OfOrder(c: Candidate, orderNumber: string)
  {
    var account := Trim(c.accountNumber);
    var cut := LastSlash(account);
    cut > 0 && account[..cut] == orderNumber
  }

  function FilterByOrderNumber(candidates: seq<Candidate>, orderNumber: string): seq<Candidate>
  {
    if Trim(orderNumber) == "" || candidates == [] then []
    else
      var n := |candidates| - 1;
      FilterByOrderNumber(candidates[..n], orderNumber) + if OfOrder(candidates[n], Trim(orderNumber)) then [candidates[n]] else []
  }

  /** The payments of an order are exactly those numbered with the order's number, a slash, and a last
      part without one; a blank number names none. */
  lemma {:induction false} OrderFilterExactly(candidates: seq<Candidate>, orderNumber: string, c: Candidate)
    ensures c in FilterByOrderNumber(candidates, orderNumber) <==>
            && c in candidates && Trim(orderNumber) != ""
            && exists part: string :: NumberedIn(c, Trim(orderNumber), part)
  {
    hide Trim;
    OfOrderExactly(c, Trim(orderNumber));
    if Trim(orderNumber) != "" && candidates != [] {
      var n := |candidates| - 1;
      OrderFilterExactly(candidates[..n], orderNumber, c);
      assert candidates == candidates[..n] + [candidates[n]];
    }
  }

  predicate NumberedIn(c: Candidate, orderNumber: string, part: string)
  {
    '/' !in part && Trim(c.accountNumber) == orderNumber + "/" + part
  }

  lemma OfOrderExactly(c: Candidate, orderNumber: string)
    ensures orderNumber != "" ==> (OfOrder(c, orderNumber) <==> exists part: string :: NumberedIn(c, orderNumber, part))
  {
    hide Trim;
    var account := Trim(c.accountNumber);
    var cut := LastSlash(account);
    if OfOrder(c, orderNumber) {
      var part := account[cut + 1..];
      assert account == account[..cut] + "/" + part;
      assert NumberedIn(c, orderNumber, part);
    }
    if part: string :| orderNumber != "" && NumberedIn(c, orderNumber, part) {
      assert account[|orderNumber|] == '/';
      assert forall j :: |orderNumber| < j < |account| ==> account[j] == part[j - |orderNumber| - 1];
      assert cut == |orderNumber|;
      assert account[..cut] == orderNumber;
    }
  }
}
