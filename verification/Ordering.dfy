/** Lists gathered from rows and sorted: as multisets, and once sorted, they do not depend on the order
    the rows come in. */
module Ordering {
  import opened Outcome
  import opened Text

  function Collect<S, T>(xs: seq<S>, f: S -> Option<T>): seq<T>
  {
    if xs == [] then [] else Collect(xs[..|xs| - 1], f) + Listed(f(xs[|xs| - 1]))
  }

  function Listed<T>(o: Option<T>): seq<T>
  {
    if o.Some? then [o.value] else []
  }

  lemma {:induction false} CollectedFrom<S, T>(xs: seq<S>, f: S -> Option<T>, y: T)
    requires y in Collect(xs, f)
    ensures exists k :: 0 <= k < |xs| && f(xs[k]) == Some(y)
  {
    var n := |xs| - 1;
    if y in Collect(xs[..n], f) {
      CollectedFrom(xs[..n], f, y);
      var k :| 0 <= k < n && f(xs[..n][k]) == Some(y);
      assert f(xs[k]) == Some(y);
    } else {
      assert f(xs[n]) == Some(y);
    }
  }

  lemma {:induction false} CollectedAll<S, T>(xs: seq<S>, f: S -> Option<T>, k: nat)
    requires k < |xs| && f(xs[k]).Some?
    ensures f(xs[k]).value in Collect(xs, f)
  {
    var n := |xs| - 1;
    if k < n {
      CollectedAll(xs[..n], f, k);
    }
  }

  lemma CollectLast<S, T>(xs: seq<S>, f: S -> Option<T>)
    requires xs != []
    ensures multiset(Collect(xs, f)) == multiset(Collect(xs[..|xs| - 1], f)) + multiset(Listed(f(xs[|xs| - 1])))
  {
    hide Listed;
  }

  lemma {:induction false} CollectWithout<S, T>(xs: seq<S>, k: nat, f: S -> Option<T>)
    requires k < |xs|
    ensures multiset(Collect(xs, f)) == multiset(Collect(xs[..k] + xs[k + 1..], f)) + multiset(Listed(f(xs[k])))
  {
    hide Listed, Collect;
    var n := |xs| - 1;
    CollectLast(xs, f);
    if k == n {
      assert xs[..k] + xs[k + 1..] == xs[..n];
    } else {
      CollectWithout(xs[..n], k, f);
      var rest := xs[..k] + xs[k + 1..];
      assert rest[..|rest| - 1] == xs[..n][..k] + xs[..n][k + 1..];
      CollectLast(rest, f);
    }
  }

  lemma Without<T>(xs: seq<T>, k: nat)
    requires k < |xs|
    ensures multiset(xs) == multiset(xs[..k] + xs[k + 1..]) + multiset{xs[k]}
  {
    assert xs == xs[..k] + [xs[k]] + xs[k + 1..];
  }

  lemma SameRest<T>(xs: seq<T>, i: nat, ys: seq<T>, j: nat)
    requires multiset(xs) == multiset(ys) && i < |xs| && j < |ys| && xs[i] == ys[j]
    ensures multiset(xs[..i] + xs[i + 1..]) == multiset(ys[..j] + ys[j + 1..])
  {
    Without(xs, i);
    Without(ys, j);
    var a, b := multiset(xs[..i] + xs[i + 1..]), multiset(ys[..j] + ys[j + 1..]);
    assert a == multiset(xs) - multiset{xs[i]} && b == multiset(ys) - multiset{ys[j]};
  }

  lemma {:induction false} CollectPermuted<S, T>(xs: seq<S>, ys: seq<S>, f: S -> Option<T>)
    requires multiset(xs) == multiset(ys)
    ensures multiset(Collect(xs, f)) == multiset(Collect(ys, f))
    decreases |xs|
  {
    hide Listed, Collect;
    SameLength(xs, ys);
    if xs != [] {
      var n := |xs| - 1;
      assert xs[n] in multiset(ys);
      var k :| 0 <= k < |ys| && ys[k] == xs[n];
      var rest := ys[..k] + ys[k + 1..];
      assert xs[..n] + xs[n + 1..] == xs[..n];
      SameRest(xs, n, ys, k);
      CollectPermuted(xs[..n], rest, f);
      CollectLast(xs, f);
      CollectWithout(ys, k, f);
    } else {
      assert ys == [];
    }
  }

  // ---- No repeats

  ghost predicate NoRepeats<T>(xs: seq<T>)
  {
    forall i, j :: 0 <= i < j < |xs| ==> xs[i] != xs[j]
  }

  lemma {:induction false} CountOfDistinct<T>(xs: seq<T>)
    requires NoRepeats(xs)
    ensures |xs| == |set x | x in xs|
    ensures forall x :: multiset(xs)[x] == if x in xs then 1 else 0
  {
    if xs != [] {
      var n := |xs| - 1;
      CountOfDistinct(xs[..n]);
      assert xs == xs[..n] + [xs[n]];
      assert (set x | x in xs) == (set x | x in xs[..n]) + {xs[n]};
    }
  }

  /** A list in which nothing counts twice repeats nothing. */
  lemma OnceEach<T>(xs: seq<T>)
    requires forall x :: multiset(xs)[x] <= 1
    ensures NoRepeats(xs)
  {
    forall i, j | 0 <= i < j < |xs| ensures xs[i] != xs[j] {
      Without(xs, i);
      var rest := xs[..i] + xs[i + 1..];
      assert rest[j - 1] == xs[j];
      assert xs[j] in multiset(rest);
      assert multiset(xs)[xs[i]] == multiset(rest)[xs[i]] + 1;
    }
  }

  lemma SameElements<T>(xs: seq<T>, ys: seq<T>)
    requires NoRepeats(xs) && NoRepeats(ys) && forall x :: x in xs <==> x in ys
    ensures multiset(xs) == multiset(ys)
  {
    CountOfDistinct(xs);
    CountOfDistinct(ys);
  }

  // ---- Sorting

  /** Of two elements not both go before the other, and none goes before what it stands behind. */
  ghost predicate WeaklyOrders<T(!new)>(xs: seq<T>, before: (T, T) -> bool)
  {
    && (forall a, b :: a in xs && b in xs ==> !(before(a, b) && before(b, a)))
    && forall a, b, c :: a in xs && b in xs && c in xs && !before(b, a) && !before(c, b) ==> !before(c, a)
  }

  /** And of two that differ, one does go before the other. */
  ghost predicate Orders<T(!new)>(xs: seq<T>, before: (T, T) -> bool)
  {
    && (forall a, b :: a in xs && b in xs ==> (a == b || before(a, b) || before(b, a)) && !(before(a, b) && before(b, a)))
    && forall a, b, c :: a in xs && b in xs && c in xs && before(a, b) && before(b, c) ==> before(a, c)
  }

  lemma OrdersWeakly<T(!new)>(xs: seq<T>, before: (T, T) -> bool)
    requires Orders(xs, before)
    ensures WeaklyOrders(xs, before)
  {
    forall a, b, c | a in xs && b in xs && c in xs && !before(b, a) && !before(c, b) ensures !before(c, a) {
      assert (a == b || before(a, b)) && (b == c || before(b, c));
    }
  }

  ghost predicate Ascending<T>(xs: seq<T>, before: (T, T) -> bool)
  {
    forall i, j :: 0 <= i < j < |xs| ==> !before(xs[j], xs[i])
  }

  /** Behind the last one that need not follow it. */
  function Insert<T>(xs: seq<T>, x: T, before: (T, T) -> bool): seq<T>
  {
    if xs == [] || !before(x, xs[|xs| - 1]) then xs + [x] else Insert(xs[..|xs| - 1], x, before) + [xs[|xs| - 1]]
  }

  /** The stable sort. */
  function Sorted<T>(xs: seq<T>, before: (T, T) -> bool): seq<T>
  {
    if xs == [] then [] else Insert(Sorted(xs[..|xs| - 1], before), xs[|xs| - 1], before)
  }

  lemma {:induction false} InsertSame<T>(xs: seq<T>, x: T, before: (T, T) -> bool)
    ensures multiset(Insert(xs, x, before)) == multiset(xs) + multiset{x}
    ensures forall y :: y in Insert(xs, x, before) <==> y in xs || y == x
  {
    if xs != [] {
      var n := |xs| - 1;
      InsertSame(xs[..n], x, before);
      assert xs == xs[..n] + [xs[n]];
    }
  }

  lemma {:induction false} InsertAscends<T(!new)>(xs: seq<T>, x: T, before: (T, T) -> bool)
    requires Ascending(xs, before) && WeaklyOrders(xs + [x], before)
    ensures Ascending(Insert(xs, x, before), before)
  {
    hide WeaklyOrders;
    if xs != [] {
      var n := |xs| - 1;
      if before(x, xs[n]) {
        WeakPart(xs + [x], xs[..n] + [x], before);
        NotBoth(xs + [x], x, xs[n], before);
        InsertAscends(xs[..n], x, before);
        var front := Insert(xs[..n], x, before);
        InsertSame(xs[..n], x, before);
        forall i | 0 <= i < |front| ensures !before(xs[n], front[i]) {
          assert front[i] in front;
        }
      } else {
        forall i | 0 <= i < |xs| ensures !before(x, xs[i]) {
          NotAfterLast(xs, x, i, before);
        }
      }
    }
  }

  lemma WeakPart<T(!new)>(xs: seq<T>, ys: seq<T>, before: (T, T) -> bool)
    requires WeaklyOrders(xs, before) && forall y :: y in ys ==> y in xs
    ensures WeaklyOrders(ys, before)
  {
  }

  lemma NotBoth<T(!new)>(xs: seq<T>, a: T, b: T, before: (T, T) -> bool)
    requires WeaklyOrders(xs, before) && a in xs && b in xs
    ensures !(before(a, b) && before(b, a))
  {
  }

  lemma NotAfterLast<T(!new)>(xs: seq<T>, x: T, i: nat, before: (T, T) -> bool)
    requires i < |xs| && Ascending(xs, before) && WeaklyOrders(xs + [x], before) && !before(x, xs[|xs| - 1])
    ensures !before(x, xs[i])
  {
    var all, last := xs + [x], xs[|xs| - 1];
    assert xs[i] in all && last in all && x in all;
  }

  lemma {:induction false} SortedSame<T>(xs: seq<T>, before: (T, T) -> bool)
    ensures multiset(Sorted(xs, before)) == multiset(xs) && |Sorted(xs, before)| == |xs|
    ensures forall x :: x in Sorted(xs, before) <==> x in xs
  {
    hide Insert;
    if xs != [] {
      var n := |xs| - 1;
      SortedSame(xs[..n], before);
      InsertSame(Sorted(xs[..n], before), xs[n], before);
      assert xs == xs[..n] + [xs[n]];
    }
    InBoth(Sorted(xs, before), xs);
    SameLength(Sorted(xs, before), xs);
  }

  /** Sorting is a permutation in ascending order. */
  lemma {:induction false} SortedAscends<T(!new)>(xs: seq<T>, before: (T, T) -> bool)
    requires WeaklyOrders(xs, before)
    ensures Ascending(Sorted(xs, before), before) && multiset(Sorted(xs, before)) == multiset(xs)
  {
    hide Insert, WeaklyOrders;
    SortedSame(xs, before);
    if xs != [] {
      var n := |xs| - 1;
      WeakPart(xs, xs[..n], before);
      SortedAscends(xs[..n], before);
      var front := Sorted(xs[..n], before);
      InBoth(front, xs[..n]);
      WeakPart(xs, front + [xs[n]], before);
      InsertAscends(front, xs[n], before);
    }
  }

  /** A first element that nothing goes before stays first. */
  lemma {:induction false} SortedKeepsFirst<T>(xs: seq<T>, before: (T, T) -> bool)
    requires xs != [] && forall x :: x in xs ==> !before(x, xs[0])
    ensures Sorted(xs, before) != [] && Sorted(xs, before)[0] == xs[0]
  {
    var n := |xs| - 1;
    if n == 0 {
      assert xs[..0] == [];
    } else {
      assert forall x :: x in xs[..n] ==> x in xs;
      SortedKeepsFirst(xs[..n], before);
      assert xs[n] in xs;
      InsertBehindFirst(Sorted(xs[..n], before), xs[n], before);
    }
  }

  lemma {:induction false} InsertBehindFirst<T>(xs: seq<T>, x: T, before: (T, T) -> bool)
    requires xs != [] && !before(x, xs[0])
    ensures Insert(xs, x, before) != [] && Insert(xs, x, before)[0] == xs[0]
  {
    if |xs| > 1 {
      InsertBehindFirst(xs[..|xs| - 1], x, before);
    }
  }

  lemma SortedTwo<T>(a: T, b: T, before: (T, T) -> bool)
    ensures Sorted([a, b], before) == if before(b, a) then [b, a] else [a, b]
  {
    assert [a, b][..1] == [a] && [a][..0] == [];
    assert Sorted([a], before) == [a];
    assert Insert([], b, before) == [b];
  }

  lemma OrdersPart<T(!new)>(xs: seq<T>, ys: seq<T>, before: (T, T) -> bool)
    requires Orders(xs, before) && forall y :: y in ys ==> y in xs
    ensures Orders(ys, before)
  {
  }

  /** There is one such permutation, whatever algorithm finds it. */
  lemma {:induction false} OneSorting<T(!new)>(xs: seq<T>, ys: seq<T>, before: (T, T) -> bool)
    requires Orders(xs, before) && Ascending(xs, before) && Ascending(ys, before) && multiset(xs) == multiset(ys)
    ensures xs == ys
  {
    hide Orders, Ascending;
    SameLength(xs, ys);
    if xs != [] {
      FirstAlike(xs, ys, before);
      RestSame(xs, ys);
      FromFirst(xs);
      OrdersPart(xs, xs[1..], before);
      AscendingRest(xs, before);
      AscendingRest(ys, before);
      OneSorting(xs[1..], ys[1..], before);
      assert xs == [xs[0]] + xs[1..] && ys == [ys[0]] + ys[1..];
    }
  }

  lemma RestSame<T>(xs: seq<T>, ys: seq<T>)
    requires xs != [] && ys != [] && multiset(xs) == multiset(ys) && xs[0] == ys[0]
    ensures multiset(xs[1..]) == multiset(ys[1..])
  {
    SameRest(xs, 0, ys, 0);
    FromFirst(xs);
    FromFirst(ys);
  }

  lemma FromFirst<T>(xs: seq<T>)
    requires xs != []
    ensures xs[..0] + xs[1..] == xs[1..] && forall y :: y in xs[1..] ==> y in xs
  {
  }

  lemma AscendingRest<T>(xs: seq<T>, before: (T, T) -> bool)
    requires xs != [] && Ascending(xs, before)
    ensures Ascending(xs[1..], before)
  {
  }

  lemma SameLength<T>(xs: seq<T>, ys: seq<T>)
    requires multiset(xs) == multiset(ys)
    ensures |xs| == |ys|
  {
    assert |xs| == |multiset(xs)| == |multiset(ys)| == |ys|;
  }

  lemma OneFirst<T(!new)>(xs: seq<T>, a: T, b: T, before: (T, T) -> bool)
    requires Orders(xs, before) && a in xs && b in xs
    ensures (a == b || before(a, b) || before(b, a)) && !(before(a, b) && before(b, a))
  {
  }

  lemma FirstAlike<T(!new)>(xs: seq<T>, ys: seq<T>, before: (T, T) -> bool)
    requires xs != [] && ys != [] && multiset(xs) == multiset(ys)
    requires Orders(xs, before) && Ascending(xs, before) && Ascending(ys, before)
    ensures xs[0] == ys[0]
  {
    InBoth(xs, ys);
    assert xs[0] in ys && ys[0] in xs;
    OneFirst(xs, xs[0], ys[0], before);
    hide Orders;
    var i :| 0 <= i < |xs| && xs[i] == ys[0];
    var j :| 0 <= j < |ys| && ys[j] == xs[0];
  }

  lemma SortedAlike<T(!new)>(xs: seq<T>, ys: seq<T>, before: (T, T) -> bool)
    requires Orders(xs, before) && multiset(xs) == multiset(ys)
    ensures Sorted(xs, before) == Sorted(ys, before)
  {
    hide Sorted;
    InBoth(xs, ys);
    OrdersPart(xs, ys, before);
    OrdersWeakly(xs, before);
    OrdersWeakly(ys, before);
    SortedAscends(xs, before);
    SortedAscends(ys, before);
    InBoth(xs, Sorted(xs, before));
    OrdersPart(xs, Sorted(xs, before), before);
    hide Orders, WeaklyOrders;
    OneSorting(Sorted(xs, before), Sorted(ys, before), before);
  }

  lemma TextOrders(xs: seq<string>)
    ensures Orders(xs, StrLess)
  {
    hide StrLess;
    forall a, b | a in xs && b in xs ensures (a == b || StrLess(a, b) || StrLess(b, a)) && !(StrLess(a, b) && StrLess(b, a)) {
      StrTrichotomy(a, b);
    }
    forall a, b, c | a in xs && b in xs && c in xs && StrLess(a, b) && StrLess(b, c) ensures StrLess(a, c) {
      StrTransitive(a, b, c);
    }
  }

  lemma InBoth<T>(xs: seq<T>, ys: seq<T>)
    requires multiset(xs) == multiset(ys)
    ensures forall x :: x in xs <==> x in ys
  {
    forall x ensures x in xs <==> x in ys {
      assert x in xs <==> x in multiset(xs);
      assert x in ys <==> x in multiset(ys);
    }
  }
}
