/** The part of the portal the ledger runs against: smart-process items with named cells, and the
    calls `crm.item.add`, `crm.item.update` and `crm.item.list` with equality filters and pages. */
module ItemStore {
  import opened Outcome

  datatype Val = Str(text: string) | Num(number: real)

  datatype Item = Item(etid: nat, id: nat, cells: map<string, Val>)

  /** `last` holds the last id given out in each process. */
  datatype Store = Store(items: seq<Item>, last: map<nat, nat>)

  datatype Call =
    | Add(etid: nat, fields: map<string, Val>)
    | Update(etid: nat, id: nat, fields: map<string, Val>)

  datatype Query = List(etid: nat, filter: map<string, Val>)

  function Value(item: Item, name: string): Option<Val>
  {
    if name == "id" then Some(Num(item.id as real))
    else if name in item.cells then Some(item.cells[name])
    else None
  }

  predicate Matches(item: Item, q: Query)
  {
    item.etid == q.etid && forall name :: name in q.filter ==> Value(item, name) == Some(q.filter[name])
  }

  function LastId(s: Store, etid: nat): nat
  {
    if etid in s.last then s.last[etid] else 0
  }

  predicate Is(item: Item, etid: nat, id: nat)
  {
    item.etid == etid && item.id == id
  }

  function Patch(item: Item, etid: nat, id: nat, fields: map<string, Val>): Item
  {
    if Is(item, etid, id) then item.(cells := item.cells + fields) else item
  }

  function Mapped(items: seq<Item>, f: Item -> Item): (r: seq<Item>)
    ensures |r| == |items| && forall k :: 0 <= k < |items| ==> r[k] == f(items[k])
  {
    seq(|items|, k requires 0 <= k < |items| => f(items[k]))
  }

  /** What a call does. An update of an item that is gone changes nothing. */
  function Exec(s: Store, call: Call): Store
  {
    match call
    case Add(etid, fields) =>
      var id := LastId(s, etid) + 1;
      Store(s.items + [Item(etid, id, fields)], s.last[etid := id])
    case Update(etid, id, fields) =>
      s.(items := Mapped(s.items, item => Patch(item, etid, id, fields)))
  }

  function Filter(items: seq<Item>, p: Item -> bool): (r: seq<Item>)
    ensures forall item :: item in r <==> item in items && p(item)
  {
    if items == [] then []
    else (if p(items[0]) then [items[0]] else []) + Filter(items[1..], p)
  }

  function Found(s: Store, q: Query): seq<Item>
  {
    Filter(s.items, item => Matches(item, q))
  }

  /** Puts an item into a list that runs from the newest to the oldest. */
  function InsertNewest(list: seq<Item>, item: Item): (r: seq<Item>)
    ensures |r| == |list| + 1
  {
    if list == [] || list[0].id < item.id then [item] + list else [list[0]] + InsertNewest(list[1..], item)
  }

  /** The items of one process, newest first: `crm.item.list` in descending order of ids. */
  function Newest(items: seq<Item>, etid: nat): seq<Item>
  {
    if items == [] then []
    else if items[0].etid == etid then InsertNewest(Newest(items[1..], etid), items[0])
    else Newest(items[1..], etid)
  }

  /** Ids are given out once per process. */
  ghost predicate Valid(s: Store)
  {
    && (forall k :: 0 <= k < |s.items| ==> 1 <= s.items[k].id <= LastId(s, s.items[k].etid))
    && IdsApart(s.items)
  }

  ghost predicate IdsApart(items: seq<Item>)
  {
    forall i, j :: 0 <= i < j < |items| ==> items[i].etid != items[j].etid || items[i].id != items[j].id
  }

  /** A portal user deletes an item. */
  ghost function Removed(s: Store, etid: nat, id: nat): Store
  {
    s.(items := Filter(s.items, item => !Is(item, etid, id)))
  }

  /** The live portal: the store, and the size of a page of a list. */
  class Portal {
    var store: Store
    const pageSize: nat

    constructor (store: Store, pageSize: nat)
      requires pageSize > 0
      ensures this.store == store && this.pageSize == pageSize
    {
      this.store := store;
      this.pageSize := pageSize;
    }

    method Send(call: Call) returns (id: nat)
      modifies this
      ensures store == Exec(old(store), call)
      ensures call.Add? ==> id == LastId(store, call.etid)
    {
      store := Exec(store, call);
      id := if call.Add? then LastId(store, call.etid) else 0;
    }

    /** One page, and where the next one starts, if there is one. */
    method ListPage(q: Query, start: nat) returns (items: seq<Item>, next: Option<nat>)
      requires pageSize > 0 && start <= |Found(store, q)|
      ensures next.None? ==> items == Found(store, q)[start..] && |Found(store, q)| <= start + pageSize
      ensures next.Some? ==> next.value == start + pageSize < |Found(store, q)|
                             && items == Found(store, q)[start..start + pageSize]
    {
      var all := Found(store, q);
      if start + pageSize < |all| {
        items, next := all[start..start + pageSize], Some(start + pageSize);
      } else {
        items, next := all[start..], None;
      }
    }

    /** One page of a process's items, newest first. */
    method ListNewest(etid: nat, start: nat) returns (items: seq<Item>, next: Option<nat>)
      requires pageSize > 0 && start <= |Newest(store.items, etid)|
      ensures next.None? ==> items == Newest(store.items, etid)[start..] && |Newest(store.items, etid)| <= start + pageSize
      ensures next.Some? ==> next.value == start + pageSize < |Newest(store.items, etid)|
                             && items == Newest(store.items, etid)[start..start + pageSize]
    {
      var all := Newest(store.items, etid);
      if start + pageSize < |all| {
        items, next := all[start..start + pageSize], Some(start + pageSize);
      } else {
        items, next := all[start..], None;
      }
    }
  }

  // ---- The newest items

  ghost predicate NewestFirst(list: seq<Item>)
  {
    forall i, j :: 0 <= i < j < |list| ==> list[i].id > list[j].id
  }

  function NewerThan(id: nat): Item -> bool
  {
    (item: Item) => item.id > id
  }

  function NewerIn(etid: nat, id: nat): Item -> bool
  {
    (item: Item) => item.etid == etid && item.id > id
  }

  /** How many items of the process are newer than an id. */
  function Newer(items: seq<Item>, etid: nat, id: nat): nat
  {
    |Filter(items, NewerIn(etid, id))|
  }

  lemma {:induction false} InsertNewestMembers(list: seq<Item>, item: Item)
    ensures forall x :: x in InsertNewest(list, item) <==> x in list || x == item
  {
    if list != [] && list[0].id >= item.id {
      InsertNewestMembers(list[1..], item);
      assert list == [list[0]] + list[1..];
    }
  }

  lemma {:induction false} InsertNewestCount(list: seq<Item>, item: Item, p: Item -> bool)
    ensures |Filter(InsertNewest(list, item), p)| == |Filter(list, p)| + if p(item) then 1 else 0
  {
    if list != [] && list[0].id >= item.id {
      InsertNewestCount(list[1..], item, p);
      assert InsertNewest(list, item)[1..] == InsertNewest(list[1..], item);
    } else {
      assert ([item] + list)[1..] == list;
    }
  }

  lemma {:induction false} InsertNewestOrder(list: seq<Item>, item: Item)
    requires NewestFirst(list) && forall x :: x in list ==> x.id != item.id
    ensures NewestFirst(InsertNewest(list, item))
  {
    if list != [] && list[0].id >= item.id {
      var rest := InsertNewest(list[1..], item);
      forall x | x in list[1..] ensures x in list && x.id < list[0].id {
      }
      InsertNewestOrder(list[1..], item);
      InsertNewestMembers(list[1..], item);
      assert list[0].id > item.id by { assert list[0] in list; }
      forall k | 0 <= k < |rest| ensures rest[k].id < list[0].id {
        assert rest[k] in rest;
      }
    }
  }

  /** Every item of the process is listed, by falling ids. */
  lemma {:induction false} NewestListed(items: seq<Item>, etid: nat)
    requires IdsApart(items)
    ensures forall x :: x in Newest(items, etid) <==> x in items && x.etid == etid
    ensures NewestFirst(Newest(items, etid))
  {
    hide NewestFirst, InsertNewest;
    if items == [] {
      NothingNewest();
    } else {
      NewestListed(items[1..], etid);
      assert items == [items[0]] + items[1..];
      if items[0].etid == etid {
        forall x | x in Newest(items[1..], etid) ensures x.id != items[0].id {
          var k :| 0 <= k < |items[1..]| && items[1..][k] == x;
          assert items[k + 1] == x;
        }
        InsertNewestMembers(Newest(items[1..], etid), items[0]);
        InsertNewestOrder(Newest(items[1..], etid), items[0]);
      }
    }
  }

  lemma NothingNewest()
    ensures NewestFirst([])
  {
  }

  lemma {:induction false} NewestCount(items: seq<Item>, etid: nat, id: nat)
    ensures |Filter(Newest(items, etid), NewerThan(id))| == Newer(items, etid, id)
  {
    hide InsertNewest;
    if items != [] {
      NewestCount(items[1..], etid, id);
      if items[0].etid == etid {
        InsertNewestCount(Newest(items[1..], etid), items[0], NewerThan(id));
      }
    }
  }

  lemma {:induction false} FilterNone(items: seq<Item>, p: Item -> bool)
    requires forall x :: x in items ==> !p(x)
    ensures Filter(items, p) == []
  {
    if items != [] {
      FilterNone(items[1..], p);
    }
  }

  lemma {:induction false} PlaceInList(list: seq<Item>, j: nat)
    requires NewestFirst(list) && j < |list|
    ensures |Filter(list, NewerThan(list[j].id))| == j
  {
    if j == 0 {
      FilterNone(list, NewerThan(list[0].id));
    } else {
      PlaceInList(list[1..], j - 1);
      assert list[0].id > list[j].id;
    }
  }

  /** An item stands in the list behind as many as are newer than it. */
  lemma NewestPlace(items: seq<Item>, etid: nat, j: nat)
    requires IdsApart(items) && j < |Newest(items, etid)|
    ensures Newer(items, etid, Newest(items, etid)[j].id) == j
  {
    hide Newest, Filter, NewestFirst, NewerThan, NewerIn;
    NewestListed(items, etid);
    NewestCount(items, etid, Newest(items, etid)[j].id);
    PlaceInList(Newest(items, etid), j);
  }

  // ---- Sums over items

  ghost function Tally(items: seq<Item>, w: Item -> real): real
  {
    if items == [] then 0.0 else w(items[0]) + Tally(items[1..], w)
  }

  lemma {:induction false} TallyAppend(a: seq<Item>, b: seq<Item>, w: Item -> real)
    ensures Tally(a + b, w) == Tally(a, w) + Tally(b, w)
  {
    if a == [] {
      assert a + b == b;
    } else {
      assert (a + b)[1..] == a[1..] + b;
      TallyAppend(a[1..], b, w);
    }
  }

  /** Item by item, `x` is `y` less `z`: so are the sums. */
  lemma {:induction false} TallyLess(xs: seq<Item>, ys: seq<Item>, x: Item -> real, y: Item -> real, z: Item -> real)
    requires |xs| == |ys|
    requires forall k :: 0 <= k < |xs| ==> x(xs[k]) == y(ys[k]) - z(ys[k])
    ensures Tally(xs, x) == Tally(ys, y) - Tally(ys, z)
  {
    if xs != [] {
      TallyLess(xs[1..], ys[1..], x, y, z);
    }
  }

  lemma {:induction false} TallySame(xs: seq<Item>, ys: seq<Item>, x: Item -> real, y: Item -> real)
    requires |xs| == |ys| && forall k :: 0 <= k < |xs| ==> x(xs[k]) == y(ys[k])
    ensures Tally(xs, x) == Tally(ys, y)
  {
    if xs != [] {
      TallySame(xs[1..], ys[1..], x, y);
    }
  }

  lemma {:induction false} TallyZero(items: seq<Item>, w: Item -> real)
    requires forall k :: 0 <= k < |items| ==> w(items[k]) == 0.0
    ensures Tally(items, w) == 0.0
  {
    if items != [] {
      TallyZero(items[1..], w);
    }
  }

  lemma {:induction false} TallyFiltered(items: seq<Item>, p: Item -> bool, w: Item -> real, whole: Item -> real)
    requires forall item :: item in items ==> whole(item) == if p(item) then w(item) else 0.0
    ensures Tally(Filter(items, p), w) == Tally(items, whole)
  {
    if items != [] {
      TallyFiltered(items[1..], p, w, whole);
      var rest := Filter(items[1..], p);
      if p(items[0]) {
        assert ([items[0]] + rest)[1..] == rest;
      } else {
        assert [] + rest == rest;
      }
    }
  }

  lemma {:induction false} FilterAppend(a: seq<Item>, b: seq<Item>, p: Item -> bool)
    ensures Filter(a + b, p) == Filter(a, p) + Filter(b, p)
  {
    if a == [] {
      assert a + b == b;
    } else {
      assert (a + b)[1..] == a[1..] + b;
      FilterAppend(a[1..], b, p);
    }
  }

  // ---- What calls keep

  lemma AddKeepsValid(s: Store, etid: nat, fields: map<string, Val>)
    requires Valid(s)
    ensures Valid(Exec(s, Add(etid, fields)))
  {
  }

  lemma {:induction false} FilterKeepsIdsApart(items: seq<Item>, p: Item -> bool)
    requires IdsApart(items)
    ensures IdsApart(Filter(items, p))
  {
    if items != [] {
      FilterKeepsIdsApart(items[1..], p);
      var rest := Filter(items[1..], p);
      forall k | 0 <= k < |rest| ensures items[0].etid != rest[k].etid || items[0].id != rest[k].id {
        assert rest[k] in items[1..];
      }
    }
  }

  lemma RemovedKeepsValid(s: Store, etid: nat, id: nat)
    requires Valid(s)
    ensures Valid(Removed(s, etid, id))
  {
    var t := Removed(s, etid, id).items;
    FilterKeepsIdsApart(s.items, item => !Is(item, etid, id));
    forall k | 0 <= k < |t| ensures 1 <= t[k].id <= LastId(s, t[k].etid) {
      assert t[k] in s.items;
    }
  }

  /** Of a filtered list, the first so many are those with fewer than so many ahead of them. */
  lemma FirstOnes(items: seq<Item>, p: Item -> bool, k: nat, cap: nat)
    requires IdsApart(items) && k < |items|
    ensures var all := Filter(items, p);
            items[k] in (if |all| <= cap then all else all[..cap]) <==> p(items[k]) && |Filter(items[..k], p)| < cap
  {
    var front, item, back := items[..k], items[k], items[k + 1..];
    var all := Filter(items, p);
    if p(item) {
      hide Filter;
      assert items == front + ([item] + back);
      FilterAppend(front, [item] + back, p);
      FilterAppend([item], back, p);
      FilterOne(item, p);
      var n := |Filter(front, p)|;
      assert all[n] == item;
      FilterKeepsIdsApart(items, p);
      if i :| 0 <= i < |all| && all[i] == item {
        assert i == n;
      }
    }
  }

  lemma FilterOne(item: Item, p: Item -> bool)
    ensures Filter([item], p) == if p(item) then [item] else []
  {
    assert [item][1..] == [];
  }

  lemma {:induction false} FewerFound(xs: seq<Item>, ys: seq<Item>, p: Item -> bool)
    requires |xs| == |ys| && forall k :: 0 <= k < |xs| && p(xs[k]) ==> p(ys[k])
    ensures |Filter(xs, p)| <= |Filter(ys, p)|
  {
    if xs != [] {
      FewerFound(xs[1..], ys[1..], p);
    }
  }

  lemma SameById(s: Store, i: nat, j: nat)
    requires Valid(s) && i < |s.items| && j < |s.items|
    requires s.items[i].etid == s.items[j].etid && s.items[i].id == s.items[j].id
    ensures i == j
  {
  }
}
