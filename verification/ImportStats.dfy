/** The numbers shown after an import (app/utils/importStats.ts): totals by currency, the currency with the
    most operations, and its income and expense by day. Sums are exact here; that accumulating doubles and
    rounding once gives the exact cents is `Money.AccumulateThenRound`. */
module ImportStats {
  import opened Outcome
  import opened Ordering
  import opened Text
  import opened DayValue
  import opened Money
  import opened Statement

  function OperationDay(item: Item): string
  {
    var raw := if item.operDate != "" then item.operDate else item.acceptDate;
    var day := if |raw| > 10 then raw[..10] else raw;
    if Shape(day) then day else ""
  }

  function SafeAmount(amount: real): real
  {
    if amount > 0.0 then amount else 0.0
  }

  lemma AmountExactly(amount: real)
    ensures SafeAmount(amount) == if amount < 0.0 then 0.0 else amount
  {
  }

  /** The day of an operation is that of the document where there is one, else that of the posting: the first ten
      characters, if they are spelled as a day, however the text goes on. */
  lemma DayExactly(item: Item, day: string)
    ensures var raw := if item.operDate == "" then item.acceptDate else item.operDate;
            day != "" ==> (OperationDay(item) == day <==> day <= raw && |day| == 10 && SpelledAsDay(day))
  {
    hide SpelledAsDay, Shape;
    var raw := if item.operDate == "" then item.acceptDate else item.operDate;
    var front := if |raw| > 10 then raw[..10] else raw;
    TenLong(front);
    if |day| == 10 {
      ShapeSpelled(day);
      assert day <= raw <==> front == day;
    }
  }

  lemma TenLong(s: string)
    ensures Shape(s) ==> |s| == 10
  {
  }

  lemma ShapeSpelled(s: string)
    requires |s| == 10
    ensures Shape(s) <==> SpelledAsDay(s)
  {
    if Shape(s) {
      assert forall k :: 0 <= k < 4 ==> s[..4][k] == s[k];
      assert s[5..7][0] == s[5] && s[5..7][1] == s[6] && s[8..][0] == s[8] && s[8..][1] == s[9];
    }
  }

  ghost predicate SpelledAsDay(s: string)
    requires |s| == 10
  {
    forall k :: 0 <= k < 10 ==> if k == 4 || k == 7 then s[k] == '-' else '0' <= s[k] <= '9'
  }

  // ---- Sums over picked items

  /** Items of one currency and one direction, and of one day if a day is named. */
  datatype Pick = Pick(currency: string, credit: bool, day: Option<string>)

  predicate Picks(p: Pick, item: Item)
  {
    item.currency == p.currency && (item.direction == Credit) == p.credit && (p.day.Some? ==> OperationDay(item) == p.day.value)
  }

  function Sum(items: seq<Item>, p: Pick): real
  {
    if items == [] then 0.0
    else Sum(items[..|items| - 1], p) + if Picks(p, items[|items| - 1]) then SafeAmount(items[|items| - 1].amount) else 0.0
  }

  function Count(items: seq<Item>, p: Pick): nat
  {
    if items == [] then 0 else Count(items[..|items| - 1], p) + if Picks(p, items[|items| - 1]) then 1 else 0
  }

  datatype Total = Total(currency: string, income: real, expense: real, incomeCount: nat, expenseCount: nat)

  datatype Day = Day(income: real, expense: real)

  function TotalOf(items: seq<Item>, c: string): Total
  {
    Total(c, Sum(items, Pick(c, true, None)), Sum(items, Pick(c, false, None)), Count(items, Pick(c, true, None)),
          Count(items, Pick(c, false, None)))
  }

  function DayOf(items: seq<Item>, c: string, day: string): Day
  {
    Day(Sum(items, Pick(c, true, Some(day))), Sum(items, Pick(c, false, Some(day))))
  }

  ghost predicate HasCurrency(items: seq<Item>, c: string)
  {
    exists k :: 0 <= k < |items| && items[k].currency == c
  }

  /** An operation of the currency on this day. */
  ghost predicate HasDay(items: seq<Item>, c: string, day: string)
  {
    day != "" && exists k :: 0 <= k < |items| && items[k].currency == c && OperationDay(items[k]) == day
  }

  lemma OneMoreCurrency(items: seq<Item>, item: Item, c: string)
    ensures HasCurrency(items + [item], c) <==> HasCurrency(items, c) || item.currency == c
  {
    if k :| 0 <= k < |items| && items[k].currency == c {
      assert (items + [item])[k] == items[k];
    }
    assert (items + [item])[|items|] == item;
  }

  lemma OneMoreDay(items: seq<Item>, item: Item, c: string, day: string)
    ensures HasDay(items + [item], c, day) <==>
            HasDay(items, c, day) || (day != "" && item.currency == c && OperationDay(item) == day)
  {
    hide OperationDay;
    if k :| 0 <= k < |items| && items[k].currency == c && OperationDay(items[k]) == day {
      assert (items + [item])[k] == items[k];
    }
    assert (items + [item])[|items|] == item;
  }

  lemma OneMoreSum(items: seq<Item>, item: Item, p: Pick)
    ensures Sum(items + [item], p) == Sum(items, p) + (if Picks(p, item) then SafeAmount(item.amount) else 0.0)
    ensures Count(items + [item], p) == Count(items, p) + (if Picks(p, item) then 1 else 0)
  {
    hide Picks;
    assert (items + [item])[..|items|] == items;
  }

  lemma {:induction false} NothingPicked(items: seq<Item>, p: Pick)
    requires p.day.None? ==> !HasCurrency(items, p.currency)
    requires p.day.Some? ==> p.day.value != "" && !HasDay(items, p.currency, p.day.value)
    ensures Sum(items, p) == 0.0 && Count(items, p) == 0
  {
    hide OperationDay, HasCurrency, HasDay;
    if items != [] {
      var n := |items| - 1;
      assert items == items[..n] + [items[n]];
      OneMoreCurrency(items[..n], items[n], p.currency);
      if p.day.Some? {
        OneMoreDay(items[..n], items[n], p.currency, p.day.value);
      }
      NothingPicked(items[..n], p);
    }
  }

  /** One pass collecting the totals by currency. */
  method CollectTotals(items: seq<Item>) returns (totals: map<string, Total>)
    ensures forall c :: (c in totals <==> HasCurrency(items, c)) && (c in totals ==> totals[c] == TotalOf(items, c))
  {
    hide HasCurrency, Sum, Count;
    totals := map[];
    NoCurrency();
    for i := 0 to |items|
      invariant forall c :: (c in totals <==> HasCurrency(items[..i], c)) && (c in totals ==> totals[c] == TotalOf(items[..i], c))
    {
      var item := items[i];
      var t := if item.currency in totals then totals[item.currency] else Total(item.currency, 0.0, 0.0, 0, 0);
      var amount := SafeAmount(item.amount);
      t := if item.direction == Credit then t.(income := t.income + amount, incomeCount := t.incomeCount + 1)
           else t.(expense := t.expense + amount, expenseCount := t.expenseCount + 1);
      assert items[..i + 1] == items[..i] + [item];
      ghost var before := totals;
      totals := totals[item.currency := t];
      forall c ensures (c in totals <==> HasCurrency(items[..i + 1], c)) && (c in totals ==> totals[c] == TotalOf(items[..i + 1], c)) {
        OneMoreCurrency(items[..i], item, c);
        OneMoreTotal(items[..i], item, c);
        assert c != item.currency ==> (c in totals <==> c in before);
      }
    }
    assert items[..|items|] == items;
  }

  lemma NoCurrency()
    ensures forall c :: !HasCurrency([], c)
  {
  }

  lemma OneMoreTotal(items: seq<Item>, item: Item, c: string)
    ensures var t := TotalOf(items, c);
            TotalOf(items + [item], c) ==
            if item.currency != c then t
            else if item.direction == Credit then t.(income := t.income + SafeAmount(item.amount), incomeCount := t.incomeCount + 1)
            else t.(expense := t.expense + SafeAmount(item.amount), expenseCount := t.expenseCount + 1)
    ensures !HasCurrency(items, c) ==> TotalOf(items, c) == Total(c, 0.0, 0.0, 0, 0)
  {
    hide Sum, Count, SafeAmount, HasCurrency, OperationDay;
    OneMoreSum(items, item, Pick(c, true, None));
    OneMoreSum(items, item, Pick(c, false, None));
    if !HasCurrency(items, c) {
      NothingPicked(items, Pick(c, true, None));
      NothingPicked(items, Pick(c, false, None));
    }
  }

  /** One pass collecting the days of one currency. */
  method CollectDays(items: seq<Item>, c: string) returns (days: map<string, Day>)
    ensures forall d :: (d in days <==> HasDay(items, c, d)) && (d in days ==> days[d] == DayOf(items, c, d))
  {
    hide HasDay, Sum, OperationDay;
    days := map[];
    NoDay(c);
    for i := 0 to |items|
      invariant forall d :: (d in days <==> HasDay(items[..i], c, d)) && (d in days ==> days[d] == DayOf(items[..i], c, d))
    {
      var item := items[i];
      assert items[..i + 1] == items[..i] + [item];
      forall d ensures (HasDay(items[..i + 1], c, d) <==> HasDay(items[..i], c, d) || (d != "" && item.currency == c && OperationDay(item) == d)) {
        OneMoreDay(items[..i], item, c, d);
      }
      forall d | d != "" ensures DayOf(items[..i + 1], c, d) == DayPlus(items[..i], item, c, d)
                                 && (!HasDay(items[..i], c, d) ==> DayOf(items[..i], c, d) == Day(0.0, 0.0))
      {
        OneMoreDayOf(items[..i], item, c, d);
      }
      NamedDays(items[..i], c);
      if item.currency != c || OperationDay(item) == "" {
        continue;
      }
      var day := OperationDay(item);
      var bucket := if day in days then days[day] else Day(0.0, 0.0);
      var amount := SafeAmount(item.amount);
      bucket := if item.direction == Credit then bucket.(income := bucket.income + amount) else bucket.(expense := bucket.expense + amount);
      days := days[day := bucket];
    }
    assert items[..|items|] == items;
  }

  lemma NoDay(c: string)
    ensures forall d :: !HasDay([], c, d)
  {
  }

  lemma NamedDays(items: seq<Item>, c: string)
    ensures forall d :: HasDay(items, c, d) ==> d != ""
  {
  }

  function DayPlus(items: seq<Item>, item: Item, c: string, d: string): Day
  {
    var b := DayOf(items, c, d);
    if item.currency != c || OperationDay(item) != d then b
    else if item.direction == Credit then b.(income := b.income + SafeAmount(item.amount))
    else b.(expense := b.expense + SafeAmount(item.amount))
  }

  lemma OneMoreDayOf(items: seq<Item>, item: Item, c: string, d: string)
    requires d != ""
    ensures DayOf(items + [item], c, d) == DayPlus(items, item, c, d)
    ensures !HasDay(items, c, d) ==> DayOf(items, c, d) == Day(0.0, 0.0)
  {
    hide Sum, Count, SafeAmount, HasDay, OperationDay;
    OneMoreSum(items, item, Pick(c, true, Some(d)));
    OneMoreSum(items, item, Pick(c, false, Some(d)));
    if !HasDay(items, c, d) {
      NothingPicked(items, Pick(c, true, Some(d)));
      NothingPicked(items, Pick(c, false, Some(d)));
    }
  }

  // ---- Listing in order

  ghost predicate StrictlyAscending(keys: seq<string>)
  {
    forall i, j :: 0 <= i < j < |keys| ==> StrLess(keys[i], keys[j])
  }

  lemma InsertKey(keys: seq<string>, key: string)
    requires StrictlyAscending(keys) && key !in keys
    ensures StrictlyAscending(Insert(keys, key, StrLess)) && forall k :: k in Insert(keys, key, StrLess) <==> k in keys || k == key
  {
    hide StrLess;
    var more := Insert(keys, key, StrLess);
    forall i, j | 0 <= i < j < |keys| ensures !StrLess(keys[j], keys[i]) && keys[i] != keys[j] {
      StrTrichotomy(keys[i], keys[j]);
    }
    TextOrders(keys + [key]);
    OrdersWeakly(keys + [key], StrLess);
    InsertAscends(keys, key, StrLess);
    InsertSame(keys, key, StrLess);
    Once(keys, key, more);
    forall i, j | 0 <= i < j < |more| ensures StrLess(more[i], more[j]) {
      StrTrichotomy(more[i], more[j]);
    }
  }

  lemma Once(keys: seq<string>, key: string, more: seq<string>)
    requires NoRepeats(keys) && key !in keys && multiset(more) == multiset(keys) + multiset{key}
    ensures NoRepeats(more)
  {
    CountOfDistinct(keys);
    OnceEach(more);
  }

  method Listed(keys: set<string>) returns (sorted: seq<string>)
    ensures StrictlyAscending(sorted) && forall k :: k in sorted <==> k in keys
  {
    sorted := [];
    var left := keys;
    while left != {}
      invariant left <= keys && StrictlyAscending(sorted) && forall k :: k in sorted <==> k in keys - left
    {
      var key :| key in left;
      InsertKey(sorted, key);
      sorted := Insert(sorted, key, StrLess);
      left := left - {key};
    }
  }

  // ---- The statistics

  datatype DayBucket = DayBucket(date: string, income: real, expense: real)

  datatype Stats = Stats(total: nat, byCurrency: seq<Total>, dominantCurrency: Option<string>, byDay: seq<DayBucket>)

  function RoundedTotal(t: Total): Total
  {
    t.(income := Round2(t.income), expense := Round2(t.expense))
  }

  function Bucket(date: string, d: Day): DayBucket
  {
    DayBucket(date, Round2(d.income), Round2(d.expense))
  }

  function Operations(t: Total): nat
  {
    t.incomeCount + t.expenseCount
  }

  /** The rows of `byCurrency`: each currency of the items once, in order, with its own totals. */
  ghost predicate ByCurrency(items: seq<Item>, rows: seq<Total>)
  {
    && (forall i, j :: 0 <= i < j < |rows| ==> StrLess(rows[i].currency, rows[j].currency))
    && (forall i :: 0 <= i < |rows| ==> HasCurrency(items, rows[i].currency) && rows[i] == RoundedTotal(TotalOf(items, rows[i].currency)))
    && (forall c :: HasCurrency(items, c) ==> exists i :: 0 <= i < |rows| && rows[i].currency == c)
  }

  ghost predicate ByDay(items: seq<Item>, c: string, days: seq<DayBucket>)
  {
    && (forall i, j :: 0 <= i < j < |days| ==> StrLess(days[i].date, days[j].date))
    && (forall i :: 0 <= i < |days| ==> HasDay(items, c, days[i].date) && days[i] == Bucket(days[i].date, DayOf(items, c, days[i].date)))
    && (forall d :: HasDay(items, c, d) ==> exists i :: 0 <= i < |days| && days[i].date == d)
  }

  /** No currency has more operations, and none with as many comes earlier in the alphabet. */
  ghost predicate Dominant(rows: seq<Total>, k: nat)
    requires k < |rows|
  {
    forall j :: 0 <= j < |rows| ==> Operations(rows[j]) <= Operations(rows[k]) && (j < k ==> Operations(rows[j]) < Operations(rows[k]))
  }

  method DayBucketsForCurrency(items: seq<Item>, c: string) returns (buckets: seq<DayBucket>)
    ensures ByDay(items, c, buckets)
  {
    hide HasDay, DayOf, Round2, StrLess;
    var days := CollectDays(items, c);
    var sorted := Listed(days.Keys);
    buckets := [];
    for i := 0 to |sorted|
      invariant |buckets| == i
      invariant forall k :: 0 <= k < i ==> buckets[k] == Bucket(sorted[k], DayOf(items, c, sorted[k]))
    {
      assert sorted[i] in days;
      buckets := buckets + [Bucket(sorted[i], days[sorted[i]])];
    }
    forall i | 0 <= i < |buckets| ensures HasDay(items, c, buckets[i].date) {
      assert sorted[i] in sorted;
    }
    forall d | HasDay(items, c, d) ensures exists i :: 0 <= i < |buckets| && buckets[i].date == d {
      assert d in sorted;
      var i :| 0 <= i < |sorted| && sorted[i] == d;
      assert buckets[i].date == d;
    }
  }

  method TotalsByCurrency(items: seq<Item>) returns (rows: seq<Total>)
    ensures ByCurrency(items, rows)
  {
    hide HasCurrency, Round2, StrLess, Sum, Count;
    var totals := CollectTotals(items);
    var sorted := Listed(totals.Keys);
    rows := [];
    for i := 0 to |sorted|
      invariant |rows| == i
      invariant forall k :: 0 <= k < i ==> rows[k] == RoundedTotal(TotalOf(items, sorted[k]))
    {
      assert sorted[i] in totals;
      rows := rows + [RoundedTotal(totals[sorted[i]])];
    }
    forall i | 0 <= i < |rows| ensures HasCurrency(items, rows[i].currency) {
      assert sorted[i] in sorted;
    }
    forall c | HasCurrency(items, c) ensures exists i :: 0 <= i < |rows| && rows[i].currency == c {
      assert c in sorted;
      var i :| 0 <= i < |sorted| && sorted[i] == c;
      assert rows[i].currency == c;
    }
  }

  /** The statistics: every currency's totals in order, the dominant currency, and its days. */
  method ComputeImportStats(items: seq<Item>) returns (s: Stats)
    ensures s.total == |items| && ByCurrency(items, s.byCurrency)
    ensures s.dominantCurrency.None? <==> items == []
    ensures s.dominantCurrency.None? ==> s.byDay == []
    ensures s.dominantCurrency.Some? ==>
              && (exists k :: 0 <= k < |s.byCurrency| && s.byCurrency[k].currency == s.dominantCurrency.value && Dominant(s.byCurrency, k))
              && ByDay(items, s.dominantCurrency.value, s.byDay)
  {
    hide ByDay, ByCurrency, StrLess;
    var rows := TotalsByCurrency(items);
    var best: int := -1;
    var dominant: Option<string> := None;
    ghost var at := 0;
    for i := 0 to |rows|
      invariant i == 0 ==> dominant == None && best == -1
      invariant i > 0 ==> at < i && dominant == Some(rows[at].currency) && best == Operations(rows[at])
      invariant i > 0 ==> forall j :: 0 <= j < i ==> Operations(rows[j]) <= best && (j < at ==> Operations(rows[j]) < best)
    {
      var count := Operations(rows[i]);
      if count > best {
        best, dominant, at := count, Some(rows[i].currency), i;
      }
    }
    RowsForItems(items, rows);
    var days: seq<DayBucket> := [];
    if dominant.Some? {
      days := DayBucketsForCurrency(items, dominant.value);
      assert Dominant(rows, at);
    }
    s := Stats(|items|, rows, dominant, days);
  }

  lemma RowsForItems(items: seq<Item>, rows: seq<Total>)
    requires ByCurrency(items, rows)
    ensures rows == [] <==> items == []
  {
    if items != [] {
      assert HasCurrency(items, items[0].currency);
    }
    if rows != [] {
      assert HasCurrency(items, rows[0].currency);
    }
  }

  // ---- Nothing is lost

  ghost function AllOperations(rows: seq<Total>): nat
  {
    if rows == [] then 0 else AllOperations(rows[..|rows| - 1]) + Operations(rows[|rows| - 1])
  }

  /** The operations of the named currencies, one currency after the other. */
  ghost function OperationsOf(items: seq<Item>, currencies: seq<string>): nat
  {
    if currencies == [] then 0
    else
      var n := |currencies| - 1;
      OperationsOf(items, currencies[..n]) + Operations(TotalOf(items, currencies[n]))
  }

  lemma {:induction false} OneMoreOperation(items: seq<Item>, item: Item, currencies: seq<string>)
    requires forall i, j :: 0 <= i < j < |currencies| ==> currencies[i] != currencies[j]
    ensures OperationsOf(items + [item], currencies) ==
            OperationsOf(items, currencies) + if item.currency in currencies then 1 else 0
  {
    hide HasCurrency, Sum, Count;
    if currencies != [] {
      var n := |currencies| - 1;
      OneMoreOperation(items, item, currencies[..n]);
      OneMoreTotal(items, item, currencies[n]);
      assert currencies == currencies[..n] + [currencies[n]];
    }
  }

  lemma {:induction false} NoOperations(currencies: seq<string>)
    ensures OperationsOf([], currencies) == 0
  {
    if currencies != [] {
      NoOperations(currencies[..|currencies| - 1]);
    }
  }

  lemma {:induction false} OperationsPartition(items: seq<Item>, currencies: seq<string>)
    requires forall i, j :: 0 <= i < j < |currencies| ==> currencies[i] != currencies[j]
    requires forall k :: 0 <= k < |items| ==> items[k].currency in currencies
    ensures OperationsOf(items, currencies) == |items|
  {
    if items == [] {
      NoOperations(currencies);
    } else {
      var n := |items| - 1;
      OperationsPartition(items[..n], currencies);
      OneMoreOperation(items[..n], items[n], currencies);
      assert items == items[..n] + [items[n]];
    }
  }

  lemma {:induction false} RowsCount(items: seq<Item>, rows: seq<Total>)
    requires forall i :: 0 <= i < |rows| ==> rows[i] == RoundedTotal(TotalOf(items, rows[i].currency))
    ensures AllOperations(rows) == OperationsOf(items, CurrenciesOf(rows))
  {
    hide Sum, Count, Round2;
    if rows != [] {
      var n := |rows| - 1;
      RowsCount(items, rows[..n]);
      assert CurrenciesOf(rows)[..n] == CurrenciesOf(rows[..n]);
    }
  }

  ghost function CurrenciesOf(rows: seq<Total>): (cs: seq<string>)
    ensures |cs| == |rows| && forall k :: 0 <= k < |rows| ==> cs[k] == rows[k].currency
  {
    seq(|rows|, k requires 0 <= k < |rows| => rows[k].currency)
  }

  /** Every operation is counted in exactly one currency. */
  lemma OperationsAddUp(items: seq<Item>, rows: seq<Total>)
    requires ByCurrency(items, rows)
    ensures AllOperations(rows) == |items|
  {
    hide StrLess, TotalOf, Round2;
    RowsCount(items, rows);
    var cs := CurrenciesOf(rows);
    forall i, j | 0 <= i < j < |cs| ensures cs[i] != cs[j] {
      StrTrichotomy(cs[i], cs[j]);
    }
    forall k | 0 <= k < |items| ensures items[k].currency in cs {
      assert HasCurrency(items, items[k].currency);
      var i :| 0 <= i < |rows| && rows[i].currency == items[k].currency;
      assert cs[i] == items[k].currency;
    }
    OperationsPartition(items, cs);
  }

  lemma {:induction false} WholeSums(items: seq<Item>, p: Pick)
    requires forall k :: 0 <= k < |items| ==> WholeCents(items[k].amount)
    ensures WholeCents(Sum(items, p))
  {
    hide Picks, WholeCents;
    Round2Whole(0.0);
    if items != [] {
      var n := |items| - 1;
      WholeSums(items[..n], p);
      WholeCentsClosed(Sum(items[..n], p), SafeAmount(items[n].amount));
    }
  }

  /** Of whole-cent amounts the rounding takes nothing away: the shown totals are the sums. */
  lemma RoundingLosesNothing(items: seq<Item>, c: string, d: string)
    requires forall k :: 0 <= k < |items| ==> WholeCents(items[k].amount)
    ensures RoundedTotal(TotalOf(items, c)) == TotalOf(items, c)
    ensures Bucket(d, DayOf(items, c, d)) == DayBucket(d, DayOf(items, c, d).income, DayOf(items, c, d).expense)
  {
    hide Sum, WholeCents, Round2;
    WholeSums(items, Pick(c, true, None));
    WholeSums(items, Pick(c, false, None));
    WholeSums(items, Pick(c, true, Some(d)));
    WholeSums(items, Pick(c, false, Some(d)));
    WholeCentsRound(Sum(items, Pick(c, true, None)));
    WholeCentsRound(Sum(items, Pick(c, false, None)));
    WholeCentsRound(Sum(items, Pick(c, true, Some(d))));
    WholeCentsRound(Sum(items, Pick(c, false, Some(d))));
  }
}
