/**
 * The data side of the planning screen (App.tsx): the segment filter, the per-date
 * aggregation of sales into historical points, the merge of history and forecast,
 * the dashboard's total volume, the driver update of the scenario planner, and the
 * forecast pipeline that ties them together.
 */
module App {
  import opened Wrappers
  import opened JsStrings
  import opened Sorting
  import opened Types
  import opened BigQueryService

  // ---------------------------------------------------------------- segment filter

  const AllCategories := "All Categories"
  const AllBrands := "All Brands"
  const AllSkus := "All SKUs"

  /** The category, brand and sku chosen on the forecast screen; the sentinels above select everything. */
  datatype Filters = Filters(category: string, brand: string, sku: string)

  const NoFilters := Filters(AllCategories, AllBrands, AllSkus)

  /** `new Map(items.map(i => [i.sku, i]))`; an undefined sku is a key like any other. */
  type ItemMap = map<Option<string>, ItemMaster>

  function ItemLookup(items: seq<ItemMaster>): ItemMap
    decreases |items|
  {
    if |items| == 0 then map[]
    else
      var last := items[|items| - 1];
      ItemLookup(items[..|items| - 1])[last.sku := last]
  }

  /** `itemMap.get(sku)`. */
  function ItemFor(lookup: ItemMap, sku: Option<string>): Option<ItemMaster> {
    if sku in lookup then Some(lookup[sku]) else None
  }

  /** The index of the last item with this sku. */
  function LastWithSku(items: seq<ItemMaster>, sku: Option<string>): (r: Option<nat>)
    ensures r.Some? ==> r.value < |items| && items[r.value].sku == sku
    ensures r.Some? ==> forall j :: r.value < j < |items| ==> items[j].sku != sku
    ensures r.None? ==> forall j :: 0 <= j < |items| ==> items[j].sku != sku
    decreases |items|
  {
    if |items| == 0 then None
    else if items[|items| - 1].sku == sku then Some(|items| - 1)
    else LastWithSku(items[..|items| - 1], sku)
  }

  /** For duplicate skus the item master listed last is the one the lookup finds. */
  lemma {:induction false} ItemLookupLastWins(items: seq<ItemMaster>, sku: Option<string>)
    ensures ItemFor(ItemLookup(items), sku)
         == match LastWithSku(items, sku) case None => None case Some(i) => Some(items[i])
    decreases |items|
  {
    if |items| > 0 {
      var n := |items| - 1;
      ItemLookupLastWins(items[..n], sku);
      match LastWithSku(items[..n], sku)
      case None =>
      case Some(i) => assert items[..n][i] == items[i];
    }
  }

  /** The filter callback: every constraint that is not at its sentinel must hold. */
  predicate Matches(f: Filters, lookup: ItemMap, s: SalesData) {
    var item := ItemFor(lookup, s.sku);
    && (f.category == AllCategories || (item.Some? && item.value.category == Some(f.category)))
    && (f.brand == AllBrands || (item.Some? && item.value.brand == Some(f.brand)))
    && (f.sku == AllSkus || s.sku == Some(f.sku))
  }

  /** `sales.filter(...)`. */
  function Keep(sales: seq<SalesData>, lookup: ItemMap, f: Filters): seq<SalesData>
    decreases |sales|
  {
    if |sales| == 0 then []
    else
      var last := sales[|sales| - 1];
      Keep(sales[..|sales| - 1], lookup, f) + (if Matches(f, lookup, last) then [last] else [])
  }

  /** The sales the forecast's history is built from. */
  function FilterSales(sales: seq<SalesData>, items: seq<ItemMaster>, f: Filters): seq<SalesData> {
    if f == NoFilters then sales else Keep(sales, ItemLookup(items), f)
  }

  /** The positions of `sales` whose sale the filter keeps, in increasing order. */
  function KeptPositions(sales: seq<SalesData>, lookup: ItemMap, f: Filters): seq<nat>
    decreases |sales|
  {
    if |sales| == 0 then []
    else
      var n := |sales| - 1;
      KeptPositions(sales[..n], lookup, f) + (if Matches(f, lookup, sales[n]) then [n] else [])
  }

  /** The kept sales are, in order, the sales at the kept positions. */
  lemma {:induction false} KeptPositionsName(sales: seq<SalesData>, lookup: ItemMap, f: Filters)
    ensures var idx := KeptPositions(sales, lookup, f);
      && |idx| == |Keep(sales, lookup, f)|
      && forall k :: 0 <= k < |idx| ==> idx[k] < |sales| && Keep(sales, lookup, f)[k] == sales[idx[k]]
    decreases |sales|
  {
    if |sales| > 0 {
      var n := |sales| - 1;
      KeptPositionsName(sales[..n], lookup, f);
      var before := KeptPositions(sales[..n], lookup, f);
      forall k | 0 <= k < |before| ensures sales[..n][before[k]] == sales[before[k]] { }
    }
  }

  /** The kept positions increase. */
  lemma {:induction false} KeptPositionsIncrease(sales: seq<SalesData>, lookup: ItemMap, f: Filters)
    ensures forall k :: 0 <= k < |KeptPositions(sales, lookup, f)| ==> KeptPositions(sales, lookup, f)[k] < |sales|
    ensures forall k, l :: 0 <= k < l < |KeptPositions(sales, lookup, f)| ==>
              KeptPositions(sales, lookup, f)[k] < KeptPositions(sales, lookup, f)[l]
    decreases |sales|
  {
    if |sales| > 0 {
      var n := |sales| - 1;
      KeptPositionsIncrease(sales[..n], lookup, f);
      var before := KeptPositions(sales[..n], lookup, f);
      var idx := KeptPositions(sales, lookup, f);
      assert idx == before + (if Matches(f, lookup, sales[n]) then [n] else []);
      forall k | 0 <= k < |idx| ensures idx[k] < |sales| {
        if k < |before| {
          assert idx[k] == before[k];
        }
      }
      forall k, l | 0 <= k < l < |idx| ensures idx[k] < idx[l] {
        assert idx[k] == before[k];
        if l < |before| {
          assert idx[l] == before[l];
        }
      }
    }
  }

  /** A position is kept exactly when its sale matches the filter. */
  lemma {:induction false} KeptPositionsExact(sales: seq<SalesData>, lookup: ItemMap, f: Filters)
    ensures forall i :: 0 <= i < |sales| ==> (i in KeptPositions(sales, lookup, f) <==> Matches(f, lookup, sales[i]))
    decreases |sales|
  {
    if |sales| > 0 {
      var n := |sales| - 1;
      KeptPositionsExact(sales[..n], lookup, f);
      KeptPositionsIncrease(sales[..n], lookup, f);
      forall i | 0 <= i < n ensures sales[..n][i] == sales[i] { }
      assert n !in KeptPositions(sales[..n], lookup, f);
    }
  }

  /**
   * The filter's result is an order-preserving subsequence of its input: there are
   * increasing positions naming the kept sales in order, and they are exactly the
   * positions of the matching sales.
   */
  lemma FilterIsSubsequence(sales: seq<SalesData>, lookup: ItemMap, f: Filters)
    ensures var idx := KeptPositions(sales, lookup, f);
      && |idx| == |Keep(sales, lookup, f)|
      && (forall k :: 0 <= k < |idx| ==> idx[k] < |sales| && Keep(sales, lookup, f)[k] == sales[idx[k]])
      && (forall k, l :: 0 <= k < l < |idx| ==> idx[k] < idx[l])
      && (forall i :: 0 <= i < |sales| ==> (i in idx <==> Matches(f, lookup, sales[i])))
  {
    KeptPositionsName(sales, lookup, f);
    KeptPositionsIncrease(sales, lookup, f);
    KeptPositionsExact(sales, lookup, f);
  }

  lemma {:induction false} KeepEverythingUnfiltered(sales: seq<SalesData>, lookup: ItemMap)
    ensures Keep(sales, lookup, NoFilters) == sales
    decreases |sales|
  {
    if |sales| > 0 {
      KeepEverythingUnfiltered(sales[..|sales| - 1], lookup);
      assert sales == sales[..|sales| - 1] + [sales[|sales| - 1]];
    }
  }

  /** The all-sentinel shortcut agrees with the filter: with no constraint, every sale is kept in place. */
  lemma FilterSalesIsFilter(sales: seq<SalesData>, items: seq<ItemMaster>, f: Filters)
    ensures FilterSales(sales, items, f) == Keep(sales, ItemLookup(items), f)
  {
    if f == NoFilters {
      KeepEverythingUnfiltered(sales, ItemLookup(items));
    }
  }

  /** A sale survives the filter exactly when it matches all three constraints. */
  lemma FilterSalesMembership(sales: seq<SalesData>, items: seq<ItemMaster>, f: Filters)
    ensures forall s :: s in FilterSales(sales, items, f) <==> s in sales && Matches(f, ItemLookup(items), s)
  {
    FilterSalesIsFilter(sales, items, f);
    var lookup := ItemLookup(items);
    var kept := Keep(sales, lookup, f);
    var idx := KeptPositions(sales, lookup, f);
    FilterIsSubsequence(sales, lookup, f);
    forall s ensures s in kept <==> s in sales && Matches(f, lookup, s) {
      if s in kept {
        var k :| 0 <= k < |kept| && kept[k] == s;
        assert idx[k] in idx;
      }
      if s in sales && Matches(f, lookup, s) {
        var i :| 0 <= i < |sales| && sales[i] == s;
        assert i in idx;
        var k :| 0 <= k < |idx| && idx[k] == i;
      }
    }
  }

  /** A sale whose sku has no item record fails any category or brand constraint. */
  lemma UnknownSkuFailsSegment(sales: seq<SalesData>, items: seq<ItemMaster>, f: Filters, s: SalesData)
    requires forall i :: 0 <= i < |items| ==> items[i].sku != s.sku
    requires f.category != AllCategories || f.brand != AllBrands
    ensures s !in FilterSales(sales, items, f)
  {
    ItemLookupLastWins(items, s.sku);
    FilterSalesMembership(sales, items, f);
  }

  // ---------------------------------------------------------------- per-date aggregation

  /** The property key `acc[curr.date]`: an undefined date is the key "undefined". */
  function DateKey(s: SalesData): string {
    s.date.GetOr("undefined")
  }

  /** `acc[date] || 0`: a missing entry and a NaN entry both count as 0. */
  function Accumulated(totals: map<string, Num>, key: string): int {
    if key in totals && totals[key].Finite? then totals[key].n else 0
  }

  /** One step of the reduction; adding an undefined quantity gives NaN. */
  function AddSale(totals: map<string, Num>, s: SalesData): map<string, Num> {
    var key := DateKey(s);
    totals[key := match s.quantity case None => NaN case Some(q) => Finite(Accumulated(totals, key) + q)]
  }

  /** The accumulator after reducing over `sales`. */
  function Totals(sales: seq<SalesData>): map<string, Num>
    decreases |sales|
  {
    if |sales| == 0 then map[] else AddSale(Totals(sales[..|sales| - 1]), sales[|sales| - 1])
  }

  /** `Object.keys(aggregated)`: each date key once, in the order it was first added. */
  function DistinctDates(sales: seq<SalesData>): seq<string>
    decreases |sales|
  {
    if |sales| == 0 then []
    else
      var before := DistinctDates(sales[..|sales| - 1]);
      var key := DateKey(sales[|sales| - 1]);
      if key in before then before else before + [key]
  }

  /** The `reduce` over the sales, updating the accumulator object in place. */
  method AggregateByDate(sales: seq<SalesData>) returns (totals: map<string, Num>, keys: seq<string>)
    ensures totals == Totals(sales)
    ensures keys == DistinctDates(sales)
  {
    totals := map[];
    keys := [];
    var i := 0;
    while i < |sales|
      invariant 0 <= i <= |sales|
      invariant totals == Totals(sales[..i])
      invariant keys == DistinctDates(sales[..i])
      invariant forall k :: k in totals <==> k in keys
    {
      var key := DateKey(sales[i]);
      var base := if key in totals && totals[key].Finite? then totals[key].n else 0;
      if key !in totals {
        keys := keys + [key];
      }
      match sales[i].quantity {
        case None => totals := totals[key := NaN];
        case Some(q) => totals := totals[key := Finite(base + q)];
      }
      assert sales[..i + 1][..i] == sales[..i];
      i := i + 1;
    }
    assert sales[..|sales|] == sales;
  }

  /** Every element occurs at most once. */
  ghost predicate NoRepeats(s: seq<string>) {
    forall x :: multiset(s)[x] <= 1
  }

  lemma {:induction false} DistinctDatesAreKeys(sales: seq<SalesData>)
    ensures forall k :: k in DistinctDates(sales) <==> k in Totals(sales)
    ensures forall k :: k in DistinctDates(sales) <==> exists i :: 0 <= i < |sales| && DateKey(sales[i]) == k
    ensures NoRepeats(DistinctDates(sales))
    decreases |sales|
  {
    if |sales| > 0 {
      var n := |sales| - 1;
      DistinctDatesAreKeys(sales[..n]);
      forall k ensures k in DistinctDates(sales) <==> exists i :: 0 <= i < |sales| && DateKey(sales[i]) == k {
        if k in DistinctDates(sales) && k != DateKey(sales[n]) {
          var i :| 0 <= i < n && DateKey(sales[..n][i]) == k;
          assert DateKey(sales[i]) == k;
        }
        if exists i :: 0 <= i < |sales| && DateKey(sales[i]) == k {
          var i :| 0 <= i < |sales| && DateKey(sales[i]) == k;
          if i < n {
            assert DateKey(sales[..n][i]) == k;
          }
        }
      }
    }
  }

  function QuantityOf(s: SalesData): int {
    s.quantity.GetOr(0)
  }

  /** Every sale has a quantity (the upload parser guarantees it whenever the file has a quantity column). */
  predicate AllQuantities(sales: seq<SalesData>) {
    forall i :: 0 <= i < |sales| ==> sales[i].quantity.Some?
  }

  function SumQuantities(sales: seq<SalesData>): int
    decreases |sales|
  {
    if |sales| == 0 then 0 else SumQuantities(sales[..|sales| - 1]) + QuantityOf(sales[|sales| - 1])
  }

  /** The total quantity of the sales dated `key`. */
  function SumOn(sales: seq<SalesData>, key: string): int
    decreases |sales|
  {
    if |sales| == 0 then 0
    else SumOn(sales[..|sales| - 1], key) + (if DateKey(sales[|sales| - 1]) == key then QuantityOf(sales[|sales| - 1]) else 0)
  }

  /** With every quantity present, a date's total is the sum of the quantities sold on that date. */
  lemma {:induction false} TotalsAreSums(sales: seq<SalesData>, key: string)
    requires AllQuantities(sales)
    requires key in Totals(sales)
    ensures Totals(sales)[key] == Finite(SumOn(sales, key))
    decreases |sales|
  {
    var n := |sales| - 1;
    var before := sales[..n];
    assert AllQuantities(before) by {
      forall i | 0 <= i < n ensures before[i].quantity.Some? {
        assert before[i] == sales[i];
      }
    }
    if DateKey(sales[n]) == key {
      if key in Totals(before) {
        TotalsAreSums(before, key);
      } else {
        DistinctDatesAreKeys(before);
        SumOnAbsent(before, key);
      }
    } else {
      TotalsAreSums(before, key);
    }
  }

  lemma {:induction false} SumOnAbsent(sales: seq<SalesData>, key: string)
    requires forall i :: 0 <= i < |sales| ==> DateKey(sales[i]) != key
    ensures SumOn(sales, key) == 0
    decreases |sales|
  {
    if |sales| > 0 {
      var n := |sales| - 1;
      assert forall i :: 0 <= i < n ==> sales[..n][i] == sales[i];
      SumOnAbsent(sales[..n], key);
    }
  }

  /** A sale without a quantity turns its date's total into NaN, whatever came before. */
  lemma MissingQuantityGivesNaN(sales: seq<SalesData>, s: SalesData)
    requires s.quantity.None?
    ensures Totals(sales + [s])[DateKey(s)] == NaN
  {
    assert (sales + [s])[..|sales|] == sales;
  }

  /**
   * A NaN (or absent) total is dropped by the next sale on that date that has a quantity:
   * `NaN || 0` starts the sum again from 0.
   */
  lemma MissingQuantityResetsDate(sales: seq<SalesData>, s: SalesData, q: int)
    requires DateKey(s) !in Totals(sales) || Totals(sales)[DateKey(s)] == NaN
    requires s.quantity == Some(q)
    ensures Totals(sales + [s])[DateKey(s)] == Finite(q)
  {
    assert (sales + [s])[..|sales|] == sales;
  }

  /** When no sale has a quantity, every date's total is NaN. */
  lemma {:induction false} TotalsWithoutQuantities(sales: seq<SalesData>, key: string)
    requires forall i :: 0 <= i < |sales| ==> sales[i].quantity.None?
    requires key in Totals(sales)
    ensures Totals(sales)[key] == NaN
    decreases |sales|
  {
    var n := |sales| - 1;
    if DateKey(sales[n]) != key {
      var before := sales[..n];
      assert forall i :: 0 <= i < n ==> before[i] == sales[i];
      TotalsWithoutQuantities(before, key);
    }
  }

  // ---------------------------------------------------------------- historical points

  function Identity(s: string): string {
    s
  }

  function DatePoint(key: string, total: Num): ForecastPoint {
    ForecastPoint(Some(key), Some(total), None, None, None, None, None)
  }

  function PointsFor(keys: seq<string>, totals: map<string, Num>): seq<ForecastPoint>
    requires forall k :: k in keys ==> k in totals
  {
    seq(|keys|, i requires 0 <= i < |keys| => DatePoint(keys[i], totals[keys[i]]))
  }

  /** The sorted date keys. */
  function SortedDates(sales: seq<SalesData>): (keys: seq<string>)
    ensures forall k :: k in keys ==> k in Totals(sales)
  {
    var keys := SortBy(DistinctDates(sales), Identity);
    SortByOrdersAndPermutes(DistinctDates(sales), Identity);
    DistinctDatesAreKeys(sales);
    assert forall k :: k in keys ==> k in multiset(DistinctDates(sales));
    keys
  }

  /** `Object.keys(aggregated).sort().map(date => ({ date, actual: aggregated[date] }))`. */
  function HistoricalPoints(sales: seq<SalesData>): seq<ForecastPoint> {
    PointsFor(SortedDates(sales), Totals(sales))
  }

  lemma TwoPositionsCountTwice(s: seq<string>, i: nat, j: nat)
    requires i < j < |s| && s[i] == s[j]
    ensures multiset(s)[s[i]] >= 2
  {
    assert s == s[..j] + s[j..];
    assert s[i] in s[..j];
    assert s[j] == s[j..][0];
  }

  /** The sorted dates are the distinct dates, rearranged. */
  lemma SortedDatesMembers(sales: seq<SalesData>)
    ensures |SortedDates(sales)| == |DistinctDates(sales)|
    ensures forall k :: k in SortedDates(sales) <==> exists j :: 0 <= j < |sales| && DateKey(sales[j]) == k
  {
    var keys := SortedDates(sales);
    SortByOrdersAndPermutes(DistinctDates(sales), Identity);
    DistinctDatesAreKeys(sales);
    assert |keys| == |multiset(keys)| == |multiset(DistinctDates(sales))| == |DistinctDates(sales)|;
    forall k ensures k in keys <==> k in DistinctDates(sales) {
      assert k in keys <==> k in multiset(keys);
    }
  }

  /** Every date of the sales has exactly one point, and every point is dated with a date of the sales (no zero-filling). */
  lemma HistoricalOnePointPerDate(sales: seq<SalesData>)
    ensures var pts := HistoricalPoints(sales);
      && |pts| == |DistinctDates(sales)|
      && (forall i :: 0 <= i < |pts| ==> pts[i].date.Some?)
      && (forall d :: (exists i :: 0 <= i < |pts| && pts[i].date == Some(d))
                      <==> (exists j :: 0 <= j < |sales| && DateKey(sales[j]) == d))
  {
    var keys := SortedDates(sales);
    var pts := HistoricalPoints(sales);
    SortedDatesMembers(sales);
    forall d ensures (exists i :: 0 <= i < |pts| && pts[i].date == Some(d)) <==> d in keys {
      if d in keys {
        var i :| 0 <= i < |keys| && keys[i] == d;
        assert pts[i].date == Some(d);
      }
    }
  }

  /** The sorted dates are strictly ascending: ordered, and no date occurs twice. */
  lemma SortedDatesAscending(sales: seq<SalesData>)
    ensures var keys := SortedDates(sales);
      forall i, j :: 0 <= i < j < |keys| ==> Less(keys[i], keys[j])
  {
    var keys := SortedDates(sales);
    SortByOrdersAndPermutes(DistinctDates(sales), Identity);
    DistinctDatesAreKeys(sales);
    forall i, j | 0 <= i < j < |keys| ensures Less(keys[i], keys[j]) {
      assert !Less(Identity(keys[j]), Identity(keys[i]));
      if keys[i] == keys[j] {
        TwoPositionsCountTwice(keys, i, j);
      }
      LessTotal(keys[i], keys[j]);
    }
  }

  /** The historical points are strictly ascending by date. */
  lemma HistoricalStrictlyAscending(sales: seq<SalesData>)
    ensures var pts := HistoricalPoints(sales);
      forall i, j :: 0 <= i < j < |pts| ==> pts[i].date.Some? && pts[j].date.Some? && Less(pts[i].date.value, pts[j].date.value)
  {
    SortedDatesAscending(sales);
  }

  /** A historical point's `actual` is the total quantity sold on its date. */
  lemma HistoricalActuals(sales: seq<SalesData>)
    requires AllQuantities(sales)
    ensures var pts := HistoricalPoints(sales);
      forall i :: 0 <= i < |pts| ==> pts[i].date.Some? && pts[i].actual == Some(Finite(SumOn(sales, pts[i].date.value)))
  {
    var keys := SortedDates(sales);
    forall i | 0 <= i < |keys| ensures Totals(sales)[keys[i]] == Finite(SumOn(sales, keys[i])) {
      TotalsAreSums(sales, keys[i]);
    }
  }

  // ---------------------------------------------------------------- conservation of quantity

  /** The sum of the finite `actual` values of a series. */
  function SumActuals(pts: seq<ForecastPoint>): int
    decreases |pts|
  {
    if |pts| == 0 then 0
    else
      var last := pts[|pts| - 1];
      SumActuals(pts[..|pts| - 1]) + (match last.actual case Some(Finite(n)) => n case _ => 0)
  }

  /** The total quantity over the dates in `keys`. */
  function SumKeys(keys: seq<string>, sales: seq<SalesData>): int
    decreases |keys|
  {
    if |keys| == 0 then 0 else SumKeys(keys[..|keys| - 1], sales) + SumOn(sales, keys[|keys| - 1])
  }

  lemma {:induction false} SumKeysConcat(a: seq<string>, b: seq<string>, sales: seq<SalesData>)
    ensures SumKeys(a + b, sales) == SumKeys(a, sales) + SumKeys(b, sales)
    decreases |b|
  {
    if |b| == 0 {
      assert a + b == a;
    } else {
      var n := |b| - 1;
      SumKeysConcat(a, b[..n], sales);
      assert (a + b)[..|a + b| - 1] == a + b[..n];
    }
  }

  lemma {:induction false} SumKeysInsert(x: string, s: seq<string>, sales: seq<SalesData>)
    ensures SumKeys(Insert(x, s, Identity), sales) == SumKeys(s, sales) + SumOn(sales, x)
    decreases |s|
  {
    if |s| == 0 {
      assert SumKeys([x], sales) == SumKeys([], sales) + SumOn(sales, x) by {
        assert [x][..0] == [];
      }
    } else {
      assert [s[0]][..0] == [];
      assert s == [s[0]] + s[1..];
      SumKeysConcat([s[0]], s[1..], sales);
      if Less(Identity(x), Identity(s[0])) {
        assert [x][..0] == [];
        SumKeysConcat([x], s, sales);
      } else {
        SumKeysInsert(x, s[1..], sales);
        SumKeysConcat([s[0]], Insert(x, s[1..], Identity), sales);
      }
    }
  }

  lemma {:induction false} SumKeysSorted(keys: seq<string>, sales: seq<SalesData>)
    ensures SumKeys(SortBy(keys, Identity), sales) == SumKeys(keys, sales)
    decreases |keys|
  {
    if |keys| > 0 {
      var n := |keys| - 1;
      SumKeysSorted(keys[..n], sales);
      SumKeysInsert(keys[n], SortBy(keys[..n], Identity), sales);
    }
  }

  /** Adding one sale adds its quantity to the total over a repetition-free list of dates that holds its date. */
  lemma {:induction false} SumKeysAddSale(keys: seq<string>, before: seq<SalesData>, s: SalesData)
    requires NoRepeats(keys)
    ensures SumKeys(keys, before + [s]) == SumKeys(keys, before) + (if DateKey(s) in keys then QuantityOf(s) else 0)
    decreases |keys|
  {
    var sales := before + [s];
    assert sales[..|sales| - 1] == before;
    if |keys| > 0 {
      var n := |keys| - 1;
      assert keys == keys[..n] + [keys[n]];
      assert NoRepeats(keys[..n]) by {
        forall x ensures multiset(keys[..n])[x] <= 1 {
          assert multiset(keys) == multiset(keys[..n]) + multiset{keys[n]};
          assert multiset(keys)[x] <= 1;
          assert multiset(keys)[x] == multiset(keys[..n])[x] + multiset{keys[n]}[x];
        }
      }
      SumKeysAddSale(keys[..n], before, s);
      LastNotRepeated(keys);
      assert SumOn(sales, keys[n]) == SumOn(before, keys[n]) + (if DateKey(s) == keys[n] then QuantityOf(s) else 0);
      assert DateKey(s) in keys <==> DateKey(s) in keys[..n] || DateKey(s) == keys[n];
    }
  }

  lemma LastNotRepeated(keys: seq<string>)
    requires NoRepeats(keys) && |keys| > 0
    ensures keys[|keys| - 1] !in keys[..|keys| - 1]
  {
    var n := |keys| - 1;
    assert keys == keys[..n] + [keys[n]];
    assert multiset(keys)[keys[n]] == multiset(keys[..n])[keys[n]] + 1;
  }

  lemma {:induction false} SumKeysOfDistinctDates(sales: seq<SalesData>)
    ensures SumKeys(DistinctDates(sales), sales) == SumQuantities(sales)
    decreases |sales|
  {
    if |sales| > 0 {
      var n := |sales| - 1;
      var before := sales[..n];
      var x := sales[n];
      var keys := DistinctDates(before);
      assert sales == before + [x];
      SumKeysOfDistinctDates(before);
      DistinctDatesAreKeys(before);
      SumKeysAddSale(keys, before, x);
      if DateKey(x) !in keys {
        SumOnAbsent(before, DateKey(x));
        assert [DateKey(x)][..0] == [];
        SumKeysConcat(keys, [DateKey(x)], sales);
      }
    }
  }

  lemma {:induction false} SumActualsOfPoints(keys: seq<string>, sales: seq<SalesData>)
    requires forall k :: k in keys ==> k in Totals(sales)
    requires AllQuantities(sales)
    ensures SumActuals(PointsFor(keys, Totals(sales))) == SumKeys(keys, sales)
    decreases |keys|
  {
    if |keys| > 0 {
      var n := |keys| - 1;
      var pts := PointsFor(keys, Totals(sales));
      SumActualsOfPoints(keys[..n], sales);
      assert pts[..n] == PointsFor(keys[..n], Totals(sales));
      TotalsAreSums(sales, keys[n]);
    }
  }

  /** The historical actuals add up to the total quantity of the sales they were built from. */
  lemma HistoricalConservesQuantity(sales: seq<SalesData>)
    requires AllQuantities(sales)
    ensures SumActuals(HistoricalPoints(sales)) == SumQuantities(sales)
  {
    SumActualsOfPoints(SortedDates(sales), sales);
    SumKeysSorted(DistinctDates(sales), sales);
    SumKeysOfDistinctDates(sales);
  }

  // ---------------------------------------------------------------- dashboard total

  /** `sales.reduce((a, b) => a + b.quantity, 0)`: NaN as soon as one quantity is undefined, and it stays NaN. */
  function TotalVolume(sales: seq<SalesData>): (v: Num)
    ensures v == NaN <==> exists i :: 0 <= i < |sales| && sales[i].quantity.None?
    ensures v.Finite? ==> v.n == SumQuantities(sales)
    decreases |sales|
  {
    if |sales| == 0 then Finite(0)
    else
      var n := |sales| - 1;
      var before := TotalVolume(sales[..n]);
      assert forall i :: 0 <= i < n ==> sales[..n][i] == sales[i];
      match before
      case NaN => NaN
      case Finite(a) => match sales[n].quantity case None => NaN case Some(q) => Finite(a + q)
  }

  /** Unfiltered, the dashboard total equals the sum of the historical actuals. */
  lemma DashboardTotalMatchesHistory(sales: seq<SalesData>, items: seq<ItemMaster>)
    requires AllQuantities(sales)
    ensures TotalVolume(sales) == Finite(SumActuals(HistoricalPoints(FilterSales(sales, items, NoFilters))))
  {
    HistoricalConservesQuantity(sales);
  }

  // ---------------------------------------------------------------- merging history and forecast

  /** `a.date.localeCompare(b.date)` with an undefined argument compares with the text "undefined". */
  function PointDate(p: ForecastPoint): string {
    p.date.GetOr("undefined")
  }

  /** `[...historicalPoints, ...forecastResults].sort(byDate)`. */
  function MergeSeries(historical: seq<ForecastPoint>, forecast: seq<ForecastPoint>): seq<ForecastPoint> {
    SortBy(historical + forecast, PointDate)
  }

  /** The merge keeps every point of both series (no dedup) and orders them by date. */
  lemma MergeSeriesPermutesAndOrders(historical: seq<ForecastPoint>, forecast: seq<ForecastPoint>)
    ensures var m := MergeSeries(historical, forecast);
      && |m| == |historical| + |forecast|
      && multiset(m) == multiset(historical) + multiset(forecast)
      && SortedBy(m, PointDate)
  {
    SortByOrdersAndPermutes(historical + forecast, PointDate);
    assert |MergeSeries(historical, forecast)| == |multiset(MergeSeries(historical, forecast))|;
  }

  /** On each date, the historical points come first, then the forecast points, each in their own order. */
  lemma MergeSeriesHistoryFirst(historical: seq<ForecastPoint>, forecast: seq<ForecastPoint>, date: string)
    ensures WithKey(MergeSeries(historical, forecast), PointDate, date)
         == WithKey(historical, PointDate, date) + WithKey(forecast, PointDate, date)
  {
    SortByStable(historical + forecast, PointDate, date);
    WithKeyConcat(historical, forecast, PointDate, date);
  }

  /** Merging an already merged series with nothing changes nothing. */
  lemma MergeSeriesIdempotent(historical: seq<ForecastPoint>, forecast: seq<ForecastPoint>)
    ensures MergeSeries(MergeSeries(historical, forecast), []) == MergeSeries(historical, forecast)
  {
    var m := MergeSeries(historical, forecast);
    SortByOrdersAndPermutes(historical + forecast, PointDate);
    assert m + [] == m;
    SortBySortedIsIdentity(m, PointDate);
  }

  // ---------------------------------------------------------------- scenario drivers

  const DefaultDrivers: seq<DriverSetting> := [
    DriverSetting("promo", "Promotion Intensity", 0, -50, 100, 5, "Adjusts the impact of marketing events."),
    DriverSetting("price", "Price Elasticity", 0, -20, 20, 1, "Simulates sensitivity to price changes."),
    DriverSetting("season", "Seasonal Strength", 0, -30, 30, 5, "Amplifies or dampens cyclical trends.")
  ]

  /** Each default driver starts at a value inside its range and on its step grid. */
  lemma DefaultDriversInRange()
    ensures forall i :: 0 <= i < |DefaultDrivers| ==>
      var d := DefaultDrivers[i]; d.min <= d.value <= d.max && d.step > 0 && (d.value - d.min) % d.step == 0
  {
  }

  /** `d.map(x => x.id === id ? { ...x, value: v } : x)`. */
  function UpdateDriver(drivers: seq<DriverSetting>, id: string, v: int): (r: seq<DriverSetting>)
    ensures |r| == |drivers|
    ensures forall i :: 0 <= i < |r| ==> r[i].(value := drivers[i].value) == drivers[i]
    ensures forall i :: 0 <= i < |r| ==> r[i].value == if drivers[i].id == id then v else drivers[i].value
  {
    seq(|drivers|, i requires 0 <= i < |drivers| => if drivers[i].id == id then drivers[i].(value := v) else drivers[i])
  }

  /** A second change of the same driver replaces the first. */
  lemma UpdateDriverOverwrites(drivers: seq<DriverSetting>, id: string, v1: int, v2: int)
    ensures UpdateDriver(UpdateDriver(drivers, id, v1), id, v2) == UpdateDriver(drivers, id, v2)
  {
    var a := UpdateDriver(UpdateDriver(drivers, id, v1), id, v2);
    var b := UpdateDriver(drivers, id, v2);
    forall i | 0 <= i < |a| ensures a[i] == b[i] {
      assert a[i].(value := drivers[i].value) == drivers[i];
    }
  }

  /** Changes to different drivers can be made in either order. */
  lemma UpdateDriverCommutes(drivers: seq<DriverSetting>, id1: string, v1: int, id2: string, v2: int)
    requires id1 != id2
    ensures UpdateDriver(UpdateDriver(drivers, id1, v1), id2, v2) == UpdateDriver(UpdateDriver(drivers, id2, v2), id1, v1)
  {
    var a := UpdateDriver(UpdateDriver(drivers, id1, v1), id2, v2);
    var b := UpdateDriver(UpdateDriver(drivers, id2, v2), id1, v1);
    forall i | 0 <= i < |a| ensures a[i] == b[i] {
      assert a[i].(value := drivers[i].value) == drivers[i];
      assert b[i].(value := drivers[i].value) == drivers[i];
    }
  }

  /** The new value is stored as given, even outside the driver's [min, max]. */
  lemma UpdateDriverDoesNotClamp()
    ensures var r := UpdateDriver(DefaultDrivers, "promo", 500);
      r[0].value == 500 && r[0].value > r[0].max
  {
  }

  // ---------------------------------------------------------------- the forecast pipeline

  /** What the planning screen holds when a forecast is requested. */
  datatype Session = Session(
    sales: seq<SalesData>,
    items: seq<ItemMaster>,
    promos: seq<Promotion>,
    drivers: seq<DriverSetting>,
    filters: Filters,
    warehouse: BigQueryConfig)

  /** The language-model forecast service: an arbitrary function of its inputs. */
  type ForecastGenerator = (seq<SalesData>, seq<ItemMaster>, seq<Promotion>, seq<DriverSetting>) -> seq<ForecastPoint>

  datatype PipelineError =
    | NoSalesHistory                  // nothing uploaded and the warehouse connection is off
    | WarehouseFailure(cause: FetchError)
    | NotIterable                     // spreading `bqResult.mappedData`, which is undefined
    | UndatedPoint                    // the comparator calls `localeCompare` on an undefined date

  predicate UsesWarehouse(c: BigQueryConfig) {
    c.enabled && c.accessToken != ""
  }

  /** The history shown with the forecast, built from the filtered sales. */
  function Historical(st: Session): seq<ForecastPoint> {
    if |st.sales| > 0 then HistoricalPoints(FilterSales(st.sales, st.items, st.filters)) else []
  }

  /** The merge, which fails once the sort compares an undated point. */
  function SortMerged(historical: seq<ForecastPoint>, forecast: seq<ForecastPoint>): Result<seq<ForecastPoint>, PipelineError> {
    var all := historical + forecast;
    if |all| >= 2 && exists i :: 0 <= i < |all| && all[i].date.None? then Err(UndatedPoint)
    else Ok(MergeSeries(historical, forecast))
  }

  /** `handleGenerateForecast` as written: the series it stores, or the error it reports. */
  function GenerateForecast(st: Session, response: Response, generate: ForecastGenerator, parse: NumberParser)
    : Result<seq<ForecastPoint>, PipelineError>
  {
    if |st.sales| == 0 && !st.warehouse.enabled then Err(NoSalesHistory)
    else if UsesWarehouse(st.warehouse) then
      match FetchForecast(response, parse)
      case Err(e) => Err(WarehouseFailure(e))
      case Ok(_) => Err(NotIterable)
    else SortMerged(Historical(st), generate(st.sales, st.items, st.promos, st.drivers))
  }

  /** The pipeline with the warehouse's points merged in place of `.mappedData`. */
  function GenerateForecastFixed(st: Session, response: Response, generate: ForecastGenerator, parse: NumberParser)
    : Result<seq<ForecastPoint>, PipelineError>
  {
    if |st.sales| == 0 && !st.warehouse.enabled then Err(NoSalesHistory)
    else if UsesWarehouse(st.warehouse) then
      match FetchForecast(response, parse)
      case Err(e) => Err(WarehouseFailure(e))
      case Ok(points) => SortMerged(Historical(st), points)
    else SortMerged(Historical(st), generate(st.sales, st.items, st.promos, st.drivers))
  }

  /** As written, a forecast from the warehouse never reaches the chart: every warehouse run ends in an error. */
  lemma WarehouseForecastNeverMerged(st: Session, response: Response, generate: ForecastGenerator, parse: NumberParser)
    requires UsesWarehouse(st.warehouse)
    ensures GenerateForecast(st, response, generate, parse).Err?
    ensures FetchForecast(response, parse).Ok? ==> GenerateForecast(st, response, generate, parse) == Err(NotIterable)
  {
  }

  predicate AllDated(pts: seq<ForecastPoint>) {
    forall i :: 0 <= i < |pts| ==> pts[i].date.Some?
  }

  lemma HistoricalDated(st: Session)
    ensures AllDated(Historical(st))
  {
    if |st.sales| > 0 {
      HistoricalOnePointPerDate(FilterSales(st.sales, st.items, st.filters));
    }
  }

  /** With every point dated, the merge succeeds and keeps every point of both series in date order. */
  lemma SortMergedDated(historical: seq<ForecastPoint>, forecast: seq<ForecastPoint>)
    requires AllDated(historical) && AllDated(forecast)
    ensures SortMerged(historical, forecast) == Ok(MergeSeries(historical, forecast))
    ensures multiset(MergeSeries(historical, forecast)) == multiset(historical) + multiset(forecast)
    ensures SortedBy(MergeSeries(historical, forecast), PointDate)
  {
    var all := historical + forecast;
    forall i | 0 <= i < |all| ensures all[i].date.Some? {
      if i >= |historical| {
        assert all[i] == forecast[i - |historical|];
      }
    }
    MergeSeriesPermutesAndOrders(historical, forecast);
  }

  /** Corrected, the warehouse's points are merged with the history: all of them, in date order. */
  lemma FixedPipelineMergesWarehousePoints(st: Session, response: Response, generate: ForecastGenerator,
                                           parse: NumberParser, points: seq<ForecastPoint>)
    requires UsesWarehouse(st.warehouse)
    requires FetchForecast(response, parse) == Ok(points)
    requires AllDated(points)
    ensures GenerateForecastFixed(st, response, generate, parse) == Ok(MergeSeries(Historical(st), points))
    ensures multiset(MergeSeries(Historical(st), points)) == multiset(Historical(st)) + multiset(points)
    ensures SortedBy(MergeSeries(Historical(st), points), PointDate)
  {
    HistoricalDated(st);
    SortMergedDated(Historical(st), points);
  }

  /**
   * Without the warehouse, the forecast comes from the generator applied to all uploaded
   * sales, whatever the segment, and the stored series holds the history and every
   * generated point.
   */
  lemma SimulatedForecastMerged(st: Session, response: Response, generate: ForecastGenerator, parse: NumberParser)
    requires !UsesWarehouse(st.warehouse)
    requires |st.sales| > 0 || st.warehouse.enabled
    requires AllDated(generate(st.sales, st.items, st.promos, st.drivers))
    ensures var r := GenerateForecast(st, response, generate, parse);
      && r.Ok?
      && r.value == MergeSeries(Historical(st), generate(st.sales, st.items, st.promos, st.drivers))
      && multiset(r.value) == multiset(Historical(st)) + multiset(generate(st.sales, st.items, st.promos, st.drivers))
  {
    HistoricalDated(st);
    SortMergedDated(Historical(st), generate(st.sales, st.items, st.promos, st.drivers));
  }

  const WitnessSales := [SalesData(Some("2024-01-01"), Some("A"), Some(1), None),
                         SalesData(Some("2024-01-01"), Some("B"), Some(1), None)]
  const WitnessSession := Session(WitnessSales, [], [], DefaultDrivers, Filters(AllCategories, AllBrands, "A"),
                                  BigQueryConfig("", "", "", "", false))

  /** A generator that reports how many sales it was given. */
  function CountingGenerator(s: seq<SalesData>, i: seq<ItemMaster>, p: seq<Promotion>, d: seq<DriverSetting>): seq<ForecastPoint> {
    [DatePoint("2099-01-01", Finite(|s|))]
  }

  lemma WitnessSegmentHasOneSale()
    ensures |FilterSales(WitnessSession.sales, WitnessSession.items, WitnessSession.filters)| == 1
  {
    var sales := WitnessSales;
    var f := WitnessSession.filters;
    var lookup := ItemLookup([]);
    assert Matches(f, lookup, sales[0]);
    assert !Matches(f, lookup, sales[1]);
    assert sales[..1] == [sales[0]];
    assert sales[..1][..0] == [];
    assert Keep(sales[..1], lookup, f) == [sales[0]];
  }

  /**
   * With one of two sales selected, the counting generator puts 2 into the stored series:
   * the segment narrows the history, not the generator's input.
   */
  lemma GeneratorSeesUnfilteredSales(response: Response, parse: NumberParser)
    ensures |FilterSales(WitnessSession.sales, WitnessSession.items, WitnessSession.filters)| == 1
    ensures var r := GenerateForecast(WitnessSession, response, CountingGenerator, parse);
      r.Ok? && DatePoint("2099-01-01", Finite(2)) in r.value
  {
    WitnessSegmentHasOneSale();
    var st := WitnessSession;
    var g := CountingGenerator(st.sales, st.items, st.promos, st.drivers);
    assert g == [DatePoint("2099-01-01", Finite(2))];
    SimulatedForecastMerged(st, response, CountingGenerator, parse);
    var r := GenerateForecast(st, response, CountingGenerator, parse);
    assert multiset(r.value) == multiset(Historical(st)) + multiset(g);
    assert g[0] in multiset(g);
    assert g[0] in multiset(r.value);
  }
}
