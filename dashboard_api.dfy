/**
 * The dashboard statistics handler, src/app/api/dashboard/route.ts. Every
 * statistic is a count, a grouped sum, a sort or a projection over the
 * product collection, so the whole reply is a function of the collection.
 *
 * The database's `$group` stage becomes `GroupBy`, which keeps one bucket per
 * key in order of first appearance; the stable sorts that follow keep that
 * order among equal sort keys.
 */
module DashboardApi {
  import opened Common
  import opened Sequences
  import Catalog

  // ------------------------------------------------------------ grouping

  /** The quantities a bucket accumulates. */
  datatype Field = Count | Stock | Sales | Revenue

  /** What one product contributes to each accumulated quantity. */
  function Measure(p: Catalog.Product, f: Field): int
  {
    match f
    case Count => 1
    case Stock => p.stock
    case Sales => p.sales
    case Revenue => p.sales * p.priceCents
  }

  /** One group: its key, its size and the sums of stock, sales and sales times price. */
  datatype Bucket<K> = Bucket(key: K, count: int, totalStock: int, totalSales: int, totalRevenue: int)

  function Get<K>(b: Bucket<K>, f: Field): int
  {
    match f
    case Count => b.count
    case Stock => b.totalStock
    case Sales => b.totalSales
    case Revenue => b.totalRevenue
  }

  /** The bucket a key's first product opens. */
  function Open<K>(k: K, p: Catalog.Product): (b: Bucket<K>)
    ensures b.key == k && forall f: Field :: Get(b, f) == Measure(p, f)
  {
    Bucket(k, 1, p.stock, p.sales, p.sales * p.priceCents)
  }

  /** A bucket with one more product in it. */
  function Plus<K>(b: Bucket<K>, p: Catalog.Product): (r: Bucket<K>)
    ensures r.key == b.key && forall f: Field :: Get(r, f) == Get(b, f) + Measure(p, f)
  {
    Bucket(b.key, b.count + 1, b.totalStock + p.stock, b.totalSales + p.sales,
           b.totalRevenue + p.sales * p.priceCents)
  }

  /** Adds `p` to the bucket for `k`, opening one at the end when there is none. */
  function AddTo<K(==)>(bs: seq<Bucket<K>>, k: K, p: Catalog.Product): seq<Bucket<K>>
  {
    if bs == [] then [Open(k, p)]
    else if bs[0].key == k then [Plus(bs[0], p)] + bs[1..]
    else [bs[0]] + AddTo(bs[1..], k, p)
  }

  /** `$group` on `keyOf`: one bucket per key, in order of first appearance. */
  function GroupBy<K(==)>(ps: seq<Catalog.Product>, keyOf: Catalog.Product -> K): seq<Bucket<K>>
  {
    if ps == [] then []
    else AddTo(GroupBy(ps[..|ps| - 1], keyOf), keyOf(ps[|ps| - 1]), ps[|ps| - 1])
  }

  /** The sum of `f` over the products whose key is `k`: what the bucket for `k` should hold. */
  function KeySum<K(==)>(ps: seq<Catalog.Product>, keyOf: Catalog.Product -> K, k: K, f: Field): int
  {
    if ps == [] then 0
    else KeySum(ps[..|ps| - 1], keyOf, k, f) + (if keyOf(ps[|ps| - 1]) == k then Measure(ps[|ps| - 1], f) else 0)
  }

  /** The sum of `f` over all products. */
  function Total(ps: seq<Catalog.Product>, f: Field): int
  {
    if ps == [] then 0 else Total(ps[..|ps| - 1], f) + Measure(ps[|ps| - 1], f)
  }

  /** The sum of `f` over all buckets. */
  function BucketTotal<K>(bs: seq<Bucket<K>>, f: Field): int
  {
    if bs == [] then 0 else Get(bs[0], f) + BucketTotal(bs[1..], f)
  }

  /** The value of `f` in the buckets with key `k` (at most one, see GroupByKeys). */
  function Lookup<K(==)>(bs: seq<Bucket<K>>, k: K, f: Field): int
  {
    if bs == [] then 0 else (if bs[0].key == k then Get(bs[0], f) else 0) + Lookup(bs[1..], k, f)
  }

  /** Some product of `ps` has key `k`. */
  predicate Occurs<K(==)>(ps: seq<Catalog.Product>, keyOf: Catalog.Product -> K, k: K)
  {
    exists j :: 0 <= j < |ps| && keyOf(ps[j]) == k
  }

  predicate HasKey<K(==)>(bs: seq<Bucket<K>>, k: K)
  {
    exists i :: 0 <= i < |bs| && bs[i].key == k
  }

  function KeyOf<K>(b: Bucket<K>): K
  {
    b.key
  }

  /** Adding a product under `k` adds `k` to the keys and no other key. */
  lemma {:induction false} AddToHasKey<K>(bs: seq<Bucket<K>>, k: K, p: Catalog.Product)
    ensures forall k' :: HasKey(AddTo(bs, k, p), k') <==> HasKey(bs, k') || k' == k
  {
    var r := AddTo(bs, k, p);
    if bs == [] {
      forall k' ensures HasKey(r, k') <==> k' == k {
        if k' == k {
          assert r[0].key == k';
        }
      }
    } else if bs[0].key == k {
      assert r[0].key == bs[0].key;
      forall i | 0 < i < |r| ensures r[i] == bs[i] { }
      forall k' ensures HasKey(r, k') <==> HasKey(bs, k') || k' == k {
        if HasKey(bs, k') {
          var i :| 0 <= i < |bs| && bs[i].key == k';
          assert r[i].key == k';
        }
        if HasKey(r, k') {
          var i :| 0 <= i < |r| && r[i].key == k';
          assert bs[i].key == k';
        }
      }
    } else {
      var rest := AddTo(bs[1..], k, p);
      AddToHasKey(bs[1..], k, p);
      assert r == [bs[0]] + rest;
      forall k' ensures HasKey(r, k') <==> HasKey(bs, k') || k' == k {
        if HasKey(bs, k') {
          var i :| 0 <= i < |bs| && bs[i].key == k';
          if i > 0 {
            assert bs[1..][i - 1].key == k';
            assert HasKey(bs[1..], k');
            var m :| 0 <= m < |rest| && rest[m].key == k';
            assert r[m + 1].key == k';
          } else {
            assert r[0].key == k';
          }
        }
        if k' == k {
          assert HasKey(rest, k');
          var m :| 0 <= m < |rest| && rest[m].key == k';
          assert r[m + 1].key == k';
        }
        if HasKey(r, k') {
          var i :| 0 <= i < |r| && r[i].key == k';
          if i > 0 {
            assert rest[i - 1].key == k';
            if HasKey(bs[1..], k') {
              var m :| 0 <= m < |bs[1..]| && bs[1..][m].key == k';
              assert bs[m + 1].key == k';
            }
          } else {
            assert bs[0].key == k';
          }
        }
      }
    }
  }

  /** Adding a product keeps one bucket per key. */
  lemma {:induction false} AddToKeys<K>(bs: seq<Bucket<K>>, k: K, p: Catalog.Product)
    requires DistinctBy(bs, KeyOf)
    ensures DistinctBy(AddTo(bs, k, p), KeyOf)
    ensures forall k' :: HasKey(AddTo(bs, k, p), k') <==> HasKey(bs, k') || k' == k
  {
    var r := AddTo(bs, k, p);
    AddToHasKey(bs, k, p);
    if bs == [] {
    } else if bs[0].key == k {
      assert r[0].key == bs[0].key;
      forall i | 0 < i < |r| ensures r[i] == bs[i] { }
    } else {
      var rest := AddTo(bs[1..], k, p);
      AddToKeys(bs[1..], k, p);
      assert r == [bs[0]] + rest;
      forall i, j | 0 <= i < j < |r| ensures r[i].key != r[j].key {
        if i == 0 {
          var kj := r[j].key;
          assert HasKey(rest, kj) by { assert rest[j - 1].key == kj; }
          if kj != k {
            assert HasKey(bs[1..], kj);
            var m :| 0 <= m < |bs[1..]| && bs[1..][m].key == kj;
            assert bs[m + 1].key == kj;
            assert KeyOf(bs[0]) != KeyOf(bs[m + 1]);
          }
        } else {
          assert r[i] == rest[i - 1] && r[j] == rest[j - 1];
        }
      }
    }
  }

  lemma {:induction false} AddToLookup<K>(bs: seq<Bucket<K>>, k: K, p: Catalog.Product, k': K, f: Field)
    ensures Lookup(AddTo(bs, k, p), k', f) == Lookup(bs, k', f) + (if k' == k then Measure(p, f) else 0)
  {
    if bs == [] {
      assert AddTo(bs, k, p)[1..] == [];
    } else if bs[0].key == k {
      assert AddTo(bs, k, p)[1..] == bs[1..];
    } else {
      AddToLookup(bs[1..], k, p, k', f);
      assert AddTo(bs, k, p)[1..] == AddTo(bs[1..], k, p);
    }
  }

  lemma {:induction false} AddToTotal<K>(bs: seq<Bucket<K>>, k: K, p: Catalog.Product, f: Field)
    ensures BucketTotal(AddTo(bs, k, p), f) == BucketTotal(bs, f) + Measure(p, f)
  {
    if bs == [] {
      assert AddTo(bs, k, p)[1..] == [];
    } else if bs[0].key == k {
      assert AddTo(bs, k, p)[1..] == bs[1..];
    } else {
      AddToTotal(bs[1..], k, p, f);
      assert AddTo(bs, k, p)[1..] == AddTo(bs[1..], k, p);
    }
  }

  /**
   * `$group` yields one bucket per distinct key, and a bucket for exactly the
   * keys that occur.
   */
  lemma {:induction false} GroupByKeys<K>(ps: seq<Catalog.Product>, keyOf: Catalog.Product -> K)
    ensures DistinctBy(GroupBy(ps, keyOf), KeyOf)
    ensures forall k :: HasKey(GroupBy(ps, keyOf), k) <==> Occurs(ps, keyOf, k)
  {
    if ps != [] {
      var init := ps[..|ps| - 1];
      var last := ps[|ps| - 1];
      GroupByKeys(init, keyOf);
      AddToKeys(GroupBy(init, keyOf), keyOf(last), last);
      forall k ensures Occurs(ps, keyOf, k) <==> Occurs(init, keyOf, k) || k == keyOf(last) {
        if Occurs(ps, keyOf, k) {
          var j :| 0 <= j < |ps| && keyOf(ps[j]) == k;
          if j < |init| {
            assert init[j] == ps[j];
          }
        }
        if Occurs(init, keyOf, k) {
          var j :| 0 <= j < |init| && keyOf(init[j]) == k;
          assert ps[j] == init[j];
        }
        if k == keyOf(last) {
          assert keyOf(ps[|ps| - 1]) == k;
        }
      }
    }
  }

  /** The bucket for `k` holds the per-key sums of every quantity. */
  lemma {:induction false} GroupByLookup<K>(ps: seq<Catalog.Product>, keyOf: Catalog.Product -> K, k: K, f: Field)
    ensures Lookup(GroupBy(ps, keyOf), k, f) == KeySum(ps, keyOf, k, f)
  {
    if ps != [] {
      var init := ps[..|ps| - 1];
      var last := ps[|ps| - 1];
      GroupByLookup(init, keyOf, k, f);
      AddToLookup(GroupBy(init, keyOf), keyOf(last), last, k, f);
    }
  }

  /** Grouping loses nothing: the buckets' sums add up to the collection's. */
  lemma {:induction false} GroupByTotal<K>(ps: seq<Catalog.Product>, keyOf: Catalog.Product -> K, f: Field)
    ensures BucketTotal(GroupBy(ps, keyOf), f) == Total(ps, f)
  {
    if ps != [] {
      var init := ps[..|ps| - 1];
      GroupByTotal(init, keyOf, f);
      AddToTotal(GroupBy(init, keyOf), keyOf(ps[|ps| - 1]), ps[|ps| - 1], f);
    }
  }

  /** With distinct keys, a bucket's value is the lookup of its own key. */
  lemma {:induction false} LookupOfDistinct<K>(bs: seq<Bucket<K>>, i: nat, f: Field)
    requires DistinctBy(bs, KeyOf) && i < |bs|
    ensures Lookup(bs, bs[i].key, f) == Get(bs[i], f)
  {
    var rest := bs[1..];
    assert DistinctBy(rest, KeyOf) by {
      forall a, b | 0 <= a < b < |rest| ensures rest[a].key != rest[b].key {
        assert rest[a] == bs[a + 1] && rest[b] == bs[b + 1];
      }
    }
    if i == 0 {
      LookupAbsent(rest, bs[0].key, f);
    } else {
      LookupOfDistinct(rest, i - 1, f);
      assert rest[i - 1] == bs[i];
    }
  }

  /** A key without a bucket looks up to 0. */
  lemma {:induction false} LookupAbsent<K>(bs: seq<Bucket<K>>, k: K, f: Field)
    requires forall i :: 0 <= i < |bs| ==> bs[i].key != k
    ensures Lookup(bs, k, f) == 0
  {
    if bs != [] {
      LookupAbsent(bs[1..], k, f);
    }
  }

  /** Each bucket of `$group` holds exactly the per-key sums of its key. */
  lemma GroupBySums<K>(ps: seq<Catalog.Product>, keyOf: Catalog.Product -> K, i: nat, f: Field)
    requires i < |GroupBy(ps, keyOf)|
    ensures Get(GroupBy(ps, keyOf)[i], f) == KeySum(ps, keyOf, GroupBy(ps, keyOf)[i].key, f)
  {
    var bs := GroupBy(ps, keyOf);
    GroupByKeys(ps, keyOf);
    LookupOfDistinct(bs, i, f);
    GroupByLookup(ps, keyOf, bs[i].key, f);
  }

  /** The same holds for the buckets in any order. */
  lemma PermutedBucketSums<K>(ps: seq<Catalog.Product>, keyOf: Catalog.Product -> K, bs: seq<Bucket<K>>, f: Field)
    requires multiset(bs) == multiset(GroupBy(ps, keyOf))
    ensures forall i :: 0 <= i < |bs| ==> Get(bs[i], f) == KeySum(ps, keyOf, bs[i].key, f)
  {
    forall i | 0 <= i < |bs| ensures Get(bs[i], f) == KeySum(ps, keyOf, bs[i].key, f) {
      var k := IndexOf(bs[i], GroupBy(ps, keyOf));
      GroupBySums(ps, keyOf, k, f);
    }
  }

  /** Counting every product once gives the collection's size. */
  lemma {:induction false} TotalCount(ps: seq<Catalog.Product>)
    ensures Total(ps, Count) == |ps|
  {
    if ps != [] {
      TotalCount(ps[..|ps| - 1]);
    }
  }

  // ------------------------------------------------------------ the reply

  datatype Overview = Overview(
    totalProducts: int,
    activeProducts: int,
    lowStockProducts: int,
    outOfStockProducts: int,
    totalStockValue: int,
    totalSalesValue: int)

  datatype CategoryStat = CategoryStat(category: string, count: int, totalStock: int)

  datatype SalesStat = SalesStat(category: string, totalSales: int, totalRevenue: int)

  datatype MonthStat = MonthStat(month: string, sales: int, revenue: int)

  datatype Stats = Stats(
    overview: Overview,
    categoryStats: seq<CategoryStat>,
    salesStats: seq<SalesStat>,
    monthlySales: seq<MonthStat>,
    recentProducts: seq<Catalog.Product>,
    topSellingProducts: seq<Catalog.Product>)

  /** At or below this many units (and above none) a product is low on stock. */
  const LowStockThreshold: int := 10

  /** How many products each top list shows. */
  const TopCount: nat := 5

  const MonthNames: seq<string> := ["Jan", "Feb", "Mar", "Apr", "May", "Jun", "Jul", "Aug", "Sep", "Oct", "Nov", "Dec"]

  predicate IsActive(p: Catalog.Product) { p.status == "active" }

  predicate IsLowStock(p: Catalog.Product) { 0 < p.stock <= LowStockThreshold }

  predicate IsOutOfStock(p: Catalog.Product) { p.stock == 0 }

  predicate HasSales(p: Catalog.Product) { p.sales > 0 }

  function CategoryOf(p: Catalog.Product): string { p.category }

  function CreationMonth(p: Catalog.Product): int { p.createdAt.month }

  function CreationTime(p: Catalog.Product): int { Chrono(p.createdAt) }

  function SalesOf(p: Catalog.Product): int { p.sales }

  /** Σ stock·price over the collection. */
  function StockValue(ps: seq<Catalog.Product>): int
  {
    if ps == [] then 0 else StockValue(ps[..|ps| - 1]) + ps[|ps| - 1].stock * ps[|ps| - 1].priceCents
  }

  function RowCount(c: CategoryStat): int { c.count }

  function RowCategory(c: CategoryStat): string { c.category }

  function RowSales(c: SalesStat): int { c.totalSales }

  function RowRevenue(c: SalesStat): int { c.totalRevenue }

  function SalesCategory(c: SalesStat): string { c.category }

  /** The category-count pipeline's projection of each bucket. */
  function CategoryRows(bs: seq<Bucket<string>>): (r: seq<CategoryStat>)
    ensures |r| == |bs|
    ensures forall i :: 0 <= i < |r| ==> r[i] == CategoryStat(bs[i].key, bs[i].count, bs[i].totalStock)
  {
    if bs == [] then [] else [CategoryStat(bs[0].key, bs[0].count, bs[0].totalStock)] + CategoryRows(bs[1..])
  }

  /** The category-sales pipeline's projection of each bucket. */
  function SalesRows(bs: seq<Bucket<string>>): (r: seq<SalesStat>)
    ensures |r| == |bs|
    ensures forall i :: 0 <= i < |r| ==> r[i] == SalesStat(bs[i].key, bs[i].totalSales, bs[i].totalRevenue)
  {
    if bs == [] then [] else [SalesStat(bs[0].key, bs[0].totalSales, bs[0].totalRevenue)] + SalesRows(bs[1..])
  }

  function NegKey(b: Bucket<int>): int { -b.key }

  /** The month buckets sorted on `_id` ascending. */
  function MonthBuckets(ps: seq<Catalog.Product>): seq<Bucket<int>>
  {
    SortDesc(GroupBy(ps, CreationMonth), NegKey)
  }

  /** `monthNames[item._id - 1]` on each bucket. */
  function MonthRows(bs: seq<Bucket<int>>): (r: seq<MonthStat>)
    requires forall i :: 0 <= i < |bs| ==> 1 <= bs[i].key <= 12
    ensures |r| == |bs|
    ensures forall i :: 0 <= i < |r| ==> r[i] == MonthStat(MonthNames[bs[i].key - 1], bs[i].totalSales, bs[i].totalRevenue)
  {
    if bs == [] then [] else [MonthStat(MonthNames[bs[0].key - 1], bs[0].totalSales, bs[0].totalRevenue)] + MonthRows(bs[1..])
  }

  predicate CreationDatesValid(ps: seq<Catalog.Product>)
  {
    forall i :: 0 <= i < |ps| ==> ValidDate(ps[i].createdAt)
  }

  /** Every month bucket is keyed by a month number of some product. */
  lemma MonthKeysValid(ps: seq<Catalog.Product>)
    requires CreationDatesValid(ps)
    ensures forall i :: 0 <= i < |MonthBuckets(ps)| ==> 1 <= MonthBuckets(ps)[i].key <= 12
  {
    var bs := GroupBy(ps, CreationMonth);
    var sorted := MonthBuckets(ps);
    GroupByKeys(ps, CreationMonth);
    forall i | 0 <= i < |sorted| ensures 1 <= sorted[i].key <= 12 {
      var k := IndexOf(sorted[i], bs);
      assert HasKey(bs, bs[k].key);
      var j :| 0 <= j < |ps| && CreationMonth(ps[j]) == bs[k].key;
      assert ValidDate(ps[j].createdAt);
    }
  }

  function OverviewOf(ps: seq<Catalog.Product>): Overview
  {
    Overview(|ps|, Sequences.Count(ps, IsActive), Sequences.Count(ps, IsLowStock), Sequences.Count(ps, IsOutOfStock),
             StockValue(ps), Total(ps, Revenue))
  }

  /** Products per category, the largest count first. */
  function CategoryStats(ps: seq<Catalog.Product>): seq<CategoryStat>
  {
    SortDesc(CategoryRows(GroupBy(ps, CategoryOf)), RowCount)
  }

  /** Units sold and revenue per category, the most units first. */
  function SalesStats(ps: seq<Catalog.Product>): seq<SalesStat>
  {
    SortDesc(SalesRows(GroupBy(ps, CategoryOf)), RowSales)
  }

  /** Units sold and revenue per creation month, in month order. */
  function MonthlySales(ps: seq<Catalog.Product>): seq<MonthStat>
    requires CreationDatesValid(ps)
  {
    MonthKeysValid(ps);
    MonthRows(MonthBuckets(ps))
  }

  /** The five most recently created products. */
  function RecentProducts(ps: seq<Catalog.Product>): seq<Catalog.Product>
  {
    Take(SortDesc(ps, CreationTime), TopCount)
  }

  /** The five best-selling products among those that sold at all. */
  function TopSelling(ps: seq<Catalog.Product>): seq<Catalog.Product>
  {
    Take(SortDesc(Filter(ps, HasSales), SalesOf), TopCount)
  }

  /** The whole statistics reply for the collection `ps`. */
  function Statistics(ps: seq<Catalog.Product>): (r: Stats)
    requires CreationDatesValid(ps)
    ensures r.overview.totalProducts == |ps|
    ensures ps == [] ==> r.overview.totalStockValue == 0 && r.overview.totalSalesValue == 0
    ensures |r.recentProducts| <= TopCount && |r.topSellingProducts| <= TopCount
  {
    Stats(OverviewOf(ps), CategoryStats(ps), SalesStats(ps), MonthlySales(ps), RecentProducts(ps), TopSelling(ps))
  }

  /** `GET /api/dashboard`: 401 without a session, the statistics otherwise. */
  function Dashboard(principal: Option<Principal>, ps: seq<Catalog.Product>): (r: Response<Stats>)
    requires CreationDatesValid(ps)
    ensures principal.None? ==> r == Failure(401, "Unauthorized", [])
    ensures principal.Some? ==> r == Success(200, Statistics(ps))
  {
    if principal.None? then Failure(401, "Unauthorized", []) else Success(200, Statistics(ps))
  }

  // ------------------------------------------------------------ properties

  /**
   * The stock counts: out of stock and low on stock never overlap, so
   * together they are at most the total; active products are at most the
   * total too.
   */
  lemma OverviewCounts(ps: seq<Catalog.Product>)
    ensures var o := OverviewOf(ps);
            o.activeProducts <= o.totalProducts
            && o.lowStockProducts + o.outOfStockProducts <= o.totalProducts
  {
    DisjointCounts(ps, IsLowStock, IsOutOfStock);
  }

  /** The category counts: sorted by count, one entry per category, adding up to the total. */
  lemma CategoryStatsFacts(ps: seq<Catalog.Product>)
    ensures var stats := CategoryStats(ps);
            && SortedDesc(stats, RowCount)
            && DistinctBy(stats, RowCategory)
            && Sum(stats, RowCount) == |ps|
            && (forall i :: 0 <= i < |stats| ==>
                  stats[i].count == KeySum(ps, CategoryOf, stats[i].category, Count)
                  && stats[i].totalStock == KeySum(ps, CategoryOf, stats[i].category, Stock))
  {
    var bs := GroupBy(ps, CategoryOf);
    var rows := CategoryRows(bs);
    var stats := SortDesc(rows, RowCount);
    GroupByKeys(ps, CategoryOf);
    assert DistinctBy(rows, RowCategory) by {
      forall i, j | 0 <= i < j < |rows| ensures rows[i].category != rows[j].category {
        assert KeyOf(bs[i]) != KeyOf(bs[j]);
      }
    }
    SortDescDistinctBy(rows, RowCount, RowCategory);
    SumSortDesc(rows, RowCount, RowCount);
    CategoryRowsCount(bs);
    GroupByTotal(ps, CategoryOf, Count);
    TotalCount(ps);
    forall i | 0 <= i < |stats|
      ensures stats[i].count == KeySum(ps, CategoryOf, stats[i].category, Count)
      ensures stats[i].totalStock == KeySum(ps, CategoryOf, stats[i].category, Stock)
    {
      var k := IndexOf(stats[i], rows);
      GroupBySums(ps, CategoryOf, k, Count);
      GroupBySums(ps, CategoryOf, k, Stock);
    }
  }

  lemma {:induction false} CategoryRowsCount(bs: seq<Bucket<string>>)
    ensures Sum(CategoryRows(bs), RowCount) == BucketTotal(bs, Count)
  {
    if bs != [] {
      CategoryRowsCount(bs[1..]);
    }
  }

  lemma {:induction false} SalesRowsRevenue(bs: seq<Bucket<string>>)
    ensures Sum(SalesRows(bs), RowRevenue) == BucketTotal(bs, Revenue)
  {
    if bs != [] {
      SalesRowsRevenue(bs[1..]);
    }
  }

  /** The category sales are sorted by units sold, one entry per category. */
  lemma SalesStatsOrdered(ps: seq<Catalog.Product>)
    ensures SortedDesc(SalesStats(ps), RowSales)
    ensures DistinctBy(SalesStats(ps), SalesCategory)
  {
    var bs := GroupBy(ps, CategoryOf);
    var rows := SalesRows(bs);
    GroupByKeys(ps, CategoryOf);
    assert DistinctBy(rows, SalesCategory) by {
      forall i, j | 0 <= i < j < |rows| ensures rows[i].category != rows[j].category {
        assert KeyOf(bs[i]) != KeyOf(bs[j]);
      }
    }
    SortDescDistinctBy(rows, RowSales, SalesCategory);
  }

  /** The category revenues add up to the overview's totalSalesValue. */
  lemma SalesStatsRevenueTotal(ps: seq<Catalog.Product>)
    ensures Sum(SalesStats(ps), RowRevenue) == OverviewOf(ps).totalSalesValue
  {
    var bs := GroupBy(ps, CategoryOf);
    SumSortDesc(SalesRows(bs), RowSales, RowRevenue);
    SalesRowsRevenue(bs);
    GroupByTotal(ps, CategoryOf, Revenue);
  }

  /** Each category-sales entry holds its category's units sold and revenue. */
  lemma SalesStatsSums(ps: seq<Catalog.Product>)
    ensures var stats := SalesStats(ps);
            forall i :: 0 <= i < |stats| ==>
              stats[i].totalSales == KeySum(ps, CategoryOf, stats[i].category, Sales)
              && stats[i].totalRevenue == KeySum(ps, CategoryOf, stats[i].category, Revenue)
  {
    var rows := SalesRows(GroupBy(ps, CategoryOf));
    var stats := SalesStats(ps);
    forall i | 0 <= i < |stats|
      ensures stats[i].totalSales == KeySum(ps, CategoryOf, stats[i].category, Sales)
      ensures stats[i].totalRevenue == KeySum(ps, CategoryOf, stats[i].category, Revenue)
    {
      var k := IndexOf(stats[i], rows);
      GroupBySums(ps, CategoryOf, k, Sales);
      GroupBySums(ps, CategoryOf, k, Revenue);
    }
  }

  /** The month buckets come in strictly ascending month order, each a month number. */
  lemma MonthBucketsAscending(ps: seq<Catalog.Product>)
    requires CreationDatesValid(ps)
    ensures var bs := MonthBuckets(ps);
            && (forall i :: 0 <= i < |bs| ==> 1 <= bs[i].key <= 12)
            && (forall i, j :: 0 <= i < j < |bs| ==> bs[i].key < bs[j].key)
  {
    var bs := MonthBuckets(ps);
    MonthKeysValid(ps);
    GroupByKeys(ps, CreationMonth);
    SortDescDistinctBy(GroupBy(ps, CreationMonth), NegKey, KeyOf);
    forall i, j | 0 <= i < j < |bs| ensures bs[i].key < bs[j].key {
      assert NegKey(bs[i]) >= NegKey(bs[j]);
      assert KeyOf(bs[i]) != KeyOf(bs[j]);
    }
  }

  /**
   * Each monthly entry is labelled with its month's name and holds the sums
   * over every product created in that month, whatever the year.
   */
  lemma MonthlySalesSums(ps: seq<Catalog.Product>)
    requires CreationDatesValid(ps)
    ensures var bs := MonthBuckets(ps);
            var rows := MonthlySales(ps);
            && |rows| == |bs|
            && (forall i :: 0 <= i < |bs| ==>
                  1 <= bs[i].key <= 12
                  && rows[i].month == MonthNames[bs[i].key - 1]
                  && rows[i].sales == KeySum(ps, CreationMonth, bs[i].key, Sales)
                  && rows[i].revenue == KeySum(ps, CreationMonth, bs[i].key, Revenue))
  {
    var bs := MonthBuckets(ps);
    MonthKeysValid(ps);
    var rows := MonthRows(bs);
    assert MonthlySales(ps) == rows;
    MonthBucketSums(ps);
    forall i | 0 <= i < |bs|
      ensures rows[i].sales == KeySum(ps, CreationMonth, bs[i].key, Sales)
      ensures rows[i].revenue == KeySum(ps, CreationMonth, bs[i].key, Revenue)
    {
      assert rows[i] == MonthStat(MonthNames[bs[i].key - 1], bs[i].totalSales, bs[i].totalRevenue);
    }
  }

  /** Each month bucket holds the sums over the products created in its month. */
  lemma MonthBucketSums(ps: seq<Catalog.Product>)
    ensures var bs := MonthBuckets(ps);
            forall i :: 0 <= i < |bs| ==>
              && bs[i].totalSales == KeySum(ps, CreationMonth, bs[i].key, Sales)
              && bs[i].totalRevenue == KeySum(ps, CreationMonth, bs[i].key, Revenue)
  {
    var bs := MonthBuckets(ps);
    PermutedBucketSums(ps, CreationMonth, bs, Sales);
    PermutedBucketSums(ps, CreationMonth, bs, Revenue);
    forall i | 0 <= i < |bs|
      ensures bs[i].totalSales == KeySum(ps, CreationMonth, bs[i].key, Sales)
      ensures bs[i].totalRevenue == KeySum(ps, CreationMonth, bs[i].key, Revenue)
    {
      assert Get(bs[i], Sales) == bs[i].totalSales && Get(bs[i], Revenue) == bs[i].totalRevenue;
    }
  }

  /** Every month in which some product was created has an entry. */
  lemma MonthlySalesCoverAllMonths(ps: seq<Catalog.Product>)
    requires CreationDatesValid(ps)
    ensures forall j :: 0 <= j < |ps| ==> HasKey(MonthBuckets(ps), ps[j].createdAt.month)
  {
    var groups := GroupBy(ps, CreationMonth);
    var bs := MonthBuckets(ps);
    GroupByKeys(ps, CreationMonth);
    forall j | 0 <= j < |ps| ensures HasKey(bs, ps[j].createdAt.month) {
      var m := CreationMonth(ps[j]);
      assert Occurs(ps, CreationMonth, m);
      var k :| 0 <= k < |groups| && groups[k].key == m;
      assert groups[k] in multiset(bs);
      var i := IndexOf(groups[k], bs);
      assert bs[i].key == m;
    }
  }

  /**
   * The recent products: at most five, newest first, taken from the
   * collection, and no product left out was created later than one shown.
   */
  lemma RecentProductsFacts(ps: seq<Catalog.Product>)
    requires CreationDatesValid(ps)
    ensures var recent := RecentProducts(ps);
            var sorted := SortDesc(ps, CreationTime);
            && |recent| == (if |ps| < TopCount then |ps| else TopCount)
            && (forall i :: 0 <= i < |recent| ==> recent[i] in ps)
            && (forall i, j :: 0 <= i < j < |recent| ==> !Before(recent[i].createdAt, recent[j].createdAt))
            && (forall i, j :: 0 <= i < |recent| <= j < |sorted| ==> !Before(recent[i].createdAt, sorted[j].createdAt))
  {
    var sorted := SortDesc(ps, CreationTime);
    var recent := Take(sorted, TopCount);
    forall i | 0 <= i < |sorted| ensures sorted[i] in ps && ValidDate(sorted[i].createdAt) {
      var k := IndexOf(sorted[i], ps);
    }
    forall i, j | 0 <= i < j < |sorted| ensures !Before(sorted[i].createdAt, sorted[j].createdAt) {
      ChronoMonotone(sorted[i].createdAt, sorted[j].createdAt);
    }
  }

  /**
   * The top sellers: at most five, every one with sales, in descending
   * order of sales; fewer than five only when fewer products have sales,
   * and no product with sales left out sold more than one shown.
   */
  lemma TopSellingFacts(ps: seq<Catalog.Product>)
    ensures var top := TopSelling(ps);
            var sorted := SortDesc(Filter(ps, HasSales), SalesOf);
            && |top| == (if Sequences.Count(ps, HasSales) < TopCount then Sequences.Count(ps, HasSales) else TopCount)
            && (forall i :: 0 <= i < |top| ==> top[i] in ps && top[i].sales > 0)
            && SortedDesc(top, SalesOf)
            && (forall i, j :: 0 <= i < |top| <= j < |sorted| ==> top[i].sales >= sorted[j].sales)
  {
    CountIsFilterLength(ps, HasSales);
    TakeOfSortDesc(Filter(ps, HasSales), SalesOf, TopCount);
    TopSellingHaveSales(ps);
  }

  /** Every top seller is a stored product with sales. */
  lemma TopSellingHaveSales(ps: seq<Catalog.Product>)
    ensures forall i :: 0 <= i < |TopSelling(ps)| ==> TopSelling(ps)[i] in ps && TopSelling(ps)[i].sales > 0
  {
    var filtered := Filter(ps, HasSales);
    var top := TopSelling(ps);
    TakeOfSortDesc(filtered, SalesOf, TopCount);
    forall i | 0 <= i < |top| ensures top[i] in ps && top[i].sales > 0 {
      var k := IndexOf(top[i], filtered);
    }
  }
}
