/**
 * The four price figures the script takes from pandas `describe()`: minimum,
 * mean, median (the 50% quantile with linear interpolation) and maximum,
 * computed exactly. The median is computed but not displayed. On no prices the
 * figures are missing (NaN), modelled as None (montreal_housing.py, lines 78-82
 * and 141-145).
 */
module Stats {
  import opened Wrappers
  import opened Seqs
  import opened Listings

  datatype Summary = Summary(min: int, mean: real, median: real, max: int)

  function Sum(xs: seq<int>): int
  {
    if xs == [] then 0 else xs[0] + Sum(xs[1..])
  }

  function MinOf(xs: seq<int>): (m: int)
    requires |xs| > 0
    ensures m in xs
    ensures forall i :: 0 <= i < |xs| ==> m <= xs[i]
  {
    if |xs| == 1 then xs[0]
    else
      var rest := MinOf(xs[1..]);
      if xs[0] <= rest then xs[0] else rest
  }

  function MaxOf(xs: seq<int>): (m: int)
    requires |xs| > 0
    ensures m in xs
    ensures forall i :: 0 <= i < |xs| ==> xs[i] <= m
  {
    if |xs| == 1 then xs[0]
    else
      var rest := MaxOf(xs[1..]);
      if xs[0] >= rest then xs[0] else rest
  }

  ghost predicate Sorted(s: seq<int>)
  {
    forall i, j :: 0 <= i <= j < |s| ==> s[i] <= s[j]
  }

  /** Puts `x` into the sorted sequence `s`, before the first element not below it. */
  function Insert(x: int, s: seq<int>): (r: seq<int>)
    requires Sorted(s)
    ensures |r| == |s| + 1
    ensures Sorted(r)
    ensures multiset(r) == multiset(s) + multiset{x}
  {
    if s == [] || x <= s[0] then
      SortedCons(x, s);
      [x] + s
    else
      var rest := Insert(x, s[1..]);
      assert s == [s[0]] + s[1..];
      forall i | 0 <= i < |rest| ensures s[0] <= rest[i] {
        assert rest[i] in multiset(s[1..]) + multiset{x};
      }
      SortedCons(s[0], rest);
      [s[0]] + rest
  }

  lemma SortedCons(h: int, t: seq<int>)
    requires Sorted(t)
    requires forall i :: 0 <= i < |t| ==> h <= t[i]
    ensures Sorted([h] + t)
  {
  }

  /** The prices in ascending order, as the quantile computation sees them. */
  function SortPrices(xs: seq<int>): (r: seq<int>)
    ensures |r| == |xs|
    ensures Sorted(r)
    ensures multiset(r) == multiset(xs)
  {
    if xs == [] then []
    else
      assert xs == [xs[0]] + xs[1..];
      Insert(xs[0], SortPrices(xs[1..]))
  }

  /** The arithmetic mean of the prices; it lies between the least and the greatest. */
  function Mean(xs: seq<int>): (m: real)
    requires |xs| > 0
    ensures MinOf(xs) as real <= m <= MaxOf(xs) as real
  {
    SumBounds(xs, MinOf(xs), MaxOf(xs));
    DivideBounds(Sum(xs), |xs|, MinOf(xs), MaxOf(xs));
    Sum(xs) as real / |xs| as real
  }

  /**
   * The 50% quantile of sorted values with linear interpolation: at position
   * h = (n - 1) / 2, s[floor(h)] + (h - floor(h)) * (s[floor(h) + 1] - s[floor(h)]).
   */
  function MiddleInterpolation(s: seq<int>): real
    requires |s| > 0
  {
    var n := |s|;
    var lo := (n - 1) / 2;
    var hi := n / 2;
    var frac := ((n - 1) % 2) as real / 2.0;
    s[lo] as real + frac * (s[hi] - s[lo]) as real
  }

  /** The median: the 50% quantile of the sorted prices; it lies between the least and the greatest price. */
  function Median(xs: seq<int>): (m: real)
    requires |xs| > 0
    ensures MinOf(xs) as real <= m <= MaxOf(xs) as real
  {
    SortedEnds(xs);
    InterpolationWithin(SortPrices(xs));
    MiddleInterpolation(SortPrices(xs))
  }

  /**
   * `Series.describe()` restricted to the four figures the script reads from it.
   * A summary exists exactly when there are prices; then its minimum and
   * maximum are prices that bound every price, and the mean and the median lie
   * between them.
   */
  function Summarize(xs: seq<int>): (r: Option<Summary>)
    ensures r.None? <==> xs == []
    ensures r.Some? ==> r.value.min in xs && r.value.max in xs
    ensures r.Some? ==> forall i :: 0 <= i < |xs| ==> r.value.min <= xs[i] <= r.value.max
    ensures r.Some? ==> r.value.min as real <= r.value.mean <= r.value.max as real
    ensures r.Some? ==> r.value.min as real <= r.value.median <= r.value.max as real
  {
    if xs == [] then None
    else Some(Summary(MinOf(xs), Mean(xs), Median(xs), MaxOf(xs)))
  }

  /** The non-missing prices of the rows, in row order (`describe()` skips NaN). */
  function Prices(rows: seq<Listing>): (ps: seq<int>)
    ensures |ps| == CountIf(HasPrice, rows)
    ensures forall p :: p in ps <==> exists i :: 0 <= i < |rows| && rows[i].price == Some(p)
  {
    if rows == [] then []
    else
      var rest := Prices(rows[1..]);
      match rows[0].price
      case Some(p) => [p] + rest
      case None => rest
  }

  /** The price summary of a set of rows; None exactly when no row has a price. */
  function PriceSummary(rows: seq<Listing>): (r: Option<Summary>)
    ensures r.None? <==> forall i :: 0 <= i < |rows| ==> !HasPrice(rows[i])
  {
    Summarize(Prices(rows))
  }

  /** The gauge axis of the dashboard's indicators: from 200 below the minimum to 100 above the maximum. */
  function GaugeRange(s: Summary): (r: (int, int))
    ensures r.0 < s.min && s.max < r.1
  {
    (s.min - 200, s.max + 100)
  }

  // ---------------------------------------------------------------- lemmas

  /** When every row has a price, the summary covers every row. */
  lemma {:induction false} PricesOfPricedRows(rows: seq<Listing>)
    requires forall i :: 0 <= i < |rows| ==> HasPrice(rows[i])
    ensures |Prices(rows)| == |rows|
    ensures forall i :: 0 <= i < |rows| ==> Prices(rows)[i] == rows[i].price.value
  {
    if rows != [] {
      PricesOfPricedRows(rows[1..]);
    }
  }

  /**
   * Rows without a price contribute nothing: the summarised prices are those of
   * `DropMissingPrice(rows)`, one per priced row, in row order.
   */
  lemma {:induction false} PricesSkipMissing(rows: seq<Listing>)
    ensures Prices(rows) == Prices(DropMissingPrice(rows))
    ensures |Prices(rows)| == |DropMissingPrice(rows)|
    ensures forall i :: 0 <= i < |Prices(rows)| ==> Prices(rows)[i] == DropMissingPrice(rows)[i].price.value
  {
    if rows != [] {
      PricesSkipMissing(rows[1..]);
    }
    PricesOfPricedRows(DropMissingPrice(rows));
  }

  /** Prices between `lo` and `hi` sum to between `|xs| * lo` and `|xs| * hi`. */
  lemma {:induction false} SumBounds(xs: seq<int>, lo: int, hi: int)
    requires forall i :: 0 <= i < |xs| ==> lo <= xs[i] <= hi
    ensures |xs| * lo <= Sum(xs) <= |xs| * hi
  {
    if xs != [] {
      SumBounds(xs[1..], lo, hi);
    }
  }

  lemma DivideBounds(total: int, n: int, lo: int, hi: int)
    requires n > 0
    requires n * lo <= total <= n * hi
    ensures lo as real <= total as real / n as real <= hi as real
  {
    var q := total as real / n as real;
    assert q * n as real == total as real;
    assert (n * lo) as real == n as real * lo as real;
    assert (n * hi) as real == n as real * hi as real;
  }

  /** In a sorted permutation of the prices, the first is the minimum and the last the maximum. */
  lemma SortedEnds(xs: seq<int>)
    requires |xs| > 0
    ensures |SortPrices(xs)| == |xs|
    ensures SortPrices(xs)[0] == MinOf(xs)
    ensures SortPrices(xs)[|xs| - 1] == MaxOf(xs)
  {
    var s := SortPrices(xs);
    SortedPermutationEnds(xs, s);
  }

  lemma SortedPermutationEnds(xs: seq<int>, s: seq<int>)
    requires |xs| > 0 && |s| == |xs|
    requires Sorted(s) && multiset(s) == multiset(xs)
    ensures s[0] == MinOf(xs) && s[|s| - 1] == MaxOf(xs)
  {
    var m, M := MinOf(xs), MaxOf(xs);
    assert s[0] in multiset(xs) && s[|s| - 1] in multiset(xs);
    assert m in multiset(s) && M in multiset(s);
    var i :| 0 <= i < |s| && s[i] == m;
    var j :| 0 <= j < |s| && s[j] == M;
    assert s[0] <= s[i] && s[j] <= s[|s| - 1];
  }

  /**
   * The interpolated middle is the middle value for an odd count and the mean of
   * the two middle values for an even count.
   */
  lemma MiddleInterpolationCases(s: seq<int>)
    requires |s| > 0
    ensures |s| % 2 == 1 ==> MiddleInterpolation(s) == s[|s| / 2] as real
    ensures |s| % 2 == 0 ==> MiddleInterpolation(s) == (s[|s| / 2 - 1] + s[|s| / 2]) as real / 2.0
  {
    var n := |s|;
    if n % 2 == 1 {
      assert (n - 1) / 2 == n / 2 && (n - 1) % 2 == 0;
    } else {
      assert (n - 1) / 2 == n / 2 - 1 && (n - 1) % 2 == 1;
    }
  }

  /** The interpolated middle of sorted values lies between the first and the last. */
  lemma InterpolationWithin(s: seq<int>)
    requires |s| > 0 && Sorted(s)
    ensures s[0] as real <= MiddleInterpolation(s) <= s[|s| - 1] as real
  {
    var n := |s|;
    MiddleInterpolationCases(s);
    if n % 2 == 0 {
      assert s[0] <= s[n / 2 - 1] <= s[n / 2] <= s[n - 1];
    }
  }

  /** The gauge axis strictly contains all four figures of a summary. */
  lemma GaugeContainsSummary(xs: seq<int>)
    requires |xs| > 0
    ensures
      var s := Summarize(xs).value;
      var (lo, hi) := GaugeRange(s);
      && lo < s.min <= s.max < hi
      && lo as real < s.mean < hi as real
      && lo as real < s.median < hi as real
  {
  }

  /** Prices already in ascending order are left as they are. */
  lemma {:induction false} SortPricesOfSorted(xs: seq<int>)
    requires Sorted(xs)
    ensures SortPrices(xs) == xs
  {
    if xs != [] {
      SortPricesOfSorted(xs[1..]);
      assert xs == [xs[0]] + xs[1..];
    }
  }

  /** The median of an odd count is the middle price; of an even count, the mean of the two middle prices. */
  lemma MedianMiddle(xs: seq<int>)
    requires |xs| > 0
    ensures |SortPrices(xs)| == |xs|
    ensures |xs| % 2 == 1 ==> Median(xs) == SortPrices(xs)[|xs| / 2] as real
    ensures |xs| % 2 == 0 ==> Median(xs) == (SortPrices(xs)[|xs| / 2 - 1] + SortPrices(xs)[|xs| / 2]) as real / 2.0
  {
    MiddleInterpolationCases(SortPrices(xs));
  }

  /** A borough priced 1000, 1200, 1500, 1500, 2000, 2500 and 3000, in that order. */
  predicate SevenPrices(xs: seq<int>)
  {
    && |xs| == 7
    && xs[0] == 1000 && xs[1] == 1200 && xs[2] == 1500 && xs[3] == 1500
    && xs[4] == 2000 && xs[5] == 2500 && xs[6] == 3000
  }

  lemma SevenPricesSum(xs: seq<int>)
    requires SevenPrices(xs)
    ensures Sum(xs) == 12700
  {
    forall k | 0 <= k < 7 ensures xs[k..][1..] == xs[k + 1..] {}
    assert Sum(xs[6..]) == 3000;
    assert Sum(xs[5..]) == 5500;
    assert Sum(xs[4..]) == 7500;
    assert Sum(xs[3..]) == 9000;
    assert Sum(xs[2..]) == 10500;
    assert Sum(xs[1..]) == 11700;
    assert xs[0..] == xs;
  }

  /** Its summary: minimum 1000, mean 12700/7 (about 1814.29), median 1500, maximum 3000. */
  lemma SevenPricesSummary(xs: seq<int>)
    requires SevenPrices(xs)
    ensures Summarize(xs) == Some(Summary(1000, 12700.0 / 7.0, 1500.0, 3000))
  {
    SevenPricesSorted(xs);
    SortPricesOfSorted(xs);
    SortedEnds(xs);
    MedianMiddle(xs);
    SevenPricesSum(xs);
    assert MinOf(xs) == 1000 && MaxOf(xs) == 3000;
    assert Median(xs) == 1500.0;
    assert Mean(xs) == 12700.0 / 7.0;
  }

  lemma SevenPricesSorted(xs: seq<int>)
    requires SevenPrices(xs)
    ensures Sorted(xs)
  {
  }
}
