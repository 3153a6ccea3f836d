/**
 Latency statistics over exact reals: sorting, interpolated percentiles, the summary of a run, and
 what a percentile says about the unsorted samples.
 */
module Statistics {
  import opened Metrics

  // ---------------------------------------------------------------- sorting

  ghost predicate Sorted(s: seq<real>) {
    forall i, j :: 0 <= i < j < |s| ==> s[i] <= s[j]
  }

  function Insert(x: real, s: seq<real>): seq<real> {
    if s == [] || x <= s[0] then [x] + s else [s[0]] + Insert(x, s[1..])
  }

  /** Stands for `std::sort`; any other way of sorting gives the same sequence (`SortedUnique`). */
  function Sort(s: seq<real>): seq<real> {
    if s == [] then [] else Insert(s[0], Sort(s[1..]))
  }

  lemma SortedCons(x: real, s: seq<real>)
    requires Sorted(s) && (s != [] ==> x <= s[0])
    ensures Sorted([x] + s)
  {
  }

  lemma {:induction false} InsertSorted(x: real, s: seq<real>)
    requires Sorted(s)
    ensures Sorted(Insert(x, s)) && |Insert(x, s)| == |s| + 1
    ensures Insert(x, s)[0] == x || (s != [] && Insert(x, s)[0] == s[0])
    decreases |s|
  {
    if s == [] || x <= s[0] {
      SortedCons(x, s);
    } else {
      InsertSorted(x, s[1..]);
      SortedCons(s[0], Insert(x, s[1..]));
    }
  }

  lemma {:induction false} InsertContents(x: real, s: seq<real>)
    ensures multiset(Insert(x, s)) == multiset(s) + multiset{x}
    decreases |s|
  {
    if s != [] && x > s[0] {
      InsertContents(x, s[1..]);
      assert s == [s[0]] + s[1..];
    }
  }

  lemma {:induction false} SortSorted(s: seq<real>)
    ensures Sorted(Sort(s)) && multiset(Sort(s)) == multiset(s) && |Sort(s)| == |s|
    decreases |s|
  {
    if s != [] {
      SortSorted(s[1..]);
      InsertSorted(s[0], Sort(s[1..]));
      InsertContents(s[0], Sort(s[1..]));
      assert s == [s[0]] + s[1..];
    }
  }

  lemma HeadLeast(a: seq<real>, x: real)
    requires Sorted(a) && x in multiset(a)
    ensures a[0] <= x
  {
    var i :| 0 <= i < |a| && a[i] == x;
  }

  lemma TailContents(a: seq<real>)
    requires a != []
    ensures multiset(a) == multiset{a[0]} + multiset(a[1..])
  {
    assert a == [a[0]] + a[1..];
  }

  lemma {:induction false} SortedUnique(a: seq<real>, b: seq<real>)
    requires Sorted(a) && Sorted(b) && multiset(a) == multiset(b)
    ensures a == b
    decreases |a|
  {
    hide Sorted;
    assert |a| == |multiset(a)| == |b|;
    if a != [] {
      TailContents(a);
      TailContents(b);
      HeadLeast(a, b[0]);
      HeadLeast(b, a[0]);
      TailSorted(a);
      TailSorted(b);
      Cancel(a[0], multiset(a[1..]), multiset(b[1..]));
      SortedUnique(a[1..], b[1..]);
      HeadTail(a, b);
    }
  }

  lemma Cancel(x: real, m: multiset<real>, n: multiset<real>)
    requires multiset{x} + m == multiset{x} + n
    ensures m == n
  {
    assert m == (multiset{x} + m) - multiset{x};
    assert n == (multiset{x} + n) - multiset{x};
  }

  lemma HeadTail(a: seq<real>, b: seq<real>)
    requires |a| == |b| > 0 && a[0] == b[0] && a[1..] == b[1..]
    ensures a == b
  {
    assert a == [a[0]] + a[1..] && b == [b[0]] + b[1..];
  }

  lemma TailSorted(a: seq<real>)
    requires Sorted(a) && a != []
    ensures Sorted(a[1..])
  {
  }

  /** Sorting forgets the order of the samples and nothing else. */
  lemma SortPermutation(a: seq<real>, b: seq<real>)
    requires multiset(a) == multiset(b)
    ensures Sort(a) == Sort(b)
  {
    SortSorted(a);
    SortSorted(b);
    SortedUnique(Sort(a), Sort(b));
  }

  // ---------------------------------------------------------------- ranks

  /** How many samples exceed a threshold. */
  function CountAbove(s: seq<real>, t: real): (n: nat)
    ensures n <= |s|
  {
    if s == [] then 0 else (if s[0] > t then 1 else 0) + CountAbove(s[1..], t)
  }

  lemma {:induction false} InsertCount(x: real, s: seq<real>, t: real)
    ensures CountAbove(Insert(x, s), t) == CountAbove(s, t) + if x > t then 1 else 0
    decreases |s|
  {
    if s == [] || x <= s[0] {
      assert ([x] + s)[1..] == s;
    } else {
      InsertCount(x, s[1..], t);
      assert Insert(x, s)[1..] == Insert(x, s[1..]);
    }
  }

  lemma {:induction false} SortCount(s: seq<real>, t: real)
    ensures CountAbove(Sort(s), t) == CountAbove(s, t)
    decreases |s|
  {
    if s != [] {
      SortCount(s[1..], t);
      InsertCount(s[0], Sort(s[1..]), t);
    }
  }

  /** The sorted sample of rank `k` is within the threshold exactly when at most `n - 1 - k` exceed it. */
  lemma {:induction false} RankExact(s: seq<real>, k: nat, t: real)
    requires Sorted(s) && k < |s|
    ensures s[k] <= t <==> CountAbove(s, t) <= |s| - 1 - k
    decreases |s|
  {
    if s[0] > t {
      AllAbove(s, t);
    } else if k > 0 {
      RankExact(s[1..], k - 1, t);
    }
  }

  lemma {:induction false} AllAbove(s: seq<real>, t: real)
    requires forall k :: 0 <= k < |s| ==> s[k] > t
    ensures CountAbove(s, t) == |s|
    decreases |s|
  {
    if s != [] {
      AllAbove(s[1..], t);
    }
  }

  // ---------------------------------------------------------------- percentiles

  function Clamp(p: real): real {
    if p < 0.0 then 0.0 else if p > 1.0 then 1.0 else p
  }

  /** Multiplication, under a name, so that products can be handled as wholes. */
  function Times(a: real, b: real): real {
    a * b
  }

  function Position(n: nat, p: real): real
    requires n > 0
  {
    Times(Clamp(p), (n - 1) as real)
  }

  function Ceil(x: real): int {
    if x.Floor as real == x then x.Floor else x.Floor + 1
  }

  /** The two ranks a percentile lies between. */
  lemma PositionBounds(n: nat, p: real)
    requires n > 0
    ensures 0.0 <= Position(n, p) <= (n - 1) as real
    ensures 0 <= Position(n, p).Floor <= Ceil(Position(n, p)) <= n - 1
  {
    hide Times;
    Scale(Clamp(p), (n - 1) as real);
  }

  lemma Scale(c: real, m: real)
    requires 0.0 <= c <= 1.0 && m >= 0.0
    ensures 0.0 <= Times(c, m) <= m && Times(m, c) == Times(c, m)
  {
    hide Times;
    NonNegative(c, m);
    NonNegative(1.0 - c, m);
    Complement(c, m);
    Commute(c, m);
  }

  lemma NonNegative(a: real, b: real)
    requires a >= 0.0 && b >= 0.0
    ensures Times(a, b) >= 0.0
  {
  }

  lemma Complement(c: real, m: real)
    ensures Times(1.0 - c, m) == m - Times(c, m)
  {
  }

  lemma Commute(a: real, b: real)
    ensures Times(a, b) == Times(b, a)
  {
  }

  function Between(a: real, b: real, weight: real): real {
    a + Times(b - a, weight)
  }

  function Percentile(s: seq<real>, p: real): real {
    if s == [] then 0.0
    else
      PositionBounds(|s|, p);
      var position := Position(|s|, p);
      var lower, upper := position.Floor, Ceil(position);
      Between(s[lower], s[upper], position - lower as real)
  }

  lemma BetweenBounds(a: real, b: real, w: real)
    requires a <= b && 0.0 <= w <= 1.0
    ensures a <= Between(a, b, w) <= b
  {
    hide Times;
    Scale(w, b - a);
  }

  /** A percentile lies between its two neighbouring ranks. */
  lemma PercentileBounds(s: seq<real>, p: real)
    requires Sorted(s) && s != []
    ensures var x := Position(|s|, p); 0 <= x.Floor <= Ceil(x) < |s| && s[x.Floor] <= Percentile(s, p) <= s[Ceil(x)]
  {
    PositionBounds(|s|, p);
    var x := Position(|s|, p);
    BetweenBounds(s[x.Floor], s[Ceil(x)], x - x.Floor as real);
  }

  /** Higher percentiles are not smaller. */
  lemma PercentileMonotone(s: seq<real>, p: real, q: real)
    requires Sorted(s) && p <= q
    ensures Percentile(s, p) <= Percentile(s, q)
  {
    hide Times, Clamp, Ceil, Sorted;
    ClampOrdered(p, q);
    if s != [] {
      PositionBounds(|s|, p);
      PositionBounds(|s|, q);
      Ordered(Clamp(p), Clamp(q), (|s| - 1) as real);
      Climb(s, Position(|s|, p), Position(|s|, q));
    }
  }

  /** The interpolated value at a position between the first rank and the last. */
  function ValueAt(s: seq<real>, x: real): real
    requires 0 <= x.Floor <= Ceil(x) < |s|
  {
    Between(s[x.Floor], s[Ceil(x)], x - x.Floor as real)
  }

  lemma Climb(s: seq<real>, x: real, y: real)
    requires Sorted(s) && x <= y && 0 <= x.Floor <= Ceil(x) < |s| && 0 <= y.Floor <= Ceil(y) < |s|
    ensures ValueAt(s, x) <= ValueAt(s, y)
  {
    hide Between;
    BetweenBounds(s[x.Floor], s[Ceil(x)], x - x.Floor as real);
    BetweenBounds(s[y.Floor], s[Ceil(y)], y - y.Floor as real);
    Neighbours(x, y);
    if Ceil(x) > y.Floor {
      BetweenOrdered(s[x.Floor], s[Ceil(x)], x - x.Floor as real, y - y.Floor as real);
    }
  }

  lemma ClampOrdered(p: real, q: real)
    requires p <= q
    ensures Clamp(p) <= Clamp(q)
  {
  }

  /** Of two positions, either a whole rank lies between them or they have the same neighbours. */
  lemma Neighbours(x: real, y: real)
    requires x <= y
    ensures Ceil(x) <= y.Floor || (x.Floor == y.Floor && Ceil(x) == Ceil(y))
  {
  }

  lemma BetweenOrdered(a: real, b: real, v: real, w: real)
    requires a <= b && v <= w
    ensures Between(a, b, v) <= Between(a, b, w)
  {
    hide Times;
    Ordered(v, w, b - a);
  }

  lemma Ordered(a: real, b: real, m: real)
    requires a <= b && m >= 0.0
    ensures Times(a, m) <= Times(b, m) && Times(m, a) <= Times(m, b)
  {
  }

  /** Between two ranks a percentile is interpolated: of position `k + w`, in plain numbers. */
  lemma PercentileExact(s: seq<real>, p: real, k: nat, w: real)
    requires k + 1 < |s| && 0.0 <= w <= 1.0 && 0.0 <= p <= 1.0 && p * (|s| - 1) as real == k as real + w
    ensures Percentile(s, p) == s[k] * (1.0 - w) + s[k + 1] * w
  {
    hide Percentile;
    PercentileMixed(s, p, k, w);
  }

  lemma PercentileMixed(s: seq<real>, p: real, k: nat, w: real)
    requires k + 1 < |s| && 0.0 <= w <= 1.0 && 0.0 <= p <= 1.0 && Times(p, (|s| - 1) as real) == k as real + w
    ensures Percentile(s, p) == Times(s[k], 1.0 - w) + Times(s[k + 1], w)
  {
    hide Between, Times;
    PositionBounds(|s|, p);
    assert Clamp(p) == p;
    Interpolated(s, k, w);
  }

  lemma Interpolated(s: seq<real>, k: nat, w: real)
    requires k + 1 < |s| && 0.0 <= w <= 1.0
    ensures var x := k as real + w;
      && 0 <= x.Floor <= Ceil(x) < |s|
      && Between(s[x.Floor], s[Ceil(x)], x - x.Floor as real) == Times(s[k], 1.0 - w) + Times(s[k + 1], w)
  {
    hide Between, Times;
    var x := k as real + w;
    Blend(s[k], s[k + 1], w);
    if w == 1.0 {
      assert x.Floor == k + 1;
      Blend(s[k + 1], s[k + 1], 0.0);
      Certain(s[k], s[k + 1]);
    } else {
      assert x.Floor == k;
      if w == 0.0 {
        Blend(s[k], s[k], 0.0);
        Certain(s[k + 1], s[k]);
      }
    }
  }

  lemma Certain(a: real, b: real)
    ensures Times(a, 0.0) == 0.0 && Times(b, 0.0) == 0.0 && Times(a, 1.0) == a && Times(b, 1.0) == b
  {
  }

  /** Of no sample, of one, and at the two ends. */
  lemma PercentileEnds(s: seq<real>, p: real)
    ensures s == [] ==> Percentile(s, p) == 0.0
    ensures |s| == 1 || (s != [] && p <= 0.0) ==> Percentile(s, p) == s[0]
    ensures s != [] && p >= 1.0 ==> Percentile(s, p) == s[|s| - 1]
  {
    if s != [] {
      PositionBounds(|s|, p);
    }
  }

  /**
   The tail behind a percentile, in terms of the unsorted samples. Within the threshold: at most
   `n - 1 - floor` samples exceed it. Beyond it: at least `n - ceil` do. At a whole rank the two meet.
   */
  lemma TailMeaning(values: seq<real>, p: real, t: real)
    requires values != []
    ensures var n, x, above := |values|, Position(|values|, p), CountAbove(values, t);
      && (Percentile(Sort(values), p) <= t ==> above <= n - 1 - x.Floor)
      && (Percentile(Sort(values), p) > t ==> above >= n - Ceil(x))
      && (x.Floor == Ceil(x) ==> (Percentile(Sort(values), p) <= t <==> above <= n - 1 - x.Floor))
  {
    SortSorted(values);
    SortCount(values, t);
    var s := Sort(values);
    PercentileBounds(s, p);
    RankExact(s, Position(|s|, p).Floor, t);
    RankExact(s, Ceil(Position(|s|, p)), t);
  }

  // ---------------------------------------------------------------- moments

  /** `std::accumulate` over the samples. */
  function Sum(s: seq<real>): real {
    if s == [] then 0.0 else Sum(s[..|s| - 1]) + s[|s| - 1]
  }

  function SumSquares(s: seq<real>): real {
    if s == [] then 0.0 else SumSquares(s[..|s| - 1]) + Times(s[|s| - 1], s[|s| - 1])
  }

  /** Squared deviations from `c`. */
  function Deviations(s: seq<real>, c: real): real {
    if s == [] then 0.0 else Deviations(s[..|s| - 1], c) + Times(s[|s| - 1] - c, s[|s| - 1] - c)
  }

  /** Products of the distances to an upper and a lower bound. */
  function Gaps(s: seq<real>, high: real, low: real): real {
    if s == [] then 0.0 else Gaps(s[..|s| - 1], high, low) + Times(high - s[|s| - 1], s[|s| - 1] - low)
  }

  lemma {:induction false} SumFront(x: real, s: seq<real>)
    ensures Sum([x] + s) == x + Sum(s)
    decreases |s|
  {
    if s == [] {
      assert [x] + s == [x] && [x][..0] == [];
    } else {
      var last := |s| - 1;
      assert ([x] + s)[..|s|] == [x] + s[..last];
      SumFront(x, s[..last]);
    }
  }

  lemma {:induction false} InsertSum(x: real, s: seq<real>)
    ensures Sum(Insert(x, s)) == x + Sum(s)
    decreases |s|
  {
    if s == [] || x <= s[0] {
      SumFront(x, s);
    } else {
      InsertSum(x, s[1..]);
      SumFront(s[0], Insert(x, s[1..]));
      SumFront(s[0], s[1..]);
      assert s == [s[0]] + s[1..];
    }
  }

  lemma {:induction false} SortSum(s: seq<real>)
    ensures Sum(Sort(s)) == Sum(s)
    decreases |s|
  {
    if s != [] {
      SortSum(s[1..]);
      InsertSum(s[0], Sort(s[1..]));
      SumFront(s[0], s[1..]);
      assert s == [s[0]] + s[1..];
    }
  }

  lemma {:induction false} SquaresFront(x: real, s: seq<real>)
    ensures SumSquares([x] + s) == Times(x, x) + SumSquares(s)
    decreases |s|
  {
    hide Times;
    if s == [] {
      assert [x] + s == [x] && [x][..0] == [];
    } else {
      var last := |s| - 1;
      assert ([x] + s)[..|s|] == [x] + s[..last];
      SquaresFront(x, s[..last]);
    }
  }

  lemma {:induction false} InsertSquares(x: real, s: seq<real>)
    ensures SumSquares(Insert(x, s)) == Times(x, x) + SumSquares(s)
    decreases |s|
  {
    hide Times;
    if s == [] || x <= s[0] {
      SquaresFront(x, s);
    } else {
      InsertSquares(x, s[1..]);
      SquaresFront(s[0], Insert(x, s[1..]));
      SquaresFront(s[0], s[1..]);
      assert s == [s[0]] + s[1..];
    }
  }

  lemma {:induction false} SortSquares(s: seq<real>)
    ensures SumSquares(Sort(s)) == SumSquares(s)
    decreases |s|
  {
    hide Times;
    if s != [] {
      SortSquares(s[1..]);
      InsertSquares(s[0], Sort(s[1..]));
      SquaresFront(s[0], s[1..]);
      assert s == [s[0]] + s[1..];
    }
  }

  lemma {:induction false} SumBounds(s: seq<real>, low: real, high: real)
    requires forall k :: 0 <= k < |s| ==> low <= s[k] <= high
    ensures Times(|s| as real, low) <= Sum(s) <= Times(|s| as real, high)
    decreases |s|
  {
    if s != [] {
      var n := (|s| - 1) as real;
      SumBounds(s[..|s| - 1], low, high);
      OneMore(n, low);
      OneMore(n, high);
    }
  }

  lemma OneMore(n: real, c: real)
    ensures Times(n + 1.0, c) == Times(n, c) + c
  {
  }

  /** Squared deviations, expanded. */
  lemma {:induction false} DeviationsExpand(s: seq<real>, c: real)
    ensures Deviations(s, c) == SumSquares(s) - 2.0 * Times(c, Sum(s)) + Times(|s| as real, Times(c, c))
    decreases |s|
  {
    hide Times;
    if s == [] {
      NoProduct(c);
    } else {
      var t, x := s[..|s| - 1], s[|s| - 1];
      DeviationsExpand(t, c);
      SquareExpand(x, c);
      Distribute(c, Sum(t), x);
      OneMoreHidden(|t| as real, Times(c, c));
    }
  }

  lemma NoProduct(c: real)
    ensures Times(c, 0.0) == 0.0 && Times(0.0, c) == 0.0 && Times(0.0, Times(c, c)) == 0.0
  {
  }

  lemma OneMoreHidden(n: real, c: real)
    ensures Times(n + 1.0, c) == Times(n, c) + c
  {
  }

  lemma SquareExpand(x: real, c: real)
    ensures Times(x - c, x - c) == Times(x, x) - 2.0 * Times(c, x) + Times(c, c)
  {
  }

  lemma Distribute(c: real, a: real, b: real)
    ensures Times(c, a + b) == Times(c, a) + Times(c, b)
  {
  }

  /** Gap products, expanded. */
  lemma {:induction false} GapsExpand(s: seq<real>, high: real, low: real)
    ensures Gaps(s, high, low) ==
      Times(high + low, Sum(s)) - SumSquares(s) - Times(|s| as real, Times(high, low))
    decreases |s|
  {
    hide Times;
    if s == [] {
      NoProduct(high + low);
      NoProduct(Times(high, low));
    } else {
      var t, x := s[..|s| - 1], s[|s| - 1];
      GapsExpand(t, high, low);
      GapExpand(x, high, low);
      Distribute(high + low, Sum(t), x);
      OneMoreHidden(|t| as real, Times(high, low));
    }
  }

  lemma GapExpand(x: real, high: real, low: real)
    ensures Times(high - x, x - low) == Times(high + low, x) - Times(x, x) - Times(high, low)
  {
  }

  lemma {:induction false} GapsNonNegative(s: seq<real>, high: real, low: real)
    requires forall k :: 0 <= k < |s| ==> low <= s[k] <= high
    ensures Gaps(s, high, low) >= 0.0
    decreases |s|
  {
    hide Times;
    if s != [] {
      GapsNonNegative(s[..|s| - 1], high, low);
      NonNegative(high - s[|s| - 1], s[|s| - 1] - low);
    }
  }

  // ---------------------------------------------------------------- the summary of a run

  /** Samples of a run: no more than a vector can hold. */
  type Samples = s: seq<real> | |s| < 0x1_0000_0000_0000_0000 witness []

  const NO_SAMPLES := Distribution(0, 0.0, 0.0, 0.0, 0.0, 0.0, 0.0, 0.0, 0.0)

  function Mean(s: seq<real>): real
    requires s != []
  {
    Sum(s) / |s| as real
  }

  function Variance(s: seq<real>): real
    requires s != []
  {
    Deviations(s, Mean(s)) / |s| as real
  }

  /** What a run is summarised to; `root` is the library's square root. */
  function Summary(values: Samples, root: real -> real): Distribution {
    SortSorted(values);
    var s := Sort(values);
    if s == [] then NO_SAMPLES
    else Distribution(
      |s|, Mean(s), s[0], Percentile(s, 0.5), Percentile(s, 0.9), Percentile(s, 0.95), Percentile(s, 0.99),
      s[|s| - 1], root(Variance(s)))
  }

  method Summarize(values: Samples, root: real -> real) returns (d: Distribution)
    ensures d == Summary(values, root)
  {
    hide Times, Percentile, Sorted, Sort, Sum, Deviations;
    SortSorted(values);
    if values == [] {
      return NO_SAMPLES;
    }
    var s := Sort(values);
    var n := |s| as real;
    var mean := Sum(s) / n;
    var variance := 0.0;
    NoDeviations(mean);
    for i := 0 to |s|
      invariant variance == Deviations(s[..i], mean)
    {
      var delta := s[i] - mean;
      variance := variance + Times(delta, delta);
      OneDeviation(s, i, mean);
    }
    assert s[..|s|] == s;
    d := Distribution(
      |s|, mean, s[0], Percentile(s, 0.5), Percentile(s, 0.9), Percentile(s, 0.95), Percentile(s, 0.99),
      s[|s| - 1], root(variance / n));
  }

  lemma NoDeviations(c: real)
    ensures forall s: seq<real> :: Deviations(s[..0], c) == 0.0
  {
  }

  lemma OneDeviation(s: seq<real>, i: nat, c: real)
    requires i < |s|
    ensures Deviations(s[..i + 1], c) == Deviations(s[..i], c) + Times(s[i] - c, s[i] - c)
  {
    hide Times;
    assert s[..i + 1][..i] == s[..i];
  }

  /** The summary does not depend on the order of the samples. */
  lemma SummaryPermutation(a: Samples, b: Samples, root: real -> real)
    requires multiset(a) == multiset(b)
    ensures Summary(a, root) == Summary(b, root)
  {
    SortPermutation(a, b);
  }

  /** The plain statistics, over any ordering of the samples. */
  lemma SummaryPlain(values: Samples, s: seq<real>, root: real -> real)
    requires values != [] && Sorted(s) && multiset(s) == multiset(values)
    ensures var d := Summary(values, root);
      && d.samples == |values| == |s|
      && d.min == s[0] && d.max == s[|s| - 1]
      && Times(|values| as real, d.mean) == Sum(values)
  {
    hide Percentile, Variance, Sort, Sorted, Mean, Times;
    SortSorted(values);
    SortedUnique(Sort(values), s);
    MeanProduct(s);
    SortSum(values);
    assert |s| == |multiset(s)| == |values|;
  }

  /**
   The percentiles of a run, over any ordering of its samples: whichever of 0.5, 0.9, 0.95 and 0.99 falls
   between the ranks `k` and `k + 1`, at the distance `w` from the first, shows that mixture of the two.
   */
  lemma SummaryPercentiles(values: Samples, s: seq<real>, root: real -> real, k: nat, w: real)
    requires Sorted(s) && multiset(s) == multiset(values) && k + 1 < |s| && 0.0 <= w <= 1.0
    ensures var d, last, x := Summary(values, root), (|s| - 1) as real, s[k] * (1.0 - w) + s[k + 1] * w;
      && (0.5 * last == k as real + w ==> d.p50 == x)
      && (0.9 * last == k as real + w ==> d.p90 == x)
      && (0.95 * last == k as real + w ==> d.p95 == x)
      && (0.99 * last == k as real + w ==> d.p99 == x)
  {
    hide Percentile, Variance, Sort, Sorted, Mean;
    SortSorted(values);
    SortedUnique(Sort(values), s);
    var last := (|s| - 1) as real;
    if 0.5 * last == k as real + w {
      PercentileExact(s, 0.5, k, w);
    }
    if 0.9 * last == k as real + w {
      PercentileExact(s, 0.9, k, w);
    }
    if 0.95 * last == k as real + w {
      PercentileExact(s, 0.95, k, w);
    }
    if 0.99 * last == k as real + w {
      PercentileExact(s, 0.99, k, w);
    }
  }

  /** The statistics of a run are in order. */
  lemma SummaryOrdered(values: Samples, root: real -> real)
    ensures var d := Summary(values, root); d.min <= d.p50 <= d.p90 <= d.p95 <= d.p99 <= d.max
    ensures var d := Summary(values, root); d.min <= d.mean <= d.max
  {
    hide Percentile, Mean, Sort, Sorted;
    SortSorted(values);
    var s := Sort(values);
    if s != [] {
      PercentilesOrdered(s);
      MeanBetween(s);
    }
  }

  lemma PercentilesOrdered(s: seq<real>)
    requires Sorted(s) && s != []
    ensures s[0] <= Percentile(s, 0.5) <= Percentile(s, 0.9) <= Percentile(s, 0.95) <= Percentile(s, 0.99)
    ensures Percentile(s, 0.99) <= s[|s| - 1]
  {
    hide Percentile, Position;
    PercentileBounds(s, 0.5);
    PercentileBounds(s, 0.99);
    PercentileMonotone(s, 0.5, 0.9);
    PercentileMonotone(s, 0.9, 0.95);
    PercentileMonotone(s, 0.95, 0.99);
  }

  lemma MeanBetween(s: seq<real>)
    requires Sorted(s) && s != []
    ensures s[0] <= Mean(s) <= s[|s| - 1]
  {
    hide Times, Sorted;
    SortedEnds(s);
    SumBounds(s, s[0], s[|s| - 1]);
    DivideBounds(|s| as real, s[0], s[|s| - 1], Sum(s));
  }

  lemma DivideBounds(n: real, low: real, high: real, sum: real)
    requires n > 0.0 && Times(n, low) <= sum <= Times(n, high)
    ensures low <= sum / n <= high
  {
    hide Times;
    Quotient(sum, n);
    Difference(n, sum / n, low);
    Difference(n, high, sum / n);
    NegativeProduct(n, sum / n - low);
    NegativeProduct(n, high - sum / n);
  }

  lemma Quotient(a: real, n: real)
    requires n > 0.0
    ensures Times(n, a / n) == a
  {
  }

  lemma Difference(n: real, a: real, b: real)
    ensures Times(n, a - b) == Times(n, a) - Times(n, b)
  {
  }

  lemma NegativeProduct(n: real, a: real)
    requires n > 0.0
    ensures a < 0.0 ==> Times(n, a) < 0.0
  {
  }

  lemma {:induction false} DeviationsNonNegative(s: seq<real>, c: real)
    ensures Deviations(s, c) >= 0.0
    decreases |s|
  {
    hide Times;
    if s != [] {
      DeviationsNonNegative(s[..|s| - 1], c);
      SquareNonNegative(s[|s| - 1] - c);
    }
  }

  lemma SquareNonNegative(x: real)
    ensures Times(x, x) >= 0.0
  {
  }

  lemma Exchange(n: real, a: real, m: real)
    ensures Times(a, Times(n, m)) == Times(n, Times(a, m))
  {
  }

  /** The variance identity: `n` times the variance is the sum of squares less `n` squared means. */
  lemma VarianceIdentity(s: seq<real>)
    requires s != []
    ensures Times(|s| as real, Variance(s)) == SumSquares(s) - Times(|s| as real, Times(Mean(s), Mean(s)))
    ensures Variance(s) >= 0.0
  {
    hide Times;
    var n, m := |s| as real, Mean(s);
    Quotient(Sum(s), n);
    Quotient(Deviations(s, m), n);
    DeviationsExpand(s, m);
    Exchange(n, m, m);
    DeviationsNonNegative(s, m);
    NegativeProduct(n, Variance(s));
  }

  /** The variance is at most the product of the distances of the mean to the two ends. */
  lemma VarianceBound(s: seq<real>, low: real, high: real)
    requires s != [] && forall k :: 0 <= k < |s| ==> low <= s[k] <= high
    ensures Variance(s) <= Times(high - Mean(s), Mean(s) - low)
  {
    hide Times, Variance, Mean;
    var n, m := |s| as real, Mean(s);
    VarianceIdentity(s);
    MeanProduct(s);
    GapsExpand(s, high, low);
    GapsNonNegative(s, high, low);
    GapExpand(m, high, low);
    Exchange(n, high + low, m);
    var product := Times(high - m, m - low);
    Difference(n, Times(high + low, m) - Times(m, m), Times(high, low));
    Difference(n, Times(high + low, m), Times(m, m));
    Difference(n, product, Variance(s));
    NegativeProduct(n, product - Variance(s));
  }

  lemma MeanProduct(s: seq<real>)
    requires s != []
    ensures Times(|s| as real, Mean(s)) == Sum(s)
  {
    Quotient(Sum(s), |s| as real);
  }

  lemma SortedEnds(s: seq<real>)
    requires Sorted(s) && s != []
    ensures forall k :: 0 <= k < |s| ==> s[0] <= s[k] <= s[|s| - 1]
  {
  }

  /** The same for a run: the identity over the unsorted samples, the bound by its own minimum and maximum. */
  lemma SummarySpread(values: Samples, root: real -> real)
    requires values != []
    ensures var d, v := Summary(values, root), Variance(Sort(values));
      && d.stddev == root(v)
      && Times(|values| as real, v) == SumSquares(values) - Times(|values| as real, Times(d.mean, d.mean))
      && 0.0 <= v <= Times(d.max - d.mean, d.mean - d.min)
  {
    hide Times, Variance, Percentile, Sorted, Sort, Mean;
    SortSorted(values);
    var s := Sort(values);
    SortSquares(values);
    VarianceIdentity(s);
    SortedEnds(s);
    VarianceBound(s, s[0], s[|s| - 1]);
  }

  // ---------------------------------------------------------------- domination

  /** `y` is at most `a * x + b`. */
  predicate Within(y: real, x: real, a: real, b: real) {
    y <= Times(a, x) + b
  }

  ghost predicate Dominated(y: seq<real>, x: seq<real>, a: real, b: real) {
    |y| == |x| && forall i :: 0 <= i < |x| ==> Within(y[i], x[i], a, b)
  }

  /** Samples that exceed the image of a threshold have partners that exceed the threshold. */
  lemma {:induction false} DominatedCount(y: seq<real>, x: seq<real>, a: real, b: real, t: real)
    requires Dominated(y, x, a, b) && a >= 0.0
    ensures CountAbove(y, Times(a, t) + b) <= CountAbove(x, t)
    decreases |x|
  {
    hide Times;
    if x != [] {
      assert Within(y[0], x[0], a, b);
      assert forall i :: 0 <= i < |x[1..]| ==> Within(y[1..][i], x[1..][i], a, b) by {
        assert forall i :: 0 <= i < |x[1..]| ==> y[1..][i] == y[i + 1] && x[1..][i] == x[i + 1];
      }
      if x[0] <= t {
        Ordered(x[0], t, a);
      }
      DominatedCount(y[1..], x[1..], a, b, t);
    }
  }

  lemma RankDominated(y: seq<real>, x: seq<real>, a: real, b: real, k: nat)
    requires Dominated(y, x, a, b) && a >= 0.0 && k < |Sort(x)| == |Sort(y)| == |x|
    requires Sorted(Sort(x)) && Sorted(Sort(y))
    ensures Sort(y)[k] <= Times(a, Sort(x)[k]) + b
  {
    hide Times, Sort, Sorted, Dominated, CountAbove;
    var t := Sort(x)[k];
    var image := Times(a, t) + b;
    RankExact(Sort(x), k, t);
    SortCount(x, t);
    DominatedCount(y, x, a, b, t);
    SortCount(y, image);
    RankExact(Sort(y), k, image);
    SameLength(y, x, a, b);
  }

  lemma SameLength(y: seq<real>, x: seq<real>, a: real, b: real)
    requires Dominated(y, x, a, b)
    ensures |y| == |x|
  {
  }

  /** Sorting preserves domination, whatever the pairing was. */
  lemma SortDominated(y: seq<real>, x: seq<real>, a: real, b: real)
    requires Dominated(y, x, a, b) && a >= 0.0
    ensures Dominated(Sort(y), Sort(x), a, b)
  {
    hide Times, Sort, Sorted;
    SortSorted(x);
    SortSorted(y);
    forall k | 0 <= k < |x|
      ensures Within(Sort(y)[k], Sort(x)[k], a, b)
    {
      RankDominated(y, x, a, b, k);
    }
  }

  /** Interpolation preserves domination. */
  lemma PercentileDominated(y: seq<real>, x: seq<real>, a: real, b: real, p: real)
    requires Dominated(y, x, a, b) && x != []
    ensures Within(Percentile(y, p), Percentile(x, p), a, b)
  {
    hide Times, Position;
    PositionBounds(|x|, p);
    var q := Position(|x|, p);
    var l, u, w := q.Floor, Ceil(q), q - q.Floor as real;
    BetweenDominated(y[l], y[u], x[l], x[u], a, b, w);
  }

  lemma BetweenDominated(yl: real, yu: real, xl: real, xu: real, a: real, b: real, w: real)
    requires Within(yl, xl, a, b) && Within(yu, xu, a, b) && 0.0 <= w <= 1.0
    ensures Within(Between(yl, yu, w), Between(xl, xu, w), a, b)
  {
    hide Times;
    Blend(yl, yu, w);
    Ordered(yl, Times(a, xl) + b, 1.0 - w);
    Ordered(yu, Times(a, xu) + b, w);
    BlendImage(xl, xu, a, b, w);
  }

  lemma Blend(c: real, d: real, w: real)
    ensures Between(c, d, w) == Times(c, 1.0 - w) + Times(d, w)
  {
  }

  lemma BlendImage(xl: real, xu: real, a: real, b: real, w: real)
    ensures Times(Times(a, xl) + b, 1.0 - w) + Times(Times(a, xu) + b, w) == Times(a, Between(xl, xu, w)) + b
  {
    hide Times, Between;
    Blend(xl, xu, w);
    Spread(Times(a, xl), b, 1.0 - w);
    Spread(Times(a, xu), b, w);
    Reassociate(a, xl, 1.0 - w);
    Reassociate(a, xu, w);
    Distribute(a, Times(xl, 1.0 - w), Times(xu, w));
    Whole(b, w);
  }

  lemma Spread(c: real, d: real, w: real)
    ensures Times(c + d, w) == Times(c, w) + Times(d, w)
  {
  }

  lemma Reassociate(a: real, c: real, w: real)
    ensures Times(Times(a, c), w) == Times(a, Times(c, w))
  {
  }

  lemma Whole(b: real, w: real)
    ensures Times(b, 1.0 - w) + Times(b, w) == b
  {
  }

  lemma {:induction false} SumDominated(y: seq<real>, x: seq<real>, a: real, b: real)
    requires Dominated(y, x, a, b)
    ensures Sum(y) <= Times(a, Sum(x)) + Times(|x| as real, b)
    decreases |x|
  {
    hide Times;
    if x == [] {
      NoProduct(a);
      NoProduct(b);
    } else {
      var last := |x| - 1;
      assert Within(y[last], x[last], a, b);
      SumDominated(y[..last], x[..last], a, b);
      Distribute(a, Sum(x[..last]), x[last]);
      OneMoreHidden(last as real, b);
    }
  }

  lemma MeanDominated(y: seq<real>, x: seq<real>, a: real, b: real)
    requires Dominated(y, x, a, b) && x != []
    ensures Within(Mean(y), Mean(x), a, b)
  {
    hide Times, Mean;
    var n := |x| as real;
    SumDominated(y, x, a, b);
    MeanProduct(x);
    MeanProduct(y);
    Exchange(n, a, Mean(x));
    Distribute(n, Times(a, Mean(x)), b);
    Difference(n, Times(a, Mean(x)) + b, Mean(y));
    NegativeProduct(n, Times(a, Mean(x)) + b - Mean(y));
  }

  /**
   A run that can be paired with a baseline run so that no sample exceeds `a` times its partner plus
   `b` is within the same bounds in every statistic but the minimum and the deviation.
   */
  lemma SummaryDominated(y: Samples, x: Samples, paired: Samples, a: real, b: real, root: real -> real)
    requires multiset(paired) == multiset(x) && Dominated(y, paired, a, b) && a >= 0.0 && (b >= 0.0 || paired != [])
    ensures var c, d := Summary(y, root), Summary(x, root);
      && Within(c.mean, d.mean, a, b)
      && Within(c.p50, d.p50, a, b)
      && Within(c.p90, d.p90, a, b)
      && Within(c.p95, d.p95, a, b)
      && Within(c.p99, d.p99, a, b)
      && Within(c.max, d.max, a, b)
  {
    hide Times, Percentile, Mean, Sort, Variance, Within;
    SummaryPermutation(paired, x, root);
    SortDominated(y, paired, a, b);
    SortSorted(paired);
    SortSorted(y);
    var sy, sx := Sort(y), Sort(paired);
    if sx == [] {
      NothingDominated(a, b);
    } else {
      MeanDominated(sy, sx, a, b);
      PercentileDominated(sy, sx, a, b, 0.5);
      PercentileDominated(sy, sx, a, b, 0.9);
      PercentileDominated(sy, sx, a, b, 0.95);
      PercentileDominated(sy, sx, a, b, 0.99);
    }
  }

  lemma NothingDominated(a: real, b: real)
    requires b >= 0.0
    ensures Within(0.0, 0.0, a, b)
  {
  }

  // ---------------------------------------------------------------- excess

  /** `y` exceeds `a * x + b`. */
  predicate Exceeding(y: real, x: real, a: real, b: real) {
    y > Times(a, x) + b
  }

  /** What holds of finitely many samples strictly holds with something to spare. */
  lemma {:induction false} Margin(y: seq<real>, x: seq<real>, a: real, b: real) returns (c: real)
    requires |y| == |x| && forall i :: 0 <= i < |x| ==> Exceeding(y[i], x[i], a, b)
    ensures c > b && forall i :: 0 <= i < |x| ==> y[i] >= Times(a, x[i]) + c
    decreases |x|
  {
    hide Times;
    if x == [] {
      return b + 1.0;
    }
    var n := |x| - 1;
    var d := Margin(y[..n], x[..n], a, b);
    var e := y[n] - Times(a, x[n]);
    assert Exceeding(y[n], x[n], a, b);
    c := if d < e then d else e;
    forall i | 0 <= i < |x|
      ensures y[i] >= Times(a, x[i]) + c
    {
      if i < n {
        assert y[..n][i] == y[i] && x[..n][i] == x[i];
      }
    }
  }

  lemma Inverted(y: real, x: real, a: real, c: real)
    requires a > 0.0
    ensures y >= Times(a, x) + c <==> Within(x, y, 1.0 / a, -c / a)
  {
    hide Times;
    var z := Times(1.0 / a, y) - c / a;
    Scaled(y, a, c);
    Difference(a, z, x);
    NegativeProduct(a, z - x);
    if z - x >= 0.0 {
      NonNegative(a, z - x);
    }
  }

  lemma Scaled(y: real, a: real, c: real)
    requires a > 0.0
    ensures Times(a, Times(1.0 / a, y) - c / a) == y - c
    ensures -c / a == -(c / a)
  {
  }

  /** A run all of whose samples exceed the image of their partners exceeds it in the statistics as well. */
  lemma SummaryExceeds(y: Samples, x: Samples, paired: Samples, a: real, b: real, root: real -> real)
    returns (c: real)
    requires multiset(paired) == multiset(x) && |y| == |paired| && x != [] && a > 0.0
    requires forall i :: 0 <= i < |y| ==> Exceeding(y[i], paired[i], a, b)
    ensures c > b
    ensures var d, e := Summary(y, root), Summary(x, root);
      && d.mean >= Times(a, e.mean) + c
      && d.p50 >= Times(a, e.p50) + c
      && d.p90 >= Times(a, e.p90) + c
      && d.p95 >= Times(a, e.p95) + c
      && d.p99 >= Times(a, e.p99) + c
      && d.max >= Times(a, e.max) + c
  {
    hide Times, Summary, Within, Exceeding;
    c := Margin(y, paired, a, b);
    assert Dominated(paired, y, 1.0 / a, -c / a) by {
      forall i | 0 <= i < |y|
        ensures Within(paired[i], y[i], 1.0 / a, -c / a)
      {
        Inverted(y[i], paired[i], a, c);
      }
    }
    assert |paired| == |multiset(paired)| == |multiset(x)| == |x|;
    SummaryDominated(paired, y, y, 1.0 / a, -c / a, root);
    SummaryPermutation(paired, x, root);
    var d, e := Summary(y, root), Summary(x, root);
    Inverted(d.mean, e.mean, a, c);
    Inverted(d.p50, e.p50, a, c);
    Inverted(d.p90, e.p90, a, c);
    Inverted(d.p95, e.p95, a, c);
    Inverted(d.p99, e.p99, a, c);
    Inverted(d.max, e.max, a, c);
  }
}
