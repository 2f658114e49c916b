/** Percentiles by linear interpolation (performance.py), over reals, and the copies that
    take the rank on a scale of 0 to 100 (production_adapters.py, app_runtime.py). */
module Percentile {
  import opened Sequences

  predicate AtMost(x: real, y: real) {
    x <= y
  }

  lemma AtMostOrder()
    ensures TotalPreorder(AtMost) && Antisymmetric(AtMost)
  {
  }

  function Interpolate(x: real, y: real, weight: real): real {
    x * (1.0 - weight) + y * weight
  }

  /** The value at a fractional index of a sorted list: `int(index)` truncates. */
  function ValueAt(ordered: seq<real>, index: real): real
    requires ordered != [] && 0.0 <= index <= (|ordered| - 1) as real
  {
    var lower := index.Floor;
    var upper := if lower + 1 < |ordered| - 1 then lower + 1 else |ordered| - 1;
    Interpolate(ordered[lower], ordered[upper], index - lower as real)
  }

  lemma ProductNonNegative(x: real, y: real)
    requires x >= 0.0 && y >= 0.0
    ensures x * y >= 0.0
  {
  }

  lemma ProductMonotone(x: real, y: real, z: real)
    requires x >= 0.0 && y <= z
    ensures x * y <= x * z
  {
    ProductNonNegative(x, z - y);
    assert x * (z - y) == x * z - x * y;
  }

  lemma IndexInRange(top: real, rank: real)
    requires top >= 0.0 && 0.0 <= rank <= 1.0
    ensures 0.0 <= top * rank <= top
  {
    ProductMonotone(top, 0.0, rank);
    ProductMonotone(top, rank, 1.0);
  }

  /** `(n - 1) * rank`. */
  function Index(top: real, rank: real): (index: real)
    requires top >= 0.0 && 0.0 <= rank <= 1.0
    ensures 0.0 <= index <= top
  {
    IndexInRange(top, rank);
    top * rank
  }

  lemma IndexMonotone(top: real, r: real, s: real)
    requires top >= 0.0 && 0.0 <= r <= s <= 1.0
    ensures Index(top, r) <= Index(top, s)
  {
    var x, y := Index(top, r), Index(top, s);
    assert x == top * r && y == top * s;
    assert y - x == top * (s - r);
    ProductNonNegative(top, s - r);
  }

  /** `(n - 1) * rank / 100`. */
  function IndexOutOf100(top: real, rank: real): (index: real)
    requires top >= 0.0 && 0.0 <= rank <= 100.0
    ensures index == Index(top, rank / 100.0)
  {
    top * rank / 100.0
  }

  /** `percentile`, with the rank between 0 and 1. */
  function Percentile(values: seq<real>, rank: real): real
    requires 0.0 <= rank <= 1.0
  {
    if values == [] then 0.0
    else
      var ordered := Sort(AtMost, values);
      SortMembers(AtMost, values);
      if |ordered| == 1 then ordered[0] else ValueAt(ordered, Index((|ordered| - 1) as real, rank))
  }

  /** The copies in production_adapters.py and app_runtime.py: the rank is out of 100. */
  function PercentileOutOf100(samples: seq<real>, rank: real): real
    requires 0.0 <= rank <= 100.0
  {
    if samples == [] then 0.0
    else
      var ordered := Sort(AtMost, samples);
      SortMembers(AtMost, samples);
      if |ordered| == 1 then ordered[0] else ValueAt(ordered, IndexOutOf100((|ordered| - 1) as real, rank))
  }

  // ---------- interpolation ----------

  lemma InterpolateBetween(x: real, y: real, weight: real)
    requires x <= y && 0.0 <= weight <= 1.0
    ensures x <= Interpolate(x, y, weight) <= y
  {
    ProductNonNegative(y - x, weight);
    ProductNonNegative(y - x, 1.0 - weight);
    assert Interpolate(x, y, weight) == x + (y - x) * weight;
    assert Interpolate(x, y, weight) == y - (y - x) * (1.0 - weight);
  }

  lemma InterpolateMonotone(x: real, y: real, w: real, v: real)
    requires x <= y && w <= v
    ensures Interpolate(x, y, w) <= Interpolate(x, y, v)
  {
    ProductNonNegative(y - x, v - w);
    assert Interpolate(x, y, v) == Interpolate(x, y, w) + (y - x) * (v - w);
  }

  lemma ValueBounds(ordered: seq<real>, index: real)
    requires SortedBy(AtMost, ordered) && ordered != [] && 0.0 <= index <= (|ordered| - 1) as real
    ensures var lower := index.Floor;
            var upper := if lower + 1 < |ordered| - 1 then lower + 1 else |ordered| - 1;
            ordered[lower] <= ValueAt(ordered, index) <= ordered[upper]
  {
    var lower := index.Floor;
    var upper := if lower + 1 < |ordered| - 1 then lower + 1 else |ordered| - 1;
    assert lower < upper ==> AtMost(ordered[lower], ordered[upper]);
    InterpolateBetween(ordered[lower], ordered[upper], index - lower as real);
  }

  /** The value grows with the index, within a segment and across segments. */
  lemma ValueMonotone(ordered: seq<real>, i: real, j: real)
    requires SortedBy(AtMost, ordered) && ordered != [] && 0.0 <= i <= j <= (|ordered| - 1) as real
    ensures ValueAt(ordered, i) <= ValueAt(ordered, j)
  {
    var li, lj := i.Floor, j.Floor;
    assert li <= lj;
    if li == lj {
      var upper := if li + 1 < |ordered| - 1 then li + 1 else |ordered| - 1;
      assert li < upper ==> AtMost(ordered[li], ordered[upper]);
      InterpolateMonotone(ordered[li], ordered[upper], i - li as real, j - li as real);
    } else {
      ValueBounds(ordered, i);
      ValueBounds(ordered, j);
      assert li + 1 < lj ==> AtMost(ordered[li + 1], ordered[lj]);
    }
  }

  // ---------- percentiles ----------

  ghost predicate Within(x: real, values: seq<real>) {
    (exists v :: v in values && v <= x) && (exists v :: v in values && x <= v)
  }

  lemma OrderedSamples(values: seq<real>)
    ensures SortedBy(AtMost, Sort(AtMost, values))
    ensures |Sort(AtMost, values)| == |values|
    ensures forall v :: v in Sort(AtMost, values) <==> v in values
  {
    AtMostOrder();
    SortSorted(AtMost, values);
    SortMembers(AtMost, values);
  }

  /** A percentile lies between the least and the greatest sample. */
  lemma PercentileWithinSamples(values: seq<real>, rank: real)
    requires values != [] && 0.0 <= rank <= 1.0
    ensures Within(Percentile(values, rank), values)
  {
    var ordered := Sort(AtMost, values);
    OrderedSamples(values);
    assert ordered[0] in ordered;
    if |ordered| > 1 {
      ValueWithin(ordered, Index((|ordered| - 1) as real, rank));
    }
  }

  lemma ValueWithin(ordered: seq<real>, index: real)
    requires SortedBy(AtMost, ordered) && ordered != [] && 0.0 <= index <= (|ordered| - 1) as real
    ensures Within(ValueAt(ordered, index), ordered)
  {
    ValueBounds(ordered, index);
    var lower := index.Floor;
    var upper := if lower + 1 < |ordered| - 1 then lower + 1 else |ordered| - 1;
    assert ordered[lower] in ordered && ordered[upper] in ordered;
  }

  /** A higher rank never gives a lower value, so p95 <= p99 on the same samples. */
  lemma PercentileMonotone(values: seq<real>, r: real, s: real)
    requires 0.0 <= r <= s <= 1.0
    ensures Percentile(values, r) <= Percentile(values, s)
  {
    var ordered := Sort(AtMost, values);
    OrderedSamples(values);
    if |ordered| > 1 {
      var top := (|ordered| - 1) as real;
      IndexMonotone(top, r, s);
      ValueMonotone(ordered, Index(top, r), Index(top, s));
    }
  }

  /** The order of the samples does not matter. */
  lemma PercentileIgnoresOrder(values: seq<real>, permuted: seq<real>, rank: real)
    requires multiset(values) == multiset(permuted) && 0.0 <= rank <= 1.0
    ensures Percentile(values, rank) == Percentile(permuted, rank)
  {
    SameOrdered(values, permuted);
    assert |values| == |multiset(values)| == |multiset(permuted)| == |permuted|;
  }

  lemma SameOrdered(values: seq<real>, permuted: seq<real>)
    requires multiset(values) == multiset(permuted)
    ensures Sort(AtMost, values) == Sort(AtMost, permuted)
  {
    AtMostOrder();
    OrderedSamples(values);
    OrderedSamples(permuted);
    SortMultiset(AtMost, values);
    SortMultiset(AtMost, permuted);
    SortedUnique(AtMost, Sort(AtMost, values), Sort(AtMost, permuted));
  }

  /** The copies agree with the original at a hundred times the rank. */
  lemma CopiesAgree(values: seq<real>, rank: real)
    requires 0.0 <= rank <= 1.0
    ensures PercentileOutOf100(values, rank * 100.0) == Percentile(values, rank)
  {
    assert rank * 100.0 / 100.0 == rank;
  }

  lemma ValueAtSample(ordered: seq<real>, k: nat)
    requires k < |ordered|
    ensures ValueAt(ordered, k as real) == ordered[k]
  {
    assert (k as real).Floor == k;
    assert forall y: real :: Interpolate(ordered[k], y, 0.0) == ordered[k];
  }

  lemma RankOfSample(top: real, k: real)
    requires 0.0 <= k <= top && 0.0 < top
    ensures 0.0 <= k / top <= 1.0 && Index(top, k / top) == k
  {
    var rank := k / top;
    assert rank * top == k;
    assert top * (rank - 1.0) == k - top;
    if rank > 1.0 {
      ProductNonNegative(top, rank - 1.0);
    }
  }

  /** The rank k / (n - 1) gives the k-th sample in order. */
  lemma PercentileAtSample(values: seq<real>, k: nat)
    requires 1 < |values| && k < |values|
    ensures var ordered, rank := Sort(AtMost, values), k as real / (|values| - 1) as real;
            |ordered| == |values| && 0.0 <= rank <= 1.0 && Percentile(values, rank) == ordered[k]
  {
    OrderedSamples(values);
    RankOfSample((|values| - 1) as real, k as real);
    ValueAtSample(Sort(AtMost, values), k);
  }

  lemma InterpolateMeans(x: real, y: real, w: real)
    ensures Interpolate(x, y, w) == x + (y - x) * w
  {
  }

  lemma {:induction false} ValueBetween(ordered: seq<real>, k: nat, w: real)
    requires k + 1 < |ordered| && 0.0 <= w < 1.0
    ensures ValueAt(ordered, k as real + w) == ordered[k] + (ordered[k + 1] - ordered[k]) * w
  {
    assert (k as real + w).Floor == k;
    InterpolateMeans(ordered[k], ordered[k + 1], w);
  }

  /** Between two neighbouring samples the value moves in a straight line. */
  lemma {:induction false} PercentileBetweenSamples(values: seq<real>, k: nat, w: real)
    requires k + 1 < |values| && 0.0 <= w < 1.0
    ensures var ordered, rank := Sort(AtMost, values), (k as real + w) / (|values| - 1) as real;
            |ordered| == |values| && 0.0 <= rank <= 1.0
            && Percentile(values, rank) == ordered[k] + (ordered[k + 1] - ordered[k]) * w
  {
    OrderedSamples(values);
    RankOfSample((|values| - 1) as real, k as real + w);
    ValueBetween(Sort(AtMost, values), k, w);
  }

  /** Without samples it is 0, and of one sample it is that. */
  lemma FewSamples(x: real, rank: real)
    requires 0.0 <= rank <= 1.0
    ensures Percentile([], rank) == 0.0 && Percentile([x], rank) == x
  {
    OrderedSamples([x]);
    assert Sort(AtMost, [x])[0] in [x];
  }

  /** The samples are taken in ascending order. */
  lemma SamplesAscend(values: seq<real>, i: nat, j: nat)
    requires i <= j < |values|
    ensures |Sort(AtMost, values)| == |values| && Sort(AtMost, values)[i] <= Sort(AtMost, values)[j]
    ensures multiset(Sort(AtMost, values)) == multiset(values)
  {
    OrderedSamples(values);
    SortMultiset(AtMost, values);
    assert i < j ==> AtMost(Sort(AtMost, values)[i], Sort(AtMost, values)[j]);
  }

  /** Ranks 0 and 1 give the extreme samples. */
  lemma PercentileExtremes(values: seq<real>)
    requires values != []
    ensures Percentile(values, 0.0) in values && forall v :: v in values ==> Percentile(values, 0.0) <= v
    ensures Percentile(values, 1.0) in values && forall v :: v in values ==> v <= Percentile(values, 1.0)
  {
    var ordered := Sort(AtMost, values);
    OrderedSamples(values);
    var n := |ordered|;
    assert ordered[0] in ordered && ordered[n - 1] in ordered;
    if n > 1 {
      assert Index((n - 1) as real, 0.0) == 0.0 && Index((n - 1) as real, 1.0) == (n - 1) as real;
      assert Interpolate(ordered[0], ordered[1], 0.0) == ordered[0];
      assert Interpolate(ordered[n - 1], ordered[n - 1], 0.0) == ordered[n - 1];
      assert ValueAt(ordered, 0.0) == ordered[0];
      assert ValueAt(ordered, (n - 1) as real) == ordered[n - 1];
    }
    forall v | v in values
      ensures ordered[0] <= v <= ordered[n - 1]
    {
      var i :| 0 <= i < n && ordered[i] == v;
      assert i > 0 ==> AtMost(ordered[0], ordered[i]);
      assert i < n - 1 ==> AtMost(ordered[i], ordered[n - 1]);
    }
  }
}
