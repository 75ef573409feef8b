/**
 * The feature generators of the mental-health population (mhm/distributions.py).
 *
 * Every random source is a draw oracle:
 * - `pick(i)` is the raw value `np.random.shuffle` reduces to a position in `[0, i]`;
 * - `uniform(t)` is the t-th `random()` value of `random.choices` or `np.random.choice`;
 * - `element(t)` is the raw value `np.random.choice` reduces to a position in a group.
 */
module Distributions {
  import opened Wrappers
  import opened Errors

  // ---------------------------------------------------------------------------------------
  // The 0/1 generators: np.ones(n), the first int(n * percentage / 100) set to 0, shuffled.
  // ---------------------------------------------------------------------------------------

  /** Python's `int(x)` on a float: truncation toward zero. */
  function Trunc(x: real): int {
    if x >= 0.0 then x.Floor else -((-x).Floor)
  }

  /** Where the slice `[:k]` of a length-`n` array ends: a negative end counts from the back. */
  function SliceEnd(k: int, n: nat): (e: nat)
    ensures e <= n
  {
    if k >= 0 then (if k < n then k else n) else (if n + k > 0 then n + k else 0)
  }

  /** How many leading entries a 0/1 generator sets to 0. */
  function ZeroCount(n: nat, percentage: real): (z: nat)
    ensures z <= n
  {
    SliceEnd(Trunc((n as real * percentage) / 100.0), n)
  }

  /** For a percentage in [0, 100] the zeros are the floor of that share of `n`, never more than `n`. */
  lemma ZeroCountOfPercentage(n: nat, percentage: real)
    requires 0.0 <= percentage
    ensures var f := ((n as real * percentage) / 100.0).Floor;
            ZeroCount(n, percentage) == if f < n then f else n
    ensures percentage <= 100.0 ==> ZeroCount(n, percentage) == ((n as real * percentage) / 100.0).Floor
  {
    MulMonotone(n as real, 0.0, percentage);
    if percentage <= 100.0 {
      MulMonotone(n as real, percentage, 100.0);
      assert (n as real * percentage) / 100.0 <= n as real;
    }
  }

  /**
   * A negative percentage truncates to a slice end `-f`: no zeros when `f` is 0, otherwise
   * every entry but the last `f` becomes 0.
   */
  lemma ZeroCountOfNegativePercentage(n: nat, percentage: real)
    requires percentage < 0.0
    ensures var f := ((n as real * -percentage) / 100.0).Floor;
            ZeroCount(n, percentage) == if f == 0 || n <= f then 0 else n - f
  {
    var x := (n as real * percentage) / 100.0;
    assert -x == (n as real * -percentage) / 100.0;
    MulMonotone(n as real, percentage, 0.0);
  }

  lemma MulMonotone(c: real, x: real, y: real)
    requires 0.0 <= c && x <= y
    ensures c * x <= c * y
  {
    assert c * y - c * x == c * (y - x);
  }

  /** `np.ones(n)` with its first `zeros` entries set to 0. */
  function Filled(n: nat, zeros: nat): seq<int> {
    seq(n, i => if i < zeros then 0 else 1)
  }

  function Swap(s: seq<int>, i: nat, j: nat): (r: seq<int>)
    requires i < |s| && j < |s|
    ensures |r| == |s|
  {
    s[i := s[j]][j := s[i]]
  }

  /**
   * The Fisher-Yates passes of `np.random.shuffle` from position `i` down to 1: position `i`
   * is exchanged with position `pick(i) % (i + 1)`.
   */
  function ShuffleDown(s: seq<int>, i: int, pick: nat -> nat): (r: seq<int>)
    requires i < |s|
    ensures |r| == |s|
    decreases i
  {
    if i <= 0 then s else ShuffleDown(Swap(s, i, pick(i) % (i + 1)), i - 1, pick)
  }

  /** `np.random.shuffle` of a whole sequence. */
  function Shuffle(s: seq<int>, pick: nat -> nat): seq<int> {
    ShuffleDown(s, |s| - 1, pick)
  }

  /** An exchange keeps the elements and their multiplicities. */
  lemma SwapPermutes(s: seq<int>, i: nat, j: nat)
    requires i < |s| && j < |s|
    ensures multiset(Swap(s, i, j)) == multiset(s)
  {
    var t := s[i := s[j]];
    assert multiset(t) == multiset(s) - multiset{s[i]} + multiset{s[j]};
    assert multiset(t[j := s[i]]) == multiset(t) - multiset{t[j]} + multiset{s[i]};
  }

  /** The shuffle is a permutation. */
  lemma {:induction false} ShuffleDownPermutes(s: seq<int>, i: int, pick: nat -> nat)
    requires i < |s|
    ensures multiset(ShuffleDown(s, i, pick)) == multiset(s)
    decreases i
  {
    if i > 0 {
      var j := pick(i) % (i + 1);
      SwapPermutes(s, i, j);
      ShuffleDownPermutes(Swap(s, i, j), i - 1, pick);
    }
  }

  /** Ones with a prefix of zeros: exactly `min(n, zeros)` zeros and the rest ones. */
  lemma {:induction false} FilledMultiset(n: nat, zeros: nat)
    ensures var z := if zeros < n then zeros else n;
            multiset(Filled(n, zeros)) == multiset{}[0 := z][1 := n - z]
  {
    if n > 0 {
      FilledMultiset(n - 1, zeros);
      var last := if n - 1 < zeros then 0 else 1;
      assert Filled(n, zeros) == Filled(n - 1, zeros) + [last];
      assert multiset(Filled(n, zeros)) == multiset(Filled(n - 1, zeros)) + multiset{last};
    }
  }

  /** `np.random.shuffle` on an array: the array ends as the shuffle of what it held. */
  method ShuffleInPlace(a: array<int>, pick: nat -> nat)
    modifies a
    ensures a[..] == Shuffle(old(a[..]), pick)
  {
    ghost var s0 := a[..];
    var i := a.Length - 1;
    while i > 0
      invariant -1 <= i < a.Length
      invariant ShuffleDown(a[..], i, pick) == Shuffle(s0, pick)
      decreases i
    {
      var j := pick(i) % (i + 1);
      ghost var before := a[..];
      a[i], a[j] := a[j], a[i];
      assert a[..] == Swap(before, i, j);
      i := i - 1;
    }
  }

  /**
   * The body shared by the gender, depression, burnout, addiction, fatigue, child,
   * living-with-children and single-parent generators: an array of `n` ones, its slice
   * `[:int(n * percentage / 100)]` set to 0, shuffled in place, returned as integers.
   * A negative `n` is refused by `np.ones`.
   */
  method GenerateBinaryDistribution(n: int, percentage: real, pick: nat -> nat)
      returns (r: Result<seq<int>, Error>)
    ensures n < 0 ==> r == Err(ValueError(NegativeDimensions))
    ensures n >= 0 ==> r == Ok(Shuffle(Filled(n, ZeroCount(n, percentage)), pick))
  {
    if n < 0 {
      return Err(ValueError(NegativeDimensions));
    }
    var a := new int[n](_ => 1);
    var zeros := ZeroCount(n, percentage);
    for i := 0 to zeros
      invariant forall j :: 0 <= j < n ==> a[j] == if j < i then 0 else 1
    {
      a[i] := 0;
    }
    assert a[..] == Filled(n, zeros);
    ShuffleInPlace(a, pick);
    return Ok(a[..]);
  }

  /**
   * What a 0/1 generator returns: `n` values, each 0 or 1, with exactly `ZeroCount` zeros
   * and the rest ones, whatever the shuffle draws.
   */
  lemma BinaryDistributionCounts(n: nat, percentage: real, pick: nat -> nat)
    ensures var r := Shuffle(Filled(n, ZeroCount(n, percentage)), pick);
            && |r| == n
            && (forall i :: 0 <= i < |r| ==> r[i] == 0 || r[i] == 1)
            && multiset(r)[0] == ZeroCount(n, percentage)
            && multiset(r)[1] == n - ZeroCount(n, percentage)
  {
    var z := ZeroCount(n, percentage);
    ShuffleDownPermutes(Filled(n, z), n - 1, pick);
    FilledMultiset(n, z);
    ZerosAndOnes(Shuffle(Filled(n, z), pick), z, n - z);
  }

  /** A sequence whose multiset holds only zeros and ones holds only zeros and ones. */
  lemma ZerosAndOnes(r: seq<int>, zeros: nat, ones: nat)
    requires multiset(r) == multiset{}[0 := zeros][1 := ones]
    ensures |r| == zeros + ones
    ensures forall i :: 0 <= i < |r| ==> r[i] == 0 || r[i] == 1
  {
    forall i | 0 <= i < |r| ensures r[i] == 0 || r[i] == 1 {
      assert r[i] in multiset(r);
    }
    assert |multiset(r)| == zeros + ones;
  }

  // ---------------------------------------------------------------------------------------
  // Weighted choice: cumulative weights and a right bisection.
  // ---------------------------------------------------------------------------------------

  function Sum(w: seq<real>): real {
    if w == [] then 0.0 else Sum(w[..|w| - 1]) + w[|w| - 1]
  }

  /** `itertools.accumulate` and `numpy.cumsum`: the running totals. */
  function Cumulative(w: seq<real>): (c: seq<real>)
    ensures |c| == |w|
  {
    seq(|w|, i requires 0 <= i < |w| => Sum(w[..i + 1]))
  }

  predicate NonNegative(w: seq<real>) {
    forall i :: 0 <= i < |w| ==> 0.0 <= w[i]
  }

  predicate NonDecreasing(a: seq<real>) {
    forall i, j :: 0 <= i <= j < |a| ==> a[i] <= a[j]
  }

  /** Each running total adds the next weight; the last one is the sum. */
  lemma CumulativeStep(w: seq<real>, i: nat)
    requires i < |w|
    ensures Cumulative(w)[i] == (if i == 0 then 0.0 else Cumulative(w)[i - 1]) + w[i]
    ensures i == |w| - 1 ==> Cumulative(w)[i] == Sum(w)
  {
    var p := w[..i + 1];
    assert p[..|p| - 1] == w[..i];
    assert Cumulative(w)[i] == Sum(w[..i]) + w[i];
    if i > 0 {
      assert Cumulative(w)[i - 1] == Sum(w[..i]);
    }
    assert w[..|w|] == w;
  }

  /** Non-negative weights have non-decreasing running totals. */
  lemma {:induction false} CumulativeNonDecreasing(w: seq<real>)
    requires NonNegative(w)
    ensures NonDecreasing(Cumulative(w))
  {
    var c := Cumulative(w);
    forall i, j | 0 <= i <= j < |c| ensures c[i] <= c[j] {
      CumulativeMonotone(w, i, j);
    }
  }

  lemma {:induction false} CumulativeMonotone(w: seq<real>, i: nat, j: nat)
    requires NonNegative(w) && i <= j < |w|
    ensures Cumulative(w)[i] <= Cumulative(w)[j]
    decreases j - i
  {
    if i < j {
      CumulativeMonotone(w, i, j - 1);
      CumulativeStep(w, j);
    }
  }

  /**
   * `bisect.bisect_right(a, x, lo, hi)` as Python writes the binary search, whatever the order
   * of `a`; `numpy.searchsorted(..., side='right')` agrees with it on sorted input.
   */
  function BisectRight(a: seq<real>, x: real, lo: int, hi: int): (i: int)
    requires 0 <= lo <= hi <= |a|
    ensures lo <= i <= hi
    decreases hi - lo
  {
    if lo < hi then
      var mid := (lo + hi) / 2;
      if x < a[mid] then BisectRight(a, x, lo, mid) else BisectRight(a, x, mid + 1, hi)
    else lo
  }

  /** On sorted input the bisection is the insertion point after every entry at most `x`. */
  lemma {:induction false} BisectRightSorted(a: seq<real>, x: real, lo: int, hi: int)
    requires 0 <= lo <= hi <= |a| && NonDecreasing(a)
    ensures var i := BisectRight(a, x, lo, hi);
            && (forall j :: lo <= j < i ==> a[j] <= x)
            && (forall j :: i <= j < hi ==> x < a[j])
    decreases hi - lo
  {
    if lo < hi {
      var mid := (lo + hi) / 2;
      if x < a[mid] {
        BisectRightSorted(a, x, lo, mid);
      } else {
        BisectRightSorted(a, x, mid + 1, hi);
      }
    }
  }

  /** A point at or above the previous running total and below this one lands on a positive weight. */
  lemma WeightBelowPoint(w: seq<real>, i: nat, x: real)
    requires i < |w| && 0.0 <= x < Cumulative(w)[i]
    requires i == 0 || Cumulative(w)[i - 1] <= x
    ensures 0.0 < w[i]
  {
    CumulativeStep(w, i);
  }

  // ---------------------------------------------------------------------------------------
  // The categorical generators: random.choices over a dictionary's keys and values.
  // ---------------------------------------------------------------------------------------

  /** The option `random.choices` draws with the uniform value `u`: a bisection capped at the last option. */
  function ChoiceIndex(weights: seq<real>, u: real): (i: int)
    requires |weights| > 0
    ensures 0 <= i < |weights|
  {
    BisectRight(Cumulative(weights), Scale(u, Sum(weights)), 0, |weights| - 1)
  }

  /** The point `random() * total` that `random.choices` looks up among the running totals. */
  function Scale(u: real, total: real): real {
    u * total
  }

  /** `random.choices(options, weights, k=n)`. */
  function Choices(options: seq<string>, weights: seq<real>, n: int, uniform: nat -> real)
      : (r: Result<seq<string>, Error>)
    ensures |weights| != |options| ==> r == Err(ValueError(WeightsMismatch))
    ensures |weights| == |options| == 0 ==> r == Err(IndexError)
    ensures |weights| == |options| > 0 ==>
              (r.Err? <==> Sum(weights) <= 0.0) &&
              (r.Err? ==> r.error == ValueError(NonPositiveTotalWeight))
    ensures r.Ok? ==> |r.value| == (if n > 0 then n else 0)
    ensures r.Ok? ==> forall t :: 0 <= t < |r.value| ==> r.value[t] in options
  {
    if |weights| != |options| then Err(ValueError(WeightsMismatch))
    else if options == [] then Err(IndexError)
    else
      var cum := Cumulative(weights);
      CumulativeStep(weights, |weights| - 1);
      if cum[|cum| - 1] <= 0.0 then Err(ValueError(NonPositiveTotalWeight))
      else
        var drawn := seq(if n > 0 then n else 0, t requires 0 <= t => options[ChoiceIndex(weights, uniform(t))]);
        assert forall t :: 0 <= t < |drawn| ==> drawn[t] == options[ChoiceIndex(weights, uniform(t))];
        Ok(drawn)
  }

  /**
   * With non-negative weights and uniform values in [0, 1), every draw of `random.choices`
   * lands on an option of positive weight.
   */
  lemma ChoiceHasWeight(weights: seq<real>, u: real)
    requires |weights| > 0 && NonNegative(weights) && 0.0 < Sum(weights)
    requires 0.0 <= u < 1.0
    ensures 0.0 < weights[ChoiceIndex(weights, u)]
  {
    ScaledBelow(u, Sum(weights));
    PointHasWeight(weights, Scale(u, Sum(weights)));
  }

  /** A point in [0, total) found by the capped bisection of `random.choices` lies on a positive weight. */
  lemma PointHasWeight(weights: seq<real>, x: real)
    requires |weights| > 0 && NonNegative(weights)
    requires 0.0 <= x < Sum(weights)
    ensures 0.0 < weights[BisectRight(Cumulative(weights), x, 0, |weights| - 1)]
  {
    CumulativeStep(weights, |weights| - 1);
    CumulativeNonDecreasing(weights);
    BisectLandsOnStep(Cumulative(weights), x, |weights| - 1);
    WeightBelowPoint(weights, BisectRight(Cumulative(weights), x, 0, |weights| - 1), x);
  }

  /**
   * On sorted running totals, a bisection over `[0, hi)` for a point below `c[hi]` stops on the step
   * that holds the point: at or above the previous total and below its own.
   */
  lemma BisectLandsOnStep(c: seq<real>, x: real, hi: nat)
    requires hi < |c| && NonDecreasing(c) && x < c[hi]
    ensures var i := BisectRight(c, x, 0, hi); x < c[i] && (i == 0 || c[i - 1] <= x)
  {
    BisectRightSorted(c, x, 0, hi);
    var i := BisectRight(c, x, 0, hi);
    if i < hi {
      assert i <= i < hi;
    }
    if i > 0 {
      assert 0 <= i - 1 < i;
    }
  }

  /** A uniform value in [0, 1) scales a positive total to a point below it. */
  lemma ScaledBelow(u: real, total: real)
    requires 0.0 <= u < 1.0 && 0.0 < total
    ensures 0.0 <= Scale(u, total) < total
  {
    assert total - u * total == (1.0 - u) * total;
  }

  /** Every draw of `Choices` is the option at a positive weight. */
  lemma ChoicesFollowWeights(options: seq<string>, weights: seq<real>, n: int, uniform: nat -> real)
    requires |options| == |weights| && NonNegative(weights)
    requires forall t :: 0.0 <= uniform(t) < 1.0
    requires Choices(options, weights, n, uniform).Ok?
    ensures var r := Choices(options, weights, n, uniform).value;
            forall t :: 0 <= t < |r| ==>
              var i := ChoiceIndex(weights, uniform(t)); r[t] == options[i] && 0.0 < weights[i]
  {
    var r := Choices(options, weights, n, uniform).value;
    forall t | 0 <= t < |r|
      ensures var i := ChoiceIndex(weights, uniform(t)); r[t] == options[i] && 0.0 < weights[i]
    {
      ChoiceHasWeight(weights, uniform(t));
    }
  }

  // ---------------------------------------------------------------------------------------
  // The age generator: np.arange, np.array_split and two np.random.choice calls per person.
  // ---------------------------------------------------------------------------------------

  /** `np.arange(lo, hi)`. */
  function Arange(lo: int, hi: int): (s: seq<int>)
    ensures |s| == if lo < hi then hi - lo else 0
  {
    seq(if lo < hi then hi - lo else 0, i => lo + i)
  }

  lemma MulMonotoneNat(a: nat, b: nat, c: nat)
    requires a <= b
    ensures a * c <= b * c
  {
    assert b * c - a * c == (b - a) * c;
  }

  /** Where piece `g` of `np.array_split(values, k)` starts: the first `total % k` pieces are one longer. */
  function SplitStart(total: nat, k: nat, g: nat): (s: nat)
    requires 0 < k && g <= k
    ensures s <= total
  {
    MulMonotoneNat(g, k, total / k);
    g * (total / k) + (if g < total % k then g else total % k)
  }

  function SplitSize(total: nat, k: nat, g: nat): nat
    requires k > 0
  {
    total / k + (if g < total % k then 1 else 0)
  }

  /** Each piece ends where the next one starts, and the last one ends at the total. */
  lemma SplitBounds(total: nat, k: nat, g: nat)
    requires 0 < k && g < k
    ensures SplitStart(total, k, g) + SplitSize(total, k, g) == SplitStart(total, k, g + 1)
    ensures SplitStart(total, k, g + 1) <= SplitStart(total, k, k) == total
  {
    var q, e := total / k, total % k;
    assert (g + 1) * q == g * q + q;
    assert k * q + e == total;
  }

  /** `np.array_split(values, k)` for `k > 0`: `k` consecutive slices of `values`. */
  function ArraySplit(values: seq<int>, k: nat): (groups: seq<seq<int>>)
    requires k > 0
    ensures |groups| == k
  {
    seq(k, g requires 0 <= g < k =>
      SplitBounds(|values|, k, g);
      values[SplitStart(|values|, k, g)..SplitStart(|values|, k, g + 1)])
  }

  /** The pieces differ in size by at most 1, and exactly the first `|values| % k` are the longer ones. */
  lemma ArraySplitBalanced(values: seq<int>, k: nat)
    requires k > 0
    ensures var groups := ArraySplit(values, k);
            forall g :: 0 <= g < k ==>
              |groups[g]| == |values| / k + (if g < |values| % k then 1 else 0)
  {
    forall g | 0 <= g < k
      ensures |ArraySplit(values, k)[g]| == |values| / k + (if g < |values| % k then 1 else 0)
    {
      SplitBounds(|values|, k, g);
    }
  }

  function Flatten(groups: seq<seq<int>>): seq<int> {
    if groups == [] then [] else Flatten(groups[..|groups| - 1]) + groups[|groups| - 1]
  }

  /** The pieces, joined in order, give back the split sequence: they are contiguous and cover it. */
  lemma ArraySplitCovers(values: seq<int>, k: nat)
    requires k > 0
    ensures Flatten(ArraySplit(values, k)) == values
  {
    var groups := ArraySplit(values, k);
    SplitPrefix(values, k, k);
    assert groups[..k] == groups;
    assert values[..|values|] == values;
  }

  lemma {:induction false} SplitPrefix(values: seq<int>, k: nat, g: nat)
    requires 0 < k && g <= k
    ensures Flatten(ArraySplit(values, k)[..g]) == values[..SplitStart(|values|, k, g)]
  {
    var groups := ArraySplit(values, k);
    if g > 0 {
      SplitPrefix(values, k, g - 1);
      SplitBounds(|values|, k, g - 1);
      var a, b := SplitStart(|values|, k, g - 1), SplitStart(|values|, k, g);
      var front := groups[..g];
      assert front[..g - 1] == groups[..g - 1];
      assert front[g - 1] == values[a..b];
      assert Flatten(front) == Flatten(groups[..g - 1]) + values[a..b];
      assert values[..b] == values[..a] + values[a..b];
    }
  }

  /** Every member of every piece of a split `np.arange(lo, hi)` lies in `[lo, hi)`. */
  lemma ArraySplitInRange(lo: int, hi: int, k: nat, g: nat, j: nat)
    requires 0 < k && g < k
    requires j < |ArraySplit(Arange(lo, hi), k)[g]|
    ensures lo <= ArraySplit(Arange(lo, hi), k)[g][j] < hi
  {
    var values := Arange(lo, hi);
    SplitBounds(|values|, k, g);
    assert ArraySplit(values, k)[g][j] == values[SplitStart(|values|, k, g) + j];
  }

  /** The group `np.random.choice(range(k), p=prob)` selects with the uniform value `u`. */
  function GroupIndex(prob: seq<real>, u: real): (g: int)
    ensures 0 <= g <= |prob|
  {
    BisectRight(Cumulative(prob), u, 0, |prob|)
  }

  /** The checks `np.random.choice` makes on `p`, in its order. */
  function CheckProbabilities(prob: seq<real>, k: int): Option<Error> {
    if |prob| != k then Some(ValueError(ProbabilitiesMismatch))
    else if !NonNegative(prob) then Some(ValueError(NegativeProbabilities))
    else if Sum(prob) != 1.0 then Some(ValueError(ProbabilitiesDoNotSumToOne))
    else None
  }

  /** One person's age: a group by the uniform value `u`, then a member of it by `e`. */
  function PersonAge(groups: seq<seq<int>>, prob: seq<real>, u: real, e: nat): Result<int, Error> {
    var g := GroupIndex(prob, u);
    if g >= |groups| then Err(IndexError)
    else if groups[g] == [] then Err(ValueError(EmptyChoice))
    else Ok(groups[g][e % |groups[g]|])
  }

  /** The ages of the first `m` people, or the failure of the first person whose draw fails. */
  function AgesUpTo(groups: seq<seq<int>>, prob: seq<real>, uniform: nat -> real, element: nat -> nat, m: nat)
      : Result<seq<int>, Error>
  {
    if m == 0 then Ok([])
    else match AgesUpTo(groups, prob, uniform, element, m - 1)
      case Err(e) => Err(e)
      case Ok(ages) =>
        match PersonAge(groups, prob, uniform(m - 1), element(m - 1))
        case Err(e) => Err(e)
        case Ok(a) => Ok(ages + [a])
  }

  /**
   * `generate_age_distribution`: `array_split` refuses a non-positive number of groups before
   * anything else; the probability checks and the draws happen once per person, so nobody
   * means no check.
   */
  function AgeSpec(n: int, k: int, minAge: int, maxAge: int, prob: seq<real>,
                   uniform: nat -> real, element: nat -> nat): Result<seq<int>, Error>
  {
    if k <= 0 then Err(ValueError(NoSections))
    else if n <= 0 then Ok([])
    else if CheckProbabilities(prob, k).Some? then Err(CheckProbabilities(prob, k).value)
    else AgesUpTo(ArraySplit(Arange(minAge, maxAge), k), prob, uniform, element, n)
  }

  /** A failure among the first people is the failure of the whole population. */
  lemma {:induction false} AgesFailureSticks(groups: seq<seq<int>>, prob: seq<real>, uniform: nat -> real,
                                             element: nat -> nat, m: nat, m': nat)
    requires m <= m' && AgesUpTo(groups, prob, uniform, element, m).Err?
    ensures AgesUpTo(groups, prob, uniform, element, m') == AgesUpTo(groups, prob, uniform, element, m)
    decreases m' - m
  {
    if m < m' {
      AgesFailureSticks(groups, prob, uniform, element, m, m' - 1);
    }
  }

  /** One pass of the loop: a group index drawn with `p=prob`, then a member of that group. */
  method DrawAge(groups: seq<seq<int>>, prob: seq<real>, u: real, e: nat) returns (r: Result<int, Error>)
    ensures r == PersonAge(groups, prob, u, e)
  {
    var g := GroupIndex(prob, u);
    if g >= |groups| {
      return Err(IndexError);
    }
    if groups[g] == [] {
      return Err(ValueError(EmptyChoice));
    }
    return Ok(groups[g][e % |groups[g]|]);
  }

  /** The loop of `generate_age_distribution`, appending one age per person. */
  method GenerateAgeDistribution(n: int, k: int, minAge: int, maxAge: int, prob: seq<real>,
                                 uniform: nat -> real, element: nat -> nat)
      returns (r: Result<seq<int>, Error>)
    ensures r == AgeSpec(n, k, minAge, maxAge, prob, uniform, element)
  {
    if k <= 0 {
      return Err(ValueError(NoSections));
    }
    var groups := ArraySplit(Arange(minAge, maxAge), k);
    var ages: seq<int> := [];
    var count := if n > 0 then n else 0;
    for t := 0 to count
      invariant AgesUpTo(groups, prob, uniform, element, t) == Ok(ages)
      invariant t > 0 ==> CheckProbabilities(prob, k).None?
    {
      var check := CheckProbabilities(prob, k);
      if check.Some? {
        return Err(check.value);
      }
      var age := DrawAge(groups, prob, uniform(t), element(t));
      if age.Err? {
        AgesFailureSticks(groups, prob, uniform, element, t + 1, count);
        return Err(age.error);
      }
      ages := ages + [age.value];
    }
    assert n > 0 ==> AgeSpec(n, k, minAge, maxAge, prob, uniform, element) == AgesUpTo(groups, prob, uniform, element, count);
    return Ok(ages);
  }

  /** A successful prefix holds one age per person, each the age that person's draws select. */
  lemma {:induction false} AgesUpToOk(groups: seq<seq<int>>, prob: seq<real>, uniform: nat -> real,
                                      element: nat -> nat, m: nat)
    requires AgesUpTo(groups, prob, uniform, element, m).Ok?
    ensures var ages := AgesUpTo(groups, prob, uniform, element, m).value;
            |ages| == m &&
            forall t :: 0 <= t < m ==> PersonAge(groups, prob, uniform(t), element(t)) == Ok(ages[t])
  {
    if m > 0 {
      AgesUpToOk(groups, prob, uniform, element, m - 1);
    }
  }

  /**
   * The ages `generate_age_distribution` returns: one per person, each inside the group that
   * person's draw selects and so inside `[min_age, max_age)`.
   */
  lemma AgeDistributionInGroups(n: int, k: int, minAge: int, maxAge: int, prob: seq<real>,
                                uniform: nat -> real, element: nat -> nat)
    requires AgeSpec(n, k, minAge, maxAge, prob, uniform, element).Ok?
    ensures var ages := AgeSpec(n, k, minAge, maxAge, prob, uniform, element).value;
            && k > 0
            && |ages| == (if n > 0 then n else 0)
            && forall t :: 0 <= t < |ages| ==>
                 var g := GroupIndex(prob, uniform(t));
                 && g < k
                 && ages[t] in ArraySplit(Arange(minAge, maxAge), k)[g]
                 && minAge <= ages[t] < maxAge
  {
    if n > 0 {
      var groups := ArraySplit(Arange(minAge, maxAge), k);
      var ages := AgeSpec(n, k, minAge, maxAge, prob, uniform, element).value;
      AgesUpToOk(groups, prob, uniform, element, n);
      forall t | 0 <= t < |ages|
        ensures var g := GroupIndex(prob, uniform(t));
                g < k && ages[t] in groups[g] && minAge <= ages[t] < maxAge
      {
        var g := GroupIndex(prob, uniform(t));
        var j := element(t) % |groups[g]|;
        ArraySplitInRange(minAge, maxAge, k, g, j);
      }
    }
  }

  /** With valid probabilities and a uniform value in [0, 1), the selected group exists and has positive probability. */
  lemma AgeGroupHasWeight(prob: seq<real>, u: real)
    requires NonNegative(prob) && Sum(prob) == 1.0 && 0.0 <= u < 1.0
    ensures GroupIndex(prob, u) < |prob| && 0.0 < prob[GroupIndex(prob, u)]
  {
    var c := Cumulative(prob);
    var m := |prob|;
    var g := GroupIndex(prob, u);
    assert m > 0;
    CumulativeStep(prob, m - 1);
    CumulativeNonDecreasing(prob);
    BisectRightSorted(c, u, 0, m);
    assert u < c[g];
    if g > 0 {
      assert c[g - 1] <= u;
    }
    WeightBelowPoint(prob, g, u);
  }

  /**
   * When there are at least as many ages as groups, no group is empty; with valid probabilities
   * and uniform values in [0, 1) the generator then always succeeds.
   */
  lemma AgeDistributionSucceeds(n: int, k: int, minAge: int, maxAge: int, prob: seq<real>,
                                uniform: nat -> real, element: nat -> nat)
    requires 0 < k <= maxAge - minAge
    requires CheckProbabilities(prob, k).None?
    requires forall t :: 0.0 <= uniform(t) < 1.0
    ensures AgeSpec(n, k, minAge, maxAge, prob, uniform, element).Ok?
  {
    if n > 0 {
      var values := Arange(minAge, maxAge);
      var groups := ArraySplit(values, k);
      ArraySplitBalanced(values, k);
      DivAtLeastOne(|values|, k);
      forall t | 0 <= t ensures PersonAge(groups, prob, uniform(t), element(t)).Ok? {
        AgeGroupHasWeight(prob, uniform(t));
        var g := GroupIndex(prob, uniform(t));
        assert |groups[g]| >= |values| / k >= 1;
      }
      AgesAllOk(groups, prob, uniform, element, n);
    }
  }

  lemma DivAtLeastOne(total: nat, k: nat)
    requires 0 < k <= total
    ensures total / k >= 1
  {
    assert k * (total / k) + total % k == total;
  }

  lemma {:induction false} AgesAllOk(groups: seq<seq<int>>, prob: seq<real>, uniform: nat -> real,
                                     element: nat -> nat, m: nat)
    requires forall t :: 0 <= t ==> PersonAge(groups, prob, uniform(t), element(t)).Ok?
    ensures AgesUpTo(groups, prob, uniform, element, m).Ok?
  {
    if m > 0 {
      AgesAllOk(groups, prob, uniform, element, m - 1);
      assert PersonAge(groups, prob, uniform(m - 1), element(m - 1)).Ok?;
    }
  }

  const EducationOptions: seq<string> := ["Low", "Medium", "High"]
  const LivingAreaOptions: seq<string> := ["rural", "urban"]
  const JobTypeOptions: seq<string> := ["white_collar", "key_worker", "medical_professional", "other"]
  const EmploymentOptions: seq<string> := ["Yes", "No, seeking employment", "No, other"]
  const PartnershipOptions: seq<string> :=
    ["Single", "Married", "Live-in partner", "In relationship, no cohabitation", "Other"]
  const DifficultyOptions: seq<string> := ["No", "Some", "Many"]
  const PartnerDifficultyOptions: seq<string> := ["No", "Some", "Many", "Other"]

  lemma SumOfTwo(a: real, b: real)
    ensures Sum([a, b]) == a + b
  {
    assert [a, b][..1] == [a];
    assert [a][..0] == [];
    assert Sum([a]) == a;
  }

  lemma SumOfThree(a: real, b: real, c: real)
    ensures Sum([a, b, c]) == a + b + c
  {
    assert [a, b, c][..2] == [a, b];
    SumOfTwo(a, b);
  }

  lemma SumOfFour(a: real, b: real, c: real, d: real)
    ensures Sum([a, b, c, d]) == a + b + c + d
  {
    assert [a, b, c, d][..3] == [a, b, c];
    SumOfThree(a, b, c);
  }

  lemma SumOfFive(a: real, b: real, c: real, d: real, e: real)
    ensures Sum([a, b, c, d, e]) == a + b + c + d + e
  {
    assert [a, b, c, d, e][..4] == [a, b, c, d];
    SumOfFour(a, b, c, d);
  }

  /** `generate_educational_attainment_distribution`. */
  function GenerateEducationalAttainment(n: int, low: real, medium: real, high: real, uniform: nat -> real)
      : (r: Result<seq<string>, Error>)
    ensures r.Err? <==> low + medium + high <= 0.0
    ensures r.Err? ==> r.error == ValueError(NonPositiveTotalWeight)
    ensures r.Ok? ==> |r.value| == (if n > 0 then n else 0)
    ensures r.Ok? ==> forall t :: 0 <= t < |r.value| ==> r.value[t] in {"Low", "Medium", "High"}
  {
    SumOfThree(low, medium, high);
    Choices(EducationOptions, [low, medium, high], n, uniform)
  }

  /** `generate_living_area_distribution`. */
  function GenerateLivingArea(n: int, rural: real, urban: real, uniform: nat -> real)
      : (r: Result<seq<string>, Error>)
    ensures r.Err? <==> rural + urban <= 0.0
    ensures r.Err? ==> r.error == ValueError(NonPositiveTotalWeight)
    ensures r.Ok? ==> |r.value| == (if n > 0 then n else 0)
    ensures r.Ok? ==> forall t :: 0 <= t < |r.value| ==> r.value[t] in {"rural", "urban"}
  {
    SumOfTwo(rural, urban);
    Choices(LivingAreaOptions, [rural, urban], n, uniform)
  }

  /** `generate_jobType_distribution`. */
  function GenerateJobType(n: int, whiteCollar: real, keyWorker: real, medicalProfessional: real,
                           other: real, uniform: nat -> real): (r: Result<seq<string>, Error>)
    ensures r.Err? <==> whiteCollar + keyWorker + medicalProfessional + other <= 0.0
    ensures r.Err? ==> r.error == ValueError(NonPositiveTotalWeight)
    ensures r.Ok? ==> |r.value| == (if n > 0 then n else 0)
    ensures r.Ok? ==> forall t :: 0 <= t < |r.value| ==>
              r.value[t] in {"white_collar", "key_worker", "medical_professional", "other"}
  {
    SumOfFour(whiteCollar, keyWorker, medicalProfessional, other);
    Choices(JobTypeOptions, [whiteCollar, keyWorker, medicalProfessional, other], n, uniform)
  }

  /** `generate_employment_distribution`. */
  function GenerateEmployment(n: int, yes: real, noSeeking: real, noOther: real, uniform: nat -> real)
      : (r: Result<seq<string>, Error>)
    ensures r.Err? <==> yes + noSeeking + noOther <= 0.0
    ensures r.Err? ==> r.error == ValueError(NonPositiveTotalWeight)
    ensures r.Ok? ==> |r.value| == (if n > 0 then n else 0)
    ensures r.Ok? ==> forall t :: 0 <= t < |r.value| ==>
              r.value[t] in {"Yes", "No, seeking employment", "No, other"}
  {
    SumOfThree(yes, noSeeking, noOther);
    Choices(EmploymentOptions, [yes, noSeeking, noOther], n, uniform)
  }

  /** `generate_partnership_status_distribution`. */
  function GeneratePartnershipStatus(n: int, single: real, married: real, liveInPartner: real,
                                     inRelationshipNoCohabitation: real, other: real,
                                     uniform: nat -> real): (r: Result<seq<string>, Error>)
    ensures r.Err? <==> single + married + liveInPartner + inRelationshipNoCohabitation + other <= 0.0
    ensures r.Err? ==> r.error == ValueError(NonPositiveTotalWeight)
    ensures r.Ok? ==> |r.value| == (if n > 0 then n else 0)
    ensures r.Ok? ==> forall t :: 0 <= t < |r.value| ==>
              r.value[t] in {"Single", "Married", "Live-in partner", "In relationship, no cohabitation", "Other"}
  {
    SumOfFive(single, married, liveInPartner, inRelationshipNoCohabitation, other);
    Choices(PartnershipOptions, [single, married, liveInPartner, inRelationshipNoCohabitation, other],
            n, uniform)
  }

  /**
   * The body shared by the health, finance and housing difficulty generators: the options
   * "No", "Some" and "Many" with the three given weights.
   */
  function GenerateDifficulties(n: int, no: real, some: real, many: real, uniform: nat -> real)
      : (r: Result<seq<string>, Error>)
    ensures r.Err? <==> no + some + many <= 0.0
    ensures r.Err? ==> r.error == ValueError(NonPositiveTotalWeight)
    ensures r.Ok? ==> |r.value| == (if n > 0 then n else 0)
    ensures r.Ok? ==> forall t :: 0 <= t < |r.value| ==> r.value[t] in {"No", "Some", "Many"}
  {
    SumOfThree(no, some, many);
    Choices(DifficultyOptions, [no, some, many], n, uniform)
  }

  /** `generate_partner_difficulties_distribution`: the difficulty options and "Other". */
  function GeneratePartnerDifficulties(n: int, no: real, some: real, many: real, other: real,
                                       uniform: nat -> real): (r: Result<seq<string>, Error>)
    ensures r.Err? <==> no + some + many + other <= 0.0
    ensures r.Err? ==> r.error == ValueError(NonPositiveTotalWeight)
    ensures r.Ok? ==> |r.value| == (if n > 0 then n else 0)
    ensures r.Ok? ==> forall t :: 0 <= t < |r.value| ==> r.value[t] in {"No", "Some", "Many", "Other"}
  {
    SumOfFour(no, some, many, other);
    Choices(PartnerDifficultyOptions, [no, some, many, other], n, uniform)
  }
}
