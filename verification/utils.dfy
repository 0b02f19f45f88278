/**
 * NumberUtils, RandomUtils, ArrayUtils and StringUtils of utils.js.
 *
 * Every `Math.random()` draw is an explicit `real` parameter in [0, 1) (predicate `Unit`);
 * JavaScript's IEEE doubles are modelled by exact reals.
 */
module Utils {

  /** A value `Math.random()` can return. */
  predicate Unit(u: real) { 0.0 <= u < 1.0 }

  predicate AllUnit(us: seq<real>) { forall i :: 0 <= i < |us| ==> Unit(us[i]) }

  function Min(a: real, b: real): real { if a <= b then a else b }
  function Max(a: real, b: real): real { if a >= b then a else b }

  /** NumberUtils.clamp: `Math.min(Math.max(value, min), max)`. */
  function Clamp(value: real, lo: real, hi: real): (r: real)
    ensures lo <= hi ==> lo <= r <= hi
    ensures lo <= value <= hi ==> r == value
    ensures value < lo && lo <= hi ==> r == lo
    ensures hi < value ==> r == hi
  {
    Min(Max(value, lo), hi)
  }

  /** `Math.round`: the nearest integer, halves rounded up. */
  function Round(x: real): (r: int)
    ensures r as real - 0.5 <= x < r as real + 0.5
  {
    (x + 0.5).Floor
  }

  lemma RoundMonotone(x: real, y: real)
    requires x <= y
    ensures Round(x) <= Round(y)
  {
  }

  lemma RoundOfInt(n: int)
    ensures Round(n as real) == n
  {
  }

  lemma MulMonotone(x: real, y: real, f: real)
    requires x <= y && f >= 0.0
    ensures x * f <= y * f
  {
  }

  lemma ClampMonotone(x: real, y: real, lo: real, hi: real)
    requires x <= y
    ensures Clamp(x, lo, hi) <= Clamp(y, lo, hi)
  {
  }

  /** A unit draw scales a non-negative amount to somewhere between 0 and the amount. */
  lemma UnitScaled(u: real, a: real)
    requires Unit(u) && a >= 0.0
    ensures 0.0 <= u * a <= a
  {
    assert u * a <= 1.0 * a;
  }

  /** `parseFloat(x.toFixed(2))`, with the tie rounded up as `Math.round` does. */
  function RoundTo2(x: real): (r: real)
    ensures x - 0.005 < r <= x + 0.005
  {
    var n := Round(x * 100.0);
    assert n as real - 0.5 <= x * 100.0 < n as real + 0.5;
    n as real / 100.0
  }

  /** Two-decimal rounding never leaves an interval whose ends are whole numbers. */
  lemma RoundTo2Within(x: real, lo: int, hi: int)
    requires lo as real <= x <= hi as real
    ensures lo as real <= RoundTo2(x) <= hi as real
  {
    RoundMonotone(x * 100.0, hi as real * 100.0);
    RoundOfInt(hi * 100);
    RoundMonotone(lo as real * 100.0, x * 100.0);
    RoundOfInt(lo * 100);
  }

  /** `Math.floor(u * n)` for a draw u. */
  function FloorScaled(u: real, n: int): (r: int)
    requires Unit(u) && n >= 1
    ensures 0 <= r < n
  {
    ScaledBelow(u, n);
    (u * n as real).Floor
  }

  lemma ScaledBelow(u: real, n: int)
    requires Unit(u) && n >= 1
    ensures 0.0 <= u * n as real < n as real
  {
    assert u * n as real <= 1.0 * n as real - (1.0 - u) * n as real;
  }

  /** RandomUtils.randomInt: `Math.floor(Math.random() * (max - min + 1)) + min`. */
  function RandomInt(u: real, lo: int, hi: int): (r: int)
    requires Unit(u) && lo <= hi
    ensures lo <= r <= hi
  {
    FloorScaled(u, hi - lo + 1) + lo
  }

  /** RandomUtils.chance: `Math.random() < probability`. */
  predicate Chance(u: real, probability: real) { u < probability }

  /** NumberUtils.round(value, decimals) for decimals = 1. */
  function RoundTo1(x: real): (r: real)
    ensures x - 0.05 < r <= x + 0.05
  {
    var n := Round(x * 10.0);
    assert n as real - 0.5 <= x * 10.0 < n as real + 0.5;
    n as real / 10.0
  }

  /** NumberUtils.percentage: 0 for an empty total, else the share in percent to one decimal. */
  function Percentage(value: real, total: real): (r: real)
    ensures total == 0.0 ==> r == 0.0
    ensures total != 0.0 ==> value / total * 100.0 - 0.05 < r <= value / total * 100.0 + 0.05
    ensures total > 0.0 && 0.0 <= value <= total ==> 0.0 <= r <= 100.0
  {
    if total == 0.0 then 0.0
    else
      var p := value / total * 100.0;
      if total > 0.0 && 0.0 <= value <= total then
        assert value / total <= 1.0;
        RoundMonotone(0.0, p * 10.0);
        RoundMonotone(p * 10.0, 1000.0);
        RoundTo1(p)
      else
        RoundTo1(p)
  }

  /** A share that is a whole number of tenths of a percent is given exactly: 50 of 200 is 25%. */
  lemma PercentageExact()
    ensures Percentage(50.0, 200.0) == 25.0
  {
    RoundOfInt(250);
  }

  /** NumberUtils.rankPercentile: 1 for an empty cohort, else `1 - (rank - 1) / total`. */
  function RankPercentile(rank: int, total: int): (r: real)
    ensures total == 0 ==> r == 1.0
    ensures 1 <= rank <= total ==> 0.0 < r <= 1.0
    ensures total > 0 && rank == 1 ==> r == 1.0
  {
    if total == 0 then 1.0
    else
      var q := (rank - 1) as real / total as real;
      assert 1 <= rank <= total ==> 0.0 <= q < 1.0;
      1.0 - q
  }

  /** A better (smaller) rank never has a smaller percentile. */
  lemma RankPercentileMonotone(r1: int, r2: int, total: int)
    requires 1 <= r1 <= r2 <= total
    ensures RankPercentile(r1, total) >= RankPercentile(r2, total)
  {
  }

  // ---------------------------------------------------------------- RandomUtils.shuffle

  /** RandomUtils.shuffle: Fisher–Yates on a copy; draw `draws[i]` picks the partner of position i. */
  method Shuffle<T>(arr: seq<T>, draws: seq<real>) returns (shuffled: seq<T>)
    requires |draws| == |arr| && AllUnit(draws)
    ensures |shuffled| == |arr|
    ensures multiset(shuffled) == multiset(arr)
  {
    if |arr| == 0 { return []; }
    var a := new T[|arr|](k requires 0 <= k < |arr| => arr[k]);
    assert a[..] == arr;
    var i := a.Length - 1;
    while i > 0
      invariant 0 <= i < a.Length
      invariant multiset(a[..]) == multiset(arr)
    {
      var j := FloorScaled(draws[i], i + 1);
      a[i], a[j] := a[j], a[i];
      i := i - 1;
    }
    shuffled := a[..];
  }

  // ---------------------------------------------------------------- ArrayUtils

  /**
   * ArrayUtils.maxIndex: the first index holding the largest key; 0 for an empty array
   * (the loop never runs and the initial index is returned).
   */
  method MaxIndex<T>(arr: seq<T>, key: T -> real) returns (k: int)
    ensures |arr| == 0 ==> k == 0
    ensures |arr| > 0 ==> 0 <= k < |arr|
    ensures forall j :: 0 <= j < |arr| ==> key(arr[j]) <= key(arr[k])
    ensures forall j :: 0 <= j < k ==> key(arr[j]) < key(arr[k])
  {
    k := 0;
    if |arr| == 0 { return; }
    var best := key(arr[0]);
    var i := 1;
    while i < |arr|
      invariant 1 <= i <= |arr| && 0 <= k < i
      invariant best == key(arr[k])
      invariant forall j :: 0 <= j < i ==> key(arr[j]) <= best
      invariant forall j :: 0 <= j < k ==> key(arr[j]) < best
    {
      var value := key(arr[i]);
      if value > best {
        best := value;
        k := i;
      }
      i := i + 1;
    }
  }

  /** ArrayUtils.minIndex: the first index holding the smallest key; 0 for an empty array. */
  method MinIndex<T>(arr: seq<T>, key: T -> real) returns (k: int)
    ensures |arr| == 0 ==> k == 0
    ensures |arr| > 0 ==> 0 <= k < |arr|
    ensures forall j :: 0 <= j < |arr| ==> key(arr[k]) <= key(arr[j])
    ensures forall j :: 0 <= j < k ==> key(arr[k]) < key(arr[j])
  {
    k := 0;
    if |arr| == 0 { return; }
    var best := key(arr[0]);
    var i := 1;
    while i < |arr|
      invariant 1 <= i <= |arr| && 0 <= k < i
      invariant best == key(arr[k])
      invariant forall j :: 0 <= j < i ==> best <= key(arr[j])
      invariant forall j :: 0 <= j < k ==> best < key(arr[j])
    {
      var value := key(arr[i]);
      if value < best {
        best := value;
        k := i;
      }
      i := i + 1;
    }
  }

  predicate NoDuplicates<T(==)>(s: seq<T>)
  {
    forall i, j :: 0 <= i < j < |s| ==> s[i] != s[j]
  }

  /**
   * `[...new Set(arr)]` after the elements in `seen` were already inserted: the elements of
   * `arr` not in `seen`, each kept at its first occurrence, in order.
   */
  function Dedup<T(==)>(arr: seq<T>, seen: set<T>): (r: seq<T>)
    ensures NoDuplicates(r)
    ensures forall i :: 0 <= i < |r| ==> r[i] in arr && r[i] !in seen
    ensures forall i :: 0 <= i < |arr| && arr[i] !in seen ==> arr[i] in r
  {
    if |arr| == 0 then []
    else if arr[0] in seen then Dedup(arr[1..], seen)
    else [arr[0]] + Dedup(arr[1..], seen + {arr[0]})
  }

  /** ArrayUtils.unique: the distinct elements of `arr`, in order of first occurrence. */
  function Unique<T(==)>(arr: seq<T>): (r: seq<T>)
    ensures NoDuplicates(r)
    ensures forall i :: 0 <= i < |r| ==> r[i] in arr
    ensures forall i :: 0 <= i < |arr| ==> arr[i] in r
    ensures |r| <= |arr|
  {
    UniqueNoLonger(arr, {});
    Dedup(arr, {})
  }

  lemma {:induction false} UniqueNoLonger<T>(arr: seq<T>, seen: set<T>)
    ensures |Dedup(arr, seen)| <= |arr|
  {
    if |arr| > 0 {
      if arr[0] in seen { UniqueNoLonger(arr[1..], seen); }
      else { UniqueNoLonger(arr[1..], seen + {arr[0]}); }
    }
  }

  /** An array that already has no duplicates is returned unchanged. */
  lemma {:induction false} UniqueOfDistinct<T>(arr: seq<T>, seen: set<T>)
    requires NoDuplicates(arr)
    requires forall i :: 0 <= i < |arr| ==> arr[i] !in seen
    ensures Dedup(arr, seen) == arr
  {
    if |arr| > 0 {
      assert arr[0] !in seen;
      assert forall i :: 0 <= i < |arr[1..]| ==> arr[1..][i] != arr[0];
      UniqueOfDistinct(arr[1..], seen + {arr[0]});
    }
  }

  /** The first element always survives deduplication, at the front. */
  lemma UniqueKeepsFirst<T>(arr: seq<T>)
    requires |arr| > 0
    ensures Unique(arr)[0] == arr[0]
  {
  }

  // ---------------------------------------------------------------- StringUtils

  /**
   * StringUtils.truncate: a string no longer than `maxLength` is returned as is; a longer one is
   * cut to `maxLength - |suffix|` characters (`substring` clamps a negative end to 0) and `suffix`
   * is appended.
   */
  function Truncate(str: string, maxLength: int, suffix: string): (r: string)
    ensures |str| <= maxLength ==> r == str
    ensures |str| > maxLength ==> |r| >= |suffix| && r[|r| - |suffix|..] == suffix
    ensures |str| > maxLength >= |suffix| ==> |r| == maxLength && r[..maxLength - |suffix|] == str[..maxLength - |suffix|]
  {
    if |str| <= maxLength then str
    else
      var cut := if maxLength - |suffix| < 0 then 0 else maxLength - |suffix|;
      str[..cut] + suffix
  }

  datatype LetterGrade = GradeA | GradeB | GradeC | GradeD | GradeE

  /** Position in the order A > B > C > D > E (0 is best). */
  function LetterRank(g: LetterGrade): nat
  {
    match g
    case GradeA => 0
    case GradeB => 1
    case GradeC => 2
    case GradeD => 3
    case GradeE => 4
  }

  /**
   * StringUtils.scoreToGrade: the percentage `score / fullScore * 100` bucketed at 90/80/70/60.
   * A zero full score gives ±Infinity or NaN in the source: a positive score then grades A, any
   * other score E.
   */
  function ScoreToGrade(score: real, fullScore: real): (r: LetterGrade)
    ensures fullScore > 0.0 ==> (r == GradeA <==> score >= 0.9 * fullScore)
    ensures fullScore > 0.0 ==> (r == GradeE <==> score < 0.6 * fullScore)
  {
    if fullScore == 0.0 then (if score > 0.0 then GradeA else GradeE)
    else
      var percent := score / fullScore * 100.0;
      var grade :=
        if percent >= 90.0 then GradeA
        else if percent >= 80.0 then GradeB
        else if percent >= 70.0 then GradeC
        else if percent >= 60.0 then GradeD
        else GradeE;
      if fullScore > 0.0 then
        PercentAtLeast(score, fullScore, 90.0);
        PercentAtLeast(score, fullScore, 60.0);
        grade
      else grade
  }

  lemma PercentAtLeast(score: real, fullScore: real, t: real)
    requires fullScore > 0.0
    ensures score / fullScore * 100.0 >= t <==> score * 100.0 >= t * fullScore
  {
    var q := score / fullScore;
    assert q * fullScore == score;
    if q * 100.0 >= t {
      assert q * 100.0 * fullScore >= t * fullScore;
    } else {
      assert q * 100.0 * fullScore < t * fullScore;
    }
  }

  /** For a fixed full score, a higher score never earns a worse letter. */
  lemma ScoreToGradeMonotone(s1: real, s2: real, fullScore: real)
    requires fullScore > 0.0 && s1 <= s2
    ensures LetterRank(ScoreToGrade(s2, fullScore)) <= LetterRank(ScoreToGrade(s1, fullScore))
  {
    assert s1 / fullScore <= s2 / fullScore;
  }
}
