/** The throughput window both coordinators keep in `matchingSamples`: the
    newest per-second sample at index 0, at most SAMPLES_COUNT samples. Worker
    statistics are added to the newest sample; every stats tick sums the
    window, pushes a fresh 0 at the front and drops what falls past the end. */
module Samples {

  const SAMPLES_COUNT: nat := 3

  /** The sum of the samples, folded from the left as `reduce` does. */
  function Sum(w: seq<int>): int
  {
    if w == [] then 0 else Sum(w[..|w| - 1]) + w[|w| - 1]
  }

  /** What every coordinator method keeps: the window is never empty and
      never longer than SAMPLES_COUNT. */
  ghost predicate IsWindow(w: seq<int>)
  {
    1 <= |w| <= SAMPLES_COUNT
  }

  /** The `reduce` of `getStats`, as the loop it performs. */
  method SumSamples(w: seq<int>) returns (acc: int)
    ensures acc == Sum(w)
  {
    acc := 0;
    for i := 0 to |w|
      invariant acc == Sum(w[..i])
    {
      assert w[..i + 1][..i] == w[..i];
      acc := acc + w[i];
    }
    assert w[..|w|] == w;
  }

  lemma {:induction false} SumRecord(w: seq<int>, k: int)
    requires |w| >= 1
    ensures Sum(w[0 := w[0] + k]) == Sum(w) + k
  {
    var u := w[0 := w[0] + k];
    if |w| == 1 {
      assert u[..0] == [] && w[..0] == [];
    } else {
      assert u[..|u| - 1] == w[..|w| - 1][0 := w[0] + k];
      SumRecord(w[..|w| - 1], k);
    }
  }

  /** `matchingSamples[0] += k`: a worker's count goes into the newest
      sample; the total grows by k and the older samples are untouched. */
  function Record(w: seq<int>, k: int): (r: seq<int>)
    requires |w| >= 1
    ensures |r| == |w| && r[1..] == w[1..]
    ensures Sum(r) == Sum(w) + k
  {
    SumRecord(w, k);
    w[0 := w[0] + k]
  }

  /** `unshift(0)` then `splice(SAMPLES_COUNT)`: a fresh 0 in front, then
      the newest samples that still fit, the oldest one dropped when full. */
  function Shift(w: seq<int>): (r: seq<int>)
    ensures IsWindow(r) && r[0] == 0
    ensures |w| < SAMPLES_COUNT ==> r[1..] == w
    ensures |w| >= SAMPLES_COUNT ==> r[1..] == w[..SAMPLES_COUNT - 1]
  {
    var u := [0] + w;
    if |u| > SAMPLES_COUNT then u[..SAMPLES_COUNT] else u
  }

  /** Addresses per second: the window's sum over SAMPLES_COUNT. */
  function Aps(w: seq<int>): real
  {
    Sum(w) as real / SAMPLES_COUNT as real
  }

  /** Milliseconds expected to reach `minIterations` at `aps` addresses per
      second. */
  function EstimatedDuration(minIterations: real, aps: real): real
  {
    if aps > 0.0 then (minIterations / aps) * 1000.0 else 0.0
  }

  /** The estimate is 0 when there is no throughput, and otherwise the time
      in which `aps` addresses per second reach `minIterations`; nothing is
      ever divided by 0. */
  lemma EstimatedDurationMeaning(minIterations: real, aps: real)
    ensures aps <= 0.0 ==> EstimatedDuration(minIterations, aps) == 0.0
    ensures aps > 0.0 ==> EstimatedDuration(minIterations, aps) * aps == minIterations * 1000.0
  {
  }

  /** The window after n stats ticks, each preceded by k addresses reported
      by the workers. */
  function Steady(w: seq<int>, k: int, n: nat): (r: seq<int>)
    requires IsWindow(w)
    ensures IsWindow(r)
  {
    if n == 0 then w else Shift(Record(Steady(w, k, n - 1), k))
  }

  /** The first two ticks after a reset ([0] at construction, [0, 0] after
      a stop) with k addresses before each: the first reports k/3 (plus
      whatever the older sample held), and by the second tick's end the
      window holds k twice behind the fresh sample. */
  lemma WarmUp(w: seq<int>, k: int)
    requires IsWindow(w) && |w| <= 2 && w[0] == 0
    ensures Aps(Record(w, k)) == (k + Sum(w)) as real / 3.0
    ensures Steady(w, k, 1) == [0, k] + w[1..]
    ensures Steady(w, k, 2) == [0, k, k]
  {
    SumRecord(w, k);
    var r0 := Record(w, k);
    assert r0 == [k] + w[1..];
    assert Steady(w, k, 0) == w;
    var s1 := Steady(w, k, 1);
    assert s1 == Shift(r0) == [0, k] + w[1..];
    assert Record(s1, k) == [k, k] + w[1..];
  }

  /** After a reset, a constant k addresses between ticks gives exactly k
      from the third tick on. */
  lemma {:induction false} ConvergesFromReset(w: seq<int>, k: int, n: nat)
    requires IsWindow(w) && |w| <= 2 && w[0] == 0 && n >= 2
    ensures Steady(w, k, n) == [0, k, k]
    ensures Aps(Record(Steady(w, k, n), k)) == k as real
  {
    if n == 2 {
      WarmUp(w, k);
    } else {
      ConvergesFromReset(w, k, n - 1);
      assert Record([0, k, k], k) == [k, k, k];
    }
    SteadySum(k);
  }

  lemma FlushedAfterThree(w: seq<int>, k: int)
    requires IsWindow(w)
    ensures Steady(w, k, 3) == [0, k, k]
  {
    assert Steady(w, k, 0) == w;
    var s1 := Steady(w, k, 1);
    assert s1 == Shift(Record(w, k));
    assert |s1| >= 2 && s1[0] == 0 && s1[1] == w[0] + k;
    var s2 := Steady(w, k, 2);
    assert s2 == Shift(Record(s1, k));
    assert Record(s1, k)[..2] == [k, w[0] + k];
    assert s2 == [0, k, w[0] + k];
    assert Steady(w, k, 3) == Shift(Record(s2, k));
    assert Record(s2, k) == [k, k, w[0] + k];
  }

  /** From any window whatever, the old samples are flushed after three
      ticks and the throughput is exactly k from the fourth tick on. */
  lemma {:induction false} ConvergesFromAny(w: seq<int>, k: int, n: nat)
    requires IsWindow(w) && n >= 3
    ensures Steady(w, k, n) == [0, k, k]
    ensures Aps(Record(Steady(w, k, n), k)) == k as real
  {
    if n == 3 {
      FlushedAfterThree(w, k);
    } else {
      ConvergesFromAny(w, k, n - 1);
      assert Record([0, k, k], k) == [k, k, k];
    }
    SteadySum(k);
  }

  lemma SteadySum(k: int)
    ensures Aps(Record([0, k, k], k)) == k as real
  {
    var full := [k, k, k];
    assert Record([0, k, k], k) == full;
    assert full[..2] == [k, k] && [k, k][..1] == [k] && [k][..0] == [];
    assert Sum([k]) == k;
    assert Sum([k, k]) == 2 * k;
    assert Sum(full) == 3 * k;
  }
}
