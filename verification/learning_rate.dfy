/**
 * The gradient cut-off and ComputeLearningRate of the backward pass. Every
 * weight keeps an accumulator of its squared deltas; a delta is first
 * clamped into [-GradientCutoff, GradientCutoff], added squared to the
 * accumulator, and the weight then moves by
 * LearningRate / (sqrt(accumulator) + 1) times the delta.
 */
module LearningRate {
  import opened Vectors

  /**
   * Vector4.SquareRoot and Vector3.SquareRoot, one channel at a time, known
   * only to be non-negative on non-negative arguments.
   */
  type SquareRoot = f: real -> real | forall x: real :: 0.0 <= x ==> 0.0 <= f(x)
    witness (x: real) => 0.0

  /** `x <= y`, named so that Monotone is only instantiated where a proof mentions it. */
  predicate Below(x: real, y: real) {
    x <= y
  }

  /** A square root does not decrease as its argument grows. */
  ghost predicate Monotone(sqrt: SquareRoot) {
    forall x: real, y: real {:trigger Below(x, y)} :: 0.0 <= x && Below(x, y) ==> sqrt(x) <= sqrt(y)
  }

  // ----- the gradient cut-off -----

  /** One channel of Vector4.Clamp(value, min, max), which is Min(Max(value, min), max). */
  function Clamp(x: real, lo: real, hi: real): (r: real)
    ensures r == x || r == lo || r == hi
    ensures lo <= hi ==> lo <= r <= hi && (lo <= x <= hi ==> r == x)
    ensures lo <= hi ==> (x < lo ==> r == lo) && (hi < x ==> r == hi)
    ensures hi < lo ==> r == hi
  {
    var up := if x < lo then lo else x;
    if up > hi then hi else up
  }

  /** Every channel lies in [-bound, bound]. */
  predicate Within3(v: Vec3, bound: real) {
    -bound <= v.x <= bound && -bound <= v.y <= bound && -bound <= v.z <= bound
  }

  predicate Within4(v: Vec4, bound: real) {
    -bound <= v.x <= bound && -bound <= v.y <= bound && -bound <= v.z <= bound && -bound <= v.w <= bound
  }

  /** Vector3.Clamp(v, vecMinGrad3, vecMaxGrad3): the cut-off on each channel. */
  function ClampGradient3(v: Vec3, cutoff: real): (r: Vec3)
    ensures cutoff >= 0.0 ==> Within3(r, cutoff)
    ensures cutoff >= 0.0 && Within3(v, cutoff) ==> r == v
  {
    Vec3(Clamp(v.x, -cutoff, cutoff), Clamp(v.y, -cutoff, cutoff), Clamp(v.z, -cutoff, cutoff))
  }

  /** Vector4.Clamp(v, vecMinGrad, vecMaxGrad): the cut-off on each channel. */
  function ClampGradient4(v: Vec4, cutoff: real): (r: Vec4)
    ensures cutoff >= 0.0 ==> Within4(r, cutoff)
    ensures cutoff >= 0.0 && Within4(v, cutoff) ==> r == v
  {
    Vec4(Clamp(v.x, -cutoff, cutoff), Clamp(v.y, -cutoff, cutoff), Clamp(v.z, -cutoff, cutoff), Clamp(v.w, -cutoff, cutoff))
  }

  /** Clamping twice is clamping once. */
  lemma ClampIdempotent(v: Vec4, cutoff: real)
    requires cutoff >= 0.0
    ensures ClampGradient4(ClampGradient4(v, cutoff), cutoff) == ClampGradient4(v, cutoff)
  {
  }

  // ----- the accumulator and the rate -----

  predicate NonNegative3(v: Vec3) {
    0.0 <= v.x && 0.0 <= v.y && 0.0 <= v.z
  }

  predicate NonNegative4(v: Vec4) {
    0.0 <= v.x && 0.0 <= v.y && 0.0 <= v.z && 0.0 <= v.w
  }

  /** No channel of `b` is below the same channel of `a`. */
  predicate Grows3(a: Vec3, b: Vec3) {
    a.x <= b.x && a.y <= b.y && a.z <= b.z
  }

  predicate Grows4(a: Vec4, b: Vec4) {
    a.x <= b.x && a.y <= b.y && a.z <= b.z && a.w <= b.w
  }

  /** Every channel lies in (0, bound]. */
  predicate Rates3(v: Vec3, bound: real) {
    0.0 < v.x <= bound && 0.0 < v.y <= bound && 0.0 < v.z <= bound
  }

  predicate Rates4(v: Vec4, bound: real) {
    0.0 < v.x <= bound && 0.0 < v.y <= bound && 0.0 < v.z <= bound && 0.0 < v.w <= bound
  }

  /** One channel of `vecWeightLearningRate += vecDelta * vecDelta`. */
  function Accumulate(acc: real, delta: real): (r: real)
    ensures acc <= r
  {
    acc + delta * delta
  }

  /** The accumulator grows strictly exactly when the delta is not zero. */
  lemma AccumulateGrows(acc: real, delta: real)
    ensures Accumulate(acc, delta) == acc <==> delta == 0.0
  {
    if delta != 0.0 {
      calc {
        acc;
      <
        acc + delta * delta;
      ==
        Accumulate(acc, delta);
      }
    }
  }

  /** One channel of `vecNormalLearningRate / (SquareRoot(acc) + One)`, given the square root. */
  function Rate(learningRate: real, root: real): (r: real)
    requires 0.0 <= root
    ensures 0.0 < learningRate ==> 0.0 < r <= learningRate
  {
    learningRate / (root + 1.0)
  }

  /** A larger square root never gives a larger rate. */
  lemma RateAntitone(learningRate: real, p: real, q: real)
    requires 0.0 <= learningRate && 0.0 <= p <= q
    ensures Rate(learningRate, q) <= Rate(learningRate, p)
  {
    var a, b := learningRate / (p + 1.0), learningRate / (q + 1.0);
    assert a * (p + 1.0) == learningRate;
    assert b * (q + 1.0) == learningRate;
    assert a * (p + 1.0) <= a * (q + 1.0);
  }

  /** A Vector3 rate and the accumulator it was computed from. */
  datatype Rated3 = Rated3(rate: Vec3, accumulator: Vec3)

  datatype Rated4 = Rated4(rate: Vec4, accumulator: Vec4)

  /** ComputeLearningRate(vecDelta, ref vecWeightLearningRate) on Vector3. */
  function ComputeLearningRate3(delta: Vec3, acc: Vec3, learningRate: real, sqrt: SquareRoot): (r: Rated3)
    requires NonNegative3(acc)
    ensures NonNegative3(r.accumulator) && Grows3(acc, r.accumulator)
    ensures 0.0 < learningRate ==> Rates3(r.rate, learningRate)
  {
    var a := Vec3(Accumulate(acc.x, delta.x), Accumulate(acc.y, delta.y), Accumulate(acc.z, delta.z));
    Rated3(Vec3(Rate(learningRate, sqrt(a.x)), Rate(learningRate, sqrt(a.y)), Rate(learningRate, sqrt(a.z))), a)
  }

  /** ComputeLearningRate(vecDelta, ref vecWeightLearningRate) on Vector4. */
  function ComputeLearningRate4(delta: Vec4, acc: Vec4, learningRate: real, sqrt: SquareRoot): (r: Rated4)
    requires NonNegative4(acc)
    ensures NonNegative4(r.accumulator) && Grows4(acc, r.accumulator)
    ensures 0.0 < learningRate ==> Rates4(r.rate, learningRate)
  {
    var a := Vec4(Accumulate(acc.x, delta.x), Accumulate(acc.y, delta.y), Accumulate(acc.z, delta.z), Accumulate(acc.w, delta.w));
    Rated4(Vec4(Rate(learningRate, sqrt(a.x)), Rate(learningRate, sqrt(a.y)), Rate(learningRate, sqrt(a.z)), Rate(learningRate, sqrt(a.w))), a)
  }

  /** On one channel: the rate after a second update is no larger than after the first. */
  lemma RateFalls(d1: real, d2: real, acc: real, learningRate: real, sqrt: SquareRoot)
    requires Monotone(sqrt) && 0.0 <= learningRate && 0.0 <= acc
    ensures var a := Accumulate(acc, d1);
      Rate(learningRate, sqrt(Accumulate(a, d2))) <= Rate(learningRate, sqrt(a))
  {
    var a := Accumulate(acc, d1);
    var b := Accumulate(a, d2);
    assert Below(a, b);
    RateAntitone(learningRate, sqrt(a), sqrt(b));
  }

  /** Over two successive updates of the same weight, no channel's rate goes up. */
  lemma RateNonIncreasing4(d1: Vec4, d2: Vec4, acc: Vec4, learningRate: real, sqrt: SquareRoot)
    requires Monotone(sqrt) && NonNegative4(acc) && 0.0 <= learningRate
    ensures var first := ComputeLearningRate4(d1, acc, learningRate, sqrt);
      var second := ComputeLearningRate4(d2, first.accumulator, learningRate, sqrt);
      second.rate.x <= first.rate.x && second.rate.y <= first.rate.y
      && second.rate.z <= first.rate.z && second.rate.w <= first.rate.w
  {
    RateFalls(d1.x, d2.x, acc.x, learningRate, sqrt);
    RateFalls(d1.y, d2.y, acc.y, learningRate, sqrt);
    RateFalls(d1.z, d2.z, acc.z, learningRate, sqrt);
    RateFalls(d1.w, d2.w, acc.w, learningRate, sqrt);
  }

  /** Multiplying by a non-negative factor keeps the order. */
  lemma MulMono(a: real, b: real, c: real)
    requires 0.0 <= c && a <= b
    ensures a * c <= b * c
  {
  }

  /** A rate in (0, learningRate] times a delta within the cut-off moves a weight by at most learningRate * cutoff. */
  lemma StepBounded(rate: real, delta: real, learningRate: real, cutoff: real)
    requires 0.0 < rate <= learningRate && -cutoff <= delta <= cutoff
    ensures -(learningRate * cutoff) <= rate * delta <= learningRate * cutoff
  {
    if delta >= 0.0 {
      calc {
        rate * delta;
      <= { MulMono(rate, learningRate, delta); }
        learningRate * delta;
      <= { MulMono(delta, cutoff, learningRate); }
        learningRate * cutoff;
      }
      calc {
        -(learningRate * cutoff);
      <= { MulMono(0.0, cutoff, learningRate); }
        0.0;
      <= { MulMono(0.0, delta, rate); }
        rate * delta;
      }
    } else {
      var m := -delta;
      calc {
        rate * delta;
      ==
        -(rate * m);
      >= { MulMono(rate, learningRate, m); }
        -(learningRate * m);
      >= { MulMono(m, cutoff, learningRate); }
        -(learningRate * cutoff);
      }
      calc {
        rate * delta;
      <= { MulMono(delta, 0.0, rate); }
        0.0;
      <= { MulMono(0.0, cutoff, learningRate); }
        learningRate * cutoff;
      }
    }
  }
}
