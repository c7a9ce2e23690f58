/**
 * The derivative history of BackwardPass. For every hidden unit and every
 * input feature the layer keeps a Vector3 `wd` of partial derivatives of
 * the cell state with respect to the feature's input, forget and cell
 * weights. At each time step the new history is the instantaneous
 * derivative times the feature value, plus, from the second step of a
 * sequence on, the previous history damped by the forget gate.
 */
module History {
  import opened Vectors

  /** What one time step feeds into one history entry: `vecDerivate`, the feature value and `yForget`. */
  datatype Moment = Moment(derivative: Vec3, value: real, yForget: real)

  /** `vecDerivate * value`: the part of the step that ignores the past. */
  function Instant(m: Moment): Vec3 {
    Scale3(m.derivative, m.value)
  }

  /** The history entry after time step `curState` of a sequence, given the entry before it. */
  function HistoryStep(prev: Vec3, m: Moment, curState: int): Vec3 {
    if curState > 0 then Add3(Instant(m), Scale3(prev, m.yForget)) else Instant(m)
  }

  /** The entry after feeding `moments` as time steps 0, 1, ..., starting from the stale entry `start`. */
  function Run(start: Vec3, moments: seq<Moment>): Vec3
    decreases |moments|
  {
    if |moments| == 0 then start
    else HistoryStep(Run(start, moments[..|moments| - 1]), moments[|moments| - 1], |moments| - 1)
  }

  /** The product of the forget gates of `moments`. */
  function Decay(moments: seq<Moment>): real
    decreases |moments|
  {
    if |moments| == 0 then 1.0 else moments[0].yForget * Decay(moments[1..])
  }

  /**
   * The closed form of the history: the sum over the steps of each
   * instantaneous derivative, damped by the forget gates of every later step.
   */
  function DecayedSum(moments: seq<Moment>): Vec3
    decreases |moments|
  {
    if |moments| == 0 then Zero3
    else Add3(Scale3(Instant(moments[0]), Decay(moments[1..])), DecayedSum(moments[1..]))
  }

  /** A later step damps everything before it once more. */
  lemma {:induction false} DecaySnoc(moments: seq<Moment>, m: Moment)
    ensures Decay(moments + [m]) == Decay(moments) * m.yForget
    decreases |moments|
  {
    if |moments| > 0 {
      assert (moments + [m])[1..] == moments[1..] + [m];
      DecaySnoc(moments[1..], m);
    }
  }

  /** Appending a step to the closed form is one history step. */
  lemma {:induction false} DecayedSumSnoc(moments: seq<Moment>, m: Moment)
    ensures DecayedSum(moments + [m]) == Add3(Instant(m), Scale3(DecayedSum(moments), m.yForget))
    decreases |moments|
  {
    if |moments| == 0 {
      assert [m][1..] == [];
    } else {
      var rest := moments[1..];
      assert (moments + [m])[1..] == rest + [m];
      DecayedSumSnoc(rest, m);
      DecaySnoc(rest, m);
      var a := Instant(moments[0]);
      ScaleScale3(a, Decay(rest), m.yForget);
      ScaleAdd3(Scale3(a, Decay(rest)), DecayedSum(rest), m.yForget);
    }
  }

  /**
   * Over a whole sequence the history is the decayed sum of the
   * instantaneous derivatives; in particular whatever the entry held before
   * the sequence started is forgotten at its first step.
   */
  lemma {:induction false} RunIsDecayedSum(start: Vec3, moments: seq<Moment>)
    requires |moments| > 0
    ensures Run(start, moments) == DecayedSum(moments)
    decreases |moments|
  {
    var n := |moments| - 1;
    var init, last := moments[..n], moments[n];
    assert moments == init + [last];
    DecayedSumSnoc(init, last);
    if n > 0 {
      RunIsDecayedSum(start, init);
    }
  }

  /** Two runs over the same steps agree, whatever stale entries they started from. */
  lemma RunForgetsStart(a: Vec3, b: Vec3, moments: seq<Moment>)
    requires |moments| > 0
    ensures Run(a, moments) == Run(b, moments)
  {
    RunIsDecayedSum(a, moments);
    RunIsDecayedSum(b, moments);
  }
}
