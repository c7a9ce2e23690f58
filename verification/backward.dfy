/**
 * The weight updates of BackwardPass for one hidden unit, with the error
 * signal the gate arithmetic produces taken as given. Each input-feature
 * weight first extends its derivative history, then forms its delta as the
 * error times (history, feature value), clamps it to the gradient cut-off,
 * folds it into its accumulator and moves by the resulting rate times the
 * delta. The unit's own peephole and recurrent weights follow the same
 * clamp-and-rate scheme with derivative accumulators kept in the cell.
 */
module Backward {
  import opened Wrappers
  import opened Tokens
  import opened Vectors
  import opened Cells
  import opened LearningRate
  import opened History

  /** The training constants CleanLearningRate copies from RNNHelper, and the square root it uses. */
  datatype Settings = Settings(learningRate: real, cutoff: real, sqrt: SquareRoot)

  /**
   * What the gate arithmetic of BackwardPass hands the weight updates of one
   * unit: the cell-state error, the output-gate gradient and `vecDerivate`.
   */
  datatype Signal = Signal(cellStateError: real, gradientOutputGate: real, derivative: Vec3)

  /** `vecErr`: the cell-state error on the three gates fed by the cell state, the output-gate gradient on W. */
  function Err4(s: Signal): Vec4 {
    Vec4(s.cellStateError, s.cellStateError, s.cellStateError, s.gradientOutputGate)
  }

  /** `vecErr3`, the error on the three peephole weights. */
  function Err3(s: Signal): Vec3 {
    Vec3(s.cellStateError, s.cellStateError, s.gradientOutputGate)
  }

  /** One input-feature weight of one unit, its derivative history entry and its accumulator. */
  datatype Feature = Feature(weight: Vec4, history: Vec3, accumulator: Vec4)

  /** `a - b` channel by channel. */
  function Sub4(a: Vec4, b: Vec4): Vec4 {
    Vec4(a.x - b.x, a.y - b.y, a.z - b.z, a.w - b.w)
  }

  function Sub3(a: Vec3, b: Vec3): Vec3 {
    Vec3(a.x - b.x, a.y - b.y, a.z - b.z)
  }

  /** One channel of `w += vecLearningRate * vecDelta`. */
  function Move(w: real, rate: real, delta: real): real {
    w + rate * delta
  }

  /** `w += vecLearningRate * vecDelta` on a Vector4. */
  function Move4(w: Vec4, rate: Vec4, delta: Vec4): Vec4 {
    Vec4(Move(w.x, rate.x, delta.x), Move(w.y, rate.y, delta.y), Move(w.z, rate.z, delta.z), Move(w.w, rate.w, delta.w))
  }

  /** `w += vecLearningRate * vecDelta` on a Vector3. */
  function Move3(w: Vec3, rate: Vec3, delta: Vec3): Vec3 {
    Vec3(Move(w.x, rate.x, delta.x), Move(w.y, rate.y, delta.y), Move(w.z, rate.z, delta.z))
  }

  /** Moving `w` by `rate * delta` changes it by at most learningRate * cutoff either way. */
  lemma MoveBounded(w: real, rate: real, delta: real, learningRate: real, cutoff: real)
    requires 0.0 < rate <= learningRate && -cutoff <= delta <= cutoff
    ensures -(learningRate * cutoff) <= Move(w, rate, delta) - w <= learningRate * cutoff
  {
    calc {
      -(learningRate * cutoff);
    <= { StepBounded(rate, delta, learningRate, cutoff); }
      rate * delta;
    ==
      Move(w, rate, delta) - w;
    }
    calc {
      Move(w, rate, delta) - w;
    ==
      rate * delta;
    <= { StepBounded(rate, delta, learningRate, cutoff); }
      learningRate * cutoff;
    }
  }

  lemma MoveBounded4(w: Vec4, rate: Vec4, delta: Vec4, learningRate: real, cutoff: real)
    requires Rates4(rate, learningRate) && Within4(delta, cutoff)
    ensures Within4(Sub4(Move4(w, rate, delta), w), learningRate * cutoff)
  {
    MoveBounded(w.x, rate.x, delta.x, learningRate, cutoff);
    MoveBounded(w.y, rate.y, delta.y, learningRate, cutoff);
    MoveBounded(w.z, rate.z, delta.z, learningRate, cutoff);
    MoveBounded(w.w, rate.w, delta.w, learningRate, cutoff);
  }

  lemma MoveBounded3(w: Vec3, rate: Vec3, delta: Vec3, learningRate: real, cutoff: real)
    requires Rates3(rate, learningRate) && Within3(delta, cutoff)
    ensures Within3(Sub3(Move3(w, rate, delta), w), learningRate * cutoff)
  {
    MoveBounded(w.x, rate.x, delta.x, learningRate, cutoff);
    MoveBounded(w.y, rate.y, delta.y, learningRate, cutoff);
    MoveBounded(w.z, rate.z, delta.z, learningRate, cutoff);
  }

  /** MoveBounded4 with the constants taken from the settings. */
  lemma SettingsBound4(w: Vec4, rate: Vec4, delta: Vec4, cfg: Settings)
    requires Rates4(rate, cfg.learningRate) && Within4(delta, cfg.cutoff)
    ensures Within4(Sub4(Move4(w, rate, delta), w), cfg.learningRate * cfg.cutoff)
  {
    MoveBounded4(w, rate, delta, cfg.learningRate, cfg.cutoff);
  }

  lemma SettingsBound3(w: Vec3, rate: Vec3, delta: Vec3, cfg: Settings)
    requires Rates3(rate, cfg.learningRate) && Within3(delta, cfg.cutoff)
    ensures Within3(Sub3(Move3(w, rate, delta), w), cfg.learningRate * cfg.cutoff)
  {
    MoveBounded3(w, rate, delta, cfg.learningRate, cfg.cutoff);
  }

  // ----- input-feature weights -----

  /** A feature whose accumulator is non-negative, as CleanLearningRate's zeroed arrays start out. */
  type Tracked = f: Feature | NonNegative4(f.accumulator)
    witness Feature(Vec4(0.0, 0.0, 0.0, 0.0), Zero3, Vec4(0.0, 0.0, 0.0, 0.0))

  /** The step a feature with this value takes, as a history moment. */
  function MomentOf(s: Signal, value: real, yForget: real): Moment {
    Moment(s.derivative, value, yForget)
  }

  /**
   * The body of the per-feature loops of BackwardPass: extend the history,
   * form `vecErr * (wd, value)`, clamp it, update the accumulator and move
   * the weight.
   */
  function UpdateFeature(f: Tracked, value: real, s: Signal, yForget: real, curState: int, cfg: Settings): (r: Tracked)
    ensures r.history == HistoryStep(f.history, MomentOf(s, value, yForget), curState)
    ensures Grows4(f.accumulator, r.accumulator)
  {
    var wd := HistoryStep(f.history, MomentOf(s, value, yForget), curState);
    var delta := ClampGradient4(Mul4(Err4(s), Extend(wd, value)), cfg.cutoff);
    var rated := ComputeLearningRate4(delta, f.accumulator, cfg.learningRate, cfg.sqrt);
    Feature(Move4(f.weight, rated.rate, delta), wd, rated.accumulator)
  }

  /** With a positive rate and a non-negative cut-off, no channel of a feature weight moves by more than their product. */
  lemma UpdateFeatureBounded(f: Tracked, value: real, s: Signal, yForget: real, curState: int, cfg: Settings)
    requires 0.0 < cfg.learningRate && 0.0 <= cfg.cutoff
    ensures Within4(Sub4(UpdateFeature(f, value, s, yForget, curState, cfg).weight, f.weight), cfg.learningRate * cfg.cutoff)
  {
    var wd := HistoryStep(f.history, MomentOf(s, value, yForget), curState);
    var delta := ClampGradient4(Mul4(Err4(s), Extend(wd, value)), cfg.cutoff);
    var rated := ComputeLearningRate4(delta, f.accumulator, cfg.learningRate, cfg.sqrt);
    SettingsBound4(f.weight, rated.rate, delta, cfg);
  }

  /** One entry of a SparseVector: a feature index and its value. */
  datatype Entry = Entry(key: int, value: real)

  /** Some entry of `entries` names feature `j`. */
  predicate Visits(entries: seq<Entry>, j: int) {
    exists k :: 0 <= k < |entries| && entries[k].key == j
  }

  /** No entry of `entries` other than the `k`-th names the `k`-th entry's feature. */
  predicate OnlyAt(entries: seq<Entry>, k: int)
    requires 0 <= k < |entries|
  {
    forall m :: 0 <= m < |entries| && m != k ==> entries[m].key != entries[k].key
  }

  /** Every entry names a feature of a row `width` long. */
  predicate KeysInRange(entries: seq<Entry>, width: int) {
    forall k :: 0 <= k < |entries| ==> 0 <= entries[k].key < width
  }

  /**
   * The sparse-feature loop of BackwardPass over one unit's row: the entries
   * in order, each replacing the element it names by `update` of it and the
   * entry's value. An entry naming an element outside the row raises
   * IndexOutOfRangeException.
   */
  function ApplySparse<T>(row: seq<T>, entries: seq<Entry>, update: (T, real) -> T): (r: Result<seq<T>, Fault>)
    ensures r.Ok? <==> KeysInRange(entries, |row|)
    ensures r.Err? ==> r.error == IndexOutOfRange
    ensures r.Ok? ==> |r.value| == |row|
    ensures r.Ok? ==> forall j :: 0 <= j < |row| && !Visits(entries, j) ==> r.value[j] == row[j]
    ensures r.Ok? ==> forall k :: 0 <= k < |entries| && OnlyAt(entries, k) ==>
      r.value[entries[k].key] == update(row[entries[k].key], entries[k].value)
    decreases |entries|
  {
    if |entries| == 0 then Ok(row)
    else
      var e := entries[0];
      if !(0 <= e.key < |row|) then Err(IndexOutOfRange)
      else ApplySparse(row[e.key := update(row[e.key], e.value)], entries[1..], update)
  }

  /** DenseFeature as SparseVector entries: the first `size` values, each keyed by its position. */
  function Enumerate(dense: seq<real>, size: int): (es: seq<Entry>)
    requires size <= |dense|
    ensures |es| == if size < 0 then 0 else size
    ensures forall k :: 0 <= k < |es| ==> es[k] == Entry(k, dense[k])
  {
    if size <= 0 then [] else seq(size, k requires 0 <= k < size => Entry(k, dense[k]))
  }

  /**
   * The dense-feature loop of BackwardPass over one unit's row: features
   * 0 .. DenseFeatureSize-1 in order, skipped when the size is not positive.
   * A feature vector or a row shorter than the size raises
   * IndexOutOfRangeException.
   */
  function ApplyDense<T>(row: seq<T>, dense: seq<real>, size: int, update: (T, real) -> T): (r: Result<seq<T>, Fault>)
    ensures r.Ok? <==> size <= 0 || (size <= |dense| && size <= |row|)
    ensures r.Err? ==> r.error == IndexOutOfRange
    ensures r.Ok? ==> |r.value| == |row|
  {
    if size <= 0 then Ok(row)
    else if size > |dense| || size > |row| then Err(IndexOutOfRange)
    else Ok(seq(|row|, j requires 0 <= j < |row| => if j < size then update(row[j], dense[j]) else row[j]))
  }

  /** The dense loop is the sparse loop over the enumerated dense features. */
  lemma DenseIsSparse<T>(row: seq<T>, dense: seq<real>, size: int, update: (T, real) -> T)
    requires size <= |dense|
    ensures ApplyDense(row, dense, size, update) == ApplySparse(row, Enumerate(dense, size), update)
  {
    var es := Enumerate(dense, size);
    var d, sp := ApplyDense(row, dense, size, update), ApplySparse(row, es, update);
    assert KeysInRange(es, |row|) <==> size <= 0 || size <= |row| by {
      if 0 < size && size > |row| {
        assert es[|row|].key == |row|;
      }
    }
    if d.Ok? {
      forall j | 0 <= j < |row|
        ensures d.value[j] == sp.value[j]
      {
        if j < size {
          assert es[j].key == j;
          assert OnlyAt(es, j);
        } else {
          assert !Visits(es, j);
        }
      }
      assert d.value == sp.value;
    }
  }

  // ----- the unit's own weights -----

  /** peepholeLearningRate[i] and cellLearningRate[i]: the accumulators of a unit's own weights. */
  datatype UnitRates = UnitRates(peephole: Vec3, cell: Vec4)

  /** Rates whose accumulators are non-negative. */
  type TrackedRates = r: UnitRates | NonNegative3(r.peephole) && NonNegative4(r.cell)
    witness UnitRates(Zero3, Vec4(0.0, 0.0, 0.0, 0.0))

  /** The three peephole weights as a Vector3. */
  function Peepholes(w: UnitWeights): Vec3 {
    Vec3(w.wPeepholeIn, w.wPeepholeForget, w.wPeepholeOut)
  }

  /** The four recurrent weights as a Vector4. */
  function Recurrent(w: UnitWeights): Vec4 {
    Vec4(w.wCellIn, w.wCellForget, w.wCellState, w.wCellOut)
  }

  /** The peephole derivative accumulators as the first two channels of a Vector3. */
  function PeepholeHistory(c: Cell): Vec3 {
    Vec3(c.dSWPeepholeIn, c.dSWPeepholeForget, 0.0)
  }

  /** The recurrent derivative accumulators as a Vector3. */
  function RecurrentHistory(c: Cell): Vec3 {
    Vec3(c.dSWCellIn, c.dSWCellForget, c.dSWCellState)
  }

  /**
   * The peephole derivative accumulators after a step: each is damped by
   * the forget gate and receives the instantaneous derivative times the
   * previous cell state. There is no test of the time step: both channels
   * always take the continuing branch of the history rule.
   */
  function PeepholeHistoryStep(c: Cell, s: Signal): (h: Vec3)
    ensures var k := HistoryStep(PeepholeHistory(c), MomentOf(s, c.previousCellState, c.gates.yForget), 1);
      h.x == k.x && h.y == k.y
    ensures h.z == 0.0
  {
    var yForget := c.gates.yForget;
    Vec3(c.dSWPeepholeIn * yForget + s.derivative.x * c.previousCellState,
         c.dSWPeepholeForget * yForget + s.derivative.y * c.previousCellState,
         0.0)
  }

  /**
   * The recurrent derivative accumulators after a step, with the previous
   * cell output as the input: again the continuing branch of the history
   * rule on all three channels, at every time step.
   */
  function RecurrentHistoryStep(c: Cell, s: Signal, previousOutput: real): (h: Vec3)
    ensures h == HistoryStep(RecurrentHistory(c), MomentOf(s, previousOutput, c.gates.yForget), 1)
  {
    var yForget := c.gates.yForget;
    Vec3(c.dSWCellIn * yForget + s.derivative.x * previousOutput,
         c.dSWCellForget * yForget + s.derivative.y * previousOutput,
         c.dSWCellState * yForget + s.derivative.z * previousOutput)
  }

  /** The five derivative accumulators of the cell are zero, as Reset leaves them and the forward pass keeps them. */
  predicate NoHistory(c: Cell) {
    c.dSWPeepholeIn == 0.0 && c.dSWPeepholeForget == 0.0
    && c.dSWCellIn == 0.0 && c.dSWCellForget == 0.0 && c.dSWCellState == 0.0
  }

  /**
   * On a cell with no derivative history (the first step after Reset) the
   * recurrent accumulators hold just the instantaneous derivative, whatever
   * a stale history would have held: the unconditional recurrence agrees
   * with the time-step test of the feature histories.
   */
  lemma RecurrentHistoryStartsFresh(c: Cell, s: Signal, previousOutput: real, stale: Vec3)
    requires NoHistory(c)
    ensures RecurrentHistoryStep(c, s, previousOutput)
      == HistoryStep(stale, MomentOf(s, previousOutput, c.gates.yForget), 0)
  {
  }

  /** The same for the two peephole accumulators. */
  lemma PeepholeHistoryStartsFresh(c: Cell, s: Signal, stale: Vec3)
    requires NoHistory(c)
    ensures var h := HistoryStep(stale, MomentOf(s, c.previousCellState, c.gates.yForget), 0);
      PeepholeHistoryStep(c, s).x == h.x && PeepholeHistoryStep(c, s).y == h.y
  {
  }

  /** The three peephole weights and their accumulator after the peephole part of BackwardPass. */
  datatype Peephole = Peephole(weights: Vec3, accumulator: Vec3)

  /** The four recurrent weights and their accumulator after the recurrent part of BackwardPass. */
  datatype Recurrence = Recurrence(weights: Vec4, accumulator: Vec4)

  /** `vecCellDelta` of the peepholes: the error times (dSWPeepholeIn, dSWPeepholeForget, cellState), clamped, drives the step. */
  function UpdatePeepholes(c: Cell, acc: Vec3, s: Signal, cfg: Settings): (r: Peephole)
    requires NonNegative3(acc)
    ensures NonNegative3(r.accumulator) && Grows3(acc, r.accumulator)
  {
    var h := PeepholeHistoryStep(c, s);
    var delta := ClampGradient3(Mul3(Err3(s), Vec3(h.x, h.y, c.cellState)), cfg.cutoff);
    var rated := ComputeLearningRate3(delta, acc, cfg.learningRate, cfg.sqrt);
    Peephole(Move3(Peepholes(c.weights), rated.rate, delta), rated.accumulator)
  }

  /** `vecCellDelta4`: the error times (dSWCellIn, dSWCellForget, dSWCellState, previous output), clamped, drives the step. */
  function UpdateRecurrent(c: Cell, acc: Vec4, s: Signal, previousOutput: real, cfg: Settings): (r: Recurrence)
    requires NonNegative4(acc)
    ensures NonNegative4(r.accumulator) && Grows4(acc, r.accumulator)
  {
    var h := RecurrentHistoryStep(c, s, previousOutput);
    var delta := ClampGradient4(Mul4(Err4(s), Extend(h, previousOutput)), cfg.cutoff);
    var rated := ComputeLearningRate4(delta, acc, cfg.learningRate, cfg.sqrt);
    Recurrence(Move4(Recurrent(c.weights), rated.rate, delta), rated.accumulator)
  }

  /** With a positive rate and a non-negative cut-off, no peephole weight moves by more than their product. */
  lemma UpdatePeepholesBounded(c: Cell, acc: Vec3, s: Signal, cfg: Settings)
    requires NonNegative3(acc) && 0.0 < cfg.learningRate && 0.0 <= cfg.cutoff
    ensures Within3(Sub3(UpdatePeepholes(c, acc, s, cfg).weights, Peepholes(c.weights)), cfg.learningRate * cfg.cutoff)
  {
    var h := PeepholeHistoryStep(c, s);
    var delta := ClampGradient3(Mul3(Err3(s), Vec3(h.x, h.y, c.cellState)), cfg.cutoff);
    var rated := ComputeLearningRate3(delta, acc, cfg.learningRate, cfg.sqrt);
    SettingsBound3(Peepholes(c.weights), rated.rate, delta, cfg);
  }

  /** With a positive rate and a non-negative cut-off, no recurrent weight moves by more than their product. */
  lemma UpdateRecurrentBounded(c: Cell, acc: Vec4, s: Signal, previousOutput: real, cfg: Settings)
    requires NonNegative4(acc) && 0.0 < cfg.learningRate && 0.0 <= cfg.cutoff
    ensures Within4(Sub4(UpdateRecurrent(c, acc, s, previousOutput, cfg).weights, Recurrent(c.weights)), cfg.learningRate * cfg.cutoff)
  {
    var h := RecurrentHistoryStep(c, s, previousOutput);
    var delta := ClampGradient4(Mul4(Err4(s), Extend(h, previousOutput)), cfg.cutoff);
    var rated := ComputeLearningRate4(delta, acc, cfg.learningRate, cfg.sqrt);
    SettingsBound4(Recurrent(c.weights), rated.rate, delta, cfg);
  }

  /** The weights of a unit and their accumulators after the internal-weight part of BackwardPass. */
  datatype Internal = Internal(cell: Cell, rates: TrackedRates)

  /**
   * The internal-weight part of BackwardPass: both derivative-accumulator
   * groups advance, and the peephole and recurrent weights take their steps.
   * Gates and cell states are left alone.
   */
  function UpdateInternal(c: Cell, rates: TrackedRates, s: Signal, previousOutput: real, cfg: Settings): (r: Internal)
    ensures r.cell.gates == c.gates && r.cell.previousCellState == c.previousCellState && r.cell.cellState == c.cellState
    ensures Peepholes(r.cell.weights) == UpdatePeepholes(c, rates.peephole, s, cfg).weights
    ensures Recurrent(r.cell.weights) == UpdateRecurrent(c, rates.cell, s, previousOutput, cfg).weights
    ensures PeepholeHistory(r.cell) == PeepholeHistoryStep(c, s)
    ensures RecurrentHistory(r.cell) == RecurrentHistoryStep(c, s, previousOutput)
    ensures Grows3(rates.peephole, r.rates.peephole) && Grows4(rates.cell, r.rates.cell)
  {
    var p := UpdatePeepholes(c, rates.peephole, s, cfg);
    var q := UpdateRecurrent(c, rates.cell, s, previousOutput, cfg);
    var hp := PeepholeHistoryStep(c, s);
    var hr := RecurrentHistoryStep(c, s, previousOutput);
    var w := c.weights.(wPeepholeIn := p.weights.x, wPeepholeForget := p.weights.y, wPeepholeOut := p.weights.z,
                        wCellIn := q.weights.x, wCellForget := q.weights.y, wCellState := q.weights.z, wCellOut := q.weights.w);
    Internal(
      c.(weights := w, dSWPeepholeIn := hp.x, dSWPeepholeForget := hp.y,
         dSWCellIn := hr.x, dSWCellForget := hr.y, dSWCellState := hr.z),
      UnitRates(p.accumulator, q.accumulator))
  }

  // ----- one unit and the whole layer -----

  /**
   * The training state of one hidden unit: its cell; its rows of the sparse
   * and dense projection matrices, each cell with its history entry and
   * accumulator; and the accumulators of its own weights.
   */
  datatype Unit = Unit(cell: Cell, sparse: seq<Tracked>, dense: seq<Tracked>, rates: TrackedRates)

  /** What BackwardPass reads of the layer besides the units: the two feature sizes, the current features and curState. */
  datatype Step = Step(sparseSize: int, denseSize: int, sparse: seq<Entry>, dense: seq<real>, curState: int)

  /** The per-feature update of a unit, as the loops apply it. */
  function FeatureUpdate(s: Signal, yForget: real, curState: int, cfg: Settings): (Tracked, real) -> Tracked {
    (f: Tracked, value: real) => UpdateFeature(f, value, s, yForget, curState, cfg)
  }

  /**
   * The sparse loop, run only when SparseFeatureSize is positive. The history
   * of every feature an entry names (once) follows the time-step rule; the
   * features no entry names keep their weight, history and accumulator.
   */
  function SparsePass(u: Unit, s: Signal, x: Step, cfg: Settings): (r: Result<seq<Tracked>, Fault>)
    ensures r.Ok? <==> x.sparseSize <= 0 || KeysInRange(x.sparse, |u.sparse|)
    ensures r.Err? ==> r.error == IndexOutOfRange
    ensures r.Ok? ==> |r.value| == |u.sparse|
    ensures r.Ok? ==> forall j :: 0 <= j < |u.sparse| && (x.sparseSize <= 0 || !Visits(x.sparse, j)) ==>
      r.value[j] == u.sparse[j]
    ensures r.Ok? && x.sparseSize > 0 ==> forall k :: 0 <= k < |x.sparse| && OnlyAt(x.sparse, k) ==>
      var j := x.sparse[k].key;
      r.value[j].history == HistoryStep(u.sparse[j].history, MomentOf(s, x.sparse[k].value, u.cell.gates.yForget), x.curState)
  {
    if x.sparseSize > 0 then ApplySparse(u.sparse, x.sparse, FeatureUpdate(s, u.cell.gates.yForget, x.curState, cfg))
    else Ok(u.sparse)
  }

  /**
   * The dense loop: features 0 .. DenseFeatureSize-1 take the time-step rule
   * on their history, the rest of the row is left as it was.
   */
  function DensePass(u: Unit, s: Signal, x: Step, cfg: Settings): (r: Result<seq<Tracked>, Fault>)
    ensures r.Ok? <==> x.denseSize <= 0 || (x.denseSize <= |x.dense| && x.denseSize <= |u.dense|)
    ensures r.Err? ==> r.error == IndexOutOfRange
    ensures r.Ok? ==> |r.value| == |u.dense|
    ensures r.Ok? ==> forall j :: 0 <= j < |u.dense| && j >= x.denseSize ==> r.value[j] == u.dense[j]
    ensures r.Ok? ==> forall j :: 0 <= j < |u.dense| && j < x.denseSize ==>
      r.value[j].history == HistoryStep(u.dense[j].history, MomentOf(s, x.dense[j], u.cell.gates.yForget), x.curState)
  {
    var update := FeatureUpdate(s, u.cell.gates.yForget, x.curState, cfg);
    var r := ApplyDense(u.dense, x.dense, x.denseSize, update);
    if r.Ok? && x.denseSize > 0 then
      DenseIsSparse(u.dense, x.dense, x.denseSize, update);
      r
    else r
  }

  /** A SparseVector entry or DenseFeature position the unit's rows can hold. */
  predicate FeaturesFit(u: Unit, x: Step) {
    && (x.sparseSize <= 0 || KeysInRange(x.sparse, |u.sparse|))
    && (x.denseSize <= 0 || (x.denseSize <= |x.dense| && x.denseSize <= |u.dense|))
  }

  /**
   * BackwardPass for one unit: the sparse loop, the dense loop, then the
   * unit's own weights. The history entries of the features the step visits
   * follow the time-step rule; every other feature is left as it was.
   */
  function BackwardUnit(u: Unit, s: Signal, previousOutput: real, x: Step, cfg: Settings): (r: Result<Unit, Fault>)
    ensures r.Ok? <==> FeaturesFit(u, x)
    ensures r.Err? ==> r.error == IndexOutOfRange
    ensures r.Ok? ==> r.value.sparse == SparsePass(u, s, x, cfg).value && r.value.dense == DensePass(u, s, x, cfg).value
    ensures r.Ok? ==> var internal := UpdateInternal(u.cell, u.rates, s, previousOutput, cfg);
      r.value.cell == internal.cell && r.value.rates == internal.rates
    ensures r.Ok? ==> r.value.cell.gates == u.cell.gates
  {
    var sparse :- SparsePass(u, s, x, cfg);
    var dense :- DensePass(u, s, x, cfg);
    var internal := UpdateInternal(u.cell, u.rates, s, previousOutput, cfg);
    Ok(Unit(internal.cell, sparse, dense, internal.rates))
  }

  /**
   * The first `n` elements after `step`, each given its position; elements
   * from `n` on are untouched. The whole fails when any of those steps fails.
   */
  function UpdatePrefix<T>(xs: seq<T>, n: nat, step: (T, nat) -> Result<T, Fault>): (r: Result<seq<T>, Fault>)
    requires n <= |xs|
    ensures r.Ok? <==> forall i :: 0 <= i < n ==> step(xs[i], i).Ok?
    ensures r.Ok? ==> |r.value| == |xs|
    ensures r.Ok? ==> forall i :: n <= i < |xs| ==> r.value[i] == xs[i]
    ensures r.Ok? ==> forall i :: 0 <= i < n ==> step(xs[i], i) == Ok(r.value[i])
    ensures r.Err? ==> exists i :: 0 <= i < n && step(xs[i], i) == Err(r.error)
    decreases n
  {
    if n == 0 then Ok(xs)
    else
      var done :- UpdatePrefix(xs, n - 1, step);
      var y :- step(xs[n - 1], n - 1);
      Ok(done[n - 1 := y])
  }

  /** The step BackwardPass takes on unit `i`, with that unit's error signal and previous output. */
  function UnitStep(signals: seq<Signal>, outputs: seq<real>, x: Step, cfg: Settings): (Unit, nat) -> Result<Unit, Fault> {
    (u: Unit, i: nat) =>
      if i < |signals| && i < |outputs| then BackwardUnit(u, signals[i], outputs[i], x, cfg) else Err(IndexOutOfRange)
  }

  /**
   * BackwardPass(numStates, curState): the units 0 .. LayerSize-1, each
   * independent of the others. A LayerSize beyond the cell array, the error
   * array or the previous outputs raises IndexOutOfRangeException.
   */
  function BackwardPass(units: seq<Unit>, signals: seq<Signal>, outputs: seq<real>, layerSize: int, x: Step, cfg: Settings)
    : (r: Result<seq<Unit>, Fault>)
    ensures r.Ok? <==> (layerSize <= |units| && layerSize <= |signals| && layerSize <= |outputs|
      && forall i :: 0 <= i < layerSize ==> FeaturesFit(units[i], x))
    ensures r.Err? ==> r.error == IndexOutOfRange
    ensures r.Ok? ==> |r.value| == |units|
    ensures r.Ok? ==> forall i :: 0 <= i < |units| && i >= layerSize ==> r.value[i] == units[i]
    ensures r.Ok? ==> forall i :: 0 <= i < layerSize ==> BackwardUnit(units[i], signals[i], outputs[i], x, cfg) == Ok(r.value[i])
  {
    if layerSize > |units| || layerSize > |signals| || layerSize > |outputs| then Err(IndexOutOfRange)
    else UpdatePrefix(units, if layerSize < 0 then 0 else layerSize, UnitStep(signals, outputs, x, cfg))
  }
}
