/**
 * The state of an LSTMLayer that persistence and Reset act on: the three
 * sizes, the cells, the cell outputs and the two projection matrices. A
 * matrix that was never allocated is `None`.
 */
module Layers {
  import opened Wrappers
  import opened Tokens
  import opened Vectors
  import opened Cells

  datatype Layer = Layer(
    layerSize: int32,
    sparseFeatureSize: int32,
    denseFeatureSize: int32,
    cells: seq<Cell>,
    cellOutput: seq<real>,
    sparseFeatureWeights: Option<Matrix>,
    denseFeatureWeights: Option<Matrix>)

  /** Reset's loop `i < LayerSize` stays inside both arrays. */
  predicate ResetInBounds(l: Layer) {
    l.layerSize <= |l.cells| && l.layerSize <= |l.cellOutput|
  }

  /** The first LayerSize units have a zero output and a cleared cell. */
  predicate AtRest(l: Layer)
    requires ResetInBounds(l)
  {
    forall i :: 0 <= i < l.layerSize ==> l.cellOutput[i] == 0.0 && Cleared(l.cells[i])
  }

  /**
   * Reset(updateNet): for each of the first LayerSize units, zero its output
   * and clear its cell (weights and gate values stay). Units past LayerSize,
   * the sizes and the matrices are untouched. A LayerSize beyond either
   * array raises IndexOutOfRangeException.
   */
  function Reset(l: Layer): (r: Result<Layer, Fault>)
    ensures r.Ok? <==> ResetInBounds(l)
    ensures r.Err? ==> r.error == IndexOutOfRange
    ensures r.Ok? ==> ResetInBounds(r.value) && AtRest(r.value)
    ensures r.Ok? ==> r.value.(cells := l.cells, cellOutput := l.cellOutput) == l
    ensures r.Ok? ==> |r.value.cells| == |l.cells| && |r.value.cellOutput| == |l.cellOutput|
    ensures r.Ok? ==> forall i :: 0 <= i < |l.cells| ==>
      if i < l.layerSize then SameWeightsAndGates(r.value.cells[i], l.cells[i]) else r.value.cells[i] == l.cells[i]
    ensures r.Ok? ==> forall i :: 0 <= i < |l.cellOutput| && i >= l.layerSize ==> r.value.cellOutput[i] == l.cellOutput[i]
  {
    if !ResetInBounds(l) then Err(IndexOutOfRange)
    else
      var cells := seq(|l.cells|, i requires 0 <= i < |l.cells| =>
        if i < l.layerSize then InitializeLSTMCell(l.cells[i]) else l.cells[i]);
      var outputs := seq(|l.cellOutput|, i requires 0 <= i < |l.cellOutput| =>
        if i < l.layerSize then 0.0 else l.cellOutput[i]);
      Ok(l.(cells := cells, cellOutput := outputs))
  }

  /** Reset leaves a layer unchanged exactly when it is already at rest. */
  lemma ResetFixesRest(l: Layer)
    requires ResetInBounds(l)
    ensures Reset(l) == Ok(l) <==> AtRest(l)
  {
    var r := Reset(l).value;
    if AtRest(l) {
      forall i | 0 <= i < |l.cells|
        ensures r.cells[i] == l.cells[i]
      {
        if i < l.layerSize {
          InitializeFixesCleared(l.cells[i]);
        }
      }
      assert r.cells == l.cells;
      assert r.cellOutput == l.cellOutput;
    }
  }

  /** Resetting twice is resetting once. */
  lemma ResetIdempotent(l: Layer)
    requires ResetInBounds(l)
    ensures Reset(Reset(l).value) == Reset(l)
  {
    ResetFixesRest(Reset(l).value);
  }
}
