/**
 * LSTMCell: the seven internal weights of one hidden unit, the gate values
 * of the last forward pass, the recurrent cell state and the partial
 * derivatives the backward pass accumulates.
 */
module Cells {

  /** The seven weights SaveHiddenLayerWeights writes for a unit, in the order it writes them. */
  datatype UnitWeights = UnitWeights(
    wPeepholeIn: real, wPeepholeForget: real, wPeepholeOut: real,
    wCellIn: real, wCellForget: real, wCellState: real, wCellOut: real)

  /** Net inputs and activations of the three gates and the cell candidate. */
  datatype Gates = Gates(
    netIn: real, netForget: real, netCellState: real, netOut: real,
    yIn: real, yForget: real, yCellState: real, yOut: real)

  datatype Cell = Cell(
    weights: UnitWeights,
    gates: Gates,
    previousCellState: real,
    cellState: real,
    dSWPeepholeIn: real,
    dSWPeepholeForget: real,
    dSWCellIn: real,
    dSWCellForget: real,
    dSWCellState: real)

  const ZeroWeights: UnitWeights := UnitWeights(0.0, 0.0, 0.0, 0.0, 0.0, 0.0, 0.0)

  const ZeroGates: Gates := Gates(0.0, 0.0, 0.0, 0.0, 0.0, 0.0, 0.0, 0.0)

  /** `new LSTMCell()`: every field holds its default, zero. */
  const NewCell: Cell := Cell(ZeroWeights, ZeroGates, 0.0, 0.0, 0.0, 0.0, 0.0, 0.0, 0.0)

  /** The recurrent state and all five derivative accumulators are zero. */
  predicate Cleared(c: Cell) {
    && c.previousCellState == 0.0 && c.cellState == 0.0
    && c.dSWPeepholeIn == 0.0 && c.dSWPeepholeForget == 0.0
    && c.dSWCellIn == 0.0 && c.dSWCellForget == 0.0 && c.dSWCellState == 0.0
  }

  /** The two cells agree on what InitializeLSTMCell leaves alone: weights and gate values. */
  predicate SameWeightsAndGates(a: Cell, b: Cell) {
    a.weights == b.weights && a.gates == b.gates
  }

  /** InitializeLSTMCell(c): clear the recurrent state and the derivatives, keep the rest. */
  function InitializeLSTMCell(c: Cell): (r: Cell)
    ensures Cleared(r) && SameWeightsAndGates(r, c)
  {
    c.(previousCellState := 0.0, cellState := 0.0,
       dSWPeepholeIn := 0.0, dSWPeepholeForget := 0.0,
       dSWCellIn := 0.0, dSWCellForget := 0.0, dSWCellState := 0.0)
  }

  /** A cell is left unchanged by InitializeLSTMCell exactly when it is already cleared. */
  lemma InitializeFixesCleared(c: Cell)
    ensures InitializeLSTMCell(c) == c <==> Cleared(c)
  {
  }

  /** A cell as CreateCell leaves it on load: a new cell holding the seven weights read. */
  function LoadedCell(w: UnitWeights): (r: Cell)
    ensures r.weights == w && r.gates == ZeroGates && Cleared(r)
  {
    NewCell.(weights := w)
  }
}
