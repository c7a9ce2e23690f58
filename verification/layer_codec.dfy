/**
 * Save and Load of a whole LSTMLayer: the header (LayerSize,
 * SparseFeatureSize, DenseFeatureSize as Int32s), seven Doubles per unit,
 * then the sparse matrix when SparseFeatureSize > 0 and the dense matrix
 * when DenseFeatureSize > 0, both written raw.
 */
module LayerCodec {
  import opened Wrappers
  import opened Tokens
  import opened Vectors
  import opened Cells
  import opened Layers
  import opened MatrixCodec

  /** The seven Doubles SaveHiddenLayerWeights writes for one unit. */
  function UnitTokens(w: UnitWeights): seq<Token> {
    [F64(w.wPeepholeIn), F64(w.wPeepholeForget), F64(w.wPeepholeOut),
     F64(w.wCellIn), F64(w.wCellForget), F64(w.wCellState), F64(w.wCellOut)]
  }

  function EncodeUnits(cells: seq<Cell>): (ts: seq<Token>)
    ensures |ts| == 7 * |cells|
  {
    if |cells| == 0 then [] else UnitTokens(cells[0].weights) + EncodeUnits(cells[1..])
  }

  /** SaveHiddenLayerWeights(fo): the weights of units 0 .. LayerSize-1, which must all exist. */
  function SaveHiddenLayerWeights(cells: seq<Cell>, layerSize: int): (r: Result<seq<Token>, Fault>)
    ensures r.Ok? <==> layerSize <= |cells|
    ensures r.Err? ==> r.error == IndexOutOfRange
  {
    if layerSize > |cells| then Err(IndexOutOfRange)
    else if layerSize <= 0 then Ok([])
    else Ok(EncodeUnits(cells[..layerSize]))
  }

  /**
   * The loop body of CreateCell(br): seven ReadDouble calls in the order
   * they are saved. It reads exactly when the stream starts with seven Doubles.
   */
  function ReadUnit(s: seq<Token>): (r: Result<Read<UnitWeights>, Fault>)
    ensures r.Ok? <==> |s| >= 7 && s[0].F64? && s[1].F64? && s[2].F64? && s[3].F64? && s[4].F64? && s[5].F64? && s[6].F64?
    ensures r.Ok? ==> r.value.rest == s[7..]
    ensures r.Ok? ==> r.value.item == UnitWeights(s[0].d, s[1].d, s[2].d, s[3].d, s[4].d, s[5].d, s[6].d)
    ensures r.Err? ==> r.error == EndOfStream || r.error == KindMismatch
  {
    var peepholeIn :- ReadDouble(s);
    var peepholeForget :- ReadDouble(peepholeIn.rest);
    var peepholeOut :- ReadDouble(peepholeForget.rest);
    var cellIn :- ReadDouble(peepholeOut.rest);
    var cellForget :- ReadDouble(cellIn.rest);
    var cellState :- ReadDouble(cellForget.rest);
    var cellOut :- ReadDouble(cellState.rest);
    Ok(Read(UnitWeights(peepholeIn.item, peepholeForget.item, peepholeOut.item,
                        cellIn.item, cellForget.item, cellState.item, cellOut.item), cellOut.rest))
  }

  /** CreateCell(br) on the cells `new LSTMCell()` gave: n units, each reading its seven weights. */
  function CreateCell(s: seq<Token>, n: nat): (r: Result<Read<seq<Cell>>, Fault>)
    ensures r.Ok? ==> |r.value.item| == n
    ensures r.Ok? ==> forall i :: 0 <= i < n ==> r.value.item[i] == LoadedCell(r.value.item[i].weights)
    decreases n
  {
    if n == 0 then Ok(Read([], s))
    else
      var w :- ReadUnit(s);
      var ws :- CreateCell(w.rest, n - 1);
      Ok(Read([LoadedCell(w.item)] + ws.item, ws.rest))
  }

  /** One unit's seven weights read back as saved. */
  lemma UnitRoundTrip(w: UnitWeights, rest: seq<Token>)
    ensures ReadUnit(UnitTokens(w) + rest) == Ok(Read(w, rest))
  {
    var s := UnitTokens(w) + rest;
    assert s[1..][1..][1..][1..][1..][1..][1..] == rest;
  }

  /** A cell that is fresh apart from its weights. */
  predicate Pristine(c: Cell) {
    c == LoadedCell(c.weights)
  }

  /** The saved units read back as fresh cells holding the saved weights, and reading stops where they end. */
  lemma {:induction false} UnitsRoundTrip(cells: seq<Cell>, rest: seq<Token>)
    ensures var r := CreateCell(EncodeUnits(cells) + rest, |cells|);
      && r.Ok? && r.value.rest == rest && |r.value.item| == |cells|
      && forall i :: 0 <= i < |cells| ==> r.value.item[i] == LoadedCell(cells[i].weights)
    decreases |cells|
  {
    if |cells| > 0 {
      var tail := EncodeUnits(cells[1..]) + rest;
      assert EncodeUnits(cells) + rest == UnitTokens(cells[0].weights) + tail;
      UnitRoundTrip(cells[0].weights, tail);
      UnitsRoundTrip(cells[1..], rest);
      var r := CreateCell(EncodeUnits(cells) + rest, |cells|);
      forall i | 0 <= i < |cells|
        ensures r.value.item[i] == LoadedCell(cells[i].weights)
      {
        if i > 0 {
          assert cells[1..][i - 1] == cells[i];
        }
      }
    }
  }

  // ----- the layer -----

  /** The cell outputs as allocated: n zeros. */
  function Zeros(n: nat): (r: seq<real>)
    ensures |r| == n && forall i :: 0 <= i < n ==> r[i] == 0.0
  {
    seq(n, _ => 0.0)
  }

  /** Fresh cells holding the weights of the first n of `cells`. */
  function LoadedCells(cells: seq<Cell>, n: nat): (r: seq<Cell>)
    requires n <= |cells|
    ensures |r| == n && forall i :: 0 <= i < n ==> r[i] == LoadedCell(cells[i].weights)
  {
    seq(n, i requires 0 <= i < n => LoadedCell(cells[i].weights))
  }

  /** The C# arrays the layer holds: every allocated matrix has array-sized dimensions. */
  predicate ArraysShaped(l: Layer) {
    && (l.sparseFeatureWeights.Some? ==> ArrayShaped(l.sparseFeatureWeights.value))
    && (l.denseFeatureWeights.Some? ==> ArrayShaped(l.denseFeatureWeights.value))
  }

  /** SaveLSTMWeights(weight, fo) on a field that may never have been allocated; Save always writes raw. */
  function SaveMatrix(weight: Option<Matrix>): (r: Result<seq<Token>, Fault>)
    requires weight.Some? ==> ArrayShaped(weight.value)
    ensures weight.None? ==> r == Err(NullReference)
    ensures weight.Some? ==> r == SaveLSTMWeights(weight.value, Plain)
  {
    match weight
    case None => Err(NullReference)
    case Some(m) => SaveLSTMWeights(m, Plain)
  }

  /** A matrix field Save can write: when its size is positive, an allocated matrix whose rows cover the first row's length. */
  predicate MatrixSaves(size: int32, field: Option<Matrix>) {
    size > 0 ==> field.Some? && |field.value| > 0 && CoversHeight(field.value, |field.value[0]|)
  }

  /** Save(fo). A failed save is modelled as no output at all. */
  function Save(l: Layer): (r: Result<seq<Token>, Fault>)
    requires ArraysShaped(l)
    ensures r.Ok? <==> (l.layerSize <= |l.cells|
      && MatrixSaves(l.sparseFeatureSize, l.sparseFeatureWeights)
      && MatrixSaves(l.denseFeatureSize, l.denseFeatureWeights))
    ensures r.Ok? ==> |r.value| >= 3 && r.value[..3] == [I32(l.layerSize), I32(l.sparseFeatureSize), I32(l.denseFeatureSize)]
    ensures r.Err? ==> r.error == IndexOutOfRange || r.error == NullReference
  {
    var units :- SaveHiddenLayerWeights(l.cells, l.layerSize);
    var sparse :- if l.sparseFeatureSize > 0 then SaveMatrix(l.sparseFeatureWeights) else Ok([]);
    var dense :- if l.denseFeatureSize > 0 then SaveMatrix(l.denseFeatureWeights) else Ok([]);
    Ok([I32(l.layerSize), I32(l.sparseFeatureSize), I32(l.denseFeatureSize)] + units + sparse + dense)
  }

  /** `if (size > 0) field = LoadLSTMWeights(br)`: otherwise the field keeps the matrix it held. */
  function LoadMatrixIf(s: seq<Token>, size: int32, kept: Option<Matrix>): (r: Result<Read<Option<Matrix>>, Fault>)
    ensures size <= 0 ==> r == Ok(Read(kept, s))
    ensures size > 0 && r.Ok? ==> r.value.item.Some?
  {
    if size <= 0 then Ok(Read(kept, s))
    else
      var m :- LoadLSTMWeights(s);
      Ok(Read(Some(m.item), m.rest))
  }

  /**
   * Load(br) on the layer `prior`. The sizes are read first; a negative
   * LayerSize fails when the cell arrays are allocated. The cells are new
   * and take the seven weights read for each unit, the outputs are
   * reallocated as zeros, and each matrix is read only when its size is
   * positive.
   */
  function Load(prior: Layer, s: seq<Token>): (r: Result<Read<Layer>, Fault>)
    ensures r.Ok? ==> var l := r.value.item;
      && l.layerSize >= 0 && |l.cells| == l.layerSize && |l.cellOutput| == l.layerSize
      && (l.sparseFeatureSize <= 0 ==> l.sparseFeatureWeights == prior.sparseFeatureWeights)
      && (l.denseFeatureSize <= 0 ==> l.denseFeatureWeights == prior.denseFeatureWeights)
  {
    var n :- ReadInt32(s);
    var sparseSize :- ReadInt32(n.rest);
    var denseSize :- ReadInt32(sparseSize.rest);
    if n.item < 0 then Err(NegativeSize)
    else
      var cells :- CreateCell(denseSize.rest, n.item);
      var sparse :- LoadMatrixIf(cells.rest, sparseSize.item, prior.sparseFeatureWeights);
      var dense :- LoadMatrixIf(sparse.rest, denseSize.item, prior.denseFeatureWeights);
      Ok(Read(Layer(n.item, sparseSize.item, denseSize.item, cells.item, Zeros(n.item), sparse.item, dense.item), dense.rest))
  }

  // ----- round trip -----

  /** What a matrix field holds after a save and a load over a layer whose field held `kept`. */
  function RestoredMatrix(size: int32, saved: Option<Matrix>, kept: Option<Matrix>): Option<Matrix>
    requires MatrixSaves(size, saved)
  {
    if size <= 0 then kept else Some(Crop(saved.value, |saved.value[0]|))
  }

  /**
   * What Load reads back over `prior` from what Save wrote of `l`: the same
   * sizes, fresh cells holding the saved weights, zero outputs, and each
   * matrix whose size is positive as far as the writer visited it.
   */
  function Restored(l: Layer, prior: Layer): Layer
    requires 0 <= l.layerSize <= |l.cells|
    requires MatrixSaves(l.sparseFeatureSize, l.sparseFeatureWeights)
    requires MatrixSaves(l.denseFeatureSize, l.denseFeatureWeights)
  {
    Layer(l.layerSize, l.sparseFeatureSize, l.denseFeatureSize,
      LoadedCells(l.cells, l.layerSize),
      Zeros(l.layerSize),
      RestoredMatrix(l.sparseFeatureSize, l.sparseFeatureWeights, prior.sparseFeatureWeights),
      RestoredMatrix(l.denseFeatureSize, l.denseFeatureWeights, prior.denseFeatureWeights))
  }

  /** A matrix field written by Save reads back under LoadMatrixIf, leaving what follows. */
  lemma MatrixFieldRoundTrip(size: int32, field: Option<Matrix>, kept: Option<Matrix>, rest: seq<Token>)
    requires (field.Some? ==> ArrayShaped(field.value)) && MatrixSaves(size, field)
    ensures size > 0 ==> SaveMatrix(field).Ok?
    ensures var saved := if size > 0 then SaveMatrix(field).value else [];
      LoadMatrixIf(saved + rest, size, kept) == Ok(Read(RestoredMatrix(size, field, kept), rest))
  {
    if size > 0 {
      PlainSaveLoad(field.value, rest);
    } else {
      assert [] + rest == rest;
    }
  }

  /** The units written for the first n cells read back as fresh cells holding their weights. */
  lemma UnitsPrefixRoundTrip(cells: seq<Cell>, n: nat, rest: seq<Token>)
    requires n <= |cells|
    ensures var units := if n == 0 then [] else EncodeUnits(cells[..n]);
      CreateCell(units + rest, n) == Ok(Read(LoadedCells(cells, n), rest))
  {
    var units := if n == 0 then [] else EncodeUnits(cells[..n]);
    if n == 0 {
      assert units + rest == rest;
    } else {
      UnitsRoundTrip(cells[..n], rest);
    }
    var r := CreateCell(units + rest, n);
    assert r.value.item == LoadedCells(cells, n);
  }

  /** What Save writes, spelled out: header, units, then each matrix whose size is positive. */
  lemma LayerLayout(l: Layer)
    requires ArraysShaped(l) && Save(l).Ok?
    ensures l.layerSize <= |l.cells|
    ensures l.sparseFeatureSize > 0 ==> SaveMatrix(l.sparseFeatureWeights).Ok?
    ensures l.denseFeatureSize > 0 ==> SaveMatrix(l.denseFeatureWeights).Ok?
    ensures var units := if l.layerSize <= 0 then [] else EncodeUnits(l.cells[..l.layerSize]);
      var sparse := if l.sparseFeatureSize > 0 then SaveMatrix(l.sparseFeatureWeights).value else [];
      var dense := if l.denseFeatureSize > 0 then SaveMatrix(l.denseFeatureWeights).value else [];
      Save(l).value == [I32(l.layerSize), I32(l.sparseFeatureSize), I32(l.denseFeatureSize)] + units + sparse + dense
  {
  }

  lemma Regroup(a: seq<Token>, b: seq<Token>, c: seq<Token>, d: seq<Token>, e: seq<Token>)
    ensures a + b + c + d + e == a + (b + (c + (d + e)))
  {
  }

  /** Load, given what each of its steps reads. */
  lemma LoadSteps(prior: Layer, n: int32, sparseSize: int32, denseSize: int32, body: seq<Token>,
                  cells: seq<Cell>, t1: seq<Token>, sparse: Option<Matrix>, t2: seq<Token>, dense: Option<Matrix>, rest: seq<Token>)
    requires n >= 0
    requires CreateCell(body, n) == Ok(Read(cells, t1))
    requires LoadMatrixIf(t1, sparseSize, prior.sparseFeatureWeights) == Ok(Read(sparse, t2))
    requires LoadMatrixIf(t2, denseSize, prior.denseFeatureWeights) == Ok(Read(dense, rest))
    ensures Load(prior, [I32(n), I32(sparseSize), I32(denseSize)] + body)
         == Ok(Read(Layer(n, sparseSize, denseSize, cells, Zeros(n), sparse, dense), rest))
  {
    assert ([I32(n), I32(sparseSize), I32(denseSize)] + body)[1..][1..][1..] == body;
  }

  /** Loading what Save wrote restores the sizes, the unit weights and every matrix whose size is positive. */
  lemma SaveLoadRoundTrip(l: Layer, prior: Layer, rest: seq<Token>)
    requires ArraysShaped(l) && Save(l).Ok? && l.layerSize >= 0
    ensures Load(prior, Save(l).value + rest) == Ok(Read(Restored(l, prior), rest))
  {
    LayerLayout(l);
    var n := l.layerSize;
    var units := if n <= 0 then [] else EncodeUnits(l.cells[..n]);
    var sparse := if l.sparseFeatureSize > 0 then SaveMatrix(l.sparseFeatureWeights).value else [];
    var dense := if l.denseFeatureSize > 0 then SaveMatrix(l.denseFeatureWeights).value else [];
    var header := [I32(n), I32(l.sparseFeatureSize), I32(l.denseFeatureSize)];
    assert Save(l).value == header + units + sparse + dense;
    Regroup(header, units, sparse, dense, rest);
    UnitsPrefixRoundTrip(l.cells, n, sparse + (dense + rest));
    MatrixFieldRoundTrip(l.sparseFeatureSize, l.sparseFeatureWeights, prior.sparseFeatureWeights, dense + rest);
    MatrixFieldRoundTrip(l.denseFeatureSize, l.denseFeatureWeights, prior.denseFeatureWeights, rest);
    LoadSteps(prior, n, l.sparseFeatureSize, l.denseFeatureSize, units + (sparse + (dense + rest)),
      LoadedCells(l.cells, n), sparse + (dense + rest),
      RestoredMatrix(l.sparseFeatureSize, l.sparseFeatureWeights, prior.sparseFeatureWeights), dense + rest,
      RestoredMatrix(l.denseFeatureSize, l.denseFeatureWeights, prior.denseFeatureWeights), rest);
  }

  /** A matrix whose size is positive is allocated, has a row and is rectangular. */
  predicate RectangularField(size: int32, field: Option<Matrix>) {
    size > 0 ==> field.Some? && |field.value| > 0 && Rectangular(field.value, |field.value[0]|)
  }

  /**
   * A layer that Load could have produced: as many cells and outputs as
   * LayerSize, every cell fresh apart from its weights, every output zero,
   * and rectangular matrices where the sizes say there are matrices.
   */
  predicate Reloadable(l: Layer) {
    && ArraysShaped(l)
    && 0 <= l.layerSize && |l.cells| == l.layerSize && |l.cellOutput| == l.layerSize
    && (forall i :: 0 <= i < |l.cells| ==> Pristine(l.cells[i]))
    && (forall i :: 0 <= i < |l.cellOutput| ==> l.cellOutput[i] == 0.0)
    && RectangularField(l.sparseFeatureSize, l.sparseFeatureWeights)
    && RectangularField(l.denseFeatureSize, l.denseFeatureWeights)
  }

  /** Saving such a layer and loading it back over itself gives the same layer, and reading stops where it ends. */
  lemma SaveLoadIdentity(l: Layer, rest: seq<Token>)
    requires Reloadable(l)
    ensures Save(l).Ok?
    ensures Load(l, Save(l).value + rest) == Ok(Read(l, rest))
  {
    SaveLoadRoundTrip(l, l, rest);
    assert LoadedCells(l.cells, l.layerSize) == l.cells;
    assert Zeros(l.layerSize) == l.cellOutput;
    if l.sparseFeatureSize > 0 {
      CropRectangular(l.sparseFeatureWeights.value);
    }
    if l.denseFeatureSize > 0 {
      CropRectangular(l.denseFeatureWeights.value);
    }
  }

  /** A matrix whose size is not positive is neither written nor needed: Save ignores the field. */
  lemma UnsizedMatrixIgnored(l: Layer, other: Option<Matrix>)
    requires ArraysShaped(l) && (other.Some? ==> ArrayShaped(other.value))
    ensures l.sparseFeatureSize <= 0 ==> Save(l) == Save(l.(sparseFeatureWeights := other))
    ensures l.denseFeatureSize <= 0 ==> Save(l) == Save(l.(denseFeatureWeights := other))
    ensures l.sparseFeatureSize <= 0 && l.denseFeatureSize <= 0 && Save(l).Ok? ==>
      |Save(l).value| == 3 + 7 * (if l.layerSize <= 0 then 0 else l.layerSize)
  {
  }
}
