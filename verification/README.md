# LSTMLayer persistence and training-state model

A Dafny model of the LSTM hidden layer of RNNSharp (`RNNSharp/LSTMLayer.cs`).
It covers three parts of the layer.

- **Binary persistence.** `Save` and `Load` write and read the layer as one
  stream. The stream holds a header of three int32 sizes, then seven float64
  weights per hidden unit, then the sparse and the dense projection matrix.
  Each matrix is present only when its size is positive. A matrix is written
  by `SaveLSTMWeights` and read by `LoadLSTMWeights`. It is stored either raw
  (four float32 per cell, X, Y, Z, W) or vector-quantised (four codebooks,
  then four index bytes per cell).
- **Reset.** `Reset` and `InitializeLSTMCell` return the units to the start of
  a sequence.
- **The weight update of `BackwardPass`, structurally.** This part covers:
  - the gradient cut-off;
  - the AdaGrad-style accumulator of `ComputeLearningRate`;
  - the per-feature derivative history, which carries the previous history
    damped by the forget gate only from the second time step of a sequence;
  - the derivative accumulators and weight steps of each unit's own peephole
    and recurrent weights;
  - the per-unit map over the layer.

The stream is a sequence of tokens: `I32`, `F64`, `F32` and `U8` (a byte).
Floating-point values are carried as `real` and are only copied, never
rounded. Every exception the persistence code and `Reset` can raise is a
`Fault` in a `Result`:
- `EndOfStream` for `EndOfStreamException`;
- `NegativeSize` for a negative array length;
- `IndexOutOfRange` for array indexing;
- `ArgumentOutOfRange` for `List<float>` indexing;
- `NullReference` for a matrix that was never allocated.

In `BackwardPass` only the out-of-range feature indices of a unit are
modelled, as `IndexOutOfRange`; what else the pass can raise is listed under
"Left out".

`KindMismatch` (a token of the wrong kind) exists only because of the token
abstraction. A real `BinaryReader` would reinterpret the bytes instead.

The training arithmetic is over `real`. The square root of
`Vector4.SquareRoot` is a parameter (`SquareRoot`), known to be
non-negative, and also monotone where a lemma needs it. The learning rate
and the gradient cut-off are parameters (`Settings`), not process-wide
state. The error signal of a unit is an input (`Signal`): `cellStateError`,
`gradientOutputGate` and the three instantaneous derivatives `vecDerivate`.
That signal is everything the sigmoid and tanh arithmetic of the pass
produces.

Modules:
- `Wrappers`: `Option` and `Result`.
- `Tokens`: the stream and the `BinaryReader` calls.
- `Vectors`: `Vector3`, `Vector4` and matrices.
- `Quantization`: the codebooks.
- `MatrixCodec` and `MatrixLoading`: `SaveLSTMWeights`/`LoadLSTMWeights`.
- `Cells`: `LSTMCell`.
- `Layers`: the layer state and `Reset`.
- `LayerCodec`: `Save`/`Load`.
- `LearningRate`: the cut-off and `ComputeLearningRate`.
- `History`: the derivative-history rule over a sequence.
- `Backward`: `BackwardPass`.

Some behaviour of the code that a reader might not expect:
- `LoadLSTMWeights` never checks a matrix's width against `LayerSize`, and
  neither does the model.
- Of the derivative histories, `Reset` clears only the five accumulators in
  each cell (besides zeroing the outputs and both cell states). The
  per-feature histories (`sparseFeatureToHiddenDeri`,
  `denseFeatureToHiddenDeri`) are left as they were. A dense feature's entry
  is updated at every step, and at step 0 (`curState == 0`) the old entry is
  dropped, so for dense features the stale value never matters
  (`History.RunForgetsStart`). A sparse feature's entry is updated only at the
  steps where the feature occurs, so a sparse feature absent at step 0 carries
  its stale entry into the sequence.
- `Save` never passes `bVQ`, so it always writes raw matrices. Compression is
  modelled at the level of `SaveLSTMWeights`, and `Load` reads either form.
- Saving a reloaded compressed matrix in compressed mode builds four new
  quantisers from the decoded values. Compressing again changes nothing
  when each new quantiser maps every entry of the first save's codebook back
  to that same value (`Quantization.KeepsBook`). Whether `BuildCodebook` and
  `ComputeVQ` ensure this belongs to the external library, so the model
  proves only this direction.

## Model

| member | source | states |
|---|---|---|
| Tokens.ReadSingles | RNNSharp/LSTMLayer.cs:309-312 | a codebook loop reads exactly `vqSize` Singles (none for a bound <= 0) and fails only at the end of the stream or on a token of the wrong kind |
| Tokens.SinglesRoundTrip | RNNSharp/LSTMLayer.cs:244-247 | Singles written one after another read back, in order, leaving what follows |
| Tokens.ToByte | RNNSharp/LSTMLayer.cs:271-274 | the `(byte)` cast is the identity on 0..255 and otherwise keeps the value modulo 256 |
| Quantization.ReadCodebooks | RNNSharp/LSTMLayer.cs:309-327 | the four codebook loops read four codebooks of `vqSize` entries each |
| Quantization.CodebooksRoundTrip | RNNSharp/LSTMLayer.cs:241-265 | four codebooks written X, Y, Z, W read back unchanged and in the same order |
| Quantization.WrittenBooks | RNNSharp/LSTMLayer.cs:243-265 | the writer emits exactly 256 entries of each codebook |
| Quantization.RequantizeIsIdentity | RNNSharp/LSTMLayer.cs:213-276 | a re-save builds new quantisers `q2` from the decoded values; if each keeps the entries of the first quantiser `q1`'s codebook, compressing a cell with `q1` and then with `q2` gives the same values as compressing it once |
| MatrixCodec.Crop | RNNSharp/LSTMLayer.cs:200-209 | the writer visits exactly the first `h` cells of every row, where `h` is the length of row 0 |
| MatrixCodec.ReadRow | RNNSharp/LSTMLayer.cs:292-299 | one row read back has exactly `h` cells |
| MatrixCodec.ReadRows | RNNSharp/LSTMLayer.cs:290-300 | a loaded matrix has `w` rows (none for `w <= 0`), each of `h` cells |
| MatrixCodec.SaveLSTMWeights | RNNSharp/LSTMLayer.cs:185-278 | saving succeeds exactly when the matrix has a row 0, every row covers its length, and a compressed save has its four codebooks; otherwise IndexOutOfRange |
| MatrixCodec.EncodeCell | RNNSharp/LSTMLayer.cs:200-208 | every cell is written as exactly four tokens; `CellRoundTrip` reads them back as the cell's stored value |
| MatrixCodec.ReadPlainCell | RNNSharp/LSTMLayer.cs:293-298 | a raw cell reads exactly when the stream starts with four Singles; it is those four values, X, Y, Z, W, and the read consumes them; any other stream gives EndOfStream or a token of the wrong kind |
| MatrixCodec.ReadLookupCell | RNNSharp/LSTMLayer.cs:332-345 | a compressed cell that reads consumes exactly four bytes; a failed read is EndOfStream, a token of the wrong kind, or ArgumentOutOfRange from a codebook; `MatrixLoading.LookupCellIff` gives the values |
| MatrixCodec.LoadLSTMWeights | RNNSharp/LSTMLayer.cs:280-350 | a load needs a header of three Int32 and a non-negative width, and then has width rows of height cells; a negative width gives NegativeSize; with a zero codebook size the body is read raw; `SaveLoadLSTMWeights` and `MatrixLoading.CompressedLoadIsLookup` give its values |
| MatrixCodec.CellRoundTrip | RNNSharp/LSTMLayer.cs:200-208 | one cell written in either mode reads back as its stored value, leaving what follows |
| MatrixCodec.PlainBodyLoads | RNNSharp/LSTMLayer.cs:282-301 | a raw body after its header reads back as the matrix written |
| MatrixCodec.CompressedBodyLoads | RNNSharp/LSTMLayer.cs:309-345 | codebooks and index bytes after their header read back as the quantised matrix |
| MatrixCodec.SaveLoadLSTMWeights | RNNSharp/LSTMLayer.cs:185-349 | loading what SaveLSTMWeights wrote gives the visited cells as stored in that mode, and stops where the matrix ends |
| MatrixCodec.PlainStoresExactly | RNNSharp/LSTMLayer.cs:198-209 | raw mode stores every cell exactly |
| MatrixCodec.CropRectangular | RNNSharp/LSTMLayer.cs:187-188 | on a rectangular matrix the writer visits every cell |
| MatrixCodec.PlainSaveLoad | RNNSharp/LSTMLayer.cs:193-209 | raw mode: a matrix reads back as exactly the cells the writer visited |
| MatrixCodec.PlainRoundTrip | RNNSharp/LSTMLayer.cs:193-209 | raw mode: a rectangular matrix with at least one row is saved and reads back equal to itself, whatever follows it |
| MatrixCodec.CompressedRoundTrip | RNNSharp/LSTMLayer.cs:241-345 | compressed mode: a rectangular matrix reads back with the same shape, each cell replaced by its per-channel codebook value |
| MatrixLoading.LookupCellIff | RNNSharp/LSTMLayer.cs:334-344 | a compressed cell reads successfully exactly when each of its four bytes indexes its own channel's codebook, and it is those four entries |
| MatrixLoading.DecodeRowsAt | RNNSharp/LSTMLayer.cs:329-345 | cell (i, j) of the reference decoding is looked up from the four bytes at offset 4(i*h + j) |
| MatrixLoading.RowOffsetIsProduct | RNNSharp/LSTMLayer.cs:329-333 | row i of a compressed body starts 4*i*h bytes in |
| MatrixLoading.LookupRow | RNNSharp/LSTMLayer.cs:332-345 | a compressed row that reads consumes four bytes per cell and equals the reference decoding |
| MatrixLoading.LookupRowsConsume | RNNSharp/LSTMLayer.cs:329-345 | a compressed body that reads consumes exactly four bytes per cell |
| MatrixLoading.LookupRows | RNNSharp/LSTMLayer.cs:329-345 | the rows of a compressed body are the per-channel codebook lookups of its bytes |
| MatrixLoading.LookupIsMember | RNNSharp/LSTMLayer.cs:334-344 | every looked-up channel is an entry of that channel's codebook |
| MatrixLoading.CompressedLoadIsLookup | RNNSharp/LSTMLayer.cs:280-349 | a loaded compressed matrix has the header's width, is the per-channel lookup of its index bytes, and every value is a member of its channel's codebook |
| MatrixLoading.RowsNeverMiss | RNNSharp/LSTMLayer.cs:329-345 | with codebooks of at least 256 entries, or raw cells, no index is ever out of range |
| MatrixLoading.WideCodebooksAcceptEveryByte | RNNSharp/LSTMLayer.cs:284-345 | a raw matrix, or one with `vqSize >= 256`, never fails with an index out of range |
| MatrixLoading.NarrowCodebookRejectsIndex | RNNSharp/LSTMLayer.cs:334-335 | with `vqSize` 1 a byte 1 is out of range and the load fails with ArgumentOutOfRange |
| MatrixLoading.PlainCellReencodes | RNNSharp/LSTMLayer.cs:294-298 | a raw cell that reads back was written as exactly those four Singles |
| MatrixLoading.PlainRowsReencode | RNNSharp/LSTMLayer.cs:290-300 | raw rows that read back are exactly the encoding of the rows read |
| MatrixLoading.PlainLoadBody | RNNSharp/LSTMLayer.cs:282-301 | a raw load with at least one row had the row count as its width, a non-negative height, and read its rows straight after the header |
| MatrixLoading.PlainLoadThenSave | RNNSharp/LSTMLayer.cs:185-301 | a raw matrix that loads is written back by SaveLSTMWeights as exactly the tokens it was read from |
| Cells.InitializeLSTMCell | RNNSharp/LSTMLayer.cs:719-731 | the recurrent state and all five derivative accumulators become zero; weights and gate values are kept |
| Cells.InitializeFixesCleared | RNNSharp/LSTMLayer.cs:719-731 | a cell is left unchanged exactly when it is already cleared |
| Cells.LoadedCell | RNNSharp/LSTMLayer.cs:55 | a loaded cell is a new zero cell holding the weights read |
| Layers.Reset | RNNSharp/LSTMLayer.cs:710-717 | with LayerSize within the cells and the outputs, each of the first LayerSize units gets output 0 and a cleared cell with its weights and gates kept, and other units, the sizes and the matrices are unchanged; a larger LayerSize raises IndexOutOfRange |
| Layers.ResetFixesRest | RNNSharp/LSTMLayer.cs:710-717 | with LayerSize in bounds, Reset leaves a layer unchanged exactly when it is already at rest |
| Layers.ResetIdempotent | RNNSharp/LSTMLayer.cs:710-731 | resetting twice is resetting once |
| LayerCodec.EncodeUnits | RNNSharp/LSTMLayer.cs:172-182 | seven Doubles are written per unit |
| LayerCodec.SaveHiddenLayerWeights | RNNSharp/LSTMLayer.cs:170-183 | writing the unit weights succeeds exactly when there are LayerSize cells, else IndexOutOfRange |
| LayerCodec.CreateCell | RNNSharp/LSTMLayer.cs:101-116 | the load branch yields `n` units, each a fresh cell holding only the weights read |
| LayerCodec.ReadUnit | RNNSharp/LSTMLayer.cs:106-116 | one unit reads exactly when the stream starts with seven Doubles; it holds them in the order peephole in, forget, out, then cell in, forget, state, out, and the read consumes them; any other stream gives EndOfStream or a token of the wrong kind |
| LayerCodec.UnitRoundTrip | RNNSharp/LSTMLayer.cs:106-116 | one unit's seven weights read back in the order they were written |
| LayerCodec.UnitsRoundTrip | RNNSharp/LSTMLayer.cs:170-183 | the saved units read back as fresh cells holding the saved weights, and reading stops where they end |
| LayerCodec.Save | RNNSharp/LSTMLayer.cs:352-377 | Save succeeds exactly when the units exist and every matrix with positive size can be written; it starts with LayerSize, SparseFeatureSize and DenseFeatureSize in that order |
| LayerCodec.LoadMatrixIf | RNNSharp/LSTMLayer.cs:391-404 | a size <= 0 reads nothing and keeps the field; a positive size loads a matrix |
| LayerCodec.Load | RNNSharp/LSTMLayer.cs:379-405 | a loaded layer has a non-negative LayerSize with that many cells and outputs, and keeps any matrix whose size is not positive |
| LayerCodec.MatrixFieldRoundTrip | RNNSharp/LSTMLayer.cs:364-376 | a matrix field written by Save is consumed only when its size is positive, and reads back |
| LayerCodec.UnitsPrefixRoundTrip | RNNSharp/LSTMLayer.cs:170-183 | the units written for the first `n` cells read back as fresh cells with their weights |
| LayerCodec.SaveLoadRoundTrip | RNNSharp/LSTMLayer.cs:352-405 | loading what Save wrote restores the three sizes, the unit weights and every matrix with positive size, and stops where the layer ends |
| LayerCodec.SaveLoadIdentity | RNNSharp/LSTMLayer.cs:352-405 | a fresh, rectangular layer saved and loaded back over itself is the same layer |
| LayerCodec.UnsizedMatrixIgnored | RNNSharp/LSTMLayer.cs:364-376 | a matrix whose size is not positive contributes no tokens and does not affect Save |
| LearningRate.Clamp | RNNSharp/LSTMLayer.cs:570 | the clamp returns the value when it is in range and otherwise the nearer bound |
| LearningRate.ClampGradient4 | RNNSharp/LSTMLayer.cs:570 | every channel of a clamped delta lies within the cut-off, and a delta already within it is unchanged |
| LearningRate.ClampGradient3 | RNNSharp/LSTMLayer.cs:621 | the same for the three peephole channels |
| LearningRate.ClampIdempotent | RNNSharp/LSTMLayer.cs:597 | clamping twice is clamping once |
| LearningRate.Accumulate | RNNSharp/LSTMLayer.cs:743 | adding a squared delta never decreases an accumulator channel |
| LearningRate.AccumulateGrows | RNNSharp/LSTMLayer.cs:736 | an accumulator channel stays the same exactly when the delta is zero |
| LearningRate.Rate | RNNSharp/LSTMLayer.cs:744 | with a positive learning rate the channel rate lies in (0, learning rate] |
| LearningRate.RateAntitone | RNNSharp/LSTMLayer.cs:737 | a larger square root never gives a larger rate |
| LearningRate.ComputeLearningRate4 | RNNSharp/LSTMLayer.cs:741-745 | the accumulator stays non-negative and grows channel-wise; every rate lies in (0, learning rate] |
| LearningRate.ComputeLearningRate3 | RNNSharp/LSTMLayer.cs:734-738 | the same for the three-channel version |
| LearningRate.RateFalls | RNNSharp/LSTMLayer.cs:741-745 | on one channel the rate after a second update is no larger than after the first |
| LearningRate.RateNonIncreasing4 | RNNSharp/LSTMLayer.cs:741-745 | over two successive updates of the same weight, no channel's rate goes up |
| LearningRate.StepBounded | RNNSharp/LSTMLayer.cs:573-574 | a rate in (0, learning rate] times a delta within the cut-off moves a weight by at most their product |
| History.HistoryStep | RNNSharp/LSTMLayer.cs:559-565 | the update of one history entry; `RunIsDecayedSum` and `RunForgetsStart` state what it computes over a sequence |
| History.Run | RNNSharp/LSTMLayer.cs:555-566 | one entry fed the steps 0, 1, ... of a sequence in order; its closed form is `RunIsDecayedSum` |
| History.RunIsDecayedSum | RNNSharp/LSTMLayer.cs:559-565 | for an entry updated at every step from step 0 (a dense feature), the history after a sequence is the sum of each step's derivative times feature value, damped by the forget gates of every later step |
| History.DecayedSumSnoc | RNNSharp/LSTMLayer.cs:559-565 | appending a time step to the closed form is one continuing history step |
| History.DecaySnoc | RNNSharp/LSTMLayer.cs:563 | a later step damps everything before it once more by its forget gate |
| History.RunForgetsStart | RNNSharp/LSTMLayer.cs:559-565 | for an entry updated at every step from step 0 (a dense feature), the history after the sequence does not depend on the stale entry it started from |
| Backward.MoveBounded | RNNSharp/LSTMLayer.cs:574 | one weight moves by at most learning rate times cut-off |
| Backward.MoveBounded4 | RNNSharp/LSTMLayer.cs:574 | every channel of a feature weight moves by at most learning rate times cut-off |
| Backward.MoveBounded3 | RNNSharp/LSTMLayer.cs:624-628 | every peephole weight moves by at most learning rate times cut-off |
| Backward.SettingsBound4 | RNNSharp/LSTMLayer.cs:650-658 | the same bound for the configured learning rate and cut-off |
| Backward.SettingsBound3 | RNNSharp/LSTMLayer.cs:621-628 | the same bound for the three peephole channels |
| Backward.UpdateFeature | RNNSharp/LSTMLayer.cs:557-574 | a feature's history follows the time-step rule and its accumulator grows channel-wise |
| Backward.UpdateFeatureBounded | RNNSharp/LSTMLayer.cs:566-574 | no channel of a feature weight moves by more than learning rate times cut-off |
| Backward.ApplySparse | RNNSharp/LSTMLayer.cs:556-575 | the sparse loop succeeds exactly when every key is in range (else IndexOutOfRange); features no entry names are unchanged, and a feature named once takes one update |
| Backward.ApplyDense | RNNSharp/LSTMLayer.cs:578-603 | the dense loop succeeds exactly when the size is not positive or fits both the features and the row, else IndexOutOfRange |
| Backward.DenseIsSparse | RNNSharp/LSTMLayer.cs:549-603 | the dense loop equals the sparse loop over the dense features keyed by position |
| Backward.PeepholeHistoryStep | RNNSharp/LSTMLayer.cs:605-611 | dSWPeepholeIn and dSWPeepholeForget both take the continuing branch of the history rule, with the previous cell state as the input, whatever the time step |
| Backward.RecurrentHistoryStep | RNNSharp/LSTMLayer.cs:634-643 | dSWCellIn, dSWCellForget and dSWCellState take the continuing branch of the history rule, with the previous cell output as the input, whatever the time step |
| Backward.RecurrentHistoryStartsFresh | RNNSharp/LSTMLayer.cs:634-643 | after Reset the unconditional recurrent update agrees with the first-step branch of the history rule |
| Backward.PeepholeHistoryStartsFresh | RNNSharp/LSTMLayer.cs:605-611 | the same for the peephole accumulators |
| Backward.UpdatePeepholes | RNNSharp/LSTMLayer.cs:613-628 | the peephole accumulator stays non-negative and grows channel-wise |
| Backward.UpdateRecurrent | RNNSharp/LSTMLayer.cs:645-658 | the recurrent accumulator stays non-negative and grows channel-wise |
| Backward.UpdatePeepholesBounded | RNNSharp/LSTMLayer.cs:613-628 | no peephole weight moves by more than learning rate times cut-off |
| Backward.UpdateRecurrentBounded | RNNSharp/LSTMLayer.cs:645-658 | no recurrent weight moves by more than learning rate times cut-off |
| Backward.UpdateInternal | RNNSharp/LSTMLayer.cs:605-660 | gates and cell states are kept; the weights take the peephole and recurrent steps; both accumulator groups advance; the learning-rate accumulators grow |
| Backward.SparsePass | RNNSharp/LSTMLayer.cs:549-576 | the sparse loop runs only for a positive size; entries must be in range; each feature named once takes the history rule; the others are unchanged |
| Backward.DensePass | RNNSharp/LSTMLayer.cs:578-603 | features below DenseFeatureSize take the history rule, the rest of the row is unchanged; a size beyond the features or the row raises IndexOutOfRange |
| Backward.BackwardUnit | RNNSharp/LSTMLayer.cs:525-662 | one unit fails exactly when a feature does not fit its rows, and then with IndexOutOfRange; otherwise its rows are those of the sparse and the dense pass, its cell and accumulators are those of the internal update, and its gates are kept |
| Backward.UpdatePrefix | RNNSharp/LSTMLayer.cs:525 | mapping over the first `n` units fails exactly when one of them fails; each of them is replaced by its own step and the rest are untouched |
| Backward.BackwardPass | RNNSharp/LSTMLayer.cs:522-663 | the pass succeeds exactly when LayerSize fits the units, errors and outputs and every unit's features fit; each of the first LayerSize units is its own one-unit step and the rest are unchanged |

## Left out

- The forward pass, `ComputeLayerErr` and every sigmoid, tanh and derivative. They are floating-point arithmetic. Their results enter the model only as the `Signal` of a unit.
- Random initialisation (`InitializeWeights`, `CreateCell(null)`, `RandInitWeight`). It is nondeterministic.
- `CleanLearningRate`. The learning rate and cut-off are `Settings` parameters instead of process-wide constants.
- `Logger.WriteLine` calls. They are output only.
- `Parallel.For`. The units are independent, so the pass is a sequential map. Which of several failing units' exceptions surfaces is not modelled.
- Float32 and float64 rounding and the little-endian IEEE byte layout. Values are `real` and are copied exactly.
- `VectorQuantization`. `BuildCodebook` and `ComputeVQ` are an external library. A quantiser is a given codebook and index function.
- Partial effects of an exception. A failed save is no output, and a failed load leaves no layer. The C# stream and arrays may already have been partly written.
- `AllocateMemoryForCells` belongs to the base class, which is not part of this model. Its cell outputs are taken to be zero-initialised arrays of length LayerSize.
- `Load` is modelled over the layer it is called on, so that a matrix whose size is not positive keeps the previous value.
- The three per-feature arrays of each unit (weights, derivative history, learning-rate accumulator) are combined into one row of `Feature` records. They are allocated together with the same length. A row length that differs between them is not modelled.
- `c.yForget` (a double) and `c_yForget` (its float32 cast) are one real. So are the double-valued derivative products and the float32 `vecDerivate` they are cast into.
- LearningRate.Rate: `Vector4.SquareRoot` is not computed; the root is an argument, known only to be non-negative.
- LearningRate.RateFalls: needs the square root to be monotone, which `Vector4.SquareRoot` is but the parameter type does not guarantee.
- History.RunIsDecayedSum: assumes the entry is updated at every step of the sequence. A sparse feature absent at some step is neither damped nor reset there, so its history is not this closed form.
- History.RunForgetsStart: holds only for entries updated at step 0. A sparse feature absent at step 0 keeps its stale entry and adds it, damped, at its first visit.
- Backward.BackwardPass: three failures are not modelled. `Parallel.For` wraps a unit's exception in an `AggregateException`. The derivative-history and learning-rate rows are allocated only by `InitializeWeights` and `CleanLearningRate`, so a pass on a freshly loaded layer raises `NullReferenceException`. A loaded matrix narrower than `LayerSize` makes the pass fail at the missing row. The `Unit` record always holds all rows of a unit, so it cannot express these cases.
- MatrixCodec.CompressedRoundTrip: assumes the codebook entries are float32, so that they are written as Singles and `ReadSingle` reads them back. The element type of `VectorQuantization.CodeBook` belongs to the external library.
- LearningRate.Clamp: follows `Min(Max(value, min), max)`. A runtime that applies the maximum last returns the lower bound when the bounds are crossed. That can happen only with a negative gradient cut-off.
- Quantization.RequantizeIsIdentity: assumes that each quantiser built by the re-save maps every entry of the first save's codebook back to that same value. `BuildCodebook` and `ComputeVQ` belong to the external library, so the model cannot show that they do.
