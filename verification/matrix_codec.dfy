/**
 * SaveLSTMWeights and LoadLSTMWeights: one projection matrix on the stream.
 * A matrix is a header (width, height, VQ flag) and a body. With flag 0 the
 * body is four Singles per cell, X, Y, Z, W, in row-major order; with a
 * non-zero flag n it is four codebooks of n Singles followed by four index
 * bytes per cell.
 */
module MatrixCodec {
  import opened Wrappers
  import opened Tokens
  import opened Vectors
  import opened Quantization

  /** How SaveLSTMWeights writes the body: raw (`bVQ == false`) or compressed. */
  datatype SaveMode = Plain | Compressed(q: Quantizers)

  /** How LoadLSTMWeights reads one cell: four Singles, or four bytes looked up in codebooks. */
  datatype CellReader = PlainCells | LookupCells(books: Codebooks)

  /** Lengths that a C# array can have. */
  predicate ArrayShaped(m: Matrix) {
    |m| <= MaxInt32 && forall i :: 0 <= i < |m| ==> |m[i]| <= MaxInt32
  }

  /** Every row has at least `h` cells, so the writer's loop `j < h` stays inside each row. */
  predicate CoversHeight(m: Matrix, h: int) {
    forall i :: 0 <= i < |m| ==> |m[i]| >= h
  }

  /** The cells the writer visits: the first `h` of every row. */
  function Crop(m: Matrix, h: nat): (r: Matrix)
    requires CoversHeight(m, h)
    ensures |r| == |m| && Rectangular(r, h)
    ensures forall i, j :: 0 <= i < |m| && 0 <= j < h ==> r[i][j] == m[i][j]
  {
    seq(|m|, i requires 0 <= i < |m| => m[i][..h])
  }

  /** The compressed mode has the codebooks it writes. */
  predicate Encodable(mode: SaveMode) {
    mode.Compressed? ==> HasCodebooks(mode.q)
  }

  /**
   * The tokens written for one cell: four Singles in raw mode, four index
   * bytes in compressed mode, whose entries are the cell's compressed value.
   */
  function EncodeCell(c: Vec4, mode: SaveMode): (r: seq<Token>)
    ensures |r| == 4
  {
    match mode
    case Plain => [F32(c.x), F32(c.y), F32(c.z), F32(c.w)]
    case Compressed(q) =>
      [U8(IndexByte(q.x, c.x)), U8(IndexByte(q.y, c.y)), U8(IndexByte(q.z, c.z)), U8(IndexByte(q.w, c.w))]
  }

  function EncodeRow(row: seq<Vec4>, mode: SaveMode): seq<Token> {
    if |row| == 0 then [] else EncodeCell(row[0], mode) + EncodeRow(row[1..], mode)
  }

  function EncodeRows(m: Matrix, mode: SaveMode): seq<Token> {
    if |m| == 0 then [] else EncodeRow(m[0], mode) + EncodeRows(m[1..], mode)
  }

  lemma EncodeRowCons(c: Vec4, cs: seq<Vec4>, mode: SaveMode)
    ensures EncodeRow([c] + cs, mode) == EncodeCell(c, mode) + EncodeRow(cs, mode)
  {
    assert ([c] + cs)[1..] == cs;
  }

  lemma EncodeRowsCons(row: seq<Vec4>, rows: Matrix, mode: SaveMode)
    ensures EncodeRows([row] + rows, mode) == EncodeRow(row, mode) + EncodeRows(rows, mode)
  {
    assert ([row] + rows)[1..] == rows;
  }

  /** `codeBook[vqIdx]` on a List<float>. */
  function Lookup(book: seq<real>, idx: uint8): Result<real, Fault> {
    if idx < |book| then Ok(book[idx]) else Err(ArgumentOutOfRange)
  }

  /** The body of the inner loop of LoadLSTMWeights, for one cell. */
  function ReadCell(s: seq<Token>, reader: CellReader): Result<Read<Vec4>, Fault> {
    match reader
    case PlainCells => ReadPlainCell(s)
    case LookupCells(b) => ReadLookupCell(s, b)
  }

  /** Four Singles: X, Y, Z, W. It reads exactly when the stream starts with four Singles. */
  function ReadPlainCell(s: seq<Token>): (r: Result<Read<Vec4>, Fault>)
    ensures r.Ok? <==> |s| >= 4 && s[0].F32? && s[1].F32? && s[2].F32? && s[3].F32?
    ensures r.Ok? ==> r.value == Read(Vec4(s[0].f, s[1].f, s[2].f, s[3].f), s[4..])
    ensures r.Err? ==> r.error == EndOfStream || r.error == KindMismatch
  {
    var x :- ReadSingle(s);
    var y :- ReadSingle(x.rest);
    var z :- ReadSingle(y.rest);
    var w :- ReadSingle(z.rest);
    Ok(Read(Vec4(x.item, y.item, z.item, w.item), w.rest))
  }

  /**
   * Four index bytes, each looked up in its channel's codebook as soon as it
   * is read. A cell read this way consumes four tokens and holds one entry of
   * each codebook.
   */
  function ReadLookupCell(s: seq<Token>, b: Codebooks): (r: Result<Read<Vec4>, Fault>)
    ensures r.Ok? ==> |s| >= 4 && r.value.rest == s[4..]
    ensures r.Err? ==> r.error == EndOfStream || r.error == KindMismatch || r.error == ArgumentOutOfRange
  {
    var ix :- ReadByte(s);
    var x :- Lookup(b.x, ix.item);
    var iy :- ReadByte(ix.rest);
    var y :- Lookup(b.y, iy.item);
    var iz :- ReadByte(iy.rest);
    var z :- Lookup(b.z, iz.item);
    var iw :- ReadByte(iz.rest);
    var w :- Lookup(b.w, iw.item);
    Ok(Read(Vec4(x, y, z, w), iw.rest))
  }

  /** One row of `h` cells. */
  function ReadRow(s: seq<Token>, h: nat, reader: CellReader): (r: Result<Read<seq<Vec4>>, Fault>)
    ensures r.Ok? ==> |r.value.item| == h
  {
    if h == 0 then Ok(Read([], s))
    else match ReadCell(s, reader)
      case Err(e) => Err(e)
      case Ok(c) =>
        match ReadRow(c.rest, h - 1, reader)
        case Err(e) => Err(e)
        case Ok(cs) => Ok(Read([c.item] + cs.item, cs.rest))
  }

  /** `w` rows, each allocated as `new Vector4[h]` before it is read. */
  function ReadRows(s: seq<Token>, w: int, h: int, reader: CellReader): (r: Result<Read<Matrix>, Fault>)
    ensures r.Ok? ==> |r.value.item| == (if w <= 0 then 0 else w) && Rectangular(r.value.item, h)
    decreases w
  {
    if w <= 0 then Ok(Read([], s))
    else if h < 0 then Err(NegativeSize)
    else match ReadRow(s, h, reader)
      case Err(e) => Err(e)
      case Ok(row) =>
        match ReadRows(row.rest, w - 1, h, reader)
        case Err(e) => Err(e)
        case Ok(rows) => Ok(Read([row.item] + rows.item, rows.rest))
  }

  /** SaveLSTMWeights(weight, fo, bVQ). A failed save is modelled as no output at all. */
  function SaveLSTMWeights(weight: Matrix, mode: SaveMode): (r: Result<seq<Token>, Fault>)
    requires ArrayShaped(weight)
    ensures r.Ok? <==> |weight| > 0 && CoversHeight(weight, |weight[0]|) && Encodable(mode)
    ensures r.Err? ==> r.error == IndexOutOfRange
  {
    if |weight| == 0 then Err(IndexOutOfRange)
    else
      var h := |weight[0]|;
      if !CoversHeight(weight, h) then Err(IndexOutOfRange)
      else match mode
        case Plain =>
          Ok([I32(|weight|), I32(h), I32(0)] + EncodeRows(Crop(weight, h), mode))
        case Compressed(q) =>
          if !HasCodebooks(q) then Err(IndexOutOfRange)
          else Ok([I32(|weight|), I32(h), I32(VqSize)] + EncodeCodebooks(WrittenBooks(q)) + EncodeRows(Crop(weight, h), mode))
  }

  /**
   * LoadLSTMWeights(br). The header is three Int32: the width, the height
   * and the codebook size, zero for a raw body. A loaded matrix has as many
   * rows as the width says, each as long as the height says; neither is
   * checked against the layer.
   */
  function LoadLSTMWeights(s: seq<Token>): (r: Result<Read<Matrix>, Fault>)
    ensures r.Ok? ==> |s| >= 3 && s[0].I32? && s[1].I32? && s[2].I32? && s[0].i >= 0
    ensures r.Ok? ==> |r.value.item| == s[0].i && Rectangular(r.value.item, s[1].i)
    ensures |s| >= 3 && s[0].I32? && s[1].I32? && s[2].I32? && s[0].i < 0 ==> r == Err(NegativeSize)
    ensures |s| >= 3 && s[0].I32? && s[1].I32? && s[2].I32? && s[0].i >= 0 && s[2].i == 0 ==>
      r == ReadRows(s[3..], s[0].i, s[1].i, PlainCells)
  {
    var w :- ReadInt32(s);
    var h :- ReadInt32(w.rest);
    var vq :- ReadInt32(h.rest);
    if w.item < 0 then Err(NegativeSize)
    else if vq.item == 0 then ReadRows(vq.rest, w.item, h.item, PlainCells)
    else
      var books :- ReadCodebooks(vq.rest, vq.item);
      ReadRows(books.rest, w.item, h.item, LookupCells(books.item))
  }

  // ----- what a saved cell reads back as -----

  /** The reader LoadLSTMWeights uses on a body SaveLSTMWeights wrote in `mode`. */
  function ReaderFor(mode: SaveMode): CellReader
    requires Encodable(mode)
  {
    match mode
    case Plain => PlainCells
    case Compressed(q) => LookupCells(WrittenBooks(q))
  }

  /** The value a cell has once written in `mode` and read back. */
  function Stored(c: Vec4, mode: SaveMode): Vec4
    requires Encodable(mode)
  {
    match mode
    case Plain => c
    case Compressed(q) => QuantizeCell(q, c)
  }

  function StoredRow(row: seq<Vec4>, mode: SaveMode): (r: seq<Vec4>)
    requires Encodable(mode)
    ensures |r| == |row|
  {
    seq(|row|, j requires 0 <= j < |row| => Stored(row[j], mode))
  }

  function StoredRows(m: Matrix, mode: SaveMode): (r: Matrix)
    requires Encodable(mode)
    ensures |r| == |m| && forall i :: 0 <= i < |m| ==> |r[i]| == |m[i]|
  {
    seq(|m|, i requires 0 <= i < |m| => StoredRow(m[i], mode))
  }

  lemma CellRoundTrip(c: Vec4, mode: SaveMode, rest: seq<Token>)
    requires Encodable(mode)
    ensures ReadCell(EncodeCell(c, mode) + rest, ReaderFor(mode)) == Ok(Read(Stored(c, mode), rest))
  {
    var s := EncodeCell(c, mode) + rest;
    assert s[1..][1..][1..][1..] == rest;
    if mode.Compressed? {
      var q := mode.q;
      assert WrittenBooks(q).x[IndexByte(q.x, c.x)] == q.x.codebook[IndexByte(q.x, c.x)];
      assert WrittenBooks(q).y[IndexByte(q.y, c.y)] == q.y.codebook[IndexByte(q.y, c.y)];
      assert WrittenBooks(q).z[IndexByte(q.z, c.z)] == q.z.codebook[IndexByte(q.z, c.z)];
      assert WrittenBooks(q).w[IndexByte(q.w, c.w)] == q.w.codebook[IndexByte(q.w, c.w)];
    }
  }

  /** One unfolding of ReadRow: a cell, then the remaining cells. */
  lemma ReadRowStep(s: seq<Token>, h: nat, reader: CellReader, c: Vec4, t: seq<Token>, cs: seq<Vec4>, rest: seq<Token>)
    requires h > 0
    requires ReadCell(s, reader) == Ok(Read(c, t))
    requires ReadRow(t, h - 1, reader) == Ok(Read(cs, rest))
    ensures ReadRow(s, h, reader) == Ok(Read([c] + cs, rest))
  {
  }

  /** One unfolding of ReadRows: a row, then the remaining rows. */
  lemma ReadRowsStep(s: seq<Token>, w: nat, h: nat, reader: CellReader, row: seq<Vec4>, t: seq<Token>, rows: Matrix, rest: seq<Token>)
    requires w > 0
    requires ReadRow(s, h, reader) == Ok(Read(row, t))
    requires ReadRows(t, w - 1, h, reader) == Ok(Read(rows, rest))
    ensures ReadRows(s, w, h, reader) == Ok(Read([row] + rows, rest))
  {
  }

  /** A row that reads successfully is a cell followed by a shorter row. */
  lemma ReadRowSplit(s: seq<Token>, h: nat, reader: CellReader, row: seq<Vec4>, rest: seq<Token>)
    returns (c: Vec4, t: seq<Token>, cs: seq<Vec4>)
    requires h > 0 && ReadRow(s, h, reader) == Ok(Read(row, rest))
    ensures ReadCell(s, reader) == Ok(Read(c, t))
    ensures ReadRow(t, h - 1, reader) == Ok(Read(cs, rest))
    ensures row == [c] + cs
  {
    c, t := ReadCell(s, reader).value.item, ReadCell(s, reader).value.rest;
    cs := ReadRow(t, h - 1, reader).value.item;
  }

  /** Rows that read successfully are a row followed by fewer rows. */
  lemma ReadRowsSplit(s: seq<Token>, w: int, h: int, reader: CellReader, m: Matrix, rest: seq<Token>)
    returns (row: seq<Vec4>, t: seq<Token>, rows: Matrix)
    requires w > 0 && ReadRows(s, w, h, reader) == Ok(Read(m, rest))
    ensures h >= 0
    ensures ReadRow(s, h, reader) == Ok(Read(row, t))
    ensures ReadRows(t, w - 1, h, reader) == Ok(Read(rows, rest))
    ensures m == [row] + rows
  {
    row, t := ReadRow(s, h, reader).value.item, ReadRow(s, h, reader).value.rest;
    rows := ReadRows(t, w - 1, h, reader).value.item;
  }

  lemma StoredRowCons(row: seq<Vec4>, mode: SaveMode)
    requires Encodable(mode) && |row| > 0
    ensures StoredRow(row, mode) == [Stored(row[0], mode)] + StoredRow(row[1..], mode)
  {
  }

  lemma {:induction false} RowRoundTrip(row: seq<Vec4>, mode: SaveMode, rest: seq<Token>)
    requires Encodable(mode)
    ensures ReadRow(EncodeRow(row, mode) + rest, |row|, ReaderFor(mode)) == Ok(Read(StoredRow(row, mode), rest))
    decreases |row|
  {
    if |row| == 0 {
      assert EncodeRow(row, mode) + rest == rest;
    } else {
      var tail := EncodeRow(row[1..], mode) + rest;
      assert EncodeRow(row, mode) + rest == EncodeCell(row[0], mode) + tail;
      CellRoundTrip(row[0], mode, tail);
      RowRoundTrip(row[1..], mode, rest);
      ReadRowStep(EncodeRow(row, mode) + rest, |row|, ReaderFor(mode), Stored(row[0], mode), tail, StoredRow(row[1..], mode), rest);
      StoredRowCons(row, mode);
    }
  }

  lemma StoredRowsCons(m: Matrix, mode: SaveMode)
    requires Encodable(mode) && |m| > 0
    ensures StoredRows(m, mode) == [StoredRow(m[0], mode)] + StoredRows(m[1..], mode)
  {
  }

  lemma {:induction false} RowsRoundTrip(m: Matrix, h: nat, mode: SaveMode, rest: seq<Token>)
    requires Encodable(mode) && Rectangular(m, h)
    ensures ReadRows(EncodeRows(m, mode) + rest, |m|, h, ReaderFor(mode)) == Ok(Read(StoredRows(m, mode), rest))
    decreases |m|
  {
    if |m| == 0 {
      assert EncodeRows(m, mode) + rest == rest;
    } else {
      var tail := EncodeRows(m[1..], mode) + rest;
      assert EncodeRows(m, mode) + rest == EncodeRow(m[0], mode) + tail;
      assert |m[0]| == h;
      RowRoundTrip(m[0], mode, tail);
      assert Rectangular(m[1..], h);
      RowsRoundTrip(m[1..], h, mode, rest);
      ReadRowsStep(EncodeRows(m, mode) + rest, |m|, h, ReaderFor(mode), StoredRow(m[0], mode), tail, StoredRows(m[1..], mode), rest);
      StoredRowsCons(m, mode);
    }
  }

  /** LoadLSTMWeights after its three header reads, for a non-negative width. */
  lemma LoadAfterHeader(w: int32, h: int32, vq: int32, body: seq<Token>)
    requires w >= 0
    ensures vq == 0 ==> LoadLSTMWeights([I32(w), I32(h), I32(vq)] + body) == ReadRows(body, w, h, PlainCells)
    ensures vq != 0 ==> var books := ReadCodebooks(body, vq);
      LoadLSTMWeights([I32(w), I32(h), I32(vq)] + body)
        == if books.Err? then Err(books.error) else ReadRows(books.value.rest, w, h, LookupCells(books.value.item))
  {
    var s := [I32(w), I32(h), I32(vq)] + body;
    assert s[1..][1..][1..] == body;
  }

  /** What SaveLSTMWeights writes, when it succeeds: header, codebooks if compressed, then the cropped cells. */
  lemma SavedLayout(weight: Matrix, mode: SaveMode)
    requires ArrayShaped(weight) && SaveLSTMWeights(weight, mode).Ok?
    ensures var h := |weight[0]|; var cells := EncodeRows(Crop(weight, h), mode);
      SaveLSTMWeights(weight, mode).value
        == if mode.Plain? then [I32(|weight|), I32(h), I32(0)] + cells
           else [I32(|weight|), I32(h), I32(VqSize)] + (EncodeCodebooks(WrittenBooks(mode.q)) + cells)
  {
  }

  /** The raw body of a saved matrix reads back after its header. */
  lemma PlainBodyLoads(w: int32, h: int32, m: Matrix, rest: seq<Token>)
    requires w == |m| && h >= 0 && Rectangular(m, h)
    ensures LoadLSTMWeights([I32(w), I32(h), I32(0)] + (EncodeRows(m, Plain) + rest)) == Ok(Read(StoredRows(m, Plain), rest))
  {
    RowsRoundTrip(m, h, Plain, rest);
    LoadAfterHeader(w, h, 0, EncodeRows(m, Plain) + rest);
  }

  /** The codebooks and index bytes of a compressed matrix read back after its header. */
  lemma CompressedBodyLoads(w: int32, h: int32, m: Matrix, q: Quantizers, rest: seq<Token>)
    requires w == |m| && h >= 0 && Rectangular(m, h) && HasCodebooks(q)
    ensures LoadLSTMWeights([I32(w), I32(h), I32(VqSize)] + (EncodeCodebooks(WrittenBooks(q)) + (EncodeRows(m, Compressed(q)) + rest)))
         == Ok(Read(StoredRows(m, Compressed(q)), rest))
  {
    var body := EncodeRows(m, Compressed(q)) + rest;
    RowsRoundTrip(m, h, Compressed(q), rest);
    CodebooksRoundTrip(WrittenBooks(q), body);
    LoadAfterHeader(w, h, VqSize, EncodeCodebooks(WrittenBooks(q)) + body);
  }

  /**
   * Whatever SaveLSTMWeights writes, LoadLSTMWeights reads back as the cells
   * it visited, each as stored in the chosen mode, and stops where the
   * matrix ends.
   */
  lemma SaveLoadLSTMWeights(weight: Matrix, mode: SaveMode, rest: seq<Token>)
    requires ArrayShaped(weight) && SaveLSTMWeights(weight, mode).Ok?
    ensures LoadLSTMWeights(SaveLSTMWeights(weight, mode).value + rest)
         == Ok(Read(StoredRows(Crop(weight, |weight[0]|), mode), rest))
  {
    if mode.Plain? {
      PlainSaveLoadSteps(weight, rest);
    } else {
      CompressedSaveLoadSteps(weight, mode.q, rest);
    }
  }

  /** SaveLoadLSTMWeights in raw mode. */
  lemma PlainSaveLoadSteps(weight: Matrix, rest: seq<Token>)
    requires ArrayShaped(weight) && SaveLSTMWeights(weight, Plain).Ok?
    ensures LoadLSTMWeights(SaveLSTMWeights(weight, Plain).value + rest)
         == Ok(Read(StoredRows(Crop(weight, |weight[0]|), Plain), rest))
  {
    var h := |weight[0]|;
    var m := Crop(weight, h);
    var cells := EncodeRows(m, Plain);
    SavedLayout(weight, Plain);
    assert SaveLSTMWeights(weight, Plain).value + rest == [I32(|weight|), I32(h), I32(0)] + (cells + rest);
    PlainBodyLoads(|weight|, h, m, rest);
  }

  /** SaveLoadLSTMWeights in compressed mode. */
  lemma CompressedSaveLoadSteps(weight: Matrix, q: Quantizers, rest: seq<Token>)
    requires ArrayShaped(weight) && SaveLSTMWeights(weight, Compressed(q)).Ok?
    ensures LoadLSTMWeights(SaveLSTMWeights(weight, Compressed(q)).value + rest)
         == Ok(Read(StoredRows(Crop(weight, |weight[0]|), Compressed(q)), rest))
  {
    var h := |weight[0]|;
    var m := Crop(weight, h);
    var cells := EncodeRows(m, Compressed(q));
    var books := EncodeCodebooks(WrittenBooks(q));
    SavedLayout(weight, Compressed(q));
    assert SaveLSTMWeights(weight, Compressed(q)).value + rest == [I32(|weight|), I32(h), I32(VqSize)] + (books + (cells + rest));
    CompressedBodyLoads(|weight|, h, m, q, rest);
  }

  /** A rectangular matrix is its own crop to its height. */
  lemma CropRectangular(weight: Matrix)
    requires |weight| > 0 && Rectangular(weight, |weight[0]|)
    ensures Crop(weight, |weight[0]|) == weight
  {
    var h := |weight[0]|;
    forall i | 0 <= i < |weight|
      ensures Crop(weight, h)[i] == weight[i]
    {
      assert weight[i][..h] == weight[i];
    }
  }

  /** Raw mode stores every cell as it is. */
  lemma PlainStoresExactly(m: Matrix)
    ensures StoredRows(m, Plain) == m
  {
    forall i | 0 <= i < |m|
      ensures StoredRows(m, Plain)[i] == m[i]
    {
      assert StoredRow(m[i], Plain) == m[i];
    }
  }

  /** Raw mode: a matrix reads back as the cells SaveLSTMWeights visited, whatever follows it. */
  lemma PlainSaveLoad(weight: Matrix, rest: seq<Token>)
    requires ArrayShaped(weight) && SaveLSTMWeights(weight, Plain).Ok?
    ensures LoadLSTMWeights(SaveLSTMWeights(weight, Plain).value + rest) == Ok(Read(Crop(weight, |weight[0]|), rest))
  {
    SaveLoadLSTMWeights(weight, Plain, rest);
    PlainStoresExactly(Crop(weight, |weight[0]|));
  }

  /** Raw mode: a rectangular matrix with at least one row reads back exactly. */
  lemma PlainRoundTrip(weight: Matrix, rest: seq<Token>)
    requires ArrayShaped(weight) && |weight| > 0 && Rectangular(weight, |weight[0]|)
    ensures SaveLSTMWeights(weight, Plain).Ok?
    ensures LoadLSTMWeights(SaveLSTMWeights(weight, Plain).value + rest) == Ok(Read(weight, rest))
  {
    SaveLoadLSTMWeights(weight, Plain, rest);
    CropRectangular(weight);
    PlainStoresExactly(weight);
  }

  /**
   * Compressed mode: the matrix read back has the shape of the original and
   * every channel is the codebook entry of the byte its quantizer chose.
   */
  lemma CompressedRoundTrip(weight: Matrix, q: Quantizers, rest: seq<Token>)
    requires ArrayShaped(weight) && |weight| > 0 && Rectangular(weight, |weight[0]|) && HasCodebooks(q)
    ensures SaveLSTMWeights(weight, Compressed(q)).Ok?
    ensures var r := LoadLSTMWeights(SaveLSTMWeights(weight, Compressed(q)).value + rest);
      && r.Ok? && r.value.rest == rest && |r.value.item| == |weight|
      && forall i, j :: 0 <= i < |weight| && 0 <= j < |weight[i]| ==>
           |r.value.item[i]| == |weight[i]| && r.value.item[i][j] == QuantizeCell(q, weight[i][j])
  {
    SaveLoadLSTMWeights(weight, Compressed(q), rest);
    CropRectangular(weight);
  }
}
