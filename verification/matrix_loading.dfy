/**
 * What LoadLSTMWeights does with an arbitrary stream, not only with one
 * SaveLSTMWeights wrote: compressed cells are per-channel codebook lookups,
 * codebooks of at least 256 entries make every index byte valid, and a raw
 * matrix that loads is saved back as exactly the tokens it was read from.
 */
module MatrixLoading {
  import opened Wrappers
  import opened Tokens
  import opened Vectors
  import opened Quantization
  import opened MatrixCodec

  /**
   * The cell whose index bytes start at position k, if the four tokens from
   * there on are index bytes in range of their codebooks: X from the first
   * codebook, Y from the second, Z from the third, W from the fourth.
   */
  function LookupCellAt(b: Codebooks, s: seq<Token>, k: nat): Option<Vec4> {
    if && k + 4 <= |s|
       && s[k].U8? && s[k + 1].U8? && s[k + 2].U8? && s[k + 3].U8?
       && s[k].b < |b.x| && s[k + 1].b < |b.y| && s[k + 2].b < |b.z| && s[k + 3].b < |b.w|
    then Some(Vec4(b.x[s[k].b], b.y[s[k + 1].b], b.z[s[k + 2].b], b.w[s[k + 3].b]))
    else None
  }

  /** Every channel of `c` is an entry of its own codebook. */
  predicate InCodebooks(b: Codebooks, c: Vec4) {
    c.x in b.x && c.y in b.y && c.z in b.z && c.w in b.w
  }

  /** Where row i starts in the body of a compressed matrix of height h: four bytes per cell of the rows before it. */
  function RowOffset(h: nat, i: nat): nat {
    if i == 0 then 0 else RowOffset(h, i - 1) + 4 * h
  }

  /** Where the index bytes of cell (i, j) start. */
  function CellOffset(h: nat, i: nat, j: nat): nat {
    RowOffset(h, i) + 4 * j
  }

  lemma {:induction false} RowOffsetIsProduct(h: nat, i: nat)
    ensures RowOffset(h, i) == 4 * (i * h)
  {
    if i > 0 {
      RowOffsetIsProduct(h, i - 1);
    }
  }

  /** Reference decoding of a compressed row: h cells, each looked up from the next four index bytes. */
  function DecodeRow(b: Codebooks, s: seq<Token>, h: nat): Option<seq<Vec4>>
    decreases h
  {
    if h == 0 then Some([])
    else if |s| < 4 then None
    else
      var c := LookupCellAt(b, s, 0);
      var cs := DecodeRow(b, s[4..], h - 1);
      if c.Some? && cs.Some? then Some([c.value] + cs.value) else None
  }

  /** Reference decoding of a compressed body: w rows of h cells, each row taking the next 4h index bytes. */
  function DecodeRows(b: Codebooks, s: seq<Token>, w: nat, h: nat): Option<Matrix>
    decreases w
  {
    if w == 0 then Some([])
    else if |s| < 4 * h then None
    else
      var row := DecodeRow(b, s, h);
      var rows := DecodeRows(b, s[4 * h..], w - 1, h);
      if row.Some? && rows.Some? then Some([row.value] + rows.value) else None
  }

  /** A compressed cell reads successfully exactly when its four bytes index their codebooks. */
  lemma LookupCellIff(s: seq<Token>, b: Codebooks, c: Vec4, rest: seq<Token>)
    ensures ReadCell(s, LookupCells(b)) == Ok(Read(c, rest)) <==> LookupCellAt(b, s, 0) == Some(c) && rest == s[4..]
  {
    if |s| >= 4 {
      assert s[1..][1..][1..][1..] == s[4..];
      assert s[1..][0] == s[1] && s[1..][1..][0] == s[2] && s[1..][1..][1..][0] == s[3];
    }
  }

  /** Looking up at a position of a suffix is looking up at the shifted position of the whole stream. */
  lemma LookupCellShift(b: Codebooks, s: seq<Token>, d: nat, k: nat)
    requires d <= |s|
    ensures LookupCellAt(b, s[d..], k) == LookupCellAt(b, s, d + k)
  {
    if k + 4 <= |s[d..]| {
      assert s[d..][k] == s[d + k] && s[d..][k + 1] == s[d + k + 1];
      assert s[d..][k + 2] == s[d + k + 2] && s[d..][k + 3] == s[d + k + 3];
    }
  }

  /** Cell j of a decoded row is looked up from the four bytes at 4j. */
  lemma {:induction false} DecodeRowAt(b: Codebooks, s: seq<Token>, h: nat, j: nat)
    requires DecodeRow(b, s, h).Some? && j < h
    ensures |DecodeRow(b, s, h).value| == h
    ensures LookupCellAt(b, s, 4 * j) == Some(DecodeRow(b, s, h).value[j])
    decreases h
  {
    DecodeRowLength(b, s, h);
    if j > 0 {
      DecodeRowAt(b, s[4..], h - 1, j - 1);
      LookupCellShift(b, s, 4, 4 * (j - 1));
    }
  }

  lemma {:induction false} DecodeRowLength(b: Codebooks, s: seq<Token>, h: nat)
    ensures DecodeRow(b, s, h).Some? ==> |DecodeRow(b, s, h).value| == h
    decreases h
  {
    if h > 0 && |s| >= 4 {
      DecodeRowLength(b, s[4..], h - 1);
    }
  }

  /** Cell (i, j) of a decoded body is looked up from the four bytes at CellOffset(h, i, j). */
  lemma {:induction false} DecodeRowsAt(b: Codebooks, s: seq<Token>, w: nat, h: nat, i: nat, j: nat)
    requires DecodeRows(b, s, w, h).Some? && i < w && j < h
    ensures |DecodeRows(b, s, w, h).value| == w && |DecodeRows(b, s, w, h).value[i]| == h
    ensures LookupCellAt(b, s, CellOffset(h, i, j)) == Some(DecodeRows(b, s, w, h).value[i][j])
    decreases i
  {
    DecodeRowsLength(b, s, w, h);
    if i > 0 {
      DecodeRowsAt(b, s[4 * h..], w - 1, h, i - 1, j);
      LookupCellShift(b, s, 4 * h, CellOffset(h, i - 1, j));
    } else {
      DecodeRowAt(b, s, h, j);
    }
  }

  lemma {:induction false} DecodeRowsLength(b: Codebooks, s: seq<Token>, w: nat, h: nat)
    ensures DecodeRows(b, s, w, h).Some? ==> |DecodeRows(b, s, w, h).value| == w
    decreases w
  {
    if w > 0 && |s| >= 4 * h {
      DecodeRowsLength(b, s[4 * h..], w - 1, h);
    }
  }

  /** A compressed row that reads successfully consumes four bytes per cell and is the reference decoding of them. */
  lemma {:induction false} LookupRow(s: seq<Token>, h: nat, b: Codebooks, row: seq<Vec4>, rest: seq<Token>)
    requires ReadRow(s, h, LookupCells(b)) == Ok(Read(row, rest))
    ensures |s| >= 4 * h && rest == s[4 * h..]
    ensures DecodeRow(b, s, h) == Some(row)
    decreases h
  {
    if h > 0 {
      var c, t, cs := ReadRowSplit(s, h, LookupCells(b), row, rest);
      LookupCellIff(s, b, c, t);
      LookupRow(t, h - 1, b, cs, rest);
      assert s[4..][4 * (h - 1)..] == s[4 * h..];
    }
  }

  /** A row consumed at the front, followed by rows consumed in the rest, consumes the sum. */
  lemma ConsumeJoin(s: seq<Token>, w: nat, h: nat, t: seq<Token>, rest: seq<Token>)
    requires w > 0 && |s| >= 4 * h && t == s[4 * h..]
    requires |t| >= RowOffset(h, w - 1) && rest == t[RowOffset(h, w - 1)..]
    ensures |s| >= RowOffset(h, w) && rest == s[RowOffset(h, w)..]
  {
    var k := RowOffset(h, w - 1);
    assert s[4 * h..][k..] == s[4 * h + k..];
  }

  /** A compressed body that reads successfully consumes four bytes per cell. */
  lemma {:induction false} LookupRowsConsume(s: seq<Token>, w: nat, h: nat, b: Codebooks)
    ensures var r := ReadRows(s, w, h, LookupCells(b));
      r.Ok? ==> |s| >= RowOffset(h, w) && r.value.rest == s[RowOffset(h, w)..]
    decreases w
  {
    var r := ReadRows(s, w, h, LookupCells(b));
    if w > 0 && r.Ok? {
      var row := ReadRow(s, h, LookupCells(b)).value;
      LookupRow(s, h, b, row.item, row.rest);
      LookupRowsConsume(row.rest, w - 1, h, b);
      ConsumeJoin(s, w, h, row.rest, r.value.rest);
    }
  }

  lemma DecodeRowsCons(b: Codebooks, s: seq<Token>, w: nat, h: nat, row: seq<Vec4>, rows: Matrix)
    ensures w > 0 && |s| >= 4 * h && DecodeRow(b, s, h) == Some(row) && DecodeRows(b, s[4 * h..], w - 1, h) == Some(rows)
      ==> DecodeRows(b, s, w, h) == Some([row] + rows)
  {
  }

  /** The rows of a compressed body that reads successfully are the reference decoding of its bytes. */
  lemma {:induction false} LookupRows(s: seq<Token>, w: nat, h: nat, b: Codebooks)
    ensures var r := ReadRows(s, w, h, LookupCells(b));
      r.Ok? ==> DecodeRows(b, s, w, h) == Some(r.value.item)
    decreases w
  {
    var r := ReadRows(s, w, h, LookupCells(b));
    if w > 0 && r.Ok? {
      var row := ReadRow(s, h, LookupCells(b)).value;
      var rows := ReadRows(row.rest, w - 1, h, LookupCells(b)).value;
      LookupRow(s, h, b, row.item, row.rest);
      LookupRows(row.rest, w - 1, h, b);
      DecodeRowsCons(b, s, w, h, row.item, rows.item);
    }
  }

  /** The selected entries are members of their codebooks. */
  lemma LookupIsMember(b: Codebooks, s: seq<Token>, k: nat)
    requires LookupCellAt(b, s, k).Some?
    ensures InCodebooks(b, LookupCellAt(b, s, k).value)
  {
    assert b.x[s[k].b] in b.x && b.y[s[k + 1].b] in b.y;
    assert b.z[s[k + 2].b] in b.z && b.w[s[k + 3].b] in b.w;
  }

  /**
   * A compressed matrix loads as codebook lookups: the four codebooks come
   * first, then the matrix is the one looked up from the index bytes after
   * them, cell (i, j) taking per channel the entry of that channel's
   * codebook at the byte read for it; so every value is a member of its
   * channel's codebook.
   */
  lemma CompressedLoadIsLookup(s: seq<Token>, m: Matrix, rest: seq<Token>)
    requires |s| >= 3 && s[0].I32? && s[1].I32? && s[2].I32? && s[2].i != 0
    requires LoadLSTMWeights(s) == Ok(Read(m, rest))
    ensures var books := ReadCodebooks(s[3..], s[2].i);
      && books.Ok?
      && |m| == s[0].i
      && (|m| > 0 ==> s[1].i >= 0 && DecodeRows(books.value.item, books.value.rest, |m|, s[1].i) == Some(m))
      && forall i, j :: 0 <= i < |m| && 0 <= j < |m[i]| ==> InCodebooks(books.value.item, m[i][j])
  {
    assert s[1..][1..][1..] == s[3..];
    var books := ReadCodebooks(s[3..], s[2].i).value;
    if s[0].i > 0 {
      var h := s[1].i;
      var row, t, rows := ReadRowsSplit(books.rest, s[0].i, h, LookupCells(books.item), m, rest);
      LookupRows(books.rest, s[0].i, h, books.item);
      forall i, j | 0 <= i < |m| && 0 <= j < |m[i]|
        ensures InCodebooks(books.item, m[i][j])
      {
        DecodeRowsAt(books.item, books.rest, |m|, h, i, j);
        LookupIsMember(books.item, books.rest, CellOffset(h, i, j));
      }
    }
  }

  /** A reader that cannot reject an index byte: raw cells, or codebooks of at least VqSize entries. */
  predicate CoversAllBytes(reader: CellReader) {
    reader.LookupCells? ==> FullBooks(reader.books)
  }

  lemma {:induction false} RowNeverMisses(s: seq<Token>, h: nat, reader: CellReader)
    requires CoversAllBytes(reader)
    ensures ReadRow(s, h, reader) != Err(ArgumentOutOfRange)
    decreases h
  {
    if h > 0 && ReadCell(s, reader).Ok? {
      RowNeverMisses(ReadCell(s, reader).value.rest, h - 1, reader);
    }
  }

  lemma {:induction false} RowsNeverMiss(s: seq<Token>, w: int, h: int, reader: CellReader)
    requires CoversAllBytes(reader)
    ensures ReadRows(s, w, h, reader) != Err(ArgumentOutOfRange)
    decreases w
  {
    if w > 0 && h >= 0 {
      RowNeverMisses(s, h, reader);
      if ReadRow(s, h, reader).Ok? {
        RowsNeverMiss(ReadRow(s, h, reader).value.rest, w - 1, h, reader);
      }
    }
  }

  /**
   * With a VQ flag of 0 or of at least 256 no index byte can fall outside its
   * codebook, so loading never fails with ArgumentOutOfRange. (Smaller
   * flags can: see NarrowCodebookRejectsIndex.)
   */
  lemma WideCodebooksAcceptEveryByte(s: seq<Token>)
    requires |s| >= 3 && s[2].I32? && (s[2].i == 0 || s[2].i >= VqSize)
    ensures LoadLSTMWeights(s) != Err(ArgumentOutOfRange)
  {
    if s[0].I32? && s[1].I32? && s[0].i >= 0 {
      var w, h, vq := s[0].i, s[1].i, s[2].i;
      assert s == [I32(w), I32(h), I32(vq)] + s[3..];
      LoadAfterHeader(w, h, vq, s[3..]);
      if vq == 0 {
        RowsNeverMiss(s[3..], w, h, PlainCells);
      } else {
        var books := ReadCodebooks(s[3..], vq);
        if books.Ok? {
          RowsNeverMiss(books.value.rest, w, h, LookupCells(books.value.item));
        }
      }
    } else {
      assert s[1..][1..][1..] == s[3..];
    }
  }

  /** A one-entry codebook: the byte 1 written for channel X indexes past its end. */
  lemma NarrowCodebookRejectsIndex()
    ensures LoadLSTMWeights([I32(1), I32(1), I32(1), F32(0.5), F32(0.5), F32(0.5), F32(0.5), U8(1), U8(0), U8(0), U8(0)])
         == Err(ArgumentOutOfRange)
  {
    var s := [I32(1), I32(1), I32(1), F32(0.5), F32(0.5), F32(0.5), F32(0.5), U8(1), U8(0), U8(0), U8(0)];
    var body := [U8(1), U8(0), U8(0), U8(0)];
    var b := Codebooks([0.5], [0.5], [0.5], [0.5]);
    assert s == [I32(1), I32(1), I32(1)] + (EncodeCodebooks(b) + body);
    CodebooksRoundTrip(b, body);
    LoadAfterHeader(1, 1, 1, EncodeCodebooks(b) + body);
    assert ReadCell(body, LookupCells(b)) == Err(ArgumentOutOfRange);
    assert ReadRow(body, 1, LookupCells(b)) == Err(ArgumentOutOfRange);
  }

  // ----- raw bodies: load, then save, gives back the stream -----

  lemma AppendAssoc(a: seq<Token>, b: seq<Token>, c: seq<Token>)
    ensures (a + b) + c == a + (b + c)
  {
  }

  lemma PlainCellReencodes(s: seq<Token>, c: Vec4, rest: seq<Token>)
    requires ReadCell(s, PlainCells) == Ok(Read(c, rest))
    ensures s == EncodeCell(c, Plain) + rest
  {
    assert s[1..][1..][1..][1..] == rest;
    assert s == [s[0], s[1], s[2], s[3]] + s[1..][1..][1..][1..];
  }

  lemma {:induction false} PlainRowReencodes(s: seq<Token>, h: nat, row: seq<Vec4>, rest: seq<Token>)
    requires ReadRow(s, h, PlainCells) == Ok(Read(row, rest))
    ensures s == EncodeRow(row, Plain) + rest
    decreases h
  {
    if h > 0 {
      var c, t, cs := ReadRowSplit(s, h, PlainCells, row, rest);
      PlainCellReencodes(s, c, t);
      PlainRowReencodes(t, h - 1, cs, rest);
      EncodeRowCons(c, cs, Plain);
      AppendAssoc(EncodeCell(c, Plain), EncodeRow(cs, Plain), rest);
    }
  }

  lemma {:induction false} PlainRowsReencode(s: seq<Token>, w: int, h: int, m: Matrix, rest: seq<Token>)
    requires ReadRows(s, w, h, PlainCells) == Ok(Read(m, rest))
    ensures s == EncodeRows(m, Plain) + rest
    decreases w
  {
    if w > 0 {
      var row, t, rows := ReadRowsSplit(s, w, h, PlainCells, m, rest);
      PlainRowReencodes(s, h, row, t);
      PlainRowsReencode(t, w - 1, h, rows, rest);
      EncodeRowsCons(row, rows, Plain);
      AppendAssoc(EncodeRow(row, Plain), EncodeRows(rows, Plain), rest);
    }
  }

  /** A raw matrix that loads is the body after a header naming its width and height. */
  lemma PlainLoadBody(s: seq<Token>, m: Matrix, rest: seq<Token>)
    requires |s| >= 3 && s[2] == I32(0)
    requires LoadLSTMWeights(s) == Ok(Read(m, rest)) && |m| > 0
    ensures s[0] == I32(|m|) && s[1].I32? && s[1].i >= 0
    ensures ReadRows(s[3..], |m|, s[1].i, PlainCells) == Ok(Read(m, rest))
  {
    assert s[1..][1..][1..] == s[3..];
  }

  /**
   * The converse of PlainRoundTrip: a raw matrix of width at least one that
   * loads from `s` is saved back as exactly the tokens it was read from.
   */
  lemma PlainLoadThenSave(s: seq<Token>, m: Matrix, rest: seq<Token>)
    requires |s| >= 3 && s[2] == I32(0)
    requires LoadLSTMWeights(s) == Ok(Read(m, rest)) && |m| > 0
    ensures ArrayShaped(m) && SaveLSTMWeights(m, Plain).Ok?
    ensures SaveLSTMWeights(m, Plain).value + rest == s
  {
    PlainLoadBody(s, m, rest);
    var h := s[1].i;
    assert Rectangular(m, h) && |m[0]| == h;
    assert ArrayShaped(m);
    PlainRowsReencode(s[3..], |m|, h, m, rest);
    CropRectangular(m);
    SavedLayout(m, Plain);
    var cells := EncodeRows(m, Plain);
    assert SaveLSTMWeights(m, Plain).value == [I32(|m|), I32(h), I32(0)] + cells;
    AppendAssoc([I32(|m|), I32(h), I32(0)], cells, rest);
    assert s == [s[0], s[1], s[2]] + s[3..];
  }
}
