/**
 * Vector quantization of a projection matrix: each channel is replaced by
 * an entry of a per-channel codebook and stored as a one-byte index. The
 * clustering that builds a codebook (VectorQuantization.BuildCodebook) is not
 * part of this model; a quantizer is the codebook it produced together with
 * its nearest-centroid mapping (VectorQuantization.ComputeVQ), both opaque.
 */
module Quantization {
  import opened Wrappers
  import opened Tokens
  import opened Vectors

  /** The codebook size SaveLSTMWeights asks for, so that every index fits in a byte. */
  const VqSize: int := 256

  /** One trained VectorQuantization: its codebook and its ComputeVQ mapping. */
  datatype Quantizer = Quantizer(codebook: seq<real>, index: real -> int)

  /** The four quantizers of one matrix, for channels X, Y, Z and W. */
  datatype Quantizers = Quantizers(x: Quantizer, y: Quantizer, z: Quantizer, w: Quantizer)

  /** Four codebooks as read back from a file, for channels X, Y, Z and W. */
  datatype Codebooks = Codebooks(x: seq<real>, y: seq<real>, z: seq<real>, w: seq<real>)

  /** Every codebook has at least VqSize entries, so that every byte indexes one. */
  predicate FullBooks(b: Codebooks) {
    |b.x| >= VqSize && |b.y| >= VqSize && |b.z| >= VqSize && |b.w| >= VqSize
  }

  /** The codebooks of the four quantizers. */
  function Books(q: Quantizers): Codebooks {
    Codebooks(q.x.codebook, q.y.codebook, q.z.codebook, q.w.codebook)
  }

  /** Every codebook has the VqSize entries the writer emits. */
  predicate HasCodebooks(q: Quantizers) {
    FullBooks(Books(q))
  }

  /** The byte SaveLSTMWeights writes for `v`: `(byte)ComputeVQ(v)`. */
  function IndexByte(q: Quantizer, v: real): uint8 {
    ToByte(q.index(v))
  }

  /** The value a channel holds once compressed: the codebook entry its byte selects. */
  function Quantize(q: Quantizer, v: real): real
    requires |q.codebook| >= VqSize
  {
    q.codebook[IndexByte(q, v)]
  }

  function QuantizeCell(q: Quantizers, c: Vec4): Vec4
    requires HasCodebooks(q)
  {
    Vec4(Quantize(q.x, c.x), Quantize(q.y, c.y), Quantize(q.z, c.z), Quantize(q.w, c.w))
  }

  /** The part of each codebook the writer emits: its first VqSize entries. */
  function WrittenBooks(q: Quantizers): (b: Codebooks)
    requires HasCodebooks(q)
    ensures |b.x| == |b.y| == |b.z| == |b.w| == VqSize
  {
    Codebooks(q.x.codebook[..VqSize], q.y.codebook[..VqSize], q.z.codebook[..VqSize], q.w.codebook[..VqSize])
  }

  /** The four codebooks written one after another, X first. */
  function EncodeCodebooks(b: Codebooks): seq<Token> {
    Singles(b.x) + Singles(b.y) + Singles(b.z) + Singles(b.w)
  }

  /** The four codebook loops of LoadLSTMWeights, each reading `n` Singles. */
  function ReadCodebooks(s: seq<Token>, n: int): (r: Result<Read<Codebooks>, Fault>)
    ensures r.Ok? ==> var k := if n <= 0 then 0 else n;
      |r.value.item.x| == k && |r.value.item.y| == k && |r.value.item.z| == k && |r.value.item.w| == k
    ensures r.Err? ==> r.error == EndOfStream || r.error == KindMismatch
  {
    var x :- ReadSingles(s, n);
    var y :- ReadSingles(x.rest, n);
    var z :- ReadSingles(y.rest, n);
    var w :- ReadSingles(z.rest, n);
    Ok(Read(Codebooks(x.item, y.item, z.item, w.item), w.rest))
  }

  /** Four equally long codebooks are read back unchanged, X, Y, Z, W in that order. */
  lemma CodebooksRoundTrip(b: Codebooks, rest: seq<Token>)
    requires |b.y| == |b.x| && |b.z| == |b.x| && |b.w| == |b.x|
    ensures ReadCodebooks(EncodeCodebooks(b) + rest, |b.x|) == Ok(Read(b, rest))
  {
    var sw := Singles(b.w) + rest;
    var sz := Singles(b.z) + sw;
    var sy := Singles(b.y) + sz;
    assert EncodeCodebooks(b) + rest == Singles(b.x) + sy;
    SinglesRoundTrip(b.x, sy);
    SinglesRoundTrip(b.y, sz);
    SinglesRoundTrip(b.z, sw);
    SinglesRoundTrip(b.w, rest);
  }

  /**
   * `q2` keeps every entry of `book`: it maps each of the first VqSize
   * entries to an entry with the same value, as a nearest-centroid mapping
   * trained on those values does.
   */
  ghost predicate KeepsBook(q2: Quantizer, book: seq<real>)
    requires |q2.codebook| >= VqSize && |book| >= VqSize
  {
    forall k :: 0 <= k < VqSize ==> Quantize(q2, book[k]) == book[k]
  }

  /**
   * Compressing an already compressed cell again changes nothing. A re-save
   * builds four new quantizers `q2` from the decoded values; it is enough
   * that each of them keeps the codebook of the first save's quantizer `q1`.
   */
  lemma RequantizeIsIdentity(q1: Quantizers, q2: Quantizers, c: Vec4)
    requires HasCodebooks(q1) && HasCodebooks(q2)
    requires KeepsBook(q2.x, q1.x.codebook) && KeepsBook(q2.y, q1.y.codebook)
    requires KeepsBook(q2.z, q1.z.codebook) && KeepsBook(q2.w, q1.w.codebook)
    ensures QuantizeCell(q2, QuantizeCell(q1, c)) == QuantizeCell(q1, c)
  {
    assert IndexByte(q1.x, c.x) < VqSize;
    assert IndexByte(q1.y, c.y) < VqSize;
    assert IndexByte(q1.z, c.z) < VqSize;
    assert IndexByte(q1.w, c.w) < VqSize;
  }
}
