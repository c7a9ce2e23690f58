/**
 * The persisted weight file as a stream of typed values. Each token stands
 * for one BinaryWriter.Write call of the layer: an Int32, a Double, a Single
 * or a Byte. Floating-point values are carried as reals that the codec only
 * copies; their IEEE bit patterns and little-endian byte layout are not
 * modelled.
 */
module Tokens {
  import opened Wrappers

  const MaxInt32: int := 0x7FFF_FFFF

  /** A C# `int`. */
  type int32 = x: int | -0x8000_0000 <= x <= MaxInt32

  /** A C# `byte`. */
  type uint8 = x: int | 0 <= x < 256

  datatype Token = I32(i: int32) | F64(d: real) | F32(f: real) | U8(b: uint8)

  /** The exceptions the layer's writer and reader can raise. */
  datatype Fault =
    | EndOfStream         // EndOfStreamException: the stream ends inside a read
    | KindMismatch        // the next value is not of the kind being read
    | NegativeSize        // OverflowException: an array allocated with a negative length
    | IndexOutOfRange     // IndexOutOfRangeException: an array indexed past its end
    | ArgumentOutOfRange  // ArgumentOutOfRangeException: a codebook list indexed past its end
    | NullReference       // NullReferenceException: a weight matrix that was never allocated

  /** A value read from the front of a stream, and the part of the stream after it. */
  datatype Read<+T> = Read(item: T, rest: seq<Token>)

  /** BinaryReader.ReadInt32. */
  function ReadInt32(s: seq<Token>): Result<Read<int32>, Fault> {
    if |s| == 0 then Err(EndOfStream)
    else if s[0].I32? then Ok(Read(s[0].i, s[1..]))
    else Err(KindMismatch)
  }

  /** BinaryReader.ReadDouble. */
  function ReadDouble(s: seq<Token>): Result<Read<real>, Fault> {
    if |s| == 0 then Err(EndOfStream)
    else if s[0].F64? then Ok(Read(s[0].d, s[1..]))
    else Err(KindMismatch)
  }

  /** BinaryReader.ReadSingle. */
  function ReadSingle(s: seq<Token>): Result<Read<real>, Fault> {
    if |s| == 0 then Err(EndOfStream)
    else if s[0].F32? then Ok(Read(s[0].f, s[1..]))
    else Err(KindMismatch)
  }

  /** BinaryReader.ReadByte. */
  function ReadByte(s: seq<Token>): Result<Read<uint8>, Fault> {
    if |s| == 0 then Err(EndOfStream)
    else if s[0].U8? then Ok(Read(s[0].b, s[1..]))
    else Err(KindMismatch)
  }

  /** The cast `(byte)n` in an unchecked context keeps the low eight bits of `n`. */
  function ToByte(n: int): (b: uint8)
    ensures 0 <= n < 256 ==> b == n
    ensures (n - b) % 256 == 0
  {
    n % 256
  }

  /** Singles written one after another. */
  function Singles(xs: seq<real>): (ts: seq<Token>)
    ensures |ts| == |xs|
  {
    seq(|xs|, i requires 0 <= i < |xs| => F32(xs[i]))
  }

  /** `for (i = 0; i < n; i++) list.Add(br.ReadSingle())`: a bound n <= 0 reads nothing. */
  function ReadSingles(s: seq<Token>, n: int): (r: Result<Read<seq<real>>, Fault>)
    ensures r.Ok? ==> |r.value.item| == (if n <= 0 then 0 else n)
    ensures r.Err? ==> r.error == EndOfStream || r.error == KindMismatch
    decreases n
  {
    if n <= 0 then Ok(Read([], s))
    else
      var x :- ReadSingle(s);
      var xs :- ReadSingles(x.rest, n - 1);
      Ok(Read([x.item] + xs.item, xs.rest))
  }

  /** Reading back as many Singles as were written returns them, in order, and leaves what follows. */
  lemma {:induction false} SinglesRoundTrip(xs: seq<real>, rest: seq<Token>)
    ensures ReadSingles(Singles(xs) + rest, |xs|) == Ok(Read(xs, rest))
    decreases |xs|
  {
    if |xs| == 0 {
      assert Singles(xs) + rest == rest;
    } else {
      var s := Singles(xs) + rest;
      assert s[0] == F32(xs[0]);
      assert s[1..] == Singles(xs[1..]) + rest;
      SinglesRoundTrip(xs[1..], rest);
      assert [xs[0]] + xs[1..] == xs;
    }
  }
}
