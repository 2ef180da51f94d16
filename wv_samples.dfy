/**
 * The I/Q samples of a WV waveform section. The payload interleaves the
 * samples as little-endian 16-bit integers, I then Q, four bytes per
 * sample. The loader picks the I (or Q) byte pairs out of a window of the
 * payload, reads them as int16 and scales them to [-1, 1].
 */
module WvSamples {
  import opened Wrappers
  import opened Text
  import opened Sequences
  import opened Values

  // ----- _extract_pairs -----

  /**
   * The window _extract_pairs walks, as (byte offset, byte length): four
   * bytes per sample; a zero or too large length means the whole buffer,
   * and a window running past the end is moved back to end at the end.
   */
  function Window(n: nat, offset: int, length: int): (int, int)
  {
    var l := length * 4;
    var o := offset * 4;
    var (o1, l1) := if l == 0 || l > n then (0, n) else (o, l);
    var o2 := if l1 + o1 > n then n - l1 else o1;
    (o2, l1)
  }

  /** The three cases of the window. */
  lemma WindowCases(n: nat, offset: int, length: int)
    ensures length == 0 || 4 * length > n ==> Window(n, offset, length) == (0, n)
    ensures length != 0 && 4 * length <= n && 4 * (length + offset) <= n ==> Window(n, offset, length) == (4 * offset, 4 * length)
    ensures length != 0 && 4 * length <= n && 4 * (length + offset) > n ==> Window(n, offset, length) == (n - 4 * length, 4 * length)
  {
  }

  /** The two bytes at each of idx, idx + 4, ... below `stop` (bytes slices: never failing, clipped). */
  function PairsFrom(buf: seq<Byte>, idx: int, stop: int): seq<Byte>
    decreases stop - idx
  {
    if idx >= stop then [] else Slice(buf, idx, idx + 2) + PairsFrom(buf, idx + 4, stop)
  }

  /** What _extract_pairs(buf, start, offset, length) returns. */
  function Pairs(buf: seq<Byte>, start: int, offset: int, length: int): seq<Byte>
  {
    var w := Window(|buf|, offset, length);
    PairsFrom(buf, 2 * start + w.0, w.0 + w.1)
  }

  /** _extract_pairs: the loop over np.arange(2 * start + offset, offset + length, 4). */
  method ExtractPairs(buf: seq<Byte>, start: int, offset: int, length: int) returns (pairs: seq<Byte>)
    ensures pairs == Pairs(buf, start, offset, length)
  {
    var actualOffset, actualLength := WindowOf(|buf|, offset, length);
    pairs := Walk(buf, 2 * start + actualOffset, actualOffset + actualLength);
  }

  /** The adjustments _extract_pairs makes to the offset and length it is given, in bytes. */
  method WindowOf(n: nat, offset: int, length: int) returns (actualOffset: int, actualLength: int)
    ensures (actualOffset, actualLength) == Window(n, offset, length)
  {
    actualLength := length * 4;
    actualOffset := offset * 4;
    if actualLength == 0 || actualLength > n {
      actualLength := n;
      actualOffset := 0;
    }
    if actualLength + actualOffset > n {
      actualOffset := n - actualLength;
    }
  }

  /** The loop of _extract_pairs: two bytes from each of idx, idx + 4, ... below `stop`. */
  method Walk(buf: seq<Byte>, first: int, stop: int) returns (pairs: seq<Byte>)
    ensures pairs == PairsFrom(buf, first, stop)
  {
    pairs := [];
    var idx := first;
    while idx < stop
      invariant pairs + PairsFrom(buf, idx, stop) == PairsFrom(buf, first, stop)
      decreases stop - idx
    {
      var temp := Slice(buf, idx, idx + 2);
      assert PairsFrom(buf, idx, stop) == temp + PairsFrom(buf, idx + 4, stop);
      pairs := pairs + temp;
      idx := idx + 4;
    }
    assert PairsFrom(buf, idx, stop) == [];
  }

  /** The I (s = 0) or Q (s = 1) half of each four-byte sample, in order. */
  function Halves(buf: seq<Byte>, s: int): seq<Byte>
    requires s == 0 || s == 1
    decreases |buf|
  {
    if |buf| < 4 then [] else buf[2 * s..2 * s + 2] + Halves(buf[4..], s)
  }

  /** Dropping a prefix of the buffer shifts the walk. */
  lemma {:induction false} PairsFromShift(buf: seq<Byte>, a: nat, idx: int, stop: int)
    requires a <= idx && a <= |buf|
    ensures PairsFrom(buf, idx, stop) == PairsFrom(buf[a..], idx - a, stop - a)
    decreases stop - idx
  {
    if idx < stop {
      PairsFromShift(buf, a, idx + 4, stop);
      assert Slice(buf, idx, idx + 2) == Slice(buf[a..], idx - a, idx - a + 2);
    }
  }

  /** Cutting the buffer after the last pair the walk reads changes nothing. */
  lemma {:induction false} PairsFromPrefix(buf: seq<Byte>, idx: int, stop: int, e: nat)
    requires 0 <= idx && stop <= e <= |buf| && (stop - idx) % 2 == 0
    ensures PairsFrom(buf, idx, stop) == PairsFrom(buf[..e], idx, stop)
    decreases stop - idx
  {
    if idx < stop {
      PairsFromPrefix(buf, idx + 4, stop, e);
      assert buf[idx..idx + 2] == buf[..e][idx..idx + 2];
    }
  }

  /**
   * With no length given, the I pairs (s = 0) or Q pairs (s = 1) of a
   * buffer of whole samples are the I or Q halves of each sample, in order.
   */
  lemma {:induction false} WholeBufferPairs(buf: seq<Byte>, s: int)
    requires |buf| % 4 == 0 && (s == 0 || s == 1)
    ensures Pairs(buf, s, 0, 0) == Halves(buf, s)
    decreases |buf|
  {
    assert Window(|buf|, 0, 0) == (0, |buf|);
    if |buf| >= 4 {
      WholeBufferPairs(buf[4..], s);
      assert Window(|buf| - 4, 0, 0) == (0, |buf| - 4);
      PairsFromShift(buf, 4, 2 * s + 4, |buf|);
    }
  }

  /**
   * A window of `length` samples from sample `offset` that fits in the
   * buffer gives the I or Q halves of exactly those samples.
   */
  lemma ChunkPairs(buf: seq<Byte>, s: int, offset: int, length: int)
    requires s == 0 || s == 1
    requires 0 <= offset && 0 < length && 4 * (offset + length) <= |buf|
    ensures Pairs(buf, s, offset, length) == Halves(buf[4 * offset..4 * (offset + length)], s)
  {
    var o, l := 4 * offset, 4 * length;
    assert Window(|buf|, offset, length) == (o, l) by {
      WindowCases(|buf|, offset, length);
    }
    BytePairs(buf, s, o, l);
    assert buf[4 * offset..4 * (offset + length)] == buf[o..o + l];
  }

  lemma EvenGap(l: int, s: int)
    requires l % 4 == 0 && (s == 0 || s == 1)
    ensures (l - 2 * s) % 2 == 0
  {
    var k := l / 4;
    assert l - 2 * s == 2 * (2 * k - s);
  }

  /** The pairs of the bytes o up to o + l, read in place, are the halves of that slice. */
  lemma BytePairs(buf: seq<Byte>, s: int, o: nat, l: nat)
    requires s == 0 || s == 1
    requires l % 4 == 0 && o + l <= |buf|
    ensures PairsFrom(buf, 2 * s + o, o + l) == Halves(buf[o..o + l], s)
  {
    SlicePairs(buf, s, o, l);
    ChunkHalves(buf[o..o + l], s);
  }

  lemma SlicePairs(buf: seq<Byte>, s: int, o: nat, l: nat)
    requires s == 0 || s == 1
    requires l % 4 == 0 && o + l <= |buf|
    ensures PairsFrom(buf, 2 * s + o, o + l) == PairsFrom(buf[o..o + l], 2 * s, l)
  {
    var c := buf[o..];
    assert PairsFrom(buf, 2 * s + o, o + l) == PairsFrom(c, 2 * s, l) by {
      PairsFromShift(buf, o, 2 * s + o, o + l);
    }
    EvenGap(l, s);
    PairsFromPrefix(c, 2 * s, l, l);
    assert c[..l] == buf[o..o + l];
  }

  lemma ChunkHalves(chunk: seq<Byte>, s: int)
    requires s == 0 || s == 1
    requires |chunk| % 4 == 0
    ensures Halves(chunk, s) == PairsFrom(chunk, 2 * s, |chunk|)
  {
    WholeBufferPairs(chunk, s);
    assert Window(|chunk|, 0, 0) == (0, |chunk|);
  }

  // ----- int16 -----

  /** A signed 16-bit integer. */
  type Int16 = x: int | -32768 <= x < 32768

  /** The int16 whose little-endian bytes are lo, hi. */
  function Int16Of(lo: Byte, hi: Byte): (v: Int16)
    ensures v == (if hi < 128 then lo + 256 * hi else lo + 256 * hi - 65536)
  {
    if hi < 128 then lo + 256 * hi else lo + 256 * hi - 65536
  }

  /** The little-endian bytes of an int16 (what the saver writes). */
  function Int16Bytes(v: Int16): (b: seq<Byte>)
    ensures |b| == 2
  {
    var u := if v < 0 then v + 65536 else v;
    [u % 256, u / 256]
  }

  lemma Int16RoundTrip(v: Int16)
    ensures Int16Of(Int16Bytes(v)[0], Int16Bytes(v)[1]) == v
  {
  }

  lemma Int16BytesRoundTrip(lo: Byte, hi: Byte)
    ensures Int16Bytes(Int16Of(lo, hi)) == [lo, hi]
  {
  }

  /** np.frombuffer(buffer, dtype=int16): refused unless the length is a multiple of two. */
  function FromBuffer(b: seq<Byte>): (r: Result<seq<Int16>>)
    ensures r.Err? <==> |b| % 2 != 0
    ensures r.Err? ==> r.error == ValueError(BufferSize)
    ensures r.Ok? ==> r.value == Int16s(b)
  {
    if |b| % 2 != 0 then Err(ValueError(BufferSize)) else Ok(Int16s(b))
  }

  /** The int16 values of consecutive byte pairs. */
  function Int16s(b: seq<Byte>): (vs: seq<Int16>)
    ensures |vs| == |b| / 2
    ensures forall k :: 0 <= k < |vs| ==> vs[k] == Int16Of(b[2 * k], b[2 * k + 1])
  {
    if |b| < 2 then [] else [Int16Of(b[0], b[1])] + Int16s(b[2..])
  }

  /** The bytes of a sequence of int16 values (ndarray.tobytes()). */
  function ToBytes(vs: seq<Int16>): (b: seq<Byte>)
    ensures |b| == 2 * |vs|
  {
    if vs == [] then [] else Int16Bytes(vs[0]) + ToBytes(vs[1..])
  }

  /** Reading back what the saver wrote gives the same int16 values. */
  lemma {:induction false} FromBufferToBytes(vs: seq<Int16>)
    ensures FromBuffer(ToBytes(vs)) == Ok(vs)
  {
    if vs != [] {
      FromBufferToBytes(vs[1..]);
      Int16RoundTrip(vs[0]);
      var b := ToBytes(vs);
      assert b[0] == Int16Bytes(vs[0])[0] && b[1] == Int16Bytes(vs[0])[1];
      assert b[2..] == ToBytes(vs[1..]);
      assert Int16s(b[2..]) == vs[1..];
      assert Int16s(b) == [vs[0]] + vs[1..] == vs;
      assert |b| % 2 == 0;
    }
  }

  // ----- _extract_iq -----

  /**
   * _extract_iq_chunks(waveform, length, offset) (and _extract_iq, which
   * is the case offset = length = 0): refuses an empty waveform, reads the
   * I and Q pairs as int16, scales them with _fix_to_double (`fix` stands
   * for float16(v) / float16(32767)) and combines them.
   */
  function ExtractIq(waveform: seq<Byte>, offset: int, length: int, fix: Int16 -> real): (r: Result<seq<Complex>>)
    ensures waveform == [] ==> r == Err(ValueError(NoWaveformData))
  {
    if waveform == [] then Err(ValueError(NoWaveformData))
    else
      var i :- FromBuffer(Pairs(waveform, 0, offset, length));
      var q :- FromBuffer(Pairs(waveform, 1, offset, length));
      Combine(Elementwise(i, fix), Elementwise(q, fix))
  }

  /**
   * A window that runs past the end of the buffer is moved back: the pairs
   * read are those of the last `length` samples' bytes, whatever the offset.
   */
  lemma WindowMovedBack(buf: seq<Byte>, s: int, offset: int, length: int)
    requires s == 0 || s == 1
    requires 0 < length && 4 * length <= |buf| < 4 * (offset + length)
    ensures Pairs(buf, s, offset, length) == Pairs(buf[|buf| - 4 * length..], s, 0, 0)
  {
    var a := |buf| - 4 * length;
    assert Window(|buf|, offset, length) == (a, 4 * length) by {
      WindowCases(|buf|, offset, length);
    }
    assert Window(4 * length, 0, 0) == (0, 4 * length) by {
      WindowCases(4 * length, 0, 0);
    }
    assert |buf[a..]| == 4 * length;
    PairsFromShift(buf, a, 2 * s + a, |buf|);
  }

  /** The samples of a window that runs past the end are the last `length` samples' bytes read whole. */
  lemma ExtractIqMovedBack(waveform: seq<Byte>, offset: int, length: int, fix: Int16 -> real)
    requires 0 < length && 4 * length <= |waveform| < 4 * (offset + length)
    ensures ExtractIq(waveform, offset, length, fix) == ExtractIq(waveform[|waveform| - 4 * length..], 0, 0, fix)
  {
    WindowMovedBack(waveform, 0, offset, length);
    WindowMovedBack(waveform, 1, offset, length);
  }

  /** The bytes of a waveform section holding the given samples, I then Q. */
  function Interleave(i: seq<Int16>, q: seq<Int16>): (b: seq<Byte>)
    requires |i| == |q|
    ensures |b| == 4 * |i|
  {
    if i == [] then [] else Int16Bytes(i[0]) + Int16Bytes(q[0]) + Interleave(i[1..], q[1..])
  }

  /** The I (s = 0) or Q (s = 1) halves of interleaved samples are the bytes of those values. */
  lemma {:induction false} HalvesOfInterleave(i: seq<Int16>, q: seq<Int16>, s: int)
    requires |i| == |q| && (s == 0 || s == 1)
    ensures Halves(Interleave(i, q), s) == ToBytes(if s == 0 then i else q)
  {
    if i != [] {
      HalvesOfInterleave(i[1..], q[1..], s);
      var b := Interleave(i, q);
      assert b[4..] == Interleave(i[1..], q[1..]);
      assert b[2 * s..2 * s + 2] == Int16Bytes(if s == 0 then i[0] else q[0]);
    }
  }

  /**
   * Samples written interleaved are read back: the loader returns one
   * complex value per sample, I and Q scaled by `fix`.
   */
  lemma ExtractIqOfInterleave(i: seq<Int16>, q: seq<Int16>, fix: Int16 -> real)
    requires |i| == |q| > 0
    ensures ExtractIq(Interleave(i, q), 0, 0, fix) == Ok(seq(|i|, k requires 0 <= k < |i| => Complex(fix(i[k]), fix(q[k]))))
  {
    var b := Interleave(i, q);
    ReadHalf(i, q, 0);
    ReadHalf(i, q, 1);
    assert ExtractIq(b, 0, 0, fix) == Combine(Elementwise(i, fix), Elementwise(q, fix));
    var r := Combine(Elementwise(i, fix), Elementwise(q, fix));
    assert r.Ok? && |r.value| == |i|;
    assert forall k :: 0 <= k < |i| ==> r.value[k] == Complex(fix(i[k]), fix(q[k]));
    assert r.value == seq(|i|, k requires 0 <= k < |i| => Complex(fix(i[k]), fix(q[k])));
  }

  lemma ReadHalf(i: seq<Int16>, q: seq<Int16>, s: int)
    requires |i| == |q| && (s == 0 || s == 1)
    ensures FromBuffer(Pairs(Interleave(i, q), s, 0, 0)) == Ok(if s == 0 then i else q)
  {
    var b := Interleave(i, q);
    var v := if s == 0 then i else q;
    assert Pairs(b, s, 0, 0) == Halves(b, s) by {
      WholeBufferPairs(b, s);
    }
    assert Halves(b, s) == ToBytes(v) by {
      HalvesOfInterleave(i, q, s);
    }
    FromBufferToBytes(v);
  }

  /** Dropping the first a samples of interleaved data drops its first 4a bytes. */
  lemma {:induction false} InterleaveDrop(i: seq<Int16>, q: seq<Int16>, a: nat)
    requires |i| == |q| && a <= |i|
    ensures Interleave(i, q)[4 * a..] == Interleave(i[a..], q[a..])
    decreases a
  {
    if a > 0 {
      InterleaveDrop(i[1..], q[1..], a - 1);
      assert Interleave(i, q)[4..] == Interleave(i[1..], q[1..]);
      assert i[1..][a - 1..] == i[a..] && q[1..][a - 1..] == q[a..];
    }
  }

  /** Keeping the first n samples of interleaved data keeps its first 4n bytes. */
  lemma {:induction false} InterleaveTake(i: seq<Int16>, q: seq<Int16>, n: nat)
    requires |i| == |q| && n <= |i|
    ensures Interleave(i, q)[..4 * n] == Interleave(i[..n], q[..n])
    decreases n
  {
    if n > 0 {
      InterleaveTake(i[1..], q[1..], n - 1);
      var b := Interleave(i, q);
      assert b == Int16Bytes(i[0]) + Int16Bytes(q[0]) + Interleave(i[1..], q[1..]);
      assert b[..4 * n] == Int16Bytes(i[0]) + Int16Bytes(q[0]) + Interleave(i[1..], q[1..])[..4 * (n - 1)];
      assert i[..n][1..] == i[1..][..n - 1] && q[..n][1..] == q[1..][..n - 1];
    }
  }

  /** The bytes of a window of interleaved samples are the interleaving of the window. */
  lemma WindowBytes(i: seq<Int16>, q: seq<Int16>, offset: nat, length: nat)
    requires |i| == |q| && offset + length <= |i|
    ensures 4 * (offset + length) <= |Interleave(i, q)|
    ensures Interleave(i, q)[4 * offset..4 * (offset + length)] == Interleave(i[offset..offset + length], q[offset..offset + length])
  {
    var b := Interleave(i, q);
    InterleaveDrop(i, q, offset);
    InterleaveTake(i[offset..], q[offset..], length);
    assert i[offset..][..length] == i[offset..offset + length] && q[offset..][..length] == q[offset..offset + length];
    assert b[4 * offset..4 * (offset + length)] == b[4 * offset..][..4 * length];
  }

  /** The I (s = 0) or Q (s = 1) pairs of a window of interleaved samples read back as that window's values. */
  lemma WindowPairs(i: seq<Int16>, q: seq<Int16>, offset: nat, length: nat, s: int)
    requires |i| == |q| && 0 < length && offset + length <= |i| && (s == 0 || s == 1)
    ensures FromBuffer(Pairs(Interleave(i, q), s, offset, length)) == Ok(if s == 0 then i[offset..offset + length] else q[offset..offset + length])
  {
    var b := Interleave(i, q);
    var wi := i[offset..offset + length];
    var wq := q[offset..offset + length];
    WindowBytes(i, q, offset, length);
    ChunkPairs(b, s, offset, length);
    HalvesOfInterleave(wi, wq, s);
    FromBufferToBytes(if s == 0 then wi else wq);
  }

  /**
   * A chunked read of interleaved samples returns exactly the samples of
   * the window [offset, offset + length), I and Q scaled by `fix`.
   */
  lemma ChunkOfInterleave(i: seq<Int16>, q: seq<Int16>, offset: nat, length: nat, fix: Int16 -> real)
    requires |i| == |q| && 0 < length && offset + length <= |i|
    ensures ExtractIq(Interleave(i, q), offset, length, fix)
      == Ok(seq(length, k requires 0 <= k < length => Complex(fix(i[offset + k]), fix(q[offset + k]))))
  {
    var b := Interleave(i, q);
    var wi := i[offset..offset + length];
    var wq := q[offset..offset + length];
    WindowPairs(i, q, offset, length, 0);
    WindowPairs(i, q, offset, length, 1);
    assert b != [] by {
      assert |Pairs(b, 0, offset, length)| > 0;
    }
    assert ExtractIq(b, offset, length, fix) == Combine(Elementwise(wi, fix), Elementwise(wq, fix));
    CombineWindow(i, q, offset, length, fix);
  }

  lemma CombineWindow(i: seq<Int16>, q: seq<Int16>, offset: nat, length: nat, fix: Int16 -> real)
    requires |i| == |q| && offset + length <= |i|
    ensures Combine(Elementwise(i[offset..offset + length], fix), Elementwise(q[offset..offset + length], fix))
      == Ok(seq(length, k requires 0 <= k < length => Complex(fix(i[offset + k]), fix(q[offset + k]))))
  {
    var wi, wq := i[offset..offset + length], q[offset..offset + length];
    var r := Combine(Elementwise(wi, fix), Elementwise(wq, fix));
    assert r.Ok? && |r.value| == length;
    assert forall k :: 0 <= k < length ==> r.value[k] == Complex(fix(i[offset + k]), fix(q[offset + k]));
    assert r.value == seq(length, k requires 0 <= k < length => Complex(fix(i[offset + k]), fix(q[offset + k])));
  }
}
