/**
 * The WV control list: four marker channels with one bit per sample,
 * packed two samples to a byte. The high nibble holds the even sample and
 * the low nibble the odd one; within a nibble marker 1 is the most
 * significant bit. An odd sample count is padded with one all-zero sample.
 */
module ArrayToBytes {
  import opened Wrappers
  import opened Text
  import opened Values

  function Pow2(p: nat): (r: nat)
    requires p < 8
    ensures r > 0
  {
    [1, 2, 4, 8, 16, 32, 64, 128][p]
  }

  /** Bit `p` of a byte (0 is the least significant). */
  function Bit(b: int, p: nat): int
    requires p < 8
  {
    (b / Pow2(p)) % 2
  }

  /** Element (r, c) of a matrix, or 0 where the array has none. */
  function Entry(a: NdArray, r: nat, c: nat): int
  {
    if a.Dim? && r < |a.items| && a.items[r].Dim? && c < |a.items[r].items| && a.items[r].items[c].Scalar?
    then a.items[r].items[c].x
    else 0
  }

  /** astype(uint8) followed by packbits: a value is a set bit when it is non-zero modulo 256. */
  function BitValue(x: int): int
  {
    if x % 256 != 0 then 1 else 0
  }

  predicate TwoDimensional(a: NdArray)
  {
    |Shape(a)| == 2
  }

  /** The number of samples of a two-dimensional array: 4 x N is checked before N x 4. */
  function SampleCount(a: NdArray): nat
    requires TwoDimensional(a)
  {
    if Shape(a)[0] == 4 then Shape(a)[1] else Shape(a)[0]
  }

  /** Marker `m` of sample `j`: a 4 x N array keeps a marker per row, an N x 4 array a sample per row. */
  function MarkerBit(a: NdArray, j: nat, m: nat): int
    requires TwoDimensional(a) && m < 4
  {
    if j >= SampleCount(a) then 0
    else if Shape(a)[0] == 4 then BitValue(Entry(a, m, j))
    else BitValue(Entry(a, j, m))
  }

  /** The four markers of sample `j` as a nibble, marker 1 first. */
  function Nibble(a: NdArray, j: nat): nat
    requires TwoDimensional(a)
  {
    8 * MarkerBit(a, j, 0) + 4 * MarkerBit(a, j, 1) + 2 * MarkerBit(a, j, 2) + MarkerBit(a, j, 3)
  }

  /** pack_bool_array_to_bytes. */
  function Pack(a: NdArray): (r: Result<seq<Byte>>)
    ensures r.Err? <==> !TwoDimensional(a) || (Shape(a)[0] != 4 && Shape(a)[1] != 4)
    ensures r.Err? ==> r.error == ValueError(if !TwoDimensional(a) then NotTwoDimensional else NoMarkerDimension)
    ensures r.Ok? ==> |r.value| == (SampleCount(a) + 1) / 2
  {
    if !TwoDimensional(a) then Err(ValueError(NotTwoDimensional))
    else if Shape(a)[0] != 4 && Shape(a)[1] != 4 then Err(ValueError(NoMarkerDimension))
    else
      var n := (SampleCount(a) + 1) / 2;
      Ok(seq(n, k requires 0 <= k < n => PackedByte(a, k)))
  }

  /** Byte `k` of the packed list: samples 2k and 2k+1. */
  function PackedByte(a: NdArray, k: nat): Byte
    requires TwoDimensional(a)
  {
    16 * Nibble(a, 2 * k) + Nibble(a, 2 * k + 1)
  }

  /** Python's a[:stop] length for a sequence of `len` elements. */
  function SliceStop(stop: int, len: nat): (r: nat)
    ensures r <= len
    ensures 0 <= stop <= len ==> r == stop
  {
    if stop >= len then len
    else if stop >= 0 then stop
    else if len + stop >= 0 then len + stop
    else 0
  }

  /** Marker `m` of sample `r` in the unpacked bit stream. */
  function UnpackedBit(bytes: seq<Byte>, m: nat, r: nat): int
    requires m < 4 && r < 2 * |bytes|
  {
    var t := 4 * r + m;
    Bit(bytes[t / 8], 7 - t % 8)
  }

  /**
   * unpack_bytes_to_bool_array: the bits of the bytes, most significant
   * first, read as samples of four markers, transposed to 4 x samples and
   * cut to `numSamples` columns.
   */
  function Unpack(bytes: seq<Byte>, numSamples: int): (r: NdArray)
  {
    var c := SliceStop(numSamples, 2 * |bytes|);
    Matrix(seq(4, m requires 0 <= m < 4 => seq(c, j requires 0 <= j < c => UnpackedBit(bytes, m, j))))
  }

  /** a.T for a two-dimensional array. */
  function Transpose(a: NdArray): NdArray
    requires TwoDimensional(a)
  {
    var rows := Shape(a)[0];
    var cols := Shape(a)[1];
    Matrix(seq(cols, c requires 0 <= c < cols => seq(rows, r requires 0 <= r < rows => Entry(a, r, c))))
  }

  /** Rows of equal length `n`. */
  predicate Rectangular(rows: seq<seq<int>>, n: nat)
  {
    forall r :: 0 <= r < |rows| ==> |rows[r]| == n
  }

  predicate AllBits(rows: seq<seq<int>>)
  {
    forall r, c :: 0 <= r < |rows| && 0 <= c < |rows[r]| ==> rows[r][c] == 0 || rows[r][c] == 1
  }

  // ----- lemmas -----

  lemma ShapeMatrix(rows: seq<seq<int>>, n: nat)
    requires |rows| > 0 && Rectangular(rows, n)
    ensures Shape(Matrix(rows)) == [|rows|, n]
    ensures WellShaped(Matrix(rows))
  {
    var a := Matrix(rows);
    assert Shape(a.items[0]) == [n];
  }

  lemma EntryMatrix(rows: seq<seq<int>>, r: nat, c: nat)
    requires r < |rows| && c < |rows[r]|
    ensures Entry(Matrix(rows), r, c) == rows[r][c]
  {
  }

  /** Unpacking gives a 4-row matrix of bits with as many columns as asked for, within the bytes' capacity. */
  lemma UnpackShape(bytes: seq<Byte>, numSamples: int)
    ensures Shape(Unpack(bytes, numSamples)) == [4, SliceStop(numSamples, 2 * |bytes|)]
    ensures WellShaped(Unpack(bytes, numSamples))
  {
    var c := SliceStop(numSamples, 2 * |bytes|);
    ShapeMatrix(seq(4, m requires 0 <= m < 4 => seq(c, j requires 0 <= j < c => UnpackedBit(bytes, m, j))), c);
  }

  /** The high nibble's bits of a byte made of two nibbles. */
  lemma HighBit(hi: nat, lo: nat, m: nat)
    requires hi < 16 && lo < 16 && m < 4
    ensures Bit(16 * hi + lo, 7 - m) == (hi / Pow2(3 - m)) % 2
  {
    var x := 16 * hi + lo;
    if m == 0 {
      assert Pow2(7) == 128 && Pow2(3) == 8;
      var q, r := hi / 8, hi % 8;
      assert x == 128 * q + (16 * r + lo) && 16 * r + lo < 128;
    } else if m == 1 {
      assert Pow2(6) == 64 && Pow2(2) == 4;
      var q, r := hi / 4, hi % 4;
      assert x == 64 * q + (16 * r + lo) && 16 * r + lo < 64;
    } else if m == 2 {
      assert Pow2(5) == 32 && Pow2(1) == 2;
      var q, r := hi / 2, hi % 2;
      assert x == 32 * q + (16 * r + lo) && 16 * r + lo < 32;
    } else {
      assert Pow2(4) == 16 && Pow2(0) == 1;
      assert x / 16 == hi;
    }
  }

  /** The low nibble's bits of a byte made of two nibbles. */
  lemma LowBit(hi: nat, lo: nat, m: nat)
    requires hi < 16 && lo < 16 && m < 4
    ensures Bit(16 * hi + lo, 3 - m) == (lo / Pow2(3 - m)) % 2
  {
    var x := 16 * hi + lo;
    if m == 0 {
      assert Pow2(3) == 8;
      DivOf8(2 * hi + lo / 8, lo % 8);
      EvenPlus(hi, lo / 8);
    } else if m == 1 {
      assert Pow2(2) == 4;
      DivOf4(4 * hi + lo / 4, lo % 4);
      EvenPlus(2 * hi, lo / 4);
    } else if m == 2 {
      assert Pow2(1) == 2;
      DivOf2(8 * hi + lo / 2, lo % 2);
      EvenPlus(4 * hi, lo / 2);
    } else {
      assert Pow2(0) == 1;
      assert x / 1 == x;
      EvenPlus(8 * hi, lo);
    }
  }

  lemma DivOf8(q: int, r: int)
    requires 0 <= r < 8
    ensures (8 * q + r) / 8 == q
  {
  }

  lemma DivOf4(q: int, r: int)
    requires 0 <= r < 4
    ensures (4 * q + r) / 4 == q
  {
  }

  lemma DivOf2(q: int, r: int)
    requires 0 <= r < 2
    ensures (2 * q + r) / 2 == q
  {
  }

  lemma EvenPlus(h: int, q: int)
    ensures (2 * h + q) % 2 == q % 2
  {
  }

  /** Bit 3 - m of a nibble is marker m. */
  lemma NibbleBit(a: NdArray, j: nat, m: nat)
    requires TwoDimensional(a) && m < 4
    ensures Nibble(a, j) < 16
    ensures (Nibble(a, j) / Pow2(3 - m)) % 2 == MarkerBit(a, j, m)
  {
    var b0, b1, b2, b3 := MarkerBit(a, j, 0), MarkerBit(a, j, 1), MarkerBit(a, j, 2), MarkerBit(a, j, 3);
    var x := Nibble(a, j);
    assert x == 8 * b0 + 4 * b1 + 2 * b2 + b3;
    if m == 0 {
      assert x / 8 == b0;
    } else if m == 1 {
      assert x / 4 == 2 * b0 + b1;
    } else if m == 2 {
      assert x / 2 == 4 * b0 + 2 * b1 + b2;
    }
  }

  /** The unpacked bit of sample r is in byte r / 2, in its high nibble when r is even. */
  lemma UnpackedBitIndex(bytes: seq<Byte>, m: nat, r: nat)
    requires m < 4 && r < 2 * |bytes|
    ensures r % 2 == 0 ==> UnpackedBit(bytes, m, r) == Bit(bytes[r / 2], 7 - m)
    ensures r % 2 == 1 ==> UnpackedBit(bytes, m, r) == Bit(bytes[r / 2], 3 - m)
  {
    var t := 4 * r + m;
    assert t / 8 == r / 2 && t % 8 == 4 * (r % 2) + m;
  }

  /** Byte k of a packed array is made of the nibbles of samples 2k and 2k+1. */
  lemma PackedByteAt(a: NdArray, bytes: seq<Byte>, k: nat)
    requires Pack(a) == Ok(bytes) && k < |bytes|
    ensures TwoDimensional(a) && bytes[k] == 16 * Nibble(a, 2 * k) + Nibble(a, 2 * k + 1)
  {
  }

  /** Every unpacked bit is the marker bit that was packed. */
  lemma UnpackedPackedBit(a: NdArray, bytes: seq<Byte>, m: nat, r: nat)
    requires Pack(a) == Ok(bytes)
    requires m < 4 && r < 2 * |bytes|
    ensures UnpackedBit(bytes, m, r) == MarkerBit(a, r, m)
  {
    var k := r / 2;
    PackedByteAt(a, bytes, k);
    UnpackedBitIndex(bytes, m, r);
    var hi := Nibble(a, 2 * k);
    var lo := Nibble(a, 2 * k + 1);
    NibbleBit(a, 2 * k, m);
    NibbleBit(a, 2 * k + 1, m);
    if r % 2 == 0 {
      assert 2 * k == r;
      HighBit(hi, lo, m);
    } else {
      assert 2 * k + 1 == r;
      LowBit(hi, lo, m);
    }
  }

  /** A marker bit of a 4 x N matrix is read from row m. */
  lemma MarkerBitRows(rows: seq<seq<int>>, n: nat, j: nat, m: nat)
    requires |rows| == 4 && Rectangular(rows, n) && j < n && m < 4
    ensures TwoDimensional(Matrix(rows)) && MarkerBit(Matrix(rows), j, m) == BitValue(rows[m][j])
  {
    ShapeMatrix(rows, n);
    EntryMatrix(rows, m, j);
  }

  /** A marker bit of an N x 4 matrix (N other than 4) is read from row j. */
  lemma MarkerBitColumns(rows: seq<seq<int>>, j: nat, m: nat)
    requires |rows| != 4 && |rows| > 0 && Rectangular(rows, 4) && j < |rows| && m < 4
    ensures TwoDimensional(Matrix(rows)) && MarkerBit(Matrix(rows), j, m) == BitValue(rows[j][m])
  {
    ShapeMatrix(rows, 4);
    EntryMatrix(rows, j, m);
  }

  /** One bit of the 4 x N round trip. */
  lemma UnpackPackEntry(rows: seq<seq<int>>, n: nat, bytes: seq<Byte>, m: nat, j: nat)
    requires |rows| == 4 && Rectangular(rows, n) && AllBits(rows)
    requires Pack(Matrix(rows)) == Ok(bytes) && m < 4 && j < n
    ensures j < 2 * |bytes| && UnpackedBit(bytes, m, j) == rows[m][j]
  {
    ShapeMatrix(rows, n);
    assert SampleCount(Matrix(rows)) == n;
    assert |bytes| == (n + 1) / 2;
    UnpackedPackedBit(Matrix(rows), bytes, m, j);
    MarkerBitRows(rows, n, j, m);
    BitValueOfBit(rows[m][j]);
  }

  lemma BitValueOfBit(x: int)
    requires x == 0 || x == 1
    ensures BitValue(x) == x
  {
  }

  /** unpack(pack(A), N) == A for every 4 x N array of bits (odd N included). */
  lemma UnpackPack(rows: seq<seq<int>>, n: nat)
    requires |rows| == 4 && Rectangular(rows, n) && AllBits(rows)
    ensures Pack(Matrix(rows)).Ok?
    ensures Unpack(Pack(Matrix(rows)).value, n) == Matrix(rows)
  {
    ShapeMatrix(rows, n);
    var bytes := Pack(Matrix(rows)).value;
    assert SliceStop(n, 2 * |bytes|) == n;
    var back := seq(4, m requires 0 <= m < 4 => seq(n, j requires 0 <= j < n => UnpackedBit(bytes, m, j)));
    assert Unpack(bytes, n) == Matrix(back);
    forall m | 0 <= m < 4
      ensures back[m] == rows[m]
    {
      forall j | 0 <= j < n
        ensures back[m][j] == rows[m][j]
      {
        UnpackPackEntry(rows, n, bytes, m, j);
      }
    }
    assert back == rows;
  }

  /** An N x 4 array of bits (N other than 4) unpacks to its transpose, the 4 x N layout. */
  lemma UnpackPackTransposed(rows: seq<seq<int>>)
    requires |rows| != 4 && |rows| > 0 && Rectangular(rows, 4) && AllBits(rows)
    ensures Pack(Matrix(rows)).Ok?
    ensures Unpack(Pack(Matrix(rows)).value, |rows|) == Transpose(Matrix(rows))
  {
    var a := Matrix(rows);
    var n := |rows|;
    ShapeMatrix(rows, 4);
    var bytes := Pack(a).value;
    assert SliceStop(n, 2 * |bytes|) == n;
    var back := seq(4, m requires 0 <= m < 4 => seq(n, j requires 0 <= j < n => UnpackedBit(bytes, m, j)));
    var cols := seq(4, c requires 0 <= c < 4 => seq(n, r requires 0 <= r < n => Entry(a, r, c)));
    assert Unpack(bytes, n) == Matrix(back);
    assert Transpose(a) == Matrix(cols);
    forall m | 0 <= m < 4
      ensures back[m] == cols[m]
    {
      forall j | 0 <= j < n
        ensures back[m][j] == cols[m][j]
      {
        assert back[m][j] == UnpackedBit(bytes, m, j);
        assert cols[m][j] == Entry(a, j, m);
        UnpackPackTransposedEntry(rows, bytes, m, j);
      }
    }
    assert back == cols;
  }

  /** One bit of the N x 4 round trip. */
  lemma UnpackPackTransposedEntry(rows: seq<seq<int>>, bytes: seq<Byte>, m: nat, j: nat)
    requires |rows| != 4 && |rows| > 0 && Rectangular(rows, 4) && AllBits(rows)
    requires Pack(Matrix(rows)) == Ok(bytes) && m < 4 && j < |rows|
    ensures j < 2 * |bytes| && UnpackedBit(bytes, m, j) == Entry(Matrix(rows), j, m)
  {
    var a := Matrix(rows);
    ShapeMatrix(rows, 4);
    assert SampleCount(a) == |rows|;
    assert |bytes| == (|rows| + 1) / 2;
    assert j < 2 * |bytes|;
    UnpackedPackedBit(a, bytes, m, j);
    MarkerBitColumns(rows, j, m);
    BitValueOfBit(rows[j][m]);
    assert UnpackedBit(bytes, m, j) == rows[j][m];
    EntryMatrix(rows, j, m);
  }

  /** A 4 x N array and its N x 4 transpose pack to the same bytes, unless N is 4 too. */
  lemma PackTranspose(rows: seq<seq<int>>, n: nat)
    requires |rows| == 4 && Rectangular(rows, n) && n != 4 && n > 0
    ensures TwoDimensional(Matrix(rows)) && Pack(Transpose(Matrix(rows))) == Pack(Matrix(rows))
  {
    var a := Matrix(rows);
    ShapeMatrix(rows, n);
    var cols := seq(n, c requires 0 <= c < n => seq(4, r requires 0 <= r < 4 => Entry(a, r, c)));
    var t := Transpose(a);
    assert t == Matrix(cols);
    ShapeMatrix(cols, 4);
    forall j: nat, m: nat | m < 4
      ensures MarkerBit(t, j, m) == MarkerBit(a, j, m)
    {
      if j < n {
        EntryMatrix(cols, j, m);
        EntryMatrix(rows, m, j);
      }
    }
    assert SampleCount(t) == n == SampleCount(a);
    var len := (n + 1) / 2;
    forall k | 0 <= k < len
      ensures PackedByte(t, k) == PackedByte(a, k)
    {
      assert Nibble(t, 2 * k) == Nibble(a, 2 * k);
      assert Nibble(t, 2 * k + 1) == Nibble(a, 2 * k + 1);
    }
    assert Pack(t).value == Pack(a).value;
  }

  /** The example of the test suite: markers [0,1], [1,0], [1,0], [0,1] pack to "i". */
  lemma PackExample()
    ensures Pack(Matrix([[0, 1], [1, 0], [1, 0], [0, 1]])) == Ok([0x69])
  {
    var rows := [[0, 1], [1, 0], [1, 0], [0, 1]];
    var a := Matrix(rows);
    ShapeMatrix(rows, 2);
    EntryMatrix(rows, 0, 0); EntryMatrix(rows, 1, 0); EntryMatrix(rows, 2, 0); EntryMatrix(rows, 3, 0);
    EntryMatrix(rows, 0, 1); EntryMatrix(rows, 1, 1); EntryMatrix(rows, 2, 1); EntryMatrix(rows, 3, 1);
    assert SampleCount(a) == 2;
    assert MarkerBit(a, 0, 0) == 0 && MarkerBit(a, 0, 1) == 1 && MarkerBit(a, 0, 2) == 1 && MarkerBit(a, 0, 3) == 0;
    assert MarkerBit(a, 1, 0) == 1 && MarkerBit(a, 1, 1) == 0 && MarkerBit(a, 1, 2) == 0 && MarkerBit(a, 1, 3) == 1;
    assert PackedByte(a, 0) == 0x69;
    assert Pack(a).value == [PackedByte(a, 0)];
  }
}
