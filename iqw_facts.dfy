/**
 * What the IQW codec promises: the layout of a whole file of samples, which
 * file lengths the loader accepts, that loading a saved file gives back the
 * saved samples (through float32), and that a chunked load reads a slice.
 */
module IqwFacts {
  import opened Wrappers
  import opened Text
  import opened Values
  import opened Iqw

  // ----- the layout of whole samples -----

  /** The I (s = 0) or Q (s = 1) word of each eight-byte sample of buf. */
  function Cells(buf: seq<Byte>, s: nat): (ws: seq<Word>)
    requires |buf| % 8 == 0 && s <= 1
    ensures 8 * |ws| == |buf|
    decreases |buf|
  {
    if buf == [] then [] else [buf[4 * s..4 * s + 4]] + Cells(buf[8..], s)
  }

  /** Past the first sample, gathering runs from buf is gathering them from the rest of buf. */
  lemma {:induction false} PairsShift(buf: seq<Byte>, j: nat)
    requires |buf| >= 8
    ensures PairsFrom(buf, j + 8) == PairsFrom(buf[8..], j)
    decreases |buf| - j
  {
    if j + 8 < |buf| {
      PairsShift(buf, j + 8);
      var stop := if j + 8 + 4 <= |buf| then j + 8 + 4 else |buf|;
      assert buf[j + 8..stop] == buf[8..][j..stop - 8];
    }
  }

  /** For a file of whole samples, _extract_pairs followed by frombuffer yields one word per sample. */
  lemma {:induction false} WordsOfPairs(buf: seq<Byte>, s: nat)
    requires |buf| % 8 == 0 && s <= 1
    ensures Words(Pairs(buf, s)) == Ok(Cells(buf, s))
    decreases |buf|
  {
    if buf != [] {
      PairsShift(buf, 4 * s);
      WordsOfPairs(buf[8..], s);
      var h, t := buf[4 * s..4 * s + 4], Pairs(buf[8..], s);
      assert Pairs(buf, s) == h + t;
      WordsCons(h, t);
    }
  }

  lemma WordsCons(h: seq<Byte>, t: seq<Byte>)
    requires |h| == 4 && Words(t).Ok?
    ensures Words(h + t) == Ok([h] + Words(t).value)
  {
    assert (h + t)[..4] == h && (h + t)[4..] == t;
  }

  /** A file of n whole samples loads as n samples, the k-th made of the k-th I word and the k-th Q word. */
  lemma WholeSamples(buf: seq<Byte>, dec: Word -> real)
    requires |buf| % 8 == 0
    ensures ExtractData(buf, dec).Ok?
    ensures |ExtractData(buf, dec).value| == |buf| / 8
    ensures forall k :: 0 <= k < |buf| / 8 ==>
              ExtractData(buf, dec).value[k] == Complex(dec(Cells(buf, 0)[k]), dec(Cells(buf, 1)[k]))
  {
    WordsOfPairs(buf, 0);
    WordsOfPairs(buf, 1);
  }

  // ----- which lengths load -----

  /** How many bytes _extract_pairs gathers: four per whole sample, plus the part of the last one that falls in its half. */
  lemma {:induction false} PairsLength(buf: seq<Byte>, s: nat)
    requires s <= 1
    ensures |Pairs(buf, s)| == 4 * (|buf| / 8) + Clip4(|buf| % 8 - 4 * s)
    decreases |buf|
  {
    if |buf| >= 8 {
      PairsShift(buf, 4 * s);
      PairsLength(buf[8..], s);
      assert |buf[8..]| / 8 == |buf| / 8 - 1 && |buf[8..]| % 8 == |buf| % 8;
    } else if 4 * s < |buf| {
      var stop := if 4 * s + 4 <= |buf| then 4 * s + 4 else |buf|;
      assert PairsFrom(buf, 4 * s) == buf[4 * s..stop] + PairsFrom(buf, 4 * s + 8);
    }
  }

  function Clip4(x: int): nat
  {
    if x < 0 then 0 else if x > 4 then 4 else x
  }

  /**
   * The loader accepts exactly the files of whole samples, and two more
   * lengths that numpy's broadcasting lets through: 4 bytes (one I word, no
   * Q word: no samples) and 12 bytes (two I words, one Q word shared by
   * both samples). Every other length raises ValueError.
   */
  lemma LoadAccepts(content: seq<Byte>, dec: Word -> real)
    ensures ExtractData(content, dec).Ok? <==> |content| % 8 == 0 || |content| == 4 || |content| == 12
    ensures ExtractData(content, dec).Err? ==> ExtractData(content, dec).error.ValueError?
    ensures |content| == 4 ==> ExtractData(content, dec) == Ok([])
    ensures |content| == 12 ==> ExtractData(content, dec).Ok? && |ExtractData(content, dec).value| == 2
  {
    PairsLength(content, 0);
    PairsLength(content, 1);
    var q := |content| / 8;
    var r := |content| % 8;
    assert |Pairs(content, 0)| == 4 * q + Clip4(r);
    assert |Pairs(content, 1)| == 4 * q + Clip4(r - 4);
    if r == 0 {
      assert Clip4(r) == 0 && Clip4(r - 4) == 0;
    } else if r == 4 {
      assert Clip4(r) == 4 && Clip4(r - 4) == 0;
      assert |content| == 4 <==> q == 0;
      assert |content| == 12 <==> q == 1;
    } else if r < 4 {
      assert Clip4(r) == r;
    } else {
      assert Clip4(r) == 4 && Clip4(r - 4) == r - 4;
    }
  }

  // ----- save, then load -----

  /** The samples a save and a load give back: each part through float32 and back. */
  function Through(d: seq<Complex>, enc: real -> Word, dec: Word -> real): (r: seq<Complex>)
    ensures |r| == |d|
  {
    seq(|d|, k requires 0 <= k < |d| => Complex(dec(enc(d[k].re)), dec(enc(d[k].im))))
  }

  /** The saved I words are the encoded real parts, the saved Q words the encoded imaginary parts. */
  lemma {:induction false} CellsOfSamples(d: seq<Complex>, enc: real -> Word)
    ensures Cells(StorageBytes(d, enc), 0) == seq(|d|, k requires 0 <= k < |d| => enc(d[k].re))
    ensures Cells(StorageBytes(d, enc), 1) == seq(|d|, k requires 0 <= k < |d| => enc(d[k].im))
  {
    if d != [] {
      var b := StorageBytes(d, enc);
      assert b == enc(d[0].re) + enc(d[0].im) + StorageBytes(d[1..], enc);
      assert b[8..] == StorageBytes(d[1..], enc);
      assert b[0..4] == enc(d[0].re);
      assert b[4..8] == enc(d[0].im);
      CellsOfSamples(d[1..], enc);
    }
  }

  /** Loading the bytes of a storage gives its samples back, each part through float32. */
  lemma StorageRoundTrip(d: seq<Complex>, enc: real -> Word, dec: Word -> real)
    ensures ExtractData(StorageBytes(d, enc), dec) == Ok(Through(d, enc, dec))
  {
    var b := StorageBytes(d, enc);
    WholeSamples(b, dec);
    CellsOfSamples(d, enc);
    assert |b| / 8 == |d|;
    var got := ExtractData(b, dec).value;
    forall k | 0 <= k < |d|
      ensures got[k] == Through(d, enc, dec)[k]
    {
      assert Cells(b, 0)[k] == enc(d[k].re);
      assert Cells(b, 1)[k] == enc(d[k].im);
    }
    assert got == Through(d, enc, dec);
  }

  /** The samples of all storages, one storage after the other. */
  function Joined(ds: seq<seq<Complex>>): (r: seq<Complex>)
  {
    if ds == [] then [] else ds[0] + Joined(ds[1..])
  }

  lemma {:induction false} StorageBytesConcat(a: seq<Complex>, b: seq<Complex>, enc: real -> Word)
    ensures StorageBytes(a + b, enc) == StorageBytes(a, enc) + StorageBytes(b, enc)
  {
    if a == [] {
      assert a + b == b;
    } else {
      assert (a + b)[1..] == a[1..] + b;
      assert (a + b)[0] == a[0];
      StorageBytesConcat(a[1..], b, enc);
    }
  }

  lemma ScaledConcat(a: seq<Complex>, b: seq<Complex>, scale: real)
    requires scale != 0.0
    ensures Scaled(a + b, scale) == Scaled(a, scale) + Scaled(b, scale)
  {
    var l := Scaled(a + b, scale);
    var r := Scaled(a, scale) + Scaled(b, scale);
    assert |l| == |r|;
    forall k | 0 <= k < |l|
      ensures l[k] == r[k]
    {
      if k >= |a| {
        assert (a + b)[k] == b[k - |a|];
      }
    }
  }

  /** The save of several storages is the save of their samples joined into one. */
  lemma {:induction false} StoragesJoined(ds: seq<seq<Complex>>, scale: real, enc: real -> Word)
    requires scale != 0.0
    ensures StoragesBytes(ds, scale, enc) == StorageBytes(Scaled(Joined(ds), scale), enc)
  {
    if ds != [] {
      StoragesJoined(ds[1..], scale, enc);
      StorageBytesConcat(Scaled(ds[0], scale), Scaled(Joined(ds[1..]), scale), enc);
      ScaledConcat(ds[0], Joined(ds[1..]), scale);
    }
  }

  /**
   * save, then load: the file holds one storage whose samples are those of
   * all saved storages in order, divided by the scale, each part through
   * float32. A zero scale saves nothing and raises, unless there is nothing
   * to save.
   */
  lemma SaveLoadRoundTrip(ds: seq<seq<Complex>>, scale: real, enc: real -> Word, dec: Word -> real)
    ensures SaveFile(ds, scale, enc).Err? <==> ds != [] && scale == 0.0
    ensures SaveFile(ds, scale, enc).Ok? && ds != [] ==>
              ExtractData(SaveFile(ds, scale, enc).value, dec) == Ok(Through(Scaled(Joined(ds), scale), enc, dec))
  {
    if ds != [] && scale != 0.0 {
      StoragesJoined(ds, scale, enc);
      StorageRoundTrip(Scaled(Joined(ds), scale), enc, dec);
    }
  }

  // ----- chunks -----

  lemma StorageBytesSlice(d: seq<Complex>, a: nat, b: nat, enc: real -> Word)
    requires a <= b <= |d|
    ensures StorageBytes(d, enc)[8 * a..8 * b] == StorageBytes(d[a..b], enc)
  {
    assert d == d[..a] + d[a..b] + d[b..];
    StorageBytesConcat(d[..a] + d[a..b], d[b..], enc);
    StorageBytesConcat(d[..a], d[a..b], enc);
  }

  /**
   * load_in_chunks of a file of samples reads samples offset up to
   * offset + count, cut at the end of the file; a negative count reads to
   * the end.
   */
  lemma ChunkIsSlice(d: seq<Complex>, samples: int, offset: int, enc: real -> Word)
    requires 0 <= offset <= |d|
    ensures Window(StorageBytes(d, enc), samples, offset)
         == StorageBytes(d[offset..if samples < 0 || offset + samples > |d| then |d| else offset + samples], enc)
  {
    var stop := if samples < 0 || offset + samples > |d| then |d| else offset + samples;
    var content := StorageBytes(d, enc);
    assert Window(content, samples, offset) == content[8 * offset..8 * stop] by {
      assert |content| == 8 * |d|;
      assert Min(8 * offset, |content|) == 8 * offset;
      if samples >= 0 {
        assert Min(8 * offset + 8 * samples, |content|) == 8 * stop;
      }
    }
    StorageBytesSlice(d, offset, stop, enc);
  }

  /** A chunk of a saved storage loads as that slice of its samples. */
  lemma ChunkRoundTrip(d: seq<Complex>, samples: nat, offset: nat, enc: real -> Word, dec: Word -> real)
    requires offset + samples <= |d|
    ensures ExtractData(Window(StorageBytes(d, enc), samples, offset), dec) == Ok(Through(d[offset..offset + samples], enc, dec))
  {
    ChunkIsSlice(d, samples, offset, enc);
    StorageRoundTrip(d[offset..offset + samples], enc, dec);
  }
}
