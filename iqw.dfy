/**
 * The IQW codec: a headerless file of float32 words, the I and the Q value
 * of each sample in turn. The lower- and upper-case editions of the loader
 * and the saver differ only in the storage the full load creates.
 *
 * A float32 is four bytes; how a word becomes a number and back is the
 * parameter `dec` (numpy.frombuffer) and `enc` (astype(float32).tobytes()).
 */
module Iqw {
  import opened Wrappers
  import opened Text
  import opened Dates
  import opened Values
  import opened Storages
  import opened Output

  /** The four bytes of one float32. */
  type Word = w: seq<Byte> | |w| == 4 witness [0, 0, 0, 0]

  // ----- load: _extract_pairs -----

  /** The bytes the loop of _extract_pairs gathers from byte idx on: four bytes, skip four, and so on. */
  function PairsFrom(buf: seq<Byte>, idx: nat): seq<Byte>
    decreases |buf| - idx
  {
    if idx >= |buf| then []
    else buf[idx..if idx + 4 <= |buf| then idx + 4 else |buf|] + PairsFrom(buf, idx + 8)
  }

  /** _extract_pairs(buf, start): the four-byte runs at offsets 4 start, 4 start + 8, 4 start + 16, ... */
  function Pairs(buf: seq<Byte>, start: nat): seq<Byte>
  {
    PairsFrom(buf, 4 * start)
  }

  /** The loop of _extract_pairs. */
  method ExtractPairs(buf: seq<Byte>, start: nat) returns (pairs: seq<Byte>)
    ensures pairs == Pairs(buf, start)
  {
    pairs := [];
    var idx := 4 * start;
    while idx < |buf|
      invariant pairs + PairsFrom(buf, idx) == Pairs(buf, start)
      decreases |buf| - idx
    {
      var stop := if idx + 4 <= |buf| then idx + 4 else |buf|;
      PairsStep(buf, idx, pairs);
      pairs := pairs + buf[idx..stop];
      idx := idx + 8;
    }
    assert pairs + [] == pairs;
  }

  /** One turn of the loop: the next run, then the rest. */
  lemma PairsStep(buf: seq<Byte>, idx: nat, pairs: seq<Byte>)
    requires idx < |buf|
    ensures pairs + PairsFrom(buf, idx)
         == (pairs + buf[idx..if idx + 4 <= |buf| then idx + 4 else |buf|]) + PairsFrom(buf, idx + 8)
  {
  }

  // ----- load: _extract_data -----

  /** numpy.frombuffer(b, float32): the words of b, or ValueError when |b| is not a multiple of 4. */
  function Words(b: seq<Byte>): (r: Result<seq<Word>>)
    ensures r.Err? <==> |b| % 4 != 0
    ensures r.Err? ==> r.error == ValueError(BufferSize)
    ensures r.Ok? ==> 4 * |r.value| == |b|
    decreases |b|
  {
    if |b| % 4 != 0 then Err(ValueError(BufferSize))
    else if b == [] then Ok([])
    else
      var w: Word := b[..4];
      var rest := Words(b[4..]);
      Ok([w] + rest.value)
  }

  /** _extract_data(content): the I words at even word positions, the Q words at odd ones, combined. */
  function ExtractData(content: seq<Byte>, dec: Word -> real): Result<seq<Complex>>
  {
    var iw :- Words(Pairs(content, 0));
    var qw :- Words(Pairs(content, 1));
    Combine(Elementwise(iw, dec), Elementwise(qw, dec))
  }

  /** _extract_iq: _extract_data with its two calls of the _extract_pairs loop. */
  method ExtractIq(content: seq<Byte>, dec: Word -> real) returns (r: Result<seq<Complex>>)
    ensures r == ExtractData(content, dec)
  {
    var ibytes := ExtractPairs(content, 0);
    var iw := Words(ibytes);
    if iw.Err? {
      return Err(iw.error);
    }
    var qbytes := ExtractPairs(content, 1);
    var qw := Words(qbytes);
    if qw.Err? {
      return Err(qw.error);
    }
    r := Combine(Elementwise(iw.value, dec), Elementwise(qw.value, dec));
  }

  // ----- load -----

  /** The file name a load records: the argument when it was a str, otherwise none. */
  function NameOf(file: Option<string>): string
  {
    if file.Some? then file.value else ""
  }

  /**
   * load(file): one storage holding the samples of the whole content. The
   * lower-case edition creates ParentStorage(no_defaults=True), so its meta
   * is empty; the upper-case edition's meta carries the defaults.
   */
  method Load(content: seq<Byte>, edition: Edition, file: Option<string>, dec: Word -> real, now: ValidDateTime)
    returns (r: Result<ParentStorage>)
    ensures r.Err? <==> ExtractData(content, dec).Err?
    ensures r.Err? ==> r.error == ExtractData(content, dec).error
    ensures r.Ok? ==> fresh(r.value) && r.value.edition == edition && r.value.timestamp == now
    ensures r.Ok? ==> r.value.filename == NameOf(file) && |r.value.storages| == 1
    ensures r.Ok? ==> r.value.storages[0].Value() == StorageValue(ExtractData(content, dec).value, DefaultMeta(edition == Lower))
  {
    var parent := new ParentStorage(edition, 1, edition == Lower, now);
    r := Fill(parent, content, file, dec);
  }

  /**
   * load_in_chunks(file, samples, offset): the samples of the bytes after
   * the first 8 offset, at most 8 samples of them. Both editions create
   * ParentStorage() here, so the meta carries the defaults.
   */
  method LoadInChunks(content: seq<Byte>, samples: int, offset: int, edition: Edition, file: Option<string>,
                      dec: Word -> real, now: ValidDateTime)
    returns (r: Result<ParentStorage>)
    ensures r.Err? <==> ExtractData(Window(content, samples, offset), dec).Err?
    ensures r.Err? ==> r.error == ExtractData(Window(content, samples, offset), dec).error
    ensures r.Ok? ==> fresh(r.value) && r.value.edition == edition && r.value.timestamp == now
    ensures r.Ok? ==> r.value.filename == NameOf(file) && |r.value.storages| == 1
    ensures r.Ok? ==> r.value.storages[0].Value() == StorageValue(ExtractData(Window(content, samples, offset), dec).value, DefaultMeta(false))
  {
    var parent := new ParentStorage(edition, 1, false, now);
    r := Fill(parent, Window(content, samples, offset), file, dec);
  }

  /** The tail of load and load_in_chunks: the samples go into the one storage, the file name into the parent. */
  method Fill(parent: ParentStorage, content: seq<Byte>, file: Option<string>, dec: Word -> real) returns (r: Result<ParentStorage>)
    requires |parent.storages| == 1 && parent.filename == ""
    modifies parent, parent.storages[0]
    ensures r.Err? <==> ExtractData(content, dec).Err?
    ensures r.Err? ==> r.error == ExtractData(content, dec).error
    ensures r.Ok? ==> r.value == parent && parent.storages == old(parent.storages) && parent.filename == NameOf(file)
    ensures r.Ok? ==> parent.storages[0].Value() == StorageValue(ExtractData(content, dec).value, old(parent.storages[0].meta.items))
  {
    var data := ExtractIq(content, dec);
    if data.Err? {
      return Err(data.error);
    }
    var s := parent.storages[0];
    s.data := data.value;
    if file.Some? {
      parent.SetFilename(file.value);
    }
    r := Ok(parent);
  }

  /**
   * The bytes load_in_chunks reads: fp.read(offset * 8) skips, then
   * fp.read(samples * 8) takes; a negative count reads to the end.
   */
  function Window(content: seq<Byte>, samples: int, offset: int): (w: seq<Byte>)
    ensures offset >= 0 && samples >= 0 ==>
              w == content[Min(8 * offset, |content|)..Min(8 * offset + 8 * samples, |content|)]
  {
    var pos := if offset < 0 then |content| else Min(8 * offset, |content|);
    var stop := if samples < 0 then |content| else Min(pos + 8 * samples, |content|);
    content[pos..stop]
  }

  function Min(a: int, b: int): int
  {
    if a < b then a else b
  }

  /** load_meta: an IQW file has no meta, so the loader always raises. */
  function LoadMeta(content: seq<Byte>): (r: Result<ParentValue>)
    ensures r.Err? && r.error == IqwHasNoMeta
  {
    Err(IqwHasNoMeta)
  }

  // ----- save -----

  /** (1 / scale) * samples, for a non-zero scale. */
  function Scaled(data: seq<Complex>, scale: real): (r: seq<Complex>)
    requires scale != 0.0
    ensures |r| == |data|
    ensures forall k :: 0 <= k < |data| ==> r[k] == Complex((1.0 / scale) * data[k].re, (1.0 / scale) * data[k].im)
  {
    seq(|data|, k requires 0 <= k < |data| => Complex((1.0 / scale) * data[k].re, (1.0 / scale) * data[k].im))
  }

  /** _scale_data: ZeroDivisionError for a zero scale. */
  function ScaleData(data: seq<Complex>, scale: real): (r: Result<seq<Complex>>)
    ensures r.Err? <==> scale == 0.0
    ensures r.Err? ==> r.error == ZeroDivisionError
    ensures r.Ok? ==> r.value == Scaled(data, scale)
  {
    if scale == 0.0 then Err(ZeroDivisionError) else Ok(Scaled(data, scale))
  }

  /** _prepare_data: the real and the imaginary part of each sample in turn. */
  function Interleaved(data: seq<Complex>): (xs: seq<real>)
    ensures |xs| == 2 * |data|
  {
    if data == [] then [] else [data[0].re, data[0].im] + Interleaved(data[1..])
  }

  /** astype(float32).tobytes(): one word per number. */
  function F32Bytes(xs: seq<real>, enc: real -> Word): (b: seq<Byte>)
    ensures |b| == 4 * |xs|
  {
    if xs == [] then [] else enc(xs[0]) + F32Bytes(xs[1..], enc)
  }

  /** The bytes of one storage's (already scaled) samples: I word, then Q word, sample by sample. */
  function StorageBytes(data: seq<Complex>, enc: real -> Word): (b: seq<Byte>)
    ensures |b| == 8 * |data|
  {
    if data == [] then [] else enc(data[0].re) + enc(data[0].im) + StorageBytes(data[1..], enc)
  }

  /** The bytes save writes for the storages' samples, one storage after the other. */
  function StoragesBytes(datas: seq<seq<Complex>>, scale: real, enc: real -> Word): seq<Byte>
    requires scale != 0.0
  {
    if datas == [] then [] else StorageBytes(Scaled(datas[0], scale), enc) + StoragesBytes(datas[1..], scale, enc)
  }

  /** What save leaves in the file: the bytes of every storage, or the error of the first one. */
  function SaveFile(datas: seq<seq<Complex>>, scale: real, enc: real -> Word): Result<seq<Byte>>
  {
    if datas == [] then Ok([])
    else if scale == 0.0 then Err(ZeroDivisionError)
    else Ok(StoragesBytes(datas, scale, enc))
  }

  /** The samples of each storage of a parent storage, in order. */
  function Datas(p: ParentValue): (ds: seq<seq<Complex>>)
    ensures |ds| == |p.storages| && forall i :: 0 <= i < |ds| ==> ds[i] == p.storages[i].data
  {
    seq(|p.storages|, i requires 0 <= i < |p.storages| => p.storages[i].data)
  }

  /** save(file, datas, scale) (_write): every storage's samples in turn, through _write_data. */
  method Save(fp: Sink, datas: ParentStorage, scale: real, enc: real -> Word) returns (r: Result<()>)
    modifies fp
    ensures r.Err? <==> SaveFile(Datas(datas.Snapshot()), scale, enc).Err?
    ensures r.Err? ==> r.error == ZeroDivisionError && fp.bytes == old(fp.bytes)
    ensures r.Ok? ==> fp.bytes == old(fp.bytes) + SaveFile(Datas(datas.Snapshot()), scale, enc).value
  {
    var ds := Datas(datas.Snapshot());
    r := WriteStorages(fp, ds, scale, enc);
    assert Datas(datas.Snapshot()) == ds;
  }

  /** The loop of _write over the storages' samples. */
  method WriteStorages(fp: Sink, ds: seq<seq<Complex>>, scale: real, enc: real -> Word) returns (r: Result<()>)
    modifies fp
    ensures r.Err? <==> SaveFile(ds, scale, enc).Err?
    ensures r.Err? ==> r.error == ZeroDivisionError && fp.bytes == old(fp.bytes)
    ensures r.Ok? ==> fp.bytes == old(fp.bytes) + SaveFile(ds, scale, enc).value
  {
    var i := 0;
    while i < |ds|
      invariant 0 <= i <= |ds|
      invariant i > 0 ==> scale != 0.0
      invariant fp.bytes == old(fp.bytes) + Done(ds, i, scale, enc)
    {
      var step := WriteNext(fp, ds, i, scale, enc, old(fp.bytes));
      if step.Err? {
        return Err(step.error);
      }
      i := i + 1;
    }
    r := Ok(());
    DoneAll(ds, scale, enc);
  }

  /** One pass of the loop of _write: storage i after the first i. */
  method WriteNext(fp: Sink, ds: seq<seq<Complex>>, i: nat, scale: real, enc: real -> Word, ghost base: seq<Byte>)
    returns (r: Result<()>)
    requires i < |ds| && (i > 0 ==> scale != 0.0)
    requires fp.bytes == base + Done(ds, i, scale, enc)
    modifies fp
    ensures r.Err? <==> scale == 0.0
    ensures r.Err? ==> r.error == ZeroDivisionError && i == 0 && fp.bytes == base
    ensures r.Ok? ==> fp.bytes == base + Done(ds, i + 1, scale, enc)
  {
    ghost var before := Done(ds, i, scale, enc);
    r := WriteData(fp, ds[i], scale, enc);
    if r.Ok? {
      ghost var more := StorageBytes(Scaled(ds[i], scale), enc);
      assert fp.bytes == base + before + more;
      StoragesBytesStep(ds, i, scale, enc);
      assert base + before + more == base + (before + more);
    } else {
      assert fp.bytes == base + before;
    }
  }

  /** The bytes of the first i storages, none when i is 0. */
  function Done(ds: seq<seq<Complex>>, i: nat, scale: real, enc: real -> Word): seq<Byte>
    requires i <= |ds| && (i > 0 ==> scale != 0.0)
  {
    if i == 0 then [] else StoragesBytes(ds[..i], scale, enc)
  }

  /** All storages done: the bytes SaveFile promises. */
  lemma DoneAll(ds: seq<seq<Complex>>, scale: real, enc: real -> Word)
    requires |ds| > 0 ==> scale != 0.0
    ensures SaveFile(ds, scale, enc) == Ok(Done(ds, |ds|, scale, enc))
  {
    if ds != [] {
      assert ds[..|ds|] == ds;
    }
  }

  /** StoragesBytes of one more storage appends that storage's bytes. */
  lemma StoragesBytesStep(ds: seq<seq<Complex>>, i: nat, scale: real, enc: real -> Word)
    requires i < |ds| && scale != 0.0
    ensures Done(ds, i + 1, scale, enc) == Done(ds, i, scale, enc) + StorageBytes(Scaled(ds[i], scale), enc)
  {
    assert ds[..i + 1] == ds[..i] + [ds[i]];
    StoragesBytesConcat(ds[..i], [ds[i]], scale, enc);
    assert StoragesBytes([ds[i]], scale, enc) == StorageBytes(Scaled(ds[i], scale), enc) + StoragesBytes([], scale, enc);
  }

  lemma {:induction false} StoragesBytesConcat(a: seq<seq<Complex>>, b: seq<seq<Complex>>, scale: real, enc: real -> Word)
    requires scale != 0.0
    ensures StoragesBytes(a + b, scale, enc) == StoragesBytes(a, scale, enc) + StoragesBytes(b, scale, enc)
  {
    if a == [] {
      assert a + b == b;
    } else {
      assert (a + b)[1..] == a[1..] + b;
      assert (a + b)[0] == a[0];
      StoragesBytesConcat(a[1..], b, scale, enc);
    }
  }

  /**
   * _write_data: the scaled samples interleaved as re, im, re, im, ... and
   * written in blocks of ChunkSize numbers, the last block cut at the end.
   */
  method WriteData(fp: Sink, data: seq<Complex>, scale: real, enc: real -> Word) returns (r: Result<()>)
    modifies fp
    ensures r.Err? <==> scale == 0.0
    ensures r.Err? ==> r.error == ZeroDivisionError && fp.bytes == old(fp.bytes)
    ensures r.Ok? ==> fp.bytes == old(fp.bytes) + StorageBytes(Scaled(data, scale), enc)
  {
    var scaled := ScaleData(data, scale);
    if scaled.Err? {
      return Err(scaled.error);
    }
    WriteBlocks(fp, Interleaved(scaled.value), enc);
    InterleavedBytes(scaled.value, enc);
    r := Ok(());
  }

  /** The block loop of _write_data: the numbers go out ChunkSize at a time, the last block cut short. */
  method WriteBlocks(fp: Sink, xs: seq<real>, enc: real -> Word)
    modifies fp
    ensures fp.bytes == old(fp.bytes) + F32Bytes(xs, enc)
  {
    var size := |xs|;
    var blocks := (size + ChunkSize - 1) / ChunkSize;
    var b := 0;
    assert xs[..0] == [];
    while b < blocks
      invariant 0 <= b <= blocks
      invariant fp.bytes == old(fp.bytes) + F32Bytes(xs[..Written(b, size)], enc)
    {
      var start := b * ChunkSize;
      var stop := (b + 1) * ChunkSize;
      if stop > size - 1 {
        stop := size;
      }
      BlockStep(xs, b, stop, enc);
      fp.Write(F32Bytes(xs[start..stop], enc));
      b := b + 1;
    }
    BlocksCover(size);
    assert xs[..size] == xs;
  }

  /** Writing block b extends the numbers written so far by the numbers of that block. */
  lemma BlockStep(xs: seq<real>, b: nat, stop: nat, enc: real -> Word)
    requires b < (|xs| + ChunkSize - 1) / ChunkSize
    requires stop == if (b + 1) * ChunkSize > |xs| - 1 then |xs| else (b + 1) * ChunkSize
    ensures b * ChunkSize <= stop <= |xs|
    ensures F32Bytes(xs[..Written(b, |xs|)], enc) + F32Bytes(xs[b * ChunkSize..stop], enc) == F32Bytes(xs[..Written(b + 1, |xs|)], enc)
  {
    BlockBounds(|xs|, b);
    var start := b * ChunkSize;
    assert xs[..start] + xs[start..stop] == xs[..stop];
    F32BytesConcat(xs[..start], xs[start..stop], enc);
  }

  lemma {:induction false} F32BytesConcat(a: seq<real>, b: seq<real>, enc: real -> Word)
    ensures F32Bytes(a + b, enc) == F32Bytes(a, enc) + F32Bytes(b, enc)
  {
    if a == [] {
      assert a + b == b;
    } else {
      assert (a + b)[1..] == a[1..] + b;
      assert (a + b)[0] == a[0];
      F32BytesConcat(a[1..], b, enc);
    }
  }

  /** The interleaved numbers, written word by word, are the storage's bytes. */
  lemma {:induction false} InterleavedBytes(data: seq<Complex>, enc: real -> Word)
    ensures F32Bytes(Interleaved(data), enc) == StorageBytes(data, enc)
  {
    if data != [] {
      var xs := Interleaved(data);
      assert xs == [data[0].re, data[0].im] + Interleaved(data[1..]);
      assert xs[1..] == [data[0].im] + Interleaved(data[1..]);
      assert xs[1..][1..] == Interleaved(data[1..]);
      InterleavedBytes(data[1..], enc);
    }
  }
}
