/**
 * The WV saver. One storage is written as a single-segment file, several as
 * a multi-segment (MWV) file. Each tag is appended to the output in turn:
 * a text tag as {NAME:value}, a binary section as {NAME-(n+1):#, the n
 * payload bytes, then '}'. A tag that raises stops the save, and the tags
 * before it stay written.
 */
module WvSave {
  import opened Wrappers
  import opened Text
  import opened Output
  import opened Dates
  import opened Values
  import Dicts
  import opened Metadata
  import Storages
  import opened ArrayToBytes
  import opened WvBinary
  import opened WvSamples
  import WvMeta
  import WvLoad

  /** The binary sections a WV file carries. */
  datatype SectionName = ControlListSection | EmptySection | WaveformSection(encrypted: bool)

  function NameOf(s: SectionName): (name: string)
    ensures IsAscii(name) && '{' !in name && ':' !in name
  {
    match s
    case ControlListSection => "CONTROL LIST WIDTH4"
    case EmptySection => "EMPTYTAG"
    case WaveformSection(e) => if e then "WWAVEFORM" else "WAVEFORM"
  }

  /** One tag of the file: a text line or a binary section. */
  datatype Piece = Line(name: string, text: string) | Binary(section: SectionName, payload: seq<Byte>)

  /** The text that opens a binary section of n - 1 payload bytes. */
  function SectionHead(name: string, n: nat): string
  {
    "{" + name + "-" + NatText(n) + ":#"
  }

  /** The bytes a tag is written as. */
  function RenderPiece(p: Piece): seq<Byte>
  {
    match p
    case Line(name, text) => Encode("{" + name + ":" + text + "}")
    case Binary(s, payload) => Encode(SectionHead(NameOf(s), |payload| + 1)) + payload + [RBrace]
  }

  /** The bytes of tags written one after the other. */
  function Render(ps: seq<Piece>): seq<Byte>
  {
    if ps == [] then [] else RenderPiece(ps[0]) + Render(ps[1..])
  }

  lemma {:induction false} RenderConcat(a: seq<Piece>, b: seq<Piece>)
    ensures Render(a + b) == Render(a) + Render(b)
  {
    if a == [] {
      assert a + b == b;
    } else {
      assert (a + b)[1..] == a[1..] + b;
      RenderConcat(a[1..], b);
    }
  }

  lemma EncodeIsAscii(s: string)
    requires IsAscii(s)
    ensures Encode(s) == Ascii(s)
  {
    EncodeAscii(s);
  }

  /**
   * Every binary section the saver writes has the shape the loader's
   * section reader expects: {NAME-(n+1):#, the payload, '}'.
   */
  lemma SectionFraming(s: SectionName, payload: seq<Byte>)
    ensures RenderPiece(Binary(s, payload)) == Section(NameOf(s), payload)
  {
    SectionBytes(NameOf(s), payload);
  }

  lemma SectionBytes(name: string, payload: seq<Byte>)
    requires IsAscii(name)
    ensures Encode(SectionHead(name, |payload| + 1)) + payload + [RBrace] == Section(name, payload)
  {
    HeadFraming(name, |payload| + 1);
  }

  lemma HeadFraming(name: string, n: nat)
    requires IsAscii(name)
    ensures Encode(SectionHead(name, n)) == [LBrace] + Ascii(name) + [Dash] + CountBytes(n) + [Colon, Hash]
  {
    var digits := NatText(n);
    assert Encode(digits) == CountBytes(n) by {
      forall i | 0 <= i < |digits|
        ensures digits[i] as int < 128
      {
        assert IsDigit(digits[i]);
      }
      EncodeAscii(digits);
    }
    assert Encode(name) == Ascii(name) by {
      EncodeIsAscii(name);
    }
    var t1 := "{" + name;
    var t2 := t1 + "-";
    var t3 := t2 + digits;
    assert Encode(t1) == [LBrace] + Ascii(name) by {
      EncodeConcat("{", name);
      assert Encode("{") == [LBrace];
    }
    assert Encode(t2) == [LBrace] + Ascii(name) + [Dash] by {
      EncodeConcat(t1, "-");
      assert Encode("-") == [Dash];
    }
    assert Encode(t3) == [LBrace] + Ascii(name) + [Dash] + CountBytes(n) by {
      EncodeConcat(t2, digits);
    }
    assert Encode(t3 + ":#") == [LBrace] + Ascii(name) + [Dash] + CountBytes(n) + [Colon, Hash] by {
      EncodeConcat(t3, ":#");
      assert Encode(":#") == [Colon, Hash];
    }
    assert SectionHead(name, n) == t3 + ":#";
  }

  /**
   * A saved binary section is read back by the loader, wherever it stands,
   * when nothing before it opens a section of the same name.
   */
  lemma SavedSectionReads(prefix: seq<Byte>, s: SectionName, payload: seq<Byte>, rest: seq<Byte>)
    requires forall p :: !TagAt(prefix, Ascii(NameOf(s)), p)
    ensures ExtractBinaryTag(prefix + RenderPiece(Binary(s, payload)) + rest, Ascii(NameOf(s)), false) == Ok(Some(payload))
  {
    SectionFraming(s, payload);
    SectionRoundTrip(prefix, NameOf(s), payload, rest);
  }

  // ----- writing tags in turn -----

  /** What one _write_* call does: the tags it writes, or the exception it raises. */
  type Step = Result<seq<Piece>>

  /**
   * One _write_* call: step k of `steps` writes its tags, or raises and
   * ends the save with the tags of the steps before it written.
   */
  method Emit(fp: Sink, step: Step, ghost steps: seq<Step>, ghost k: nat, ghost base: seq<Byte>) returns (r: Result<()>)
    requires k < |steps| && steps[k] == step
    requires Run(steps[..k]).1 == None && fp.bytes == base + Render(Run(steps[..k]).0)
    modifies fp
    ensures r.Ok? ==> Run(steps[..k + 1]).1 == None && fp.bytes == base + Render(Run(steps[..k + 1]).0)
    ensures r.Err? ==> r == Outcome(Run(steps)) && fp.bytes == base + Render(Run(steps).0)
    ensures step.Ok? ==> r.Ok?
  {
    if step.Err? {
      RunStep(steps, k);
      r := Err(step.error);
    } else {
      EmitOk(steps, k, base);
      fp.Write(Render(step.value));
      r := Ok(());
    }
  }

  lemma EmitOk(steps: seq<Step>, k: nat, base: seq<Byte>)
    requires k < |steps| && steps[k].Ok? && Run(steps[..k]).1 == None
    ensures Run(steps[..k + 1]).1 == None
    ensures base + Render(Run(steps[..k]).0) + Render(steps[k].value) == base + Render(Run(steps[..k + 1]).0)
  {
    RunStep(steps, k);
    var x, v := Run(steps[..k]).0, steps[k].value;
    assert Run(steps[..k + 1]).0 == x + v;
    RenderConcat(x, v);
    assert base + Render(x) + Render(v) == base + (Render(x) + Render(v));
  }

  // ----- meta lookups -----

  /** meta.get(key, default). */
  function GetOr(meta: Dicts.Items<Value>, key: string, default: Value): (v: Value)
    ensures !Dicts.HasKey(meta, key) ==> v == default
    ensures Dicts.HasKey(meta, key) ==> Dicts.Get(meta, key) == Some(v)
  {
    match Dicts.Get(meta, key)
    case Some(v) => v
    case None => default
  }

  // ----- _prepare_data -----

  /** |a - b|. */
  function Distance(a: int, b: int): nat
  {
    if a < b then b - a else a - b
  }

  /** The values above the int16 range become its maximum, those below its minimum: the nearest int16. */
  function Clamp(x: int): (v: Int16)
    ensures forall w: Int16 :: Distance(v, x) <= Distance(w, x)
    ensures -32768 <= x < 32768 ==> v == x
  {
    if x > 32767 then 32767 else if x < -32768 then -32768 else x
  }

  /**
   * One component as _prepare_data stores it: `round` stands for numpy's
   * rounding of the float product scale * x, then the value is clamped.
   */
  function Quantised(x: real, scale: real, round: real -> int): Int16
  {
    Clamp(round(scale * x))
  }

  /** The int16 words _prepare_data returns: slot 2k holds Re(x_k), slot 2k + 1 Im(x_k). */
  function Prepared(data: seq<Complex>, scale: real, round: real -> int): (words: seq<Int16>)
    ensures |words| == 2 * |data|
  {
    seq(2 * |data|, j requires 0 <= j < 2 * |data| =>
      Quantised(if j % 2 == 0 then data[j / 2].re else data[j / 2].im, scale, round))
  }

  /** The quantised real and imaginary parts. */
  function Reals(data: seq<Complex>, scale: real, round: real -> int): (r: seq<Int16>)
    ensures |r| == |data|
  {
    seq(|data|, k requires 0 <= k < |data| => Quantised(data[k].re, scale, round))
  }

  function Imags(data: seq<Complex>, scale: real, round: real -> int): (r: seq<Int16>)
    ensures |r| == |data|
  {
    seq(|data|, k requires 0 <= k < |data| => Quantised(data[k].im, scale, round))
  }

  /**
   * _prepare_data: a zero int16 array of 2N slots; the real parts are
   * scaled, rounded and clamped into the even slots, then the imaginary
   * parts into the odd ones.
   */
  method PrepareData(data: seq<Complex>, scale: real, round: real -> int) returns (words: array<Int16>)
    ensures fresh(words) && words[..] == Prepared(data, scale, round)
  {
    words := new Int16[2 * |data|](_ => 0);
    FillReals(words, data, scale, round);
    FillImags(words, data, scale, round);
  }

  /** The first loop of _prepare_data: the real parts go to the even slots. */
  method FillReals(words: array<Int16>, data: seq<Complex>, scale: real, round: real -> int)
    requires words.Length == 2 * |data| && forall j :: 0 <= j < words.Length ==> words[j] == 0
    modifies words
    ensures forall j :: 0 <= j < words.Length ==>
      words[j] == (if j % 2 == 0 then Quantised(data[j / 2].re, scale, round) else 0)
  {
    var n := |data|;
    var k := 0;
    while k < n
      invariant 0 <= k <= n
      invariant forall j :: 0 <= j < 2 * n ==>
        words[j] == (if j % 2 == 0 && j / 2 < k then Quantised(data[j / 2].re, scale, round) else 0)
    {
      words[2 * k] := Quantised(data[k].re, scale, round);
      k := k + 1;
    }
  }

  /** The second loop of _prepare_data: the imaginary parts go to the odd slots. */
  method FillImags(words: array<Int16>, data: seq<Complex>, scale: real, round: real -> int)
    requires words.Length == 2 * |data|
    requires forall j :: 0 <= j < words.Length ==>
      words[j] == (if j % 2 == 0 then Quantised(data[j / 2].re, scale, round) else 0)
    modifies words
    ensures words[..] == Prepared(data, scale, round)
  {
    var n := |data|;
    var k := 0;
    while k < n
      invariant 0 <= k <= n
      invariant forall j :: 0 <= j < 2 * n ==>
        words[j] == (if j % 2 == 0 then Quantised(data[j / 2].re, scale, round)
                     else if j / 2 < k then Quantised(data[j / 2].im, scale, round) else 0)
    {
      words[2 * k + 1] := Quantised(data[k].im, scale, round);
      k := k + 1;
    }
  }

  lemma {:induction false} ToBytesConcat(a: seq<Int16>, b: seq<Int16>)
    ensures ToBytes(a + b) == ToBytes(a) + ToBytes(b)
  {
    if a == [] {
      assert a + b == b;
    } else {
      assert (a + b)[1..] == a[1..] + b;
      ToBytesConcat(a[1..], b);
    }
  }

  /** The bytes of the prepared words are the interleaved I and Q samples the loader reads. */
  lemma {:induction false} PreparedBytes(data: seq<Complex>, scale: real, round: real -> int)
    ensures ToBytes(Prepared(data, scale, round)) == Interleave(Reals(data, scale, round), Imags(data, scale, round))
    decreases |data|
  {
    if data != [] {
      var w := Prepared(data, scale, round);
      var i := Reals(data, scale, round);
      var q := Imags(data, scale, round);
      assert w == [i[0], q[0]] + Prepared(data[1..], scale, round);
      assert i[1..] == Reals(data[1..], scale, round);
      assert q[1..] == Imags(data[1..], scale, round);
      PreparedBytes(data[1..], scale, round);
      ToBytesConcat([i[0], q[0]], Prepared(data[1..], scale, round));
      assert ToBytes([i[0], q[0]]) == Int16Bytes(i[0]) + Int16Bytes(q[0]) by {
        assert [i[0], q[0]][1..] == [q[0]];
        assert [q[0]][1..] == [];
      }
    }
  }

  /**
   * Saving then loading the samples: the loader turns the saved words back
   * into one complex value per sample, the quantised parts scaled by `fix`.
   */
  lemma SavedSamplesLoad(data: seq<Complex>, scale: real, round: real -> int, fix: Int16 -> real)
    requires |data| > 0
    ensures ExtractIq(ToBytes(Prepared(data, scale, round)), 0, 0, fix)
         == Ok(seq(|data|, k requires 0 <= k < |data| =>
                Complex(fix(Quantised(data[k].re, scale, round)), fix(Quantised(data[k].im, scale, round)))))
  {
    var i := Reals(data, scale, round);
    var q := Imags(data, scale, round);
    PreparedBytes(data, scale, round);
    ExtractIqOfInterleave(i, q, fix);
    assert seq(|i|, k requires 0 <= k < |i| => Complex(fix(i[k]), fix(q[k])))
        == seq(|data|, k requires 0 <= k < |data| =>
             Complex(fix(Quantised(data[k].re, scale, round)), fix(Quantised(data[k].im, scale, round))));
  }

  /**
   * With numpy's ties-to-even rounding, a component whose scaled value
   * lies in the int16 range is stored within half a unit of it.
   */
  lemma QuantisedWithinHalf(x: real, scale: real)
    requires -32768.0 <= scale * x <= 32767.0
    ensures -1.0 / 2.0 <= Quantised(x, scale, RoundHalfEven) as real - scale * x <= 1.0 / 2.0
  {
    var r := RoundHalfEven(scale * x);
    assert -32768 <= r <= 32767;
  }

  // ----- _write_waveform -----

  /**
   * _write_waveform: the section head, then the words in blocks of
   * ChunkSize, the last block cut at the end of the array, then '}'.
   */
  method WriteWaveform(fp: Sink, words: array<Int16>, encrypted: bool)
    modifies fp
    ensures fp.bytes == old(fp.bytes) + RenderPiece(Binary(WaveformSection(encrypted), ToBytes(words[..])))
  {
    var prefix := if encrypted then "W" else "";
    var head := "{" + prefix + "WAVEFORM-" + NatText(words.Length * 2 + 1) + ":#";
    var h := Encode(head);
    ghost var payload := ToBytes(words[..]);
    WaveformFraming(encrypted, head, payload);
    fp.Write(h);
    WriteBlocks(fp, words);
    fp.Write([RBrace]);
    assert old(fp.bytes) + h + payload + [RBrace] == old(fp.bytes) + (h + payload + [RBrace]);
  }

  /** The head _write_waveform formats frames the words as a WAVEFORM section. */
  lemma WaveformFraming(encrypted: bool, head: string, payload: seq<Byte>)
    requires head == "{" + (if encrypted then "W" else "") + "WAVEFORM-" + NatText(|payload| + 1) + ":#"
    ensures RenderPiece(Binary(WaveformSection(encrypted), payload)) == Encode(head) + payload + [RBrace]
  {
    WaveformHead(encrypted, |payload| + 1);
    WaveformPiece(encrypted, payload);
  }

  /** The block loop of _write_waveform: blocks of ChunkSize words, the last one cut at the end. */
  method WriteBlocks(fp: Sink, words: array<Int16>)
    modifies fp
    ensures fp.bytes == old(fp.bytes) + ToBytes(words[..])
  {
    var size := words.Length;
    var blocks := (size + ChunkSize - 1) / ChunkSize;
    var b := 0;
    assert words[..0] == [];
    while b < blocks
      invariant 0 <= b <= blocks
      invariant fp.bytes == old(fp.bytes) + ToBytes(words[..Written(b, size)])
    {
      var start := b * ChunkSize;
      var stop := (b + 1) * ChunkSize;
      if stop > size - 1 {
        stop := size;
      }
      BlockStep(words[..], b, stop);
      fp.Write(ToBytes(words[start..stop]));
      b := b + 1;
    }
    BlocksCover(size);
    assert words[..size] == words[..];
  }

  lemma WaveformPiece(encrypted: bool, payload: seq<Byte>)
    ensures RenderPiece(Binary(WaveformSection(encrypted), payload))
         == Encode(SectionHead(NameOf(WaveformSection(encrypted)), |payload| + 1)) + payload + [RBrace]
  {
  }

  /** Writing block b extends the words written so far by the words of that block. */
  lemma BlockStep(words: seq<Int16>, b: nat, stop: nat)
    requires b < (|words| + ChunkSize - 1) / ChunkSize
    requires stop == if (b + 1) * ChunkSize > |words| - 1 then |words| else (b + 1) * ChunkSize
    ensures b * ChunkSize <= stop <= |words|
    ensures ToBytes(words[..Written(b, |words|)]) + ToBytes(words[b * ChunkSize..stop]) == ToBytes(words[..Written(b + 1, |words|)])
  {
    BlockBounds(|words|, b);
    var start := b * ChunkSize;
    assert words[..start] + words[start..stop] == words[..stop];
    ToBytesConcat(words[..start], words[start..stop]);
  }

  lemma WaveformHead(encrypted: bool, m: nat)
    ensures "{" + (if encrypted then "W" else "") + "WAVEFORM-" + NatText(m) + ":#"
         == SectionHead(NameOf(WaveformSection(encrypted)), m)
  {
    if encrypted {
      assert "{" + "W" + "WAVEFORM-" == "{" + "WWAVEFORM" + "-";
    } else {
      assert "{" + "" + "WAVEFORM-" == "{" + "WAVEFORM" + "-";
    }
  }

  // ----- the tags of a single-segment file -----

  /** _write_type: the type, or its first element when it is a tuple. */
  function TypeStep(meta: Dicts.Items<Value>): Step
  {
    var v := GetOr(meta, "type", DefaultType);
    if v.PyTuple? then
      if v.items == [] then Err(IndexError) else Ok([Line("TYPE", StrOf(v.items[0]))])
    else Ok([Line("TYPE", StrOf(v))])
  }

  /** _write_copyright. */
  function CopyrightStep(meta: Dicts.Items<Value>): Step
  {
    Ok([Line("COPYRIGHT", StrOf(GetOr(meta, "copyright", DefaultCopyright)))])
  }

  /** _write_comment. */
  function CommentStep(meta: Dicts.Items<Value>): Step
  {
    Ok([Line("COMMENT", StrOf(GetOr(meta, "comment", DefaultComment)))])
  }

  /** invert_values: a non-zero level is negated. */
  function Invert(x: real): real
  {
    if x != 0.0 then x * -1.0 else x
  }

  /** A level in dB as numpy gives it: a finite value, an infinity or nan. */
  datatype Db = Finite(x: real) | MinusInf | PlusInf | Nan

  /** invert_values on a computed level: -inf becomes inf, and nan (which is not 0.0) stays nan. */
  function InvertDb(d: Db): Db
  {
    match d
    case Finite(x) => Finite(Invert(x))
    case MinusInf => PlusInf
    case PlusInf => MinusInf
    case Nan => Nan
  }

  /** format(d, ".6f") of a computed level. */
  function DbText(d: Db): string
  {
    match d
    case Finite(x) => FixedSix(x)
    case MinusInf => "-inf"
    case PlusInf => "inf"
    case Nan => "nan"
  }

  predicate AllZero(data: seq<Complex>)
  {
    forall i :: 0 <= i < |data| ==> data[i] == Complex(0.0, 0.0)
  }

  /**
   * calculate_peak: np.max of an empty array raises ValueError, and a zero
   * magnitude gives 20 log10(0) = -inf; `peakOf` stands for the float16
   * arithmetic of any other data.
   */
  function CalculatePeak(data: seq<Complex>, peakOf: seq<Complex> -> Db): Result<Db>
  {
    if data == [] then Err(ValueError(EmptyReduction))
    else if AllZero(data) then Ok(MinusInf)
    else Ok(peakOf(data))
  }

  /** calculate_rms: the mean of an empty array is nan, and zero data gives -inf; `rmsOf` stands for the rest. */
  function CalculateRms(data: seq<Complex>, rmsOf: seq<Complex> -> Db): Db
  {
    if data == [] then Nan
    else if AllZero(data) then MinusInf
    else rmsOf(data)
  }

  /** A level to write: the value stored in the meta, or the inverted computed one. */
  datatype Level = Stored(v: Value) | Computed(d: Db)

  /** meta.get("peak"), computed only when it is None. */
  function PeakLevel(meta: Dicts.Items<Value>, data: seq<Complex>, peakOf: seq<Complex> -> Db): Result<Level>
  {
    var v := GetOr(meta, "peak", PyNone);
    if !v.PyNone? then Ok(Stored(v))
    else
      var d :- CalculatePeak(data, peakOf);
      Ok(Computed(InvertDb(d)))
  }

  /** meta.get("rms"), computed only when it is None. */
  function RmsLevel(meta: Dicts.Items<Value>, data: seq<Complex>, rmsOf: seq<Complex> -> Db): Level
  {
    var v := GetOr(meta, "rms", PyNone);
    if !v.PyNone? then Stored(v) else Computed(InvertDb(CalculateRms(data, rmsOf)))
  }

  function LevelText(l: Level): Result<string>
  {
    match l
    case Stored(v) => FormatFixed(v)
    case Computed(d) => Ok(DbText(d))
  }

  /**
   * _write_level_offset: rms and peak with six decimals. The peak is
   * computed first, so empty data with no stored peak raises before any
   * formatting; empty data with a stored peak writes nan for the rms, and
   * zero data writes inf.
   */
  function LevelOffsStep(st: Storages.StorageValue, peakOf: seq<Complex> -> Db, rmsOf: seq<Complex> -> Db): (r: Step)
    ensures GetOr(st.meta, "peak", PyNone).PyNone? && st.data == [] ==> r == Err(ValueError(EmptyReduction))
    ensures GetOr(st.meta, "peak", PyNone).PyNone? && GetOr(st.meta, "rms", PyNone).PyNone? && st.data != [] && AllZero(st.data) ==>
      r == Ok([Line("LEVEL OFFS", "inf,inf")])
    ensures Number(GetOr(st.meta, "peak", PyNone)).Some? && GetOr(st.meta, "rms", PyNone).PyNone? && st.data == [] ==>
      r == Ok([Line("LEVEL OFFS", "nan," + FixedSix(Number(GetOr(st.meta, "peak", PyNone)).value))])
    ensures Number(GetOr(st.meta, "rms", PyNone)).Some? && Number(GetOr(st.meta, "peak", PyNone)).Some? ==>
      r == Ok([Line("LEVEL OFFS", FixedSix(Number(GetOr(st.meta, "rms", PyNone)).value) + "," +
                                  FixedSix(Number(GetOr(st.meta, "peak", PyNone)).value))])
  {
    assert "inf" + "," + "inf" == "inf,inf" && "nan" + "," == "nan,";
    var peak :- PeakLevel(st.meta, st.data, peakOf);
    var rms := RmsLevel(st.meta, st.data, rmsOf);
    var r :- LevelText(rms);
    var p :- LevelText(peak);
    Ok([Line("LEVEL OFFS", r + "," + p)])
  }

  /** _write_date: the parent's time stamp as %Y-%m-%d;%H:%M:%S. */
  function DateStep(timestamp: ValidDateTime): Step
  {
    Ok([Line("DATE", Format(timestamp, WvLayout))])
  }

  /** _write_clock: a missing or falsy clock raises ValueError. */
  function ClockStep(meta: Dicts.Items<Value>): Step
  {
    var c := GetOr(meta, "clock", PyNone);
    var t :- Truthy(c);
    if !t then Err(ValueError(ClockMissing)) else Ok([Line("CLOCK", StrOf(c))])
  }

  /** _write_samples: the number of samples. */
  function SamplesStep(n: nat): Step
  {
    Ok([Line("SAMPLES", IntText(n))])
  }

  /** _write_reflevel: written with six decimals, only when truthy. */
  function ReflevelStep(meta: Dicts.Items<Value>): Step
  {
    var v := GetOr(meta, "reflevel", PyNone);
    var t :- Truthy(v);
    if t then
      var s :- FormatFixed(v);
      Ok([Line("REFLEVEL", s)])
    else Ok([])
  }

  /** _write_control_length: written only when truthy. */
  function ControlLengthStep(meta: Dicts.Items<Value>): Step
  {
    var v := GetOr(meta, "control_length", PyNone);
    var t :- Truthy(v);
    if t then Ok([Line("CONTROL LENGTH", StrOf(v))]) else Ok([])
  }

  /** The first error among results, or all their values. */
  function Collect(rs: seq<Result<NdArray>>): (r: Result<seq<NdArray>>)
    ensures r.Ok? ==> |r.value| == |rs| && forall i :: 0 <= i < |rs| ==> rs[i] == Ok(r.value[i])
  {
    if rs == [] then Ok([])
    else
      var x :- rs[0];
      var rest :- Collect(rs[1..]);
      Ok([x] + rest)
  }

  /** np.array(v) of nested lists of integers and booleans; other elements are refused. */
  function ArrayOf(v: Value): Result<NdArray>
  {
    match v
    case PyInt(i) => Ok(Scalar(i))
    case PyBool(b) => Ok(Scalar(if b then 1 else 0))
    case PyList(items) =>
      var subs :- Collect(seq(|items|, i requires 0 <= i < |items| => ArrayOf(items[i])));
      if WellShaped(Dim(subs)) then Ok(Dim(subs)) else Err(ValueError(ShapeMismatch))
    case PyTuple(items) =>
      var subs :- Collect(seq(|items|, i requires 0 <= i < |items| => ArrayOf(items[i])));
      if WellShaped(Dim(subs)) then Ok(Dim(subs)) else Err(ValueError(ShapeMismatch))
    case _ => Err(TypeError)
  }

  /**
   * _write_control_list: skipped when None; a list is first made an array;
   * the packed markers are written as the CONTROL LIST WIDTH4 section.
   */
  function ControlListStep(meta: Dicts.Items<Value>): Step
  {
    var v := GetOr(meta, "control_list", PyNone);
    if v.PyNone? then Ok([])
    else
      var a :- (match v
        case PyArray(a) => Ok(a)
        case PyList(_) => ArrayOf(v)
        case _ => Err(AttributeError));
      var bytes :- Pack(a);
      Ok([Binary(ControlListSection, bytes)])
  }

  /** key.startswith("marker_list"). */
  predicate IsMarkerKey(key: string)
  {
    |key| >= 11 && key[..11] == "marker_list"
  }

  /** marker.replace('_', ' ').upper(). */
  function MarkerName(key: string): string
  {
    Upper(ReplaceChar(key, '_', " "))
  }

  /**
   * The elements `for el in v` visits: the items of a list or tuple, the
   * one-character strings of a str, the keys of a dict, the sub-arrays of an
   * array; anything else is not iterable and raises TypeError.
   */
  function Elements(v: Value): (r: Result<seq<Value>>)
    ensures (v.PyList? || v.PyTuple?) ==> r == Ok(v.items)
    ensures v.PyStr? ==> r.Ok? && |r.value| == |v.s| && forall i :: 0 <= i < |v.s| ==> r.value[i] == PyStr([v.s[i]])
    ensures r.Err? <==> !(v.PyList? || v.PyTuple? || v.PyStr? || v.PyDict? || (v.PyArray? && v.a.Dim?))
  {
    match v
    case PyList(items) => Ok(items)
    case PyTuple(items) => Ok(items)
    case PyStr(s) => Ok(seq(|s|, i requires 0 <= i < |s| => PyStr([s[i]])))
    case PyDict(entries) => Ok(seq(|entries|, i requires 0 <= i < |entries| => PyStr(entries[i].0)))
    case PyArray(a) => if a.Dim? then Ok(seq(|a.items|, i requires 0 <= i < |a.items| => PyArray(a.items[i]))) else Err(TypeError)
    case _ => Err(TypeError)
  }

  /** ":".join(str(el) for el in entry). */
  function EntryText(entry: Value): Result<string>
  {
    var els :- Elements(entry);
    Ok(Join(seq(|els|, i requires 0 <= i < |els| => StrOf(els[i])), ":"))
  }

  function EntryTexts(entries: seq<Value>): (r: Result<seq<string>>)
    ensures r.Ok? ==> |r.value| == |entries|
  {
    if entries == [] then Ok([])
    else
      var t :- EntryText(entries[0]);
      var rest :- EntryTexts(entries[1..]);
      Ok([t] + rest)
  }

  /** ";".join of the entries' texts. */
  function MarkerString(v: Value): Result<string>
  {
    var entries :- Elements(v);
    var texts :- EntryTexts(entries);
    Ok(Join(texts, ";"))
  }

  /** The line _write_marker writes for one marker_list key. */
  function MarkerLineStep(key: string, v: Value): Step
  {
    var s :- MarkerString(v);
    Ok([Line(MarkerName(key), " " + s)])
  }

  /** One step per marker_list key of the marker dict, in the dict's order. */
  function MarkerLineSteps(entries: seq<(string, Value)>): (steps: seq<Step>)
  {
    if entries == [] then []
    else
      (if IsMarkerKey(entries[0].0) then [MarkerLineStep(entries[0].0, entries[0].1)] else [])
      + MarkerLineSteps(entries[1..])
  }

  /**
   * The marker_list keys among the elements of a marker value that is not a
   * dict: `key.startswith` raises AttributeError on an element that is not a
   * str.
   */
  function ListedMarkerKeys(keys: seq<Value>): (r: Result<seq<string>>)
    ensures r.Ok? <==> forall i :: 0 <= i < |keys| ==> keys[i].PyStr?
    ensures r.Ok? ==> forall k :: k in r.value ==> IsMarkerKey(k)
    ensures (forall i :: 0 <= i < |keys| ==> keys[i].PyStr? && |keys[i].s| < 11) ==> r == Ok([])
  {
    if keys == [] then Ok([])
    else if !keys[0].PyStr? then Err(AttributeError)
    else
      var rest :- ListedMarkerKeys(keys[1..]);
      Ok(if IsMarkerKey(keys[0].s) then [keys[0].s] + rest else rest)
  }

  /**
   * _write_marker: the keys of meta["marker"] (default {}) that start with
   * "marker_list", each on its line. A marker value that is not a dict is
   * iterated all the same: a str gives one-character keys and writes
   * nothing, and a list or tuple holding a marker_list key raises TypeError
   * at marker[key].
   */
  function MarkerSteps(meta: Dicts.Items<Value>): (steps: seq<Step>)
    ensures GetOr(meta, "marker", PyDict([])).PyStr? ==> steps == []
    ensures !GetOr(meta, "marker", PyDict([])).PyDict? ==> |steps| <= 1 && forall i :: 0 <= i < |steps| ==> steps[i].Err?
  {
    var m := GetOr(meta, "marker", PyDict([]));
    if m.PyDict? then MarkerLineSteps(m.entries)
    else
      match Elements(m)
      case Err(e) => [Err(e)]
      case Ok(els) =>
        match ListedMarkerKeys(els)
        case Err(e) => [Err(e)]
        case Ok(keys) => if keys == [] then [] else [Err(TypeError)]
  }

  /** _write_empty_tag: `count` spaces; the count is random in the source. */
  function EmptyStep(count: nat): Step
  {
    Ok([Binary(EmptySection, seq(count, _ => Space))])
  }

  /** _write_waveform, with the flag read from meta[key] (default False). */
  function WaveformStep(meta: Dicts.Items<Value>, key: string, words: seq<Int16>): Step
  {
    var encrypted :- Truthy(GetOr(meta, key, PyBool(false)));
    Ok([Binary(WaveformSection(encrypted), ToBytes(words))])
  }

  /** The ten steps of _write before the markers. */
  function SingleHead(st: Storages.StorageValue, timestamp: ValidDateTime,
                      peakOf: seq<Complex> -> Db, rmsOf: seq<Complex> -> Db): (steps: seq<Step>)
    ensures |steps| == 10
  {
    [TypeStep(st.meta), CopyrightStep(st.meta), CommentStep(st.meta), LevelOffsStep(st, peakOf, rmsOf),
     DateStep(timestamp), ClockStep(st.meta), SamplesStep(|st.data|), ReflevelStep(st.meta),
     ControlLengthStep(st.meta), ControlListStep(st.meta)]
  }

  /** The tags of _write before the waveform, in order. */
  function SingleTags(st: Storages.StorageValue, timestamp: ValidDateTime,
                      peakOf: seq<Complex> -> Db, rmsOf: seq<Complex> -> Db, emptyCount: nat): seq<Step>
  {
    SingleHead(st, timestamp, peakOf, rmsOf) + MarkerSteps(st.meta) + [EmptyStep(emptyCount)]
  }

  /** The steps of _write, in order. */
  function SingleSteps(st: Storages.StorageValue, timestamp: ValidDateTime, words: seq<Int16>,
                       peakOf: seq<Complex> -> Db, rmsOf: seq<Complex> -> Db, emptyCount: nat): seq<Step>
  {
    SingleTags(st, timestamp, peakOf, rmsOf, emptyCount) + [WaveformStep(st.meta, "encryption_flag", words)]
  }

  /** What _write writes for one storage, and the exception that stopped it, if any. */
  function SingleFile(st: Storages.StorageValue, timestamp: ValidDateTime, scale: real, round: real -> int,
                      peakOf: seq<Complex> -> Db, rmsOf: seq<Complex> -> Db, emptyCount: nat): (seq<Piece>, Option<Error>)
  {
    Run(SingleSteps(st, timestamp, Prepared(st.data, scale, round), peakOf, rmsOf, emptyCount))
  }

  /**
   * _write: the words are prepared first, then the tags are written in
   * order; an exception leaves the tags before it written.
   */
  method WriteSingle(fp: Sink, st: Storages.StorageValue, timestamp: ValidDateTime, scale: real, round: real -> int,
                     peakOf: seq<Complex> -> Db, rmsOf: seq<Complex> -> Db, emptyCount: nat) returns (r: Result<()>)
    modifies fp
    ensures r == Outcome(SingleFile(st, timestamp, scale, round, peakOf, rmsOf, emptyCount))
    ensures fp.bytes == old(fp.bytes) + Render(SingleFile(st, timestamp, scale, round, peakOf, rmsOf, emptyCount).0)
  {
    var words := PrepareData(st.data, scale, round);
    var tags := SingleTags(st, timestamp, peakOf, rmsOf, emptyCount);
    r := WriteTagsThenWaveform(fp, tags, st.meta, "encryption_flag", words);
  }

  /** Some tags, then the waveform whose encryption flag is read from meta[key]. */
  method WriteTagsThenWaveform(fp: Sink, tags: seq<Step>, meta: Dicts.Items<Value>, key: string, words: array<Int16>)
    returns (r: Result<()>)
    modifies fp
    ensures r == Outcome(Run(tags + [WaveformStep(meta, key, words[..])]))
    ensures fp.bytes == old(fp.bytes) + Render(Run(tags + [WaveformStep(meta, key, words[..])]).0)
  {
    ghost var base := fp.bytes;
    r := WriteSteps(fp, tags);
    if r.Err? {
      RunConcat(tags, [WaveformStep(meta, key, words[..])]);
      return;
    }
    ghost var mid := fp.bytes;
    r := WriteWaveformStep(fp, meta, key, words);
    ThenLast(tags, [WaveformStep(meta, key, words[..])], base, mid, fp.bytes);
  }

  /** Bytes of steps that all ran, followed by the bytes of the next ones. */
  lemma ThenLast(tags: seq<Step>, last: seq<Step>, base: seq<Byte>, mid: seq<Byte>, after: seq<Byte>)
    requires Run(tags).1 == None && mid == base + Render(Run(tags).0)
    requires after == mid + Render(Run(last).0)
    ensures Run(tags + last).1 == Run(last).1
    ensures after == base + Render(Run(tags + last).0)
  {
    RunConcat(tags, last);
    RenderAfter(base, Run(tags).0, Run(last).0);
  }

  lemma RenderAfter(base: seq<Byte>, x: seq<Piece>, y: seq<Piece>)
    ensures base + Render(x) + Render(y) == base + Render(x + y)
  {
    var a, b := Render(x), Render(y);
    assert base + a + b == base + (a + b);
    RenderConcat(x, y);
  }

  /** Steps written in turn, up to the first exception. */
  method WriteSteps(fp: Sink, steps: seq<Step>) returns (r: Result<()>)
    modifies fp
    ensures r == Outcome(Run(steps))
    ensures fp.bytes == old(fp.bytes) + Render(Run(steps).0)
  {
    ghost var base := fp.bytes;
    assert steps[..0] == [] && base + Render([]) == base;
    var i := 0;
    while i < |steps|
      invariant 0 <= i <= |steps|
      invariant Run(steps[..i]).1 == None && fp.bytes == base + Render(Run(steps[..i]).0)
    {
      r := Emit(fp, steps[i], steps, i, base);
      if r.Err? {
        return;
      }
      i := i + 1;
    }
    assert steps[..i] == steps;
    r := Ok(());
  }

  /** _write_waveform with the flag meta[key]: a flag whose truth cannot be read stops the save. */
  method WriteWaveformStep(fp: Sink, meta: Dicts.Items<Value>, key: string, words: array<Int16>) returns (r: Result<()>)
    modifies fp
    ensures r == Outcome(Run([WaveformStep(meta, key, words[..])]))
    ensures fp.bytes == old(fp.bytes) + Render(Run([WaveformStep(meta, key, words[..])]).0)
  {
    var encrypted := Truthy(GetOr(meta, key, PyBool(false)));
    if encrypted.Err? {
      r := Err(encrypted.error);
      return;
    }
    WriteWaveform(fp, words, encrypted.value);
    ghost var piece := Binary(WaveformSection(encrypted.value), ToBytes(words[..]));
    assert [WaveformStep(meta, key, words[..])][1..] == [];
    assert [piece] + [] == [piece];
    assert Run([WaveformStep(meta, key, words[..])]) == ([piece], None);
    assert Render([piece]) == RenderPiece(piece);
    r := Ok(());
  }
}
