/**
 * The multi-segment (MWV) WV saver and the save entry point. The storages'
 * samples are stacked into one block and written as one waveform; the
 * header carries the segment count, lengths, starts, clocks, level offsets,
 * comments and file names, segment by segment in storage order.
 */
module WvMwv {
  import opened Wrappers
  import opened Text
  import opened Dates
  import opened Values
  import Dicts
  import opened Metadata
  import opened Storages
  import opened WvSamples
  import opened Output
  import opened WvSave
  import WvLoad
  import WvBinary

  // ----- the sample block -----

  /**
   * The block _write_mwv prepares: each storage's samples are put in front
   * of those gathered so far, so the last storage comes first.
   */
  function Stacked(ds: seq<StorageValue>): seq<Complex>
  {
    if ds == [] then [] else ds[|ds| - 1].data + Stacked(ds[..|ds| - 1])
  }

  /** The loop of np.append calls that builds the block. */
  method StackSegments(ds: seq<StorageValue>) returns (block: seq<Complex>)
    ensures block == Stacked(ds)
  {
    block := [];
    var i := 0;
    while i < |ds|
      invariant 0 <= i <= |ds|
      invariant block == Stacked(ds[..i])
    {
      assert ds[..i + 1][..i] == ds[..i];
      block := ds[i].data + block;
      i := i + 1;
    }
    assert ds[..i] == ds;
  }

  /** len(data.data) for every storage, in storage order. */
  function Lengths(ds: seq<StorageValue>): (ls: seq<int>)
    ensures |ls| == |ds|
  {
    seq(|ds|, i requires 0 <= i < |ds| => |ds[i].data|)
  }

  lemma {:induction false} StackedLength(ds: seq<StorageValue>)
    ensures |Stacked(ds)| == WvLoad.Sum(Lengths(ds))
  {
    if ds != [] {
      StackedLength(ds[..|ds| - 1]);
      assert Lengths(ds)[..|ds| - 1] == Lengths(ds[..|ds| - 1]);
    }
  }

  /** Segments of one common length L: segment i of the block sits at [i L, (i + 1) L) and is storage n-1-i. */
  lemma {:induction false} StackedEqual(ds: seq<StorageValue>, len: nat, i: nat)
    requires forall k :: 0 <= k < |ds| ==> |ds[k].data| == len
    requires i < |ds|
    ensures |Stacked(ds)| == |ds| * len
    ensures Stacked(ds)[i * len..(i + 1) * len] == ds[|ds| - 1 - i].data
  {
    var n := |ds|;
    var last, front := ds[n - 1].data, ds[..n - 1];
    UniformLength(ds, len);
    UniformLength(front, len);
    assert Stacked(ds) == last + Stacked(front);
    MulSucc(i, len);
    if i == 0 {
      assert (last + Stacked(front))[0..len] == last;
    } else {
      MulSucc(i - 1, len);
      MulMono(i + 1, n, len);
      MulSucc(n - 1, len);
      StackedEqual(front, len, i - 1);
      assert front[|front| - 1 - (i - 1)] == ds[n - 1 - i];
      SliceAfter(last, Stacked(front), i * len, (i + 1) * len);
    }
  }

  /** A block of n segments of length L holds n L samples. */
  lemma {:induction false} UniformLength(ds: seq<StorageValue>, len: nat)
    requires forall k :: 0 <= k < |ds| ==> |ds[k].data| == len
    ensures |Stacked(ds)| == |ds| * len
  {
    if ds != [] {
      UniformLength(ds[..|ds| - 1], len);
      MulSucc(|ds| - 1, len);
    }
  }

  lemma MulSucc(x: int, c: int)
    ensures (x + 1) * c == x * c + c
  {
  }

  lemma MulMono(a: nat, b: nat, c: nat)
    requires a <= b
    ensures a * c <= b * c
  {
  }

  /** A slice past the first part of a concatenation is a slice of the second. */
  lemma SliceAfter<T>(a: seq<T>, b: seq<T>, x: int, y: int)
    requires |a| <= x <= y <= |a| + |b|
    ensures (a + b)[x..y] == b[x - |a|..y - |a|]
  {
  }

  lemma {:induction false} SumConstant(ls: seq<int>, len: int)
    requires forall k :: 0 <= k < |ls| ==> ls[k] == len
    ensures WvLoad.Sum(ls) == |ls| * len
  {
    if ls != [] {
      SumConstant(ls[..|ls| - 1], len);
    }
  }

  /**
   * The stacking order read back: with segments of one common length, the
   * loader's segment i of the saved block, cut at the written start, holds
   * the samples of storage n-1-i, not those of storage i.
   */
  lemma ReversedSegments(ds: seq<StorageValue>, len: nat, i: nat)
    requires forall k :: 0 <= k < |ds| ==> |ds[k].data| == len
    requires i < |ds|
    ensures WvLoad.SegmentData(Stacked(ds), Lengths(ds), i) == Ok(ds[|ds| - 1 - i].data)
  {
    var ls := Lengths(ds);
    StackedEqual(ds, len, i);
    SumConstant(ls[..i], len);
    SumConstant(ls, len);
    assert ls[..|ls|] == ls;
    WvLoad.SegmentExact(Stacked(ds), ls, i);
  }

  // ----- segment header fields -----

  /** The texts of some integers, joined with commas. */
  function IntsText(xs: seq<int>): string
  {
    Join(seq(|xs|, i requires 0 <= i < |xs| => IntText(xs[i])), ",")
  }

  /** The running sums _write_mwv_segment_start writes: where each segment starts. */
  function Starts(ds: seq<StorageValue>): (ss: seq<int>)
    ensures |ss| == |ds|
  {
    seq(|ds|, i requires 0 <= i < |ds| => WvLoad.Start(Lengths(ds), i))
  }

  /** The loop of _write_mwv_segment_start: start 0, then add each length. */
  method SegmentStarts(ds: seq<StorageValue>) returns (starts: seq<int>)
    ensures starts == Starts(ds)
  {
    starts := [];
    var start := 0;
    var i := 0;
    while i < |ds|
      invariant 0 <= i <= |ds|
      invariant |starts| == i && forall k :: 0 <= k < i ==> starts[k] == WvLoad.Start(Lengths(ds), k)
      invariant start == WvLoad.Start(Lengths(ds), i)
    {
      starts := starts + [start];
      WvLoad.StartStep(Lengths(ds), i);
      start := start + |ds[i].data|;
      i := i + 1;
    }
  }

  /** The starts begin at 0 and each is the previous start plus the previous length. */
  lemma StartsRunningSum(ds: seq<StorageValue>)
    ensures |ds| > 0 ==> Starts(ds)[0] == 0
    ensures forall i :: 0 < i < |ds| ==> Starts(ds)[i] == Starts(ds)[i - 1] + |ds[i - 1].data|
  {
    if |ds| > 0 {
      assert Lengths(ds)[..0] == [];
    }
    forall i | 0 < i < |ds|
      ensures Starts(ds)[i] == Starts(ds)[i - 1] + |ds[i - 1].data|
    {
      WvLoad.StartStep(Lengths(ds), i - 1);
    }
  }

  lemma {:induction false} ParseIntsText(xs: seq<int>)
    ensures WvLoad.ParseLengths(seq(|xs|, i requires 0 <= i < |xs| => IntText(xs[i]))) == Ok(xs)
  {
    var ts := seq(|xs|, i requires 0 <= i < |xs| => IntText(xs[i]));
    if xs != [] {
      ParseIntOfIntText(xs[0]);
      ParseIntsText(xs[1..]);
      assert ts[1..] == seq(|xs[1..]|, i requires 0 <= i < |xs[1..]| => IntText(xs[1..][i]));
      assert xs == [xs[0]] + xs[1..];
    }
  }

  /** A comma list of integers, as the MWV_SEGMENT_LENGTH line carries them, parses back to the same integers. */
  lemma IntsTextRoundTrip(xs: seq<int>)
    requires |xs| >= 1
    ensures WvLoad.ParseLengths(Split(IntsText(xs), ',')) == Ok(xs)
  {
    var ts := seq(|xs|, i requires 0 <= i < |xs| => IntText(xs[i]));
    forall i | 0 <= i < |xs|
      ensures ',' !in ts[i]
    {
      IntTextAbsent(xs[i], ',');
    }
    SplitJoin(ts, ',');
    ParseIntsText(xs);
  }

  // ----- the clock -----

  /** float(meta.get("clock", 0)). */
  function ClockOf(st: StorageValue): Result<real>
  {
    ToFloat(GetOr(st.meta, "clock", PyInt(0)))
  }

  /** The clocks of the storages in order, or the first conversion that raises. */
  function Clocks(ds: seq<StorageValue>): (r: Result<seq<real>>)
    ensures r.Ok? ==> |r.value| == |ds|
  {
    ReadEach(ClockOf, ds)
  }

  /** `read` applied to each storage in order, stopping at the first error. */
  function ReadEach(read: StorageValue -> Result<real>, ds: seq<StorageValue>): (r: Result<seq<real>>)
    ensures r.Ok? ==> |r.value| == |ds|
  {
    if ds == [] then Ok([])
    else
      var front :- ReadEach(read, ds[..|ds| - 1]);
      var c :- read(ds[|ds| - 1]);
      Ok(front + [c])
  }

  /** The clocks are read one per storage, in order; any one that raises makes the whole read raise. */
  lemma ClocksAll(ds: seq<StorageValue>)
    ensures Clocks(ds).Ok? <==> forall i :: 0 <= i < |ds| ==> ClockOf(ds[i]).Ok?
    ensures Clocks(ds).Ok? ==> forall i :: 0 <= i < |ds| ==> Clocks(ds).value[i] == ClockOf(ds[i]).value
  {
    ReadEachOk(ClockOf, ds);
    if Clocks(ds).Ok? {
      ReadEachValues(ClockOf, ds);
    }
  }

  lemma {:induction false} ReadEachOk(read: StorageValue -> Result<real>, ds: seq<StorageValue>)
    ensures ReadEach(read, ds).Ok? <==> forall i :: 0 <= i < |ds| ==> read(ds[i]).Ok?
  {
    if ds != [] {
      var k := |ds| - 1;
      var front := ds[..k];
      ReadEachOk(read, front);
      if forall i :: 0 <= i < |ds| ==> read(ds[i]).Ok? {
        assert forall i :: 0 <= i < k ==> read(front[i]).Ok?;
      } else {
        var i :| 0 <= i < |ds| && !read(ds[i]).Ok?;
        if i < k {
          assert !read(front[i]).Ok?;
        }
      }
    }
  }

  lemma {:induction false} ReadEachValues(read: StorageValue -> Result<real>, ds: seq<StorageValue>)
    requires ReadEach(read, ds).Ok?
    ensures forall i :: 0 <= i < |ds| ==> read(ds[i]).Ok? && ReadEach(read, ds).value[i] == read(ds[i]).value
  {
    if ds != [] {
      var k := |ds| - 1;
      var front := ds[..k];
      assert ReadEach(read, front).Ok? && read(ds[k]).Ok?;
      ReadEachValues(read, front);
      assert ReadEach(read, ds).value == ReadEach(read, front).value + [read(ds[k]).value];
      forall i | 0 <= i < |ds|
        ensures read(ds[i]).Ok? && ReadEach(read, ds).value[i] == read(ds[i]).value
      {
        if i < k {
          assert front[i] == ds[i];
        }
      }
    }
  }

  /** The largest of 0.0 and the clocks. */
  function MaxOr0(cs: seq<real>): real
  {
    if cs == [] then 0.0
    else
      var m := MaxOr0(cs[..|cs| - 1]);
      if cs[|cs| - 1] > m then cs[|cs| - 1] else m
  }

  /** CLOCK is an upper bound of 0.0 and every segment clock, and is 0.0 or one of them. */
  lemma {:induction false} MaxOr0Bounds(cs: seq<real>)
    ensures MaxOr0(cs) >= 0.0
    ensures forall i :: 0 <= i < |cs| ==> cs[i] <= MaxOr0(cs)
    ensures MaxOr0(cs) == 0.0 || exists i :: 0 <= i < |cs| && cs[i] == MaxOr0(cs)
  {
    if cs != [] {
      var front := cs[..|cs| - 1];
      MaxOr0Bounds(front);
      assert forall i :: 0 <= i < |front| ==> cs[i] == front[i];
      if MaxOr0(cs) != 0.0 && MaxOr0(cs) != cs[|cs| - 1] {
        var i :| 0 <= i < |front| && front[i] == MaxOr0(front);
        assert cs[i] == MaxOr0(cs);
      }
    }
  }

  /** The loop of _write_mwv_clock: the running maximum, starting at 0.0. */
  method MwvClock(ds: seq<StorageValue>) returns (r: Result<real>)
    ensures Clocks(ds).Err? ==> r == Err(Clocks(ds).error)
    ensures Clocks(ds).Ok? ==> r == Ok(MaxOr0(Clocks(ds).value))
  {
    var maxClock := 0.0;
    var i := 0;
    while i < |ds|
      invariant 0 <= i <= |ds|
      invariant Clocks(ds[..i]).Ok? && maxClock == MaxOr0(Clocks(ds[..i]).value)
    {
      var c := ClockOf(ds[i]);
      assert ds[..i + 1][..i] == ds[..i];
      if c.Err? {
        assert Clocks(ds[..i + 1]).Err?;
        ClocksStop(ds, i + 1);
        r := Err(c.error);
        return;
      }
      if c.value > maxClock {
        maxClock := c.value;
      }
      i := i + 1;
    }
    assert ds[..i] == ds;
    r := Ok(maxClock);
  }

  /** A clock that raises stops the loop: the error is the first one. */
  lemma ClocksStop(ds: seq<StorageValue>, k: nat)
    requires k <= |ds| && Clocks(ds[..k]).Err?
    ensures Clocks(ds).Err? && Clocks(ds).error == Clocks(ds[..k]).error
  {
    ReadEachStop(ClockOf, ds, k);
  }

  lemma {:induction false} ReadEachStop(read: StorageValue -> Result<real>, ds: seq<StorageValue>, k: nat)
    requires k <= |ds| && ReadEach(read, ds[..k]).Err?
    ensures ReadEach(read, ds).Err? && ReadEach(read, ds).error == ReadEach(read, ds[..k]).error
  {
    if k < |ds| {
      var front := ds[..|ds| - 1];
      assert front[..k] == ds[..k];
      ReadEachStop(read, front, k);
    } else {
      assert ds[..k] == ds;
    }
  }

  /** str(meta.get("clock")) for every storage, joined with commas. */
  function ClockTexts(ds: seq<StorageValue>): string
  {
    Join(seq(|ds|, i requires 0 <= i < |ds| => StrOf(GetOr(ds[i].meta, "clock", PyNone))), ",")
  }

  /** _write_mwv_clock: CLOCK with the largest clock, then MWV_SEGMENT_CLOCK with all of them. */
  function ClockLines(maxClock: Result<real>, ds: seq<StorageValue>): Step
  {
    var m :- maxClock;
    Ok([Line("CLOCK", FloatText(m)), Line("MWV_SEGMENT_CLOCK", ClockTexts(ds))])
  }

  function MaxClock(ds: seq<StorageValue>): Result<real>
  {
    var cs :- Clocks(ds);
    Ok(MaxOr0(cs))
  }

  // ----- level offsets, comments, file names -----

  /** The fields of MWV_SEGMENT_LEVEL_OFFS: rms then peak of each storage, 0 when absent. */
  function LevelFields(ds: seq<StorageValue>): (fs: seq<string>)
    ensures |fs| == 2 * |ds|
  {
    seq(2 * |ds|, j requires 0 <= j < 2 * |ds| =>
      StrOf(GetOr(ds[j / 2].meta, if j % 2 == 0 then "rms" else "peak", PyInt(0))))
  }

  /**
   * The level offsets of segment i sit at fields 2 i and 2 i + 1, where the
   * loader's MWV_SEGMENT_LEVEL_OFFS rule looks for them, as long as no field
   * holds a comma itself.
   */
  lemma LevelFieldsRead(ds: seq<StorageValue>, i: nat)
    requires i < |ds|
    requires forall j :: 0 <= j < 2 * |ds| ==> ',' !in LevelFields(ds)[j]
    ensures var parts := Split(Join(LevelFields(ds), ","), ',');
      && |parts| == 2 * |ds|
      && parts[2 * i] == StrOf(GetOr(ds[i].meta, "rms", PyInt(0)))
      && parts[2 * i + 1] == StrOf(GetOr(ds[i].meta, "peak", PyInt(0)))
  {
    var fs := LevelFields(ds);
    SplitJoin(fs, ',');
    var j := 2 * i;
    assert j / 2 == i && j % 2 == 0;
    assert (j + 1) / 2 == i && (j + 1) % 2 == 1;
    assert fs[j] == StrOf(GetOr(ds[j / 2].meta, "rms", PyInt(0)));
    assert fs[j + 1] == StrOf(GetOr(ds[(j + 1) / 2].meta, "peak", PyInt(0)));
  }

  /** _write_mwv_segment_comment: one MWV_SEGMENT<i>_COMMENT line per storage, "None" when absent. */
  function CommentLines(ds: seq<StorageValue>): (ps: seq<Piece>)
    ensures |ps| == |ds|
  {
    seq(|ds|, i requires 0 <= i < |ds| =>
      Line("MWV_SEGMENT" + IntText(i) + "_COMMENT", StrOf(GetOr(ds[i].meta, "comment", PyNone))))
  }

  /** str(meta.get("filename", "")) of the storages whose meta has a filename, in order. */
  function FileNames(ds: seq<StorageValue>): (ns: seq<string>)
    ensures |ns| <= |ds|
  {
    if ds == [] then []
    else
      FileNames(ds[..|ds| - 1])
      + (if Dicts.HasKey(ds[|ds| - 1].meta, "filename")
         then [StrOf(GetOr(ds[|ds| - 1].meta, "filename", PyStr("")))] else [])
  }

  /** The names are those of the storages with a filename key, in order; none at all when no storage has one. */
  lemma FileNamesFrom(ds: seq<StorageValue>)
    ensures FileNames(ds) == [] <==> forall i :: 0 <= i < |ds| ==> !Dicts.HasKey(ds[i].meta, "filename")
    ensures forall n :: n in FileNames(ds) ==>
              exists i :: 0 <= i < |ds| && Dicts.HasKey(ds[i].meta, "filename")
                          && n == StrOf(GetOr(ds[i].meta, "filename", PyStr("")))
  {
    FileNamesNone(ds);
    FileNamesOrigin(ds);
  }

  lemma {:induction false} FileNamesNone(ds: seq<StorageValue>)
    ensures FileNames(ds) == [] <==> forall i :: 0 <= i < |ds| ==> !Dicts.HasKey(ds[i].meta, "filename")
  {
    if ds != [] {
      var k := |ds| - 1;
      var front := ds[..k];
      FileNamesNone(front);
      var last := if Dicts.HasKey(ds[k].meta, "filename") then [StrOf(GetOr(ds[k].meta, "filename", PyStr("")))] else [];
      assert FileNames(ds) == FileNames(front) + last;
      if forall i :: 0 <= i < |ds| ==> !Dicts.HasKey(ds[i].meta, "filename") {
        assert forall i :: 0 <= i < k ==> !Dicts.HasKey(front[i].meta, "filename");
      } else {
        var i :| 0 <= i < |ds| && Dicts.HasKey(ds[i].meta, "filename");
        if i < k {
          assert Dicts.HasKey(front[i].meta, "filename");
        }
      }
    }
  }

  lemma {:induction false} FileNamesOrigin(ds: seq<StorageValue>)
    ensures forall n :: n in FileNames(ds) ==>
              exists i :: 0 <= i < |ds| && Dicts.HasKey(ds[i].meta, "filename")
                          && n == StrOf(GetOr(ds[i].meta, "filename", PyStr("")))
  {
    if ds != [] {
      var k := |ds| - 1;
      var front := ds[..k];
      FileNamesOrigin(front);
      forall n | n in FileNames(ds)
        ensures exists i :: 0 <= i < |ds| && Dicts.HasKey(ds[i].meta, "filename")
                            && n == StrOf(GetOr(ds[i].meta, "filename", PyStr("")))
      {
        if n in FileNames(front) {
          var i :| 0 <= i < k && Dicts.HasKey(front[i].meta, "filename")
                   && n == StrOf(GetOr(front[i].meta, "filename", PyStr("")));
          assert front[i] == ds[i];
        } else {
          assert Dicts.HasKey(ds[k].meta, "filename");
        }
      }
    }
  }

  /** _write_mwv_segment_files: the MWV_SEGMENT_FILES line, written only when some storage has a filename. */
  function FilesLines(ds: seq<StorageValue>): seq<Piece>
  {
    var names := FileNames(ds);
    if names == [] then [] else [Line("MWV_SEGMENT_FILES", Join(names, ","))]
  }

  // ----- the MWV file -----

  /** The meta of the combined storage: defaults, then the first storage's meta, then type SMU-MWV. */
  function MwvMeta(first: StorageValue): Dicts.Items<Value>
  {
    Dicts.Set(Dicts.UpdateAll(CombinedDefaults, first.meta), "type", PyStr("SMU-MWV"))
  }

  /** A fixed MWV_SEGMENT_*_MODE line. */
  function ModeStep(name: string): Step
  {
    Ok([Line(name, "UNCHANGED")])
  }

  /** The tags of _write_mwv before the waveform, given the starts and the clock lines. */
  function MwvTagsWith(ds: seq<StorageValue>, timestamp: ValidDateTime, emptyCount: nat,
                       starts: seq<int>, clock: Step): seq<Step>
    requires |ds| >= 1
  {
    var meta := MwvMeta(ds[0]);
    [TypeStep(meta), CopyrightStep(meta), DateStep(timestamp), SamplesStep(|Stacked(ds)|), ReflevelStep(meta),
     Ok([Line("MWV_SEGMENT_COUNT", IntText(|ds|))]),
     Ok([Line("MWV_SEGMENT_LENGTH", IntsText(Lengths(ds)))]),
     Ok([Line("MWV_SEGMENT_START", IntsText(starts))]),
     ModeStep("MWV_SEGMENT_CLOCK_MODE"), ModeStep("MWV_SEGMENT_LEVEL_MODE"),
     clock,
     Ok([Line("MWV_SEGMENT_LEVEL_OFFS", Join(LevelFields(ds), ","))]),
     Ok(CommentLines(ds)), Ok(FilesLines(ds)),
     EmptyStep(emptyCount)]
  }

  function MwvTags(ds: seq<StorageValue>, timestamp: ValidDateTime, emptyCount: nat): seq<Step>
    requires |ds| >= 1
  {
    MwvTagsWith(ds, timestamp, emptyCount, Starts(ds), ClockLines(MaxClock(ds), ds))
  }

  /**
   * What _write_mwv writes and the exception that stopped it: with no
   * storage, reading the first one raises IndexError before anything is
   * written; otherwise the tags, then the block's waveform with the flag
   * read from "encryption".
   */
  function MwvFile(ds: seq<StorageValue>, timestamp: ValidDateTime, scale: real, round: real -> int, emptyCount: nat)
    : (seq<Piece>, Option<Error>)
  {
    if ds == [] then ([], Some(IndexError))
    else Run(MwvTags(ds, timestamp, emptyCount)
             + [WaveformStep(MwvMeta(ds[0]), "encryption", Prepared(Stacked(ds), scale, round))])
  }

  method WriteMwv(fp: Sink, ds: seq<StorageValue>, timestamp: ValidDateTime, scale: real, round: real -> int,
                  emptyCount: nat) returns (r: Result<()>)
    modifies fp
    ensures r == Outcome(MwvFile(ds, timestamp, scale, round, emptyCount))
    ensures fp.bytes == old(fp.bytes) + Render(MwvFile(ds, timestamp, scale, round, emptyCount).0)
  {
    if |ds| == 0 {
      r := Err(IndexError);
      return;
    }
    var block := StackSegments(ds);
    var words := PrepareData(block, scale, round);
    var starts := SegmentStarts(ds);
    var maxClock := MwvClock(ds);
    var tags := MwvTagsWith(ds, timestamp, emptyCount, starts, ClockLines(maxClock, ds));
    r := WriteTagsThenWaveform(fp, tags, MwvMeta(ds[0]), "encryption", words);
  }

  // ----- save -----

  /** save: one storage takes the single-segment path, any other count the MWV path. */
  function SaveFile(ds: seq<StorageValue>, timestamp: ValidDateTime, scale: real, round: real -> int,
                    peakOf: seq<Complex> -> Db, rmsOf: seq<Complex> -> Db, emptyCount: nat)
    : (seq<Piece>, Option<Error>)
  {
    if |ds| == 1 then SingleFile(ds[0], timestamp, scale, round, peakOf, rmsOf, emptyCount)
    else MwvFile(ds, timestamp, scale, round, emptyCount)
  }

  method Save(fp: Sink, datas: ParentStorage, scale: real, round: real -> int,
              peakOf: seq<Complex> -> Db, rmsOf: seq<Complex> -> Db, emptyCount: nat) returns (r: Result<()>)
    modifies fp
    ensures r == Outcome(SaveFile(old(datas.Snapshot()).storages, datas.timestamp, scale, round, peakOf, rmsOf, emptyCount))
    ensures fp.bytes == old(fp.bytes)
                        + Render(SaveFile(old(datas.Snapshot()).storages, datas.timestamp, scale, round, peakOf, rmsOf, emptyCount).0)
  {
    var snap := datas.Snapshot();
    r := SaveStorages(fp, snap.storages, datas.timestamp, scale, round, peakOf, rmsOf, emptyCount);
  }

  /** The dispatch of save on the storages' values. */
  method SaveStorages(fp: Sink, ds: seq<StorageValue>, timestamp: ValidDateTime, scale: real, round: real -> int,
                      peakOf: seq<Complex> -> Db, rmsOf: seq<Complex> -> Db, emptyCount: nat) returns (r: Result<()>)
    modifies fp
    ensures r == Outcome(SaveFile(ds, timestamp, scale, round, peakOf, rmsOf, emptyCount))
    ensures fp.bytes == old(fp.bytes) + Render(SaveFile(ds, timestamp, scale, round, peakOf, rmsOf, emptyCount).0)
  {
    if |ds| == 1 {
      r := WriteSingle(fp, ds[0], timestamp, scale, round, peakOf, rmsOf, emptyCount);
    } else {
      r := WriteMwv(fp, ds, timestamp, scale, round, emptyCount);
    }
  }

  // ----- what the MWV file says -----

  lemma CombinedDefaultsDistinct()
    ensures Dicts.DistinctKeys(CombinedDefaults)
    ensures !Dicts.HasKey(CombinedDefaults, "encryption")
  {
  }

  /** The combined meta reads "type" as SMU-MWV, and any key but "type" as the first storage's meta over the defaults. */
  lemma MwvMetaGet(first: StorageValue, key: string)
    requires Dicts.DistinctKeys(first.meta)
    ensures Dicts.Get(MwvMeta(first), key)
         == if key == "type" then Some(PyStr("SMU-MWV"))
            else if Dicts.HasKey(first.meta, key) then Dicts.Get(first.meta, key)
            else Dicts.Get(CombinedDefaults, key)
  {
    CombinedDefaultsDistinct();
    Dicts.GetUpdateAll(CombinedDefaults, first.meta, key);
    Dicts.GetSet(Dicts.UpdateAll(CombinedDefaults, first.meta), "type", PyStr("SMU-MWV"), key);
  }

  /** _write_mwv forces the type: the first tag of an MWV file is TYPE SMU-MWV, whatever the storages' types. */
  lemma MwvTypeForced(ds: seq<StorageValue>, timestamp: ValidDateTime, scale: real, round: real -> int, emptyCount: nat)
    requires |ds| >= 1 && Dicts.DistinctKeys(ds[0].meta)
    ensures |MwvFile(ds, timestamp, scale, round, emptyCount).0| >= 1
    ensures MwvFile(ds, timestamp, scale, round, emptyCount).0[0] == Line("TYPE", "SMU-MWV")
  {
    var meta := MwvMeta(ds[0]);
    MwvMetaGet(ds[0], "type");
    assert GetOr(meta, "type", DefaultType) == PyStr("SMU-MWV");
    var tags := MwvTags(ds, timestamp, emptyCount);
    assert tags[0] == TypeStep(meta);
    var steps := tags + [WaveformStep(meta, "encryption", Prepared(Stacked(ds), scale, round))];
    assert steps[0] == Ok([Line("TYPE", "SMU-MWV")]);
  }

  /**
   * The two paths read the encryption flag from different keys: a storage
   * whose meta sets "encryption_flag" but not "encryption" is written as
   * WWAVEFORM alone and as a plain WAVEFORM at the head of an MWV file.
   */
  lemma EncryptionKeys(first: StorageValue, words: seq<Int16>)
    requires Dicts.DistinctKeys(first.meta)
    requires Dicts.Get(first.meta, "encryption_flag") == Some(PyBool(true))
    requires !Dicts.HasKey(first.meta, "encryption")
    ensures WaveformStep(first.meta, "encryption_flag", words) == Ok([Binary(WaveformSection(true), ToBytes(words))])
    ensures WaveformStep(MwvMeta(first), "encryption", words) == Ok([Binary(WaveformSection(false), ToBytes(words))])
  {
    MwvMetaGet(first, "encryption");
    CombinedDefaultsDistinct();
    assert GetOr(MwvMeta(first), "encryption", PyBool(false)) == PyBool(false);
  }
}
