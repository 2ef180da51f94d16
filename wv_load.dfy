/**
 * Loading a WV file: the header tags, the waveform section and the control
 * list are read from the content, the samples are decoded and cut into the
 * segments of a multi-segment file, and every segment receives the meta
 * extracted for its index. The three entry points are `load` (whole file),
 * `load_in_chunks` (a window of samples of a single-segment file) and
 * `load_meta` (the header alone).
 *
 * The header's `{NAME:value}` records are an input (the regex matches of the
 * content); the waveform bytes are kept beside the tag dictionary, since the
 * source adds them to it and pops them again before the meta is built.
 */
module WvLoad {
  import opened Wrappers
  import opened Text
  import opened Dates
  import opened Values
  import Dicts
  import opened Sequences
  import opened Metadata
  import opened Storages
  import opened ArrayToBytes
  import opened WvBinary
  import opened WvSamples
  import opened WvHeader
  import opened WvMeta
  import WvComments

  /** One segment as the loader fills it: its samples and the arguments of its Meta. */
  datatype Segment = Segment(data: seq<Complex>, noDefaults: bool, kwargs: Dicts.Items<Value>)

  /** What `load` produces: the segments, and whether the sample-count warning is logged. */
  datatype Loaded = Loaded(segments: seq<Segment>, warned: bool)

  // ----- dictionary steps -----

  /** tags[key]: KeyError when absent. */
  function Lookup(tags: Dicts.Items<Value>, key: string): (r: Result<Value>)
    ensures r.Ok? <==> Dicts.HasKey(tags, key)
    ensures r.Err? ==> r.error == KeyError(key)
  {
    match Dicts.Get(tags, key)
    case None => Err(KeyError(key))
    case Some(v) => Ok(v)
  }

  /** int(tags.pop(key, default)): the integer and the tags without the key. */
  function PopInt(tags: Dicts.Items<Value>, key: string, default: int): Result<(int, Dicts.Items<Value>)>
  {
    match Dicts.Get(tags, key)
    case None => Ok((default, tags))
    case Some(v) =>
      var n :- ToInt(v);
      Ok((n, Dicts.Remove(tags, key)))
  }

  /** Meta(**kwargs): a "no_defaults" entry binds the parameter, the rest are the keyword arguments. */
  function MetaCall(kwargs: Dicts.Items<Value>): Result<(bool, Dicts.Items<Value>)>
  {
    match Dicts.Get(kwargs, "no_defaults")
    case None => Ok((false, kwargs))
    case Some(v) =>
      var b :- Truthy(v);
      Ok((b, Dicts.Remove(kwargs, "no_defaults")))
  }

  lemma MetaCallArgs(kwargs: Dicts.Items<Value>)
    requires Dicts.DistinctKeys(kwargs) && MetaCall(kwargs).Ok?
    ensures Dicts.DistinctKeys(MetaCall(kwargs).value.1) && !Dicts.HasKey(MetaCall(kwargs).value.1, "no_defaults")
    ensures !Dicts.HasKey(kwargs, "no_defaults") ==> MetaCall(kwargs).value == (false, kwargs)
  {
    if Dicts.HasKey(kwargs, "no_defaults") {
      Dicts.RemoveKeys(kwargs, "no_defaults");
    }
  }

  /** _split_data_via_tags_control_list_width4: the unpacked control list, when the section has bytes. */
  function WithControlList(tags: Dicts.Items<Value>, list: Option<seq<Byte>>, samples: int): Dicts.Items<Value>
  {
    if list.Some? && list.value != [] then Dicts.Set(tags, "control_list", PyArray(Unpack(list.value, samples)))
    else tags
  }

  const ControlListTag: seq<Byte> := Ascii("CONTROL LIST WIDTH4")

  /** [int(length) for length in value.split(",")]. */
  function ParseLengths(parts: seq<string>): (r: Result<seq<int>>)
    ensures r.Ok? ==> |r.value| == |parts|
    decreases |parts|
  {
    if parts == [] then Ok([])
    else
      var n :- Int(parts[0]);
      var rest :- ParseLengths(parts[1..]);
      Ok([n] + rest)
  }

  // ----- segment slicing -----

  function Sum(s: seq<int>): int
  {
    if s == [] then 0 else Sum(s[..|s| - 1]) + s[|s| - 1]
  }

  /** sum(segment_lengths[0:index]): where segment `index` starts. */
  function Start(lengths: seq<int>, index: nat): int
    requires index <= |lengths|
  {
    Sum(lengths[..index])
  }

  /** The samples of segment `index`: iq[start:start + lengths[index]], or IndexError past the list. */
  function SegmentData(iq: seq<Complex>, lengths: seq<int>, index: nat): (r: Result<seq<Complex>>)
    ensures r.Err? <==> index >= |lengths|
  {
    if index >= |lengths| then Err(IndexError)
    else
      var start := Start(lengths, index);
      Ok(Slice(iq, start, lengths[index] + start))
  }

  /** The next segment starts where the previous one ends. */
  lemma StartStep(lengths: seq<int>, index: nat)
    requires index < |lengths|
    ensures Start(lengths, index + 1) == Start(lengths, index) + lengths[index]
  {
    assert lengths[..index + 1][..index] == lengths[..index];
  }

  /** With lengths that are not negative the starts grow. */
  lemma {:induction false} StartMono(lengths: seq<int>, i: nat, j: nat)
    requires i <= j <= |lengths|
    requires forall k :: 0 <= k < |lengths| ==> lengths[k] >= 0
    ensures Start(lengths, i) <= Start(lengths, j)
    decreases j - i
  {
    if i < j {
      StartStep(lengths, i);
      StartMono(lengths, i + 1, j);
    }
  }

  /** The first segment starts at 0, and none starts before it. */
  lemma StartNonNeg(lengths: seq<int>, j: nat)
    requires j <= |lengths|
    requires forall k :: 0 <= k < |lengths| ==> lengths[k] >= 0
    ensures 0 <= Start(lengths, j)
  {
    assert lengths[..0] == [];
    StartMono(lengths, 0, j);
  }

  /**
   * When the lengths are not negative and fit the samples, segment `index`
   * is exactly the samples from its start to its start plus its length.
   */
  lemma SegmentExact(iq: seq<Complex>, lengths: seq<int>, index: nat)
    requires index < |lengths|
    requires forall k :: 0 <= k < |lengths| ==> lengths[k] >= 0
    requires Start(lengths, |lengths|) <= |iq|
    ensures 0 <= Start(lengths, index) <= Start(lengths, index) + lengths[index] <= |iq|
    ensures SegmentData(iq, lengths, index) == Ok(iq[Start(lengths, index)..Start(lengths, index) + lengths[index]])
  {
    StartNonNeg(lengths, index);
    StartStep(lengths, index);
    StartMono(lengths, index + 1, |lengths|);
  }

  /** The samples of the first n segments laid end to end. */
  function Concat(iq: seq<Complex>, lengths: seq<int>, n: nat): seq<Complex>
    requires n <= |lengths|
  {
    if n == 0 then []
    else Concat(iq, lengths, n - 1) + SegmentData(iq, lengths, n - 1).value
  }

  /**
   * Segment slicing: when the lengths are not negative and fit the samples,
   * the first n segments laid end to end are the first Σ lengths[..n]
   * samples, so the segments are contiguous, disjoint and in order.
   */
  lemma {:induction false} SegmentsTile(iq: seq<Complex>, lengths: seq<int>, n: nat)
    requires n <= |lengths|
    requires forall k :: 0 <= k < |lengths| ==> lengths[k] >= 0
    requires Start(lengths, |lengths|) <= |iq|
    ensures 0 <= Start(lengths, n) <= |iq|
    ensures Concat(iq, lengths, n) == iq[..Start(lengths, n)]
    decreases n
  {
    assert 0 <= Start(lengths, n) <= |iq| by {
      StartNonNeg(lengths, n);
      StartMono(lengths, n, |lengths|);
    }
    if n == 0 {
      assert lengths[..0] == [];
    } else {
      var a := Start(lengths, n - 1);
      var b := Start(lengths, n);
      assert 0 <= a <= b <= |iq| && Concat(iq, lengths, n - 1) == iq[..a]
        && SegmentData(iq, lengths, n - 1).value == iq[a..b] by {
        SegmentsTile(iq, lengths, n - 1);
        SegmentExact(iq, lengths, n - 1);
        StartStep(lengths, n - 1);
      }
      assert iq[..a] + iq[a..b] == iq[..b];
    }
  }

  // ----- load -----

  /** The Meta arguments of segment `index`: _extract_meta, _handle_mwv_meta_data, then the no_defaults keyword. */
  function SegmentArgs(tags: Dicts.Items<Value>, index: nat): Result<(bool, Dicts.Items<Value>)>
  {
    var m :- ExtractMeta(tags, index);
    var h :- HandleMwvMetaData(m, index);
    MetaCall(h)
  }

  /** The Meta arguments of every segment, as `load` computes them from the tags. */
  function ArgsOf(tags: Dicts.Items<Value>): nat -> Result<(bool, Dicts.Items<Value>)>
  {
    (index: nat) => SegmentArgs(tags, index)
  }

  /** One pass of the loop in `load`: the samples and the Meta arguments of segment `index`. */
  function SegmentAt(iq: seq<Complex>, lengths: seq<int>, args: nat -> Result<(bool, Dicts.Items<Value>)>, index: nat): Result<Segment>
  {
    var data :- SegmentData(iq, lengths, index);
    var call :- args(index);
    Ok(Segment(data, call.0, call.1))
  }

  /** The per-segment part of `load`, from segment `index` up to the count. */
  function Segments(iq: seq<Complex>, lengths: seq<int>, args: nat -> Result<(bool, Dicts.Items<Value>)>, count: int, index: nat)
    : Result<seq<Segment>>
    decreases if count < index then 0 else count - index
  {
    if index >= count then Ok([])
    else
      var s :- SegmentAt(iq, lengths, args, index);
      var rest :- Segments(iq, lengths, args, count, index + 1);
      Ok([s] + rest)
  }

  lemma SegmentAtData(iq: seq<Complex>, lengths: seq<int>, args: nat -> Result<(bool, Dicts.Items<Value>)>, index: nat)
    requires SegmentAt(iq, lengths, args, index).Ok?
    ensures SegmentData(iq, lengths, index).Ok?
    ensures SegmentAt(iq, lengths, args, index).value.data == SegmentData(iq, lengths, index).value
  {
  }

  /** A segment's keyword arguments are distinct and free of "no_defaults". */
  lemma SegmentArgsKeys(tags: Dicts.Items<Value>, index: nat)
    requires Dicts.DistinctKeys(tags)
    requires SegmentArgs(tags, index).Ok?
    ensures Dicts.DistinctKeys(SegmentArgs(tags, index).value.1)
    ensures !Dicts.HasKey(SegmentArgs(tags, index).value.1, "no_defaults")
  {
    var m := ExtractMeta(tags, index).value;
    ExtractMetaContents(tags, index, "type");
    HandleMwvGet(m, index, "type");
    MetaCallArgs(HandleMwvMetaData(m, index).value);
  }

  /** The Meta arguments of one segment, with `_extract_meta` run as its loop. */
  method BuildArgs(tags: Dicts.Items<Value>, index: nat) returns (r: Result<(bool, Dicts.Items<Value>)>)
    ensures r == SegmentArgs(tags, index)
  {
    var meta := ExtractMetaItems(tags, index);
    if meta.Err? {
      return Err(meta.error);
    }
    var handled := HandleMwvMetaData(meta.value, index);
    if handled.Err? {
      return Err(handled.error);
    }
    r := MetaCall(handled.value);
  }

  /** The loop body of `load` up to the Meta call, with `_extract_meta` run as its loop. */
  method BuildSegment(iq: seq<Complex>, lengths: seq<int>, tags: Dicts.Items<Value>, index: nat) returns (r: Result<Segment>)
    ensures r == SegmentAt(iq, lengths, ArgsOf(tags), index)
    ensures r.Ok? ==> SegmentArgs(tags, index) == Ok((r.value.noDefaults, r.value.kwargs))
  {
    var data := SegmentData(iq, lengths, index);
    if data.Err? {
      return Err(data.error);
    }
    var call := BuildArgs(tags, index);
    if call.Err? {
      return Err(call.error);
    }
    r := Ok(Segment(data.value, call.value.0, call.value.1));
  }

  /** The tags `load` holds before the samples are decoded: samples, count, lengths, tags, waveform. */
  datatype Header = Header(samples: int, count: int, lengths: seq<int>, tags: Dicts.Items<Value>, waveform: seq<Byte>)

  /**
   * The first half of `load`'s header: SAMPLES, the popped segment count,
   * the waveform section with its encryption flag, and the control list.
   */
  function HeaderTags(records: seq<Record>, content: seq<Byte>): Result<(int, int, seq<Byte>, Dicts.Items<Value>)>
  {
    var tags0 := Scan(records);
    var samplesValue :- Lookup(tags0, "samples");
    var samples :- ToInt(samplesValue);
    var popped :- PopInt(tags0, "mwv_segment_count", 1);
    var wave :- ExtractWaveform(content, false);
    var tags1 := Dicts.Set(popped.1, "encryption_flag", PyBool(wave.1));
    var list :- ExtractBinaryTag(content, ControlListTag, false);
    Ok((samples, popped.0, wave.0, WithControlList(tags1, list, samples)))
  }

  /** The multi-segment branch: the popped segment lengths and the tags with the segment comments. */
  function MultiSegment(count: int, tags: Dicts.Items<Value>, content: seq<Byte>): Result<(seq<int>, Dicts.Items<Value>)>
  {
    var lengthValue :- Lookup(tags, "mwv_segment_length");
    var text :- AsText(lengthValue);
    var tags' := WvComments.ExtractMwvComments(count, Dicts.Remove(tags, "mwv_segment_length"), content);
    var lengths :- ParseLengths(Split(text, ','));
    Ok((lengths, tags'))
  }

  function LoadHeader(records: seq<Record>, content: seq<Byte>): Result<Header>
  {
    var t :- HeaderTags(records, content);
    if t.1 > 1 then
      var m :- MultiSegment(t.1, t.3, content);
      Ok(Header(t.0, t.1, m.0, m.1, t.2))
    else
      Ok(Header(t.0, t.1, [t.0], t.3, t.2))
  }

  /** Load.load on the header records and the content of a file, the samples scaled by `fix`. */
  function LoadFile(records: seq<Record>, content: seq<Byte>, fix: Int16 -> real): Result<Loaded>
  {
    var h :- LoadHeader(records, content);
    LoadParsed(h, fix)
  }

  /** The waveform and segments read once the header is parsed. */
  function LoadParsed(h: Header, fix: Int16 -> real): Result<Loaded>
  {
    var iq :- ExtractIq(h.waveform, 0, 0, fix);
    var segments :- Segments(iq, h.lengths, ArgsOf(h.tags), h.count, 0);
    Ok(Loaded(segments, h.samples != |iq|))
  }

  lemma PopIntDistinct(tags: Dicts.Items<Value>, key: string, default: int)
    requires Dicts.DistinctKeys(tags) && PopInt(tags, key, default).Ok?
    ensures Dicts.DistinctKeys(PopInt(tags, key, default).value.1)
    ensures !Dicts.HasKey(PopInt(tags, key, default).value.1, key)
  {
    if Dicts.HasKey(tags, key) {
      Dicts.RemoveKeys(tags, key);
    }
  }

  lemma WithControlListDistinct(tags: Dicts.Items<Value>, list: Option<seq<Byte>>, samples: int)
    requires Dicts.DistinctKeys(tags)
    ensures Dicts.DistinctKeys(WithControlList(tags, list, samples))
  {
    if list.Some? && list.value != [] {
      Dicts.SetKeys(tags, "control_list", PyArray(Unpack(list.value, samples)));
    }
  }

  lemma HeaderTagsDistinct(records: seq<Record>, content: seq<Byte>)
    requires HeaderTags(records, content).Ok?
    ensures Dicts.DistinctKeys(HeaderTags(records, content).value.3)
  {
    var tags0 := Scan(records);
    ScanKeys(records);
    PopIntDistinct(tags0, "mwv_segment_count", 1);
    var popped := PopInt(tags0, "mwv_segment_count", 1).value;
    var wave := ExtractWaveform(content, false).value;
    Dicts.SetKeys(popped.1, "encryption_flag", PyBool(wave.1));
    var tags1 := Dicts.Set(popped.1, "encryption_flag", PyBool(wave.1));
    var list := ExtractBinaryTag(content, ControlListTag, false).value;
    var samples := ToInt(Lookup(tags0, "samples").value).value;
    WithControlListDistinct(tags1, list, samples);
  }

  lemma MultiSegmentDistinct(count: int, tags: Dicts.Items<Value>, content: seq<Byte>)
    requires Dicts.DistinctKeys(tags) && MultiSegment(count, tags, content).Ok?
    ensures Dicts.DistinctKeys(MultiSegment(count, tags, content).value.1)
  {
    Dicts.RemoveKeys(tags, "mwv_segment_length");
    WvComments.CommentKeys(count, Dicts.Remove(tags, "mwv_segment_length"), content);
  }

  /** The tag dictionary `load` builds has distinct keys. */
  lemma LoadHeaderDistinct(records: seq<Record>, content: seq<Byte>)
    requires LoadHeader(records, content).Ok?
    ensures Dicts.DistinctKeys(LoadHeader(records, content).value.tags)
  {
    HeaderTagsDistinct(records, content);
    var t := HeaderTags(records, content).value;
    if t.1 > 1 {
      MultiSegmentDistinct(t.1, t.3, content);
    }
  }

  /** A single-segment file (no MWV_SEGMENT_COUNT above 1) has the one length SAMPLES. */
  lemma SingleSegmentUsesSamples(records: seq<Record>, content: seq<Byte>)
    requires LoadHeader(records, content).Ok? && LoadHeader(records, content).value.count <= 1
    ensures LoadHeader(records, content).value.lengths == [LoadHeader(records, content).value.samples]
  {
  }

  /** `load` gives one segment per count, none for a count below 1. */
  lemma {:induction false} SegmentsCount(iq: seq<Complex>, lengths: seq<int>, args: nat -> Result<(bool, Dicts.Items<Value>)>, count: int, index: nat)
    requires Segments(iq, lengths, args, count, index).Ok?
    ensures |Segments(iq, lengths, args, count, index).value| == if index >= count then 0 else count - index
    decreases if count < index then 0 else count - index
  {
    if index < count {
      SegmentsCount(iq, lengths, args, count, index + 1);
    }
  }

  /** The segments from `index` on are segment `index` followed by those after it. */
  lemma SegmentsCons(iq: seq<Complex>, lengths: seq<int>, args: nat -> Result<(bool, Dicts.Items<Value>)>, count: int, index: nat, all: seq<Segment>)
    requires Segments(iq, lengths, args, count, index) == Ok(all) && all != []
    ensures SegmentAt(iq, lengths, args, index) == Ok(all[0])
    ensures Segments(iq, lengths, args, count, index + 1) == Ok(all[1..])
  {
    assert index < count;
    var rest := Segments(iq, lengths, args, count, index + 1);
    assert all == [SegmentAt(iq, lengths, args, index).value] + rest.value;
  }

  /** The segments after the first are the rest of the list. */
  lemma SegmentsNext(iq: seq<Complex>, lengths: seq<int>, args: nat -> Result<(bool, Dicts.Items<Value>)>, count: int, index: nat, all: seq<Segment>)
    requires Segments(iq, lengths, args, count, index) == Ok(all) && all != []
    ensures Segments(iq, lengths, args, count, index + 1) == Ok(all[1..])
    ensures SegmentData(iq, lengths, index).Ok? && all[0].data == SegmentData(iq, lengths, index).value
  {
    SegmentsCons(iq, lengths, args, count, index, all);
    SegmentAtData(iq, lengths, args, index);
  }

  lemma SegmentsHead(iq: seq<Complex>, lengths: seq<int>, args: nat -> Result<(bool, Dicts.Items<Value>)>, count: int, index: nat, all: seq<Segment>)
    requires Segments(iq, lengths, args, count, index) == Ok(all) && all != []
    ensures SegmentData(iq, lengths, index).Ok? && all[0].data == SegmentData(iq, lengths, index).value
  {
    SegmentsNext(iq, lengths, args, count, index, all);
  }

  /** Dropping j segments from those made from `index` on gives those made from index + j on. */
  lemma {:induction false} SegmentsDrop(iq: seq<Complex>, lengths: seq<int>, args: nat -> Result<(bool, Dicts.Items<Value>)>, count: int, index: nat,
                                        all: seq<Segment>, j: nat)
    requires Segments(iq, lengths, args, count, index) == Ok(all) && j <= |all|
    ensures Segments(iq, lengths, args, count, index + j) == Ok(all[j..])
    decreases j
  {
    if j > 0 {
      var rest := all[1..];
      assert Segments(iq, lengths, args, count, index + 1) == Ok(rest) by {
        SegmentsNext(iq, lengths, args, count, index, all);
      }
      SegmentsDrop(iq, lengths, args, count, index + 1, rest, j - 1);
      assert rest[j - 1..] == all[j..];
    }
  }

  /** Among the segments `load` makes from `index` on, segment k holds the slice of segment k. */
  lemma SegmentsNth(iq: seq<Complex>, lengths: seq<int>, args: nat -> Result<(bool, Dicts.Items<Value>)>, count: int, index: nat,
                    all: seq<Segment>, k: nat)
    requires Segments(iq, lengths, args, count, index) == Ok(all)
    requires index <= k < index + |all|
    ensures SegmentData(iq, lengths, k).Ok? && all[k - index].data == SegmentData(iq, lengths, k).value
  {
    var j := k - index;
    var tail := all[j..];
    SegmentsDrop(iq, lengths, args, count, index, all, j);
    assert index + j == k;
    SegmentsHead(iq, lengths, args, count, k, tail);
    assert tail[0] == all[j];
  }

  /**
   * A sample count that differs from SAMPLES does not stop `load`: it only
   * logs the warning.
   */
  lemma LoadOnlyWarns(records: seq<Record>, content: seq<Byte>, fix: Int16 -> real)
    requires LoadHeader(records, content).Ok?
    requires ExtractIq(LoadHeader(records, content).value.waveform, 0, 0, fix).Ok?
    requires Segments(ExtractIq(LoadHeader(records, content).value.waveform, 0, 0, fix).value,
                      LoadHeader(records, content).value.lengths, ArgsOf(LoadHeader(records, content).value.tags),
                      LoadHeader(records, content).value.count, 0).Ok?
    ensures LoadFile(records, content, fix).Ok?
    ensures LoadFile(records, content, fix).value.warned <==>
      LoadHeader(records, content).value.samples != |ExtractIq(LoadHeader(records, content).value.waveform, 0, 0, fix).value|
  {
  }

  /** What `load` leaves in one storage: the segment's samples, and a Meta built from its arguments. */
  predicate HoldsOne(st: Storage, segment: Segment)
    reads st, st.meta
  {
    st.data == segment.data
    && st.meta.kind == Combined
    && st.meta.items == InitialItems(Combined, segment.noDefaults, segment.kwargs)
  }

  /** The first n storages hold the first n segments. */
  predicate Holds(ss: seq<Storage>, segments: seq<Segment>, n: nat)
    reads ss, set s | s in ss :: s.meta
    requires n <= |ss| && n <= |segments|
  {
    forall i :: 0 <= i < n ==> HoldsOne(ss[i], segments[i])
  }

  /** The result of the segments before `done` once the remaining ones are known. */
  function Prefixed(done: seq<Segment>, rest: Result<seq<Segment>>): Result<seq<Segment>>
  {
    match rest
    case Ok(s) => Ok(done + s)
    case Err(e) => Err(e)
  }

  lemma PrefixedAppend(done: seq<Segment>, s: Segment, rest: Result<seq<Segment>>)
    ensures Prefixed(done + [s], rest) == Prefixed(done, Prefixed([s], rest))
  {
    if rest.Ok? {
      assert done + [s] + rest.value == done + ([s] + rest.value);
    }
  }

  /** One step of the segments: segment `index`, then the rest, or the first error. */
  lemma SegmentsUnfold(iq: seq<Complex>, lengths: seq<int>, args: nat -> Result<(bool, Dicts.Items<Value>)>, count: int, index: nat)
    requires index < count
    ensures SegmentAt(iq, lengths, args, index).Err? ==>
      Segments(iq, lengths, args, count, index) == Err(SegmentAt(iq, lengths, args, index).error)
    ensures SegmentAt(iq, lengths, args, index).Ok? ==>
      Segments(iq, lengths, args, count, index) == Prefixed([SegmentAt(iq, lengths, args, index).value], Segments(iq, lengths, args, count, index + 1))
  {
  }

  /** The segments after `done`: the next one raises, or it joins `done`. */
  lemma SegmentsStep(iq: seq<Complex>, lengths: seq<int>, args: nat -> Result<(bool, Dicts.Items<Value>)>, count: int, index: nat,
                     done: seq<Segment>, all: Result<seq<Segment>>)
    requires index < count && all == Prefixed(done, Segments(iq, lengths, args, count, index))
    ensures SegmentAt(iq, lengths, args, index).Err? ==> all == Err(SegmentAt(iq, lengths, args, index).error)
    ensures SegmentAt(iq, lengths, args, index).Ok? ==>
      all == Prefixed(done + [SegmentAt(iq, lengths, args, index).value], Segments(iq, lengths, args, count, index + 1))
  {
    SegmentsUnfold(iq, lengths, args, count, index);
    if SegmentAt(iq, lengths, args, index).Ok? {
      PrefixedAppend(done, SegmentAt(iq, lengths, args, index).value, Segments(iq, lengths, args, count, index + 1));
    }
  }

  /** storages[index].data and .meta as the loop of `load` assigns them. */
  method Fill(storage: Storage, s: Segment)
    requires Dicts.DistinctKeys(s.kwargs) && !Dicts.HasKey(s.kwargs, "no_defaults")
    modifies storage
    ensures storage.data == s.data && fresh(storage.meta)
    ensures storage.meta.kind == Combined && storage.meta.items == InitialItems(Combined, s.noDefaults, s.kwargs)
  {
    storage.data := s.data;
    storage.meta := new Meta(Combined, s.noDefaults, s.kwargs);
  }

  /** One pass of the loop of `load`: storage `index` receives the segment, the ones before keep theirs. */
  method FillNext(storages: seq<Storage>, index: nat, s: Segment, ghost done: seq<Segment>)
    requires index < |storages| && |done| == index && Holds(storages, done, index)
    requires forall i, j :: 0 <= i < j < |storages| ==> storages[i] != storages[j]
    requires Dicts.DistinctKeys(s.kwargs) && !Dicts.HasKey(s.kwargs, "no_defaults")
    modifies storages[index]
    ensures Holds(storages, done + [s], index + 1)
  {
    Fill(storages[index], s);
    forall i | 0 <= i < index + 1
      ensures HoldsOne(storages[i], (done + [s])[i])
    {
      if i < index {
        assert storages[i] != storages[index];
        assert (done + [s])[i] == done[i];
      }
    }
  }

  /** One pass of the loop of `load`: segment `index` is built and stored, or its error stops the loop. */
  method FillAt(iq: seq<Complex>, lengths: seq<int>, tags: Dicts.Items<Value>, count: int, storages: seq<Storage>,
                index: nat, ghost done: seq<Segment>, ghost all: Result<seq<Segment>>)
    returns (r: Result<()>, ghost done': seq<Segment>)
    requires Dicts.DistinctKeys(tags)
    requires index < |storages| && index < count
    requires forall i, j :: 0 <= i < j < |storages| ==> storages[i] != storages[j]
    requires |done| == index && Holds(storages, done, index)
    requires all == Prefixed(done, Segments(iq, lengths, ArgsOf(tags), count, index))
    modifies storages[index]
    ensures r.Err? ==> all == Err(r.error)
    ensures r.Ok? ==> |done'| == index + 1 && Holds(storages, done', index + 1)
    ensures r.Ok? ==> all == Prefixed(done', Segments(iq, lengths, ArgsOf(tags), count, index + 1))
  {
    var segment := BuildSegment(iq, lengths, tags, index);
    SegmentsStep(iq, lengths, ArgsOf(tags), count, index, done, all);
    if segment.Err? {
      return Err(segment.error), done;
    }
    var s := segment.value;
    assert Dicts.DistinctKeys(s.kwargs) && !Dicts.HasKey(s.kwargs, "no_defaults") by {
      SegmentArgsKeys(tags, index);
    }
    FillNext(storages, index, s, done);
    r, done' := Ok(()), done + [s];
  }

  method FillStorages(iq: seq<Complex>, lengths: seq<int>, tags: Dicts.Items<Value>, count: int, storages: seq<Storage>)
    returns (r: Result<()>)
    requires Dicts.DistinctKeys(tags)
    requires |storages| == (if count < 0 then 0 else count)
    requires forall i, j :: 0 <= i < j < |storages| ==> storages[i] != storages[j]
    modifies storages
    ensures r.Ok? <==> Segments(iq, lengths, ArgsOf(tags), count, 0).Ok?
    ensures r.Err? ==> r.error == Segments(iq, lengths, ArgsOf(tags), count, 0).error
    ensures r.Ok? ==> (|Segments(iq, lengths, ArgsOf(tags), count, 0).value| == |storages|
      && Holds(storages, Segments(iq, lengths, ArgsOf(tags), count, 0).value, |storages|))
  {
    ghost var all := Segments(iq, lengths, ArgsOf(tags), count, 0);
    ghost var done: seq<Segment> := [];
    if all.Ok? {
      assert [] + all.value == all.value;
    }
    ghost var args := ArgsOf(tags);
    var index := 0;
    while index < |storages|
      invariant 0 <= index <= |storages| && |done| == index
      invariant all == Prefixed(done, Segments(iq, lengths, args, count, index))
      invariant Holds(storages, done, index)
    {
      var step;
      step, done := FillAt(iq, lengths, tags, count, storages, index, done, all);
      if step.Err? {
        return step;
      }
      assert all == Prefixed(done, Segments(iq, lengths, args, count, index + 1));
      index := index + 1;
    }
    assert Segments(iq, lengths, args, count, index) == Ok([]);
    assert done + [] == done;
    SegmentsCount(iq, lengths, ArgsOf(tags), count, 0);
    r := Ok(());
  }

  /** Load.load: the parent storage, its storages filled segment by segment. */
  method Load(records: seq<Record>, content: seq<Byte>, fix: Int16 -> real, filename: Option<string>, now: ValidDateTime)
    returns (r: Result<ParentStorage>, warned: bool)
    ensures r.Ok? <==> LoadFile(records, content, fix).Ok?
    ensures r.Err? ==> r.error == LoadFile(records, content, fix).error
    ensures r.Ok? ==> fresh(r.value) && r.value.edition == Upper && r.value.timestamp == now
    ensures r.Ok? ==> r.value.filename == (if filename.Some? then filename.value else "")
    ensures r.Ok? ==> var loaded := LoadFile(records, content, fix).value;
      warned == loaded.warned && |r.value.storages| == |loaded.segments|
      && Holds(r.value.storages, loaded.segments, |loaded.segments|)
  {
    var header := LoadHeader(records, content);
    if header.Err? {
      return Err(header.error), false;
    }
    LoadHeaderDistinct(records, content);
    r, warned := LoadFromHeader(header.value, fix, filename, now);
  }

  /** The part of load after the header: the parent, its storages and their data. */
  method LoadFromHeader(h: Header, fix: Int16 -> real, filename: Option<string>, now: ValidDateTime)
    returns (r: Result<ParentStorage>, warned: bool)
    requires Dicts.DistinctKeys(h.tags)
    ensures r.Ok? <==> LoadParsed(h, fix).Ok?
    ensures r.Err? ==> r.error == LoadParsed(h, fix).error
    ensures r.Ok? ==> fresh(r.value) && r.value.edition == Upper && r.value.timestamp == now
    ensures r.Ok? ==> r.value.filename == (if filename.Some? then filename.value else "")
    ensures r.Ok? ==> var loaded := LoadParsed(h, fix).value;
      warned == loaded.warned && |r.value.storages| == |loaded.segments|
      && Holds(r.value.storages, loaded.segments, |loaded.segments|)
  {
    warned := false;
    var parent := new ParentStorage(Upper, 1, false, now);
    if filename.Some? {
      parent.SetFilename(filename.value);
    }
    var n := if h.count < 0 then 0 else h.count;
    var storages := NewStorages(Upper, n, false);
    var extracted := ExtractIq(h.waveform, 0, 0, fix);
    if extracted.Err? {
      return Err(extracted.error), false;
    }
    var iq := extracted.value;
    var filled := FillStorages(iq, h.lengths, h.tags, h.count, storages);
    if filled.Err? {
      return Err(filled.error), false;
    }
    parent.SetStorages(storages);
    warned := h.samples != |iq|;
    r := Ok(parent);
  }

  // ----- _read_chunks -----

  /** The size of each read _read_chunks makes. */
  const ChunkSize: nat := 4096

  /**
   * The length of a match of the separator pattern ({WWAVEFORM|{WAVEFORM)
   * at `i`, the first alternative tried first.
   */
  function SeparatorAt(b: seq<Byte>, i: nat): (r: Option<nat>)
    ensures r.Some? ==> (r.value == 10 || r.value == 9) && i + r.value <= |b| && b[i] == LBrace
    ensures r == Some(10) <==> BytesAt(b, [LBrace] + EncryptedTag, i)
    ensures r.None? ==> !BytesAt(b, [LBrace] + WaveformTag, i)
  {
    if BytesAt(b, [LBrace] + EncryptedTag, i) then Some(10)
    else if BytesAt(b, [LBrace] + WaveformTag, i) then Some(9)
    else None
  }

  /** Where re.split finds the separator in `b` from `i` on, left to right, resuming after each match. */
  function Separators(b: seq<Byte>, i: nat): (ps: seq<nat>)
    ensures forall k :: 0 <= k < |ps| ==> i <= ps[k] < |b| && SeparatorAt(b, ps[k]).Some?
    decreases |b| - i
  {
    if i >= |b| then []
    else match SeparatorAt(b, i)
      case Some(n) => [i] + Separators(b, i + n)
      case None => Separators(b, i + 1)
  }

  /** What _read_chunks returns, the header part and the separator with the bytes after it, and how far it has read. */
  datatype ChunkRead = ChunkRead(header: seq<Byte>, rest: seq<Byte>, read: nat)

  /**
   * _read_chunks once `read` bytes of the file are in the buffer: read 4096
   * more, and split once the buffer holds exactly one separator; at the end
   * of the file the whole buffer is the header and nothing follows.
   */
  function ReadChunksFrom(file: seq<Byte>, read: nat): (c: ChunkRead)
    requires read <= |file|
    ensures read <= c.read <= |file| && c.header + c.rest == file[..c.read]
    ensures c.rest == [] <==> c.read == |file| && c.header == file
    ensures c.rest != [] ==> var ps := Separators(file[..c.read], 0);
      |ps| == 1 && ps[0] == |c.header| && SeparatorAt(c.rest, 0).Some?
    decreases |file| - read
  {
    if read == |file| then ChunkRead(file, [], |file|)
    else
      var read' := if read + ChunkSize <= |file| then read + ChunkSize else |file|;
      var ps := Separators(file[..read'], 0);
      if |ps| == 1 then
        var b := file[..read'];
        SeparatorShift(b, ps[0]);
        ChunkRead(b[..ps[0]], b[ps[0]..], read')
      else ReadChunksFrom(file, read')
  }

  /** A separator is matched the same after dropping the bytes before it. */
  lemma SeparatorShift(b: seq<Byte>, p: nat)
    requires p <= |b|
    ensures SeparatorAt(b[p..], 0) == SeparatorAt(b, p)
    ensures b[..p] + b[p..] == b
  {
    assert BytesAt(b[p..], [LBrace] + EncryptedTag, 0) <==> BytesAt(b, [LBrace] + EncryptedTag, p) by {
      if p + 10 <= |b| {
        assert b[p..][0..10] == b[p..p + 10];
      }
    }
    assert BytesAt(b[p..], [LBrace] + WaveformTag, 0) <==> BytesAt(b, [LBrace] + WaveformTag, p) by {
      if p + 9 <= |b| {
        assert b[p..][0..9] == b[p..p + 9];
      }
    }
  }

  /** Load._read_chunks over the file's bytes: 4096 bytes at a time until the buffer splits at exactly one separator. */
  method ReadChunks(file: seq<Byte>) returns (c: ChunkRead)
    ensures c == ReadChunksFrom(file, 0)
  {
    var read := 0;
    while true
      invariant read <= |file|
      invariant ReadChunksFrom(file, read) == ReadChunksFrom(file, 0)
      decreases |file| - read
    {
      if read == |file| {
        return ChunkRead(file, [], read);
      }
      read := if read + ChunkSize <= |file| then read + ChunkSize else |file|;
      var buffer := file[..read];
      var ps := Separators(buffer, 0);
      if |ps| == 1 {
        return ChunkRead(buffer[..ps[0]], buffer[ps[0]..], read);
      }
    }
  }

  /**
   * The bytes load_in_chunks searches for the waveform and the control
   * list: the separator and the rest of the last chunk read, then
   * fp.read((nrSamples + 4) * 4 + 100), which reads to the end of the file
   * when that size is negative. The samples offset plays no part.
   */
  function ChunkContent(file: seq<Byte>, nrSamples: int): (content: seq<Byte>)
    ensures var c := ReadChunksFrom(file, 0);
      |c.header| + |content| <= |file| && content == file[|c.header|..|c.header| + |content|]
    ensures var c := ReadChunksFrom(file, 0); var extra := (nrSamples + 4) * 4 + 100;
      extra >= 0 ==> |content| <= |c.rest| + extra
  {
    var c := ReadChunksFrom(file, 0);
    var extra := (nrSamples + 4) * 4 + 100;
    var stop := if extra < 0 || c.read + extra > |file| then |file| else c.read + extra;
    assert c.rest + file[c.read..stop] == file[|c.header|..stop] by {
      SliceJoin(file, c.header, c.rest, c.read, stop);
    }
    c.rest + file[c.read..stop]
  }

  /** The rest of the buffer, then the bytes read after it, are one slice of the file. */
  lemma SliceJoin(file: seq<Byte>, header: seq<Byte>, rest: seq<Byte>, read: nat, stop: nat)
    requires read <= stop <= |file| && header + rest == file[..read]
    ensures rest + file[read..stop] == file[|header|..stop]
  {
    assert rest == file[..read][|header|..];
  }

  /**
   * A file whose separators come two in every buffer read is never split:
   * the header is the whole file and load_in_chunks searches no bytes.
   */
  lemma TwoSeparatorsNeverSplit()
    ensures var file := [LBrace] + WaveformTag + [LBrace] + WaveformTag;
      ReadChunksFrom(file, 0) == ChunkRead(file, [], |file|) && ChunkContent(file, 1) == []
  {
    var file := [LBrace] + WaveformTag + [LBrace] + WaveformTag;
    assert file[..|file|] == file;
    assert SeparatorAt(file, 0) == Some(9) by {
      assert file[2] != ([LBrace] + EncryptedTag)[2];
      assert file[0..9] == [LBrace] + WaveformTag;
    }
    assert SeparatorAt(file, 9) == Some(9) by {
      assert file[9..18] == [LBrace] + WaveformTag;
    }
    assert Separators(file, 18) == [];
    assert |Separators(file, 0)| == 2;
  }

  // ----- load_in_chunks -----

  /** The key load_in_chunks pops for the segment count, spelled with spaces. */
  const ChunkCountKey: string := "mwv segment count"

  /**
   * The tags load_in_chunks holds: the header scan, then the waveform
   * section cut where the content ends (a partial read) with its
   * encryption flag, then the control list unpacked to the requested
   * sample count.
   */
  function ChunkTags(records: seq<Record>, content: seq<Byte>, nrSamples: int): Result<(seq<Byte>, Dicts.Items<Value>)>
  {
    var wave :- ExtractWaveform(content, true);
    var tags := Dicts.Set(Scan(records), "encryption_flag", PyBool(wave.1));
    var list :- ExtractBinaryTag(content, ControlListTag, true);
    Ok((wave.0, WithControlList(tags, list, nrSamples)))
  }

  /**
   * Load.load_in_chunks over the bytes it searches: the segment-count
   * guard, the samples _extract_pairs picks for the window [offset, offset
   * + nrSamples) of the waveform read (a window past its end is moved back,
   * a window longer than it becomes the whole of it), the meta of segment
   * 0, and the refusal of any other number of samples.
   */
  function ChunkPlan(records: seq<Record>, content: seq<Byte>, nrSamples: int, offset: int, fix: Int16 -> real): Result<Segment>
  {
    var t :- ChunkTags(records, content, nrSamples);
    WindowPlan(t, nrSamples, offset, fix)
  }

  /** ChunkPlan once the waveform read and the tags are known. */
  function WindowPlan(t: (seq<Byte>, Dicts.Items<Value>), nrSamples: int, offset: int, fix: Int16 -> real): Result<Segment>
  {
    var popped :- PopInt(t.1, ChunkCountKey, 1);
    if popped.0 > 1 then Err(ValueError(MultiSegmentChunks))
    else
      var iq :- ExtractIq(t.0, offset, nrSamples, fix);
      if popped.0 < 1 then Err(IndexError)
      else ChunkSegment(popped.1, iq, nrSamples)
  }

  /** The storage load_in_chunks fills: the window's samples and the meta of segment 0, or the count mismatch. */
  function ChunkSegment(tags: Dicts.Items<Value>, iq: seq<Complex>, nrSamples: int): Result<Segment>
  {
    var call :- SegmentArgs(tags, 0);
    if nrSamples != |iq| then Err(ValueError(SampleCountMismatch))
    else Ok(Segment(iq, call.0, call.1))
  }

  lemma ChunkSegmentData(tags: Dicts.Items<Value>, iq: seq<Complex>, nrSamples: int)
    requires ChunkSegment(tags, iq, nrSamples).Ok?
    ensures ChunkSegment(tags, iq, nrSamples).value.data == iq && |iq| == nrSamples
  {
  }

  /** Unpacking the control list adds at most the key "control_list". */
  lemma WithControlListKeys(tags: Dicts.Items<Value>, list: Option<seq<Byte>>, samples: int)
    requires Dicts.DistinctKeys(tags)
    ensures Dicts.DistinctKeys(WithControlList(tags, list, samples))
    ensures forall k :: k in Dicts.Keys(WithControlList(tags, list, samples)) ==> k in Dicts.Keys(tags) || k == "control_list"
  {
    if list.Some? && list.value != [] {
      Dicts.SetKeys(tags, "control_list", PyArray(Unpack(list.value, samples)));
    }
  }

  /** The keys of the scanned tags after the flag and the control list are added: distinct, without spaces. */
  lemma ScannedKeysUnspaced(records: seq<Record>, flag: bool, list: Option<seq<Byte>>, samples: int)
    ensures var tags := WithControlList(Dicts.Set(Scan(records), "encryption_flag", PyBool(flag)), list, samples);
      Dicts.DistinctKeys(tags) && forall k :: k in Dicts.Keys(tags) ==> ' ' !in k
  {
    FlaggedKeysUnspaced(records, flag);
    WithControlListKeys(Dicts.Set(Scan(records), "encryption_flag", PyBool(flag)), list, samples);
  }

  /** The keys of the scanned tags with the encryption flag added: distinct, without spaces. */
  lemma FlaggedKeysUnspaced(records: seq<Record>, flag: bool)
    ensures var tags := Dicts.Set(Scan(records), "encryption_flag", PyBool(flag));
      Dicts.DistinctKeys(tags) && forall k :: k in Dicts.Keys(tags) ==> ' ' !in k
  {
    var tags0 := Scan(records);
    ScanKeys(records);
    forall k | k in Dicts.Keys(tags0)
      ensures ' ' !in k
    {
      GroupNameNoSpace(k);
    }
    Dicts.SetKeys(tags0, "encryption_flag", PyBool(flag));
  }

  /** The chunk tags have distinct keys, none with a space. */
  lemma ChunkTagsKeys(records: seq<Record>, content: seq<Byte>, nrSamples: int)
    requires ChunkTags(records, content, nrSamples).Ok?
    ensures Dicts.DistinctKeys(ChunkTags(records, content, nrSamples).value.1)
    ensures forall k :: k in Dicts.Keys(ChunkTags(records, content, nrSamples).value.1) ==> ' ' !in k
  {
    var wave := ExtractWaveform(content, true).value;
    var list := ExtractBinaryTag(content, ControlListTag, true).value;
    ScannedKeysUnspaced(records, wave.1, list, nrSamples);
  }

  /**
   * The segment count load_in_chunks pops is always the default 1: the key
   * it asks for has spaces and no scanned tag does, so a multi-segment file
   * is never refused and MWV_SEGMENT_COUNT stays among the tags.
   */
  lemma ChunkCountIsOne(records: seq<Record>, content: seq<Byte>, nrSamples: int)
    requires ChunkTags(records, content, nrSamples).Ok?
    ensures PopInt(ChunkTags(records, content, nrSamples).value.1, ChunkCountKey, 1) == Ok((1, ChunkTags(records, content, nrSamples).value.1))
  {
    var tags := ChunkTags(records, content, nrSamples).value.1;
    ChunkTagsKeys(records, content, nrSamples);
    assert ' ' in ChunkCountKey;
    if Dicts.HasKey(tags, ChunkCountKey) {
      assert false;
    }
  }

  /** A chunk read that succeeds holds exactly the requested number of samples. */
  lemma ChunkHoldsRequested(records: seq<Record>, content: seq<Byte>, nrSamples: int, offset: int, fix: Int16 -> real)
    requires ChunkPlan(records, content, nrSamples, offset, fix).Ok?
    ensures |ChunkPlan(records, content, nrSamples, offset, fix).value.data| == nrSamples
    ensures var t := ChunkTags(records, content, nrSamples).value;
      ChunkPlan(records, content, nrSamples, offset, fix).value.data == ExtractIq(t.0, offset, nrSamples, fix).value
  {
    ChunkCountIsOne(records, content, nrSamples);
    var t := ChunkTags(records, content, nrSamples).value;
    ChunkSegmentData(t.1, ExtractIq(t.0, offset, nrSamples, fix).value, nrSamples);
  }

  /**
   * A window past the end of the waveform read (t.0) is moved back without
   * an error: any two such offsets load the same, the last nrSamples
   * samples the waveform read holds.
   */
  lemma ChunkOffsetPastEnd(t: (seq<Byte>, Dicts.Items<Value>), nrSamples: int, o1: int, o2: int, fix: Int16 -> real)
    requires 0 < nrSamples && 4 * nrSamples <= |t.0| < 4 * (o1 + nrSamples) && |t.0| < 4 * (o2 + nrSamples)
    ensures WindowPlan(t, nrSamples, o1, fix) == WindowPlan(t, nrSamples, o2, fix)
    ensures WindowPlan(t, nrSamples, o1, fix).Ok? ==>
      ExtractIq(t.0[|t.0| - 4 * nrSamples..], 0, 0, fix) == Ok(WindowPlan(t, nrSamples, o1, fix).value.data)
  {
    ExtractIqMovedBack(t.0, o1, nrSamples, fix);
    ExtractIqMovedBack(t.0, o2, nrSamples, fix);
    var plan := WindowPlan(t, nrSamples, o1, fix);
    if plan.Ok? {
      var popped := PopInt(t.1, ChunkCountKey, 1).value;
      ChunkSegmentData(popped.1, ExtractIq(t.0, o1, nrSamples, fix).value, nrSamples);
    }
  }

  /** The part of load_in_chunks that fills storage 0: the meta of segment 0, then the count check. */
  method FillChunk(storage: Storage, tags: Dicts.Items<Value>, iq: seq<Complex>, nrSamples: int) returns (r: Result<()>)
    requires Dicts.DistinctKeys(tags)
    modifies storage
    ensures r.Ok? <==> ChunkSegment(tags, iq, nrSamples).Ok?
    ensures r.Err? ==> r.error == ChunkSegment(tags, iq, nrSamples).error
    ensures r.Ok? ==> HoldsOne(storage, ChunkSegment(tags, iq, nrSamples).value)
  {
    var call := BuildArgs(tags, 0);
    if call.Err? {
      return Err(call.error);
    }
    SegmentArgsKeys(tags, 0);
    Fill(storage, Segment(iq, call.value.0, call.value.1));
    if nrSamples != |iq| {
      return Err(ValueError(SampleCountMismatch));
    }
    r := Ok(());
  }

  /**
   * Load.load_in_chunks: _read_chunks, then the bytes after it; one storage
   * holding the window and the meta of segment 0.
   */
  method LoadInChunks(records: seq<Record>, file: seq<Byte>, nrSamples: int, offset: int, fix: Int16 -> real,
                      filename: Option<string>, now: ValidDateTime)
    returns (r: Result<ParentStorage>)
    ensures var plan := ChunkPlan(records, ChunkContent(file, nrSamples), nrSamples, offset, fix);
      && (r.Ok? <==> plan.Ok?)
      && (r.Err? ==> r.error == plan.error)
      && (r.Ok? ==> fresh(r.value) && r.value.edition == Upper && r.value.timestamp == now)
      && (r.Ok? ==> r.value.filename == (if filename.Some? then filename.value else ""))
      && (r.Ok? ==> |r.value.storages| == 1 && HoldsOne(r.value.storages[0], plan.value))
  {
    var c := ReadChunks(file);
    var extra := (nrSamples + 4) * 4 + 100;
    var stop := if extra < 0 || c.read + extra > |file| then |file| else c.read + extra;
    var content := c.rest + file[c.read..stop];
    assert content == ChunkContent(file, nrSamples);
    r := LoadWindow(records, content, nrSamples, offset, fix, filename, now);
  }

  /** The rest of load_in_chunks, once it holds the header's records and the bytes after the header. */
  method LoadWindow(records: seq<Record>, content: seq<Byte>, nrSamples: int, offset: int, fix: Int16 -> real,
                    filename: Option<string>, now: ValidDateTime)
    returns (r: Result<ParentStorage>)
    ensures r.Ok? <==> ChunkPlan(records, content, nrSamples, offset, fix).Ok?
    ensures r.Err? ==> r.error == ChunkPlan(records, content, nrSamples, offset, fix).error
    ensures r.Ok? ==> fresh(r.value) && r.value.edition == Upper && r.value.timestamp == now
    ensures r.Ok? ==> r.value.filename == (if filename.Some? then filename.value else "")
    ensures r.Ok? ==> |r.value.storages| == 1 && HoldsOne(r.value.storages[0], ChunkPlan(records, content, nrSamples, offset, fix).value)
  {
    var t := ChunkTags(records, content, nrSamples);
    if t.Err? {
      return Err(t.error);
    }
    var popped := PopInt(t.value.1, ChunkCountKey, 1);
    if popped.Err? {
      return Err(popped.error);
    }
    var count := popped.value.0;
    if count > 1 {
      return Err(ValueError(MultiSegmentChunks));
    }
    var parent := new ParentStorage(Upper, 1, false, now);
    if filename.Some? {
      parent.SetFilename(filename.value);
    }
    var storages := NewStorages(Upper, if count < 0 then 0 else count, false);
    var iq := ExtractIq(t.value.0, offset, nrSamples, fix);
    if iq.Err? {
      return Err(iq.error);
    }
    if count < 1 {
      return Err(IndexError);
    }
    ChunkTagsKeys(records, content, nrSamples);
    PopIntDistinct(t.value.1, ChunkCountKey, 1);
    var filled := FillChunk(storages[0], popped.value.1, iq.value, nrSamples);
    if filled.Err? {
      return Err(filled.error);
    }
    parent.SetStorages(storages);
    r := Ok(parent);
  }

  // ----- load_meta -----

  /**
   * Load.load_meta: the header's tags with the control list unpacked to
   * SAMPLES, the meta of segment 0 (no MWV renaming), and no samples.
   */
  function MetaPlan(records: seq<Record>, header: seq<Byte>): Result<Segment>
  {
    var tags := Scan(records);
    var samplesValue :- Lookup(tags, "samples");
    var samples :- ToInt(samplesValue);
    var list :- ExtractBinaryTag(header, ControlListTag, false);
    var m :- ExtractMeta(WithControlList(tags, list, samples), 0);
    var call :- MetaCall(m);
    Ok(Segment([], call.0, call.1))
  }

  /**
   * The meta load_meta builds keeps every scanned tag other than LEVEL OFFS
   * and the marker lists, parsed by its rule for segment 0, and binds no
   * "no_defaults" (no group is called that).
   */
  lemma MetaPlanContents(records: seq<Record>, header: seq<Byte>, k: string)
    requires MetaPlan(records, header).Ok?
    requires k != "rms" && k != "peak" && k != "marker" && k != "control_list"
    ensures !MetaPlan(records, header).value.noDefaults
    ensures Dicts.Get(MetaPlan(records, header).value.kwargs, k) == StoredFor(Scan(records), 0, k)
  {
    var tags := Scan(records);
    ScanKeys(records);
    var samples := ToInt(Lookup(tags, "samples").value).value;
    var list := ExtractBinaryTag(header, ControlListTag, false).value;
    var tags' := WithControlList(tags, list, samples);
    WithControlListDistinct(tags, list, samples);
    var m := ExtractMeta(tags', 0).value;
    ExtractMetaContents(tags', 0, k);
    ExtractMetaContents(tags', 0, "no_defaults");
    assert StoredFor(tags', 0, k) == StoredFor(tags, 0, k) by {
      StoredForControlList(tags, list, samples, k);
    }
    assert StoredFor(tags', 0, "no_defaults") == None by {
      StoredForControlList(tags, list, samples, "no_defaults");
      NoDefaultsNotStored(tags);
    }
    MetaCallArgs(m);
  }

  /** Unpacking the control list changes no stored entry but its own. */
  lemma StoredForControlList(tags: Dicts.Items<Value>, list: Option<seq<Byte>>, samples: int, k: string)
    requires Dicts.DistinctKeys(tags) && k != "control_list"
    ensures StoredFor(WithControlList(tags, list, samples), 0, k) == StoredFor(tags, 0, k)
  {
    if list.Some? && list.value != [] {
      Dicts.GetSet(tags, "control_list", PyArray(Unpack(list.value, samples)), k);
    }
  }

  /** No scanned tag is called "no_defaults". */
  lemma NoDefaultsNotStored(tags: Dicts.Items<Value>)
    requires forall k :: k in Dicts.Keys(tags) ==> IsGroupName(k)
    ensures StoredFor(tags, 0, "no_defaults") == None
  {
    if Dicts.HasKey(tags, "no_defaults") {
      assert "no_defaults" in Dicts.Keys(tags);
      GroupNameInitial("no_defaults");
      assert false;
    }
  }

  /** Load.load_meta: _read_chunks, then a one-storage parent whose storage holds the header's meta and no samples. */
  method LoadMeta(records: seq<Record>, file: seq<Byte>, now: ValidDateTime) returns (r: Result<ParentStorage>)
    ensures var plan := MetaPlan(records, ReadChunksFrom(file, 0).header);
      && (r.Ok? <==> plan.Ok?)
      && (r.Err? ==> r.error == plan.error)
      && (r.Ok? ==> fresh(r.value) && r.value.edition == Upper && r.value.filename == "")
      && (r.Ok? ==> |r.value.storages| == 1 && HoldsOne(r.value.storages[0], plan.value))
  {
    var c := ReadChunks(file);
    r := LoadHeaderMeta(records, c.header, now);
  }

  /** The rest of load_meta, once it holds the header's records and bytes. */
  method LoadHeaderMeta(records: seq<Record>, header: seq<Byte>, now: ValidDateTime) returns (r: Result<ParentStorage>)
    ensures r.Ok? <==> MetaPlan(records, header).Ok?
    ensures r.Err? ==> r.error == MetaPlan(records, header).error
    ensures r.Ok? ==> fresh(r.value) && r.value.edition == Upper && r.value.filename == ""
    ensures r.Ok? ==> |r.value.storages| == 1 && HoldsOne(r.value.storages[0], MetaPlan(records, header).value)
  {
    var tags := Scan(records);
    var samplesValue := Lookup(tags, "samples");
    if samplesValue.Err? {
      return Err(samplesValue.error);
    }
    var samples := ToInt(samplesValue.value);
    if samples.Err? {
      return Err(samples.error);
    }
    var list := ExtractBinaryTag(header, ControlListTag, false);
    if list.Err? {
      return Err(list.error);
    }
    var tags' := WithControlList(tags, list.value, samples.value);
    ScanKeys(records);
    WithControlListDistinct(tags, list.value, samples.value);
    var meta := ExtractMetaItems(tags', 0);
    if meta.Err? {
      return Err(meta.error);
    }
    var call := MetaCall(meta.value);
    if call.Err? {
      return Err(call.error);
    }
    ExtractMetaContents(tags', 0, "type");
    MetaCallArgs(meta.value);
    var parent := new ParentStorage(Upper, 1, false, now);
    Fill(parent.storages[0], Segment([], call.value.0, call.value.1));
    r := Ok(parent);
  }
}
