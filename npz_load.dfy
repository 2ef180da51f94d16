/**
 * The npz loader: a numpy archive whose "storages" entry is a list of
 * records, each with the in-phase samples "i", the quadrature samples "q"
 * and a "meta" dict. Each record becomes the storage at its own index of
 * the parent; a record that cannot be used leaves the default storage in
 * its slot.
 *
 * The archive is given already unpacked, as what `content.get("storages")`
 * yields: nothing, a list of records, or the numpy object array np.load
 * gives back for a file the npz saver wrote. The numpy dtype the samples are
 * cast to is the function `cast`.
 */
module NpzLoad {
  import opened Wrappers
  import opened Dates
  import opened Values
  import Dicts
  import opened Metadata
  import opened Storages
  import opened Sequences

  /** One record: its "i" and "q" arrays (None when missing) and its "meta" dict ({} when missing). */
  datatype Record = Record(i: Option<seq<real>>, q: Option<seq<real>>, meta: Dicts.Items<Value>)

  /**
   * The "storages" entry: missing, a Python list of records, or a numpy
   * object array of records (what np.load returns for the list the saver
   * stored with np.savez_compressed).
   */
  datatype Entry = Absent | AsList(records: seq<Record>) | AsArray(records: seq<Record>)

  /**
   * `not data_objs`: true for a missing or an empty entry. numpy has no truth
   * value for an object array of two or more records and raises ValueError;
   * a one-record array is the truth of its dict, which the saver always
   * fills with "i", "q" and "meta", so it is true.
   */
  function NotCompliant(entry: Entry): (r: Result<bool>)
    ensures r.Err? <==> entry.AsArray? && |entry.records| >= 2
    ensures r.Err? ==> r.error == ValueError(AmbiguousTruth)
    ensures r.Ok? ==> (r.value <==> entry.Absent? || entry.records == [])
  {
    match entry
    case Absent => Ok(true)
    case AsList(rs) => Ok(rs == [])
    case AsArray(rs) => if |rs| >= 2 then Err(ValueError(AmbiguousTruth)) else Ok(rs == [])
  }

  /** What the loop makes of one record: nothing, or the samples and meta of a new storage. */
  datatype Outcome = Skipped | Filled(data: seq<Complex>, meta: Dicts.Items<Value>)

  /** Every record's meta is a dict: its keys are distinct. */
  predicate MetasAreDicts(records: seq<Record>)
  {
    forall k :: 0 <= k < |records| ==> Dicts.DistinctKeys(records[k].meta)
  }

  /** np.zeros(n). */
  function Zeros(n: nat): (r: seq<real>)
    ensures |r| == n
    ensures forall k :: 0 <= k < n ==> r[k] == 0.0
  {
    seq(n, _ => 0.0)
  }

  /** i.astype(dtype) + 1j * q.astype(dtype). */
  function Combine(i: seq<real>, q: seq<real>, cast: real -> real): (r: seq<Complex>)
    requires |i| == |q|
    ensures |r| == |i|
    ensures forall k :: 0 <= k < |r| ==> r[k] == Complex(cast(i[k]), cast(q[k]))
  {
    seq(|i|, k requires 0 <= k < |i| => Complex(cast(i[k]), cast(q[k])))
  }

  /**
   * One pass of the loop: no "i" skips the record; a missing "q" is zeros
   * of i's length; different lengths skip the record; otherwise a storage
   * with the cast samples and Meta(no_defaults=True, **meta), which a meta
   * holding its own "no_defaults" key makes a TypeError.
   */
  function OutcomeOf(rec: Record, cast: real -> real): Result<Outcome>
  {
    if rec.i.None? then Ok(Skipped)
    else
      var i := rec.i.value;
      var q := rec.q.GetOr(Zeros(|i|));
      if |i| != |q| then Ok(Skipped)
      else if Dicts.HasKey(rec.meta, "no_defaults") then Err(TypeError)
      else Ok(Filled(Combine(i, q, cast), rec.meta))
  }

  /** The storage a slot holds after its record's pass. */
  function SlotOf(o: Outcome): StorageValue
  {
    match o
    case Skipped => DefaultStorage(Lower, false)
    case Filled(data, meta) => StorageValue(data, meta)
  }

  /** The error of the earliest failing pass, if any. */
  function FirstError(os: seq<Result<Outcome>>): (r: Option<Error>)
    ensures r.None? <==> forall k :: 0 <= k < |os| ==> os[k].Ok?
  {
    if os == [] then None
    else
      var before := FirstError(os[..|os| - 1]);
      if before.Some? then before
      else if os[|os| - 1].Err? then Some(os[|os| - 1].error)
      else None
  }

  function Outcomes(records: seq<Record>, cast: real -> real): (os: seq<Result<Outcome>>)
    ensures |os| == |records|
    ensures forall k :: 0 <= k < |os| ==> os[k] == OutcomeOf(records[k], cast)
  {
    seq(|records|, k requires 0 <= k < |records| => OutcomeOf(records[k], cast))
  }

  /** The loop of load over the records: the slots in index order, or the first error a pass raises. */
  function RecordsSpec(records: seq<Record>, cast: real -> real): Result<seq<StorageValue>>
  {
    var os := Outcomes(records, cast);
    var failed := FirstError(os);
    if failed.Some? then Err(failed.value)
    else Ok(seq(|os|, k requires 0 <= k < |os| => SlotOf(os[k].value)))
  }

  /** load: the storages of the parent it returns, in index order, or the error it raises. */
  function LoadSpec(entry: Entry, cast: real -> real): Result<seq<StorageValue>>
  {
    var notCompliant :- NotCompliant(entry);
    if notCompliant then Err(ValueError(NoStorages))
    else RecordsSpec(entry.records, cast)
  }

  /**
   * load_in_chunks: ValueError when offset + samples runs past any storage,
   * otherwise every storage's samples become data[offset:offset + samples].
   */
  function Chunks(slots: seq<StorageValue>, samples: int, offset: int): Result<seq<StorageValue>>
  {
    if exists k :: 0 <= k < |slots| && offset + samples > |slots[k].data| then Err(ValueError(ChunkOutOfRange))
    else Ok(seq(|slots|, k requires 0 <= k < |slots| => StorageValue(Slice(slots[k].data, offset, offset + samples), slots[k].meta)))
  }

  function LoadChunkSpec(entry: Entry, cast: real -> real, samples: int, offset: int): Result<seq<StorageValue>>
  {
    var slots :- LoadSpec(entry, cast);
    Chunks(slots, samples, offset)
  }

  /** load_meta: every storage keeps its meta and loses its samples. */
  function MetaSlots(slots: seq<StorageValue>): seq<StorageValue>
  {
    seq(|slots|, k requires 0 <= k < |slots| => StorageValue([], slots[k].meta))
  }

  function LoadMetaSpec(entry: Entry, cast: real -> real): Result<seq<StorageValue>>
  {
    var slots :- LoadSpec(entry, cast);
    Ok(MetaSlots(slots))
  }

  // ----- the loader -----

  /** The parent's storages as values. */
  function Contents(p: ParentStorage): seq<StorageValue>
    reads p, p.storages, set j | 0 <= j < |p.storages| :: p.storages[j].meta
  {
    p.Snapshot().storages
  }

  /** Load.load: ParentStorage(len(records)), then each usable record's storage put in its slot. */
  method Load(entry: Entry, cast: real -> real, now: ValidDateTime) returns (r: Result<ParentStorage>)
    requires !entry.Absent? ==> MetasAreDicts(entry.records)
    ensures r.Err? <==> LoadSpec(entry, cast).Err?
    ensures r.Err? ==> r.error == LoadSpec(entry, cast).error
    ensures r.Ok? ==> fresh(r.value) && r.value.edition == Lower && r.value.timestamp == now && r.value.filename == ""
    ensures r.Ok? ==> r.value.Distinct() && forall k :: 0 <= k < |r.value.storages| ==> fresh(r.value.storages[k])
    ensures r.Ok? ==> Contents(r.value) == LoadSpec(entry, cast).value
  {
    var notCompliant := NotCompliant(entry);
    if notCompliant.Err? {
      return Err(notCompliant.error);
    }
    if notCompliant.value {
      return Err(ValueError(NoStorages));
    }
    var records := entry.records;
    var made := NewParentStorage(Lower, |records|, false, now);
    var parent := made.value;
    ContentsAt(parent);
    assert Contents(parent) == seq(|records|, _ => DefaultStorage(Lower, false));
    var filled := FillSlots(parent, records, cast);
    if filled.Err? {
      return Err(filled.error);
    }
    r := Ok(parent);
  }

  /** The loop of load: each record's pass in index order, stopping at the first that raises. */
  method FillSlots(parent: ParentStorage, records: seq<Record>, cast: real -> real) returns (r: Result<()>)
    requires records != [] && MetasAreDicts(records)
    requires |parent.storages| == |records| && parent.Distinct()
    requires Contents(parent) == seq(|records|, _ => DefaultStorage(Lower, false))
    modifies parent
    ensures parent.filename == old(parent.filename) && |parent.storages| == |records| && parent.Distinct()
    ensures forall k :: 0 <= k < |records| ==> parent.storages[k] == old(parent.storages[k]) || fresh(parent.storages[k])
    ensures r.Err? <==> RecordsSpec(records, cast).Err?
    ensures r.Err? ==> r.error == RecordsSpec(records, cast).error
    ensures r.Ok? ==> Contents(parent) == RecordsSpec(records, cast).value
  {
    ghost var os := Outcomes(records, cast);
    ghost var vals := Contents(parent);
    ContentsAt(parent);
    var idx := 0;
    while idx < |records|
      invariant 0 <= idx <= |records| == |vals|
      invariant parent.filename == old(parent.filename)
      invariant |parent.storages| == |records| && parent.Distinct()
      invariant forall k :: 0 <= k < |records| ==> parent.storages[k] == old(parent.storages[k]) || fresh(parent.storages[k])
      invariant forall k :: 0 <= k < |records| ==> parent.storages[k].Value() == vals[k]
      invariant forall k :: 0 <= k < idx ==> os[k].Ok? && vals[k] == SlotOf(os[k].value)
      invariant forall k :: idx <= k < |records| ==> vals[k] == DefaultStorage(Lower, false)
    {
      var outcome := PutRecord(parent, idx, records[idx], cast);
      if outcome.Err? {
        FailsAt(os, idx);
        return Err(outcome.error);
      }
      vals := vals[idx := SlotOf(outcome.value)];
      idx := idx + 1;
    }
    ContentsAt(parent);
    assert Contents(parent) == vals;
    r := Ok(());
  }

  /** One pass of the loop of load: the record's storage put in slot `idx`, or the slot left alone. */
  method PutRecord(parent: ParentStorage, idx: nat, rec: Record, cast: real -> real) returns (o: Result<Outcome>)
    requires idx < |parent.storages| && Dicts.DistinctKeys(rec.meta)
    modifies parent
    ensures o == OutcomeOf(rec, cast) && parent.filename == old(parent.filename)
    ensures |parent.storages| == |old(parent.storages)|
    ensures !(o.Ok? && o.value.Filled?) ==> parent.storages == old(parent.storages)
    ensures o.Ok? && o.value.Filled? ==>
              parent.storages == old(parent.storages)[idx := parent.storages[idx]] && fresh(parent.storages[idx]) &&
              parent.storages[idx].Value() == SlotOf(o.value)
  {
    o := OutcomeOf(rec, cast);
    if o.Ok? && o.value.Filled? {
      var s := NewRecordStorage(o.value.data, o.value.meta);
      parent.storages := parent.storages[idx := s];
    }
  }

  /** Storage(), then its data and its meta replaced: Meta(no_defaults=True, **meta) holds exactly `meta`. */
  method NewRecordStorage(data: seq<Complex>, meta: Dicts.Items<Value>) returns (s: Storage)
    requires Dicts.DistinctKeys(meta) && !Dicts.HasKey(meta, "no_defaults")
    ensures fresh(s) && fresh(s.meta) && s.Value() == StorageValue(data, meta)
  {
    s := new Storage(Lower, None, false);
    s.data := data;
    var m := new Meta(Combined, true, meta);
    NoDefaultsItems(Combined, meta);
    s.meta := m;
  }

  /** Load.load_in_chunks: load, then each storage cut to its chunk in turn. */
  method LoadInChunks(entry: Entry, cast: real -> real, samples: int, offset: int, now: ValidDateTime)
    returns (r: Result<ParentStorage>)
    requires !entry.Absent? ==> MetasAreDicts(entry.records)
    ensures r.Err? <==> LoadChunkSpec(entry, cast, samples, offset).Err?
    ensures r.Err? ==> r.error == LoadChunkSpec(entry, cast, samples, offset).error
    ensures r.Ok? ==> fresh(r.value) && r.value.edition == Lower && r.value.timestamp == now && r.value.filename == ""
    ensures r.Ok? ==> Contents(r.value) == LoadChunkSpec(entry, cast, samples, offset).value
  {
    r := Load(entry, cast, now);
    if r.Err? {
      return;
    }
    var cut := CutChunks(r.value, samples, offset);
    if cut.Err? {
      r := Err(cut.error);
    }
  }

  /** The loop of load_in_chunks: each storage in turn cut to data[offset:offset + samples], or ValueError. */
  method CutChunks(parent: ParentStorage, samples: int, offset: int) returns (r: Result<()>)
    requires parent.Distinct()
    modifies set k | 0 <= k < |parent.storages| :: parent.storages[k]
    ensures r.Err? <==> Chunks(old(Contents(parent)), samples, offset).Err?
    ensures r.Err? ==> r.error == ValueError(ChunkOutOfRange)
    ensures r.Ok? ==> Contents(parent) == Chunks(old(Contents(parent)), samples, offset).value
  {
    ghost var slots := Contents(parent);
    ContentsAt(parent);
    ghost var vals := slots;
    var idx := 0;
    while idx < |parent.storages|
      invariant 0 <= idx <= |parent.storages| == |slots| == |vals|
      invariant forall k :: 0 <= k < |slots| ==> parent.storages[k].Value() == vals[k]
      invariant forall k :: 0 <= k < idx ==> offset + samples <= |slots[k].data|
      invariant forall k :: 0 <= k < idx ==> vals[k] == StorageValue(Slice(slots[k].data, offset, offset + samples), slots[k].meta)
      invariant forall k :: idx <= k < |slots| ==> vals[k] == slots[k]
    {
      var s := parent.storages[idx];
      if offset + samples > |s.data| {
        assert Chunks(slots, samples, offset).Err?;
        return Err(ValueError(ChunkOutOfRange));
      }
      s.data := Slice(s.data, offset, offset + samples);
      vals := vals[idx := StorageValue(Slice(slots[idx].data, offset, offset + samples), slots[idx].meta)];
      idx := idx + 1;
    }
    ContentsAt(parent);
    assert Contents(parent) == vals == Chunks(slots, samples, offset).value;
    r := Ok(());
  }

  /** Load.load_meta: load, then every storage's samples emptied. */
  method LoadMeta(entry: Entry, cast: real -> real, now: ValidDateTime) returns (r: Result<ParentStorage>)
    requires !entry.Absent? ==> MetasAreDicts(entry.records)
    ensures r.Err? <==> LoadMetaSpec(entry, cast).Err?
    ensures r.Err? ==> r.error == LoadMetaSpec(entry, cast).error
    ensures r.Ok? ==> fresh(r.value) && r.value.edition == Lower && r.value.timestamp == now && r.value.filename == ""
    ensures r.Ok? ==> Contents(r.value) == LoadMetaSpec(entry, cast).value
  {
    r := Load(entry, cast, now);
    if r.Ok? {
      EmptyAll(r.value);
    }
  }

  /** The loop of load_meta: every storage's samples replaced by an empty array, its meta kept. */
  method EmptyAll(parent: ParentStorage)
    requires parent.Distinct()
    modifies set k | 0 <= k < |parent.storages| :: parent.storages[k]
    ensures Contents(parent) == MetaSlots(old(Contents(parent)))
  {
    ghost var slots := Contents(parent);
    ContentsAt(parent);
    ghost var vals := slots;
    for idx := 0 to |parent.storages|
      invariant |parent.storages| == |slots| == |vals|
      invariant forall k :: 0 <= k < |slots| ==> parent.storages[k].Value() == vals[k]
      invariant forall k :: 0 <= k < idx ==> vals[k] == StorageValue([], slots[k].meta)
      invariant forall k :: idx <= k < |slots| ==> vals[k] == slots[k]
    {
      parent.storages[idx].data := [];
      vals := vals[idx := StorageValue([], slots[idx].meta)];
    }
    ContentsAt(parent);
    assert Contents(parent) == vals == MetaSlots(slots);
  }

  /** The parent's i-th storage value is that of its i-th storage object. */
  lemma ContentsAt(p: ParentStorage)
    ensures |Contents(p)| == |p.storages|
    ensures forall k :: 0 <= k < |p.storages| ==> Contents(p)[k] == p.storages[k].Value()
  {
  }

  // ----- lemmas -----

  /** The pass at `idx` fails after every earlier pass succeeded: its error is the one reported. */
  lemma FailsAt(os: seq<Result<Outcome>>, idx: nat)
    requires idx < |os| && os[idx].Err? && forall k :: 0 <= k < idx ==> os[k].Ok?
    ensures FirstError(os) == Some(os[idx].error)
  {
    assert forall k :: 0 <= k < idx ==> os[..idx][k] == os[k];
    assert os[..idx + 1][..idx] == os[..idx];
    FirstErrorPrefix(os, idx + 1);
  }

  /** The earliest error of a sequence of passes is that of a prefix once the prefix has failed. */
  lemma {:induction false} FirstErrorPrefix(os: seq<Result<Outcome>>, n: nat)
    requires n <= |os| && FirstError(os[..n]).Some?
    ensures FirstError(os) == FirstError(os[..n])
    decreases |os|
  {
    if n < |os| {
      assert os[..|os| - 1][..n] == os[..n];
      FirstErrorPrefix(os[..|os| - 1], n);
    } else {
      assert os[..n] == os;
    }
  }

  /** The reported error is that of a failing pass, and every pass before it succeeded. */
  lemma {:induction false} FirstErrorIsEarliest(os: seq<Result<Outcome>>)
    requires FirstError(os).Some?
    ensures exists k :: 0 <= k < |os| && os[k] == Err(FirstError(os).value) && forall j :: 0 <= j < k ==> os[j].Ok?
    decreases |os|
  {
    var init := os[..|os| - 1];
    assert forall k :: 0 <= k < |init| ==> init[k] == os[k];
    if FirstError(init).Some? {
      FirstErrorIsEarliest(init);
      var k :| 0 <= k < |init| && init[k] == Err(FirstError(init).value) && forall j :: 0 <= j < k ==> init[j].Ok?;
      assert os[k] == init[k];
    } else {
      assert os[|os| - 1] == Err(FirstError(os).value);
    }
  }

  /** A missing or empty "storages" entry, and only that, raises the not-compliant ValueError. */
  lemma NoStoragesRejected(entry: Entry, cast: real -> real)
    ensures LoadSpec(entry, cast) == Err(ValueError(NoStorages)) <==> entry.Absent? || entry.records == []
  {
    if !entry.Absent? && entry.records != [] {
      var os := Outcomes(entry.records, cast);
      if FirstError(os).Some? {
        FirstErrorIsEarliest(os);
      }
    }
  }

  /**
   * A file the npz saver wrote with two or more storages cannot be loaded:
   * its entry is an object array, and `not data_objs` raises ValueError
   * before any record is read. A one-record array, and a list of any
   * length, loads through the records' loop.
   */
  lemma SavedArrayRefused(records: seq<Record>, cast: real -> real)
    ensures |records| >= 2 ==> LoadSpec(AsArray(records), cast) == Err(ValueError(AmbiguousTruth))
    ensures |records| == 1 ==> LoadSpec(AsArray(records), cast) == RecordsSpec(records, cast)
    ensures records != [] ==> LoadSpec(AsList(records), cast) == RecordsSpec(records, cast)
  {
  }

  /**
   * The load fails exactly when some record with samples of matching
   * lengths carries a "no_defaults" meta key, and it then raises TypeError.
   */
  lemma LoadFails(records: seq<Record>, cast: real -> real)
    requires records != []
    ensures RecordsSpec(records, cast).Err? <==>
              exists k :: 0 <= k < |records| && OutcomeOf(records[k], cast).Err?
    ensures RecordsSpec(records, cast).Err? ==> RecordsSpec(records, cast).error == TypeError
  {
    var os := Outcomes(records, cast);
    if FirstError(os).Some? {
      FirstErrorIsEarliest(os);
    }
  }

  /** One slot per record, each holding what its own record makes of it. */
  lemma LoadSlots(records: seq<Record>, cast: real -> real, k: nat)
    requires RecordsSpec(records, cast).Ok? && k < |records|
    ensures |RecordsSpec(records, cast).value| == |records|
    ensures OutcomeOf(records[k], cast).Ok?
    ensures RecordsSpec(records, cast).value[k] == SlotOf(OutcomeOf(records[k], cast).value)
  {
  }

  /** A record without "i", or with "i" and "q" of different lengths, leaves the default storage in its slot. */
  lemma SkippedSlot(records: seq<Record>, cast: real -> real, k: nat)
    requires RecordsSpec(records, cast).Ok? && k < |records|
    requires records[k].i.None? || (records[k].q.Some? && |records[k].i.value| != |records[k].q.value|)
    ensures RecordsSpec(records, cast).value[k] == DefaultStorage(Lower, false)
    ensures |RecordsSpec(records, cast).value[k].data| == 1024
  {
    LoadSlots(records, cast, k);
  }

  /**
   * A record with "i" and no "q" holds i's samples with zero quadrature,
   * and its meta is exactly the record's dict: no defaults are added.
   */
  lemma MissingQuadrature(records: seq<Record>, cast: real -> real, k: nat)
    requires RecordsSpec(records, cast).Ok? && k < |records|
    requires records[k].i.Some? && records[k].q.None?
    ensures |RecordsSpec(records, cast).value[k].data| == |records[k].i.value|
    ensures forall j :: 0 <= j < |records[k].i.value| ==>
              RecordsSpec(records, cast).value[k].data[j] == Complex(cast(records[k].i.value[j]), cast(0.0))
    ensures RecordsSpec(records, cast).value[k].meta == records[k].meta
  {
    LoadSlots(records, cast, k);
  }

  /** A record with "i" and "q" of one length holds their cast samples and exactly its own meta dict. */
  lemma FilledSlot(records: seq<Record>, cast: real -> real, k: nat)
    requires RecordsSpec(records, cast).Ok? && k < |records|
    requires records[k].i.Some? && records[k].q.Some? && |records[k].i.value| == |records[k].q.value|
    ensures |RecordsSpec(records, cast).value[k].data| == |records[k].i.value|
    ensures forall j :: 0 <= j < |records[k].i.value| ==>
              RecordsSpec(records, cast).value[k].data[j] == Complex(cast(records[k].i.value[j]), cast(records[k].q.value[j]))
    ensures RecordsSpec(records, cast).value[k].meta == records[k].meta
  {
    LoadSlots(records, cast, k);
  }

  /**
   * load_in_chunks fails exactly when load fails or some storage is shorter
   * than offset + samples; for a non-negative offset and count every
   * storage then holds `samples` samples read from `offset`, and its meta.
   */
  lemma ChunkContents(slots: seq<StorageValue>, samples: int, offset: int)
    ensures Chunks(slots, samples, offset).Err? <==> exists k :: 0 <= k < |slots| && offset + samples > |slots[k].data|
    ensures Chunks(slots, samples, offset).Ok? ==> |Chunks(slots, samples, offset).value| == |slots|
    ensures Chunks(slots, samples, offset).Ok? && 0 <= offset && 0 <= samples ==>
              forall k :: 0 <= k < |slots| ==>
                Chunks(slots, samples, offset).value[k] == StorageValue(slots[k].data[offset..offset + samples], slots[k].meta)
  {
  }

  /** A negative offset whose chunk ends at or before index 0 yields no samples: the slice stop is 0 or counts from the end. */
  lemma NegativeOffsetChunk(slots: seq<StorageValue>, samples: int, offset: int, k: nat)
    requires Chunks(slots, samples, offset).Ok? && k < |slots|
    requires offset < 0 && offset + samples == 0
    ensures Chunks(slots, samples, offset).value[k].data == []
  {
  }

  /** load_meta keeps every storage's meta and count and drops every sample. */
  lemma MetaOnly(entry: Entry, cast: real -> real)
    ensures LoadMetaSpec(entry, cast).Err? <==> LoadSpec(entry, cast).Err?
    ensures LoadMetaSpec(entry, cast).Ok? ==> |LoadMetaSpec(entry, cast).value| == |LoadSpec(entry, cast).value|
    ensures LoadMetaSpec(entry, cast).Ok? ==> forall k :: 0 <= k < |LoadSpec(entry, cast).value| ==>
              LoadMetaSpec(entry, cast).value[k].data == [] &&
              LoadMetaSpec(entry, cast).value[k].meta == LoadSpec(entry, cast).value[k].meta
  {
  }
}
