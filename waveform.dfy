/**
 * The user-facing classes RsWaveform, Iqw and IqTar: a load class and a
 * save class chosen at construction, and the parent storage the last load
 * left. Construction with a file dispatches to one of the loader's three
 * entry points; `data[i]` and `meta[i]` read and write one storage of the
 * parent.
 *
 * The load and save classes are any subclasses of the two interfaces, so
 * what the chosen loader returns, or raises, is given to each load
 * operation as its outcome, and a save is modelled as the call it hands to
 * the saver.
 */
module Waveforms {
  import opened Wrappers
  import opened Dates
  import opened Values
  import opened Metadata
  import opened Storages

  /** Which of the three classes: RsWaveform itself, or one of its two subclasses. */
  datatype Kind = Generic | IqwKind | IqTarKind

  /** The file argument: absent, a path given as text, or a path object or open stream. */
  datatype FileArg = NoFile | PathText(s: string) | Handle

  /** `if file:`, the test the constructor makes: None and the empty string are false. */
  predicate Given(file: FileArg)
  {
    match file
    case NoFile => false
    case PathText(s) => s != ""
    case Handle => true
  }

  /** The loader entry point the constructor calls. */
  datatype Call = LoadAll | LoadChunk(samples: int, offset: int) | LoadMetaOnly

  /**
   * The constructor's dispatch: nothing without a file; load_meta when only
   * meta data is asked for; load when neither chunk argument is given;
   * load_in_chunks when both are; ValueError when just one is.
   */
  function Dispatch(file: FileArg, samples: Option<int>, offset: Option<int>, onlyMeta: bool): Result<Option<Call>>
  {
    if !Given(file) then Ok(None)
    else if onlyMeta then Ok(Some(LoadMetaOnly))
    else if samples.None? && offset.None? then Ok(Some(LoadAll))
    else if samples.Some? && offset.Some? then Ok(Some(LoadChunk(samples.value, offset.value)))
    else Err(ValueError(OffsetWithoutCount))
  }

  /** The only_meta_data flag each class passes on: Iqw has none and passes False. */
  function MetaFlag(kind: Kind, onlyMeta: bool): bool
  {
    kind != IqwKind && onlyMeta
  }

  /** The scale save uses when none is given: 2**15 for RsWaveform, 1.0 for Iqw and IqTar. */
  function DefaultScale(kind: Kind): (r: real)
    ensures r > 0.0
  {
    if kind == Generic then 32768.0 else 1.0
  }

  /** The key of `data[key]` or `meta[key]`: an integer, or anything else. */
  datatype Key = IntKey(i: int) | OtherKey

  /**
   * The list index a key selects among n storages: ValueError for a key
   * that is not an integer, then Python list indexing, where a negative
   * index counts from the end and anything else out of range is an
   * IndexError.
   */
  function ItemIndex(key: Key, n: nat): (r: Result<nat>)
  {
    match key
    case OtherKey => Err(ValueError(IndexNotInteger))
    case IntKey(i) =>
      if 0 <= i < n then Ok(i)
      else if -(n as int) <= i < 0 then Ok(i + n)
      else Err(IndexError)
  }

  /** The arguments the facade hands to saver.save(file, parent, scale). */
  datatype SaveCall = SaveCall(parent: ParentStorage, scale: real)

  class Waveform {
    const kind: Kind
    var parent: ParentStorage

    /** The state every constructor and load leaves: the one the loader returned, or a fresh default. */
    constructor (kind: Kind, parent: ParentStorage)
      ensures this.kind == kind && this.parent == parent
    {
      this.kind := kind;
      this.parent := parent;
    }

    /** load(file): the parent storage is replaced by whatever the loader returns; a raise changes nothing. */
    method Load(loaded: Result<ParentStorage>) returns (r: Result<()>)
      modifies this
      ensures r.Err? <==> loaded.Err?
      ensures r.Err? ==> r.error == loaded.error && parent == old(parent)
      ensures r.Ok? ==> parent == loaded.value
    {
      if loaded.Err? {
        return Err(loaded.error);
      }
      parent := loaded.value;
      r := Ok(());
    }

    /** save(file, scale): the saver is handed this parent and the given scale, or the class's default. */
    method Save(scale: Option<real>) returns (call: SaveCall)
      ensures call.parent == parent
      ensures call.scale == scale.GetOr(DefaultScale(kind))
    {
      call := SaveCall(parent, scale.GetOr(DefaultScale(kind)));
    }

    /** tobytes(): save into an in-memory buffer, with the class's default scale. */
    method ToBytes() returns (call: SaveCall)
      ensures call == SaveCall(parent, DefaultScale(kind))
    {
      call := Save(None);
    }

    /** The filename property: that of the parent storage. */
    function Filename(): string
      reads this, parent
    {
      parent.filename
    }

    /** The filename setter: the parent's file name, nothing else. */
    method SetFilename(name: string)
      modifies parent
      ensures parent.filename == name && parent.storages == old(parent.storages)
    {
      parent.SetFilename(name);
    }

    /** data[key]: the samples of the selected storage. */
    method GetData(key: Key) returns (r: Result<seq<Complex>>)
      ensures ItemIndex(key, |parent.storages|).Err? ==> r == Err(ItemIndex(key, |parent.storages|).error)
      ensures ItemIndex(key, |parent.storages|).Ok? ==> r == Ok(parent.storages[ItemIndex(key, |parent.storages|).value].data)
    {
      var idx := ItemIndex(key, |parent.storages|);
      if idx.Err? {
        return Err(idx.error);
      }
      r := Ok(parent.storages[idx.value].data);
    }

    /** meta[key]: the Meta of the selected storage, the object itself. */
    method GetMeta(key: Key) returns (r: Result<Meta>)
      ensures ItemIndex(key, |parent.storages|).Err? ==> r == Err(ItemIndex(key, |parent.storages|).error)
      ensures ItemIndex(key, |parent.storages|).Ok? ==> r == Ok(parent.storages[ItemIndex(key, |parent.storages|).value].meta)
    {
      var idx := ItemIndex(key, |parent.storages|);
      if idx.Err? {
        return Err(idx.error);
      }
      r := Ok(parent.storages[idx.value].meta);
    }

    /**
     * data[key] = d: the selected storage object's samples replaced. Every
     * other storage keeps its samples unless the list holds that same
     * object at another index too.
     */
    method SetData(key: Key, d: seq<Complex>) returns (r: Result<()>)
      modifies parent.storages
      ensures r.Err? <==> ItemIndex(key, |parent.storages|).Err?
      ensures r.Err? ==> r.error == ItemIndex(key, |parent.storages|).error
      ensures forall k :: 0 <= k < |parent.storages| ==> parent.storages[k].meta == old(parent.storages[k].meta)
      ensures r.Ok? ==> parent.storages[ItemIndex(key, |parent.storages|).value].data == d
      ensures r.Ok? && parent.Distinct() ==> forall k :: 0 <= k < |parent.storages| && k != ItemIndex(key, |parent.storages|).value ==>
                parent.storages[k].data == old(parent.storages[k].data)
      ensures r.Err? ==> forall k :: 0 <= k < |parent.storages| ==> parent.storages[k].data == old(parent.storages[k].data)
    {
      var idx := ItemIndex(key, |parent.storages|);
      if idx.Err? {
        return Err(idx.error);
      }
      parent.storages[idx.value].data := d;
      r := Ok(());
    }

    /** meta[key] = m: the selected storage object's Meta replaced by `m` itself. */
    method SetMeta(key: Key, m: Meta) returns (r: Result<()>)
      modifies parent.storages
      ensures r.Err? <==> ItemIndex(key, |parent.storages|).Err?
      ensures r.Err? ==> r.error == ItemIndex(key, |parent.storages|).error
      ensures forall k :: 0 <= k < |parent.storages| ==> parent.storages[k].data == old(parent.storages[k].data)
      ensures r.Ok? ==> parent.storages[ItemIndex(key, |parent.storages|).value].meta == m
      ensures r.Ok? && parent.Distinct() ==> forall k :: 0 <= k < |parent.storages| && k != ItemIndex(key, |parent.storages|).value ==>
                parent.storages[k].meta == old(parent.storages[k].meta)
      ensures r.Err? ==> forall k :: 0 <= k < |parent.storages| ==> parent.storages[k].meta == old(parent.storages[k].meta)
    {
      var idx := ItemIndex(key, |parent.storages|);
      if idx.Err? {
        return Err(idx.error);
      }
      parent.storages[idx.value].meta := m;
      r := Ok(());
    }
  }

  /**
   * RsWaveform(load, save, file, nr_samples, samples_offset,
   * only_meta_data), or Iqw(...) / IqTar(...): ValueError unless the load
   * and save classes subclass the interfaces; then a fresh one-storage
   * ParentStorage, replaced by the loader's result when the dispatch calls
   * the loader. `loaded` is what that call returns or raises.
   */
  method Create(kind: Kind, isLoader: bool, isSaver: bool, file: FileArg, samples: Option<int>, offset: Option<int>,
                onlyMeta: bool, loaded: Result<ParentStorage>, now: ValidDateTime)
    returns (r: Result<Waveform>)
    ensures !isLoader ==> r == Err(ValueError(NotALoader))
    ensures isLoader && !isSaver ==> r == Err(ValueError(NotASaver))
    ensures isLoader && isSaver && Dispatch(file, samples, offset, MetaFlag(kind, onlyMeta)).Err? ==>
              r == Err(Dispatch(file, samples, offset, MetaFlag(kind, onlyMeta)).error)
    ensures isLoader && isSaver && Dispatch(file, samples, offset, MetaFlag(kind, onlyMeta)) == Ok(None) ==>
              r.Ok? && fresh(r.value) && fresh(r.value.parent) && |r.value.parent.storages| == 1 && r.value.parent.filename == "" &&
              r.value.parent.storages[0].Value() == DefaultStorage(Lower, false)
    ensures isLoader && isSaver && Dispatch(file, samples, offset, MetaFlag(kind, onlyMeta)).Ok? &&
            Dispatch(file, samples, offset, MetaFlag(kind, onlyMeta)).value.Some? ==>
              (r.Err? <==> loaded.Err?) && (r.Err? ==> r.error == loaded.error) &&
              (r.Ok? ==> fresh(r.value) && r.value.parent == loaded.value)
    ensures r.Ok? ==> r.value.kind == kind
  {
    if !isLoader {
      return Err(ValueError(NotALoader));
    }
    if !isSaver {
      return Err(ValueError(NotASaver));
    }
    var made := NewParentStorage(Lower, 1, false, now);
    var w := new Waveform(kind, made.value);
    var call := Dispatch(file, samples, offset, MetaFlag(kind, onlyMeta));
    if call.Err? {
      return Err(call.error);
    }
    if call.value.Some? {
      var done := w.Load(loaded);
      if done.Err? {
        return Err(done.error);
      }
    }
    r := Ok(w);
  }

  // ----- lemmas -----

  /**
   * The dispatch raises exactly when a file is given, meta-only is not
   * asked for, and just one of the two chunk arguments is given.
   */
  lemma DispatchFails(file: FileArg, samples: Option<int>, offset: Option<int>, onlyMeta: bool)
    ensures Dispatch(file, samples, offset, onlyMeta).Err? <==> Given(file) && !onlyMeta && (samples.Some? != offset.Some?)
    ensures Dispatch(file, samples, offset, onlyMeta).Err? ==> Dispatch(file, samples, offset, onlyMeta).error == ValueError(OffsetWithoutCount)
  {
  }

  /** The loader is called exactly when the file is given, and meta-only wins over any chunk arguments. */
  lemma DispatchCalls(file: FileArg, samples: Option<int>, offset: Option<int>, onlyMeta: bool)
    ensures Dispatch(file, samples, offset, onlyMeta) == Ok(None) <==> !Given(file)
    ensures Given(file) && onlyMeta ==> Dispatch(file, samples, offset, onlyMeta) == Ok(Some(LoadMetaOnly))
    ensures Given(file) && !onlyMeta && samples.None? && offset.None? ==> Dispatch(file, samples, offset, onlyMeta) == Ok(Some(LoadAll))
    ensures Given(file) && !onlyMeta && samples.Some? && offset.Some? ==>
              Dispatch(file, samples, offset, onlyMeta) == Ok(Some(LoadChunk(samples.value, offset.value)))
  {
  }

  /** An Iqw is never built through load_meta, whatever is asked. */
  lemma IqwNeverMetaOnly(file: FileArg, samples: Option<int>, offset: Option<int>, onlyMeta: bool)
    ensures Dispatch(file, samples, offset, MetaFlag(IqwKind, onlyMeta)) != Ok(Some(LoadMetaOnly))
  {
  }

  /** An empty path string counts as no file: nothing is loaded. */
  lemma EmptyPathLoadsNothing(samples: Option<int>, offset: Option<int>, onlyMeta: bool)
    ensures Dispatch(PathText(""), samples, offset, onlyMeta) == Ok(None)
  {
  }

  /**
   * An index is accepted exactly when it is an integer in [-n, n); it
   * then names a storage, counting from the end when negative.
   */
  lemma ItemIndexRange(key: Key, n: nat)
    ensures ItemIndex(key, n).Ok? <==> key.IntKey? && -(n as int) <= key.i < n
    ensures ItemIndex(key, n).Ok? ==> ItemIndex(key, n).value < n
    ensures ItemIndex(key, n).Ok? ==> ItemIndex(key, n).value == if key.i >= 0 then key.i else key.i + n
    ensures key.OtherKey? ==> ItemIndex(key, n) == Err(ValueError(IndexNotInteger))
    ensures key.IntKey? && !(-(n as int) <= key.i < n) ==> ItemIndex(key, n) == Err(IndexError)
  {
  }

  /** Index i and index i - n name the same storage. */
  lemma NegativeIndexAlias(i: int, n: nat)
    requires 0 <= i < n
    ensures ItemIndex(IntKey(i - n), n) == ItemIndex(IntKey(i), n)
  {
  }
}
