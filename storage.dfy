/**
 * The containers a loader fills and a saver reads: a Storage holds one
 * segment's complex samples and its Meta; a ParentStorage holds the list of
 * storages of one file, its file name and its creation time.
 *
 * The repository has two editions of each class. The lower-case modules
 * (storage.py, parent_storage.py) default to 1024 zero samples and pass a
 * no_defaults flag to Meta; the upper-case ones (Storage.py,
 * ParentStorage.py) default to no samples and always fill Meta's defaults.
 */
module Storages {
  import opened Wrappers
  import opened Text
  import opened Dates
  import opened Values
  import Dicts
  import opened Metadata

  datatype Edition = Lower | Upper

  /** The object dictionary a serialised storage restores: its samples and its meta items. */
  datatype Serialized = Serialized(data: seq<Complex>, meta: Dicts.Items<Value>)

  /** A storage as a value: samples and meta items. */
  datatype StorageValue = StorageValue(data: seq<Complex>, meta: Dicts.Items<Value>)

  /** A parent storage as a value: its storages in order and its file name. */
  datatype ParentValue = ParentValue(storages: seq<StorageValue>, filename: string)

  /** The samples a new storage starts with. */
  function DefaultData(edition: Edition): (r: seq<Complex>)
    ensures |r| == if edition == Lower then 1024 else 0
    ensures forall i :: 0 <= i < |r| ==> r[i] == Complex(0.0, 0.0)
  {
    if edition == Lower then seq(1024, _ => Complex(0.0, 0.0)) else []
  }

  /** The meta items of a new storage: those of Meta(no_defaults=...) with no keyword arguments. */
  function DefaultMeta(noDefaults: bool): Dicts.Items<Value>
  {
    if noDefaults then [] else CombinedDefaults
  }

  /** A storage as a fresh constructor leaves it. */
  function DefaultStorage(edition: Edition, noDefaults: bool): StorageValue
  {
    StorageValue(DefaultData(edition), DefaultMeta(noDefaults))
  }

  class Storage {
    var data: seq<Complex>
    var meta: Meta

    /**
     * Storage(serialized, no_defaults): restored from the serialised object
     * dictionary when one is given, otherwise the edition's default samples
     * and a new Meta. The upper-case edition has no no_defaults parameter.
     */
    constructor (edition: Edition, serialized: Option<Serialized>, noDefaults: bool)
      requires edition == Upper ==> !noDefaults
      requires serialized.Some? ==> Dicts.DistinctKeys(serialized.value.meta) && !Dicts.HasKey(serialized.value.meta, "no_defaults")
      ensures fresh(meta) && meta.Valid()
      ensures serialized.None? ==> data == DefaultData(edition) && meta.kind == Combined && meta.items == DefaultMeta(noDefaults)
      ensures serialized.Some? ==> data == serialized.value.data && meta.items == serialized.value.meta
    {
      match serialized
      case Some(s) =>
        data := s.data;
        meta := new Meta(Combined, true, s.meta);
        NoDefaultsItems(Combined, s.meta);
      case None =>
        data := DefaultData(edition);
        meta := new Meta(Combined, noDefaults, []);
        CombinedDefaultItems(noDefaults);
    }

    /** The samples property: the number of samples held. */
    function Samples(): (n: nat)
      reads this
      ensures n == |data|
    {
      |data|
    }

    function Value(): StorageValue
      reads this, meta
    {
      StorageValue(data, meta.items)
    }
  }

  class ParentStorage {
    const edition: Edition
    var storages: seq<Storage>
    var filename: string
    const timestamp: ValidDateTime

    /** The storages are distinct objects, so writing one leaves the others alone. */
    ghost predicate Distinct()
      reads this
    {
      forall i, j :: 0 <= i < j < |storages| ==> storages[i] != storages[j]
    }

    function Snapshot(): ParentValue
      reads this, storages, set i | 0 <= i < |storages| :: storages[i].meta
    {
      ParentValue(seq(|storages|, i requires 0 <= i < |storages| reads this, storages, set j | 0 <= j < |storages| :: storages[j].meta =>
                                   StorageValue(storages[i].data, storages[i].meta.items)),
                  filename)
    }

    /** The list part of ParentStorage(n): `n` new storages, an empty file name, the time `now`. */
    constructor (edition: Edition, n: nat, noDefaults: bool, now: ValidDateTime)
      requires edition == Upper ==> !noDefaults
      ensures this.edition == edition && timestamp == now && filename == ""
      ensures |storages| == n && Distinct()
      ensures forall i :: 0 <= i < n ==> fresh(storages[i])
      ensures forall i :: 0 <= i < n ==> storages[i].Value() == DefaultStorage(edition, noDefaults)
    {
      this.edition := edition;
      timestamp := now;
      filename := "";
      var made := NewStorages(edition, n, noDefaults);
      storages := made;
      new;
    }

    /** number_of_storages(). */
    function NumberOfStorages(): (n: nat)
      reads this
      ensures n == |Snapshot().storages|
    {
      |storages|
    }

    /** add_storage(s): appended last, the others untouched. */
    method AddStorage(s: Storage)
      modifies this
      ensures storages == old(storages) + [s] && filename == old(filename)
    {
      storages := storages + [s];
    }

    /** The storages setter: the list is replaced as it is, even by an empty one. */
    method SetStorages(ss: seq<Storage>)
      modifies this
      ensures storages == ss && filename == old(filename)
    {
      storages := ss;
    }

    /** The filename setter. */
    method SetFilename(name: string)
      modifies this
      ensures filename == name && storages == old(storages)
    {
      filename := name;
    }
  }

  /** The list comprehension of ParentStorage(n): `n` new storages. */
  method NewStorages(edition: Edition, n: nat, noDefaults: bool) returns (made: seq<Storage>)
    requires edition == Upper ==> !noDefaults
    ensures |made| == n
    ensures forall i :: 0 <= i < n ==> fresh(made[i])
    ensures forall i :: 0 <= i < n ==> made[i].Value() == DefaultStorage(edition, noDefaults)
    ensures forall i, j :: 0 <= i < j < n ==> made[i] != made[j]
  {
    made := [];
    while |made| < n
      invariant |made| <= n
      invariant forall i :: 0 <= i < |made| ==> fresh(made[i])
      invariant forall i :: 0 <= i < |made| ==> made[i].Value() == DefaultStorage(edition, noDefaults)
      invariant forall i, j :: 0 <= i < j < |made| ==> made[i] != made[j]
    {
      var s := new Storage(edition, None, noDefaults);
      made := made + [s];
    }
  }

  /**
   * ParentStorage(number_of_storages, no_defaults): ValueError unless the
   * count is positive.
   */
  method NewParentStorage(edition: Edition, n: int, noDefaults: bool, now: ValidDateTime) returns (r: Result<ParentStorage>)
    requires edition == Upper ==> !noDefaults
    ensures r.Err? <==> n <= 0
    ensures r.Err? ==> r.error == ValueError(StorageCountNotPositive)
    ensures r.Ok? ==> fresh(r.value) && r.value.edition == edition && r.value.timestamp == now && r.value.Distinct()
    ensures r.Ok? ==> forall i :: 0 <= i < |r.value.storages| ==> fresh(r.value.storages[i])
    ensures r.Ok? ==> |r.value.storages| == n && r.value.filename == ""
    ensures r.Ok? ==> forall i :: 0 <= i < n ==> r.value.storages[i].Value() == DefaultStorage(edition, noDefaults)
  {
    if n <= 0 {
      r := Err(ValueError(StorageCountNotPositive));
    } else {
      var p := new ParentStorage(edition, n, noDefaults, now);
      r := Ok(p);
    }
  }

  // ----- serialised date-times -----

  /** encode_datetime: a date-time becomes a tagged dict with its "%Y%m%dT%H:%M:%S.%f" text; other values pass. */
  function EncodeDatetime(v: Value): (r: Value)
    ensures !v.PyDate? ==> r == v
    ensures v.PyDate? ==> r.PyDict? && Dicts.HasKey(r.entries, "__datetime__")
  {
    match v
    case PyDate(d) => PyDict([("__datetime__", PyBool(true)), ("as_str", PyStr(Format(d, StampLayout)))])
    case _ => v
  }

  /**
   * decode_datetime, the hook applied to every restored dict: a dict with a
   * "__datetime__" key becomes the date-time its "as_str" text names;
   * other dicts pass unchanged.
   */
  function DecodeDatetime(obj: Dicts.Items<Value>): (r: Result<Value>)
    ensures !Dicts.HasKey(obj, "__datetime__") ==> r == Ok(PyDict(obj))
  {
    if !Dicts.HasKey(obj, "__datetime__") then Ok(PyDict(obj))
    else
      var text := Dicts.Get(obj, "as_str");
      if text.None? then Err(KeyError("as_str"))
      else if !text.value.PyStr? then Err(TypeError)
      else match Parse(text.value.s, StampLayout)
        case Ok(d) => Ok(PyDate(d))
        case Err(e) => Err(e)
  }

  /** decode(encode(d)) == d for every date-time; encode changes no other value. */
  lemma DecodeEncodeDatetime(v: Value)
    ensures v.PyDate? ==> DecodeDatetime(EncodeDatetime(v).entries) == Ok(v)
    ensures !v.PyDate? ==> EncodeDatetime(v) == v
  {
    if v.PyDate? {
      var e := EncodeDatetime(v).entries;
      assert Dicts.IndexOf(e, "__datetime__") == Some(0);
      assert Dicts.IndexOf(e, "as_str") == Some(1);
      ParseStampFormat(v.d);
    }
  }
}
