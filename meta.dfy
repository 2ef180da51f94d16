/**
 * The metadata record every storage carries: a mutable, insertion-ordered
 * dictionary from names to Python values, with typed accessors for the
 * fields the WV and iq.tar formats know. MetaWv and MetaIqtar fill their
 * own default tables under the caller's keyword arguments; Meta runs both
 * initialisations, one after the other, over the same dictionary.
 */
module Metadata {
  import opened Wrappers
  import opened Values
  import Dicts

  /** MetaWv, MetaIqtar, or Meta, which inherits from both. */
  datatype Kind = Wv | Iqtar | Combined

  /** The properties: comment and clock are shared, the others belong to one format. */
  datatype Property = Comment | Clock | Type | Copyright | ControlList | ControlLength | Rms | Peak
                    | CenterFrequency | ScalingFactor

  /** The dictionary key a property reads and writes. */
  function KeyOf(p: Property): string
  {
    match p
    case Comment => "comment"
    case Clock => "clock"
    case Type => "type"
    case Copyright => "copyright"
    case ControlList => "control_list"
    case ControlLength => "control_length"
    case Rms => "rms"
    case Peak => "peak"
    case CenterFrequency => "center_frequency"
    case ScalingFactor => "scalingfactor"
  }

  /** Whether instances of the kind have the property (the marker property is WV only). */
  predicate HasProperty(kind: Kind, p: Property)
  {
    match p
    case Comment | Clock => true
    case CenterFrequency | ScalingFactor => kind != Wv
    case _ => kind != Iqtar
  }

  /** Distinct properties are distinct keys, so each accessor is a view of its own key. */
  lemma KeyOfInjective(p: Property, q: Property)
    ensures KeyOf(p) == KeyOf(q) <==> p == q
  {
  }

  const DefaultType: Value := PyTuple([PyStr("SMU-WV"), PyInt(0)])
  const DefaultCopyright: Value := PyStr("Rohde & Schwarz")
  const DefaultComment: Value := PyStr("Created with RsWaveform")

  const WvDefaults: Dicts.Items<Value> := [
    ("type", DefaultType),
    ("copyright", DefaultCopyright),
    ("comment", DefaultComment),
    ("clock", PyFloat(1000000000.0)),
    ("marker", PyDict([])),
    ("control_length", PyNone),
    ("control_list", PyNone),
    ("rms", PyNone),
    ("peak", PyNone)
  ]

  const IqtarDefaults: Dicts.Items<Value> := [
    ("center_frequency", PyFloat(1000000000.0)),
    ("comment", PyStr("Created with RsWaveform")),
    ("clock", PyFloat(1000000000.0)),
    ("scalingfactor", PyInt(1))
  ]

  /** What Meta() holds: the WV table, then the two iq.tar keys the WV table lacks. */
  const CombinedDefaults: Dicts.Items<Value> :=
    WvDefaults + [("center_frequency", PyFloat(1000000000.0)), ("scalingfactor", PyInt(1))]

  /** A dict whose values are all well-formed Python values. */
  predicate AllWellFormed(d: Dicts.Items<Value>)
  {
    forall i :: 0 <= i < |d| ==> WellFormed(d[i].1)
  }

  /** A Python dict of Python values. */
  predicate IsDict(d: Dicts.Items<Value>)
  {
    Dicts.DistinctKeys(d) && AllWellFormed(d)
  }

  /** One format's initialiser: its default table (or nothing) updated with the keyword arguments. */
  function Layer(defaults: Dicts.Items<Value>, noDefaults: bool, kwargs: Dicts.Items<Value>): Dicts.Items<Value>
  {
    Dicts.UpdateAll(if noDefaults then [] else defaults, kwargs)
  }

  /** The items after construction: the WV step, then the iq.tar step over the same dictionary. */
  function InitialItems(kind: Kind, noDefaults: bool, kwargs: Dicts.Items<Value>): Dicts.Items<Value>
  {
    var afterWv := if kind != Iqtar then Dicts.UpdateAll([], Layer(WvDefaults, noDefaults, kwargs)) else [];
    if kind != Wv then Dicts.UpdateAll(afterWv, Layer(IqtarDefaults, noDefaults, kwargs)) else afterWv
  }

  /** The default a kind falls back on for a key the arguments do not give. */
  function DefaultFor(kind: Kind, key: string): Option<Value>
  {
    match kind
    case Wv => Dicts.Get(WvDefaults, key)
    case Iqtar => Dicts.Get(IqtarDefaults, key)
    case Combined => if Dicts.HasKey(IqtarDefaults, key) then Dicts.Get(IqtarDefaults, key) else Dicts.Get(WvDefaults, key)
  }

  class Meta {
    const kind: Kind
    var items: Dicts.Items<Value>

    ghost predicate Valid()
      reads this
    {
      Dicts.DistinctKeys(items)
    }

    /** Meta(no_defaults, **kwargs), MetaWv(...) or MetaIqtar(...), as `kind` says. */
    constructor (kind: Kind, noDefaults: bool, kwargs: Dicts.Items<Value>)
      requires Dicts.DistinctKeys(kwargs) && !Dicts.HasKey(kwargs, "no_defaults")
      ensures Valid() && this.kind == kind
      ensures items == InitialItems(kind, noDefaults, kwargs)
    {
      this.kind := kind;
      items := [];
      new;
      DefaultsAreDicts();
      UpdateAllDistinct(if noDefaults then [] else WvDefaults, kwargs);
      UpdateAllDistinct(if noDefaults then [] else IqtarDefaults, kwargs);
      if kind != Iqtar {
        Absorb(Layer(WvDefaults, noDefaults, kwargs));
      }
      if kind != Wv {
        Absorb(Layer(IqtarDefaults, noDefaults, kwargs));
      }
    }

    /** MetaBase.__init__: every pair of `values` assigned in turn, existing items kept. */
    method Absorb(values: Dicts.Items<Value>)
      requires Valid() && Dicts.DistinctKeys(values)
      modifies this
      ensures Valid()
      ensures items == Dicts.UpdateAll(old(items), values)
    {
      var i := 0;
      while i < |values|
        invariant 0 <= i <= |values|
        invariant Dicts.DistinctKeys(items)
        invariant Dicts.UpdateAll(items, values[i..]) == Dicts.UpdateAll(old(items), values)
      {
        assert values[i..][1..] == values[i + 1..];
        Dicts.SetKeys(items, values[i].0, values[i].1);
        items := Dicts.Set(items, values[i].0, values[i].1);
        i := i + 1;
      }
      assert values[i..] == [];
    }

    /** meta[key]: KeyError when absent. */
    method GetItem(key: string) returns (r: Result<Value>)
      ensures r.Ok? <==> Dicts.HasKey(items, key)
      ensures r.Ok? ==> Dicts.Get(items, key) == Some(r.value)
      ensures r.Err? ==> r.error == KeyError(key)
    {
      match Dicts.IndexOf(items, key)
      case None => r := Err(KeyError(key));
      case Some(i) => r := Ok(items[i].1);
    }

    /** meta.get(key, default). */
    method Get(key: string, default: Value) returns (r: Value)
      ensures Dicts.HasKey(items, key) ==> Dicts.Get(items, key) == Some(r)
      ensures !Dicts.HasKey(items, key) ==> r == default
    {
      match Dicts.IndexOf(items, key)
      case None => r := default;
      case Some(i) => r := items[i].1;
    }

    /** meta[key] = value. */
    method SetItem(key: string, value: Value)
      requires Valid()
      modifies this
      ensures Valid()
      ensures items == Dicts.Set(old(items), key, value)
    {
      Dicts.SetKeys(items, key, value);
      items := Dicts.Set(items, key, value);
    }

    /** del meta[key]: KeyError when absent. */
    method DelItem(key: string) returns (r: Result<()>)
      requires Valid()
      modifies this
      ensures Valid()
      ensures r.Ok? <==> Dicts.HasKey(old(items), key)
      ensures r.Err? ==> r.error == KeyError(key) && items == old(items)
      ensures r.Ok? ==> items == Dicts.Remove(old(items), key)
    {
      if Dicts.HasKey(items, key) {
        Dicts.RemoveKeys(items, key);
        items := Dicts.Remove(items, key);
        r := Ok(());
      } else {
        r := Err(KeyError(key));
      }
    }

    /** key in meta. */
    method Contains(key: string) returns (b: bool)
      ensures b <==> Dicts.HasKey(items, key)
    {
      b := Dicts.IndexOf(items, key).Some?;
    }

    /** len(meta). */
    method Len() returns (n: nat)
      ensures n == |Dicts.Keys(items)|
    {
      n := |items|;
    }

    /** meta.pop(key, default): the value removed, or the default with nothing changed. */
    method Pop(key: string, default: Value) returns (r: Value)
      requires Valid()
      modifies this
      ensures Valid()
      ensures r == Dicts.Get(old(items), key).GetOr(default)
      ensures items == Dicts.Remove(old(items), key)
    {
      Dicts.RemoveKeys(items, key);
      r := Dicts.Get(items, key).GetOr(default);
      items := Dicts.Remove(items, key);
    }

    /** meta.popitem(): the last inserted pair, KeyError when empty. */
    method PopItem() returns (r: Result<(string, Value)>)
      requires Valid()
      modifies this
      ensures Valid()
      ensures r.Err? <==> old(items) == []
      ensures r.Err? ==> r.error == KeyError("popitem(): dictionary is empty") && items == old(items)
      ensures r.Ok? ==> old(items) == items + [r.value]
    {
      if items == [] {
        r := Err(KeyError("popitem(): dictionary is empty"));
      } else {
        r := Ok(items[|items| - 1]);
        items := items[..|items| - 1];
      }
    }

    /** meta.clear(). */
    method Clear()
      modifies this
      ensures items == []
    {
      items := [];
    }

    /** meta.setdefault(key, default): inserts only when absent, returns what is stored. */
    method SetDefault(key: string, default: Value) returns (r: Value)
      requires Valid()
      modifies this
      ensures Valid()
      ensures Dicts.HasKey(old(items), key) ==> items == old(items) && Some(r) == Dicts.Get(items, key)
      ensures !Dicts.HasKey(old(items), key) ==> items == old(items) + [(key, default)] && r == default
    {
      match Dicts.IndexOf(items, key)
      case Some(i) =>
        r := items[i].1;
      case None =>
        Dicts.SetKeys(items, key, default);
        items := items + [(key, default)];
        r := default;
    }

    /** meta.update(other). */
    method Update(other: Dicts.Items<Value>)
      requires Valid() && Dicts.DistinctKeys(other)
      modifies this
      ensures Valid()
      ensures items == Dicts.UpdateAll(old(items), other)
    {
      Absorb(other);
    }

    /**
     * meta.copy(): a new instance of the same class built from the items with
     * no_defaults=True. The keyword argument takes the place of an item of
     * that name, so such an item is not copied.
     */
    method Copy() returns (c: Meta)
      requires Valid()
      ensures fresh(c) && c.Valid() && c.kind == kind
      ensures c.items == Dicts.Remove(items, "no_defaults")
    {
      var kwargs := Dicts.Remove(items, "no_defaults");
      Dicts.RemoveKeys(items, "no_defaults");
      c := new Meta(kind, true, kwargs);
      NoDefaultsItems(kind, kwargs);
    }

    /** meta == other Meta: the items are equal as dicts. */
    method Equals(other: Meta) returns (b: bool)
      ensures b <==> DictEq(items, other.items)
    {
      b := DictEq(items, other.items);
    }

    /** meta == a dict. */
    method EqualsDict(d: Dicts.Items<Value>) returns (b: bool)
      ensures b <==> DictEq(items, d)
    {
      b := DictEq(items, d);
    }

    /** meta != other Meta: the negation of ==. */
    method NotEquals(other: Meta) returns (b: bool)
      ensures b <==> !DictEq(items, other.items)
    {
      var eq := Equals(other);
      b := !eq;
    }

    /** A property's getter: the stored value, None when absent (nothing is inserted). */
    method GetProperty(p: Property) returns (r: Result<Value>)
      ensures r.Err? <==> !HasProperty(kind, p)
      ensures r.Err? ==> r.error == AttributeError
      ensures r.Ok? ==> r.value == Dicts.Get(items, KeyOf(p)).GetOr(PyNone)
    {
      if !HasProperty(kind, p) {
        r := Err(AttributeError);
      } else {
        var v := Get(KeyOf(p), PyNone);
        r := Ok(v);
      }
    }

    /** A property's setter: writes the property's key. */
    method SetProperty(p: Property, value: Value)
      requires Valid() && HasProperty(kind, p)
      modifies this
      ensures Valid()
      ensures items == Dicts.Set(old(items), KeyOf(p), value)
    {
      SetItem(KeyOf(p), value);
    }

    /** The marker getter: inserts an empty dict when the key is absent, then returns the stored value. */
    method Marker() returns (r: Result<Value>)
      requires Valid()
      modifies this
      ensures Valid()
      ensures r.Err? <==> kind == Iqtar
      ensures r.Err? ==> r.error == AttributeError && items == old(items)
      ensures r.Ok? && Dicts.HasKey(old(items), "marker") ==> items == old(items) && Dicts.Get(items, "marker") == Some(r.value)
      ensures r.Ok? && !Dicts.HasKey(old(items), "marker") ==> items == old(items) + [("marker", PyDict([]))] && r.value == PyDict([])
    {
      if kind == Iqtar {
        r := Err(AttributeError);
      } else {
        var v := SetDefault("marker", PyDict([]));
        r := Ok(v);
      }
    }
  }

  // ----- lemmas -----

  lemma DefaultsAreDicts()
    ensures Dicts.DistinctKeys(WvDefaults) && Dicts.DistinctKeys(IqtarDefaults)
  {
  }

  lemma {:induction false} UpdateAllDistinct(d: Dicts.Items<Value>, e: Dicts.Items<Value>)
    requires Dicts.DistinctKeys(d)
    ensures Dicts.DistinctKeys(Dicts.UpdateAll(d, e))
    decreases |e|
  {
    if e != [] {
      Dicts.SetKeys(d, e[0].0, e[0].1);
      UpdateAllDistinct(Dicts.Set(d, e[0].0, e[0].1), e[1..]);
    }
  }

  /** Assigning the pairs of a dict to a dict that already holds exactly those pairs changes nothing. */
  lemma {:induction false} UpdateAllSame(d: Dicts.Items<Value>, e: Dicts.Items<Value>)
    requires Dicts.DistinctKeys(d) && e <= d
    ensures Dicts.UpdateAll(d, e) == d
    decreases |e|
  {
    if e != [] {
      Dicts.IndexOfDistinct(d, 0);
      assert Dicts.Set(d, e[0].0, e[0].1) == d;
      UpdateAllPrefixSame(d, e, 1);
    }
  }

  lemma {:induction false} UpdateAllPrefixSame(d: Dicts.Items<Value>, e: Dicts.Items<Value>, n: nat)
    requires Dicts.DistinctKeys(d) && e <= d && n <= |e|
    ensures Dicts.UpdateAll(d, e[n..]) == d
    decreases |e| - n
  {
    if n < |e| {
      Dicts.IndexOfDistinct(d, n);
      assert d[n] == e[n];
      assert Dicts.Set(d, e[n].0, e[n].1) == d;
      assert e[n..][1..] == e[n + 1..];
      UpdateAllPrefixSame(d, e, n + 1);
    } else {
      assert e[n..] == [];
    }
  }

  /** Assigning the pairs of a dict with distinct keys to an empty dict rebuilds it. */
  lemma {:induction false} UpdateAllEmpty(e: Dicts.Items<Value>)
    requires Dicts.DistinctKeys(e)
    ensures Dicts.UpdateAll([], e) == e
  {
    UpdateAllBuilds(e, 0);
  }

  lemma {:induction false} UpdateAllBuilds(e: Dicts.Items<Value>, n: nat)
    requires Dicts.DistinctKeys(e) && n <= |e|
    ensures Dicts.UpdateAll(e[..n], e[n..]) == e
    decreases |e| - n
  {
    if n < |e| {
      var d := e[..n];
      assert Dicts.IndexOf(d, e[n].0).None? by {
        assert forall i :: 0 <= i < |d| ==> d[i].0 == e[i].0 != e[n].0;
      }
      assert Dicts.Set(d, e[n].0, e[n].1) == e[..n + 1];
      assert e[n..][1..] == e[n + 1..];
      UpdateAllBuilds(e, n + 1);
    } else {
      assert e[..n] == e && e[n..] == [];
    }
  }

  /** no_defaults=True: the items are exactly the keyword arguments, in their order, whatever the kind. */
  lemma NoDefaultsItems(kind: Kind, kwargs: Dicts.Items<Value>)
    requires Dicts.DistinctKeys(kwargs)
    ensures InitialItems(kind, true, kwargs) == kwargs
  {
    UpdateAllEmpty(kwargs);
    UpdateAllSame(kwargs, kwargs);
  }

  /** Every key reads as the keyword argument when one is given, otherwise as the kind's default. */
  lemma InitialItemsGet(kind: Kind, noDefaults: bool, kwargs: Dicts.Items<Value>, key: string)
    requires Dicts.DistinctKeys(kwargs)
    ensures Dicts.DistinctKeys(InitialItems(kind, noDefaults, kwargs))
    ensures Dicts.Get(InitialItems(kind, noDefaults, kwargs), key) ==
            if Dicts.HasKey(kwargs, key) then Dicts.Get(kwargs, key)
            else if noDefaults then None
            else DefaultFor(kind, key)
  {
    DefaultsAreDicts();
    var wv := Layer(WvDefaults, noDefaults, kwargs);
    var iq := Layer(IqtarDefaults, noDefaults, kwargs);
    var empty: Dicts.Items<Value> := [];
    LayerGet(WvDefaults, noDefaults, kwargs, key);
    LayerGet(IqtarDefaults, noDefaults, kwargs, key);
    Dicts.GetUpdateAll(empty, wv, key);
    var afterWv := if kind != Iqtar then Dicts.UpdateAll(empty, wv) else [];
    if kind != Wv {
      Dicts.GetUpdateAll(afterWv, iq, key);
    }
  }

  /** One format's step reads each key as the keyword argument, else as its table (unless no_defaults). */
  lemma LayerGet(defaults: Dicts.Items<Value>, noDefaults: bool, kwargs: Dicts.Items<Value>, key: string)
    requires Dicts.DistinctKeys(defaults) && Dicts.DistinctKeys(kwargs)
    ensures Dicts.DistinctKeys(Layer(defaults, noDefaults, kwargs))
    ensures Dicts.HasKey(Layer(defaults, noDefaults, kwargs), key) ==
            (Dicts.HasKey(kwargs, key) || (!noDefaults && Dicts.HasKey(defaults, key)))
    ensures Dicts.Get(Layer(defaults, noDefaults, kwargs), key) ==
            if Dicts.HasKey(kwargs, key) then Dicts.Get(kwargs, key)
            else if noDefaults then None
            else Dicts.Get(defaults, key)
  {
    var empty: Dicts.Items<Value> := [];
    Dicts.GetUpdateAll(if noDefaults then empty else defaults, kwargs, key);
  }

  /** Meta(): the WV keys come first and in their table's order, because the iq.tar step keeps existing items. */
  lemma CombinedKeepsWvKeys(kwargs: Dicts.Items<Value>)
    requires Dicts.DistinctKeys(kwargs)
    ensures |InitialItems(Combined, false, kwargs)| >= |WvDefaults|
    ensures Dicts.Keys(InitialItems(Combined, false, kwargs))[..|WvDefaults|] == Dicts.Keys(WvDefaults)
  {
    DefaultsAreDicts();
    var wv := Layer(WvDefaults, false, kwargs);
    var iq := Layer(IqtarDefaults, false, kwargs);
    Dicts.UpdateAllKeysPrefix(WvDefaults, kwargs);
    Dicts.GetUpdateAll(WvDefaults, kwargs, "");
    UpdateAllEmpty(wv);
    Dicts.UpdateAllKeysPrefix(wv, iq);
    KeysPrefixOfPrefix(Dicts.Keys(Dicts.UpdateAll(wv, iq)), Dicts.Keys(wv), Dicts.Keys(WvDefaults));
  }

  /**
   * Meta(no_defaults=...) without other arguments: nothing, or the WV
   * defaults in their order followed by center_frequency and scalingfactor;
   * the shared comment and clock keep their WV place and value.
   */
  lemma CombinedDefaultItems(noDefaults: bool)
    ensures InitialItems(Combined, noDefaults, []) == if noDefaults then [] else CombinedDefaults
  {
    var none: Dicts.Items<Value> := [];
    if noDefaults {
      NoDefaultsItems(Combined, none);
    } else {
      DefaultsAreDicts();
      LayerNoArguments(WvDefaults, noDefaults);
      LayerNoArguments(IqtarDefaults, noDefaults);
      UpdateAllEmpty(WvDefaults);
      DefaultTablesOverlap();
      UpdateAllAppendsTwo(WvDefaults, IqtarDefaults);
    }
  }

  lemma LayerNoArguments(defaults: Dicts.Items<Value>, noDefaults: bool)
    ensures Layer(defaults, noDefaults, []) == if noDefaults then [] else defaults
  {
  }

  /** The iq.tar table shares comment and clock, with equal values, at WV places 2 and 3. */
  lemma DefaultTablesOverlap()
    ensures |WvDefaults| >= 4 && |IqtarDefaults| == 4
    ensures forall i :: 0 <= i < |WvDefaults| ==> WvDefaults[i].0 != IqtarDefaults[0].0 && WvDefaults[i].0 != IqtarDefaults[3].0
    ensures IqtarDefaults[0].0 != IqtarDefaults[3].0
    ensures WvDefaults[2] == IqtarDefaults[1] && WvDefaults[3] == IqtarDefaults[2]
    ensures WvDefaults + [IqtarDefaults[0], IqtarDefaults[3]] == CombinedDefaults
  {
  }

  /**
   * Four assignments of which the middle two repeat pairs the dict holds at
   * 2 and 3 and the outer two bring new keys: the new pairs go last.
   */
  lemma UpdateAllAppendsTwo(d: Dicts.Items<Value>, e: Dicts.Items<Value>)
    requires Dicts.DistinctKeys(d) && |d| >= 4 && |e| == 4
    requires forall i :: 0 <= i < |d| ==> d[i].0 != e[0].0 && d[i].0 != e[3].0
    requires e[0].0 != e[3].0 && d[2] == e[1] && d[3] == e[2]
    ensures Dicts.UpdateAll(d, e) == d + [e[0], e[3]]
  {
    var s1 := d + [e[0]];
    PopItemAfterSet(d, e[0].0, e[0].1);
    Dicts.SetKeys(d, e[0].0, e[0].1);
    SetPresent(s1, 2, e[1]);
    SetPresent(s1, 3, e[2]);
    PopItemAfterSet(s1, e[3].0, e[3].1);
    UpdateAllFour(d, e);
  }

  lemma UpdateAllFour(d: Dicts.Items<Value>, e: Dicts.Items<Value>)
    requires |e| == 4
    ensures Dicts.UpdateAll(d, e) ==
            Dicts.Set(Dicts.Set(Dicts.Set(Dicts.Set(d, e[0].0, e[0].1), e[1].0, e[1].1), e[2].0, e[2].1), e[3].0, e[3].1)
  {
    var d1 := Dicts.Set(d, e[0].0, e[0].1);
    var d2 := Dicts.Set(d1, e[1].0, e[1].1);
    var d3 := Dicts.Set(d2, e[2].0, e[2].1);
    var d4 := Dicts.Set(d3, e[3].0, e[3].1);
    assert e[1..][0] == e[1] && e[1..][1..][0] == e[2] && e[1..][1..][1..][0] == e[3];
    assert e[1..][1..][1..][1..] == [];
    assert Dicts.UpdateAll(d4, []) == d4;
    assert Dicts.UpdateAll(d3, e[1..][1..][1..]) == d4;
    assert Dicts.UpdateAll(d2, e[1..][1..]) == d4;
    assert Dicts.UpdateAll(d1, e[1..]) == d4;
  }

  /** Assigning a pair a dict already holds changes nothing. */
  lemma SetPresent(d: Dicts.Items<Value>, i: nat, kv: (string, Value))
    requires Dicts.DistinctKeys(d) && i < |d| && d[i] == kv
    ensures Dicts.Set(d, kv.0, kv.1) == d
  {
    Dicts.IndexOfDistinct(d, i);
  }

  lemma KeysPrefixOfPrefix(a: seq<string>, b: seq<string>, c: seq<string>)
    requires |b| <= |a| && a[..|b|] == b && |c| <= |b| && b[..|c|] == c
    ensures a[..|c|] == c
  {
    assert a[..|b|][..|c|] == a[..|c|];
  }

  /** A copy of a meta without a "no_defaults" item equals the original. */
  lemma CopyEqualsOriginal(items: Dicts.Items<Value>)
    requires IsDict(items) && !Dicts.HasKey(items, "no_defaults")
    ensures Dicts.Remove(items, "no_defaults") == items
    ensures DictEq(items, Dicts.Remove(items, "no_defaults"))
  {
    forall i | 0 <= i < |items|
      ensures EntryIn(items[i], items)
    {
      Dicts.IndexOfDistinct(items, i);
      PyEqReflexive(items[i].1);
    }
  }

  /** popitem() right after assigning a new key gives back that pair and the dict as it was. */
  lemma PopItemAfterSet(d: Dicts.Items<Value>, k: string, v: Value)
    requires !Dicts.HasKey(d, k)
    ensures Dicts.Set(d, k, v) == d + [(k, v)]
  {
  }

  /** A setter followed by the getter of the same property returns the value set. */
  lemma SetThenGet(d: Dicts.Items<Value>, p: Property, q: Property, v: Value)
    requires Dicts.DistinctKeys(d)
    ensures Dicts.Get(Dicts.Set(d, KeyOf(p), v), KeyOf(q)) == if p == q then Some(v) else Dicts.Get(d, KeyOf(q))
  {
    Dicts.GetSet(d, KeyOf(p), v, KeyOf(q));
  }
}
