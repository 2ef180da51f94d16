/**
 * The Python values the library keeps in its metadata dictionaries and
 * passes between loaders and savers: None, booleans, integers, floats
 * (exact rationals here), strings, date-times, tuples, lists, dicts with
 * string keys and integer numpy arrays; and the complex samples of a
 * waveform.
 */
module Values {
  import opened Wrappers
  import opened Text
  import opened Dates
  import Dicts

  /** One complex sample, re + 1j * im. */
  datatype Complex = Complex(re: real, im: real)

  /** A scalar function applied to each element of a numpy array. */
  function Elementwise<A>(xs: seq<A>, f: A -> real): (ys: seq<real>)
    ensures |ys| == |xs| && forall k :: 0 <= k < |xs| ==> ys[k] == f(xs[k])
  {
    seq(|xs|, k requires 0 <= k < |xs| => f(xs[k]))
  }

  /**
   * i + 1j * q under numpy broadcasting: element by element when the lengths
   * agree, a length-one side repeated against the other, ValueError otherwise.
   */
  function Combine(i: seq<real>, q: seq<real>): (r: Result<seq<Complex>>)
    ensures r.Ok? <==> |i| == |q| || |i| == 1 || |q| == 1
    ensures r.Err? ==> r.error == ValueError(ShapeMismatch)
    ensures r.Ok? ==> |r.value| == (if |i| == |q| || |q| == 1 then |i| else |q|)
    ensures r.Ok? ==> forall k :: 0 <= k < |r.value| ==>
              r.value[k] == Complex(i[if |i| == 1 then 0 else k], q[if |q| == 1 then 0 else k])
  {
    if |i| == |q| then Ok(seq(|i|, k requires 0 <= k < |i| => Complex(i[k], q[k])))
    else if |i| == 1 then Ok(seq(|q|, k requires 0 <= k < |q| => Complex(i[0], q[k])))
    else if |q| == 1 then Ok(seq(|i|, k requires 0 <= k < |i| => Complex(i[k], q[0])))
    else Err(ValueError(ShapeMismatch))
  }

  /** A numpy array of integers: a scalar, or a dimension holding sub-arrays. */
  datatype NdArray = Scalar(x: int) | Dim(items: seq<NdArray>)

  /** The array's shape; an empty dimension has shape (0,). */
  function Shape(a: NdArray): seq<nat>
  {
    match a
    case Scalar(_) => []
    case Dim(items) => [|items|] + (if items == [] then [] else Shape(items[0]))
  }

  /** All sub-arrays of a dimension share one shape, as in every numpy array. */
  predicate WellShaped(a: NdArray)
  {
    match a
    case Scalar(_) => true
    case Dim(items) => forall i :: 0 <= i < |items| ==> WellShaped(items[i]) && Shape(items[i]) == Shape(items[0])
  }

  /** The elements in row-major order. */
  function Flat(a: NdArray): seq<int>
  {
    match a
    case Scalar(x) => [x]
    case Dim(items) => FlatAll(items)
  }

  function FlatAll(items: seq<NdArray>): seq<int>
    decreases items
  {
    if items == [] then [] else Flat(items[0]) + FlatAll(items[1..])
  }

  /** The two-dimensional array with the given rows. */
  function Matrix(rows: seq<seq<int>>): NdArray
  {
    Dim(seq(|rows|, r requires 0 <= r < |rows| => Dim(seq(|rows[r]|, c requires 0 <= c < |rows[r]| => Scalar(rows[r][c])))))
  }

  datatype Value =
    | PyNone
    | PyBool(b: bool)
    | PyInt(i: int)
    | PyFloat(r: real)
    | PyStr(s: string)
    | PyDate(d: ValidDateTime)
    | PyTuple(items: seq<Value>)
    | PyList(items: seq<Value>)
    | PyDict(entries: seq<(string, Value)>)
    | PyArray(a: NdArray)

  // ----- numbers -----

  /** The value of a bool, int or float as a number (True is 1). */
  function Number(v: Value): Option<real>
  {
    match v
    case PyBool(b) => Some(if b then 1.0 else 0.0)
    case PyInt(i) => Some(i as real)
    case PyFloat(r) => Some(r)
    case _ => None
  }

  /**
   * bool(v). A numpy array with more than one element has no truth value
   * and raises ValueError; an empty one is false, a single element decides.
   */
  function Truthy(v: Value): (r: Result<bool>)
    ensures Number(v).Some? ==> r == Ok(Number(v).value != 0.0)
    ensures r.Err? <==> v.PyArray? && |Flat(v.a)| > 1
  {
    match v
    case PyNone => Ok(false)
    case PyBool(b) => Ok(b)
    case PyInt(i) => Ok(i != 0)
    case PyFloat(x) => Ok(x != 0.0)
    case PyStr(s) => Ok(s != [])
    case PyDate(_) => Ok(true)
    case PyTuple(items) => Ok(items != [])
    case PyList(items) => Ok(items != [])
    case PyDict(entries) => Ok(entries != [])
    case PyArray(a) =>
      var e := Flat(a);
      if |e| == 0 then Ok(false)
      else if |e| == 1 then Ok(e[0] != 0)
      else Err(ValueError(AmbiguousTruth))
  }

  /** float(v). */
  function ToFloat(v: Value): (r: Result<real>)
    ensures Number(v).Some? ==> r == Ok(Number(v).value)
    ensures v.PyStr? ==> r == OptionToResult(ParseFloat(v.s), ValueError(FloatSyntax))
  {
    match v
    case PyStr(s) => OptionToResult(ParseFloat(s), ValueError(FloatSyntax))
    case _ => match Number(v)
      case Some(x) => Ok(x)
      case None => Err(TypeError)
  }

  /** int(v): text is parsed, a float is truncated toward zero. */
  function ToInt(v: Value): (r: Result<int>)
    ensures v.PyInt? ==> r == Ok(v.i)
    ensures v.PyFloat? ==> r.Ok? && -1.0 < r.value as real - v.r < 1.0
    ensures v.PyFloat? && v.r >= 0.0 ==> r.value >= 0
    ensures v.PyFloat? && v.r <= 0.0 ==> r.value <= 0
    ensures v.PyStr? ==> r == OptionToResult(ParseInt(v.s), ValueError(IntSyntax))
  {
    match v
    case PyStr(s) => OptionToResult(ParseInt(s), ValueError(IntSyntax))
    case PyBool(b) => Ok(if b then 1 else 0)
    case PyInt(i) => Ok(i)
    case PyFloat(x) => Ok(if x >= 0.0 then x.Floor else -((-x).Floor))
    case _ => Err(TypeError)
  }

  // ----- equality -----

  /**
   * Python's ==: numbers compare by value whatever their type, tuples and
   * lists element by element, dicts as mappings; anything else structurally.
   */
  predicate PyEq(a: Value, b: Value)
    decreases a
  {
    if Number(a).Some? || Number(b).Some? then Number(a) == Number(b)
    else match (a, b)
      case (PyTuple(x), PyTuple(y)) => |x| == |y| && forall i :: 0 <= i < |x| ==> PyEq(x[i], y[i])
      case (PyList(x), PyList(y)) => |x| == |y| && forall i :: 0 <= i < |x| ==> PyEq(x[i], y[i])
      case (PyDict(x), PyDict(y)) => |x| == |y| && forall i :: 0 <= i < |x| ==> EntryIn(x[i], y)
      case _ => a == b
  }

  /** `e`'s key is in `d` with a value equal to `e`'s. */
  predicate EntryIn(e: (string, Value), d: seq<(string, Value)>)
    decreases e, 0
  {
    match Dicts.IndexOf(d, e.0)
    case None => false
    case Some(j) => PyEq(e.1, d[j].1)
  }

  /** dict == dict over the model's insertion-ordered pairs. */
  predicate DictEq(x: seq<(string, Value)>, y: seq<(string, Value)>)
  {
    |x| == |y| && forall i :: 0 <= i < |x| ==> EntryIn(x[i], y)
  }

  /** The shape of every Python value: dict keys are distinct and arrays agree with their shapes. */
  predicate WellFormed(v: Value)
    decreases v
  {
    match v
    case PyTuple(items) => forall i :: 0 <= i < |items| ==> WellFormed(items[i])
    case PyList(items) => forall i :: 0 <= i < |items| ==> WellFormed(items[i])
    case PyDict(entries) => Dicts.DistinctKeys(entries) && forall i :: 0 <= i < |entries| ==> WellFormed(entries[i].1)
    case PyArray(a) => WellShaped(a)
    case _ => true
  }

  /** Every well-formed value equals itself. */
  lemma {:induction false} PyEqReflexive(a: Value)
    requires WellFormed(a)
    ensures PyEq(a, a)
    decreases a
  {
    match a
    case PyTuple(x) =>
      forall i | 0 <= i < |x| ensures PyEq(x[i], x[i]) { PyEqReflexive(x[i]); }
    case PyList(x) =>
      forall i | 0 <= i < |x| ensures PyEq(x[i], x[i]) { PyEqReflexive(x[i]); }
    case PyDict(x) =>
      forall i | 0 <= i < |x| ensures EntryIn(x[i], x)
      {
        Dicts.IndexOfDistinct(x, i);
        PyEqReflexive(x[i].1);
      }
    case _ =>
  }

  // ----- text -----

  /**
   * repr() of a str: the text between single quotes. Nothing is escaped, so
   * a quote, a backslash or a control character inside differs from Python.
   */
  function QuoteText(s: string): string
  {
    "'" + s + "'"
  }

  /** repr() of a datetime: datetime.datetime(y, m, d, H, M[, S[, us]]). */
  function DateRepr(d: ValidDateTime): string
  {
    var head := [IntText(d.year), IntText(d.month), IntText(d.day), IntText(d.hour), IntText(d.minute)];
    var fields :=
      if d.microsecond != 0 then head + [IntText(d.second), IntText(d.microsecond)]
      else if d.second != 0 then head + [IntText(d.second)]
      else head;
    "datetime.datetime(" + Join(fields, ", ") + ")"
  }

  /**
   * str() of a numpy array: each dimension between brackets, rows of a
   * matrix on lines of their own, elements apart by a blank. repr() writes
   * commas between the elements instead, so `Repr` of an array differs from
   * Python's there; numpy's column padding is not modelled either.
   */
  function ArrayText(a: NdArray): string
  {
    match a
    case Scalar(x) => IntText(x)
    case Dim(items) =>
      var sep := if items != [] && items[0].Dim? then "\n " else " ";
      "[" + Join(seq(|items|, i requires 0 <= i < |items| => ArrayText(items[i])), sep) + "]"
  }

  /** repr(v). */
  function Repr(v: Value): string
    decreases v, 1
  {
    match v
    case PyNone => "None"
    case PyBool(b) => if b then "True" else "False"
    case PyInt(i) => IntText(i)
    case PyFloat(x) => FloatText(x)
    case PyStr(s) => QuoteText(s)
    case PyDate(d) => DateRepr(d)
    case PyTuple(items) =>
      "(" + Join(seq(|items|, i requires 0 <= i < |items| => Repr(items[i])), ", ")
      + (if |items| == 1 then "," else "") + ")"
    case PyList(items) =>
      "[" + Join(seq(|items|, i requires 0 <= i < |items| => Repr(items[i])), ", ") + "]"
    case PyDict(entries) =>
      "{" + Join(seq(|entries|, i requires 0 <= i < |entries| => QuoteText(entries[i].0) + ": " + Repr(entries[i].1)), ", ") + "}"
    case PyArray(a) => "array(" + ArrayText(a) + ")"
  }

  /** str(v), which is also what an f-string writes for {v}. */
  function StrOf(v: Value): (s: string)
    ensures v.PyStr? ==> s == v.s
    ensures v.PyInt? ==> s == IntText(v.i)
    ensures v.PyFloat? ==> s == FloatText(v.r)
  {
    match v
    case PyStr(s) => s
    case PyDate(d) => IsoFormat(d, ' ')
    case PyArray(a) => ArrayText(a)
    case _ => Repr(v)
  }

  /**
   * The number format(v, ".6f") formats: a bool, int or float, or the
   * element of a 0-d numpy array (ndarray.__format__ formats a 0-d array
   * as its item and refuses any other shape).
   */
  function FormatNumber(v: Value): (r: Option<real>)
    ensures Number(v).Some? ==> r == Number(v)
    ensures r.Some? <==> Number(v).Some? || (v.PyArray? && v.a.Scalar?)
  {
    match v
    case PyArray(Scalar(x)) => Some(x as real)
    case _ => Number(v)
  }

  /**
   * format(v, ".6f"): a number gives its six-decimal text; a datetime gives
   * strftime(".6f"), which holds no directive and so is ".6f" itself; a str
   * raises ValueError and anything else TypeError.
   */
  function FormatFixed(v: Value): (r: Result<string>)
    ensures r.Ok? <==> FormatNumber(v).Some? || v.PyDate?
    ensures FormatNumber(v).Some? ==> r == Ok(FixedSix(FormatNumber(v).value))
    ensures v.PyDate? ==> r == Ok(".6f")
    ensures r.Err? ==> r.error == (if v.PyStr? then ValueError(NotANumber) else TypeError)
  {
    match FormatNumber(v)
    case Some(x) => Ok(FixedSix(x))
    case None =>
      if v.PyDate? then Ok(".6f")
      else if v.PyStr? then Err(ValueError(NotANumber)) else Err(TypeError)
  }

}
