/**
 * Date-times and the strftime / strptime layouts the library uses:
 * "%Y-%m-%d;%H:%M:%S" in the WV DATE tag, isoformat() in iq.tar XML,
 * "%Y%m%dT%H:%M:%S.%f" for serialised storages, and str(datetime).
 *
 * Parsing follows strptime: each directive is the regular expression
 * CPython compiles for it (alternatives tried in order, a two-digit field
 * before a one-digit one), literals match case-insensitively, the whole text
 * must be consumed, and the fields must then form a real calendar date.
 */
module Dates {
  import opened Wrappers
  import opened Text

  datatype DateTime = DateTime(year: int, month: int, day: int,
                               hour: int, minute: int, second: int, microsecond: int)

  predicate IsLeap(y: int)
  {
    y % 4 == 0 && (y % 100 != 0 || y % 400 == 0)
  }

  function DaysInMonth(y: int, m: int): int
    requires 1 <= m <= 12
  {
    if m == 2 then (if IsLeap(y) then 29 else 28)
    else if m == 4 || m == 6 || m == 9 || m == 11 then 30
    else 31
  }

  /** The values datetime(...) accepts. */
  predicate Valid(d: DateTime)
  {
    1 <= d.year <= 9999 && 1 <= d.month <= 12 && 1 <= d.day <= DaysInMonth(d.year, d.month) &&
    0 <= d.hour < 24 && 0 <= d.minute < 60 && 0 <= d.second < 60 &&
    0 <= d.microsecond < 1000000
  }

  /** The date-times a datetime object can hold. */
  type ValidDateTime = d: DateTime | Valid(d) witness DateTime(1900, 1, 1, 0, 0, 0, 0)

  datatype Directive = Year | Month | Day | Hour | Minute | Second | Micro | Lit(c: char)

  type Layout = seq<Directive>

  /** "%Y-%m-%d;%H:%M:%S", the WV DATE tag. */
  const WvLayout: Layout :=
    [Year, Lit('-'), Month, Lit('-'), Day, Lit(';'), Hour, Lit(':'), Minute, Lit(':'), Second]

  /** "%Y-%m-%d<sep>%H:%M:%S", the first part of isoformat(sep). */
  function IsoLayout(sep: char): Layout
  {
    [Year, Lit('-'), Month, Lit('-'), Day, Lit(sep), Hour, Lit(':'), Minute, Lit(':'), Second]
  }

  /** "%Y-%m-%dT%H:%M:%S.%f", the iq.tar DateTime with a fraction. */
  const IsoMicroLayout: Layout :=
    [Year, Lit('-'), Month, Lit('-'), Day, Lit('T'), Hour, Lit(':'), Minute, Lit(':'), Second, Lit('.'), Micro]

  /** "%Y%m%dT%H:%M:%S.%f", a serialised storage's date-time. */
  const StampLayout: Layout :=
    [Year, Month, Day, Lit('T'), Hour, Lit(':'), Minute, Lit(':'), Second, Lit('.'), Micro]

  // ----- strftime -----

  function Field(d: DateTime, x: Directive): int
    requires !x.Lit?
  {
    match x
    case Year => d.year
    case Month => d.month
    case Day => d.day
    case Hour => d.hour
    case Minute => d.minute
    case Second => d.second
    case Micro => d.microsecond
  }

  function Width(x: Directive): nat
  {
    match x
    case Year => 4
    case Micro => 6
    case Lit(_) => 1
    case _ => 2
  }

  /** strftime: every field zero-padded to its width. */
  function Format(d: DateTime, layout: Layout): (s: string)
    requires Valid(d)
  {
    if layout == [] then ""
    else
      var x := layout[0];
      var head := if x.Lit? then [x.c] else (FieldFits(d, x); PadDigits(Field(d, x), Width(x)));
      head + Format(d, layout[1..])
  }

  /** isoformat(sep): the fraction only when the microseconds are not zero. */
  function IsoFormat(d: DateTime, sep: char): string
    requires Valid(d)
  {
    Format(d, IsoLayout(sep)) + (if d.microsecond != 0 then "." + PadDigits(d.microsecond, 6) else "")
  }

  // ----- strptime -----

  /**
   * The field widths the directive's pattern tries, in order. CPython's %d
   * also accepts a space before a single digit (" 5"); that alternative is
   * left out, so a space-padded day is refused.
   */
  function Candidates(x: Directive): seq<nat>
  {
    match x
    case Year => [4]
    case Micro => [6, 5, 4, 3, 2, 1]
    case Lit(_) => []
    case _ => [2, 1]
  }

  /** Whether a digit run of the directive's width is one its pattern accepts. */
  predicate Accepts(x: Directive, digits: string)
    requires AllDigits(digits)
  {
    var v := DigitsValue(digits);
    match x
    case Year => true
    case Micro => true
    case Lit(_) => false
    case Month => if |digits| == 2 then 1 <= v <= 12 else 1 <= v
    case Day => if |digits| == 2 then 1 <= v <= 31 else 1 <= v
    case Hour => |digits| == 1 || v <= 23
    case Minute => |digits| == 1 || v <= 59
    case Second => |digits| == 1 || v <= 61
  }

  function Assign(f: DateTime, x: Directive, digits: string): DateTime
    requires AllDigits(digits) && |digits| <= 6
  {
    var v := DigitsValue(digits);
    match x
    case Year => f.(year := v)
    case Month => f.(month := v)
    case Day => f.(day := v)
    case Hour => f.(hour := v)
    case Minute => f.(minute := v)
    case Second => f.(second := v)
    case Micro => f.(microsecond := v * Pow10(6 - |digits|))
    case Lit(_) => f
  }

  predicate SameLetter(a: char, b: char)
  {
    LowerChar(a) == LowerChar(b)
  }

  /** The first way, in the patterns' order, to read all of `s` with `layout`. */
  function Match(layout: Layout, s: string, f: DateTime): Option<DateTime>
    decreases |layout|, 7
  {
    if layout == [] then (if s == [] then Some(f) else None)
    else if layout[0].Lit? then
      if s != [] && SameLetter(s[0], layout[0].c) then Match(layout[1..], s[1..], f) else None
    else TryWidths(layout, s, f, Candidates(layout[0]))
  }

  function TryWidths(layout: Layout, s: string, f: DateTime, widths: seq<nat>): Option<DateTime>
    requires layout != [] && !layout[0].Lit?
    requires |widths| <= 6 && forall i :: 0 <= i < |widths| ==> widths[i] <= 6
    decreases |layout|, |widths|
  {
    if widths == [] then None
    else
      var w := widths[0];
      var attempt :=
        if w <= |s| && AllDigits(s[..w]) && Accepts(layout[0], s[..w])
        then Match(layout[1..], s[w..], Assign(f, layout[0], s[..w]))
        else None;
      if attempt.Some? then attempt else TryWidths(layout, s, f, widths[1..])
  }

  /** strptime's defaults for the fields a layout does not mention. */
  const Epoch := DateTime(1900, 1, 1, 0, 0, 0, 0)

  /** datetime.strptime(s, layout). */
  function Parse(s: string, layout: Layout): Result<DateTime>
  {
    match Match(layout, s, Epoch)
    case None => Err(ValueError(DateSyntax))
    case Some(d) => if Valid(d) then Ok(d) else Err(ValueError(DateSyntax))
  }

  // ----- round trips -----

  lemma FieldFits(d: DateTime, x: Directive)
    requires Valid(d) && !x.Lit?
    ensures 0 <= Field(d, x) < Pow10(Width(x))
  {
    assert Pow10(2) == 100;
    assert Pow10(4) == 10000;
    assert Pow10(6) == 1000000;
  }

  /** The fields of `d` a layout writes, laid over `f`. */
  function Overlay(f: DateTime, d: DateTime, layout: Layout): DateTime
    requires Valid(d)
    decreases |layout|
  {
    if layout == [] then f
    else
      var x := layout[0];
      var f' := if x.Lit? then f else (FieldFits(d, x); Assign(f, x, PadDigits(Field(d, x), Width(x))));
      Overlay(f', d, layout[1..])
  }

  /** Reading back what Format wrote takes the first alternative at every field. */
  lemma {:induction false} MatchFormat(layout: Layout, d: DateTime, f: DateTime)
    requires Valid(d)
    ensures Match(layout, Format(d, layout), f) == Some(Overlay(f, d, layout))
    decreases |layout|
  {
    if layout != [] {
      var x := layout[0];
      var s := Format(d, layout);
      var rest := Format(d, layout[1..]);
      if x.Lit? {
        assert s == [x.c] + rest;
        assert s[1..] == rest;
        MatchFormat(layout[1..], d, f);
      } else {
        FieldFits(d, x);
        var digits := PadDigits(Field(d, x), Width(x));
        MatchFormat(layout[1..], d, Assign(f, x, digits));
        MatchFieldFormat(layout, d, f);
      }
    }
  }

  /** A field directive reads back the digits Format writes for it, then goes on with the rest. */
  lemma MatchFieldFormat(layout: Layout, d: DateTime, f: DateTime)
    requires Valid(d) && layout != [] && !layout[0].Lit? && Field(d, layout[0]) < Pow10(Width(layout[0]))
    requires var f' := Assign(f, layout[0], PadDigits(Field(d, layout[0]), Width(layout[0])));
      Match(layout[1..], Format(d, layout[1..]), f') == Some(Overlay(f', d, layout[1..]))
    ensures Match(layout, Format(d, layout), f) == Some(Overlay(f, d, layout))
  {
    var x := layout[0];
    var s := Format(d, layout);
    var rest := Format(d, layout[1..]);
    var w := Width(x);
    FieldFits(d, x);
    var digits := PadDigits(Field(d, x), w);
    assert s == digits + rest;
    assert s[..w] == digits && s[w..] == rest;
    DigitsValueOfPadDigits(Field(d, x), w);
    assert Candidates(x)[0] == w;
    assert Accepts(x, digits) by {
      assert Pow10(2) == 100;
    }
    var f' := Assign(f, x, digits);
    MatchFieldStep(layout, s, f, digits, rest, Overlay(f', d, layout[1..]));
  }

  /** A field whose first candidate width reads an accepted digit run goes on with the rest. */
  lemma MatchFieldStep(layout: Layout, s: string, f: DateTime, digits: string, rest: string, g: DateTime)
    requires layout != [] && !layout[0].Lit?
    requires AllDigits(digits) && |digits| == Candidates(layout[0])[0] && Accepts(layout[0], digits)
    requires s == digits + rest
    requires Match(layout[1..], rest, Assign(f, layout[0], digits)) == Some(g)
    ensures Match(layout, s, f) == Some(g)
  {
    var w := |digits|;
    assert s[..w] == digits && s[w..] == rest;
  }

  lemma OverlayField(f: DateTime, d: DateTime, x: Directive)
    requires Valid(d) && !x.Lit?
    ensures Assign(f, x, PadDigits(Field(d, x), Width(x))) ==
            match x
            case Year => f.(year := d.year)
            case Month => f.(month := d.month)
            case Day => f.(day := d.day)
            case Hour => f.(hour := d.hour)
            case Minute => f.(minute := d.minute)
            case Second => f.(second := d.second)
            case Micro => f.(microsecond := d.microsecond)
            case Lit(_) => f
  {
    FieldFits(d, x);
    DigitsValueOfPadDigits(Field(d, x), Width(x));
    assert Pow10(0) == 1;
  }

  predicate Names(layout: Layout, x: Directive)
  {
    layout != [] && (layout[0] == x || Names(layout[1..], x))
  }

  /** `f` with every field the layout names taken from `d`. */
  function Named(f: DateTime, d: DateTime, layout: Layout): DateTime
  {
    DateTime(if Names(layout, Year) then d.year else f.year,
             if Names(layout, Month) then d.month else f.month,
             if Names(layout, Day) then d.day else f.day,
             if Names(layout, Hour) then d.hour else f.hour,
             if Names(layout, Minute) then d.minute else f.minute,
             if Names(layout, Second) then d.second else f.second,
             if Names(layout, Micro) then d.microsecond else f.microsecond)
  }

  /** `f` with the one field `x` names taken from `d`. */
  function Take(f: DateTime, d: DateTime, x: Directive): DateTime
  {
    match x
    case Year => f.(year := d.year)
    case Month => f.(month := d.month)
    case Day => f.(day := d.day)
    case Hour => f.(hour := d.hour)
    case Minute => f.(minute := d.minute)
    case Second => f.(second := d.second)
    case Micro => f.(microsecond := d.microsecond)
    case Lit(_) => f
  }

  /** Taking the first directive's field, then the rest's, takes the whole layout's. */
  lemma NamedStep(f: DateTime, d: DateTime, layout: Layout)
    requires layout != []
    ensures Named(Take(f, d, layout[0]), d, layout[1..]) == Named(f, d, layout)
  {
    var x := layout[0];
    var rest := layout[1..];
    assert Names(layout, Year) == (x == Year || Names(rest, Year));
    assert Names(layout, Month) == (x == Month || Names(rest, Month));
    assert Names(layout, Day) == (x == Day || Names(rest, Day));
    assert Names(layout, Hour) == (x == Hour || Names(rest, Hour));
    assert Names(layout, Minute) == (x == Minute || Names(rest, Minute));
    assert Names(layout, Second) == (x == Second || Names(rest, Second));
    assert Names(layout, Micro) == (x == Micro || Names(rest, Micro));
  }

  /** Overlaying a layout sets exactly the fields the layout names. */
  lemma {:induction false} OverlayNamed(f: DateTime, d: DateTime, layout: Layout)
    requires Valid(d)
    ensures Overlay(f, d, layout) == Named(f, d, layout)
    decreases |layout|
  {
    if layout != [] {
      var x := layout[0];
      var f' := if x.Lit? then f else (FieldFits(d, x); Assign(f, x, PadDigits(Field(d, x), Width(x))));
      if !x.Lit? {
        OverlayField(f, d, x);
      }
      assert f' == Take(f, d, x);
      OverlayNamed(f', d, layout[1..]);
      NamedStep(f, d, layout);
    }
  }

  /** strptime reads back what strftime writes with the WV DATE layout (whole seconds). */
  lemma ParseWvFormat(d: DateTime)
    requires Valid(d)
    ensures Parse(Format(d, WvLayout), WvLayout) == Ok(d.(microsecond := 0))
  {
    MatchFormat(WvLayout, d, Epoch);
    OverlayNamed(Epoch, d, WvLayout);
    WvNames();
    WvNoMicro();
    var o := Overlay(Epoch, d, WvLayout);
    assert o == d.(microsecond := 0);
    assert Valid(o);
  }

  /** "%Y-%m-%d;%H:%M:%S" names every field but the microseconds. */
  lemma WvNames()
    ensures Names(WvLayout, Year) && Names(WvLayout, Month) && Names(WvLayout, Day)
    ensures Names(WvLayout, Hour) && Names(WvLayout, Minute) && Names(WvLayout, Second)
  {
    var l := WvLayout;
    assert l[0] == Year && l[2] == Month && l[4] == Day && l[6] == Hour && l[8] == Minute && l[10] == Second;
    NamesAt(l, 0, Year); NamesAt(l, 2, Month); NamesAt(l, 4, Day); NamesAt(l, 6, Hour);
    NamesAt(l, 8, Minute); NamesAt(l, 10, Second);
  }

  /** The WV DATE layout has no fraction. */
  lemma WvNoMicro()
    ensures !Names(WvLayout, Micro)
  {
    var l := WvLayout;
    assert forall i :: 0 <= i < |l| ==> l[i] != Micro;
    NotNamed(l, Micro);
  }

  /** A directive that is not in the layout is not named by it. */
  lemma {:induction false} NotNamed(layout: Layout, x: Directive)
    requires forall i :: 0 <= i < |layout| ==> layout[i] != x
    ensures !Names(layout, x)
    decreases |layout|
  {
    if layout != [] {
      assert forall i :: 0 <= i < |layout[1..]| ==> layout[1..][i] == layout[i + 1];
      NotNamed(layout[1..], x);
    }
  }

  /** strptime reads back isoformat() output with the pattern the iq.tar loader picks for it. */
  lemma ParseIsoFormat(d: DateTime)
    requires Valid(d)
    ensures Parse(IsoFormat(d, 'T'), if d.microsecond != 0 then IsoMicroLayout else IsoLayout('T')) == Ok(d)
  {
    if d.microsecond != 0 {
      ParseIsoFraction(d);
    } else {
      ParseIsoWhole(d);
    }
  }

  /** Every character strftime writes is a digit or one of the layout's literals. */
  lemma {:induction false} FormatChars(d: DateTime, layout: Layout)
    requires Valid(d)
    ensures forall i :: 0 <= i < |Format(d, layout)| ==> IsDigit(Format(d, layout)[i]) || Lit(Format(d, layout)[i]) in layout
    decreases |layout|
  {
    if layout != [] {
      FormatChars(d, layout[1..]);
      var x := layout[0];
      if !x.Lit? {
        FieldFits(d, x);
      }
      assert forall y :: y in layout[1..] ==> y in layout;
    }
  }

  /** isoformat('T') holds a '.' exactly when it writes a fraction, which is how the iq.tar loader picks its pattern. */
  lemma IsoFormatDot(d: DateTime)
    requires Valid(d)
    ensures '.' in IsoFormat(d, 'T') <==> d.microsecond != 0
  {
    var whole := Format(d, IsoLayout('T'));
    FormatChars(d, IsoLayout('T'));
    assert Lit('.') !in IsoLayout('T');
    assert '.' !in whole;
    if d.microsecond != 0 {
      assert IsoFormat(d, 'T')[|whole|] == '.';
    } else {
      assert IsoFormat(d, 'T') == whole;
    }
  }

  /** isoformat('T') with a fraction is strftime with the fraction's layout. */
  lemma IsoMicroFormat(d: DateTime)
    requires Valid(d) && d.microsecond != 0
    ensures IsoFormat(d, 'T') == Format(d, IsoMicroLayout)
  {
    var tail: Layout := [Lit('.'), Micro];
    assert tail[1..] == [Micro] && [Micro][1..] == [];
    assert Format(d, [Micro]) == PadDigits(d.microsecond, 6) + Format(d, []);
    assert Format(d, tail) == "." + PadDigits(d.microsecond, 6);
    FormatConcat(d, IsoLayout('T'), tail);
    assert IsoMicroLayout == IsoLayout('T') + tail;
  }

  lemma ParseIsoFraction(d: DateTime)
    requires Valid(d) && d.microsecond != 0
    ensures Parse(IsoFormat(d, 'T'), IsoMicroLayout) == Ok(d)
  {
    IsoMicroFormat(d);
    MatchFormat(IsoMicroLayout, d, Epoch);
    OverlayIsoMicro(d);
  }

  lemma OverlayIsoMicro(d: DateTime)
    requires Valid(d)
    ensures Overlay(Epoch, d, IsoMicroLayout) == d
  {
    OverlayNamed(Epoch, d, IsoMicroLayout);
    IsoMicroNames();
  }

  /** "%Y-%m-%dT%H:%M:%S.%f" names every field. */
  lemma IsoMicroNames()
    ensures Names(IsoMicroLayout, Year) && Names(IsoMicroLayout, Month) && Names(IsoMicroLayout, Day)
    ensures Names(IsoMicroLayout, Hour) && Names(IsoMicroLayout, Minute) && Names(IsoMicroLayout, Second)
    ensures Names(IsoMicroLayout, Micro)
  {
    var l := IsoMicroLayout;
    assert l[0] == Year && l[2] == Month && l[4] == Day && l[6] == Hour && l[8] == Minute && l[10] == Second && l[12] == Micro;
    NamesAt(l, 0, Year); NamesAt(l, 2, Month); NamesAt(l, 4, Day); NamesAt(l, 6, Hour);
    NamesAt(l, 8, Minute); NamesAt(l, 10, Second); NamesAt(l, 12, Micro);
  }

  lemma {:induction false} NamesAt(layout: Layout, i: nat, x: Directive)
    requires i < |layout| && layout[i] == x
    ensures Names(layout, x)
    decreases i
  {
    if i > 0 {
      NamesAt(layout[1..], i - 1, x);
    }
  }

  lemma ParseIsoWhole(d: DateTime)
    requires Valid(d) && d.microsecond == 0
    ensures Parse(IsoFormat(d, 'T'), IsoLayout('T')) == Ok(d)
  {
    assert IsoFormat(d, 'T') == Format(d, IsoLayout('T'));
    MatchFormat(IsoLayout('T'), d, Epoch);
    OverlayNamed(Epoch, d, IsoLayout('T'));
    var o := Overlay(Epoch, d, IsoLayout('T'));
    assert o == d;
  }

  /** strptime reads back a serialised storage's date-time exactly. */
  lemma ParseStampFormat(d: DateTime)
    requires Valid(d)
    ensures Parse(Format(d, StampLayout), StampLayout) == Ok(d)
  {
    MatchFormat(StampLayout, d, Epoch);
    OverlayNamed(Epoch, d, StampLayout);
  }

  lemma {:induction false} FormatConcat(d: DateTime, a: Layout, b: Layout)
    requires Valid(d)
    ensures Format(d, a + b) == Format(d, a) + Format(d, b)
  {
    if a != [] {
      assert (a + b)[1..] == a[1..] + b;
      FormatConcat(d, a[1..], b);
    } else {
      assert a + b == b;
    }
  }
}
