/** What the duration reader promises beyond the sum it computes: how the
    sign and empty input are treated, that a bare number or a missing unit
    is `NaN`, that segments add up in order, and that strings in the shape
    Go prints durations read back as the total of their parts. */
module DurationProps {
  import opened Options
  import opened FloatParse
  import opened Duration

  /** Adding `Some(0)` first changes nothing. */
  lemma AddZero(r: Option<real>)
    ensures Add(Some(0.0), r) == r
  {
  }

  /** `NaN`-absorbing addition can be regrouped. */
  lemma AddAssoc(a: Option<real>, b: Option<real>, c: Option<real>)
    ensures Add(a, Add(b, c)) == Add(Add(a, b), c)
  {
  }

  /** The empty string and a sign alone: the loop never runs and the total
      is 0, not `NaN`. */
  lemma NoSegments(s: string, units: Units)
    requires |s| == SignLength(s)
    ensures DurationToMs(s, units) == Some(0.0)
  {
  }

  /** A bare number: the mantissa runs to the end of the string and leaves
      no room for a unit, so the result is `NaN`. */
  lemma BareNumberIsNaN(s: string, units: Units)
    requires SignLength(s) < |s|
    requires forall m :: SignLength(s) <= m < |s| ==> IsMantissaChar(s[m])
    ensures DurationToMs(s, units) == None
  {
    MantissaEndIs(s, SignLength(s), |s|);
  }

  /** A segment that does not start with a digit or a point has an empty
      mantissa, which is not a number: `NaN` from there on. This covers a
      second sign, or a sign in the middle. */
  lemma EmptyMantissaIsNaN(s: string, i: nat, units: Units)
    requires i < |s| && !IsMantissaChar(s[i])
    ensures SegmentsMs(s, i, units) == None
  {
    MantissaEndIs(s, i, i);
    assert s[i..i] == [];
    NoNumberAfterSign([]);
  }

  /** A mantissa followed by a character that names no unit is `NaN`. */
  lemma UnknownUnitIsNaN(s: string, i: nat, units: Units)
    requires i <= |s|
    requires MantissaEnd(s, i) < |s| && UnitAt(s, MantissaEnd(s, i)).None?
    ensures SegmentsMs(s, i, units) == None
  {
  }

  /** Reading the segment at `j` of `p + t` only looks at `t`. */
  lemma ScanSegmentShift(p: string, t: string, s: string, i: nat, j: nat)
    requires s == p + t && i < |t| && j == |p| + i
    ensures ScanSegment(s, j) == ScanSegment(t, i)
  {
    var k := MantissaEnd(t, i);
    var d := |p|;
    MantissaRun(t, i);
    forall m | j <= m < d + k
      ensures IsMantissaChar(s[m])
    {
      assert s[m] == t[m - d];
    }
    if k < |t| {
      assert s[d + k] == t[k];
    }
    MantissaEndIs(s, j, d + k);
    if k < |t| {
      if k + 1 < |t| {
        assert s[d + k + 1] == t[k + 1];
      }
      assert UnitAt(s, d + k) == UnitAt(t, k);
      assert s[j..d + k] == t[i..k];
    }
  }

  /** The sum from a segment that is read: its milliseconds, then the rest. */
  lemma SegmentsMsUnfold(s: string, i: nat, seg: Segment, next: nat, units: Units)
    requires i < |s| && ScanSegment(s, i) == Some(seg) && next == i + Width(seg)
    ensures next <= |s|
    ensures SegmentsMs(s, i, units) == Add(SegmentMs(seg, units), SegmentsMs(s, next, units))
  {
    var rest := SegmentsMs(s, next, units);
    var here := SegmentMs(seg, units);
    assert SegmentsMs(s, i, units) == Add(here, rest);
  }

  /** Reading segments only looks forward: the segments of `t` from `i`
      are those of `p + t` from `|p| + i`. */
  lemma {:induction false} SegmentsMsShift(p: string, t: string, s: string, i: nat, j: nat, units: Units)
    requires s == p + t && i <= |t| && j == |p| + i
    ensures SegmentsMs(s, j, units) == SegmentsMs(t, i, units)
    decreases |t| - i
  {
    if i < |t| {
      ScanSegmentShift(p, t, s, i, j);
      var r := ScanSegment(t, i);
      if r.None? {
        ScanStepNaN(t, i, 0.0, units);
        ScanStepNaN(s, j, 0.0, units);
      } else {
        var w := Width(r.value);
        var ni, nj := i + w, j + w;
        SegmentsMsUnfold(t, i, r.value, ni, units);
        SegmentsMsUnfold(s, j, r.value, nj, units);
        SegmentsMsShift(p, t, s, ni, nj, units);
      }
    }
  }

  /** A segment read inside `a` is read the same in `a + b` when `b` starts
      with a digit or a point: that cannot turn a one-letter unit into a
      two-letter one. */
  lemma ScanSegmentPrefix(a: string, b: string, s: string, i: nat)
    requires s == a + b && i < |a| && ScanSegment(a, i).Some?
    requires b == [] || IsMantissaChar(b[0])
    ensures ScanSegment(s, i) == ScanSegment(a, i)
  {
    var k := MantissaEnd(a, i);
    MantissaRun(a, i);
    forall m | i <= m < k
      ensures IsMantissaChar(s[m])
    {
      assert s[m] == a[m];
    }
    assert s[k] == a[k];
    MantissaEndIs(s, i, k);
    if k + 1 < |a| {
      assert s[k + 1] == a[k + 1];
    } else if b != [] {
      assert s[k + 1] == b[0];
    }
    assert UnitAt(s, k) == UnitAt(a, k);
    assert s[i..k] == a[i..k];
  }

  /** The segments of `a + b` add up to those of `a` plus those of `b`. */
  lemma {:induction false} SegmentsMsAppend(a: string, b: string, s: string, i: nat, units: Units)
    requires s == a + b && i <= |a|
    requires b == [] || IsMantissaChar(b[0])
    requires SegmentsMs(a, i, units).Some?
    ensures SegmentsMs(s, i, units) == Add(SegmentsMs(a, i, units), SegmentsMs(b, 0, units))
    decreases |a| - i
  {
    if i == |a| {
      SegmentsMsShift(a, b, s, 0, i, units);
      AddZero(SegmentsMs(b, 0, units));
    } else {
      var seg := ScanSegment(a, i).value;
      var next := i + Width(seg);
      ScanSegmentPrefix(a, b, s, i);
      SegmentsMsUnfold(a, i, seg, next, units);
      SegmentsMsUnfold(s, i, seg, next, units);
      SegmentsMsAppend(a, b, s, next, units);
      AddAssoc(SegmentMs(seg, units), SegmentsMs(a, next, units), SegmentsMs(b, 0, units));
    }
  }

  /** Segment values are summed in order: an unsigned duration followed by
      another one reads as the sum of the two. */
  lemma DurationAppend(a: string, b: string, units: Units)
    requires a == [] || (a[0] != '-' && a[0] != '+')
    requires b == [] || IsMantissaChar(b[0])
    requires DurationToMs(a, units).Some?
    ensures DurationToMs(a + b, units) == Add(DurationToMs(a, units), DurationToMs(b, units))
  {
    var s := a + b;
    if a != [] {
      assert s[0] == a[0];
    } else {
      assert s == b;
    }
    SegmentsMsAppend(a, b, s, 0, units);
  }

  /** Segments that are not all numbers make the whole string `NaN`. */
  lemma SignedNaN(s: string, units: Units)
    requires SegmentsMs(s, SignLength(s), units) == None
    ensures DurationToMs(s, units) == None
  {
  }

  /** A leading `-` negates the rest. */
  lemma NegativeSign(t: string, units: Units)
    requires t == [] || (t[0] != '-' && t[0] != '+')
    ensures DurationToMs(['-'] + t, units)
         == match DurationToMs(t, units)
            case None => None
            case Some(x) => Some(-x)
  {
    var s := ['-'] + t;
    assert s[0] == '-';
    assert SignLength(s) == 1 && SignLength(t) == 0;
    SegmentsMsShift(['-'], t, s, 0, SignLength(s), units);
    NegatedTotal(s, t, units);
  }

  lemma NegatedTotal(s: string, t: string, units: Units)
    requires |s| > 0 && s[0] == '-' && SignLength(t) == 0
    requires SegmentsMs(s, SignLength(s), units) == SegmentsMs(t, 0, units)
    ensures DurationToMs(s, units)
         == match DurationToMs(t, units)
            case None => None
            case Some(x) => Some(-x)
  {
  }

  /** A leading `+` is skipped. */
  lemma PlusSign(t: string, units: Units)
    requires t == [] || (t[0] != '-' && t[0] != '+')
    ensures DurationToMs(['+'] + t, units) == DurationToMs(t, units)
  {
    var s := ['+'] + t;
    assert s[0] == '+';
    assert SignLength(s) == 1 && SignLength(t) == 0;
    SegmentsMsShift(['+'], t, s, 0, 1, units);
  }

  /** The symbol Go prints for each unit (the micro sign for microseconds). */
  function Symbol(u: Unit): (sym: string)
    ensures |sym| == UnitWidth(u) && !IsMantissaChar(sym[0])
  {
    match u
    case Nanosecond => "ns"
    case Microsecond => "\U{00B5}s"
    case Millisecond => "ms"
    case Second => "s"
    case Minute => "m"
    case Hour => "h"
  }

  /** A symbol at the end of the string names its unit. */
  lemma SymbolAtEnd(m: string, u: Unit, s: string)
    requires s == m + Symbol(u)
    ensures UnitAt(s, |m|) == Some(u)
  {
    var k := |m|;
    assert s[k] == Symbol(u)[0];
    if UnitWidth(u) == 2 {
      assert s[k + 1] == Symbol(u)[1];
    }
  }

  /** One segment: a mantissa that parses as `n`, then a unit symbol. */
  lemma SingleSegment(m: string, u: Unit, n: real, s: string, units: Units)
    requires m != [] && (forall k :: 0 <= k < |m| ==> IsMantissaChar(m[k]))
    requires ParseFloat(m) == Some(n) && s == m + Symbol(u)
    ensures DurationToMs(s, units) == Some(ToMs(n, u, units))
  {
    var k := |m|;
    forall j | 0 <= j < k
      ensures IsMantissaChar(s[j])
    {
      assert s[j] == m[j];
    }
    assert s[k] == Symbol(u)[0];
    MantissaEndIs(s, 0, k);
    SymbolAtEnd(m, u, s);
    assert s[0..k] == m;
    assert s[0] == m[0];
    var x := ToMs(n, u, units);
    assert SegmentsMs(s, |s|, units) == Some(0.0);
    assert SegmentsMs(s, 0, units) == Add(Some(x), Some(0.0));
  }

  /** One part of a duration as Go prints it: a whole amount of a unit. */
  datatype Part = Part(amount: nat, unit: Unit)

  /** Parts printed one after the other, each amount followed by its unit
      symbol: `[Part(1, Hour), Part(2, Minute)]` prints as "1h2m". */
  function FormatParts(parts: seq<Part>): (s: string)
    ensures s == [] <==> parts == []
    ensures s != [] ==> IsDigit(s[0])
  {
    if parts == [] then []
    else
      var head := NatToString(parts[0].amount) + Symbol(parts[0].unit);
      assert head[0] == NatToString(parts[0].amount)[0];
      head + FormatParts(parts[1..])
  }

  /** The milliseconds the parts stand for. */
  function PartsMs(parts: seq<Part>, units: Units): real
  {
    if parts == [] then 0.0 else ToMs(parts[0].amount as real, parts[0].unit, units) + PartsMs(parts[1..], units)
  }

  /** Adding two known amounts. */
  lemma AddSome(x: real, y: real, z: real)
    requires z == x + y
    ensures Add(Some(x), Some(y)) == Some(z)
  {
  }

  /** The first part of a non-empty list, and what it adds to the rest. */
  lemma PartsMsHead(parts: seq<Part>, units: Units, x: real, rest: real)
    requires parts != []
    requires x == ToMs(parts[0].amount as real, parts[0].unit, units)
    requires rest == PartsMs(parts[1..], units)
    ensures PartsMs(parts, units) == x + rest
  {
  }

  /** Round trip: printed parts read back as their total. */
  lemma {:induction false} FormatPartsRoundTrip(parts: seq<Part>, units: Units)
    ensures DurationToMs(FormatParts(parts), units) == Some(PartsMs(parts, units))
  {
    var s := FormatParts(parts);
    var total := PartsMs(parts, units);
    if parts == [] {
      NoSegments(s, units);
    } else {
      var p := parts[0];
      var digits := NatToString(p.amount);
      var a := digits + Symbol(p.unit);
      var b := FormatParts(parts[1..]);
      var x := ToMs(p.amount as real, p.unit, units);
      var rest := PartsMs(parts[1..], units);
      assert s == a + b;
      ParseFloatOfNat(p.amount);
      SingleSegment(digits, p.unit, p.amount as real, a, units);
      FormatPartsRoundTrip(parts[1..], units);
      assert a[0] == digits[0];
      PartsMsHead(parts, units, x, rest);
      ConcatTotal(a, b, s, x, rest, total, units);
    }
  }

  /** The step of the round trip, with every value named. */
  lemma ConcatTotal(a: string, b: string, s: string, x: real, rest: real, total: real, units: Units)
    requires s == a + b && a != [] && IsDigit(a[0])
    requires b == [] || IsMantissaChar(b[0])
    requires DurationToMs(a, units) == Some(x) && DurationToMs(b, units) == Some(rest)
    requires total == x + rest
    ensures DurationToMs(s, units) == Some(total)
  {
    DurationAppend(a, b, units);
    AddSome(x, rest, total);
  }
}
