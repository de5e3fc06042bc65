/** Go-style duration strings ("1h2m3.4s", "500µs", "-2ms") read as a
    number of milliseconds.

    The specification reads the string as a list of segments, each a
    mantissa (the maximal run of digits and points) followed by a unit, and
    sums the segments' milliseconds; a leading `-` negates the sum. The
    factors for minutes and hours are a parameter: the parser as written
    uses 600000 and 360000 milliseconds (`WrittenUnits`), Go's own values
    are 60000 and 3600000 (`GoUnits`). `DurationStringToMs` is the scanner itself, proved
    to compute the specification with `WrittenUnits`. */
module Duration {
  import opened Options
  import opened FloatParse

  datatype Unit = Nanosecond | Microsecond | Millisecond | Second | Minute | Hour

  /** Which milliseconds per minute and per hour apply. */
  datatype Units = WrittenUnits | GoUnits

  predicate IsMantissaChar(c: char) { IsDigit(c) || c == '.' }

  /** The end of the maximal run of digits and points that starts at `i`. */
  function MantissaEnd(s: string, i: nat): (k: nat)
    requires i <= |s|
    ensures i <= k <= |s|
    ensures k < |s| ==> !IsMantissaChar(s[k])
    decreases |s| - i
  {
    if i < |s| && IsMantissaChar(s[i]) then MantissaEnd(s, i + 1) else i
  }

  /** Every character of the run is a digit or a point. */
  lemma {:induction false} MantissaRun(s: string, i: nat)
    requires i <= |s|
    ensures forall m :: i <= m < MantissaEnd(s, i) ==> IsMantissaChar(s[m])
    decreases |s| - i
  {
    if i < |s| && IsMantissaChar(s[i]) {
      MantissaRun(s, i + 1);
      forall m | i <= m < MantissaEnd(s, i)
        ensures IsMantissaChar(s[m])
      {
        if m > i {
          assert i + 1 <= m < MantissaEnd(s, i + 1);
        }
      }
    }
  }

  /** The run is determined by where the digits and points stop. */
  lemma {:induction false} MantissaEndIs(s: string, i: nat, k: nat)
    requires i <= k <= |s|
    requires forall m :: i <= m < k ==> IsMantissaChar(s[m])
    requires k < |s| ==> !IsMantissaChar(s[k])
    ensures MantissaEnd(s, i) == k
    decreases k - i
  {
    if i < k {
      MantissaEndIs(s, i + 1, k);
    }
  }

  /** Characters a unit takes up. */
  function UnitWidth(u: Unit): nat
  {
    match u
    case Nanosecond | Microsecond | Millisecond => 2
    case _ => 1
  }

  /** The unit named at position `i`: the two-letter units first (`ns`,
      then `us`, `µs` or `μs`, then `ms`), then the first letter alone. */
  function UnitAt(s: string, i: nat): (r: Option<Unit>)
    requires i < |s|
    ensures r.Some? ==> i + UnitWidth(r.value) <= |s|
  {
    var secondIsS := i + 1 < |s| && s[i + 1] == 's';
    if secondIsS && s[i] == 'n' then Some(Nanosecond)
    else if secondIsS && (s[i] == 'u' || s[i] == '\U{00B5}' || s[i] == '\U{03BC}') then Some(Microsecond)
    else if secondIsS && s[i] == 'm' then Some(Millisecond)
    else if s[i] == 's' then Some(Second)
    else if s[i] == 'm' then Some(Minute)
    else if s[i] == 'h' then Some(Hour)
    else None
  }

  /** Which characters name a unit: `s`, `m` or `h` alone, or `n`, `u`, `µ`
      (micro sign) or `μ` (Greek mu) followed by `s`. */
  lemma UnitNamed(s: string, i: nat)
    requires i < |s|
    ensures UnitAt(s, i).Some?
        <==> s[i] in "smh" || (i + 1 < |s| && s[i + 1] == 's' && s[i] in "nu\U{00B5}\U{03BC}")
  {
  }

  /** The two-character window `s.slice(i, i + 2)`, clamped at the end. */
  function Window(s: string, i: nat): (w: string)
    requires i < |s|
    ensures 1 <= |w| <= 2 && w[0] == s[i]
    ensures |w| == 2 <==> i + 1 < |s|
    ensures |w| == 2 ==> w[1] == s[i + 1]
  {
    if i + 2 <= |s| then s[i..i + 2] else s[i..]
  }

  /** Comparing the window with a two-letter unit compares its two characters. */
  lemma WindowIs(s: string, i: nat, a: char, b: char)
    requires i < |s|
    ensures Window(s, i) == [a, b] <==> i + 1 < |s| && s[i] == a && s[i + 1] == b
  {
    var w := Window(s, i);
    if i + 1 < |s| && s[i] == a && s[i + 1] == b {
      assert w == [a, b];
    }
  }

  /** The scanner's test of the window, in its order: whole two-letter
      units first, then the first character alone. */
  function UnitOfWindow(w: string): Option<Unit>
    requires |w| > 0
  {
    if w == "ns" then Some(Nanosecond)
    else if w == "us" || w == "\U{00B5}s" || w == "\U{03BC}s" then Some(Microsecond)
    else if w == "ms" then Some(Millisecond)
    else if w[0] == 's' then Some(Second)
    else if w[0] == 'm' then Some(Minute)
    else if w[0] == 'h' then Some(Hour)
    else None
  }

  /** Testing the window names the same unit as reading the characters. */
  lemma UnitOfWindowAt(s: string, i: nat)
    requires i < |s|
    ensures UnitOfWindow(Window(s, i)) == UnitAt(s, i)
  {
    WindowIs(s, i, 'n', 's');
    WindowIs(s, i, 'u', 's');
    WindowIs(s, i, '\U{00B5}', 's');
    WindowIs(s, i, '\U{03BC}', 's');
    WindowIs(s, i, 'm', 's');
  }

  /** The milliseconds that `n` of unit `u` stand for. */
  function ToMs(n: real, u: Unit, units: Units): real
  {
    match u
    case Nanosecond => n / 1000000.0
    case Microsecond => n / 1000.0
    case Millisecond => n
    case Second => n * 1000.0
    case Minute => if units.WrittenUnits? then n * 600000.0 else n * 60000.0
    case Hour => if units.WrittenUnits? then n * 360000.0 else n * 3600000.0
  }

  /** One segment: the text of its mantissa and the unit that follows. */
  datatype Segment = Segment(mantissa: string, unit: Unit)

  /** Characters a segment takes up. */
  function Width(seg: Segment): nat
  {
    |seg.mantissa| + UnitWidth(seg.unit)
  }

  /** The segment that starts at `i`: the mantissa runs to the first
      character that is neither a digit nor a point, and a unit must be
      named there. `None` when the run reaches the end of the string or no
      unit follows it. */
  function ScanSegment(s: string, i: nat): (r: Option<Segment>)
    requires i < |s|
    ensures r.Some? ==> 0 < Width(r.value) && i + Width(r.value) <= |s|
  {
    var k := MantissaEnd(s, i);
    if k == |s| then None
    else
      match UnitAt(s, k)
      case None => None
      case Some(u) => Some(Segment(s[i..k], u))
  }

  /** The milliseconds of one segment; `None` when its mantissa is not a
      number. */
  function SegmentMs(seg: Segment, units: Units): Option<real>
  {
    match ParseFloat(seg.mantissa)
    case None => None
    case Some(n) => Some(ToMs(n, seg.unit, units))
  }

  /** Addition where `NaN` absorbs everything. */
  function Add(a: Option<real>, b: Option<real>): (r: Option<real>)
    ensures r.Some? <==> a.Some? && b.Some?
  {
    match (a, b)
    case (Some(x), Some(y)) => Some(x + y)
    case _ => None
  }

  /** The milliseconds of the segments from `i` to the end, added up;
      `None` when one cannot be read or its mantissa is not a number. */
  function SegmentsMs(s: string, i: nat, units: Units): Option<real>
    requires i <= |s|
    decreases |s| - i
  {
    if i == |s| then Some(0.0)
    else
      match ScanSegment(s, i)
      case None => None
      case Some(seg) => Add(SegmentMs(seg, units), SegmentsMs(s, i + Width(seg), units))
  }

  /** The milliseconds a duration string stands for: an optional sign, then
      segments whose milliseconds add up; `None` is JavaScript's `NaN`. */
  function DurationToMs(s: string, units: Units): Option<real>
  {
    match SegmentsMs(s, SignLength(s), units)
    case None => None
    case Some(t) => Some(if |s| > 0 && s[0] == '-' then -t else t)
  }

  /** The scanner's loop as a function: `acc` milliseconds read so far and
      the scan at `i`. The loop test and the loop body are the two halves of
      a mutual recursion. */
  function ScanFrom(s: string, i: nat, acc: real, units: Units): Option<real>
    requires i <= |s|
    decreases |s| - i, 1
  {
    if i < |s| then ScanStep(s, i, acc, units) else Some(acc)
  }

  function ScanStep(s: string, i: nat, acc: real, units: Units): Option<real>
    requires i < |s|
    decreases |s| - i, 0
  {
    match ScanSegment(s, i)
    case None => None
    case Some(seg) =>
      match ParseFloat(seg.mantissa)
      case None => None
      case Some(n) => ScanFrom(s, i + Width(seg), acc + ToMs(n, seg.unit, units), units)
  }

  /** One turn of the loop, on a segment whose mantissa is the number `n`. */
  lemma ScanStepAdds(s: string, i: nat, seg: Segment, n: real, next: nat, acc: real, acc': real, units: Units)
    requires i < |s| && ScanSegment(s, i) == Some(seg) && ParseFloat(seg.mantissa) == Some(n)
    requires next == i + Width(seg) && acc' == acc + ToMs(n, seg.unit, units)
    ensures next <= |s|
    ensures ScanFrom(s, i, acc, units) == ScanFrom(s, next, acc', units)
  {
  }

  /** A segment that cannot be read, or whose mantissa is not a number,
      makes both the loop and the sum `NaN`. */
  lemma ScanStepNaN(s: string, i: nat, acc: real, units: Units)
    requires i < |s|
    requires ScanSegment(s, i).None? || ParseFloat(ScanSegment(s, i).value.mantissa).None?
    ensures ScanFrom(s, i, acc, units) == None && SegmentsMs(s, i, units) == None
  {
  }

  /** A segment whose mantissa is the number `n` contributes its
      milliseconds to the sum. */
  lemma SegmentsMsStep(s: string, i: nat, seg: Segment, n: real, next: nat, units: Units)
    requires i < |s| && ScanSegment(s, i) == Some(seg) && ParseFloat(seg.mantissa) == Some(n)
    requires next == i + Width(seg)
    ensures next <= |s|
    ensures SegmentsMs(s, i, units) == Add(Some(ToMs(n, seg.unit, units)), SegmentsMs(s, next, units))
  {
  }

  /** Adding `acc + x` at once is adding `x`, then `acc`. */
  lemma AddRegroup(acc: real, x: real, sum: real, rest: Option<real>)
    requires sum == acc + x
    ensures Add(Some(sum), rest) == Add(Some(acc), Add(Some(x), rest))
  {
  }

  /** The loop computes the sum of the segments: from `i` on, it adds the
      milliseconds of the remaining segments to `acc`. */
  lemma {:induction false} ScanFromSegments(s: string, i: nat, acc: real, units: Units)
    requires i <= |s|
    ensures ScanFrom(s, i, acc, units) == Add(Some(acc), SegmentsMs(s, i, units))
    decreases |s| - i, 1
  {
    if i < |s| {
      if ScanSegment(s, i).None? || ParseFloat(ScanSegment(s, i).value.mantissa).None? {
        ScanStepNaN(s, i, acc, units);
      } else {
        var seg := ScanSegment(s, i).value;
        ScanFromSegmentsStep(s, i, acc, units, seg, ParseFloat(seg.mantissa).value, i + Width(seg));
      }
    }
  }

  /** The inductive step of `ScanFromSegments`, on a segment whose mantissa
      is the number `n`. */
  lemma {:induction false} ScanFromSegmentsStep(s: string, i: nat, acc: real, units: Units, seg: Segment, n: real, next: nat)
    requires i < |s| && ScanSegment(s, i) == Some(seg) && ParseFloat(seg.mantissa) == Some(n)
    requires next == i + Width(seg)
    ensures ScanFrom(s, i, acc, units) == Add(Some(acc), SegmentsMs(s, i, units))
    decreases |s| - i, 0
  {
    var x := ToMs(n, seg.unit, units);
    var sum := acc + x;
    ScanStepAdds(s, i, seg, n, next, acc, sum, units);
    SegmentsMsStep(s, i, seg, n, next, units);
    ScanFromSegments(s, next, sum, units);
    AddRegroup(acc, x, sum, SegmentsMs(s, next, units));
  }

  /** When the scan from just after the sign ends in `NaN`, so does the
      whole string. */
  lemma ScanFromNaN(s: string, units: Units)
    requires ScanFrom(s, SignLength(s), 0.0, units) == None
    ensures DurationToMs(s, units) == None
  {
    ScanFromSegments(s, SignLength(s), 0.0, units);
    assert SegmentsMs(s, SignLength(s), units) == None;
  }

  /** When the scan from just after the sign adds up to `m`, so do the
      segments. */
  lemma ScanFromTotal(s: string, units: Units, m: real)
    requires ScanFrom(s, SignLength(s), 0.0, units) == Some(m)
    ensures SegmentsMs(s, SignLength(s), units) == Some(m)
  {
    ScanFromSegments(s, SignLength(s), 0.0, units);
  }

  /** When the segments after the sign add up to `m`, the string stands
      for `m`, negated when it starts with `-`. */
  lemma SignedTotal(s: string, units: Units, m: real, neg: bool)
    requires SegmentsMs(s, SignLength(s), units) == Some(m)
    requires neg <==> |s| > 0 && s[0] == '-'
    ensures DurationToMs(s, units) == Some(m * (if neg then -1.0 else 1.0))
  {
    assert (if neg then -m else m) == m * (if neg then -1.0 else 1.0);
  }

  /** The facts the mantissa scan establishes about `j`: the characters
      before `j - 1` are digits or points, and `j - 1` is the first that is
      not, unless the run reached the end of the string. */
  predicate ScannedTo(s: string, i: nat, j: nat)
  {
    && i < j <= |s|
    && (forall m :: i <= m < j - 1 ==> IsMantissaChar(s[m]))
    && (j < |s| ==> !IsMantissaChar(s[j - 1]))
    && (j == |s| ==> !IsMantissaChar(s[j - 1]) || MantissaEnd(s, i) == |s|)
  }

  /** After the scan, the segment at `i` is the text up to `j - 1` and the
      unit named at `j - 1`, if there is one. */
  lemma ScanAt(s: string, i: nat, j: nat)
    requires ScannedTo(s, i, j)
    ensures UnitAt(s, j - 1).None? ==> ScanSegment(s, i) == None
    ensures UnitAt(s, j - 1).Some? ==> ScanSegment(s, i) == Some(Segment(s[i..j - 1], UnitAt(s, j - 1).value))
  {
    if !IsMantissaChar(s[j - 1]) {
      MantissaEndIs(s, i, j - 1);
    } else {
      assert UnitAt(s, j - 1) == None;
    }
  }

  /** A segment whose mantissa is not a number stops the scan with `NaN`. */
  lemma NoNumber(s: string, start: nat, j: nat, acc: real, units: Units)
    requires ScannedTo(s, start, j)
    requires ParseFloat(s[start..j - 1]).None?
    ensures ScanFrom(s, start, acc, units) == None
  {
    ScanAt(s, start, j);
  }

  /** A mantissa followed by no unit stops the scan with `NaN`; `k` is the
      position after the mantissa and `unitStr` the window the scanner tests
      there. */
  lemma NoUnit(s: string, start: nat, j: nat, k: nat, unitStr: string, acc: real, units: Units)
    requires ScannedTo(s, start, j) && k == j - 1 && unitStr == Window(s, k)
    requires UnitOfWindow(unitStr).None?
    ensures ScanFrom(s, start, acc, units) == None
  {
    UnitOfWindowAt(s, k);
    ScanAt(s, start, j);
  }

  /** A segment that is read moves the scan past it and adds its
      milliseconds. */
  lemma StepAdds(s: string, start: nat, j: nat, k: nat, unitStr: string, acc: real, n: real, next: nat, acc': real, units: Units)
    requires ScannedTo(s, start, j) && k == j - 1 && unitStr == Window(s, k)
    requires ParseFloat(s[start..j - 1]) == Some(n) && UnitOfWindow(unitStr).Some?
    requires next == k + UnitWidth(UnitOfWindow(unitStr).value)
    requires acc' == acc + ToMs(n, UnitOfWindow(unitStr).value, units)
    ensures next <= |s|
    ensures ScanFrom(s, start, acc, units) == ScanFrom(s, next, acc', units)
  {
    UnitOfWindowAt(s, k);
    ScanAt(s, start, j);
    var seg := Segment(s[start..k], UnitOfWindow(unitStr).value);
    assert ScanSegment(s, start) == Some(seg);
    ScanStepAdds(s, start, seg, n, next, acc, acc', units);
  }

  /** The do-while loop of the scanner: `j` ends one past the first
      character at or after `i` that is neither a digit nor a point, or at the
      end of the string. */
  method ScanMantissa(dur: string, i: nat) returns (j: nat)
    requires i < |dur|
    ensures j == if MantissaEnd(dur, i) < |dur| then MantissaEnd(dur, i) + 1 else |dur|
    ensures ScannedTo(dur, i, j)
  {
    var len := |dur|;
    j := i;
    while true
      invariant i <= j < len
      invariant forall m :: i <= m < j ==> IsMantissaChar(dur[m])
      decreases len - j
    {
      if !IsMantissaChar(dur[j]) {
        MantissaEndIs(dur, i, j);
        j := j + 1;
        break;
      }
      j := j + 1;
      if j >= len {
        MantissaEndIs(dur, i, len);
        break;
      }
    }
  }

  /** The scanner's dispatch on the two characters after the mantissa:
      whole two-letter units first, then the first character alone. Adds the
      milliseconds of `n` of that unit to `millis` and says how many
      characters the unit takes up; `ok` is false when no unit is named. */
  method AddUnit(unitStr: string, n: real, millis: real) returns (ok: bool, sum: real, width: nat)
    requires |unitStr| > 0
    ensures ok <==> UnitOfWindow(unitStr).Some?
    ensures ok ==> sum == millis + ToMs(n, UnitOfWindow(unitStr).value, WrittenUnits)
    ensures ok ==> width == UnitWidth(UnitOfWindow(unitStr).value)
  {
    ok, sum, width := true, millis, 0;
    if unitStr == "ns" {
      sum := millis + n / 1000000.0;
      width := 2;
    } else if unitStr == "us" || unitStr == "\U{00B5}s" || unitStr == "\U{03BC}s" {
      sum := millis + n / 1000.0;
      width := 2;
    } else if unitStr == "ms" {
      sum := millis + n;
      width := 2;
    } else if unitStr[0] == 's' {
      sum := millis + n * 1000.0;
      width := 1;
    } else if unitStr[0] == 'm' {
      sum := millis + n * 600000.0;
      width := 1;
    } else if unitStr[0] == 'h' {
      sum := millis + n * 360000.0;
      width := 1;
    } else {
      ok := false;
    }
  }

  /** The scanner as written: an optional sign, then a loop that scans a
      mantissa, parses it and dispatches on the unit that follows, adding
      each segment's milliseconds to `millis`. */
  method DurationStringToMs(dur: string) returns (r: Option<real>)
    ensures r == DurationToMs(dur, WrittenUnits)
  {
    var millis := 0.0;
    var neg := false;
    var len := |dur|;
    var i := 0;
    if len > 0 && dur[0] == '-' {
      neg := true;
      i := i + 1;
    } else if len > 0 && dur[0] == '+' {
      i := i + 1;
    }
    assert i == SignLength(dur);
    ghost var whole := ScanFrom(dur, SignLength(dur), 0.0, WrittenUnits);
    while i < len
      invariant 0 <= i <= len
      invariant neg <==> len > 0 && dur[0] == '-'
      invariant ScanFrom(dur, i, millis, WrittenUnits) == whole
      decreases len - i
    {
      ghost var start, before := i, millis;
      var j := ScanMantissa(dur, i);
      // The do-while body runs at least once, so the source's empty-mantissa
      // guard `i === j` can never fire.
      assert i < j;
      var n := ParseFloat(dur[i..j - 1]);
      if n.None? {
        NoNumber(dur, start, j, before, WrittenUnits);
        ScanFromNaN(dur, WrittenUnits);
        return None;
      }
      i := j - 1;
      var unitStr := Window(dur, i);
      var ok, width;
      ok, millis, width := AddUnit(unitStr, n.value, millis);
      if !ok {
        NoUnit(dur, start, j, i, unitStr, before, WrittenUnits);
        ScanFromNaN(dur, WrittenUnits);
        return None;
      }
      ghost var k := i;
      i := i + width;
      StepAdds(dur, start, j, k, unitStr, before, n.value, i, millis, WrittenUnits);
    }
    ScanFromTotal(dur, WrittenUnits, millis);
    SignedTotal(dur, WrittenUnits, millis, neg);
    r := Some(millis * (if neg then -1.0 else 1.0));
  }
}
