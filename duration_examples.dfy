/** Worked readings of duration strings, and the hour and minute factors
    the reader uses compared with Go's. */
module DurationExamples {
  import opened Options
  import opened FloatParse
  import opened Duration
  import opened DurationProps

  /** "3.4" reads as 3.4. */
  lemma DecimalThreeFour()
    ensures ParseFloat("3.4") == Some(3.4)
  {
    assert DigitsValue("3", 0, 1) == 3 && FractionValue("4", 0, 1) == 0.4;
    ParseFloatDecimal("3", "4");
    assert "3" + "." + "4" == "3.4";
  }

  /** A whole number of one unit. */
  lemma WholeAmount(n: nat, digits: string, u: Unit, s: string, units: Units)
    requires digits == NatToString(n) && s == digits + Symbol(u)
    ensures DurationToMs(s, units) == Some(ToMs(n as real, u, units))
  {
    ParseFloatOfNat(n);
    SingleSegment(digits, u, n as real, s, units);
  }

  /** `m` alone is minutes, `ms` is milliseconds: the two-letter unit wins. */
  lemma ExampleMinuteAndMillisecond()
    ensures DurationToMs("5m", WrittenUnits) == Some(3000000.0)
    ensures DurationToMs("5ms", WrittenUnits) == Some(5.0)
  {
    var digits := NatToString(5);
    assert digits == "5";
    var minutes, millis := "5m", "5ms";
    assert minutes == digits + Symbol(Minute);
    assert millis == digits + Symbol(Millisecond);
    WholeAmount(5, digits, Minute, minutes, WrittenUnits);
    WholeAmount(5, digits, Millisecond, millis, WrittenUnits);
  }

  /** The micro sign spelling of microseconds. */
  lemma ExampleMicroseconds()
    ensures DurationToMs("500\U{00B5}s", WrittenUnits) == Some(0.5)
  {
    var digits := NatToString(500);
    assert NatToString(5) == "5" && NatToString(50) == "50";
    assert digits == "500";
    var s := "500\U{00B5}s";
    assert s == digits + Symbol(Microsecond);
    WholeAmount(500, digits, Microsecond, s, WrittenUnits);
  }

  /** A leading minus negates the total. */
  lemma ExampleNegative()
    ensures DurationToMs("-2ms", WrittenUnits) == Some(-2.0)
  {
    var digits := NatToString(2);
    assert digits == "2";
    var t := digits + Symbol(Millisecond);
    WholeAmount(2, digits, Millisecond, t, WrittenUnits);
    NegativeSign(t, WrittenUnits);
    assert ['-'] + t == "-2ms";
  }

  /** The empty string and a lone sign read as 0, not `NaN`. */
  lemma ExampleEmptyAndSignOnly()
    ensures DurationToMs("", WrittenUnits) == Some(0.0)
    ensures DurationToMs("-", WrittenUnits) == Some(0.0)
    ensures DurationToMs("+", WrittenUnits) == Some(0.0)
  {
    NoSegments("", WrittenUnits);
    NoSegments("-", WrittenUnits);
    NoSegments("+", WrittenUnits);
  }

  /** An unknown unit, and a number without a unit, are `NaN`. */
  lemma ExampleNaN()
    ensures DurationToMs("5x", WrittenUnits) == None
    ensures DurationToMs("5", WrittenUnits) == None
  {
    var s := "5x";
    MantissaEndIs(s, 0, 1);
    UnknownUnitIsNaN(s, 0, WrittenUnits);
    BareNumberIsNaN("5", WrittenUnits);
  }

  /** "1h2m3.4s" is the parts `1h2m` followed by the segment `3.4s`. */
  lemma MixedUnitsText(s: string, parts: seq<Part>, b: string)
    requires s == "1h2m3.4s" && parts == [Part(1, Hour), Part(2, Minute)]
    requires b == "3.4" + Symbol(Second)
    ensures s == FormatParts(parts) + b
  {
    assert NatToString(1) == "1" && NatToString(2) == "2";
    assert FormatParts(parts[1..]) == "2m";
    assert FormatParts(parts) == "1h2m";
  }

  /** Whole parts followed by one more segment. */
  lemma PartsThenSegment(s: string, parts: seq<Part>, m: string, n: real, u: Unit, b: string,
                         x: real, y: real, units: Units)
    requires parts != [] && s == FormatParts(parts) + b
    requires m != [] && (forall k :: 0 <= k < |m| ==> IsMantissaChar(m[k]))
    requires ParseFloat(m) == Some(n) && b == m + Symbol(u)
    requires x == PartsMs(parts, units) && y == ToMs(n, u, units)
    ensures DurationToMs(s, units) == Some(x + y)
  {
    var a := FormatParts(parts);
    SingleSegment(m, u, n, b, units);
    FormatPartsRoundTrip(parts, units);
    assert b[0] == m[0];
    ConcatTotal(a, b, s, x, y, x + y, units);
  }

  /** The milliseconds of two parts. */
  lemma TwoPartsMs(parts: seq<Part>, p: Part, q: Part, units: Units, x: real, y: real)
    requires parts == [p, q]
    requires x == ToMs(p.amount as real, p.unit, units) && y == ToMs(q.amount as real, q.unit, units)
    ensures PartsMs(parts, units) == x + y
  {
    assert parts[1..] == [q];
    assert PartsMs([q], units) == y + PartsMs([], units);
  }

  /** "1h2m3.4s" under the factors as written (360000 per hour, 600000 per
      minute) and under Go's (3600000 and 60000). */
  lemma ExampleMixedUnits()
    ensures DurationToMs("1h2m3.4s", WrittenUnits) == Some(1563400.0)
    ensures DurationToMs("1h2m3.4s", GoUnits) == Some(3723400.0)
  {
    var s := "1h2m3.4s";
    var p, q := Part(1, Hour), Part(2, Minute);
    var parts := [p, q];
    var m := "3.4";
    var b := m + Symbol(Second);
    TwoPartsMs(parts, p, q, WrittenUnits, 360000.0, 1200000.0);
    TwoPartsMs(parts, p, q, GoUnits, 3600000.0, 120000.0);
    MixedUnitsText(s, parts, b);
    DecimalThreeFour();
    PartsThenSegment(s, parts, m, 3.4, Second, b, 1560000.0, 3400.0, WrittenUnits);
    PartsThenSegment(s, parts, m, 3.4, Second, b, 3720000.0, 3400.0, GoUnits);
  }

  /** As written, an hour is worth less than a minute: `n` hours read as
      `360000 n` milliseconds and `n` minutes as `600000 n`. */
  lemma WrittenHourShorterThanMinute(n: nat)
    requires n > 0
    ensures DurationToMs(FormatParts([Part(n, Hour)]), WrittenUnits) == Some(360000.0 * n as real)
    ensures DurationToMs(FormatParts([Part(n, Minute)]), WrittenUnits) == Some(600000.0 * n as real)
    ensures 360000.0 * n as real < 600000.0 * n as real
  {
    FormatPartsRoundTrip([Part(n, Hour)], WrittenUnits);
    FormatPartsRoundTrip([Part(n, Minute)], WrittenUnits);
  }

  /** With Go's factors an hour is sixty minutes and a minute sixty
      seconds. */
  lemma GoHourIsSixtyMinutes(n: nat)
    ensures DurationToMs(FormatParts([Part(n, Hour)]), GoUnits)
         == Some(60.0 * PartsMs([Part(n, Minute)], GoUnits))
    ensures DurationToMs(FormatParts([Part(n, Minute)]), GoUnits)
         == Some(60.0 * PartsMs([Part(n, Second)], GoUnits))
  {
    FormatPartsRoundTrip([Part(n, Hour)], GoUnits);
    FormatPartsRoundTrip([Part(n, Minute)], GoUnits);
  }
}
