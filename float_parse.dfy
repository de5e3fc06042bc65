/** The part of JavaScript's `parseFloat` that the metrics parsers rely on:
    an optional sign, a run of decimal digits, an optional decimal point
    followed by more digits. Parsing is lenient: the longest numeric prefix
    is read and whatever follows it is ignored. A string without a numeric
    prefix gives `None` (JavaScript's `NaN`).

    Also here: the decimal rendering of natural numbers, which JavaScript
    uses when a number is interpolated into a string. */
module FloatParse {
  import opened Options

  predicate IsDigit(c: char) { '0' <= c <= '9' }

  predicate AllDigits(s: string) { forall k :: 0 <= k < |s| ==> IsDigit(s[k]) }

  /** The value of a decimal digit (and 0 for any other character, which
      the parser never passes). */
  function DigitValue(c: char): (d: nat)
    ensures d < 10
  {
    if IsDigit(c) then c as int - '0' as int else 0
  }

  function DigitChar(d: nat): (c: char)
    requires d < 10
    ensures IsDigit(c) && DigitValue(c) == d
  {
    ('0' as int + d) as char
  }

  /** The characters in `[i, e)` are all digits. */
  predicate DigitsBetween(s: string, i: nat, e: nat)
    requires i <= e <= |s|
  {
    forall k :: i <= k < e ==> IsDigit(s[k])
  }

  /** The end of the maximal run of digits that starts at `i`. */
  function DigitRunEnd(s: string, i: nat): (e: nat)
    requires i <= |s|
    ensures i <= e <= |s|
    ensures DigitsBetween(s, i, e)
    ensures e < |s| ==> !IsDigit(s[e])
    decreases |s| - i
  {
    if i < |s| && IsDigit(s[i]) then DigitRunEnd(s, i + 1) else i
  }

  /** The value of the digits in `[i, e)`, most significant first. */
  function DigitsValue(s: string, i: nat, e: nat): nat
    requires i <= e <= |s|
    decreases e - i
  {
    if e == i then 0 else 10 * DigitsValue(s, i, e - 1) + DigitValue(s[e - 1])
  }

  /** The value of the digits in `[i, f)` read after a decimal point. */
  function FractionValue(s: string, i: nat, f: nat): (v: real)
    requires i <= f <= |s|
    ensures 0.0 <= v < 1.0
    decreases f - i
  {
    if i == f then 0.0 else (DigitValue(s[i]) as real + FractionValue(s, i + 1, f)) / 10.0
  }

  /** One leading `-` or `+` is a sign. */
  function SignLength(s: string): (p: nat)
    ensures p <= 1 && p <= |s|
    ensures p == 1 <==> |s| > 0 && (s[0] == '-' || s[0] == '+')
  {
    if |s| > 0 && (s[0] == '-' || s[0] == '+') then 1 else 0
  }

  /** A numeric literal starts at `p`: a digit, or a point followed by a digit. */
  predicate StartsNumber(s: string, p: nat)
  {
    p < |s| && (IsDigit(s[p]) || (s[p] == '.' && p + 1 < |s| && IsDigit(s[p + 1])))
  }

  /** Where the longest numeric prefix after the sign lies: its whole digits
      in `[start, point)`, its fraction digits in `[fraction, end)`. */
  datatype Span = Span(start: nat, point: nat, fraction: nat, end: nat)

  function NumericSpan(s: string): (sp: Span)
    ensures sp.start == SignLength(s)
    ensures sp.start <= sp.point <= sp.fraction <= sp.end <= |s|
    ensures sp.start == sp.point && sp.fraction == sp.end <==> !StartsNumber(s, SignLength(s))
  {
    var p := SignLength(s);
    var e := DigitRunEnd(s, p);
    if e < |s| && s[e] == '.' then Span(p, e, e + 1, DigitRunEnd(s, e + 1))
    else Span(p, e, e, e)
  }

  /** The value of the decimal literal with whole digits `whole` and fraction
      digits `fraction`. */
  function DecimalValue(whole: string, fraction: string): (v: real)
    ensures v >= 0.0
  {
    DigitsValue(whole, 0, |whole|) as real + FractionValue(fraction, 0, |fraction|)
  }

  /** The value of the longest numeric prefix, read off where its parts
      lie; `None` when there is none. */
  function PrefixValue(s: string): (r: Option<real>)
    ensures r.Some? <==> StartsNumber(s, SignLength(s))
    ensures r.Some? && !(|s| > 0 && s[0] == '-') ==> r.value >= 0.0
  {
    var sp := NumericSpan(s);
    if sp.start == sp.point && sp.fraction == sp.end then None
    else
      var magnitude := DigitsValue(s, sp.start, sp.point) as real + FractionValue(s, sp.fraction, sp.end);
      Some(if |s| > 0 && s[0] == '-' then -magnitude else magnitude)
  }

  /** `parseFloat`, read left to right: the optional sign, then whole
      digits accumulated in `whole` (`seen` once there is one), then an
      optional point and fraction digits. */
  function ParseFloat(s: string): Option<real>
  {
    match WholeDigits(s, SignLength(s), 0, false)
    case None => None
    case Some(v) => Some(if |s| > 0 && s[0] == '-' then -v else v)
  }

  function WholeDigits(s: string, i: nat, whole: nat, seen: bool): Option<real>
    requires i <= |s|
    decreases |s| - i
  {
    if i < |s| && IsDigit(s[i]) then WholeDigits(s, i + 1, 10 * whole + DigitValue(s[i]), true)
    else if i < |s| && s[i] == '.' && (seen || (i + 1 < |s| && IsDigit(s[i + 1]))) then
      Some(whole as real + FractionValue(s, i + 1, DigitRunEnd(s, i + 1)))
    else if seen then Some(whole as real)
    else None
  }

  /** Reading whole digits from `i` to `e` accumulates their value. */
  lemma {:induction false} WholeDigitsRun(s: string, p: nat, i: nat, e: nat, seen: bool)
    requires p <= i <= e <= |s| && DigitsBetween(s, i, e)
    ensures WholeDigits(s, i, DigitsValue(s, p, i), seen) == WholeDigits(s, e, DigitsValue(s, p, e), seen || i < e)
    decreases e - i
  {
    if i < e {
      var next := 10 * DigitsValue(s, p, i) + DigitValue(s[i]);
      assert DigitsValue(s, p, i + 1) == next;
      WholeDigitsRun(s, p, i + 1, e, true);
    }
  }

  /** The left-to-right reader agrees with the reference reading. */
  lemma ParseFloatIsPrefixValue(s: string)
    ensures ParseFloat(s) == PrefixValue(s)
  {
    var p := SignLength(s);
    var e := DigitRunEnd(s, p);
    WholeDigitsRun(s, p, p, e, false);
    var f := if e < |s| && s[e] == '.' then DigitRunEnd(s, e + 1) else e;
    if e + 1 < |s| && s[e] == '.' {
      assert f == e + 1 <==> !IsDigit(s[e + 1]);
    }
  }

  /** The decimal rendering of a natural number, without leading zeros. */
  function NatToString(n: nat): (s: string)
    ensures |s| > 0 && AllDigits(s)
  {
    if n < 10 then [DigitChar(n)] else NatToString(n / 10) + [DigitChar(n % 10)]
  }

  /** Digit values depend only on the characters they read: `[i, e)` of `s`
      holds the same characters as `[j, k)` of `t`. */
  lemma {:induction false} DigitsValueShift(s: string, i: nat, e: nat, t: string, j: nat, k: nat)
    requires i <= e <= |s| && j <= k <= |t| && e - i == k - j
    requires forall m :: i <= m < e ==> s[m] == t[j + (m - i)]
    ensures DigitsValue(s, i, e) == DigitsValue(t, j, k)
    decreases e - i
  {
    if e > i {
      DigitsValueShift(s, i, e - 1, t, j, k - 1);
      assert s[e - 1] == t[k - 1];
    }
  }

  lemma {:induction false} FractionValueShift(s: string, i: nat, e: nat, t: string, j: nat, k: nat)
    requires i <= e <= |s| && j <= k <= |t| && e - i == k - j
    requires forall m :: i <= m < e ==> s[m] == t[j + (m - i)]
    ensures FractionValue(s, i, e) == FractionValue(t, j, k)
    decreases e - i
  {
    if e > i {
      FractionValueShift(s, i + 1, e, t, j + 1, k);
      assert s[i] == t[j];
    }
  }

  lemma {:induction false} DigitsValueOfNatToString(n: nat)
    ensures DigitsValue(NatToString(n), 0, |NatToString(n)|) == n
  {
    if n >= 10 {
      var s := NatToString(n);
      var t := NatToString(n / 10);
      assert s == t + [DigitChar(n % 10)];
      DigitsValueShift(t, 0, |t|, s, 0, |t|);
      DigitsValueOfNatToString(n / 10);
    }
  }

  /** Round trip: parsing the rendering of `n` gives `n` back. */
  lemma ParseFloatOfNat(n: nat)
    ensures ParseFloat(NatToString(n)) == Some(n as real)
  {
    var s := NatToString(n);
    DigitRunEndIs(s, 0, |s|);
    DigitsValueOfNatToString(n);
    ParseFloatIsPrefixValue(s);
  }

  /** The digit run is determined by where the digits stop. */
  lemma DigitRunEndIs(s: string, i: nat, e: nat)
    requires i <= e <= |s|
    requires DigitsBetween(s, i, e)
    requires e < |s| ==> !IsDigit(s[e])
    ensures DigitRunEnd(s, i) == e
    decreases e - i
  {
    if i < e { DigitRunEndIs(s, i + 1, e); }
  }

  /** A decimal literal `whole.fraction` is read as its value. */
  lemma ParseFloatDecimal(whole: string, fraction: string)
    requires AllDigits(whole) && AllDigits(fraction)
    requires whole != [] || fraction != []
    ensures ParseFloat(whole + "." + fraction) == Some(DecimalValue(whole, fraction))
  {
    var s := whole + "." + fraction;
    var w := |whole|;
    assert SignLength(s) == 0 by {
      if whole != [] { assert s[0] == whole[0]; } else { assert s[0] == '.'; }
    }
    DigitsValueShift(whole, 0, w, s, 0, w);
    FractionValueShift(fraction, 0, |fraction|, s, w + 1, |s|);
    DigitRunEndIs(s, 0, w);
    DigitRunEndIs(s, w + 1, |s|);
    assert NumericSpan(s) == Span(0, w, w + 1, |s|);
    assert s[0] != '-';
    ParseFloatIsPrefixValue(s);
  }

  lemma {:induction false} DigitRunEndAppend(t: string, rest: string, i: nat)
    requires i <= |t|
    requires rest == [] || !IsDigit(rest[0])
    ensures DigitRunEnd(t + rest, i) == DigitRunEnd(t, i)
    decreases |t| - i
  {
    if i < |t| && IsDigit(t[i]) {
      DigitRunEndAppend(t, rest, i + 1);
    }
  }

  /** Text that cannot extend the numeric prefix leaves its span where it
      was. */
  lemma NumericSpanAppend(t: string, rest: string)
    requires t != [] && rest != [] && !IsDigit(rest[0]) && rest[0] != '.'
    ensures SignLength(t + rest) == SignLength(t)
    ensures NumericSpan(t + rest) == NumericSpan(t)
  {
    var s := t + rest;
    var p := SignLength(t);
    assert s[0] == t[0];
    DigitRunEndAppend(t, rest, p);
    var e := DigitRunEnd(t, p);
    if e < |t| && t[e] == '.' {
      DigitRunEndAppend(t, rest, e + 1);
    } else {
      assert !(e < |s| && s[e] == '.');
    }
  }

  /** Leniency: text after the numeric prefix is ignored, as long as it
      cannot extend the prefix (it does not start with a digit or a point,
      nor with a sign that would become the leading sign). */
  lemma ParseFloatAppend(t: string, rest: string)
    requires rest == [] || (!IsDigit(rest[0]) && rest[0] != '.')
    requires t == [] ==> rest == [] || (rest[0] != '-' && rest[0] != '+')
    ensures ParseFloat(t + rest) == ParseFloat(t)
  {
    if t == [] {
      NoNumberAfterSign(rest);
      assert t + rest == rest;
    } else if rest != [] {
      ParseFloatAppendNonEmpty(t, rest);
    } else {
      assert t + rest == t;
    }
  }

  /** A string that does not start with a sign, a digit or a point is not a
      number. */
  lemma NoNumberAfterSign(s: string)
    requires s == [] || (!IsDigit(s[0]) && s[0] != '.' && s[0] != '-' && s[0] != '+')
    ensures ParseFloat(s) == None
  {
    assert SignLength(s) == 0;
  }

  lemma ParseFloatAppendNonEmpty(t: string, rest: string)
    requires t != [] && rest != [] && !IsDigit(rest[0]) && rest[0] != '.'
    ensures ParseFloat(t + rest) == ParseFloat(t)
  {
    var s := t + rest;
    NumericSpanAppend(t, rest);
    var sp := NumericSpan(t);
    DigitsValueShift(t, sp.start, sp.point, s, sp.start, sp.point);
    FractionValueShift(t, sp.fraction, sp.end, s, sp.fraction, sp.end);
    assert s[0] == t[0];
    assert PrefixValue(s) == PrefixValue(t);
    ParseFloatIsPrefixValue(s);
    ParseFloatIsPrefixValue(t);
  }
}
