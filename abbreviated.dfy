/** Numbers with an optional magnitude letter, as the node prints its
    counters: "1.5K", "2M", "3". */
module Abbreviated {
  import opened Options
  import opened FloatParse

  /** The magnitude letters, upper case only, and their factors. */
  function UnitFactor(c: char): Option<real>
  {
    match c
    case 'K' => Some(1000.0)
    case 'M' => Some(1000000.0)
    case 'G' => Some(1000000000.0)
    case 'T' => Some(1000000000000.0)
    case _ => None
  }

  /** The factor that the last character of `s` calls for: its magnitude, or 1. */
  function SuffixFactor(s: string): real
  {
    if |s| > 0 && UnitFactor(s[|s| - 1]).Some? then UnitFactor(s[|s| - 1]).value else 1.0
  }

  function ParseAbbreviatedNumber(s: string): (r: Option<real>)
    ensures r.Some? <==> ParseFloat(s).Some?
  {
    if |s| > 0 && UnitFactor(s[|s| - 1]).Some? then
      var rest := s[..|s| - 1];
      assert s == rest + [s[|s| - 1]];
      ParseFloatAppend(rest, [s[|s| - 1]]);
      Scale(ParseFloat(rest), UnitFactor(s[|s| - 1]).value)
    else
      Scale(ParseFloat(s), 1.0)
  }

  /** Stripping the letter and parsing the rest is the same as parsing the
      whole string leniently and scaling by the letter's factor. */
  lemma ScaledParse(s: string)
    ensures ParseAbbreviatedNumber(s) == Scale(ParseFloat(s), SuffixFactor(s))
  {
    if |s| > 0 && UnitFactor(s[|s| - 1]).Some? {
      assert s == s[..|s| - 1] + [s[|s| - 1]];
      ParseFloatAppend(s[..|s| - 1], [s[|s| - 1]]);
    }
  }

  /** Only the last letter counts: a second magnitude letter before it is
      ignored by the lenient parse, not applied as a further factor. */
  lemma OnlyLastLetterScales(t: string, u1: char, u2: char)
    requires UnitFactor(u1).Some? && UnitFactor(u2).Some?
    ensures ParseAbbreviatedNumber(t + [u1, u2]) == Scale(ParseFloat(t), UnitFactor(u2).value)
  {
    var s := t + [u1, u2];
    assert s[..|s| - 1] == t + [u1];
    ParseFloatAppend(t, [u1]);
  }

  /** The rendering of a counter: a natural number and a magnitude letter. */
  function FormatAbbreviated(n: nat, letter: char): (s: string)
    requires UnitFactor(letter).Some?
    ensures |s| > 1 && s[|s| - 1] == letter
  {
    NatToString(n) + [letter]
  }

  /** Round trip: the parser reads a rendered counter back, scaled. */
  lemma ParseFormatted(n: nat, letter: char)
    requires UnitFactor(letter).Some?
    ensures ParseAbbreviatedNumber(FormatAbbreviated(n, letter)) == Some(n as real * UnitFactor(letter).value)
  {
    var s := FormatAbbreviated(n, letter);
    assert s[..|s| - 1] == NatToString(n);
    ParseFloatOfNat(n);
  }

  /** Without a letter, a rendered number is read back unscaled. */
  lemma ParsePlain(n: nat)
    ensures ParseAbbreviatedNumber(NatToString(n)) == Some(n as real)
  {
    ParseFloatOfNat(n);
  }

  /** A magnitude letter at the end scales the number before it. */
  lemma LetterScales(t: string, letter: char, s: string)
    requires UnitFactor(letter).Some? && s == t + [letter]
    ensures ParseAbbreviatedNumber(s) == Scale(ParseFloat(t), UnitFactor(letter).value)
  {
    assert s[..|t|] == t;
  }

  /** A last character that is not a magnitude letter is left to the
      lenient parse, unscaled. */
  lemma NoLetter(t: string, c: char, s: string)
    requires s == t + [c] && UnitFactor(c).None?
    ensures ParseAbbreviatedNumber(s) == ParseFloat(s)
  {
    assert s[|s| - 1] == c;
  }

  lemma DecimalOneFive()
    ensures ParseFloat("1.5") == Some(1.5)
  {
    assert DigitsValue("1", 0, 1) == 1 && FractionValue("5", 0, 1) == 0.5;
    ParseFloatDecimal("1", "5");
    assert "1" + "." + "5" == "1.5";
  }

  lemma DecimalTwoTwo()
    ensures ParseFloat("2.2") == Some(2.2)
  {
    assert DigitsValue("2", 0, 1) == 2 && FractionValue("2", 0, 1) == 0.2;
    ParseFloatDecimal("2", "2");
    assert "2" + "." + "2" == "2.2";
  }

  lemma ExampleKilo()
    ensures ParseAbbreviatedNumber("1.5K") == Some(1500.0)
  {
    var t, s := "1.5", "1.5K";
    DecimalOneFive();
    LetterScales(t, 'K', s);
  }

  lemma ExampleGiga()
    ensures ParseAbbreviatedNumber("2.2G") == Some(2200000000.0)
  {
    var t, s := "2.2", "2.2G";
    DecimalTwoTwo();
    LetterScales(t, 'G', s);
    var product := 2.2 * 1000000000.0;
    assert product == 2200000000.0;
  }

  lemma ExamplePlain()
    ensures ParseAbbreviatedNumber("3") == Some(3.0)
  {
    assert NatToString(3) == "3";
    ParsePlain(3);
  }

  /** Magnitude letters are upper case: a lower-case `g` is trailing text. */
  lemma ExampleLowerCase()
    ensures ParseAbbreviatedNumber("2.2g") == Some(2.2)
  {
    var t := "2.2";
    var s := t + ['g'];
    DecimalTwoTwo();
    ParseFloatAppend(t, ['g']);
    NoLetter(t, 'g', s);
    assert s == "2.2g";
  }

  /** A letter alone is not a number. */
  lemma ExampleLetterOnly()
    ensures ParseAbbreviatedNumber("K") == None
  {
  }
}
