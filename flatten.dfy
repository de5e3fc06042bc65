/** The generic metrics flattener: a nested metrics tree becomes a list of
    dotted-key measurements. Number leaves are kept, string leaves are read
    as a rate-annotated counter or as a duration, arrays are dropped and
    nested objects are entered with a longer key. */
module GenericMetrics {
  import opened Options
  import opened FloatParse
  import opened Abbreviated
  import opened Duration
  import opened DurationProps

  /** A node of a metrics tree as decoded from JSON (`null` leaves are not
      represented). Object fields are listed in `Object.entries` order:
      integer-like keys first, ascending, then the others in insertion
      order. */
  datatype MetricValue =
    | Num(n: real)
    | Str(s: string)
    | Bool(b: bool)
    | Arr(items: seq<MetricValue>)
    | Obj(fields: seq<(string, MetricValue)>)

  /** A dotted key and its value. */
  type Measurement = (string, real)

  // ---------------------------------------------------------------------
  // Field names

  predicate IsUpper(c: char) { 'A' <= c <= 'Z' }

  /** Lower-case for the ASCII letters; every other character is kept. */
  function ToLower(c: char): (r: char)
    ensures !IsUpper(r)
    ensures IsUpper(c) ==> r as int == c as int + 32
    ensures !IsUpper(c) ==> r == c
  {
    if IsUpper(c) then (c as int + 32) as char else c
  }

  /** The name with its first character lower-cased. */
  function Uncapitalize(name: string): (r: string)
    requires |name| > 0
    ensures |r| == |name| && r[1..] == name[1..]
    ensures r[0] == ToLower(name[0])
    ensures !IsUpper(r[0])
    ensures !IsUpper(name[0]) ==> r == name
  {
    [ToLower(name[0])] + name[1..]
  }

  /** Lower-casing the first character twice is lower-casing it once. */
  lemma UncapitalizeIdempotent(name: string)
    requires |name| > 0
    ensures Uncapitalize(Uncapitalize(name)) == Uncapitalize(name)
  {
  }

  /** Names that differ only in the case of their first letter give the
      same key part: `Foo` and `foo` collide. */
  lemma UncapitalizeCollides(name: string)
    requires |name| > 0 && IsUpper(name[0])
    ensures Uncapitalize(name) == Uncapitalize([ToLower(name[0])] + name[1..])
    ensures Uncapitalize(name) != name
  {
  }

  /** The key of field `name` under `prefix`. */
  function Key(prefix: string, name: string): (k: string)
    requires |name| > 0
    ensures |k| == |prefix| + 1 + |name|
    ensures prefix + "." <= k
  {
    prefix + "." + Uncapitalize(name)
  }

  // ---------------------------------------------------------------------
  // Splitting on a separator

  /** The pieces between occurrences of `sep`, as `String.prototype.split`
      with a one-character separator: `k` separators give `k + 1` pieces. */
  function Split(s: string, sep: char): (parts: seq<string>)
    ensures |parts| >= 1
    decreases |s|
  {
    if s == [] then [[]]
    else
      var rest := Split(s[1..], sep);
      if s[0] == sep then [[]] + rest
      else [[s[0]] + rest[0]] + rest[1..]
  }

  /** The pieces put back together with `sep` between them. */
  function Join(parts: seq<string>, sep: char): string
    requires |parts| >= 1
  {
    if |parts| == 1 then parts[0] else parts[0] + [sep] + Join(parts[1..], sep)
  }

  /** How many times `c` occurs in `s`. */
  function Count(s: string, c: char): nat
  {
    if s == [] then 0 else (if s[0] == c then 1 else 0) + Count(s[1..], c)
  }

  /** Splitting loses nothing: joining the pieces gives the string back. */
  lemma {:induction false} SplitJoin(s: string, sep: char)
    ensures Join(Split(s, sep), sep) == s
    decreases |s|
  {
    if s != [] {
      SplitJoin(s[1..], sep);
      var rest := Split(s[1..], sep);
      if s[0] != sep {
        if |rest| > 1 {
          assert Join(Split(s, sep), sep) == [s[0]] + (rest[0] + [sep] + Join(rest[1..], sep));
        }
      }
    }
  }

  /** One piece per separator, plus one; no piece holds the separator. */
  lemma {:induction false} SplitPieces(s: string, sep: char)
    ensures |Split(s, sep)| == Count(s, sep) + 1
    ensures forall k :: 0 <= k < |Split(s, sep)| ==> sep !in Split(s, sep)[k]
    decreases |s|
  {
    if s != [] {
      SplitPieces(s[1..], sep);
    }
  }

  /** Text without the separator is one piece. */
  lemma {:induction false} SplitNone(t: string, sep: char)
    requires sep !in t
    ensures Split(t, sep) == [t]
    decreases |t|
  {
    if t != [] {
      assert sep !in t[1..] && t[0] != sep;
      SplitNone(t[1..], sep);
      assert [t[0]] + t[1..] == t;
    }
  }

  /** Text with the separator exactly once, between `t` and `r`, is the two
      pieces `t` and `r`. */
  lemma {:induction false} SplitOnce(t: string, r: string, sep: char)
    requires sep !in t && sep !in r
    ensures Split(t + [sep] + r, sep) == [t, r]
    decreases |t|
  {
    var s := t + [sep] + r;
    if t == [] {
      assert s[1..] == r;
      SplitNone(r, sep);
    } else {
      assert s[1..] == t[1..] + [sep] + r;
      assert sep !in t[1..];
      SplitOnce(t[1..], r, sep);
      assert [t[0]] + t[1..] == t;
    }
  }

  // ---------------------------------------------------------------------
  // String leaves

  predicate EndsWith(s: string, c: char) { |s| > 0 && s[|s| - 1] == c }

  /** A counter with its per-second rate, such as `1.2K (0.00/s)`: it ends
      with `)`, has exactly one space, and the text before the space is an
      abbreviated number. The rate is discarded. */
  function RateCounter(value: string): Option<real>
  {
    if EndsWith(value, ')') then
      var parts := Split(value, ' ');
      if |parts| == 2 then ParseAbbreviatedNumber(parts[0]) else None
    else None
  }

  /** A string leaf: first as a rate-annotated counter, then, if it ends
      with `s`, as a duration in milliseconds; `None` when neither reads. */
  function DecodeString(value: string, units: Units): Option<real>
  {
    match RateCounter(value)
    case Some(n) => Some(n)
    case None => if EndsWith(value, 's') then DurationToMs(value, units) else None
  }

  /** A counter, a space and a rate ending in `)` read as the counter. */
  lemma RateCounterReads(t: string, rate: string, s: string)
    requires ' ' !in t && ' ' !in rate && EndsWith(rate, ')')
    requires s == t + [' '] + rate
    ensures RateCounter(s) == ParseAbbreviatedNumber(t)
  {
    SplitOnce(t, rate, ' ');
    assert s[|s| - 1] == rate[|rate| - 1];
  }

  /** Conversely, a string read as a counter has that shape. */
  lemma RateCounterShape(s: string, n: real)
    requires RateCounter(s) == Some(n)
    ensures EndsWith(s, ')')
    ensures exists t, rate :: s == t + [' '] + rate && ' ' !in t && ' ' !in rate
                             && ParseAbbreviatedNumber(t) == Some(n)
  {
    var parts := Split(s, ' ');
    SplitJoin(s, ' ');
    SplitPieces(s, ' ');
    assert parts[1..] == [parts[1]];
    assert s == parts[0] + [' '] + parts[1];
    assert ' ' !in parts[0] && ' ' !in parts[1];
  }

  /** Without a counter reading, a string ending in `s` is a duration. */
  lemma DecodeDuration(s: string, units: Units)
    requires !EndsWith(s, ')') && EndsWith(s, 's')
    ensures DecodeString(s, units) == DurationToMs(s, units)
  {
  }

  /** A string ending in neither `)` nor `s` is never read. */
  lemma DecodeNeither(s: string, units: Units)
    requires !EndsWith(s, ')') && !EndsWith(s, 's')
    ensures DecodeString(s, units) == None
  {
  }

  /** No single character is a counter or a duration: `)` has no space and
      `s` alone has no number. */
  lemma CharNeverDecodes(c: char, units: Units)
    ensures DecodeString([c], units) == None
  {
    var s := [c];
    if c == ')' {
      SplitNone(s, ' ');
    } else if c == 's' {
      EmptyMantissaIsNaN(s, 0, units);
      assert SignLength(s) == 0;
    }
  }

  // ---------------------------------------------------------------------
  // The flattener

  /** Every object field name is non-empty (an empty name cannot have its
      first character lower-cased). */
  predicate WellNamed(v: MetricValue)
    decreases v
  {
    match v
    case Obj(fields) =>
      forall i :: 0 <= i < |fields| ==> |fields[i].0| > 0 && WellNamed(fields[i].1)
    case _ => true
  }

  /** The measurements of the entries of `obj` under `prefix`. An object
      lists its fields; a string lists its characters under their indices
      (reached only for a string leaf that could not be read); a boolean
      lists nothing. */
  function Flatten(obj: MetricValue, prefix: string, units: Units): seq<Measurement>
    requires WellNamed(obj)
    decreases 1, obj, 2
  {
    match obj
    case Obj(fields) => FieldsFrom(obj, 0, prefix, units)
    case Str(s) => CharsFrom(obj, 0, prefix, units)
    case _ => []
  }

  /** The measurements of the fields of `obj` from the `i`-th on. */
  function FieldsFrom(obj: MetricValue, i: nat, prefix: string, units: Units): seq<Measurement>
    requires obj.Obj? && WellNamed(obj) && i <= |obj.fields|
    decreases 1, obj, 1, |obj.fields| - i
  {
    if i == |obj.fields| then []
    else
      assert obj.fields[i] in obj.fields;
      Entry(obj.fields[i].0, obj.fields[i].1, prefix, true, units)
        + FieldsFrom(obj, i + 1, prefix, units)
  }

  /** The measurements of the characters of a string from the `i`-th on,
      each a one-character string named by its index. */
  function CharsFrom(obj: MetricValue, i: nat, prefix: string, units: Units): seq<Measurement>
    requires obj.Str? && i <= |obj.s|
    decreases 1, obj, 1, |obj.s| - i
  {
    if i == |obj.s| then []
    else Entry(NatToString(i), Str([obj.s[i]]), prefix, false, units) + CharsFrom(obj, i + 1, prefix, units)
  }

  /** One entry `name: value` of an object (`objIsObject`) or of a string
      being walked character by character. A number is kept; a string that
      reads as a number is kept as that number; an array gives nothing;
      anything else is walked under the longer key, but only when the
      container is an object. */
  function Entry(name: string, value: MetricValue, prefix: string, objIsObject: bool, units: Units)
    : seq<Measurement>
    requires |name| > 0 && WellNamed(value)
    decreases if objIsObject then 1 else 0, value, 3
  {
    var key := Key(prefix, name);
    match value
    case Num(n) => [(key, n)]
    case Arr(_) => []
    case _ =>
      var decoded := if value.Str? then DecodeString(value.s, units) else None;
      if decoded.Some? then [(key, decoded.value)]
      else if objIsObject then Flatten(value, key, units)
      else []
  }

  /** The flattened geth metrics tree. */
  function FormatGethMetrics(metrics: seq<(string, MetricValue)>): seq<Measurement>
    requires WellNamed(Obj(metrics))
  {
    Flatten(Obj(metrics), "geth.metrics", WrittenUnits)
  }
}
