/** A worked flattening: a counter with its rate, a duration and a string
    that is neither. */
module GenericMetricsExamples {
  import opened Options
  import opened FloatParse
  import opened Abbreviated
  import opened Duration
  import opened DurationProps
  import opened GenericMetrics
  import opened GenericMetricsProps

  lemma DecimalOneTwo()
    ensures ParseFloat("1.2") == Some(1.2)
  {
    assert DigitsValue("1", 0, 1) == 1 && FractionValue("2", 0, 1) == 0.2;
    ParseFloatDecimal("1", "2");
    assert "1" + "." + "2" == "1.2";
  }

  /** "1.2K (0.00/s)" reads as the counter 1200; the rate is dropped. */
  lemma CounterLeaf(value: string, units: Units)
    requires value == "1.2K (0.00/s)"
    ensures DecodeString(value, units) == Some(1200.0)
  {
    var t, counter, rate := "1.2", "1.2K", "(0.00/s)";
    DecimalOneTwo();
    LetterScales(t, 'K', counter);
    assert value == counter + [' '] + rate;
    RateCounterReads(counter, rate, value);
  }

  /** "1h0m0s" is one hour: 360000 ms as written, 3600000 with Go's
      factors. */
  lemma UptimeLeaf(value: string, units: Units)
    requires value == "1h0m0s"
    ensures DecodeString(value, units) == Some(ToMs(1.0, Hour, units))
  {
    var parts := [Part(1, Hour), Part(0, Minute), Part(0, Second)];
    assert NatToString(1) == "1" && NatToString(0) == "0";
    assert FormatParts(parts[2..]) == "0s";
    assert FormatParts(parts[1..]) == "0m0s";
    assert FormatParts(parts) == value;
    FormatPartsRoundTrip(parts, units);
    assert PartsMs(parts[2..], units) == 0.0;
    assert PartsMs(parts[1..], units) == 0.0;
    assert value[|value| - 1] == 's';
    DecodeDuration(value, units);
  }

  /** "n/a" ends in neither `)` nor `s`. */
  lemma NoteLeaf(value: string, units: Units)
    requires value == "n/a"
    ensures DecodeString(value, units) == None
  {
    DecodeNeither(value, units);
  }

  /** The keys of the two kept fields under `x`. */
  lemma KeysUnderX()
    ensures Key("x", "counter") == "x.counter"
    ensures Key("x", "uptime") == "x.uptime"
  {
    assert Uncapitalize("counter") == "counter";
    assert Uncapitalize("uptime") == "uptime";
  }

  /** A field whose string reads as `n`, under its key. */
  lemma ReadField(f: (string, MetricValue), n: real, key: string, prefix: string, units: Units)
    requires |f.0| > 0 && f.1.Str? && DecodeString(f.1.s, units) == Some(n)
    requires key == Key(prefix, f.0)
    ensures Flatten(Obj([f]), prefix, units) == [(key, n)]
  {
    StringRead(f.0, f.1.s, n, prefix, units);
  }

  /** A field whose string reads as nothing. */
  lemma DroppedField(f: (string, MetricValue), prefix: string, units: Units)
    requires |f.0| > 0 && f.1.Str? && DecodeString(f.1.s, units) == None
    ensures Flatten(Obj([f]), prefix, units) == []
  {
    UnreadableStringDropped(f.0, f.1.s, prefix, units);
  }

  /** Three fields give their measurements one after the other. */
  lemma ThreeFields(a: (string, MetricValue), b: (string, MetricValue), c: (string, MetricValue),
                    prefix: string, units: Units)
    requires WellNamed(Obj([a])) && WellNamed(Obj([b])) && WellNamed(Obj([c]))
    ensures WellNamed(Obj([a, b, c]))
    ensures Flatten(Obj([a, b, c]), prefix, units)
         == Flatten(Obj([a]), prefix, units) + Flatten(Obj([b]), prefix, units) + Flatten(Obj([c]), prefix, units)
  {
    FlattenFieldsAppend([a], [b], prefix, units);
    FlattenFieldsAppend([a] + [b], [c], prefix, units);
    assert [a, b, c] == [a] + [b] + [c];
  }

  /** Two fields that read as numbers, then one that reads as nothing. */
  lemma ReadReadDropped(a: (string, MetricValue), b: (string, MetricValue), c: (string, MetricValue),
                        ka: string, kb: string, x: real, y: real, prefix: string, units: Units)
    requires |a.0| > 0 && a.1.Str? && DecodeString(a.1.s, units) == Some(x) && ka == Key(prefix, a.0)
    requires |b.0| > 0 && b.1.Str? && DecodeString(b.1.s, units) == Some(y) && kb == Key(prefix, b.0)
    requires |c.0| > 0 && c.1.Str? && DecodeString(c.1.s, units) == None
    ensures WellNamed(Obj([a, b, c]))
    ensures Flatten(Obj([a, b, c]), prefix, units) == [(ka, x), (kb, y)]
  {
    ReadField(a, x, ka, prefix, units);
    ReadField(b, y, kb, prefix, units);
    DroppedField(c, prefix, units);
    ThreeFields(a, b, c, prefix, units);
  }

  /** `{counter: "1.2K (0.00/s)", uptime: "1h0m0s", note: "n/a"}` under
      `x` gives the counter and the uptime, in field order; the note is
      dropped. */
  lemma ExampleSnapshot(a: (string, MetricValue), b: (string, MetricValue), c: (string, MetricValue), units: Units)
    requires a == ("counter", Str("1.2K (0.00/s)"))
    requires b == ("uptime", Str("1h0m0s"))
    requires c == ("note", Str("n/a"))
    ensures WellNamed(Obj([a, b, c]))
    ensures Flatten(Obj([a, b, c]), "x", units) == [("x.counter", 1200.0), ("x.uptime", ToMs(1.0, Hour, units))]
  {
    CounterLeaf(a.1.s, units);
    UptimeLeaf(b.1.s, units);
    NoteLeaf(c.1.s, units);
    KeysUnderX();
    ReadReadDropped(a, b, c, "x.counter", "x.uptime", 1200.0, ToMs(1.0, Hour, units), "x", units);
  }

  /** As written, the uptime of one hour is read as 360000 ms; with Go's
      factors it is 3600000 ms. */
  lemma ExampleSnapshotUnits(a: (string, MetricValue), b: (string, MetricValue), c: (string, MetricValue))
    requires a == ("counter", Str("1.2K (0.00/s)"))
    requires b == ("uptime", Str("1h0m0s"))
    requires c == ("note", Str("n/a"))
    ensures WellNamed(Obj([a, b, c]))
    ensures Flatten(Obj([a, b, c]), "x", WrittenUnits) == [("x.counter", 1200.0), ("x.uptime", 360000.0)]
    ensures Flatten(Obj([a, b, c]), "x", GoUnits) == [("x.counter", 1200.0), ("x.uptime", 3600000.0)]
  {
    ExampleSnapshot(a, b, c, WrittenUnits);
    ExampleSnapshot(a, b, c, GoUnits);
  }
}
