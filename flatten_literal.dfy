/** The generic flattener as it is written. Each kept leaf is handed to
    `flatMap` as the two-element array `[key, value]`, and `flatMap`
    flattens one level, so the list returned alternates keys and values
    instead of holding `[key, value]` entries. */
module GenericMetricsAsWritten {
  import opened Options
  import opened FloatParse
  import opened Duration
  import opened GenericMetrics
  import opened GenericMetricsProps

  /** An item of the list the code returns: a key or a number. */
  datatype Item = Text(text: string) | Number(value: real)

  /** Each measurement spliced in place as its key, then its value. */
  function Unzip(ms: seq<Measurement>): (items: seq<Item>)
    ensures |items| == 2 * |ms|
  {
    if ms == [] then [] else [Text(ms[0].0), Number(ms[0].1)] + Unzip(ms[1..])
  }

  /** Keys sit at even positions and values at odd ones. */
  lemma {:induction false} UnzipAlternates(ms: seq<Measurement>)
    ensures forall k :: 0 <= k < |Unzip(ms)| ==> (Unzip(ms)[k].Text? <==> k % 2 == 0)
    ensures forall k :: 0 <= k < |ms| ==> Unzip(ms)[2 * k] == Text(ms[k].0) && Unzip(ms)[2 * k + 1] == Number(ms[k].1)
  {
    if ms != [] {
      UnzipAlternates(ms[1..]);
      var rest := Unzip(ms[1..]);
      assert Unzip(ms) == [Text(ms[0].0), Number(ms[0].1)] + rest;
      forall k | 2 <= k < |Unzip(ms)|
        ensures Unzip(ms)[k] == rest[k - 2]
      {
      }
      forall k | 1 <= k < |ms|
        ensures Unzip(ms)[2 * k] == Text(ms[k].0) && Unzip(ms)[2 * k + 1] == Number(ms[k].1)
      {
        assert ms[1..][k - 1] == ms[k];
        assert rest[2 * (k - 1)] == Text(ms[k].0);
      }
    }
  }

  lemma {:induction false} UnzipAppend(xs: seq<Measurement>, ys: seq<Measurement>)
    ensures Unzip(xs + ys) == Unzip(xs) + Unzip(ys)
  {
    if xs == [] {
      assert xs + ys == ys;
    } else {
      assert (xs + ys)[0] == xs[0];
      assert (xs + ys)[1..] == xs[1..] + ys;
      UnzipAppend(xs[1..], ys);
      var head := [Text(xs[0].0), Number(xs[0].1)];
      assert Unzip(xs + ys) == head + (Unzip(xs[1..]) + Unzip(ys));
      assert Unzip(xs) == head + Unzip(xs[1..]);
    }
  }

  /** `Flatten` as written. */
  function LiteralFlatten(obj: MetricValue, prefix: string, units: Units): seq<Item>
    requires WellNamed(obj)
    decreases 1, obj, 2
  {
    match obj
    case Obj(fields) => LiteralFieldsFrom(obj, 0, prefix, units)
    case Str(s) => LiteralCharsFrom(obj, 0, prefix, units)
    case _ => []
  }

  /** `FieldsFrom` as written. */
  function LiteralFieldsFrom(obj: MetricValue, i: nat, prefix: string, units: Units): seq<Item>
    requires obj.Obj? && WellNamed(obj) && i <= |obj.fields|
    decreases 1, obj, 1, |obj.fields| - i
  {
    if i == |obj.fields| then []
    else
      assert obj.fields[i] in obj.fields;
      LiteralEntry(obj.fields[i].0, obj.fields[i].1, prefix, true, units)
        + LiteralFieldsFrom(obj, i + 1, prefix, units)
  }

  /** `CharsFrom` as written. */
  function LiteralCharsFrom(obj: MetricValue, i: nat, prefix: string, units: Units): seq<Item>
    requires obj.Str? && i <= |obj.s|
    decreases 1, obj, 1, |obj.s| - i
  {
    if i == |obj.s| then []
    else LiteralEntry(NatToString(i), Str([obj.s[i]]), prefix, false, units)
           + LiteralCharsFrom(obj, i + 1, prefix, units)
  }

  /** `Entry` as written: a kept leaf contributes its key and its value as
      two separate items. */
  function LiteralEntry(name: string, value: MetricValue, prefix: string, objIsObject: bool, units: Units)
    : seq<Item>
    requires |name| > 0 && WellNamed(value)
    decreases if objIsObject then 1 else 0, value, 3
  {
    var key := Key(prefix, name);
    match value
    case Num(n) => [Text(key), Number(n)]
    case Arr(_) => []
    case _ =>
      var decoded := if value.Str? then DecodeString(value.s, units) else None;
      if decoded.Some? then [Text(key), Number(decoded.value)]
      else if objIsObject then LiteralFlatten(value, key, units)
      else []
  }

  /** The geth metrics as the code returns them. */
  function LiteralGethMetrics(metrics: seq<(string, MetricValue)>): seq<Item>
    requires WellNamed(Obj(metrics))
  {
    LiteralFlatten(Obj(metrics), "geth.metrics", WrittenUnits)
  }

  /** What the code returns is the intended measurements with every entry
      unzipped in place. */
  lemma {:induction false} LiteralIsUnzipped(obj: MetricValue, prefix: string, units: Units)
    requires WellNamed(obj)
    ensures LiteralFlatten(obj, prefix, units) == Unzip(Flatten(obj, prefix, units))
    decreases 1, obj, 2
  {
    match obj
    case Obj(_) => LiteralFieldsIsUnzipped(obj, 0, prefix, units);
    case Str(_) => LiteralCharsIsUnzipped(obj, 0, prefix, units);
    case _ =>
  }

  lemma {:induction false} LiteralFieldsIsUnzipped(obj: MetricValue, i: nat, prefix: string, units: Units)
    requires obj.Obj? && WellNamed(obj) && i <= |obj.fields|
    ensures LiteralFieldsFrom(obj, i, prefix, units) == Unzip(FieldsFrom(obj, i, prefix, units))
    decreases 1, obj, 1, |obj.fields| - i
  {
    if i < |obj.fields| {
      assert obj.fields[i] in obj.fields;
      var name, value := obj.fields[i].0, obj.fields[i].1;
      LiteralEntryIsUnzipped(name, value, prefix, true, units);
      LiteralFieldsIsUnzipped(obj, i + 1, prefix, units);
      UnzipAppend(Entry(name, value, prefix, true, units), FieldsFrom(obj, i + 1, prefix, units));
    }
  }

  lemma {:induction false} LiteralCharsIsUnzipped(obj: MetricValue, i: nat, prefix: string, units: Units)
    requires obj.Str? && i <= |obj.s|
    ensures LiteralCharsFrom(obj, i, prefix, units) == Unzip(CharsFrom(obj, i, prefix, units))
    decreases 1, obj, 1, |obj.s| - i
  {
    if i < |obj.s| {
      var name, value := NatToString(i), Str([obj.s[i]]);
      LiteralEntryIsUnzipped(name, value, prefix, false, units);
      LiteralCharsIsUnzipped(obj, i + 1, prefix, units);
      UnzipAppend(Entry(name, value, prefix, false, units), CharsFrom(obj, i + 1, prefix, units));
    }
  }

  lemma {:induction false} LiteralEntryIsUnzipped(name: string, value: MetricValue, prefix: string,
                                                  objIsObject: bool, units: Units)
    requires |name| > 0 && WellNamed(value)
    ensures LiteralEntry(name, value, prefix, objIsObject, units) == Unzip(Entry(name, value, prefix, objIsObject, units))
    decreases if objIsObject then 1 else 0, value, 3
  {
    var key := Key(prefix, name);
    var decoded := if value.Str? then DecodeString(value.s, units) else None;
    if !value.Num? && !value.Arr? && decoded.None? && objIsObject {
      LiteralIsUnzipped(value, key, units);
    }
  }

  /** The geth metrics as returned are the intended ones unzipped. */
  lemma LiteralGethMetricsIsUnzipped(metrics: seq<(string, MetricValue)>)
    requires WellNamed(Obj(metrics))
    ensures LiteralGethMetrics(metrics) == Unzip(FormatGethMetrics(metrics))
    ensures |LiteralGethMetrics(metrics)| == 2 * |FormatGethMetrics(metrics)|
  {
    LiteralIsUnzipped(Obj(metrics), "geth.metrics", WrittenUnits);
  }

  /** One number field `Foo: 1`: the code returns the two items `key` and
      `1` where one entry `[key, 1]` was meant, so the first item is a bare
      string, not an entry a map could be built from. */
  lemma LiteralNotEntries(metrics: seq<(string, MetricValue)>)
    requires metrics == [("Foo", Num(1.0))]
    ensures WellNamed(Obj(metrics))
    ensures LiteralGethMetrics(metrics) == [Text("geth.metrics.foo"), Number(1.0)]
    ensures FormatGethMetrics(metrics) == [("geth.metrics.foo", 1.0)]
  {
    var key := "geth.metrics" + "." + Uncapitalize("Foo");
    assert Uncapitalize("Foo") == "foo";
    assert key == "geth.metrics.foo";
    NumberKept("Foo", 1.0, "geth.metrics", WrittenUnits);
    LiteralGethMetricsIsUnzipped(metrics);
    assert Unzip([(key, 1.0)]) == [Text(key), Number(1.0)] + Unzip([]);
  }
}
