/** What the flattener promises: every key extends the prefix, output
    follows field order, and each kind of leaf is kept, read or dropped as
    its case says. */
module GenericMetricsProps {
  import opened Options
  import opened FloatParse
  import opened Duration
  import opened GenericMetrics

  /** Every key of `ms` starts with `p`. */
  predicate KeysUnder(ms: seq<Measurement>, p: string)
  {
    forall k :: 0 <= k < |ms| ==> p <= ms[k].0
  }

  lemma KeysUnderAppend(xs: seq<Measurement>, ys: seq<Measurement>, p: string)
    requires KeysUnder(xs, p) && KeysUnder(ys, p)
    ensures KeysUnder(xs + ys, p)
  {
    forall k | 0 <= k < |xs + ys|
      ensures p <= (xs + ys)[k].0
    {
      if k < |xs| { assert (xs + ys)[k] == xs[k]; } else { assert (xs + ys)[k] == ys[k - |xs|]; }
    }
  }

  lemma PrefixTransitive(a: string, b: string, c: string)
    requires a <= b && b <= c
    ensures a <= c
  {
    assert c[..|b|][..|a|] == c[..|a|];
  }

  /** Keys under a longer prefix are under the shorter one too. */
  lemma KeysUnderWeaken(ms: seq<Measurement>, p: string, q: string)
    requires KeysUnder(ms, q) && p <= q
    ensures KeysUnder(ms, p)
  {
    forall k | 0 <= k < |ms|
      ensures p <= ms[k].0
    {
      PrefixTransitive(p, q, ms[k].0);
    }
  }

  /** Every key the flattener emits is the prefix, a dot, then more. */
  lemma {:induction false} FlattenKeys(obj: MetricValue, prefix: string, units: Units)
    requires WellNamed(obj)
    ensures KeysUnder(Flatten(obj, prefix, units), prefix + ".")
    decreases 1, obj, 2
  {
    match obj
    case Obj(_) => FieldsKeys(obj, 0, prefix, units);
    case Str(_) => CharsKeys(obj, 0, prefix, units);
    case _ =>
  }

  lemma {:induction false} FieldsKeys(obj: MetricValue, i: nat, prefix: string, units: Units)
    requires obj.Obj? && WellNamed(obj) && i <= |obj.fields|
    ensures KeysUnder(FieldsFrom(obj, i, prefix, units), prefix + ".")
    decreases 1, obj, 1, |obj.fields| - i
  {
    if i < |obj.fields| {
      assert obj.fields[i] in obj.fields;
      EntryKeys(obj.fields[i].0, obj.fields[i].1, prefix, true, units);
      FieldsKeys(obj, i + 1, prefix, units);
      KeysUnderAppend(Entry(obj.fields[i].0, obj.fields[i].1, prefix, true, units),
                      FieldsFrom(obj, i + 1, prefix, units), prefix + ".");
    }
  }

  lemma {:induction false} CharsKeys(obj: MetricValue, i: nat, prefix: string, units: Units)
    requires obj.Str? && i <= |obj.s|
    ensures KeysUnder(CharsFrom(obj, i, prefix, units), prefix + ".")
    decreases 1, obj, 1, |obj.s| - i
  {
    if i < |obj.s| {
      EntryKeys(NatToString(i), Str([obj.s[i]]), prefix, false, units);
      CharsKeys(obj, i + 1, prefix, units);
      KeysUnderAppend(Entry(NatToString(i), Str([obj.s[i]]), prefix, false, units),
                      CharsFrom(obj, i + 1, prefix, units), prefix + ".");
    }
  }

  lemma {:induction false} EntryKeys(name: string, value: MetricValue, prefix: string, objIsObject: bool, units: Units)
    requires |name| > 0 && WellNamed(value)
    ensures KeysUnder(Entry(name, value, prefix, objIsObject, units), prefix + ".")
    decreases if objIsObject then 1 else 0, value, 3
  {
    var key := Key(prefix, name);
    var decoded := if value.Str? then DecodeString(value.s, units) else None;
    if !value.Num? && !value.Arr? && decoded.None? && objIsObject {
      FlattenKeys(value, key, units);
      PrefixTransitive(prefix + ".", key, key + ".");
      KeysUnderWeaken(Flatten(value, key, units), prefix + ".", key + ".");
    }
  }

  /** Every key of the geth metrics starts with `geth.metrics.`. */
  lemma GethMetricsKeys(metrics: seq<(string, MetricValue)>)
    requires WellNamed(Obj(metrics))
    ensures KeysUnder(FormatGethMetrics(metrics), "geth.metrics.")
  {
    FlattenKeys(Obj(metrics), "geth.metrics", WrittenUnits);
    assert "geth.metrics" + "." == "geth.metrics.";
  }

  // ---------------------------------------------------------------------
  // Field order

  lemma WellNamedAppend(f: seq<(string, MetricValue)>, g: seq<(string, MetricValue)>)
    ensures WellNamed(Obj(f + g)) <==> WellNamed(Obj(f)) && WellNamed(Obj(g))
  {
    if WellNamed(Obj(f)) && WellNamed(Obj(g)) {
      forall i | 0 <= i < |f + g|
        ensures |(f + g)[i].0| > 0 && WellNamed((f + g)[i].1)
      {
        if i < |f| { assert (f + g)[i] == f[i]; } else { assert (f + g)[i] == g[i - |f|]; }
      }
    }
    if WellNamed(Obj(f + g)) {
      forall i | 0 <= i < |f|
        ensures |f[i].0| > 0 && WellNamed(f[i].1)
      {
        assert (f + g)[i] == f[i];
      }
      forall i | 0 <= i < |g|
        ensures |g[i].0| > 0 && WellNamed(g[i].1)
      {
        assert (f + g)[|f| + i] == g[i];
      }
    }
  }

  /** The fields of `f + g` from `|f| + i` on are those of `g` from `i`. */
  lemma {:induction false} FieldsFromShift(f: seq<(string, MetricValue)>, g: seq<(string, MetricValue)>,
                                           i: nat, prefix: string, units: Units)
    requires WellNamed(Obj(f + g)) && WellNamed(Obj(g)) && i <= |g|
    ensures FieldsFrom(Obj(f + g), |f| + i, prefix, units) == FieldsFrom(Obj(g), i, prefix, units)
    decreases |g| - i
  {
    if i < |g| {
      assert (f + g)[|f| + i] == g[i];
      FieldsFromShift(f, g, i + 1, prefix, units);
    }
  }

  /** The fields of `f + g` from `i` (inside `f`) on are those of `f` from
      `i`, then all of `g`. */
  lemma {:induction false} FieldsFromAppend(f: seq<(string, MetricValue)>, g: seq<(string, MetricValue)>,
                                            i: nat, prefix: string, units: Units)
    requires WellNamed(Obj(f + g)) && WellNamed(Obj(f)) && WellNamed(Obj(g)) && i <= |f|
    ensures FieldsFrom(Obj(f + g), i, prefix, units)
         == FieldsFrom(Obj(f), i, prefix, units) + FieldsFrom(Obj(g), 0, prefix, units)
    decreases |f| - i
  {
    if i == |f| {
      FieldsFromShift(f, g, 0, prefix, units);
    } else {
      assert (f + g)[i] == f[i];
      FieldsFromAppend(f, g, i + 1, prefix, units);
    }
  }

  /** Output follows field order: the measurements of `f + g` are those of
      `f` followed by those of `g`. */
  lemma FlattenFieldsAppend(f: seq<(string, MetricValue)>, g: seq<(string, MetricValue)>,
                            prefix: string, units: Units)
    requires WellNamed(Obj(f)) && WellNamed(Obj(g))
    ensures WellNamed(Obj(f + g))
    ensures Flatten(Obj(f + g), prefix, units) == Flatten(Obj(f), prefix, units) + Flatten(Obj(g), prefix, units)
  {
    WellNamedAppend(f, g);
    FieldsFromAppend(f, g, 0, prefix, units);
  }

  // ---------------------------------------------------------------------
  // One field of each kind

  /** An object of one field gives that field's entry. */
  lemma SingleField(name: string, value: MetricValue, prefix: string, units: Units)
    requires |name| > 0 && WellNamed(value)
    ensures WellNamed(Obj([(name, value)]))
    ensures Flatten(Obj([(name, value)]), prefix, units) == Entry(name, value, prefix, true, units)
  {
    var obj := Obj([(name, value)]);
    assert FieldsFrom(obj, 1, prefix, units) == [];
  }

  /** A number field is kept with its value, under the lower-cased name. */
  lemma NumberKept(name: string, n: real, prefix: string, units: Units)
    requires |name| > 0
    ensures Flatten(Obj([(name, Num(n))]), prefix, units) == [(prefix + "." + Uncapitalize(name), n)]
  {
    SingleField(name, Num(n), prefix, units);
  }

  /** An array field gives nothing, whatever it holds. */
  lemma ArrayDropped(name: string, items: seq<MetricValue>, prefix: string, units: Units)
    requires |name| > 0
    ensures Flatten(Obj([(name, Arr(items))]), prefix, units) == []
  {
    SingleField(name, Arr(items), prefix, units);
  }

  /** A boolean field gives nothing. */
  lemma BoolDropped(name: string, b: bool, prefix: string, units: Units)
    requires |name| > 0
    ensures Flatten(Obj([(name, Bool(b))]), prefix, units) == []
  {
    SingleField(name, Bool(b), prefix, units);
  }

  /** A string field that reads as a number is kept as that number. */
  lemma StringRead(name: string, s: string, n: real, prefix: string, units: Units)
    requires |name| > 0 && DecodeString(s, units) == Some(n)
    ensures Flatten(Obj([(name, Str(s))]), prefix, units) == [(prefix + "." + Uncapitalize(name), n)]
  {
    SingleField(name, Str(s), prefix, units);
  }

  /** Walking the characters of a string gives nothing: no one-character
      string reads as a number. */
  lemma {:induction false} CharsGiveNothing(obj: MetricValue, i: nat, prefix: string, units: Units)
    requires obj.Str? && i <= |obj.s|
    ensures CharsFrom(obj, i, prefix, units) == []
    decreases |obj.s| - i
  {
    if i < |obj.s| {
      CharNeverDecodes(obj.s[i], units);
      CharsGiveNothing(obj, i + 1, prefix, units);
    }
  }

  /** A string field that reads as neither a counter nor a duration gives
      nothing. */
  lemma UnreadableStringDropped(name: string, s: string, prefix: string, units: Units)
    requires |name| > 0 && DecodeString(s, units) == None
    ensures Flatten(Obj([(name, Str(s))]), prefix, units) == []
  {
    SingleField(name, Str(s), prefix, units);
    CharsGiveNothing(Str(s), 0, prefix + "." + Uncapitalize(name), units);
  }

  /** A nested object is flattened under the longer key, in place. */
  lemma NestedObjectSpliced(name: string, g: seq<(string, MetricValue)>, prefix: string, units: Units)
    requires |name| > 0 && WellNamed(Obj(g))
    ensures Flatten(Obj([(name, Obj(g))]), prefix, units)
         == Flatten(Obj(g), prefix + "." + Uncapitalize(name), units)
  {
    SingleField(name, Obj(g), prefix, units);
  }
}
