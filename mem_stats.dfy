/** The memory statistics formatter: one level only. The numeric fields of
    the snapshot are emitted in order, then two entries per size bucket. */
module MemStats {
  import opened Options
  import opened FloatParse
  import opened Duration
  import opened GenericMetrics
  import opened GenericMetricsProps

  /** One bucket of the allocation histogram: objects of `size` bytes. */
  datatype SizeBucket = SizeBucket(size: nat, mallocs: real, frees: real)

  /** A memory statistics snapshot: its fields other than `BySize`, in
      order, and the `BySize` histogram when there is one. */
  datatype Snapshot = Snapshot(rest: seq<(string, MetricValue)>, bySize: Option<seq<SizeBucket>>)

  const MemStatsPrefix: string := "geth.memStats."

  /** The names of the numeric fields are non-empty (only those are
      lower-cased). */
  predicate NumbersNamed(fields: seq<(string, MetricValue)>)
  {
    forall i :: 0 <= i < |fields| && fields[i].1.Num? ==> |fields[i].0| > 0
  }

  /** The numeric fields, each under `prefix` and its lower-cased name;
      every other field is dropped. */
  function NumberEntries(fields: seq<(string, MetricValue)>, prefix: string): seq<Measurement>
    requires NumbersNamed(fields)
  {
    if fields == [] then []
    else
      var rest := NumberEntries(fields[1..], prefix);
      match fields[0].1
      case Num(n) => [(prefix + Uncapitalize(fields[0].0), n)] + rest
      case _ => rest
  }

  /** The two entries of each bucket, `bySize.<size>.mallocs` then
      `bySize.<size>.frees`, bucket after bucket. */
  function BucketEntries(buckets: seq<SizeBucket>, prefix: string): seq<Measurement>
  {
    if buckets == [] then []
    else
      var b := buckets[0];
      var key := prefix + "bySize." + NatToString(b.size);
      [(key + ".mallocs", b.mallocs), (key + ".frees", b.frees)] + BucketEntries(buckets[1..], prefix)
  }

  /** The formatted snapshot: numeric fields first, then the buckets. */
  function FormatGethMemStats(stats: Snapshot): seq<Measurement>
    requires NumbersNamed(stats.rest)
  {
    NumberEntries(stats.rest, MemStatsPrefix)
      + match stats.bySize
        case None => []
        case Some(buckets) => BucketEntries(buckets, MemStatsPrefix)
  }

  /** How many fields hold a number. */
  function NumberCount(fields: seq<(string, MetricValue)>): nat
  {
    if fields == [] then 0 else (if fields[0].1.Num? then 1 else 0) + NumberCount(fields[1..])
  }

  // ---------------------------------------------------------------------
  // Properties

  lemma NumbersNamedTail(fields: seq<(string, MetricValue)>)
    requires fields != [] && NumbersNamed(fields)
    ensures NumbersNamed(fields[1..])
  {
    forall i | 0 <= i < |fields[1..]| && fields[1..][i].1.Num?
      ensures |fields[1..][i].0| > 0
    {
      assert fields[1..][i] == fields[i + 1];
    }
  }

  /** One entry per numeric field. */
  lemma {:induction false} NumberEntriesLength(fields: seq<(string, MetricValue)>, prefix: string)
    requires NumbersNamed(fields)
    ensures |NumberEntries(fields, prefix)| == NumberCount(fields)
  {
    if fields != [] {
      NumbersNamedTail(fields);
      NumberEntriesLength(fields[1..], prefix);
    }
  }

  /** Each emitted entry is a numeric field, under its lower-cased name,
      and each numeric field is emitted. */
  lemma {:induction false} NumberEntriesMembers(fields: seq<(string, MetricValue)>, prefix: string, key: string, v: real)
    requires NumbersNamed(fields)
    ensures (key, v) in NumberEntries(fields, prefix)
        <==> exists i :: 0 <= i < |fields| && fields[i].1 == Num(v) && |fields[i].0| > 0
                         && key == prefix + Uncapitalize(fields[i].0)
  {
    if fields != [] {
      NumbersNamedTail(fields);
      NumberEntriesMembers(fields[1..], prefix, key, v);
      var here := fields[0].1 == Num(v) && |fields[0].0| > 0 && key == prefix + Uncapitalize(fields[0].0);
      if (key, v) in NumberEntries(fields, prefix) && !here {
        assert (key, v) in NumberEntries(fields[1..], prefix);
        var i :| 0 <= i < |fields[1..]| && fields[1..][i].1 == Num(v) && |fields[1..][i].0| > 0
                 && key == prefix + Uncapitalize(fields[1..][i].0);
        assert fields[i + 1] == fields[1..][i];
      }
      if exists i :: 0 <= i < |fields| && fields[i].1 == Num(v) && |fields[i].0| > 0
                     && key == prefix + Uncapitalize(fields[i].0) {
        var i :| 0 <= i < |fields| && fields[i].1 == Num(v) && |fields[i].0| > 0
                 && key == prefix + Uncapitalize(fields[i].0);
        if i > 0 {
          assert fields[1..][i - 1] == fields[i];
        }
      }
    }
  }

  /** Output follows field order. */
  lemma {:induction false} NumberEntriesAppend(f: seq<(string, MetricValue)>, g: seq<(string, MetricValue)>, prefix: string)
    requires NumbersNamed(f) && NumbersNamed(g)
    ensures NumbersNamed(f + g)
    ensures NumberEntries(f + g, prefix) == NumberEntries(f, prefix) + NumberEntries(g, prefix)
  {
    forall i | 0 <= i < |f + g| && (f + g)[i].1.Num?
      ensures |(f + g)[i].0| > 0
    {
      if i < |f| { assert (f + g)[i] == f[i]; } else { assert (f + g)[i] == g[i - |f|]; }
    }
    if f == [] {
      assert f + g == g;
    } else {
      NumbersNamedTail(f);
      assert (f + g)[0] == f[0];
      assert (f + g)[1..] == f[1..] + g;
      NumberEntriesAppend(f[1..], g, prefix);
    }
  }

  /** Nested objects, strings, booleans and arrays are dropped: there is
      no recursion and no reading of strings here. */
  lemma NonNumberDropped(name: string, value: MetricValue, prefix: string)
    requires !value.Num?
    ensures NumberEntries([(name, value)], prefix) == []
  {
    assert NumberEntries([(name, value)][1..], prefix) == [];
  }

  /** Two entries per bucket. */
  lemma {:induction false} BucketEntriesLength(buckets: seq<SizeBucket>, prefix: string)
    ensures |BucketEntries(buckets, prefix)| == 2 * |buckets|
  {
    if buckets != [] {
      BucketEntriesLength(buckets[1..], prefix);
    }
  }

  /** Bucket `k` gives entries `2k` (mallocs) and `2k + 1` (frees). */
  lemma {:induction false} BucketEntriesAt(buckets: seq<SizeBucket>, prefix: string, k: nat)
    requires k < |buckets|
    ensures |BucketEntries(buckets, prefix)| == 2 * |buckets|
    ensures BucketEntries(buckets, prefix)[2 * k]
         == (prefix + "bySize." + NatToString(buckets[k].size) + ".mallocs", buckets[k].mallocs)
    ensures BucketEntries(buckets, prefix)[2 * k + 1]
         == (prefix + "bySize." + NatToString(buckets[k].size) + ".frees", buckets[k].frees)
  {
    BucketEntriesLength(buckets, prefix);
    if k > 0 {
      BucketEntriesAt(buckets[1..], prefix, k - 1);
      assert buckets[1..][k - 1] == buckets[k];
    }
  }

  /** The output length is the numeric field count plus two per bucket. */
  lemma MemStatsLength(stats: Snapshot)
    requires NumbersNamed(stats.rest)
    ensures |FormatGethMemStats(stats)|
         == NumberCount(stats.rest) + (if stats.bySize.Some? then 2 * |stats.bySize.value| else 0)
  {
    NumberEntriesLength(stats.rest, MemStatsPrefix);
    if stats.bySize.Some? {
      BucketEntriesLength(stats.bySize.value, MemStatsPrefix);
    }
  }

  /** The bucket entries follow the field entries: bucket `k` sits at
      `NumberCount + 2k` and `NumberCount + 2k + 1`. */
  lemma MemStatsBucketAt(stats: Snapshot, k: nat)
    requires NumbersNamed(stats.rest) && stats.bySize.Some? && k < |stats.bySize.value|
    ensures var out := FormatGethMemStats(stats);
            var b := stats.bySize.value[k];
            var n := NumberCount(stats.rest);
            var key := MemStatsPrefix + "bySize." + NatToString(b.size);
            n + 2 * k + 1 < |out|
            && out[n + 2 * k] == (key + ".mallocs", b.mallocs)
            && out[n + 2 * k + 1] == (key + ".frees", b.frees)
  {
    NumberEntriesLength(stats.rest, MemStatsPrefix);
    BucketEntriesAt(stats.bySize.value, MemStatsPrefix, k);
  }

  /** Over numbers only, this formatter and the generic flattener agree
      (the generic one adds the dot the prefix here already ends with). */
  lemma {:induction false} MemStatsAgreesWithGeneric(fields: seq<(string, MetricValue)>, units: Units)
    requires forall i :: 0 <= i < |fields| ==> fields[i].1.Num? && |fields[i].0| > 0
    ensures NumbersNamed(fields) && WellNamed(Obj(fields))
    ensures NumberEntries(fields, MemStatsPrefix) == Flatten(Obj(fields), "geth.memStats", units)
  {
    if fields != [] {
      NumbersNamedTail(fields);
      var head, tail := fields[..1], fields[1..];
      assert fields == head + tail;
      assert forall i :: 0 <= i < |tail| ==> tail[i] == fields[i + 1];
      MemStatsAgreesWithGeneric(tail, units);
      assert head == [(fields[0].0, fields[0].1)];
      NumberKept(fields[0].0, fields[0].1.n, "geth.memStats", units);
      assert "geth.memStats" + "." == MemStatsPrefix;
      FlattenFieldsAppend(head, tail, "geth.memStats", units);
    }
  }

  /** The keys of the worked snapshot below. */
  lemma ExampleKeys()
    ensures MemStatsPrefix + Uncapitalize("heapAlloc") == "geth.memStats.heapAlloc"
    ensures MemStatsPrefix + "bySize." + NatToString(16) + ".mallocs" == "geth.memStats.bySize.16.mallocs"
    ensures MemStatsPrefix + "bySize." + NatToString(16) + ".frees" == "geth.memStats.bySize.16.frees"
  {
    assert NatToString(1) == "1";
    assert NatToString(16) == "16";
    assert Uncapitalize("heapAlloc") == "heapAlloc";
  }

  /** `{heapAlloc: 100, BySize: [{Size: 16, Mallocs: 4, Frees: 2}]}`. */
  lemma ExampleSnapshot(stats: Snapshot)
    requires stats == Snapshot([("heapAlloc", Num(100.0))], Some([SizeBucket(16, 4.0, 2.0)]))
    ensures FormatGethMemStats(stats)
         == [("geth.memStats.heapAlloc", 100.0),
             ("geth.memStats.bySize.16.mallocs", 4.0),
             ("geth.memStats.bySize.16.frees", 2.0)]
  {
    ExampleKeys();
    assert NumberEntries(stats.rest[1..], MemStatsPrefix) == [];
    assert BucketEntries(stats.bySize.value[1..], MemStatsPrefix) == [];
  }
}
