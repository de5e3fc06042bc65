# Geth metrics normalisation, modelled in Dafny

A model of the parsing and flattening that turns the metrics a geth node
reports (`debug_metrics` and `debug_memStats`) into `(dotted key, number)`
measurements, as `src/platforms/geth.ts` does it.

Four parts are modelled:

- **Abbreviated numbers** (`abbreviated.dfy`): `"1.5K"`, `"2M"`, `"3"`. A
  trailing `K`, `M`, `G` or `T` scales the number before it by 1e3, 1e6,
  1e9 or 1e12. The parse is JavaScript's lenient `parseFloat`.
- **Go duration strings** (`duration.dfy`, `duration_props.dfy`,
  `duration_examples.dfy`): `"1h2m3.4s"`, `"500µs"`, `"-2ms"`, read as
  milliseconds.
  - The specification is a set of functions. `SegmentsMs` sums the
    segments; a segment is a mantissa (the maximal run of digits and points)
    followed by a unit. `DurationToMs` applies the sign.
  - The scanner itself is the method `DurationStringToMs`. It has the
    source's `while` loop, its `do … while` mantissa scan (`ScanMantissa`),
    its `j - 1` slicing and its unit dispatch (`AddUnit`). It is proved
    equal to `DurationToMs`.
  - The minute and hour factors are a parameter (`Units`).
    `WrittenUnits` holds the factors in the code (600000 and 360000).
    `GoUnits` holds Go's (60000 and 3600000). See Findings.
- **The generic flattener** (`flatten.dfy`, `flatten_props.dfy`,
  `flatten_literal.dfy`, `flatten_examples.dfy`).
  - A metrics tree (`MetricValue`) becomes a list of measurements.
  - A number leaf is kept.
  - A string leaf is read first as a rate-annotated counter
    (`"1.2K (0.00/s)"`), then, if it ends in `s`, as a duration.
  - Arrays give nothing.
  - Anything else is walked under the longer key `prefix.uncapitalized-name`.
  - The code tests `typeof obj` where `typeof value` was meant. So an
    unreadable string is walked character by character, each character under
    its index (`CharsFrom`). The model reproduces this. `CharsGiveNothing`
    proves that the walk never contributes anything.
  - `FormatGethMetrics` is the flattener under `geth.metrics`.
  - `GenericMetricsAsWritten` models the list the code actually returns
    (see Findings).
- **Memory statistics** (`mem_stats.dfy`). The numeric fields other than
  `BySize` come first, in order, under `geth.memStats.`. Then come two
  entries per size bucket, `bySize.<size>.mallocs` and
  `bySize.<size>.frees`.

`parseFloat` is modelled as a prefix parser (`float_parse.dfy`). It reads
an optional sign, whole digits, and an optional point with fraction digits;
anything after that is ignored. `ParseFloat` reads left to right, as the
builtin does. `PrefixValue` is a reference reading of the same prefix, and
`ParseFloatIsPrefixValue` proves the two agree. `NaN` is `None`
throughout (`options.dfy`).

Where the documented behaviour and the code differ, the model
follows the code:

- An empty string, `"-"` and `"+"` read as 0 milliseconds, not `NaN`:
  the loop body never runs.
- The minute factor is 600000 and the hour factor 360000 (the literals at
  `src/platforms/geth.ts:74` and `:77`).
- A counter is recognised only when splitting on a space gives exactly two
  pieces.

## Model

| member | source | states |
|---|---|---|
| Abbreviated.ParseAbbreviatedNumber | src/platforms/geth.ts:19-28 | the result is a number exactly when `parseFloat` of the whole string is one; a trailing magnitude letter can never turn a number into `NaN` or back |
| Abbreviated.ScaledParse | src/platforms/geth.ts:12-28 | the result is `parseFloat(s)` scaled by the factor of the last character: 1e3/1e6/1e9/1e12 for `K`/`M`/`G`/`T`, 1 otherwise |
| Abbreviated.OnlyLastLetterScales | src/platforms/geth.ts:22-27 | at most one letter is stripped: with two magnitude letters only the last one scales, and the first ends the lenient parse |
| Abbreviated.FormatAbbreviated | src/platforms/geth.ts:22-26 | a rendered counter ends with its magnitude letter |
| Abbreviated.ParseFormatted | src/platforms/geth.ts:19-28 | round trip: a rendered `n` plus letter reads back as `n` times the letter's factor |
| Abbreviated.ParsePlain | src/platforms/geth.ts:19-28 | a rendered `n` without a letter reads back as `n`, unscaled |
| Abbreviated.LetterScales | src/platforms/geth.ts:22-27 | `t` plus a magnitude letter reads as `parseFloat(t)` times its factor |
| Abbreviated.NoLetter | src/platforms/geth.ts:22-27 | a last character that is not one of `K`, `M`, `G`, `T` leaves the string to `parseFloat`, unscaled |
| Abbreviated.ExampleKilo | src/platforms/geth.ts:13 | `"1.5K"` reads as 1500 |
| Abbreviated.ExampleGiga | src/platforms/geth.ts:15 | `"2.2G"` reads as 2200000000 |
| Abbreviated.ExamplePlain | src/platforms/geth.ts:27 | `"3"` reads as 3 |
| Abbreviated.ExampleLowerCase | src/platforms/geth.ts:12-17 | magnitude letters are case-sensitive: `"2.2g"` reads as 2.2 |
| Abbreviated.ExampleLetterOnly | src/platforms/geth.ts:24-27 | `"K"` alone is `NaN` |
| FloatParse.ParseFloatIsPrefixValue | src/platforms/geth.ts:27 | the left-to-right reader agrees with the reference reading of the longest numeric prefix |
| FloatParse.PrefixValue | src/platforms/geth.ts:55 | there is a number exactly when a digit, or a point and a digit, follows the sign; it is non-negative unless the sign is `-` |
| FloatParse.ParseFloatOfNat | src/platforms/geth.ts:55 | round trip: the decimal rendering of `n` parses as `n` |
| FloatParse.ParseFloatDecimal | src/platforms/geth.ts:55 | `whole.fraction` parses as its decimal value |
| FloatParse.ParseFloatAppend | src/platforms/geth.ts:27 | text after the numeric prefix that cannot extend it is ignored |
| FloatParse.ParseFloatAppendNonEmpty | src/platforms/geth.ts:27 | the same, for a non-empty number text |
| FloatParse.NoNumberAfterSign | src/platforms/geth.ts:55-57 | text starting with neither a sign, a digit nor a point (the empty slice included) is `NaN` |
| FloatParse.NumericSpanAppend | src/platforms/geth.ts:27 | appending such text leaves the sign and the numeric span where they were |
| FloatParse.NatToString | src/platforms/geth.ts:139-140 | the rendering of a natural number is a non-empty run of digits |
| Duration.MantissaEnd | src/platforms/geth.ts:43-50 | the run of digits and points ends at the first other character, or at the end |
| Duration.MantissaRun | src/platforms/geth.ts:43-50 | every character of the run is a digit or a point |
| Duration.MantissaEndIs | src/platforms/geth.ts:43-50 | the run ends exactly where the digits and points stop |
| Duration.UnitAt | src/platforms/geth.ts:60-82 | a named unit fits in the string |
| Duration.UnitNamed | src/platforms/geth.ts:60-82 | a unit is named exactly by `s`, `m` or `h`, or by `n`, `u`, `µ` or `μ` followed by `s` |
| Duration.Window | src/platforms/geth.ts:60 | the window is one or two characters, starts at `i`, and has two exactly when two remain |
| Duration.WindowIs | src/platforms/geth.ts:61-67 | comparing the window with a two-letter unit compares both characters |
| Duration.UnitOfWindowAt | src/platforms/geth.ts:60-82 | the scanner's test of the window, in its priority order, names the same unit as the character reading |
| Duration.ScanSegment | src/platforms/geth.ts:43-60 | a segment that is read is non-empty and lies inside the string |
| Duration.Add | src/platforms/geth.ts:62-77 | `NaN` absorbs: the sum is a number exactly when both terms are |
| Duration.ScanStepAdds | src/platforms/geth.ts:59-78 | one turn of the loop moves past the segment and adds its milliseconds |
| Duration.ScanStepNaN | src/platforms/geth.ts:53-81 | an unreadable segment or a mantissa that is not a number makes both the loop and the sum `NaN` |
| Duration.SegmentsMsStep | src/platforms/geth.ts:42-83 | a read segment contributes its milliseconds, then the rest of the sum |
| Duration.AddRegroup | src/platforms/geth.ts:62-77 | adding `acc + x` at once is adding `x`, then `acc` |
| Duration.ScanFromSegments | src/platforms/geth.ts:42-83 | the loop from any `i` adds the milliseconds of the remaining segments to its accumulator, in order |
| Duration.ScanFromNaN | src/platforms/geth.ts:53-81 | a loop that ends in `NaN` makes the whole string `NaN`: there is no partial result |
| Duration.ScanFromTotal | src/platforms/geth.ts:42-83 | a loop that ends with `m` means the segments add up to `m` |
| Duration.SignedTotal | src/platforms/geth.ts:84 | the total is negated exactly when the string starts with `-` |
| Duration.ScanAt | src/platforms/geth.ts:43-60 | after the `do … while` scan, the segment at `i` is the text up to `j - 1` and the unit named at `j - 1` |
| Duration.NoNumber | src/platforms/geth.ts:55-57 | a mantissa that is not a number stops the scan with `NaN` |
| Duration.NoUnit | src/platforms/geth.ts:79-81 | a window naming no unit stops the scan with `NaN` |
| Duration.StepAdds | src/platforms/geth.ts:59-78 | a segment that is read moves the scan past it and adds its milliseconds |
| Duration.ScanMantissa | src/platforms/geth.ts:43-50 | `j` ends one past the end of the run, or at the end of the string; it is always past `i` |
| Duration.AddUnit | src/platforms/geth.ts:60-82 | dispatch succeeds exactly when the window names a unit; it then adds that unit's milliseconds with the factors as written and advances by the unit's width |
| Duration.DurationStringToMs | src/platforms/geth.ts:31-85 | the scanner returns exactly `DurationToMs` with the factors as written, `NaN` included |
| DurationProps.AddZero | src/platforms/geth.ts:32 | a running total that starts at 0 changes nothing |
| DurationProps.AddAssoc | src/platforms/geth.ts:62-77 | `NaN`-absorbing addition can be regrouped |
| DurationProps.NoSegments | src/platforms/geth.ts:36-84 | the empty string and a sign alone read as 0, not `NaN` |
| DurationProps.BareNumberIsNaN | src/platforms/geth.ts:43-58 | a bare number such as `"123"` is `NaN`: the run reaches the end and leaves no unit |
| DurationProps.EmptyMantissaIsNaN | src/platforms/geth.ts:51-57 | a segment that does not start with a digit or a point, such as a second sign, is `NaN` |
| DurationProps.UnknownUnitIsNaN | src/platforms/geth.ts:79-81 | a mantissa followed by no unit is `NaN` |
| DurationProps.ScanSegmentShift | src/platforms/geth.ts:43-60 | reading a segment only looks forward |
| DurationProps.SegmentsMsUnfold | src/platforms/geth.ts:42-83 | a read segment's milliseconds come first in the sum |
| DurationProps.SegmentsMsShift | src/platforms/geth.ts:42-83 | the sum from `|p| + i` in `p + t` is the sum from `i` in `t` |
| DurationProps.ScanSegmentPrefix | src/platforms/geth.ts:43-82 | text that starts with a digit or a point cannot change a segment read before it |
| DurationProps.SegmentsMsAppend | src/platforms/geth.ts:42-83 | segments are summed in order: the sum over `a + b` is the sum over `a` plus the sum over `b` |
| DurationProps.DurationAppend | src/platforms/geth.ts:31-85 | an unsigned duration followed by another reads as the sum of the two |
| DurationProps.SignedNaN | src/platforms/geth.ts:53-81 | segments that are not all numbers make the string `NaN`, whatever its sign |
| DurationProps.NegativeSign | src/platforms/geth.ts:36-84 | a leading `-` negates the rest, and keeps `NaN` as `NaN` |
| DurationProps.NegatedTotal | src/platforms/geth.ts:84 | a string with `-` whose segments sum like `t`'s reads as `t` negated |
| DurationProps.PlusSign | src/platforms/geth.ts:39-41 | a leading `+` is skipped |
| DurationProps.Symbol | src/platforms/geth.ts:61-77 | each unit's symbol is as wide as the scanner advances past it, and does not extend a mantissa |
| DurationProps.SymbolAtEnd | src/platforms/geth.ts:60-82 | a symbol after a mantissa names its unit |
| DurationProps.SingleSegment | src/platforms/geth.ts:31-85 | a mantissa that parses as `n`, then a unit symbol, reads as `n` of that unit in milliseconds |
| DurationProps.FormatParts | src/platforms/geth.ts:30 | a printed duration is empty exactly when it has no parts, and otherwise starts with a digit |
| DurationProps.AddSome | src/platforms/geth.ts:62-77 | two numbers add up |
| DurationProps.PartsMsHead | src/platforms/geth.ts:62-77 | the first part's milliseconds come before the rest |
| DurationProps.FormatPartsRoundTrip | src/platforms/geth.ts:31-85 | round trip: a duration printed Go's way reads back as the total of its parts |
| DurationProps.ConcatTotal | src/platforms/geth.ts:31-85 | a printed part followed by further parts reads as the two totals added |
| DurationExamples.DecimalThreeFour | src/platforms/geth.ts:55 | `"3.4"` parses as 3.4 |
| DurationExamples.WholeAmount | src/platforms/geth.ts:31-85 | a whole number of one unit reads as that many of the unit |
| DurationExamples.ExampleMinuteAndMillisecond | src/platforms/geth.ts:67-75 | `"5m"` is minutes (3000000 as written) and `"5ms"` is 5 milliseconds: the two-letter unit wins |
| DurationExamples.ExampleMicroseconds | src/platforms/geth.ts:64-66 | `"500µs"` is 0.5 ms |
| DurationExamples.ExampleNegative | src/platforms/geth.ts:36-84 | `"-2ms"` is -2 |
| DurationExamples.ExampleEmptyAndSignOnly | src/platforms/geth.ts:42-84 | `""`, `"-"` and `"+"` read as 0 |
| DurationExamples.ExampleNaN | src/platforms/geth.ts:55-81 | `"5x"` and `"5"` are `NaN` |
| DurationExamples.MixedUnitsText | src/platforms/geth.ts:31 | `"1h2m3.4s"` is the parts `1h2m` followed by `3.4s` |
| DurationExamples.PartsThenSegment | src/platforms/geth.ts:42-84 | printed parts followed by one more segment read as their total plus the segment's |
| DurationExamples.TwoPartsMs | src/platforms/geth.ts:62-77 | the milliseconds of two parts are their sum |
| DurationExamples.ExampleMixedUnits | src/platforms/geth.ts:71-77 | `"1h2m3.4s"` is 1563400 ms as written and 3723400 ms with Go's factors |
| DurationExamples.WrittenHourShorterThanMinute | src/platforms/geth.ts:73-78 | as written, `n` hours read as 360000·n ms and `n` minutes as 600000·n ms, so an hour is shorter than a minute |
| DurationExamples.GoHourIsSixtyMinutes | src/platforms/geth.ts:73-78 | with Go's factors an hour is sixty minutes and a minute sixty seconds |
| GenericMetrics.ToLower | src/platforms/geth.ts:87 | an ASCII capital is lowered by 32 code points; every other character is kept |
| GenericMetrics.Uncapitalize | src/platforms/geth.ts:87 | only the first character changes, and it becomes its lower-case form (no capital afterwards), and a name that does not start with a capital is unchanged |
| GenericMetrics.UncapitalizeIdempotent | src/platforms/geth.ts:87 | lower-casing the first character twice is lower-casing it once |
| GenericMetrics.UncapitalizeCollides | src/platforms/geth.ts:87 | `Foo` and `foo` give the same key part, so keys are not unique |
| GenericMetrics.Key | src/platforms/geth.ts:94-120 | a key is the prefix, a dot and the name, and has their combined length |
| GenericMetrics.Split | src/platforms/geth.ts:99 | splitting always gives at least one piece |
| GenericMetrics.SplitJoin | src/platforms/geth.ts:99 | splitting loses nothing: joining the pieces gives the string back |
| GenericMetrics.SplitPieces | src/platforms/geth.ts:99-100 | `k` separators give `k + 1` pieces, none of which holds the separator |
| GenericMetrics.SplitNone | src/platforms/geth.ts:99 | text without the separator is one piece |
| GenericMetrics.SplitOnce | src/platforms/geth.ts:99-100 | text with the separator exactly once gives the two pieces around it |
| GenericMetrics.RateCounterReads | src/platforms/geth.ts:98-104 | a counter, one space and a rate ending in `)` read as the abbreviated counter |
| GenericMetrics.RateCounterShape | src/platforms/geth.ts:98-104 | conversely, a string read as a counter ends in `)` and is a counter, one space and a rate |
| GenericMetrics.DecodeDuration | src/platforms/geth.ts:107-111 | a string ending in `s` that is no counter is read as a duration |
| GenericMetrics.DecodeNeither | src/platforms/geth.ts:96-113 | a string ending in neither `)` nor `s` is never read |
| GenericMetrics.CharNeverDecodes | src/platforms/geth.ts:96-113 | no one-character string reads as a number |
| GenericMetricsProps.FlattenKeys | src/platforms/geth.ts:91-124 | every key the flattener emits starts with the prefix and a dot |
| GenericMetricsProps.FieldsKeys | src/platforms/geth.ts:92-123 | the same, for the fields from the `i`-th on |
| GenericMetricsProps.CharsKeys | src/platforms/geth.ts:119-120 | the same, for the characters of a walked string |
| GenericMetricsProps.EntryKeys | src/platforms/geth.ts:93-122 | the same, for one entry |
| GenericMetricsProps.GethMetricsKeys | src/platforms/geth.ts:126-128 | every key of the geth metrics starts with `geth.metrics.` |
| GenericMetricsProps.KeysUnderAppend | src/platforms/geth.ts:92 | keys under a prefix stay under it when lists are concatenated |
| GenericMetricsProps.KeysUnderWeaken | src/platforms/geth.ts:120 | keys under a longer prefix are under the shorter one too |
| GenericMetricsProps.WellNamedAppend | src/platforms/geth.ts:87-92 | two field lists have non-empty names exactly when their concatenation does |
| GenericMetricsProps.FieldsFromShift | src/platforms/geth.ts:92 | the fields of `f + g` after `f` are those of `g` |
| GenericMetricsProps.FieldsFromAppend | src/platforms/geth.ts:92 | the fields of `f + g` from inside `f` are the rest of `f`, then all of `g` |
| GenericMetricsProps.FlattenFieldsAppend | src/platforms/geth.ts:92-123 | output follows field order: `f + g` gives the measurements of `f`, then those of `g` |
| GenericMetricsProps.SingleField | src/platforms/geth.ts:92-123 | an object of one field gives that field's entry |
| GenericMetricsProps.NumberKept | src/platforms/geth.ts:93-95 | a number field is kept, unchanged, under `prefix.uncapitalized-name` |
| GenericMetricsProps.ArrayDropped | src/platforms/geth.ts:114-118 | an array field gives nothing, whatever it holds |
| GenericMetricsProps.BoolDropped | src/platforms/geth.ts:119-122 | a boolean field gives nothing |
| GenericMetricsProps.StringRead | src/platforms/geth.ts:96-112 | a string field that reads as a number is kept as that number |
| GenericMetricsProps.CharsGiveNothing | src/platforms/geth.ts:119-120 | walking an unread string character by character gives nothing |
| GenericMetricsProps.UnreadableStringDropped | src/platforms/geth.ts:96-120 | a string field that reads as neither a counter nor a duration gives nothing |
| GenericMetricsProps.NestedObjectSpliced | src/platforms/geth.ts:119-120 | a nested object's measurements are spliced in place, under the longer key |
| GenericMetricsExamples.DecimalOneTwo | src/platforms/geth.ts:27 | `"1.2"` parses as 1.2 |
| GenericMetricsExamples.CounterLeaf | src/platforms/geth.ts:97-104 | `"1.2K (0.00/s)"` reads as 1200 and the rate is dropped |
| GenericMetricsExamples.UptimeLeaf | src/platforms/geth.ts:107-111 | `"1h0m0s"` reads as one hour of milliseconds |
| GenericMetricsExamples.NoteLeaf | src/platforms/geth.ts:96-113 | `"n/a"` is not read |
| GenericMetricsExamples.KeysUnderX | src/platforms/geth.ts:94 | the keys of `counter` and `uptime` under `x` |
| GenericMetricsExamples.ReadField | src/platforms/geth.ts:103-110 | a field whose string reads as `n` gives `n` under its key |
| GenericMetricsExamples.DroppedField | src/platforms/geth.ts:96-122 | a field whose string reads as nothing gives nothing |
| GenericMetricsExamples.ThreeFields | src/platforms/geth.ts:92-123 | three fields give their measurements one after the other |
| GenericMetricsExamples.ReadReadDropped | src/platforms/geth.ts:92-123 | two read fields and an unread one give the two readings, in order |
| GenericMetricsExamples.ExampleSnapshot | src/platforms/geth.ts:91-124 | `{counter: "1.2K (0.00/s)", uptime: "1h0m0s", note: "n/a"}` gives the counter, then the uptime |
| GenericMetricsExamples.ExampleSnapshotUnits | src/platforms/geth.ts:73-78 | as written the uptime of one hour is 360000 ms; with Go's factors it is 3600000 ms |
| GenericMetricsAsWritten.Unzip | src/platforms/geth.ts:92-94 | unzipping doubles the length |
| GenericMetricsAsWritten.UnzipAlternates | src/platforms/geth.ts:92-94 | keys sit at even positions and values at odd ones |
| GenericMetricsAsWritten.UnzipAppend | src/platforms/geth.ts:92 | unzipping commutes with concatenation |
| GenericMetricsAsWritten.LiteralIsUnzipped | src/platforms/geth.ts:91-124 | what the code returns is the intended measurements with every pair spliced in place as key, value |
| GenericMetricsAsWritten.LiteralFieldsIsUnzipped | src/platforms/geth.ts:92-123 | the same, for the fields from the `i`-th on |
| GenericMetricsAsWritten.LiteralCharsIsUnzipped | src/platforms/geth.ts:119-120 | the same, for a walked string |
| GenericMetricsAsWritten.LiteralEntryIsUnzipped | src/platforms/geth.ts:93-122 | the same, for one entry |
| GenericMetricsAsWritten.LiteralGethMetricsIsUnzipped | src/platforms/geth.ts:126-128 | the geth metrics as returned are the intended ones unzipped, twice as long |
| GenericMetricsAsWritten.LiteralNotEntries | src/platforms/geth.ts:94 | `{Foo: 1}` is returned as the two items `"geth.metrics.foo"`, `1` where the entry `("geth.metrics.foo", 1)` was meant |
| MemStats.NumbersNamedTail | src/platforms/geth.ts:133-135 | dropping the first field keeps the numeric field names non-empty |
| MemStats.NumberEntriesLength | src/platforms/geth.ts:133-135 | one entry per numeric field |
| MemStats.NumberEntriesMembers | src/platforms/geth.ts:133-135 | an entry is emitted exactly when some numeric field has that value and lower-cased name |
| MemStats.NumberEntriesAppend | src/platforms/geth.ts:133-135 | the entries follow field order |
| MemStats.NonNumberDropped | src/platforms/geth.ts:134 | nested objects, strings, booleans and arrays are dropped, without recursion |
| MemStats.BucketEntriesLength | src/platforms/geth.ts:137-142 | two entries per bucket |
| MemStats.BucketEntriesAt | src/platforms/geth.ts:138-141 | bucket `k` gives `bySize.<size>.mallocs` at `2k` and `bySize.<size>.frees` at `2k + 1` |
| MemStats.MemStatsLength | src/platforms/geth.ts:130-144 | the output length is the numeric field count plus two per bucket, or plus none without `BySize` |
| MemStats.MemStatsBucketAt | src/platforms/geth.ts:133-143 | the bucket entries follow all the field entries |
| MemStats.MemStatsAgreesWithGeneric | src/platforms/geth.ts:91-135 | over numeric fields the memory statistics formatter and the generic flattener agree |
| MemStats.ExampleKeys | src/platforms/geth.ts:131-140 | the keys of the worked snapshot |
| MemStats.ExampleSnapshot | src/platforms/geth.ts:130-144 | `{heapAlloc: 100, BySize: [{Size: 16, Mallocs: 4, Frees: 2}]}` gives three entries |
| Options.Scale | src/platforms/geth.ts:27 | `NaN` times a factor stays `NaN`; a number is multiplied |

## Left out

- `captureGethMetrics`, `captureTxpoolData`, `capturePeers` and the
  `GethAdapter` class (`src/platforms/geth.ts:146-221`) are not modelled.
  They are RPC calls, concurrency and logging.
- Merging the measurements with `Object.fromEntries` is not modelled. It is
  a library call. Given the alternating list the code builds, it would
  throw (see Findings).
- Numbers are exact reals. IEEE-754 rounding, `-0`, `Infinity` and the
  division results in `n / 1_000_000` are not modelled.
- FloatParse.ParseFloat: covers sign, digits, point and fraction only. It
  does not model leading whitespace, exponents or `Infinity`.
- GenericMetrics.ToLower: lowers ASCII capitals only. `toLowerCase` on
  other scripts is not modelled.
- `null` and `undefined` leaves are not in `MetricValue`. `Object.entries`
  throws on them.
- GenericMetrics.Flatten: requires every object field name to be non-empty
  (`WellNamed`). The code throws in `uncapitalize` only when a name is
  actually used, so an array under an empty name would not throw there.
- Only an object can be given to the geth metrics formatter
  (`FormatGethMetrics` takes its field list). A top-level array or scalar
  is not modelled.
- MemStats.SizeBucket: the bucket size is a natural number. The response
  types in `src/eth/responses` are not part of this model. The snapshot
  is given with `BySize` already separated from the other fields.
- MemStats.FormatGethMemStats: requires the numeric field names to be
  non-empty, as `uncapitalize` does.
- Duration.DurationStringToMs: uses the factors as written. The
  Go-correct factors are available to the specification functions through
  `GoUnits`.

## Findings

| source | as written | input that shows it | evidently intended | confidence | as-written member | corrected member |
|---|---|---|---|---|---|---|
| src/platforms/geth.ts:74-77 | a minute is 600000 ms (`60_0000`) and an hour is 360000 ms | `"1h"` reads as 360000 ms and `"1m"` as 600000 ms, so an hour is shorter than a minute; `"1h2m3.4s"` reads as 1563400 ms instead of 3723400 ms | 60000 ms per minute and 3600000 ms per hour, as in Go | high, not executed | DurationExamples.WrittenHourShorterThanMinute | DurationExamples.GoHourIsSixtyMinutes |
| src/platforms/geth.ts:94-110 | each kept leaf returns `[key, value]` to `flatMap`, which flattens it one level | `{Foo: 1}` gives `["geth.metrics.foo", 1]`, a list of two items, not one entry | a list of `[key, value]` entries (return `[[key, value]]`) | high, not executed | GenericMetricsAsWritten.LiteralNotEntries | GenericMetricsProps.FlattenFieldsAppend |
