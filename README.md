# C5 / XMS Prometheus exporter — a Dafny model of its core

The exporter polls the status pages of a C5 SIP proxy and of an XMS media
server and republishes what it reads as Prometheus metrics in a single
metric set:

- the C5 state page (`fetchC5StateMetrics`): build version, start time,
  process and queue states, heap figures parsed from a free-text memory
  line, and the "Usage counters" / "Event counters" tables, where a nested
  list is a counter with several rows (one metric per row, with an `idx`
  label);
- the C5 counter page (`fetchC5CounterMetrics`): one named EVENT or USAGE
  counter with a per-trunk table;
- the XMS resource report in XML (`fetchXmsMetrics`): SIP counters or
  resource licenses;
- the XMS v2 JSON API (`fetchXmsV2Metrics`): session usage or license usage,
  plus an `xms_up` gauge;
- the service-provider counter page (`fetchServiceProviderCounters`): one
  usage table per service provider, labelled with data centre and component
  group.

When a C5 or XMS v1 fetch cannot reach its server, or its body does not
decode, every metric under its prefix is cleared. When the XMS v2 fetch
cannot connect, it sets `xms_up` to 0 and changes nothing else; when the
service-provider fetch cannot connect, it gives up without changing
anything.
Several paths stop the whole process:
- `log.Fatal` on a number that does not parse;
- `log.Fatal` on a body that does not read or decode: the XMS v2 fetch
  (after it has set `xms_up` to 1) and the service-provider fetch;
- runtime panics on a missing slice element or a failed type assertion.

## How the model is built

- **Metric set.** `Store.MetricSet` is a class holding a
  `map<string, U64>`. `U64` is the 64-bit unsigned range, and every Go
  wrap-around is written out (`Wrappers.Wrap`, `Wrappers.AddU64`).
  - `Set` models `setMetricValue`.
  - `ClearPrefix` models `clearMetrics`.
- **Publishers.** Each publishing routine is an imperative method that
  calls `Set` step by step. It is proved against a specification function
  that lists the writes it makes, in order (`Store.Apply`), together with
  how it stops: `Effect(writes, halt)`.
- **Stopping the process.** `log.Fatal` and panics are `Halt` values; the
  writes made before the stop stay in the effect.
- **Parsers.** Pure parsers are functions returning `Result`.
- **Service-provider page.** This fetch calls a three-argument
  `setUsageMetric` with labels, which is not part of this model (see Left
  out). The fetch therefore returns the sequence of calls it would make,
  each with its prefix, counter and labels.
- **Decoding.** HTTP, JSON/XML decoding and `reflect` are taken as already
  decoded inputs (`Decoded.Fetch`, `Decoded.Line`, `XmsV2.V2Response`,
  `ServiceProvider.SpResponse`).

## Model

| member | source | states |
|---|---|---|
| Wrappers.Wrap | main.go:155-169 | a unit multiplication keeps the product when it fits in 64 bits, and otherwise its residue modulo 2^64 |
| Wrappers.AddU64 | xms_v2.go:112-116 | free plus in-use is the sum when it fits, and otherwise the sum less 2^64 |
| Strconv.NatToDecimal | main.go:82-84 | the `%d` rendering of an index is a non-empty digit string with no leading zero, whose value is the index |
| Strconv.NatToDecimalInjective | main.go:82-84 | distinct indexes render differently |
| Strconv.ParseInt63 | main.go:135-142 | a parsed value lies in the signed 63-bit range |
| Strconv.ParseInt63Decimal | main.go:135-142 | a decimal below 2^62 parses to itself, its negation down to -2^62 parses, and 2^62 or more is rejected |
| Strconv.ParseUintBase0 | main.go:645-649 | `strconv.ParseUint(s, 0, 64)`: the base from a `0b`, `0o`, `0x` or `0` prefix, else 10, underscores only between digits after a prefix, and a syntax or range error otherwise; ParseUintIgnoringError, ParseUintDecimal and the example lemmas state its results |
| Strconv.ParseUintIgnoringError | main.go:640-657 | a license attribute read with base prefixes gives its value; a syntax error gives 0; an overflow gives the largest uint64 |
| Strconv.ParseUintDecimal | main.go:640-657 | every uint64 written in decimal reads back as itself |
| Strconv.ParseUintPrefixExamples | main.go:640-657 | a leading `0` means octal, `0x` means hexadecimal, and single underscores may separate digits |
| Strconv.ParseUintErrorExamples | main.go:640-657 | doubled underscores, the empty string, a sign and trailing letters all read as 0 |
| GoStrings.TrimLeft | main.go:155-169 | the result is the suffix left after removing the longest prefix of matching characters |
| GoStrings.TrimShape | main.go:88-92 | a trimmed string is an infix, with only trimmed characters cut from either side and no trimmed character at either end |
| GoStrings.TrimIdempotent | main.go:88-92 | trimming twice is trimming once |
| GoStrings.TrimOf | main.go:88-92 | a word surrounded by trimmed characters trims to the word |
| GoStrings.TrimPrefix | main.go:148-153 | the prefix is removed exactly when present, and otherwise the string is unchanged |
| GoStrings.TrimSuffix | main.go:155-169 | the suffix is removed exactly when present, and otherwise the string is unchanged |
| GoStrings.Contains | main.go:374-377 | true exactly when `sub` occurs in `s` at some position; in particular a string contains each of its prefixes |
| GoStrings.ToLower | main.go:77-86 | lower-casing keeps the length |
| GoStrings.ToLowerChars | main.go:77-86 | each character is lower-cased in place, and none of the result is upper-case |
| GoStrings.ToLowerAppend | main.go:77-86 | lower-casing distributes over concatenation |
| GoStrings.ToLowerNoUpper | main.go:77-86 | a string without upper-case letters is its own lower case |
| GoStrings.ReplaceChar | xms_v2.go:109-110 | every blank is replaced by an underscore and every other character is kept |
| GoStrings.Split | main.go:171-199 | splitting gives at least one piece, and no piece holds the separator |
| GoStrings.JoinSplit | main.go:171-199 | joining the pieces with the separator gives back the line |
| GoStrings.SplitJoin | main.go:171-199 | splitting a join of separator-free pieces gives back the pieces |
| GoStrings.Cut | main.go:176 | a two-way split yields one piece exactly when the separator is absent; otherwise it splits at the first separator |
| GoStrings.Fields | main.go:239-254 | every field is non-empty and holds no white space |
| GoStrings.FieldsJoin | main.go:239-254 | splitting a blank-joined row into fields gives back its cells |
| Naming.NormalizeMetricName | main.go:88-92 | `normalizeMetricName` is `strings.Trim` with the cut set `_`, `.` and space; its contract is given by NormalizeShape, NormalizeIdempotent, NormalizeOf and NormalizeAllJunk |
| Naming.NormalizeShape | main.go:88-92 | a normalised name is the name with `_`, `.` and blanks cut from both ends only, and it neither starts nor ends with one |
| Naming.NormalizeIdempotent | main.go:88-92 | normalising twice is normalising once |
| Naming.NormalizeOf | main.go:88-92 | a counter name with trailing `_` or `.` normalises to the bare name |
| Naming.NormalizeAllJunk | main.go:88-92 | a name made only of `_`, `.` and blanks normalises to the empty name |
| Naming.BuildMetricName | main.go:77-86 | `buildMetricName`: the lower-cased prefixed name followed by the `{idx="n"}` label when there is an index; BuildMetricNameParts and the injectivity lemmas below state what it gives |
| Naming.BuildMetricNameParts | main.go:77-86 | a metric name is the lower-cased `prefix_name`, or just the lower-cased name for an empty prefix, followed by the `{idx="n"}` label when an index is given |
| Naming.BuildMetricNameHasPrefix | main.go:77-86 | a lower-case prefix always starts the metric name, followed by `_` |
| Naming.IdxLabelNoUpper | main.go:82-84 | the index label holds no upper-case letter |
| Naming.BuildMetricNameLower | main.go:77-86 | a metric name never holds an upper-case letter |
| Naming.ToLowerTwice | main.go:81 | lower-casing is idempotent |
| Naming.BuildMetricNameCaseInsensitive | main.go:77-86 | names differing only in case give the same metric |
| Naming.BuildMetricNameInjective | main.go:77-86 | two names that give the same metric under the same prefix and index agree up to case |
| Naming.BuildMetricNameDiffer | main.go:77-86 | names of equal length differing at one place, whatever the case, give different metrics whatever the indexes |
| Naming.BuildMetricNameIdxInjective | main.go:82-84 | rows of one counter at different indexes give different metrics |
| Naming.BuildMetricNameIdxPresent | main.go:82-84 | for every prefix and name, the metric with an index never coincides with the one without |
| Scalars.ParseInt64 | main.go:135-142 | parsing succeeds exactly for decimals in the signed 63-bit range, and otherwise stops the process |
| Scalars.ParseUint64 | main.go:144-146 | the unsigned reading succeeds exactly when the signed 63-bit reading does |
| Scalars.ParseUint64Decimal | main.go:144-146 | a decimal below 2^62 reads as itself; a negative one wraps to 2^64 minus its magnitude; 2^62 or more stops the process |
| Scalars.DecimalCanonical | main.go:144-146 | any digit string below 2^62, leading zeros included, reads as its value |
| Scalars.ParseBuildString | main.go:148-153 | the version never holds a comma |
| Scalars.ParseBuildStringBanner | main.go:148-153 | the version is the text before the first comma with a leading `Version: ` removed, for any string with or without a comma; a banner `Version: v,…` gives exactly `v` |
| Scalars.ParseDataSize | main.go:155-169 | `parseDataSize`: the leading digits times the unit's factor, in `uint64` arithmetic; ParseDataSizeValue gives its value for every digit string and unit and ParseDataSizeNoDigits its failure |
| Scalars.ParseDataSizeValue | main.go:155-169 | a size is its digits times 1024 to the power given by a kb/mb/gb/tb unit in any case, or times 1 for any other unit, modulo 2^64 |
| Scalars.TrimLeftDigits | main.go:156 | cutting the leading digits leaves exactly the unit |
| Scalars.ParseDataSizeNoDigits | main.go:155-169 | a size without leading digits stops the process |
| Scalars.UsedFigure | main.go:180-191 | a used-memory figure ending in `%` is skipped, and reading one changes only the used figure |
| Scalars.Figure | main.go:179-196 | keys other than `mem used`, `mem total` and `max` are ignored; each of those three changes only its own figure; a missing value panics |
| Scalars.MemorySegmentKeeps | main.go:175-197 | one ` - `-separated part changes only the figure its lower-cased key names |
| Scalars.MemoryOf | main.go:171-199 | the three figures `parseMemoryString` returns, starting from 0 and reading the `-` segments in order; ParseMemoryString is proved equal to it and the lemmas below state which segment decides each figure |
| Scalars.ParseMemoryString | main.go:171-199 | the loop over the parts computes the memory figures of the specification |
| Scalars.MemoryUnseenKeys | main.go:171-199 | a figure whose key appears in no part keeps its starting value |
| Scalars.MemoryLastTotalWins | main.go:192-193 | when `mem total` appears more than once, the last one gives the total |
| Scalars.MemoryLastMaxWins | main.go:194-195 | when `max` appears more than once, the last one gives the percentage, read with its `%` removed |
| Scalars.MemoryLastUsedWins | main.go:180-191 | the last `mem used` segment whose value does not end in `%` gives the used figure; later percentage-only `mem used` segments are skipped |
| Scalars.MemoryPercentUsedKeeps | main.go:181-183 | `mem used` segments whose values end in `%` leave the used figure unchanged |
| Scalars.MemorySegmentsAppend | main.go:174-197 | reading the parts in two runs equals reading them in one |
| Scalars.ParseProcessState | main.go:214-230 | the first non-empty state decides (active 1, inactive or passive 0, anything else 2), and 3 means all states are empty |
| Scalars.ParseQueueState | main.go:232-237 | the queue state is 1 exactly when the status starts with `OK`, and otherwise 0 |
| MemorySamples.SegmentOf | main.go:176-178 | a part is split at its first colon, and its key is trimmed and lower-cased |
| MemorySamples.SizeValue | main.go:155-169 | a padded figure such as ` 383MB` reads as its value times the unit |
| MemorySamples.OtherSegment | main.go:179-196 | heading parts such as `C5 Heap Health` and `UpdCtr` leave the figures unchanged |
| MemorySamples.UsedPercentSegment | main.go:181-183 | the `Mem used: 18%` part is skipped |
| MemorySamples.UsedSizeSegment | main.go:189-190 | the R6.0 `Mem used: 383MB` part sets the used bytes |
| MemorySamples.R62UsedFigure | main.go:184-187 | in the R6.2 form `3%  76MB  (min: …)`, the second field gives the used bytes |
| MemorySamples.TotalSegment | main.go:192-193 | `Mem total: 2048MB` sets the total bytes |
| MemorySamples.MaxSegment | main.go:194-195 | `Max: 18%` sets the maximum percentage, whatever the key's case |
| MemorySamples.R60Dialect | main.go:171-199 | every R6.0-style memory line yields its used and total bytes and maximum percentage |
| MemorySamples.R62Dialect | main.go:171-199 | every R6.2-style memory line, with min and max in parentheses, yields its used and total bytes and maximum percentage |
| MemorySamples.R60Sample | main_test.go:15 | the R6.0 sample line yields 383 MB used, 2048 MB total and 18 % |
| MemorySamples.R62Sample | main_test.go:16 | the R6.2 sample line yields 76 MB used, 2048 MB total and 3 % |
| Counters.ReadUsage | main.go:245-253 | a usage counter is built exactly when its four figures parse, with each figure read from its own column; the first bad figure stops the process |
| Counters.ParseUsageCounter | main.go:239-254 | a row with fewer than 8 fields gives the zero counter; otherwise id, normalised name, current, lMin, lMax and lAvg come from fields 0, 1, 2, 5, 6 and 7, and a bad figure stops the process |
| Counters.ParseEventCounter | main.go:297-309 | a row with fewer than 3 fields gives the zero counter; otherwise id, normalised name and total come from fields 0 to 2, and a bad total stops the process |
| Counters.ParseUsageCounterRow | main.go:239-254 | a usage table row built from an id, a name and six figures parses back to its id, name, current value, lMin, lMax and lAvg; the min and max columns are ignored and may hold any value |
| Counters.ParseEventCounterRow | main.go:297-309 | an event table row parses back to its id, name and absolute total |
| Counters.NormalizeCounterName | main.go:88-92 | a well-formed counter name is left unchanged by normalisation |
| Counters.UsageContinuation | main.go:277-291 | a continuation row is skipped exactly when it has fewer than 6 fields; a counter it gives carries the group's id and name and is indexed by its row |
| Counters.UsageContinuationFigures | main.go:283-290 | a continuation row's counter takes current, lMin, lMax and lAvg from fields 0, 3, 4 and 5, and the row stops the process exactly when one of those is malformed |
| Counters.SubUsageCounters | main.go:256-295 | what `parseSubUsageCounter` returns: nothing without a named first row, else the first row's counter at index 0 and then the continuation rows' counters; ParseSubUsageCounter is proved equal to it and SubUsageCountersCount and SubUsageCountersShape state its shape |
| Counters.ParseSubUsageCounter | main.go:256-295 | the loop over a nested usage list computes the counters of the specification |
| Counters.UsageContinuationRows | main.go:276-292 | the loop over the continuation rows of a usage list yields, after the header's counter, exactly the counters the row-by-row specification gives, or its first halt |
| Counters.SubUsageRowsCount | main.go:276-292 | one counter is made per continuation row with at least 6 fields |
| Counters.SubUsageCountersCount | main.go:256-295 | a nested usage list gives the header counter plus one counter per wide continuation row |
| Counters.SubUsageCountersShape | main.go:256-295 | the header comes first, with index 0; every counter carries the header's id and name; and indexes are the rows they come from, in increasing order, each pointing at a row with at least 6 fields |
| Counters.SubUsageCountersUnnamed | main.go:266-271 | a header without a name yields no counters |
| Counters.SubUsageTwoRows | main.go:256-295 | a header row and one indented row give two counters, indexed 0 and 1, with each row's current value, lMin, lMax and lAvg; the min and max columns may hold any value |
| Counters.SubUsageExample | main.go:257-260 | the two-row queue-size sample yields two counters, indexed 0 and 1, whose lMax is 9 and 4 and whose current value, lMin and lAvg are 0 |
| Counters.SubEventCounters | main.go:311-347 | what `parseSubEventCounter` returns, stopping at the first blank continuation row; ParseSubEventCounter is proved equal to it and SubEventCountersCount, SubEventCountersShape and SubEventCountersStop state its shape |
| Counters.ParseSubEventCounter | main.go:311-347 | the loop over a nested event list computes the counters of the specification |
| Counters.EventContinuationRows | main.go:331-344 | the loop over the continuation rows of an event list yields, after the header's counter, exactly the counters the row-by-row specification gives, stopping at the first blank row or halt |
| Counters.SubEventRowsCount | main.go:331-344 | continuation rows are read until the first blank row |
| Counters.SubEventCountersCount | main.go:311-347 | a nested event list gives the header counter plus one counter per row before the first blank one |
| Counters.SubEventCountersShape | main.go:311-347 | counter k carries the header's id and name, and index k |
| Counters.SubEventCountersStop | main.go:333-336 | no counter comes from a row at or after a blank continuation row |
| Store.Then | main.go:348-400 | after a stop nothing more is written; otherwise the writes of the two steps follow each other |
| Store.Latest | main.go:130-133 | a name has a latest write exactly when it was written |
| Store.Apply | main.go:130-133 | each write overwrites the value under its name, in order; ApplyLatest, ApplyUntouched and ApplyIdempotent state its result |
| Store.ApplyAppend | main.go:130-133 | applying two runs of writes equals applying their concatenation |
| Store.ApplyLatest | main.go:130-133 | after a run of writes, a name is present when it was present or written, and holds its last written value, or else its old one |
| Store.ApplyIdempotent | main.go:130-133 | publishing the same values twice leaves the set as publishing them once |
| Store.ApplyUntouched | main.go:130-133 | metrics not written keep their presence and value |
| Store.ApplyWrittenOnce | main.go:130-133 | a name written once reads back its value |
| Store.ApplyDistinct | main.go:130-133 | writes to distinct names all read back |
| Store.ThenStep | main.go:348-400 | splitting off one step of a publication preserves the whole publication, whether or not that step stops it |
| Store.ClearAfterWrites | main.go:457-465 | writing names under a prefix and then clearing the prefix is clearing it alone |
| Store.MetricSet.constructor | main.go:130-133 | a fresh metric set is empty |
| Store.MetricSet.Set | main.go:130-133 | creating or overwriting one metric changes only that metric |
| Store.MetricSet.ClearPrefix | main.go:457-465 | every metric whose name starts with the prefix is unregistered, and every other metric is kept with its value |
| Publish.UsageWrites | main.go:94-104 | the four writes of `setUsageMetric`, `_current`, `_lastmin`, `_lastavg` and `_lastmax` in that order; UsageWriteName, UsageNamesDistinct and UsageReadBack state what they do to the store |
| Publish.LabeledUsageWrites | main.go:106-116 | the four writes of `setLabeledUsageMetric` under `current{key="name"}` and its siblings; LabeledUsageNamesDistinct and LabeledUsageReadBack state what they do to the store |
| Publish.CounterWrites | main.go:118-122 | the single `_total` write of `setCounterMetric`; CounterReadBack states what it does to the store |
| Publish.LabeledCounterWrites | main.go:124-128 | the single `total{key="name"}` write of `setLabeledCounterMetric`; SetLabeledCounterMetric applies it |
| Publish.UsageWriteName | main.go:94-104 | usage write i names the metric built from the counter name plus `_current`, `_lastmin`, `_lastavg` or `_lastmax` |
| Publish.UsageNamesApart | main.go:94-104 | two rows of one counter never share a metric name, and two figures never do |
| Publish.UsageNamesDistinct | main.go:94-104 | the four usage metrics of one counter have distinct names |
| Publish.LabeledUsageNamesDistinct | main.go:106-116 | the four labelled usage metrics of one counter have distinct names |
| Publish.UsageReadBack | main.go:94-104 | after a usage counter is published, its current, lMin, lAvg and lMax read back under their names, and every other metric is unchanged |
| Publish.LabeledUsageReadBack | main.go:106-116 | after a labelled usage counter is published, its four figures read back under `current{label="name"}` and its siblings, and every other metric is unchanged |
| Publish.ZeroUsageNames | main.go:94-104 | publishing the zero counter of a short row writes 0 under `prefix__current` and its three siblings |
| Publish.CounterReadBack | main.go:118-122 | after an event counter is published, its total reads back under `name_total`, and every other metric is unchanged |
| Publish.AllUsageWritesNext | main.go:361-363 | publishing one more counter appends its writes |
| Publish.AllCounterWritesNext | main.go:366-368 | publishing one more counter appends its writes |
| Publish.GroupUsageReadBack | main.go:361-363 | in a group of indexed rows of one counter, every row's four figures survive the publication of the whole group |
| Publish.GroupCounterReadBack | main.go:366-368 | in a group of indexed event rows, every row's total survives the publication of the group |
| Publish.SubUsageGroupPublished | main.go:359-363 | every counter parsed from a nested usage list reads back after the group is published |
| Publish.SubEventGroupPublished | main.go:364-368 | the k-th event row of a nested list reads back under `name_total{idx="k"}` |
| Publish.SetUsageMetric | main.go:94-104 | the store becomes the old store with the four usage writes applied |
| Publish.SetLabeledUsageMetric | main.go:106-116 | the store becomes the old store with the four labelled usage writes applied |
| Publish.SetCounterMetric | main.go:118-122 | the store becomes the old store with the total written |
| Publish.SetLabeledCounterMetric | main.go:124-128 | the store becomes the old store with the labelled total written |
| Publish.SetUsageMetrics | main.go:361-363 | the loop publishes every counter of the list, in order |
| Publish.SetCounterMetrics | main.go:366-368 | the loop publishes every counter of the list, in order |
| C5State.NextMode | main.go:374-379 | the table mode changes only at a header line: "Event counters" selects events, and otherwise "Usage counters" selects usage |
| C5State.LineEffect | main.go:351-397 | nothing is published before the first header, for an element that is neither text nor a list, for a header or for a line indented by four blanks; a stop writes nothing |
| C5State.StateCounterEffect | main.go:348-400 | what `processC5StateCounter` publishes: each element's line effect under the mode the headers before it set, up to the first halt; ProcessC5StateCounter is proved equal to it and BeforeFirstHeader and UsageTableExample state its results |
| C5State.StateCounterNext | main.go:351-398 | the table walk is one line's effect followed by the rest under the next mode |
| C5State.ProcessLine | main.go:352-397 | one element of the counter list publishes exactly its line effect |
| C5State.ProcessC5StateCounter | main.go:348-400 | the loop over the counter list publishes the writes of the specification and stops where it does |
| C5State.BeforeFirstHeader | main.go:393-395 | a counter list without a header publishes nothing |
| C5State.UsageRowEffect | main.go:387-389 | under usage mode a row publishes its parsed usage counter, a short row publishes zeros under `prefix__current` and its siblings, and a bad figure stops the process with no write |
| C5State.EventRowEffect | main.go:390-392 | under event mode a row publishes its parsed event counter, and a bad figure stops the process |
| C5State.UsageTableExample | main.go:374-389 | a usage header, a row and an indented observer line publish just that row |
| C5State.Version | main.go:469-472 | the version comes from the build string, or from the old field when it is empty |
| C5State.StartupTime | main.go:473-476 | the start time comes from the new field, or from the old one when it is empty |
| C5State.BaseMetricsEffect | main.go:467-489 | the info, state and queue-state writes, then the three memory writes, or a halt after the status writes when the memory line stops the process; BaseNamesDistinct and BaseMetricsReadBack state its results |
| C5State.ProcessBaseMetrics | main.go:467-489 | the base figures are published as the specification lists them, and a bad memory line stops the process |
| C5State.BaseNamesDistinct | main.go:478-488 | the six base metrics have distinct names |
| C5State.BaseMetricsReadBack | main.go:467-489 | after publication, info is 1, the state and queue state are their codes, and the memory used, total and max figures are those parsed from the memory line |
| C5State.C5StateEffect | main.go:509-513 | a decoded state page publishes its base metrics and then its counter list, and a halt in the first stops the second |
| C5State.FetchC5StateMetrics | main.go:491-514 | a failed fetch clears the prefix; a decoded page publishes base metrics and then counters |
| C5Counter.HeadWrites | main.go:421-433 | the overall writes: `_current`, then `_total` and `_last` for an `EVENT` counter or `_lastavg`, `_lastmin` and `_lastmax` for any other type; HeadApplied and HeadReadBack state what they do to the store |
| C5Counter.RowEffect | main.go:435-452 | non-text elements, `name` header rows and unknown counter types publish nothing, and a stop writes nothing |
| C5Counter.TableEffect | main.go:435-453 | the table's rows published in order up to the first halt; TableNext, HeaderRowsOnly and OtherTypeNoTable state its results |
| C5Counter.CounterMetricsEffect | main.go:419-455 | `processC5CounterMetrics`: the overall writes under `prefix_countername`, then the table; ProcessC5CounterMetrics is proved equal to it |
| C5Counter.TableNext | main.go:435-453 | the table walk is one row's effect followed by the rest |
| C5Counter.ProcessRow | main.go:436-452 | one table element publishes exactly its row effect |
| C5Counter.ProcessC5CounterMetrics | main.go:419-455 | the head figures and then the trunk table are published as the specification lists them |
| C5Counter.HeadApplied | main.go:421-433 | an EVENT counter writes current, total and last; any other type writes current, lastavg, lastmin and lastmax |
| C5Counter.HeadReadBack | main.go:421-433 | the head figures read back under their names |
| C5Counter.OtherTypeNoTable | main.go:449-451 | a table of a type other than USAGE or EVENT publishes nothing |
| C5Counter.HeaderRowsOnly | main.go:440-442 | a table of header rows only publishes nothing |
| C5Counter.TrunkUsageRow | main.go:443-445 | a trunk usage row, read behind the id `0`, gives a usage counter named after the trunk with its current value, lMin, lMax and lAvg; the min and max columns may hold any value |
| C5Counter.TrunkEventRow | main.go:446-448 | a trunk event row parses to the trunk name and its absolute total |
| C5Counter.FetchC5CounterMetrics | main.go:516-537 | a failed fetch clears the prefix; a decoded page is published |
| Xms.ResourceCountersEffect | main.go:628-638 | the counters publish without stopping exactly when there are at least four resources; otherwise the missing index panics after the writes of the resources before it |
| Xms.ProcessXmsResourceCounters | main.go:628-638 | the store receives the counter writes of the specification, and the method stops where it does |
| Xms.ResourceCountersReadBack | main.go:628-638 | resources 1, 2 and 3 read back as sent SIP invites, received SIP responses and sent SIP responses |
| Xms.LicenseWrites | main.go:642-656 | the five writes of one license under `prefix_id_`, each figure read by `ParseUint` base 0 with its error ignored; LicenseReadBack states what they do to the store |
| Xms.ProcessXmsResourceLicenses | main.go:640-657 | the loop publishes every license's five figures, in order |
| Xms.LicenseReadBack | main.go:640-657 | a license's total, used, free, percent-used and allocated figures read back under `prefix_id_…`, each read with errors ignored |
| Xms.XmsEffect | main.go:579-626 | a decoded report publishes its resource counters for the prefix `xms_counter` and its licenses for any other prefix; FetchXmsMetrics applies it |
| Xms.FetchXmsMetrics | main.go:579-626 | a failed fetch or decode clears the prefix; the `xms_counter` prefix publishes counters and any other prefix publishes licenses |
| XmsV2.SessionWrites | xms_v2.go:86-95 | the ten session writes in Go's order; SessionNamesDistinct and SessionReadBack state what they do to the store |
| XmsV2.SessionEffect | xms_v2.go:76-96 | a body that does not decode stops the process with nothing written; otherwise all ten session figures are written |
| XmsV2.ProcessXmsV2SessionMetrics | xms_v2.go:76-96 | the store receives the session writes of the specification |
| XmsV2.SessionNamesDistinct | xms_v2.go:86-95 | the ten session metrics have distinct names |
| XmsV2.SessionReadBack | xms_v2.go:86-95 | each of the ten session figures and maxima reads back under its own name |
| XmsV2.LicenseNameShape | xms_v2.go:109-110 | a license name keeps the id's length, turns blanks into underscores and holds no blank or upper-case letter |
| XmsV2.LicenseEffect | xms_v2.go:98-118 | a body that does not decode stops the process with nothing written |
| XmsV2.ProcessXmsV2LicenseMetrics | xms_v2.go:98-118 | the loop publishes every license's five figures, in order |
| XmsV2.V2LicenseWrites | xms_v2.go:109-116 | the five writes of one license: free, allocated and total as free plus in use wrapping at 2^64, used, and percent used; V2LicenseReadBack states what they do to the store |
| XmsV2.V2LicenseReadBack | xms_v2.go:109-116 | free, used and percent-used read back; allocated and total both hold free plus in use, wrapped to 64 bits |
| XmsV2.V2Effect | xms_v2.go:43-74 | no connection writes `xms_up`=0 and nothing else; otherwise `xms_up`=1 and then the sessions or the licenses by the prefix; ConnectFailureKeepsMetrics, DecodeFailureStops and ConnectedPublishes state its cases |
| XmsV2.FetchXmsV2Metrics | xms_v2.go:43-74 | the store receives the writes of the specification: `xms_up` first, then the sessions or licenses chosen by the prefix |
| XmsV2.ConnectFailureKeepsMetrics | xms_v2.go:59-64 | an unreachable server sets `xms_up` to 0 and keeps every other metric |
| XmsV2.DecodeFailureStops | xms_v2.go:67-73 | a connected server whose body does not decode sets `xms_up` to 1 and then stops the process |
| XmsV2.ConnectedPublishes | xms_v2.go:67-73 | a decoded body sets `xms_up` to 1 and then publishes the sessions for `xms_counter`, or the licenses for any other prefix |
| ServiceProvider.ParseUints | service_provider.go:24-33 | the figures parse exactly when each parses; the values come in order; a stop comes from the first bad figure |
| ServiceProvider.ParseServiceProviderCounter | service_provider.go:14-35 | a row with fewer than 8 fields gives the zero counter; otherwise the id is "0", the name is field 0 normalised, and fields 1 to 7 are current, min, max, lMin, lMax, lAvg and total; the first bad figure stops the process |
| ServiceProvider.ParseUintsOk | service_provider.go:24-33 | figures that each parse give the list of their values |
| ServiceProvider.ParseServiceProviderRow | service_provider.go:14-35 | a row built from a name and seven figures parses back to exactly those values |
| ServiceProvider.UpToQuote | service_provider.go:59 | the captured name is the longest quote-free prefix, stopping at a double quote |
| ServiceProvider.SubmatchAfter | service_provider.go:59 | a match is a non-empty, quote-free name |
| ServiceProvider.SubmatchOf | service_provider.go:59 | a key holding the marker, a name and then a quote or its end yields that name |
| ServiceProvider.ProviderName | service_provider.go:59 | the provider `serviceProviderName: ([^"]+)` finds in a table's key; ProviderNameInKey and ProviderNameOf state what it finds |
| ServiceProvider.ProviderNameInKey | service_provider.go:71-73 | a provider name found is non-empty, quote-free, and written in the key right after `serviceProviderName: `, up to a quote or the end |
| ServiceProvider.ProviderNameOf | service_provider.go:71-73 | a key of the form `…serviceProviderName: sp"…` yields `sp` |
| ServiceProvider.UpToQuoteOf | service_provider.go:59 | the capture stops exactly at the first quote |
| ServiceProvider.AndThen | service_provider.go:69-83 | after a stop no more calls are made; otherwise the calls of the two steps follow each other |
| ServiceProvider.AndThenStep | service_provider.go:69-83 | splitting off one step of the walk preserves the whole walk, whether or not that step stops it |
| ServiceProvider.RowOutcome | service_provider.go:75-79 | one table element makes at most one call, and a stop makes none |
| ServiceProvider.Lookup | service_provider.go:61-62 | a member is found exactly when the object has that key, and the value found is that key's value |
| ServiceProvider.RowsOutcomeNext | service_provider.go:74-80 | the table walk is one row followed by the rest |
| ServiceProvider.EntriesOutcomeNext | service_provider.go:69-83 | the member walk is one member followed by the rest |
| ServiceProvider.PublishTable | service_provider.go:74-80 | the loop over a table makes the calls of the specification and stops where it does |
| ServiceProvider.EntryOutcome | service_provider.go:70-82 | one member of the response: only a `spCounterTable` key naming a provider counts, a non-array value panics, and its rows are published with `sp` added; OtherKeysIgnored and EntriesAttributes state its results |
| ServiceProvider.PublishEntry | service_provider.go:70-82 | one member makes the calls of the specification |
| ServiceProvider.PublishEntries | service_provider.go:69-83 | the loop over the members makes the calls of the specification, in order |
| ServiceProvider.FetchOutcome | service_provider.go:37-85 | no response makes no call, an unreadable or undecodable body stops the process, a missing or null `clusterInfo` makes no call, and otherwise every member is published with `dc` and `cmpGrp`; NothingWithoutClusterInfo states its empty cases |
| ServiceProvider.FetchServiceProviderCounters | service_provider.go:37-85 | the fetch makes the calls of the specification |
| ServiceProvider.TableCalls | service_provider.go:74-80 | a table that does not stop makes one call per non-header row, each with the given prefix and labels and a counter id of "0" or the zero counter's empty id |
| ServiceProvider.HeaderRowsOnly | service_provider.go:77 | a table of `name` header rows only makes no call |
| ServiceProvider.EntriesAttributes | service_provider.go:66-73 | every call carries the `dc` and `cmpGrp` labels followed by a non-empty `sp` label |
| ServiceProvider.OtherKeysIgnored | service_provider.go:70 | members whose keys do not start with `spCounterTable` make no call |
| ServiceProvider.NothingWithoutClusterInfo | service_provider.go:40-65 | no response, or a page without a non-null `clusterInfo`, makes no call |

## Left out

- HTTP, TLS, basic authentication and time-outs are left out. A fetch takes the outcome of the request as an input: unreachable, undecodable or decoded.
- JSON and XML decoding are left out. Decoded bodies are Dafny datatypes, and `reflect`-based element kinds are the variants of `Decoded.Line` and `ServiceProvider.Json`.
- The `log.Fatal` on a request that cannot be built (an invalid URL, main.go:590-593 and xms_v2.go:53-56) is left out, because the URL comes from configuration.
- The `io.ReadAll` failure in service_provider.go:47-50 is the `SpUnreadable` input. The `log.Fatal` there, and the other fatal messages, keep only their fixed text: the Go error value printed after it is not modelled.
- The `/metrics` HTTP handler, `main`, configuration reading, the polling schedule, the wait group and the concurrency between fetches are left out. Each fetch is modelled as running alone on the metric set.
- Logging (`logInfo`, `logDebug`, `logError`) is left out, because it changes no metric.
- `parseMemoryStringRegex` (main.go:201-212) is left out, because nothing in the core calls it.
- `parseClusterInfo` is a function parameter of the service-provider fetch, because it lives outside the core.
- ServiceProvider.FetchServiceProviderCounters: returns the three-argument `setUsageMetric` calls it would make instead of writing metrics. The function it calls is not part of this model, and neither is the `usageCounter` layout it fills. That layout has `Min`, `Max` and `Total`, which main.go:35-43 does not declare. The counter is modelled as its own record, `SpCounter`.
- ServiceProvider.Lookup: the decoded page is a list of members, so it may repeat a key, and Lookup then takes the first. A decoded Go map has unique keys (duplicate JSON keys decode last-wins). Pages with duplicate keys are outside the model.
- Go map iteration order over the service-provider page is random. The model walks the members in the order the decoded input lists them, so it covers every order, one input per order.
- `strings.ToLower` is modelled on ASCII letters only; other Unicode case mappings are left out.
- Go's `*int` index is an `Option<nat>`, because a row index is never negative.
- The counter names of the group rows are normalised once, from the header. In Go they are normalised again per row, which gives the same result because normalisation is idempotent (Naming.NormalizeIdempotent).
- Metric registration details of the metrics library are left out (counter objects, metric types, name validation). The metric set is a map from name to value.
