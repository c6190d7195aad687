# Scheduler latency probe: parse and diff of /proc/schedstat

This project models the core of a Mackerel plugin that samples the kernel's
per-CPU scheduler statistics. It takes two readings of `/proc/schedstat`.
It parses each reading into a map from CPU key to a counter record. It then
subtracts the first reading's run-delay and cpu-time counters from the
second reading, in place.

The model has three modules:

- `Text` (`text.dfy`) holds the string functions the parser calls. They are
  Go's `strings.Split` with a one-character separator, `strings.Fields`
  (split on `unicode.IsSpace`), and the reading of a counter token.
- `Parser` (`parser.dfy`) holds the `schedstat` record and the parse.
  `ParseProcSchedstat` is the imperative parse: a loop over the lines, and
  an inner loop that fills a zeroed 10-slot array. It is proved equal to the
  specification function `Parse`. The lemmas about `Parse` state the
  properties of the parse.
- `Differ` (`differ.dfy`) holds the delta loop from `main`, lifted into the
  method `SubtractPrevious`. It is proved equal to the specification function
  `Delta`. The lemmas about `Delta` state its properties, and one lemma links
  two parses to one delta step.

Counters are integers. Parsed counters are `nat`. `cpuTime` and `runDelay`
are `int`, because the delta step can make them negative and the code does
not clamp them.

The model follows the code on these points:

- The map key is the whole first token of the line, for example `cpu0`
  (schedluer_latency.go:53).
- A cpu line with fewer than ten numeric tokens is accepted. The missing
  slots read as 0 (schedluer_latency.go:55).
- A key found only in the second reading stays in the map with its raw
  counters (schedluer_latency.go:117).
- A key of the first reading that is missing from the second makes the code
  dereference a nil pointer (schedluer_latency.go:118). The model makes the
  presence of every such key a precondition of the delta step.
- A cpu line with more than ten numeric tokens indexes past the 10-slot
  buffer and panics (schedluer_latency.go:57). The model gives this its own
  outcome, `IndexOutOfRange`. The panic happens only once the first ten
  tokens have parsed; a bad token earlier on the line is returned as an
  error first.

## Model

| member | source | states |
|---|---|---|
| `Text.Split` | schedluer_latency.go:50 | splitting always yields at least one part (an empty text is one empty line) |
| `Text.JoinSplit` | schedluer_latency.go:50 | joining the parts of a split with the separator gives back the original text |
| `Text.SplitPartsHaveNoSeparator` | schedluer_latency.go:50 | no line produced by the split contains a newline |
| `Text.SplitJoin` | schedluer_latency.go:50 | splitting a join of newline-free parts gives back exactly those parts |
| `Text.TokenLength` | schedluer_latency.go:52 | the returned length is that of the longest space-free prefix: all characters before it are non-space and the next one is a space |
| `Text.IsSpace` | schedluer_latency.go:52 | computes Go's `unicode.IsSpace` (the six ASCII spaces, U+0085, U+00A0 and the other Unicode White_Space characters); no digit and no lower-case ASCII letter is a space |
| `Text.Fields` | schedluer_latency.go:52 | every field is a non-empty, space-free token; text starting with a non-space has at least one field |
| `Text.FieldsSkipsSpaces` | schedluer_latency.go:52 | any run of spaces in front of a text adds no field |
| `Text.FieldsAfterToken` | schedluer_latency.go:52 | a token followed by one or more spaces, or ending the text, is one field, followed by the fields of the rest; with `FieldsSkipsSpaces` this fixes `Fields` on every text as the maximal space-free runs, in order |
| `Text.FirstField` | schedluer_latency.go:52-53 | the first field of text starting with a non-space is its longest space-free prefix |
| `Text.FieldsOfJoin` | schedluer_latency.go:52 | fields of tokens joined by single spaces are those tokens (round trip) |
| `Text.ParseNat` | schedluer_latency.go:57 | a token reads as a counter exactly when it is a non-empty decimal digit string |
| `Text.ParseDecimalString` | schedluer_latency.go:57 | reading back the decimal spelling of a counter gives the counter |
| `Parser.IsCpuLine` | schedluer_latency.go:51 | computes `strings.HasPrefix(line, "cpu")`; such a line starts with a non-space, so it has a first field |
| `Parser.RecordOf` | schedluer_latency.go:63-74 | builds the record from the 10-slot buffer by the fixed positions; the two reported counters of a parsed record are never negative |
| `Parser.ParseFrom` | schedluer_latency.go:50-78 | reads the lines in order on top of a map, skipping non-cpu lines, stopping at the first malformed cpu line, and overwriting earlier entries of the same key; a successful parse never drops a key it started with |
| `Parser.Parse` | schedluer_latency.go:46-81 | `parseProcSchedstat` as a function of the text; every key of a parsed snapshot itself begins with `cpu` |
| `Parser.ParsedKeysBeginWithCpu` | schedluer_latency.go:51-53 | every key of a parse from the empty map begins with `cpu` |
| `Parser.ParseSkipsHeaderLine` | schedluer_latency.go:50-51 | a leading non-cpu line such as `version 15` leaves the outcome of the parse unchanged |
| `Parser.ParseProcSchedstat` | schedluer_latency.go:46-81 | the loop-based parse (zeroed 10-slot buffer per line, map insert per line, early return on a bad token) returns exactly `Parse(text)` |
| `Parser.FillFrom` | schedluer_latency.go:55-61 | a filled buffer always has exactly ten slots |
| `Parser.KeyIsFirstToken` | schedluer_latency.go:51-53 | the key of a cpu line is its longest space-free prefix, verbatim, and still begins with `cpu` |
| `Parser.FirstNonDecimal` | schedluer_latency.go:56-60 | the result is the first index at or after `i` whose token is not a number, or the token count when every token is a number |
| `Parser.ValuesOfMatchesReference` | schedluer_latency.go:55-61 | filling the buffer token by token agrees with a positional reading: the first bad token among the first ten is an error; otherwise an eleventh token is an index-out-of-range panic; otherwise the slots hold the token values padded with zeros |
| `Parser.LineOkIff` | schedluer_latency.go:55-61 | a cpu line is accepted exactly when it has at most ten numeric tokens and all are decimal numbers |
| `Parser.FieldMapping` | schedluer_latency.go:63-74 | the record takes slot 0 as YldCount and slots 2 to 8 as SchedCount, SchedGoidle, TtwuCount, TtwuLocal, CpuTime, RunDelay and Pcount; slots 1 and 9 are dropped; a slot beyond the last token is 0 |
| `Parser.ParseIgnoresOtherLines` | schedluer_latency.go:50-51 | the outcome equals that of parsing only the lines that start with `cpu` (so `version`, `timestamp`, `domain0` and indented lines have no effect) |
| `Parser.ParseSucceedsIff` | schedluer_latency.go:56-60 | a parse yields a snapshot exactly when every cpu line is well formed; otherwise it yields no map at all |
| `Parser.ParseFailsAtFirstBadLine` | schedluer_latency.go:56-60 | a failing parse reports the failure of its first malformed cpu line |
| `Parser.ParsedEntries` | schedluer_latency.go:50-78 | a parsed snapshot holds exactly the keys of the cpu lines, and each key holds the record of the last line with that key |
| `Parser.ParsedKeys` | schedluer_latency.go:50-53 | starting from the empty map, the parsed keys are exactly the keys of the cpu lines |
| `Parser.ParsedRecord` | schedluer_latency.go:63-76 | starting from the empty map, the key of a cpu line that no later line repeats holds that line's record |
| `Parser.RenderedLine` | schedluer_latency.go:51-76 | a cpu line written as key and counters separated by spaces is accepted and its record is the schema's reading of those counters |
| `Parser.SplitRender` | schedluer_latency.go:50-53 | a file of such lines, each ended by a newline, splits back into those lines, each with its own key and record |
| `Parser.ParseRendered` | schedluer_latency.go:46-81 | parsing such a file with distinct keys succeeds, has one entry per line and no other, and each entry holds its line's counters under the positional schema |
| `Differ.Subtract` | schedluer_latency.go:118-119 | the new RunDelay and CpuTime plus the previous ones give back the current ones; the other six fields are those of the current record |
| `Differ.Delta` | schedluer_latency.go:117-120 | the current snapshot after the loop, as a function; it keeps the current key set and, for every key, the six fields other than RunDelay and CpuTime |
| `Differ.SubtractPrevious` | schedluer_latency.go:117-120 | for every key of the first reading, RunDelay and CpuTime become current minus previous; the other six fields, the keys found only in the current reading, and the key set are unchanged; the result equals `Delta(prev, cur)` |
| `Differ.RestoreDelta` | schedluer_latency.go:117-119 | adding the previous counters back to the delta gives back the current reading, so the delta step loses nothing |
| `Differ.DeltaOfItselfIsZero` | schedluer_latency.go:117-119 | a reading diffed against itself reports RunDelay = 0 and CpuTime = 0 for every key and keeps the other fields |
| `Differ.DeltaOfGrowth` | schedluer_latency.go:118-119 | counters that grew by d and e over the window are reported as exactly d and e |
| `Differ.DeltaIsNotClamped` | schedluer_latency.go:118-119 | for every key of the first reading, a reported RunDelay or CpuTime is negative exactly when that counter went backwards; nothing clamps it to zero |
| `Differ.DiffDefinedWhenCpusPersist` | schedluer_latency.go:112-118 | when every cpu key of the first text also appears as a cpu key in the second, the first snapshot's keys are among the second's, which is what the delta step requires |
| `Differ.TwoCpuParse` | schedluer_latency.go:46-81 | the rendered lines for `cpu0` and `cpu1` parse to exactly the keys `cpu0` and `cpu1`, each with its counters |
| `Differ.TwoCpuExample` | schedluer_latency.go:112-120 | a `version 15` line followed by lines for `cpu0` and `cpu1` parses to exactly the keys `cpu0` and `cpu1` with their counters; diffing it against itself reports RunDelay = 0 and CpuTime = 0 for both CPUs |

## Left out

- Reading `/proc/schedstat` (`collectSchedstat`) is file I/O. The model starts from the file's text.
- `printSchedstat` is left out. It does floating-point scaling by a hard-coded tick rate, reads the clock and prints lines.
- `printDefinitions` and `graphDef` are left out. They emit plugin metadata as JSON through an external helper library.
- `main`'s mode switch on an environment variable, its one-second sleep, and its discarding of the errors returned by `collectSchedstat` are process plumbing. Only its delta loop is modelled.
- Go's `strconv.ParseFloat` grammar is narrowed. A token counts as a number only when it is a non-empty ASCII decimal digit string. Signs, fractions, exponents, `inf`/`nan` and hexadecimal forms, which the code would accept, are parse errors in the model.
- Counters are exact unbounded integers, not `float64`. The model has no rounding above 2^53. It also has no range error for decimal strings too large for a `float64`.
- Text is a sequence of Unicode characters. Go's handling of invalid UTF-8 bytes in `strings.Fields` is not modelled.
- `Differ.SubtractPrevious`: the code updates each record in place through a pointer held in the map. The model treats records as values and replaces the map entry instead. Each parse allocates a fresh record per line, so no two entries share a record and the outcome is the same.
- Go visits the first reading's keys in an unspecified order. The model's loop picks any remaining key, so its result holds for every order.
