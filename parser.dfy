/** The parser of /proc/schedstat text: one record per line that starts with
    `cpu`, keyed by that line's first token. */
module Parser {
  import opened Text

  /** The per-CPU counters the probe keeps. The parsed counters are never
      negative; CpuTime and RunDelay are integers because the delta step
      overwrites them with differences that may be negative. */
  datatype Schedstat = Schedstat(
    yldCount: nat,
    schedCount: nat,
    schedGoidle: nat,
    ttwuCount: nat,
    ttwuLocal: nat,
    cpuTime: int,
    runDelay: int,
    pcount: nat)

  /** CPU key (the first token of the line, such as "cpu0") to its record. */
  type Snapshot = map<string, Schedstat>

  /** Size of the zero-initialised value buffer filled for every line. */
  const NumValues: nat := 10

  /** How a parse ends: a snapshot; the first counter token that is not a
      number; or the index-out-of-range panic of a line with more numeric
      tokens than the buffer holds. Neither failure carries a partial map. */
  datatype ParseResult =
    | Parsed(stats: Snapshot)
    | SyntaxError(token: string)
    | IndexOutOfRange(key: string)

  /** How filling the value buffer from one line's numeric tokens ends. */
  datatype Values = Filled(v: seq<nat>) | BadToken(token: string) | TooManyTokens

  /** strings.HasPrefix(line, "cpu"); such a line starts with a non-space,
      so it has a first field to use as the key. */
  predicate IsCpuLine(line: string)
    ensures IsCpuLine(line) ==> |line| > 0 && !IsSpace(line[0])
  {
    |line| >= 3 && line[..3] == "cpu"
  }

  /** The key a cpu line is stored under: its first field, verbatim. */
  function KeyOf(line: string): string
    requires IsCpuLine(line)
  {
    Fields(line)[0]
  }

  /** The fields of a cpu line after its key. */
  function NumericTokens(line: string): seq<string>
    requires IsCpuLine(line)
  {
    Fields(line)[1..]
  }

  function Zeros(): (z: seq<nat>)
    ensures |z| == NumValues && forall i :: 0 <= i < NumValues ==> z[i] == 0
  {
    seq(NumValues, _ => 0)
  }

  /** Fills buffer `v` from token `i` on, one token per slot, stopping at
      the first token that does not parse or at the end of the buffer. */
  function FillFrom(ts: seq<string>, i: nat, v: seq<nat>): (r: Values)
    requires i <= |ts| && |v| == NumValues
    ensures r.Filled? ==> |r.v| == NumValues
    decreases |ts| - i
  {
    if i == |ts| then Filled(v)
    else if i >= NumValues then TooManyTokens
    else match ParseNat(ts[i])
      case None => BadToken(ts[i])
      case Some(n) => FillFrom(ts, i + 1, v[i := n])
  }

  function ValuesOf(ts: seq<string>): Values
  {
    FillFrom(ts, 0, Zeros())
  }

  /** The fixed positional schema: slot 1 and slot 9 are not kept. */
  function RecordOf(v: seq<nat>): (r: Schedstat)
    requires |v| == NumValues
    ensures r.cpuTime >= 0 && r.runDelay >= 0
  {
    Schedstat(
      yldCount := v[0],
      schedCount := v[2],
      schedGoidle := v[3],
      ttwuCount := v[4],
      ttwuLocal := v[5],
      cpuTime := v[6],
      runDelay := v[7],
      pcount := v[8])
  }

  predicate LineOk(line: string)
    requires IsCpuLine(line)
  {
    ValuesOf(NumericTokens(line)).Filled?
  }

  function LineRecord(line: string): Schedstat
    requires IsCpuLine(line) && LineOk(line)
  {
    RecordOf(ValuesOf(NumericTokens(line)).v)
  }

  /** The failure a malformed cpu line ends the whole parse with. */
  function LineFailure(line: string): ParseResult
    requires IsCpuLine(line) && !LineOk(line)
  {
    match ValuesOf(NumericTokens(line))
    case BadToken(t) => SyntaxError(t)
    case TooManyTokens => IndexOutOfRange(KeyOf(line))
  }

  /** The lines of `lines` are read in order on top of `stats`; a later line
      with the same key replaces an earlier one. */
  function ParseFrom(lines: seq<string>, stats: Snapshot): (r: ParseResult)
    ensures r.Parsed? ==> stats.Keys <= r.stats.Keys
    decreases |lines|
  {
    if lines == [] then Parsed(stats)
    else if !IsCpuLine(lines[0]) then ParseFrom(lines[1..], stats)
    else if !LineOk(lines[0]) then LineFailure(lines[0])
    else ParseFrom(lines[1..], stats[KeyOf(lines[0]) := LineRecord(lines[0])])
  }

  /** The snapshot parsed from the text of /proc/schedstat: every key it
      holds begins with `cpu`. */
  function Parse(text: string): (r: ParseResult)
    ensures r.Parsed? ==> forall k :: k in r.stats ==> IsCpuLine(k)
  {
    var lines := Split(text, '\n');
    ParsedKeysBeginWithCpu(lines);
    ParseFrom(lines, map[])
  }

  /** parseProcSchedstat, step by step: each line in turn, each cpu line's
      numeric tokens into a fresh zeroed buffer, each record into the map. */
  method ParseProcSchedstat(text: string) returns (r: ParseResult)
    ensures r == Parse(text)
  {
    var lines := Split(text, '\n');
    var stats: Snapshot := map[];
    var n := 0;
    while n < |lines|
      invariant 0 <= n <= |lines|
      invariant ParseFrom(lines[n..], stats) == Parse(text)
    {
      var line := lines[n];
      assert lines[n..][1..] == lines[n + 1..];
      if IsCpuLine(line) {
        var fields := Fields(line);
        var key := fields[0];
        var tokens := fields[1..];
        var values := new nat[NumValues](_ => 0);
        assert values[..] == Zeros();
        var i := 0;
        while i < |tokens|
          invariant 0 <= i <= |tokens| && i <= NumValues
          invariant values.Length == NumValues
          invariant FillFrom(tokens, i, values[..]) == ValuesOf(tokens)
        {
          if i >= values.Length {
            return IndexOutOfRange(key);
          }
          var parsed := ParseNat(tokens[i]);
          if parsed.None? {
            return SyntaxError(tokens[i]);
          }
          values[i] := parsed.value;
          i := i + 1;
        }
        stats := stats[key := RecordOf(values[..])];
      }
      n := n + 1;
    }
    return Parsed(stats);
  }

  /** The key of a cpu line is its whole first token, such as "cpu0",
      including the `cpu` prefix. */
  lemma KeyIsFirstToken(line: string)
    requires IsCpuLine(line)
    ensures KeyOf(line) == line[..TokenLength(line)]
    ensures |KeyOf(line)| >= 3 && KeyOf(line)[..3] == "cpu"
  {
    FirstField(line);
  }

  /** Every key a parse from the empty map ends with is the key of a cpu
      line, so it begins with `cpu`. */
  lemma ParsedKeysBeginWithCpu(lines: seq<string>)
    ensures ParseFrom(lines, map[]).Parsed? ==>
      forall k :: k in ParseFrom(lines, map[]).stats ==> IsCpuLine(k)
  {
    if ParseFrom(lines, map[]).Parsed? {
      ParsedKeys(lines);
      forall k | k in ParseFrom(lines, map[]).stats ensures IsCpuLine(k) {
        var i :| KeyedAt(lines, i, k);
        KeyIsFirstToken(lines[i]);
      }
    }
  }

  /** The index of the first token from `i` on that is not a number, or
      the number of tokens when there is none. */
  function FirstNonDecimal(ts: seq<string>, i: nat): (j: nat)
    requires i <= |ts|
    ensures i <= j <= |ts|
    ensures forall k :: i <= k < j ==> IsDecimal(ts[k])
    ensures j < |ts| ==> !IsDecimal(ts[j])
    decreases |ts| - i
  {
    if i == |ts| || !IsDecimal(ts[i]) then i else FirstNonDecimal(ts, i + 1)
  }

  /** What buffer slot `k` holds once every token is stored: the k-th
      token's value, or 0 when the line has fewer tokens. */
  function Slot(ts: seq<string>, k: nat): nat
    requires k < |ts| ==> IsDecimal(ts[k])
  {
    if k < |ts| then DecimalValue(ts[k]) else 0
  }

  /** Reference reading of one line's numeric tokens, by position instead
      of by loop: the first malformed token among the first ten is an
      error; otherwise an eleventh token overruns the buffer; otherwise
      the slots hold the tokens' values, padded with zeros. */
  function ExpectedValues(ts: seq<string>): Values
  {
    var j := FirstNonDecimal(ts, 0);
    if j < |ts| && j < NumValues then BadToken(ts[j])
    else if |ts| > NumValues then TooManyTokens
    else Filled(seq(NumValues, k requires 0 <= k < NumValues => Slot(ts, k)))
  }

  lemma {:induction false} FillFromMatchesReference(ts: seq<string>, i: nat, v: seq<nat>)
    requires i <= |ts| && i <= NumValues && |v| == NumValues
    requires forall k :: 0 <= k < i ==> IsDecimal(ts[k]) && v[k] == DecimalValue(ts[k])
    requires forall k :: i <= k < NumValues ==> v[k] == 0
    ensures FillFrom(ts, i, v) == ExpectedValues(ts)
    decreases |ts| - i
  {
    var j := FirstNonDecimal(ts, 0);
    if i == |ts| {
      assert v == seq(NumValues, k requires 0 <= k < NumValues => Slot(ts, k));
    } else if i < NumValues && !IsDecimal(ts[i]) {
      assert j <= i;
    } else if i < NumValues {
      FillFromMatchesReference(ts, i + 1, v[i := DecimalValue(ts[i])]);
    }
  }

  /** Filling the buffer from a line's tokens agrees with the reference
      reading. */
  lemma ValuesOfMatchesReference(ts: seq<string>)
    ensures ValuesOf(ts) == ExpectedValues(ts)
  {
    FillFromMatchesReference(ts, 0, Zeros());
  }

  /** A cpu line is accepted exactly when it has at most ten numeric
      tokens, all of them decimal numbers. */
  lemma LineOkIff(line: string)
    requires IsCpuLine(line)
    ensures LineOk(line) <==>
      |NumericTokens(line)| <= NumValues &&
      forall k :: 0 <= k < |NumericTokens(line)| ==> IsDecimal(NumericTokens(line)[k])
  {
    var ts := NumericTokens(line);
    ValuesOfMatchesReference(ts);
    var j := FirstNonDecimal(ts, 0);
    if j < |ts| {
      assert !IsDecimal(ts[j]);
    }
  }

  /** The positional schema: slot 0 is the yield count, slot 1 is skipped,
      slots 2 to 8 are the remaining counters in order; a slot past the
      last token reads 0. */
  lemma FieldMapping(line: string)
    requires IsCpuLine(line)
    requires |NumericTokens(line)| <= NumValues
    requires forall k :: 0 <= k < |NumericTokens(line)| ==> IsDecimal(NumericTokens(line)[k])
    ensures LineOk(line)
    ensures var ts := NumericTokens(line);
      LineRecord(line) == Schedstat(
        yldCount := Slot(ts, 0),
        schedCount := Slot(ts, 2),
        schedGoidle := Slot(ts, 3),
        ttwuCount := Slot(ts, 4),
        ttwuLocal := Slot(ts, 5),
        cpuTime := Slot(ts, 6),
        runDelay := Slot(ts, 7),
        pcount := Slot(ts, 8))
  {
    LineOkIff(line);
    ValuesOfMatchesReference(NumericTokens(line));
  }

  /** The lines of `lines` that start with `cpu`, in order. */
  function CpuLines(lines: seq<string>): (cs: seq<string>)
    ensures forall i :: 0 <= i < |cs| ==> IsCpuLine(cs[i])
    decreases |lines|
  {
    if lines == [] then []
    else if IsCpuLine(lines[0]) then [lines[0]] + CpuLines(lines[1..])
    else CpuLines(lines[1..])
  }

  /** Lines that do not start with `cpu` have no effect on the outcome. */
  lemma {:induction false} ParseIgnoresOtherLines(lines: seq<string>, stats: Snapshot)
    ensures ParseFrom(lines, stats) == ParseFrom(CpuLines(lines), stats)
    decreases |lines|
  {
    if lines != [] && IsCpuLine(lines[0]) {
      var cs := CpuLines(lines);
      assert cs[0] == lines[0] && cs[1..] == CpuLines(lines[1..]);
      if LineOk(lines[0]) {
        ParseIgnoresOtherLines(lines[1..], stats[KeyOf(lines[0]) := LineRecord(lines[0])]);
      }
    } else if lines != [] {
      ParseIgnoresOtherLines(lines[1..], stats);
    }
  }

  /** A parse yields a snapshot exactly when every cpu line is well formed;
      otherwise there is no snapshot at all. */
  lemma {:induction false} ParseSucceedsIff(lines: seq<string>, stats: Snapshot)
    ensures ParseFrom(lines, stats).Parsed? <==>
      forall i :: 0 <= i < |lines| && IsCpuLine(lines[i]) ==> LineOk(lines[i])
    decreases |lines|
  {
    if lines != [] {
      var next := if IsCpuLine(lines[0]) && LineOk(lines[0])
        then stats[KeyOf(lines[0]) := LineRecord(lines[0])] else stats;
      ParseSucceedsIff(lines[1..], next);
      if forall i :: 0 <= i < |lines| - 1 && IsCpuLine(lines[1..][i]) ==> LineOk(lines[1..][i]) {
        forall i | 0 < i < |lines| && IsCpuLine(lines[i]) ensures LineOk(lines[i]) {
          assert lines[i] == lines[1..][i - 1];
        }
      } else {
        var i :| 0 <= i < |lines| - 1 && IsCpuLine(lines[1..][i]) && !LineOk(lines[1..][i]);
        assert lines[i + 1] == lines[1..][i];
      }
    }
  }

  /** The failure of a parse is the failure of its first malformed cpu line. */
  lemma {:induction false} ParseFailsAtFirstBadLine(lines: seq<string>, stats: Snapshot, i: nat)
    requires i < |lines| && IsCpuLine(lines[i]) && !LineOk(lines[i])
    requires forall j :: 0 <= j < i && IsCpuLine(lines[j]) ==> LineOk(lines[j])
    ensures ParseFrom(lines, stats) == LineFailure(lines[i])
    decreases i
  {
    if i > 0 {
      var next := if IsCpuLine(lines[0]) then stats[KeyOf(lines[0]) := LineRecord(lines[0])] else stats;
      forall j | 0 <= j < i - 1 && IsCpuLine(lines[1..][j]) ensures LineOk(lines[1..][j]) {
        assert lines[1..][j] == lines[j + 1];
      }
      ParseFailsAtFirstBadLine(lines[1..], next, i - 1);
    }
  }

  /** Line `i` is a cpu line with key `k`. */
  predicate KeyedAt(lines: seq<string>, i: int, k: string)
  {
    0 <= i < |lines| && IsCpuLine(lines[i]) && KeyOf(lines[i]) == k
  }

  /** Line `i` is the last cpu line with its key. */
  predicate LastOfKey(lines: seq<string>, i: int)
  {
    0 <= i < |lines| && IsCpuLine(lines[i]) &&
    forall j :: i < j < |lines| ==> !KeyedAt(lines, j, KeyOf(lines[i]))
  }

  /** A parsed snapshot has one entry per key of a cpu line (plus those it
      started with), and each key holds the record of the LAST line with
      that key. */
  lemma {:induction false} ParsedEntries(lines: seq<string>, stats: Snapshot)
    requires ParseFrom(lines, stats).Parsed?
    ensures var r := ParseFrom(lines, stats).stats;
      && (forall k :: k in r <==> k in stats || exists i :: KeyedAt(lines, i, k))
      && (forall i :: LastOfKey(lines, i) ==>
            LineOk(lines[i]) && KeyOf(lines[i]) in r && r[KeyOf(lines[i])] == LineRecord(lines[i]))
      && (forall k :: k in stats && (forall i :: !KeyedAt(lines, i, k)) ==> k in r && r[k] == stats[k])
    decreases |lines|
  {
    if lines != [] {
      var tail := lines[1..];
      var cpu := IsCpuLine(lines[0]);
      if cpu {
        assert LineOk(lines[0]);
      }
      var next := if cpu then stats[KeyOf(lines[0]) := LineRecord(lines[0])] else stats;
      assert ParseFrom(lines, stats) == ParseFrom(tail, next);
      ParsedEntries(tail, next);
      var r := ParseFrom(lines, stats).stats;
      forall k ensures k in r <==> k in stats || exists i :: KeyedAt(lines, i, k) {
        if cpu && k == KeyOf(lines[0]) {
          assert KeyedAt(lines, 0, k);
        }
        if exists i :: KeyedAt(lines, i, k) {
          var i :| KeyedAt(lines, i, k);
          if i > 0 {
            assert KeyedAt(tail, i - 1, k);
          }
        }
        if exists i :: KeyedAt(tail, i, k) {
          var i :| KeyedAt(tail, i, k);
          assert KeyedAt(lines, i + 1, k);
        }
      }
      forall i | LastOfKey(lines, i)
        ensures LineOk(lines[i]) && KeyOf(lines[i]) in r && r[KeyOf(lines[i])] == LineRecord(lines[i])
      {
        var k := KeyOf(lines[i]);
        if i == 0 {
          forall j ensures !KeyedAt(tail, j, k) {
            if KeyedAt(tail, j, k) {
              assert KeyedAt(lines, j + 1, k);
            }
          }
        } else {
          assert tail[i - 1] == lines[i];
          forall j | i - 1 < j < |tail| ensures !KeyedAt(tail, j, k) {
            assert !KeyedAt(lines, j + 1, k);
          }
          assert LastOfKey(tail, i - 1);
        }
      }
      forall k | k in stats && (forall i :: !KeyedAt(lines, i, k)) ensures k in r && r[k] == stats[k] {
        assert !KeyedAt(lines, 0, k);
        forall j ensures !KeyedAt(tail, j, k) {
          if KeyedAt(tail, j, k) {
            assert KeyedAt(lines, j + 1, k);
          }
        }
      }
    }
  }

  /** One cpu line as the kernel writes it: a key and its counters. */
  datatype CpuLine = CpuLine(key: string, counters: seq<nat>)

  /** A key that begins with `cpu` and holds no space, and no more counters
      than the buffer has slots. */
  predicate WellFormed(c: CpuLine)
  {
    IsToken(c.key) && |c.key| >= 3 && c.key[..3] == "cpu" && |c.counters| <= NumValues
  }

  function DecimalStrings(ns: seq<nat>): (ts: seq<string>)
    ensures |ts| == |ns|
  {
    seq(|ns|, i requires 0 <= i < |ns| => DecimalString(ns[i]))
  }

  /** The text of a cpu line: key and counters separated by single spaces. */
  function RenderLine(c: CpuLine): string
  {
    Join([c.key] + DecimalStrings(c.counters), ' ')
  }

  /** The lines of a whole file: one per entry, then the empty remainder
      after the final newline. */
  function RenderLines(cs: seq<CpuLine>): (lines: seq<string>)
    ensures |lines| == |cs| + 1 && lines[|cs|] == ""
    ensures forall i :: 0 <= i < |cs| ==> lines[i] == RenderLine(cs[i])
  {
    seq(|cs|, i requires 0 <= i < |cs| => RenderLine(cs[i])) + [""]
  }

  /** The text of a whole file: each entry's line ended by a newline. */
  function Render(cs: seq<CpuLine>): string
  {
    Join(RenderLines(cs), '\n')
  }

  /** The 10-slot buffer a line of counters fills: its counters in order,
      padded with zeros (any beyond the tenth are not kept). */
  function Padded(ns: seq<nat>): (v: seq<nat>)
    ensures |v| == NumValues
    ensures forall k :: 0 <= k < NumValues ==> v[k] == if k < |ns| then ns[k] else 0
  {
    seq(NumValues, k requires 0 <= k < NumValues => if k < |ns| then ns[k] else 0)
  }

  /** The record the positional schema assigns to a list of counters. */
  function RecordOfCounters(ns: seq<nat>): Schedstat
  {
    RecordOf(Padded(ns))
  }

  /** A rendered cpu line splits back into its key and counter tokens, and
      its record is the schema's reading of its counters. */
  lemma RenderedLine(c: CpuLine)
    requires WellFormed(c)
    ensures IsCpuLine(RenderLine(c)) && '\n' !in RenderLine(c)
    ensures KeyOf(RenderLine(c)) == c.key
    ensures LineOk(RenderLine(c)) && LineRecord(RenderLine(c)) == RecordOfCounters(c.counters)
  {
    var ts := [c.key] + DecimalStrings(c.counters);
    var line := RenderLine(c);
    forall i | 0 <= i < |ts| ensures IsToken(ts[i]) {
      if i > 0 {
        assert ts[i] == DecimalString(c.counters[i - 1]);
      }
    }
    FieldsOfJoin(ts);
    if |ts| > 1 {
      assert line == c.key + [' '] + Join(ts[1..], ' ');
    }
    assert line[..3] == c.key[..3];
    if '\n' in line {
      JoinChars(ts, ' ', '\n');
    }
    var nts := NumericTokens(line);
    assert nts == DecimalStrings(c.counters);
    forall k | 0 <= k < |nts| ensures Slot(nts, k) == c.counters[k] {
      ParseDecimalString(c.counters[k]);
    }
    FieldMapping(line);
  }

  /** A rendered file splits back into its lines, each a well-formed cpu
      line carrying its entry's key and record. */
  lemma SplitRender(cs: seq<CpuLine>)
    requires forall i :: 0 <= i < |cs| ==> WellFormed(cs[i])
    ensures Split(Render(cs), '\n') == RenderLines(cs)
    ensures forall i :: 0 <= i < |cs| ==>
      && IsCpuLine(RenderLines(cs)[i]) && KeyOf(RenderLines(cs)[i]) == cs[i].key
      && LineOk(RenderLines(cs)[i])
      && LineRecord(RenderLines(cs)[i]) == RecordOfCounters(cs[i].counters)
  {
    var lines := RenderLines(cs);
    forall i | 0 <= i < |lines| ensures '\n' !in lines[i] {
      if i < |cs| {
        RenderedLine(cs[i]);
      }
    }
    SplitJoin(lines, '\n');
    forall i | 0 <= i < |cs| ensures
      && IsCpuLine(lines[i]) && KeyOf(lines[i]) == cs[i].key
      && LineOk(lines[i]) && LineRecord(lines[i]) == RecordOfCounters(cs[i].counters)
    {
      RenderedLine(cs[i]);
    }
  }

  /** The keys a parse of `lines` ends with: those of its cpu lines. */
  lemma ParsedKeys(lines: seq<string>)
    requires ParseFrom(lines, map[]).Parsed?
    ensures forall k :: k in ParseFrom(lines, map[]).stats <==> exists i :: KeyedAt(lines, i, k)
  {
    ParsedEntries(lines, map[]);
  }

  /** The record a parse of `lines` holds under the key of a line that no
      later line repeats. */
  lemma ParsedRecord(lines: seq<string>, i: nat)
    requires ParseFrom(lines, map[]).Parsed? && LastOfKey(lines, i)
    ensures LineOk(lines[i]) && KeyOf(lines[i]) in ParseFrom(lines, map[]).stats
    ensures ParseFrom(lines, map[]).stats[KeyOf(lines[i])] == LineRecord(lines[i])
  {
    ParsedEntries(lines, map[]);
  }

  /** The first |cs| lines are cpu lines carrying the keys of `cs`, and the
      last line is empty. */
  predicate KeyedAs(cs: seq<CpuLine>, lines: seq<string>)
  {
    && |lines| == |cs| + 1 && lines[|cs|] == ""
    && forall i :: 0 <= i < |cs| ==> IsCpuLine(lines[i]) && KeyOf(lines[i]) == cs[i].key
  }

  lemma ParsedLinesSucceed(cs: seq<CpuLine>, lines: seq<string>)
    requires KeyedAs(cs, lines)
    requires forall i :: 0 <= i < |cs| ==> LineOk(lines[i])
    ensures ParseFrom(lines, map[]).Parsed?
  {
    ParseSucceedsIff(lines, map[]);
  }

  lemma ParsedLinesKeys(cs: seq<CpuLine>, lines: seq<string>)
    requires KeyedAs(cs, lines)
    requires ParseFrom(lines, map[]).Parsed?
    ensures forall k :: k in ParseFrom(lines, map[]).stats <==> exists i :: 0 <= i < |cs| && cs[i].key == k
  {
    var m := ParseFrom(lines, map[]).stats;
    ParsedKeys(lines);
    forall k | k in m ensures exists i :: 0 <= i < |cs| && cs[i].key == k {
      var i :| KeyedAt(lines, i, k);
      assert 0 <= i < |cs| && cs[i].key == k;
    }
    forall i | 0 <= i < |cs| ensures cs[i].key in m {
      assert KeyedAt(lines, i, cs[i].key);
    }
  }

  lemma ParsedLinesRecords(cs: seq<CpuLine>, lines: seq<string>)
    requires KeyedAs(cs, lines)
    requires forall i, j :: 0 <= i < j < |cs| ==> cs[i].key != cs[j].key
    requires ParseFrom(lines, map[]).Parsed?
    ensures forall i :: 0 <= i < |cs| ==>
      && LineOk(lines[i]) && cs[i].key in ParseFrom(lines, map[]).stats
      && ParseFrom(lines, map[]).stats[cs[i].key] == LineRecord(lines[i])
  {
    forall i | 0 <= i < |cs|
      ensures LineOk(lines[i]) && cs[i].key in ParseFrom(lines, map[]).stats
      ensures ParseFrom(lines, map[]).stats[cs[i].key] == LineRecord(lines[i])
    {
      assert LastOfKey(lines, i);
      ParsedRecord(lines, i);
    }
  }

  /** Parsing a rendered file with distinct keys succeeds and gives one
      entry per line, holding exactly that line's counters under the
      positional schema. */
  lemma ParseRendered(cs: seq<CpuLine>)
    requires forall i :: 0 <= i < |cs| ==> WellFormed(cs[i])
    requires forall i, j :: 0 <= i < j < |cs| ==> cs[i].key != cs[j].key
    ensures Parse(Render(cs)).Parsed?
    ensures var m := Parse(Render(cs)).stats;
      && (forall k :: k in m <==> exists i :: 0 <= i < |cs| && cs[i].key == k)
      && (forall i :: 0 <= i < |cs| ==> m[cs[i].key] == RecordOfCounters(cs[i].counters))
  {
    var lines := RenderLines(cs);
    SplitRender(cs);
    ParsedLinesSucceed(cs, lines);
    ParsedLinesKeys(cs, lines);
    ParsedLinesRecords(cs, lines);
  }

  /** A leading line that does not start with `cpu`, such as the kernel's
      `version` or `timestamp` header, leaves the outcome unchanged. */
  lemma ParseSkipsHeaderLine(header: string, rest: string)
    requires '\n' !in header && !IsCpuLine(header)
    ensures Parse(header + ['\n'] + rest) == Parse(rest)
  {
    SplitAfterPart(header, '\n', rest);
    var lines := Split(rest, '\n');
    assert ([header] + lines)[1..] == lines;
  }
}
