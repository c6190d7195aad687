/** The delta step of the probe: the current snapshot's run-delay and
    cpu-time counters become the change since the previous snapshot. */
module Differ {
  import opened Text
  import opened Parser

  /** One record after the delta step: the two reported counters are
      reduced by their earlier values, without clamping at zero. */
  function Subtract(cur: Schedstat, prev: Schedstat): (r: Schedstat)
    ensures r.runDelay + prev.runDelay == cur.runDelay && r.cpuTime + prev.cpuTime == cur.cpuTime
    ensures r.(runDelay := cur.runDelay, cpuTime := cur.cpuTime) == cur
  {
    cur.(runDelay := cur.runDelay - prev.runDelay, cpuTime := cur.cpuTime - prev.cpuTime)
  }

  /** The current snapshot once every key of the previous one has been
      diffed; keys found only in the current snapshot keep raw values. */
  function Delta(prev: Snapshot, cur: Snapshot): (r: Snapshot)
    requires prev.Keys <= cur.Keys
    ensures r.Keys == cur.Keys
    ensures forall k :: k in cur ==>
      r[k].(runDelay := cur[k].runDelay, cpuTime := cur[k].cpuTime) == cur[k]
  {
    map k | k in cur :: if k in prev then Subtract(cur[k], prev[k]) else cur[k]
  }

  /** The loop over the previous snapshot's keys, one key at a time in no
      particular order, updating the entry of the current snapshot. */
  method SubtractPrevious(prev: Snapshot, cur: Snapshot) returns (next: Snapshot)
    requires prev.Keys <= cur.Keys
    ensures next.Keys == cur.Keys
    ensures forall k :: k in prev ==>
      && next[k].runDelay == cur[k].runDelay - prev[k].runDelay
      && next[k].cpuTime == cur[k].cpuTime - prev[k].cpuTime
    ensures forall k :: k in cur ==>
      next[k] == cur[k].(runDelay := next[k].runDelay, cpuTime := next[k].cpuTime)
    ensures forall k :: k in cur && k !in prev ==> next[k] == cur[k]
    ensures next == Delta(prev, cur)
  {
    next := cur;
    var todo := prev.Keys;
    while todo != {}
      invariant todo <= prev.Keys
      invariant next.Keys == cur.Keys
      invariant forall k :: k in cur ==>
        next[k] == if k in prev && k !in todo then Subtract(cur[k], prev[k]) else cur[k]
      decreases todo
    {
      var k :| k in todo;
      next := next[k := Subtract(next[k], prev[k])];
      todo := todo - {k};
    }
  }

  /** Undoes the delta step: adds the previous counters back. */
  function Restore(prev: Snapshot, delta: Snapshot): Snapshot
    requires prev.Keys <= delta.Keys
  {
    map k | k in delta ::
      if k in prev
      then delta[k].(runDelay := delta[k].runDelay + prev[k].runDelay,
                     cpuTime := delta[k].cpuTime + prev[k].cpuTime)
      else delta[k]
  }

  /** Nothing is lost by the delta step: the current snapshot can be
      recovered from the previous one and the result. */
  lemma RestoreDelta(prev: Snapshot, cur: Snapshot)
    requires prev.Keys <= cur.Keys
    ensures Restore(prev, Delta(prev, cur)) == cur
  {
  }

  /** A snapshot diffed against itself reports zero for both counters and
      keeps the other six. */
  lemma DeltaOfItselfIsZero(s: Snapshot)
    ensures Delta(s, s).Keys == s.Keys
    ensures forall k :: k in s ==>
      Delta(s, s)[k] == s[k].(runDelay := 0, cpuTime := 0)
  {
  }

  /** A counter that grew by `d` over the window is reported as `d`. */
  lemma DeltaOfGrowth(prev: Snapshot, cur: Snapshot, k: string, d: int, e: int)
    requires prev.Keys <= cur.Keys && k in prev
    requires cur[k].runDelay == prev[k].runDelay + d
    requires cur[k].cpuTime == prev[k].cpuTime + e
    ensures Delta(prev, cur)[k].runDelay == d && Delta(prev, cur)[k].cpuTime == e
  {
  }

  /** Nothing clamps a delta at zero: a reported counter is negative
      exactly when it went backwards over the window (a reset). */
  lemma DeltaIsNotClamped(prev: Snapshot, cur: Snapshot, k: string)
    requires prev.Keys <= cur.Keys && k in prev
    ensures Delta(prev, cur)[k].runDelay < 0 <==> cur[k].runDelay < prev[k].runDelay
    ensures Delta(prev, cur)[k].cpuTime < 0 <==> cur[k].cpuTime < prev[k].cpuTime
  {
  }

  /** Two parses can be diffed when every cpu key of the first text is also
      the key of some cpu line of the second. */
  lemma DiffDefinedWhenCpusPersist(before: string, after: string)
    requires Parse(before).Parsed? && Parse(after).Parsed?
    requires forall i, k :: KeyedAt(Split(before, '\n'), i, k) ==>
      exists j :: KeyedAt(Split(after, '\n'), j, k)
    ensures Parse(before).stats.Keys <= Parse(after).stats.Keys
  {
    ParsedEntries(Split(before, '\n'), map[]);
    ParsedEntries(Split(after, '\n'), map[]);
  }

  /** The rendered lines of two CPUs parse to exactly those two keys with
      their counters. */
  lemma TwoCpuParse(a: seq<nat>, b: seq<nat>)
    requires |a| <= NumValues && |b| <= NumValues
    ensures var text := Render([CpuLine("cpu0", a), CpuLine("cpu1", b)]);
      && Parse(text).Parsed?
      && Parse(text).stats.Keys == {"cpu0", "cpu1"}
      && Parse(text).stats["cpu0"] == RecordOfCounters(a)
      && Parse(text).stats["cpu1"] == RecordOfCounters(b)
  {
    var cs := [CpuLine("cpu0", a), CpuLine("cpu1", b)];
    assert "cpu0"[..3] == "cpu" && "cpu1"[..3] == "cpu";
    assert IsToken("cpu0") && IsToken("cpu1");
    ParseRendered(cs);
    var m := Parse(Render(cs)).stats;
    assert cs[0].key == "cpu0" && cs[1].key == "cpu1";
    forall k ensures k in m <==> k in {"cpu0", "cpu1"} {
      if k in m {
        var i :| 0 <= i < |cs| && cs[i].key == k;
        assert i == 0 || i == 1;
      } else {
        assert k != cs[0].key && k != cs[1].key;
      }
    }
  }

  /** Two CPUs behind a `version` line, parsed and diffed against the same
      reading: the `version` line adds nothing, both keys keep their `cpu`
      prefix, each record holds its line's counters, and both reported
      counters of both CPUs are zero. */
  lemma TwoCpuExample(a: seq<nat>, b: seq<nat>)
    requires |a| <= NumValues && |b| <= NumValues
    ensures var text := "version 15\n" + Render([CpuLine("cpu0", a), CpuLine("cpu1", b)]);
      && Parse(text).Parsed?
      && Parse(text).stats.Keys == {"cpu0", "cpu1"}
      && Parse(text).stats["cpu0"] == RecordOfCounters(a)
      && Parse(text).stats["cpu1"] == RecordOfCounters(b)
      && Delta(Parse(text).stats, Parse(text).stats)["cpu0"].runDelay == 0
      && Delta(Parse(text).stats, Parse(text).stats)["cpu0"].cpuTime == 0
      && Delta(Parse(text).stats, Parse(text).stats)["cpu1"].runDelay == 0
      && Delta(Parse(text).stats, Parse(text).stats)["cpu1"].cpuTime == 0
  {
    var body := Render([CpuLine("cpu0", a), CpuLine("cpu1", b)]);
    var version := "version 15";
    assert version + ['\n'] + body == "version 15\n" + body;
    assert version[..3] == "ver";
    ParseSkipsHeaderLine(version, body);
    TwoCpuParse(a, b);
    DeltaOfItselfIsZero(Parse(body).stats);
  }
}
