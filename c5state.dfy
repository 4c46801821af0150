/**
 * The C5 state page: base metrics (build info, process and queue state,
 * memory) and the counter list, a mixed list of header lines, table rows
 * and groups of rows.  `processC5StateCounter` walks the list with a mode
 * (unset, event or usage) that only header lines change, and publishes
 * every row or group by the current mode.
 */
module C5State {
  import opened Wrappers
  import opened GoStrings
  import opened Scalars
  import opened Naming
  import opened Counters
  import opened Store
  import opened Publish
  import opened Decoded

  // ----- The counter list

  /** Which kind of table the walk is in: no header seen yet, event counters or usage counters. */
  datatype Mode = Unset | EventMode | UsageMode

  /** A text line that announces a table. */
  predicate IsHeader(l: string)
  {
    Contains(l, "Event counters") || Contains(l, "Usage counters")
  }

  /**
   * The mode after an element: a header line sets it, `Event counters`
   * being tested first; every other element keeps it.
   */
  function NextMode(mode: Mode, line: Line): (r: Mode)
    ensures r != mode ==> line.Text? && IsHeader(line.text)
    ensures line.Text? && Contains(line.text, "Event counters") ==> r == EventMode
    ensures line.Text? && !Contains(line.text, "Event counters") && Contains(line.text, "Usage counters") ==> r == UsageMode
  {
    match line
    case Text(l) =>
      if Contains(l, "Event counters") then EventMode
      else if Contains(l, "Usage counters") then UsageMode
      else mode
    case _ => mode
  }

  /** A parse result turned into what publishing it does: its writes, or the halt before any write. */
  function Publishing<T>(r: Result<T>, writes: T -> seq<Write>): (e: Effect)
    ensures e.halt.Some? ==> e.writes == []
  {
    match r
    case Ok(v) => Effect(writes(v), None)
    case Halted(h) => Effect([], Some(h))
  }

  /**
   * What one element of the list publishes in a mode.  Header lines and
   * lines indented by four spaces publish nothing; a row or a group is
   * read as a usage or an event counter by the mode, and ignored while no
   * header has been seen.
   */
  function LineEffect(prefix: string, mode: Mode, line: Line): (e: Effect)
    ensures mode == Unset ==> e == NOTHING
    ensures line.Other? ==> e == NOTHING
    ensures line.Text? && (IsHeader(line.text) || HasPrefix(line.text, "    ")) ==> e == NOTHING
    ensures e.halt.Some? ==> e.writes == []
  {
    match line
    case Other => NOTHING
    case Group(rows) =>
      if mode == UsageMode then Publishing(SubUsageCounters(rows), cs => AllUsageWrites(prefix, cs))
      else if mode == EventMode then Publishing(SubEventCounters(rows), cs => AllCounterWrites(prefix, cs))
      else NOTHING
    case Text(l) =>
      if IsHeader(l) || HasPrefix(l, "    ") then NOTHING
      else if mode == UsageMode then Publishing(ParseUsageCounter(l), c => UsageWrites(prefix, c))
      else if mode == EventMode then Publishing(ParseEventCounter(l), c => CounterWrites(prefix, c))
      else NOTHING
  }

  /** What the walk publishes over `lines`, starting in `mode`; the first halt ends it. */
  function StateCounterEffect(prefix: string, mode: Mode, lines: seq<Line>): Effect
    decreases |lines|
  {
    if lines == [] then NOTHING
    else Then(LineEffect(prefix, mode, lines[0]), StateCounterEffect(prefix, NextMode(mode, lines[0]), lines[1..]))
  }

  /** The walk from element `i` on: element `i` first, then the rest in the mode it leaves. */
  lemma StateCounterNext(prefix: string, mode: Mode, lines: seq<Line>, i: nat)
    requires i < |lines|
    ensures StateCounterEffect(prefix, mode, lines[i..])
            == Then(LineEffect(prefix, mode, lines[i]), StateCounterEffect(prefix, NextMode(mode, lines[i]), lines[i + 1..]))
  {
    assert lines[i..][0] == lines[i];
    assert lines[i..][1..] == lines[i + 1..];
  }

  /** `processC5StateCounter` on one element: publish it as the mode says. */
  method ProcessLine(store: MetricSet, prefix: string, mode: Mode, line: Line) returns (halt: Option<Halt>)
    modifies store
    ensures store.values == Apply(old(store.values), LineEffect(prefix, mode, line).writes)
    ensures halt == LineEffect(prefix, mode, line).halt
  {
    match line
    case Other =>
      return None;
    case Group(rows) =>
      if mode == UsageMode {
        var cnts := ParseSubUsageCounter(rows);
        if cnts.Halted? {
          return Some(cnts.halt);
        }
        SetUsageMetrics(store, prefix, cnts.value);
      } else if mode == EventMode {
        var cnts := ParseSubEventCounter(rows);
        if cnts.Halted? {
          return Some(cnts.halt);
        }
        SetCounterMetrics(store, prefix, cnts.value);
      }
      return None;
    case Text(l) =>
      if IsHeader(l) || HasPrefix(l, "    ") {
        return None;
      }
      if mode == UsageMode {
        var c := ParseUsageCounter(l);
        if c.Halted? {
          return Some(c.halt);
        }
        SetUsageMetric(store, prefix, c.value);
      } else if mode == EventMode {
        var c := ParseEventCounter(l);
        if c.Halted? {
          return Some(c.halt);
        }
        SetCounterMetric(store, prefix, c.value);
      }
      return None;
  }

  /**
   * `processC5StateCounter`: walk the list from an unset mode, let header
   * lines set the mode and publish every other element by it.  A halt
   * stops the walk.
   */
  method ProcessC5StateCounter(store: MetricSet, prefix: string, lines: seq<Line>) returns (halt: Option<Halt>)
    modifies store
    ensures store.values == Apply(old(store.values), StateCounterEffect(prefix, Unset, lines).writes)
    ensures halt == StateCounterEffect(prefix, Unset, lines).halt
  {
    var mode := Unset;
    ghost var done: seq<Write> := [];
    assert lines[0..] == lines;
    for i := 0 to |lines|
      invariant store.values == Apply(old(store.values), done)
      invariant Then(Effect(done, None), StateCounterEffect(prefix, mode, lines[i..])) == StateCounterEffect(prefix, Unset, lines)
    {
      ghost var e := LineEffect(prefix, mode, lines[i]);
      StateCounterNext(prefix, mode, lines, i);
      ThenStep(done, e, StateCounterEffect(prefix, NextMode(mode, lines[i]), lines[i + 1..]));
      halt := ProcessLine(store, prefix, mode, lines[i]);
      ApplyAppend(old(store.values), done, e.writes);
      done := done + e.writes;
      if halt.Some? {
        return;
      }
      mode := NextMode(mode, lines[i]);
    }
    assert lines[|lines|..] == [];
    assert done + [] == done;
    halt := None;
  }

  // ----- Properties of the walk

  /** No element is a header line. */
  predicate NoHeader(lines: seq<Line>)
  {
    forall i | 0 <= i < |lines| :: !(lines[i].Text? && IsHeader(lines[i].text))
  }

  /** Before the first header the mode stays unset, so nothing is published and nothing halts. */
  lemma {:induction false} BeforeFirstHeader(prefix: string, lines: seq<Line>)
    requires NoHeader(lines)
    ensures StateCounterEffect(prefix, Unset, lines) == NOTHING
    decreases |lines|
  {
    if lines != [] {
      assert NextMode(Unset, lines[0]) == Unset;
      assert NoHeader(lines[1..]) by {
        forall i | 0 <= i < |lines[1..]| ensures !(lines[1..][i].Text? && IsHeader(lines[1..][i].text)) {
          assert lines[1..][i] == lines[i + 1];
        }
      }
      BeforeFirstHeader(prefix, lines[1..]);
    }
  }

  /**
   * After a usage header, a row reads as a usage counter and publishes its
   * four values; a row too short to read publishes four zeros under
   * `<prefix>__current` and its siblings.
   */
  lemma UsageRowEffect(prefix: string, l: string)
    requires !IsHeader(l) && !HasPrefix(l, "    ")
    ensures ParseUsageCounter(l).Ok? ==>
              LineEffect(prefix, UsageMode, Text(l)) == Effect(UsageWrites(prefix, ParseUsageCounter(l).value), None)
    ensures ParseUsageCounter(l).Halted? ==> LineEffect(prefix, UsageMode, Text(l)) == Effect([], Some(ParseUsageCounter(l).halt))
    ensures |Fields(l)| < 8 && prefix != "" ==>
              LineEffect(prefix, UsageMode, Text(l))
              == Effect([Write(ToLower(prefix + "__current"), 0), Write(ToLower(prefix + "__lastmin"), 0),
                         Write(ToLower(prefix + "__lastavg"), 0), Write(ToLower(prefix + "__lastmax"), 0)], None)
  {
    if prefix != "" {
      ZeroUsageNames(prefix);
    }
  }

  /** After an event header, a row reads as an event counter and publishes its total. */
  lemma EventRowEffect(prefix: string, l: string)
    requires !IsHeader(l) && !HasPrefix(l, "    ")
    ensures ParseEventCounter(l).Ok? ==>
              LineEffect(prefix, EventMode, Text(l)) == Effect(CounterWrites(prefix, ParseEventCounter(l).value), None)
    ensures ParseEventCounter(l).Halted? ==> LineEffect(prefix, EventMode, Text(l)) == Effect([], Some(ParseEventCounter(l).halt))
  {
  }

  /**
   * A usage header, one usage row and one indented line: exactly the row's
   * counter is published, under its four names.
   */
  lemma UsageTableExample(prefix: string, header: string, row: string, indented: string)
    requires Contains(header, "Usage counters") && !Contains(header, "Event counters")
    requires !IsHeader(row) && !HasPrefix(row, "    ") && ParseUsageCounter(row).Ok?
    requires !IsHeader(indented) && HasPrefix(indented, "    ")
    ensures StateCounterEffect(prefix, Unset, [Text(header), Text(row), Text(indented)])
            == Effect(UsageWrites(prefix, ParseUsageCounter(row).value), None)
  {
    var lines := [Text(header), Text(row), Text(indented)];
    var c := ParseUsageCounter(row).value;
    assert lines[1..] == [Text(row), Text(indented)];
    assert lines[1..][1..] == [Text(indented)];
    assert lines[1..][1..][1..] == [];
    assert StateCounterEffect(prefix, UsageMode, [Text(indented)]) == NOTHING;
    UsageRowEffect(prefix, row);
    assert UsageWrites(prefix, c) + [] == UsageWrites(prefix, c);
    assert StateCounterEffect(prefix, UsageMode, lines[1..]) == Effect(UsageWrites(prefix, c), None);
    assert NextMode(Unset, Text(header)) == UsageMode;
  }

  // ----- Base metrics

  /** The fields of the state response the exporter reads. */
  datatype C5StateResponse = C5StateResponse(
    proxyState: string, queueState: string, registrarState: string,
    notificationServerState: string, cstaState: string,
    buildVersion: string, buildVersionOld: string,
    startupTime: string, startupTimeOld: string,
    memoryUsage: string, tuQueueStatus: string,
    counterInfos: seq<Line>)

  /** The build version, from the misspelt `buildVersion:` field when the proper one yields nothing. */
  function Version(state: C5StateResponse): (v: string)
    ensures ParseBuildString(state.buildVersion) != "" ==> v == ParseBuildString(state.buildVersion)
    ensures ParseBuildString(state.buildVersion) == "" ==> v == ParseBuildString(state.buildVersionOld)
  {
    var v := ParseBuildString(state.buildVersion);
    if v == "" then ParseBuildString(state.buildVersionOld) else v
  }

  /** The startup time, from the misspelt `startupTime:` field when the proper one is empty. */
  function StartupTime(state: C5StateResponse): (t: string)
    ensures state.startupTime != "" ==> t == state.startupTime
    ensures state.startupTime == "" ==> t == state.startupTimeOld
  {
    if state.startupTime == "" then state.startupTimeOld else state.startupTime
  }

  /** The candidates `parseProcessStateString` is given, in order. */
  function States(state: C5StateResponse): seq<string>
  {
    [state.proxyState, state.queueState, state.registrarState, state.notificationServerState, state.cstaState]
  }

  /** The info metric's name: version and start time as labels. */
  function InfoName(prefix: string, state: C5StateResponse): string
  {
    prefix + "_info{version=\"" + Version(state) + "\",starttime=\"" + StartupTime(state) + "\"}"
  }

  /** The three writes of `processBaseMetrics` made before the memory line is read. */
  function StatusWrites(prefix: string, state: C5StateResponse): seq<Write>
  {
    [Write(InfoName(prefix, state), 1),
     Write(prefix + "_state", ParseProcessState(States(state))),
     Write(prefix + "_tu_queue_state", ParseQueueState(state.tuQueueStatus))]
  }

  /** The three memory writes. */
  function MemoryWrites(prefix: string, mu: MemoryUsage): seq<Write>
  {
    [Write(prefix + "_memory_used_bytes", mu.used),
     Write(prefix + "_memory_total_bytes", mu.total),
     Write(prefix + "_memory_max_used_percent", mu.maxPercent)]
  }

  /** `processBaseMetrics`: status writes, then the memory writes unless reading the memory line stops the process. */
  function BaseMetricsEffect(prefix: string, state: C5StateResponse): Effect
  {
    match MemoryOf(state.memoryUsage)
    case Ok(mu) => Effect(StatusWrites(prefix, state) + MemoryWrites(prefix, mu), None)
    case Halted(h) => Effect(StatusWrites(prefix, state), Some(h))
  }

  /** `processBaseMetrics`. */
  method ProcessBaseMetrics(store: MetricSet, prefix: string, state: C5StateResponse) returns (halt: Option<Halt>)
    modifies store
    ensures store.values == Apply(old(store.values), BaseMetricsEffect(prefix, state).writes)
    ensures halt == BaseMetricsEffect(prefix, state).halt
  {
    var version := ParseBuildString(state.buildVersion);
    if version == "" {
      version := ParseBuildString(state.buildVersionOld);
    }
    var startupTime := state.startupTime;
    if startupTime == "" {
      startupTime := state.startupTimeOld;
    }
    store.Set(prefix + "_info{version=\"" + version + "\",starttime=\"" + startupTime + "\"}", 1);
    store.Set(prefix + "_state", ParseProcessState(States(state)));
    store.Set(prefix + "_tu_queue_state", ParseQueueState(state.tuQueueStatus));
    ghost var status := store.values;
    ApplyThree(old(store.values), StatusWrites(prefix, state));
    var mem := ParseMemoryString(state.memoryUsage);
    if mem.Halted? {
      return Some(mem.halt);
    }
    store.Set(prefix + "_memory_used_bytes", mem.value.used);
    store.Set(prefix + "_memory_total_bytes", mem.value.total);
    store.Set(prefix + "_memory_max_used_percent", mem.value.maxPercent);
    ApplyThree(status, MemoryWrites(prefix, mem.value));
    ApplyAppend(old(store.values), StatusWrites(prefix, state), MemoryWrites(prefix, mem.value));
    return None;
  }

  /** Three writes applied one after the other. */
  lemma ApplyThree(m: map<string, U64>, ws: seq<Write>)
    requires |ws| == 3
    ensures Apply(m, ws) == m[ws[0].name := ws[0].value][ws[1].name := ws[1].value][ws[2].name := ws[2].value]
  {
    var m1 := m[ws[0].name := ws[0].value];
    var m2 := m1[ws[1].name := ws[1].value];
    assert ws[1..][1..] == ws[2..] && ws[2..][1..] == [];
    calc {
      Apply(m, ws);
      Apply(m1, ws[1..]);
      Apply(m2, ws[2..]);
      Apply(m2[ws[2].name := ws[2].value], []);
    }
  }

  /** The six base metric names are pairwise different. */
  lemma BaseNamesDistinct(prefix: string, state: C5StateResponse, mu: MemoryUsage)
    ensures var ws := StatusWrites(prefix, state) + MemoryWrites(prefix, mu);
            forall i, j | 0 <= i < j < 6 :: ws[i].name != ws[j].name
  {
    var info := "_info{version=\"" + Version(state) + "\",starttime=\"" + StartupTime(state) + "\"}";
    assert InfoName(prefix, state) == prefix + info;
    assert info[1] == 'i';
    BaseSuffixesApart(prefix, info, StatusWrites(prefix, state) + MemoryWrites(prefix, mu));
  }

  /** Writes under `prefix` plus the info suffix and the five fixed suffixes, in that order, go to six different names. */
  lemma BaseSuffixesApart(prefix: string, info: string, ws: seq<Write>)
    requires |info| > 1 && info[1] == 'i' && |ws| == 6
    requires ws[0].name == prefix + info && ws[1].name == prefix + "_state" && ws[2].name == prefix + "_tu_queue_state"
    requires ws[3].name == prefix + "_memory_used_bytes" && ws[4].name == prefix + "_memory_total_bytes"
    requires ws[5].name == prefix + "_memory_max_used_percent"
    ensures forall i, j | 0 <= i < j < 6 :: ws[i].name != ws[j].name
  {
    // position 1 tells info, state, tu_queue_state and the memory names apart; position 8 the memory names
    SuffixedApart(prefix, info, "_state", 1);
    SuffixedApart(prefix, info, "_tu_queue_state", 1);
    SuffixedApart(prefix, info, "_memory_used_bytes", 1);
    SuffixedApart(prefix, info, "_memory_total_bytes", 1);
    SuffixedApart(prefix, info, "_memory_max_used_percent", 1);
    SuffixedApart(prefix, "_state", "_tu_queue_state", 1);
    SuffixedApart(prefix, "_state", "_memory_used_bytes", 1);
    SuffixedApart(prefix, "_state", "_memory_total_bytes", 1);
    SuffixedApart(prefix, "_state", "_memory_max_used_percent", 1);
    SuffixedApart(prefix, "_tu_queue_state", "_memory_used_bytes", 1);
    SuffixedApart(prefix, "_tu_queue_state", "_memory_total_bytes", 1);
    SuffixedApart(prefix, "_tu_queue_state", "_memory_max_used_percent", 1);
    SuffixedApart(prefix, "_memory_used_bytes", "_memory_total_bytes", 8);
    SuffixedApart(prefix, "_memory_used_bytes", "_memory_max_used_percent", 8);
    SuffixedApart(prefix, "_memory_total_bytes", "_memory_max_used_percent", 8);
  }

  /**
   * After `processBaseMetrics` reads the memory line, the store shows the
   * info metric as 1, the process state, the queue state and the three
   * memory figures.
   */
  lemma BaseMetricsReadBack(m: map<string, U64>, prefix: string, state: C5StateResponse)
    requires MemoryOf(state.memoryUsage).Ok?
    ensures var s := Apply(m, BaseMetricsEffect(prefix, state).writes);
            var mu := MemoryOf(state.memoryUsage).value;
            && InfoName(prefix, state) in s && s[InfoName(prefix, state)] == 1
            && prefix + "_state" in s && s[prefix + "_state"] == ParseProcessState(States(state))
            && prefix + "_tu_queue_state" in s && s[prefix + "_tu_queue_state"] == ParseQueueState(state.tuQueueStatus)
            && prefix + "_memory_used_bytes" in s && s[prefix + "_memory_used_bytes"] == mu.used
            && prefix + "_memory_total_bytes" in s && s[prefix + "_memory_total_bytes"] == mu.total
            && prefix + "_memory_max_used_percent" in s && s[prefix + "_memory_max_used_percent"] == mu.maxPercent
  {
    var mu := MemoryOf(state.memoryUsage).value;
    var ws := StatusWrites(prefix, state) + MemoryWrites(prefix, mu);
    BaseNamesDistinct(prefix, state, mu);
    ApplyDistinct(m, ws);
    assert ws[0].name == InfoName(prefix, state) && ws[1].name == prefix + "_state";
    assert ws[2].name == prefix + "_tu_queue_state" && ws[3].name == prefix + "_memory_used_bytes";
    assert ws[4].name == prefix + "_memory_total_bytes" && ws[5].name == prefix + "_memory_max_used_percent";
  }

  // ----- Fetching the state page

  /** A decoded state page: base metrics, then the counter list. */
  function C5StateEffect(prefix: string, state: C5StateResponse): Effect
  {
    Then(BaseMetricsEffect(prefix, state), StateCounterEffect(prefix, Unset, state.counterInfos))
  }

  /**
   * `fetchC5StateMetrics` after the request: a failed connection or an
   * undecodable body clears every metric under the prefix; a decoded page
   * is published.
   */
  method FetchC5StateMetrics(store: MetricSet, prefix: string, resp: Fetch<C5StateResponse>) returns (halt: Option<Halt>)
    modifies store
    ensures !resp.Fetched? ==> store.values == WithoutPrefix(old(store.values), prefix) && halt == None
    ensures resp.Fetched? ==>
              && store.values == Apply(old(store.values), C5StateEffect(prefix, resp.body).writes)
              && halt == C5StateEffect(prefix, resp.body).halt
  {
    if !resp.Fetched? {
      store.ClearPrefix(prefix);
      return None;
    }
    halt := ProcessBaseMetrics(store, prefix, resp.body);
    if halt.Some? {
      return;
    }
    halt := ProcessC5StateCounter(store, prefix, resp.body.counterInfos);
    ApplyAppend(old(store.values), BaseMetricsEffect(prefix, resp.body).writes,
                StateCounterEffect(prefix, Unset, resp.body.counterInfos).writes);
  }
}
