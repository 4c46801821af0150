/**
 * The C5 counter page: one named counter of type `EVENT` or `USAGE`, its
 * overall values and a table with one row per trunk.  The overall values
 * go under `<base>_<counter name in lower case>`, the trunk rows under
 * `..._trunk` with the trunk's name as the `name` label.
 */
module C5Counter {
  import opened Wrappers
  import opened GoStrings
  import opened Strconv
  import opened Counters
  import opened Store
  import opened Publish
  import opened Decoded

  /** The fields of the counter response the exporter reads. */
  datatype C5CounterResponse = C5CounterResponse(
    counterName: string, counterType: string,
    absoluteValue: U64, currentValue: U64, lastValue: U64,
    lastMinValue: U64, lastMaxValue: U64, lastAvgValue: U64,
    tableValues: seq<Line>)

  /** The prefix of every metric of the counter. */
  function CounterPrefix(basePrefix: string, data: C5CounterResponse): string
  {
    basePrefix + "_" + ToLower(data.counterName)
  }

  /**
   * The overall writes: `_current`, then `_total` and `_last` for an
   * `EVENT` counter, or `_lastavg`, `_lastmin` and `_lastmax` for any other
   * type.
   */
  function HeadWrites(prefix: string, data: C5CounterResponse): seq<Write>
  {
    [Write(prefix + "_current", data.currentValue)]
    + if data.counterType == "EVENT" then
        [Write(prefix + "_total", data.absoluteValue), Write(prefix + "_last", data.lastValue)]
      else
        [Write(prefix + "_lastavg", data.lastAvgValue), Write(prefix + "_lastmin", data.lastMinValue),
         Write(prefix + "_lastmax", data.lastMaxValue)]
  }

  /**
   * What one table element publishes: only strings count, the header row
   * (starting with `name`) is skipped, and a row is read, behind an id
   * `0`, as a usage or an event counter by the counter's type.
   */
  function RowEffect(prefix: string, counterType: string, line: Line): (e: Effect)
    ensures !line.Text? ==> e == NOTHING
    ensures line.Text? && HasPrefix(line.text, "name") ==> e == NOTHING
    ensures counterType != "USAGE" && counterType != "EVENT" ==> e == NOTHING
    ensures e.halt.Some? ==> e.writes == []
  {
    match line
    case Text(l) =>
      if HasPrefix(l, "name") then NOTHING
      else if counterType == "USAGE" then
        match ParseUsageCounter("0 " + l)
        case Ok(c) => Effect(LabeledUsageWrites(prefix + "_trunk", "name", c), None)
        case Halted(h) => Effect([], Some(h))
      else if counterType == "EVENT" then
        match ParseEventCounter("0 " + l)
        case Ok(c) => Effect(LabeledCounterWrites(prefix + "_trunk", "name", c), None)
        case Halted(h) => Effect([], Some(h))
      else NOTHING
    case _ => NOTHING
  }

  /** What the table publishes; the first halt ends it. */
  function TableEffect(prefix: string, counterType: string, rows: seq<Line>): Effect
    decreases |rows|
  {
    if rows == [] then NOTHING
    else Then(RowEffect(prefix, counterType, rows[0]), TableEffect(prefix, counterType, rows[1..]))
  }

  /** `processC5CounterMetrics`: the overall writes, then the table. */
  function CounterMetricsEffect(basePrefix: string, data: C5CounterResponse): Effect
  {
    var prefix := CounterPrefix(basePrefix, data);
    Then(Effect(HeadWrites(prefix, data), None), TableEffect(prefix, data.counterType, data.tableValues))
  }

  /** The table from row `i` on: row `i` first, then the rest. */
  lemma TableNext(prefix: string, counterType: string, rows: seq<Line>, i: nat)
    requires i < |rows|
    ensures TableEffect(prefix, counterType, rows[i..])
            == Then(RowEffect(prefix, counterType, rows[i]), TableEffect(prefix, counterType, rows[i + 1..]))
  {
    assert rows[i..][0] == rows[i];
    assert rows[i..][1..] == rows[i + 1..];
  }

  /** `processC5CounterMetrics` on one table element. */
  method ProcessRow(store: MetricSet, prefix: string, counterType: string, line: Line) returns (halt: Option<Halt>)
    modifies store
    ensures store.values == Apply(old(store.values), RowEffect(prefix, counterType, line).writes)
    ensures halt == RowEffect(prefix, counterType, line).halt
  {
    if !line.Text? || HasPrefix(line.text, "name") {
      return None;
    }
    var l := line.text;
    if counterType == "USAGE" {
      var c := ParseUsageCounter("0 " + l);
      if c.Halted? {
        return Some(c.halt);
      }
      SetLabeledUsageMetric(store, prefix + "_trunk", "name", c.value);
    } else if counterType == "EVENT" {
      var c := ParseEventCounter("0 " + l);
      if c.Halted? {
        return Some(c.halt);
      }
      SetLabeledCounterMetric(store, prefix + "_trunk", "name", c.value);
    }
    return None;
  }

  /** `processC5CounterMetrics`. */
  method ProcessC5CounterMetrics(store: MetricSet, basePrefix: string, data: C5CounterResponse) returns (halt: Option<Halt>)
    modifies store
    ensures store.values == Apply(old(store.values), CounterMetricsEffect(basePrefix, data).writes)
    ensures halt == CounterMetricsEffect(basePrefix, data).halt
  {
    var prefix := basePrefix + "_" + ToLower(data.counterName);
    store.Set(prefix + "_current", data.currentValue);
    if data.counterType == "EVENT" {
      store.Set(prefix + "_total", data.absoluteValue);
      store.Set(prefix + "_last", data.lastValue);
    } else {
      store.Set(prefix + "_lastavg", data.lastAvgValue);
      store.Set(prefix + "_lastmin", data.lastMinValue);
      store.Set(prefix + "_lastmax", data.lastMaxValue);
    }
    ghost var done := HeadWrites(prefix, data);
    HeadApplied(old(store.values), prefix, data);
    var rows := data.tableValues;
    assert rows[0..] == rows;
    for i := 0 to |rows|
      invariant store.values == Apply(old(store.values), done)
      invariant Then(Effect(done, None), TableEffect(prefix, data.counterType, rows[i..]))
                == CounterMetricsEffect(basePrefix, data)
    {
      ghost var e := RowEffect(prefix, data.counterType, rows[i]);
      TableNext(prefix, data.counterType, rows, i);
      ThenStep(done, e, TableEffect(prefix, data.counterType, rows[i + 1..]));
      halt := ProcessRow(store, prefix, data.counterType, rows[i]);
      ApplyAppend(old(store.values), done, e.writes);
      done := done + e.writes;
      if halt.Some? {
        return;
      }
    }
    assert rows[|rows|..] == [];
    assert done + [] == done;
    halt := None;
  }

  /** The overall writes, applied one after the other. */
  lemma HeadApplied(m: map<string, U64>, prefix: string, data: C5CounterResponse)
    ensures data.counterType == "EVENT" ==>
              Apply(m, HeadWrites(prefix, data))
              == m[prefix + "_current" := data.currentValue][prefix + "_total" := data.absoluteValue]
                  [prefix + "_last" := data.lastValue]
    ensures data.counterType != "EVENT" ==>
              Apply(m, HeadWrites(prefix, data))
              == m[prefix + "_current" := data.currentValue][prefix + "_lastavg" := data.lastAvgValue]
                  [prefix + "_lastmin" := data.lastMinValue][prefix + "_lastmax" := data.lastMaxValue]
  {
    var ws := HeadWrites(prefix, data);
    var m1 := m[ws[0].name := ws[0].value];
    var m2 := m1[ws[1].name := ws[1].value];
    if data.counterType == "EVENT" {
      assert |ws| == 3 && ws[1..][1..] == ws[2..] && ws[2..][1..] == [];
      calc {
        Apply(m, ws);
        Apply(m1, ws[1..]);
        Apply(m2, ws[2..]);
        Apply(m2[ws[2].name := ws[2].value], []);
      }
    } else {
      var m3 := m2[ws[2].name := ws[2].value];
      assert |ws| == 4 && ws[1..][1..] == ws[2..] && ws[2..][1..] == ws[3..] && ws[3..][1..] == [];
      calc {
        Apply(m, ws);
        Apply(m1, ws[1..]);
        Apply(m2, ws[2..]);
        Apply(m3, ws[3..]);
        Apply(m3[ws[3].name := ws[3].value], []);
      }
    }
  }

  // ----- Properties

  /**
   * After the overall writes, `_current` holds the current value; an
   * `EVENT` counter shows its absolute value as `_total` and its last value
   * as `_last`, any other counter its last average, minimum and maximum.
   */
  lemma HeadReadBack(m: map<string, U64>, prefix: string, data: C5CounterResponse)
    ensures var s := Apply(m, HeadWrites(prefix, data));
            prefix + "_current" in s && s[prefix + "_current"] == data.currentValue
    ensures var s := Apply(m, HeadWrites(prefix, data));
            data.counterType == "EVENT" ==>
              && prefix + "_total" in s && s[prefix + "_total"] == data.absoluteValue
              && prefix + "_last" in s && s[prefix + "_last"] == data.lastValue
    ensures var s := Apply(m, HeadWrites(prefix, data));
            data.counterType != "EVENT" ==>
              && prefix + "_lastavg" in s && s[prefix + "_lastavg"] == data.lastAvgValue
              && prefix + "_lastmin" in s && s[prefix + "_lastmin"] == data.lastMinValue
              && prefix + "_lastmax" in s && s[prefix + "_lastmax"] == data.lastMaxValue
  {
    HeadApplied(m, prefix, data);
    if data.counterType == "EVENT" {
      SuffixedApart(prefix, "_current", "_total", 1);
      SuffixedApart(prefix, "_current", "_last", 1);
      SuffixedApart(prefix, "_total", "_last", 1);
    } else {
      SuffixedApart(prefix, "_current", "_lastavg", 1);
      SuffixedApart(prefix, "_current", "_lastmin", 1);
      SuffixedApart(prefix, "_current", "_lastmax", 1);
      SuffixedApart(prefix, "_lastavg", "_lastmin", 5);
      SuffixedApart(prefix, "_lastavg", "_lastmax", 5);
      SuffixedApart(prefix, "_lastmin", "_lastmax", 6);
    }
  }

  /** A counter of a type other than `USAGE` or `EVENT` publishes its overall values and no table row. */
  lemma {:induction false} OtherTypeNoTable(prefix: string, counterType: string, rows: seq<Line>)
    requires counterType != "USAGE" && counterType != "EVENT"
    ensures TableEffect(prefix, counterType, rows) == NOTHING
    decreases |rows|
  {
    if rows != [] {
      OtherTypeNoTable(prefix, counterType, rows[1..]);
    }
  }

  /** A table of header rows only publishes nothing. */
  lemma {:induction false} HeaderRowsOnly(prefix: string, counterType: string, rows: seq<Line>)
    requires forall i | 0 <= i < |rows| :: rows[i].Text? && HasPrefix(rows[i].text, "name")
    ensures TableEffect(prefix, counterType, rows) == NOTHING
    decreases |rows|
  {
    if rows != [] {
      assert forall i | 0 <= i < |rows[1..]| :: rows[1..][i] == rows[i + 1];
      HeaderRowsOnly(prefix, counterType, rows[1..]);
    }
  }

  /** A row behind an id cell and a blank is the row of that id. */
  lemma IdRow(id: string, trunk: string, ns: seq<nat>)
    ensures id + " " + Join([trunk] + Decimals(ns), " ") == Join([id, trunk] + Decimals(ns), " ")
  {
    JoinCons(id, [trunk] + Decimals(ns), " ");
    assert [id] + ([trunk] + Decimals(ns)) == [id, trunk] + Decimals(ns);
  }

  /**
   * A usage trunk row `trunk current min max lastMin lastMax lastAvg` reads,
   * behind the id `0`, as a usage counter named after the trunk.
   */
  lemma TrunkUsageRow(trunk: string, ns: seq<nat>)
    requires IsCounterName(trunk)
    requires UsageFiguresFit(ns)
    ensures ParseUsageCounter("0 " + Join([trunk] + Decimals(ns), " "))
            == Ok(UsageCounter("0", trunk, None, ns[0], ns[3], ns[5], ns[4]))
  {
    IdRowUsage("0 ", "0", trunk, ns);
  }

  lemma IdRowUsage(lead: string, id: string, trunk: string, ns: seq<nat>)
    requires lead == id + " " && IsCell(id) && IsCounterName(trunk)
    requires UsageFiguresFit(ns)
    ensures ParseUsageCounter(lead + Join([trunk] + Decimals(ns), " "))
            == Ok(UsageCounter(id, trunk, None, ns[0], ns[3], ns[5], ns[4]))
  {
    IdRow(id, trunk, ns);
    ParseUsageCounterRow(id, trunk, ns);
  }

  /**
   * An event trunk row `trunk absolute current last` reads, behind the id
   * `0`, as an event counter named after the trunk with the absolute value
   * as total.
   */
  lemma TrunkEventRow(trunk: string, ns: seq<nat>)
    requires IsCounterName(trunk)
    requires |ns| == 3 && ns[0] < TWO_62
    ensures ParseEventCounter("0 " + Join([trunk] + Decimals(ns), " "))
            == Ok(EventCounter("0", trunk, None, ns[0]))
  {
    IdRowEvent("0 ", "0", trunk, ns);
  }

  lemma IdRowEvent(lead: string, id: string, trunk: string, ns: seq<nat>)
    requires lead == id + " " && IsCell(id) && IsCounterName(trunk)
    requires |ns| == 3 && ns[0] < TWO_62
    ensures ParseEventCounter(lead + Join([trunk] + Decimals(ns), " "))
            == Ok(EventCounter(id, trunk, None, ns[0]))
  {
    IdRow(id, trunk, ns);
    ParseEventCounterRow(id, trunk, ns);
  }

  /** `fetchC5CounterMetrics` after the request: a failure clears the prefix, a decoded page is published. */
  method FetchC5CounterMetrics(store: MetricSet, prefix: string, resp: Fetch<C5CounterResponse>) returns (halt: Option<Halt>)
    modifies store
    ensures !resp.Fetched? ==> store.values == WithoutPrefix(old(store.values), prefix) && halt == None
    ensures resp.Fetched? ==>
              && store.values == Apply(old(store.values), CounterMetricsEffect(prefix, resp.body).writes)
              && halt == CounterMetricsEffect(prefix, resp.body).halt
  {
    if !resp.Fetched? {
      store.ClearPrefix(prefix);
      return None;
    }
    halt := ProcessC5CounterMetrics(store, prefix, resp.body);
  }
}
