/**
 * The service-provider counters: a JSON object whose `clusterInfo` member
 * names the data centre and component group, and whose
 * `spCounterTable… serviceProviderName: <sp>…` members hold a table of
 * text rows, one usage counter per row.  Each counter is handed on to a
 * usage publisher together with the attributes `dc`, `cmpGrp` and `sp`.
 */
module ServiceProvider {
  import opened Wrappers
  import opened GoStrings
  import opened Strconv
  import opened Scalars
  import opened Naming
  import opened Counters

  /** The usage counter record as the service-provider rows fill it, with all seven figures of a row. */
  datatype SpCounter = SpCounter(
    id: string, name: string,
    current: U64, min: U64, max: U64, lastMin: U64, lastMax: U64, lastAvg: U64, total: U64)

  /** The zero record. */
  const ZERO_SP: SpCounter := SpCounter("", "", 0, 0, 0, 0, 0, 0, 0)

  // ----- Rows

  /** Every field read with `parseUint64` in order; the first malformed one stops the process. */
  function ParseUints(fs: seq<string>): (r: Result<seq<U64>>)
    ensures r.Ok? <==> forall k | 0 <= k < |fs| :: ParseUint64(fs[k]).Ok?
    ensures r.Ok? ==> |r.value| == |fs| && forall k | 0 <= k < |fs| :: ParseUint64(fs[k]) == Ok(r.value[k])
    ensures r.Halted? ==>
              exists k | 0 <= k < |fs| ::
                && ParseUint64(fs[k]) == Halted(r.halt)
                && forall j | 0 <= j < k :: ParseUint64(fs[j]).Ok?
    decreases |fs|
  {
    if fs == [] then Ok([])
    else
      match ParseUint64(fs[0])
      case Halted(h) => Halted(h)
      case Ok(v) =>
        match ParseUints(fs[1..])
        case Halted(h) =>
          assert forall k | 1 <= k < |fs| :: fs[k] == fs[1..][k - 1];
          Halted(h)
        case Ok(vs) =>
          assert forall k | 1 <= k < |fs| :: fs[k] == fs[1..][k - 1];
          Ok([v] + vs)
  }

  /**
   * `parseServiceProviderCounter`: fewer than 8 fields give the zero
   * record; otherwise the id is `"0"` (the provider passed in is not used),
   * the name is field 0 normalised, and fields 1 to 7 are current, min,
   * max, last min, last max, last average and total, read in that order
   * with the first malformed one stopping the process.
   */
  function ParseServiceProviderCounter(line: string, id: string): (r: Result<SpCounter>)
    ensures |Fields(line)| < 8 ==> r == Ok(ZERO_SP)
    ensures |Fields(line)| >= 8 ==> (r.Ok? <==> forall k | 1 <= k < 8 :: ParseUint64(Fields(line)[k]).Ok?)
    ensures var parts := Fields(line);
            |parts| >= 8 && r.Ok? ==>
              && r.value.id == "0" && r.value.name == NormalizeMetricName(parts[0])
              && ParseUint64(parts[1]) == Ok(r.value.current)
              && ParseUint64(parts[2]) == Ok(r.value.min)
              && ParseUint64(parts[3]) == Ok(r.value.max)
              && ParseUint64(parts[4]) == Ok(r.value.lastMin)
              && ParseUint64(parts[5]) == Ok(r.value.lastMax)
              && ParseUint64(parts[6]) == Ok(r.value.lastAvg)
              && ParseUint64(parts[7]) == Ok(r.value.total)
    ensures var parts := Fields(line);
            r.Halted? ==>
              exists k | 1 <= k < 8 ::
                && ParseUint64(parts[k]) == Halted(r.halt)
                && forall j | 1 <= j < k :: ParseUint64(parts[j]).Ok?
  {
    var parts := Fields(line);
    if |parts| < 8 then Ok(ZERO_SP)
    else
      var fs := parts[1..8];
      assert forall k | 1 <= k < 8 :: parts[k] == fs[k - 1];
      match ParseUints(fs)
      case Halted(h) => Halted(h)
      case Ok(v) => Ok(SpCounter("0", NormalizeMetricName(parts[0]), v[0], v[1], v[2], v[3], v[4], v[5], v[6]))
  }

  /** Fields that all read back give exactly their values. */
  lemma ParseUintsOk(fs: seq<string>, vs: seq<U64>)
    requires |fs| == |vs| && forall k | 0 <= k < |fs| :: ParseUint64(fs[k]) == Ok(vs[k])
    ensures ParseUints(fs) == Ok(vs)
  {
    var r := ParseUints(fs);
    assert r.Ok?;
    assert forall k | 0 <= k < |fs| :: r.value[k] == vs[k];
    assert r.value == vs;
  }

  /** The cells of a service-provider row written with single spaces are read back by `strings.Fields`. */
  lemma SpRowFields(name: string, ns: seq<nat>)
    requires IsCell(name)
    ensures Fields(Join([name] + Decimals(ns), " ")) == [name] + Decimals(ns)
  {
    DecimalCells(ns);
    var ws := [name] + Decimals(ns);
    forall k | 0 <= k < |ws| ensures ws[k] != [] && NoSpace(ws[k]) {
      if k >= 1 { assert ws[k] == Decimals(ns)[k - 1]; }
    }
    FieldsJoin(ws);
  }

  /** A row `name current min max lastMin lastMax lastAvg total` reads back as the counter it describes. */
  lemma ParseServiceProviderRow(name: string, ns: seq<nat>, sp: string)
    requires IsCounterName(name)
    requires |ns| == 7 && forall k | 0 <= k < 7 :: ns[k] < TWO_62
    ensures ParseServiceProviderCounter(Join([name] + Decimals(ns), " "), sp)
            == Ok(SpCounter("0", name, ns[0], ns[1], ns[2], ns[3], ns[4], ns[5], ns[6]))
  {
    var ws := [name] + Decimals(ns);
    SpRowFields(name, ns);
    NormalizeCounterName(name);
    var vs: seq<U64> := ns;
    forall k | 0 <= k < 7 ensures ParseUint64(ws[1..8][k]) == Ok(vs[k]) {
      ParseUint64Decimal(ns[k]);
    }
    ParseUintsOk(ws[1..8], vs);
  }

  // ----- The provider name in a table's key

  /** The text in front of the provider name in a table's key. */
  const SP_MARKER: string := "serviceProviderName: "

  /** The longest start of `s` without a double quote. */
  function UpToQuote(s: string): (r: string)
    ensures |r| <= |s| && r == s[..|r|]
    ensures '"' !in r
    ensures |r| < |s| ==> s[|r|] == '"'
  {
    if s == [] || s[0] == '"' then [] else [s[0]] + UpToQuote(s[1..])
  }

  /**
   * The first submatch of `<marker>([^"]+)`: the marker at the leftmost
   * place where at least one character other than a double quote follows
   * it, and then every character up to the next double quote.
   */
  function SubmatchAfter(marker: string, key: string): (r: Option<string>)
    ensures r.Some? ==> r.value != [] && '"' !in r.value
    decreases |key|
  {
    if |key| <= |marker| then None
    else if key[..|marker|] == marker && key[|marker|] != '"' then Some(UpToQuote(key[|marker|..]))
    else SubmatchAfter(marker, key[1..])
  }

  /** The provider named by a table's key, as `serviceProviderName: ([^"]+)` finds it. */
  function ProviderName(key: string): Option<string> {
    SubmatchAfter(SP_MARKER, key)
  }

  /** `name` is written in `key` at `i` right after the marker, and ends at a double quote or at the end of the key. */
  predicate FoundAt(marker: string, key: string, i: nat, name: string) {
    var j := i + |marker|;
    && j + |name| <= |key|
    && key[i..j] == marker
    && key[j..j + |name|] == name
    && (j + |name| == |key| || key[j + |name|] == '"')
  }

  /** The name found is written in the key right after the marker. */
  lemma {:induction false} SubmatchInKey(marker: string, key: string)
    requires SubmatchAfter(marker, key).Some?
    ensures exists i: nat :: FoundAt(marker, key, i, SubmatchAfter(marker, key).value)
    decreases |key|
  {
    var n := |marker|;
    if key[..n] == marker && key[n] != '"' {
      FoundAtStart(marker, key);
    } else {
      SubmatchInKey(marker, key[1..]);
      var i: nat :| FoundAt(marker, key[1..], i, SubmatchAfter(marker, key[1..]).value);
      FoundAtShift(marker, key, i, SubmatchAfter(marker, key).value);
    }
  }

  lemma FoundAtStart(marker: string, key: string)
    requires |key| > |marker| && key[..|marker|] == marker && key[|marker|] != '"'
    ensures FoundAt(marker, key, 0, UpToQuote(key[|marker|..]))
  {
    var n := |marker|;
    var name := UpToQuote(key[n..]);
    assert key[0..n] == marker;
    assert key[n..n + |name|] == name;
  }

  lemma FoundAtShift(marker: string, key: string, i: nat, name: string)
    requires key != [] && FoundAt(marker, key[1..], i, name)
    ensures FoundAt(marker, key, i + 1, name)
  {
    var n := |marker|;
    var tail := key[1..];
    assert key[i + 1..i + 1 + n] == tail[i..i + n];
    assert key[i + 1 + n..i + 1 + n + |name|] == tail[i + n..i + n + |name|];
  }

  /** A key that starts with the marker gives back the name written after it. */
  lemma SubmatchOf(marker: string, name: string, rest: string)
    requires name != [] && '"' !in name
    requires rest == [] || rest[0] == '"'
    ensures SubmatchAfter(marker, marker + name + rest) == Some(name)
  {
    var key := marker + name + rest;
    var n := |marker|;
    assert key[..n] == marker;
    assert key[n] == name[0];
    assert key[n..] == name + rest;
    UpToQuoteOf(name, rest);
  }

  /** A provider found in a key is written there right after `serviceProviderName: `. */
  lemma ProviderNameInKey(key: string)
    requires ProviderName(key).Some?
    ensures ProviderName(key).value != [] && '"' !in ProviderName(key).value
    ensures exists i: nat :: FoundAt(SP_MARKER, key, i, ProviderName(key).value)
  {
    SubmatchInKey(SP_MARKER, key);
  }

  /** A key `serviceProviderName: <sp>` gives back `sp`. */
  lemma ProviderNameOf(sp: string, rest: string)
    requires sp != [] && '"' !in sp
    requires rest == [] || rest[0] == '"'
    ensures ProviderName(SP_MARKER + sp + rest) == Some(sp)
  {
    SubmatchOf(SP_MARKER, sp, rest);
  }

  lemma {:induction false} UpToQuoteOf(name: string, rest: string)
    requires '"' !in name
    requires rest == [] || rest[0] == '"'
    ensures UpToQuote(name + rest) == name
    decreases |name|
  {
    if name == [] {
      assert name + rest == rest;
    } else {
      assert (name + rest)[1..] == name[1..] + rest;
      UpToQuoteOf(name[1..], rest);
    }
  }

  // ----- The JSON object

  /** A decoded JSON value, as far as the walk looks at it. */
  datatype Json = JNull | JString(s: string) | JArray(items: seq<Json>) | JOther

  /** A metric attribute handed to the publisher. */
  datatype MetricAttribute = MetricAttribute(key: string, value: string)

  /** One call of the usage publisher: the prefix, the counter and its attributes. */
  datatype UsageCall = UsageCall(prefix: string, counter: SpCounter, attrs: seq<MetricAttribute>)

  /** The calls made, and the halt that ended the walk, if any. */
  datatype Outcome = Outcome(calls: seq<UsageCall>, halt: Option<Halt>)

  const NO_CALLS: Outcome := Outcome([], None)

  /** The runtime panic of a failed type assertion. */
  const BAD_TYPE: Halt := Panic("interface conversion")

  /** `a` and then `b`, unless `a` stopped the process. */
  function AndThen(a: Outcome, b: Outcome): (r: Outcome)
    ensures a.halt.Some? ==> r == a
    ensures a.halt.None? ==> r.calls == a.calls + b.calls && r.halt == b.halt
  {
    if a.halt.Some? then a else Outcome(a.calls + b.calls, b.halt)
  }

  /** The calls `done` so far, followed by one step and the rest. */
  lemma AndThenStep(done: seq<UsageCall>, e: Outcome, rest: Outcome)
    ensures e.halt.None? ==> AndThen(Outcome(done, None), AndThen(e, rest)) == AndThen(Outcome(done + e.calls, None), rest)
    ensures e.halt.Some? ==> AndThen(Outcome(done, None), AndThen(e, rest)) == Outcome(done + e.calls, e.halt)
  {
    assert done + (e.calls + rest.calls) == done + e.calls + rest.calls;
  }

  /**
   * One element of a table: a row starting with `name` is the header and
   * is skipped, any other row is parsed and published; an element that is
   * not a string panics.
   */
  function RowOutcome(prefix: string, attrs: seq<MetricAttribute>, sp: string, item: Json): (r: Outcome)
    ensures |r.calls| <= 1 && (r.halt.Some? ==> r.calls == [])
  {
    match item
    case JString(line) =>
      if HasPrefix(line, "name") then NO_CALLS
      else (
        match ParseServiceProviderCounter(line, sp)
        case Halted(h) => Outcome([], Some(h))
        case Ok(c) => Outcome([UsageCall(prefix, c, attrs)], None))
    case _ => Outcome([], Some(BAD_TYPE))
  }

  /** The elements of a table, in order. */
  function RowsOutcome(prefix: string, attrs: seq<MetricAttribute>, sp: string, items: seq<Json>): Outcome
    decreases |items|
  {
    if items == [] then NO_CALLS
    else AndThen(RowOutcome(prefix, attrs, sp, items[0]), RowsOutcome(prefix, attrs, sp, items[1..]))
  }

  /**
   * One member of the object: only a `spCounterTable…` key naming a
   * provider counts; its value must be an array, and its rows are
   * published with the attribute `sp` added.
   */
  function EntryOutcome(prefix: string, attrs: seq<MetricAttribute>, key: string, value: Json): Outcome
  {
    if !HasPrefix(key, "spCounterTable") then NO_CALLS
    else
      match ProviderName(key)
      case None => NO_CALLS
      case Some(sp) =>
        match value
        case JArray(items) => RowsOutcome(prefix, attrs + [MetricAttribute("sp", sp)], sp, items)
        case _ => Outcome([], Some(BAD_TYPE))
  }

  /** The members of the object, in the order the map iteration visits them. */
  function EntriesOutcome(prefix: string, attrs: seq<MetricAttribute>, entries: seq<(string, Json)>): Outcome
    decreases |entries|
  {
    if entries == [] then NO_CALLS
    else AndThen(EntryOutcome(prefix, attrs, entries[0].0, entries[0].1), EntriesOutcome(prefix, attrs, entries[1..]))
  }

  /** The value under `key`, or `None` when the object has no such member. */
  function Lookup(entries: seq<(string, Json)>, key: string): (r: Option<Json>)
    ensures r.Some? <==> exists i | 0 <= i < |entries| :: entries[i].0 == key
    ensures r.Some? ==> exists i | 0 <= i < |entries| :: entries[i] == (key, r.value)
    decreases |entries|
  {
    if entries == [] then None
    else if entries[0].0 == key then Some(entries[0].1)
    else
      var r := Lookup(entries[1..], key);
      assert forall i | 1 <= i < |entries| :: entries[i] == entries[1..][i - 1];
      r
  }

  /** The outcome of the request: no connection, a body that cannot be read or decoded, or the decoded object. */
  datatype SpResponse =
    | SpNoResponse
    | SpUnreadable
    | SpUndecodable
    | SpDecoded(entries: seq<(string, Json)>)

  /**
   * `fetchServiceProviderCounters` after the request.  `parseClusterInfo`
   * turns the `clusterInfo` text into the data centre and the component
   * group.
   */
  function FetchOutcome(prefix: string, parseClusterInfo: string -> (string, string), resp: SpResponse): Outcome
  {
    match resp
    case SpNoResponse => NO_CALLS
    case SpUnreadable => Outcome([], Some(LogFatal("read error")))
    case SpUndecodable => Outcome([], Some(LogFatal("decode error")))
    case SpDecoded(entries) =>
      match Lookup(entries, "clusterInfo")
      case None => NO_CALLS
      case Some(JNull) => NO_CALLS
      case Some(JString(info)) =>
        var (dc, cmpGrp) := parseClusterInfo(info);
        EntriesOutcome(prefix, [MetricAttribute("dc", dc), MetricAttribute("cmpGrp", cmpGrp)], entries)
      case Some(_) => Outcome([], Some(BAD_TYPE))
  }

  // ----- The walk, step by step

  lemma RowsOutcomeNext(prefix: string, attrs: seq<MetricAttribute>, sp: string, items: seq<Json>, i: nat)
    requires i < |items|
    ensures RowsOutcome(prefix, attrs, sp, items[i..])
            == AndThen(RowOutcome(prefix, attrs, sp, items[i]), RowsOutcome(prefix, attrs, sp, items[i + 1..]))
  {
    assert items[i..][1..] == items[i + 1..];
  }

  lemma EntriesOutcomeNext(prefix: string, attrs: seq<MetricAttribute>, entries: seq<(string, Json)>, i: nat)
    requires i < |entries|
    ensures EntriesOutcome(prefix, attrs, entries[i..])
            == AndThen(EntryOutcome(prefix, attrs, entries[i].0, entries[i].1), EntriesOutcome(prefix, attrs, entries[i + 1..]))
  {
    assert entries[i..][1..] == entries[i + 1..];
  }

  /** The rows of one table. */
  method PublishTable(prefix: string, attrs: seq<MetricAttribute>, sp: string, items: seq<Json>)
    returns (calls: seq<UsageCall>, halt: Option<Halt>)
    ensures Outcome(calls, halt) == RowsOutcome(prefix, attrs, sp, items)
  {
    calls := [];
    for i := 0 to |items|
      invariant AndThen(Outcome(calls, None), RowsOutcome(prefix, attrs, sp, items[i..])) == RowsOutcome(prefix, attrs, sp, items)
    {
      ghost var e := RowOutcome(prefix, attrs, sp, items[i]);
      RowsOutcomeNext(prefix, attrs, sp, items, i);
      AndThenStep(calls, e, RowsOutcome(prefix, attrs, sp, items[i + 1..]));
      if !items[i].JString? {
        return calls, Some(BAD_TYPE);
      }
      var line := items[i].s;
      if !HasPrefix(line, "name") {
        var ctr := ParseServiceProviderCounter(line, sp);
        if ctr.Halted? {
          return calls, Some(ctr.halt);
        }
        calls := calls + [UsageCall(prefix, ctr.value, attrs)];
      }
    }
    assert items[|items|..] == [];
    halt := None;
  }

  /** The body of the loop over the members: one member. */
  method PublishEntry(prefix: string, attrs: seq<MetricAttribute>, key: string, value: Json)
    returns (calls: seq<UsageCall>, halt: Option<Halt>)
    ensures Outcome(calls, halt) == EntryOutcome(prefix, attrs, key, value)
  {
    if !HasPrefix(key, "spCounterTable") {
      return [], None;
    }
    var matches := ProviderName(key);
    if matches.None? {
      return [], None;
    }
    var serviceProvider := matches.value;
    if !value.JArray? {
      return [], Some(BAD_TYPE);
    }
    calls, halt := PublishTable(prefix, attrs + [MetricAttribute("sp", serviceProvider)], serviceProvider, value.items);
  }

  /** The members of the object, in iteration order. */
  method PublishEntries(prefix: string, attrs: seq<MetricAttribute>, entries: seq<(string, Json)>)
    returns (calls: seq<UsageCall>, halt: Option<Halt>)
    ensures Outcome(calls, halt) == EntriesOutcome(prefix, attrs, entries)
  {
    calls := [];
    for i := 0 to |entries|
      invariant AndThen(Outcome(calls, None), EntriesOutcome(prefix, attrs, entries[i..])) == EntriesOutcome(prefix, attrs, entries)
    {
      var (key, value) := entries[i];
      EntriesOutcomeNext(prefix, attrs, entries, i);
      var entryCalls, entryHalt := PublishEntry(prefix, attrs, key, value);
      AndThenStep(calls, Outcome(entryCalls, entryHalt), EntriesOutcome(prefix, attrs, entries[i + 1..]));
      calls := calls + entryCalls;
      if entryHalt.Some? {
        return calls, entryHalt;
      }
    }
    assert entries[|entries|..] == [];
    halt := None;
  }

  /** `fetchServiceProviderCounters`. */
  method FetchServiceProviderCounters(prefix: string, parseClusterInfo: string -> (string, string), resp: SpResponse)
    returns (calls: seq<UsageCall>, halt: Option<Halt>)
    ensures Outcome(calls, halt) == FetchOutcome(prefix, parseClusterInfo, resp)
  {
    match resp
    case SpNoResponse =>
      return [], None;
    case SpUnreadable =>
      return [], Some(LogFatal("read error"));
    case SpUndecodable =>
      return [], Some(LogFatal("decode error"));
    case SpDecoded(entries) =>
      var clusterInfo := Lookup(entries, "clusterInfo");
      if clusterInfo.None? || clusterInfo.value.JNull? {
        return [], None;
      }
      if !clusterInfo.value.JString? {
        return [], Some(BAD_TYPE);
      }
      var (dc, cmpGrp) := parseClusterInfo(clusterInfo.value.s);
      var attrs := [MetricAttribute("dc", dc), MetricAttribute("cmpGrp", cmpGrp)];
      calls, halt := PublishEntries(prefix, attrs, entries);
  }

  // ----- Properties of the walk

  /** A string element that is a header row. */
  predicate IsHeaderRow(item: Json) {
    item.JString? && HasPrefix(item.s, "name")
  }

  /** The data rows of a table: its string elements that are not header rows. */
  function DataRows(items: seq<Json>): nat
    decreases |items|
  {
    if items == [] then 0 else (if items[0].JString? && !IsHeaderRow(items[0]) then 1 else 0) + DataRows(items[1..])
  }

  /**
   * A table that does not stop the process makes one call per data row,
   * every call under the given prefix and attributes, with the id `"0"`.
   */
  lemma {:induction false} TableCalls(prefix: string, attrs: seq<MetricAttribute>, sp: string, items: seq<Json>)
    ensures var r := RowsOutcome(prefix, attrs, sp, items);
            r.halt.None? ==> |r.calls| == DataRows(items)
    ensures forall c | c in RowsOutcome(prefix, attrs, sp, items).calls ::
              c.prefix == prefix && c.attrs == attrs && c.counter.id in {"0", ""}
    decreases |items|
  {
    if items != [] {
      TableCalls(prefix, attrs, sp, items[1..]);
      var e := RowOutcome(prefix, attrs, sp, items[0]);
      if items[0].JString? && !IsHeaderRow(items[0]) && e.halt.None? {
        assert |e.calls| == 1;
      }
    }
  }

  /** A table holding only header rows makes no call and does not stop the process. */
  lemma {:induction false} HeaderRowsOnly(prefix: string, attrs: seq<MetricAttribute>, sp: string, items: seq<Json>)
    requires forall k | 0 <= k < |items| :: IsHeaderRow(items[k])
    ensures RowsOutcome(prefix, attrs, sp, items) == NO_CALLS
    decreases |items|
  {
    if items != [] {
      HeaderRowsOnly(prefix, attrs, sp, items[1..]);
    }
  }

  /**
   * Every call of a decoded object carries exactly the attributes `dc`,
   * `cmpGrp` and `sp`, in that order, the first two from the cluster info.
   */
  lemma {:induction false} EntriesAttributes(prefix: string, dc: string, cmpGrp: string, entries: seq<(string, Json)>)
    ensures forall c | c in EntriesOutcome(prefix, [MetricAttribute("dc", dc), MetricAttribute("cmpGrp", cmpGrp)], entries).calls ::
              && c.prefix == prefix
              && |c.attrs| == 3
              && c.attrs[0] == MetricAttribute("dc", dc) && c.attrs[1] == MetricAttribute("cmpGrp", cmpGrp)
              && c.attrs[2].key == "sp" && c.attrs[2].value != []
    decreases |entries|
  {
    var attrs := [MetricAttribute("dc", dc), MetricAttribute("cmpGrp", cmpGrp)];
    if entries != [] {
      EntriesAttributes(prefix, dc, cmpGrp, entries[1..]);
      var key := entries[0].0;
      if HasPrefix(key, "spCounterTable") && ProviderName(key).Some? && entries[0].1.JArray? {
        TableCalls(prefix, attrs + [MetricAttribute("sp", ProviderName(key).value)], ProviderName(key).value, entries[0].1.items);
      }
    }
  }

  /**
   * Members whose keys do not start with `spCounterTable` are ignored,
   * whatever their values.
   */
  lemma {:induction false} OtherKeysIgnored(prefix: string, attrs: seq<MetricAttribute>, entries: seq<(string, Json)>)
    requires forall i | 0 <= i < |entries| :: !HasPrefix(entries[i].0, "spCounterTable")
    ensures EntriesOutcome(prefix, attrs, entries) == NO_CALLS
    decreases |entries|
  {
    if entries != [] {
      OtherKeysIgnored(prefix, attrs, entries[1..]);
    }
  }

  /** Without a connection, or without cluster info, nothing is published and the process goes on. */
  lemma NothingWithoutClusterInfo(prefix: string, parseClusterInfo: string -> (string, string), entries: seq<(string, Json)>)
    requires forall i | 0 <= i < |entries| :: entries[i].0 == "clusterInfo" ==> entries[i].1 == JNull
    ensures FetchOutcome(prefix, parseClusterInfo, SpNoResponse) == NO_CALLS
    ensures FetchOutcome(prefix, parseClusterInfo, SpDecoded(entries)) == NO_CALLS
  {
  }
}
