/**
 * Rows of the C5 counter tables.  A row is read with `strings.Fields`; a
 * usage row carries a current value and the last interval's min, max and
 * average, an event row an absolute total.  A group of rows reports one
 * counter several times: the first row names it, the others only carry
 * values, and each output is indexed by its row position.
 *
 * `parseUint64` stops the process on a malformed number, so every parser
 * here yields a `Result`.
 */
module Counters {
  import opened Wrappers
  import opened GoStrings
  import opened Strconv
  import opened Scalars
  import opened Naming

  /** `usageCounter`. */
  datatype UsageCounter = UsageCounter(
    id: string, name: string, idx: Option<nat>,
    current: U64, lastMin: U64, lastAvg: U64, lastMax: U64)

  /** `eventCounter`. */
  datatype EventCounter = EventCounter(id: string, name: string, idx: Option<nat>, total: U64)

  /** The zero value `usageCounter{}`. */
  const ZERO_USAGE: UsageCounter := UsageCounter("", "", None, 0, 0, 0, 0)

  /** The zero value `eventCounter{}`. */
  const ZERO_EVENT: EventCounter := EventCounter("", "", None, 0)

  /**
   * A usage counter whose current value, last min, last max and last
   * average are read, in that order, from four fields: the first malformed
   * field stops the process.
   */
  function ReadUsage(id: string, name: string, idx: Option<nat>,
                     current: string, lastMin: string, lastMax: string, lastAvg: string): (r: Result<UsageCounter>)
    ensures r.Ok? <==> ParseUint64(current).Ok? && ParseUint64(lastMin).Ok? && ParseUint64(lastMax).Ok? && ParseUint64(lastAvg).Ok?
    ensures r.Ok? ==>
              && r.value.id == id && r.value.name == name && r.value.idx == idx
              && ParseUint64(current) == Ok(r.value.current)
              && ParseUint64(lastMin) == Ok(r.value.lastMin)
              && ParseUint64(lastMax) == Ok(r.value.lastMax)
              && ParseUint64(lastAvg) == Ok(r.value.lastAvg)
    ensures ParseUint64(current).Halted? ==> r == Halted(ParseUint64(current).halt)
  {
    match ParseUint64(current)
    case Halted(h) => Halted(h)
    case Ok(c) =>
      match ParseUint64(lastMin)
      case Halted(h) => Halted(h)
      case Ok(lmin) =>
        match ParseUint64(lastMax)
        case Halted(h) => Halted(h)
        case Ok(lmax) =>
          match ParseUint64(lastAvg)
          case Halted(h) => Halted(h)
          case Ok(lavg) => Ok(UsageCounter(id, name, idx, c, lmin, lavg, lmax))
  }

  /**
   * `parseUsageCounter`: fewer than 8 fields give the zero record;
   * otherwise field 0 is the id, field 1 the normalised name, and fields 2,
   * 5, 6 and 7 the current value, last min, last max and last average.
   */
  function ParseUsageCounter(line: string): (r: Result<UsageCounter>)
    ensures |Fields(line)| < 8 ==> r == Ok(ZERO_USAGE)
    ensures r.Ok? ==> r.value.idx == None
    ensures var parts := Fields(line);
            |parts| >= 8 && r.Ok? ==>
              && r.value.id == parts[0] && r.value.name == NormalizeMetricName(parts[1])
              && ParseUint64(parts[2]) == Ok(r.value.current)
              && ParseUint64(parts[5]) == Ok(r.value.lastMin)
              && ParseUint64(parts[6]) == Ok(r.value.lastMax)
              && ParseUint64(parts[7]) == Ok(r.value.lastAvg)
    ensures var parts := Fields(line);
            r.Halted? <==>
              |parts| >= 8 && !(ParseUint64(parts[2]).Ok? && ParseUint64(parts[5]).Ok?
                                && ParseUint64(parts[6]).Ok? && ParseUint64(parts[7]).Ok?)
  {
    var parts := Fields(line);
    if |parts| < 8 then Ok(ZERO_USAGE)
    else ReadUsage(parts[0], NormalizeMetricName(parts[1]), None, parts[2], parts[5], parts[6], parts[7])
  }

  /**
   * `parseEventCounter`: fewer than 3 fields give the zero record;
   * otherwise field 0 is the id, field 1 the normalised name and field 2
   * the total.
   */
  function ParseEventCounter(line: string): (r: Result<EventCounter>)
    ensures |Fields(line)| < 3 ==> r == Ok(ZERO_EVENT)
    ensures r.Ok? ==> r.value.idx == None
    ensures var parts := Fields(line);
            |parts| >= 3 && r.Ok? ==>
              && r.value.id == parts[0] && r.value.name == NormalizeMetricName(parts[1])
              && ParseUint64(parts[2]) == Ok(r.value.total)
    ensures var parts := Fields(line);
            r.Halted? <==> |parts| >= 3 && ParseUint64(parts[2]).Halted?
  {
    var parts := Fields(line);
    if |parts| < 3 then Ok(ZERO_EVENT)
    else
      match ParseUint64(parts[2])
      case Halted(h) => Halted(h)
      case Ok(v) => Ok(EventCounter(parts[0], NormalizeMetricName(parts[1]), None, v))
  }

  // ----- Writing rows back

  /** The decimal renderings of some numbers: digit cells that read back as those numbers. */
  function Decimals(ns: seq<nat>): (ws: seq<string>)
    ensures |ws| == |ns|
    ensures forall k | 0 <= k < |ns| :: ws[k] == NatToDecimal(ns[k])
    ensures forall k | 0 <= k < |ws| :: ws[k] != [] && AllDigits(ws[k]) && DecimalValue(ws[k]) == ns[k]
  {
    if ns == [] then [] else [NatToDecimal(ns[0])] + Decimals(ns[1..])
  }

  /** A table cell: a non-empty run of non-space characters. */
  predicate IsCell(w: string) {
    w != [] && NoSpace(w)
  }

  /** A counter name as the tables print it: a cell with no `_`, `.` or space at either end. */
  predicate IsCounterName(w: string) {
    IsCell(w) && !IsJunk(w[0]) && !IsJunk(w[|w| - 1])
  }

  lemma DecimalCells(ns: seq<nat>)
    ensures forall k | 0 <= k < |ns| :: IsCell(Decimals(ns)[k])
  {
    forall k | 0 <= k < |ns| ensures IsCell(Decimals(ns)[k]) {
      var d := NatToDecimal(ns[k]);
      forall i | 0 <= i < |d| ensures !IsSpace(d[i]) { assert IsDigit(d[i]); }
    }
  }

  /** The cells of a row written with single spaces are read back by `strings.Fields`. */
  lemma RowFields(id: string, name: string, ns: seq<nat>)
    requires IsCell(id) && IsCell(name)
    ensures Fields(Join([id, name] + Decimals(ns), " ")) == [id, name] + Decimals(ns)
  {
    DecimalCells(ns);
    var ws := [id, name] + Decimals(ns);
    forall k | 0 <= k < |ws| ensures ws[k] != [] && NoSpace(ws[k]) {
      if k >= 2 { assert ws[k] == Decimals(ns)[k - 2]; }
    }
    FieldsJoin(ws);
  }

  /** A written counter name comes back from `normalizeMetricName` unchanged. */
  lemma NormalizeCounterName(name: string)
    requires IsCounterName(name)
    ensures NormalizeMetricName(name) == name
  {
    NormalizeOf("", name, "");
    assert "" + name + "" == name;
  }

  /**
   * The six figures of a usage row (current, min, max, last min, last max,
   * last average) as far as they are read: the current value and the last
   * interval's figures fit the signed 63-bit reading; min and max are never
   * read, so they may be anything.
   */
  predicate UsageFiguresFit(ns: seq<nat>) {
    |ns| == 6 && ns[0] < TWO_62 && ns[3] < TWO_62 && ns[4] < TWO_62 && ns[5] < TWO_62
  }

  /** A usage row `id name current min max lastMin lastMax lastAvg` reads back as the counter it describes, its min and max columns ignored. */
  lemma ParseUsageCounterRow(id: string, name: string, ns: seq<nat>)
    requires IsCell(id) && IsCounterName(name)
    requires UsageFiguresFit(ns)
    ensures ParseUsageCounter(Join([id, name] + Decimals(ns), " "))
            == Ok(UsageCounter(id, name, None, ns[0], ns[3], ns[5], ns[4]))
  {
    RowFields(id, name, ns);
    NormalizeCounterName(name);
    ParseUint64Decimal(ns[0]);
    ParseUint64Decimal(ns[3]);
    ParseUint64Decimal(ns[4]);
    ParseUint64Decimal(ns[5]);
  }

  /** An event row `id name absolute current last` reads back with the absolute value as total. */
  lemma ParseEventCounterRow(id: string, name: string, ns: seq<nat>)
    requires IsCell(id) && IsCounterName(name)
    requires |ns| == 3 && ns[0] < TWO_62
    ensures ParseEventCounter(Join([id, name] + Decimals(ns), " "))
            == Ok(EventCounter(id, name, None, ns[0]))
  {
    RowFields(id, name, ns);
    NormalizeCounterName(name);
    ParseUint64Decimal(ns[0]);
  }

  // ----- Groups of rows

  /** A group's outputs, or the halt that came first, with `cnts` already produced before them. */
  function Prepend<T>(cnts: seq<T>, rest: Result<seq<T>>): Result<seq<T>>
  {
    match rest
    case Ok(cs) => Ok(cnts + cs)
    case Halted(h) => Halted(h)
  }

  /** The fields of every line, as the loops over a group's rows read them one line at a time. */
  function SplitRows(lines: seq<string>): (rows: seq<seq<string>>)
    ensures |rows| == |lines|
    ensures forall j | 0 <= j < |lines| :: rows[j] == Fields(lines[j])
  {
    if lines == [] then []
    else
      var rows := [Fields(lines[0])] + SplitRows(lines[1..]);
      assert forall j | 1 <= j < |lines| :: lines[j] == lines[1..][j - 1];
      rows
  }

  // ----- Groups of usage rows

  /**
   * One continuation row of a usage group at row position `pos`, given by
   * its fields: fewer than 6 fields give nothing, otherwise a counter under
   * the group's id and name with fields 0, 3, 4 and 5 as current value,
   * last min, last max and last average.
   */
  function UsageContinuation(id: string, name: string, parts: seq<string>, pos: nat): (r: Result<Option<UsageCounter>>)
    ensures r == Ok(None) <==> |parts| < 6
    ensures r.Ok? && r.value.Some? ==>
              r.value.value.id == id && r.value.value.name == name && r.value.value.idx == Some(pos)
  {
    if |parts| < 6 then Ok(None)
    else
      match ReadUsage(id, name, Some(pos), parts[0], parts[3], parts[4], parts[5])
      case Halted(h) => Halted(h)
      case Ok(c) => Ok(Some(c))
  }

  /**
   * A continuation row with at least 6 fields: its counter takes fields 0,
   * 3, 4 and 5 as current value, last min, last max and last average, and
   * the row stops the process exactly when one of them is malformed.
   */
  lemma UsageContinuationFigures(id: string, name: string, parts: seq<string>, pos: nat)
    requires |parts| >= 6
    ensures var r := UsageContinuation(id, name, parts, pos);
            && (r.Halted? <==> !(ParseUint64(parts[0]).Ok? && ParseUint64(parts[3]).Ok?
                                 && ParseUint64(parts[4]).Ok? && ParseUint64(parts[5]).Ok?))
            && (r.Ok? ==> r.value.Some?
                          && ParseUint64(parts[0]) == Ok(r.value.value.current)
                          && ParseUint64(parts[3]) == Ok(r.value.value.lastMin)
                          && ParseUint64(parts[4]) == Ok(r.value.value.lastMax)
                          && ParseUint64(parts[5]) == Ok(r.value.value.lastAvg))
  {
  }

  /**
   * The continuation rows of a usage group, the first of them at row
   * position `pos`.  `name` is the group's name normalised once more, as
   * every continuation row does; it depends on the first row only, so it is
   * computed once.
   */
  function SubUsageRows(id: string, name: string, rows: seq<seq<string>>, pos: nat): Result<seq<UsageCounter>>
    decreases |rows|
  {
    if rows == [] then Ok([])
    else
      match UsageContinuation(id, name, rows[0], pos)
      case Halted(h) => Halted(h)
      case Ok(None) => SubUsageRows(id, name, rows[1..], pos + 1)
      case Ok(Some(c)) => Prepend([c], SubUsageRows(id, name, rows[1..], pos + 1))
  }

  /**
   * What `parseSubUsageCounter` returns for a group: nothing when the first
   * row yields no name, else the first row's counter at index 0 followed by
   * the continuation rows' counters.
   */
  function SubUsageCounters(lines: seq<string>): Result<seq<UsageCounter>>
  {
    if lines == [] then Ok([])
    else
      match ParseUsageCounter(lines[0])
      case Halted(h) => Halted(h)
      case Ok(c) =>
        if c.name == "" then Ok([])
        else Prepend([c.(idx := Some(0))], SubUsageRows(c.id, NormalizeMetricName(c.name), SplitRows(lines[1..]), 1))
  }

  /** The continuation rows from row `j` on, after the outputs `cnts`, when there is no row `j`: the group ends with `cnts`. */
  lemma SubUsageRowsEnd(id: string, name: string, rows: seq<seq<string>>, j: nat, pos: nat, cnts: seq<UsageCounter>)
    requires j == |rows|
    ensures Prepend(cnts, SubUsageRows(id, name, rows[j..], pos)) == Ok(cnts)
  {
    assert rows[j..] == [];
    assert cnts + [] == cnts;
  }

  /**
   * The continuation rows from row `j` on, after the outputs `cnts`: the
   * result `next` of row `j` decides whether the rest is read.
   */
  lemma SubUsageRowsRead(id: string, name: string, rows: seq<seq<string>>, j: nat, pos: nat, cnts: seq<UsageCounter>,
                         next: Result<Option<UsageCounter>>)
    requires j < |rows| && next == UsageContinuation(id, name, rows[j], pos)
    ensures next.Halted? ==> Prepend(cnts, SubUsageRows(id, name, rows[j..], pos)) == Halted(next.halt)
    ensures next == Ok(None) ==>
              Prepend(cnts, SubUsageRows(id, name, rows[j..], pos)) == Prepend(cnts, SubUsageRows(id, name, rows[j + 1..], pos + 1))
    ensures next.Ok? && next.value.Some? ==>
              Prepend(cnts, SubUsageRows(id, name, rows[j..], pos))
              == Prepend(cnts + [next.value.value], SubUsageRows(id, name, rows[j + 1..], pos + 1))
  {
    assert rows[j..][0] == rows[j];
    assert rows[j..][1..] == rows[j + 1..];
    var rest := SubUsageRows(id, name, rows[j + 1..], pos + 1);
    if next.Ok? && next.value.Some? && rest.Ok? {
      assert cnts + ([next.value.value] + rest.value) == (cnts + [next.value.value]) + rest.value;
    }
  }

  /** `parseSubUsageCounter`: the first row, then the loop over the continuation rows. */
  method ParseSubUsageCounter(lines: seq<string>) returns (r: Result<seq<UsageCounter>>)
    ensures r == SubUsageCounters(lines)
  {
    if lines == [] {
      return Ok([]);
    }
    var first := ParseUsageCounter(lines[0]);
    if first.Halted? {
      return Halted(first.halt);
    }
    var c := first.value;
    if c.name == "" {
      return Ok([]);
    }
    SubUsageCountersHead(lines, c);
    r := UsageContinuationRows(c.id, NormalizeMetricName(c.name), lines, [c.(idx := Some(0))]);
  }

  /** The loop of `parseSubUsageCounter` over rows 1 and on, after the outputs `cnts` of row 0. */
  method UsageContinuationRows(id: string, name: string, lines: seq<string>, cnts0: seq<UsageCounter>)
    returns (r: Result<seq<UsageCounter>>)
    requires lines != []
    ensures r == Prepend(cnts0, SubUsageRows(id, name, SplitRows(lines[1..]), 1))
  {
    var cnts := cnts0;
    ghost var rows := SplitRows(lines[1..]);
    assert rows[0..] == rows;
    var i := 1;
    while i < |lines|
      invariant 1 <= i <= |lines|
      invariant Prepend(cnts0, SubUsageRows(id, name, rows, 1)) == Prepend(cnts, SubUsageRows(id, name, rows[i - 1..], i))
    {
      var parts := Fields(lines[i]);
      assert rows[i - 1] == parts by { assert lines[1..][i - 1] == lines[i]; }
      var next := UsageContinuation(id, name, parts, i);
      SubUsageRowsRead(id, name, rows, i - 1, i, cnts, next);
      if next.Halted? {
        return Halted(next.halt);
      }
      if next.value.Some? {
        cnts := cnts + [next.value.value];
      }
      i := i + 1;
    }
    SubUsageRowsEnd(id, name, rows, i - 1, i, cnts);
    return Ok(cnts);
  }

  /** How many rows have at least `n` fields. */
  function CountWide(rows: seq<seq<string>>, n: nat): (k: nat)
    ensures k <= |rows|
  {
    if rows == [] then 0
    else (if |rows[0]| >= n then 1 else 0) + CountWide(rows[1..], n)
  }

  /** One continuation row: a narrow row adds nothing, a wide one adds its counter in front of the rest. */
  lemma SubUsageRowsStep(id: string, name: string, rows: seq<seq<string>>, pos: nat)
    requires rows != [] && SubUsageRows(id, name, rows, pos).Ok?
    ensures SubUsageRows(id, name, rows[1..], pos + 1).Ok?
    ensures |rows[0]| < 6 ==> SubUsageRows(id, name, rows, pos).value == SubUsageRows(id, name, rows[1..], pos + 1).value
    ensures |rows[0]| >= 6 ==>
              && UsageContinuation(id, name, rows[0], pos).Ok? && UsageContinuation(id, name, rows[0], pos).value.Some?
              && SubUsageRows(id, name, rows, pos).value
                 == [UsageContinuation(id, name, rows[0], pos).value.value] + SubUsageRows(id, name, rows[1..], pos + 1).value
  {
  }

  /** Continuation rows give one counter per row with at least 6 fields. */
  lemma {:induction false} SubUsageRowsCount(id: string, name: string, rows: seq<seq<string>>, pos: nat)
    requires SubUsageRows(id, name, rows, pos).Ok?
    ensures |SubUsageRows(id, name, rows, pos).value| == CountWide(rows, 6)
    decreases |rows|
  {
    if rows != [] {
      SubUsageRowsStep(id, name, rows, pos);
      SubUsageRowsCount(id, name, rows[1..], pos + 1);
    }
  }

  /** Every counter of the continuation rows carries the group's id and name. */
  lemma {:induction false} SubUsageRowsNames(id: string, name: string, rows: seq<seq<string>>, pos: nat)
    requires SubUsageRows(id, name, rows, pos).Ok?
    ensures var cs := SubUsageRows(id, name, rows, pos).value;
            forall k | 0 <= k < |cs| :: cs[k].id == id && cs[k].name == name
    decreases |rows|
  {
    if rows != [] {
      SubUsageRowsStep(id, name, rows, pos);
      SubUsageRowsNames(id, name, rows[1..], pos + 1);
    }
  }

  /** Every counter in `cs` is indexed by the position of a row of `rows` with at least 6 fields, the rows starting at position `pos`. */
  predicate WideIndexed(cs: seq<UsageCounter>, rows: seq<seq<string>>, pos: nat)
  {
    forall k | 0 <= k < |cs| ::
      cs[k].idx.Some? && pos <= cs[k].idx.value < pos + |rows| && |rows[cs[k].idx.value - pos]| >= 6
  }

  /** Every counter of the continuation rows is indexed by the position of a row with at least 6 fields. */
  lemma {:induction false} SubUsageRowsPositions(id: string, name: string, rows: seq<seq<string>>, pos: nat)
    requires SubUsageRows(id, name, rows, pos).Ok?
    ensures WideIndexed(SubUsageRows(id, name, rows, pos).value, rows, pos)
    decreases |rows|
  {
    if rows == [] {
      assert SubUsageRows(id, name, rows, pos).value == [];
    } else {
      SubUsageRowsStep(id, name, rows, pos);
      SubUsageRowsPositions(id, name, rows[1..], pos + 1);
      var tail := SubUsageRows(id, name, rows[1..], pos + 1).value;
      var next := UsageContinuation(id, name, rows[0], pos);
      var head := if |rows[0]| >= 6 then [next.value.value] else [];
      PositionsCons(rows, pos, head, tail, SubUsageRows(id, name, rows, pos).value);
    }
  }

  /** Indexed counters of rows 1 and on, after at most one counter of row 0 at position `pos`. */
  lemma PositionsCons(rows: seq<seq<string>>, pos: nat, head: seq<UsageCounter>, tail: seq<UsageCounter>, cs: seq<UsageCounter>)
    requires rows != [] && cs == head + tail
    requires head == [] || (|head| == 1 && head[0].idx == Some(pos) && |rows[0]| >= 6)
    requires WideIndexed(tail, rows[1..], pos + 1)
    ensures WideIndexed(cs, rows, pos)
  {
    forall k | 0 <= k < |cs|
      ensures cs[k].idx.Some? && pos <= cs[k].idx.value < pos + |rows| && |rows[cs[k].idx.value - pos]| >= 6
    {
      if k >= |head| {
        assert cs[k] == tail[k - |head|];
        assert rows[cs[k].idx.value - pos] == rows[1..][cs[k].idx.value - (pos + 1)];
      }
    }
  }

  /** The counters of the continuation rows come in strictly increasing index order. */
  lemma {:induction false} SubUsageRowsIncreasing(id: string, name: string, rows: seq<seq<string>>, pos: nat)
    requires SubUsageRows(id, name, rows, pos).Ok?
    ensures var cs := SubUsageRows(id, name, rows, pos).value;
            forall k, l | 0 <= k < l < |cs| :: cs[k].idx.Some? && cs[l].idx.Some? && cs[k].idx.value < cs[l].idx.value
    decreases |rows|
  {
    if rows != [] {
      SubUsageRowsStep(id, name, rows, pos);
      SubUsageRowsPositions(id, name, rows[1..], pos + 1);
      SubUsageRowsIncreasing(id, name, rows[1..], pos + 1);
    }
  }

  /** A group whose first row names a counter: that counter at index 0, then its continuation rows under its id and name. */
  lemma SubUsageCountersHead(lines: seq<string>, c: UsageCounter)
    requires lines != [] && ParseUsageCounter(lines[0]) == Ok(c) && c.name != ""
    ensures NormalizeMetricName(c.name) == c.name
    ensures SubUsageCounters(lines) == Prepend([c.(idx := Some(0))], SubUsageRows(c.id, c.name, SplitRows(lines[1..]), 1))
  {
    NormalizeIdempotent(Fields(lines[0])[1]);
  }

  /**
   * A group whose first row names a counter gives that counter, then one
   * counter per continuation row with at least 6 fields.
   */
  lemma SubUsageCountersCount(lines: seq<string>, c: UsageCounter)
    requires lines != [] && ParseUsageCounter(lines[0]) == Ok(c) && c.name != ""
    requires SubUsageCounters(lines).Ok?
    ensures |SubUsageCounters(lines).value| == 1 + CountWide(SplitRows(lines[1..]), 6)
  {
    SubUsageCountersHead(lines, c);
    SubUsageRowsCount(c.id, c.name, SplitRows(lines[1..]), 1);
  }

  /**
   * The first row's counter at index 0 in front of the continuation rows'
   * counters: all under one id and name, each after the first indexed by
   * the position of a row with at least 6 fields, in increasing order.
   */
  lemma SubUsageGroupShape(first: UsageCounter, id: string, name: string, rows: seq<seq<string>>)
    requires first.id == id && first.name == name && first.idx == Some(0)
    requires SubUsageRows(id, name, rows, 1).Ok?
    ensures var cs := [first] + SubUsageRows(id, name, rows, 1).value;
            && (forall k | 0 <= k < |cs| :: cs[k].id == id && cs[k].name == name)
            && (forall k | 0 <= k < |cs| :: cs[k].idx.Some? && cs[k].idx.value <= |rows|)
            && (forall k | 1 <= k < |cs| :: 1 <= cs[k].idx.value && |rows[cs[k].idx.value - 1]| >= 6)
            && (forall k, l | 0 <= k < l < |cs| :: cs[k].idx.value < cs[l].idx.value)
  {
    SubUsageRowsNames(id, name, rows, 1);
    SubUsageRowsPositions(id, name, rows, 1);
    SubUsageRowsIncreasing(id, name, rows, 1);
    var rest := SubUsageRows(id, name, rows, 1).value;
    var cs := [first] + rest;
    forall k | 1 <= k < |cs| ensures cs[k] == rest[k - 1] {
    }
  }

  /**
   * A group whose first row names a counter gives that counter at index 0;
   * every output carries the first row's id and name, and its index is the
   * position of its row, a row with at least 6 fields after the first, so
   * indices start at 0 and strictly increase.
   */
  lemma SubUsageCountersShape(lines: seq<string>, c: UsageCounter)
    requires lines != [] && ParseUsageCounter(lines[0]) == Ok(c) && c.name != ""
    requires SubUsageCounters(lines).Ok?
    ensures var cs := SubUsageCounters(lines).value;
            && cs != [] && cs[0] == c.(idx := Some(0))
            && (forall k | 0 <= k < |cs| :: cs[k].id == c.id && cs[k].name == c.name)
            && (forall k | 0 <= k < |cs| :: cs[k].idx.Some? && cs[k].idx.value < |lines|)
            && (forall k | 1 <= k < |cs| :: |Fields(lines[cs[k].idx.value])| >= 6)
            && (forall k, l | 0 <= k < l < |cs| :: cs[k].idx.value < cs[l].idx.value)
  {
    SubUsageCountersHead(lines, c);
    var rows := SplitRows(lines[1..]);
    SubUsageGroupShape(c.(idx := Some(0)), c.id, c.name, rows);
    var cs := SubUsageCounters(lines).value;
    forall k | 1 <= k < |cs| ensures |Fields(lines[cs[k].idx.value])| >= 6 {
      assert lines[1..][cs[k].idx.value - 1] == lines[cs[k].idx.value];
    }
  }

  /** A group whose first row yields no name (too short, or a name of junk only) gives nothing. */
  lemma SubUsageCountersUnnamed(lines: seq<string>)
    requires lines != [] && ParseUsageCounter(lines[0]).Ok? && ParseUsageCounter(lines[0]).value.name == ""
    ensures SubUsageCounters(lines) == Ok([])
  {
  }

  /** A single wide continuation row gives its counter. */
  lemma SubUsageRowsSingle(id: string, name: string, parts: seq<string>, pos: nat, c: UsageCounter)
    requires UsageContinuation(id, name, parts, pos) == Ok(Some(c))
    ensures SubUsageRows(id, name, [parts], pos) == Ok([c])
  {
    assert [parts][1..] == [];
    assert [c] + [] == [c];
  }

  /** A continuation row of six decimal cells whose read figures fit the signed 63-bit reading. */
  lemma UsageContinuationDecimals(id: string, name: string, ns: seq<nat>, pos: nat)
    requires UsageFiguresFit(ns)
    ensures UsageContinuation(id, name, Decimals(ns), pos)
            == Ok(Some(UsageCounter(id, name, Some(pos), ns[0], ns[3], ns[5], ns[4])))
  {
    var cells := Decimals(ns);
    ParseUint64Decimal(ns[0]);
    ParseUint64Decimal(ns[3]);
    ParseUint64Decimal(ns[4]);
    ParseUint64Decimal(ns[5]);
    assert ReadUsage(id, name, Some(pos), cells[0], cells[3], cells[4], cells[5])
           == Ok(UsageCounter(id, name, Some(pos), ns[0], ns[3], ns[5], ns[4]));
  }

  /** An indented continuation row of six decimal cells, alone in its group. */
  lemma SubUsageRowsIndented(id: string, name: string, ns: seq<nat>, pos: nat)
    requires UsageFiguresFit(ns)
    ensures SubUsageRows(id, name, SplitRows(["  " + Join(Decimals(ns), " ")]), pos)
            == Ok([UsageCounter(id, name, Some(pos), ns[0], ns[3], ns[5], ns[4])])
  {
    var cells := Decimals(ns);
    DecimalCells(ns);
    FieldsJoin(cells);
    FieldsSkipSpace("  ", Join(cells, " "));
    assert SplitRows(["  " + Join(cells, " ")]) == [cells];
    UsageContinuationDecimals(id, name, ns, pos);
    SubUsageRowsSingle(id, name, cells, pos, UsageCounter(id, name, Some(pos), ns[0], ns[3], ns[5], ns[4]));
  }

  /**
   * A group of a first row and one indented continuation row, both of six
   * decimal cells, gives two counters of the same id and name at row
   * positions 0 and 1.
   */
  lemma SubUsageTwoRows(id: string, name: string, ns0: seq<nat>, ns1: seq<nat>)
    requires IsCell(id) && IsCounterName(name)
    requires UsageFiguresFit(ns0)
    requires UsageFiguresFit(ns1)
    ensures SubUsageCounters([Join([id, name] + Decimals(ns0), " "), "  " + Join(Decimals(ns1), " ")])
            == Ok([UsageCounter(id, name, Some(0), ns0[0], ns0[3], ns0[5], ns0[4]),
                   UsageCounter(id, name, Some(1), ns1[0], ns1[3], ns1[5], ns1[4])])
  {
    var row0 := Join([id, name] + Decimals(ns0), " ");
    var c0 := UsageCounter(id, name, None, ns0[0], ns0[3], ns0[5], ns0[4]);
    ParseUsageCounterRow(id, name, ns0);
    var row1 := "  " + Join(Decimals(ns1), " ");
    SubUsageRowsIndented(id, name, ns1, 1);
    var c1 := UsageCounter(id, name, Some(1), ns1[0], ns1[3], ns1[5], ns1[4]);
    SubUsageTwoLines(row0, row1, c0, c1);
  }

  /** A named first row and a continuation row that reads as one counter give that pair of counters. */
  lemma SubUsageTwoLines(row0: string, row1: string, c0: UsageCounter, c1: UsageCounter)
    requires ParseUsageCounter(row0) == Ok(c0) && c0.name != ""
    requires SubUsageRows(c0.id, c0.name, SplitRows([row1]), 1) == Ok([c1])
    ensures SubUsageCounters([row0, row1]) == Ok([c0.(idx := Some(0)), c1])
  {
    var lines := [row0, row1];
    SubUsageCountersHead(lines, c0);
    assert lines[1..] == [row1];
    assert [c0.(idx := Some(0))] + [c1] == [c0.(idx := Some(0)), c1];
  }

  /**
   * The group `["84 FOO 0 0 3 0 9 0", "  0 0 3 0 4 0"]`, for any counter
   * name in place of `FOO`: two counters with the first row's id and name,
   * at indices 0 and 1, with last max 9 and 4
   * and every other read figure 0.
   */
  lemma SubUsageExample(name: string)
    requires IsCounterName(name)
    ensures SubUsageCounters([Join([NatToDecimal(84), name] + Decimals([0, 0, 3, 0, 9, 0]), " "),
                              "  " + Join(Decimals([0, 0, 3, 0, 4, 0]), " ")])
            == Ok([UsageCounter(NatToDecimal(84), name, Some(0), 0, 0, 0, 9),
                   UsageCounter(NatToDecimal(84), name, Some(1), 0, 0, 0, 4)])
  {
    DecimalCells([84]);
    assert IsCell(Decimals([84])[0]);
    SubUsageTwoRows(NatToDecimal(84), name, [0, 0, 3, 0, 9, 0], [0, 0, 3, 0, 4, 0]);
  }

  // ----- Groups of event rows

  /**
   * The continuation rows of an event group, given by their fields, the
   * first at row position `pos`: the first row without fields ends the
   * group, any other row gives a counter from its field 0.  `name` is the
   * group's name normalised once more, computed once as for usage groups.
   */
  function SubEventRows(id: string, name: string, rows: seq<seq<string>>, pos: nat): Result<seq<EventCounter>>
    decreases |rows|
  {
    if rows == [] || |rows[0]| < 1 then Ok([])
    else
      match ParseUint64(rows[0][0])
      case Halted(h) => Halted(h)
      case Ok(v) => Prepend([EventCounter(id, name, Some(pos), v)], SubEventRows(id, name, rows[1..], pos + 1))
  }

  /** What `parseSubEventCounter` returns for a group. */
  function SubEventCounters(lines: seq<string>): Result<seq<EventCounter>>
  {
    if lines == [] then Ok([])
    else
      match ParseEventCounter(lines[0])
      case Halted(h) => Halted(h)
      case Ok(c) =>
        if c.name == "" then Ok([])
        else Prepend([c.(idx := Some(0))], SubEventRows(c.id, NormalizeMetricName(c.name), SplitRows(lines[1..]), 1))
  }

  /**
   * The continuation rows from row `j` on, after the outputs `cnts`, when
   * row `j` is missing or blank: the group ends with `cnts`.
   */
  lemma SubEventRowsEnd(id: string, name: string, rows: seq<seq<string>>, j: nat, pos: nat, cnts: seq<EventCounter>)
    requires j == |rows| || (j < |rows| && |rows[j]| < 1)
    ensures Prepend(cnts, SubEventRows(id, name, rows[j..], pos)) == Ok(cnts)
  {
    assert cnts + [] == cnts;
    if j < |rows| {
      assert rows[j..][0] == rows[j];
    } else {
      assert rows[j..] == [];
    }
  }

  /**
   * The continuation rows from row `j` on, after the outputs `cnts`, when
   * row `j` has a field: a number that does not parse stops the process,
   * and otherwise its counter is added and the rest follows.
   */
  lemma SubEventRowsRead(id: string, name: string, rows: seq<seq<string>>, j: nat, pos: nat, cnts: seq<EventCounter>,
                         v: Result<U64>)
    requires j < |rows| && |rows[j]| >= 1 && v == ParseUint64(rows[j][0])
    ensures v.Halted? ==> Prepend(cnts, SubEventRows(id, name, rows[j..], pos)) == Halted(v.halt)
    ensures v.Ok? ==> Prepend(cnts, SubEventRows(id, name, rows[j..], pos))
                      == Prepend(cnts + [EventCounter(id, name, Some(pos), v.value)], SubEventRows(id, name, rows[j + 1..], pos + 1))
  {
    assert rows[j..][0] == rows[j];
    assert rows[j..][1..] == rows[j + 1..];
    var rest := SubEventRows(id, name, rows[j + 1..], pos + 1);
    if v.Ok? && rest.Ok? {
      var e := EventCounter(id, name, Some(pos), v.value);
      assert cnts + ([e] + rest.value) == (cnts + [e]) + rest.value;
    }
  }

  /** `parseSubEventCounter`: the first row, then the loop over the continuation rows. */
  method ParseSubEventCounter(lines: seq<string>) returns (r: Result<seq<EventCounter>>)
    ensures r == SubEventCounters(lines)
  {
    if lines == [] {
      return Ok([]);
    }
    var first := ParseEventCounter(lines[0]);
    if first.Halted? {
      return Halted(first.halt);
    }
    var c := first.value;
    if c.name == "" {
      return Ok([]);
    }
    SubEventCountersHead(lines, c);
    r := EventContinuationRows(c.id, NormalizeMetricName(c.name), lines, [c.(idx := Some(0))]);
  }

  /** The loop of `parseSubEventCounter` over rows 1 and on, after the outputs `cnts` of row 0; it is left at the first blank row. */
  method EventContinuationRows(id: string, name: string, lines: seq<string>, cnts0: seq<EventCounter>)
    returns (r: Result<seq<EventCounter>>)
    requires lines != []
    ensures r == Prepend(cnts0, SubEventRows(id, name, SplitRows(lines[1..]), 1))
  {
    var cnts := cnts0;
    ghost var rows := SplitRows(lines[1..]);
    assert rows[0..] == rows;
    var i := 1;
    while i < |lines|
      invariant 1 <= i <= |lines|
      invariant Prepend(cnts0, SubEventRows(id, name, rows, 1)) == Prepend(cnts, SubEventRows(id, name, rows[i - 1..], i))
    {
      var parts := Fields(lines[i]);
      assert rows[i - 1] == parts by { assert lines[1..][i - 1] == lines[i]; }
      if |parts| < 1 {
        SubEventRowsEnd(id, name, rows, i - 1, i, cnts);
        return Ok(cnts);
      }
      var v := ParseUint64(parts[0]);
      SubEventRowsRead(id, name, rows, i - 1, i, cnts, v);
      if v.Halted? {
        return Halted(v.halt);
      }
      cnts := cnts + [EventCounter(id, name, Some(i), v.value)];
      i := i + 1;
    }
    SubEventRowsEnd(id, name, rows, i - 1, i, cnts);
    return Ok(cnts);
  }

  /** How many rows, from the first, have at least one field. */
  function LeadingNonBlank(rows: seq<seq<string>>): (k: nat)
    ensures k <= |rows|
    ensures forall j | 0 <= j < k :: |rows[j]| >= 1
    ensures k < |rows| ==> |rows[k]| == 0
  {
    if rows == [] || |rows[0]| == 0 then 0
    else
      var k := 1 + LeadingNonBlank(rows[1..]);
      assert forall j | 1 <= j < |rows| :: rows[j] == rows[1..][j - 1];
      k
  }

  /** Continuation event rows give one counter per row up to the first blank row. */
  lemma {:induction false} SubEventRowsCount(id: string, name: string, rows: seq<seq<string>>, pos: nat)
    requires SubEventRows(id, name, rows, pos).Ok?
    ensures |SubEventRows(id, name, rows, pos).value| == LeadingNonBlank(rows)
    decreases |rows|
  {
    if rows != [] && |rows[0]| >= 1 {
      SubEventRowsCount(id, name, rows[1..], pos + 1);
    }
  }

  /** Continuation event rows give counters under the group's id and name, indexed consecutively from `pos`. */
  lemma {:induction false} SubEventRowsShape(id: string, name: string, rows: seq<seq<string>>, pos: nat)
    requires SubEventRows(id, name, rows, pos).Ok?
    ensures var cs := SubEventRows(id, name, rows, pos).value;
            forall k | 0 <= k < |cs| :: cs[k].id == id && cs[k].name == name && cs[k].idx == Some(pos + k)
    decreases |rows|
  {
    if rows != [] && |rows[0]| >= 1 {
      SubEventRowsShape(id, name, rows[1..], pos + 1);
      var tail := SubEventRows(id, name, rows[1..], pos + 1).value;
      var cs := SubEventRows(id, name, rows, pos).value;
      assert |cs| == |tail| + 1 && cs[1..] == tail;
      forall k | 1 <= k < |cs| ensures cs[k].idx == Some(pos + k) { assert cs[k] == tail[k - 1]; }
    }
  }

  /** A group whose first row names a counter: that counter at index 0, then its continuation rows under its id and name. */
  lemma SubEventCountersHead(lines: seq<string>, c: EventCounter)
    requires lines != [] && ParseEventCounter(lines[0]) == Ok(c) && c.name != ""
    ensures NormalizeMetricName(c.name) == c.name
    ensures SubEventCounters(lines) == Prepend([c.(idx := Some(0))], SubEventRows(c.id, c.name, SplitRows(lines[1..]), 1))
  {
    NormalizeIdempotent(Fields(lines[0])[1]);
  }

  /**
   * A group whose first row names a counter gives that counter, then one
   * counter per continuation row up to the first row without fields.
   */
  lemma SubEventCountersCount(lines: seq<string>, c: EventCounter)
    requires lines != [] && ParseEventCounter(lines[0]) == Ok(c) && c.name != ""
    requires SubEventCounters(lines).Ok?
    ensures |SubEventCounters(lines).value| == 1 + LeadingNonBlank(SplitRows(lines[1..]))
  {
    SubEventCountersHead(lines, c);
    SubEventRowsCount(c.id, c.name, SplitRows(lines[1..]), 1);
  }

  /**
   * A group whose first row names a counter gives that counter at index 0;
   * every output carries the first row's id and name, and the k-th output
   * has index k.
   */
  lemma SubEventCountersShape(lines: seq<string>, c: EventCounter)
    requires lines != [] && ParseEventCounter(lines[0]) == Ok(c) && c.name != ""
    requires SubEventCounters(lines).Ok?
    ensures var cs := SubEventCounters(lines).value;
            && cs != [] && cs[0] == c.(idx := Some(0))
            && (forall k | 0 <= k < |cs| :: cs[k].id == c.id && cs[k].name == c.name && cs[k].idx == Some(k))
  {
    SubEventCountersHead(lines, c);
    var rows := SplitRows(lines[1..]);
    SubEventRowsShape(c.id, c.name, rows, 1);
    EventsIndexedFrom(c.(idx := Some(0)), SubEventRows(c.id, c.name, rows, 1).value, c.id, c.name);
  }

  /** A counter at index 0 followed by counters indexed from 1 are counters indexed from 0. */
  lemma EventsIndexedFrom(first: EventCounter, rest: seq<EventCounter>, id: string, name: string)
    requires first.id == id && first.name == name && first.idx == Some(0)
    requires forall k | 0 <= k < |rest| :: rest[k].id == id && rest[k].name == name && rest[k].idx == Some(1 + k)
    ensures var cs := [first] + rest;
            forall k | 0 <= k < |cs| :: cs[k].id == id && cs[k].name == name && cs[k].idx == Some(k)
  {
    var cs := [first] + rest;
    forall k | 1 <= k < |cs| ensures cs[k].idx == Some(k) {
      assert cs[k] == rest[k - 1];
    }
  }

  /** An event group stops at its first blank continuation row: no output comes from it or any later row. */
  lemma SubEventCountersStop(lines: seq<string>, j: nat)
    requires 1 <= j < |lines| && |Fields(lines[j])| == 0
    requires SubEventCounters(lines).Ok?
    ensures |SubEventCounters(lines).value| <= j
    ensures forall k | 0 <= k < |SubEventCounters(lines).value| ::
              SubEventCounters(lines).value[k].idx.Some? && SubEventCounters(lines).value[k].idx.value < j
  {
    var first := ParseEventCounter(lines[0]);
    if first.Ok? && first.value.name != "" {
      SubEventCountersCount(lines, first.value);
      SubEventCountersShape(lines, first.value);
      var rows := SplitRows(lines[1..]);
      assert rows[j - 1] == Fields(lines[j]);
      assert LeadingNonBlank(rows) <= j - 1;
    }
  }
}
