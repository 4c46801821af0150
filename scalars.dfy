/**
 * The scalar parsers of the exporter: integers, build strings, data sizes,
 * the free-text memory status line, and the process/queue state encodings.
 */
module Scalars {
  import opened Wrappers
  import opened GoStrings
  import opened Strconv

  /** `parseInt64`: a signed decimal that fits 63 bits; anything else ends the process. */
  function ParseInt64(s: string): (r: Result<int>)
    ensures r.Ok? <==> ParseInt63(s).Some?
    ensures r.Ok? ==> r.value == ParseInt63(s).value && -TWO_62 <= r.value < TWO_62
  {
    match ParseInt63(s)
    case Some(v) => Ok(v)
    case None => Halted(LogFatal("Failed to parse as int64:" + s))
  }

  /** `parseUint64`: `parseInt64` converted to `uint64`, so a negative value wraps around. */
  function ParseUint64(s: string): (r: Result<U64>)
    ensures r.Ok? <==> ParseInt63(s).Some?
  {
    match ParseInt64(s)
    case Ok(v) => Ok(if v < 0 then v + TWO_64 else v)
    case Halted(h) => Halted(h)
  }

  /** Decimal renderings below 2^62 read back; negative ones wrap to 2^64 - n; 2^62 and above end the process. */
  lemma ParseUint64Decimal(n: nat)
    ensures n < TWO_62 ==> ParseUint64(NatToDecimal(n)) == Ok(n)
    ensures 0 < n <= TWO_62 ==> ParseUint64("-" + NatToDecimal(n)) == Ok(TWO_64 - n)
    ensures n >= TWO_62 ==> ParseUint64(NatToDecimal(n)).Halted?
  {
    ParseInt63Decimal(n);
  }

  /** `parseBuildString`: the first comma-separated part without its `Version: ` prefix. */
  function ParseBuildString(build: string): (version: string)
    ensures ',' !in version
  {
    TrimPrefix(Split(build, ',')[0], "Version: ")
  }

  /**
   * The version field of a build banner is recovered exactly; in general
   * the text before the first comma is kept, less a leading `Version: `.
   */
  lemma ParseBuildStringBanner(v: string, rest: string)
    requires ',' !in v
    ensures ParseBuildString("Version: " + v + "," + rest) == v
    ensures ParseBuildString(v) == TrimPrefix(v, "Version: ")
    ensures ParseBuildString(v + "," + rest) == TrimPrefix(v, "Version: ")
  {
    SplitCons(v, ',', rest);
    assert v + "," + rest == v + [','] + rest;
    var s := "Version: " + v;
    assert ',' !in s by {
      forall i | 0 <= i < |s| ensures s[i] != ',' {
        if i >= 9 { assert s[i] == v[i - 9]; }
      }
    }
    SplitCons(s, ',', rest);
    assert "Version: " + v + "," + rest == s + [','] + rest;
    assert HasPrefix(s, "Version: ") && s[9..] == v;
  }

  /** Bytes per unit: exact powers of 1024 for `kb`, `mb`, `gb`, `tb`; 1 for anything else. */
  function UnitFactor(unit: string): nat
  {
    if unit == "kb" then 1024
    else if unit == "mb" then 1024 * 1024
    else if unit == "gb" then 1024 * 1024 * 1024
    else if unit == "tb" then 1024 * 1024 * 1024 * 1024
    else 1
  }

  /**
   * `parseDataSize`: the leading digits times the factor of the
   * (case-insensitive) unit after them, in `uint64` arithmetic.
   */
  function ParseDataSize(s: string): (r: Result<U64>)
  {
    var unit := TrimLeft(s, IsDigit);
    match ParseUint64(TrimSuffix(s, unit))
    case Ok(size) => Ok(Wrap(size * UnitFactor(ToLower(unit))))
    case Halted(h) => Halted(h)
  }

  lemma AllIsDigit(s: string)
    requires All(s, IsDigit)
    ensures AllDigits(s)
  {
    forall i | 0 <= i < |s| ensures IsDigit(s[i]) { assert IsDigit(s[i]); }
  }

  /**
   * A size written as digits and a unit is the digits' value times the
   * factor of the unit, compared without regard to case.
   */
  lemma ParseDataSizeValue(digits: string, unit: string)
    requires digits != [] && AllDigits(digits) && DecimalValue(digits) < TWO_62
    requires unit == [] || !IsDigit(unit[0])
    ensures ParseDataSize(digits + unit) == Ok(Wrap(DecimalValue(digits) * UnitFactor(ToLower(unit))))
  {
    var s := digits + unit;
    TrimLeftDigits(digits, unit);
    assert TrimSuffix(s, unit) == digits;
    DecimalCanonical(digits);
  }

  /** The digits of `digits + unit` are exactly `digits`. */
  lemma {:induction false} TrimLeftDigits(digits: string, unit: string)
    requires AllDigits(digits)
    requires unit == [] || !IsDigit(unit[0])
    ensures TrimLeft(digits + unit, IsDigit) == unit
    decreases |digits|
  {
    if digits == [] {
      assert digits + unit == unit;
    } else {
      assert (digits + unit)[0] == digits[0];
      assert (digits + unit)[1..] == digits[1..] + unit;
      TrimLeftDigits(digits[1..], unit);
    }
  }

  /** A digit string below 2^62 parses to its value (leading zeros allowed). */
  lemma DecimalCanonical(digits: string)
    requires digits != [] && AllDigits(digits) && DecimalValue(digits) < TWO_62
    ensures ParseUint64(digits) == Ok(DecimalValue(digits))
  {
  }

  /** Without leading digits there is no size, and the process ends. */
  lemma ParseDataSizeNoDigits(s: string)
    requires s == [] || !IsDigit(s[0])
    ensures ParseDataSize(s).Halted?
  {
    assert TrimLeft(s, IsDigit) == s;
    assert TrimSuffix(s, s) == [];
  }

  /** Memory figures read from the status line: bytes used, bytes total, maximum usage in percent. */
  datatype MemoryUsage = MemoryUsage(used: U64, total: U64, maxPercent: U64)

  /** The key of one `-`-separated segment: the trimmed, lower-cased text before its first colon. */
  function SegmentKey(p: string): string
  {
    ToLower(TrimSpace(Cut(TrimSpace(p), ':')[0]))
  }

  /** The `mem used` value: skipped when it ends in `%`, else the size after the percentage or the whole value. */
  function UsedFigure(acc: MemoryUsage, value: string): (r: Result<MemoryUsage>)
    ensures r.Ok? ==> r.value.total == acc.total && r.value.maxPercent == acc.maxPercent
    ensures HasSuffix(value, "%") ==> r == Ok(acc)
  {
    if HasSuffix(value, "%") then Ok(acc)
    else if '%' in value then
      var memparts := Fields(value);
      if |memparts| < 2 then Halted(Panic("index out of range"))
      else
        match ParseDataSize(memparts[1])
        case Ok(v) => Ok(acc.(used := v))
        case Halted(h) => Halted(h)
    else
      match ParseDataSize(TrimSpace(value))
      case Ok(v) => Ok(acc.(used := v))
      case Halted(h) => Halted(h)
  }

  /** The figure a recognised key sets from its value; a missing value is an index-out-of-range panic. */
  function Figure(acc: MemoryUsage, key: string, value: seq<string>): (r: Result<MemoryUsage>)
    requires |value| <= 1
    ensures key !in {"mem used", "mem total", "max"} ==> r == Ok(acc)
    ensures key in {"mem used", "mem total", "max"} && value == [] ==> r.Halted?
    ensures r.Ok? && key != "mem used" ==> r.value.used == acc.used
    ensures r.Ok? && key != "mem total" ==> r.value.total == acc.total
    ensures r.Ok? && key != "max" ==> r.value.maxPercent == acc.maxPercent
  {
    if key !in {"mem used", "mem total", "max"} then Ok(acc)
    else if value == [] then Halted(Panic("index out of range"))
    else if key == "mem used" then UsedFigure(acc, value[0])
    else if key == "mem total" then
      match ParseDataSize(TrimSpace(value[0]))
      case Ok(v) => Ok(acc.(total := v))
      case Halted(h) => Halted(h)
    else
      match ParseUint64(TrimSuffix(TrimSpace(value[0]), "%"))
      case Ok(v) => Ok(acc.(maxPercent := v))
      case Halted(h) => Halted(h)
  }

  /** One pass of the loop in `parseMemoryString`, over segment `p`. */
  function MemorySegment(acc: MemoryUsage, p: string): Result<MemoryUsage>
  {
    var param := Cut(TrimSpace(p), ':');
    Figure(acc, SegmentKey(p), param[1..])
  }

  /** A segment changes at most the figure its key names, and nothing when its key names none. */
  lemma MemorySegmentKeeps(acc: MemoryUsage, p: string)
    ensures var r := MemorySegment(acc, p);
            && (SegmentKey(p) !in {"mem used", "mem total", "max"} ==> r == Ok(acc))
            && (r.Ok? && SegmentKey(p) != "mem used" ==> r.value.used == acc.used)
            && (r.Ok? && SegmentKey(p) != "mem total" ==> r.value.total == acc.total)
            && (r.Ok? && SegmentKey(p) != "max" ==> r.value.maxPercent == acc.maxPercent)
  {
  }

  /** The loop of `parseMemoryString` from `acc` over the remaining segments. */
  function MemorySegments(acc: MemoryUsage, parts: seq<string>): Result<MemoryUsage>
    decreases |parts|
  {
    if parts == [] then Ok(acc)
    else
      match MemorySegment(acc, parts[0])
      case Ok(next) => MemorySegments(next, parts[1..])
      case Halted(h) => Halted(h)
  }

  /** What `parseMemoryString` computes for a status line. */
  function MemoryOf(memoryUsage: string): Result<MemoryUsage>
  {
    MemorySegments(MemoryUsage(0, 0, 0), Split(memoryUsage, '-'))
  }

  /** `parseMemoryString`: walk the `-`-separated segments, overwriting the three figures. */
  method ParseMemoryString(memoryUsage: string) returns (r: Result<MemoryUsage>)
    ensures r == MemoryOf(memoryUsage)
  {
    var parts := Split(memoryUsage, '-');
    var acc := MemoryUsage(0, 0, 0);
    var i := 0;
    while i < |parts|
      invariant 0 <= i <= |parts|
      invariant MemoryOf(memoryUsage) == MemorySegments(acc, parts[i..])
    {
      var step := MemorySegment(acc, parts[i]);
      MemorySegmentsStep(acc, parts, i, step);
      if step.Halted? {
        return Halted(step.halt);
      }
      acc := step.value;
      i := i + 1;
    }
    return Ok(acc);
  }

  /** One pass of the loop: segment `i` stops the walk or hands its figures on to the rest. */
  lemma MemorySegmentsStep(acc: MemoryUsage, parts: seq<string>, i: nat, step: Result<MemoryUsage>)
    requires i < |parts| && step == MemorySegment(acc, parts[i])
    ensures step.Halted? ==> MemorySegments(acc, parts[i..]) == Halted(step.halt)
    ensures step.Ok? ==> MemorySegments(acc, parts[i..]) == MemorySegments(step.value, parts[i + 1..])
  {
    assert parts[i..][0] == parts[i];
    assert parts[i..][1..] == parts[i + 1..];
  }

  /** No segment of `parts` has key `key`. */
  predicate NoKey(parts: seq<string>, key: string)
  {
    forall k | 0 <= k < |parts| :: SegmentKey(parts[k]) != key
  }

  lemma NoKeyTail(parts: seq<string>, key: string)
    requires parts != [] && NoKey(parts, key)
    ensures SegmentKey(parts[0]) != key && NoKey(parts[1..], key)
  {
    forall k | 0 <= k < |parts| - 1 ensures SegmentKey(parts[1..][k]) != key {
      assert parts[1..][k] == parts[k + 1];
    }
  }

  /** A figure whose key no segment carries keeps its initial value. */
  lemma {:induction false} MemoryUnseenKeys(acc: MemoryUsage, parts: seq<string>)
    requires MemorySegments(acc, parts).Ok?
    ensures var r := MemorySegments(acc, parts).value;
            && (NoKey(parts, "mem used") ==> r.used == acc.used)
            && (NoKey(parts, "mem total") ==> r.total == acc.total)
            && (NoKey(parts, "max") ==> r.maxPercent == acc.maxPercent)
    decreases |parts|
  {
    if parts != [] {
      var step := MemorySegment(acc, parts[0]);
      assert step.Ok?;
      var next := step.value;
      assert MemorySegments(acc, parts) == MemorySegments(next, parts[1..]);
      MemorySegmentKeeps(acc, parts[0]);
      MemoryUnseenKeys(next, parts[1..]);
      if NoKey(parts, "mem used") {
        NoKeyTail(parts, "mem used");
      }
      if NoKey(parts, "mem total") {
        NoKeyTail(parts, "mem total");
      }
      if NoKey(parts, "max") {
        NoKeyTail(parts, "max");
      }
    }
  }

  /** The value a segment carries: its text after the first colon, or nothing without a colon. */
  function SegmentValue(p: string): string
  {
    var param := Cut(TrimSpace(p), ':');
    if |param| == 2 then param[1] else ""
  }

  /**
   * Later segments overwrite earlier ones: whatever the figures read so far
   * (`acc`), a `mem total` segment followed by no other decides the total.
   */
  lemma MemoryLastTotalWins(acc: MemoryUsage, p: string, after: seq<string>)
    requires SegmentKey(p) == "mem total"
    requires NoKey(after, "mem total")
    requires MemorySegments(acc, [p] + after).Ok?
    ensures ParseDataSize(TrimSpace(SegmentValue(p))) == Ok(MemorySegments(acc, [p] + after).value.total)
  {
    var parts := [p] + after;
    assert parts[0] == p && parts[1..] == after;
    var step := MemorySegment(acc, p);
    assert step.Ok?;
    var next := step.value;
    assert ParseDataSize(TrimSpace(SegmentValue(p))) == Ok(next.total);
    assert MemorySegments(acc, parts) == MemorySegments(next, after);
    MemoryUnseenKeys(next, after);
  }

  /** A `max` segment followed by no other decides the percentage. */
  lemma MemoryLastMaxWins(acc: MemoryUsage, p: string, after: seq<string>)
    requires SegmentKey(p) == "max"
    requires NoKey(after, "max")
    requires MemorySegments(acc, [p] + after).Ok?
    ensures ParseUint64(TrimSuffix(TrimSpace(SegmentValue(p)), "%")) == Ok(MemorySegments(acc, [p] + after).value.maxPercent)
  {
    var parts := [p] + after;
    assert parts[0] == p && parts[1..] == after;
    var step := MemorySegment(acc, p);
    assert step.Ok?;
    var next := step.value;
    assert ParseUint64(TrimSuffix(TrimSpace(SegmentValue(p)), "%")) == Ok(next.maxPercent);
    assert MemorySegments(acc, parts) == MemorySegments(next, after);
    MemoryUnseenKeys(next, after);
  }

  /** Every `mem used` segment of `parts` carries a value ending in `%`, which the loop skips. */
  predicate OnlyPercentUsed(parts: seq<string>)
  {
    forall k | 0 <= k < |parts| :: SegmentKey(parts[k]) == "mem used" ==> HasSuffix(SegmentValue(parts[k]), "%")
  }

  lemma OnlyPercentUsedTail(parts: seq<string>)
    requires parts != [] && OnlyPercentUsed(parts)
    ensures SegmentKey(parts[0]) == "mem used" ==> HasSuffix(SegmentValue(parts[0]), "%")
    ensures OnlyPercentUsed(parts[1..])
  {
    forall k | 0 <= k < |parts| - 1
      ensures SegmentKey(parts[1..][k]) == "mem used" ==> HasSuffix(SegmentValue(parts[1..][k]), "%")
    {
      assert parts[1..][k] == parts[k + 1];
    }
  }

  /** Segments whose `mem used` values all end in `%` leave the used figure as it was. */
  lemma {:induction false} MemoryPercentUsedKeeps(acc: MemoryUsage, parts: seq<string>)
    requires OnlyPercentUsed(parts)
    requires MemorySegments(acc, parts).Ok?
    ensures MemorySegments(acc, parts).value.used == acc.used
    decreases |parts|
  {
    if parts != [] {
      var step := MemorySegment(acc, parts[0]);
      assert step.Ok?;
      var next := step.value;
      assert MemorySegments(acc, parts) == MemorySegments(next, parts[1..]);
      OnlyPercentUsedTail(parts);
      MemorySegmentKeeps(acc, parts[0]);
      MemoryPercentUsedKeeps(next, parts[1..]);
    }
  }

  /**
   * The last `mem used` segment whose value does not end in `%` decides the
   * used figure: later `mem used` segments ending in `%` are skipped.
   */
  lemma MemoryLastUsedWins(acc: MemoryUsage, p: string, after: seq<string>)
    requires SegmentKey(p) == "mem used" && !HasSuffix(SegmentValue(p), "%")
    requires OnlyPercentUsed(after)
    requires MemorySegments(acc, [p] + after).Ok?
    ensures UsedFigure(acc, SegmentValue(p)).Ok?
    ensures MemorySegments(acc, [p] + after).value.used == UsedFigure(acc, SegmentValue(p)).value.used
  {
    var parts := [p] + after;
    assert parts[0] == p && parts[1..] == after && parts[0..] == parts;
    var step := MemorySegment(acc, p);
    MemorySegmentsStep(acc, parts, 0, step);
    UsedSegment(acc, p);
    MemoryPercentUsedKeeps(step.value, after);
  }

  /** A `mem used` segment that reads is `UsedFigure` of its value. */
  lemma UsedSegment(acc: MemoryUsage, p: string)
    requires SegmentKey(p) == "mem used" && MemorySegment(acc, p).Ok?
    ensures MemorySegment(acc, p) == UsedFigure(acc, SegmentValue(p))
  {
    var param := Cut(TrimSpace(p), ':');
    assert |param| == 2;
    assert param[1..] == [param[1]];
  }

  /** The segments of a concatenation are read in two runs, the second from where the first ended. */
  lemma {:induction false} MemorySegmentsAppend(acc: MemoryUsage, a: seq<string>, b: seq<string>)
    ensures MemorySegments(acc, a + b) ==
            match MemorySegments(acc, a)
            case Ok(mid) => MemorySegments(mid, b)
            case Halted(h) => Halted(h)
    decreases |a|
  {
    if a == [] {
      assert a + b == b;
    } else {
      assert (a + b)[0] == a[0];
      assert (a + b)[1..] == a[1..] + b;
      var step := MemorySegment(acc, a[0]);
      if step.Ok? {
        MemorySegmentsAppend(step.value, a[1..], b);
      }
    }
  }

  /** The code of one non-empty state: active 1, inactive or passive 0, anything else 2. */
  function StateCode(s: string): U64
  {
    if s == "active" then 1 else if s == "inactive" || s == "passive" then 0 else 2
  }

  /**
   * `parseProcessStateString`: the first non-empty candidate decides (1, 0
   * or 2); 3 when every candidate is empty.
   */
  function ParseProcessState(states: seq<string>): (r: U64)
    ensures r <= 3
    ensures r == 3 <==> forall i | 0 <= i < |states| :: states[i] == ""
    ensures forall i | 0 <= i < |states| && states[i] != "" && (forall j | 0 <= j < i :: states[j] == "") ::
              r == StateCode(states[i])
  {
    if states == [] then 3
    else if states[0] != "" then StateCode(states[0])
    else
      var r := ParseProcessState(states[1..]);
      assert forall i | 1 <= i < |states| :: states[i] == states[1..][i - 1];
      r
  }

  /** `parseQueueStateString`: 1 exactly when the status starts with `OK`, else 0. */
  function ParseQueueState(state: string): (r: U64)
    ensures r == 1 <==> HasPrefix(state, "OK")
    ensures r == 0 || r == 1
  {
    if HasPrefix(state, "OK") then 1 else 0
  }
}
