/**
 * The two status-line dialects the exporter has to read (C5 releases 6.0
 * and 6.2), worked through `parseMemoryString` segment by segment, for any
 * figures written in them.
 */
module MemorySamples {
  import opened Wrappers
  import opened GoStrings
  import opened Strconv
  import opened Scalars

  const MEGA: nat := 1024 * 1024

  /** A `key: value` segment of the status line, with the spaces around it. */
  function Segment(lead: string, key: string, value: string, trail: string): string
  {
    lead + key + ":" + value + trail
  }

  /** The colon-separated halves of such a segment. */
  lemma SegmentParam(lead: string, key: string, value: string, trail: string)
    requires All(lead, IsSpace) && All(trail, IsSpace)
    requires key != [] && !IsSpace(key[0]) && ':' !in key
    requires value != [] && !IsSpace(value[|value| - 1])
    ensures Cut(TrimSpace(Segment(lead, key, value, trail)), ':') == [key, value]
  {
    var w := key + ":" + value;
    assert Segment(lead, key, value, trail) == lead + w + trail;
    assert w[0] == key[0] && w[|w| - 1] == value[|value| - 1];
    TrimOf(lead, w, trail, IsSpace);
    assert w == key + [':'] + value;
    CutAt(key, ':', value);
  }

  /** Such a segment is read as its lower-cased key and its value. */
  lemma SegmentOf(acc: MemoryUsage, lead: string, key: string, value: string, trail: string)
    requires All(lead, IsSpace) && All(trail, IsSpace)
    requires key != [] && !IsSpace(key[0]) && !IsSpace(key[|key| - 1]) && ':' !in key
    requires value != [] && !IsSpace(value[|value| - 1])
    ensures MemorySegment(acc, Segment(lead, key, value, trail)) == Figure(acc, ToLower(key), [value])
  {
    SegmentParam(lead, key, value, trail);
    assert TrimSpace(key) == key by {
      TrimOf("", key, "", IsSpace);
      assert "" + key + "" == key;
    }
    SegmentHalves(acc, Segment(lead, key, value, trail), key, value);
  }

  /** A segment whose halves are a trimmed key and a value. */
  lemma SegmentHalves(acc: MemoryUsage, p: string, key: string, value: string)
    requires Cut(TrimSpace(p), ':') == [key, value] && TrimSpace(key) == key
    ensures MemorySegment(acc, p) == Figure(acc, ToLower(key), [value])
  {
    assert Cut(TrimSpace(p), ':')[1..] == [value];
  }

  /** A size after one space: its digits times the unit's factor. */
  lemma SizeValue(n: nat, unit: string)
    requires n < TWO_62
    requires unit != [] && !IsDigit(unit[0]) && !IsSpace(unit[|unit| - 1])
    ensures ParseDataSize(TrimSpace(" " + NatToDecimal(n) + unit)) == Ok(Wrap(n * UnitFactor(ToLower(unit))))
  {
    var digits := NatToDecimal(n);
    var w := digits + unit;
    assert " " + digits + unit == " " + w + "";
    assert w[0] == digits[0] && w[|w| - 1] == unit[|unit| - 1];
    assert IsDigit(digits[0]);
    TrimOf(" ", w, "", IsSpace);
    ParseDataSizeValue(digits, unit);
  }

  /** A segment read first hands its figures on to the segments after it. */
  lemma SegmentsCons(acc: MemoryUsage, p: string, next: MemoryUsage, rest: seq<string>)
    requires MemorySegment(acc, p) == Ok(next)
    ensures MemorySegments(acc, [p] + rest) == MemorySegments(next, rest)
  {
    assert ([p] + rest)[0] == p;
    assert ([p] + rest)[1..] == rest;
  }

  /** A line of one segment. */
  lemma SegmentsOne(acc: MemoryUsage, p: string, next: MemoryUsage)
    requires MemorySegment(acc, p) == Ok(next)
    ensures MemorySegments(acc, [p]) == Ok(next)
  {
    assert [p][1..] == [];
  }

  lemma DecimalNoSeparators(n: nat)
    ensures NatToDecimal(n) != [] && !IsSpace(NatToDecimal(n)[|NatToDecimal(n)| - 1])
    ensures '-' !in NatToDecimal(n) && ':' !in NatToDecimal(n) && '%' !in NatToDecimal(n)
    ensures NoSpace(NatToDecimal(n))
  {
    var d := NatToDecimal(n);
    assert forall i | 0 <= i < |d| :: IsDigit(d[i]);
  }

  /** What a segment key must look like to be read back whole. */
  predicate KeyShape(key: string)
  {
    key != [] && !IsSpace(key[0]) && !IsSpace(key[|key| - 1]) && ':' !in key && '-' !in key
  }

  const FIGURES: set<string> := {"mem used", "mem total", "max"}

  /** How a release spells the five keys of its status line. */
  datatype Spelling = Spelling(heading: string, used: string, total: string, max: string, counter: string)

  /**
   * Keys that read back whole: the heading and the counter name no figure,
   * the other three lower-case to the figure they name.
   */
  predicate Readable(k: Spelling)
  {
    && KeyShape(k.heading) && ToLower(k.heading) !in FIGURES
    && KeyShape(k.used) && ToLower(k.used) == "mem used"
    && KeyShape(k.total) && ToLower(k.total) == "mem total"
    && KeyShape(k.max) && ToLower(k.max) == "max"
    && KeyShape(k.counter) && ToLower(k.counter) !in FIGURES
  }

  lemma HeadingKey(key: string)
    requires key == "C5 Heap Health" || key == "UpdCtr"
    ensures KeyShape(key) && ToLower(key) !in FIGURES
  {
  }

  /** The two `Mem …` keys, each spelled with a capital first letter. */
  lemma MemKey(key: string, lower: string)
    requires (key == "Mem used" && lower == "mem used") || (key == "Mem total" && lower == "mem total")
    ensures KeyShape(key) && ToLower(key) == lower
  {
    LowerLiteral(key, lower);
  }

  lemma MaxKey(key: string)
    requires key == "Max" || key == "MAX"
    ensures KeyShape(key) && ToLower(key) == "max"
  {
    LowerLiteral(key, "max");
  }

  /** The keys of release 6.0. */
  lemma R60Keys(k: Spelling)
    requires k == Spelling("C5 Heap Health", "Mem used", "Mem total", "Max", "UpdCtr")
    ensures Readable(k)
  {
    HeadingKey(k.heading);
    MemKey(k.used, "mem used");
    MemKey(k.total, "mem total");
    MaxKey(k.max);
    HeadingKey(k.counter);
  }

  /** The keys of release 6.2: the maximum is spelled in capitals. */
  lemma R62Keys(k: Spelling)
    requires k == Spelling("C5 Heap Health", "Mem used", "Mem total", "MAX", "UpdCtr")
    ensures Readable(k)
  {
    HeadingKey(k.heading);
    MemKey(k.used, "mem used");
    MemKey(k.total, "mem total");
    MaxKey(k.max);
    HeadingKey(k.counter);
  }

  /** A segment whose key names no figure changes nothing. */
  lemma OtherSegment(acc: MemoryUsage, lead: string, key: string, value: string, trail: string)
    requires All(lead, IsSpace) && All(trail, IsSpace)
    requires KeyShape(key) && ToLower(key) !in FIGURES
    requires value != [] && !IsSpace(value[|value| - 1])
    ensures MemorySegment(acc, Segment(lead, key, value, trail)) == Ok(acc)
  {
    SegmentOf(acc, lead, key, value, trail);
  }

  lemma LowerLiteral(k: string, t: string)
    requires |k| == |t| && forall i | 0 <= i < |k| :: LowerChar(k[i]) == t[i]
    ensures ToLower(k) == t
  {
    ToLowerChars(k);
  }

  /** `Mem used: P%` (the 6.0 percentage form) is skipped. */
  lemma UsedPercentSegment(acc: MemoryUsage, key: string, pct: nat)
    requires KeyShape(key) && ToLower(key) == "mem used"
    ensures MemorySegment(acc, Segment(" ", key, " " + NatToDecimal(pct) + "%", "  ")) == Ok(acc)
  {
    SegmentOf(acc, " ", key, " " + NatToDecimal(pct) + "%", "  ");
  }
  lemma MegaUnit()
    ensures UnitFactor(ToLower("MB")) == MEGA
  {
  }
  /** A size in megabytes after one space. */
  lemma MegaValue(n: nat)
    requires n < TWO_62
    ensures ParseDataSize(TrimSpace(" " + NatToDecimal(n) + "MB")) == Ok(Wrap(n * MEGA))
  {
    SizeValue(n, "MB");
    MegaUnit();
  }
  /** `Mem used: U MB` (the 6.0 size form) sets the bytes used. */
  lemma UsedSizeSegment(acc: MemoryUsage, key: string, u: nat)
    requires KeyShape(key) && ToLower(key) == "mem used"
    requires u < TWO_62
    ensures MemorySegment(acc, Segment(" ", key, " " + NatToDecimal(u) + "MB", "  "))
            == Ok(acc.(used := Wrap(u * MEGA)))
  {
    var value := " " + NatToDecimal(u) + "MB";
    SegmentOf(acc, " ", key, value, "  ");
    assert Figure(acc, "mem used", [value]) == UsedFigure(acc, value);
    UsedMega(acc, u);
  }
  lemma UsedMega(acc: MemoryUsage, u: nat)
    requires u < TWO_62
    ensures UsedFigure(acc, " " + NatToDecimal(u) + "MB") == Ok(acc.(used := Wrap(u * MEGA)))
  {
    var value := " " + NatToDecimal(u) + "MB";
    DecimalNoSeparators(u);
    assert '%' !in value;
    MegaValue(u);
    UsedFigureSize(acc, value);
  }
  /** A `mem used` value without a percentage is a plain size. */
  lemma UsedFigureSize(acc: MemoryUsage, value: string)
    requires '%' !in value
    ensures UsedFigure(acc, value) ==
            match ParseDataSize(TrimSpace(value))
            case Ok(v) => Ok(acc.(used := v))
            case Halted(h) => Halted(h)
  {
    assert !HasSuffix(value, "%") by {
      if |value| >= 1 {
        assert value[|value| - 1] in value;
      }
    }
  }
  /** `Mem total: T MB` sets the total bytes. */
  lemma TotalSegment(acc: MemoryUsage, key: string, t: nat)
    requires KeyShape(key) && ToLower(key) == "mem total"
    requires t < TWO_62
    ensures MemorySegment(acc, Segment(" ", key, " " + NatToDecimal(t) + "MB", "  "))
            == Ok(acc.(total := Wrap(t * MEGA)))
  {
    SegmentOf(acc, " ", key, " " + NatToDecimal(t) + "MB", "  ");
    MegaValue(t);
  }
  /** `Max: M%` (in any case) sets the maximum usage. */
  lemma MaxSegment(acc: MemoryUsage, key: string, m: nat)
    requires KeyShape(key) && ToLower(key) == "max"
    requires m < TWO_62
    ensures MemorySegment(acc, Segment(" ", key, " " + NatToDecimal(m) + "%", " "))
            == Ok(acc.(maxPercent := m))
  {
    SegmentOf(acc, " ", key, " " + NatToDecimal(m) + "%", " ");
    PercentValue(m);
  }
  /** A percentage after one space, read without its `%`. */
  lemma PercentValue(m: nat)
    requires m < TWO_62
    ensures ParseUint64(TrimSuffix(TrimSpace(" " + NatToDecimal(m) + "%"), "%")) == Ok(m)
  {
    var d := NatToDecimal(m);
    DecimalNoSeparators(m);
    var w := d + "%";
    assert " " + d + "%" == " " + w + "";
    assert w[0] == d[0];
    TrimOf(" ", w, "", IsSpace);
    assert TrimSuffix(w, "%") == d;
    ParseUint64Decimal(m);
  }
  /** Keys without a `-` keep every segment free of the separator. */
  lemma NoDash(lead: string, key: string, value: string, trail: string)
    requires '-' !in lead && '-' !in key && '-' !in value && '-' !in trail
    ensures '-' !in Segment(lead, key, value, trail)
  {
  }
  /** Three segments read one after the other. */
  lemma Walk3(acc0: MemoryUsage, p: string, acc1: MemoryUsage, q: string, acc2: MemoryUsage, r: string, acc3: MemoryUsage)
    requires MemorySegment(acc0, p) == Ok(acc1)
    requires MemorySegment(acc1, q) == Ok(acc2)
    requires MemorySegment(acc2, r) == Ok(acc3)
    ensures MemorySegments(acc0, [p, q, r]) == Ok(acc3)
  {
    Walk2(acc1, q, acc2, r, acc3);
    SegmentsCons(acc0, p, acc1, [q, r]);
    assert [p] + [q, r] == [p, q, r];
  }
  /** The total, the maximum and the update counter, as both dialects end. */
  function Trailer(k: Spelling, t: nat, m: nat, upd: nat): seq<string>
  {
    [Segment(" ", k.total, " " + NatToDecimal(t) + "MB", "  "),
     Segment(" ", k.max, " " + NatToDecimal(m) + "%", " "),
     Segment(" ", k.counter, " " + NatToDecimal(upd), "")]
  }

  /** The heading and the two `mem used` segments of the 6.0 line: a percentage, then a size. */
  function R60Head(k: Spelling, pct: nat, u: nat): seq<string>
  {
    [Segment("", k.heading, " OK", "  "),
     Segment(" ", k.used, " " + NatToDecimal(pct) + "%", "  "),
     Segment(" ", k.used, " " + NatToDecimal(u) + "MB", "  ")]
  }

  /**
   * The 6.0 status line, e.g. with the keys of `R60Keys` and figures
   * 18, 383, 2048, 18, 60793:
   * `C5 Heap Health: OK  - Mem used: 18%  - Mem used: 383MB  - Mem total: 2048MB  - Max: 18% - UpdCtr: 60793`
   */
  function R60Line(k: Spelling, pct: nat, u: nat, t: nat, m: nat, upd: nat): string
  {
    Join(R60Head(k, pct, u) + Trailer(k, t, m, upd), "-")
  }

  lemma TrailerNoDash(k: Spelling, t: nat, m: nat, upd: nat)
    requires Readable(k)
    ensures forall i | 0 <= i < 3 :: '-' !in Trailer(k, t, m, upd)[i]
  {
    DecimalNoSeparators(t);
    DecimalNoSeparators(m);
    DecimalNoSeparators(upd);
    NoDash(" ", k.total, " " + NatToDecimal(t) + "MB", "  ");
    NoDash(" ", k.max, " " + NatToDecimal(m) + "%", " ");
    NoDash(" ", k.counter, " " + NatToDecimal(upd), "");
  }

  lemma R60HeadNoDash(k: Spelling, pct: nat, u: nat)
    requires Readable(k)
    ensures forall i | 0 <= i < 3 :: '-' !in R60Head(k, pct, u)[i]
  {
    DecimalNoSeparators(pct);
    DecimalNoSeparators(u);
    NoDash("", k.heading, " OK", "  ");
    NoDash(" ", k.used, " " + NatToDecimal(pct) + "%", "  ");
    NoDash(" ", k.used, " " + NatToDecimal(u) + "MB", "  ");
  }

  /** The trailer sets the total and the maximum and keeps the bytes used. */
  lemma TrailerWalk(acc: MemoryUsage, k: Spelling, t: nat, m: nat, upd: nat)
    requires Readable(k)
    requires t < TWO_62 && m < TWO_62
    ensures MemorySegments(acc, Trailer(k, t, m, upd)) == Ok(acc.(total := Wrap(t * MEGA), maxPercent := m))
  {
    var acc1 := acc.(total := Wrap(t * MEGA));
    var acc2 := acc1.(maxPercent := m);
    TotalSegment(acc, k.total, t);
    MaxSegment(acc1, k.max, m);
    DecimalNoSeparators(upd);
    OtherSegment(acc2, " ", k.counter, " " + NatToDecimal(upd), "");
    Walk3(acc, Segment(" ", k.total, " " + NatToDecimal(t) + "MB", "  "), acc1,
          Segment(" ", k.max, " " + NatToDecimal(m) + "%", " "), acc2,
          Segment(" ", k.counter, " " + NatToDecimal(upd), ""), acc2);
  }

  lemma R60HeadWalk(k: Spelling, pct: nat, u: nat)
    requires Readable(k)
    requires u < TWO_62
    ensures MemorySegments(MemoryUsage(0, 0, 0), R60Head(k, pct, u)) == Ok(MemoryUsage(Wrap(u * MEGA), 0, 0))
  {
    var acc0 := MemoryUsage(0, 0, 0);
    var acc1 := acc0.(used := Wrap(u * MEGA));
    OtherSegment(acc0, "", k.heading, " OK", "  ");
    UsedPercentSegment(acc0, k.used, pct);
    UsedSizeSegment(acc0, k.used, u);
    Walk3(acc0, Segment("", k.heading, " OK", "  "), acc0,
          Segment(" ", k.used, " " + NatToDecimal(pct) + "%", "  "), acc0,
          Segment(" ", k.used, " " + NatToDecimal(u) + "MB", "  "), acc1);
  }

  /**
   * The 6.0 dialect: the percentage form of `mem used` comes first and is
   * skipped, the size form after it is the bytes used, and the maximum is
   * read without its `%`.
   */
  lemma R60Dialect(k: Spelling, pct: nat, u: nat, t: nat, m: nat, upd: nat)
    requires Readable(k)
    requires u < TWO_62 && t < TWO_62 && m < TWO_62
    ensures MemoryOf(R60Line(k, pct, u, t, m, upd)) == Ok(MemoryUsage(Wrap(u * MEGA), Wrap(t * MEGA), m))
  {
    var head := R60Head(k, pct, u);
    var tail := Trailer(k, t, m, upd);
    R60HeadNoDash(k, pct, u);
    TrailerNoDash(k, t, m, upd);
    assert forall i | 0 <= i < 6 :: '-' !in (head + tail)[i] by {
      forall i | 0 <= i < 6 ensures '-' !in (head + tail)[i] {
        if i >= 3 { assert (head + tail)[i] == tail[i - 3]; }
      }
    }
    SplitJoin(head + tail, '-');
    R60HeadWalk(k, pct, u);
    TrailerWalk(MemoryUsage(Wrap(u * MEGA), 0, 0), k, t, m, upd);
    MemorySegmentsAppend(MemoryUsage(0, 0, 0), head, tail);
  }

  /** The `mem used` value of the 6.2 line: a percentage, a size, and the minimum and maximum seen. */
  function R62UsedValue(pct: nat, u: nat, lo: nat, hi: nat): string
  {
    " " + NatToDecimal(pct) + "%" + "  " + NatToDecimal(u) + "MB" + "  (min: " + NatToDecimal(lo) + " max: " + NatToDecimal(hi) + ")"
  }

  /** The heading and the single `mem used` segment of the 6.2 line. */
  function R62Head(k: Spelling, pct: nat, u: nat, lo: nat, hi: nat): seq<string>
  {
    [Segment("", k.heading, " OK", "  "),
     Segment(" ", k.used, R62UsedValue(pct, u, lo, hi), "  ")]
  }

  /**
   * The 6.2 status line, e.g. with the keys of `R62Keys` and figures
   * 3, 76, 76, 76, 2048, 3, 92205:
   * `C5 Heap Health: OK  - Mem used: 3%  76MB  (min: 76 max: 76)  - Mem total: 2048MB  - MAX: 3% - UpdCtr: 92205`
   */
  function R62Line(k: Spelling, pct: nat, u: nat, lo: nat, hi: nat, t: nat, m: nat, upd: nat): string
  {
    Join(R62Head(k, pct, u, lo, hi) + Trailer(k, t, m, upd), "-")
  }

  lemma NoSpaceConcat(a: string, b: string)
    requires NoSpace(a) && NoSpace(b)
    ensures NoSpace(a + b)
  {
    forall i | 0 <= i < |a + b| ensures !IsSpace((a + b)[i]) {
      if i >= |a| { assert (a + b)[i] == b[i - |a|]; }
    }
  }

  /** Two words after spaces are the first two fields. */
  lemma FieldsTwo(sp1: string, w1: string, sp2: string, w2: string, tail: string)
    requires All(sp1, IsSpace) && All(sp2, IsSpace) && sp2 != []
    requires w1 != [] && NoSpace(w1) && w2 != [] && NoSpace(w2)
    requires tail == [] || IsSpace(tail[0])
    ensures Fields(sp1 + w1 + sp2 + w2 + tail) == [w1, w2] + Fields(tail)
  {
    var r2 := w2 + tail;
    var r1 := sp2 + r2;
    Regroup(sp1, w1, sp2, w2, tail);
    FieldsSkipSpace(sp1, w1 + r1);
    assert IsSpace(r1[0]) by { assert r1[0] == sp2[0]; }
    FieldsCons(w1, r1);
    FieldsSkipSpace(sp2, r2);
    FieldsCons(w2, tail);
    ConsTwo(w1, w2, Fields(tail));
  }

  lemma Regroup(a: string, b: string, c: string, d: string, e: string)
    ensures a + b + c + d + e == a + (b + (c + (d + e)))
  {
  }

  lemma Regroup10(x0: string, x1: string, x2: string, x3: string, x4: string, x5: string,
                  x6: string, x7: string, x8: string, x9: string, x10: string)
    ensures x0 + x1 + x2 + x3 + x4 + x5 + x6 + x7 + x8 + x9 + x10
            == x0 + (x1 + x2) + x3 + (x4 + x5) + (x6 + x7 + x8 + x9 + x10)
  {
  }

  lemma ConsTwo<T>(x: T, y: T, t: seq<T>)
    ensures [x] + ([y] + t) == [x, y] + t
  {
  }

  /** The second field of the 6.2 `mem used` value is the size. */
  lemma R62UsedFields(pct: nat, u: nat, lo: nat, hi: nat)
    ensures var f := Fields(R62UsedValue(pct, u, lo, hi)); |f| >= 2 && f[1] == NatToDecimal(u) + "MB"
  {
    var w1 := NatToDecimal(pct) + "%";
    var w2 := NatToDecimal(u) + "MB";
    var tail := "  (min: " + NatToDecimal(lo) + " max: " + NatToDecimal(hi) + ")";
    Regroup10(" ", NatToDecimal(pct), "%", "  ", NatToDecimal(u), "MB", "  (min: ", NatToDecimal(lo), " max: ", NatToDecimal(hi), ")");
    DecimalNoSeparators(pct);
    DecimalNoSeparators(u);
    NoSpaceConcat(NatToDecimal(pct), "%");
    NoSpaceConcat(NatToDecimal(u), "MB");
    FieldsTwo(" ", w1, "  ", w2, tail);
  }

  lemma R62UsedValueShape(pct: nat, u: nat, lo: nat, hi: nat)
    ensures var v := R62UsedValue(pct, u, lo, hi);
            && v != [] && v[|v| - 1] == ')' && !HasSuffix(v, "%") && '%' in v && '-' !in v
  {
    var v := R62UsedValue(pct, u, lo, hi);
    DecimalNoSeparators(pct);
    DecimalNoSeparators(u);
    DecimalNoSeparators(lo);
    DecimalNoSeparators(hi);
    assert v[1 + |NatToDecimal(pct)|] == '%';
  }

  /** The 6.2 `mem used` value sets the bytes used from the size after the percentage. */
  lemma R62UsedFigure(acc: MemoryUsage, pct: nat, u: nat, lo: nat, hi: nat)
    requires u < TWO_62
    ensures UsedFigure(acc, R62UsedValue(pct, u, lo, hi)) == Ok(acc.(used := Wrap(u * MEGA)))
  {
    R62UsedValueShape(pct, u, lo, hi);
    R62UsedFields(pct, u, lo, hi);
    var d := NatToDecimal(u);
    assert IsDigit(d[0]) && d != [];
    ParseDataSizeValue(d, "MB");
    MegaUnit();
  }

  lemma R62UsedSegment(acc: MemoryUsage, key: string, pct: nat, u: nat, lo: nat, hi: nat)
    requires KeyShape(key) && ToLower(key) == "mem used"
    requires u < TWO_62
    ensures MemorySegment(acc, Segment(" ", key, R62UsedValue(pct, u, lo, hi), "  "))
            == Ok(acc.(used := Wrap(u * MEGA)))
  {
    var value := R62UsedValue(pct, u, lo, hi);
    R62UsedValueShape(pct, u, lo, hi);
    SegmentOf(acc, " ", key, value, "  ");
    assert Figure(acc, "mem used", [value]) == UsedFigure(acc, value);
    R62UsedFigure(acc, pct, u, lo, hi);
  }

  lemma R62HeadWalk(k: Spelling, pct: nat, u: nat, lo: nat, hi: nat)
    requires Readable(k)
    requires u < TWO_62
    ensures MemorySegments(MemoryUsage(0, 0, 0), R62Head(k, pct, u, lo, hi)) == Ok(MemoryUsage(Wrap(u * MEGA), 0, 0))
  {
    var acc0 := MemoryUsage(0, 0, 0);
    var acc1 := acc0.(used := Wrap(u * MEGA));
    OtherSegment(acc0, "", k.heading, " OK", "  ");
    R62UsedSegment(acc0, k.used, pct, u, lo, hi);
    Walk2(acc0, Segment("", k.heading, " OK", "  "), acc0,
          Segment(" ", k.used, R62UsedValue(pct, u, lo, hi), "  "), acc1);
  }

  /** Two segments read one after the other. */
  lemma Walk2(acc0: MemoryUsage, p: string, acc1: MemoryUsage, q: string, acc2: MemoryUsage)
    requires MemorySegment(acc0, p) == Ok(acc1)
    requires MemorySegment(acc1, q) == Ok(acc2)
    ensures MemorySegments(acc0, [p, q]) == Ok(acc2)
  {
    SegmentsOne(acc1, q, acc2);
    SegmentsCons(acc0, p, acc1, [q]);
    assert [p] + [q] == [p, q];
  }

  /**
   * The 6.2 dialect: one `mem used` segment carries the percentage and then
   * the size, which is the bytes used; the capitalised `MAX` is the maximum.
   */
  lemma R62Dialect(k: Spelling, pct: nat, u: nat, lo: nat, hi: nat, t: nat, m: nat, upd: nat)
    requires Readable(k)
    requires u < TWO_62 && t < TWO_62 && m < TWO_62
    ensures MemoryOf(R62Line(k, pct, u, lo, hi, t, m, upd)) == Ok(MemoryUsage(Wrap(u * MEGA), Wrap(t * MEGA), m))
  {
    var head := R62Head(k, pct, u, lo, hi);
    var tail := Trailer(k, t, m, upd);
    R62UsedValueShape(pct, u, lo, hi);
    NoDash("", k.heading, " OK", "  ");
    NoDash(" ", k.used, R62UsedValue(pct, u, lo, hi), "  ");
    TrailerNoDash(k, t, m, upd);
    assert forall i | 0 <= i < 5 :: '-' !in (head + tail)[i] by {
      forall i | 0 <= i < 5 ensures '-' !in (head + tail)[i] {
        if i >= 2 { assert (head + tail)[i] == tail[i - 2]; }
      }
    }
    SplitJoin(head + tail, '-');
    R62HeadWalk(k, pct, u, lo, hi);
    TrailerWalk(MemoryUsage(Wrap(u * MEGA), 0, 0), k, t, m, upd);
    MemorySegmentsAppend(MemoryUsage(0, 0, 0), head, tail);
  }

  /**
   * The 6.0 sample: 383 MB used of 2048 MB, at most 18%.  The key spelling
   * is a parameter pinned by the requires rather than a literal in the
   * ensures, so that the solver reasons about the keys through R60Keys
   * instead of unfolding the whole sample line character by character.
   */
  lemma R60Sample(k: Spelling)
    requires k == Spelling("C5 Heap Health", "Mem used", "Mem total", "Max", "UpdCtr")
    ensures MemoryOf(R60Line(k, 18, 383, 2048, 18, 60793)) == Ok(MemoryUsage(383 * MEGA, 2048 * MEGA, 18))
  {
    R60Keys(k);
    R60Dialect(k, 18, 383, 2048, 18, 60793);
  }

  /** The 6.2 sample: 76 MB used of 2048 MB, at most 3%; the spelling is pinned as in R60Sample. */
  lemma R62Sample(k: Spelling)
    requires k == Spelling("C5 Heap Health", "Mem used", "Mem total", "MAX", "UpdCtr")
    ensures MemoryOf(R62Line(k, 3, 76, 76, 76, 2048, 3, 92205)) == Ok(MemoryUsage(76 * MEGA, 2048 * MEGA, 3))
  {
    R62Keys(k);
    R62Dialect(k, 3, 76, 76, 76, 2048, 3, 92205);
  }
}
