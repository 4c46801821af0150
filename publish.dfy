/**
 * Publishing counters into the metric store.  `setUsageMetric` stores a
 * usage counter under four names, `<name>_current`, `_lastmin`, `_lastavg`
 * and `_lastmax`; `setCounterMetric` stores an event counter's total under
 * `<name>_total`.  The labeled variants keep the counter's name in a key,
 * `current{<key>="<name>"}`, instead of in the metric name.  Every name
 * goes through `buildMetricName`, so it is lower-cased and carries the
 * counter's sub-row index.
 */
module Publish {
  import opened Wrappers
  import opened GoStrings
  import opened Naming
  import opened Counters
  import opened Store

  // ----- The writes of one counter

  /** The four writes of `setUsageMetric`, in the order it makes them. */
  function UsageWrites(prefix: string, c: UsageCounter): seq<Write>
  {
    [Write(BuildMetricName(prefix, c.name + "_current", c.idx), c.current),
     Write(BuildMetricName(prefix, c.name + "_lastmin", c.idx), c.lastMin),
     Write(BuildMetricName(prefix, c.name + "_lastavg", c.idx), c.lastAvg),
     Write(BuildMetricName(prefix, c.name + "_lastmax", c.idx), c.lastMax)]
  }

  /** `key="name"` inside braces after a field name, as the labeled publishers build it. */
  function Labeled(field: string, key: string, name: string): string
  {
    field + "{" + key + "=\"" + name + "\"}"
  }

  /** The four writes of `setLabeledUsageMetric`, in the order it makes them. */
  function LabeledUsageWrites(prefix: string, key: string, c: UsageCounter): seq<Write>
  {
    [Write(BuildMetricName(prefix, Labeled("current", key, c.name), c.idx), c.current),
     Write(BuildMetricName(prefix, Labeled("lastmin", key, c.name), c.idx), c.lastMin),
     Write(BuildMetricName(prefix, Labeled("lastavg", key, c.name), c.idx), c.lastAvg),
     Write(BuildMetricName(prefix, Labeled("lastmax", key, c.name), c.idx), c.lastMax)]
  }

  /** The write of `setCounterMetric`. */
  function CounterWrites(prefix: string, c: EventCounter): seq<Write>
  {
    [Write(BuildMetricName(prefix, c.name + "_total", c.idx), c.total)]
  }

  /** The write of `setLabeledCounterMetric`. */
  function LabeledCounterWrites(prefix: string, key: string, c: EventCounter): seq<Write>
  {
    [Write(BuildMetricName(prefix, Labeled("total", key, c.name), c.idx), c.total)]
  }

  // ----- What the store holds afterwards

  /** The suffix of a usage counter's `i`-th name. */
  function UsageSuffix(i: nat): string
    requires i < 4
  {
    ["_current", "_lastmin", "_lastavg", "_lastmax"][i]
  }

  /** The `i`-th write of `setUsageMetric` goes to the counter's name with the `i`-th suffix. */
  lemma UsageWriteName(prefix: string, c: UsageCounter, i: nat)
    requires i < 4
    ensures UsageWrites(prefix, c)[i].name == BuildMetricName(prefix, c.name + UsageSuffix(i), c.idx)
  {
  }

  /** Two different suffixes have the same length and differ at some position. */
  lemma SuffixesApart(i: nat, j: nat) returns (k: nat)
    requires i < 4 && j < 4 && i != j
    ensures |UsageSuffix(i)| == |UsageSuffix(j)| && k < |UsageSuffix(i)|
    ensures LowerChar(UsageSuffix(i)[k]) != LowerChar(UsageSuffix(j)[k])
  {
    if i == 0 || j == 0 {
      k := 1;
    } else if (i == 1 && j == 3) || (i == 3 && j == 1) {
      k := 6;
    } else {
      k := 5;
    }
  }

  /**
   * Two usage counters of one name never share a published name, unless
   * they are the same suffix at the same index.
   */
  lemma UsageNamesApart(prefix: string, c: UsageCounter, d: UsageCounter, i: nat, j: nat)
    requires c.name == d.name && i < 4 && j < 4
    requires c.idx.Some? && d.idx.Some?
    requires i != j || c.idx != d.idx
    ensures UsageWrites(prefix, c)[i].name != UsageWrites(prefix, d)[j].name
  {
    UsageWriteName(prefix, c, i);
    UsageWriteName(prefix, d, j);
    var sc, sd := c.name + UsageSuffix(i), c.name + UsageSuffix(j);
    if i == j {
      if BuildMetricName(prefix, sc, c.idx) == BuildMetricName(prefix, sd, d.idx) {
        BuildMetricNameIdxInjective(prefix, sc, c.idx.value, d.idx.value);
      }
    } else {
      var k := SuffixesApart(i, j);
      assert sc[|c.name| + k] == UsageSuffix(i)[k] && sd[|c.name| + k] == UsageSuffix(j)[k];
      BuildMetricNameDiffer(prefix, sc, sd, c.idx, d.idx, |c.name| + k);
    }
  }

  /** The four names a usage counter is published under are pairwise different. */
  lemma UsageNamesDistinct(prefix: string, c: UsageCounter)
    ensures var ws := UsageWrites(prefix, c);
            forall i, j | 0 <= i < j < 4 :: ws[i].name != ws[j].name
  {
    forall i, j | 0 <= i < j < 4 ensures UsageWrites(prefix, c)[i].name != UsageWrites(prefix, c)[j].name {
      UsageWriteName(prefix, c, i);
      UsageWriteName(prefix, c, j);
      var k := SuffixesApart(i, j);
      var si, sj := c.name + UsageSuffix(i), c.name + UsageSuffix(j);
      assert si[|c.name| + k] == UsageSuffix(i)[k] && sj[|c.name| + k] == UsageSuffix(j)[k];
      BuildMetricNameDiffer(prefix, si, sj, c.idx, c.idx, |c.name| + k);
    }
  }

  /** The four labeled names of a usage counter are pairwise different. */
  lemma LabeledUsageNamesDistinct(prefix: string, key: string, c: UsageCounter)
    ensures var ws := LabeledUsageWrites(prefix, key, c);
            forall i, j | 0 <= i < j < 4 :: ws[i].name != ws[j].name
  {
    var cur, lmin := Labeled("current", key, c.name), Labeled("lastmin", key, c.name);
    var lavg, lmax := Labeled("lastavg", key, c.name), Labeled("lastmax", key, c.name);
    assert cur[0] == 'c' && lmin[0] == 'l' && lavg[0] == 'l' && lmax[0] == 'l';
    assert lmin[4] == 'm' && lavg[4] == 'a' && lmax[4] == 'm';
    assert lmin[5] == 'i' && lmax[5] == 'a';
    BuildMetricNameDiffer(prefix, cur, lmin, c.idx, c.idx, 0);
    BuildMetricNameDiffer(prefix, cur, lavg, c.idx, c.idx, 0);
    BuildMetricNameDiffer(prefix, cur, lmax, c.idx, c.idx, 0);
    BuildMetricNameDiffer(prefix, lmin, lavg, c.idx, c.idx, 4);
    BuildMetricNameDiffer(prefix, lmin, lmax, c.idx, c.idx, 5);
    BuildMetricNameDiffer(prefix, lavg, lmax, c.idx, c.idx, 4);
  }

  /**
   * After `setUsageMetric`, the counter's current value, last min, last
   * average and last max are stored under its four names, and nothing
   * else in the store has changed.
   */
  lemma UsageReadBack(m: map<string, U64>, prefix: string, c: UsageCounter)
    ensures var s := Apply(m, UsageWrites(prefix, c));
            && BuildMetricName(prefix, c.name + "_current", c.idx) in s
            && BuildMetricName(prefix, c.name + "_lastmin", c.idx) in s
            && BuildMetricName(prefix, c.name + "_lastavg", c.idx) in s
            && BuildMetricName(prefix, c.name + "_lastmax", c.idx) in s
            && s[BuildMetricName(prefix, c.name + "_current", c.idx)] == c.current
            && s[BuildMetricName(prefix, c.name + "_lastmin", c.idx)] == c.lastMin
            && s[BuildMetricName(prefix, c.name + "_lastavg", c.idx)] == c.lastAvg
            && s[BuildMetricName(prefix, c.name + "_lastmax", c.idx)] == c.lastMax
    ensures var s := Apply(m, UsageWrites(prefix, c));
            forall n | n !in Names(UsageWrites(prefix, c)) :: (n in s <==> n in m) && (n in m ==> s[n] == m[n])
  {
    var ws := UsageWrites(prefix, c);
    UsageNamesDistinct(prefix, c);
    ApplyDistinct(m, ws);
    assert ws[0].value == c.current && ws[1].value == c.lastMin && ws[2].value == c.lastAvg && ws[3].value == c.lastMax;
    forall n | n !in Names(ws) ensures (n in Apply(m, ws) <==> n in m) && (n in m ==> Apply(m, ws)[n] == m[n]) {
      ApplyUntouched(m, ws, n);
    }
  }

  /**
   * After `setLabeledUsageMetric`, the counter's four values are stored
   * under its four labeled names, and nothing else has changed.
   */
  lemma LabeledUsageReadBack(m: map<string, U64>, prefix: string, key: string, c: UsageCounter)
    ensures var s := Apply(m, LabeledUsageWrites(prefix, key, c));
            && BuildMetricName(prefix, Labeled("current", key, c.name), c.idx) in s
            && BuildMetricName(prefix, Labeled("lastmin", key, c.name), c.idx) in s
            && BuildMetricName(prefix, Labeled("lastavg", key, c.name), c.idx) in s
            && BuildMetricName(prefix, Labeled("lastmax", key, c.name), c.idx) in s
            && s[BuildMetricName(prefix, Labeled("current", key, c.name), c.idx)] == c.current
            && s[BuildMetricName(prefix, Labeled("lastmin", key, c.name), c.idx)] == c.lastMin
            && s[BuildMetricName(prefix, Labeled("lastavg", key, c.name), c.idx)] == c.lastAvg
            && s[BuildMetricName(prefix, Labeled("lastmax", key, c.name), c.idx)] == c.lastMax
    ensures var s := Apply(m, LabeledUsageWrites(prefix, key, c));
            forall n | n !in Names(LabeledUsageWrites(prefix, key, c)) :: (n in s <==> n in m) && (n in m ==> s[n] == m[n])
  {
    var ws := LabeledUsageWrites(prefix, key, c);
    LabeledUsageNamesDistinct(prefix, key, c);
    ApplyDistinct(m, ws);
    assert ws[0].value == c.current && ws[1].value == c.lastMin && ws[2].value == c.lastAvg && ws[3].value == c.lastMax;
    forall n | n !in Names(ws) ensures (n in Apply(m, ws) <==> n in m) && (n in m ==> Apply(m, ws)[n] == m[n]) {
      ApplyUntouched(m, ws, n);
    }
  }

  /**
   * A row too short to read publishes the zero record: four zero values
   * under `<prefix>__current` and its siblings, an empty name between the
   * two underscores.
   */
  lemma ZeroUsageNames(prefix: string)
    requires prefix != ""
    ensures UsageWrites(prefix, ZERO_USAGE)
            == [Write(ToLower(prefix + "__current"), 0), Write(ToLower(prefix + "__lastmin"), 0),
                Write(ToLower(prefix + "__lastavg"), 0), Write(ToLower(prefix + "__lastmax"), 0)]
  {
    assert "_" + "_current" == "__current" && "_" + "_lastmin" == "__lastmin";
    assert "_" + "_lastavg" == "__lastavg" && "_" + "_lastmax" == "__lastmax";
    EmptyNameQualified(prefix, "_current");
    EmptyNameQualified(prefix, "_lastmin");
    EmptyNameQualified(prefix, "_lastavg");
    EmptyNameQualified(prefix, "_lastmax");
  }

  /** An empty counter name leaves the prefix's `_` right before the suffix. */
  lemma EmptyNameQualified(prefix: string, suffix: string)
    requires prefix != ""
    ensures BuildMetricName(prefix, "" + suffix, None) == ToLower(prefix + ("_" + suffix))
  {
    assert "" + suffix == suffix;
    assert prefix + "_" + suffix == prefix + ("_" + suffix);
    assert IdxLabel(None) == "";
    assert ToLower(Qualified(prefix, suffix)) + "" == ToLower(Qualified(prefix, suffix));
  }

  /** After `setCounterMetric`, the total is stored under `<name>_total` and nothing else has changed. */
  lemma CounterReadBack(m: map<string, U64>, prefix: string, c: EventCounter)
    ensures var s := Apply(m, CounterWrites(prefix, c));
            var n := BuildMetricName(prefix, c.name + "_total", c.idx);
            n in s && s[n] == c.total && forall k | k != n :: (k in s <==> k in m) && (k in m ==> s[k] == m[k])
  {
    var ws := CounterWrites(prefix, c);
    assert ws[1..] == [];
  }

  // ----- The writes of many counters

  /** `for _, c := range cnts { setUsageMetric(prefix, c) }`. */
  function AllUsageWrites(prefix: string, cs: seq<UsageCounter>): seq<Write>
    decreases |cs|
  {
    if cs == [] then [] else AllUsageWrites(prefix, cs[..|cs| - 1]) + UsageWrites(prefix, cs[|cs| - 1])
  }

  /** `for _, c := range cnts { setCounterMetric(prefix, c) }`. */
  function AllCounterWrites(prefix: string, cs: seq<EventCounter>): seq<Write>
    decreases |cs|
  {
    if cs == [] then [] else AllCounterWrites(prefix, cs[..|cs| - 1]) + CounterWrites(prefix, cs[|cs| - 1])
  }

  /** The writes for the first `i + 1` counters: those for the first `i`, then counter `i`'s. */
  lemma AllUsageWritesNext(prefix: string, cs: seq<UsageCounter>, i: nat)
    requires i < |cs|
    ensures AllUsageWrites(prefix, cs[..i + 1]) == AllUsageWrites(prefix, cs[..i]) + UsageWrites(prefix, cs[i])
  {
    assert cs[..i + 1][..i] == cs[..i];
  }

  /** The writes for the first `i + 1` event counters: those for the first `i`, then counter `i`'s. */
  lemma AllCounterWritesNext(prefix: string, cs: seq<EventCounter>, i: nat)
    requires i < |cs|
    ensures AllCounterWrites(prefix, cs[..i + 1]) == AllCounterWrites(prefix, cs[..i]) + CounterWrites(prefix, cs[i])
  {
    assert cs[..i + 1][..i] == cs[..i];
  }

  /** Counters of one name, each with a sub-row index, no two with the same index. */
  predicate OneNameIndexed(cs: seq<UsageCounter>)
  {
    && (forall k | 0 <= k < |cs| :: cs[k].name == cs[0].name && cs[k].idx.Some?)
    && (forall k, l | 0 <= k < l < |cs| :: cs[k].idx != cs[l].idx)
  }

  /**
   * Publishing a group of counters of one name at different indices: no
   * counter's write is overwritten by another's, so afterwards every
   * counter's four values are stored under its indexed names.
   */
  lemma {:induction false} GroupUsageReadBack(m: map<string, U64>, prefix: string, cs: seq<UsageCounter>, k: nat)
    requires OneNameIndexed(cs) && k < |cs|
    ensures var s := Apply(m, AllUsageWrites(prefix, cs));
            var ws := UsageWrites(prefix, cs[k]);
            && ws[0].name in s && s[ws[0].name] == cs[k].current
            && ws[1].name in s && s[ws[1].name] == cs[k].lastMin
            && ws[2].name in s && s[ws[2].name] == cs[k].lastAvg
            && ws[3].name in s && s[ws[3].name] == cs[k].lastMax
    decreases |cs|
  {
    var init, last := cs[..|cs| - 1], cs[|cs| - 1];
    var mid := Apply(m, AllUsageWrites(prefix, init));
    var lw := UsageWrites(prefix, last);
    ApplyAppend(m, AllUsageWrites(prefix, init), lw);
    var ws := UsageWrites(prefix, cs[k]);
    if k == |cs| - 1 {
      UsageReadBack(mid, prefix, last);
    } else {
      assert OneNameIndexed(init) by {
        assert forall l | 0 <= l < |init| :: init[l] == cs[l];
      }
      GroupUsageReadBack(m, prefix, init, k);
      forall i | 0 <= i < 4 ensures ws[i].name !in Names(lw) {
        forall j | 0 <= j < 4 ensures lw[j].name != ws[i].name {
          UsageNamesApart(prefix, last, cs[k], j, i);
        }
      }
      ApplyUntouched(mid, lw, ws[0].name);
      ApplyUntouched(mid, lw, ws[1].name);
      ApplyUntouched(mid, lw, ws[2].name);
      ApplyUntouched(mid, lw, ws[3].name);
    }
  }

  /**
   * Publishing a group of event counters at different indices: every
   * counter's total is stored under its indexed `_total` name.
   */
  lemma {:induction false} GroupCounterReadBack(m: map<string, U64>, prefix: string, cs: seq<EventCounter>, k: nat)
    requires forall l | 0 <= l < |cs| :: cs[l].name == cs[0].name && cs[l].idx.Some?
    requires forall l, l' | 0 <= l < l' < |cs| :: cs[l].idx != cs[l'].idx
    requires k < |cs|
    ensures var s := Apply(m, AllCounterWrites(prefix, cs));
            var n := BuildMetricName(prefix, cs[k].name + "_total", cs[k].idx);
            n in s && s[n] == cs[k].total
    decreases |cs|
  {
    var init, last := cs[..|cs| - 1], cs[|cs| - 1];
    var mid := Apply(m, AllCounterWrites(prefix, init));
    var lw := CounterWrites(prefix, last);
    ApplyAppend(m, AllCounterWrites(prefix, init), lw);
    if k == |cs| - 1 {
      CounterReadBack(mid, prefix, last);
    } else {
      assert forall l | 0 <= l < |init| :: init[l] == cs[l];
      GroupCounterReadBack(m, prefix, init, k);
      var n := BuildMetricName(prefix, cs[k].name + "_total", cs[k].idx);
      if n == lw[0].name {
        BuildMetricNameIdxInjective(prefix, cs[k].name + "_total", cs[k].idx.value, last.idx.value);
      }
      CounterReadBack(mid, prefix, last);
    }
  }

  /**
   * A sub-row usage group, once published, shows every counter it yields:
   * the group's counters share a name and have increasing indices, so none
   * overwrites another.
   */
  lemma SubUsageGroupPublished(m: map<string, U64>, prefix: string, lines: seq<string>, c: UsageCounter, k: nat)
    requires lines != [] && ParseUsageCounter(lines[0]) == Ok(c) && c.name != ""
    requires SubUsageCounters(lines).Ok? && k < |SubUsageCounters(lines).value|
    ensures var cs := SubUsageCounters(lines).value;
            var s := Apply(m, AllUsageWrites(prefix, cs));
            var ws := UsageWrites(prefix, cs[k]);
            && ws[0].name in s && s[ws[0].name] == cs[k].current
            && ws[1].name in s && s[ws[1].name] == cs[k].lastMin
            && ws[2].name in s && s[ws[2].name] == cs[k].lastAvg
            && ws[3].name in s && s[ws[3].name] == cs[k].lastMax
  {
    var cs := SubUsageCounters(lines).value;
    SubUsageCountersShape(lines, c);
    assert OneNameIndexed(cs);
    GroupUsageReadBack(m, prefix, cs, k);
  }

  /** A sub-row event group, once published, shows every counter's total under its indexed name. */
  lemma SubEventGroupPublished(m: map<string, U64>, prefix: string, lines: seq<string>, c: EventCounter, k: nat)
    requires lines != [] && ParseEventCounter(lines[0]) == Ok(c) && c.name != ""
    requires SubEventCounters(lines).Ok? && k < |SubEventCounters(lines).value|
    ensures var cs := SubEventCounters(lines).value;
            var s := Apply(m, AllCounterWrites(prefix, cs));
            var n := BuildMetricName(prefix, c.name + "_total", Some(k));
            n in s && s[n] == cs[k].total
  {
    var cs := SubEventCounters(lines).value;
    SubEventCountersShape(lines, c);
    GroupCounterReadBack(m, prefix, cs, k);
  }

  // ----- Publishing into the store

  /** `setUsageMetric`. */
  method SetUsageMetric(store: MetricSet, prefix: string, c: UsageCounter)
    modifies store
    ensures store.values == Apply(old(store.values), UsageWrites(prefix, c))
  {
    store.Set(BuildMetricName(prefix, c.name + "_current", c.idx), c.current);
    store.Set(BuildMetricName(prefix, c.name + "_lastmin", c.idx), c.lastMin);
    store.Set(BuildMetricName(prefix, c.name + "_lastavg", c.idx), c.lastAvg);
    store.Set(BuildMetricName(prefix, c.name + "_lastmax", c.idx), c.lastMax);
    ApplyFour(old(store.values), UsageWrites(prefix, c));
  }

  /** `setLabeledUsageMetric`. */
  method SetLabeledUsageMetric(store: MetricSet, prefix: string, key: string, c: UsageCounter)
    modifies store
    ensures store.values == Apply(old(store.values), LabeledUsageWrites(prefix, key, c))
  {
    store.Set(BuildMetricName(prefix, Labeled("current", key, c.name), c.idx), c.current);
    store.Set(BuildMetricName(prefix, Labeled("lastmin", key, c.name), c.idx), c.lastMin);
    store.Set(BuildMetricName(prefix, Labeled("lastavg", key, c.name), c.idx), c.lastAvg);
    store.Set(BuildMetricName(prefix, Labeled("lastmax", key, c.name), c.idx), c.lastMax);
    ApplyFour(old(store.values), LabeledUsageWrites(prefix, key, c));
  }

  /** `setCounterMetric`. */
  method SetCounterMetric(store: MetricSet, prefix: string, c: EventCounter)
    modifies store
    ensures store.values == Apply(old(store.values), CounterWrites(prefix, c))
  {
    store.Set(BuildMetricName(prefix, c.name + "_total", c.idx), c.total);
    assert CounterWrites(prefix, c)[1..] == [];
  }

  /** `setLabeledCounterMetric`. */
  method SetLabeledCounterMetric(store: MetricSet, prefix: string, key: string, c: EventCounter)
    modifies store
    ensures store.values == Apply(old(store.values), LabeledCounterWrites(prefix, key, c))
  {
    store.Set(BuildMetricName(prefix, Labeled("total", key, c.name), c.idx), c.total);
    assert LabeledCounterWrites(prefix, key, c)[1..] == [];
  }

  /** Four writes applied one after the other. */
  lemma ApplyFour(m: map<string, U64>, ws: seq<Write>)
    requires |ws| == 4
    ensures Apply(m, ws) == m[ws[0].name := ws[0].value][ws[1].name := ws[1].value]
                             [ws[2].name := ws[2].value][ws[3].name := ws[3].value]
  {
    var m1 := m[ws[0].name := ws[0].value];
    var m2 := m1[ws[1].name := ws[1].value];
    var m3 := m2[ws[2].name := ws[2].value];
    assert ws[1..][1..] == ws[2..] && ws[2..][1..] == ws[3..] && ws[3..][1..] == [];
    calc {
      Apply(m, ws);
      Apply(m1, ws[1..]);
      Apply(m2, ws[2..]);
      Apply(m3, ws[3..]);
      Apply(m3[ws[3].name := ws[3].value], []);
    }
  }

  /** `for _, c := range cnts { setUsageMetric(prefix, c) }`. */
  method SetUsageMetrics(store: MetricSet, prefix: string, cs: seq<UsageCounter>)
    modifies store
    ensures store.values == Apply(old(store.values), AllUsageWrites(prefix, cs))
  {
    for i := 0 to |cs|
      invariant store.values == Apply(old(store.values), AllUsageWrites(prefix, cs[..i]))
    {
      SetUsageMetric(store, prefix, cs[i]);
      AllUsageWritesNext(prefix, cs, i);
      ApplyAppend(old(store.values), AllUsageWrites(prefix, cs[..i]), UsageWrites(prefix, cs[i]));
    }
    assert cs[..|cs|] == cs;
  }

  /** `for _, c := range cnts { setCounterMetric(prefix, c) }`. */
  method SetCounterMetrics(store: MetricSet, prefix: string, cs: seq<EventCounter>)
    modifies store
    ensures store.values == Apply(old(store.values), AllCounterWrites(prefix, cs))
  {
    for i := 0 to |cs|
      invariant store.values == Apply(old(store.values), AllCounterWrites(prefix, cs[..i]))
    {
      SetCounterMetric(store, prefix, cs[i]);
      AllCounterWritesNext(prefix, cs, i);
      ApplyAppend(old(store.values), AllCounterWrites(prefix, cs[..i]), CounterWrites(prefix, cs[i]));
    }
    assert cs[..|cs|] == cs;
  }
}
