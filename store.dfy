/**
 * The metric store: one global set of named `uint64` counters.  Publishing
 * is `setMetricValue` (overwrite the value under a name, creating it if
 * needed) and `clearMetrics` (unregister every name with a given prefix).
 *
 * Every publishing operation of the exporter is specified as the list of
 * writes it makes, in order; `Apply` says what a list of writes does to
 * the store.
 */
module Store {
  import opened Wrappers
  import opened GoStrings

  /** One `setMetricValue(name, value)` call. */
  datatype Write = Write(name: string, value: U64)

  /** What a publishing step does: its writes, in order, and the halt that ends the process after them, if any. */
  datatype Effect = Effect(writes: seq<Write>, halt: Option<Halt>)

  /** No writes and no halt. */
  const NOTHING: Effect := Effect([], None)

  /** `e` and then `f`, unless `e` stopped the process. */
  function Then(e: Effect, f: Effect): (r: Effect)
    ensures e.halt.Some? ==> r == e
    ensures e.halt.None? ==> r.writes == e.writes + f.writes && r.halt == f.halt
  {
    if e.halt.Some? then e else Effect(e.writes + f.writes, f.halt)
  }

  /** The store after the writes: each write overwrites the value under its name. */
  function Apply(m: map<string, U64>, ws: seq<Write>): map<string, U64>
    decreases |ws|
  {
    if ws == [] then m else Apply(m[ws[0].name := ws[0].value], ws[1..])
  }

  /** The names the writes touch. */
  function Names(ws: seq<Write>): set<string>
  {
    set i | 0 <= i < |ws| :: ws[i].name
  }

  /** The value of the last write to `name`, if there is one. */
  function Latest(ws: seq<Write>, name: string): (r: Option<U64>)
    ensures r.None? <==> name !in Names(ws)
    decreases |ws|
  {
    if ws == [] then None
    else if ws[|ws| - 1].name == name then Some(ws[|ws| - 1].value)
    else
      var r := Latest(ws[..|ws| - 1], name);
      assert Names(ws) == Names(ws[..|ws| - 1]) + {ws[|ws| - 1].name};
      r
  }

  /** Applying a concatenation applies the first part, then the second. */
  lemma {:induction false} ApplyAppend(m: map<string, U64>, a: seq<Write>, b: seq<Write>)
    ensures Apply(m, a + b) == Apply(Apply(m, a), b)
    decreases |a|
  {
    if a == [] {
      assert a + b == b;
    } else {
      assert (a + b)[0] == a[0];
      assert (a + b)[1..] == a[1..] + b;
      ApplyAppend(m[a[0].name := a[0].value], a[1..], b);
    }
  }

  /**
   * After the writes, a name is present iff it was present or was written;
   * a written name holds its last written value and any other name keeps
   * its old value.
   */
  lemma {:induction false} ApplyLatest(m: map<string, U64>, ws: seq<Write>, name: string)
    ensures name in Apply(m, ws) <==> name in m || name in Names(ws)
    ensures Latest(ws, name).Some? ==> Apply(m, ws)[name] == Latest(ws, name).value
    ensures Latest(ws, name).None? && name in m ==> Apply(m, ws)[name] == m[name]
    decreases |ws|
  {
    if ws != [] {
      var init := ws[..|ws| - 1];
      var last := ws[|ws| - 1];
      assert ws == init + [last];
      assert Names(ws) == Names(init) + {last.name};
      ApplyAppend(m, init, [last]);
      ApplyLatest(m, init, name);
      assert Apply(m, ws) == Apply(m, init)[last.name := last.value];
    }
  }

  /** Republishing the same writes leaves the store as it was: writes overwrite, they never add up. */
  lemma ApplyIdempotent(m: map<string, U64>, ws: seq<Write>)
    ensures Apply(Apply(m, ws), ws) == Apply(m, ws)
  {
    var once := Apply(m, ws);
    var twice := Apply(once, ws);
    forall k ensures k in twice <==> k in once {
      ApplyLatest(m, ws, k);
      ApplyLatest(once, ws, k);
    }
    forall k | k in twice ensures twice[k] == once[k] {
      ApplyLatest(m, ws, k);
      ApplyLatest(once, ws, k);
    }
  }

  /** Writes to other names do not change what is stored under `name`. */
  lemma ApplyUntouched(m: map<string, U64>, ws: seq<Write>, name: string)
    requires name !in Names(ws)
    ensures name in Apply(m, ws) <==> name in m
    ensures name in m ==> Apply(m, ws)[name] == m[name]
  {
    ApplyLatest(m, ws, name);
  }

  /** A name written exactly once holds the value of that write afterwards. */
  lemma ApplyWrittenOnce(m: map<string, U64>, ws: seq<Write>, i: nat)
    requires i < |ws|
    requires forall j | 0 <= j < |ws| && j != i :: ws[j].name != ws[i].name
    ensures ws[i].name in Apply(m, ws) && Apply(m, ws)[ws[i].name] == ws[i].value
  {
    var name := ws[i].name;
    var after := ws[i + 1..];
    assert ws == ws[..i + 1] + after;
    assert name !in Names(after) by {
      forall j | 0 <= j < |after| ensures after[j].name != name { assert after[j] == ws[i + 1 + j]; }
    }
    ApplyAppend(m, ws[..i + 1], after);
    ApplyLatest(m, ws[..i + 1], name);
    ApplyUntouched(Apply(m, ws[..i + 1]), after, name);
  }

  /** Writes under pairwise different names: afterwards each name holds the value written to it. */
  lemma ApplyDistinct(m: map<string, U64>, ws: seq<Write>)
    requires forall i, j | 0 <= i < j < |ws| :: ws[i].name != ws[j].name
    ensures forall i | 0 <= i < |ws| :: ws[i].name in Apply(m, ws) && Apply(m, ws)[ws[i].name] == ws[i].value
  {
    forall i | 0 <= i < |ws| ensures ws[i].name in Apply(m, ws) && Apply(m, ws)[ws[i].name] == ws[i].value {
      ApplyWrittenOnce(m, ws, i);
    }
  }

  /** One more write of a sequence, applied on top of those before it. */
  lemma ApplySnoc(m: map<string, U64>, ws: seq<Write>, k: nat)
    requires k < |ws|
    ensures Apply(m, ws[..k + 1]) == Apply(m, ws[..k])[ws[k].name := ws[k].value]
  {
    ApplyAppend(m, ws[..k], [ws[k]]);
    assert ws[..k] + [ws[k]] == ws[..k + 1];
  }

  /** Five writes applied one after the other. */
  lemma ApplyFive(m: map<string, U64>, ws: seq<Write>)
    requires |ws| == 5
    ensures Apply(m, ws) == m[ws[0].name := ws[0].value][ws[1].name := ws[1].value][ws[2].name := ws[2].value]
                             [ws[3].name := ws[3].value][ws[4].name := ws[4].value]
  {
    var m1 := m[ws[0].name := ws[0].value];
    var m2 := m1[ws[1].name := ws[1].value];
    var m3 := m2[ws[2].name := ws[2].value];
    var m4 := m3[ws[3].name := ws[3].value];
    assert ws[1..][1..] == ws[2..] && ws[2..][1..] == ws[3..] && ws[3..][1..] == ws[4..] && ws[4..][1..] == [];
    calc {
      Apply(m, ws);
      Apply(m1, ws[1..]);
      Apply(m2, ws[2..]);
      Apply(m3, ws[3..]);
      Apply(m4, ws[4..]);
      Apply(m4[ws[4].name := ws[4].value], []);
    }
  }

  /**
   * Running a step after the writes `done`: a step that does not stop adds
   * its writes to `done`; one that stops ends everything after its writes.
   */
  lemma ThenStep(done: seq<Write>, e: Effect, rest: Effect)
    ensures e.halt.None? ==> Then(Effect(done, None), Then(e, rest)) == Then(Effect(done + e.writes, None), rest)
    ensures e.halt.Some? ==> Then(Effect(done, None), Then(e, rest)) == Effect(done + e.writes, e.halt)
  {
    assert done + (e.writes + rest.writes) == done + e.writes + rest.writes;
  }

  /** The store with every name that starts with `prefix` removed. */
  function WithoutPrefix(m: map<string, U64>, prefix: string): map<string, U64>
  {
    map k | k in m && !HasPrefix(k, prefix) :: m[k]
  }

  /** Writing only under a prefix and then clearing that prefix leaves what clearing alone leaves. */
  lemma {:induction false} ClearAfterWrites(m: map<string, U64>, ws: seq<Write>, prefix: string)
    requires forall i | 0 <= i < |ws| :: HasPrefix(ws[i].name, prefix)
    ensures WithoutPrefix(Apply(m, ws), prefix) == WithoutPrefix(m, prefix)
    decreases |ws|
  {
    if ws != [] {
      var m' := m[ws[0].name := ws[0].value];
      assert WithoutPrefix(m', prefix) == WithoutPrefix(m, prefix);
      ClearAfterWrites(m', ws[1..], prefix);
    }
  }

  /** The exporter's global `metrics.Set`. */
  class MetricSet {
    var values: map<string, U64>

    /** An empty set. */
    constructor ()
      ensures values == map[]
    {
      values := map[];
    }

    /** `setMetricValue`: get or create the counter `name` and set it to `value`. */
    method Set(name: string, value: U64)
      modifies this
      ensures values == old(values)[name := value]
    {
      values := values[name := value];
    }

    /**
     * `clearMetrics`: walk the registered names and unregister every one
     * that starts with `prefix`; all other names keep their values.
     */
    method ClearPrefix(prefix: string)
      modifies this
      ensures values == WithoutPrefix(old(values), prefix)
      ensures forall k | k in values :: !HasPrefix(k, prefix)
      ensures forall k | k in old(values) && !HasPrefix(k, prefix) :: k in values && values[k] == old(values)[k]
    {
      var names := values.Keys;
      while names != {}
        invariant names <= old(values).Keys
        invariant values == map k | k in old(values) && (k in names || !HasPrefix(k, prefix)) :: old(values)[k]
        decreases names
      {
        var name :| name in names;
        if HasPrefix(name, prefix) {
          values := values - {name};
        }
        names := names - {name};
      }
    }
  }
}
