/**
 * The XMS media server's XML resource report (the first API version): a
 * list of resource counters, of which the second to fourth are published,
 * and a list of resource licenses, each published as five figures read
 * from its attributes with errors ignored.
 */
module Xms {
  import opened Wrappers
  import opened GoStrings
  import opened Strconv
  import opened Store
  import opened Decoded

  /** One `<resource>` element: its id, its numeric value and its license attributes as text. */
  datatype Resource = Resource(
    id: string, value: U64,
    total: string, used: string, free: string, percUsed: string, alloc: string)

  /** The decoded report: resource counters and resource licenses. */
  datatype WebService = WebService(counters: seq<Resource>, licenses: seq<Resource>)

  /** The runtime panic of indexing a slice past its end. */
  const INDEX_OUT_OF_RANGE: Halt := Panic("index out of range")

  // ----- Resource counters

  /**
   * `processXmsResourceCountersMetrics`: resources 1, 2 and 3 are published
   * in that order; the first of them that is missing panics, after the
   * writes of those before it.
   */
  function ResourceCountersEffect(prefix: string, rs: seq<Resource>): (e: Effect)
    ensures e.halt.None? <==> |rs| >= 4
    ensures e.halt.Some? ==> e.halt == Some(INDEX_OUT_OF_RANGE)
    ensures |e.writes| == if |rs| < 2 then 0 else if |rs| < 4 then |rs| - 1 else 3
  {
    if |rs| < 2 then Effect([], Some(INDEX_OUT_OF_RANGE))
    else
      var w1 := [Write(prefix + "_sent_sip_invites", rs[1].value)];
      if |rs| < 3 then Effect(w1, Some(INDEX_OUT_OF_RANGE))
      else
        var w2 := w1 + [Write(prefix + "_received_sip_responses", rs[2].value)];
        if |rs| < 4 then Effect(w2, Some(INDEX_OUT_OF_RANGE))
        else Effect(w2 + [Write(prefix + "_sent_sip_responses", rs[3].value)], None)
  }

  /** `processXmsResourceCountersMetrics`. */
  method ProcessXmsResourceCounters(store: MetricSet, prefix: string, rs: seq<Resource>) returns (halt: Option<Halt>)
    modifies store
    ensures store.values == Apply(old(store.values), ResourceCountersEffect(prefix, rs).writes)
    ensures halt == ResourceCountersEffect(prefix, rs).halt
  {
    ghost var ws := ResourceCountersEffect(prefix, rs).writes;
    if |rs| < 2 {
      return Some(INDEX_OUT_OF_RANGE);
    }
    store.Set(prefix + "_sent_sip_invites", rs[1].value);
    assert store.values == Apply(old(store.values), ws[..1]) by {
      assert ws[..1][1..] == [];
    }
    if |rs| < 3 {
      assert ws[..1] == ws;
      return Some(INDEX_OUT_OF_RANGE);
    }
    store.Set(prefix + "_received_sip_responses", rs[2].value);
    ApplyAppend(old(store.values), ws[..1], [ws[1]]);
    assert ws[..1] + [ws[1]] == ws[..2];
    if |rs| < 4 {
      assert ws[..2] == ws;
      return Some(INDEX_OUT_OF_RANGE);
    }
    store.Set(prefix + "_sent_sip_responses", rs[3].value);
    ApplyAppend(old(store.values), ws[..2], [ws[2]]);
    assert ws[..2] + [ws[2]] == ws;
    return None;
  }

  /**
   * With at least four resources, the store shows resource 1 as sent SIP
   * invites, resource 2 as received SIP responses and resource 3 as sent
   * SIP responses.
   */
  lemma ResourceCountersReadBack(m: map<string, U64>, prefix: string, rs: seq<Resource>)
    requires |rs| >= 4
    ensures var s := Apply(m, ResourceCountersEffect(prefix, rs).writes);
            && prefix + "_sent_sip_invites" in s && s[prefix + "_sent_sip_invites"] == rs[1].value
            && prefix + "_received_sip_responses" in s && s[prefix + "_received_sip_responses"] == rs[2].value
            && prefix + "_sent_sip_responses" in s && s[prefix + "_sent_sip_responses"] == rs[3].value
  {
    var ws := ResourceCountersEffect(prefix, rs).writes;
    SuffixedApart(prefix, "_sent_sip_invites", "_received_sip_responses", 1);
    SuffixedApart(prefix, "_sent_sip_invites", "_sent_sip_responses", 10);
    SuffixedApart(prefix, "_received_sip_responses", "_sent_sip_responses", 1);
    ApplyDistinct(m, ws);
    assert ws[0].name == prefix + "_sent_sip_invites";
    assert ws[1].name == prefix + "_received_sip_responses";
    assert ws[2].name == prefix + "_sent_sip_responses";
  }

  // ----- Resource licenses

  /** The five writes for one license, under `<prefix>_<id>_`; every attribute is read with its error ignored. */
  function LicenseWrites(prefix: string, r: Resource): seq<Write>
  {
    var p := prefix + "_" + r.id + "_";
    [Write(p + "total", ParseUintIgnoringError(r.total)),
     Write(p + "used", ParseUintIgnoringError(r.used)),
     Write(p + "free", ParseUintIgnoringError(r.free)),
     Write(p + "percent_used", ParseUintIgnoringError(r.percUsed)),
     Write(p + "allocated", ParseUintIgnoringError(r.alloc))]
  }

  /** The writes for every license, in order. */
  function AllLicenseWrites(prefix: string, rs: seq<Resource>): seq<Write>
    decreases |rs|
  {
    if rs == [] then [] else AllLicenseWrites(prefix, rs[..|rs| - 1]) + LicenseWrites(prefix, rs[|rs| - 1])
  }

  /** `processXmsResourceLicensesMetrics`. */
  method ProcessXmsResourceLicenses(store: MetricSet, prefix: string, rs: seq<Resource>)
    modifies store
    ensures store.values == Apply(old(store.values), AllLicenseWrites(prefix, rs))
  {
    for i := 0 to |rs|
      invariant store.values == Apply(old(store.values), AllLicenseWrites(prefix, rs[..i]))
    {
      var item := rs[i];
      var prefixplus := prefix + "_" + item.id + "_";
      var total := ParseUintIgnoringError(item.total);
      var used := ParseUintIgnoringError(item.used);
      var free := ParseUintIgnoringError(item.free);
      var percUsed := ParseUintIgnoringError(item.percUsed);
      var alloc := ParseUintIgnoringError(item.alloc);
      ghost var before := store.values;
      store.Set(prefixplus + "total", total);
      store.Set(prefixplus + "used", used);
      store.Set(prefixplus + "free", free);
      store.Set(prefixplus + "percent_used", percUsed);
      store.Set(prefixplus + "allocated", alloc);
      ApplyFive(before, LicenseWrites(prefix, item));
      assert rs[..i + 1][..i] == rs[..i];
      ApplyAppend(old(store.values), AllLicenseWrites(prefix, rs[..i]), LicenseWrites(prefix, item));
    }
    assert rs[..|rs|] == rs;
  }

  /**
   * After a license is published, its five figures are stored under
   * `<prefix>_<id>_total`, `_used`, `_free`, `_percent_used` and
   * `_allocated`, each the attribute read in base 0 with a malformed one
   * giving 0.
   */
  lemma LicenseReadBack(m: map<string, U64>, prefix: string, r: Resource)
    ensures var s := Apply(m, LicenseWrites(prefix, r));
            var p := prefix + "_" + r.id + "_";
            && p + "total" in s && s[p + "total"] == ParseUintIgnoringError(r.total)
            && p + "used" in s && s[p + "used"] == ParseUintIgnoringError(r.used)
            && p + "free" in s && s[p + "free"] == ParseUintIgnoringError(r.free)
            && p + "percent_used" in s && s[p + "percent_used"] == ParseUintIgnoringError(r.percUsed)
            && p + "allocated" in s && s[p + "allocated"] == ParseUintIgnoringError(r.alloc)
  {
    var p := prefix + "_" + r.id + "_";
    var ws := LicenseWrites(prefix, r);
    var suffixes := ["total", "used", "free", "percent_used", "allocated"];
    forall i, j | 0 <= i < j < 5 ensures ws[i].name != ws[j].name {
      assert ws[i].name == p + suffixes[i] && ws[j].name == p + suffixes[j];
      SuffixedApart(p, suffixes[i], suffixes[j], 0);
    }
    ApplyDistinct(m, ws);
    assert ws[0].name == p + "total" && ws[1].name == p + "used" && ws[2].name == p + "free";
    assert ws[3].name == p + "percent_used" && ws[4].name == p + "allocated";
  }

  // ----- Fetching the report

  /** The decoded report's publication: counters for the prefix `xms_counter`, licenses for any other. */
  function XmsEffect(prefix: string, body: WebService): Effect
  {
    if prefix == "xms_counter" then ResourceCountersEffect(prefix, body.counters)
    else Effect(AllLicenseWrites(prefix, body.licenses), None)
  }

  /** `fetchXmsMetrics` after the request: a failure clears the prefix, a decoded report is published. */
  method FetchXmsMetrics(store: MetricSet, prefix: string, resp: Fetch<WebService>) returns (halt: Option<Halt>)
    modifies store
    ensures !resp.Fetched? ==> store.values == WithoutPrefix(old(store.values), prefix) && halt == None
    ensures resp.Fetched? ==>
              && store.values == Apply(old(store.values), XmsEffect(prefix, resp.body).writes)
              && halt == XmsEffect(prefix, resp.body).halt
  {
    if !resp.Fetched? {
      store.ClearPrefix(prefix);
      return None;
    }
    if prefix == "xms_counter" {
      halt := ProcessXmsResourceCounters(store, prefix, resp.body.counters);
    } else {
      ProcessXmsResourceLicenses(store, prefix, resp.body.licenses);
      halt := None;
    }
  }
}
