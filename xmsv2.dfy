/**
 * The XMS media server's JSON REST interface (API version 2, media server
 * 5.2 or newer): an `xms_up` flag for reachability, then either the ten
 * session figures or five figures per feature license.
 */
module XmsV2 {
  import opened Wrappers
  import opened GoStrings
  import opened Store

  /** One entry of `feature_usage`. */
  datatype LicenseUsage = LicenseUsage(id: string, inUse: U64, inUsePc: U64, free: U64)

  /** The `stats` object of the sessions resource. */
  datatype SessionUsages = SessionUsages(
    signalingSessions: U64, signalingSessionsMax: U64,
    rtpSessions: U64, rtpSessionsMax: U64,
    faxSessions: U64, faxSessionsMax: U64,
    speechSessions: U64, speechSessionsMax: U64,
    conferenceSessions: U64, conferenceSessionsMax: U64)

  /**
   * The outcome of the request: no connection, or a body together with
   * what each of the two decoders makes of it (`None` when it fails).
   */
  datatype V2Response =
    | V2ConnectFailed
    | V2Connected(sessions: Option<SessionUsages>, licenses: Option<seq<LicenseUsage>>)

  /** The process exit when the body does not decode. */
  function DecodeFailure(prefix: string): Halt {
    LogFatal(prefix + "Failed to decode XMS response:")
  }

  // ----- Sessions

  /** The ten session figures, in the order they are published. */
  function SessionWrites(prefix: string, s: SessionUsages): seq<Write>
  {
    [Write(prefix + "_signaling_sessions", s.signalingSessions),
     Write(prefix + "_signaling_sessions_max", s.signalingSessionsMax),
     Write(prefix + "_fax_sessions", s.faxSessions),
     Write(prefix + "_fax_sessions_max", s.faxSessionsMax),
     Write(prefix + "_rtp_sessions", s.rtpSessions),
     Write(prefix + "_rtp_sessions_max", s.rtpSessionsMax),
     Write(prefix + "_speech_sessions", s.speechSessions),
     Write(prefix + "_speech_sessions_max", s.speechSessionsMax),
     Write(prefix + "_conference_sessions", s.conferenceSessions),
     Write(prefix + "_conference_sessions_max", s.conferenceSessionsMax)]
  }

  /** `processXmsV2SessionMetrics`: an undecodable body stops the process, a decoded one is published. */
  function SessionEffect(prefix: string, decoded: Option<SessionUsages>): (e: Effect)
    ensures e.halt.Some? <==> decoded.None?
    ensures decoded.None? ==> e.writes == []
  {
    match decoded
    case None => Effect([], Some(DecodeFailure(prefix)))
    case Some(s) => Effect(SessionWrites(prefix, s), None)
  }

  /** `processXmsV2SessionMetrics`. */
  method ProcessXmsV2SessionMetrics(store: MetricSet, prefix: string, decoded: Option<SessionUsages>)
    returns (halt: Option<Halt>)
    modifies store
    ensures store.values == Apply(old(store.values), SessionEffect(prefix, decoded).writes)
    ensures halt == SessionEffect(prefix, decoded).halt
  {
    if decoded.None? {
      return Some(DecodeFailure(prefix));
    }
    var val := decoded.value;
    store.Set(prefix + "_signaling_sessions", val.signalingSessions);
    store.Set(prefix + "_signaling_sessions_max", val.signalingSessionsMax);
    store.Set(prefix + "_fax_sessions", val.faxSessions);
    store.Set(prefix + "_fax_sessions_max", val.faxSessionsMax);
    store.Set(prefix + "_rtp_sessions", val.rtpSessions);
    store.Set(prefix + "_rtp_sessions_max", val.rtpSessionsMax);
    store.Set(prefix + "_speech_sessions", val.speechSessions);
    store.Set(prefix + "_speech_sessions_max", val.speechSessionsMax);
    store.Set(prefix + "_conference_sessions", val.conferenceSessions);
    store.Set(prefix + "_conference_sessions_max", val.conferenceSessionsMax);
    ApplyTen(old(store.values), SessionWrites(prefix, val));
    return None;
  }

  /** Ten writes applied one after the other. */
  lemma ApplyTen(m: map<string, U64>, ws: seq<Write>)
    requires |ws| == 10
    ensures Apply(m, ws) == m[ws[0].name := ws[0].value][ws[1].name := ws[1].value][ws[2].name := ws[2].value]
                             [ws[3].name := ws[3].value][ws[4].name := ws[4].value][ws[5].name := ws[5].value]
                             [ws[6].name := ws[6].value][ws[7].name := ws[7].value][ws[8].name := ws[8].value]
                             [ws[9].name := ws[9].value]
  {
    var m5 := m[ws[0].name := ws[0].value][ws[1].name := ws[1].value][ws[2].name := ws[2].value]
              [ws[3].name := ws[3].value][ws[4].name := ws[4].value];
    ApplyAppend(m, ws[..5], ws[5..]);
    assert ws[..5] + ws[5..] == ws;
    ApplyFive(m, ws[..5]);
    ApplyFive(m5, ws[5..]);
  }

  /** The name suffixes of the session figures. */
  const SESSION_SUFFIXES: seq<string> := [
    "_signaling_sessions", "_signaling_sessions_max", "_fax_sessions", "_fax_sessions_max",
    "_rtp_sessions", "_rtp_sessions_max", "_speech_sessions", "_speech_sessions_max",
    "_conference_sessions", "_conference_sessions_max"]

  /** No two session figures share a name. */
  lemma SessionNamesDistinct(prefix: string, s: SessionUsages)
    ensures var ws := SessionWrites(prefix, s);
            forall i, j | 0 <= i < j < |ws| :: ws[i].name != ws[j].name
  {
    var ws := SessionWrites(prefix, s);
    assert forall i | 0 <= i < 10 :: ws[i].name == prefix + SESSION_SUFFIXES[i];
    forall i, j | 0 <= i < j < 10 ensures ws[i].name != ws[j].name {
      if |SESSION_SUFFIXES[i]| == |SESSION_SUFFIXES[j]| {
        SuffixedApart(prefix, SESSION_SUFFIXES[i], SESSION_SUFFIXES[j], 1);
      } else {
        assert |ws[i].name| != |ws[j].name|;
      }
    }
  }

  /** After a decoded sessions resource is published, each figure is stored under its own name. */
  lemma SessionReadBack(m: map<string, U64>, prefix: string, s: SessionUsages)
    ensures var r := Apply(m, SessionWrites(prefix, s));
            && prefix + "_signaling_sessions" in r && r[prefix + "_signaling_sessions"] == s.signalingSessions
            && prefix + "_signaling_sessions_max" in r && r[prefix + "_signaling_sessions_max"] == s.signalingSessionsMax
            && prefix + "_fax_sessions" in r && r[prefix + "_fax_sessions"] == s.faxSessions
            && prefix + "_fax_sessions_max" in r && r[prefix + "_fax_sessions_max"] == s.faxSessionsMax
            && prefix + "_rtp_sessions" in r && r[prefix + "_rtp_sessions"] == s.rtpSessions
            && prefix + "_rtp_sessions_max" in r && r[prefix + "_rtp_sessions_max"] == s.rtpSessionsMax
            && prefix + "_speech_sessions" in r && r[prefix + "_speech_sessions"] == s.speechSessions
            && prefix + "_speech_sessions_max" in r && r[prefix + "_speech_sessions_max"] == s.speechSessionsMax
            && prefix + "_conference_sessions" in r && r[prefix + "_conference_sessions"] == s.conferenceSessions
            && prefix + "_conference_sessions_max" in r && r[prefix + "_conference_sessions_max"] == s.conferenceSessionsMax
  {
    var ws := SessionWrites(prefix, s);
    SessionNamesDistinct(prefix, s);
    ApplyDistinct(m, ws);
    assert ws[0].name in Apply(m, ws) && ws[1].name in Apply(m, ws) && ws[2].name in Apply(m, ws);
    assert ws[3].name in Apply(m, ws) && ws[4].name in Apply(m, ws) && ws[5].name in Apply(m, ws);
    assert ws[6].name in Apply(m, ws) && ws[7].name in Apply(m, ws) && ws[8].name in Apply(m, ws);
    assert ws[9].name in Apply(m, ws);
  }

  // ----- Licenses

  /** The license id as a metric name part: blanks become underscores, letters lower case. */
  function LicenseName(id: string): string {
    ToLower(ReplaceChar(id, ' ', '_'))
  }

  /**
   * A license name keeps the id's length, has an underscore wherever the id
   * has a blank, and holds neither blanks nor upper-case letters.
   */
  lemma LicenseNameShape(id: string)
    ensures |LicenseName(id)| == |id|
    ensures forall i | 0 <= i < |id| :: id[i] == ' ' ==> LicenseName(id)[i] == '_'
    ensures forall i | 0 <= i < |id| :: LicenseName(id)[i] != ' ' && !IsUpper(LicenseName(id)[i])
  {
    ToLowerChars(ReplaceChar(id, ' ', '_'));
  }

  /**
   * The five writes for one license under `<prefix>_<name>`: free,
   * allocated and total (both free plus in use, wrapping like Go's
   * `uint64`), used, and percent used.
   */
  function V2LicenseWrites(prefix: string, l: LicenseUsage): seq<Write>
  {
    var basename := prefix + "_" + LicenseName(l.id);
    [Write(basename + "_free", l.free),
     Write(basename + "_allocated", AddU64(l.free, l.inUse)),
     Write(basename + "_total", AddU64(l.free, l.inUse)),
     Write(basename + "_used", l.inUse),
     Write(basename + "_percent_used", l.inUsePc)]
  }

  /** The writes for every license, in order. */
  function AllV2LicenseWrites(prefix: string, ls: seq<LicenseUsage>): seq<Write>
    decreases |ls|
  {
    if ls == [] then [] else AllV2LicenseWrites(prefix, ls[..|ls| - 1]) + V2LicenseWrites(prefix, ls[|ls| - 1])
  }

  /** `processXmsV2LicenseMetrics`: an undecodable body stops the process, a decoded one is published. */
  function LicenseEffect(prefix: string, decoded: Option<seq<LicenseUsage>>): (e: Effect)
    ensures e.halt.Some? <==> decoded.None?
    ensures decoded.None? ==> e.writes == []
  {
    match decoded
    case None => Effect([], Some(DecodeFailure(prefix)))
    case Some(ls) => Effect(AllV2LicenseWrites(prefix, ls), None)
  }

  /** `processXmsV2LicenseMetrics`. */
  method ProcessXmsV2LicenseMetrics(store: MetricSet, prefix: string, decoded: Option<seq<LicenseUsage>>)
    returns (halt: Option<Halt>)
    modifies store
    ensures store.values == Apply(old(store.values), LicenseEffect(prefix, decoded).writes)
    ensures halt == LicenseEffect(prefix, decoded).halt
  {
    if decoded.None? {
      return Some(DecodeFailure(prefix));
    }
    var ls := decoded.value;
    for i := 0 to |ls|
      invariant store.values == Apply(old(store.values), AllV2LicenseWrites(prefix, ls[..i]))
    {
      var item := ls[i];
      var name := ToLower(ReplaceChar(item.id, ' ', '_'));
      var basename := prefix + "_" + name;
      ghost var ws := V2LicenseWrites(prefix, item);
      ghost var m := store.values;
      assert ws[..0] == [];
      store.Set(basename + "_free", item.free);
      ApplySnoc(m, ws, 0);
      store.Set(basename + "_allocated", AddU64(item.free, item.inUse));
      ApplySnoc(m, ws, 1);
      store.Set(basename + "_total", AddU64(item.free, item.inUse));
      ApplySnoc(m, ws, 2);
      store.Set(basename + "_used", item.inUse);
      ApplySnoc(m, ws, 3);
      store.Set(basename + "_percent_used", item.inUsePc);
      ApplySnoc(m, ws, 4);
      assert ws[..5] == ws;
      assert ls[..i + 1][..i] == ls[..i];
      ApplyAppend(old(store.values), AllV2LicenseWrites(prefix, ls[..i]), ws);
    }
    assert ls[..|ls|] == ls;
    return None;
  }

  /**
   * After a license is published, `_allocated` and `_total` both hold free
   * plus in use, and `_free`, `_used` and `_percent_used` hold the reported
   * figures.
   */
  lemma V2LicenseReadBack(m: map<string, U64>, prefix: string, l: LicenseUsage)
    ensures var r := Apply(m, V2LicenseWrites(prefix, l));
            var basename := prefix + "_" + LicenseName(l.id);
            && basename + "_free" in r && r[basename + "_free"] == l.free
            && basename + "_allocated" in r && r[basename + "_allocated"] == AddU64(l.free, l.inUse)
            && basename + "_total" in r && r[basename + "_total"] == r[basename + "_allocated"]
            && basename + "_used" in r && r[basename + "_used"] == l.inUse
            && basename + "_percent_used" in r && r[basename + "_percent_used"] == l.inUsePc
  {
    var basename := prefix + "_" + LicenseName(l.id);
    var ws := V2LicenseWrites(prefix, l);
    var suffixes := ["_free", "_allocated", "_total", "_used", "_percent_used"];
    forall i, j | 0 <= i < j < 5 ensures ws[i].name != ws[j].name {
      assert ws[i].name == basename + suffixes[i] && ws[j].name == basename + suffixes[j];
      SuffixedApart(basename, suffixes[i], suffixes[j], 1);
    }
    ApplyDistinct(m, ws);
    assert ws[0].name in Apply(m, ws) && ws[1].name in Apply(m, ws) && ws[2].name in Apply(m, ws);
    assert ws[3].name in Apply(m, ws) && ws[4].name in Apply(m, ws);
  }

  // ----- Fetching

  /**
   * `fetchXmsV2Metrics` after the request: no connection sets `xms_up` to 0
   * and stops there; otherwise `xms_up` is 1 and the prefix `xms_counter`
   * selects the sessions, any other prefix the licenses.
   */
  function V2Effect(prefix: string, resp: V2Response): Effect
  {
    match resp
    case V2ConnectFailed => Effect([Write("xms_up", 0)], None)
    case V2Connected(sessions, licenses) =>
      Then(Effect([Write("xms_up", 1)], None),
           if prefix == "xms_counter" then SessionEffect(prefix, sessions) else LicenseEffect(prefix, licenses))
  }

  /** `fetchXmsV2Metrics`. */
  method FetchXmsV2Metrics(store: MetricSet, prefix: string, resp: V2Response) returns (halt: Option<Halt>)
    modifies store
    ensures store.values == Apply(old(store.values), V2Effect(prefix, resp).writes)
    ensures halt == V2Effect(prefix, resp).halt
  {
    if resp.V2ConnectFailed? {
      store.Set("xms_up", 0);
      return None;
    }
    store.Set("xms_up", 1);
    ghost var up := [Write("xms_up", 1)];
    assert store.values == Apply(old(store.values), up);
    ghost var rest;
    if prefix == "xms_counter" {
      halt := ProcessXmsV2SessionMetrics(store, prefix, resp.sessions);
      rest := SessionEffect(prefix, resp.sessions).writes;
    } else {
      halt := ProcessXmsV2LicenseMetrics(store, prefix, resp.licenses);
      rest := LicenseEffect(prefix, resp.licenses).writes;
    }
    ApplyAppend(old(store.values), up, rest);
  }

  /**
   * A server that cannot be reached only sets `xms_up` to 0: every metric
   * published before, under any name, is kept.
   */
  lemma ConnectFailureKeepsMetrics(m: map<string, U64>, prefix: string)
    ensures V2Effect(prefix, V2ConnectFailed).halt == None
    ensures var r := Apply(m, V2Effect(prefix, V2ConnectFailed).writes);
            && "xms_up" in r && r["xms_up"] == 0
            && forall k | k in m && k != "xms_up" :: k in r && r[k] == m[k]
  {
    var ws := V2Effect(prefix, V2ConnectFailed).writes;
    assert ws[1..] == [];
  }

  /**
   * A body that does not decode stops the process after `xms_up` has been
   * set to 1 and before any other metric is written.
   */
  lemma DecodeFailureStops(prefix: string, sessions: Option<SessionUsages>, licenses: Option<seq<LicenseUsage>>)
    requires if prefix == "xms_counter" then sessions.None? else licenses.None?
    ensures V2Effect(prefix, V2Connected(sessions, licenses))
            == Effect([Write("xms_up", 1)], Some(DecodeFailure(prefix)))
  {
  }

  /**
   * A decoded response marks the server up and publishes exactly the part
   * that the prefix selects; the other part is not looked at.
   */
  lemma ConnectedPublishes(m: map<string, U64>, prefix: string, s: SessionUsages, ls: seq<LicenseUsage>)
    ensures var e := V2Effect(prefix, V2Connected(Some(s), Some(ls)));
            && e.halt == None
            && e.writes[0] == Write("xms_up", 1)
            && e.writes[1..] == if prefix == "xms_counter" then SessionWrites(prefix, s) else AllV2LicenseWrites(prefix, ls)
  {
  }
}
