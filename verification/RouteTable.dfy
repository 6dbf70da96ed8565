/** The routing table: signed-route admission, the timestamp window, the replay guard and eviction. */
module RouteTable {
  import opened Bytes
  import opened Options

  const ROUTE_MAX_AGE_SEC: nat := 1800
  const ROUTE_FUTURE_SKEW_SEC: nat := 300
  const ROUTE_TTL_MS: nat := 600_000

  /** A route message as it arrives: the signed envelope, or the bare JSON of older publishers. */
  datatype Body = Envelope(route: string, pubkey: string, sig: string) | Plain(json: string)

  /** The parts outside this file: field extraction, route_verify and the expected chain anchor. */
  datatype Outside = Outside(
    text: (string, string) -> string,
    number: (string, string) -> UInt64,
    verify: (string, string, string, string) -> bool,
    anchor: string)

  datatype Config = Config(out: Outside, requireSigned: bool, allowLegacy: bool)

  datatype RouteEntry = RouteEntry(nodeId: string, ratsPeer: string, ts: UInt64, receivedMs: nat, envelope: Option<Body>)

  datatype State = State(routes: map<string, RouteEntry>, clock: nat)

  datatype Verdict =
    | Admitted(entry: RouteEntry)
    | BadSignature | UnsignedRefused | NoNodeId | NoAnchor | WrongChain | OutsideWindow | Replay

  datatype Event =
    | Tick(dt: nat)
    | Ingest(body: Body, peer: string, nowS: UInt64)
    | SendFailed(target: string)
    | Reap

  // ---- Admission -----------------------------------------------------------

  function Inner(b: Body): string { if b.Envelope? then b.route else b.json }

  function EntryOf(o: Outside, b: Body, peer: string, clock: nat): RouteEntry {
    var inner := Inner(b);
    var named := o.text(inner, "rats_peer_id");
    RouteEntry(o.text(inner, "node_id"), if named == "" then peer else named, o.number(inner, "ts"), clock,
               if b.Envelope? then Some(b) else None)
  }

  predicate Verified(o: Outside, b: Body) {
    b.Envelope? && o.verify(b.route, o.text(b.route, "node_id"), b.pubkey, b.sig)
  }

  /** The window test in 64-bit arithmetic: the first sum may wrap. */
  predicate Stale(ts: UInt64, nowS: UInt64) {
    (ts + ROUTE_MAX_AGE_SEC) % U64_RANGE < nowS || ts > (nowS + ROUTE_FUTURE_SKEW_SEC) % U64_RANGE
  }

  function Judge(c: Config, s: State, b: Body, peer: string, nowS: UInt64): Verdict {
    var e := EntryOf(c.out, b, peer, s.clock);
    var chain := c.out.text(Inner(b), "anchor");
    if b.Envelope? && !Verified(c.out, b) then BadSignature
    else if b.Plain? && c.requireSigned then UnsignedRefused
    else if e.nodeId == "" then NoNodeId
    else if chain == "" && !c.allowLegacy then NoAnchor
    else if chain != "" && chain != c.out.anchor then WrongChain
    else if b.Envelope? && Stale(e.ts, nowS) then OutsideWindow
    else if e.nodeId in s.routes && s.routes[e.nodeId].envelope.Some? && e.ts < s.routes[e.nodeId].ts then Replay
    else Admitted(e)
  }

  predicate Expired(e: RouteEntry, now: nat) { e.receivedMs + ROUTE_TTL_MS < now }

  function Next(c: Config, s: State, e: Event): State {
    match e
    case Tick(dt) => s.(clock := s.clock + dt)
    case Ingest(body, peer, nowS) =>
      var v := Judge(c, s, body, peer, nowS);
      if v.Admitted? then s.(routes := s.routes[v.entry.nodeId := v.entry]) else s
    case SendFailed(target) =>
      s.(routes := map id | id in s.routes && s.routes[id].ratsPeer != target :: s.routes[id])
    case Reap =>
      s.(routes := map id | id in s.routes && !Expired(s.routes[id], s.clock) :: s.routes[id])
  }

  function Run(c: Config, es: seq<Event>): State {
    if es == [] then State(map[], 0) else Next(c, Run(c, es[..|es| - 1]), es[|es| - 1])
  }

  // ---- Admission, exactly -----------------------------------------------------

  /** The largest wall-clock second a 64-bit millisecond clock can yield. */
  const MAX_WALL_S: nat := U64_RANGE / 1000

  /** The wrapping test is the plain interval now-1800 .. now+300. */
  lemma WindowIsExact(ts: UInt64, nowS: UInt64)
    requires nowS <= MAX_WALL_S
    ensures !Stale(ts, nowS) <==> nowS - ROUTE_MAX_AGE_SEC <= ts <= nowS + ROUTE_FUTURE_SKEW_SEC
  {
  }

  /** The route names the chain this node is on; a route without an anchor passes where legacy routes do. */
  predicate OnThisChain(c: Config, b: Body) {
    var chain := c.out.text(Inner(b), "anchor");
    if chain == "" then c.allowLegacy else chain == c.out.anchor
  }

  /** A signed route enters the table if and only if it is genuine, on this chain, inside the window and
      not older than a signed route already held for the same node. */
  lemma SignedAdmittedIff(c: Config, s: State, b: Body, peer: string, nowS: UInt64)
    requires b.Envelope? && nowS <= MAX_WALL_S
    ensures
      var id, ts := c.out.text(b.route, "node_id"), c.out.number(b.route, "ts");
      Judge(c, s, b, peer, nowS).Admitted? <==>
        && c.out.verify(b.route, id, b.pubkey, b.sig)
        && id != ""
        && OnThisChain(c, b)
        && nowS - ROUTE_MAX_AGE_SEC <= ts <= nowS + ROUTE_FUTURE_SKEW_SEC
        && (id in s.routes && s.routes[id].envelope.Some? ==> s.routes[id].ts <= ts)
  {
    WindowIsExact(c.out.number(b.route, "ts"), nowS);
  }

  /** An unsigned route enters the table if and only if enforcement is off, it names a node on this chain, and no
      newer signed route is held for that node. Neither its timestamp nor its sender is checked otherwise. */
  lemma PlainAdmittedIff(c: Config, s: State, b: Body, peer: string, nowS: UInt64)
    requires b.Plain?
    ensures
      var id, ts := c.out.text(b.json, "node_id"), c.out.number(b.json, "ts");
      Judge(c, s, b, peer, nowS).Admitted? <==>
        && !c.requireSigned
        && id != ""
        && OnThisChain(c, b)
        && (id in s.routes && s.routes[id].envelope.Some? ==> s.routes[id].ts <= ts)
  {
  }

  // ---- Provenance ----------------------------------------------------------------

  /** An entry that kept its envelope got every field that decides routing from it, and the envelope was
      verified for exactly the node id the entry is filed under. */
  ghost predicate Genuine(c: Config, id: string, e: RouteEntry)
    requires e.envelope.Some?
  {
    var b := e.envelope.value;
    && b.Envelope?
    && c.out.text(b.route, "node_id") == id
    && c.out.verify(b.route, id, b.pubkey, b.sig)
    && e.ts == c.out.number(b.route, "ts")
    && (c.out.text(b.route, "rats_peer_id") != "" ==> e.ratsPeer == c.out.text(b.route, "rats_peer_id"))
  }

  ghost predicate Inv(c: Config, s: State) {
    forall id :: id in s.routes ==>
      && id != "" && s.routes[id].nodeId == id
      && (s.routes[id].envelope.Some? ==> Genuine(c, id, s.routes[id]))
      && (c.requireSigned ==> s.routes[id].envelope.Some?)
  }

  /** In every reachable state each signed entry is genuine, and with enforcement on every entry is signed. */
  lemma {:induction false} EntriesAreGenuine(c: Config, es: seq<Event>)
    ensures Inv(c, Run(c, es))
  {
    if es != [] {
      EntriesAreGenuine(c, es[..|es| - 1]);
    }
  }

  // ---- Timestamps -----------------------------------------------------------------

  /** A step lowers the timestamp of a node that stays in the table if and only if an admissible route with
      a smaller timestamp arrives while the entry held is unsigned. */
  lemma StepLowersTsIff(c: Config, es: seq<Event>, e: Event, id: string)
    requires id in Run(c, es).routes && id in Next(c, Run(c, es), e).routes
    ensures
      var s := Run(c, es);
      Next(c, s, e).routes[id].ts < s.routes[id].ts <==>
        && s.routes[id].envelope.None?
        && e.Ingest? && Judge(c, s, e.body, e.peer, e.nowS).Admitted?
        && c.out.text(Inner(e.body), "node_id") == id
        && c.out.number(Inner(e.body), "ts") < s.routes[id].ts
  {
    EntriesAreGenuine(c, es);
  }

  lemma PrefixSnoc(c: Config, es: seq<Event>, k: nat)
    requires k < |es|
    ensures Run(c, es[..k + 1]) == Next(c, Run(c, es[..k]), es[k])
  {
    assert es[..k + 1][..k] == es[..k];
  }

  /** While a node stays in the table and its entry stays signed, its timestamp never decreases. */
  lemma {:induction false} TsMonotone(c: Config, es: seq<Event>, n: nat, m: nat, id: string)
    requires n <= m <= |es|
    requires forall k :: n <= k <= m ==> id in Run(c, es[..k]).routes
    requires forall k :: n <= k < m ==> Run(c, es[..k]).routes[id].envelope.Some?
    ensures Run(c, es[..n]).routes[id].ts <= Run(c, es[..m]).routes[id].ts
    decreases m
  {
    if n < m {
      TsMonotone(c, es, n, m - 1, id);
      PrefixSnoc(c, es, m - 1);
      StepLowersTsIff(c, es[..m - 1], es[m - 1], id);
    }
  }

  /** With signed routes required that is every node, all the time it is listed. */
  lemma TsMonotoneWhenEnforcing(c: Config, es: seq<Event>, n: nat, m: nat, id: string)
    requires c.requireSigned && n <= m <= |es|
    requires forall k :: n <= k <= m ==> id in Run(c, es[..k]).routes
    ensures Run(c, es[..n]).routes[id].ts <= Run(c, es[..m]).routes[id].ts
  {
    forall k | n <= k < m
      ensures Run(c, es[..k]).routes[id].envelope.Some?
    {
      EntriesAreGenuine(c, es[..k]);
    }
    TsMonotone(c, es, n, m, id);
  }

  /** In lenient mode an unsigned route can stand between two signed ones and undo the replay guard:
      a genuine envelope older than the first one is then admitted. */
  lemma LenientModeReplays(c: Config, signed: Body, plain: Body, older: Body, id: string, nowS: UInt64)
    requires !c.requireSigned && id != "" && nowS <= MAX_WALL_S
    requires signed.Envelope? && plain.Plain? && older.Envelope? && Verified(c.out, signed) && Verified(c.out, older)
    requires forall b :: b in [signed, plain, older] ==> c.out.text(Inner(b), "node_id") == id && OnThisChain(c, b)
    requires nowS - ROUTE_MAX_AGE_SEC <= c.out.number(older.route, "ts")
    requires c.out.number(older.route, "ts") < c.out.number(signed.route, "ts") <= c.out.number(plain.json, "ts")
    requires c.out.number(signed.route, "ts") <= nowS + ROUTE_FUTURE_SKEW_SEC
    ensures
      var s1 := Next(c, Run(c, []), Ingest(signed, "p", nowS));
      var s2 := Next(c, s1, Ingest(plain, "p", nowS));
      var s3 := Next(c, s2, Ingest(older, "p", nowS));
      && Next(c, s1, Ingest(older, "p", nowS)) == s1
      && id in s1.routes && id in s3.routes && s3.routes[id].ts < s1.routes[id].ts
      && s1.routes[id].envelope.Some? && s3.routes[id].envelope.Some?
  {
    assert signed in [signed, plain, older] && plain in [signed, plain, older] && older in [signed, plain, older];
    WindowIsExact(c.out.number(signed.route, "ts"), nowS);
    WindowIsExact(c.out.number(older.route, "ts"), nowS);
    var s1 := Next(c, Run(c, []), Ingest(signed, "p", nowS));
    assert s1.routes == map[id := EntryOf(c.out, signed, "p", 0)];
    var s2 := Next(c, s1, Ingest(plain, "p", nowS));
    assert s2.routes == map[id := EntryOf(c.out, plain, "p", 0)];
  }

  // ---- What the events say about the table ------------------------------------------

  /** At step i a route of this node was admitted, and stored as this entry. */
  ghost predicate AdmittedAt(c: Config, es: seq<Event>, i: nat, e: RouteEntry) {
    && i < |es| && es[i].Ingest?
    && Judge(c, Run(c, es[..i]), es[i].body, es[i].peer, es[i].nowS) == Admitted(e)
  }

  /** The peer a route is reachable through: the one it names, or else the one it came from. */
  function PeerOf(c: Config, e: Event): string
    requires e.Ingest?
  {
    var named := c.out.text(Inner(e.body), "rats_peer_id");
    if named == "" then e.peer else named
  }

  /** What is stored is the arrival: its node, the peer it is reachable through, its timestamp, the clock when it came
      and, for a signed route, its envelope. */
  lemma EntryIsTheArrival(c: Config, es: seq<Event>, i: nat, e: RouteEntry)
    requires AdmittedAt(c, es, i, e)
    ensures e.nodeId == c.out.text(Inner(es[i].body), "node_id") != ""
    ensures e.ratsPeer == PeerOf(c, es[i])
    ensures e.ts == c.out.number(Inner(es[i].body), "ts")
    ensures e.receivedMs == Run(c, es[..i]).clock
    ensures e.envelope == if es[i].body.Envelope? then Some(es[i].body) else None
  {
  }

  lemma {:induction false} ClockTicks(c: Config, es: seq<Event>)
    ensures Run(c, es).clock == Elapsed(es)
  {
    if es != [] {
      ClockTicks(c, es[..|es| - 1]);
    }
  }

  /** Milliseconds that have passed in a run. */
  function Elapsed(es: seq<Event>): nat {
    if es == [] then 0 else Elapsed(es[..|es| - 1]) + (if es[|es| - 1].Tick? then es[|es| - 1].dt else 0)
  }

  /** Step k takes out what arrived at step i: a failed send to its peer, or a reaper pass more than ten minutes
      later. */
  predicate DropsAt(c: Config, es: seq<Event>, i: nat, k: nat)
    requires i < |es| && k < |es| && es[i].Ingest?
  {
    || es[k] == SendFailed(PeerOf(c, es[i]))
    || (es[k].Reap? && Elapsed(es[..k]) > Elapsed(es[..i]) + 600_000)
  }

  /** Admitted at step i, and since then neither dropped nor replaced. */
  ghost predicate Stands(c: Config, es: seq<Event>, i: nat, e: RouteEntry) {
    && AdmittedAt(c, es, i, e)
    && (forall k :: i < k < |es| ==> !DropsAt(c, es, i, k))
    && (forall k, f :: i < k < |es| && AdmittedAt(c, es, k, f) ==> f.nodeId != e.nodeId)
  }

  lemma AdmittedEarlier(c: Config, es: seq<Event>, e: Event, i: nat, f: RouteEntry)
    requires i < |es|
    ensures AdmittedAt(c, es + [e], i, f) <==> AdmittedAt(c, es, i, f)
  {
    assert (es + [e])[..i] == es[..i];
  }

  lemma DropsEarlier(c: Config, es: seq<Event>, e: Event, i: nat, k: nat)
    requires i <= k < |es| && es[i].Ingest?
    ensures DropsAt(c, es + [e], i, k) <==> DropsAt(c, es, i, k)
  {
    assert (es + [e])[..i] == es[..i] && (es + [e])[..k] == es[..k];
  }

  /** What one more event does to a standing entry. */
  lemma StandsSnoc(c: Config, es: seq<Event>, e: Event, i: nat, f: RouteEntry)
    requires i < |es| && es[i].Ingest?
    ensures Stands(c, es + [e], i, f) <==>
              && Stands(c, es, i, f)
              && !DropsAt(c, es + [e], i, |es|)
              && forall g :: AdmittedAt(c, es + [e], |es|, g) ==> g.nodeId != f.nodeId
  {
    AdmittedEarlier(c, es, e, i, f);
    var t := es + [e];
    if Stands(c, t, i, f) {
      forall k | i < k < |es|
        ensures !DropsAt(c, es, i, k)
      {
        DropsEarlier(c, es, e, i, k);
        assert !DropsAt(c, t, i, k);
      }
      forall k, g | i < k < |es| && AdmittedAt(c, es, k, g)
        ensures g.nodeId != f.nodeId
      {
        AdmittedEarlier(c, es, e, k, g);
      }
    }
    if Stands(c, es, i, f) && !DropsAt(c, t, i, |es|) && forall g :: AdmittedAt(c, t, |es|, g) ==> g.nodeId != f.nodeId {
      forall k | i < k < |t|
        ensures !DropsAt(c, t, i, k)
      {
        if k < |es| {
          DropsEarlier(c, es, e, i, k);
        }
      }
      forall k, g | i < k < |t| && AdmittedAt(c, t, k, g)
        ensures g.nodeId != f.nodeId
      {
        if k < |es| {
          AdmittedEarlier(c, es, e, k, g);
        }
      }
    }
  }

  /** An arrival is dropped exactly when its entry is. */
  lemma DropIsExact(c: Config, es: seq<Event>, i: nat, k: nat, e: RouteEntry)
    requires i < k < |es| && AdmittedAt(c, es, i, e)
    ensures DropsAt(c, es, i, k) <==>
              es[k] == SendFailed(e.ratsPeer) || (es[k].Reap? && Expired(e, Run(c, es[..k]).clock))
  {
    EntryIsTheArrival(c, es, i, e);
    ClockTicks(c, es[..i]);
    ClockTicks(c, es[..k]);
  }

  lemma EntryStands(c: Config, es: seq<Event>, id: string) returns (i: nat)
    requires id in Run(c, es).routes
    ensures Stands(c, es, i, Run(c, es).routes[id]) && Run(c, es).routes[id].nodeId == id
    decreases |es|
  {
    var n := |es| - 1;
    var p, e := es[..n], es[n];
    assert es == p + [e] && (p + [e])[..n] == p;
    EntriesAreGenuine(c, p);
    EntriesAreGenuine(c, es);
    var f := Run(c, es).routes[id];
    if e.Ingest? && Judge(c, Run(c, p), e.body, e.peer, e.nowS) == Admitted(f) {
      i := n;
      assert AdmittedAt(c, es, n, f);
    } else {
      assert id in Run(c, p).routes && Run(c, p).routes[id] == f;
      i := EntryStands(c, p, id);
      AdmittedEarlier(c, p, e, i, f);
      DropIsExact(c, es, i, n, f);
      StandsSnoc(c, p, e, i, f);
    }
  }

  /** One step keeps an entry that it neither drops nor replaces. */
  lemma EntryStays(c: Config, s: State, e: Event, f: RouteEntry)
    requires f.nodeId in s.routes && s.routes[f.nodeId] == f
    requires e != SendFailed(f.ratsPeer) && !(e.Reap? && Expired(f, s.clock))
    requires e.Ingest? ==>
               var v := Judge(c, s, e.body, e.peer, e.nowS); v.Admitted? ==> v.entry.nodeId != f.nodeId
    ensures f.nodeId in Next(c, s, e).routes && Next(c, s, e).routes[f.nodeId] == f
  {
  }

  lemma StandingIsKept(c: Config, es: seq<Event>, i: nat, e: RouteEntry, n: nat)
    requires Stands(c, es, i, e) && i < n < |es|
    requires e.nodeId in Run(c, es[..n]).routes && Run(c, es[..n]).routes[e.nodeId] == e
    ensures e.nodeId in Next(c, Run(c, es[..n]), es[n]).routes
    ensures Next(c, Run(c, es[..n]), es[n]).routes[e.nodeId] == e
  {
    DropIsExact(c, es, i, n, e);
    assert !DropsAt(c, es, i, n);
    if es[n].Ingest? {
      var v := Judge(c, Run(c, es[..n]), es[n].body, es[n].peer, es[n].nowS);
      if v.Admitted? {
        assert AdmittedAt(c, es, n, v.entry);
      }
    }
    EntryStays(c, Run(c, es[..n]), es[n], e);
  }

  lemma StandingBefore(c: Config, es: seq<Event>, i: nat, e: RouteEntry)
    requires Stands(c, es, i, e) && i + 1 < |es|
    ensures Stands(c, es[..|es| - 1], i, e)
  {
    var n := |es| - 1;
    assert es == es[..n] + [es[n]];
    StandsSnoc(c, es[..n], es[n], i, e);
  }

  lemma StandingIsNew(c: Config, es: seq<Event>, e: RouteEntry)
    requires es != [] && AdmittedAt(c, es, |es| - 1, e)
    ensures e.nodeId in Run(c, es).routes && Run(c, es).routes[e.nodeId] == e
  {
  }

  lemma LastStep(c: Config, es: seq<Event>)
    requires es != []
    ensures Run(c, es) == Next(c, Run(c, es[..|es| - 1]), es[|es| - 1])
  {
  }

  lemma {:induction false} StandingIsListed(c: Config, es: seq<Event>, i: nat, e: RouteEntry)
    requires Stands(c, es, i, e)
    ensures e.nodeId in Run(c, es).routes && Run(c, es).routes[e.nodeId] == e
  {
    var n := |es| - 1;
    if i == n {
      StandingIsNew(c, es, e);
    } else {
      StandingBefore(c, es, i, e);
      StandingIsListed(c, es[..n], i, e);
      StandingIsKept(c, es, i, e, n);
      LastStep(c, es);
    }
  }

  /** The table told by the events: a node is listed with an entry if and only if exactly that entry was admitted
      from a route that arrived, and since then neither has another route for the node been admitted, nor a send to
      its peer failed, nor the reaper passed more than ten minutes after the arrival. */
  lemma ListedIff(c: Config, es: seq<Event>, e: RouteEntry)
    ensures (e.nodeId in Run(c, es).routes && Run(c, es).routes[e.nodeId] == e) <==> exists i :: Stands(c, es, i, e)
  {
    if e.nodeId in Run(c, es).routes && Run(c, es).routes[e.nodeId] == e {
      var i := EntryStands(c, es, e.nodeId);
    }
    if i: nat :| Stands(c, es, i, e) {
      StandingIsListed(c, es, i, e);
    }
  }

  /** A node leaves the table if and only if a send fails to the peer of the route that listed it, or a reaper pass
      comes more than ten minutes after that route arrived. */
  lemma RouteLeavesIff(c: Config, es: seq<Event>, e: Event, id: string) returns (i: nat)
    requires id in Run(c, es).routes
    ensures Stands(c, es, i, Run(c, es).routes[id])
    ensures
      id !in Next(c, Run(c, es), e).routes <==>
        || (e.SendFailed? && e.target == PeerOf(c, es[i]))
        || (e.Reap? && Elapsed(es) - Elapsed(es[..i]) > 600_000)
  {
    i := EntryStands(c, es, id);
    EntryIsTheArrival(c, es, i, Run(c, es).routes[id]);
    ClockTicks(c, es);
    ClockTicks(c, es[..i]);
  }

  /** So a signed entry carries an envelope that arrived, byte for byte, and was verified then. */
  lemma EnvelopeArrived(c: Config, es: seq<Event>, id: string)
    requires id in Run(c, es).routes && Run(c, es).routes[id].envelope.Some?
    ensures exists i :: 0 <= i < |es| && es[i].Ingest? && es[i].body == Run(c, es).routes[id].envelope.value
                     && Verified(c.out, es[i].body) && c.out.text(es[i].body.route, "node_id") == id
  {
    var i := EntryStands(c, es, id);
  }

  // ---- The table, updated in place ---------------------------------------------------

  class Routes {
    const config: Config
    var routes: map<string, RouteEntry>   // g_routes
    var clock: nat                        // what mono_ms() reads

    ghost function View(): State
      reads this
    {
      State(routes, clock)
    }

    constructor (config: Config)
      ensures this.config == config && View() == Run(config, [])
    {
      this.config := config;
      routes, clock := map[], 0;
    }

    /** ingest_route up to the table update; the verdict says why a route was dropped. */
    method IngestRoute(body: Body, peer: string, nowS: UInt64) returns (v: Verdict)
      modifies this`routes
      ensures v == Judge(config, old(View()), body, peer, nowS)
      ensures View() == Next(config, old(View()), Ingest(body, peer, nowS))
    {
      var o := config.out;
      var inner, signedEnv := Inner(body), None;
      if body.Envelope? {
        var claimed := o.text(body.route, "node_id");
        if !o.verify(body.route, claimed, body.pubkey, body.sig) {
          return BadSignature;
        }
        signedEnv := Some(body);
      } else if config.requireSigned {
        return UnsignedRefused;
      }
      var e := RouteEntry(o.text(inner, "node_id"), o.text(inner, "rats_peer_id"), o.number(inner, "ts"), clock, signedEnv);
      if e.ratsPeer == "" {
        e := e.(ratsPeer := peer);
      }
      if e.nodeId == "" {
        return NoNodeId;
      }
      var anchor := o.text(inner, "anchor");
      if anchor == "" {
        if !config.allowLegacy {
          return NoAnchor;
        }
      } else if anchor != o.anchor {
        return WrongChain;
      }
      if signedEnv.Some? && Stale(e.ts, nowS) {
        return OutsideWindow;
      }
      if e.nodeId in routes && routes[e.nodeId].envelope.Some? && e.ts < routes[e.nodeId].ts {
        return Replay;
      }
      routes := routes[e.nodeId := e];
      return Admitted(e);
    }

    /** Dead-route eviction after a failed relay.forward. */
    method EvictTarget(target: string)
      modifies this`routes
      ensures View() == Next(config, old(View()), SendFailed(target))
    {
      ghost var was := routes;
      var todo := routes.Keys;
      while todo != {}
        invariant todo <= was.Keys
        invariant routes == map id | id in was && (id in todo || was[id].ratsPeer != target) :: was[id]
        decreases todo
      {
        var id :| id in todo;
        if routes[id].ratsPeer == target {
          routes := routes - {id};
        }
        todo := todo - {id};
      }
    }

    /** Reaper job 1. */
    method ReapRoutes()
      modifies this`routes
      ensures View() == Next(config, old(View()), Reap)
    {
      ghost var was := routes;
      var todo := routes.Keys;
      while todo != {}
        invariant todo <= was.Keys
        invariant routes == map id | id in was && (id in todo || !Expired(was[id], clock)) :: was[id]
        decreases todo
      {
        var id :| id in todo;
        if routes[id].receivedMs + ROUTE_TTL_MS < clock {
          routes := routes - {id};
        }
        todo := todo - {id};
      }
    }
  }
}
