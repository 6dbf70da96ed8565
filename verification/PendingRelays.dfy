/** The request/reply correlation protocol of the relay: relay.forward and
    on_relay_reply on the io thread, pending_sweep_loop on its own thread, and the
    purge on disconnect, interleaved at the granularity of g_relay_mu. */
module PendingRelays {
  import opened Bytes

  type PeerId = string

  const PENDING_RELAY_TTL_MS: nat := 9000

  datatype Entry = Entry(originator: PeerId, origReq: string, createdMs: nat, target: PeerId)

  /** What the node sends back to an originator about one of its forwards. */
  datatype Answer =
    | Relayed(to: PeerId, reqId: string, from: PeerId, body: string)
    | DeadRoute(to: PeerId, reqId: string)
    | TimedOut(to: PeerId, reqId: string)

  /** Where a forward stands: still in the table, or how its entry left. */
  datatype Fate = Open | Replied(body: string) | SendFailed | Expired | Purged

  /** The io thread is either between callbacks or inside relay.forward, after the
      insert and before the return code of the send. */
  datatype Io = Idle | Sending(id: string, caller: PeerId, reqId: string)

  /** The sweeper reads the clock before it takes the lock. */
  datatype Sweeper = Sleeping | Woken(at: nat)

  /** History of one accepted forward. `raced` marks a failed send whose erase found nothing. */
  datatype Record = Record(entry: Entry, nth: nat, fate: Fate, answers: seq<Answer>, raced: bool) {
    function Leave(how: Fate, answer: seq<Answer>): Record { this.(fate := how, answers := answers + answer) }
  }

  /** Everything that ever happened; records are keyed by minted id. */
  datatype History = History(
    base: UInt64,        // first value of the id counter
    minted: nat,         // ids minted so far, by any handler
    lastSweep: nat,      // clock reading of the latest finished sweep
    log: map<string, Record>)

  datatype State = State(
    pending: map<string, Entry>,
    counter: UInt64,
    io: Io,
    sweeper: Sweeper,
    clock: nat,
    hist: History)

  datatype Event =
    | Tick(dt: nat)
    | Mint
    | Forward(peer: PeerId, reqId: string, target: PeerId, verb: string)
    | SendDone(ok: bool)
    | Reply(sender: PeerId, replyId: string, body: string)
    | Disconnect(gone: PeerId)
    | SweepWake
    | SweepRun

  // ---- Minted ids ----------------------------------------------------

  function RelayId(n: UInt64): string { "relay-" + Hex(n, 16) }

  /** The id produced by the k-th call of new_relay_req_id. */
  function IdOf(base: UInt64, k: nat): string { RelayId((base + k) % U64_RANGE) }

  /** An id is "relay-" and sixteen lowercase hex digits, most significant first. */
  lemma RelayIdIs(n: UInt64)
    ensures |RelayId(n)| == 22 && RelayId(n)[..6] == "relay-"
    ensures forall i: nat :: i < 16 ==> RelayId(n)[21 - i] == "0123456789abcdef"[n / Pow16(i) % 16]
  {
    forall i: nat | i < 16
      ensures RelayId(n)[21 - i] == "0123456789abcdef"[n / Pow16(i) % 16]
    {
      HexAt(n, 16, i);
    }
  }

  lemma RelayIdInjective(a: UInt64, b: UInt64)
    requires RelayId(a) == RelayId(b)
    ensures a == b
  {
    assert RelayId(a)[6..] == Hex(a, 16) && RelayId(b)[6..] == Hex(b, 16);
    Pow16Of16();
    HexInjective(a, b, 16);
  }

  lemma MintedIdsDistinct(base: UInt64, j: nat, k: nat)
    requires j < k < U64_RANGE
    ensures IdOf(base, j) != IdOf(base, k)
  {
    var a: UInt64, b: UInt64 := (base + j) % U64_RANGE, (base + k) % U64_RANGE;
    assert a != b;
    if RelayId(a) == RelayId(b) {
      RelayIdInjective(a, b);
    }
  }

  // ---- Transitions ---------------------------------------------------

  predicate Stale(e: Entry, at: nat) { e.createdMs + PENDING_RELAY_TTL_MS < at }

  predicate TargetMatches(recorded: PeerId, sender: PeerId) { recorded == "" || recorded == sender }

  /** Replies to the node's own RPCs are absorbed before the table is consulted. */
  predicate Absorbed(replyId: string) { "chatmods-" <= replyId || "wlt-" <= replyId }

  predicate Claims(s: State, sender: PeerId, replyId: string) {
    && !Absorbed(replyId)
    && replyId in s.pending
    && TargetMatches(s.pending[replyId].target, sender)
  }

  predicate Accepts(s: State, e: Event) {
    e.Forward? && s.io.Idle? && e.target != "" && e.verb != ""
  }

  /** Whatever is in the table or in flight was accepted. */
  predicate Recorded(s: State) {
    s.pending.Keys <= s.hist.log.Keys && (s.io.Sending? ==> s.io.id in s.hist.log)
  }

  function Init(base: UInt64): State {
    State(map[], base, Idle, Sleeping, 0, History(base, 0, 0, map[]))
  }

  function Minted(s: State): State {
    s.(counter := (s.counter + 1) % U64_RANGE, hist := s.hist.(minted := s.hist.minted + 1))
  }

  function AfterForward(s: State, peer: PeerId, reqId: string, target: PeerId): State {
    var id := RelayId(s.counter);
    var e := Entry(peer, reqId, s.clock, target);
    var m := Minted(s);
    m.(pending := m.pending[id := e],
       io := Sending(id, peer, reqId),
       hist := m.hist.(log := m.hist.log[id := Record(e, s.hist.minted, Open, [], false)]))
  }

  function AfterFailedSend(s: State, id: string, caller: PeerId, reqId: string): State
    requires id in s.hist.log
  {
    var r, dead := s.hist.log[id], [DeadRoute(caller, reqId)];
    var r' := if id in s.pending then r.Leave(SendFailed, dead) else r.Leave(r.fate, dead).(raced := true);
    s.(pending := s.pending - {id}, io := Idle, hist := s.hist.(log := s.hist.log[id := r']))
  }

  function AfterReply(s: State, sender: PeerId, id: string, body: string): State
    requires id in s.pending && id in s.hist.log
  {
    var e := s.pending[id];
    var r' := s.hist.log[id].Leave(Replied(body), [Relayed(e.originator, e.origReq, sender, body)]);
    s.(pending := s.pending - {id}, hist := s.hist.(log := s.hist.log[id := r']))
  }

  function OwnedBy(pending: map<string, Entry>, peer: PeerId): set<string> {
    set id | id in pending && pending[id].originator == peer
  }

  function AfterDisconnect(s: State, gone: PeerId): State {
    var owned := OwnedBy(s.pending, gone);
    s.(pending := s.pending - owned,
       hist := s.hist.(log := map id | id in s.hist.log ::
         if id in owned then s.hist.log[id].Leave(Purged, []) else s.hist.log[id]))
  }

  function StaleIds(pending: map<string, Entry>, at: nat): set<string> {
    set id | id in pending && Stale(pending[id], at)
  }

  /** relay_timeout goes to every stranded originator that has a peer id. */
  function Timeout(e: Entry): seq<Answer> {
    if e.originator == "" then [] else [TimedOut(e.originator, e.origReq)]
  }

  function AfterSweep(s: State, at: nat): State {
    var stale := StaleIds(s.pending, at);
    s.(pending := s.pending - stale,
       sweeper := Sleeping,
       hist := s.hist.(
         lastSweep := at,
         log := map id | id in s.hist.log ::
           if id in stale then s.hist.log[id].Leave(Expired, Timeout(s.pending[id])) else s.hist.log[id]))
  }

  /** One atomic step. An event its thread cannot take in this state changes nothing. */
  function Next(s: State, e: Event): (t: State)
    requires Recorded(s)
    ensures Recorded(t)
  {
    match e
    case Tick(dt) => s.(clock := s.clock + dt)
    case Mint => Minted(s)
    case Forward(peer, reqId, target, verb) =>
      if Accepts(s, e) then AfterForward(s, peer, reqId, target) else s
    case SendDone(ok) =>
      if s.io.Idle? then s
      else if ok then s.(io := Idle)
      else AfterFailedSend(s, s.io.id, s.io.caller, s.io.reqId)
    case Reply(sender, replyId, body) =>
      if s.io.Idle? && Claims(s, sender, replyId) then AfterReply(s, sender, replyId, body) else s
    case Disconnect(gone) =>
      if s.io.Idle? && gone != "" then AfterDisconnect(s, gone) else s
    case SweepWake => if s.sweeper.Sleeping? then s.(sweeper := Woken(s.clock)) else s
    case SweepRun => if s.sweeper.Woken? then AfterSweep(s, s.sweeper.at) else s
  }

  function Run(base: UInt64, es: seq<Event>): (s: State)
    ensures Recorded(s)
  {
    if es == [] then Init(base) else Next(Run(base, es[..|es| - 1]), es[|es| - 1])
  }

  // ---- The inductive invariant ---------------------------------------

  /** The complete list of answers a forward may have received, given its fate. */
  function Expected(e: Entry, fate: Fate, raced: bool): seq<Answer> {
    match fate
    case Open => []
    case Replied(body) => [Relayed(e.originator, e.origReq, e.target, body)]
    case SendFailed => [DeadRoute(e.originator, e.origReq)]
    case Purged => []
    case Expired => Timeout(e) + (if raced then [DeadRoute(e.originator, e.origReq)] else [])
  }

  ghost predicate Settled(r: Record) {
    && r.entry.target != ""
    && r.answers == Expected(r.entry, r.fate, r.raced)
    && (r.raced ==> r.fate.Expired?)
    && (r.fate.Purged? ==> r.entry.originator != "")
  }

  ghost predicate Timely(r: Record, lastSweep: nat, clock: nat) {
    && r.entry.createdMs <= clock
    && (r.fate.Open? ==> lastSweep <= r.entry.createdMs + PENDING_RELAY_TTL_MS)
    && (r.fate.Expired? ==> Stale(r.entry, lastSweep))
  }

  ghost predicate Listed(s: State, id: string, r: Record) {
    && (id in s.pending <==> r.fate.Open?)
    && (id in s.pending ==> s.pending[id] == r.entry)
    && r.nth < s.hist.minted && id == IdOf(s.hist.base, r.nth)
  }

  ghost predicate RecordOk(s: State, id: string)
    requires id in s.hist.log
  {
    && Listed(s, id, s.hist.log[id])
    && Settled(s.hist.log[id])
    && Timely(s.hist.log[id], s.hist.lastSweep, s.clock)
  }

  ghost predicate InFlight(s: State, io: Io)
    requires io.Sending?
  {
    && io.id in s.hist.log
    && var r := s.hist.log[io.id];
       && r.entry.originator == io.caller && r.entry.origReq == io.reqId
       && !r.raced && (r.fate.Open? || r.fate.Expired?)
  }

  ghost predicate ClocksOk(s: State) {
    && s.counter == (s.hist.base + s.hist.minted) % U64_RANGE
    && s.hist.lastSweep <= s.clock
    && (s.sweeper.Woken? ==> s.hist.lastSweep <= s.sweeper.at <= s.clock)
  }

  ghost predicate ThreadsOk(s: State) {
    && ClocksOk(s)
    && Recorded(s)
    && (s.io.Sending? ==> InFlight(s, s.io))
  }

  ghost predicate RecordsOk(s: State) { forall id :: id in s.hist.log ==> RecordOk(s, id) }

  ghost predicate Inv(s: State) { ThreadsOk(s) && RecordsOk(s) }

  lemma FreshId(s: State)
    requires Inv(s) && s.hist.minted < U64_RANGE
    ensures RelayId(s.counter) == IdOf(s.hist.base, s.hist.minted)
    ensures RelayId(s.counter) !in s.hist.log
  {
    var id := RelayId(s.counter);
    if id in s.hist.log {
      assert RecordOk(s, id);
      MintedIdsDistinct(s.hist.base, s.hist.log[id].nth, s.hist.minted);
      assert false;
    }
  }

  lemma CounterAdvances(base: UInt64, minted: nat)
    ensures ((base + minted) % U64_RANGE + 1) % U64_RANGE == (base + (minted + 1)) % U64_RANGE
  {
  }

  lemma ThreadsStayOk(s: State, e: Event)
    requires Inv(s)
    ensures ThreadsOk(Next(s, e))
  {
    ClocksStayOk(s, e);
    FlightStaysOk(s, e);
  }

  lemma ClocksStayOk(s: State, e: Event)
    requires Recorded(s) && ClocksOk(s)
    ensures ClocksOk(Next(s, e))
  {
    MintKeepsClocks(s);
    if e.Forward? && Accepts(s, e) {
      assert ClocksOk(Minted(s));
    }
  }

  lemma MintKeepsClocks(s: State)
    requires ClocksOk(s)
    ensures ClocksOk(Minted(s))
  {
    CounterAdvances(s.hist.base, s.hist.minted);
  }

  lemma FlightStaysOk(s: State, e: Event)
    requires Inv(s)
    ensures Next(s, e).io.Sending? ==> InFlight(Next(s, e), Next(s, e).io)
  {
    if s.io.Sending? {
      assert RecordOk(s, s.io.id);
    }
  }

  lemma RecordsStayOk(s: State, e: Event)
    requires Inv(s) && Next(s, e).hist.minted <= U64_RANGE
    ensures RecordsOk(Next(s, e))
  {
    forall id | id in Next(s, e).hist.log
      ensures RecordOk(Next(s, e), id)
    {
      RecordStaysOk(s, e, id);
    }
  }

  lemma NextKeepsInv(s: State, e: Event)
    requires Inv(s) && Next(s, e).hist.minted <= U64_RANGE
    ensures Inv(Next(s, e))
  {
    ThreadsStayOk(s, e);
    RecordsStayOk(s, e);
  }

  /** The record that a forward opens, and what a mint, a clock tick or a sweeper wake-up leaves alone. */
  lemma ForwardKeepsRecord(s: State, peer: PeerId, reqId: string, target: PeerId, id: string)
    requires Inv(s) && s.hist.minted < U64_RANGE && target != ""
    requires id in AfterForward(s, peer, reqId, target).hist.log
    ensures RecordOk(AfterForward(s, peer, reqId, target), id)
  {
    FreshId(s);
    if id in s.hist.log {
      assert RecordOk(s, id);
    }
  }

  lemma FailedSendKeepsRecord(s: State, id: string)
    requires s.io.Sending? && InFlight(s, s.io) && id in s.hist.log && RecordOk(s, id)
    ensures RecordOk(AfterFailedSend(s, s.io.id, s.io.caller, s.io.reqId), id)
  {
  }

  lemma SweepKeepsRecord(s: State, at: nat, id: string)
    requires Recorded(s) && ClocksOk(s) && s.sweeper == Woken(at) && id in s.hist.log && RecordOk(s, id)
    ensures RecordOk(AfterSweep(s, at), id)
  {
  }

  lemma RecordStaysOk(s: State, e: Event, id: string)
    requires Inv(s) && Next(s, e).hist.minted <= U64_RANGE
    requires id in Next(s, e).hist.log
    ensures RecordOk(Next(s, e), id)
  {
    if id in s.hist.log {
      assert RecordOk(s, id);
    }
    match e
    case Forward(peer, reqId, target, verb) =>
      if Accepts(s, e) { ForwardKeepsRecord(s, peer, reqId, target, id); }
    case SendDone(ok) => if s.io.Sending? && !ok { FailedSendKeepsRecord(s, id); }
    case SweepRun => if s.sweeper.Woken? { SweepKeepsRecord(s, s.sweeper.at, id); }
    case _ =>
  }

  lemma MintedGrows(s: State, e: Event)
    requires Recorded(s)
    ensures s.hist.minted <= Next(s, e).hist.minted
  {
  }

  /** Every interleaving keeps the invariant until the 64-bit id counter has gone all the way round. */
  lemma {:induction false} RunKeepsInv(base: UInt64, es: seq<Event>)
    requires Run(base, es).hist.minted <= U64_RANGE
    ensures Inv(Run(base, es))
  {
    if es != [] {
      var s, e := Run(base, es[..|es| - 1]), es[|es| - 1];
      MintedGrows(s, e);
      RunKeepsInv(base, es[..|es| - 1]);
      NextKeepsInv(s, e);
    }
  }

  // ---- What every run guarantees -------------------------------------

  /** In every state a request with a target and a verb is recorded under a fresh id and goes out, whatever else is
      pending; any other changes nothing. */
  lemma ForwardIsTaken(base: UInt64, es: seq<Event>, peer: PeerId, reqId: string, target: PeerId, verb: string)
    requires Run(base, es).hist.minted < U64_RANGE
    ensures
      var s, t := Run(base, es), Next(Run(base, es), Forward(peer, reqId, target, verb));
      var id, e := IdOf(base, s.hist.minted), Entry(peer, reqId, s.clock, target);
      if s.io.Idle? && target != "" && verb != ""
      then id !in s.pending && t.pending == s.pending[id := e] && t.io == Sending(id, peer, reqId)
           && id in t.hist.log && t.hist.log[id].fate == Open && t.hist.log[id].answers == []
      else t == s
  {
    var s := Run(base, es);
    if s.io.Idle? && target != "" && verb != "" {
      ForwardMints(s, peer, reqId, target, verb);
      NextIdIsFresh(base, es);
    } else {
      ForwardRefused(s, peer, reqId, target, verb);
    }
  }

  lemma NextIdIsFresh(base: UInt64, es: seq<Event>)
    requires Run(base, es).hist.minted < U64_RANGE
    ensures
      var s := Run(base, es);
      RelayId(s.counter) == IdOf(base, s.hist.minted) && RelayId(s.counter) !in s.pending
  {
    RunKeepsInv(base, es);
    BaseStays(base, es);
    FreshId(Run(base, es));
  }

  lemma {:induction false} BaseStays(base: UInt64, es: seq<Event>)
    ensures Run(base, es).hist.base == base
  {
    if es != [] {
      BaseStays(base, es[..|es| - 1]);
    }
  }

  lemma ForwardRefused(s: State, peer: PeerId, reqId: string, target: PeerId, verb: string)
    requires Recorded(s) && !(s.io.Idle? && target != "" && verb != "")
    ensures Next(s, Forward(peer, reqId, target, verb)) == s
  {
  }

  lemma ForwardMints(s: State, peer: PeerId, reqId: string, target: PeerId, verb: string)
    requires Recorded(s) && s.io.Idle? && target != "" && verb != ""
    ensures
      var t := Next(s, Forward(peer, reqId, target, verb));
      var id, e := RelayId(s.counter), Entry(peer, reqId, s.clock, target);
      && t.hist.minted == s.hist.minted + 1
      && t.pending == s.pending[id := e] && t.io == Sending(id, peer, reqId)
      && id in t.hist.log && t.hist.log[id].fate == Open && t.hist.log[id].answers == []
  {
  }

  /** The io thread comes back from every send. */
  lemma SendReturns(base: UInt64, es: seq<Event>, ok: bool)
    requires Run(base, es).io.Sending?
    ensures
      var s, t := Run(base, es), Next(Run(base, es), SendDone(ok));
      t.io.Idle? && t.pending == if ok then s.pending else s.pending - {s.io.id}
  {
  }

  /** An undisturbed pass of the sweeper leaves exactly the entries of the last 9000 ms, and every other entry whose
      originator has a peer id has been answered with relay_timeout. */
  lemma SweepClears(base: UInt64, es: seq<Event>)
    requires Run(base, es).hist.minted <= U64_RANGE && Run(base, es).sweeper.Sleeping?
    ensures
      var s, t := Run(base, es), Next(Next(Run(base, es), SweepWake), SweepRun);
      && t.sweeper.Sleeping? && t.hist.lastSweep == s.clock
      && (forall id :: id in t.pending <==> id in s.pending && s.clock <= s.pending[id].createdMs + 9000)
      && (forall id :: id in s.pending && id !in t.pending && s.pending[id].originator != "" ==>
            id in t.hist.log
            && t.hist.log[id].answers == [TimedOut(s.pending[id].originator, s.pending[id].origReq)])
  {
    RunKeepsInv(base, es);
    var s := Run(base, es);
    forall id | id in s.pending
      ensures id in s.hist.log && s.hist.log[id].answers == []
    {
      assert RecordOk(s, id);
    }
  }

  /** How many relay.forward requests arrived at an idle io thread with a target and a verb. */
  function AcceptedCount(base: UInt64, es: seq<Event>): nat {
    if es == [] then 0
    else
      var e := es[|es| - 1];
      AcceptedCount(base, es[..|es| - 1])
      + (if e.Forward? && Run(base, es[..|es| - 1]).io.Idle? && e.target != "" && e.verb != "" then 1 else 0)
  }

  function OpenIds(log: map<string, Record>): set<string> { set id | id in log && log[id].fate.Open? }
  function RepliedIds(log: map<string, Record>): set<string> { set id | id in log && log[id].fate.Replied? }
  function DeadRouteIds(log: map<string, Record>): set<string> { set id | id in log && log[id].fate.SendFailed? }
  function ExpiredIds(log: map<string, Record>): set<string> { set id | id in log && log[id].fate.Expired? }
  function PurgedIds(log: map<string, Record>): set<string> { set id | id in log && log[id].fate.Purged? }

  lemma OnlyForwardsLog(s: State, e: Event)
    requires Recorded(s)
    ensures Next(s, e).hist.log.Keys == s.hist.log.Keys + (if Accepts(s, e) then {RelayId(s.counter)} else {})
  {
  }

  lemma LogGrowsByForwards(s: State, e: Event)
    requires Inv(s) && Next(s, e).hist.minted <= U64_RANGE
    ensures |Next(s, e).hist.log| == |s.hist.log| + (if Accepts(s, e) then 1 else 0)
  {
    OnlyForwardsLog(s, e);
    if Accepts(s, e) {
      FreshId(s);
    }
    assert |s.hist.log.Keys| == |s.hist.log|;
    assert |Next(s, e).hist.log.Keys| == |Next(s, e).hist.log|;
  }

  lemma {:induction false} LogCountsForwards(base: UInt64, es: seq<Event>)
    requires Run(base, es).hist.minted <= U64_RANGE
    ensures |Run(base, es).hist.log| == AcceptedCount(base, es)
  {
    if es != [] {
      var s, e := Run(base, es[..|es| - 1]), es[|es| - 1];
      MintedGrows(s, e);
      RunKeepsInv(base, es[..|es| - 1]);
      LogCountsForwards(base, es[..|es| - 1]);
      LogGrowsByForwards(s, e);
    }
  }

  lemma PartitionByFate(log: map<string, Record>)
    ensures |log| == |OpenIds(log)| + |RepliedIds(log)| + |DeadRouteIds(log)| + |ExpiredIds(log)| + |PurgedIds(log)|
  {
    var two := RepliedIds(log) + DeadRouteIds(log);
    var three := two + ExpiredIds(log);
    var four := three + PurgedIds(log);
    assert log.Keys == OpenIds(log) + four;
    assert |log.Keys| == |log|;
  }

  /** Conservation: every accepted forward is in the table or left it in exactly one of four ways. */
  lemma Conservation(base: UInt64, es: seq<Event>)
    requires Run(base, es).hist.minted <= U64_RANGE
    ensures
      var s := Run(base, es);
      AcceptedCount(base, es) ==
        |s.pending| + |RepliedIds(s.hist.log)| + |DeadRouteIds(s.hist.log)|
        + |ExpiredIds(s.hist.log)| + |PurgedIds(s.hist.log)|
  {
    var s := Run(base, es);
    RunKeepsInv(base, es);
    LogCountsForwards(base, es);
    PartitionByFate(s.hist.log);
    assert s.pending.Keys == OpenIds(s.hist.log) by {
      forall id | id in s.hist.log ensures id in s.pending <==> s.hist.log[id].fate.Open? {
        assert RecordOk(s, id);
      }
    }
    assert |s.pending.Keys| == |s.pending|;
  }

  /** Each forward is answered at most once, to its own originator, under its own req_id, and a relayed
      answer came from the recorded target. The one exception is a failed send that lost the race. */
  lemma AnsweredOnceToOriginator(base: UInt64, es: seq<Event>, id: string)
    requires Run(base, es).hist.minted <= U64_RANGE
    requires id in Run(base, es).hist.log
    ensures
      var r := Run(base, es).hist.log[id];
      && (|r.answers| <= 1 || (r.raced && r.answers == [TimedOut(r.entry.originator, r.entry.origReq),
                                                        DeadRoute(r.entry.originator, r.entry.origReq)]))
      && (r.fate.Open? ==> r.answers == [])
      && forall i :: 0 <= i < |r.answers| ==>
           && r.answers[i].to == r.entry.originator
           && r.answers[i].reqId == r.entry.origReq
           && (r.answers[i].Relayed? ==> r.answers[i].from == r.entry.target)
  {
    RunKeepsInv(base, es);
    assert RecordOk(Run(base, es), id);
  }

  /** A record never forgets which forward opened it. */
  lemma EntryNeverChanges(s: State, e: Event, id: string)
    requires Inv(s) && Next(s, e).hist.minted <= U64_RANGE && id in s.hist.log
    ensures id in Next(s, e).hist.log && Next(s, e).hist.log[id].entry == s.hist.log[id].entry
  {
    if Accepts(s, e) {
      FreshId(s);
    }
  }

  /** The id minted for the forward at position i. */
  function IdAt(base: UInt64, es: seq<Event>, i: nat): string
    requires i < |es|
  {
    RelayId(Run(base, es[..i]).counter)
  }

  lemma {:induction false} ForwardIsRecorded(base: UInt64, es: seq<Event>, i: nat)
    requires Run(base, es).hist.minted <= U64_RANGE
    requires i < |es| && Accepts(Run(base, es[..i]), es[i])
    ensures
      var s, f := Run(base, es), es[i];
      && IdAt(base, es, i) in s.hist.log
      && s.hist.log[IdAt(base, es, i)].entry == Entry(f.peer, f.reqId, Run(base, es[..i]).clock, f.target)
  {
    var n := |es| - 1;
    MintedGrows(Run(base, es[..n]), es[n]);
    if i < n {
      assert es[..n][..i] == es[..i];
      ForwardIsRecorded(base, es[..n], i);
      RunKeepsInv(base, es[..n]);
      EntryNeverChanges(Run(base, es[..n]), es[n], IdAt(base, es, i));
    }
  }

  /** Tied to the request itself: whatever is ever answered for the forward at position i goes to the peer that
      sent it, under the req_id it used, and a relayed body comes from the target it named. */
  lemma AnswersMatchTheirForward(base: UInt64, es: seq<Event>, i: nat)
    requires Run(base, es).hist.minted <= U64_RANGE
    requires i < |es| && Accepts(Run(base, es[..i]), es[i])
    ensures IdAt(base, es, i) in Run(base, es).hist.log
    ensures
      var r := Run(base, es).hist.log[IdAt(base, es, i)];
      && (|r.answers| <= 1 || r.raced)
      && forall k :: 0 <= k < |r.answers| ==>
           && r.answers[k].to == es[i].peer && r.answers[k].reqId == es[i].reqId
           && (r.answers[k].Relayed? ==> r.answers[k].from == es[i].target)
  {
    ForwardIsRecorded(base, es, i);
    AnsweredOnceToOriginator(base, es, IdAt(base, es, i));
  }

  /** What an event makes of an entry that is in the table. */
  function Consequence(s: State, e: Event, id: string): Fate
    requires id in s.pending
  {
    var p := s.pending[id];
    match e
    case Reply(sender, replyId, body) =>
      if replyId == id && sender == p.target && s.io.Idle? then Replied(body) else Open
    case SendDone(ok) => if !ok && s.io.Sending? && s.io.id == id then SendFailed else Open
    case SweepRun => if s.sweeper.Woken? && s.sweeper.at > p.createdMs + PENDING_RELAY_TTL_MS then Expired else Open
    case Disconnect(gone) => if gone == p.originator && gone != "" && s.io.Idle? then Purged else Open
    case _ => Open
  }

  lemma ConsequenceIsExact(s: State, e: Event, id: string)
    requires Recorded(s) && id in s.pending && s.hist.log[id].fate.Open? && !Absorbed(id)
    requires s.pending[id].target != "" && (Accepts(s, e) ==> RelayId(s.counter) != id)
    ensures id in Next(s, e).hist.log && Next(s, e).hist.log[id].fate == Consequence(s, e, id)
    ensures id in Next(s, e).pending <==> Consequence(s, e, id).Open?
  {
  }

  /** In every reachable state each exit has exactly one cause: the target's own reply, the failed send of this
      very forward, a sweep that finds the entry stale, or the disconnect of its own originator. */
  lemma ExitsHaveOneCause(base: UInt64, es: seq<Event>, e: Event, id: string)
    requires Next(Run(base, es), e).hist.minted <= U64_RANGE && id in Run(base, es).pending
    ensures
      var s, t := Run(base, es), Next(Run(base, es), e);
      && id in t.hist.log && t.hist.log[id].fate == Consequence(s, e, id)
      && (id in t.pending <==> Consequence(s, e, id).Open?)
  {
    var s := Run(base, es);
    MintedGrows(s, e);
    RunKeepsInv(base, es);
    assert RecordOk(s, id) && id[0] == 'r';
    if Accepts(s, e) {
      FreshId(s);
    }
    ConsequenceIsExact(s, e, id);
  }

  /** The failed send answers a second time if and only if the sweeper already took the entry. */
  lemma SecondAnswerIffSwept(base: UInt64, es: seq<Event>)
    requires Run(base, es).hist.minted <= U64_RANGE
    requires Run(base, es).io.Sending?
    ensures
      var s := Run(base, es);
      var id, t := s.io.id, Next(s, SendDone(false));
      && id in t.hist.log
      && |t.hist.log[id].answers| == (if s.io.caller != "" && id !in s.pending then 2 else 1)
  {
    var s := Run(base, es);
    RunKeepsInv(base, es);
    assert RecordOk(s, s.io.id);
  }

  /** A send that returns within the TTL cannot lose that race. */
  lemma PromptSendNeverRaces(base: UInt64, es: seq<Event>)
    requires Run(base, es).hist.minted <= U64_RANGE
    requires Run(base, es).io.Sending?
    requires Run(base, es).clock <= Run(base, es).hist.log[Run(base, es).io.id].entry.createdMs + PENDING_RELAY_TTL_MS
    ensures Run(base, es).io.id in Run(base, es).pending
  {
    RunKeepsInv(base, es);
    assert RecordOk(Run(base, es), Run(base, es).io.id);
  }

  /** A send blocked past the TTL: the originator hears relay_timeout and then dead_route. */
  lemma SlowFailedSendAnswersTwice(base: UInt64, f: Event, dt: nat)
    requires f.Forward? && f.peer != "" && f.target != "" && f.verb != ""
    requires dt > PENDING_RELAY_TTL_MS
    ensures
      var s := Run(base, [f, Tick(dt), SweepWake, SweepRun, SendDone(false)]);
      && RelayId(base) in s.hist.log
      && s.hist.log[RelayId(base)].answers == [TimedOut(f.peer, f.reqId), DeadRoute(f.peer, f.reqId)]
  {
    var es := [f, Tick(dt), SweepWake, SweepRun, SendDone(false)];
    ForwardOpens(base, f);
    assert es[..1] == [f];
    SweepOvertakesSend(Run(base, [f]), RelayId(base), f.peer, f.reqId, dt);
    LastFour(base, es);
  }

  lemma ForwardOpens(base: UInt64, f: Event)
    requires f.Forward? && f.target != "" && f.verb != ""
    ensures Run(base, [f]) == AfterForward(Init(base), f.peer, f.reqId, f.target)
  {
    assert [f][..0] == [];
  }

  lemma LastFour(base: UInt64, es: seq<Event>)
    requires |es| == 5
    ensures Run(base, es) == Next(Next(Next(Next(Run(base, es[..1]), es[1]), es[2]), es[3]), es[4])
  {
    assert es[..4][..3] == es[..3] && es[..3][..2] == es[..2] && es[..2][..1] == es[..1];
    assert Run(base, es[..2]) == Next(Run(base, es[..1]), es[1]);
    assert Run(base, es[..3]) == Next(Run(base, es[..2]), es[2]);
    assert Run(base, es[..4]) == Next(Run(base, es[..3]), es[3]);
  }

  lemma SweepOvertakesSend(s: State, id: string, peer: PeerId, reqId: string, dt: nat)
    requires Recorded(s) && s.io == Sending(id, peer, reqId) && s.sweeper.Sleeping? && dt > PENDING_RELAY_TTL_MS
    requires id in s.pending && s.pending[id].originator == peer != "" && s.pending[id].origReq == reqId
    requires s.pending[id].createdMs == s.clock && s.hist.log[id].answers == []
    ensures
      var t := Next(Next(Next(Next(s, Tick(dt)), SweepWake), SweepRun), SendDone(false));
      id in t.hist.log && t.hist.log[id].answers == [TimedOut(peer, reqId), DeadRoute(peer, reqId)]
  {
    var swept := AfterSweep(Next(Next(s, Tick(dt)), SweepWake), s.clock + dt);
    assert id !in swept.pending && swept.hist.log[id].answers == [TimedOut(peer, reqId)];
  }

  /** With the latest sweep reading at most `gap` ms old, no entry is older than the TTL plus `gap`. */
  lemma NoEntryOutlives(base: UInt64, es: seq<Event>, gap: nat, id: string)
    requires Run(base, es).hist.minted <= U64_RANGE
    requires id in Run(base, es).pending
    requires Run(base, es).clock <= Run(base, es).hist.lastSweep + gap
    ensures Run(base, es).clock <= Run(base, es).pending[id].createdMs + PENDING_RELAY_TTL_MS + gap
  {
    RunKeepsInv(base, es);
    assert RecordOk(Run(base, es), id);
  }

  /** Service: past that age a forward has been answered, unless its originator has gone or has no peer id;
      and the sweeper never times a forward out before its TTL is over. */
  lemma AnsweredInTime(base: UInt64, es: seq<Event>, gap: nat, id: string)
    requires Run(base, es).hist.minted <= U64_RANGE
    requires id in Run(base, es).hist.log
    requires Run(base, es).clock <= Run(base, es).hist.lastSweep + gap
    ensures
      var s := Run(base, es);
      var r := s.hist.log[id];
      && (s.clock > r.entry.createdMs + PENDING_RELAY_TTL_MS + gap && r.entry.originator != "" && !r.fate.Purged?
          ==> |r.answers| >= 1)
      && (r.fate.Expired? ==> r.entry.createdMs + PENDING_RELAY_TTL_MS < s.clock)
  {
    RunKeepsInv(base, es);
    assert RecordOk(Run(base, es), id);
  }

  /** Only the recorded target can claim an entry, and none of the reply branches that come first can shadow it. */
  lemma OnlyTargetClaims(base: UInt64, es: seq<Event>, sender: PeerId, id: string, body: string)
    requires Run(base, es).hist.minted <= U64_RANGE
    requires Run(base, es).io.Idle?
    ensures
      var s := Run(base, es);
      var t := Next(s, Reply(sender, id, body));
      && (id in s.pending && sender == s.pending[id].target ==>
            && id !in t.pending
            && t.hist.log[id].answers == [Relayed(s.pending[id].originator, s.pending[id].origReq, sender, body)])
      && (!(id in s.pending && sender == s.pending[id].target) ==> t == s)
  {
    var s := Run(base, es);
    RunKeepsInv(base, es);
    if id in s.pending {
      assert RecordOk(s, id);
      assert id[0] == 'r';
    }
  }
}
