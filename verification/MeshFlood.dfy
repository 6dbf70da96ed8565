/** Sparse-mesh flooding of one route body: any number of nodes, any topology, any fan-out samples, lossy links,
    a sender queue at every node, and each node deciding with GossipDedup on its own clock. */
module MeshFlood {
  import opened Bytes
  import opened MapSum
  import opened GossipDedup
  import FS = FanoutSample

  type Node = string

  /** The configured fan-out after its clamp at start-up. */
  type Fanout = k: nat | k >= 1 witness 1

  datatype Config = Config(nodes: set<Node>, peers: map<Node, set<Node>>, fanout: Fanout, body: Hash)

  datatype Msg = Msg(src: Node, dst: Node)
  datatype Task = Task(node: Node, source: Node)

  /** `calls[n]` is every call node n made to its dedup, so its seen-map is SeenAfter(calls[n]). */
  datatype State = State(
    flight: multiset<Msg>,
    tasks: multiset<Task>,
    calls: map<Node, seq<Call>>,
    queued: map<Node, nat>,   // replication tasks each node has queued for this body
    sent: nat,
    consumed: nat,            // messages delivered or lost
    ran: nat,
    dropped: nat)

  /** Publish hands the body to a node from outside the mesh; OtherRoute is any other dedup call. `targets` are
      the sampled peers the send reached. */
  datatype Event =
    | Publish(node: Node, source: Node, now: UInt64)
    | Receive(msg: Msg, genuine: bool, now: UInt64)
    | Lose(msg: Msg)
    | OtherRoute(node: Node, hash: Hash, now: UInt64)
    | RunTask(task: Task, targets: seq<Node>)
    | DropTask(task: Task)

  predicate Sized(c: Config, s: State) { s.calls.Keys == s.queued.Keys == c.nodes }

  function Init(c: Config): State {
    State(multiset{}, multiset{}, map n | n in c.nodes :: [], map n | n in c.nodes :: 0, 0, 0, 0, 0)
  }

  /** ingest_route on node n: forward from any source, but only what the dedup has not seen. */
  function Ingest(c: Config, s: State, n: Node, source: Node, now: UInt64): (t: State)
    requires Sized(c, s) && n in c.nodes
    ensures Sized(c, t)
  {
    var call := Call(c.body, now);
    var t := s.(calls := s.calls[n := s.calls[n] + [call]]);
    if Forwards(SeenAfter(s.calls[n]), call)
    then t.(tasks := s.tasks + multiset{Task(n, source)}, queued := s.queued[n := s.queued[n] + 1])
    else t
  }

  predicate Reaches(c: Config, task: Task, targets: seq<Node>) {
    && task.node in c.peers
    && |targets| <= c.fanout
    && forall p :: p in targets ==> p in c.peers[task.node] && p != task.source
  }

  function Consume(s: State, msg: Msg): State {
    s.(flight := s.flight - multiset{msg}, consumed := s.consumed + 1)
  }

  function MsgsTo(src: Node, targets: seq<Node>): (m: seq<Msg>)
    ensures |m| == |targets|
  {
    seq(|targets|, i requires 0 <= i < |targets| => Msg(src, targets[i]))
  }

  function Next(c: Config, s: State, e: Event): (t: State)
    requires Sized(c, s)
    ensures Sized(c, t)
  {
    match e
    case Publish(n, source, now) => if n in c.nodes then Ingest(c, s, n, source, now) else s
    case Receive(msg, genuine, now) =>
      if msg !in s.flight then s
      else if genuine && msg.dst in c.nodes then Ingest(c, Consume(s, msg), msg.dst, msg.src, now)
      else Consume(s, msg)
    case Lose(msg) =>
      if msg !in s.flight then s else Consume(s, msg)
    case OtherRoute(n, hash, now) =>
      if n in c.nodes then s.(calls := s.calls[n := s.calls[n] + [Call(hash, now)]]) else s
    case RunTask(task, targets) =>
      if task !in s.tasks || !Reaches(c, task, targets) then s
      else s.(tasks := s.tasks - multiset{task}, ran := s.ran + 1, sent := s.sent + |targets|,
              flight := s.flight + multiset(MsgsTo(task.node, targets)))
    case DropTask(task) =>
      if task !in s.tasks then s else s.(tasks := s.tasks - multiset{task}, dropped := s.dropped + 1)
  }

  function Run(c: Config, es: seq<Event>): (s: State)
    ensures Sized(c, s)
  {
    if es == [] then Init(c) else Next(c, Run(c, es[..|es| - 1]), es[|es| - 1])
  }

  /** The targets sample_up_to picks are always ones a task may reach, in particular no more than the fan-out. */
  lemma SampledTargetsReach(c: Config, task: Task, known: seq<Node>, picks: seq<nat>)
    requires task.node in c.peers && FS.Distinct(known)
    requires forall p :: p in known <==> p in c.peers[task.node] && p != task.source
    requires c.fanout < |known| ==> |picks| == c.fanout && FS.ValidPicks(|known|, picks)
    ensures Reaches(c, task, FS.SampleUpTo(known, c.fanout, picks))
  {
    FS.FanoutBoundIff(known, c.fanout, picks);
    if c.fanout < |known| {
      FS.SampleIsArrangement(known, picks);
    }
  }

  /** What may go wrong at any time: a message is lost on its link, or a full sender queue drops a task. */
  lemma LossesAreModelled(c: Config, s: State, msg: Msg, task: Task)
    requires Sized(c, s) && msg in s.flight && task in s.tasks
    ensures Next(c, s, Lose(msg)).flight == s.flight - multiset{msg} && Next(c, s, Lose(msg)).tasks == s.tasks
    ensures Next(c, s, DropTask(task)).tasks == s.tasks - multiset{task} && Next(c, s, DropTask(task)).flight == s.flight
    ensures Next(c, s, Lose(msg)).calls == Next(c, s, DropTask(task)).calls == s.calls
  {
  }

  // ---- Accounting ---------------------------------------------------------------------

  /** Messages and tasks are conserved, and a task sends at most the fan-out. */
  ghost predicate Flow(c: Config, s: State) {
    && |s.flight| + s.consumed == s.sent
    && s.ran + s.dropped + |s.tasks| == Sum(s.queued)
    && s.sent <= c.fanout * s.ran
  }

  /** A node queues no more replications than its dedup let through. */
  ghost predicate Counted(c: Config, s: State, n: Node)
    requires n in s.calls && n in s.queued
  {
    s.queued[n] <= ForwardCount(s.calls[n], c.body)
  }

  lemma CountSnoc(calls: seq<Call>, call: Call, h: Hash)
    ensures ForwardCount(calls + [call], h)
            == ForwardCount(calls, h) + (if call.hash == h && Forwards(SeenAfter(calls), call) then 1 else 0)
  {
    assert (calls + [call])[..|calls|] == calls;
  }

  lemma IngestKeepsFlow(c: Config, s: State, n: Node, source: Node, now: UInt64)
    requires Sized(c, s) && Flow(c, s) && n in c.nodes
    ensures Flow(c, Ingest(c, s, n, source, now))
  {
    SumUpdate(s.queued, n, s.queued[n] + 1);
  }

  lemma RunTaskKeepsFlow(c: Config, s: State, task: Task, targets: seq<Node>)
    requires Sized(c, s) && Flow(c, s)
    ensures Flow(c, Next(c, s, RunTask(task, targets)))
  {
    OneMore(c.fanout, s.ran);
    var t := Next(c, s, RunTask(task, targets));
    if task in s.tasks && Reaches(c, task, targets) {
      assert t.sent == s.sent + |targets| && t.ran == s.ran + 1 && |t.tasks| == |s.tasks| - 1;
      assert |t.flight| == |s.flight| + |targets|;
    }
  }

  lemma OneMore(f: nat, a: nat)
    ensures f * (a + 1) == f * a + f
  {
  }

  lemma ConsumeKeepsFlow(c: Config, s: State, msg: Msg)
    requires Flow(c, s) && msg in s.flight
    ensures Flow(c, Consume(s, msg))
  {
  }

  lemma ReceiveKeepsFlow(c: Config, s: State, msg: Msg, genuine: bool, now: UInt64)
    requires Sized(c, s) && Flow(c, s) && msg in s.flight
    ensures Flow(c, Next(c, s, Receive(msg, genuine, now)))
  {
    ConsumeKeepsFlow(c, s, msg);
    if genuine && msg.dst in c.nodes {
      IngestKeepsFlow(c, Consume(s, msg), msg.dst, msg.src, now);
    }
  }

  lemma NextKeepsFlow(c: Config, s: State, e: Event)
    requires Sized(c, s) && Flow(c, s)
    ensures Flow(c, Next(c, s, e))
  {
    match e
    case Publish(n, source, now) => if n in c.nodes { IngestKeepsFlow(c, s, n, source, now); }
    case Receive(msg, genuine, now) => if msg in s.flight { ReceiveKeepsFlow(c, s, msg, genuine, now); }
    case Lose(msg) =>
    case OtherRoute(n, hash, now) =>
    case RunTask(task, targets) => RunTaskKeepsFlow(c, s, task, targets);
    case DropTask(task) =>
  }

  lemma IngestKeepsCounted(c: Config, s: State, m: Node, source: Node, now: UInt64, n: Node)
    requires Sized(c, s) && m in c.nodes && n in c.nodes && Counted(c, s, n)
    ensures Counted(c, Ingest(c, s, m, source, now), n)
  {
    CountSnoc(s.calls[m], Call(c.body, now), c.body);
  }

  lemma NextKeepsCounted(c: Config, s: State, e: Event, n: Node)
    requires Sized(c, s) && n in c.nodes && Counted(c, s, n)
    ensures Counted(c, Next(c, s, e), n)
  {
    match e
    case Publish(m, source, now) => if m in c.nodes { IngestKeepsCounted(c, s, m, source, now, n); }
    case Receive(msg, genuine, now) =>
      if msg in s.flight && genuine && msg.dst in c.nodes {
        IngestKeepsCounted(c, Consume(s, msg), msg.dst, msg.src, now, n);
      }
    case Lose(msg) =>
    case OtherRoute(m, hash, now) => if m in c.nodes { CountSnoc(s.calls[m], Call(hash, now), c.body); }
    case RunTask(task, targets) =>
    case DropTask(task) =>
  }

  lemma SumZeros(nodes: set<Node>)
    ensures Sum(map n | n in nodes :: 0) == 0
  {
    SumAtMost(map n | n in nodes :: 0, 0);
  }

  lemma {:induction false} RunKeepsFlow(c: Config, es: seq<Event>)
    ensures Flow(c, Run(c, es))
  {
    if es == [] {
      SumZeros(c.nodes);
    } else {
      RunKeepsFlow(c, es[..|es| - 1]);
      NextKeepsFlow(c, Run(c, es[..|es| - 1]), es[|es| - 1]);
    }
  }

  lemma {:induction false} RunKeepsCounted(c: Config, es: seq<Event>, n: Node)
    requires n in c.nodes
    ensures Counted(c, Run(c, es), n)
  {
    if es != [] {
      RunKeepsCounted(c, es[..|es| - 1], n);
      NextKeepsCounted(c, Run(c, es[..|es| - 1]), es[|es| - 1], n);
    }
  }

  // ---- Termination -----------------------------------------------------------------------

  /** Every node's clock is non-decreasing and the run lasts at most `span` ms on each of them. */
  ghost predicate Lasts(s: State, span: nat) {
    forall n :: n in s.calls ==>
      && Ordered(s.calls[n])
      && (s.calls[n] != [] ==> s.calls[n][|s.calls[n]| - 1].now <= s.calls[n][0].now + span)
  }

  function Rounds(span: nat): nat { 1 + span / DEDUP_MS }

  /** The flood dies out: each node replicates the body at most once per window, all sends together are at most
      fan-out times that over all nodes, and so is every step that consumes a message or a task. */
  lemma FloodTerminates(c: Config, es: seq<Event>, span: nat)
    requires Lasts(Run(c, es), span)
    ensures
      var s := Run(c, es);
      && (forall n :: n in c.nodes ==> s.queued[n] <= Rounds(span))
      && s.sent <= c.fanout * (|c.nodes| * Rounds(span))
      && s.consumed + s.ran + s.dropped <= (c.fanout + 1) * (|c.nodes| * Rounds(span))
  {
    var s := Run(c, es);
    forall n | n in c.nodes
      ensures s.queued[n] <= Rounds(span)
    {
      RunKeepsCounted(c, es, n);
      if s.calls[n] != [] {
        ForwardsPerWindow(s.calls[n], c.body, span);
      }
    }
    RunKeepsFlow(c, es);
    SumAtMost(s.queued, Rounds(span));
    assert |s.queued| == |s.queued.Keys| == |c.nodes|;
    TotalBound(c, s, |c.nodes| * Rounds(span));
  }

  lemma TotalBound(c: Config, s: State, most: nat)
    requires Flow(c, s) && Sum(s.queued) <= most
    ensures s.sent <= c.fanout * most
    ensures s.consumed + s.ran + s.dropped <= (c.fanout + 1) * most
  {
    Scale(c.fanout, s.ran, most);
  }

  lemma Scale(f: nat, a: nat, b: nat)
    requires a <= b
    ensures f * a <= f * b
    ensures (f + 1) * b == f * b + b
  {
    assert f * b - f * a == f * (b - a);
  }

  /** Within one window that is one replication per node and fan-out sends each. */
  lemma OneWindowFlood(c: Config, es: seq<Event>, span: nat)
    requires Lasts(Run(c, es), span) && span < DEDUP_MS
    ensures forall n :: n in c.nodes ==> Run(c, es).queued[n] <= 1
    ensures Run(c, es).sent <= c.fanout * |c.nodes|
  {
    OneRound(span);
    FloodTerminates(c, es, span);
    Times1(|c.nodes|);
  }

  lemma OneRound(span: nat)
    requires span < DEDUP_MS
    ensures Rounds(span) == 1
  {
  }

  lemma Times1(n: nat)
    ensures n * 1 == n
  {
  }

  // ---- The flood spreads ----------------------------------------------------------------

  /** Nodes, messages and tasks that take part were reached by the flood. */
  ghost predicate Rooted(c: Config, s: State)
    requires Sized(c, s)
  {
    && (forall m :: m in s.flight ==> m.src in c.nodes && s.queued[m.src] > 0)
    && (forall t :: t in s.tasks ==>
          t.node in c.nodes && s.queued[t.node] > 0 && (t.source in c.nodes ==> s.queued[t.source] > 0))
  }

  /** The body reaches a node's dedup in exactly these events. */
  predicate Hears(c: Config, s: State, e: Event, n: Node) {
    && n in c.nodes
    && ((e.Publish? && e.node == n) || (e.Receive? && e.msg in s.flight && e.genuine && e.msg.dst == n))
  }

  function TimeOf(e: Event): UInt64
    requires e.Publish? || e.Receive?
  {
    e.now
  }

  function SourceOf(e: Event): Node
    requires e.Publish? || e.Receive?
  {
    if e.Publish? then e.source else e.msg.src
  }

  /** A publication or a genuine replica queues exactly one replication at its receiver, naming where it came from,
      if and only if the receiver has never forwarded the body or last did so at least 300000 ms ago. */
  lemma HearingQueuesIff(c: Config, es: seq<Event>, e: Event, n: Node)
    requires Hears(c, Run(c, es), e, n)
    requires Ordered(Run(c, es).calls[n] + [Call(c.body, TimeOf(e))])
    ensures
      var s, t := Run(c, es), Next(c, Run(c, es), e);
      var last := LastForward(s.calls[n], c.body);
      t.tasks == s.tasks + (if last.None? || TimeOf(e) - last.value >= 300_000
                            then multiset{Task(n, SourceOf(e))} else multiset{})
  {
    var s := Run(c, es);
    var calls := s.calls[n] + [Call(c.body, TimeOf(e))];
    assert calls[..|s.calls[n]|] == s.calls[n];
    DecidesFromHistory(calls, |s.calls[n]|);
  }

  /** No other route of the run has the hash of this body. */
  ghost predicate OneBody(c: Config, es: seq<Event>) { forall e :: e in es && e.OtherRoute? ==> e.hash != c.body }

  ghost predicate CountedExactly(c: Config, s: State, n: Node)
    requires n in s.calls && n in s.queued
  {
    s.queued[n] == ForwardCount(s.calls[n], c.body)
  }

  lemma IngestCounts(c: Config, s: State, m: Node, source: Node, now: UInt64, n: Node)
    requires Sized(c, s) && m in c.nodes && n in c.nodes && CountedExactly(c, s, n)
    ensures CountedExactly(c, Ingest(c, s, m, source, now), n)
  {
    CountSnoc(s.calls[m], Call(c.body, now), c.body);
  }

  lemma NextCounts(c: Config, s: State, e: Event, n: Node)
    requires Sized(c, s) && n in c.nodes && CountedExactly(c, s, n) && (e.OtherRoute? ==> e.hash != c.body)
    ensures CountedExactly(c, Next(c, s, e), n)
  {
    match e
    case Publish(m, source, now) => if m in c.nodes { IngestCounts(c, s, m, source, now, n); }
    case Receive(msg, genuine, now) =>
      if msg in s.flight && genuine && msg.dst in c.nodes {
        IngestCounts(c, Consume(s, msg), msg.dst, msg.src, now, n);
      }
    case Lose(msg) =>
    case OtherRoute(m, hash, now) => if m in c.nodes { CountSnoc(s.calls[m], Call(hash, now), c.body); }
    case RunTask(task, targets) =>
    case DropTask(task) =>
  }

  /** Without a hash collision a node queues exactly the replications its dedup lets through. */
  lemma {:induction false} QueuedIsForwarded(c: Config, es: seq<Event>, n: Node)
    requires n in c.nodes && OneBody(c, es)
    ensures Run(c, es).queued[n] == ForwardCount(Run(c, es).calls[n], c.body)
  {
    if es != [] {
      var k := |es| - 1;
      assert forall e :: e in es[..k] ==> e in es;
      QueuedIsForwarded(c, es[..k], n);
      assert es[k] in es;
      NextCounts(c, Run(c, es[..k]), es[k], n);
    }
  }

  lemma QueuedGrows(c: Config, s: State, e: Event, n: Node)
    requires Sized(c, s) && n in c.nodes
    ensures s.queued[n] <= Next(c, s, e).queued[n]
  {
  }

  /** A node that has heard the body has forwarded it, now or before. */
  lemma HearingForwards(c: Config, s: State, n: Node, source: Node, now: UInt64)
    requires Sized(c, s) && n in c.nodes && CountedExactly(c, s, n)
    ensures Ingest(c, s, n, source, now).queued[n] > 0
  {
    if !Forwards(SeenAfter(s.calls[n]), Call(c.body, now)) {
      SeenWasForwarded(s.calls[n], c.body);
    }
  }

  function PeersOf(c: Config, n: Node): set<Node> { if n in c.peers then c.peers[n] else {} }

  /** n's share in the spread to its peer q: done, on the way, or still to be sent. */
  ghost predicate Covers(c: Config, s: State, n: Node, q: Node)
    requires Sized(c, s) && q in c.nodes
  {
    s.queued[q] > 0 || Msg(n, q) in s.flight || exists t :: t in s.tasks && t.node == n && t.source != q
  }

  ghost predicate Spreading(c: Config, s: State)
    requires Sized(c, s)
  {
    && Rooted(c, s)
    && forall n, q :: n in c.nodes && s.queued[n] > 0 && q in PeersOf(c, n) && q in c.nodes ==> Covers(c, s, n, q)
  }

  /** Nothing gets lost on the way, publications come from outside the mesh, and a task sends to every peer of its
      node but the source. */
  ghost predicate Faithful(c: Config, e: Event) {
    && !e.Lose? && !e.DropTask?
    && (e.Receive? ==> e.genuine)
    && (e.OtherRoute? ==> e.hash != c.body)
    && (e.Publish? ==> e.source !in c.nodes)
    && (e.RunTask? ==> forall q :: q in PeersOf(c, e.task.node) && q != e.task.source ==> q in e.targets)
  }

  lemma IngestSpreads(c: Config, s: State, n: Node, source: Node, now: UInt64)
    requires Sized(c, s) && n in c.nodes && CountedExactly(c, s, n) && Rooted(c, s)
    requires source in c.nodes ==> s.queued[source] > 0
    requires forall m, q :: m in c.nodes && s.queued[m] > 0 && q in PeersOf(c, m) && q in c.nodes ==>
               Covers(c, s, m, q) || q == n
    ensures Spreading(c, Ingest(c, s, n, source, now))
  {
    var t := Ingest(c, s, n, source, now);
    HearingForwards(c, s, n, source, now);
    forall m, q | m in c.nodes && t.queued[m] > 0 && q in PeersOf(c, m) && q in c.nodes
      ensures Covers(c, t, m, q)
    {
      if q != n && s.queued[m] == 0 {
        assert m == n && Task(n, source) in t.tasks;
      }
    }
  }

  lemma RunTaskSpreads(c: Config, s: State, task: Task, targets: seq<Node>)
    requires Sized(c, s) && Spreading(c, s) && Faithful(c, RunTask(task, targets))
    ensures Spreading(c, Next(c, s, RunTask(task, targets)))
  {
    if task in s.tasks && Reaches(c, task, targets) {
      var t := Next(c, s, RunTask(task, targets));
      forall i | 0 <= i < |targets|
        ensures Msg(task.node, targets[i]) in t.flight
      {
        assert MsgsTo(task.node, targets)[i] in MsgsTo(task.node, targets);
      }
      forall m | m in t.flight
        ensures m.src in c.nodes && t.queued[m.src] > 0
      {
        if m !in s.flight {
          assert m in MsgsTo(task.node, targets);
        }
      }
      forall n, q | n in c.nodes && t.queued[n] > 0 && q in PeersOf(c, n) && q in c.nodes
        ensures Covers(c, t, n, q)
      {
        assert Covers(c, s, n, q);
        if n == task.node && q != task.source {
          var i :| 0 <= i < |targets| && targets[i] == q;
          assert Msg(task.node, targets[i]) in t.flight;
        }
      }
    }
  }

  lemma ReceiveSpreads(c: Config, s: State, msg: Msg, now: UInt64)
    requires Sized(c, s) && Spreading(c, s) && msg in s.flight
    requires forall n :: n in c.nodes ==> CountedExactly(c, s, n)
    ensures Spreading(c, Next(c, s, Receive(msg, true, now)))
  {
    var t := Consume(s, msg);
    forall m, q | m in c.nodes && t.queued[m] > 0 && q in PeersOf(c, m) && q in c.nodes
      ensures Covers(c, t, m, q) || q == msg.dst
    {
      assert Covers(c, s, m, q);
    }
    assert CountedExactly(c, t, msg.src);
    if msg.dst in c.nodes {
      assert CountedExactly(c, s, msg.dst);
      IngestSpreads(c, t, msg.dst, msg.src, now);
    }
  }

  lemma NextSpreads(c: Config, s: State, e: Event)
    requires Sized(c, s) && Spreading(c, s) && Faithful(c, e)
    requires forall n :: n in c.nodes ==> CountedExactly(c, s, n)
    ensures Spreading(c, Next(c, s, e))
  {
    match e
    case Publish(n, source, now) => if n in c.nodes { PublishSpreads(c, s, n, source, now); }
    case Receive(msg, genuine, now) => if msg in s.flight { ReceiveSpreads(c, s, msg, now); }
    case OtherRoute(n, hash, now) => SpreadingStays(c, s, Next(c, s, e));
    case RunTask(task, targets) => RunTaskSpreads(c, s, task, targets);
  }

  lemma PublishSpreads(c: Config, s: State, n: Node, source: Node, now: UInt64)
    requires Sized(c, s) && Spreading(c, s) && n in c.nodes && source !in c.nodes && CountedExactly(c, s, n)
    ensures Spreading(c, Ingest(c, s, n, source, now))
  {
    IngestSpreads(c, s, n, source, now);
  }

  lemma SpreadingStays(c: Config, s: State, t: State)
    requires Sized(c, s) && Spreading(c, s) && Sized(c, t)
    requires t.flight == s.flight && t.tasks == s.tasks && t.queued == s.queued
    ensures Spreading(c, t)
  {
    forall n, q | n in c.nodes && t.queued[n] > 0 && q in PeersOf(c, n) && q in c.nodes
      ensures Covers(c, t, n, q)
    {
      assert Covers(c, s, n, q);
    }
  }

  lemma {:induction false} RunSpreads(c: Config, es: seq<Event>)
    requires forall e :: e in es ==> Faithful(c, e)
    ensures Spreading(c, Run(c, es))
  {
    if es != [] {
      var k := |es| - 1;
      assert forall e :: e in es[..k] ==> e in es;
      RunSpreads(c, es[..k]);
      forall n | n in c.nodes
        ensures CountedExactly(c, Run(c, es[..k]), n)
      {
        QueuedIsForwarded(c, es[..k], n);
      }
      assert es[k] in es;
      NextSpreads(c, Run(c, es[..k]), es[k]);
    }
  }

  lemma {:induction false} PublisherForwards(c: Config, es: seq<Event>, i: nat)
    requires i < |es| && es[i].Publish? && es[i].node in c.nodes && OneBody(c, es)
    ensures Run(c, es).queued[es[i].node] > 0
  {
    var k := |es| - 1;
    var n := es[i].node;
    OneBodyBefore(c, es);
    if i < k {
      PublisherForwards(c, es[..k], i);
      LastStepGrows(c, es, n);
    } else {
      LastPublishForwards(c, es);
    }
  }

  lemma LastStepGrows(c: Config, es: seq<Event>, n: Node)
    requires es != [] && n in c.nodes
    ensures Run(c, es[..|es| - 1]).queued[n] <= Run(c, es).queued[n]
  {
    QueuedGrows(c, Run(c, es[..|es| - 1]), es[|es| - 1], n);
  }

  lemma LastPublishForwards(c: Config, es: seq<Event>)
    requires es != [] && OneBody(c, es[..|es| - 1])
    requires es[|es| - 1].Publish? && es[|es| - 1].node in c.nodes
    ensures Run(c, es).queued[es[|es| - 1].node] > 0
  {
    var k := |es| - 1;
    QueuedIsForwarded(c, es[..k], es[k].node);
    PublishForwards(c, Run(c, es[..k]), es[k]);
  }

  lemma PublishForwards(c: Config, s: State, e: Event)
    requires Sized(c, s) && e.Publish? && e.node in c.nodes && CountedExactly(c, s, e.node)
    ensures Next(c, s, e).queued[e.node] > 0
  {
    HearingForwards(c, s, e.node, e.source, e.now);
  }

  lemma OneBodyBefore(c: Config, es: seq<Event>)
    requires OneBody(c, es) && es != []
    ensures OneBody(c, es[..|es| - 1])
  {
    assert forall e :: e in es[..|es| - 1] ==> e in es;
  }

  /** A way through the mesh, each node among the peers of the one before. */
  ghost predicate Path(c: Config, path: seq<Node>) {
    && path != []
    && (forall i :: 0 <= i < |path| ==> path[i] in c.nodes)
    && forall i :: 0 < i < |path| ==> path[i] in PeersOf(c, path[i - 1])
  }

  lemma {:induction false} ReachedAlong(c: Config, s: State, path: seq<Node>)
    requires Sized(c, s) && Spreading(c, s) && s.tasks == multiset{} && s.flight == multiset{}
    requires Path(c, path) && s.queued[path[0]] > 0
    ensures s.queued[path[|path| - 1]] > 0
  {
    var k := |path| - 1;
    if k > 0 {
      ReachedAlong(c, s, path[..k]);
      assert Covers(c, s, path[k - 1], path[k]);
    }
  }

  /** The flood reaches everyone: in a run that loses nothing and samples every peer, once no task and no message is
      left each node connected to a publisher has forwarded the body, by its own dedup's count. */
  lemma FloodReachesAll(c: Config, es: seq<Event>, i: nat, path: seq<Node>)
    requires forall e :: e in es ==> Faithful(c, e)
    requires Run(c, es).tasks == multiset{} && Run(c, es).flight == multiset{}
    requires i < |es| && es[i].Publish? && Path(c, path) && path[0] == es[i].node
    ensures ForwardCount(Run(c, es).calls[path[|path| - 1]], c.body) > 0
  {
    assert OneBody(c, es);
    RunSpreads(c, es);
    PublisherForwards(c, es, i);
    ReachedAlong(c, Run(c, es), path);
    QueuedIsForwarded(c, es, path[|path| - 1]);
  }

  // ---- And it can always be completed --------------------------------------------------------

  /** Every node knows its peers, and the fan-out reaches them all. */
  ghost predicate Roomy(c: Config) { forall n :: n in c.nodes ==> n in c.peers && |c.peers[n]| <= c.fanout }

  /** Nodes whose dedup does not hold the body. */
  ghost function Unaware(c: Config, s: State): set<Node>
    requires Sized(c, s)
  {
    set n | n in c.nodes && c.body !in SeenAfter(s.calls[n])
  }

  lemma ListPeers(all: set<Node>) returns (list: seq<Node>)
    ensures |list| == |all| && forall p :: p in list <==> p in all
  {
    list := [];
    var todo := all;
    while todo != {}
      invariant todo <= all && |list| + |todo| == |all|
      invariant forall p :: p in list <==> p in all - todo
      decreases todo
    {
      var p :| p in todo;
      list := list + [p];
      todo := todo - {p};
    }
  }

  /** The step that takes one task or message out of the way without starting more than one new replication. */
  lemma TidyStep(c: Config, s: State) returns (e: Event)
    requires Sized(c, s) && Rooted(c, s) && Roomy(c) && (s.tasks != multiset{} || s.flight != multiset{})
    ensures Faithful(c, e)
    ensures
      var t := Next(c, s, e);
      || (|Unaware(c, t)| < |Unaware(c, s)|)
      || (Unaware(c, t) == Unaware(c, s) && |t.tasks| < |s.tasks|)
      || (Unaware(c, t) == Unaware(c, s) && t.tasks == s.tasks && |t.flight| < |s.flight|)
  {
    if s.tasks != multiset{} {
      var task :| task in s.tasks;
      e := TidyTask(c, s, task);
    } else {
      var msg :| msg in s.flight;
      var at: UInt64 := 0;
      if msg.dst in c.nodes && c.body in SeenAfter(s.calls[msg.dst]) {
        at := SeenAfter(s.calls[msg.dst])[c.body];
      }
      e := Receive(msg, true, at);
      ReceiveTidies(c, s, msg, at);
    }
  }

  lemma TidyTask(c: Config, s: State, task: Task) returns (e: Event)
    requires Sized(c, s) && Rooted(c, s) && Roomy(c) && task in s.tasks
    ensures Faithful(c, e)
    ensures Unaware(c, Next(c, s, e)) == Unaware(c, s) && |Next(c, s, e).tasks| < |s.tasks|
  {
    var all := c.peers[task.node] - {task.source};
    var list := ListPeers(all);
    SubsetSize(all, c.peers[task.node]);
    e := RunTask(task, list);
    assert Next(c, s, e).tasks == s.tasks - multiset{task};
    assert Next(c, s, e).calls == s.calls;
  }

  lemma SubsetSize(a: set<Node>, b: set<Node>)
    requires a <= b
    ensures |a| <= |b|
    ensures a != b ==> |a| < |b|
  {
    assert b == a + (b - a);
  }

  lemma ReceiveTidies(c: Config, s: State, msg: Msg, at: UInt64)
    requires Sized(c, s) && msg in s.flight
    requires msg.dst in c.nodes && c.body in SeenAfter(s.calls[msg.dst]) ==> at == SeenAfter(s.calls[msg.dst])[c.body]
    ensures
      var t := Next(c, s, Receive(msg, true, at));
      || (|Unaware(c, t)| < |Unaware(c, s)|)
      || (Unaware(c, t) == Unaware(c, s) && t.tasks == s.tasks && |t.flight| < |s.flight|)
  {
    var t := Next(c, s, Receive(msg, true, at));
    if msg.dst in c.nodes {
      var was, call := s.calls[msg.dst], Call(c.body, at);
      assert (was + [call])[..|was|] == was;
      assert SeenAfter(was + [call]) == After(SeenAfter(was), call);
      if c.body in SeenAfter(was) {
        assert Age(at, SeenAfter(was)[c.body]) == 0;
        assert Unaware(c, t) == Unaware(c, s);
      } else {
        assert c.body in SeenAfter(t.calls[msg.dst]);
        assert Unaware(c, t) == Unaware(c, s) - {msg.dst} && msg.dst in Unaware(c, s);
        SubsetSize(Unaware(c, t), Unaware(c, s));
      }
    } else {
      assert t.calls == s.calls;
    }
  }

  /** What is left to do: nodes to reach, tasks to run, messages to deliver. */
  datatype Load = Load(unaware: nat, tasks: nat, messages: nat)

  ghost function LoadOf(c: Config, es: seq<Event>): Load {
    Load(|Unaware(c, Run(c, es))|, |Run(c, es).tasks|, |Run(c, es).flight|)
  }

  predicate Lighter(a: Load, b: Load) {
    || a.unaware < b.unaware
    || (a.unaware == b.unaware && a.tasks < b.tasks)
    || (a.unaware == b.unaware && a.tasks == b.tasks && a.messages < b.messages)
  }

  ghost predicate AllFaithful(c: Config, es: seq<Event>) { forall e :: e in es ==> Faithful(c, e) }

  lemma TidyRun(c: Config, es: seq<Event>) returns (e: Event)
    requires Roomy(c) && AllFaithful(c, es) && (LoadOf(c, es).tasks > 0 || LoadOf(c, es).messages > 0)
    ensures Faithful(c, e) && AllFaithful(c, es + [e]) && Lighter(LoadOf(c, es + [e]), LoadOf(c, es))
  {
    RunSpreads(c, es);
    e := TidyStep(c, Run(c, es));
    assert (es + [e])[..|es|] == es;
  }

  /** The run goes on from `es`, and at its end nothing is left to do. */
  ghost predicate Completes(c: Config, es: seq<Event>, all: seq<Event>) {
    es <= all && AllFaithful(c, all) && LoadOf(c, all).tasks == LoadOf(c, all).messages == 0
  }

  lemma CompletesEarlier(c: Config, es: seq<Event>, e: Event, all: seq<Event>)
    requires Completes(c, es + [e], all)
    ensures Completes(c, es, all)
  {
  }

  lemma {:induction false} Tidied(c: Config, es: seq<Event>, load: Load) returns (all: seq<Event>)
    requires Roomy(c) && AllFaithful(c, es) && load == LoadOf(c, es)
    ensures Completes(c, es, all)
    decreases load.unaware, load.tasks, load.messages
  {
    if load.tasks == 0 && load.messages == 0 {
      all := es;
    } else {
      var e := TidyRun(c, es);
      all := Tidied(c, es + [e], LoadOf(c, es + [e]));
      CompletesEarlier(c, es, e, all);
    }
  }

  /** From every state reached without losses, while the fan-out covers the peers, the flood can run to its end, and
      then every node connected to a publisher has forwarded the body. */
  lemma FloodCompletes(c: Config, es: seq<Event>) returns (all: seq<Event>)
    requires Roomy(c) && AllFaithful(c, es)
    ensures es <= all && AllFaithful(c, all)
    ensures Run(c, all).tasks == multiset{} && Run(c, all).flight == multiset{}
    ensures forall i: nat, path :: i < |es| && es[i].Publish? && Path(c, path) && path[0] == es[i].node ==>
              ForwardCount(Run(c, all).calls[path[|path| - 1]], c.body) > 0
  {
    all := Tidied(c, es, LoadOf(c, es));
    forall i: nat, path | i < |es| && es[i].Publish? && Path(c, path) && path[0] == es[i].node
      ensures ForwardCount(Run(c, all).calls[path[|path| - 1]], c.body) > 0
    {
      assert all[i] == es[i];
      FloodReachesAll(c, all, i, path);
    }
  }
}
