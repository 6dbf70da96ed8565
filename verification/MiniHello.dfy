/** The mini.hello handshake between mini-nodes and the full-mesh replication of routes that relies on it. Both
    travel over the same ordered connection, and at every node an io thread and a sender thread interleave. */
module MiniHello {
  import opened MapSum

  type Node = string

  /** An ordered pair of nodes: a registration of `peer` at `at`, or the direction of a link. */
  datatype Pair = Pair(at: Node, peer: Node)

  function Flip(p: Pair): Pair { Pair(p.peer, p.at) }

  /** `bulk` marks a frame over 16 KiB, which takes the slow lane. `early` is history: the route left before its
      sender had sent any hello over the link. */
  datatype Msg = Hello | Route(early: bool, bulk: bool)

  predicate Bulk(m: Msg) { m.Route? && m.bulk }

  /** Work of a node's sender thread: fan a route out, or push the table to a peer that has just joined. */
  datatype Work = Fan(node: Node, source: Node) | CatchUp(to: Pair)

  /** `reg` are the entries of all g_mininode_peers. `met` are the directions in which a hello was sent over the
      link that is now up, `owed` the pairs where `at` has yet to hear that its link to `peer` went down, `echo`
      the pairs where `at` has registered `peer` and not yet sent its echo. `out` are the sends a sender thread
      has decided on. The counters are history. */
  datatype State = State(
    reg: set<Pair>,
    met: set<Pair>,
    owed: set<Pair>,
    echo: set<Pair>,
    links: map<Pair, seq<Msg>>,
    work: multiset<Work>,
    out: multiset<Pair>,
    got: multiset<Node>,     // routes delivered over links
    again: nat,              // of those, forwarded once more
    early: nat)              // routes sent early

  /** Greet is a hello sent on connection or by the heartbeat; Publish a route from a peer that is no mini-node.
      LinkDown takes the messages on the link with it; each end learns of it on its own, by Notice, and the link
      comes up again once both ends know. */
  datatype Event =
    | Greet(src: Node, dst: Node)
    | Deliver(link: Pair, i: nat, admitted: bool)
    | Echo(to: Pair)
    | LinkDown(a: Node, b: Node)
    | Notice(at: Node, peer: Node)
    | Publish(node: Node, source: Node)
    | StartTask(task: Work, routes: nat)
    | SendNext(link: Pair, bulk: bool)

  // ---- Transitions ---------------------------------------------------------

  predicate Up(s: State, p: Pair) { p !in s.owed && Flip(p) !in s.owed }

  function Queue(s: State, p: Pair): seq<Msg> { if p in s.links then s.links[p] else [] }

  function Sent(s: State, p: Pair, m: Msg): State { s.(links := s.links[p := Queue(s, p) + [m]]) }

  /** A frame of the fast lane may pass those of the slow lane; within a lane order is kept. */
  predicate Ready(q: seq<Msg>, i: nat) {
    i < |q| && (i == 0 || !Bulk(q[i])) && forall j :: 0 <= j < i ==> Bulk(q[j])
  }

  /** The io thread of a node is not in the middle of a mini.hello. */
  predicate IoFree(s: State, n: Node) { forall p :: p in s.echo ==> p.at != n }

  function Without(q: seq<Msg>, i: nat): seq<Msg>
    requires i < |q|
  {
    q[..i] + q[i + 1..]
  }

  function AfterHello(s: State, p: Pair): State {
    if p in s.reg then s
    else s.(reg := s.reg + {p}, echo := s.echo + {p}, work := s.work + multiset{CatchUp(p)})
  }

  /** ingest_route at a full-mesh node: forward unless the sender is a registered mini-node. */
  function AfterRoute(s: State, p: Pair, admitted: bool): State {
    var t := s.(got := s.got + multiset{p.at});
    if !admitted || p in s.reg then t else t.(work := s.work + multiset{Fan(p.at, p.peer)}, again := s.again + 1)
  }

  function AfterDeliver(s: State, link: Pair, i: nat, admitted: bool): State
    requires i < |Queue(s, link)|
  {
    var t := s.(links := s.links[link := Without(Queue(s, link), i)]);
    if Queue(s, link)[i].Hello? then AfterHello(t, Flip(link)) else AfterRoute(t, Flip(link), admitted)
  }

  /** replicate_route_to_mininodes: everyone registered here but the source. */
  function FanOut(reg: set<Pair>, node: Node, source: Node): set<Pair> {
    set p | p in reg && p.at == node && p.peer != source
  }

  function Targets(s: State, w: Work, routes: nat): multiset<Pair> {
    match w
    case Fan(n, source) => multiset(FanOut(s.reg, n, source))
    case CatchUp(p) => multiset{}[p := routes]
  }

  function AfterSend(s: State, p: Pair, bulk: bool): State {
    var t := s.(out := s.out - multiset{p});
    if !Up(s, p) then t
    else Sent(t, p, Route(p !in s.met, bulk)).(early := if p in s.met then s.early else s.early + 1)
  }

  function HelloSent(s: State, p: Pair): State {
    if Up(s, p) then Sent(s, p, Hello).(met := s.met + {p}) else s
  }

  function Next(s: State, e: Event): State {
    match e
    case Greet(src, dst) => if src == dst then s else HelloSent(s, Pair(src, dst))
    case Deliver(link, i, admitted) =>
      if Ready(Queue(s, link), i) && IoFree(s, link.peer) then AfterDeliver(s, link, i, admitted) else s
    case Echo(p) => if p in s.echo then HelloSent(s.(echo := s.echo - {p}), p) else s
    case LinkDown(a, b) =>
      if !Up(s, Pair(a, b)) then s
      else s.(links := s.links[Pair(a, b) := []][Pair(b, a) := []],
              met := s.met - {Pair(a, b), Pair(b, a)}, owed := s.owed + {Pair(a, b), Pair(b, a)})
    case Notice(at, peer) =>
      if Pair(at, peer) in s.owed && IoFree(s, at)
      then s.(reg := s.reg - {Pair(at, peer)}, owed := s.owed - {Pair(at, peer)}) else s
    case Publish(n, source) => if Pair(n, source) in s.reg then s else s.(work := s.work + multiset{Fan(n, source)})
    case StartTask(w, routes) =>
      if w in s.work then s.(work := s.work - multiset{w}, out := s.out + Targets(s, w, routes)) else s
    case SendNext(p, bulk) => if p in s.out then AfterSend(s, p, bulk) else s
  }

  function Init(): State { State({}, {}, {}, {}, map[], multiset{}, multiset{}, multiset{}, 0, 0) }

  function RunFrom(s: State, es: seq<Event>): State {
    if es == [] then s else Next(RunFrom(s, es[..|es| - 1]), es[|es| - 1])
  }

  function Run(es: seq<Event>): State { RunFrom(Init(), es) }

  lemma PrefixSnoc(es: seq<Event>, k: nat)
    requires k < |es|
    ensures Run(es[..k + 1]) == Next(Run(es[..k]), es[k])
  {
    assert es[..k + 1][..k] == es[..k];
  }

  // ---- The invariant of one direction ----------------------------------------

  ghost predicate HasHello(q: seq<Msg>) { exists i :: 0 <= i < |q| && q[i].Hello? }

  ghost predicate HelloBefore(q: seq<Msg>, i: nat)
    requires i <= |q|
  {
    exists j :: 0 <= j < i && q[j].Hello?
  }

  /** A hello sent is answered: the other end has registered its sender, or it is still on its way. */
  ghost predicate Answered(s: State, p: Pair) { Flip(p) in s.reg || HasHello(Queue(s, p)) }

  /** No route overtakes the hello that makes its sender known, and one that left before it finds it unknown. */
  ghost predicate RouteOk(s: State, p: Pair, i: nat)
    requires i < |Queue(s, p)|
  {
    var q := Queue(s, p);
    q[i].Route? ==>
      if q[i].early then !HelloBefore(q, i) && (!q[i].bulk ==> Flip(p) !in s.reg)
      else Flip(p) in s.reg || HelloBefore(q, i)
  }

  ghost predicate HandshakeOk(s: State, p: Pair) {
    && (p in s.met ==> Up(s, p) && Answered(s, p))
    && (p in s.reg ==> p in s.met || p in s.owed || p in s.echo)
    && (Flip(p) in s.reg && Flip(p) !in s.owed ==> p in s.met)
    && (HasHello(Queue(s, p)) ==> p in s.met)
    && (Queue(s, p) != [] ==> Up(s, p))
    && (Flip(p) in s.echo ==> Up(s, p) || Flip(p) in s.owed)
  }

  ghost predicate LinkOk(s: State, p: Pair) {
    HandshakeOk(s, p) && forall i :: 0 <= i < |Queue(s, p)| ==> RouteOk(s, p, i)
  }

  lemma WithoutAt(q: seq<Msg>, i: nat, j: nat)
    requires i < |q| && j < |q| - 1
    ensures |Without(q, i)| == |q| - 1
    ensures Without(q, i)[j] == if j < i then q[j] else q[j + 1]
  {
  }

  lemma HelloBeforeStays(q: seq<Msg>, i: nat, j: nat)
    requires i < |q| && j < |q| - 1
    ensures HelloBefore(Without(q, i), j) ==> HelloBefore(q, if j < i then j else j + 1)
    ensures !q[i].Hello? && HelloBefore(q, if j < i then j else j + 1) ==> HelloBefore(Without(q, i), j)
  {
    var t := Without(q, i);
    if k :| 0 <= k < j && t[k].Hello? {
      assert q[if k < i then k else k + 1].Hello?;
    }
    if k :| 0 <= k < (if j < i then j else j + 1) && q[k].Hello? && k != i {
      assert t[if k < i then k else k - 1].Hello?;
    }
  }

  lemma DeliverKeepsRoutes(s: State, p: Pair, i: nat, admitted: bool, j: nat)
    requires LinkOk(s, p) && Ready(Queue(s, p), i)
    requires j < |Queue(AfterDeliver(s, p, i, admitted), p)|
    ensures RouteOk(AfterDeliver(s, p, i, admitted), p, j)
  {
    var q := Queue(s, p);
    var was := if j < i then j else j + 1;
    WithoutAt(q, i, j);
    HelloBeforeStays(q, i, j);
    assert RouteOk(s, p, was);
    if q[i].Hello? && was > i {
      assert HelloBefore(q, was);
    }
  }

  lemma DeliverKeepsHello(q: seq<Msg>, i: nat)
    requires i < |q|
    ensures HasHello(Without(q, i)) ==> HasHello(q)
    ensures HasHello(q) && !q[i].Hello? ==> HasHello(Without(q, i))
  {
    var t := Without(q, i);
    if k :| 0 <= k < |t| && t[k].Hello? {
      assert q[if k < i then k else k + 1].Hello?;
    }
    if k :| 0 <= k < |q| && q[k].Hello? && k != i {
      assert t[if k < i then k else k - 1].Hello?;
    }
  }

  lemma DeliverKeepsLink(s: State, link: Pair, i: nat, admitted: bool, p: Pair)
    requires LinkOk(s, p) && Ready(Queue(s, link), i)
    ensures LinkOk(AfterDeliver(s, link, i, admitted), p)
  {
    var t := AfterDeliver(s, link, i, admitted);
    assert Flip(Flip(p)) == p && Flip(Flip(link)) == link;
    if link == p {
      DeliverKeepsHello(Queue(s, p), i);
      forall j | 0 <= j < |Queue(t, p)|
        ensures RouteOk(t, p, j)
      {
        DeliverKeepsRoutes(s, p, i, admitted, j);
      }
    } else {
      assert Queue(t, p) == Queue(s, p);
      forall j | 0 <= j < |Queue(t, p)|
        ensures RouteOk(t, p, j)
      {
        assert RouteOk(s, p, j);
      }
    }
  }

  lemma SentKeepsRoutes(s: State, p: Pair, m: Msg, i: nat)
    requires LinkOk(s, p) && Up(s, p) && i <= |Queue(s, p)|
    requires m.Route? ==> m.early == (p !in s.met)
    ensures RouteOk(Sent(s, p, m), p, i)
  {
    var q := Queue(s, p);
    var t := q + [m];
    assert HelloBefore(t, i) <==> HelloBefore(q, i) by {
      assert forall j :: 0 <= j < i ==> t[j] == q[j];
    }
    if i < |q| {
      assert RouteOk(s, p, i);
    }
  }

  lemma SentKeepsLink(s: State, link: Pair, m: Msg, met: set<Pair>, p: Pair)
    requires LinkOk(s, p) && Up(s, link)
    requires m.Route? ==> m.early == (link !in s.met) && met == s.met
    requires m.Hello? ==> met == s.met + {link}
    ensures LinkOk(Sent(s, link, m).(met := met), p)
  {
    var t := Sent(s, link, m).(met := met);
    if link == p {
      var q := Queue(s, p);
      if HasHello(q) {
        var j :| 0 <= j < |q| && q[j].Hello?;
        assert Queue(t, p)[j].Hello?;
      }
      assert m.Hello? ==> Queue(t, p)[|q|].Hello?;
      forall i | 0 <= i < |Queue(t, p)|
        ensures RouteOk(t, p, i)
      {
        SentKeepsRoutes(s, p, m, i);
      }
    } else {
      assert Queue(t, p) == Queue(s, p);
      forall i | 0 <= i < |Queue(t, p)|
        ensures RouteOk(t, p, i)
      {
        assert RouteOk(s, p, i);
      }
    }
  }

  lemma LinkDownKeepsLink(s: State, a: Node, b: Node, p: Pair)
    requires LinkOk(s, p) && Up(s, Pair(a, b))
    ensures LinkOk(Next(s, LinkDown(a, b)), p)
  {
    var t := Next(s, LinkDown(a, b));
    if p == Pair(a, b) || p == Pair(b, a) {
      assert Queue(t, p) == [];
    } else {
      assert Flip(p) != Pair(a, b) && Flip(p) != Pair(b, a) && Queue(t, p) == Queue(s, p);
      forall i | 0 <= i < |Queue(t, p)|
        ensures RouteOk(t, p, i)
      {
        assert RouteOk(s, p, i);
      }
    }
  }

  lemma NoticeKeepsLink(s: State, at: Node, peer: Node, p: Pair)
    requires LinkOk(s, p) && Pair(at, peer) in s.owed && IoFree(s, at)
    ensures LinkOk(Next(s, Notice(at, peer)), p)
  {
    var t := Next(s, Notice(at, peer));
    assert Queue(t, p) == Queue(s, p);
    forall i | 0 <= i < |Queue(t, p)|
      ensures RouteOk(t, p, i)
    {
      assert RouteOk(s, p, i);
    }
  }

  /** What LinkOk reads of a state. */
  lemma SameLinks(s: State, t: State, p: Pair)
    requires LinkOk(s, p)
    requires t.reg == s.reg && t.met == s.met && t.owed == s.owed && t.links == s.links && t.echo <= s.echo
    requires p in s.echo && p in s.reg && p !in s.met && p !in s.owed ==> p in t.echo
    ensures LinkOk(t, p)
  {
    forall i | 0 <= i < |Queue(t, p)|
      ensures RouteOk(t, p, i)
    {
      assert RouteOk(s, p, i);
    }
  }

  lemma EchoKeepsLink(s: State, to: Pair, p: Pair)
    requires LinkOk(s, p) && LinkOk(s, Flip(p)) && to in s.echo
    ensures LinkOk(Next(s, Echo(to)), p)
  {
    assert Flip(Flip(p)) == p;
    if Up(s, to) {
      var t := Sent(s, to, Hello).(met := s.met + {to});
      SentKeepsLink(s, to, Hello, s.met + {to}, p);
      assert Next(s, Echo(to)) == t.(echo := s.echo - {to});
      SameLinks(t, Next(s, Echo(to)), p);
    } else {
      SameLinks(s, s.(echo := s.echo - {to}), p);
    }
  }

  lemma SendKeepsLink(s: State, link: Pair, bulk: bool, p: Pair)
    requires LinkOk(s, p) && link in s.out
    ensures LinkOk(AfterSend(s, link, bulk), p)
  {
    if Up(s, link) {
      var m := Route(link !in s.met, bulk);
      SentKeepsLink(s, link, m, s.met, p);
      SameLinks(Sent(s, link, m).(met := s.met), AfterSend(s, link, bulk), p);
    } else {
      SameLinks(s, AfterSend(s, link, bulk), p);
    }
  }

  lemma GreetKeepsLink(s: State, link: Pair, p: Pair)
    requires LinkOk(s, p)
    ensures LinkOk(HelloSent(s, link), p)
  {
    if Up(s, link) {
      SentKeepsLink(s, link, Hello, s.met + {link}, p);
    }
  }

  lemma OnlyWork(s: State, e: Event)
    requires e.Publish? || e.StartTask?
    ensures Next(s, e) == s.(work := Next(s, e).work, out := Next(s, e).out)
  {
  }

  lemma TaskKeepsLink(s: State, e: Event, p: Pair)
    requires LinkOk(s, p) && (e.Publish? || e.StartTask?)
    ensures LinkOk(Next(s, e), p)
  {
    OnlyWork(s, e);
    SameLinks(s, Next(s, e), p);
  }

  predicate Idle(s: State, e: Event) {
    || (e.Deliver? && !(Ready(Queue(s, e.link), e.i) && IoFree(s, e.link.peer)))
    || (e.Echo? && e.to !in s.echo)
    || (e.LinkDown? && !Up(s, Pair(e.a, e.b)))
    || (e.Notice? && !(Pair(e.at, e.peer) in s.owed && IoFree(s, e.at)))
    || (e.SendNext? && e.link !in s.out)
    || (e.Greet? && e.src == e.dst)
  }

  lemma IdleStays(s: State, e: Event)
    requires Idle(s, e)
    ensures Next(s, e) == s
  {
  }

  lemma NextKeepsLink(s: State, e: Event, p: Pair)
    requires LinkOk(s, p) && LinkOk(s, Flip(p))
    ensures LinkOk(Next(s, e), p)
  {
    if Idle(s, e) {
      IdleStays(s, e);
    } else {
      match e
      case Greet(src, dst) => GreetKeepsLink(s, Pair(src, dst), p);
      case Deliver(link, i, admitted) => DeliverKeepsLink(s, link, i, admitted, p);
      case Echo(to) => EchoKeepsLink(s, to, p);
      case LinkDown(a, b) => LinkDownKeepsLink(s, a, b, p);
      case Notice(at, peer) => NoticeKeepsLink(s, at, peer, p);
      case Publish(n, source) => TaskKeepsLink(s, e, p);
      case StartTask(w, routes) => TaskKeepsLink(s, e, p);
      case SendNext(link, bulk) => SendKeepsLink(s, link, bulk, p);
    }
  }

  ghost predicate Inv(s: State) { forall p :: LinkOk(s, p) }

  lemma NextKeepsInv(s: State, e: Event)
    requires Inv(s)
    ensures Inv(Next(s, e))
  {
    forall p
      ensures LinkOk(Next(s, e), p)
    {
      NextKeepsLink(s, e, p);
    }
  }

  lemma {:induction false} RunFromKeepsInv(s: State, es: seq<Event>)
    requires Inv(s)
    ensures Inv(RunFrom(s, es))
  {
    if es != [] {
      var n := |es| - 1;
      RunFromKeepsInv(s, es[..n]);
      NextKeepsInv(RunFrom(s, es[..n]), es[n]);
    }
  }

  lemma RunKeepsInv(es: seq<Event>)
    ensures Inv(Run(es))
  {
    RunFromKeepsInv(Init(), es);
  }

  // ---- The handshake -----------------------------------------------------------

  /** If B is registered at A then A is registered at B, or A's hello to B is on its way or about to leave, or A has
      yet to hear that the link is gone; and every hello sent over a link that is up has been or will be
      answered. */
  lemma RegistrationIsAnswered(es: seq<Event>, p: Pair)
    ensures p in Run(es).reg && p !in Run(es).owed ==> p in Run(es).echo || Answered(Run(es), p)
    ensures p in Run(es).met ==> Up(Run(es), p) && Answered(Run(es), p)
  {
    RunKeepsInv(es);
    assert LinkOk(Run(es), p);
  }

  /** No hello on any link or about to leave, and no disconnect unnoticed. */
  ghost predicate Quiet(s: State) { s.echo == {} && s.owed == {} && forall p :: !HasHello(Queue(s, p)) }

  /** At quiescence registration is symmetric, and complete for every link greeted from either end. */
  lemma QuiescentIsSymmetric(es: seq<Event>)
    requires Quiet(Run(es))
    ensures forall p :: p in Run(es).reg <==> Flip(p) in Run(es).reg
    ensures forall p :: p in Run(es).reg <==> p in Run(es).met
  {
    RunKeepsInv(es);
    var s := Run(es);
    forall p
      ensures p in s.reg ==> p in s.met
      ensures p in s.met ==> Flip(p) in s.reg && p in s.reg
      ensures Flip(p) in s.reg ==> p in s.met
    {
      assert LinkOk(s, p) && LinkOk(s, Flip(p)) && Flip(Flip(p)) == p;
    }
    forall p
      ensures p in s.reg <==> Flip(p) in s.reg
    {
      assert Flip(Flip(p)) == p;
    }
  }

  ghost predicate FullyRegistered(nodes: set<Node>, reg: set<Pair>) {
    forall a, b :: Pair(a, b) in reg <==> a in nodes && b in nodes && a != b
  }

  /** The handshake brings a full mesh about: at quiescence, when every pair has been greeted from one end at least. */
  lemma GreetedMeshIsFullyRegistered(es: seq<Event>, nodes: set<Node>)
    requires Quiet(Run(es))
    requires forall p :: p in Run(es).met ==> p.at in nodes && p.peer in nodes && p.at != p.peer
    requires forall a, b :: a in nodes && b in nodes && a != b ==>
               Pair(a, b) in Run(es).met || Pair(b, a) in Run(es).met
    ensures FullyRegistered(nodes, Run(es).reg)
  {
    QuiescentIsSymmetric(es);
    forall a, b | a in nodes && b in nodes && a != b
      ensures Pair(a, b) in Run(es).reg
    {
      assert Flip(Pair(a, b)) == Pair(b, a) && Flip(Pair(b, a)) == Pair(a, b);
    }
  }

  /** The first hello over a link registers its sender, owes it an echo and queues exactly one snapshot of the table
      for it; any later one is only taken off the link. */
  lemma HelloIsHeard(es: seq<Event>, link: Pair, i: nat)
    requires Ready(Queue(Run(es), link), i) && Queue(Run(es), link)[i].Hello? && IoFree(Run(es), link.peer)
    ensures
      var s, t := Run(es), Next(Run(es), Deliver(link, i, true));
      && Queue(t, link) == Queue(s, link)[..i] + Queue(s, link)[i + 1..]
      && Pair(link.peer, link.at) in t.reg
      && (if Pair(link.peer, link.at) in s.reg then t.reg == s.reg && t.echo == s.echo && t.work == s.work
          else && t.reg == s.reg + {Pair(link.peer, link.at)} && t.echo == s.echo + {Pair(link.peer, link.at)}
               && t.work == s.work + multiset{CatchUp(Pair(link.peer, link.at))})
  {
  }

  /** A hello passes a frame of the slow lane that was sent before it, and never one of its own lane. */
  lemma HelloPassesBulkOnly(s: State, link: Pair, m: Msg)
    requires Queue(s, link) == [m, Hello] && IoFree(s, link.peer) && m.Route?
    ensures
      var t := Next(s, Deliver(link, 1, true));
      if m.bulk then Queue(t, link) == [m] && Pair(link.peer, link.at) in t.reg else t == s
  {
    assert Without([m, Hello], 1) == [m];
    assert Queue(s, link)[0] == m && (Ready(Queue(s, link), 1) <==> Bulk(m));
  }

  /** The snapshot goes to the newcomer, one message for each route in the table, and nowhere else. */
  lemma SnapshotGoesToNewcomer(s: State, to: Pair, routes: nat, p: Pair)
    requires CatchUp(to) in s.work
    ensures
      var t := Next(s, StartTask(CatchUp(to), routes));
      t.work == s.work - multiset{CatchUp(to)} && t.out[p] == s.out[p] + (if p == to then routes else 0)
  {
  }

  /** A link that goes down takes all its messages with it, and each end then forgets the other by its own notice. */
  lemma DownThenForgotten(s: State, a: Node, b: Node)
    requires Up(s, Pair(a, b)) && a != b && IoFree(s, a)
    ensures
      var t := Next(s, LinkDown(a, b));
      var u := Next(t, Notice(a, b));
      && Queue(t, Pair(a, b)) == Queue(t, Pair(b, a)) == [] && !Up(t, Pair(a, b)) && t.reg == s.reg
      && u.reg == s.reg - {Pair(a, b)} && Pair(a, b) !in u.owed
  {
  }

  // ---- When a replica is forwarded again ----------------------------------------------

  predicate Arrives(s: State, e: Event) {
    e.Deliver? && Ready(Queue(s, e.link), e.i) && IoFree(s, e.link.peer) && Queue(s, e.link)[e.i].Route?
  }

  /** Over every run, disconnects and both threads of every node included: an admitted replica is forwarded again
      if and only if it left before its sender's first hello over that link and no such hello has overtaken it.
      Only a frame of the slow lane can be overtaken. */
  lemma ForwardedAgainIff(es: seq<Event>, e: Event)
    requires Arrives(Run(es), e)
    ensures
      var s, m := Run(es), Queue(Run(es), e.link)[e.i];
      var again := e.admitted && m.early && (m.bulk ==> Flip(e.link) !in s.reg);
      && Next(s, e).again == s.again + (if again then 1 else 0)
      && Next(s, e).work == s.work + (if again then multiset{Fan(e.link.peer, e.link.at)} else multiset{})
      && Next(s, e).got == s.got + multiset{e.link.peer}
  {
    RunKeepsInv(es);
    assert LinkOk(Run(es), e.link) && RouteOk(Run(es), e.link, e.i);
  }

  /** A route to a peer still registered is early only inside the gap: the handler of mini.hello has registered
      the peer and not yet sent its echo. */
  lemma EarlyOnlyInGap(es: seq<Event>, p: Pair, bulk: bool)
    requires p in Run(es).out && Up(Run(es), p) && p in Run(es).reg
    ensures Next(Run(es), SendNext(p, bulk)).early > Run(es).early ==> p in Run(es).echo
  {
    RunKeepsInv(es);
    assert LinkOk(Run(es), p);
  }

  ghost predicate NoneEarly(s: State) {
    s.early == 0 ==> s.again == 0 && forall p, m :: m in Queue(s, p) && m.Route? ==> !m.early
  }

  lemma DeliveredMessages(s: State, link: Pair, i: nat, admitted: bool, p: Pair, m: Msg)
    requires i < |Queue(s, link)| && m in Queue(AfterDeliver(s, link, i, admitted), p)
    ensures m in Queue(s, p)
  {
    var q := Queue(s, link);
    if p == link {
      assert m in Without(q, i);
      assert forall x :: x in q[..i] || x in q[i + 1..] ==> x in q;
    }
  }

  lemma SentMessages(s: State, link: Pair, sent: Msg, p: Pair, m: Msg)
    requires m in Queue(Sent(s, link, sent), p)
    ensures m in Queue(s, p) || m == sent
  {
  }

  lemma MessagesComeFrom(s: State, e: Event, p: Pair, m: Msg)
    requires m in Queue(Next(s, e), p)
    ensures m in Queue(s, p) || m.Hello? || (m.early ==> Next(s, e).early > 0)
  {
    if Idle(s, e) {
      IdleStays(s, e);
    } else if e.Deliver? {
      DeliveredMessages(s, e.link, e.i, e.admitted, p, m);
    } else if e.SendNext? {
      if Up(s, e.link) {
        SentMessages(s, e.link, Route(e.link !in s.met, e.bulk), p, m);
      }
    } else if e.Greet? || e.Echo? {
      var link := if e.Greet? then Pair(e.src, e.dst) else e.to;
      if Up(s, link) {
        SentMessages(s, link, Hello, p, m);
      }
    }
  }

  lemma NextKeepsNoneEarly(s: State, e: Event)
    requires NoneEarly(s) && Inv(s)
    ensures NoneEarly(Next(s, e))
  {
    var t := Next(s, e);
    forall p, m | m in Queue(t, p) && m.Route? && t.early == 0
      ensures !m.early
    {
      MessagesComeFrom(s, e, p, m);
    }
    if Arrives(s, e) {
      assert LinkOk(s, e.link) && RouteOk(s, e.link, e.i);
      assert Queue(s, e.link)[e.i] in Queue(s, e.link);
    }
  }

  /** So in a run in which no route leaves early no replica is ever forwarded again, whatever the registrations
      and however they change under way. */
  lemma {:induction false} NoReplicaGoesOn(es: seq<Event>)
    ensures Run(es).early == 0 ==> Run(es).again == 0
    ensures NoneEarly(Run(es))
  {
    if es != [] {
      var n := |es| - 1;
      NoReplicaGoesOn(es[..n]);
      RunKeepsInv(es[..n]);
      NextKeepsNoneEarly(Run(es[..n]), es[n]);
    }
  }

  /** And the gap is real: a route that the sender thread gets out between registration and echo is forwarded again
      by a receiver that does not know its sender yet. */
  lemma GapForwardsAgain(a: Node, b: Node, source: Node, es: seq<Event>)
    requires a != b && source != b
    requires es == [Greet(b, a), Publish(a, source), Deliver(Pair(b, a), 0, true),
                    StartTask(Fan(a, source), 0), SendNext(Pair(a, b), false), Deliver(Pair(a, b), 0, true)]
    ensures Pair(a, b) in Run(es[..4]).echo && Run(es[..5]).early == 1
    ensures Run(es).again == 1 && Fan(b, a) in Run(es).work
  {
    GapOpens(a, b, source, es);
    PrefixSnoc(es, 4);
    EarlyRouteArrives(a, b, Run(es[..4]));
    PrefixSnoc(es, 5);
    assert es[..6] == es;
  }

  lemma GapOpens(a: Node, b: Node, source: Node, es: seq<Event>)
    requires a != b && source != b && |es| >= 4
    requires es[0] == Greet(b, a) && es[1] == Publish(a, source)
    requires es[2] == Deliver(Pair(b, a), 0, true) && es[3] == StartTask(Fan(a, source), 0)
    ensures
      var s := Run(es[..4]);
      && s.out == multiset{Pair(a, b)} && s.reg == s.echo == {Pair(a, b)} && s.met == {Pair(b, a)} && s.owed == {}
      && s.links == map[Pair(b, a) := []] && s.early == s.again == 0
  {
    assert es[..0] == [] && Run(es[..0]) == Init();
    PrefixSnoc(es, 0);
    PrefixSnoc(es, 1);
    GreetAndPublish(a, b, source);
    PrefixSnoc(es, 2);
    PrefixSnoc(es, 3);
    RegisterAndFanOut(a, b, source);
  }

  ghost function Greeted(a: Node, b: Node, source: Node): State {
    Init().(links := map[Pair(b, a) := [Hello]], met := {Pair(b, a)}, work := multiset{Fan(a, source)})
  }

  lemma GreetAndPublish(a: Node, b: Node, source: Node)
    requires a != b
    ensures Next(Next(Init(), Greet(b, a)), Publish(a, source)) == Greeted(a, b, source)
  {
    assert [] + [Hello] == [Hello];
    assert multiset{} + multiset{Fan(a, source)} == multiset{Fan(a, source)};
  }

  lemma RegisterAndFanOut(a: Node, b: Node, source: Node)
    requires a != b && source != b
    ensures
      var s := Next(Next(Greeted(a, b, source), Deliver(Pair(b, a), 0, true)), StartTask(Fan(a, source), 0));
      && s.out == multiset{Pair(a, b)} && s.reg == s.echo == {Pair(a, b)} && s.met == {Pair(b, a)} && s.owed == {}
      && s.links == map[Pair(b, a) := []] && s.early == s.again == 0
  {
    assert Without([Hello], 0) == [];
    assert FanOut({Pair(a, b)}, a, source) == {Pair(a, b)};
    assert multiset({Pair(a, b)}) == multiset{Pair(a, b)};
  }

  lemma EarlyRouteArrives(a: Node, b: Node, s: State)
    requires a != b && s.out == multiset{Pair(a, b)} && s.reg == s.echo == {Pair(a, b)} && s.met == {Pair(b, a)}
    requires s.owed == {} && s.links == map[Pair(b, a) := []] && s.early == s.again == 0
    ensures
      var sent := Next(s, SendNext(Pair(a, b), false));
      var t := Next(sent, Deliver(Pair(a, b), 0, true));
      sent.early == 1 && t.again == 1 && Fan(b, a) in t.work
  {
    var sent := Next(s, SendNext(Pair(a, b), false));
    assert Queue(sent, Pair(a, b)) == [Route(true, false)];
  }

  // ---- Echoing terminates -------------------------------------------------------------

  /** How many hellos, or how many routes, a queue holds. */
  function Count(q: seq<Msg>, hellos: bool): nat {
    if q == [] then 0 else Count(q[..|q| - 1], hellos) + (if q[|q| - 1].Hello? == hellos then 1 else 0)
  }

  lemma CountSnoc(q: seq<Msg>, m: Msg, hellos: bool)
    ensures Count(q + [m], hellos) == Count(q, hellos) + (if m.Hello? == hellos then 1 else 0)
  {
    assert (q + [m])[..|q|] == q;
  }

  lemma {:induction false} CountWithout(q: seq<Msg>, i: nat, hellos: bool)
    requires i < |q|
    ensures Count(q, hellos) == Count(Without(q, i), hellos) + (if q[i].Hello? == hellos then 1 else 0)
  {
    var n := |q| - 1;
    if i < n {
      CountWithout(q[..n], i, hellos);
      assert Without(q, i) == Without(q[..n], i) + [q[n]];
      CountSnoc(Without(q[..n], i), q[n], hellos);
    } else {
      assert Without(q, i) == q[..n];
    }
  }

  function HelloCounts(links: map<Pair, seq<Msg>>): map<Pair, nat> { map p | p in links :: Count(links[p], true) }

  /** The hellos on all links. */
  ghost function Hellos(s: State): nat { Sum(HelloCounts(s.links)) }

  lemma HellosAfter(links: map<Pair, seq<Msg>>, p: Pair, q: seq<Msg>)
    ensures Sum(HelloCounts(links[p := q]))
            == Sum(HelloCounts(links)) - (if p in links then Count(links[p], true) else 0) + Count(q, true)
  {
    assert HelloCounts(links[p := q]) == HelloCounts(links)[p := Count(q, true)];
    SumUpdate(HelloCounts(links), p, Count(q, true));
  }

  /** A step of the exchange itself: a hello is delivered, or an echo leaves. */
  predicate Handshakes(s: State, e: Event) {
    || (e.Deliver? && Ready(Queue(s, e.link), e.i) && IoFree(s, e.link.peer) && Queue(s, e.link)[e.i].Hello?)
    || (e.Echo? && e.to in s.echo)
  }

  predicate AllHandshake(s: State, es: seq<Event>) {
    forall k :: 0 <= k < |es| ==> Handshakes(RunFrom(s, es[..k]), es[k])
  }

  ghost predicate Among(s: State, all: set<Pair>) {
    && s.reg <= all
    && forall p :: HasHello(Queue(s, p)) ==> p in all && Flip(p) in all
  }

  /** Hellos under way, echoes owed and pairs not yet registered. */
  ghost function Effort(s: State, all: set<Pair>): nat { Hellos(s) + 2 * |s.echo| + 2 * |all - s.reg| }

  lemma DeliverySpends(s: State, e: Event, all: set<Pair>)
    requires Among(s, all) && s.echo <= s.reg && Handshakes(s, e) && e.Deliver?
    ensures Effort(Next(s, e), all) < Effort(s, all)
  {
    var q, p := Queue(s, e.link), Flip(e.link);
    HellosAfter(s.links, e.link, Without(q, e.i));
    CountWithout(q, e.i, true);
    assert HasHello(q);
    if p !in s.reg {
      assert |s.echo + {p}| == |s.echo| + 1;
      assert all - s.reg == (all - (s.reg + {p})) + {p};
    }
  }

  lemma EchoSpends(s: State, e: Event, all: set<Pair>)
    requires Handshakes(s, e) && e.Echo?
    ensures Effort(Next(s, e), all) < Effort(s, all)
  {
    assert s.echo == (s.echo - {e.to}) + {e.to};
    HellosAfter(s.links, e.to, Queue(s, e.to) + [Hello]);
    CountSnoc(Queue(s, e.to), Hello, true);
  }

  lemma HandshakeStep(s: State, e: Event, all: set<Pair>)
    requires Among(s, all) && s.echo <= s.reg && Handshakes(s, e)
    ensures Effort(Next(s, e), all) < Effort(s, all) && Next(s, e).echo <= Next(s, e).reg
  {
    if e.Deliver? {
      DeliverySpends(s, e, all);
    } else {
      EchoSpends(s, e, all);
    }
  }

  lemma {:induction false} EchoIsRegistered(es: seq<Event>)
    ensures Run(es).echo <= Run(es).reg
  {
    if es != [] {
      EchoIsRegistered(es[..|es| - 1]);
    }
  }

  lemma HandshakeStaysAmong(s: State, e: Event, all: set<Pair>)
    requires Among(s, all) && s.echo <= s.reg && Handshakes(s, e)
    requires forall p :: p in all ==> Flip(p) in all
    ensures Among(Next(s, e), all)
  {
    var t := Next(s, e);
    match e
    case Deliver(link, i, admitted) =>
      assert HasHello(Queue(s, link));
      forall p | HasHello(Queue(t, p))
        ensures p in all && Flip(p) in all
      {
        if p == link {
          DeliverKeepsHello(Queue(s, p), i);
        } else {
          assert Queue(t, p) == Queue(s, p);
        }
      }
    case Echo(to) =>
      forall p | HasHello(Queue(t, p))
        ensures p in all && Flip(p) in all
      {
        if p != to {
          assert Queue(t, p) == Queue(s, p);
        }
      }
  }

  lemma {:induction false} EffortSpent(s: State, es: seq<Event>, all: set<Pair>)
    requires Among(s, all) && s.echo <= s.reg && AllHandshake(s, es)
    requires forall p :: p in all ==> Flip(p) in all
    ensures |es| + Effort(RunFrom(s, es), all) <= Effort(s, all)
    ensures Among(RunFrom(s, es), all) && RunFrom(s, es).echo <= RunFrom(s, es).reg
  {
    if es != [] {
      var n := |es| - 1;
      forall k | 0 <= k < n
        ensures Handshakes(RunFrom(s, es[..n][..k]), es[..n][k])
      {
        assert es[..n][..k] == es[..k];
      }
      EffortSpent(s, es[..n], all);
      HandshakeStep(RunFrom(s, es[..n]), es[n], all);
      HandshakeStaysAmong(RunFrom(s, es[..n]), es[n], all);
    }
  }

  /** Left to itself the exchange stops: from any reachable state it takes at most as many steps as there are hellos
      under way, plus two for every echo owed and every pair not yet registered. */
  lemma EchoTerminates(before: seq<Event>, es: seq<Event>, all: set<Pair>)
    requires Among(Run(before), all) && AllHandshake(Run(before), es)
    requires forall p :: p in all ==> Flip(p) in all
    ensures |es| <= Hellos(Run(before)) + 2 * |Run(before).echo| + 2 * |all - Run(before).reg|
  {
    EchoIsRegistered(before);
    EffortSpent(Run(before), es, all);
  }

  // ---- And it settles -----------------------------------------------------------------------

  function Lengths(links: map<Pair, seq<Msg>>): map<Pair, nat> { map p | p in links :: |links[p]| }

  /** What the nodes still have to do: notices, registrations, echoes, messages. */
  datatype Load = Load(owed: nat, unknown: nat, echoes: nat, messages: nat)

  ghost function LoadOf(s: State, all: set<Pair>): Load {
    Load(|s.owed|, |all - s.reg|, |s.echo|, Sum(Lengths(s.links)))
  }

  predicate Lighter(a: Load, b: Load) {
    || a.owed < b.owed
    || (a.owed == b.owed && a.unknown < b.unknown)
    || (a.owed == b.owed && a.unknown == b.unknown && a.echoes < b.echoes)
    || (a.owed == b.owed && a.unknown == b.unknown && a.echoes == b.echoes && a.messages < b.messages)
  }

  lemma LengthsAfter(links: map<Pair, seq<Msg>>, p: Pair, q: seq<Msg>)
    ensures Sum(Lengths(links[p := q])) == Sum(Lengths(links)) - (if p in links then |links[p]| else 0) + |q|
  {
    assert Lengths(links[p := q]) == Lengths(links)[p := |q|];
    SumUpdate(Lengths(links), p, |q|);
  }

  lemma FewerLeft(all: set<Pair>, reg: set<Pair>, p: Pair)
    requires p in all && p !in reg
    ensures |all - (reg + {p})| < |all - reg|
  {
    assert all - reg == (all - (reg + {p})) + {p};
  }

  lemma FirstDelivered(s: State, p: Pair, all: set<Pair>)
    requires Among(s, all) && s.echo == {} && HasHello(Queue(s, p))
    ensures Lighter(LoadOf(Next(s, Deliver(p, 0, true)), all), LoadOf(s, all))
    ensures Next(s, Deliver(p, 0, true)).echo <= Next(s, Deliver(p, 0, true)).reg
    ensures Next(s, Deliver(p, 0, true)).met >= s.met
  {
    var q := Queue(s, p);
    assert q != [] && Ready(q, 0);
    LengthsAfter(s.links, p, Without(q, 0));
    if q[0].Hello? && Flip(p) !in s.reg {
      FewerLeft(all, s.reg, Flip(p));
    }
  }

  lemma EchoLightens(s: State, to: Pair, all: set<Pair>)
    requires to in s.echo
    ensures Lighter(LoadOf(Next(s, Echo(to)), all), LoadOf(s, all))
  {
    assert s.echo == (s.echo - {to}) + {to};
  }

  lemma NoticeLightens(s: State, p: Pair, all: set<Pair>)
    requires p in s.owed && s.echo == {}
    ensures Lighter(LoadOf(Next(s, Notice(p.at, p.peer)), all), LoadOf(s, all))
  {
    assert Pair(p.at, p.peer) == p && s.owed == (s.owed - {p}) + {p};
  }

  /** As long as something is unsettled there is a step of the nodes' own that lightens what is left. */
  lemma SettlingStep(s: State, all: set<Pair>) returns (e: Event)
    requires Among(s, all) && s.echo <= s.reg && !Quiet(s)
    ensures e.Echo? || e.Notice? || e.Deliver?
    ensures Lighter(LoadOf(Next(s, e), all), LoadOf(s, all))
    ensures Next(s, e).echo <= Next(s, e).reg && s.met <= Next(s, e).met
    ensures e.Echo? ==> e.to in s.reg
  {
    if s.echo != {} {
      var to :| to in s.echo;
      e := Echo(to);
      EchoLightens(s, to, all);
    } else if s.owed != {} {
      var p :| p in s.owed;
      e := Notice(p.at, p.peer);
      NoticeLightens(s, p, all);
    } else {
      var p :| HasHello(Queue(s, p));
      e := Deliver(p, 0, true);
      FirstDelivered(s, p, all);
    }
  }

  lemma SettlingStaysAmong(s: State, e: Event, all: set<Pair>)
    requires Among(s, all) && (e.Echo? || e.Notice? || e.Deliver?) && (e.Echo? ==> e.to in s.reg)
    requires forall p :: p in all ==> Flip(p) in all
    ensures Among(Next(s, e), all)
  {
    var t := Next(s, e);
    forall p | HasHello(Queue(t, p))
      ensures p in all && Flip(p) in all
    {
      var i :| 0 <= i < |Queue(t, p)| && Queue(t, p)[i].Hello?;
      HellosComeFrom(s, e, p, Queue(t, p)[i]);
      if Hello in Queue(s, p) {
        assert HasHello(Queue(s, p));
      }
    }
    if e.Deliver? && !Idle(s, e) && Queue(s, e.link)[e.i].Hello? {
      assert HasHello(Queue(s, e.link));
    }
  }

  lemma HellosComeFrom(s: State, e: Event, p: Pair, m: Msg)
    requires m in Queue(Next(s, e), p) && m.Hello? && (e.Echo? || e.Notice? || e.Deliver?)
    ensures m in Queue(s, p) || (e.Echo? && e.to == p)
  {
    if Idle(s, e) {
      IdleStays(s, e);
    } else if e.Deliver? {
      DeliveredMessages(s, e.link, e.i, e.admitted, p, m);
    } else if e.Echo? && Up(s, e.to) {
      SentMessages(s, e.to, Hello, p, m);
    }
  }

  /** The run goes on by deliveries, echoes and notices alone, forgets no hello sent, and ends in quiet. */
  ghost predicate Settles(es: seq<Event>, all: seq<Event>) {
    && es <= all
    && (forall k :: |es| <= k < |all| ==> all[k].Echo? || all[k].Notice? || all[k].Deliver?)
    && Run(es).met <= Run(all).met
    && Quiet(Run(all))
  }

  lemma SettlesEarlier(es: seq<Event>, e: Event, all: seq<Event>)
    requires Settles(es + [e], all) && (e.Echo? || e.Notice? || e.Deliver?) && Run(es).met <= Run(es + [e]).met
    ensures Settles(es, all)
  {
    assert all[|es|] == (es + [e])[|es|] == e;
  }

  lemma {:induction false} Settled(es: seq<Event>, pairs: set<Pair>, load: Load) returns (all: seq<Event>)
    requires Among(Run(es), pairs) && (forall p :: p in pairs ==> Flip(p) in pairs)
    requires Run(es).echo <= Run(es).reg && load == LoadOf(Run(es), pairs)
    ensures Settles(es, all)
    decreases load.owed, load.unknown, load.echoes, load.messages
  {
    if Quiet(Run(es)) {
      all := es;
    } else {
      var e := SettlingStep(Run(es), pairs);
      SettlingStaysAmong(Run(es), e, pairs);
      PrefixSnoc(es + [e], |es|);
      assert (es + [e])[..|es|] == es && (es + [e])[..|es| + 1] == es + [e];
      all := Settled(es + [e], pairs, LoadOf(Run(es + [e]), pairs));
      SettlesEarlier(es, e, all);
    }
  }

  /** From every reachable state, without a single further greeting, deliveries, echoes and notices can bring the
      mesh to quiet, and then both ends of every link over which a hello was ever sent, and that is still up, have
      registered each other. */
  lemma HandshakeSettles(es: seq<Event>) returns (all: seq<Event>)
    ensures es <= all && forall k :: |es| <= k < |all| ==> all[k].Echo? || all[k].Notice? || all[k].Deliver?
    ensures Quiet(Run(all))
    ensures forall p :: p in Run(es).met ==> p in Run(all).reg && Flip(p) in Run(all).reg
  {
    var s := Run(es);
    var half := s.reg + (set p | p in s.links);
    var pairs := half + (set p | p in half :: Flip(p));
    forall p | p in pairs
      ensures Flip(p) in pairs
    {
      if p !in half {
        var q :| q in half && Flip(q) == p;
        assert Flip(p) == q;
      }
    }
    EchoIsRegistered(es);
    all := Settled(es, pairs, LoadOf(s, pairs));
    QuiescentIsSymmetric(all);
  }

  // ---- One hop, once each -----------------------------------------------------------------

  /** Any step but a new publication, a lost link and a newcomer. */
  predicate Calm(e: Event, nodes: set<Node>) {
    !e.Publish? && !e.LinkDown? && (e.Greet? ==> e.src in nodes && e.dst in nodes)
  }

  /** The directions in which a route published at p is due. */
  predicate Due(nodes: set<Node>, p: Node, x: Pair) { x.at == p && x.peer in nodes && x.peer != p }

  /** Copies of the route decided on, on the link, or delivered. */
  function Copies(s: State, x: Pair): nat { s.out[x] + Count(Queue(s, x), false) + s.got[x.peer] }

  ghost predicate CopiesOk(s: State, nodes: set<Node>, p: Node, base: State, x: Pair) {
    if Due(nodes, p, x) then Copies(s, x) == base.got[x.peer] + (if s.work == multiset{} then 1 else 0)
    else s.out[x] == 0 && Count(Queue(s, x), false) == 0
  }

  ghost predicate FullMesh(s: State, nodes: set<Node>) {
    FullyRegistered(nodes, s.reg) && s.met == s.reg && s.owed == {} && s.echo == {}
  }

  /** A route published at p: either still to be fanned out or one copy for every other node, and nothing else. */
  ghost predicate OneEach(s: State, nodes: set<Node>, p: Node, source: Node, base: State) {
    && FullMesh(s, nodes) && s.again == base.again
    && (s.work == multiset{Fan(p, source)} || s.work == multiset{})
    && (forall x :: CopiesOk(s, nodes, p, base, x))
    && (forall q :: q !in nodes || q == p ==> s.got[q] == base.got[q])
  }

  lemma MeshDelivers(s: State, e: Event, nodes: set<Node>, p: Node)
    requires Inv(s) && FullMesh(s, nodes) && p in nodes && e.Deliver? && !Idle(s, e)
    requires Queue(s, e.link)[e.i].Route? ==> Due(nodes, p, e.link)
    ensures
      var q := Queue(s, e.link);
      Next(s, e) == s.(links := s.links[e.link := Without(q, e.i)],
                       got := if q[e.i].Route? then s.got + multiset{e.link.peer} else s.got)
  {
    assert LinkOk(s, e.link);
    assert Queue(s, e.link)[e.i].Hello? ==> HasHello(Queue(s, e.link));
    assert e.link == Pair(e.link.at, e.link.peer);
  }

  lemma CalmDeliver(s: State, e: Event, nodes: set<Node>, p: Node, source: Node, base: State)
    requires OneEach(s, nodes, p, source, base) && Inv(s) && p in nodes && e.Deliver? && !Idle(s, e)
    ensures OneEach(Next(s, e), nodes, p, source, base)
  {
    var q := Queue(s, e.link);
    CountWithout(q, e.i, false);
    assert CopiesOk(s, nodes, p, base, e.link);
    MeshDelivers(s, e, nodes, p);
    forall x
      ensures CopiesOk(Next(s, e), nodes, p, base, x)
    {
      assert CopiesOk(s, nodes, p, base, x);
      assert x.peer == e.link.peer && x.at == e.link.at ==> x == e.link;
    }
  }

  lemma MeshSends(s: State, link: Pair, bulk: bool, nodes: set<Node>, p: Node)
    requires FullMesh(s, nodes) && link in s.out && Due(nodes, p, link) && p in nodes
    ensures Next(s, SendNext(link, bulk)) == Sent(s.(out := s.out - multiset{link}), link, Route(false, bulk))
  {
    assert link == Pair(link.at, link.peer) && link in s.reg;
  }

  lemma CalmSend(s: State, link: Pair, bulk: bool, nodes: set<Node>, p: Node, source: Node, base: State)
    requires OneEach(s, nodes, p, source, base) && link in s.out && p in nodes
    ensures OneEach(Next(s, SendNext(link, bulk)), nodes, p, source, base)
  {
    assert CopiesOk(s, nodes, p, base, link);
    MeshSends(s, link, bulk, nodes, p);
    CountSnoc(Queue(s, link), Route(false, bulk), false);
    forall x
      ensures CopiesOk(Next(s, SendNext(link, bulk)), nodes, p, base, x)
    {
      assert CopiesOk(s, nodes, p, base, x);
    }
  }

  lemma CalmGreet(s: State, link: Pair, nodes: set<Node>, p: Node, source: Node, base: State)
    requires OneEach(s, nodes, p, source, base) && link in s.reg
    ensures OneEach(HelloSent(s, link), nodes, p, source, base)
  {
    CountSnoc(Queue(s, link), Hello, false);
    assert s.met + {link} == s.met;
    forall x
      ensures CopiesOk(HelloSent(s, link), nodes, p, base, x)
    {
      assert CopiesOk(s, nodes, p, base, x);
    }
  }

  lemma MeshFanOut(reg: set<Pair>, nodes: set<Node>, p: Node, source: Node, x: Pair)
    requires FullyRegistered(nodes, reg) && p in nodes && source !in nodes
    ensures multiset(FanOut(reg, p, source))[x] == if Due(nodes, p, x) then 1 else 0
  {
    assert x == Pair(x.at, x.peer);
  }

  lemma CalmFanOut(s: State, nodes: set<Node>, p: Node, source: Node, base: State, routes: nat)
    requires OneEach(s, nodes, p, source, base) && Fan(p, source) in s.work && p in nodes && source !in nodes
    ensures OneEach(Next(s, StartTask(Fan(p, source), routes)), nodes, p, source, base)
  {
    var t := Next(s, StartTask(Fan(p, source), routes));
    assert t == s.(work := multiset{}, out := s.out + multiset(FanOut(s.reg, p, source)));
    forall x
      ensures CopiesOk(t, nodes, p, base, x)
    {
      MeshFanOut(s.reg, nodes, p, source, x);
      assert CopiesOk(s, nodes, p, base, x);
    }
  }

  lemma CalmKeepsOneEach(s: State, e: Event, nodes: set<Node>, p: Node, source: Node, base: State)
    requires OneEach(s, nodes, p, source, base) && Inv(s) && p in nodes && source !in nodes && Calm(e, nodes)
    ensures OneEach(Next(s, e), nodes, p, source, base)
  {
    if Idle(s, e) {
      IdleStays(s, e);
    } else {
      match e
      case Greet(src, dst) => CalmGreet(s, Pair(src, dst), nodes, p, source, base);
      case Deliver(link, i, admitted) => CalmDeliver(s, e, nodes, p, source, base);
      case StartTask(w, routes) => if w in s.work { CalmFanOut(s, nodes, p, source, base, routes); }
      case SendNext(link, bulk) => CalmSend(s, link, bulk, nodes, p, source, base);
    }
  }

  /** A quiet full mesh with no route under way. */
  ghost predicate AtRest(s: State, nodes: set<Node>) {
    Quiet(s) && FullyRegistered(nodes, s.reg) && s.work == multiset{} && s.out == multiset{}
    && forall x :: Count(Queue(s, x), false) == 0
  }

  lemma {:induction false} CalmRunKeepsOneEach(s: State, es: seq<Event>, nodes: set<Node>, p: Node, source: Node,
                                                  base: State)
    requires OneEach(s, nodes, p, source, base) && Inv(s) && p in nodes && source !in nodes
    requires forall e :: e in es ==> Calm(e, nodes)
    ensures OneEach(RunFrom(s, es), nodes, p, source, base)
  {
    if es != [] {
      var n := |es| - 1;
      assert forall e :: e in es[..n] ==> e in es;
      CalmRunKeepsOneEach(s, es[..n], nodes, p, source, base);
      RunFromKeepsInv(s, es[..n]);
      assert es[n] in es;
      CalmKeepsOneEach(RunFrom(s, es[..n]), es[n], nodes, p, source, base);
    }
  }

  /** From any reachable full mesh at rest: a route published by a full node at p reaches every other mini-node
      exactly once, whatever order threads and links take and however often the nodes greet each other meanwhile,
      and no replica is forwarded again. */
  lemma OneReplicaEach(before: seq<Event>, es: seq<Event>, nodes: set<Node>, p: Node, source: Node)
    requires AtRest(Run(before), nodes) && p in nodes && source !in nodes
    requires forall e :: e in es ==> Calm(e, nodes)
    ensures
      var base := Run(before);
      var s := RunFrom(Next(base, Publish(p, source)), es);
      && s.again == base.again
      && (forall q :: q in nodes && q != p ==> s.got[q] <= base.got[q] + 1)
      && (s.work == multiset{} && s.out == multiset{} && (forall x :: Count(Queue(s, x), false) == 0) ==>
            forall q :: s.got[q] == base.got[q] + (if q in nodes && q != p then 1 else 0))
  {
    var base := Run(before);
    var start := Next(base, Publish(p, source));
    RunKeepsInv(before);
    QuiescentIsSymmetric(before);
    PublishStarts(base, nodes, p, source);
    NextKeepsInv(base, Publish(p, source));
    CalmRunKeepsOneEach(start, es, nodes, p, source, base);
    var s := RunFrom(start, es);
    forall q | q in nodes && q != p
      ensures Copies(s, Pair(p, q)) == base.got[q] + (if s.work == multiset{} then 1 else 0)
    {
      assert CopiesOk(s, nodes, p, base, Pair(p, q)) && Due(nodes, p, Pair(p, q));
    }
  }

  lemma PublishStarts(base: State, nodes: set<Node>, p: Node, source: Node)
    requires AtRest(base, nodes) && base.met == base.reg && p in nodes && source !in nodes
    ensures OneEach(Next(base, Publish(p, source)), nodes, p, source, base)
  {
    var t := Next(base, Publish(p, source));
    assert t == base.(work := multiset{Fan(p, source)});
    forall x
      ensures CopiesOk(t, nodes, p, base, x)
    {
      assert Count(Queue(base, x), false) == 0;
    }
  }

  // ---- One node's registry, updated in place ----------------------------------------------

  function PeersAt(reg: set<Pair>, n: Node): set<Node> {
    set p | p in reg && p.at == n :: p.peer
  }

  lemma PeersAtIff(reg: set<Pair>, n: Node, q: Node)
    ensures q in PeersAt(reg, n) <==> Pair(n, q) in reg
  {
    if q in PeersAt(reg, n) {
      var p :| p in reg && p.at == n && p.peer == q;
      assert p == Pair(n, q);
    }
  }

  class MeshNode {
    const self: Node
    var minis: set<Node>   // g_mininode_peers

    constructor (self: Node)
      ensures this.self == self && minis == {}
    {
      this.self := self;
      minis := {};
    }

    /** The mini.hello handler up to the echo it owes, as this node's share of a delivery in any network state. */
    method OnMiniHello(ghost s: State, src: Node, ghost i: nat) returns (echo: bool)
      requires Ready(Queue(s, Pair(src, self)), i) && Queue(s, Pair(src, self))[i].Hello? && IoFree(s, self)
      requires minis == PeersAt(s.reg, self)
      modifies this`minis
      ensures minis == PeersAt(Next(s, Deliver(Pair(src, self), i, true)).reg, self)
      ensures echo <==> Pair(self, src) in Next(s, Deliver(Pair(src, self), i, true)).echo
    {
      PeersAtIff(s.reg, self, src);
      var added := src !in minis;
      minis := minis + {src};
      echo := added;
      forall q
        ensures q in minis <==> q in PeersAt(s.reg + {Pair(self, src)}, self)
      {
        PeersAtIff(s.reg, self, q);
        PeersAtIff(s.reg + {Pair(self, src)}, self, q);
      }
      assert Pair(self, src) in s.reg ==> s.reg + {Pair(self, src)} == s.reg;
    }

    /** The mini-node part of on_peer_disconnected, as this node's notice of a dead link. */
    method OnPeerDisconnected(ghost s: State, peer: Node) returns (wasMini: bool)
      requires Pair(self, peer) in s.owed && IoFree(s, self) && minis == PeersAt(s.reg, self)
      modifies this`minis
      ensures minis == PeersAt(Next(s, Notice(self, peer)).reg, self)
      ensures wasMini <==> Pair(self, peer) in s.reg
    {
      PeersAtIff(s.reg, self, peer);
      wasMini := peer in minis;
      minis := minis - {peer};
      forall q
        ensures q in minis <==> q in PeersAt(s.reg - {Pair(self, peer)}, self)
      {
        PeersAtIff(s.reg, self, q);
        PeersAtIff(s.reg - {Pair(self, peer)}, self, q);
      }
    }

    /** The snapshot loop of replicate_route_to_mininodes: the fan-out of the protocol, each peer once. */
    method ReplicationPeers(ghost s: State, source: Node) returns (peers: seq<Node>)
      requires minis == PeersAt(s.reg, self)
      ensures forall q :: q in peers <==> Pair(self, q) in FanOut(s.reg, self, source)
      ensures forall i, j :: 0 <= i < j < |peers| ==> peers[i] != peers[j]
    {
      peers := [];
      var todo := minis;
      while todo != {}
        invariant todo <= minis
        invariant forall q :: q in peers <==> q in minis - todo && q != source
        invariant forall i, j :: 0 <= i < j < |peers| ==> peers[i] != peers[j]
        decreases todo
      {
        var p :| p in todo;
        if p != source {
          assert p !in peers;
          peers := peers + [p];
        }
        todo := todo - {p};
      }
      forall q
        ensures q in minis <==> Pair(self, q) in s.reg
      {
        PeersAtIff(s.reg, self, q);
      }
    }
  }
}
