/** player.announce and on_peer_disconnected: which players exist, and the online/offline broadcasts they
    push through the sender queue. */
module PlayerPresence {
  import SQ = SendQueue

  type PeerId = string

  datatype Task = Online(pid: PeerId) | Offline(pid: PeerId) | Other

  datatype State = State(players: set<PeerId>, minis: set<PeerId>, sq: SQ.State<Task>)

  /** MiniHello registers a peer as a mini-node; OtherTask is any other fan-out pushed on the queue. */
  datatype Event =
    | Announce(pid: PeerId)
    | MiniHello(pid: PeerId)
    | Disconnect(pid: PeerId)
    | OtherTask
    | Stop
    | SenderStep

  function Push(s: State, t: Task): State { s.(sq := SQ.AfterEnqueue(s.sq, t)) }

  function AfterAnnounce(s: State, pid: PeerId): State {
    if pid in s.players then s else Push(s.(players := s.players + {pid}), Online(pid))
  }

  /** A registered mini-node is not looked up among the players. */
  function AfterDisconnect(s: State, pid: PeerId): State {
    var wasPlayer := pid !in s.minis && pid in s.players;
    var t := s.(minis := s.minis - {pid}, players := if pid in s.minis then s.players else s.players - {pid});
    if wasPlayer && pid != "" then Push(t, Offline(pid)) else t
  }

  /** A producer waits while the sender holds the queue lock. */
  function Next(s: State, e: Event): State {
    match e
    case Announce(pid) => if SQ.LockFree(s.sq) then AfterAnnounce(s, pid) else s
    case MiniHello(pid) => s.(minis := s.minis + {pid})
    case Disconnect(pid) => if SQ.LockFree(s.sq) then AfterDisconnect(s, pid) else s
    case OtherTask => if SQ.LockFree(s.sq) then Push(s, Other) else s
    case Stop => s.(sq := SQ.Next(s.sq, SQ.Stop))
    case SenderStep => s.(sq := SQ.Next(s.sq, SQ.SenderStep))
  }

  function Run(es: seq<Event>): State {
    if es == [] then State({}, {}, SQ.Init()) else Next(Run(es[..|es| - 1]), es[|es| - 1])
  }

  /** Any other fan-out shares the queue, and on a full queue pushes out the oldest broadcast. */
  lemma OtherTasksShareTheQueue(s: State)
    requires SQ.LockFree(s.sq)
    ensures
      var t := Next(s, OtherTask);
      && t.players == s.players && t.minis == s.minis
      && t.sq.hist.enqueued == s.sq.hist.enqueued + [Other]
      && t.sq.q == (if |s.sq.q| >= 4096 then s.sq.q[1..] else s.sq.q) + [Other]
  {
  }

  // ---- Alternation --------------------------------------------------------------

  predicate About(t: Task, pid: PeerId) { !t.Other? && t.pid == pid }

  /** The broadcasts about one peer, in order. */
  function BroadcastsAbout(tasks: seq<Task>, pid: PeerId): seq<Task> {
    if tasks == [] then []
    else
      var n := |tasks| - 1;
      BroadcastsAbout(tasks[..n], pid) + (if About(tasks[n], pid) then [tasks[n]] else [])
  }

  ghost predicate Alternates(b: seq<Task>, pid: PeerId) {
    forall i :: 0 <= i < |b| ==> b[i] == if i % 2 == 0 then Online(pid) else Offline(pid)
  }

  ghost predicate Consistent(s: State, pid: PeerId) {
    var b := BroadcastsAbout(s.sq.hist.enqueued, pid);
    && Alternates(b, pid)
    && (pid in s.players <==> |b| % 2 == 1)
  }

  lemma SnocAbout(tasks: seq<Task>, t: Task, pid: PeerId)
    ensures BroadcastsAbout(tasks + [t], pid) == BroadcastsAbout(tasks, pid) + (if About(t, pid) then [t] else [])
  {
    assert (tasks + [t])[..|tasks|] == tasks;
  }

  lemma AlternatesSnoc(b: seq<Task>, t: Task, pid: PeerId)
    requires Alternates(b, pid) && t == (if |b| % 2 == 0 then Online(pid) else Offline(pid))
    ensures Alternates(b + [t], pid)
  {
  }

  lemma PushKeepsConsistent(s: State, t: Task, players: set<PeerId>, minis: set<PeerId>, pid: PeerId)
    requires Consistent(s, pid)
    requires About(t, pid) ==> t == (if pid in s.players then Offline(pid) else Online(pid))
    requires pid in players <==> (if About(t, pid) then pid !in s.players else pid in s.players)
    ensures Consistent(Push(s.(players := players, minis := minis), t), pid)
  {
    SnocAbout(s.sq.hist.enqueued, t, pid);
    var b := BroadcastsAbout(s.sq.hist.enqueued, pid);
    if About(t, pid) {
      AlternatesSnoc(b, t, pid);
    } else {
      assert b + [] == b;
    }
  }

  lemma NextKeepsConsistent(s: State, e: Event, pid: PeerId)
    requires Consistent(s, pid) && pid != ""
    ensures Consistent(Next(s, e), pid)
  {
    match e
    case Announce(p) =>
      if SQ.LockFree(s.sq) && p !in s.players {
        PushKeepsConsistent(s, Online(p), s.players + {p}, s.minis, pid);
      }
    case MiniHello(p) =>
    case Disconnect(p) =>
      if SQ.LockFree(s.sq) && p !in s.minis && p in s.players && p != "" {
        PushKeepsConsistent(s, Offline(p), s.players - {p}, s.minis - {p}, pid);
      }
    case OtherTask =>
      if SQ.LockFree(s.sq) {
        PushKeepsConsistent(s, Other, s.players, s.minis, pid);
      }
    case Stop =>
    case SenderStep =>
  }

  /** For every nonempty peer id the broadcasts enqueued strictly alternate, starting with online, and the peer
      is a registered player exactly when the last of them is online. */
  lemma {:induction false} OnlineOfflineAlternate(es: seq<Event>, pid: PeerId)
    requires pid != ""
    ensures Consistent(Run(es), pid)
  {
    if es != [] {
      OnlineOfflineAlternate(es[..|es| - 1], pid);
      NextKeepsConsistent(Run(es[..|es| - 1]), es[|es| - 1], pid);
    }
  }

  // ---- Through the queue ------------------------------------------------------------

  predicate EndsWith(b: seq<Task>, t: Task) { b != [] && b[|b| - 1] == t }

  /** The last broadcast executed about a peer, from the tasks the sender ran. */
  lemma {:induction false} LastTakenAbout(tasks: seq<Task>, fates: seq<SQ.Fate>, pid: PeerId, i: nat)
    requires |tasks| == |fates| && i < |tasks|
    requires About(tasks[i], pid) && fates[i].Taken?
    requires forall j :: i < j < |tasks| ==> !About(tasks[j], pid)
    ensures EndsWith(BroadcastsAbout(SQ.TakenOf(tasks, fates), pid), tasks[i])
    decreases |tasks|
  {
    var n := |tasks| - 1;
    var before := SQ.TakenOf(tasks[..n], fates[..n]);
    if fates[n].Taken? {
      assert SQ.TakenOf(tasks, fates) == before + [tasks[n]];
      SnocAbout(before, tasks[n], pid);
    } else {
      assert SQ.TakenOf(tasks, fates) == before;
    }
    if i < n {
      assert !About(tasks[n], pid);
      LastTakenAbout(tasks[..n], fates[..n], pid, i);
      assert BroadcastsAbout(SQ.TakenOf(tasks, fates), pid) == BroadcastsAbout(before, pid);
    }
  }

  /** The broadcast at the last position about a peer is the last broadcast about it. */
  lemma {:induction false} LastAbout(tasks: seq<Task>, pid: PeerId, i: nat)
    requires i < |tasks| && About(tasks[i], pid)
    requires forall j :: i < j < |tasks| ==> !About(tasks[j], pid)
    ensures EndsWith(BroadcastsAbout(tasks, pid), tasks[i])
    decreases |tasks|
  {
    var n := |tasks| - 1;
    if i < n {
      assert !About(tasks[n], pid);
      LastAbout(tasks[..n], pid, i);
    }
  }

  /** The sender's side of a run is a run of the queue. */
  lemma {:induction false} QueueKeepsInv(es: seq<Event>)
    ensures SQ.Inv(Run(es).sq)
  {
    if es != [] {
      QueueKeepsInv(es[..|es| - 1]);
      StepKeepsQueueInv(Run(es[..|es| - 1]), es[|es| - 1]);
    }
  }

  lemma StepKeepsQueueInv(s: State, e: Event)
    requires SQ.Inv(s.sq)
    ensures SQ.Inv(Next(s, e).sq)
  {
    match e
    case Announce(p) => if SQ.LockFree(s.sq) { SQ.EnqueueKeepsInv(s.sq, Online(p)); }
    case MiniHello(p) =>
    case Disconnect(p) => if SQ.LockFree(s.sq) { SQ.EnqueueKeepsInv(s.sq, Offline(p)); }
    case OtherTask => if SQ.LockFree(s.sq) { SQ.EnqueueKeepsInv(s.sq, Other); }
    case Stop => SQ.NextKeepsInv(s.sq, SQ.Stop);
    case SenderStep => SQ.NextKeepsInv(s.sq, SQ.SenderStep);
  }

  /** Once the sender has caught up, the last thing it broadcast about a player is the truth, provided that
      player's last event is among the 4096 newest tasks: older events may be lost, never reordered. */
  lemma DrainedViewIsRight(es: seq<Event>, pid: PeerId, i: nat)
    requires pid != "" && Run(es).sq.q == [] && !Run(es).sq.pc.Busy?
    requires i < |Run(es).sq.hist.enqueued| <= i + SQ.MAX_SEND_QUEUE
    requires About(Run(es).sq.hist.enqueued[i], pid)
    requires forall j :: i < j < |Run(es).sq.hist.enqueued| ==> !About(Run(es).sq.hist.enqueued[j], pid)
    ensures
      EndsWith(BroadcastsAbout(Run(es).sq.hist.ran, pid), if pid in Run(es).players then Online(pid) else Offline(pid))
  {
    OnlineOfflineAlternate(es, pid);
    AllRan(es, i);
    var h := Run(es).sq.hist;
    LastRanAbout(h.enqueued, h.left, h.ran, pid, i);
    LastAbout(h.enqueued, pid, i);
    LastOfAlternating(BroadcastsAbout(h.enqueued, pid), pid);
  }

  /** Once the sender has caught up every task is gone, and the newest 4096 were all run. */
  lemma AllRan(es: seq<Event>, i: nat)
    requires Run(es).sq.q == [] && !Run(es).sq.pc.Busy?
    requires i < |Run(es).sq.hist.enqueued| <= i + SQ.MAX_SEND_QUEUE
    ensures
      var h := Run(es).sq.hist;
      |h.enqueued| == |h.left| && SQ.TakenOf(h.enqueued, h.left) == h.ran && h.left[i].Taken?
  {
    QueueKeepsInv(es);
    var h := Run(es).sq.hist;
    assert h.enqueued[..|h.left|] == h.enqueued && h.ran + [] == h.ran;
  }

  function OnlySender(n: nat): (es: seq<Event>)
    ensures |es| == n
  {
    if n == 0 then [] else OnlySender(n - 1) + [SenderStep]
  }

  /** Left to itself the sender does what the queue alone would do, and the registries stay. */
  lemma {:induction false} AloneIsRun(es: seq<Event>, n: nat)
    ensures Run(es + OnlySender(n)) == Run(es).(sq := SQ.Alone(Run(es).sq, n))
  {
    if n == 0 {
      assert es + [] == es;
    } else {
      AloneIsRun(es, n - 1);
      SQ.AloneThen(Run(es).sq, n - 1, 1);
      SQ.OneStepAlone(SQ.Alone(Run(es).sq, n - 1));
      RunSnoc(es + OnlySender(n - 1), SenderStep);
      assert es + OnlySender(n) == es + OnlySender(n - 1) + [SenderStep];
    }
  }

  lemma RunSnoc(es: seq<Event>, e: Event)
    ensures Run(es + [e]) == Next(Run(es), e)
  {
    assert (es + [e])[..|es|] == es;
  }

  lemma {:induction false} AloneEnqueuesNothing(s: SQ.State<Task>, n: nat)
    ensures SQ.Alone(s, n).hist.enqueued == s.hist.enqueued
    decreases n
  {
    if n > 0 {
      AloneEnqueuesNothing(SQ.AfterSenderStep(s), n - 1);
    }
  }

  lemma StartedOrRunning(s: SQ.State<Task>)
    requires SQ.Inv(s) && SQ.AtWork(s) && SQ.Owed(s) != []
    ensures !s.pc.Exited? && (s.pc.NotStarted? || s.pc.Top? ==> s.running)
  {
  }

  /** How long the sender needs to run everything it owes. */
  function StepsToCatchUp(s: SQ.State<Task>): nat { if SQ.Owed(s) == [] then 0 else SQ.Lead(s) + 2 * |s.q| }

  /** The mesh learns the truth: from every reachable state with the sender at work, and by its own steps alone, at
      most three and two for each queued task, the last thing broadcast about a player comes to be right, provided
      that player's last event is among the 4096 newest tasks. Older events may be lost, never reordered. */
  lemma CaughtUpViewIsRight(es: seq<Event>, pid: PeerId, i: nat)
    requires pid != "" && SQ.AtWork(Run(es).sq)
    requires i < |Run(es).sq.hist.enqueued| <= i + SQ.MAX_SEND_QUEUE
    requires About(Run(es).sq.hist.enqueued[i], pid)
    requires forall j :: i < j < |Run(es).sq.hist.enqueued| ==> !About(Run(es).sq.hist.enqueued[j], pid)
    ensures
      var n := StepsToCatchUp(Run(es).sq);
      var t := Run(es + OnlySender(n));
      && n <= 3 + 2 * |Run(es).sq.q|
      && (pid in t.players <==> pid in Run(es).players)
      && EndsWith(BroadcastsAbout(t.sq.hist.ran, pid), if pid in Run(es).players then Online(pid) else Offline(pid))
  {
    var n := StepsToCatchUp(Run(es).sq);
    QueueKeepsInv(es);
    if SQ.Owed(Run(es).sq) != [] {
      StartedOrRunning(Run(es).sq);
      SQ.DrainsAlone(Run(es).sq, n);
    }
    AloneIsRun(es, n);
    AloneEnqueuesNothing(Run(es).sq, n);
    DrainedViewIsRight(es + OnlySender(n), pid, i);
  }

  lemma LastRanAbout(tasks: seq<Task>, fates: seq<SQ.Fate>, ran: seq<Task>, pid: PeerId, i: nat)
    requires |tasks| == |fates| && SQ.TakenOf(tasks, fates) == ran
    requires i < |tasks| && About(tasks[i], pid) && fates[i].Taken?
    requires forall j :: i < j < |tasks| ==> !About(tasks[j], pid)
    ensures EndsWith(BroadcastsAbout(ran, pid), tasks[i])
  {
    LastTakenAbout(tasks, fates, pid, i);
  }

  lemma LastOfAlternating(b: seq<Task>, pid: PeerId)
    requires b != [] && Alternates(b, pid)
    ensures b[|b| - 1] == if |b| % 2 == 1 then Online(pid) else Offline(pid)
  {
  }

  // ---- A player that is also a mini-node ----------------------------------------------

  /** A peer is still listed as a player after its disconnect if and only if it was listed and had also
      registered as a mini-node. */
  lemma StaleAfterDisconnectIff(s: State, pid: PeerId)
    requires SQ.LockFree(s.sq)
    ensures pid in Next(s, Disconnect(pid)).players <==> pid in s.players && pid in s.minis
    ensures pid in s.players && pid in s.minis ==> Next(s, Disconnect(pid)).sq == s.sq
  {
  }

  /** The peer sent mini.hello since its last disconnect. */
  predicate SaidHello(es: seq<Event>, pid: PeerId) {
    es != [] &&
      var p, e := es[..|es| - 1], es[|es| - 1];
      if e == MiniHello(pid) then true
      else SaidHello(p, pid) && !(e == Disconnect(pid) && SQ.LockFree(Run(p).sq))
  }

  /** The step is handled, not waiting for the sender's lock. */
  ghost predicate HandledAt(es: seq<Event>, i: nat, e: Event) { i < |es| && es[i] == e && SQ.LockFree(Run(es[..i]).sq) }

  /** Announced at step i, and every disconnect since then came from a peer that was a mini-node too. */
  ghost predicate AnnouncedFrom(es: seq<Event>, i: nat, pid: PeerId) {
    HandledAt(es, i, Announce(pid)) && forall k :: i < k && HandledAt(es, k, Disconnect(pid)) ==> SaidHello(es[..k], pid)
  }

  lemma {:induction false} MinisSaidHello(es: seq<Event>, pid: PeerId)
    ensures pid in Run(es).minis <==> SaidHello(es, pid)
  {
    if es != [] {
      MinisSaidHello(es[..|es| - 1], pid);
    }
  }

  lemma HandledSnoc(es: seq<Event>, e: Event, i: nat, x: Event)
    ensures i < |es| ==> (HandledAt(es + [e], i, x) <==> HandledAt(es, i, x))
    ensures i <= |es| ==> (es + [e])[..i] == es[..i]
  {
    if i <= |es| {
      assert (es + [e])[..i] == es[..i];
    }
  }

  lemma AnnouncedSnoc(es: seq<Event>, e: Event, i: nat, pid: PeerId)
    requires i < |es|
    ensures AnnouncedFrom(es + [e], i, pid) <==>
              AnnouncedFrom(es, i, pid) && (HandledAt(es + [e], |es|, Disconnect(pid)) ==> SaidHello(es, pid))
  {
    HandledSnoc(es, e, i, Announce(pid));
    forall k: nat
      ensures k < |es| ==> (HandledAt(es + [e], k, Disconnect(pid)) <==> HandledAt(es, k, Disconnect(pid)))
      ensures k <= |es| ==> (es + [e])[..k] == es[..k]
    {
      HandledSnoc(es, e, k, Disconnect(pid));
    }
    assert es[..|es|] == es;
  }

  /** In every reachable state a peer is listed as a player if and only if it once announced itself and every
      disconnect since found that it had sent mini.hello after the disconnect before: a peer that announces and
      says mini.hello outlives its own disconnect, one that only announces never does. */
  lemma {:induction false} ListedIff(es: seq<Event>, pid: PeerId)
    ensures pid in Run(es).players <==> exists i :: AnnouncedFrom(es, i, pid)
  {
    if es != [] {
      var n := |es| - 1;
      var p, e := es[..n], es[n];
      assert es == p + [e] && es[..n] == p;
      ListedIff(p, pid);
      MinisSaidHello(p, pid);
      if pid in Run(es).players {
        if HandledAt(es, n, Announce(pid)) {
          assert AnnouncedFrom(es, n, pid);
        } else {
          var i: nat :| AnnouncedFrom(p, i, pid);
          AnnouncedSnoc(p, e, i, pid);
        }
      }
      if i: nat :| AnnouncedFrom(es, i, pid) {
        if i < n {
          AnnouncedSnoc(p, e, i, pid);
        }
      }
    }
  }

  /** Such a peer is gone, still counted online, and its next announce is not broadcast. */
  lemma GhostPlayer(pid: PeerId, es: seq<Event>)
    requires pid != "" && es == [Announce(pid), MiniHello(pid), Disconnect(pid), Announce(pid)]
    ensures pid in Run(es[..3]).players && Run(es).sq.hist.enqueued == [Online(pid)]
  {
    assert es[..3][..2] == [Announce(pid), MiniHello(pid)];
    assert es[..3][..2][..1] == [Announce(pid)];
    assert es[..3][..2][..1][..0] == [];
    assert Run(es[..3][..2][..1]) == AfterAnnounce(State({}, {}, SQ.Init()), pid);
    assert Run(es[..3]).players == {pid};
  }

  // ---- The registries, updated in place -------------------------------------------------

  class Registry {
    var players: set<PeerId>      // keys of g_players
    var minis: set<PeerId>        // g_mininode_peers
    const sender: SQ.Sender<Task>

    ghost function View(): State
      reads this, sender
    {
      State(players, minis, sender.View())
    }

    constructor ()
      ensures View() == Run([]) && fresh(sender)
    {
      players, minis := {}, {};
      sender := new SQ.Sender();
    }

    method OnAnnounce(pid: PeerId)
      requires SQ.LockFree(sender.View())
      modifies this, sender
      ensures View() == Next(old(View()), Announce(pid))
    {
      var firstSeen := pid !in players;
      players := players + {pid};
      if firstSeen {
        sender.EnqueueSendTask(Online(pid));
      }
    }

    method OnPeerDisconnected(pid: PeerId)
      requires SQ.LockFree(sender.View())
      modifies this, sender
      ensures View() == Next(old(View()), Disconnect(pid))
    {
      var wasMininode := pid in minis;
      minis := minis - {pid};
      var wasPlayer := false;
      if !wasMininode {
        wasPlayer := pid in players;
        players := players - {pid};
      }
      if pid != "" && wasPlayer {
        sender.EnqueueSendTask(Offline(pid));
      }
    }
  }
}
