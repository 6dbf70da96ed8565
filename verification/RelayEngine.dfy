/** The relay handlers as the node runs them: one object whose table is updated in place.
    Every method is one atomic step of the protocol in PendingRelays. */
module RelayEngine {
  import opened Bytes
  import opened PendingRelays

  class RelayEngine {
    var pending: map<string, Entry>   // g_pending_relays
    var counter: UInt64               // the counter inside new_relay_req_id
    var io: Io                        // locals of the relay.forward handler
    var sweeper: Sweeper              // local clock reading of the sweeper
    var clock: nat                    // what mono_ms() reads
    ghost var hist: History

    ghost function View(): State
      reads this
    {
      State(pending, counter, io, sweeper, clock, hist)
    }

    constructor (seed: UInt64)
      ensures View() == Init(seed)
    {
      pending, counter, io, sweeper, clock := map[], seed, Idle, Sleeping, 0;
      hist := History(seed, 0, 0, map[]);
    }

    method NewRelayReqId() returns (id: string)
      requires Recorded(View())
      modifies this`counter, this`hist
      ensures View() == Next(old(View()), Mint)
      ensures id == RelayId(old(counter))
    {
      id := RelayId(counter);
      counter := if counter == U64_RANGE - 1 then 0 else counter + 1;
      hist := hist.(minted := hist.minted + 1);
    }

    method Forward(peer: PeerId, reqId: string, target: PeerId, verb: string)
      requires Recorded(View()) && io.Idle?
      modifies this
      ensures View() == Next(old(View()), PendingRelays.Forward(peer, reqId, target, verb))
    {
      if target == "" || verb == "" {
        return;  // answered invalid_relay, nothing is recorded
      }
      ghost var nth := hist.minted;
      var id := NewRelayReqId();
      var e := Entry(peer, reqId, clock, target);
      pending := pending[id := e];
      io := Sending(id, peer, reqId);
      hist := hist.(log := hist.log[id := Record(e, nth, Open, [], false)]);
    }

    method SendDone(ok: bool) returns (sent: seq<Answer>)
      requires Recorded(View()) && io.Sending?
      modifies this
      ensures View() == Next(old(View()), PendingRelays.SendDone(ok))
      ensures sent == if ok then [] else [DeadRoute(old(io).caller, old(io).reqId)]
    {
      sent := [];
      if !ok {
        sent := [DeadRoute(io.caller, io.reqId)];
        ghost var r := hist.log[io.id];
        hist := hist.(log := hist.log[io.id := if io.id in pending then r.Leave(SendFailed, sent)
                                               else r.Leave(r.fate, sent).(raced := true)]);
        pending := pending - {io.id};
      }
      io := Idle;
    }

    method OnRelayReply(sender: PeerId, replyId: string, body: string) returns (sent: seq<Answer>)
      requires Recorded(View()) && io.Idle?
      modifies this
      ensures View() == Next(old(View()), Reply(sender, replyId, body))
      ensures sent == if Claims(old(View()), sender, replyId)
                      then [Relayed(old(pending)[replyId].originator, old(pending)[replyId].origReq, sender, body)] else []
    {
      sent := [];
      if "chatmods-" <= replyId || "wlt-" <= replyId {
        return;
      }
      if replyId in pending {
        var rec := pending[replyId];
        if TargetMatches(rec.target, sender) {
          pending := pending - {replyId};
          sent := [Relayed(rec.originator, rec.origReq, sender, body)];
          hist := hist.(log := hist.log[replyId := hist.log[replyId].Leave(Replied(body), sent)]);
        }
      }
    }

    /** The erase-while-iterating loop of on_peer_disconnected, in whatever order the hash map yields. */
    method OnDisconnect(gone: PeerId)
      requires Recorded(View()) && io.Idle?
      modifies this`pending, this`hist
      ensures View() == Next(old(View()), Disconnect(gone))
    {
      if gone == "" {
        return;
      }
      ghost var was, log := pending, hist.log;
      var todo := pending.Keys;
      while todo != {}
        invariant todo <= was.Keys
        invariant pending == map id | id in was && (id in todo || was[id].originator != gone) :: was[id]
        invariant hist == old(hist).(log := map id | id in log ::
            if id in OwnedBy(was, gone) - todo then log[id].Leave(Purged, []) else log[id])
        decreases todo
      {
        var id :| id in todo;
        if pending[id].originator == gone {
          pending := pending - {id};
          hist := hist.(log := hist.log[id := hist.log[id].Leave(Purged, [])]);
        }
        todo := todo - {id};
      }
      assert pending == was - OwnedBy(was, gone);
      assert OwnedBy(was, gone) - {} == OwnedBy(was, gone);
    }

    method SweepWake()
      requires Recorded(View()) && sweeper.Sleeping?
      modifies this`sweeper
      ensures View() == Next(old(View()), PendingRelays.SweepWake)
    {
      sweeper := Woken(clock);
    }

    /** The locked half of pending_sweep_loop: collect and erase the stale entries, each once. */
    method CollectStale(now: nat) returns (expired: seq<Entry>, ghost ids: seq<string>)
      requires Recorded(View())
      modifies this`pending, this`hist
      ensures pending == old(pending) - StaleIds(old(pending), now)
      ensures hist == old(hist).(log := map id | id in old(hist).log ::
                if id in StaleIds(old(pending), now) then old(hist).log[id].Leave(Expired, Timeout(old(pending)[id]))
                else old(hist).log[id])
      ensures Enumerates(ids, StaleIds(old(pending), now)) && expired == EntriesOf(old(pending), ids)
    {
      ghost var was, log, stale := pending, hist.log, StaleIds(pending, now);
      var todo := pending.Keys;
      expired, ids := [], [];
      while todo != {}
        invariant todo <= was.Keys
        invariant pending == map id | id in was && (id in todo || !Stale(was[id], now)) :: was[id]
        invariant Enumerates(ids, stale - todo) && expired == EntriesOf(was, ids)
        invariant hist == old(hist).(log := map id | id in log ::
            if id in stale - todo then log[id].Leave(Expired, Timeout(was[id])) else log[id])
        decreases todo
      {
        var id :| id in todo;
        if Stale(pending[id], now) {
          assert stale - (todo - {id}) == (stale - todo) + {id};
          EnumerateOneMore(was, ids, stale - todo, id);
          expired, ids := expired + [pending[id]], ids + [id];
          hist := hist.(log := hist.log[id := hist.log[id].Leave(Expired, Timeout(pending[id]))]);
          pending := pending - {id};
        } else {
          assert stale - (todo - {id}) == stale - todo;
        }
        todo := todo - {id};
      }
      assert pending == was - stale;
      assert stale - {} == stale;
    }

    /** One pass of pending_sweep_loop: collect under the lock, then send relay_timeout to each originator, as many
        of each as there are stale entries that owe it. */
    method SweepRun() returns (sent: seq<Answer>)
      requires Recorded(View()) && sweeper.Woken?
      modifies this`pending, this`sweeper, this`hist
      ensures View() == Next(old(View()), PendingRelays.SweepRun)
      ensures forall a :: multiset(sent)[a] == |Owing(old(pending), StaleIds(old(pending), old(sweeper.at)), a)|
    {
      ghost var was, stale := pending, StaleIds(pending, sweeper.at);
      var expired, ids := CollectStale(sweeper.at);
      hist := hist.(lastSweep := sweeper.at);
      sweeper := Sleeping;
      sent := SendTimeouts(expired);
      forall a
        ensures multiset(sent)[a] == |Owing(was, stale, a)|
      {
        OneTimeoutEach(was, ids, stale, a);
      }
    }

    method SendTimeouts(expired: seq<Entry>) returns (sent: seq<Answer>)
      ensures sent == TimeoutsFor(expired)
    {
      sent := [];
      for i := 0 to |expired|
        invariant sent == TimeoutsFor(expired[..i])
      {
        assert expired[..i + 1][..i] == expired[..i];
        if expired[i].originator != "" {
          sent := sent + [TimedOut(expired[i].originator, expired[i].origReq)];
        }
      }
      assert expired[..|expired|] == expired;
    }
  }

  // ---- What a sweep sends ------------------------------------------------------

  /** `ids` lists the set, each element once. */
  ghost predicate Enumerates(ids: seq<string>, all: set<string>) {
    (forall id :: id in ids <==> id in all) && forall i, j :: 0 <= i < j < |ids| ==> ids[i] != ids[j]
  }

  ghost function EntriesOf(was: map<string, Entry>, ids: seq<string>): (es: seq<Entry>)
    requires forall id :: id in ids ==> id in was
    ensures |es| == |ids|
  {
    seq(|ids|, i requires 0 <= i < |ids| => was[ids[i]])
  }

  lemma EnumerateOneMore(was: map<string, Entry>, ids: seq<string>, all: set<string>, id: string)
    requires Enumerates(ids, all) && all <= was.Keys && id in was && id !in all
    ensures Enumerates(ids + [id], all + {id})
    ensures EntriesOf(was, ids + [id]) == EntriesOf(was, ids) + [was[id]]
  {
  }

  /** The timeouts due for a list of entries, in its order. */
  function TimeoutsFor(expired: seq<Entry>): seq<Answer> {
    if expired == [] then [] else TimeoutsFor(expired[..|expired| - 1]) + Timeout(expired[|expired| - 1])
  }

  /** The entries among `ids` for which this very answer is due. */
  function Owing(was: map<string, Entry>, ids: set<string>, a: Answer): set<string> {
    set id | id in ids && id in was && [a] == Timeout(was[id])
  }

  lemma EnumerateOneLess(ids: seq<string>, all: set<string>)
    requires Enumerates(ids, all) && ids != []
    ensures ids[|ids| - 1] in all && Enumerates(ids[..|ids| - 1], all - {ids[|ids| - 1]})
  {
    var n := |ids| - 1;
    assert ids[n] in ids;
    forall x | x in all - {ids[n]}
      ensures x in ids[..n]
    {
      var i :| 0 <= i < |ids| && ids[i] == x;
      assert ids[..n][i] == x;
    }
    forall x | x in ids[..n]
      ensures x in all - {ids[n]}
    {
      var i :| 0 <= i < n && ids[..n][i] == x;
      assert ids[i] in ids;
    }
  }

  lemma OwingSplit(was: map<string, Entry>, all: set<string>, id: string, a: Answer)
    requires id in all && id in was
    ensures |Owing(was, all, a)| == |Owing(was, all - {id}, a)| + multiset(Timeout(was[id]))[a]
  {
    if [a] == Timeout(was[id]) {
      assert Owing(was, all, a) == Owing(was, all - {id}, a) + {id};
      assert multiset([a])[a] == 1;
    } else {
      assert Owing(was, all, a) == Owing(was, all - {id}, a);
      assert a !in Timeout(was[id]);
    }
  }

  lemma {:induction false} OneTimeoutEach(was: map<string, Entry>, ids: seq<string>, all: set<string>, a: Answer)
    requires Enumerates(ids, all) && all <= was.Keys
    ensures multiset(TimeoutsFor(EntriesOf(was, ids)))[a] == |Owing(was, all, a)|
  {
    var es := EntriesOf(was, ids);
    if ids == [] {
      assert Owing(was, all, a) == {};
    } else {
      var n := |ids| - 1;
      EnumerateOneLess(ids, all);
      OneTimeoutEach(was, ids[..n], all - {ids[n]}, a);
      OwingSplit(was, all, ids[n], a);
      assert es[..n] == EntriesOf(was, ids[..n]);
      assert TimeoutsFor(es) == TimeoutsFor(es[..n]) + Timeout(was[ids[n]]);
    }
  }
}
