/** The reachability-probe cap: a shared counter taken with fetch_add before the test and given back with
    fetch_sub, by any number of concurrent callers. */
module ProbeSlots {

  const MAX_PROBES: int := 8

  type Caller = nat

  /** `probing` are the callers whose probe runs, `refused` those between a failed test and their fetch_sub. */
  datatype State = State(active: int, probing: set<Caller>, refused: set<Caller>)

  datatype Event = Attempt(who: Caller) | GiveBack(who: Caller) | Finish(who: Caller)

  /** Each atomic operation on g_active_probes is one step. */
  function Next(s: State, e: Event): State {
    match e
    case Attempt(c) =>
      if c in s.probing + s.refused then s
      else if s.active >= MAX_PROBES then s.(active := s.active + 1, refused := s.refused + {c})
      else s.(active := s.active + 1, probing := s.probing + {c})
    case GiveBack(c) =>
      if c in s.refused then s.(active := s.active - 1, refused := s.refused - {c}) else s
    case Finish(c) =>
      if c in s.probing then s.(active := s.active - 1, probing := s.probing - {c}) else s
  }

  function Run(es: seq<Event>): State {
    if es == [] then State(0, {}, {}) else Next(Run(es[..|es| - 1]), es[|es| - 1])
  }

  ghost predicate Inv(s: State) {
    s.probing !! s.refused && s.active == |s.probing| + |s.refused| && |s.probing| <= MAX_PROBES
  }

  lemma NextKeepsInv(s: State, e: Event)
    requires Inv(s)
    ensures Inv(Next(s, e))
  {
    match e
    case Attempt(c) => assert |s.probing + {c}| <= |s.probing| + 1;
    case GiveBack(c) => assert c in s.refused ==> |s.refused - {c}| == |s.refused| - 1;
    case Finish(c) => assert c in s.probing ==> |s.probing - {c}| == |s.probing| - 1;
  }

  /** At most 8 probes run at once, although the counter itself may pass 8: it always equals the running probes
      plus the callers about to give their count back. */
  lemma {:induction false} AtMostEightProbes(es: seq<Event>)
    ensures Run(es).probing !! Run(es).refused
    ensures Run(es).active == |Run(es).probing| + |Run(es).refused|
    ensures |Run(es).probing| <= MAX_PROBES
    ensures Run(es).probing == Run(es).refused == {} ==> Run(es).active == 0
  {
    if es != [] {
      AtMostEightProbes(es[..|es| - 1]);
      NextKeepsInv(Run(es[..|es| - 1]), es[|es| - 1]);
    }
  }

  /** A probe is refused only while 8 counts are held, and not all of them need be probes. */
  lemma RefusedOnlyWhenFull(es: seq<Event>, c: Caller)
    requires c !in Run(es).probing + Run(es).refused
    ensures c in Next(Run(es), Attempt(c)).refused <==> |Run(es).probing| + |Run(es).refused| >= MAX_PROBES
  {
    AtMostEightProbes(es);
  }

  /** Otherwise it starts, and either way the counter has gone up by one. */
  lemma StartedWhenFree(es: seq<Event>, c: Caller)
    requires c !in Run(es).probing + Run(es).refused
    ensures c in Next(Run(es), Attempt(c)).probing <==> |Run(es).probing| + |Run(es).refused| < 8
    ensures Next(Run(es), Attempt(c)).active == Run(es).active + 1
  {
    AtMostEightProbes(es);
  }

  /** A finished probe frees its slot, and a refused caller gives back what it took: the next caller finds one more
      slot free. */
  lemma FinishFreesSlot(es: seq<Event>, c: Caller, next: Caller)
    requires c in Run(es).probing + Run(es).refused && next !in Run(es).probing + Run(es).refused
    ensures
      var s := Run(es);
      var t := Next(s, if c in s.probing then Finish(c) else GiveBack(c));
      && t.probing == s.probing - {c} && t.refused == s.refused - {c} && t.active == s.active - 1
      && (next in Next(t, Attempt(next)).probing <==> |s.probing| + |s.refused| <= 8)
  {
    AtMostEightProbes(es);
  }

  function Attempts(n: nat): seq<Event> {
    if n == 0 then [] else Attempts(n - 1) + [Attempt(n - 1)]
  }

  /** The counter has no bound of its own: n callers at once push it to n. */
  lemma {:induction false} CounterFollowsCallers(n: nat)
    ensures Run(Attempts(n)).active == n
    ensures forall c :: c in Run(Attempts(n)).probing + Run(Attempts(n)).refused ==> c < n
  {
    if n > 0 {
      CounterFollowsCallers(n - 1);
      var es := Attempts(n);
      assert es[..|es| - 1] == Attempts(n - 1);
    }
  }

  /** g_active_probes and its three atomic operations. */
  class ProbeCounter {
    var active: int
    ghost var probing: set<Caller>
    ghost var refused: set<Caller>

    ghost function View(): State
      reads this
    {
      State(active, probing, refused)
    }

    constructor ()
      ensures View() == Run([])
    {
      active, probing, refused := 0, {}, {};
    }

    /** fetch_add, then the test on the value it returned. */
    method TryAcquire(ghost who: Caller) returns (granted: bool)
      requires who !in probing + refused
      modifies this
      ensures View() == Next(old(View()), Attempt(who))
      ensures granted <==> who in probing
    {
      var before := active;
      active := active + 1;
      granted := !(before >= MAX_PROBES);
      if granted {
        probing := probing + {who};
      } else {
        refused := refused + {who};
      }
    }

    /** The fetch_sub on the refused path. */
    method Withdraw(ghost who: Caller)
      requires who in refused
      modifies this
      ensures View() == Next(old(View()), GiveBack(who))
    {
      active := active - 1;
      refused := refused - {who};
    }

    /** The fetch_sub of the slot guard, on every exit path of a probe. */
    method Release(ghost who: Caller)
      requires who in probing
      modifies this
      ensures View() == Next(old(View()), Finish(who))
    {
      active := active - 1;
      probing := probing - {who};
    }
  }
}
