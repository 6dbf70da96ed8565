/** route_gossip_should_forward: the time-windowed dedup that ends an epidemic flood. It reads the wall clock
    and subtracts in 64 bits. */
module GossipDedup {
  import opened Bytes
  import opened Options

  type Hash = UInt64

  const DEDUP_MS: nat := 300_000
  const SEEN_CAP: nat := 8192

  datatype Call = Call(hash: Hash, now: UInt64)

  type Seen = map<Hash, UInt64>

  function Age(now: UInt64, at: UInt64): UInt64 { (now - at) % U64_RANGE }

  predicate Forwards(seen: Seen, c: Call) {
    !(c.hash in seen && Age(c.now, seen[c.hash]) < DEDUP_MS)
  }

  /** Above the cap every entry that is out of the window goes; those inside it stay, however many. */
  function Pruned(seen: Seen, now: UInt64): Seen {
    if |seen| > SEEN_CAP then map h | h in seen && Age(now, seen[h]) < DEDUP_MS :: seen[h] else seen
  }

  function After(seen: Seen, c: Call): Seen {
    if Forwards(seen, c) then Pruned(seen, c.now)[c.hash := c.now] else seen
  }

  function SeenAfter(calls: seq<Call>): Seen {
    if calls == [] then map[] else After(SeenAfter(calls[..|calls| - 1]), calls[|calls| - 1])
  }

  /** The answer given to the i-th call. */
  predicate Forwarded(calls: seq<Call>, i: nat)
    requires i < |calls|
  {
    Forwards(SeenAfter(calls[..i]), calls[i])
  }

  ghost predicate Ordered(calls: seq<Call>) {
    forall i, j :: 0 <= i <= j < |calls| ==> calls[i].now <= calls[j].now
  }

  // ---- The unpruned history ---------------------------------------------------------

  /** When the body was last forwarded, from the whole history. */
  function LastForward(calls: seq<Call>, h: Hash): Option<UInt64> {
    if calls == [] then None
    else
      var n := |calls| - 1;
      if calls[n].hash == h && Forwarded(calls, n) then Some(calls[n].now) else LastForward(calls[..n], h)
  }

  ghost predicate Tracks(seen: Seen, last: Option<UInt64>, h: Hash, now: UInt64) {
    match last
    case None => h !in seen
    case Some(t) => t <= now && (if h in seen then seen[h] == t else now - t >= DEDUP_MS)
  }

  lemma {:induction false} SeenTracksHistory(calls: seq<Call>, h: Hash, now: UInt64)
    requires Ordered(calls) && (calls != [] ==> calls[|calls| - 1].now <= now)
    ensures Tracks(SeenAfter(calls), LastForward(calls, h), h, now)
  {
    if calls != [] {
      var n := |calls| - 1;
      SeenTracksHistory(calls[..n], h, calls[n].now);
      if calls[n].hash != h && Forwarded(calls, n) && LastForward(calls, h).Some? && h in SeenAfter(calls[..n]) {
        assert Age(calls[n].now, SeenAfter(calls[..n])[h]) == calls[n].now - LastForward(calls, h).value;
      }
    }
  }

  /** Pruning never changes a decision: a call is answered from the window since the last forward of that
      body in the complete history. */
  lemma DecidesFromHistory(calls: seq<Call>, i: nat)
    requires Ordered(calls) && i < |calls|
    ensures
      var last := LastForward(calls[..i], calls[i].hash);
      Forwarded(calls, i) <==> (last.None? || calls[i].now - last.value >= DEDUP_MS)
  {
    SeenTracksHistory(calls[..i], calls[i].hash, calls[i].now);
    var seen := SeenAfter(calls[..i]);
    if calls[i].hash in seen {
      assert Age(calls[i].now, seen[calls[i].hash]) == calls[i].now - seen[calls[i].hash];
    }
  }

  /** What the map holds was forwarded at some time. */
  lemma {:induction false} SeenWasForwarded(calls: seq<Call>, h: Hash)
    requires h in SeenAfter(calls)
    ensures ForwardCount(calls, h) > 0
  {
    var n := |calls| - 1;
    if !(calls[n].hash == h && Forwarded(calls, n)) {
      SeenWasForwarded(calls[..n], h);
    }
  }

  // ---- At most once a window -----------------------------------------------------------

  function ForwardCount(calls: seq<Call>, h: Hash): nat {
    if calls == [] then 0
    else
      var n := |calls| - 1;
      ForwardCount(calls[..n], h) + (if calls[n].hash == h && Forwarded(calls, n) then 1 else 0)
  }

  lemma {:induction false} ForwardsAreSpaced(calls: seq<Call>, h: Hash)
    requires Ordered(calls) && ForwardCount(calls, h) > 0
    ensures LastForward(calls, h).Some?
    ensures LastForward(calls, h).value >= calls[0].now + (ForwardCount(calls, h) - 1) * DEDUP_MS
    ensures LastForward(calls, h).value <= calls[|calls| - 1].now
  {
    var n := |calls| - 1;
    if calls[n].hash == h && Forwarded(calls, n) {
      if ForwardCount(calls[..n], h) > 0 {
        ForwardsAreSpaced(calls[..n], h);
        DecidesFromHistory(calls, n);
      }
    } else {
      ForwardsAreSpaced(calls[..n], h);
    }
  }

  /** A node forwards one body at most once per 300000 ms of its clock. */
  lemma ForwardsPerWindow(calls: seq<Call>, h: Hash, span: nat)
    requires Ordered(calls) && calls != [] && calls[|calls| - 1].now <= calls[0].now + span
    ensures ForwardCount(calls, h) <= 1 + span / DEDUP_MS
  {
    if ForwardCount(calls, h) > 0 {
      ForwardsAreSpaced(calls, h);
    }
  }

  /** What the code decides on any clock, ordered or not: a repeat is suppressed if and only if its time lies
      in the window that starts at the recorded one. A wall clock that steps back reopens the flood. */
  lemma SuppressedIff(seen: Seen, c: Call)
    requires forall h :: h in seen ==> seen[h] + DEDUP_MS < U64_RANGE
    requires c.now + DEDUP_MS < U64_RANGE
    ensures !Forwards(seen, c) <==> c.hash in seen && seen[c.hash] <= c.now < seen[c.hash] + DEDUP_MS
  {
  }

  /** Two forwards of one body one millisecond of real time apart, after a backward clock step. */
  lemma BackwardStepForwardsTwice(h: Hash, t: UInt64, step: nat)
    requires 0 < step <= t && t + DEDUP_MS < U64_RANGE
    ensures ForwardCount([Call(h, t), Call(h, t - step)], h) == 2
  {
    var calls := [Call(h, t), Call(h, t - step)];
    assert calls[..1] == [Call(h, t)];
    assert [Call(h, t)][..0] == [];
    assert SeenAfter(calls[..1]) == map[h := t];
    SuppressedIff(map[h := t], calls[1]);
    assert Forwarded([Call(h, t)], 0);
    assert ForwardCount([Call(h, t)], h) == 1;
  }

  // ---- The cap -----------------------------------------------------------------------------

  function InWindow(seen: Seen, now: UInt64): set<Hash> {
    set h | h in seen && Age(now, seen[h]) < DEDUP_MS
  }

  /** One call leaves at most the cap or the bodies still in the window, and one more. */
  lemma SeenSize(seen: Seen, c: Call)
    requires Forwards(seen, c)
    ensures |After(seen, c)| <= 1 + (if |InWindow(seen, c.now)| > SEEN_CAP then |InWindow(seen, c.now)| else SEEN_CAP)
  {
    SizeAfterForward(seen, c);
  }

  /** The k-th call forwarded the body, and it did so within the window before `now`. */
  ghost predicate RecentAt(calls: seq<Call>, k: nat, h: Hash, now: UInt64) {
    k < |calls| && Forwarded(calls, k) && now - calls[k].now < DEDUP_MS && calls[k].hash == h
  }

  /** The bodies forwarded within the last window, told by the calls alone. */
  ghost function RecentBodies(calls: seq<Call>, now: UInt64): set<Hash> {
    set k | 0 <= k < |calls| && RecentAt(calls, k, calls[k].hash, now) :: calls[k].hash
  }

  lemma {:induction false} LastForwardIsLatest(calls: seq<Call>, k: nat)
    requires Ordered(calls) && k < |calls| && Forwarded(calls, k)
    ensures LastForward(calls, calls[k].hash).Some? && LastForward(calls, calls[k].hash).value >= calls[k].now
  {
    var n := |calls| - 1;
    if k < n && !(calls[n].hash == calls[k].hash && Forwarded(calls, n)) {
      assert calls[..n][..k] == calls[..k];
      LastForwardIsLatest(calls[..n], k);
    }
  }

  lemma {:induction false} LastForwardIsOne(calls: seq<Call>, h: Hash) returns (k: nat)
    requires LastForward(calls, h).Some?
    ensures k < |calls| && Forwarded(calls, k) && calls[k] == Call(h, LastForward(calls, h).value)
  {
    k := |calls| - 1;
    if !(calls[k].hash == h && Forwarded(calls, k)) {
      var n := k;
      k := LastForwardIsOne(calls[..n], h);
      assert calls[..n][..k] == calls[..k];
    }
  }

  lemma InWindowWasForwarded(calls: seq<Call>, h: Hash, now: UInt64) returns (k: nat)
    requires Ordered(calls) && (calls != [] ==> calls[|calls| - 1].now <= now)
    requires h in InWindow(SeenAfter(calls), now)
    ensures RecentAt(calls, k, h, now)
  {
    SeenTracksHistory(calls, h, now);
    k := LastForwardIsOne(calls, h);
    assert Age(now, SeenAfter(calls)[h]) == now - calls[k].now;
  }

  lemma RecentIsInWindow(calls: seq<Call>, k: nat, h: Hash, now: UInt64)
    requires Ordered(calls) && (calls != [] ==> calls[|calls| - 1].now <= now)
    requires RecentAt(calls, k, h, now)
    ensures h in InWindow(SeenAfter(calls), now)
  {
    LastForwardIsLatest(calls, k);
    SeenTracksHistory(calls, h, now);
    YoungIsInWindow(SeenAfter(calls), h, LastForward(calls, h).value, now);
  }

  lemma YoungIsInWindow(seen: Seen, h: Hash, at: UInt64, now: UInt64)
    requires Tracks(seen, Some(at), h, now) && now - at < DEDUP_MS
    ensures h in InWindow(seen, now)
  {
  }

  lemma InWindowIsRecent(calls: seq<Call>, now: UInt64)
    requires Ordered(calls) && (calls != [] ==> calls[|calls| - 1].now <= now)
    ensures InWindow(SeenAfter(calls), now) == RecentBodies(calls, now)
  {
    forall h | h in InWindow(SeenAfter(calls), now)
      ensures h in RecentBodies(calls, now)
    {
      var k := InWindowWasForwarded(calls, h, now);
    }
    forall h | h in RecentBodies(calls, now)
      ensures h in InWindow(SeenAfter(calls), now)
    {
      var k: nat :| RecentAt(calls, k, h, now);
      RecentIsInWindow(calls, k, h, now);
    }
  }

  /** On a non-decreasing clock a forward leaves more than the cap and its own entry behind if and only if more
      than 8192 bodies were forwarded within the window before it. */
  lemma CapExceededIff(calls: seq<Call>, c: Call)
    requires Ordered(calls + [c]) && Forwards(SeenAfter(calls), c)
    ensures |SeenAfter(calls + [c])| > SEEN_CAP + 1 <==> |RecentBodies(calls, c.now)| > SEEN_CAP
  {
    assert (calls + [c])[..|calls|] == calls;
    forall i, j | 0 <= i <= j < |calls|
      ensures calls[i].now <= calls[j].now
    {
      assert (calls + [c])[i].now <= (calls + [c])[j].now;
    }
    if calls != [] {
      assert (calls + [c])[|calls| - 1].now <= (calls + [c])[|calls|].now;
    }
    InWindowIsRecent(calls, c.now);
    SizeAfterForward(SeenAfter(calls), c);
  }

  lemma SizeAfterForward(seen: Seen, c: Call)
    requires Forwards(seen, c)
    ensures |seen| > SEEN_CAP ==> |After(seen, c)| == |InWindow(seen, c.now)| + 1
    ensures |seen| <= SEEN_CAP ==> |After(seen, c)| <= SEEN_CAP + 1 && |InWindow(seen, c.now)| <= SEEN_CAP
  {
    var p := Pruned(seen, c.now);
    assert After(seen, c) == p[c.hash := c.now];
    if |seen| > SEEN_CAP {
      assert p.Keys == InWindow(seen, c.now);
      SizeWithOneMore(p, c.hash, c.now);
    } else {
      SizeWithOneMore(seen, c.hash, c.now);
      SubsetIsSmaller(InWindow(seen, c.now), seen.Keys);
      assert |seen.Keys| == |seen|;
    }
  }

  lemma SizeWithOneMore(m: Seen, h: Hash, at: UInt64)
    ensures |m[h := at]| == |m.Keys| + (if h in m then 0 else 1)
  {
    assert m[h := at].Keys == m.Keys + {h};
    assert |m[h := at].Keys| == |m[h := at]|;
  }

  lemma SubsetIsSmaller(a: set<Hash>, b: set<Hash>)
    requires a <= b
    ensures |a| <= |b|
  {
    assert b == a + (b - a);
  }

  function Burst(n: nat, now: UInt64): seq<Call>
    requires n <= U64_RANGE
  {
    if n == 0 then [] else Burst(n - 1, now) + [Call(n - 1, now)]
  }

  /** So the cap does not bound the map: n distinct bodies in one window are all kept, for every n. */
  lemma {:induction false} CapIsSoft(n: nat, now: UInt64)
    requires n <= U64_RANGE
    ensures |SeenAfter(Burst(n, now))| == n
    ensures forall h :: h in SeenAfter(Burst(n, now)) <==> 0 <= h < n
    ensures forall h :: h in SeenAfter(Burst(n, now)) ==> SeenAfter(Burst(n, now))[h] == now
  {
    if n > 0 {
      CapIsSoft(n - 1, now);
      var calls := Burst(n, now);
      assert calls[..|calls| - 1] == Burst(n - 1, now) && calls[|calls| - 1] == Call(n - 1, now);
      KeptInBurst(SeenAfter(Burst(n - 1, now)), Call(n - 1, now));
    }
  }

  lemma KeptInBurst(seen: Seen, c: Call)
    requires c.hash !in seen && forall h :: h in seen ==> seen[h] == c.now
    ensures After(seen, c) == seen[c.hash := c.now] && |After(seen, c)| == |seen| + 1
  {
    assert Pruned(seen, c.now) == seen;
  }

  // ---- In place ---------------------------------------------------------------------------

  class GossipSeen {
    var seen: Seen   // g_route_gossip_seen

    method ShouldForward(hash: Hash, now: UInt64) returns (forward: bool)
      modifies this
      ensures forward == Forwards(old(seen), Call(hash, now))
      ensures seen == After(old(seen), Call(hash, now))
    {
      if hash in seen && (now - seen[hash]) % U64_RANGE < DEDUP_MS {
        return false;
      }
      ghost var was := seen;
      if |seen| > SEEN_CAP {
        var todo := seen.Keys;
        while todo != {}
          invariant todo <= was.Keys
          invariant seen == map h | h in was && (h in todo || Age(now, was[h]) < DEDUP_MS) :: was[h]
          decreases todo
        {
          var h :| h in todo;
          if (now - seen[h]) % U64_RANGE >= DEDUP_MS {
            seen := seen - {h};
          }
          todo := todo - {h};
        }
      }
      seen := seen[hash := now];
      forward := true;
    }
  }
}
