/** sample_up_to: the Fisher-Yates prefix that bounds the mesh fan-out. The random source is a parameter:
    the sequence of offsets drawn, the i-th below n - i. */
module FanoutSample {

  type PeerId = string

  ghost predicate Distinct(s: seq<PeerId>) { forall i, j :: 0 <= i < j < |s| ==> s[i] != s[j] }

  predicate ValidPicks(n: nat, picks: seq<nat>)
    decreases |picks|
  {
    picks == [] || (picks[0] < n && ValidPicks(n - 1, picks[1..]))
  }

  /** What is left to draw from once position j has been swapped to the front and taken. */
  function Remaining(all: seq<PeerId>, j: nat): (r: seq<PeerId>)
    requires j < |all|
    ensures |r| == |all| - 1
  {
    all[j := all[0]][1..]
  }

  function Sample(all: seq<PeerId>, picks: seq<nat>): (r: seq<PeerId>)
    requires ValidPicks(|all|, picks)
    ensures |r| == |picks|
    decreases |picks|
  {
    if picks == [] then [] else [all[picks[0]]] + Sample(Remaining(all, picks[0]), picks[1..])
  }

  /** The whole function: a list that fits, and every list when k is 0, is returned unchanged. */
  function SampleUpTo(all: seq<PeerId>, k: nat, picks: seq<nat>): seq<PeerId>
    requires 0 < k < |all| ==> |picks| == k && ValidPicks(|all|, picks)
  {
    if k == 0 || |all| <= k then all else Sample(all, picks)
  }

  // ---- Every arrangement from exactly one draw ----------------------------------------

  ghost predicate Arrangement(all: seq<PeerId>, t: seq<PeerId>) {
    Distinct(t) && forall p :: p in t ==> p in all
  }

  lemma RemainingDropsOne(all: seq<PeerId>, j: nat)
    requires Distinct(all) && j < |all|
    ensures Distinct(Remaining(all, j))
    ensures forall p :: p in Remaining(all, j) <==> p in all && p != all[j]
  {
    var r := Remaining(all, j);
    forall p | p in all && p != all[j]
      ensures p in r
    {
      var i :| 0 <= i < |all| && all[i] == p;
      if i == 0 {
        assert r[j - 1] == p;
      } else {
        assert r[i - 1] == p;
      }
    }
  }

  /** Every draw yields a duplicate-free choice from the input. */
  lemma {:induction false} SampleIsArrangement(all: seq<PeerId>, picks: seq<nat>)
    requires Distinct(all) && ValidPicks(|all|, picks)
    ensures Arrangement(all, Sample(all, picks))
    decreases |picks|
  {
    if picks != [] {
      RemainingDropsOne(all, picks[0]);
      SampleIsArrangement(Remaining(all, picks[0]), picks[1..]);
      assert all[picks[0]] in all;
    }
  }

  ghost function IndexOf(all: seq<PeerId>, p: PeerId): (i: nat)
    requires p in all
    ensures i < |all| && all[i] == p
  {
    var i: nat :| i < |all| && all[i] == p; i
  }

  /** The draw that produces a given arrangement. */
  ghost function PicksFor(all: seq<PeerId>, t: seq<PeerId>): (picks: seq<nat>)
    requires Distinct(all) && Arrangement(all, t)
    ensures |picks| == |t|
    decreases |t|
  {
    if t == [] then []
    else
      assert t[0] in t;
      var j := IndexOf(all, t[0]);
      RemainingDropsOne(all, j);
      assert forall p :: p in t[1..] ==> p in t && p != t[0];
      [j] + PicksFor(Remaining(all, j), t[1..])
  }

  /** Surjective: each ordered k-sample arises from a draw. */
  lemma {:induction false} EveryArrangementIsDrawn(all: seq<PeerId>, t: seq<PeerId>)
    requires Distinct(all) && Arrangement(all, t)
    ensures ValidPicks(|all|, PicksFor(all, t)) && Sample(all, PicksFor(all, t)) == t
    decreases |t|
  {
    if t != [] {
      assert t[0] in t;
      var j := IndexOf(all, t[0]);
      RemainingDropsOne(all, j);
      assert forall p :: p in t[1..] ==> p in t && p != t[0];
      EveryArrangementIsDrawn(Remaining(all, j), t[1..]);
      assert PicksFor(all, t)[1..] == PicksFor(Remaining(all, j), t[1..]);
      assert t == [t[0]] + t[1..];
    }
  }

  /** Injective: different draws give different ordered samples. */
  lemma {:induction false} DrawsAreDistinguished(all: seq<PeerId>, p: seq<nat>, q: seq<nat>)
    requires Distinct(all) && ValidPicks(|all|, p) && ValidPicks(|all|, q)
    requires Sample(all, p) == Sample(all, q)
    ensures p == q
    decreases |p|
  {
    if p != [] {
      assert |p| == |q|;
      assert Sample(all, p)[0] == all[p[0]] && Sample(all, q)[0] == all[q[0]];
      assert p[0] == q[0];
      RemainingDropsOne(all, p[0]);
      assert Sample(all, p)[1..] == Sample(Remaining(all, p[0]), p[1..]);
      assert Sample(all, q)[1..] == Sample(Remaining(all, q[0]), q[1..]);
      DrawsAreDistinguished(Remaining(all, p[0]), p[1..], q[1..]);
      assert p == [p[0]] + p[1..] && q == [q[0]] + q[1..];
    }
  }

  /** With duplicates in the input the result is still a sub-multiset of it. */
  lemma {:induction false} SampleIsSubMultiset(all: seq<PeerId>, picks: seq<nat>)
    requires ValidPicks(|all|, picks)
    ensures multiset(Sample(all, picks)) <= multiset(all)
    decreases |picks|
  {
    if picks != [] {
      RemainingMultiset(all, picks[0]);
      SampleIsSubMultiset(Remaining(all, picks[0]), picks[1..]);
    }
  }

  lemma RemainingMultiset(all: seq<PeerId>, j: nat)
    requires j < |all|
    ensures multiset(all) == multiset{all[j]} + multiset(Remaining(all, j))
  {
    var m := all[j := all[0]];
    assert m == [all[0]] + Remaining(all, j);
    UpdateMultiset(all, j, all[0]);
  }

  lemma UpdateMultiset(all: seq<PeerId>, j: nat, x: PeerId)
    requires j < |all|
    ensures multiset(all[j := x]) + multiset{all[j]} == multiset(all) + multiset{x}
  {
    assert all == all[..j] + [all[j]] + all[j + 1..];
    assert all[j := x] == all[..j] + [x] + all[j + 1..];
  }

  /** A limit bounds the result exactly when it is positive; both callers' limits are clamped to at least 1. */
  lemma FanoutBoundIff(all: seq<PeerId>, k: nat, picks: seq<nat>)
    requires 0 < k < |all| ==> |picks| == k && ValidPicks(|all|, picks)
    ensures |SampleUpTo(all, k, picks)| <= k <==> k > 0 || all == []
  {
  }

  /** A list that fits comes back whole; otherwise exactly k elements do, each of them from the list. */
  lemma FitsOrIsCut(all: seq<PeerId>, k: nat, picks: seq<nat>)
    requires k > 0 && (k < |all| ==> |picks| == k && ValidPicks(|all|, picks))
    ensures |all| <= k ==> SampleUpTo(all, k, picks) == all
    ensures |all| > k ==> |SampleUpTo(all, k, picks)| == k
    ensures multiset(SampleUpTo(all, k, picks)) <= multiset(all)
  {
    if |all| > k {
      SampleIsSubMultiset(all, picks);
    }
  }

  // ---- In place ------------------------------------------------------------------------

  /** The first i positions are drawn and the rest of the draw happens on the rest of the list. */
  ghost predicate Drawn(s: seq<PeerId>, i: nat, picks: seq<nat>, target: seq<PeerId>) {
    && i <= |s| && i <= |picks|
    && ValidPicks(|s| - i, picks[i..])
    && s[..i] + Sample(s[i..], picks[i..]) == target
  }

  lemma SwapStep(s: seq<PeerId>, i: nat, picks: seq<nat>, target: seq<PeerId>)
    requires i < |picks| && Drawn(s, i, picks, target)
    ensures i + picks[i] < |s|
    ensures Drawn(s[i := s[i + picks[i]]][i + picks[i] := s[i]], i + 1, picks, target)
  {
    var j, rest, ps := picks[i], s[i..], picks[i..];
    assert ps[0] == j && ps[1..] == picks[i + 1..];
    var t := s[i := s[i + j]][i + j := s[i]];
    assert t[i + 1..] == Remaining(rest, j);
    assert t[..i + 1] == s[..i] + [rest[j]];
    assert s[..i] + ([rest[j]] + Sample(Remaining(rest, j), ps[1..])) == (s[..i] + [rest[j]]) + Sample(Remaining(rest, j), ps[1..]);
  }

  /** The loop over a vector: swap a drawn element to the front of the rest, then keep the first k. */
  method SampleInPlace(all: array<PeerId>, k: nat, picks: seq<nat>) returns (r: seq<PeerId>)
    requires 0 < k < all.Length ==> |picks| == k && ValidPicks(all.Length, picks)
    modifies all
    ensures r == SampleUpTo(old(all[..]), k, picks)
  {
    if k == 0 || all.Length <= k {
      return all[..];
    }
    ghost var target := Sample(all[..], picks);
    for i := 0 to k
      invariant Drawn(all[..], i, picks, target)
    {
      SwapStep(all[..], i, picks, target);
      var j := picks[i];
      all[i], all[i + j] := all[i + j], all[i];
    }
    assert picks[k..] == [];
    r := all[..k];
  }
}
