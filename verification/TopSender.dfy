/** DeliveryAccum::top_sender: the seeder named in a signed relay.report. */
module TopSender {

  /** std::string's operator<: lexicographic on characters. */
  predicate Less(a: string, b: string) {
    if b == "" then false
    else if a == "" then true
    else if a[0] != b[0] then a[0] < b[0]
    else Less(a[1..], b[1..])
  }

  /** The order is decided at the first difference: the smaller character comes first, and a proper prefix before any
      of its extensions. */
  lemma {:induction false} LessAtFirstDifference(a: string, b: string, k: nat)
    requires k <= |a| && k <= |b| && a[..k] == b[..k]
    requires k == |a| || k == |b| || a[k] != b[k]
    ensures Less(a, b) <==> k < |b| && (k == |a| || a[k] < b[k])
  {
    if k > 0 {
      assert a[0] == a[..k][0] == b[..k][0] == b[0];
      assert a[1..][..k - 1] == a[..k][1..] && b[1..][..k - 1] == b[..k][1..];
      LessAtFirstDifference(a[1..], b[1..], k - 1);
    }
  }

  lemma {:induction false} LessTotal(a: string, b: string)
    ensures Less(a, b) || a == b || Less(b, a)
  {
    if a != "" && b != "" && a[0] == b[0] {
      LessTotal(a[1..], b[1..]);
      assert a == [a[0]] + a[1..] && b == [b[0]] + b[1..];
    }
  }

  lemma {:induction false} LessAsymmetric(a: string, b: string)
    requires Less(a, b)
    ensures !Less(b, a)
  {
    if a != "" && a[0] == b[0] {
      LessAsymmetric(a[1..], b[1..]);
    }
  }

  lemma {:induction false} LessTransitive(a: string, b: string, c: string)
    requires Less(a, b) && Less(b, c)
    ensures Less(a, c)
  {
    if a != "" && a[0] == b[0] && b[0] == c[0] {
      LessTransitive(a[1..], b[1..], c[1..]);
    }
  }

  /** The comparison made against the best entry so far. */
  predicate Beats(pid: string, n: nat, best: (string, nat)) {
    n > best.1 || (n == best.1 && Less(pid, best.0))
  }

  /** Most bytes, ties to the lexicographically smallest peer id; ("", 0) when nobody sent a byte. */
  ghost predicate IsTop(bySender: map<string, nat>, best: (string, nat)) {
    && (forall p :: p in bySender ==> !Beats(p, bySender[p], best))
    && (if best.1 == 0 then best.0 == "" else best.0 in bySender && bySender[best.0] == best.1)
  }

  lemma TopIsUnique(bySender: map<string, nat>, x: (string, nat), y: (string, nat))
    requires IsTop(bySender, x) && IsTop(bySender, y)
    ensures x == y
  {
    if x.1 > 0 {
      assert !Beats(x.0, x.1, y);
    }
    if y.1 > 0 {
      assert !Beats(y.0, y.1, x);
    }
    LessTotal(x.0, y.0);
  }

  lemma BeatsTransitive(p: string, n: nat, challenger: (string, nat), holder: (string, nat))
    requires Beats(challenger.0, challenger.1, holder) && Beats(p, n, challenger)
    ensures Beats(p, n, holder)
  {
    if n == challenger.1 && n == holder.1 {
      LessTransitive(p, challenger.0, holder.0);
    }
  }

  lemma NeverBeatsItself(p: string, n: nat)
    ensures !Beats(p, n, (p, n))
  {
    if Less(p, p) {
      LessAsymmetric(p, p);
      assert false;
    }
  }

  /** One pass over the hash map, in whatever order it yields; by TopIsUnique the order cannot matter. */
  method Pick(bySender: map<string, nat>) returns (best: (string, nat))
    ensures IsTop(bySender, best)
  {
    best := ("", 0);
    var todo := bySender.Keys;
    while todo != {}
      invariant todo <= bySender.Keys
      invariant IsTop(map p | p in bySender && p !in todo :: bySender[p], best)
      decreases todo
    {
      var pid :| pid in todo;
      ghost var seen := map p | p in bySender && p !in todo :: bySender[p];
      ghost var was := best;
      if Beats(pid, bySender[pid], best) {
        best := (pid, bySender[pid]);
      }
      todo := todo - {pid};
      forall p | p in bySender && p !in todo
        ensures !Beats(p, bySender[p], best)
      {
        NeverBeatsItself(pid, bySender[pid]);
        if p != pid {
          assert p in seen && !Beats(p, seen[p], was);
          if Beats(p, bySender[p], best) && best != was {
            BeatsTransitive(p, bySender[p], best, was);
          }
        }
      }
    }
    assert (map p | p in bySender && p !in todo :: bySender[p]) == bySender;
  }
}
