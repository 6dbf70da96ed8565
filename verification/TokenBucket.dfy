/** The per-sender token bucket in front of the binary relay. The source refills lazily,
    in 64-bit arithmetic, when a frame arrives. */
module TokenBucket {
  import opened Bytes

  const BUCKET_BYTES: nat := 50 * 1024 * 1024
  const REFILL_BPS: nat := 10 * 1024 * 1024

  /** kRelayRefillBps / 1000 truncates to 10485 bytes per millisecond. */
  function RefillFor(ms: nat): (r: nat)
    ensures r == (REFILL_BPS / 1000) * ms
  {
    10485 * ms
  }

  function FullBuckets(n: nat): (r: nat)
    ensures r == BUCKET_BYTES * n
  {
    52_428_800 * n
  }

  /** Last millisecond a 64-bit nanosecond steady clock can name. */
  const STEADY_CLOCK_MAX_MS: nat := 9_223_372_036_854

  datatype Bucket = Bucket(tokens: UInt64, lastMs: nat)
  datatype Slot = Absent | Live(bucket: Bucket)

  /** Ticket order of one sender: frames with their payload size, and reaper passes that drop its bucket. */
  datatype Event = Frame(now: nat, payload: nat) | Reaped(now: nat)

  // ---- The lazy bucket, with wrap-around ------------------------------

  function Refilled(b: Bucket, now: nat): (t: UInt64)
    ensures t <= BUCKET_BYTES
  {
    var dt := if now > b.lastMs then now - b.lastMs else 0;
    var refill := (RefillFor(dt)) % U64_RANGE;
    var sum := (b.tokens + refill) % U64_RANGE;
    if sum > BUCKET_BYTES then BUCKET_BYTES else sum
  }

  function Credit(s: Slot, now: nat): (t: UInt64)
    ensures t <= BUCKET_BYTES
  {
    if s.Absent? then BUCKET_BYTES else Refilled(s.bucket, now)
  }

  predicate Admits(s: Slot, now: nat, payload: nat) { payload <= Credit(s, now) }

  function Charge(s: Slot, now: nat, payload: nat): Bucket {
    Bucket(if Admits(s, now, payload) then Credit(s, now) - payload else Credit(s, now), now)
  }

  function Next(s: Slot, e: Event): Slot {
    match e
    case Frame(now, payload) => Live(Charge(s, now, payload))
    case Reaped(_) => Absent
  }

  /** The decision taken on each frame. */
  function Decisions(s: Slot, es: seq<Event>): seq<bool>
    decreases |es|
  {
    if es == [] then []
    else if es[0].Frame? then [Admits(s, es[0].now, es[0].payload)] + Decisions(Next(s, es[0]), es[1..])
    else Decisions(Next(s, es[0]), es[1..])
  }

  ghost predicate Ordered(from: nat, es: seq<Event>)
    decreases |es|
  {
    es == [] || (from <= es[0].now && Ordered(es[0].now, es[1..]))
  }

  predicate Since(s: Slot, t: nat) { s.Live? ==> s.bucket.lastMs <= t && s.bucket.tokens <= BUCKET_BYTES }

  // ---- Rate bound ------------------------------------------------------

  /** Payload bytes charged to the sender at times lo..hi. */
  function Charged(s: Slot, es: seq<Event>, lo: nat, hi: nat): nat
    decreases |es|
  {
    if es == [] then 0
    else
      var e := es[0];
      (if e.Frame? && lo <= e.now <= hi && Admits(s, e.now, e.payload) then e.payload else 0)
      + Charged(Next(s, e), es[1..], lo, hi)
  }

  function Reaps(es: seq<Event>, lo: nat, hi: nat): nat
    decreases |es|
  {
    if es == [] then 0
    else (if es[0].Reaped? && lo <= es[0].now <= hi then 1 else 0) + Reaps(es[1..], lo, hi)
  }

  lemma {:induction false} NothingAfterWindow(s: Slot, from: nat, es: seq<Event>, lo: nat, hi: nat)
    requires Ordered(from, es) && hi < from
    ensures Charged(s, es, lo, hi) == 0
    decreases |es|
  {
    if es != [] {
      NothingAfterWindow(Next(s, es[0]), es[0].now, es[1..], lo, hi);
    }
  }

  lemma CreditGrowsAtMost(s: Slot, t: nat, u: nat)
    requires t <= u && Since(s, t)
    ensures s.Live? && s.bucket.lastMs == t ==> Credit(s, u) <= s.bucket.tokens + RefillFor(u - t)
    ensures Credit(s, u) <= BUCKET_BYTES
  {
    if s.Live? {
      var x := RefillFor(u - s.bucket.lastMs);
      assert x % U64_RANGE <= x;
      assert (s.bucket.tokens + x % U64_RANGE) % U64_RANGE <= s.bucket.tokens + x % U64_RANGE;
    }
  }

  /** From a bucket just written at time t, what can still be charged up to hi. */
  lemma {:induction false} ChargedWithin(b: Bucket, es: seq<Event>, lo: nat, hi: nat)
    requires b.tokens <= BUCKET_BYTES && Ordered(b.lastMs, es) && lo <= b.lastMs <= hi
    ensures Charged(Live(b), es, lo, hi)
            <= b.tokens + RefillFor(hi - b.lastMs) + FullBuckets(Reaps(es, lo, hi))
    decreases |es|
  {
    if es != [] {
      var e := es[0];
      if e.now > hi {
        NothingAfterWindow(Live(b), e.now, es, lo, hi);
      } else if e.Frame? {
        CreditGrowsAtMost(Live(b), b.lastMs, e.now);
        ChargedWithin(Charge(Live(b), e.now, e.payload), es[1..], lo, hi);
      } else {
        ChargedFromFull(es[1..], e.now, lo, hi);
      }
    }
  }

  lemma {:induction false} ChargedFromFull(es: seq<Event>, t: nat, lo: nat, hi: nat)
    requires Ordered(t, es) && lo <= t <= hi
    ensures Charged(Absent, es, lo, hi)
            <= BUCKET_BYTES + RefillFor(hi - t) + FullBuckets(Reaps(es, lo, hi))
    decreases |es|
  {
    if es != [] {
      var e := es[0];
      if e.now > hi {
        NothingAfterWindow(Absent, e.now, es, lo, hi);
      } else if e.Frame? {
        ChargedWithin(Charge(Absent, e.now, e.payload), es[1..], lo, hi);
      } else {
        ChargedFromFull(es[1..], e.now, lo, hi);
      }
    }
  }

  lemma WindowFrom(t: nat, lo: nat, hi: nat)
    ensures lo <= t <= hi ==> RefillFor(hi - t) <= RefillFor(hi - lo)
  {
  }

  /** Rate bound: in any window [lo, hi] a sender is charged at most one full bucket plus the refill of the
      window, and one more full bucket for each time the reaper dropped its bucket in the window. */
  lemma {:induction false} RateBound(s: Slot, from: nat, es: seq<Event>, lo: nat, hi: nat)
    requires Since(s, from) && Ordered(from, es) && lo <= hi
    ensures Charged(s, es, lo, hi) <= FullBuckets(1 + Reaps(es, lo, hi)) + RefillFor(hi - lo)
    decreases |es|
  {
    if es != [] {
      var e := es[0];
      WindowFrom(e.now, lo, hi);
      if e.now < lo {
        RateBound(Next(s, e), e.now, es[1..], lo, hi);
      } else if e.now > hi {
        NothingAfterWindow(s, e.now, es, lo, hi);
      } else if e.Frame? {
        ChargedWithin(Charge(s, e.now, e.payload), es[1..], lo, hi);
      } else {
        ChargedFromFull(es[1..], e.now, lo, hi);
      }
    }
  }

  // ---- Refinement of an eager bucket ----------------------------------

  /** One refill step per elapsed millisecond, capped each time. */
  function EagerRefill(tokens: nat, ms: nat): nat
    decreases ms
  {
    if ms == 0 then tokens else EagerRefill(Min(BUCKET_BYTES, tokens + RefillFor(1)), ms - 1)
  }

  function Min(a: nat, b: nat): nat { if a <= b then a else b }

  /** The reference bucket: a full bucket that is refilled every millisecond from `clock` on. */
  function EagerDecisions(tokens: nat, clock: nat, es: seq<Event>): seq<bool>
    requires Ordered(clock, es)
    decreases |es|
  {
    if es == [] then []
    else
      var e, t := es[0], EagerRefill(tokens, es[0].now - clock);
      match e
      case Reaped(now) => EagerDecisions(BUCKET_BYTES, now, es[1..])
      case Frame(now, payload) =>
        [payload <= t] + EagerDecisions(if payload <= t then t - payload else t, now, es[1..])
  }

  lemma {:induction false} EagerRefillClosedForm(tokens: nat, ms: nat)
    requires tokens <= BUCKET_BYTES
    ensures EagerRefill(tokens, ms) == Min(BUCKET_BYTES, tokens + RefillFor(ms))
    decreases ms
  {
    if ms > 0 {
      EagerRefillClosedForm(Min(BUCKET_BYTES, tokens + RefillFor(1)), ms - 1);
    }
  }

  /** No 64-bit operation wraps when the refill owed since the last frame fits beside a full bucket. */
  predicate NoWrap(s: Slot, now: nat) {
    s.Live? && s.bucket.lastMs <= now ==> RefillFor(now - s.bucket.lastMs) + BUCKET_BYTES < U64_RANGE
  }

  lemma RefilledIsEager(s: Slot, now: nat)
    requires s.Live? && Since(s, now) && NoWrap(s, now)
    ensures Credit(s, now) == EagerRefill(s.bucket.tokens, now - s.bucket.lastMs)
  {
    EagerRefillClosedForm(s.bucket.tokens, now - s.bucket.lastMs);
  }

  lemma CreditClosedForm(s: Slot, now: nat)
    requires s.Live? && Since(s, now) && NoWrap(s, now)
    ensures Credit(s, now) == Min(BUCKET_BYTES, s.bucket.tokens + RefillFor(now - s.bucket.lastMs))
  {
    RefilledIsEager(s, now);
    EagerRefillClosedForm(s.bucket.tokens, now - s.bucket.lastMs);
  }

  predicate NeverWraps(s: Slot, es: seq<Event>)
    decreases |es|
  {
    es == [] || (NoWrap(s, es[0].now) && NeverWraps(Next(s, es[0]), es[1..]))
  }

  /** The lazy bucket takes exactly the decisions of the eager one. */
  lemma {:induction false} LazyRefinesEager(b: Bucket, es: seq<Event>)
    requires b.tokens <= BUCKET_BYTES && Ordered(b.lastMs, es) && NeverWraps(Live(b), es)
    ensures Decisions(Live(b), es) == EagerDecisions(b.tokens, b.lastMs, es)
    decreases |es|
  {
    if es != [] {
      var e := es[0];
      RefilledIsEager(Live(b), e.now);
      if e.Frame? {
        LazyRefinesEager(Charge(Live(b), e.now, e.payload), es[1..]);
      } else {
        FreshRefinesEager(e.now, es[1..]);
      }
    }
  }

  lemma {:induction false} FreshRefinesEager(clock: nat, es: seq<Event>)
    requires Ordered(clock, es) && NeverWraps(Absent, es)
    ensures Decisions(Absent, es) == EagerDecisions(BUCKET_BYTES, clock, es)
    decreases |es|
  {
    if es != [] {
      var e := es[0];
      EagerRefillClosedForm(BUCKET_BYTES, e.now - clock);
      if e.Frame? {
        LazyRefinesEager(Charge(Absent, e.now, e.payload), es[1..]);
      } else {
        FreshRefinesEager(e.now, es[1..]);
      }
    }
  }

  /** On the steady clock nothing ever wraps, however long a sender stays silent. */
  lemma {:induction false} SteadyClockNeverWraps(s: Slot, es: seq<Event>)
    requires forall e :: e in es ==> e.now <= STEADY_CLOCK_MAX_MS
    ensures NeverWraps(s, es)
    decreases |es|
  {
    if es != [] {
      assert es[0] in es;
      SteadyClockNeverWraps(Next(s, es[0]), es[1..]);
    }
  }

  // ---- Refusals ---------------------------------------------------------

  lemma RefusalInvisibleToNext(s: Slot, t: nat, refused: nat, now: nat, payload: nat)
    requires Since(s, t) && t <= now && !Admits(s, t, refused)
    requires NoWrap(s, now) && NoWrap(Live(Bucket(0, t)), now)
    ensures var after := Live(Charge(s, t, refused));
            Admits(after, now, payload) == Admits(s, now, payload) && Charge(after, now, payload) == Charge(s, now, payload)
  {
    var after := Live(Charge(s, t, refused));
    assert after.bucket == Bucket(Credit(s, t), t);
    if s.Live? {
      CreditClosedForm(s, t);
      CreditClosedForm(s, now);
      assert NoWrap(after, now);
    }
    CreditClosedForm(after, now);
    assert Credit(after, now) == Credit(s, now);
  }

  /** A refused frame leaves no trace: every later decision is as if it had never arrived. */
  lemma RefusalInvisible(s: Slot, t: nat, refused: nat, es: seq<Event>)
    requires Since(s, t) && Ordered(t, es) && !Admits(s, t, refused)
    requires forall e :: e in es ==> e.now <= STEADY_CLOCK_MAX_MS
    ensures Decisions(Next(s, Frame(t, refused)), es) == Decisions(s, es)
  {
    if es != [] && es[0].Frame? {
      assert es[0] in es;
      RefusalInvisibleToNext(s, t, refused, es[0].now, es[0].payload);
    }
  }

  /** Milliseconds until a bucket holds `payload` bytes. */
  function WaitMs(tokens: nat, payload: nat): nat {
    if payload <= tokens then 0 else (payload - tokens + 10484) / 10485
  }

  /** A payload that fits the bucket is admitted exactly from that wait on; a larger one never is. */
  lemma AdmittedAfterWait(b: Bucket, w: nat, payload: nat)
    requires b.tokens <= BUCKET_BYTES && NoWrap(Live(b), b.lastMs + w)
    ensures Admits(Live(b), b.lastMs + w, payload) <==> payload <= BUCKET_BYTES && w >= WaitMs(b.tokens, payload)
  {
    CreditClosedForm(Live(b), b.lastMs + w);
  }

  // ---- The table ---------------------------------------------------------

  class RelayBuckets {
    var buckets: map<string, Bucket>   // g_relay_buckets

    function Slot(sender: string): Slot
      reads this
    {
      if sender in buckets then Live(buckets[sender]) else Absent
    }

    /** The rate-limit block of on_relay_binary. */
    method Admit(sender: string, now: nat, payloadSize: nat) returns (forward: bool)
      modifies this
      ensures forward == Admits(old(Slot(sender)), now, payloadSize)
      ensures buckets == old(buckets)[sender := Charge(old(Slot(sender)), now, payloadSize)]
    {
      var bk: Bucket;
      if sender !in buckets {
        bk := Bucket(BUCKET_BYTES, now);
      } else {
        bk := buckets[sender];
        var dt := if now > bk.lastMs then now - bk.lastMs else 0;
        var refill: UInt64 := (RefillFor(dt)) % U64_RANGE;
        var sum: UInt64 := (bk.tokens + refill) % U64_RANGE;
        bk := Bucket(if sum > BUCKET_BYTES then BUCKET_BYTES else sum, now);
      }
      forward := !(bk.tokens < payloadSize);
      if forward {
        bk := bk.(tokens := bk.tokens - payloadSize);
      }
      buckets := buckets[sender := bk];
    }

    /** Reaper job 3: drop the bucket of every peer that is no longer connected. */
    method Prune(alive: set<string>)
      modifies this
      ensures buckets == map p | p in old(buckets) && p in alive :: old(buckets)[p]
    {
      var todo := buckets.Keys;
      while todo != {}
        invariant todo <= old(buckets).Keys
        invariant buckets == map p | p in old(buckets) && (p in todo || p in alive) :: old(buckets)[p]
        decreases todo
      {
        var p :| p in todo;
        if p !in alive {
          buckets := buckets - {p};
        }
        todo := todo - {p};
      }
    }
  }
}
