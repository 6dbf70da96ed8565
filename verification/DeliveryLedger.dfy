/** Per-delivery byte accounting of the binary relay, the reaper's flush, and the memory
    that decides when a play proof may be co-signed. */
module DeliveryLedger {
  import opened Bytes
  import opened MapSum

  const DELIVERY_IDLE_MS: nat := 5000
  const COSIGN_MEMORY_MS: nat := 900_000
  const COSIGN_MIN_BYTES: nat := 65536
  const MAX_SENDERS: nat := 32

  datatype Accum = Accum(bytes: UInt64, lastMs: nat, bySender: map<string, UInt64>)
  datatype Done = Done(bytes: UInt64, flushedMs: nat, session: string)

  datatype State = State(accum: map<string, Accum>, done: map<string, Done>, clock: nat)

  /** Frame is a successfully forwarded frame. `proofOk` stands for the field and identity checks made
      before the delivery is looked up, `digestOk` for the final comparison with the node's digest. */
  datatype Event =
    | Tick(dt: nat)
    | Frame(id: seq<Byte>, sender: string, payload: nat)
    | Cosign(did: string, session: string, proofOk: bool, digestOk: bool)
    | Reap

  // ---- Transitions -----------------------------------------------------

  predicate AllZero(id: seq<Byte>) { forall i :: 0 <= i < |id| ==> id[i] == 0 }

  function Add64(a: UInt64, n: nat): UInt64 { (a + n) % U64_RANGE }

  function Touched(a: Accum, sender: string, payload: nat, now: nat): Accum {
    Accum(Add64(a.bytes, payload), now,
      if |a.bySender| < MAX_SENDERS || sender in a.bySender
      then a.bySender[sender := Add64(if sender in a.bySender then a.bySender[sender] else 0, payload)]
      else a.bySender)
  }

  function AfterFrame(s: State, id: seq<Byte>, sender: string, payload: nat): State {
    if AllZero(id) then s
    else
      var key := HexOfBytes(id);
      var a := if key in s.accum then s.accum[key] else Accum(0, 0, map[]);
      s.(accum := s.accum[key := Touched(a, sender, payload, s.clock)])
  }

  /** What the node remembers having relayed for a delivery id. */
  function Relayed(s: State, did: string): UInt64 {
    if did in s.done then s.done[did].bytes else if did in s.accum then s.accum[did].bytes else 0
  }

  predicate Corroborated(s: State, e: Event)
    requires e.Cosign?
  {
    e.proofOk && e.session != "" && |e.did| == 32 && Relayed(s, e.did) >= COSIGN_MIN_BYTES
  }

  /** The row a corroborated request finds or creates. */
  function RowFor(s: State, did: string): Done {
    var d := if did in s.done then s.done[did] else Done(0, 0, "");
    Done(if d.bytes == 0 then Relayed(s, did) else d.bytes, if d.flushedMs == 0 then s.clock else d.flushedMs, d.session)
  }

  predicate Binds(s: State, e: Event)
    requires e.Cosign?
  {
    Corroborated(s, e) && (RowFor(s, e.did).session == "" || RowFor(s, e.did).session == e.session)
  }

  /** A signature is produced. */
  predicate Signs(s: State, e: Event) { e.Cosign? && Binds(s, e) && e.digestOk }

  function AfterCosign(s: State, e: Event): State
    requires e.Cosign?
  {
    if !Corroborated(s, e) then s
    else
      var d := RowFor(s, e.did);
      s.(done := s.done[e.did := if Binds(s, e) then d.(session := e.session) else d])
  }

  predicate Expires(s: State, did: string) {
    did in s.done && s.done[did].flushedMs + COSIGN_MEMORY_MS < s.clock
  }

  predicate Flushes(s: State, key: string) {
    key in s.accum && s.accum[key].lastMs + DELIVERY_IDLE_MS < s.clock
  }

  function FlushedRow(s: State, key: string): Done
    requires key in s.accum
  {
    Done(s.accum[key].bytes, s.clock, if key in s.done && !Expires(s, key) then s.done[key].session else "")
  }

  /** Expired rows go first, then idle accumulators become rows. */
  function AfterReap(s: State): State {
    var flushed := map key | key in s.accum && Flushes(s, key) :: FlushedRow(s, key);
    var kept := map did | did in s.done && !Expires(s, did) :: s.done[did];
    s.(accum := s.accum - flushed.Keys, done := kept + flushed)
  }

  function Next(s: State, e: Event): State {
    match e
    case Tick(dt) => s.(clock := s.clock + dt)
    case Frame(id, sender, payload) => AfterFrame(s, id, sender, payload)
    case Cosign(_, _, _, _) => AfterCosign(s, e)
    case Reap => AfterReap(s)
  }

  function Run(es: seq<Event>): State {
    if es == [] then State(map[], map[], 0) else Next(Run(es[..|es| - 1]), es[|es| - 1])
  }

  // ---- What the events themselves say -----------------------------------

  /** A frame for a delivery; an id without a single nonzero byte means that no delivery is meant. */
  predicate CountsFor(e: Event, id: seq<Byte>) { e.Frame? && e.id == id && exists i :: 0 <= i < |id| && id[i] != 0 }

  /** Payload bytes successfully forwarded for a delivery id. */
  function ForwardedBytes(es: seq<Event>, id: seq<Byte>): nat {
    if es == [] then 0
    else ForwardedBytes(es[..|es| - 1], id) + CountedBy(es[|es| - 1], id)
  }

  function LiveBytes(s: State, key: string): nat { if key in s.accum then s.accum[key].bytes else 0 }

  /** Bytes in the reports flushed so far for a delivery id. */
  function ReportedBytes(es: seq<Event>, id: seq<Byte>): nat {
    if es == [] then 0
    else ReportedBytes(es[..|es| - 1], id) + ReportedBy(Run(es[..|es| - 1]), es[|es| - 1], HexOfBytes(id))
  }

  /** Distinct senders seen on a delivery since its last flush. */
  function SendersSinceFlush(es: seq<Event>, id: seq<Byte>): set<string> {
    if es == [] then {}
    else
      var before, e := SendersSinceFlush(es[..|es| - 1], id), es[|es| - 1];
      if CountsFor(e, id) then before + {e.sender}
      else if e.Reap? && Flushes(Run(es[..|es| - 1]), HexOfBytes(id)) then {}
      else before
  }

  lemma DistinctKeys(id: seq<Byte>, other: seq<Byte>)
    ensures HexOfBytes(id) == HexOfBytes(other) <==> id == other
  {
    if HexOfBytes(id) == HexOfBytes(other) {
      HexOfBytesInjective(id, other);
    }
  }

  const NO_DELIVERY: seq<Byte> := [0, 0, 0, 0, 0, 0, 0, 0, 0, 0, 0, 0, 0, 0, 0, 0]

  /** Sixteen zero bytes are the one id that means no delivery. */
  lemma NoDeliveryIff(id: seq<Byte>)
    requires |id| == 16
    ensures AllZero(id) <==> id == NO_DELIVERY
    ensures id != NO_DELIVERY <==> exists i :: 0 <= i < |id| && id[i] != 0
  {
    if forall i :: 0 <= i < |id| ==> id[i] == 0 {
      assert id == NO_DELIVERY;
    }
  }

  lemma TouchedFields(a: Accum, sender: string, payload: nat, now: nat)
    ensures
      var b := Touched(a, sender, payload, now);
      && b.bytes == (a.bytes + payload) % 0x1_0000_0000_0000_0000 && b.lastMs == now
      && (|a.bySender| < 32 ==> sender in b.bySender)
  {
  }

  lemma RealFrame(s: State, key: string, id: seq<Byte>, sender: string, payload: nat)
    requires !AllZero(id) && key == HexOfBytes(id)
    ensures
      Next(s, Frame(id, sender, payload)) ==
        s.(accum := s.accum[key := Touched(if key in s.accum then s.accum[key] else Accum(0, 0, map[]), sender, payload, s.clock)])
  {
  }

  /** Every forwarded frame with a delivery id enters the accounts of that delivery, bytes, time and sender, and of no
      other; a frame whose sixteen id bytes are all zero enters none. */
  lemma FrameIsAccounted(s: State, id: seq<Byte>, sender: string, payload: nat, key: string)
    requires |id| == 16 && key == HexOfBytes(id)
    ensures id == NO_DELIVERY ==> Next(s, Frame(id, sender, payload)) == s
    ensures id != NO_DELIVERY ==>
              var t := Next(s, Frame(id, sender, payload));
              && key in t.accum && t.accum[key].lastMs == s.clock
              && LiveBytes(t, key) == (LiveBytes(s, key) + payload) % 0x1_0000_0000_0000_0000
              && (key !in s.accum ==> sender in t.accum[key].bySender)
              && t == s.(accum := s.accum[key := t.accum[key]])
  {
    NoDeliveryIff(id);
    if id != NO_DELIVERY {
      RealFrameFields(s, key, id, sender, payload);
    }
  }

  lemma RealFrameFields(s: State, key: string, id: seq<Byte>, sender: string, payload: nat)
    requires !AllZero(id) && key == HexOfBytes(id)
    ensures
      var t := Next(s, Frame(id, sender, payload));
      && key in t.accum && t.accum[key].lastMs == s.clock
      && LiveBytes(t, key) == (LiveBytes(s, key) + payload) % 0x1_0000_0000_0000_0000
      && (key !in s.accum ==> sender in t.accum[key].bySender)
      && t == s.(accum := s.accum[key := t.accum[key]])
  {
    var a := if key in s.accum then s.accum[key] else Accum(0, 0, map[]);
    RealFrame(s, key, id, sender, payload);
    TouchedFields(a, sender, payload, s.clock);
  }

  // ---- Conservation -------------------------------------------------------

  function ReportedBy(s: State, e: Event, key: string): nat {
    if e.Reap? && Flushes(s, key) then LiveBytes(s, key) else 0
  }

  function CountedBy(e: Event, id: seq<Byte>): nat { if CountsFor(e, id) then e.payload else 0 }

  lemma FrameConserves(s: State, e: Event, id: seq<Byte>)
    requires e.Frame?
    ensures LiveBytes(Next(s, e), HexOfBytes(id)) <= LiveBytes(s, HexOfBytes(id)) + CountedBy(e, id)
    ensures LiveBytes(s, HexOfBytes(id)) + CountedBy(e, id) < U64_RANGE ==>
              LiveBytes(Next(s, e), HexOfBytes(id)) == LiveBytes(s, HexOfBytes(id)) + CountedBy(e, id)
  {
    DistinctKeys(id, e.id);
    if CountsFor(e, id) {
      assert LiveBytes(Next(s, e), HexOfBytes(id)) == Add64(LiveBytes(s, HexOfBytes(id)), e.payload);
    }
  }

  lemma StepConserves(s: State, e: Event, id: seq<Byte>)
    ensures LiveBytes(Next(s, e), HexOfBytes(id)) + ReportedBy(s, e, HexOfBytes(id))
            <= LiveBytes(s, HexOfBytes(id)) + CountedBy(e, id)
    ensures LiveBytes(s, HexOfBytes(id)) + CountedBy(e, id) < U64_RANGE ==>
              LiveBytes(Next(s, e), HexOfBytes(id)) + ReportedBy(s, e, HexOfBytes(id))
              == LiveBytes(s, HexOfBytes(id)) + CountedBy(e, id)
  {
    if e.Frame? {
      FrameConserves(s, e, id);
    }
  }

  /** Every forwarded byte is in the live accumulator or in a flushed report, and neither invents any:
      exactly so until 2^64 bytes have gone through one delivery id. */
  lemma {:induction false} DeliveryConservation(es: seq<Event>, id: seq<Byte>)
    ensures LiveBytes(Run(es), HexOfBytes(id)) + ReportedBytes(es, id) <= ForwardedBytes(es, id)
    ensures ForwardedBytes(es, id) < U64_RANGE ==>
              LiveBytes(Run(es), HexOfBytes(id)) + ReportedBytes(es, id) == ForwardedBytes(es, id)
  {
    if es != [] {
      DeliveryConservation(es[..|es| - 1], id);
      StepConserves(Run(es[..|es| - 1]), es[|es| - 1], id);
    }
  }

  ghost predicate Attributes(a: Accum, senders: set<string>) {
    && a.bySender.Keys <= senders
    && |a.bySender.Keys| <= MAX_SENDERS
    && (|a.bySender.Keys| < MAX_SENDERS ==> a.bySender.Keys == senders)
    && Sum(a.bySender) <= a.bytes
    && (a.bySender.Keys == senders ==> Sum(a.bySender) == a.bytes)
  }

  lemma TouchKnownSender(a: Accum, senders: set<string>, sender: string, payload: nat, now: nat)
    requires a.bytes + payload < U64_RANGE && Attributes(a, senders) && sender in a.bySender
    ensures Attributes(Touched(a, sender, payload, now), senders + {sender})
  {
    var had := a.bySender[sender];
    SlotFits(a, senders, sender);
    var b := Touched(a, sender, payload, now);
    assert b.bySender == a.bySender[sender := had + payload];
    assert b.bySender.Keys == a.bySender.Keys && senders + {sender} == senders;
    SumUpdate(a.bySender, sender, had + payload);
  }

  lemma SlotFits(a: Accum, senders: set<string>, sender: string)
    requires Attributes(a, senders) && sender in a.bySender
    ensures a.bySender[sender] <= a.bytes
  {
    SumSplit(a.bySender, sender);
  }

  lemma TouchNewSender(a: Accum, senders: set<string>, sender: string, payload: nat, now: nat)
    requires a.bytes + payload < U64_RANGE && Attributes(a, senders) && sender !in a.bySender
    ensures Attributes(Touched(a, sender, payload, now), senders + {sender})
  {
    if |a.bySender| < MAX_SENDERS {
      SlotTaken(a, senders, sender, payload, now);
    } else {
      SlotsFull(a, senders, sender, payload, now);
    }
  }

  lemma SlotTaken(a: Accum, senders: set<string>, sender: string, payload: nat, now: nat)
    requires a.bytes + payload < U64_RANGE && Attributes(a, senders) && sender !in a.bySender
    requires |a.bySender| < MAX_SENDERS
    ensures Attributes(Touched(a, sender, payload, now), senders + {sender})
  {
    var slots := a.bySender[sender := payload];
    assert Touched(a, sender, payload, now) == Accum(a.bytes + payload, now, slots);
    assert |a.bySender.Keys| == |a.bySender| && a.bySender.Keys == senders;
    assert slots.Keys == a.bySender.Keys + {sender} && |slots.Keys| == |a.bySender.Keys| + 1;
    SumUpdate(a.bySender, sender, payload);
  }

  lemma SlotsFull(a: Accum, senders: set<string>, sender: string, payload: nat, now: nat)
    requires a.bytes + payload < U64_RANGE && Attributes(a, senders) && sender !in a.bySender
    requires |a.bySender| >= MAX_SENDERS
    ensures Attributes(Touched(a, sender, payload, now), senders + {sender})
  {
    assert |a.bySender.Keys| == |a.bySender|;
    assert sender in senders + {sender};
  }

  ghost predicate Attributed(es: seq<Event>, id: seq<Byte>)
  {
    var s, key, senders := Run(es), HexOfBytes(id), SendersSinceFlush(es, id);
    if key in s.accum then Attributes(s.accum[key], senders)
    else senders == {}
  }

  /** Within an accumulator the per-sender bytes never exceed the total, and sum to it while every sender
      since the last flush found room among the 32 slots. */
  lemma {:induction false} SenderAttribution(es: seq<Event>, id: seq<Byte>)
    requires ForwardedBytes(es, id) < U64_RANGE && !AllZero(id)
    ensures Attributed(es, id)
    ensures |SendersSinceFlush(es, id)| <= MAX_SENDERS && HexOfBytes(id) in Run(es).accum ==>
              Sum(Run(es).accum[HexOfBytes(id)].bySender) == Run(es).accum[HexOfBytes(id)].bytes
  {
    if es != [] {
      var p, e := es[..|es| - 1], es[|es| - 1];
      var s, key := Run(p), HexOfBytes(id);
      SenderAttribution(p, id);
      if e.Frame? {
        DistinctKeys(id, e.id);
      }
      if CountsFor(e, id) {
        DeliveryConservation(p, id);
        assert Sum<string>(map[]) == 0;
        var a := if key in s.accum then s.accum[key] else Accum(0, 0, map[]);
        if e.sender in a.bySender {
          TouchKnownSender(a, SendersSinceFlush(p, id), e.sender, e.payload, s.clock);
        } else {
          TouchNewSender(a, SendersSinceFlush(p, id), e.sender, e.payload, s.clock);
        }
      }
      var t := Run(es);
      if key in t.accum && |SendersSinceFlush(es, id)| <= MAX_SENDERS {
        SubsetOfSameSize(t.accum[key].bySender.Keys, SendersSinceFlush(es, id));
      }
    }
  }

  /** Bytes one sender pushed through a delivery since its last flush. */
  function BytesFrom(es: seq<Event>, id: seq<Byte>, sender: string): nat {
    if es == [] then 0
    else
      var p, e := es[..|es| - 1], es[|es| - 1];
      if CountsFor(e, id) then BytesFrom(p, id, sender) + (if e.sender == sender then e.payload else 0)
      else if e.Reap? && Flushes(Run(p), HexOfBytes(id)) then 0
      else BytesFrom(p, id, sender)
  }

  lemma {:induction false} UnseenSenderHasNoBytes(es: seq<Event>, id: seq<Byte>, sender: string)
    requires sender !in SendersSinceFlush(es, id)
    ensures BytesFrom(es, id, sender) == 0
  {
    if es != [] {
      if !(es[|es| - 1].Reap? && Flushes(Run(es[..|es| - 1]), HexOfBytes(id))) {
        UnseenSenderHasNoBytes(es[..|es| - 1], id, sender);
      }
    }
  }

  ghost predicate Owns(es: seq<Event>, id: seq<Byte>, sender: string) {
    var s, key := Run(es), HexOfBytes(id);
    key in s.accum && sender in s.accum[key].bySender ==> s.accum[key].bySender[sender] == BytesFrom(es, id, sender)
  }

  /** A sender that holds a slot is credited with exactly its own bytes. */
  lemma {:induction false} CreditIsExact(es: seq<Event>, id: seq<Byte>, sender: string)
    requires ForwardedBytes(es, id) < U64_RANGE && !AllZero(id)
    ensures Owns(es, id, sender)
  {
    if es != [] {
      var p, e := es[..|es| - 1], es[|es| - 1];
      CreditIsExact(p, id, sender);
      if e.Frame? {
        DistinctKeys(id, e.id);
      }
      if CountsFor(e, id) && e.sender == sender {
        DeliveryConservation(p, id);
        SenderAttribution(p, id);
        if sender !in SendersSinceFlush(p, id) {
          UnseenSenderHasNoBytes(p, id, sender);
        }
        var s, key := Run(p), HexOfBytes(id);
        assert Sum<string>(map[]) == 0;
        TouchCredits(if key in s.accum then s.accum[key] else Accum(0, 0, map[]), SendersSinceFlush(p, id),
                     sender, e.payload, s.clock, BytesFrom(p, id, sender));
      }
    }
  }

  lemma TouchCredits(a: Accum, senders: set<string>, sender: string, payload: nat, now: nat, had: nat)
    requires a.bytes + payload < U64_RANGE && Attributes(a, senders)
    requires sender in a.bySender ==> a.bySender[sender] == had
    requires sender !in senders ==> had == 0
    ensures sender in Touched(a, sender, payload, now).bySender ==>
              Touched(a, sender, payload, now).bySender[sender] == had + payload
  {
    assert |a.bySender.Keys| == |a.bySender|;
    if sender in a.bySender {
      SumSplit(a.bySender, sender);
    } else if |a.bySender| < MAX_SENDERS {
      assert sender !in senders;
    }
  }

  /** Clock reading of the latest frame forwarded for a delivery. */
  function LastFrameMs(es: seq<Event>, id: seq<Byte>): nat {
    if es == [] then 0
    else if CountsFor(es[|es| - 1], id) then Run(es[..|es| - 1]).clock
    else LastFrameMs(es[..|es| - 1], id)
  }

  /** A live delivery is flushed by a reaper pass if and only if its last frame is more than 5000 ms old. */
  lemma {:induction false} FlushedIffIdle(es: seq<Event>, id: seq<Byte>)
    requires HexOfBytes(id) in Run(es).accum && !AllZero(id)
    ensures Run(es).accum[HexOfBytes(id)].lastMs == LastFrameMs(es, id)
    ensures Flushes(Run(es), HexOfBytes(id)) <==> LastFrameMs(es, id) + DELIVERY_IDLE_MS < Run(es).clock
  {
    var e := es[|es| - 1];
    if e.Frame? {
      DistinctKeys(id, e.id);
    }
    if !CountsFor(e, id) {
      FlushedIffIdle(es[..|es| - 1], id);
    }
  }

  lemma SubsetOfSameSize(a: set<string>, b: set<string>)
    requires a <= b
    ensures |a| <= |b|
    ensures |a| == |b| ==> a == b
  {
    assert b == a + (b - a);
  }

  // ---- Co-signing -----------------------------------------------------------

  /** No row or accumulator ever claims more than was forwarded. */
  ghost predicate Backed(es: seq<Event>, id: seq<Byte>) {
    var s, key := Run(es), HexOfBytes(id);
    && LiveBytes(s, key) <= ForwardedBytes(es, id)
    && (key in s.done ==> s.done[key].bytes <= ForwardedBytes(es, id))
  }

  lemma {:induction false} RowsAreBacked(es: seq<Event>, id: seq<Byte>)
    ensures Backed(es, id)
  {
    DeliveryConservation(es, id);
    if es != [] {
      RowsAreBacked(es[..|es| - 1], id);
    }
  }

  ghost predicate SignedAt(es: seq<Event>, i: nat, key: string)
    requires i < |es|
  {
    Signs(Run(es[..i]), es[i]) && es[i].did == key
  }

  /** Every signature is preceded by at least 65536 bytes forwarded on that very delivery id. */
  lemma SignatureNeedsRelayedBytes(es: seq<Event>, i: nat, id: seq<Byte>)
    requires i < |es| && SignedAt(es, i, HexOfBytes(id))
    ensures ForwardedBytes(es[..i], id) >= COSIGN_MIN_BYTES
  {
    RowsAreBacked(es[..i], id);
  }

  ghost predicate IsKey(es: seq<Event>, key: string) {
    exists i :: 0 <= i < |es| && es[i].Frame? && key == HexOfBytes(es[i].id)
  }

  /** Rows and accumulators exist only for delivery ids that some forwarded frame carried. */
  lemma {:induction false} KeysComeFromFrames(es: seq<Event>, key: string)
    ensures key in Run(es).accum || key in Run(es).done ==> IsKey(es, key)
  {
    if es != [] {
      var p := es[..|es| - 1];
      KeysComeFromFrames(p, key);
      if IsKey(p, key) {
        var i :| 0 <= i < |p| && p[i].Frame? && key == HexOfBytes(p[i].id);
        assert es[i] == p[i];
      }
      if es[|es| - 1].Frame? && key == HexOfBytes(es[|es| - 1].id) {
        assert IsKey(es, key);
      }
    }
  }

  /** So no request string that is not the key of a relayed delivery is ever signed. */
  lemma SignatureNamesRelayedDelivery(es: seq<Event>, i: nat)
    requires i < |es| && Signs(Run(es[..i]), es[i])
    ensures exists j :: 0 <= j < i && es[j].Frame? && es[i].did == HexOfBytes(es[j].id)
  {
    KeysComeFromFrames(es[..i], es[i].did);
    var j :| 0 <= j < |es[..i]| && es[..i][j].Frame? && es[i].did == HexOfBytes(es[..i][j].id);
    assert es[j] == es[..i][j];
  }

  ghost predicate ErasedAt(es: seq<Event>, k: nat, key: string)
    requires k < |es|
  {
    es[k].Reap? && Expires(Run(es[..k]), key)
  }

  lemma PrefixSnoc(es: seq<Event>, k: nat)
    requires k < |es|
    ensures Run(es[..k + 1]) == Next(Run(es[..k]), es[k])
  {
    assert es[..k + 1][..k] == es[..k];
  }

  // ---- Whose delivery it is ---------------------------------------------------

  /** A request for the delivery that the node can corroborate from its own records. */
  predicate Asks(es: seq<Event>, e: Event, did: string) { e.Cosign? && e.did == did && Corroborated(Run(es), e) }

  /** The session a delivery belongs to: a corroborated request takes an unowned delivery, whether or not its
      digest is then accepted, and the erasure of the row gives it back. */
  function Holder(es: seq<Event>, did: string): string {
    if es == [] then ""
    else
      var p, e := es[..|es| - 1], es[|es| - 1];
      if Asks(p, e, did) && Holder(p, did) == "" then e.session
      else if e.Reap? && Expires(Run(p), did) then ""
      else Holder(p, did)
  }

  lemma {:induction false} HolderIsBound(es: seq<Event>, did: string)
    ensures Holder(es, did) == SessionIn(Run(es).done, did)
  {
    if es != [] {
      HolderIsBound(es[..|es| - 1], did);
    }
  }

  /** In every reachable state a request is signed if and only if it is corroborated, its digest is right, and
      the delivery is unowned or already belongs to its session. */
  lemma CosignedIff(es: seq<Event>, e: Event)
    requires e.Cosign?
    ensures Signs(Run(es), e) <==>
              Asks(es, e, e.did) && e.digestOk && (Holder(es, e.did) == "" || Holder(es, e.did) == e.session)
  {
    HolderIsBound(es, e.did);
  }

  ghost predicate AskedAt(es: seq<Event>, i: nat, did: string)
    requires i < |es|
  {
    Asks(es[..i], es[i], did)
  }

  /** No row of the delivery is erased by the events from `i` up to `j`. */
  ghost predicate Unerased(es: seq<Event>, i: nat, j: nat, did: string)
    requires j <= |es|
  {
    forall k :: i <= k < j ==> !ErasedAt(es, k, did)
  }

  /** A delivery that somebody asked for has an owner until its row is erased; in particular a flush keeps it. */
  lemma BindingHolds(es: seq<Event>, i: nat, j: nat, did: string)
    requires i < j <= |es| && AskedAt(es, i, did) && Unerased(es, i + 1, j, did)
    ensures Holder(es[..j], did) == (if Holder(es[..i], did) == "" then es[i].session else Holder(es[..i], did)) != ""
  {
    OwnerStays(es, i, j, did);
  }

  /** The owner after the first k events. */
  ghost function OwnerAt(es: seq<Event>, k: nat, did: string): string
    requires k <= |es|
  {
    Holder(es[..k], did)
  }

  lemma {:induction false} OwnerStays(es: seq<Event>, i: nat, j: nat, did: string)
    requires i < j <= |es| && AskedAt(es, i, did) && Unerased(es, i + 1, j, did)
    ensures OwnerAt(es, j, did) == (if OwnerAt(es, i, did) == "" then es[i].session else OwnerAt(es, i, did)) != ""
    decreases j
  {
    HolderStep(es, j - 1, did);
    if i == j - 1 {
      AskerIsNamed(es, i, did);
    } else {
      OwnerStays(es, i, j - 1, did);
      assert !ErasedAt(es, j - 1, did);
    }
  }

  lemma AskerIsNamed(es: seq<Event>, i: nat, did: string)
    requires i < |es| && AskedAt(es, i, did)
    ensures es[i].session != ""
  {
  }

  lemma HolderStep(es: seq<Event>, k: nat, did: string)
    requires k < |es|
    ensures OwnerAt(es, k + 1, did) ==
              if AskedAt(es, k, did) && OwnerAt(es, k, did) == "" then es[k].session
              else if ErasedAt(es, k, did) then "" else OwnerAt(es, k, did)
  {
    assert es[..k + 1][..k] == es[..k];
  }

  /** It has none as long as nobody asked since its row was erased. */
  lemma {:induction false} UnownedUntilAsked(es: seq<Event>, k: nat, j: nat, did: string)
    requires k < j <= |es| && ErasedAt(es, k, did)
    requires forall i :: k < i < j ==> !AskedAt(es, i, did)
    ensures Holder(es[..j], did) == ""
    decreases j
  {
    HolderStep(es, j - 1, did);
    if k < j - 1 {
      UnownedUntilAsked(es, k, j - 1, did);
      assert !AskedAt(es, j - 1, did);
    }
  }

  ghost predicate LastErasure(es: seq<Event>, k: nat, did: string) {
    k < |es| && ErasedAt(es, k, did) && Unerased(es, k + 1, |es|, did)
  }

  /** The first corroborated request after position k. */
  ghost predicate FirstRequest(es: seq<Event>, k: nat, m: nat, did: string)
    requires m < |es|
  {
    k < m && AskedAt(es, m, did) && forall l :: k < l < m ==> !AskedAt(es, l, did)
  }

  lemma {:induction false} FindFirstRequest(es: seq<Event>, k: nat, m: nat, did: string) returns (first: nat)
    requires k < m < |es| && AskedAt(es, m, did)
    ensures first <= m && FirstRequest(es, k, first, did)
    decreases m
  {
    if l :| k < l < m && AskedAt(es, l, did) {
      first := FindFirstRequest(es, k, l, did);
    } else {
      first := m;
    }
  }

  lemma {:induction false} FindLastErasure(es: seq<Event>, k: nat, did: string) returns (last: nat)
    requires k < |es| && ErasedAt(es, k, did)
    ensures k <= last && LastErasure(es, last, did)
    decreases |es| - k
  {
    if l :| k < l < |es| && ErasedAt(es, l, did) {
      last := FindLastErasure(es, l, did);
    } else {
      last := k;
    }
  }

  /** Since the last erasure the delivery belongs to whoever asked first. */
  lemma HolderIsFirstAsker(es: seq<Event>, k: nat, did: string)
    requires LastErasure(es, k, did)
    ensures Holder(es, did) == "" <==> forall m :: k < m < |es| ==> !AskedAt(es, m, did)
    ensures forall m :: k < m < |es| && FirstRequest(es, k, m, did) ==> Holder(es, did) == es[m].session
  {
    assert es[..|es|] == es;
    forall m | k < m < |es| && FirstRequest(es, k, m, did)
      ensures Holder(es, did) == es[m].session != ""
    {
      UnownedUntilAsked(es, k, m, did);
      BindingHolds(es, m, |es|, did);
    }
    if m :| k < m < |es| && AskedAt(es, m, did) {
      var first := FindFirstRequest(es, k, m, did);
    } else {
      UnownedUntilAsked(es, k, |es|, did);
    }
  }

  /** After a signature for one session a request for another is signed if and only if it is corroborated, its
      digest is right, the row has been erased since, and the first to ask after the last erasure, if anybody
      did, was this same other session. */
  lemma SecondSessionIff(es: seq<Event>, i: nat, e: Event)
    requires e.Cosign? && i < |es| && SignedAt(es, i, e.did) && e.session != es[i].session
    ensures Signs(Run(es), e) <==>
              && Asks(es, e, e.did) && e.digestOk
              && exists k :: i < k < |es| && LastErasure(es, k, e.did)
                   && forall m :: k < m < |es| && FirstRequest(es, k, m, e.did) ==> es[m].session == e.session
  {
    CosignedIff(es, e);
    CosignedIff(es[..i], es[i]);
    if k :| i < k < |es| && LastErasure(es, k, e.did) {
      OnlyLastErasure(es, k, e.did);
      HolderIsFirstAsker(es, k, e.did);
      if m :| k < m < |es| && AskedAt(es, m, e.did) {
        var first := FindFirstRequest(es, k, m, e.did);
      }
    } else {
      assert Unerased(es, i + 1, |es|, e.did) by {
        if k :| i < k < |es| && ErasedAt(es, k, e.did) {
          var last := FindLastErasure(es, k, e.did);
        }
      }
      assert es[..|es|] == es;
      BindingHolds(es, i, |es|, e.did);
    }
  }

  lemma OnlyLastErasure(es: seq<Event>, k: nat, did: string)
    requires LastErasure(es, k, did)
    ensures forall l :: LastErasure(es, l, did) ==> l == k
  {
  }

  /** All signatures in one lifetime of the delivery's row name the same session. */
  lemma OneSessionPerRow(es: seq<Event>, i: nat, j: nat, key: string)
    requires i < j < |es| && SignedAt(es, i, key) && SignedAt(es, j, key)
    ensures es[i].session == es[j].session || exists k :: i < k < j && ErasedAt(es, k, key)
  {
    if forall k :: i < k < j ==> !ErasedAt(es, k, key) {
      CosignedIff(es[..i], es[i]);
      CosignedIff(es[..j], es[j]);
      BindingHolds(es, i, j, key);
    }
  }

  /** While its row stands, the session that took the delivery shuts out every other, whatever else the request
      carries. It need not have been signed itself: a request refused for its digest claims the delivery too. */
  lemma BoundRowRefuses(es: seq<Event>, i: nat, j: nat, e: Event)
    requires i < j <= |es| && e.Cosign? && AskedAt(es, i, e.did) && Unerased(es, i + 1, j, e.did)
    ensures var owner := if Holder(es[..i], e.did) == "" then es[i].session else Holder(es[..i], e.did);
            && (e.session != owner ==> !Signs(Run(es[..j]), e))
            && (e.session == owner ==> (Signs(Run(es[..j]), e) <==> Asks(es[..j], e, e.did) && e.digestOk))
  {
    BindingHolds(es, i, j, e.did);
    CosignedIff(es[..j], e);
  }

  /** When a row is erased while its stream still runs, or is flushed by the same pass, the delivery can be
      signed at once for any session. */
  lemma ErasureSignsAnew(es: seq<Event>, k: nat, e: Event)
    requires e.Cosign? && k + 1 == |es| && ErasedAt(es, k, e.did)
    requires e.proofOk && e.session != "" && |e.did| == 32 && LiveBytes(Run(es[..k]), e.did) >= COSIGN_MIN_BYTES
    ensures Signs(Run(es), e) <==> e.digestOk
  {
    assert es[..|es|] == es;
    PrefixSnoc(es, k);
    UnownedUntilAsked(es, k, |es|, e.did);
    CosignedIff(es, e);
  }

  lemma {:induction false} ClockGrows(es: seq<Event>, n: nat, m: nat)
    requires n <= m <= |es|
    ensures Run(es[..n]).clock <= Run(es[..m]).clock
    decreases m
  {
    if n < m {
      ClockGrows(es, n, m - 1);
      ClockStep(es, m - 1);
    }
  }

  lemma ClockStep(es: seq<Event>, k: nat)
    requires k < |es|
    ensures Run(es[..k]).clock <= Run(es[..k + 1]).clock
  {
    PrefixSnoc(es, k);
  }

  lemma {:induction false} StampsArePast(es: seq<Event>, key: string)
    ensures key in Run(es).done ==> Run(es).done[key].flushedMs <= Run(es).clock
  {
    if es != [] {
      StampsArePast(es[..|es| - 1], key);
    }
  }

  /** A row outlives its stamp, set when it is created and at every flush, by at least 900000 ms. */
  lemma {:induction false} RowSurvives(es: seq<Event>, n: nat, m: nat, key: string)
    requires n <= m <= |es| && key in Run(es[..n]).done
    requires Run(es[..m]).clock <= Run(es[..n]).done[key].flushedMs + COSIGN_MEMORY_MS
    ensures key in Run(es[..m]).done && Run(es[..m]).done[key].flushedMs >= Run(es[..n]).done[key].flushedMs
    decreases m
  {
    if n < m {
      PrefixSnoc(es, m - 1);
      ClockStep(es, m - 1);
      RowSurvives(es, n, m - 1, key);
      StampsArePast(es[..m - 1], key);
      RowStays(Run(es[..m - 1]), es[m - 1], key);
    }
  }

  lemma RowStays(s: State, e: Event, key: string)
    requires key in s.done && s.done[key].flushedMs <= s.clock && !(e.Reap? && Expires(s, key))
    ensures key in Next(s, e).done && Next(s, e).done[key].flushedMs >= s.done[key].flushedMs
  {
  }

  /** The row that a corroborated request creates, signed or not, and the row a flush leaves behind carry the
      time of that step. */
  lemma StampOfStep(es: seq<Event>, i: nat, key: string)
    requires i < |es|
    ensures AskedAt(es, i, key) && key !in Run(es[..i]).done ==>
              key in Run(es[..i + 1]).done && Run(es[..i + 1]).done[key].flushedMs == Run(es[..i]).clock
    ensures es[i].Reap? && Flushes(Run(es[..i]), key) ==>
              key in Run(es[..i + 1]).done && Run(es[..i + 1]).done[key].flushedMs == Run(es[..i]).clock
  {
    PrefixSnoc(es, i);
  }

  // ---- How old the evidence can be --------------------------------------------

  /** Payload bytes forwarded for a delivery since its last flush: one accumulator lifetime. */
  function BytesSinceFlush(es: seq<Event>, id: seq<Byte>): nat {
    if es == [] then 0
    else
      var p, e := es[..|es| - 1], es[|es| - 1];
      if e.Reap? && Flushes(Run(p), HexOfBytes(id)) then 0 else BytesSinceFlush(p, id) + CountedBy(e, id)
  }

  function LastReapMs(es: seq<Event>): nat {
    if es == [] then 0
    else if es[|es| - 1].Reap? then Run(es[..|es| - 1]).clock
    else LastReapMs(es[..|es| - 1])
  }

  /** Reaper passes are at most `gap` ms apart. */
  ghost predicate Reaped(es: seq<Event>, gap: nat) {
    forall k :: 0 <= k <= |es| ==> Run(es[..k]).clock <= LastReapMs(es[..k]) + gap
  }

  /** A row stamped when the clock read 0 counts as unstamped, so the next request stamps it once more. */
  function Restamp(at: nat, gap: nat): nat { if at == 0 then COSIGN_MEMORY_MS + gap else 0 }

  /** The bytes in a row were relayed within one accumulator lifetime, which was still live when the row was
      stamped and had seen a frame shortly before. */
  ghost predicate Vouched(es: seq<Event>, id: seq<Byte>, d: Done, n: nat, gap: nat) {
    && n <= |es|
    && d.bytes <= BytesSinceFlush(es[..n], id)
    && d.flushedMs <= Run(es[..n]).clock + Restamp(Run(es[..n]).clock, gap)
    && (d.flushedMs == 0 ==> Run(es[..n]).clock == 0)
    && LastFrameMs(es[..n], id) <= Run(es[..n]).clock <= LastFrameMs(es[..n], id) + DELIVERY_IDLE_MS + gap
  }

  ghost predicate Fresh(es: seq<Event>, id: seq<Byte>, gap: nat) {
    var s, key := Run(es), HexOfBytes(id);
    && LastReapMs(es) <= s.clock
    && LiveBytes(s, key) <= BytesSinceFlush(es, id)
    && LastFrameMs(es, id) <= s.clock
    && (key in s.accum ==> LastReapMs(es) <= LastFrameMs(es, id) + DELIVERY_IDLE_MS)
    && (key in s.done && s.done[key].bytes > 0 ==>
          && LastReapMs(es) <= s.done[key].flushedMs + COSIGN_MEMORY_MS
          && exists n :: Vouched(es, id, s.done[key], n, gap))
  }

  lemma VouchedStays(es: seq<Event>, id: seq<Byte>, d: Done, n: nat, gap: nat, c: Done)
    requires es != [] && Vouched(es[..|es| - 1], id, d, n, gap) && c.bytes == d.bytes
    requires c.flushedMs == d.flushedMs || (d.flushedMs == 0 && 0 < c.flushedMs <= COSIGN_MEMORY_MS + gap)
    ensures Vouched(es, id, c, n, gap)
  {
    assert es[..|es| - 1][..n] == es[..n];
  }

  lemma ReapedPrefix(es: seq<Event>, gap: nat)
    requires es != [] && Reaped(es, gap)
    ensures Reaped(es[..|es| - 1], gap)
    ensures Run(es[..|es| - 1]).clock <= LastReapMs(es[..|es| - 1]) + gap
  {
    var p := es[..|es| - 1];
    forall k | 0 <= k <= |p|
      ensures p[..k] == es[..k]
    {
    }
  }

  /** Whatever stamps a row at this step finds a live accumulator, and so a recent frame. */
  lemma StampIsVouched(es: seq<Event>, id: seq<Byte>, d: Done, gap: nat)
    requires es != [] && !AllZero(id)
    requires
      var p := es[..|es| - 1];
      var s, key := Run(p), HexOfBytes(id);
      && Fresh(p, id, gap) && key in s.accum && s.clock <= LastReapMs(p) + gap
      && d.flushedMs == s.clock && d.bytes == s.accum[key].bytes
    ensures Vouched(es, id, d, |es| - 1, gap)
  {
  }

  lemma {:induction false} EvidenceIsFresh(es: seq<Event>, id: seq<Byte>, gap: nat)
    requires Reaped(es, gap) && !AllZero(id)
    ensures Fresh(es, id, gap)
  {
    if es != [] {
      var p, e := es[..|es| - 1], es[|es| - 1];
      var s, t, key := Run(p), Run(es), HexOfBytes(id);
      ReapedPrefix(es, gap);
      EvidenceIsFresh(p, id, gap);
      StepConserves(s, e, id);
      if key in s.accum {
        FlushedIffIdle(p, id);
      }
      if e.Frame? {
        DistinctKeys(id, e.id);
      }
      if key in t.done && t.done[key].bytes > 0 {
        if (e.Reap? && Flushes(s, key)) || (e.Cosign? && key !in s.done) {
          StampIsVouched(es, id, t.done[key], gap);
        } else {
          var n :| Vouched(p, id, s.done[key], n, gap);
          VouchedStays(es, id, s.done[key], n, gap, t.done[key]);
        }
      }
    }
  }

  ghost predicate FrameAt(es: seq<Event>, j: nat, id: seq<Byte>) { j < |es| && CountsFor(es[j], id) }

  lemma {:induction false} LastFrameIsOne(es: seq<Event>, id: seq<Byte>) returns (j: nat)
    requires BytesSinceFlush(es, id) > 0
    ensures FrameAt(es, j, id) && Run(es[..j]).clock == LastFrameMs(es, id)
  {
    var p := es[..|es| - 1];
    if CountsFor(es[|es| - 1], id) {
      j := |es| - 1;
    } else {
      j := LastFrameIsOne(p, id);
      assert p[..j] == es[..j];
    }
  }

  /** The burst of bytes that backs a signature: enough of them, in one accumulator lifetime, at moment n. */
  ghost predicate Earned(es: seq<Event>, id: seq<Byte>, n: nat) {
    n <= |es| && BytesSinceFlush(es[..n], id) >= COSIGN_MIN_BYTES
  }

  /** A captured delivery id is no standing signing capability. With reaper passes at most `gap` ms apart every
      signature rests on 65536 bytes of a single accumulator lifetime that was live within the last
      900000 + gap ms, and on a frame of that delivery within the last 905000 + 2 * gap ms. Only evidence from
      clock reading 0 lasts one memory longer. */
  lemma SignatureIsFresh(es: seq<Event>, i: nat, id: seq<Byte>, gap: nat)
    requires i < |es| && SignedAt(es, i, HexOfBytes(id)) && Reaped(es[..i], gap)
    ensures exists n: nat :: Earned(es[..i], id, n)
              && var t := Run(es[..i][..n]).clock;
                 Run(es[..i]).clock <= t + COSIGN_MEMORY_MS + gap + Restamp(t, gap)
    ensures exists j: nat :: FrameAt(es[..i], j, id)
              && var t := Run(es[..i][..j]).clock;
                 Run(es[..i]).clock <= t + COSIGN_MEMORY_MS + DELIVERY_IDLE_MS + 2 * gap + Restamp(t, gap)
  {
    var p, key := es[..i], HexOfBytes(id);
    SignatureNeedsRelayedBytes(es, i, id);
    if AllZero(id) {
      NothingForwardedFor(p, id);
    }
    EvidenceIsFresh(p, id, gap);
    assert p[..|p|] == p;
    var n: nat := |p|;
    if key in Run(p).done {
      n :| Vouched(p, id, Run(p).done[key], n, gap);
    }
    assert Earned(p, id, n);
    var j := LastFrameIsOne(p[..n], id);
    assert p[..n][..j] == p[..j] && FrameAt(p, j, id);
  }

  lemma {:induction false} NothingForwardedFor(es: seq<Event>, id: seq<Byte>)
    requires AllZero(id)
    ensures ForwardedBytes(es, id) == 0
  {
    if es != [] {
      NothingForwardedFor(es[..|es| - 1], id);
    }
  }

  // ---- When a request is corroborated, told by the events --------------------------

  /** The delivery has an accumulator: a frame came in and no reaper pass has found it idle since. */
  predicate Live(es: seq<Event>, id: seq<Byte>) {
    es != [] &&
      var p, e := es[..|es| - 1], es[|es| - 1];
      CountsFor(e, id) || (Live(p, id) && !(e.Reap? && LastFrameMs(p, id) + DELIVERY_IDLE_MS < Run(p).clock))
  }

  predicate FallsIdle(es: seq<Event>, id: seq<Byte>) {
    Live(es, id) && LastFrameMs(es, id) + DELIVERY_IDLE_MS < Run(es).clock
  }

  datatype Memory = Forgotten | Remembered(bytes: nat, at: nat)

  predicate WellFormed(e: Event)
    requires e.Cosign?
  {
    e.proofOk && e.session != "" && |e.did| == 32
  }

  function BytesOf(m: Memory, es: seq<Event>, id: seq<Byte>): nat {
    if m.Remembered? then m.bytes else BytesSinceFlush(es, id)
  }

  /** What the node remembers of a delivery, from frames, requests, reaper passes and clock readings: a flush writes
      down the burst that ended, a request with enough behind it writes down the burst so far, and a pass 900000 ms
      later forgets. */
  function MemoryOf(es: seq<Event>, id: seq<Byte>): Memory {
    if es == [] then Forgotten
    else
      var p, e := es[..|es| - 1], es[|es| - 1];
      var m, now := MemoryOf(p, id), Run(p).clock;
      match e
      case Reap =>
        if FallsIdle(p, id) then Remembered(BytesSinceFlush(p, id), now)
        else if m.Remembered? && m.at + COSIGN_MEMORY_MS < now then Forgotten
        else m
      case Cosign(did, _, _, _) =>
        if did == HexOfBytes(id) && WellFormed(e) && BytesOf(m, p, id) >= COSIGN_MIN_BYTES
        then Remembered(BytesOf(m, p, id), if m.Remembered? && m.at > 0 then m.at else now)
        else m
      case _ => m
  }

  lemma {:induction false} LiveIsAccumulated(es: seq<Event>, id: seq<Byte>)
    requires !AllZero(id)
    ensures Live(es, id) <==> HexOfBytes(id) in Run(es).accum
    ensures FallsIdle(es, id) <==> Flushes(Run(es), HexOfBytes(id))
  {
    if es != [] {
      var p, e := es[..|es| - 1], es[|es| - 1];
      LiveIsAccumulated(p, id);
      if e.Frame? {
        DistinctKeys(id, e.id);
      }
    }
    if HexOfBytes(id) in Run(es).accum {
      FlushedIffIdle(es, id);
    }
  }

  lemma {:induction false} LiveBytesAreTold(es: seq<Event>, id: seq<Byte>)
    requires ForwardedBytes(es, id) < U64_RANGE
    ensures LiveBytes(Run(es), HexOfBytes(id)) == BytesSinceFlush(es, id)
  {
    if es != [] {
      var p, e := es[..|es| - 1], es[|es| - 1];
      LiveBytesAreTold(p, id);
      DeliveryConservation(p, id);
      StepConserves(Run(p), e, id);
    }
  }

  ghost predicate RowTells(s: State, key: string, m: Memory) {
    && (m.Remembered? <==> key in s.done)
    && (key in s.done ==> m == Remembered(s.done[key].bytes, s.done[key].flushedMs))
  }

  lemma ReapRemembers(s: State, key: string, m: Memory, burst: nat, idle: bool)
    requires RowTells(s, key, m) && burst == LiveBytes(s, key) && idle == Flushes(s, key)
    ensures RowTells(AfterReap(s), key,
              if idle then Remembered(burst, s.clock)
              else if m.Remembered? && m.at + COSIGN_MEMORY_MS < s.clock then Forgotten else m)
  {
  }

  lemma CosignRemembers(s: State, e: Event, key: string, m: Memory, burst: nat)
    requires RowTells(s, key, m) && burst == LiveBytes(s, key) && e.Cosign?
    ensures RowTells(AfterCosign(s, e), key,
              var bytes := if m.Remembered? then m.bytes else burst;
              if e.did == key && WellFormed(e) && bytes >= COSIGN_MIN_BYTES
              then Remembered(bytes, if m.Remembered? && m.at > 0 then m.at else s.clock) else m)
  {
  }

  lemma {:induction false} RowIsRemembered(es: seq<Event>, id: seq<Byte>)
    requires ForwardedBytes(es, id) < U64_RANGE && !AllZero(id)
    ensures RowTells(Run(es), HexOfBytes(id), MemoryOf(es, id))
  {
    if es != [] {
      var p, e, key := es[..|es| - 1], es[|es| - 1], HexOfBytes(id);
      RowIsRemembered(p, id);
      LiveBytesAreTold(p, id);
      LiveIsAccumulated(p, id);
      match e
      case Reap => ReapRemembers(Run(p), key, MemoryOf(p, id), BytesSinceFlush(p, id), FallsIdle(p, id));
      case Cosign(_, _, _, _) => CosignRemembers(Run(p), e, key, MemoryOf(p, id), BytesSinceFlush(p, id));
      case _ =>
    }
  }

  /** A request is corroborated if and only if it is well formed and the bytes on record are enough, where a memory,
      however small, hides whatever the delivery has relayed since. */
  lemma CorroboratedIff(es: seq<Event>, e: Event, id: seq<Byte>)
    requires e.Cosign? && e.did == HexOfBytes(id) && ForwardedBytes(es, id) < U64_RANGE && !AllZero(id)
    ensures Corroborated(Run(es), e) <==>
              WellFormed(e) && BytesOf(MemoryOf(es, id), es, id) >= COSIGN_MIN_BYTES
  {
    RowIsRemembered(es, id);
    LiveBytesAreTold(es, id);
  }

  /** So a first burst below the minimum shuts the delivery out: until its next flush or its erasure no request is
      signed, however much is relayed. */
  lemma {:induction false} SmallBurstShadows(es: seq<Event>, n: nat, m: nat, id: seq<Byte>)
    requires n <= m <= |es| && ForwardedBytes(es[..m], id) < U64_RANGE && !AllZero(id)
    requires MemoryOf(es[..n], id).Remembered? && MemoryOf(es[..n], id).bytes < COSIGN_MIN_BYTES
    requires forall k :: n <= k < m ==> !(es[k].Reap? && FallsIdle(es[..k], id)) && !ErasedAt(es, k, HexOfBytes(id))
    ensures MemoryOf(es[..m], id) == MemoryOf(es[..n], id)
    ensures forall e: Event :: e.Cosign? && e.did == HexOfBytes(id) ==> !Signs(Run(es[..m]), e)
    decreases m
  {
    if n < m {
      var p := es[..m - 1];
      assert es[..m][..m - 1] == p;
      SmallBurstShadows(es, n, m - 1, id);
      RowIsRemembered(p, id);
      assert !ErasedAt(es, m - 1, HexOfBytes(id));
    }
    forall e: Event | e.Cosign? && e.did == HexOfBytes(id)
      ensures !Signs(Run(es[..m]), e)
    {
      CorroboratedIff(es[..m], e, id);
    }
  }

  /** One byte, a pause and the real stream: its listener is refused while the stream runs and signed once it has
      been flushed. */
  lemma PausedStreamIsRefused(id: seq<Byte>, sender: string, big: nat, e: Event, es: seq<Event>)
    requires |id| == 16 && !AllZero(id) && COSIGN_MIN_BYTES <= big < U64_RANGE - 1
    requires e.Cosign? && e.did == HexOfBytes(id) && WellFormed(e) && e.digestOk
    requires es == [Frame(id, sender, 1), Tick(DELIVERY_IDLE_MS + 1), Reap, Frame(id, sender, big),
                    Tick(DELIVERY_IDLE_MS + 1), Reap]
    ensures BytesSinceFlush(es[..4], id) == big && !Signs(Run(es[..4]), e)
    ensures Signs(Run(es), e)
  {
    FirstBurst(id, sender, es);
    BurstTold(id, es, big);
    LastThree(es, Run(es[..3]), es[3], es[4]);
    SecondBurst(Run(es[..3]), id, HexOfBytes(id), sender, big, e);
  }

  lemma LastThree(es: seq<Event>, s: State, frame: Event, pause: Event)
    requires |es| == 6 && s == Run(es[..3]) && es[3] == frame && es[4] == pause && es[5] == Reap
    ensures Run(es[..4]) == Next(s, frame) && Run(es) == Next(Next(Next(s, frame), pause), Reap)
  {
    PrefixSnoc(es, 3);
    PrefixSnoc(es, 4);
    PrefixSnoc(es, 5);
    assert es[..6] == es;
  }

  lemma BurstTold(id: seq<Byte>, es: seq<Event>, big: nat)
    requires !AllZero(id) && |es| == 6 && BytesSinceFlush(es[..3], id) == 0
    requires es[3].Frame? && es[3].id == id && es[3].payload == big
    ensures BytesSinceFlush(es[..4], id) == big
    ensures es[..6] == es
  {
    assert es[..4][..3] == es[..3];
  }

  lemma FirstBurst(id: seq<Byte>, sender: string, es: seq<Event>)
    requires !AllZero(id) && |es| >= 3
    requires es[0] == Frame(id, sender, 1) && es[1] == Tick(DELIVERY_IDLE_MS + 1) && es[2] == Reap
    ensures Run(es[..3]) == State(map[], map[HexOfBytes(id) := Done(1, DELIVERY_IDLE_MS + 1, "")], DELIVERY_IDLE_MS + 1)
    ensures BytesSinceFlush(es[..3], id) == 0
  {
    var key := HexOfBytes(id);
    assert es[..0] == [];
    PrefixSnoc(es, 0);
    PrefixSnoc(es, 1);
    PrefixSnoc(es, 2);
    assert Run(es[..2]) == State(map[key := Accum(1, 0, map[sender := 1])], map[], DELIVERY_IDLE_MS + 1);
    assert es[..3][..2] == es[..2] && Flushes(Run(es[..2]), key);
  }

  lemma SecondBurst(s: State, id: seq<Byte>, key: string, sender: string, big: nat, e: Event)
    requires !AllZero(id) && key == HexOfBytes(id) && COSIGN_MIN_BYTES <= big < U64_RANGE - 1
    requires s == State(map[], map[key := Done(1, DELIVERY_IDLE_MS + 1, "")], DELIVERY_IDLE_MS + 1)
    requires e.Cosign? && e.did == key && WellFormed(e) && e.digestOk
    ensures
      var live := Next(s, Frame(id, sender, big));
      !Signs(live, e) && Signs(Next(Next(live, Tick(DELIVERY_IDLE_MS + 1)), Reap), e)
  {
    var live := Next(s, Frame(id, sender, big));
    var late := Next(live, Tick(DELIVERY_IDLE_MS + 1));
    assert late.accum[key].bytes == big && Flushes(late, key) && !Expires(late, key);
    assert Next(late, Reap).done[key] == Done(big, late.clock, "");
  }

  /** A stream that outlives its row is co-signed again: one accumulator, two sessions. The comment beside
      the check promises exactly one play per relayed stream; the code keeps that per row lifetime only. */
  lemma LongStreamSignsTwice(id: seq<Byte>, sender: string, one: string, two: string, es: seq<Event>)
    requires |id| == 16 && !AllZero(id) && one != "" && two != ""
    requires es == [Tick(1), Frame(id, sender, COSIGN_MIN_BYTES), Cosign(HexOfBytes(id), one, true, true),
                    Tick(COSIGN_MEMORY_MS + 1), Frame(id, sender, 1), Reap, Cosign(HexOfBytes(id), two, true, true)]
    ensures SignedAt(es, 2, HexOfBytes(id)) && SignedAt(es, 6, HexOfBytes(id))
    ensures LiveBytes(Run(es[..6]), HexOfBytes(id)) == COSIGN_MIN_BYTES + 1
  {
    SignsTwice(id, sender, one, two, es);
  }

  lemma SignsTwice(id: seq<Byte>, sender: string, one: string, two: string, es: seq<Event>)
    requires |id| == 16 && !AllZero(id) && one != "" && two != "" && |es| == 7
    requires es[0] == Tick(1) && es[1] == Frame(id, sender, COSIGN_MIN_BYTES)
    requires es[2] == Cosign(HexOfBytes(id), one, true, true) && es[3] == Tick(COSIGN_MEMORY_MS + 1)
    requires es[4] == Frame(id, sender, 1) && es[5] == Reap && es[6] == Cosign(HexOfBytes(id), two, true, true)
    ensures SignedAt(es, 2, HexOfBytes(id)) && SignedAt(es, 6, HexOfBytes(id))
    ensures LiveBytes(Run(es[..6]), HexOfBytes(id)) == COSIGN_MIN_BYTES + 1
  {
    var key := HexOfBytes(id);
    StreamSoFar(id, sender, es);
    RowOutlived(Run(es[..2]), id, key, sender, one);
    Unrolled(es);
    SignsAfterReap(es, es[6]);
    PrefixSnoc(es, 2);
  }

  lemma SignsAfterReap(es: seq<Event>, e: Event)
    requires |es| >= 6 && es[5] == Reap && e.Cosign? && Expires(Run(es[..5]), e.did)
    requires WellFormed(e) && e.digestOk && LiveBytes(Run(es[..5]), e.did) >= COSIGN_MIN_BYTES
    ensures Signs(Run(es[..6]), e)
  {
    assert es[..6][..5] == es[..5] && ErasedAt(es[..6], 5, e.did);
    ErasureSignsAnew(es[..6], 5, e);
  }

  lemma Unrolled(es: seq<Event>)
    requires |es| >= 6
    ensures Run(es[..5]) == Next(Next(Next(Run(es[..2]), es[2]), es[3]), es[4])
    ensures Run(es[..6]) == Next(Run(es[..5]), es[5])
  {
    PrefixSnoc(es, 2);
    PrefixSnoc(es, 3);
    PrefixSnoc(es, 4);
    PrefixSnoc(es, 5);
  }

  lemma RowOutlived(s: State, id: seq<Byte>, key: string, sender: string, one: string)
    requires !AllZero(id) && key == HexOfBytes(id) && |key| == 32 && one != ""
    requires s == State(map[key := Accum(COSIGN_MIN_BYTES, 1, map[sender := COSIGN_MIN_BYTES])], map[], 1)
    ensures
      var bound := Next(s, Cosign(key, one, true, true));
      var later := Next(Next(bound, Tick(COSIGN_MEMORY_MS + 1)), Frame(id, sender, 1));
      && Signs(s, Cosign(key, one, true, true))
      && Expires(later, key)
      && LiveBytes(later, key) == LiveBytes(Next(later, Reap), key) == COSIGN_MIN_BYTES + 1
  {
    var bound := Next(s, Cosign(key, one, true, true));
    assert bound == s.(done := map[key := Done(COSIGN_MIN_BYTES, 1, one)]);
    var later := Next(Next(bound, Tick(COSIGN_MEMORY_MS + 1)), Frame(id, sender, 1));
    assert later.accum[key].bytes == COSIGN_MIN_BYTES + 1 && later.accum[key].lastMs == later.clock;
    assert Expires(later, key) && !Flushes(later, key);
  }

  lemma StreamSoFar(id: seq<Byte>, sender: string, es: seq<Event>)
    requires |id| == 16 && !AllZero(id)
    requires |es| >= 2 && es[0] == Tick(1) && es[1] == Frame(id, sender, COSIGN_MIN_BYTES)
    ensures Run(es[..2]) == State(map[HexOfBytes(id) := Accum(COSIGN_MIN_BYTES, 1, map[sender := COSIGN_MIN_BYTES])], map[], 1)
  {
    assert es[..0] == [];
    PrefixSnoc(es, 0);
    PrefixSnoc(es, 1);
  }

  // ---- The tables, updated in place -------------------------------------------

  class Ledger {
    var accum: map<string, Accum>   // g_delivery_accum
    var done: map<string, Done>     // g_delivery_done
    var clock: nat                  // what mono_ms() reads

    ghost function View(): State
      reads this
    {
      State(accum, done, clock)
    }

    constructor ()
      ensures View() == Run([])
    {
      accum, done, clock := map[], map[], 0;
    }

    /** The accounting block at the end of on_relay_binary. */
    method OnForwarded(id: seq<Byte>, sender: string, payload: nat)
      modifies this`accum
      ensures View() == Next(old(View()), Frame(id, sender, payload))
    {
      var allZero := true;
      for i := 0 to |id|
        invariant allZero <==> forall j :: 0 <= j < i ==> id[j] == 0
      {
        if id[i] != 0 {
          allZero := false;
        }
      }
      if allZero {
        return;
      }
      var key := KeyOf(id);
      var a := if key in accum then accum[key] else Accum(0, 0, map[]);
      a := a.(bytes := (a.bytes + payload) % U64_RANGE, lastMs := clock);
      if |a.bySender| < MAX_SENDERS || sender in a.bySender {
        var had: UInt64 := if sender in a.bySender then a.bySender[sender] else 0;
        a := a.(bySender := a.bySender[sender := (had + payload) % U64_RANGE]);
      }
      accum := accum[key := a];
    }

    method KeyOf(id: seq<Byte>) returns (key: string)
      ensures key == HexOfBytes(id)
    {
      key := "";
      for i := 0 to |id|
        invariant key == HexOfBytes(id[..i])
      {
        HexOfBytesSnoc(id[..i], id[i]);
        assert id[..i + 1] == id[..i] + [id[i]];
        key := key + [HexDigit(id[i] / 16)] + [HexDigit(id[i] % 16)];
      }
      assert id[..|id|] == id;
    }

    /** The delivery checks of proof.cosign. */
    method CosignRequest(did: string, session: string, proofOk: bool, digestOk: bool) returns (signed: bool)
      modifies this`done
      ensures signed == Signs(old(View()), Cosign(did, session, proofOk, digestOk))
      ensures View() == Next(old(View()), Cosign(did, session, proofOk, digestOk))
    {
      if !proofOk || session == "" || |did| != 32 {
        return false;
      }
      var relayed: UInt64 := 0;
      if did in done {
        relayed := done[did].bytes;
      } else if did in accum {
        relayed := accum[did].bytes;
      }
      if relayed < COSIGN_MIN_BYTES {
        return false;
      }
      var d := if did in done then done[did] else Done(0, 0, "");
      if d.flushedMs == 0 {
        d := d.(flushedMs := clock);
      }
      if d.bytes == 0 {
        d := d.(bytes := relayed);
      }
      done := done[did := d];
      if d.session != "" && d.session != session {
        return false;
      }
      done := done[did := d.(session := session)];
      return digestOk;
    }

    /** Reaper job 4, first loop: forget the rows whose co-sign memory is over. */
    method ExpireRows()
      modifies this`done
      ensures done == map did | did in old(done) && !Expires(old(View()), did) :: old(done)[did]
    {
      ghost var s := View();
      var todo := done.Keys;
      while todo != {}
        invariant todo <= s.done.Keys
        invariant done == map did | did in s.done && (did in todo || !Expires(s, did)) :: s.done[did]
        decreases todo
      {
        var did :| did in todo;
        if done[did].flushedMs + COSIGN_MEMORY_MS < clock {
          done := done - {did};
        }
        todo := todo - {did};
      }
    }

    method MoveToRow(key: string) returns (a: Accum)
      requires key in accum
      modifies this`accum, this`done
      ensures a == old(accum)[key] && accum == old(accum) - {key}
      ensures done == old(done)[key := Done(a.bytes, clock, SessionIn(old(done), key))]
    {
      a := accum[key];
      var d := if key in done then done[key] else Done(0, 0, "");
      done := done[key := d.(bytes := a.bytes, flushedMs := clock)];
      accum := accum - {key};
    }

    /** Reaper job 4, second loop: move idle accumulators out into rows and reports. */
    method FlushIdle() returns (ready: map<string, Accum>)
      modifies this`accum, this`done
      ensures ready == ReadyAmong(old(View()), old(accum).Keys)
      ensures accum == old(accum) - ready.Keys
      ensures RowsFollow(old(done), ready, done, clock)
    {
      ghost var s := View();
      ready := map[];
      var todo := accum.Keys;
      while todo != {}
        invariant todo <= s.accum.Keys
        invariant ready == ReadyAmong(s, s.accum.Keys - todo)
        invariant accum == s.accum - ready.Keys
        invariant RowsFollow(s.done, ready, done, s.clock)
        decreases todo
      {
        var key :| key in todo;
        ReadyGrows(s, todo, key);
        if accum[key].lastMs + DELIVERY_IDLE_MS < clock {
          RowsGrow(s.done, ready, done, s.clock, key, accum[key]);
          var a := MoveToRow(key);
          ready := ready[key := a];
        }
        todo := todo - {key};
      }
      assert s.accum.Keys - {} == s.accum.Keys;
    }

    method ReapDeliveries() returns (ready: map<string, Accum>)
      modifies this`accum, this`done
      ensures View() == Next(old(View()), Reap)
      ensures ready == ReadyAmong(old(View()), old(accum).Keys)
    {
      ExpireRows();
      ghost var kept := done;
      ready := FlushIdle();
      TwoPassesReap(old(View()), kept, ready, done);
    }
  }

  function RowAfterFlush(kept: map<string, Done>, ready: map<string, Accum>, now: nat, key: string): Done
    requires key in kept || key in ready
  {
    if key in ready then Done(ready[key].bytes, now, SessionIn(kept, key)) else kept[key]
  }

  /** The accumulators among `keys` that a reaper pass flushes. */
  function ReadyAmong(s: State, keys: set<string>): map<string, Accum> {
    map key | key in s.accum && key in keys && Flushes(s, key) :: s.accum[key]
  }

  ghost predicate RowsFollow(kept: map<string, Done>, ready: map<string, Accum>, rows: map<string, Done>, now: nat) {
    && rows.Keys == kept.Keys + ready.Keys
    && forall key :: key in rows ==> rows[key] == RowAfterFlush(kept, ready, now, key)
  }

  lemma ReadyGrows(s: State, todo: set<string>, key: string)
    requires todo <= s.accum.Keys && key in todo
    ensures key !in ReadyAmong(s, s.accum.Keys - todo)
    ensures ReadyAmong(s, s.accum.Keys - (todo - {key})) ==
              if Flushes(s, key) then ReadyAmong(s, s.accum.Keys - todo)[key := s.accum[key]]
              else ReadyAmong(s, s.accum.Keys - todo)
  {
  }

  lemma RowsGrow(kept: map<string, Done>, ready: map<string, Accum>, rows: map<string, Done>, now: nat, key: string, a: Accum)
    requires key !in ready && RowsFollow(kept, ready, rows, now)
    ensures RowsFollow(kept, ready[key := a], rows[key := Done(a.bytes, now, SessionIn(rows, key))], now)
  {
  }

  lemma TwoPassesReap(s: State, kept: map<string, Done>, ready: map<string, Accum>, rows: map<string, Done>)
    requires kept == map did | did in s.done && !Expires(s, did) :: s.done[did]
    requires ready == ReadyAmong(s, s.accum.Keys)
    requires RowsFollow(kept, ready, rows, s.clock)
    ensures AfterReap(s) == State(s.accum - ready.Keys, rows, s.clock)
  {
    var flushed := map key | key in s.accum && Flushes(s, key) :: FlushedRow(s, key);
    assert flushed.Keys == ready.Keys;
    forall key | key in rows
      ensures rows[key] == (kept + flushed)[key]
    {
    }
    assert rows == kept + flushed;
  }

  /** The session of a row, or of the blank row that operator[] would create. */
  function SessionIn(done: map<string, Done>, key: string): string {
    if key in done then done[key].session else ""
  }

  lemma {:induction false} HexOfBytesSnoc(b: seq<Byte>, c: Byte)
    ensures HexOfBytes(b + [c]) == HexOfBytes(b) + [HexDigit(c / 16), HexDigit(c % 16)]
  {
    if b == [] {
      assert [c][1..] == [];
    } else {
      HexOfBytesSnoc(b[1..], c);
      assert (b + [c])[1..] == b[1..] + [c];
    }
  }
}
