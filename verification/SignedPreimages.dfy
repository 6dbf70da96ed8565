/** The byte strings the mini-node signs or checks signatures over: chat messages, room creation, moderation
    actions, relay reports and routes. No pre-hashing: the bytes themselves must be unambiguous. */
module SignedPreimages {
  import opened Bytes
  import opened Options

  type Address = a: seq<Byte> | |a| == 20 witness [0, 0, 0, 0, 0, 0, 0, 0, 0, 0, 0, 0, 0, 0, 0, 0, 0, 0, 0, 0]
  type DeliveryId = d: seq<Byte> | |d| == 16 witness [0, 0, 0, 0, 0, 0, 0, 0, 0, 0, 0, 0, 0, 0, 0, 0]

  const MSG_TAG: Text := [109, 99, 99, 104, 116, 49]    // mccht1
  const ROOM_TAG: Text := [109, 99, 99, 114, 109, 49]   // mccrm1
  const MOD_TAG: Text := [109, 99, 99, 109, 100, 49]    // mccmd1
  const REPORT_TAG: Text := [114, 101, 108, 97, 121, 46, 114, 101, 112, 111, 114, 116]   // relay.report
  const ROUTE_TAG: Text := [98, 111, 112, 119, 105, 114, 101, 45, 114, 111, 117, 116, 101, 45, 118, 49, 58]   // bopwire-route-v1:

  // ---- Layouts ---------------------------------------------------------------------

  function MsgCanon(room: Text, from: Address, ts: UInt64, body: Text): Text {
    MSG_TAG + room + [SEP] + from + Le(ts, 8) + body
  }

  function RoomCanon(name: Text, creator: Address, created: UInt64, isPrivate: bool): Text {
    ROOM_TAG + name + [SEP] + creator + Le(created, 8) + [if isPrivate then 1 else 0]
  }

  function ModCanon(action: Text, room: Text, target: Text, actor: Address, ts: UInt64): Text {
    MOD_TAG + action + [SEP] + room + [SEP] + target + [SEP] + actor + Le(ts, 8)
  }

  function ReportV1(id: DeliveryId, bytes: UInt64, wallet: Address): Text {
    REPORT_TAG + id + Le(bytes, 8) + wallet
  }

  function ReportV2(id: DeliveryId, bytes: UInt64, wallet: Address, seederBytes: UInt64, seeder: Text): Text {
    REPORT_TAG + [50] + id + Le(bytes, 8) + wallet + Le(seederBytes, 8) + seeder
  }

  function RoutePreimage(inner: Text): Text { ROUTE_TAG + inner }

  // ---- Builders ---------------------------------------------------------------------

  /** A failed address parse aborts the build; what was appended so far is left in `out`. */
  method BuildChatMsgCanon(parse: string -> Option<Address>, room: Text, fromHex: string, ts: UInt64, body: Text)
    returns (ok: bool, out: Text)
    ensures ok == parse(fromHex).Some?
    ensures ok ==> out == MsgCanon(room, parse(fromHex).value, ts, body)
  {
    out := MSG_TAG;
    out := out + room;
    out := out + [SEP];
    if parse(fromHex).None? {
      return false, out;
    }
    out := out + parse(fromHex).value;
    out := AppendU64Le(out, ts);
    out := out + body;
    ok := true;
  }

  method BuildChatRoomCanon(parse: string -> Option<Address>, name: Text, creatorHex: string, created: UInt64, isPrivate: bool)
    returns (ok: bool, out: Text)
    ensures ok == parse(creatorHex).Some?
    ensures ok ==> out == RoomCanon(name, parse(creatorHex).value, created, isPrivate)
  {
    out := ROOM_TAG;
    out := out + name;
    out := out + [SEP];
    if parse(creatorHex).None? {
      return false, out;
    }
    out := out + parse(creatorHex).value;
    out := AppendU64Le(out, created);
    out := out + [if isPrivate then 1 else 0];
    ok := true;
  }

  method BuildChatModCanon(parse: string -> Option<Address>, action: Text, room: Text, target: Text, actorHex: string, ts: UInt64)
    returns (ok: bool, out: Text)
    ensures ok == parse(actorHex).Some?
    ensures ok ==> out == ModCanon(action, room, target, parse(actorHex).value, ts)
  {
    out := MOD_TAG;
    out := out + action;
    out := out + [SEP];
    out := out + room;
    out := out + [SEP];
    out := out + target;
    out := out + [SEP];
    if parse(actorHex).None? {
      return false, out;
    }
    out := out + parse(actorHex).value;
    out := AppendU64Le(out, ts);
    ok := true;
  }

  /** The `build` lambda of flush_relay_report. */
  method BuildReport(v2: bool, id: DeliveryId, bytes: UInt64, wallet: Address, seederBytes: UInt64, seeder: Text)
    returns (m: Text)
    ensures m == if v2 then ReportV2(id, bytes, wallet, seederBytes, seeder) else ReportV1(id, bytes, wallet)
  {
    m := if v2 then REPORT_TAG + [50] else REPORT_TAG;
    m := m + id;
    m := AppendU64Le(m, bytes);
    m := m + wallet;
    if v2 {
      m := AppendU64Le(m, seederBytes);
      m := m + seeder;
    }
  }

  // ---- What stands where ------------------------------------------------------------

  /** The field stands in the text at this position. */
  predicate At(m: Text, i: nat, field: Text) { i + |field| <= |m| && m[i..i + |field|] == field }

  /** A message: six tag bytes, the room, 0x1F, twenty bytes of signer, eight of time, and the body to the end. */
  lemma MessageFields(room: Text, from: Address, ts: UInt64, body: Text)
    ensures
      var m, k := MsgCanon(room, from, ts, body), 6 + |room|;
      && |m| == k + 29 + |body|
      && m[..6] == [109, 99, 99, 104, 116, 49] && At(m, 6, room) && m[k] == 0x1F && At(m, k + 1, from)
      && (forall j: nat :: j < 8 ==> m[k + 21 + j] == ts / Pow256(j) % 256)
      && m[k + 29..] == body
  {
    TimeAt(MSG_TAG + room + [SEP] + from, ts, body);
  }

  /** A room creation ends in one byte for privacy, 1 for a private room and 0 for a public one. */
  lemma RoomFields(name: Text, creator: Address, created: UInt64, isPrivate: bool)
    ensures
      var m, k := RoomCanon(name, creator, created, isPrivate), 6 + |name|;
      && |m| == k + 30
      && m[..6] == [109, 99, 99, 114, 109, 49] && At(m, 6, name) && m[k] == 0x1F && At(m, k + 1, creator)
      && (forall j: nat :: j < 8 ==> m[k + 21 + j] == created / Pow256(j) % 256)
      && (m[k + 29] == 1 <==> isPrivate) && (m[k + 29] == 0 <==> !isPrivate)
  {
    TimeAt(ROOM_TAG + name + [SEP] + creator, created, [if isPrivate then 1 else 0]);
  }

  lemma ModFields(action: Text, room: Text, target: Text, actor: Address, ts: UInt64)
    ensures
      var m := ModCanon(action, room, target, actor, ts);
      var r := 7 + |action|;
      var g := r + |room| + 1;
      var k := g + |target|;
      && |m| == k + 29
      && m[..6] == [109, 99, 99, 109, 100, 49] && At(m, 6, action) && m[r - 1] == 0x1F
      && At(m, r, room) && m[g - 1] == 0x1F && At(m, g, target) && m[k] == 0x1F && At(m, k + 1, actor)
      && (forall j: nat :: j < 8 ==> m[k + 21 + j] == ts / Pow256(j) % 256)
  {
    var front := MOD_TAG + action + [SEP] + room + [SEP] + target + [SEP] + actor;
    assert front + Le(ts, 8) + [] == ModCanon(action, room, target, actor, ts);
    TimeAt(front, ts, []);
  }

  /** A report: the tag (with a 2 behind it in version 2), delivery id, bytes, wallet, and in version 2 the seeder's
      bytes and peer id. */
  lemma ReportFields(v2: bool, id: DeliveryId, bytes: UInt64, wallet: Address, seederBytes: UInt64, seeder: Text)
    ensures
      var m := if v2 then ReportV2(id, bytes, wallet, seederBytes, seeder) else ReportV1(id, bytes, wallet);
      var k := if v2 then 13 else 12;
      && m[..12] == [114, 101, 108, 97, 121, 46, 114, 101, 112, 111, 114, 116] && (v2 ==> m[12] == 50)
      && At(m, k, id)
      && (forall j: nat :: j < 8 ==> m[k + 16 + j] == bytes / Pow256(j) % 256)
      && At(m, k + 24, wallet)
      && |m| == k + 44 + (if v2 then 8 + |seeder| else 0)
      && (v2 ==> (forall j: nat :: j < 8 ==> m[k + 44 + j] == seederBytes / Pow256(j) % 256) && m[k + 52..] == seeder)
  {
    if v2 {
      SecondReportFields(id, bytes, wallet, seederBytes, seeder);
    } else {
      TimeAt(REPORT_TAG + id, bytes, wallet);
    }
  }

  lemma SecondReportFields(id: DeliveryId, bytes: UInt64, wallet: Address, seederBytes: UInt64, seeder: Text)
    ensures
      var m := ReportV2(id, bytes, wallet, seederBytes, seeder);
      && m[..12] == REPORT_TAG && m[12] == 50 && At(m, 13, id)
      && (forall j: nat :: j < 8 ==> m[29 + j] == bytes / Pow256(j) % 256)
      && At(m, 37, wallet) && |m| == 65 + |seeder|
      && (forall j: nat :: j < 8 ==> m[57 + j] == seederBytes / Pow256(j) % 256) && m[65..] == seeder
  {
    var front, back := REPORT_TAG + [50] + id, wallet + Le(seederBytes, 8) + seeder;
    assert ReportV2(id, bytes, wallet, seederBytes, seeder) == front + Le(bytes, 8) + back;
    TimeAt(front, bytes, back);
    TimeAt(front + Le(bytes, 8) + wallet, seederBytes, seeder);
  }

  lemma TimeAt(front: Text, x: UInt64, rest: Text)
    ensures
      var m := front + Le(x, 8) + rest;
      && m[..|front|] == front && m[|front| + 8..] == rest
      && forall j: nat :: j < 8 ==> m[|front| + j] == x / Pow256(j) % 256
  {
    forall j: nat | j < 8
      ensures (front + Le(x, 8) + rest)[|front| + j] == x / Pow256(j) % 256
    {
      LeAt(x, 8, j);
    }
  }

  // ---- Taking a preimage apart ----------------------------------------------------------

  /** Everything after the first separator. */
  function Rest(a: Text): Text
    requires SEP in a
  {
    if a[0] == SEP then a[1..] else Rest(a[1..])
  }

  function Head(a: Text): (h: Text)
    requires SEP in a
    ensures SEP !in h && |h| < |a| && a == h + [SEP] + Rest(a)
  {
    if a[0] == SEP then [] else [a[0]] + Head(a[1..])
  }

  lemma {:induction false} LeFromLe(b: Text)
    ensures FromLe(b) < Pow256(|b|) && Le(FromLe(b), |b|) == b
  {
    if b != [] {
      LeFromLe(b[1..]);
      assert FromLe(b) % 256 == b[0] && FromLe(b) / 256 == FromLe(b[1..]);
      assert b == [b[0]] + b[1..];
    }
  }

  /** Any 28 bytes read back as an address and a timestamp. */
  lemma TwentyEightBytes(b: Text) returns (a: Address, ts: UInt64)
    requires |b| == 28
    ensures b == a + Le(ts, 8)
  {
    a := b[..20];
    LeFromLe(b[20..]);
    Pow256Of8();
    ts := FromLe(b[20..]);
    assert b == b[..20] + b[20..];
  }

  // ---- Injectivity -------------------------------------------------------------------

  /** Room creation needs no condition at all: everything but the name has a fixed length at the end. */
  lemma RoomInjective(n1: Text, a1: Address, t1: UInt64, p1: bool, n2: Text, a2: Address, t2: UInt64, p2: bool)
    requires RoomCanon(n1, a1, t1, p1) == RoomCanon(n2, a2, t2, p2)
    ensures n1 == n2 && a1 == a2 && t1 == t2 && p1 == p2
  {
    var x1, x2 := [if p1 then 1 else 0], [if p2 then 1 else 0];
    assert |RoomCanon(n1, a1, t1, p1)| == |n1| + 36 && |RoomCanon(n2, a2, t2, p2)| == |n2| + 36;
    SplitAt(ROOM_TAG + n1 + [SEP] + a1 + Le(t1, 8), x1, ROOM_TAG + n2 + [SEP] + a2 + Le(t2, 8), x2);
    assert x1[0] == x2[0];
    SplitAt(ROOM_TAG + n1 + [SEP] + a1, Le(t1, 8), ROOM_TAG + n2 + [SEP] + a2, Le(t2, 8));
    LeInjective(t1, t2);
    SplitAt(ROOM_TAG + n1 + [SEP], a1, ROOM_TAG + n2 + [SEP], a2);
    SplitAt(ROOM_TAG + n1, [SEP], ROOM_TAG + n2, [SEP]);
    SplitAt(ROOM_TAG, n1, ROOM_TAG, n2);
  }

  lemma MsgShape(room: Text, a: Address, t: UInt64, body: Text)
    ensures MsgCanon(room, a, t, body) == MSG_TAG + (room + [SEP] + (a + Le(t, 8) + body))
  {
  }

  /** Messages whose room holds no separator are told apart by their bytes. */
  lemma MessageInjective(r1: Text, a1: Address, t1: UInt64, b1: Text, r2: Text, a2: Address, t2: UInt64, b2: Text)
    requires SEP !in r1 && SEP !in r2
    requires MsgCanon(r1, a1, t1, b1) == MsgCanon(r2, a2, t2, b2)
    ensures r1 == r2 && a1 == a2 && t1 == t2 && b1 == b2
  {
    MsgShape(r1, a1, t1, b1);
    MsgShape(r2, a2, t2, b2);
    SplitAt(MSG_TAG, r1 + [SEP] + (a1 + Le(t1, 8) + b1), MSG_TAG, r2 + [SEP] + (a2 + Le(t2, 8) + b2));
    FirstSeparator(r1, a1 + Le(t1, 8) + b1, r2, a2 + Le(t2, 8) + b2);
    SplitAt(a1 + Le(t1, 8), b1, a2 + Le(t2, 8), b2);
    SplitAt(a1, Le(t1, 8), a2, Le(t2, 8));
    LeInjective(t1, t2);
  }

  /** The condition is exact: a message's bytes are also those of a message in another, separator-free room
      if and only if its own room holds a separator. */
  lemma MessageAmbiguousIff(room: Text, a: Address, t: UInt64, body: Text)
    ensures (exists r2: Text, a2: Address, t2: UInt64, b2: Text ::
               SEP !in r2 && r2 != room && MsgCanon(r2, a2, t2, b2) == MsgCanon(room, a, t, body))
            <==> SEP in room
  {
    if SEP in room {
      var r2, a2, t2, b2 := MessageAlias(room, a, t, body);
    } else if r2: Text, a2: Address, t2: UInt64, b2: Text :|
        SEP !in r2 && r2 != room && MsgCanon(r2, a2, t2, b2) == MsgCanon(room, a, t, body) {
      MessageInjective(r2, a2, t2, b2, room, a, t, body);
    }
  }

  lemma MessageAlias(room: Text, a: Address, t: UInt64, body: Text) returns (r2: Text, a2: Address, t2: UInt64, b2: Text)
    requires SEP in room
    ensures SEP !in r2 && r2 != room && MsgCanon(r2, a2, t2, b2) == MsgCanon(room, a, t, body)
  {
    var end := a + Le(t, 8) + body;
    var tail := Rest(room) + [SEP] + end;
    r2 := Head(room);
    a2, t2 := TwentyEightBytes(tail[..28]);
    b2 := tail[28..];
    assert tail == tail[..28] + tail[28..] == a2 + Le(t2, 8) + b2;
    MsgShape(r2, a2, t2, b2);
    MsgShape(room, a, t, body);
    Regroup(r2, Rest(room), end);
  }

  lemma Regroup(x: Text, y: Text, z: Text)
    ensures (x + [SEP] + y) + [SEP] + z == x + [SEP] + (y + [SEP] + z)
  {
  }

  /** The part of a message preimage after the tag. */
  function MsgBody(room: Text, a: Address, t: UInt64, body: Text): Text { room + [SEP] + (a + Le(t, 8) + body) }

  /** Position k can be read as the end of the room in a message of this signer. */
  predicate RoomBreak(c: Text, a: Address, k: nat) { k + 29 <= |c| && c[k] == SEP && c[k + 1..k + 21] == a }

  lemma BreakIsMessage(c: Text, a: Address, k: nat) returns (t: UInt64, body: Text)
    requires RoomBreak(c, a, k)
    ensures MsgBody(c[..k], a, t, body) == c
  {
    var tail := c[k + 1..];
    var a2: Address, t2 := TwentyEightBytes(tail[..28]);
    t, body := t2, tail[28..];
    assert tail[..28][..20] == c[k + 1..k + 21] == a;
    assert (a2 + Le(t2, 8))[..20] == a2;
    assert tail == tail[..28] + tail[28..];
    assert c == c[..k] + [SEP] + tail;
  }

  lemma MessageIsBreak(room: Text, a: Address, t: UInt64, body: Text)
    ensures RoomBreak(MsgBody(room, a, t, body), a, |room|)
    ensures MsgBody(room, a, t, body)[..|room|] == room
  {
    var c := MsgBody(room, a, t, body);
    assert c[|room|] == SEP && c[|room| + 1..] == a + Le(t, 8) + body;
    assert c[|room| + 1..|room| + 21] == a;
  }

  lemma SameBytes(r1: Text, a1: Address, t1: UInt64, b1: Text, r2: Text, a2: Address, t2: UInt64, b2: Text)
    ensures MsgCanon(r1, a1, t1, b1) == MsgCanon(r2, a2, t2, b2) <==> MsgBody(r1, a1, t1, b1) == MsgBody(r2, a2, t2, b2)
  {
    MsgShape(r1, a1, t1, b1);
    MsgShape(r2, a2, t2, b2);
    if MsgCanon(r1, a1, t1, b1) == MsgCanon(r2, a2, t2, b2) {
      SplitAt(MSG_TAG, MsgBody(r1, a1, t1, b1), MSG_TAG, MsgBody(r2, a2, t2, b2));
    }
  }

  /** A signature verifies for its signer only, so this is the ambiguity that matters: the same signer's statement
      about another room has the same bytes if and only if the preimage holds a second 0x1F that is followed by the
      signer's address and room for a time. */
  lemma SameSignerAmbiguousIff(room: Text, a: Address, t: UInt64, body: Text)
    ensures (exists r2: Text, t2: UInt64, b2: Text :: r2 != room && MsgCanon(r2, a, t2, b2) == MsgCanon(room, a, t, body))
            <==> exists k :: k != |room| && RoomBreak(MsgBody(room, a, t, body), a, k)
  {
    var c := MsgBody(room, a, t, body);
    MessageIsBreak(room, a, t, body);
    if r2: Text, t2: UInt64, b2: Text :| r2 != room && MsgCanon(r2, a, t2, b2) == MsgCanon(room, a, t, body) {
      SameBytes(r2, a, t2, b2, room, a, t, body);
      MessageIsBreak(r2, a, t2, b2);
      assert |r2| != |room|;
    }
    if k: nat :| k != |room| && RoomBreak(c, a, k) {
      var t2, b2 := BreakIsMessage(c, a, k);
      SameBytes(c[..k], a, t2, b2, room, a, t, body);
      assert |c[..k]| == k;
    }
  }

  lemma ModShape(action: Text, room: Text, target: Text, a: Address, t: UInt64)
    ensures ModCanon(action, room, target, a, t)
            == MOD_TAG + ((action + [SEP] + (room + [SEP] + target)) + ([SEP] + a + Le(t, 8)))
  {
  }

  /** Moderation actions are told apart when action and room hold no separator; the target may hold any. */
  lemma ModInjective(ac1: Text, r1: Text, tg1: Text, a1: Address, t1: UInt64, ac2: Text, r2: Text, tg2: Text, a2: Address, t2: UInt64)
    requires SEP !in ac1 && SEP !in ac2 && SEP !in r1 && SEP !in r2
    requires ModCanon(ac1, r1, tg1, a1, t1) == ModCanon(ac2, r2, tg2, a2, t2)
    ensures ac1 == ac2 && r1 == r2 && tg1 == tg2 && a1 == a2 && t1 == t2
  {
    ModShape(ac1, r1, tg1, a1, t1);
    ModShape(ac2, r2, tg2, a2, t2);
    var m1, m2 := ac1 + [SEP] + (r1 + [SEP] + tg1), ac2 + [SEP] + (r2 + [SEP] + tg2);
    var e1, e2 := [SEP] + a1 + Le(t1, 8), [SEP] + a2 + Le(t2, 8);
    SplitAt(MOD_TAG, m1 + e1, MOD_TAG, m2 + e2);
    assert |m1 + e1| == |m1| + 29 && |m2 + e2| == |m2| + 29;
    SplitAt(m1, e1, m2, e2);
    FirstSeparator(ac1, r1 + [SEP] + tg1, ac2, r2 + [SEP] + tg2);
    FirstSeparator(r1, tg1, r2, tg2);
    SplitAt([SEP] + a1, Le(t1, 8), [SEP] + a2, Le(t2, 8));
    SplitAt([SEP], a1, [SEP], a2);
    LeInjective(t1, t2);
  }

  lemma ModAlias(action: Text, room: Text, target: Text) returns (ac2: Text, r2: Text, tg2: Text)
    requires SEP in action || SEP in room
    ensures SEP !in ac2 && SEP !in r2 && (ac2 != action || r2 != room)
    ensures ac2 + [SEP] + (r2 + [SEP] + tg2) == action + [SEP] + (room + [SEP] + target)
  {
    var joined := action + [SEP] + (room + [SEP] + target);
    if SEP in action {
      ac2 := Head(action);
      var rest := Rest(action) + [SEP] + (room + [SEP] + target);
      assert rest[|Rest(action)|] == SEP;
      r2, tg2 := Head(rest), Rest(rest);
      assert joined == ac2 + [SEP] + rest;
    } else {
      ac2, r2 := action, Head(room);
      tg2 := Rest(room) + [SEP] + target;
      assert room + [SEP] + target == r2 + [SEP] + tg2;
    }
  }

  lemma ModAmbiguousIff(action: Text, room: Text, target: Text, a: Address, t: UInt64)
    ensures (exists ac2: Text, r2: Text, tg2: Text ::
               SEP !in ac2 && SEP !in r2 && (ac2 != action || r2 != room)
               && ModCanon(ac2, r2, tg2, a, t) == ModCanon(action, room, target, a, t))
            <==> SEP in action || SEP in room
  {
    if SEP in action || SEP in room {
      var ac2, r2, tg2 := ModAlias(action, room, target);
      ModShape(ac2, r2, tg2, a, t);
      ModShape(action, room, target, a, t);
      assert ModCanon(ac2, r2, tg2, a, t) == ModCanon(action, room, target, a, t);
    } else if ac2: Text, r2: Text, tg2: Text :|
        SEP !in ac2 && SEP !in r2 && (ac2 != action || r2 != room)
        && ModCanon(ac2, r2, tg2, a, t) == ModCanon(action, room, target, a, t) {
      ModInjective(ac2, r2, tg2, a, t, action, room, target, a, t);
    }
  }

  const KICK_USER: Text := [107, 105, 99, 107, 95, 117, 115, 101, 114]
  const REMOVE_ROOM: Text := [114, 101, 109, 111, 118, 101, 95, 114, 111, 111, 109]

  /** What both handlers let through: the action is one of two literals. */
  predicate KnownAction(action: Text) { action == KICK_USER || action == REMOVE_ROOM }

  lemma OtherSplit(room: Text, target: Text) returns (r2: Text, tg2: Text)
    requires SEP in room || SEP in target
    ensures r2 != room && r2 + [SEP] + tg2 == room + [SEP] + target
  {
    var m := room + [SEP] + target;
    var k: nat;
    if SEP in room {
      k :| k < |room| && room[k] == SEP;
    } else {
      var i: nat :| i < |target| && target[i] == SEP;
      k := |room| + 1 + i;
    }
    assert m[k] == SEP;
    r2, tg2 := m[..k], m[k + 1..];
    assert |r2| != |room|;
  }

  /** For the actions that exist, the same action by the same signer at the same time names another room and target
      with the same bytes if and only if room or target holds a 0x1F. */
  lemma KnownActionAmbiguousIff(action: Text, room: Text, target: Text, a: Address, t: UInt64)
    requires KnownAction(action)
    ensures (exists ac2: Text, r2: Text, tg2: Text ::
               KnownAction(ac2) && r2 != room && ModCanon(ac2, r2, tg2, a, t) == ModCanon(action, room, target, a, t))
            <==> SEP in room || SEP in target
  {
    if SEP in room || SEP in target {
      var r2, tg2 := OtherSplit(room, target);
      ModShape(action, r2, tg2, a, t);
      ModShape(action, room, target, a, t);
      assert KnownAction(action) && r2 != room && ModCanon(action, r2, tg2, a, t) == ModCanon(action, room, target, a, t);
    }
    if ac2: Text, r2: Text, tg2: Text :|
        KnownAction(ac2) && r2 != room && ModCanon(ac2, r2, tg2, a, t) == ModCanon(action, room, target, a, t) {
      OtherRoomHasSeparator(action, room, target, ac2, r2, tg2, a, t);
    }
  }

  lemma OtherRoomHasSeparator(action: Text, room: Text, target: Text, ac2: Text, r2: Text, tg2: Text, a: Address, t: UInt64)
    requires KnownAction(action) && KnownAction(ac2) && r2 != room
    requires ModCanon(ac2, r2, tg2, a, t) == ModCanon(action, room, target, a, t)
    ensures SEP in room || SEP in target
  {
    ModShape(action, room, target, a, t);
    ModShape(ac2, r2, tg2, a, t);
    var m1, m2 := action + [SEP] + (room + [SEP] + target), ac2 + [SEP] + (r2 + [SEP] + tg2);
    var end := [SEP] + a + Le(t, 8);
    SplitAt(MOD_TAG, m1 + end, MOD_TAG, m2 + end);
    SplitAt(m1, end, m2, end);
    FirstSeparator(action, room + [SEP] + target, ac2, r2 + [SEP] + tg2);
    var m := room + [SEP] + target;
    assert m[|r2|] == SEP && m[..|r2|] == r2 && m[..|room|] == room;
    if |r2| < |room| {
      assert room[|r2|] == SEP;
    } else {
      assert target[|r2| - |room| - 1] == SEP;
    }
  }

  lemma ReportInjective(i1: DeliveryId, n1: UInt64, w1: Address, s1: UInt64, p1: Text,
                        i2: DeliveryId, n2: UInt64, w2: Address, s2: UInt64, p2: Text)
    ensures ReportV1(i1, n1, w1) == ReportV1(i2, n2, w2) ==> i1 == i2 && n1 == n2 && w1 == w2
    ensures ReportV2(i1, n1, w1, s1, p1) == ReportV2(i2, n2, w2, s2, p2) ==>
              i1 == i2 && n1 == n2 && w1 == w2 && s1 == s2 && p1 == p2
  {
    LeInjective(n1, n2);
    LeInjective(s1, s2);
    if ReportV1(i1, n1, w1) == ReportV1(i2, n2, w2) {
      SplitAt(REPORT_TAG + i1 + Le(n1, 8), w1, REPORT_TAG + i2 + Le(n2, 8), w2);
      SplitAt(REPORT_TAG + i1, Le(n1, 8), REPORT_TAG + i2, Le(n2, 8));
      SplitAt(REPORT_TAG, i1, REPORT_TAG, i2);
    }
    if ReportV2(i1, n1, w1, s1, p1) == ReportV2(i2, n2, w2, s2, p2) {
      var t := REPORT_TAG + [50];
      SplitAt(t + i1 + Le(n1, 8) + w1 + Le(s1, 8), p1, t + i2 + Le(n2, 8) + w2 + Le(s2, 8), p2);
      SplitAt(t + i1 + Le(n1, 8) + w1, Le(s1, 8), t + i2 + Le(n2, 8) + w2, Le(s2, 8));
      SplitAt(t + i1 + Le(n1, 8), w1, t + i2 + Le(n2, 8), w2);
      SplitAt(t + i1, Le(n1, 8), t + i2, Le(n2, 8));
      SplitAt(t, i1, t, i2);
    }
  }

  // ---- Domain separation -----------------------------------------------------------------

  datatype Statement =
    | Message(room: Text, from: Address, ts: UInt64, body: Text)
    | Room(name: Text, creator: Address, created: UInt64, isPrivate: bool)
    | Mod(action: Text, room: Text, target: Text, actor: Address, ts: UInt64)
    | Report(id: DeliveryId, bytes: UInt64, wallet: Address)
    | SeederReport(id: DeliveryId, bytes: UInt64, wallet: Address, seederBytes: UInt64, seeder: Text)
    | Route(inner: Text)

  function Preimage(s: Statement): Text {
    match s
    case Message(room, from, ts, body) => MsgCanon(room, from, ts, body)
    case Room(name, creator, created, isPrivate) => RoomCanon(name, creator, created, isPrivate)
    case Mod(action, room, target, actor, ts) => ModCanon(action, room, target, actor, ts)
    case Report(id, bytes, wallet) => ReportV1(id, bytes, wallet)
    case SeederReport(id, bytes, wallet, seederBytes, seeder) => ReportV2(id, bytes, wallet, seederBytes, seeder)
    case Route(inner) => RoutePreimage(inner)
  }

  /** Separator-free in the fields that come before another variable-length field. */
  predicate Clean(s: Statement) {
    match s
    case Message(room, _, _, _) => SEP !in room
    case Mod(action, room, _, _, _) => SEP !in action && SEP !in room
    case _ => true
  }

  function Kind(s: Statement): nat {
    match s
    case Message(_, _, _, _) => 0
    case Room(_, _, _, _) => 1
    case Mod(_, _, _, _, _) => 2
    case Report(_, _, _) => 3
    case SeederReport(_, _, _, _, _) => 4
    case Route(_) => 5
  }

  /** Byte 3 and byte 4 of the tags tell the chat kinds apart, byte 0 the families, the length the reports. */
  lemma Marks(s: Statement)
    ensures |Preimage(s)| >= 17
    ensures Preimage(s)[0] == (if s.Route? then 98 else if s.Report? || s.SeederReport? then 114 else 109)
    ensures s.Message? ==> Preimage(s)[3] == 104
    ensures s.Room? ==> Preimage(s)[3] == 114
    ensures s.Mod? ==> Preimage(s)[3] == 109
    ensures s.Report? ==> |Preimage(s)| == 56
    ensures s.SeederReport? ==> |Preimage(s)| >= 65
  {
  }

  /** No two kinds ever share a preimage, whatever the fields hold: v1 and v2 reports never collide although
      one tag is a prefix of the other. */
  lemma KindsNeverCollide(s: Statement, t: Statement)
    requires Preimage(s) == Preimage(t)
    ensures Kind(s) == Kind(t)
  {
    Marks(s);
    Marks(t);
  }

  /** A clean statement is determined by the bytes that were signed, across all kinds. */
  lemma CleanPreimageDetermines(s: Statement, t: Statement)
    requires Clean(s) && Clean(t) && Preimage(s) == Preimage(t)
    ensures s == t
  {
    KindsNeverCollide(s, t);
    match s
    case Message(r, a, ts, b) => MessageInjective(r, a, ts, b, t.room, t.from, t.ts, t.body);
    case Room(n, a, c, p) => RoomInjective(n, a, c, p, t.name, t.creator, t.created, t.isPrivate);
    case Mod(ac, r, tg, a, ts) => ModInjective(ac, r, tg, a, ts, t.action, t.room, t.target, t.actor, t.ts);
    case Report(i, n, w) => ReportInjective(i, n, w, 0, [], t.id, t.bytes, t.wallet, 0, []);
    case SeederReport(i, n, w, sb, sp) =>
      ReportInjective(i, n, w, sb, sp, t.id, t.bytes, t.wallet, t.seederBytes, t.seeder);
    case Route(inner) => SplitAt(ROUTE_TAG, inner, ROUTE_TAG, t.inner);
  }
}
