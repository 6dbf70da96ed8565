/** Bytes, 64-bit words, and the little-endian and hexadecimal codecs that the
    relay ids, the delivery keys, the signed preimages and the art tombstones share. */
module Bytes {

  const U64_RANGE: int := 0x1_0000_0000_0000_0000

  type Byte = x: int | 0 <= x < 256
  type UInt64 = x: int | 0 <= x < U64_RANGE

  function Pow256(n: nat): (p: nat)
    ensures p > 0
  {
    if n == 0 then 1 else 256 * Pow256(n - 1)
  }

  /** The n low bytes of x, least significant first. */
  function Le(x: nat, n: nat): (b: seq<Byte>)
    ensures |b| == n
  {
    if n == 0 then [] else [x % 256] + Le(x / 256, n - 1)
  }

  function FromLe(b: seq<Byte>): nat {
    if b == [] then 0 else b[0] + 256 * FromLe(b[1..])
  }

  lemma Pow256Of8()
    ensures Pow256(8) == U64_RANGE
  {
    assert Pow256(4) == 0x1_0000_0000;
    assert Pow256(6) == 0x1_0000_0000_0000;
  }

  lemma {:induction false} LeRoundTrip(x: nat, n: nat)
    requires x < Pow256(n)
    ensures FromLe(Le(x, n)) == x
  {
    if n > 0 {
      LeRoundTrip(x / 256, n - 1);
      assert Le(x, n)[1..] == Le(x / 256, n - 1);
    }
  }

  lemma {:induction false} LeInjective(x: UInt64, y: UInt64)
    ensures Le(x, 8) == Le(y, 8) ==> x == y
  {
    Pow256Of8();
    LeRoundTrip(x, 8);
    LeRoundTrip(y, 8);
  }

  lemma DivBy256Then(x: nat, b: nat)
    requires b > 0
    ensures x / (256 * b) == (x / 256) / b
  {
    var q := x / 256;
    QuotientUnique(x, 256 * b, q / b, 256 * (q % b) + x % 256);
  }

  lemma MultipleIsLarge(k: int, d: int)
    requires d > 0
    ensures k >= 1 ==> k * d >= d
    ensures k <= -1 ==> k * d <= -d
  {
  }

  lemma QuotientUnique(x: nat, d: nat, q: nat, r: nat)
    requires x == d * q + r && 0 <= r < d
    ensures x / d == q
  {
    var k := x / d - q;
    assert k * d == r - x % d by {
      assert x == d * (x / d) + x % d;
      assert k * d == d * (x / d) - d * q;
    }
    MultipleIsLarge(k, d);
  }

  /** Byte i of x sits at shift 8*i, so writing one byte per step extends the encoding. */
  lemma {:induction false} LeSnoc(x: nat, n: nat)
    ensures Le(x, n + 1) == Le(x, n) + [x / Pow256(n) % 256]
  {
    if n > 0 {
      LeSnoc(x / 256, n - 1);
      DivBy256Then(x, Pow256(n - 1));
      assert Le(x, n + 1) == [x % 256] + Le(x / 256, n);
    }
  }

  /** Byte i of the encoding is the i-th byte of the number, counted from the low end. */
  lemma {:induction false} LeAt(x: nat, n: nat, i: nat)
    requires i < n
    ensures Le(x, n)[i] == x / Pow256(i) % 256
  {
    LeSnoc(x, n - 1);
    if i < n - 1 {
      LeAt(x, n - 1, i);
    }
  }

  lemma {:induction false} FromLeSnoc(b: seq<Byte>, c: Byte)
    ensures FromLe(b + [c]) == FromLe(b) + c * Pow256(|b|)
  {
    if b == [] {
      assert [c][1..] == [];
    } else {
      FromLeSnoc(b[1..], c);
      assert (b + [c])[1..] == b[1..] + [c];
      assert 256 * (c * Pow256(|b| - 1)) == c * Pow256(|b|);
    }
  }

  /** The loop shared by append_u64_le, the relay.report builder and status_row. */
  method AppendU64Le(v: seq<Byte>, x: UInt64) returns (r: seq<Byte>)
    ensures r == v + Le(x, 8)
  {
    r := v;
    for i := 0 to 8
      invariant r == v + Le(x, i)
    {
      LeSnoc(x, i);
      r := r + [x / Pow256(i) % 256];
    }
  }

  // ---- Hexadecimal ---------------------------------------------------

  function HexDigit(d: nat): char
    requires d < 16
  {
    if d < 10 then ('0' as int + d) as char else ('a' as int + d - 10) as char
  }

  /** The sixteen digits, lowercase. */
  lemma HexDigitIs(d: nat)
    requires d < 16
    ensures HexDigit(d) == "0123456789abcdef"[d]
  {
  }

  function Pow16(n: nat): (p: nat)
    ensures p > 0
  {
    if n == 0 then 1 else 16 * Pow16(n - 1)
  }

  /** n hex digits, most significant first, zero padded. */
  function Hex(x: nat, n: nat): (s: string)
    ensures |s| == n
  {
    if n == 0 then "" else Hex(x / 16, n - 1) + [HexDigit(x % 16)]
  }

  lemma DivBy16Then(x: nat, b: nat)
    requires b > 0
    ensures x / (16 * b) == (x / 16) / b
  {
    var q := x / 16;
    QuotientUnique(x, 16 * b, q / b, 16 * (q % b) + x % 16);
  }

  /** The i-th digit from the right. */
  lemma {:induction false} HexAt(x: nat, n: nat, i: nat)
    requires i < n
    ensures Hex(x, n)[n - 1 - i] == "0123456789abcdef"[x / Pow16(i) % 16]
  {
    if i == 0 {
      HexDigitIs(x % 16);
    } else {
      HexAt(x / 16, n - 1, i - 1);
      DivBy16Then(x, Pow16(i - 1));
    }
  }

  lemma Pow16Of16()
    ensures Pow16(16) == U64_RANGE
  {
    assert Pow16(8) == 0x1_0000_0000;
    assert Pow16(12) == 0x1_0000_0000_0000;
  }

  lemma {:induction false} HexInjective(x: nat, y: nat, n: nat)
    requires x < Pow16(n) && y < Pow16(n)
    requires Hex(x, n) == Hex(y, n)
    ensures x == y
  {
    if n > 0 {
      assert Hex(x, n)[n - 1] == HexDigit(x % 16) && Hex(y, n)[n - 1] == HexDigit(y % 16);
      assert Hex(x, n)[..n - 1] == Hex(x / 16, n - 1) && Hex(y, n)[..n - 1] == Hex(y / 16, n - 1);
      HexInjective(x / 16, y / 16, n - 1);
    }
  }

  /** Two lowercase digits per byte, in order. */
  function HexOfBytes(b: seq<Byte>): (s: string)
    ensures |s| == 2 * |b|
  {
    if b == [] then "" else [HexDigit(b[0] / 16), HexDigit(b[0] % 16)] + HexOfBytes(b[1..])
  }

  /** Byte i is written as the digits of its high and its low half, in that order. */
  lemma {:induction false} HexOfBytesAt(b: seq<Byte>, i: nat)
    requires i < |b|
    ensures HexOfBytes(b)[2 * i] == "0123456789abcdef"[b[i] / 16]
    ensures HexOfBytes(b)[2 * i + 1] == "0123456789abcdef"[b[i] % 16]
  {
    if i == 0 {
      HexDigitIs(b[0] / 16);
      HexDigitIs(b[0] % 16);
    } else {
      HexOfBytesAt(b[1..], i - 1);
      assert HexOfBytes(b)[2..] == HexOfBytes(b[1..]);
    }
  }

  lemma {:induction false} HexOfBytesInjective(a: seq<Byte>, b: seq<Byte>)
    requires HexOfBytes(a) == HexOfBytes(b)
    ensures a == b
  {
    if a != [] {
      assert |a| == |b|;
      var ha, hb := HexOfBytes(a), HexOfBytes(b);
      assert ha[0] == hb[0] && ha[1] == hb[1];
      assert ha[2..] == HexOfBytes(a[1..]) && hb[2..] == HexOfBytes(b[1..]);
      HexOfBytesInjective(a[1..], b[1..]);
      assert a == [a[0]] + a[1..] && b == [b[0]] + b[1..];
    }
  }

  // ---- The unit separator ------------------------------------------------

  type Text = seq<Byte>

  const SEP: Byte := 0x1F

  /** Equal concatenations with left parts of equal length agree part by part. */
  lemma SplitAt(a: Text, b: Text, x: Text, y: Text)
    requires a + b == x + y && |a| == |x|
    ensures a == x && b == y
  {
    assert a == (a + b)[..|a|] && x == (x + y)[..|x|];
    assert b == (a + b)[|a|..] && y == (x + y)[|x|..];
  }

  lemma NotShorter(a: Text, b: Text, x: Text, y: Text)
    requires a + [SEP] + b == x + [SEP] + y && SEP !in x
    ensures |a| >= |x|
  {
    var u := a + [SEP] + b;
    assert u[|a|] == SEP;
    assert forall i :: 0 <= i < |x| ==> u[i] == x[i] != SEP;
  }

  /** What precedes the first separator is determined. */
  lemma FirstSeparator(a: Text, b: Text, x: Text, y: Text)
    requires a + [SEP] + b == x + [SEP] + y && SEP !in a && SEP !in x
    ensures a == x && b == y
  {
    NotShorter(a, b, x, y);
    NotShorter(x, y, a, b);
    SplitAt(a, [SEP] + b, x, [SEP] + y) by {
      assert a + ([SEP] + b) == a + [SEP] + b && x + ([SEP] + y) == x + [SEP] + y;
    }
    SplitAt([SEP], b, [SEP], y);
  }
}
