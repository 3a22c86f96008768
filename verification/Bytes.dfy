/** Octets and fixed-width integers, in both byte orders. */
module Bytes {

  type byte = x: int | 0 <= x < 256

  type bytes = seq<byte>

  function Pow256(w: nat): (p: nat)
    ensures p > 0
  {
    if w == 0 then 1 else 256 * Pow256(w - 1)
  }

  /** Little-endian, `w` octets; the value is reduced to that width. */
  function LE(n: nat, w: nat): (b: bytes)
    ensures |b| == w
  {
    if w == 0 then [] else [n % 256] + LE(n / 256, w - 1)
  }

  function FromLE(b: bytes): nat {
    if b == [] then 0 else b[0] + 256 * FromLE(b[1..])
  }

  lemma {:induction false} LERoundTrip(n: nat, w: nat)
    requires n < Pow256(w)
    ensures FromLE(LE(n, w)) == n
  {
    if w > 0 {
      assert n / 256 < Pow256(w - 1);
      LERoundTrip(n / 256, w - 1);
      assert LE(n, w)[1..] == LE(n / 256, w - 1);
    }
  }

  lemma {:induction false} FromLERoundTrip(b: bytes)
    ensures FromLE(b) < Pow256(|b|) && LE(FromLE(b), |b|) == b
  {
    if b != [] {
      FromLERoundTrip(b[1..]);
      assert FromLE(b) % 256 == b[0] && FromLE(b) / 256 == FromLE(b[1..]);
      assert b == [b[0]] + b[1..];
    }
  }

  // ----- Big-endian 16 and 32 bit -----

  function U16(b: bytes, i: nat): (n: nat)
    requires i + 2 <= |b|
    ensures n < 0x1_0000
  {
    256 * b[i] as int + b[i + 1] as int
  }

  function U32(b: bytes, i: nat): (n: nat)
    requires i + 4 <= |b|
    ensures n < 0x1_0000_0000
  {
    U16(b, i) * 0x1_0000 + U16(b, i + 2)
  }

  /** The low 16 bits. */
  function Be16(n: nat): (b: bytes)
    ensures |b| == 2 && U16(b, 0) == n % 0x1_0000
  {
    [n / 256 % 256, n % 256]
  }

  /** The low 32 bits. */
  function Be32(n: nat): (b: bytes)
    ensures |b| == 4 && U32(b, 0) == n % 0x1_0000_0000
  {
    Be16(n / 0x1_0000) + Be16(n)
  }

  function Put(b: bytes, i: nat, v: bytes): (r: bytes)
    requires i + |v| <= |b|
    ensures |r| == |b|
    ensures forall j :: 0 <= j < |b| ==> r[j] == if i <= j < i + |v| then v[j - i] else b[j]
  {
    b[..i] + v + b[i + |v|..]
  }

  /** Bit `k` of a number. */
  function Bit(n: nat, k: nat): (r: nat)
    ensures r <= 1
  {
    if k == 0 then n % 2 else Bit(n / 2, k - 1)
  }

  /** The number with bit `k` replaced. */
  function SetBit(n: nat, k: nat, v: nat): (r: nat)
    requires v <= 1
  {
    if k == 0 then n - n % 2 + v else 2 * SetBit(n / 2, k - 1, v) + n % 2
  }

  /** Setting one bit changes that bit only. */
  lemma {:induction false} SetBitOnly(n: nat, k: nat, v: nat, j: nat)
    requires v <= 1
    ensures Bit(SetBit(n, k, v), j) == if j == k then v else Bit(n, j)
  {
    var m := SetBit(n, k, v);
    assert k == 0 ==> m / 2 == n / 2 && m % 2 == v;
    assert k > 0 ==> m / 2 == SetBit(n / 2, k - 1, v) && m % 2 == n % 2;
    if j > 0 && k > 0 {
      SetBitOnly(n / 2, k - 1, v, j - 1);
    }
  }

  /** Sixteen bits stay sixteen bits. */
  lemma SetBitBelow(n: nat, k: nat, v: nat)
    requires v <= 1 && k < 16 && n < 0x1_0000
    ensures SetBit(n, k, v) < 0x1_0000
  {
    High16(n);
    SetBitHigh(n, k, v, 16);
    High16(SetBit(n, k, v));
  }

  lemma High16(n: nat)
    ensures High(n, 16) == 0 <==> n < 0x1_0000
  {
    High4(n, 12);
    High4(n / 16, 8);
    High4(n / 16 / 16, 4);
    High4(n / 16 / 16 / 16, 0);
  }

  lemma High4(n: nat, w: nat)
    ensures High(n, w + 4) == High(n / 16, w)
  {
    assert High(n, w + 4) == High(n / 2, w + 3) == High(n / 2 / 2, w + 2) == High(n / 2 / 2 / 2, w + 1);
  }

  lemma Bit4(n: nat, k: nat)
    ensures Bit(n, k + 4) == Bit(n / 16, k)
  {
    assert Bit(n, k + 4) == Bit(n / 2, k + 3) == Bit(n / 2 / 2, k + 2) == Bit(n / 2 / 2 / 2, k + 1);
  }

  lemma TopBit()
    ensures Bit(0x8000, 15) == 1 && forall k: nat :: Bit(0, k) == 0
  {
    Bit4(0x8000, 11);
    Bit4(2048, 7);
    Bit4(128, 3);
    assert Bit(8, 3) == Bit(4, 2) == Bit(2, 1) == Bit(1, 0);
    forall k: nat ensures Bit(0, k) == 0 { BitsOfZero(k); }
  }

  lemma {:induction false} BitsOfZero(k: nat)
    ensures Bit(0, k) == 0
  {
    if k > 0 {
      BitsOfZero(k - 1);
    }
  }

  lemma BitsOfNibble(n: nat, k: nat)
    requires n < 16 && k >= 4
    ensures Bit(n, k) == 0
  {
    Bit4(n, k - 4);
    BitsOfZero(k - 4);
  }

  /** The low four bits stay when a higher one is set. */
  lemma SetBitNibble(n: nat, k: nat, v: nat)
    requires v <= 1 && k >= 4
    ensures SetBit(n, k, v) % 16 == n % 16
  {
    hide SetBit;
    SetBitPair(n, k, v);
    SetBitPair(n / 4, k - 2, v);
    Mod16(n, SetBit(n, k, v), SetBit(n / 4, k - 2, v), SetBit(n / 4 / 4, k - 4, v));
  }

  lemma Mod16(n: nat, a: nat, b: nat, c: nat)
    requires a == 4 * b + n % 4 && b == 4 * c + n / 4 % 4
    ensures a % 16 == n % 16
  {
    var q, r, t := n / 4, n / 4 % 4, n % 4;
    assert n == 4 * q + t && q == 4 * (q / 4) + r;
    ModOf(q / 4, 4 * r + t);
    ModOf(c, 4 * r + t);
  }

  lemma ModOf(q: nat, t: nat)
    requires t < 16
    ensures (16 * q + t) % 16 == t
  {
  }

  lemma SetBitPair(n: nat, k: nat, v: nat)
    requires v <= 1 && k >= 2
    ensures SetBit(n, k, v) == 4 * SetBit(n / 4, k - 2, v) + n % 4
  {
    assert n / 2 / 2 == n / 4;
    assert SetBit(n / 2, k - 1, v) == 2 * SetBit(n / 4, k - 2, v) + n / 2 % 2;
  }

  lemma {:induction false} SetBitHigh(n: nat, k: nat, v: nat, w: nat)
    requires v <= 1 && k < w && High(n, w) == 0
    ensures High(SetBit(n, k, v), w) == 0
  {
    var m := SetBit(n, k, v);
    if k == 0 {
      assert m / 2 == n / 2;
    } else {
      SetBitHigh(n / 2, k - 1, v, w - 1);
      assert m / 2 == SetBit(n / 2, k - 1, v);
    }
  }

  /** What is left above the low `w` bits. */
  function High(n: nat, w: nat): nat { if w == 0 then n else High(n / 2, w - 1) }

  // ----- Spans -----

  /** `e` stands in `b` at offset `p`. */
  predicate Holds(b: bytes, p: nat, e: bytes): (r: bool)
    ensures r ==> p + |e| <= |b|
    decreases |e|
  {
    if e == [] then p <= |b| else p < |b| && b[p] == e[0] && Holds(b, p + 1, e[1..])
  }

  lemma HoldsEmpty(b: bytes, p: nat)
    ensures Holds(b, p, []) <==> p <= |b|
  {
  }

  lemma {:induction false} HoldsSlice(b: bytes, p: nat, e: bytes)
    ensures Holds(b, p, e) <==> p + |e| <= |b| && b[p..p + |e|] == e
    decreases |e|
  {
    if e != [] {
      HoldsSlice(b, p + 1, e[1..]);
      if p + |e| <= |b| {
        assert b[p..p + |e|] == [b[p]] + b[p + 1..p + |e|];
        assert e == [e[0]] + e[1..];
        assert b[p..p + |e|][1..] == b[p + 1..p + |e|];
      }
    }
  }

  lemma HoldsWhole(b: bytes, e: bytes)
    requires |b| == |e|
    ensures Holds(b, 0, e) <==> b == e
  {
    HoldsSlice(b, 0, e);
    assert b[0..|b|] == b;
  }

  lemma {:induction false} HoldsAppend(b: bytes, p: nat, x: bytes, y: bytes)
    ensures Holds(b, p, x + y) <==> Holds(b, p, x) && Holds(b, p + |x|, y)
    decreases |x|
  {
    if x == [] {
      assert x + y == y;
      HoldsSlice(b, p, y);
    } else {
      HoldsAppend(b, p + 1, x[1..], y);
      assert (x + y)[1..] == x[1..] + y && (x + y)[0] == x[0];
    }
  }

  lemma HoldsOne(b: bytes, p: nat, x: byte)
    ensures Holds(b, p, [x]) <==> p < |b| && b[p] == x
  {
    assert [x][1..] == [];
  }
}
