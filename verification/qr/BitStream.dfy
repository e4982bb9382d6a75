// Bits written most significant first, and read back.
module BitStream {
  import opened Gf256

  function Pow2(n: nat): nat
    ensures Pow2(n) > 0
  {
    if n == 0 then 1 else 2 * Pow2(n - 1)
  }

  // ---------------------------------------------------------------- bytes as bits

  // 0x80 >> j
  function Mask(j: nat): Byte
    requires j < 8
  {
    if j == 0 then 0x80 else if j == 1 then 0x40 else if j == 2 then 0x20 else if j == 3 then 0x10
    else if j == 4 then 0x08 else if j == 5 then 0x04 else if j == 6 then 0x02 else 0x01
  }

  predicate BitIn(b: Byte, j: nat)
    requires j < 8
  {
    b & Mask(j) != 0
  }

  predicate BitAt(bytes: seq<Byte>, i: nat)
    requires i < 8 * |bytes|
  {
    BitIn(bytes[i / 8], i % 8)
  }

  function BitsOf(bytes: seq<Byte>): (s: seq<bool>)
    ensures |s| == 8 * |bytes| && forall i :: 0 <= i < |s| ==> s[i] == BitAt(bytes, i)
  {
    seq(8 * |bytes|, i requires 0 <= i < 8 * |bytes| => BitAt(bytes, i))
  }

  lemma BitsOfAppend(a: seq<Byte>, b: seq<Byte>)
    ensures BitsOf(a + b) == BitsOf(a) + BitsOf(b)
  {
    hide BitIn;
    forall i | 0 <= i < 8 * |a + b| ensures BitsOf(a + b)[i] == (BitsOf(a) + BitsOf(b))[i] {
      if i >= 8 * |a| {
        assert i / 8 - |a| == (i - 8 * |a|) / 8 && i % 8 == (i - 8 * |a|) % 8;
      }
    }
  }

  lemma OrTest(b: Byte, p: Byte, q: Byte)
    requires p != 0 && (p == q || p & q == 0)
    ensures (b | p) & q != 0 <==> p == q || b & q != 0
  {
  }

  lemma MasksDisjoint(j: nat, m: nat)
    requires j < 8 && m < 8
    ensures Mask(j) != 0 && (j == m || (Mask(j) & Mask(m) == 0 && Mask(j) != Mask(m)))
  {
  }

  lemma SetBit(b: Byte, j: nat, m: nat)
    requires j < 8 && m < 8
    ensures BitIn(b | Mask(j), m) <==> m == j || BitIn(b, m)
  {
    hide Mask;
    MasksDisjoint(j, m);
    OrTest(b, Mask(j), Mask(m));
  }

  lemma NoBitInZero(m: nat)
    requires m < 8
    ensures !BitIn(0, m)
  {
    hide Mask;
    ZeroAnd(Mask(m));
  }

  lemma ZeroAnd(p: Byte)
    ensures 0 & p == 0
  {
  }

  // A byte is its eight bits.
  lemma SameBitsSameByte(a: Byte, b: Byte)
    requires forall j :: 0 <= j < 8 ==> BitIn(a, j) == BitIn(b, j)
    ensures a == b
  {
    assert BitIn(a, 0) == BitIn(b, 0) && BitIn(a, 1) == BitIn(b, 1) && BitIn(a, 2) == BitIn(b, 2) && BitIn(a, 3) == BitIn(b, 3);
    assert BitIn(a, 4) == BitIn(b, 4) && BitIn(a, 5) == BitIn(b, 5) && BitIn(a, 6) == BitIn(b, 6) && BitIn(a, 7) == BitIn(b, 7);
    SameBits(a, b);
  }

  // ---------------------------------------------------------------- numbers as bits

  predicate NatBit(value: nat, i: nat) {
    (value / Pow2(i)) % 2 == 1
  }

  // The n low bits of value, highest first.
  function NatBits(value: nat, n: nat): (s: seq<bool>)
    ensures |s| == n && forall i :: 0 <= i < n ==> s[i] == NatBit(value, n - 1 - i)
  {
    seq(n, i requires 0 <= i < n => NatBit(value, n - 1 - i))
  }

  function NatOf(bits: seq<bool>): nat {
    if bits == [] then 0 else 2 * NatOf(bits[..|bits| - 1]) + (if bits[|bits| - 1] then 1 else 0)
  }

  lemma {:induction false} HalfBit(value: nat, i: nat)
    ensures NatBit(value, i + 1) == NatBit(value / 2, i)
  {
    DivDiv(value, Pow2(i));
  }

  lemma DivDiv(value: nat, p: nat)
    requires p > 0
    ensures value / (2 * p) == (value / 2) / p
  {
    var q := (value / 2) / p;
    var r := (value / 2) % p;
    assert value / 2 == q * p + r;
    assert value == (2 * p) * q + (2 * r + value % 2);
    DivUnique(value, 2 * p, q, 2 * r + value % 2);
  }

  lemma AtLeast(m: nat, d: nat)
    ensures d >= 1 ==> m * d >= m
  {
  }

  lemma DivUnique(v: nat, m: nat, q: nat, r: nat)
    requires v == m * q + r && r < m
    ensures v / m == q && v % m == r
  {
    var q', r' := v / m, v % m;
    assert m * (q' - q) == r - r' && m * (q - q') == r' - r;
    if q' > q { AtLeast(m, q' - q); }
    if q > q' { AtLeast(m, q - q'); }
  }

  lemma {:induction false} NatBitsSplit(value: nat, n: nat)
    requires n > 0
    ensures NatBits(value, n) == NatBits(value / 2, n - 1) + [value % 2 == 1]
  {
    forall i | 0 <= i < n - 1 ensures NatBits(value, n)[i] == NatBits(value / 2, n - 1)[i] { HalfBit(value, n - 2 - i); }
    assert Pow2(0) == 1 && NatBit(value, 0) == (value % 2 == 1);
  }

  // Reading the bits of a number back gives the number, when it fits.
  lemma {:induction false} NatRoundTrip(value: nat, n: nat)
    requires value < Pow2(n)
    ensures NatOf(NatBits(value, n)) == value
    decreases n
  {
    if n > 0 {
      NatRoundTrip(value / 2, n - 1);
      NatBitsSplit(value, n);
      assert NatBits(value, n)[..n - 1] == NatBits(value / 2, n - 1);
    }
  }

  lemma NatOfStep(s: seq<bool>, on: bool)
    ensures NatOf(s + [on]) == 2 * NatOf(s) + (if on then 1 else 0)
  {
    assert (s + [on])[..|s|] == s;
  }

  lemma {:induction false} BitsRoundTrip(s: seq<bool>)
    ensures NatOf(s) < Pow2(|s|) && NatBits(NatOf(s), |s|) == s
    decreases |s|
  {
    if s != [] {
      var n := |s| - 1;
      BitsRoundTrip(s[..n]);
      NatBitsSplit(NatOf(s), |s|);
      assert s == s[..n] + [s[n]];
    }
  }

  function Weight(on: bool): nat {
    if on then 1 else 0
  }

  lemma NatOfPrefix(s: seq<bool>, k: nat)
    requires k < |s|
    ensures NatOf(s[..k + 1]) == 2 * NatOf(s[..k]) + Weight(s[k])
  {
    assert s[..k + 1] == s[..k] + [s[k]];
    NatOfStep(s[..k], s[k]);
  }

  lemma NatOfNone()
    ensures NatOf([]) == 0
  {
  }

  lemma FourMore(s: seq<bool>, k: nat)
    requires k + 4 <= |s|
    ensures NatOf(s[..k + 4]) == 16 * NatOf(s[..k]) + 8 * Weight(s[k]) + 4 * Weight(s[k + 1]) + 2 * Weight(s[k + 2]) + Weight(s[k + 3])
  {
    hide NatOf, Weight;
    NatOfPrefix(s, k);
    NatOfPrefix(s, k + 1);
    NatOfPrefix(s, k + 2);
    NatOfPrefix(s, k + 3);
  }

  lemma OctetValue(s: seq<bool>)
    requires |s| == 8
    ensures NatOf(s) == 128 * Weight(s[0]) + 64 * Weight(s[1]) + 32 * Weight(s[2]) + 16 * Weight(s[3])
                      + 8 * Weight(s[4]) + 4 * Weight(s[5]) + 2 * Weight(s[6]) + Weight(s[7])
  {
    hide NatOf, Weight;
    NatOfNone();
    assert s[..0] == [];
    FourMore(s, 0);
    FourMore(s, 4);
    assert s[..8] == s;
  }

  lemma WeightsAgree(b: Byte, s: seq<bool>)
    requires |s| == 8 && forall j :: 0 <= j < 8 ==> s[j] == BitIn(b, j)
    ensures Value(b) == 128 * Weight(s[0]) + 64 * Weight(s[1]) + 32 * Weight(s[2]) + 16 * Weight(s[3])
                      + 8 * Weight(s[4]) + 4 * Weight(s[5]) + 2 * Weight(s[6]) + Weight(s[7])
  {
  }

  // The eight bits written for a byte's value are the byte's own.
  lemma ByteBits(b: Byte)
    ensures NatBits(Value(b), 8) == BitsOf([b])
  {
    hide BitIn, Value, NatOf, Weight;
    var s := BitsOf([b]);
    OctetValue(s);
    WeightsAgree(b, s);
    BitsRoundTrip(s);
  }

  // ---------------------------------------------------------------- bits as bytes

  // The byte whose first k bits are s's and whose others are clear.
  function ByteFrom(s: seq<bool>, k: nat): Byte
    requires k <= 8 && k <= |s|
  {
    if k == 0 then 0
    else if s[k - 1] then ByteFrom(s, k - 1) | Mask(k - 1)
    else ByteFrom(s, k - 1)
  }

  lemma {:induction false} ByteFromBits(s: seq<bool>, k: nat, j: nat)
    requires k <= 8 && k <= |s| && j < 8
    ensures BitIn(ByteFrom(s, k), j) <==> j < k && s[j]
  {
    hide BitIn, Mask;
    if k == 0 {
      NoBitInZero(j);
    } else {
      ByteFromBits(s, k - 1, j);
      SetBit(ByteFrom(s, k - 1), k - 1, j);
    }
  }

  // Whole bytes out of bits, as a reader gathers them; a ragged end is dropped.
  function Pack(bits: seq<bool>): (bytes: seq<Byte>)
    ensures |bytes| == |bits| / 8
  {
    seq(|bits| / 8, k requires 0 <= k < |bits| / 8 => ByteFrom(bits[8 * k..8 * k + 8], 8))
  }

  lemma PackRoundTrip(bytes: seq<Byte>)
    ensures Pack(BitsOf(bytes)) == bytes
  {
    hide BitIn, Mask;
    var bits := BitsOf(bytes);
    forall k | 0 <= k < |bytes| ensures Pack(bits)[k] == bytes[k] {
      var own := bits[8 * k..8 * k + 8];
      forall j | 0 <= j < 8 ensures BitIn(ByteFrom(own, 8), j) == BitIn(bytes[k], j) {
        ByteFromBits(own, 8, j);
        assert own[j] == BitAt(bytes, 8 * k + j);
        assert (8 * k + j) / 8 == k && (8 * k + j) % 8 == j;
      }
      SameBitsSameByte(ByteFrom(own, 8), bytes[k]);
    }
  }

  lemma BitsOfPack(bits: seq<bool>)
    requires |bits| % 8 == 0
    ensures BitsOf(Pack(bits)) == bits
  {
    hide BitIn, Mask;
    forall i | 0 <= i < |bits| ensures BitsOf(Pack(bits))[i] == bits[i] {
      var k, j := i / 8, i % 8;
      ByteFromBits(bits[8 * k..8 * k + 8], 8, j);
    }
  }

  // ---------------------------------------------------------------- the writer

  // Everything from bit n on is clear.
  ghost predicate ClearFrom(bytes: seq<Byte>, n: nat) {
    forall i :: n <= i < 8 * |bytes| ==> !BitAt(bytes, i)
  }

  lemma AppendClear(bytes: seq<Byte>)
    ensures ClearFrom(bytes + [0], 8 * |bytes|)
  {
    hide BitIn;
    forall i | 8 * |bytes| <= i < 8 * |bytes| + 8 ensures !BitAt(bytes + [0], i) { NoBitInZero(i % 8); }
  }

  lemma RaiseBit(bytes: seq<Byte>, n: nat)
    requires n < 8 * |bytes| && ClearFrom(bytes, n)
    ensures var raised := bytes[n / 8 := bytes[n / 8] | Mask(n % 8)];
            ClearFrom(raised, n + 1) && BitsOf(raised)[..n + 1] == BitsOf(bytes)[..n] + [true]
  {
    hide BitIn, Mask;
    var raised := bytes[n / 8 := bytes[n / 8] | Mask(n % 8)];
    forall i | 0 <= i < 8 * |bytes| ensures BitAt(raised, i) == (i == n || BitAt(bytes, i)) {
      if i / 8 == n / 8 { SetBit(bytes[n / 8], n % 8, i % 8); }
    }
  }

  lemma LeaveBit(bytes: seq<Byte>, n: nat)
    requires n < 8 * |bytes| && ClearFrom(bytes, n)
    ensures ClearFrom(bytes, n + 1) && BitsOf(bytes)[..n + 1] == BitsOf(bytes)[..n] + [false]
  {
  }

  function FirstBits(bytes: seq<Byte>, n: nat): (s: seq<bool>)
    requires n <= 8 * |bytes|
    ensures |s| == n
  {
    BitsOf(bytes)[..n]
  }

  // Room for bit n, a fresh byte at each boundary.
  function Roomy(bytes: seq<Byte>, n: nat): seq<Byte> {
    if n % 8 == 0 then bytes + [0] else bytes
  }

  lemma PutBit(bytes: seq<Byte>, n: nat, on: bool)
    requires |bytes| == (n + 7) / 8 && ClearFrom(bytes, n)
    ensures var roomy := Roomy(bytes, n);
            && n / 8 < |roomy|
            && var put := if on then roomy[n / 8 := roomy[n / 8] | Mask(n % 8)] else roomy;
            |put| == (n + 8) / 8 && ClearFrom(put, n + 1) && FirstBits(put, n + 1) == FirstBits(bytes, n) + [on]
  {
    hide BitIn, Mask;
    var roomy := Roomy(bytes, n);
    if n % 8 == 0 {
      AppendClear(bytes);
      BitsOfAppend(bytes, [0]);
    }
    assert BitsOf(roomy)[..n] == BitsOf(bytes)[..n];
    RaiseBit(roomy, n);
    LeaveBit(roomy, n);
  }

  lemma Extend(a: seq<bool>, all: seq<bool>, k: nat)
    requires k < |all|
    ensures a + all[..k] + [all[k]] == a + all[..k + 1]
  {
  }

  class BitWriter {
    var bytes: seq<Byte>
    var nbits: nat

    ghost predicate Valid()
      reads this
    {
      |bytes| == (nbits + 7) / 8 && ClearFrom(bytes, nbits)
    }

    ghost function Bits(): (s: seq<bool>)
      reads this
      requires Valid()
      ensures |s| == nbits
    {
      FirstBits(bytes, nbits)
    }

    constructor ()
      ensures Valid() && Bits() == [] && bytes == [] && nbits == 0
    {
      bytes, nbits := [], 0;
    }

    // The low bits of value, highest first; a width of zero or less writes nothing.
    method Write(value: nat, bits: int)
      requires Valid()
      modifies this
      ensures Valid()
      ensures Bits() == old(Bits()) + NatBits(value, if bits > 0 then bits else 0)
    {
      hide BitIn, Mask, NatBit, ClearFrom, FirstBits;
      ghost var all := NatBits(value, if bits > 0 then bits else 0);
      var i := bits - 1;
      while i >= 0
        invariant i <= bits - 1 && (bits > 0 ==> i >= -1)
        invariant Valid()
        invariant Bits() == old(Bits()) + all[..if bits > 0 then bits - 1 - i else 0]
      {
        PutBit(bytes, nbits, NatBit(value, i));
        Extend(old(Bits()), all, bits - 1 - i);
        if nbits % 8 == 0 {
          bytes := bytes + [0];
        }
        if NatBit(value, i) {
          bytes := bytes[nbits / 8 := bytes[nbits / 8] | Mask(nbits % 8)];
        }
        nbits := nbits + 1;
        i := i - 1;
      }
      assert all[..|all|] == all;
    }
  }
}
