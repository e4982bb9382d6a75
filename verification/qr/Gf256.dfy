// Arithmetic over GF(256) with the primitive polynomial 0x11D: the two tables and the product
// looked up in them, and why that product is a field's.
module Gf256 {
  import opened Prelude

  type Byte = bv8

  // One step of the table's generator: multiply by x, reducing where the ninth bit appears.
  function Xtime(b: Byte): Byte {
    (b << 1) ^ (if b & 0x80 != 0 then 0x1D else 0)
  }

  function XtimeN(b: Byte, n: nat): Byte {
    if n == 0 then b else Xtime(XtimeN(b, n - 1))
  }

  // a^i
  function Exp(i: nat): Byte {
    XtimeN(1, i)
  }

  lemma HighBit(a: Byte)
    ensures a & 0x80 == 0 || a & 0x80 == 0x80
  {
  }

  lemma LinearLowLow(a: Byte, b: Byte)
    requires a & 0x80 == 0 && b & 0x80 == 0
    ensures Xtime(a ^ b) == Xtime(a) ^ Xtime(b)
  {
  }

  lemma LinearHighLow(a: Byte, b: Byte)
    requires a & 0x80 == 0x80 && b & 0x80 == 0
    ensures Xtime(a ^ b) == Xtime(a) ^ Xtime(b) && Xtime(b ^ a) == Xtime(b) ^ Xtime(a)
  {
  }

  lemma LinearHighHigh(a: Byte, b: Byte)
    requires a & 0x80 == 0x80 && b & 0x80 == 0x80
    ensures Xtime(a ^ b) == Xtime(a) ^ Xtime(b)
  {
  }

  lemma XtimeLinear(a: Byte, b: Byte)
    ensures Xtime(a ^ b) == Xtime(a) ^ Xtime(b)
  {
    HighBit(a);
    HighBit(b);
    if a & 0x80 == 0 {
      if b & 0x80 == 0 { LinearLowLow(a, b); } else { LinearHighLow(b, a); }
    } else {
      if b & 0x80 == 0 { LinearHighLow(a, b); } else { LinearHighHigh(a, b); }
    }
  }

  lemma XtimeInjective(a: Byte, b: Byte)
    requires Xtime(a) == Xtime(b)
    ensures a == b
  {
    HighBit(a);
    HighBit(b);
  }

  lemma {:induction false} XtimeNLinear(a: Byte, b: Byte, n: nat)
    ensures XtimeN(a ^ b, n) == XtimeN(a, n) ^ XtimeN(b, n)
  {
    hide Xtime;
    if n > 0 {
      XtimeNLinear(a, b, n - 1);
      XtimeLinear(XtimeN(a, n - 1), XtimeN(b, n - 1));
    }
  }

  lemma {:induction false} XtimeNZero(n: nat)
    ensures XtimeN(0, n) == 0
  {
    if n > 0 { XtimeNZero(n - 1); }
  }

  lemma {:induction false} XtimeNInjective(a: Byte, b: Byte, n: nat)
    requires XtimeN(a, n) == XtimeN(b, n)
    ensures a == b
  {
    if n > 0 {
      XtimeInjective(XtimeN(a, n - 1), XtimeN(b, n - 1));
      XtimeNInjective(a, b, n - 1);
    }
  }

  lemma {:induction false} XtimeNAdd(b: Byte, m: nat, n: nat)
    ensures XtimeN(b, m + n) == XtimeN(XtimeN(b, m), n)
  {
    if n > 0 { XtimeNAdd(b, m, n - 1); }
  }

  lemma ExpAdd(i: nat, j: nat)
    ensures Exp(i + j) == XtimeN(Exp(i), j)
  {
    XtimeNAdd(1, i, j);
  }

  lemma ExpZero()
    ensures Exp(0) == 1
  {
  }

  lemma ExpNonzero(i: nat)
    ensures Exp(i) != 0
  {
    if Exp(i) == 0 {
      XtimeNZero(i);
      XtimeNInjective(1, 0, i);
    }
  }

  // ---------------------------------------------------------------- a has order 255

  function Five(b: Byte): Byte {
    Xtime(Xtime(Xtime(Xtime(Xtime(b)))))
  }

  lemma ExpFive(i: nat)
    ensures Exp(i + 5) == Five(Exp(i))
  {
    assert Exp(i + 1) == Xtime(Exp(i));
    assert Exp(i + 2) == Xtime(Exp(i + 1));
    assert Exp(i + 3) == Xtime(Exp(i + 2));
    assert Exp(i + 4) == Xtime(Exp(i + 3));
    assert Exp(i + 5) == Xtime(Exp(i + 4));
  }

  lemma ExpFifteen(i: nat)
    ensures Exp(i + 15) == Five(Five(Five(Exp(i))))
  {
    ExpFive(i);
    ExpFive(i + 5);
    ExpFive(i + 10);
  }

  lemma Landmarks()
    ensures Exp(15) != 1 && Exp(51) != 1 && Exp(85) != 1 && Exp(255) == 1
  {
    assert Exp(0) == 1;
    ExpFifteen(0);    assert Exp(15) == 0x26;
    ExpFifteen(15);   assert Exp(30) == 0x60;
    ExpFifteen(30);   assert Exp(45) == 0xC1;
    ExpFive(45);      assert Exp(50) == 0x05;
    assert Exp(51) == Xtime(Exp(50));
    ExpFifteen(45);   assert Exp(60) == 0xB9;
    ExpFifteen(60);   assert Exp(75) == 0x0F;
    ExpFive(75);      assert Exp(80) == 0xFD;
    ExpFive(80);      assert Exp(85) == 0xD6;
    ExpFifteen(75);   assert Exp(90) == 0xDF;
    ExpFifteen(90);   assert Exp(105) == 0x1A;
    ExpFifteen(105);  assert Exp(120) == 0x3B;
    ExpFifteen(120);  assert Exp(135) == 0xA9;
    ExpFifteen(135);  assert Exp(150) == 0x55;
    ExpFifteen(150);  assert Exp(165) == 0x91;
    ExpFifteen(165);  assert Exp(180) == 0x96;
    ExpFifteen(180);  assert Exp(195) == 0x64;
    ExpFifteen(195);  assert Exp(210) == 0x59;
    ExpFifteen(210);  assert Exp(225) == 0x24;
    ExpFifteen(225);  assert Exp(240) == 0x2C;
    ExpFifteen(240);
  }

  // If a^m = 1 then a^(k*m + r) = a^r.
  lemma {:induction false} ExpPeriod(m: nat, k: nat, r: nat)
    requires Exp(m) == 1
    ensures Exp(k * m + r) == Exp(r)
    decreases k
  {
    if k > 0 {
      assert k * m + r == m + ((k - 1) * m + r);
      ExpAdd(m, (k - 1) * m + r);
      ExpPeriod(m, k - 1, r);
    }
  }

  // The proper divisors of 255 = 3 * 5 * 17 each divide 15, 51 or 85.
  lemma Divisors(m: nat, k: nat)
    requires k * m == 255 && 1 < k
    ensures m > 0 && (15 % m == 0 || 51 % m == 0 || 85 % m == 0)
  {
    if m >= 16 {
      assert k < 16;
      assert k == 3 || k == 5 || k == 15;
    }
  }

  lemma {:induction false} LeastPeriod(i: nat) returns (m: nat)
    requires 0 < i && Exp(i) == 1
    ensures 0 < m <= i && Exp(m) == 1 && forall j :: 0 < j < m ==> Exp(j) != 1
  {
    if j :| 0 < j < i && Exp(j) == 1 { m := LeastPeriod(j); } else { m := i; }
  }

  lemma PeriodDivides(m: nat, i: nat)
    requires 0 < m && Exp(m) == 1 && Exp(i) == 1 && forall j :: 0 < j < m ==> Exp(j) != 1
    ensures i % m == 0
  {
    ExpPeriod(m, i / m, i % m);
    assert i == (i / m) * m + i % m;
  }

  lemma MultiplePeriod(m: nat, i: nat)
    requires 0 < m && Exp(m) == 1 && i % m == 0
    ensures Exp(i) == 1
  {
    ExpPeriod(m, i / m, 0);
    assert i == (i / m) * m;
  }

  // a has order exactly 255.
  lemma Order(i: nat)
    requires 0 < i < 255
    ensures Exp(i) != 1
  {
    hide Exp;
    if Exp(i) == 1 {
      Landmarks();
      var m := LeastPeriod(i);
      PeriodDivides(m, 255);
      var k := 255 / m;
      assert k * m == 255 && k != 1;
      Divisors(m, k);
      if 15 % m == 0 { MultiplePeriod(m, 15); }
      if 51 % m == 0 { MultiplePeriod(m, 51); }
      if 85 % m == 0 { MultiplePeriod(m, 85); }
    }
  }

  // The exponentials below 255 are all different ...
  lemma ExpInjective(i: nat, j: nat)
    requires i <= j < 255 && Exp(i) == Exp(j)
    ensures i == j
  {
    ExpAdd(j - i, i);
    XtimeNInjective(1, Exp(j - i), i);
    if i < j { Order(j - i); }
  }

  lemma ExpWraps(i: nat)
    ensures Exp(i + 255) == Exp(i)
  {
    Landmarks();
    ExpPeriod(255, 1, i);
  }

  // ... and every nonzero byte is one of them.
  function Bit(b: Byte, mask: Byte, weight: nat): nat {
    if b & mask != 0 then weight else 0
  }

  function Value(b: Byte): nat {
    Bit(b, 0x80, 128) + Bit(b, 0x40, 64) + Bit(b, 0x20, 32) + Bit(b, 0x10, 16)
    + Bit(b, 0x08, 8) + Bit(b, 0x04, 4) + Bit(b, 0x02, 2) + Bit(b, 0x01, 1)
  }

  lemma SameBits(a: Byte, b: Byte)
    requires (a & 0x80 != 0) == (b & 0x80 != 0) && (a & 0x40 != 0) == (b & 0x40 != 0)
    requires (a & 0x20 != 0) == (b & 0x20 != 0) && (a & 0x10 != 0) == (b & 0x10 != 0)
    requires (a & 0x08 != 0) == (b & 0x08 != 0) && (a & 0x04 != 0) == (b & 0x04 != 0)
    requires (a & 0x02 != 0) == (b & 0x02 != 0) && (a & 0x01 != 0) == (b & 0x01 != 0)
    ensures a == b
  {
  }

  lemma ValueInjective(a: Byte, b: Byte)
    requires Value(a) == Value(b)
    ensures a == b
  {
    SameBits(a, b);
  }

  lemma ValueZero(b: Byte)
    ensures Value(b) < 256 && (Value(b) == 0 <==> b == 0)
  {
    if Value(b) == 0 { ValueInjective(b, 0); }
  }

  lemma EveryByteIsAPower(b: Byte)
    requires b != 0
    ensures exists i :: 0 <= i < 255 && Exp(i) == b
  {
    if forall i :: 0 <= i < 255 ==> Exp(i) != b {
      var s := seq(257, (i: nat) => if i < 255 then Value(Exp(i)) else if i == 255 then Value(0) else Value(b));
      forall i | 0 <= i < 257 ensures 0 <= s[i] < 256 {
        if i < 255 { ValueZero(Exp(i)); }
        ValueZero(b);
        ValueZero(0);
      }
      Pigeonhole(s, 256);
      var i, j :| 0 <= i < j < |s| && s[i] == s[j];
      Collision(b, i, j);
    }
  }

  lemma Collision(b: Byte, i: nat, j: nat)
    requires i < j < 257 && b != 0
    requires (if i < 255 then Value(Exp(i)) else Value(0)) ==
             (if j < 255 then Value(Exp(j)) else if j == 255 then Value(0) else Value(b))
    ensures exists k :: 0 <= k < 255 && Exp(k) == b
  {
    if j < 255 {
      ValueInjective(Exp(i), Exp(j));
      ExpInjective(i, j);
    } else if j == 255 {
      ValueInjective(Exp(i), 0);
      ExpNonzero(i);
    } else if i < 255 {
      ValueInjective(Exp(i), b);
    } else {
      ValueInjective(0, b);
    }
  }

  // ---------------------------------------------------------------- logarithm and product

  lemma LogIsOne(b: Byte)
    ensures forall i: nat, j: nat :: i < 255 && j < 255 && Exp(i) == b && Exp(j) == b ==> i == j
  {
    forall i: nat, j: nat | i < 255 && j < 255 && Exp(i) == b && Exp(j) == b ensures i == j {
      if i <= j { ExpInjective(i, j); } else { ExpInjective(j, i); }
    }
  }

  function Log(b: Byte): (i: nat)
    requires b != 0
    ensures i < 255 && Exp(i) == b
  {
    EveryByteIsAPower(b);
    LogIsOne(b);
    var i: nat :| i < 255 && Exp(i) == b;
    i
  }

  // The product the two tables compute.
  function Mul(a: Byte, b: Byte): Byte {
    if a == 0 || b == 0 then 0 else Exp(Log(a) + Log(b))
  }

  lemma ExpReduce(i: nat)
    ensures Exp(i) == Exp(i % 255)
  {
    Landmarks();
    ExpPeriod(255, i / 255, i % 255);
    assert i == (i / 255) * 255 + i % 255;
  }

  lemma LogExp(i: nat)
    ensures Exp(i) != 0 && Log(Exp(i)) == i % 255
  {
    ExpNonzero(i);
    ExpReduce(i);
    LogIsOne(Exp(i));
  }

  lemma SumMod(i: nat, j: nat)
    ensures (i % 255 + j % 255) % 255 == (i + j) % 255
  {
  }

  lemma MulExp(i: nat, j: nat)
    ensures Mul(Exp(i), Exp(j)) == Exp(i + j)
  {
    hide Exp;
    LogExp(i);
    LogExp(j);
    ExpReduce(i + j);
    ExpReduce(i % 255 + j % 255);
    SumMod(i, j);
  }

  // Multiplying by a^i is i steps of the generator, which is why the product distributes.
  lemma MulIsSteps(i: nat, b: Byte)
    ensures Mul(Exp(i), b) == XtimeN(b, i)
  {
    hide Exp, XtimeN, Xtime;
    if b == 0 {
      XtimeNZero(i);
    } else {
      var j := Log(b);
      MulExp(i, j);
      ExpAdd(j, i);
    }
  }

  lemma MulCommutes(a: Byte, b: Byte)
    ensures Mul(a, b) == Mul(b, a)
  {
  }

  lemma MulNonzero(a: Byte, b: Byte)
    ensures Mul(a, b) == 0 <==> a == 0 || b == 0
  {
    if a != 0 && b != 0 { ExpNonzero(Log(a) + Log(b)); }
  }

  lemma MulAssociates(a: Byte, b: Byte, c: Byte)
    ensures Mul(Mul(a, b), c) == Mul(a, Mul(b, c))
  {
    MulNonzero(a, b);
    MulNonzero(b, c);
    if a != 0 && b != 0 && c != 0 {
      MulExp(Log(a) + Log(b), Log(c));
      MulExp(Log(a), Log(b) + Log(c));
    }
  }

  lemma MulOne(a: Byte)
    ensures Mul(1, a) == a && Mul(a, 1) == a
  {
    assert Exp(0) == 1;
    if a != 0 {
      MulExp(0, Log(a));
      MulExp(Log(a), 0);
    }
  }

  lemma MulInverse(a: Byte)
    requires a != 0
    ensures exists b :: b != 0 && Mul(a, b) == 1
  {
    var b := Exp(255 - Log(a));
    ExpNonzero(255 - Log(a));
    MulExp(Log(a), 255 - Log(a));
    Landmarks();
    assert Mul(a, b) == 1;
  }

  lemma MulDistributes(a: Byte, b: Byte, c: Byte)
    ensures Mul(a, b ^ c) == Mul(a, b) ^ Mul(a, c)
  {
    if a != 0 {
      hide Xtime;
      MulIsSteps(Log(a), b);
      MulIsSteps(Log(a), c);
      MulIsSteps(Log(a), b ^ c);
      XtimeNLinear(b, c, Log(a));
    }
  }

  // Addition, and subtraction, is XOR.
  function Plus(a: Byte, b: Byte): Byte {
    a ^ b
  }

  lemma PlusAssociates(a: Byte, b: Byte, c: Byte)
    ensures Plus(Plus(a, b), c) == Plus(a, Plus(b, c)) && Plus(a, b) == Plus(b, a)
  {
  }

  lemma PlusSwap(a: Byte, b: Byte, c: Byte, d: Byte)
    ensures Plus(Plus(a, b), Plus(c, d)) == Plus(Plus(a, c), Plus(b, d))
  {
    hide Plus;
    PlusAssociates(a, b, Plus(c, d));
    PlusAssociates(b, c, d);
    PlusAssociates(c, b, d);
    PlusAssociates(a, c, Plus(b, d));
  }

  lemma PlusSelf(a: Byte)
    ensures Plus(a, a) == 0 && Plus(a, 0) == a && Plus(0, a) == a
  {
  }

  lemma PlusCancels(a: Byte, b: Byte)
    ensures Plus(a, b) == Plus(b, a) && Plus(a, Plus(a, b)) == b && (Plus(a, b) == 0 <==> a == b)
  {
  }

  lemma PlusTimes(u: Byte, v: Byte, x: Byte)
    ensures Mul(Plus(u, v), x) == Plus(Mul(u, x), Mul(v, x)) && Mul(x, Plus(u, v)) == Plus(Mul(x, u), Mul(x, v))
  {
    hide Mul;
    MulCommutes(u ^ v, x);
    MulCommutes(u, x);
    MulCommutes(v, x);
    MulDistributes(x, u, v);
  }

  // ---------------------------------------------------------------- the tables

  // gfExp, doubled so that a sum of two logs needs no modulo, and gfLog.
  datatype Tables = Tables(exp: seq<Byte>, log: seq<nat>)

  ghost predicate IsTables(t: Tables) {
    && |t.exp| == 512 && |t.log| == 256
    && (forall i :: 0 <= i < 512 ==> t.exp[i] == Exp(i))
    && (forall i: nat {:trigger Exp(i)} :: i < 255 ==> Value(Exp(i)) < 256 && t.log[Value(Exp(i))] == i)
  }

  method InitTables() returns (t: Tables)
    ensures IsTables(t)
  {
    var exp, log := new Byte[512], new nat[256];
    var x: Byte := 1;
    for i := 0 to 255
      invariant x == Exp(i)
      invariant forall k :: 0 <= k < i ==> exp[k] == Exp(k)
      invariant forall k: nat {:trigger Exp(k)} :: k < i ==> Value(Exp(k)) < 256 && log[Value(Exp(k))] == k
    {
      ValueZero(x);
      exp[i] := x;
      forall k: nat | k < i ensures Value(Exp(k)) != Value(x) {
        if Value(Exp(k)) == Value(x) { ValueInjective(Exp(k), x); ExpInjective(k, i); }
      }
      log[Value(x)] := i;
      x := Xtime(x);
    }
    for i := 255 to 512
      invariant forall k :: 0 <= k < i ==> exp[k] == Exp(k)
      invariant forall k: nat {:trigger Exp(k)} :: k < 255 ==> Value(Exp(k)) < 256 && log[Value(Exp(k))] == k
    {
      ExpWraps(i - 255);
      exp[i] := exp[i - 255];
    }
    t := Tables(exp[..], log[..]);
  }

  method GfMul(t: Tables, a: Byte, b: Byte) returns (r: Byte)
    requires IsTables(t)
    ensures r == Mul(a, b)
  {
    if a == 0 || b == 0 {
      return 0;
    }
    ValueZero(a);
    ValueZero(b);
    assert t.log[Value(Exp(Log(a)))] == Log(a) && t.log[Value(Exp(Log(b)))] == Log(b);
    r := t.exp[t.log[Value(a)] + t.log[Value(b)]];
  }
}
