// The Reed-Solomon encoder: the generator polynomial, division by it in place, and why data
// followed by its remainder is a codeword. Coefficients run from the highest power down.
module ReedSolomon {
  import opened Gf256

  // Horner's rule.
  function Eval(p: seq<Byte>, x: Byte): Byte {
    if p == [] then 0 else Plus(Mul(Eval(p[..|p| - 1], x), x), p[|p| - 1])
  }

  function Zeros(n: nat): (s: seq<Byte>)
    ensures |s| == n && forall i :: 0 <= i < n ==> s[i] == 0
  {
    seq(n, _ => 0)
  }

  function Added(p: seq<Byte>, q: seq<Byte>): (s: seq<Byte>)
    requires |p| == |q|
    ensures |s| == |p| && forall i :: 0 <= i < |p| ==> s[i] == Plus(p[i], q[i])
  {
    seq(|p|, i requires 0 <= i < |p| => Plus(p[i], q[i]))
  }

  function Scaled(p: seq<Byte>, c: Byte): (s: seq<Byte>)
    ensures |s| == |p| && forall i :: 0 <= i < |p| ==> s[i] == Mul(p[i], c)
  {
    seq(|p|, i requires 0 <= i < |p| => Mul(p[i], c))
  }

  // ---------------------------------------------------------------- evaluation is linear

  lemma {:induction false} EvalAdded(p: seq<Byte>, q: seq<Byte>, x: Byte)
    requires |p| == |q|
    ensures Eval(Added(p, q), x) == Plus(Eval(p, x), Eval(q, x))
    decreases |p|
  {
    hide Mul, Plus;
    if p != [] {
      var n := |p| - 1;
      EvalAdded(p[..n], q[..n], x);
      assert Added(p, q)[..n] == Added(p[..n], q[..n]);
      var u, v := Eval(p[..n], x), Eval(q[..n], x);
      PlusTimes(u, v, x);
      PlusSwap(Mul(u, x), Mul(v, x), p[n], q[n]);
    } else {
      PlusSelf(0);
    }
  }

  lemma {:induction false} EvalScaled(p: seq<Byte>, c: Byte, x: Byte)
    ensures Eval(Scaled(p, c), x) == Mul(Eval(p, x), c)
    decreases |p|
  {
    hide Mul, Plus;
    if p != [] {
      var n := |p| - 1;
      EvalScaled(p[..n], c, x);
      assert Scaled(p, c)[..n] == Scaled(p[..n], c);
      var u := Eval(p[..n], x);
      MulAssociates(u, c, x);
      MulCommutes(c, x);
      MulAssociates(u, x, c);
      PlusTimes(Mul(u, x), p[n], c);
    } else {
      MulNonzero(0, c);
    }
  }

  lemma EvalTimesX(p: seq<Byte>, x: Byte)
    ensures Eval(p + [0], x) == Mul(Eval(p, x), x)
  {
    hide Mul, Plus;
    assert (p + [0])[..|p|] == p;
    PlusSelf(Mul(Eval(p, x), x));
  }

  lemma {:induction false} EvalTrailingZeros(p: seq<Byte>, n: nat, x: Byte)
    requires Eval(p, x) == 0
    ensures Eval(p + Zeros(n), x) == 0
  {
    hide Mul, Plus;
    if n == 0 {
      assert p + Zeros(0) == p;
    } else {
      EvalTrailingZeros(p, n - 1, x);
      assert p + Zeros(n) == (p + Zeros(n - 1)) + [0];
      EvalTimesX(p + Zeros(n - 1), x);
      MulNonzero(0, x);
    }
  }

  lemma {:induction false} EvalLeadingZeros(n: nat, p: seq<Byte>, x: Byte)
    ensures Eval(Zeros(n) + p, x) == Eval(p, x)
    decreases n + |p|
  {
    hide Mul, Plus;
    var s := Zeros(n) + p;
    if p != [] {
      assert s[..|s| - 1] == Zeros(n) + p[..|p| - 1];
      EvalLeadingZeros(n, p[..|p| - 1], x);
    } else if n > 0 {
      assert s[..|s| - 1] == Zeros(n - 1) + p;
      EvalLeadingZeros(n - 1, p, x);
      MulNonzero(0, x);
      PlusSelf(0);
    }
  }

  // ---------------------------------------------------------------- the generator

  // g * (x - r); in this field subtraction is XOR.
  function TimesRoot(g: seq<Byte>, r: Byte): seq<Byte> {
    Added(g + [0], [0] + Scaled(g, r))
  }

  function Generator(n: nat): (g: seq<Byte>)
    ensures |g| == n + 1
  {
    if n == 0 then [1] else TimesRoot(Generator(n - 1), Exp(n - 1))
  }

  lemma EvalTimesRoot(g: seq<Byte>, r: Byte, x: Byte)
    ensures Eval(TimesRoot(g, r), x) == Mul(Eval(g, x), Plus(x, r))
  {
    hide Mul, Plus;
    EvalAdded(g + [0], [0] + Scaled(g, r), x);
    EvalTimesX(g, x);
    assert [0] + Scaled(g, r) == Zeros(1) + Scaled(g, r);
    EvalLeadingZeros(1, Scaled(g, r), x);
    EvalScaled(g, r, x);
    PlusTimes(x, r, Eval(g, x));
  }

  // It vanishes at a^0 .. a^(n-1).
  lemma {:induction false} GeneratorRoots(n: nat, k: nat)
    requires k < n
    ensures Eval(Generator(n), Exp(k)) == 0
  {
    hide Mul, Exp, Plus, TimesRoot, Eval;
    EvalTimesRoot(Generator(n - 1), Exp(n - 1), Exp(k));
    if k == n - 1 {
      PlusSelf(Exp(k));
      MulNonzero(Eval(Generator(n - 1), Exp(k)), 0);
    } else {
      GeneratorRoots(n - 1, k);
      MulNonzero(0, Plus(Exp(k), Exp(n - 1)));
    }
  }

  lemma {:induction false} GeneratorIsMonic(n: nat)
    ensures Generator(n)[0] == 1
  {
    hide Mul, Exp, Plus;
    if n > 0 {
      GeneratorIsMonic(n - 1);
      PlusSelf(1);
    }
  }

  // One pass of the inner loop: next[j] gathers g[j] and the scaled coefficient before it.
  method MultiplyByRoot(t: Tables, g: array<Byte>, r: Byte) returns (next: array<Byte>)
    requires IsTables(t)
    ensures next[..] == TimesRoot(g[..], r) && fresh(next)
  {
    hide Mul, Exp, Plus, IsTables;
    next := new Byte[g.Length + 1](_ => 0);
    PlusSelf(0);
    for j := 0 to g.Length
      invariant forall m :: 0 <= m < j ==> next[m] == TimesRoot(g[..], r)[m]
      invariant next[j] == if j == 0 then 0 else Mul(g[j - 1], r)
      invariant forall m :: j < m <= g.Length ==> next[m] == 0
    {
      PlusSelf(next[j + 1]);
      PlusSelf(Mul(g[j], r));
      PlusAssociates(next[j], g[j], 0);
      next[j] := Plus(next[j], g[j]);
      var product := GfMul(t, g[j], r);
      next[j + 1] := Plus(next[j + 1], product);
    }
    PlusSelf(next[g.Length]);
  }

  method RsGenerator(t: Tables, n: nat) returns (g: array<Byte>)
    requires IsTables(t) && n <= 512
    ensures g[..] == Generator(n) && fresh(g)
  {
    hide Mul, Exp, Plus;
    g := new Byte[1] [1];
    for i := 0 to n
      invariant g[..] == Generator(i) && fresh(g)
    {
      g := MultiplyByRoot(t, g, t.exp[i]);
    }
  }

  // ---------------------------------------------------------------- division

  // gen scaled by c, its leading coefficient standing at index i of n.
  function Shifted(gen: seq<Byte>, c: Byte, i: nat, n: nat): (s: seq<Byte>)
    requires i + |gen| <= n
    ensures |s| == n
  {
    Zeros(i) + Scaled(gen, c) + Zeros(n - i - |gen|)
  }

  // Cancel the coefficient at index i.
  function Cancelled(rem: seq<Byte>, gen: seq<Byte>, i: nat): (s: seq<Byte>)
    requires i + |gen| <= |rem| && |gen| > 0
    ensures |s| == |rem|
  {
    Added(rem, Shifted(gen, rem[i], i, |rem|))
  }

  // The dividend after its first i coefficients have been cancelled in turn.
  function Divided(rem: seq<Byte>, gen: seq<Byte>, i: nat): (s: seq<Byte>)
    requires |gen| > 0 && i + |gen| <= |rem| + 1
    ensures |s| == |rem|
  {
    if i == 0 then rem else Cancelled(Divided(rem, gen, i - 1), gen, i - 1)
  }

  // The n error-correction codewords of a block.
  function Check(data: seq<Byte>, n: nat): (ec: seq<Byte>)
    ensures |ec| == n
  {
    Divided(data + Zeros(n), Generator(n), |data|)[|data|..]
  }

  lemma ShiftedVanishes(gen: seq<Byte>, c: Byte, i: nat, n: nat, x: Byte)
    requires i + |gen| <= n && Eval(gen, x) == 0
    ensures Eval(Shifted(gen, c, i, n), x) == 0
  {
    hide Mul, Plus;
    EvalScaled(gen, c, x);
    MulNonzero(0, c);
    EvalLeadingZeros(i, Scaled(gen, c), x);
    EvalTrailingZeros(Zeros(i) + Scaled(gen, c), n - i - |gen|, x);
  }

  // Division changes nothing at a root of the divisor, and clears what it has passed.
  lemma {:induction false} DividedKeepsRoots(rem: seq<Byte>, gen: seq<Byte>, i: nat, x: Byte)
    requires |gen| > 0 && i + |gen| <= |rem| + 1 && Eval(gen, x) == 0
    ensures Eval(Divided(rem, gen, i), x) == Eval(rem, x)
    decreases i
  {
    hide Mul, Plus, Scaled;
    if i > 0 {
      var before := Divided(rem, gen, i - 1);
      DividedKeepsRoots(rem, gen, i - 1, x);
      EvalAdded(before, Shifted(gen, before[i - 1], i - 1, |rem|), x);
      ShiftedVanishes(gen, before[i - 1], i - 1, |rem|, x);
      PlusSelf(Eval(before, x));
    }
  }

  lemma {:induction false} DividedClears(rem: seq<Byte>, gen: seq<Byte>, i: nat, k: nat)
    requires |gen| > 0 && gen[0] == 1 && i + |gen| <= |rem| + 1 && k < i
    ensures Divided(rem, gen, i)[k] == 0
    decreases i
  {
    hide Mul, Plus;
    var before := Divided(rem, gen, i - 1);
    var shifted := Shifted(gen, before[i - 1], i - 1, |rem|);
    if k < i - 1 {
      DividedClears(rem, gen, i - 1, k);
      assert shifted[k] == 0;
      PlusSelf(0);
    } else {
      assert shifted[k] == Mul(1, before[k]);
      MulOne(before[k]);
      PlusSelf(before[k]);
    }
  }

  // The quotient's part of the remainder is clear, so it is the check codewords alone ...
  lemma RemainderIsCheck(data: seq<Byte>, n: nat)
    ensures Divided(data + Zeros(n), Generator(n), |data|) == Zeros(|data|) + Check(data, n)
  {
    hide Mul, Plus, Exp, Divided, Generator;
    GeneratorIsMonic(n);
    var rest := Divided(data + Zeros(n), Generator(n), |data|);
    forall i | 0 <= i < |data| ensures rest[i] == 0 { DividedClears(data + Zeros(n), Generator(n), |data|, i); }
  }

  // ... and subtracting it from the dividend writes them after the data.
  lemma DataThenCheck(data: seq<Byte>, ec: seq<Byte>)
    ensures data + ec == Added(data + Zeros(|ec|), Zeros(|data|) + ec)
  {
    hide Plus;
    forall i | 0 <= i < |data| + |ec|
      ensures (data + ec)[i] == Plus((data + Zeros(|ec|))[i], (Zeros(|data|) + ec)[i])
    {
      PlusSelf((data + ec)[i]);
    }
  }

  // data followed by its check codewords vanishes at a^0 .. a^(n-1): it is a codeword.
  lemma CheckIsCodeword(data: seq<Byte>, n: nat, k: nat)
    requires k < n
    ensures Eval(data + Check(data, n), Exp(k)) == 0
  {
    hide Mul, Plus, Exp, Divided, Generator, Check, Eval;
    var dividend, x := data + Zeros(n), Exp(k);
    GeneratorRoots(n, k);
    DividedKeepsRoots(dividend, Generator(n), |data|, x);
    RemainderIsCheck(data, n);
    DataThenCheck(data, Check(data, n));
    EvalAdded(dividend, Zeros(|data|) + Check(data, n), x);
    PlusSelf(Eval(dividend, x));
  }

  // The inner loop of rsEncode, in place.
  method Cancel(t: Tables, rem: array<Byte>, gen: array<Byte>, i: nat, lead: Byte)
    requires IsTables(t)
    requires rem != gen && gen.Length > 0 && i + gen.Length <= rem.Length && lead == rem[i]
    modifies rem
    ensures rem[..] == Cancelled(old(rem[..]), gen[..], i)
  {
    hide Mul, Plus, IsTables;
    ghost var was := rem[..];
    ghost var shifted := Shifted(gen[..], lead, i, rem.Length);
    for j := 0 to gen.Length
      invariant forall m :: 0 <= m < rem.Length ==> rem[m] == if i <= m < i + j then Plus(was[m], shifted[m]) else was[m]
    {
      assert shifted[i + j] == Mul(gen[j], lead);
      var product := GfMul(t, gen[j], lead);
      rem[i + j] := Plus(rem[i + j], product);
    }
    forall m | 0 <= m < rem.Length ensures rem[m] == Plus(was[m], shifted[m]) { PlusSelf(was[m]); }
  }

  method RsEncode(t: Tables, data: seq<Byte>, n: nat) returns (ec: seq<Byte>)
    requires IsTables(t) && n <= 512
    ensures ec == Check(data, n)
    ensures forall k: nat :: k < n ==> Eval(data + ec, Exp(k)) == 0
  {
    hide Mul, Plus, Exp, IsTables;
    var gen := RsGenerator(t, n);
    var dividend := data + Zeros(n);
    var rem := new Byte[|data| + n](i requires 0 <= i < |dividend| => dividend[i]);
    for i := 0 to |data|
      invariant rem[..] == Divided(dividend, gen[..], i) && gen[..] == Generator(n)
    {
      var lead := rem[i];
      if lead == 0 {
        NothingToCancel(rem[..], gen[..], i);
      } else {
        Cancel(t, rem, gen, i, lead);
      }
    }
    ec := rem[|data|..];
    forall k: nat | k < n ensures Eval(data + ec, Exp(k)) == 0 { CheckIsCodeword(data, n, k); }
  }

  lemma NothingToCancel(rem: seq<Byte>, gen: seq<Byte>, i: nat)
    requires |gen| > 0 && i + |gen| <= |rem| && rem[i] == 0
    ensures Cancelled(rem, gen, i) == rem
  {
    hide Mul, Plus;
    forall j | 0 <= j < |gen| ensures Mul(gen[j], 0) == 0 { MulNonzero(gen[j], 0); }
    forall m | 0 <= m < |rem| ensures Plus(rem[m], Shifted(gen, 0, i, |rem|)[m]) == rem[m] { PlusSelf(rem[m]); }
  }
}
