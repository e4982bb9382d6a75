// How much the error-correction codewords buy: two different blocks of one length differ in more
// places than there are check codewords.
module RsDistance {
  import opened Gf256
  import opened ReedSolomon

  function Pow(x: Byte, k: nat): Byte {
    if k == 0 then 1 else Mul(Pow(x, k - 1), x)
  }

  // The sum of c[j] * locs[j]^k.
  function PowerSum(c: seq<Byte>, locs: seq<Byte>, k: nat): Byte
    requires |c| == |locs|
  {
    if c == [] then 0
    else Plus(PowerSum(c[..|c| - 1], locs[..|c| - 1], k), Mul(c[|c| - 1], Pow(locs[|c| - 1], k)))
  }

  function Weight(c: seq<Byte>): nat {
    if c == [] then 0 else Weight(c[..|c| - 1]) + (if c[|c| - 1] != 0 then 1 else 0)
  }

  predicate Distinct(locs: seq<Byte>) {
    forall i, j :: 0 <= i < j < |locs| ==> locs[i] != locs[j]
  }

  // ---------------------------------------------------------------- weight

  lemma {:induction false} WeightMonotone(c: seq<Byte>, c': seq<Byte>)
    requires |c| == |c'| && forall j :: 0 <= j < |c| ==> (c[j] == 0 ==> c'[j] == 0)
    ensures Weight(c') <= Weight(c)
    decreases |c|
  {
    if c != [] { WeightMonotone(c[..|c| - 1], c'[..|c| - 1]); }
  }

  lemma {:induction false} WeightDrops(c: seq<Byte>, c': seq<Byte>, p: nat)
    requires |c| == |c'| && p < |c| && c[p] != 0 && c'[p] == 0
    requires forall j :: 0 <= j < |c| ==> (c[j] == 0 ==> c'[j] == 0)
    ensures Weight(c') < Weight(c)
    decreases |c|
  {
    var n := |c| - 1;
    if p == n { WeightMonotone(c[..n], c'[..n]); } else { WeightDrops(c[..n], c'[..n], p); }
  }

  lemma {:induction false} WeightZero(c: seq<Byte>, j: nat)
    requires Weight(c) == 0 && j < |c|
    ensures c[j] == 0
    decreases |c|
  {
    if j < |c| - 1 { WeightZero(c[..|c| - 1], j); }
  }

  // ---------------------------------------------------------------- dropping one location

  // Every coefficient times (its location - r): the coefficient at location r goes to zero and no
  // other does.
  function Filtered(c: seq<Byte>, locs: seq<Byte>, r: Byte): (s: seq<Byte>)
    requires |c| == |locs|
    ensures |s| == |c| && forall j :: 0 <= j < |c| ==> s[j] == Mul(c[j], Plus(locs[j], r))
  {
    seq(|c|, j requires 0 <= j < |c| => Mul(c[j], Plus(locs[j], r)))
  }

  lemma FilteredTerm(c: Byte, l: Byte, r: Byte, k: nat)
    ensures Mul(Mul(c, Plus(l, r)), Pow(l, k)) == Plus(Mul(c, Pow(l, k + 1)), Mul(r, Mul(c, Pow(l, k))))
  {
    hide Mul, Plus;
    var p := Pow(l, k);
    PlusTimes(l, r, c);
    PlusTimes(Mul(c, l), Mul(c, r), p);
    MulAssociates(c, l, p);
    MulCommutes(l, p);
    MulCommutes(c, r);
    MulAssociates(r, c, p);
  }

  lemma {:induction false} PowerSumFiltered(c: seq<Byte>, locs: seq<Byte>, r: Byte, k: nat)
    requires |c| == |locs|
    ensures PowerSum(Filtered(c, locs, r), locs, k) == Plus(PowerSum(c, locs, k + 1), Mul(r, PowerSum(c, locs, k)))
    decreases |c|
  {
    hide Mul, Plus, Pow;
    if c == [] {
      MulNonzero(r, 0);
      PlusSelf(0);
    } else {
      var n := |c| - 1;
      PowerSumFiltered(c[..n], locs[..n], r, k);
      assert Filtered(c, locs, r)[..n] == Filtered(c[..n], locs[..n], r);
      FilteredTerm(c[n], locs[n], r, k);
      var a, b := PowerSum(c[..n], locs[..n], k + 1), PowerSum(c[..n], locs[..n], k);
      var s, t := Mul(c[n], Pow(locs[n], k + 1)), Mul(c[n], Pow(locs[n], k));
      PlusSwap(a, Mul(r, b), s, Mul(r, t));
      PlusTimes(b, t, r);
    }
  }

  lemma {:induction false} PowerSumOfZeros(c: seq<Byte>, locs: seq<Byte>, k: nat)
    requires |c| == |locs| && forall j :: 0 <= j < |c| ==> c[j] == 0
    ensures PowerSum(c, locs, k) == 0
    decreases |c|
  {
    hide Mul, Plus, Pow;
    if c != [] {
      PowerSumOfZeros(c[..|c| - 1], locs[..|c| - 1], k);
      MulNonzero(0, Pow(locs[|c| - 1], k));
      PlusSelf(0);
    }
  }

  lemma {:induction false} PowerSumSingle(c: seq<Byte>, locs: seq<Byte>, p: nat)
    requires |c| == |locs| && p < |c| && forall j :: 0 <= j < |c| && j != p ==> c[j] == 0
    ensures PowerSum(c, locs, 0) == c[p]
    decreases |c|
  {
    hide Mul, Plus;
    var n := |c| - 1;
    assert Pow(locs[n], 0) == 1;
    MulOne(c[n]);
    PlusSelf(c[p]);
    if p == n { PowerSumOfZeros(c[..n], locs[..n], 0); } else { PowerSumSingle(c[..n], locs[..n], p); }
  }

  // If the first m power sums vanish, at most m nonzero coefficients are none at all: the
  // Vandermonde argument, one location at a time.
  lemma {:induction false} NoLightWord(c: seq<Byte>, locs: seq<Byte>, m: nat)
    requires |c| == |locs| && Distinct(locs) && Weight(c) <= m
    requires forall k: nat :: k < m ==> PowerSum(c, locs, k) == 0
    ensures forall j :: 0 <= j < |c| ==> c[j] == 0
    decreases m
  {
    hide Mul, Plus, Pow, PowerSum;
    if m == 0 {
      forall j | 0 <= j < |c| ensures c[j] == 0 { WeightZero(c, j); }
    } else if p :| 0 <= p < |c| && c[p] != 0 {
      var c' := Filtered(c, locs, locs[p]);
      forall j | 0 <= j < |c| ensures c'[j] == 0 <==> c[j] == 0 || j == p {
        MulNonzero(c[j], Plus(locs[j], locs[p]));
        PlusCancels(locs[j], locs[p]);
      }
      WeightDrops(c, c', p);
      forall k: nat | k < m - 1 ensures PowerSum(c', locs, k) == 0 {
        PowerSumFiltered(c, locs, locs[p], k);
        MulNonzero(locs[p], 0);
        PlusSelf(0);
      }
      NoLightWord(c', locs, m - 1);
      PowerSumSingle(c, locs, p);
    }
  }

  // ---------------------------------------------------------------- evaluation as power sums

  // The location of coefficient j in a word of n: the power of a its place stands for.
  function Locations(n: nat): (s: seq<Byte>)
    ensures |s| == n && forall j :: 0 <= j < n ==> s[j] == Exp(n - 1 - j)
  {
    seq(n, j requires 0 <= j < n => Exp(n - 1 - j))
  }

  lemma {:induction false} PowStep(l: Byte, k: nat)
    ensures Pow(Mul(l, Exp(1)), k) == Mul(Pow(l, k), Exp(k))
  {
    hide Mul, Exp;
    if k == 0 {
      ExpZero();
      MulOne(1);
    } else {
      PowStep(l, k - 1);
      var p := Pow(l, k - 1);
      MulAssociates(p, Exp(k - 1), Mul(l, Exp(1)));
      MulAssociates(Exp(k - 1), l, Exp(1));
      MulCommutes(Exp(k - 1), l);
      MulAssociates(l, Exp(k - 1), Exp(1));
      MulExp(k - 1, 1);
      MulAssociates(p, l, Exp(k));
    }
  }

  lemma {:induction false} PowerSumShifted(c: seq<Byte>, locs: seq<Byte>, locs': seq<Byte>, k: nat)
    requires |c| == |locs| == |locs'| && forall j :: 0 <= j < |c| ==> locs'[j] == Mul(locs[j], Exp(1))
    ensures PowerSum(c, locs', k) == Mul(PowerSum(c, locs, k), Exp(k))
    decreases |c|
  {
    hide Mul, Plus, Exp, Pow;
    if c == [] {
      MulNonzero(0, Exp(k));
    } else {
      var n := |c| - 1;
      PowerSumShifted(c[..n], locs[..n], locs'[..n], k);
      PowStep(locs[n], k);
      MulAssociates(c[n], Pow(locs[n], k), Exp(k));
      PlusTimes(PowerSum(c[..n], locs[..n], k), Mul(c[n], Pow(locs[n], k)), Exp(k));
    }
  }

  lemma {:induction false} PowOfOne(k: nat)
    ensures Pow(1, k) == 1
  {
    hide Mul;
    if k > 0 {
      PowOfOne(k - 1);
      MulOne(1);
    }
  }

  lemma {:induction false} EvalIsPowerSum(c: seq<Byte>, k: nat)
    ensures Eval(c, Exp(k)) == PowerSum(c, Locations(|c|), k)
    decreases |c|
  {
    hide Mul, Plus, Exp, Pow;
    if c != [] {
      var n := |c| - 1;
      EvalIsPowerSum(c[..n], k);
      forall j | 0 <= j < n ensures Locations(|c|)[..n][j] == Mul(Locations(n)[j], Exp(1)) { MulExp(n - 1 - j, 1); }
      PowerSumShifted(c[..n], Locations(n), Locations(|c|)[..n], k);
      ExpZero();
      PowOfOne(k);
      MulOne(c[n]);
    }
  }

  lemma LocationsDistinct(n: nat)
    requires n <= 255
    ensures Distinct(Locations(n))
  {
    hide Exp;
    forall i, j | 0 <= i < j < n ensures Locations(n)[i] != Locations(n)[j] {
      if Locations(n)[i] == Locations(n)[j] { ExpInjective(n - 1 - j, n - 1 - i); }
    }
  }

  // ---------------------------------------------------------------- the distance

  predicate IsCodeword(c: seq<Byte>, n: nat) {
    forall k: nat :: k < n ==> Eval(c, Exp(k)) == 0
  }

  // How many places two words differ in.
  function Differences(u: seq<Byte>, v: seq<Byte>): nat
    requires |u| == |v|
  {
    Weight(Added(u, v))
  }

  lemma CodewordsDiffer(u: seq<Byte>, v: seq<Byte>, n: nat)
    requires |u| == |v| <= 255 && IsCodeword(u, n) && IsCodeword(v, n) && u != v
    ensures Differences(u, v) >= n + 1
  {
    hide Mul, Plus, Exp, Eval, PowerSum, Weight;
    var c := Added(u, v);
    if Weight(c) <= n {
      forall k: nat | k < n ensures PowerSum(c, Locations(|c|), k) == 0 {
        EvalIsPowerSum(c, k);
        EvalAdded(u, v, Exp(k));
        PlusSelf(0);
      }
      LocationsDistinct(|c|);
      NoLightWord(c, Locations(|c|), n);
      forall j | 0 <= j < |u| ensures u[j] == v[j] { PlusCancels(u[j], v[j]); }
    }
  }

  // Blocks of different data, written out with their check codewords, differ in at least n + 1 places.
  lemma BlocksDiffer(data: seq<Byte>, data': seq<Byte>, n: nat)
    requires |data| == |data'| && |data| + n <= 255 && data != data'
    ensures Differences(data + Check(data, n), data' + Check(data', n)) >= n + 1
  {
    hide Check, Eval, Exp, Weight;
    forall k: nat | k < n ensures Eval(data + Check(data, n), Exp(k)) == 0 { CheckIsCodeword(data, n, k); }
    forall k: nat | k < n ensures Eval(data' + Check(data', n), Exp(k)) == 0 { CheckIsCodeword(data', n, k); }
    var u, v := data + Check(data, n), data' + Check(data', n);
    assert u[..|data|] == data && v[..|data|] == data';
    CodewordsDiffer(u, v, n);
  }

  // Only one choice of n check codewords completes a block to a codeword: the encoder's.
  lemma CheckIsForced(data: seq<Byte>, ec: seq<Byte>, n: nat)
    requires |data| + n <= 255 && |ec| == n && IsCodeword(data + ec, n)
    ensures ec == Check(data, n)
  {
    hide Check, Eval, Exp, Weight;
    var u, v := data + ec, data + Check(data, n);
    forall k: nat | k < n ensures Eval(v, Exp(k)) == 0 { CheckIsCodeword(data, n, k); }
    if u != v {
      CodewordsDiffer(u, v, n);
      assert Added(u, v) == Zeros(|data|) + Added(ec, Check(data, n)) by { SamePrefix(data, ec, Check(data, n)); }
      WeightAfterZeros(|data|, Added(ec, Check(data, n)));
    }
    assert u[|data|..] == ec && v[|data|..] == Check(data, n);
  }

  lemma SamePrefix(data: seq<Byte>, a: seq<Byte>, b: seq<Byte>)
    requires |a| == |b|
    ensures Added(data + a, data + b) == Zeros(|data|) + Added(a, b)
  {
    hide Plus;
    forall i | 0 <= i < |data| + |a| ensures Plus((data + a)[i], (data + b)[i]) == (Zeros(|data|) + Added(a, b))[i] {
      PlusSelf((data + a)[i]);
    }
  }

  lemma {:induction false} WeightAfterZeros(n: nat, c: seq<Byte>)
    ensures Weight(Zeros(n) + c) <= |c|
    decreases n + |c|
  {
    var s := Zeros(n) + c;
    if c != [] {
      assert s[..|s| - 1] == Zeros(n) + c[..|c| - 1];
      WeightAfterZeros(n, c[..|c| - 1]);
    } else if n > 0 {
      assert s[..|s| - 1] == Zeros(n - 1) + c;
      WeightAfterZeros(n - 1, c);
    }
  }
}
