module Shamir {
  import opened Modular
  import opened Sums

  type Poly = seq<int>

  function Eval(f: Poly, x: int): int {
    if f == [] then 0 else f[0] + x * Eval(f[1..], x)
  }

  /** Residues that are not zero. */
  ghost predicate Units(xs: seq<int>, q: int) {
    forall i :: 0 <= i < |xs| ==> 0 < xs[i] < q
  }

  /** Points at which shares are taken: distinct residues, none of them zero. */
  ghost predicate Points(xs: seq<int>, q: int) {
    && Units(xs, q)
    && (forall i, j :: 0 <= i < j < |xs| ==> xs[i] != xs[j])
  }

  lemma DifferenceInvertible(o: int, x: int, q: int)
    requires 0 < o < q && 0 < x < q && o != x
    ensures Mod(o - x, q) != 0
  {
    if Mod(o - x, q) == 0 {
      assert o - x == ((o - x) / q) * q;
      SmallMultiple((o - x) / q, q);
    }
  }

  /** Contribution of the point o to the coefficient of x; the point x itself is skipped. */
  ghost function Factor(o: int, x: int, q: int): int
    requires IsPrime(q) && 0 < o < q && 0 < x < q
  {
    if o == x then 1 else DifferenceInvertible(o, x, q); o * Inverse(o - x, q)
  }

  lemma FactorLaw(o: int, x: int, q: int)
    requires IsPrime(q) && 0 < o < q && 0 < x < q && o != x
    ensures Cong(Factor(o, x, q) * (x - o), -o, q)
  {
    DifferenceInvertible(o, x, q);
    var i := Inverse(o - x, q);
    var k :| (o - x) * i - 1 == Times(k, q);
    calc {
      (o * i) * (x - o) - (-o);
      -o * ((o - x) * i - 1);
      -o * (k * q);
      (-o * k) * q;
    }
    CongWitness((o * i) * (x - o), -o, -o * k, q);
  }

  /** Lagrange coefficient at zero of the point x among xs. */
  ghost function Coef(xs: seq<int>, x: int, q: int): int
    requires IsPrime(q) && 0 < x < q && Units(xs, q)
  {
    if xs == [] then 1 else Factor(xs[0], x, q) * Coef(xs[1..], x, q)
  }

  lemma MulSwap(a: int, b: int, c: int)
    ensures a * (b * c) == b * (a * c)
  {
  }

  lemma {:induction false} CoefSnoc(xs: seq<int>, b: int, x: int, q: int)
    requires IsPrime(q) && 0 < x < q && 0 < b < q
    requires Units(xs, q)
    ensures Coef(xs + [b], x, q) == Factor(b, x, q) * Coef(xs, x, q)
  {
    if xs == [] {
      assert xs + [b] == [b];
      assert [b][1..] == [];
    } else {
      CoefSnoc(xs[1..], b, x, q);
      assert (xs + [b])[1..] == xs[1..] + [b];
      assert (xs + [b])[0] == xs[0];
      MulSwap(Factor(xs[0], x, q), Factor(b, x, q), Coef(xs[1..], x, q));
    }
  }

  /** Sum over the points pts of their coefficient among xs times the value of f there. */
  ghost function Weighted(pts: seq<int>, xs: seq<int>, f: Poly, q: int): int
    requires IsPrime(q)
    requires Units(xs, q)
    requires Units(pts, q)
  {
    if pts == [] then 0
    else Coef(xs, pts[0], q) * Eval(f, pts[0]) + Weighted(pts[1..], xs, f, q)
  }

  lemma {:induction false} WeightedSnoc(pts: seq<int>, b: int, xs: seq<int>, f: Poly, q: int)
    requires IsPrime(q) && 0 < b < q
    requires Units(xs, q)
    requires Units(pts, q)
    ensures Weighted(pts + [b], xs, f, q) == Weighted(pts, xs, f, q) + Coef(xs, b, q) * Eval(f, b)
  {
    if pts == [] {
      assert pts + [b] == [b];
      assert [b][1..] == [];
    } else {
      WeightedSnoc(pts[1..], b, xs, f, q);
      assert (pts + [b])[1..] == pts[1..] + [b];
    }
  }

  /** The quotient of f(x) - f(a) by x - a. */
  function Quotient(f: Poly, a: int): (g: Poly)
    ensures |g| == if f == [] then 0 else |f| - 1
  {
    if |f| <= 1 then [] else [Eval(f[1..], a)] + Quotient(f[1..], a)
  }

  lemma {:induction false} QuotientLaw(f: Poly, a: int, x: int)
    ensures Eval(f, x) == Eval(f, a) + (x - a) * Eval(Quotient(f, a), x)
  {
    if |f| <= 1 {
      if |f| == 1 { assert f[1..] == []; }
    } else {
      QuotientLaw(f[1..], a, x);
      var g := Quotient(f[1..], a);
      assert ([Eval(f[1..], a)] + g)[1..] == g;
      var E, Ea, G := Eval(f[1..], x), Eval(f[1..], a), Eval(g, x);
      assert E == Ea + (x - a) * G;
      QuotientStep(f[0], x, a, E, Ea, G);
    }
  }

  lemma QuotientStep(c: int, x: int, a: int, E: int, Ea: int, G: int)
    requires E == Ea + (x - a) * G
    ensures c + x * E == c + a * Ea + (x - a) * (Ea + x * G)
  {
    calc {
      c + x * E;
      c + a * Ea + (x - a) * Ea + x * ((x - a) * G);
      c + a * Ea + (x - a) * (Ea + x * G);
    }
  }

  /** The sum W is fa times the sum W1, less a times the sum V. */
  ghost predicate Peels(W: int, fa: int, W1: int, a: int, V: int, q: int) {
    Cong(W, fa * W1 - a * V, q)
  }

  /** Taking the point a out of the set: what remains of a weighted sum over other points. */
  lemma {:induction false} Peel(pts: seq<int>, xs: seq<int>, a: int, rest: seq<int>, f: Poly, q: int)
    requires IsPrime(q) && 0 < a < q
    requires Units(xs, q)
    requires Units(rest, q)
    requires forall i :: 0 <= i < |pts| ==> 0 < pts[i] < q && pts[i] != a
    requires forall i :: 0 <= i < |pts| ==>
      Coef(xs, pts[i], q) == Factor(a, pts[i], q) * Coef(rest, pts[i], q)
    ensures Peels(Weighted(pts, xs, f, q), Eval(f, a), Weighted(pts, xs, [1], q), a, Weighted(pts, rest, Quotient(f, a), q), q)
  {
    if pts == [] {
      CongRefl(0, q);
    } else {
      var x := pts[0];
      Peel(pts[1..], xs, a, rest, f, q);
      FactorLaw(a, x, q);
      QuotientLaw(f, a, x);
      assert Eval([1], x) == 1 by { assert [1][1..] == []; }
      var F, C, fa, g := Factor(a, x, q), Coef(rest, x, q), Eval(f, a), Eval(Quotient(f, a), x);
      var W, W1, Wg := Weighted(pts[1..], xs, f, q), Weighted(pts[1..], xs, [1], q), Weighted(pts[1..], rest, Quotient(f, a), q);
      var k :| F * (x - a) - (-a) == Times(k, q);
      var l :| W - (fa * W1 - a * Wg) == Times(l, q);
      PeelTerm(F, C, fa, g, x, a, W, W1, Wg, k, l, q);
    }
  }

  lemma PeelTerm(F: int, C: int, fa: int, g: int, x: int, a: int, W: int, W1: int, Wg: int, k: int, l: int, q: int)
    requires F * (x - a) + a == k * q
    requires W - (fa * W1 - a * Wg) == l * q
    ensures Cong((F * C) * (fa + (x - a) * g) + W, fa * ((F * C) * 1 + W1) - a * (C * g + Wg), q)
  {
    calc {
      (F * C) * (fa + (x - a) * g) + W - (fa * ((F * C) * 1 + W1) - a * (C * g + Wg));
      (F * (x - a) + a) * (C * g) + (W - (fa * W1 - a * Wg));
      (k * q) * (C * g) + l * q;
      (k * (C * g) + l) * q;
    }
    CongWitness((F * C) * (fa + (x - a) * g) + W, fa * ((F * C) * 1 + W1) - a * (C * g + Wg), k * (C * g) + l, q);
  }

  lemma {:induction false} PeelFirst(xs: seq<int>, f: Poly, q: int)
    requires IsPrime(q) && Points(xs, q) && |xs| >= 1
    ensures Peels(Weighted(xs, xs, f, q), Eval(f, xs[0]), Weighted(xs, xs, [1], q),
      xs[0], Weighted(xs[1..], xs[1..], Quotient(f, xs[0]), q), q)
  {
    var a := xs[0];
    Peel(xs[1..], xs, a, xs[1..], f, q);
    ConstantOne(a);
    PeelAdd(Coef(xs, a, q), Eval(f, a), Weighted(xs[1..], xs, f, q), Weighted(xs[1..], xs, [1], q),
      a, Weighted(xs[1..], xs[1..], Quotient(f, a), q), q);
  }

  lemma {:induction false} ConstantOne(a: int)
    ensures Eval([1], a) == 1
  {
    assert [1][1..] == [];
  }

  lemma PeelAdd(C: int, fa: int, W: int, W1: int, a: int, V: int, q: int)
    requires Peels(W, fa, W1, a, V, q)
    ensures Peels(C * fa + W, fa, C * 1 + W1, a, V, q)
  {
    var T := a * V;
    var k :| W - (fa * W1 - T) == Times(k, q);
    CongWitness(C * fa + W, fa * (C * 1 + W1) - T, k, q);
  }

  lemma {:induction false} PeelLast(xs: seq<int>, b: int, f: Poly, q: int)
    requires IsPrime(q) && Points(xs, q) && Points(xs + [b], q)
    ensures Peels(Weighted(xs + [b], xs + [b], f, q), Eval(f, b), Weighted(xs + [b], xs + [b], [1], q),
      b, Weighted(xs, xs, Quotient(f, b), q), q)
  {
    var all := xs + [b];
    assert all[|xs|] == b;
    PeelFromSnoc(xs, b, f, q);
    WeightedSnoc(xs, b, all, f, q);
    WeightedSnoc(xs, b, all, [1], q);
    ConstantOne(b);
    PeelAdd(Coef(all, b, q), Eval(f, b), Weighted(xs, all, f, q), Weighted(xs, all, [1], q), b, Weighted(xs, xs, Quotient(f, b), q), q);
  }

  lemma {:induction false} PeelFromSnoc(xs: seq<int>, b: int, f: Poly, q: int)
    requires IsPrime(q) && Points(xs, q) && Points(xs + [b], q)
    ensures Peels(Weighted(xs, xs + [b], f, q), Eval(f, b), Weighted(xs, xs + [b], [1], q),
      b, Weighted(xs, xs, Quotient(f, b), q), q)
  {
    var all := xs + [b];
    assert forall i :: 0 <= i < |xs| ==> all[i] == xs[i];
    assert all[|xs|] == b;
    forall i | 0 <= i < |xs|
      ensures xs[i] != b && Coef(all, xs[i], q) == Factor(b, xs[i], q) * Coef(xs, xs[i], q)
    {
      CoefSnoc(xs, b, xs[i], q);
    }
    Peel(xs, all, b, xs, f, q);
  }

  lemma {:induction false} IdentityPoly(a: int)
    ensures Eval([0, 1], a) == a && Quotient([0, 1], a) == [1]
  {
    assert [0, 1][1..] == [1];
    assert [1][1..] == [];
    assert Eval([1], a) == 1;
  }

  /** The Lagrange coefficients at zero add up to one. */
  lemma {:induction false} CoefsSumToOne(xs: seq<int>, q: int)
    requires IsPrime(q) && Points(xs, q) && |xs| >= 1
    ensures Cong(Weighted(xs, xs, [1], q), 1, q)
    decreases |xs|
  {
    var a := xs[0];
    if |xs| == 1 {
      assert [1][1..] == [];
      assert xs[1..] == [];
      assert Eval([1], a) == 1;
      assert Coef(xs, a, q) == 1;
      assert Weighted(xs, xs, [1], q) == 1;
      CongRefl(1, q);
    } else {
      var n := |xs| - 1;
      var b := xs[n];
      assert xs == xs[..n] + [b];
      CoefsSumToOne(xs[1..], q);
      CoefsSumToOne(xs[..n], q);
      PeelFirst(xs, [0, 1], q);
      PeelLast(xs[..n], b, [0, 1], q);
      IdentityPoly(a);
      IdentityPoly(b);
      TwoPeels(Weighted(xs, xs, [0, 1], q), Weighted(xs, xs, [1], q),
        Weighted(xs[1..], xs[1..], [1], q), Weighted(xs[..n], xs[..n], [1], q), a, b, q);
    }
  }

  lemma TwoPeels(X: int, W: int, A: int, B: int, a: int, b: int, q: int)
    requires IsPrime(q) && 0 < a < q && 0 < b < q && a != b
    requires Cong(A, 1, q) && Cong(B, 1, q)
    requires Peels(X, a, W, a, A, q) && Peels(X, b, W, b, B, q)
    ensures Cong(W, 1, q)
  {
    PeelOfOne(X, W, A, a, q);
    PeelOfOne(X, W, B, b, q);
    CongSym(X, a * (W - 1), q);
    CongTrans(a * (W - 1), X, b * (W - 1), q);
    DifferenceOfMultiples(a, b, W, q);
    DifferenceInvertible(a, b, q);
    CongCancel(a - b, W, 1, q);
  }

  lemma PeelOfOne(X: int, W: int, A: int, a: int, q: int)
    requires Cong(A, 1, q) && Peels(X, a, W, a, A, q)
    ensures Cong(X, a * (W - 1), q)
  {
    CongScale(A, 1, a, q);
    CongRefl(a * W, q);
    CongLin(a * W, a * W, 1, A * a, 1 * a, -1, q);
    assert (a * W) * 1 + (A * a) * -1 == a * W - a * A;
    assert (a * W) * 1 + (1 * a) * -1 == a * (W - 1);
    CongTrans(X, a * W - a * A, a * (W - 1), q);
  }

  lemma DifferenceOfMultiples(a: int, b: int, W: int, q: int)
    requires Cong(a * (W - 1), b * (W - 1), q)
    ensures Cong((a - b) * W, (a - b) * 1, q)
  {
    var k :| a * (W - 1) - b * (W - 1) == Times(k, q);
    assert (a - b) * W - (a - b) * 1 == a * (W - 1) - b * (W - 1);
    CongWitness((a - b) * W, (a - b) * 1, k, q);
  }

  /** Lagrange interpolation at zero: |xs| points recover the constant term of any polynomial
      with at most |xs| coefficients. */
  lemma {:induction false} Interpolation(xs: seq<int>, f: Poly, q: int)
    requires IsPrime(q) && Points(xs, q) && |f| <= |xs|
    ensures Cong(Weighted(xs, xs, f, q), Eval(f, 0), q)
    decreases |xs|
  {
    if xs == [] {
      CongRefl(0, q);
    } else {
      var a := xs[0];
      var g := Quotient(f, a);
      PeelFirst(xs, f, q);
      CoefsSumToOne(xs, q);
      Interpolation(xs[1..], g, q);
      QuotientLaw(f, a, 0);
      Assemble(Weighted(xs, xs, f, q), Weighted(xs, xs, [1], q), Weighted(xs[1..], xs[1..], g, q), Eval(f, a), Eval(g, 0), a, q);
    }
  }

  lemma Assemble(X: int, W: int, V: int, fa: int, g0: int, a: int, q: int)
    requires Peels(X, fa, W, a, V, q) && Cong(W, 1, q) && Cong(V, g0, q)
    ensures Cong(X, fa + (0 - a) * g0, q)
  {
    CongLin(W, 1, fa, V, g0, -a, q);
    assert W * fa + V * -a == fa * W - a * V;
    assert 1 * fa + g0 * -a == fa + (0 - a) * g0;
    CongTrans(X, fa * W - a * V, fa + (0 - a) * g0, q);
  }

  /** The sum of the products of the points' coefficients with the values given there. */
  ghost function Reconstruct(pts: seq<int>, xs: seq<int>, values: seq<int>, q: int): int
    requires IsPrime(q) && Units(xs, q) && Units(pts, q) && |values| == |pts|
  {
    if pts == [] then 0
    else Coef(xs, pts[0], q) * values[0] + Reconstruct(pts[1..], xs, values[1..], q)
  }

  lemma {:induction false} ReconstructWeighted(pts: seq<int>, xs: seq<int>, values: seq<int>, f: Poly, q: int)
    requires IsPrime(q) && Units(xs, q) && Units(pts, q) && |values| == |pts|
    requires forall i :: 0 <= i < |pts| ==> Cong(values[i], Eval(f, pts[i]), q)
    ensures Cong(Reconstruct(pts, xs, values, q), Weighted(pts, xs, f, q), q)
  {
    if pts == [] {
      CongRefl(0, q);
    } else {
      ReconstructWeighted(pts[1..], xs, values[1..], f, q);
      var c := Coef(xs, pts[0], q);
      CongRefl(c, q);
      CongMul(c, c, values[0], Eval(f, pts[0]), q);
      CongAdd(c * values[0], c * Eval(f, pts[0]),
        Reconstruct(pts[1..], xs, values[1..], q), Weighted(pts[1..], xs, f, q), q);
    }
  }

  /** Adding up shares that were each multiplied by their coefficient. */
  lemma {:induction false} WeightedSharesSum(pts: seq<int>, xs: seq<int>, values: seq<int>, ws: seq<int>, q: int)
    requires IsPrime(q) && Units(xs, q) && Units(pts, q) && |values| == |pts| == |ws|
    requires forall i :: 0 <= i < |pts| ==> Cong(ws[i], Coef(xs, pts[i], q) * values[i], q)
    ensures Cong(SeqSum(ws), Reconstruct(pts, xs, values, q), q)
  {
    if pts == [] {
      CongRefl(0, q);
    } else {
      WeightedSharesSum(pts[1..], xs, values[1..], ws[1..], q);
      SumHead(ws[0], ws[1..]);
      assert ws == [ws[0]] + ws[1..];
      CongAdd(ws[0], Coef(xs, pts[0], q) * values[0], SeqSum(ws[1..]), Reconstruct(pts[1..], xs, values[1..], q), q);
    }
  }

  /** A polynomial with its constant term moved by d. */
  function Shifted(f: Poly, d: int): (g: Poly)
    requires f != []
    ensures |g| == |f|
  {
    f[0 := f[0] + d]
  }

  lemma {:induction false} EvalShifted(f: Poly, d: int, x: int)
    requires f != []
    ensures Eval(Shifted(f, d), x) == Eval(f, x) + d
  {
    assert Shifted(f, d)[1..] == f[1..];
  }

  /** Moving the constant term of one dealer's polynomial moves every share of the sum. */
  lemma EvalSumShifted(fs: seq<Poly>, len: nat, d: int, x: int)
    requires fs != [] && len >= 1 && SameLength(fs, len)
    ensures SameLength(fs[0 := Shifted(fs[0], d)], len)
    ensures Eval(SumPoly(fs[0 := Shifted(fs[0], d)], len), x) == Eval(SumPoly(fs, len), x) + d
  {
    var gs := fs[0 := Shifted(fs[0], d)];
    EvalSum(fs, len, x);
    EvalSum(gs, len, x);
    EvalShifted(fs[0], d, x);
    var v := Evals(fs, x);
    assert Evals(gs, x) == v[0 := v[0] + d];
    SeqSumMoved(v, 0, d);
  }

  /** Shares of one polynomial at enough points give back its constant term. */
  lemma {:induction false} SharesReconstruct(xs: seq<int>, values: seq<int>, f: Poly, q: int)
    requires IsPrime(q) && Points(xs, q) && 1 <= |f| <= |xs| == |values|
    requires forall i :: 0 <= i < |xs| ==> Cong(values[i], Eval(f, xs[i]), q)
    ensures Cong(Reconstruct(xs, xs, values, q), f[0], q)
  {
    ReconstructWeighted(xs, xs, values, f, q);
    Interpolation(xs, f, q);
    CongTrans(Reconstruct(xs, xs, values, q), Weighted(xs, xs, f, q), Eval(f, 0), q);
  }

  // ---- sums of polynomials, and Feldman commitments ----

  function AddPoly(f: Poly, g: Poly): (h: Poly)
    requires |f| == |g|
    ensures |h| == |f|
  {
    seq(|f|, k requires 0 <= k < |f| => f[k] + g[k])
  }

  lemma {:induction false} EvalAdd(f: Poly, g: Poly, x: int)
    requires |f| == |g|
    ensures Eval(AddPoly(f, g), x) == Eval(f, x) + Eval(g, x)
  {
    if f != [] {
      EvalAdd(f[1..], g[1..], x);
      assert AddPoly(f, g)[1..] == AddPoly(f[1..], g[1..]);
      var a, b := Eval(f[1..], x), Eval(g[1..], x);
      assert x * (a + b) == x * a + x * b;
    }
  }

  function Scale(c: int, f: Poly): (g: Poly)
    ensures |g| == |f|
  {
    seq(|f|, k requires 0 <= k < |f| => c * f[k])
  }

  lemma {:induction false} EvalScale(c: int, f: Poly, x: int)
    ensures Eval(Scale(c, f), x) == c * Eval(f, x)
  {
    if f != [] {
      EvalScale(c, f[1..], x);
      assert Scale(c, f)[1..] == Scale(c, f[1..]);
      HornerScales(c, f[0], x, Eval(f[1..], x));
    }
  }

  lemma HornerScales(c: int, a: int, x: int, e: int)
    ensures c * a + x * (c * e) == c * (a + x * e)
  {
  }

  ghost predicate SameLength(fs: seq<Poly>, len: nat) {
    forall j :: 0 <= j < |fs| ==> |fs[j]| == len
  }

  /** The polynomial that the dealers share together. */
  function SumPoly(fs: seq<Poly>, len: nat): (f: Poly)
    requires SameLength(fs, len)
    ensures |f| == len
  {
    if fs == [] then seq(len, _ => 0)
    else AddPoly(SumPoly(fs[..|fs| - 1], len), fs[|fs| - 1])
  }

  lemma {:induction false} EvalZero(len: nat, x: int)
    ensures Eval(seq(len, _ => 0), x) == 0
  {
    if len > 0 {
      EvalZero(len - 1, x);
      var z: Poly := seq(len, _ => 0);
      assert z[1..] == seq(len - 1, _ => 0);
    }
  }

  function Evals(fs: seq<Poly>, x: int): (v: seq<int>) {
    seq(|fs|, j requires 0 <= j < |fs| => Eval(fs[j], x))
  }

  lemma {:induction false} EvalSum(fs: seq<Poly>, len: nat, x: int)
    requires SameLength(fs, len)
    ensures Eval(SumPoly(fs, len), x) == SeqSum(Evals(fs, x))
  {
    if fs == [] {
      EvalZero(len, x);
    } else {
      var n := |fs| - 1;
      EvalSum(fs[..n], len, x);
      EvalAdd(SumPoly(fs[..n], len), fs[n], x);
      assert Evals(fs, x)[..n] == Evals(fs[..n], x);
    }
  }

  lemma {:induction false} EvalCong(f: Poly, g: Poly, x: int, q: int)
    requires |f| == |g| && forall k :: 0 <= k < |f| ==> Cong(f[k], g[k], q)
    ensures Cong(Eval(f, x), Eval(g, x), q)
  {
    if f == [] {
      CongRefl(0, q);
    } else {
      EvalCong(f[1..], g[1..], x, q);
      CongRefl(x, q);
      CongMul(x, x, Eval(f[1..], x), Eval(g[1..], x), q);
      CongAdd(f[0], g[0], x * Eval(f[1..], x), x * Eval(g[1..], x), q);
    }
  }

  /** G times each coefficient. */
  function Commit(f: Poly, q: int): (c: seq<int>)
    requires q > 0
    ensures |c| == |f|
  {
    seq(|f|, k requires 0 <= k < |f| => Mod(f[k], q))
  }

  /** The share of party number i. */
  function Share(f: Poly, i: int, q: int): int
    requires q > 0
  {
    Mod(Eval(f, i), q)
  }

  /** What the commitments say of the share of party number i. */
  function PointCommitment(c: seq<int>, i: int, q: int): int
    requires q > 0
  {
    Mod(Eval(c, i), q)
  }

  /** Every honest share passes its Feldman check. */
  lemma ShareMatchesCommitment(f: Poly, i: int, q: int)
    requires q > 0
    ensures PointCommitment(Commit(f, q), i, q) == Share(f, i, q)
  {
    forall k | 0 <= k < |f| ensures Cong(Commit(f, q)[k], f[k], q) {
      CongMod(f[k], q);
    }
    EvalCong(Commit(f, q), f, i, q);
    CongIsModEq(Eval(Commit(f, q), i), Eval(f, i), q);
  }

  /** Adding the dealers' commitments term by term, starting from the first dealer's. */
  function SumCommitments(cs: seq<seq<int>>, len: nat, q: int): (c: seq<int>)
    requires q > 0 && cs != [] && SameLength(cs, len)
    ensures |c| == len
    decreases |cs|
  {
    if |cs| == 1 then cs[0]
    else
      var rest := SumCommitments(cs[..|cs| - 1], len, q);
      seq(len, k requires 0 <= k < len => Mod(rest[k] + cs[|cs| - 1][k], q))
  }

  lemma {:induction false} CommitmentsCommitSum(cs: seq<seq<int>>, fs: seq<Poly>, len: nat, q: int)
    requires q > 0 && cs != [] && SameLength(cs, len) && SameLength(fs, len) && |fs| == |cs|
    requires forall j, k :: 0 <= j < |cs| && 0 <= k < len ==> Cong(cs[j][k], fs[j][k], q)
    ensures forall k :: 0 <= k < len ==> Cong(SumCommitments(cs, len, q)[k], SumPoly(fs, len)[k], q)
    decreases |cs|
  {
    var n := |cs| - 1;
    if n == 0 {
      assert fs[..0] == [];
      assert SumPoly(fs, len) == fs[0];
    } else {
      CommitmentsCommitSum(cs[..n], fs[..n], len, q);
      var c, f := SumCommitments(cs[..n], len, q), SumPoly(fs[..n], len);
      forall k | 0 <= k < len ensures Cong(SumCommitments(cs, len, q)[k], SumPoly(fs, len)[k], q) {
        CongMod(c[k] + cs[n][k], q);
        CongAdd(c[k], f[k], cs[n][k], fs[n][k], q);
        CongTrans(Mod(c[k] + cs[n][k], q), c[k] + cs[n][k], f[k] + fs[n][k], q);
      }
    }
  }
}
