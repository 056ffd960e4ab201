module Modular {

  predicate IsPrime(q: int) {
    q >= 2 && forall d :: 2 <= d < q ==> q % d != 0
  }

  /** The residue of a: how a scalar of the curve is represented. */
  function Mod(a: int, q: int): (r: int)
    requires q > 0
    ensures 0 <= r < q
  {
    a % q
  }

  ghost predicate Cong(a: int, b: int, q: int) {
    exists k: int :: a - b == Times(k, q)
  }

  function Times(k: int, q: int): int { k * q }

  lemma CongWitness(a: int, b: int, k: int, q: int)
    requires a - b == k * q
    ensures Cong(a, b, q)
  {
    assert a - b == Times(k, q);
  }

  lemma CongRefl(a: int, q: int)
    ensures Cong(a, a, q)
  {
    CongWitness(a, a, 0, q);
  }

  lemma CongSym(a: int, b: int, q: int)
    requires Cong(a, b, q)
    ensures Cong(b, a, q)
  {
    var k :| a - b == Times(k, q);
    CongWitness(b, a, -k, q);
  }

  lemma CongTrans(a: int, b: int, c: int, q: int)
    requires Cong(a, b, q) && Cong(b, c, q)
    ensures Cong(a, c, q)
  {
    var k :| a - b == Times(k, q);
    var l :| b - c == Times(l, q);
    CongWitness(a, c, k + l, q);
  }

  /** A linear combination of congruences. */
  lemma CongLin(a: int, b: int, s: int, c: int, d: int, t: int, q: int)
    requires Cong(a, b, q) && Cong(c, d, q)
    ensures Cong(a * s + c * t, b * s + d * t, q)
  {
    var k :| a - b == Times(k, q);
    var l :| c - d == Times(l, q);
    calc {
      (a * s + c * t) - (b * s + d * t);
      (a - b) * s + (c - d) * t;
      (k * q) * s + (l * q) * t;
      (k * s + l * t) * q;
    }
    CongWitness(a * s + c * t, b * s + d * t, k * s + l * t, q);
  }

  lemma CongAdd(a: int, b: int, c: int, d: int, q: int)
    requires Cong(a, b, q) && Cong(c, d, q)
    ensures Cong(a + c, b + d, q)
  {
    CongLin(a, b, 1, c, d, 1, q);
  }

  lemma CongMul(a: int, b: int, c: int, d: int, q: int)
    requires Cong(a, b, q) && Cong(c, d, q)
    ensures Cong(a * c, b * d, q)
  {
    CongLin(a, b, c, c, d, b, q);
    // a*c + c*b == b*c + d*b
    var k :| (a * c + c * b) - (b * c + d * b) == Times(k, q);
    CongWitness(a * c, b * d, k, q);
  }

  lemma CongScale(a: int, b: int, c: int, q: int)
    requires Cong(a, b, q)
    ensures Cong(a * c, b * c, q)
  {
    var k :| a - b == Times(k, q);
    assert a * c - b * c == (k * c) * q;
    CongWitness(a * c, b * c, k * c, q);
  }

  lemma CongMod(a: int, q: int)
    requires q > 0
    ensures Cong(Mod(a, q), a, q)
  {
    CongWitness(Mod(a, q), a, -(a / q), q);
  }

  lemma CongIsModEq(a: int, b: int, q: int)
    requires q > 0
    ensures Cong(a, b, q) <==> Mod(a, q) == Mod(b, q)
  {
    if Cong(a, b, q) {
      var k :| a - b == Times(k, q);
      var d := a / q - b / q - k;
      assert a % q - b % q == -d * q;
      assert d == 0 by {
        SmallMultiple(-d, q);
      }
    }
    if Mod(a, q) == Mod(b, q) {
      CongWitness(a, b, a / q - b / q, q);
    }
  }

  /** A residue congruent to b is the residue of b. */
  lemma Canonical(a: int, b: int, q: int)
    requires q > 0 && 0 <= a < q && Cong(a, b, q)
    ensures a == Mod(b, q)
  {
    ModSmall(a, q);
    CongIsModEq(a, b, q);
  }

  lemma ModSmall(a: int, q: int)
    requires 0 <= a < q
    ensures Mod(a, q) == a
  {
  }

  lemma SmallMultiple(k: int, q: int)
    requires q > 0
    requires -q < k * q < q
    ensures k == 0
  {
  }

  /** A linear combination u*a + v*b of a and b that divides both: Bezout's identity. */
  lemma {:induction false} Bezout(a: nat, b: nat) returns (g: nat, u: int, v: int, r: nat, s: nat)
    requires a > 0
    ensures g == u * a + v * b && g > 0
    ensures a == r * g && b == s * g
    decreases b
  {
    if b == 0 {
      g, u, v, r, s := a, 1, 0, 1, 0;
    } else {
      var g', u', v', r', s' := Bezout(b, a % b);
      var d := a / b;
      assert a == d * b + a % b;
      g, u, v, r, s := g', v', u' - v' * d, d * r' + s', r';
      assert u * a + v * b == v' * (a % b) + u' * b;
    }
  }

  ghost predicate IsInverse(b: int, a: int, q: int) {
    0 <= b < q && Cong(a * b, 1, q)
  }

  lemma PrimeHasInverse(a: int, q: int)
    requires IsPrime(q) && Mod(a, q) != 0
    ensures exists b: int :: IsInverse(b, a, q)
  {
    var m := a % q;
    var g, u, v, r, s := Bezout(m, q);
    PositiveFactor(r, g);
    PrimeDivisor(q, g, s);
    CongMod(a, q);
    CongSym(m, a, q);
    CongMod(u, q);
    InverseFrom(a, m, u, v, Mod(u, q), q);
  }

  lemma InverseFrom(a: int, m: int, u: int, v: int, b: int, q: int)
    requires 1 == u * m + v * q && Cong(a, m, q) && 0 <= b < q && Cong(b, u, q)
    ensures IsInverse(b, a, q)
  {
    CongMul(a, m, b, u, q);
    assert m * u == u * m;
    CongWitness(m * u, 1, -v, q);
    CongTrans(a * b, m * u, 1, q);
  }

  lemma PositiveFactor(r: nat, g: nat)
    requires r * g > 0
    ensures g <= r * g
  {
    assert r >= 1;
    assert (r - 1) * g >= 0;
  }

  lemma PrimeDivisor(q: int, g: nat, s: nat)
    requires IsPrime(q) && 1 <= g < q && q == s * g
    ensures g == 1
  {
    MultipleModulo(s, g);
  }

  lemma MultipleModulo(s: nat, g: nat)
    requires g > 0
    ensures (s * g) % g == 0
  {
    var x := s * g;
    assert x == (x / g) * g + x % g;
    SmallMultiple(s - x / g, g);
  }

  /** Inverse of a nonzero residue of a prime. */
  ghost function Inverse(a: int, q: int): (b: int)
    requires IsPrime(q) && Mod(a, q) != 0
    ensures 0 <= b < q && Cong(a * b, 1, q)
  {
    PrimeHasInverse(a, q);
    var b :| IsInverse(b, a, q);
    b
  }

  lemma CongCancel(c: int, a: int, b: int, q: int)
    requires IsPrime(q) && Mod(c, q) != 0
    requires Cong(c * a, c * b, q)
    ensures Cong(a, b, q)
  {
    var i := Inverse(c, q);
    InverseUndoes(c, i, a, q);
    InverseUndoes(c, i, b, q);
    CongScale(c * a, c * b, i, q);
    CongSym((c * a) * i, a, q);
    CongTrans(a, (c * a) * i, (c * b) * i, q);
    CongTrans(a, (c * b) * i, b, q);
  }

  lemma InverseUndoes(c: int, i: int, a: int, q: int)
    requires Cong(c * i, 1, q)
    ensures Cong((c * a) * i, a, q)
  {
    CongScale(c * i, 1, a, q);
    assert (c * a) * i == (c * i) * a && 1 * a == a;
  }

  lemma ZeroTimes(a: int, b: int, q: int)
    requires q > 0 && Mod(a, q) == 0
    ensures Mod(a * b, q) == 0 && Mod(b * a, q) == 0
  {
    ModSmall(0, q);
    CongIsModEq(a, 0, q);
    CongRefl(b, q);
    CongMul(a, 0, b, b, q);
    CongIsModEq(a * b, 0 * b, q);
    assert 0 * b == 0;
    assert a * b == b * a;
  }

  lemma ProductNonzero(a: int, b: int, q: int)
    requires IsPrime(q) && Mod(a, q) != 0 && Mod(b, q) != 0
    ensures Mod(a * b, q) != 0
  {
    if Mod(a * b, q) == 0 {
      ModSmall(0, q);
      CongIsModEq(a * b, a * 0, q);
      CongCancel(a, b, 0, q);
      CongIsModEq(b, 0, q);
    }
  }
}
