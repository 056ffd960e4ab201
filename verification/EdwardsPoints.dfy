/** Points of the Edwards curve: the part in the prime-order subgroup, as an exponent of the
    generator, and the torsion part. */
module EdwardsPoints {
  import opened Modular

  datatype Point = Point(a: int, t: int)

  predicate OnCurve(p: Point, l: int) {
    0 <= p.a < l && 0 <= p.t < 8
  }

  function Add(p: Point, q: Point, l: int): (r: Point)
    requires l > 0
    ensures OnCurve(r, l)
  {
    Point(Mod(p.a + q.a, l), Mod(p.t + q.t, 8))
  }

  function Mul(k: int, p: Point, l: int): (r: Point)
    requires l > 0
    ensures OnCurve(r, l)
  {
    Point(Mod(k * p.a, l), Mod(k * p.t, 8))
  }

  /** k times the generator. */
  function Lift(k: int, l: int): (r: Point)
    requires l > 0
    ensures OnCurve(r, l)
  {
    Mul(k, Point(1, 0), l)
  }

  /** The points make up a commutative group, whose identity is the point (0, 0). */
  lemma AddIsGroup(p: Point, q: Point, r: Point, l: int)
    requires l > 0 && OnCurve(p, l) && OnCurve(q, l) && OnCurve(r, l)
    ensures Add(p, q, l) == Add(q, p, l)
    ensures Add(p, Point(0, 0), l) == p
    ensures Add(Add(p, q, l), r, l) == Add(p, Add(q, r, l), l)
    ensures Add(p, q, l) == p <==> q == Point(0, 0)
  {
    SumsReduce(p.a, q.a, r.a, l);
    SumsReduce(p.t, q.t, r.t, 8);
  }

  lemma SumsReduce(a: int, b: int, c: int, m: int)
    requires m > 0 && 0 <= a < m && 0 <= b < m && 0 <= c < m
    ensures Mod(a + 0, m) == a && Mod(Mod(a + b, m) + c, m) == Mod(a + Mod(b + c, m), m)
    ensures Mod(a + b, m) == a <==> b == 0
  {
    ModSmall(a, m);
    OneWrap(a + b, m);
    OneWrap(b + c, m);
    OneWrap(Mod(a + b, m) + c, m);
    OneWrap(a + Mod(b + c, m), m);
  }

  lemma OneWrap(v: int, m: int)
    requires 0 <= v < 2 * m
    ensures Mod(v, m) == if v < m then v else v - m
  {
    if v < m {
      ModSmall(v, m);
    } else {
      ModSmall(v - m, m);
      assert v - (v - m) == 1 * m;
      CongWitness(v, v - m, 1, m);
      CongIsModEq(v, v - m, m);
    }
  }

  /** A multiple is a repeated sum. */
  lemma MulIsRepeatedAdd(k: int, p: Point, l: int)
    requires l > 0 && OnCurve(p, l)
    ensures Mul(0, p, l) == Point(0, 0)
    ensures Mul(k + 1, p, l) == Add(Mul(k, p, l), p, l)
  {
    ModSmall(0, l);
    ModSmall(0, 8);
    OneMore(k, p.a, l);
    OneMore(k, p.t, 8);
  }

  lemma OneMore(k: int, a: int, m: int)
    requires m > 0
    ensures Mod((k + 1) * a, m) == Mod(Mod(k * a, m) + a, m)
  {
    CongMod(k * a, m);
    CongRefl(a, m);
    CongAdd(Mod(k * a, m), k * a, a, a, m);
    assert k * a + a == (k + 1) * a;
    CongIsModEq(Mod(k * a, m) + a, (k + 1) * a, m);
  }

  lemma LiftIs(k: int, l: int)
    requires l > 0
    ensures Lift(k, l) == Point(Mod(k, l), 0)
  {
    assert k * 1 == k && k * 0 == 0;
    ModSmall(0, 8);
  }

  lemma MulFlat(k: int, a: int, l: int)
    requires l > 0
    ensures Mul(k, Point(a, 0), l) == Point(Mod(k * a, l), 0)
  {
    assert k * 0 == 0;
    ModSmall(0, 8);
  }

  lemma AddFlat(a: int, b: int, l: int)
    requires l > 0
    ensures Add(Point(a, 0), Point(b, 0), l) == Point(Mod(a + b, l), 0)
  {
    ModSmall(0, 8);
  }

  /** `update_hd_derived_public_key`: times the inverse of eight, then times eight. */
  ghost function ClearTorsion(p: Point, l: int): Point
    requires IsPrime(l) && Mod(8, l) != 0
  {
    Mul(8, Mul(Inverse(8, l), p, l), l)
  }

  /** It is the projection onto the prime-order subgroup: it drops the torsion and keeps the rest. */
  lemma ClearTorsionProjects(p: Point, l: int)
    requires IsPrime(l) && Mod(8, l) != 0 && OnCurve(p, l)
    ensures ClearTorsion(p, l) == Point(p.a, 0)
  {
    EightInverse(Inverse(8, l), p.a, l);
    MultipleOfEight(Mod(Inverse(8, l) * p.t, 8));
  }

  lemma EightInverse(i: int, a: int, l: int)
    requires l > 0 && Cong(8 * i, 1, l) && 0 <= a < l
    ensures Mod(8 * Mod(i * a, l), l) == a
  {
    CongMod(i * a, l);
    CongRefl(8, l);
    CongMul(8, 8, Mod(i * a, l), i * a, l);
    CongRefl(a, l);
    CongMul(8 * i, 1, a, a, l);
    assert 8 * (i * a) == (8 * i) * a && 1 * a == a;
    CongTrans(8 * Mod(i * a, l), 8 * (i * a), a, l);
    CongIsModEq(8 * Mod(i * a, l), a, l);
    ModSmall(a, l);
  }

  lemma MultipleOfEight(t: int)
    ensures Mod(8 * t, 8) == 0
  {
  }

  /** Clearing twice is clearing once, and it changes nothing exactly on the prime-order subgroup. */
  lemma ClearTorsionIdempotent(p: Point, l: int)
    requires IsPrime(l) && Mod(8, l) != 0 && OnCurve(p, l)
    ensures ClearTorsion(ClearTorsion(p, l), l) == ClearTorsion(p, l)
    ensures ClearTorsion(p, l) == p <==> p.t == 0
    ensures forall k :: ClearTorsion(Lift(k, l), l) == Lift(k, l)
  {
    ClearTorsionProjects(p, l);
    ClearTorsionProjects(ClearTorsion(p, l), l);
    forall k ensures ClearTorsion(Lift(k, l), l) == Lift(k, l) {
      LiftIs(k, l);
      ClearTorsionProjects(Lift(k, l), l);
    }
  }
}
