/** The signature of an honest run verifies under the key of its path. */
module EcdsaVerification {
  import opened Modular
  import opened Sums
  import opened Shamir
  import opened Bytes
  import opened PairwiseKeys
  import opened RoundExchange
  import opened RoundProgress
  import opened ShareConversion
  import opened EcdsaSigner
  import opened EcdsaRuns
  import Keygen

  // ---- the arithmetic of one signature ----

  /** K times the common nonce point is one: R is G over the sum of the k. */
  lemma NonceInvertsK(K: int, Gam: int, gs: int, ds: int, dinv: int, R: int, q: int)
    requires IsPrime(q)
    requires Cong(gs, Gam, q) && IsProduct(ds, K, Gam, q) && Cong(ds * dinv, 1, q) && Cong(R, gs * dinv, q)
    ensures Cong(K * R, 1, q)
  {
    CongScale(gs, Gam, dinv, q);
    CongTrans(R, gs * dinv, Gam * dinv, q);
    CongScale(ds, K * Gam, dinv, q);
    CongSym(ds * dinv, (K * Gam) * dinv, q);
    CongTrans((K * Gam) * dinv, ds * dinv, 1, q);
    Associative(K, Gam, dinv);
    InverseThrough(K, R, Gam * dinv, (K * Gam) * dinv, q);
  }

  lemma Associative(a: int, b: int, c: int)
    ensures (a * b) * c == a * (b * c)
  {
  }

  lemma InverseThrough(K: int, R: int, v: int, w: int, q: int)
    requires Cong(R, v, q) && w == K * v && Cong(w, 1, q)
    ensures Cong(K * R, 1, q)
  {
    CongScale(R, v, K, q);
    assert R * K == K * R && v * K == w;
    CongTrans(K * R, w, 1, q);
  }

  /** The point checked is i(m + rx), for i the inverse of s. */
  lemma CheckedPoint(m: int, r: int, x: int, i: int, y: int, q: int)
    requires q > 0 && Cong(y, x, q)
    ensures Cong(Mod(m * i, q) + Mod(r * i, q) * y, i * (m + r * x), q)
  {
    var a, b, c, d := m * i, r * i, Mod(m * i, q), Mod(r * i, q);
    CongMod(a, q);
    CongMod(b, q);
    CongMul(d, b, y, x, q);
    CongAdd(c, a, d * y, b * x, q);
    assert a + b * x == i * (m + r * x);
  }

  /** Anything congruent to i(m + rx) is the nonce point, when s = K(m + rx) and K·R = 1. */
  lemma NonceUnique(K: int, R: int, e: int, s: int, i: int, point: int, q: int)
    requires IsPrime(q) && 0 <= R < q
    requires Cong(K * R, 1, q) && Cong(s, K * e, q) && Cong(s * i, 1, q) && Cong(point, i * e, q)
    ensures Mod(point, q) == R
  {
    CongRefl(K, q);
    CongMul(K, K, point, i * e, q);
    CongRefl(i, q);
    CongMul(s, K * e, i, i, q);
    assert K * (i * e) == (K * e) * i;
    CongSym(s * i, (K * e) * i, q);
    CongTrans((K * e) * i, s * i, 1, q);
    CongTrans(K * point, K * (i * e), 1, q);
    CongSym(K * R, 1, q);
    CongTrans(K * point, 1, K * R, q);
    Nonzero(K, R, q);
    CongCancel(K, point, R, q);
    CongIsModEq(point, R, q);
    ModSmall(R, q);
  }

  /** The verification equation: with s = K(m + rx), K·R = 1 and y = x, the point checked is R. */
  lemma PointIsNonce(K: int, R: int, m: int, r: int, x: int, s: int, i: int, y: int, q: int)
    requires IsPrime(q) && 0 <= R < q
    requires Cong(K * R, 1, q) && Cong(s, K * (m + r * x), q) && Cong(s * i, 1, q) && Cong(y, x, q)
    ensures VerificationPoint(m, r, i, y, q) == R
  {
    CheckedPoint(m, r, x, i, y, q);
    NonceUnique(K, R, m + r * x, s, i, Mod(m * i, q) + Mod(r * i, q) * y, q);
  }

  lemma Nonzero(K: int, R: int, q: int)
    requires IsPrime(q) && Cong(K * R, 1, q)
    ensures Mod(K, q) != 0 && Mod(R, q) != 0
  {
    if Mod(K, q) == 0 {
      ZeroTimes(K, R, q);
    }
    if Mod(R, q) == 0 {
      ZeroTimes(R, K, q);
    }
    CongIsModEq(K * R, 1, q);
    ModSmall(1, q);
  }

  lemma UnitResidue(R: int, q: int)
    requires 0 <= R < q && Mod(R, q) != 0
    ensures R != 0
  {
    ModSmall(R, q);
  }

  /** Replacing s by its negation negates the point checked. */
  lemma NegatedS(K: int, R: int, m: int, r: int, x: int, s: int, q: int)
    requires Cong(K * R, 1, q) && Cong(s, K * (m + r * x), q)
    ensures Cong((-K) * (q - R), 1, q) && Cong(q - s, (-K) * (m + r * x), q)
  {
    var a :| K * R - 1 == Times(a, q);
    var b :| s - K * (m + r * x) == Times(b, q);
    var e := m + r * x;
    calc {
      (-K) * (q - R) - 1;
      K * R - 1 - K * q;
      a * q - K * q;
      (a - K) * q;
    }
    CongWitness((-K) * (q - R), 1, a - K, q);
    assert (q - s) - (-K) * e == q - (s - K * e);
    assert q - b * q == (1 - b) * q;
    CongWitness(q - s, (-K) * e, 1 - b, q);
  }

  /** The nonce point e could have signed this: e times s is m + ry, and its x-coordinate is r. */
  ghost predicate SignsFrom(su: Suite, sig: Signature, y: int, m: int, e: int) {
    su.q > 0 && 0 < e < su.q && Cong(e * sig.s, m + sig.r * y, su.q) && Mod(su.xCoord(e), su.q) == sig.r
  }

  /** What the verification equation says of any signature, honest or not. */
  lemma EquationIff(su: Suite, sig: Signature, y: int, m: int)
    requires IsPrime(su.q)
    ensures EquationHolds(su, sig, y, m) <==> 1 <= sig.s < su.q && exists e :: SignsFrom(su, sig, y, m, e)
  {
    if 1 <= sig.s < su.q {
      ModSmall(sig.s, su.q);
      var i := Inverse(sig.s, su.q);
      var point := VerificationPoint(m, sig.r, i, y, su.q);
      CongRefl(y, su.q);
      CheckedPoint(m, sig.r, y, i, y, su.q);
      PointTimesS(Mod(m * i, su.q) + Mod(sig.r * i, su.q) * y, i, m + sig.r * y, sig.s, su.q);
      if EquationHolds(su, sig, y, m) {
        assert SignsFrom(su, sig, y, m, point);
      }
      if e :| SignsFrom(su, sig, y, m, e) {
        OnlyPoint(point, e, sig.s, m + sig.r * y, su.q);
      }
    }
  }

  lemma PointTimesS(p: int, i: int, v: int, s: int, q: int)
    requires q > 0 && Cong(p, i * v, q) && Cong(s * i, 1, q)
    ensures Cong(Mod(p, q) * s, v, q)
  {
    CongMod(p, q);
    CongTrans(Mod(p, q), p, i * v, q);
    CongScale(Mod(p, q), i * v, s, q);
    CongScale(s * i, 1, v, q);
    assert (i * v) * s == (s * i) * v && 1 * v == v;
    CongTrans(Mod(p, q) * s, (i * v) * s, v, q);
  }

  lemma OnlyPoint(p: int, e: int, s: int, v: int, q: int)
    requires IsPrime(q) && 0 <= p < q && 0 <= e < q && Mod(s, q) != 0 && Cong(p * s, v, q) && Cong(e * s, v, q)
    ensures p == e
  {
    CongSym(e * s, v, q);
    CongTrans(p * s, v, e * s, q);
    assert p * s == s * p && e * s == s * e;
    CongCancel(s, p, e, q);
    CongIsModEq(p, e, q);
    ModSmall(p, q);
    ModSmall(e, q);
  }

  /** A point and its negation have the same x-coordinate. */
  ghost predicate EvenX(s: Suite) {
    forall e :: 0 < e < s.q ==> s.xCoord(e) == s.xCoord(s.q - e)
  }

  /** Of s and its negation the smaller one is taken: at most half the order, and up to sign the same. */
  lemma LowSIs(s: int, q: int)
    requires 0 <= s < q
    ensures 2 * LowS(s, q) <= q && (LowS(s, q) == s || LowS(s, q) == q - s)
    ensures LowS(s, q) == s <==> 2 * s <= q
  {
  }

  lemma LowSVerifies(su: Suite, K: int, R: int, r: int, m: int, x: int, s: int, y: int)
    requires IsPrime(su.q) && EvenX(su) && 0 < R < su.q && 0 <= s < su.q
    requires r == Mod(su.xCoord(R), su.q)
    requires Cong(K * R, 1, su.q) && SignsWith(s, K, m, r, x, su.q) && Cong(y, x, su.q)
    ensures var sig := Signature(r, LowS(s, su.q));
      && 2 * sig.s <= su.q && (sig.s == s || sig.s == su.q - s)
      && (EquationHolds(su, sig, y, m) <==> sig.s != 0)
      && (Verifies(su, sig, y, m) <==> sig.r != 0 && sig.s != 0)
  {
    var q := su.q;
    var low := LowS(s, q);
    if low != 0 {
      assert 1 <= low < q;
      ModSmall(low, q);
      var i := Inverse(low, q);
      if low == s {
        PointIsNonce(K, R, m, r, x, s, i, y, q);
      } else {
        NegatedS(K, R, m, r, x, s, q);
        PointIsNonce(-K, q - R, m, r, x, q - s, i, y, q);
      }
    }
  }

  // ---- joining the run's sums ----

  /** The value v is mK + rS. */
  ghost predicate CombinesTo(v: int, m: int, K: int, r: int, S: int, q: int) {
    Cong(v, m * K + r * S, q)
  }

  lemma PartsSum(P: Params, signers: seq<Signer>, uuid: string)
    requires P.s.q > 0
    ensures CombinesTo(RawS(P, signers, uuid), MessageScalar(P), SeqSum(Ks(signers)), CommonR(P, signers, uuid),
      SeqSum(SigmaShares(P, signers, uuid)), P.s.q)
  {
    PartsReduced(MessageScalar(P), CommonR(P, signers, uuid), Ks(signers), SigmaShares(P, signers, uuid), PartShares(P, signers, uuid), P.s.q);
  }

  lemma {:induction false} PartsReduced(m: int, r: int, ks: seq<int>, sigmas: seq<int>, parts: seq<int>, q: int)
    requires q > 0 && |ks| == |sigmas| == |parts|
    requires forall i :: 0 <= i < |parts| ==> parts[i] == PartOf(m, ks[i], r, sigmas[i], q)
    ensures CombinesTo(Mod(SeqSum(parts), q), m, SeqSum(ks), r, SeqSum(sigmas), q)
  {
    PartsOf(m, r, ks, sigmas, parts, q);
    CongMod(SeqSum(parts), q);
    CongTrans(Mod(SeqSum(parts), q), SeqSum(parts), m * SeqSum(ks) + r * SeqSum(sigmas), q);
  }

  lemma {:induction false} PartsOf(m: int, r: int, ks: seq<int>, sigmas: seq<int>, parts: seq<int>, q: int)
    requires q > 0 && |ks| == |sigmas| == |parts|
    requires forall i :: 0 <= i < |parts| ==> parts[i] == PartOf(m, ks[i], r, sigmas[i], q)
    ensures Cong(SeqSum(parts), m * SeqSum(ks) + r * SeqSum(sigmas), q)
  {
    if parts == [] {
      assert m * 0 + r * 0 == 0;
      CongRefl(0, q);
    } else {
      var n := |parts| - 1;
      PartsOf(m, r, ks[..n], sigmas[..n], parts[..n], q);
      var a, b, k, e := SeqSum(ks[..n]), SeqSum(sigmas[..n]), ks[n], sigmas[n];
      CongMod(m * k + r * e, q);
      CongAdd(SeqSum(parts[..n]), m * a + r * b, parts[n], m * k + r * e, q);
      assert (m * a + r * b) + (m * k + r * e) == m * (a + k) + r * (b + e);
    }
  }

  lemma GammaPointsSum(P: Params, signers: seq<Signer>)
    requires P.s.q > 0
    ensures Cong(SeqSum(GammaPoints(P, signers)), SeqSum(Nonces(signers)), P.s.q)
  {
    forall i | 0 <= i < |signers| ensures Cong(GammaPoints(P, signers)[i], Nonces(signers)[i], P.s.q) {
      CongMod(signers[i].gamma, P.s.q);
    }
    SeqSumCong(GammaPoints(P, signers), Nonces(signers), P.s.q);
  }

  /** The nonces of the run are usable: neither sum vanishes. */
  ghost predicate NoncesUsable(P: Params, signers: seq<Signer>)
    requires P.s.q > 0
  {
    Mod(SeqSum(Ks(signers)), P.s.q) != 0 && Mod(SeqSum(Nonces(signers)), P.s.q) != 0
  }

  lemma NonceOfRun(P: Params, signers: seq<Signer>, dealers: seq<Keygen.Dealer>, len: nat, uuid: string)
    requires Honest(P, signers, dealers, len) && NoncesUsable(P, signers)
    ensures Cong(SeqSum(Ks(signers)) * CommonNonce(P, signers, uuid), 1, P.s.q)
    ensures 0 < CommonNonce(P, signers, uuid) < P.s.q
  {
    var q, K, g := P.s.q, SeqSum(Ks(signers)), SeqSum(Nonces(signers));
    var ds := DeltaShares(P, signers, uuid);
    ShareSums(P, signers, dealers, len, uuid);
    ProductZeroIff(SeqSum(ds), K, g, q);
    GammaPointsSum(P, signers);
    ScaledCong(SeqSum(GammaPoints(P, signers)), DeltaInv(ds, q), q);
    NonceInvertsK(K, g, SeqSum(GammaPoints(P, signers)), SeqSum(ds), DeltaInv(ds, q), CommonNonce(P, signers, uuid), q);
    Nonzero(K, CommonNonce(P, signers, uuid), q);
    UnitResidue(CommonNonce(P, signers, uuid), q);
  }

  lemma ScaledCong(c: int, d: int, q: int)
    requires q > 0
    ensures Cong(Scaled(c, d, q), c * d, q)
  {
    CongMod(c * d, q);
  }

  /** s is K(m + rx). */
  ghost predicate SignsWith(s: int, K: int, m: int, r: int, x: int, q: int) {
    Cong(s, K * (m + r * x), q)
  }

  lemma SFromSums(P: Params, signers: seq<Signer>, uuid: string, x: int)
    requires P.s.q > 0
    requires IsProduct(SeqSum(SigmaShares(P, signers, uuid)), SeqSum(Ks(signers)), SeqSum(Ws(P, signers)), P.s.q)
    requires Cong(SeqSum(Ws(P, signers)), x, P.s.q)
    ensures SignsWith(RawS(P, signers, uuid), SeqSum(Ks(signers)), MessageScalar(P), CommonR(P, signers, uuid), x, P.s.q)
  {
    PartsSum(P, signers, uuid);
    SCombines(RawS(P, signers, uuid), SeqSum(Ks(signers)), MessageScalar(P), CommonR(P, signers, uuid),
      SeqSum(SigmaShares(P, signers, uuid)), SeqSum(Ws(P, signers)), x, P.s.q);
  }

  /** s is K(m + r(x + f)). */
  lemma SOfRun(P: Params, signers: seq<Signer>, dealers: seq<Keygen.Dealer>, len: nat, uuid: string, x: int)
    requires Honest(P, signers, dealers, len) && x == SigningKey(P, dealers, len)
    ensures SignsWith(RawS(P, signers, uuid), SeqSum(Ks(signers)), MessageScalar(P), CommonR(P, signers, uuid), x, P.s.q)
  {
    ShareSums(P, signers, dealers, len, uuid);
    AdditiveKeysSum(P, signers, dealers, len);
    SFromSums(P, signers, uuid, x);
  }

  lemma SCombines(s: int, K: int, m: int, r: int, S: int, w: int, x: int, q: int)
    requires CombinesTo(s, m, K, r, S, q) && IsProduct(S, K, w, q) && Cong(w, x, q)
    ensures SignsWith(s, K, m, r, x, q)
  {
    CongRefl(K, q);
    CongMul(K, K, w, x, q);
    CongTrans(S, K * w, K * x, q);
    CongRefl(r, q);
    CongMul(r, r, S, K * x, q);
    CongRefl(m * K, q);
    CongAdd(m * K, m * K, r * S, r * (K * x), q);
    assert m * K + r * (K * x) == K * (m + r * x);
    CongTrans(s, m * K + r * S, K * (m + r * x), q);
  }

  // ---- the signature in terms of the inputs ----

  /** The signature is one of the message modulo 2 to the 256, under the key to sign for. */
  ghost predicate VerifiesMessage(P: Params, sig: Signature)
    requires IsPrime(P.s.q)
  {
    Verifies(P.s, sig, P.y, Mod(P.message % Pow256(32), P.s.q))
  }

  /** The x-coordinate of G over the sum of the k. */
  ghost function NonceR(P: Params, signers: seq<Signer>): int
    requires IsPrime(P.s.q) && Mod(SeqSum(Ks(signers)), P.s.q) != 0
  {
    Mod(P.s.xCoord(Inverse(SeqSum(Ks(signers)), P.s.q)), P.s.q)
  }

  predicate Signable(r: int, m: int, x: int, q: int)
    requires q > 0
  {
    Mod(m + r * x, q) != 0
  }

  /** The second half of the signature of the key x does not come out zero. */
  ghost predicate SecondHalfUsable(P: Params, signers: seq<Signer>, x: int)
    requires IsPrime(P.s.q) && NoncesUsable(P, signers)
  {
    Signable(NonceR(P, signers), Mod(P.message % Pow256(32), P.s.q), x, P.s.q)
  }

  /** Neither half of the signature of the key x comes out zero. */
  ghost predicate HalvesUsable(P: Params, signers: seq<Signer>, x: int)
    requires IsPrime(P.s.q) && NoncesUsable(P, signers)
  {
    NonceR(P, signers) != 0 && SecondHalfUsable(P, signers, x)
  }

  /** No half that the library's verification minds comes out zero. */
  ghost predicate Acceptable(P: Params, signers: seq<Signer>, x: int)
    requires IsPrime(P.s.q) && NoncesUsable(P, signers)
  {
    (P.strict ==> NonceR(P, signers) != 0) && SecondHalfUsable(P, signers, x)
  }

  /** The key to sign for is the file's key moved along the path. */
  predicate RightKey(P: Params, signer: Signer)
    requires P.s.q > 0
  {
    P.y == Mod(signer.key.y + Tweak(P), P.s.q)
  }

  /** The key that signs: the sum of the dealers' secrets and the tweak. */
  function SigningKey(P: Params, dealers: seq<Keygen.Dealer>, len: nat): int
    requires SameLength(Keygen.Polys(dealers), len) && len >= 1
  {
    Keygen.Joint(dealers, len)[0] + Tweak(P)
  }

  ghost function CommonSignature(P: Params, signers: seq<Signer>, uuid: string): Signature
    requires P.s.q > 0
  {
    Signature(CommonR(P, signers, uuid), LowS(RawS(P, signers, uuid), P.s.q))
  }

  lemma SameInverse(K: int, R: int, q: int)
    requires IsPrime(q) && Mod(K, q) != 0 && 0 <= R < q && Cong(K * R, 1, q)
    ensures R == Inverse(K, q)
  {
    var i := Inverse(K, q);
    CongSym(K * i, 1, q);
    CongTrans(K * R, 1, K * i, q);
    CongCancel(K, R, i, q);
    CongIsModEq(R, i, q);
    ModSmall(R, q);
    ModSmall(i, q);
  }

  /** r is the x-coordinate of G over the sum of the k. */
  lemma ROfRun(P: Params, signers: seq<Signer>, dealers: seq<Keygen.Dealer>, len: nat, uuid: string)
    requires Honest(P, signers, dealers, len) && NoncesUsable(P, signers)
    ensures CommonR(P, signers, uuid) == NonceR(P, signers)
  {
    NonceOfRun(P, signers, dealers, len, uuid);
    SameInverse(SeqSum(Ks(signers)), CommonNonce(P, signers, uuid), P.s.q);
  }

  /** K·e vanishes exactly when e does, so s = K(m + rx) is zero exactly when m + rx is. */
  lemma HalvesFrom(K: int, r: int, m: int, x: int, s: int, q: int)
    requires IsPrime(q) && Mod(K, q) != 0 && 0 <= s < q && SignsWith(s, K, m, r, x, q)
    ensures LowS(s, q) != 0 <==> Signable(r, m, x, q)
  {
    UnitTimes(K, m + r * x, s, q);
  }

  lemma UnitTimes(K: int, e: int, s: int, q: int)
    requires IsPrime(q) && Mod(K, q) != 0 && 0 <= s < q && Cong(s, K * e, q)
    ensures s == 0 <==> Mod(e, q) == 0
  {
    ModSmall(s, q);
    CongIsModEq(s, K * e, q);
    if Mod(e, q) == 0 {
      ZeroTimes(e, K, q);
    } else {
      ProductNonzero(K, e, q);
    }
  }

  /** Both halves are nonzero exactly when the inputs say so. */
  lemma HalvesIff(P: Params, signers: seq<Signer>, dealers: seq<Keygen.Dealer>, len: nat, uuid: string, x: int)
    requires Honest(P, signers, dealers, len) && NoncesUsable(P, signers) && x == SigningKey(P, dealers, len)
    ensures var sig := CommonSignature(P, signers, uuid);
      && (sig.r != 0 && sig.s != 0 <==> HalvesUsable(P, signers, x))
      && ((P.strict ==> sig.r != 0) && sig.s != 0 <==> Acceptable(P, signers, x))
  {
    ROfRun(P, signers, dealers, len, uuid);
    SOfRun(P, signers, dealers, len, uuid, x);
    HalvesFrom(SeqSum(Ks(signers)), CommonR(P, signers, uuid), MessageScalar(P), x, RawS(P, signers, uuid), P.s.q);
  }

  lemma CommonSignatureVerifies(P: Params, signers: seq<Signer>, dealers: seq<Keygen.Dealer>, len: nat, uuid: string, p: nat)
    requires Honest(P, signers, dealers, len) && NoncesUsable(P, signers) && EvenX(P.s)
    requires 1 <= p <= |signers| && RightKey(P, signers[p - 1])
    ensures var sig := CommonSignature(P, signers, uuid);
      && (EquationHolds(P.s, sig, P.y, MessageScalar(P)) <==> sig.s != 0)
      && (Verifies(P.s, sig, P.y, MessageScalar(P)) <==> sig.r != 0 && sig.s != 0)
  {
    var x := SigningKey(P, dealers, len);
    NonceOfRun(P, signers, dealers, len, uuid);
    SOfRun(P, signers, dealers, len, uuid, x);
    ChildKey(P, signers, dealers, len, p);
    SignatureFrom(P, signers, uuid, x);
  }

  lemma SignatureFrom(P: Params, signers: seq<Signer>, uuid: string, x: int)
    requires IsPrime(P.s.q) && EvenX(P.s)
    requires 0 < CommonNonce(P, signers, uuid) < P.s.q
    requires Cong(SeqSum(Ks(signers)) * CommonNonce(P, signers, uuid), 1, P.s.q)
    requires SignsWith(RawS(P, signers, uuid), SeqSum(Ks(signers)), MessageScalar(P), CommonR(P, signers, uuid), x, P.s.q)
    requires Cong(P.y, x, P.s.q)
    ensures var sig := CommonSignature(P, signers, uuid);
      && (EquationHolds(P.s, sig, P.y, MessageScalar(P)) <==> sig.s != 0)
      && (Verifies(P.s, sig, P.y, MessageScalar(P)) <==> sig.r != 0 && sig.s != 0)
  {
    LowSVerifies(P.s, SeqSum(Ks(signers)), CommonNonce(P, signers, uuid), CommonR(P, signers, uuid), MessageScalar(P),
      x, RawS(P, signers, uuid), P.y);
  }

  lemma ChildKey(P: Params, signers: seq<Signer>, dealers: seq<Keygen.Dealer>, len: nat, p: nat)
    requires Honest(P, signers, dealers, len) && 1 <= p <= |signers| && RightKey(P, signers[p - 1])
    ensures Cong(P.y, SigningKey(P, dealers, len), P.s.q)
  {
    var q, x := P.s.q, Keygen.Joint(dealers, len)[0];
    Keygen.PublicKeyIsJoint(P.s, dealers, len);
    assert HoldsKey(P, dealers, len, signers[p - 1]);
    assert signers[p - 1].key.y == Mod(x, q);
    CongMod(x, q);
    CongRefl(Tweak(P), q);
    CongAdd(Mod(x, q), x, Tweak(P), Tweak(P), q);
    CongMod(Mod(x, q) + Tweak(P), q);
    CongTrans(P.y, Mod(x, q) + Tweak(P), x + Tweak(P), q);
  }

  lemma SessionValid(P: Params, signers: seq<Signer>, uuid: string)
    requires P.s.q > 0
    ensures ValidProtocol(Session(P, signers, uuid))
  {
    RoundNamesOk();
    RoundNamesDiffer();
  }

  lemma RoundNamesOk()
    ensures NamesOk(ROUNDS)
  {
  }

  lemma RoundNamesDiffer()
    ensures NamesDiffer(ROUNDS)
  {
  }

  lemma FinishedVerifies(P: Params, signers: seq<Signer>, dealers: seq<Keygen.Dealer>, len: nat, uuid: string, p: nat)
    requires Honest(P, signers, dealers, len) && NoncesUsable(P, signers) && EvenX(P.s)
    requires 1 <= p <= |signers| && RightKey(P, signers[p - 1])
    ensures var sig := CommonSignature(P, signers, uuid);
      && sig.r == NonceR(P, signers)
      && (VerifiesMessage(P, sig) <==> HalvesUsable(P, signers, SigningKey(P, dealers, len)))
      && (Accepts(P, sig) <==> Acceptable(P, signers, SigningKey(P, dealers, len)))
  {
    ROfRun(P, signers, dealers, len, uuid);
    CommonSignatureVerifies(P, signers, dealers, len, uuid, p);
    HalvesIff(P, signers, dealers, len, uuid, SigningKey(P, dealers, len));
  }

  /** Of a message of 256 bits nothing is lost. */
  lemma MessageKept(P: Params)
    requires P.s.q > 0 && P.message < Pow256(32)
    ensures Cong(MessageScalar(P), P.message, P.s.q)
  {
    SmallRemainder(P.message, Pow256(32));
    CongMod(P.message, P.s.q);
  }

  lemma SmallRemainder(m: nat, d: nat)
    requires m < d
    ensures m % d == m
  {
  }

  // ---- who gets past which assertion ----

  lemma PassesIndices(P: Params, signers: seq<Signer>, dealers: seq<Keygen.Dealer>, len: nat, uuid: string, p: nat)
    requires Honest(P, signers, dealers, len) && 1 <= p <= |signers|
    ensures Passes(Session(P, signers, uuid), p, 1) <==> PathAllowed(P, dealers)
  {
    HistView(Session(P, signers, uuid), p, 1, 0);
    SyncOpening(P, signers, uuid, p);
    HonestIndices(P, signers, dealers, len, p);
  }

  lemma HonestIndices(P: Params, signers: seq<Signer>, dealers: seq<Keygen.Dealer>, len: nat, p: nat)
    requires Honest(P, signers, dealers, len) && 1 <= p <= |signers|
    ensures IndicesOk(signers[p - 1], p, Xs(signers), P.s.q)
    ensures CanAdjust(signers[p - 1].key.schemes) <==> |dealers| >= 2
  {
    PointsDistinct(P, signers, dealers, len);
    CanAdjustIff(P.s, dealers, len);
    assert HoldsKey(P, dealers, len, signers[p - 1]);
    forall i | 0 <= i < |signers| ensures Xs(signers)[i] <= |dealers| {
      assert HoldsKey(P, dealers, len, signers[i]);
    }
  }

  lemma PassesAnswers(P: Params, signers: seq<Signer>, dealers: seq<Keygen.Dealer>, len: nat, uuid: string, p: nat)
    requires Honest(P, signers, dealers, len) && PathAllowed(P, dealers) && 1 <= p <= |signers|
    ensures Passes(Session(P, signers, uuid), p, 3)
  {
    var pr := Session(P, signers, uuid);
    HistView(pr, p, 3, 0);
    HistView(pr, p, 3, 2);
    SyncOpening(P, signers, uuid, p);
    PassesIsChecks(P, signers, uuid, p, 3);
    AnswersCheck(P, signers[p - 1], p, SyncHist(pr, p, 3));
    HonestAnswers(P, signers, dealers, len, uuid, p);
  }

  lemma {:induction false} HonestAnswers(P: Params, signers: seq<Signer>, dealers: seq<Keygen.Dealer>, len: nat, uuid: string, p: nat)
    requires Honest(P, signers, dealers, len) && PathAllowed(P, dealers) && 1 <= p <= |signers|
    ensures var view := SyncView(Session(P, signers, uuid), p, 2);
      AnswersOk(P, signers[p - 1], p, Xs(signers), GammaAnswers(view), WAnswers(view))
  {
    var me, view := signers[p - 1], SyncView(Session(P, signers, uuid), p, 2);
    forall i | 0 <= i < |signers| && i + 1 != p
      ensures KeyPoint(P, me, Xs(signers), i).Some?
      ensures AnswerOk(me.key.ek, GammaAnswers(view)[i], WAnswers(view)[i], KeyPoint(P, me, Xs(signers), i).value)
    {
      AnswerPassesCheck(P, signers, dealers, len, uuid, p, i);
    }
  }

  lemma AnswersCheck(P: Params, me: Signer, p: nat, hist: seq<seq<Msg>>)
    requires P.s.q > 0 && |hist| == 3
    ensures Checks(P, me, p, hist) <==>
      AnswersOk(P, me, p, PointsOf(View(hist, 0)), GammaAnswers(View(hist, 2)), WAnswers(View(hist, 2)))
  {
  }

  /** In a run, the answer at place i opens under p's key and carries the point that p recomputes. */
  lemma {:induction false} AnswerPassesCheck(P: Params, signers: seq<Signer>, dealers: seq<Keygen.Dealer>, len: nat, uuid: string, p: nat, i: nat)
    requires Honest(P, signers, dealers, len) && PathAllowed(P, dealers) && 1 <= p <= |signers| && i < |signers|
    ensures var me, view := signers[p - 1], SyncView(Session(P, signers, uuid), p, 2);
      && KeyPoint(P, me, Xs(signers), i).Some?
      && AnswerOk(me.key.ek, GammaAnswers(view)[i], WAnswers(view)[i], KeyPoint(P, me, Xs(signers), i).value)
  {
    CommitmentCheckPasses(P, signers, dealers, len, p - 1, i);
    HonestEks(P, signers, dealers, len);
    AnswerKeys(P, signers, uuid, p, i);
  }

  lemma AnswerKeys(P: Params, signers: seq<Signer>, uuid: string, p: nat, i: nat)
    requires P.s.q > 0 && EksOnFile(signers) && 1 <= p <= |signers| && i < |signers|
    ensures var me, view := signers[p - 1], SyncView(Session(P, signers, uuid), p, 2);
      AnswerOk(me.key.ek, GammaAnswers(view)[i], WAnswers(view)[i], Mod(Ws(P, signers)[i], P.s.q))
  {
    SyncAnswer(P, signers, uuid, p, i + 1);
  }

  /** Delta has an inverse exactly when neither sum of nonces vanishes. */
  lemma PassesDelta(P: Params, signers: seq<Signer>, dealers: seq<Keygen.Dealer>, len: nat, uuid: string, p: nat)
    requires Honest(P, signers, dealers, len) && 1 <= p <= |signers|
    ensures Passes(Session(P, signers, uuid), p, 4) <==> NoncesUsable(P, signers)
  {
    DeltaCheckIs(P, signers, uuid, p);
    DeltaUsableIff(P, signers, dealers, len, uuid);
  }

  ghost predicate DeltaUsable(P: Params, signers: seq<Signer>, uuid: string)
    requires P.s.q > 0
  {
    Mod(SeqSum(DeltaShares(P, signers, uuid)), P.s.q) != 0
  }

  lemma DeltaCheckIs(P: Params, signers: seq<Signer>, uuid: string, p: nat)
    requires P.s.q > 0 && 1 <= p <= |signers|
    ensures Passes(Session(P, signers, uuid), p, 4) <==> DeltaUsable(P, signers, uuid)
  {
    var hist := SyncHist(Session(P, signers, uuid), p, 4);
    PassesIsChecks(P, signers, uuid, p, 4);
    DeltaCheck(P, signers[p - 1], p, hist);
    HistView(Session(P, signers, uuid), p, 4, 3);
    SyncDeltas(P, signers, uuid, p);
  }

  lemma DeltaCheck(P: Params, me: Signer, p: nat, hist: seq<seq<Msg>>)
    requires P.s.q > 0 && |hist| == 4
    ensures Checks(P, me, p, hist) <==> Mod(SeqSum(Deltas(View(hist, 3))), P.s.q) != 0
  {
  }

  lemma DeltaUsableIff(P: Params, signers: seq<Signer>, dealers: seq<Keygen.Dealer>, len: nat, uuid: string)
    requires Honest(P, signers, dealers, len)
    ensures DeltaUsable(P, signers, uuid) <==> NoncesUsable(P, signers)
  {
    ShareSums(P, signers, dealers, len, uuid);
    ProductZeroIff(SeqSum(DeltaShares(P, signers, uuid)), SeqSum(Ks(signers)), SeqSum(Nonces(signers)), P.s.q);
  }

  lemma ProductZeroIff(d: int, a: int, b: int, q: int)
    requires IsPrime(q) && IsProduct(d, a, b, q)
    ensures Mod(d, q) != 0 <==> Mod(a, q) != 0 && Mod(b, q) != 0
  {
    CongIsModEq(d, a * b, q);
    if Mod(a, q) == 0 {
      ZeroTimes(a, b, q);
    } else if Mod(b, q) == 0 {
      ZeroTimes(b, a, q);
    } else {
      ProductNonzero(a, b, q);
    }
  }

  lemma {:induction false} PassesOpenings(P: Params, signers: seq<Signer>, dealers: seq<Keygen.Dealer>, len: nat, uuid: string, p: nat)
    requires Honest(P, signers, dealers, len) && 1 <= p <= |signers|
    ensures Passes(Session(P, signers, uuid), p, 5)
  {
    var pr := Session(P, signers, uuid);
    HistView(pr, p, 5, 1);
    HistView(pr, p, 5, 2);
    HistView(pr, p, 5, 4);
    PassesIsChecks(P, signers, uuid, p, 5);
    OpeningsCheck(P, signers[p - 1], p, SyncHist(pr, p, 5));
    NonceOpeningsMatch(P, signers, dealers, len, uuid, p);
  }

  lemma OpeningsCheck(P: Params, me: Signer, p: nat, hist: seq<seq<Msg>>)
    requires P.s.q > 0 && |hist| == 5
    ensures Checks(P, me, p, hist) <==>
      OpeningsOk(Others(GammaAnswers(View(hist, 2)), p), Others(Gammas(View(hist, 4)), p), Others(Coms(View(hist, 1)), p))
  {
  }

  /** The library accepts the signature at the end exactly when no half it minds is zero. */
  lemma PassesSignature(P: Params, signers: seq<Signer>, dealers: seq<Keygen.Dealer>, len: nat, uuid: string, p: nat)
    requires Honest(P, signers, dealers, len) && NoncesUsable(P, signers) && EvenX(P.s)
    requires 1 <= p <= |signers| && RightKey(P, signers[p - 1])
    ensures Passes(Session(P, signers, uuid), p, |ROUNDS|) <==> Acceptable(P, signers, SigningKey(P, dealers, len))
  {
    FinalCheckIs(P, signers, uuid, p);
    FinishedVerifies(P, signers, dealers, len, uuid, p);
  }

  lemma FinalCheckIs(P: Params, signers: seq<Signer>, uuid: string, p: nat)
    requires IsPrime(P.s.q) && 1 <= p <= |signers|
    ensures Passes(Session(P, signers, uuid), p, |ROUNDS|) <==> Accepts(P, CommonSignature(P, signers, uuid))
  {
    var hist := SyncHist(Session(P, signers, uuid), p, |ROUNDS|);
    SameOutput(P, signers, uuid, p);
    LastCheck(P, signers[p - 1], p, hist);
    PassesIsChecks(P, signers, uuid, p, |ROUNDS|);
  }

  lemma {:induction false} PassesIsChecks(P: Params, signers: seq<Signer>, uuid: string, p: nat, r: nat)
    requires P.s.q > 0 && 1 <= p <= |signers| && r <= |ROUNDS|
    ensures Passes(Session(P, signers, uuid), p, r) <==> Checks(P, signers[p - 1], p, SyncHist(Session(P, signers, uuid), p, r))
  {
    SessionChecks(P, signers, uuid, p, SyncHist(Session(P, signers, uuid), p, r));
  }

  lemma SessionChecks(P: Params, signers: seq<Signer>, uuid: string, p: nat, hist: seq<seq<Msg>>)
    requires P.s.q > 0 && 1 <= p <= |signers|
    ensures var pr := Session(P, signers, uuid);
      (pr.checks(p, hist) <==> Checks(P, signers[p - 1], p, hist)) && forall to: nat :: pr.fits(p, to, hist)
  {
  }

  lemma LastCheck(P: Params, me: Signer, p: nat, hist: seq<seq<Msg>>)
    requires IsPrime(P.s.q) && |hist| == |ROUNDS|
    ensures Checks(P, me, p, hist) <==> Accepts(P, Output(P, me, p, hist))
  {
  }

  // ---- the theorems ----

  /** Everything an honest run needs, in terms of its inputs: a path only with a second scheme on
      file, neither sum of nonces zero, and no half of the signature zero that the library minds. */
  ghost predicate Usable(P: Params, signers: seq<Signer>, dealers: seq<Keygen.Dealer>, len: nat)
    requires IsPrime(P.s.q) && SameLength(Keygen.Polys(dealers), len) && len >= 1
  {
    PathAllowed(P, dealers) && NoncesUsable(P, signers) && Acceptable(P, signers, SigningKey(P, dealers, len))
  }

  ghost predicate AllRightKey(P: Params, signers: seq<Signer>)
    requires P.s.q > 0
  {
    forall i :: 0 <= i < |signers| ==> RightKey(P, signers[i])
  }

  /** No honest signer ever fails an assertion exactly when the inputs are usable. */
  lemma SoundIff(P: Params, signers: seq<Signer>, dealers: seq<Keygen.Dealer>, len: nat, uuid: string)
    requires Honest(P, signers, dealers, len) && EvenX(P.s) && AllRightKey(P, signers)
    ensures Sound(Session(P, signers, uuid)) <==> Usable(P, signers, dealers, len)
  {
    var pr := Session(P, signers, uuid);
    PassesIndices(P, signers, dealers, len, uuid, 1);
    PassesDelta(P, signers, dealers, len, uuid, 1);
    if NoncesUsable(P, signers) {
      PassesSignature(P, signers, dealers, len, uuid, 1);
    }
    if Sound(pr) {
      assert Passes(pr, 1, 1) && Passes(pr, 1, 4) && Passes(pr, 1, |ROUNDS|);
    }
    if Usable(P, signers, dealers, len) {
      forall p, r | 1 <= p <= pr.n && 0 <= r <= |ROUNDS| ensures Passes(pr, p, r) {
        UsablePasses(P, signers, dealers, len, uuid, p, r);
      }
    }
  }

  lemma UsablePasses(P: Params, signers: seq<Signer>, dealers: seq<Keygen.Dealer>, len: nat, uuid: string, p: nat, r: nat)
    requires Honest(P, signers, dealers, len) && EvenX(P.s) && 1 <= p <= |signers| && RightKey(P, signers[p - 1])
    requires Usable(P, signers, dealers, len) && r <= |ROUNDS|
    ensures Passes(Session(P, signers, uuid), p, r)
  {
    match r
    case 1 => PassesIndices(P, signers, dealers, len, uuid, p);
    case 3 => PassesAnswers(P, signers, dealers, len, uuid, p);
    case 4 => PassesDelta(P, signers, dealers, len, uuid, p);
    case 5 => PassesOpenings(P, signers, dealers, len, uuid, p);
    case 10 => PassesSignature(P, signers, dealers, len, uuid, p);
    case _ =>
  }

  /** After these events signer p has panicked. */
  ghost predicate Panicked(P: Params, signers: seq<Signer>, uuid: string, store: map<string, Msg>, events: seq<Event<Msg>>, p: nat)
    requires P.s.q > 0
  {
    var st := Run(Session(P, signers, uuid), store, events);
    1 <= p <= |st.parties| && Halted(Session(P, signers, uuid), st, p)
  }

  /** Some run of honest signers makes one of them panic exactly when the inputs are not usable. */
  lemma PanicsIff(P: Params, signers: seq<Signer>, dealers: seq<Keygen.Dealer>, len: nat, uuid: string, store: map<string, Msg>)
    requires Honest(P, signers, dealers, len) && EvenX(P.s) && AllRightKey(P, signers)
    requires FreshSession(Session(P, signers, uuid), store)
    ensures (exists events, p :: Panicked(P, signers, uuid, store, events, p)) <==> !Usable(P, signers, dealers, len)
  {
    var pr := Session(P, signers, uuid);
    SessionValid(P, signers, uuid);
    SoundIff(P, signers, dealers, len, uuid);
    if Sound(pr) {
      forall events, p: nat ensures !Panicked(P, signers, uuid, store, events, p) {
        RunInv(pr, store, events);
        if 1 <= p <= |signers| {
          NobodyHalts(pr, store, events, p);
        }
      }
    } else {
      var events, p := SomebodyHalts(pr, store);
      assert Panicked(P, signers, uuid, store, events, p);
    }
  }

  lemma OnlyDealerIsHonest() returns (s: Suite, dealers: seq<Keygen.Dealer>)
    ensures s == Suite(5, s.xCoord, true) && EvenX(s) && Keygen.HonestDealers(s, dealers, 1)
    ensures |dealers| == 1 && SameLength(Keygen.Polys(dealers), 1)
  {
    s := Suite(5, _ => 0, true);
    dealers := [Keygen.Dealer([2], 0, 1)];
  }

  /** An honest signer, alone since key generation, that asks for a path, and a run in which it panics. */
  lemma AloneAtPath() returns (P: Params, signers: seq<Signer>, dealers: seq<Keygen.Dealer>, events: seq<Event<Msg>>, p: nat)
    ensures Honest(P, signers, dealers, 1) && EvenX(P.s) && AllRightKey(P, signers) && !PathAllowed(P, dealers)
    ensures Panicked(P, signers, "A", map[], events, p)
  {
    P, signers, dealers := OnlySignerAtPath();
    PanicsIff(P, signers, dealers, 1, "A", map[]);
    events, p :| Panicked(P, signers, "A", map[], events, p);
  }

  lemma OnlySignerAtPath() returns (P: Params, signers: seq<Signer>, dealers: seq<Keygen.Dealer>)
    ensures Honest(P, signers, dealers, 1) && EvenX(P.s) && AllRightKey(P, signers) && !PathAllowed(P, dealers)
  {
    var s;
    s, dealers := OnlyDealerIsHonest();
    var file := Keygen.Expected(s, dealers, 1, 1);
    P := Params(s, true, 3, Mod(file.y + 3, s.q), 7, true);
    signers := [Signer(file, 1, 1, _ => 0, _ => 0)];
    assert HoldsKey(P, dealers, 1, signers[0]);
  }

  /** With all rounds behind it, signer i holds the run's signature, which verifies exactly when no
      half is zero. */
  ghost predicate Signed(P: Params, signers: seq<Signer>, dealers: seq<Keygen.Dealer>, len: nat, uuid: string,
      st: System<Msg>, i: nat)
    requires IsPrime(P.s.q) && SameLength(Keygen.Polys(dealers), len) && len >= 1 && i < |signers| == |st.parties|
  {
    |st.parties[i].done| == |ROUNDS| ==>
      var sig := CommonSignature(P, signers, uuid);
      && NoncesUsable(P, signers) && Output(P, signers[i], i + 1, st.parties[i].done) == sig
      && sig.r == NonceR(P, signers) && 2 * sig.s <= P.s.q
      && (VerifiesMessage(P, sig) <==> HalvesUsable(P, signers, SigningKey(P, dealers, len)))
  }

  /** ECDSA signing. For every signer set of at least t + 1 of the parties of a key generation, every
      path tweak or none, every message, every interleaving of the ten rounds and any expiry: a signer
      that has all rounds behind it holds the one signature of the run, with r the x-coordinate of G
      over the sum of the k, and it verifies under the key of the path exactly when r and m + r(x + f)
      are not zero. */
  lemma {:induction false} SignatureVerifies(P: Params, signers: seq<Signer>, dealers: seq<Keygen.Dealer>, len: nat, uuid: string,
      store: map<string, Msg>, events: seq<Event<Msg>>, i: nat)
    requires Honest(P, signers, dealers, len) && EvenX(P.s) && AllRightKey(P, signers)
    requires FreshSession(Session(P, signers, uuid), store) && i < |signers|
    ensures var st := Run(Session(P, signers, uuid), store, events);
      |st.parties| == |signers| && Signed(P, signers, dealers, len, uuid, st, i)
  {
    var pr := Session(P, signers, uuid);
    SessionValid(P, signers, uuid);
    RunsRefineSync(pr, store, events, i + 1);
    if |Run(pr, store, events).parties[i].done| == |ROUNDS| {
      FinishedNonces(P, signers, dealers, len, uuid, store, events, i);
      SyncSigned(P, signers, dealers, len, uuid, i, Run(pr, store, events));
    }
  }

  /** A signer that got through delta's inverse had nonces to invert it with. */
  lemma {:induction false} FinishedNonces(P: Params, signers: seq<Signer>, dealers: seq<Keygen.Dealer>, len: nat, uuid: string,
      store: map<string, Msg>, events: seq<Event<Msg>>, i: nat)
    requires Honest(P, signers, dealers, len) && FreshSession(Session(P, signers, uuid), store) && i < |signers|
    requires var st := Run(Session(P, signers, uuid), store, events);
      |st.parties| == |signers| && |st.parties[i].done| == |ROUNDS|
    ensures NoncesUsable(P, signers)
  {
    SessionValid(P, signers, uuid);
    PassedBefore(Session(P, signers, uuid), store, events, i + 1, 4);
    PassesDelta(P, signers, dealers, len, uuid, i + 1);
  }

  lemma {:induction false} SyncSigned(P: Params, signers: seq<Signer>, dealers: seq<Keygen.Dealer>, len: nat, uuid: string,
      i: nat, st: System<Msg>)
    requires Honest(P, signers, dealers, len) && EvenX(P.s) && AllRightKey(P, signers) && NoncesUsable(P, signers)
    requires i < |signers| == |st.parties|
    requires st.parties[i].done == SyncHist(Session(P, signers, uuid), i + 1, |ROUNDS|)
    ensures Signed(P, signers, dealers, len, uuid, st, i)
  {
    SameOutput(P, signers, uuid, i + 1);
    assert RightKey(P, signers[i]);
    FinishedVerifies(P, signers, dealers, len, uuid, i + 1);
  }
}
