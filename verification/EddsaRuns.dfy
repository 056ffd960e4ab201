/** Honest EdDSA signing runs: every check passes and the signature verifies. */
module EddsaRuns {
  import opened Wrappers
  import opened Modular
  import opened Sums
  import opened Shamir
  import opened PairwiseKeys
  import opened Bytes
  import opened RoundExchange
  import opened RoundProgress
  import opened EdwardsPoints
  import opened EddsaSigner
  import Keygen

  /** Exactly t + 1 signers with key files of one key generation under distinct numbers, each
      sharing an ephemeral secret with as many coefficients. */
  ghost predicate Honest(P: Params, signers: seq<Signer>, dealers: seq<Keygen.Dealer>, t: nat) {
    && ValidParams(P) && Keygen.HonestDealers(P.s, dealers, t + 1) && SameLength(Keygen.Polys(dealers), t + 1)
    && |dealers| < P.s.q && |signers| == t + 1 && P.t == t
    && (forall i {:trigger HoldsKey(P, dealers, t, signers[i])} :: 0 <= i < |signers| ==> HoldsKey(P, dealers, t, signers[i]))
    && (forall i, j {:trigger Differ(signers[i], signers[j])} :: 0 <= i < j < |signers| ==> Differ(signers[i], signers[j]))
  }

  ghost predicate HoldsKey(P: Params, dealers: seq<Keygen.Dealer>, t: nat, signer: Signer)
    requires P.s.q > 0 && SameLength(Keygen.Polys(dealers), t + 1)
  {
    && 1 <= signer.key.id <= |dealers| && signer.key == Keygen.Expected(P.s, dealers, t + 1, signer.key.id)
    && |signer.eph| == t + 1
  }

  predicate Differ(a: Signer, b: Signer) {
    a.key.id != b.key.id
  }

  function Xs(signers: seq<Signer>): (xs: seq<int>) {
    seq(|signers|, i requires 0 <= i < |signers| => signers[i].key.id)
  }

  function Ephs(signers: seq<Signer>): (fs: seq<Poly>) {
    seq(|signers|, i requires 0 <= i < |signers| => signers[i].eph)
  }

  lemma HonestFacts(P: Params, signers: seq<Signer>, dealers: seq<Keygen.Dealer>, t: nat)
    requires Honest(P, signers, dealers, t)
    ensures Points(Xs(signers), P.s.q) && SameLength(Ephs(signers), t + 1)
  {
    var xs := Xs(signers);
    forall i | 0 <= i < |xs| ensures 0 < xs[i] < P.s.q && |Ephs(signers)[i]| == t + 1 {
      assert HoldsKey(P, dealers, t, signers[i]);
    }
    forall i, j | 0 <= i < j < |xs| ensures xs[i] != xs[j] {
      assert Differ(signers[i], signers[j]);
    }
  }

  function ExpectedRs(P: Params, signers: seq<Signer>): (v: seq<int>)
    requires P.s.q > 0
  {
    seq(|signers|, i requires 0 <= i < |signers| => Mod(Keygen.Secret(signers[i].eph), P.s.q))
  }

  // ---- the vectors of a lock-step run ----

  ghost predicate PositiveIds(signers: seq<Signer>) {
    forall i :: 0 <= i < |signers| ==> signers[i].key.id >= 1
  }

  lemma {:induction false} SyncOpening(P: Params, signers: seq<Signer>, uuid: string, p: nat)
    requires ValidParams(P) && PositiveIds(signers)
    ensures var pr := Session(P, signers, uuid);
      PointsOf(SyncView(pr, p, 0)) == Xs(signers) && Rs(SyncView(pr, p, 1)) == ExpectedRs(P, signers)
  {
  }

  lemma PackIs(P: Params, me: Signer, p: nat, hist: seq<seq<Msg>>, xs: seq<int>, rs: seq<int>)
    requires P.s.q > 0 && 1 <= p <= |rs| == |xs|
    requires PointsOf(View(hist, 0)) == xs && Rs(View(hist, 1)) == rs
    ensures EphPayload(P, me, p, hist)
      == EphSealed(Seal(KeyBytes(P.s, PairPoint(rs[p - 1], Keygen.Secret(me.eph), P.s.q)), Share(me.eph, xs[p - 1], P.s.q)))
  {
  }

  lemma {:induction false} SyncPack(P: Params, signers: seq<Signer>, uuid: string, p: nat, i: nat)
    requires ValidParams(P) && PositiveIds(signers) && 1 <= p <= |signers| && 1 <= i <= |signers|
    ensures EphPacks(SyncView(Session(P, signers, uuid), p, 3))[i - 1]
      == Seal(KeyBytes(P.s, PairPoint(ExpectedRs(P, signers)[p - 1], Keygen.Secret(signers[i - 1].eph), P.s.q)),
           Share(signers[i - 1].eph, Xs(signers)[p - 1], P.s.q))
  {
    var pr := Session(P, signers, uuid);
    var hist := SyncHist(pr, i, 3);
    HistView(pr, i, 3, 0);
    HistView(pr, i, 3, 1);
    SyncOpening(P, signers, uuid, i);
    PackIs(P, signers[i - 1], p, hist, Xs(signers), ExpectedRs(P, signers));
    PackSent(P, signers, uuid, p, i - 1);
  }

  /** What a signer reads in a round is what the others' message function says. */
  lemma {:induction false} SentIs(P: Params, signers: seq<Signer>, uuid: string, p: nat, i: nat, r: nat)
    requires ValidParams(P) && i < |signers| && r < |ROUNDS|
    ensures var pr := Session(P, signers, uuid);
      SyncView(pr, p, r)[i] == Payload(P, signers, i + 1, if ROUNDS[r].kind.ToAll? then 0 else p, r, SyncHist(pr, i + 1, r))
  {
    SyncViewAt(Session(P, signers, uuid), p, r, i);
  }

  lemma {:induction false} PackSent(P: Params, signers: seq<Signer>, uuid: string, p: nat, i: nat)
    requires ValidParams(P) && i < |signers|
    ensures var pr := Session(P, signers, uuid);
      SyncView(pr, p, 3)[i] == EphPayload(P, signers[i], p, SyncHist(pr, i + 1, 3))
  {
    SentIs(P, signers, uuid, p, i, 3);
  }

  /** Padded keys always fit, so every ephemeral share opens to the one dealt. */
  lemma EphShareOpens(P: Params, signers: seq<Signer>, p: nat, i: nat, pack: Option<Aead>)
    requires ValidParams(P) && 1 <= p <= |signers| && 0 <= i < |signers|
    requires pack == Seal(KeyBytes(P.s, PairPoint(ExpectedRs(P, signers)[p - 1], Keygen.Secret(signers[i].eph), P.s.q)),
      Share(signers[i].eph, Xs(signers)[p - 1], P.s.q))
    ensures var key := Keygen.EncKeys(P.s, Keygen.Secret(signers[p - 1].eph), ExpectedRs(P, signers))[i];
      Decrypt(key, pack).Some? && Open(key, pack, P.s.q) == Share(signers[i].eph, Xs(signers)[p - 1], P.s.q)
  {
    var u, v := Keygen.Secret(signers[i].eph), Keygen.Secret(signers[p - 1].eph);
    PairPointSymmetric(u, v, P.s.q);
    KeyLength(P.s, PairPoint(Mod(u, P.s.q), v, P.s.q));
    ShareArrives(Keygen.EncKeys(P.s, v, ExpectedRs(P, signers))[i], Share(signers[i].eph, Xs(signers)[p - 1], P.s.q), P.s.q);
  }

  /** The joint ephemeral polynomial. */
  function Joint(signers: seq<Signer>, len: nat): Poly
    requires SameLength(Ephs(signers), len)
  {
    SumPoly(Ephs(signers), len)
  }

  lemma {:induction false} SyncEphShares(P: Params, signers: seq<Signer>, uuid: string, p: nat, i: nat)
    requires ValidParams(P) && PositiveIds(signers) && 1 <= p <= |signers| && 0 <= i < |signers|
    ensures EphShares(P.s, signers[p - 1].eph, p, Xs(signers)[p - 1], ExpectedRs(P, signers),
        EphPacks(SyncView(Session(P, signers, uuid), p, 3)))[i]
      == Share(signers[i].eph, Xs(signers)[p - 1], P.s.q)
  {
    if i + 1 != p {
      SyncPack(P, signers, uuid, p, i + 1);
      EphShareOpens(P, signers, p, i, EphPacks(SyncView(Session(P, signers, uuid), p, 3))[i]);
    }
  }

  /** Each signer's ephemeral share is the joint polynomial at its point. */
  lemma {:induction false} SyncEphShare(P: Params, signers: seq<Signer>, len: nat, uuid: string, p: nat)
    requires ValidParams(P) && PositiveIds(signers) && SameLength(Ephs(signers), len) && 1 <= p <= |signers|
    ensures EphShare(P.s, signers[p - 1].eph, p, Xs(signers)[p - 1], ExpectedRs(P, signers),
        EphPacks(SyncView(Session(P, signers, uuid), p, 3)))
      == Share(Joint(signers, len), Xs(signers)[p - 1], P.s.q)
  {
    var q, x, fs := P.s.q, Xs(signers)[p - 1], Ephs(signers);
    var shares := EphShares(P.s, signers[p - 1].eph, p, x, ExpectedRs(P, signers), EphPacks(SyncView(Session(P, signers, uuid), p, 3)));
    forall i | 0 <= i < |signers| ensures Cong(shares[i], Evals(fs, x)[i], q) {
      SyncEphShares(P, signers, uuid, p, i);
      CongMod(Eval(fs[i], x), q);
    }
    SeqSumCong(shares, Evals(fs, x), q);
    EvalSum(fs, len, x);
    CongIsModEq(SeqSum(shares), SeqSum(Evals(fs, x)), q);
  }

  // ---- local signatures ----

  ghost function CommonR(P: Params, signers: seq<Signer>): int
    requires ValidParams(P)
  {
    Mod(SeqSum(ExpectedRs(P, signers)), P.s.q)
  }

  /** The challenge every signer computes. */
  ghost function CommonChallenge(P: Params, signers: seq<Signer>, y: int): nat
    requires ValidParams(P)
  {
    Challenge(P, CommonR(P, signers), y)
  }

  ghost function Gammas(P: Params, signers: seq<Signer>, len: nat, y: int): (v: seq<int>)
    requires ValidParams(P) && SameLength(Ephs(signers), len)
  {
    seq(|signers|, i requires 0 <= i < |signers| =>
      LocalGamma(Share(Joint(signers, len), Xs(signers)[i], P.s.q), CommonChallenge(P, signers, y), signers[i].key.x, P.s.q))
  }

  ghost predicate OneKey(signers: seq<Signer>, y: int) {
    forall i :: 0 <= i < |signers| ==> signers[i].key.y == y
  }

  /** What is announced in the ephemeral round 4: by everybody the one nonce point of the run, and the
      point of its own share of the nonce. */
  lemma {:induction false} NonceAnnounced(P: Params, signers: seq<Signer>, len: nat, uuid: string, p: nat, i: nat)
    requires ValidParams(P) && PositiveIds(signers) && SameLength(Ephs(signers), len) && i < |signers|
    ensures SyncView(Session(P, signers, uuid), p, 4)[i]
      == EphShared(CommonR(P, signers), Share(Joint(signers, len), Xs(signers)[i], P.s.q))
  {
    SentIs(P, signers, uuid, p, i, 4);
    LaterViews(P, signers, uuid, i, 4);
    SyncEphShare(P, signers, len, uuid, i + 1);
    SharedIs(P, signers, len, i, SyncHist(Session(P, signers, uuid), i + 1, 4));
  }

  lemma SharedIs(P: Params, signers: seq<Signer>, len: nat, i: nat, hist: seq<seq<Msg>>)
    requires ValidParams(P) && SameLength(Ephs(signers), len) && i < |signers|
    requires PointsOf(View(hist, 0)) == Xs(signers) && Rs(View(hist, 1)) == ExpectedRs(P, signers)
    requires EphShare(P.s, signers[i].eph, i + 1, Xs(signers)[i], ExpectedRs(P, signers), EphPacks(View(hist, 3)))
      == Share(Joint(signers, len), Xs(signers)[i], P.s.q)
    ensures Payload(P, signers, i + 1, 0, 4, hist) == EphShared(CommonR(P, signers), Share(Joint(signers, len), Xs(signers)[i], P.s.q))
  {
  }

  lemma {:induction false} SyncLocalSig(P: Params, signers: seq<Signer>, len: nat, uuid: string, i: nat, y: int)
    requires ValidParams(P) && PositiveIds(signers) && SameLength(Ephs(signers), len) && OneKey(signers, y) && i < |signers|
    ensures OwnLocalSig(P, signers[i], i + 1, SyncHist(Session(P, signers, uuid), i + 1, 5))
      == LocalSig(Gammas(P, signers, len, y)[i], Mod(CommonChallenge(P, signers, y), P.s.q))
  {
    LaterViews(P, signers, uuid, i, 5);
    SyncEphShare(P, signers, len, uuid, i + 1);
    LocalSigIs(P, signers, len, i, y, SyncHist(Session(P, signers, uuid), i + 1, 5));
  }

  lemma LaterViews(P: Params, signers: seq<Signer>, uuid: string, i: nat, r: nat)
    requires ValidParams(P) && PositiveIds(signers) && i < |signers| && 4 <= r <= |ROUNDS|
    ensures var hist := SyncHist(Session(P, signers, uuid), i + 1, r);
      && PointsOf(View(hist, 0)) == Xs(signers) && Rs(View(hist, 1)) == ExpectedRs(P, signers)
      && View(hist, 3) == SyncView(Session(P, signers, uuid), i + 1, 3)
  {
    var pr := Session(P, signers, uuid);
    HistView(pr, i + 1, r, 0);
    HistView(pr, i + 1, r, 1);
    HistView(pr, i + 1, r, 3);
    SyncOpening(P, signers, uuid, i + 1);
  }

  lemma LocalSigIs(P: Params, signers: seq<Signer>, len: nat, i: nat, y: int, hist: seq<seq<Msg>>)
    requires ValidParams(P) && SameLength(Ephs(signers), len) && OneKey(signers, y) && i < |signers|
    requires PointsOf(View(hist, 0)) == Xs(signers) && Rs(View(hist, 1)) == ExpectedRs(P, signers)
    requires EphShare(P.s, signers[i].eph, i + 1, Xs(signers)[i], ExpectedRs(P, signers), EphPacks(View(hist, 3)))
      == Share(Joint(signers, len), Xs(signers)[i], P.s.q)
    ensures OwnLocalSig(P, signers[i], i + 1, hist)
      == LocalSig(Gammas(P, signers, len, y)[i], Mod(CommonChallenge(P, signers, y), P.s.q))
  {
  }

  lemma {:induction false} SyncGammas(P: Params, signers: seq<Signer>, len: nat, uuid: string, p: nat, y: int)
    requires ValidParams(P) && PositiveIds(signers) && SameLength(Ephs(signers), len) && OneKey(signers, y)
    ensures LocalGammas(SyncView(Session(P, signers, uuid), p, 5)) == Gammas(P, signers, len, y)
  {
    var pr := Session(P, signers, uuid);
    forall i | 0 <= i < |signers|
      ensures LocalGammas(SyncView(pr, p, 5))[i] == Gammas(P, signers, len, y)[i]
    {
      GammaAt(P, signers, len, uuid, p, i, y);
    }
  }

  lemma {:induction false} GammaAt(P: Params, signers: seq<Signer>, len: nat, uuid: string, p: nat, i: nat, y: int)
    requires ValidParams(P) && PositiveIds(signers) && SameLength(Ephs(signers), len) && OneKey(signers, y) && i < |signers|
    ensures LocalGammas(SyncView(Session(P, signers, uuid), p, 5))[i] == Gammas(P, signers, len, y)[i]
  {
    SyncLocalSig(P, signers, len, uuid, i, y);
    LocalSigSent(P, signers, uuid, p, i);
  }

  lemma {:induction false} LocalSigSent(P: Params, signers: seq<Signer>, uuid: string, p: nat, i: nat)
    requires ValidParams(P) && i < |signers|
    ensures var pr := Session(P, signers, uuid);
      SyncView(pr, p, 5)[i] == OwnLocalSig(P, signers[i], i + 1, SyncHist(pr, i + 1, 5))
  {
    SentIs(P, signers, uuid, p, i, 5);
  }

  /** The polynomial that the local signatures share. */
  function SigPoly(E: Poly, F: Poly, k: int): Poly
    requires |E| == |F|
  {
    AddPoly(E, Scale(k, F))
  }

  lemma {:induction false} GammaOnSigPoly(E: Poly, F: Poly, x: int, share: int, k: nat, q: int)
    requires q > 0 && |E| == |F| && Cong(share, Eval(F, x), q)
    ensures Cong(LocalGamma(Share(E, x, q), k, share, q), Eval(SigPoly(E, F, Mod(k, q)), x), q)
  {
    var c := Mod(k, q);
    EvalScale(c, F, x);
    EvalAdd(E, Scale(c, F), x);
    CongMod(Eval(E, x), q);
    CongRefl(c, q);
    CongMul(c, c, share, Eval(F, x), q);
    CongAdd(Share(E, x, q), Eval(E, x), c * share, c * Eval(F, x), q);
    CongMod(Share(E, x, q) + c * share, q);
    CongTrans(LocalGamma(Share(E, x, q), k, share, q), Share(E, x, q) + c * share, Eval(E, x) + c * Eval(F, x), q);
  }

  /** The local signatures lie on one polynomial of t + 1 coefficients. */
  lemma GammasOnSigPoly(P: Params, signers: seq<Signer>, dealers: seq<Keygen.Dealer>, t: nat, y: int, i: nat)
    requires Honest(P, signers, dealers, t) && SameLength(Ephs(signers), t + 1) && i < |signers|
    ensures Cong(Gammas(P, signers, t + 1, y)[i],
      Eval(SigPoly(Joint(signers, t + 1), Keygen.Joint(dealers, t + 1), Mod(CommonChallenge(P, signers, y), P.s.q)), Xs(signers)[i]), P.s.q)
  {
    assert HoldsKey(P, dealers, t, signers[i]);
    var F, x := Keygen.Joint(dealers, t + 1), Xs(signers)[i];
    CongMod(Eval(F, x), P.s.q);
    GammaOnSigPoly(Joint(signers, t + 1), F, x, signers[i].key.x, CommonChallenge(P, signers, y), P.s.q);
  }

  // ---- the check of the local signatures ----

  function Commitments(fs: seq<Poly>, q: int): (cs: seq<seq<int>>)
    requires q > 0
  {
    seq(|fs|, j requires 0 <= j < |fs| => Commit(fs[j], q))
  }

  lemma {:induction false} CommitmentsFit(fs: seq<Poly>, len: nat, q: int)
    requires q > 0 && SameLength(fs, len) && fs != []
    ensures SameLength(Commitments(fs, q), len)
    ensures forall k :: 0 <= k < len ==> Cong(SumCommitments(Commitments(fs, q), len, q)[k], SumPoly(fs, len)[k], q)
  {
    var cs := Commitments(fs, q);
    forall j, k | 0 <= j < |cs| && 0 <= k < len ensures Cong(cs[j][k], fs[j][k], q) {
      CongMod(fs[j][k], q);
    }
    CommitmentsCommitSum(cs, fs, len, q);
  }

  lemma {:induction false} LocalCheckIs(es: seq<Poly>, fs: seq<Poly>, len: nat, k: int, x: int, q: int)
    requires q > 0 && es != [] && fs != [] && SameLength(es, len) && SameLength(fs, len)
    ensures SameLength(Commitments(es, q), len) && SameLength(Commitments(fs, q), len)
    ensures LocalCheck(Commitments(es, q), Commitments(fs, q), len, k, x, q)
      == Mod(Eval(SigPoly(SumPoly(es, len), SumPoly(fs, len), k), x), q)
  {
    CommitmentsFit(es, len, q);
    CommitmentsFit(fs, len, q);
    var e, c := SumCommitments(Commitments(es, q), len, q), SumCommitments(Commitments(fs, q), len, q);
    var E, F := SumPoly(es, len), SumPoly(fs, len);
    var all: Poly := seq(len, i requires 0 <= i < len => Mod(e[i] + Mod(k * c[i], q), q));
    forall i | 0 <= i < len ensures Cong(all[i], SigPoly(E, F, k)[i], q) {
      CombinedTerm(e[i], c[i], E[i], F[i], k, q);
    }
    EvalCong(all, SigPoly(E, F, k), x, q);
    CongIsModEq(Eval(all, x), Eval(SigPoly(E, F, k), x), q);
  }

  lemma CombinedTerm(e: int, c: int, E: int, F: int, k: int, q: int)
    requires q > 0 && Cong(e, E, q) && Cong(c, F, q)
    ensures Cong(Mod(e + Mod(k * c, q), q), E + k * F, q)
  {
    CongMod(k * c, q);
    CongRefl(k, q);
    CongMul(k, k, c, F, q);
    CongTrans(Mod(k * c, q), k * c, k * F, q);
    CongAdd(e, E, Mod(k * c, q), k * F, q);
    CongMod(e + Mod(k * c, q), q);
    CongTrans(Mod(e + Mod(k * c, q), q), e + Mod(k * c, q), E + k * F, q);
  }

  /** `verify_local_sigs` accepts every honest local signature, under every signer's point. */
  lemma LocalSigsAccepted(P: Params, signers: seq<Signer>, dealers: seq<Keygen.Dealer>, t: nat, y: int, i: nat)
    requires Honest(P, signers, dealers, t) && i < |signers|
    ensures var ephs, keys := Commitments(Ephs(signers), P.s.q), Commitments(Keygen.Polys(dealers), P.s.q);
      && SameLength(Ephs(signers), t + 1) && ephs != [] && keys != [] && SameLength(ephs, t + 1) && SameLength(keys, t + 1)
      && LocalCheck(ephs, keys, t + 1, Mod(CommonChallenge(P, signers, y), P.s.q), Xs(signers)[i], P.s.q)
           == Mod(Gammas(P, signers, t + 1, y)[i], P.s.q)
  {
    HonestFacts(P, signers, dealers, t);
    assert HoldsKey(P, dealers, t, signers[i]);
    GammasOnSigPoly(P, signers, dealers, t, y, i);
    var k := Mod(CommonChallenge(P, signers, y), P.s.q);
    LocalCheckIs(Ephs(signers), Keygen.Polys(dealers), t + 1, k, Xs(signers)[i], P.s.q);
    CongIsModEq(Gammas(P, signers, t + 1, y)[i],
      Eval(SigPoly(Joint(signers, t + 1), Keygen.Joint(dealers, t + 1), k), Xs(signers)[i]), P.s.q);
  }

  // ---- the signature ----

  lemma SigmaInterpolates(P: Params, signers: seq<Signer>, dealers: seq<Keygen.Dealer>, t: nat, y: int)
    requires Honest(P, signers, dealers, t) && SameLength(Ephs(signers), t + 1)
    ensures Cong(Sigma(Xs(signers), Gammas(P, signers, t + 1, y), t, P.s.q),
      Joint(signers, t + 1)[0] + Mod(CommonChallenge(P, signers, y), P.s.q) * Keygen.Joint(dealers, t + 1)[0], P.s.q)
  {
    var q, xs, gs := P.s.q, Xs(signers), Gammas(P, signers, t + 1, y);
    HonestFacts(P, signers, dealers, t);
    assert xs[..t + 1] == xs && gs[..t + 1] == gs;
    var f := SigPoly(Joint(signers, t + 1), Keygen.Joint(dealers, t + 1), Mod(CommonChallenge(P, signers, y), q));
    forall i | 0 <= i < |xs| ensures Cong(gs[i], Eval(f, xs[i]), q) {
      GammasOnSigPoly(P, signers, dealers, t, y, i);
    }
    SharesReconstruct(xs, gs, f, q);
    CongMod(Reconstruct(xs, xs, gs, q), q);
    CongTrans(Mod(Reconstruct(xs, xs, gs, q), q), Reconstruct(xs, xs, gs, q), f[0], q);
  }

  lemma NonceIsJoint(P: Params, signers: seq<Signer>, len: nat)
    requires ValidParams(P) && SameLength(Ephs(signers), len) && len >= 1
    ensures Cong(CommonR(P, signers), Joint(signers, len)[0], P.s.q)
  {
    var q, fs := P.s.q, Ephs(signers);
    forall i | 0 <= i < |signers| ensures Cong(ExpectedRs(P, signers)[i], Evals(fs, 0)[i], q) {
      CongMod(Keygen.Secret(signers[i].eph), q);
    }
    SeqSumCong(ExpectedRs(P, signers), Evals(fs, 0), q);
    EvalSum(fs, len, 0);
    CongMod(SeqSum(ExpectedRs(P, signers)), q);
    CongTrans(CommonR(P, signers), SeqSum(ExpectedRs(P, signers)), Joint(signers, len)[0], q);
  }

  /** The signature of the run, as every signer puts it out. */
  ghost function CommonSignature(P: Params, signers: seq<Signer>, t: nat, y: int): Signature
    requires ValidParams(P) && SameLength(Ephs(signers), t + 1)
  {
    var s := Sigma(Xs(signers), Gammas(P, signers, t + 1, y), t, P.s.q);
    Signature(Lift(CommonR(P, signers), P.s.q),
      if P.atPath then Updated(s, P.f, CommonChallenge(P, signers, y), P.s.q) else s)
  }

  function Tweak(P: Params): int {
    if P.atPath then P.f else 0
  }

  /** s is R + k(x + f), the tweak added after the fact. */
  lemma SignatureEquation(P: Params, signers: seq<Signer>, dealers: seq<Keygen.Dealer>, t: nat, y: int, k: int)
    requires Honest(P, signers, dealers, t) && SameLength(Ephs(signers), t + 1)
    requires k == Mod(CommonChallenge(P, signers, y), P.s.q) && Cong(y, Keygen.Joint(dealers, t + 1)[0], P.s.q)
    ensures var s := CommonSignature(P, signers, t, y).s;
      0 <= s < P.s.q && Cong(s, CommonR(P, signers) + k * (y + Tweak(P)), P.s.q)
  {
    SigmaInterpolates(P, signers, dealers, t, y);
    NonceIsJoint(P, signers, t + 1);
    var sigma := Sigma(Xs(signers), Gammas(P, signers, t + 1, y), t, P.s.q);
    EquationOf(sigma, CommonR(P, signers), Joint(signers, t + 1)[0], Keygen.Joint(dealers, t + 1)[0], k, y, Tweak(P), P.s.q);
    ModSmallSigma(Xs(signers), Gammas(P, signers, t + 1, y), t, P.s.q);
  }

  lemma ModSmallSigma(points: seq<int>, gammas: seq<int>, t: nat, q: int)
    requires q > 0
    ensures 0 <= Sigma(points, gammas, t, q) < q
  {
  }

  lemma EquationOf(sigma: int, R: int, E0: int, F0: int, k: int, y: int, f: int, q: int)
    requires q > 0 && Cong(sigma, E0 + k * F0, q) && Cong(R, E0, q) && Cong(y, F0, q)
    ensures Cong(Mod(sigma + f * k, q), R + k * (y + f), q)
    ensures f == 0 ==> Cong(sigma, R + k * (y + f), q)
  {
    CongSym(R, E0, q);
    CongSym(y, F0, q);
    CongRefl(k, q);
    CongMul(k, k, F0, y, q);
    CongAdd(E0, R, k * F0, k * y, q);
    CongTrans(sigma, E0 + k * F0, R + k * y, q);
    CongRefl(f * k, q);
    CongAdd(sigma, R + k * y, f * k, f * k, q);
    assert R + k * y + f * k == R + k * (y + f);
    CongMod(sigma + f * k, q);
    CongTrans(Mod(sigma + f * k, q), sigma + f * k, R + k * (y + f), q);
  }

  /** With s = R + k·Y the library's equation holds on the curve. */
  lemma LibraryEquation(s: int, R: int, k: nat, a: int, q: int)
    requires q > 0 && 0 <= s < q && Cong(s, R + Mod(k, q) * a, q)
    ensures LibraryVerifies(Signature(Lift(R, q), s), Lift(a, q), k, q)
  {
    var c := Mod(k, q);
    LiftIs(s, q);
    LiftIs(R, q);
    LiftIs(a, q);
    MulFlat(c, Mod(a, q), q);
    AddFlat(Mod(R, q), Mod(c * Mod(a, q), q), q);
    CongMod(R, q);
    CongMod(a, q);
    CongRefl(s, q);
    CongRefl(c, q);
    CongMul(c, c, Mod(a, q), a, q);
    SamePoint(s, Mod(R, q), c * Mod(a, q), s, R, c * a, 1, q);
  }

  /** And so does the one with the cofactor, the challenge unreduced. */
  lemma CofactorEquation(s: int, R: int, k: nat, a: int, q: int)
    requires q > 0 && 0 <= s < q && Cong(s, R + Mod(k, q) * a, q)
    ensures Verifies(Signature(Lift(R, q), s), Lift(a, q), k, q)
  {
    LiftIs(s, q);
    LiftIs(R, q);
    LiftIs(a, q);
    MulFlat(8, Mod(s, q), q);
    MulFlat(8, Mod(R, q), q);
    MulFlat(k, Mod(a, q), q);
    MulFlat(8, Mod(k * Mod(a, q), q), q);
    AddFlat(Mod(8 * Mod(R, q), q), Mod(8 * Mod(k * Mod(a, q), q), q), q);
    CongMod(s, q);
    CongMod(R, q);
    CongMod(a, q);
    CongMod(k, q);
    CongSym(Mod(k, q), k, q);
    CongMul(k, Mod(k, q), Mod(a, q), a, q);
    SamePoint(Mod(s, q), Mod(R, q), k * Mod(a, q), s, R, Mod(k, q) * a, 8, q);
  }

  /** What the two equations say of any signature, honest or not, whose nonce point and key are of
      prime order: that s is R plus the challenge times the key. */
  lemma EquationsIff(s: int, R: int, k: nat, a: int, q: int)
    requires IsPrime(q) && Mod(8, q) != 0 && 0 <= s < q
    ensures var sig := Signature(Lift(R, q), s);
      && (Verifies(sig, Lift(a, q), k, q) <==> Cong(s, R + Mod(k, q) * a, q))
      && (LibraryVerifies(sig, Lift(a, q), k, q) <==> Cong(s, R + Mod(k, q) * a, q))
  {
    var sig := Signature(Lift(R, q), s);
    if Cong(s, R + Mod(k, q) * a, q) {
      LibraryEquation(s, R, k, a, q);
      CofactorEquation(s, R, k, a, q);
    }
    if LibraryVerifies(sig, Lift(a, q), k, q) {
      LibraryMeans(s, R, k, a, q);
    }
    if Verifies(sig, Lift(a, q), k, q) {
      CofactorMeans(s, R, k, a, q);
    }
  }

  lemma LibraryMeans(s: int, R: int, k: nat, a: int, q: int)
    requires q > 0 && 0 <= s < q && LibraryVerifies(Signature(Lift(R, q), s), Lift(a, q), k, q)
    ensures Cong(s, R + Mod(k, q) * a, q)
  {
    LiftIs(s, q);
    LiftIs(R, q);
    LiftIs(a, q);
    MulFlat(Mod(k, q), Mod(a, q), q);
    AddFlat(Mod(R, q), Mod(Mod(k, q) * Mod(a, q), q), q);
    ReducedSum(1, R, Mod(k, q), a, q);
    CongIsModEq(s, R + Mod(k, q) * a, q);
  }

  lemma CofactorMeans(s: int, R: int, k: nat, a: int, q: int)
    requires IsPrime(q) && Mod(8, q) != 0 && 0 <= s < q && Verifies(Signature(Lift(R, q), s), Lift(a, q), k, q)
    ensures Cong(s, R + Mod(k, q) * a, q)
  {
    LiftIs(s, q);
    LiftIs(R, q);
    LiftIs(a, q);
    ModSmall(s, q);
    MulFlat(8, s, q);
    MulFlat(8, Mod(R, q), q);
    MulFlat(k, Mod(a, q), q);
    MulFlat(8, Mod(k * Mod(a, q), q), q);
    AddFlat(Mod(8 * Mod(R, q), q), Mod(8 * Mod(k * Mod(a, q), q), q), q);
    ReducedSum(8, R, k, a, q);
    CongIsModEq(8 * s, 8 * (R + k * a), q);
    CongCancel(8, s, R + k * a, q);
    ReducedChallenge(R, k, a, q);
    CongTrans(s, R + k * a, R + Mod(k, q) * a, q);
  }

  lemma ReducedChallenge(R: int, k: int, a: int, q: int)
    requires q > 0
    ensures Cong(R + k * a, R + Mod(k, q) * a, q)
  {
    CongMod(k, q);
    CongSym(Mod(k, q), k, q);
    CongScale(k, Mod(k, q), a, q);
    CongRefl(R, q);
    CongAdd(R, R, k * a, Mod(k, q) * a, q);
  }

  /** Reducing at every step on the way to c(R + ka). */
  lemma ReducedSum(c: int, R: int, k: int, a: int, q: int)
    requires q > 0
    ensures Mod(Mod(c * Mod(R, q), q) + Mod(c * Mod(k * Mod(a, q), q), q), q) == Mod(c * (R + k * a), q)
    ensures c == 1 ==> Mod(Mod(R, q) + Mod(k * Mod(a, q), q), q) == Mod(R + k * a, q)
  {
    var r, m := Mod(R, q), Mod(k * Mod(a, q), q);
    CongMod(R, q);
    CongMod(a, q);
    CongMod(k * Mod(a, q), q);
    CongRefl(k, q);
    CongMul(k, k, Mod(a, q), a, q);
    CongTrans(m, k * Mod(a, q), k * a, q);
    CongAdd(r, R, m, k * a, q);
    CongIsModEq(r + m, R + k * a, q);
    ScaledSum(c, r, m, R + k * a, q);
  }

  lemma ScaledSum(c: int, r: int, m: int, v: int, q: int)
    requires q > 0 && Cong(r + m, v, q)
    ensures Mod(Mod(c * r, q) + Mod(c * m, q), q) == Mod(c * v, q)
  {
    CongMod(c * r, q);
    CongMod(c * m, q);
    CongAdd(Mod(c * r, q), c * r, Mod(c * m, q), c * m, q);
    CongRefl(c, q);
    CongMul(c, c, r + m, v, q);
    assert c * r + c * m == c * (r + m);
    CongTrans(Mod(c * r, q) + Mod(c * m, q), c * (r + m), c * v, q);
    CongIsModEq(Mod(c * r, q) + Mod(c * m, q), c * v, q);
  }

  /** Scaling both sides of s = R + m by c and reducing each step. */
  lemma SamePoint(s': int, R': int, m': int, s: int, R: int, m: int, c: int, q: int)
    requires q > 0 && Cong(s', s, q) && Cong(R', R, q) && Cong(m', m, q) && Cong(s, R + m, q)
    ensures Mod(c * s', q) == Mod(Mod(c * R', q) + Mod(c * Mod(m', q), q), q)
    ensures c == 1 ==> Mod(s', q) == Mod(R' + Mod(m', q), q)
  {
    CongMod(m', q);
    CongTrans(Mod(m', q), m', m, q);
    CongAdd(R', R, Mod(m', q), m, q);
    CongTrans(s', s, R + m, q);
    CongSym(R' + Mod(m', q), R + m, q);
    CongTrans(s', R + m, R' + Mod(m', q), q);
    CongIsModEq(s', R' + Mod(m', q), q);
    CongRefl(c, q);
    CongMul(c, c, s', R' + Mod(m', q), q);
    assert c * (R' + Mod(m', q)) == c * R' + c * Mod(m', q);
    CongMod(c * R', q);
    CongMod(c * Mod(m', q), q);
    CongAdd(Mod(c * R', q), c * R', Mod(c * Mod(m', q), q), c * Mod(m', q), q);
    CongSym(Mod(c * R', q) + Mod(c * Mod(m', q), q), c * R' + c * Mod(m', q), q);
    CongTrans(c * s', c * R' + c * Mod(m', q), Mod(c * R', q) + Mod(c * Mod(m', q), q), q);
    CongIsModEq(c * s', Mod(c * R', q) + Mod(c * Mod(m', q), q), q);
  }

  /** The key a path's signature verifies under is the lifted sum of root key and tweak. */
  lemma PublicKeyIs(P: Params, y: int)
    requires ValidParams(P)
    ensures PublicKey(P, y) == Lift(y + Tweak(P), P.s.q)
  {
    ClearTorsionIdempotent(Lift(y, P.s.q), P.s.q);
  }

  lemma CommonSignatureVerifies(P: Params, signers: seq<Signer>, dealers: seq<Keygen.Dealer>, t: nat, y: int)
    requires Honest(P, signers, dealers, t) && SameLength(Ephs(signers), t + 1)
    requires Cong(y, Keygen.Joint(dealers, t + 1)[0], P.s.q)
    ensures var sig, k := CommonSignature(P, signers, t, y), CommonChallenge(P, signers, y);
      && Verifies(sig, PublicKey(P, y), k, P.s.q) && LibraryVerifies(sig, PublicKey(P, y), k, P.s.q)
      && k == P.hash(sig.R, PublicKey(P, y), P.message)
  {
    var k := CommonChallenge(P, signers, y);
    SignatureEquation(P, signers, dealers, t, y, Mod(k, P.s.q));
    PublicKeyIs(P, y);
    LibraryEquation(CommonSignature(P, signers, t, y).s, CommonR(P, signers), k, y + Tweak(P), P.s.q);
    CofactorEquation(CommonSignature(P, signers, t, y).s, CommonR(P, signers), k, y + Tweak(P), P.s.q);
  }

  lemma {:induction false} SyncOutput(P: Params, signers: seq<Signer>, t: nat, uuid: string, p: nat, y: int)
    requires ValidParams(P) && PositiveIds(signers) && SameLength(Ephs(signers), t + 1) && OneKey(signers, y) && 1 <= p <= |signers|
    requires P.t == t
    ensures Output(P, signers[p - 1], SyncHist(Session(P, signers, uuid), p, |ROUNDS|)) == CommonSignature(P, signers, t, y)
  {
    LastViews(P, signers, t, uuid, p, y);
    OutputFrom(P, signers, t, p, y, SyncHist(Session(P, signers, uuid), p, |ROUNDS|));
  }

  lemma OutputFrom(P: Params, signers: seq<Signer>, t: nat, p: nat, y: int, hist: seq<seq<Msg>>)
    requires ValidParams(P) && SameLength(Ephs(signers), t + 1) && OneKey(signers, y) && 1 <= p <= |signers| && P.t == t
    requires PointsOf(View(hist, 0)) == Xs(signers) && Rs(View(hist, 1)) == ExpectedRs(P, signers)
    requires LocalGammas(View(hist, 5)) == Gammas(P, signers, t + 1, y)
    ensures Output(P, signers[p - 1], hist) == CommonSignature(P, signers, t, y)
  {
  }

  lemma KeyFacts(P: Params, signers: seq<Signer>, dealers: seq<Keygen.Dealer>, t: nat, y: int)
    requires Honest(P, signers, dealers, t) && y == Mod(SeqSum(Keygen.ExpectedYs(P.s, dealers)), P.s.q)
    ensures PositiveIds(signers) && OneKey(signers, y) && Cong(y, Keygen.Joint(dealers, t + 1)[0], P.s.q)
  {
    forall i | 0 <= i < |signers| ensures signers[i].key.id >= 1 && signers[i].key.y == y {
      assert HoldsKey(P, dealers, t, signers[i]);
    }
    Keygen.PublicKeyIsJoint(P.s, dealers, t + 1);
    CongMod(Keygen.Joint(dealers, t + 1)[0], P.s.q);
  }

  lemma SessionValid(P: Params, signers: seq<Signer>, uuid: string)
    requires ValidParams(P)
    ensures ValidProtocol(Session(P, signers, uuid))
  {
    RoundNamesOk();
    RoundNamesDiffer();
  }

  lemma RoundNamesOk()
    ensures NamesOk(ROUNDS)
  {
  }

  lemma RoundNamesDiffer()
    ensures NamesDiffer(ROUNDS)
  {
  }

  // ---- every assertion holds ----

  lemma PassesIsChecks(P: Params, signers: seq<Signer>, uuid: string, p: nat, r: nat)
    requires ValidParams(P) && 1 <= p <= |signers| && r <= |ROUNDS| && r != 3
    ensures Passes(Session(P, signers, uuid), p, r) <==> Checks(P, signers[p - 1], p, SyncHist(Session(P, signers, uuid), p, r))
  {
    var pr := Session(P, signers, uuid);
    SessionChecks(P, signers, uuid, p, SyncHist(pr, p, r));
    forall to: nat | 1 <= to <= |signers| ensures pr.fits(p, to, SyncHist(pr, p, r)) {
      SessionSeals(P, signers, uuid, p, to, SyncHist(pr, p, r));
    }
  }

  lemma SessionChecks(P: Params, signers: seq<Signer>, uuid: string, p: nat, hist: seq<seq<Msg>>)
    requires ValidParams(P) && 1 <= p <= |signers|
    ensures Session(P, signers, uuid).checks(p, hist) <==> Checks(P, signers[p - 1], p, hist)
  {
  }

  lemma PassesCount(P: Params, signers: seq<Signer>, uuid: string, p: nat)
    requires ValidParams(P) && |signers| == P.t + 1 && 1 <= p <= |signers|
    ensures Passes(Session(P, signers, uuid), p, 1)
  {
    HistView(Session(P, signers, uuid), p, 1, 0);
  }

  lemma PassesKeys(P: Params, signers: seq<Signer>, uuid: string, p: nat)
    requires ValidParams(P) && PositiveIds(signers) && 1 <= p <= |signers|
    ensures Passes(Session(P, signers, uuid), p, 3)
  {
    var pr := Session(P, signers, uuid);
    var hist := SyncHist(pr, p, 3);
    SessionChecks(P, signers, uuid, p, hist);
    HistView(pr, p, 3, 1);
    SyncOpening(P, signers, uuid, p);
    forall to: nat | 1 <= to <= |signers| ensures pr.fits(p, to, hist) {
      PaddedKeyUsable(P.s, Keygen.Secret(signers[p - 1].eph), to, ExpectedRs(P, signers));
      SessionSeals(P, signers, uuid, p, to, hist);
    }
  }

  lemma SessionSeals(P: Params, signers: seq<Signer>, uuid: string, p: nat, to: nat, hist: seq<seq<Msg>>)
    requires ValidParams(P) && 1 <= p <= |signers|
    ensures Session(P, signers, uuid).fits(p, to, hist) <==> Seals(P, signers[p - 1], to, hist)
  {
  }

  lemma PaddedKeyUsable(s: Suite, u: int, to: nat, rs: seq<int>)
    requires ValidSuite(s) && s.padded
    ensures Keygen.KeyUsable(s, u, to, rs)
  {
    if 1 <= to <= |rs| {
      KeyLength(s, PairPoint(rs[to - 1], u, s.q));
    }
  }

  lemma {:induction false} SyncSchemes(P: Params, signers: seq<Signer>, uuid: string, p: nat)
    requires ValidParams(P)
    ensures EphSchemes(SyncView(Session(P, signers, uuid), p, 2)) == Commitments(Ephs(signers), P.s.q)
  {
  }

  lemma PassesShares(P: Params, signers: seq<Signer>, len: nat, uuid: string, p: nat)
    requires ValidParams(P) && PositiveIds(signers) && SameLength(Ephs(signers), len) && len >= 1 && 1 <= p <= |signers|
    ensures Passes(Session(P, signers, uuid), p, 4)
  {
    var pr := Session(P, signers, uuid);
    HistView(pr, p, 4, 0);
    HistView(pr, p, 4, 1);
    HistView(pr, p, 4, 2);
    HistView(pr, p, 4, 3);
    SyncOpening(P, signers, uuid, p);
    SyncSchemes(P, signers, uuid, p);
    HonestSharesOk(P, signers, len, uuid, p);
  }

  lemma {:induction false} HonestSharesOk(P: Params, signers: seq<Signer>, len: nat, uuid: string, p: nat)
    requires ValidParams(P) && PositiveIds(signers) && SameLength(Ephs(signers), len) && len >= 1 && 1 <= p <= |signers|
    ensures EphSharesOk(P.s, signers[p - 1].eph, p, Xs(signers)[p - 1], ExpectedRs(P, signers),
      EphPacks(SyncView(Session(P, signers, uuid), p, 3)), Commitments(Ephs(signers), P.s.q))
  {
    HonestPacksOpen(P, signers, uuid, p);
    var x, packs := Xs(signers)[p - 1], EphPacks(SyncView(Session(P, signers, uuid), p, 3));
    var shares := EphShares(P.s, signers[p - 1].eph, p, x, ExpectedRs(P, signers), packs);
    forall i | 0 <= i < |signers|
      ensures EphShareFits(Commitments(Ephs(signers), P.s.q)[i], ExpectedRs(P, signers)[i], x, shares[i], P.s.q)
    {
      SyncEphShares(P, signers, uuid, p, i);
      EphCommitmentFits(P, signers, len, i, x);
    }
  }

  lemma {:induction false} HonestPacksOpen(P: Params, signers: seq<Signer>, uuid: string, p: nat)
    requires ValidParams(P) && PositiveIds(signers) && 1 <= p <= |signers|
    ensures Keygen.PacksOpen(P.s, Keygen.Secret(signers[p - 1].eph), p, ExpectedRs(P, signers),
      EphPacks(SyncView(Session(P, signers, uuid), p, 3)))
  {
    var packs := EphPacks(SyncView(Session(P, signers, uuid), p, 3));
    forall i | 0 <= i < |signers| && i + 1 != p
      ensures Decrypt(Keygen.EncKeys(P.s, Keygen.Secret(signers[p - 1].eph), ExpectedRs(P, signers))[i], packs[i]).Some?
    {
      SyncPack(P, signers, uuid, p, i + 1);
      EphShareOpens(P, signers, p, i, packs[i]);
    }
  }

  lemma EphCommitmentFits(P: Params, signers: seq<Signer>, len: nat, i: nat, x: int)
    requires ValidParams(P) && SameLength(Ephs(signers), len) && len >= 1 && i < |signers|
    ensures EphShareFits(Commitments(Ephs(signers), P.s.q)[i], ExpectedRs(P, signers)[i], x, Share(signers[i].eph, x, P.s.q), P.s.q)
  {
    assert Ephs(signers)[i] == signers[i].eph;
    ShareMatchesCommitment(signers[i].eph, x, P.s.q);
  }

  lemma PassesSignature(P: Params, signers: seq<Signer>, dealers: seq<Keygen.Dealer>, t: nat, uuid: string, p: nat)
    requires Honest(P, signers, dealers, t) && 1 <= p <= |signers|
    ensures Passes(Session(P, signers, uuid), p, |ROUNDS|)
  {
    var pr, y := Session(P, signers, uuid), Mod(SeqSum(Keygen.ExpectedYs(P.s, dealers)), P.s.q);
    HonestFacts(P, signers, dealers, t);
    KeyFacts(P, signers, dealers, t, y);
    LastViews(P, signers, t, uuid, p, y);
    CheckViews(P, signers, t, uuid, p, y);
    AllLocalSigsOk(P, signers, dealers, t, y, p);
    SyncOutput(P, signers, t, uuid, p, y);
    CommonSignatureVerifies(P, signers, dealers, t, y);
    PassesIsChecks(P, signers, uuid, p, |ROUNDS|);
  }

  lemma {:induction false} LastViews(P: Params, signers: seq<Signer>, t: nat, uuid: string, p: nat, y: int)
    requires ValidParams(P) && PositiveIds(signers) && SameLength(Ephs(signers), t + 1) && OneKey(signers, y) && 1 <= p <= |signers|
    ensures var hist := SyncHist(Session(P, signers, uuid), p, |ROUNDS|);
      && PointsOf(View(hist, 0)) == Xs(signers) && Rs(View(hist, 1)) == ExpectedRs(P, signers)
      && LocalGammas(View(hist, 5)) == Gammas(P, signers, t + 1, y)
  {
    var pr, n := Session(P, signers, uuid), |ROUNDS|;
    HistView(pr, p, n, 0);
    HistView(pr, p, n, 1);
    HistView(pr, p, n, 5);
    SyncOpening(P, signers, uuid, p);
    SyncGammas(P, signers, t + 1, uuid, p, y);
  }

  lemma {:induction false} CheckViews(P: Params, signers: seq<Signer>, t: nat, uuid: string, p: nat, y: int)
    requires ValidParams(P) && PositiveIds(signers) && SameLength(Ephs(signers), t + 1) && OneKey(signers, y) && 1 <= p <= |signers|
    ensures var hist := SyncHist(Session(P, signers, uuid), p, |ROUNDS|);
      && EphSchemes(View(hist, 2)) == Commitments(Ephs(signers), P.s.q)
      && FirstChallenge(View(hist, 5)) == Mod(CommonChallenge(P, signers, y), P.s.q)
  {
    HistView(Session(P, signers, uuid), p, |ROUNDS|, 2);
    HistView(Session(P, signers, uuid), p, |ROUNDS|, 5);
    SyncSchemes(P, signers, uuid, p);
    SyncChallenge(P, signers, t + 1, uuid, p, y);
  }

  lemma {:induction false} SyncChallenge(P: Params, signers: seq<Signer>, len: nat, uuid: string, p: nat, y: int)
    requires ValidParams(P) && PositiveIds(signers) && SameLength(Ephs(signers), len) && OneKey(signers, y) && signers != []
    ensures FirstChallenge(SyncView(Session(P, signers, uuid), p, 5)) == Mod(CommonChallenge(P, signers, y), P.s.q)
  {
    ChallengeAt(P, signers, len, uuid, p, 0, y);
  }

  ghost predicate Carries(m: Msg, k: int) {
    m.LocalSig? && m.k == k
  }

  lemma {:induction false} ChallengeAt(P: Params, signers: seq<Signer>, len: nat, uuid: string, p: nat, i: nat, y: int)
    requires ValidParams(P) && PositiveIds(signers) && SameLength(Ephs(signers), len) && OneKey(signers, y) && i < |signers|
    ensures Carries(SyncView(Session(P, signers, uuid), p, 5)[i], Mod(CommonChallenge(P, signers, y), P.s.q))
  {
    SyncLocalSig(P, signers, len, uuid, i, y);
    LocalSigSent(P, signers, uuid, p, i);
  }

  lemma AllLocalSigsOk(P: Params, signers: seq<Signer>, dealers: seq<Keygen.Dealer>, t: nat, y: int, p: nat)
    requires Honest(P, signers, dealers, t) && SameLength(Ephs(signers), t + 1) && 1 <= p <= |signers|
    ensures LocalSigsOk(Commitments(Ephs(signers), P.s.q), signers[p - 1].key.schemes, t + 1,
      Mod(CommonChallenge(P, signers, y), P.s.q), Xs(signers), Gammas(P, signers, t + 1, y), P.s.q)
  {
    assert HoldsKey(P, dealers, t, signers[p - 1]);
    assert signers[p - 1].key.schemes == Commitments(Keygen.Polys(dealers), P.s.q);
    LocalSigsAccepted(P, signers, dealers, t, y, 0);
    forall i | 0 <= i < |signers|
      ensures LocalCheck(Commitments(Ephs(signers), P.s.q), signers[p - 1].key.schemes, t + 1,
        Mod(CommonChallenge(P, signers, y), P.s.q), Xs(signers)[i], P.s.q) == Mod(Gammas(P, signers, t + 1, y)[i], P.s.q)
    {
      LocalSigsAccepted(P, signers, dealers, t, y, i);
    }
  }

  /** No honest signer ever fails an assertion. */
  lemma AlwaysSound(P: Params, signers: seq<Signer>, dealers: seq<Keygen.Dealer>, t: nat, uuid: string)
    requires Honest(P, signers, dealers, t)
    ensures Sound(Session(P, signers, uuid))
  {
    var pr, y := Session(P, signers, uuid), Mod(SeqSum(Keygen.ExpectedYs(P.s, dealers)), P.s.q);
    HonestFacts(P, signers, dealers, t);
    KeyFacts(P, signers, dealers, t, y);
    forall p, r | 1 <= p <= pr.n && 0 <= r <= |ROUNDS| ensures Passes(pr, p, r) {
      match r
      case 1 => PassesCount(P, signers, uuid, p);
      case 3 => PassesKeys(P, signers, uuid, p);
      case 4 => PassesShares(P, signers, t + 1, uuid, p);
      case 6 => PassesSignature(P, signers, dealers, t, uuid, p);
      case _ => PassesIsChecks(P, signers, uuid, p, r);
    }
  }

  /** In no run does an honest signer panic. */
  lemma {:induction false} NeverPanics(P: Params, signers: seq<Signer>, dealers: seq<Keygen.Dealer>, t: nat, uuid: string,
      store: map<string, Msg>, events: seq<Event<Msg>>, p: nat)
    requires Honest(P, signers, dealers, t) && FreshSession(Session(P, signers, uuid), store) && 1 <= p <= |signers|
    ensures var st := Run(Session(P, signers, uuid), store, events);
      |st.parties| == |signers| && !Halted(Session(P, signers, uuid), st, p)
  {
    SessionValid(P, signers, uuid);
    AlwaysSound(P, signers, dealers, t, uuid);
    NobodyHalts(Session(P, signers, uuid), store, events, p);
  }

  /** With all rounds behind it, signer i holds the run's one signature. */
  ghost predicate Signed(P: Params, signers: seq<Signer>, st: System<Msg>, sig: Signature, i: nat)
    requires ValidParams(P) && i < |signers| == |st.parties|
  {
    |st.parties[i].done| == |ROUNDS| ==> Output(P, signers[i], st.parties[i].done) == sig
  }

  /** EdDSA end to end. For any t + 1 of the parties of a key generation, every path tweak or none,
      every message, every interleaving and any expiry: a signer that finishes outputs the run's one
      signature, which satisfies the equation of section 5.1.7 of RFC 8032 under the key of the path,
      hashed with that key; and so does the library's own check. */
  lemma {:induction false} SignatureVerifies(P: Params, signers: seq<Signer>, dealers: seq<Keygen.Dealer>, t: nat, uuid: string, y: int,
      store: map<string, Msg>, events: seq<Event<Msg>>, i: nat)
    requires Honest(P, signers, dealers, t) && FreshSession(Session(P, signers, uuid), store) && i < |signers|
    requires y == Mod(SeqSum(Keygen.ExpectedYs(P.s, dealers)), P.s.q)
    ensures SameLength(Ephs(signers), t + 1)
    ensures var st := Run(Session(P, signers, uuid), store, events);
      |st.parties| == |signers| && Signed(P, signers, st, CommonSignature(P, signers, t, y), i)
    ensures var sig := CommonSignature(P, signers, t, y);
      var k := P.hash(sig.R, PublicKey(P, y), P.message);
      Verifies(sig, PublicKey(P, y), k, P.s.q) && LibraryVerifies(sig, PublicKey(P, y), k, P.s.q)
  {
    SessionValid(P, signers, uuid);
    RunsRefineSync(Session(P, signers, uuid), store, events, i + 1);
    HonestFacts(P, signers, dealers, t);
    KeyFacts(P, signers, dealers, t, y);
    SyncOutput(P, signers, t, uuid, i + 1, y);
    CommonSignatureVerifies(P, signers, dealers, t, y);
  }
}
