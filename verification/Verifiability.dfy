/** What the assertions rule out, whatever the other parties send. Here a history is any vectors of
    messages, not those of an honest run. */
module Verifiability {
  import opened Wrappers
  import opened Modular
  import opened Sums
  import opened Shamir
  import opened PairwiseKeys
  import opened Reassembly
  import opened RoundExchange
  import opened ShareConversion
  import Keygen
  import EcdsaSigner
  import EcdsaVerification
  import EddsaSigner

  // ---- shares held against commitments ----

  /** Shares that each fit their dealer's commitments add up to what the added commitments say. */
  lemma SumOfChecked(schemes: seq<seq<int>>, shares: seq<int>, len: nat, x: int, q: int)
    requires q > 0 && schemes != [] && |shares| == |schemes| && SameLength(schemes, len)
    requires forall i :: 0 <= i < |schemes| ==> shares[i] == PointCommitment(schemes[i], x, q)
    ensures Mod(SeqSum(shares), q) == PointCommitment(SumCommitments(schemes, len, q), x, q)
  {
    forall i | 0 <= i < |schemes| ensures Cong(shares[i], Evals(schemes, x)[i], q) {
      CongMod(Eval(schemes[i], x), q);
    }
    SeqSumCong(shares, Evals(schemes, x), q);
    SumIsCommitted(schemes, len, x, q);
    CongIsModEq(SeqSum(shares), SeqSum(Evals(schemes, x)), q);
  }

  lemma SumIsCommitted(schemes: seq<seq<int>>, len: nat, x: int, q: int)
    requires q > 0 && schemes != [] && SameLength(schemes, len)
    ensures Mod(SeqSum(Evals(schemes, x)), q) == PointCommitment(SumCommitments(schemes, len, q), x, q)
  {
    forall j, k | 0 <= j < |schemes| && 0 <= k < len ensures Cong(schemes[j][k], schemes[j][k], q) {
      CongRefl(schemes[j][k], q);
    }
    CommitmentsCommitSum(schemes, schemes, len, q);
    EvalCong(SumCommitments(schemes, len, q), SumPoly(schemes, len), x, q);
    EvalSum(schemes, len, x);
    CongIsModEq(Eval(SumCommitments(schemes, len, q), x), Eval(SumPoly(schemes, len), x), q);
  }

  /** And the first of the added commitments is the sum of the first ones. */
  lemma FirstOfSum(schemes: seq<seq<int>>, ys: seq<int>, len: nat, q: int)
    requires q > 0 && schemes != [] && |ys| == |schemes| && SameLength(schemes, len) && len >= 1
    requires forall i :: 0 <= i < |schemes| ==> schemes[i][0] == ys[i]
    ensures Mod(SumCommitments(schemes, len, q)[0], q) == Mod(SeqSum(ys), q)
  {
    forall i | 0 <= i < |schemes| ensures Evals(schemes, 0)[i] == ys[i] {
    }
    assert Evals(schemes, 0) == ys;
    SumIsCommitted(schemes, len, 0, q);
  }

  // ---- key generation ----

  /** A dealer gets past round 2 exactly when every point shown is the one committed to. */
  lemma OpeningsChecked(s: Suite, d: Keygen.Dealer, p: nat, hist: seq<seq<Keygen.Msg>>)
    requires s.q > 0 && |hist| == 4 && |hist[2]| == |hist[3]|
    requires forall i :: 0 <= i < |hist[2]| ==> hist[2][i].Commitment? && hist[3][i].Opening?
    ensures Keygen.Checks(s, d, p, hist) <==> forall i :: 0 <= i < |hist[2]| ==> hist[2][i].com == hist[3][i].y
  {
    var coms, ys := Keygen.Coms(hist[2]), Keygen.Ys(hist[3]);
    assert coms == ys <==> forall i :: 0 <= i < |coms| ==> coms[i] == ys[i];
    forall i | 0 <= i < |hist[2]| ensures coms[i] == hist[2][i].com && ys[i] == hist[3][i].y {
    }
  }

  /** It gets past round 3 exactly when every other party's pack is sealed under the key shared with
      that party, and that key has 32 bytes. */
  lemma PacksChecked(s: Suite, d: Keygen.Dealer, p: nat, hist: seq<seq<Keygen.Msg>>)
    requires s.q > 0 && |hist| == 5 && |hist[3]| == |hist[4]|
    requires forall i :: 0 <= i < |hist[3]| ==> hist[3][i].Opening? && hist[4][i].Encrypted?
    ensures Keygen.Checks(s, d, p, hist) <==> forall i :: 0 <= i < |hist[3]| && i + 1 != p ==>
      var key := KeyBytes(s, Mod(hist[3][i].y * Keygen.Secret(d.poly), s.q));
      |key| == 32 && hist[4][i].pack.Some? && hist[4][i].pack.value.key == key
  {
    var ys, packs := Keygen.Ys(hist[3]), Keygen.Packs(hist[4]);
    forall i | 0 <= i < |hist[3]|
      ensures ys[i] == hist[3][i].y && packs[i] == hist[4][i].pack
      ensures Keygen.EncKeys(s, Keygen.Secret(d.poly), ys)[i] == KeyBytes(s, Mod(hist[3][i].y * Keygen.Secret(d.poly), s.q))
    {
    }
  }

  /** Whoever gets past the share check holds a key share that fits the added commitments, and these
      commit to the public key it will save: whatever the dealers sent, its share is one of that key. */
  lemma CheckedKeyShare(s: Suite, d: Keygen.Dealer, p: nat, hist: seq<seq<Keygen.Msg>>, len: nat)
    requires s.q > 0 && |hist| == 6 && hist[5] != [] && len >= 1 && SameLength(Keygen.Schemes(hist[5]), len)
    requires Keygen.Checks(s, d, p, hist)
    ensures var all := SumCommitments(Keygen.Schemes(hist[5]), len, s.q);
      && PointCommitment(all, p, s.q) == Keygen.KeyShare(s, d.poly, p, hist)
      && Mod(all[0], s.q) == Mod(SeqSum(Keygen.Ys(hist[3])), s.q)
  {
    var ys, packs, schemes := Keygen.Ys(hist[3]), Keygen.Packs(hist[4]), Keygen.Schemes(hist[5]);
    assert Keygen.SharesFit(s, d.poly, p, ys, packs, schemes);
    SumOfChecked(schemes, Keygen.PartyShares(s, d.poly, p, ys, packs), len, p, s.q);
    FirstOfSum(schemes, ys, len, s.q);
  }

  // ---- EdDSA ----

  /** A signer gets past round 0 exactly when it counted t + 1 signers, itself among them. */
  lemma CountChecked(P: EddsaSigner.Params, me: EddsaSigner.Signer, p: nat, hist: seq<seq<EddsaSigner.Msg>>)
    requires EddsaSigner.ValidParams(P) && |hist| == 1
    ensures EddsaSigner.Checks(P, me, p, hist) <==> |hist[0]| == P.t + 1 && 1 <= p <= P.t + 1
  {
  }

  /** The same of the share of the nonce. */
  lemma CheckedNonceShare(P: EddsaSigner.Params, me: EddsaSigner.Signer, p: nat, hist: seq<seq<EddsaSigner.Msg>>, len: nat)
    requires EddsaSigner.ValidParams(P) && |hist| == 4 && hist[2] != [] && len >= 1
    requires SameLength(EddsaSigner.EphSchemes(hist[2]), len) && EddsaSigner.Checks(P, me, p, hist)
    ensures var all := SumCommitments(EddsaSigner.EphSchemes(hist[2]), len, P.s.q);
      && PointCommitment(all, EddsaSigner.PointAt(EddsaSigner.PointsOf(hist[0]), p), P.s.q) == EddsaSigner.OwnEphShare(P, me, p, hist)
      && Mod(all[0], P.s.q) == EddsaSigner.NonceSum(P, hist)
  {
    var point, rs := EddsaSigner.PointAt(EddsaSigner.PointsOf(hist[0]), p), EddsaSigner.Rs(hist[1]);
    var packs, schemes := EddsaSigner.EphPacks(hist[3]), EddsaSigner.EphSchemes(hist[2]);
    assert EddsaSigner.EphSharesOk(P.s, me.eph, p, point, rs, packs, schemes);
    SumOfChecked(schemes, EddsaSigner.EphShares(P.s, me.eph, p, point, rs, packs), len, point, P.s.q);
    FirstOfSum(schemes, rs, len, P.s.q);
  }

  /** Local signatures that pass the check, whoever made them, interpolate to the signature that the
      commitments commit to: the nonce plus the challenge times the key. */
  lemma CheckedLocalSigs(ephs: seq<seq<int>>, keys: seq<seq<int>>, len: nat, k: int, points: seq<int>, gammas: seq<int>, t: nat, q: int)
    requires IsPrime(q) && 1 <= len <= t + 1 <= |points| == |gammas| && Points(points[..t + 1], q)
    requires EddsaSigner.LocalSigsOk(ephs, keys, len, k, points, gammas, q)
    ensures Cong(EddsaSigner.Sigma(points, gammas, t, q),
      SumCommitments(ephs, len, q)[0] + k * SumCommitments(keys, len, q)[0], q)
  {
    var e, c := SumCommitments(ephs, len, q), SumCommitments(keys, len, q);
    var all: Poly := seq(len, i requires 0 <= i < len => Mod(e[i] + Mod(k * c[i], q), q));
    var xs, gs := points[..t + 1], gammas[..t + 1];
    forall i | 0 <= i < |xs| ensures Cong(gs[i], Eval(all, xs[i]), q) {
      assert EddsaSigner.LocalCheck(ephs, keys, len, k, points[i], q) == Mod(gammas[i], q);
      CongIsModEq(gs[i], Eval(all, xs[i]), q);
    }
    SharesReconstruct(xs, gs, all, q);
    CombinedFirst(e[0], c[0], k, q);
    CongMod(Reconstruct(xs, xs, gs, q), q);
    CongTrans(Mod(Reconstruct(xs, xs, gs, q), q), Reconstruct(xs, xs, gs, q), all[0], q);
    CongTrans(Mod(Reconstruct(xs, xs, gs, q), q), all[0], e[0] + k * c[0], q);
  }

  lemma CombinedFirst(e: int, c: int, k: int, q: int)
    requires q > 0
    ensures Cong(Mod(e + Mod(k * c, q), q), e + k * c, q)
  {
    CongMod(k * c, q);
    CongRefl(e, q);
    CongAdd(e, e, Mod(k * c, q), k * c, q);
    CongMod(e + Mod(k * c, q), q);
    CongTrans(Mod(e + Mod(k * c, q), q), e + Mod(k * c, q), e + k * c, q);
  }

  /** Whoever gets through the last assertions has checked every local signature and holds a signature
      that the library accepts, whatever the others sent. */
  lemma CheckedSignature(P: EddsaSigner.Params, me: EddsaSigner.Signer, p: nat, hist: seq<seq<EddsaSigner.Msg>>)
    requires EddsaSigner.ValidParams(P) && |hist| == 6 && EddsaSigner.Checks(P, me, p, hist)
    ensures EddsaSigner.LocalSigsOk(EddsaSigner.EphSchemes(hist[2]), me.key.schemes, P.t + 1, EddsaSigner.FirstChallenge(hist[5]),
      EddsaSigner.PointsOf(hist[0]), EddsaSigner.LocalGammas(hist[5]), P.s.q)
    ensures var sig, y := EddsaSigner.Output(P, me, hist), EddsaSigner.PublicKey(P, me.key.y);
      EddsaSigner.LibraryVerifies(sig, y, P.hash(sig.R, y, P.message), P.s.q)
  {
  }

  // ---- ECDSA ----

  /** Signers get past round 0 exactly when their party numbers are distinct, lie below the order, and
      have commitments and a Paillier key on file, and the files can be adjusted if there is a path. */
  lemma NumbersChecked(P: EcdsaSigner.Params, me: EcdsaSigner.Signer, p: nat, hist: seq<seq<EcdsaSigner.Msg>>)
    requires P.s.q > 0 && |hist| == 1 && 1 <= p <= |hist[0]| && forall i :: 0 <= i < |hist[0]| ==> hist[0][i].SignerId?
    ensures EcdsaSigner.Checks(P, me, p, hist) <==>
      && (forall i, j :: 0 <= i < j < |hist[0]| ==> hist[0][i].id != hist[0][j].id)
      && (forall i :: 0 <= i < |hist[0]| ==>
            0 < hist[0][i].id < P.s.q && hist[0][i].id <= |me.key.schemes| && hist[0][i].id <= |me.key.eks|)
      && (P.atPath ==> |me.key.schemes| >= 2 && |me.key.schemes[0]| >= 1 && |me.key.schemes[1]| <= |me.key.schemes[0]|)
  {
    var points := EcdsaSigner.PointsOf(hist[0]);
    forall i | 0 <= i < |hist[0]| ensures points[i] == hist[0][i].id {
    }
    if Points(points, P.s.q) {
      forall i, j | 0 <= i < j < |hist[0]| ensures hist[0][i].id != hist[0][j].id {
        assert points[i] != points[j];
      }
    }
  }

  /** A signer gets past round 2 exactly when every other's two answers open under its own Paillier key,
      and the second is about the point it recomputes from the commitments. */
  lemma AnswersChecked(P: EcdsaSigner.Params, me: EcdsaSigner.Signer, p: nat, hist: seq<seq<EcdsaSigner.Msg>>)
    requires P.s.q > 0 && |hist| == 3 && |hist[0]| == |hist[2]|
    requires forall i :: 0 <= i < |hist[2]| ==> hist[2][i].Mta?
    ensures EcdsaSigner.Checks(P, me, p, hist) <==> forall i :: 0 <= i < |hist[2]| && i + 1 != p ==>
      && hist[2][i].gamma.c.key == me.key.ek && hist[2][i].w.c.key == me.key.ek
      && EcdsaSigner.KeyPoint(P, me, EcdsaSigner.PointsOf(hist[0]), i) == Some(hist[2][i].w.pk)
  {
    forall i | 0 <= i < |hist[2]|
      ensures EcdsaSigner.GammaAnswers(hist[2])[i] == hist[2][i].gamma && EcdsaSigner.WAnswers(hist[2])[i] == hist[2][i].w
    {
    }
  }

  /** It gets past round 4 exactly when for every other signer the point shown is the one committed to
      in round 1 and the one its answer was about. */
  lemma NonceOpeningsChecked(P: EcdsaSigner.Params, me: EcdsaSigner.Signer, p: nat, hist: seq<seq<EcdsaSigner.Msg>>)
    requires P.s.q > 0 && |hist| == 5 && 1 <= p <= |hist[4]| == |hist[2]| == |hist[1]|
    requires forall i :: 0 <= i < |hist[4]| ==> hist[1][i].Phase1? && hist[2][i].Mta? && hist[4][i].Decommit?
    ensures EcdsaSigner.Checks(P, me, p, hist) <==> forall i :: 0 <= i < |hist[4]| && i + 1 != p ==>
      hist[2][i].gamma.pk == hist[4][i].gGamma && hist[1][i].com == hist[4][i].gGamma
  {
    var answers, shown, coms := EcdsaSigner.GammaAnswers(hist[2]), EcdsaSigner.Gammas(hist[4]), EcdsaSigner.Coms(hist[1]);
    forall i | 0 <= i < |hist[4]|
      ensures answers[i] == hist[2][i].gamma && shown[i] == hist[4][i].gGamma && coms[i] == hist[1][i].com
    {
    }
    OthersAgreeIff(answers, shown, coms, p);
  }

  lemma OthersAgreeIff(answers: seq<MessageB>, shown: seq<int>, coms: seq<int>, p: nat)
    requires 1 <= p <= |shown| == |answers| == |coms|
    ensures EcdsaSigner.OpeningsOk(EcdsaSigner.Others(answers, p), EcdsaSigner.Others(shown, p), EcdsaSigner.Others(coms, p))
      <==> forall i :: 0 <= i < |shown| && i + 1 != p ==> answers[i].pk == shown[i] && coms[i] == shown[i]
  {
    if EcdsaSigner.OpeningsOk(EcdsaSigner.Others(answers, p), EcdsaSigner.Others(shown, p), EcdsaSigner.Others(coms, p)) {
      forall i: nat | i < |shown| && i + 1 != p ensures answers[i].pk == shown[i] && coms[i] == shown[i] {
        OtherAt(answers, p, i);
        OtherAt(shown, p, i);
        OtherAt(coms, p, i);
      }
    }
    if forall i :: 0 <= i < |shown| && i + 1 != p ==> answers[i].pk == shown[i] && coms[i] == shown[i] {
      forall j: nat | j < |shown| - 1
        ensures EcdsaSigner.Others(answers, p)[j].pk == EcdsaSigner.Others(shown, p)[j] == EcdsaSigner.Others(coms, p)[j]
      {
        var i := if j < p - 1 then j else j + 1;
        OtherAt(answers, p, i);
        OtherAt(shown, p, i);
        OtherAt(coms, p, i);
      }
    }
  }

  lemma OtherAt<T>(v: seq<T>, p: nat, i: nat)
    requires 1 <= p <= |v| && i < |v| && i + 1 != p
    ensures |EcdsaSigner.Others(v, p)| == |v| - 1
    ensures SkipOwn(p, i + 1) < |v| - 1 && EcdsaSigner.Others(v, p)[SkipOwn(p, i + 1)] == v[i]
  {
    RemoveAtSkips(v, p, i + 1);
  }

  /** Whoever gets through the last assertion holds a signature that some nonce could have made, whatever
      the others sent; and one that passes SEC 1 unless its r is zero. */
  lemma CheckedOutput(P: EcdsaSigner.Params, me: EcdsaSigner.Signer, p: nat, hist: seq<seq<EcdsaSigner.Msg>>)
    requires IsPrime(P.s.q) && |hist| == |EcdsaSigner.ROUNDS| && EcdsaSigner.Checks(P, me, p, hist)
    ensures var sig := EcdsaSigner.Output(P, me, p, hist);
      && (exists e :: EcdsaVerification.SignsFrom(P.s, sig, P.y, EcdsaSigner.MessageScalar(P), e))
      && (EcdsaSigner.Verifies(P.s, sig, P.y, EcdsaSigner.MessageScalar(P)) <==> sig.r != 0)
  {
    EcdsaVerification.LastCheck(P, me, p, hist);
    EcdsaVerification.EquationIff(P.s, EcdsaSigner.Output(P, me, p, hist), P.y, EcdsaSigner.MessageScalar(P));
  }
}
