/** Honest ECDSA signing runs: the pieces fit, and the signature verifies. */
module EcdsaRuns {
  import opened Wrappers
  import opened Modular
  import opened Sums
  import opened Shamir
  import opened PairwiseKeys
  import opened Reassembly
  import opened RoundExchange
  import opened ShareConversion
  import opened EcdsaSigner
  import Keygen

  /** Signers hold key files of one key generation, under distinct numbers, and are enough. */
  ghost predicate Honest(P: Params, signers: seq<Signer>, dealers: seq<Keygen.Dealer>, len: nat) {
    && Keygen.HonestDealers(P.s, dealers, len) && SameLength(Keygen.Polys(dealers), len)
    && |dealers| < P.s.q && len <= |signers|
    && (forall i {:trigger HoldsKey(P, dealers, len, signers[i])} :: 0 <= i < |signers| ==> HoldsKey(P, dealers, len, signers[i]))
    && (forall i, j {:trigger Differ(signers[i], signers[j])} :: 0 <= i < j < |signers| ==> Differ(signers[i], signers[j]))
  }

  /** A path needs a second scheme on file to look at. */
  predicate PathAllowed(P: Params, dealers: seq<Keygen.Dealer>) {
    P.atPath ==> |dealers| >= 2
  }

  /** The signer's key file is the one key generation leaves under its number. */
  ghost predicate HoldsKey(P: Params, dealers: seq<Keygen.Dealer>, len: nat, signer: Signer)
    requires P.s.q > 0 && SameLength(Keygen.Polys(dealers), len)
  {
    1 <= signer.key.id <= |dealers| && signer.key == Keygen.Expected(P.s, dealers, len, signer.key.id)
  }

  predicate Differ(a: Signer, b: Signer) {
    a.key.id != b.key.id
  }

  /** The signers' points, in the order of their numbers in the room. */
  function Xs(signers: seq<Signer>): (xs: seq<int>) {
    seq(|signers|, i requires 0 <= i < |signers| => signers[i].key.id)
  }

  /** The dealers' polynomials with the path's tweak on the first. */
  function TweakedPolys(P: Params, dealers: seq<Keygen.Dealer>): (fs: seq<Poly>)
    requires dealers != [] && dealers[0].poly != []
  {
    var fs := Keygen.Polys(dealers);
    if P.atPath then fs[0 := Shifted(fs[0], P.f)] else fs
  }

  lemma TweakedLength(P: Params, signers: seq<Signer>, dealers: seq<Keygen.Dealer>, len: nat)
    requires Honest(P, signers, dealers, len)
    ensures dealers != [] && dealers[0].poly != [] && SameLength(TweakedPolys(P, dealers), len)
  {
    assert HoldsKey(P, dealers, len, signers[0]);
    assert Keygen.Polys(dealers)[0] == dealers[0].poly;
  }

  /** The polynomial whose value at zero is the key that signs. */
  ghost function Signing(P: Params, signers: seq<Signer>, dealers: seq<Keygen.Dealer>, len: nat): (f: Poly)
    requires Honest(P, signers, dealers, len)
    ensures |f| == len
  {
    TweakedLength(P, signers, dealers, len);
    SumPoly(TweakedPolys(P, dealers), len)
  }

  function Tweak(P: Params): int {
    if P.atPath then P.f else 0
  }

  lemma {:induction false} SigningEval(P: Params, signers: seq<Signer>, dealers: seq<Keygen.Dealer>, len: nat, x: int)
    requires Honest(P, signers, dealers, len)
    ensures Eval(Signing(P, signers, dealers, len), x) == Eval(Keygen.Joint(dealers, len), x) + Tweak(P)
  {
    TweakedLength(P, signers, dealers, len);
    if P.atPath {
      EvalSumShifted(Keygen.Polys(dealers), len, P.f, x);
    }
  }

  lemma PointsDistinct(P: Params, signers: seq<Signer>, dealers: seq<Keygen.Dealer>, len: nat)
    requires Honest(P, signers, dealers, len)
    ensures Points(Xs(signers), P.s.q)
  {
    var xs := Xs(signers);
    forall i | 0 <= i < |xs| ensures 0 < xs[i] < P.s.q {
      assert HoldsKey(P, dealers, len, signers[i]);
    }
    forall i, j | 0 <= i < j < |xs| ensures xs[i] != xs[j] {
      assert Differ(signers[i], signers[j]);
    }
  }

  /** Everybody's adjusted share is the signing polynomial's value at its point. */
  lemma SharesOnSigning(P: Params, signers: seq<Signer>, dealers: seq<Keygen.Dealer>, len: nat, i: nat)
    requires Honest(P, signers, dealers, len) && i < |signers|
    ensures Cong(ShareX(P, signers[i]), Eval(Signing(P, signers, dealers, len), signers[i].key.id), P.s.q)
  {
    assert HoldsKey(P, dealers, len, signers[i]);
    var q, x := P.s.q, signers[i].key.id;
    SigningEval(P, signers, dealers, len, x);
    var e := Eval(Keygen.Joint(dealers, len), x);
    CongMod(e, q);
    assert signers[i].key.x == Mod(e, q);
    if P.atPath {
      CongRefl(P.f, q);
      CongAdd(Mod(e, q), e, P.f, P.f, q);
      CongMod(Mod(e, q) + P.f, q);
      CongTrans(ShareX(P, signers[i]), Mod(e, q) + P.f, e + P.f, q);
    }
  }

  function ShareXs(P: Params, signers: seq<Signer>): (v: seq<int>)
    requires P.s.q > 0
  {
    seq(|signers|, i requires 0 <= i < |signers| => ShareX(P, signers[i]))
  }

  /** All additive keys. */
  ghost function Ws(P: Params, signers: seq<Signer>): (v: seq<int>)
    requires P.s.q > 0
  {
    seq(|signers|, i requires 0 <= i < |signers| => SignW(P, signers[i], i + 1, Xs(signers)))
  }

  lemma WIsWeighted(P: Params, signers: seq<Signer>, dealers: seq<Keygen.Dealer>, len: nat, i: nat)
    requires Honest(P, signers, dealers, len) && i < |signers|
    ensures Points(Xs(signers), P.s.q)
    ensures Cong(Ws(P, signers)[i], Coef(Xs(signers), Xs(signers)[i], P.s.q) * ShareX(P, signers[i]), P.s.q)
  {
    PointsDistinct(P, signers, dealers, len);
    var q, c, x := P.s.q, Coef(Xs(signers), Xs(signers)[i], P.s.q), ShareX(P, signers[i]);
    CongMod(c, q);
    CongRefl(x, q);
    CongMul(Mod(c, q), c, x, x, q);
    CongMod(Mod(c, q) * x, q);
    CongTrans(Mod(Mod(c, q) * x, q), Mod(c, q) * x, c * x, q);
  }

  /** The adjustment preserves the sharing: the additive keys of any signer set add up to the
      private key plus the tweak. */
  lemma AdditiveKeysSum(P: Params, signers: seq<Signer>, dealers: seq<Keygen.Dealer>, len: nat)
    requires Honest(P, signers, dealers, len)
    ensures Cong(SeqSum(Ws(P, signers)), Signing(P, signers, dealers, len)[0], P.s.q)
    ensures Cong(SeqSum(Ws(P, signers)), Keygen.Joint(dealers, len)[0] + Tweak(P), P.s.q)
  {
    var q, xs, f, values := P.s.q, Xs(signers), Signing(P, signers, dealers, len), ShareXs(P, signers);
    PointsDistinct(P, signers, dealers, len);
    forall i | 0 <= i < |xs|
      ensures Cong(Ws(P, signers)[i], Coef(xs, xs[i], q) * values[i], q) && Cong(values[i], Eval(f, xs[i]), q)
    {
      WIsWeighted(P, signers, dealers, len, i);
      SharesOnSigning(P, signers, dealers, len, i);
    }
    WeightedSharesSum(xs, xs, values, Ws(P, signers), q);
    SharesReconstruct(xs, values, f, q);
    CongTrans(SeqSum(Ws(P, signers)), Reconstruct(xs, xs, values, q), f[0], q);
    SigningEval(P, signers, dealers, len, 0);
    assert Eval(f, 0) == f[0] && Eval(Keygen.Joint(dealers, len), 0) == Keygen.Joint(dealers, len)[0];
  }

  /** The files of a key generation can be adjusted exactly when it had a second party. */
  lemma CanAdjustIff(s: Suite, dealers: seq<Keygen.Dealer>, len: nat)
    requires Keygen.HonestDealers(s, dealers, len)
    ensures CanAdjust(Keygen.ExpectedSchemes(s, dealers)) <==> |dealers| >= 2
  {
  }

  lemma LocalSchemesCommit(P: Params, signers: seq<Signer>, dealers: seq<Keygen.Dealer>, len: nat, p: nat)
    requires Honest(P, signers, dealers, len) && PathAllowed(P, dealers) && p < |signers|
    ensures P.atPath ==> CanAdjust(signers[p].key.schemes)
    ensures var cs := LocalSchemes(P, signers[p].key.schemes);
      && |cs| == |dealers| && cs != [] && SameLength(cs, len)
      && dealers[0].poly != []
      && forall j, k :: 0 <= j < |cs| && 0 <= k < len ==> Cong(cs[j][k], TweakedPolys(P, dealers)[j][k], P.s.q)
  {
    var q := P.s.q;
    TweakedLength(P, signers, dealers, len);
    CanAdjustIff(P.s, dealers, len);
    var base, fs := Keygen.ExpectedSchemes(P.s, dealers), Keygen.Polys(dealers);
    assert HoldsKey(P, dealers, len, signers[p]);
    assert signers[p].key.schemes == base;
    assert forall j :: 0 <= j < |dealers| ==> fs[j] == dealers[j].poly && base[j] == Commit(fs[j], q) && |base[j]| == len;
    var cs := LocalSchemes(P, base);
    forall j, k | 0 <= j < |cs| && 0 <= k < len ensures Cong(cs[j][k], TweakedPolys(P, dealers)[j][k], q) {
      CongMod(fs[j][k], q);
      if P.atPath && j == 0 && k == 0 {
        CongRefl(P.f, q);
        CongAdd(Mod(fs[0][0], q), fs[0][0], P.f, P.f, q);
        CongMod(Mod(fs[0][0], q) + P.f, q);
        CongTrans(Mod(Mod(fs[0][0], q) + P.f, q), Mod(fs[0][0], q) + P.f, fs[0][0] + P.f, q);
      }
    }
  }

  /** The assertion on every answer never fails: G times signer i's additive key is the point
      recomputed from the adjusted commitments. */
  lemma CommitmentCheckPasses(P: Params, signers: seq<Signer>, dealers: seq<Keygen.Dealer>, len: nat, p: nat, i: nat)
    requires Honest(P, signers, dealers, len) && PathAllowed(P, dealers) && p < |signers| && i < |signers|
    ensures KeyPoint(P, signers[p], Xs(signers), i) == Some(Mod(Ws(P, signers)[i], P.s.q))
  {
    var q, x := P.s.q, Xs(signers)[i];
    PointsDistinct(P, signers, dealers, len);
    LocalSchemesCommit(P, signers, dealers, len, p);
    TweakedLength(P, signers, dealers, len);
    var cs, f := LocalSchemes(P, signers[p].key.schemes), Signing(P, signers, dealers, len);
    CommitmentsCommitSum(cs, TweakedPolys(P, dealers), len, q);
    var all := SumCommitments(cs, len, q);
    EvalCong(all, f, x, q);
    SharesOnSigning(P, signers, dealers, len, i);
    WIsWeighted(P, signers, dealers, len, i);
    CheckArithmetic(Eval(all, x), Eval(f, x), ShareX(P, signers[i]), Coef(Xs(signers), x, q), Ws(P, signers)[i], q);
  }

  lemma CheckArithmetic(a: int, e: int, v: int, c: int, w: int, q: int)
    requires q > 0 && Cong(a, e, q) && Cong(v, e, q) && Cong(w, c * v, q)
    ensures Mod(Mod(a, q) * Mod(c, q), q) == Mod(w, q)
  {
    CongMod(a, q);
    CongMod(c, q);
    CongTrans(Mod(a, q), a, e, q);
    CongMul(Mod(a, q), e, Mod(c, q), c, q);
    CongRefl(c, q);
    CongMul(v, e, c, c, q);
    assert v * c == c * v;
    CongTrans(w, c * v, e * c, q);
    CongSym(w, e * c, q);
    CongTrans(Mod(a, q) * Mod(c, q), e * c, w, q);
    CongIsModEq(Mod(a, q) * Mod(c, q), w, q);
  }

  // ---- the vectors of a lock-step run ----

  lemma {:induction false} SyncOpening(P: Params, signers: seq<Signer>, uuid: string, p: nat)
    requires P.s.q > 0
    ensures var pr := Session(P, signers, uuid);
      && PointsOf(SyncView(pr, p, 0)) == Xs(signers)
      && MessagesA(SyncView(pr, p, 1)) == seq(|signers|, i requires 0 <= i < |signers| => Cipher(signers[i].key.ek, signers[i].k))
  {
  }

  /** Every signer has every other's Paillier key on file, under the number it had at key generation. */
  ghost predicate EksOnFile(signers: seq<Signer>) {
    forall i, p :: 0 <= i < |signers| && 0 <= p < |signers| ==> EkAt(signers[i], signers[p].key.id) == signers[p].key.ek
  }

  lemma HonestEks(P: Params, signers: seq<Signer>, dealers: seq<Keygen.Dealer>, len: nat)
    requires Honest(P, signers, dealers, len)
    ensures EksOnFile(signers)
  {
    forall i, p | 0 <= i < |signers| && 0 <= p < |signers|
      ensures EkAt(signers[i], signers[p].key.id) == signers[p].key.ek
    {
      assert HoldsKey(P, dealers, len, signers[i]) && HoldsKey(P, dealers, len, signers[p]);
    }
  }

  /** The routed answer: i's factors, under p's Paillier key, on p's own ciphertext. */
  ghost function Routed(P: Params, signers: seq<Signer>, p: nat, i: nat): Msg
    requires P.s.q > 0 && 1 <= p <= |signers| && 1 <= i <= |signers|
  {
    var me, them := signers[p - 1], signers[i - 1];
    Mta(MessageB(Cipher(me.key.ek, Masked(me.k, them.gamma, them.gammaTag(p))), Mod(them.gamma, P.s.q)),
        MessageB(Cipher(me.key.ek, Masked(me.k, Ws(P, signers)[i - 1], them.wTag(p))), Mod(Ws(P, signers)[i - 1], P.s.q)))
  }

  lemma AnswerIsRouted(P: Params, signers: seq<Signer>, p: nat, i: nat, hist: seq<seq<Msg>>)
    requires P.s.q > 0 && EksOnFile(signers) && 1 <= p <= |signers| && 1 <= i <= |signers|
    requires PointsOf(View(hist, 0)) == Xs(signers)
    requires MessagesA(View(hist, 1)) == seq(|signers|, i requires 0 <= i < |signers| => Cipher(signers[i].key.ek, signers[i].k))
    ensures AnswersTo(P, signers[i - 1], i, p, hist) == Routed(P, signers, p, i)
  {
    assert EkAt(signers[i - 1], signers[p - 1].key.id) == signers[p - 1].key.ek;
  }

  lemma {:induction false} SyncAnswer(P: Params, signers: seq<Signer>, uuid: string, p: nat, i: nat)
    requires P.s.q > 0 && EksOnFile(signers) && 1 <= p <= |signers| && 1 <= i <= |signers|
    ensures SyncView(Session(P, signers, uuid), p, 2)[i - 1] == Routed(P, signers, p, i)
  {
    var pr := Session(P, signers, uuid);
    var hist := SyncHist(pr, i, 2);
    HistView(pr, i, 2, 0);
    HistView(pr, i, 2, 1);
    SyncOpening(P, signers, uuid, i);
    AnswerIsRouted(P, signers, p, i, hist);
    AnswerSent(P, signers, uuid, p, i - 1);
  }

  lemma {:induction false} AnswerSent(P: Params, signers: seq<Signer>, uuid: string, p: nat, i: nat)
    requires P.s.q > 0 && i < |signers|
    ensures var pr := Session(P, signers, uuid);
      SyncView(pr, p, 2)[i] == AnswersTo(P, signers[i], i + 1, p, SyncHist(pr, i + 1, 2))
  {
    SentIs(P, signers, uuid, p, i, 2);
  }

  /** What a signer reads in a round is what the others' message function says. */
  lemma {:induction false} SentIs(P: Params, signers: seq<Signer>, uuid: string, p: nat, i: nat, r: nat)
    requires P.s.q > 0 && i < |signers| && r < |ROUNDS|
    ensures var pr := Session(P, signers, uuid);
      SyncView(pr, p, r)[i] == Payload(P, signers, i + 1, if ROUNDS[r].kind.ToAll? then 0 else p, r, SyncHist(pr, i + 1, r))
  {
    SyncViewAt(Session(P, signers, uuid), p, r, i);
  }

  // ---- the two conversions, of the nonces and of the additive keys ----

  /** What a conversion multiplies the k of the others with. */
  datatype Factor = NonceFactor | KeyFactor

  ghost function Factors(P: Params, signers: seq<Signer>, f: Factor): (v: seq<int>)
    requires P.s.q > 0
    ensures |v| == |signers|
  {
    if f.NonceFactor? then Nonces(signers) else Ws(P, signers)
  }

  function Tag(signer: Signer, f: Factor): nat -> int {
    if f.NonceFactor? then signer.gammaTag else signer.wTag
  }

  function AnswersOf(view: seq<Msg>, f: Factor): (v: seq<MessageB>)
    ensures |v| == |view|
  {
    if f.NonceFactor? then GammaAnswers(view) else WAnswers(view)
  }

  /** The values signer p decrypts, in the lock-step run. */
  ghost function Decrypted(P: Params, signers: seq<Signer>, uuid: string, p: nat, f: Factor): (v: seq<int>)
    requires P.s.q > 0 && 1 <= p <= |signers|
    ensures |v| == |signers|
  {
    Alphas(signers[p - 1].key.ek, AnswersOf(SyncView(Session(P, signers, uuid), p, 2), f), P.s.q)
  }

  lemma DecryptedAt(P: Params, signers: seq<Signer>, uuid: string, p: nat, i: nat, f: Factor)
    requires P.s.q > 0 && EksOnFile(signers) && p < |signers| && i < |signers|
    ensures Decrypted(P, signers, uuid, p + 1, f)[i]
      == Mod(Masked(signers[p].k, Factors(P, signers, f)[i], Tag(signers[i], f)(p + 1)), P.s.q)
  {
    SyncAnswer(P, signers, uuid, p + 1, i + 1);
  }

  ghost function ConvertedShares(P: Params, signers: seq<Signer>, uuid: string, f: Factor): (v: seq<int>)
    requires P.s.q > 0
    ensures |v| == |signers|
  {
    seq(|signers|, i requires 0 <= i < |signers| =>
      ConvertedShare(signers[i].k, Factors(P, signers, f)[i], i + 1, Decrypted(P, signers, uuid, i + 1, f),
        Betas(|signers|, Tag(signers[i], f), P.s.q), P.s.q))
  }

  ghost function DeltaShares(P: Params, signers: seq<Signer>, uuid: string): (v: seq<int>)
    requires P.s.q > 0
  {
    ConvertedShares(P, signers, uuid, NonceFactor)
  }

  ghost function SigmaShares(P: Params, signers: seq<Signer>, uuid: string): (v: seq<int>)
    requires P.s.q > 0
  {
    ConvertedShares(P, signers, uuid, KeyFactor)
  }

  function Ks(signers: seq<Signer>): (v: seq<int>) {
    seq(|signers|, i requires 0 <= i < |signers| => signers[i].k)
  }

  function Nonces(signers: seq<Signer>): (v: seq<int>) {
    seq(|signers|, i requires 0 <= i < |signers| => signers[i].gamma)
  }

  /** Every signer's own computations give the shares above. */
  lemma SyncShares(P: Params, signers: seq<Signer>, uuid: string, i: nat, r: nat)
    requires P.s.q > 0 && i < |signers| && 3 <= r <= |ROUNDS|
    ensures var hist := SyncHist(Session(P, signers, uuid), i + 1, r);
      && DeltaOf(P, signers[i], i + 1, hist) == DeltaShares(P, signers, uuid)[i]
      && SigmaOf(P, signers[i], i + 1, hist) == SigmaShares(P, signers, uuid)[i]
  {
    var pr := Session(P, signers, uuid);
    HistView(pr, i + 1, r, 0);
    HistView(pr, i + 1, r, 2);
    SyncOpening(P, signers, uuid, i + 1);
    DeltaShareAt(P, signers, uuid, i, SyncHist(pr, i + 1, r));
    SigmaShareAt(P, signers, uuid, i, SyncHist(pr, i + 1, r));
  }

  lemma DeltaShareAt(P: Params, signers: seq<Signer>, uuid: string, i: nat, hist: seq<seq<Msg>>)
    requires P.s.q > 0 && i < |signers| && View(hist, 2) == SyncView(Session(P, signers, uuid), i + 1, 2)
    ensures DeltaOf(P, signers[i], i + 1, hist) == DeltaShares(P, signers, uuid)[i]
  {
  }

  lemma SigmaShareAt(P: Params, signers: seq<Signer>, uuid: string, i: nat, hist: seq<seq<Msg>>)
    requires P.s.q > 0 && i < |signers| && View(hist, 2) == SyncView(Session(P, signers, uuid), i + 1, 2)
    requires PointsOf(View(hist, 0)) == Xs(signers)
    ensures SigmaOf(P, signers[i], i + 1, hist) == SigmaShares(P, signers, uuid)[i]
  {
  }

  /** The share-conversion sums, with the pairing and routing of the program. */
  lemma {:induction false} ShareSums(P: Params, signers: seq<Signer>, dealers: seq<Keygen.Dealer>, len: nat, uuid: string)
    requires Honest(P, signers, dealers, len)
    ensures IsProduct(SeqSum(DeltaShares(P, signers, uuid)), SeqSum(Ks(signers)), SeqSum(Nonces(signers)), P.s.q)
    ensures IsProduct(SeqSum(SigmaShares(P, signers, uuid)), SeqSum(Ks(signers)), SeqSum(Ws(P, signers)), P.s.q)
  {
    HonestEks(P, signers, dealers, len);
    FactorSums(P, signers, uuid, NonceFactor);
    FactorSums(P, signers, uuid, KeyFactor);
  }

  lemma BetaValue(n: nat, tag: nat -> int, i: nat, q: int)
    requires q > 0 && i < n
    ensures Cong(Betas(n, tag, q)[i], -tag(i + 1), q)
  {
    CongMod(-tag(i + 1), q);
  }

  ghost function Rows(P: Params, signers: seq<Signer>, uuid: string, f: Factor): (v: seq<seq<int>>)
    requires P.s.q > 0
  {
    seq(|signers|, p requires 0 <= p < |signers| => Decrypted(P, signers, uuid, p + 1, f))
  }

  function BetaRows(P: Params, signers: seq<Signer>, f: Factor): (v: seq<seq<int>>)
    requires P.s.q > 0
  {
    seq(|signers|, p requires 0 <= p < |signers| => Betas(|signers|, Tag(signers[p], f), P.s.q))
  }

  /** The mask i drew towards p. */
  function Mask(signers: seq<Signer>, f: Factor): (int, int) -> int {
    (i, p) => if 0 <= i < |signers| && 0 <= p < |signers| && i != p then Tag(signers[i], f)(p + 1) else 0
  }

  lemma MaskAt(signers: seq<Signer>, i: nat, p: nat, f: Factor)
    requires p < |signers| && i < |signers| && i != p
    ensures Mask(signers, f)(i, p) == Tag(signers[i], f)(p + 1)
  {
  }

  lemma RowAt(P: Params, signers: seq<Signer>, uuid: string, p: nat, i: nat, f: Factor)
    requires P.s.q > 0 && EksOnFile(signers) && p < |signers| && i < |signers|
    ensures |Rows(P, signers, uuid, f)[p]| == |signers|
    ensures Rows(P, signers, uuid, f)[p][i] == Mod(Masked(signers[p].k, Factors(P, signers, f)[i], Tag(signers[i], f)(p + 1)), P.s.q)
  {
    assert Rows(P, signers, uuid, f)[p] == Decrypted(P, signers, uuid, p + 1, f);
    DecryptedAt(P, signers, uuid, p, i, f);
  }

  lemma BetaRowAt(P: Params, signers: seq<Signer>, p: nat, i: nat, f: Factor)
    requires P.s.q > 0 && p < |signers| && i < |signers| && i != p
    ensures |BetaRows(P, signers, f)[p]| == |signers|
    ensures Cong(BetaRows(P, signers, f)[p][i], -Mask(signers, f)(p, i), P.s.q)
  {
    MaskAt(signers, p, i, f);
    BetaValue(|signers|, Tag(signers[p], f), i, P.s.q);
  }

  lemma AllPaired(P: Params, signers: seq<Signer>, uuid: string, k: int -> int, b: int -> int, f: Factor)
    requires P.s.q > 0 && EksOnFile(signers)
    requires forall i :: 0 <= i < |signers| ==> k(i) == signers[i].k && b(i) == Factors(P, signers, f)[i]
    ensures Paired(|signers|, k, b, Rows(P, signers, uuid, f), BetaRows(P, signers, f), Mask(signers, f), P.s.q)
  {
    forall p, i | 0 <= p < |signers| && 0 <= i < |signers| && i != p
      ensures PairedAt(k, b, Rows(P, signers, uuid, f), BetaRows(P, signers, f), Mask(signers, f), p, i, P.s.q)
    {
      OnePaired(P, signers, uuid, k, b, p, i, f);
    }
  }

  lemma OnePaired(P: Params, signers: seq<Signer>, uuid: string, k: int -> int, b: int -> int, p: nat, i: nat, f: Factor)
    requires P.s.q > 0 && EksOnFile(signers) && p < |signers| && i < |signers| && i != p
    requires k(p) == signers[p].k && b(i) == Factors(P, signers, f)[i]
    ensures |Rows(P, signers, uuid, f)[p]| == |BetaRows(P, signers, f)[p]| == |signers|
    ensures PairedAt(k, b, Rows(P, signers, uuid, f), BetaRows(P, signers, f), Mask(signers, f), p, i, P.s.q)
  {
    MaskAt(signers, i, p, f);
    RowAt(P, signers, uuid, p, i, f);
    MaskedCong(Rows(P, signers, uuid, f)[p][i], k(p), b(i), Tag(signers[i], f)(p + 1), k(p) * b(i), Mask(signers, f)(i, p), P.s.q);
    BetaRowAt(P, signers, p, i, f);
  }

  lemma AllConverted(P: Params, signers: seq<Signer>, uuid: string, k: int -> int, b: int -> int, f: Factor)
    requires P.s.q > 0
    requires forall i :: 0 <= i < |signers| ==> k(i) == signers[i].k && b(i) == Factors(P, signers, f)[i]
    ensures Converted(|signers|, k, b, Rows(P, signers, uuid, f), BetaRows(P, signers, f), ConvertedShares(P, signers, uuid, f), P.s.q)
  {
    forall p | 0 <= p < |signers|
      ensures |Rows(P, signers, uuid, f)[p]| == |BetaRows(P, signers, f)[p]| == |signers|
      ensures ConvertedAt(k, b, Rows(P, signers, uuid, f), BetaRows(P, signers, f), ConvertedShares(P, signers, uuid, f), p, P.s.q)
    {
    }
  }

  lemma {:induction false} FactorSums(P: Params, signers: seq<Signer>, uuid: string, f: Factor)
    requires P.s.q > 0 && EksOnFile(signers)
    ensures IsProduct(SeqSum(ConvertedShares(P, signers, uuid, f)), SeqSum(Ks(signers)), SeqSum(Factors(P, signers, f)), P.s.q)
  {
    var k := i => if 0 <= i < |signers| then Ks(signers)[i] else 0;
    var b := i => if 0 <= i < |signers| then Factors(P, signers, f)[i] else 0;
    SeqSumIsSum(Ks(signers), k);
    SeqSumIsSum(Factors(P, signers, f), b);
    SumsConvert(P, signers, uuid, k, b, f);
  }

  lemma {:induction false} SumsConvert(P: Params, signers: seq<Signer>, uuid: string, k: int -> int, b: int -> int, f: Factor)
    requires P.s.q > 0 && EksOnFile(signers)
    requires forall i :: 0 <= i < |signers| ==> k(i) == signers[i].k && b(i) == Factors(P, signers, f)[i]
    ensures IsProduct(SeqSum(ConvertedShares(P, signers, uuid, f)), Sum(|signers|, k), Sum(|signers|, b), P.s.q)
  {
    AllPaired(P, signers, uuid, k, b, f);
    AllConverted(P, signers, uuid, k, b, f);
    ConversionSums(|signers|, k, b, Rows(P, signers, uuid, f), BetaRows(P, signers, f), Mask(signers, f),
      ConvertedShares(P, signers, uuid, f), P.s.q);
  }

  // ---- the nonce point and the parts ----

  ghost function CommonNonce(P: Params, signers: seq<Signer>, uuid: string): int
    requires P.s.q > 0
  {
    Scaled(SeqSum(GammaPoints(P, signers)), DeltaInv(DeltaShares(P, signers, uuid), P.s.q), P.s.q)
  }

  function Scaled(c: int, d: int, q: int): int
    requires q > 0
  {
    Mod(c * d, q)
  }

  function GammaPoints(P: Params, signers: seq<Signer>): (v: seq<int>)
    requires P.s.q > 0
  {
    seq(|signers|, i requires 0 <= i < |signers| => Mod(signers[i].gamma, P.s.q))
  }

  lemma {:induction false} SyncDeltas(P: Params, signers: seq<Signer>, uuid: string, p: nat)
    requires P.s.q > 0
    ensures Deltas(SyncView(Session(P, signers, uuid), p, 3)) == DeltaShares(P, signers, uuid)
  {
    var pr := Session(P, signers, uuid);
    forall i | 0 <= i < |signers|
      ensures Deltas(SyncView(pr, p, 3))[i] == DeltaShares(P, signers, uuid)[i]
    {
      SyncShares(P, signers, uuid, i, 3);
      DeltaSent(P, signers, uuid, p, i);
    }
  }

  lemma {:induction false} DeltaSent(P: Params, signers: seq<Signer>, uuid: string, p: nat, i: nat)
    requires P.s.q > 0 && i < |signers|
    ensures var pr := Session(P, signers, uuid);
      SyncView(pr, p, 3)[i] == Delta(DeltaOf(P, signers[i], i + 1, SyncHist(pr, i + 1, 3)))
  {
    SentIs(P, signers, uuid, p, i, 3);
  }

  lemma {:induction false} SyncGammas(P: Params, signers: seq<Signer>, uuid: string, p: nat)
    requires P.s.q > 0
    ensures Gammas(SyncView(Session(P, signers, uuid), p, 4)) == GammaPoints(P, signers)
  {
  }

  /** Everybody computes the same nonce point, its own contribution added last. */
  lemma {:induction false} SameNonce(P: Params, signers: seq<Signer>, uuid: string, p: nat, r: nat)
    requires P.s.q > 0 && 1 <= p <= |signers| && 5 <= r <= |ROUNDS|
    ensures NoncePoint(P, p, SyncHist(Session(P, signers, uuid), p, r)) == CommonNonce(P, signers, uuid)
  {
    var pr := Session(P, signers, uuid);
    HistView(pr, p, r, 3);
    HistView(pr, p, r, 4);
    SyncDeltas(P, signers, uuid, p);
    SyncGammas(P, signers, uuid, p);
    NonceFromAll(GammaPoints(P, signers), DeltaShares(P, signers, uuid), p, P.s.q);
  }

  lemma {:induction false} NonceFromAll(gs: seq<int>, ds: seq<int>, p: nat, q: int)
    requires q > 0 && 1 <= p <= |gs|
    ensures NonceFrom(gs, ds, p, q) == Scaled(SeqSum(gs), DeltaInv(ds, q), q)
  {
    OthersWithout(gs, p);
    Distribute(OthersSum(gs, p), gs[p - 1], SeqSum(gs), DeltaInv(ds, q), q);
  }

  lemma Distribute(a: int, b: int, c: int, d: int, q: int)
    requires q > 0 && c == a + b
    ensures ScaledBoth(a, b, d, q) == Scaled(c, d, q)
  {
    assert a * d + b * d == c * d;
  }

  /** Commitments, openings and proofs of the nonce points line up once one's own are taken out: at
      the place of signer i stand the proof in its answer, its opening and its round-1 commitment, all
      about its own nonce point. */
  lemma {:induction false} NonceOpeningsMatch(P: Params, signers: seq<Signer>, dealers: seq<Keygen.Dealer>, len: nat, uuid: string, p: nat)
    requires Honest(P, signers, dealers, len) && 1 <= p <= |signers|
    ensures var pr := Session(P, signers, uuid);
      var shown := Others(Gammas(SyncView(pr, p, 4)), p);
      && OpeningsOk(Others(GammaAnswers(SyncView(pr, p, 2)), p), shown, Others(Coms(SyncView(pr, p, 1)), p))
      && |shown| == |signers| - 1
      && forall i :: 1 <= i <= |signers| && i != p ==>
           SkipOwn(p, i) < |signers| - 1 && shown[SkipOwn(p, i)] == GammaPoints(P, signers)[i - 1]
  {
    HonestEks(P, signers, dealers, len);
    forall i | 0 <= i < |signers|
      ensures GammaAnswers(SyncView(Session(P, signers, uuid), p, 2))[i].pk == GammaPoints(P, signers)[i]
    {
      AnswerAbout(P, signers, uuid, p, i);
    }
    SyncGammas(P, signers, uuid, p);
    SyncComs(P, signers, uuid, p);
    OthersAgree(GammaAnswers(SyncView(Session(P, signers, uuid), p, 2)), GammaPoints(P, signers), p);
  }

  lemma OthersAgree(answers: seq<MessageB>, points: seq<int>, p: nat)
    requires 1 <= p <= |points| == |answers| && forall i :: 0 <= i < |points| ==> answers[i].pk == points[i]
    ensures OpeningsOk(Others(answers, p), Others(points, p), Others(points, p))
    ensures forall i :: 1 <= i <= |points| && i != p ==>
      SkipOwn(p, i) < |points| - 1 && Others(points, p)[SkipOwn(p, i)] == points[i - 1]
  {
    forall i: nat | 1 <= i <= |points| && i != p
      ensures SkipOwn(p, i) < |points| - 1 && Others(points, p)[SkipOwn(p, i)] == points[i - 1]
    {
      RemoveAtSkips(points, p, i);
    }
  }

  lemma AnswerAbout(P: Params, signers: seq<Signer>, uuid: string, p: nat, i: nat)
    requires P.s.q > 0 && EksOnFile(signers) && 1 <= p <= |signers| && i < |signers|
    ensures GammaAnswers(SyncView(Session(P, signers, uuid), p, 2))[i].pk == GammaPoints(P, signers)[i]
  {
    SyncAnswer(P, signers, uuid, p, i + 1);
  }

  lemma {:induction false} SyncComs(P: Params, signers: seq<Signer>, uuid: string, p: nat)
    requires P.s.q > 0
    ensures Coms(SyncView(Session(P, signers, uuid), p, 1)) == GammaPoints(P, signers)
  {
  }

  ghost function CommonR(P: Params, signers: seq<Signer>, uuid: string): int
    requires P.s.q > 0
  {
    Mod(P.s.xCoord(CommonNonce(P, signers, uuid)), P.s.q)
  }

  ghost function PartShares(P: Params, signers: seq<Signer>, uuid: string): (v: seq<int>)
    requires P.s.q > 0
  {
    seq(|signers|, i requires 0 <= i < |signers| =>
      PartOf(MessageScalar(P), signers[i].k, CommonR(P, signers, uuid), SigmaShares(P, signers, uuid)[i], P.s.q))
  }

  lemma SyncPart(P: Params, signers: seq<Signer>, uuid: string, i: nat, r: nat)
    requires P.s.q > 0 && i < |signers| && 5 <= r <= |ROUNDS|
    ensures LocalPart(P, signers[i], i + 1, SyncHist(Session(P, signers, uuid), i + 1, r)) == PartShares(P, signers, uuid)[i]
  {
    SameNonce(P, signers, uuid, i + 1, r);
    SyncShares(P, signers, uuid, i, r);
    PartShareAt(P, signers, uuid, i, SyncHist(Session(P, signers, uuid), i + 1, r));
  }

  lemma PartShareAt(P: Params, signers: seq<Signer>, uuid: string, i: nat, hist: seq<seq<Msg>>)
    requires P.s.q > 0 && i < |signers| && NoncePoint(P, i + 1, hist) == CommonNonce(P, signers, uuid)
    requires SigmaOf(P, signers[i], i + 1, hist) == SigmaShares(P, signers, uuid)[i]
    ensures LocalPart(P, signers[i], i + 1, hist) == PartShares(P, signers, uuid)[i]
  {
  }

  lemma {:induction false} SyncParts(P: Params, signers: seq<Signer>, uuid: string, p: nat)
    requires P.s.q > 0
    ensures Parts(SyncView(Session(P, signers, uuid), p, 9)) == PartShares(P, signers, uuid)
  {
    var pr := Session(P, signers, uuid);
    forall i | 0 <= i < |signers|
      ensures Parts(SyncView(pr, p, 9))[i] == PartShares(P, signers, uuid)[i]
    {
      PartAt(P, signers, uuid, p, i);
    }
  }

  lemma {:induction false} PartAt(P: Params, signers: seq<Signer>, uuid: string, p: nat, i: nat)
    requires P.s.q > 0 && i < |signers|
    ensures Parts(SyncView(Session(P, signers, uuid), p, 9))[i] == PartShares(P, signers, uuid)[i]
  {
    SyncPart(P, signers, uuid, i, 9);
    PartSent(P, signers, uuid, p, i);
  }

  lemma {:induction false} PartSent(P: Params, signers: seq<Signer>, uuid: string, p: nat, i: nat)
    requires P.s.q > 0 && i < |signers|
    ensures var pr := Session(P, signers, uuid);
      SyncView(pr, p, 9)[i] == Part(LocalPart(P, signers[i], i + 1, SyncHist(pr, i + 1, 9)))
  {
    SentIs(P, signers, uuid, p, i, 9);
  }

  /** s before it is made low. */
  ghost function RawS(P: Params, signers: seq<Signer>, uuid: string): (s: int)
    requires P.s.q > 0
    ensures 0 <= s < P.s.q
  {
    Mod(SeqSum(PartShares(P, signers, uuid)), P.s.q)
  }

  /** Every signer outputs the same signature. */
  lemma {:induction false} SameOutput(P: Params, signers: seq<Signer>, uuid: string, p: nat)
    requires P.s.q > 0 && 1 <= p <= |signers|
    ensures Output(P, signers[p - 1], p, SyncHist(Session(P, signers, uuid), p, |ROUNDS|))
      == Signature(CommonR(P, signers, uuid), LowS(RawS(P, signers, uuid), P.s.q))
  {
    var n, i := |ROUNDS|, p - 1;
    HistView(Session(P, signers, uuid), p, n, 9);
    SyncParts(P, signers, uuid, p);
    SyncPart(P, signers, uuid, i, n);
    SameNonce(P, signers, uuid, p, n);
    OutputIs(P, signers, uuid, i, SyncHist(Session(P, signers, uuid), p, n));
  }

  lemma OutputIs(P: Params, signers: seq<Signer>, uuid: string, i: nat, hist: seq<seq<Msg>>)
    requires P.s.q > 0 && i < |signers| && NoncePoint(P, i + 1, hist) == CommonNonce(P, signers, uuid)
    requires LocalPart(P, signers[i], i + 1, hist) == PartShares(P, signers, uuid)[i]
    requires Parts(View(hist, 9)) == PartShares(P, signers, uuid)
    ensures Output(P, signers[i], i + 1, hist) == Signature(CommonR(P, signers, uuid), LowS(RawS(P, signers, uuid), P.s.q))
  {
    SumPartsAll(PartShares(P, signers, uuid), i + 1, P.s.q);
  }

  lemma {:induction false} SumPartsAll(parts: seq<int>, p: nat, q: int)
    requires q > 0 && 1 <= p <= |parts|
    ensures SumParts(parts[p - 1], parts, p, q) == Mod(SeqSum(parts), q)
  {
    OthersWithout(parts, p);
    SameMod(parts[p - 1] + OthersSum(parts, p), SeqSum(parts), q);
  }

  lemma SameMod(a: int, b: int, q: int)
    requires q > 0 && a == b
    ensures Mod(a, q) == Mod(b, q)
  {
  }
}
