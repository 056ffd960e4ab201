/** Threshold ECDSA signing with an optional derivation path. Points are exponents of the generator.

    The library's primitives appear by their contracts: a Paillier ciphertext carries its key and
    its plain value and opens under that key only, a commitment carries what it commits to. */
module EcdsaSigner {
  import opened Wrappers
  import opened Modular
  import opened Sums
  import opened Shamir
  import opened Bytes
  import opened PairwiseKeys
  import opened Reassembly
  import opened RoundExchange
  import opened ShareConversion
  import Keygen

  datatype Msg =
    | SignerId(id: nat)
    | Phase1(com: int, mA: Cipher)
    | Mta(gamma: MessageB, w: MessageB)
    | Delta(d: int)
    | Decommit(gGamma: int)
    | LibraryProofs                // rounds 5 to 8: commitments and proofs of the library
    | Part(s: int)

  const ROUNDS := [
    Round("round0", ToAll), Round("round1", ToAll), Round("round2", ToEach), Round("round3", ToAll), Round("round4", ToAll),
    Round("round5", ToAll), Round("round6", ToAll), Round("round7", ToAll), Round("round8", ToAll), Round("round9", ToAll)]

  /** What all signers of one message agree on: the group, the tweak of the path if there is one,
      the public key to sign for, and the message as a number; and whether the library's verification
      turns down an r of zero, as the standard does. */
  datatype Params = Params(s: Suite, atPath: bool, f: int, y: int, message: nat, strict: bool)

  /** A signer: its key file, its two nonces, and the masks it draws towards each party number. */
  datatype Signer = Signer(key: Keygen.KeyFile, k: int, gamma: int, gammaTag: nat -> int, wTag: nat -> int)

  // ---- adjusting keys for a path ----

  /** The leader's commitments with f·G added to the first of them, as many as scheme 1 has. */
  function AdjustedScheme(com: seq<int>, f: int, len: nat, q: int): (c: seq<int>)
    requires q > 0 && 1 <= |com| && len <= |com|
    ensures |c| == len
  {
    ([Mod(com[0] + f, q)] + com[1..])[..len]
  }

  /** What the adjustment takes off the file is there: a first commitment of scheme 0, a scheme 1,
      and as many commitments in the former as in the latter. */
  predicate CanAdjust(schemes: seq<seq<int>>) {
    |schemes| >= 2 && 1 <= |schemes[0]| && |schemes[1]| <= |schemes[0]|
  }

  function Adjusted(schemes: seq<seq<int>>, f: int, q: int): (r: seq<seq<int>>)
    requires q > 0 && CanAdjust(schemes)
  {
    schemes[0 := AdjustedScheme(schemes[0], f, |schemes[1]|, q)]
  }

  datatype PartyPrivate = PartyPrivate(u: int, x: int)

  /** The signer's own state while it prepares. */
  class LocalKeys {
    var vssSchemeVec: seq<seq<int>>
    var private: PartyPrivate

    constructor (schemes: seq<seq<int>>, private: PartyPrivate)
      ensures vssSchemeVec == schemes && this.private == private
    {
      vssSchemeVec := schemes;
      this.private := private;
    }

    /** Scheme 0 gets a new first commitment; everybody's share moves by f; the party numbered 1
        also moves its u. False is the panic on an index or iterator that runs out. */
    method ApplyPath(partyNum: nat, f: int, q: int) returns (ok: bool)
      requires q > 0
      modifies this
      ensures ok <==> CanAdjust(old(vssSchemeVec))
      ensures ok ==> vssSchemeVec == Adjusted(old(vssSchemeVec), f, q)
      ensures ok ==> private == PartyPrivate(Mod(old(private).u + (if partyNum == 1 then f else 0), q), Mod(old(private).x + f, q))
      ensures !ok ==> vssSchemeVec == old(vssSchemeVec) && private == old(private)
    {
      if |vssSchemeVec| == 0 || |vssSchemeVec[0]| == 0 {
        return false;
      }
      var comZeroNew := Mod(vssSchemeVec[0][0] + f, q);
      var next := 1;
      if |vssSchemeVec| == 1 {
        return false;
      }
      ghost var all := [comZeroNew] + vssSchemeVec[0][1..];
      var comVecNew := [];
      for i := 0 to |vssSchemeVec[1]|
        invariant next == if i == 0 then 1 else i
        invariant i <= |all| && comVecNew == all[..i]
        invariant vssSchemeVec == old(vssSchemeVec) && private == old(private)
      {
        if i == 0 {
          comVecNew := comVecNew + [comZeroNew];
        } else {
          if next == |vssSchemeVec[0]| {
            return false;
          }
          comVecNew := comVecNew + [vssSchemeVec[0][next]];
          next := next + 1;
        }
        assert all[..i + 1] == all[..i] + [all[i]];
      }
      vssSchemeVec := vssSchemeVec[1..];
      vssSchemeVec := [comVecNew] + vssSchemeVec;
      if partyNum == 1 {
        private := PartyPrivate(Mod(private.u + f, q), Mod(private.x + f, q));
      } else {
        private := PartyPrivate(Mod(private.u + 0, q), Mod(private.x + f, q));
      }
      return true;
    }
  }

  // ---- what a signer reads off the vectors it gathered ----

  /** The points of the signers, which are their party numbers. */
  function PointsOf(view: seq<Msg>): seq<int> {
    seq(|view|, i requires 0 <= i < |view| => if view[i].SignerId? then view[i].id else 0)
  }

  /** What the round-1 commitments commit to. */
  function Coms(view: seq<Msg>): seq<int> {
    seq(|view|, i requires 0 <= i < |view| => if view[i].Phase1? then view[i].com else 0)
  }

  function MessagesA(view: seq<Msg>): seq<Cipher> {
    seq(|view|, i requires 0 <= i < |view| => if view[i].Phase1? then view[i].mA else Cipher(0, 0))
  }

  function GammaAnswers(view: seq<Msg>): seq<MessageB> {
    seq(|view|, i requires 0 <= i < |view| => if view[i].Mta? then view[i].gamma else MessageB(Cipher(0, 0), 0))
  }

  function WAnswers(view: seq<Msg>): seq<MessageB> {
    seq(|view|, i requires 0 <= i < |view| => if view[i].Mta? then view[i].w else MessageB(Cipher(0, 0), 0))
  }

  function Deltas(view: seq<Msg>): seq<int> {
    seq(|view|, i requires 0 <= i < |view| => if view[i].Delta? then view[i].d else 0)
  }

  function Gammas(view: seq<Msg>): seq<int> {
    seq(|view|, i requires 0 <= i < |view| => if view[i].Decommit? then view[i].gGamma else 0)
  }

  function Parts(view: seq<Msg>): seq<int> {
    seq(|view|, i requires 0 <= i < |view| => if view[i].Part? then view[i].s else 0)
  }

  /** One's share, moved along the path. */
  function ShareX(P: Params, me: Signer): int
    requires P.s.q > 0
  {
    if P.atPath then Mod(me.key.x + P.f, P.s.q) else me.key.x
  }

  /** The additive signing key: the share times its Lagrange coefficient among the signers. */
  ghost function SignW(P: Params, me: Signer, p: nat, points: seq<int>): int
    requires P.s.q > 0
  {
    if IsPrime(P.s.q) && Units(points, P.s.q) && 1 <= p <= |points|
    then Mod(Mod(Coef(points, points[p - 1], P.s.q), P.s.q) * ShareX(P, me), P.s.q) else 0
  }

  /** The Paillier key on file for the signer at a point. */
  function EkAt(me: Signer, point: int): nat {
    if 1 <= point <= |me.key.eks| then me.key.eks[point - 1] else 0
  }

  ghost function AnswersTo(P: Params, me: Signer, p: nat, to: nat, hist: seq<seq<Msg>>): Msg
    requires P.s.q > 0
  {
    var points, mAs := PointsOf(View(hist, 0)), MessagesA(View(hist, 1));
    if 1 <= to <= |points| && |points| == |mAs| then
      Mta(Respond(me.gamma, EkAt(me, points[to - 1]), mAs[to - 1], me.gammaTag(to), P.s.q),
          Respond(SignW(P, me, p, points), EkAt(me, points[to - 1]), mAs[to - 1], me.wTag(to), P.s.q))
    else LibraryProofs
  }

  function DeltaOf(P: Params, me: Signer, p: nat, hist: seq<seq<Msg>>): int
    requires P.s.q > 0
  {
    var answers := GammaAnswers(View(hist, 2));
    if 1 <= p <= |answers| then
      ConvertedShare(me.k, me.gamma, p, Alphas(me.key.ek, answers, P.s.q), Betas(|answers|, me.gammaTag, P.s.q), P.s.q)
    else 0
  }

  ghost function SigmaOf(P: Params, me: Signer, p: nat, hist: seq<seq<Msg>>): int
    requires P.s.q > 0
  {
    var answers := WAnswers(View(hist, 2));
    if 1 <= p <= |answers| then
      ConvertedShare(me.k, SignW(P, me, p, PointsOf(View(hist, 0))), p, Alphas(me.key.ek, answers, P.s.q), Betas(|answers|, me.wTag, P.s.q), P.s.q)
    else 0
  }

  ghost function DeltaInv(deltas: seq<int>, q: int): int
    requires q > 0
  {
    if IsPrime(q) && Mod(SeqSum(deltas), q) != 0 then Inverse(SeqSum(deltas), q) else 0
  }

  /** R: the others' nonce points times the inverse of delta, and one's own added. */
  ghost function NonceFrom(gammas: seq<int>, deltas: seq<int>, p: nat, q: int): int
    requires q > 0
  {
    if 1 <= p <= |gammas| then ScaledBoth(OthersSum(gammas, p), gammas[p - 1], DeltaInv(deltas, q), q) else 0
  }

  function ScaledBoth(a: int, b: int, d: int, q: int): int
    requires q > 0
  {
    Mod(a * d + b * d, q)
  }

  ghost function NoncePoint(P: Params, p: nat, hist: seq<seq<Msg>>): int
    requires P.s.q > 0
  {
    NonceFrom(Gammas(View(hist, 4)), Deltas(View(hist, 3)), p, P.s.q)
  }

  /** The message, of which 256 bits are signed. */
  function MessageScalar(P: Params): int
    requires P.s.q > 0
  {
    Mod(P.message % Pow256(32), P.s.q)
  }

  ghost function SigR(P: Params, p: nat, hist: seq<seq<Msg>>): int
    requires P.s.q > 0
  {
    Mod(P.s.xCoord(NoncePoint(P, p, hist)), P.s.q)
  }

  function PartOf(m: int, k: int, r: int, sigma: int, q: int): int
    requires q > 0
  {
    Mod(m * k + r * sigma, q)
  }

  ghost function LocalPart(P: Params, me: Signer, p: nat, hist: seq<seq<Msg>>): int
    requires P.s.q > 0
  {
    PartOf(MessageScalar(P), me.k, SigR(P, p, hist), SigmaOf(P, me, p, hist), P.s.q)
  }

  /** The message of signer `from` in round r. */
  ghost function Payload(P: Params, signers: seq<Signer>, from: nat, to: nat, r: nat, hist: seq<seq<Msg>>): Msg
    requires P.s.q > 0
  {
    if !(1 <= from <= |signers|) then LibraryProofs else
    var me := signers[from - 1];
    match r
    case 0 => SignerId(me.key.id)
    case 1 => Phase1(Mod(me.gamma, P.s.q), Cipher(me.key.ek, me.k))
    case 2 => AnswersTo(P, me, from, to, hist)
    case 3 => Delta(DeltaOf(P, me, from, hist))
    case 4 => Decommit(Mod(me.gamma, P.s.q))
    case 9 => Part(LocalPart(P, me, from, hist))
    case _ => LibraryProofs
  }

  datatype Signature = Signature(r: int, s: int)

  /** Adding the parts, and taking the smaller of s and its negation. */
  function LowS(s: int, q: int): int {
    if q - s < s then q - s else s
  }

  function SumParts(own: int, parts: seq<int>, p: nat, q: int): int
    requires q > 0
  {
    if 1 <= p <= |parts| then Mod(own + OthersSum(parts, p), q) else 0
  }

  ghost function Output(P: Params, me: Signer, p: nat, hist: seq<seq<Msg>>): Signature
    requires P.s.q > 0
  {
    Signature(SigR(P, p, hist), LowS(SumParts(LocalPart(P, me, p, hist), Parts(View(hist, 9)), p, P.s.q), P.s.q))
  }

  /** The point that verification computes, with i the inverse of s. */
  function VerificationPoint(m: int, r: int, i: int, y: int, q: int): int
    requires q > 0
  {
    Mod(Mod(m * i, q) + Mod(r * i, q) * y, q)
  }

  /** The equation of section 4.1.4 of SEC 1, for an s that has an inverse. */
  ghost predicate EquationHolds(s: Suite, sig: Signature, y: int, m: int)
    requires IsPrime(s.q)
  {
    && 1 <= sig.s < s.q
    && var point := VerificationPoint(m, sig.r, Inverse(sig.s, s.q), y, s.q);
       point != 0 && Mod(s.xCoord(point), s.q) == sig.r
  }

  /** Signature verification, section 4.1.4 of SEC 1. */
  ghost predicate Verifies(s: Suite, sig: Signature, y: int, m: int)
    requires IsPrime(s.q)
  {
    1 <= sig.r < s.q && EquationHolds(s, sig, y, m)
  }

  /** The library's verification. */
  ghost predicate Accepts(P: Params, sig: Signature)
    requires IsPrime(P.s.q)
  {
    (P.strict ==> sig.r != 0) && EquationHolds(P.s, sig, P.y, MessageScalar(P))
  }

  // ---- the assertions of one signer ----

  /** The commitments a signer works with. */
  function LocalSchemes(P: Params, schemes: seq<seq<int>>): (r: seq<seq<int>>)
    requires P.s.q > 0 && (P.atPath ==> CanAdjust(schemes))
  {
    if P.atPath then Adjusted(schemes, P.f, P.s.q) else schemes
  }

  /** The point recomputed for the additive key of the signer at place i. */
  ghost function KeyPoint(P: Params, me: Signer, points: seq<int>, i: nat): Option<int>
    requires P.s.q > 0
  {
    if IsPrime(P.s.q) && Units(points, P.s.q) && i < |points| && (P.atPath ==> CanAdjust(me.key.schemes)) then
      KeyPointFrom(LocalSchemes(P, me.key.schemes), points, i, P.s.q)
    else None
  }

  ghost function KeyPointFrom(schemes: seq<seq<int>>, points: seq<int>, i: nat, q: int): Option<int>
    requires IsPrime(q) && Units(points, q) && i < |points|
  {
    if schemes != [] && SameLength(schemes, |schemes[0]|) then
      Some(Mod(PointCommitment(SumCommitments(schemes, |schemes[0]|, q), points[i], q) * Mod(Coef(points, points[i], q), q), q))
    else None
  }

  /** The signers are distinct and each has its commitments and its Paillier key on file. */
  ghost predicate IndicesOk(me: Signer, p: nat, points: seq<int>, q: int) {
    && 1 <= p <= |points| && Points(points, q)
    && forall i :: 0 <= i < |points| ==> points[i] <= |me.key.schemes| && points[i] <= |me.key.eks|
  }

  /** An answer opens under one's own key, and its second factor is about the expected point. */
  predicate AnswerOk(dk: nat, gamma: MessageB, w: MessageB, point: int) {
    gamma.c.key == dk && w.c.key == dk && w.pk == point
  }

  ghost predicate AnswersOk(P: Params, me: Signer, p: nat, points: seq<int>, gammas: seq<MessageB>, ws: seq<MessageB>)
    requires P.s.q > 0
  {
    && |points| == |gammas| == |ws|
    && forall i :: 0 <= i < |points| && i + 1 != p ==>
         KeyPoint(P, me, points, i).Some? && AnswerOk(me.key.ek, gammas[i], ws[i], KeyPoint(P, me, points, i).value)
  }

  function Others<T>(v: seq<T>, p: nat): seq<T> {
    if 1 <= p <= |v| then RemoveAt(v, p - 1) else v
  }

  /** Proofs, openings and commitments of the others are about the same points, place by place. */
  predicate OpeningsOk(answers: seq<MessageB>, shown: seq<int>, coms: seq<int>) {
    |answers| == |shown| == |coms| && forall j :: 0 <= j < |shown| ==> answers[j].pk == shown[j] && coms[j] == shown[j]
  }

  /** The assertions signer p goes through on the vectors gathered so far: the indices and the
      adjustment after round 0, the answers of round 2, the inverse of delta, the openings of
      round 4, and at the end the signature. */
  ghost predicate Checks(P: Params, me: Signer, p: nat, hist: seq<seq<Msg>>)
    requires P.s.q > 0
  {
    match |hist|
    case 1 => (P.atPath ==> CanAdjust(me.key.schemes)) && IndicesOk(me, p, PointsOf(View(hist, 0)), P.s.q)
    case 3 => AnswersOk(P, me, p, PointsOf(View(hist, 0)), GammaAnswers(View(hist, 2)), WAnswers(View(hist, 2)))
    case 4 => Mod(SeqSum(Deltas(View(hist, 3))), P.s.q) != 0
    case 5 => OpeningsOk(Others(GammaAnswers(View(hist, 2)), p), Others(Gammas(View(hist, 4)), p), Others(Coms(View(hist, 1)), p))
    case 10 => IsPrime(P.s.q) && Accepts(P, Output(P, me, p, hist))
    case _ => true
  }

  ghost function Session(P: Params, signers: seq<Signer>, uuid: string): Protocol<Msg>
    requires P.s.q > 0
  {
    Protocol(|signers|, uuid, ROUNDS, (from, to, r, hist) => Payload(P, signers, from, to, r, hist),
      (p, hist) => 1 <= p <= |signers| ==> Checks(P, signers[p - 1], p, hist), (_, _, _) => true)
  }
}
