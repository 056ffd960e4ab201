/** Threshold EdDSA signing with an optional derivation path.

    All points here are multiples of the generator and appear by their exponent; the public key of
    a path, which is put through torsion clearing, is a full curve point. */
module EddsaSigner {
  import opened Wrappers
  import opened Modular
  import opened Sums
  import opened Shamir
  import opened PairwiseKeys
  import opened RoundExchange
  import opened EdwardsPoints
  import Keygen

  datatype Msg =
    | SignerIndex(index: nat)
    | EphOpening(R: int)
    | EphScheme(commitments: seq<int>)
    | EphSealed(pack: Option<Aead>)
    | EphShared(R: int, r: int)
    | LocalSig(gamma: int, k: int)

  const ROUNDS := [
    Round("round0", ToAll), Round("eph_keygen_round1", ToAll), Round("eph_keygen_round2", ToAll),
    Round("eph_keygen_round3", ToEach), Round("eph_keygen_round4", ToAll), Round("round1_local_sig", ToAll)]

  /** What all signers of one message agree on: the group, the threshold, the tweak of the path if
      there is one, the message as a number, and the hash of R, the public key and the message. */
  datatype Params = Params(s: Suite, t: nat, atPath: bool, f: int, message: nat, hash: (Point, Point, nat) -> nat)

  /** A signer: its key file and the polynomial sharing its ephemeral secret. */
  datatype Signer = Signer(key: Keygen.KeyFile, eph: Poly)

  ghost predicate ValidParams(P: Params) {
    ValidSuite(P.s) && P.s.padded && Mod(8, P.s.q) != 0
  }

  /** The public key to sign for: the root key, or the derived one with its torsion cleared. */
  ghost function PublicKey(P: Params, y: int): Point
    requires ValidParams(P)
  {
    if P.atPath then ClearTorsion(Lift(y + P.f, P.s.q), P.s.q) else Lift(y, P.s.q)
  }

  // ---- what one signer computes from what it gathered ----

  /** The signers' points: indices are sent, and one is added back. */
  function PointsOf(view: seq<Msg>): seq<int> {
    seq(|view|, i requires 0 <= i < |view| => if view[i].SignerIndex? then view[i].index + 1 else 0)
  }

  function Rs(view: seq<Msg>): seq<int> {
    seq(|view|, i requires 0 <= i < |view| => if view[i].EphOpening? then view[i].R else 0)
  }

  function EphSchemes(view: seq<Msg>): seq<seq<int>> {
    seq(|view|, i requires 0 <= i < |view| => if view[i].EphScheme? then view[i].commitments else [])
  }

  function EphPacks(view: seq<Msg>): seq<Option<Aead>> {
    seq(|view|, i requires 0 <= i < |view| => if view[i].EphSealed? then view[i].pack else None)
  }

  function LocalGammas(view: seq<Msg>): seq<int> {
    seq(|view|, i requires 0 <= i < |view| => if view[i].LocalSig? then view[i].gamma else 0)
  }

  function PointAt(points: seq<int>, p: nat): int {
    if 1 <= p <= |points| then points[p - 1] else 0
  }

  /** The ephemeral shares for the signer numbered p, its own among them. */
  function EphShares(s: Suite, eph: Poly, p: nat, point: int, rs: seq<int>, packs: seq<Option<Aead>>): seq<int>
    requires s.q > 0 && |packs| == |rs|
  {
    seq(|rs|, i requires 0 <= i < |rs| =>
      if i + 1 == p then Share(eph, point, s.q) else Open(Keygen.EncKeys(s, Keygen.Secret(eph), rs)[i], packs[i], s.q))
  }

  function EphShare(s: Suite, eph: Poly, p: nat, point: int, rs: seq<int>, packs: seq<Option<Aead>>): int
    requires s.q > 0
  {
    if |rs| == |packs| then Mod(SeqSum(EphShares(s, eph, p, point, rs, packs)), s.q) else 0
  }

  function OwnEphShare(P: Params, me: Signer, p: nat, hist: seq<seq<Msg>>): int
    requires P.s.q > 0
  {
    EphShare(P.s, me.eph, p, PointAt(PointsOf(View(hist, 0)), p), Rs(View(hist, 1)), EphPacks(View(hist, 3)))
  }

  function NonceSum(P: Params, hist: seq<seq<Msg>>): int
    requires P.s.q > 0
  {
    Mod(SeqSum(Rs(View(hist, 1))), P.s.q)
  }

  /** The challenge for the common nonce point. */
  ghost function Challenge(P: Params, R: int, y: int): nat
    requires ValidParams(P)
  {
    P.hash(Lift(R, P.s.q), PublicKey(P, y), P.message)
  }

  function LocalGamma(r: int, k: nat, x: int, q: int): int
    requires q > 0
  {
    Mod(r + Mod(k, q) * x, q)
  }

  ghost function OwnLocalSig(P: Params, me: Signer, p: nat, hist: seq<seq<Msg>>): Msg
    requires ValidParams(P)
  {
    var k := Challenge(P, NonceSum(P, hist), me.key.y);
    LocalSig(LocalGamma(OwnEphShare(P, me, p, hist), k, me.key.x, P.s.q), Mod(k, P.s.q))
  }

  function EphPayload(P: Params, me: Signer, to: nat, hist: seq<seq<Msg>>): Msg
    requires P.s.q > 0
  {
    var rs := Rs(View(hist, 1));
    EphSealed(
      if 1 <= to <= |rs| then
        Seal(Keygen.EncKeys(P.s, Keygen.Secret(me.eph), rs)[to - 1], Share(me.eph, PointAt(PointsOf(View(hist, 0)), to), P.s.q))
      else None)
  }

  /** The message of signer `from` in round r. */
  ghost function Payload(P: Params, signers: seq<Signer>, from: nat, to: nat, r: nat, hist: seq<seq<Msg>>): Msg
    requires ValidParams(P)
  {
    if !(1 <= from <= |signers|) then SignerIndex(0) else
    var me := signers[from - 1];
    match r
    case 0 => SignerIndex(if me.key.id == 0 then 0 else me.key.id - 1)
    case 1 => EphOpening(Mod(Keygen.Secret(me.eph), P.s.q))
    case 2 => EphScheme(Commit(me.eph, P.s.q))
    case 3 => EphPayload(P, me, to, hist)
    case 4 => EphShared(NonceSum(P, hist), OwnEphShare(P, me, from, hist))
    case _ => OwnLocalSig(P, me, from, hist)
  }

  datatype Signature = Signature(R: Point, s: int)

  /** Interpolating the first t + 1 local signatures. */
  ghost function Sigma(points: seq<int>, gammas: seq<int>, t: nat, q: int): int
    requires q > 0
  {
    if IsPrime(q) && t + 1 <= |points| == |gammas| && Units(points[..t + 1], q)
    then Mod(Reconstruct(points[..t + 1], points[..t + 1], gammas[..t + 1], q), q) else 0
  }

  /** `update_signature`: f times the challenge goes on top. */
  class SignatureObject {
    var R: Point
    var s: int

    constructor (R: Point, s: int)
      ensures this.R == R && this.s == s
    {
      this.R, this.s := R, s;
    }

    method Update(publicKey: Point, message: nat, f: int, hash: (Point, Point, nat) -> nat, q: int)
      requires q > 0
      modifies this
      ensures R == old(R) && s == Updated(old(s), f, hash(old(R), publicKey, message), q)
    {
      var addToSigma := Mod(hash(R, publicKey, message), q);
      s := Mod(s + f * addToSigma, q);
    }
  }

  function Updated(s: int, f: int, k: nat, q: int): int
    requires q > 0
  {
    Mod(s + f * Mod(k, q), q)
  }

  ghost function Output(P: Params, me: Signer, hist: seq<seq<Msg>>): Signature
    requires ValidParams(P)
  {
    var R := NonceSum(P, hist);
    var s := Sigma(PointsOf(View(hist, 0)), LocalGammas(View(hist, 5)), P.t, P.s.q);
    Signature(Lift(R, P.s.q), if P.atPath then Updated(s, P.f, Challenge(P, R, me.key.y), P.s.q) else s)
  }

  /** The group equation of section 5.1.7 of RFC 8032, with the cofactor. */
  predicate Verifies(sig: Signature, y: Point, k: nat, l: int)
    requires l > 0
  {
    && 0 <= sig.s < l
    && Mul(8, Lift(sig.s, l), l) == Add(Mul(8, sig.R, l), Mul(8, Mul(k, y, l), l), l)
  }

  /** The library's check: no cofactor, the challenge reduced. */
  predicate LibraryVerifies(sig: Signature, y: Point, k: nat, l: int)
    requires l > 0
  {
    Lift(sig.s, l) == Add(sig.R, Mul(Mod(k, l), y, l), l)
  }

  // ---- the assertions of one signer ----

  /** The challenge that comes with the first local signature. */
  function FirstChallenge(view: seq<Msg>): int {
    if view != [] && view[0].LocalSig? then view[0].k else 0
  }

  /** What the library recomputes from all commitments for a local signature at a point. */
  function LocalCheck(ephs: seq<seq<int>>, keys: seq<seq<int>>, len: nat, k: int, point: int, q: int): int
    requires q > 0 && ephs != [] && keys != [] && SameLength(ephs, len) && SameLength(keys, len)
  {
    var e, c := SumCommitments(ephs, len, q), SumCommitments(keys, len, q);
    PointCommitment(seq(len, i requires 0 <= i < len => Mod(e[i] + Mod(k * c[i], q), q)), point, q)
  }

  /** `verify_local_sigs`: every local signature is the value the commitments have at its signer's point. */
  ghost predicate LocalSigsOk(ephs: seq<seq<int>>, keys: seq<seq<int>>, len: nat, k: int, points: seq<int>, gammas: seq<int>, q: int)
    requires q > 0
  {
    && ephs != [] && keys != [] && SameLength(ephs, len) && SameLength(keys, len) && |points| == |gammas|
    && forall i :: 0 <= i < |points| ==> LocalCheck(ephs, keys, len, k, points[i], q) == Mod(gammas[i], q)
  }

  /** The shares of round 3 open and fit the commitments of round 2. */
  predicate EphSharesOk(s: Suite, eph: Poly, p: nat, point: int, rs: seq<int>, packs: seq<Option<Aead>>, schemes: seq<seq<int>>)
    requires s.q > 0
  {
    && Keygen.PacksOpen(s, Keygen.Secret(eph), p, rs, packs) && |schemes| == |rs|
    && forall i :: 0 <= i < |rs| ==> EphShareFits(schemes[i], rs[i], point, EphShares(s, eph, p, point, rs, packs)[i], s.q)
  }

  predicate EphShareFits(scheme: seq<int>, R: int, point: int, share: int, q: int)
    requires q > 0
  {
    scheme != [] && scheme[0] == R && PointCommitment(scheme, point, q) == share
  }

  /** The assertions signer p goes through on the vectors gathered so far: the number of signers,
      the shares of the ephemeral rounds, and at the end the local signatures and the
      library's check of the whole. */
  ghost predicate Checks(P: Params, me: Signer, p: nat, hist: seq<seq<Msg>>)
    requires ValidParams(P)
  {
    match |hist|
    case 1 => |View(hist, 0)| == P.t + 1 && 1 <= p <= |View(hist, 0)|
    case 4 => EphSharesOk(P.s, me.eph, p, PointAt(PointsOf(View(hist, 0)), p), Rs(View(hist, 1)), EphPacks(View(hist, 3)),
        EphSchemes(View(hist, 2)))
    case 6 =>
      && LocalSigsOk(EphSchemes(View(hist, 2)), me.key.schemes, P.t + 1, FirstChallenge(View(hist, 5)), PointsOf(View(hist, 0)),
           LocalGammas(View(hist, 5)), P.s.q)
      && SignatureOk(P, me, Output(P, me, hist))
    case _ => true
  }

  ghost predicate SignatureOk(P: Params, me: Signer, sig: Signature)
    requires ValidParams(P)
  {
    LibraryVerifies(sig, PublicKey(P, me.key.y), P.hash(sig.R, PublicKey(P, me.key.y), P.message), P.s.q)
  }

  /** Before it writes to a party in the ephemeral round 3 it encrypts under the key shared with it. */
  predicate Seals(P: Params, me: Signer, to: nat, hist: seq<seq<Msg>>)
    requires P.s.q > 0
  {
    |hist| == 3 ==> Keygen.KeyUsable(P.s, Keygen.Secret(me.eph), to, Rs(View(hist, 1)))
  }

  ghost function Session(P: Params, signers: seq<Signer>, uuid: string): Protocol<Msg>
    requires ValidParams(P)
  {
    Protocol(|signers|, uuid, ROUNDS, (from, to, r, hist) => Payload(P, signers, from, to, r, hist),
      (p, hist) => 1 <= p <= |signers| ==> Checks(P, signers[p - 1], p, hist),
      (p, to, hist) => 1 <= p <= |signers| ==> Seals(P, signers[p - 1], to, hist))
  }
}
