/** Distributed key generation. Points are exponents of the generator. */
module Keygen {
  import opened Wrappers
  import opened Modular
  import opened Sums
  import opened Shamir
  import opened Bytes
  import opened PairwiseKeys
  import opened Reassembly
  import opened StoreKeys
  import opened RoundExchange
  import opened RoundProgress

  /** What a party draws: its sharing polynomial (the secret first), its part of the chain code,
      and the name of its Paillier key. */
  datatype Dealer = Dealer(poly: Poly, chain: int, paillier: nat)

  datatype Msg =
    | ChainProof(pk: int)
    | ChainShare(c: int)
    | Commitment(com: int, ek: nat)
    | Opening(y: int)
    | Encrypted(pack: Option<Aead>)
    | Scheme(commitments: seq<int>)
    | KeyProof(pk: int)

  const ROUNDS := [
    Round("round0_chain_code", ToAll), Round("round1_chain_code", ToAll),
    Round("round1", ToAll), Round("round2", ToAll), Round("round3", ToEach), Round("round4", ToAll), Round("round5", ToAll)]

  /** What key generation saves: one's own Paillier key, the common chain code, one's share and
      number, and of everybody the commitments and Paillier keys; and the public key. */
  datatype KeyFile = KeyFile(ek: nat, chainCode: int, x: int, id: nat, schemes: seq<seq<int>>, eks: seq<nat>, y: int)

  // ---- what one party computes from what it gathered ----

  function Chains(view: seq<Msg>): seq<int> {
    seq(|view|, i requires 0 <= i < |view| => if view[i].ChainShare? then view[i].c else 0)
  }

  function Eks(view: seq<Msg>): seq<nat> {
    seq(|view|, i requires 0 <= i < |view| => if view[i].Commitment? then view[i].ek else 0)
  }

  /** What the commitments of round 1 commit to. */
  function Coms(view: seq<Msg>): seq<int> {
    seq(|view|, i requires 0 <= i < |view| => if view[i].Commitment? then view[i].com else 0)
  }

  function Ys(view: seq<Msg>): seq<int> {
    seq(|view|, i requires 0 <= i < |view| => if view[i].Opening? then view[i].y else 0)
  }

  function Packs(view: seq<Msg>): seq<Option<Aead>> {
    seq(|view|, i requires 0 <= i < |view| => if view[i].Encrypted? then view[i].pack else None)
  }

  function Schemes(view: seq<Msg>): seq<seq<int>> {
    seq(|view|, i requires 0 <= i < |view| => if view[i].Scheme? then view[i].commitments else [])
  }

  function Secret(poly: Poly): int {
    if poly == [] then 0 else poly[0]
  }

  /** The keys shared with the parties of the given points. */
  function EncKeys(s: Suite, u: int, ys: seq<int>): seq<seq<byte>>
    requires s.q > 0
  {
    seq(|ys|, j requires 0 <= j < |ys| => KeyBytes(s, PairPoint(ys[j], u, s.q)))
  }

  /** The shares dealt to party p, its own among them. */
  function PartyShares(s: Suite, poly: Poly, p: nat, ys: seq<int>, packs: seq<Option<Aead>>): seq<int>
    requires s.q > 0 && |packs| == |ys|
  {
    seq(|ys|, i requires 0 <= i < |ys| =>
      if i + 1 == p then Share(poly, p, s.q) else Open(EncKeys(s, Secret(poly), ys)[i], packs[i], s.q))
  }

  function KeyShare(s: Suite, poly: Poly, p: nat, hist: seq<seq<Msg>>): int
    requires s.q > 0
  {
    var ys, packs := Ys(View(hist, 3)), Packs(View(hist, 4));
    if |ys| == |packs| then Mod(SeqSum(PartyShares(s, poly, p, ys, packs)), s.q) else 0
  }

  /** The share for party `to`, under the key shared with it. */
  function ShareSealed(s: Suite, poly: Poly, to: nat, ys: seq<int>): Option<Aead>
    requires s.q > 0
  {
    if 1 <= to <= |ys| then Seal(EncKeys(s, Secret(poly), ys)[to - 1], Share(poly, to, s.q)) else None
  }

  /** The message of party `from` in round r. */
  function Payload(s: Suite, dealers: seq<Dealer>, from: nat, to: nat, r: nat, hist: seq<seq<Msg>>): Msg
    requires s.q > 0
  {
    var d := if 1 <= from <= |dealers| then dealers[from - 1] else Dealer([], 0, 0);
    match r
    case 0 => ChainProof(Mod(d.chain, s.q))
    case 1 => ChainShare(Mod(d.chain, s.q))
    case 2 => Commitment(Mod(Secret(d.poly), s.q), d.paillier)
    case 3 => Opening(Mod(Secret(d.poly), s.q))
    case 4 =>
      Encrypted(ShareSealed(s, d.poly, to, Ys(View(hist, 3))))
    case 5 => Scheme(Commit(d.poly, s.q))
    case _ => KeyProof(KeyShare(s, d.poly, from, hist))
  }

  function Output(s: Suite, d: Dealer, p: nat, hist: seq<seq<Msg>>): KeyFile
    requires s.q > 0
  {
    KeyFile(d.paillier, Mod(SeqSum(Chains(View(hist, 1))), s.q), KeyShare(s, d.poly, p, hist), p,
      Schemes(View(hist, 5)), Eks(View(hist, 2)), Mod(SeqSum(Ys(View(hist, 3))), s.q))
  }

  // ---- the assertions of one party ----

  /** The key for party `to` has the length the cipher wants. */
  predicate KeyUsable(s: Suite, u: int, to: nat, ys: seq<int>)
    requires s.q > 0
  {
    1 <= to <= |ys| ==> |EncKeys(s, u, ys)[to - 1]| == KEY_BYTES
  }

  /** Every other party's pack opens under the key shared with it. */
  predicate PacksOpen(s: Suite, u: int, p: nat, ys: seq<int>, packs: seq<Option<Aead>>)
    requires s.q > 0
  {
    |packs| == |ys| && forall i :: 0 <= i < |ys| && i + 1 != p ==> Decrypt(EncKeys(s, u, ys)[i], packs[i]).Some?
  }

  /** A share is the commitments' value at one's point, and they commit to the point sent. */
  predicate ShareFits(scheme: seq<int>, y: int, p: nat, share: int, q: int)
    requires q > 0
  {
    scheme != [] && scheme[0] == y && PointCommitment(scheme, p, q) == share
  }

  predicate SharesFit(s: Suite, poly: Poly, p: nat, ys: seq<int>, packs: seq<Option<Aead>>, schemes: seq<seq<int>>)
    requires s.q > 0
  {
    && |schemes| == |packs| == |ys|
    && forall i :: 0 <= i < |ys| ==> ShareFits(schemes[i], ys[i], p, PartyShares(s, poly, p, ys, packs)[i], s.q)
  }

  /** The assertions party p goes through on the vectors gathered so far: the openings of round 2,
      the packs of round 3, the share check of round 4. */
  predicate Checks(s: Suite, d: Dealer, p: nat, hist: seq<seq<Msg>>)
    requires s.q > 0
  {
    match |hist|
    case 4 => Coms(View(hist, 2)) == Ys(View(hist, 3))
    case 5 => PacksOpen(s, Secret(d.poly), p, Ys(View(hist, 3)), Packs(View(hist, 4)))
    case 6 => SharesFit(s, d.poly, p, Ys(View(hist, 3)), Packs(View(hist, 4)), Schemes(View(hist, 5)))
    case _ => true
  }

  /** Before it writes to a party in round 3 it encrypts under the key shared with that party. */
  predicate Seals(s: Suite, d: Dealer, to: nat, hist: seq<seq<Msg>>)
    requires s.q > 0
  {
    |hist| == 4 ==> KeyUsable(s, Secret(d.poly), to, Ys(View(hist, 3)))
  }

  function Session(s: Suite, dealers: seq<Dealer>, uuid: string): Protocol<Msg>
    requires s.q > 0
  {
    Protocol(|dealers|, uuid, ROUNDS, (from, to, r, hist) => Payload(s, dealers, from, to, r, hist),
      (p, hist) => 1 <= p <= |dealers| ==> Checks(s, dealers[p - 1], p, hist),
      (p, to, hist) => 1 <= p <= |dealers| ==> Seals(s, dealers[p - 1], to, hist))
  }

  // ---- the loops ----

  /** Round 2: the points of all parties, and the keys of the others under the counter j. */
  method GatherPoints(s: Suite, u: int, p: nat, n: nat, own: int, answers: seq<int>)
    returns (pointVec: seq<int>, encKeys: seq<seq<byte>>)
    requires s.q > 0 && 1 <= p <= n == |answers| + 1
    ensures pointVec == InsertAt(answers, p - 1, own)
    ensures encKeys == RemoveAt(EncKeys(s, u, pointVec), p - 1)
    ensures ValidSuite(s) ==>
      |encKeys| == n - 1 && forall j :: 0 <= j < n - 1 ==> Value(encKeys[j]) == s.xCoord(Mod(answers[j] * u, s.q))
  {
    var j := 0;
    pointVec, encKeys := [], [];
    for i := 1 to n + 1
      invariant j == if p < i then i - 2 else i - 1
      invariant pointVec == if p < i then answers[..p - 1] + [own] + answers[p - 1..j] else answers[..j]
      invariant encKeys == EncKeys(s, u, answers[..j])
    {
      if i == p {
        pointVec := pointVec + [own];
      } else {
        pointVec := pointVec + [answers[j]];
        encKeys := encKeys + [KeyBytes(s, PairPoint(answers[j], u, s.q))];
        assert answers[..j + 1] == answers[..j] + [answers[j]];
        j := j + 1;
      }
    }
    assert answers[..j] == answers;
    EncKeysSkipOwn(s, u, answers, p, own);
    if ValidSuite(s) {
      EncKeyValues(s, u, answers);
    }
  }

  /** The key shared with the party of a point is the x-coordinate of that point times one's secret. */
  lemma EncKeyValues(s: Suite, u: int, ys: seq<int>)
    requires ValidSuite(s)
    ensures forall j :: 0 <= j < |ys| ==> Value(EncKeys(s, u, ys)[j]) == s.xCoord(Mod(ys[j] * u, s.q))
  {
    forall j | 0 <= j < |ys| ensures Value(EncKeys(s, u, ys)[j]) == s.xCoord(Mod(ys[j] * u, s.q)) {
      KeyValue(s, PairPoint(ys[j], u, s.q));
    }
  }

  lemma EncKeysSkipOwn(s: Suite, u: int, answers: seq<int>, p: nat, own: int)
    requires s.q > 0 && 1 <= p <= |answers| + 1
    ensures RemoveAt(EncKeys(s, u, InsertAt(answers, p - 1, own)), p - 1) == EncKeys(s, u, answers)
  {
  }

  /** Adding the points up, from the first. */
  method SumPoints(pointVec: seq<int>, q: int) returns (ySum: int)
    requires pointVec != [] && q > 0 && forall i :: 0 <= i < |pointVec| ==> 0 <= pointVec[i] < q
    ensures ySum == Mod(SeqSum(pointVec), q)
  {
    ySum := pointVec[0];
    assert pointVec[..1] == [pointVec[0]];
    assert SeqSum([pointVec[0]]) == pointVec[0] by { assert [pointVec[0]][..0] == []; }
    ModSmall(ySum, q);
    for i := 1 to |pointVec|
      invariant ySum == Mod(SeqSum(pointVec[..i]), q)
    {
      assert pointVec[..i + 1][..i] == pointVec[..i];
      ReduceAdd(SeqSum(pointVec[..i]), pointVec[i], q);
      ySum := Mod(ySum + pointVec[i], q);
    }
    assert pointVec[..|pointVec|] == pointVec;
  }

  lemma ReduceAdd(a: int, b: int, q: int)
    requires q > 0
    ensures Mod(Mod(a, q) + b, q) == Mod(a + b, q)
  {
    CongMod(a, q);
    CongRefl(b, q);
    CongAdd(Mod(a, q), a, b, b, q);
    CongIsModEq(Mod(a, q) + b, a + b, q);
  }

  /** Round 3, outgoing: the recipient and the sealed share, for everybody else in order. */
  method SealShares(encKeys: seq<seq<byte>>, secretShares: seq<nat>, p: nat, n: nat)
    returns (sent: seq<(nat, Option<Aead>)>)
    requires 1 <= p <= n == |secretShares| && |encKeys| == n - 1
    ensures |sent| == n - 1
    ensures forall i :: 1 <= i <= n && i != p ==>
      sent[SkipOwn(p, i)] == (i, Seal(encKeys[SkipOwn(p, i)], secretShares[i - 1]))
  {
    var j, k := 0, 0;
    sent := [];
    for i := 1 to n + 1
      invariant k == i - 1
      invariant j == |sent| == if p < i then i - 2 else i - 1
      invariant forall m :: 1 <= m < i && m != p ==>
        sent[SkipOwn(p, m)] == (m, Seal(encKeys[SkipOwn(p, m)], secretShares[m - 1]))
    {
      if i != p {
        sent := sent + [(i, Seal(encKeys[j], secretShares[k]))];
        j := j + 1;
      }
      k := k + 1;
    }
  }

  /** Round 3, incoming: one's own share and what the others' packs open to. */
  method OpenShares(s: Suite, poly: Poly, p: nat, ys: seq<int>, encKeys: seq<seq<byte>>, answers: seq<Option<Aead>>,
    ghost own: Option<Aead>)
    returns (partyShares: seq<int>)
    requires s.q > 0 && 1 <= p <= |ys| == |answers| + 1
    requires encKeys == RemoveAt(EncKeys(s, Secret(poly), ys), p - 1)
    ensures partyShares == PartyShares(s, poly, p, ys, InsertAt(answers, p - 1, own))
  {
    ghost var all := PartyShares(s, poly, p, ys, InsertAt(answers, p - 1, own));
    var j := 0;
    partyShares := [];
    for i := 1 to |ys| + 1
      invariant j == if p < i then i - 2 else i - 1
      invariant partyShares == all[..i - 1]
    {
      if i == p {
        assert all[i - 1] == Share(poly, p, s.q);
        partyShares := partyShares + [Share(poly, p, s.q)];
      } else {
        OpenedShare(s, poly, p, ys, answers, own, i);
        partyShares := partyShares + [Open(encKeys[j], answers[j], s.q)];
        j := j + 1;
      }
      assert all[..i] == all[..i - 1] + [all[i - 1]];
    }
    assert all[..|ys|] == all;
  }

  lemma OpenedShare(s: Suite, poly: Poly, p: nat, ys: seq<int>, answers: seq<Option<Aead>>, own: Option<Aead>, i: nat)
    requires s.q > 0 && 1 <= p <= |ys| == |answers| + 1 && 1 <= i <= |ys| && i != p
    ensures var j := SkipOwn(p, i);
      PartyShares(s, poly, p, ys, InsertAt(answers, p - 1, own))[i - 1]
        == Open(RemoveAt(EncKeys(s, Secret(poly), ys), p - 1)[j], answers[j], s.q)
  {
    RemoveAtSkips(EncKeys(s, Secret(poly), ys), p, i);
    assert InsertAt(answers, p - 1, own)[i - 1] == answers[SkipOwn(p, i)];
  }

  /** What the loops seal for a party is the protocol's message to it. */
  lemma SealedIsPayload(s: Suite, dealers: seq<Dealer>, p: nat, to: nat, hist: seq<seq<Msg>>)
    requires s.q > 0 && 1 <= p <= |dealers| && to != p
    requires var ys := Ys(View(hist, 3)); 1 <= p <= |ys| && 1 <= to <= |ys|
    ensures var ys, d := Ys(View(hist, 3)), dealers[p - 1];
      && SkipOwn(p, to) < |ys| - 1
      && Payload(s, dealers, p, to, 4, hist)
           == Encrypted(Seal(RemoveAt(EncKeys(s, Secret(d.poly), ys), p - 1)[SkipOwn(p, to)], Share(d.poly, to, s.q)))
  {
    RemoveAtSkips(EncKeys(s, Secret(dealers[p - 1].poly), Ys(View(hist, 3))), p, to);
  }

  /** What the loops open adds up to the protocol's share, whatever stands at one's own place. */
  lemma OpenedIsKeyShare(s: Suite, poly: Poly, p: nat, ys: seq<int>, packs: seq<Option<Aead>>, own: Option<Aead>)
    requires s.q > 0 && 1 <= p <= |ys| == |packs|
    ensures PartyShares(s, poly, p, ys, packs) == PartyShares(s, poly, p, ys, InsertAt(RemoveAt(packs, p - 1), p - 1, own))
  {
  }

  // ---- honest runs ----

  /** Everybody shares a polynomial of the same length, at least its secret. */
  ghost predicate HonestDealers(s: Suite, dealers: seq<Dealer>, len: nat) {
    ValidSuite(s) && len >= 1 && forall i :: 0 <= i < |dealers| ==> |dealers[i].poly| == len
  }

  function Polys(dealers: seq<Dealer>): (fs: seq<Poly>) {
    seq(|dealers|, i requires 0 <= i < |dealers| => dealers[i].poly)
  }

  /** The polynomial nobody knows: its value at zero is the private key. */
  function Joint(dealers: seq<Dealer>, len: nat): Poly
    requires SameLength(Polys(dealers), len)
  {
    SumPoly(Polys(dealers), len)
  }

  /** The key between dealers i and j has the length the cipher wants. */
  ghost predicate KeyFits(s: Suite, dealers: seq<Dealer>, i: nat, j: nat)
    requires s.q > 0 && i < |dealers| && j < |dealers|
  {
    |KeyBytes(s, PairPoint(Mod(Secret(dealers[i].poly), s.q), Secret(dealers[j].poly), s.q))| == KEY_BYTES
  }

  /** All keys for sending shares have the length the cipher wants. */
  ghost predicate KeysFit(s: Suite, dealers: seq<Dealer>)
    requires s.q > 0
  {
    forall i, j :: 0 <= i < |dealers| && 0 <= j < |dealers| && i != j ==> KeyFits(s, dealers, i, j)
  }

  function ExpectedYs(s: Suite, dealers: seq<Dealer>): (ys: seq<int>)
    requires s.q > 0
  {
    seq(|dealers|, i requires 0 <= i < |dealers| => Mod(Secret(dealers[i].poly), s.q))
  }

  function ExpectedSchemes(s: Suite, dealers: seq<Dealer>): (cs: seq<seq<int>>)
    requires s.q > 0
  {
    seq(|dealers|, i requires 0 <= i < |dealers| => Commit(dealers[i].poly, s.q))
  }

  /** What every party should end up with. */
  function Expected(s: Suite, dealers: seq<Dealer>, len: nat, p: nat): KeyFile
    requires s.q > 0 && SameLength(Polys(dealers), len) && 1 <= p <= |dealers|
  {
    KeyFile(
      dealers[p - 1].paillier,
      Mod(SeqSum(seq(|dealers|, i requires 0 <= i < |dealers| => Mod(dealers[i].chain, s.q))), s.q),
      Share(Joint(dealers, len), p, s.q),
      p,
      ExpectedSchemes(s, dealers),
      seq(|dealers|, i requires 0 <= i < |dealers| => dealers[i].paillier),
      Mod(SeqSum(ExpectedYs(s, dealers)), s.q))
  }

  lemma {:induction false} SyncComs(s: Suite, dealers: seq<Dealer>, uuid: string, p: nat)
    requires s.q > 0
    ensures Coms(SyncView(Session(s, dealers, uuid), p, 2)) == ExpectedYs(s, dealers)
  {
  }

  lemma {:induction false} SyncYs(s: Suite, dealers: seq<Dealer>, uuid: string, p: nat)
    requires s.q > 0
    ensures Ys(SyncView(Session(s, dealers, uuid), p, 3)) == ExpectedYs(s, dealers)
  {
  }

  /** In the lock-step run what i sends p is its share for p, sealed under their common key. */
  lemma {:induction false} SyncPack(s: Suite, dealers: seq<Dealer>, uuid: string, p: nat, i: nat)
    requires s.q > 0 && 1 <= p <= |dealers| && 1 <= i <= |dealers|
    ensures Packs(SyncView(Session(s, dealers, uuid), p, 4))[i - 1]
      == Seal(KeyBytes(s, PairPoint(Mod(Secret(dealers[p - 1].poly), s.q), Secret(dealers[i - 1].poly), s.q)),
           Share(dealers[i - 1].poly, p, s.q))
  {
    var pr := Session(s, dealers, uuid);
    HistView(pr, i, 4, 3);
    SyncYs(s, dealers, uuid, i);
    PackSent(s, dealers, uuid, p, i - 1);
    SealedFor(s, dealers, dealers[i - 1].poly, p);
  }

  lemma SealedFor(s: Suite, dealers: seq<Dealer>, poly: Poly, p: nat)
    requires s.q > 0 && 1 <= p <= |dealers|
    ensures ShareSealed(s, poly, p, ExpectedYs(s, dealers))
      == Seal(KeyBytes(s, PairPoint(Mod(Secret(dealers[p - 1].poly), s.q), Secret(poly), s.q)), Share(poly, p, s.q))
  {
  }

  lemma {:induction false} PackSent(s: Suite, dealers: seq<Dealer>, uuid: string, p: nat, i: nat)
    requires s.q > 0 && i < |dealers|
    ensures var pr := Session(s, dealers, uuid);
      Packs(SyncView(pr, p, 4))[i] == ShareSealed(s, dealers[i].poly, p, Ys(View(SyncHist(pr, i + 1, 4), 3)))
  {
    SentIs(s, dealers, uuid, p, i, 4);
  }

  /** What a party reads in a round is what the others' message function says. */
  lemma {:induction false} SentIs(s: Suite, dealers: seq<Dealer>, uuid: string, p: nat, i: nat, r: nat)
    requires s.q > 0 && i < |dealers| && r < |ROUNDS|
    ensures var pr := Session(s, dealers, uuid);
      SyncView(pr, p, r)[i] == Payload(s, dealers, i + 1, if ROUNDS[r].kind.ToAll? then 0 else p, r, SyncHist(pr, i + 1, r))
  {
    SyncViewAt(Session(s, dealers, uuid), p, r, i);
  }

  /** What dealer i sealed for p opens under p's key for i, to the share dealt. */
  lemma PackOpens(s: Suite, dealers: seq<Dealer>, p: nat, i: nat, pack: Option<Aead>)
    requires s.q > 0 && KeysFit(s, dealers) && 1 <= p <= |dealers| && 0 <= i < |dealers| && i + 1 != p
    requires pack == Seal(KeyBytes(s, PairPoint(Mod(Secret(dealers[p - 1].poly), s.q), Secret(dealers[i].poly), s.q)),
      Share(dealers[i].poly, p, s.q))
    ensures var key := EncKeys(s, Secret(dealers[p - 1].poly), ExpectedYs(s, dealers))[i];
      Decrypt(key, pack).Some? && Open(key, pack, s.q) == Share(dealers[i].poly, p, s.q)
  {
    assert KeyFits(s, dealers, p - 1, i);
    PairPointSymmetric(Secret(dealers[i].poly), Secret(dealers[p - 1].poly), s.q);
    ShareArrives(EncKeys(s, Secret(dealers[p - 1].poly), ExpectedYs(s, dealers))[i], Share(dealers[i].poly, p, s.q), s.q);
  }

  /** All shares of party p, opened. */
  lemma {:induction false} SyncPartyShares(s: Suite, dealers: seq<Dealer>, uuid: string, p: nat)
    requires s.q > 0 && KeysFit(s, dealers) && 1 <= p <= |dealers|
    ensures var packs := Packs(SyncView(Session(s, dealers, uuid), p, 4));
      var shares := PartyShares(s, dealers[p - 1].poly, p, ExpectedYs(s, dealers), packs);
      forall i :: 0 <= i < |dealers| ==> shares[i] == Share(dealers[i].poly, p, s.q)
  {
    var packs := Packs(SyncView(Session(s, dealers, uuid), p, 4));
    var shares := PartyShares(s, dealers[p - 1].poly, p, ExpectedYs(s, dealers), packs);
    forall i | 0 <= i < |dealers| ensures shares[i] == Share(dealers[i].poly, p, s.q) {
      if i + 1 != p {
        SyncPack(s, dealers, uuid, p, i + 1);
        PackOpens(s, dealers, p, i, packs[i]);
      }
    }
  }

  /** Adding the shares gives the joint share. */
  lemma {:induction false} SyncKeyShare(s: Suite, dealers: seq<Dealer>, len: nat, uuid: string, p: nat, r: nat)
    requires HonestDealers(s, dealers, len) && KeysFit(s, dealers) && 1 <= p <= |dealers| && 5 <= r <= |ROUNDS|
    ensures KeyShare(s, dealers[p - 1].poly, p, SyncHist(Session(s, dealers, uuid), p, r)) == Share(Joint(dealers, len), p, s.q)
  {
    var pr := Session(s, dealers, uuid);
    HistView(pr, p, r, 3);
    HistView(pr, p, r, 4);
    SyncYs(s, dealers, uuid, p);
    SyncPartyShares(s, dealers, uuid, p);
    SharesAddUp(s, dealers, len, p, PartyShares(s, dealers[p - 1].poly, p, ExpectedYs(s, dealers), Packs(SyncView(pr, p, 4))));
  }

  lemma {:induction false} SharesAddUp(s: Suite, dealers: seq<Dealer>, len: nat, p: nat, shares: seq<int>)
    requires s.q > 0 && SameLength(Polys(dealers), len) && |shares| == |dealers|
    requires forall i :: 0 <= i < |dealers| ==> shares[i] == Share(dealers[i].poly, p, s.q)
    ensures Mod(SeqSum(shares), s.q) == Share(Joint(dealers, len), p, s.q)
  {
    var fs := Polys(dealers);
    EvalSum(fs, len, p);
    forall i | 0 <= i < |shares| ensures Cong(shares[i], Evals(fs, p)[i], s.q) {
      CongMod(Eval(fs[i], p), s.q);
    }
    SeqSumCong(shares, Evals(fs, p), s.q);
    CongIsModEq(SeqSum(shares), SeqSum(Evals(fs, p)), s.q);
  }

  // ---- who halts ----

  /** Dealer p can encrypt for party `to` exactly when the key they share fits. */
  lemma {:induction false} SealsIff(s: Suite, dealers: seq<Dealer>, uuid: string, p: nat, to: nat)
    requires s.q > 0 && 1 <= p <= |dealers| && 1 <= to <= |dealers|
    ensures var pr := Session(s, dealers, uuid);
      pr.fits(p, to, SyncHist(pr, p, 4)) <==> KeyFits(s, dealers, to - 1, p - 1)
  {
    HistView(Session(s, dealers, uuid), p, 4, 3);
    SyncYs(s, dealers, uuid, p);
  }

  lemma {:induction false} OpeningsPass(s: Suite, dealers: seq<Dealer>, uuid: string, p: nat)
    requires s.q > 0 && 1 <= p <= |dealers|
    ensures var pr := Session(s, dealers, uuid); pr.checks(p, SyncHist(pr, p, 4))
  {
    HistView(Session(s, dealers, uuid), p, 4, 2);
    HistView(Session(s, dealers, uuid), p, 4, 3);
    SyncYs(s, dealers, uuid, p);
    SyncComs(s, dealers, uuid, p);
  }

  /** Dealer j gets through its messages of round 3 exactly when the keys it shares with the others
      fit. */
  lemma PassesKeys(s: Suite, dealers: seq<Dealer>, uuid: string, j: nat)
    requires s.q > 0 && j < |dealers|
    ensures Passes(Session(s, dealers, uuid), j + 1, 4) <==>
      forall i :: 0 <= i < |dealers| && i != j ==> KeyFits(s, dealers, i, j)
  {
    var pr, p := Session(s, dealers, uuid), j + 1;
    OpeningsPass(s, dealers, uuid, p);
    if Prepares(pr, p, 4, pr.n + 1) {
      forall i | 0 <= i < |dealers| && i != j ensures KeyFits(s, dealers, i, j) {
        SealsIff(s, dealers, uuid, p, i + 1);
      }
    }
    if forall i :: 0 <= i < |dealers| && i != j ==> KeyFits(s, dealers, i, j) {
      forall to | 1 <= to <= |dealers| && to != p ensures pr.fits(p, to, SyncHist(pr, p, 4)) {
        SealsIff(s, dealers, uuid, p, to);
      }
    }
  }

  lemma PassesPacks(s: Suite, dealers: seq<Dealer>, uuid: string, p: nat)
    requires s.q > 0 && KeysFit(s, dealers) && 1 <= p <= |dealers|
    ensures Passes(Session(s, dealers, uuid), p, 5)
  {
    var pr, u := Session(s, dealers, uuid), Secret(dealers[p - 1].poly);
    HistView(pr, p, 5, 3);
    HistView(pr, p, 5, 4);
    SyncYs(s, dealers, uuid, p);
    var packs := Packs(SyncView(pr, p, 4));
    forall i | 0 <= i < |dealers| && i + 1 != p
      ensures Decrypt(EncKeys(s, u, ExpectedYs(s, dealers))[i], packs[i]).Some?
    {
      SyncPack(s, dealers, uuid, p, i + 1);
      PackOpens(s, dealers, p, i, packs[i]);
    }
  }

  lemma PassesShares(s: Suite, dealers: seq<Dealer>, len: nat, uuid: string, p: nat)
    requires HonestDealers(s, dealers, len) && KeysFit(s, dealers) && 1 <= p <= |dealers|
    ensures Passes(Session(s, dealers, uuid), p, 6)
  {
    var pr := Session(s, dealers, uuid);
    HistView(pr, p, 6, 3);
    HistView(pr, p, 6, 4);
    HistView(pr, p, 6, 5);
    SyncYs(s, dealers, uuid, p);
    SyncVectors(s, dealers, uuid, p);
    SyncPartyShares(s, dealers, uuid, p);
    HonestSharesFit(s, dealers, len, p, Packs(SyncView(pr, p, 4)));
  }

  lemma HonestSharesFit(s: Suite, dealers: seq<Dealer>, len: nat, p: nat, packs: seq<Option<Aead>>)
    requires HonestDealers(s, dealers, len) && 1 <= p <= |dealers| == |packs|
    requires forall i :: 0 <= i < |dealers| ==>
      PartyShares(s, dealers[p - 1].poly, p, ExpectedYs(s, dealers), packs)[i] == Share(dealers[i].poly, p, s.q)
    ensures SharesFit(s, dealers[p - 1].poly, p, ExpectedYs(s, dealers), packs, ExpectedSchemes(s, dealers))
  {
    forall i | 0 <= i < |dealers|
      ensures ShareFits(ExpectedSchemes(s, dealers)[i], ExpectedYs(s, dealers)[i], p, Share(dealers[i].poly, p, s.q), s.q)
    {
      FeldmanChecksPass(s, dealers, len, i, p);
    }
  }

  lemma FitPasses(s: Suite, dealers: seq<Dealer>, len: nat, uuid: string, p: nat, r: nat)
    requires HonestDealers(s, dealers, len) && KeysFit(s, dealers) && 1 <= p <= |dealers| && r <= |ROUNDS|
    ensures Passes(Session(s, dealers, uuid), p, r)
  {
    match r
    case 4 => PassesKeys(s, dealers, uuid, p - 1);
    case 5 => PassesPacks(s, dealers, uuid, p);
    case 6 => PassesShares(s, dealers, len, uuid, p);
    case _ =>
  }

  /** No honest dealer ever fails an assertion exactly when all pairwise keys fit. */
  lemma SoundIff(s: Suite, dealers: seq<Dealer>, len: nat, uuid: string)
    requires HonestDealers(s, dealers, len)
    ensures Sound(Session(s, dealers, uuid)) <==> KeysFit(s, dealers)
  {
    var pr := Session(s, dealers, uuid);
    if KeysFit(s, dealers) {
      forall p, r | 1 <= p <= pr.n && 0 <= r <= |ROUNDS| ensures Passes(pr, p, r) {
        FitPasses(s, dealers, len, uuid, p, r);
      }
    } else {
      var i, j :| 0 <= i < |dealers| && 0 <= j < |dealers| && i != j && !KeyFits(s, dealers, i, j);
      PassesKeys(s, dealers, uuid, j);
      assert !Passes(pr, j + 1, 4);
    }
  }

  /** After these events dealer p has panicked. */
  ghost predicate Panicked(s: Suite, dealers: seq<Dealer>, uuid: string, store: map<string, Msg>, events: seq<Event<Msg>>, p: nat)
    requires s.q > 0
  {
    var st := Run(Session(s, dealers, uuid), store, events);
    1 <= p <= |st.parties| && Halted(Session(s, dealers, uuid), st, p)
  }

  /** Some run of honest dealers makes one of them panic exactly when some pairwise key does not
      have 32 bytes. */
  lemma PanicsIff(s: Suite, dealers: seq<Dealer>, len: nat, uuid: string, store: map<string, Msg>)
    requires HonestDealers(s, dealers, len) && FreshSession(Session(s, dealers, uuid), store)
    ensures (exists events, p :: Panicked(s, dealers, uuid, store, events, p)) <==> !KeysFit(s, dealers)
  {
    var pr := Session(s, dealers, uuid);
    SessionValid(s, dealers, uuid);
    SoundIff(s, dealers, len, uuid);
    if KeysFit(s, dealers) {
      forall events, p: nat ensures !Panicked(s, dealers, uuid, store, events, p) {
        if 1 <= p <= |dealers| {
          NobodyHalts(pr, store, events, p);
        } else {
          RunInv(pr, store, events);
        }
      }
    } else {
      var events, p := SomebodyHalts(pr, store);
      assert Panicked(s, dealers, uuid, store, events, p);
    }
  }

  /** Whoever has come to the end, all pairwise keys fit: everybody got past round 2. */
  lemma {:induction false} FinishedFits(s: Suite, dealers: seq<Dealer>, uuid: string, store: map<string, Msg>, events: seq<Event<Msg>>, p: nat)
    requires s.q > 0 && 1 <= p <= |dealers| && FreshSession(Session(s, dealers, uuid), store)
    requires var st := Run(Session(s, dealers, uuid), store, events);
      |st.parties| == |dealers| && |st.parties[p - 1].done| == |ROUNDS|
    ensures KeysFit(s, dealers)
  {
    forall i, j | 0 <= i < |dealers| && 0 <= j < |dealers| && i != j ensures KeyFits(s, dealers, i, j) {
      PassedFits(s, dealers, uuid, store, events, p, i, j);
    }
  }

  lemma {:induction false} EverybodyPassed(s: Suite, dealers: seq<Dealer>, uuid: string, store: map<string, Msg>, events: seq<Event<Msg>>, p: nat, i: nat)
    requires s.q > 0 && 1 <= p <= |dealers| && 1 <= i <= |dealers| && FreshSession(Session(s, dealers, uuid), store)
    requires var st := Run(Session(s, dealers, uuid), store, events);
      |st.parties| == |dealers| && |st.parties[p - 1].done| == |ROUNDS|
    ensures Passes(Session(s, dealers, uuid), i, 4)
  {
    SessionValid(s, dealers, uuid);
    Barrier(Session(s, dealers, uuid), store, events, p, i);
    HaltsAsInSync(Session(s, dealers, uuid), store, events, i);
  }

  lemma {:induction false} PassedFits(s: Suite, dealers: seq<Dealer>, uuid: string, store: map<string, Msg>, events: seq<Event<Msg>>,
      p: nat, i: nat, j: nat)
    requires s.q > 0 && 1 <= p <= |dealers| && FreshSession(Session(s, dealers, uuid), store)
    requires var st := Run(Session(s, dealers, uuid), store, events);
      |st.parties| == |dealers| && |st.parties[p - 1].done| == |ROUNDS|
    requires i < |dealers| && j < |dealers| && i != j
    ensures KeyFits(s, dealers, i, j)
  {
    EverybodyPassed(s, dealers, uuid, store, events, p, j + 1);
    PassesKeys(s, dealers, uuid, j);
  }

  /** Key generation: in every interleaving and under any expiry, a party that has finished holds
      the sum of all dealers' polynomials at its own number, the sum of all secrets as public key,
      the same chain code and the same vectors as everybody else. */
  lemma {:induction false} KeygenCorrect(s: Suite, dealers: seq<Dealer>, len: nat, uuid: string, store: map<string, Msg>, events: seq<Event<Msg>>, p: nat)
    requires HonestDealers(s, dealers, len) && 1 <= p <= |dealers|
    requires FreshSession(Session(s, dealers, uuid), store)
    ensures SameLength(Polys(dealers), len)
    ensures var st := Run(Session(s, dealers, uuid), store, events);
      && |st.parties| == |dealers|
      && (|st.parties[p - 1].done| == |ROUNDS| ==>
            Output(s, dealers[p - 1], p, st.parties[p - 1].done) == Expected(s, dealers, len, p))
  {
    var pr := Session(s, dealers, uuid);
    SessionValid(s, dealers, uuid);
    RunsRefineSync(pr, store, events, p);
    if |Run(pr, store, events).parties[p - 1].done| == |ROUNDS| {
      FinishedFits(s, dealers, uuid, store, events, p);
      SyncOutput(s, dealers, len, uuid, p);
    }
  }

  lemma SessionValid(s: Suite, dealers: seq<Dealer>, uuid: string)
    requires s.q > 0
    ensures ValidProtocol(Session(s, dealers, uuid))
  {
    RoundNamesOk();
    RoundNamesDiffer();
  }

  lemma RoundNamesOk()
    ensures NamesOk(ROUNDS)
  {
    ChainNamesOk();
  }

  lemma ChainNamesOk()
    ensures RoundName("round0_chain_code") && RoundName("round1_chain_code")
  {
  }

  lemma RoundNamesDiffer()
    ensures NamesDiffer(ROUNDS)
  {
  }

  lemma {:induction false} SyncOutput(s: Suite, dealers: seq<Dealer>, len: nat, uuid: string, p: nat)
    requires HonestDealers(s, dealers, len) && KeysFit(s, dealers) && 1 <= p <= |dealers|
    ensures Output(s, dealers[p - 1], p, SyncHist(Session(s, dealers, uuid), p, |ROUNDS|)) == Expected(s, dealers, len, p)
  {
    var pr := Session(s, dealers, uuid);
    var n := |ROUNDS|;
    HistView(pr, p, n, 1);
    HistView(pr, p, n, 2);
    HistView(pr, p, n, 3);
    HistView(pr, p, n, 5);
    SyncYs(s, dealers, uuid, p);
    SyncKeyShare(s, dealers, len, uuid, p, n);
    SyncVectors(s, dealers, uuid, p);
  }

  lemma {:induction false} SyncVectors(s: Suite, dealers: seq<Dealer>, uuid: string, p: nat)
    requires s.q > 0
    ensures var pr := Session(s, dealers, uuid);
      && Schemes(SyncView(pr, p, 5)) == ExpectedSchemes(s, dealers)
      && Eks(SyncView(pr, p, 2)) == seq(|dealers|, i requires 0 <= i < |dealers| => dealers[i].paillier)
      && Chains(SyncView(pr, p, 1)) == seq(|dealers|, i requires 0 <= i < |dealers| => Mod(dealers[i].chain, s.q))
  {
  }

  /** What the proofs of knowledge are about: in every run, whoever has come to the end has been shown,
      for every party, a proof for the very chain code part it sent, and one for the share it saved. */
  lemma {:induction false} ProofsShown(s: Suite, dealers: seq<Dealer>, len: nat, uuid: string, store: map<string, Msg>,
      events: seq<Event<Msg>>, p: nat, i: nat)
    requires HonestDealers(s, dealers, len) && 1 <= p <= |dealers| && i < |dealers|
    requires FreshSession(Session(s, dealers, uuid), store)
    requires var st := Run(Session(s, dealers, uuid), store, events);
      |st.parties| == |dealers| && |st.parties[p - 1].done| == |ROUNDS|
    ensures SameLength(Polys(dealers), len)
    ensures var done := Run(Session(s, dealers, uuid), store, events).parties[p - 1].done;
      && |done[0]| == |done[1]| == |done[6]| == |dealers|
      && done[0][i] == ChainProof(Mod(dealers[i].chain, s.q)) && done[1][i] == ChainShare(Mod(dealers[i].chain, s.q))
      && done[6][i] == KeyProof(Expected(s, dealers, len, i + 1).x)
  {
    SessionValid(s, dealers, uuid);
    FinishedFits(s, dealers, uuid, store, events, p);
    HeldIsSync(Session(s, dealers, uuid), store, events, p, 0);
    HeldIsSync(Session(s, dealers, uuid), store, events, p, 1);
    HeldIsSync(Session(s, dealers, uuid), store, events, p, 6);
    SentIs(s, dealers, uuid, p, i, 0);
    SentIs(s, dealers, uuid, p, i, 1);
    ShareProved(s, dealers, len, uuid, p, i);
  }

  lemma {:induction false} ShareProved(s: Suite, dealers: seq<Dealer>, len: nat, uuid: string, p: nat, i: nat)
    requires HonestDealers(s, dealers, len) && KeysFit(s, dealers) && i < |dealers|
    ensures SyncView(Session(s, dealers, uuid), p, 6)[i] == KeyProof(Expected(s, dealers, len, i + 1).x)
  {
    SentIs(s, dealers, uuid, p, i, 6);
    SyncKeyShare(s, dealers, len, uuid, i + 1, 6);
  }

  /** The common point of dealers i and j has an x-coordinate of full length. */
  ghost predicate XCoordFills(s: Suite, dealers: seq<Dealer>, i: nat, j: nat)
    requires s.q > 0 && i < |dealers| && j < |dealers|
  {
    s.xCoord(PairPoint(Mod(Secret(dealers[i].poly), s.q), Secret(dealers[j].poly), s.q)) >= Pow256(KEY_BYTES - 1)
  }

  /** The keys fit in every run of the padding program; without padding, exactly when every common
      x-coordinate fills its top byte. */
  lemma KeysFitIff(s: Suite, dealers: seq<Dealer>)
    requires ValidSuite(s)
    ensures KeysFit(s, dealers) <==>
      s.padded || forall i, j :: 0 <= i < |dealers| && 0 <= j < |dealers| && i != j ==> XCoordFills(s, dealers, i, j)
  {
    forall i, j | 0 <= i < |dealers| && 0 <= j < |dealers|
      ensures KeyFits(s, dealers, i, j) <==> s.padded || XCoordFills(s, dealers, i, j)
    {
      KeyLength(s, PairPoint(Mod(Secret(dealers[i].poly), s.q), Secret(dealers[j].poly), s.q));
    }
  }

  /** No dealer's secret is zero. */
  ghost predicate NonzeroSecrets(s: Suite, dealers: seq<Dealer>)
    requires s.q > 0
  {
    forall i :: 0 <= i < |dealers| ==> Mod(Secret(dealers[i].poly), s.q) != 0
  }

  /** Unpadded, there are honest dealers with nonzero secrets whose keys do not fit exactly when some
      point other than the identity has a short x-coordinate. */
  lemma {:induction false} UnpaddedFailsIff(s: Suite)
    requires ValidSuite(s) && !s.padded
    ensures (exists dealers: seq<Dealer>, len: nat :: HonestDealers(s, dealers, len) && NonzeroSecrets(s, dealers) && !KeysFit(s, dealers))
        <==> exists e :: 0 < e < s.q && s.xCoord(e) < Pow256(KEY_BYTES - 1)
  {
    if e :| 0 < e < s.q && s.xCoord(e) < Pow256(KEY_BYTES - 1) {
      var dealers := TwoThatMiss(s, e);
      assert HonestDealers(s, dealers, 1) && NonzeroSecrets(s, dealers) && !KeysFit(s, dealers);
    }
    if dealers: seq<Dealer>, len: nat :| HonestDealers(s, dealers, len) && NonzeroSecrets(s, dealers) && !KeysFit(s, dealers) {
      var e := MissedPoint(s, dealers);
      assert 0 < e < s.q && s.xCoord(e) < Pow256(KEY_BYTES - 1);
    }
  }

  lemma TwoThatMiss(s: Suite, e: int) returns (dealers: seq<Dealer>)
    requires ValidSuite(s) && !s.padded && 0 < e < s.q && s.xCoord(e) < Pow256(KEY_BYTES - 1)
    ensures HonestDealers(s, dealers, 1) && NonzeroSecrets(s, dealers) && !KeysFit(s, dealers)
  {
    dealers := [Dealer([e], 0, 1), Dealer([1], 0, 2)];
    ModSmall(e, s.q);
    ModSmall(1, s.q);
    assert e * 1 == e;
    KeysFitIff(s, dealers);
    assert !XCoordFills(s, dealers, 0, 1);
  }

  lemma {:induction false} MissedPoint(s: Suite, dealers: seq<Dealer>) returns (e: int)
    requires ValidSuite(s) && NonzeroSecrets(s, dealers) && !KeysFit(s, dealers)
    ensures 0 < e < s.q && s.xCoord(e) < Pow256(KEY_BYTES - 1)
  {
    KeysFitIff(s, dealers);
    var i, j :| 0 <= i < |dealers| && 0 <= j < |dealers| && i != j && !XCoordFills(s, dealers, i, j);
    var u, v := Secret(dealers[i].poly), Secret(dealers[j].poly);
    e := PairPoint(Mod(u, s.q), v, s.q);
    ModSmall(Mod(u, s.q), s.q);
    ProductNonzero(Mod(u, s.q), v, s.q);
  }

  /** The library's checks on round 4 and round 2 pass for honest dealers. */
  lemma FeldmanChecksPass(s: Suite, dealers: seq<Dealer>, len: nat, j: nat, p: nat)
    requires HonestDealers(s, dealers, len) && j < |dealers|
    ensures PointCommitment(ExpectedSchemes(s, dealers)[j], p, s.q) == Share(dealers[j].poly, p, s.q)
    ensures ExpectedSchemes(s, dealers)[j][0] == ExpectedYs(s, dealers)[j]
  {
    ShareMatchesCommitment(dealers[j].poly, p, s.q);
  }

  /** The public key is G times the secrets' sum, and any t + 1 of the saved shares reconstruct it. */
  lemma {:induction false} AnyQuorumReconstructs(s: Suite, dealers: seq<Dealer>, len: nat, ids: seq<int>, shares: seq<int>)
    requires HonestDealers(s, dealers, len) && SameLength(Polys(dealers), len)
    requires Points(ids, s.q) && |ids| >= len && |shares| == |ids|
    requires forall i :: 0 <= i < |ids| ==>
      1 <= ids[i] <= |dealers| && shares[i] == Expected(s, dealers, len, ids[i]).x
    ensures forall p :: 1 <= p <= |dealers| ==>
      Expected(s, dealers, len, p).y == Mod(Reconstruct(ids, ids, shares, s.q), s.q)
  {
    var F := Joint(dealers, len);
    forall i | 0 <= i < |ids| ensures Cong(shares[i], Eval(F, ids[i]), s.q) {
      CongMod(Eval(F, ids[i]), s.q);
    }
    SharesReconstruct(ids, shares, F, s.q);
    PublicKeyIsJoint(s, dealers, len);
    CongIsModEq(Reconstruct(ids, ids, shares, s.q), F[0], s.q);
  }

  lemma PublicKeyIsJoint(s: Suite, dealers: seq<Dealer>, len: nat)
    requires HonestDealers(s, dealers, len) && SameLength(Polys(dealers), len)
    ensures Mod(SeqSum(ExpectedYs(s, dealers)), s.q) == Mod(Joint(dealers, len)[0], s.q)
  {
    var fs := Polys(dealers);
    EvalSum(fs, len, 0);
    forall i | 0 <= i < |dealers| ensures Cong(ExpectedYs(s, dealers)[i], Evals(fs, 0)[i], s.q) {
      CongMod(Secret(dealers[i].poly), s.q);
    }
    SeqSumCong(ExpectedYs(s, dealers), Evals(fs, 0), s.q);
    CongIsModEq(SeqSum(ExpectedYs(s, dealers)), SeqSum(Evals(fs, 0)), s.q);
  }
}
