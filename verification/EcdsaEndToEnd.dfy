/** ECDSA from signup and key generation to a signature that verifies. */
module EcdsaEndToEnd {
  import opened Modular
  import opened Shamir
  import opened Seating
  import opened KeyCeremonies
  import opened RoundExchange
  import opened EcdsaSigner
  import opened EcdsaRuns
  import opened EcdsaVerification
  import RoundProgress
  import SignupSystem
  import HdKeys
  import Keygen

  /** The signers are these parties of a key generation, more of them than the threshold, each with
      the file it saved. */
  ghost predicate Seated(k: KeyCeremony, ids: seq<nat>, P: Params, signers: seq<Signer>) {
    && HonestCeremony(k) && P.s == k.s && k.len <= |ids| == |signers|
    && forall i :: 0 <= i < |ids| ==> Saved(k, ids[i], signers[i].key)
  }

  lemma SeatedAreHonest(k: KeyCeremony, P: Params, ids: seq<nat>, signers: seq<Signer>)
    requires Seated(k, ids, P, signers)
    requires forall i, j :: 0 <= i < j < |ids| ==> ids[i] != ids[j]
    ensures Honest(P, signers, k.dealers, k.len)
  {
    SavedIsExpected(k, ids[0], signers[0].key);
    forall i | 0 <= i < |signers|
      ensures HoldsKey(P, k.dealers, k.len, signers[i]) && signers[i].key.id == ids[i]
    {
      SavedIsExpected(k, ids[i], signers[i].key);
    }
    forall i, j | 0 <= i < j < |signers| ensures Differ(signers[i], signers[j]) {
      assert HoldsKey(P, k.dealers, k.len, signers[i]) && HoldsKey(P, k.dealers, k.len, signers[j]);
    }
  }

  /** The key that one signer derives is right for all, their files having one public key. */
  lemma OneDerivesForAll(P: Params, signers: seq<Signer>, dealers: seq<Keygen.Dealer>, len: nat)
    requires Honest(P, signers, dealers, len)
    requires Moved(P.y, signers[0].key.y, P.f, P.s.q) && (!P.atPath ==> P.f == 0)
    ensures AllRightKey(P, signers)
  {
    assert Tweak(P) == P.f;
    forall i | 0 <= i < |signers| ensures RightKey(P, signers[i]) {
      assert HoldsKey(P, dealers, len, signers[0]) && HoldsKey(P, dealers, len, signers[i]);
    }
  }

  /** Clients that returned from one room with a common count are honest signers, for the key of a
      path as one of them derives it. */
  lemma ClientsAreHonest(signups: seq<SignupSystem.Event>, timeout: nat, clients: seq<nat>, roomUuid: string,
      k: KeyCeremony, c: HdKeys.Curve, path: seq<nat>, P: Params, signers: seq<Signer>)
    requires Joined(signups, timeout, clients, roomUuid)
    requires Seated(k, Parties(signups, timeout, clients, roomUuid), P, signers)
    requires Derives(c, k.s.q, signers[0].key, PathKey(path, P.atPath, P.f, P.y))
    ensures Honest(P, signers, k.dealers, k.len) && AllRightKey(P, signers)
  {
    PartiesDistinct(signups, timeout, clients, roomUuid);
    SeatedAreHonest(k, P, Parties(signups, timeout, clients, roomUuid), signers);
    DerivedKey(k, Parties(signups, timeout, clients, roomUuid)[0], signers[0].key, c, PathKey(path, P.atPath, P.f, P.y));
    OneDerivesForAll(P, signers, k.dealers, k.len);
  }

  /** With usable inputs signer i has not panicked. */
  ghost predicate Unharmed(P: Params, signers: seq<Signer>, dealers: seq<Keygen.Dealer>, len: nat, uuid: string,
      st: System<Msg>, i: nat)
    requires IsPrime(P.s.q) && SameLength(Keygen.Polys(dealers), len) && len >= 1 && i < |signers| == |st.parties|
  {
    Usable(P, signers, dealers, len) ==> !Halted(Session(P, signers, uuid), st, i + 1)
  }

  lemma {:induction false} HonestUnharmed(P: Params, signers: seq<Signer>, dealers: seq<Keygen.Dealer>, len: nat, uuid: string,
      store: map<string, Msg>, events: seq<Event<Msg>>, i: nat)
    requires Honest(P, signers, dealers, len) && AllRightKey(P, signers) && EvenX(P.s) && i < |signers|
    requires FreshSession(Session(P, signers, uuid), store)
    ensures var st := Run(Session(P, signers, uuid), store, events);
      |st.parties| == |signers| && Unharmed(P, signers, dealers, len, uuid, st, i)
  {
    SessionValid(P, signers, uuid);
    SoundIff(P, signers, dealers, len, uuid);
    RunInv(Session(P, signers, uuid), store, events);
    if Usable(P, signers, dealers, len) {
      RoundProgress.NobodyHalts(Session(P, signers, uuid), store, events, i + 1);
    }
  }

  lemma {:induction false} AllServed(P: Params, signers: seq<Signer>, dealers: seq<Keygen.Dealer>, len: nat, uuid: string,
      store: map<string, Msg>, events: seq<Event<Msg>>)
    requires Honest(P, signers, dealers, len) && AllRightKey(P, signers) && EvenX(P.s)
    requires FreshSession(Session(P, signers, uuid), store)
    ensures var st := Run(Session(P, signers, uuid), store, events);
      |st.parties| == |signers| && forall i :: 0 <= i < |signers| ==>
        Unharmed(P, signers, dealers, len, uuid, st, i) && Signed(P, signers, dealers, len, uuid, st, i)
  {
    SignatureVerifies(P, signers, dealers, len, uuid, store, events, 0);
    forall i | 0 <= i < |signers|
      ensures var st := Run(Session(P, signers, uuid), store, events);
        Unharmed(P, signers, dealers, len, uuid, st, i) && Signed(P, signers, dealers, len, uuid, st, i)
    {
      SignatureVerifies(P, signers, dealers, len, uuid, store, events, i);
      HonestUnharmed(P, signers, dealers, len, uuid, store, events, i);
    }
  }

  /** ECDSA, from signup to signature. Whatever the signup run, take any of its clients that returned
      from one room under the numbers 1..n, each told n, and n more than the threshold. With the files
      that their parties saved in any one key generation, under any interleaving of the rounds, any
      expiry and any writes of other members of the room: none panics when the inputs are usable, some run makes one panic when they are not, and
      whoever has all rounds behind it holds the run's one signature, which verifies under the key of
      the path exactly when r and m + r(x + f) are not zero. */
  lemma {:induction false} ClientsSign(signups: seq<SignupSystem.Event>, timeout: nat, clients: seq<nat>, roomUuid: string,
      k: KeyCeremony, c: HdKeys.Curve, path: seq<nat>, P: Params, signers: seq<Signer>,
      store: map<string, Msg>, events: seq<Event<Msg>>)
    requires Joined(signups, timeout, clients, roomUuid)
    requires Seated(k, Parties(signups, timeout, clients, roomUuid), P, signers) && EvenX(P.s)
    requires Derives(c, k.s.q, signers[0].key, PathKey(path, P.atPath, P.f, P.y))
    requires FreshSession(Session(P, signers, roomUuid), store)
    ensures SameLength(Keygen.Polys(k.dealers), k.len)
    ensures var st := Run(Session(P, signers, roomUuid), store, events);
      |st.parties| == |signers| && forall i :: 0 <= i < |signers| ==>
        Unharmed(P, signers, k.dealers, k.len, roomUuid, st, i) && Signed(P, signers, k.dealers, k.len, roomUuid, st, i)
    ensures !Usable(P, signers, k.dealers, k.len) ==> exists run, p :: Panicked(P, signers, roomUuid, store, run, p)
  {
    ClientsAreHonest(signups, timeout, clients, roomUuid, k, c, path, P, signers);
    AllServed(P, signers, k.dealers, k.len, roomUuid, store, events);
    PanicsIff(P, signers, k.dealers, k.len, roomUuid, store);
  }

  /** Signer i holds the run's signature, which the library accepts and which verifies unless its r is
      zero; and nothing has made it panic. */
  ghost predicate HoldsSignature(P: Params, signers: seq<Signer>, uuid: string, st: System<Msg>, i: nat)
    requires IsPrime(P.s.q) && NoncesUsable(P, signers) && i < |signers| == |st.parties|
  {
    && |st.parties[i].done| == |ROUNDS| && !Halted(Session(P, signers, uuid), st, i + 1)
    && Output(P, signers[i], i + 1, st.parties[i].done) == CommonSignature(P, signers, uuid)
    && Accepts(P, CommonSignature(P, signers, uuid))
    && (VerifiesMessage(P, CommonSignature(P, signers, uuid)) <==> NonceR(P, signers) != 0)
  }

  lemma UsableAccepted(P: Params, signers: seq<Signer>, dealers: seq<Keygen.Dealer>, len: nat, uuid: string)
    requires Honest(P, signers, dealers, len) && AllRightKey(P, signers) && EvenX(P.s) && Usable(P, signers, dealers, len)
    ensures Accepts(P, CommonSignature(P, signers, uuid))
    ensures VerifiesMessage(P, CommonSignature(P, signers, uuid)) <==> NonceR(P, signers) != 0
  {
    assert RightKey(P, signers[0]);
    FinishedVerifies(P, signers, dealers, len, uuid, 1);
  }

  lemma {:induction false} FinishedHold(P: Params, signers: seq<Signer>, dealers: seq<Keygen.Dealer>, len: nat, uuid: string,
      store: map<string, Msg>, events: seq<Event<Msg>>)
    requires Honest(P, signers, dealers, len) && AllRightKey(P, signers) && EvenX(P.s) && Usable(P, signers, dealers, len)
    requires FreshSession(Session(P, signers, uuid), store)
    requires RoundProgress.AllPast(Session(P, signers, uuid), Run(Session(P, signers, uuid), store, events), |ROUNDS|)
    ensures var st := Run(Session(P, signers, uuid), store, events);
      |st.parties| == |signers| && forall i :: 0 <= i < |signers| ==> HoldsSignature(P, signers, uuid, st, i)
  {
    var st := Run(Session(P, signers, uuid), store, events);
    UsableAccepted(P, signers, dealers, len, uuid);
    AllServed(P, signers, dealers, len, uuid, store, events);
    forall i | 0 <= i < |signers| ensures HoldsSignature(P, signers, uuid, st, i) {
      assert Unharmed(P, signers, dealers, len, uuid, st, i) && Signed(P, signers, dealers, len, uuid, st, i);
    }
  }

  /** As long as nothing expires and the inputs are usable, a session of honest signers can be carried
      on until every one of them holds the same accepted signature. */
  lemma AllCanSign(P: Params, signers: seq<Signer>, dealers: seq<Keygen.Dealer>, len: nat, uuid: string,
      store: map<string, Msg>, events: seq<Event<Msg>>)
    returns (all: seq<Event<Msg>>)
    requires Honest(P, signers, dealers, len) && AllRightKey(P, signers) && EvenX(P.s) && Usable(P, signers, dealers, len)
    requires FreshSession(Session(P, signers, uuid), store) && RoundProgress.NoExpiry(Session(P, signers, uuid), events)
    ensures events <= all && RoundProgress.NoExpiry(Session(P, signers, uuid), all)
    ensures var st := Run(Session(P, signers, uuid), store, all);
      |st.parties| == |signers| && forall i :: 0 <= i < |signers| ==> HoldsSignature(P, signers, uuid, st, i)
  {
    SessionValid(P, signers, uuid);
    SoundIff(P, signers, dealers, len, uuid);
    all := RoundProgress.CanReach(Session(P, signers, uuid), store, events, |ROUNDS|);
    FinishedHold(P, signers, dealers, len, uuid, store, all);
  }

  /** And every run that neglects nobody for long enough gets there by itself. */
  lemma {:induction false} FairRunsSign(P: Params, signers: seq<Signer>, dealers: seq<Keygen.Dealer>, len: nat, uuid: string,
      store: map<string, Msg>, events: seq<Event<Msg>>, stretches: nat)
    requires Honest(P, signers, dealers, len) && AllRightKey(P, signers) && EvenX(P.s) && Usable(P, signers, dealers, len)
    requires FreshSession(Session(P, signers, uuid), store) && RoundProgress.NoExpiry(Session(P, signers, uuid), events)
    requires RoundProgress.Fair(events, |signers|, |events|, stretches)
    requires stretches > RoundProgress.AllWork(|signers|, |signers|, |ROUNDS|)
    ensures var st := Run(Session(P, signers, uuid), store, events);
      |st.parties| == |signers| && forall i :: 0 <= i < |signers| ==> HoldsSignature(P, signers, uuid, st, i)
  {
    SessionValid(P, signers, uuid);
    SoundIff(P, signers, dealers, len, uuid);
    RoundProgress.FairRunsFinish(Session(P, signers, uuid), store, events, stretches, |ROUNDS|);
    FinishedHold(P, signers, dealers, len, uuid, store, events);
  }
}
