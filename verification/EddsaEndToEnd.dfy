/** EdDSA from signup and key generation to a signature that satisfies the curve equation. */
module EddsaEndToEnd {
  import opened Modular
  import opened Sums
  import opened Shamir
  import opened Seating
  import opened KeyCeremonies
  import opened RoundExchange
  import opened EdwardsPoints
  import opened EddsaSigner
  import opened EddsaRuns
  import RoundProgress
  import SignupSystem
  import HdKeys
  import Keygen

  /** The signers are these t + 1 parties of a key generation, each with the file it saved. */
  ghost predicate Seated(k: KeyCeremony, ids: seq<nat>, P: Params, signers: seq<Signer>) {
    && HonestCeremony(k) && P.s == k.s && ValidParams(P)
    && P.t + 1 == k.len == |ids| == |signers|
    && forall i :: 0 <= i < |ids| ==> Saved(k, ids[i], signers[i].key) && |signers[i].eph| == k.len
  }

  lemma SeatedAreHonest(k: KeyCeremony, P: Params, ids: seq<nat>, signers: seq<Signer>)
    requires Seated(k, ids, P, signers)
    requires forall i, j :: 0 <= i < j < |ids| ==> ids[i] != ids[j]
    ensures Honest(P, signers, k.dealers, P.t)
  {
    SavedIsExpected(k, ids[0], signers[0].key);
    forall i | 0 <= i < |signers|
      ensures HoldsKey(P, k.dealers, P.t, signers[i]) && signers[i].key.id == ids[i]
    {
      SavedIsExpected(k, ids[i], signers[i].key);
    }
    forall i, j | 0 <= i < j < |signers| ensures Differ(signers[i], signers[j]) {
      assert HoldsKey(P, k.dealers, P.t, signers[i]) && HoldsKey(P, k.dealers, P.t, signers[j]);
    }
  }

  /** The key to verify under: the derived one has its torsion cleared. */
  ghost function FinalKey(P: Params, y: int): Point
    requires ValidParams(P)
  {
    if P.atPath then ClearTorsion(Lift(y, P.s.q), P.s.q) else Lift(y, P.s.q)
  }

  lemma DerivedFinalKey(P: Params, base: int, y: int)
    requires ValidParams(P) && Moved(y, base, P.f, P.s.q) && (!P.atPath ==> P.f == 0)
    ensures PublicKey(P, base) == FinalKey(P, y)
  {
    LiftReduced(base + P.f, P.s.q);
  }

  lemma LiftReduced(a: int, l: int)
    requires l > 0
    ensures Lift(Mod(a, l), l) == Lift(a, l)
  {
    LiftIs(a, l);
    LiftIs(Mod(a, l), l);
    ModSmall(Mod(a, l), l);
  }

  /** Clients that returned from one room, each told of t + 1, are honest signers; and the key of a
      path is what one of them derives. */
  lemma ClientsAreHonest(signups: seq<SignupSystem.Event>, timeout: nat, clients: seq<nat>, roomUuid: string,
      k: KeyCeremony, c: HdKeys.Curve, path: seq<nat>, P: Params, y: int, signers: seq<Signer>)
    requires Joined(signups, timeout, clients, roomUuid)
    requires Seated(k, Parties(signups, timeout, clients, roomUuid), P, signers)
    requires Derives(c, k.s.q, signers[0].key, PathKey(path, P.atPath, P.f, y))
    ensures Honest(P, signers, k.dealers, P.t) && PublicKey(P, signers[0].key.y) == FinalKey(P, y)
  {
    PartiesDistinct(signups, timeout, clients, roomUuid);
    SeatedAreHonest(k, P, Parties(signups, timeout, clients, roomUuid), signers);
    DerivedKey(k, Parties(signups, timeout, clients, roomUuid)[0], signers[0].key, c, PathKey(path, P.atPath, P.f, y));
    DerivedFinalKey(P, signers[0].key.y, y);
  }

  /** It satisfies the equation of section 5.1.7 of RFC 8032 under the key. */
  ghost predicate Satisfies(P: Params, sig: Signature, key: Point)
    requires ValidParams(P)
  {
    Verifies(sig, key, P.hash(sig.R, key, P.message), P.s.q)
  }

  ghost predicate Unharmed(P: Params, signers: seq<Signer>, uuid: string, st: System<Msg>, i: nat)
    requires ValidParams(P) && i < |signers| == |st.parties|
  {
    !Halted(Session(P, signers, uuid), st, i + 1)
  }

  /** The signature of the run. */
  ghost function RunSignature(P: Params, signers: seq<Signer>): Signature
    requires ValidParams(P) && signers != [] && SameLength(Ephs(signers), P.t + 1)
  {
    CommonSignature(P, signers, P.t, signers[0].key.y)
  }

  lemma FirstKey(P: Params, signers: seq<Signer>, dealers: seq<Keygen.Dealer>)
    requires Honest(P, signers, dealers, P.t)
    ensures signers[0].key.y == Mod(SeqSum(Keygen.ExpectedYs(P.s, dealers)), P.s.q)
  {
    assert HoldsKey(P, dealers, P.t, signers[0]);
  }

  lemma {:induction false} HonestSign(P: Params, signers: seq<Signer>, dealers: seq<Keygen.Dealer>, uuid: string,
      store: map<string, Msg>, events: seq<Event<Msg>>, i: nat)
    requires Honest(P, signers, dealers, P.t) && i < |signers|
    requires FreshSession(Session(P, signers, uuid), store)
    ensures SameLength(Ephs(signers), P.t + 1)
    ensures var st := Run(Session(P, signers, uuid), store, events);
      |st.parties| == |signers| && Signed(P, signers, st, RunSignature(P, signers), i)
  {
    FirstKey(P, signers, dealers);
    SignatureVerifies(P, signers, dealers, P.t, uuid, signers[0].key.y, store, events, i);
  }

  lemma {:induction false} HonestUnharmed(P: Params, signers: seq<Signer>, dealers: seq<Keygen.Dealer>, uuid: string,
      store: map<string, Msg>, events: seq<Event<Msg>>, i: nat)
    requires Honest(P, signers, dealers, P.t) && i < |signers|
    requires FreshSession(Session(P, signers, uuid), store)
    ensures var st := Run(Session(P, signers, uuid), store, events);
      |st.parties| == |signers| && Unharmed(P, signers, uuid, st, i)
  {
    NeverPanics(P, signers, dealers, P.t, uuid, store, events, i + 1);
  }

  lemma RunSatisfies(P: Params, signers: seq<Signer>, dealers: seq<Keygen.Dealer>)
    requires Honest(P, signers, dealers, P.t)
    ensures SameLength(Ephs(signers), P.t + 1)
    ensures Satisfies(P, RunSignature(P, signers), PublicKey(P, signers[0].key.y))
  {
    HonestFacts(P, signers, dealers, P.t);
    FirstKey(P, signers, dealers);
    KeyFacts(P, signers, dealers, P.t, signers[0].key.y);
    CommonSignatureVerifies(P, signers, dealers, P.t, signers[0].key.y);
  }

  lemma {:induction false} AllServed(P: Params, signers: seq<Signer>, dealers: seq<Keygen.Dealer>, uuid: string,
      store: map<string, Msg>, events: seq<Event<Msg>>)
    requires Honest(P, signers, dealers, P.t)
    requires FreshSession(Session(P, signers, uuid), store)
    ensures SameLength(Ephs(signers), P.t + 1)
    ensures var st := Run(Session(P, signers, uuid), store, events);
      |st.parties| == |signers| && forall i :: 0 <= i < |signers| ==>
        Unharmed(P, signers, uuid, st, i) && Signed(P, signers, st, RunSignature(P, signers), i)
  {
    HonestSign(P, signers, dealers, uuid, store, events, 0);
    forall i | 0 <= i < |signers|
      ensures var st := Run(Session(P, signers, uuid), store, events);
        Unharmed(P, signers, uuid, st, i) && Signed(P, signers, st, RunSignature(P, signers), i)
    {
      HonestSign(P, signers, dealers, uuid, store, events, i);
      HonestUnharmed(P, signers, dealers, uuid, store, events, i);
    }
  }

  /** EdDSA, from signup to signature. Whatever the signup run, take any t + 1 of its clients that
      returned from one room under the numbers 1..t + 1, each told t + 1. With the files that their
      parties saved in any one key generation, under any interleaving of the rounds, any expiry and any
      writes of other members of the room: none of them ever panics, and whoever has all rounds behind it holds the run's one signature,
      which satisfies the curve equation under the derived key with its torsion cleared. */
  lemma {:induction false} ClientsSign(signups: seq<SignupSystem.Event>, timeout: nat, clients: seq<nat>, roomUuid: string,
      k: KeyCeremony, c: HdKeys.Curve, path: seq<nat>, P: Params, y: int, signers: seq<Signer>,
      store: map<string, Msg>, events: seq<Event<Msg>>)
    requires Joined(signups, timeout, clients, roomUuid)
    requires Seated(k, Parties(signups, timeout, clients, roomUuid), P, signers)
    requires Derives(c, k.s.q, signers[0].key, PathKey(path, P.atPath, P.f, y))
    requires FreshSession(Session(P, signers, roomUuid), store)
    ensures SameLength(Ephs(signers), P.t + 1) && Satisfies(P, RunSignature(P, signers), FinalKey(P, y))
    ensures var st := Run(Session(P, signers, roomUuid), store, events);
      |st.parties| == |signers| && forall i :: 0 <= i < |signers| ==>
        Unharmed(P, signers, roomUuid, st, i) && Signed(P, signers, st, RunSignature(P, signers), i)
  {
    ClientsAreHonest(signups, timeout, clients, roomUuid, k, c, path, P, y, signers);
    RunSatisfies(P, signers, k.dealers);
    AllServed(P, signers, k.dealers, roomUuid, store, events);
  }

  /** Signer i holds the run's signature, and nothing has made it panic. */
  ghost predicate HoldsSignature(P: Params, signers: seq<Signer>, uuid: string, st: System<Msg>, i: nat)
    requires ValidParams(P) && i < |signers| == |st.parties| && SameLength(Ephs(signers), P.t + 1)
  {
    && |st.parties[i].done| == |ROUNDS| && Unharmed(P, signers, uuid, st, i)
    && Output(P, signers[i], st.parties[i].done) == RunSignature(P, signers)
  }

  lemma {:induction false} FinishedHold(P: Params, signers: seq<Signer>, dealers: seq<Keygen.Dealer>, uuid: string,
      store: map<string, Msg>, events: seq<Event<Msg>>)
    requires Honest(P, signers, dealers, P.t)
    requires FreshSession(Session(P, signers, uuid), store)
    requires RoundProgress.AllPast(Session(P, signers, uuid), Run(Session(P, signers, uuid), store, events), |ROUNDS|)
    ensures SameLength(Ephs(signers), P.t + 1)
    ensures var st := Run(Session(P, signers, uuid), store, events);
      |st.parties| == |signers| && forall i :: 0 <= i < |signers| ==> HoldsSignature(P, signers, uuid, st, i)
  {
    AllServed(P, signers, dealers, uuid, store, events);
    var st := Run(Session(P, signers, uuid), store, events);
    forall i | 0 <= i < |signers| ensures HoldsSignature(P, signers, uuid, st, i) {
      assert Unharmed(P, signers, uuid, st, i) && Signed(P, signers, st, RunSignature(P, signers), i);
    }
  }

  /** As long as nothing expires, a session of honest signers can be carried on until every one of
      them holds the same signature, which satisfies the curve equation. */
  lemma AllCanSign(P: Params, signers: seq<Signer>, dealers: seq<Keygen.Dealer>, uuid: string,
      store: map<string, Msg>, events: seq<Event<Msg>>)
    returns (all: seq<Event<Msg>>)
    requires Honest(P, signers, dealers, P.t)
    requires FreshSession(Session(P, signers, uuid), store) && RoundProgress.NoExpiry(Session(P, signers, uuid), events)
    ensures events <= all && RoundProgress.NoExpiry(Session(P, signers, uuid), all)
    ensures SameLength(Ephs(signers), P.t + 1) && Satisfies(P, RunSignature(P, signers), PublicKey(P, signers[0].key.y))
    ensures var st := Run(Session(P, signers, uuid), store, all);
      |st.parties| == |signers| && forall i :: 0 <= i < |signers| ==> HoldsSignature(P, signers, uuid, st, i)
  {
    SessionValid(P, signers, uuid);
    AlwaysSound(P, signers, dealers, P.t, uuid);
    all := RoundProgress.CanReach(Session(P, signers, uuid), store, events, |ROUNDS|);
    RunSatisfies(P, signers, dealers);
    FinishedHold(P, signers, dealers, uuid, store, all);
  }

  /** And every run that neglects nobody for long enough gets there by itself. */
  lemma {:induction false} FairRunsSign(P: Params, signers: seq<Signer>, dealers: seq<Keygen.Dealer>, uuid: string,
      store: map<string, Msg>, events: seq<Event<Msg>>, stretches: nat)
    requires Honest(P, signers, dealers, P.t)
    requires FreshSession(Session(P, signers, uuid), store) && RoundProgress.NoExpiry(Session(P, signers, uuid), events)
    requires RoundProgress.Fair(events, |signers|, |events|, stretches)
    requires stretches > RoundProgress.AllWork(|signers|, |signers|, |ROUNDS|)
    ensures SameLength(Ephs(signers), P.t + 1) && Satisfies(P, RunSignature(P, signers), PublicKey(P, signers[0].key.y))
    ensures var st := Run(Session(P, signers, uuid), store, events);
      |st.parties| == |signers| && forall i :: 0 <= i < |signers| ==> HoldsSignature(P, signers, uuid, st, i)
  {
    SessionValid(P, signers, uuid);
    AlwaysSound(P, signers, dealers, P.t, uuid);
    RoundProgress.FairRunsFinish(Session(P, signers, uuid), store, events, stretches, |ROUNDS|);
    RunSatisfies(P, signers, dealers);
    FinishedHold(P, signers, dealers, uuid, store, events);
  }
}
