/** Which requests of a run of key-generation signups carry out which key generation. */
module Enrolment {
  import opened Managers
  import opened KeygenSignups
  import opened KeyCeremonies
  import opened Modular
  import RoundExchange
  import RoundProgress
  import Keygen

  /** These requests were given the numbers 1, 2, .. under this uuid. */
  ghost predicate Enrolled(signups: seq<Event>, requests: seq<nat>, uuid: string) {
    var log := Run(signups).log;
    forall i :: 0 <= i < |requests| ==> requests[i] < |log| && log[requests[i]] == PartySignup(i + 1, uuid)
  }

  /** A request is answered with its number and uuid for good: under one uuid a number has one request. */
  lemma EnrolmentUnique(signups: seq<Event>, uuid: string, a: seq<nat>, b: seq<nat>, i: nat)
    requires Enrolled(signups, a, uuid) && Enrolled(signups, b, uuid) && i < |a| && i < |b|
    ensures a[i] == b[i]
  {
    if a[i] < b[i] {
      NoRepeats(signups, a[i], b[i]);
    } else if b[i] < a[i] {
      NoRepeats(signups, b[i], a[i]);
    }
  }

  lemma {:induction false} FirstEnrol(signups: seq<Event>, uuid: string, k: nat) returns (requests: seq<nat>)
    requires k <= |NumbersOf(Run(signups).log, uuid)|
    ensures |requests| == k && Enrolled(signups, requests, uuid)
  {
    requests := [];
    if k > 0 {
      requests := FirstEnrol(signups, uuid, k - 1);
      var i := EachNumberOnce(signups, uuid, k);
      requests := requests + [i];
    }
  }

  lemma {:induction false} NumberInGroup(signups: seq<Event>, j: nat)
    requires j < |Run(signups).log|
    ensures var log := Run(signups).log; 1 <= log[j].number <= |NumbersOf(log, log[j].uuid)|
  {
    var log := Run(signups).log;
    var u := log[j].uuid;
    NumberPosition(log, j);
    EachGroupCounts(signups, u);
    assert NumbersOf(log, u)[|NumbersOf(log[..j], u)|] == log[j].number;
  }

  /** All the requests that were given a uuid make up one group, whatever the run. */
  lemma WholeGroupEnrols(signups: seq<Event>, uuid: string) returns (requests: seq<nat>)
    ensures Enrolled(signups, requests, uuid)
    ensures forall j :: 0 <= j < |Run(signups).log| && Run(signups).log[j].uuid == uuid ==> j in requests
  {
    var log := Run(signups).log;
    requests := FirstEnrol(signups, uuid, |NumbersOf(log, uuid)|);
    forall j | 0 <= j < |log| && log[j].uuid == uuid ensures j in requests {
      NumberInGroup(signups, j);
      var i := requests[log[j].number - 1];
      if i < j {
        NoRepeats(signups, i, j);
      } else if j < i {
        NoRepeats(signups, j, i);
      }
    }
  }

  /** The i-th request of the g-th n. */
  function Nth(n: nat, g: nat, i: nat): nat {
    g * n + i
  }

  function Group(n: nat, g: nat): (requests: seq<nat>) {
    seq(n, i requires 0 <= i < n => Nth(n, g, i))
  }

  lemma NthIs(n: nat, g: nat, i: nat)
    requires i < n
    ensures Nth(n, g, i) % n == i && Nth(n, g, i) / n == g
  {
    Quotients(g * n + i, n, g, i);
  }

  lemma MemberEnrols(s: State, k: nat, n: nat, g: nat, i: nat)
    requires i < n && Served(s, k, n) && Nth(n, g, n - 1) < k
    ensures Nth(n, g, i) < k && s.log[Nth(n, g, i)] == PartySignup(i + 1, s.log[Nth(n, g, 0)].uuid)
  {
    NthIs(n, g, 0);
    NthIs(n, g, i);
  }

  /** With groups of one size and nothing expiring, each n requests in a row make up a group. */
  lemma {:induction false} SteadyGroupEnrols(signups: seq<Event>, n: nat, g: nat)
    requires n >= 1 && Steady(signups, n) && Nth(n, g, n - 1) < |signups|
    ensures Nth(n, g, 0) < |Run(signups).log| == |signups|
    ensures Enrolled(signups, Group(n, g), Run(signups).log[Nth(n, g, 0)].uuid)
  {
    SteadyGroups(signups, n);
    MemberEnrols(Run(signups), |signups|, n, g, 0);
    var requests := Group(n, g);
    forall i | 0 <= i < n
      ensures requests[i] < |signups| && Run(signups).log[requests[i]] == PartySignup(i + 1, Run(signups).log[Nth(n, g, 0)].uuid)
    {
      MemberEnrols(Run(signups), |signups|, n, g, i);
    }
  }

  // ---- the key generation of a group ----

  /** The key generation in which the dealer of each number is who was given that number. */
  ghost predicate CeremonyOf(signups: seq<Event>, requests: seq<nat>, k: KeyCeremony) {
    HonestCeremony(k) && |requests| == |k.dealers| && Enrolled(signups, requests, k.uuid)
  }

  /** The groups of two uuids do not disturb each other: whatever one of them writes, the other takes
      as a write of somebody else. */
  lemma {:induction false} CeremoniesApart(signups: seq<Event>, a: seq<nat>, k: KeyCeremony, b: seq<nat>, l: KeyCeremony, key: string,
      value: Keygen.Msg, s: RoundExchange.System<Keygen.Msg>)
    requires CeremonyOf(signups, a, k) && CeremonyOf(signups, b, l)
    requires a != [] && b != [] && Run(signups).log[a[0]].uuid != Run(signups).log[b[0]].uuid
    requires RoundExchange.SessionKey(Keygen.Session(k.s, k.dealers, k.uuid), key)
    ensures RoundExchange.Next(Keygen.Session(l.s, l.dealers, l.uuid), s, RoundExchange.Foreign(key, value))
      == s.(store := s.store[key := value])
  {
    Keygen.SessionValid(k.s, k.dealers, k.uuid);
    Keygen.SessionValid(l.s, l.dealers, l.uuid);
    RoundExchange.SessionsApart(Keygen.Session(k.s, k.dealers, k.uuid), Keygen.Session(l.s, l.dealers, l.uuid), key);
  }

  /** From signup to the key files: while nothing of theirs expires and all their pairwise keys fit, a
      group that neglects nobody ends with a file for every request, under the number that the request
      was given, all with the public key of the sum of the group's secrets. */
  lemma GroupSaves(signups: seq<Event>, requests: seq<nat>, k: KeyCeremony, stretches: nat) returns (files: seq<Keygen.KeyFile>)
    requires CeremonyOf(signups, requests, k) && Keygen.KeysFit(k.s, k.dealers)
    requires RoundProgress.NoExpiry(Keygen.Session(k.s, k.dealers, k.uuid), k.events)
    requires RoundProgress.Fair(k.events, |k.dealers|, |k.events|, stretches)
    requires stretches > RoundProgress.AllWork(|k.dealers|, |k.dealers|, |Keygen.ROUNDS|)
    ensures |files| == |requests| && forall i :: 0 <= i < |requests| ==>
      && files[i].id == Run(signups).log[requests[i]].number && Saved(k, files[i].id, files[i])
      && files[i].y == Mod(Keygen.Joint(k.dealers, k.len)[0], k.s.q)
  {
    files := FairRunsSave(k, stretches);
    Keygen.PublicKeyIsJoint(k.s, k.dealers, k.len);
    forall i | 0 <= i < |requests|
      ensures files[i].id == i + 1 && files[i].y == Mod(Keygen.Joint(k.dealers, k.len)[0], k.s.q)
    {
      SavedIsExpected(k, i + 1, files[i]);
    }
  }
}
