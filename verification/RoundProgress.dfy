/** While nothing expires the rounds get stuck at a failed assertion only. */
module RoundProgress {
  import opened RoundExchange

  /** The event is not the expiry of an entry of this session. */
  ghost predicate Spares<V(!new)>(pr: Protocol<V>, e: Event<V>) {
    e.Expire? ==> !SessionKey(pr, e.key)
  }

  /** Nothing of this session expires. */
  ghost predicate NoExpiry<V(!new)>(pr: Protocol<V>, events: seq<Event<V>>) {
    forall k :: 0 <= k < |events| ==> Spares(pr, events[k])
  }

  /** What has been written for somebody is still there. */
  ghost predicate Stored<V(!new)>(pr: Protocol<V>, s: System<V>) {
    forall i, r, to :: 1 <= i <= |s.parties| && 0 <= r < |pr.rounds| && 1 <= to <= pr.n && to != i ==>
      Sent(pr, s, i, r, to) ==> MailKey(pr, i, to, r) in s.store
  }

  lemma OwnStepStores<V(!new)>(pr: Protocol<V>, s: System<V>, p: nat, r: nat, to: nat)
    requires ValidProtocol(pr) && Inv(pr, s) && 1 <= p <= pr.n && r < |pr.rounds| && 1 <= to <= pr.n && to != p
    requires !Sent(pr, s, p, r, to) && Sent(pr, Next(pr, s, Act(p)), p, r, to)
    ensures MailKey(pr, p, to, r) in Next(pr, s, Act(p)).store
  {
    assert PartyOk(pr, s, p);
    var P := s.parties[p - 1];
    if P.phase.Sending? {
      assert r == |P.done|;
    }
  }

  lemma OthersStay<V(!new)>(pr: Protocol<V>, s: System<V>, e: Event<V>, i: nat)
    requires Inv(pr, s) && 1 <= i <= pr.n
    ensures var t := Next(pr, s, e);
      |t.parties| == pr.n && (t.parties[i - 1] == s.parties[i - 1] || e == Act(i))
  {
    assert PartyOk(pr, s, i);
  }

  lemma KeepsEntries<V(!new)>(pr: Protocol<V>, s: System<V>, e: Event<V>)
    requires Spares(pr, e)
    ensures forall from: nat, to: nat, r: nat :: 1 <= from <= pr.n && r < |pr.rounds| && MailKey(pr, from, to, r) in s.store ==>
      MailKey(pr, from, to, r) in Next(pr, s, e).store
  {
    forall from: nat, to: nat, r: nat | 1 <= from <= pr.n && r < |pr.rounds| && MailKey(pr, from, to, r) in s.store
      ensures MailKey(pr, from, to, r) in Next(pr, s, e).store
    {
      assert SessionKey(pr, MailKey(pr, from, to, r));
    }
  }

  lemma StepKeepsStored<V(!new)>(pr: Protocol<V>, s: System<V>, e: Event<V>)
    requires ValidProtocol(pr) && Inv(pr, s) && Stored(pr, s) && Spares(pr, e)
    ensures Stored(pr, Next(pr, s, e))
  {
    var t := Next(pr, s, e);
    KeepsEntries(pr, s, e);
    forall i: nat, r: nat, to: nat | 1 <= i <= |t.parties| && 0 <= r < |pr.rounds| && 1 <= to <= pr.n && to != i && Sent(pr, t, i, r, to)
      ensures MailKey(pr, i, to, r) in t.store
    {
      if Sent(pr, s, i, r, to) {
        assert MailKey(pr, i, to, r) in s.store;
      } else {
        OthersStay(pr, s, e, i);
        OwnStepStores(pr, s, i, r, to);
      }
    }
  }

  lemma {:induction false} RunStored<V(!new)>(pr: Protocol<V>, store: map<string, V>, events: seq<Event<V>>)
    requires ValidProtocol(pr) && FreshSession(pr, store) && NoExpiry(pr, events)
    ensures Stored(pr, Run(pr, store, events))
    decreases |events|
  {
    if events != [] {
      var before := events[..|events| - 1];
      RunStored(pr, store, before);
      RunInv(pr, store, before);
      StepKeepsStored(pr, Run(pr, store, before), events[|events| - 1]);
    }
  }

  /** The local actions of so many rounds. */
  function Work(rounds: nat, n: nat): nat {
    if rounds == 0 then 0 else Work(rounds - 1, n) + 2 * n + 4
  }

  /** What party p still has to do, in local actions. */
  ghost function Remaining<V(!new)>(pr: Protocol<V>, s: System<V>, p: int): int {
    if !(1 <= p <= |s.parties|) || |s.parties[p - 1].done| >= |pr.rounds| then 0 else
    var P := s.parties[p - 1];
    Work(|pr.rounds| - |P.done|, pr.n) -
      match P.phase
      case Sending(to) => to
      case Polling(next, _) => pr.n + 1 + next
  }

  lemma ActionCounts<V(!new)>(pr: Protocol<V>, s: System<V>, p: nat)
    requires Inv(pr, s) && 1 <= p <= pr.n && |s.parties[p - 1].done| < |pr.rounds|
    ensures var t := Next(pr, s, Act(p));
      t == s || Remaining(pr, t, p) < Remaining(pr, s, p)
  {
    assert PartyOk(pr, s, p);
  }

  /** An action of party m would change something. */
  ghost predicate CanMove<V(!new)>(pr: Protocol<V>, s: System<V>, m: nat) {
    1 <= m <= pr.n && Next(pr, s, Act(m)) != s
  }

  /** Party p is polling for a message that is not there. */
  ghost predicate Awaits<V(!new)>(pr: Protocol<V>, s: System<V>, p: nat)
    requires |s.parties| == pr.n && 1 <= p <= pr.n
  {
    var P := s.parties[p - 1];
    && |P.done| < |pr.rounds| && P.phase.Polling? && P.phase.next <= pr.n && P.phase.next != p
    && MailKey(pr, P.phase.next, p, |P.done|) !in s.store
  }

  lemma FreeMoves<V(!new)>(pr: Protocol<V>, s: System<V>, p: nat)
    requires Inv(pr, s) && 1 <= p <= pr.n && |s.parties[p - 1].done| < |pr.rounds| && !Halted(pr, s, p) && !Awaits(pr, s, p)
    ensures CanMove(pr, s, p)
  {
    assert PartyOk(pr, s, p);
    assert Next(pr, s, Act(p)).parties[p - 1] != s.parties[p - 1];
  }

  /** Whoever has come to a round and not yet written a message of it is busy writing. */
  lemma SenderMoves<V(!new)>(pr: Protocol<V>, s: System<V>, i: nat, r: nat, to: nat)
    requires Inv(pr, s) && 1 <= i <= pr.n && r < |pr.rounds| && r <= |s.parties[i - 1].done| && !Sent(pr, s, i, r, to)
    requires Passes(pr, i, r)
    ensures |s.parties[i - 1].done| == r && CanMove(pr, s, i)
  {
    assert PartyOk(pr, s, i);
    FreeMoves(pr, s, i);
  }

  lemma AwaitedMoves<V(!new)>(pr: Protocol<V>, s: System<V>, p: nat) returns (m: nat)
    requires ValidProtocol(pr) && Inv(pr, s) && Stored(pr, s) && 1 <= p <= pr.n && Awaits(pr, s, p)
    requires SoundBelow(pr, |s.parties[p - 1].done| + 1)
    requires forall i :: 0 <= i < pr.n ==> |s.parties[p - 1].done| <= |s.parties[i].done|
    ensures CanMove(pr, s, m) && |s.parties[m - 1].done| == |s.parties[p - 1].done|
  {
    assert PartyOk(pr, s, p);
    m := s.parties[p - 1].phase.next;
    var r := |s.parties[p - 1].done|;
    assert Passes(pr, m, r);
    SenderMoves(pr, s, m, r, p);
  }

  /** Either p can move, or it waits for a party that can, as long as the assertions up to here hold. */
  lemma NoDeadlock<V(!new)>(pr: Protocol<V>, s: System<V>, p: nat, rounds: nat) returns (m: nat)
    requires ValidProtocol(pr) && Inv(pr, s) && Stored(pr, s) && rounds <= |pr.rounds| && SoundBelow(pr, rounds)
    requires 1 <= p <= pr.n && |s.parties[p - 1].done| < rounds
    requires forall i :: 0 <= i < pr.n ==> |s.parties[p - 1].done| <= |s.parties[i].done|
    ensures |s.parties| == pr.n && CanMove(pr, s, m) && |s.parties[m - 1].done| < rounds
  {
    assert PartyOk(pr, s, p);
    assert Passes(pr, p, |s.parties[p - 1].done|);
    if Awaits(pr, s, p) {
      m := AwaitedMoves(pr, s, p);
    } else {
      m := p;
      FreeMoves(pr, s, p);
    }
  }

  lemma {:induction false} LeastDone<V(!new)>(pr: Protocol<V>, s: System<V>, k: nat) returns (p: nat)
    requires 1 <= k <= |s.parties|
    ensures 1 <= p <= k
    ensures forall i :: 0 <= i < k ==> |s.parties[p - 1].done| <= |s.parties[i].done|
  {
    if k == 1 {
      p := 1;
    } else {
      p := LeastDone(pr, s, k - 1);
      if |s.parties[k - 1].done| < |s.parties[p - 1].done| {
        p := k;
      }
    }
  }

  /** What the first k parties still have to do. */
  ghost function TotalTo<V(!new)>(pr: Protocol<V>, s: System<V>, k: nat): int {
    if k == 0 then 0 else TotalTo(pr, s, k - 1) + Remaining(pr, s, k)
  }

  ghost function Total<V(!new)>(pr: Protocol<V>, s: System<V>): int {
    TotalTo(pr, s, pr.n)
  }

  lemma RemainingNonNegative<V(!new)>(pr: Protocol<V>, s: System<V>, p: nat)
    requires Inv(pr, s) && 1 <= p <= pr.n
    ensures Remaining(pr, s, p) >= 0
  {
    assert PartyOk(pr, s, p);
  }

  lemma {:induction false} TotalToNonNegative<V(!new)>(pr: Protocol<V>, s: System<V>, k: nat)
    requires Inv(pr, s) && k <= pr.n
    ensures TotalTo(pr, s, k) >= 0
  {
    if k > 0 {
      TotalToNonNegative(pr, s, k - 1);
      RemainingNonNegative(pr, s, k);
    }
  }

  lemma TotalNonNegative<V(!new)>(pr: Protocol<V>, s: System<V>)
    requires Inv(pr, s)
    ensures Total(pr, s) >= 0
  {
    TotalToNonNegative(pr, s, pr.n);
  }

  /** Nobody's remaining actions differ, except that party m's may be fewer. */
  ghost predicate LowersOnly<V(!new)>(pr: Protocol<V>, s: System<V>, t: System<V>, m: nat) {
    && Remaining(pr, t, m) < Remaining(pr, s, m)
    && forall p :: 1 <= p <= pr.n && p != m ==> Remaining(pr, t, p) == Remaining(pr, s, p)
  }

  lemma {:induction false} TotalToDrops<V(!new)>(pr: Protocol<V>, s: System<V>, t: System<V>, m: nat, k: nat)
    requires LowersOnly(pr, s, t, m) && m >= 1 && k <= pr.n
    ensures if k < m then TotalTo(pr, t, k) == TotalTo(pr, s, k) else TotalTo(pr, t, k) < TotalTo(pr, s, k)
  {
    if k > 0 {
      TotalToDrops(pr, s, t, m, k - 1);
    }
  }

  lemma {:induction false} SameTotalTo<V(!new)>(pr: Protocol<V>, s: System<V>, t: System<V>, k: nat)
    requires s.parties == t.parties
    ensures TotalTo(pr, t, k) == TotalTo(pr, s, k)
  {
    if k > 0 {
      SameTotalTo(pr, s, t, k - 1);
    }
  }

  lemma ActionLowersOnly<V(!new)>(pr: Protocol<V>, s: System<V>, m: nat)
    requires ValidProtocol(pr) && Inv(pr, s) && 1 <= m <= pr.n && |s.parties[m - 1].done| < |pr.rounds|
    requires Next(pr, s, Act(m)) != s
    ensures LowersOnly(pr, s, Next(pr, s, Act(m)), m)
  {
    ActionCounts(pr, s, m);
    forall p: nat | 1 <= p <= pr.n && p != m ensures Remaining(pr, Next(pr, s, Act(m)), p) == Remaining(pr, s, p) {
      OthersStay(pr, s, Act(m), p);
    }
  }

  lemma StepLowersTotal<V(!new)>(pr: Protocol<V>, s: System<V>, m: nat)
    requires ValidProtocol(pr) && Inv(pr, s) && 1 <= m <= pr.n && |s.parties[m - 1].done| < |pr.rounds|
    requires Next(pr, s, Act(m)) != s
    ensures Total(pr, Next(pr, s, Act(m))) < Total(pr, s)
  {
    ActionLowersOnly(pr, s, m);
    TotalToDrops(pr, s, Next(pr, s, Act(m)), m, pr.n);
  }

  /** Everybody has so many rounds behind it. */
  ghost predicate AllPast<V(!new)>(pr: Protocol<V>, s: System<V>, rounds: nat) {
    |s.parties| == pr.n && forall i :: 0 <= i < pr.n ==> rounds <= |s.parties[i].done| <= |pr.rounds|
  }

  lemma MoveLowersTotal<V(!new)>(pr: Protocol<V>, s: System<V>, m: nat)
    requires ValidProtocol(pr) && Inv(pr, s) && CanMove(pr, s, m)
    ensures Total(pr, Next(pr, s, Act(m))) < Total(pr, s)
  {
    assert PartyOk(pr, s, m);
    StepLowersTotal(pr, s, m);
  }

  /** While somebody is not past those rounds, somebody can move. */
  lemma SomebodyMoves<V(!new)>(pr: Protocol<V>, store: map<string, V>, events: seq<Event<V>>, rounds: nat) returns (m: nat)
    requires ValidProtocol(pr) && FreshSession(pr, store) && NoExpiry(pr, events)
    requires rounds <= |pr.rounds| && SoundBelow(pr, rounds)
    ensures AllPast(pr, Run(pr, store, events), rounds) || CanMove(pr, Run(pr, store, events), m)
  {
    var s := Run(pr, store, events);
    RunInv(pr, store, events);
    RunStored(pr, store, events);
    m := 0;
    if pr.n >= 1 {
      var p := LeastDone(pr, s, pr.n);
      if |s.parties[p - 1].done| < rounds {
        m := NoDeadlock(pr, s, p, rounds);
      } else {
        forall i | 0 <= i < pr.n ensures |s.parties[i].done| <= |pr.rounds| {
          assert PartyOk(pr, s, i + 1);
        }
      }
    }
  }

  /** As long as nothing expires and no assertion fails before so many rounds, every reachable state
      extends to one where all parties have those rounds behind them. */
  lemma {:induction false} CanReach<V(!new)>(pr: Protocol<V>, store: map<string, V>, events: seq<Event<V>>, rounds: nat)
    returns (all: seq<Event<V>>)
    requires ValidProtocol(pr) && FreshSession(pr, store) && NoExpiry(pr, events)
    requires rounds <= |pr.rounds| && SoundBelow(pr, rounds)
    ensures events <= all && NoExpiry(pr, all) && AllPast(pr, Run(pr, store, all), rounds)
    decreases Total(pr, Run(pr, store, events))
  {
    all := events;
    if !AllPast(pr, Run(pr, store, events), rounds) {
      var more := OneMoreStep(pr, store, events, rounds);
      all := CanReach(pr, store, more, rounds);
    }
  }

  lemma OneMoreStep<V(!new)>(pr: Protocol<V>, store: map<string, V>, events: seq<Event<V>>, rounds: nat)
    returns (more: seq<Event<V>>)
    requires ValidProtocol(pr) && FreshSession(pr, store) && NoExpiry(pr, events)
    requires rounds <= |pr.rounds| && SoundBelow(pr, rounds) && !AllPast(pr, Run(pr, store, events), rounds)
    ensures events <= more && NoExpiry(pr, more)
    ensures 0 <= Total(pr, Run(pr, store, more)) < Total(pr, Run(pr, store, events))
  {
    var m := SomebodyMoves(pr, store, events, rounds);
    more := events + [Act(m)];
    assert more[..|events|] == events;
    RunInv(pr, store, events);
    RunInv(pr, store, more);
    MoveLowersTotal(pr, Run(pr, store, events), m);
    TotalNonNegative(pr, Run(pr, store, more));
    forall k | 0 <= k < |more| ensures Spares(pr, more[k]) {
      assert k < |events| ==> more[k] == events[k] && Spares(pr, events[k]);
    }
  }

  // ---- runs that neglect nobody ----

  /** Party p acts between the two points of the run. */
  ghost predicate ActsIn<V(!new)>(events: seq<Event<V>>, cut: nat, end: nat, p: nat)
    requires end <= |events|
  {
    exists k :: cut <= k < end && events[k] == Act(p)
  }

  /** The run up to this point falls into at least so many stretches in each of which everybody acts. */
  ghost predicate Fair<V(!new)>(events: seq<Event<V>>, n: nat, end: nat, stretches: nat)
    requires end <= |events|
    decreases stretches
  {
    stretches == 0 || exists cut: nat :: cut <= end && Fair(events, n, cut, stretches - 1) && Visits(events, n, cut, end)
  }

  ghost predicate Visits<V(!new)>(events: seq<Event<V>>, n: nat, cut: nat, end: nat)
    requires end <= |events|
  {
    forall p: nat :: 1 <= p <= n ==> ActsIn(events, cut, end, p)
  }

  lemma TotalNeverRises<V(!new)>(pr: Protocol<V>, s: System<V>, e: Event<V>)
    requires ValidProtocol(pr) && Inv(pr, s)
    ensures Total(pr, Next(pr, s, e)) <= Total(pr, s)
  {
    var t := Next(pr, s, e);
    if e.Act? && t != s {
      StepLowersTotal(pr, s, e.p);
    } else {
      SameTotalTo(pr, s, t, pr.n);
    }
  }

  /** Whoever can move has rounds to go, has not halted, and waits for nothing. */
  lemma MoverIsFree<V(!new)>(pr: Protocol<V>, s: System<V>, m: nat)
    requires |s.parties| == pr.n && CanMove(pr, s, m)
    ensures |s.parties[m - 1].done| < |pr.rounds| && !Halted(pr, s, m) && !Awaits(pr, s, m)
  {
    if |s.parties[m - 1].done| >= |pr.rounds| || Halted(pr, s, m) {
      StoppedStays(pr, s, m);
    } else if Awaits(pr, s, m) {
      WaiterStays(pr, s, m);
    }
  }

  lemma StoppedStays<V(!new)>(pr: Protocol<V>, s: System<V>, m: nat)
    requires 1 <= m <= |s.parties| && (|s.parties[m - 1].done| >= |pr.rounds| || Halted(pr, s, m))
    ensures Next(pr, s, Act(m)) == s
  {
  }

  lemma WaiterStays<V(!new)>(pr: Protocol<V>, s: System<V>, m: nat)
    requires |s.parties| == pr.n && 1 <= m <= pr.n && Awaits(pr, s, m)
    ensures Next(pr, s, Act(m)) == s
  {
  }

  /** Who can move can still move after what others do, unless something expires. */
  lemma StillMoves<V(!new)>(pr: Protocol<V>, s: System<V>, e: Event<V>, m: nat)
    requires ValidProtocol(pr) && Inv(pr, s) && CanMove(pr, s, m) && e != Act(m) && Spares(pr, e)
    ensures CanMove(pr, Next(pr, s, e), m)
  {
    MoverIsFree(pr, s, m);
    OthersStay(pr, s, e, m);
    StaysServed(pr, s, e, m);
    NextPreserves(pr, s, e);
    FreeMoves(pr, Next(pr, s, e), m);
  }

  lemma StaysServed<V(!new)>(pr: Protocol<V>, s: System<V>, e: Event<V>, m: nat)
    requires Inv(pr, s) && 1 <= m <= pr.n && |s.parties[m - 1].done| < |pr.rounds| && !Awaits(pr, s, m) && Spares(pr, e)
    requires var t := Next(pr, s, e); |t.parties| == pr.n && t.parties[m - 1] == s.parties[m - 1]
    ensures !Awaits(pr, Next(pr, s, e), m)
  {
    assert PartyOk(pr, s, m);
    KeepsEntries(pr, s, e);
  }

  /** The state at a point of the run. */
  ghost function StateAt<V(!new)>(pr: Protocol<V>, store: map<string, V>, events: seq<Event<V>>, k: nat): System<V>
    requires k <= |events|
  {
    Run(pr, store, events[..k])
  }

  lemma StateNext<V(!new)>(pr: Protocol<V>, store: map<string, V>, events: seq<Event<V>>, k: nat)
    requires ValidProtocol(pr) && FreshSession(pr, store) && k < |events|
    ensures StateAt(pr, store, events, k + 1) == Next(pr, StateAt(pr, store, events, k), events[k])
    ensures Inv(pr, StateAt(pr, store, events, k))
  {
    assert events[..k + 1][..k] == events[..k];
    RunInv(pr, store, events[..k]);
  }

  lemma StillMovesAtPoint<V(!new)>(pr: Protocol<V>, store: map<string, V>, events: seq<Event<V>>, k: nat, m: nat)
    requires ValidProtocol(pr) && FreshSession(pr, store) && k < |events|
    requires CanMove(pr, StateAt(pr, store, events, k), m) && events[k] != Act(m) && Spares(pr, events[k])
    ensures CanMove(pr, StateAt(pr, store, events, k + 1), m)
  {
    StateNext(pr, store, events, k);
    StillMoves(pr, StateAt(pr, store, events, k), events[k], m);
  }

  /** As long as it does not act, a party can move and the total does not rise. */
  lemma {:induction false} WaitsToMove<V(!new)>(pr: Protocol<V>, store: map<string, V>, events: seq<Event<V>>, cut: nat, end: nat, m: nat)
    requires ValidProtocol(pr) && FreshSession(pr, store) && NoExpiry(pr, events) && cut <= end <= |events|
    requires CanMove(pr, StateAt(pr, store, events, cut), m) && !ActsIn(events, cut, end, m)
    ensures CanMove(pr, StateAt(pr, store, events, end), m)
    ensures Total(pr, StateAt(pr, store, events, end)) <= Total(pr, StateAt(pr, store, events, cut))
    decreases end
  {
    if cut < end {
      var k := end - 1;
      WaitsToMove(pr, store, events, cut, k, m);
      StillMovesAtPoint(pr, store, events, k, m);
      PointLowers(pr, store, events, k);
    }
  }

  /** Once it has acted, the total is lower. */
  lemma {:induction false} MovesInStretch<V(!new)>(pr: Protocol<V>, store: map<string, V>, events: seq<Event<V>>, cut: nat, end: nat, m: nat)
    requires ValidProtocol(pr) && FreshSession(pr, store) && NoExpiry(pr, events) && cut <= end <= |events|
    requires CanMove(pr, StateAt(pr, store, events, cut), m) && ActsIn(events, cut, end, m)
    ensures Total(pr, StateAt(pr, store, events, end)) < Total(pr, StateAt(pr, store, events, cut))
    decreases end
  {
    var k := end - 1;
    if ActsIn(events, cut, k, m) {
      MovesInStretch(pr, store, events, cut, k, m);
      PointLowers(pr, store, events, k);
    } else {
      ActsLast(events, cut, end, m);
      WaitsToMove(pr, store, events, cut, k, m);
      MovesAtPoint(pr, store, events, k, m);
    }
  }

  lemma ActsLast<V(!new)>(events: seq<Event<V>>, cut: nat, end: nat, p: nat)
    requires 1 <= end <= |events| && ActsIn(events, cut, end, p) && !ActsIn(events, cut, end - 1, p)
    ensures cut < end && events[end - 1] == Act(p)
  {
  }

  lemma PointLowers<V(!new)>(pr: Protocol<V>, store: map<string, V>, events: seq<Event<V>>, k: nat)
    requires ValidProtocol(pr) && FreshSession(pr, store) && k < |events|
    ensures Total(pr, StateAt(pr, store, events, k + 1)) <= Total(pr, StateAt(pr, store, events, k))
  {
    StateNext(pr, store, events, k);
    TotalNeverRises(pr, StateAt(pr, store, events, k), events[k]);
  }

  lemma MovesAtPoint<V(!new)>(pr: Protocol<V>, store: map<string, V>, events: seq<Event<V>>, k: nat, m: nat)
    requires ValidProtocol(pr) && FreshSession(pr, store) && k < |events|
    requires events[k] == Act(m) && CanMove(pr, StateAt(pr, store, events, k), m)
    ensures Total(pr, StateAt(pr, store, events, k + 1)) < Total(pr, StateAt(pr, store, events, k))
  {
    StateNext(pr, store, events, k);
    MoveLowersTotal(pr, StateAt(pr, store, events, k), m);
  }

  lemma StepStaysPast<V(!new)>(pr: Protocol<V>, s: System<V>, e: Event<V>, rounds: nat)
    requires ValidProtocol(pr) && Inv(pr, s) && AllPast(pr, s, rounds)
    ensures AllPast(pr, Next(pr, s, e), rounds)
  {
    var t := Next(pr, s, e);
    NextPreserves(pr, s, e);
    forall i | 0 <= i < pr.n ensures rounds <= |t.parties[i].done| <= |pr.rounds| {
      assert PartyOk(pr, t, i + 1);
      NeverBack(pr, s, e, i);
    }
  }

  lemma NeverBack<V(!new)>(pr: Protocol<V>, s: System<V>, e: Event<V>, i: nat)
    requires i < |s.parties| == |Next(pr, s, e).parties|
    ensures |s.parties[i].done| <= |Next(pr, s, e).parties[i].done|
  {
  }

  lemma {:induction false} StaysPast<V(!new)>(pr: Protocol<V>, store: map<string, V>, events: seq<Event<V>>, cut: nat, end: nat, rounds: nat)
    requires ValidProtocol(pr) && FreshSession(pr, store) && cut <= end <= |events|
    requires AllPast(pr, StateAt(pr, store, events, cut), rounds)
    ensures AllPast(pr, StateAt(pr, store, events, end), rounds)
    decreases end
  {
    if cut < end {
      StaysPast(pr, store, events, cut, end - 1, rounds);
      StaysPastAtPoint(pr, store, events, end - 1, rounds);
    }
  }

  lemma StaysPastAtPoint<V(!new)>(pr: Protocol<V>, store: map<string, V>, events: seq<Event<V>>, k: nat, rounds: nat)
    requires ValidProtocol(pr) && FreshSession(pr, store) && k < |events|
    requires AllPast(pr, StateAt(pr, store, events, k), rounds)
    ensures AllPast(pr, StateAt(pr, store, events, k + 1), rounds)
  {
    StateNext(pr, store, events, k);
    StepStaysPast(pr, StateAt(pr, store, events, k), events[k], rounds);
  }

  /** Each stretch lowers the total, unless everybody is past those rounds. */
  lemma {:induction false} StretchesCount<V(!new)>(pr: Protocol<V>, store: map<string, V>, events: seq<Event<V>>, end: nat,
      stretches: nat, rounds: nat)
    requires ValidProtocol(pr) && FreshSession(pr, store) && NoExpiry(pr, events) && end <= |events|
    requires Fair(events, pr.n, end, stretches) && rounds <= |pr.rounds| && SoundBelow(pr, rounds)
    ensures AllPast(pr, StateAt(pr, store, events, end), rounds)
      || Total(pr, StateAt(pr, store, events, end)) + stretches <= Total(pr, Initial(pr, store))
    decreases stretches
  {
    if stretches == 0 {
      NeverAboveStart(pr, store, events, end);
    } else {
      var cut: nat :| cut <= end && Fair(events, pr.n, cut, stretches - 1) && Visits(events, pr.n, cut, end);
      StretchesCount(pr, store, events, cut, stretches - 1, rounds);
      if AllPast(pr, StateAt(pr, store, events, cut), rounds) {
        StaysPast(pr, store, events, cut, end, rounds);
      } else {
        var m := SomebodyMoves(pr, store, events[..cut], rounds);
        MovesInStretch(pr, store, events, cut, end, m);
      }
    }
  }

  lemma {:induction false} NeverAboveStart<V(!new)>(pr: Protocol<V>, store: map<string, V>, events: seq<Event<V>>, end: nat)
    requires ValidProtocol(pr) && FreshSession(pr, store) && end <= |events|
    ensures Total(pr, StateAt(pr, store, events, end)) <= Total(pr, Initial(pr, store))
    decreases end
  {
    if end > 0 {
      NeverAboveStart(pr, store, events, end - 1);
      PointLowers(pr, store, events, end - 1);
    }
  }

  /** The local actions so many of n parties can take in all. */
  function AllWork(parties: nat, n: nat, rounds: nat): nat {
    if parties == 0 then 0 else AllWork(parties - 1, n, rounds) + Work(rounds, n)
  }

  lemma {:induction false} StartTotalTo<V(!new)>(pr: Protocol<V>, store: map<string, V>, k: nat)
    requires k <= pr.n
    ensures TotalTo(pr, Initial(pr, store), k) <= AllWork(k, pr.n, |pr.rounds|)
  {
    if k > 0 {
      StartTotalTo(pr, store, k - 1);
    }
  }

  /** Progress in every run that neglects nobody: when no assertion fails before so many rounds and
      nothing expires, more stretches than there are actions to take bring everybody past those
      rounds, whatever the order within the stretches. */
  lemma {:induction false} FairRunsFinish<V(!new)>(pr: Protocol<V>, store: map<string, V>, events: seq<Event<V>>, stretches: nat, rounds: nat)
    requires ValidProtocol(pr) && FreshSession(pr, store) && NoExpiry(pr, events)
    requires Fair(events, pr.n, |events|, stretches) && stretches > AllWork(pr.n, pr.n, |pr.rounds|)
    requires rounds <= |pr.rounds| && SoundBelow(pr, rounds)
    ensures AllPast(pr, Run(pr, store, events), rounds)
  {
    StretchesCount(pr, store, events, |events|, stretches, rounds);
    StartTotalTo(pr, store, pr.n);
    RunInv(pr, store, events);
    TotalNonNegative(pr, Run(pr, store, events));
    assert events[..|events|] == events;
  }

  // ---- lost messages ----

  /** Party i wrote its round-r message for p; the entry has expired, and p has not read it. */
  ghost predicate Lost<V(!new)>(pr: Protocol<V>, s: System<V>, i: nat, p: nat, r: nat) {
    && |s.parties| == pr.n && 1 <= i <= pr.n && 1 <= p <= pr.n && i != p && r < |pr.rounds|
    && Sent(pr, s, i, r, p) && MailKey(pr, i, p, r) !in s.store
    && |s.parties[p - 1].done| == r && (s.parties[p - 1].phase.Polling? ==> s.parties[p - 1].phase.next <= i)
  }

  lemma NotWrittenAgain<V(!new)>(pr: Protocol<V>, s: System<V>, e: Event<V>, i: nat, p: nat, r: nat)
    requires ValidProtocol(pr) && Inv(pr, s) && Lost(pr, s, i, p, r)
    ensures MailKey(pr, i, p, r) !in Next(pr, s, e).store
  {
    assert SessionKey(pr, MailKey(pr, i, p, r));
    if e.Act? && 1 <= e.p <= pr.n && Next(pr, s, e).store != s.store {
      WritesOther(pr, s, e.p, i, p, r);
    }
  }

  lemma WritesOther<V(!new)>(pr: Protocol<V>, s: System<V>, k: nat, i: nat, p: nat, r: nat)
    requires ValidProtocol(pr) && Inv(pr, s) && Lost(pr, s, i, p, r) && 1 <= k <= pr.n
    requires Next(pr, s, Act(k)).store != s.store
    ensures MailKey(pr, i, p, r) !in Next(pr, s, Act(k)).store
  {
    var P := s.parties[k - 1];
    var to := if pr.rounds[|P.done|].kind.ToAll? then 0 else P.phase.to;
    assert PartyOk(pr, s, k);
    if MailKey(pr, i, p, r) == MailKey(pr, k, to, |P.done|) {
      MailKeysInjective(pr, i, p, r, k, to, |P.done|);
    }
  }

  lemma StillSent<V(!new)>(pr: Protocol<V>, s: System<V>, e: Event<V>, i: nat, p: nat, r: nat)
    requires Inv(pr, s) && 1 <= i <= pr.n && r < |pr.rounds| && Sent(pr, s, i, r, p)
    ensures |Next(pr, s, e).parties| == pr.n && Sent(pr, Next(pr, s, e), i, r, p)
  {
    assert PartyOk(pr, s, i);
  }

  lemma StillWaiting<V(!new)>(pr: Protocol<V>, s: System<V>, e: Event<V>, i: nat, p: nat, r: nat)
    requires Inv(pr, s) && Lost(pr, s, i, p, r)
    ensures var t := Next(pr, s, e);
      && |t.parties| == pr.n && |t.parties[p - 1].done| == r
      && (t.parties[p - 1].phase.Polling? ==> t.parties[p - 1].phase.next <= i)
  {
    OthersStay(pr, s, e, p);
    if e == Act(p) {
      WaitsOn(pr, s, i, p, r);
    }
  }

  lemma WaitsOn<V(!new)>(pr: Protocol<V>, s: System<V>, i: nat, p: nat, r: nat)
    requires Inv(pr, s) && Lost(pr, s, i, p, r)
    ensures var t := Next(pr, s, Act(p));
      && |t.parties| == pr.n && |t.parties[p - 1].done| == r
      && (t.parties[p - 1].phase.Polling? ==> t.parties[p - 1].phase.next <= i)
  {
    assert PartyOk(pr, s, p);
  }

  lemma StaysLost<V(!new)>(pr: Protocol<V>, s: System<V>, e: Event<V>, i: nat, p: nat, r: nat)
    requires ValidProtocol(pr) && Inv(pr, s) && Lost(pr, s, i, p, r)
    ensures Lost(pr, Next(pr, s, e), i, p, r)
  {
    NotWrittenAgain(pr, s, e, i, p, r);
    StillSent(pr, s, e, i, p, r);
    StillWaiting(pr, s, e, i, p, r);
  }

  /** A message that expires before it is read is not written again: its reader stays in that round for
      good, whatever happens. So expiry does stop sessions. */
  lemma {:induction false} LostForGood<V(!new)>(pr: Protocol<V>, store: map<string, V>, events: seq<Event<V>>, more: seq<Event<V>>,
      i: nat, p: nat, r: nat)
    requires ValidProtocol(pr) && FreshSession(pr, store)
    requires 1 <= i <= pr.n && 1 <= p <= pr.n && i != p && r < |pr.rounds|
    requires var s := Run(pr, store, events);
      && |s.parties| == pr.n && Sent(pr, s, i, r, p) && |s.parties[p - 1].done| == r
      && (s.parties[p - 1].phase.Polling? ==> s.parties[p - 1].phase.next <= i)
    ensures var t := Run(pr, store, events + [Expire(MailKey(pr, i, p, r))] + more);
      |t.parties| == pr.n && |t.parties[p - 1].done| == r
  {
    var gone := events + [Expire(MailKey(pr, i, p, r))];
    assert gone[..|events|] == events;
    RunStaysLost(pr, store, gone, more, i, p, r);
  }

  lemma {:induction false} RunStaysLost<V(!new)>(pr: Protocol<V>, store: map<string, V>, events: seq<Event<V>>, more: seq<Event<V>>,
      i: nat, p: nat, r: nat)
    requires ValidProtocol(pr) && FreshSession(pr, store) && Lost(pr, Run(pr, store, events), i, p, r)
    ensures Lost(pr, Run(pr, store, events + more), i, p, r)
    decreases |more|
  {
    if more == [] {
      assert events + more == events;
    } else {
      var n := |more| - 1;
      RunStaysLost(pr, store, events, more[..n], i, p, r);
      assert (events + more)[..|events + more| - 1] == events + more[..n];
      NextStaysLost(pr, store, events + more[..n], more[n], i, p, r);
    }
  }

  lemma NextStaysLost<V(!new)>(pr: Protocol<V>, store: map<string, V>, events: seq<Event<V>>, e: Event<V>, i: nat, p: nat, r: nat)
    requires ValidProtocol(pr) && FreshSession(pr, store) && Lost(pr, Run(pr, store, events), i, p, r)
    ensures Lost(pr, Next(pr, Run(pr, store, events), e), i, p, r)
  {
    RunInv(pr, store, events);
    StaysLost(pr, Run(pr, store, events), e, i, p, r);
  }

  // ---- who halts ----

  /** In a sound protocol nobody ever halts. */
  lemma {:induction false} NobodyHalts<V(!new)>(pr: Protocol<V>, store: map<string, V>, events: seq<Event<V>>, p: nat)
    requires ValidProtocol(pr) && FreshSession(pr, store) && 1 <= p <= pr.n && Sound(pr)
    ensures var s := Run(pr, store, events); |s.parties| == pr.n && !Halted(pr, s, p)
  {
    HaltsAsInSync(pr, store, events, p);
  }

  /** In a protocol that is not sound some run halts some party, even if nothing expires. */
  lemma SomebodyHalts<V(!new)>(pr: Protocol<V>, store: map<string, V>) returns (events: seq<Event<V>>, p: nat)
    requires ValidProtocol(pr) && FreshSession(pr, store) && !Sound(pr)
    ensures NoExpiry(pr, events) && 1 <= p <= pr.n
    ensures var s := Run(pr, store, events); |s.parties| == pr.n && Halted(pr, s, p)
  {
    var r := FirstFailure(pr, |pr.rounds| + 1);
    p :| 1 <= p <= pr.n && !Passes(pr, p, r);
    events := CanReach(pr, store, [], r);
    HaltsAsInSync(pr, store, events, p);
    events := GoesOn(pr, store, events, p);
  }

  /** A party in a round that fails it goes on sending until it halts. */
  lemma {:induction false} GoesOn<V(!new)>(pr: Protocol<V>, store: map<string, V>, events: seq<Event<V>>, p: nat)
    returns (all: seq<Event<V>>)
    requires ValidProtocol(pr) && FreshSession(pr, store) && NoExpiry(pr, events) && 1 <= p <= pr.n
    requires var s := Run(pr, store, events);
      |s.parties| == pr.n && |s.parties[p - 1].done| <= |pr.rounds| && !Passes(pr, p, |s.parties[p - 1].done|)
    ensures events <= all && NoExpiry(pr, all)
    ensures var s := Run(pr, store, all); |s.parties| == pr.n && Halted(pr, s, p)
    decreases Total(pr, Run(pr, store, events))
  {
    var s := Run(pr, store, events);
    RunInv(pr, store, events);
    HaltsAsInSync(pr, store, events, p);
    all := events;
    if !Halted(pr, s, p) {
      SendsOn(pr, s, p);
      assert (events + [Act(p)])[..|events|] == events;
      TotalNonNegative(pr, s);
      StepLowersTotal(pr, s, p);
      all := GoesOn(pr, store, events + [Act(p)], p);
    }
  }

  lemma SendsOn<V(!new)>(pr: Protocol<V>, s: System<V>, p: nat)
    requires Inv(pr, s) && 1 <= p <= pr.n && !Halted(pr, s, p) && |s.parties[p - 1].done| <= |pr.rounds|
    requires !Passes(pr, p, |s.parties[p - 1].done|)
    ensures |s.parties[p - 1].done| < |pr.rounds|
    ensures var t := Next(pr, s, Act(p));
      t != s && |t.parties| == pr.n && t.parties[p - 1].done == s.parties[p - 1].done
  {
    assert PartyOk(pr, s, p);
    assert Next(pr, s, Act(p)).parties[p - 1].phase != s.parties[p - 1].phase;
  }

  lemma {:induction false} FirstFailure<V(!new)>(pr: Protocol<V>, rounds: nat) returns (r: nat)
    requires rounds <= |pr.rounds| + 1 && !SoundBelow(pr, rounds)
    ensures r <= |pr.rounds| && SoundBelow(pr, r) && exists p :: 1 <= p <= pr.n && !Passes(pr, p, r)
  {
    if SoundBelow(pr, rounds - 1) {
      r := rounds - 1;
    } else {
      r := FirstFailure(pr, rounds - 1);
    }
  }
}
