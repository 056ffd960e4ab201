/** Rounds over the shared store, run by n parties in any interleaving while entries may expire.

    Each party writes its message under a string key, polls the others in index order, and puts
    its own value back. Between the rounds it goes through its assertions, and halts for good when
    one fails. The theorem is a refinement: whatever the schedule and whatever expires, what a party
    holds after r rounds is what the lock-step execution `SyncHist` gives it. */
module RoundExchange {
  import opened Reassembly
  import opened StoreKeys

  /** A round goes to everybody under one key, or to each party under a key of its own. */
  datatype Kind = ToAll | ToEach

  datatype Round = Round(name: string, kind: Kind)

  /** A session of n parties: `payload(from, to, r, hist)` is what `from` writes for `to` in
      round r, having gathered the vectors `hist` in the earlier rounds; `checks(p, hist)` says
      whether p, having gathered `hist`, gets past its assertions, and `fits(p, to, hist)` whether it
      can then prepare its message for `to`. */
  datatype Protocol<!V(!new)> = Protocol(n: nat, uuid: string, rounds: seq<Round>,
    payload: (nat, nat, nat, seq<seq<V>>) -> V, checks: (nat, seq<seq<V>>) -> bool,
    fits: (nat, nat, seq<seq<V>>) -> bool)

  ghost predicate ValidProtocol<V(!new)>(pr: Protocol<V>) {
    ValidRounds(pr.rounds)
  }

  ghost predicate ValidRounds(rounds: seq<Round>) {
    NamesOk(rounds) && NamesDiffer(rounds)
  }

  ghost predicate NamesOk(rounds: seq<Round>) {
    forall r :: 0 <= r < |rounds| ==> RoundName(rounds[r].name)
  }

  ghost predicate NamesDiffer(rounds: seq<Round>) {
    forall r, s :: 0 <= r < s < |rounds| ==> rounds[r].name != rounds[s].name
  }

  /** In a broadcast round the message cannot depend on who reads it. */
  function Message<V(!new)>(pr: Protocol<V>, from: nat, to: nat, r: nat, hist: seq<seq<V>>): V
    requires r < |pr.rounds|
  {
    pr.payload(from, if pr.rounds[r].kind.ToAll? then 0 else to, r, hist)
  }

  function CellOf<V(!new)>(pr: Protocol<V>, from: nat, to: nat, r: nat): Cell
    requires r < |pr.rounds|
  {
    var name := pr.rounds[r].name;
    if pr.rounds[r].kind.ToAll? then Broadcast(from, name, pr.uuid) else PeerToPeer(from, to, name, pr.uuid)
  }

  function MailKey<V(!new)>(pr: Protocol<V>, from: nat, to: nat, r: nat): string
    requires r < |pr.rounds|
  {
    KeyOf(CellOf(pr, from, to, r))
  }

  // ---- the lock-step execution ----

  /** The vector party p holds for round r when everybody moves together. */
  ghost function SyncView<V(!new)>(pr: Protocol<V>, p: nat, r: nat): (v: seq<V>)
    requires r < |pr.rounds|
    ensures |v| == pr.n
    decreases r, 1
  {
    seq(pr.n, i requires 0 <= i < pr.n => Message(pr, i + 1, p, r, SyncHist(pr, i + 1, r)))
  }

  ghost function SyncHist<V(!new)>(pr: Protocol<V>, p: nat, r: nat): (h: seq<seq<V>>)
    requires r <= |pr.rounds|
    ensures |h| == r
    decreases r, 0
  {
    if r == 0 then [] else SyncHist(pr, p, r - 1) + [SyncView(pr, p, r - 1)]
  }

  lemma {:induction false} SyncHistAt<V(!new)>(pr: Protocol<V>, p: nat, r: nat, k: nat)
    requires k < r <= |pr.rounds|
    ensures SyncHist(pr, p, r)[k] == SyncView(pr, p, k)
  {
    if k < r - 1 {
      SyncHistAt(pr, p, r - 1, k);
    }
  }

  lemma {:induction false} SyncViewAt<V(!new)>(pr: Protocol<V>, p: nat, r: nat, i: nat)
    requires r < |pr.rounds| && i < pr.n
    ensures SyncView(pr, p, r)[i] == Message(pr, i + 1, p, r, SyncHist(pr, i + 1, r))
  {
  }

  /** What a party gathered in round r, if it got that far. */
  function View<V>(hist: seq<seq<V>>, r: nat): seq<V> {
    if r < |hist| then hist[r] else []
  }

  lemma {:induction false} HistView<V(!new)>(pr: Protocol<V>, p: nat, r: nat, k: nat)
    requires k < r <= |pr.rounds|
    ensures View(SyncHist(pr, p, r), k) == SyncView(pr, p, k)
  {
    SyncHistAt(pr, p, r, k);
  }

  /** In the lock-step execution party p can prepare its messages of round r for those before `to`. */
  ghost predicate Prepares<V(!new)>(pr: Protocol<V>, p: nat, r: nat, to: nat)
    requires r < |pr.rounds|
  {
    pr.rounds[r].kind.ToEach? ==>
      forall i :: 1 <= i < to && i <= pr.n && i != p ==> pr.fits(p, i, SyncHist(pr, p, r))
  }

  /** In the lock-step execution party p gets past its assertions after r rounds, and through the
      messages of the next. */
  ghost predicate Passes<V(!new)>(pr: Protocol<V>, p: nat, r: nat)
    requires r <= |pr.rounds|
  {
    pr.checks(p, SyncHist(pr, p, r)) && (r < |pr.rounds| ==> Prepares(pr, p, r, pr.n + 1))
  }

  // ---- the concurrent execution ----

  /** Where a party is in its current round: the recipient it writes to next, or the party it
      polls next with the answers so far. */
  datatype Phase<V> = Sending(to: nat) | Polling(next: nat, answers: seq<V>)

  datatype Party<V> = Party(done: seq<seq<V>>, phase: Phase<V>)

  datatype System<V> = System(store: map<string, V>, parties: seq<Party<V>>)

  /** A local action of one party, the expiry of an entry, or a write of anybody else. */
  datatype Event<V> = Act(p: nat) | Expire(key: string) | Foreign(key: string, value: V)

  function Initial<V(!new)>(pr: Protocol<V>, store: map<string, V>): (s: System<V>)
  {
    System(store, seq(pr.n, _ => Party([], Sending(1))))
  }

  /** The keys under which the n parties write. Another member of their room, whose number is past
      n, writes under none of these. */
  ghost predicate SessionKey<V(!new)>(pr: Protocol<V>, key: string) {
    exists from: nat, to: nat, r: nat :: 1 <= from <= pr.n && r < |pr.rounds| && key == MailKey(pr, from, to, r)
  }

  function SendStep<V(!new)>(pr: Protocol<V>, s: System<V>, p: nat, to: nat): System<V>
    requires 1 <= p <= |s.parties| && |s.parties[p - 1].done| < |pr.rounds|
  {
    var P := s.parties[p - 1];
    var r := |P.done|;
    if pr.rounds[r].kind.ToAll? then
      System(s.store[MailKey(pr, p, 0, r) := Message(pr, p, 0, r, P.done)], s.parties[p - 1 := P.(phase := Polling(1, []))])
    else if to > pr.n then
      System(s.store, s.parties[p - 1 := P.(phase := Polling(1, []))])
    else if to == p then
      System(s.store, s.parties[p - 1 := P.(phase := Sending(to + 1))])
    else
      System(s.store[MailKey(pr, p, to, r) := Message(pr, p, to, r, P.done)], s.parties[p - 1 := P.(phase := Sending(to + 1))])
  }

  function PollStep<V(!new)>(pr: Protocol<V>, s: System<V>, p: nat, next: nat, answers: seq<V>): System<V>
    requires 1 <= p <= |s.parties| && |s.parties[p - 1].done| < |pr.rounds|
  {
    var P := s.parties[p - 1];
    var r := |P.done|;
    if next > pr.n then
      if p <= pr.n && p - 1 > |answers| then s else
      System(s.store, s.parties[p - 1 :=
        Party(P.done + [Assemble(pr.n, answers, p, Message(pr, p, p, r, P.done))], Sending(1))])
    else if next == p then
      System(s.store, s.parties[p - 1 := P.(phase := Polling(next + 1, answers))])
    else
      var key := MailKey(pr, next, p, r);
      if key in s.store then
        System(s.store, s.parties[p - 1 := P.(phase := Polling(next + 1, answers + [s.store[key]]))])
      else s
  }

  /** Party p is about to write for one it cannot prepare a message for. */
  predicate Misfit<V(!new)>(pr: Protocol<V>, p: nat, P: Party<V>) {
    && |P.done| < |pr.rounds| && pr.rounds[|P.done|].kind.ToEach? && P.phase.Sending?
    && 1 <= P.phase.to <= pr.n && P.phase.to != p && !pr.fits(p, P.phase.to, P.done)
  }

  /** An assertion of party p fails on what it has gathered, or its next message cannot be prepared. */
  ghost predicate Halted<V(!new)>(pr: Protocol<V>, s: System<V>, p: nat)
    requires 1 <= p <= |s.parties|
  {
    !pr.checks(p, s.parties[p - 1].done) || Misfit(pr, p, s.parties[p - 1])
  }

  ghost function Next<V(!new)>(pr: Protocol<V>, s: System<V>, e: Event<V>): System<V> {
    match e
    case Act(p) =>
      if !(1 <= p <= |s.parties|) || |s.parties[p - 1].done| >= |pr.rounds| || Halted(pr, s, p) then s
      else (match s.parties[p - 1].phase
            case Sending(to) => SendStep(pr, s, p, to)
            case Polling(next, answers) => PollStep(pr, s, p, next, answers))
    case Expire(key) => s.(store := s.store - {key})
    case Foreign(key, value) => if SessionKey(pr, key) then s else s.(store := s.store[key := value])
  }

  /** The state after a run, from a store that holds nothing of this session yet. */
  ghost function Run<V(!new)>(pr: Protocol<V>, store: map<string, V>, events: seq<Event<V>>): System<V> {
    if events == [] then Initial(pr, store)
    else Next(pr, Run(pr, store, events[..|events| - 1]), events[|events| - 1])
  }

  ghost predicate FreshSession<V(!new)>(pr: Protocol<V>, store: map<string, V>) {
    forall key :: key in store ==> !SessionKey(pr, key)
  }

  // ---- the invariant ----

  /** Party i has written its round-r message for `to`. */
  ghost predicate Sent<V(!new)>(pr: Protocol<V>, s: System<V>, i: nat, r: nat, to: nat)
    requires r < |pr.rounds| && 1 <= i <= |s.parties|
  {
    var P := s.parties[i - 1];
    || r < |P.done|
    || (r == |P.done| && (P.phase.Polling? || (pr.rounds[r].kind.ToEach? && to < P.phase.to)))
  }

  /** The others' entries of a vector, as far as party p has polled them. */
  function Polled<V>(view: seq<V>, p: nat, next: nat): seq<V>
    requires 1 <= p <= |view| && 1 <= next <= |view| + 1
  {
    if next <= p then view[..next - 1] else view[..p - 1] + view[p..next - 1]
  }

  ghost predicate PartyOk<V(!new)>(pr: Protocol<V>, s: System<V>, p: nat)
    requires |s.parties| == pr.n && 1 <= p <= pr.n
  {
    var P := s.parties[p - 1];
    && |P.done| <= |pr.rounds|
    && P.done == SyncHist(pr, p, |P.done|)
    && (forall r :: 0 <= r < |P.done| ==> Passes(pr, p, r))
    && (|P.done| < |pr.rounds| ==>
          match P.phase
          case Sending(to) =>
            && 1 <= to <= pr.n + 1
            && (to > 1 ==> pr.checks(p, P.done) && Prepares(pr, p, |P.done|, to))
          case Polling(next, answers) =>
            1 <= next <= pr.n + 1 && answers == Polled(SyncView(pr, p, |P.done|), p, next) && Passes(pr, p, |P.done|))
  }

  /** What a party has gone past, its peers have written. */
  ghost predicate Waited<V(!new)>(pr: Protocol<V>, s: System<V>, p: nat, i: nat)
    requires |s.parties| == pr.n && 1 <= p <= pr.n && 1 <= i <= pr.n
  {
    var P := s.parties[p - 1];
    && (forall r :: 0 <= r < |P.done| && r < |pr.rounds| ==> Sent(pr, s, i, r, p))
    && (|P.done| < |pr.rounds| && P.phase.Polling? && i < P.phase.next && i != p ==>
          Sent(pr, s, i, |P.done|, p))
  }

  ghost predicate CellOk<V(!new)>(pr: Protocol<V>, s: System<V>, from: nat, to: nat, r: nat)
    requires |s.parties| == pr.n && r < |pr.rounds|
  {
    1 <= from <= pr.n && MailKey(pr, from, to, r) in s.store ==>
      && s.store[MailKey(pr, from, to, r)] == Message(pr, from, to, r, SyncHist(pr, from, r))
      && Sent(pr, s, from, r, to)
  }

  ghost predicate Inv<V(!new)>(pr: Protocol<V>, s: System<V>) {
    && |s.parties| == pr.n
    && (forall p :: 1 <= p <= pr.n ==> PartyOk(pr, s, p))
    && (forall p, i :: 1 <= p <= pr.n && 1 <= i <= pr.n ==> Waited(pr, s, p, i))
    && (forall from: nat, to: nat, r: nat :: r < |pr.rounds| ==> CellOk(pr, s, from, to, r))
  }

  lemma MailKeysInjective<V(!new)>(pr: Protocol<V>, from: nat, to: nat, r: nat, from': nat, to': nat, r': nat)
    requires ValidProtocol(pr) && r < |pr.rounds| && r' < |pr.rounds|
    requires MailKey(pr, from, to, r) == MailKey(pr, from', to', r')
    ensures from == from' && r == r' && (pr.rounds[r].kind.ToAll? || to == to')
  {
    KeysInjective(CellOf(pr, from, to, r), CellOf(pr, from', to', r'));
  }

  // ---- who else may write ----

  /** A session writes only in mailboxes of its own n parties, under its uuid. */
  lemma SessionCell<V(!new)>(pr: Protocol<V>, c: Cell)
    requires ValidProtocol(pr) && WellFormed(c) && SessionKey(pr, KeyOf(c))
    ensures (c.Broadcast? || c.PeerToPeer?) && 1 <= c.from <= pr.n && c.uuid == pr.uuid
  {
    var from: nat, to: nat, r: nat :| 1 <= from <= pr.n && r < |pr.rounds| && KeyOf(c) == MailKey(pr, from, to, r);
    KeysInjective(c, CellOf(pr, from, to, r));
  }

  /** So another member of the room, under a number past n, may write whatever it likes, and so may
      the parties of any other session. */
  lemma OthersMayWrite<V(!new)>(pr: Protocol<V>, s: System<V>, c: Cell, value: V)
    requires ValidProtocol(pr) && WellFormed(c)
    requires c.Broadcast? || c.PeerToPeer? ==> !(1 <= c.from <= pr.n) || c.uuid != pr.uuid
    ensures Next(pr, s, Foreign(KeyOf(c), value)) == s.(store := s.store[KeyOf(c) := value])
  {
    if SessionKey(pr, KeyOf(c)) {
      SessionCell(pr, c);
    }
  }

  /** Two sessions never write under one key. */
  lemma SessionsApart<V(!new), W(!new)>(pr: Protocol<V>, pr': Protocol<W>, key: string)
    requires ValidProtocol(pr) && ValidProtocol(pr') && pr.uuid != pr'.uuid && SessionKey(pr, key)
    ensures !SessionKey(pr', key)
  {
    var from: nat, to: nat, r: nat :| 1 <= from <= pr.n && r < |pr.rounds| && key == MailKey(pr, from, to, r);
    if SessionKey(pr', key) {
      SessionCell(pr', CellOf(pr, from, to, r));
    }
  }

  // ---- its steps ----

  /** Nobody takes back what it has written. */
  ghost predicate Later<V(!new)>(pr: Protocol<V>, s: System<V>, t: System<V>) {
    && |s.parties| == |t.parties|
    && forall i, r, to :: 1 <= i <= |s.parties| && 0 <= r < |pr.rounds| && 0 <= to ==>
         Sent(pr, s, i, r, to) ==> Sent(pr, t, i, r, to)
  }

  lemma WritePreserves<V(!new)>(pr: Protocol<V>, s: System<V>, p: nat, to: nat, t: System<V>)
    requires ValidProtocol(pr) && Inv(pr, s) && 1 <= p <= pr.n
    requires |s.parties[p - 1].done| < |pr.rounds| && s.parties[p - 1].phase.Sending?
    requires t == SendStep(pr, s, p, s.parties[p - 1].phase.to)
    requires t.store != s.store
    requires to == if pr.rounds[|s.parties[p - 1].done|].kind.ToAll? then 0 else s.parties[p - 1].phase.to
    ensures forall from: nat, to: nat, r: nat :: r < |pr.rounds| ==> CellOk(pr, t, from, to, r)
  {
    var r0 := |s.parties[p - 1].done|;
    assert PartyOk(pr, s, p);
    forall from: nat, to': nat, r: nat | r < |pr.rounds| ensures CellOk(pr, t, from, to', r) {
      assert CellOk(pr, s, from, to', r);
      if MailKey(pr, from, to', r) == MailKey(pr, p, to, r0) {
        MailKeysInjective(pr, from, to', r, p, to, r0);
      }
    }
  }

  lemma SendKeepsOk<V(!new)>(pr: Protocol<V>, s: System<V>, p: nat)
    requires Inv(pr, s) && 1 <= p <= pr.n && !Halted(pr, s, p)
    requires |s.parties[p - 1].done| < |pr.rounds| && s.parties[p - 1].phase.Sending?
    ensures PartyOk(pr, SendStep(pr, s, p, s.parties[p - 1].phase.to), p)
  {
    assert PartyOk(pr, s, p);
  }

  lemma SendKeepsWaited<V(!new)>(pr: Protocol<V>, s: System<V>, p: nat, t: System<V>)
    requires Inv(pr, s) && 1 <= p <= pr.n && |s.parties[p - 1].done| < |pr.rounds| && s.parties[p - 1].phase.Sending?
    requires t == SendStep(pr, s, p, s.parties[p - 1].phase.to) && Later(pr, s, t)
    ensures forall k, i :: 1 <= k <= pr.n && 1 <= i <= pr.n ==> Waited(pr, t, k, i)
  {
    assert PartyOk(pr, s, p);
    forall k, i | 1 <= k <= pr.n && 1 <= i <= pr.n ensures Waited(pr, t, k, i) {
      assert Waited(pr, s, k, i);
    }
  }

  lemma SendPreserves<V(!new)>(pr: Protocol<V>, s: System<V>, p: nat)
    requires ValidProtocol(pr) && Inv(pr, s) && 1 <= p <= pr.n && !Halted(pr, s, p)
    requires |s.parties[p - 1].done| < |pr.rounds| && s.parties[p - 1].phase.Sending?
    ensures Inv(pr, SendStep(pr, s, p, s.parties[p - 1].phase.to))
  {
    var to := s.parties[p - 1].phase.to;
    var t := SendStep(pr, s, p, to);
    assert PartyOk(pr, s, p);
    assert Later(pr, s, t);
    SendKeepsOk(pr, s, p);
    forall k | 1 <= k <= pr.n ensures PartyOk(pr, t, k) {
      assert PartyOk(pr, s, k);
    }
    SendKeepsWaited(pr, s, p, t);
    if t.store != s.store {
      WritePreserves(pr, s, p, if pr.rounds[|s.parties[p - 1].done|].kind.ToAll? then 0 else to, t);
    } else {
      forall from: nat, to': nat, r: nat | r < |pr.rounds| ensures CellOk(pr, t, from, to', r) {
        assert CellOk(pr, s, from, to', r);
      }
    }
  }

  /** One more party polled, or one's own slot skipped, or nothing found yet. */
  ghost predicate PollMoves<V(!new)>(pr: Protocol<V>, s: System<V>, p: nat, t: System<V>) {
    && Inv(pr, s) && 1 <= p <= pr.n
    && |s.parties[p - 1].done| < |pr.rounds| && s.parties[p - 1].phase.Polling?
    && s.parties[p - 1].phase.next <= pr.n
    && t == PollStep(pr, s, p, s.parties[p - 1].phase.next, s.parties[p - 1].phase.answers)
  }

  lemma PollKeepsAnswers<V(!new)>(pr: Protocol<V>, s: System<V>, p: nat, t: System<V>)
    requires PollMoves(pr, s, p, t)
    ensures |t.parties| == pr.n && PartyOk(pr, t, p)
  {
    var next, r := s.parties[p - 1].phase.next, |s.parties[p - 1].done|;
    assert PartyOk(pr, s, p);
    PolledNext(SyncView(pr, p, r), p, next);
    if next != p {
      assert CellOk(pr, s, next, p, r);
      SyncViewAt(pr, p, r, next - 1);
    }
  }

  lemma PolledNext<V>(view: seq<V>, p: nat, next: nat)
    requires 1 <= p <= |view| && 1 <= next <= |view|
    ensures Polled(view, p, next + 1) == Polled(view, p, next) + if next == p then [] else [view[next - 1]]
  {
  }

  lemma PollTakesNothingBack<V(!new)>(pr: Protocol<V>, s: System<V>, p: nat, t: System<V>)
    requires PollMoves(pr, s, p, t)
    ensures |t.parties| == pr.n && Later(pr, s, t)
  {
  }

  lemma PollWaits<V(!new)>(pr: Protocol<V>, s: System<V>, p: nat, t: System<V>, i: nat)
    requires PollMoves(pr, s, p, t) && |t.parties| == pr.n && Later(pr, s, t) && 1 <= i <= pr.n
    ensures Waited(pr, t, p, i)
  {
    var next, r := s.parties[p - 1].phase.next, |s.parties[p - 1].done|;
    assert PartyOk(pr, s, p);
    assert Waited(pr, s, p, i);
    if i == next != p {
      assert CellOk(pr, s, next, p, r);
    }
  }

  lemma PollAdvances<V(!new)>(pr: Protocol<V>, s: System<V>, p: nat, t: System<V>)
    requires PollMoves(pr, s, p, t)
    ensures |t.parties| == pr.n && PartyOk(pr, t, p) && Later(pr, s, t)
    ensures forall i :: 1 <= i <= pr.n ==> Waited(pr, t, p, i)
  {
    PollKeepsAnswers(pr, s, p, t);
    PollTakesNothingBack(pr, s, p, t);
    forall i | 1 <= i <= pr.n ensures Waited(pr, t, p, i) {
      PollWaits(pr, s, p, t, i);
    }
  }

  /** Everybody polled: the vector is the lock-step one. */
  lemma PollFinishes<V(!new)>(pr: Protocol<V>, s: System<V>, p: nat, t: System<V>)
    requires ValidProtocol(pr) && Inv(pr, s) && 1 <= p <= pr.n && !Halted(pr, s, p)
    requires |s.parties[p - 1].done| < |pr.rounds| && s.parties[p - 1].phase.Polling?
    requires s.parties[p - 1].phase.next > pr.n
    requires t == PollStep(pr, s, p, s.parties[p - 1].phase.next, s.parties[p - 1].phase.answers)
    ensures PartyOk(pr, t, p) && Later(pr, s, t)
    ensures forall i :: 1 <= i <= pr.n ==> Waited(pr, t, p, i)
  {
    var P := s.parties[p - 1];
    var answers, r := P.phase.answers, |P.done|;
    var view := SyncView(pr, p, r);
    assert PartyOk(pr, s, p);
    assert answers == RemoveAt(view, p - 1);
    RemoveInsert(view, p - 1);
    assert t.parties[p - 1].done == P.done + [view];
    assert Later(pr, s, t);
    forall i | 1 <= i <= pr.n ensures Waited(pr, t, p, i) {
      assert Waited(pr, s, p, i);
    }
  }

  lemma PollPreserves<V(!new)>(pr: Protocol<V>, s: System<V>, p: nat)
    requires ValidProtocol(pr) && Inv(pr, s) && 1 <= p <= pr.n && !Halted(pr, s, p)
    requires |s.parties[p - 1].done| < |pr.rounds| && s.parties[p - 1].phase.Polling?
    ensures Inv(pr, PollStep(pr, s, p, s.parties[p - 1].phase.next, s.parties[p - 1].phase.answers))
  {
    var t := PollStep(pr, s, p, s.parties[p - 1].phase.next, s.parties[p - 1].phase.answers);
    if s.parties[p - 1].phase.next <= pr.n {
      PollAdvances(pr, s, p, t);
    } else {
      PollFinishes(pr, s, p, t);
    }
    assert t.store == s.store;
    OthersKeep(pr, s, p, t);
  }

  /** What a step of party p that leaves the store alone keeps of everybody else. */
  lemma OthersKeep<V(!new)>(pr: Protocol<V>, s: System<V>, p: nat, t: System<V>)
    requires Inv(pr, s) && 1 <= p <= pr.n && Later(pr, s, t) && t.store == s.store
    requires forall j :: 0 <= j < pr.n && j != p - 1 ==> t.parties[j] == s.parties[j]
    requires PartyOk(pr, t, p)
    requires forall i :: 1 <= i <= pr.n ==> Waited(pr, t, p, i)
    ensures Inv(pr, t)
  {
    forall k | 1 <= k <= pr.n ensures PartyOk(pr, t, k) {
      assert PartyOk(pr, s, k);
    }
    forall k, i | 1 <= k <= pr.n && 1 <= i <= pr.n ensures Waited(pr, t, k, i) {
      assert Waited(pr, s, k, i);
    }
    forall from: nat, to: nat, r: nat | r < |pr.rounds| ensures CellOk(pr, t, from, to, r) {
      assert CellOk(pr, s, from, to, r);
    }
  }

  lemma NextPreserves<V(!new)>(pr: Protocol<V>, s: System<V>, e: Event<V>)
    requires ValidProtocol(pr) && Inv(pr, s)
    ensures Inv(pr, Next(pr, s, e))
  {
    if e.Act? && 1 <= e.p <= pr.n && |s.parties[e.p - 1].done| < |pr.rounds| && !Halted(pr, s, e.p) {
      match s.parties[e.p - 1].phase
      case Sending(_) => SendPreserves(pr, s, e.p);
      case Polling(_, _) => PollPreserves(pr, s, e.p);
    } else {
      var t := Next(pr, s, e);
      assert t.parties == s.parties;
      assert Later(pr, s, t);
      forall k | 1 <= k <= pr.n ensures PartyOk(pr, t, k) {
        assert PartyOk(pr, s, k);
      }
      forall k, i | 1 <= k <= pr.n && 1 <= i <= pr.n ensures Waited(pr, t, k, i) {
        assert Waited(pr, s, k, i);
      }
      forall from: nat, to: nat, r: nat | r < |pr.rounds| ensures CellOk(pr, t, from, to, r) {
        assert CellOk(pr, s, from, to, r);
      }
    }
  }

  lemma InitialInv<V(!new)>(pr: Protocol<V>, store: map<string, V>)
    requires FreshSession(pr, store)
    ensures Inv(pr, Initial(pr, store))
  {
    var s := Initial(pr, store);
    forall p | 1 <= p <= pr.n ensures PartyOk(pr, s, p) {
    }
    forall p, i | 1 <= p <= pr.n && 1 <= i <= pr.n ensures Waited(pr, s, p, i) {
    }
    forall from: nat, to: nat, r: nat | r < |pr.rounds| ensures CellOk(pr, s, from, to, r) {
      if 1 <= from <= pr.n {
        assert SessionKey(pr, MailKey(pr, from, to, r));
      }
    }
  }

  lemma {:induction false} RunInv<V(!new)>(pr: Protocol<V>, store: map<string, V>, events: seq<Event<V>>)
    requires ValidProtocol(pr) && FreshSession(pr, store)
    ensures Inv(pr, Run(pr, store, events))
    decreases |events|
  {
    if events == [] {
      InitialInv(pr, store);
    } else {
      RunInv(pr, store, events[..|events| - 1]);
      NextPreserves(pr, Run(pr, store, events[..|events| - 1]), events[|events| - 1]);
    }
  }

  // ---- the theorems ----

  /** Every interleaving, with any expiry, refines the lock-step execution. */
  lemma RunsRefineSync<V(!new)>(pr: Protocol<V>, store: map<string, V>, events: seq<Event<V>>, p: nat)
    requires ValidProtocol(pr) && FreshSession(pr, store) && 1 <= p <= pr.n
    ensures var s := Run(pr, store, events);
      && |s.parties| == pr.n
      && |s.parties[p - 1].done| <= |pr.rounds|
      && s.parties[p - 1].done == SyncHist(pr, p, |s.parties[p - 1].done|)
  {
    RunInv(pr, store, events);
    assert PartyOk(pr, Run(pr, store, events), p);
  }

  /** Who halts, and when: in every reachable state party p has passed its assertions of all rounds
      behind it; it is halted exactly when the lock-step execution fails it where it is, and does not
      leave a round in which that execution fails it. */
  lemma {:induction false} HaltsAsInSync<V(!new)>(pr: Protocol<V>, store: map<string, V>, events: seq<Event<V>>, p: nat)
    requires ValidProtocol(pr) && FreshSession(pr, store) && 1 <= p <= pr.n
    ensures var s := Run(pr, store, events);
      && |s.parties| == pr.n && |s.parties[p - 1].done| <= |pr.rounds|
      && (forall r :: 0 <= r < |s.parties[p - 1].done| ==> Passes(pr, p, r))
      && (Halted(pr, s, p) <==> FailsAt(pr, p, |s.parties[p - 1].done|, s.parties[p - 1].phase))
      && (!Passes(pr, p, |s.parties[p - 1].done|) <== Halted(pr, s, p))
      && (!Passes(pr, p, |s.parties[p - 1].done|) && !Halted(pr, s, p) ==> s.parties[p - 1].phase.Sending?)
  {
    RunInv(pr, store, events);
    assert PartyOk(pr, Run(pr, store, events), p);
  }

  lemma PassedBefore<V(!new)>(pr: Protocol<V>, store: map<string, V>, events: seq<Event<V>>, p: nat, r: nat)
    requires ValidProtocol(pr) && FreshSession(pr, store) && 1 <= p <= pr.n
    requires var s := Run(pr, store, events); |s.parties| == pr.n && r < |s.parties[p - 1].done| <= |pr.rounds|
    ensures Passes(pr, p, r)
  {
    HaltsAsInSync(pr, store, events, p);
  }

  /** The lock-step execution fails party p after r rounds in this phase: on an assertion, or on the
      message it is about to write. */
  ghost predicate FailsAt<V(!new)>(pr: Protocol<V>, p: nat, r: nat, phase: Phase<V>)
    requires r <= |pr.rounds|
  {
    !pr.checks(p, SyncHist(pr, p, r)) || Misfit(pr, p, Party(SyncHist(pr, p, r), phase))
  }

  /** No party ever fails an assertion in the lock-step execution. */
  ghost predicate Sound<V(!new)>(pr: Protocol<V>) {
    SoundBelow(pr, |pr.rounds| + 1)
  }

  /** No party fails an assertion after fewer than so many rounds. */
  ghost predicate SoundBelow<V(!new)>(pr: Protocol<V>, rounds: nat) {
    forall p, r :: 1 <= p <= pr.n && 0 <= r < rounds && r <= |pr.rounds| ==> Passes(pr, p, r)
  }

  /** The barrier: whoever has finished round r, everybody has written round r; so no party is
      more than one round ahead of another. */
  lemma {:induction false} Barrier<V(!new)>(pr: Protocol<V>, store: map<string, V>, events: seq<Event<V>>, p: nat, i: nat)
    requires ValidProtocol(pr) && FreshSession(pr, store) && 1 <= p <= pr.n && 1 <= i <= pr.n
    ensures var s := Run(pr, store, events);
      && |s.parties| == pr.n && |s.parties[p - 1].done| <= |pr.rounds|
      && (forall r :: 0 <= r < |s.parties[p - 1].done| ==> Sent(pr, s, i, r, p))
      && |s.parties[p - 1].done| <= |s.parties[i - 1].done| + 1
  {
    RunInv(pr, store, events);
    var s := Run(pr, store, events);
    assert PartyOk(pr, s, p);
    assert Waited(pr, s, p, i);
    var r := |s.parties[p - 1].done|;
    if r >= 1 {
      assert Sent(pr, s, i, r - 1, p);
    }
  }

  /** After a broadcast round any two parties hold the same vector, party i's datum at i - 1. */
  lemma {:induction false} VectorAgreement<V(!new)>(pr: Protocol<V>, store: map<string, V>, events: seq<Event<V>>, p: nat, p': nat, r: nat)
    requires ValidProtocol(pr) && FreshSession(pr, store) && 1 <= p <= pr.n && 1 <= p' <= pr.n
    requires r < |pr.rounds| && pr.rounds[r].kind.ToAll?
    ensures var s := Run(pr, store, events);
      && |s.parties| == pr.n
      && (r < |s.parties[p - 1].done| && r < |s.parties[p' - 1].done| ==>
            s.parties[p - 1].done[r] == s.parties[p' - 1].done[r])
      && (r < |s.parties[p - 1].done| ==>
            && |s.parties[p - 1].done[r]| == pr.n
            && forall i :: 1 <= i <= pr.n ==>
                 s.parties[p - 1].done[r][i - 1] == pr.payload(i, 0, r, SyncHist(pr, i, r)))
  {
    HeldIsSync(pr, store, events, p, r);
    HeldIsSync(pr, store, events, p', r);
    SameView(pr, p, p', r);
  }

  lemma {:induction false} HeldIsSync<V(!new)>(pr: Protocol<V>, store: map<string, V>, events: seq<Event<V>>, p: nat, r: nat)
    requires ValidProtocol(pr) && FreshSession(pr, store) && 1 <= p <= pr.n && r < |pr.rounds|
    ensures var s := Run(pr, store, events);
      |s.parties| == pr.n && (r < |s.parties[p - 1].done| ==> s.parties[p - 1].done[r] == SyncView(pr, p, r))
  {
    RunsRefineSync(pr, store, events, p);
    var s := Run(pr, store, events);
    if r < |s.parties[p - 1].done| {
      SyncHistAt(pr, p, |s.parties[p - 1].done|, r);
    }
  }

  lemma {:induction false} SameView<V(!new)>(pr: Protocol<V>, p: nat, p': nat, r: nat)
    requires r < |pr.rounds| && pr.rounds[r].kind.ToAll?
    ensures SyncView(pr, p, r) == SyncView(pr, p', r)
    ensures forall i :: 1 <= i <= pr.n ==> SyncView(pr, p, r)[i - 1] == pr.payload(i, 0, r, SyncHist(pr, i, r))
  {
  }
}
