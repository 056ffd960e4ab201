/** Handing out party numbers for key generation. */
module KeygenSignups {
  import opened Wrappers
  import opened Managers
  import opened Modular

  /** A request for a group of so many parties, with the uuids it would draw, or the expiry of the
      counter's entry. */
  datatype Event = Ask(parties: nat, first: string, renewed: string) | Lapse

  /** The counter's entry, the uuids drawn so far, and everything handed out, in order. */
  datatype State = State(entry: Option<PartySignup>, used: set<string>, log: seq<PartySignup>)

  predicate Fresh(s: State, first: string, renewed: string) {
    first != renewed && first !in s.used && renewed !in s.used
  }

  function Next(s: State, e: Event): State {
    match e
    case Ask(parties, first, renewed) =>
      if !Fresh(s, first, renewed) then s
      else
        var given := NextNumber(s.entry, parties, first, renewed);
        State(Some(given), s.used + {first, renewed}, s.log + [given])
    case Lapse => s.(entry := None)
  }

  function Run(events: seq<Event>): State {
    if events == [] then State(None, {}, [])
    else Next(Run(events[..|events| - 1]), events[|events| - 1])
  }

  /** The numbers handed out under one uuid, in order. */
  function NumbersOf(log: seq<PartySignup>, uuid: string): seq<nat> {
    if log == [] then []
    else
      var rest := NumbersOf(log[..|log| - 1], uuid);
      if log[|log| - 1].uuid == uuid then rest + [log[|log| - 1].number] else rest
  }

  /** 1, 2, .., k. */
  function Count(k: nat): seq<nat> {
    seq(k, i requires 0 <= i < k => i + 1)
  }

  ghost predicate Counts(log: seq<PartySignup>, uuid: string) {
    NumbersOf(log, uuid) == Count(|NumbersOf(log, uuid)|)
  }

  ghost predicate Inv(s: State) {
    && (forall u :: Counts(s.log, u))
    && (forall u :: u !in s.used ==> NumbersOf(s.log, u) == [])
    && (s.entry.Some? ==> s.entry.value.uuid in s.used && s.entry.value.number == |NumbersOf(s.log, s.entry.value.uuid)|)
  }

  lemma NextKeeps(s: State, e: Event)
    requires Inv(s)
    ensures Inv(Next(s, e))
  {
    if e.Ask? && Fresh(s, e.first, e.renewed) {
      var given := NextNumber(s.entry, e.parties, e.first, e.renewed);
      var t := Next(s, e);
      assert t.log[..|t.log| - 1] == s.log;
      assert given.number == |NumbersOf(s.log, given.uuid)| + 1;
      forall u ensures Counts(t.log, u) {
        assert Counts(s.log, u);
        if u == given.uuid {
          assert Count(given.number) == Count(given.number - 1) + [given.number];
        }
      }
    }
  }

  lemma {:induction false} RunInv(events: seq<Event>)
    ensures Inv(Run(events))
  {
    if events != [] {
      RunInv(events[..|events| - 1]);
      NextKeeps(Run(events[..|events| - 1]), events[|events| - 1]);
    } else {
      forall u ensures Counts([], u) {
        assert Count(0) == [];
      }
    }
  }

  /** Over any run, with any group sizes and any expiry, each uuid's numbers come out as 1,2,..,k. */
  lemma {:induction false} EachGroupCounts(events: seq<Event>, uuid: string)
    ensures var log := Run(events).log; NumbersOf(log, uuid) == Count(|NumbersOf(log, uuid)|)
  {
    RunInv(events);
    assert Counts(Run(events).log, uuid);
  }

  /** The counter stands where the last request left it, unless its entry has expired since. */
  lemma {:induction false} CounterIsLast(events: seq<Event>)
    ensures var s := Run(events); s.entry.Some? ==> s.log != [] && s.entry.value == s.log[|s.log| - 1]
  {
    if events != [] {
      CounterIsLast(events[..|events| - 1]);
    }
  }

  /** In any run, with any sizes and any expiry, a request for a group gets a number within the size it
      asks for. It stays under the uuid of the request before it exactly when the counter has not expired
      and stands below that size, with the next number; otherwise it gets number 1 under a uuid drawn now. */
  lemma {:induction false} NumberFitsSize(events: seq<Event>, i: nat)
    requires i < |events| && events[i].Ask? && Fresh(Run(events[..i]), events[i].first, events[i].renewed)
    ensures var s, t, e := Run(events[..i]), Run(events[..i + 1]), events[i];
      && |t.log| == |s.log| + 1 && t.log[..|s.log|] == s.log
      && var given := t.log[|s.log|];
         && t.entry == Some(given)
         && (e.parties >= 1 ==> 1 <= given.number <= e.parties)
         && (given.uuid in s.used <==> s.entry.Some? && s.log != [] && s.log[|s.log| - 1].number < e.parties)
         && (given.uuid in s.used ==> s.log != [] && given.uuid == s.log[|s.log| - 1].uuid && given.number == s.log[|s.log| - 1].number + 1)
         && (given.uuid !in s.used ==> given.number == 1 && given.uuid in {e.first, e.renewed})
         && (i > 0 && events[i - 1].Lapse? ==> given.number == 1 && given.uuid !in s.used)
  {
    assert events[..i + 1][..i] == events[..i];
    RunInv(events[..i]);
    CounterIsLast(events[..i]);
    if i > 0 {
      assert events[..i][..i - 1] == events[..i - 1];
    }
  }

  lemma {:induction false} NumberPosition(log: seq<PartySignup>, i: nat)
    requires i < |log|
    ensures var u := log[i].uuid;
      && NumbersOf(log[..i], u) + [log[i].number] <= NumbersOf(log, u)
    decreases |log|
  {
    var n := |log| - 1;
    var u := log[i].uuid;
    if i < n {
      NumberPosition(log[..n], i);
      assert log[..n][..i] == log[..i];
    }
  }

  lemma {:induction false} NumbersGrow(log: seq<PartySignup>, i: nat, u: string)
    requires i <= |log|
    ensures NumbersOf(log[..i], u) <= NumbersOf(log, u)
    decreases |log|
  {
    if i < |log| {
      var n := |log| - 1;
      NumbersGrow(log[..n], i, u);
      assert log[..n][..i] == log[..i];
    } else {
      assert log[..i] == log;
    }
  }

  /** No number is handed out twice under one uuid. */
  lemma {:induction false} NoRepeats(events: seq<Event>, i: nat, j: nat)
    requires i < j < |Run(events).log|
    ensures Run(events).log[i] != Run(events).log[j]
  {
    var log := Run(events).log;
    if log[i].uuid == log[j].uuid {
      var u := log[i].uuid;
      EachGroupCounts(events, u);
      NumberPosition(log, i);
      NumberPosition(log, j);
      var a, b := NumbersOf(log[..i], u), NumbersOf(log[..j], u);
      var up := log[..i + 1];
      assert up[..|up| - 1] == log[..i];
      NumbersGrow(log[..j], i + 1, u);
      assert log[..j][..i + 1] == up;
      assert NumbersOf(log, u)[|a|] == log[i].number && NumbersOf(log, u)[|b|] == log[j].number;
    }
  }

  lemma {:induction false} NumberGiven(log: seq<PartySignup>, uuid: string, k: nat) returns (i: nat)
    requires k < |NumbersOf(log, uuid)|
    ensures i < |log| && log[i] == PartySignup(NumbersOf(log, uuid)[k], uuid)
  {
    var n := |log| - 1;
    if k < |NumbersOf(log[..n], uuid)| {
      i := NumberGiven(log[..n], uuid, k);
    } else {
      i := n;
    }
  }

  /** Of the numbers 1..k handed out under a uuid each went to exactly one request, so the parties of
      a key generation of k under that uuid are its k requests. */
  lemma EachNumberOnce(events: seq<Event>, uuid: string, number: nat) returns (i: nat)
    requires 1 <= number <= |NumbersOf(Run(events).log, uuid)|
    ensures var log := Run(events).log;
      && i < |log| && log[i] == PartySignup(number, uuid)
      && forall j :: 0 <= j < |log| && j != i ==> log[j] != PartySignup(number, uuid)
  {
    var log := Run(events).log;
    EachGroupCounts(events, uuid);
    i := NumberGiven(log, uuid, number - 1);
    forall j | 0 <= j < |log| && j != i ensures log[j] != PartySignup(number, uuid) {
      NoRepeats(events, if i < j then i else j, if i < j then j else i);
    }
  }

  /** Requests for groups of one size, nothing expiring. */
  ghost predicate Steady(events: seq<Event>, n: nat) {
    forall k :: 0 <= k < |events| ==> events[k].Ask? && events[k].parties == n && Fresh(Run(events[..k]), events[k].first, events[k].renewed)
  }

  /** So many requests have been served, for groups of n: the i-th got number i mod n + 1, and those
      of one group, and no others, share a uuid. */
  ghost predicate Served(s: State, k: nat, n: nat)
    requires n >= 1
  {
    && |s.log| == k && (s.entry.None? <==> k == 0) && (k > 0 ==> s.entry == Some(s.log[k - 1]))
    && (forall i :: 0 <= i < k ==> s.log[i].number == i % n + 1 && s.log[i].uuid in s.used)
    && (forall i, j :: 0 <= i < j < k ==> (s.log[i].uuid == s.log[j].uuid <==> i / n == j / n))
  }

  lemma ServedNext(s: State, e: Event, k: nat, n: nat)
    requires n >= 1 && Served(s, k, n) && e.Ask? && e.parties == n && Fresh(s, e.first, e.renewed)
    ensures Served(Next(s, e), k + 1, n)
  {
    if k > 0 {
      NextGroup(k, n);
      forall i | 0 <= i < k ensures i / n <= (k - 1) / n {
        DivMonotone(i, k - 1, n);
      }
      forall i | 0 <= i < k ensures s.log[i].uuid == s.log[k - 1].uuid <==> i / n == (k - 1) / n {
      }
    }
  }

  /** The i-th request gets number i mod n + 1 of group i div n. */
  lemma {:induction false} SteadyGroups(events: seq<Event>, n: nat)
    requires n >= 1 && Steady(events, n)
    ensures Served(Run(events), |events|, n)
    decreases |events|
  {
    if events != [] {
      var m := |events| - 1;
      var before := events[..m];
      assert forall k :: 0 <= k <= m ==> before[..k] == events[..k];
      SteadyGroups(before, n);
      ServedNext(Run(before), events[m], m, n);
    }
  }

  lemma DivMonotone(a: nat, b: nat, n: nat)
    requires n >= 1 && a <= b
    ensures a / n <= b / n
  {
    assert a == (a / n) * n + a % n && b == (b / n) * n + b % n;
    AtMostZero(a / n - b / n, n);
  }

  lemma AtMostZero(e: int, n: nat)
    requires n >= 1 && e * n < n
    ensures e <= 0
  {
  }

  lemma NextGroup(m: nat, n: nat)
    requires n >= 1 && m >= 1
    ensures if (m - 1) % n + 1 < n then m / n == (m - 1) / n && m % n == (m - 1) % n + 1
            else m / n == (m - 1) / n + 1 && m % n == 0
  {
    var d, r := (m - 1) / n, (m - 1) % n;
    assert m - 1 == d * n + r;
    if r + 1 < n {
      Quotients(m, n, d, r + 1);
    } else {
      assert (d + 1) * n == d * n + n;
      Quotients(m, n, d + 1, 0);
    }
  }

  lemma Quotients(m: nat, n: nat, d: nat, r: nat)
    requires n >= 1 && m == d * n + r && r < n
    ensures m / n == d && m % n == r
  {
    var e := m / n - d;
    assert m == (m / n) * n + m % n;
    assert e * n == r - m % n;
    SmallMultiple(e, n);
  }
}
