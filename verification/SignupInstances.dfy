/** Two short runs of signups, for what a reader might not expect of one. */
module SignupInstances {
  import opened Wrappers
  import opened SigningRooms
  import opened Managers
  import opened SignupSystem
  import Seating

  const TIMEOUT := 2

  /** Party n asks for a room of two. */
  function Ask(n: nat): SignRequest {
    SignRequest(1, "id", n, "", "ECDSA")
  }

  function Poll(n: nat, partyUuid: string): SignRequest {
    SignRequest(1, "id", n, partyUuid, "ECDSA")
  }

  /** The room of both runs. */
  function RoomOf(members: map<nat, Member>, stage: string): Room {
    Room("id", "A", 2, members, stage)
  }

  /** The state as far as the runs care. */
  ghost predicate At(s: System, now: nat, room: Room, used: set<string>, sessions: seq<Session>) {
    && s.now == now && s.hm == map[SignKey(Ask(0)) := RoomRecord(room)] && s.used == used && s.sessions == sessions
  }

  /** These events lead to such a state. */
  ghost predicate Leads(events: seq<Event>, now: nat, room: Room, used: set<string>, sessions: seq<Session>) {
    At(Run(events, TIMEOUT), now, room, used, sessions)
  }

  lemma {:induction false} RunSnoc(events: seq<Event>, e: Event)
    ensures Run(events + [e], TIMEOUT) == Next(Run(events, TIMEOUT), e, TIMEOUT)
  {
    assert (events + [e])[..|events|] == events;
  }

  predicate FreshFor(used: set<string>, draw: Draw) {
    draw.room != "" && draw.party != "" && draw.room != draw.party && draw.room !in used && draw.party !in used
  }

  lemma FirstJoins(n: nat, draw: Draw)
    requires draw.room == "A" && FreshFor({}, draw)
    ensures Leads([Join(Ask(n), draw)], 0, RoomOf(map[n := Member(draw.party, 1, 0)], "signup"),
      {"A", draw.party}, [Session(Ask(n), Waiting(draw.party, 1, 0))])
  {
    RunSnoc([], Join(Ask(n), draw));
    assert [] + [Join(Ask(n), draw)] == [Join(Ask(n), draw)];
    assert INITIAL.used == {};
    assert RoomOf(map[], "signup").members[n := Member(draw.party, 1, 0)] == map[n := Member(draw.party, 1, 0)];
  }

  lemma ServesJoin(room: Room, now: nat, n: nat, draw: Draw)
    requires room.IsOpen() && n !in room.members && !(IsFull(room) && AllActive(room, now, TIMEOUT))
    ensures Serve(Some(room), Ask(n), now, TIMEOUT, draw)
      == SignOutcome(Some(Added(room, n, draw.party, now)), Ok(SignupInfo(|room.members| + 1, draw.party, "", 0)))
  {
  }

  /** Another number joins while somebody is missing or has gone silent. */
  lemma Joins(events: seq<Event>, now: nat, room: Room, used: set<string>, sessions: seq<Session>, n: nat, draw: Draw)
    requires Leads(events, now, room, used, sessions) && room.IsOpen() && n !in room.members && FreshFor(used, draw)
    requires !(IsFull(room) && AllActive(room, now, TIMEOUT))
    ensures Leads(events + [Join(Ask(n), draw)], now, Added(room, n, draw.party, now), used + {draw.room, draw.party},
      sessions + [Session(Ask(n), Waiting(draw.party, |room.members| + 1, 0))])
  {
    RunSnoc(events, Join(Ask(n), draw));
    ServesJoin(room, now, n, draw);
    var s, key := Run(events, TIMEOUT), SignKey(Ask(0));
    assert EntryOf(s.hm, key) == Some(room);
    assert s.hm[key := RoomRecord(Added(room, n, draw.party, now))] == map[key := RoomRecord(Added(room, n, draw.party, now))];
  }

  lemma Waits(events: seq<Event>, now: nat, room: Room, used: set<string>, sessions: seq<Session>, d: nat)
    requires Leads(events, now, room, used, sessions)
    ensures Leads(events + [Tick(d)], now + d, room, used, sessions)
  {
    RunSnoc(events, Tick(d));
  }

  lemma ServesPoll(room: Room, now: nat, n: nat, partyUuid: string, draw: Draw, after: Room)
    requires partyUuid != "" && HasMember(room, n, partyUuid)
    requires after == if room.IsOpen() then Pinged(room, n, now, TIMEOUT) else room
    ensures var o := Serve(Some(room), Poll(n, partyUuid), now, TIMEOUT, draw);
      o.reply == Ok(Info(after, n, now, TIMEOUT)) && (if room.IsOpen() then o.written == Some(after) else o.written.None?)
  {
  }

  /** Client k polls, and its answer is what the room says after the poll. */
  lemma Polls(events: seq<Event>, now: nat, room: Room, used: set<string>, sessions: seq<Session>, k: nat, draw: Draw, after: Room)
    requires Leads(events, now, room, used, sessions) && FreshFor(used, draw)
    requires k < |sessions| && sessions[k].client.Waiting? && sessions[k].client.partyUuid != ""
    requires var req := sessions[k].req; req == Ask(req.partyNumber) && HasMember(room, req.partyNumber, sessions[k].client.partyUuid)
    requires after == if room.IsOpen() then Pinged(room, sessions[k].req.partyNumber, now, TIMEOUT) else room
    ensures Leads(events + [PollBy(k, draw)], now, after, used + {draw.room, draw.party},
      sessions[k := sessions[k].(client := Continued(sessions[k].client, Ok(Info(after, sessions[k].req.partyNumber, now, TIMEOUT)), now))])
  {
    RunSnoc(events, PollBy(k, draw));
    ServesPoll(room, now, sessions[k].req.partyNumber, sessions[k].client.partyUuid, draw, after);
    var s, key := Run(events, TIMEOUT), SignKey(Ask(0));
    assert EntryOf(s.hm, key) == Some(room);
    assert s.hm[key := RoomRecord(after)] == map[key := RoomRecord(after)];
  }

  // ---- two parties join ----

  const JOINS := [Join(Ask(10), Draw("A", "a"))] + [Join(Ask(20), Draw("B", "b"))]
  const PAIR := map[10 := Member("a", 1, 0), 20 := Member("b", 2, 0)]
  const USED := {"A", "a", "B", "b"}

  function Client10(client: Client): Session {
    Session(Ask(10), client)
  }

  function Client20(client: Client): Session {
    Session(Ask(20), client)
  }

  lemma OneJoins()
    ensures Leads([Join(Ask(10), Draw("A", "a"))], 0, RoomOf(map[10 := Member("a", 1, 0)], "signup"), {"A", "a"},
      [Client10(Waiting("a", 1, 0))])
  {
    FirstJoins(10, Draw("A", "a"));
  }

  lemma RoomForTwo()
    ensures var one := RoomOf(map[10 := Member("a", 1, 0)], "signup");
      !IsFull(one) && |one.members| == 1 && Added(one, 20, "b", 0) == RoomOf(PAIR, "signup")
    ensures FreshFor({"A", "a"}, Draw("B", "b")) && {"A", "a"} + {"B", "b"} == USED
  {
    assert map[10 := Member("a", 1, 0)][20 := Member("b", 2, 0)] == PAIR;
  }

  lemma BothJoin()
    ensures Leads(JOINS, 0, RoomOf(PAIR, "signup"), USED, [Client10(Waiting("a", 1, 0)), Client20(Waiting("b", 2, 0))])
  {
    OneJoins();
    RoomForTwo();
    Joins([Join(Ask(10), Draw("A", "a"))], 0, RoomOf(map[10 := Member("a", 1, 0)], "signup"), {"A", "a"},
      [Client10(Waiting("a", 1, 0))], 20, Draw("B", "b"));
  }

  // ---- totals that differ ----

  /** The first poll closes the room and counts both. */
  lemma PairCloses()
    ensures Pinged(RoomOf(PAIR, "signup"), 10, 0, TIMEOUT) == RoomOf(PAIR, "terminated")
    ensures Info(RoomOf(PAIR, "terminated"), 10, 0, TIMEOUT) == SignupInfo(1, "a", "A", 2)
    ensures Info(RoomOf(PAIR, "terminated"), 20, 3, TIMEOUT) == SignupInfo(2, "b", "A", 0)
  {
    assert PAIR[10 := PAIR[10].(lastPing := 0)] == PAIR;
    assert PAIR.Keys == {10, 20} && |PAIR| == |PAIR.Keys|;
    assert Active(RoomOf(PAIR, "signup"), 0, TIMEOUT) == PAIR;
    assert Active(RoomOf(PAIR, "terminated"), 0, TIMEOUT) == PAIR;
    assert Active(RoomOf(PAIR, "terminated"), 3, TIMEOUT) == map[];
  }

  const CLOSING := JOINS + [PollBy(0, Draw("C", "c"))] + [Tick(3)]

  lemma FirstReturns()
    ensures Leads(CLOSING, 3, RoomOf(PAIR, "terminated"), USED + {"C", "c"},
      [Client10(Done("a", 1, "A", 2, 0)), Client20(Waiting("b", 2, 0))])
  {
    BothJoin();
    PairCloses();
    var w1, w2 := Client10(Waiting("a", 1, 0)), Client20(Waiting("b", 2, 0));
    Polls(JOINS, 0, RoomOf(PAIR, "signup"), USED, [w1, w2], 0, Draw("C", "c"), RoomOf(PAIR, "terminated"));
    Waits(JOINS + [PollBy(0, Draw("C", "c"))], 0, RoomOf(PAIR, "terminated"), USED + {"C", "c"},
      [Client10(Done("a", 1, "A", 2, 0)), w2], 3);
  }

  /** One client polls at once, closes the room and returns with two; the other polls when both pings
      have aged and returns with none. */
  lemma TotalsCanDiffer()
    ensures Run(CLOSING + [PollBy(1, Draw("D", "d"))], TIMEOUT).sessions
      == [Client10(Done("a", 1, "A", 2, 0)), Client20(Done("b", 2, "A", 0, 3))]
  {
    FirstReturns();
    PairCloses();
    Polls(CLOSING, 3, RoomOf(PAIR, "terminated"), USED + {"C", "c"},
      [Client10(Done("a", 1, "A", 2, 0)), Client20(Waiting("b", 2, 0))], 1, Draw("D", "d"), RoomOf(PAIR, "terminated"));
  }

  // ---- a room that grows past its size ----

  const GREW := PAIR[30 := Member("c", 3, 3)]
  const PINGED10 := GREW[10 := Member("a", 1, 6)]
  const PINGED := PINGED10[20 := Member("b", 2, 6)]

  lemma ThreeMembers()
    ensures |PINGED10| == |PINGED| == 3
  {
    assert PINGED.Keys == PINGED10.Keys == {10, 20, 30};
    assert |PINGED| == |PINGED.Keys| && |PINGED10| == |PINGED10.Keys|;
  }

  lemma ThreeActives()
    ensures |Active(RoomOf(PINGED10, "signup"), 6, TIMEOUT)| == 1
    ensures |Active(RoomOf(PINGED, "signup"), 6, TIMEOUT)| == 2 && |Active(RoomOf(PINGED, "terminated"), 6, TIMEOUT)| == 2
  {
    assert Active(RoomOf(PINGED10, "signup"), 6, TIMEOUT) == map[10 := Member("a", 1, 6)];
    var two := map[10 := Member("a", 1, 6), 20 := Member("b", 2, 6)];
    assert two.Keys == {10, 20} && |two| == |two.Keys|;
    assert Active(RoomOf(PINGED, "signup"), 6, TIMEOUT) == two;
    assert Active(RoomOf(PINGED, "terminated"), 6, TIMEOUT) == two;
  }

  /** Three members of a room of two: with one of them silent, the second poll closes it, and both
      pollers are told of two. */
  lemma ThreeCloses()
    ensures Pinged(RoomOf(GREW, "signup"), 10, 6, TIMEOUT) == RoomOf(PINGED10, "signup")
    ensures Pinged(RoomOf(PINGED10, "signup"), 20, 6, TIMEOUT) == RoomOf(PINGED, "terminated")
    ensures Info(RoomOf(PINGED10, "signup"), 10, 6, TIMEOUT) == SignupInfo(1, "a", "", 1)
    ensures Info(RoomOf(PINGED, "terminated"), 20, 6, TIMEOUT) == SignupInfo(2, "b", "A", 2)
    ensures Info(RoomOf(PINGED, "terminated"), 10, 6, TIMEOUT) == SignupInfo(1, "a", "A", 2)
  {
    ThreeMembers();
    ThreeActives();
  }

  lemma ThirdFits()
    ensures !AllActive(RoomOf(PAIR, "signup"), 3, TIMEOUT) && Added(RoomOf(PAIR, "signup"), 30, "c", 3) == RoomOf(GREW, "signup")
    ensures |PAIR| == 2
  {
    assert IsTimeout(PAIR[10], 3, TIMEOUT);
    assert PAIR.Keys == {10, 20} && |PAIR| == |PAIR.Keys|;
  }

  const THIRD := JOINS + [Tick(3)] + [Join(Ask(30), Draw("C", "c"))] + [Tick(3)]

  lemma ThirdJoins()
    ensures Leads(THIRD, 6, RoomOf(GREW, "signup"), USED + {"C", "c"},
      [Client10(Waiting("a", 1, 0)), Client20(Waiting("b", 2, 0))] + [Session(Ask(30), Waiting("c", 3, 0))])
  {
    BothJoin();
    ThirdFits();
    var waiting := [Client10(Waiting("a", 1, 0)), Client20(Waiting("b", 2, 0))];
    Waits(JOINS, 0, RoomOf(PAIR, "signup"), USED, waiting, 3);
    Joins(JOINS + [Tick(3)], 3, RoomOf(PAIR, "signup"), USED, waiting, 30, Draw("C", "c"));
    Waits(JOINS + [Tick(3)] + [Join(Ask(30), Draw("C", "c"))], 3, RoomOf(GREW, "signup"), USED + {"C", "c"},
      waiting + [Session(Ask(30), Waiting("c", 3, 0))], 3);
  }

  const ONCE := THIRD + [PollBy(0, Draw("D", "d"))]
  const USED_ONCE := USED + {"C", "c"} + {"D", "d"}

  lemma FirstPollCounts()
    ensures Leads(ONCE, 6, RoomOf(PINGED10, "signup"), USED_ONCE,
      [Client10(Waiting("a", 1, 1)), Client20(Waiting("b", 2, 0)), Session(Ask(30), Waiting("c", 3, 0))])
  {
    ThirdJoins();
    ThreeCloses();
    var w1, w2, third := Client10(Waiting("a", 1, 0)), Client20(Waiting("b", 2, 0)), Session(Ask(30), Waiting("c", 3, 0));
    assert [w1, w2] + [third] == [w1, w2, third];
    Polls(THIRD, 6, RoomOf(GREW, "signup"), USED + {"C", "c"}, [w1, w2, third], 0, Draw("D", "d"), RoomOf(PINGED10, "signup"));
  }

  lemma StillFresh()
    ensures FreshFor(USED_ONCE, Draw("E", "e")) && FreshFor(USED_ONCE + {"E", "e"}, Draw("F", "f"))
    ensures FreshFor(USED_TWICE + {"F", "f"}, Draw("G", "g"))
  {
  }

  const TWICE := ONCE + [PollBy(1, Draw("E", "e"))]
  const USED_TWICE := USED_ONCE + {"E", "e"}

  lemma SecondPollCloses()
    ensures Leads(TWICE, 6, RoomOf(PINGED, "terminated"), USED_TWICE,
      [Client10(Waiting("a", 1, 1)), Client20(Done("b", 2, "A", 2, 6)), Session(Ask(30), Waiting("c", 3, 0))])
  {
    FirstPollCounts();
    ThreeCloses();
    StillFresh();
    var v1, w2, third := Client10(Waiting("a", 1, 1)), Client20(Waiting("b", 2, 0)), Session(Ask(30), Waiting("c", 3, 0));
    Polls(ONCE, 6, RoomOf(PINGED10, "signup"), USED_ONCE, [v1, w2, third], 1, Draw("E", "e"), RoomOf(PINGED, "terminated"));
  }

  const THRICE := TWICE + [PollBy(0, Draw("F", "f"))]

  /** A room of two ends up with three members, and the two clients that return from it are told of
      two, under numbers 1 and 2. */
  lemma RoomCanGrow()
    ensures Leads(THRICE, 6, RoomOf(PINGED, "terminated"), USED_TWICE + {"F", "f"},
      [Client10(Done("a", 1, "A", 2, 6)), Client20(Done("b", 2, "A", 2, 6)), Session(Ask(30), Waiting("c", 3, 0))])
    ensures RoomOf(PINGED, "terminated").roomSize == 2 && |PINGED| == 3
  {
    SecondPollCloses();
    ThreeCloses();
    ThreeMembers();
    StillFresh();
    var v1, d2, third := Client10(Waiting("a", 1, 1)), Client20(Done("b", 2, "A", 2, 6)), Session(Ask(30), Waiting("c", 3, 0));
    Polls(TWICE, 6, RoomOf(PINGED, "terminated"), USED_TWICE, [v1, d2, third], 0, Draw("F", "f"), RoomOf(PINGED, "terminated"));
  }

  /** So the two make up a signing session of a room of three. */
  lemma TwoOfThreeSign()
    ensures Seating.Joined(THRICE, TIMEOUT, [0, 1], "A")
  {
    RoomCanGrow();
  }

  /** The third, whose ping has aged, returns as well: with number 3 of a total of two. */
  lemma NumberPastTotal()
    ensures Run(THRICE + [PollBy(2, Draw("G", "g"))], TIMEOUT).sessions
      == [Client10(Done("a", 1, "A", 2, 6)), Client20(Done("b", 2, "A", 2, 6)), Session(Ask(30), Done("c", 3, "A", 2, 6))]
  {
    RoomCanGrow();
    ThreeActives();
    StillFresh();
    var sessions := [Client10(Done("a", 1, "A", 2, 6)), Client20(Done("b", 2, "A", 2, 6)), Session(Ask(30), Waiting("c", 3, 0))];
    assert Info(RoomOf(PINGED, "terminated"), 30, 6, TIMEOUT) == SignupInfo(3, "c", "A", 2);
    Polls(THRICE, 6, RoomOf(PINGED, "terminated"), USED_TWICE + {"F", "f"}, sessions, 2, Draw("G", "g"), RoomOf(PINGED, "terminated"));
  }
}
