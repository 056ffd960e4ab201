/** What a signing room keeps, request after request, and how its timeouts decide. */
module RoomRuns {
  import opened Wrappers
  import opened SigningRooms
  import opened Managers

  /** Orders are exactly 1..|members|, party uuids differ, and a closed room is full. */
  ghost predicate RoomOk(r: Room) {
    && r.roomUuid != ""
    && (r.lastStage == "signup" || (r.lastStage == "terminated" && IsFull(r)))
    && (forall p :: p in r.members ==> 1 <= r.members[p].partyOrder <= |r.members| && r.members[p].partyId != "")
    && (forall p, p' :: p in r.members && p' in r.members && p != p' ==>
          r.members[p].partyOrder != r.members[p'].partyOrder && r.members[p].partyId != r.members[p'].partyId)
    && (forall o :: 1 <= o <= |r.members| ==> HasOrder(r, o))
  }

  ghost predicate HasOrder(r: Room, o: nat) {
    exists p :: p in r.members && r.members[p].partyOrder == o
  }

  /** The uuid drawn for a party is not one the room knows already. */
  ghost predicate FreshDraw(entry: Option<Room>, draw: Draw) {
    && draw.room != "" && draw.party != ""
    && (entry.Some? ==> forall p :: p in entry.value.members ==> entry.value.members[p].partyId != draw.party)
  }

  lemma AddedOk(r: Room, number: nat, partyId: string, now: nat)
    requires RoomOk(r) && r.IsOpen() && number !in r.members && partyId != ""
    requires forall p :: p in r.members ==> r.members[p].partyId != partyId
    ensures RoomOk(Added(r, number, partyId, now))
  {
    var t := Added(r, number, partyId, now);
    assert |t.members| == |r.members| + 1;
    forall o | 1 <= o <= |t.members| ensures HasOrder(t, o) {
      if o == |t.members| {
        assert t.members[number].partyOrder == o;
      } else {
        assert HasOrder(r, o);
        var p :| p in r.members && r.members[p].partyOrder == o;
        assert p in t.members && t.members[p].partyOrder == o;
      }
    }
  }

  lemma SameKeys(m: map<nat, Member>, k: nat, v: Member)
    requires k in m
    ensures m[k := v].Keys == m.Keys && |m[k := v]| == |m|
  {
    assert m[k := v].Keys == m.Keys;
    assert |m[k := v]| == |m[k := v].Keys| && |m| == |m.Keys|;
  }

  /** Changing a member's ping or uuid, at the same order. */
  lemma ReorderedNot(r: Room, number: nat, m: Member)
    requires RoomOk(r) && number in r.members && m.partyId != "" && m.partyOrder == r.members[number].partyOrder
    requires forall p :: p in r.members && p != number ==> r.members[p].partyId != m.partyId
    ensures RoomOk(r.(members := r.members[number := m]))
  {
    var t := r.(members := r.members[number := m]);
    SameKeys(r.members, number, m);
    forall p, p' | p in t.members && p' in t.members && p != p'
      ensures t.members[p].partyOrder != t.members[p'].partyOrder && t.members[p].partyId != t.members[p'].partyId
    {
      StillDiffer(r, number, m, p, p');
    }
    forall o | 1 <= o <= |t.members| ensures HasOrder(t, o) {
      SameOrders(r, number, m, o);
    }
  }

  lemma StillDiffer(r: Room, number: nat, m: Member, p: nat, p': nat)
    requires RoomOk(r) && number in r.members && m.partyOrder == r.members[number].partyOrder
    requires forall p :: p in r.members && p != number ==> r.members[p].partyId != m.partyId
    requires p in r.members && p' in r.members && p != p'
    ensures var t := r.members[number := m]; t[p].partyOrder != t[p'].partyOrder && t[p].partyId != t[p'].partyId
  {
    assert r.members[p].partyOrder != r.members[p'].partyOrder && r.members[p].partyId != r.members[p'].partyId;
  }

  lemma SameOrders(r: Room, number: nat, m: Member, o: nat)
    requires number in r.members && m.partyOrder == r.members[number].partyOrder && HasOrder(r, o)
    ensures HasOrder(r.(members := r.members[number := m]), o)
  {
    var p :| p in r.members && r.members[p].partyOrder == o;
    assert r.members[number := m][p].partyOrder == o;
  }

  lemma PingedOk(r: Room, number: nat, now: nat, timeout: nat)
    requires RoomOk(r) && number in r.members
    ensures RoomOk(Pinged(r, number, now, timeout))
  {
    var m := r.members[number].(lastPing := now);
    var t := r.(members := r.members[number := m]);
    ReorderedNot(r, number, m);
    assert RoomOk(t);
    var c := Closed(t, now, timeout);
    assert c.members == t.members && c.roomUuid == t.roomUuid;
    forall o | 1 <= o <= |c.members| ensures HasOrder(c, o) {
      assert HasOrder(t, o);
    }
  }

  lemma ServeOpenOk(r: Room, req: SignRequest, now: nat, timeout: nat, draw: Draw)
    requires RoomOk(r) && r.IsOpen() && FreshDraw(Some(r), draw)
    ensures var o := ServeOpen(r, req, now, timeout, draw);
      o.written.Some? ==> RoomOk(o.written.value) && o.written.value.roomUuid == r.roomUuid && o.written.value.roomId == r.roomId
  {
    var o := ServeOpen(r, req, now, timeout, draw);
    if o.written.Some? {
      if req.partyUuid != "" {
        PingedOk(r, req.partyNumber, now, timeout);
      } else if req.partyNumber in r.members {
        ReorderedNot(r, req.partyNumber, Member(draw.party, r.members[req.partyNumber].partyOrder, now));
      } else {
        AddedOk(r, req.partyNumber, draw.party, now);
      }
    }
  }

  /** What is written is what the open half of the handler writes, on the room there is or on a new one. */
  lemma WrittenByOpenHalf(entry: Option<Room>, req: SignRequest, now: nat, timeout: nat, draw: Draw)
    ensures var o := Serve(entry, req, now, timeout, draw);
      o.written.Some? ==>
        o == if entry.Some? && entry.value.IsOpen() then ServeOpen(entry.value, req, now, timeout, draw)
             else ServeOpen(NewRoom(req.roomId, req.threshold + 1, draw.room), req, now, timeout, draw)
  {
  }

  /** Every request keeps the room invariant. */
  lemma ServeKeepsRoomOk(entry: Option<Room>, req: SignRequest, now: nat, timeout: nat, draw: Draw)
    requires entry.Some? ==> RoomOk(entry.value)
    requires FreshDraw(entry, draw)
    ensures var o := Serve(entry, req, now, timeout, draw);
      o.written.Some? ==> RoomOk(o.written.value)
  {
    var empty := NewRoom(req.roomId, req.threshold + 1, draw.room);
    WrittenByOpenHalf(entry, req, now, timeout, draw);
    if entry.Some? && entry.value.IsOpen() {
      ServeOpenOk(entry.value, req, now, timeout, draw);
    } else {
      ServeOpenOk(empty, req, now, timeout, draw);
    }
  }

  /** The members whose last ping is no older than the timeout. */
  function Recent(r: Room, now: nat, timeout: nat): (recent: set<nat>) {
    set p | p in r.members && now <= r.members[p].lastPing + timeout
  }

  lemma RecentIsActive(r: Room, now: nat, timeout: nat)
    ensures Active(r, now, timeout).Keys == Recent(r, now, timeout)
    ensures |Active(r, now, timeout)| == |Recent(r, now, timeout)|
  {
    assert |Active(r, now, timeout)| == |Active(r, now, timeout).Keys|;
  }

  /** A closed room is never written again. While one member's ping is recent a request leaves it as it
      is; when all pings are older than the timeout a new signup starts a room of one under a new uuid.
      A member is told the room's uuid, its own order and how many pings are recent all the same, and
      whoever else does not start a room gets an error. */
  lemma ClosedRoomIsFrozen(r: Room, req: SignRequest, now: nat, timeout: nat, draw: Draw)
    requires RoomOk(r) && !r.IsOpen()
    ensures var o, n := Serve(Some(r), req, now, timeout, draw), req.partyNumber;
      var own := n in r.members && r.members[n].partyId == req.partyUuid;
      && (o.written.Some? <==> req.partyUuid == "" && forall p :: p in r.members ==> r.members[p].lastPing + timeout < now)
      && (o.written.Some? ==>
            && o.written.value == Room(req.roomId, draw.room, req.threshold + 1, map[n := Member(draw.party, 1, now)], "signup")
            && o.reply == Ok(SignupInfo(1, draw.party, "", 0)))
      && (own ==> o.reply == Ok(SignupInfo(r.members[n].partyOrder, req.partyUuid, r.roomUuid, |Recent(r, now, timeout)|)))
      && (!own && Recent(r, now, timeout) != {} ==> o == SignOutcome(None, Err(SignupTerminated)))
      && (!own && Recent(r, now, timeout) == {} && req.partyUuid != "" ==> o == SignOutcome(None, Err(NoPartyFound)))
  {
    RecentIsActive(r, now, timeout);
    NoneRecent(r, now, timeout);
  }

  lemma NoneRecent(r: Room, now: nat, timeout: nat)
    ensures Recent(r, now, timeout) == {} <==> forall p :: p in r.members ==> r.members[p].lastPing + timeout < now
  {
    if p :| p in r.members && now <= r.members[p].lastPing + timeout {
      assert p in Recent(r, now, timeout);
    }
  }

  /** An open room turns away, and stays as it is: a new signup when it is full and all pings are
      recent; a uuid that is not the member's; and a new signup for a member whose ping is recent. */
  lemma OpenRoomRefuses(r: Room, req: SignRequest, now: nat, timeout: nat, draw: Draw)
    requires RoomOk(r) && r.IsOpen()
    ensures var o, n := Serve(Some(r), req, now, timeout, draw), req.partyNumber;
      var full := |r.members| >= r.roomSize && Recent(r, now, timeout) == r.members.Keys;
      && (o.reply == Err(RoomFull) <==> req.partyUuid == "" && full)
      && (o.reply == Err(NoPartyFound) <==> req.partyUuid != "" && !(n in r.members && r.members[n].partyId == req.partyUuid))
      && (o.reply == Err(PartyStillActive) <==>
            req.partyUuid == "" && !full && n in r.members && now <= r.members[n].lastPing + timeout)
      && (o.reply.Err? ==> o.reply.error in {RoomFull, NoPartyFound, PartyStillActive})
      && (o.reply.Err? <==> o.written.None?)
  {
  }

  /** Otherwise it answers and changes just that member: a number not in the room comes last, a number
      gone silent keeps its order under a new uuid; a member that polls has its ping renewed, and if that
      leaves enough pings recent the room closes and its uuid is told. */
  lemma OpenRoomAnswers(r: Room, req: SignRequest, now: nat, timeout: nat, draw: Draw)
    requires RoomOk(r) && r.IsOpen() && Serve(Some(r), req, now, timeout, draw).reply.Ok?
    ensures var o, n := Serve(Some(r), req, now, timeout, draw), req.partyNumber;
      && o.written.Some?
      && var t := o.written.value;
         && t.roomId == r.roomId && t.roomUuid == r.roomUuid && t.roomSize == r.roomSize
         && (req.partyUuid == "" && n !in r.members ==>
               && t == r.(members := r.members[n := Member(draw.party, |r.members| + 1, now)])
               && o.reply.value == SignupInfo(|r.members| + 1, draw.party, "", 0))
         && (req.partyUuid == "" && n in r.members ==>
               && t == r.(members := r.members[n := Member(draw.party, r.members[n].partyOrder, now)])
               && o.reply.value == SignupInfo(r.members[n].partyOrder, draw.party, "", 0))
         && (req.partyUuid != "" ==>
               && n in r.members && t.members == r.members[n := r.members[n].(lastPing := now)]
               && (t.lastStage == "terminated" <==> |r.members| >= r.roomSize && |Recent(t, now, timeout)| >= r.roomSize)
               && (t.lastStage != "terminated" ==> t.lastStage == "signup")
               && o.reply.value == SignupInfo(r.members[n].partyOrder, req.partyUuid,
                    if t.lastStage == "terminated" then r.roomUuid else "", |Recent(t, now, timeout)|))
  {
    if req.partyUuid != "" {
      var m := r.members[req.partyNumber].(lastPing := now);
      var pinged := r.(members := r.members[req.partyNumber := m]);
      SameKeys(r.members, req.partyNumber, m);
      RecentIsActive(pinged, now, timeout);
      RecentIsActive(pinged.(lastStage := "terminated"), now, timeout);
      assert Recent(pinged.(lastStage := "terminated"), now, timeout) == Recent(pinged, now, timeout);
    }
  }

  // ---- runs of requests on one room, no entry expiring ----

  datatype Arrival = Arrival(req: SignRequest, now: nat, draw: Draw)

  function After(entry: Option<Room>, a: Arrival, timeout: nat): Option<Room> {
    var o := Serve(entry, a.req, a.now, timeout, a.draw);
    if o.written.Some? then o.written else entry
  }

  function RunRoom(entry: Option<Room>, arrivals: seq<Arrival>, timeout: nat): Option<Room> {
    if arrivals == [] then entry
    else After(RunRoom(entry, arrivals[..|arrivals| - 1], timeout), arrivals[|arrivals| - 1], timeout)
  }

  /** The member keeps its place: same room, same order, same uuid. */
  ghost predicate Keeps(entry: Option<Room>, uuid: string, number: nat, partyId: string, order: nat) {
    && entry.Some? && entry.value.roomUuid == uuid && number in entry.value.members
    && entry.value.members[number].partyId == partyId && entry.value.members[number].partyOrder == order
  }

  /** A member loses its place to a new signup exactly when it has timed out; no other request
      can take it. */
  lemma PlaceTakenIffTimedOut(r: Room, number: nat, a: Arrival, timeout: nat)
    requires RoomOk(r) && r.IsOpen() && number in r.members && FreshDraw(Some(r), a.draw)
    ensures Keeps(After(Some(r), a, timeout), r.roomUuid, number, r.members[number].partyId, r.members[number].partyOrder)
      <==> !(a.req.partyUuid == "" && a.req.partyNumber == number && IsTimeout(r.members[number], a.now, timeout))
  {
  }

  /** A member whose last ping is never older than the timeout when a request is served keeps its
      order and uuid for as long as the room is open, up to and including the closing request. */
  lemma {:induction false} ActiveMemberKeepsPlace(r: Room, number: nat, arrivals: seq<Arrival>, timeout: nat)
    requires RoomOk(r) && number in r.members
    requires forall k :: 0 <= k < |arrivals| ==> FreshDraw(RunRoom(Some(r), arrivals[..k], timeout), arrivals[k].draw)
    requires forall k :: 0 <= k < |arrivals| ==>
      var e := RunRoom(Some(r), arrivals[..k], timeout);
      e.Some? && e.value.IsOpen() && (number in e.value.members ==> !IsTimeout(e.value.members[number], arrivals[k].now, timeout))
    ensures var e := RunRoom(Some(r), arrivals, timeout);
      Keeps(e, r.roomUuid, number, r.members[number].partyId, r.members[number].partyOrder) && RoomOk(e.value)
  {
    if arrivals != [] {
      var n := |arrivals| - 1;
      var before := arrivals[..n];
      assert forall k :: 0 <= k <= n ==> before[..k] == arrivals[..k];
      ActiveMemberKeepsPlace(r, number, before, timeout);
      var e := RunRoom(Some(r), before, timeout);
      PlaceTakenIffTimedOut(e.value, number, arrivals[n], timeout);
      ServeKeepsRoomOk(e, arrivals[n].req, arrivals[n].now, timeout, arrivals[n].draw);
    }
  }

  /** How a request changes the number of members of an open room. */
  lemma OpenSize(r: Room, a: Arrival, timeout: nat)
    requires r.IsOpen()
    ensures var e := After(Some(r), a, timeout);
      && e.Some? && e.value.roomSize == r.roomSize
      && |e.value.members| == |r.members| +
           (if a.req.partyUuid == "" && a.req.partyNumber !in r.members && !(IsFull(r) && AllActive(r, a.now, timeout)) then 1 else 0)
      && (|e.value.members| == |r.members| ==> e.value.members.Keys == r.members.Keys)
      && (|e.value.members| != |r.members| ==> e.value.members.Keys == r.members.Keys + {a.req.partyNumber})
  {
    var number := a.req.partyNumber;
    if number in r.members {
      SameKeys(r.members, number, r.members[number].(lastPing := a.now));
      SameKeys(r.members, number, Member(a.draw.party, r.members[number].partyOrder, a.now));
    }
  }

  /** A full room, at its size or past it already, takes one more number exactly when some member
      has gone silent. */
  lemma FullRoomGrowsIff(r: Room, a: Arrival, timeout: nat)
    requires RoomOk(r) && r.IsOpen() && IsFull(r)
    ensures After(Some(r), a, timeout).Some?
    ensures |After(Some(r), a, timeout).value.members| > |r.members| <==>
      a.req.partyUuid == "" && a.req.partyNumber !in r.members && !AllActive(r, a.now, timeout)
  {
    OpenSize(r, a, timeout);
  }

  lemma SizeStep(e: Option<Room>, a: Arrival, timeout: nat)
    requires e.Some? ==> RoomOk(e.value) && |e.value.members| <= e.value.roomSize
    requires e.Some? && a.req.partyUuid == "" ==> AllActive(e.value, a.now, timeout)
    ensures var t := After(e, a, timeout); t.Some? ==> |t.value.members| <= t.value.roomSize
  {
    if e.Some? && e.value.IsOpen() {
      OpenSize(e.value, a, timeout);
    }
  }

  /** When every new signup arrives while all present members are active, the room never grows
      past its size. */
  lemma {:induction false} SizeBound(entry: Option<Room>, arrivals: seq<Arrival>, timeout: nat)
    requires entry.Some? ==> RoomOk(entry.value) && |entry.value.members| <= entry.value.roomSize
    requires forall k :: 0 <= k < |arrivals| ==> FreshDraw(RunRoom(entry, arrivals[..k], timeout), arrivals[k].draw)
    requires forall k :: 0 <= k < |arrivals| ==>
      var e := RunRoom(entry, arrivals[..k], timeout);
      e.Some? && arrivals[k].req.partyUuid == "" ==> AllActive(e.value, arrivals[k].now, timeout)
    ensures var e := RunRoom(entry, arrivals, timeout);
      e.Some? ==> RoomOk(e.value) && |e.value.members| <= e.value.roomSize
  {
    if arrivals != [] {
      var n := |arrivals| - 1;
      var before, a := arrivals[..n], arrivals[n];
      assert forall k :: 0 <= k <= n ==> before[..k] == arrivals[..k];
      SizeBound(entry, before, timeout);
      var e := RunRoom(entry, before, timeout);
      ServeKeepsRoomOk(e, a.req, a.now, timeout, a.draw);
      SizeStep(e, a, timeout);
    }
  }

  // ---- progress within one timeout ----

  /** The numbers under which somebody asked to join. */
  function Joined(arrivals: seq<Arrival>): set<nat> {
    if arrivals == [] then {}
    else
      var a := arrivals[|arrivals| - 1];
      Joined(arrivals[..|arrivals| - 1]) + if a.req.partyUuid == "" then {a.req.partyNumber} else {}
  }

  /** All requests for a room fall within one timeout of `start` and ask for the same size. */
  ghost predicate Window(arrivals: seq<Arrival>, start: nat, timeout: nat, threshold: nat) {
    forall k :: 0 <= k < |arrivals| ==> start <= arrivals[k].now <= start + timeout && arrivals[k].req.threshold == threshold
  }

  /** The room during such a window: nobody times out, and it holds whoever asked until full. */
  ghost predicate Gathering(e: Option<Room>, joined: set<nat>, start: nat, threshold: nat) {
    match e
    case None => joined == {}
    case Some(r) =>
      && RoomOk(r) && r.roomSize == threshold + 1 && |r.members| <= r.roomSize && |r.members| > 0
      && (forall p :: p in r.members ==> r.members[p].lastPing >= start)
      && (|r.members| < r.roomSize ==> r.members.Keys == joined)
  }

  lemma GatheringStarts(a: Arrival, start: nat, timeout: nat, threshold: nat)
    requires FreshDraw(None, a.draw) && start <= a.now && a.req.threshold == threshold
    ensures Gathering(After(None, a, timeout), if a.req.partyUuid == "" then {a.req.partyNumber} else {}, start, threshold)
  {
    ServeKeepsRoomOk(None, a.req, a.now, timeout, a.draw);
    if a.req.partyUuid == "" {
      assert map[][a.req.partyNumber := Member(a.draw.party, 1, a.now)].Keys == {a.req.partyNumber};
    }
  }

  lemma GatheringGoesOn(r: Room, joined: set<nat>, a: Arrival, start: nat, timeout: nat, threshold: nat)
    requires Gathering(Some(r), joined, start, threshold) && r.IsOpen() && FreshDraw(Some(r), a.draw)
    requires start <= a.now <= start + timeout
    ensures Gathering(After(Some(r), a, timeout), joined + if a.req.partyUuid == "" then {a.req.partyNumber} else {}, start, threshold)
  {
    ServeKeepsRoomOk(Some(r), a.req, a.now, timeout, a.draw);
    assert AllActive(r, a.now, timeout);
    OpenSize(r, a, timeout);
    PingsStayRecent(r, a, start, timeout);
  }

  lemma GatheredStays(r: Room, joined: set<nat>, a: Arrival, start: nat, timeout: nat, threshold: nat)
    requires Gathering(Some(r), joined, start, threshold) && !r.IsOpen() && FreshDraw(Some(r), a.draw)
    requires start <= a.now <= start + timeout
    ensures After(Some(r), a, timeout) == Some(r) && |r.members| >= r.roomSize
  {
    assert !AllInactive(r, a.now, timeout) by {
      assert r.members.Keys != {};
      var p :| p in r.members;
      assert !IsTimeout(r.members[p], a.now, timeout);
    }
  }

  lemma GatheringStep(e: Option<Room>, joined: set<nat>, a: Arrival, start: nat, timeout: nat, threshold: nat)
    requires Gathering(e, joined, start, threshold) && FreshDraw(e, a.draw)
    requires start <= a.now <= start + timeout && a.req.threshold == threshold
    ensures Gathering(After(e, a, timeout), joined + if a.req.partyUuid == "" then {a.req.partyNumber} else {}, start, threshold)
  {
    match e
    case None =>
      GatheringStarts(a, start, timeout, threshold);
    case Some(r) =>
      if r.IsOpen() {
        GatheringGoesOn(r, joined, a, start, timeout, threshold);
      } else {
        GatheredStays(r, joined, a, start, timeout, threshold);
      }
  }

  lemma PingsStayRecent(r: Room, a: Arrival, start: nat, timeout: nat)
    requires r.IsOpen() && start <= a.now && forall p :: p in r.members ==> r.members[p].lastPing >= start
    ensures var e := After(Some(r), a, timeout);
      e.Some? && forall p :: p in e.value.members ==> e.value.members[p].lastPing >= start
  {
  }

  lemma {:induction false} WindowGathers(arrivals: seq<Arrival>, start: nat, timeout: nat, threshold: nat)
    requires Window(arrivals, start, timeout, threshold)
    requires forall k :: 0 <= k < |arrivals| ==> FreshDraw(RunRoom(None, arrivals[..k], timeout), arrivals[k].draw)
    ensures Gathering(RunRoom(None, arrivals, timeout), Joined(arrivals), start, threshold)
  {
    if arrivals != [] {
      var n := |arrivals| - 1;
      var before := arrivals[..n];
      assert forall k :: 0 <= k <= n ==> before[..k] == arrivals[..k];
      WindowGathers(before, start, timeout, threshold);
      GatheringStep(RunRoom(None, before, timeout), Joined(before), arrivals[n], start, timeout, threshold);
    }
  }

  lemma AllActiveCount(r: Room, now: nat, timeout: nat)
    ensures |Active(r, now, timeout)| <= |r.members|
    ensures |Active(r, now, timeout)| == |r.members| <==> AllActive(r, now, timeout)
  {
    var a := Active(r, now, timeout);
    assert |a| == |a.Keys| && |r.members| == |r.members.Keys|;
    Subset(a.Keys, r.members.Keys);
    if AllActive(r, now, timeout) {
      assert a.Keys == r.members.Keys;
    }
  }

  lemma Subset(a: set<nat>, b: set<nat>)
    requires a <= b
    ensures |a| <= |b| && (|a| == |b| ==> a == b)
  {
    assert b == a + (b - a);
    assert |b| == |a| + |b - a|;
  }

  /** threshold + 1 distinct numbers joining an empty room within one timeout, in any order and
      among any other requests, and then any member polling within it: the room is closed and the
      poller gets its uuid with everybody counted. */
  lemma {:induction false} WindowCloses(arrivals: seq<Arrival>, poll: Arrival, start: nat, timeout: nat, threshold: nat)
    requires Window(arrivals, start, timeout, threshold) && start <= poll.now <= start + timeout
    requires forall k :: 0 <= k < |arrivals| ==> FreshDraw(RunRoom(None, arrivals[..k], timeout), arrivals[k].draw)
    requires |Joined(arrivals)| >= threshold + 1
    requires var e := RunRoom(None, arrivals, timeout); e.Some? ==> HasMember(e.value, poll.req.partyNumber, poll.req.partyUuid)
    ensures var e := RunRoom(None, arrivals, timeout);
      && e.Some? && |e.value.members| == threshold + 1
      && After(e, poll, timeout).Some? && After(e, poll, timeout).value.lastStage == "terminated"
      && Serve(e, poll.req, poll.now, timeout, poll.draw).reply ==
           Ok(SignupInfo(e.value.members[poll.req.partyNumber].partyOrder, poll.req.partyUuid, e.value.roomUuid, threshold + 1))
  {
    WindowGathers(arrivals, start, timeout, threshold);
    var r := RunRoom(None, arrivals, timeout).value;
    assert |r.members| == |r.members.Keys|;
    PollCloses(r, poll.req, poll.now, timeout, poll.draw);
  }

  lemma PollCloses(r: Room, req: SignRequest, now: nat, timeout: nat, draw: Draw)
    requires RoomOk(r) && IsFull(r) && HasMember(r, req.partyNumber, req.partyUuid)
    requires AllActive(r, now, timeout)
    ensures var o := Serve(Some(r), req, now, timeout, draw);
      && o.reply == Ok(SignupInfo(r.members[req.partyNumber].partyOrder, req.partyUuid, r.roomUuid, |r.members|))
      && (if o.written.Some? then o.written.value.lastStage else r.lastStage) == "terminated"
  {
    AllActiveCount(r, now, timeout);
    if r.IsOpen() {
      PingCloses(r, req.partyNumber, now, timeout);
    }
  }

  /** A ping in a full room where all are active closes it, and leaves all active. */
  lemma PingCloses(r: Room, number: nat, now: nat, timeout: nat)
    requires IsFull(r) && number in r.members && AllActive(r, now, timeout)
    ensures var t := Pinged(r, number, now, timeout);
      && t == r.(members := r.members[number := r.members[number].(lastPing := now)], lastStage := "terminated")
      && |t.members| == |r.members| && |Active(t, now, timeout)| == |t.members|
  {
    var m := r.members[number].(lastPing := now);
    var pinged := r.(members := r.members[number := m]);
    SameKeys(r.members, number, m);
    AllActiveCount(pinged, now, timeout);
    assert AllActive(pinged, now, timeout);
    AllActiveCount(pinged.(lastStage := "terminated"), now, timeout);
  }

  // ---- how many a closed room reports ----

  /** The count a poll reports is the whole membership exactly when every frozen ping is still
      recent; polling later never reports more. */
  lemma TotalJoined(r: Room, now: nat, later: nat, timeout: nat)
    requires now <= later
    ensures |Active(r, now, timeout)| == |r.members| <==> forall p :: p in r.members ==> now <= r.members[p].lastPing + timeout
    ensures |Active(r, later, timeout)| <= |Active(r, now, timeout)|
  {
    AllActiveCount(r, now, timeout);
    assert AllActive(r, now, timeout) <==> forall p :: p in r.members ==> now <= r.members[p].lastPing + timeout;
    var a, b := Active(r, now, timeout), Active(r, later, timeout);
    assert |a| == |a.Keys| && |b| == |b.Keys|;
    Subset(b.Keys, a.Keys);
  }
}
