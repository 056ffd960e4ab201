/** All the clients of a manager signing up for signatures, in any interleaving, while time passes,
    store entries expire and rooms are renewed. */
module SignupSystem {
  import opened Wrappers
  import opened StoreKeys
  import opened SigningRooms
  import opened Managers
  import opened RoomRuns

  /** Where a client's `signup` call is: polling under the party uuid of its first answer, returned
      with a room uuid, or panicked. */
  datatype Client =
    | Waiting(partyUuid: string, number: nat, total: nat)
    | Done(partyUuid: string, number: nat, roomUuid: string, total: nat, at: nat)
    | Failed

  datatype Session = Session(req: SignRequest, client: Client)

  /** What the history has been: which key a room uuid was drawn for, which room a party uuid was
      drawn for, the rooms that have closed, and the party uuids that were replaced. */
  datatype Ledger = Ledger(keyAt: map<string, string>, home: map<string, string>, closed: map<string, Room>, superseded: set<string>)

  datatype System = System(hm: Store, now: nat, used: set<string>, sessions: seq<Session>, ledger: Ledger)

  datatype Event =
    | Join(req: SignRequest, draw: Draw)
    | PollBy(k: nat, draw: Draw)
    | GiveUp(k: nat)
    | Stray(req: SignRequest, draw: Draw)      // any request whose answer reaches nobody
    | Tick(d: nat)
    | Expire(key: string)
    | Write(key: string, value: Stored)        // another handler

  // ---- the client loop ----

  /** The first answer. */
  function Started(reply: SignReply, now: nat): Client {
    match reply
    case Err(_) => Failed
    case Ok(info) =>
      if info.roomUuid == "" then Waiting(info.partyUuid, info.partyOrder, info.totalJoined)
      else Done(info.partyUuid, info.partyOrder, info.roomUuid, info.totalJoined, now)
  }

  /** One more turn of the polling loop. */
  function Continued(c: Client, reply: SignReply, now: nat): Client {
    if !c.Waiting? then c
    else match reply
      case Err(_) => Failed
      case Ok(info) =>
        if info.roomUuid == "" then Waiting(c.partyUuid, info.partyOrder, info.totalJoined)
        else Done(c.partyUuid, info.partyOrder, info.roomUuid, info.totalJoined, now)
  }

  /** An answer and the moment it arrives. */
  datatype Heard = Heard(reply: SignReply, at: nat)

  function Followed(c: Client, heard: seq<Heard>): Client {
    if heard == [] then c
    else Continued(Followed(c, heard[..|heard| - 1]), heard[|heard| - 1].reply, heard[|heard| - 1].at)
  }

  /** The `signup` loop over the answers it gets before its own patience ends; a client still
      waiting then panics. */
  method Signup(first: Heard, heard: seq<Heard>) returns (c: Client)
    ensures var end := Followed(Started(first.reply, first.at), heard);
      c == if end.Waiting? then Failed else end
  {
    if first.reply.Err? {
      FollowedStops(Failed, heard);
      return Failed;
    }
    var info := first.reply.value;
    var partyUuid := info.partyUuid;
    var number, uuid, total, at := info.partyOrder, info.roomUuid, info.totalJoined, first.at;
    var i := 0;
    while uuid == "" && i < |heard|
      invariant 0 <= i <= |heard|
      invariant Followed(Started(first.reply, first.at), heard[..i])
             == if uuid == "" then Waiting(partyUuid, number, total) else Done(partyUuid, number, uuid, total, at)
    {
      assert heard[..i + 1][..i] == heard[..i];
      match heard[i].reply {
        case Ok(next) =>
          if number != next.partyOrder {
            number := next.partyOrder;
          }
          uuid := next.roomUuid;
          if next.totalJoined != total {
            total := next.totalJoined;
          }
          at := heard[i].at;
        case Err(_) =>
          FollowedFrom(Started(first.reply, first.at), heard, i + 1);
          FollowedStops(Failed, heard[i + 1..]);
          return Failed;
      }
      i := i + 1;
    }
    FollowedFrom(Started(first.reply, first.at), heard, i);
    if uuid == "" {
      assert heard[..i] == heard;
      return Failed;
    }
    FollowedStops(Done(partyUuid, number, uuid, total, at), heard[i..]);
    return Done(partyUuid, number, uuid, total, at);
  }

  lemma {:induction false} FollowedStops(c: Client, heard: seq<Heard>)
    requires !c.Waiting?
    ensures Followed(c, heard) == c
  {
    if heard != [] {
      FollowedStops(c, heard[..|heard| - 1]);
    }
  }

  lemma {:induction false} FollowedFrom(c: Client, heard: seq<Heard>, i: nat)
    requires i <= |heard|
    ensures Followed(c, heard) == Followed(Followed(c, heard[..i]), heard[i..])
    decreases |heard|
  {
    if i == |heard| {
      assert heard[..i] == heard;
    } else {
      var n := |heard| - 1;
      FollowedFrom(c, heard[..n], i);
      assert heard[..n][..i] == heard[..i];
      assert heard[i..][..n - i] == heard[..n][i..];
    }
  }

  // ---- steps ----

  ghost predicate IsSignKey(key: string) {
    exists curve, roomId :: WellFormed(SignSignup(curve, roomId)) && key == KeyOf(SignSignup(curve, roomId))
  }

  predicate FreshUuids(s: System, d: Draw) {
    d.room != "" && d.party != "" && d.room != d.party && d.room !in s.used && d.party !in s.used
  }

  function EntryOf(hm: Store, key: string): Option<Room> {
    if key in hm && hm[key].RoomRecord? then Some(hm[key].room) else None
  }

  /** The party uuids that a request dropped from a room. */
  function Dropped(before: Room, after: Room): set<string> {
    set p | p in before.members && (p !in after.members || after.members[p].partyId != before.members[p].partyId)
      :: before.members[p].partyId
  }

  function Record(l: Ledger, key: string, entry: Option<Room>, r: Room, draw: Draw): Ledger {
    Ledger(
      l.keyAt[r.roomUuid := key],
      l.home[draw.party := r.roomUuid],
      if r.IsOpen() then l.closed else l.closed[r.roomUuid := r],
      l.superseded + if entry.Some? && entry.value.roomUuid == r.roomUuid then Dropped(entry.value, r) else {})
  }

  /** The manager serves a request. */
  function Request(s: System, req: SignRequest, timeout: nat, draw: Draw): (System, SignReply) {
    var key := SignKey(req);
    var (hm, reply) := SignupSignEffect(s.hm, req, s.now, timeout, draw);
    var entry := EntryOf(s.hm, key);
    var o := Serve(entry, req, s.now, timeout, draw);
    var ledger :=
      if (key in s.hm && !s.hm[key].RoomRecord?) || o.written.None? then s.ledger
      else Record(s.ledger, key, entry, o.written.value, draw);
    (System(hm, s.now, s.used + {draw.room, draw.party}, s.sessions, ledger), reply)
  }

  ghost function Next(s: System, e: Event, timeout: nat): System {
    match e
    case Join(req, draw) =>
      if !FreshUuids(s, draw) || !WellFormed(SignSignup(req.curve, req.roomId)) || req.partyUuid != "" then s
      else
        var (t, reply) := Request(s, req, timeout, draw);
        t.(sessions := t.sessions + [Session(req, Started(reply, s.now))])
    case PollBy(k, draw) =>
      if !FreshUuids(s, draw) || k >= |s.sessions| || !s.sessions[k].client.Waiting? then s
      else
        var ses := s.sessions[k];
        var (t, reply) := Request(s, ses.req.(partyUuid := ses.client.partyUuid), timeout, draw);
        t.(sessions := t.sessions[k := ses.(client := Continued(ses.client, reply, s.now))])
    case GiveUp(k) =>
      if k >= |s.sessions| || !s.sessions[k].client.Waiting? then s
      else s.(sessions := s.sessions[k := s.sessions[k].(client := Failed)])
    case Stray(req, draw) =>
      if !FreshUuids(s, draw) || !WellFormed(SignSignup(req.curve, req.roomId)) then s
      else Request(s, req, timeout, draw).0
    case Tick(d) => s.(now := s.now + d)
    case Expire(key) => s.(hm := s.hm - {key})
    case Write(key, value) => if IsSignKey(key) || value.RoomRecord? then s else s.(hm := s.hm[key := value])
  }

  const INITIAL := System(map[], 0, {}, [], Ledger(map[], map[], map[], {}))

  ghost function Run(events: seq<Event>, timeout: nat): System {
    if events == [] then INITIAL
    else Next(Run(events[..|events| - 1], timeout), events[|events| - 1], timeout)
  }

  // ---- the invariant ----

  /** The members' uuids were drawn for this room and none was replaced. */
  ghost predicate MembersOk(s: System, r: Room) {
    forall p :: p in r.members ==>
      && r.members[p].partyId in s.ledger.home && s.ledger.home[r.members[p].partyId] == r.roomUuid
      && r.members[p].partyId !in s.ledger.superseded
  }

  ghost predicate LiveOk(s: System, key: string) {
    key in s.hm && s.hm[key].RoomRecord? ==>
      var r := s.hm[key].room;
      && RoomOk(r) && MembersOk(s, r)
      && r.roomUuid in s.ledger.keyAt && s.ledger.keyAt[r.roomUuid] == key
      && (if r.IsOpen() then r.roomUuid !in s.ledger.closed
          else r.roomUuid in s.ledger.closed && s.ledger.closed[r.roomUuid] == r)
  }

  ghost predicate ClosedOk(s: System, u: string) {
    u in s.ledger.closed ==>
      var r := s.ledger.closed[u];
      RoomOk(r) && !r.IsOpen() && r.roomUuid == u && u in s.ledger.keyAt && MembersOk(s, r)
  }

  ghost predicate SessionOk(s: System, k: nat, timeout: nat)
    requires k < |s.sessions|
  {
    var ses := s.sessions[k];
    && WellFormed(SignSignup(ses.req.curve, ses.req.roomId))
    && (!ses.client.Failed? ==> ses.client.partyUuid in s.used && ses.client.partyUuid != "")
    && (ses.client.Done? ==>
          var u := ses.client.roomUuid;
          && u in s.ledger.closed
          && HasMember(s.ledger.closed[u], ses.req.partyNumber, ses.client.partyUuid)
          && s.ledger.closed[u].members[ses.req.partyNumber].partyOrder == ses.client.number
          && ses.client.total == |Active(s.ledger.closed[u], ses.client.at, timeout)|)
  }

  ghost predicate Inv(s: System, timeout: nat) {
    && (forall key :: LiveOk(s, key))
    && (forall u :: ClosedOk(s, u))
    && s.ledger.keyAt.Keys <= s.used && s.ledger.home.Keys <= s.used && s.ledger.superseded <= s.used
    && (forall k :: 0 <= k < |s.sessions| ==> SessionOk(s, k, timeout))
    && (forall k, l :: 0 <= k < l < |s.sessions| && !s.sessions[k].client.Failed? && !s.sessions[l].client.Failed? ==>
          s.sessions[k].client.partyUuid != s.sessions[l].client.partyUuid)
  }

  /** What a request may write: the same open room with at most the drawn uuid added, or a new
      open room under the drawn uuids. */
  lemma ServeShape(entry: Option<Room>, req: SignRequest, now: nat, timeout: nat, draw: Draw)
    requires entry.Some? ==> RoomOk(entry.value)
    requires FreshDraw(entry, draw)
    ensures var o := Serve(entry, req, now, timeout, draw);
      o.written.Some? ==>
        var r := o.written.value;
        && (if entry.Some? && entry.value.IsOpen() then r.roomUuid == entry.value.roomUuid
            else r.roomUuid == draw.room && r.IsOpen())
        && (forall p :: p in r.members ==>
              || r.members[p].partyId == draw.party
              || (entry.Some? && entry.value.IsOpen() && p in entry.value.members
                  && entry.value.members[p].partyId == r.members[p].partyId))
  {
  }

  /** An answer with a room uuid comes from a closed room of which the requester is a member. */
  lemma AnswerShape(entry: Option<Room>, req: SignRequest, now: nat, timeout: nat, draw: Draw)
    requires entry.Some? ==> RoomOk(entry.value)
    requires draw.room != ""
    ensures var o := Serve(entry, req, now, timeout, draw);
      o.reply.Ok? ==>
        && (o.reply.value.roomUuid != "" ==>
              && (o.written.Some? || entry.Some?)
              && var r := if o.written.Some? then o.written.value else entry.value;
              && !r.IsOpen() && r.roomUuid == o.reply.value.roomUuid
              && HasMember(r, req.partyNumber, req.partyUuid)
              && r.members[req.partyNumber].partyOrder == o.reply.value.partyOrder
              && o.reply.value.totalJoined == |Active(r, now, timeout)|)
        && (req.partyUuid == "" ==> o.reply.value.roomUuid == "" && o.reply.value.partyUuid == draw.party)
  {
  }

  ghost predicate Written(s: System, key: string, entry: Option<Room>, r: Room, req: SignRequest, timeout: nat, draw: Draw, t: System) {
    && Inv(s, timeout) && FreshUuids(s, draw) && entry == EntryOf(s.hm, key)
    && Serve(entry, req, s.now, timeout, draw).written == Some(r)
    && t.hm == s.hm[key := RoomRecord(r)] && t.used == s.used + {draw.room, draw.party}
    && t.ledger == Record(s.ledger, key, entry, r, draw)
  }

  /** A uuid the request replaced belonged to the open room only. */
  lemma DroppedIsHome(s: System, key: string, entry: Option<Room>, r: Room, req: SignRequest, timeout: nat, draw: Draw, t: System, x: string)
    requires Written(s, key, entry, r, req, timeout, draw, t)
    requires x in t.ledger.superseded && x !in s.ledger.superseded
    ensures entry.Some? && entry.value.IsOpen() && entry.value.roomUuid == r.roomUuid
    ensures x in s.ledger.home && s.ledger.home[x] == r.roomUuid
    ensures forall p :: p in r.members ==> r.members[p].partyId != x
  {
    assert LiveOk(s, key);
    FreshForRoom(s, key, draw, timeout);
    ServeShape(entry, req, s.now, timeout, draw);
    assert MembersOk(s, entry.value);
    var q :| q in entry.value.members && entry.value.members[q].partyId == x
      && (q !in r.members || r.members[q].partyId != x);
  }

  lemma FreshForRoom(s: System, key: string, draw: Draw, timeout: nat)
    requires Inv(s, timeout) && FreshUuids(s, draw)
    ensures FreshDraw(EntryOf(s.hm, key), draw)
  {
    assert LiveOk(s, key);
  }

  lemma MembersStay(s: System, key: string, entry: Option<Room>, r: Room, req: SignRequest, timeout: nat, draw: Draw, t: System, other: Room)
    requires Written(s, key, entry, r, req, timeout, draw, t)
    requires MembersOk(s, other) && other.roomUuid != r.roomUuid
    ensures MembersOk(t, other)
  {
    forall p | p in other.members
      ensures other.members[p].partyId in t.ledger.home && t.ledger.home[other.members[p].partyId] == other.roomUuid
           && other.members[p].partyId !in t.ledger.superseded
    {
      var x := other.members[p].partyId;
      assert x in s.ledger.home && s.ledger.home[x] == other.roomUuid;
      if x in t.ledger.superseded {
        DroppedIsHome(s, key, entry, r, req, timeout, draw, t, x);
      }
    }
  }

  lemma WrittenMembers(s: System, key: string, entry: Option<Room>, r: Room, req: SignRequest, timeout: nat, draw: Draw, t: System)
    requires Written(s, key, entry, r, req, timeout, draw, t)
    ensures RoomOk(r) && MembersOk(t, r)
    ensures if entry.Some? && entry.value.IsOpen() then r.roomUuid == entry.value.roomUuid else r.roomUuid == draw.room && r.IsOpen()
  {
    assert LiveOk(s, key);
    FreshForRoom(s, key, draw, timeout);
    ServeShape(entry, req, s.now, timeout, draw);
    ServeKeepsRoomOk(entry, req, s.now, timeout, draw);
    forall p | p in r.members
      ensures r.members[p].partyId in t.ledger.home && t.ledger.home[r.members[p].partyId] == r.roomUuid
           && r.members[p].partyId !in t.ledger.superseded
    {
      var x := r.members[p].partyId;
      if x in t.ledger.superseded && x !in s.ledger.superseded {
        DroppedIsHome(s, key, entry, r, req, timeout, draw, t, x);
      }
      if x == draw.party {
        NeverSuperseded(s, timeout, x);
      }
    }
  }

  /** A uuid not drawn yet has not been replaced. */
  lemma NeverSuperseded(s: System, timeout: nat, x: string)
    requires Inv(s, timeout) && x !in s.used
    ensures x !in s.ledger.superseded
  {
    assert s.ledger.superseded <= s.used;
  }

  lemma WrittenLive(s: System, key: string, entry: Option<Room>, r: Room, req: SignRequest, timeout: nat, draw: Draw, t: System)
    requires Written(s, key, entry, r, req, timeout, draw, t)
    ensures forall k :: LiveOk(t, k)
  {
    WrittenMembers(s, key, entry, r, req, timeout, draw, t);
    assert LiveOk(s, key);
    forall k ensures LiveOk(t, k) {
      assert LiveOk(s, k);
      if k != key && k in s.hm && s.hm[k].RoomRecord? {
        MembersStay(s, key, entry, r, req, timeout, draw, t, s.hm[k].room);
      }
      if k == key {
        assert ClosedOk(s, r.roomUuid);
      }
    }
  }

  lemma WrittenClosed(s: System, key: string, entry: Option<Room>, r: Room, req: SignRequest, timeout: nat, draw: Draw, t: System)
    requires Written(s, key, entry, r, req, timeout, draw, t)
    ensures forall u :: ClosedOk(t, u)
  {
    WrittenMembers(s, key, entry, r, req, timeout, draw, t);
    assert LiveOk(s, key);
    forall u ensures ClosedOk(t, u) {
      assert ClosedOk(s, u);
      if u in s.ledger.closed && u != r.roomUuid {
        MembersStay(s, key, entry, r, req, timeout, draw, t, s.ledger.closed[u]);
      }
      assert r.roomUuid !in s.ledger.closed by {
        assert ClosedOk(s, r.roomUuid);
      }
    }
  }

  /** A request either leaves store and ledger alone or writes one room. */
  lemma RequestCases(s: System, req: SignRequest, timeout: nat, draw: Draw)
    requires Inv(s, timeout) && FreshUuids(s, draw)
    ensures var t := Request(s, req, timeout, draw).0;
      && t.used == s.used + {draw.room, draw.party} && t.sessions == s.sessions && t.now == s.now
      && ((t.hm == s.hm && t.ledger == s.ledger) ||
          (exists r :: Written(s, SignKey(req), EntryOf(s.hm, SignKey(req)), r, req, timeout, draw, t)))
  {
    var t := Request(s, req, timeout, draw).0;
    var key := SignKey(req);
    var entry := EntryOf(s.hm, key);
    var o := Serve(entry, req, s.now, timeout, draw);
    if !(key in s.hm && !s.hm[key].RoomRecord?) && o.written.Some? {
      assert Written(s, key, entry, o.written.value, req, timeout, draw, t);
    }
  }

  ghost predicate RoomsOk(s: System) {
    && (forall key :: LiveOk(s, key)) && (forall u :: ClosedOk(s, u))
    && s.ledger.keyAt.Keys <= s.used && s.ledger.home.Keys <= s.used && s.ledger.superseded <= s.used
  }

  /** The part of the invariant that does not speak of sessions, after a request. */
  lemma RequestKeepsRooms(s: System, req: SignRequest, timeout: nat, draw: Draw)
    requires Inv(s, timeout) && FreshUuids(s, draw)
    ensures RoomsOk(Request(s, req, timeout, draw).0)
  {
    var t := Request(s, req, timeout, draw).0;
    var key := SignKey(req);
    var entry := EntryOf(s.hm, key);
    RequestCases(s, req, timeout, draw);
    if t.hm == s.hm && t.ledger == s.ledger {
      SameRooms(s, timeout, t);
    } else {
      var r :| Written(s, key, entry, r, req, timeout, draw, t);
      WrittenLive(s, key, entry, r, req, timeout, draw, t);
      WrittenClosed(s, key, entry, r, req, timeout, draw, t);
      WrittenMembers(s, key, entry, r, req, timeout, draw, t);
      assert LiveOk(s, key);
      assert t.ledger.superseded <= t.used;
    }
  }

  /** Dropping entries, or writing others that are no rooms, keeps what is said of the rooms. */
  lemma SameRooms(s: System, timeout: nat, t: System)
    requires Inv(s, timeout) && t.ledger == s.ledger && s.used <= t.used
    requires forall key :: key in t.hm && t.hm[key].RoomRecord? ==> key in s.hm && t.hm[key] == s.hm[key]
    ensures RoomsOk(t)
  {
    forall k ensures LiveOk(t, k) { assert LiveOk(s, k); }
    forall u ensures ClosedOk(t, u) { assert ClosedOk(s, u); }
  }

  // ---- sessions ----

  /** Rooms that have closed stay on record as they were. */
  lemma ClosedStays(s: System, req: SignRequest, timeout: nat, draw: Draw, u: string)
    requires Inv(s, timeout) && FreshUuids(s, draw) && u in s.ledger.closed
    ensures var t := Request(s, req, timeout, draw).0; u in t.ledger.closed && t.ledger.closed[u] == s.ledger.closed[u]
  {
    var t := Request(s, req, timeout, draw).0;
    var key := SignKey(req);
    var entry := EntryOf(s.hm, key);
    RequestCases(s, req, timeout, draw);
    if !(t.hm == s.hm && t.ledger == s.ledger) {
      var r :| Written(s, key, entry, r, req, timeout, draw, t);
      WrittenMembers(s, key, entry, r, req, timeout, draw, t);
      assert LiveOk(s, key);
      assert ClosedOk(s, r.roomUuid);
    }
  }

  lemma SessionsStay(s: System, req: SignRequest, timeout: nat, draw: Draw, k: nat)
    requires Inv(s, timeout) && FreshUuids(s, draw) && k < |s.sessions|
    ensures SessionOk(Request(s, req, timeout, draw).0, k, timeout)
  {
    assert SessionOk(s, k, timeout);
    RequestCases(s, req, timeout, draw);
    if s.sessions[k].client.Done? {
      ClosedStays(s, req, timeout, draw, s.sessions[k].client.roomUuid);
    }
  }

  /** An answer that carries a room uuid names a room on record in which the requester sits. */
  lemma AnswerOnRecord(s: System, req: SignRequest, timeout: nat, draw: Draw)
    requires Inv(s, timeout) && FreshUuids(s, draw) && WellFormed(SignSignup(req.curve, req.roomId))
    ensures var (t, reply) := Request(s, req, timeout, draw);
      reply.Ok? ==>
        && (reply.value.roomUuid != "" ==>
              var u := reply.value.roomUuid;
              && u in t.ledger.closed
              && HasMember(t.ledger.closed[u], req.partyNumber, req.partyUuid)
              && t.ledger.closed[u].members[req.partyNumber].partyOrder == reply.value.partyOrder
              && reply.value.totalJoined == |Active(t.ledger.closed[u], s.now, timeout)|)
        && (req.partyUuid == "" ==> reply.value.roomUuid == "" && reply.value.partyUuid == draw.party)
  {
    var (t, reply) := Request(s, req, timeout, draw);
    var key := SignKey(req);
    var entry := EntryOf(s.hm, key);
    assert LiveOk(s, key);
    AnswerShape(entry, req, s.now, timeout, draw);
    RequestKeepsRooms(s, req, timeout, draw);
    assert LiveOk(t, key);
  }

  lemma JoinKeeps(s: System, req: SignRequest, draw: Draw, timeout: nat)
    requires Inv(s, timeout)
    ensures Inv(Next(s, Join(req, draw), timeout), timeout)
  {
    var t := Next(s, Join(req, draw), timeout);
    if t != s {
      RequestKeepsRooms(s, req, timeout, draw);
      AnswerOnRecord(s, req, timeout, draw);
      RequestCases(s, req, timeout, draw);
      SameButSessions(Request(s, req, timeout, draw).0, t);
      forall k | 0 <= k < |t.sessions| ensures SessionOk(t, k, timeout) {
        if k < |s.sessions| {
          SessionsStay(s, req, timeout, draw, k);
        }
      }
      forall k | 0 <= k < |s.sessions| && !s.sessions[k].client.Failed?
        ensures s.sessions[k].client.partyUuid != draw.party
      {
        assert SessionOk(s, k, timeout);
      }
    }
  }

  lemma SameButSessions(s: System, t: System)
    requires RoomsOk(s) && t == s.(sessions := t.sessions)
    ensures RoomsOk(t)
  {
    forall k ensures LiveOk(t, k) { assert LiveOk(s, k); }
    forall u ensures ClosedOk(t, u) { assert ClosedOk(s, u); }
  }

  lemma PollKeeps(s: System, k: nat, draw: Draw, timeout: nat)
    requires Inv(s, timeout)
    ensures Inv(Next(s, PollBy(k, draw), timeout), timeout)
  {
    var t := Next(s, PollBy(k, draw), timeout);
    if FreshUuids(s, draw) && k < |s.sessions| && s.sessions[k].client.Waiting? {
      var ses := s.sessions[k];
      var req := ses.req.(partyUuid := ses.client.partyUuid);
      assert SessionOk(s, k, timeout);
      RequestKeepsRooms(s, req, timeout, draw);
      AnswerOnRecord(s, req, timeout, draw);
      RequestCases(s, req, timeout, draw);
      SameButSessions(Request(s, req, timeout, draw).0, t);
      forall l | 0 <= l < |t.sessions| ensures SessionOk(t, l, timeout) {
        SessionsStay(s, req, timeout, draw, l);
      }
    }
  }

  lemma StrayKeeps(s: System, req: SignRequest, draw: Draw, timeout: nat)
    requires Inv(s, timeout)
    ensures Inv(Next(s, Stray(req, draw), timeout), timeout)
  {
    var t := Next(s, Stray(req, draw), timeout);
    if t != s {
      RequestKeepsRooms(s, req, timeout, draw);
      RequestCases(s, req, timeout, draw);
      forall k | 0 <= k < |t.sessions| ensures SessionOk(t, k, timeout) {
        SessionsStay(s, req, timeout, draw, k);
      }
    }
  }

  lemma NextKeeps(s: System, e: Event, timeout: nat)
    requires Inv(s, timeout)
    ensures Inv(Next(s, e, timeout), timeout)
  {
    match e
    case Join(req, draw) => JoinKeeps(s, req, draw, timeout);
    case PollBy(k, draw) => PollKeeps(s, k, draw, timeout);
    case Stray(req, draw) => StrayKeeps(s, req, draw, timeout);
    case _ =>
      var t := Next(s, e, timeout);
      SameRooms(s, timeout, t);
      forall k | 0 <= k < |t.sessions| ensures SessionOk(t, k, timeout) {
        assert SessionOk(s, k, timeout);
      }
  }

  lemma {:induction false} RunInv(events: seq<Event>, timeout: nat)
    ensures Inv(Run(events, timeout), timeout)
  {
    if events != [] {
      RunInv(events[..|events| - 1], timeout);
      NextKeeps(Run(events[..|events| - 1], timeout), events[|events| - 1], timeout);
    }
  }

  // ---- the theorems ----

  /** Signup agreement: two sessions whose calls return the same room uuid hold different numbers,
      all within 1..|members| of the room that closed, and different party numbers. */
  lemma {:induction false} SignupAgreement(events: seq<Event>, timeout: nat, a: nat, b: nat)
    requires var s := Run(events, timeout);
      && a < |s.sessions| && b < |s.sessions| && a != b
      && s.sessions[a].client.Done? && s.sessions[b].client.Done?
      && s.sessions[a].client.roomUuid == s.sessions[b].client.roomUuid
    ensures var s := Run(events, timeout);
      var u := s.sessions[a].client.roomUuid;
      && s.sessions[a].client.number != s.sessions[b].client.number
      && s.sessions[a].req.partyNumber != s.sessions[b].req.partyNumber
      && u in s.ledger.closed
      && 1 <= s.sessions[a].client.number <= |s.ledger.closed[u].members|
      && 1 <= s.sessions[b].client.number <= |s.ledger.closed[u].members|
  {
    RunInv(events, timeout);
    var s := Run(events, timeout);
    assert SessionOk(s, a, timeout) && SessionOk(s, b, timeout);
    assert ClosedOk(s, s.sessions[a].client.roomUuid);
  }

  /** A returned session is a member of the closed room, under its own party uuid and number. */
  lemma {:induction false} ReturnedIsMember(events: seq<Event>, timeout: nat, a: nat)
    requires var s := Run(events, timeout); a < |s.sessions| && s.sessions[a].client.Done?
    ensures var s := Run(events, timeout);
      var c := s.sessions[a].client;
      && c.roomUuid in s.ledger.closed
      && HasMember(s.ledger.closed[c.roomUuid], s.sessions[a].req.partyNumber, c.partyUuid)
      && s.ledger.closed[c.roomUuid].members[s.sessions[a].req.partyNumber].partyOrder == c.number
  {
    RunInv(events, timeout);
    assert SessionOk(Run(events, timeout), a, timeout);
  }

  /** A session whose party was replaced never gets a room uuid. */
  lemma {:induction false} ReplacedNeverReturns(events: seq<Event>, timeout: nat, a: nat)
    requires var s := Run(events, timeout); a < |s.sessions| && !s.sessions[a].client.Failed?
    requires var s := Run(events, timeout); s.sessions[a].client.partyUuid in s.ledger.superseded
    ensures Run(events, timeout).sessions[a].client.Waiting?
  {
    RunInv(events, timeout);
    var s := Run(events, timeout);
    assert SessionOk(s, a, timeout);
    if s.sessions[a].client.Done? {
      RecordedNotReplaced(s, timeout, s.sessions[a].client.roomUuid, s.sessions[a].req.partyNumber);
    }
  }

  lemma RecordedNotReplaced(s: System, timeout: nat, u: string, p: nat)
    requires Inv(s, timeout) && u in s.ledger.closed && p in s.ledger.closed[u].members
    ensures s.ledger.closed[u].members[p].partyId !in s.ledger.superseded
  {
    assert ClosedOk(s, u);
  }

  /** Whoever had joined under a number that a timed-out signup takes over is on the list of the
      replaced from then on. */
  lemma ReplacementIsRecorded(s: System, req: SignRequest, timeout: nat, draw: Draw)
    requires Inv(s, timeout) && FreshUuids(s, draw) && req.partyUuid == ""
    requires var e := EntryOf(s.hm, SignKey(req));
      && e.Some? && e.value.IsOpen() && req.partyNumber in e.value.members
      && IsTimeout(e.value.members[req.partyNumber], s.now, timeout)
    ensures var e := EntryOf(s.hm, SignKey(req)).value;
      var t := Request(s, req, timeout, draw).0;
      && e.members[req.partyNumber].partyId in t.ledger.superseded
      && EntryOf(t.hm, SignKey(req)) == Some(Replaced(e, req.partyNumber, draw.party, s.now))
  {
    var key := SignKey(req);
    FreshForRoom(s, key, draw, timeout);
    var e := EntryOf(s.hm, key).value;
    var x := e.members[req.partyNumber].partyId;
    assert x in Dropped(e, Replaced(e, req.partyNumber, draw.party, s.now));
  }

  /** Once a room has closed, its members, orders and uuids are on record for good, whatever
      expires or is renewed afterwards. */
  lemma {:induction false} ClosedForever(events: seq<Event>, more: seq<Event>, timeout: nat, u: string)
    requires u in Run(events, timeout).ledger.closed
    ensures SameRecord(Run(events, timeout), Run(events + more, timeout), u)
    decreases |more|
  {
    if more == [] {
      assert events + more == events;
    } else {
      var before := more[..|more| - 1];
      ClosedForever(events, before, timeout, u);
      OneMoreEvent(events + before, more[|more| - 1], timeout, u);
      assert (events + before) + [more[|more| - 1]] == events + more;
    }
  }

  /** The room is on record in both states, the same. */
  ghost predicate SameRecord(s: System, t: System, u: string) {
    u in s.ledger.closed && u in t.ledger.closed && t.ledger.closed[u] == s.ledger.closed[u]
  }

  lemma {:induction false} OneMoreEvent(events: seq<Event>, e: Event, timeout: nat, u: string)
    requires u in Run(events, timeout).ledger.closed
    ensures SameRecord(Run(events, timeout), Run(events + [e], timeout), u)
  {
    RunOne(events, e, timeout);
    RunInv(events, timeout);
    StepKeepsClosed(Run(events, timeout), e, timeout, u);
  }

  /** While the store still holds a closed room, it holds just what is on record. */
  lemma {:induction false} StoreHoldsRecord(events: seq<Event>, timeout: nat, key: string)
    requires var s := Run(events, timeout); key in s.hm && s.hm[key].RoomRecord? && !s.hm[key].room.IsOpen()
    ensures var s := Run(events, timeout);
      s.hm[key].room.roomUuid in s.ledger.closed && s.ledger.closed[s.hm[key].room.roomUuid] == s.hm[key].room
  {
    RunInv(events, timeout);
    assert LiveOk(Run(events, timeout), key);
  }

  lemma StepKeepsClosed(s: System, e: Event, timeout: nat, u: string)
    requires Inv(s, timeout) && u in s.ledger.closed
    ensures var t := Next(s, e, timeout); u in t.ledger.closed && t.ledger.closed[u] == s.ledger.closed[u]
  {
    match e
    case Join(req, draw) =>
      if FreshUuids(s, draw) { ClosedStays(s, req, timeout, draw, u); }
    case PollBy(k, draw) =>
      if FreshUuids(s, draw) && k < |s.sessions| && s.sessions[k].client.Waiting? {
        ClosedStays(s, s.sessions[k].req.(partyUuid := s.sessions[k].client.partyUuid), timeout, draw, u);
      }
    case Stray(req, draw) =>
      if FreshUuids(s, draw) { ClosedStays(s, req, timeout, draw, u); }
    case _ =>
  }

  /** A returned session is told of everybody exactly when it heard its answer no later than the
      oldest frozen ping plus the timeout; sessions of one room that all did are told the same. */
  lemma {:induction false} TotalsAgree(events: seq<Event>, timeout: nat, a: nat)
    requires var s := Run(events, timeout); a < |s.sessions| && s.sessions[a].client.Done?
    ensures var s := Run(events, timeout);
      var c := s.sessions[a].client;
      && c.roomUuid in s.ledger.closed
      && var members := s.ledger.closed[c.roomUuid].members;
      && c.total <= |members|
      && (c.total == |members| <==> forall p :: p in members ==> c.at <= members[p].lastPing + timeout)
  {
    RunInv(events, timeout);
    var s := Run(events, timeout);
    var c := s.sessions[a].client;
    assert SessionOk(s, a, timeout);
    TotalJoined(s.ledger.closed[c.roomUuid], c.at, c.at, timeout);
    AllActiveCount(s.ledger.closed[c.roomUuid], c.at, timeout);
  }

  /** In every reachable state every stored room is sound, whatever key it is under. */
  lemma {:induction false} StoredRoomsOk(events: seq<Event>, timeout: nat, key: string)
    requires var s := Run(events, timeout); key in s.hm && s.hm[key].RoomRecord?
    ensures RoomOk(Run(events, timeout).hm[key].room)
  {
    RunInv(events, timeout);
    assert LiveOk(Run(events, timeout), key);
  }

  // ---- what ends, and what starts over ----

  lemma StepKeepsSettled(s: System, e: Event, timeout: nat, k: nat)
    requires k < |s.sessions| && !s.sessions[k].client.Waiting?
    ensures var t := Next(s, e, timeout); k < |t.sessions| && t.sessions[k] == s.sessions[k]
  {
  }

  /** A session that has returned or panicked stays as it is. */
  lemma {:induction false} SettledForever(events: seq<Event>, more: seq<Event>, timeout: nat, k: nat)
    requires k < |Run(events, timeout).sessions| && !Run(events, timeout).sessions[k].client.Waiting?
    ensures var s, t := Run(events, timeout), Run(events + more, timeout);
      k < |t.sessions| && t.sessions[k] == s.sessions[k]
    decreases |more|
  {
    if more == [] {
      assert events + more == events;
    } else {
      var n := |more| - 1;
      SettledForever(events, more[..n], timeout, k);
      assert (events + more)[..|events + more| - 1] == events + more[..n];
      StepKeepsSettled(Run(events + more[..n], timeout), more[n], timeout, k);
    }
  }

  /** So a client whose patience ended never returns. */
  lemma {:induction false} GivenUpNeverReturns(events: seq<Event>, more: seq<Event>, timeout: nat, k: nat)
    requires k < |Run(events, timeout).sessions| && Run(events, timeout).sessions[k].client.Waiting?
    ensures var t := Run(events + [GiveUp(k)] + more, timeout); k < |t.sessions| && t.sessions[k].client == Failed
  {
    assert (events + [GiveUp(k)])[..|events|] == events;
    SettledForever(events + [GiveUp(k)], more, timeout, k);
  }

  lemma {:induction false} RunOne(events: seq<Event>, e: Event, timeout: nat)
    ensures Run(events + [e], timeout) == Next(Run(events, timeout), e, timeout)
  {
    assert (events + [e])[..|events|] == events;
  }

  /** When a room's entry has expired the next signup starts a new room under number 1. */
  lemma {:induction false} ExpiryStartsOver(events: seq<Event>, timeout: nat, req: SignRequest, draw: Draw)
    requires FreshUuids(Run(events, timeout), draw) && WellFormed(SignSignup(req.curve, req.roomId)) && req.partyUuid == ""
    ensures StartsOver(Run(events, timeout), Run(events + [Expire(SignKey(req))] + [Join(req, draw)], timeout), req, draw)
  {
    RunOne(events, Expire(SignKey(req)), timeout);
    RunOne(events + [Expire(SignKey(req))], Join(req, draw), timeout);
    FirstSignup(Run(events + [Expire(SignKey(req))], timeout), timeout, req, draw);
  }

  /** One more session, waiting under number 1, and a room of its own. */
  ghost predicate StartsOver(s: System, t: System, req: SignRequest, draw: Draw) {
    && t.sessions == s.sessions + [Session(req, Waiting(draw.party, 1, 0))]
    && SignKey(req) in t.hm
    && t.hm[SignKey(req)] == RoomRecord(Room(req.roomId, draw.room, req.threshold + 1, map[req.partyNumber := Member(draw.party, 1, s.now)], "signup"))
  }

  lemma FirstSignup(s: System, timeout: nat, req: SignRequest, draw: Draw)
    requires FreshUuids(s, draw) && WellFormed(SignSignup(req.curve, req.roomId)) && req.partyUuid == "" && SignKey(req) !in s.hm
    ensures StartsOver(s, Next(s, Join(req, draw), timeout), req, draw)
  {
    ServesFirst(req, s.now, timeout, draw);
  }

  lemma ServesFirst(req: SignRequest, now: nat, timeout: nat, draw: Draw)
    requires req.partyUuid == ""
    ensures Serve(None, req, now, timeout, draw) == SignOutcome(
      Some(Room(req.roomId, draw.room, req.threshold + 1, map[req.partyNumber := Member(draw.party, 1, now)], "signup")),
      Ok(SignupInfo(1, draw.party, "", 0)))
  {
  }

  /** Whoever polls a room that does not have it, or no longer, gets an error and panics. */
  lemma OldMemberIsTurnedAway(s: System, timeout: nat, k: nat, draw: Draw)
    requires k < |s.sessions| && s.sessions[k].client.Waiting? && FreshUuids(s, draw) && s.sessions[k].client.partyUuid != ""
    requires SignKey(s.sessions[k].req) in s.hm ==>
      var entry := EntryOf(s.hm, SignKey(s.sessions[k].req));
      entry.Some? && entry.value.IsOpen() && !HasMember(entry.value, s.sessions[k].req.partyNumber, s.sessions[k].client.partyUuid)
    ensures Next(s, PollBy(k, draw), timeout).sessions[k].client == Failed
  {
  }

  /** What other handlers keep in the store no signup ever touches. */
  lemma SignupsLeaveOthers(s: System, e: Event, timeout: nat, key: string, value: Stored)
    requires !IsSignKey(key) && !value.RoomRecord? && (e.Join? || e.PollBy? || e.Stray? || e.GiveUp? || e.Tick?)
    requires forall k :: 0 <= k < |s.sessions| ==> WellFormed(SignSignup(s.sessions[k].req.curve, s.sessions[k].req.roomId))
    ensures var t := Next(Next(s, Write(key, value), timeout), e, timeout); key in t.hm && t.hm[key] == value
  {
    var t := Next(s, Write(key, value), timeout);
    if e.Join? || e.Stray? {
      RequestLeavesOthers(t, e.req, timeout, e.draw, key);
    } else if e.PollBy? && e.k < |s.sessions| && s.sessions[e.k].client.Waiting? {
      RequestLeavesOthers(t, s.sessions[e.k].req.(partyUuid := s.sessions[e.k].client.partyUuid), timeout, e.draw, key);
    }
  }

  lemma RequestLeavesOthers(s: System, req: SignRequest, timeout: nat, draw: Draw, key: string)
    requires key in s.hm && (WellFormed(SignSignup(req.curve, req.roomId)) ==> !IsSignKey(key))
    ensures WellFormed(SignSignup(req.curve, req.roomId)) ==>
      var t := Request(s, req, timeout, draw).0; key in t.hm && t.hm[key] == s.hm[key]
  {
    if WellFormed(SignSignup(req.curve, req.roomId)) {
      assert IsSignKey(SignKey(req));
    }
  }

  /** A signup whose answer reaches nobody takes a number all the same: the next party gets number 2. */
  lemma StrayTakesNumber(s: System, timeout: nat, lost: SignRequest, req: SignRequest, drawn: Draw, draw: Draw)
    requires FreshUuids(s, drawn) && FreshUuids(Next(s, Stray(lost, drawn), timeout), draw)
    requires WellFormed(SignSignup(req.curve, req.roomId)) && SignKey(req) !in s.hm && req.partyUuid == "" && req.threshold >= 1
    requires lost == req.(partyNumber := lost.partyNumber) && lost.partyNumber != req.partyNumber
    ensures Next(Next(s, Stray(lost, drawn), timeout), Join(req, draw), timeout).sessions
      == s.sessions + [Session(req, Waiting(draw.party, 2, 0))]
  {
    StrayStarts(s, timeout, lost, drawn);
    SecondSignup(Next(s, Stray(lost, drawn), timeout), timeout, req, draw, lost.partyNumber, drawn, s.now);
  }

  function RoomOfOne(req: SignRequest, draw: Draw, now: nat): Room {
    Room(req.roomId, draw.room, req.threshold + 1, map[req.partyNumber := Member(draw.party, 1, now)], "signup")
  }

  lemma StrayStarts(s: System, timeout: nat, lost: SignRequest, drawn: Draw)
    requires FreshUuids(s, drawn) && WellFormed(SignSignup(lost.curve, lost.roomId)) && SignKey(lost) !in s.hm && lost.partyUuid == ""
    ensures var t := Next(s, Stray(lost, drawn), timeout);
      && t.sessions == s.sessions && t.now == s.now
      && SignKey(lost) in t.hm && t.hm[SignKey(lost)] == RoomRecord(RoomOfOne(lost, drawn, s.now))
  {
    ServesFirst(lost, s.now, timeout, drawn);
  }

  lemma SecondSignup(s: System, timeout: nat, req: SignRequest, draw: Draw, other: nat, drawn: Draw, at: nat)
    requires FreshUuids(s, draw) && WellFormed(SignSignup(req.curve, req.roomId)) && req.partyUuid == "" && req.threshold >= 1
    requires other != req.partyNumber && SignKey(req) in s.hm
    requires s.hm[SignKey(req)] == RoomRecord(RoomOfOne(req.(partyNumber := other), drawn, at))
    ensures Next(s, Join(req, draw), timeout).sessions == s.sessions + [Session(req, Waiting(draw.party, 2, 0))]
  {
    var room := RoomOfOne(req.(partyNumber := other), drawn, at);
    assert |room.members| == 1;
    ServesSecond(room, req, s.now, timeout, draw);
  }

  lemma ServesSecond(r: Room, req: SignRequest, now: nat, timeout: nat, draw: Draw)
    requires r.IsOpen() && |r.members| == 1 < r.roomSize && req.partyUuid == "" && req.partyNumber !in r.members
    ensures Serve(Some(r), req, now, timeout, draw).reply == Ok(SignupInfo(2, draw.party, "", 0))
  {
  }
}
