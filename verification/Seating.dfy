/** Which client of a signup run sits where in the signing rounds that follow. */
module Seating {
  import opened SigningRooms
  import opened RoomRuns
  import SignupSystem

  /** The party number at an order. */
  ghost function NumberAt(r: Room, order: nat): (p: nat)
    requires RoomOk(r) && 1 <= order <= |r.members|
    ensures p in r.members && r.members[p].partyOrder == order
  {
    assert HasOrder(r, order);
    var p :| p in r.members && r.members[p].partyOrder == order;
    p
  }

  /** The party numbers of a room, by order: the signers of the rounds that follow. */
  ghost function Seats(r: Room): (ids: seq<nat>)
    requires RoomOk(r)
    ensures |ids| == |r.members|
  {
    seq(|r.members|, i requires 0 <= i < |r.members| => NumberAt(r, i + 1))
  }

  lemma SeatsDistinct(r: Room)
    requires RoomOk(r)
    ensures forall i, j :: 0 <= i < j < |Seats(r)| ==> Seats(r)[i] != Seats(r)[j]
    ensures forall p :: p in r.members ==> Seats(r)[r.members[p].partyOrder - 1] == p
  {
  }

  /** A room that has closed in a run of signups, as it closed. */
  ghost function ClosedRoom(events: seq<SignupSystem.Event>, timeout: nat, u: string): (r: Room)
    requires u in SignupSystem.Run(events, timeout).ledger.closed
    ensures RoomOk(r) && r.roomUuid == u && !r.IsOpen()
  {
    ClosedRoomOk(events, timeout, u);
    SignupSystem.Run(events, timeout).ledger.closed[u]
  }

  lemma {:induction false} ClosedRoomOk(events: seq<SignupSystem.Event>, timeout: nat, u: string)
    requires u in SignupSystem.Run(events, timeout).ledger.closed
    ensures var r := SignupSystem.Run(events, timeout).ledger.closed[u]; RoomOk(r) && r.roomUuid == u && !r.IsOpen()
  {
    SignupSystem.RunInv(events, timeout);
    assert SignupSystem.ClosedOk(SignupSystem.Run(events, timeout), u);
  }

  /** The party number at a seat number, which counts from 1. */
  ghost predicate Sits(r: Room, number: nat, partyNumber: nat)
    requires RoomOk(r)
  {
    1 <= number <= |Seats(r)| && Seats(r)[number - 1] == partyNumber
  }

  lemma MemberSits(r: Room, p: nat)
    requires RoomOk(r) && p in r.members
    ensures Sits(r, r.members[p].partyOrder, p)
  {
    SeatsDistinct(r);
  }

  /** A client that returns from signup sits at the seat of its own party number. */
  lemma {:induction false} ReturnedClientHasSeat(events: seq<SignupSystem.Event>, timeout: nat, a: nat)
    requires var s := SignupSystem.Run(events, timeout); a < |s.sessions| && s.sessions[a].client.Done?
    ensures var ses := SignupSystem.Run(events, timeout).sessions[a];
      && ses.client.roomUuid in SignupSystem.Run(events, timeout).ledger.closed
      && Sits(ClosedRoom(events, timeout, ses.client.roomUuid), ses.client.number, ses.req.partyNumber)
  {
    SignupSystem.ReturnedIsMember(events, timeout, a);
    var ses := SignupSystem.Run(events, timeout).sessions[a];
    MemberSits(ClosedRoom(events, timeout, ses.client.roomUuid), ses.req.partyNumber);
  }

  /** The number of signers it is told, which its rounds will run over, is the number of seats
      exactly when it heard its answer before the oldest frozen ping aged. */
  lemma {:induction false} ReturnedClientCountsSeats(events: seq<SignupSystem.Event>, timeout: nat, a: nat)
    requires var s := SignupSystem.Run(events, timeout); a < |s.sessions| && s.sessions[a].client.Done?
    ensures var client := SignupSystem.Run(events, timeout).sessions[a].client;
      && client.roomUuid in SignupSystem.Run(events, timeout).ledger.closed
      && var room := ClosedRoom(events, timeout, client.roomUuid);
         && client.total <= |Seats(room)|
         && (client.total == |Seats(room)| <==> forall p :: p in room.members ==> client.at <= room.members[p].lastPing + timeout)
  {
    SignupSystem.TotalsAgree(events, timeout, a);
  }

  // ---- the clients of one signing session ----

  predicate ReturnedAs(c: SignupSystem.Client, roomUuid: string, number: nat, total: nat) {
    c.Done? && c.roomUuid == roomUuid && c.number == number && c.total == total
  }

  /** These sessions returned from one room under the numbers 1, 2, .., each told that there are as
      many as there are here: the parties over which the rounds run. */
  ghost predicate Joined(signups: seq<SignupSystem.Event>, timeout: nat, clients: seq<nat>, roomUuid: string) {
    var s := SignupSystem.Run(signups, timeout);
    forall i :: 0 <= i < |clients| ==>
      clients[i] < |s.sessions| && ReturnedAs(s.sessions[clients[i]].client, roomUuid, i + 1, |clients|)
  }

  /** Their party numbers. */
  ghost function Parties(signups: seq<SignupSystem.Event>, timeout: nat, clients: seq<nat>, roomUuid: string): (ids: seq<nat>)
    requires Joined(signups, timeout, clients, roomUuid)
    ensures |ids| == |clients|
  {
    seq(|clients|, i requires 0 <= i < |clients| => SignupSystem.Run(signups, timeout).sessions[clients[i]].req.partyNumber)
  }

  lemma PartiesDistinct(signups: seq<SignupSystem.Event>, timeout: nat, clients: seq<nat>, roomUuid: string)
    requires Joined(signups, timeout, clients, roomUuid)
    ensures var ids := Parties(signups, timeout, clients, roomUuid);
      forall i, j :: 0 <= i < j < |ids| ==> ids[i] != ids[j]
  {
    var s := SignupSystem.Run(signups, timeout);
    forall i, j | 0 <= i < j < |clients|
      ensures s.sessions[clients[i]].req.partyNumber != s.sessions[clients[j]].req.partyNumber
    {
      assert ReturnedAs(s.sessions[clients[i]].client, roomUuid, i + 1, |clients|);
      assert ReturnedAs(s.sessions[clients[j]].client, roomUuid, j + 1, |clients|);
      SignupSystem.SignupAgreement(signups, timeout, clients[i], clients[j]);
    }
  }

  /** Session a returned from the room under this number, and heard so before the oldest frozen ping
      aged. */
  ghost predicate ReturnedInTime(signups: seq<SignupSystem.Event>, timeout: nat, a: nat, roomUuid: string, number: nat) {
    var s := SignupSystem.Run(signups, timeout);
    && a < |s.sessions| && roomUuid in s.ledger.closed
    && var c := s.sessions[a].client;
       && c.Done? && c.roomUuid == roomUuid && c.number == number
       && forall p :: p in s.ledger.closed[roomUuid].members ==> c.at <= s.ledger.closed[roomUuid].members[p].lastPing + timeout
  }

  /** Whoever heard its answer in time is told the whole membership, and its number is one of it. */
  lemma {:induction false} InTimeIsSeated(signups: seq<SignupSystem.Event>, timeout: nat, a: nat, roomUuid: string, number: nat)
    requires ReturnedInTime(signups, timeout, a, roomUuid, number)
    ensures var s, room := SignupSystem.Run(signups, timeout), ClosedRoom(signups, timeout, roomUuid);
      && ReturnedAs(s.sessions[a].client, roomUuid, number, |room.members|)
      && Sits(room, number, s.sessions[a].req.partyNumber)
      && 1 <= number <= s.sessions[a].client.total
  {
    SignupSystem.TotalsAgree(signups, timeout, a);
    ReturnedClientHasSeat(signups, timeout, a);
  }

  /** The members whose ping was too old when the answer came. */
  ghost function Aged(r: Room, at: nat, timeout: nat): (aged: set<nat>) {
    set p | p in r.members && r.members[p].lastPing + timeout < at
  }

  lemma ActivePlusAged(r: Room, at: nat, timeout: nat)
    ensures |Active(r, at, timeout)| + |Aged(r, at, timeout)| == |r.members|
  {
    var active, aged := Active(r, at, timeout).Keys, Aged(r, at, timeout);
    assert active !! aged && r.members.Keys == active + aged;
    assert |Active(r, at, timeout)| == |active| && |r.members| == |r.members.Keys|;
  }

  /** A client's number is within the total it is told exactly when the pings that had aged leave room
      for it: no more of them than there are members after it. */
  lemma NumberWithinTotalIff(signups: seq<SignupSystem.Event>, timeout: nat, a: nat)
    requires var s := SignupSystem.Run(signups, timeout); a < |s.sessions| && s.sessions[a].client.Done?
    ensures var c := SignupSystem.Run(signups, timeout).sessions[a].client;
      && c.roomUuid in SignupSystem.Run(signups, timeout).ledger.closed
      && var room := ClosedRoom(signups, timeout, c.roomUuid);
         && 1 <= c.number <= |room.members|
         && (c.number <= c.total <==> |Aged(room, c.at, timeout)| <= |room.members| - c.number)
  {
    SignupSystem.RunInv(signups, timeout);
    var s := SignupSystem.Run(signups, timeout);
    assert SignupSystem.SessionOk(s, a, timeout);
    var c := s.sessions[a].client;
    ActivePlusAged(ClosedRoom(signups, timeout, c.roomUuid), c.at, timeout);
  }

  /** When as many sessions returned as the room has members, and each heard its answer before the
      oldest frozen ping aged, they make up a signing session, and its parties are the members. */
  lemma {:induction false} WholeRoomJoins(signups: seq<SignupSystem.Event>, timeout: nat, clients: seq<nat>, roomUuid: string)
    requires roomUuid in SignupSystem.Run(signups, timeout).ledger.closed
    requires |clients| == |SignupSystem.Run(signups, timeout).ledger.closed[roomUuid].members|
    requires forall i :: 0 <= i < |clients| ==> ReturnedInTime(signups, timeout, clients[i], roomUuid, i + 1)
    ensures Joined(signups, timeout, clients, roomUuid)
    ensures Parties(signups, timeout, clients, roomUuid) == Seats(ClosedRoom(signups, timeout, roomUuid))
  {
    var s := SignupSystem.Run(signups, timeout);
    forall i | 0 <= i < |clients|
      ensures clients[i] < |s.sessions| && ReturnedAs(s.sessions[clients[i]].client, roomUuid, i + 1, |clients|)
      ensures Sits(ClosedRoom(signups, timeout, roomUuid), i + 1, s.sessions[clients[i]].req.partyNumber)
    {
      assert ReturnedInTime(signups, timeout, clients[i], roomUuid, i + 1);
      InTimeIsSeated(signups, timeout, clients[i], roomUuid, i + 1);
    }
    assert Joined(signups, timeout, clients, roomUuid);
    SeatsInOrder(signups, timeout, clients, roomUuid);
  }

  lemma {:induction false} SeatsInOrder(signups: seq<SignupSystem.Event>, timeout: nat, clients: seq<nat>, roomUuid: string)
    requires roomUuid in SignupSystem.Run(signups, timeout).ledger.closed && Joined(signups, timeout, clients, roomUuid)
    requires var s, room := SignupSystem.Run(signups, timeout), ClosedRoom(signups, timeout, roomUuid);
      |clients| == |room.members| && forall i :: 0 <= i < |clients| ==>
        Sits(room, i + 1, s.sessions[clients[i]].req.partyNumber)
    ensures Parties(signups, timeout, clients, roomUuid) == Seats(ClosedRoom(signups, timeout, roomUuid))
  {
    var s, room := SignupSystem.Run(signups, timeout), ClosedRoom(signups, timeout, roomUuid);
    forall i | 0 <= i < |clients| ensures Seats(room)[i] == s.sessions[clients[i]].req.partyNumber {
      assert Sits(room, i + 1, s.sessions[clients[i]].req.partyNumber);
    }
  }
}
