/** The timed room in which the parties of one signature gather. */
module SigningRooms {

  datatype Member = Member(partyId: string, partyOrder: nat, lastPing: nat)

  /** A room as the store keeps it. */
  datatype Room = Room(
    roomId: string,            // chosen by the clients, used while signing up
    roomUuid: string,          // chosen by the manager, used during the rounds
    roomSize: nat,
    members: map<nat, Member>,
    lastStage: string)
  {
    predicate IsOpen() { lastStage == "signup" }
  }

  /** The answer to a signup request. */
  datatype SignupInfo = SignupInfo(partyOrder: nat, partyUuid: string, roomUuid: string, totalJoined: nat)

  // ---- what the room's methods compute, on values ----

  function NewRoom(roomId: string, size: nat, uuid: string): Room {
    Room(roomId, uuid, size, map[], "signup")
  }

  predicate IsTimeout(m: Member, now: nat, timeout: nat) {
    m.lastPing < now - timeout
  }

  predicate IsFull(r: Room) {
    |r.members| >= r.roomSize
  }

  predicate HasMember(r: Room, number: nat, partyId: string) {
    number in r.members && r.members[number].partyId == partyId
  }

  predicate AllActive(r: Room, now: nat, timeout: nat) {
    forall p :: p in r.members ==> !IsTimeout(r.members[p], now, timeout)
  }

  predicate AllInactive(r: Room, now: nat, timeout: nat) {
    IsFull(r) && forall p :: p in r.members ==> IsTimeout(r.members[p], now, timeout)
  }

  function Active(r: Room, now: nat, timeout: nat): (a: map<nat, Member>)
    ensures a.Keys <= r.members.Keys
  {
    map p | p in r.members && !IsTimeout(r.members[p], now, timeout) :: r.members[p]
  }

  function Info(r: Room, number: nat, now: nat, timeout: nat): SignupInfo
    requires number in r.members
  {
    SignupInfo(r.members[number].partyOrder, r.members[number].partyId,
      if r.IsOpen() then "" else r.roomUuid, |Active(r, now, timeout)|)
  }

  function Added(r: Room, number: nat, partyId: string, now: nat): Room {
    r.(members := r.members[number := Member(partyId, |r.members| + 1, now)])
  }

  function Replaced(r: Room, number: nat, partyId: string, now: nat): Room
    requires number in r.members
  {
    r.(members := r.members[number := Member(partyId, r.members[number].partyOrder, now)])
  }

  function Closed(r: Room, now: nat, timeout: nat): Room {
    if IsFull(r) && |Active(r, now, timeout)| >= r.roomSize then r.(lastStage := "terminated") else r
  }

  function Pinged(r: Room, number: nat, now: nat, timeout: nat): Room
    requires number in r.members
  {
    Closed(r.(members := r.members[number := r.members[number].(lastPing := now)]), now, timeout)
  }

  // ---- the object the manager works on while it serves a request ----

  class SigningRoom {
    var roomId: string
    var roomUuid: string
    var roomSize: nat
    var memberInfo: map<nat, Member>
    var lastStage: string

    /** What is serialised into the store. */
    function Snapshot(): Room
      reads this
    {
      Room(roomId, roomUuid, roomSize, memberInfo, lastStage)
    }

    constructor (roomId: string, size: nat, uuid: string)
      ensures Snapshot() == NewRoom(roomId, size, uuid)
    {
      this.roomId, roomUuid, roomSize, memberInfo, lastStage := roomId, uuid, size, map[], "signup";
    }

    constructor FromStore(r: Room)
      ensures Snapshot() == r
    {
      roomId, roomUuid, roomSize, memberInfo, lastStage := r.roomId, r.roomUuid, r.roomSize, r.members, r.lastStage;
    }

    method AddParty(number: nat, partyId: string, now: nat) returns (info: SignupInfo)
      modifies this
      ensures Snapshot() == Added(old(Snapshot()), number, partyId, now)
      ensures info == SignupInfo(old(|memberInfo|) + 1, partyId, "", 0)
    {
      info := SignupInfo(|memberInfo| + 1, partyId, "", 0);
      memberInfo := memberInfo[number := Member(partyId, info.partyOrder, now)];
    }

    method ReplaceParty(number: nat, partyId: string, now: nat) returns (info: SignupInfo)
      requires number in memberInfo
      modifies this
      ensures Snapshot() == Replaced(old(Snapshot()), number, partyId, now)
      ensures info == SignupInfo(old(memberInfo)[number].partyOrder, partyId, "", 0)
    {
      info := SignupInfo(memberInfo[number].partyOrder, partyId, "", 0);
      memberInfo := memberInfo[number := Member(partyId, info.partyOrder, now)];
    }

    method CloseSignupWindow(now: nat, timeout: nat)
      modifies this
      ensures Snapshot() == Closed(old(Snapshot()), now, timeout)
    {
      if IsFull(Snapshot()) && |Active(Snapshot(), now, timeout)| >= roomSize {
        lastStage := "terminated";
      }
    }

    method UpdatePing(number: nat, now: nat, timeout: nat) returns (info: SignupInfo)
      requires number in memberInfo
      modifies this
      ensures Snapshot() == Pinged(old(Snapshot()), number, now, timeout)
      ensures info == Info(Snapshot(), number, now, timeout)
    {
      memberInfo := memberInfo[number := memberInfo[number].(lastPing := now)];
      if IsFull(Snapshot()) && |Active(Snapshot(), now, timeout)| >= roomSize {
        CloseSignupWindow(now, timeout);
      }
      info := Info(Snapshot(), number, now, timeout);
    }
  }
}
