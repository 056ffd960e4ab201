/** The manager: its request handlers over the shared store. */
module Managers {
  import opened Wrappers
  import opened SigningRooms
  import opened StoreKeys

  datatype PartySignup = PartySignup(number: nat, uuid: string)

  /** What a store entry deserialises to. */
  datatype Stored = Text(text: string) | GroupCounter(signup: PartySignup) | RoomRecord(room: Room)

  type Store = map<string, Stored>

  datatype SignRequest = SignRequest(threshold: nat, roomId: string, partyNumber: nat, partyUuid: string, curve: string)

  datatype SignError =
    | SignupTerminated
    | RoomFull
    | NoPartyFound
    | PartyStillActive
    | Unreadable   // the entry does not deserialise: the handler panics

  type SignReply = Result<SignupInfo, SignError>

  /** The effect of a signup request on the room's entry (None: the entry is left alone). */
  datatype SignOutcome = SignOutcome(written: Option<Room>, reply: SignReply)

  /** The uuids a request draws if it needs them. */
  datatype Draw = Draw(room: string, party: string)

  /** The second half of the handler, from an open room on. */
  function ServeOpen(r: Room, req: SignRequest, now: nat, timeout: nat, draw: Draw): SignOutcome {
    var newSignup := req.partyUuid == "";
    if IsFull(r) && AllActive(r, now, timeout) && newSignup then
      SignOutcome(None, Err(RoomFull))
    else if !newSignup then
      if !HasMember(r, req.partyNumber, req.partyUuid) then SignOutcome(None, Err(NoPartyFound))
      else
        var r' := Pinged(r, req.partyNumber, now, timeout);
        SignOutcome(Some(r'), Ok(Info(r', req.partyNumber, now, timeout)))
    else if req.partyNumber in r.members then
      if !IsTimeout(r.members[req.partyNumber], now, timeout) then SignOutcome(None, Err(PartyStillActive))
      else
        var r' := Replaced(r, req.partyNumber, draw.party, now);
        SignOutcome(Some(r'), Ok(SignupInfo(r.members[req.partyNumber].partyOrder, draw.party, "", 0)))
    else
      var r' := Added(r, req.partyNumber, draw.party, now);
      SignOutcome(Some(r'), Ok(SignupInfo(|r.members| + 1, draw.party, "", 0)))
  }

  function Serve(entry: Option<Room>, req: SignRequest, now: nat, timeout: nat, draw: Draw): SignOutcome {
    var empty := NewRoom(req.roomId, req.threshold + 1, draw.room);
    var r := if entry.Some? then entry.value else empty;
    if r.IsOpen() then ServeOpen(r, req, now, timeout, draw)
    else if HasMember(r, req.partyNumber, req.partyUuid) then
      SignOutcome(None, Ok(Info(r, req.partyNumber, now, timeout)))
    else if AllInactive(r, now, timeout) then ServeOpen(empty, req, now, timeout, draw)
    else SignOutcome(None, Err(SignupTerminated))
  }

  function SignKey(req: SignRequest): string {
    KeyOf(SignSignup(req.curve, req.roomId))
  }

  /** The handler on the whole store. */
  function SignupSignEffect(hm: Store, req: SignRequest, now: nat, timeout: nat, draw: Draw): (Store, SignReply) {
    var key := SignKey(req);
    if key in hm && !hm[key].RoomRecord? then (hm, Err(Unreadable))
    else
      var entry := if key in hm then Some(hm[key].room) else None;
      var o := Serve(entry, req, now, timeout, draw);
      (if o.written.Some? then hm[key := RoomRecord(o.written.value)] else hm, o.reply)
  }

  /** The group counter: the next number of the current group, or the first of a new one. */
  function NextNumber(entry: Option<PartySignup>, parties: nat, first: string, renewed: string): PartySignup {
    var current := if entry.Some? then entry.value else PartySignup(0, first);
    if current.number < parties then PartySignup(current.number + 1, current.uuid) else PartySignup(1, renewed)
  }

  class Manager {
    var hm: Store

    constructor ()
      ensures hm == map[]
    {
      hm := map[];
    }

    method Get(key: string) returns (r: Option<Stored>)
      ensures r == if key in hm then Some(hm[key]) else None
    {
      r := if key in hm then Some(hm[key]) else None;
    }

    method Set(key: string, value: string)
      modifies this
      ensures hm == old(hm)[key := Text(value)]
    {
      hm := hm[key := Text(value)];
    }

    /** None stands for the panic on an entry that does not deserialise. */
    method SignupKeygen(parties: nat, curve: string, first: string, renewed: string) returns (r: Option<PartySignup>)
      modifies this
      ensures var key := KeyOf(KeygenSignup(curve));
        if key in old(hm) && !old(hm)[key].GroupCounter? then r == None && hm == old(hm)
        else
          var c := if key in old(hm) then old(hm)[key].signup else PartySignup(0, first);
          && r == Some(if c.number < parties then PartySignup(c.number + 1, c.uuid) else PartySignup(1, renewed))
          && r == Some(NextNumber(if key in old(hm) then Some(old(hm)[key].signup) else None, parties, first, renewed))
          && hm == old(hm)[key := GroupCounter(r.value)]
    {
      var key := "signup-keygen-" + curve;
      var clientSignup := PartySignup(0, first);
      if key in hm {
        if !hm[key].GroupCounter? {
          return None;
        }
        clientSignup := hm[key].signup;
      }
      var partySignup;
      if clientSignup.number < parties {
        partySignup := PartySignup(clientSignup.number + 1, clientSignup.uuid);
      } else {
        partySignup := PartySignup(1, renewed);
      }
      hm := hm[key := GroupCounter(partySignup)];
      return Some(partySignup);
    }

    method SignupSign(req: SignRequest, now: nat, timeout: nat, draw: Draw) returns (reply: SignReply)
      modifies this
      ensures (hm, reply) == SignupSignEffect(old(hm), req, now, timeout, draw)
    {
      var newSignup := req.partyUuid == "";
      var key := "signup-sign-" + req.curve;
      key := key + req.roomId;
      var room: SigningRoom;
      if key in hm {
        if !hm[key].RoomRecord? {
          return Err(Unreadable);
        }
        room := new SigningRoom.FromStore(hm[key].room);
      } else {
        room := new SigningRoom(req.roomId, req.threshold + 1, draw.room);
      }

      if room.lastStage != "signup" {
        if HasMember(room.Snapshot(), req.partyNumber, req.partyUuid) {
          return Ok(Info(room.Snapshot(), req.partyNumber, now, timeout));
        }
        if AllInactive(room.Snapshot(), now, timeout) {
          room := new SigningRoom(req.roomId, req.threshold + 1, draw.room);
        } else {
          return Err(SignupTerminated);
        }
      }

      if IsFull(room.Snapshot()) && AllActive(room.Snapshot(), now, timeout) && newSignup {
        return Err(RoomFull);
      }

      var info;
      if !newSignup {
        if !HasMember(room.Snapshot(), req.partyNumber, req.partyUuid) {
          return Err(NoPartyFound);
        }
        info := room.UpdatePing(req.partyNumber, now, timeout);
      } else if req.partyNumber in room.memberInfo {
        if !IsTimeout(room.memberInfo[req.partyNumber], now, timeout) {
          return Err(PartyStillActive);
        }
        info := room.ReplaceParty(req.partyNumber, draw.party, now);
      } else {
        info := room.AddParty(req.partyNumber, draw.party, now);
      }
      hm := hm[key := RoomRecord(room.Snapshot())];
      return Ok(info);
    }
  }

  /** What one mailbox holds after a `set` on another: `get` finds the value just set under a cell's
      own key, and under every other cell's what was there before. */
  lemma MailboxesApart(hm: Store, c: Cell, d: Cell, value: string)
    requires WellFormed(c) && WellFormed(d)
    ensures var t := hm[KeyOf(c) := Text(value)];
      && (KeyOf(d) in t <==> d == c || KeyOf(d) in hm)
      && (d == c ==> t[KeyOf(d)] == Text(value))
      && (d != c && KeyOf(d) in hm ==> t[KeyOf(d)] == hm[KeyOf(d)])
  {
    if KeyOf(c) == KeyOf(d) {
      KeysInjective(c, d);
    }
  }
}
