/**
 * The room record (types/room.ts) and `isParticipant` (lib/is-participant.ts).
 * Timestamps are opaque: only whether `approvedAt` is set is kept.
 */
module Rooms {
  import opened Wrappers
  import opened Games

  /** `UserInfo`: the public part of a user record, as a room lists it. */
  datatype UserInfo = UserInfo(
    id: Id,
    name: string,
    displayName: string,
    email: string,
    profileUrl: Option<string>)

  datatype RoomState = InProgress | Ended

  /** A room; `approved` says whether `approvedAt` is set. */
  datatype Room = Room(
    id: Id,
    state: RoomState,
    title: string,
    dealer: UserInfo,
    participants: seq<UserInfo>,
    approved: bool)

  /** `participants.map(({ _id }) => String(_id))`. */
  function ParticipantIds(ps: seq<UserInfo>): (ids: seq<Id>)
    ensures |ids| == |ps|
    ensures forall i :: 0 <= i < |ps| ==> ids[i] == ps[i].id
  {
    seq(|ps|, i requires 0 <= i < |ps| => ps[i].id)
  }

  /** `isParticipant(id, room)`: the id's text is among the participants' id texts. */
  predicate IsParticipant(id: Id, room: Room)
    ensures IsParticipant(id, room) <==>
      exists i :: 0 <= i < |room.participants| && room.participants[i].id == id
  {
    id in ParticipantIds(room.participants)
  }

  /** A room without participants has no participant. */
  lemma EmptyRoomHasNone(id: Id, room: Room)
    requires room.participants == []
    ensures !IsParticipant(id, room)
  {
  }

  /**
   * Listing the same users in another order, or some of them more than
   * once, does not change the answer.
   */
  lemma {:induction false} SameUsersSameAnswer(id: Id, r1: Room, r2: Room)
    requires forall u :: u in r1.participants <==> u in r2.participants
    ensures IsParticipant(id, r1) <==> IsParticipant(id, r2)
  {
    if IsParticipant(id, r1) {
      var i :| 0 <= i < |r1.participants| && r1.participants[i].id == id;
      assert r1.participants[i] in r2.participants;
      var j :| 0 <= j < |r2.participants| && r2.participants[j] == r1.participants[i];
    }
    if IsParticipant(id, r2) {
      var j :| 0 <= j < |r2.participants| && r2.participants[j].id == id;
      assert r2.participants[j] in r1.participants;
      var i :| 0 <= i < |r1.participants| && r1.participants[i] == r2.participants[j];
    }
  }

  /**
   * Only the participants' ids matter: the room's own id, state, title,
   * dealer, approval and the participants' other fields do not.
   */
  lemma OnlyIdsMatter(id: Id, r1: Room, r2: Room)
    requires ParticipantIds(r1.participants) == ParticipantIds(r2.participants)
    ensures IsParticipant(id, r1) <==> IsParticipant(id, r2)
  {
  }
}
