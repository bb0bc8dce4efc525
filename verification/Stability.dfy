/** What clients know stays true while other clients act. */
module Stability {
  import opened Bytes
  import opened Board
  import opened BoardSpec
  import opened BoardInvariant
  import opened DynamoTable
  import opened DynamoStore
  import opened Refinement
  import opened NicknameRace
  import Base64Url
  import Authorizer
  import opened Interleaving

  // ---------------------------------------------------------------- Knowledge is stable

  lemma RoomKnownStable(
    board: BoardState, board': BoardState, revoked: multiset<(Str, Str)>, revoked': multiset<(Str, Str)>,
    note: Note, roomKey: Str, room: Room)
    requires Evolves(board, board', revoked, revoked') && RoomKnown(board, note, roomKey, room)
    ensures RoomKnown(board', note, roomKey, room)
  {
    assert RoomEvolves(roomKey, board.rooms[roomKey], board'.rooms[roomKey], revoked, revoked');
  }

  lemma MemberKnownStable(
    board: BoardState, board': BoardState, revoked: multiset<(Str, Str)>, revoked': multiset<(Str, Str)>,
    low: nat, roomKey: Str, agent: Str, member: Membership)
    requires Evolves(board, board', revoked, revoked') && roomKey in board.rooms
    requires MemberKnown(board, revoked, low, roomKey, agent, member)
    ensures MemberKnown(board', revoked', low, roomKey, agent, member)
  {
    assert RoomEvolves(roomKey, board.rooms[roomKey], board'.rooms[roomKey], revoked, revoked');
    assert MemberEvolves(
        roomKey, agent, board.rooms[roomKey].members, board'.rooms[roomKey].members, revoked, revoked');
  }

  lemma RecordStable(
    board: BoardState, board': BoardState, revoked: multiset<(Str, Str)>, revoked': multiset<(Str, Str)>,
    actor: Str, req: Request, record: Idempotency)
    requires Evolves(board, board', revoked, revoked') && RecordKnown(board, actor, req, record)
    ensures RecordKnown(board', actor, req, record)
  {
    var roomKey := RoomKeyOf(req);
    assert RoomEvolves(roomKey, board.rooms[roomKey], board'.rooms[roomKey], revoked, revoked');
  }

  lemma PostStable(
    board: BoardState, board': BoardState, revoked: multiset<(Str, Str)>, revoked': multiset<(Str, Str)>,
    actor: Str, req: Request, message: Message)
    requires Evolves(board, board', revoked, revoked') && PostKnown(board, actor, req, message)
    ensures PostKnown(board', actor, req, message)
  {
    var roomKey := RoomKeyOf(req);
    assert RoomEvolves(roomKey, board.rooms[roomKey], board'.rooms[roomKey], revoked, revoked');
  }

  lemma ClientStable(
    board: BoardState, board': BoardState, revoked: multiset<(Str, Str)>, revoked': multiset<(Str, Str)>,
    note: Note, c: Client)
    requires Evolves(board, board', revoked, revoked') && ClientOk(board, revoked, note, c)
    ensures ClientOk(board', revoked', note, c)
  {
    hide Base64Url.Encode, Validated, RoomKnown, SnapshotKnown, WritingKnown, RecordKnown, PostKnown, Evolves;
    match c
    case Ready(_, _) =>
    case GotRoom(_, req, room) => RoomKnownStable(board, board', revoked, revoked', note, RoomKeyOf(req), room);
    case Allowed(actor, req, snapshot) =>
      SnapshotStable(board, board', revoked, revoked', note, actor, req, snapshot);
    case Targeting(actor, req, snapshot) =>
      SnapshotStable(board, board', revoked, revoked', note, actor, req, snapshot);
    case Writing(actor, req, snapshot, found) =>
      SnapshotStable(board, board', revoked, revoked', note, actor, req, snapshot);
      WritingStable(board, board', revoked, revoked', note, actor, req, snapshot, found);
    case PostRefused(actor, req, snapshot) =>
      SnapshotStable(board, board', revoked, revoked', note, actor, req, snapshot);
    case Replaying(actor, req, snapshot, record) =>
      SnapshotStable(board, board', revoked, revoked', note, actor, req, snapshot);
      RecordStable(board, board', revoked, revoked', actor, req, record);
    case Fetching(actor, req, _, record) => RecordStable(board, board', revoked, revoked', actor, req, record);
    case ClassifyRoom(_, _, _) =>
    case ClassifyMember(_, _, _) =>
    case Finished(actor, req, outcome) =>
      if outcome.Ok? && outcome.value.PostReply? {
        PostStable(board, board', revoked, revoked', actor, req, outcome.value.message);
      }
  }

  lemma SnapshotStable(
    board: BoardState, board': BoardState, revoked: multiset<(Str, Str)>, revoked': multiset<(Str, Str)>,
    note: Note, actor: Str, req: Request, snapshot: AuthSnapshot)
    requires Evolves(board, board', revoked, revoked')
    requires SnapshotKnown(board, revoked, note, actor, req, snapshot)
    ensures SnapshotKnown(board', revoked', note, actor, req, snapshot)
  {
    hide MemberKnown, RolesOf, Base64Url.Encode;
    RoomKnownStable(board, board', revoked, revoked', note, RoomKeyOf(req), snapshot.room);
    MemberKnownStable(
      board, board', revoked, revoked', note.revocations, RoomKeyOf(req), actor, snapshot.membership.value);
  }

  lemma TargetStable(
    state: RoomState, state': RoomState, board: BoardState, board': BoardState,
    roomKey: Str, room: Room, target: Str, found: Option<Membership>)
    requires roomKey in board.rooms && board.rooms[roomKey] == state
    requires roomKey in board'.rooms && board'.rooms[roomKey] == state'
    requires AllowlistEvolves(state, state') && room.version <= state.room.version
    requires TargetKnown(board, roomKey, room, target, found)
    ensures TargetKnown(board', roomKey, room, target, found)
  {
    if state'.room.version == room.version {
      assert target in RolesOf(state.members) <==> target in RolesOf(state'.members);
      if target in state.members {
        assert MemberOnlyRenames(state.members, state'.members, target);
        assert RolesOf(state.members)[target] == RolesOf(state'.members)[target];
      }
    }
  }

  lemma WritingStable(
    board: BoardState, board': BoardState, revoked: multiset<(Str, Str)>, revoked': multiset<(Str, Str)>,
    note: Note, actor: Str, req: Request, snapshot: AuthSnapshot, found: Option<Membership>)
    requires Evolves(board, board', revoked, revoked')
    requires SnapshotKnown(board, revoked, note, actor, req, snapshot)
    requires WritingKnown(board, revoked, note, actor, req, snapshot, found)
    ensures WritingKnown(board', revoked', note, actor, req, snapshot, found)
  {
    hide RolesOf, Base64Url.Encode, TargetKnown, AllowlistEvolves, MessagesEvolve, RecordsEvolve;
    var roomKey := RoomKeyOf(req);
    assert RoomEvolves(roomKey, board.rooms[roomKey], board'.rooms[roomKey], revoked, revoked');
    if req.GrantRequest? {
      TargetStable(
        board.rooms[roomKey], board'.rooms[roomKey], board, board', roomKey, snapshot.room, req.target, found);
    }
    if req.NicknameRequest? {
      MemberKnownStable(board, board', revoked, revoked', note.revocations, roomKey, actor, found.value);
      assert MemberEvolves(
          roomKey, actor, board.rooms[roomKey].members, board'.rooms[roomKey].members, revoked, revoked');
    }
  }

  // ---------------------------------------------------------------- Every operation is an evolution

  lemma GrantedEvolves(
    roomKey: Str, state: RoomState, agent: Str, input: GrantInput, now: Time, revoked: multiset<(Str, Str)>)
    ensures RoomEvolves(roomKey, state, Granted(state, agent, input, now), revoked, revoked)
  {
  }

  lemma RevokedEvolves(
    roomKey: Str, state: RoomState, agent: Str, input: RevokeInput, now: Time, revoked: multiset<(Str, Str)>)
    requires input.targetAgent in state.members
    ensures RoomEvolves(
              roomKey, state, Revoked(state, agent, input, now), revoked,
              revoked + multiset{(roomKey, input.targetAgent)})
  {
  }

  // Also a disturbed nickname change evolves its room: only its index may suffer.
  lemma RenamedEvolves(
    roomKey: Str, state: RoomState, agent: Str, input: SetNicknameInput, previous: Str, now: Time,
    revoked: multiset<(Str, Str)>)
    requires agent in state.members
    ensures RoomEvolves(roomKey, state, RoomRenamed(state, agent, input, previous, now), revoked, revoked)
  {
    hide IndexAfter;
    RolesUnchangedBy(state.members, agent, RenamedMember(state.members[agent], agent, input, now));
  }

  lemma PostedEvolves(
    roomKey: Str, state: RoomState, agent: Str, input: PostInput, now: Time, messageID: Str,
    revoked: multiset<(Str, Str)>)
    requires IdempotencyKeyOf(agent, input.idempotencyKey) !in state.idempotency
    requires FindMessage(state.messages, messageID) == None
    ensures RoomEvolves(roomKey, state, Posted(state, agent, input, now, messageID), revoked, revoked)
  {
    var message := NewMessage(state, agent, input, now, messageID);
    forall id | FindMessage(state.messages, id).Some?
      ensures FindMessage(InsertByID(state.messages, message), id) == FindMessage(state.messages, id)
    {
      FindAfterInsert(state.messages, message, id);
    }
  }

  lemma BoardEvolves(
    board: BoardState, roomKey: Str, state': RoomState, revoked: multiset<(Str, Str)>, revoked': multiset<(Str, Str)>)
    requires revoked <= revoked' && roomKey in board.rooms
    requires RoomEvolves(roomKey, board.rooms[roomKey], state', revoked, revoked')
    ensures Evolves(board, board.(rooms := board.rooms[roomKey := state']), revoked, revoked')
  {
    hide RoomEvolves;
    var board' := board.(rooms := board.rooms[roomKey := state']);
    forall other | other in board.rooms
      ensures RoomEvolves(other, board.rooms[other], board'.rooms[other], revoked, revoked')
    {
      if other != roomKey { RoomUnchangedEvolves(other, board.rooms[other], revoked, revoked'); }
    }
  }
}
