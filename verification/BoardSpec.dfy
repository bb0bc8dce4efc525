/**
 The one specification both stores implement: each store operation as a function from the old board to
 the new board and the outcome, after its inputs have been validated.
 */
module BoardSpec {
  import opened Bytes
  import opened Board
  import Base64Url

  datatype Limits = Limits(maxRooms: int, maxMembers: int)

  datatype RoomState = RoomState(
    room: Room,
    members: map<Str, Membership>,
    nicknames: map<Str, Str>,
    messages: seq<Message>,
    idempotency: map<Str, Idempotency>,
    audits: seq<Audit>)

  datatype BoardState = BoardState(
    rooms: map<Str, RoomState>,
    roomKeys: map<Str, Str>,
    quotas: map<Str, int>)

  const EMPTY_BOARD := BoardState(map[], map[], map[])

  // A validated request, as the store methods receive it.
  datatype Operation =
    | OpCreate(create: CreateRoomInput)
    | OpGrant(grant: GrantInput)
    | OpRevoke(revoke: RevokeInput)
    | OpNickname(profile: SetNicknameInput)
    | OpPost(post: PostInput)

  function QuotaOf(board: BoardState, agent: Str): int {
    if agent in board.quotas then board.quotas[agent] else 0
  }

  function RecordByRoomID(board: BoardState, roomID: Str): Outcome<Str> {
    if roomID !in board.roomKeys then Err(NotFound)
    else if board.roomKeys[roomID] !in board.rooms then Err(NotFound)
    else Ok(board.roomKeys[roomID])
  }

  function CheckActor(state: RoomState, agent: Str, expectedVersion: int, action: Action): Option<Error> {
    if agent !in state.members then Some(Denied)
    else if expectedVersion != 0 && state.members[agent].version != expectedVersion then Some(Conflict)
    else if !RoleCan(state.members[agent].role, action) then Some(Denied)
    else None
  }

  // ---------------------------------------------------------------- CreateRoom

  function NewRoom(agent: Str, input: CreateRoomInput, now: Time): RoomState {
    var roomKey := Base64Url.Encode(input.roomID);
    var name := if input.name == [] then input.roomID else input.name;
    var room := Room(input.roomID, roomKey, name, input.description, agent, now, now, 1, false, 1);
    var owner := Membership(
                   input.roomID, roomKey, agent, [], [], Owner, Capabilities(Owner), agent, agent, now, now, 1);
    RoomState(
      room, map[agent := owner], map[], [], map[],
      [Audit(RoomCreated, agent, agent, Owner, input.tokenJTIHash, now)])
  }

  // The board with one more room, and its owner's quota counted up.
  function Created(board: BoardState, agent: Str, input: CreateRoomInput, now: Time): BoardState {
    var state := NewRoom(agent, input, now);
    var roomKey := state.room.roomKey;
    BoardState(
      board.rooms[roomKey := state],
      board.roomKeys[input.roomID := roomKey],
      board.quotas[agent := QuotaOf(board, agent) + 1])
  }

  function CreateRoomOp(limits: Limits, board: BoardState, agent: Str, input: CreateRoomInput, now: Time)
    : (BoardState, Outcome<Reply>)
  {
    if input.roomID in board.roomKeys then (board, Err(Conflict))
    else if QuotaOf(board, agent) >= limits.maxRooms then (board, Err(Validation))
    else (Created(board, agent, input, now), Ok(RoomReply(NewRoom(agent, input, now).room)))
  }

  // ---------------------------------------------------------------- GrantAllowlist

  function GrantedMember(state: RoomState, agent: Str, input: GrantInput, now: Time): Membership {
    var target := input.targetAgent;
    if target in state.members then
      var existing := state.members[target];
      Membership(
        state.room.roomID, state.room.roomKey, target, existing.nickname, existing.nicknameKey,
        input.role, Capabilities(input.role), existing.createdBy, agent, existing.createdAt, now,
        existing.version + 1)
    else
      Membership(
        state.room.roomID, state.room.roomKey, target, [], [],
        input.role, Capabilities(input.role), agent, agent, now, now, 1)
  }

  function Granted(state: RoomState, agent: Str, input: GrantInput, now: Time): RoomState {
    var target := input.targetAgent;
    var room := state.room.(
    memberCount := state.room.memberCount + (if target in state.members then 0 else 1),
    version := state.room.version + 1,
    updatedAt := now);
    state.(
    room := room,
    members := state.members[target := GrantedMember(state, agent, input, now)],
    audits := state.audits + [Audit(AllowlistGranted, agent, target, input.role, input.tokenJTIHash, now)])
  }

  function GrantIn(limits: Limits, state: RoomState, agent: Str, input: GrantInput, now: Time)
    : (RoomState, Outcome<Reply>)
  {
    var target := input.targetAgent;
    var exists_ := target in state.members;
    var check := CheckActor(state, agent, input.actorMemberVersion, UpdateAllowList);
    if state.room.archived || state.room.version != input.expectedRoomVersion then (state, Err(Conflict))
    else if target == agent then (state, Err(Denied))
    else if target == state.room.owner then (state, Err(Denied))
    else if check.Some? then (state, Err(check.value))
    else if !exists_ && state.room.memberCount >= limits.maxMembers then (state, Err(Validation))
    else if exists_ && state.members[target].role == input.role then
      (state, Ok(GrantReply(state.members[target], false)))
    else if exists_ && state.members[target].role == Owner then (state, Err(Denied))
    else
      (Granted(state, agent, input, now), Ok(GrantReply(GrantedMember(state, agent, input, now), !exists_)))
  }

  // ---------------------------------------------------------------- RevokeAllowlist

  function Revoked(state: RoomState, agent: Str, input: RevokeInput, now: Time): RoomState
    requires input.targetAgent in state.members
  {
    var target := input.targetAgent;
    var nicknameKey := state.members[target].nicknameKey;
    var room := state.room.(
    memberCount := state.room.memberCount - 1,
    version := state.room.version + 1,
    updatedAt := now);
    state.(
    room := room,
    members := state.members - {target},
    nicknames := if nicknameKey != [] then state.nicknames - {nicknameKey} else state.nicknames,
    audits := state.audits + [Audit(AllowlistRevoked, agent, target, NO_ROLE, input.tokenJTIHash, now)])
  }

  function RevokeIn(state: RoomState, agent: Str, input: RevokeInput, now: Time): (RoomState, Outcome<Reply>) {
    var target := input.targetAgent;
    var check := CheckActor(state, agent, input.actorMemberVersion, UpdateAllowList);
    if state.room.archived || state.room.version != input.expectedRoomVersion then (state, Err(Conflict))
    else if target == agent then (state, Err(Denied))
    else if target == state.room.owner then (state, Err(Denied))
    else if check.Some? then (state, Err(check.value))
    else if target !in state.members then (state, Err(NotFound))
    else if state.members[target].role == Owner then (state, Err(Denied))
    else
      (Revoked(state, agent, input, now), Ok(RevokeReply))
  }

  // ---------------------------------------------------------------- SetNickname

  function RenamedMember(member: Membership, agent: Str, input: SetNicknameInput, now: Time): Membership {
    member.(
    nickname := input.nickname, nicknameKey := input.nicknameKey,
    updatedBy := agent, updatedAt := now, version := member.version + 1)
  }

  function Renamed(state: RoomState, agent: Str, input: SetNicknameInput, now: Time): RoomState
    requires agent in state.members
  {
    var member := state.members[agent];
    var kept := if member.nicknameKey != [] && member.nicknameKey != input.nicknameKey
                then state.nicknames - {member.nicknameKey} else state.nicknames;
    state.(
    members := state.members[agent := RenamedMember(member, agent, input, now)],
    nicknames := kept[input.nicknameKey := agent])
  }

  function SetNicknameIn(state: RoomState, agent: Str, input: SetNicknameInput, now: Time)
    : (RoomState, Outcome<Reply>)
  {
    if state.room.archived then (state, Err(Denied))
    else if agent !in state.members then (state, Err(Denied))
    else
      var member := state.members[agent];
      if input.actorMemberVersion != 0 && member.version != input.actorMemberVersion then (state, Err(Conflict))
      else if !RoleCan(member.role, UpdateNickname) then (state, Err(Denied))
      else if input.nicknameKey in state.nicknames && state.nicknames[input.nicknameKey] != agent then
        (state, Err(Conflict))
      else if member.nickname == input.nickname && member.nicknameKey == input.nicknameKey then
        (state, Ok(NicknameReply(member)))
      else
        (Renamed(state, agent, input, now), Ok(NicknameReply(RenamedMember(member, agent, input, now))))
  }

  // ---------------------------------------------------------------- PostMessage

  function IdempotencyKeyOf(agent: Str, key: Str): Str {
    agent + [HASH] + key
  }

  function FindMessage(messages: seq<Message>, messageID: Str): Option<Message> {
    if messages == [] then None
    else if messages[0].messageID == messageID then Some(messages[0])
    else FindMessage(messages[1..], messageID)
  }

  // The place of one more message in a list sorted by message ID.
  function InsertByID(messages: seq<Message>, message: Message): seq<Message> {
    if messages == [] || Less(message.messageID, messages[0].messageID) then [message] + messages
    else [messages[0]] + InsertByID(messages[1..], message)
  }

  function NewMessage(state: RoomState, agent: Str, input: PostInput, now: Time, messageID: Str): Message {
    Message(
      state.room.roomID, state.room.roomKey, messageID, agent, input.authorNickname, input.body, now,
      input.idempotencyKey, input.requestHash)
  }

  function Posted(state: RoomState, agent: Str, input: PostInput, now: Time, messageID: Str): RoomState {
    var key := IdempotencyKeyOf(agent, input.idempotencyKey);
    state.(
    messages := InsertByID(state.messages, NewMessage(state, agent, input, now, messageID)),
    idempotency := state.idempotency[key := Idempotency(input.requestHash, messageID)])
  }

  function PostIn(state: RoomState, agent: Str, input: PostInput, now: Time, messageID: Str)
    : (RoomState, Outcome<Reply>)
  {
    var check := CheckActor(state, agent, input.actorMemberVersion, Action.PostMessage);
    var key := IdempotencyKeyOf(agent, input.idempotencyKey);
    if state.room.archived then (state, Err(Denied))
    else if check.Some? then (state, Err(check.value))
    else if key in state.idempotency then
      if state.idempotency[key].requestHash != input.requestHash then (state, Err(IdempotencyConflict))
      else
        match FindMessage(state.messages, state.idempotency[key].messageID)
        case Some(message) => (state, Ok(PostReply(message, true)))
        case None => (state, Err(Conflict))
    else
      (Posted(state, agent, input, now, messageID),
       Ok(PostReply(NewMessage(state, agent, input, now, messageID), false)))
  }

  // ---------------------------------------------------------------- Whole-board operations

  // Rejected before any state is read.
  predicate InvalidInput(op: Operation) {
    (op.OpGrant? && !MutableRole(op.grant.role)) || (op.OpPost? && op.post.idempotencyKey == [])
  }

  function RoomIDOf(op: Operation): Str {
    match op
    case OpCreate(input) => input.roomID
    case OpGrant(input) => input.roomID
    case OpRevoke(input) => input.roomID
    case OpNickname(input) => input.roomID
    case OpPost(input) => input.roomID
  }

  function ApplyInRoom(limits: Limits, state: RoomState, agent: Str, op: Operation, now: Time, messageID: Str)
    : (RoomState, Outcome<Reply>)
    requires !op.OpCreate?
  {
    match op
    case OpGrant(input) => GrantIn(limits, state, agent, input, now)
    case OpRevoke(input) => RevokeIn(state, agent, input, now)
    case OpNickname(input) => SetNicknameIn(state, agent, input, now)
    case OpPost(input) => PostIn(state, agent, input, now, messageID)
  }

  function Apply(limits: Limits, board: BoardState, agent: Str, op: Operation, now: Time, messageID: Str)
    : (BoardState, Outcome<Reply>)
  {
    if InvalidInput(op) then (board, Err(Validation))
    else if op.OpCreate? then CreateRoomOp(limits, board, agent, op.create, now)
    else
      match RecordByRoomID(board, RoomIDOf(op))
      case Err(error) => (board, Err(error))
      case Ok(roomKey) =>
        var (state, outcome) := ApplyInRoom(limits, board.rooms[roomKey], agent, op, now, messageID);
        (board.(rooms := board.rooms[roomKey := state]), outcome)
  }

  function Snapshot(board: BoardState, roomID: Str, agent: Str): Outcome<AuthSnapshot> {
    match RecordByRoomID(board, roomID)
    case Err(error) => Err(error)
    case Ok(roomKey) =>
      var state := board.rooms[roomKey];
      Ok(AuthSnapshot(state.room, if agent in state.members then Some(state.members[agent]) else None))
  }
}
