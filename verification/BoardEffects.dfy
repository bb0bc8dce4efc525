/** What each store operation means, field by field: when it is refused and with which error, and what it leaves. */
module BoardEffects {
  import opened Bytes
  import opened Board
  import opened BoardSpec
  import Base64Url
  import opened BoardInvariant

  // ---------------------------------------------------------------- Records

  // A new room, as its owner asked for it at that time.
  predicate RoomSays(room: Room, owner: Str, roomID: Str, name: Str, description: Str, now: Time) {
    && room.roomID == roomID && room.roomKey == Base64Url.Encode(roomID)
    && room.name == (if name == [] then roomID else name) && room.description == description
    && room.owner == owner && room.createdAt == now && room.updatedAt == now
    && room.version == 1 && room.memberCount == 1 && !room.archived
  }

  // A new entry of an allow-list.
  predicate EntrySays(member: Membership, roomID: Str, agent: Str, role: Role, editor: Str, now: Time) {
    && member.roomID == roomID && member.roomKey == Base64Url.Encode(roomID) && member.agent == agent
    && member.nickname == [] && member.nicknameKey == []
    && member.role == role && member.capabilities == Capabilities(role)
    && member.createdBy == editor && member.updatedBy == editor
    && member.createdAt == now && member.updatedAt == now && member.version == 1
  }

  predicate AuditSays(audit: Audit, event: EventType, actor: Str, target: Str, role: Role, jti: Str, now: Time) {
    && audit.event == event && audit.actor == actor && audit.target == target && audit.role == role
    && audit.tokenJTIHash == jti && audit.createdAt == now
  }

  predicate MessageSays(
    m: Message, roomID: Str, messageID: Str, author: Str, nickname: Str, body: Str, key: Str, hash: Str, now: Time)
  {
    && m.roomID == roomID && m.roomKey == Base64Url.Encode(roomID) && m.messageID == messageID
    && m.author == author && m.authorNickname == nickname && m.body == body && m.createdAt == now
    && m.idempotencyKey == key && m.requestHash == hash
  }

  // The log with one entry more.
  predicate LogGrows(
    audits: seq<Audit>, audits': seq<Audit>, event: EventType, actor: Str, target: Str, role: Role, jti: Str, now: Time)
  {
    && |audits'| == |audits| + 1 && audits'[..|audits|] == audits
    && AuditSays(audits'[|audits|], event, actor, target, role, jti, now)
  }

  // An existing entry with another role.
  predicate EntryPromoted(member: Membership, member': Membership, role: Role, editor: Str, now: Time) {
    member' == member.(role := role, capabilities := Capabilities(role), updatedBy := editor, updatedAt := now,
    version := member.version + 1)
  }

  predicate EntryRenamed(member: Membership, member': Membership, nickname: Str, key: Str, editor: Str, now: Time) {
    member' == member.(nickname := nickname, nicknameKey := key, updatedBy := editor, updatedAt := now,
    version := member.version + 1)
  }

  predicate RoomBumped(room: Room, room': Room, delta: int, now: Time) {
    room' == room.(version := room.version + 1, updatedAt := now, memberCount := room.memberCount + delta)
  }

  // ---------------------------------------------------------------- CreateRoom

  lemma CreateMeans(limits: Limits, board: BoardState, agent: Str, input: CreateRoomInput, now: Time)
    ensures var (board', outcome) := CreateRoomOp(limits, board, agent, input, now);
            var owned := if agent in board.quotas then board.quotas[agent] else 0;
            && (outcome == Err(Conflict) <==> input.roomID in board.roomKeys)
            && (outcome == Err(Validation) <==> input.roomID !in board.roomKeys && owned >= limits.maxRooms)
            && (outcome.Err? ==> board' == board && outcome.error in {Conflict, Validation})
            && (outcome.Ok? ==>
                  && outcome.value.RoomReply?
                  && RoomSays(outcome.value.room, agent, input.roomID, input.name, input.description, now)
                  && board'.roomKeys == board.roomKeys[input.roomID := Base64Url.Encode(input.roomID)]
                  && board'.quotas == board.quotas[agent := owned + 1]
                  && Base64Url.Encode(input.roomID) in board'.rooms
                  && var state := board'.rooms[Base64Url.Encode(input.roomID)];
                     && board'.rooms == board.rooms[Base64Url.Encode(input.roomID) := state]
                     && state.room == outcome.value.room && state.members.Keys == {agent}
                     && EntrySays(state.members[agent], input.roomID, agent, Owner, agent, now)
                     && state.nicknames == map[] && state.messages == [] && state.idempotency == map[]
                     && LogGrows([], state.audits, RoomCreated, agent, agent, Owner, input.tokenJTIHash, now))
  {
    hide Base64Url.Encode;
  }

  // ---------------------------------------------------------------- Who may act

  // The actor is a member with the version expected, if one is.
  predicate ActorIsKnown(state: RoomState, agent: Str, version: int) {
    agent in state.members && (version == 0 || state.members[agent].version == version)
  }

  predicate ActorHasMoved(state: RoomState, agent: Str, version: int) {
    agent in state.members && version != 0 && state.members[agent].version != version
  }

  predicate ActorMay(state: RoomState, agent: Str, version: int, roles: set<Role>) {
    ActorIsKnown(state, agent, version) && state.members[agent].role in roles
  }

  const MANAGERS := {Owner, Admin}
  const AUTHORS := {Owner, Admin, Poster}
  const NAMED := {Owner, Admin, Poster, Reader, Connector}

  // The allow-list can be changed as of that room version, for somebody other than actor and owner.
  predicate ListOpen(state: RoomState, version: int) {
    !state.room.archived && state.room.version == version
  }

  predicate Foreign(state: RoomState, agent: Str, target: Str) {
    target != agent && target != state.room.owner
  }

  // ---------------------------------------------------------------- GrantAllowlist

  lemma GrantRefusals(limits: Limits, state: RoomState, agent: Str, input: GrantInput, now: Time)
    ensures var (state', outcome) := GrantIn(limits, state, agent, input, now);
            var target, version := input.targetAgent, input.actorMemberVersion;
            var free := ListOpen(state, input.expectedRoomVersion) && Foreign(state, agent, target);
            var role := if target in state.members then Some(state.members[target].role) else None;
            && (outcome.Err? ==> state' == state && outcome.error in {Conflict, Denied, Validation})
            && (outcome == Err(Conflict) <==>
                  !ListOpen(state, input.expectedRoomVersion) || (free && ActorHasMoved(state, agent, version)))
            && (outcome == Err(Validation) <==>
                  && free && ActorMay(state, agent, version, MANAGERS)
                  && role == None && state.room.memberCount >= limits.maxMembers)
            && (outcome.Ok? <==>
                  && free && ActorMay(state, agent, version, MANAGERS)
                  && (role == None ==> state.room.memberCount < limits.maxMembers)
                  && (role == Some(Owner) ==> input.role == Owner))
  {
  }

  lemma GrantMeans(limits: Limits, state: RoomState, agent: Str, input: GrantInput, now: Time)
    requires GrantIn(limits, state, agent, input, now).1.Ok?
    requires state.room.roomID == input.roomID && state.room.roomKey == Base64Url.Encode(input.roomID)
    requires input.targetAgent in state.members ==>
               var m := state.members[input.targetAgent];
               m.agent == input.targetAgent && m.roomID == input.roomID && m.roomKey == Base64Url.Encode(input.roomID)
    ensures var (state', outcome) := GrantIn(limits, state, agent, input, now);
            var target := input.targetAgent;
            && outcome.value.GrantReply? && target in state'.members
            && outcome.value.member == state'.members[target] && outcome.value.member.role == input.role
            && outcome.value.created == (target !in state.members)
            && (target in state.members && state.members[target].role == input.role ==> state' == state)
            && (!(target in state.members && state.members[target].role == input.role) ==>
                  && state' == state.(room := state'.room, members := state'.members, audits := state'.audits)
                  && state'.members == state.members[target := state'.members[target]]
                  && RoomBumped(state.room, state'.room, if target in state.members then 0 else 1, now)
                  && LogGrows(
                       state.audits, state'.audits, AllowlistGranted, agent, target, input.role, input.tokenJTIHash,
                       now)
                  && if target in state.members
                     then EntryPromoted(state.members[target], state'.members[target], input.role, agent, now)
                     else EntrySays(state'.members[target], input.roomID, target, input.role, agent, now))
  {
    hide Base64Url.Encode;
  }

  // ---------------------------------------------------------------- RevokeAllowlist

  lemma RevokeMeans(state: RoomState, agent: Str, input: RevokeInput, now: Time)
    ensures var (state', outcome) := RevokeIn(state, agent, input, now);
            var target, version := input.targetAgent, input.actorMemberVersion;
            var free := ListOpen(state, input.expectedRoomVersion) && Foreign(state, agent, target);
            && (outcome.Err? ==> state' == state && outcome.error in {Conflict, Denied, NotFound})
            && (outcome == Err(Conflict) <==>
                  !ListOpen(state, input.expectedRoomVersion) || (free && ActorHasMoved(state, agent, version)))
            && (outcome == Err(NotFound) <==>
                  free && ActorMay(state, agent, version, MANAGERS) && target !in state.members)
            && (outcome.Ok? <==>
                  && free && ActorMay(state, agent, version, MANAGERS)
                  && target in state.members && state.members[target].role != Owner)
            && (outcome.Ok? ==>
                  && outcome.value == RevokeReply
                  && state' == state.(room := state'.room, members := state.members - {target},
                  nicknames := state'.nicknames, audits := state'.audits)
                  && RoomBumped(state.room, state'.room, -1, now)
                  && LogGrows(
                       state.audits, state'.audits, AllowlistRevoked, agent, target, NO_ROLE, input.tokenJTIHash, now)
                  && var key := state.members[target].nicknameKey;
                     state'.nicknames == if key == [] then state.nicknames else state.nicknames - {key})
  {
  }

  // ---------------------------------------------------------------- SetNickname

  predicate NicknameTaken(state: RoomState, agent: Str, key: Str) {
    key in state.nicknames && state.nicknames[key] != agent
  }

  lemma NicknameMeans(state: RoomState, agent: Str, input: SetNicknameInput, now: Time)
    ensures var (state', outcome) := SetNicknameIn(state, agent, input, now);
            var version, key := input.actorMemberVersion, input.nicknameKey;
            && (outcome.Err? ==> state' == state && outcome.error in {Conflict, Denied})
            && (outcome == Err(Conflict) <==>
                  && !state.room.archived
                  && (ActorHasMoved(state, agent, version)
                      || (ActorMay(state, agent, version, NAMED) && NicknameTaken(state, agent, key))))
            && (outcome.Ok? <==>
                  && !state.room.archived && ActorMay(state, agent, version, NAMED)
                  && !NicknameTaken(state, agent, key))
            && (outcome.Ok? ==>
                  && outcome.value.NicknameReply? && agent in state'.members
                  && outcome.value.profile == state'.members[agent]
                  && state'.members[agent].nickname == input.nickname && state'.members[agent].nicknameKey == key
                  && state' == state.(members := state'.members, nicknames := state'.nicknames)
                  && state'.members == state.members[agent := state'.members[agent]]
                  && var before := state.members[agent];
                     if before.nickname == input.nickname && before.nicknameKey == key then state' == state
                     else
                       && EntryRenamed(before, state'.members[agent], input.nickname, key, agent, now)
                       && state'.nicknames ==
                          (if before.nicknameKey in {[], key} then state.nicknames
                           else state.nicknames - {before.nicknameKey})[key := agent])
  {
  }

  // ---------------------------------------------------------------- PostMessage

  lemma PostRefusals(state: RoomState, agent: Str, input: PostInput, now: Time, messageID: Str)
    ensures var (state', outcome) := PostIn(state, agent, input, now, messageID);
            var version, slot := input.actorMemberVersion, agent + [HASH] + input.idempotencyKey;
            var may := !state.room.archived && ActorMay(state, agent, version, AUTHORS);
            && (outcome.Err? ==> state' == state && outcome.error in {Conflict, Denied, IdempotencyConflict})
            && (outcome == Err(Denied) <==>
                  !may && (state.room.archived || !ActorHasMoved(state, agent, version)))
            && (outcome == Err(IdempotencyConflict) <==>
                  may && slot in state.idempotency && state.idempotency[slot].requestHash != input.requestHash)
            && (outcome.Ok? <==>
                  may && (slot in state.idempotency ==>
                            && state.idempotency[slot].requestHash == input.requestHash
                            && exists i :: 0 <= i < |state.messages|
                                           && state.messages[i].messageID == state.idempotency[slot].messageID))
  {
    var slot := agent + [HASH] + input.idempotencyKey;
    if slot in state.idempotency { FoundIffHeld(state.messages, state.idempotency[slot].messageID); }
    hide FindMessage;
  }

  lemma {:induction false} FoundIffHeld(messages: seq<Message>, id: Str)
    ensures FindMessage(messages, id).Some? <==> exists i :: 0 <= i < |messages| && messages[i].messageID == id
    ensures FindMessage(messages, id).Some? ==>
              FindMessage(messages, id).value in messages && FindMessage(messages, id).value.messageID == id
  {
    if messages != [] && messages[0].messageID != id {
      FoundIffHeld(messages[1..], id);
      assert forall i :: 1 <= i < |messages| ==> messages[i] == messages[1..][i - 1];
    }
  }

  // A repeated post is answered with a message stored before; a new one adds its message and its record.
  lemma PostMeans(state: RoomState, agent: Str, input: PostInput, now: Time, messageID: Str)
    requires PostIn(state, agent, input, now, messageID).1.Ok?
    requires state.room.roomID == input.roomID && state.room.roomKey == Base64Url.Encode(input.roomID)
    ensures var (state', outcome) := PostIn(state, agent, input, now, messageID);
            var slot := agent + [HASH] + input.idempotencyKey;
            && outcome.value.PostReply? && outcome.value.replay == (slot in state.idempotency)
            && (slot in state.idempotency ==>
                  && state' == state && outcome.value.message in state.messages
                  && outcome.value.message.messageID == state.idempotency[slot].messageID)
            && (slot !in state.idempotency ==>
                  && MessageSays(
                       outcome.value.message, input.roomID, messageID, agent, input.authorNickname, input.body,
                       input.idempotencyKey, input.requestHash, now)
                  && state' == state.(messages := state'.messages, idempotency := state'.idempotency)
                  && state'.idempotency == state.idempotency[slot := Idempotency(input.requestHash, messageID)]
                  && multiset(state'.messages) == multiset(state.messages) + multiset{outcome.value.message})
  {
    hide Base64Url.Encode, CheckActor;
    var slot := agent + [HASH] + input.idempotencyKey;
    if slot in state.idempotency {
      FoundIffHeld(state.messages, state.idempotency[slot].messageID);
    } else {
      InsertContents(state.messages, NewMessage(state, agent, input, now, messageID), []);
    }
  }

  // ---------------------------------------------------------------- Whole operations

  // A role that cannot be granted and an empty idempotency key are invalid before anything is looked up; then an
  // unknown room is not found; everything else is up to the room.
  lemma ApplyMeans(limits: Limits, board: BoardState, agent: Str, op: Operation, now: Time, messageID: Str)
    requires KeysOk(board) && !op.OpCreate?
    ensures var (board', outcome) := Apply(limits, board, agent, op, now, messageID);
            var invalid := || (op.OpGrant? && op.grant.role !in {Admin, Poster, Reader, Connector})
                           || (op.OpPost? && op.post.idempotencyKey == []);
            var roomID := match op
                          case OpGrant(input) => input.roomID
                          case OpRevoke(input) => input.roomID
                          case OpNickname(input) => input.roomID
                          case OpPost(input) => input.roomID;
            var key := Base64Url.Encode(roomID);
            && (invalid ==> board' == board && outcome == Err(Validation))
            && (!invalid && roomID !in board.roomKeys ==> board' == board && outcome == Err(NotFound))
            && (!invalid && roomID in board.roomKeys ==>
                  && key in board.rooms && key in board'.rooms
                  && board' == board.(rooms := board.rooms[key := board'.rooms[key]])
                  && (board'.rooms[key], outcome) ==
                     match op
                     case OpGrant(input) => GrantIn(limits, board.rooms[key], agent, input, now)
                     case OpRevoke(input) => RevokeIn(board.rooms[key], agent, input, now)
                     case OpNickname(input) => SetNicknameIn(board.rooms[key], agent, input, now)
                     case OpPost(input) => PostIn(board.rooms[key], agent, input, now, messageID))
  {
    hide Base64Url.Encode, GrantIn, RevokeIn, SetNicknameIn, PostIn;
  }

  // ---------------------------------------------------------------- What no operation changes

  predicate SameText(room: Room, room': Room) {
    && room'.roomID == room.roomID && room'.roomKey == room.roomKey && room'.name == room.name
    && room'.description == room.description && room'.owner == room.owner && room'.createdAt == room.createdAt
    && room'.archived == room.archived
  }

  lemma InRoomKeepsText(limits: Limits, state: RoomState, agent: Str, op: Operation, now: Time, messageID: Str)
    requires !op.OpCreate?
    ensures SameText(state.room, ApplyInRoom(limits, state, agent, op, now, messageID).0.room)
  {
    hide CheckActor, GrantedMember, RenamedMember, InsertByID, NewMessage, FindMessage, IdempotencyKeyOf;
  }

  // ---------------------------------------------------------------- GetRoomForAgent

  // A snapshot is the room under that ID, with the agent's entry of its allow-list if there is one.
  lemma SnapshotMeans(board: BoardState, roomID: Str, agent: Str)
    requires KeysOk(board)
    ensures var snapshot := Snapshot(board, roomID, agent);
            var key := Base64Url.Encode(roomID);
            && (roomID !in board.roomKeys ==> snapshot == Err(NotFound))
            && (roomID in board.roomKeys ==>
                  && key in board.rooms && snapshot.Ok? && snapshot.value.room == board.rooms[key].room
                  && snapshot.value.room.roomID == roomID
                  && (snapshot.value.membership.Some? <==> agent in board.rooms[key].members)
                  && (agent in board.rooms[key].members ==>
                        snapshot.value.membership == Some(board.rooms[key].members[agent])))
  {
    hide Base64Url.Encode;
  }
}
