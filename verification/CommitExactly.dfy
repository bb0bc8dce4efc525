/**
 The transactions refuse no more than the specification: when what a client read is still current, its
 transaction passes exactly when the operation succeeds.
 */
module CommitExactly {
  import opened Bytes
  import opened Board
  import opened BoardSpec
  import opened BoardInvariant
  import opened DynamoTable
  import opened DynamoStore
  import opened Refinement
  import opened NicknameRace
  import opened Interleaving
  import opened CommitSteps
  import opened RunInvariant
  import Base64Url

  predicate HoldsAt(table: Table, write: WriteItem) {
    Holds(write.condition, Get(table, write.key))
  }

  // ---------------------------------------------------------------- One transaction

  predicate FreshAudit(table: Table, roomKey: Str, auditID: Str) {
    Get(table, InRoom(roomKey, AuditEntry(auditID))) == None
  }

  function Current(state: RoomState, agent: Str): Option<Membership> {
    if agent in state.members then Some(state.members[agent]) else None
  }

  lemma GrantConditions(
    limits: Limits, table: Table, roomKey: Str, state: RoomState, ids: seq<Str>,
    agent: Str, input: GrantInput, now: Time, auditID: Str)
    requires RoomMatches(table, roomKey, state, ids) && MembersOk(state.room, state.members)
    requires input.targetAgent != state.room.owner
    ensures var target := input.targetAgent;
            var found := Current(state, target);
            var writes := GrantWrites(limits, roomKey, agent, input, found, now, auditID);
            && |writes| == 4
            && (HoldsAt(table, writes[1]) <==>
                && !state.room.archived && state.room.version == input.expectedRoomVersion
                && (found.None? ==> state.room.memberCount < limits.maxMembers))
            && HoldsAt(table, writes[2])
            && (HoldsAt(table, writes[3]) <==> FreshAudit(table, roomKey, auditID))
  {
    hide MessagesMatch, IdempotencyMatches, AuditsMatch, NicknamesMatch;
    var target := input.targetAgent;
    assert Get(table, InRoom(roomKey, Member(target))) == MemberEntry(state.members, target);
    assert target in state.members ==> MemberOk(state.room, target, state.members[target]);
  }

  lemma FourPass(table: Table, writes: seq<WriteItem>)
    requires |writes| == 4
    ensures Passes(table, writes) <==>
            && HoldsAt(table, writes[0]) && HoldsAt(table, writes[1])
            && HoldsAt(table, writes[2]) && HoldsAt(table, writes[3])
  {
    hide Holds;
    if HoldsAt(table, writes[0]) && HoldsAt(table, writes[1]) && HoldsAt(table, writes[2])
       && HoldsAt(table, writes[3]) {
      forall i | 0 <= i < |writes| ensures Holds(writes[i].condition, Get(table, writes[i].key)) {
        assert HoldsAt(table, writes[i]);
      }
    }
  }

  // A grant of another role passes exactly when the specification grants it.
  lemma GrantExactly(
    limits: Limits, table: Table, roomKey: Str, state: RoomState, ids: seq<Str>,
    agent: Str, input: GrantInput, now: Time, auditID: Str)
    requires RoomMatches(table, roomKey, state, ids) && MembersOk(state.room, state.members)
    requires input.actorMemberVersion >= 1
    requires input.targetAgent != agent && input.targetAgent != state.room.owner
    requires input.targetAgent in state.members ==> state.members[input.targetAgent].role != input.role
    ensures Passes(table, GrantWrites(limits, roomKey, agent, input, Current(state, input.targetAgent), now, auditID))
            <==> GrantIn(limits, state, agent, input, now).1.Ok? && FreshAudit(table, roomKey, auditID)
  {
    var target := input.targetAgent;
    var writes := GrantWrites(limits, roomKey, agent, input, Current(state, target), now, auditID);
    GrantConditions(limits, table, roomKey, state, ids, agent, input, now, auditID);
    ActorPasses(table, roomKey, state, agent, input.actorMemberVersion, UpdateAllowList);
    FourPass(table, writes);
    assert HoldsAt(table, writes[0]) <==> CheckActor(state, agent, input.actorMemberVersion, UpdateAllowList).None?;
    assert target in state.members ==> MemberOk(state.room, target, state.members[target]);
    hide RoomMatches, Passes, Holds, Granted, GrantedMember, MembersOk;
  }

  lemma TwoPass(table: Table, writes: seq<WriteItem>)
    requires |writes| == 2
    ensures Passes(table, writes) <==> HoldsAt(table, writes[0]) && HoldsAt(table, writes[1])
  {
    hide Holds;
    if HoldsAt(table, writes[0]) && HoldsAt(table, writes[1]) {
      forall i | 0 <= i < |writes| ensures Holds(writes[i].condition, Get(table, writes[i].key)) {
        assert HoldsAt(table, writes[i]);
      }
    }
  }

  // A grant of the role already held checks exactly what the specification checks.
  lemma GrantGuardExactly(
    limits: Limits, table: Table, roomKey: Str, state: RoomState, ids: seq<Str>,
    agent: Str, input: GrantInput, now: Time)
    requires RoomMatches(table, roomKey, state, ids)
    requires input.actorMemberVersion >= 1
    requires input.targetAgent != agent && input.targetAgent != state.room.owner
    requires input.targetAgent in state.members && state.members[input.targetAgent].role == input.role
    ensures Passes(table, GrantGuard(roomKey, agent, input)) <==> GrantIn(limits, state, agent, input, now).1.Ok?
  {
    var writes := GrantGuard(roomKey, agent, input);
    ActorPasses(table, roomKey, state, agent, input.actorMemberVersion, UpdateAllowList);
    TwoPass(table, writes);
    assert HoldsAt(table, writes[1]) <==> CheckActor(state, agent, input.actorMemberVersion, UpdateAllowList).None?;
    assert HoldsAt(table, writes[0]) <==>
           !state.room.archived && state.room.version == input.expectedRoomVersion;
    hide Passes, Holds, MembersMatch, NicknamesMatch, MessagesMatch, IdempotencyMatches, AuditsMatch;
  }

  // What the table holds of one member other than the owner.
  lemma MemberStored(table: Table, roomKey: Str, state: RoomState, agent: Str)
    requires MembersMatch(table, roomKey, state.members) && NicknamesMatch(table, roomKey, state.nicknames)
    requires MembersOk(state.room, state.members) && NicknamesOk(state.members, state.nicknames)
    requires agent in state.members && agent != state.room.owner
    ensures var member := state.members[agent];
            && member.role != Owner
            && Get(table, InRoom(roomKey, Member(agent))) == Some(MemberItem(member))
            && (member.nicknameKey != [] ==>
                  Get(table, InRoom(roomKey, Nick(member.nicknameKey))) == Some(NickItem(agent)))
  {
    var member := state.members[agent];
    assert MemberOk(state.room, agent, member);
    assert Get(table, InRoom(roomKey, Member(agent))) == MemberEntry(state.members, agent);
    assert Get(table, InRoom(roomKey, Nick(member.nicknameKey))) == NickEntry(state.nicknames, member.nicknameKey);
  }

  lemma RevokeConditions(
    table: Table, roomKey: Str, state: RoomState, ids: seq<Str>, agent: Str, input: RevokeInput,
    now: Time, auditID: Str)
    requires RoomMatches(table, roomKey, state, ids)
    requires MembersOk(state.room, state.members) && NicknamesOk(state.members, state.nicknames)
    requires input.targetAgent != state.room.owner && input.targetAgent in state.members
    ensures var found := state.members[input.targetAgent];
            var writes := RevokeWrites(roomKey, agent, input, found, now, auditID);
            && |writes| == (if found.nicknameKey == [] then 4 else 5)
            && writes[0] == ActorCondition(roomKey, agent, input.actorMemberVersion, UpdateAllowList)
            && HoldsAt(table, writes[1])
            && (HoldsAt(table, writes[2]) <==>
                !state.room.archived && state.room.version == input.expectedRoomVersion)
            && (HoldsAt(table, writes[3]) <==> FreshAudit(table, roomKey, auditID))
            && (found.nicknameKey != [] ==> HoldsAt(table, writes[4]))
  {
    hide MessagesMatch, IdempotencyMatches, AuditsMatch, MembersMatch, NicknamesMatch, NicknamesOk, MembersOk;
    var target := input.targetAgent;
    var found := state.members[target];
    MemberStored(table, roomKey, state, target);
    var writes := RevokeWrites(roomKey, agent, input, found, now, auditID);
    if found.nicknameKey != [] {
      assert writes[4] == DeleteNickname(roomKey, found.nicknameKey, target);
    }
  }

  // A revocation passes exactly when the specification revokes.
  lemma RevokeExactly(
    table: Table, roomKey: Str, state: RoomState, ids: seq<Str>, agent: Str, input: RevokeInput,
    now: Time, auditID: Str)
    requires RoomMatches(table, roomKey, state, ids)
    requires MembersOk(state.room, state.members) && NicknamesOk(state.members, state.nicknames)
    requires input.actorMemberVersion >= 1
    requires input.targetAgent != agent && input.targetAgent != state.room.owner
    requires input.targetAgent in state.members
    ensures Passes(table, RevokeWrites(roomKey, agent, input, state.members[input.targetAgent], now, auditID))
            <==> RevokeIn(state, agent, input, now).1.Ok? && FreshAudit(table, roomKey, auditID)
  {
    var target := input.targetAgent;
    var writes := RevokeWrites(roomKey, agent, input, state.members[target], now, auditID);
    RevokeConditions(table, roomKey, state, ids, agent, input, now, auditID);
    ActorPasses(table, roomKey, state, agent, input.actorMemberVersion, UpdateAllowList);
    MemberStored(table, roomKey, state, target);
    assert HoldsAt(table, writes[0]) <==> CheckActor(state, agent, input.actorMemberVersion, UpdateAllowList).None?;
    hide RoomMatches, Holds, HoldsAt, RevokeWrites, MembersOk, NicknamesOk, ActorCondition, Revoked, CheckActor;
    AllPass(table, writes);
  }

  lemma AllPass(table: Table, writes: seq<WriteItem>)
    ensures Passes(table, writes) <==> forall i :: 0 <= i < |writes| ==> HoldsAt(table, writes[i])
  {
    hide Holds;
    if Passes(table, writes) {
      forall i | 0 <= i < |writes| ensures HoldsAt(table, writes[i]) {
      }
    }
    if forall i :: 0 <= i < |writes| ==> HoldsAt(table, writes[i]) {
      forall i | 0 <= i < |writes| ensures Holds(writes[i].condition, Get(table, writes[i].key)) {
        assert HoldsAt(table, writes[i]);
      }
    }
  }

  lemma NicknameConditions(
    table: Table, roomKey: Str, state: RoomState, ids: seq<Str>, agent: Str, input: SetNicknameInput, now: Time)
    requires RoomMatches(table, roomKey, state, ids) && NicknamesOk(state.members, state.nicknames)
    requires agent in state.members && input.nicknameKey != []
    ensures var found := state.members[agent];
            var writes := NicknameWrites(roomKey, agent, input, found, now);
            var taken := input.nicknameKey in state.nicknames && state.nicknames[input.nicknameKey] != agent;
            && |writes| >= 2
            && (HoldsAt(table, writes[0]) <==> !state.room.archived)
            && (HoldsAt(table, writes[1]) <==> found.version == input.actorMemberVersion)
            && (found.nicknameKey == input.nicknameKey ==> |writes| == 2 && !taken)
            && (found.nicknameKey != input.nicknameKey ==>
                  && |writes| == (if found.nicknameKey == [] then 3 else 4)
                  && (HoldsAt(table, writes[|writes| - 1]) <==> !taken)
                  && (found.nicknameKey != [] ==> HoldsAt(table, writes[2])))
  {
    hide MessagesMatch, IdempotencyMatches, AuditsMatch;
    var found := state.members[agent];
    var writes := NicknameWrites(roomKey, agent, input, found, now);
    assert Get(table, InRoom(roomKey, Member(agent))) == MemberEntry(state.members, agent);
    assert Get(table, InRoom(roomKey, Nick(found.nicknameKey))) == NickEntry(state.nicknames, found.nicknameKey);
    assert Get(table, InRoom(roomKey, Nick(input.nicknameKey))) == NickEntry(state.nicknames, input.nicknameKey);
    if found.nicknameKey != input.nicknameKey {
      assert writes[|writes| - 1].key == InRoom(roomKey, Nick(input.nicknameKey));
      if found.nicknameKey != [] { assert writes[2] == DeleteNickname(roomKey, found.nicknameKey, agent); }
    }
  }

  // A nickname change passes exactly when the specification makes it.
  lemma NicknameExactly(
    table: Table, roomKey: Str, state: RoomState, ids: seq<Str>, agent: Str, input: SetNicknameInput, now: Time)
    requires RoomMatches(table, roomKey, state, ids) && NicknamesOk(state.members, state.nicknames)
    requires input.actorMemberVersion >= 1 && input.nicknameKey != []
    requires agent in state.members && RoleCan(state.members[agent].role, UpdateNickname)
    ensures Passes(table, NicknameWrites(roomKey, agent, input, state.members[agent], now))
            <==> SetNicknameIn(state, agent, input, now).1.Ok?
  {
    var writes := NicknameWrites(roomKey, agent, input, state.members[agent], now);
    NicknameConditions(table, roomKey, state, ids, agent, input, now);
    hide RoomMatches, Holds, NicknameWrites, NicknamesOk, Renamed, RenamedMember, HoldsAt;
    AllPass(table, writes);
    var n := |writes|;
    if SetNicknameIn(state, agent, input, now).1.Ok? {
      forall i | 0 <= i < n ensures HoldsAt(table, writes[i]) {
        if i >= 2 { assert i == n - 1 || (i == 2 && n == 4); }
      }
    } else {
      assert !HoldsAt(table, writes[0]) || !HoldsAt(table, writes[1]) || !HoldsAt(table, writes[n - 1]);
    }
  }

  // A post under an unused key passes exactly when the specification posts.
  lemma PostExactly(
    table: Table, roomKey: Str, state: RoomState, ids: seq<Str>, agent: Str, input: PostInput,
    now: Time, messageID: Str)
    requires RoomMatches(table, roomKey, state, ids)
    requires input.actorMemberVersion >= 1
    requires FindMessage(state.messages, messageID) == None
    ensures Passes(table, PostWrites(roomKey, agent, input, now, messageID))
            <==> PostIn(state, agent, input, now, messageID).1.Ok?
                 && IdempotencyKeyOf(agent, input.idempotencyKey) !in state.idempotency
  {
    var writes := PostWrites(roomKey, agent, input, now, messageID);
    var key := IdempotencyKeyOf(agent, input.idempotencyKey);
    ActorPasses(table, roomKey, state, agent, input.actorMemberVersion, Board.Action.PostMessage);
    FourPass(table, writes);
    assert Get(table, InRoom(roomKey, Idemp(key))) == IdempotencyEntry(state.idempotency, key);
    assert Get(table, InRoom(roomKey, Msg(messageID))) == MessageEntry(state.messages, messageID);
    assert HoldsAt(table, writes[0]) <==> !state.room.archived;
    assert HoldsAt(table, writes[1]) <==>
           CheckActor(state, agent, input.actorMemberVersion, Board.Action.PostMessage).None?;
    assert HoldsAt(table, writes[2]) <==> key !in state.idempotency;
    assert HoldsAt(table, writes[3]);
    hide RoomMatches, Passes, Holds, HoldsAt, Posted, CheckActor, PostWrites, IdempotencyKeyOf;
  }

  lemma CreateConditions(
    limits: Limits, table: Table, board: BoardState, auditIDs: map<Str, seq<Str>>,
    agent: Str, input: CreateRoomInput, now: Time, auditID: Str)
    requires Matches(table, board, auditIDs) && BoardCore(limits, board)
    ensures Passes(table, CreateWrites(limits, agent, input, now, auditID))
            <==> input.roomID !in board.roomKeys && (agent !in board.quotas || board.quotas[agent] < limits.maxRooms)
  {
    hide Base64Url.Encode, RoomMatches, NewRoom, RoomCore;
    var roomKey := Base64Url.Encode(input.roomID);
    var writes := CreateWrites(limits, agent, input, now, auditID);
    NewRoomKey(agent, input, now);
    FourPass(table, writes);
    assert Get(table, Quota(agent)) == QuotaEntry(board.quotas, agent);
    assert HoldsAt(table, writes[3]) <==> agent !in board.quotas || board.quotas[agent] < limits.maxRooms;
    if roomKey in board.rooms {
      RoomHasMeta(table, roomKey, board.rooms[roomKey], auditIDs[roomKey]);
      RoomOfRequest(limits, board, input.roomID);
      assert !HoldsAt(table, writes[0]);
    } else {
      assert NoRoom(table, roomKey);
      assert input.roomID !in board.roomKeys;
      assert HoldsAt(table, writes[0]) && HoldsAt(table, writes[1]) && HoldsAt(table, writes[2]);
    }
  }

  // A creation passes exactly when the specification creates the room.
  lemma CreateExactly(
    limits: Limits, table: Table, board: BoardState, auditIDs: map<Str, seq<Str>>,
    agent: Str, input: CreateRoomInput, now: Time, auditID: Str)
    requires Matches(table, board, auditIDs) && BoardCore(limits, board) && limits.maxRooms >= 1
    ensures Passes(table, CreateWrites(limits, agent, input, now, auditID))
            <==> CreateRoomOp(limits, board, agent, input, now).1.Ok?
  {
    hide Matches, BoardCore, Passes, CreateWrites, NewRoom;
    CreateConditions(limits, table, board, auditIDs, agent, input, now, auditID);
  }

  // The stores part ways only under a limit of no rooms at all, for an agent that never created one.
  lemma CreateAgreesExactly(
    limits: Limits, table: Table, board: BoardState, auditIDs: map<Str, seq<Str>>,
    agent: Str, input: CreateRoomInput, now: Time, auditID: Str)
    requires Matches(table, board, auditIDs) && BoardCore(limits, board)
    ensures (Passes(table, CreateWrites(limits, agent, input, now, auditID))
             <==> CreateRoomOp(limits, board, agent, input, now).1.Ok?)
            <==> limits.maxRooms >= 1 || agent in board.quotas || input.roomID in board.roomKeys
  {
    hide Matches, BoardCore, Passes, CreateWrites, NewRoom;
    CreateConditions(limits, table, board, auditIDs, agent, input, now, auditID);
  }

  // ---------------------------------------------------------------- In a run

  // What the client read about the member its transaction changes is what the room holds now.
  predicate ReadIsCurrent(board: BoardState, c: Client)
    requires c.Writing? && RoomKeyOf(c.req) in board.rooms
  {
    var state := board.rooms[RoomKeyOf(c.req)];
    match c.req
    case CreateRequest(_, _, _, _) => false
    case GrantRequest(_, target, _, _) => c.found == Current(state, target)
    case RevokeRequest(_, target, _) => c.found == Current(state, target)
    case NicknameRequest(_, _, _) => c.found == Current(state, c.actor)
    case PostRequest(_, _, key, _) => IdempotencyKeyOf(c.actor, key) !in state.idempotency
  }

  ghost predicate FreshIDs(s: System, c: Client, ch: Choice)
    requires c.Writing? && RoomKeyOf(c.req) in s.board.rooms
  {
    && FreshAudit(s.table, RoomKeyOf(c.req), ch.auditID)
    && FindMessage(s.board.rooms[RoomKeyOf(c.req)].messages, ch.messageID) == None
  }

  // A client whose read is still current commits exactly when the specification would succeed.
  lemma CommitsExactly(limits: Limits, s: System, note: Note, c: Client, ch: Choice)
    requires Represents(limits, s)
    requires ClientOk(s.board, s.revoked, note, c) && c.Writing? && RoomKeyOf(c.req) in s.board.rooms
    requires ReadIsCurrent(s.board, c) && FreshIDs(s, c, ch) && ch.fault != Unavailable
    requires c.req.NicknameRequest? || c.req.RevokeRequest? ==> IndexExact(s.board, RoomKeyOf(c.req))
    ensures Commits(limits, s.table, c, ch)
            <==> Apply(limits, s.board, c.actor, OperationOfClient(c), ch.now, ch.messageID).1.Ok?
  {
    hide Matches, BoardCore, RoomMatches, RoomCore, MembersOk, NicknamesOk, MessagesOk, Base64Url.Encode, GrantWrites,
      RevokeWrites, NicknameWrites, PostWrites, GrantGuard, MemberGuard, GrantIn, RevokeIn, SetNicknameIn, PostIn,
      Passes, Apply, IdempotencyKeyOf, FreshAudit, MemberKnown, RolesOf, Validated;
    var roomKey := RoomKeyOf(c.req);
    RoomRepresented(s.table, s.board, s.auditIDs, roomKey);
    var state, ids := s.board.rooms[roomKey], s.auditIDs[roomKey];
    RoomOfRequest(limits, s.board, c.req.roomID);
    RoomCoreKey(limits, roomKey, state);
    WriterOperation(c);
    ApplyInRoomOf(limits, s.board, c.actor, OperationOfClient(c), ch.now, ch.messageID, roomKey);
    match OperationOf(c.req, c.snapshot)
    case OpGrant(input) =>
      if c.found.Some? && c.found.value.role == input.role {
        GrantGuardExactly(limits, s.table, roomKey, state, ids, c.actor, input, ch.now);
      } else {
        GrantExactly(limits, s.table, roomKey, state, ids, c.actor, input, ch.now, ch.auditID);
      }
    case OpRevoke(input) => RevokeExactly(s.table, roomKey, state, ids, c.actor, input, ch.now, ch.auditID);
    case OpNickname(input) =>
      if SameNickname(c.found.value, input) {
        NicknameGuardExactly(s.table, roomKey, state, ids, c.actor, input, ch.now);
      } else {
        NicknameExactly(s.table, roomKey, state, ids, c.actor, input, ch.now);
      }
    case OpPost(input) => PostExactly(s.table, roomKey, state, ids, c.actor, input, ch.now, ch.messageID);
    case OpCreate(_) =>
  }

  lemma WriterOperation(c: Client)
    requires c.Writing? && Validated(c.req) && !c.req.CreateRequest?
    ensures !OperationOfClient(c).OpCreate? && !InvalidInput(OperationOfClient(c))
    ensures RoomIDOf(OperationOfClient(c)) == c.req.roomID
    ensures c.req.NicknameRequest? ==> c.req.nicknameKey != []
  {
  }

  // Setting the nickname already held checks exactly what the specification checks.
  lemma NicknameGuardExactly(
    table: Table, roomKey: Str, state: RoomState, ids: seq<Str>, agent: Str, input: SetNicknameInput, now: Time)
    requires RoomMatches(table, roomKey, state, ids) && NicknamesOk(state.members, state.nicknames)
    requires input.actorMemberVersion >= 1 && input.nicknameKey != []
    requires agent in state.members && SameNickname(state.members[agent], input)
    ensures Passes(table, MemberGuard(roomKey, agent, input.actorMemberVersion, UpdateNickname))
            <==> SetNicknameIn(state, agent, input, now).1.Ok?
  {
    var writes := MemberGuard(roomKey, agent, input.actorMemberVersion, UpdateNickname);
    ActorPasses(table, roomKey, state, agent, input.actorMemberVersion, UpdateNickname);
    TwoPass(table, writes);
    assert HoldsAt(table, writes[0]) <==> !state.room.archived;
    assert HoldsAt(table, writes[1]) <==> CheckActor(state, agent, input.actorMemberVersion, UpdateNickname).None?;
    hide RoomMatches, Passes, Holds, HoldsAt;
  }

  // A replay's guard passes exactly when the specification answers the replay, with its message or a conflict.
  lemma ReplayExactly(
    table: Table, roomKey: Str, state: RoomState, ids: seq<Str>, agent: Str, input: PostInput,
    now: Time, messageID: Str)
    requires RoomMatches(table, roomKey, state, ids)
    requires MessagesOk(state.room.roomID, roomKey, state.messages, state.idempotency)
    requires input.actorMemberVersion >= 1
    requires IdempotencyKeyOf(agent, input.idempotencyKey) in state.idempotency
    ensures Passes(table, MemberGuard(roomKey, agent, input.actorMemberVersion, Board.Action.PostMessage))
            <==> var outcome := PostIn(state, agent, input, now, messageID).1;
                 outcome.Ok? || outcome == Err(IdempotencyConflict)
  {
    var writes := MemberGuard(roomKey, agent, input.actorMemberVersion, Board.Action.PostMessage);
    ActorPasses(table, roomKey, state, agent, input.actorMemberVersion, Board.Action.PostMessage);
    TwoPass(table, writes);
    assert HoldsAt(table, writes[0]) <==> !state.room.archived;
    assert HoldsAt(table, writes[1]) <==>
           CheckActor(state, agent, input.actorMemberVersion, Board.Action.PostMessage).None?;
    hide RoomMatches, Passes, Holds, HoldsAt, IdempotencyKeyOf, MessagesOk, FindMessage;
    if !state.room.archived
       && CheckActor(state, agent, input.actorMemberVersion, Board.Action.PostMessage).None? {
      ReplaySucceeds(state, roomKey, agent, input, now, messageID);
    }
  }
}
