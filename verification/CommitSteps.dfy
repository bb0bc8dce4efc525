/** Each committed transaction, by request, refines one operation of the specification. */
module CommitSteps {
  import opened Bytes
  import opened Board
  import opened BoardSpec
  import opened BoardInvariant
  import opened DynamoTable
  import opened DynamoStore
  import opened Refinement
  import opened NicknameRace
  import Base64Url
  import Authorizer
  import opened Interleaving
  import opened Stability

  // ---------------------------------------------------------------- Each commit is one step of the specification

  predicate Positive(limits: Limits) {
    limits.maxRooms >= 1
  }

  lemma RoomOfRequest(limits: Limits, board: BoardState, roomID: Str)
    requires BoardCore(limits, board) && Base64Url.Encode(roomID) in board.rooms
    ensures RecordByRoomID(board, roomID) == Ok(Base64Url.Encode(roomID))
    ensures board.rooms[Base64Url.Encode(roomID)].room.roomID == roomID
    ensures RoomCore(limits, Base64Url.Encode(roomID), board.rooms[Base64Url.Encode(roomID)])
  {
    hide RoomCore;
    var state := board.rooms[Base64Url.Encode(roomID)];
    assert RoomCore(limits, Base64Url.Encode(roomID), state);
    RoomCoreKey(limits, Base64Url.Encode(roomID), state);
    Base64Url.EncodeInjective(state.room.roomID, roomID);
  }

  lemma RoomCoreKey(limits: Limits, roomKey: Str, state: RoomState)
    requires RoomCore(limits, roomKey, state)
    ensures state.room.roomKey == roomKey == Base64Url.Encode(state.room.roomID)
    ensures MembersOk(state.room, state.members)
    ensures MessagesOk(state.room.roomID, roomKey, state.messages, state.idempotency)
  {
  }

  // The reply of the client against the outcome of the specification's step. A grant builds its entry from an
  // earlier read of the target, so its nickname and version may lag behind; it is the specification's reply exactly
  // when it reports the version that was stored.
  predicate ReplyAgrees(c: Client, ch: Choice, outcome: Outcome<Reply>)
    requires c.Replaying? || c.Ready? || c.Writing?
    requires c.Ready? ==> c.req.CreateRequest?
    requires c.Writing? && !c.req.GrantRequest? && !c.req.PostRequest? ==> c.found.Some?
  {
    if c.Replaying? then
      c.req.PostRequest?
      && if c.record.requestHash == c.req.requestHash
         then outcome.Ok? && outcome.value.PostReply? && outcome.value.replay
              && outcome.value.message.messageID == c.record.messageID
         else outcome == Err(IdempotencyConflict)
    else if c.Writing? && c.req.GrantRequest? then
      && outcome.Ok? && outcome.value.GrantReply?
      && ReplyOf(c, ch).Ok? && ReplyOf(c, ch).value.GrantReply?
      && SameGrant(ReplyOf(c, ch).value.member, outcome.value.member)
      && ReplyOf(c, ch).value.created == outcome.value.created
      && ReplyOf(c, ch).value.member.version <= outcome.value.member.version
      && (ReplyOf(c, ch) == outcome <==> ReplyOf(c, ch).value.member.version == outcome.value.member.version)
    else outcome == ReplyOf(c, ch)
  }

  predicate SameGrant(a: Membership, b: Membership) {
    a.agent == b.agent && a.role == b.role && a.capabilities == b.capabilities
    && a.roomID == b.roomID && a.roomKey == b.roomKey
  }

  // Where a commit is one operation of the specification: no disturbed nickname change, in a room whose index
  // is exact; and a creation under a limit that the table enforces.
  ghost predicate SpecStep(limits: Limits, s: System, note: Note, c: Client) {
    && (c.Writing? && c.req.NicknameRequest? ==>
          !Disturbed(s, note, c) && IndexExact(s.board, RoomKeyOf(c.req)))
    && (c.Ready? ==> Positive(limits) || c.actor in s.board.quotas)
  }

  ghost predicate IndexesKept(s: System, note: Note, c: Client, board': BoardState) {
    forall roomKey :: IndexExact(s.board, roomKey) && !(Disturbed(s, note, c) && roomKey == RoomKeyOf(c.req)) ==>
      IndexExact(board', roomKey)
  }

  ghost predicate SpecAgrees(limits: Limits, s: System, note: Note, c: Client, ch: Choice)
    requires Committable(c)
  {
    SpecStep(limits, s, note, c) ==>
      var (board', outcome) := Apply(limits, s.board, c.actor, OperationOfClient(c), ch.now, ch.messageID);
      CommittedBoard(limits, s.board, c, ch) == board' && ReplyAgrees(c, ch, outcome)
  }

  // Every commit: the table represents the new board, which is consistent and a successor of the old one, and -
  // undisturbed - the specification's.
  ghost predicate CommitRefines(limits: Limits, s: System, note: Note, c: Client, ch: Choice)
    requires Commits(limits, s.table, c, ch) && Committable(c)
  {
    var board' := CommittedBoard(limits, s.board, c, ch);
    && Matches(WriteAll(s.table, TransactionOf(limits, c, ch).value), board', AuditIDsAfter(limits, s, c, ch))
    && Evolves(s.board, board', s.revoked, RevokedAfter(limits, s, c, ch))
    && BoardCore(limits, board')
    && IndexesKept(s, note, c, board')
    && SpecAgrees(limits, s, note, c, ch)
  }

  predicate Committable(c: Client) {
    && (c.Replaying? || c.Ready? || c.Writing?)
    && (c.Ready? ==> c.req.CreateRequest?)
    && (c.Writing? && !c.req.GrantRequest? && !c.req.PostRequest? ==> c.found.Some?)
  }

  lemma ApplyInRoomOf(
    limits: Limits, board: BoardState, agent: Str, op: Operation, now: Time, messageID: Str, roomKey: Str)
    requires !op.OpCreate? && !InvalidInput(op) && RecordByRoomID(board, RoomIDOf(op)) == Ok(roomKey)
    ensures roomKey in board.rooms
    ensures var (state', outcome) := ApplyInRoom(limits, board.rooms[roomKey], agent, op, now, messageID);
            Apply(limits, board, agent, op, now, messageID) ==
            (board.(rooms := board.rooms[roomKey := state']), outcome)
  {
  }

  lemma RoomRepresented(table: Table, board: BoardState, auditIDs: map<Str, seq<Str>>, roomKey: Str)
    requires Matches(table, board, auditIDs) && roomKey in board.rooms
    ensures roomKey in auditIDs && RoomMatches(table, roomKey, board.rooms[roomKey], auditIDs[roomKey])
  {
  }

  // A commit in one room, from the facts about that room.
  lemma RoomStep(
    limits: Limits, s: System, table': Table, roomKey: Str, state': RoomState, ids': seq<Str>,
    revoked': multiset<(Str, Str)>, exempt: bool)
    requires BoardCore(limits, s.board) && Matches(s.table, s.board, s.auditIDs) && roomKey in s.board.rooms
    requires RoomMatches(table', roomKey, state', ids') && ChangesInRoom(s.table, table', roomKey)
    requires RoomCore(limits, roomKey, state') && SameRoom(s.board.rooms[roomKey].room, state'.room)
    requires s.revoked <= revoked' && RoomEvolves(roomKey, s.board.rooms[roomKey], state', s.revoked, revoked')
    requires !exempt && IndexExact(s.board, roomKey) ==> NicknamesOk(state'.members, state'.nicknames)
    ensures var board' := s.board.(rooms := s.board.rooms[roomKey := state']);
            && Matches(table', board', s.auditIDs[roomKey := ids'])
            && Evolves(s.board, board', s.revoked, revoked')
            && BoardCore(limits, board')
            && forall k :: IndexExact(s.board, k) && !(exempt && k == roomKey) ==> IndexExact(board', k)
  {
    hide BoardCore, Matches, RoomMatches, RoomCore, RoomEvolves, Evolves, NicknamesOk, ChangesInRoom;
    MatchesAfterRoomChange(s.table, table', s.board, s.auditIDs, roomKey, state', ids');
    BoardEvolves(s.board, roomKey, state', s.revoked, revoked');
    RoomChangeKeepsCore(limits, s.board, roomKey, state');
  }

  // A commit that changes nothing.
  lemma SameBoardStep(limits: Limits, s: System)
    requires BoardCore(limits, s.board)
    ensures Evolves(s.board, s.board, s.revoked, s.revoked)
  {
    forall roomKey | roomKey in s.board.rooms
      ensures RoomEvolves(roomKey, s.board.rooms[roomKey], s.board.rooms[roomKey], s.revoked, s.revoked)
    {
      RoomUnchangedEvolves(roomKey, s.board.rooms[roomKey], s.revoked, s.revoked);
    }
  }

  lemma GrantedReply(
    roomKey: Str, state: RoomState, agent: Str, input: GrantInput, found: Option<Membership>, now: Time)
    requires MembersOk(state.room, state.members)
    requires state.room.roomKey == roomKey && state.room.roomID == input.roomID
    requires found.Some? <==> input.targetAgent in state.members
    requires found.Some? ==>
               && found.value.version <= state.members[input.targetAgent].version
               && (found.value.version == state.members[input.targetAgent].version ==>
                     state.members[input.targetAgent] == found.value)
    ensures var reply, stored := GrantItem(roomKey, agent, input, found, now), GrantedMember(state, agent, input, now);
            SameGrant(reply, stored) && reply.version <= stored.version
            && (reply == stored <==> reply.version == stored.version)
  {
  }

  lemma GrantWriteStep(limits: Limits, s: System, note: Note, c: Client, ch: Choice)
    requires BoardCore(limits, s.board) && Matches(s.table, s.board, s.auditIDs)
    requires ClientOk(s.board, s.revoked, note, c) && c.Writing? && c.req.GrantRequest?
    requires !(c.found.Some? && c.found.value.role == c.req.role)
    requires Commits(limits, s.table, c, ch)
    ensures CommitRefines(limits, s, note, c, ch)
  {
    hide BoardCore, Base64Url.Encode, RoomMatches, RoomCore, MembersOk, MessagesOk, NicknamesOk, Apply, GrantWrites,
      GrantIn, Granted, GrantItem, GrantedMember, Passes, RoomEvolves, Matches, MemberKnown, Evolves, WriteAll,
      ChangesInRoom, RolesOf, MemberOk, SameRoom;
    var roomKey := RoomKeyOf(c.req);
    RoomRepresented(s.table, s.board, s.auditIDs, roomKey);
    var state, ids := s.board.rooms[roomKey], s.auditIDs[roomKey];
    var input := OperationOf(c.req, c.snapshot).grant;
    RoomOfRequest(limits, s.board, c.req.roomID);
    RoomCoreKey(limits, roomKey, state);
    RoomMeta(s.table, roomKey, state, ids);
    GrantWriteVersion(limits, s.table, roomKey, state, c.actor, input, c.found, ch.now, ch.auditID);
    assert c.found.Some? <==> c.req.target in state.members;
    SnapshotSameRoom(s.board, note, roomKey, c.snapshot.room);
    GrantCommit(limits, s.table, roomKey, state, ids, c.actor, input, c.found, ch.now, ch.auditID);
    ApplyInRoomOf(limits, s.board, c.actor, OpGrant(input), ch.now, ch.messageID, roomKey);
    var table' := WriteAll(s.table, GrantWrites(limits, roomKey, c.actor, input, c.found, ch.now, ch.auditID));
    var state' := Granted(state, c.actor, input, ch.now);
    GrantKeepsCore(limits, roomKey, state, c.actor, input, ch.now);
    if NicknamesOk(state.members, state.nicknames) { GrantKeepsIndex(limits, state, c.actor, input, ch.now); }
    GrantedSameRoom(state, c.actor, input, ch.now);
    GrantedEvolves(roomKey, state, c.actor, input, ch.now, s.revoked);
    RoomStep(limits, s, table', roomKey, state', ids + [ch.auditID], s.revoked, false);
    GrantedReply(roomKey, state, c.actor, input, c.found, ch.now);
  }

  lemma SnapshotSameRoom(board: BoardState, note: Note, roomKey: Str, room: Room)
    requires RoomKnown(board, note, roomKey, room)
    ensures room.owner == board.rooms[roomKey].room.owner && room.roomID == board.rooms[roomKey].room.roomID
  {
  }

  lemma GrantedSameRoom(state: RoomState, agent: Str, input: GrantInput, now: Time)
    ensures SameRoom(state.room, Granted(state, agent, input, now).room)
  {
  }

  lemma GrantGuardStep(limits: Limits, s: System, note: Note, c: Client, ch: Choice)
    requires BoardCore(limits, s.board) && Matches(s.table, s.board, s.auditIDs)
    requires ClientOk(s.board, s.revoked, note, c) && c.Writing? && c.req.GrantRequest?
    requires c.found.Some? && c.found.value.role == c.req.role
    requires Commits(limits, s.table, c, ch)
    ensures CommitRefines(limits, s, note, c, ch)
  {
    hide BoardCore, Base64Url.Encode, RoomMatches, RoomCore, MembersOk, MessagesOk, NicknamesOk, Apply, GrantGuard,
      GrantIn, Passes, RoomEvolves, Matches, MemberKnown, Evolves, WriteAll, RolesOf, MemberOk, SameRoom;
    var roomKey := RoomKeyOf(c.req);
    RoomRepresented(s.table, s.board, s.auditIDs, roomKey);
    var state := s.board.rooms[roomKey];
    var input := OperationOf(c.req, c.snapshot).grant;
    RoomOfRequest(limits, s.board, c.req.roomID);
    RoomCoreKey(limits, roomKey, state);
    RoomMeta(s.table, roomKey, state, s.auditIDs[roomKey]);
    GrantGuardVersion(s.table, roomKey, state, c.actor, input);
    SnapshotSameRoom(s.board, note, roomKey, c.snapshot.room);
    GrantGuardCommit(limits, s.table, roomKey, state, s.auditIDs[roomKey], c.actor, input, ch.now);
    GrantRepliesAgree(s.board, note, roomKey, c.snapshot.room, c.req.target, c.found.value);
    ApplyInRoomOf(limits, s.board, c.actor, OpGrant(input), ch.now, ch.messageID, roomKey);
    assert s.board.rooms[roomKey := state] == s.board.rooms;
    SameBoardStep(limits, s);
  }

  lemma GrantRepliesAgree(
    board: BoardState, note: Note, roomKey: Str, room: Room, target: Str, found: Membership)
    requires RoomKnown(board, note, roomKey, room)
    requires var state := board.rooms[roomKey];
             && MembersOk(state.room, state.members) && target in state.members
             && found.role == state.members[target].role
    requires MemberOk(room, target, found)
    ensures SameGrant(found, board.rooms[roomKey].members[target])
  {
    assert MemberOk(board.rooms[roomKey].room, target, board.rooms[roomKey].members[target]);
  }

  lemma GrantWriteVersion(
    limits: Limits, table: Table, roomKey: Str, state: RoomState, agent: Str, input: GrantInput,
    found: Option<Membership>, now: Time, auditID: Str)
    requires Get(table, InRoom(roomKey, Meta)) == Some(RoomItem(state.room))
    requires Passes(table, GrantWrites(limits, roomKey, agent, input, found, now, auditID))
    ensures state.room.version == input.expectedRoomVersion
  {
    var writes := GrantWrites(limits, roomKey, agent, input, found, now, auditID);
    assert Holds(writes[1].condition, Get(table, writes[1].key));
  }

  lemma RoomMeta(table: Table, roomKey: Str, state: RoomState, ids: seq<Str>)
    requires RoomMatches(table, roomKey, state, ids)
    ensures Get(table, InRoom(roomKey, Meta)) == Some(RoomItem(state.room))
  {
  }

  lemma GrantGuardVersion(table: Table, roomKey: Str, state: RoomState, agent: Str, input: GrantInput)
    requires Get(table, InRoom(roomKey, Meta)) == Some(RoomItem(state.room))
    requires Passes(table, GrantGuard(roomKey, agent, input))
    ensures state.room.version == input.expectedRoomVersion
  {
    var writes := GrantGuard(roomKey, agent, input);
    assert Holds(writes[0].condition, Get(table, writes[0].key));
  }

  lemma RevokeStep(limits: Limits, s: System, note: Note, c: Client, ch: Choice)
    requires BoardCore(limits, s.board) && Matches(s.table, s.board, s.auditIDs)
    requires ClientOk(s.board, s.revoked, note, c) && c.Writing? && c.req.RevokeRequest?
    requires Commits(limits, s.table, c, ch)
    ensures CommitRefines(limits, s, note, c, ch)
  {
    hide BoardCore, Base64Url.Encode, RoomMatches, RoomCore, MembersOk, MessagesOk, NicknamesOk, Apply, RevokeWrites,
      RevokeIn, Revoked, Passes, RoomEvolves, Matches, Evolves, WriteAll, ChangesInRoom, RolesOf, SameRoom;
    var roomKey := RoomKeyOf(c.req);
    RoomRepresented(s.table, s.board, s.auditIDs, roomKey);
    var state, ids := s.board.rooms[roomKey], s.auditIDs[roomKey];
    var input := OperationOf(c.req, c.snapshot).revoke;
    var found := c.found.value;
    RoomOfRequest(limits, s.board, c.req.roomID);
    RoomCoreKey(limits, roomKey, state);
    SnapshotSameRoom(s.board, note, roomKey, c.snapshot.room);
    RevokeCommit(limits, s.table, roomKey, state, ids, c.actor, input, found, ch.now, ch.auditID);
    ApplyInRoomOf(limits, s.board, c.actor, OpRevoke(input), ch.now, ch.messageID, roomKey);
    var table' := WriteAll(s.table, RevokeWrites(roomKey, c.actor, input, found, ch.now, ch.auditID));
    var state' := Revoked(state, c.actor, input, ch.now);
    RevokeKeepsCore(limits, roomKey, state, c.actor, input, ch.now);
    if NicknamesOk(state.members, state.nicknames) { RevokeKeepsIndex(state, c.actor, input, ch.now); }
    RevokedSameRoom(state, c.actor, input, ch.now);
    RevokedEvolves(roomKey, state, c.actor, input, ch.now, s.revoked);
    RoomStep(
      limits, s, table', roomKey, state', ids + [ch.auditID], s.revoked + multiset{(roomKey, c.req.target)}, false);
  }

  lemma RevokedSameRoom(state: RoomState, agent: Str, input: RevokeInput, now: Time)
    requires input.targetAgent in state.members
    ensures SameRoom(state.room, Revoked(state, agent, input, now).room)
  {
  }

  // With the member version unchanged and no revocation in between, what was read is what is stored.
  lemma NicknameReadIsCurrent(s: System, note: Note, c: Client)
    requires ClientOk(s.board, s.revoked, note, c) && c.Writing? && c.req.NicknameRequest? && !Disturbed(s, note, c)
    requires RoomKeyOf(c.req) in s.board.rooms
    requires var members := s.board.rooms[RoomKeyOf(c.req)].members;
             c.actor in members && members[c.actor].version == c.snapshot.membership.value.version
    ensures s.board.rooms[RoomKeyOf(c.req)].members[c.actor] == c.found.value
  {
  }

  lemma NicknameWriteStep(limits: Limits, s: System, note: Note, c: Client, ch: Choice)
    requires BoardCore(limits, s.board) && Matches(s.table, s.board, s.auditIDs)
    requires ClientOk(s.board, s.revoked, note, c) && c.Writing? && c.req.NicknameRequest?
    requires !SameNickname(c.found.value, OperationOf(c.req, c.snapshot).profile)
    requires Commits(limits, s.table, c, ch)
    ensures CommitRefines(limits, s, note, c, ch)
  {
    hide BoardCore, Base64Url.Encode, RoomMatches, RoomCore, MembersOk, MessagesOk, NicknamesOk, Apply, NicknameWrites,
      SetNicknameIn, Renamed, RoomRenamed, Passes, RoomEvolves, BoardInvariant.Lower, Matches, Evolves, WriteAll,
      ChangesInRoom, RolesOf, SameRoom, SameNickname, MemberKnown;
    var roomKey := RoomKeyOf(c.req);
    RoomRepresented(s.table, s.board, s.auditIDs, roomKey);
    var state, ids := s.board.rooms[roomKey], s.auditIDs[roomKey];
    var input := OperationOf(c.req, c.snapshot).profile;
    var found := c.found.value;
    RoomOfRequest(limits, s.board, c.req.roomID);
    RoomCoreKey(limits, roomKey, state);
    NicknameLeaves(s.table, roomKey, state, ids, c.actor, input, found, ch.now);
    var table' := WriteAll(s.table, NicknameWrites(roomKey, c.actor, input, found, ch.now));
    var state' := RoomRenamed(state, c.actor, input, found.nicknameKey, ch.now);
    RenamedKeepsCore(limits, roomKey, state, c.actor, input, found.nicknameKey, ch.now);
    RenamedEvolves(roomKey, state, c.actor, input, found.nicknameKey, ch.now, s.revoked);
    if !Disturbed(s, note, c) && IndexExact(s.board, roomKey) {
      NicknameReadIsCurrent(s, note, c);
      NicknameCommit(s.table, roomKey, state, ids, c.actor, input, found, ch.now);
      CurrentReadRenames(state, c.actor, input, ch.now);
      ApplyInRoomOf(limits, s.board, c.actor, OpNickname(input), ch.now, ch.messageID, roomKey);
      RenamedKeepsIndex(state, c.actor, input, ch.now);
      RenamedReply(c, ch);
    }
    RoomStep(limits, s, table', roomKey, state', ids, s.revoked, Disturbed(s, note, c));
    assert s.auditIDs[roomKey := ids] == s.auditIDs;
  }

  lemma RenamedReply(c: Client, ch: Choice)
    requires c.Writing? && c.req.NicknameRequest? && c.found.Some?
    requires !SameNickname(c.found.value, OperationOf(c.req, c.snapshot).profile)
    ensures ReplyOf(c, ch) ==
            Ok(NicknameReply(RenamedMember(c.found.value, c.actor, OperationOf(c.req, c.snapshot).profile, ch.now)))
  {
  }

  lemma RenamedKeepsCore(
    limits: Limits, roomKey: Str, state: RoomState, agent: Str, input: SetNicknameInput, previous: Str, now: Time)
    requires RoomCore(limits, roomKey, state) && agent in state.members
    requires input.nicknameKey == BoardInvariant.Lower(input.nickname)
    ensures RoomCore(limits, roomKey, RoomRenamed(state, agent, input, previous, now))
    ensures SameRoom(state.room, RoomRenamed(state, agent, input, previous, now).room)
  {
    hide RoomCore, IndexAfter, BoardInvariant.Lower;
    RenameKeepsCore(
      limits, roomKey, state, agent, input, now, IndexAfter(state.nicknames, agent, previous, input.nicknameKey));
  }

  lemma RenamedKeepsIndex(state: RoomState, agent: Str, input: SetNicknameInput, now: Time)
    requires NicknamesOk(state.members, state.nicknames) && agent in state.members && input.nicknameKey != []
    requires SetNicknameIn(state, agent, input, now).1.Ok?
    ensures NicknamesOk(Renamed(state, agent, input, now).members, Renamed(state, agent, input, now).nicknames)
  {
    hide NicknamesOk;
    NicknamesAfterRename(
      state.members, state.nicknames, agent, RenamedMember(state.members[agent], agent, input, now));
  }

  // Setting the nickname an agent already has changes nothing in the specification either.
  lemma SameNicknameKeeps(state: RoomState, agent: Str, input: SetNicknameInput, now: Time)
    requires NicknamesOk(state.members, state.nicknames) && input.nicknameKey != []
    requires !state.room.archived && CheckActor(state, agent, input.actorMemberVersion, UpdateNickname).None?
    requires SameNickname(state.members[agent], input)
    ensures SetNicknameIn(state, agent, input, now) == (state, Ok(NicknameReply(state.members[agent])))
  {
  }

  lemma NicknameGuardStep(limits: Limits, s: System, note: Note, c: Client, ch: Choice)
    requires BoardCore(limits, s.board) && Matches(s.table, s.board, s.auditIDs)
    requires ClientOk(s.board, s.revoked, note, c) && c.Writing? && c.req.NicknameRequest?
    requires SameNickname(c.found.value, OperationOf(c.req, c.snapshot).profile)
    requires Commits(limits, s.table, c, ch)
    ensures CommitRefines(limits, s, note, c, ch)
  {
    hide BoardCore, Base64Url.Encode, RoomMatches, RoomCore, MembersOk, MessagesOk, NicknamesOk, Apply, MemberGuard,
      SetNicknameIn, Passes, RoomEvolves, BoardInvariant.Lower, Matches, Evolves, WriteAll, RolesOf, MemberKnown;
    var roomKey := RoomKeyOf(c.req);
    RoomRepresented(s.table, s.board, s.auditIDs, roomKey);
    var state := s.board.rooms[roomKey];
    var input := OperationOf(c.req, c.snapshot).profile;
    RoomOfRequest(limits, s.board, c.req.roomID);
    RoomCoreKey(limits, roomKey, state);
    MemberGuardCommit(
      s.table, roomKey, state, s.auditIDs[roomKey], c.actor, input.actorMemberVersion, UpdateNickname);
    SameBoardStep(limits, s);
    if !Disturbed(s, note, c) && IndexExact(s.board, roomKey) {
      NicknameReadIsCurrent(s, note, c);
      SameNicknameKeeps(state, c.actor, input, ch.now);
      ApplyInRoomOf(limits, s.board, c.actor, OpNickname(input), ch.now, ch.messageID, roomKey);
      assert s.board.rooms[roomKey := state] == s.board.rooms;
    }
  }

  predicate KeyUnused(board: BoardState, actor: Str, req: Request) {
    req.PostRequest? && RoomKeyOf(req) in board.rooms ==>
      IdempotencyKeyOf(actor, req.idempotencyKey) !in board.rooms[RoomKeyOf(req)].idempotency
  }

  // The message a new post reports is in the room, under its record.
  predicate PostReplyKnown(board: BoardState, c: Client, ch: Choice)
    requires c.Writing? && c.req.PostRequest?
  {
    PostKnown(
      board, c.actor, c.req,
      PostMessageItem(RoomKeyOf(c.req), c.actor, OperationOf(c.req, c.snapshot).post, ch.now, ch.messageID))
  }

  lemma PostStep(limits: Limits, s: System, note: Note, c: Client, ch: Choice)
    requires BoardCore(limits, s.board) && Matches(s.table, s.board, s.auditIDs)
    requires ClientOk(s.board, s.revoked, note, c) && c.Writing? && c.req.PostRequest?
    requires Commits(limits, s.table, c, ch)
    ensures CommitRefines(limits, s, note, c, ch)
    ensures KeyUnused(s.board, c.actor, c.req)
    ensures PostReplyKnown(CommittedBoard(limits, s.board, c, ch), c, ch)
  {
    hide BoardCore, Base64Url.Encode, RoomMatches, RoomCore, MembersOk, MessagesOk, NicknamesOk, Apply, PostWrites,
      PostIn, Passes, RoomEvolves, IdempotencyKeyOf, InsertByID, Matches, Evolves, WriteAll, ChangesInRoom, RolesOf,
      SameRoom;
    var roomKey := RoomKeyOf(c.req);
    RoomRepresented(s.table, s.board, s.auditIDs, roomKey);
    var state, ids := s.board.rooms[roomKey], s.auditIDs[roomKey];
    var input := OperationOf(c.req, c.snapshot).post;
    RoomOfRequest(limits, s.board, c.req.roomID);
    RoomCoreKey(limits, roomKey, state);
    PostCommit(s.table, roomKey, state, ids, c.actor, input, ch.now, ch.messageID);
    FindIsHas(state.messages, ch.messageID);
    ApplyInRoomOf(limits, s.board, c.actor, OpPost(input), ch.now, ch.messageID, roomKey);
    var table' := WriteAll(s.table, PostWrites(roomKey, c.actor, input, ch.now, ch.messageID));
    var state' := Posted(state, c.actor, input, ch.now, ch.messageID);
    PostKeepsCore(limits, roomKey, state, c.actor, input, ch.now, ch.messageID);
    PostedEvolves(roomKey, state, c.actor, input, ch.now, ch.messageID, s.revoked);
    PostedSameRoom(state, c.actor, input, ch.now, ch.messageID);
    RoomStep(limits, s, table', roomKey, state', ids, s.revoked, false);
    assert s.auditIDs[roomKey := ids] == s.auditIDs;
    FindAfterInsert(
      state.messages, PostMessageItem(roomKey, c.actor, input, ch.now, ch.messageID), ch.messageID);
  }

  lemma PostedSameRoom(state: RoomState, agent: Str, input: PostInput, now: Time, messageID: Str)
    ensures SameRoom(state.room, Posted(state, agent, input, now, messageID).room)
  {
  }

  // A replay finds the message its record names.
  lemma ReplaySucceeds(state: RoomState, roomKey: Str, agent: Str, input: PostInput, now: Time, messageID: Str)
    requires MessagesOk(state.room.roomID, roomKey, state.messages, state.idempotency)
    requires !state.room.archived
    requires CheckActor(state, agent, input.actorMemberVersion, Board.Action.PostMessage).None?
    requires IdempotencyKeyOf(agent, input.idempotencyKey) in state.idempotency
    ensures var record := state.idempotency[IdempotencyKeyOf(agent, input.idempotencyKey)];
            var (state', outcome) := PostIn(state, agent, input, now, messageID);
            && state' == state
            && FindMessage(state.messages, record.messageID).Some?
            && outcome == if record.requestHash == input.requestHash
                          then Ok(PostReply(FindMessage(state.messages, record.messageID).value, true))
                          else Err(IdempotencyConflict)
  {
    var record := state.idempotency[IdempotencyKeyOf(agent, input.idempotencyKey)];
    assert RecordHasMessage(state.messages, record);
    FindIsHas(state.messages, record.messageID);
  }

  lemma ReplayStep(limits: Limits, s: System, note: Note, c: Client, ch: Choice)
    requires BoardCore(limits, s.board) && Matches(s.table, s.board, s.auditIDs)
    requires ClientOk(s.board, s.revoked, note, c) && c.Replaying?
    requires Commits(limits, s.table, c, ch)
    ensures CommitRefines(limits, s, note, c, ch)
  {
    hide BoardCore, Base64Url.Encode, RoomMatches, RoomCore, MembersOk, MessagesOk, NicknamesOk, Apply, MemberGuard,
      PostIn, Passes, RoomEvolves, IdempotencyKeyOf, HasMessage, Matches, Evolves, WriteAll, RolesOf;
    var roomKey := RoomKeyOf(c.req);
    RoomRepresented(s.table, s.board, s.auditIDs, roomKey);
    var state := s.board.rooms[roomKey];
    var input := OperationOf(c.req, c.snapshot).post;
    RoomOfRequest(limits, s.board, c.req.roomID);
    RoomCoreKey(limits, roomKey, state);
    MemberGuardCommit(
      s.table, roomKey, state, s.auditIDs[roomKey], c.actor, input.actorMemberVersion, Board.Action.PostMessage);
    ReplaySucceeds(state, roomKey, c.actor, input, ch.now, ch.messageID);
    FindIsHas(state.messages, c.record.messageID);
    ApplyInRoomOf(limits, s.board, c.actor, OpPost(input), ch.now, ch.messageID, roomKey);
    assert s.board.rooms[roomKey := state] == s.board.rooms;
    SameBoardStep(limits, s);
  }

  lemma CreateStep(limits: Limits, s: System, note: Note, c: Client, ch: Choice)
    requires BoardCore(limits, s.board) && Matches(s.table, s.board, s.auditIDs)
    requires ClientOk(s.board, s.revoked, note, c) && c.Ready? && c.req.CreateRequest?
    requires Commits(limits, s.table, c, ch)
    ensures CommitRefines(limits, s, note, c, ch)
  {
    hide Base64Url.Encode, RoomMatches, RoomCore, CreateWrites, Passes, RoomEvolves, QuotaCore, NewRoom, KeysOk,
      Matches, NicknamesOk, Created, WriteAll;
    var input := OperationOfClient(c).create;
    CreateCommit(limits, s.table, s.board, s.auditIDs, c.actor, input, ch.now, ch.auditID);
    NewRoomKey(c.actor, input, ch.now);
    CreatedKeepsCore(limits, s.board, c.actor, input, ch.now);
    CreatedRooms(s.board, c.actor, input, ch.now);
    NewRoomIndexed(c.actor, input, ch.now);
    assert [] + [ch.auditID] == [ch.auditID];
    var board' := Created(s.board, c.actor, input, ch.now);
    forall roomKey | roomKey in s.board.rooms
      ensures RoomEvolves(roomKey, s.board.rooms[roomKey], s.board.rooms[roomKey], s.revoked, s.revoked)
    {
      RoomUnchangedEvolves(roomKey, s.board.rooms[roomKey], s.revoked, s.revoked);
    }
    assert Evolves(s.board, board', s.revoked, s.revoked);
  }
}
