/** Decisions taken on a snapshot are still right when the write commits. */
module SnapshotAuthorization {
  import opened Bytes
  import opened Board
  import opened BoardSpec
  import opened BoardInvariant
  import opened DynamoTable
  import opened DynamoStore
  import opened Refinement
  import opened NicknameRace
  import opened Interleaving
  import opened Stability
  import opened CommitSteps
  import opened RunInvariant
  import opened BoardTheorems
  import Base64Url
  import Authorizer

  // ---------------------------------------------------------------- Authorizer and store agree

  predicate GuardedAction(action: Board.Action) {
    action == Board.Action.PostMessage || action == UpdateAllowList || action == UpdateNickname
  }

  // A grant may name neither the owner role nor the owner.
  predicate AllowedTarget(action: Board.Action, owner: Str, context: Authorizer.AuthContext) {
    action == UpdateAllowList ==>
      context.newRole != Owner && (context.target == [] || context.target != owner)
  }

  lemma CheckOfMember(state: RoomState, agent: Str, action: Board.Action, context: Authorizer.AuthContext)
    requires MembersOk(state.room, state.members) && GuardedAction(action)
    ensures var membership := if agent in state.members then Some(state.members[agent]) else None;
            Authorizer.Authorized(agent, action, AuthSnapshot(state.room, membership), context) <==>
            && !state.room.archived
            && AllowedTarget(action, state.room.owner, context)
            && membership.Some?
            && membership.value.version != 0
            && CheckActor(state, agent, membership.value.version, action).None?
  {
    assert agent in state.members ==> MemberOk(state.room, agent, state.members[agent]);
  }

  // On a fresh snapshot the authorizer and the store's own check of the actor decide alike,
  // and an allowed actor always carries a version the store will compare.
  lemma AuthorizedMeansCheckPasses(
    limits: Limits, board: BoardState, roomID: Str, agent: Str, action: Board.Action, context: Authorizer.AuthContext)
    requires BoardCore(limits, board) && GuardedAction(action) && Snapshot(board, roomID, agent).Ok?
    ensures var snapshot := Snapshot(board, roomID, agent).value;
            var state := board.rooms[RecordByRoomID(board, roomID).value];
            Authorizer.Authorized(agent, action, snapshot, context) <==>
            && !snapshot.room.archived
            && AllowedTarget(action, snapshot.room.owner, context)
            && snapshot.membership.Some?
            && snapshot.membership.value.version != 0
            && CheckActor(state, agent, snapshot.membership.value.version, action).None?
  {
    hide RoomCore, Authorizer.Authorized, CheckActor, AllowedTarget;
    var roomKey := RecordByRoomID(board, roomID).value;
    assert RoomCore(limits, roomKey, board.rooms[roomKey]);
    RoomCoreKey(limits, roomKey, board.rooms[roomKey]);
    CheckOfMember(board.rooms[roomKey], agent, action, context);
  }

  function ActionOfOperation(op: Operation): Board.Action {
    match op
    case OpCreate(_) => CreateRoom
    case OpGrant(_) => UpdateAllowList
    case OpRevoke(_) => UpdateAllowList
    case OpNickname(_) => UpdateNickname
    case OpPost(_) => Board.Action.PostMessage
  }

  function ContextOfOperation(op: Operation): Authorizer.AuthContext {
    match op
    case OpGrant(input) => Authorizer.AuthContext(input.targetAgent, input.role)
    case OpRevoke(input) => Authorizer.AuthContext(input.targetAgent, NO_ROLE)
    case _ => Authorizer.NO_CONTEXT
  }

  // Whatever the caller knew, the board itself would authorize the actor for this operation.
  ghost predicate AuthorizedNow(board: BoardState, agent: Str, op: Operation) {
    var snapshot := Snapshot(board, RoomIDOf(op), agent);
    snapshot.Ok? && Authorizer.Authorized(agent, ActionOfOperation(op), snapshot.value, ContextOfOperation(op))
  }

  // An operation takes effect only where the authorizer would allow it on the state it takes effect on.
  lemma SuccessIsAuthorized(
    limits: Limits, board: BoardState, agent: Str, op: Operation, now: Time, messageID: Str)
    requires !op.OpCreate?
    requires var outcome := Apply(limits, board, agent, op, now, messageID).1;
             outcome.Ok? || outcome == Err(IdempotencyConflict)
    ensures AuthorizedNow(board, agent, op)
  {
    hide Granted, Revoked, Renamed, Posted, FindMessage;
    var roomKey := RecordByRoomID(board, RoomIDOf(op)).value;
    var state := board.rooms[roomKey];
    match op
    case OpGrant(input) =>
    case OpRevoke(input) =>
    case OpNickname(input) =>
    case OpPost(input) =>
  }

  lemma NicknameAuthorized(limits: Limits, s: System, note: Note, c: Client, ch: Choice)
    requires Represents(limits, s) && ClientOk(s.board, s.revoked, note, c) && Commits(limits, s.table, c, ch)
    requires c.Writing? && c.req.NicknameRequest?
    ensures RoomKeyOf(c.req) in s.board.rooms
    ensures var state := s.board.rooms[RoomKeyOf(c.req)];
            && !state.room.archived && c.actor in state.members
            && RoleCan(state.members[c.actor].role, UpdateNickname)
  {
    hide BoardCore, Matches, RoomMatches, MemberKnown, RoomKnown, Base64Url.Encode, NicknameWrites, MemberGuard,
      Passes, BoardInvariant.Lower, WriteAll, RoomRenamed;
    var roomKey := RoomKeyOf(c.req);
    WriterFacts(s.board, s.revoked, note, c);
    RoomRepresented(s.table, s.board, s.auditIDs, roomKey);
    var state, ids := s.board.rooms[roomKey], s.auditIDs[roomKey];
    var input := OperationOf(c.req, c.snapshot).profile;
    if SameNickname(c.found.value, input) {
      MemberGuardCommit(s.table, roomKey, state, ids, c.actor, input.actorMemberVersion, UpdateNickname);
    } else {
      NicknameLeaves(s.table, roomKey, state, ids, c.actor, input, c.found.value, ch.now);
    }
  }

  lemma MemberMayRename(limits: Limits, board: BoardState, agent: Str, op: Operation)
    requires BoardCore(limits, board) && op.OpNickname? && Base64Url.Encode(op.profile.roomID) in board.rooms
    requires var state := board.rooms[Base64Url.Encode(op.profile.roomID)];
             && !state.room.archived && agent in state.members
             && RoleCan(state.members[agent].role, UpdateNickname)
    ensures AuthorizedNow(board, agent, op)
  {
    hide BoardCore, RoomCore, Base64Url.Encode;
    RoomOfRequest(limits, board, op.profile.roomID);
  }

  // In every run, a commit finds its actor authorized at that moment - not only when the snapshot was taken.
  lemma CommitIsAuthorized(limits: Limits, moves: seq<Move>, id: nat, ch: Choice)
    requires AdmissibleRun(limits, moves)
    requires var s := Run(limits, moves);
             && Admissible(s, Act(id, ch)) && Commits(limits, s.table, s.clients[id], ch)
             && !s.clients[id].Ready?
    ensures var s := Run(limits, moves);
            AuthorizedNow(s.board, s.clients[id].actor, OperationOfClient(s.clients[id]))
  {
    hide BoardCore, Matches, ClientOk, Apply, WriteAll, TransactionOf, Evolves, Step, Run, AdmissibleRun, ReplyOf,
      AuthorizedNow, SameGrant, Next, CommittedBoard, IndexesExact, IndexesKept, Commits, Base64Url.Encode;
    var s := Run(limits, moves);
    var c, note := s.clients[id], s.notes[id];
    RunKeeps(limits, moves);
    assert ClientOk(s.board, s.revoked, note, c);
    CommitStep(limits, s, note, c, ch);
    CommitterOperation(s.board, s.revoked, note, c);
    if c.Writing? && c.req.NicknameRequest? {
      NicknameAuthorized(limits, s, note, c, ch);
      MemberMayRename(limits, s.board, c.actor, OperationOfClient(c));
    } else {
      ReplyIsSuccess(c, ch, Apply(limits, s.board, c.actor, OperationOfClient(c), ch.now, ch.messageID).1);
      SuccessIsAuthorized(limits, s.board, c.actor, OperationOfClient(c), ch.now, ch.messageID);
    }
  }

  lemma CommitterOperation(board: BoardState, revoked: multiset<(Str, Str)>, note: Note, c: Client)
    requires ClientOk(board, revoked, note, c) && Committable(c) && !c.Ready?
    ensures !OperationOfClient(c).OpCreate?
  {
    hide MemberKnown, RoomKnown, Base64Url.Encode, TargetKnown, Validated;
  }

  lemma ReplyIsSuccess(c: Client, ch: Choice, outcome: Outcome<Reply>)
    requires Committable(c) && ReplyAgrees(c, ch, outcome)
    ensures outcome.Ok? || outcome == Err(IdempotencyConflict)
  {
  }

  // ---------------------------------------------------------------- The allow-list stands still

  function RoomRead(c: Client): Option<Room> {
    match c
    case Ready(_, _) => None
    case Finished(_, _, _) => None
    case GotRoom(_, _, room) => Some(room)
    case Allowed(_, _, snapshot) => Some(snapshot.room)
    case Targeting(_, _, snapshot) => Some(snapshot.room)
    case Writing(_, _, snapshot, _) => Some(snapshot.room)
    case PostRefused(_, _, snapshot) => Some(snapshot.room)
    case Replaying(_, _, snapshot, _) => Some(snapshot.room)
    case Fetching(_, _, snapshot, _) => Some(snapshot.room)
    case ClassifyRoom(_, _, snapshot) => Some(snapshot.room)
    case ClassifyMember(_, _, snapshot) => Some(snapshot.room)
  }

  // A client keeps its actor, its request and the room it read until it finishes.
  predicate SameCall(c: Client, c': Client) {
    c'.Finished? || (c.actor == c'.actor && c.req == c'.req && RoomRead(c) == RoomRead(c'))
  }

  lemma StepKeepsCall(limits: Limits, table: Table, c: Client, ch: Choice)
    requires !c.Ready?
    ensures SameCall(c, Step(limits, table, c, ch).1)
    ensures c.Finished? ==> Step(limits, table, c, ch).1 == c
  {
    hide WriteAll, Passes, Authorizer.Authorized, Base64Url.Encode, Validated, ReadStep, CreateWrites, GrantWrites,
      GrantGuard, RevokeWrites, NicknameWrites, PostWrites, MemberGuard;
    if !c.Writing? && !c.Replaying? && !c.Finished? { ReadKeepsCall(table, c); }
  }

  lemma ReadKeepsCall(table: Table, c: Client)
    requires !c.Writing? && !c.Replaying? && !c.Finished? && !c.Ready?
    ensures SameCall(c, ReadStep(table, c))
  {
    hide Authorizer.Authorized, Base64Url.Encode, Validated, GetRoom, GetMember, GetIdempotency, GetMessage;
  }

  lemma {:induction false} RunKeepsCall(limits: Limits, moves: seq<Move>, k: nat, id: nat)
    requires AdmissibleRun(limits, moves) && k <= |moves|
    requires id in Run(limits, moves[..k]).clients && !Run(limits, moves[..k]).clients[id].Ready?
    ensures id in Run(limits, moves).clients && !Run(limits, moves).clients[id].Ready?
    ensures SameCall(Run(limits, moves[..k]).clients[id], Run(limits, moves).clients[id])
    decreases |moves|
  {
    hide Step, BoardAfter, AuditIDsAfter, RevokedAfter, NoteAfter, RoomRead;
    if k == |moves| {
      assert moves[..k] == moves;
    } else {
      var init, move := moves[..|moves| - 1], moves[|moves| - 1];
      assert init[..k] == moves[..k];
      RunKeepsCall(limits, init, k, id);
      if move.Act? && move.id == id {
        var s := Run(limits, init);
        StepKeepsCall(limits, s.table, s.clients[id], move.choice);
        StepLeavesReady(limits, s.table, s.clients[id], move.choice);
      }
    }
  }

  lemma StepLeavesReady(limits: Limits, table: Table, c: Client, ch: Choice)
    requires !c.Ready?
    ensures !Step(limits, table, c, ch).1.Ready?
  {
    hide WriteAll, Passes, TransactionOf, Authorizer.Authorized, Base64Url.Encode, Validated;
  }

  // A committed grant or revoke names the room version it expects, and finds it.
  lemma ManagementFindsVersion(limits: Limits, board: BoardState, agent: Str, op: Operation, now: Time, messageID: Str)
    requires (op.OpGrant? || op.OpRevoke?) && Apply(limits, board, agent, op, now, messageID).1.Ok?
    ensures RecordByRoomID(board, RoomIDOf(op)).Ok?
    ensures var version := board.rooms[RecordByRoomID(board, RoomIDOf(op)).value].room.version;
            version == if op.OpGrant? then op.grant.expectedRoomVersion else op.revoke.expectedRoomVersion
  {
  }

  lemma CommittedVersion(limits: Limits, moves: seq<Move>, id: nat, ch: Choice)
    requires AdmissibleRun(limits, moves)
    requires var s := Run(limits, moves);
             && Admissible(s, Act(id, ch)) && Commits(limits, s.table, s.clients[id], ch)
             && s.clients[id].Writing? && (s.clients[id].req.GrantRequest? || s.clients[id].req.RevokeRequest?)
    ensures var s := Run(limits, moves);
            var c := s.clients[id];
            && RoomKeyOf(c.req) in s.board.rooms
            && s.board.rooms[RoomKeyOf(c.req)].room.version == c.snapshot.room.version
  {
    hide BoardCore, Matches, ClientOk, Apply, WriteAll, TransactionOf, Evolves, Step, Run, AdmissibleRun,
      SameGrant, Next, Base64Url.Encode, Commits;
    var s := Run(limits, moves);
    var c := s.clients[id];
    RunKeeps(limits, moves);
    assert ClientOk(s.board, s.revoked, s.notes[id], c);
    CommitIsOneOperation(limits, moves, id, ch);
    ManagementFindsVersion(limits, s.board, c.actor, OperationOfClient(c), ch.now, ch.messageID);
    WriterFacts(s.board, s.revoked, s.notes[id], c);
    RoomOfRequest(limits, s.board, c.req.roomID);
  }

  lemma RoomReadIsStored(limits: Limits, s: System, id: nat, ch: Choice)
    requires SystemOk(limits, s) && id in s.clients && s.clients[id].Ready?
    requires Next(limits, s, Act(id, ch)).clients[id].GotRoom?
    ensures RoomKeyOf(s.clients[id].req) in s.board.rooms
    ensures var c' := Next(limits, s, Act(id, ch)).clients[id];
            && c'.room == s.board.rooms[RoomKeyOf(s.clients[id].req)].room
            && c'.req == s.clients[id].req
  {
    hide Matches, BoardCore, ClientOk, WriteAll, Passes, CreateWrites, Base64Url.Encode, BoardAfter, AuditIDsAfter,
      RevokedAfter, NoteAfter, RacedAfter;
    ReadRoom(s.table, s.board, s.auditIDs, RoomKeyOf(s.clients[id].req));
  }

  // From the moment a client read the room until its grant or revoke commits, the whole map from agents
  // to roles is unchanged, whatever other clients did in between.
  lemma AllowlistUnchangedSinceSnapshot(limits: Limits, moves: seq<Move>, k: nat, id: nat, ch: Choice)
    requires AdmissibleRun(limits, moves) && k < |moves|
    requires moves[k].Act? && moves[k].id == id
    requires id in Run(limits, moves[..k]).clients && Run(limits, moves[..k]).clients[id].Ready?
    requires id in Run(limits, moves[..k + 1]).clients && Run(limits, moves[..k + 1]).clients[id].GotRoom?
    requires var s := Run(limits, moves);
             && Admissible(s, Act(id, ch)) && Commits(limits, s.table, s.clients[id], ch)
             && s.clients[id].Writing? && (s.clients[id].req.GrantRequest? || s.clients[id].req.RevokeRequest?)
    ensures var early, late := Run(limits, moves[..k]).board, Run(limits, moves).board;
            var roomKey := RoomKeyOf(Run(limits, moves).clients[id].req);
            && roomKey in early.rooms && roomKey in late.rooms
            && RolesOf(early.rooms[roomKey].members) == RolesOf(late.rooms[roomKey].members)
            && early.rooms[roomKey].room.version == late.rooms[roomKey].room.version
  {
    hide AdmissibleRun, SystemOk, Next, Commits, Fold, RolesOf, Base64Url.Encode, Admissible;
    var early, late := Run(limits, moves[..k]), Run(limits, moves);
    PrefixAdmissible(limits, moves, k);
    RunKeeps(limits, moves[..k]);
    assert moves[..k + 1][..k] == moves[..k];
    assert Run(limits, moves[..k + 1]) == Next(limits, early, moves[k]);
    hide Run;
    assert moves[k] == Act(id, moves[k].choice);
    RoomReadIsStored(limits, early, id, moves[k].choice);
    RunKeepsCall(limits, moves, k + 1, id);
    CommittedVersion(limits, moves, id, ch);
    AllowlistHistory(limits, moves, k, RoomKeyOf(late.clients[id].req));
  }

  // ---------------------------------------------------------------- What a grant reports

  lemma GrantVersions(
    limits: Limits, state: RoomState, roomKey: Str, agent: Str, input: GrantInput, found: Option<Membership>, now: Time)
    requires found.Some? <==> input.targetAgent in state.members
    requires found.Some? ==> state.members[input.targetAgent].role == found.value.role
    requires GrantIn(limits, state, agent, input, now).1.Ok?
    ensures var same := found.Some? && found.value.role == input.role;
            var stored := GrantIn(limits, state, agent, input, now).1.value;
            var reported := if same then found.value else GrantItem(roomKey, agent, input, found, now);
            && stored.GrantReply?
            && (reported.version == stored.member.version <==>
                found.None? || found.value.version == state.members[input.targetAgent].version)
  {
  }

  // In every run: a grant's reply is the specification's exactly when the target was absent, or its stored version
  // at commit is the one the client read. Otherwise the target has renamed itself in between - it cannot have been
  // removed, since the room version stood still - and only the reply is behind, not the stored item.
  lemma GrantReplyExact(limits: Limits, moves: seq<Move>, id: nat, ch: Choice)
    requires AdmissibleRun(limits, moves)
    requires var s := Run(limits, moves);
             && Admissible(s, Act(id, ch)) && Commits(limits, s.table, s.clients[id], ch)
             && s.clients[id].Writing? && s.clients[id].req.GrantRequest?
    ensures var s := Run(limits, moves);
            var c := s.clients[id];
            var outcome := Apply(limits, s.board, c.actor, OperationOfClient(c), ch.now, ch.messageID).1;
            && RoomKeyOf(c.req) in s.board.rooms
            && var members := s.board.rooms[RoomKeyOf(c.req)].members;
               && (c.found.Some? <==> c.req.target in members)
               && (c.found.Some? ==> c.found.value.version <= members[c.req.target].version)
               && (ReplyOf(c, ch) == outcome <==>
                   c.found.None? || c.found.value.version == members[c.req.target].version)
  {
    hide Run, AdmissibleRun, SystemOk, Commits, Apply, Base64Url.Encode, ReplyOf;
    var s := Run(limits, moves);
    RunKeeps(limits, moves);
    GrantReplyExactIn(limits, s, id, ch);
  }

  lemma GrantReplyExactIn(limits: Limits, s: System, id: nat, ch: Choice)
    requires SystemOk(limits, s) && Admissible(s, Act(id, ch)) && Commits(limits, s.table, s.clients[id], ch)
    requires s.clients[id].Writing? && s.clients[id].req.GrantRequest?
    ensures var c := s.clients[id];
            var outcome := Apply(limits, s.board, c.actor, OperationOfClient(c), ch.now, ch.messageID).1;
            && RoomKeyOf(c.req) in s.board.rooms
            && var members := s.board.rooms[RoomKeyOf(c.req)].members;
               && (c.found.Some? <==> c.req.target in members)
               && (c.found.Some? ==> c.found.value.version <= members[c.req.target].version)
               && (ReplyOf(c, ch) == outcome <==>
                   c.found.None? || c.found.value.version == members[c.req.target].version)
  {
    hide Represents, ClientsOk, OneNewPost, IndexesExact, Apply, Base64Url.Encode, GrantIn, GrantItem, ClientOk,
      Commits, ReplyOf, SameGrant, OperationOfClient;
    var c := s.clients[id];
    assert ClientOk(s.board, s.revoked, s.notes[id], c) by { ClientKnown(limits, s, id); }
    GrantAgrees(limits, s, s.notes[id], c, ch);
    WriterValid(s.board, s.revoked, s.notes[id], c);
    TargetNow(s.board, s.revoked, s.notes[id], c);
    GrantReported(c, ch);
    GrantVersions(
      limits, s.board.rooms[RoomKeyOf(c.req)], RoomKeyOf(c.req), c.actor, OperationOfClient(c).grant, c.found, ch.now);
  }

  lemma ClientKnown(limits: Limits, s: System, id: nat)
    requires SystemOk(limits, s) && id in s.clients
    ensures id in s.notes && ClientOk(s.board, s.revoked, s.notes[id], s.clients[id])
  {
    hide ClientOk;
  }

  lemma GrantAgrees(limits: Limits, s: System, note: Note, c: Client, ch: Choice)
    requires Represents(limits, s) && ClientOk(s.board, s.revoked, note, c)
    requires Commits(limits, s.table, c, ch) && c.Writing? && c.req.GrantRequest?
    ensures RoomKeyOf(c.req) in s.board.rooms && OperationOfClient(c).OpGrant?
    ensures s.board.rooms[RoomKeyOf(c.req)].room.version == c.snapshot.room.version
    ensures var outcome := Apply(limits, s.board, c.actor, OperationOfClient(c), ch.now, ch.messageID).1;
            && outcome == GrantIn(
                            limits, s.board.rooms[RoomKeyOf(c.req)], c.actor, OperationOfClient(c).grant, ch.now).1
            && outcome.Ok? && outcome.value.GrantReply?
            && ReplyOf(c, ch).Ok? && ReplyOf(c, ch).value.GrantReply?
            && (ReplyOf(c, ch) == outcome <==>
                ReplyOf(c, ch).value.member.version == outcome.value.member.version)
  {
    hide BoardCore, Matches, ClientOk, Apply, WriteAll, TransactionOf, Evolves, ReplyOf, CommittedBoard, IndexesKept,
      Base64Url.Encode, RoomCore, GrantIn, SameGrant, Commits;
    CommitStep(limits, s, note, c, ch);
    WriterFacts(s.board, s.revoked, note, c);
    WriterValid(s.board, s.revoked, note, c);
    RoomOfRequest(limits, s.board, c.req.roomID);
    ManagementFindsVersion(limits, s.board, c.actor, OperationOfClient(c), ch.now, ch.messageID);
    ApplyInRoomOf(limits, s.board, c.actor, OperationOfClient(c), ch.now, ch.messageID, RoomKeyOf(c.req));
  }

  lemma WriterValid(board: BoardState, revoked: multiset<(Str, Str)>, note: Note, c: Client)
    requires ClientOk(board, revoked, note, c) && c.Writing? && c.req.GrantRequest?
    ensures !InvalidInput(OperationOfClient(c)) && OperationOfClient(c).OpGrant?
    ensures OperationOfClient(c).grant.targetAgent == c.req.target && OperationOfClient(c).grant.role == c.req.role
  {
    hide Base64Url.Encode, SnapshotKnown, WritingKnown;
  }

  lemma TargetNow(board: BoardState, revoked: multiset<(Str, Str)>, note: Note, c: Client)
    requires ClientOk(board, revoked, note, c) && c.Writing? && c.req.GrantRequest?
    requires RoomKeyOf(c.req) in board.rooms
    requires board.rooms[RoomKeyOf(c.req)].room.version == c.snapshot.room.version
    ensures var members := board.rooms[RoomKeyOf(c.req)].members;
            && (c.found.Some? <==> c.req.target in members)
            && (c.found.Some? ==>
                  && members[c.req.target].role == c.found.value.role
                  && c.found.value.version <= members[c.req.target].version)
  {
    hide Base64Url.Encode, MemberKnown, RoomKnown, Validated, MemberOk;
  }

  lemma GrantReported(c: Client, ch: Choice)
    requires c.Writing? && c.req.GrantRequest?
    ensures var input := OperationOfClient(c).grant;
            ReplyOf(c, ch) ==
            if c.found.Some? && c.found.value.role == input.role then Ok(GrantReply(c.found.value, false))
            else Ok(GrantReply(GrantItem(RoomKeyOf(c.req), c.actor, input, c.found, ch.now), c.found.None?))
  {
    hide Base64Url.Encode, GrantItem;
  }
}
