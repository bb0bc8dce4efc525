/**
 A call that no other client disturbs answers like the handler over MemoryStore: on any reachable table, whatever
 happened before, it finishes in five steps with the outcome of one atomic operation.
 */
module UndisturbedCalls {
  import opened Bytes
  import opened Board
  import opened BoardSpec
  import opened BoardInvariant
  import opened DynamoTable
  import opened DynamoStore
  import opened Refinement
  import opened NicknameRace
  import opened Interleaving
  import opened CommitSteps
  import opened RunInvariant
  import opened SnapshotAuthorization
  import opened CommitExactly
  import Base64Url
  import Authorizer

  // n steps of one client, with nobody else acting.
  function Solo(limits: Limits, table: Table, c: Client, ch: Choice, n: nat): (Table, Client)
    decreases n
  {
    if n == 0 then (table, c)
    else
      var (table', c') := Step(limits, table, c, ch);
      Solo(limits, table', c', ch, n - 1)
  }

  lemma {:induction false} SoloFinished(limits: Limits, table: Table, c: Client, ch: Choice, n: nat)
    requires c.Finished?
    ensures Solo(limits, table, c, ch, n) == (table, c)
    decreases n
  {
    if n > 0 { SoloFinished(limits, table, c, ch, n - 1); }
  }

  lemma SoloStep(limits: Limits, table: Table, c: Client, ch: Choice, n: nat)
    requires n > 0
    ensures Solo(limits, table, c, ch, n) ==
            Solo(limits, Step(limits, table, c, ch).0, Step(limits, table, c, ch).1, ch, n - 1)
  {
  }

  predicate Reads(c: Client) {
    c.GotRoom? || c.Allowed? || c.Targeting? || c.Fetching? || (c.Ready? && !c.req.CreateRequest?)
  }

  // A reading step is ReadStep, and the client's knowledge stays true.
  lemma ReadAhead(limits: Limits, s: System, note: Note, c: Client, ch: Choice, n: nat)
    requires Represents(limits, s) && ClientOk(s.board, s.revoked, note, c) && Reads(c)
    requires ch.fault == NoFault && n > 0
    ensures Solo(limits, s.table, c, ch, n) == Solo(limits, s.table, ReadStep(s.table, c), ch, n - 1)
    ensures ClientOk(s.board, s.revoked, NoteAfter(s, c, note), ReadStep(s.table, c))
  {
    hide Represents, ClientOk, ReadStep, NoteAfter, GrantWrites, RevokeWrites, NicknameWrites, PostWrites, CreateWrites;
    QuietStepOk(limits, s, note, c, ch);
    SoloStep(limits, s.table, c, ch, n);
  }

  // ---------------------------------------------------------------- The handler's answer

  function SnapshotOf(s: System, actor: Str, req: Request): AuthSnapshot
    requires RoomKeyOf(req) in s.board.rooms
  {
    var state := s.board.rooms[RoomKeyOf(req)];
    AuthSnapshot(state.room, Current(state, actor))
  }

  predicate Allows(s: System, actor: Str, req: Request)
    requires RoomKeyOf(req) in s.board.rooms
  {
    Authorizer.Authorized(actor, ActionOf(req), SnapshotOf(s, actor, req), ContextOf(req))
  }

  // The operation of the whole call.
  function CallOperation(s: System, actor: Str, req: Request): Operation
    requires RoomKeyOf(req) in s.board.rooms
  {
    OperationOf(req, SnapshotOf(s, actor, req))
  }

  // What the handler answers over an atomic store: snapshot, authorization, operation.
  function HandlerAnswer(limits: Limits, s: System, actor: Str, req: Request, ch: Choice)
    : (BoardState, Outcome<Reply>)
  {
    if req.CreateRequest? then
      CreateRoomOp(limits, s.board, actor, CreateRoomInput(req.roomID, req.name, req.description, req.jti), ch.now)
    else if RoomKeyOf(req) !in s.board.rooms then (s.board, Err(NotFound))
    else if !Allows(s, actor, req) then (s.board, Err(Denied))
    else Apply(limits, s.board, actor, CallOperation(s, actor, req), ch.now, ch.messageID)
  }

  // The two stores report an exhausted limit under different codes.
  function TableCode(outcome: Outcome<Reply>): Outcome<Reply> {
    if outcome == Err(Error.Validation) then Err(Conflict) else outcome
  }

  ghost predicate Answers(
    limits: Limits, s: System, actor: Str, req: Request, ch: Choice, table': Table, c': Client)
  {
    var (board', outcome) := HandlerAnswer(limits, s, actor, req, ch);
    && c'.Finished?
    && c'.outcome == TableCode(outcome)
    && (outcome.Err? ==> table' == s.table)
    && exists ids :: Matches(table', board', ids)
  }

  lemma HandlerRefusalKeeps(limits: Limits, s: System, actor: Str, req: Request, ch: Choice)
    ensures HandlerAnswer(limits, s, actor, req, ch).1.Err? ==>
              HandlerAnswer(limits, s, actor, req, ch).0 == s.board
  {
    hide Apply, Allows, Base64Url.Encode, Created;
    if !req.CreateRequest? && RoomKeyOf(req) in s.board.rooms {
      RefusalChangesNothing(limits, s.board, actor, CallOperation(s, actor, req), ch.now, ch.messageID);
    }
  }

  lemma RefusedAnswer(limits: Limits, s: System, actor: Str, req: Request, ch: Choice, c': Client)
    requires Represents(limits, s) && c'.Finished?
    requires HandlerAnswer(limits, s, actor, req, ch).1.Err?
    requires c'.outcome == TableCode(HandlerAnswer(limits, s, actor, req, ch).1)
    ensures Answers(limits, s, actor, req, ch, s.table, c')
  {
    hide BoardCore, Matches, HandlerAnswer;
    HandlerRefusalKeeps(limits, s, actor, req, ch);
    assert Matches(s.table, s.board, s.auditIDs);
  }

  lemma CommittedAnswer(limits: Limits, s: System, note: Note, c: Client, ch: Choice)
    requires Represents(limits, s) && ch.fault == NoFault
    requires ClientOk(s.board, s.revoked, note, c) && c.Writing? && Commits(limits, s.table, c, ch)
    requires SpecStep(limits, s, note, c)
    requires RoomKeyOf(c.req) in s.board.rooms && Allows(s, c.actor, c.req)
    requires !c.req.CreateRequest? && c.snapshot == SnapshotOf(s, c.actor, c.req)
    requires Committable(c)
    requires ReplyOf(c, ch) == Apply(limits, s.board, c.actor, OperationOfClient(c), ch.now, ch.messageID).1
    requires ReplyOf(c, ch).Ok?
    ensures var (table', c') := Step(limits, s.table, c, ch);
            Answers(limits, s, c.actor, c.req, ch, table', c')
  {
    hide BoardCore, Matches, Apply, ClientOk, WriteAll, TransactionOf, Evolves, ReplyOf, SameGrant, Step, Allows,
      CommittedBoard, IndexesKept, SpecStep, Commits, Base64Url.Encode;
    CommitStep(limits, s, note, c, ch);
    CommittedStep(limits, s.table, c, ch);
    assert CallOperation(s, c.actor, c.req) == OperationOfClient(c);
    assert Matches(
        Step(limits, s.table, c, ch).0,
        HandlerAnswer(limits, s, c.actor, c.req, ch).0,
        AuditIDsAfter(limits, s, c, ch));
  }

  lemma CommittedStep(limits: Limits, table: Table, c: Client, ch: Choice)
    requires c.Writing? && !c.req.CreateRequest? && Committable(c) && ch.fault == NoFault
    requires Commits(limits, table, c, ch)
    ensures Step(limits, table, c, ch) ==
            (WriteAll(table, TransactionOf(limits, c, ch).value), Finished(c.actor, c.req, ReplyOf(c, ch)))
  {
    hide GrantWrites, RevokeWrites, NicknameWrites, PostWrites, GrantGuard, MemberGuard, Passes, WriteAll, ReplyOf,
      Base64Url.Encode;
  }

  // ---------------------------------------------------------------- The last step of a write

  // A grant that read the target as it is reports what is stored.
  lemma GrantReplyIsCurrent(limits: Limits, s: System, note: Note, c: Client, ch: Choice)
    requires Represents(limits, s)
    requires ClientOk(s.board, s.revoked, note, c) && c.Writing? && c.req.GrantRequest?
    requires Commits(limits, s.table, c, ch)
    requires RoomKeyOf(c.req) in s.board.rooms && ReadIsCurrent(s.board, c)
    ensures ReplyOf(c, ch) == Apply(limits, s.board, c.actor, OperationOfClient(c), ch.now, ch.messageID).1
  {
    hide Represents, ClientOk, Commits, Apply, GrantIn, GrantItem, ReplyOf, Base64Url.Encode, OperationOfClient;
    GrantAgrees(limits, s, note, c, ch);
    WriterValid(s.board, s.revoked, note, c);
    GrantReported(c, ch);
    GrantVersions(
      limits, s.board.rooms[RoomKeyOf(c.req)], RoomKeyOf(c.req), c.actor, OperationOfClient(c).grant, c.found, ch.now);
  }

  // The write of a call whose actor and target are as it read them, and are allowed.
  predicate ReadyToWrite(s: System, c: Client)
    requires c.Writing? && RoomKeyOf(c.req) in s.board.rooms
  {
    && !c.req.CreateRequest? && !c.req.PostRequest?
    && c.snapshot == SnapshotOf(s, c.actor, c.req) && Allows(s, c.actor, c.req)
    && ReadIsCurrent(s.board, c)
    && (c.req.RevokeRequest? ==> c.found.Some?)
  }

  lemma WriteAnswers(limits: Limits, s: System, note: Note, c: Client, ch: Choice)
    requires Represents(limits, s) && ch.fault == NoFault
    requires ClientOk(s.board, s.revoked, note, c) && c.Writing?
    requires RoomKeyOf(c.req) in s.board.rooms && ReadyToWrite(s, c) && FreshIDs(s, c, ch)
    requires c.req.NicknameRequest? ==> s.revoked[(RoomKeyOf(c.req), c.actor)] == note.revocations
    requires c.req.NicknameRequest? || c.req.RevokeRequest? ==> IndexExact(s.board, RoomKeyOf(c.req))
    ensures var (table', c') := Step(limits, s.table, c, ch);
            Answers(limits, s, c.actor, c.req, ch, table', c')
  {
    hide BoardCore, Matches, Apply, WriteAll, TransactionOf, Evolves, ReplyOf, SameGrant, Answers, ReadIsCurrent,
      FreshIDs, SnapshotKnown, TargetKnown, MemberKnown, MemberOk, Base64Url.Encode, Allows, CommittedBoard,
      IndexesKept, IndexExact, Step, Commits;
    CommitsExactly(limits, s, note, c, ch);
    if Commits(limits, s.table, c, ch) {
      CommitStep(limits, s, note, c, ch);
      if c.req.GrantRequest? { GrantReplyIsCurrent(limits, s, note, c, ch); }
      CommittedAnswer(limits, s, note, c, ch);
    } else {
      RefusedStep(limits, s.table, c, ch);
      RefusedCode(limits, s, note, c, ch);
      RefusedAnswer(limits, s, c.actor, c.req, ch, Step(limits, s.table, c, ch).1);
    }
  }

  lemma RefusedStep(limits: Limits, table: Table, c: Client, ch: Choice)
    requires c.Writing? && !c.req.PostRequest? && !c.req.CreateRequest? && ch.fault == NoFault
    requires !c.req.GrantRequest? ==> c.found.Some?
    requires !Commits(limits, table, c, ch)
    ensures Step(limits, table, c, ch) == (table, Fail(c, Conflict))
  {
    hide GrantWrites, RevokeWrites, NicknameWrites, GrantGuard, MemberGuard, Passes, WriteAll, Base64Url.Encode;
  }

  // All that can still refuse such a write is the member limit or a nickname that is taken.
  lemma RefusedCode(limits: Limits, s: System, note: Note, c: Client, ch: Choice)
    requires Represents(limits, s) && ClientOk(s.board, s.revoked, note, c) && c.Writing?
    requires RoomKeyOf(c.req) in s.board.rooms && ReadyToWrite(s, c)
    requires Apply(limits, s.board, c.actor, OperationOfClient(c), ch.now, ch.messageID).1.Err?
    ensures var answer := HandlerAnswer(limits, s, c.actor, c.req, ch).1;
            answer.Err? && TableCode(answer) == Err(Conflict)
  {
    hide BoardCore, Matches, Apply, Base64Url.Encode, RoomCore, MembersOk, MessagesOk, TargetKnown, MemberKnown,
      MemberOk, Authorizer.Authorized, RolesOf;
    var roomKey := RoomKeyOf(c.req);
    var state := s.board.rooms[roomKey];
    RoomOfRequest(limits, s.board, c.req.roomID);
    RoomCoreKey(limits, roomKey, state);
    CheckOfMember(state, c.actor, ActionOf(c.req), ContextOf(c.req));
    WriterOperation(c);
    ApplyInRoomOf(limits, s.board, c.actor, OperationOfClient(c), ch.now, ch.messageID, roomKey);
    RoomRefuses(limits, state, c.actor, OperationOfClient(c), ch);
  }

  lemma RoomRefuses(limits: Limits, state: RoomState, agent: Str, op: Operation, ch: Choice)
    requires !op.OpCreate? && !op.OpPost? && !state.room.archived && MembersOk(state.room, state.members)
    requires ApplyInRoom(limits, state, agent, op, ch.now, ch.messageID).1.Err?
    requires match op
             case OpGrant(input) =>
               && input.expectedRoomVersion == state.room.version
               && input.targetAgent != agent && input.targetAgent != state.room.owner
               && CheckActor(state, agent, input.actorMemberVersion, UpdateAllowList).None?
             case OpRevoke(input) =>
               && input.expectedRoomVersion == state.room.version
               && input.targetAgent != agent && input.targetAgent != state.room.owner
               && CheckActor(state, agent, input.actorMemberVersion, UpdateAllowList).None?
               && input.targetAgent in state.members
             case OpNickname(input) => CheckActor(state, agent, input.actorMemberVersion, UpdateNickname).None?
             case _ => true
    ensures var outcome := ApplyInRoom(limits, state, agent, op, ch.now, ch.messageID).1;
            outcome == Err(Error.Validation) || outcome == Err(Conflict)
  {
    if op.OpRevoke? || op.OpGrant? {
      var target := if op.OpGrant? then op.grant.targetAgent else op.revoke.targetAgent;
      assert target in state.members ==> MemberOk(state.room, target, state.members[target]);
    }
  }

  // ---------------------------------------------------------------- Reading up to the write

  lemma SnapshotIsTaken(limits: Limits, s: System, actor: Str, req: Request, ch: Choice, n: nat) returns (note: Note)
    requires Represents(limits, s) && Validated(req) && !req.CreateRequest? && ch.fault == NoFault
    requires RoomKeyOf(req) in s.board.rooms && n >= 2
    ensures var snapshot := SnapshotOf(s, actor, req);
            Solo(limits, s.table, Ready(actor, req), ch, n) ==
            if Allows(s, actor, req) then Solo(limits, s.table, Allowed(actor, req, snapshot), ch, n - 2)
            else (s.table, Finished(actor, req, Err(Denied)))
    ensures Allows(s, actor, req) ==>
              && ClientOk(s.board, s.revoked, note, Allowed(actor, req, SnapshotOf(s, actor, req)))
              && note.revocations == s.revoked[(RoomKeyOf(req), actor)]
  {
    hide Matches, BoardCore, ClientOk, Solo, Authorizer.Authorized, Base64Url.Encode, Validated, RolesOf;
    var roomKey := RoomKeyOf(req);
    var ready := Ready(actor, req);
    ReadyOk(s.board, s.revoked, actor, req);
    ReadRoom(s.table, s.board, s.auditIDs, roomKey);
    ReadAhead(limits, s, Note(map[], 0), ready, ch, n);
    var got := GotRoom(actor, req, s.board.rooms[roomKey].room);
    var note' := NoteAfter(s, ready, Note(map[], 0));
    ReadMember(s.table, s.board, s.auditIDs, roomKey, actor);
    ReadAhead(limits, s, note', got, ch, n - 1);
    note := NoteAfter(s, got, note');
    if !Allows(s, actor, req) { SoloFinished(limits, s.table, Finished(actor, req, Err(Denied)), ch, n - 2); }
  }

  // What each call still has to do after its snapshot.
  lemma NicknameFromSnapshot(limits: Limits, s: System, note: Note, actor: Str, req: Request, ch: Choice, n: nat)
    requires Represents(limits, s) && req.NicknameRequest? && ch.fault == NoFault && n >= 2
    requires RoomKeyOf(req) in s.board.rooms && Allows(s, actor, req) && IndexExact(s.board, RoomKeyOf(req))
    requires ClientOk(s.board, s.revoked, note, Allowed(actor, req, SnapshotOf(s, actor, req)))
    requires note.revocations == s.revoked[(RoomKeyOf(req), actor)]
    requires FreshAudit(s.table, RoomKeyOf(req), ch.auditID)
    requires FindMessage(s.board.rooms[RoomKeyOf(req)].messages, ch.messageID) == None
    ensures var (table', c') := Solo(limits, s.table, Allowed(actor, req, SnapshotOf(s, actor, req)), ch, n);
            Answers(limits, s, actor, req, ch, table', c')
  {
    hide Matches, BoardCore, ClientOk, Solo, Base64Url.Encode, Validated, RolesOf, Apply, Step, Answers, FreshAudit,
      FindMessage, IndexExact;
    var roomKey := RoomKeyOf(req);
    var c := Allowed(actor, req, SnapshotOf(s, actor, req));
    AllowedMember(limits, s, actor, req);
    ReadMember(s.table, s.board, s.auditIDs, roomKey, actor);
    ReadAhead(limits, s, note, c, ch, n);
    var w := Writing(actor, req, SnapshotOf(s, actor, req), Some(s.board.rooms[roomKey].members[actor]));
    WriteAnswers(limits, s, note, w, ch);
    SoloStep(limits, s.table, w, ch, n - 1);
    SoloFinishedAfter(limits, s, actor, req, ch, Step(limits, s.table, w, ch), n - 2);
  }

  lemma SoloFinishedAfter(
    limits: Limits, s: System, actor: Str, req: Request, ch: Choice, result: (Table, Client), n: nat)
    requires Answers(limits, s, actor, req, ch, result.0, result.1)
    ensures Solo(limits, result.0, result.1, ch, n) == result
  {
    hide Matches, HandlerAnswer;
    SoloFinished(limits, result.0, result.1, ch, n);
  }

  lemma AuthorizedMember(state: RoomState, actor: Str, action: Board.Action, context: Authorizer.AuthContext)
    requires MembersOk(state.room, state.members)
    requires action == UpdateNickname || action == Board.Action.PostMessage
    requires Authorizer.Authorized(actor, action, AuthSnapshot(state.room, Current(state, actor)), context)
    ensures actor in state.members && !state.room.archived
    ensures RoleCan(state.members[actor].role, action) && state.members[actor].version >= 1
  {
    assert actor in state.members ==> MemberOk(state.room, actor, state.members[actor]);
  }

  lemma AllowedMember(limits: Limits, s: System, actor: Str, req: Request)
    requires Represents(limits, s) && RoomKeyOf(req) in s.board.rooms && Allows(s, actor, req)
    requires req.NicknameRequest? || req.PostRequest?
    ensures actor in s.board.rooms[RoomKeyOf(req)].members
    ensures !s.board.rooms[RoomKeyOf(req)].room.archived
    ensures RoleCan(s.board.rooms[RoomKeyOf(req)].members[actor].role, ActionOf(req))
    ensures s.board.rooms[RoomKeyOf(req)].members[actor].version >= 1
  {
    hide Matches, Base64Url.Encode, RoomCore, MembersOk, KeysOk, QuotaCore, Authorizer.Authorized;
    var state := s.board.rooms[RoomKeyOf(req)];
    assert RoomCore(limits, RoomKeyOf(req), state);
    RoomCoreKey(limits, RoomKeyOf(req), state);
    AuthorizedMember(state, actor, ActionOf(req), ContextOf(req));
  }

  lemma TargetFromSnapshot(limits: Limits, s: System, note: Note, actor: Str, req: Request, ch: Choice, n: nat)
    requires Represents(limits, s) && (req.GrantRequest? || req.RevokeRequest?)
    requires ch.fault == NoFault && n >= 3
    requires RoomKeyOf(req) in s.board.rooms && Allows(s, actor, req) && Validated(req)
    requires req.RevokeRequest? ==> IndexExact(s.board, RoomKeyOf(req))
    requires ClientOk(s.board, s.revoked, note, Allowed(actor, req, SnapshotOf(s, actor, req)))
    requires FreshAudit(s.table, RoomKeyOf(req), ch.auditID)
    requires FindMessage(s.board.rooms[RoomKeyOf(req)].messages, ch.messageID) == None
    ensures var (table', c') := Solo(limits, s.table, Allowed(actor, req, SnapshotOf(s, actor, req)), ch, n);
            Answers(limits, s, actor, req, ch, table', c')
  {
    hide Matches, BoardCore, ClientOk, Solo, Base64Url.Encode, RolesOf, Apply, Step, Answers, FreshAudit, FindMessage,
      NoteAfter, Authorizer.Authorized, Validated, IndexExact, HandlerAnswer, Allows;
    var roomKey, snapshot := RoomKeyOf(req), SnapshotOf(s, actor, req);
    var state := s.board.rooms[roomKey];
    var c := Allowed(actor, req, snapshot);
    ReadRoom(s.table, s.board, s.auditIDs, roomKey);
    ReadAhead(limits, s, note, c, ch, n);
    if req.target == actor || req.target == state.room.owner {
      TargetRefused(limits, s, actor, req, ch);
      SoloFinished(limits, s.table, Finished(actor, req, Err(Denied)), ch, n - 1);
      RefusedAnswer(limits, s, actor, req, ch, Finished(actor, req, Err(Denied)));
    } else {
      var t := Targeting(actor, req, snapshot);
      var note' := NoteAfter(s, c, note);
      ReadMember(s.table, s.board, s.auditIDs, roomKey, req.target);
      ReadAhead(limits, s, note', t, ch, n - 1);
      if req.RevokeRequest? && req.target !in state.members {
        TargetRefused(limits, s, actor, req, ch);
        SoloFinished(limits, s.table, Finished(actor, req, Err(NotFound)), ch, n - 2);
        RefusedAnswer(limits, s, actor, req, ch, Finished(actor, req, Err(NotFound)));
      } else {
        var w := Writing(actor, req, snapshot, Current(state, req.target));
        WriteAnswers(limits, s, NoteAfter(s, t, note'), w, ch);
        SoloStep(limits, s.table, w, ch, n - 2);
        SoloFinishedAfter(limits, s, actor, req, ch, Step(limits, s.table, w, ch), n - 3);
      }
    }
  }

  // Nobody changes their own role or the owner's, and only a member can be removed.
  lemma TargetRefused(limits: Limits, s: System, actor: Str, req: Request, ch: Choice)
    requires Represents(limits, s) && (req.GrantRequest? || req.RevokeRequest?) && Validated(req)
    requires RoomKeyOf(req) in s.board.rooms && Allows(s, actor, req)
    ensures var state, answer := s.board.rooms[RoomKeyOf(req)], HandlerAnswer(limits, s, actor, req, ch).1;
            && (req.target == actor || req.target == state.room.owner ==> answer == Err(Denied))
            && ((req.RevokeRequest? && req.target != actor && req.target != state.room.owner
                 && req.target !in state.members) ==> answer == Err(NotFound))
  {
    hide Matches, BoardCore, Base64Url.Encode, Apply, RoomCore, MembersOk, MessagesOk, Authorizer.Authorized, Granted,
      GrantedMember, CheckActor;
    var roomKey := RoomKeyOf(req);
    RoomOfRequest(limits, s.board, req.roomID);
    RoomCoreKey(limits, roomKey, s.board.rooms[roomKey]);
    CheckOfMember(s.board.rooms[roomKey], actor, ActionOf(req), ContextOf(req));
    ApplyInRoomOf(limits, s.board, actor, CallOperation(s, actor, req), ch.now, ch.messageID, roomKey);
  }

  // ---------------------------------------------------------------- Posts

  lemma MemberPasses(state: RoomState, agent: Str, action: Board.Action)
    requires agent in state.members && RoleCan(state.members[agent].role, action)
    ensures CheckActor(state, agent, state.members[agent].version, action).None?
  {
  }

  lemma PostSucceedsNow(limits: Limits, s: System, actor: Str, req: Request, ch: Choice)
    requires Represents(limits, s) && req.PostRequest? && Validated(req)
    requires RoomKeyOf(req) in s.board.rooms && Allows(s, actor, req)
    ensures var state := s.board.rooms[RoomKeyOf(req)];
            var input := CallOperation(s, actor, req).post;
            var (board', outcome) := HandlerAnswer(limits, s, actor, req, ch);
            && input.actorMemberVersion >= 1
            && CheckActor(state, actor, input.actorMemberVersion, Board.Action.PostMessage).None?
            && !state.room.archived
            && outcome == PostIn(state, actor, input, ch.now, ch.messageID).1
            && (board', outcome) == Apply(limits, s.board, actor, CallOperation(s, actor, req), ch.now, ch.messageID)
            && board' == s.board.(rooms := s.board.rooms[RoomKeyOf(req) :=
                                  PostIn(state, actor, input, ch.now, ch.messageID).0])
  {
    hide Matches, BoardCore, Base64Url.Encode, PostIn, Allows, CheckActor, Apply, RoomCore;
    AllowedMember(limits, s, actor, req);
    MemberPasses(s.board.rooms[RoomKeyOf(req)], actor, Board.Action.PostMessage);
    RoomOfRequest(limits, s.board, req.roomID);
    ApplyInRoomOf(
      limits, s.board, actor, CallOperation(s, actor, req), ch.now, ch.messageID, RoomKeyOf(req));
  }

  lemma NewPostFromSnapshot(limits: Limits, s: System, note: Note, actor: Str, req: Request, ch: Choice, n: nat)
    requires Represents(limits, s) && req.PostRequest? && ch.fault == NoFault && n >= 2
    requires RoomKeyOf(req) in s.board.rooms && Allows(s, actor, req) && Validated(req)
    requires ClientOk(s.board, s.revoked, note, Allowed(actor, req, SnapshotOf(s, actor, req)))
    requires FreshAudit(s.table, RoomKeyOf(req), ch.auditID)
    requires FindMessage(s.board.rooms[RoomKeyOf(req)].messages, ch.messageID) == None
    requires IdempotencyKeyOf(actor, req.idempotencyKey) !in s.board.rooms[RoomKeyOf(req)].idempotency
    ensures var (table', c') := Solo(limits, s.table, Allowed(actor, req, SnapshotOf(s, actor, req)), ch, n);
            Answers(limits, s, actor, req, ch, table', c')
  {
    hide Matches, BoardCore, ClientOk, Solo, Base64Url.Encode, RolesOf, Apply, Step, Answers, FreshAudit, FindMessage,
      NoteAfter, Authorizer.Authorized, Validated, IdempotencyKeyOf, CheckActor, Posted, PostMessageItem, Allows,
      HandlerAnswer, CommittedBoard, IndexesKept;
    var roomKey, snapshot := RoomKeyOf(req), SnapshotOf(s, actor, req);
    var c := Allowed(actor, req, snapshot);
    var key := IdempotencyKeyOf(actor, req.idempotencyKey);
    PostSucceedsNow(limits, s, actor, req, ch);
    ReadRecord(s.table, s.board, s.auditIDs, roomKey, key);
    ReadAhead(limits, s, note, c, ch, n);
    var note' := NoteAfter(s, c, note);
    var w := Writing(actor, req, snapshot, None);
    CommitsExactly(limits, s, note', w, ch);
    CommitStep(limits, s, note', w, ch);
    CommittedAnswer(limits, s, note', w, ch);
    SoloStep(limits, s.table, w, ch, n - 1);
    SoloFinishedAfter(limits, s, actor, req, ch, Step(limits, s.table, w, ch), n - 2);
  }

  lemma ReplayFromSnapshot(limits: Limits, s: System, note: Note, actor: Str, req: Request, ch: Choice, n: nat)
    requires Represents(limits, s) && req.PostRequest? && ch.fault == NoFault && n >= 3
    requires RoomKeyOf(req) in s.board.rooms && Allows(s, actor, req) && Validated(req)
    requires ClientOk(s.board, s.revoked, note, Allowed(actor, req, SnapshotOf(s, actor, req)))
    requires IdempotencyKeyOf(actor, req.idempotencyKey) in s.board.rooms[RoomKeyOf(req)].idempotency
    ensures var (table', c') := Solo(limits, s.table, Allowed(actor, req, SnapshotOf(s, actor, req)), ch, n);
            Answers(limits, s, actor, req, ch, table', c')
  {
    hide Matches, BoardCore, ClientOk, Solo, Base64Url.Encode, RolesOf, Apply, Answers, FindMessage, MemberGuard,
      PostIn, NoteAfter, Authorizer.Authorized, Validated, IdempotencyKeyOf, CheckActor, RoomCore, MessagesOk,
      RoomMatches, Allows, Passes, WriteAll, MembersOk, Step, HandlerAnswer;
    var roomKey, snapshot := RoomKeyOf(req), SnapshotOf(s, actor, req);
    var state, op := s.board.rooms[roomKey], CallOperation(s, actor, req);
    var c := Allowed(actor, req, snapshot);
    var key := IdempotencyKeyOf(actor, req.idempotencyKey);
    var record := state.idempotency[key];
    PostSucceedsNow(limits, s, actor, req, ch);
    RoomRepresented(s.table, s.board, s.auditIDs, roomKey);
    RoomOfRequest(limits, s.board, req.roomID);
    RoomCoreKey(limits, roomKey, state);
    ReplaySucceeds(state, roomKey, actor, op.post, ch.now, ch.messageID);
    ReplayExactly(s.table, roomKey, state, s.auditIDs[roomKey], actor, op.post, ch.now, ch.messageID);
    MemberGuardCommit(
      s.table, roomKey, state, s.auditIDs[roomKey], actor, op.post.actorMemberVersion, Board.Action.PostMessage);
    ReadRecord(s.table, s.board, s.auditIDs, roomKey, key);
    ReadAhead(limits, s, note, c, ch, n);
    var r := Replaying(actor, req, snapshot, record);
    SoloStep(limits, s.table, r, ch, n - 1);
    ReplayStepIs(limits, s.table, r, ch);
    if record.requestHash == req.requestHash {
      var f := Fetching(actor, req, snapshot, record);
      ReadMessage(s.table, s.board, s.auditIDs, roomKey, record.messageID);
      SoloStep(limits, s.table, f, ch, n - 2);
      FetchStepIs(limits, s.table, f, ch);
      var done := Finished(actor, req, Ok(PostReply(FindMessage(state.messages, record.messageID).value, true)));
      SoloFinished(limits, s.table, done, ch, n - 3);
      RepliedAnswer(limits, s, actor, req, ch, done);
    } else {
      var done := Finished(actor, req, Err(IdempotencyConflict));
      SoloFinished(limits, s.table, done, ch, n - 2);
      RepliedAnswer(limits, s, actor, req, ch, done);
    }
  }

  lemma ReplayStepIs(limits: Limits, table: Table, r: Client, ch: Choice)
    requires r.Replaying? && r.req.PostRequest? && ch.fault == NoFault
    requires var writes := MemberGuard(RoomKeyOf(r.req), r.actor, ActorVersion(r.snapshot), Board.Action.PostMessage);
             Passes(table, writes) && WriteAll(table, writes) == table
    ensures Step(limits, table, r, ch) ==
            (table, if r.record.requestHash == r.req.requestHash then Fetching(r.actor, r.req, r.snapshot, r.record)
                    else Finished(r.actor, r.req, Err(IdempotencyConflict)))
  {
    hide MemberGuard, Passes, WriteAll, Base64Url.Encode;
  }

  lemma FetchStepIs(limits: Limits, table: Table, f: Client, ch: Choice)
    requires f.Fetching? && ch.fault == NoFault
    ensures Step(limits, table, f, ch) == (table, ReadStep(table, f))
  {
    hide ReadStep;
  }

  // A replay changes nothing, and its answer is the specification's.
  lemma RepliedAnswer(limits: Limits, s: System, actor: Str, req: Request, ch: Choice, done: Client)
    requires Represents(limits, s) && req.PostRequest? && Validated(req)
    requires RoomKeyOf(req) in s.board.rooms && Allows(s, actor, req)
    requires IdempotencyKeyOf(actor, req.idempotencyKey) in s.board.rooms[RoomKeyOf(req)].idempotency
    requires done.Finished? && done.outcome == HandlerAnswer(limits, s, actor, req, ch).1
    requires done.outcome != Err(Error.Validation)
    ensures Answers(limits, s, actor, req, ch, s.table, done)
  {
    hide Matches, BoardCore, Base64Url.Encode, IdempotencyKeyOf, PostIn, HandlerAnswer, Allows, Validated, CheckActor;
    PostSucceedsNow(limits, s, actor, req, ch);
    var roomKey := RoomKeyOf(req);
    RecordedPostKeeps(
      s.board.rooms[roomKey], actor, CallOperation(s, actor, req).post, ch.now, ch.messageID);
    assert s.board.rooms[roomKey := s.board.rooms[roomKey]] == s.board.rooms;
    assert Matches(s.table, s.board, s.auditIDs);
  }

  lemma RecordedPostKeeps(state: RoomState, agent: Str, input: PostInput, now: Time, messageID: Str)
    requires IdempotencyKeyOf(agent, input.idempotencyKey) in state.idempotency
    ensures PostIn(state, agent, input, now, messageID).0 == state
  {
    hide FindMessage, IdempotencyKeyOf, CheckActor;
  }

  // ---------------------------------------------------------------- Creations and unknown rooms

  lemma CreateCall(limits: Limits, s: System, actor: Str, req: Request, ch: Choice, n: nat)
    requires Represents(limits, s) && req.CreateRequest? && ch.fault == NoFault && n >= 1
    requires Positive(limits) || actor in s.board.quotas || req.roomID in s.board.roomKeys
    ensures var (table', c') := Solo(limits, s.table, Ready(actor, req), ch, n);
            Answers(limits, s, actor, req, ch, table', c')
  {
    hide Matches, BoardCore, Base64Url.Encode, CreateWrites, Passes, WriteAll, NewRoom, Created, Solo;
    var input := CreateRoomInput(req.roomID, req.name, req.description, req.jti);
    var c := Ready(actor, req);
    CreateConditions(limits, s.table, s.board, s.auditIDs, actor, input, ch.now, ch.auditID);
    CreateAgreesExactly(limits, s.table, s.board, s.auditIDs, actor, input, ch.now, ch.auditID);
    SoloStep(limits, s.table, c, ch, n);
    var (table', c') := Step(limits, s.table, c, ch);
    if Commits(limits, s.table, c, ch) {
      CreateCommits(limits, s, actor, input, ch);
    } else {
      RefusedAnswer(limits, s, actor, req, ch, c');
    }
    SoloFinished(limits, table', c', ch, n - 1);
  }

  lemma CreateCommits(limits: Limits, s: System, actor: Str, input: CreateRoomInput, ch: Choice)
    requires Represents(limits, s)
    requires Passes(s.table, CreateWrites(limits, actor, input, ch.now, ch.auditID))
    ensures exists ids ::
              Matches(
                WriteAll(s.table, CreateWrites(limits, actor, input, ch.now, ch.auditID)),
                Created(s.board, actor, input, ch.now), ids)
  {
    hide Matches, RoomCore, QuotaCore, Base64Url.Encode, CreateWrites, Passes, WriteAll, NewRoom, Created, KeysOk;
    CreateCommit(limits, s.table, s.board, s.auditIDs, actor, input, ch.now, ch.auditID);
  }

  lemma UnknownRoomCall(limits: Limits, s: System, actor: Str, req: Request, ch: Choice, n: nat)
    requires Represents(limits, s) && !req.CreateRequest? && Validated(req) && ch.fault == NoFault && n >= 1
    requires RoomKeyOf(req) !in s.board.rooms
    ensures var (table', c') := Solo(limits, s.table, Ready(actor, req), ch, n);
            Answers(limits, s, actor, req, ch, table', c') && c'.outcome == Err(NotFound)
  {
    hide Matches, BoardCore, Base64Url.Encode, Validated, Solo;
    ReadyOk(s.board, s.revoked, actor, req);
    ReadRoom(s.table, s.board, s.auditIDs, RoomKeyOf(req));
    ReadAhead(limits, s, Note(map[], 0), Ready(actor, req), ch, n);
    SoloFinished(limits, s.table, Finished(actor, req, Err(NotFound)), ch, n - 1);
    RefusedAnswer(limits, s, actor, req, ch, Finished(actor, req, Err(NotFound)));
  }

  // ---------------------------------------------------------------- The whole call

  // Where the table's own conditions decide like the specification: nickname changes and revocations need the room's
  // nickname index to be exact, a first room needs a limit of at least one.
  ghost predicate Decidable(limits: Limits, s: System, actor: Str, req: Request) {
    match req
    case CreateRequest(roomID, _, _, _) =>
      Positive(limits) || actor in s.board.quotas || roomID in s.board.roomKeys
    case NicknameRequest(_, _, _) => IndexExact(s.board, RoomKeyOf(req))
    case RevokeRequest(_, _, _) => IndexExact(s.board, RoomKeyOf(req))
    case _ => true
  }

  ghost predicate FreshChoice(s: System, req: Request, ch: Choice) {
    RoomKeyOf(req) in s.board.rooms ==>
      && FreshAudit(s.table, RoomKeyOf(req), ch.auditID)
      && FindMessage(s.board.rooms[RoomKeyOf(req)].messages, ch.messageID) == None
  }

  // On any table a run can reach, a call that runs undisturbed finishes within five steps with the answer the handler
  // would give over an atomic store - the same reply or, but for the code of an exhausted limit, the same error - and
  // leaves a table that represents the operation's new board.
  lemma UndisturbedCall(limits: Limits, s: System, actor: Str, req: Request, ch: Choice)
    requires SystemOk(limits, s) && Validated(req) && ch.fault == NoFault
    requires Decidable(limits, s, actor, req) && FreshChoice(s, req, ch)
    ensures var (table', c') := Solo(limits, s.table, Ready(actor, req), ch, 5);
            Answers(limits, s, actor, req, ch, table', c')
  {
    hide Represents, Solo, Answers, Allows, ClientOk, ClientsOk, OneNewPost, Base64Url.Encode, Apply, Validated,
      FindMessage, FreshAudit, IdempotencyKeyOf, IndexExact, IndexesExact, CallOperation;
    if req.CreateRequest? {
      CreateCall(limits, s, actor, req, ch, 5);
    } else if RoomKeyOf(req) !in s.board.rooms {
      UnknownRoomCall(limits, s, actor, req, ch, 5);
    } else {
      var note := SnapshotIsTaken(limits, s, actor, req, ch, 5);
      if !Allows(s, actor, req) {
        RefusedAnswer(limits, s, actor, req, ch, Finished(actor, req, Err(Denied)));
      } else {
        match req
        case NicknameRequest(_, _, _) => NicknameFromSnapshot(limits, s, note, actor, req, ch, 3);
        case PostRequest(_, _, key, _) =>
          if IdempotencyKeyOf(actor, key) in s.board.rooms[RoomKeyOf(req)].idempotency {
            ReplayFromSnapshot(limits, s, note, actor, req, ch, 3);
          } else {
            NewPostFromSnapshot(limits, s, note, actor, req, ch, 3);
          }
        case GrantRequest(_, _, _, _) => TargetFromSnapshot(limits, s, note, actor, req, ch, 3);
        case RevokeRequest(_, _, _) => TargetFromSnapshot(limits, s, note, actor, req, ch, 3);
        case CreateRequest(_, _, _, _) =>
      }
    }
  }

  // And on every reachable table that holds for every call, in every room where no disturbed nickname change has
  // committed.
  lemma ReachableCallsAnswer(limits: Limits, moves: seq<Move>, actor: Str, req: Request, ch: Choice)
    requires AdmissibleRun(limits, moves) && Validated(req) && ch.fault == NoFault
    requires var s := Run(limits, moves);
             && FreshChoice(s, req, ch)
             && (req.NicknameRequest? || req.RevokeRequest? ==> RoomKeyOf(req) !in s.raced)
             && (req.CreateRequest? ==> Positive(limits) || actor in s.board.quotas || req.roomID in s.board.roomKeys)
    ensures var s := Run(limits, moves);
            var (table', c') := Solo(limits, s.table, Ready(actor, req), ch, 5);
            Answers(limits, s, actor, req, ch, table', c')
  {
    hide Represents, ClientsOk, OneNewPost, Run, AdmissibleRun, Solo, Answers, Validated, FreshChoice,
      Base64Url.Encode, IndexExact;
    RunKeeps(limits, moves);
    UndisturbedCall(limits, Run(limits, moves), actor, req, ch);
  }
}
