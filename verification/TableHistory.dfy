/** What stays in the table over whole runs, and what a finished client's answer says about its request. */
module TableHistory {
  import opened Bytes
  import opened Board
  import opened BoardSpec
  import opened BoardEffects
  import opened BoardInvariant
  import opened DynamoTable
  import opened DynamoStore
  import opened Refinement
  import opened Interleaving
  import opened CommitSteps
  import opened RunInvariant
  import opened TableEffects
  import Base64Url
  import BoardTheorems
  import SnapshotAuthorization
  import Authorizer

  // ---------------------------------------------------------------- Room texts

  predicate TextKept(table: Table, table': Table, roomKey: Str) {
    GetRoom(table, roomKey).Some? ==>
      GetRoom(table', roomKey).Some? && SameText(GetRoom(table, roomKey).value, GetRoom(table', roomKey).value)
  }

  lemma ClientTarget(limits: Limits, s: System, id: nat)
    requires SystemOk(limits, s) && id in s.clients
    ensures Validated(s.clients[id].req)
    ensures var c := s.clients[id];
            && (c.Writing? ==> !c.req.CreateRequest? && c.snapshot.membership.Some?)
            && (c.Writing? && (c.req.GrantRequest? || c.req.RevokeRequest?) ==> c.req.target != c.actor)
            && (c.Writing? && !c.req.GrantRequest? && !c.req.PostRequest? ==> c.found.Some?)
  {
    hide Represents, OneNewPost, IndexesExact, Validated, RoomKnown, MemberKnown, TargetKnown;
    SnapshotAuthorization.ClientKnown(limits, s, id);
  }

  lemma StepKeepsText(limits: Limits, s: System, id: nat, ch: Choice, roomKey: Str)
    requires SystemOk(limits, s) && id in s.clients && Commits(limits, s.table, s.clients[id], ch)
    ensures TextKept(s.table, Step(limits, s.table, s.clients[id], ch).0, roomKey)
  {
    hide SystemOk, Step, Base64Url.Encode, AuditAdded, TargetGranted, TargetRemoved, MessageSays, RoomSays, EntrySays,
      Passes;
    ClientTarget(limits, s, id);
    var c := s.clients[id];
    if OnlyGuards(c) {
      GuardStores(limits, s.table, c, ch);
    } else if c.Ready? {
      CreateStored(limits, s.table, c, ch);
    } else {
      match c.req
      case GrantRequest(_, _, _, _) => GrantStored(limits, s.table, c, ch);
      case RevokeRequest(_, _, _) => RevokeStored(limits, s.table, c, ch);
      case NicknameRequest(_, _, _) => NicknameStored(limits, s.table, c, ch);
      case PostRequest(_, _, _, _) => PostStored(limits, s.table, c, ch);
    }
  }

  lemma NextTable(limits: Limits, s: System, id: nat, ch: Choice)
    requires id in s.clients && id in s.notes
    ensures var (table', c') := Step(limits, s.table, s.clients[id], ch);
            var s' := Next(limits, s, Act(id, ch));
            s'.table == table' && s'.clients == s.clients[id := c']
    ensures !Commits(limits, s.table, s.clients[id], ch) ==> Step(limits, s.table, s.clients[id], ch).0 == s.table
  {
    if !Commits(limits, s.table, s.clients[id], ch) { BoardTheorems.QuietTable(limits, s.table, s.clients[id], ch); }
    hide Step, Commits;
  }

  // A room, once there, stays there with the name, description, owner and creation time it was created with.
  lemma {:induction false} RoomTextStays(limits: Limits, moves: seq<Move>, k: nat, roomKey: Str)
    requires AdmissibleRun(limits, moves) && k <= |moves|
    ensures TextKept(Run(limits, moves[..k]).table, Run(limits, moves).table, roomKey)
    decreases |moves|
  {
    if k == |moves| {
      assert moves[..k] == moves;
    } else {
      hide Next, SystemOk, Admissible;
      var earlier, move := moves[..|moves| - 1], moves[|moves| - 1];
      assert earlier[..k] == moves[..k];
      RoomTextStays(limits, earlier, k, roomKey);
      RunKeeps(limits, earlier);
      MoveKeepsText(limits, Run(limits, earlier), move, roomKey);
    }
  }

  lemma MoveKeepsText(limits: Limits, s: System, move: Move, roomKey: Str)
    requires SystemOk(limits, s) && Admissible(s, move)
    ensures TextKept(s.table, Next(limits, s, move).table, roomKey)
  {
    hide SystemOk, GetRoom, Step, Commits;
    if move.Act? {
      NextTable(limits, s, move.id, move.choice);
      if Commits(limits, s.table, s.clients[move.id], move.choice) {
        StepKeepsText(limits, s, move.id, move.choice, roomKey);
      }
    }
  }

  // ---------------------------------------------------------------- Answers

  predicate GrantSays(member: Membership, req: Request)
    requires req.GrantRequest?
  {
    && member.agent == req.target && member.role == req.role && member.capabilities == Capabilities(req.role)
    && member.roomID == req.roomID && member.roomKey == Base64Url.Encode(req.roomID)
  }

  // A message answered to a post: stored under its key for its hash; and if it is new, its own words.
  predicate PostSays(message: Message, replay: bool, actor: Str, req: Request)
    requires req.PostRequest?
  {
    && message.roomID == req.roomID && message.roomKey == Base64Url.Encode(req.roomID)
    && message.requestHash == req.requestHash
    && message.author + [HASH] + message.idempotencyKey == actor + [HASH] + req.idempotencyKey
    && (!replay ==> message.author == actor && message.idempotencyKey == req.idempotencyKey && message.body == req.body)
  }

  // A success answers its own request.
  predicate ReplySays(c: Client)
    requires c.Finished? && c.outcome.Ok?
  {
    var reply := c.outcome.value;
    match c.req
    case CreateRequest(_, _, _, _) =>
      && reply.RoomReply?
      && RoomSays(reply.room, c.actor, c.req.roomID, c.req.name, c.req.description, reply.room.createdAt)
    case GrantRequest(_, _, _, _) => reply.GrantReply? && GrantSays(reply.member, c.req)
    case RevokeRequest(_, _, _) => reply.RevokeReply?
    case NicknameRequest(_, nickname, key) =>
      reply.NicknameReply? && reply.profile.nickname == nickname && reply.profile.nicknameKey == key
    case PostRequest(_, _, _, _) => reply.PostReply? && PostSays(reply.message, reply.replay, c.actor, c.req)
  }

  lemma GrantRead(limits: Limits, s: System, id: nat)
    requires SystemOk(limits, s) && id in s.clients
    requires s.clients[id].Writing? && s.clients[id].req.GrantRequest? && s.clients[id].found.Some?
    ensures var c := s.clients[id];
            var m := c.found.value;
            && m.agent == c.req.target && m.roomID == c.req.roomID && m.roomKey == Base64Url.Encode(c.req.roomID)
            && m.capabilities == Capabilities(m.role)
  {
    hide BoardCore, Matches, ClientsOk, OneNewPost, IndexesExact, Base64Url.Encode, MemberKnown, TargetKnown, Validated,
      RoomCore, RolesOf;
    var c := s.clients[id];
    SnapshotAuthorization.ClientKnown(limits, s, id);
    RoomOfRequest(limits, s.board, c.req.roomID);
    RoomCoreKey(limits, RoomKeyOf(c.req), s.board.rooms[RoomKeyOf(c.req)]);
  }

  lemma CommitReplySays(limits: Limits, s: System, id: nat, ch: Choice)
    requires SystemOk(limits, s) && id in s.clients && Commits(limits, s.table, s.clients[id], ch)
    ensures var c' := Step(limits, s.table, s.clients[id], ch).1;
            c'.Finished? && c'.outcome.Ok? ==> ReplySays(c')
  {
    hide SystemOk, Base64Url.Encode, Commits, Step, OnlyChanges, AuditAdded, TargetGranted, TargetRemoved,
      MetaBumped, Capabilities;
    ClientTarget(limits, s, id);
    var c := s.clients[id];
    var c' := Step(limits, s.table, c, ch).1;
    MayCommit(limits, s.table, c, ch);
    CommitAnswers(limits, s.table, c, ch);
    if c.Ready? {
      CreateStored(limits, s.table, c, ch);
    } else if c.Writing? && c'.Finished? && c'.outcome.Ok? {
      match c.req
      case GrantRequest(_, _, _, _) =>
        if c.found.Some? { GrantRead(limits, s, id); }
        GrantReplied(limits, s.table, c, ch);
      case RevokeRequest(_, _, _) => RevokeStored(limits, s.table, c, ch);
      case NicknameRequest(_, _, _) =>
        if OnlyGuards(c) { GuardedNickname(limits, s.table, c, ch); } else { NicknameStored(limits, s.table, c, ch); }
      case PostRequest(_, _, _, _) => PostStored(limits, s.table, c, ch);
    }
  }

  lemma MayCommit(limits: Limits, table: Table, c: Client, ch: Choice)
    requires Commits(limits, table, c, ch)
    ensures c.Replaying? || c.Writing? || (c.Ready? && c.req.CreateRequest?)
  {
  }

  lemma CommitAnswers(limits: Limits, table: Table, c: Client, ch: Choice)
    requires Commits(limits, table, c, ch) && Committable(c) && !(c.Writing? && c.req.CreateRequest?)
    ensures var c' := Step(limits, table, c, ch).1;
            && c'.actor == c.actor && c'.req == c.req
            && (c'.Finished? && c'.outcome.Ok? ==> ch.fault != ReplyLost && !c.Replaying?)
  {
    hide Passes, WriteAll, TransactionOf, ReplyOf;
  }

  lemma GuardedNickname(limits: Limits, table: Table, c: Client, ch: Choice)
    requires c.Writing? && c.req.NicknameRequest? && OnlyGuards(c) && Commits(limits, table, c, ch)
    requires ch.fault != ReplyLost
    ensures Step(limits, table, c, ch).1 == Finished(c.actor, c.req, Ok(NicknameReply(c.found.value)))
  {
    hide Base64Url.Encode, WriteAll, Passes, MemberGuard;
    CommittedTable(limits, table, c, ch);
  }

  // The message a replay fetches is the one stored under its slot.
  lemma FetchSays(limits: Limits, s: System, id: nat)
    requires SystemOk(limits, s) && id in s.clients && s.clients[id].Fetching?
    ensures var c := s.clients[id];
            && c.req.PostRequest?
            && var message := GetMessage(s.table, Base64Url.Encode(c.req.roomID), c.record.messageID);
               message.Some? ==> PostSays(message.value, true, c.actor, c.req)
  {
    hide BoardCore, Matches, ClientsOk, OneNewPost, IndexesExact, Base64Url.Encode, GetMessage, Validated, RoomCore,
      MessagesOk;
    var c := s.clients[id];
    SnapshotAuthorization.ClientKnown(limits, s, id);
    var roomKey, key := RoomKeyOf(c.req), IdempotencyKeyOf(c.actor, c.req.idempotencyKey);
    var state := s.board.rooms[roomKey];
    ReadMessage(s.table, s.board, s.auditIDs, roomKey, c.record.messageID);
    RoomOfRequest(limits, s.board, c.req.roomID);
    RoomCoreKey(limits, roomKey, state);
    if GetMessage(s.table, roomKey, c.record.messageID).Some? {
      SlotMessage(c.req.roomID, roomKey, state, key);
    }
  }

  lemma SlotMessage(roomID: Str, roomKey: Str, state: RoomState, key: Str)
    requires MessagesOk(roomID, roomKey, state.messages, state.idempotency) && key in state.idempotency
    requires FindMessage(state.messages, state.idempotency[key].messageID).Some?
    ensures var message := FindMessage(state.messages, state.idempotency[key].messageID).value;
            && message.roomID == roomID && message.roomKey == roomKey
            && message.requestHash == state.idempotency[key].requestHash
            && message.author + [HASH] + message.idempotencyKey == key
  {
    var i := FoundIsHeld(state.messages, state.idempotency[key].messageID);
    assert state.messages[i] in state.messages;
    assert MessageIndexed(state.idempotency, state.messages[i]);
  }

  lemma QuietReplySays(limits: Limits, s: System, id: nat, ch: Choice)
    requires SystemOk(limits, s) && id in s.clients && !s.clients[id].Finished?
    requires !Commits(limits, s.table, s.clients[id], ch)
    ensures var c' := Step(limits, s.table, s.clients[id], ch).1;
            c'.Finished? && c'.outcome.Ok? ==> ReplySays(c')
  {
    hide SystemOk, Base64Url.Encode, PostSays, GetMessage, GetRoom, GetMember, GetIdempotency;
    OnlyFetchesSucceed(limits, s.table, s.clients[id], ch);
    if s.clients[id].Fetching? { FetchSays(limits, s, id); }
    hide Step, Commits;
  }

  lemma OnlyFetchesSucceed(limits: Limits, table: Table, c: Client, ch: Choice)
    requires !c.Finished? && !Commits(limits, table, c, ch)
    ensures var c' := Step(limits, table, c, ch).1;
            c'.Finished? && c'.outcome.Ok? ==>
              && c.Fetching? && c'.actor == c.actor && c'.req == c.req
              && var message := GetMessage(table, Base64Url.Encode(c.req.roomID), c.record.messageID);
                 message.Some? && c'.outcome == Ok(PostReply(message.value, true))
  {
    hide Passes, WriteAll, CreateWrites, GrantWrites, GrantGuard, RevokeWrites, NicknameWrites, PostWrites, MemberGuard,
      Base64Url.Encode, Authorizer.Authorized, GetRoom, GetMember, GetIdempotency, GetMessage;
  }

  // In every run, whatever else happened: a client that was told of success was told about its own request.
  lemma {:induction false} AnswersSay(limits: Limits, moves: seq<Move>, id: nat)
    requires AdmissibleRun(limits, moves) && id in Run(limits, moves).clients
    ensures var c := Run(limits, moves).clients[id];
            c.Finished? && c.outcome.Ok? ==> ReplySays(c)
  {
    hide SystemOk, ReplySays, Step, Commits, BoardAfter, AuditIDsAfter, RevokedAfter, RacedAfter, NoteAfter, Validated;
    if moves != [] {
      var earlier, move := moves[..|moves| - 1], moves[|moves| - 1];
      var s := Run(limits, earlier);
      if move.Act? && move.id == id {
        RunKeeps(limits, earlier);
        if s.clients[id].Finished? {
          StepOfFinished(limits, s.table, s.clients[id], move.choice);
          AnswersSay(limits, earlier, id);
        } else if Commits(limits, s.table, s.clients[id], move.choice) {
          CommitReplySays(limits, s, id, move.choice);
        } else {
          QuietReplySays(limits, s, id, move.choice);
        }
      } else if id in s.clients {
        AnswersSay(limits, earlier, id);
      }
    }
  }

  lemma StepOfFinished(limits: Limits, table: Table, c: Client, ch: Choice)
    requires c.Finished?
    ensures Step(limits, table, c, ch) == (table, c)
  {
  }

  // The message a successful post was answered with is in the table, under its ID, and named by its slot's record.
  lemma PostedIsStored(limits: Limits, moves: seq<Move>, id: nat)
    requires AdmissibleRun(limits, moves) && id in Run(limits, moves).clients
    requires var c := Run(limits, moves).clients[id];
             c.Finished? && c.outcome.Ok? && c.outcome.value.PostReply?
    ensures var s := Run(limits, moves);
            var c := s.clients[id];
            var message := c.outcome.value.message;
            && c.req.PostRequest? && PostSays(message, c.outcome.value.replay, c.actor, c.req)
            && var roomKey := Base64Url.Encode(c.req.roomID);
               && GetMessage(s.table, roomKey, message.messageID) == Some(message)
               && GetIdempotency(s.table, roomKey, c.actor + [HASH] + c.req.idempotencyKey)
                  == Some(Idempotency(c.req.requestHash, message.messageID))
  {
    hide Run, AdmissibleRun, BoardCore, Matches, ClientsOk, OneNewPost, IndexesExact, Base64Url.Encode, GetMessage,
      GetIdempotency, Validated, PostSays;
    AnswersSay(limits, moves, id);
    RunKeeps(limits, moves);
    var s := Run(limits, moves);
    var c := s.clients[id];
    SnapshotAuthorization.ClientKnown(limits, s, id);
    ReadMessage(s.table, s.board, s.auditIDs, RoomKeyOf(c.req), c.outcome.value.message.messageID);
    ReadRecord(s.table, s.board, s.auditIDs, RoomKeyOf(c.req), IdempotencyKeyOf(c.actor, c.req.idempotencyKey));
  }

  // A room a successful creation was answered with is in the table, with the text its creator asked for.
  lemma {:induction false} CreatedIsStored(limits: Limits, moves: seq<Move>, id: nat)
    requires AdmissibleRun(limits, moves) && id in Run(limits, moves).clients
    requires var c := Run(limits, moves).clients[id];
             c.Finished? && c.outcome.Ok? && c.req.CreateRequest?
    ensures var s := Run(limits, moves);
            var c := s.clients[id];
            var room := GetRoom(s.table, Base64Url.Encode(c.req.roomID));
            && room.Some? && c.outcome.value.RoomReply? && SameText(c.outcome.value.room, room.value)
            && RoomSays(
                 c.outcome.value.room, c.actor, c.req.roomID, c.req.name, c.req.description, room.value.createdAt)
  {
    hide SystemOk, Step, Commits, BoardAfter, AuditIDsAfter, RevokedAfter, RacedAfter, NoteAfter, Validated, GetRoom,
      Base64Url.Encode;
    AnswersSay(limits, moves, id);
    var earlier, move := moves[..|moves| - 1], moves[|moves| - 1];
    var s := Run(limits, earlier);
    RunKeeps(limits, earlier);
    MoveKeepsText(limits, s, move, Base64Url.Encode(Run(limits, moves).clients[id].req.roomID));
    if move.Act? && move.id == id {
      if s.clients[id].Finished? {
        StepOfFinished(limits, s.table, s.clients[id], move.choice);
        CreatedIsStored(limits, earlier, id);
      } else {
        CreatesNow(limits, s, id, move.choice);
      }
    } else {
      CreatedIsStored(limits, earlier, id);
    }
  }

  lemma CreatesNow(limits: Limits, s: System, id: nat, ch: Choice)
    requires SystemOk(limits, s) && id in s.clients && !s.clients[id].Finished?
    requires var c' := Step(limits, s.table, s.clients[id], ch).1;
             c'.Finished? && c'.outcome.Ok? && c'.req.CreateRequest?
    ensures var (table', c') := Step(limits, s.table, s.clients[id], ch);
            && c'.outcome.value.RoomReply?
            && GetRoom(table', Base64Url.Encode(c'.req.roomID)) == Some(c'.outcome.value.room)
  {
    hide SystemOk, Step, Commits, Base64Url.Encode, GetMessage, OnlyChanges, EntrySays, AuditAdded;
    var c := s.clients[id];
    ClientTarget(limits, s, id);
    if Commits(limits, s.table, c, ch) {
      MayCommit(limits, s.table, c, ch);
      CommitAnswers(limits, s.table, c, ch);
      if c.Replaying? { CreatorIsReady(limits, s, id); }
      CreateStored(limits, s.table, c, ch);
    } else {
      OnlyFetchesSucceed(limits, s.table, c, ch);
      FetchSays(limits, s, id);
    }
  }

  lemma CreatorIsReady(limits: Limits, s: System, id: nat)
    requires SystemOk(limits, s) && id in s.clients && s.clients[id].Replaying?
    ensures s.clients[id].req.PostRequest?
  {
    hide Represents, OneNewPost, IndexesExact, Validated, RoomKnown, MemberKnown, TargetKnown;
    SnapshotAuthorization.ClientKnown(limits, s, id);
  }

  // ---------------------------------------------------------------- Where snapshots come from

  predicate HasSnapshot(c: Client) {
    c.Allowed? || c.Targeting? || c.Writing? || c.PostRefused? || c.Replaying? || c.Fetching? || c.ClassifyRoom?
    || c.ClassifyMember?
  }

  predicate RoomReadAt(limits: Limits, moves: seq<Move>, i: nat, roomID: Str, room: Room)
    requires i <= |moves|
  {
    GetRoom(Run(limits, moves[..i]).table, Base64Url.Encode(roomID)) == Some(room)
  }

  predicate MemberReadAt(limits: Limits, moves: seq<Move>, j: nat, roomID: Str, agent: Str, member: Option<Membership>)
    requires j <= |moves|
  {
    GetMember(Run(limits, moves[..j]).table, Base64Url.Encode(roomID), agent) == member
  }

  // The room was in the table at one moment of the run, and the actor's membership - or none - at a later one.
  ghost predicate SnapshotRead(limits: Limits, moves: seq<Move>, c: Client) {
    && (c.GotRoom? ==> exists i: nat :: i <= |moves| && RoomReadAt(limits, moves, i, c.req.roomID, c.room))
    && (HasSnapshot(c) ==>
          exists i: nat, j: nat :: i <= j <= |moves|
                                   && RoomReadAt(limits, moves, i, c.req.roomID, c.snapshot.room)
                                   && MemberReadAt(limits, moves, j, c.req.roomID, c.actor, c.snapshot.membership))
  }

  lemma SnapshotStays(limits: Limits, moves: seq<Move>, move: Move, c: Client, c': Client)
    requires SnapshotRead(limits, moves, c) && c'.actor == c.actor && c'.req == c.req
    requires c'.GotRoom? ==> c.GotRoom? && c'.room == c.room
    requires HasSnapshot(c') ==> HasSnapshot(c) && c'.snapshot == c.snapshot
    ensures SnapshotRead(limits, moves + [move], c')
  {
    hide Run, GetRoom, GetMember, Base64Url.Encode;
    var longer := moves + [move];
    assert forall i: nat :: i <= |moves| ==> longer[..i] == moves[..i];
    if c'.GotRoom? {
      var i: nat :| i <= |moves| && RoomReadAt(limits, moves, i, c.req.roomID, c.room);
      assert RoomReadAt(limits, longer, i, c.req.roomID, c.room);
    }
    if HasSnapshot(c') {
      var i: nat, j: nat :| i <= j <= |moves|
                            && RoomReadAt(limits, moves, i, c.req.roomID, c.snapshot.room)
                            && MemberReadAt(limits, moves, j, c.req.roomID, c.actor, c.snapshot.membership);
      assert RoomReadAt(limits, longer, i, c.req.roomID, c.snapshot.room);
      assert MemberReadAt(limits, longer, j, c.req.roomID, c.actor, c.snapshot.membership);
    }
  }

  // A step keeps the snapshot, or takes it from the table.
  lemma StepSnapshot(limits: Limits, table: Table, c: Client, ch: Choice)
    ensures var c' := Step(limits, table, c, ch).1;
            && c'.actor == c.actor && c'.req == c.req
            && (c'.GotRoom? && !c.GotRoom? ==> GetRoom(table, Base64Url.Encode(c.req.roomID)) == Some(c'.room))
            && (c'.GotRoom? && c.GotRoom? ==> c'.room == c.room)
            && (HasSnapshot(c') && HasSnapshot(c) ==> c'.snapshot == c.snapshot)
            && (HasSnapshot(c') && !HasSnapshot(c) ==>
                  && c.GotRoom? && c'.snapshot.room == c.room
                  && c'.snapshot.membership == GetMember(table, Base64Url.Encode(c.req.roomID), c.actor))
  {
    hide Passes, WriteAll, CreateWrites, GrantWrites, GrantGuard, RevokeWrites, NicknameWrites, PostWrites, MemberGuard,
      Base64Url.Encode, Authorizer.Authorized, GetRoom, GetMember, GetIdempotency, GetMessage, ReplyOf, ReadStep;
    if !c.Writing? && !c.Replaying? && !c.Finished? && !(c.Ready? && c.req.CreateRequest?) { ReadSnapshot(table, c); }
  }

  lemma ReadSnapshot(table: Table, c: Client)
    requires !c.Writing? && !c.Replaying? && !c.Finished? && !(c.Ready? && c.req.CreateRequest?)
    ensures var c' := ReadStep(table, c);
            && c'.actor == c.actor && c'.req == c.req
            && (c'.GotRoom? ==> c.Ready? && GetRoom(table, Base64Url.Encode(c.req.roomID)) == Some(c'.room))
            && (HasSnapshot(c') && HasSnapshot(c) ==> c'.snapshot == c.snapshot)
            && (HasSnapshot(c') && !HasSnapshot(c) ==>
                  && c.GotRoom? && c'.snapshot.room == c.room
                  && c'.snapshot.membership == GetMember(table, Base64Url.Encode(c.req.roomID), c.actor))
  {
    hide Base64Url.Encode, Authorizer.Authorized, GetRoom, GetMember, GetIdempotency, GetMessage;
  }

  lemma SnapshotStep(limits: Limits, moves: seq<Move>, move: Move, c: Client)
    requires move.Act? && SnapshotRead(limits, moves, c)
    ensures SnapshotRead(limits, moves + [move], Step(limits, Run(limits, moves).table, c, move.choice).1)
  {
    hide Run, GetRoom, GetMember, Base64Url.Encode, Step;
    var table := Run(limits, moves).table;
    var c' := Step(limits, table, c, move.choice).1;
    StepSnapshot(limits, table, c, move.choice);
    var n, longer := |moves|, moves + [move];
    assert longer[..n] == moves;
    if c'.GotRoom? && !c.GotRoom? {
      assert RoomReadAt(limits, longer, n, c.req.roomID, c'.room);
    } else if HasSnapshot(c') && !HasSnapshot(c) {
      var i: nat :| i <= n && RoomReadAt(limits, moves, i, c.req.roomID, c.room);
      assert longer[..i] == moves[..i];
      assert RoomReadAt(limits, longer, i, c.req.roomID, c'.snapshot.room);
      assert MemberReadAt(limits, longer, n, c.req.roomID, c.actor, c'.snapshot.membership);
    } else {
      SnapshotStays(limits, moves, move, c, c');
    }
  }

  // What a client was allowed by, it has read: its room at one moment of the run and its actor's membership at a
  // later one. So the author name of a new message is the one its author's membership showed at that moment.
  lemma {:induction false} SnapshotsAreRead(limits: Limits, moves: seq<Move>, id: nat)
    requires AdmissibleRun(limits, moves) && id in Run(limits, moves).clients
    ensures SnapshotRead(limits, moves, Run(limits, moves).clients[id])
  {
    hide Step, Commits, BoardAfter, AuditIDsAfter, RevokedAfter, RacedAfter, NoteAfter, Validated, SnapshotRead;
    if moves != [] {
      var earlier, move := moves[..|moves| - 1], moves[|moves| - 1];
      var s := Run(limits, earlier);
      assert moves == earlier + [move];
      if id in s.clients { SnapshotsAreRead(limits, earlier, id); }
      if move.Act? && move.id == id {
        SnapshotStep(limits, earlier, move, s.clients[id]);
      } else if id in s.clients {
        SnapshotStays(limits, earlier, move, s.clients[id], s.clients[id]);
      } else {
        assert SnapshotRead(limits, moves, Run(limits, moves).clients[id]) by {
          NothingRead(limits, moves, Run(limits, moves).clients[id]);
        }
      }
    }
  }

  lemma NothingRead(limits: Limits, moves: seq<Move>, c: Client)
    requires c.Ready?
    ensures SnapshotRead(limits, moves, c)
  {
  }

  // ---------------------------------------------------------------- Retries and bodies

  // Requests whose hash is the digest of their body, as the handler makes them.
  ghost predicate HashesBody(digest: Str -> Str, req: Request) {
    req.PostRequest? ==> req.requestHash == digest(req.body)
  }

  ghost predicate HashingRun(digest: Str -> Str, moves: seq<Move>) {
    forall k :: 0 <= k < |moves| && moves[k].Spawn? ==> HashesBody(digest, moves[k].req)
  }

  ghost predicate BodiesHashed(digest: Str -> Str, table: Table) {
    forall key :: key in table && table[key].MessageItem? ==>
      table[key].message.requestHash == digest(table[key].message.body)
  }

  lemma OneBodyAdded(digest: Str -> Str, table: Table, table': Table, keys: set<Key>, id: Key)
    requires BodiesHashed(digest, table) && OnlyChanges(table, table', keys)
    requires forall key :: key in keys && key != id && Get(table', key).Some? ==> !Get(table', key).value.MessageItem?
    requires id in keys && Get(table', id).Some? && Get(table', id).value.MessageItem? ==>
               Get(table', id).value.message.requestHash == digest(Get(table', id).value.message.body)
    ensures BodiesHashed(digest, table')
  {
    forall key | key in table' && table'[key].MessageItem?
      ensures table'[key].message.requestHash == digest(table'[key].message.body)
    {
      if key !in keys { assert Get(table', key) == Get(table, key); }
    }
  }

  lemma CommitKeepsHashes(digest: Str -> Str, limits: Limits, s: System, id: nat, ch: Choice)
    requires SystemOk(limits, s) && id in s.clients && Commits(limits, s.table, s.clients[id], ch)
    requires BodiesHashed(digest, s.table) && HashesBody(digest, s.clients[id].req)
    ensures BodiesHashed(digest, Step(limits, s.table, s.clients[id], ch).0)
  {
    hide SystemOk, Step, Commits, Base64Url.Encode, BodiesHashed, RoomSays, EntrySays;
    ClientTarget(limits, s, id);
    var c := s.clients[id];
    var table' := Step(limits, s.table, c, ch).0;
    MayCommit(limits, s.table, c, ch);
    var roomKey := Base64Url.Encode(c.req.roomID);
    var meta, audit := InRoom(roomKey, Meta), InRoom(roomKey, AuditEntry(ch.auditID));
    if OnlyGuards(c) {
      GuardStores(limits, s.table, c, ch);
      OneBodyAdded(digest, s.table, table', {}, meta);
    } else if c.Ready? {
      CreateStored(limits, s.table, c, ch);
      CreateCounted(limits, s.table, c, ch);
      OneBodyAdded(
        digest, s.table, table', {meta, InRoom(roomKey, Member(c.actor)), audit, Quota(c.actor)}, meta);
    } else {
      match c.req
      case GrantRequest(_, target, _, _) =>
        GrantStored(limits, s.table, c, ch);
        OneBodyAdded(digest, s.table, table', {meta, InRoom(roomKey, Member(target)), audit}, meta);
      case RevokeRequest(_, target, _) =>
        RevokeStored(limits, s.table, c, ch);
        var key := Get(s.table, InRoom(roomKey, Member(target))).value.member.nicknameKey;
        OneBodyAdded(digest, s.table, table', RemovedKeys(roomKey, target, key, ch.auditID), meta);
      case NicknameRequest(_, _, _) => NicknameKeepsHashes(digest, limits, s, id, ch);
      case PostRequest(_, _, key, _) =>
        PostStored(limits, s.table, c, ch);
        var msg, record := InRoom(roomKey, Msg(ch.messageID)), InRoom(roomKey, Idemp(c.actor + [HASH] + key));
        OneBodyAdded(digest, s.table, table', {msg, record}, msg);
    }
  }

  lemma NicknameKeepsHashes(digest: Str -> Str, limits: Limits, s: System, id: nat, ch: Choice)
    requires SystemOk(limits, s) && id in s.clients && Commits(limits, s.table, s.clients[id], ch)
    requires BodiesHashed(digest, s.table)
    requires var c := s.clients[id]; c.Writing? && c.req.NicknameRequest? && !OnlyGuards(c)
    ensures BodiesHashed(digest, Step(limits, s.table, s.clients[id], ch).0)
  {
    hide SystemOk, Step, Commits, Base64Url.Encode, BodiesHashed;
    var c := s.clients[id];
    var table' := Step(limits, s.table, c, ch).0;
    NicknameStored(limits, s.table, c, ch);
    var roomKey := Base64Url.Encode(c.req.roomID);
    OneBodyAdded(
      digest, s.table, table', RenamedKeys(roomKey, c.actor, c.found.value.nicknameKey, c.req.nicknameKey),
      InRoom(roomKey, Member(c.actor)));
  }

  lemma MoveKeepsHashes(digest: Str -> Str, limits: Limits, s: System, move: Move)
    requires SystemOk(limits, s) && Admissible(s, move) && BodiesHashed(digest, s.table)
    requires forall id :: id in s.clients ==> HashesBody(digest, s.clients[id].req)
    requires move.Spawn? ==> HashesBody(digest, move.req)
    ensures var s' := Next(limits, s, move);
            && BodiesHashed(digest, s'.table)
            && forall id :: id in s'.clients ==> HashesBody(digest, s'.clients[id].req)
  {
    hide SystemOk, Step, Commits, BodiesHashed, HashesBody;
    if move.Act? {
      NextTable(limits, s, move.id, move.choice);
      StepSnapshot(limits, s.table, s.clients[move.id], move.choice);
      if Commits(limits, s.table, s.clients[move.id], move.choice) {
        CommitKeepsHashes(digest, limits, s, move.id, move.choice);
      }
    }
  }

  lemma {:induction false} RunKeepsHashes(digest: Str -> Str, limits: Limits, moves: seq<Move>)
    requires AdmissibleRun(limits, moves) && HashingRun(digest, moves)
    ensures var s := Run(limits, moves);
            && BodiesHashed(digest, s.table)
            && forall id :: id in s.clients ==> HashesBody(digest, s.clients[id].req)
  {
    if moves != [] {
      hide Next, SystemOk, Admissible, HashesBody, BodiesHashed;
      var earlier := moves[..|moves| - 1];
      RunKeepsHashes(digest, limits, earlier);
      RunKeeps(limits, earlier);
      assert moves[|moves| - 1].Spawn? ==> HashesBody(digest, moves[|moves| - 1].req);
      MoveKeepsHashes(digest, limits, Run(limits, earlier), moves[|moves| - 1]);
    }
  }

  ghost predicate InjectiveDigest(digest: Str -> Str) {
    forall a, b {:trigger digest(a), digest(b)} :: digest(a) == digest(b) ==> a == b
  }

  // Where request hashes are an injective digest of the body, a retry is answered with a message of its own body,
  // whichever of the attempts stored it.
  lemma RetriesFindTheirBody(digest: Str -> Str, limits: Limits, moves: seq<Move>, id: nat)
    requires AdmissibleRun(limits, moves) && HashingRun(digest, moves) && InjectiveDigest(digest)
    requires id in Run(limits, moves).clients
    requires var c := Run(limits, moves).clients[id];
             c.Finished? && c.outcome.Ok? && c.outcome.value.PostReply?
    ensures var c := Run(limits, moves).clients[id];
            c.req.PostRequest? && c.outcome.value.message.body == c.req.body
  {
    hide Run, AdmissibleRun, HashingRun, GetIdempotency, Base64Url.Encode;
    PostedIsStored(limits, moves, id);
    RunKeepsHashes(digest, limits, moves);
    var s := Run(limits, moves);
    var c := s.clients[id];
    assert HashesBody(digest, c.req);
  }
}
