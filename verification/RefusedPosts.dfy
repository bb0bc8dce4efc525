/**
 Posts whose write was refused, and clients in general: how many steps they take, and what they answer in the end.
 */
module RefusedPosts {
  import opened Bytes
  import opened Board
  import opened BoardSpec
  import opened BoardInvariant
  import opened DynamoTable
  import opened DynamoStore
  import opened Refinement
  import opened Interleaving
  import opened CommitSteps
  import opened RunInvariant
  import opened UndisturbedCalls
  import opened TableEffects
  import SnapshotAuthorization
  import BoardRuns
  import Base64Url

  // ---------------------------------------------------------------- A refused post, run to its end

  // The actor has the version it was allowed with, a role that may post, and the room is open.
  predicate MayPostNow(table: Table, roomKey: Str, actor: Str, version: int) {
    var room, member := GetRoom(table, roomKey), GetMember(table, roomKey, actor);
    && room.Some? && !room.value.archived
    && member.Some? && member.value.version == version && member.value.role in {Owner, Admin, Poster}
  }

  // Why it may not, if it may not: a changed membership is a conflict, anything else a denial.
  predicate RefusalSays(table: Table, roomKey: Str, actor: Str, version: int, error: Error) {
    var room, member := GetRoom(table, roomKey), GetMember(table, roomKey, actor);
    if room.Some? && !room.value.archived && member.Some? && member.value.version != version
    then error == Conflict else error == Denied
  }

  // The answer to a post whose write was refused, from what the table holds for its slot.
  predicate RefusedPostSays(table: Table, c: Client, outcome: Outcome<Reply>)
    requires (c.Writing? || c.PostRefused?) && c.req.PostRequest? && c.snapshot.membership.Some?
  {
    var roomKey, version := Base64Url.Encode(c.req.roomID), c.snapshot.membership.value.version;
    var record := GetIdempotency(table, roomKey, c.actor + [HASH] + c.req.idempotencyKey);
    if !MayPostNow(table, roomKey, c.actor, version) then
      outcome.Err? && RefusalSays(table, roomKey, c.actor, version, outcome.error)
    else if record.None? then outcome == Err(Conflict)
    else if record.value.requestHash != c.req.requestHash then outcome == Err(IdempotencyConflict)
    else
      var message := GetMessage(table, roomKey, record.value.messageID);
      message.Some? && outcome == Ok(PostReply(message.value, true))
  }

  lemma GuardTable(limits: Limits, table: Table, c: Client, ch: Choice)
    requires c.Replaying? && Commits(limits, table, c, ch)
    ensures Step(limits, table, c, ch).0 == table
  {
    GuardStores(limits, table, c, ch);
    var table' := Step(limits, table, c, ch).0;
    hide Step, Commits;
    forall key ensures key in table' <==> key in table { assert Get(table', key) == Get(table, key); }
    forall key | key in table ensures table'[key] == table[key] { assert Get(table', key) == Get(table, key); }
  }

  lemma GuardPassesExactly(limits: Limits, table: Table, c: Client, ch: Choice)
    requires c.Replaying? && ch.fault == NoFault && c.snapshot.membership.Some?
    ensures Commits(limits, table, c, ch) <==>
            MayPostNow(table, Base64Url.Encode(c.req.roomID), c.actor, c.snapshot.membership.value.version)
  {
    hide Base64Url.Encode;
    var writes := TransactionOf(limits, c, ch).value;
    assert Passes(table, writes) <==>
        Holds(writes[0].condition, Get(table, writes[0].key)) && Holds(writes[1].condition, Get(table, writes[1].key));
  }

  // Looking for the reason of a refused guard.
  lemma Classified(limits: Limits, table: Table, c: Client, ch: Choice, n: nat)
    requires c.ClassifyRoom? && ch.fault == NoFault && n >= 2
    requires c.snapshot.membership.Some? && c.snapshot.membership.value.version != 0
    ensures var (table', c') := Solo(limits, table, c, ch, n);
            var roomKey, version := Base64Url.Encode(c.req.roomID), c.snapshot.membership.value.version;
            && table' == table && c'.Finished? && c'.outcome.Err?
            && (MayPostNow(table, roomKey, c.actor, version) ==> c'.outcome == Err(Conflict))
            && (!MayPostNow(table, roomKey, c.actor, version) ==>
                  RefusalSays(table, roomKey, c.actor, version, c'.outcome.error))
  {
    hide Base64Url.Encode, GetRoom, GetMember, Solo;
    SoloStep(limits, table, c, ch, n);
    var next := Step(limits, table, c, ch).1;
    if next.Finished? {
      SoloFinished(limits, table, next, ch, n - 1);
    } else {
      SoloStep(limits, table, next, ch, n - 1);
      SoloFinished(limits, table, Step(limits, table, next, ch).1, ch, n - 2);
    }
  }

  lemma ReplayedAlone(limits: Limits, s: System, note: Note, c: Client, ch: Choice, n: nat)
    requires Represents(limits, s) && ClientOk(s.board, s.revoked, note, c)
    requires c.Replaying? && ch.fault == NoFault && n >= 3
    ensures c.req.PostRequest? && c.snapshot.membership.Some?
    ensures GetIdempotency(s.table, Base64Url.Encode(c.req.roomID), c.actor + [HASH] + c.req.idempotencyKey)
            == Some(c.record)
    ensures var (table', c') := Solo(limits, s.table, c, ch, n);
            table' == s.table && c'.Finished?
            && RefusedPostSays(s.table, PostRefused(c.actor, c.req, c.snapshot), c'.outcome)
  {
    hide Represents, Base64Url.Encode, GetRoom, GetMember, GetIdempotency, GetMessage, Solo, Commits, MayPostNow,
      RefusalSays;
    RecordRead(limits, s, note, c);
    GuardPassesExactly(limits, s.table, c, ch);
    SoloStep(limits, s.table, c, ch, n);
    if Commits(limits, s.table, c, ch) {
      GuardTable(limits, s.table, c, ch);
      GuardGoesOn(limits, s.table, c, ch);
      if c.record.requestHash == c.req.requestHash {
        var f := Fetching(c.actor, c.req, c.snapshot, c.record);
        SoloStep(limits, s.table, f, ch, n - 1);
        FetchStepIs(limits, s.table, f, ch);
        SoloFinished(limits, s.table, ReadStep(s.table, f), ch, n - 2);
      } else {
        SoloFinished(limits, s.table, Finished(c.actor, c.req, Err(IdempotencyConflict)), ch, n - 1);
      }
    } else {
      GuardRefused(limits, s.table, c, ch);
      Classified(limits, s.table, ClassifyRoom(c.actor, c.req, c.snapshot), ch, n - 1);
    }
  }

  lemma GuardGoesOn(limits: Limits, table: Table, c: Client, ch: Choice)
    requires c.Replaying? && c.req.PostRequest? && ch.fault == NoFault && Commits(limits, table, c, ch)
    ensures Step(limits, table, c, ch).1 ==
            if c.record.requestHash == c.req.requestHash then Fetching(c.actor, c.req, c.snapshot, c.record)
            else Finished(c.actor, c.req, Err(IdempotencyConflict))
  {
    hide Passes, WriteAll, MemberGuard, Base64Url.Encode;
  }

  lemma GuardRefused(limits: Limits, table: Table, c: Client, ch: Choice)
    requires c.Replaying? && ch.fault == NoFault && !Commits(limits, table, c, ch)
    ensures Step(limits, table, c, ch) == (table, ClassifyRoom(c.actor, c.req, c.snapshot))
  {
    hide Passes, WriteAll, MemberGuard, Base64Url.Encode;
  }

  // A record a client has read is still there, and so is its message.
  lemma RecordRead(limits: Limits, s: System, note: Note, c: Client)
    requires Represents(limits, s) && ClientOk(s.board, s.revoked, note, c) && c.Replaying?
    ensures c.req.PostRequest? && c.snapshot.membership.Some? && c.snapshot.membership.value.version >= 1
    ensures var roomKey := Base64Url.Encode(c.req.roomID);
            && GetIdempotency(s.table, roomKey, c.actor + [HASH] + c.req.idempotencyKey) == Some(c.record)
            && GetMessage(s.table, roomKey, c.record.messageID).Some?
  {
    hide BoardCore, Matches, Base64Url.Encode, GetIdempotency, GetMessage, RoomCore, MessagesOk;
    var roomKey, key := RoomKeyOf(c.req), IdempotencyKeyOf(c.actor, c.req.idempotencyKey);
    ReadRecord(s.table, s.board, s.auditIDs, roomKey, key);
    ReadMessage(s.table, s.board, s.auditIDs, roomKey, c.record.messageID);
    RoomOfRequest(limits, s.board, c.req.roomID);
    RoomCoreKey(limits, roomKey, s.board.rooms[roomKey]);
    MessageOfRecord(c.req.roomID, roomKey, s.board.rooms[roomKey], key);
  }

  lemma MessageOfRecord(roomID: Str, roomKey: Str, state: RoomState, key: Str)
    requires MessagesOk(roomID, roomKey, state.messages, state.idempotency) && key in state.idempotency
    ensures FindMessage(state.messages, state.idempotency[key].messageID).Some?
  {
    assert RecordHasMessage(state.messages, state.idempotency[key]);
    BoardRuns.HasMeansFound(state.messages, state.idempotency[key].messageID);
  }

  lemma RefusedAlone(limits: Limits, s: System, note: Note, c: Client, ch: Choice, n: nat)
    requires Represents(limits, s) && ClientOk(s.board, s.revoked, note, c)
    requires c.PostRefused? && ch.fault == NoFault && n >= 4
    ensures c.req.PostRequest? && c.snapshot.membership.Some?
    ensures var (table', c') := Solo(limits, s.table, c, ch, n);
            table' == s.table && c'.Finished? && RefusedPostSays(s.table, c, c'.outcome)
  {
    hide Represents, Base64Url.Encode, GetRoom, GetMember, GetIdempotency, GetMessage, Solo, MayPostNow, RefusalSays;
    SoloStep(limits, s.table, c, ch, n);
    RefusedReads(limits, s, note, c, ch);
    var next := ReadStep(s.table, c);
    if next.Replaying? {
      ReplayedAlone(limits, s, note, next, ch, n - 1);
    } else {
      Classified(limits, s.table, next, ch, n - 1);
    }
  }

  lemma RefusedReads(limits: Limits, s: System, note: Note, c: Client, ch: Choice)
    requires Represents(limits, s) && ClientOk(s.board, s.revoked, note, c) && c.PostRefused? && ch.fault == NoFault
    ensures c.req.PostRequest? && c.snapshot.membership.Some? && c.snapshot.membership.value.version >= 1
    ensures Step(limits, s.table, c, ch) == (s.table, ReadStep(s.table, c))
    ensures ClientOk(s.board, s.revoked, note, ReadStep(s.table, c))
    ensures ReadStep(s.table, c) ==
            match GetIdempotency(s.table, Base64Url.Encode(c.req.roomID), c.actor + [HASH] + c.req.idempotencyKey)
            case Some(record) => Replaying(c.actor, c.req, c.snapshot, record)
            case None => ClassifyRoom(c.actor, c.req, c.snapshot)
  {
    LateReadOk(limits, s, note, c);
    hide Represents, Base64Url.Encode, GetIdempotency, MemberKnown, RoomKnown;
  }

  // A post whose write the table refused, on any table a run can reach, ends within five steps of its own without
  // writing anything, with the answer its slot, its room and its actor's membership decide: the message already
  // stored under its key, the conflict of another body under that key, or why it may not post.
  lemma RefusedPostAnswers(limits: Limits, moves: seq<Move>, id: nat, ch: Choice)
    requires AdmissibleRun(limits, moves) && id in Run(limits, moves).clients && ch.fault == NoFault
    requires var s := Run(limits, moves);
             var c := s.clients[id];
             c.Writing? && c.req.PostRequest? && !Commits(limits, s.table, c, ch)
    ensures var s := Run(limits, moves);
            var c := s.clients[id];
            var (table', c') := Solo(limits, s.table, c, ch, 5);
            && c.snapshot.membership.Some?
            && table' == s.table && c'.Finished? && RefusedPostSays(s.table, c, c'.outcome)
  {
    hide Run, AdmissibleRun, Represents, ClientsOk, OneNewPost, IndexesExact, Base64Url.Encode, Solo, MayPostNow,
      RefusalSays, GetIdempotency, GetMessage, Commits, ClientOk;
    RunKeeps(limits, moves);
    var s := Run(limits, moves);
    var c := s.clients[id];
    SnapshotAuthorization.ClientKnown(limits, s, id);
    var refused := PostRefused(c.actor, c.req, c.snapshot);
    RefusedWriteKnown(s.board, s.revoked, s.notes[id], c);
    SoloStep(limits, s.table, c, ch, 5);
    WriteRefused(limits, s.table, c, ch);
    RefusedAlone(limits, s, s.notes[id], refused, ch, 4);
  }

  lemma RefusedWriteKnown(board: BoardState, revoked: multiset<(Str, Str)>, note: Note, c: Client)
    requires ClientOk(board, revoked, note, c) && c.Writing? && c.req.PostRequest?
    ensures ClientOk(board, revoked, note, PostRefused(c.actor, c.req, c.snapshot))
  {
  }

  lemma WriteRefused(limits: Limits, table: Table, c: Client, ch: Choice)
    requires c.Writing? && c.req.PostRequest? && ch.fault == NoFault && !Commits(limits, table, c, ch)
    ensures Step(limits, table, c, ch) == (table, PostRefused(c.actor, c.req, c.snapshot))
  {
    hide Passes, WriteAll, PostWrites, Base64Url.Encode;
  }

  // ---------------------------------------------------------------- Other refusals, and faults

  // Every other refused transaction is reported as a conflict at once, and changed nothing.
  lemma OtherRefusals(limits: Limits, table: Table, c: Client, ch: Choice)
    requires !c.req.PostRequest? && TransactionOf(limits, c, ch).Some? && Committable(c)
    requires !c.Replaying? && !(c.Writing? && c.req.CreateRequest?)
    requires ch.fault == NoFault && !Commits(limits, table, c, ch)
    ensures Step(limits, table, c, ch) == (table, Finished(c.actor, c.req, Err(Conflict)))
  {
    hide Passes, WriteAll, TransactionOf;
  }

  // A failed access is reported as such, whatever happened. Only a transaction whose reply was lost may have had an
  // effect, and then it is the one it would have had.
  lemma FaultAnswers(limits: Limits, table: Table, c: Client, ch: Choice)
    requires !c.Finished? && ch.fault != NoFault
    requires c.Writing? ==> Committable(c) && !c.req.CreateRequest?
    ensures Step(limits, table, c, ch).1 == Finished(c.actor, c.req, Err(Dependency))
    ensures Step(limits, table, c, ch).0 ==
            if ch.fault == ReplyLost && Commits(limits, table, c, ch)
            then Step(limits, table, c, ch.(fault := NoFault)).0 else table
  {
    hide Passes, WriteAll, CreateWrites, GrantWrites, GrantGuard, RevokeWrites, NicknameWrites, PostWrites, MemberGuard,
      AfterCommit, AfterRefusal, Base64Url.Encode;
  }

  // ---------------------------------------------------------------- Every client finishes

  // How many steps a client may still take.
  function StepsLeft(c: Client): nat {
    match c
    case Ready(_, _) => 8
    case GotRoom(_, _, _) => 7
    case Allowed(_, _, _) => 6
    case Targeting(_, _, _) => 2
    case Writing(_, req, _, _) => if req.PostRequest? then 5 else 1
    case PostRefused(_, _, _) => 4
    case Replaying(_, _, _, _) => 3
    case Fetching(_, _, _, _) => 1
    case ClassifyRoom(_, _, _) => 2
    case ClassifyMember(_, _, _) => 1
    case Finished(_, _, _) => 0
  }

  lemma StepDescends(limits: Limits, s: System, note: Note, c: Client, ch: Choice)
    requires ClientOk(s.board, s.revoked, note, c) && !c.Finished?
    ensures StepsLeft(Step(limits, s.table, c, ch).1) < StepsLeft(c)
  {
    hide Passes, WriteAll, CreateWrites, GrantWrites, GrantGuard, RevokeWrites, NicknameWrites, PostWrites, MemberGuard,
      Base64Url.Encode, RoomKnown, MemberKnown, TargetKnown, RecordKnown, GetRoom, GetMember, GetIdempotency,
      GetMessage, Validated;
  }

  // The steps one client has taken in a run.
  function StepsTaken(moves: seq<Move>, id: nat): nat {
    if moves == [] then 0
    else
      var last := moves[|moves| - 1];
      StepsTaken(moves[..|moves| - 1], id) + if last.Act? && last.id == id then 1 else 0
  }

  lemma {:induction false} StepsBounded(limits: Limits, moves: seq<Move>, id: nat)
    requires AdmissibleRun(limits, moves)
    ensures id in Run(limits, moves).clients ==>
              Run(limits, moves).clients[id].Finished? ||
              StepsTaken(moves, id) + StepsLeft(Run(limits, moves).clients[id]) <= 8
    ensures id !in Run(limits, moves).clients ==> StepsTaken(moves, id) == 0
  {
    if moves != [] {
      hide Step, ClientOk, StepsLeft, SystemOk;
      var earlier, move := moves[..|moves| - 1], moves[|moves| - 1];
      StepsBounded(limits, earlier, id);
      RunKeeps(limits, earlier);
      var s := Run(limits, earlier);
      if move.Spawn? {
        assert StepsLeft(Ready(move.actor, move.req)) == 8 by { ReadyIsFirst(move.actor, move.req); }
      } else if move.id == id {
        SnapshotAuthorization.ClientKnown(limits, s, id);
        if s.clients[id].Finished? {
          FinishedStays(limits, s.table, s.clients[id], move.choice);
        } else {
          StepDescends(limits, s, s.notes[id], s.clients[id], move.choice);
        }
      }
    }
  }

  lemma ReadyIsFirst(actor: Str, req: Request)
    ensures StepsLeft(Ready(actor, req)) == 8
  {
  }

  lemma FinishedStays(limits: Limits, table: Table, c: Client, ch: Choice)
    requires c.Finished?
    ensures Step(limits, table, c, ch) == (table, c)
  {
  }

  lemma NoStepsLeft(c: Client)
    ensures StepsLeft(c) == 0 <==> c.Finished?
  {
  }

  // No call waits for another: whatever the others do and whatever fails, a client that has taken eight steps of its
  // own has its answer.
  lemma EightSteps(limits: Limits, moves: seq<Move>, id: nat)
    requires AdmissibleRun(limits, moves) && StepsTaken(moves, id) >= 8
    ensures id in Run(limits, moves).clients && Run(limits, moves).clients[id].Finished?
  {
    hide Run, AdmissibleRun, StepsTaken, StepsLeft;
    StepsBounded(limits, moves, id);
    if id in Run(limits, moves).clients { NoStepsLeft(Run(limits, moves).clients[id]); }
  }
}
