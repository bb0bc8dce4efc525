/**
 Two races that runs from the empty table do reach: a nickname change that leaves a stale nickname item behind, and
 a grant whose reply lags behind what it stored.
 */
module ReachableRaces {
  import opened Bytes
  import opened Board
  import opened BoardSpec
  import opened BoardInvariant
  import opened DynamoTable
  import opened DynamoStore
  import opened Refinement
  import opened NicknameRace
  import opened Interleaving
  import opened CommitSteps
  import opened RunInvariant
  import opened BoardTheorems
  import opened SnapshotAuthorization
  import opened CommitExactly
  import opened UndisturbedCalls
  import Base64Url
  import Authorizer

  // ---------------------------------------------------------------- Extending a run

  lemma OneMore(limits: Limits, moves: seq<Move>, move: Move)
    requires AdmissibleRun(limits, moves) && Admissible(Run(limits, moves), move)
    ensures AdmissibleRun(limits, moves + [move])
    ensures Run(limits, moves + [move]) == Next(limits, Run(limits, moves), move)
  {
    hide Next, Admissible;
    assert (moves + [move])[..|moves|] == moves;
  }

  // s with one client where it stands, and what was true when it read.
  function With(s: System, id: nat, c: Client, note: Note): System {
    s.(clients := s.clients[id := c], notes := s.notes[id := note])
  }

  lemma SpawnMove(limits: Limits, moves: seq<Move>, id: nat, actor: Str, req: Request)
    requires AdmissibleRun(limits, moves) && id !in Run(limits, moves).clients && Validated(req)
    ensures AdmissibleRun(limits, moves + [Spawn(id, actor, req)])
    ensures Run(limits, moves + [Spawn(id, actor, req)])
            == With(Run(limits, moves), id, Ready(actor, req), Note(map[], 0))
  {
    hide Run, AdmissibleRun, Validated;
    OneMore(limits, moves, Spawn(id, actor, req));
  }

  lemma NextRead(limits: Limits, s: System, id: nat, c: Client, note: Note, ch: Choice)
    requires Reads(c) && ch.fault == NoFault
    ensures Next(limits, With(s, id, c, note), Act(id, ch))
            == With(s, id, ReadStep(s.table, c), NoteAfter(s, c, note))
  {
    ReadStepIs(limits, s.table, c, ch);
    var w := With(s, id, c, note);
    SameNote(s, w, c, note);
    hide Step, ReadStep, NoteAfter, CommittedBoard, WritesAudit, Commits;
    var c', note' := ReadStep(s.table, c), NoteAfter(s, c, note);
    assert w.clients[id := c'] == s.clients[id := c'] && w.notes[id := note'] == s.notes[id := note'];
  }

  lemma SameNote(s: System, w: System, c: Client, note: Note)
    requires s.board == w.board && s.revoked == w.revoked
    ensures NoteAfter(s, c, note) == NoteAfter(w, c, note)
  {
  }

  // A reading step moves its own client and nothing else.
  lemma ReadMove(limits: Limits, moves: seq<Move>, s: System, id: nat, c: Client, note: Note, ch: Choice)
    requires AdmissibleRun(limits, moves) && ch.fault == NoFault && Reads(c)
    requires Run(limits, moves) == With(s, id, c, note)
    ensures AdmissibleRun(limits, moves + [Act(id, ch)])
    ensures Run(limits, moves + [Act(id, ch)]) == With(s, id, ReadStep(s.table, c), NoteAfter(s, c, note))
  {
    hide Run, AdmissibleRun, Next, ReadStep, NoteAfter;
    OneMore(limits, moves, Act(id, ch));
    NextRead(limits, s, id, c, note, ch);
  }

  lemma ReadStepIs(limits: Limits, table: Table, c: Client, ch: Choice)
    requires Reads(c) && ch.fault == NoFault
    ensures Step(limits, table, c, ch) == (table, ReadStep(table, c)) && !Commits(limits, table, c, ch)
  {
    hide ReadStep;
  }

  // The requests used here, up to their write.
  predicate Manages(req: Request) {
    req.GrantRequest? || req.RevokeRequest? || req.NicknameRequest?
  }

  function TargetOf(actor: Str, req: Request): Str {
    match req
    case GrantRequest(_, target, _, _) => target
    case RevokeRequest(_, target, _) => target
    case _ => actor
  }

  // The client of a call that has read everything and is about to write.
  function Prepared(s: System, actor: Str, req: Request): Client
    requires RoomKeyOf(req) in s.board.rooms
  {
    Writing(
      actor, req, SnapshotOf(s, actor, req), Current(s.board.rooms[RoomKeyOf(req)], TargetOf(actor, req)))
  }

  predicate MayPrepare(s: System, actor: Str, req: Request) {
    && Manages(req) && Validated(req) && RoomKeyOf(req) in s.board.rooms && Allows(s, actor, req)
    && var state := s.board.rooms[RoomKeyOf(req)];
       match req
       case NicknameRequest(_, _, _) =>
         actor in state.members && RoleCan(state.members[actor].role, UpdateNickname)
       case GrantRequest(_, target, _, _) => target != actor && target != state.room.owner
       case RevokeRequest(_, target, _) =>
         target != actor && target != state.room.owner && target in state.members
       case _ => false
  }

  // The reading steps of one client lead to its write.
  lemma ReadsToPrepared(limits: Limits, s: System, actor: Str, req: Request)
    requires SystemOk(limits, s) && MayPrepare(s, actor, req)
    ensures var state := s.board.rooms[RoomKeyOf(req)];
            var snapshot := SnapshotOf(s, actor, req);
            && ReadStep(s.table, Ready(actor, req)) == GotRoom(actor, req, state.room)
            && ReadStep(s.table, GotRoom(actor, req, state.room)) == Allowed(actor, req, snapshot)
            && ReadStep(s.table, Allowed(actor, req, snapshot)) ==
               (if req.NicknameRequest? then Prepared(s, actor, req) else Targeting(actor, req, snapshot))
            && (!req.NicknameRequest? ==>
                  ReadStep(s.table, Targeting(actor, req, snapshot)) == Prepared(s, actor, req))
  {
    hide BoardCore, Matches, ClientsOk, OneNewPost, Base64Url.Encode, Validated, Authorizer.Authorized, IndexesExact;
    var roomKey := RoomKeyOf(req);
    ReadRoom(s.table, s.board, s.auditIDs, roomKey);
    ReadMember(s.table, s.board, s.auditIDs, roomKey, actor);
    ReadMember(s.table, s.board, s.auditIDs, roomKey, TargetOf(actor, req));
    hide GetRoom, GetMember;
  }

  lemma Prepare(limits: Limits, moves: seq<Move>, id: nat, actor: Str, req: Request, ch: Choice)
    returns (moves': seq<Move>, note: Note)
    requires AdmissibleRun(limits, moves) && id !in Run(limits, moves).clients && ch.fault == NoFault
    requires MayPrepare(Run(limits, moves), actor, req)
    ensures AdmissibleRun(limits, moves')
    ensures var s := Run(limits, moves);
            && Run(limits, moves') == With(s, id, Prepared(s, actor, req), note)
            && note.revocations == s.revoked[(RoomKeyOf(req), actor)]
  {
    hide Run, AdmissibleRun, SystemOk, Base64Url.Encode, Validated, ReadStep, Allows, RolesOf, With, Prepared,
      SnapshotOf;
    var s := Run(limits, moves);
    RunKeeps(limits, moves);
    ReadsToPrepared(limits, s, actor, req);
    var c0, c1 := Ready(actor, req), GotRoom(actor, req, s.board.rooms[RoomKeyOf(req)].room);
    var c2 := Allowed(actor, req, SnapshotOf(s, actor, req));
    var n0 := Note(map[], 0);
    var n1 := NoteAfter(s, c0, n0);
    var n2 := NoteAfter(s, c1, n1);
    SpawnMove(limits, moves, id, actor, req);
    var m0 := moves + [Spawn(id, actor, req)];
    ReadMove(limits, m0, s, id, c0, n0, ch);
    var m1 := m0 + [Act(id, ch)];
    ReadMove(limits, m1, s, id, c1, n1, ch);
    var m2 := m1 + [Act(id, ch)];
    ReadMove(limits, m2, s, id, c2, n2, ch);
    moves', note := m2 + [Act(id, ch)], NoteAfter(s, c2, n2);
    if !req.NicknameRequest? {
      var c3 := Targeting(actor, req, SnapshotOf(s, actor, req));
      ReadMove(limits, moves', s, id, c3, note, ch);
      moves', note := moves' + [Act(id, ch)], NoteAfter(s, c3, note);
    }
  }

  lemma NextCommit(limits: Limits, s: System, id: nat, ch: Choice)
    requires id in s.clients && id in s.notes && Commits(limits, s.table, s.clients[id], ch)
    ensures var s' := Next(limits, s, Act(id, ch));
            var c, note := s.clients[id], s.notes[id];
            && s'.board == CommittedBoard(limits, s.board, c, ch)
            && s'.auditIDs == AuditIDsAfter(limits, s, c, ch)
            && s'.revoked == RevokedAfter(limits, s, c, ch)
            && s'.raced == RacedAfter(limits, s, note, c, ch)
            && s'.clients == s.clients[id := s'.clients[id]] && id in s'.clients
            && s'.notes == s.notes[id := s'.notes[id]] && id in s'.notes
  {
    hide Step, CommittedBoard, AuditIDsAfter, RevokedAfter, RacedAfter, Commits, NoteAfter;
  }

  // ---------------------------------------------------------------- Calls one after the other

  // Other clients do not move while one works.
  ghost predicate Waits(s: System, s': System, id: nat) {
    && s'.clients.Keys == s.clients.Keys + {id}
    && forall other :: other in s.clients && other != id ==>
         && s'.clients[other] == s.clients[other]
         && (other in s.notes ==> other in s'.notes && s'.notes[other] == s.notes[other])
  }

  lemma FreshInRoom(limits: Limits, s: System, roomKey: Str, id: Str)
    requires SystemOk(limits, s) && roomKey in s.board.rooms
    ensures roomKey in s.auditIDs && (id !in s.auditIDs[roomKey] ==> FreshAudit(s.table, roomKey, id))
  {
    hide BoardCore, ClientsOk, OneNewPost, MembersMatch, NicknamesMatch, MessagesMatch, IdempotencyMatches;
    assert RoomMatches(s.table, roomKey, s.board.rooms[roomKey], s.auditIDs[roomKey]);
  }

  predicate MayCall(limits: Limits, s: System, actor: Str, req: Request, ch: Choice) {
    && MayPrepare(s, actor, req) && ch.fault == NoFault
    && RoomKeyOf(req) in s.auditIDs && ch.auditID !in s.auditIDs[RoomKeyOf(req)]
    && FindMessage(s.board.rooms[RoomKeyOf(req)].messages, ch.messageID) == None
    && Apply(limits, s.board, actor, CallOperation(s, actor, req), ch.now, ch.messageID).1.Ok?
  }

  // A prepared client whose operation the specification accepts commits it.
  lemma PreparedCommits(limits: Limits, s: System, id: nat, actor: Str, req: Request, note: Note, ch: Choice)
    requires MayCall(limits, s, actor, req, ch) && s.raced == {}
    requires SystemOk(limits, With(s, id, Prepared(s, actor, req), note))
    requires note.revocations == s.revoked[(RoomKeyOf(req), actor)]
    ensures Commits(limits, s.table, Prepared(s, actor, req), ch)
    ensures CommittedBoard(limits, s.board, Prepared(s, actor, req), ch)
            == Apply(limits, s.board, actor, CallOperation(s, actor, req), ch.now, ch.messageID).0
    ensures !Disturbed(s, note, Prepared(s, actor, req))
  {
    hide Represents, ClientsOk, OneNewPost, IndexExact, ClientOk, Apply, Base64Url.Encode, CommittedBoard, Allows,
      ReplyAgrees, IndexesKept, FreshAudit, Evolves, Matches, BoardCore, Validated, FindMessage, Commits,
      AuditIDsAfter;
    var c := Prepared(s, actor, req);
    var w := With(s, id, c, note);
    assert ClientOk(s.board, s.revoked, note, c) by { ClientKnown(limits, w, id); }
    FreshInRoom(limits, w, RoomKeyOf(req), ch.auditID);
    assert IndexExact(s.board, RoomKeyOf(req));
    CommitsExactly(limits, w, note, c, ch);
    CommitStep(limits, w, note, c, ch);
    assert SpecStep(limits, w, note, c);
  }

  // One whole management call, undisturbed: the run goes on to the specification's next board.
  lemma Call(limits: Limits, moves: seq<Move>, id: nat, actor: Str, req: Request, ch: Choice)
    returns (moves': seq<Move>)
    requires AdmissibleRun(limits, moves) && id !in Run(limits, moves).clients
    requires MayCall(limits, Run(limits, moves), actor, req, ch) && Run(limits, moves).raced == {}
    ensures AdmissibleRun(limits, moves')
    ensures CallDone(limits, Run(limits, moves), Run(limits, moves'), id, actor, req, ch)
  {
    hide Run, AdmissibleRun, SystemOk, Apply, Base64Url.Encode, CommittedBoard, Next, Commits, Disturbed,
      CallOperation, WritesAudit, Allows, Validated, FindMessage, CallDone, SnapshotOf;
    var s := Run(limits, moves);
    var ready, note := Prepare(limits, moves, id, actor, req, ch);
    RunKeeps(limits, ready);
    PreparedCommits(limits, s, id, actor, req, note, ch);
    OneMore(limits, ready, Act(id, ch));
    CallCompletes(limits, s, id, actor, req, note, ch);
    moves' := ready + [Act(id, ch)];
  }

  lemma CallCompletes(limits: Limits, s: System, id: nat, actor: Str, req: Request, note: Note, ch: Choice)
    requires MayCall(limits, s, actor, req, ch) && id !in s.clients
    requires Commits(limits, s.table, Prepared(s, actor, req), ch) && !Disturbed(s, note, Prepared(s, actor, req))
    requires CommittedBoard(limits, s.board, Prepared(s, actor, req), ch)
             == Apply(limits, s.board, actor, CallOperation(s, actor, req), ch.now, ch.messageID).0
    ensures CallDone(
              limits, s, Next(limits, With(s, id, Prepared(s, actor, req), note), Act(id, ch)), id, actor, req, ch)
  {
    hide Apply, Base64Url.Encode, CommittedBoard, Next, CallOperation, Allows, Validated, FindMessage, SnapshotOf;
    var c := Prepared(s, actor, req);
    SameCommit(limits, s, With(s, id, c, note), c, ch);
    hide Commits;
    NextCommit(limits, With(s, id, c, note), id, ch);
  }

  lemma SameCommit(limits: Limits, s: System, w: System, c: Client, ch: Choice)
    requires s.table == w.table && s.auditIDs == w.auditIDs && s.revoked == w.revoked
    ensures AuditIDsAfter(limits, s, c, ch) == AuditIDsAfter(limits, w, c, ch)
    ensures RevokedAfter(limits, s, c, ch) == RevokedAfter(limits, w, c, ch)
  {
    hide Commits;
  }

  ghost predicate CallDone(limits: Limits, s: System, s': System, id: nat, actor: Str, req: Request, ch: Choice)
    requires MayCall(limits, s, actor, req, ch)
  {
    && s'.board == Apply(limits, s.board, actor, CallOperation(s, actor, req), ch.now, ch.messageID).0
    && s'.raced == s.raced
    && s'.auditIDs == (if WritesAudit(Prepared(s, actor, req))
                       then s.auditIDs[RoomKeyOf(req) := s.auditIDs[RoomKeyOf(req)] + [ch.auditID]] else s.auditIDs)
    && s'.revoked == (if req.RevokeRequest? then s.revoked + multiset{(RoomKeyOf(req), req.target)} else s.revoked)
    && Waits(s, s', id)
  }

  // ---------------------------------------------------------------- One room, one owner, one agent

  const LIMITS := Limits(50, 100)
  const OWNER: Str := [111]
  const AGENT: Str := [97]
  const ROOM_ID: Str := [114]
  const NEW_ROOM := CreateRequest(ROOM_ID, [], [], [])

  function RoomKey(): Str {
    Base64Url.Encode(ROOM_ID)
  }

  function ChoiceOf(auditID: Str): Choice {
    Choice(0, [], auditID, NoFault)
  }

  // How the agent stands in the room.
  datatype Standing = Gone | Present(role: Role, version: int, nicknameKey: Str)

  predicate RoomShows(state: RoomState, standing: Standing) {
    && state.room.roomID == ROOM_ID && state.room.roomKey == RoomKey() && state.room.owner == OWNER
    && !state.room.archived && state.room.memberCount <= 2 && state.messages == []
    && OWNER in state.members && state.members[OWNER].version >= 1 && state.members[OWNER].role == Owner
    && match standing
       case Gone => AGENT !in state.members && state.nicknames == map[] && state.room.memberCount <= 1
       case Present(role, version, key) =>
         && AGENT in state.members
         && state.members[AGENT].role == role && state.members[AGENT].version == version
         && state.members[AGENT].nicknameKey == key
         && (if key == [] then state.nicknames == map[] else state.nicknames == map[key := AGENT])
  }

  function GrantTo(role: Role): Request {
    GrantRequest(ROOM_ID, AGENT, role, [])
  }

  const REMOVAL := RevokeRequest(ROOM_ID, AGENT, [])

  function RenameTo(key: Str): Request {
    NicknameRequest(ROOM_ID, key, key)
  }

  function GrantInputOf(state: RoomState, role: Role): GrantInput
    requires OWNER in state.members
  {
    GrantInput(ROOM_ID, AGENT, role, [], state.members[OWNER].version, state.room.version)
  }

  lemma GrantShows(state: RoomState, role: Role, standing: Standing)
    requires RoomShows(state, standing) && MutableRole(role) && (standing.Present? ==> standing.role != role)
    requires standing.Present? ==> standing.role != Owner
    ensures var (state', outcome) := GrantIn(LIMITS, state, OWNER, GrantInputOf(state, role), 0);
            && outcome.Ok?
            && RoomShows(
                 state', if standing.Gone? then Present(role, 1, [])
                         else Present(role, standing.version + 1, standing.nicknameKey))
  {
    hide Base64Url.Encode;
  }

  lemma RemovalShows(state: RoomState, standing: Standing)
    requires RoomShows(state, standing) && standing.Present? && standing.role != Owner
    ensures var input := RevokeInput(ROOM_ID, AGENT, [], state.members[OWNER].version, state.room.version);
            var (state', outcome) := RevokeIn(state, OWNER, input, 0);
            outcome.Ok? && RoomShows(state', Gone)
  {
    hide Base64Url.Encode;
  }

  lemma RenameShows(state: RoomState, key: Str, standing: Standing)
    requires RoomShows(state, standing) && standing.Present? && RoleCan(standing.role, UpdateNickname)
    requires key != [] && key != standing.nicknameKey
    ensures var input := SetNicknameInput(ROOM_ID, key, key, standing.version);
            var (state', outcome) := SetNicknameIn(state, AGENT, input, 0);
            && outcome.Ok? && RoomShows(state', Present(standing.role, standing.version + 1, key))
            && state'.room == state.room && state'.members[OWNER] == state.members[OWNER]
  {
    hide Base64Url.Encode;
  }

  // A system with that room, its audit entries under these IDs, no race so far.
  ghost predicate At(s: System, standing: Standing, ids: seq<Str>, revocations: nat) {
    && RoomKey() in s.board.rooms && RoomShows(s.board.rooms[RoomKey()], standing)
    && RoomKey() in s.auditIDs && s.auditIDs[RoomKey()] == ids
    && s.revoked[(RoomKey(), AGENT)] == revocations && s.raced == {}
  }

  lemma OneRoomApply(s: System, actor: Str, op: Operation)
    requires SystemOk(LIMITS, s) && RoomKey() in s.board.rooms
    requires !op.OpCreate? && !InvalidInput(op) && RoomIDOf(op) == ROOM_ID
    ensures var (state', outcome) := ApplyInRoom(LIMITS, s.board.rooms[RoomKey()], actor, op, 0, []);
            Apply(LIMITS, s.board, actor, op, 0, []) ==
            (s.board.(rooms := s.board.rooms[RoomKey() := state']), outcome)
  {
    hide BoardCore, Matches, ClientsOk, OneNewPost, IndexesExact, ApplyInRoom, Base64Url.Encode, InvalidInput, Apply;
    RoomOfRequest(LIMITS, s.board, ROOM_ID);
    ApplyInRoomOf(LIMITS, s.board, actor, op, 0, [], RoomKey());
  }

  lemma GrantCall(
    moves: seq<Move>, id: nat, role: Role, auditID: Str, standing: Standing, ids: seq<Str>, revocations: nat)
    returns (moves': seq<Move>)
    requires AdmissibleRun(LIMITS, moves) && id !in Run(LIMITS, moves).clients
    requires At(Run(LIMITS, moves), standing, ids, revocations) && auditID !in ids
    requires MutableRole(role) && (standing.Present? ==> standing.role != role && standing.role != Owner)
    ensures AdmissibleRun(LIMITS, moves') && Waits(Run(LIMITS, moves), Run(LIMITS, moves'), id)
    ensures At(
              Run(LIMITS, moves'),
              if standing.Gone? then Present(role, 1, [])
              else Present(role, standing.version + 1, standing.nicknameKey),
              ids + [auditID], revocations)
  {
    hide Run, AdmissibleRun, SystemOk, Apply, GrantIn, Base64Url.Encode;
    var s := Run(LIMITS, moves);
    RunKeeps(LIMITS, moves);
    GrantShows(s.board.rooms[RoomKey()], role, standing);
    OneRoomApply(s, OWNER, CallOperation(s, OWNER, GrantTo(role)));
    moves' := Call(LIMITS, moves, id, OWNER, GrantTo(role), ChoiceOf(auditID));
  }

  lemma RemovalCall(
    moves: seq<Move>, id: nat, auditID: Str, standing: Standing, ids: seq<Str>, revocations: nat)
    returns (moves': seq<Move>)
    requires AdmissibleRun(LIMITS, moves) && id !in Run(LIMITS, moves).clients
    requires At(Run(LIMITS, moves), standing, ids, revocations) && auditID !in ids
    requires standing.Present? && standing.role != Owner
    ensures AdmissibleRun(LIMITS, moves') && Waits(Run(LIMITS, moves), Run(LIMITS, moves'), id)
    ensures At(Run(LIMITS, moves'), Gone, ids + [auditID], revocations + 1)
  {
    hide Run, AdmissibleRun, SystemOk, Apply, RevokeIn, Base64Url.Encode;
    var s := Run(LIMITS, moves);
    RunKeeps(LIMITS, moves);
    RemovalShows(s.board.rooms[RoomKey()], standing);
    OneRoomApply(s, OWNER, CallOperation(s, OWNER, REMOVAL));
    moves' := Call(LIMITS, moves, id, OWNER, REMOVAL, ChoiceOf(auditID));
  }

  lemma RenameCall(
    moves: seq<Move>, id: nat, key: Str, auditID: Str, standing: Standing, ids: seq<Str>, revocations: nat)
    returns (moves': seq<Move>)
    requires AdmissibleRun(LIMITS, moves) && id !in Run(LIMITS, moves).clients
    requires At(Run(LIMITS, moves), standing, ids, revocations) && auditID !in ids
    requires standing.Present? && standing.role != Owner && RoleCan(standing.role, UpdateNickname)
    requires key != [] && key == BoardInvariant.Lower(key) && key != standing.nicknameKey
    ensures AdmissibleRun(LIMITS, moves') && Waits(Run(LIMITS, moves), Run(LIMITS, moves'), id)
    ensures At(Run(LIMITS, moves'), Present(standing.role, standing.version + 1, key), ids, revocations)
    ensures var old_, new_ := Run(LIMITS, moves).board.rooms[RoomKey()], Run(LIMITS, moves').board.rooms[RoomKey()];
            new_.room == old_.room && new_.members[OWNER] == old_.members[OWNER]
  {
    hide Run, AdmissibleRun, SystemOk, Apply, SetNicknameIn, Base64Url.Encode, BoardInvariant.Lower;
    var s := Run(LIMITS, moves);
    RunKeeps(LIMITS, moves);
    RenameShows(s.board.rooms[RoomKey()], key, standing);
    OneRoomApply(s, AGENT, CallOperation(s, AGENT, RenameTo(key)));
    moves' := Call(LIMITS, moves, id, AGENT, RenameTo(key), ChoiceOf(auditID));
  }

  lemma CreateCommitsFirst(ch: Choice)
    requires ch == ChoiceOf([1])
    ensures Commits(LIMITS, map[], Ready(OWNER, NEW_ROOM), ch)
    ensures var board' := CommittedBoard(LIMITS, EMPTY_BOARD, Ready(OWNER, NEW_ROOM), ch);
            && RoomKey() in board'.rooms && RoomShows(board'.rooms[RoomKey()], Gone)
  {
    hide Base64Url.Encode;
    var writes := CreateWrites(LIMITS, OWNER, CreateRoomInput(ROOM_ID, [], [], []), 0, [1]);
    FourPass(map[], writes);
    hide Passes;
  }

  // The first call of all: the owner creates the room.
  lemma FirstRoom() returns (moves: seq<Move>)
    ensures AdmissibleRun(LIMITS, moves)
    ensures At(Run(LIMITS, moves), Gone, [[1]], 0) && Run(LIMITS, moves).clients.Keys == {0}
  {
    hide Base64Url.Encode;
    var ch := ChoiceOf([1]);
    assert AdmissibleRun(LIMITS, []) && Run(LIMITS, []) == INITIAL;
    hide Run, AdmissibleRun;
    SpawnMove(LIMITS, [], 0, OWNER, NEW_ROOM);
    var m := [] + [Spawn(0, OWNER, NEW_ROOM)];
    CreateCommitsFirst(ch);
    OneMore(LIMITS, m, Act(0, ch));
    var s := Run(LIMITS, m);
    hide Commits, CommittedBoard, Next;
    NextCommit(LIMITS, s, 0, ch);
    moves := m + [Act(0, ch)];
    assert [] + [ch.auditID] == [[1]];
  }

  // ---------------------------------------------------------------- A stale nickname item

  // A nickname change read while the agent had no nickname passes again once the agent, removed and granted again,
  // has its old role and version back - whatever nickname it has by now.
  lemma OldReadPasses(
    table: Table, roomKey: Str, state: RoomState, ids: seq<Str>, agent: Str, input: SetNicknameInput,
    found: Membership, now: Time)
    requires RoomMatches(table, roomKey, state, ids) && !state.room.archived && agent in state.members
    requires state.members[agent].version == input.actorMemberVersion && state.members[agent].role == found.role
    requires found.nicknameKey == [] && input.nicknameKey != [] && input.nicknameKey !in state.nicknames
    ensures Passes(table, NicknameWrites(roomKey, agent, input, found, now))
  {
    hide MessagesMatch, IdempotencyMatches, AuditsMatch;
    MemberIsStored(table, roomKey, state, ids, agent);
    assert Get(table, InRoom(roomKey, Nick(input.nicknameKey))) == NickEntry(state.nicknames, input.nicknameKey);
  }

  // The agent, once a poster at version 2 without a nickname, is about to take nickname "y".
  predicate ReadToRename(c: Client) {
    && c.Writing? && c.actor == AGENT && c.req == RenameTo([121])
    && c.snapshot.membership.Some? && c.snapshot.membership.value.version == 2
    && c.found.Some? && c.found.value.role == Poster
    && c.found.value.nicknameKey == [] && c.found.value.nickname == []
  }

  lemma RenameRaces(s: System, c: Client, ch: Choice)
    requires SystemOk(LIMITS, s) && RoomKey() in s.board.rooms && RoomKey() in s.auditIDs
    requires RoomShows(s.board.rooms[RoomKey()], Present(Poster, 2, [120]))
    requires ch == ChoiceOf([7]) && ReadToRename(c)
    ensures Commits(LIMITS, s.table, c, ch)
    ensures RoomKey() in CommittedBoard(LIMITS, s.board, c, ch).rooms
    ensures !IndexExact(CommittedBoard(LIMITS, s.board, c, ch), RoomKey())
  {
    hide BoardCore, ClientsOk, OneNewPost, IndexesExact, RoomMatches, Base64Url.Encode, NicknameWrites, Passes;
    var state := s.board.rooms[RoomKey()];
    var input := OperationOf(c.req, c.snapshot).profile;
    RoomRepresented(s.table, s.board, s.auditIDs, RoomKey());
    OldReadPasses(s.table, RoomKey(), state, s.auditIDs[RoomKey()], AGENT, input, c.found.value, 0);
    var board' := CommittedBoard(LIMITS, s.board, c, ch);
    assert board'.rooms[RoomKey()] == RoomRenamed(state, AGENT, input, [], 0);
    assert [120] in board'.rooms[RoomKey()].nicknames;
  }

  lemma TwoGrants() returns (moves: seq<Move>)
    ensures AdmissibleRun(LIMITS, moves)
    ensures At(Run(LIMITS, moves), Present(Poster, 2, []), [[1]] + [[2]] + [[3]], 0)
    ensures Run(LIMITS, moves).clients.Keys == {0, 1, 2}
  {
    hide Run, AdmissibleRun, At;
    moves := FirstRoom();
    moves := GrantCall(moves, 1, Reader, [2], Gone, [[1]], 0);
    assert Run(LIMITS, moves).clients.Keys == {0, 1};
    moves := GrantCall(moves, 2, Poster, [3], Present(Reader, 1, []), [[1]] + [[2]], 0);
  }

  // The agent has been granted a role twice and reads to set nickname "y".
  lemma AgentReads() returns (moves: seq<Move>, c: Client, note: Note, ids: seq<Str>)
    ensures Waiting(moves, Present(Poster, 2, []), ids, 0, 4, 3, c, note)
    ensures ids == [[1]] + [[2]] + [[3]]
    ensures ReadToRename(c) && note.revocations == 0
  {
    hide Run, AdmissibleRun, SystemOk, Base64Url.Encode, BoardInvariant.Lower, MayPrepare, RoomShows, ReadToRename,
      Prepared;
    ids := [[1]] + [[2]] + [[3]];
    moves := TwoGrants();
    var two := Run(LIMITS, moves);
    RunKeeps(LIMITS, moves);
    AgentPrepared(two);
    moves, note := Prepare(LIMITS, moves, 3, AGENT, RenameTo([121]), ChoiceOf([7]));
    c := Prepared(two, AGENT, RenameTo([121]));
  }

  lemma AgentPrepared(s: System)
    requires SystemOk(LIMITS, s) && RoomKey() in s.board.rooms
    requires RoomShows(s.board.rooms[RoomKey()], Present(Poster, 2, []))
    ensures MayPrepare(s, AGENT, RenameTo([121]))
    ensures ReadToRename(Prepared(s, AGENT, RenameTo([121])))
  {
    hide SystemOk, Base64Url.Encode, BoardInvariant.Lower;
    LowerCase();
    MemberHasNickname(s, Present(Poster, 2, []));
  }

  // How far a run has come while that client waits.
  ghost predicate Waiting(
    moves: seq<Move>, standing: Standing, ids: seq<Str>, revocations: nat, next: nat, id: nat, c: Client, note: Note)
  {
    && AdmissibleRun(LIMITS, moves) && At(Run(LIMITS, moves), standing, ids, revocations)
    && (forall other: nat :: other in Run(LIMITS, moves).clients ==> other < next)
    && id in Run(LIMITS, moves).clients && Run(LIMITS, moves).clients[id] == c
    && id in Run(LIMITS, moves).notes && Run(LIMITS, moves).notes[id] == note
  }

  lemma RemovalMeanwhile(
    moves: seq<Move>, role: Role, version: int, key: Str, ids: seq<Str>, revocations: nat, next: nat, auditID: Str,
    id: nat, c: Client, note: Note) returns (moves': seq<Move>)
    requires Waiting(moves, Present(role, version, key), ids, revocations, next, id, c, note)
    requires auditID !in ids && role != Owner
    ensures Waiting(moves', Gone, ids + [auditID], revocations + 1, next + 1, id, c, note)
  {
    hide Run, AdmissibleRun, At;
    moves' := RemovalCall(moves, next, auditID, Present(role, version, key), ids, revocations);
  }

  lemma GrantMeanwhile(
    moves: seq<Move>, ids: seq<Str>, revocations: nat, next: nat, role: Role, auditID: Str, id: nat, c: Client,
    note: Note) returns (moves': seq<Move>)
    requires Waiting(moves, Gone, ids, revocations, next, id, c, note)
    requires auditID !in ids && MutableRole(role)
    ensures Waiting(moves', Present(role, 1, []), ids + [auditID], revocations, next + 1, id, c, note)
  {
    hide Run, AdmissibleRun, At;
    moves' := GrantCall(moves, next, role, auditID, Gone, ids, revocations);
  }

  lemma RenameMeanwhile(
    moves: seq<Move>, role: Role, version: int, ids: seq<Str>, revocations: nat, next: nat, key: Str, auditID: Str,
    id: nat, c: Client, note: Note) returns (moves': seq<Move>)
    requires Waiting(moves, Present(role, version, []), ids, revocations, next, id, c, note)
    requires auditID !in ids && role != Owner && RoleCan(role, UpdateNickname)
    requires key != [] && key == BoardInvariant.Lower(key)
    ensures Waiting(moves', Present(role, version + 1, key), ids, revocations, next + 1, id, c, note)
  {
    hide Run, AdmissibleRun, At, BoardInvariant.Lower;
    moves' := RenameCall(moves, next, key, auditID, Present(role, version, []), ids, revocations);
  }

  // Meanwhile it is removed, granted again and renamed "x".
  lemma AgentReturns(moves: seq<Move>, ids: seq<Str>, c: Client, note: Note) returns (moves': seq<Move>)
    requires Waiting(moves, Present(Poster, 2, []), ids, 0, 4, 3, c, note) && ids == [[1]] + [[2]] + [[3]]
    ensures Waiting(moves', Present(Poster, 2, [120]), ids + [[4]] + [[5]], 1, 7, 3, c, note)
  {
    hide Waiting, BoardInvariant.Lower;
    LowerCase();
    moves' := RemovalMeanwhile(moves, Poster, 2, [], ids, 0, 4, [4], 3, c, note);
    moves' := GrantMeanwhile(moves', ids + [[4]], 1, 5, Poster, [5], 3, c, note);
    moves' := RenameMeanwhile(moves', Poster, 1, ids + [[4]] + [[5]], 1, 6, [120], [6], 3, c, note);
  }

  // Then its first nickname change commits. Every step is one the clients take on their own; the last table has an
  // item for "x" that no member's nickname key names.
  lemma StaleNicknameReached() returns (moves: seq<Move>)
    ensures AdmissibleRun(LIMITS, moves)
    ensures Run(LIMITS, moves).raced == {RoomKey()}
    ensures !NickItemsExact(Run(LIMITS, moves).table, RoomKey())
  {
    hide Run, AdmissibleRun, SystemOk, Base64Url.Encode, BoardInvariant.Lower, NickItemsExact, Commits, CommittedBoard,
      Next, IndexExact, RoomShows;
    var c, note, ids;
    moves, c, note, ids := AgentReads();
    moves := AgentReturns(moves, ids, c, note);
    var s := Run(LIMITS, moves);
    RunKeeps(LIMITS, moves);
    RenameRaces(s, c, ChoiceOf([7]));
    OneMore(LIMITS, moves, Act(3, ChoiceOf([7])));
    NextCommit(LIMITS, s, 3, ChoiceOf([7]));
    moves := moves + [Act(3, ChoiceOf([7]))];
    RunKeeps(LIMITS, moves);
    StaleItem(Run(LIMITS, moves));
  }

  lemma LowerCase()
    ensures BoardInvariant.Lower([120]) == [120] && BoardInvariant.Lower([121]) == [121]
  {
  }

  lemma MemberHasNickname(s: System, standing: Standing)
    requires SystemOk(LIMITS, s) && standing.Present? && RoomKey() in s.board.rooms
    requires RoomShows(s.board.rooms[RoomKey()], standing)
    ensures s.board.rooms[RoomKey()].members[AGENT].nickname == [] <==> standing.nicknameKey == []
  {
    hide Matches, ClientsOk, OneNewPost, IndexesExact, Base64Url.Encode, RoomCore, KeysOk, QuotaCore;
    var state := s.board.rooms[RoomKey()];
    assert RoomCore(LIMITS, RoomKey(), state);
    RoomCoreKey(LIMITS, RoomKey(), state);
    assert MemberOk(state.room, AGENT, state.members[AGENT]);
    assert |BoardInvariant.Lower(state.members[AGENT].nickname)| == |state.members[AGENT].nickname|;
  }

  lemma StaleItem(s: System)
    requires SystemOk(LIMITS, s) && RoomKey() in s.board.rooms && !IndexExact(s.board, RoomKey())
    ensures !NickItemsExact(s.table, RoomKey())
  {
    hide BoardCore, ClientsOk, OneNewPost, IndexesExact, RoomMatches, Base64Url.Encode, NicknamesOk, NickItemsExact;
    RoomRepresented(s.table, s.board, s.auditIDs, RoomKey());
    NickItemsFromMatch(s.table, RoomKey(), s.board.rooms[RoomKey()], s.auditIDs[RoomKey()]);
  }

  // ---------------------------------------------------------------- A reply that lags behind

  // A grant's conditions do not depend on what exactly was read of a member that exists.
  lemma GrantIgnoresRead(
    limits: Limits, table: Table, roomKey: Str, agent: Str, input: GrantInput, a: Membership, b: Membership,
    now: Time, auditID: Str)
    requires Passes(table, GrantWrites(limits, roomKey, agent, input, Some(a), now, auditID))
    ensures Passes(table, GrantWrites(limits, roomKey, agent, input, Some(b), now, auditID))
  {
    var x := GrantWrites(limits, roomKey, agent, input, Some(a), now, auditID);
    var y := GrantWrites(limits, roomKey, agent, input, Some(b), now, auditID);
    assert forall i :: 0 <= i < |x| ==> x[i].key == y[i].key && x[i].condition == y[i].condition;
    hide Holds, GrantWrites;
    forall i | 0 <= i < |y| ensures Holds(y[i].condition, Get(table, y[i].key)) {
      assert Holds(x[i].condition, Get(table, x[i].key));
    }
  }

  lemma LateGrantCommits(s: System, c: Client, ch: Choice)
    requires SystemOk(LIMITS, s) && RoomKey() in s.auditIDs && RoomKey() in s.board.rooms
    requires RoomShows(s.board.rooms[RoomKey()], Present(Reader, 2, [120]))
    requires ch.auditID !in s.auditIDs[RoomKey()] && ch == ChoiceOf(ch.auditID)
    requires c.Writing? && c.actor == OWNER && c.req == GrantTo(Poster)
    requires OperationOf(c.req, c.snapshot) == OpGrant(GrantInputOf(s.board.rooms[RoomKey()], Poster))
    requires c.found.Some? && c.found.value.role == Reader
    ensures Commits(LIMITS, s.table, c, ch)
  {
    hide BoardCore, ClientsOk, OneNewPost, IndexesExact, RoomMatches, Base64Url.Encode, GrantWrites, Passes, MembersOk,
      RoomCore, GrantIn, FreshAudit;
    var state, ids := s.board.rooms[RoomKey()], s.auditIDs[RoomKey()];
    var input := GrantInputOf(state, Poster);
    RoomRepresented(s.table, s.board, s.auditIDs, RoomKey());
    FreshInRoom(LIMITS, s, RoomKey(), ch.auditID);
    RoomOfRequest(LIMITS, s.board, ROOM_ID);
    RoomCoreKey(LIMITS, RoomKey(), state);
    GrantShows(state, Poster, Present(Reader, 2, [120]));
    GrantExactly(LIMITS, s.table, RoomKey(), state, ids, OWNER, input, 0, ch.auditID);
    GrantIgnoresRead(
      LIMITS, s.table, RoomKey(), OWNER, input, state.members[AGENT], c.found.value, 0, ch.auditID);
  }

  lemma LateGrantStores(s: System, c: Client, ch: Choice)
    requires SystemOk(LIMITS, s) && RoomKey() in s.board.rooms
    requires RoomShows(s.board.rooms[RoomKey()], Present(Reader, 2, [120])) && ch == ChoiceOf(ch.auditID)
    requires c.Writing? && c.req == GrantTo(Poster) && c.actor == OWNER
    requires OperationOf(c.req, c.snapshot) == OpGrant(GrantInputOf(s.board.rooms[RoomKey()], Poster))
    ensures var board' := CommittedBoard(LIMITS, s.board, c, ch);
            RoomKey() in board'.rooms && RoomShows(board'.rooms[RoomKey()], Present(Poster, 3, [120]))
  {
    hide SystemOk, Apply, GrantIn, Base64Url.Encode;
    GrantShows(s.board.rooms[RoomKey()], Poster, Present(Reader, 2, [120]));
    hide RoomShows;
    OneRoomApply(s, OWNER, OpGrant(GrantInputOf(s.board.rooms[RoomKey()], Poster)));
  }

  // What the late grant reports: the membership as it was read, with the new role.
  lemma LateGrantReplies(c: Client, ch: Choice)
    requires c.Writing? && c.req == GrantTo(Poster) && c.found.Some? && c.found.value.role == Reader
    ensures var reply := ReplyOf(c, ch);
            && reply.Ok? && reply.value.GrantReply? && !reply.value.created
            && reply.value.member.role == Poster
            && reply.value.member.version == c.found.value.version + 1
            && reply.value.member.nicknameKey == c.found.value.nicknameKey
  {
    hide Base64Url.Encode;
    GrantReported(c, ch);
  }

  lemma WriterFinishes(limits: Limits, s: System, id: nat, ch: Choice)
    requires id in s.clients && id in s.notes && ch.fault == NoFault
    requires var c := s.clients[id]; c.Writing? && c.req.GrantRequest? && Commits(limits, s.table, c, ch)
    ensures var c := s.clients[id];
            Next(limits, s, Act(id, ch)).clients[id] == Finished(c.actor, c.req, ReplyOf(c, ch))
  {
    CommittedStep(limits, s.table, s.clients[id], ch);
    hide Step, CommittedBoard, AuditIDsAfter, RevokedAfter, RacedAfter, Commits, NoteAfter, ReplyOf, WriteAll,
      TransactionOf;
  }

  lemma StoredMember(s: System, standing: Standing)
    requires SystemOk(LIMITS, s) && standing.Present? && RoomKey() in s.board.rooms
    requires RoomShows(s.board.rooms[RoomKey()], standing)
    ensures GetMember(s.table, RoomKey(), AGENT) == Some(s.board.rooms[RoomKey()].members[AGENT])
  {
    hide BoardCore, Matches, ClientsOk, OneNewPost, IndexesExact, Base64Url.Encode, GetMember;
    ReadMember(s.table, s.board, s.auditIDs, RoomKey(), AGENT);
  }

  // The owner, about to promote an agent read as a reader at version 1 without a nickname.
  predicate ReadToPromote(c: Client, state: RoomState)
    requires OWNER in state.members
  {
    && c.Writing? && c.actor == OWNER && c.req == GrantTo(Poster)
    && OperationOf(c.req, c.snapshot) == OpGrant(GrantInputOf(state, Poster))
    && c.found.Some? && c.found.value.role == Reader && c.found.value.version == 1 && c.found.value.nicknameKey == []
  }

  lemma OwnerPrepared(s: System)
    requires RoomKey() in s.board.rooms && RoomShows(s.board.rooms[RoomKey()], Present(Reader, 1, []))
    ensures MayPrepare(s, OWNER, GrantTo(Poster))
    ensures ReadToPromote(Prepared(s, OWNER, GrantTo(Poster)), s.board.rooms[RoomKey()])
  {
    hide Base64Url.Encode;
  }

  // The owner reads the agent to promote it, and the agent renames itself.
  lemma OwnerReads() returns (moves: seq<Move>, c: Client)
    ensures AdmissibleRun(LIMITS, moves) && At(Run(LIMITS, moves), Present(Reader, 2, [120]), [[1]] + [[2]], 0)
    ensures 2 in Run(LIMITS, moves).clients && 2 in Run(LIMITS, moves).notes && Run(LIMITS, moves).clients[2] == c
    ensures ReadToPromote(c, Run(LIMITS, moves).board.rooms[RoomKey()])
  {
    hide Run, AdmissibleRun, SystemOk, Base64Url.Encode, BoardInvariant.Lower, MayPrepare, Prepared;
    LowerCase();
    moves := FirstRoom();
    moves := GrantCall(moves, 1, Reader, [2], Gone, [[1]], 0);
    var one := Run(LIMITS, moves);
    OwnerPrepared(one);
    var note;
    moves, note := Prepare(LIMITS, moves, 2, OWNER, GrantTo(Poster), ChoiceOf([3]));
    c := Prepared(one, OWNER, GrantTo(Poster));
    moves := RenameCall(moves, 3, [120], [6], Present(Reader, 1, []), [[1]] + [[2]], 0);
  }

  // The promotion then commits: the stored membership has the new nickname and version 3, while the owner is told
  // version 2 and no nickname.
  lemma LaggingReplyReached() returns (moves: seq<Move>, reported: Membership, stored: Membership)
    ensures AdmissibleRun(LIMITS, moves) && Run(LIMITS, moves).raced == {}
    ensures var s := Run(LIMITS, moves);
            && 2 in s.clients && s.clients[2] == Finished(OWNER, GrantTo(Poster), Ok(GrantReply(reported, false)))
            && GetMember(s.table, RoomKey(), AGENT) == Some(stored)
    ensures reported.role == stored.role == Poster
    ensures reported.version == 2 && stored.version == 3
    ensures reported.nicknameKey == [] && stored.nicknameKey == [120]
  {
    hide Run, AdmissibleRun, SystemOk, Base64Url.Encode, Commits, CommittedBoard, Next, ReplyOf, GetMember;
    var c;
    moves, c := OwnerReads();
    var ch := ChoiceOf([3]);
    var s := Run(LIMITS, moves);
    RunKeeps(LIMITS, moves);
    LateGrantCommits(s, c, ch);
    LateGrantStores(s, c, ch);
    LateGrantReplies(c, ch);
    OneMore(LIMITS, moves, Act(2, ch));
    NextCommit(LIMITS, s, 2, ch);
    WriterFinishes(LIMITS, s, 2, ch);
    moves := moves + [Act(2, ch)];
    RunKeeps(LIMITS, moves);
    StoredMember(Run(LIMITS, moves), Present(Poster, 3, [120]));
    reported := ReplyOf(c, ch).value.member;
    stored := Run(LIMITS, moves).board.rooms[RoomKey()].members[AGENT];
  }
}
