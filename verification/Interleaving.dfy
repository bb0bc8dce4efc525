/**
 Every interleaving of clients: runs of the shared table next to the board it represents, and what clients know.
 */
module Interleaving {
  import opened Bytes
  import opened Board
  import opened BoardSpec
  import opened BoardInvariant
  import opened DynamoTable
  import opened DynamoStore
  import opened Refinement
  import opened NicknameRace
  import Base64Url
  import Authorizer

  // What was true when a client read: the allow-list at its room read, and how often
  // the actor had been revoked at its member read. History only; no step depends on it.
  datatype Note = Note(roles: map<Str, Role>, revocations: nat)

  datatype System = System(
    table: Table,
    board: BoardState,
    auditIDs: map<Str, seq<Str>>,
    revoked: multiset<(Str, Str)>,
    raced: set<Str>,
    clients: map<nat, Client>,
    notes: map<nat, Note>)

  datatype Move =
    | Spawn(id: nat, actor: Str, req: Request)
    | Act(id: nat, choice: Choice)

  const INITIAL := System(map[], EMPTY_BOARD, map[], multiset{}, {}, map[], map[])

  // ---------------------------------------------------------------- One move

  function OperationOfClient(c: Client): Operation {
    match c
    case Ready(_, CreateRequest(roomID, name, description, jti)) =>
      OpCreate(CreateRoomInput(roomID, name, description, jti))
    case Writing(_, req, snapshot, _) => OperationOf(req, snapshot)
    case Replaying(_, req, snapshot, _) => OperationOf(req, snapshot)
    case _ => OpCreate(CreateRoomInput([], [], [], []))
  }

  // What a committed transaction does to the board its table represents. A nickname change is described by what it
  // writes, which is the specification's change only where the client's read is still current.
  function CommittedBoard(limits: Limits, board: BoardState, c: Client, ch: Choice): BoardState {
    if c.Ready? && c.req.CreateRequest? then Created(board, c.actor, OperationOfClient(c).create, ch.now)
    else if c.Writing? && c.req.NicknameRequest? then
      var input := OperationOf(c.req, c.snapshot).profile;
      if c.found.None? || SameNickname(c.found.value, input) then board
      else RenamedBoard(board, RoomKeyOf(c.req), c.actor, input, c.found.value.nicknameKey, ch.now)
    else Apply(limits, board, c.actor, OperationOfClient(c), ch.now, ch.messageID).0
  }

  function RenamedBoard(
    board: BoardState, roomKey: Str, agent: Str, input: SetNicknameInput, previous: Str, now: Time): BoardState
  {
    if roomKey in board.rooms && agent in board.rooms[roomKey].members
    then board.(rooms := board.rooms[roomKey := RoomRenamed(board.rooms[roomKey], agent, input, previous, now)])
    else board
  }

  function BoardAfter(limits: Limits, s: System, c: Client, ch: Choice): BoardState {
    if Commits(limits, s.table, c, ch) then CommittedBoard(limits, s.board, c, ch) else s.board
  }

  // A nickname change is disturbed when its actor was revoked after it was read: member versions restart when an
  // agent is granted again.
  predicate Disturbed(s: System, note: Note, c: Client) {
    c.Writing? && c.req.NicknameRequest? && s.revoked[(RoomKeyOf(c.req), c.actor)] != note.revocations
  }

  // The rooms in which a disturbed nickname change has committed.
  function RacedAfter(limits: Limits, s: System, note: Note, c: Client, ch: Choice): set<Str> {
    if Commits(limits, s.table, c, ch) && Disturbed(s, note, c) then s.raced + {RoomKeyOf(c.req)} else s.raced
  }

  predicate WritesAudit(c: Client) {
    match c
    case Ready(_, req) => req.CreateRequest?
    case Writing(_, req, _, found) =>
      req.RevokeRequest? || (req.GrantRequest? && !(found.Some? && found.value.role == req.role))
    case _ => false
  }

  function AuditIDsAfter(limits: Limits, s: System, c: Client, ch: Choice): map<Str, seq<Str>> {
    if Commits(limits, s.table, c, ch) && WritesAudit(c) then
      var roomKey := RoomKeyOf(c.req);
      var earlier := if c.Writing? && roomKey in s.auditIDs then s.auditIDs[roomKey] else [];
      s.auditIDs[roomKey := earlier + [ch.auditID]]
    else s.auditIDs
  }

  function RevokedAfter(limits: Limits, s: System, c: Client, ch: Choice): multiset<(Str, Str)> {
    if Commits(limits, s.table, c, ch) && c.Writing? && c.req.RevokeRequest?
    then s.revoked + multiset{(RoomKeyOf(c.req), c.req.target)}
    else s.revoked
  }

  function NoteAfter(s: System, c: Client, note: Note): Note {
    var roomKey := RoomKeyOf(c.req);
    match c
    case Ready(_, _) =>
      if roomKey in s.board.rooms then note.(roles := RolesOf(s.board.rooms[roomKey].members)) else note
    case GotRoom(actor, _, _) => note.(revocations := s.revoked[(roomKey, actor)])
    case _ => note
  }

  function Next(limits: Limits, s: System, move: Move): System {
    match move
    case Spawn(id, actor, req) =>
      s.(clients := s.clients[id := Ready(actor, req)], notes := s.notes[id := Note(map[], 0)])
    case Act(id, ch) =>
      if id !in s.clients || id !in s.notes then s
      else
        var c := s.clients[id];
        var (table', c') := Step(limits, s.table, c, ch);
        System(
          table',
          BoardAfter(limits, s, c, ch),
          AuditIDsAfter(limits, s, c, ch),
          RevokedAfter(limits, s, c, ch),
          RacedAfter(limits, s, s.notes[id], c, ch),
          s.clients[id := c'],
          s.notes[id := NoteAfter(s, c, s.notes[id])])
  }

  // Any client may act at any time; requests arrive validated and under a new ID.
  predicate Admissible(s: System, move: Move) {
    match move
    case Spawn(id, _, req) => id !in s.clients && Validated(req)
    case Act(id, _) => id in s.clients && id in s.notes
  }

  function Run(limits: Limits, moves: seq<Move>): System {
    if moves == [] then INITIAL else Next(limits, Run(limits, moves[..|moves| - 1]), moves[|moves| - 1])
  }

  predicate AdmissibleRun(limits: Limits, moves: seq<Move>) {
    moves != [] ==>
      AdmissibleRun(limits, moves[..|moves| - 1])
      && Admissible(Run(limits, moves[..|moves| - 1]), moves[|moves| - 1])
  }

  // ---------------------------------------------------------------- How a board evolves

  ghost predicate MembersEvolve(
    roomKey: Str, members: map<Str, Membership>, members': map<Str, Membership>,
    revoked: multiset<(Str, Str)>, revoked': multiset<(Str, Str)>)
  {
    forall agent :: MemberEvolves(roomKey, agent, members, members', revoked, revoked')
  }

  // Unless the agent is revoked its version never goes back, and an equal version means an equal membership.
  predicate MemberEvolves(
    roomKey: Str, agent: Str, members: map<Str, Membership>, members': map<Str, Membership>,
    revoked: multiset<(Str, Str)>, revoked': multiset<(Str, Str)>)
  {
    && revoked[(roomKey, agent)] <= revoked'[(roomKey, agent)]
    && (agent in members && revoked[(roomKey, agent)] == revoked'[(roomKey, agent)] ==>
          && agent in members'
          && members[agent].version <= members'[agent].version
          && (members[agent].version == members'[agent].version ==> members'[agent] == members[agent]))
  }

  predicate RecordsEvolve(idempotency: map<Str, Idempotency>, idempotency': map<Str, Idempotency>) {
    forall key :: key in idempotency ==> key in idempotency' && idempotency'[key] == idempotency[key]
  }

  ghost predicate MessagesEvolve(messages: seq<Message>, messages': seq<Message>) {
    forall id :: FindMessage(messages, id).Some? ==> FindMessage(messages', id) == FindMessage(messages, id)
  }

  // The room version never goes back; while it stands still the allow-list does, and members only rename themselves.
  ghost predicate AllowlistEvolves(state: RoomState, state': RoomState) {
    && SameRoom(state.room, state'.room)
    && state.room.version <= state'.room.version
    && state.audits <= state'.audits
    && (state.room.version == state'.room.version ==>
          RolesOf(state'.members) == RolesOf(state.members) && MembersOnlyRename(state.members, state'.members))
  }

  predicate MembersOnlyRename(members: map<Str, Membership>, members': map<Str, Membership>) {
    forall agent :: agent in members ==> MemberOnlyRenames(members, members', agent)
  }

  predicate MemberOnlyRenames(members: map<Str, Membership>, members': map<Str, Membership>, agent: Str)
    requires agent in members
  {
    && agent in members'
    && members[agent].version <= members'[agent].version
    && (members[agent].version == members'[agent].version ==> members'[agent] == members[agent])
  }

  ghost predicate RoomEvolves(
    roomKey: Str, state: RoomState, state': RoomState, revoked: multiset<(Str, Str)>, revoked': multiset<(Str, Str)>)
  {
    && AllowlistEvolves(state, state')
    && MembersEvolve(roomKey, state.members, state'.members, revoked, revoked')
    && RecordsEvolve(state.idempotency, state'.idempotency)
    && MessagesEvolve(state.messages, state'.messages)
  }

  ghost predicate Evolves(
    board: BoardState, board': BoardState, revoked: multiset<(Str, Str)>, revoked': multiset<(Str, Str)>)
  {
    forall roomKey :: roomKey in board.rooms ==>
      roomKey in board'.rooms && RoomEvolves(roomKey, board.rooms[roomKey], board'.rooms[roomKey], revoked, revoked')
  }

  lemma RoomUnchangedEvolves(
    roomKey: Str, state: RoomState, revoked: multiset<(Str, Str)>, revoked': multiset<(Str, Str)>)
    requires revoked <= revoked'
    ensures RoomEvolves(roomKey, state, state, revoked, revoked')
  {
  }

  // ---------------------------------------------------------------- What clients know

  ghost predicate RoomKnown(board: BoardState, note: Note, roomKey: Str, room: Room) {
    && roomKey in board.rooms
    && SameRoom(room, board.rooms[roomKey].room)
    && room.version <= board.rooms[roomKey].room.version
    && (room.version == board.rooms[roomKey].room.version ==> RolesOf(board.rooms[roomKey].members) == note.roles)
  }

  // `member` was read at `low` revocations of the agent.
  ghost predicate MemberKnown(
    board: BoardState, revoked: multiset<(Str, Str)>, low: nat, roomKey: Str, agent: Str, member: Membership)
  {
    && low <= revoked[(roomKey, agent)]
    && (low == revoked[(roomKey, agent)] && roomKey in board.rooms ==>
          var members := board.rooms[roomKey].members;
          && agent in members
          && member.version <= members[agent].version
          && (member.version == members[agent].version ==> members[agent] == member))
  }

  predicate ForeignTarget(actor: Str, req: Request, owner: Str) {
    req.GrantRequest? || req.RevokeRequest? ==> req.target != actor && req.target != owner
  }

  ghost predicate SnapshotKnown(
    board: BoardState, revoked: multiset<(Str, Str)>, note: Note, actor: Str, req: Request, snapshot: AuthSnapshot)
  {
    && !req.CreateRequest?
    && RoomKnown(board, note, RoomKeyOf(req), snapshot.room)
    && snapshot.membership.Some?
    && snapshot.membership.value.version >= 1
    && MemberKnown(board, revoked, note.revocations, RoomKeyOf(req), actor, snapshot.membership.value)
  }

  // What was found about the target of a grant still holds while the room version stands still; only a renaming
  // can have raised the target's version since.
  ghost predicate TargetKnown(board: BoardState, roomKey: Str, room: Room, target: Str, found: Option<Membership>) {
    roomKey in board.rooms && board.rooms[roomKey].room.version == room.version ==>
      var members := board.rooms[roomKey].members;
      && (target in members <==> found.Some?)
      && (found.Some? ==>
            && members[target].role == found.value.role
            && found.value.version <= members[target].version
            && (found.value.version == members[target].version ==> members[target] == found.value))
  }

  ghost predicate WritingKnown(
    board: BoardState, revoked: multiset<(Str, Str)>, note: Note, actor: Str, req: Request,
    snapshot: AuthSnapshot, found: Option<Membership>)
  {
    match req
    case CreateRequest(_, _, _, _) => false
    case GrantRequest(_, target, _, _) =>
      && TargetKnown(board, RoomKeyOf(req), snapshot.room, target, found)
      && (found.Some? ==> MemberOk(snapshot.room, target, found.value))
    case RevokeRequest(_, _, _) => found.Some?
    case NicknameRequest(_, _, _) =>
      && found.Some? && RoleCan(found.value.role, UpdateNickname)
      && MemberKnown(board, revoked, note.revocations, RoomKeyOf(req), actor, found.value)
      && (revoked[(RoomKeyOf(req), actor)] == note.revocations && snapshot.membership.Some? ==>
            snapshot.membership.value.version <= found.value.version)
    case PostRequest(_, _, _, _) => true
  }

  predicate RecordKnown(board: BoardState, actor: Str, req: Request, record: Idempotency) {
    && req.PostRequest? && RoomKeyOf(req) in board.rooms
    && var idempotency := board.rooms[RoomKeyOf(req)].idempotency;
       var key := IdempotencyKeyOf(actor, req.idempotencyKey);
       key in idempotency && idempotency[key] == record
  }

  // A successful post: its record and its message are in the room, for this very request hash.
  predicate PostKnown(board: BoardState, actor: Str, req: Request, message: Message) {
    && req.PostRequest?
    && RecordKnown(board, actor, req, Idempotency(req.requestHash, message.messageID))
    && FindMessage(board.rooms[RoomKeyOf(req)].messages, message.messageID) == Some(message)
  }

  ghost predicate ClientOk(board: BoardState, revoked: multiset<(Str, Str)>, note: Note, c: Client) {
    && Validated(c.req)
    && match c
       case Ready(_, _) => true
       case GotRoom(_, req, room) => !req.CreateRequest? && RoomKnown(board, note, RoomKeyOf(req), room)
       case Allowed(actor, req, snapshot) => SnapshotKnown(board, revoked, note, actor, req, snapshot)
       case Targeting(actor, req, snapshot) =>
         && SnapshotKnown(board, revoked, note, actor, req, snapshot)
         && (req.GrantRequest? || req.RevokeRequest?)
         && ForeignTarget(actor, req, snapshot.room.owner)
       case Writing(actor, req, snapshot, found) =>
         && SnapshotKnown(board, revoked, note, actor, req, snapshot)
         && ForeignTarget(actor, req, snapshot.room.owner)
         && WritingKnown(board, revoked, note, actor, req, snapshot, found)
       case PostRefused(actor, req, snapshot) =>
         SnapshotKnown(board, revoked, note, actor, req, snapshot) && req.PostRequest?
       case Replaying(actor, req, snapshot, record) =>
         SnapshotKnown(board, revoked, note, actor, req, snapshot) && RecordKnown(board, actor, req, record)
       case Fetching(actor, req, snapshot, record) =>
         RecordKnown(board, actor, req, record) && record.requestHash == req.requestHash
       case ClassifyRoom(_, req, _) => req.PostRequest?
       case ClassifyMember(_, req, _) => req.PostRequest?
       case Finished(actor, req, outcome) =>
         (match outcome
          case Ok(PostReply(message, _)) => PostKnown(board, actor, req, message)
          case _ => true)
  }
}
