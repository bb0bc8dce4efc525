/** Reads establish what clients know, and every run keeps the invariant. */
module RunInvariant {
  import opened Bytes
  import opened Board
  import opened BoardSpec
  import opened BoardInvariant
  import opened DynamoTable
  import opened DynamoStore
  import opened Refinement
  import Base64Url
  import Authorizer
  import opened Interleaving
  import opened Stability
  import opened CommitSteps

  // ---------------------------------------------------------------- Reads

  lemma ReadRoom(table: Table, board: BoardState, auditIDs: map<Str, seq<Str>>, roomKey: Str)
    requires Matches(table, board, auditIDs)
    ensures GetRoom(table, roomKey) == if roomKey in board.rooms then Some(board.rooms[roomKey].room) else None
  {
    if roomKey !in board.rooms {
      assert NoRoom(table, roomKey);
    } else {
      RoomMeta(table, roomKey, board.rooms[roomKey], auditIDs[roomKey]);
    }
  }

  lemma ReadMember(table: Table, board: BoardState, auditIDs: map<Str, seq<Str>>, roomKey: Str, agent: Str)
    requires Matches(table, board, auditIDs)
    ensures GetMember(table, roomKey, agent) ==
            if roomKey in board.rooms && agent in board.rooms[roomKey].members
            then Some(board.rooms[roomKey].members[agent]) else None
  {
    if roomKey !in board.rooms {
      assert NoRoom(table, roomKey);
    } else {
      assert Get(table, InRoom(roomKey, Member(agent))) == MemberEntry(board.rooms[roomKey].members, agent);
    }
  }

  lemma ReadRecord(table: Table, board: BoardState, auditIDs: map<Str, seq<Str>>, roomKey: Str, key: Str)
    requires Matches(table, board, auditIDs)
    ensures GetIdempotency(table, roomKey, key) ==
            if roomKey in board.rooms && key in board.rooms[roomKey].idempotency
            then Some(board.rooms[roomKey].idempotency[key]) else None
  {
    if roomKey !in board.rooms {
      assert NoRoom(table, roomKey);
    } else {
      assert Get(table, InRoom(roomKey, Idemp(key))) == IdempotencyEntry(board.rooms[roomKey].idempotency, key);
    }
  }

  lemma ReadMessage(table: Table, board: BoardState, auditIDs: map<Str, seq<Str>>, roomKey: Str, id: Str)
    requires Matches(table, board, auditIDs) && roomKey in board.rooms
    ensures GetMessage(table, roomKey, id) == FindMessage(board.rooms[roomKey].messages, id)
  {
    assert Get(table, InRoom(roomKey, Msg(id))) == MessageEntry(board.rooms[roomKey].messages, id);
  }

  // An authorized snapshot always carries the actor's membership, so the actor version is never zero.
  lemma AuthorizedHasMembership(
    limits: Limits, board: BoardState, roomKey: Str, actor: Str, action: Board.Action, room: Room,
    context: Authorizer.AuthContext)
    requires BoardCore(limits, board) && roomKey in board.rooms && SameRoom(room, board.rooms[roomKey].room)
    requires action != CreateRoom && action != ListOwnRooms
    requires var members := board.rooms[roomKey].members;
             Authorizer.Authorized(
               actor, action, AuthSnapshot(room, if actor in members then Some(members[actor]) else None), context)
    ensures actor in board.rooms[roomKey].members && board.rooms[roomKey].members[actor].version >= 1
  {
    assert RoomCore(limits, roomKey, board.rooms[roomKey]);
  }

  lemma MemberIsOk(limits: Limits, board: BoardState, roomKey: Str, room: Room, agent: Str)
    requires BoardCore(limits, board) && roomKey in board.rooms && SameRoom(room, board.rooms[roomKey].room)
    requires agent in board.rooms[roomKey].members
    ensures MemberOk(room, agent, board.rooms[roomKey].members[agent])
  {
    assert RoomCore(limits, roomKey, board.rooms[roomKey]);
    assert MemberOk(board.rooms[roomKey].room, agent, board.rooms[roomKey].members[agent]);
  }

  ghost predicate Represents(limits: Limits, s: System) {
    BoardCore(limits, s.board) && Matches(s.table, s.board, s.auditIDs)
  }

  // Taking the snapshot: the room, then the member.
  lemma SnapshotReadOk(limits: Limits, s: System, note: Note, c: Client)
    requires Represents(limits, s) && ClientOk(s.board, s.revoked, note, c)
    requires (c.Ready? && !c.req.CreateRequest?) || c.GotRoom?
    ensures ClientOk(s.board, s.revoked, NoteAfter(s, c, note), ReadStep(s.table, c))
  {
    hide Matches, Base64Url.Encode, BoardCore, RolesOf, Validated;
    var roomKey := RoomKeyOf(c.req);
    if c.Ready? {
      ReadRoom(s.table, s.board, s.auditIDs, roomKey);
    } else {
      ReadMember(s.table, s.board, s.auditIDs, roomKey, c.actor);
      if Authorizer.Authorized(
          c.actor, ActionOf(c.req), AuthSnapshot(c.room, GetMember(s.table, roomKey, c.actor)), ContextOf(c.req)) {
        AuthorizedHasMembership(limits, s.board, roomKey, c.actor, ActionOf(c.req), c.room, ContextOf(c.req));
      }
    }
  }

  lemma AllowedReadOk(limits: Limits, s: System, note: Note, c: Client)
    requires Represents(limits, s) && ClientOk(s.board, s.revoked, note, c) && c.Allowed?
    ensures ClientOk(s.board, s.revoked, note, ReadStep(s.table, c))
  {
    hide Matches, Base64Url.Encode, BoardCore, RolesOf, Validated, IdempotencyKeyOf;
    var roomKey := RoomKeyOf(c.req);
    match c.req
    case NicknameRequest(_, _, _) => ReadMember(s.table, s.board, s.auditIDs, roomKey, c.actor);
    case PostRequest(_, _, key, _) =>
      ReadRecord(s.table, s.board, s.auditIDs, roomKey, IdempotencyKeyOf(c.actor, key));
    case _ => ReadRoom(s.table, s.board, s.auditIDs, roomKey);
  }

  lemma TargetingReadOk(limits: Limits, s: System, note: Note, c: Client)
    requires Represents(limits, s) && ClientOk(s.board, s.revoked, note, c) && c.Targeting?
    ensures ClientOk(s.board, s.revoked, note, ReadStep(s.table, c))
  {
    hide Matches, Base64Url.Encode, BoardCore, Validated, MemberOk;
    var roomKey := RoomKeyOf(c.req);
    ReadMember(s.table, s.board, s.auditIDs, roomKey, c.req.target);
    if c.req.target in s.board.rooms[roomKey].members {
      MemberIsOk(limits, s.board, roomKey, c.snapshot.room, c.req.target);
    }
  }

  lemma LateReadOk(limits: Limits, s: System, note: Note, c: Client)
    requires Represents(limits, s) && ClientOk(s.board, s.revoked, note, c)
    requires c.PostRefused? || c.Fetching? || c.ClassifyRoom? || c.ClassifyMember?
    ensures ClientOk(s.board, s.revoked, note, ReadStep(s.table, c))
  {
    hide Matches, Base64Url.Encode, BoardCore, RolesOf, Validated, IdempotencyKeyOf;
    var roomKey := RoomKeyOf(c.req);
    if c.PostRefused? {
      ReadRecord(s.table, s.board, s.auditIDs, roomKey, IdempotencyKeyOf(c.actor, c.req.idempotencyKey));
    } else if c.Fetching? {
      ReadMessage(s.table, s.board, s.auditIDs, roomKey, c.record.messageID);
      FindIsHas(s.board.rooms[roomKey].messages, c.record.messageID);
    }
  }

  // ---------------------------------------------------------------- The invariant of all runs

  predicate IsNewPost(c: Client) {
    c.Finished? && c.req.PostRequest? && c.outcome.Ok? && c.outcome.value.PostReply? && !c.outcome.value.replay
  }

  predicate SameSlot(a: Client, b: Client) {
    && a.req.PostRequest? && b.req.PostRequest?
    && RoomKeyOf(a.req) == RoomKeyOf(b.req)
    && IdempotencyKeyOf(a.actor, a.req.idempotencyKey) == IdempotencyKeyOf(b.actor, b.req.idempotencyKey)
  }

  predicate OneNewPost(clients: map<nat, Client>) {
    forall i, j :: i in clients && j in clients && i != j && IsNewPost(clients[i]) && IsNewPost(clients[j]) ==>
      !SameSlot(clients[i], clients[j])
  }

  ghost predicate ClientsOk(
    board: BoardState, revoked: multiset<(Str, Str)>, notes: map<nat, Note>, clients: map<nat, Client>)
  {
    forall id :: id in clients ==> id in notes && ClientOk(board, revoked, notes[id], clients[id])
  }

  ghost predicate SystemOk(limits: Limits, s: System) {
    && Represents(limits, s)
    && ClientsOk(s.board, s.revoked, s.notes, s.clients)
    && OneNewPost(s.clients)
    && IndexesExact(s)
  }

  // Nickname indexes are exact wherever no disturbed nickname change has committed.
  ghost predicate IndexesExact(s: System) {
    forall roomKey :: roomKey !in s.raced ==> IndexExact(s.board, roomKey)
  }

  lemma CommitStep(limits: Limits, s: System, note: Note, c: Client, ch: Choice)
    requires Represents(limits, s)
    requires ClientOk(s.board, s.revoked, note, c) && Commits(limits, s.table, c, ch)
    ensures Committable(c) && CommitRefines(limits, s, note, c, ch)
    ensures c.Writing? && c.req.PostRequest? ==>
              KeyUnused(s.board, c.actor, c.req) && PostReplyKnown(CommittedBoard(limits, s.board, c, ch), c, ch)
  {
    hide CommitRefines, BoardCore, Matches, Apply, Passes, SnapshotKnown, WriteAll, KeyUnused, PostReplyKnown,
      CommittedBoard, GrantWrites, RevokeWrites, NicknameWrites, PostWrites, CreateWrites, MemberGuard, GrantGuard,
      Base64Url.Encode, MemberKnown, TargetKnown, RecordKnown, Validated, SameNickname;
    if c.Replaying? {
      ReplayStep(limits, s, note, c, ch);
    } else if c.Ready? {
      CreateStep(limits, s, note, c, ch);
    } else {
      assert c.Writing?;
      match c.req
      case GrantRequest(_, _, _, _) =>
        if c.found.Some? && c.found.value.role == c.req.role {
          GrantGuardStep(limits, s, note, c, ch);
        } else {
          GrantWriteStep(limits, s, note, c, ch);
        }
      case RevokeRequest(_, _, _) => RevokeStep(limits, s, note, c, ch);
      case NicknameRequest(_, _, _) =>
        if SameNickname(c.found.value, OperationOf(c.req, c.snapshot).profile) {
          NicknameGuardStep(limits, s, note, c, ch);
        } else {
          NicknameWriteStep(limits, s, note, c, ch);
        }
      case PostRequest(_, _, _, _) => PostStep(limits, s, note, c, ch);
      case CreateRequest(_, _, _, _) =>
    }
  }

  // Where a client stands after a step that committed nothing.
  lemma QuietStepOk(limits: Limits, s: System, note: Note, c: Client, ch: Choice)
    requires Represents(limits, s) && ClientOk(s.board, s.revoked, note, c) && !Commits(limits, s.table, c, ch)
    ensures Step(limits, s.table, c, ch).0 == s.table
    ensures ClientOk(s.board, s.revoked, NoteAfter(s, c, note), Step(limits, s.table, c, ch).1)
    ensures IsNewPost(Step(limits, s.table, c, ch).1) ==> IsNewPost(c)
  {
    hide BoardCore, Matches, SnapshotKnown, WritingKnown, PostKnown, Validated, Base64Url.Encode,
      RoomKnown, GrantWrites, RevokeWrites, NicknameWrites, PostWrites, CreateWrites, MemberGuard, GrantGuard,
      SameNickname, Passes, WriteAll;
    if c.Finished? {
    } else if TransactionOf(limits, c, ch).Some? {
    } else if ch.fault != NoFault {
    } else if c.Ready? || c.GotRoom? {
      SnapshotReadOk(limits, s, note, c);
    } else if c.Allowed? {
      AllowedReadOk(limits, s, note, c);
    } else if c.Targeting? {
      TargetingReadOk(limits, s, note, c);
    } else if !c.Writing? {
      LateReadOk(limits, s, note, c);
    }
  }

  lemma CommittedClientOk(limits: Limits, s: System, note: Note, c: Client, ch: Choice)
    requires Committable(c) && Commits(limits, s.table, c, ch) && CommitRefines(limits, s, note, c, ch)
    requires ClientOk(s.board, s.revoked, note, c)
    requires c.Writing? && c.req.PostRequest? ==> PostReplyKnown(BoardAfter(limits, s, c, ch), c, ch)
    ensures ClientOk(
              BoardAfter(limits, s, c, ch), RevokedAfter(limits, s, c, ch), NoteAfter(s, c, note),
              AfterCommit(c, ch))
  {
    hide BoardCore, Matches, SnapshotKnown, WritingKnown, Validated, Base64Url.Encode, RoomKnown, PostKnown,
      RecordKnown, Evolves, Apply;
    if c.Replaying? {
      RecordStable(
        s.board, BoardAfter(limits, s, c, ch), s.revoked, RevokedAfter(limits, s, c, ch), c.actor, c.req, c.record);
    }
  }

  lemma OthersStable(
    board: BoardState, board': BoardState, revoked: multiset<(Str, Str)>, revoked': multiset<(Str, Str)>,
    notes: map<nat, Note>, clients: map<nat, Client>, id: nat, note: Note, c: Client)
    requires ClientsOk(board, revoked, notes, clients) && Evolves(board, board', revoked, revoked')
    requires ClientOk(board', revoked', note, c)
    ensures ClientsOk(board', revoked', notes[id := note], clients[id := c])
  {
    hide ClientOk, Evolves;
    forall other | other in clients && other != id ensures ClientOk(board', revoked', notes[other], clients[other]) {
      ClientStable(board, board', revoked, revoked', notes[other], clients[other]);
    }
  }

  lemma SameBoardEvolves(board: BoardState, revoked: multiset<(Str, Str)>)
    ensures Evolves(board, board, revoked, revoked)
  {
    forall roomKey | roomKey in board.rooms
      ensures RoomEvolves(roomKey, board.rooms[roomKey], board.rooms[roomKey], revoked, revoked)
    {
      RoomUnchangedEvolves(roomKey, board.rooms[roomKey], revoked, revoked);
    }
  }

  // A post can be new only while its slot is empty, so no earlier post of that slot was new.
  lemma NewPostIsFirst(
    board: BoardState, revoked: multiset<(Str, Str)>, notes: map<nat, Note>, clients: map<nat, Client>,
    id: nat, c: Client)
    requires ClientsOk(board, revoked, notes, clients) && OneNewPost(clients)
    requires IsNewPost(c) ==> KeyUnused(board, c.actor, c.req) || (id in clients && clients[id] == c)
    ensures OneNewPost(clients[id := c])
  {
    hide Base64Url.Encode;
    forall other | other in clients && other != id && IsNewPost(clients[other]) && IsNewPost(c)
      ensures !SameSlot(clients[other], c) && !SameSlot(c, clients[other])
    {
      assert ClientOk(board, revoked, notes[other], clients[other]);
      assert PostKnown(board, clients[other].actor, clients[other].req, clients[other].outcome.value.message);
    }
  }

  lemma CommitKeeps(limits: Limits, s: System, id: nat, ch: Choice)
    requires SystemOk(limits, s) && Admissible(s, Act(id, ch))
    requires Commits(limits, s.table, s.clients[id], ch)
    ensures SystemOk(limits, Next(limits, s, Act(id, ch)))
  {
    hide BoardCore, Matches, ClientOk, Evolves, Base64Url.Encode, Apply, KeyUnused, PostReplyKnown, ReplyAgrees,
      WriteAll, AuditIDsAfter, RevokedAfter, NoteAfter, OneNewPost, CommittedBoard, SpecAgrees, IndexExact;
    var c, note := s.clients[id], s.notes[id];
    assert ClientOk(s.board, s.revoked, note, c);
    CommitStep(limits, s, note, c, ch);
    var board', revoked' := BoardAfter(limits, s, c, ch), RevokedAfter(limits, s, c, ch);
    CommittedClientOk(limits, s, note, c, ch);
    var c' := Step(limits, s.table, c, ch).1;
    FailOk(board', revoked', note, c, NoteAfter(s, c, note), Dependency, s.board, s.revoked);
    OthersStable(s.board, board', s.revoked, revoked', s.notes, s.clients, id, NoteAfter(s, c, note), c');
    NewPostIsFirst(s.board, s.revoked, s.notes, s.clients, id, c');
  }

  lemma FailOk(
    board': BoardState, revoked': multiset<(Str, Str)>, note: Note, c: Client, note': Note, error: Error,
    board: BoardState, revoked: multiset<(Str, Str)>)
    requires ClientOk(board, revoked, note, c)
    ensures ClientOk(board', revoked', note', Fail(c, error))
  {
  }

  lemma QuietKeeps(limits: Limits, s: System, id: nat, ch: Choice)
    requires SystemOk(limits, s) && id in s.clients && id in s.notes
    requires !Commits(limits, s.table, s.clients[id], ch)
    ensures SystemOk(limits, Next(limits, s, Act(id, ch)))
    ensures var s' := Next(limits, s, Act(id, ch));
            && s'.table == s.table && s'.board == s.board && s'.auditIDs == s.auditIDs
            && s'.revoked == s.revoked && s'.raced == s.raced
  {
    hide BoardCore, Matches, ClientOk, Evolves, Base64Url.Encode, Apply, KeyUnused, NoteAfter, OneNewPost, Step,
      Commits;
    var c, note := s.clients[id], s.notes[id];
    assert ClientOk(s.board, s.revoked, note, c);
    QuietStepOk(limits, s, note, c, ch);
    var c' := Step(limits, s.table, c, ch).1;
    SameBoardEvolves(s.board, s.revoked);
    OthersStable(s.board, s.board, s.revoked, s.revoked, s.notes, s.clients, id, NoteAfter(s, c, note), c');
    QuietNewPost(limits, s.table, c, ch);
    NewPostIsFirst(s.board, s.revoked, s.notes, s.clients, id, c');
  }

  // A finished client stays as it is.
  lemma QuietNewPost(limits: Limits, table: Table, c: Client, ch: Choice)
    ensures IsNewPost(c) ==> Step(limits, table, c, ch).1 == c
  {
  }

  // Every move of every client keeps the invariant.
  lemma NextKeeps(limits: Limits, s: System, move: Move)
    requires SystemOk(limits, s) && Admissible(s, move)
    ensures SystemOk(limits, Next(limits, s, move))
  {
    hide BoardCore, Matches, ClientOk, Step, Commits, OneNewPost;
    match move
    case Spawn(id, actor, req) =>
      assert ClientOk(s.board, s.revoked, Note(map[], 0), Ready(actor, req)) by {
        ReadyOk(s.board, s.revoked, actor, req);
      }
      NewPostIsFirst(s.board, s.revoked, s.notes, s.clients, id, Ready(actor, req));
    case Act(id, ch) =>
      if Commits(limits, s.table, s.clients[id], ch) {
        CommitKeeps(limits, s, id, ch);
      } else {
        QuietKeeps(limits, s, id, ch);
      }
  }

  lemma ReadyOk(board: BoardState, revoked: multiset<(Str, Str)>, actor: Str, req: Request)
    requires Validated(req)
    ensures ClientOk(board, revoked, Note(map[], 0), Ready(actor, req))
  {
  }

  lemma InitialOk(limits: Limits)
    ensures SystemOk(limits, INITIAL)
  {
    assert forall agent :: OwnedRooms(EMPTY_BOARD, agent) == {};
  }

  lemma {:induction false} RunKeeps(limits: Limits, moves: seq<Move>)
    requires AdmissibleRun(limits, moves)
    ensures SystemOk(limits, Run(limits, moves))
  {
    if moves == [] {
      InitialOk(limits);
    } else {
      RunKeeps(limits, moves[..|moves| - 1]);
      NextKeeps(limits, Run(limits, moves[..|moves| - 1]), moves[|moves| - 1]);
    }
  }
}
