/** What every reachable board and every interleaving promise, stated over whole runs. */
module BoardTheorems {
  import opened Bytes
  import opened Board
  import opened BoardSpec
  import opened BoardInvariant
  import opened BoardRuns
  import opened DynamoTable
  import opened DynamoStore
  import opened Refinement
  import opened NicknameRace
  import opened Interleaving
  import opened Stability
  import opened CommitSteps
  import opened RunInvariant
  import Base64Url
  import Authorizer

  // ---------------------------------------------------------------- Linearization

  // The store operations of a run, in the order in which their transactions committed.
  function History(limits: Limits, moves: seq<Move>): seq<Event> {
    if moves == [] then []
    else
      var earlier, move := moves[..|moves| - 1], moves[|moves| - 1];
      var s := Run(limits, earlier);
      History(limits, earlier) +
      if move.Act? && move.id in s.clients && move.id in s.notes
         && Commits(limits, s.table, s.clients[move.id], move.choice)
      then
        var c := s.clients[move.id];
        [Event(c.actor, OperationOfClient(c), move.choice.now, move.choice.messageID)]
      else []
  }

  // Two boards with the same rooms, keys and quotas, and the same content in every room not named.
  predicate AgreeOutside(a: BoardState, b: BoardState, raced: set<Str>) {
    && a.roomKeys == b.roomKeys && a.quotas == b.quotas && a.rooms.Keys == b.rooms.Keys
    && forall roomKey :: roomKey in a.rooms && roomKey !in raced ==> a.rooms[roomKey] == b.rooms[roomKey]
  }

  // An operation in one room does to that room what it would do on any board that holds the same room.
  lemma ApplyAgrees(
    limits: Limits, a: BoardState, b: BoardState, raced: set<Str>, agent: Str, op: Operation, now: Time,
    messageID: Str)
    requires AgreeOutside(a, b, raced)
    ensures AgreeOutside(
              Apply(limits, a, agent, op, now, messageID).0, Apply(limits, b, agent, op, now, messageID).0, raced)
  {
    hide ApplyInRoom, NewRoom, InvalidInput;
  }

  // On the board, a step in a room that has raced touches that room alone.
  lemma RacedStepAgrees(
    limits: Limits, a: BoardState, b: BoardState, raced: set<Str>, roomKey: Str, state': RoomState,
    agent: Str, op: Operation, now: Time, messageID: Str)
    requires AgreeOutside(a, b, raced) && roomKey in raced && roomKey in a.rooms && !op.OpCreate?
    requires RecordByRoomID(b, RoomIDOf(op)) == Ok(roomKey)
    ensures AgreeOutside(
              a.(rooms := a.rooms[roomKey := state']), Apply(limits, b, agent, op, now, messageID).0, raced)
  {
    hide ApplyInRoom, InvalidInput;
  }

  lemma MoreRaced(a: BoardState, b: BoardState, raced: set<Str>, raced': set<Str>)
    requires AgreeOutside(a, b, raced) && raced <= raced'
    ensures AgreeOutside(a, b, raced')
  {
  }

  lemma RenamedBoardRoom(
    board: BoardState, roomKey: Str, agent: Str, input: SetNicknameInput, previous: Str, now: Time)
    returns (state': RoomState)
    requires roomKey in board.rooms
    ensures RenamedBoard(board, roomKey, agent, input, previous, now)
            == board.(rooms := board.rooms[roomKey := state'])
  {
    hide RoomRenamed;
    if agent in board.rooms[roomKey].members {
      state' := RoomRenamed(board.rooms[roomKey], agent, input, previous, now);
    } else {
      state' := board.rooms[roomKey];
      assert board.rooms[roomKey := state'] == board.rooms;
    }
  }

  lemma CommitAgrees(limits: Limits, s: System, id: nat, ch: Choice, spec: BoardState)
    requires SystemOk(limits, s) && Positive(limits) && Admissible(s, Act(id, ch))
    requires Commits(limits, s.table, s.clients[id], ch)
    requires AgreeOutside(s.board, spec, s.raced)
    ensures var c, s' := s.clients[id], Next(limits, s, Act(id, ch));
            AgreeOutside(
              s'.board, Apply(limits, spec, c.actor, OperationOfClient(c), ch.now, ch.messageID).0, s'.raced)
  {
    hide BoardCore, Matches, ClientOk, Apply, ReplyAgrees, WriteAll, TransactionOf, Evolves, Step, AgreeOutside,
      CommittedBoard, IndexExact, Commits, Base64Url.Encode, IndexesKept;
    var c, note := s.clients[id], s.notes[id];
    assert ClientOk(s.board, s.revoked, note, c);
    CommitStep(limits, s, note, c, ch);
    var raced' := RacedAfter(limits, s, note, c, ch);
    if c.Writing? && c.req.NicknameRequest? && RoomKeyOf(c.req) in raced' {
      WriterFacts(s.board, s.revoked, note, c);
      RoomOfRequest(limits, s.board, c.req.roomID);
      NicknameBoardAgrees(limits, s.board, spec, raced', c, ch) by { MoreRaced(s.board, spec, s.raced, raced'); }
    } else {
      ApplyAgrees(limits, s.board, spec, s.raced, c.actor, OperationOfClient(c), ch.now, ch.messageID);
      assert SpecStep(limits, s, note, c);
    }
  }

  lemma WriterFacts(board: BoardState, revoked: multiset<(Str, Str)>, note: Note, c: Client)
    requires ClientOk(board, revoked, note, c) && c.Writing?
    ensures RoomKeyOf(c.req) in board.rooms
  {
  }

  lemma NicknameBoardAgrees(
    limits: Limits, board: BoardState, spec: BoardState, raced: set<Str>, c: Client, ch: Choice)
    requires AgreeOutside(board, spec, raced) && c.Writing? && c.req.NicknameRequest?
    requires RoomKeyOf(c.req) in raced && RoomKeyOf(c.req) in board.rooms
    requires RecordByRoomID(board, c.req.roomID) == Ok(RoomKeyOf(c.req))
    ensures AgreeOutside(
              CommittedBoard(limits, board, c, ch),
              Apply(limits, spec, c.actor, OperationOfClient(c), ch.now, ch.messageID).0, raced)
  {
    hide Apply, RenamedBoard, Base64Url.Encode, SameNickname;
    var roomKey, op := RoomKeyOf(c.req), OperationOfClient(c);
    var input := OperationOf(c.req, c.snapshot).profile;
    assert RecordByRoomID(spec, RoomIDOf(op)) == Ok(roomKey);
    if c.found.None? || SameNickname(c.found.value, input) {
      assert board.rooms[roomKey := board.rooms[roomKey]] == board.rooms;
      RacedStepAgrees(
        limits, board, spec, raced, roomKey, board.rooms[roomKey], c.actor, op, ch.now, ch.messageID);
    } else {
      var state' := RenamedBoardRoom(board, roomKey, c.actor, input, c.found.value.nicknameKey, ch.now);
      RacedStepAgrees(limits, board, spec, raced, roomKey, state', c.actor, op, ch.now, ch.messageID);
    }
  }

  // Whatever the interleaving, the table represents a board that agrees - in every room but those in which a
  // disturbed nickname change committed - with the one an atomic store reaches by executing the committed
  // operations one after the other.
  lemma {:induction false} Linearization(limits: Limits, moves: seq<Move>)
    requires Positive(limits) && AdmissibleRun(limits, moves)
    ensures var s := Run(limits, moves);
            && Matches(s.table, s.board, s.auditIDs)
            && AgreeOutside(s.board, ApplyHistory(limits, History(limits, moves)), s.raced)
            && (s.raced == {} ==> s.board == ApplyHistory(limits, History(limits, moves)) && BoardOk(limits, s.board))
  {
    hide BoardOk, BoardCore, Matches, Step, Commits, Apply, CommittedBoard, ClientsOk, OneNewPost, AgreeOutside, Next;
    RunKeeps(limits, moves);
    if moves == [] {
      assert AgreeOutside(EMPTY_BOARD, EMPTY_BOARD, {}) by { SameAgrees(EMPTY_BOARD); }
    } else {
      var earlier, move := moves[..|moves| - 1], moves[|moves| - 1];
      Linearization(limits, earlier);
      RunKeeps(limits, earlier);
      var before, after := History(limits, earlier), History(limits, moves);
      if |after| > |before| {
        assert after[..|after| - 1] == before;
        CommitAgrees(limits, Run(limits, earlier), move.id, move.choice, ApplyHistory(limits, before));
      } else {
        assert after == before + [];
        assert after == before;
        QuietMove(limits, Run(limits, earlier), move);
      }
    }
    var s := Run(limits, moves);
    if s.raced == {} {
      AgreesFully(s.board, ApplyHistory(limits, History(limits, moves)));
      CoreIsBoard(limits, s.board);
    }
  }

  lemma SameAgrees(board: BoardState)
    ensures AgreeOutside(board, board, {})
  {
  }

  lemma AgreesFully(a: BoardState, b: BoardState)
    requires AgreeOutside(a, b, {})
    ensures a == b
  {
    assert a.rooms == b.rooms;
  }

  lemma QuietMove(limits: Limits, s: System, move: Move)
    requires move.Act? && move.id in s.clients ==> !Commits(limits, s.table, s.clients[move.id], move.choice)
    ensures var s' := Next(limits, s, move);
            s'.board == s.board && s'.raced == s.raced
  {
    hide Commits, Step;
  }

  // A commit that is no disturbed nickname change in its room performs its own operation, on the board at commit
  // time, and reports its outcome.
  lemma CommitIsOneOperation(limits: Limits, moves: seq<Move>, id: nat, ch: Choice)
    requires AdmissibleRun(limits, moves)
    requires var s := Run(limits, moves);
             && Admissible(s, Act(id, ch)) && Commits(limits, s.table, s.clients[id], ch)
             && (s.clients[id].Ready? ==> Positive(limits) || s.clients[id].actor in s.board.quotas)
             && (s.clients[id].req.NicknameRequest? ==>
                   RoomKeyOf(s.clients[id].req) !in Next(limits, s, Act(id, ch)).raced)
    ensures var s := Run(limits, moves);
            var c := s.clients[id];
            var s' := Next(limits, s, Act(id, ch));
            var (board', outcome) := Apply(limits, s.board, c.actor, OperationOfClient(c), ch.now, ch.messageID);
            && s'.board == board'
            && Matches(s'.table, board', s'.auditIDs)
            && Committable(c) && ReplyAgrees(c, ch, outcome)
  {
    hide BoardCore, Matches, ClientOk, Apply, ReplyAgrees, WriteAll, TransactionOf, Evolves, Step, Run, AdmissibleRun,
      CommittedBoard, IndexExact, Base64Url.Encode, Commits;
    var s := Run(limits, moves);
    RunKeeps(limits, moves);
    var c, note := s.clients[id], s.notes[id];
    assert ClientOk(s.board, s.revoked, note, c);
    CommitStep(limits, s, note, c, ch);
    StepWritesAll(limits, s.table, c, ch);
    assert c.req.NicknameRequest? ==> RoomKeyOf(c.req) !in RacedAfter(limits, s, note, c, ch);
    assert SpecStep(limits, s, note, c);
  }

  lemma StepWritesAll(limits: Limits, table: Table, c: Client, ch: Choice)
    requires Commits(limits, table, c, ch) && Committable(c)
    ensures Step(limits, table, c, ch).0 == WriteAll(table, TransactionOf(limits, c, ch).value)
  {
  }

  // A step that commits nothing - a read, a failed condition, an unavailable table - changes neither table nor board.
  lemma QuietStepChangesNothing(limits: Limits, s: System, id: nat, ch: Choice)
    requires id in s.clients && !Commits(limits, s.table, s.clients[id], ch)
    ensures var s' := Next(limits, s, Act(id, ch));
            && s'.table == s.table && s'.board == s.board && s'.auditIDs == s.auditIDs
            && s'.revoked == s.revoked && s'.raced == s.raced
            && forall other :: other in s.clients && other != id ==> s'.clients[other] == s.clients[other]
  {
    QuietTable(limits, s.table, s.clients[id], ch);
    hide Commits, Step;
  }

  lemma QuietTable(limits: Limits, table: Table, c: Client, ch: Choice)
    requires !Commits(limits, table, c, ch)
    ensures Step(limits, table, c, ch).0 == table
  {
    hide WriteAll, Passes, TransactionOf, ReadStep;
  }

  // ---------------------------------------------------------------- Reachable tables

  function MemberKeys(table: Table, roomKey: Str): set<Str> {
    set key | key in table && key.InRoom? && key.roomKey == roomKey && key.sk.Member? :: key.sk.agent
  }

  function AuditKeys(table: Table, roomKey: Str): set<Str> {
    set key | key in table && key.InRoom? && key.roomKey == roomKey && key.sk.AuditEntry? :: key.sk.auditID
  }

  function OwnedMeta(table: Table, agent: Str): set<Str> {
    set key | key in table && key.InRoom? && key.sk.Meta? && table[key].RoomItem? && table[key].room.owner == agent
      :: key.roomKey
  }

  lemma MemberKeysAre(table: Table, roomKey: Str, members: map<Str, Membership>)
    requires MembersMatch(table, roomKey, members)
    ensures MemberKeys(table, roomKey) == members.Keys
  {
    forall agent ensures agent in MemberKeys(table, roomKey) <==> agent in members {
      assert Get(table, InRoom(roomKey, Member(agent))) == MemberEntry(members, agent);
      if agent in members { assert InRoom(roomKey, Member(agent)) in table; }
    }
  }

  lemma {:induction false} DistinctCount(ids: seq<Str>)
    requires forall i, j :: 0 <= i < j < |ids| ==> ids[i] != ids[j]
    ensures |set id | id in ids| == |ids|
  {
    if ids == [] {
      assert (set id | id in ids) == {};
    } else {
      DistinctCount(ids[1..]);
      assert (set id | id in ids) == (set id | id in ids[1..]) + {ids[0]};
      assert ids[0] !in ids[1..];
    }
  }

  lemma AuditKeysCount(table: Table, roomKey: Str, audits: seq<Audit>, ids: seq<Str>)
    requires AuditsMatch(table, roomKey, audits, ids)
    ensures |AuditKeys(table, roomKey)| == |audits|
  {
    DistinctCount(ids);
    forall id ensures id in AuditKeys(table, roomKey) <==> id in ids {
      if id in ids {
        var i :| 0 <= i < |ids| && ids[i] == id;
        assert Get(table, InRoom(roomKey, AuditEntry(ids[i]))) == Some(AuditItem(audits[i]));
        assert InRoom(roomKey, AuditEntry(id)) in table;
      } else {
        assert Get(table, InRoom(roomKey, AuditEntry(id))) == None;
      }
    }
    assert AuditKeys(table, roomKey) == set id | id in ids;
  }

  // The items of one room agree with each other: counters, owner and audit count.
  ghost predicate RoomItemsOk(limits: Limits, table: Table, roomKey: Str, room: Room) {
    && room.roomKey == roomKey == Base64Url.Encode(room.roomID)
    && room.memberCount == |MemberKeys(table, roomKey)|
    && (room.memberCount <= limits.maxMembers || room.memberCount <= 1)
    && room.version == |AuditKeys(table, roomKey)|
    && forall agent ::
         (GetMember(table, roomKey, agent).Some? && GetMember(table, roomKey, agent).value.role == Owner)
         <==> agent == room.owner
  }

  // The NICK items are exactly the inverse of the members' nickname keys.
  ghost predicate NickItemsExact(table: Table, roomKey: Str) {
    forall key, agent ::
      Get(table, InRoom(roomKey, Nick(key))) == Some(NickItem(agent))
      <==> key != [] && GetMember(table, roomKey, agent).Some?
           && GetMember(table, roomKey, agent).value.nicknameKey == key
  }

  lemma MembersRead(table: Table, roomKey: Str, members: map<Str, Membership>)
    requires MembersMatch(table, roomKey, members)
    ensures forall agent ::
              GetMember(table, roomKey, agent) == if agent in members then Some(members[agent]) else None
  {
    forall agent
      ensures GetMember(table, roomKey, agent) == if agent in members then Some(members[agent]) else None
    {
      assert Get(table, InRoom(roomKey, Member(agent))) == MemberEntry(members, agent);
    }
  }

  lemma NicknamesRead(
    table: Table, roomKey: Str, members: map<Str, Membership>, nicknames: map<Str, Str>, key: Str, agent: Str)
    requires NicknamesMatch(table, roomKey, nicknames) && NicknamesOk(members, nicknames)
    ensures Get(table, InRoom(roomKey, Nick(key))) == Some(NickItem(agent))
            <==> key != [] && agent in members && members[agent].nicknameKey == key
  {
    assert Get(table, InRoom(roomKey, Nick(key))) == NickEntry(nicknames, key);
  }

  lemma OwnerIsOne(room: Room, members: map<Str, Membership>, agent: Str)
    requires MembersOk(room, members)
    ensures agent in members && members[agent].role == Owner <==> agent == room.owner
  {
    assert agent in members ==> MemberOk(room, agent, members[agent]);
    assert MemberOk(room, room.owner, members[room.owner]);
  }

  lemma RoomItemsFromMatch(limits: Limits, table: Table, roomKey: Str, state: RoomState, ids: seq<Str>)
    requires RoomMatches(table, roomKey, state, ids) && RoomCore(limits, roomKey, state)
    ensures RoomItemsOk(limits, table, roomKey, state.room)
  {
    hide Base64Url.Encode, MessagesOk, Fold, JustifiedLog, MessagesMatch, IdempotencyMatches, RolesOf, MemberKeys,
      AuditKeys, AuditsMatch, NicknamesMatch, MembersOk, MembersMatch, GetMember;
    MemberKeysAre(table, roomKey, state.members);
    AuditKeysCount(table, roomKey, state.audits, ids);
    MembersRead(table, roomKey, state.members);
    MembersCounted(state.room, state.members);
    forall agent ensures agent in state.members && state.members[agent].role == Owner <==> agent == state.room.owner {
      OwnerIsOne(state.room, state.members, agent);
    }
  }

  lemma NickItemsFromMatch(table: Table, roomKey: Str, state: RoomState, ids: seq<Str>)
    requires RoomMatches(table, roomKey, state, ids)
    ensures NickItemsExact(table, roomKey) <==> NicknamesOk(state.members, state.nicknames)
  {
    hide MessagesMatch, IdempotencyMatches, AuditsMatch, GetMember;
    MembersRead(table, roomKey, state.members);
    if NicknamesOk(state.members, state.nicknames) {
      forall key, agent
        ensures Get(table, InRoom(roomKey, Nick(key))) == Some(NickItem(agent))
                <==> key != [] && agent in state.members && state.members[agent].nicknameKey == key
      {
        NicknamesRead(table, roomKey, state.members, state.nicknames, key, agent);
      }
    }
    if NickItemsExact(table, roomKey) {
      forall key | key in state.nicknames
        ensures key != [] && state.nicknames[key] in state.members
                && state.members[state.nicknames[key]].nicknameKey == key
      {
        assert Get(table, InRoom(roomKey, Nick(key))) == NickEntry(state.nicknames, key);
      }
      forall agent | agent in state.members && state.members[agent].nicknameKey != []
        ensures state.members[agent].nicknameKey in state.nicknames
                && state.nicknames[state.members[agent].nicknameKey] == agent
      {
        var key := state.members[agent].nicknameKey;
        assert Get(table, InRoom(roomKey, Nick(key))) == NickEntry(state.nicknames, key);
      }
    }
  }

  lemma MembersCounted(room: Room, members: map<Str, Membership>)
    requires MembersOk(room, members)
    ensures room.memberCount == |members|
  {
  }

  // Every reachable table is consistent, whatever the interleaving that led to it; the nickname index of a room is
  // exact unless a disturbed nickname change has committed in it.
  lemma ReachableTable(limits: Limits, moves: seq<Move>, roomKey: Str, agent: Str)
    requires AdmissibleRun(limits, moves)
    ensures var s := Run(limits, moves);
            && (GetRoom(s.table, roomKey).Some? ==>
                  && RoomItemsOk(limits, s.table, roomKey, GetRoom(s.table, roomKey).value)
                  && (roomKey !in s.raced ==> NickItemsExact(s.table, roomKey)))
            && (GetRoom(s.table, roomKey).None? ==> NoRoom(s.table, roomKey))
            && (match Get(s.table, Quota(agent))
                case Some(item) =>
                  && item == QuotaItem(|OwnedMeta(s.table, agent)|)
                  && (item.roomCount <= limits.maxRooms || item.roomCount <= 1)
                case None => OwnedMeta(s.table, agent) == {})
  {
    var s := Run(limits, moves);
    RunKeeps(limits, moves);
    hide RoomMatches, RoomCore, Run, AdmissibleRun, RoomItemsOk, NickItemsExact, KeysOk, ClientsOk, OneNewPost,
      QuotaCore, NicknamesOk;
    ReadRoom(s.table, s.board, s.auditIDs, roomKey);
    if roomKey in s.board.rooms {
      RoomItemsFromMatch(limits, s.table, roomKey, s.board.rooms[roomKey], s.auditIDs[roomKey]);
      NickItemsFromMatch(s.table, roomKey, s.board.rooms[roomKey], s.auditIDs[roomKey]);
      assert roomKey !in s.raced ==> IndexExact(s.board, roomKey);
    } else {
      assert NoRoom(s.table, roomKey);
    }
    assert QuotaCore(limits, s.board, agent);
    assert Get(s.table, Quota(agent)) == QuotaEntry(s.board.quotas, agent);
    OwnedMetaIs(s.table, s.board, s.auditIDs, agent);
    QuotaOfItem(limits, s.board, agent);
  }

  lemma QuotaOfItem(limits: Limits, board: BoardState, agent: Str)
    requires QuotaCore(limits, board, agent)
    ensures agent in board.quotas ==>
              && board.quotas[agent] == |OwnedRooms(board, agent)|
              && (board.quotas[agent] <= limits.maxRooms || board.quotas[agent] <= 1)
    ensures agent !in board.quotas ==> OwnedRooms(board, agent) == {}
  {
  }

  lemma OwnedMetaIs(table: Table, board: BoardState, auditIDs: map<Str, seq<Str>>, agent: Str)
    requires Matches(table, board, auditIDs)
    ensures OwnedMeta(table, agent) == OwnedRooms(board, agent)
  {
    hide Matches;
    forall roomKey ensures roomKey in OwnedMeta(table, agent) <==> roomKey in OwnedRooms(board, agent) {
      ReadRoom(table, board, auditIDs, roomKey);
      MetaItem(table, board, auditIDs, roomKey);
    }
  }

  lemma MetaItem(table: Table, board: BoardState, auditIDs: map<Str, seq<Str>>, roomKey: Str)
    requires Matches(table, board, auditIDs)
    ensures Get(table, InRoom(roomKey, Meta)) ==
            if roomKey in board.rooms then Some(RoomItem(board.rooms[roomKey].room)) else None
  {
    if roomKey !in board.rooms {
      assert NoRoom(table, roomKey);
    } else {
      RoomMeta(table, roomKey, board.rooms[roomKey], auditIDs[roomKey]);
    }
  }

  // ---------------------------------------------------------------- Exactly-once posting

  predicate IsPosted(c: Client) {
    c.Finished? && c.req.PostRequest? && c.outcome.Ok? && c.outcome.value.PostReply?
  }

  lemma SlotsAreRequests(a: Client, b: Client)
    requires a.req.PostRequest? && b.req.PostRequest? && HASH !in a.actor && HASH !in b.actor
    ensures SameSlot(a, b) <==>
            a.req.roomID == b.req.roomID && a.actor == b.actor && a.req.idempotencyKey == b.req.idempotencyKey
  {
    Base64Url.EncodeInjective(a.req.roomID, b.req.roomID);
    IdempotencyKeyInjective(a.actor, a.req.idempotencyKey, b.actor, b.req.idempotencyKey);
  }

  // Canonical agent names contain no '#', so agent and key can be read back from the joined text.
  lemma IdempotencyKeyInjective(a: Str, k: Str, b: Str, l: Str)
    requires HASH !in a && HASH !in b
    ensures IdempotencyKeyOf(a, k) == IdempotencyKeyOf(b, l) ==> a == b && k == l
  {
    var x, y := IdempotencyKeyOf(a, k), IdempotencyKeyOf(b, l);
    assert x[|a|] == HASH && y[|b|] == HASH;
    assert |a| < |b| ==> y[|a|] == b[|a|];
    assert |b| < |a| ==> x[|b|] == a[|b|];
    if x == y {
      assert a == x[..|a|] && b == y[..|b|];
      assert k == x[|a| + 1..] && l == y[|b| + 1..];
    }
  }

  lemma PostedIsKnown(limits: Limits, s: System, i: nat)
    requires SystemOk(limits, s) && i in s.clients && IsPosted(s.clients[i])
    ensures PostKnown(s.board, s.clients[i].actor, s.clients[i].req, s.clients[i].outcome.value.message)
  {
    hide Represents, PostKnown, Validated;
    assert ClientOk(s.board, s.revoked, s.notes[i], s.clients[i]);
  }

  lemma OnePost(limits: Limits, s: System, i: nat, j: nat)
    requires SystemOk(limits, s) && i in s.clients && j in s.clients && i != j
    requires IsPosted(s.clients[i]) && IsPosted(s.clients[j]) && SameSlot(s.clients[i], s.clients[j])
    ensures s.clients[i].outcome.value.message == s.clients[j].outcome.value.message
    ensures s.clients[i].req.requestHash == s.clients[j].req.requestHash
    ensures s.clients[i].outcome.value.replay || s.clients[j].outcome.value.replay
  {
    hide Represents, ClientsOk, Base64Url.Encode, IdempotencyKeyOf, FindMessage;
    PostedIsKnown(limits, s, i);
    PostedIsKnown(limits, s, j);
  }

  // All successful posts of one room, agent and key carry one message and one request hash,
  // and at most one of them reports the message as new - whatever retries and lost replies there were.
  lemma ExactlyOnce(limits: Limits, moves: seq<Move>, i: nat, j: nat)
    requires AdmissibleRun(limits, moves)
    requires var clients := Run(limits, moves).clients;
             && i in clients && j in clients && i != j
             && IsPosted(clients[i]) && IsPosted(clients[j])
             && HASH !in clients[i].actor && HASH !in clients[j].actor
             && clients[i].req.roomID == clients[j].req.roomID && clients[i].actor == clients[j].actor
             && clients[i].req.idempotencyKey == clients[j].req.idempotencyKey
    ensures var clients := Run(limits, moves).clients;
            && clients[i].outcome.value.message == clients[j].outcome.value.message
            && clients[i].req.requestHash == clients[j].req.requestHash
            && (clients[i].outcome.value.replay || clients[j].outcome.value.replay)
  {
    hide Run, AdmissibleRun, SystemOk, SameSlot;
    var s := Run(limits, moves);
    RunKeeps(limits, moves);
    SlotsAreRequests(s.clients[i], s.clients[j]);
    OnePost(limits, s, i, j);
  }

  lemma MessageRoom(table: Table, board: BoardState, auditIDs: map<Str, seq<Str>>, roomKey: Str, id: Str)
    requires Matches(table, board, auditIDs)
    ensures GetMessage(table, roomKey, id).Some? ==> roomKey in board.rooms
  {
    hide RoomMatches;
    if roomKey !in board.rooms { assert NoRoom(table, roomKey); }
  }

  lemma MessagesOfOneKey(
    roomID: Str, roomKey: Str, messages: seq<Message>, idempotency: map<Str, Idempotency>, x: Str, y: Str)
    requires MessagesOk(roomID, roomKey, messages, idempotency)
    requires FindMessage(messages, x).Some? && FindMessage(messages, y).Some?
    requires FindMessage(messages, x).value.author == FindMessage(messages, y).value.author
    requires FindMessage(messages, x).value.idempotencyKey == FindMessage(messages, y).value.idempotencyKey
    ensures x == y
  {
    FindIsHas(messages, x);
    FindIsHas(messages, y);
    assert MessageIndexed(idempotency, FindMessage(messages, x).value);
    assert MessageIndexed(idempotency, FindMessage(messages, y).value);
  }

  // In every reachable table two messages of one room, author and key are the same message.
  lemma OneMessagePerKey(limits: Limits, moves: seq<Move>, roomKey: Str, x: Str, y: Str)
    requires AdmissibleRun(limits, moves)
    requires var table := Run(limits, moves).table;
             var a, b := GetMessage(table, roomKey, x), GetMessage(table, roomKey, y);
             && a.Some? && b.Some?
             && a.value.author == b.value.author && a.value.idempotencyKey == b.value.idempotencyKey
    ensures x == y
  {
    hide Run, AdmissibleRun, ClientsOk, OneNewPost, Base64Url.Encode, Matches, MessagesOk, RoomCore;
    var s := Run(limits, moves);
    RunKeeps(limits, moves);
    MessageRoom(s.table, s.board, s.auditIDs, roomKey, x);
    ReadMessage(s.table, s.board, s.auditIDs, roomKey, x);
    ReadMessage(s.table, s.board, s.auditIDs, roomKey, y);
    var state := s.board.rooms[roomKey];
    RoomCoreKey(limits, roomKey, state);
    MessagesOfOneKey(state.room.roomID, roomKey, state.messages, state.idempotency, x, y);
  }

  // ---------------------------------------------------------------- Boards only evolve

  lemma MembersEvolveTransitive(
    roomKey: Str, a: map<Str, Membership>, b: map<Str, Membership>, c: map<Str, Membership>,
    ra: multiset<(Str, Str)>, rb: multiset<(Str, Str)>, rc: multiset<(Str, Str)>)
    requires MembersEvolve(roomKey, a, b, ra, rb) && MembersEvolve(roomKey, b, c, rb, rc)
    ensures MembersEvolve(roomKey, a, c, ra, rc)
  {
    forall agent ensures MemberEvolves(roomKey, agent, a, c, ra, rc) {
      assert MemberEvolves(roomKey, agent, a, b, ra, rb) && MemberEvolves(roomKey, agent, b, c, rb, rc);
    }
  }

  lemma EvolvesTransitive(
    a: BoardState, b: BoardState, c: BoardState,
    ra: multiset<(Str, Str)>, rb: multiset<(Str, Str)>, rc: multiset<(Str, Str)>)
    requires Evolves(a, b, ra, rb) && Evolves(b, c, rb, rc)
    ensures Evolves(a, c, ra, rc)
  {
    hide MembersEvolve, RolesOf;
    forall roomKey | roomKey in a.rooms
      ensures roomKey in c.rooms && RoomEvolves(roomKey, a.rooms[roomKey], c.rooms[roomKey], ra, rc)
    {
      var x, y, z := a.rooms[roomKey], b.rooms[roomKey], c.rooms[roomKey];
      assert RoomEvolves(roomKey, x, y, ra, rb) && RoomEvolves(roomKey, y, z, rb, rc);
      MembersEvolveTransitive(roomKey, x.members, y.members, z.members, ra, rb, rc);
      assert x.audits <= y.audits <= z.audits;
    }
  }

  lemma NextEvolves(limits: Limits, s: System, move: Move)
    requires SystemOk(limits, s) && Admissible(s, move)
    ensures Evolves(s.board, Next(limits, s, move).board, s.revoked, Next(limits, s, move).revoked)
  {
    hide BoardCore, CommittedBoard, Matches, ClientOk, Apply, ReplyAgrees, WriteAll, TransactionOf, Evolves, Step;
    match move
    case Spawn(_, _, _) => SameBoardEvolves(s.board, s.revoked);
    case Act(id, ch) =>
      assert ClientOk(s.board, s.revoked, s.notes[id], s.clients[id]);
      if Commits(limits, s.table, s.clients[id], ch) {
        CommitStep(limits, s, s.notes[id], s.clients[id], ch);
      } else {
        SameBoardEvolves(s.board, s.revoked);
      }
  }

  lemma {:induction false} PrefixAdmissible(limits: Limits, moves: seq<Move>, k: nat)
    requires AdmissibleRun(limits, moves) && k <= |moves|
    ensures AdmissibleRun(limits, moves[..k])
    decreases |moves|
  {
    if k == |moves| {
      assert moves[..k] == moves;
    } else {
      assert moves[..|moves| - 1][..k] == moves[..k];
      PrefixAdmissible(limits, moves[..|moves| - 1], k);
    }
  }

  lemma {:induction false} RunEvolves(limits: Limits, moves: seq<Move>, k: nat)
    requires AdmissibleRun(limits, moves) && k <= |moves|
    ensures var early, late := Run(limits, moves[..k]), Run(limits, moves);
            Evolves(early.board, late.board, early.revoked, late.revoked)
    decreases |moves|
  {
    hide Evolves, SystemOk, Next, Admissible;
    var early, late := Run(limits, moves[..k]), Run(limits, moves);
    if k == |moves| {
      assert moves[..k] == moves;
      SameBoardEvolves(late.board, late.revoked);
    } else {
      var init := moves[..|moves| - 1];
      var middle := Run(limits, init);
      assert init[..k] == moves[..k];
      RunEvolves(limits, init, k);
      RunKeeps(limits, init);
      NextEvolves(limits, middle, moves[|moves| - 1]);
      EvolvesTransitive(early.board, middle.board, late.board, early.revoked, middle.revoked, late.revoked);
    }
  }

  lemma RoomAudits(limits: Limits, roomKey: Str, state: RoomState)
    requires RoomCore(limits, roomKey, state)
    ensures AuditsOk(state.room.owner, state.room.version, state.audits, RolesOf(state.members))
  {
  }

  lemma LogPrefix(limits: Limits, roomKey: Str, x: RoomState, y: RoomState)
    requires RoomCore(limits, roomKey, x) && RoomCore(limits, roomKey, y) && AllowlistEvolves(x, y)
    ensures 0 <= x.room.version <= y.room.version == |y.audits|
    ensures RolesOf(x.members) == Fold(y.audits[..x.room.version])
    ensures x.room.version == y.room.version ==> RolesOf(x.members) == RolesOf(y.members)
  {
    hide RoomCore, Fold, JustifiedLog, RolesOf;
    RoomAudits(limits, roomKey, x);
    RoomAudits(limits, roomKey, y);
    assert y.audits[..x.room.version] == x.audits;
  }

  lemma RoomIsOk(limits: Limits, s: System, roomKey: Str)
    requires SystemOk(limits, s) && roomKey in s.board.rooms
    ensures RoomCore(limits, roomKey, s.board.rooms[roomKey])
  {
  }

  lemma RoomEvolution(
    board: BoardState, board': BoardState, revoked: multiset<(Str, Str)>, revoked': multiset<(Str, Str)>, roomKey: Str)
    requires Evolves(board, board', revoked, revoked') && roomKey in board.rooms
    ensures roomKey in board'.rooms && AllowlistEvolves(board.rooms[roomKey], board'.rooms[roomKey])
  {
    assert RoomEvolves(roomKey, board.rooms[roomKey], board'.rooms[roomKey], revoked, revoked');
  }

  // The audit log remembers every earlier allow-list: the first `version` entries, folded, give the roles
  // as they were when the room had that version; and an equal version means an equal allow-list.
  lemma AllowlistHistory(limits: Limits, moves: seq<Move>, k: nat, roomKey: Str)
    requires AdmissibleRun(limits, moves) && k <= |moves|
    requires roomKey in Run(limits, moves[..k]).board.rooms
    ensures var early, late := Run(limits, moves[..k]).board, Run(limits, moves).board;
            && roomKey in late.rooms
            && var x, y := early.rooms[roomKey], late.rooms[roomKey];
               && 0 <= x.room.version <= y.room.version == |y.audits|
               && RolesOf(x.members) == Fold(y.audits[..x.room.version])
               && (x.room.version == y.room.version ==> RolesOf(x.members) == RolesOf(y.members))
  {
    hide Run, AdmissibleRun, SystemOk, Evolves, AllowlistEvolves, RoomCore, Fold, RolesOf;
    PrefixAdmissible(limits, moves, k);
    RunKeeps(limits, moves[..k]);
    RunKeeps(limits, moves);
    RunEvolves(limits, moves, k);
    var early, late := Run(limits, moves[..k]), Run(limits, moves);
    RoomEvolution(early.board, late.board, early.revoked, late.revoked, roomKey);
    RoomIsOk(limits, early, roomKey);
    RoomIsOk(limits, late, roomKey);
    LogPrefix(limits, roomKey, early.board.rooms[roomKey], late.board.rooms[roomKey]);
  }
}
