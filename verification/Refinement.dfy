/** The table represents a board, and each committed transaction is one operation of the specification on it. */
module Refinement {
  import opened Bytes
  import opened Board
  import opened BoardSpec
  import opened BoardInvariant
  import opened DynamoTable
  import opened DynamoStore
  import Base64Url

  // ---------------------------------------------------------------- Representation

  function MemberEntry(members: map<Str, Membership>, agent: Str): Option<Item> {
    if agent in members then Some(MemberItem(members[agent])) else None
  }

  function NickEntry(nicknames: map<Str, Str>, key: Str): Option<Item> {
    if key in nicknames then Some(NickItem(nicknames[key])) else None
  }

  function IdempotencyEntry(idempotency: map<Str, Idempotency>, key: Str): Option<Item> {
    if key in idempotency then Some(IdempotencyItem(idempotency[key])) else None
  }

  function MessageEntry(messages: seq<Message>, id: Str): Option<Item> {
    match FindMessage(messages, id)
    case Some(message) => Some(MessageItem(message))
    case None => None
  }

  function QuotaEntry(quotas: map<Str, int>, agent: Str): Option<Item> {
    if agent in quotas then Some(QuotaItem(quotas[agent])) else None
  }

  ghost predicate MembersMatch(table: Table, roomKey: Str, members: map<Str, Membership>) {
    forall agent :: Get(table, InRoom(roomKey, Member(agent))) == MemberEntry(members, agent)
  }

  ghost predicate NicknamesMatch(table: Table, roomKey: Str, nicknames: map<Str, Str>) {
    forall key :: Get(table, InRoom(roomKey, Nick(key))) == NickEntry(nicknames, key)
  }

  ghost predicate IdempotencyMatches(table: Table, roomKey: Str, idempotency: map<Str, Idempotency>) {
    forall key :: Get(table, InRoom(roomKey, Idemp(key))) == IdempotencyEntry(idempotency, key)
  }

  ghost predicate MessagesMatch(table: Table, roomKey: Str, messages: seq<Message>) {
    forall id :: Get(table, InRoom(roomKey, Msg(id))) == MessageEntry(messages, id)
  }

  // The table keeps audit entries under unordered IDs; `ids` lists them in commit order.
  ghost predicate AuditsMatch(table: Table, roomKey: Str, audits: seq<Audit>, ids: seq<Str>) {
    && |ids| == |audits|
    && (forall i, j :: 0 <= i < j < |ids| ==> ids[i] != ids[j])
    && (forall i :: 0 <= i < |ids| ==> Get(table, InRoom(roomKey, AuditEntry(ids[i]))) == Some(AuditItem(audits[i])))
    && (forall id :: id !in ids ==> Get(table, InRoom(roomKey, AuditEntry(id))) == None)
  }

  ghost predicate RoomMatches(table: Table, roomKey: Str, state: RoomState, ids: seq<Str>) {
    && Get(table, InRoom(roomKey, Meta)) == Some(RoomItem(state.room))
    && MembersMatch(table, roomKey, state.members)
    && NicknamesMatch(table, roomKey, state.nicknames)
    && IdempotencyMatches(table, roomKey, state.idempotency)
    && MessagesMatch(table, roomKey, state.messages)
    && AuditsMatch(table, roomKey, state.audits, ids)
  }

  ghost predicate NoRoom(table: Table, roomKey: Str) {
    forall sk :: Get(table, InRoom(roomKey, sk)) == None
  }

  // Every item of the table is accounted for by the board, and the other way round.
  ghost predicate Matches(table: Table, board: BoardState, auditIDs: map<Str, seq<Str>>) {
    && (forall roomKey :: roomKey in board.rooms ==>
          roomKey in auditIDs && RoomMatches(table, roomKey, board.rooms[roomKey], auditIDs[roomKey]))
    && (forall roomKey :: roomKey !in board.rooms ==> NoRoom(table, roomKey))
    && (forall agent :: Get(table, Quota(agent)) == QuotaEntry(board.quotas, agent))
  }

  lemma {:induction false} FoundIsHeld(messages: seq<Message>, id: Str) returns (i: nat)
    requires FindMessage(messages, id).Some?
    ensures i < |messages| && messages[i].messageID == id && FindMessage(messages, id) == Some(messages[i])
  {
    if messages[0].messageID == id {
      i := 0;
    } else {
      i := FoundIsHeld(messages[1..], id);
      i := i + 1;
    }
  }

  // The first message of a sorted list that another sorted list also holds everything of is its first too.
  lemma FoundHead(a: seq<Message>, b: seq<Message>)
    requires SortedByID(a) && SortedByID(b) && a != []
    requires forall id :: FindMessage(a, id) == FindMessage(b, id)
    ensures b != [] && a[0] == b[0]
  {
    FindMessageInSorted(a, 0);
    var j := FoundIsHeld(b, a[0].messageID);
    FindMessageInSorted(b, 0);
    var i := FoundIsHeld(a, b[0].messageID);
    if i > 0 && j > 0 {
      LessAsymmetric(a[0].messageID, a[i].messageID);
      assert false;
    }
  }

  // A sorted list of messages is determined by what is found under each ID.
  lemma {:induction false} FoundDetermines(a: seq<Message>, b: seq<Message>)
    requires SortedByID(a) && SortedByID(b)
    requires forall id :: FindMessage(a, id) == FindMessage(b, id)
    ensures a == b
  {
    if a == [] {
      if b != [] { FoundHead(b, a); }
    } else {
      FoundHead(a, b);
      forall id ensures FindMessage(a[1..], id) == FindMessage(b[1..], id) {
        if id == a[0].messageID {
          NotAfterHead(a);
          NotAfterHead(b);
        } else {
          assert FindMessage(a, id) == FindMessage(b, id);
        }
      }
      FoundDetermines(a[1..], b[1..]);
      assert a == [a[0]] + a[1..] && b == [b[0]] + b[1..];
    }
  }

  lemma NotAfterHead(messages: seq<Message>)
    requires SortedByID(messages) && messages != []
    ensures FindMessage(messages[1..], messages[0].messageID) == None
  {
    if FindMessage(messages[1..], messages[0].messageID).Some? {
      var i := FoundIsHeld(messages[1..], messages[0].messageID);
      assert Less(messages[0].messageID, messages[1..][i].messageID);
      LessAsymmetric(messages[0].messageID, messages[1..][i].messageID);
    }
  }

  // A table represents at most one board, up to the redundant room-ID index: the messages as the sorted list they
  // are kept in, the audit log in the order its entries were written in.
  lemma RepresentationUnique(
    table: Table, a: BoardState, b: BoardState, aIDs: map<Str, seq<Str>>, bIDs: map<Str, seq<Str>>, roomKey: Str)
    requires Matches(table, a, aIDs) && Matches(table, b, bIDs)
    ensures a.quotas == b.quotas
    ensures roomKey in a.rooms <==> roomKey in b.rooms
    ensures roomKey in a.rooms ==>
              var x, y := a.rooms[roomKey], b.rooms[roomKey];
              && x.room == y.room && x.members == y.members && x.nicknames == y.nicknames
              && x.idempotency == y.idempotency
              && (SortedByID(x.messages) && SortedByID(y.messages) ==> x.messages == y.messages)
              && multiset(aIDs[roomKey]) == multiset(bIDs[roomKey])
              && (aIDs[roomKey] == bIDs[roomKey] ==> x.audits == y.audits)
  {
    forall agent ensures QuotaEntry(a.quotas, agent) == QuotaEntry(b.quotas, agent) {
      assert Get(table, Quota(agent)) == QuotaEntry(a.quotas, agent);
    }
    assert roomKey in a.rooms ==> Get(table, InRoom(roomKey, Meta)).Some?;
    assert roomKey in b.rooms ==> Get(table, InRoom(roomKey, Meta)).Some?;
    if roomKey in a.rooms && roomKey in b.rooms {
      RoomUnique(table, roomKey, a.rooms[roomKey], b.rooms[roomKey], aIDs[roomKey], bIDs[roomKey]);
      AuditsUnique(table, roomKey, a.rooms[roomKey].audits, b.rooms[roomKey].audits, aIDs[roomKey], bIDs[roomKey]);
    }
    assert forall agent :: agent in a.quotas <==> QuotaEntry(a.quotas, agent).Some?;
    assert forall agent :: agent in b.quotas <==> QuotaEntry(b.quotas, agent).Some?;
  }

  lemma RoomUnique(table: Table, roomKey: Str, x: RoomState, y: RoomState, xIDs: seq<Str>, yIDs: seq<Str>)
    requires RoomMatches(table, roomKey, x, xIDs) && RoomMatches(table, roomKey, y, yIDs)
    ensures x.room == y.room && x.members == y.members && x.nicknames == y.nicknames
    ensures x.idempotency == y.idempotency
    ensures SortedByID(x.messages) && SortedByID(y.messages) ==> x.messages == y.messages
  {
    forall agent ensures MemberEntry(x.members, agent) == MemberEntry(y.members, agent) {
      assert Get(table, InRoom(roomKey, Member(agent))) == MemberEntry(x.members, agent);
    }
    assert forall agent :: agent in x.members <==> MemberEntry(x.members, agent).Some?;
    assert forall agent :: agent in y.members <==> MemberEntry(y.members, agent).Some?;
    forall key ensures NickEntry(x.nicknames, key) == NickEntry(y.nicknames, key) {
      assert Get(table, InRoom(roomKey, Nick(key))) == NickEntry(x.nicknames, key);
    }
    assert forall key :: key in x.nicknames <==> NickEntry(x.nicknames, key).Some?;
    assert forall key :: key in y.nicknames <==> NickEntry(y.nicknames, key).Some?;
    forall key ensures IdempotencyEntry(x.idempotency, key) == IdempotencyEntry(y.idempotency, key) {
      assert Get(table, InRoom(roomKey, Idemp(key))) == IdempotencyEntry(x.idempotency, key);
    }
    assert forall key :: key in x.idempotency <==> IdempotencyEntry(x.idempotency, key).Some?;
    assert forall key :: key in y.idempotency <==> IdempotencyEntry(y.idempotency, key).Some?;
    forall id ensures FindMessage(x.messages, id) == FindMessage(y.messages, id) {
      assert Get(table, InRoom(roomKey, Msg(id))) == MessageEntry(x.messages, id) == MessageEntry(y.messages, id);
    }
    if SortedByID(x.messages) && SortedByID(y.messages) { FoundDetermines(x.messages, y.messages); }
  }

  lemma AuditsUnique(table: Table, roomKey: Str, x: seq<Audit>, y: seq<Audit>, xIDs: seq<Str>, yIDs: seq<Str>)
    requires AuditsMatch(table, roomKey, x, xIDs) && AuditsMatch(table, roomKey, y, yIDs)
    ensures multiset(xIDs) == multiset(yIDs)
    ensures xIDs == yIDs ==> x == y
  {
    forall id ensures id in xIDs <==> id in yIDs {
      if id in xIDs { assert Get(table, InRoom(roomKey, AuditEntry(id))).Some?; }
      if id in yIDs { assert Get(table, InRoom(roomKey, AuditEntry(id))).Some?; }
    }
    forall id ensures multiset(xIDs)[id] == multiset(yIDs)[id] {
      DistinctOnce(xIDs, id);
      DistinctOnce(yIDs, id);
    }
    if xIDs == yIDs {
      forall i | 0 <= i < |x| ensures x[i] == y[i] {
        assert Get(table, InRoom(roomKey, AuditEntry(xIDs[i]))) == Some(AuditItem(x[i])) == Some(AuditItem(y[i]));
      }
    }
  }

  lemma {:induction false} DistinctOnce(ids: seq<Str>, id: Str)
    requires forall i, j :: 0 <= i < j < |ids| ==> ids[i] != ids[j]
    ensures multiset(ids)[id] == if id in ids then 1 else 0
  {
    if ids != [] {
      DistinctOnce(ids[1..], id);
      assert ids == [ids[0]] + ids[1..];
    }
  }

  // ---------------------------------------------------------------- Framing

  predicate Elsewhere(key: Key, roomKey: Str) {
    key.InRoom? ==> key.roomKey != roomKey
  }

  lemma RoomFrame(table: Table, table': Table, roomKey: Str, state: RoomState, ids: seq<Str>)
    requires RoomMatches(table, roomKey, state, ids)
    requires forall sk :: Get(table', InRoom(roomKey, sk)) == Get(table, InRoom(roomKey, sk))
    ensures RoomMatches(table', roomKey, state, ids)
  {
  }

  lemma MatchesAfterRoomChange(
    table: Table, table': Table, board: BoardState, auditIDs: map<Str, seq<Str>>,
    roomKey: Str, state': RoomState, ids': seq<Str>)
    requires Matches(table, board, auditIDs)
    requires ChangesInRoom(table, table', roomKey)
    requires RoomMatches(table', roomKey, state', ids')
    ensures Matches(table', board.(rooms := board.rooms[roomKey := state']), auditIDs[roomKey := ids'])
  {
    hide RoomMatches;
    var rooms' := board.rooms[roomKey := state'];
    forall other | other in rooms' && other != roomKey
      ensures RoomMatches(table', other, rooms'[other], auditIDs[other])
    {
      assert forall sk :: Elsewhere(InRoom(other, sk), roomKey);
      RoomFrame(table, table', other, board.rooms[other], auditIDs[other]);
    }
    forall other | other !in rooms' ensures NoRoom(table', other) {
      assert NoRoom(table, other);
      assert forall sk :: Elsewhere(InRoom(other, sk), roomKey);
    }
    assert forall agent :: Elsewhere(Quota(agent), roomKey);
  }

  // ---------------------------------------------------------------- Parts of a room

  lemma FindAfterInsert(messages: seq<Message>, message: Message, id: Str)
    requires FindMessage(messages, message.messageID) == None
    ensures FindMessage(InsertByID(messages, message), id) ==
            if id == message.messageID then Some(message) else FindMessage(messages, id)
  {
    if messages != [] && !Less(message.messageID, messages[0].messageID) {
      FindAfterInsert(messages[1..], message, id);
      assert InsertByID(messages, message)[1..] == InsertByID(messages[1..], message);
    } else {
      assert InsertByID(messages, message)[1..] == messages;
    }
  }

  lemma {:induction false} FindIsHas(messages: seq<Message>, id: Str)
    ensures FindMessage(messages, id).Some? <==> HasMessage(messages, id)
    ensures FindMessage(messages, id).Some? ==>
              FindMessage(messages, id).value.messageID == id && FindMessage(messages, id).value in messages
  {
    if messages != [] {
      FindIsHas(messages[1..], id);
      HasMessageSplit(messages, id);
    }
  }

  lemma AuditsMatchAfterPut(
    table: Table, table': Table, roomKey: Str, audits: seq<Audit>, ids: seq<Str>, id: Str, audit: Audit)
    requires AuditsMatch(table, roomKey, audits, ids)
    requires Get(table, InRoom(roomKey, AuditEntry(id))) == None
    requires Get(table', InRoom(roomKey, AuditEntry(id))) == Some(AuditItem(audit))
    requires forall other :: other != id ==>
               Get(table', InRoom(roomKey, AuditEntry(other))) == Get(table, InRoom(roomKey, AuditEntry(other)))
    ensures AuditsMatch(table', roomKey, audits + [audit], ids + [id])
  {
    assert id !in ids;
  }

  // ---------------------------------------------------------------- Commit lemmas

  // What a transaction does to one item: its own write, or nothing.
  lemma TransactionEffect(table: Table, writes: seq<WriteItem>)
    requires DistinctKeys(writes)
    ensures forall key {:trigger Get(WriteAll(table, writes), key)} ::
              (forall i :: 0 <= i < |writes| ==> writes[i].key != key) ==>
                Get(WriteAll(table, writes), key) == Get(table, key)
    ensures forall i :: 0 <= i < |writes| ==>
              Get(WriteAll(table, writes), writes[i].key) == Updated(writes[i].effect, Get(table, writes[i].key))
  {
    forall key
      ensures (forall i :: 0 <= i < |writes| ==> writes[i].key != key) ==>
                Get(WriteAll(table, writes), key) == Get(table, key)
    {
      WriteAllPointwise(table, writes, key);
    }
    forall i | 0 <= i < |writes|
      ensures Get(WriteAll(table, writes), writes[i].key) == Updated(writes[i].effect, Get(table, writes[i].key))
    {
      WriteAllPointwise(table, writes, writes[i].key);
    }
  }

  // A transaction of checks alone changes nothing.
  lemma {:induction false} ChecksWriteNothing(table: Table, writes: seq<WriteItem>)
    requires forall i :: 0 <= i < |writes| ==> writes[i].effect == Check
    ensures WriteAll(table, writes) == table
    decreases |writes|
  {
    if writes != [] {
      assert Write(table, writes[0]) == table;
      ChecksWriteNothing(table, writes[1..]);
    }
  }

  // The conditions of a grant say what the specification checks about the actor.
  lemma ActorPasses(table: Table, roomKey: Str, state: RoomState, agent: Str, version: int, action: Board.Action)
    requires MembersMatch(table, roomKey, state.members)
    requires action == Board.Action.PostMessage || action == UpdateAllowList || action == UpdateNickname
    requires version >= 1
    ensures Holds(ActorCondition(roomKey, agent, version, action).condition,
                  Get(table, ActorCondition(roomKey, agent, version, action).key))
            <==> CheckActor(state, agent, version, action).None?
  {
    ActorRolesAreRoleCan(if agent in state.members then state.members[agent].role else Owner, action);
    assert Get(table, InRoom(roomKey, Member(agent))) == MemberEntry(state.members, agent);
  }

  ghost predicate ChangesInRoom(table: Table, table': Table, roomKey: Str) {
    forall key :: Elsewhere(key, roomKey) ==> Get(table', key) == Get(table, key)
  }

  // The table changes at most at these sort keys of one room.
  ghost predicate ChangesOnly(table: Table, table': Table, roomKey: Str, sks: set<SortKey>) {
    forall key: Key :: !(key.InRoom? && key.roomKey == roomKey && key.sk in sks) ==> Get(table', key) == Get(table, key)
  }

  lemma RoomAfterMembership(
    table: Table, table': Table, roomKey: Str, state: RoomState, ids: seq<Str>,
    state': RoomState, target: Str, auditID: Str, audit: Audit)
    requires RoomMatches(table, roomKey, state, ids)
    requires ChangesOnly(table, table', roomKey, {Meta, Member(target), AuditEntry(auditID)})
    requires Get(table', InRoom(roomKey, Meta)) == Some(RoomItem(state'.room))
    requires Get(table', InRoom(roomKey, Member(target))) == MemberEntry(state'.members, target)
    requires forall a :: a != target ==> MemberEntry(state'.members, a) == MemberEntry(state.members, a)
    requires Get(table, InRoom(roomKey, AuditEntry(auditID))) == None
    requires Get(table', InRoom(roomKey, AuditEntry(auditID))) == Some(AuditItem(audit))
    requires state' == state.(room := state'.room, members := state'.members, audits := state.audits + [audit])
    ensures RoomMatches(table', roomKey, state', ids + [auditID])
  {
    AuditsMatchAfterPut(table, table', roomKey, state.audits, ids, auditID, audit);
  }

  lemma GrantEffect(
    limits: Limits, table: Table, roomKey: Str, agent: Str, input: GrantInput, found: Option<Membership>,
    now: Time, auditID: Str)
    requires input.targetAgent != agent
    ensures var writes := GrantWrites(limits, roomKey, agent, input, found, now, auditID);
            var table' := WriteAll(table, writes);
            var target := input.targetAgent;
            && ChangesOnly(table, table', roomKey, {Meta, Member(target), AuditEntry(auditID)})
            && Get(table', writes[1].key) == Updated(writes[1].effect, Get(table, writes[1].key))
            && Get(table', writes[2].key) == Updated(writes[2].effect, Get(table, writes[2].key))
            && Get(table', writes[3].key) == Updated(writes[3].effect, Get(table, writes[3].key))
  {
    hide Updated;
    var writes := GrantWrites(limits, roomKey, agent, input, found, now, auditID);
    assert writes[0].key == InRoom(roomKey, Member(agent)) && writes[0].effect == Check;
    TransactionEffect(table, writes);
    assert Get(WriteAll(table, writes), writes[0].key) == Get(table, writes[0].key) by {
      ChecksKeep(Get(table, writes[0].key));
    }
  }

  lemma ChecksKeep(item: Option<Item>)
    ensures Updated(Check, item) == item
  {
  }

  lemma GrantSucceeds(
    limits: Limits, table: Table, roomKey: Str, state: RoomState, ids: seq<Str>,
    agent: Str, input: GrantInput, found: Option<Membership>, now: Time, auditID: Str)
    requires RoomMatches(table, roomKey, state, ids) && MembersOk(state.room, state.members)
    requires input.actorMemberVersion >= 1
    requires input.targetAgent != agent && input.targetAgent != state.room.owner
    requires input.targetAgent in state.members ==> state.members[input.targetAgent].role != input.role
    requires Passes(table, GrantWrites(limits, roomKey, agent, input, found, now, auditID))
    ensures found.None? <==> input.targetAgent !in state.members
    ensures GrantIn(limits, state, agent, input, now) ==
            (Granted(state, agent, input, now), Ok(GrantReply(GrantedMember(state, agent, input, now), found.None?)))
    ensures Get(table, InRoom(roomKey, AuditEntry(auditID))) == None
  {
    var writes := GrantWrites(limits, roomKey, agent, input, found, now, auditID);
    ActorPasses(table, roomKey, state, agent, input.actorMemberVersion, UpdateAllowList);
    assert Holds(writes[0].condition, Get(table, writes[0].key));
    assert Holds(writes[1].condition, Get(table, writes[1].key));
    assert Holds(writes[2].condition, Get(table, writes[2].key));
    assert Holds(writes[3].condition, Get(table, writes[3].key));
    assert Get(table, InRoom(roomKey, Member(input.targetAgent))) == MemberEntry(state.members, input.targetAgent);
  }

  lemma GrantStores(
    limits: Limits, roomKey: Str, state: RoomState, agent: Str, input: GrantInput, found: Option<Membership>,
    now: Time, auditID: Str)
    requires MembersOk(state.room, state.members)
    requires state.room.roomKey == roomKey && state.room.roomID == input.roomID
    requires found.None? <==> input.targetAgent !in state.members
    ensures var writes := GrantWrites(limits, roomKey, agent, input, found, now, auditID);
            && Updated(writes[1].effect, Some(RoomItem(state.room))) ==
               Some(RoomItem(state.room.(
                             memberCount := state.room.memberCount + (if found.None? then 1 else 0),
                             version := state.room.version + 1, updatedAt := now)))
            && Updated(writes[2].effect, MemberEntry(state.members, input.targetAgent)) ==
               Some(MemberItem(GrantedMember(state, agent, input, now)))
  {
    assert input.targetAgent in state.members ==>
        MemberOk(state.room, input.targetAgent, state.members[input.targetAgent]);
  }

  lemma GrantCommit(
    limits: Limits, table: Table, roomKey: Str, state: RoomState, ids: seq<Str>,
    agent: Str, input: GrantInput, found: Option<Membership>, now: Time, auditID: Str)
    requires RoomMatches(table, roomKey, state, ids) && MembersOk(state.room, state.members)
    requires state.room.roomKey == roomKey && state.room.roomID == input.roomID
    requires input.actorMemberVersion >= 1
    requires input.targetAgent != agent && input.targetAgent != state.room.owner
    requires input.targetAgent in state.members ==> state.members[input.targetAgent].role != input.role
    requires Passes(table, GrantWrites(limits, roomKey, agent, input, found, now, auditID))
    ensures var writes := GrantWrites(limits, roomKey, agent, input, found, now, auditID);
            && GrantIn(limits, state, agent, input, now) ==
               (Granted(state, agent, input, now),
                Ok(GrantReply(GrantedMember(state, agent, input, now), found.None?)))
            && (found.None? <==> input.targetAgent !in state.members)
            && RoomMatches(WriteAll(table, writes), roomKey, Granted(state, agent, input, now), ids + [auditID])
            && ChangesInRoom(table, WriteAll(table, writes), roomKey)
  {
    var writes := GrantWrites(limits, roomKey, agent, input, found, now, auditID);
    var table' := WriteAll(table, writes);
    var target := input.targetAgent;
    GrantSucceeds(limits, table, roomKey, state, ids, agent, input, found, now, auditID);
    GrantEffect(limits, table, roomKey, agent, input, found, now, auditID);
    GrantStores(limits, roomKey, state, agent, input, found, now, auditID);
    assert Get(table, InRoom(roomKey, Member(target))) == MemberEntry(state.members, target);
    hide MembersOk, Passes, GrantedMember, GrantIn, GrantWrites, RoomMatches, Updated;
    RoomAfterMembership(
      table, table', roomKey, state, ids, Granted(state, agent, input, now), target, auditID,
      Audit(AllowlistGranted, agent, target, input.role, input.tokenJTIHash, now));
  }

  // The grant that finds the role already in place only checks, and the specification agrees.
  lemma GrantGuardCommit(
    limits: Limits, table: Table, roomKey: Str, state: RoomState, ids: seq<Str>,
    agent: Str, input: GrantInput, now: Time)
    requires RoomMatches(table, roomKey, state, ids)
    requires input.actorMemberVersion >= 1
    requires input.targetAgent != agent && input.targetAgent != state.room.owner
    requires input.targetAgent in state.members && state.members[input.targetAgent].role == input.role
    requires Passes(table, GrantGuard(roomKey, agent, input))
    ensures WriteAll(table, GrantGuard(roomKey, agent, input)) == table
    ensures GrantIn(limits, state, agent, input, now) ==
            (state, Ok(GrantReply(state.members[input.targetAgent], false)))
  {
    var writes := GrantGuard(roomKey, agent, input);
    ChecksWriteNothing(table, writes);
    ActorPasses(table, roomKey, state, agent, input.actorMemberVersion, UpdateAllowList);
    assert Holds(writes[0].condition, Get(table, writes[0].key));
    assert Holds(writes[1].condition, Get(table, writes[1].key));
  }

  // ---------------------------------------------------------------- Revoke

  lemma RevokeSucceeds(
    table: Table, roomKey: Str, state: RoomState, ids: seq<Str>,
    agent: Str, input: RevokeInput, found: Membership, now: Time, auditID: Str)
    requires RoomMatches(table, roomKey, state, ids)
    requires input.actorMemberVersion >= 1
    requires input.targetAgent != agent && input.targetAgent != state.room.owner
    requires Passes(table, RevokeWrites(roomKey, agent, input, found, now, auditID))
    ensures input.targetAgent in state.members
    ensures state.members[input.targetAgent].nicknameKey == found.nicknameKey
    ensures RevokeIn(state, agent, input, now) == (Revoked(state, agent, input, now), Ok(RevokeReply))
    ensures Get(table, InRoom(roomKey, AuditEntry(auditID))) == None
  {
    var writes := RevokeWrites(roomKey, agent, input, found, now, auditID);
    ActorPasses(table, roomKey, state, agent, input.actorMemberVersion, UpdateAllowList);
    assert Holds(writes[0].condition, Get(table, writes[0].key));
    assert Holds(writes[1].condition, Get(table, writes[1].key));
    assert Holds(writes[2].condition, Get(table, writes[2].key));
    assert Holds(writes[3].condition, Get(table, writes[3].key));
    assert Get(table, InRoom(roomKey, Member(input.targetAgent))) == MemberEntry(state.members, input.targetAgent);
  }

  lemma RevokeEffect(
    table: Table, roomKey: Str, room: Room, agent: Str, input: RevokeInput, found: Membership,
    now: Time, auditID: Str)
    requires input.targetAgent != agent
    requires Get(table, InRoom(roomKey, Meta)) == Some(RoomItem(room))
    ensures var writes := RevokeWrites(roomKey, agent, input, found, now, auditID);
            var table' := WriteAll(table, writes);
            var target := input.targetAgent;
            && ChangesOnly(table, table', roomKey, {Meta, Member(target), AuditEntry(auditID), Nick(found.nicknameKey)})
            && Get(table', InRoom(roomKey, Member(target))) == None
            && Get(table', InRoom(roomKey, Meta)) ==
               Some(RoomItem(room.(version := room.version + 1, updatedAt := now, memberCount := room.memberCount - 1)))
            && Get(table', InRoom(roomKey, AuditEntry(auditID))) ==
               Some(AuditItem(Audit(AllowlistRevoked, agent, target, NO_ROLE, input.tokenJTIHash, now)))
            && Get(table', InRoom(roomKey, Nick(found.nicknameKey))) ==
               if found.nicknameKey != [] then None else Get(table, InRoom(roomKey, Nick(found.nicknameKey)))
  {
    var writes := RevokeWrites(roomKey, agent, input, found, now, auditID);
    assert writes[0].key == InRoom(roomKey, Member(agent)) && writes[0].effect == Check;
    TransactionEffect(table, writes);
    var table' := WriteAll(table, writes);
    assert Get(table', writes[0].key) == Get(table, writes[0].key);
    assert Get(table', writes[1].key) == Updated(writes[1].effect, Get(table, writes[1].key));
    assert Get(table', writes[2].key) == Updated(writes[2].effect, Get(table, writes[2].key));
    assert Get(table', writes[3].key) == Updated(writes[3].effect, Get(table, writes[3].key));
    if found.nicknameKey != [] {
      assert writes[4] == DeleteNickname(roomKey, found.nicknameKey, input.targetAgent);
      assert Get(table', writes[4].key) == Updated(writes[4].effect, Get(table, writes[4].key));
    }
  }

  lemma RevokeCommit(
    limits: Limits, table: Table, roomKey: Str, state: RoomState, ids: seq<Str>,
    agent: Str, input: RevokeInput, found: Membership, now: Time, auditID: Str)
    requires RoomMatches(table, roomKey, state, ids)
    requires input.actorMemberVersion >= 1
    requires input.targetAgent != agent && input.targetAgent != state.room.owner
    requires Passes(table, RevokeWrites(roomKey, agent, input, found, now, auditID))
    ensures var table' := WriteAll(table, RevokeWrites(roomKey, agent, input, found, now, auditID));
            && input.targetAgent in state.members
            && RevokeIn(state, agent, input, now) == (Revoked(state, agent, input, now), Ok(RevokeReply))
            && RoomMatches(table', roomKey, Revoked(state, agent, input, now), ids + [auditID])
            && ChangesInRoom(table, table', roomKey)
  {
    var table' := WriteAll(table, RevokeWrites(roomKey, agent, input, found, now, auditID));
    RevokeSucceeds(table, roomKey, state, ids, agent, input, found, now, auditID);
    RevokeEffect(table, roomKey, state.room, agent, input, found, now, auditID);
    hide RevokeWrites, RevokeIn, Passes, CheckActor;
    AuditsMatchAfterPut(
      table, table', roomKey, state.audits, ids, auditID,
      Audit(AllowlistRevoked, agent, input.targetAgent, NO_ROLE, input.tokenJTIHash, now));
    var state' := Revoked(state, agent, input, now);
    assert NicknamesMatch(table', roomKey, state'.nicknames) by {
      forall key ensures Get(table', InRoom(roomKey, Nick(key))) == NickEntry(state'.nicknames, key) {
        assert Get(table, InRoom(roomKey, Nick(key))) == NickEntry(state.nicknames, key);
      }
    }
    assert MembersMatch(table', roomKey, state'.members);
  }

  // ---------------------------------------------------------------- Nickname

  lemma NicknameSucceeds(
    table: Table, roomKey: Str, state: RoomState, ids: seq<Str>,
    agent: Str, input: SetNicknameInput, found: Membership, now: Time)
    requires RoomMatches(table, roomKey, state, ids) && NicknamesOk(state.members, state.nicknames)
    requires input.actorMemberVersion >= 1 && input.nicknameKey != [] && RoleCan(found.role, UpdateNickname)
    requires agent in state.members ==> state.members[agent].nicknameKey == found.nicknameKey
    requires agent in state.members ==> !SameNickname(state.members[agent], input)
    requires Passes(table, NicknameWrites(roomKey, agent, input, found, now))
    ensures agent in state.members
    ensures SetNicknameIn(state, agent, input, now) ==
            (Renamed(state, agent, input, now),
             Ok(NicknameReply(RenamedMember(state.members[agent], agent, input, now))))
  {
    var writes := NicknameWrites(roomKey, agent, input, found, now);
    assert Holds(writes[0].condition, Get(table, writes[0].key));
    assert Holds(writes[1].condition, Get(table, writes[1].key));
    assert Get(table, InRoom(roomKey, Member(agent))) == MemberEntry(state.members, agent);
    if found.nicknameKey != input.nicknameKey {
      var last := |writes| - 1;
      assert writes[last].key == InRoom(roomKey, Nick(input.nicknameKey));
      assert Holds(writes[last].condition, Get(table, writes[last].key));
      assert Get(table, InRoom(roomKey, Nick(input.nicknameKey))) == NickEntry(state.nicknames, input.nicknameKey);
    }
  }

  lemma NicknameEffect(
    table: Table, roomKey: Str, agent: Str, input: SetNicknameInput, found: Membership, member: Membership, now: Time)
    requires Get(table, InRoom(roomKey, Member(agent))) == Some(MemberItem(member))
    requires input.nicknameKey != []
    ensures var table' := WriteAll(table, NicknameWrites(roomKey, agent, input, found, now));
            && ChangesOnly(table, table', roomKey, {Member(agent), Nick(found.nicknameKey), Nick(input.nicknameKey)})
            && Get(table', InRoom(roomKey, Member(agent))) ==
               Some(MemberItem(RenamedMember(member, agent, input, now)))
            && (found.nicknameKey != input.nicknameKey ==>
                  && Get(table', InRoom(roomKey, Nick(input.nicknameKey))) == Some(NickItem(agent))
                  && (Get(table', InRoom(roomKey, Nick(found.nicknameKey))) ==
                      if found.nicknameKey != [] then None
                      else Get(table, InRoom(roomKey, Nick(found.nicknameKey)))))
            && (found.nicknameKey == input.nicknameKey ==>
                  Get(table', InRoom(roomKey, Nick(input.nicknameKey))) ==
                  Get(table, InRoom(roomKey, Nick(input.nicknameKey))))
  {
    var writes := NicknameWrites(roomKey, agent, input, found, now);
    TransactionEffect(table, writes);
    var table' := WriteAll(table, writes);
    assert writes[0] == RoomOpenCondition(roomKey);
    assert Get(table', writes[0].key) == Get(table, writes[0].key);
    assert Get(table', writes[1].key) == Updated(writes[1].effect, Get(table, writes[1].key));
    if found.nicknameKey != input.nicknameKey {
      var last := |writes| - 1;
      assert writes[last].key == InRoom(roomKey, Nick(input.nicknameKey));
      assert Get(table', writes[last].key) == Updated(writes[last].effect, Get(table, writes[last].key));
      if found.nicknameKey != [] {
        assert writes[2] == DeleteNickname(roomKey, found.nicknameKey, agent);
        assert Get(table', writes[2].key) == Updated(writes[2].effect, Get(table, writes[2].key));
      }
    }
  }

  lemma NicknameCommit(
    table: Table, roomKey: Str, state: RoomState, ids: seq<Str>,
    agent: Str, input: SetNicknameInput, found: Membership, now: Time)
    requires RoomMatches(table, roomKey, state, ids) && NicknamesOk(state.members, state.nicknames)
    requires input.actorMemberVersion >= 1 && input.nicknameKey != [] && RoleCan(found.role, UpdateNickname)
    requires agent in state.members ==> state.members[agent].nicknameKey == found.nicknameKey
    requires agent in state.members ==> !SameNickname(state.members[agent], input)
    requires Passes(table, NicknameWrites(roomKey, agent, input, found, now))
    ensures var table' := WriteAll(table, NicknameWrites(roomKey, agent, input, found, now));
            && agent in state.members
            && SetNicknameIn(state, agent, input, now) ==
               (Renamed(state, agent, input, now),
                Ok(NicknameReply(RenamedMember(state.members[agent], agent, input, now))))
            && RoomMatches(table', roomKey, Renamed(state, agent, input, now), ids)
            && ChangesInRoom(table, table', roomKey)
  {
    var table' := WriteAll(table, NicknameWrites(roomKey, agent, input, found, now));
    NicknameSucceeds(table, roomKey, state, ids, agent, input, found, now);
    var member := state.members[agent];
    assert Get(table, InRoom(roomKey, Member(agent))) == MemberEntry(state.members, agent);
    NicknameEffect(table, roomKey, agent, input, found, member, now);
    hide NicknameWrites, SetNicknameIn, Passes, RenamedMember;
    NicknamesAfterSet(
      table, table', roomKey, state.members, state.nicknames, agent, found.nicknameKey, input.nicknameKey);
    hide NicknamesOk, NicknamesMatch;
    RoomAfterRename(table, table', roomKey, state, ids, Renamed(state, agent, input, now), agent);
  }

  lemma NicknamesAfterSet(
    table: Table, table': Table, roomKey: Str, members: map<Str, Membership>, nicknames: map<Str, Str>,
    agent: Str, previous: Str, key: Str)
    requires NicknamesMatch(table, roomKey, nicknames) && NicknamesOk(members, nicknames)
    requires ChangesOnly(table, table', roomKey, {Member(agent), Nick(previous), Nick(key)})
    requires agent in members && members[agent].nicknameKey == previous && key != []
    requires previous != key ==>
               && Get(table', InRoom(roomKey, Nick(key))) == Some(NickItem(agent))
               && (Get(table', InRoom(roomKey, Nick(previous))) ==
                   if previous != [] then None else Get(table, InRoom(roomKey, Nick(previous))))
    requires previous == key ==>
               Get(table', InRoom(roomKey, Nick(key))) == Get(table, InRoom(roomKey, Nick(key)))
    ensures var kept := if previous != [] && previous != key then nicknames - {previous} else nicknames;
            NicknamesMatch(table', roomKey, kept[key := agent])
  {
    var kept := if previous != [] && previous != key then nicknames - {previous} else nicknames;
    forall k ensures Get(table', InRoom(roomKey, Nick(k))) == NickEntry(kept[key := agent], k) {
      assert Get(table, InRoom(roomKey, Nick(k))) == NickEntry(nicknames, k);
    }
  }

  lemma RoomAfterRename(
    table: Table, table': Table, roomKey: Str, state: RoomState, ids: seq<Str>, state': RoomState, agent: Str)
    requires RoomMatches(table, roomKey, state, ids)
    requires forall sk: SortKey :: !sk.Nick? && sk != Member(agent) ==>
               Get(table', InRoom(roomKey, sk)) == Get(table, InRoom(roomKey, sk))
    requires state' == state.(members := state'.members, nicknames := state'.nicknames)
    requires Get(table', InRoom(roomKey, Member(agent))) == MemberEntry(state'.members, agent)
    requires forall a :: a != agent ==> MemberEntry(state'.members, a) == MemberEntry(state.members, a)
    requires NicknamesMatch(table', roomKey, state'.nicknames)
    ensures RoomMatches(table', roomKey, state', ids)
  {
  }

  lemma MemberGuardCommit(
    table: Table, roomKey: Str, state: RoomState, ids: seq<Str>, agent: Str, version: int, action: Board.Action)
    requires RoomMatches(table, roomKey, state, ids) && version >= 1
    requires action == Board.Action.PostMessage || action == UpdateNickname
    requires Passes(table, MemberGuard(roomKey, agent, version, action))
    ensures WriteAll(table, MemberGuard(roomKey, agent, version, action)) == table
    ensures !state.room.archived && CheckActor(state, agent, version, action).None?
  {
    var writes := MemberGuard(roomKey, agent, version, action);
    ChecksWriteNothing(table, writes);
    ActorPasses(table, roomKey, state, agent, version, action);
    assert Holds(writes[0].condition, Get(table, writes[0].key));
    assert Holds(writes[1].condition, Get(table, writes[1].key));
  }

  // ---------------------------------------------------------------- Post

  lemma PostCommit(
    table: Table, roomKey: Str, state: RoomState, ids: seq<Str>, agent: Str, input: PostInput,
    now: Time, messageID: Str)
    requires RoomMatches(table, roomKey, state, ids)
    requires state.room.roomKey == roomKey && state.room.roomID == input.roomID
    requires input.actorMemberVersion >= 1
    requires Passes(table, PostWrites(roomKey, agent, input, now, messageID))
    ensures var table' := WriteAll(table, PostWrites(roomKey, agent, input, now, messageID));
            && IdempotencyKeyOf(agent, input.idempotencyKey) !in state.idempotency
            && FindMessage(state.messages, messageID) == None
            && PostIn(state, agent, input, now, messageID) ==
               (Posted(state, agent, input, now, messageID),
                Ok(PostReply(PostMessageItem(roomKey, agent, input, now, messageID), false)))
            && RoomMatches(table', roomKey, Posted(state, agent, input, now, messageID), ids)
            && ChangesInRoom(table, table', roomKey)
  {
    var writes := PostWrites(roomKey, agent, input, now, messageID);
    var table' := WriteAll(table, writes);
    var key := IdempotencyKeyOf(agent, input.idempotencyKey);
    var message := PostMessageItem(roomKey, agent, input, now, messageID);
    PostSucceeds(table, roomKey, state, ids, agent, input, now, messageID);
    PostEffect(table, roomKey, agent, input, now, messageID);
    hide PostWrites, PostIn, Passes, PostMessageItem, IdempotencyKeyOf;
    var state' := Posted(state, agent, input, now, messageID);
    assert MessagesMatch(table', roomKey, state'.messages) by {
      forall id ensures Get(table', InRoom(roomKey, Msg(id))) == MessageEntry(state'.messages, id) {
        FindAfterInsert(state.messages, message, id);
        assert Get(table, InRoom(roomKey, Msg(id))) == MessageEntry(state.messages, id);
      }
    }
    assert IdempotencyMatches(table', roomKey, state'.idempotency) by {
      forall k ensures Get(table', InRoom(roomKey, Idemp(k))) == IdempotencyEntry(state'.idempotency, k) {
        assert Get(table, InRoom(roomKey, Idemp(k))) == IdempotencyEntry(state.idempotency, k);
      }
    }
  }

  lemma PostSucceeds(
    table: Table, roomKey: Str, state: RoomState, ids: seq<Str>, agent: Str, input: PostInput,
    now: Time, messageID: Str)
    requires RoomMatches(table, roomKey, state, ids)
    requires state.room.roomKey == roomKey && state.room.roomID == input.roomID
    requires input.actorMemberVersion >= 1
    requires Passes(table, PostWrites(roomKey, agent, input, now, messageID))
    ensures IdempotencyKeyOf(agent, input.idempotencyKey) !in state.idempotency
    ensures FindMessage(state.messages, messageID) == None
    ensures NewMessage(state, agent, input, now, messageID) == PostMessageItem(roomKey, agent, input, now, messageID)
    ensures PostIn(state, agent, input, now, messageID) ==
            (Posted(state, agent, input, now, messageID),
             Ok(PostReply(PostMessageItem(roomKey, agent, input, now, messageID), false)))
  {
    var writes := PostWrites(roomKey, agent, input, now, messageID);
    var key := IdempotencyKeyOf(agent, input.idempotencyKey);
    ActorPasses(table, roomKey, state, agent, input.actorMemberVersion, Board.Action.PostMessage);
    assert Holds(writes[0].condition, Get(table, writes[0].key));
    assert Holds(writes[1].condition, Get(table, writes[1].key));
    assert Holds(writes[2].condition, Get(table, writes[2].key));
    assert Holds(writes[3].condition, Get(table, writes[3].key));
    assert Get(table, InRoom(roomKey, Idemp(key))) == IdempotencyEntry(state.idempotency, key);
    assert Get(table, InRoom(roomKey, Msg(messageID))) == MessageEntry(state.messages, messageID);
  }

  lemma PostEffect(table: Table, roomKey: Str, agent: Str, input: PostInput, now: Time, messageID: Str)
    ensures var table' := WriteAll(table, PostWrites(roomKey, agent, input, now, messageID));
            var key := IdempotencyKeyOf(agent, input.idempotencyKey);
            && ChangesOnly(table, table', roomKey, {Idemp(key), Msg(messageID)})
            && Get(table', InRoom(roomKey, Idemp(key))) ==
               Some(IdempotencyItem(Idempotency(input.requestHash, messageID)))
            && Get(table', InRoom(roomKey, Msg(messageID))) ==
               Some(MessageItem(PostMessageItem(roomKey, agent, input, now, messageID)))
  {
    var writes := PostWrites(roomKey, agent, input, now, messageID);
    TransactionEffect(table, writes);
    var table' := WriteAll(table, writes);
    assert Get(table', writes[0].key) == Get(table, writes[0].key);
    assert Get(table', writes[1].key) == Get(table, writes[1].key);
    assert Get(table', writes[2].key) == Updated(writes[2].effect, Get(table, writes[2].key));
    assert Get(table', writes[3].key) == Updated(writes[3].effect, Get(table, writes[3].key));
  }

  // ---------------------------------------------------------------- Create

  lemma CreateEffect(
    limits: Limits, table: Table, agent: Str, input: CreateRoomInput, now: Time, auditID: Str)
    ensures var state := NewRoom(agent, input, now);
            var roomKey := state.room.roomKey;
            var table' := WriteAll(table, CreateWrites(limits, agent, input, now, auditID));
            && Get(table', InRoom(roomKey, Meta)) == Some(RoomItem(state.room))
            && Get(table', InRoom(roomKey, Member(agent))) == Some(MemberItem(state.members[agent]))
            && Get(table', InRoom(roomKey, AuditEntry(auditID))) == Some(AuditItem(state.audits[0]))
            && Get(table', Quota(agent)) == Updated(IncrementQuota, Get(table, Quota(agent)))
            && forall key: Key ::
                 key != InRoom(roomKey, Meta) && key != InRoom(roomKey, Member(agent))
                 && key != InRoom(roomKey, AuditEntry(auditID)) && key != Quota(agent) ==>
                   Get(table', key) == Get(table, key)
  {
    hide Base64Url.Encode;
    var writes := CreateWrites(limits, agent, input, now, auditID);
    TransactionEffect(table, writes);
    var table' := WriteAll(table, writes);
    assert Get(table', writes[0].key) == Updated(writes[0].effect, Get(table, writes[0].key));
    assert Get(table', writes[1].key) == Updated(writes[1].effect, Get(table, writes[1].key));
    assert Get(table', writes[2].key) == Updated(writes[2].effect, Get(table, writes[2].key));
    assert Get(table', writes[3].key) == Updated(writes[3].effect, Get(table, writes[3].key));
  }

  lemma CreateSucceeds(
    limits: Limits, table: Table, board: BoardState, auditIDs: map<Str, seq<Str>>,
    agent: Str, input: CreateRoomInput, now: Time, auditID: Str)
    requires Matches(table, board, auditIDs) && KeysOk(board)
    requires Passes(table, CreateWrites(limits, agent, input, now, auditID))
    ensures Base64Url.Encode(input.roomID) !in board.rooms && input.roomID !in board.roomKeys
    ensures QuotaOf(board, agent) < limits.maxRooms || agent !in board.quotas
  {
    hide Base64Url.Encode, RoomMatches;
    var writes := CreateWrites(limits, agent, input, now, auditID);
    var roomKey := Base64Url.Encode(input.roomID);
    assert Holds(writes[0].condition, Get(table, writes[0].key));
    assert Holds(writes[3].condition, Get(table, writes[3].key));
    assert writes[0].key == InRoom(roomKey, Meta);
    assert Get(table, Quota(agent)) == QuotaEntry(board.quotas, agent);
    if roomKey in board.rooms {
      RoomHasMeta(table, roomKey, board.rooms[roomKey], auditIDs[roomKey]);
    }
  }

  lemma RoomHasMeta(table: Table, roomKey: Str, state: RoomState, ids: seq<Str>)
    requires RoomMatches(table, roomKey, state, ids)
    ensures Get(table, InRoom(roomKey, Meta)) == Some(RoomItem(state.room))
  {
  }

  lemma NewRoomMatches(table': Table, roomKey: Str, agent: Str, input: CreateRoomInput, now: Time, auditID: Str)
    requires roomKey == Base64Url.Encode(input.roomID)
    requires var state := NewRoom(agent, input, now);
             && Get(table', InRoom(roomKey, Meta)) == Some(RoomItem(state.room))
             && Get(table', InRoom(roomKey, Member(agent))) == Some(MemberItem(state.members[agent]))
             && Get(table', InRoom(roomKey, AuditEntry(auditID))) == Some(AuditItem(state.audits[0]))
             && forall sk :: sk != Meta && sk != Member(agent) && sk != AuditEntry(auditID) ==>
                  Get(table', InRoom(roomKey, sk)) == None
    ensures RoomMatches(table', roomKey, NewRoom(agent, input, now), [auditID])
  {
    hide Base64Url.Encode;
  }

  lemma CreateStores(
    limits: Limits, table: Table, board: BoardState, auditIDs: map<Str, seq<Str>>,
    agent: Str, input: CreateRoomInput, now: Time, auditID: Str)
    requires Matches(table, board, auditIDs) && Base64Url.Encode(input.roomID) !in board.rooms
    ensures var table' := WriteAll(table, CreateWrites(limits, agent, input, now, auditID));
            var roomKey := Base64Url.Encode(input.roomID);
            && RoomMatches(table', roomKey, NewRoom(agent, input, now), [auditID])
            && (forall other :: other in board.rooms ==>
                  other in auditIDs && RoomMatches(table', other, board.rooms[other], auditIDs[other]))
            && (forall other :: other !in board.rooms && other != roomKey ==> NoRoom(table', other))
            && (forall a :: a != agent ==> Get(table', Quota(a)) == QuotaEntry(board.quotas, a))
            && Get(table', Quota(agent)) == Updated(IncrementQuota, QuotaEntry(board.quotas, agent))
  {
    hide Base64Url.Encode, RoomMatches, NewRoom;
    var table' := WriteAll(table, CreateWrites(limits, agent, input, now, auditID));
    var roomKey := Base64Url.Encode(input.roomID);
    NewRoomKey(agent, input, now);
    CreateEffect(limits, table, agent, input, now, auditID);
    hide CreateWrites;
    assert NoRoom(table, roomKey);
    NewRoomMatches(table', roomKey, agent, input, now, auditID);
    OtherRoomsAfterCreate(table, table', board, auditIDs, roomKey);
  }

  lemma CreateCommit(
    limits: Limits, table: Table, board: BoardState, auditIDs: map<Str, seq<Str>>,
    agent: Str, input: CreateRoomInput, now: Time, auditID: Str)
    requires Matches(table, board, auditIDs) && KeysOk(board)
    requires Passes(table, CreateWrites(limits, agent, input, now, auditID))
    ensures var table' := WriteAll(table, CreateWrites(limits, agent, input, now, auditID));
            var roomKey := Base64Url.Encode(input.roomID);
            && roomKey !in board.rooms && input.roomID !in board.roomKeys
            && (QuotaOf(board, agent) < limits.maxRooms || agent !in board.quotas)
            && Matches(table', Created(board, agent, input, now), auditIDs[roomKey := [auditID]])
            && (limits.maxRooms >= 1 || agent in board.quotas ==>
                  CreateRoomOp(limits, board, agent, input, now) ==
                  (Created(board, agent, input, now), Ok(RoomReply(NewRoom(agent, input, now).room))))
  {
    hide Base64Url.Encode, RoomMatches, NewRoom, KeysOk, NoRoom, CreateWrites;
    NewRoomKey(agent, input, now);
    CreateSucceeds(limits, table, board, auditIDs, agent, input, now, auditID);
    CreateStores(limits, table, board, auditIDs, agent, input, now, auditID);
  }

  lemma OtherRoomsAfterCreate(
    table: Table, table': Table, board: BoardState, auditIDs: map<Str, seq<Str>>, roomKey: Str)
    requires Matches(table, board, auditIDs) && roomKey !in board.rooms
    requires forall key: Key :: key.InRoom? && key.roomKey != roomKey ==> Get(table', key) == Get(table, key)
    ensures forall other :: other in board.rooms ==>
              other in auditIDs && RoomMatches(table', other, board.rooms[other], auditIDs[other])
    ensures forall other :: other !in board.rooms && other != roomKey ==> NoRoom(table', other)
  {
    hide RoomMatches;
    forall other | other in board.rooms
      ensures RoomMatches(table', other, board.rooms[other], auditIDs[other])
    {
      RoomFrame(table, table', other, board.rooms[other], auditIDs[other]);
    }
    forall other | other !in board.rooms && other != roomKey ensures NoRoom(table', other) {
      assert NoRoom(table, other);
    }
  }
}
