/**
 What the table holds after each kind of request has committed, field by field, in terms of the request, its actor
 and the clock alone.
 */
module TableEffects {
  import opened Bytes
  import opened Board
  import opened BoardSpec
  import opened BoardEffects
  import opened DynamoTable
  import opened DynamoStore
  import opened Refinement
  import opened Interleaving
  import opened CommitSteps
  import opened RunInvariant
  import Base64Url

  ghost predicate OnlyChanges(table: Table, table': Table, keys: set<Key>) {
    forall key :: key !in keys ==> Get(table', key) == Get(table, key)
  }

  // A committed step writes its transaction, and answers as it may only once the reply has arrived.
  lemma CommittedTable(limits: Limits, table: Table, c: Client, ch: Choice)
    requires Commits(limits, table, c, ch) && Committable(c) && !(c.Writing? && c.req.CreateRequest?)
    ensures Step(limits, table, c, ch).0 == WriteAll(table, TransactionOf(limits, c, ch).value)
    ensures Step(limits, table, c, ch).1 ==
            if ch.fault == ReplyLost then Finished(c.actor, c.req, Err(Dependency)) else AfterCommit(c, ch)
  {
    hide Passes, WriteAll, TransactionOf, AfterCommit;
  }

  // With distinct keys, one write of a transaction leaves its own effect.
  lemma WriteLands(table: Table, writes: seq<WriteItem>, i: nat)
    requires DistinctKeys(writes) && i < |writes|
    ensures Get(WriteAll(table, writes), writes[i].key) == Updated(writes[i].effect, Get(table, writes[i].key))
  {
    WriteAllPointwise(table, writes, writes[i].key);
  }

  // Whatever a transaction only checks stays as it is.
  lemma WritesOnly(table: Table, writes: seq<WriteItem>, keys: set<Key>)
    requires DistinctKeys(writes)
    requires forall i :: 0 <= i < |writes| ==> writes[i].effect == Check || writes[i].key in keys
    ensures OnlyChanges(table, WriteAll(table, writes), keys)
  {
    forall key | key !in keys ensures Get(WriteAll(table, writes), key) == Get(table, key) {
      WriteAllPointwise(table, writes, key);
    }
  }

  // ---------------------------------------------------------------- Posts

  lemma PostStored(limits: Limits, table: Table, c: Client, ch: Choice)
    requires c.Writing? && c.req.PostRequest? && Commits(limits, table, c, ch)
    ensures var (table', c') := Step(limits, table, c, ch);
            var roomKey := Base64Url.Encode(c.req.roomID);
            var msg, record := InRoom(roomKey, Msg(ch.messageID)),
                               InRoom(roomKey, Idemp(c.actor + [HASH] + c.req.idempotencyKey));
            && Get(table, msg) == None && Get(table, record) == None
            && Get(table', msg).Some? && Get(table', msg).value.MessageItem?
            && MessageSays(
                 Get(table', msg).value.message, c.req.roomID, ch.messageID, c.actor,
                 if c.snapshot.membership.Some? then c.snapshot.membership.value.nickname else [],
                 c.req.body, c.req.idempotencyKey, c.req.requestHash, ch.now)
            && Get(table', record) == Some(IdempotencyItem(Idempotency(c.req.requestHash, ch.messageID)))
            && OnlyChanges(table, table', {msg, record})
            && (ch.fault != ReplyLost ==>
                  c' == Finished(c.actor, c.req, Ok(PostReply(Get(table', msg).value.message, false))))
  {
    hide Base64Url.Encode, WriteAll, OnlyChanges;
    var writes := TransactionOf(limits, c, ch).value;
    var input := OperationOf(c.req, c.snapshot).post;
    assert writes == PostWrites(RoomKeyOf(c.req), c.actor, input, ch.now, ch.messageID);
    CommittedTable(limits, table, c, ch);
    TransactionKeysDistinct(limits, c, ch);
    assert Holds(writes[2].condition, Get(table, writes[2].key));
    assert Holds(writes[3].condition, Get(table, writes[3].key));
    WriteLands(table, writes, 2);
    WriteLands(table, writes, 3);
    WritesOnly(table, writes, {writes[3].key, writes[2].key});
  }

  // ---------------------------------------------------------------- Creations

  // The entry a transaction adds to the audit log.
  predicate AuditAdded(
    table: Table, table': Table, key: Key, event: EventType, actor: Str, target: Str, role: Role, jti: Str, now: Time)
  {
    && Get(table, key) == None
    && Get(table', key).Some? && Get(table', key).value.AuditItem?
    && AuditSays(Get(table', key).value.audit, event, actor, target, role, jti, now)
  }

  lemma CreateStored(limits: Limits, table: Table, c: Client, ch: Choice)
    requires c.Ready? && c.req.CreateRequest? && Commits(limits, table, c, ch)
    ensures var (table', c') := Step(limits, table, c, ch);
            var roomKey := Base64Url.Encode(c.req.roomID);
            var meta, owner := InRoom(roomKey, Meta), InRoom(roomKey, Member(c.actor));
            var audit := InRoom(roomKey, AuditEntry(ch.auditID));
            && Get(table, meta) == None && Get(table, owner) == None
            && Get(table', meta).Some? && Get(table', meta).value.RoomItem?
            && RoomSays(
                 Get(table', meta).value.room, c.actor, c.req.roomID, c.req.name, c.req.description, ch.now)
            && Get(table', owner).Some? && Get(table', owner).value.MemberItem?
            && EntrySays(Get(table', owner).value.member, c.req.roomID, c.actor, Owner, c.actor, ch.now)
            && AuditAdded(table, table', audit, RoomCreated, c.actor, c.actor, Owner, c.req.jti, ch.now)
            && OnlyChanges(table, table', {meta, owner, audit, Quota(c.actor)})
            && (ch.fault != ReplyLost ==>
                  c' == Finished(c.actor, c.req, Ok(RoomReply(Get(table', meta).value.room))))
  {
    hide Base64Url.Encode, WriteAll, OnlyChanges, Capabilities;
    var writes := TransactionOf(limits, c, ch).value;
    CommittedTable(limits, table, c, ch);
    TransactionKeysDistinct(limits, c, ch);
    assert Holds(writes[0].condition, Get(table, writes[0].key));
    assert Holds(writes[1].condition, Get(table, writes[1].key));
    assert Holds(writes[2].condition, Get(table, writes[2].key));
    WriteLands(table, writes, 0);
    WriteLands(table, writes, 1);
    WriteLands(table, writes, 2);
    WritesOnly(table, writes, {writes[0].key, writes[1].key, writes[2].key, writes[3].key});
  }

  // The creator's quota goes up by one, from below the limit.
  lemma CreateCounted(limits: Limits, table: Table, c: Client, ch: Choice)
    requires c.Ready? && c.req.CreateRequest? && Commits(limits, table, c, ch)
    ensures var table' := Step(limits, table, c, ch).0;
            match Get(table, Quota(c.actor))
            case Some(item) =>
              && item.QuotaItem? && item.roomCount < limits.maxRooms
              && Get(table', Quota(c.actor)) == Some(QuotaItem(item.roomCount + 1))
            case None => Get(table', Quota(c.actor)) == Some(QuotaItem(1))
  {
    hide Base64Url.Encode, WriteAll, OnlyChanges, Capabilities;
    var writes := TransactionOf(limits, c, ch).value;
    CommittedTable(limits, table, c, ch);
    TransactionKeysDistinct(limits, c, ch);
    assert Holds(writes[3].condition, Get(table, writes[3].key));
    WriteLands(table, writes, 3);
  }

  // ---------------------------------------------------------------- Grants

  // The room item after a change of its allow-list.
  predicate MetaBumped(table: Table, table': Table, meta: Key, version: int, delta: int, now: Time) {
    && Get(table, meta).Some? && Get(table, meta).value.RoomItem?
    && var room := Get(table, meta).value.room;
       && !room.archived && room.version == version
       && Get(table', meta).Some? && Get(table', meta).value.RoomItem?
       && RoomBumped(room, Get(table', meta).value.room, delta, now)
  }

  // The target's item: a new one where nothing was, the stored one with its role changed otherwise.
  predicate TargetGranted(table: Table, table': Table, key: Key, found: Option<Membership>, c: Client, now: Time)
    requires c.req.GrantRequest?
  {
    match found
    case None =>
      && Get(table, key) == None
      && Get(table', key).Some? && Get(table', key).value.MemberItem?
      && EntrySays(Get(table', key).value.member, c.req.roomID, c.req.target, c.req.role, c.actor, now)
    case Some(_) =>
      && Get(table, key).Some? && Get(table, key).value.MemberItem? && Get(table, key).value.member.role != Owner
      && Get(table', key).Some? && Get(table', key).value.MemberItem?
      && EntryPromoted(Get(table, key).value.member, Get(table', key).value.member, c.req.role, c.actor, now)
  }

  lemma GrantStored(limits: Limits, table: Table, c: Client, ch: Choice)
    requires c.Writing? && c.req.GrantRequest? && c.req.target != c.actor && Commits(limits, table, c, ch)
    requires !(c.found.Some? && c.found.value.role == c.req.role)
    ensures var table' := Step(limits, table, c, ch).0;
            var roomKey := Base64Url.Encode(c.req.roomID);
            var meta, target := InRoom(roomKey, Meta), InRoom(roomKey, Member(c.req.target));
            var audit := InRoom(roomKey, AuditEntry(ch.auditID));
            && TargetGranted(table, table', target, c.found, c, ch.now)
            && MetaBumped(table, table', meta, c.snapshot.room.version, if c.found.None? then 1 else 0, ch.now)
            && AuditAdded(
                 table, table', audit, AllowlistGranted, c.actor, c.req.target, c.req.role, c.req.jti, ch.now)
            && OnlyChanges(table, table', {meta, target, audit})
  {
    hide Base64Url.Encode, WriteAll, OnlyChanges, Capabilities;
    var writes := TransactionOf(limits, c, ch).value;
    CommittedTable(limits, table, c, ch);
    TransactionKeysDistinct(limits, c, ch);
    assert Holds(writes[1].condition, Get(table, writes[1].key));
    assert Holds(writes[2].condition, Get(table, writes[2].key));
    assert Holds(writes[3].condition, Get(table, writes[3].key));
    WriteLands(table, writes, 1);
    WriteLands(table, writes, 2);
    WriteLands(table, writes, 3);
    WritesOnly(table, writes, {writes[1].key, writes[2].key, writes[3].key});
  }

  // The reply is the new entry, or the membership read with its role changed.
  lemma GrantReplied(limits: Limits, table: Table, c: Client, ch: Choice)
    requires c.Writing? && c.req.GrantRequest? && Commits(limits, table, c, ch) && ch.fault != ReplyLost
    ensures var c' := Step(limits, table, c, ch).1;
            && c'.Finished? && c'.outcome.Ok? && c'.outcome.value.GrantReply?
            && var reply := c'.outcome.value;
               && reply.created == c.found.None?
               && match c.found
                  case None => EntrySays(reply.member, c.req.roomID, c.req.target, c.req.role, c.actor, ch.now)
                  case Some(m) =>
                    if m.role == c.req.role then reply.member == m
                    else m.agent == c.req.target && m.roomID == c.req.roomID
                         && m.roomKey == Base64Url.Encode(c.req.roomID) ==>
                           EntryPromoted(m, reply.member, c.req.role, c.actor, ch.now)
  {
    hide Base64Url.Encode, WriteAll, Passes, GrantWrites, GrantGuard, Capabilities;
    CommittedTable(limits, table, c, ch);
  }

  // Transactions that only check: a grant of the role the target has, a nickname the actor has, a replay.
  predicate OnlyGuards(c: Client) {
    || (c.Writing? && c.req.GrantRequest? && c.found.Some? && c.found.value.role == c.req.role)
    || (c.Writing? && c.req.NicknameRequest? && c.found.Some?
        && c.found.value.nickname == c.req.nickname && c.found.value.nicknameKey == c.req.nicknameKey)
    || c.Replaying?
  }

  lemma GuardStores(limits: Limits, table: Table, c: Client, ch: Choice)
    requires OnlyGuards(c) && Commits(limits, table, c, ch)
    ensures OnlyChanges(table, Step(limits, table, c, ch).0, {})
  {
    hide Base64Url.Encode, WriteAll, OnlyChanges;
    var writes := TransactionOf(limits, c, ch).value;
    CommittedTable(limits, table, c, ch);
    WritesOnly(table, writes, {});
  }

  // ---------------------------------------------------------------- Revocations

  // The target's item goes, and its nickname item with it.
  predicate TargetRemoved(table: Table, table': Table, roomKey: Str, target: Str) {
    var key := InRoom(roomKey, Member(target));
    && Get(table, key).Some? && Get(table, key).value.MemberItem? && Get(table, key).value.member.role != Owner
    && Get(table', key) == None
    && (Get(table, key).value.member.nicknameKey != [] ==>
          var nick := InRoom(roomKey, Nick(Get(table, key).value.member.nicknameKey));
          Get(table, nick) == Some(NickItem(target)) && Get(table', nick) == None)
  }

  // The keys a revocation may touch beside the room's own item.
  function RemovedKeys(roomKey: Str, target: Str, nicknameKey: Str, auditID: Str): set<Key> {
    {InRoom(roomKey, Member(target)), InRoom(roomKey, Meta), InRoom(roomKey, AuditEntry(auditID))}
    + (if nicknameKey != [] then {InRoom(roomKey, Nick(nicknameKey))} else {})
  }

  lemma RevokeStored(limits: Limits, table: Table, c: Client, ch: Choice)
    requires c.Writing? && c.req.RevokeRequest? && c.req.target != c.actor && Commits(limits, table, c, ch)
    ensures var (table', c') := Step(limits, table, c, ch);
            var roomKey := Base64Url.Encode(c.req.roomID);
            var audit := InRoom(roomKey, AuditEntry(ch.auditID));
            && TargetRemoved(table, table', roomKey, c.req.target)
            && MetaBumped(table, table', InRoom(roomKey, Meta), c.snapshot.room.version, -1, ch.now)
            && AuditAdded(
                 table, table', audit, AllowlistRevoked, c.actor, c.req.target, NO_ROLE, c.req.jti, ch.now)
            && OnlyChanges(
                 table, table',
                 RemovedKeys(
                   roomKey, c.req.target, Get(table, InRoom(roomKey, Member(c.req.target))).value.member.nicknameKey,
                   ch.auditID))
            && (ch.fault != ReplyLost ==> c' == Finished(c.actor, c.req, Ok(RevokeReply)))
  {
    hide Base64Url.Encode, WriteAll, OnlyChanges, AuditSays;
    var writes := TransactionOf(limits, c, ch).value;
    assert c.found.Some?;
    CommittedTable(limits, table, c, ch);
    TransactionKeysDistinct(limits, c, ch);
    RevokeLands(table, writes, RoomKeyOf(c.req), c.actor, OperationOf(c.req, c.snapshot).revoke, c.found.value, ch.now,
                ch.auditID);
  }

  lemma RevokeLands(
    table: Table, writes: seq<WriteItem>, roomKey: Str, agent: Str, input: RevokeInput, found: Membership, now: Time,
    auditID: Str)
    requires writes == RevokeWrites(roomKey, agent, input, found, now, auditID)
    requires DistinctKeys(writes) && Passes(table, writes)
    ensures var table' := WriteAll(table, writes);
            && TargetRemoved(table, table', roomKey, input.targetAgent)
            && Get(table, InRoom(roomKey, Member(input.targetAgent))).value.member.nicknameKey == found.nicknameKey
            && MetaBumped(table, table', InRoom(roomKey, Meta), input.expectedRoomVersion, -1, now)
            && AuditAdded(
                 table, table', InRoom(roomKey, AuditEntry(auditID)), AllowlistRevoked, agent, input.targetAgent,
                 NO_ROLE, input.tokenJTIHash, now)
            && OnlyChanges(table, table', RemovedKeys(roomKey, input.targetAgent, found.nicknameKey, auditID))
  {
    hide WriteAll, OnlyChanges;
    assert Holds(writes[1].condition, Get(table, writes[1].key));
    assert Holds(writes[2].condition, Get(table, writes[2].key));
    assert Holds(writes[3].condition, Get(table, writes[3].key));
    WriteLands(table, writes, 1);
    WriteLands(table, writes, 2);
    WriteLands(table, writes, 3);
    if found.nicknameKey != [] {
      assert Holds(writes[4].condition, Get(table, writes[4].key));
      WriteLands(table, writes, 4);
    }
    WritesOnly(table, writes, RemovedKeys(roomKey, input.targetAgent, found.nicknameKey, auditID));
  }

  // ---------------------------------------------------------------- Nickname changes

  function RenamedKeys(roomKey: Str, agent: Str, before: Str, after: Str): set<Key> {
    {InRoom(roomKey, Member(agent))}
    + (if before == after then {} else {InRoom(roomKey, Nick(after))})
    + (if before == after || before == [] then {} else {InRoom(roomKey, Nick(before))})
  }

  lemma NicknameStored(limits: Limits, table: Table, c: Client, ch: Choice)
    requires c.Writing? && c.req.NicknameRequest? && !OnlyGuards(c) && Commits(limits, table, c, ch)
    ensures c.found.Some?
    ensures var (table', c') := Step(limits, table, c, ch);
            var roomKey := Base64Url.Encode(c.req.roomID);
            var member, before, after := InRoom(roomKey, Member(c.actor)),
                                     InRoom(roomKey, Nick(c.found.value.nicknameKey)),
                                     InRoom(roomKey, Nick(c.req.nicknameKey));
            && Get(table, member).Some? && Get(table, member).value.MemberItem?
            && Get(table', member).Some? && Get(table', member).value.MemberItem?
            && EntryRenamed(
                 Get(table, member).value.member, Get(table', member).value.member, c.req.nickname, c.req.nicknameKey,
                 c.actor, ch.now)
            && (before != after ==> Get(table', after) == Some(NickItem(c.actor)))
            && (before != after && c.found.value.nicknameKey != [] ==> Get(table', before) == None)
            && OnlyChanges(
                 table, table',
                 RenamedKeys(roomKey, c.actor, c.found.value.nicknameKey, c.req.nicknameKey))
            && (ch.fault != ReplyLost ==>
                  && c'.Finished? && c'.actor == c.actor && c'.req == c.req
                  && c'.outcome.Ok? && c'.outcome.value.NicknameReply?
                  && EntryRenamed(
                       c.found.value, c'.outcome.value.profile, c.req.nickname, c.req.nicknameKey, c.actor, ch.now))
  {
    hide Base64Url.Encode, WriteAll, OnlyChanges;
    var writes := TransactionOf(limits, c, ch).value;
    CommittedTable(limits, table, c, ch);
    TransactionKeysDistinct(limits, c, ch);
    assert Holds(writes[1].condition, Get(table, writes[1].key));
    NicknameLands(
      table, writes, RoomKeyOf(c.req), c.actor, OperationOf(c.req, c.snapshot).profile, c.found.value, ch.now);
  }

  lemma NicknameLands(
    table: Table, writes: seq<WriteItem>, roomKey: Str, agent: Str, input: SetNicknameInput, found: Membership,
    now: Time)
    requires writes == NicknameWrites(roomKey, agent, input, found, now)
    requires DistinctKeys(writes) && Passes(table, writes)
    ensures var table' := WriteAll(table, writes);
            var member, before, after := InRoom(roomKey, Member(agent)), InRoom(roomKey, Nick(found.nicknameKey)),
                                     InRoom(roomKey, Nick(input.nicknameKey));
            && Get(table, member).Some? && Get(table, member).value.MemberItem?
            && Get(table', member).Some? && Get(table', member).value.MemberItem?
            && EntryRenamed(
                 Get(table, member).value.member, Get(table', member).value.member, input.nickname, input.nicknameKey,
                 agent, now)
            && (before != after ==> Get(table', after) == Some(NickItem(agent)))
            && (before != after && found.nicknameKey != [] ==> Get(table', before) == None)
            && OnlyChanges(table, table', RenamedKeys(roomKey, agent, found.nicknameKey, input.nicknameKey))
  {
    hide WriteAll, OnlyChanges;
    assert Holds(writes[1].condition, Get(table, writes[1].key));
    WriteLands(table, writes, 1);
    if found.nicknameKey != input.nicknameKey {
      WriteLands(table, writes, |writes| - 1);
      if found.nicknameKey != [] { WriteLands(table, writes, 2); }
    }
    WritesOnly(table, writes, RenamedKeys(roomKey, agent, found.nicknameKey, input.nicknameKey));
  }
}
