/** The DynamoDB table: items under (PK, SK), conditions, and the atomic conditional TransactWriteItems. */
module DynamoTable {
  import opened Bytes
  import opened Board

  datatype SortKey =
    | Meta
    | Member(agent: Str)
    | Nick(nicknameKey: Str)
    | Msg(messageID: Str)
    | Idemp(idempotencyKey: Str)
    | AuditEntry(auditID: Str)

  datatype Key = InRoom(roomKey: Str, sk: SortKey) | Quota(agent: Str)

  // The attributes the store reads back; an empty nickname key is an absent attribute (omitempty).
  datatype Item =
    | RoomItem(room: Room)
    | MemberItem(member: Membership)
    | NickItem(agent: Str)
    | MessageItem(message: Message)
    | IdempotencyItem(record: Idempotency)
    | AuditItem(audit: Audit)
    | QuotaItem(roomCount: int)

  type Table = map<Key, Item>

  function Get(table: Table, key: Key): Option<Item> {
    if key in table then Some(table[key]) else None
  }

  // ---------------------------------------------------------------- Key text

  function PK(key: Key): Str {
    match key
    case InRoom(roomKey, _) => [82, 79, 79, 77, HASH] + roomKey           // ROOM#
    case Quota(agent) => [65, 71, 69, 78, 84, HASH] + agent               // AGENT#
  }

  function SortKeyText(sk: SortKey): Str {
    match sk
    case Meta => [77, 69, 84, 65]                                         // META
    case Member(agent) => [77, 69, 77, 66, 69, 82, HASH] + agent          // MEMBER#
    case Nick(nicknameKey) => [78, 73, 67, 75, HASH] + nicknameKey        // NICK#
    case Msg(messageID) => [77, 83, 71, HASH] + messageID                 // MSG#
    case Idemp(key) => [73, 68, 69, 77, 80, HASH] + key                   // IDEMP#
    case AuditEntry(auditID) =>
      [65, 85, 68, 73, 84, HASH, 97, 117, 100, 105, 116, 95] + auditID    // AUDIT#audit_
  }

  function SK(key: Key): Str {
    match key
    case InRoom(_, sk) => SortKeyText(sk)
    case Quota(_) => [81, 85, 79, 84, 65]                                 // QUOTA
  }

  lemma RoomPrefixes()
    ensures Ascii("ROOM#") == [82, 79, 79, 77, HASH] && Ascii("AGENT#") == [65, 71, 69, 78, 84, HASH]
    ensures Ascii("QUOTA") == [81, 85, 79, 84, 65] && Ascii("META") == [77, 69, 84, 65]
  {
  }

  lemma ItemPrefixes()
    ensures Ascii("MEMBER#") == [77, 69, 77, 66, 69, 82, HASH] && Ascii("NICK#") == [78, 73, 67, 75, HASH]
    ensures Ascii("MSG#") == [77, 83, 71, HASH] && Ascii("IDEMP#") == [73, 68, 69, 77, 80, HASH]
  {
  }

  lemma AuditPrefix()
    ensures Ascii("AUDIT#audit_") == [65, 85, 68, 73, 84, HASH, 97, 117, 100, 105, 116, 95]
  {
  }

  // The key texts, as letters.
  lemma KeysAreSpelled(roomKey: Str, text: Str, sk: SortKey)
    ensures PK(InRoom(roomKey, sk)) == Ascii("ROOM#") + roomKey && PK(Quota(text)) == Ascii("AGENT#") + text
    ensures SK(Quota(text)) == Ascii("QUOTA") && SortKeyText(Meta) == Ascii("META")
    ensures SortKeyText(Member(text)) == Ascii("MEMBER#") + text && SortKeyText(Nick(text)) == Ascii("NICK#") + text
    ensures SortKeyText(Msg(text)) == Ascii("MSG#") + text && SortKeyText(Idemp(text)) == Ascii("IDEMP#") + text
    ensures SortKeyText(AuditEntry(text)) == Ascii("AUDIT#audit_") + text
  {
    hide Ascii;
    RoomPrefixes();
    ItemPrefixes();
    AuditPrefix();
  }

  lemma PrefixCancels(prefix: Str, a: Str, b: Str)
    requires prefix + a == prefix + b
    ensures a == b
  {
    assert a == (prefix + a)[|prefix|..] && b == (prefix + b)[|prefix|..];
  }

  lemma SortKeyTextInjective(a: SortKey, b: SortKey)
    requires SortKeyText(a) == SortKeyText(b)
    ensures a == b
  {
    var x, y := SortKeyText(a), SortKeyText(b);
    assert x[0] == y[0] && x[1] == y[1] && x[2] == y[2];
    match (a, b) {
      case (Member(p), Member(q)) => PrefixCancels(x[..7], p, q);
      case (Nick(p), Nick(q)) => PrefixCancels(x[..5], p, q);
      case (Msg(p), Msg(q)) => PrefixCancels(x[..4], p, q);
      case (Idemp(p), Idemp(q)) => PrefixCancels(x[..6], p, q);
      case (AuditEntry(p), AuditEntry(q)) => PrefixCancels(x[..12], p, q);
      case _ =>
    }
  }

  // Different structured keys are different table keys, so the map above is the table.
  lemma KeyTextInjective(a: Key, b: Key)
    requires PK(a) == PK(b) && SK(a) == SK(b)
    ensures a == b
  {
    assert PK(a)[0] == PK(b)[0];
    match (a, b) {
      case (InRoom(p, s), InRoom(q, r)) =>
        PrefixCancels(PK(a)[..5], p, q);
        SortKeyTextInjective(s, r);
      case (Quota(p), Quota(q)) => PrefixCancels(PK(a)[..6], p, q);
      case _ =>
    }
  }

  // ---------------------------------------------------------------- Conditions

  datatype Condition =
    | Absent                                              // attribute_not_exists(PK)
    | RoomOpen                                            // archived = false
    | RoomOpenAt(version: int)                            // ... AND version = :expectedVersion
    | RoomOpenBelow(version: int, maxMembers: int)        // ... AND memberCount < :maxMembers
    | ActorIs(version: int, roles: set<Role>)             // exists AND version = :version AND role IN roles
    | NotOwner                                            // exists AND role <> owner
    | Revocable(version: int, nicknameKey: Str)           // exists AND role <> owner AND version AND nickname key
    | MemberIs(version: int, role: Role)                  // exists AND version = :version AND role = :role
    | AgentIs(agent: Str)                                 // agent = :agent
    | AbsentOrAgentIs(agent: Str)                         // attribute_not_exists(PK) OR agent = :agent
    | QuotaBelow(maxRooms: int)                           // attribute_not_exists(roomCount) OR roomCount < :maxRooms

  predicate Holds(condition: Condition, item: Option<Item>) {
    match condition
    case Absent => item.None?
    case RoomOpen => item.Some? && item.value.RoomItem? && !item.value.room.archived
    case RoomOpenAt(version) =>
      item.Some? && item.value.RoomItem? && !item.value.room.archived && item.value.room.version == version
    case RoomOpenBelow(version, maxMembers) =>
      item.Some? && item.value.RoomItem? && !item.value.room.archived && item.value.room.version == version
      && item.value.room.memberCount < maxMembers
    case ActorIs(version, roles) =>
      item.Some? && item.value.MemberItem? && item.value.member.version == version && item.value.member.role in roles
    case NotOwner => item.Some? && item.value.MemberItem? && item.value.member.role != Owner
    case Revocable(version, nicknameKey) =>
      item.Some? && item.value.MemberItem? && item.value.member.role != Owner
      && item.value.member.version == version && item.value.member.nicknameKey == nicknameKey
    case MemberIs(version, role) =>
      item.Some? && item.value.MemberItem? && item.value.member.version == version && item.value.member.role == role
    case AgentIs(agent) => item.Some? && item.value.NickItem? && item.value.agent == agent
    case AbsentOrAgentIs(agent) => item.None? || (item.value.NickItem? && item.value.agent == agent)
    case QuotaBelow(maxRooms) => item.None? || (item.value.QuotaItem? && item.value.roomCount < maxRooms)
  }

  // ---------------------------------------------------------------- Writes

  datatype Effect =
    | Check
    | Put(item: Item)
    | Delete
    | BumpRoom(memberDelta: int, now: Time)
    | SetRole(role: Role, capabilities: seq<Capability>, editor: Str, now: Time)
    | SetNick(nickname: Str, nicknameKey: Str, editor: Str, now: Time)
    | IncrementQuota

  datatype WriteItem = WriteItem(key: Key, condition: Condition, effect: Effect)

  // An update expression applied to the stored item; conditions rule out items of another shape.
  function Updated(effect: Effect, item: Option<Item>): Option<Item> {
    match effect
    case Check => item
    case Put(newItem) => Some(newItem)
    case Delete => None
    case BumpRoom(delta, now) =>
      if item.Some? && item.value.RoomItem? then
        var room := item.value.room;
        Some(RoomItem(room.(
        version := room.version + 1, updatedAt := now, memberCount := room.memberCount + delta)))
      else item
    case SetRole(role, capabilities, editor, now) =>
      if item.Some? && item.value.MemberItem? then
        var member := item.value.member;
        Some(MemberItem(member.(
        role := role, capabilities := capabilities, updatedBy := editor, updatedAt := now,
        version := member.version + 1)))
      else item
    case SetNick(nickname, nicknameKey, editor, now) =>
      if item.Some? && item.value.MemberItem? then
        var member := item.value.member;
        Some(MemberItem(member.(
        nickname := nickname, nicknameKey := nicknameKey, updatedBy := editor, updatedAt := now,
        version := member.version + 1)))
      else item
    case IncrementQuota =>
      Some(QuotaItem(if item.Some? && item.value.QuotaItem? then item.value.roomCount + 1 else 1))
  }

  function Write(table: Table, write: WriteItem): Table {
    match Updated(write.effect, Get(table, write.key))
    case Some(item) => table[write.key := item]
    case None => table - {write.key}
  }

  function WriteAll(table: Table, writes: seq<WriteItem>): Table
    decreases |writes|
  {
    if writes == [] then table else WriteAll(Write(table, writes[0]), writes[1..])
  }

  predicate Passes(table: Table, writes: seq<WriteItem>) {
    forall i :: 0 <= i < |writes| ==> Holds(writes[i].condition, Get(table, writes[i].key))
  }

  // TransactWriteItems: every condition is evaluated on the table as it is; then all writes happen or none does.
  function Transact(table: Table, writes: seq<WriteItem>): Outcome<Table> {
    if Passes(table, writes) then Ok(WriteAll(table, writes)) else Err(Conflict)
  }

  // DynamoDB rejects a transaction that names one item twice.
  predicate DistinctKeys(writes: seq<WriteItem>) {
    forall i, j :: 0 <= i < j < |writes| ==> writes[i].key != writes[j].key
  }

  // With distinct keys each item changes by its own action alone, whatever the order of the writes.
  lemma {:induction false} WriteAllPointwise(table: Table, writes: seq<WriteItem>, key: Key)
    requires DistinctKeys(writes)
    ensures (forall i :: 0 <= i < |writes| ==> writes[i].key != key) ==>
              Get(WriteAll(table, writes), key) == Get(table, key)
    ensures forall i :: 0 <= i < |writes| && writes[i].key == key ==>
              Get(WriteAll(table, writes), key) == Updated(writes[i].effect, Get(table, key))
    decreases |writes|
  {
    if writes != [] {
      var first := Write(table, writes[0]);
      assert forall i :: 0 <= i < |writes[1..]| ==> writes[1..][i] == writes[i + 1];
      WriteAllPointwise(first, writes[1..], key);
      assert writes[0].key != key ==> Get(first, key) == Get(table, key);
      assert writes[0].key == key ==> Get(first, key) == Updated(writes[0].effect, Get(table, key));
    }
  }
}
