/** What every operation keeps: accounting, nickname index, message index, and an audit log that justifies itself. */
module BoardInvariant {
  import opened Bytes
  import opened Board
  import opened BoardSpec
  import Base64Url

  // ---------------------------------------------------------------- Allow-list and audit log

  function RolesOf(members: map<Str, Membership>): map<Str, Role> {
    map agent | agent in members :: members[agent].role
  }

  // The allow-list an audit log describes.
  function Fold(audits: seq<Audit>): map<Str, Role> {
    if audits == [] then map[]
    else
      var earlier, last := Fold(audits[..|audits| - 1]), audits[|audits| - 1];
      match last.event
      case RoomCreated => earlier[last.target := last.role]
      case AllowlistGranted => earlier[last.target := last.role]
      case AllowlistRevoked => earlier - {last.target}
  }

  predicate MayManage(roles: map<Str, Role>, agent: Str) {
    agent in roles && (roles[agent] == Owner || roles[agent] == Admin)
  }

  // An entry is justified by the allow-list that the earlier entries describe.
  predicate JustifiedEntry(roles: map<Str, Role>, owner: Str, entry: Audit) {
    && MayManage(roles, entry.actor)
    && entry.target != entry.actor
    && entry.target != owner
    && match entry.event
       case RoomCreated => false
       case AllowlistGranted =>
         MutableRole(entry.role) && (entry.target in roles ==> roles[entry.target] != entry.role)
       case AllowlistRevoked => entry.target in roles
  }

  predicate JustifiedLog(audits: seq<Audit>, owner: Str) {
    && |audits| >= 1
    && audits[0].event == RoomCreated
    && audits[0].actor == audits[0].target == owner
    && audits[0].role == Owner
    && forall i :: 1 <= i < |audits| ==> JustifiedEntry(Fold(audits[..i]), owner, audits[i])
  }

  // ---------------------------------------------------------------- One room

  function LowerByte(c: byte): byte {
    if 65 <= c <= 90 then c + 32 else c
  }

  function Lower(text: Str): Str {
    seq(|text|, i requires 0 <= i < |text| => LowerByte(text[i]))
  }

  predicate MemberOk(room: Room, agent: Str, member: Membership) {
    && member.agent == agent
    && member.roomID == room.roomID
    && member.roomKey == room.roomKey
    && member.version >= 1
    && CapabilitiesForRole(member.role) == Some(member.capabilities)
    && (member.role == Owner <==> agent == room.owner)
    && member.nicknameKey == Lower(member.nickname)
  }

  predicate MembersOk(room: Room, members: map<Str, Membership>) {
    && room.owner in members
    && room.memberCount == |members|
    && forall agent :: agent in members ==> MemberOk(room, agent, members[agent])
  }

  // The index is the exact inverse of the members' non-empty nickname keys.
  predicate NicknamesOk(members: map<Str, Membership>, nicknames: map<Str, Str>) {
    && (forall key :: key in nicknames ==>
          key != [] && nicknames[key] in members && members[nicknames[key]].nicknameKey == key)
    && (forall agent :: agent in members && members[agent].nicknameKey != [] ==>
          members[agent].nicknameKey in nicknames && nicknames[members[agent].nicknameKey] == agent)
  }

  predicate SortedByID(messages: seq<Message>) {
    forall i, j :: 0 <= i < j < |messages| ==> Less(messages[i].messageID, messages[j].messageID)
  }

  predicate HasMessage(messages: seq<Message>, messageID: Str) {
    exists i :: 0 <= i < |messages| && messages[i].messageID == messageID
  }

  function IdempotencyKeyOfMessage(message: Message): Str {
    IdempotencyKeyOf(message.author, message.idempotencyKey)
  }

  predicate MessageIndexed(idempotency: map<Str, Idempotency>, message: Message) {
    var key := IdempotencyKeyOfMessage(message);
    key in idempotency && idempotency[key] == Idempotency(message.requestHash, message.messageID)
  }

  predicate RecordHasMessage(messages: seq<Message>, record: Idempotency) {
    HasMessage(messages, record.messageID)
  }

  // Idempotency records and messages point at each other.
  predicate MessagesOk(roomID: Str, roomKey: Str, messages: seq<Message>, idempotency: map<Str, Idempotency>) {
    && SortedByID(messages)
    && (forall m :: m in messages ==>
          MessageIndexed(idempotency, m) && m.roomID == roomID && m.roomKey == roomKey)
    && (forall key :: key in idempotency ==> RecordHasMessage(messages, idempotency[key]))
    && (forall m, key :: m in messages && key in idempotency && idempotency[key].messageID == m.messageID ==>
          key == IdempotencyKeyOfMessage(m))
  }

  predicate AuditsOk(owner: Str, version: int, audits: seq<Audit>, roles: map<Str, Role>) {
    && version == |audits|
    && Fold(audits) == roles
    && JustifiedLog(audits, owner)
  }

  // Everything about a room but its nickname index.
  predicate RoomCore(limits: Limits, roomKey: Str, state: RoomState) {
    && state.room.roomKey == roomKey == Base64Url.Encode(state.room.roomID)
    && (state.room.memberCount <= limits.maxMembers || state.room.memberCount <= 1)
    && MembersOk(state.room, state.members)
    && MessagesOk(state.room.roomID, roomKey, state.messages, state.idempotency)
    && AuditsOk(state.room.owner, state.room.version, state.audits, RolesOf(state.members))
  }

  predicate RoomOk(limits: Limits, roomKey: Str, state: RoomState) {
    RoomCore(limits, roomKey, state) && NicknamesOk(state.members, state.nicknames)
  }

  // ---------------------------------------------------------------- The board

  function OwnedRooms(board: BoardState, agent: Str): set<Str> {
    set roomKey | roomKey in board.rooms && board.rooms[roomKey].room.owner == agent
  }

  predicate QuotaOk(limits: Limits, board: BoardState, agent: Str) {
    && QuotaOf(board, agent) == |OwnedRooms(board, agent)|
    && (QuotaOf(board, agent) == 0 || QuotaOf(board, agent) <= limits.maxRooms)
  }

  // Rooms and room keys are in bijection: no two room IDs share a record.
  predicate KeysOk(board: BoardState) {
    && (forall roomID :: roomID in board.roomKeys ==>
          && board.roomKeys[roomID] == Base64Url.Encode(roomID)
          && board.roomKeys[roomID] in board.rooms
          && board.rooms[board.roomKeys[roomID]].room.roomID == roomID)
    && (forall roomKey :: roomKey in board.rooms ==>
          board.rooms[roomKey].room.roomID in board.roomKeys
          && board.roomKeys[board.rooms[roomKey].room.roomID] == roomKey)
  }

  ghost predicate BoardOk(limits: Limits, board: BoardState) {
    && KeysOk(board)
    && (forall roomKey :: roomKey in board.rooms ==> RoomOk(limits, roomKey, board.rooms[roomKey]))
    && (forall agent :: QuotaOk(limits, board, agent))
  }

  // The invariant without the nickname index; an agent's first room is counted whatever the limit.
  predicate QuotaCore(limits: Limits, board: BoardState, agent: Str) {
    && QuotaOf(board, agent) == |OwnedRooms(board, agent)|
    && (QuotaOf(board, agent) <= 1 || QuotaOf(board, agent) <= limits.maxRooms)
  }

  ghost predicate BoardCore(limits: Limits, board: BoardState) {
    && KeysOk(board)
    && (forall roomKey :: roomKey in board.rooms ==> RoomCore(limits, roomKey, board.rooms[roomKey]))
    && (forall agent :: QuotaCore(limits, board, agent))
  }

  predicate IndexExact(board: BoardState, roomKey: Str) {
    roomKey in board.rooms ==> NicknamesOk(board.rooms[roomKey].members, board.rooms[roomKey].nicknames)
  }

  // A post's message ID must not be in use in its room; ULIDs are drawn fresh.
  predicate FreshMessageID(board: BoardState, op: Operation, messageID: Str) {
    op.OpPost? ==>
      match RecordByRoomID(board, op.post.roomID)
      case Ok(roomKey) => !HasMessage(board.rooms[roomKey].messages, messageID)
      case Err(_) => true
  }

  // The nickname inputs that validation.Nickname lets through.
  predicate NicknameInputOk(op: Operation) {
    op.OpNickname? ==> op.profile.nicknameKey != [] && op.profile.nicknameKey == Lower(op.profile.nickname)
  }

  // ---------------------------------------------------------------- Message lists

  lemma {:induction false} InsertContents(messages: seq<Message>, message: Message, id: Str)
    ensures HasMessage(InsertByID(messages, message), id) <==> HasMessage(messages, id) || id == message.messageID
    ensures multiset(InsertByID(messages, message)) == multiset(messages) + multiset{message}
    ensures |InsertByID(messages, message)| == |messages| + 1
  {
    var inserted := InsertByID(messages, message);
    if messages == [] || Less(message.messageID, messages[0].messageID) {
      assert inserted[0] == message && inserted[1..] == messages;
      HasMessageSplit(inserted, id);
    } else {
      InsertContents(messages[1..], message, id);
      assert inserted[0] == messages[0] && inserted[1..] == InsertByID(messages[1..], message);
      assert messages == [messages[0]] + messages[1..];
      HasMessageSplit(inserted, id);
      HasMessageSplit(messages, id);
    }
  }

  lemma HasMessageSplit(messages: seq<Message>, id: Str)
    requires messages != []
    ensures HasMessage(messages, id) <==> messages[0].messageID == id || HasMessage(messages[1..], id)
  {
    if HasMessage(messages, id) && messages[0].messageID != id {
      var i :| 0 <= i < |messages| && messages[i].messageID == id;
      assert messages[1..][i - 1].messageID == id;
    }
    if HasMessage(messages[1..], id) {
      var i :| 0 <= i < |messages[1..]| && messages[1..][i].messageID == id;
      assert messages[i + 1].messageID == id;
    }
  }

  lemma {:induction false} InsertSorted(messages: seq<Message>, message: Message)
    requires SortedByID(messages) && !HasMessage(messages, message.messageID)
    ensures SortedByID(InsertByID(messages, message))
  {
    var inserted := InsertByID(messages, message);
    if messages == [] {
    } else if Less(message.messageID, messages[0].messageID) {
      forall j | 1 <= j < |messages| ensures Less(message.messageID, messages[j].messageID) {
        LessTransitive(message.messageID, messages[0].messageID, messages[j].messageID);
      }
    } else {
      LessTotal(message.messageID, messages[0].messageID);
      var tail := InsertByID(messages[1..], message);
      InsertSortedTail(messages, message);
      InsertSorted(messages[1..], message);
      assert inserted == [messages[0]] + tail;
      forall j | 0 <= j < |tail| ensures Less(messages[0].messageID, tail[j].messageID) {
        InsertContents(messages[1..], message, tail[j].messageID);
        assert tail[j] in multiset(tail);
        assert tail[j] in multiset(messages[1..]) + multiset{message};
      }
    }
  }

  lemma InsertSortedTail(messages: seq<Message>, message: Message)
    requires messages != [] && SortedByID(messages) && !HasMessage(messages, message.messageID)
    ensures SortedByID(messages[1..]) && !HasMessage(messages[1..], message.messageID)
    ensures messages[0].messageID != message.messageID
  {
    HasMessageSplit(messages, message.messageID);
  }

  lemma {:induction false} FindMessageInSorted(messages: seq<Message>, i: nat)
    requires SortedByID(messages) && i < |messages|
    ensures FindMessage(messages, messages[i].messageID) == Some(messages[i])
  {
    if i > 0 {
      LessAsymmetric(messages[0].messageID, messages[i].messageID);
      FindMessageInSorted(messages[1..], i - 1);
    }
  }

  // ---------------------------------------------------------------- Member tables

  predicate SameRoom(room: Room, room': Room) {
    room'.roomID == room.roomID && room'.roomKey == room.roomKey && room'.owner == room.owner
  }

  lemma MembersAfterPut(room: Room, members: map<Str, Membership>, room': Room, agent: Str, member: Membership)
    requires MembersOk(room, members) && SameRoom(room, room') && MemberOk(room, agent, member)
    requires room'.memberCount == room.memberCount + (if agent in members then 0 else 1)
    ensures MembersOk(room', members[agent := member])
    ensures RolesOf(members[agent := member]) == RolesOf(members)[agent := member.role]
  {
    SizeAfterPut(members, agent, member);
    RolesAfterPut(members, agent, member);
    hide RolesOf;
  }

  lemma SizeAfterPut(members: map<Str, Membership>, agent: Str, member: Membership)
    ensures |members[agent := member]| == |members| + (if agent in members then 0 else 1)
  {
    assert members[agent := member].Keys == members.Keys + {agent};
  }

  lemma RolesAfterPut(members: map<Str, Membership>, agent: Str, member: Membership)
    ensures RolesOf(members[agent := member]) == RolesOf(members)[agent := member.role]
  {
  }

  lemma MembersAfterRemove(room: Room, members: map<Str, Membership>, room': Room, agent: Str)
    requires MembersOk(room, members) && SameRoom(room, room')
    requires agent in members && agent != room.owner && room'.memberCount == room.memberCount - 1
    ensures MembersOk(room', members - {agent})
    ensures RolesOf(members - {agent}) == RolesOf(members) - {agent}
  {
    assert (members - {agent}).Keys == members.Keys - {agent};
  }

  lemma NicknamesAfterPut(members: map<Str, Membership>, nicknames: map<Str, Str>, agent: Str, member: Membership)
    requires NicknamesOk(members, nicknames)
    requires member.nicknameKey == if agent in members then members[agent].nicknameKey else []
    ensures NicknamesOk(members[agent := member], nicknames)
  {
  }

  lemma NicknamesAfterRemove(members: map<Str, Membership>, nicknames: map<Str, Str>, agent: Str)
    requires NicknamesOk(members, nicknames) && agent in members
    ensures NicknamesOk(
              members - {agent},
              if members[agent].nicknameKey != [] then nicknames - {members[agent].nicknameKey} else nicknames)
  {
  }

  lemma NicknamesAfterRename(
    members: map<Str, Membership>, nicknames: map<Str, Str>, agent: Str, member: Membership)
    requires NicknamesOk(members, nicknames) && agent in members && member.nicknameKey != []
    requires member.nicknameKey in nicknames ==> nicknames[member.nicknameKey] == agent
    ensures var previous := members[agent].nicknameKey;
            var kept := if previous != [] && previous != member.nicknameKey then nicknames - {previous} else nicknames;
            NicknamesOk(members[agent := member], kept[member.nicknameKey := agent])
  {
  }

  lemma MessagesAfterPost(
    roomID: Str, roomKey: Str, messages: seq<Message>, idempotency: map<Str, Idempotency>, message: Message)
    requires MessagesOk(roomID, roomKey, messages, idempotency)
    requires message.roomID == roomID && message.roomKey == roomKey
    requires !HasMessage(messages, message.messageID)
    requires IdempotencyKeyOfMessage(message) !in idempotency
    ensures MessagesOk(
              roomID, roomKey, InsertByID(messages, message),
              idempotency[IdempotencyKeyOfMessage(message) := Idempotency(message.requestHash, message.messageID)])
  {
    var key := IdempotencyKeyOfMessage(message);
    var messages' := InsertByID(messages, message);
    var idempotency' := idempotency[key := Idempotency(message.requestHash, message.messageID)];
    InsertSorted(messages, message);
    forall m | m in messages'
      ensures m == message || (m in messages && m.messageID != message.messageID)
    {
      InsertMembership(messages, message, m);
    }
    forall m | m in messages' ensures MessageIndexed(idempotency', m) {
      if m != message { assert MessageIndexed(idempotency, m); }
    }
    forall k | k in idempotency' ensures RecordHasMessage(messages', idempotency'[k]) {
      InsertContents(messages, message, idempotency'[k].messageID);
      if k != key { assert RecordHasMessage(messages, idempotency[k]); }
    }
    forall m, k | m in messages' && k in idempotency' && idempotency'[k].messageID == m.messageID
      ensures k == IdempotencyKeyOfMessage(m)
    {
      if k != key { assert RecordHasMessage(messages, idempotency[k]); }
    }
  }

  lemma InsertMembership(messages: seq<Message>, message: Message, m: Message)
    requires m in InsertByID(messages, message) && !HasMessage(messages, message.messageID)
    ensures m == message || (m in messages && m.messageID != message.messageID)
  {
    InsertContents(messages, message, m.messageID);
    assert m in multiset(InsertByID(messages, message));
    if m != message {
      assert m in multiset(messages);
      var i :| 0 <= i < |messages| && messages[i] == m;
    }
  }

  lemma AuditsExtended(
    owner: Str, version: int, audits: seq<Audit>, roles: map<Str, Role>, entry: Audit, roles': map<Str, Role>)
    requires AuditsOk(owner, version, audits, roles)
    requires JustifiedEntry(roles, owner, entry)
    requires entry.event == AllowlistGranted ==> roles' == roles[entry.target := entry.role]
    requires entry.event == AllowlistRevoked ==> roles' == roles - {entry.target}
    ensures AuditsOk(owner, version + 1, audits + [entry], roles')
  {
    var audits' := audits + [entry];
    assert audits'[..|audits'| - 1] == audits;
    forall i | 1 <= i < |audits'| ensures JustifiedEntry(Fold(audits'[..i]), owner, audits'[i]) {
      if i < |audits| {
        assert audits'[..i] == audits[..i];
      } else {
        assert audits'[..i] == audits;
      }
    }
  }

  // ---------------------------------------------------------------- Each operation keeps the room invariant

  lemma GrantedMemberOk(state: RoomState, agent: Str, input: GrantInput, now: Time)
    requires MembersOk(state.room, state.members) && MutableRole(input.role)
    requires input.targetAgent != state.room.owner
    ensures MemberOk(state.room, input.targetAgent, GrantedMember(state, agent, input, now))
  {
  }

  lemma GrantKeepsCore(limits: Limits, roomKey: Str, state: RoomState, agent: Str, input: GrantInput, now: Time)
    requires RoomCore(limits, roomKey, state) && MutableRole(input.role)
    ensures RoomCore(limits, roomKey, GrantIn(limits, state, agent, input, now).0)
  {
    hide MessagesOk, AuditsOk, MembersOk, MemberOk, Base64Url.Encode;
    var (state', outcome) := GrantIn(limits, state, agent, input, now);
    var target := input.targetAgent;
    if outcome.Ok? && !(target in state.members && state.members[target].role == input.role) {
      GrantedMemberOk(state, agent, input, now);
      MembersAfterPut(state.room, state.members, state'.room, target, GrantedMember(state, agent, input, now));
      AuditsExtended(
        state.room.owner, state.room.version, state.audits, RolesOf(state.members),
        Audit(AllowlistGranted, agent, target, input.role, input.tokenJTIHash, now), RolesOf(state'.members));
    }
  }

  lemma GrantKeepsIndex(limits: Limits, state: RoomState, agent: Str, input: GrantInput, now: Time)
    requires NicknamesOk(state.members, state.nicknames)
    ensures var state' := GrantIn(limits, state, agent, input, now).0;
            NicknamesOk(state'.members, state'.nicknames)
  {
    hide NicknamesOk, CheckActor;
    NicknamesAfterPut(
      state.members, state.nicknames, input.targetAgent, GrantedMember(state, agent, input, now));
  }

  lemma GrantKeepsRoom(limits: Limits, roomKey: Str, state: RoomState, agent: Str, input: GrantInput, now: Time)
    requires RoomOk(limits, roomKey, state) && MutableRole(input.role)
    ensures RoomOk(limits, roomKey, GrantIn(limits, state, agent, input, now).0)
  {
    hide RoomCore, NicknamesOk, GrantIn;
    GrantKeepsCore(limits, roomKey, state, agent, input, now);
    GrantKeepsIndex(limits, state, agent, input, now);
  }

  lemma RevokeKeepsCore(limits: Limits, roomKey: Str, state: RoomState, agent: Str, input: RevokeInput, now: Time)
    requires RoomCore(limits, roomKey, state)
    ensures RoomCore(limits, roomKey, RevokeIn(state, agent, input, now).0)
  {
    hide MessagesOk, AuditsOk, MemberOk, Base64Url.Encode;
    var (state', outcome) := RevokeIn(state, agent, input, now);
    var target := input.targetAgent;
    if outcome.Ok? {
      MembersAfterRemove(state.room, state.members, state'.room, target);
      AuditsExtended(
        state.room.owner, state.room.version, state.audits, RolesOf(state.members),
        Audit(AllowlistRevoked, agent, target, NO_ROLE, input.tokenJTIHash, now), RolesOf(state'.members));
    }
  }

  lemma RevokeKeepsIndex(state: RoomState, agent: Str, input: RevokeInput, now: Time)
    requires NicknamesOk(state.members, state.nicknames)
    ensures var state' := RevokeIn(state, agent, input, now).0;
            NicknamesOk(state'.members, state'.nicknames)
  {
    hide NicknamesOk, CheckActor;
    if RevokeIn(state, agent, input, now).1.Ok? {
      NicknamesAfterRemove(state.members, state.nicknames, input.targetAgent);
    }
  }

  lemma RevokeKeepsRoom(limits: Limits, roomKey: Str, state: RoomState, agent: Str, input: RevokeInput, now: Time)
    requires RoomOk(limits, roomKey, state)
    ensures RoomOk(limits, roomKey, RevokeIn(state, agent, input, now).0)
  {
    hide RoomCore, NicknamesOk, RevokeIn;
    RevokeKeepsCore(limits, roomKey, state, agent, input, now);
    RevokeKeepsIndex(state, agent, input, now);
  }

  lemma RenamedMemberOk(room: Room, members: map<Str, Membership>, agent: Str, input: SetNicknameInput, now: Time)
    requires MembersOk(room, members) && agent in members
    requires input.nicknameKey == Lower(input.nickname)
    ensures MemberOk(room, agent, RenamedMember(members[agent], agent, input, now))
  {
    assert MemberOk(room, agent, members[agent]);
  }

  lemma RolesUnchangedBy(members: map<Str, Membership>, agent: Str, member: Membership)
    requires agent in members && member.role == members[agent].role
    ensures RolesOf(members)[agent := member.role] == RolesOf(members)
  {
  }

  // A new nickname for one member, whatever becomes of the index.
  lemma RenameKeepsCore(
    limits: Limits, roomKey: Str, state: RoomState, agent: Str, input: SetNicknameInput, now: Time,
    nicknames: map<Str, Str>)
    requires RoomCore(limits, roomKey, state) && agent in state.members
    requires input.nicknameKey == Lower(input.nickname)
    ensures RoomCore(
              limits, roomKey,
              state.(members := state.members[agent := RenamedMember(state.members[agent], agent, input, now)],
                     nicknames := nicknames))
  {
    var member := RenamedMember(state.members[agent], agent, input, now);
    hide MessagesOk, AuditsOk, MembersOk, MemberOk, Base64Url.Encode, RolesOf, Lower;
    RenamedMemberOk(state.room, state.members, agent, input, now);
    MembersAfterPut(state.room, state.members, state.room, agent, member);
    RolesUnchangedBy(state.members, agent, member);
  }

  lemma NicknameKeepsRoom(
    limits: Limits, roomKey: Str, state: RoomState, agent: Str, input: SetNicknameInput, now: Time)
    requires RoomOk(limits, roomKey, state)
    requires input.nicknameKey != [] && input.nicknameKey == Lower(input.nickname)
    ensures RoomOk(limits, roomKey, SetNicknameIn(state, agent, input, now).0)
  {
    hide RoomCore, NicknamesOk, RenamedMember, Lower;
    var state' := SetNicknameIn(state, agent, input, now).0;
    if state' != state {
      RenameKeepsCore(limits, roomKey, state, agent, input, now, state'.nicknames);
      var member := RenamedMember(state.members[agent], agent, input, now);
      assert member.nicknameKey == input.nicknameKey by { RenamedKey(state.members[agent], agent, input, now); }
      NicknamesAfterRename(state.members, state.nicknames, agent, member);
    }
  }

  lemma RenamedKey(member: Membership, agent: Str, input: SetNicknameInput, now: Time)
    ensures RenamedMember(member, agent, input, now).nicknameKey == input.nicknameKey
  {
  }

  lemma PostKeepsCore(
    limits: Limits, roomKey: Str, state: RoomState, agent: Str, input: PostInput, now: Time, messageID: Str)
    requires RoomCore(limits, roomKey, state)
    requires !HasMessage(state.messages, messageID)
    ensures RoomCore(limits, roomKey, PostIn(state, agent, input, now, messageID).0)
    ensures var state' := PostIn(state, agent, input, now, messageID).0;
            state'.members == state.members && state'.nicknames == state.nicknames
  {
    hide MessagesOk, AuditsOk, MembersOk, MemberOk, Base64Url.Encode, InsertByID, HasMessage;
    if PostIn(state, agent, input, now, messageID).0 != state {
      MessagesAfterPost(
        state.room.roomID, roomKey, state.messages, state.idempotency,
        NewMessage(state, agent, input, now, messageID));
    }
  }

  lemma PostKeepsRoom(
    limits: Limits, roomKey: Str, state: RoomState, agent: Str, input: PostInput, now: Time, messageID: Str)
    requires RoomOk(limits, roomKey, state)
    requires !HasMessage(state.messages, messageID)
    ensures RoomOk(limits, roomKey, PostIn(state, agent, input, now, messageID).0)
  {
    hide RoomCore, NicknamesOk, PostIn, HasMessage;
    PostKeepsCore(limits, roomKey, state, agent, input, now, messageID);
  }

  lemma ApplyKeepsRoom(
    limits: Limits, roomKey: Str, state: RoomState, agent: Str, op: Operation, now: Time, messageID: Str)
    requires RoomOk(limits, roomKey, state)
    requires !op.OpCreate? && !InvalidInput(op) && NicknameInputOk(op)
    requires op.OpPost? ==> !HasMessage(state.messages, messageID)
    ensures RoomOk(limits, roomKey, ApplyInRoom(limits, state, agent, op, now, messageID).0)
  {
    hide RoomOk, GrantIn, RevokeIn, SetNicknameIn, PostIn, HasMessage, Lower;
    match op
    case OpGrant(input) => GrantKeepsRoom(limits, roomKey, state, agent, input, now);
    case OpRevoke(input) => RevokeKeepsRoom(limits, roomKey, state, agent, input, now);
    case OpNickname(input) => NicknameKeepsRoom(limits, roomKey, state, agent, input, now);
    case OpPost(input) => PostKeepsRoom(limits, roomKey, state, agent, input, now, messageID);
  }

  lemma ApplyKeepsIdentity(
    limits: Limits, state: RoomState, agent: Str, op: Operation, now: Time, messageID: Str)
    requires !op.OpCreate?
    ensures SameRoom(state.room, ApplyInRoom(limits, state, agent, op, now, messageID).0.room)
  {
  }

  lemma NewRoomOk(limits: Limits, agent: Str, input: CreateRoomInput, now: Time)
    ensures RoomOk(limits, Base64Url.Encode(input.roomID), NewRoom(agent, input, now))
  {
    var state := NewRoom(agent, input, now);
    assert state.audits[..0] == [];
    assert Fold(state.audits) == RolesOf(state.members);
    assert state.members.Keys == {agent};
  }

  lemma NewRoomKey(agent: Str, input: CreateRoomInput, now: Time)
    ensures NewRoom(agent, input, now).room.roomKey == Base64Url.Encode(input.roomID)
  {
  }

  lemma KeysAfterCreate(board: BoardState, roomID: Str, roomKey: Str, state: RoomState)
    requires KeysOk(board) && roomID !in board.roomKeys
    requires state.room.roomID == roomID && roomKey == Base64Url.Encode(roomID)
    ensures roomKey !in board.rooms
    ensures KeysOk(board.(rooms := board.rooms[roomKey := state], roomKeys := board.roomKeys[roomID := roomKey]))
  {
    hide Base64Url.Encode;
    forall other | Base64Url.Encode(other) == roomKey ensures other == roomID {
      Base64Url.EncodeInjective(other, roomID);
    }
  }

  lemma OwnedAfterCreate(board: BoardState, board': BoardState, roomKey: Str, state: RoomState, a: Str)
    requires roomKey !in board.rooms && board'.rooms == board.rooms[roomKey := state]
    ensures OwnedRooms(board', a) == OwnedRooms(board, a) + (if a == state.room.owner then {roomKey} else {})
    ensures roomKey !in OwnedRooms(board, a)
  {
  }

  lemma QuotaAfterCreate(
    limits: Limits, board: BoardState, board': BoardState, agent: Str, roomKey: Str, state: RoomState, a: Str)
    requires QuotaOf(board, a) == |OwnedRooms(board, a)|
    requires roomKey !in board.rooms && state.room.owner == agent
    requires board'.rooms == board.rooms[roomKey := state]
    requires board'.quotas == board.quotas[agent := QuotaOf(board, agent) + 1]
    ensures QuotaOf(board', a) == |OwnedRooms(board', a)|
    ensures QuotaOf(board', a) == QuotaOf(board, a) + (if a == agent then 1 else 0)
  {
    OwnedAfterCreate(board, board', roomKey, state, a);
    hide OwnedRooms;
  }

  // One more room keeps the core, if the agent is below the limit or has no room yet.
  lemma CreatedKeepsCore(limits: Limits, board: BoardState, agent: Str, input: CreateRoomInput, now: Time)
    requires BoardCore(limits, board) && input.roomID !in board.roomKeys
    requires QuotaOf(board, agent) < limits.maxRooms || QuotaOf(board, agent) == 0
    ensures BoardCore(limits, Created(board, agent, input, now))
    ensures Base64Url.Encode(input.roomID) !in board.rooms
    ensures forall a :: QuotaOf(Created(board, agent, input, now), a) ==
                        QuotaOf(board, a) + (if a == agent then 1 else 0)
  {
    hide RoomCore, KeysOk, OwnedRooms, Base64Url.Encode, NicknamesOk;
    var board' := Created(board, agent, input, now);
    var roomKey, state := Base64Url.Encode(input.roomID), NewRoom(agent, input, now);
    NewRoomOk(limits, agent, input, now);
    KeysAfterCreate(board, input.roomID, roomKey, state);
    KeysIgnoreQuotas(board.(rooms := board'.rooms, roomKeys := board'.roomKeys), board');
    forall a
      ensures QuotaCore(limits, board', a)
      ensures QuotaOf(board', a) == QuotaOf(board, a) + (if a == agent then 1 else 0)
    {
      assert QuotaCore(limits, board, a);
      QuotaAfterCreate(limits, board, board', agent, roomKey, state, a);
    }
  }

  lemma NewRoomIndexed(agent: Str, input: CreateRoomInput, now: Time)
    ensures var state := NewRoom(agent, input, now);
            NicknamesOk(state.members, state.nicknames)
  {
  }

  lemma CreateKeepsBoard(limits: Limits, board: BoardState, agent: Str, input: CreateRoomInput, now: Time)
    requires BoardOk(limits, board)
    ensures BoardOk(limits, CreateRoomOp(limits, board, agent, input, now).0)
  {
    hide RoomCore, KeysOk, OwnedRooms, Base64Url.Encode, NicknamesOk, Created;
    var (board', outcome) := CreateRoomOp(limits, board, agent, input, now);
    if outcome.Ok? {
      BoardIsCore(limits, board);
      assert QuotaCore(limits, board, agent);
      CreatedKeepsCore(limits, board, agent, input, now);
      CreatedRooms(board, agent, input, now);
      NewRoomIndexed(agent, input, now);
      CoreIsBoard(limits, board');
    }
  }

  lemma CreatedRooms(board: BoardState, agent: Str, input: CreateRoomInput, now: Time)
    ensures Created(board, agent, input, now).rooms
            == board.rooms[Base64Url.Encode(input.roomID) := NewRoom(agent, input, now)]
  {
  }

  lemma BoardIsCore(limits: Limits, board: BoardState)
    requires BoardOk(limits, board)
    ensures BoardCore(limits, board)
    ensures forall roomKey :: IndexExact(board, roomKey)
  {
    hide RoomCore, KeysOk, OwnedRooms, NicknamesOk;
    forall roomKey | roomKey in board.rooms
      ensures RoomCore(limits, roomKey, board.rooms[roomKey]) && IndexExact(board, roomKey)
    {
      assert RoomOk(limits, roomKey, board.rooms[roomKey]);
    }
    forall agent ensures QuotaCore(limits, board, agent) {
      assert QuotaOk(limits, board, agent);
    }
  }

  lemma CoreIsBoard(limits: Limits, board: BoardState)
    requires BoardCore(limits, board) && forall roomKey :: IndexExact(board, roomKey)
    requires limits.maxRooms >= 1 || forall agent :: QuotaOf(board, agent) == 0
    ensures BoardOk(limits, board)
  {
    hide RoomCore, KeysOk, OwnedRooms, NicknamesOk;
    forall roomKey | roomKey in board.rooms ensures RoomOk(limits, roomKey, board.rooms[roomKey]) {
      assert RoomCore(limits, roomKey, board.rooms[roomKey]) && IndexExact(board, roomKey);
    }
    forall agent ensures QuotaOk(limits, board, agent) {
      assert QuotaCore(limits, board, agent);
    }
  }

  // Replacing one room by a consistent one keeps the core.
  lemma RoomChangeKeepsCore(limits: Limits, board: BoardState, roomKey: Str, state': RoomState)
    requires BoardCore(limits, board) && roomKey in board.rooms
    requires RoomCore(limits, roomKey, state') && SameRoom(board.rooms[roomKey].room, state'.room)
    ensures BoardCore(limits, board.(rooms := board.rooms[roomKey := state']))
  {
    hide RoomCore, Base64Url.Encode, OwnedRooms, KeysOk, SameRoom;
    var board' := board.(rooms := board.rooms[roomKey := state']);
    SameRoomKeepsKeys(board, roomKey, state');
    forall a ensures QuotaCore(limits, board', a) {
      assert QuotaCore(limits, board, a);
      SameRoomKeepsOwned(board, roomKey, state', a);
    }
  }

  lemma SameRoomKeepsKeys(board: BoardState, roomKey: Str, state': RoomState)
    requires KeysOk(board) && roomKey in board.rooms && SameRoom(board.rooms[roomKey].room, state'.room)
    ensures KeysOk(board.(rooms := board.rooms[roomKey := state']))
  {
    hide Base64Url.Encode;
  }

  lemma SameRoomKeepsOwned(board: BoardState, roomKey: Str, state': RoomState, agent: Str)
    requires roomKey in board.rooms && SameRoom(board.rooms[roomKey].room, state'.room)
    ensures OwnedRooms(board.(rooms := board.rooms[roomKey := state']), agent) == OwnedRooms(board, agent)
  {
  }

  lemma KeysIgnoreQuotas(board: BoardState, board': BoardState)
    requires KeysOk(board) && board.rooms == board'.rooms && board.roomKeys == board'.roomKeys
    ensures KeysOk(board')
  {
  }

  // Every operation, successful or not, keeps the whole invariant.
  lemma ApplyKeepsBoard(limits: Limits, board: BoardState, agent: Str, op: Operation, now: Time, messageID: Str)
    requires BoardOk(limits, board)
    requires NicknameInputOk(op) && FreshMessageID(board, op, messageID)
    ensures BoardOk(limits, Apply(limits, board, agent, op, now, messageID).0)
  {
    hide RoomOk, Base64Url.Encode, ApplyInRoom, CreateRoomOp, InvalidInput, HasMessage, NicknameInputOk;
    var board' := Apply(limits, board, agent, op, now, messageID).0;
    if InvalidInput(op) {
    } else if op.OpCreate? {
      CreateKeepsBoard(limits, board, agent, op.create, now);
    } else if RecordByRoomID(board, RoomIDOf(op)).Ok? {
      var roomKey := RecordByRoomID(board, RoomIDOf(op)).value;
      ApplyKeepsRoom(limits, roomKey, board.rooms[roomKey], agent, op, now, messageID);
      ApplyKeepsIdentity(limits, board.rooms[roomKey], agent, op, now, messageID);
      assert board'.rooms.Keys == board.rooms.Keys;
      forall a ensures QuotaOk(limits, board', a) {
        assert QuotaOk(limits, board, a);
        assert OwnedRooms(board', a) == OwnedRooms(board, a);
      }
    }
  }

  // A refused operation leaves the board as it was.
  lemma RefusalChangesNothing(
    limits: Limits, board: BoardState, agent: Str, op: Operation, now: Time, messageID: Str)
    ensures Apply(limits, board, agent, op, now, messageID).1.Err? ==>
              Apply(limits, board, agent, op, now, messageID).0 == board
  {
    if !InvalidInput(op) && !op.OpCreate? && RecordByRoomID(board, RoomIDOf(op)).Ok? {
      var roomKey := RecordByRoomID(board, RoomIDOf(op)).value;
      assert board.rooms[roomKey := board.rooms[roomKey]] == board.rooms;
    }
  }
}
