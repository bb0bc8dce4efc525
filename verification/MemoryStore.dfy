/** MemoryStore (store/memory.go): mutable maps of mutable room records, each call atomic under the mutex. */
module MemoryStore {
  import opened Bytes
  import opened Board
  import opened BoardSpec
  import opened BoardInvariant
  import Base64Url
  import Validation
  import Paging
  import BoardEffects

  class RoomRecord {
    var room: Room
    var members: map<Str, Membership>
    var nicknames: map<Str, Str>
    var messages: seq<Message>
    var idempotency: map<Str, Idempotency>
    var audits: seq<Audit>

    constructor (room: Room, members: map<Str, Membership>, audits: seq<Audit>)
      ensures State() == RoomState(room, members, map[], [], map[], audits)
    {
      this.room := room;
      this.members := members;
      this.nicknames := map[];
      this.messages := [];
      this.idempotency := map[];
      this.audits := audits;
    }

    ghost function State(): RoomState
      reads this
    {
      RoomState(room, members, nicknames, messages, idempotency, audits)
    }

    // checkActorLocked
    method CheckActor(agent: Str, expectedVersion: int, action: Action) returns (error: Option<Error>)
      ensures error == BoardSpec.CheckActor(State(), agent, expectedVersion, action)
      ensures error.None? ==> agent in members && RoleCan(members[agent].role, action)
      ensures error == Some(Conflict) <==>
              agent in members && expectedVersion != 0 && members[agent].version != expectedVersion
    {
      if agent !in members { return Some(Denied); }
      if expectedVersion != 0 && members[agent].version != expectedVersion { return Some(Conflict); }
      if !RoleCan(members[agent].role, action) { return Some(Denied); }
      return None;
    }

    // The scan for the message an idempotency record names.
    method Find(messageID: Str) returns (found: Option<Message>)
      ensures found == FindMessage(messages, messageID)
    {
      for i := 0 to |messages|
        invariant FindMessage(messages, messageID) == FindMessage(messages[i..], messageID)
      {
        if messages[i].messageID == messageID { return Some(messages[i]); }
      }
      return None;
    }

    method Grant(limits: Limits, agent: Str, input: GrantInput, now: Time) returns (outcome: Outcome<Reply>)
      modifies this
      ensures (State(), outcome) == GrantIn(limits, old(State()), agent, input, now)
    {
      var target := input.targetAgent;
      if room.archived || room.version != input.expectedRoomVersion { return Err(Conflict); }
      if target == agent { return Err(Denied); }
      if target == room.owner { return Err(Denied); }
      var denied := CheckActor(agent, input.actorMemberVersion, UpdateAllowList);
      if denied.Some? { return Err(denied.value); }
      var exists_ := target in members;
      if !exists_ && room.memberCount >= limits.maxMembers { return Err(Error.Validation); }
      if exists_ && members[target].role == input.role { return Ok(GrantReply(members[target], false)); }
      var member := Membership(
        room.roomID, room.roomKey, target, [], [], input.role, Capabilities(input.role), [], agent, 0, now, 0);
      if exists_ {
        var existing := members[target];
        if existing.role == Owner { return Err(Denied); }
        member := member.(
        nickname := existing.nickname, nicknameKey := existing.nicknameKey,
        createdBy := existing.createdBy, createdAt := existing.createdAt, version := existing.version + 1);
      } else {
        member := member.(createdBy := agent, createdAt := now, version := 1);
        room := room.(memberCount := room.memberCount + 1);
      }
      members := members[target := member];
      room := room.(version := room.version + 1);
      room := room.(updatedAt := now);
      audits := audits + [Audit(AllowlistGranted, agent, target, input.role, input.tokenJTIHash, now)];
      return Ok(GrantReply(member, !exists_));
    }

    method Revoke(agent: Str, input: RevokeInput, now: Time) returns (outcome: Outcome<Reply>)
      modifies this
      ensures (State(), outcome) == RevokeIn(old(State()), agent, input, now)
    {
      var target := input.targetAgent;
      if room.archived || room.version != input.expectedRoomVersion { return Err(Conflict); }
      if target == agent { return Err(Denied); }
      if target == room.owner { return Err(Denied); }
      var denied := CheckActor(agent, input.actorMemberVersion, UpdateAllowList);
      if denied.Some? { return Err(denied.value); }
      if target !in members { return Err(NotFound); }
      var member := members[target];
      if member.role == Owner { return Err(Denied); }
      if member.nicknameKey != [] { nicknames := nicknames - {member.nicknameKey}; }
      members := members - {target};
      room := room.(memberCount := room.memberCount - 1);
      room := room.(version := room.version + 1);
      room := room.(updatedAt := now);
      audits := audits + [Audit(AllowlistRevoked, agent, target, NO_ROLE, input.tokenJTIHash, now)];
      return Ok(RevokeReply);
    }

    method SetNickname(agent: Str, input: SetNicknameInput, now: Time) returns (outcome: Outcome<Reply>)
      modifies this
      ensures (State(), outcome) == SetNicknameIn(old(State()), agent, input, now)
    {
      if room.archived { return Err(Denied); }
      if agent !in members { return Err(Denied); }
      var member := members[agent];
      if input.actorMemberVersion != 0 && member.version != input.actorMemberVersion { return Err(Conflict); }
      if !RoleCan(member.role, UpdateNickname) { return Err(Denied); }
      if input.nicknameKey in nicknames && nicknames[input.nicknameKey] != agent { return Err(Conflict); }
      if member.nickname == input.nickname && member.nicknameKey == input.nicknameKey {
        return Ok(NicknameReply(member));
      }
      if member.nicknameKey != [] && member.nicknameKey != input.nicknameKey {
        nicknames := nicknames - {member.nicknameKey};
      }
      nicknames := nicknames[input.nicknameKey := agent];
      member := member.(nickname := input.nickname);
      member := member.(nicknameKey := input.nicknameKey);
      member := member.(updatedBy := agent, updatedAt := now);
      member := member.(version := member.version + 1);
      members := members[agent := member];
      return Ok(NicknameReply(member));
    }

    method Post(agent: Str, input: PostInput, now: Time, messageID: Str) returns (outcome: Outcome<Reply>)
      requires SortedByID(messages) && !HasMessage(messages, messageID)
      modifies this
      ensures (State(), outcome) == PostIn(old(State()), agent, input, now, messageID)
    {
      if room.archived { return Err(Denied); }
      var denied := CheckActor(agent, input.actorMemberVersion, Action.PostMessage);
      if denied.Some? { return Err(denied.value); }
      var key := agent + [HASH] + input.idempotencyKey;
      if key in idempotency {
        if idempotency[key].requestHash != input.requestHash { return Err(IdempotencyConflict); }
        var found := Find(idempotency[key].messageID);
        match found {
          case Some(message) => return Ok(PostReply(message, true));
          case None => return Err(Conflict);
        }
      }
      var message := Message(
        room.roomID, room.roomKey, messageID, agent, input.authorNickname, input.body, now,
        input.idempotencyKey, input.requestHash);
      messages := messages + [message];
      messages := SortByID(messages);
      SortIsInsert(old(messages), message);
      idempotency := idempotency[key := Idempotency(input.requestHash, message.messageID)];
      return Ok(PostReply(message, false));
    }
  }

  // sort.Slice by message ID: with distinct IDs its result is the one sorted permutation (SortUnique).
  function SortByID(messages: seq<Message>): seq<Message> {
    if messages == [] then [] else InsertByID(SortByID(messages[..|messages| - 1]), messages[|messages| - 1])
  }

  lemma {:induction false} SortOfSorted(messages: seq<Message>)
    requires SortedByID(messages)
    ensures SortByID(messages) == messages
  {
    if messages != [] {
      var init, last := messages[..|messages| - 1], messages[|messages| - 1];
      SortOfSorted(init);
      InsertLast(init, last);
      assert messages == init + [last];
    }
  }

  lemma {:induction false} InsertLast(messages: seq<Message>, message: Message)
    requires forall i :: 0 <= i < |messages| ==> Less(messages[i].messageID, message.messageID)
    ensures InsertByID(messages, message) == messages + [message]
  {
    if messages != [] {
      LessAsymmetric(messages[0].messageID, message.messageID);
      InsertLast(messages[1..], message);
      assert messages == [messages[0]] + messages[1..];
    }
  }

  lemma SortIsInsert(messages: seq<Message>, message: Message)
    requires SortedByID(messages)
    ensures SortByID(messages + [message]) == InsertByID(messages, message)
  {
    SortOfSorted(messages);
    assert (messages + [message])[..|messages|] == messages;
  }

  lemma SortedHeads(a: seq<Message>, b: seq<Message>)
    requires SortedByID(a) && SortedByID(b) && multiset(a) == multiset(b) && a != [] && b != []
    ensures a[0] == b[0]
  {
    assert a[0] in multiset(b) && b[0] in multiset(a);
    var j :| 0 <= j < |b| && b[j] == a[0];
    var i :| 0 <= i < |a| && a[i] == b[0];
    if i > 0 && j > 0 { LessAsymmetric(a[0].messageID, a[i].messageID); }
  }

  // Any two sorted arrangements of the same messages are the same list.
  lemma {:induction false} SortUnique(a: seq<Message>, b: seq<Message>)
    requires SortedByID(a) && SortedByID(b) && multiset(a) == multiset(b)
    ensures a == b
  {
    assert |a| == |multiset(a)| == |multiset(b)| == |b|;
    if a != [] {
      SortedHeads(a, b);
      assert a == [a[0]] + a[1..] && b == [b[0]] + b[1..];
      assert multiset(a[1..]) == multiset(a) - multiset{a[0]};
      assert multiset(b[1..]) == multiset(b) - multiset{b[0]};
      SortUnique(a[1..], b[1..]);
    }
  }

  lemma BoardSorted(limits: Limits, board: BoardState)
    requires BoardOk(limits, board)
    ensures forall key :: key in board.rooms ==> SortedByID(board.rooms[key].messages)
  {
    assert forall key :: key in board.rooms ==> RoomOk(limits, key, board.rooms[key]);
  }

  // What ReadMessages answers on a board.
  function MessagesPage(
    other: Paging.Spellings, board: BoardState, roomID: Outcome<Str>, limit: int, cursor: Str, after: Str)
    : Outcome<Paging.Page<Message>>
  {
    if Paging.DecodeOffset(other, cursor).Err? || roomID.Err? then Err(Error.Validation)
    else
      match BoardSpec.RecordByRoomID(board, roomID.value)
      case Err(error) => Err(error)
      case Ok(key) =>
        Paging.ReadPage(
          other, board.rooms[key].messages, BoundLimit(limit, DEFAULT_MESSAGES_LIMIT), cursor, after)
  }

  // A bad cursor or room ID is invalid, an unknown room is not found, and otherwise the page is one of at most 100
  // messages of the room, 50 if nothing else is asked for.
  lemma MessagesPageMeans(
    other: Paging.Spellings, board: BoardState, roomID: Outcome<Str>, limit: int, cursor: Str, after: Str)
    requires KeysOk(board) && (roomID.Err? ==> roomID.error == Error.Validation)
    ensures var page := MessagesPage(other, board, roomID, limit, cursor, after);
            var invalid := roomID.Err? || Paging.DecodeOffset(other, cursor).Err?;
            && (page == Err(Error.Validation) <==> invalid)
            && (page == Err(NotFound) <==> !invalid && roomID.value !in board.roomKeys)
            && (!invalid && roomID.value in board.roomKeys ==>
                  && Base64Url.Encode(roomID.value) in board.rooms
                  && page == Paging.ReadPage(
                               other, board.rooms[Base64Url.Encode(roomID.value)].messages,
                               if limit <= 0 then 50 else if limit > 100 then 100 else limit, cursor, after))
  {
    hide Base64Url.Encode, Paging.DecodeOffset;
    PageErrors(other, cursor);
    PageLimits(limit);
    hide Paging.ReadPage;
  }

  lemma PageErrors(other: Paging.Spellings, cursor: Str)
    ensures forall messages, limit: nat, after :: Paging.DecodeOffset(other, cursor).Ok? ==>
              Paging.ReadPage(other, messages, limit, cursor, after).Ok?
  {
  }

  class MemoryStore {
    var rooms: map<Str, RoomRecord>
    var roomKeys: map<Str, Str>
    var quotas: map<Str, int>
    const limits: Limits

    constructor ()
      ensures Valid() && fresh(this)
      ensures Board() == EMPTY_BOARD && limits == Limits(50, 100)
    {
      rooms := map[];
      roomKeys := map[];
      quotas := map[];
      limits := Limits(50, 100);
      new;
      assert forall agent :: OwnedRooms(Board(), agent) == {};
    }

    ghost function States(): map<Str, RoomState>
      reads this, rooms.Values
    {
      map key | key in rooms :: rooms[key].State()
    }

    // No record is filed under two keys.
    ghost predicate Separate()
      reads this
    {
      forall a, b :: a in rooms && b in rooms && rooms[a] == rooms[b] ==> a == b
    }

    ghost function Board(): BoardState
      reads this, rooms.Values
    {
      BoardState(States(), roomKeys, quotas)
    }

    ghost predicate Valid()
      reads this, rooms.Values
    {
      Separate() && BoardOk(limits, Board())
    }

    method RecordByRoomID(roomID: Str) returns (found: Outcome<RoomRecord>)
      ensures match BoardSpec.RecordByRoomID(Board(), roomID)
              case Ok(key) => key in rooms && found == Ok(rooms[key])
              case Err(error) => found == Err(error)
    {
      if roomID !in roomKeys { return Err(NotFound); }
      if roomKeys[roomID] !in rooms { return Err(NotFound); }
      return Ok(rooms[roomKeys[roomID]]);
    }

    method NewRecord(agent: Str, input: CreateRoomInput, roomKey: Str, now: Time) returns (record: RoomRecord)
      requires roomKey == Base64Url.Encode(input.roomID)
      ensures fresh(record) && record.State() == NewRoom(agent, input, now)
    {
      var name := if input.name == [] then input.roomID else input.name;
      var room := Room(input.roomID, roomKey, name, input.description, agent, now, now, 1, false, 1);
      var owner := Membership(
        input.roomID, roomKey, agent, [], [], Owner, Capabilities(Owner), agent, agent, now, now, 1);
      record := new RoomRecord(
        room, map[agent := owner], [Audit(RoomCreated, agent, agent, Owner, input.tokenJTIHash, now)]);
    }

    method File(roomKey: Str, record: RoomRecord)
      requires Separate() && record !in rooms.Values
      modifies this`rooms
      ensures Separate() && rooms == old(rooms)[roomKey := record]
      ensures States() == old(States())[roomKey := record.State()]
    {
      rooms := rooms[roomKey := record];
    }

    // The part of each operation that runs under the mutex, on validated input.

    method CreateLocked(agent: Str, input: CreateRoomInput, now: Time) returns (outcome: Outcome<Reply>)
      requires Separate()
      modifies this
      ensures Separate() && fresh(rooms.Values - old(rooms.Values))
      ensures (Board(), outcome) == CreateRoomOp(limits, old(Board()), agent, input, now)
    {
      hide Base64Url.Encode, NewRoom;
      ghost var before := Board();
      var roomKey := Base64Url.Encode(input.roomID);
      if input.roomID in roomKeys { return Err(Conflict); }
      var quota := if agent in quotas then quotas[agent] else 0;
      if quota >= limits.maxRooms { return Err(Error.Validation); }
      roomKeys := roomKeys[input.roomID := roomKey];
      quotas := quotas[agent := quota + 1];
      var record := NewRecord(agent, input, roomKey, now);
      assert States() == before.rooms;
      File(roomKey, record);
      NewRoomKey(agent, input, now);
      return Ok(RoomReply(record.room));
    }

    method GrantLocked(agent: Str, input: GrantInput, now: Time) returns (outcome: Outcome<Reply>)
      requires Separate() && MutableRole(input.role)
      modifies rooms.Values
      ensures (Board(), outcome) == Apply(limits, old(Board()), agent, OpGrant(input), now, [])
    {
      hide GrantIn;
      ghost var before := Board();
      var record := RecordByRoomID(input.roomID);
      if record.Err? { return Err(record.error); }
      outcome := record.value.Grant(limits, agent, input, now);
      assert States() == before.rooms[roomKeys[input.roomID] := record.value.State()];
    }

    method RevokeLocked(agent: Str, input: RevokeInput, now: Time) returns (outcome: Outcome<Reply>)
      requires Separate()
      modifies rooms.Values
      ensures (Board(), outcome) == Apply(limits, old(Board()), agent, OpRevoke(input), now, [])
    {
      hide RevokeIn;
      ghost var before := Board();
      var record := RecordByRoomID(input.roomID);
      if record.Err? { return Err(record.error); }
      outcome := record.value.Revoke(agent, input, now);
      assert States() == before.rooms[roomKeys[input.roomID] := record.value.State()];
    }

    method NicknameLocked(agent: Str, input: SetNicknameInput, now: Time) returns (outcome: Outcome<Reply>)
      requires Separate()
      modifies rooms.Values
      ensures (Board(), outcome) == Apply(limits, old(Board()), agent, OpNickname(input), now, [])
    {
      hide SetNicknameIn;
      ghost var before := Board();
      var record := RecordByRoomID(input.roomID);
      if record.Err? { return Err(record.error); }
      outcome := record.value.SetNickname(agent, input, now);
      assert States() == before.rooms[roomKeys[input.roomID] := record.value.State()];
    }

    method PostLocked(agent: Str, input: PostInput, now: Time, messageID: Str) returns (outcome: Outcome<Reply>)
      requires Separate() && FreshMessageID(Board(), OpPost(input), messageID) && input.idempotencyKey != []
      requires forall key :: key in rooms ==> SortedByID(rooms[key].messages)
      modifies rooms.Values
      ensures (Board(), outcome) == Apply(limits, old(Board()), agent, OpPost(input), now, messageID)
    {
      hide PostIn, HasMessage, SortedByID;
      ghost var before := Board();
      var record := RecordByRoomID(input.roomID);
      if record.Err? { return Err(record.error); }
      outcome := record.value.Post(agent, input, now, messageID);
      assert States() == before.rooms[roomKeys[input.roomID] := record.value.State()];
    }

    // The store's operations: validation, then one atomic step of the specification.

    method CreateRoom(text: Validation.Text, agent: Str, input: CreateRoomInput, now: Time)
      returns (outcome: Outcome<Reply>)
      requires Valid()
      modifies this
      ensures Valid() && fresh(rooms.Values - old(rooms.Values))
      ensures match Validation.NormalizedRoomID(text, input.roomID)
              case Ok(roomID) =>
                (Board(), outcome) == Apply(
                                        limits, old(Board()), agent, OpCreate(input.(roomID := roomID)), now, [])
              case Err(error) => Board() == old(Board()) && outcome == Err(error)
      ensures outcome.Ok? ==>
                && outcome.value.RoomReply?
                && BoardEffects.RoomSays(
                     outcome.value.room, agent, input.roomID, input.name, input.description, now)
                && Base64Url.Encode(input.roomID) in rooms
                && rooms[Base64Url.Encode(input.roomID)].room == outcome.value.room
    {
      hide BoardOk, CreateRoomOp;
      var roomID := Validation.NormalizeRoomID(text, input.roomID);
      if roomID.Err? { return Err(roomID.error); }
      var valid := input.(roomID := roomID.value);
      ApplyKeepsBoard(limits, Board(), agent, OpCreate(valid), now, []);
      BoardEffects.CreateMeans(limits, Board(), agent, valid, now);
      outcome := CreateLocked(agent, valid, now);
      assert Board().rooms.Keys == rooms.Keys;
    }

    method GrantAllowlist(text: Validation.Text, agent: Str, input: GrantInput, now: Time)
      returns (outcome: Outcome<Reply>)
      requires Valid()
      modifies rooms.Values
      ensures Valid()
      ensures var roomID := Validation.NormalizedRoomID(text, input.roomID);
              var target := Validation.CanonicalDNSNameOf(text, input.targetAgent);
              if roomID.Ok? && target.Ok? then
                (Board(), outcome) ==
                Apply(limits, old(Board()), agent,
                      OpGrant(input.(roomID := roomID.value, targetAgent := target.value)), now, [])
              else Board() == old(Board()) && outcome == Err(Error.Validation)
    {
      hide BoardOk, ApplyInRoom;
      var roomID := Validation.NormalizeRoomID(text, input.roomID);
      if roomID.Err? { return Err(roomID.error); }
      var target := Validation.CanonicalDNSName(text, input.targetAgent);
      if target.Err? { return Err(Error.Validation); }
      if CapabilitiesForRole(input.role).None? || input.role == Owner { return Err(Error.Validation); }
      var valid := input.(roomID := roomID.value, targetAgent := target.value);
      ApplyKeepsBoard(limits, Board(), agent, OpGrant(valid), now, []);
      outcome := GrantLocked(agent, valid, now);
    }

    method RevokeAllowlist(text: Validation.Text, agent: Str, input: RevokeInput, now: Time)
      returns (outcome: Outcome<Reply>)
      requires Valid()
      modifies rooms.Values
      ensures Valid()
      ensures var roomID := Validation.NormalizedRoomID(text, input.roomID);
              var target := Validation.CanonicalDNSNameOf(text, input.targetAgent);
              if roomID.Ok? && target.Ok? then
                (Board(), outcome) ==
                Apply(limits, old(Board()), agent,
                      OpRevoke(input.(roomID := roomID.value, targetAgent := target.value)), now, [])
              else Board() == old(Board()) && outcome == Err(Error.Validation)
    {
      hide BoardOk, ApplyInRoom;
      var roomID := Validation.NormalizeRoomID(text, input.roomID);
      if roomID.Err? { return Err(roomID.error); }
      var target := Validation.CanonicalDNSName(text, input.targetAgent);
      if target.Err? { return Err(Error.Validation); }
      var valid := input.(roomID := roomID.value, targetAgent := target.value);
      ApplyKeepsBoard(limits, Board(), agent, OpRevoke(valid), now, []);
      outcome := RevokeLocked(agent, valid, now);
    }

    method SetNickname(text: Validation.Text, agent: Str, input: SetNicknameInput, now: Time)
      returns (outcome: Outcome<Reply>)
      requires Valid() && Validation.TrimsOnlySpace(text)
      modifies rooms.Values
      ensures Valid()
      ensures var roomID := Validation.NormalizedRoomID(text, input.roomID);
              if roomID.Ok? && Validation.NicknameOk(input.nickname) then
                (Board(), outcome) ==
                Apply(limits, old(Board()), agent,
                      OpNickname(input.(roomID := roomID.value, nicknameKey := Lower(input.nickname))), now, [])
              else Board() == old(Board()) && outcome == Err(Error.Validation)
    {
      hide BoardOk, ApplyInRoom;
      var roomID := Validation.NormalizeRoomID(text, input.roomID);
      if roomID.Err? { return Err(roomID.error); }
      var nickname := Validation.Nickname(text, input.nickname);
      if nickname.Err? { return Err(Error.Validation); }
      var valid := input.(roomID := roomID.value, nicknameKey := nickname.value.1);
      ApplyKeepsBoard(limits, Board(), agent, OpNickname(valid), now, []);
      outcome := NicknameLocked(agent, valid, now);
    }

    method PostMessage(text: Validation.Text, agent: Str, input: PostInput, now: Time, messageID: Str)
      returns (outcome: Outcome<Reply>)
      requires Valid() && FreshMessageID(Board(), OpPost(input), messageID)
      modifies rooms.Values
      ensures Valid()
      ensures match Validation.NormalizedRoomID(text, input.roomID)
              case Ok(roomID) =>
                (Board(), outcome) == Apply(
                                        limits, old(Board()), agent, OpPost(input.(roomID := roomID)), now, messageID)
              case Err(error) => Board() == old(Board()) && outcome == Err(error)
    {
      hide BoardOk, ApplyInRoom, HasMessage;
      var roomID := Validation.NormalizeRoomID(text, input.roomID);
      if roomID.Err? { return Err(roomID.error); }
      if input.idempotencyKey == [] { return Err(Error.Validation); }
      var valid := input.(roomID := roomID.value);
      ApplyKeepsBoard(limits, Board(), agent, OpPost(valid), now, messageID);
      BoardSorted(limits, Board());
      assert forall key :: key in rooms ==> Board().rooms[key].messages == rooms[key].messages;
      outcome := PostLocked(agent, valid, now, messageID);
    }

    method GetRoomForAgent(text: Validation.Text, roomID: Str, agent: Str) returns (outcome: Outcome<AuthSnapshot>)
      requires Valid()
      ensures match Validation.NormalizedRoomID(text, roomID)
              case Ok(id) => outcome == Snapshot(Board(), id, agent)
              case Err(error) => outcome == Err(error)
    {
      var id := Validation.NormalizeRoomID(text, roomID);
      if id.Err? { return Err(id.error); }
      var record := RecordByRoomID(id.value);
      if record.Err? { return Err(record.error); }
      var snapshot := AuthSnapshot(record.value.room, None);
      if agent in record.value.members {
        snapshot := snapshot.(membership := Some(record.value.members[agent]));
      }
      return Ok(snapshot);
    }

    lemma RecordSorted(key: Str)
      requires Valid() && key in rooms
      ensures SortedByID(rooms[key].messages)
    {
      hide BoardOk;
      BoardSorted(limits, Board());
      assert Board().rooms[key].messages == rooms[key].messages;
    }

    method ReadMessages(
      text: Validation.Text, other: Paging.Spellings, roomID: Str, limit: int, cursor: Str, after: Str)
      returns (outcome: Outcome<Paging.Page<Message>>)
      requires Valid()
      ensures outcome == MessagesPage(
                           other, Board(), Validation.NormalizedRoomID(text, roomID), limit, cursor, after)
    {
      hide BoardOk, Paging.FirstAfter, Paging.EncodeOffset, Paging.CanonicalOffset;
      var bound := BoundLimit(limit, DEFAULT_MESSAGES_LIMIT);
      var offset := Paging.DecodeOffset(other, cursor);
      if offset.Err? { return Err(Error.Validation); }
      var id := Validation.NormalizeRoomID(text, roomID);
      if id.Err? { return Err(Error.Validation); }
      var record := RecordByRoomID(id.value);
      if record.Err? { return Err(record.error); }
      var messages := record.value.messages;
      if after != [] {
        var start := offset.value;
        if cursor == [] {
          RecordSorted(roomKeys[id.value]);
          start := Paging.Search(messages, after);
        }
        return Ok(Paging.PageSlice(messages, start, bound));
      }
      var end := offset.value;
      if cursor == [] || end > |messages| { end := |messages|; }
      var start := end - bound;
      if start < 0 { start := 0; }
      var page := Paging.Page(messages[start..end], []);
      if start > 0 { page := page.(next := Paging.EncodeOffset(start)); }
      return Ok(page);
    }
  }
}
