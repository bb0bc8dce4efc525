/** Runs of the specification: what every board an atomic store can reach promises. */
module BoardRuns {
  import opened Bytes
  import opened Board
  import opened BoardSpec
  import opened BoardInvariant
  import Base64Url
  import MemoryStore
  import opened BoardEffects

  // One store call, with the clock and the fresh message ID it was given.
  datatype Event = Event(agent: Str, op: Operation, now: Time, messageID: Str)

  function ApplyHistory(limits: Limits, events: seq<Event>): BoardState {
    if events == [] then EMPTY_BOARD
    else
      var last := events[|events| - 1];
      Apply(limits, ApplyHistory(limits, events[..|events| - 1]), last.agent, last.op, last.now, last.messageID).0
  }

  predicate Wellformed(limits: Limits, events: seq<Event>) {
    events != [] ==>
      var earlier, last := events[..|events| - 1], events[|events| - 1];
      && Wellformed(limits, earlier)
      && NicknameInputOk(last.op)
      && FreshMessageID(ApplyHistory(limits, earlier), last.op, last.messageID)
  }

  lemma EmptyBoardOk(limits: Limits)
    ensures BoardOk(limits, EMPTY_BOARD)
  {
    assert forall agent :: OwnedRooms(EMPTY_BOARD, agent) == {};
  }

  // Every board reached by any calls of any agents, successful or not, keeps the whole invariant.
  lemma {:induction false} ReachableBoard(limits: Limits, events: seq<Event>)
    requires Wellformed(limits, events)
    ensures BoardOk(limits, ApplyHistory(limits, events))
  {
    hide BoardOk, Apply, FreshMessageID, NicknameInputOk;
    if events == [] {
      EmptyBoardOk(limits);
    } else {
      var earlier, last := events[..|events| - 1], events[|events| - 1];
      ReachableBoard(limits, earlier);
      ApplyKeepsBoard(limits, ApplyHistory(limits, earlier), last.agent, last.op, last.now, last.messageID);
    }
  }

  // The audit log of a room rebuilds its allow-list and justifies itself: the version counts the entries, folding
  // them gives each member's role, and every later entry was made by an owner or admin of the list so far, about
  // somebody other than the actor and the owner.
  lemma AuditLogRebuilds(limits: Limits, events: seq<Event>, roomKey: Str, agent: Str, i: nat)
    requires Wellformed(limits, events) && roomKey in ApplyHistory(limits, events).rooms
    ensures var state := ApplyHistory(limits, events).rooms[roomKey];
            && state.room.version == |state.audits| >= 1
            && state.audits[0].event == RoomCreated && state.audits[0].target == state.room.owner
            && (agent in state.members <==> agent in Fold(state.audits))
            && (agent in state.members ==> state.members[agent].role == Fold(state.audits)[agent])
            && (1 <= i < |state.audits| ==>
                  var entry, before := state.audits[i], Fold(state.audits[..i]);
                  && entry.actor in before && (before[entry.actor] == Owner || before[entry.actor] == Admin)
                  && entry.target != entry.actor && entry.target != state.room.owner
                  && (entry.event == AllowlistRevoked ==> entry.target in before))
  {
    ReachableBoard(limits, events);
    hide ApplyHistory, MessagesOk, NicknamesOk, MembersOk, Fold, Base64Url.Encode;
    var state := ApplyHistory(limits, events).rooms[roomKey];
    assert RoomOk(limits, roomKey, state);
    assert Fold(state.audits) == RolesOf(state.members);
    if 1 <= i < |state.audits| {
      assert JustifiedEntry(Fold(state.audits[..i]), state.room.owner, state.audits[i]);
    }
  }

  lemma KeyIsUnused(limits: Limits, board: BoardState, roomID: Str)
    requires BoardOk(limits, board) && roomID !in board.roomKeys
    ensures Base64Url.Encode(roomID) !in board.rooms
  {
    hide RoomOk, QuotaOk, Base64Url.Encode;
    if Base64Url.Encode(roomID) in board.rooms {
      var other := board.rooms[Base64Url.Encode(roomID)].room.roomID;
      assert board.roomKeys[other] == Base64Url.Encode(roomID) == Base64Url.Encode(other);
      Base64Url.EncodeInjective(other, roomID);
    }
  }

  // CreateRoom checks the room ID alone, and yet never overwrites another room's record.
  lemma CreateOverwritesNothing(limits: Limits, board: BoardState, agent: Str, input: CreateRoomInput, now: Time)
    requires BoardOk(limits, board)
    ensures var (board', outcome) := CreateRoomOp(limits, board, agent, input, now);
            && (forall roomKey :: roomKey in board.rooms ==>
                  roomKey in board'.rooms && board'.rooms[roomKey] == board.rooms[roomKey])
            && (outcome.Ok? ==> |board'.rooms| == |board.rooms| + 1)
  {
    hide BoardOk, Base64Url.Encode, NewRoom;
    var (board', outcome) := CreateRoomOp(limits, board, agent, input, now);
    if outcome.Ok? {
      var roomKey, state := Base64Url.Encode(input.roomID), NewRoom(agent, input, now);
      NewRoomKey(agent, input, now);
      KeyIsUnused(limits, board, input.roomID);
      assert board'.rooms.Keys == board.rooms.Keys + {roomKey};
    }
  }

  // Once created, a room keeps its name, description, owner and creation time, whoever does whatever.
  lemma RoomTextStays(
    limits: Limits, board: BoardState, agent: Str, op: Operation, now: Time, messageID: Str, roomKey: Str)
    requires BoardOk(limits, board) && roomKey in board.rooms
    ensures var board' := Apply(limits, board, agent, op, now, messageID).0;
            roomKey in board'.rooms && SameText(board.rooms[roomKey].room, board'.rooms[roomKey].room)
  {
    hide BoardOk, ApplyInRoom, NewRoom;
    if op.OpCreate? {
      CreateOverwritesNothing(limits, board, agent, op.create, now);
    } else if RecordByRoomID(board, RoomIDOf(op)).Ok? {
      var key := RecordByRoomID(board, RoomIDOf(op)).value;
      InRoomKeepsText(limits, board.rooms[key], agent, op, now, messageID);
    }
  }

  // The conflict PostMessage reports for a record without a message is unreachable.
  lemma RecordAlwaysHasMessage(
    limits: Limits, roomKey: Str, state: RoomState, agent: Str, input: PostInput, now: Time, messageID: Str)
    requires RoomOk(limits, roomKey, state)
    requires !state.room.archived
    requires CheckActor(state, agent, input.actorMemberVersion, Action.PostMessage).None?
    ensures PostIn(state, agent, input, now, messageID).1 != Err(Conflict)
  {
    hide AuditsOk, NicknamesOk, MembersOk, CheckActor, IdempotencyKeyOf;
    var key := IdempotencyKeyOf(agent, input.idempotencyKey);
    if key in state.idempotency {
      var id := state.idempotency[key].messageID;
      assert RecordHasMessage(state.messages, state.idempotency[key]);
      HasMeansFound(state.messages, id);
    }
  }

  lemma {:induction false} HasMeansFound(messages: seq<Message>, id: Str)
    requires HasMessage(messages, id)
    ensures FindMessage(messages, id).Some?
  {
    if messages[0].messageID != id {
      HasMessageSplit(messages, id);
      HasMeansFound(messages[1..], id);
    }
  }

  // A post whose ID is larger than all before it extends the list at its end.
  lemma LaterPostAppends(state: RoomState, agent: Str, input: PostInput, now: Time, messageID: Str)
    requires forall m :: m in state.messages ==> Less(m.messageID, messageID)
    ensures state.messages <= PostIn(state, agent, input, now, messageID).0.messages
  {
    MemoryStore.InsertLast(state.messages, NewMessage(state, agent, input, now, messageID));
  }
}
