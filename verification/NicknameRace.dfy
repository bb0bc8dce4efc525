/**
 A nickname change whose actor was revoked and granted again in between. Member versions restart at 1, so the
 version in the transaction's condition can match a membership other than the one the client read.
 */
module NicknameRace {
  import opened Bytes
  import opened Board
  import opened BoardSpec
  import opened BoardInvariant
  import opened DynamoTable
  import opened DynamoStore
  import opened Refinement
  import Base64Url

  // The nickname index the two nickname writes leave behind.
  function IndexAfter(nicknames: map<Str, Str>, agent: Str, previous: Str, key: Str): map<Str, Str> {
    var kept := if previous != [] && previous != key then nicknames - {previous} else nicknames;
    if previous != key then kept[key := agent] else kept
  }

  function MembersAfter(
    members: map<Str, Membership>, agent: Str, input: SetNicknameInput, now: Time): map<Str, Membership>
    requires agent in members
  {
    members[agent := RenamedMember(members[agent], agent, input, now)]
  }

  // The transaction clears the key the client read. It keeps the index exact just when that is the member's key
  // now, or the client read none and the member's key is already the new one.
  predicate ClearsCurrentKey(current: Str, previous: Str, key: Str) {
    current == previous || (previous == [] && current == key)
  }

  lemma IndexExactly(
    members: map<Str, Membership>, nicknames: map<Str, Str>, agent: Str, input: SetNicknameInput, previous: Str,
    now: Time)
    requires NicknamesOk(members, nicknames) && agent in members && input.nicknameKey != []
    requires previous != [] && previous != input.nicknameKey ==>
               previous in nicknames && nicknames[previous] == agent
    requires previous != input.nicknameKey && input.nicknameKey in nicknames ==>
               nicknames[input.nicknameKey] == agent
    ensures NicknamesOk(
              MembersAfter(members, agent, input, now), IndexAfter(nicknames, agent, previous, input.nicknameKey))
            <==> ClearsCurrentKey(members[agent].nicknameKey, previous, input.nicknameKey)
  {
    var members' := MembersAfter(members, agent, input, now);
    var nicknames' := IndexAfter(nicknames, agent, previous, input.nicknameKey);
    var current := members[agent].nicknameKey;
    if ClearsCurrentKey(current, previous, input.nicknameKey) {
      assert NicknamesOk(members', nicknames');
    } else if previous == input.nicknameKey {
      // No nickname item is written, so the new key has no item of this agent.
      assert members'[agent].nicknameKey == previous;
      assert previous in nicknames ==> nicknames[previous] != agent;
    } else {
      // The item of the key the member has now is left behind.
      assert current in nicknames' && nicknames'[current] == agent;
    }
  }

  // The room a committed nickname transaction leaves behind, when it cleared the key `previous`.
  function RoomRenamed(state: RoomState, agent: Str, input: SetNicknameInput, previous: Str, now: Time): RoomState
    requires agent in state.members
  {
    state.(
    members := MembersAfter(state.members, agent, input, now),
    nicknames := IndexAfter(state.nicknames, agent, previous, input.nicknameKey))
  }

  // What a committed nickname transaction leaves in the table, for any earlier read `found` of the member.
  lemma NicknameCommitExactly(
    table: Table, roomKey: Str, state: RoomState, ids: seq<Str>, agent: Str, input: SetNicknameInput,
    found: Membership, now: Time)
    requires RoomMatches(table, roomKey, state, ids) && NicknamesOk(state.members, state.nicknames)
    requires input.nicknameKey != []
    requires Passes(table, NicknameWrites(roomKey, agent, input, found, now))
    ensures agent in state.members
    ensures var table' := WriteAll(table, NicknameWrites(roomKey, agent, input, found, now));
            var members' := MembersAfter(state.members, agent, input, now);
            var nicknames' := IndexAfter(state.nicknames, agent, found.nicknameKey, input.nicknameKey);
            && MembersMatch(table', roomKey, members') && NicknamesMatch(table', roomKey, nicknames')
            && (NicknamesOk(members', nicknames')
                <==> ClearsCurrentKey(state.members[agent].nicknameKey, found.nicknameKey, input.nicknameKey))
  {
    hide NicknamesOk, ClearsCurrentKey;
    NicknamePasses(table, roomKey, state, ids, agent, input, found, now);
    IndexExactly(state.members, state.nicknames, agent, input, found.nicknameKey, now);
    NicknameTable(table, roomKey, state, ids, agent, input, found, now);
  }

  lemma NicknamePasses(
    table: Table, roomKey: Str, state: RoomState, ids: seq<Str>, agent: Str, input: SetNicknameInput,
    found: Membership, now: Time)
    requires RoomMatches(table, roomKey, state, ids)
    requires Passes(table, NicknameWrites(roomKey, agent, input, found, now))
    ensures agent in state.members
    ensures found.nicknameKey != [] && found.nicknameKey != input.nicknameKey ==>
              found.nicknameKey in state.nicknames && state.nicknames[found.nicknameKey] == agent
    ensures found.nicknameKey != input.nicknameKey && input.nicknameKey in state.nicknames ==>
              state.nicknames[input.nicknameKey] == agent
  {
    hide MessagesMatch, IdempotencyMatches, AuditsMatch;
    var writes := NicknameWrites(roomKey, agent, input, found, now);
    assert Holds(writes[1].condition, Get(table, writes[1].key));
    assert Get(table, InRoom(roomKey, Member(agent))) == MemberEntry(state.members, agent);
    if found.nicknameKey != input.nicknameKey {
      var last := |writes| - 1;
      assert Holds(writes[last].condition, Get(table, writes[last].key));
      assert writes[last].key == InRoom(roomKey, Nick(input.nicknameKey));
      assert Get(table, InRoom(roomKey, Nick(input.nicknameKey))) == NickEntry(state.nicknames, input.nicknameKey);
      if found.nicknameKey != [] {
        assert writes[2] == DeleteNickname(roomKey, found.nicknameKey, agent);
        assert Holds(writes[2].condition, Get(table, writes[2].key));
        assert Get(table, InRoom(roomKey, Nick(found.nicknameKey))) == NickEntry(state.nicknames, found.nicknameKey);
      }
    }
  }

  lemma NicknameTable(
    table: Table, roomKey: Str, state: RoomState, ids: seq<Str>, agent: Str, input: SetNicknameInput,
    found: Membership, now: Time)
    requires RoomMatches(table, roomKey, state, ids) && agent in state.members && input.nicknameKey != []
    ensures var table' := WriteAll(table, NicknameWrites(roomKey, agent, input, found, now));
            && MembersMatch(table', roomKey, MembersAfter(state.members, agent, input, now))
            && NicknamesMatch(
                 table', roomKey, IndexAfter(state.nicknames, agent, found.nicknameKey, input.nicknameKey))
  {
    var table' := WriteAll(table, NicknameWrites(roomKey, agent, input, found, now));
    assert Get(table, InRoom(roomKey, Member(agent))) == MemberEntry(state.members, agent);
    NicknameEffect(table, roomKey, agent, input, found, state.members[agent], now);
    hide NicknameWrites, RenamedMember;
    forall a
      ensures Get(table', InRoom(roomKey, Member(a)))
              == MemberEntry(MembersAfter(state.members, agent, input, now), a)
    {
      assert Get(table, InRoom(roomKey, Member(a))) == MemberEntry(state.members, a);
    }
    forall k
      ensures Get(table', InRoom(roomKey, Nick(k)))
              == NickEntry(IndexAfter(state.nicknames, agent, found.nicknameKey, input.nicknameKey), k)
    {
      assert Get(table, InRoom(roomKey, Nick(k))) == NickEntry(state.nicknames, k);
    }
  }

  // Any committed nickname transaction, for any earlier read: the room it leaves, and what it proves at commit time.
  lemma NicknameLeaves(
    table: Table, roomKey: Str, state: RoomState, ids: seq<Str>, agent: Str, input: SetNicknameInput,
    found: Membership, now: Time)
    requires RoomMatches(table, roomKey, state, ids) && input.nicknameKey != []
    requires Passes(table, NicknameWrites(roomKey, agent, input, found, now))
    ensures var table' := WriteAll(table, NicknameWrites(roomKey, agent, input, found, now));
            && !state.room.archived && agent in state.members
            && state.members[agent].version == input.actorMemberVersion && state.members[agent].role == found.role
            && RoomMatches(table', roomKey, RoomRenamed(state, agent, input, found.nicknameKey, now), ids)
            && ChangesInRoom(table, table', roomKey)
  {
    NicknamePasses(table, roomKey, state, ids, agent, input, found, now);
    NicknameActor(table, roomKey, state, ids, agent, input, found, now);
    NicknameTable(table, roomKey, state, ids, agent, input, found, now);
    MemberIsStored(table, roomKey, state, ids, agent);
    NicknameEffect(table, roomKey, agent, input, found, state.members[agent], now);
    hide NicknameWrites, MembersAfter, IndexAfter, Passes, MembersMatch, NicknamesMatch, RenamedMember;
    RoomAfterNames(
      table, WriteAll(table, NicknameWrites(roomKey, agent, input, found, now)), roomKey, state, ids,
      RoomRenamed(state, agent, input, found.nicknameKey, now));
  }

  lemma MemberIsStored(table: Table, roomKey: Str, state: RoomState, ids: seq<Str>, agent: Str)
    requires RoomMatches(table, roomKey, state, ids) && agent in state.members
    ensures Get(table, InRoom(roomKey, Member(agent))) == Some(MemberItem(state.members[agent]))
  {
    assert Get(table, InRoom(roomKey, Member(agent))) == MemberEntry(state.members, agent);
  }

  lemma NicknameActor(
    table: Table, roomKey: Str, state: RoomState, ids: seq<Str>, agent: Str, input: SetNicknameInput,
    found: Membership, now: Time)
    requires RoomMatches(table, roomKey, state, ids) && agent in state.members
    requires Passes(table, NicknameWrites(roomKey, agent, input, found, now))
    ensures !state.room.archived
    ensures state.members[agent].version == input.actorMemberVersion && state.members[agent].role == found.role
  {
    MemberIsStored(table, roomKey, state, ids, agent);
    var writes := NicknameWrites(roomKey, agent, input, found, now);
    assert Holds(writes[0].condition, Get(table, writes[0].key));
    assert Holds(writes[1].condition, Get(table, writes[1].key));
  }

  lemma RoomAfterNames(
    table: Table, table': Table, roomKey: Str, state: RoomState, ids: seq<Str>, state': RoomState)
    requires RoomMatches(table, roomKey, state, ids)
    requires forall sk: SortKey :: !sk.Nick? && !sk.Member? ==>
               Get(table', InRoom(roomKey, sk)) == Get(table, InRoom(roomKey, sk))
    requires state' == state.(members := state'.members, nicknames := state'.nicknames)
    requires MembersMatch(table', roomKey, state'.members) && NicknamesMatch(table', roomKey, state'.nicknames)
    ensures RoomMatches(table', roomKey, state', ids)
  {
    hide MembersMatch, NicknamesMatch;
  }

  // Where the client read the member as it is, that room is the specification's.
  lemma CurrentReadRenames(state: RoomState, agent: Str, input: SetNicknameInput, now: Time)
    requires NicknamesOk(state.members, state.nicknames) && agent in state.members && input.nicknameKey != []
    ensures RoomRenamed(state, agent, input, state.members[agent].nicknameKey, now)
            == Renamed(state, agent, input, now)
  {
    var previous, key := state.members[agent].nicknameKey, input.nicknameKey;
    if previous == key {
      assert state.nicknames[key := agent] == state.nicknames;
    }
  }
}
