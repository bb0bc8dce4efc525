/** ReadMessages of DynamoDBStore (store/dynamodb.go): a key-range query over the room's message items. */
module TableQuery {
  import opened Bytes
  import opened Board
  import opened BoardSpec
  import opened BoardInvariant
  import opened DynamoTable
  import opened Refinement
  import Paging

  const MSG_PREFIX: Str := [77, 83, 71, HASH]        // MSG#
  const MSG_END: Str := [77, 83, 71, 36]             // MSG$

  // SK BETWEEN lo AND hi, both ends included, in byte order.
  predicate Between(lo: Str, sk: Str, hi: Str) {
    !Less(sk, lo) && !Less(hi, sk)
  }

  // The lower end of the range: after an ID, or from the first message on.
  function RangeStart(after: Str): Str {
    if after != [] then MSG_PREFIX + after + [0] else MSG_PREFIX
  }

  // An ID is at least `after` followed by a zero byte exactly when it is greater than `after`.
  lemma {:induction false} ZeroSuccessor(after: Str, id: Str)
    ensures !Less(id, after + [0]) <==> Less(after, id)
  {
    if after == [] {
      assert after + [0] == [0];
      if id != [] { assert !Less(id[1..], []); }
    } else if id != [] && id[0] == after[0] {
      ZeroSuccessor(after[1..], id[1..]);
      assert (after + [0])[1..] == after[1..] + [0];
    }
  }

  lemma {:induction false} PrefixOrder(prefix: Str, a: Str, b: Str)
    ensures Less(prefix + a, prefix + b) <==> Less(a, b)
  {
    if prefix == [] {
      assert prefix + a == a && prefix + b == b;
    } else {
      PrefixOrder(prefix[1..], a, b);
      assert (prefix + a)[1..] == prefix[1..] + a && (prefix + b)[1..] == prefix[1..] + b;
    }
  }

  lemma MessageBelowEnd(id: Str)
    ensures !Less(MSG_END, MSG_PREFIX + id)
  {
    var x := MSG_PREFIX + id;
    PrefixOrder([77, 83, 71], [36], [HASH] + id);
    assert MSG_END == [77, 83, 71] + [36] && x == [77, 83, 71] + ([HASH] + id);
  }

  lemma MessageAboveStart(after: Str, id: Str)
    ensures !Less(MSG_PREFIX + id, RangeStart(after)) <==> after == [] || Less(after, id)
  {
    if after != [] {
      PrefixOrder(MSG_PREFIX, id, after + [0]);
      assert RangeStart(after) == MSG_PREFIX + (after + [0]);
      ZeroSuccessor(after, id);
    } else {
      PrefixOrder(MSG_PREFIX, id, []);
      assert MSG_PREFIX + [] == MSG_PREFIX;
    }
  }

  lemma {:induction false} OthersOutside(sk: SortKey, after: Str)
    requires !sk.Msg?
    ensures !Between(RangeStart(after), SortKeyText(sk), MSG_END)
  {
    var x, lo := SortKeyText(sk), RangeStart(after);
    assert x[0] != 77 || x[1] == 69;
    assert lo[0] == 77 && lo[1] == 83;
    if x[0] == 77 {
      assert Less(x[1..], lo[1..]);
    }
  }

  // The range holds the messages after the ID, and no item of another kind.
  lemma RangeSelects(sk: SortKey, after: Str)
    ensures Between(RangeStart(after), SortKeyText(sk), MSG_END)
            <==> sk.Msg? && (after == [] || Less(after, sk.messageID))
  {
    if sk.Msg? {
      MessageBelowEnd(sk.messageID);
      MessageAboveStart(after, sk.messageID);
    } else {
      OthersOutside(sk, after);
    }
  }

  // ---------------------------------------------------------------- Queries

  predicate Hit(table: Table, roomKey: Str, after: Str, message: Message) {
    && Between(RangeStart(after), SortKeyText(Msg(message.messageID)), MSG_END)
    && Get(table, InRoom(roomKey, Msg(message.messageID))) == Some(MessageItem(message))
  }

  // A query returns the items of the range in key order, stopping only at its limit.
  ghost predicate ForwardQuery(table: Table, roomKey: Str, after: Str, limit: nat, items: seq<Message>) {
    && |items| <= limit
    && SortedByID(items)
    && (forall m :: m in items ==> Hit(table, roomKey, after, m))
    && (forall m :: Hit(table, roomKey, after, m) && m !in items ==>
          |items| == limit && forall other :: other in items ==> Less(other.messageID, m.messageID))
  }

  // With ScanIndexForward false it starts from the other end; ReadMessages then reverses the page.
  ghost predicate BackwardQuery(table: Table, roomKey: Str, limit: nat, items: seq<Message>) {
    && |items| <= limit
    && SortedByID(items)
    && (forall m :: m in items ==> Hit(table, roomKey, [], m))
    && (forall m :: Hit(table, roomKey, [], m) && m !in items ==>
          |items| == limit && forall other :: other in items ==> Less(m.messageID, other.messageID))
  }

  lemma TailSorted(messages: seq<Message>)
    requires SortedByID(messages) && messages != []
    ensures SortedByID(messages[1..]) && messages[0] !in messages[1..]
    ensures forall m :: m in messages[1..] ==> Less(messages[0].messageID, m.messageID)
  {
    LessIrreflexive(messages[0].messageID);
  }

  lemma InitSorted(messages: seq<Message>)
    requires SortedByID(messages) && messages != []
    ensures var last := messages[|messages| - 1];
            && SortedByID(messages[..|messages| - 1]) && last !in messages[..|messages| - 1]
            && forall m :: m in messages[..|messages| - 1] ==> Less(m.messageID, last.messageID)
  {
    LessIrreflexive(messages[|messages| - 1].messageID);
  }

  // Items that all come from a list, with nothing of the rest of it before any of them.
  ghost predicate Oldest(items: seq<Message>, all: seq<Message>) {
    && (forall m :: m in items ==> m in all)
    && forall m :: m in all && m !in items ==>
         forall other :: other in items ==> Less(other.messageID, m.messageID)
  }

  lemma SameHead(items: seq<Message>, all: seq<Message>)
    requires SortedByID(items) && SortedByID(all) && items != []
    requires Oldest(items, all)
    ensures all != [] && items[0] == all[0]
  {
    assert items[0] in all;
    TailSorted(items);
    TailSorted(all);
    var head := all[0];
    if head != items[0] {
      assert items[0] in all[1..];
      LessAsymmetric(head.messageID, items[0].messageID);
    }
  }

  lemma WithoutHead(items: seq<Message>, all: seq<Message>)
    requires SortedByID(items) && SortedByID(all) && items != [] && all != [] && items[0] == all[0]
    requires Oldest(items, all)
    ensures Oldest(items[1..], all[1..])
  {
    TailSorted(items);
    TailSorted(all);
    hide SortedByID, Less;
    assert items == [items[0]] + items[1..] && all == [all[0]] + all[1..];
  }

  // A sorted part of a sorted list whose missing members are all greater is an initial part.
  lemma {:induction false} InitialPart(items: seq<Message>, all: seq<Message>)
    requires SortedByID(items) && SortedByID(all)
    requires Oldest(items, all)
    ensures items <= all
  {
    hide Oldest, SortedByID, Less;
    if items != [] {
      SameHead(items, all);
      TailSorted(items);
      TailSorted(all);
      WithoutHead(items, all);
      InitialPart(items[1..], all[1..]);
      assert items == [items[0]] + items[1..] && all == [all[0]] + all[1..];
    }
  }

  // Items that all come from a list, with nothing of the rest of it after any of them.
  ghost predicate Newest(items: seq<Message>, all: seq<Message>) {
    && (forall m :: m in items ==> m in all)
    && forall m :: m in all && m !in items ==>
         forall other :: other in items ==> Less(m.messageID, other.messageID)
  }

  lemma SameLast(items: seq<Message>, all: seq<Message>)
    requires SortedByID(items) && SortedByID(all) && items != []
    requires Newest(items, all)
    ensures all != [] && items[|items| - 1] == all[|all| - 1]
  {
    var i := items[|items| - 1];
    assert i in all;
    InitSorted(items);
    InitSorted(all);
    var last := all[|all| - 1];
    if last != i {
      assert i in all[..|all| - 1];
      LessAsymmetric(i.messageID, last.messageID);
    }
  }

  lemma WithoutLast(items: seq<Message>, all: seq<Message>)
    requires SortedByID(items) && SortedByID(all) && items != [] && all != []
    requires items[|items| - 1] == all[|all| - 1]
    requires Newest(items, all)
    ensures Newest(items[..|items| - 1], all[..|all| - 1])
  {
    InitSorted(items);
    InitSorted(all);
    hide SortedByID, Less;
    assert items == items[..|items| - 1] + [items[|items| - 1]];
    assert all == all[..|all| - 1] + [all[|all| - 1]];
  }

  lemma {:induction false} FinalPart(items: seq<Message>, all: seq<Message>)
    requires SortedByID(items) && SortedByID(all)
    requires Newest(items, all)
    ensures |items| <= |all| && items == all[|all| - |items|..]
  {
    hide Newest, SortedByID, Less;
    if items != [] {
      SameLast(items, all);
      InitSorted(items);
      InitSorted(all);
      WithoutLast(items, all);
      FinalPart(items[..|items| - 1], all[..|all| - 1]);
      LastRejoined(items, all);
    }
  }

  lemma LastRejoined(items: seq<Message>, all: seq<Message>)
    requires items != [] && |items| <= |all| && items[|items| - 1] == all[|all| - 1]
    requires items[..|items| - 1] == all[..|all| - 1][|all| - |items|..]
    ensures items == all[|all| - |items|..]
  {
    assert items == items[..|items| - 1] + [items[|items| - 1]];
    assert all[|all| - |items|..] == all[..|all| - 1][|all| - |items|..] + [all[|all| - 1]];
  }

  // What a query can hit is what the room's message list holds after the ID.
  lemma HitsAreMessages(table: Table, roomKey: Str, messages: seq<Message>, after: Str, m: Message)
    requires MessagesMatch(table, roomKey, messages) && SortedByID(messages)
    ensures Hit(table, roomKey, after, m) <==> m in messages && (after == [] || Less(after, m.messageID))
  {
    RangeSelects(Msg(m.messageID), after);
    assert Get(table, InRoom(roomKey, Msg(m.messageID))) == MessageEntry(messages, m.messageID);
    FindIsHas(messages, m.messageID);
    if m in messages {
      var i :| 0 <= i < |messages| && messages[i] == m;
      FindMessageInSorted(messages, i);
    }
  }

  lemma {:induction false} AfterHolds(messages: seq<Message>, after: Str, m: Message)
    ensures m in Paging.After(messages, after) <==> m in messages && Less(after, m.messageID)
  {
    if messages != [] { AfterHolds(messages[1..], after, m); }
  }

  lemma AfterSorted(messages: seq<Message>, after: Str)
    requires SortedByID(messages)
    ensures SortedByID(Paging.After(messages, after))
  {
    Paging.AfterIsSuffix(messages, after);
  }

  // The first forward page of the table is MemoryStore's: the binary search's slice.
  lemma ForwardPageAgrees(
    other: Paging.Spellings, table: Table, roomKey: Str, state: RoomState, ids: seq<Str>, after: Str, limit: nat,
    items: seq<Message>)
    requires RoomMatches(table, roomKey, state, ids) && SortedByID(state.messages) && after != []
    requires ForwardQuery(table, roomKey, after, limit, items)
    ensures Paging.ReadPage(other, state.messages, limit, [], after).Ok?
    ensures Paging.ReadPage(other, state.messages, limit, [], after).value.items == items
  {
    var all := Paging.After(state.messages, after);
    hide Hit, Paging.EncodeOffset, MembersMatch, NicknamesMatch, IdempotencyMatches, AuditsMatch;
    forall m ensures Hit(table, roomKey, after, m) <==> m in all {
      HitsAreMessages(table, roomKey, state.messages, after, m);
      AfterHolds(state.messages, after, m);
    }
    AfterSorted(state.messages, after);
    InitialPart(items, all);
    if |items| < |all| { NotAll(items, all); }
    Paging.AfterIsSuffix(state.messages, after);
  }

  lemma NotAll(items: seq<Message>, all: seq<Message>)
    requires SortedByID(all) && items <= all && |items| < |all|
    ensures all[|items|] !in items
  {
    if all[|items|] in items {
      var i :| 0 <= i < |items| && items[i] == all[|items|];
      assert all[i] == all[|items|];
      LessIrreflexive(all[i].messageID);
    }
  }

  // And the first page back from the end is MemoryStore's tail slice.
  lemma BackwardPageAgrees(
    other: Paging.Spellings, table: Table, roomKey: Str, state: RoomState, ids: seq<Str>, limit: nat,
    items: seq<Message>)
    requires RoomMatches(table, roomKey, state, ids) && SortedByID(state.messages)
    requires BackwardQuery(table, roomKey, limit, items)
    ensures Paging.ReadPage(other, state.messages, limit, [], []).Ok?
    ensures Paging.ReadPage(other, state.messages, limit, [], []).value.items == items
  {
    var all := state.messages;
    hide Hit, Paging.EncodeOffset, MembersMatch, NicknamesMatch, IdempotencyMatches, AuditsMatch;
    forall m ensures Hit(table, roomKey, [], m) <==> m in all {
      HitsAreMessages(table, roomKey, all, [], m);
    }
    FinalPart(items, all);
    if |items| < |all| { NotAllBackward(items, all); }
  }

  lemma NotAllBackward(items: seq<Message>, all: seq<Message>)
    requires SortedByID(all) && |items| < |all| && items == all[|all| - |items|..]
    ensures all[|all| - |items| - 1] !in items
  {
    var k := |all| - |items| - 1;
    if all[k] in items {
      var i :| 0 <= i < |items| && items[i] == all[k];
      assert all[k + 1 + i] == all[k];
      LessIrreflexive(all[k].messageID);
    }
  }
}
