/** Cursors and pages of a room's messages (store/memory.go): what following cursors yields. */
module Paging {
  import opened Bytes
  import opened Board
  import opened BoardInvariant
  import Base64Url
  import opened DecimalText

  // ---------------------------------------------------------------- Offset cursors

  const MAX_INT: nat := 0x7fff_ffff_ffff_ffff

  // A JSON integer in [0, MAX_INT] without fraction or exponent.
  function ParseDecimal(text: Str): Option<nat> {
    if text == [] || !(forall i :: 0 <= i < |text| ==> Digit(text[i])) then None
    else if text[0] == 48 && |text| > 1 then None
    else if DecimalValue(text) > MAX_INT then None
    else Some(DecimalValue(text))
  }

  const OFFSET_PREFIX: Str := [123, 34, 111, 102, 102, 115, 101, 116, 34, 58]   // {"offset":
  const OFFSET_SUFFIX: Str := [125]                                             // }

  function EncodeOffset(offset: nat): Str {
    Base64Url.Encode(OFFSET_PREFIX + Decimal(offset) + OFFSET_SUFFIX)
  }

  function ParseOffset(raw: Str): Option<nat> {
    if |raw| >= 11 && raw[..10] == OFFSET_PREFIX && raw[|raw| - 1..] == OFFSET_SUFFIX
    then ParseDecimal(raw[10..|raw| - 1]) else None
  }

  function CanonicalOffset(cursor: Str): Option<nat> {
    match Base64Url.Decode(cursor)
    case None => None
    case Some(raw) => ParseOffset(raw)
  }

  // `other` stands for every spelling of a cursor that the store never issues but its decoders may accept.
  type Spellings = Str -> Option<int>

  function DecodeOffset(other: Spellings, cursor: Str): Outcome<nat> {
    if cursor == [] then Ok(0)
    else if CanonicalOffset(cursor).Some? then Ok(CanonicalOffset(cursor).value)
    else
      match other(cursor)
      case None => Err(Error.Validation)
      case Some(offset) => if offset < 0 then Err(Error.Validation) else Ok(offset)
  }

  // What a cursor says: {"offset":n}, in base64url.
  lemma CursorText(n: nat)
    ensures Base64Url.Decode(EncodeOffset(n)) == Some(Ascii("{\"offset\":") + Decimal(n) + Ascii("}"))
  {
    Base64Url.DecodeEncode(OFFSET_PREFIX + Decimal(n) + OFFSET_SUFFIX);
    assert Ascii("{\"offset\":") == OFFSET_PREFIX && Ascii("}") == OFFSET_SUFFIX;
  }

  // An issued cursor is never empty and decodes to the offset it was made from.
  lemma OffsetRoundTrip(other: Spellings, n: nat)
    ensures EncodeOffset(n) != []
    ensures n <= MAX_INT ==> DecodeOffset(other, EncodeOffset(n)) == Ok(n)
  {
    var raw := OFFSET_PREFIX + Decimal(n) + OFFSET_SUFFIX;
    DecimalRoundTrip(n);
    Base64Url.DecodeEncode(raw);
    Base64Url.EncodeAlphabet(raw);
    assert raw[10..|raw| - 1] == Decimal(n);
  }

  // ---------------------------------------------------------------- One page

  datatype Page<+T> = Page(items: seq<T>, next: Str)

  function PageSlice<T>(items: seq<T>, offset: nat, limit: nat): Page<T> {
    if offset > |items| then Page([], [])
    else
      var end := if offset + limit > |items| then |items| else offset + limit;
      Page(items[offset..end], if end < |items| then EncodeOffset(end) else [])
  }

  function TailSlice<T>(items: seq<T>, offset: nat, limit: nat): Page<T> {
    var end := if offset > |items| then |items| else offset;
    var start := if end < limit then 0 else end - limit;
    Page(items[start..end], if start > 0 then EncodeOffset(start) else [])
  }

  // The messages after a given ID, by definition.
  function After(messages: seq<Message>, after: Str): seq<Message> {
    if messages == [] then []
    else (if Less(after, messages[0].messageID) then [messages[0]] else []) + After(messages[1..], after)
  }

  // The least index whose message comes after `after`, or the length.
  function FirstAfter(messages: seq<Message>, after: Str): (index: nat)
    ensures index <= |messages|
    ensures forall i :: 0 <= i < index ==> !Less(after, messages[i].messageID)
    ensures index < |messages| ==> Less(after, messages[index].messageID)
  {
    if messages == [] || Less(after, messages[0].messageID) then 0
    else 1 + FirstAfter(messages[1..], after)
  }

  // What ReadMessages returns for the messages of a room.
  function ReadPage(other: Spellings, messages: seq<Message>, limit: nat, cursor: Str, after: Str)
    : Outcome<Page<Message>>
  {
    match DecodeOffset(other, cursor)
    case Err(error) => Err(error)
    case Ok(offset) =>
      if after != [] then
        Ok(PageSlice(messages, if cursor == [] then FirstAfter(messages, after) else offset, limit))
      else
        Ok(TailSlice(messages, if cursor == [] then |messages| else offset, limit))
  }

  lemma {:induction false} FirstAfterIs(messages: seq<Message>, after: Str, index: nat)
    requires index <= |messages|
    requires forall i :: 0 <= i < index ==> !Less(after, messages[i].messageID)
    requires index < |messages| ==> Less(after, messages[index].messageID)
    ensures FirstAfter(messages, after) == index
  {
    if index > 0 { FirstAfterIs(messages[1..], after, index - 1); }
  }

  // sort.Search over the predicate ID > after: binary search.
  method Search(messages: seq<Message>, after: Str) returns (index: nat)
    requires SortedByID(messages)
    ensures index == FirstAfter(messages, after)
  {
    var i, j := 0, |messages|;
    while i < j
      invariant 0 <= i <= j <= |messages|
      invariant forall k :: 0 <= k < i ==> !Less(after, messages[k].messageID)
      invariant forall k :: j <= k < |messages| ==> Less(after, messages[k].messageID)
    {
      var h := (i + j) / 2;
      if !Less(after, messages[h].messageID) {
        AllBelow(messages, after, h);
        i := h + 1;
      } else {
        AllAbove(messages, after, h);
        j := h;
      }
    }
    FirstAfterIs(messages, after, i);
    return i;
  }

  lemma AllBelow(messages: seq<Message>, after: Str, h: nat)
    requires SortedByID(messages) && h < |messages| && !Less(after, messages[h].messageID)
    ensures forall k :: 0 <= k <= h ==> !Less(after, messages[k].messageID)
  {
    forall k | 0 <= k < h ensures !Less(after, messages[k].messageID) {
      if Less(after, messages[k].messageID) {
        LessTransitive(after, messages[k].messageID, messages[h].messageID);
      }
    }
  }

  lemma AllAbove(messages: seq<Message>, after: Str, h: nat)
    requires SortedByID(messages) && h < |messages| && Less(after, messages[h].messageID)
    ensures forall k :: h <= k < |messages| ==> Less(after, messages[k].messageID)
  {
    forall k | h < k < |messages| ensures Less(after, messages[k].messageID) {
      LessTransitive(after, messages[h].messageID, messages[k].messageID);
    }
  }

  // In a sorted list the messages after an ID are the rest from the first one on.
  lemma {:induction false} AfterIsSuffix(messages: seq<Message>, after: Str)
    requires SortedByID(messages)
    ensures After(messages, after) == messages[FirstAfter(messages, after)..]
  {
    if messages != [] {
      AfterIsSuffix(messages[1..], after);
      if Less(after, messages[0].messageID) {
        AllAbove(messages, after, 0);
        assert FirstAfter(messages[1..], after) == 0 by {
          assert forall k :: 0 <= k < |messages[1..]| ==> Less(after, messages[1..][k].messageID);
        }
        assert messages == [messages[0]] + messages[1..];
      }
    }
  }

  predicate StretchAt(messages: seq<Message>, start: nat, items: seq<Message>) {
    start + |items| <= |messages| && items == messages[start..start + |items|]
  }

  // Whatever a cursor decodes to, a page is a stretch of at most `limit` consecutive messages.
  lemma PageIsStretch(other: Spellings, messages: seq<Message>, limit: nat, cursor: Str, after: Str)
    ensures match ReadPage(other, messages, limit, cursor, after)
            case Ok(page) =>
              && |page.items| <= limit
              && exists start: nat :: StretchAt(messages, start, page.items)
            case Err(error) => error == Error.Validation && cursor != []
  {
    var read := ReadPage(other, messages, limit, cursor, after);
    if read.Ok? {
      var offset := DecodeOffset(other, cursor).value;
      var at := if cursor == [] then (if after != [] then FirstAfter(messages, after) else |messages|) else offset;
      var end := if at > |messages| then |messages| else at;
      var start := if after != [] then end else if end < limit then 0 else end - limit;
      assert StretchAt(messages, start, read.value.items);
    }
  }

  function Least(a: int, b: int): int {
    if a < b then a else b
  }

  // Pages are full: a first page holds as many of the messages asked for as there are, up to the limit, and any page
  // that brings a cursor holds exactly the limit.
  lemma PageIsFull(other: Spellings, messages: seq<Message>, limit: nat, cursor: Str, after: Str)
    requires SortedByID(messages) && limit >= 1
    ensures var read := ReadPage(other, messages, limit, cursor, after);
            && (read.Ok? && read.value.next != [] ==> |read.value.items| == limit)
            && (cursor == [] ==>
                  && read.Ok?
                  && var wanted := if after == [] then messages else After(messages, after);
                     var n := Least(limit, |wanted|);
                     && read.value.items == (if after == [] then wanted[|wanted| - n..] else wanted[..n])
                     && (read.value.next == [] <==> |wanted| <= limit))
  {
    hide CanonicalOffset;
    OffsetsNotEmpty();
    hide EncodeOffset, FirstAfter;
    if after != [] {
      AfterIsSuffix(messages, after);
    }
  }

  lemma OffsetsNotEmpty()
    ensures forall n: nat :: EncodeOffset(n) != []
  {
    forall n: nat ensures EncodeOffset(n) != [] {
      Base64Url.EncodeAlphabet(OFFSET_PREFIX + Decimal(n) + OFFSET_SUFFIX);
    }
  }

  // A page asked for with a cursor goes on where the cursor says: forward from there, or backward up to there; past
  // the end there is nothing more, and all of it is before.
  lemma CursorPage(other: Spellings, messages: seq<Message>, limit: nat, offset: nat, after: Str)
    requires limit >= 1 && offset <= MAX_INT
    ensures var read := ReadPage(other, messages, limit, EncodeOffset(offset), after);
            var from := Least(offset, |messages|);
            && read.Ok?
            && read.value.items ==
               if after != [] then messages[from..Least(from + limit, |messages|)]
               else messages[from - Least(limit, from)..from]
  {
    OffsetRoundTrip(other, offset);
    hide EncodeOffset, CanonicalOffset;
  }

  // ---------------------------------------------------------------- Walks

  // What a client meets when it asks for one page: the messages at that moment, and its limit.
  datatype Visit = Visit(messages: seq<Message>, limit: int)

  function LimitOf(visit: Visit): (limit: nat)
    ensures 1 <= limit <= MAX_LIMIT
  {
    BoundLimit(visit.limit, DEFAULT_MESSAGES_LIMIT)
  }

  // Between pages only messages with larger IDs arrive.
  predicate Growing(visits: seq<Visit>) {
    && (forall i :: 0 <= i < |visits| ==> SortedByID(visits[i].messages) && |visits[i].messages| <= MAX_INT)
    && (forall i, j :: 0 <= i < j < |visits| ==> visits[i].messages <= visits[j].messages)
  }

  function CursorOf(pages: seq<Page<Message>>, i: nat): Str
    requires i <= |pages|
  {
    if i == 0 then [] else pages[i - 1].next
  }

  predicate PageIsRead(other: Spellings, visit: Visit, cursor: Str, after: Str, page: Page<Message>) {
    ReadPage(other, visit.messages, LimitOf(visit), cursor, after) == Ok(page)
  }

  // Each page is read with the cursor of the one before, until a page brings none.
  predicate IsWalk(other: Spellings, visits: seq<Visit>, after: Str, pages: seq<Page<Message>>) {
    && |visits| == |pages| >= 1
    && (forall i :: 0 <= i < |pages| ==>
          PageIsRead(other, visits[i], CursorOf(pages, i), after, pages[i]))
    && (forall i :: 0 <= i < |pages| - 1 ==> pages[i].next != [])
  }

  function Items(pages: seq<Page<Message>>): seq<Message> {
    if pages == [] then [] else Items(pages[..|pages| - 1]) + pages[|pages| - 1].items
  }

  // Backward pages are shown above the ones read before.
  function ItemsBackward(pages: seq<Page<Message>>): seq<Message> {
    if pages == [] then [] else pages[|pages| - 1].items + ItemsBackward(pages[..|pages| - 1])
  }

  lemma WalkPrefix(other: Spellings, visits: seq<Visit>, after: Str, pages: seq<Page<Message>>)
    requires IsWalk(other, visits, after, pages) && Growing(visits) && |pages| > 1
    ensures IsWalk(other, visits[..|visits| - 1], after, pages[..|pages| - 1]) && Growing(visits[..|visits| - 1])
  {
    var shorter, earlier := visits[..|visits| - 1], pages[..|pages| - 1];
    forall i | 0 <= i < |earlier|
      ensures PageIsRead(other, shorter[i], CursorOf(earlier, i), after, earlier[i])
    {
      assert earlier[i] == pages[i] && shorter[i] == visits[i] && CursorOf(earlier, i) == CursorOf(pages, i);
    }
  }

  lemma ForwardPage(
    other: Spellings, messages: seq<Message>, limit: nat, cursor: Str, after: Str, from: nat, page: Page<Message>)
    returns (end: nat)
    requires ReadPage(other, messages, limit, cursor, after) == Ok(page) && after != [] && limit >= 1
    requires if cursor == [] then from == FirstAfter(messages, after) else DecodeOffset(other, cursor) == Ok(from)
    requires from <= |messages|
    ensures from <= end <= |messages| && page.items == messages[from..end]
    ensures page.next == if end < |messages| then EncodeOffset(end) else []
    ensures from < |messages| ==> from < end
  {
    hide EncodeOffset, CanonicalOffset, FirstAfter;
    end := if from + limit > |messages| then |messages| else from + limit;
  }

  lemma BackwardPage(
    other: Spellings, messages: seq<Message>, limit: nat, cursor: Str, end: nat, page: Page<Message>)
    returns (start: nat)
    requires ReadPage(other, messages, limit, cursor, []) == Ok(page) && limit >= 1
    requires if cursor == [] then end == |messages| else DecodeOffset(other, cursor) == Ok(end)
    requires end <= |messages|
    ensures start <= end && page.items == messages[start..end]
    ensures page.next == if start > 0 then EncodeOffset(start) else []
    ensures end > 0 ==> start < end
  {
    hide EncodeOffset, CanonicalOffset;
    start := if end < limit then 0 else end - limit;
  }

  // What an induction over the pages uses of the last page.
  lemma LastPage(other: Spellings, visits: seq<Visit>, after: Str, pages: seq<Page<Message>>)
    requires IsWalk(other, visits, after, pages) && Growing(visits)
    ensures var last := |pages| - 1;
            && |visits| == |pages| >= 1
            && ReadPage(other, visits[last].messages, LimitOf(visits[last]), CursorOf(pages, last), after)
               == Ok(pages[last])
            && visits[0].messages <= visits[last].messages && |visits[last].messages| <= MAX_INT
            && (last > 0 ==> pages[last - 1].next != [] && visits[last - 1].messages <= visits[last].messages)
  {
    hide ReadPage, SortedByID;
    assert PageIsRead(other, visits[|pages| - 1], CursorOf(pages, |pages| - 1), after, pages[|pages| - 1]);
  }

  // Where a forward walk stands: everything from the first page's start up to `end` has been seen.
  lemma {:induction false} ForwardPosition(other: Spellings, visits: seq<Visit>, after: Str, pages: seq<Page<Message>>)
    returns (end: nat)
    requires IsWalk(other, visits, after, pages) && Growing(visits) && after != []
    ensures var start, messages := FirstAfter(visits[0].messages, after), visits[|visits| - 1].messages;
            && start <= end <= |messages|
            && Items(pages) == messages[start..end]
            && pages[|pages| - 1].next == (if end < |messages| then EncodeOffset(end) else [])
            && (end < |messages| || |pages| > 1 ==> |pages| <= end - start)
    decreases |pages|
  {
    hide EncodeOffset, FirstAfter, ReadPage, Growing, IsWalk;
    var last := |pages| - 1;
    LastPage(other, visits, after, pages);
    var messages, limit := visits[last].messages, LimitOf(visits[last]);
    var start := FirstAfter(visits[0].messages, after);
    if last == 0 {
      end := ForwardPage(other, messages, limit, [], after, start, pages[0]);
      assert pages[..0] == [];
      assert Items(pages) == [] + pages[0].items;
    } else {
      WalkPrefix(other, visits, after, pages);
      var shorter, earlier := visits[..last], pages[..last];
      var middle := ForwardPosition(other, shorter, after, earlier);
      assert pages[last - 1] == earlier[last - 1];
      OffsetRoundTrip(other, middle);
      var before := visits[last - 1].messages;
      assert before <= messages;
      assert before[start..middle] == messages[start..middle];
      end := ForwardPage(other, messages, limit, pages[last - 1].next, after, middle, pages[last]);
      assert messages[start..end] == messages[start..middle] + messages[middle..end];
    }
  }

  // What is after an ID does not change in front of where the list grows.
  lemma FirstAfterGrows(messages: seq<Message>, messages': seq<Message>, after: Str)
    requires messages <= messages' && FirstAfter(messages, after) < |messages|
    ensures FirstAfter(messages', after) == FirstAfter(messages, after)
  {
    FirstAfterIs(messages', after, FirstAfter(messages, after));
  }

  // Forward from `after`: the pages together are the first of the messages after it, each once and in order,
  // a page without a cursor says that they are all of them, and no walk has more pages than messages.
  lemma ForwardWalk(other: Spellings, visits: seq<Visit>, after: Str, pages: seq<Page<Message>>)
    requires IsWalk(other, visits, after, pages) && Growing(visits) && after != []
    ensures var all := After(visits[|visits| - 1].messages, after);
            && Items(pages) <= all
            && (pages[|pages| - 1].next == [] <==> Items(pages) == all)
            && (|pages| > 1 ==> |pages| <= |all|)
  {
    hide EncodeOffset;
    var end := ForwardPosition(other, visits, after, pages);
    OffsetRoundTrip(other, end);
    var start, messages := FirstAfter(visits[0].messages, after), visits[|visits| - 1].messages;
    AfterIsSuffix(messages, after);
    if |visits| > 1 {
      assert visits[0].messages <= messages;
      SecondPageMeansMore(other, visits, after, pages);
      FirstAfterGrows(visits[0].messages, messages, after);
    }
  }

  lemma SecondPageMeansMore(other: Spellings, visits: seq<Visit>, after: Str, pages: seq<Page<Message>>)
    requires IsWalk(other, visits, after, pages) && after != [] && |pages| > 1
    ensures FirstAfter(visits[0].messages, after) < |visits[0].messages|
  {
    assert pages[0].next != [];
    assert PageIsRead(other, visits[0], CursorOf(pages, 0), after, pages[0]);
  }

  lemma {:induction false} BackwardPosition(other: Spellings, visits: seq<Visit>, pages: seq<Page<Message>>)
    returns (start: nat)
    requires IsWalk(other, visits, [], pages) && Growing(visits)
    ensures var messages := visits[0].messages;
            && start <= |messages|
            && ItemsBackward(pages) == messages[start..]
            && pages[|pages| - 1].next == (if start > 0 then EncodeOffset(start) else [])
            && (start > 0 || |pages| > 1 ==> |pages| <= |messages| - start)
    decreases |pages|
  {
    hide EncodeOffset, ReadPage, Growing, IsWalk;
    var last := |pages| - 1;
    LastPage(other, visits, [], pages);
    var messages, limit := visits[0].messages, LimitOf(visits[last]);
    if last == 0 {
      start := BackwardPage(other, messages, limit, [], |messages|, pages[0]);
      assert pages[..0] == [];
      assert ItemsBackward(pages) == pages[0].items + [];
    } else {
      WalkPrefix(other, visits, [], pages);
      var end := BackwardPosition(other, visits[..last], pages[..last]);
      assert pages[last - 1] == pages[..last][last - 1];
      OffsetRoundTrip(other, end);
      assert messages <= visits[last].messages;
      start := BackwardPage(other, visits[last].messages, limit, pages[last - 1].next, end, pages[last]);
      assert visits[last].messages[start..end] == messages[start..end];
      assert messages[start..] == messages[start..end] + messages[end..];
    }
  }

  // Backward from the end: the pages together are the newest of the messages that were there at the first page,
  // each once and in order, and a page without a cursor says that the oldest has been reached.
  lemma BackwardWalk(other: Spellings, visits: seq<Visit>, pages: seq<Page<Message>>)
    requires IsWalk(other, visits, [], pages) && Growing(visits)
    ensures var all := visits[0].messages;
            && |ItemsBackward(pages)| <= |all|
            && ItemsBackward(pages) == all[|all| - |ItemsBackward(pages)|..]
            && (pages[|pages| - 1].next == [] <==> ItemsBackward(pages) == all)
            && (|pages| > 1 ==> |pages| <= |all|)
  {
    hide EncodeOffset;
    var start := BackwardPosition(other, visits, pages);
    OffsetRoundTrip(other, start);
  }

  lemma CursorsKept(pages: seq<Page<Message>>, page: Page<Message>, i: nat)
    requires i <= |pages|
    ensures CursorOf(pages + [page], i) == CursorOf(pages, i)
  {
  }

  lemma NextPageExtends(
    other: Spellings, visits: seq<Visit>, after: Str, pages: seq<Page<Message>>, visit: Visit, page: Page<Message>)
    requires IsWalk(other, visits, after, pages) && pages[|pages| - 1].next != []
    requires PageIsRead(other, visit, pages[|pages| - 1].next, after, page)
    ensures IsWalk(other, visits + [visit], after, pages + [page])
  {
    hide PageIsRead, CursorOf;
    var visits', pages' := visits + [visit], pages + [page];
    forall i | 0 <= i < |pages'|
      ensures PageIsRead(other, visits'[i], CursorOf(pages', i), after, pages'[i])
    {
      CursorsKept(pages, page, i);
      if i < |pages| {
        assert PageIsRead(other, visits[i], CursorOf(pages, i), after, pages[i]);
      } else {
        assert CursorOf(pages, i) == pages[|pages| - 1].next by { LastCursor(pages); }
      }
    }
  }

  lemma LastCursor(pages: seq<Page<Message>>)
    requires pages != []
    ensures CursorOf(pages, |pages|) == pages[|pages| - 1].next
  {
  }

  // A walk that has not ended can always go on: its cursor is accepted.
  lemma WalkGoesOn(other: Spellings, visits: seq<Visit>, after: Str, pages: seq<Page<Message>>, visit: Visit)
    requires IsWalk(other, visits, after, pages) && Growing(visits + [visit]) && pages[|pages| - 1].next != []
    ensures var next := ReadPage(other, visit.messages, LimitOf(visit), pages[|pages| - 1].next, after);
            next.Ok? && IsWalk(other, visits + [visit], after, pages + [next.value])
  {
    hide EncodeOffset;
    var last := |pages| - 1;
    assert forall i :: 0 <= i < |visits| ==> (visits + [visit])[i] == visits[i];
    assert Growing(visits) by {
      assert forall i, j :: 0 <= i < j < |visits| ==> (visits + [visit])[i].messages <= (visits + [visit])[j].messages;
    }
    var position: nat;
    if after != [] {
      position := ForwardPosition(other, visits, after, pages);
    } else {
      position := BackwardPosition(other, visits, pages);
    }
    OffsetRoundTrip(other, position);
    NextPageExtends(
      other, visits, after, pages, visit,
      ReadPage(other, visit.messages, LimitOf(visit), pages[last].next, after).value);
  }
}
