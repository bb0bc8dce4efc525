/** The stable JSON that agent cards are signed over (recipe 12, agent_card.py): sorted keys, no null entries. */
module StableJson {
  import opened Board
  import opened CanonicalJson
  import opened JsonParsing

  function DropNulls(v: Json): Json {
    match v
    case Arr(items) => Arr(DropNullsItems(items))
    case Obj(entries) => Obj(DropNullsEntries(entries))
    case _ => v
  }

  function DropNullsItems(items: Items): Items {
    if items.Nil? then Nil else Cons(DropNulls(items.head), DropNullsItems(items.tail))
  }

  function DropNullsEntries(entries: Entries): Entries {
    if entries.NoEntries? then NoEntries
    else if entries.value.Null? then DropNullsEntries(entries.rest)
    else Entry(entries.key, DropNulls(entries.value), DropNullsEntries(entries.rest))
  }

  // The non-null entries, in order.
  function NonNull(entries: Entries): Entries {
    if entries.NoEntries? then NoEntries
    else if entries.value.Null? then NonNull(entries.rest)
    else Entry(entries.key, entries.value, NonNull(entries.rest))
  }

  function Depth(v: Json): nat {
    match v
    case Arr(items) => 1 + DepthItems(items)
    case Obj(entries) => 1 + DepthEntries(entries)
    case _ => 0
  }

  function DepthItems(items: Items): nat {
    if items.Nil? then 0
    else
      var d, m := Depth(items.head), DepthItems(items.tail);
      if d < m then m else d
  }

  function DepthEntries(entries: Entries): nat {
    if entries.NoEntries? then 0
    else
      var d, m := Depth(entries.value), DepthEntries(entries.rest);
      if d < m then m else d
  }

  lemma InsertDepth(key: string, value: Json, entries: Entries)
    ensures DepthEntries(Insert(key, value, entries)) == DepthEntries(Entry(key, value, entries))
  {
    hide KeyLess;
  }

  lemma {:induction false} SortedDepth(entries: Entries)
    ensures DepthEntries(Sort(entries)) == DepthEntries(entries)
  {
    if entries.Entry? {
      SortedDepth(entries.rest);
      InsertDepth(entries.key, entries.value, Sort(entries.rest));
    }
  }

  lemma NonNullDepth(entries: Entries)
    ensures DepthEntries(NonNull(entries)) <= DepthEntries(entries)
  {
  }

  // _stable_json: sorts the non-null entries of each dict as it prints them.
  function Stable(v: Json): string
    decreases Depth(v), v
  {
    match v
    case Arr(items) => "[" + StableItems(items) + "]"
    case Obj(entries) =>
      NonNullDepth(entries);
      SortedDepth(NonNull(entries));
      "{" + StableEntries(Sort(NonNull(entries))) + "}"
    case _ => Emit(v)
  }

  function StableItems(items: Items): string
    decreases DepthItems(items), items
  {
    if items.Nil? then ""
    else if items.tail.Nil? then Stable(items.head)
    else Stable(items.head) + "," + StableItems(items.tail)
  }

  function StableEntries(entries: Entries): string
    decreases DepthEntries(entries), entries
  {
    if entries.NoEntries? then ""
    else
      var first := EmitString(entries.key) + ":" + Stable(entries.value);
      if entries.rest.NoEntries? then first else first + "," + StableEntries(entries.rest)
  }

  // ---------------------------------------------------------------- Stable text is canonical text without nulls

  // Every value cleaned and sorted inside, the entries themselves left in order.
  function CleanEntries(entries: Entries): Entries {
    if entries.NoEntries? then NoEntries
    else Entry(entries.key, Canon(DropNulls(entries.value)), CleanEntries(entries.rest))
  }

  lemma {:induction false} CleanNonNull(entries: Entries)
    ensures CanonEntries(DropNullsEntries(entries)) == CleanEntries(NonNull(entries))
  {
    if entries.Entry? { CleanNonNull(entries.rest); }
  }

  lemma InsertClean(key: string, value: Json, entries: Entries)
    ensures Insert(key, Canon(DropNulls(value)), CleanEntries(entries)) == CleanEntries(Insert(key, value, entries))
  {
    hide KeyLess, Canon, DropNulls;
  }

  // Sorting looks at the keys alone.
  lemma {:induction false} SortClean(entries: Entries)
    ensures Sort(CleanEntries(entries)) == CleanEntries(Sort(entries))
  {
    if entries.Entry? {
      SortClean(entries.rest);
      InsertClean(entries.key, entries.value, Sort(entries.rest));
    }
  }

  // Dropping null entries first and sorting while printing gives the canonical text of the cleaned value.
  lemma {:induction false} StableIsPrint(v: Json)
    ensures Stable(v) == Print(DropNulls(v))
    decreases Depth(v), v
  {
    match v
    case Arr(items) => StableItemsPrint(items);
    case Obj(entries) =>
      NonNullDepth(entries);
      SortedDepth(NonNull(entries));
      StableEntriesPrint(Sort(NonNull(entries)));
      CleanNonNull(entries);
      SortClean(NonNull(entries));
    case _ =>
  }

  lemma {:induction false} StableItemsPrint(items: Items)
    ensures StableItems(items) == EmitItems(CanonItems(DropNullsItems(items)))
    decreases DepthItems(items), items
  {
    if items.Cons? {
      StableIsPrint(items.head);
      StableItemsPrint(items.tail);
    }
  }

  lemma {:induction false} StableEntriesPrint(entries: Entries)
    ensures StableEntries(entries) == EmitEntries(CleanEntries(entries))
    decreases DepthEntries(entries), entries
  {
    if entries.Entry? {
      StableIsPrint(entries.value);
      StableEntriesPrint(entries.rest);
    }
  }

  lemma {:induction false} DropNullsWellFormed(v: Json)
    requires WellFormed(v)
    ensures WellFormed(DropNulls(v))
  {
    match v
    case Arr(items) => DropNullsItemsWellFormed(items);
    case Obj(entries) => DropNullsEntriesWellFormed(entries);
    case _ =>
  }

  lemma {:induction false} DropNullsItemsWellFormed(items: Items)
    requires WellFormedItems(items)
    ensures WellFormedItems(DropNullsItems(items))
  {
    if items.Cons? {
      DropNullsWellFormed(items.head);
      DropNullsItemsWellFormed(items.tail);
    }
  }

  lemma DroppedStaysAbsent(entries: Entries, k: string)
    requires Find(entries, k) == None
    ensures Find(DropNullsEntries(entries), k) == None
  {
  }

  lemma {:induction false} DropNullsEntriesWellFormed(entries: Entries)
    requires WellFormedEntries(entries)
    ensures WellFormedEntries(DropNullsEntries(entries))
  {
    if entries.Entry? {
      DropNullsWellFormed(entries.value);
      DropNullsEntriesWellFormed(entries.rest);
      DroppedStaysAbsent(entries.rest, entries.key);
    }
  }

  // Two cards sign the same text exactly when they are equal up to key order and null entries.
  lemma StableIdentifies(v: Json, w: Json)
    requires WellFormed(v) && WellFormed(w)
    ensures Stable(v) == Stable(w) <==> Same(DropNulls(v), DropNulls(w))
  {
    StableIsPrint(v);
    StableIsPrint(w);
    DropNullsWellFormed(v);
    DropNullsWellFormed(w);
    PrintIdentifies(DropNulls(v), DropNulls(w));
  }

  // What is dropped: the null entries of dicts at every depth, and nothing else.
  lemma {:induction false} DropsNullEntries(entries: Entries, k: string)
    requires WellFormedEntries(entries)
    ensures Find(DropNullsEntries(entries), k) ==
            match Find(entries, k)
            case None => None
            case Some(v) => if v == Null then None else Some(DropNulls(v))
    ensures DropNulls(Obj(entries)) == Obj(DropNullsEntries(entries))
  {
    if entries.Entry? {
      DropsNullEntries(entries.rest, k);
      if entries.key == k { DroppedStaysAbsent(entries.rest, k); }
    }
  }

  function ItemList(items: Items): seq<Json> {
    if items.Nil? then [] else [items.head] + ItemList(items.tail)
  }

  // Lists keep their length and their nulls.
  lemma {:induction false} DropsNoItems(items: Items, i: nat)
    ensures |ItemList(DropNullsItems(items))| == |ItemList(items)|
    ensures i < |ItemList(items)| ==> ItemList(DropNullsItems(items))[i] == DropNulls(ItemList(items)[i])
    ensures DropNulls(Arr(items)) == Arr(DropNullsItems(items)) && DropNulls(Null) == Null
  {
    if items.Cons? { DropsNoItems(items.tail, if i > 0 then i - 1 else 0); }
  }
}
