/**
 Canonical JSON as hashed and signed (orders_common/proof.py, agent_card.py): values without floats, printed
 compactly in ASCII with sorted keys.
 */
module CanonicalJson {
  import opened Bytes
  import opened Board
  import opened DecimalText

  // Python values: a dict is a list of entries with distinct keys, in insertion order.
  datatype Json =
    | Null
    | Bool(truth: bool)
    | Num(number: int)
    | Text(text: string)
    | Arr(items: Items)
    | Obj(entries: Entries)

  datatype Items = Nil | Cons(head: Json, tail: Items)

  datatype Entries = NoEntries | Entry(key: string, value: Json, rest: Entries)

  function Find(entries: Entries, key: string): Option<Json> {
    match entries
    case NoEntries => None
    case Entry(k, value, rest) => if k == key then Some(value) else Find(rest, key)
  }

  predicate WellFormed(v: Json) {
    match v
    case Arr(items) => WellFormedItems(items)
    case Obj(entries) => WellFormedEntries(entries)
    case _ => true
  }

  predicate WellFormedItems(items: Items) {
    items.Cons? ==> WellFormed(items.head) && WellFormedItems(items.tail)
  }

  predicate WellFormedEntries(entries: Entries) {
    entries.Entry? ==>
      && WellFormed(entries.value) && WellFormedEntries(entries.rest)
      && Find(entries.rest, entries.key) == None
  }

  // ---------------------------------------------------------------- Equality of values

  function Size(entries: Entries): nat {
    if entries.NoEntries? then 0 else 1 + Size(entries.rest)
  }

  // Equal values: dicts compare by their entries, whatever the order; True is not 1.
  predicate Same(v: Json, w: Json) {
    match (v, w)
    case (Arr(a), Arr(b)) => SameItems(a, b)
    case (Obj(a), Obj(b)) => Size(a) == Size(b) && Within(a, b)
    case _ => v == w
  }

  predicate SameItems(a: Items, b: Items) {
    match (a, b)
    case (Nil, Nil) => true
    case (Cons(x, s), Cons(y, t)) => Same(x, y) && SameItems(s, t)
    case _ => false
  }

  predicate Within(a: Entries, b: Entries) {
    a.Entry? ==> Find(b, a.key).Some? && Same(a.value, Find(b, a.key).value) && Within(a.rest, b)
  }

  // ---------------------------------------------------------------- Sorted keys

  function Codes(s: string): seq<int> {
    seq(|s|, i requires 0 <= i < |s| => s[i] as int)
  }

  // Python compares strings by code point.
  predicate KeyLess(a: string, b: string) {
    Less(Codes(a), Codes(b))
  }

  function Insert(key: string, value: Json, entries: Entries): Entries {
    if entries.NoEntries? || KeyLess(key, entries.key) then Entry(key, value, entries)
    else Entry(entries.key, entries.value, Insert(key, value, entries.rest))
  }

  function Sort(entries: Entries): Entries {
    if entries.NoEntries? then NoEntries else Insert(entries.key, entries.value, Sort(entries.rest))
  }

  // The value with every dict's keys in order.
  function Canon(v: Json): Json {
    match v
    case Arr(items) => Arr(CanonItems(items))
    case Obj(entries) => Obj(Sort(CanonEntries(entries)))
    case _ => v
  }

  function CanonItems(items: Items): Items {
    if items.Nil? then Nil else Cons(Canon(items.head), CanonItems(items.tail))
  }

  function CanonEntries(entries: Entries): Entries {
    if entries.NoEntries? then NoEntries
    else Entry(entries.key, Canon(entries.value), CanonEntries(entries.rest))
  }

  predicate Ascending(entries: Entries) {
    entries.Entry? && entries.rest.Entry? ==>
      KeyLess(entries.key, entries.rest.key) && Ascending(entries.rest)
  }

  // ---------------------------------------------------------------- Printing

  function HexDigit(n: nat): char
    requires n < 16
  {
    if n < 10 then (48 + n) as char else (87 + n) as char
  }

  function Hex4(n: nat): string
    requires n < 0x10000
  {
    [HexDigit(n / 0x1000), HexDigit(n / 0x100 % 0x10), HexDigit(n / 0x10 % 0x10), HexDigit(n % 0x10)]
  }

  // One character of a string literal under ensure_ascii.
  function EmitChar(c: char): string {
    if c == '\"' then "\\\""
    else if c == '\\' then "\\\\"
    else if c == '\n' then "\\n"
    else if c == '\r' then "\\r"
    else if c == '\t' then "\\t"
    else if c as int == 12 then "\\f"
    else if c as int == 8 then "\\b"
    else if ' ' <= c <= '~' then [c]
    else if c as int < 0x10000 then "\\u" + Hex4(c as int)
    else
      var n := c as int - 0x10000;
      "\\u" + Hex4(0xD800 + n / 0x400) + "\\u" + Hex4(0xDC00 + n % 0x400)
  }

  function EmitChars(s: string): string {
    if s == "" then "" else EmitChar(s[0]) + EmitChars(s[1..])
  }

  function EmitString(s: string): string {
    "\"" + EmitChars(s) + "\""
  }

  function AsText(digits: Str): string {
    seq(|digits|, i requires 0 <= i < |digits| => digits[i] as char)
  }

  function EmitNumber(n: int): string {
    if n < 0 then "-" + AsText(Decimal(-n)) else AsText(Decimal(n))
  }

  // The printer without sorting.
  function Emit(v: Json): string {
    match v
    case Null => "null"
    case Bool(truth) => if truth then "true" else "false"
    case Num(n) => EmitNumber(n)
    case Text(s) => EmitString(s)
    case Arr(items) => "[" + EmitItems(items) + "]"
    case Obj(entries) => "{" + EmitEntries(entries) + "}"
  }

  function EmitItems(items: Items): string {
    if items.Nil? then ""
    else if items.tail.Nil? then Emit(items.head)
    else Emit(items.head) + "," + EmitItems(items.tail)
  }

  function EmitEntries(entries: Entries): string {
    if entries.NoEntries? then ""
    else
      var first := EmitString(entries.key) + ":" + Emit(entries.value);
      if entries.rest.NoEntries? then first else first + "," + EmitEntries(entries.rest)
  }

  // json.dumps(v, sort_keys=True, separators=(",", ":"), ensure_ascii=True)
  function Print(v: Json): string {
    Emit(Canon(v))
  }

  // A hexadecimal digit in small letters.
  predicate HexSays(c: char, n: nat) {
    if n < 10 then c as int == '0' as int + n else n < 16 && c as int == 'a' as int + (n - 10)
  }

  lemma HexDigitSays(n: nat)
    requires n < 16
    ensures HexSays(HexDigit(n), n)
  {
  }

  lemma Nibbles(n: nat)
    ensures n == n / 0x1000 * 0x1000 + n / 0x100 % 0x10 * 0x100 + n / 0x10 % 0x10 * 0x10 + n % 0x10
  {
    var m, k := n / 0x10, n / 0x100;
    assert m / 0x10 == k && k / 0x10 == n / 0x1000;
    assert n == m * 0x10 + n % 0x10 && m == k * 0x10 + m % 0x10 && k == n / 0x1000 * 0x10 + k % 0x10;
  }

  // Four digits, the most significant first.
  lemma Hex4Reads(n: nat) returns (a: nat, b: nat, c: nat, d: nat)
    requires n < 0x10000
    ensures n == a * 0x1000 + b * 0x100 + c * 0x10 + d
    ensures |Hex4(n)| == 4
    ensures HexSays(Hex4(n)[0], a) && HexSays(Hex4(n)[1], b) && HexSays(Hex4(n)[2], c) && HexSays(Hex4(n)[3], d)
  {
    hide HexDigit, HexSays;
    Nibbles(n);
    a, b, c, d := n / 0x1000, n / 0x100 % 0x10, n / 0x10 % 0x10, n % 0x10;
    HexDigitSays(a);
    HexDigitSays(b);
    HexDigitSays(c);
    HexDigitSays(d);
  }

  // How a character is written: as it is, as a letter after a backslash, or as a four-digit unit.
  lemma CharIsWritten(c: char)
    ensures EmitChar('\"') == "\\\"" && EmitChar('\\') == "\\\\" && EmitChar('\n') == "\\n"
    ensures EmitChar('\r') == "\\r" && EmitChar('\t') == "\\t"
    ensures EmitChar(12 as char) == "\\f" && EmitChar(8 as char) == "\\b"
    ensures ' ' <= c <= '~' && c != '\"' && c != '\\' ==> EmitChar(c) == [c]
    ensures (c < ' ' || '~' < c) && c as int < 0x10000 && c !in ['\n', '\r', '\t', 12 as char, 8 as char] ==>
              EmitChar(c) == "\\u" + Hex4(c as int)
  {
    hide Hex4;
  }

  // Beyond four digits it is written as a surrogate pair.
  lemma PairIsWritten(c: char) returns (high: nat, low: nat)
    requires c as int >= 0x10000
    ensures 0xD800 <= high < 0xDC00 && 0xDC00 <= low < 0xE000
    ensures c as int == 0x10000 + 0x400 * (high - 0xD800) + (low - 0xDC00)
    ensures EmitChar(c) == "\\u" + Hex4(high) + "\\u" + Hex4(low)
  {
    hide Hex4;
    var n := c as int - 0x10000;
    high, low := 0xD800 + n / 0x400, 0xDC00 + n % 0x400;
  }

  // ---------------------------------------------------------------- Sorting

  lemma KeyOrder(a: string, b: string)
    ensures Codes(a) == Codes(b) ==> a == b
    ensures KeyLess(a, b) || a == b || KeyLess(b, a)
    ensures KeyLess(a, b) ==> a != b && !KeyLess(b, a)
  {
    LessTotal(Codes(a), Codes(b));
    if Codes(a) == Codes(b) {
      forall i | 0 <= i < |a| ensures a[i] == b[i] {
        assert Codes(a)[i] == Codes(b)[i];
      }
    }
    if KeyLess(a, b) { LessAsymmetric(Codes(a), Codes(b)); }
  }

  lemma {:induction false} InsertFinds(key: string, value: Json, entries: Entries, k: string)
    requires Find(entries, key) == None
    ensures Find(Insert(key, value, entries), k) == if k == key then Some(value) else Find(entries, k)
    ensures Size(Insert(key, value, entries)) == Size(entries) + 1
  {
    hide KeyLess;
    if entries.Entry? && !KeyLess(key, entries.key) { InsertFinds(key, value, entries.rest, k); }
  }

  lemma InsertAscending(key: string, value: Json, entries: Entries)
    requires Ascending(entries) && Find(entries, key) == None
    ensures Ascending(Insert(key, value, entries))
  {
    hide KeyLess;
    if entries.Entry? {
      KeyOrder(key, entries.key);
      if !KeyLess(key, entries.key) { InsertAscending(key, value, entries.rest); }
    }
  }

  lemma {:induction false} SortFinds(entries: Entries, k: string)
    requires WellFormedEntries(entries)
    ensures Find(Sort(entries), k) == Find(entries, k) && Size(Sort(entries)) == Size(entries)
  {
    if entries.Entry? {
      SortFinds(entries.rest, entries.key);
      SortFinds(entries.rest, k);
      InsertFinds(entries.key, entries.value, Sort(entries.rest), k);
    }
  }

  lemma {:induction false} SortAscends(entries: Entries)
    requires WellFormedEntries(entries)
    ensures Ascending(Sort(entries))
  {
    if entries.Entry? {
      SortAscends(entries.rest);
      SortFinds(entries.rest, entries.key);
      InsertAscending(entries.key, entries.value, Sort(entries.rest));
    }
  }

  lemma {:induction false} AscendingFindsLater(entries: Entries, k: string)
    requires Ascending(entries) && entries.Entry? && Find(entries, k).Some? && k != entries.key
    ensures KeyLess(entries.key, k)
  {
    hide KeyLess;
    assert entries.rest.Entry?;
    if k != entries.rest.key {
      AscendingFindsLater(entries.rest, k);
      KeyLessTransitive(entries.key, entries.rest.key, k);
    }
  }

  lemma KeyLessTransitive(a: string, b: string, c: string)
    requires KeyLess(a, b) && KeyLess(b, c)
    ensures KeyLess(a, c)
  {
    LessTransitive(Codes(a), Codes(b), Codes(c));
  }

  lemma AscendingHead(entries: Entries)
    requires Ascending(entries) && entries.Entry?
    ensures Find(entries.rest, entries.key) == None
  {
    hide KeyLess;
    KeyOrder(entries.key, entries.key);
    if Find(entries.rest, entries.key).Some? {
      if entries.rest.key != entries.key {
        AscendingFindsLater(entries.rest, entries.key);
        KeyOrder(entries.key, entries.rest.key);
      }
    }
  }

  ghost predicate SameFinds(a: Entries, b: Entries) {
    forall k :: Find(a, k) == Find(b, k)
  }

  // Sorted entries are determined by what they hold.
  lemma {:induction false} AscendingUnique(a: Entries, b: Entries)
    requires Ascending(a) && Ascending(b) && SameFinds(a, b)
    ensures a == b
  {
    hide KeyLess;
    if a.Entry? {
      assert Find(a, a.key).Some? && Find(b, a.key).Some?;
      assert Find(b, b.key).Some? && Find(a, b.key).Some?;
      if a.key != b.key {
        AscendingFindsLater(a, b.key);
        AscendingFindsLater(b, a.key);
        KeyOrder(a.key, b.key);
      }
      AscendingHead(a);
      AscendingHead(b);
      forall k ensures Find(a.rest, k) == Find(b.rest, k) {
        assert Find(a, k) == Find(b, k);
      }
      AscendingUnique(a.rest, b.rest);
    } else {
      assert b.Entry? ==> Find(b, b.key).Some? && Find(a, b.key).None?;
    }
  }

  // What ascending keys means, character by character: at the first difference the earlier key has the smaller code
  // point, or it has ended.
  ghost predicate Precedes(a: string, b: string) {
    exists k :: 0 <= k <= |a| && k < |b| && a[..k] == b[..k] && (k == |a| || (k < |a| && a[k] as int < b[k] as int))
  }

  lemma {:induction false} KeyLessPrecedes(a: string, b: string)
    ensures KeyLess(a, b) <==> Precedes(a, b)
  {
    if a != "" && b != "" && a[0] == b[0] {
      CodesRest(a);
      CodesRest(b);
      KeyLessPrecedes(a[1..], b[1..]);
      RestPrecedes(a, b);
    } else if KeyLess(a, b) {
      assert a[..0] == b[..0];
    } else if a != "" && b != "" {
      CodesRest(a);
      CodesRest(b);
    }
  }

  lemma RestPrecedes(a: string, b: string)
    requires a != "" && b != "" && a[0] == b[0]
    ensures Precedes(a, b) <==> Precedes(a[1..], b[1..])
  {
    var s, t := a[1..], b[1..];
    if k :| 0 <= k <= |s| && k < |t| && s[..k] == t[..k] && (k == |s| || (k < |s| && s[k] as int < t[k] as int)) {
      assert a[..k + 1] == [a[0]] + s[..k] && b[..k + 1] == [b[0]] + t[..k];
    }
    if k :| 0 <= k <= |a| && k < |b| && a[..k] == b[..k] && (k == |a| || (k < |a| && a[k] as int < b[k] as int)) {
      assert k > 0;
      assert s[..k - 1] == a[..k][1..] && t[..k - 1] == b[..k][1..];
      assert k < |a| ==> s[k - 1] == a[k];
      assert t[k - 1] == b[k];
    }
  }

  lemma CodesRest(s: string)
    requires s != ""
    ensures Codes(s) != [] && Codes(s)[0] == s[0] as int && Codes(s)[1..] == Codes(s[1..])
  {
  }

  function KeyList(entries: Entries): seq<string> {
    if entries.NoEntries? then [] else [entries.key] + KeyList(entries.rest)
  }

  // The keys of every printed dict ascend by code point: each one precedes all later ones.
  lemma {:induction false} KeysAscend(entries: Entries, i: nat, j: nat)
    requires Ascending(entries) && i < j < |KeyList(entries)|
    ensures Precedes(KeyList(entries)[i], KeyList(entries)[j])
  {
    hide KeyLess, Precedes;
    if i == 0 {
      KeyListFinds(entries.rest, j - 1);
      AscendingHead(entries);
      AscendingFindsLater(entries, KeyList(entries)[j]);
      KeyLessPrecedes(KeyList(entries)[0], KeyList(entries)[j]);
    } else {
      KeysAscend(entries.rest, i - 1, j - 1);
    }
  }

  lemma {:induction false} KeyListFinds(entries: Entries, i: nat)
    requires i < |KeyList(entries)|
    ensures Find(entries, KeyList(entries)[i]).Some?
  {
    if i > 0 { KeyListFinds(entries.rest, i - 1); }
  }

  lemma PrintedKeysAscend(entries: Entries, i: nat, j: nat)
    requires WellFormedEntries(entries)
    ensures Canon(Obj(entries)).Obj?
    ensures var keys := KeyList(Canon(Obj(entries)).entries);
            i < j < |keys| ==> Precedes(keys[i], keys[j])
  {
    SortedCanonFinds(entries);
    if i < j < |KeyList(Canon(Obj(entries)).entries)| { KeysAscend(Canon(Obj(entries)).entries, i, j); }
  }

  // Separators: a comma between two elements or entries, a colon after a key, no space anywhere; and of two entries
  // the one with the earlier key comes first, whichever was there first.
  lemma TwoArePrinted(a: string, v: Json, b: string, w: Json)
    requires Precedes(a, b)
    ensures Print(Arr(Cons(v, Cons(w, Nil)))) == "[" + Print(v) + "," + Print(w) + "]"
    ensures var text := "{" + EmitString(a) + ":" + Print(v) + "," + EmitString(b) + ":" + Print(w) + "}";
            && Print(Obj(Entry(a, v, Entry(b, w, NoEntries)))) == text
            && Print(Obj(Entry(b, w, Entry(a, v, NoEntries)))) == text
  {
    KeyLessPrecedes(a, b);
    KeyOrder(a, b);
    hide KeyLess, EmitString, Emit, Precedes;
    var x, y := Canon(v), Canon(w);
    assert CanonItems(Nil) == Nil && CanonItems(Cons(w, Nil)) == Cons(y, Nil);
    assert CanonEntries(NoEntries) == NoEntries && Sort(NoEntries) == NoEntries;
    var first, second := Entry(a, x, NoEntries), Entry(b, y, NoEntries);
    assert Sort(first) == first && Sort(second) == second;
    assert CanonEntries(Entry(a, v, NoEntries)) == first && CanonEntries(Entry(b, w, NoEntries)) == second;
    assert Insert(b, y, first) == Entry(a, x, Insert(b, y, NoEntries)) == Entry(a, x, second);
    assert Insert(a, x, second) == Entry(a, x, second);
    assert Canon(Arr(Cons(v, Cons(w, Nil)))) == Arr(Cons(x, Cons(y, Nil)));
    assert CanonEntries(Entry(a, v, Entry(b, w, NoEntries))) == Entry(a, x, second);
    assert Sort(Entry(a, x, second)) == Entry(a, x, second);
    assert Canon(Obj(Entry(a, v, Entry(b, w, NoEntries)))) == Obj(Entry(a, x, second));
    assert CanonEntries(Entry(b, w, Entry(a, v, NoEntries))) == Entry(b, y, first);
    assert Sort(Entry(b, y, first)) == Entry(a, x, second);
    assert Canon(Obj(Entry(b, w, Entry(a, v, NoEntries)))) == Obj(Entry(a, x, second));
    TwoAreEmitted(a, x, b, y);
  }

  lemma TwoAreEmitted(a: string, x: Json, b: string, y: Json)
    ensures Emit(Arr(Cons(x, Cons(y, Nil)))) == "[" + Emit(x) + "," + Emit(y) + "]"
    ensures Emit(Obj(Entry(a, x, Entry(b, y, NoEntries))))
            == "{" + EmitString(a) + ":" + Emit(x) + "," + EmitString(b) + ":" + Emit(y) + "}"
  {
    hide EmitString;
    var s, t := Emit(x), Emit(y);
    assert EmitItems(Cons(y, Nil)) == t && EmitItems(Cons(x, Cons(y, Nil))) == s + "," + t;
    assert EmitEntries(Entry(b, y, NoEntries)) == EmitString(b) + ":" + t;
    assert EmitEntries(Entry(a, x, Entry(b, y, NoEntries)))
        == EmitString(a) + ":" + s + "," + (EmitString(b) + ":" + t);
    assert Emit(Arr(Cons(x, Cons(y, Nil)))) == "[" + EmitItems(Cons(x, Cons(y, Nil))) + "]";
    assert Emit(Obj(Entry(a, x, Entry(b, y, NoEntries))))
        == "{" + EmitEntries(Entry(a, x, Entry(b, y, NoEntries))) + "}";
    hide Emit, EmitItems, EmitEntries;
    ListConcat(s, t);
    DictConcat(EmitString(a), s, EmitString(b), t);
  }

  lemma ListConcat(s: string, t: string)
    ensures "[" + (s + "," + t) + "]" == "[" + s + "," + t + "]"
  {
  }

  lemma DictConcat(a: string, s: string, b: string, t: string)
    ensures "{" + (a + ":" + s + "," + (b + ":" + t)) + "}" == "{" + a + ":" + s + "," + b + ":" + t + "}"
  {
    assert "{" + (a + ":" + s + "," + (b + ":" + t)) == "{" + a + ":" + s + "," + b + ":" + t;
  }

  // ---------------------------------------------------------------- Canonical text identifies the value

  function CanonOption(v: Option<Json>): Option<Json> {
    if v.None? then None else Some(Canon(v.value))
  }

  lemma {:induction false} CanonFinds(entries: Entries, k: string)
    ensures Find(CanonEntries(entries), k) == CanonOption(Find(entries, k))
    ensures Size(CanonEntries(entries)) == Size(entries)
  {
    if entries.Entry? { CanonFinds(entries.rest, k); }
  }

  lemma {:induction false} CanonWellFormed(v: Json)
    requires WellFormed(v)
    ensures WellFormed(Canon(v))
  {
    match v
    case Arr(items) => CanonItemsWellFormed(items);
    case Obj(entries) =>
      CanonEntriesWellFormed(entries);
      SortWellFormed(CanonEntries(entries));
    case _ =>
  }

  lemma {:induction false} CanonItemsWellFormed(items: Items)
    requires WellFormedItems(items)
    ensures WellFormedItems(CanonItems(items))
  {
    if items.Cons? {
      CanonWellFormed(items.head);
      CanonItemsWellFormed(items.tail);
    }
  }

  lemma {:induction false} CanonEntriesWellFormed(entries: Entries)
    requires WellFormedEntries(entries)
    ensures WellFormedEntries(CanonEntries(entries))
  {
    if entries.Entry? {
      CanonWellFormed(entries.value);
      CanonEntriesWellFormed(entries.rest);
      CanonFinds(entries.rest, entries.key);
    }
  }

  lemma {:induction false} SortWellFormed(entries: Entries)
    requires WellFormedEntries(entries)
    ensures WellFormedEntries(Sort(entries))
  {
    if entries.Entry? {
      SortWellFormed(entries.rest);
      SortFinds(entries.rest, entries.key);
      InsertWellFormed(entries.key, entries.value, Sort(entries.rest));
    }
  }

  lemma InsertWellFormed(key: string, value: Json, entries: Entries)
    requires WellFormedEntries(entries) && WellFormed(value) && Find(entries, key) == None
    ensures WellFormedEntries(Insert(key, value, entries))
  {
    hide KeyLess;
    if entries.Entry? && !KeyLess(key, entries.key) {
      InsertWellFormed(key, value, entries.rest);
      InsertFinds(key, value, entries.rest, entries.key);
    }
  }

  function Keys(entries: Entries): set<string> {
    if entries.NoEntries? then {} else {entries.key} + Keys(entries.rest)
  }

  lemma {:induction false} KeysAre(entries: Entries)
    requires WellFormedEntries(entries)
    ensures |Keys(entries)| == Size(entries)
    ensures forall k :: k in Keys(entries) <==> Find(entries, k).Some?
  {
    if entries.Entry? { KeysAre(entries.rest); }
  }

  lemma {:induction false} WithinKeys(a: Entries, b: Entries)
    requires Within(a, b)
    ensures forall k :: Find(a, k).Some? ==> Find(b, k).Some?
  {
    if a.Entry? { WithinKeys(a.rest, b); }
  }

  lemma EqualSize(a: set<string>, b: set<string>)
    requires a <= b && |a| == |b|
    ensures a == b
  {
    assert b == a + (b - a);
    assert |b| == |a| + |b - a|;
    assert b - a == {};
  }

  lemma SameKeys(a: Entries, b: Entries)
    requires WellFormedEntries(a) && WellFormedEntries(b) && Size(a) == Size(b) && Within(a, b)
    ensures forall k :: Find(a, k).Some? <==> Find(b, k).Some?
  {
    WithinKeys(a, b);
    KeysAre(a);
    KeysAre(b);
    assert forall k :: k in Keys(a) ==> k in Keys(b);
    EqualSize(Keys(a), Keys(b));
  }

  // Two values have the same canonical form exactly when they are equal up to the order of keys.
  lemma {:induction false} CanonIdentifies(v: Json, w: Json)
    requires WellFormed(v) && WellFormed(w)
    ensures Canon(v) == Canon(w) <==> Same(v, w)
    decreases v
  {
    match (v, w)
    case (Arr(a), Arr(b)) => CanonItemsIdentify(a, b);
    case (Obj(a), Obj(b)) => CanonEntriesIdentify(a, b);
    case _ =>
  }

  lemma {:induction false} CanonItemsIdentify(a: Items, b: Items)
    requires WellFormedItems(a) && WellFormedItems(b)
    ensures CanonItems(a) == CanonItems(b) <==> SameItems(a, b)
    decreases a
  {
    if a.Cons? && b.Cons? {
      CanonIdentifies(a.head, b.head);
      CanonItemsIdentify(a.tail, b.tail);
    }
  }

  lemma {:induction false} CanonEntriesIdentify(a: Entries, b: Entries)
    requires WellFormedEntries(a) && WellFormedEntries(b)
    ensures Sort(CanonEntries(a)) == Sort(CanonEntries(b)) <==> Size(a) == Size(b) && Within(a, b)
    decreases a, 1
  {
    var x, y := Sort(CanonEntries(a)), Sort(CanonEntries(b));
    SortedCanonFinds(a);
    SortedCanonFinds(b);
    WithinIdentifies(a, b);
    if Size(a) == Size(b) && Within(a, b) {
      SameKeys(a, b);
      forall k ensures Find(x, k) == Find(y, k) {
        assert CanonAgrees(a, b, k);
        assert Find(a, k).Some? <==> Find(b, k).Some?;
      }
      AscendingUnique(x, y);
    } else {
      assert x == y ==> Size(a) == Size(b);
      assert x == y ==> forall k :: CanonAgrees(a, b, k);
    }
  }

  lemma SortedCanonFinds(entries: Entries)
    requires WellFormedEntries(entries)
    ensures var sorted := Sort(CanonEntries(entries));
            && Ascending(sorted) && Size(sorted) == Size(entries)
            && forall k :: Find(sorted, k) == CanonOption(Find(entries, k))
  {
    CanonEntriesWellFormed(entries);
    SortAscends(CanonEntries(entries));
    SortFinds(CanonEntries(entries), "");
    CanonFinds(entries, "");
    forall k ensures Find(Sort(CanonEntries(entries)), k) == CanonOption(Find(entries, k)) {
      SortFinds(CanonEntries(entries), k);
      CanonFinds(entries, k);
    }
  }

  predicate CanonAgrees(a: Entries, b: Entries, k: string) {
    Find(a, k).Some? ==> CanonOption(Find(a, k)) == CanonOption(Find(b, k))
  }

  lemma {:induction false} WithinIdentifies(a: Entries, b: Entries)
    requires WellFormedEntries(a) && WellFormedEntries(b)
    ensures Within(a, b) <==> forall k :: CanonAgrees(a, b, k)
    decreases a, 0
  {
    if a.Entry? {
      hide Canon, Same;
      WithinIdentifies(a.rest, b);
      if Find(b, a.key).Some? {
        FoundWellFormed(b, a.key);
        CanonIdentifies(a.value, Find(b, a.key).value);
      }
      assert CanonAgrees(a, b, a.key) <==> Find(b, a.key).Some? && Canon(a.value) == Canon(Find(b, a.key).value);
      forall k | k != a.key ensures CanonAgrees(a, b, k) <==> CanonAgrees(a.rest, b, k) {
      }
      assert CanonAgrees(a.rest, b, a.key);
    }
  }

  lemma FoundWellFormed(entries: Entries, k: string)
    requires WellFormedEntries(entries) && Find(entries, k).Some?
    ensures WellFormed(Find(entries, k).value)
  {
  }

  // ---------------------------------------------------------------- The text is ASCII

  predicate Ascii(s: string) {
    forall i :: 0 <= i < |s| ==> ' ' <= s[i] <= '~'
  }

  lemma CharAscii(c: char)
    ensures Ascii(EmitChar(c))
  {
    if c as int < 0x10000 {
      HexAscii(c as int);
    } else {
      var n := c as int - 0x10000;
      HexAscii(0xD800 + n / 0x400);
      HexAscii(0xDC00 + n % 0x400);
    }
    hide Hex4;
  }

  lemma HexAscii(n: nat)
    requires n < 0x10000
    ensures Ascii(Hex4(n)) && |Hex4(n)| == 4
  {
  }

  lemma {:induction false} CharsAscii(s: string)
    ensures Ascii(EmitChars(s))
  {
    hide EmitChar;
    if s != "" {
      CharAscii(s[0]);
      CharsAscii(s[1..]);
    }
  }

  lemma {:induction false} EmitAscii(v: Json)
    ensures Ascii(Emit(v))
  {
    hide EmitChars, Decimal;
    match v
    case Num(n) => DecimalRoundTrip(if n < 0 then -n else n);
    case Text(s) => CharsAscii(s);
    case Arr(items) => ItemsAscii(items);
    case Obj(entries) => EntriesAscii(entries);
    case _ =>
  }

  lemma {:induction false} ItemsAscii(items: Items)
    ensures Ascii(EmitItems(items))
  {
    if items.Cons? {
      EmitAscii(items.head);
      ItemsAscii(items.tail);
    }
  }

  lemma {:induction false} EntriesAscii(entries: Entries)
    ensures Ascii(EmitEntries(entries))
  {
    hide EmitChars, Emit;
    if entries.Entry? {
      CharsAscii(entries.key);
      EmitAscii(entries.value);
      EntriesAscii(entries.rest);
    }
  }
}
