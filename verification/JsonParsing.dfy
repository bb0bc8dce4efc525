/** Reading compact JSON text back: parsing undoes printing, so canonical text identifies the value. */
module JsonParsing {
  import opened Bytes
  import opened Board
  import opened DecimalText
  import opened CanonicalJson

  // ---------------------------------------------------------------- Parsing compact text

  function HexValue(c: char): Option<nat> {
    if '0' <= c <= '9' then Some(c as int - '0' as int)
    else if 'a' <= c <= 'f' then Some(c as int - 'a' as int + 10)
    else None
  }

  function ParseHex4(s: string): Option<nat> {
    if |s| < 4 then None
    else
      match (HexValue(s[0]), HexValue(s[1]), HexValue(s[2]), HexValue(s[3]))
      case (Some(a), Some(b), Some(c), Some(d)) => Some(a * 0x1000 + b * 0x100 + c * 0x10 + d)
      case _ => None
  }

  function ShortEscape(c: char): Option<char> {
    if c == '\"' || c == '\\' || c == '/' then Some(c)
    else if c == 'n' then Some('\n')
    else if c == 'r' then Some('\r')
    else if c == 't' then Some('\t')
    else if c == 'f' then Some(12 as char)
    else if c == 'b' then Some(8 as char)
    else None
  }

  // A character after \u, possibly written as a surrogate pair.
  function ParseUnicode(s: string): (r: Option<(char, string)>)
    ensures r.Some? ==> |r.value.1| < |s|
  {
    match ParseHex4(s)
    case None => None
    case Some(n) =>
      if n < 0xD800 || 0xE000 <= n < 0x10000 then Some((n as char, s[4..]))
      else if 0xD800 <= n < 0xDC00 && |s| >= 6 && s[4] == '\\' && s[5] == 'u' then
        match ParseHex4(s[6..])
        case None => None
        case Some(m) =>
          if 0xDC00 <= m < 0xE000
          then Some(((0x10000 + (n - 0xD800) * 0x400 + (m - 0xDC00)) as char, s[10..])) else None
      else None
  }

  // The first character of a string literal's contents, and what follows it.
  function ParseChar(s: string): (r: Option<(char, string)>)
    ensures r.Some? ==> |r.value.1| < |s|
  {
    if s == "" || s[0] == '\"' then None
    else if s[0] != '\\' then if ' ' <= s[0] <= '~' then Some((s[0], s[1..])) else None
    else if |s| < 2 then None
    else if s[1] == 'u' then ParseUnicode(s[2..])
    else if ShortEscape(s[1]).Some? then Some((ShortEscape(s[1]).value, s[2..]))
    else None
  }

  function ParseChars(s: string): (r: Option<(string, string)>)
    ensures r.Some? ==> |r.value.1| < |s|
    decreases |s|
  {
    if s == "" then None
    else if s[0] == '\"' then Some(("", s[1..]))
    else
      match ParseChar(s)
      case None => None
      case Some((c, rest)) =>
        match ParseChars(rest)
        case None => None
        case Some((more, after)) => Some(([c] + more, after))
  }

  function DigitRun(s: string): (n: nat)
    ensures n <= |s| && forall i :: 0 <= i < n ==> DigitChar(s[i])
  {
    if s == "" || !DigitChar(s[0]) then 0 else 1 + DigitRun(s[1..])
  }

  function AsBytes(digits: string): (r: Str)
    requires forall i :: 0 <= i < |digits| ==> DigitChar(digits[i])
    ensures |r| == |digits| && forall i :: 0 <= i < |r| ==> Digit(r[i]) && r[i] == digits[i] as int
  {
    if digits == "" then []
    else
      assert DigitChar(digits[0]);
      var first: byte := digits[0] as int;
      [first] + AsBytes(digits[1..])
  }

  predicate Delimited(rest: string) {
    rest == "" || rest[0] == ',' || rest[0] == ']' || rest[0] == '}'
  }

  function ParseNatural(s: string): (r: Option<(nat, string)>)
    ensures r.Some? ==> |r.value.1| < |s|
  {
    var n := DigitRun(s);
    if n == 0 || (n > 1 && s[0] == '0') || !Delimited(s[n..]) then None
    else Some((DecimalValue(AsBytes(s[..n])), s[n..]))
  }

  function ParseNumber(s: string): (r: Option<(Json, string)>)
    ensures r.Some? ==> |r.value.1| < |s|
  {
    if s != "" && s[0] == '-' then
      match ParseNatural(s[1..])
      case Some((n, rest)) => var m: int := n; Some((Num(-m), rest))
      case None => None
    else
      match ParseNatural(s)
      case Some((n, rest)) => Some((Num(n), rest))
      case None => None
  }

  function ParseValue(s: string): (r: Option<(Json, string)>)
    ensures r.Some? ==> |r.value.1| < |s|
    decreases |s|, 0
  {
    if s == "" then None
    else if s[0] == '\"' then
      match ParseChars(s[1..])
      case Some((text, rest)) => Some((Text(text), rest))
      case None => None
    else if s[0] == '[' then
      if |s| > 1 && s[1] == ']' then Some((Arr(Nil), s[2..]))
      else
        match ParseItems(s[1..])
        case Some((items, rest)) => Some((Arr(items), rest))
        case None => None
    else if s[0] == '{' then
      if |s| > 1 && s[1] == '}' then Some((Obj(NoEntries), s[2..]))
      else
        match ParseEntries(s[1..])
        case Some((entries, rest)) => Some((Obj(entries), rest))
        case None => None
    else if "null" <= s then Some((Null, s[4..]))
    else if "true" <= s then Some((Bool(true), s[4..]))
    else if "false" <= s then Some((Bool(false), s[5..]))
    else ParseNumber(s)
  }

  function ParseItems(s: string): (r: Option<(Items, string)>)
    ensures r.Some? ==> |r.value.1| < |s|
    decreases |s|, 1
  {
    match ParseValue(s)
    case None => None
    case Some((v, rest)) =>
      if rest == "" then None
      else if rest[0] == ']' then Some((Cons(v, Nil), rest[1..]))
      else if rest[0] == ',' then
        match ParseItems(rest[1..])
        case Some((more, after)) => Some((Cons(v, more), after))
        case None => None
      else None
  }

  function ParseEntries(s: string): (r: Option<(Entries, string)>)
    ensures r.Some? ==> |r.value.1| < |s|
    decreases |s|, 1
  {
    if s == "" || s[0] != '\"' then None
    else
      match ParseChars(s[1..])
      case None => None
      case Some((key, afterKey)) =>
        if afterKey == "" || afterKey[0] != ':' then None
        else
          match ParseValue(afterKey[1..])
          case None => None
          case Some((v, rest)) =>
            if rest == "" then None
            else if rest[0] == '}' then Some((Entry(key, v, NoEntries), rest[1..]))
            else if rest[0] == ',' then
              match ParseEntries(rest[1..])
              case Some((more, after)) => Some((Entry(key, v, more), after))
              case None => None
            else None
  }

  // json.loads; `other` stands for every text the printers never produce.
  function Loads(other: string -> Option<Json>, text: string): Option<Json> {
    match ParseValue(text)
    case Some((v, "")) => if WellFormed(v) then Some(v) else other(text)
    case _ => other(text)
  }

  // ---------------------------------------------------------------- Parsing undoes printing

  lemma HexDigitRoundTrip(n: nat)
    requires n < 16
    ensures HexValue(HexDigit(n)) == Some(n)
  {
  }

  lemma HexRoundTrip(n: nat)
    requires n < 0x10000
    ensures ParseHex4(Hex4(n)) == Some(n)
  {
    HexDigitRoundTrip(n / 0x1000);
    HexDigitRoundTrip(n / 0x100 % 0x10);
    HexDigitRoundTrip(n / 0x10 % 0x10);
    HexDigitRoundTrip(n % 0x10);
    hide HexDigit, HexValue;
    assert n / 0x10 / 0x10 == n / 0x100 && n / 0x100 / 0x10 == n / 0x1000;
  }

  lemma HexPrefix(s: string, rest: string)
    requires |s| == 4
    ensures ParseHex4(s + rest) == ParseHex4(s)
  {
  }

  lemma BasicRoundTrip(c: char, rest: string)
    requires c as int < 0x10000
    ensures ParseUnicode(Hex4(c as int) + rest) == Some((c, rest))
  {
    var n := c as int;
    HexRoundTrip(n);
    HexPrefix(Hex4(n), rest);
    assert (Hex4(n) + rest)[4..] == rest;
    hide Hex4, ParseHex4;
  }

  lemma PairRoundTrip(c: char, rest: string)
    requires c as int >= 0x10000
    ensures var n := c as int - 0x10000;
            ParseUnicode(Hex4(0xD800 + n / 0x400) + "\\u" + Hex4(0xDC00 + n % 0x400) + rest) == Some((c, rest))
  {
    var n := c as int - 0x10000;
    var high, low := Hex4(0xD800 + n / 0x400), Hex4(0xDC00 + n % 0x400);
    HexRoundTrip(0xD800 + n / 0x400);
    HexRoundTrip(0xDC00 + n % 0x400);
    HexPrefix(high, "\\u" + low + rest);
    HexPrefix(low, rest);
    hide Hex4, ParseHex4;
    var s := high + "\\u" + low + rest;
    assert s == high + ("\\u" + low + rest);
    assert s[4] == '\\' && s[5] == 'u';
    assert s[6..] == low + rest;
    assert s[10..] == rest;
    assert n == n / 0x400 * 0x400 + n % 0x400;
  }

  lemma CharRoundTrip(c: char, rest: string)
    ensures ParseChar(EmitChar(c) + rest) == Some((c, rest))
    ensures EmitChar(c) != "" && EmitChar(c)[0] != '\"'
  {
    var text := EmitChar(c);
    hide Hex4, ParseUnicode;
    if c == '\"' || c == '\\' || c == '\n' || c == '\r' || c == '\t' || c as int == 12 || c as int == 8 {
      assert (text + rest)[2..] == rest;
    } else if ' ' <= c <= '~' {
      assert (text + rest)[1..] == rest;
    } else if c as int < 0x10000 {
      BasicRoundTrip(c, rest);
      assert (text + rest)[2..] == Hex4(c as int) + rest;
    } else {
      PairRoundTrip(c, rest);
      var n := c as int - 0x10000;
      assert (text + rest)[2..] == Hex4(0xD800 + n / 0x400) + "\\u" + Hex4(0xDC00 + n % 0x400) + rest;
    }
  }

  lemma {:induction false} CharsRoundTrip(s: string, rest: string)
    ensures ParseChars(EmitChars(s) + "\"" + rest) == Some((s, rest))
  {
    hide EmitChar, ParseChar;
    if s != "" {
      var more := EmitChars(s[1..]) + "\"" + rest;
      CharRoundTrip(s[0], more);
      CharsRoundTrip(s[1..], rest);
      assert EmitChars(s) + "\"" + rest == EmitChar(s[0]) + more;
      assert s == [s[0]] + s[1..];
    } else {
      assert EmitChars(s) + "\"" + rest == "\"" + rest;
    }
  }

  lemma {:induction false} DigitRunIs(digits: string, rest: string)
    requires forall i :: 0 <= i < |digits| ==> DigitChar(digits[i])
    requires rest != "" ==> !DigitChar(rest[0])
    ensures DigitRun(digits + rest) == |digits|
  {
    if digits != "" {
      DigitRunIs(digits[1..], rest);
      assert (digits + rest)[1..] == digits[1..] + rest;
    } else {
      assert digits + rest == rest;
    }
  }

  lemma NaturalRoundTrip(n: nat, rest: string)
    requires Delimited(rest)
    ensures ParseNatural(AsText(Decimal(n)) + rest) == Some((n, rest))
    ensures DigitChar(AsText(Decimal(n))[0])
  {
    var digits := AsText(Decimal(n));
    DecimalRoundTrip(n);
    DigitRunIs(digits, rest);
    assert (digits + rest)[..|digits|] == digits;
    assert (digits + rest)[|digits|..] == rest;
    assert AsBytes(digits) == Decimal(n);
  }

  lemma ParseNegative(s: string)
    requires s != "" && s[0] == '-' && ParseNatural(s[1..]).Some?
    ensures ParseNumber(s) == Some((Num(-(ParseNatural(s[1..]).value.0 as int)), ParseNatural(s[1..]).value.1))
  {
    hide ParseNatural;
  }

  lemma ParsePositive(s: string)
    requires s != "" && s[0] != '-' && ParseNatural(s).Some?
    ensures ParseNumber(s) == Some((Num(ParseNatural(s).value.0), ParseNatural(s).value.1))
  {
    hide ParseNatural;
  }

  lemma NumberRoundTrip(n: int, rest: string)
    requires Delimited(rest)
    ensures ParseNumber(EmitNumber(n) + rest) == Some((Num(n), rest))
    ensures EmitNumber(n)[0] == '-' || DigitChar(EmitNumber(n)[0])
  {
    hide ParseNatural, ParseNumber, Decimal, AsText;
    var s := EmitNumber(n) + rest;
    if n < 0 {
      NaturalRoundTrip(-n, rest);
      assert s[1..] == AsText(Decimal(-n)) + rest;
      ParseNegative(s);
    } else {
      NaturalRoundTrip(n, rest);
      ParsePositive(s);
    }
  }

  // The first character of a value tells its kind, and is never a closing bracket.
  lemma EmitStarts(v: Json)
    ensures Emit(v) != "" && Emit(v)[0] != ']' && Emit(v)[0] != '}'
  {
    if v.Num? { NumberRoundTrip(v.number, ""); }
  }

  lemma KeywordRoundTrip(v: Json, rest: string)
    requires v.Null? || v.Bool?
    ensures ParseValue(Emit(v) + rest) == Some((v, rest))
  {
    hide ParseItems, ParseEntries, ParseChars, ParseNumber;
    var text := Emit(v);
    var s := text + rest;
    assert s[..|text|] == text && s[|text|..] == rest;
    assert s[0] == text[0];
    assert text <= s;
  }

  lemma ParseNumberValue(s: string)
    requires s != "" && (s[0] == '-' || DigitChar(s[0]))
    ensures ParseValue(s) == ParseNumber(s)
  {
    hide ParseNumber, ParseItems, ParseEntries, ParseChars;
    assert s[0] != 'n' && s[0] != 't' && s[0] != 'f';
  }

  lemma ParseTextValue(s: string)
    requires s != "" && s[0] == '\"' && ParseChars(s[1..]).Some?
    ensures ParseValue(s) == Some((Text(ParseChars(s[1..]).value.0), ParseChars(s[1..]).value.1))
  {
    hide ParseNumber, ParseItems, ParseEntries, ParseChars;
  }

  lemma ParseArray(s: string)
    requires |s| > 1 && s[0] == '[' && s[1] != ']' && ParseItems(s[1..]).Some?
    ensures ParseValue(s) == Some((Arr(ParseItems(s[1..]).value.0), ParseItems(s[1..]).value.1))
  {
    hide ParseNumber, ParseEntries, ParseChars;
  }

  lemma ParseObject(s: string)
    requires |s| > 1 && s[0] == '{' && s[1] != '}' && ParseEntries(s[1..]).Some?
    ensures ParseValue(s) == Some((Obj(ParseEntries(s[1..]).value.0), ParseEntries(s[1..]).value.1))
  {
    hide ParseNumber, ParseItems, ParseChars;
  }

  lemma EmptyRoundTrip(v: Json, rest: string)
    requires v == Arr(Nil) || v == Obj(NoEntries)
    ensures ParseValue(Emit(v) + rest) == Some((v, rest))
  {
    hide ParseNumber, ParseItems, ParseEntries, ParseChars;
    assert (Emit(v) + rest)[2..] == rest;
  }

  lemma ScalarRoundTrip(v: Json, rest: string)
    requires Delimited(rest) && !v.Arr? && !v.Obj?
    ensures ParseValue(Emit(v) + rest) == Some((v, rest))
  {
    hide ParseValue, ParseChars, ParseNumber, EmitNumber, EmitChars;
    var s := Emit(v) + rest;
    match v
    case Null => KeywordRoundTrip(v, rest);
    case Bool(_) => KeywordRoundTrip(v, rest);
    case Num(n) =>
      NumberRoundTrip(n, rest);
      ParseNumberValue(s);
    case Text(text) =>
      CharsRoundTrip(text, rest);
      assert s[1..] == EmitChars(text) + "\"" + rest;
      ParseTextValue(s);
  }

  lemma ArrayRoundTrip(items: Items, rest: string)
    requires items.Cons? && ParseItems(EmitItems(items) + "]" + rest) == Some((items, rest))
    ensures ParseValue(Emit(Arr(items)) + rest) == Some((Arr(items), rest))
  {
    hide ParseValue, ParseItems, EmitItems;
    var s := "[" + EmitItems(items) + "]" + rest;
    ItemsStart(items);
    assert s[1..] == EmitItems(items) + "]" + rest;
    ParseArray(s);
  }

  lemma ObjectRoundTrip(entries: Entries, rest: string)
    requires entries.Entry? && ParseEntries(EmitEntries(entries) + "}" + rest) == Some((entries, rest))
    ensures ParseValue(Emit(Obj(entries)) + rest) == Some((Obj(entries), rest))
  {
    hide ParseValue, ParseEntries, EmitEntries;
    var s := "{" + EmitEntries(entries) + "}" + rest;
    EntriesStart(entries);
    assert s[1..] == EmitEntries(entries) + "}" + rest;
    ParseObject(s);
  }

  lemma {:induction false} ValueRoundTrip(v: Json, rest: string)
    requires Delimited(rest)
    ensures ParseValue(Emit(v) + rest) == Some((v, rest))
    decreases v
  {
    hide ParseValue, ParseItems, ParseEntries, Emit, EmitItems, EmitEntries, Delimited;
    match v
    case Arr(items) =>
      if items.Nil? {
        EmptyRoundTrip(v, rest);
      } else {
        ItemsRoundTrip(items, rest);
        ArrayRoundTrip(items, rest);
      }
    case Obj(entries) =>
      if entries.NoEntries? {
        EmptyRoundTrip(v, rest);
      } else {
        EntriesRoundTrip(entries, rest);
        ObjectRoundTrip(entries, rest);
      }
    case _ => ScalarRoundTrip(v, rest);
  }

  lemma ItemsStart(items: Items)
    requires items.Cons?
    ensures EmitItems(items) != "" && EmitItems(items)[0] != ']'
  {
    hide Emit;
    EmitStarts(items.head);
  }

  lemma EntriesStart(entries: Entries)
    requires entries.Entry?
    ensures EmitEntries(entries) != "" && EmitEntries(entries)[0] == '\"'
  {
    hide Emit, EmitChars;
  }

  // One element and what follows it.
  lemma ParseItemsStep(s: string, v: Json, rest: string)
    requires ParseValue(s) == Some((v, rest)) && rest != ""
    ensures rest[0] == ']' ==> ParseItems(s) == Some((Cons(v, Nil), rest[1..]))
    ensures rest[0] == ',' && ParseItems(rest[1..]).Some? ==>
              ParseItems(s) ==
              Some((Cons(v, ParseItems(rest[1..]).value.0), ParseItems(rest[1..]).value.1))
  {
    hide ParseValue;
  }

  lemma {:induction false} ItemsRoundTrip(items: Items, rest: string)
    requires items.Cons?
    ensures ParseItems(EmitItems(items) + "]" + rest) == Some((items, rest))
    decreases items
  {
    hide ParseValue, ParseItems, Emit;
    var s := EmitItems(items) + "]" + rest;
    if items.tail.Nil? {
      var after := "]" + rest;
      ValueRoundTrip(items.head, after);
      assert s == Emit(items.head) + after && after[1..] == rest;
      ParseItemsStep(s, items.head, after);
    } else {
      var more := EmitItems(items.tail) + "]" + rest;
      var after := "," + more;
      ValueRoundTrip(items.head, after);
      ItemsRoundTrip(items.tail, rest);
      assert s == Emit(items.head) + after && after[1..] == more;
      ParseItemsStep(s, items.head, after);
    }
  }

  // One key with its value, and what follows them.
  lemma ParseEntriesStep(s: string, key: string, value: string, v: Json, rest: string)
    requires s != "" && s[0] == '\"' && ParseChars(s[1..]) == Some((key, value))
    requires value != "" && value[0] == ':' && ParseValue(value[1..]) == Some((v, rest)) && rest != ""
    ensures rest[0] == '}' ==> ParseEntries(s) == Some((Entry(key, v, NoEntries), rest[1..]))
    ensures rest[0] == ',' && ParseEntries(rest[1..]).Some? ==>
              ParseEntries(s) ==
              Some((Entry(key, v, ParseEntries(rest[1..]).value.0), ParseEntries(rest[1..]).value.1))
  {
    hide ParseValue, ParseChars;
  }

  // The text of the first entry, up to what follows it.
  lemma FirstEntryText(entries: Entries, closing: string)
    requires entries.Entry?
    ensures var after := if entries.rest.NoEntries? then closing else "," + (EmitEntries(entries.rest) + closing);
            EmitEntries(entries) + closing ==
            "\"" + (EmitChars(entries.key) + "\"" + (":" + (Emit(entries.value) + after)))
  {
    hide EmitChars, Emit;
  }

  lemma {:induction false} EntriesRoundTrip(entries: Entries, rest: string)
    requires entries.Entry?
    ensures ParseEntries(EmitEntries(entries) + "}" + rest) == Some((entries, rest))
    decreases entries
  {
    hide EmitChars, ParseChars, Emit, ParseValue, ParseEntries, EmitEntries;
    var closing := "}" + rest;
    var s := EmitEntries(entries) + closing;
    assert EmitEntries(entries) + "}" + rest == s;
    var more := EmitEntries(entries.rest) + closing;
    var after := if entries.rest.NoEntries? then closing else "," + more;
    var value := ":" + (Emit(entries.value) + after);
    FirstEntryText(entries, closing);
    ValueRoundTrip(entries.value, after);
    CharsRoundTrip(entries.key, value);
    assert s[1..] == EmitChars(entries.key) + "\"" + value;
    assert value[1..] == Emit(entries.value) + after;
    if entries.rest.Entry? {
      EntriesRoundTrip(entries.rest, rest);
      assert EmitEntries(entries.rest) + "}" + rest == more;
      assert after[1..] == more;
    } else {
      assert after[1..] == rest;
    }
    ParseEntriesStep(s, entries.key, value, entries.value, after);
  }

  // Canonical text ignores the order of keys, and nothing else.
  lemma PrintIdentifies(v: Json, w: Json)
    requires WellFormed(v) && WellFormed(w)
    ensures Print(v) == Print(w) <==> Same(v, w)
  {
    CanonIdentifies(v, w);
    ValueRoundTrip(Canon(v), "");
    ValueRoundTrip(Canon(w), "");
    assert Print(v) + "" == Print(v) && Print(w) + "" == Print(w);
  }

  // Reading canonical text back gives the value with its keys sorted.
  lemma LoadsPrint(other: string -> Option<Json>, v: Json)
    requires WellFormed(v)
    ensures Loads(other, Print(v)) == Some(Canon(v))
  {
    ValueRoundTrip(Canon(v), "");
    CanonWellFormed(v);
    assert Print(v) + "" == Print(v);
  }
}
