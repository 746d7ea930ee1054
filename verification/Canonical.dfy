// stableStringify of server.ts: the canonical text of a JSON value, and a decoder
// that undoes it. Two values have the same text exactly when they are equal up to
// the order of object keys, as long as no key contains a double quote with a colon
// right after it.
module Canonical {
  import opened Text
  import opened Order

  type Entry = (string, Json)

  // A number is the text JavaScript prints for it.
  datatype Json =
    | JNull
    | JBool(b: bool)
    | JNumber(numeral: string)
    | JString(s: string)
    | JArray(items: seq<Json>)
    | JObject(entries: seq<Entry>)

  // A value with the order of its keys forgotten.
  datatype Meaning =
    | MNull
    | MBool(b: bool)
    | MNumber(numeral: string)
    | MString(s: string)
    | MArray(items: seq<Meaning>)
    | MObject(members: map<string, Meaning>)

  function KeysOf(entries: seq<Entry>): (r: seq<string>)
    ensures |r| == |entries| && forall i :: 0 <= i < |entries| ==> r[i] == entries[i].0
  {
    seq(|entries|, i requires 0 <= i < |entries| => entries[i].0)
  }

  predicate IsNumberChar(c: char) {
    IsDigit(c) || c == '-' || c == '+' || c == '.' || c == 'e' || c == 'E'
  }

  ghost predicate IsNumeral(s: string) {
    s != [] && (IsDigit(s[0]) || s[0] == '-') && forall i :: 0 <= i < |s| ==> IsNumberChar(s[i])
  }

  // What JSON.parse can return: keys of an object are distinct.
  ghost predicate Valid(v: Json)
    decreases v
  {
    match v
    case JNumber(numeral) => IsNumeral(numeral)
    case JArray(items) => forall x :: x in items ==> Valid(x)
    case JObject(entries) => Distinct(KeysOf(entries)) && forall e :: e in entries ==> Valid(e.1)
    case _ => true
  }

  // No double quote with a colon right after it, which is how a printed key ends.
  ghost predicate Clear(key: string) {
    forall i :: 0 <= i < |key| - 1 ==> !(key[i] == '"' && key[i + 1] == ':')
  }

  ghost predicate ClearKeys(v: Json)
    decreases v
  {
    match v
    case JArray(items) => forall x :: x in items ==> ClearKeys(x)
    case JObject(entries) => forall e :: e in entries ==> Clear(e.0) && ClearKeys(e.1)
    case _ => true
  }

  function MeaningOf(v: Json): Meaning
    decreases v
  {
    match v
    case JNull => MNull
    case JBool(b) => MBool(b)
    case JNumber(numeral) => MNumber(numeral)
    case JString(s) => MString(s)
    case JArray(items) => MArray(MeaningsOf(items))
    case JObject(entries) => MObject(Members(v, entries))
  }

  function MeaningsOf(items: seq<Json>): (r: seq<Meaning>)
    ensures |r| == |items| && forall i :: 0 <= i < |items| ==> r[i] == MeaningOf(items[i])
    decreases items
  {
    if items == [] then [] else [MeaningOf(items[0])] + MeaningsOf(items[1..])
  }

  function Members(obj: Json, entries: seq<Entry>): map<string, Meaning>
    requires obj.JObject? && forall e :: e in entries ==> e in obj.entries
    decreases obj, |entries|
  {
    if entries == [] then map[]
    else
      assert entries[0] in obj.entries;
      Members(obj, entries[1..])[entries[0].0 := MeaningOf(entries[0].1)]
  }

  // ---------- the printer ----------

  function HexDigit(d: nat): (c: char)
    requires d < 16
  {
    if d < 10 then (d + 48) as char else (d + 87) as char
  }

  // JSON string escapes, section 7 of RFC 8259, as JSON.stringify chooses them.
  function Escape(c: char): string {
    if c == '"' then "\\\""
    else if c == '\\' then "\\\\"
    else if c as int == 8 then "\\b"
    else if c as int == 12 then "\\f"
    else if c as int == 10 then "\\n"
    else if c as int == 13 then "\\r"
    else if c as int == 9 then "\\t"
    else if c as int < 32 then "\\u00" + [HexDigit(c as int / 16), HexDigit(c as int % 16)]
    else [c]
  }

  function EscapeAll(s: string): string {
    if s == [] then "" else Escape(s[0]) + EscapeAll(s[1..])
  }

  function Find(entries: seq<Entry>, key: string): (e: Entry)
    requires key in KeysOf(entries)
    ensures e in entries && e.0 == key
  {
    assert entries[0].0 != key ==> key in KeysOf(entries)[1..];
    assert KeysOf(entries)[1..] == KeysOf(entries[1..]);
    if entries[0].0 == key then entries[0] else Find(entries[1..], key)
  }

  // The entries in the order their keys are visited.
  function Pick(entries: seq<Entry>, keys: seq<string>): (r: seq<Entry>)
    requires forall k :: k in keys ==> k in KeysOf(entries)
    ensures |r| == |keys| && forall i :: 0 <= i < |keys| ==> r[i] in entries && r[i].0 == keys[i]
  {
    if keys == [] then [] else [Find(entries, keys[0])] + Pick(entries, keys[1..])
  }

  function SortEntries(entries: seq<Entry>): (r: seq<Entry>)
    ensures forall e :: e in r ==> e in entries
  {
    var keys := Sort(Utf16, KeysOf(entries));
    assert forall k :: k in keys ==> k in multiset(keys) && k in multiset(KeysOf(entries));
    Pick(entries, keys)
  }

  // An object is printed by its own keys in the order of UTF-16, every one as often as it
  // has it.
  lemma {:induction false} KeysInOrder(entries: seq<Entry>)
    ensures Sorted(Utf16, KeysOf(SortEntries(entries)))
    ensures multiset(KeysOf(SortEntries(entries))) == multiset(KeysOf(entries))
  {
    var keys := Sort(Utf16, KeysOf(entries));
    SortSorted(Utf16, KeysOf(entries));
    assert KeysOf(SortEntries(entries)) == keys;
  }

  // Only these characters are escaped, all by a backslash: the quote (34), the backslash
  // (92) and the controls below the space, five of which have a letter and the others u,
  // two zeros and their two hexadecimal digits.
  lemma {:induction false} EscapesAre(c: char)
    ensures Escape(c) == [c] <==> c as int >= 32 && c as int != 34 && c as int != 92
    ensures c as int == 34 || c as int == 92 ==> Escape(c) == [92 as char, c]
    ensures Escape(8 as char) == [92 as char, 'b'] && Escape(9 as char) == [92 as char, 't']
    ensures Escape(10 as char) == [92 as char, 'n'] && Escape(12 as char) == [92 as char, 'f']
    ensures Escape(13 as char) == [92 as char, 'r']
    ensures c as int < 32 && c as int !in {8, 9, 10, 12, 13} ==>
              |Escape(c)| == 6 && Escape(c)[..4] == [92 as char, 'u', '0', '0']
  {
    assert |Escape(c)| == 1 ==> Escape(c) == [c];
  }

  function Stringify(v: Json): string
    decreases v
  {
    match v
    case JNull => "null"
    case JBool(b) => if b then "true" else "false"
    case JNumber(numeral) => numeral
    case JString(s) => "\"" + EscapeAll(s) + "\""
    case JArray(items) => "[" + Join(ItemTexts(items), ",") + "]"
    case JObject(entries) => "{" + Join(EntryTexts(v, SortEntries(entries)), ",") + "}"
  }

  function ItemTexts(items: seq<Json>): seq<string>
    decreases items
  {
    if items == [] then [] else [Stringify(items[0])] + ItemTexts(items[1..])
  }

  // The key is written as it is, between quotes.
  function EntryTexts(obj: Json, entries: seq<Entry>): seq<string>
    requires obj.JObject? && forall e :: e in entries ==> e in obj.entries
    decreases obj, |entries|
  {
    if entries == [] then []
    else
      assert entries[0] in obj.entries;
      ["\"" + entries[0].0 + "\":" + Stringify(entries[0].1)] + EntryTexts(obj, entries[1..])
  }

  // ---------- the decoder ----------

  datatype Read<+T> = Fail | Got(value: T, rest: string)

  predicate StartsWith(s: string, c: char) {
    s != [] && s[0] == c
  }

  function HexValue(c: char): Option<nat> {
    if '0' <= c <= '9' then Some(c as int - 48)
    else if 'a' <= c <= 'f' then Some(c as int - 87)
    else None
  }

  // The character after a backslash.
  function Unescape(c: char): Option<char> {
    if c == '"' || c == '\\' then Some(c)
    else if c == 'b' then Some(8 as char)
    else if c == 'f' then Some(12 as char)
    else if c == 'n' then Some(10 as char)
    else if c == 'r' then Some(13 as char)
    else if c == 't' then Some(9 as char)
    else None
  }

  // One character of a string, escaped or not.
  function ReadChar(s: string): (r: Read<char>)
    ensures r.Got? ==> |r.rest| < |s|
  {
    if s == [] || s[0] == '"' then Fail
    else if s[0] != '\\' then Got(s[0], s[1..])
    else if |s| >= 6 && s[1] == 'u' && s[2] == '0' && s[3] == '0' && HexValue(s[4]).Some? && HexValue(s[5]).Some? then
      Got((16 * HexValue(s[4]).value + HexValue(s[5]).value) as char, s[6..])
    else if |s| >= 2 && Unescape(s[1]).Some? then Got(Unescape(s[1]).value, s[2..])
    else Fail
  }

  // The rest of a string, up to its closing quote.
  function ReadString(s: string): (r: Read<string>)
    ensures r.Got? ==> |r.rest| < |s|
    decreases |s|
  {
    if StartsWith(s, '"') then Got("", s[1..])
    else
      match ReadChar(s)
      case Fail => Fail
      case Got(c, rest) =>
        match ReadString(rest)
        case Fail => Fail
        case Got(cs, rest') => Got([c] + cs, rest')
  }

  // The key, and what follows the quote and colon after it.
  function ReadKey(s: string): (r: Read<string>)
    ensures r.Got? ==> |r.rest| < |s|
    decreases |s|
  {
    if s == [] then Fail
    else if s[0] == '"' && StartsWith(s[1..], ':') then Got("", s[2..])
    else
      match ReadKey(s[1..])
      case Fail => Fail
      case Got(key, rest) => Got([s[0]] + key, rest)
  }

  function ReadValue(s: string): (r: Read<Meaning>)
    ensures r.Got? ==> |r.rest| < |s|
    decreases |s|, 0
  {
    if "null" <= s then Got(MNull, s[4..])
    else if "true" <= s then Got(MBool(true), s[4..])
    else if "false" <= s then Got(MBool(false), s[5..])
    else if StartsWith(s, '"') then
      match ReadString(s[1..])
      case Got(x, rest) => Got(MString(x), rest)
      case Fail => Fail
    else if StartsWith(s, '[') then
      if StartsWith(s[1..], ']') then Got(MArray([]), s[2..])
      else match ReadItems(s[1..])
        case Got(items, rest) => Got(MArray(items), rest)
        case Fail => Fail
    else if StartsWith(s, '{') then
      if StartsWith(s[1..], '}') then Got(MObject(map[]), s[2..])
      else match ReadEntries(s[1..])
        case Got(members, rest) => Got(MObject(members), rest)
        case Fail => Fail
    else
      var n := SpanLength(s, IsNumberChar);
      if n > 0 then Got(MNumber(s[..n]), s[n..]) else Fail
  }

  // value, value, ... ]
  function ReadItems(s: string): (r: Read<seq<Meaning>>)
    ensures r.Got? ==> |r.rest| < |s|
    decreases |s|, 1
  {
    match ReadValue(s)
    case Fail => Fail
    case Got(x, rest) =>
      if StartsWith(rest, ']') then Got([x], rest[1..])
      else if StartsWith(rest, ',') then
        match ReadItems(rest[1..])
        case Got(xs, rest') => Got([x] + xs, rest')
        case Fail => Fail
      else Fail
  }

  // "key":value, "key":value, ... }
  function ReadEntries(s: string): (r: Read<map<string, Meaning>>)
    ensures r.Got? ==> |r.rest| < |s|
    decreases |s|, 1
  {
    if !StartsWith(s, '"') then Fail else
    match ReadKey(s[1..])
    case Fail => Fail
    case Got(key, afterKey) =>
      match ReadValue(afterKey)
      case Fail => Fail
      case Got(x, rest) =>
        if StartsWith(rest, '}') then Got(map[key := x], rest[1..])
        else if StartsWith(rest, ',') then
          match ReadEntries(rest[1..])
          case Got(members, rest') => Got(members[key := x], rest')
          case Fail => Fail
        else Fail
  }

  // ---------- decoding undoes printing ----------

  // Nothing that could continue a number follows.
  ghost predicate Ends(rest: string) {
    rest == [] || !IsNumberChar(rest[0])
  }

  lemma {:induction false} ReadEscape(c: char, rest: string)
    ensures ReadChar(Escape(c) + rest) == Got(c, rest)
  {
    var s := Escape(c) + rest;
    var n := c as int;
    if c == '"' || c == '\\' || n == 8 || n == 12 || n == 10 || n == 13 || n == 9 {
      assert s[2..] == rest;
    } else if n < 32 {
      assert s[4] == HexDigit(n / 16) && s[5] == HexDigit(n % 16);
      assert s[6..] == rest;
    } else {
      assert s[1..] == rest;
    }
  }

  lemma {:induction false} ReadStringStep(c: char, tail: string)
    requires ReadString(tail).Got?
    ensures ReadString(Escape(c) + tail) == Got([c] + ReadString(tail).value, ReadString(tail).rest)
  {
    ReadEscape(c, tail);
    assert (Escape(c) + tail)[0] == Escape(c)[0];
    assert Escape(c)[0] != '"';
    hide Escape, ReadChar;
  }

  lemma {:induction false} ReadEscapeAll(x: string, rest: string)
    ensures ReadString(EscapeAll(x) + "\"" + rest) == Got(x, rest)
  {
    hide Escape, ReadString;
    var s := EscapeAll(x) + "\"" + rest;
    if x == [] {
      assert s == ['"'] + rest;
      ReadClosingQuote(rest);
    } else {
      var tail := EscapeAll(x[1..]) + "\"" + rest;
      assert s == Escape(x[0]) + tail;
      ReadEscapeAll(x[1..], rest);
      ReadStringStep(x[0], tail);
      assert x == [x[0]] + x[1..];
    }
  }

  lemma {:induction false} ReadClosingQuote(rest: string)
    ensures ReadString(['"'] + rest) == Got("", rest)
  {
    assert (['"'] + rest)[1..] == rest;
  }

  lemma {:induction false} ReadRawKey(key: string, rest: string)
    requires Clear(key)
    ensures ReadKey(key + "\":" + rest) == Got(key, rest)
    decreases |key|
  {
    var s := key + "\":" + rest;
    if key == [] {
      assert s[1..] == [':'] + rest && s[2..] == rest;
    } else {
      var tail := key[1..] + "\":" + rest;
      assert s == [key[0]] + tail;
      assert Clear(key[1..]) by {
        assert forall i :: 0 <= i < |key| - 1 ==> key[1..][i] == key[i + 1];
      }
      ReadRawKey(key[1..], rest);
      if |key| > 1 {
        assert s[1..][0] == key[1];
      } else {
        assert s[1..][0] == '"';
      }
      assert [key[0]] + key[1..] == key;
    }
  }

  // The first character tells the values apart, and is no closing bracket.
  lemma {:induction false} FirstChar(v: Json)
    requires Valid(v)
    ensures Stringify(v) != []
    ensures var c := Stringify(v)[0];
            match v
            case JNull => c == 'n'
            case JBool(b) => c == if b then 't' else 'f'
            case JNumber(_) => IsDigit(c) || c == '-'
            case JString(_) => c == '"'
            case JArray(_) => c == '['
            case JObject(_) => c == '{'
  {
  }

  lemma {:induction false} ReadWord(rest: string)
    ensures ReadValue("null" + rest) == Got(MNull, rest)
    ensures ReadValue("true" + rest) == Got(MBool(true), rest)
    ensures ReadValue("false" + rest) == Got(MBool(false), rest)
  {
    assert ("null" + rest)[4..] == rest;
    assert ("true" + rest)[0] == 't' && ("true" + rest)[4..] == rest;
    assert ("false" + rest)[0] == 'f' && ("false" + rest)[5..] == rest;
  }

  lemma {:induction false} ReadNumeral(numeral: string, rest: string)
    requires IsNumeral(numeral) && Ends(rest)
    ensures ReadValue(numeral + rest) == Got(MNumber(numeral), rest)
  {
    var s := numeral + rest;
    SpanLengthIs(s, IsNumberChar, |numeral|);
    assert s[0] == numeral[0];
    assert s[..|numeral|] == numeral && s[|numeral|..] == rest;
  }

  lemma {:induction false} ReadQuoted(x: string, rest: string)
    ensures ReadValue("\"" + EscapeAll(x) + "\"" + rest) == Got(MString(x), rest)
  {
    hide EscapeAll, ReadString;
    var s := "\"" + EscapeAll(x) + "\"" + rest;
    assert s[0] == '"' && s[1..] == EscapeAll(x) + "\"" + rest;
    ReadEscapeAll(x, rest);
  }

  lemma {:induction false} ReadBracket(body: string)
    ensures StartsWith(body, ']') ==> ReadValue(['['] + body) == Got(MArray([]), body[1..])
    ensures !StartsWith(body, ']') && ReadItems(body).Got? ==>
              ReadValue(['['] + body) == Got(MArray(ReadItems(body).value), ReadItems(body).rest)
  {
    hide ReadItems;
    var s := ['['] + body;
    assert s[0] == '[' && s[1..] == body;
    assert body != [] ==> s[2..] == body[1..];
  }

  lemma {:induction false} ReadBrace(body: string)
    ensures StartsWith(body, '}') ==> ReadValue(['{'] + body) == Got(MObject(map[]), body[1..])
    ensures !StartsWith(body, '}') && ReadEntries(body).Got? ==>
              ReadValue(['{'] + body) == Got(MObject(ReadEntries(body).value), ReadEntries(body).rest)
  {
    hide ReadEntries;
    var s := ['{'] + body;
    assert s[0] == '{' && s[1..] == body;
    assert body != [] ==> s[2..] == body[1..];
  }

  lemma {:induction false} RoundTrip(v: Json, rest: string)
    requires Valid(v) && ClearKeys(v) && Ends(rest)
    ensures ReadValue(Stringify(v) + rest) == Got(MeaningOf(v), rest)
    decreases v, 1
  {
    hide ReadValue;
    match v {
      case JNull => ReadWord(rest);
      case JBool(b) => ReadWord(rest);
      case JNumber(numeral) => ReadNumeral(numeral, rest);
      case JString(x) => ReadQuoted(x, rest);
      case JArray(items) => ArrayRoundTrip(v, rest);
      case JObject(entries) => ObjectRoundTrip(v, rest);
    }
  }

  lemma {:induction false} ArrayRoundTrip(v: Json, rest: string)
    requires v.JArray? && Valid(v) && ClearKeys(v)
    ensures ReadValue(Stringify(v) + rest) == Got(MeaningOf(v), rest)
    decreases v, 0
  {
    hide ReadItems, ReadValue, Stringify;
    var body := Join(ItemTexts(v.items), ",") + "]" + rest;
    StringifyArray(v);
    assert Stringify(v) + rest == ['['] + body;
    ReadBracket(body);
    if v.items == [] {
      assert body == [']'] + rest;
      assert body[1..] == rest;
    } else {
      ItemsRoundTrip(v.items, rest);
      FirstChar(v.items[0]);
      JoinStarts(ItemTexts(v.items), ",");
    }
  }

  lemma {:induction false} StringifyArray(v: Json)
    requires v.JArray?
    ensures Stringify(v) == "[" + Join(ItemTexts(v.items), ",") + "]"
  {
  }

  lemma {:induction false} StringifyObject(v: Json)
    requires v.JObject?
    ensures Stringify(v) == "{" + Join(EntryTexts(v, SortEntries(v.entries)), ",") + "}"
  {
  }

  lemma {:induction false} JoinStarts(parts: seq<string>, separator: string)
    requires parts != [] && parts[0] != []
    ensures Join(parts, separator) != [] && Join(parts, separator)[0] == parts[0][0]
  {
  }

  lemma {:induction false} ItemsRoundTrip(items: seq<Json>, rest: string)
    requires items != [] && forall x :: x in items ==> Valid(x) && ClearKeys(x)
    ensures ReadItems(Join(ItemTexts(items), ",") + "]" + rest) == Got(MeaningsOf(items), rest)
    decreases items, 0
  {
    hide ReadValue, Stringify, ReadItems, MeaningOf;
    var first := Stringify(items[0]);
    var s := Join(ItemTexts(items), ",") + "]" + rest;
    if |items| == 1 {
      assert ItemTexts(items) == [first];
      assert s == first + ([']'] + rest);
      RoundTrip(items[0], [']'] + rest);
      ReadItemsStep(s, MeaningOf(items[0]), [']'] + rest);
      assert ([']'] + rest)[1..] == rest;
      assert MeaningsOf(items) == [MeaningOf(items[0])];
    } else {
      var tail := Join(ItemTexts(items[1..]), ",") + "]" + rest;
      assert s == first + ([','] + tail);
      RoundTrip(items[0], [','] + tail);
      ReadItemsStep(s, MeaningOf(items[0]), [','] + tail);
      assert ([','] + tail)[1..] == tail;
      ItemsRoundTrip(items[1..], rest);
    }
  }

  lemma {:induction false} ReadItemsStep(s: string, x: Meaning, after: string)
    requires ReadValue(s) == Got(x, after)
    ensures StartsWith(after, ']') ==> ReadItems(s) == Got([x], after[1..])
    ensures StartsWith(after, ',') && ReadItems(after[1..]).Got? ==>
              ReadItems(s) == Got([x] + ReadItems(after[1..]).value, ReadItems(after[1..]).rest)
  {
    hide ReadValue;
  }

  lemma {:induction false} ReadEntriesStep(key: string, s: string, x: Meaning, after: string)
    requires Clear(key) && ReadValue(s) == Got(x, after)
    ensures StartsWith(after, '}') ==> ReadEntries("\"" + key + "\":" + s) == Got(map[key := x], after[1..])
    ensures StartsWith(after, ',') && ReadEntries(after[1..]).Got? ==>
              ReadEntries("\"" + key + "\":" + s) == Got(ReadEntries(after[1..]).value[key := x], ReadEntries(after[1..]).rest)
  {
    hide ReadValue, ReadKey, Clear;
    var whole := "\"" + key + "\":" + s;
    assert whole[1..] == key + "\":" + s;
    ReadRawKey(key, s);
  }

  lemma {:induction false} EntriesRoundTrip(v: Json, es: seq<Entry>, rest: string)
    requires v.JObject? && Valid(v) && ClearKeys(v) && es != [] && forall e :: e in es ==> e in v.entries
    ensures ReadEntries(Join(EntryTexts(v, es), ",") + "}" + rest) == Got(Members(v, es), rest)
    decreases v, 0, |es|
  {
    hide ReadValue, Stringify, ReadEntries, MeaningOf;
    assert es[0] in v.entries;
    var key, first := es[0].0, Stringify(es[0].1);
    var text := "\"" + key + "\":" + first;
    var s := Join(EntryTexts(v, es), ",") + "}" + rest;
    if |es| == 1 {
      var more := ['}'] + rest;
      assert EntryTexts(v, es) == [text];
      assert s == "\"" + key + "\":" + (first + more);
      RoundTrip(es[0].1, more);
      ReadEntriesStep(key, first + more, MeaningOf(es[0].1), more);
      assert more[1..] == rest;
      assert Members(v, es) == map[key := MeaningOf(es[0].1)];
    } else {
      var tail := Join(EntryTexts(v, es[1..]), ",") + "}" + rest;
      var more := [','] + tail;
      assert EntryTexts(v, es) == [text] + EntryTexts(v, es[1..]);
      assert s == text + more;
      assert s == "\"" + key + "\":" + (first + more);
      RoundTrip(es[0].1, more);
      ReadEntriesStep(key, first + more, MeaningOf(es[0].1), more);
      assert more[1..] == tail;
      EntriesRoundTrip(v, es[1..], rest);
    }
  }

  lemma {:induction false} ObjectRoundTrip(v: Json, rest: string)
    requires v.JObject? && Valid(v) && ClearKeys(v)
    ensures ReadValue(Stringify(v) + rest) == Got(MeaningOf(v), rest)
    decreases v, 0
  {
    hide ReadEntries, ReadValue, Stringify, SortEntries, MeaningOf;
    var es := SortEntries(v.entries);
    var body := Join(EntryTexts(v, es), ",") + "}" + rest;
    StringifyObject(v);
    assert Stringify(v) + rest == ['{'] + body;
    SortedMembers(v);
    ReadBrace(body);
    if es == [] {
      assert body == ['}'] + rest;
      assert body[1..] == rest;
    } else {
      EntriesRoundTrip(v, es, rest);
      JoinStarts(EntryTexts(v, es), ",");
      assert body[0] == '"';
    }
  }

  // ---------- sorting the entries keeps their meaning ----------

  lemma {:induction false} MembersLookup(v: Json, es: seq<Entry>)
    requires v.JObject? && (forall e :: e in es ==> e in v.entries) && Distinct(KeysOf(es))
    ensures Members(v, es).Keys == Elements(KeysOf(es))
    ensures forall e :: e in es ==> e.0 in Members(v, es) && Members(v, es)[e.0] == MeaningOf(e.1)
    decreases |es|
  {
    if es != [] {
      hide MeaningOf;
      assert es[0] in v.entries;
      assert KeysOf(es)[1..] == KeysOf(es[1..]);
      assert KeysOf(es) == [es[0].0] + KeysOf(es[1..]);
      MembersLookup(v, es[1..]);
      forall e | e in es ensures e.0 in Members(v, es) && Members(v, es)[e.0] == MeaningOf(e.1) {
        if e != es[0] {
          var i :| 0 <= i < |es| && es[i] == e;
          assert KeysOf(es)[i] != KeysOf(es)[0];
          assert e == es[1..][i - 1];
        }
      }
    }
  }

  // The entry of a key is the only one with that key.
  lemma {:induction false} SortedKeysOf(entries: seq<Entry>)
    requires Distinct(KeysOf(entries))
    ensures var es := SortEntries(entries);
            && StrictlySorted(Utf16, KeysOf(es)) && Distinct(KeysOf(es))
            && Elements(KeysOf(es)) == Elements(KeysOf(entries))
  {
    hide Sort;
    SortStrict(Utf16, KeysOf(entries));
    assert KeysOf(SortEntries(entries)) == Sort(Utf16, KeysOf(entries));
  }

  lemma {:induction false} MeaningOfObject(v: Json)
    requires v.JObject?
    ensures MeaningOf(v) == MObject(Members(v, v.entries))
  {
  }

  lemma {:induction false} MemberOf(v: Json, es: seq<Entry>, k: string)
    requires v.JObject? && Distinct(KeysOf(v.entries))
    requires (forall e :: e in es ==> e in v.entries) && Distinct(KeysOf(es)) && k in KeysOf(es)
    ensures k in Members(v, es) && k in Members(v, v.entries) && Members(v, es)[k] == Members(v, v.entries)[k]
  {
    hide Members, MeaningOf;
    MembersLookup(v, es);
    MembersLookup(v, v.entries);
    var i :| 0 <= i < |es| && KeysOf(es)[i] == k;
    assert es[i] in es && es[i] in v.entries && es[i].0 == k;
  }

  // Members depend on the entries as a set.
  lemma {:induction false} MembersOfReordered(v: Json, es: seq<Entry>)
    requires v.JObject? && Distinct(KeysOf(v.entries))
    requires (forall e :: e in es ==> e in v.entries) && Distinct(KeysOf(es))
    requires Elements(KeysOf(es)) == Elements(KeysOf(v.entries))
    ensures Members(v, es) == Members(v, v.entries)
  {
    hide Members, MeaningOf, Distinct;
    MembersLookup(v, es);
    MembersLookup(v, v.entries);
    forall k | k in Members(v, es) ensures Members(v, es)[k] == Members(v, v.entries)[k] {
      assert k in Elements(KeysOf(es));
      MemberOf(v, es, k);
    }
  }

  lemma {:induction false} SortedMembers(v: Json)
    requires v.JObject? && Valid(v)
    ensures MeaningOf(v) == MObject(Members(v, SortEntries(v.entries)))
  {
    assert Distinct(KeysOf(v.entries));
    hide *;
    MeaningOfObject(v);
    SortedKeysOf(v.entries);
    MembersOfReordered(v, SortEntries(v.entries));
  }

  // ---------- equal text exactly when equal up to key order ----------

  lemma {:induction false} SameTextSameMeaning(a: Json, b: Json)
    requires Valid(a) && Valid(b) && ClearKeys(a) && ClearKeys(b)
    requires Stringify(a) == Stringify(b)
    ensures MeaningOf(a) == MeaningOf(b)
  {
    RoundTrip(a, "");
    RoundTrip(b, "");
  }

  lemma {:induction false} SameMeaningSameText(a: Json, b: Json)
    requires Valid(a) && Valid(b) && MeaningOf(a) == MeaningOf(b)
    ensures Stringify(a) == Stringify(b)
    decreases a, 1
  {
    match a {
      case JArray(items) =>
        SameItems(items, b.items);
      case JObject(entries) =>
        SameEntries(a, b);
      case _ =>
    }
  }

  lemma {:induction false} SameItems(xs: seq<Json>, ys: seq<Json>)
    requires (forall x :: x in xs ==> Valid(x)) && (forall y :: y in ys ==> Valid(y))
    requires MeaningsOf(xs) == MeaningsOf(ys)
    ensures ItemTexts(xs) == ItemTexts(ys)
    decreases xs, 0
  {
    hide Stringify, MeaningOf;
    assert |MeaningsOf(xs)| == |xs| && |MeaningsOf(ys)| == |ys|;
    if xs != [] {
      assert MeaningsOf(xs)[0] == MeaningsOf(ys)[0];
      assert MeaningsOf(xs)[1..] == MeaningsOf(xs[1..]) && MeaningsOf(ys)[1..] == MeaningsOf(ys[1..]);
      SameMeaningSameText(xs[0], ys[0]);
      SameItems(xs[1..], ys[1..]);
    }
  }

  lemma {:induction false} SameEntries(a: Json, b: Json)
    requires a.JObject? && b.JObject? && Valid(a) && Valid(b) && MeaningOf(a) == MeaningOf(b)
    ensures Stringify(a) == Stringify(b)
    decreases a, 0
  {
    hide Stringify, SortEntries, Members;
    var es, fs := SortEntries(a.entries), SortEntries(b.entries);
    SortedKeysOf(a.entries);
    SortedKeysOf(b.entries);
    SortedMembers(a);
    SortedMembers(b);
    MembersLookup(a, es);
    MembersLookup(b, fs);
    SortedUnique(Utf16, KeysOf(es), KeysOf(fs));
    forall i | 0 <= i < |es| ensures es[i].0 == fs[i].0 && Stringify(es[i].1) == Stringify(fs[i].1) {
      assert KeysOf(es)[i] == KeysOf(fs)[i];
      assert es[i] in a.entries && fs[i] in b.entries;
      assert MeaningOf(es[i].1) == Members(a, es)[es[i].0] == MeaningOf(fs[i].1);
      SameMeaningSameText(es[i].1, fs[i].1);
    }
    SameEntryTexts(a, es, b, fs);
    StringifyObject(a);
    StringifyObject(b);
  }

  lemma {:induction false} SameEntryTexts(a: Json, es: seq<Entry>, b: Json, fs: seq<Entry>)
    requires a.JObject? && b.JObject? && |es| == |fs|
    requires (forall e :: e in es ==> e in a.entries) && (forall f :: f in fs ==> f in b.entries)
    requires forall i :: 0 <= i < |es| ==> es[i].0 == fs[i].0 && Stringify(es[i].1) == Stringify(fs[i].1)
    ensures EntryTexts(a, es) == EntryTexts(b, fs)
    decreases |es|
  {
    hide Stringify;
    if es != [] {
      SameEntryTexts(a, es[1..], b, fs[1..]);
    }
  }

  lemma {:induction false} CanonicalText(a: Json, b: Json)
    requires Valid(a) && Valid(b) && ClearKeys(a) && ClearKeys(b)
    ensures Stringify(a) == Stringify(b) <==> MeaningOf(a) == MeaningOf(b)
  {
    hide Stringify, MeaningOf;
    if Stringify(a) == Stringify(b) {
      SameTextSameMeaning(a, b);
    }
    if MeaningOf(a) == MeaningOf(b) {
      SameMeaningSameText(a, b);
    }
  }

  // Keys are not escaped, so quotes in keys do break this: every object with two
  // keys shares its text with an object that has one.
  lemma {:induction false} QuotedKeysCollide(p: string, q: string, x: Json, y: Json)
    requires Less(Utf16, p, q)
    ensures var two := JObject([(p, x), (q, y)]);
            var one := JObject([(p + "\":" + Stringify(x) + ",\"" + q, y)]);
            Stringify(two) == Stringify(one) && MeaningOf(two) != MeaningOf(one)
  {
    assert p != q;
    hide Stringify, MeaningOf, Less;
    var key := p + "\":" + Stringify(x) + ",\"" + q;
    TwoKeysText(p, q, x, y, key);
    TwoKeysMeaning(p, q, x, y, key);
  }

  lemma {:induction false} TwoKeysText(p: string, q: string, x: Json, y: Json, key: string)
    requires Less(Utf16, p, q) && key == p + "\":" + Stringify(x) + ",\"" + q
    ensures Stringify(JObject([(p, x), (q, y)])) == Stringify(JObject([(key, y)]))
  {
    hide Stringify, SortEntries, EntryTexts, Join, Less;
    var two, one := JObject([(p, x), (q, y)]), JObject([(key, y)]);
    TwoSorted(p, q, x, y);
    OneSorted(key, y);
    TwoTexts(two, p, q, x, y);
    OneText(one, key, y);
    StringifyObject(two);
    StringifyObject(one);
    var a, b := "\"" + p + "\":" + Stringify(x), "\"" + q + "\":" + Stringify(y);
    assert a + "," + b == "\"" + key + "\":" + Stringify(y);
  }

  lemma {:induction false} TwoKeysMeaning(p: string, q: string, x: Json, y: Json, key: string)
    requires p != q && |p| < |key|
    ensures MeaningOf(JObject([(p, x), (q, y)])) != MeaningOf(JObject([(key, y)]))
  {
    var two, one := JObject([(p, x), (q, y)]), JObject([(key, y)]);
    MeaningOfObject(two);
    MeaningOfObject(one);
    hide Members, MeaningOf;
    assert KeysOf(two.entries) == [p, q] && KeysOf(one.entries) == [key];
    MembersLookup(two, two.entries);
    MembersLookup(one, one.entries);
    assert [p, q][0] in Elements([p, q]);
    assert p in Members(two, two.entries) && p !in Members(one, one.entries);
  }

  lemma {:induction false} TwoSorted(p: string, q: string, x: Json, y: Json)
    requires Less(Utf16, p, q)
    ensures SortEntries([(p, x), (q, y)]) == [(p, x), (q, y)]
  {
    hide Leq, Find, Pick;
    var es := [(p, x), (q, y)];
    assert KeysOf(es) == [p, q];
    assert [p, q][1..] == [q];
    assert Sort(Utf16, [q]) == [q];
    assert Sort(Utf16, [p, q]) == [p] + [q];
    var picked := SortEntries(es);
    assert picked[0] in es && picked[1] in es;
  }

  lemma {:induction false} OneSorted(key: string, y: Json)
    ensures SortEntries([(key, y)]) == [(key, y)]
  {
    hide Leq, Find, Pick;
    assert KeysOf([(key, y)]) == [key];
    assert Sort(Utf16, [key]) == [key];
    assert SortEntries([(key, y)])[0] in [(key, y)];
  }

  lemma {:induction false} TwoTexts(v: Json, p: string, q: string, x: Json, y: Json)
    requires v == JObject([(p, x), (q, y)])
    ensures Join(EntryTexts(v, v.entries), ",") == "\"" + p + "\":" + Stringify(x) + "," + ("\"" + q + "\":" + Stringify(y))
  {
    hide Stringify;
    var a, b := "\"" + p + "\":" + Stringify(x), "\"" + q + "\":" + Stringify(y);
    assert v.entries[1..] == [(q, y)] && v.entries[1..][1..] == [];
    assert EntryTexts(v, v.entries[1..]) == [b];
    assert EntryTexts(v, v.entries) == [a] + [b];
    assert [a, b][1..] == [b];
    assert Join([a, b], ",") == a + "," + b;
  }

  lemma {:induction false} OneText(v: Json, key: string, y: Json)
    requires v == JObject([(key, y)])
    ensures Join(EntryTexts(v, v.entries), ",") == "\"" + key + "\":" + Stringify(y)
  {
    hide Stringify;
    assert v.entries[1..] == [];
  }
}
