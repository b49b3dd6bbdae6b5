/** JSON values, their serialization with two-space indentation (section 25.5.2 of ECMA-262) and a parser
    that reads them back. Strings are sequences of Unicode scalar values. A number is kept as its text. */
module JsonValues {
  import opened Prelude

  datatype JsonValue =
    | JNull
    | JBool(b: bool)
    | JNumber(text: string)
    | JString(s: string)
    | JArray(items: seq<JsonValue>)
    | JObject(entries: seq<Entry>)

  datatype Entry = Entry(key: string, value: JsonValue)

  // ----- Characters -----

  predicate IsSpace(c: char) {
    c == ' ' || c == '\n' || c == '\r' || c == '\t'
  }

  predicate IsNumberChar(c: char) {
    '0' <= c <= '9' || c == '-' || c == '+' || c == '.' || c == 'e' || c == 'E'
  }

  /** Number texts start with a digit or a sign and use the characters of JSON numbers. */
  predicate IsNumberText(t: string) {
    |t| > 0 && ('0' <= t[0] <= '9' || t[0] == '-') && forall i :: 0 <= i < |t| ==> IsNumberChar(t[i])
  }

  function HexDigit(d: int): char
    requires 0 <= d < 16
  {
    "0123456789abcdef"[d]
  }

  function HexValue(c: char): Option<int> {
    if '0' <= c <= '9' then Some(c as int - '0' as int)
    else if 'a' <= c <= 'f' then Some(c as int - 'a' as int + 10)
    else if 'A' <= c <= 'F' then Some(c as int - 'A' as int + 10)
    else None
  }

  // ----- Serialization -----

  /** One character inside a JSON string literal. */
  function Escape(c: char): string {
    var code := c as int;
    if c == '"' then "\\\""
    else if c == '\\' then "\\\\"
    else if code == 8 then "\\b"
    else if code == 12 then "\\f"
    else if c == '\n' then "\\n"
    else if c == '\r' then "\\r"
    else if c == '\t' then "\\t"
    else if code < 32 then "\\u00" + [HexDigit(code / 16), HexDigit(code % 16)]
    else [c]
  }

  function Escaped(s: string): string {
    if s == "" then "" else Escape(s[0]) + Escaped(s[1..])
  }

  /** `JSON.stringify` of a string. */
  function Quote(s: string): string {
    "\"" + Escaped(s) + "\""
  }

  function Join(parts: seq<string>, separator: string): string {
    if parts == [] then ""
    else if |parts| == 1 then parts[0]
    else parts[0] + separator + Join(parts[1..], separator)
  }

  /** The non-empty list form: each part on its own line, two spaces further in. */
  function Bracketed(open: char, parts: seq<string>, indent: string, close: char): string {
    [open] + ("\n" + (indent + "  ") + Join(parts, ",\n" + (indent + "  ")) + ("\n" + indent + [close]))
  }

  /** `JSON.stringify(v, null, 2)`, inside an indentation. */
  function Serialize(v: JsonValue, indent: string): string
    decreases v
  {
    var inner := indent + "  ";
    match v
    case JNull => "null"
    case JBool(b) => if b then "true" else "false"
    case JNumber(text) => text
    case JString(s) => Quote(s)
    case JArray(items) =>
      if items == [] then "[]"
      else
        var parts := seq(|items|, i requires 0 <= i < |items| => Serialize(items[i], inner));
        Bracketed('[', parts, indent, ']')
    case JObject(entries) =>
      if entries == [] then "{}"
      else
        var parts := seq(|entries|, i requires 0 <= i < |entries| => SerializeEntry(entries[i], inner));
        Bracketed('{', parts, indent, '}')
  }

  function SerializeEntry(entry: Entry, indent: string): string
    decreases entry
  {
    Quote(entry.key) + ": " + Serialize(entry.value, indent)
  }

  // ----- Parsing -----

  datatype Parsed<T> = Parsed(value: T, rest: string)

  function SkipSpace(s: string): (r: string)
    ensures |r| <= |s|
  {
    if s != "" && IsSpace(s[0]) then SkipSpace(s[1..]) else s
  }

  function NumberPrefix(s: string): nat
    ensures NumberPrefix(s) <= |s|
  {
    if s != "" && IsNumberChar(s[0]) then 1 + NumberPrefix(s[1..]) else 0
  }

  /** The scalar value of four hexadecimal digits, unless they spell a surrogate. */
  function ParseHex(s: string): Option<char>
    requires |s| == 4
  {
    var a, b, c, d := HexValue(s[0]), HexValue(s[1]), HexValue(s[2]), HexValue(s[3]);
    if a.None? || b.None? || c.None? || d.None? then None
    else
      var code := a.value * 4096 + b.value * 256 + c.value * 16 + d.value;
      if code < 0xD800 || 0xDFFF < code <= 0xFFFF then Some(code as char) else None
  }

  function ParseEscape(s: string): Option<Parsed<char>>
    requires |s| > 0
    ensures ParseEscape(s).Some? ==> |ParseEscape(s).value.rest| < |s|
  {
    match s[0]
    case '"' => Some(Parsed('"', s[1..]))
    case '\\' => Some(Parsed('\\', s[1..]))
    case '/' => Some(Parsed('/', s[1..]))
    case 'b' => Some(Parsed(8 as char, s[1..]))
    case 'f' => Some(Parsed(12 as char, s[1..]))
    case 'n' => Some(Parsed('\n', s[1..]))
    case 'r' => Some(Parsed('\r', s[1..]))
    case 't' => Some(Parsed('\t', s[1..]))
    case 'u' =>
      if |s| < 5 then None
      else
        var c := ParseHex(s[1..5]);
        if c.None? then None else Some(Parsed(c.value, s[5..]))
    case _ => None
  }

  /** The rest of a string literal, after its opening quote. */
  function ParseChars(s: string): (r: Option<Parsed<string>>)
    ensures r.Some? ==> |r.value.rest| < |s|
    decreases |s|
  {
    if s == "" then None
    else if s[0] == '"' then Some(Parsed("", s[1..]))
    else if s[0] == '\\' then
      if |s| == 1 then None
      else
        var c := ParseEscape(s[1..]);
        if c.None? then None
        else
          var more := ParseChars(c.value.rest);
          if more.None? then None else Some(Parsed([c.value.value] + more.value.value, more.value.rest))
    else if s[0] as int < 32 then None
    else
      var more := ParseChars(s[1..]);
      if more.None? then None else Some(Parsed([s[0]] + more.value.value, more.value.rest))
  }

  function ParseWord(s: string, word: string, v: JsonValue): (r: Option<Parsed<JsonValue>>)
    requires word != ""
    ensures r.Some? ==> |r.value.rest| < |s|
  {
    if |s| >= |word| && s[..|word|] == word then Some(Parsed(v, s[|word|..])) else None
  }

  function ParseNumber(s: string): (r: Option<Parsed<JsonValue>>)
    ensures r.Some? ==> |r.value.rest| < |s|
  {
    var n := NumberPrefix(s);
    if IsNumberText(s[..n]) then Some(Parsed(JNumber(s[..n]), s[n..])) else None
  }

  function ParseValue(text: string): (r: Option<Parsed<JsonValue>>)
    ensures r.Some? ==> |r.value.rest| < |text|
    decreases |text|, 1
  {
    var s := SkipSpace(text);
    if s == "" then None
    else if s[0] == '"' then
      var chars := ParseChars(s[1..]);
      if chars.None? then None else Some(Parsed(JString(chars.value.value), chars.value.rest))
    else if s[0] == '[' then ParseArrayBody(s[1..])
    else if s[0] == '{' then ParseObjectBody(s[1..])
    else if s[0] == 'n' then ParseWord(s, "null", JNull)
    else if s[0] == 't' then ParseWord(s, "true", JBool(true))
    else if s[0] == 'f' then ParseWord(s, "false", JBool(false))
    else ParseNumber(s)
  }

  /** An array after its opening bracket. */
  function ParseArrayBody(text: string): (r: Option<Parsed<JsonValue>>)
    ensures r.Some? ==> |r.value.rest| < |text|
    decreases |text|, 3
  {
    var after := SkipSpace(text);
    if after != "" && after[0] == ']' then Some(Parsed(JArray([]), after[1..]))
    else
      var items := ParseItems(text);
      if items.None? then None else Some(Parsed(JArray(items.value.value), items.value.rest))
  }

  /** An object after its opening brace. */
  function ParseObjectBody(text: string): (r: Option<Parsed<JsonValue>>)
    ensures r.Some? ==> |r.value.rest| < |text|
    decreases |text|, 3
  {
    var after := SkipSpace(text);
    if after != "" && after[0] == '}' then Some(Parsed(JObject([]), after[1..]))
    else
      var entries := ParseEntries(text);
      if entries.None? then None else Some(Parsed(JObject(entries.value.value), entries.value.rest))
  }

  /** The items of an array after its bracket or a comma, up to the closing bracket. */
  function ParseItems(text: string): (r: Option<Parsed<seq<JsonValue>>>)
    ensures r.Some? ==> |r.value.rest| < |text|
    decreases |text|, 2
  {
    var item := ParseValue(text);
    if item.None? then None
    else
      var after := SkipSpace(item.value.rest);
      if after != "" && after[0] == ']' then Some(Parsed([item.value.value], after[1..]))
      else if after != "" && after[0] == ',' then
        var more := ParseItems(after[1..]);
        if more.None? then None else Some(Parsed([item.value.value] + more.value.value, more.value.rest))
      else None
  }

  function ParseEntries(text: string): (r: Option<Parsed<seq<Entry>>>)
    ensures r.Some? ==> |r.value.rest| < |text|
    decreases |text|, 2
  {
    var entry := ParseEntry(text);
    if entry.None? then None
    else
      var after := SkipSpace(entry.value.rest);
      if after != "" && after[0] == '}' then Some(Parsed([entry.value.value], after[1..]))
      else if after != "" && after[0] == ',' then
        var more := ParseEntries(after[1..]);
        if more.None? then None else Some(Parsed([entry.value.value] + more.value.value, more.value.rest))
      else None
  }

  function ParseEntry(text: string): (r: Option<Parsed<Entry>>)
    ensures r.Some? ==> |r.value.rest| < |text|
    decreases |text|, 1
  {
    var s := SkipSpace(text);
    if s == "" || s[0] != '"' then None
    else
      var key := ParseChars(s[1..]);
      if key.None? then None
      else
        var after := SkipSpace(key.value.rest);
        if after == "" || after[0] != ':' then None
        else
          var value := ParseValue(after[1..]);
          if value.None? then None else Some(Parsed(Entry(key.value.value, value.value.value), value.value.rest))
  }

  /** `JSON.parse`. */
  function Parse(text: string): Option<JsonValue> {
    var r := ParseValue(text);
    if r.Some? && SkipSpace(r.value.rest) == "" then Some(r.value.value) else None
  }

  // ----- Round trip -----

  ghost predicate WellFormed(v: JsonValue) {
    match v
    case JNumber(text) => IsNumberText(text)
    case JArray(items) => forall i :: 0 <= i < |items| ==> WellFormed(items[i])
    case JObject(entries) => forall i :: 0 <= i < |entries| ==> WellFormed(entries[i].value)
    case _ => true
  }

  predicate AllSpaces(s: string) {
    forall i :: 0 <= i < |s| ==> IsSpace(s[i])
  }

  predicate NoNumberAhead(s: string) {
    s == "" || !IsNumberChar(s[0])
  }

  lemma {:induction false} SkipSpaces(spaces: string, s: string)
    requires AllSpaces(spaces) && (s == "" || !IsSpace(s[0]))
    ensures SkipSpace(spaces + s) == s
  {
    if spaces == "" {
      assert spaces + s == s;
    } else {
      assert (spaces + s)[1..] == spaces[1..] + s;
      SkipSpaces(spaces[1..], s);
    }
  }

  lemma {:induction false} NumberPrefixStops(t: string, rest: string)
    requires (forall i :: 0 <= i < |t| ==> IsNumberChar(t[i])) && NoNumberAhead(rest)
    ensures NumberPrefix(t + rest) == |t|
  {
    if t == "" {
      assert t + rest == rest;
    } else {
      assert (t + rest)[1..] == t[1..] + rest;
      NumberPrefixStops(t[1..], rest);
    }
  }

  lemma HexRoundTrip(d: int)
    requires 0 <= d < 16
    ensures HexValue(HexDigit(d)) == Some(d)
  {
  }

  lemma EscapeRoundTrip(c: char, more: string)
    ensures
      var text := Escape(c) + more;
      if text[0] == '\\' then |text| > 1 && ParseEscape(text[1..]) == Some(Parsed(c, more))
      else text == [c] + more && c != '"' && c as int >= 32
  {
    var text := Escape(c) + more;
    var code := c as int;
    if |Escape(c)| == 2 {
      assert text[1..] == [Escape(c)[1]] + more;
      assert ([Escape(c)[1]] + more)[1..] == more;
    } else if |Escape(c)| == 6 {
      var hex := "00" + [HexDigit(code / 16), HexDigit(code % 16)];
      assert text[1..] == ['u'] + hex + more;
      assert (['u'] + hex + more)[1..5] == hex && (['u'] + hex + more)[5..] == more;
      HexRoundTrip(code / 16);
      HexRoundTrip(code % 16);
      assert ParseHex(hex) == Some(c);
    }
  }

  /** The parse of a literal from one escaped character on. */
  lemma CharsNext(c: char, more: string)
    requires ParseChars(more).Some?
    ensures
      var rest := ParseChars(more).value;
      ParseChars(Escape(c) + more) == Some(Parsed([c] + rest.value, rest.rest))
  {
    EscapeRoundTrip(c, more);
    if Escape(c)[0] != '\\' { assert ([c] + more)[1..] == more; }
  }

  lemma CharsEnd(rest: string)
    ensures ParseChars("\"" + rest) == Some(Parsed("", rest))
  {
    assert ("\"" + rest)[1..] == rest;
  }

  lemma EscapedText(s: string, rest: string)
    requires s != ""
    ensures Escaped(s) + "\"" + rest == Escape(s[0]) + (Escaped(s[1..]) + "\"" + rest)
  {
  }

  lemma {:induction false} CharsRoundTrip(s: string, rest: string)
    ensures ParseChars(Escaped(s) + "\"" + rest) == Some(Parsed(s, rest))
  {
    if s == "" {
      assert Escaped(s) + "\"" + rest == "\"" + rest;
      CharsEnd(rest);
    } else {
      CharsRoundTrip(s[1..], rest);
      EscapedText(s, rest);
      CharsNext(s[0], Escaped(s[1..]) + "\"" + rest);
      assert s == [s[0]] + s[1..];
    }
  }

  // ----- Lists, in the order in which they are written -----

  /** What follows the opening bracket of a non-empty list: parts on their own lines, then the closing text. */
  function Tail(parts: seq<string>, inner: string, close: string): string
    requires |parts| > 0
  {
    "\n" + inner + parts[0] + if |parts| == 1 then close else "," + Tail(parts[1..], inner, close)
  }

  lemma {:induction false} JoinTail(parts: seq<string>, inner: string, close: string)
    requires |parts| > 0
    ensures "\n" + inner + Join(parts, ",\n" + inner) + close == Tail(parts, inner, close)
  {
    if |parts| > 1 {
      JoinTail(parts[1..], inner, close);
      assert "\n" + inner + (parts[0] + (",\n" + inner) + Join(parts[1..], ",\n" + inner)) + close
          == "\n" + inner + parts[0] + ("," + ("\n" + inner + Join(parts[1..], ",\n" + inner) + close));
    }
  }

  function ItemParts(items: seq<JsonValue>, inner: string): seq<string> {
    seq(|items|, i requires 0 <= i < |items| => Serialize(items[i], inner))
  }

  function EntryParts(entries: seq<Entry>, inner: string): seq<string> {
    seq(|entries|, i requires 0 <= i < |entries| => SerializeEntry(entries[i], inner))
  }

  lemma BracketedTail(open: char, parts: seq<string>, indent: string, close: char)
    requires |parts| > 0
    ensures Bracketed(open, parts, indent, close) == [open] + Tail(parts, indent + "  ", "\n" + indent + [close])
  {
    JoinTail(parts, indent + "  ", "\n" + indent + [close]);
  }

  lemma SerializeArray(items: seq<JsonValue>, indent: string)
    requires items != []
    ensures Serialize(JArray(items), indent) == Bracketed('[', ItemParts(items, indent + "  "), indent, ']')
  {
    var inner := indent + "  ";
    assert ItemParts(items, inner) == seq(|items|, i requires 0 <= i < |items| => Serialize(items[i], inner));
  }

  lemma SerializeObject(entries: seq<Entry>, indent: string)
    requires entries != []
    ensures Serialize(JObject(entries), indent) == Bracketed('{', EntryParts(entries, indent + "  "), indent, '}')
  {
    var inner := indent + "  ";
    assert EntryParts(entries, inner)
        == seq(|entries|, i requires 0 <= i < |entries| => SerializeEntry(entries[i], inner));
  }

  // ----- Parsing a serialization -----

  /** Leading spaces do not matter to the parser. */
  lemma ParseSkips(spaces: string, s: string)
    requires AllSpaces(spaces) && (s == "" || !IsSpace(s[0]))
    ensures ParseValue(spaces + s) == ParseValue(s)
  {
    SkipSpaces(spaces, s);
    SkipSpaces("", s);
    assert "" + s == s;
  }

  lemma SerializeStarts(v: JsonValue, indent: string)
    requires WellFormed(v)
    ensures |Serialize(v, indent)| > 0 && !IsSpace(Serialize(v, indent)[0])
  {
  }

  /** The parser at a text that starts without space. */
  lemma TextFacts(written: string, rest: string)
    requires |written| > 0 && !IsSpace(written[0])
    ensures
      var text := written + rest;
      && SkipSpace(text) == text && text[0] == written[0]
      && text[..|written|] == written && text[|written|..] == rest
  {
  }

  lemma NumberRoundTrip(t: string, rest: string)
    requires IsNumberText(t) && NoNumberAhead(rest)
    ensures ParseValue(t + rest) == Some(Parsed(JNumber(t), rest))
  {
    TextFacts(t, rest);
    NumberPrefixStops(t, rest);
    assert ParseNumber(t + rest) == Some(Parsed(JNumber(t), rest));
  }

  lemma QuoteText(escaped: string, rest: string)
    ensures ("\"" + escaped + "\"") + rest == ['"'] + (escaped + "\"" + rest)
  {
  }

  lemma Drops(c: char, s: string)
    ensures ([c] + s)[1..] == s
  {
  }

  lemma QuoteParses(s: string, rest: string)
    ensures
      var text := Quote(s) + rest;
      && SkipSpace(text) == text && |text| > 0 && text[0] == '"'
      && ParseChars(text[1..]) == Some(Parsed(s, rest))
  {
    var body := Escaped(s) + "\"" + rest;
    CharsRoundTrip(s, rest);
    QuoteText(Escaped(s), rest);
    Drops('"', body);
  }

  lemma WordRoundTrip(v: JsonValue, rest: string)
    requires v.JNull? || v.JBool?
    ensures ParseValue(Serialize(v, "") + rest) == Some(Parsed(v, rest))
  {
    TextFacts(Serialize(v, ""), rest);
  }

  lemma EmptyRoundTrip(open: char, close: char, rest: string)
    requires (open == '[' && close == ']') || (open == '{' && close == '}')
    ensures ParseValue([open, close] + rest) == Some(Parsed(if open == '[' then JArray([]) else JObject([]), rest))
  {
    var text := [open, close] + rest;
    TextFacts([open, close], rest);
    assert text[1..] == [close] + rest;
    TextFacts([close], rest);
  }

  lemma StringRoundTrip(s: string, rest: string)
    ensures ParseValue(Quote(s) + rest) == Some(Parsed(JString(s), rest))
  {
    QuoteParses(s, rest);
    var text := Quote(s) + rest;
    assert text[0] == '"';
  }

  function Length(v: JsonValue): nat {
    match v
    case JArray(items) => |items|
    case JObject(entries) => |entries|
    case _ => 0
  }

  lemma ParseBracket(open: char, body: string)
    requires open == '[' || open == '{'
    ensures ParseValue([open] + body) == if open == '[' then ParseArrayBody(body) else ParseObjectBody(body)
  {
    Drops(open, body);
    TextFacts([open], body);
  }

  /** What is written is read back: the parser inverts the serializer, whatever follows. */
  lemma {:induction false} ValueRoundTrip(v: JsonValue, indent: string, rest: string)
    requires WellFormed(v) && AllSpaces(indent) && NoNumberAhead(rest)
    ensures ParseValue(Serialize(v, indent) + rest) == Some(Parsed(v, rest))
    decreases v, Length(v) + 1
  {
    match v
    case JNull => WordRoundTrip(v, rest);
    case JBool(b) => WordRoundTrip(v, rest);
    case JNumber(t) => NumberRoundTrip(t, rest);
    case JString(s) => StringRoundTrip(s, rest);
    case JArray(items) =>
      if items == [] { EmptyRoundTrip('[', ']', rest); } else { ArrayRoundTrip(v, indent, rest); }
    case JObject(entries) =>
      if entries == [] { EmptyRoundTrip('{', '}', rest); } else { ObjectRoundTrip(v, indent, rest); }
  }

  lemma Reassociate(c: char, s: string, rest: string)
    ensures ([c] + s) + rest == [c] + (s + rest)
  {
  }

  lemma NotClosing(v: JsonValue, indent: string)
    requires WellFormed(v)
    ensures Serialize(v, indent)[0] != ']'
  {
  }

  /** After the bracket of a list the parser first meets its first part. */
  lemma ListStarts(parts: seq<string>, inner: string, close: string, rest: string)
    requires |parts| > 0 && AllSpaces(inner) && |parts[0]| > 0 && !IsSpace(parts[0][0])
    ensures
      var after := SkipSpace(Tail(parts, inner, close) + rest);
      |after| > 0 && after[0] == parts[0][0]
  {
    var more := if |parts| == 1 then close else "," + Tail(parts[1..], inner, close);
    assert Tail(parts, inner, close) + rest == ("\n" + inner) + (parts[0] + more + rest);
    SkipSpaces("\n" + inner, parts[0] + more + rest);
  }

  lemma {:induction false} ArrayRoundTrip(v: JsonValue, indent: string, rest: string)
    requires v.JArray? && v.items != [] && WellFormed(v) && AllSpaces(indent)
    ensures ParseValue(Serialize(v, indent) + rest) == Some(Parsed(v, rest))
    decreases v, Length(v), 1
  {
    var inner, close := indent + "  ", "\n" + indent + [']'];
    var parts := ItemParts(v.items, inner);
    assert v.items[0..] == v.items;
    ItemsRoundTrip(v, 0, indent, rest);
    SerializeArray(v.items, indent);
    BracketedTail('[', parts, indent, ']');
    SerializeStarts(v.items[0], inner);
    ListStarts(parts, inner, close, rest);
    NotClosing(v.items[0], inner);
    ParseBracket('[', Tail(parts, inner, close) + rest);
    Reassociate('[', Tail(parts, inner, close), rest);
  }

  lemma {:induction false} ObjectRoundTrip(v: JsonValue, indent: string, rest: string)
    requires v.JObject? && v.entries != [] && WellFormed(v) && AllSpaces(indent)
    ensures ParseValue(Serialize(v, indent) + rest) == Some(Parsed(v, rest))
    decreases v, Length(v), 1
  {
    var inner, close := indent + "  ", "\n" + indent + ['}'];
    var parts := EntryParts(v.entries, inner);
    assert v.entries[0..] == v.entries;
    EntriesRoundTrip(v, 0, indent, rest);
    SerializeObject(v.entries, indent);
    BracketedTail('{', parts, indent, '}');
    ListStarts(parts, inner, close, rest);
    ParseBracket('{', Tail(parts, inner, close) + rest);
    Reassociate('{', Tail(parts, inner, close), rest);
  }

  /** The closing line of a list leaves the bracket next. */
  lemma CloseNext(indent: string, bracket: char, rest: string)
    requires AllSpaces(indent) && !IsSpace(bracket)
    ensures
      var text := "\n" + indent + [bracket] + rest;
      SkipSpace(text) == [bracket] + rest && NoNumberAhead(text)
  {
    assert "\n" + indent + [bracket] + rest == ("\n" + indent) + ([bracket] + rest);
    SkipSpaces("\n" + indent, [bracket] + rest);
  }

  /** One part of a list, its separator and what comes after. */
  lemma TailUnfolds(parts: seq<string>, inner: string, close: string, rest: string)
    requires |parts| > 0
    ensures
      var after := if |parts| == 1 then close + rest else "," + (Tail(parts[1..], inner, close) + rest);
      Tail(parts, inner, close) + rest == ("\n" + inner) + (parts[0] + after)
  {
  }

  /** After a part the parser meets the bracket or a comma. */
  lemma SeparatorNext(parts: seq<string>, inner: string, indent: string, bracket: char, rest: string)
    requires |parts| > 0 && AllSpaces(indent) && (bracket == ']' || bracket == '}')
    ensures
      var close := "\n" + indent + [bracket];
      var after := if |parts| == 1 then close + rest else "," + (Tail(parts[1..], inner, close) + rest);
      && NoNumberAhead(after)
      && SkipSpace(after) == if |parts| == 1 then [bracket] + rest else after
  {
    if |parts| == 1 {
      CloseNext(indent, bracket, rest);
    }
  }

  lemma ParseItem(text: string, item: JsonValue, after: string, others: string, items: seq<JsonValue>, rest: string)
    requires ParseValue(text) == Some(Parsed(item, after))
    requires
      if items == [] then SkipSpace(after) == [']'] + rest
      else SkipSpace(after) == [','] + others && ParseItems(others) == Some(Parsed(items, rest))
    ensures ParseItems(text) == Some(Parsed([item] + items, rest))
  {
    Drops(']', rest);
    Drops(',', others);
    assert [item] + [] == [item];
  }

  lemma ParseOneEntry(text: string, entry: Entry, after: string, others: string, entries: seq<Entry>, rest: string)
    requires ParseEntry(text) == Some(Parsed(entry, after))
    requires
      if entries == [] then SkipSpace(after) == ['}'] + rest
      else SkipSpace(after) == [','] + others && ParseEntries(others) == Some(Parsed(entries, rest))
    ensures ParseEntries(text) == Some(Parsed([entry] + entries, rest))
  {
    Drops('}', rest);
    Drops(',', others);
    assert [entry] + [] == [entry];
  }

  /** The items from the k-th on: the first, the rest, and their written parts. */
  lemma ItemSuffix(items: seq<JsonValue>, k: nat, inner: string)
    requires k < |items|
    ensures items[k..] == [items[k]] + items[k + 1..]
    ensures ItemParts(items[k..], inner)[0] == Serialize(items[k], inner)
    ensures ItemParts(items[k..], inner)[1..] == ItemParts(items[k + 1..], inner)
  {
  }

  lemma EntrySuffix(entries: seq<Entry>, k: nat, inner: string)
    requires k < |entries|
    ensures entries[k..] == [entries[k]] + entries[k + 1..]
    ensures EntryParts(entries[k..], inner)[0] == SerializeEntry(entries[k], inner)
    ensures EntryParts(entries[k..], inner)[1..] == EntryParts(entries[k + 1..], inner)
  {
  }

  lemma SpacedValue(v: JsonValue, inner: string, after: string)
    requires WellFormed(v) && AllSpaces(inner)
    requires ParseValue(Serialize(v, inner) + after) == Some(Parsed(v, after))
    ensures ParseValue(("\n" + inner) + (Serialize(v, inner) + after)) == Some(Parsed(v, after))
  {
    SerializeStarts(v, inner);
    ParseSkips("\n" + inner, Serialize(v, inner) + after);
  }

  lemma {:induction false} ItemsRoundTrip(v: JsonValue, k: nat, indent: string, rest: string)
    requires v.JArray? && k < |v.items| && WellFormed(v) && AllSpaces(indent)
    ensures
      var inner := indent + "  ";
      ParseItems(Tail(ItemParts(v.items[k..], inner), inner, "\n" + indent + [']']) + rest)
          == Some(Parsed(v.items[k..], rest))
    decreases v, |v.items| - k, 0
  {
    var inner, close := indent + "  ", "\n" + indent + [']'];
    var parts := ItemParts(v.items[k..], inner);
    ItemSuffix(v.items, k, inner);
    var others := if |parts| == 1 then "" else Tail(parts[1..], inner, close) + rest;
    var after := if |parts| == 1 then close + rest else "," + others;
    TailUnfolds(parts, inner, close, rest);
    SeparatorNext(parts, inner, indent, ']', rest);
    ValueRoundTrip(v.items[k], inner, after);
    SpacedValue(v.items[k], inner, after);
    if |parts| > 1 { ItemsRoundTrip(v, k + 1, indent, rest); }
    ParseItem(Tail(parts, inner, close) + rest, v.items[k], after, others, v.items[k + 1..], rest);
  }

  lemma ColonNext(value: string)
    ensures SkipSpace(": " + value) == ": " + value && (": " + value)[1..] == " " + value
  {
  }

  lemma KeyNext(key: string, spaces: string, rest: string)
    requires AllSpaces(spaces)
    ensures
      var s := SkipSpace(spaces + (Quote(key) + rest));
      |s| > 0 && s[0] == '"' && ParseChars(s[1..]) == Some(Parsed(key, rest))
  {
    QuoteParses(key, rest);
    SkipSpaces(spaces, Quote(key) + rest);
  }

  lemma EntryText(key: string, value: string, after: string)
    ensures (key + ": " + value) + after == key + (": " + (value + after))
  {
  }

  lemma EntryRoundTrip(entry: Entry, inner: string, after: string)
    requires ParseValue(Serialize(entry.value, inner) + after) == Some(Parsed(entry.value, after))
    requires WellFormed(entry.value) && AllSpaces(inner)
    ensures ParseEntry(("\n" + inner) + (SerializeEntry(entry, inner) + after)) == Some(Parsed(entry, after))
  {
    var value := Serialize(entry.value, inner) + after;
    EntryText(Quote(entry.key), Serialize(entry.value, inner), after);
    SerializeStarts(entry.value, inner);
    KeyNext(entry.key, "\n" + inner, ": " + value);
    ColonNext(value);
    ParseSkips(" ", value);
  }

  lemma {:induction false} EntriesRoundTrip(v: JsonValue, k: nat, indent: string, rest: string)
    requires v.JObject? && k < |v.entries| && WellFormed(v) && AllSpaces(indent)
    ensures
      var inner := indent + "  ";
      ParseEntries(Tail(EntryParts(v.entries[k..], inner), inner, "\n" + indent + ['}']) + rest)
          == Some(Parsed(v.entries[k..], rest))
    decreases v, |v.entries| - k, 0
  {
    var inner, close := indent + "  ", "\n" + indent + ['}'];
    var parts := EntryParts(v.entries[k..], inner);
    EntrySuffix(v.entries, k, inner);
    var others := if |parts| == 1 then "" else Tail(parts[1..], inner, close) + rest;
    var after := if |parts| == 1 then close + rest else "," + others;
    TailUnfolds(parts, inner, close, rest);
    SeparatorNext(parts, inner, indent, '}', rest);
    ValueRoundTrip(v.entries[k].value, inner, after);
    EntryRoundTrip(v.entries[k], inner, after);
    if |parts| > 1 { EntriesRoundTrip(v, k + 1, indent, rest); }
    ParseOneEntry(Tail(parts, inner, close) + rest, v.entries[k], after, others, v.entries[k + 1..], rest);
  }

  /** Parsing a serialization gives the value back. */
  lemma ParseInvertsSerialize(v: JsonValue)
    requires WellFormed(v)
    ensures Parse(Serialize(v, "")) == Some(v)
  {
    ValueRoundTrip(v, "", "");
    assert Serialize(v, "") + "" == Serialize(v, "");
  }

  // ----- What a serialization looks like -----

  /** Inside a string literal, seven characters have an escape of their own, other control characters are written by
      their code, and all others stand for themselves. */
  lemma EscapeTold(c: char)
    ensures c == '"' ==> Escape(c) == "\\\""
    ensures c == '\\' ==> Escape(c) == "\\\\"
    ensures c == '\n' ==> Escape(c) == "\\n"
    ensures c == '\r' ==> Escape(c) == "\\r"
    ensures c == '\t' ==> Escape(c) == "\\t"
    ensures c as int == 8 ==> Escape(c) == "\\b"
    ensures c as int == 12 ==> Escape(c) == "\\f"
    ensures c as int == 0 ==> Escape(c) == "\\u0000"
    ensures c as int == 31 ==> Escape(c) == "\\u001f"
    ensures c as int >= 32 && c != '"' && c != '\\' ==> Escape(c) == [c]
  {
    assert HexDigit(0) == '0' && HexDigit(1) == '1' && HexDigit(15) == 'f';
    assert "\\u00" + ['0', '0'] == "\\u0000" && "\\u00" + ['1', 'f'] == "\\u001f";
  }

  lemma OnePart(part: string, indent: string, open: char, close: char)
    ensures Bracketed(open, [part], indent, close)
         == [open] + "\n" + (indent + "  ") + part + "\n" + indent + [close]
  {
  }

  /** An array of one item stands on three lines, its item two spaces further in. */
  lemma ArrayTold(v: JsonValue, indent: string)
    ensures Serialize(JArray([v]), indent)
         == ['['] + "\n" + (indent + "  ") + Serialize(v, indent + "  ") + "\n" + indent + [']']
  {
    var inner := indent + "  ";
    var items := [v];
    assert seq(|items|, i requires 0 <= i < |items| => Serialize(items[i], inner)) == [Serialize(v, inner)];
    OnePart(Serialize(v, inner), indent, '[', ']');
  }

  /** An object of one entry stands on three lines, its key quoted before a colon and a space. */
  lemma ObjectTold(key: string, v: JsonValue, indent: string)
    ensures Serialize(JObject([Entry(key, v)]), indent)
         == ['{'] + "\n" + (indent + "  ") + SerializeEntry(Entry(key, v), indent + "  ") + "\n" + indent + ['}']
    ensures SerializeEntry(Entry(key, v), indent) == Quote(key) + ": " + Serialize(v, indent)
  {
    var inner := indent + "  ";
    var entries := [Entry(key, v)];
    var part := SerializeEntry(Entry(key, v), inner);
    assert seq(|entries|, i requires 0 <= i < |entries| => SerializeEntry(entries[i], inner)) == [part];
    OnePart(part, indent, '{', '}');
  }

  /** The parts of a list stand in order between separators, the first and the last ones at its ends. */
  lemma {:induction false} JoinTold(parts: seq<string>, separator: string, k: nat)
    requires 0 < k < |parts|
    ensures Join(parts, separator) == Join(parts[..k], separator) + separator + Join(parts[k..], separator)
  {
    var rest := parts[1..];
    if k == 1 {
      assert parts[..1] == [parts[0]];
    } else {
      JoinTold(rest, separator, k - 1);
      assert parts[..k][1..] == rest[..k - 1] && parts[k..] == rest[k - 1..];
      var first, left, right := parts[0], Join(rest[..k - 1], separator), Join(parts[k..], separator);
      assert first + separator + (left + separator + right) == first + separator + left + separator + right;
    }
  }
}
