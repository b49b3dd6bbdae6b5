/** Habitat's JSON viewer: it prints a value as a list of tokens, some of which can be folded, and
    collects the paths of the foldable ones. */
module JsonViewer {
  import opened Prelude
  import opened Decimal
  import opened JsonValues

  datatype Kind = Key | StringLiteral | NumberLiteral | BooleanLiteral | NullLiteral
                | Punctuation | Whitespace | FoldableStart(isArray: bool) | FoldableEnd

  datatype Token = Token(kind: Kind, value: string, path: Option<string>)

  function Indent(n: nat): string {
    if n == 0 then "" else "  " + Indent(n - 1)
  }

  function ItemPath(path: string, index: nat): string {
    path + "[" + Numeral(index) + "]"
  }

  function EntryPath(path: string, key: string): string {
    path + "." + key
  }

  function Space(text: string): Token {
    Token(Whitespace, text, None)
  }

  function Comma(last: bool): seq<Token> {
    if last then [] else [Token(Punctuation, ",", None)]
  }

  function Children(v: JsonValue): nat {
    match v
    case JArray(items) => |items|
    case JObject(entries) => |entries|
    case _ => 0
  }

  /** The tokens of a value. */
  function Tokens(v: JsonValue, toggled: set<string>, folded: set<string>, path: string, indent: nat): seq<Token>
    decreases v, Children(v) + 1
  {
    match v
    case JNull => [Token(NullLiteral, "null", Some(path))]
    case JBool(b) => [Token(BooleanLiteral, if b then "true" else "false", Some(path))]
    case JNumber(text) => [Token(NumberLiteral, text, Some(path))]
    case JString(s) => [Token(StringLiteral, if path in toggled then "\"" + s + "\"" else Quote(s), Some(path))]
    case JArray(items) =>
      if items == [] then [Token(Punctuation, "[]", None)]
      else
        [Token(FoldableStart(true), "[", Some(path))]
        + (if path in folded then [Token(Punctuation, " ... ", None)]
           else [Space("\n")] + ItemTokens(v, 0, toggled, folded, path, indent) + [Space(Indent(indent))])
        + [Token(FoldableEnd, "]", None)]
    case JObject(entries) =>
      if entries == [] then [Token(Punctuation, "{}", None)]
      else
        [Token(FoldableStart(false), "{", Some(path))]
        + (if path in folded then [Token(Punctuation, " ... ", None)]
           else [Space("\n")] + EntryTokens(v, 0, toggled, folded, path, indent) + [Space(Indent(indent))])
        + [Token(FoldableEnd, "}", None)]
  }

  function ItemTokens(v: JsonValue, k: nat, toggled: set<string>, folded: set<string>, path: string,
                      indent: nat): seq<Token>
    requires v.JArray?
    decreases v, if k <= |v.items| then |v.items| - k else 0
  {
    if k >= |v.items| then []
    else
      [Space(Indent(indent) + "  ")]
      + Tokens(v.items[k], toggled, folded, ItemPath(path, k), indent + 1)
      + Comma(k == |v.items| - 1) + [Space("\n")]
      + ItemTokens(v, k + 1, toggled, folded, path, indent)
  }

  /** The line start and key of an object entry. */
  function EntryHead(inner: string, key: string, keyPath: string): seq<Token> {
    [Space(inner)] + [Token(Key, Quote(key), Some(keyPath))] + [Token(Punctuation, ": ", None)]
  }

  function EntryTokens(v: JsonValue, k: nat, toggled: set<string>, folded: set<string>, path: string,
                       indent: nat): seq<Token>
    requires v.JObject?
    decreases v, if k <= |v.entries| then |v.entries| - k else 0
  {
    if k >= |v.entries| then []
    else
      var entry := v.entries[k];
      var keyPath := EntryPath(path, entry.key);
      EntryHead(Indent(indent) + "  ", entry.key, keyPath)
      + Tokens(entry.value, toggled, folded, keyPath, indent + 1)
      + Comma(k == |v.entries| - 1) + [Space("\n")]
      + EntryTokens(v, k + 1, toggled, folded, path, indent)
  }

  /** The tokenizer, pushing onto a token list. */
  method TokenizeJson(data: JsonValue, toggledStrings: set<string>, foldedPaths: set<string>, path: string, indent: nat)
    returns (tokens: seq<Token>)
    ensures tokens == Tokens(data, toggledStrings, foldedPaths, path, indent)
    decreases data, 1
  {
    var indentStr := Indent(indent);
    match data
    case JNull => tokens := [Token(NullLiteral, "null", Some(path))];
    case JBool(b) => tokens := [Token(BooleanLiteral, if b then "true" else "false", Some(path))];
    case JNumber(text) => tokens := [Token(NumberLiteral, text, Some(path))];
    case JString(s) =>
      if path in toggledStrings {
        tokens := [Token(StringLiteral, "\"" + s + "\"", Some(path))];
      } else {
        tokens := [Token(StringLiteral, Quote(s), Some(path))];
      }
    case JArray(items) =>
      if |items| == 0 {
        tokens := [Token(Punctuation, "[]", None)];
      } else {
        tokens := [Token(FoldableStart(true), "[", Some(path))];
        if path in foldedPaths {
          tokens := tokens + [Token(Punctuation, " ... ", None)];
        } else {
          var body := TokenizeItems(data, toggledStrings, foldedPaths, path, indent);
          tokens := tokens + ([Space("\n")] + body + [Space(indentStr)]);
        }
        tokens := tokens + [Token(FoldableEnd, "]", None)];
      }
    case JObject(entries) =>
      if |entries| == 0 {
        tokens := [Token(Punctuation, "{}", None)];
      } else {
        tokens := [Token(FoldableStart(false), "{", Some(path))];
        if path in foldedPaths {
          tokens := tokens + [Token(Punctuation, " ... ", None)];
        } else {
          var body := TokenizeEntries(data, toggledStrings, foldedPaths, path, indent);
          tokens := tokens + ([Space("\n")] + body + [Space(indentStr)]);
        }
        tokens := tokens + [Token(FoldableEnd, "}", None)];
      }
  }

  method TokenizeItems(data: JsonValue, toggledStrings: set<string>, foldedPaths: set<string>, path: string,
                       indent: nat)
    returns (tokens: seq<Token>)
    requires data.JArray?
    ensures tokens == ItemTokens(data, 0, toggledStrings, foldedPaths, path, indent)
    decreases data, 0
  {
    tokens := [];
    for index := 0 to |data.items|
      invariant ItemTokens(data, 0, toggledStrings, foldedPaths, path, indent)
             == tokens + ItemTokens(data, index, toggledStrings, foldedPaths, path, indent)
    {
      var item := TokenizeJson(data.items[index], toggledStrings, foldedPaths, ItemPath(path, index), indent + 1);
      var row := [Space(Indent(indent) + "  ")] + item;
      if index < |data.items| - 1 {
        row := row + [Token(Punctuation, ",", None)];
      }
      row := row + [Space("\n")];
      assert row == [Space(Indent(indent) + "  ")] + item + Comma(index == |data.items| - 1) + [Space("\n")];
      tokens := tokens + row;
    }
    assert tokens + [] == tokens;
  }

  method TokenizeEntries(data: JsonValue, toggledStrings: set<string>, foldedPaths: set<string>, path: string,
                         indent: nat)
    returns (tokens: seq<Token>)
    requires data.JObject?
    ensures tokens == EntryTokens(data, 0, toggledStrings, foldedPaths, path, indent)
    decreases data, 0
  {
    tokens := [];
    for index := 0 to |data.entries|
      invariant EntryTokens(data, 0, toggledStrings, foldedPaths, path, indent)
             == tokens + EntryTokens(data, index, toggledStrings, foldedPaths, path, indent)
    {
      var entry := data.entries[index];
      var keyPath := EntryPath(path, entry.key);
      var value := TokenizeJson(entry.value, toggledStrings, foldedPaths, keyPath, indent + 1);
      var row := EntryHead(Indent(indent) + "  ", entry.key, keyPath) + value;
      if index < |data.entries| - 1 {
        row := row + [Token(Punctuation, ",", None)];
      }
      row := row + [Space("\n")];
      assert row == EntryHead(Indent(indent) + "  ", entry.key, keyPath) + value +
                    Comma(index == |data.entries| - 1) + [Space("\n")];
      tokens := tokens + row;
    }
    assert tokens + [] == tokens;
  }

  // ----- The printed text -----

  function Text(tokens: seq<Token>): string {
    if tokens == [] then "" else tokens[0].value + Text(tokens[1..])
  }

  lemma {:induction false} TextConcat(a: seq<Token>, b: seq<Token>)
    ensures Text(a + b) == Text(a) + Text(b)
  {
    if a == [] {
      assert a + b == b;
    } else {
      assert (a + b)[1..] == a[1..] + b;
      TextConcat(a[1..], b);
    }
  }

  /** The text of a list item, its separator and line break, and the rest of the list. */
  lemma RowText(head: seq<Token>, value: seq<Token>, last: bool, rest: seq<Token>)
    ensures Text(head + value + Comma(last) + [Space("\n")] + rest)
         == Text(head) + Text(value) + (if last then "" else ",") + "\n" + Text(rest)
  {
    TextConcat(head, value);
    TextConcat(head + value, Comma(last));
    TextConcat(head + value + Comma(last), [Space("\n")]);
    TextConcat(head + value + Comma(last) + [Space("\n")], rest);
    assert Text(Comma(last)) == if last then "" else ",";
  }

  /** The text of a list around its body. */
  lemma ListText(open: Token, body: seq<Token>, close: Token, indent: string)
    ensures Text([open] + ([Space("\n")] + body + [Space(indent)]) + [close])
         == open.value + "\n" + Text(body) + indent + close.value
  {
    TextConcat([open] + ([Space("\n")] + body + [Space(indent)]), [close]);
    TextConcat([open], [Space("\n")] + body + [Space(indent)]);
    TextConcat([Space("\n")] + body, [Space(indent)]);
    TextConcat([Space("\n")], body);
  }

  lemma DeeperIndent(indent: nat)
    ensures Indent(indent + 1) == Indent(indent) + "  "
  {
    if indent > 0 { DeeperIndent(indent - 1); }
  }

  /** A list whose rest is written as its tail is itself written as its tail. */
  lemma RowTail(parts: seq<string>, inner: string, more: string, close: string)
    requires |parts| > 0
    requires if |parts| == 1 then more == "" else "\n" + more + close == Tail(parts[1..], inner, "\n" + close)
    ensures "\n" + (inner + parts[0] + (if |parts| == 1 then "" else ",") + "\n" + more) + close
         == Tail(parts, inner, "\n" + close)
  {
    assert "\n" + "" + close == "\n" + close;
  }

  lemma SpaceText(text: string)
    ensures Text([Space(text)]) == text
  {
    assert [Space(text)][1..] == [] && text + "" == text;
  }

  lemma {:induction false} ItemTokensText(v: JsonValue, k: nat, path: string, indent: nat)
    requires v.JArray? && k < |v.items|
    ensures "\n" + Text(ItemTokens(v, k, {}, {}, path, indent)) + (Indent(indent) + "]")
         == Tail(ItemParts(v.items[k..], Indent(indent) + "  "), Indent(indent) + "  ", "\n" + (Indent(indent) + "]"))
    decreases v, |v.items| - k, 0
  {
    var inner := Indent(indent) + "  ";
    var last := k == |v.items| - 1;
    var parts := ItemParts(v.items[k..], inner);
    var value := Tokens(v.items[k], {}, {}, ItemPath(path, k), indent + 1);
    var rest := ItemTokens(v, k + 1, {}, {}, path, indent);
    TokensPrint(v.items[k], ItemPath(path, k), indent + 1);
    DeeperIndent(indent);
    RowText([Space(inner)], value, last, rest);
    SpaceText(inner);
    ItemSuffix(v.items, k, inner);
    if !last { ItemTokensText(v, k + 1, path, indent); }
    RowTail(parts, inner, Text(rest), Indent(indent) + "]");
  }

  lemma HeadText(inner: string, key: string, keyPath: string, value: string)
    ensures Text(EntryHead(inner, key, keyPath)) + value == inner + (Quote(key) + ": " + value)
  {
    var name, colon := [Token(Key, Quote(key), Some(keyPath))], [Token(Punctuation, ": ", None)];
    TextConcat([Space(inner)], name);
    TextConcat([Space(inner)] + name, colon);
    assert Text([Space(inner)]) == inner && Text(name) == Quote(key) && Text(colon) == ": ";
    assert inner + Quote(key) + ": " + value == inner + (Quote(key) + ": " + value);
  }

  lemma {:induction false} EntryTokensText(v: JsonValue, k: nat, path: string, indent: nat)
    requires v.JObject? && k < |v.entries|
    ensures "\n" + Text(EntryTokens(v, k, {}, {}, path, indent)) + (Indent(indent) + "}")
         == Tail(EntryParts(v.entries[k..], Indent(indent) + "  "), Indent(indent) + "  ",
                 "\n" + (Indent(indent) + "}"))
    decreases v, |v.entries| - k, 0
  {
    var inner := Indent(indent) + "  ";
    var last := k == |v.entries| - 1;
    var entry := v.entries[k];
    var parts := EntryParts(v.entries[k..], inner);
    var keyPath := EntryPath(path, entry.key);
    var value := Tokens(entry.value, {}, {}, keyPath, indent + 1);
    var rest := EntryTokens(v, k + 1, {}, {}, path, indent);
    TokensPrint(entry.value, keyPath, indent + 1);
    DeeperIndent(indent);
    RowText(EntryHead(inner, entry.key, keyPath), value, last, rest);
    HeadText(inner, entry.key, keyPath, Serialize(entry.value, inner));
    EntrySuffix(v.entries, k, inner);
    if !last { EntryTokensText(v, k + 1, path, indent); }
    RowTail(parts, inner, Text(rest), Indent(indent) + "}");
  }

  /** The closing line of a bracketed list, regrouped. */
  lemma ListClose(open: string, body: string, indent: string, close: string)
    ensures open + "\n" + body + indent + close == open + ("\n" + body + (indent + close))
    ensures "\n" + indent + close == "\n" + (indent + close)
  {
  }

  lemma {:induction false} ArrayPrints(v: JsonValue, path: string, indent: nat)
    requires v.JArray? && v.items != []
    ensures Text(Tokens(v, {}, {}, path, indent)) == Serialize(v, Indent(indent))
    decreases v, Children(v), 1
  {
    var inner := Indent(indent) + "  ";
    var body := ItemTokens(v, 0, {}, {}, path, indent);
    ListText(Token(FoldableStart(true), "[", Some(path)), body, Token(FoldableEnd, "]", None), Indent(indent));
    assert v.items[0..] == v.items;
    ItemTokensText(v, 0, path, indent);
    BracketedTail('[', ItemParts(v.items, inner), Indent(indent), ']');
    ListClose("[", Text(body), Indent(indent), "]");
  }

  lemma {:induction false} ObjectPrints(v: JsonValue, path: string, indent: nat)
    requires v.JObject? && v.entries != []
    ensures Text(Tokens(v, {}, {}, path, indent)) == Serialize(v, Indent(indent))
    decreases v, Children(v), 1
  {
    var inner := Indent(indent) + "  ";
    var body := EntryTokens(v, 0, {}, {}, path, indent);
    ListText(Token(FoldableStart(false), "{", Some(path)), body, Token(FoldableEnd, "}", None), Indent(indent));
    assert v.entries[0..] == v.entries;
    EntryTokensText(v, 0, path, indent);
    BracketedTail('{', EntryParts(v.entries, inner), Indent(indent), '}');
    ListClose("{", Text(body), Indent(indent), "}");
  }

  /** With nothing folded or toggled, the tokens spell the two-space serialization. */
  lemma {:induction false} TokensPrint(v: JsonValue, path: string, indent: nat)
    ensures Text(Tokens(v, {}, {}, path, indent)) == Serialize(v, Indent(indent))
    decreases v, Children(v) + 1
  {
    if v.JArray? && v.items != [] {
      ArrayPrints(v, path, indent);
    } else if v.JObject? && v.entries != [] {
      ObjectPrints(v, path, indent);
    } else {
      var tokens := Tokens(v, {}, {}, path, indent);
      assert |tokens| == 1 && Text(tokens) == tokens[0].value + Text(tokens[1..]);
    }
  }

  /** The unfolded view is a faithful copy: its text is `JSON.stringify(data, null, 2)` and parses back. */
  lemma ViewRoundTrips(v: JsonValue)
    requires WellFormed(v)
    ensures Text(Tokens(v, {}, {}, "$", 0)) == Serialize(v, "")
    ensures Parse(Text(Tokens(v, {}, {}, "$", 0))) == Some(v)
  {
    TokensPrint(v, "$", 0);
    ParseInvertsSerialize(v);
  }

  // ----- Foldable paths -----

  function CollectFoldablePaths(v: JsonValue, path: string): seq<string>
    decreases v, Children(v) + 1
  {
    match v
    case JArray(items) => if items == [] then [] else [path] + CollectItems(v, 0, path)
    case JObject(entries) => if entries == [] then [] else [path] + CollectEntries(v, 0, path)
    case _ => []
  }

  function CollectItems(v: JsonValue, k: nat, path: string): seq<string>
    requires v.JArray?
    decreases v, if k <= |v.items| then |v.items| - k else 0
  {
    if k >= |v.items| then [] else CollectFoldablePaths(v.items[k], ItemPath(path, k)) + CollectItems(v, k + 1, path)
  }

  function CollectEntries(v: JsonValue, k: nat, path: string): seq<string>
    requires v.JObject?
    decreases v, if k <= |v.entries| then |v.entries| - k else 0
  {
    if k >= |v.entries| then []
    else CollectFoldablePaths(v.entries[k].value, EntryPath(path, v.entries[k].key)) + CollectEntries(v, k + 1, path)
  }

  /** The paths of the tokens that can be folded, in order. */
  function FoldStarts(tokens: seq<Token>): seq<string> {
    if tokens == [] then []
    else
      (if tokens[0].kind.FoldableStart? && tokens[0].path.Some? then [tokens[0].path.value] else [])
      + FoldStarts(tokens[1..])
  }

  lemma {:induction false} FoldStartsConcat(a: seq<Token>, b: seq<Token>)
    ensures FoldStarts(a + b) == FoldStarts(a) + FoldStarts(b)
  {
    if a == [] {
      assert a + b == b;
    } else {
      assert (a + b)[1..] == a[1..] + b;
      FoldStartsConcat(a[1..], b);
    }
  }

  lemma RowFolds(head: seq<Token>, value: seq<Token>, last: bool, rest: seq<Token>)
    requires FoldStarts(head) == []
    ensures FoldStarts(head + value + Comma(last) + [Space("\n")] + rest) == FoldStarts(value) + FoldStarts(rest)
  {
    FoldStartsConcat(head, value);
    FoldStartsConcat(head + value, Comma(last));
    FoldStartsConcat(head + value + Comma(last), [Space("\n")]);
    FoldStartsConcat(head + value + Comma(last) + [Space("\n")], rest);
    assert FoldStarts(Comma(last)) == [];
  }

  lemma ListFolds(open: Token, body: seq<Token>, close: Token, indent: string)
    requires open.kind.FoldableStart? && open.path.Some? && !close.kind.FoldableStart?
    ensures FoldStarts([open] + ([Space("\n")] + body + [Space(indent)]) + [close])
         == [open.path.value] + FoldStarts(body)
  {
    FoldStartsConcat([open] + ([Space("\n")] + body + [Space(indent)]), [close]);
    FoldStartsConcat([open], [Space("\n")] + body + [Space(indent)]);
    FoldStartsConcat([Space("\n")] + body, [Space(indent)]);
    FoldStartsConcat([Space("\n")], body);
  }

  lemma {:induction false} ItemFolds(v: JsonValue, k: nat, toggled: set<string>, path: string, indent: nat)
    requires v.JArray? && k <= |v.items|
    ensures FoldStarts(ItemTokens(v, k, toggled, {}, path, indent)) == CollectItems(v, k, path)
    decreases v, |v.items| - k
  {
    if k < |v.items| {
      var inner := Indent(indent) + "  ";
      var value := Tokens(v.items[k], toggled, {}, ItemPath(path, k), indent + 1);
      var rest := ItemTokens(v, k + 1, toggled, {}, path, indent);
      FoldableStartsAreCollected(v.items[k], toggled, ItemPath(path, k), indent + 1);
      ItemFolds(v, k + 1, toggled, path, indent);
      RowFolds([Space(inner)], value, k == |v.items| - 1, rest);
      assert ItemTokens(v, k, toggled, {}, path, indent)
          == [Space(inner)] + value + Comma(k == |v.items| - 1) + [Space("\n")] + rest;
    }
  }

  lemma HeadFolds(inner: string, key: string, keyPath: string)
    ensures FoldStarts(EntryHead(inner, key, keyPath)) == []
  {
    var name, colon := [Token(Key, Quote(key), Some(keyPath))], [Token(Punctuation, ": ", None)];
    FoldStartsConcat([Space(inner)], name);
    FoldStartsConcat([Space(inner)] + name, colon);
  }

  lemma {:induction false} EntryFolds(v: JsonValue, k: nat, toggled: set<string>, path: string, indent: nat)
    requires v.JObject? && k <= |v.entries|
    ensures FoldStarts(EntryTokens(v, k, toggled, {}, path, indent)) == CollectEntries(v, k, path)
    decreases v, |v.entries| - k
  {
    if k < |v.entries| {
      var entry := v.entries[k];
      var keyPath := EntryPath(path, entry.key);
      var head := EntryHead(Indent(indent) + "  ", entry.key, keyPath);
      FoldableStartsAreCollected(entry.value, toggled, keyPath, indent + 1);
      EntryFolds(v, k + 1, toggled, path, indent);
      HeadFolds(Indent(indent) + "  ", entry.key, keyPath);
      RowFolds(head, Tokens(entry.value, toggled, {}, keyPath, indent + 1),
               k == |v.entries| - 1, EntryTokens(v, k + 1, toggled, {}, path, indent));
    }
  }

  /** With nothing folded, the collected paths are exactly those of the foldable tokens, in order. */
  lemma {:induction false} FoldableStartsAreCollected(v: JsonValue, toggled: set<string>, path: string, indent: nat)
    ensures FoldStarts(Tokens(v, toggled, {}, path, indent)) == CollectFoldablePaths(v, path)
    decreases v, Children(v) + 1
  {
    if v.JArray? && v.items != [] {
      ItemFolds(v, 0, toggled, path, indent);
      ListFolds(Token(FoldableStart(true), "[", Some(path)), ItemTokens(v, 0, toggled, {}, path, indent),
                Token(FoldableEnd, "]", None), Indent(indent));
    } else if v.JObject? && v.entries != [] {
      EntryFolds(v, 0, toggled, path, indent);
      ListFolds(Token(FoldableStart(false), "{", Some(path)), EntryTokens(v, 0, toggled, {}, path, indent),
                Token(FoldableEnd, "}", None), Indent(indent));
    }
  }

  // ----- Brackets in any view -----

  /** Foldable starts and ends match like brackets; `open` holds the kinds still open, innermost first. */
  predicate Nested(tokens: seq<Token>, open: seq<bool>)
    decreases |tokens|
  {
    if tokens == [] then open == []
    else
      match tokens[0].kind
      case FoldableStart(isArray) =>
        tokens[0].value == (if isArray then "[" else "{") && Nested(tokens[1..], [isArray] + open)
      case FoldableEnd =>
        open != [] && tokens[0].value == (if open[0] then "]" else "}") && Nested(tokens[1..], open[1..])
      case _ => Nested(tokens[1..], open)
  }

  predicate Plain(tokens: seq<Token>) {
    forall i :: 0 <= i < |tokens| ==> !tokens[i].kind.FoldableStart? && !tokens[i].kind.FoldableEnd?
  }

  lemma {:induction false} PlainIsSkipped(plain: seq<Token>, rest: seq<Token>, open: seq<bool>)
    requires Plain(plain)
    ensures Nested(plain + rest, open) == Nested(rest, open)
  {
    if plain == [] {
      assert plain + rest == rest;
    } else {
      assert (plain + rest)[1..] == plain[1..] + rest;
      PlainIsSkipped(plain[1..], rest, open);
    }
  }

  lemma BracketsEnclose(isArray: bool, path: string, body: seq<Token>, rest: seq<Token>, open: seq<bool>)
    requires forall more, o :: Nested(body + more, o) == Nested(more, o)
    ensures
      var first := Token(FoldableStart(isArray), if isArray then "[" else "{", Some(path));
      var last := Token(FoldableEnd, if isArray then "]" else "}", None);
      Nested([first] + body + [last] + rest, open) == Nested(rest, open)
  {
    var first := Token(FoldableStart(isArray), if isArray then "[" else "{", Some(path));
    var last := Token(FoldableEnd, if isArray then "]" else "}", None);
    var all := [first] + body + [last] + rest;
    assert all[1..] == body + ([last] + rest);
    assert ([last] + rest)[1..] == rest && ([isArray] + open)[1..] == open;
    assert Nested(all, open) == Nested(all[1..], [isArray] + open);
    assert Nested([last] + rest, [isArray] + open) == Nested(rest, open);
  }

  lemma OpenBody(rows: seq<Token>, indent: string, rest: seq<Token>, open: seq<bool>)
    requires forall more, o :: Nested(rows + more, o) == Nested(more, o)
    ensures Nested([Space("\n")] + rows + [Space(indent)] + rest, open) == Nested(rest, open)
  {
    assert [Space("\n")] + rows + [Space(indent)] + rest == [Space("\n")] + (rows + ([Space(indent)] + rest));
    PlainIsSkipped([Space("\n")], rows + ([Space(indent)] + rest), open);
    PlainIsSkipped([Space(indent)], rest, open);
  }

  lemma RowNests(head: seq<Token>, value: seq<Token>, last: bool, rows: seq<Token>, rest: seq<Token>, open: seq<bool>)
    requires Plain(head)
    requires forall more, o :: Nested(value + more, o) == Nested(more, o)
    requires forall more, o :: Nested(rows + more, o) == Nested(more, o)
    ensures Nested(head + value + Comma(last) + [Space("\n")] + rows + rest, open) == Nested(rest, open)
  {
    var tail := Comma(last) + [Space("\n")];
    assert head + value + Comma(last) + [Space("\n")] + rows + rest == head + (value + (tail + (rows + rest)));
    PlainIsSkipped(head, value + (tail + (rows + rest)), open);
    PlainIsSkipped(tail, rows + rest, open);
  }

  lemma {:induction false} ItemsNest(v: JsonValue, k: nat, toggled: set<string>, folded: set<string>, path: string,
                                     indent: nat, rest: seq<Token>, open: seq<bool>)
    requires v.JArray? && k <= |v.items|
    ensures Nested(ItemTokens(v, k, toggled, folded, path, indent) + rest, open) == Nested(rest, open)
    decreases v, |v.items| - k, 0
  {
    if k == |v.items| {
      assert [] + rest == rest;
    } else {
      var value := Tokens(v.items[k], toggled, folded, ItemPath(path, k), indent + 1);
      var rows := ItemTokens(v, k + 1, toggled, folded, path, indent);
      forall more, o
        ensures Nested(value + more, o) == Nested(more, o)
      {
        TokensNest(v.items[k], toggled, folded, ItemPath(path, k), indent + 1, more, o);
      }
      forall more, o
        ensures Nested(rows + more, o) == Nested(more, o)
      {
        ItemsNest(v, k + 1, toggled, folded, path, indent, more, o);
      }
      RowNests([Space(Indent(indent) + "  ")], value, k == |v.items| - 1, rows, rest, open);
    }
  }

  lemma {:induction false} EntriesNest(v: JsonValue, k: nat, toggled: set<string>, folded: set<string>, path: string,
                                       indent: nat, rest: seq<Token>, open: seq<bool>)
    requires v.JObject? && k <= |v.entries|
    ensures Nested(EntryTokens(v, k, toggled, folded, path, indent) + rest, open) == Nested(rest, open)
    decreases v, |v.entries| - k, 0
  {
    if k == |v.entries| {
      assert [] + rest == rest;
    } else {
      var entry := v.entries[k];
      var keyPath := EntryPath(path, entry.key);
      var value := Tokens(entry.value, toggled, folded, keyPath, indent + 1);
      var rows := EntryTokens(v, k + 1, toggled, folded, path, indent);
      forall more, o
        ensures Nested(value + more, o) == Nested(more, o)
      {
        TokensNest(entry.value, toggled, folded, keyPath, indent + 1, more, o);
      }
      forall more, o
        ensures Nested(rows + more, o) == Nested(more, o)
      {
        EntriesNest(v, k + 1, toggled, folded, path, indent, more, o);
      }
      RowNests(EntryHead(Indent(indent) + "  ", entry.key, keyPath), value, k == |v.entries| - 1, rows, rest, open);
    }
  }

  /** What stands between the brackets of a list. */
  function Body(v: JsonValue, toggled: set<string>, folded: set<string>, path: string, indent: nat): seq<Token>
    requires Children(v) > 0
  {
    if path in folded then [Token(Punctuation, " ... ", None)]
    else if v.JArray? then [Space("\n")] + ItemTokens(v, 0, toggled, folded, path, indent) + [Space(Indent(indent))]
    else [Space("\n")] + EntryTokens(v, 0, toggled, folded, path, indent) + [Space(Indent(indent))]
  }

  lemma {:induction false} TokensNest(v: JsonValue, toggled: set<string>, folded: set<string>, path: string,
                                      indent: nat, rest: seq<Token>, open: seq<bool>)
    ensures Nested(Tokens(v, toggled, folded, path, indent) + rest, open) == Nested(rest, open)
    decreases v, Children(v) + 1
  {
    if Children(v) == 0 {
      PlainIsSkipped(Tokens(v, toggled, folded, path, indent), rest, open);
    } else {
      var body := Body(v, toggled, folded, path, indent);
      forall more, o
        ensures Nested(body + more, o) == Nested(more, o)
      {
        if path in folded {
        } else {
          BodyNests(v, toggled, folded, path, indent, more, o);
        }
      }
      BracketsEnclose(v.JArray?, path, body, rest, open);
    }
  }

  lemma {:induction false} BodyNests(v: JsonValue, toggled: set<string>, folded: set<string>, path: string,
                                     indent: nat, rest: seq<Token>, open: seq<bool>)
    requires Children(v) > 0 && path !in folded
    ensures Nested(Body(v, toggled, folded, path, indent) + rest, open) == Nested(rest, open)
    decreases v, Children(v), 1
  {
    var rows := if v.JArray? then ItemTokens(v, 0, toggled, folded, path, indent)
                else EntryTokens(v, 0, toggled, folded, path, indent);
    forall more, o
      ensures Nested(rows + more, o) == Nested(more, o)
    {
      if v.JArray? { ItemsNest(v, 0, toggled, folded, path, indent, more, o); }
      else { EntriesNest(v, 0, toggled, folded, path, indent, more, o); }
    }
    OpenBody(rows, Indent(indent), rest, open);
  }

  /** Whatever is folded or toggled, the starts and ends of the view match, arrays with arrays and objects
      with objects. */
  lemma ViewNests(v: JsonValue, toggled: set<string>, folded: set<string>)
    ensures Nested(Tokens(v, toggled, folded, "$", 0), [])
  {
    TokensNest(v, toggled, folded, "$", 0, [], []);
    assert Tokens(v, toggled, folded, "$", 0) + [] == Tokens(v, toggled, folded, "$", 0);
  }

  // ----- Tokens have the kinds they show -----

  /** A token shows something of its kind, and carries a path exactly when it is a key, a literal or a foldable
      start. */
  predicate Typed(t: Token) {
    && (t.path.Some? <==> t.kind.Key? || t.kind.StringLiteral? || t.kind.NumberLiteral? || t.kind.BooleanLiteral?
                          || t.kind.NullLiteral? || t.kind.FoldableStart?)
    && (t.kind.Key? || t.kind.StringLiteral? ==>
          |t.value| >= 2 && t.value[0] == '"' && t.value[|t.value| - 1] == '"')
    && (t.kind.BooleanLiteral? ==> t.value == "true" || t.value == "false")
    && (t.kind.NullLiteral? ==> t.value == "null")
    && (t.kind.Punctuation? ==> t.value in {",", ": ", " ... ", "[]", "{}"})
    && (t.kind.Whitespace? ==> forall c :: c in t.value ==> c == ' ' || c == '\n')
    && (t.kind.FoldableStart? ==> t.value == if t.kind.isArray then "[" else "{")
    && (t.kind.FoldableEnd? ==> t.value == "]" || t.value == "}")
  }

  predicate IsColon(t: Token) {
    t == Token(Punctuation, ": ", None)
  }

  predicate BeforeColon(tokens: seq<Token>, i: nat) {
    i + 1 < |tokens| && IsColon(tokens[i + 1])
  }

  /** Typed tokens in which the keys are exactly the tokens before a colon. */
  ghost predicate WellTyped(tokens: seq<Token>) {
    && (forall i :: 0 <= i < |tokens| ==>
          Typed(tokens[i]) && (tokens[i].kind.Key? <==> BeforeColon(tokens, i)))
    && (tokens != [] ==> !IsColon(tokens[0]))
  }

  lemma WellTypedConcat(a: seq<Token>, b: seq<Token>)
    requires WellTyped(a) && WellTyped(b)
    ensures WellTyped(a + b)
  {
    var both := a + b;
    forall i | 0 <= i < |both|
      ensures Typed(both[i]) && (both[i].kind.Key? <==> BeforeColon(both, i))
    {
      if i < |a| {
        assert both[i] == a[i] && (a[i].kind.Key? <==> BeforeColon(a, i));
        assert i + 1 < |a| ==> both[i + 1] == a[i + 1];
        assert i + 1 == |a| && b != [] ==> both[i + 1] == b[0];
      } else {
        assert both[i] == b[i - |a|] && (b[i - |a|].kind.Key? <==> BeforeColon(b, i - |a|));
        assert i + 1 < |both| ==> both[i + 1] == b[i - |a| + 1];
      }
    }
  }

  lemma {:induction false} IndentTyped(n: nat)
    ensures forall c :: c in Indent(n) ==> c == ' '
  {
    if n > 0 { IndentTyped(n - 1); }
  }

  /** A single token that is neither a key nor a colon. */
  lemma OneTyped(t: Token)
    requires Typed(t) && !t.kind.Key? && !IsColon(t)
    ensures WellTyped([t])
  {
  }

  lemma HeadTyped(inner: string, key: string, keyPath: string)
    requires forall c :: c in inner ==> c == ' '
    ensures WellTyped(EntryHead(inner, key, keyPath))
  {
    var head := EntryHead(inner, key, keyPath);
    assert head == [Space(inner), Token(Key, Quote(key), Some(keyPath)), Token(Punctuation, ": ", None)];
  }

  lemma RowTyped(head: seq<Token>, value: seq<Token>, last: bool, rows: seq<Token>)
    requires WellTyped(head) && WellTyped(value) && WellTyped(rows)
    ensures WellTyped(head + value + Comma(last) + [Space("\n")] + rows)
  {
    if !last { OneTyped(Comma(last)[0]); }
    OneTyped(Space("\n"));
    WellTypedConcat(head, value);
    WellTypedConcat(head + value, Comma(last));
    WellTypedConcat(head + value + Comma(last), [Space("\n")]);
    WellTypedConcat(head + value + Comma(last) + [Space("\n")], rows);
  }

  lemma {:induction false} ItemsTyped(v: JsonValue, k: nat, toggled: set<string>, folded: set<string>, path: string,
                                      indent: nat)
    requires v.JArray? && k <= |v.items|
    ensures WellTyped(ItemTokens(v, k, toggled, folded, path, indent))
    decreases v, |v.items| - k
  {
    if k < |v.items| {
      var value := Tokens(v.items[k], toggled, folded, ItemPath(path, k), indent + 1);
      TokensTyped(v.items[k], toggled, folded, ItemPath(path, k), indent + 1);
      ItemsTyped(v, k + 1, toggled, folded, path, indent);
      IndentTyped(indent);
      OneTyped(Space(Indent(indent) + "  "));
      RowTyped([Space(Indent(indent) + "  ")], value, k == |v.items| - 1,
               ItemTokens(v, k + 1, toggled, folded, path, indent));
    }
  }

  lemma EntryRowTyped(v: JsonValue, k: nat, toggled: set<string>, folded: set<string>, path: string, indent: nat,
                      value: seq<Token>, rows: seq<Token>)
    requires v.JObject? && k < |v.entries| && WellTyped(value) && WellTyped(rows)
    requires value == Tokens(v.entries[k].value, toggled, folded, EntryPath(path, v.entries[k].key), indent + 1)
    requires rows == EntryTokens(v, k + 1, toggled, folded, path, indent)
    ensures WellTyped(EntryTokens(v, k, toggled, folded, path, indent))
  {
    var keyPath := EntryPath(path, v.entries[k].key);
    var head := EntryHead(Indent(indent) + "  ", v.entries[k].key, keyPath);
    IndentTyped(indent);
    HeadTyped(Indent(indent) + "  ", v.entries[k].key, keyPath);
    RowTyped(head, value, k == |v.entries| - 1, rows);
  }

  lemma {:induction false} EntriesTyped(v: JsonValue, k: nat, toggled: set<string>, folded: set<string>, path: string,
                                        indent: nat)
    requires v.JObject? && k <= |v.entries|
    ensures WellTyped(EntryTokens(v, k, toggled, folded, path, indent))
    decreases v, |v.entries| - k
  {
    if k < |v.entries| {
      var keyPath := EntryPath(path, v.entries[k].key);
      TokensTyped(v.entries[k].value, toggled, folded, keyPath, indent + 1);
      EntriesTyped(v, k + 1, toggled, folded, path, indent);
      EntryRowTyped(v, k, toggled, folded, path, indent,
                    Tokens(v.entries[k].value, toggled, folded, keyPath, indent + 1),
                    EntryTokens(v, k + 1, toggled, folded, path, indent));
    }
  }

  lemma BracketsTyped(isArray: bool, path: string, body: seq<Token>)
    requires WellTyped(body)
    ensures
      var start := Token(FoldableStart(isArray), if isArray then "[" else "{", Some(path));
      WellTyped([start] + body + [Token(FoldableEnd, if isArray then "]" else "}", None)])
  {
    var start := Token(FoldableStart(isArray), if isArray then "[" else "{", Some(path));
    var end := Token(FoldableEnd, if isArray then "]" else "}", None);
    OneTyped(start);
    OneTyped(end);
    WellTypedConcat([start], body);
    WellTypedConcat([start] + body, [end]);
  }

  lemma BodyTyped(rows: seq<Token>, indent: nat)
    requires WellTyped(rows)
    ensures WellTyped([Space("\n")] + rows + [Space(Indent(indent))])
  {
    IndentTyped(indent);
    OneTyped(Space("\n"));
    OneTyped(Space(Indent(indent)));
    WellTypedConcat([Space("\n")], rows);
    WellTypedConcat([Space("\n")] + rows, [Space(Indent(indent))]);
  }

  /** In any view, each token shows what its kind says, and the keys are exactly the tokens before a colon. */
  lemma {:induction false} TokensTyped(v: JsonValue, toggled: set<string>, folded: set<string>, path: string,
                                       indent: nat)
    ensures WellTyped(Tokens(v, toggled, folded, path, indent))
    decreases v, Children(v) + 1
  {
    if Children(v) > 0 {
      if path in folded {
        OneTyped(Token(Punctuation, " ... ", None));
      } else if v.JArray? {
        ItemsTyped(v, 0, toggled, folded, path, indent);
        BodyTyped(ItemTokens(v, 0, toggled, folded, path, indent), indent);
      } else {
        EntriesTyped(v, 0, toggled, folded, path, indent);
        BodyTyped(EntryTokens(v, 0, toggled, folded, path, indent), indent);
      }
      BracketsTyped(v.JArray?, path, Body(v, toggled, folded, path, indent));
    }
  }

  /** The key of each entry carries the path of its value. */
  lemma KeyTold(v: JsonValue, k: nat, toggled: set<string>, folded: set<string>, path: string, indent: nat)
    requires v.JObject? && k < |v.entries|
    ensures
      var rows := EntryTokens(v, k, toggled, folded, path, indent);
      |rows| > 1 && rows[1] == Token(Key, Quote(v.entries[k].key), Some(path + "." + v.entries[k].key))
  {
  }

  // ----- What single tokens show -----

  /** A value that is no list is one token of its kind, at its path. A string is shown escaped, or as it is between
      quotes once it is toggled. */
  lemma LeafTold(text: string, s: string, b: bool, toggled: set<string>, folded: set<string>, path: string, indent: nat)
    ensures Tokens(JNull, toggled, folded, path, indent) == [Token(NullLiteral, "null", Some(path))]
    ensures Tokens(JBool(b), toggled, folded, path, indent) ==
            [Token(BooleanLiteral, if b then "true" else "false", Some(path))]
    ensures Tokens(JNumber(text), toggled, folded, path, indent) == [Token(NumberLiteral, text, Some(path))]
    ensures path !in toggled ==>
              Tokens(JString(s), toggled, folded, path, indent) == [Token(StringLiteral, Quote(s), Some(path))]
    ensures path in toggled ==>
              Tokens(JString(s), toggled, folded, path, indent) == [Token(StringLiteral, "\"" + s + "\"", Some(path))]
    ensures Tokens(JArray([]), toggled, folded, path, indent) == [Token(Punctuation, "[]", None)]
    ensures Tokens(JObject([]), toggled, folded, path, indent) == [Token(Punctuation, "{}", None)]
  {
  }

  lemma ThreeTokens(a: Token, b: Token, c: Token)
    ensures Text([a, b, c]) == a.value + b.value + c.value
  {
    assert [a, b, c][1..] == [b, c] && [b, c][1..] == [c] && [c][1..] == [];
    assert Text([c]) == c.value;
    assert Text([b, c]) == b.value + c.value;
    assert a.value + (b.value + c.value) == a.value + b.value + c.value;
  }

  /** A folded list shows its brackets around an ellipsis, whatever it holds. */
  lemma FoldedTold(v: JsonValue, toggled: set<string>, folded: set<string>, path: string, indent: nat)
    requires Children(v) > 0 && path in folded
    ensures Tokens(v, toggled, folded, path, indent)
         == [Token(FoldableStart(v.JArray?), if v.JArray? then "[" else "{", Some(path)),
             Token(Punctuation, " ... ", None), Token(FoldableEnd, if v.JArray? then "]" else "}", None)]
    ensures Text(Tokens(v, toggled, folded, path, indent))
         == (if v.JArray? then "[" else "{") + " ... " + (if v.JArray? then "]" else "}")
  {
    ThreeTokens(Token(FoldableStart(v.JArray?), if v.JArray? then "[" else "{", Some(path)),
                Token(Punctuation, " ... ", None), Token(FoldableEnd, if v.JArray? then "]" else "}", None));
  }

  /** Paths are written as the viewer shows them, and an indentation is two spaces a level. */
  lemma PathsTold(path: string, key: string)
    ensures ItemPath("$", 0) == "$[0]" && ItemPath(path, 12) == path + "[12]"
    ensures EntryPath(path, key) == path + "." + key
    ensures Indent(0) == "" && Indent(1) == "  " && Indent(2) == "    "
  {
    assert Numeral(0) == "0" && Numeral(1) == "1" && Numeral(12) == "12";
  }
}
