/**
 Reading a JSON object token by token (internal/fejws/compact.go): a decoder over the tokens of a text, the recursive
 skipper, and the check that the names of an object are distinct (RFC 7515 section 4).
 */
module JsonTokens {
  import opened Prelude

  datatype Json =
    | JNull
    | JBool(value: bool)
    | JNumber(text: string)
    | JString(text: string)
    | JArray(items: Items)
    | JObject(fields: Fields)

  datatype Items = NoItems | Item(head: Json, tail: Items)
  datatype Fields = NoFields | Field(name: string, value: Json, rest: Fields)

  datatype Token = Delim(c: char) | Str(text: string) | Atom(value: Json)

  /** The token stream of a value, as json.Decoder delivers it: commas and colons are not tokens. */
  function Tokens(j: Json): (r: seq<Token>)
    ensures r != [] && !Closing(r[0])
  {
    match j
    case JString(text) => [Str(text)]
    case JArray(items) => [Delim('[')] + ItemTokens(items) + [Delim(']')]
    case JObject(fields) => [Delim('{')] + FieldTokens(fields) + [Delim('}')]
    case _ => [Atom(j)]
  }

  function ItemTokens(items: Items): seq<Token> {
    match items
    case NoItems => []
    case Item(head, tail) => Tokens(head) + ItemTokens(tail)
  }

  function FieldTokens(fields: Fields): seq<Token> {
    match fields
    case NoFields => []
    case Field(name, value, rest) => [Str(name)] + Tokens(value) + FieldTokens(rest)
  }

  function Names(fields: Fields): set<string> {
    match fields
    case NoFields => {}
    case Field(name, _, rest) => {name} + Names(rest)
  }

  predicate DistinctNames(fields: Fields) {
    match fields
    case NoFields => true
    case Field(name, _, rest) => name !in Names(rest) && DistinctNames(rest)
  }

  predicate Closing(t: Token) {
    t == Delim(']') || t == Delim('}')
  }

  // ----- the walk, on any stream -----

  predicate More(ts: seq<Token>, pos: nat) {
    pos < |ts| && !Closing(ts[pos])
  }

  /** Where skipValue leaves a decoder, or None when the stream ends first. */
  function Skip(ts: seq<Token>, pos: nat): (r: Option<nat>)
    ensures r.Some? ==> pos < r.value <= |ts|
    decreases |ts| - pos, 0
  {
    if pos >= |ts| then None
    else if ts[pos] == Delim('{') || ts[pos] == Delim('[') then SkipRest(ts, pos + 1, ts[pos] == Delim('{'))
    else Some(pos + 1)
  }

  function SkipRest(ts: seq<Token>, pos: nat, inObject: bool): (r: Option<nat>)
    requires pos <= |ts|
    ensures r.Some? ==> pos < r.value <= |ts|
    decreases |ts| - pos, 1
  {
    if !More(ts, pos) then (if pos < |ts| then Some(pos + 1) else None)
    else
      match Skip(ts, if inObject then pos + 1 else pos)
      case None => None
      case Some(next) => SkipRest(ts, next, inObject)
  }

  datatype KeyError = InvalidHeader | DuplicateKey

  /** The names from pos on, up to the end of the object, on top of those already seen. */
  function KeysFrom(ts: seq<Token>, pos: nat, seen: set<string>): Result<set<string>, KeyError>
    requires pos <= |ts|
    decreases |ts| - pos
  {
    if More(ts, pos) then
      if !ts[pos].Str? then Err(InvalidHeader)
      else if ts[pos].text in seen then Err(DuplicateKey)
      else
        match Skip(ts, pos + 1)
        case None => Err(InvalidHeader)
        case Some(next) => KeysFrom(ts, next, seen + {ts[pos].text})
    else if pos < |ts| && ts[pos] == Delim('}') then Ok(seen)
    else Err(InvalidHeader)
  }

  function ObjectKeys(ts: seq<Token>): Result<set<string>, KeyError> {
    if ts == [] || ts[0] != Delim('{') then Err(InvalidHeader) else KeysFrom(ts, 1, {})
  }

  // ----- the decoder -----

  class Decoder {
    const tokens: seq<Token>
    var pos: nat

    ghost predicate Valid()
      reads this
    {
      pos <= |tokens|
    }

    constructor (tokens: seq<Token>)
      ensures Valid() && this.tokens == tokens && pos == 0
    {
      this.tokens, pos := tokens, 0;
    }

    predicate HasMore()
      reads this
    {
      More(tokens, pos)
    }

    /** The next token; none at the end of the stream. */
    method Next() returns (t: Option<Token>)
      requires Valid()
      modifies this
      ensures Valid()
      ensures t == if old(pos) < |tokens| then Some(tokens[old(pos)]) else None
      ensures pos == if old(pos) < |tokens| then old(pos) + 1 else old(pos)
    {
      if pos == |tokens| {
        return None;
      }
      t := Some(tokens[pos]);
      pos := pos + 1;
    }
  }

  /** One value further; false when the stream ends inside it. */
  method SkipValue(dec: Decoder) returns (ok: bool)
    requires dec.Valid()
    modifies dec
    ensures dec.Valid() && dec.pos >= old(dec.pos)
    ensures ok == Skip(dec.tokens, old(dec.pos)).Some?
    ensures ok ==> dec.pos == Skip(dec.tokens, old(dec.pos)).value
    decreases |dec.tokens| - dec.pos
  {
    var t := dec.Next();
    if t.None? {
      return false;
    }
    if t.value == Delim('{') || t.value == Delim('[') {
      var inObject := t.value == Delim('{');
      ghost var start := dec.pos;
      while dec.HasMore()
        invariant dec.Valid() && dec.pos >= start
        invariant SkipRest(dec.tokens, start, inObject) == SkipRest(dec.tokens, dec.pos, inObject)
        decreases |dec.tokens| - dec.pos
      {
        if inObject {
          var name := dec.Next();
        }
        ok := SkipValue(dec);
        if !ok {
          return;
        }
      }
      t := dec.Next();
      return t.Some?;
    }
    ok := true;
  }

  /** The top-level names of an object; fails on a repeated one. */
  method ObjectKeysRejectDuplicates(tokens: seq<Token>) returns (r: Result<set<string>, KeyError>)
    ensures r == ObjectKeys(tokens)
  {
    var dec := new Decoder(tokens);
    var t := dec.Next();
    if t.None? || t.value != Delim('{') {
      return Err(InvalidHeader);
    }
    var keys: set<string> := {};
    while dec.HasMore()
      invariant dec.Valid() && dec.tokens == tokens && fresh(dec)
      invariant KeysFrom(tokens, 1, {}) == KeysFrom(tokens, dec.pos, keys)
      decreases |tokens| - dec.pos
    {
      t := dec.Next();
      if !t.value.Str? {
        return Err(InvalidHeader);
      }
      var key := t.value.text;
      if key in keys {
        return Err(DuplicateKey);
      }
      var before := keys;
      keys := keys + {key};
      var ok := SkipValue(dec);
      if !ok {
        return Err(InvalidHeader);
      }
    }
    t := dec.Next();
    if t != Some(Delim('}')) {
      return Err(InvalidHeader);
    }
    r := Ok(keys);
  }

  // ----- on the stream of a value -----

  /** The chunk stands in the stream at pos. */
  predicate At(ts: seq<Token>, pos: nat, chunk: seq<Token>) {
    pos + |chunk| <= |ts| && ts[pos..pos + |chunk|] == chunk
  }

  lemma AtParts(ts: seq<Token>, pos: nat, a: seq<Token>, b: seq<Token>)
    requires At(ts, pos, a + b)
    ensures At(ts, pos, a) && At(ts, pos + |a|, b) && pos + |a| + |b| <= |ts|
    ensures a != [] ==> pos < |ts| && ts[pos] == a[0]
  {
    assert ts[pos..pos + |a|] == ts[pos..pos + |a + b|][..|a|];
    assert ts[pos + |a|..pos + |a| + |b|] == ts[pos..pos + |a + b|][|a|..];
    if a != [] {
      assert ts[pos] == ts[pos..pos + |a|][0];
    }
  }

  lemma AtFirst(ts: seq<Token>, pos: nat, chunk: seq<Token>)
    requires At(ts, pos, chunk) && chunk != []
    ensures pos + |chunk| <= |ts| && ts[pos] == chunk[0]
  {
    assert ts[pos] == ts[pos..pos + |chunk|][0];
  }

  /** Wherever a value stands, of any nesting and whatever follows it, the skipper consumes exactly that value. */
  lemma {:induction false} SkipsExactlyOneValue(ts: seq<Token>, pos: nat, j: Json)
    requires At(ts, pos, Tokens(j))
    ensures Skip(ts, pos) == Some(pos + |Tokens(j)|)
    decreases j
  {
    hide At, ItemTokens, FieldTokens;
    match j
    case JArray(items) =>
      AtParts(ts, pos, [Delim('[')] + ItemTokens(items), [Delim(']')]);
      AtParts(ts, pos, [Delim('[')], ItemTokens(items));
      SkipsItems(ts, pos + 1, items);
    case JObject(fields) =>
      AtParts(ts, pos, [Delim('{')] + FieldTokens(fields), [Delim('}')]);
      AtParts(ts, pos, [Delim('{')], FieldTokens(fields));
      SkipsFields(ts, pos + 1, fields);
    case _ =>
      AtFirst(ts, pos, Tokens(j));
  }

  lemma {:induction false} SkipsItems(ts: seq<Token>, pos: nat, items: Items)
    requires At(ts, pos, ItemTokens(items)) && At(ts, pos + |ItemTokens(items)|, [Delim(']')])
    ensures SkipRest(ts, pos, false) == Some(pos + |ItemTokens(items)| + 1)
    decreases items
  {
    hide At, Tokens;
    match items
    case NoItems => AtFirst(ts, pos, [Delim(']')]);
    case Item(head, tail) =>
      AtParts(ts, pos, Tokens(head), ItemTokens(tail));
      SkipsExactlyOneValue(ts, pos, head);
      SkipsItems(ts, pos + |Tokens(head)|, tail);
  }

  lemma {:induction false} SkipsFields(ts: seq<Token>, pos: nat, fields: Fields)
    requires At(ts, pos, FieldTokens(fields)) && At(ts, pos + |FieldTokens(fields)|, [Delim('}')])
    ensures SkipRest(ts, pos, true) == Some(pos + |FieldTokens(fields)| + 1)
    decreases fields
  {
    hide At, Tokens;
    match fields
    case NoFields => AtFirst(ts, pos, [Delim('}')]);
    case Field(name, value, rest) =>
      FieldAt(ts, pos, name, value, rest);
      SkipsExactlyOneValue(ts, pos + 1, value);
      SkipsFields(ts, pos + 1 + |Tokens(value)|, rest);
  }

  lemma FieldAt(ts: seq<Token>, pos: nat, name: string, value: Json, rest: Fields)
    requires At(ts, pos, FieldTokens(Field(name, value, rest)))
    ensures pos < |ts| && ts[pos] == Str(name)
    ensures At(ts, pos + 1, Tokens(value)) && At(ts, pos + 1 + |Tokens(value)|, FieldTokens(rest))
  {
    AtParts(ts, pos, [Str(name)] + Tokens(value), FieldTokens(rest));
    AtParts(ts, pos, [Str(name)], Tokens(value));
  }

  lemma AtInPrefix(ts: seq<Token>, k: nat, pos: nat, chunk: seq<Token>)
    requires At(ts, pos, chunk) && pos + |chunk| <= k <= |ts|
    ensures At(ts[..k], pos, chunk)
  {
    assert ts[..k][pos..pos + |chunk|] == ts[pos..pos + |chunk|];
  }

  /** And it needs all of it: on a stream cut off anywhere inside the value it fails. */
  lemma {:induction false} CutShortFails(ts: seq<Token>, k: nat, pos: nat, j: Json)
    requires At(ts, pos, Tokens(j)) && pos <= k < pos + |Tokens(j)|
    ensures Skip(ts[..k], pos) == None
    decreases j
  {
    hide At, ItemTokens, FieldTokens;
    AtFirst(ts, pos, Tokens(j));
    if k > pos {
      match j
      case JArray(items) =>
        AtParts(ts, pos, [Delim('[')] + ItemTokens(items), [Delim(']')]);
        AtParts(ts, pos, [Delim('[')], ItemTokens(items));
        ItemsCutShortFail(ts, k, pos + 1, items);
      case JObject(fields) =>
        AtParts(ts, pos, [Delim('{')] + FieldTokens(fields), [Delim('}')]);
        AtParts(ts, pos, [Delim('{')], FieldTokens(fields));
        FieldsCutShortFail(ts, k, pos + 1, fields);
      case _ =>
    }
  }

  lemma {:induction false} ItemsCutShortFail(ts: seq<Token>, k: nat, pos: nat, items: Items)
    requires At(ts, pos, ItemTokens(items)) && pos <= k <= pos + |ItemTokens(items)| && k <= |ts|
    ensures SkipRest(ts[..k], pos, false) == None
    decreases items
  {
    hide At, Tokens;
    match items
    case NoItems =>
    case Item(head, tail) =>
      AtParts(ts, pos, Tokens(head), ItemTokens(tail));
      if k < pos + |Tokens(head)| {
        CutShortFails(ts, k, pos, head);
      } else {
        AtInPrefix(ts, k, pos, Tokens(head));
        SkipsExactlyOneValue(ts[..k], pos, head);
        ItemsCutShortFail(ts, k, pos + |Tokens(head)|, tail);
      }
  }

  lemma {:induction false} FieldsCutShortFail(ts: seq<Token>, k: nat, pos: nat, fields: Fields)
    requires At(ts, pos, FieldTokens(fields)) && pos <= k <= pos + |FieldTokens(fields)| && k <= |ts|
    ensures SkipRest(ts[..k], pos, true) == None
    decreases fields
  {
    hide At, Tokens;
    match fields
    case NoFields =>
    case Field(name, value, rest) =>
      FieldAt(ts, pos, name, value, rest);
      if pos < k < pos + 1 + |Tokens(value)| {
        CutShortFails(ts, k, pos + 1, value);
      } else if k > pos {
        AtInPrefix(ts, k, pos + 1, Tokens(value));
        SkipsExactlyOneValue(ts[..k], pos + 1, value);
        FieldsCutShortFail(ts, k, pos + 1 + |Tokens(value)|, rest);
      }
  }

  lemma {:induction false} KeysOfFields(ts: seq<Token>, pos: nat, fields: Fields, seen: set<string>)
    requires At(ts, pos, FieldTokens(fields)) && At(ts, pos + |FieldTokens(fields)|, [Delim('}')])
    ensures KeysFrom(ts, pos, seen) ==
            if DistinctNames(fields) && Names(fields) !! seen then Ok(seen + Names(fields)) else Err(DuplicateKey)
    decreases fields
  {
    hide At, Tokens;
    match fields
    case NoFields =>
      AtFirst(ts, pos, [Delim('}')]);
      assert seen + Names(fields) == seen;
    case Field(name, value, rest) =>
      FieldAt(ts, pos, name, value, rest);
      SkipsExactlyOneValue(ts, pos + 1, value);
      KeysOfFields(ts, pos + 1 + |Tokens(value)|, rest, seen + {name});
      assert seen + {name} + Names(rest) == seen + Names(fields);
  }

  /**
   On a well-formed object, of any nesting, the check succeeds exactly when the top-level names are pairwise distinct,
   and returns exactly them.
   */
  lemma ObjectKeysOf(fields: Fields)
    ensures ObjectKeys(Tokens(JObject(fields))) ==
            if DistinctNames(fields) then Ok(Names(fields)) else Err(DuplicateKey)
  {
    var ts := Tokens(JObject(fields));
    AtParts(ts, 0, [Delim('{')] + FieldTokens(fields), [Delim('}')]);
    AtParts(ts, 0, [Delim('{')], FieldTokens(fields));
    KeysOfFields(ts, 1, fields, {});
    assert {} + Names(fields) == Names(fields);
  }
}
