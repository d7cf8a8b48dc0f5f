/** The filter box's text as the client parses and applies it. */
module FilterQuery {
  import opened Rows
  import opened JsonEquality
  import opened PathTokens
  import opened PathWalk
  import opened FilterTerms

  datatype Api = Api(filter: string, q: string, path: Option<string>, op: Option<string>)

  /** The predicate built for a query, with what it captured. */
  datatype Predicate =
    | AlwaysTrue
    | Contains(q: string)
    | KeyContains(q: string)
    | KeyEq(q: string)
    | KeyNeq(q: string)
    | KeyCmp(op: CmpOp, q: string)
    | ValueContains(q: string)
    | ValueEq(q: string)
    | ValueNeq(q: string)
    | ValueCmp(op: CmpOp, q: string)
    | JsonContains(path: string, q: string)
    | JsonTextEq(path: string, q: string)
    | JsonTextNeq(path: string, q: string)
    | JsonCmp(path: string, op: CmpOp, q: string)

  datatype Parsed = Parsed(api: Option<Api>, accepts: Predicate)

  predicate OperatorAt(text: string, i: nat) {
    i < |text| && (text[i] == ':' || text[i] == '=' || text[i] == '>' || text[i] == '<' ||
                   (text[i] == '!' && i + 1 < |text| && text[i + 1] == '='))
  }

  /** Whether an odd number of quotes comes before position `i`. */
  predicate Inside(text: string, i: nat)
    requires i <= |text|
  {
    i > 0 && Inside(text, i - 1) != (text[i - 1] == '"')
  }

  lemma {:induction false} NeverInside(text: string, i: nat)
    requires i <= |text| && QuoteFree(text)
    ensures !Inside(text, i)
  {
    if i > 0 { NeverInside(text, i - 1); }
  }

  /** An operator that really operates: outside double quotes. */
  predicate Operates(text: string, i: nat) {
    OperatorAt(text, i) && !Inside(text, i)
  }

  /** The first operating position from `i` on. */
  function FirstOperator(text: string, i: nat): (r: int)
    requires i <= |text|
    ensures -1 <= r < |text|
    ensures r >= 0 ==> i <= r && Operates(text, r)
    ensures forall j | i <= j < (if r < 0 then |text| else r) :: !Operates(text, j)
    decreases |text| - i
  {
    if i == |text| then -1 else if Operates(text, i) then i else FirstOperator(text, i + 1)
  }

  method UnquotedOperatorIndex(text: string) returns (index: int)
    ensures index == FirstOperator(text, 0)
  {
    var inQuotes := false;
    index := 0;
    while index < |text|
      invariant 0 <= index <= |text| && inQuotes == Inside(text, index)
      invariant FirstOperator(text, 0) == FirstOperator(text, index)
    {
      var c := text[index];
      if c == '"' {
        inQuotes := !inQuotes;
      } else if !inQuotes {
        if c == ':' || c == '=' || c == '>' || c == '<' { return; }
        if c == '!' && index + 1 < |text| && text[index + 1] == '=' { return; }
      }
      index := index + 1;
    }
    index := -1;
  }

  function Slice(text: string, n: nat): string { text[..if n < |text| then n else |text|] }

  function Drop(text: string, n: nat): string { text[if n < |text| then n else |text|..] }

  predicate PrefixIs(env: Env, text: string, prefix: string) {
    env.lower(Slice(text, |prefix|)) == prefix
  }

  datatype Cmp = Cmp(op: CmpOp, len: nat)

  function CmpAt(text: string, i: nat): Option<Cmp> {
    if i >= |text| || (text[i] != '>' && text[i] != '<') then None else
    var twoChar := i + 1 < |text| && text[i + 1] == '=';
    var op := if text[i] == '>' then (if twoChar then Gte else Gt) else (if twoChar then Lte else Lt);
    Some(Cmp(op, if twoChar then 2 else 1))
  }

  function Wire(op: CmpOp): string {
    match op
    case Gt => "gt"
    case Gte => "gte"
    case Lt => "lt"
    case Lte => "lte"
  }

  function Plainly(kind: string, q: string, p: Predicate): Parsed {
    Parsed(Some(Api(kind, q, None, None)), p)
  }

  /** A `value.` expression whose operator sits at `at`. */
  function ParsePath(rest: string, at: nat): Parsed
    requires 0 < at && OperatorAt(rest, at)
  {
    var path, ch := rest[..at], rest[at];
    if ch == ':' then
      var q := Drop(rest, at + 1);
      Parsed(Some(Api("json_contains", q, Some(path), None)), JsonContains(path, q))
    else if ch == '=' then
      var q := Drop(rest, at + 1);
      Parsed(Some(Api("json_eq", q, Some(path), None)), JsonTextEq(path, q))
    else if ch == '!' then
      var q := Drop(rest, at + 2);
      Parsed(Some(Api("json_neq", q, Some(path), None)), JsonTextNeq(path, q))
    else
      var c := CmpAt(rest, at).value;
      var q := Drop(rest, at + c.len);
      Parsed(Some(Api("json_cmp", q, Some(path), Some(Wire(c.op)))), JsonCmp(path, c.op, q))
  }

  function ParseKey(env: Env, text: string): Option<Parsed> {
    if PrefixIs(env, text, "key:") then var q := Drop(text, 4); Some(Plainly("key_contains", q, KeyContains(q)))
    else if PrefixIs(env, text, "key=") then var q := Drop(text, 4); Some(Plainly("key_eq", q, KeyEq(q)))
    else if PrefixIs(env, text, "key!=") then var q := Drop(text, 5); Some(Plainly("key_neq", q, KeyNeq(q)))
    else
    var cmp := if PrefixIs(env, text, "key>") || PrefixIs(env, text, "key<") then CmpAt(text, 3) else None;
    if cmp.None? then None else
    var q := Drop(text, 3 + cmp.value.len);
    Some(Parsed(Some(Api("key_cmp", q, None, Some(Wire(cmp.value.op)))), KeyCmp(cmp.value.op, q)))
  }

  function ParseValue(env: Env, text: string): Option<Parsed> {
    if PrefixIs(env, text, "value:") then var q := Drop(text, 6); Some(Plainly("value_contains", q, ValueContains(q)))
    else if PrefixIs(env, text, "value=") then var q := Drop(text, 6); Some(Plainly("value_eq", q, ValueEq(q)))
    else if PrefixIs(env, text, "value!=") then var q := Drop(text, 7); Some(Plainly("value_neq", q, ValueNeq(q)))
    else
    var cmp := if PrefixIs(env, text, "value>") || PrefixIs(env, text, "value<") then CmpAt(text, 5) else None;
    if cmp.None? then None else
    var q := Drop(text, 5 + cmp.value.len);
    Some(Parsed(Some(Api("value_cmp", q, None, Some(Wire(cmp.value.op)))), ValueCmp(cmp.value.op, q)))
  }

  function ParseField(env: Env, text: string): Option<Parsed> {
    if !PrefixIs(env, text, "value.") then None else
    var rest := Drop(text, 6);
    var at := FirstOperator(rest, 0);
    if at > 0 then Some(ParsePath(rest, at)) else None
  }

  /** The forms are tried in this order; anything else is a bare search. */
  function ParseFilterQuery(env: Env, text: string): Parsed {
    if text == "" then Parsed(None, AlwaysTrue)
    else if |text| >= 2 && text[0] == '"' && text[|text| - 1] == '"' then
      var q := text[1..|text| - 1];
      if q == "" then Parsed(None, AlwaysTrue) else Plainly("contains", q, Contains(q))
    else
    var key, value, field := ParseKey(env, text), ParseValue(env, text), ParseField(env, text);
    if key.Some? then key.value
    else if value.Some? then value.value
    else if field.Some? then field.value
    else Plainly("contains", text, Contains(text))
  }

  predicate AnyJsonPathMatch(env: Env, msg: Content, path: string, test: Json -> bool) {
    Readable(msg) &&
    var root := env.clientParse(msg.value.value.text);
    root.Some? && SomeClient(ClientCandidates(Own(root.value), Tokens(path)), test)
  }

  /** The `=`/`!=` reading of a value, none when it is unreadable. */
  function ValueEqualsCheck(env: Env, q: string, msg: Content): Option<bool> {
    if !Readable(msg) then None else
    var expected, actual := env.clientParse(q), env.clientParse(msg.value.value.text);
    if expected.Some? && actual.Some? then Some(JsonEq(env.lower, actual.value, expected.value))
    else Some(env.lower(msg.value.value.text) == env.lower(q))
  }

  predicate Accepts(env: Env, p: Predicate, msg: Content) {
    match p
    case AlwaysTrue => true
    case Contains(q) =>
      var needle := env.lower(q);
      var keyHit := msg.key.Some? && Includes(env.lower(msg.key.value.text), needle);
      var valueHit := Readable(msg) && Includes(env.lower(msg.value.value.text), needle);
      keyHit || valueHit
    case KeyContains(q) => msg.key.Some? && Includes(env.lower(msg.key.value.text), env.lower(q))
    case KeyEq(q) => msg.key.Some? && env.lower(msg.key.value.text) == env.lower(q)
    case KeyNeq(q) => msg.key.Some? && env.lower(msg.key.value.text) != env.lower(q)
    case KeyCmp(op, q) =>
      var expected := JsonNumber(env.clientParse, q);
      expected.Some? && msg.key.Some? &&
      var target := JsonNumber(env.clientParse, msg.key.value.text);
      target.Some? && CmpHolds(op, target.value, expected.value)
    case ValueContains(q) => Readable(msg) && Includes(env.lower(msg.value.value.text), env.lower(q))
    case ValueEq(q) => ValueEqualsCheck(env, q, msg) == Some(true)
    case ValueNeq(q) => ValueEqualsCheck(env, q, msg) == Some(false)
    case ValueCmp(op, q) =>
      var expected := JsonNumber(env.clientParse, q);
      expected.Some? && Readable(msg) &&
      var root := env.clientParse(msg.value.value.text);
      root.Some? &&
      var target := ScalarNumber(env.clientParse, root.value);
      target.Some? && CmpHolds(op, target.value, expected.value)
    case JsonContains(path, q) => AnyJsonPathMatch(env, msg, path, TextHas(env, env.lower(q)))
    case JsonTextEq(path, q) => AnyJsonPathMatch(env, msg, path, TextIs(env, env.lower(q)))
    case JsonTextNeq(path, q) => AnyJsonPathMatch(env, msg, path, TextIsNot(env, env.lower(q)))
    case JsonCmp(path, op, q) =>
      var expected := JsonNumber(env.clientParse, q);
      expected.Some? && AnyJsonPathMatch(env, msg, path, NumberCompares(env.clientParse, op, expected.value))
  }
}
