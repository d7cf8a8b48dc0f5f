/** The filter as the server parses and applies it. */
module FilterServer {
  import opened Rows
  import opened JsonEquality
  import opened PathTokens
  import opened PathWalk
  import opened FilterTerms

  datatype Filter =
    | KeyEquals(q: string)
    | KeyContains(q: string)
    | ValueContains(q: string)
    | ValueEquals(text: string, json: Option<Json>)
    | KeyNotEquals(q: string)
    | ValueNotEquals(text: string, json: Option<Json>)
    | JsonPathEquals(path: string, value: string)
    | JsonPathNotEquals(path: string, value: string)
    | JsonPathContains(path: string, value: string)
    | KeyCompare(op: CmpOp, number: Option<real>)
    | ValueCompare(op: CmpOp, number: Option<real>)
    | JsonPathCompare(path: string, op: CmpOp, number: Option<real>)
    | AnyContains(q: string)

  datatype ParseError = UnknownKind | NeedsPath | NeedsOp | UnsupportedOp

  datatype Result<T> = Ok(value: T) | Err(error: ParseError)

  function ParseOp(op: Option<string>): Result<CmpOp> {
    if op.None? then Err(NeedsOp)
    else if op.value == "gt" then Ok(Gt)
    else if op.value == "gte" then Ok(Gte)
    else if op.value == "lt" then Ok(Lt)
    else if op.value == "lte" then Ok(Lte)
    else Err(UnsupportedOp)
  }

  function ParseFilter(env: Env, kind: string, q: string, path: Option<string>, op: Option<string>): Result<Filter> {
    if kind == "key_eq" then Ok(KeyEquals(env.lower(q)))
    else if kind == "key_contains" then Ok(KeyContains(env.lower(q)))
    else if kind == "value_contains" then Ok(ValueContains(env.lower(q)))
    else if kind == "value_eq" then Ok(ValueEquals(env.lower(q), env.serverParse(q)))
    else if kind == "key_neq" then Ok(KeyNotEquals(env.lower(q)))
    else if kind == "value_neq" then Ok(ValueNotEquals(env.lower(q), env.serverParse(q)))
    else if kind == "json_neq" then
      (if path.None? then Err(NeedsPath) else Ok(JsonPathNotEquals(path.value, env.lower(q))))
    else if kind == "contains" then Ok(AnyContains(env.lower(q)))
    else if kind == "json_eq" then (if path.None? then Err(NeedsPath) else Ok(JsonPathEquals(path.value, env.lower(q))))
    else if kind == "json_contains" then
      (if path.None? then Err(NeedsPath) else Ok(JsonPathContains(path.value, env.lower(q))))
    else if kind == "key_cmp" then
      var c := ParseOp(op);
      if c.Err? then Err(c.error) else Ok(KeyCompare(c.value, JsonNumber(env.serverParse, q)))
    else if kind == "value_cmp" then
      var c := ParseOp(op);
      if c.Err? then Err(c.error) else Ok(ValueCompare(c.value, JsonNumber(env.serverParse, q)))
    else if kind == "json_cmp" then
      if path.None? then Err(NeedsPath) else
      var c := ParseOp(op);
      if c.Err? then Err(c.error) else Ok(JsonPathCompare(path.value, c.value, JsonNumber(env.serverParse, q)))
    else Err(UnknownKind)
  }

  predicate AnyPathMatch(env: Env, msg: Content, path: string, test: Json -> bool) {
    Readable(msg) &&
    var root := env.serverParse(msg.value.value.text);
    root.Some? && SomeServer(ServerCandidates(root.value, Tokens(path)), test)
  }

  predicate ValueEqualsText(env: Env, text: string, json: Option<Json>, valueText: string) {
    var actual := env.serverParse(valueText);
    if json.Some? && actual.Some? then JsonEq(env.lower, actual.value, json.value) else env.lower(valueText) == text
  }

  predicate Matches(env: Env, f: Filter, msg: Content) {
    match f
    case KeyEquals(q) => msg.key.Some? && env.lower(msg.key.value.text) == q
    case KeyContains(q) => msg.key.Some? && Includes(env.lower(msg.key.value.text), q)
    case ValueContains(q) => Readable(msg) && Includes(env.lower(msg.value.value.text), q)
    case ValueEquals(text, json) => Readable(msg) && ValueEqualsText(env, text, json, msg.value.value.text)
    case KeyNotEquals(q) => msg.key.Some? && env.lower(msg.key.value.text) != q
    case ValueNotEquals(text, json) => Readable(msg) && !ValueEqualsText(env, text, json, msg.value.value.text)
    case JsonPathEquals(path, value) => AnyPathMatch(env, msg, path, TextIs(env, value))
    case JsonPathNotEquals(path, value) => AnyPathMatch(env, msg, path, TextIsNot(env, value))
    case JsonPathContains(path, value) => AnyPathMatch(env, msg, path, TextHas(env, value))
    case KeyCompare(op, number) =>
      number.Some? && msg.key.Some? &&
      var target := JsonNumber(env.serverParse, msg.key.value.text);
      target.Some? && CmpHolds(op, target.value, number.value)
    case ValueCompare(op, number) =>
      number.Some? && Readable(msg) &&
      var root := env.serverParse(msg.value.value.text);
      root.Some? &&
      var target := ScalarNumber(env.serverParse, root.value);
      target.Some? && CmpHolds(op, target.value, number.value)
    case JsonPathCompare(path, op, number) =>
      number.Some? && AnyPathMatch(env, msg, path, NumberCompares(env.serverParse, op, number.value))
    case AnyContains(q) =>
      var keyHit := msg.key.Some? && Includes(env.lower(msg.key.value.text), q);
      var valueHit := Readable(msg) && Includes(env.lower(msg.value.value.text), q);
      keyHit || valueHit
  }
}
