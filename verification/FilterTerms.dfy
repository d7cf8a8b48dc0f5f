/**
 * What the two filter implementations share: messages, the text functions neither of
 * them defines, and how a JSON scalar reads as text or as a number.
 */
module FilterTerms {
  import opened Rows
  import opened JsonEquality
  import opened PathTokens
  import opened PathWalk

  /** A decoded key or value. After a failed decode the text is only the raw bytes' base64. */
  datatype Payload = Payload(text: string, decodeError: bool)

  datatype Content = Content(key: Option<Payload>, value: Option<Payload>)

  /** A value whose text is real content. */
  predicate Readable(msg: Content) {
    msg.value.Some? && !msg.value.value.decodeError
  }

  /** Lower-casing, number printing and the two JSON parsers. */
  datatype Env = Env(lower: Lower, show: real -> string, clientParse: string -> Option<Json>,
      serverParse: string -> Option<Json>)

  /** The parsers accept the same texts and read the same values from them. */
  ghost predicate OneParser(env: Env) {
    forall t :: SameReading(env.clientParse(t), env.serverParse(t))
  }

  predicate SameReading(a: Option<Json>, b: Option<Json>) {
    if a.Some? then b.Some? && SameJson(a.value, b.value) else b.None?
  }

  predicate OccursAt(text: string, needle: string, i: int) {
    0 <= i <= |text| - |needle| && text[i..i + |needle|] == needle
  }

  predicate Includes(text: string, needle: string) {
    exists i | 0 <= i <= |text| :: OccursAt(text, needle, i)
  }

  function JsonNumber(parse: string -> Option<Json>, text: string): Option<real> {
    var v := parse(text);
    if v.Some? && v.value.Num? then Some(v.value.n) else None
  }

  function ScalarNumber(parse: string -> Option<Json>, v: Json): Option<real> {
    match v
    case Num(n) => Some(n)
    case Str(s) => JsonNumber(parse, s)
    case _ => None
  }

  function ScalarText(env: Env, v: Json): Option<string> {
    match v
    case Str(s) => Some(env.lower(s))
    case Num(n) => Some(env.show(n))
    case Bool(b) => Some(if b then "true" else "false")
    case Null => Some("null")
    case _ => None
  }

  datatype CmpOp = Gt | Gte | Lt | Lte

  predicate CmpHolds(op: CmpOp, target: real, expected: real) {
    match op
    case Gt => target > expected
    case Gte => target >= expected
    case Lt => target < expected
    case Lte => target <= expected
  }

  function TextIs(env: Env, needle: string): Json -> bool {
    j => ScalarText(env, j) == Some(needle)
  }

  function TextIsNot(env: Env, needle: string): Json -> bool {
    j => ScalarText(env, j).Some? && ScalarText(env, j).value != needle
  }

  function TextHas(env: Env, needle: string): Json -> bool {
    j => ScalarText(env, j).Some? && Includes(ScalarText(env, j).value, needle)
  }

  function NumberCompares(parse: string -> Option<Json>, op: CmpOp, expected: real): Json -> bool {
    j => ScalarNumber(parse, j).Some? && CmpHolds(op, ScalarNumber(parse, j).value, expected)
  }
}
