/** Queries and the texts that spell them: what is typed into the filter box is read back. */
module QueryText {
  import opened Rows
  import opened JsonEquality
  import opened PathTokens
  import opened PathWalk
  import opened FilterTerms
  import opened FilterQuery

  datatype Subject = Key | Value | Field(path: string)

  datatype Operator = Has | Is | IsNot | Compares(op: CmpOp)

  datatype Query = Query(subject: Subject, operator: Operator, needle: string)

  function Sign(o: Operator): string {
    match o
    case Has => ":"
    case Is => "="
    case IsNot => "!="
    case Compares(Gt) => ">"
    case Compares(Gte) => ">="
    case Compares(Lt) => "<"
    case Compares(Lte) => "<="
  }

  /** A query as typed; the keyword may be spelled in either case. */
  function Written(word: string, q: Query): string {
    word + (if q.subject.Field? then "." + q.subject.path else "") + (Sign(q.operator) + q.needle)
  }

  /** The keyword's own letters, in any case. */
  predicate Word(word: string, keyword: string) {
    Ascii(word) && AsciiLower(word) == keyword
  }

  predicate Spells(word: string, subject: Subject) {
    Word(word, if subject.Key? then "key" else "value")
  }

  /** A path as it may stand before an operator: its quotes closed, no operator outside
      them, and no `!` that a `=` behind it would join. */
  predicate Typeable(path: string, o: Operator) {
    && path != "" && !Inside(path, |path|)
    && (forall j | 0 <= j < |path| :: !Operates(path, j))
    && (o.Is? ==> path[|path| - 1] != '!')
  }

  /** A needle that the operator before it does not reach into. */
  predicate Apart(o: Operator, needle: string) {
    (o == Compares(Gt) || o == Compares(Lt)) && needle != "" ==> needle[0] != '='
  }

  predicate Writable(q: Query) {
    Apart(q.operator, q.needle) && (q.subject.Field? ==> Typeable(q.subject.path, q.operator))
  }

  /** The predicate a query stands for. */
  function Selecting(q: Query): Predicate {
    match (q.subject, q.operator)
    case (Key, Has) => KeyContains(q.needle)
    case (Key, Is) => KeyEq(q.needle)
    case (Key, IsNot) => KeyNeq(q.needle)
    case (Key, Compares(op)) => KeyCmp(op, q.needle)
    case (Value, Has) => ValueContains(q.needle)
    case (Value, Is) => ValueEq(q.needle)
    case (Value, IsNot) => ValueNeq(q.needle)
    case (Value, Compares(op)) => ValueCmp(op, q.needle)
    case (Field(path), Has) => JsonContains(path, q.needle)
    case (Field(path), Is) => JsonTextEq(path, q.needle)
    case (Field(path), IsNot) => JsonTextNeq(path, q.needle)
    case (Field(path), Compares(op)) => JsonCmp(path, op, q.needle)
  }

  // ---- lower-casing -----------------------------------------------------------------------

  predicate Ascii(s: string) {
    forall i | 0 <= i < |s| :: s[i] < 128 as char
  }

  function LowerChar(c: char): char {
    if 'A' <= c <= 'Z' then (c as int + 32) as char else c
  }

  function AsciiLower(s: string): string {
    seq(|s|, i requires 0 <= i < |s| => LowerChar(s[i]))
  }

  predicate FrontLowered(lower: Lower, a: string, b: string) {
    AsciiLower(a) <= lower(a + b) && lower(a) == AsciiLower(a)
  }

  /** ASCII text in front of any other is lower-cased letter by letter. */
  ghost predicate AsciiLowering(lower: Lower) {
    forall a, b | Ascii(a) :: FrontLowered(lower, a, b)
  }

  /** Such a lower-casing there is. */
  lemma AsciiLowers()
    ensures AsciiLowering(AsciiLower)
  {
    forall a, b | Ascii(a) ensures FrontLowered(AsciiLower, a, b) {}
  }

  lemma PrefixHolds(env: Env, a: string, rest: string, prefix: string)
    requires AsciiLowering(env.lower) && Ascii(a) && AsciiLower(a) == prefix
    ensures PrefixIs(env, a + rest, prefix) && Drop(a + rest, |prefix|) == rest
  {
    assert FrontLowered(env.lower, a, rest);
    assert Slice(a + rest, |prefix|) == a;
  }

  lemma PrefixFails(env: Env, a: string, rest: string, prefix: string)
    requires AsciiLowering(env.lower) && Ascii(a) && |a| <= |prefix| && AsciiLower(a) != prefix[..|a|]
    ensures !PrefixIs(env, a + rest, prefix)
  {
    var more := Slice(rest, |prefix| - |a|);
    assert Slice(a + rest, |prefix|) == a + more;
    assert FrontLowered(env.lower, a, more);
  }

  lemma SignFails(env: Env, word: string, keyword: string, rest: string, prefix: string)
    requires AsciiLowering(env.lower) && Word(word, keyword) && rest != "" && rest[0] < 128 as char
    requires |keyword| < |prefix| && prefix[|keyword|] != LowerChar(rest[0])
    ensures !PrefixIs(env, word + rest, prefix)
  {
    var a := word + [rest[0]];
    assert a + rest[1..] == word + rest;
    assert AsciiLower(a)[|word|] == LowerChar(rest[0]) && prefix[..|a|][|word|] == prefix[|keyword|];
    PrefixFails(env, a, rest[1..], prefix);
  }

  lemma SignHolds(env: Env, word: string, keyword: string, sign: string, needle: string)
    requires AsciiLowering(env.lower) && Word(word, keyword) && Ascii(sign) && AsciiLower(sign) == sign
    ensures PrefixIs(env, word + (sign + needle), keyword + sign)
    ensures Drop(word + (sign + needle), |keyword| + |sign|) == needle
  {
    var a := word + sign;
    assert AsciiLower(a) == keyword + sign;
    assert a + needle == word + (sign + needle);
    PrefixHolds(env, a, needle, keyword + sign);
  }

  lemma SignLowered(o: Operator)
    ensures Ascii(Sign(o)) && AsciiLower(Sign(o)) == Sign(o)
  {}

  // ---- key and value ----------------------------------------------------------------------

  /** How a text with that keyword at its front splits into sign and needle. */
  lemma CmpReads(word: string, op: CmpOp, needle: string)
    requires Apart(Compares(op), needle)
    ensures var text := word + (Sign(Compares(op)) + needle);
      CmpAt(text, |word|) == Some(Cmp(op, |Sign(Compares(op))|)) &&
      Drop(text, |word| + |Sign(Compares(op))|) == needle
  {
    var text := word + (Sign(Compares(op)) + needle);
    Parts(word, Sign(Compares(op)), needle);
    assert text[|word|..] == Sign(Compares(op)) + needle;
  }

  lemma KeyReads(env: Env, word: string, o: Operator, needle: string)
    requires AsciiLowering(env.lower) && Word(word, "key") && !o.Compares?
    ensures var p := ParseKey(env, word + (Sign(o) + needle));
      p.Some? && p.value.accepts == Selecting(Query(Key, o, needle))
  {
    var rest := Sign(o) + needle;
    SignLowered(o);
    SignHolds(env, word, "key", Sign(o), needle);
    if !o.Has? { SignFails(env, word, "key", rest, "key:"); }
    if o.IsNot? { SignFails(env, word, "key", rest, "key="); }
  }

  lemma KeyCompares(env: Env, word: string, op: CmpOp, needle: string)
    requires AsciiLowering(env.lower) && Word(word, "key") && Apart(Compares(op), needle)
    ensures var p := ParseKey(env, word + (Sign(Compares(op)) + needle));
      p.Some? && p.value.accepts == KeyCmp(op, needle)
  {
    var rest := Sign(Compares(op)) + needle;
    SignFails(env, word, "key", rest, "key:");
    SignFails(env, word, "key", rest, "key=");
    SignFails(env, word, "key", rest, "key!=");
    SignHolds(env, word, "key", [rest[0]], rest[1..]);
    assert [rest[0]] + rest[1..] == rest;
    CmpReads(word, op, needle);
  }

  lemma ValueReads(env: Env, word: string, o: Operator, needle: string)
    requires AsciiLowering(env.lower) && Word(word, "value") && !o.Compares?
    ensures var p := ParseValue(env, word + (Sign(o) + needle));
      p.Some? && p.value.accepts == Selecting(Query(Value, o, needle))
  {
    var rest := Sign(o) + needle;
    SignLowered(o);
    SignHolds(env, word, "value", Sign(o), needle);
    if !o.Has? { SignFails(env, word, "value", rest, "value:"); }
    if o.IsNot? { SignFails(env, word, "value", rest, "value="); }
  }

  lemma ValueCompares(env: Env, word: string, op: CmpOp, needle: string)
    requires AsciiLowering(env.lower) && Word(word, "value") && Apart(Compares(op), needle)
    ensures var p := ParseValue(env, word + (Sign(Compares(op)) + needle));
      p.Some? && p.value.accepts == ValueCmp(op, needle)
  {
    var rest := Sign(Compares(op)) + needle;
    SignFails(env, word, "value", rest, "value:");
    SignFails(env, word, "value", rest, "value=");
    SignFails(env, word, "value", rest, "value!=");
    SignHolds(env, word, "value", [rest[0]], rest[1..]);
    assert [rest[0]] + rest[1..] == rest;
    CmpReads(word, op, needle);
  }

  lemma NotKey(env: Env, word: string, rest: string)
    requires AsciiLowering(env.lower) && Word(word, "value")
    ensures ParseKey(env, word + rest).None?
  {
    assert AsciiLower(word)[0] == LowerChar(word[0]);
    var v, more := word[..1], word[1..] + rest;
    assert v + more == word + rest;
    assert AsciiLower(v)[0] == 'v';
    PrefixFails(env, v, more, "key:");
    PrefixFails(env, v, more, "key=");
    PrefixFails(env, v, more, "key!=");
    PrefixFails(env, v, more, "key>");
    PrefixFails(env, v, more, "key<");
  }

  // ---- fields -----------------------------------------------------------------------------

  lemma {:induction false} InsideFront(a: string, b: string, i: nat)
    requires i <= |a|
    ensures Inside(a + b, i) == Inside(a, i)
  {
    if i > 0 { InsideFront(a, b, i - 1); }
  }

  /** The operator found first is the one typed behind the path exactly when the path is
      typeable. */
  lemma OperatorBehind(path: string, o: Operator, needle: string)
    ensures FirstOperator(path + (Sign(o) + needle), 0) == |path| > 0 <==> Typeable(path, o)
  {
    var sign := Sign(o) + needle;
    var text := path + sign;
    forall j | 0 <= j <= |path| ensures Inside(text, j) == Inside(path, j) { InsideFront(path, sign, j); }
    assert text[|path|] == Sign(o)[0];
    assert o.IsNot? ==> text[|path| + 1] == '=';
    assert OperatorAt(text, |path|);
    forall j | 0 <= j < |path| ensures Operates(text, j) <==>
      Operates(path, j) || (j == |path| - 1 && path[j] == '!' && o.Is? && !Inside(path, j))
    {
      assert text[j] == path[j];
    }
    assert Operates(text, |path|) <==> !Inside(path, |path|);
    if path != "" && path[|path| - 1] == '!' {
      assert Inside(path, |path|) == Inside(path, |path| - 1);
      assert o.Is? && !Inside(path, |path|) ==> Operates(text, |path| - 1);
    }
  }

  lemma Parts(a: string, sign: string, b: string)
    requires sign != ""
    ensures var t := a + (sign + b);
      t[..|a|] == a && t[|a|] == sign[0] && Drop(t, |a| + |sign|) == b
  {
    var t := a + (sign + b);
    assert t[|a| + |sign|..] == b;
  }

  lemma PathCompares(path: string, op: CmpOp, needle: string)
    requires Apart(Compares(op), needle) && path != ""
    ensures var rest := path + (Sign(Compares(op)) + needle);
      OperatorAt(rest, |path|) && ParsePath(rest, |path|).accepts == JsonCmp(path, op, needle)
  {
    Parts(path, Sign(Compares(op)), needle);
    CmpReads(path, op, needle);
  }

  lemma PathReads(path: string, o: Operator, needle: string)
    requires !o.Compares? && Typeable(path, o)
    ensures var rest := path + (Sign(o) + needle);
      OperatorAt(rest, |path|) && ParsePath(rest, |path|).accepts == Selecting(Query(Field(path), o, needle))
  {
    Parts(path, Sign(o), needle);
    OperatorBehind(path, o, needle);
  }

  lemma NotValue(env: Env, word: string, rest: string)
    requires AsciiLowering(env.lower) && Word(word, "value") && rest != "" && rest[0] == '.'
    ensures ParseValue(env, word + rest).None?
  {
    SignFails(env, word, "value", rest, "value:");
    SignFails(env, word, "value", rest, "value=");
    SignFails(env, word, "value", rest, "value!=");
    SignFails(env, word, "value", rest, "value>");
    SignFails(env, word, "value", rest, "value<");
  }

  /** What a text beginning with `value.` is read as. */
  lemma FieldReads(env: Env, word: string, rest: string)
    requires AsciiLowering(env.lower) && Word(word, "value")
    ensures var text, at := word + ("." + rest), FirstOperator(rest, 0);
      ParseFilterQuery(env, text) ==
        if at > 0 then ParsePath(rest, at) else Plainly("contains", text, Contains(text))
  {
    NotKey(env, word, "." + rest);
    NotValue(env, word, "." + rest);
    SignHolds(env, word, "value", ".", rest);
    NotQuoted(word, "value", "." + rest);
  }

  lemma NotQuoted(word: string, keyword: string, rest: string)
    requires Word(word, keyword) && keyword != "" && keyword[0] != '"'
    ensures word + rest != "" && (word + rest)[0] != '"'
  {
    assert AsciiLower(word)[0] == LowerChar(word[0]);
    assert (word + rest)[0] == word[0];
  }

  /** An operator found elsewhere cuts off another path. */
  lemma OtherPath(path: string, q: Query, rest: string)
    requires q.subject == Field(path) && FirstOperator(rest, 0) != |path| && 0 < FirstOperator(rest, 0)
    ensures ParsePath(rest, FirstOperator(rest, 0)).accepts != Selecting(q)
  {
    assert |rest[..FirstOperator(rest, 0)]| != |path|;
  }

  lemma FieldUnread(env: Env, word: string, q: Query)
    requires AsciiLowering(env.lower) && Spells(word, q.subject)
    requires q.subject.Field? && !Typeable(q.subject.path, q.operator)
    ensures ParseFilterQuery(env, Written(word, q)).accepts != Selecting(q)
  {
    var path := q.subject.path;
    var rest := path + (Sign(q.operator) + q.needle);
    assert Written(word, q) == word + ("." + rest);
    FieldReads(env, word, rest);
    OperatorBehind(path, q.operator, q.needle);
    if 0 < FirstOperator(rest, 0) { OtherPath(path, q, rest); }
  }

  lemma FieldWritten(env: Env, word: string, q: Query)
    requires AsciiLowering(env.lower) && Spells(word, q.subject)
    requires q.subject.Field? && Writable(q)
    ensures ParseFilterQuery(env, Written(word, q)).accepts == Selecting(q)
  {
    var path := q.subject.path;
    var rest := path + (Sign(q.operator) + q.needle);
    assert Written(word, q) == word + ("." + rest);
    FieldReads(env, word, rest);
    OperatorBehind(path, q.operator, q.needle);
    if q.operator.Compares? {
      PathCompares(path, q.operator.op, q.needle);
    } else {
      PathReads(path, q.operator, q.needle);
    }
  }

  lemma TermWritten(env: Env, word: string, q: Query)
    requires AsciiLowering(env.lower) && Spells(word, q.subject)
    requires !q.subject.Field? && Writable(q)
    ensures ParseFilterQuery(env, Written(word, q)).accepts == Selecting(q)
  {
    var tail := Sign(q.operator) + q.needle;
    assert Written(word, q) == word + tail;
    if q.subject.Key? {
      NotQuoted(word, "key", tail);
      if q.operator.Compares? {
        KeyCompares(env, word, q.operator.op, q.needle);
      } else {
        KeyReads(env, word, q.operator, q.needle);
      }
    } else {
      NotQuoted(word, "value", tail);
      NotKey(env, word, tail);
      if q.operator.Compares? {
        ValueCompares(env, word, q.operator.op, q.needle);
      } else {
        ValueReads(env, word, q.operator, q.needle);
      }
    }
  }

  lemma WritableReads(env: Env, word: string, q: Query)
    requires AsciiLowering(env.lower) && Spells(word, q.subject) && Writable(q)
    ensures ParseFilterQuery(env, Written(word, q)).accepts == Selecting(q)
  {
    if q.subject.Field? { FieldWritten(env, word, q); } else { TermWritten(env, word, q); }
  }

  /** The query whose operator takes the `=` at the front of the needle in. */
  function Widened(q: Query): Query
    requires !Apart(q.operator, q.needle)
  {
    Query(q.subject, Compares(if q.operator.op.Gt? then Gte else Lte), q.needle[1..])
  }

  lemma WidenedAlike(word: string, q: Query)
    requires !Apart(q.operator, q.needle)
    ensures Written(word, Widened(q)) == Written(word, q) && Selecting(Widened(q)) != Selecting(q)
  {
    assert Sign(Widened(q).operator) + Widened(q).needle == Sign(q.operator) + q.needle;
  }

  /** A query is read back as it was written exactly when it is writable. */
  lemma WrittenReads(env: Env, word: string, q: Query)
    requires AsciiLowering(env.lower) && Spells(word, q.subject)
    ensures ParseFilterQuery(env, Written(word, q)).accepts == Selecting(q) <==> Writable(q)
  {
    if Writable(q) {
      WritableReads(env, word, q);
    } else if q.subject.Field? && !Typeable(q.subject.path, q.operator) {
      FieldUnread(env, word, q);
    } else {
      WidenedAlike(word, q);
      WritableReads(env, word, Widened(q));
    }
  }

  // ---- paths as the completion list prints them -------------------------------------------

  predicate Operative(c: char) {
    c == ':' || c == '=' || c == '<' || c == '>' || c == '!'
  }

  /** Quotes closed, and nothing outside them that could begin an operator. */
  predicate Calm(s: string) {
    !Inside(s, |s|) && forall j | 0 <= j < |s| && Operative(s[j]) :: Inside(s, j)
  }

  lemma {:induction false} InsideBack(a: string, b: string, i: nat)
    requires !Inside(a, |a|) && i <= |b|
    ensures Inside(a + b, |a| + i) == Inside(b, i)
  {
    if i > 0 { InsideBack(a, b, i - 1); } else { InsideFront(a, b, |a|); }
  }

  lemma CalmAppend(a: string, b: string)
    requires Calm(a) && Calm(b)
    ensures Calm(a + b)
  {
    InsideBack(a, b, |b|);
    forall j | 0 <= j < |a + b| && Operative((a + b)[j]) ensures Inside(a + b, j) {
      if j < |a| { InsideFront(a, b, j); } else { InsideBack(a, b, j - |a|); }
    }
  }

  lemma {:induction false} InsideQuotes(k: string, i: nat)
    requires QuoteFree(k) && i <= |k|
    ensures Inside("\"" + k + "\"", i + 1)
  {
    var s := "\"" + k + "\"";
    if i > 0 {
      InsideQuotes(k, i - 1);
      assert s[i] == k[i - 1];
    } else {
      assert s[0] == '"' && !Inside(s, 0);
    }
  }

  /** A name that is printed without quotes has no comparison sign or `!` in it. */
  predicate Settled(name: string) {
    Plain(name) ==> forall i | 0 <= i < |name| :: !Operative(name[i])
  }

  lemma CalmQuoted(k: string)
    requires QuoteFree(k) && Settled(k)
    ensures Calm(Quoted(k))
  {
    var s := Quoted(k);
    if Plain(k) {
      NeverInside(k, |k|);
    } else {
      InsideQuotes(k, |k|);
      assert s[|k| + 1] == '"' && |s| == |k| + 2;
      forall j | 0 <= j < |s| && Operative(s[j]) ensures Inside(s, j) { InsideQuotes(k, j - 1); }
    }
  }

  predicate AllSettled(steps: seq<Segment>) {
    forall i | 0 <= i < |steps| :: steps[i].Name? ==> Settled(steps[i].name)
  }

  lemma CalmSigns()
    ensures Calm("") && Calm(".") && Calm("[]")
  {
    NeverInside("", 0);
    NeverInside(".", 1);
    NeverInside("[]", 2);
  }

  lemma {:induction false} CalmPrint(steps: seq<Segment>)
    requires Quotable(steps) && AllSettled(steps)
    ensures Calm(Print(steps))
  {
    CalmSigns();
    if steps != [] {
      var front, last := steps[..|steps| - 1], steps[|steps| - 1];
      CalmPrint(front);
      match last
      case Name(k) =>
        CalmQuoted(k);
        CalmAppend(Print(front), ".");
        CalmAppend(Print(front) + ".", Quoted(k));
      case AnyElement => CalmAppend(Print(front), "[]");
    }
  }

  /** A path from the completion list, typed before any operator, is read back as the path
      printed, and so as the legible part of the walk it was printed for. */
  lemma ProposalReads(env: Env, word: string, steps: seq<Segment>, o: Operator, needle: string)
    requires AsciiLowering(env.lower) && Word(word, "value") && Apart(o, needle)
    requires Quotable(steps) && AllSettled(steps) && Print(steps) != ""
    ensures var q := Query(Field(Print(steps)), o, needle);
      ParseFilterQuery(env, Written(word, q)).accepts == Selecting(q)
    ensures Tokens(Print(steps)) == Legible(steps)
  {
    var path := Print(steps);
    CalmPrint(steps);
    forall j | 0 <= j < |path| ensures !Operates(path, j) { assert OperatorAt(path, j) ==> Operative(path[j]); }
    if path[|path| - 1] == '!' { assert Inside(path, |path|) == Inside(path, |path| - 1); }
    WrittenReads(env, word, Query(Field(path), o, needle));
    PrintThenTokens(steps);
  }

  /** With a `<` in a name it is not: the printer leaves the name unquoted, and the parser
      takes its second half for a needle. */
  lemma AngleMisleads(env: Env)
    requires AsciiLowering(env.lower)
    ensures Print([Name("a<b")]) == "a<b"
    ensures var q := Query(Field("a<b"), Is, "1");
      ParseFilterQuery(env, Written("value", q)).accepts == JsonCmp("a", Lt, "b=1")
  {
    var q, read := Query(Field("a<b"), Is, "1"), Query(Field("a"), Compares(Lt), "b=1");
    assert [Name("a<b")][..0] == [] && Print([Name("a<b")]) == Extend("", Name("a<b"));
    assert Written("value", q) == "value.a<b=1" == Written("value", read);
    assert Word("value", "value");
    assert !Inside("a", 0) && !Operates("a", 0);
    WrittenReads(env, "value", read);
  }
}
