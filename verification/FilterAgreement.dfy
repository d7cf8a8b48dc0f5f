/** Both filter implementations select the same messages. */
module FilterAgreement {
  import opened Rows
  import opened JsonEquality
  import opened JsonOrder
  import opened PathTokens
  import opened PathWalk
  import opened FilterTerms
  import opened FilterQuery
  import Server = FilterServer

  /** No array of the message is too long to index. */
  predicate Indexed(env: Env, msg: Content) {
    Readable(msg) ==>
      var root := env.clientParse(msg.value.value.text);
      root.Some? ==> Indexable(root.value)
  }

  /** Comparing the message with the query's JSON comes to the same in whatever order each
      parser holds the entries: keys of the query that differ only in case carry equal
      values, or the message has no such keys. */
  predicate OrderFree(env: Env, q: string, msg: Content) {
    Readable(msg) ==>
      var root, expected := env.clientParse(msg.value.value.text), env.clientParse(q);
      root.Some? && expected.Some? ==> Steady(env.lower, expected.value) || CaseDistinct(env.lower, root.value)
  }

  /** What the theorem asks of a query and a message together. */
  predicate Settled(env: Env, p: Predicate, msg: Content) {
    if p.ValueEq? || p.ValueNeq? then OrderFree(env, p.q, msg) else OnPath(p) ==> Indexed(env, msg)
  }

  predicate OnPath(p: Predicate) {
    p.JsonContains? || p.JsonTextEq? || p.JsonTextNeq? || p.JsonCmp?
  }

  /** How the predicate judges a null found at the end of its path. */
  predicate NullPasses(env: Env, p: Predicate) {
    match p
    case JsonContains(_, q) => Includes("null", env.lower(q))
    case JsonTextEq(_, q) => env.lower(q) == "null"
    case JsonTextNeq(_, q) => env.lower(q) != "null"
    case _ => false
  }

  /** The client alone finds the null behind `__proto__.__proto__`. */
  predicate PhantomHit(env: Env, p: Predicate, msg: Content) {
    OnPath(p) && NullPasses(env, p) && PhantomIn(env, msg, p.path)
  }

  predicate PhantomIn(env: Env, msg: Content, path: string) {
    Readable(msg) &&
    var root := env.clientParse(msg.value.value.text);
    root.Some? && Phantom(root.value, Tokens(path))
  }

  lemma TestsAreScalar(env: Env, needle: string, parse: string -> Option<Json>, op: CmpOp, expected: real)
    ensures OnScalars(TextIs(env, needle)) && OnScalars(TextIsNot(env, needle)) && OnScalars(TextHas(env, needle))
    ensures OnScalars(NumberCompares(parse, op, expected))
  {}

  lemma PathsAgree(env: Env, msg: Content, path: string, test: Json -> bool)
    requires OneParser(env) && Indexed(env, msg) && OnScalars(test)
    ensures AnyJsonPathMatch(env, msg, path, test) <==>
      (Server.AnyPathMatch(env, msg, path, test) || (test(Null) && PhantomIn(env, msg, path)))
  {
    if Readable(msg) {
      var t := msg.value.value.text;
      assert SameReading(env.clientParse(t), env.serverParse(t));
      if env.clientParse(t).Some? {
        WalksAgree(env.clientParse(t).value, env.serverParse(t).value, Tokens(path), test);
      }
    }
  }

  lemma NumbersAgree(env: Env, text: string)
    requires OneParser(env)
    ensures JsonNumber(env.clientParse, text) == JsonNumber(env.serverParse, text)
  {
    assert SameReading(env.clientParse(text), env.serverParse(text));
  }

  lemma ScalarNumbersAgree(env: Env, a: Json, b: Json)
    requires OneParser(env) && SameJson(a, b)
    ensures ScalarNumber(env.clientParse, a) == ScalarNumber(env.serverParse, b)
  {
    if a.Str? { NumbersAgree(env, a.s); }
  }

  lemma SameTests(cs: seq<Json>, f: Json -> bool, g: Json -> bool)
    requires forall j :: f(j) == g(j)
    ensures SomeServer(cs, f) <==> SomeServer(cs, g)
  {}

  lemma NumberPathsAgree(env: Env, msg: Content, path: string, op: CmpOp, expected: real)
    requires OneParser(env) && Indexed(env, msg)
    ensures AnyJsonPathMatch(env, msg, path, NumberCompares(env.clientParse, op, expected)) <==>
            Server.AnyPathMatch(env, msg, path, NumberCompares(env.serverParse, op, expected))
  {
    var f, g := NumberCompares(env.clientParse, op, expected), NumberCompares(env.serverParse, op, expected);
    TestsAreScalar(env, "", env.clientParse, op, expected);
    PathsAgree(env, msg, path, f);
    assert !f(Null);
    forall j ensures f(j) == g(j) { NumberTestsAgree(env, op, expected, j); }
    if Readable(msg) && env.serverParse(msg.value.value.text).Some? {
      SameTests(ServerCandidates(env.serverParse(msg.value.value.text).value, Tokens(path)), f, g);
    }
  }

  lemma NumberTestsAgree(env: Env, op: CmpOp, expected: real, j: Json)
    requires OneParser(env)
    ensures NumberCompares(env.clientParse, op, expected)(j) == NumberCompares(env.serverParse, op, expected)(j)
  {
    if j.Str? { NumbersAgree(env, j.s); }
  }

  lemma EqualityAgrees(env: Env, q: string, msg: Content)
    requires OneParser(env) && OrderFree(env, q, msg) && Readable(msg)
    ensures ValueEqualsCheck(env, q, msg) ==
            Some(Server.ValueEqualsText(env, env.lower(q), env.serverParse(q), msg.value.value.text))
  {
    var t := msg.value.value.text;
    assert SameReading(env.clientParse(t), env.serverParse(t)) && SameReading(env.clientParse(q), env.serverParse(q));
    if env.clientParse(t).Some? && env.clientParse(q).Some? {
      var a, b, a', b' :=
        env.clientParse(t).value, env.clientParse(q).value, env.serverParse(t).value, env.serverParse(q).value;
      if Steady(env.lower, b) { SteadyVerdict(env.lower, a, b, a', b'); } else { OneVerdict(env.lower, a, b, a', b'); }
    }
  }

  lemma ValueNumbersAgree(env: Env, msg: Content, op: CmpOp, q: string)
    requires OneParser(env) && Readable(msg)
    ensures Accepts(env, ValueCmp(op, q), msg) <==>
      Server.Matches(env, Server.ValueCompare(op, JsonNumber(env.serverParse, q)), msg)
  {
    var t := msg.value.value.text;
    NumbersAgree(env, q);
    assert SameReading(env.clientParse(t), env.serverParse(t));
    if env.clientParse(t).Some? { ScalarNumbersAgree(env, env.clientParse(t).value, env.serverParse(t).value); }
  }

  /** The request a predicate goes with. */
  predicate Goes(api: Api, p: Predicate) {
    match p
    case AlwaysTrue => false
    case Contains(q) => api == Api("contains", q, None, None)
    case KeyContains(q) => api == Api("key_contains", q, None, None)
    case KeyEq(q) => api == Api("key_eq", q, None, None)
    case KeyNeq(q) => api == Api("key_neq", q, None, None)
    case KeyCmp(op, q) => api == Api("key_cmp", q, None, Some(Wire(op)))
    case ValueContains(q) => api == Api("value_contains", q, None, None)
    case ValueEq(q) => api == Api("value_eq", q, None, None)
    case ValueNeq(q) => api == Api("value_neq", q, None, None)
    case ValueCmp(op, q) => api == Api("value_cmp", q, None, Some(Wire(op)))
    case JsonContains(path, q) => api == Api("json_contains", q, Some(path), None)
    case JsonTextEq(path, q) => api == Api("json_eq", q, Some(path), None)
    case JsonTextNeq(path, q) => api == Api("json_neq", q, Some(path), None)
    case JsonCmp(path, op, q) => api == Api("json_cmp", q, Some(path), Some(Wire(op)))
  }

  predicate Consistent(p: Parsed) {
    if p.api.None? then p.accepts == AlwaysTrue else Goes(p.api.value, p.accepts)
  }

  lemma PathGoes(rest: string, at: nat)
    requires 0 < at && OperatorAt(rest, at)
    ensures Consistent(ParsePath(rest, at))
  {}

  lemma KeyGoes(env: Env, text: string)
    ensures ParseKey(env, text).Some? ==> Consistent(ParseKey(env, text).value)
  {}

  lemma ValueGoes(env: Env, text: string)
    ensures ParseValue(env, text).Some? ==> Consistent(ParseValue(env, text).value)
  {}

  lemma FieldGoes(env: Env, text: string)
    ensures ParseField(env, text).Some? ==> Consistent(ParseField(env, text).value)
  {
    var rest := Drop(text, 6);
    var at := FirstOperator(rest, 0);
    if at > 0 { PathGoes(rest, at); }
  }

  lemma ParsedGoes(env: Env, text: string)
    ensures Consistent(ParseFilterQuery(env, text))
  {
    KeyGoes(env, text);
    ValueGoes(env, text);
    FieldGoes(env, text);
  }

  lemma WireParses(op: CmpOp)
    ensures Server.ParseOp(Some(Wire(op))) == Server.Ok(op)
  {}

  /** Whatever the client sends, the server can parse. */
  lemma RequestParses(env: Env, api: Api, p: Predicate)
    requires Goes(api, p)
    ensures Server.ParseFilter(env, api.filter, api.q, api.path, api.op).Ok?
  {
    if p.KeyCmp? || p.ValueCmp? || p.JsonCmp? { WireParses(p.op); }
  }

  lemma KeyAndTextAgree(env: Env, api: Api, p: Predicate, msg: Content)
    requires OneParser(env) && Goes(api, p)
    requires p.Contains? || p.KeyContains? || p.KeyEq? || p.KeyNeq? || p.KeyCmp? || p.ValueContains?
    ensures Agree(env, api, p, msg, false)
  {
    if p.KeyCmp? {
      WireParses(p.op);
      NumbersAgree(env, p.q);
      if msg.key.Some? { NumbersAgree(env, msg.key.value.text); }
    }
  }

  lemma ValuesAgree(env: Env, api: Api, p: Predicate, msg: Content)
    requires OneParser(env) && Settled(env, p, msg) && Goes(api, p) && (p.ValueEq? || p.ValueNeq? || p.ValueCmp?)
    ensures Agree(env, api, p, msg, false)
  {
    if p.ValueCmp? { WireParses(p.op); }
    if Readable(msg) {
      if p.ValueCmp? { ValueNumbersAgree(env, msg, p.op, p.q); } else { EqualityAgrees(env, p.q, msg); }
    }
  }

  /** Client and server, for one predicate and the request that goes with it. */
  predicate Agree(env: Env, api: Api, p: Predicate, msg: Content, only: bool) {
    var f := Server.ParseFilter(env, api.filter, api.q, api.path, api.op);
    f.Ok? && (Accepts(env, p, msg) <==> Server.Matches(env, f.value, msg) || only)
  }

  lemma PathHasAgrees(env: Env, path: string, q: string, msg: Content)
    requires OneParser(env) && Indexed(env, msg)
    ensures Agree(env, Api("json_contains", q, Some(path), None), JsonContains(path, q), msg,
        PhantomHit(env, JsonContains(path, q), msg))
  {
    TestsAreScalar(env, env.lower(q), env.clientParse, Gt, 0.0);
    PathsAgree(env, msg, path, TextHas(env, env.lower(q)));
  }

  lemma PathIsAgrees(env: Env, path: string, q: string, msg: Content)
    requires OneParser(env) && Indexed(env, msg)
    ensures Agree(env, Api("json_eq", q, Some(path), None), JsonTextEq(path, q), msg,
        PhantomHit(env, JsonTextEq(path, q), msg))
  {
    TestsAreScalar(env, env.lower(q), env.clientParse, Gt, 0.0);
    PathsAgree(env, msg, path, TextIs(env, env.lower(q)));
  }

  lemma PathIsNotAgrees(env: Env, path: string, q: string, msg: Content)
    requires OneParser(env) && Indexed(env, msg)
    ensures Agree(env, Api("json_neq", q, Some(path), None), JsonTextNeq(path, q), msg,
        PhantomHit(env, JsonTextNeq(path, q), msg))
  {
    TestsAreScalar(env, env.lower(q), env.clientParse, Gt, 0.0);
    PathsAgree(env, msg, path, TextIsNot(env, env.lower(q)));
  }

  lemma PathCmpAgrees(env: Env, path: string, op: CmpOp, q: string, msg: Content)
    requires OneParser(env) && Indexed(env, msg)
    ensures Agree(env, Api("json_cmp", q, Some(path), Some(Wire(op))), JsonCmp(path, op, q), msg, false)
  {
    WireParses(op);
    NumbersAgree(env, q);
    var n := JsonNumber(env.clientParse, q);
    if n.Some? { NumberPathsAgree(env, msg, path, op, n.value); }
  }

  lemma PathFiltersAgree(env: Env, api: Api, p: Predicate, msg: Content)
    requires OneParser(env) && Indexed(env, msg) && Goes(api, p) && OnPath(p)
    ensures Agree(env, api, p, msg, PhantomHit(env, p, msg))
  {
    match p
    case JsonContains(path, q) => PathHasAgrees(env, path, q, msg);
    case JsonTextEq(path, q) => PathIsAgrees(env, path, q, msg);
    case JsonTextNeq(path, q) => PathIsNotAgrees(env, path, q, msg);
    case JsonCmp(path, op, q) => PathCmpAgrees(env, path, op, q, msg);
  }

  /** For every query text and message: without a request everything is accepted; with
      one, the server parses it and selects the message exactly when the client does,
      but for the null only JavaScript finds behind `__proto__.__proto__`. What is asked
      of the two is `Settled`, of the query parsed. */
  lemma FiltersAgree(env: Env, text: string, msg: Content)
    requires OneParser(env) && Settled(env, ParseFilterQuery(env, text).accepts, msg)
    ensures var p := ParseFilterQuery(env, text);
      if p.api.None? then Accepts(env, p.accepts, msg)
        else Agree(env, p.api.value, p.accepts, msg, PhantomHit(env, p.accepts, msg))
  {
    ParsedGoes(env, text);
    var p := ParseFilterQuery(env, text);
    if p.api.Some? {
      if OnPath(p.accepts) {
        PathFiltersAgree(env, p.api.value, p.accepts, msg);
      } else if p.accepts.ValueEq? || p.accepts.ValueNeq? || p.accepts.ValueCmp? {
        ValuesAgree(env, p.api.value, p.accepts, msg);
      } else {
        KeyAndTextAgree(env, p.api.value, p.accepts, msg);
      }
    }
  }

  /** So the two agree outright unless the path ends in `__proto__.__proto__`. */
  lemma NoPhantomOnOtherPaths(env: Env, p: Predicate, msg: Content)
    requires PhantomHit(env, p, msg)
    ensures var segs := Tokens(p.path); |segs| >= 2 && segs[|segs| - 2..] == TWICE
  {
    PhantomEnds(env.clientParse(msg.value.value.text).value, Tokens(p.path));
  }

  // ---- the null only JavaScript finds, for real ------------------------------------------

  const TWICE_PATH := PROTO + "." + PROTO
  const TWICE_QUERY := "value." + TWICE_PATH + "=null"

  lemma TwiceTokens()
    ensures Tokens(TWICE_PATH) == TWICE
  {
    assert TWICE[..1] == [Name(PROTO)] && [Name(PROTO)][..0] == [];
    assert Quoted(PROTO) == PROTO;
    assert Print([Name(PROTO)]) == PROTO;
    assert Print(TWICE) == TWICE_PATH;
    RoundTrip(TWICE);
  }

  /** An empty object already has it: the client sees a null, the server nothing. */
  lemma PhantomInEmptyObject(env: Env, msg: Content)
    requires OneParser(env) && Readable(msg) && env.clientParse(msg.value.value.text) == Some(Obj([]))
    ensures Indexed(env, msg) && PhantomIn(env, msg, TWICE_PATH)
    ensures forall test :: !Server.AnyPathMatch(env, msg, TWICE_PATH, test)
  {
    var t := msg.value.value.text;
    assert SameReading(env.clientParse(t), env.serverParse(t));
    TwiceTokens();
    assert env.serverParse(t) == Some(Obj([]));
    assert ServerCandidates(Obj([]), TWICE) == [];
  }

  /** Lower-casing leaves every piece of the query as it is. */
  predicate Unchanged(env: Env, text: string) {
    forall i, j | 0 <= i <= j <= |text| :: env.lower(text[i..j]) == text[i..j]
  }

  lemma TwiceOperator()
    ensures FirstOperator(TWICE_PATH + "=null", 0) == |TWICE_PATH|
  {
    var rest := TWICE_PATH + "=null";
    assert QuoteFree(PROTO);
    assert QuoteFree(rest);
    NeverInside(rest, |TWICE_PATH|);
    assert Operates(rest, |TWICE_PATH|);
    forall j | 0 <= j < |TWICE_PATH| ensures !OperatorAt(rest, j) {
      assert rest[j] == TWICE_PATH[j];
    }
  }

  lemma SliceLowered(env: Env, n: nat)
    requires Unchanged(env, TWICE_QUERY) && n <= |TWICE_QUERY|
    ensures env.lower(Slice(TWICE_QUERY, n)) == Slice(TWICE_QUERY, n)
  {
    assert TWICE_QUERY[0..n] == TWICE_QUERY[..n];
  }

  lemma TwiceNoKey(env: Env)
    requires Unchanged(env, TWICE_QUERY)
    ensures ParseKey(env, TWICE_QUERY).None?
  {
    SliceLowered(env, 4);
    SliceLowered(env, 5);
    assert Slice(TWICE_QUERY, 4)[0] == 'v' && Slice(TWICE_QUERY, 5)[0] == 'v';
  }

  lemma TwiceNoValue(env: Env)
    requires Unchanged(env, TWICE_QUERY)
    ensures ParseValue(env, TWICE_QUERY).None?
  {
    SliceLowered(env, 6);
    SliceLowered(env, 7);
    assert Slice(TWICE_QUERY, 6)[5] == '.' && Slice(TWICE_QUERY, 7)[5] == '.';
  }

  lemma TwiceField(env: Env)
    requires Unchanged(env, TWICE_QUERY)
    ensures ParseField(env, TWICE_QUERY) ==
      Some(Parsed(Some(Api("json_eq", "null", Some(TWICE_PATH), None)), JsonTextEq(TWICE_PATH, "null")))
  {
    var rest := TWICE_PATH + "=null";
    SliceLowered(env, 6);
    assert TWICE_QUERY == "value." + rest;
    assert Slice(TWICE_QUERY, 6) == "value." && Drop(TWICE_QUERY, 6) == rest;
    TwiceOperator();
    assert rest[..|TWICE_PATH|] == TWICE_PATH && Drop(rest, |TWICE_PATH| + 1) == "null";
  }

  lemma TwiceQueryParses(env: Env)
    requires Unchanged(env, TWICE_QUERY)
    ensures ParseFilterQuery(env, TWICE_QUERY) ==
      Parsed(Some(Api("json_eq", "null", Some(TWICE_PATH), None)), JsonTextEq(TWICE_PATH, "null"))
  {
    TwiceNoKey(env);
    TwiceNoValue(env);
    TwiceField(env);
    assert TWICE_QUERY[0] == 'v';
  }

  lemma NullLowered(env: Env)
    requires Unchanged(env, TWICE_QUERY)
    ensures env.lower("null") == "null"
  {
    assert TWICE_QUERY[|TWICE_QUERY| - 4..|TWICE_QUERY|] == "null";
  }

  /** The browser selects the message, the server, asked the same, does not. */
  predicate ClientAlone(env: Env, api: Api, p: Predicate, msg: Content) {
    var f := Server.ParseFilter(env, api.filter, api.q, api.path, api.op);
    Accepts(env, p, msg) && f.Ok? && !Server.Matches(env, f.value, msg)
  }

  lemma TwiceSelects(env: Env, msg: Content)
    requires OneParser(env) && env.lower("null") == "null" && Readable(msg)
    requires env.clientParse(msg.value.value.text) == Some(Obj([]))
    ensures PhantomHit(env, JsonTextEq(TWICE_PATH, "null"), msg)
    ensures ClientAlone(env, Api("json_eq", "null", Some(TWICE_PATH), None), JsonTextEq(TWICE_PATH, "null"), msg)
  {
    PhantomInEmptyObject(env, msg);
    PathIsAgrees(env, TWICE_PATH, "null", msg);
  }

  /** So the exception is real: this query selects an empty object in the browser and
      not on the server. */
  lemma PhantomIsReal(env: Env, msg: Content)
    requires OneParser(env) && Unchanged(env, TWICE_QUERY) && Readable(msg)
    requires env.clientParse(msg.value.value.text) == Some(Obj([]))
    ensures var p := ParseFilterQuery(env, TWICE_QUERY);
      p.api.Some? && PhantomHit(env, p.accepts, msg) && ClientAlone(env, p.api.value, p.accepts, msg)
  {
    TwiceQueryParses(env);
    NullLowered(env);
    TwiceSelects(env, msg);
  }

  // ---- the order of entries can matter, for real --------------------------------------------

  const CLASH_TEXT := "{\"a\":2,\"A\":3}"
  const CLASH_QUERY := "value=" + CLASH_TEXT

  const SMALL := Entry("a", Num(2.0))
  const LARGE := Entry("A", Num(3.0))
  const TWIN := Entry("A", Num(2.0))

  /** The query's JSON as written and as sorted, and the message `{"A":2,"a":2}`. */
  predicate Clashing(env: Env, msg: Content) {
    && env.lower("a") == env.lower("A") && Readable(msg)
    && env.clientParse(CLASH_TEXT) == Some(Obj([SMALL, LARGE]))
    && env.serverParse(CLASH_TEXT) == Some(Obj([LARGE, SMALL]))
    && env.clientParse(msg.value.value.text) == Some(Obj([TWIN, SMALL]))
    && env.serverParse(msg.value.value.text) == Some(Obj([TWIN, SMALL]))
  }

  lemma ClashVerdicts(lower: Lower)
    requires lower("a") == lower("A")
    ensures JsonEq(lower, Obj([TWIN, SMALL]), Obj([SMALL, LARGE]))
    ensures !JsonEq(lower, Obj([TWIN, SMALL]), Obj([LARGE, SMALL]))
  {
    var x, written, sorted := [TWIN, SMALL], [SMALL, LARGE], [LARGE, SMALL];
    forall i | 0 <= i < |x| ensures EntryIn(lower, x[i], written) {
      assert FindKey(lower, written, lower(x[i].key)) == 0;
    }
    assert FindKey(lower, sorted, lower(x[0].key)) == 0;
    assert !EntryIn(lower, x[0], sorted);
  }

  lemma ClashQueryParses(env: Env)
    requires forall n | 0 <= n <= 6 :: env.lower(CLASH_QUERY[..n]) == CLASH_QUERY[..n]
    ensures ParseFilterQuery(env, CLASH_QUERY) == Plainly("value_eq", CLASH_TEXT, ValueEq(CLASH_TEXT))
  {
    var text := CLASH_QUERY;
    assert env.lower(text[..4]) == text[..4] && env.lower(text[..5]) == text[..5] && env.lower(text[..6]) == text[..6];
    assert text[..4][0] == 'v' && text[..5][0] == 'v';
    assert ParseKey(env, text).None?;
    assert text[..6] == "value=" && "value="[5] == '=' && "value:"[5] == ':';
    assert Drop(text, 6) == CLASH_TEXT;
  }

  lemma ClashesUnsettled(lower: Lower)
    requires lower("a") == lower("A")
    ensures !Steady(lower, Obj([SMALL, LARGE])) && !CaseDistinct(lower, Obj([TWIN, SMALL]))
  {
    var written, twins := [SMALL, LARGE], [TWIN, SMALL];
    assert lower(written[0].key) == lower(written[1].key) && !JsonEq(lower, written[0].value, written[1].value);
    assert lower(twins[0].key) == lower(twins[1].key);
  }

  /** Where the two readings of a query compare differently, the sides part. */
  lemma ReadingsPart(env: Env, q: string, msg: Content, a: Json, b: Json, b': Json)
    requires Readable(msg) && env.clientParse(q) == Some(b) && env.serverParse(q) == Some(b')
    requires env.clientParse(msg.value.value.text) == env.serverParse(msg.value.value.text) == Some(a)
    requires JsonEq(env.lower, a, b) && !JsonEq(env.lower, a, b')
    ensures ClientAlone(env, Api("value_eq", q, None, None), ValueEq(q), msg)
  {}

  /** So the condition cannot be dropped: the parsers read the same, but this query
      selects the message in the browser and not on the server. */
  lemma EntryOrderMisleads(env: Env, msg: Content)
    requires OneParser(env) && Clashing(env, msg)
    requires forall n | 0 <= n <= 6 :: env.lower(CLASH_QUERY[..n]) == CLASH_QUERY[..n]
    ensures var p := ParseFilterQuery(env, CLASH_QUERY);
      p.api.Some? && !Settled(env, p.accepts, msg) && ClientAlone(env, p.api.value, p.accepts, msg)
  {
    ClashQueryParses(env);
    ClashVerdicts(env.lower);
    ClashesUnsettled(env.lower);
    ReadingsPart(env, CLASH_TEXT, msg, Obj([TWIN, SMALL]), Obj([SMALL, LARGE]), Obj([LARGE, SMALL]));
  }
}
