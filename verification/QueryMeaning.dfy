/** What a query selects, said without regard to how either side decides it. */
module QueryMeaning {
  import opened Rows
  import opened JsonEquality
  import opened PathTokens
  import opened PathWalk
  import opened FilterTerms
  import opened FilterQuery
  import opened QueryText

  // ---- where a path leads -----------------------------------------------------------------

  /** `w` lies at the end of some walk along `segs`: a name leads to the child of that
      name, a marker to any element. */
  ghost predicate Leads(v: JsValue, segs: seq<Segment>, w: JsValue)
    decreases |segs|
  {
    if segs == [] then v == w
    else if segs[0].Name? then exists u :: ClientChild(v, segs[0].name) == Some(u) && Leads(u, segs[1..], w)
    else v.Own? && v.json.Arr? && exists i | 0 <= i < |v.json.items| :: Leads(Own(v.json.items[i]), segs[1..], w)
  }

  lemma {:induction false} LeadsToCandidates(v: JsValue, segs: seq<Segment>, w: JsValue)
    ensures w in ClientCandidates(v, segs) <==> Leads(v, segs, w)
    decreases |segs|, 0
  {
    if segs != [] {
      match segs[0]
      case Name(n) =>
        var u := ClientChild(v, n);
        if u.Some? { LeadsToCandidates(u.value, segs[1..], w); }
      case AnyElement =>
        if v.Own? && v.json.Arr? { LeadsToElements(v.json.items, |v.json.items|, segs[1..], w); }
    }
  }

  /** Some walk begins at one of the first `n` elements. */
  ghost predicate SomeLeads(items: seq<Json>, n: nat, segs: seq<Segment>, w: JsValue)
    requires n <= |items|
  {
    exists i | 0 <= i < n :: Leads(Own(items[i]), segs, w)
  }

  lemma OneMoreLeads(items: seq<Json>, n: nat, segs: seq<Segment>, w: JsValue)
    requires 0 < n <= |items|
    ensures SomeLeads(items, n, segs, w) <==> SomeLeads(items, n - 1, segs, w) || Leads(Own(items[n - 1]), segs, w)
  {
    if SomeLeads(items, n, segs, w) {
      var i :| 0 <= i < n && Leads(Own(items[i]), segs, w);
      assert i < n - 1 || i == n - 1;
    }
  }

  lemma {:induction false} LeadsToElements(items: seq<Json>, n: nat, segs: seq<Segment>, w: JsValue)
    requires n <= |items|
    ensures w in ClientAll(items, n, segs) <==> SomeLeads(items, n, segs, w)
    decreases |segs|, 1, n
  {
    if n > 0 {
      LeadsToElements(items, n - 1, segs, w);
      LeadsToCandidates(Own(items[n - 1]), segs, w);
      OneMoreLeads(items, n, segs, w);
    }
  }

  // ---- what a needle asks of a value --------------------------------------------------------

  predicate Relates(op: CmpOp, x: real, y: real) {
    || (x < y && (op.Lt? || op.Lte?))
    || (x == y && (op.Lte? || op.Gte?))
    || (y < x && (op.Gt? || op.Gte?))
  }

  /** The text has `part` in it, with whatever before and behind. */
  ghost predicate Within(text: string, part: string) {
    exists a, b :: text == a + part + b
  }

  lemma IncludesWithin(text: string, part: string)
    ensures Includes(text, part) <==> Within(text, part)
  {
    if Includes(text, part) {
      var i :| 0 <= i <= |text| && OccursAt(text, part, i);
      assert text == text[..i] + part + text[i + |part|..];
    }
    if Within(text, part) {
      var a, b :| text == a + part + b;
      assert OccursAt(text, part, |a|);
    }
  }

  /** A number compares with a number, a text contains a text or is it, but for case. */
  ghost predicate Meets(env: Env, o: Operator, needle: string, j: Json) {
    match o
    case Compares(op) =>
      var x, y := ScalarNumber(env.clientParse, j), JsonNumber(env.clientParse, needle);
      x.Some? && y.Some? && Relates(op, x.value, y.value)
    case _ =>
      var text, sought := ScalarText(env, j), env.lower(needle);
      text.Some? && (if o.Has? then Within(text.value, sought) else (text.value == sought) == o.Is?)
  }

  /** Two texts that are the same JSON, or failing that the same text, but for case. */
  predicate SameValue(env: Env, text: string, needle: string) {
    var a, b := env.clientParse(text), env.clientParse(needle);
    if a.Some? && b.Some? then JsonEq(env.lower, a.value, b.value) else env.lower(text) == env.lower(needle)
  }

  ghost predicate FieldMeets(env: Env, path: string, o: Operator, needle: string, root: Json) {
    exists w: JsValue :: Leads(Own(root), Tokens(path), w) && w.Own? && Meets(env, o, needle, w.json)
  }

  /** The messages a query selects. */
  ghost predicate Selects(env: Env, q: Query, msg: Content) {
    match q.subject
    case Key => msg.key.Some? && Meets(env, q.operator, q.needle, Str(msg.key.value.text))
    case Value =>
      Readable(msg) &&
      var text := msg.value.value.text;
      (match q.operator
       case Has => Meets(env, Has, q.needle, Str(text))
       case Is => SameValue(env, text, q.needle)
       case IsNot => !SameValue(env, text, q.needle)
       case Compares(_) =>
         var root := env.clientParse(text);
         root.Some? && Meets(env, q.operator, q.needle, root.value))
    case Field(path) =>
      Readable(msg) &&
      var root := env.clientParse(msg.value.value.text);
      root.Some? && FieldMeets(env, path, q.operator, q.needle, root.value)
  }

  lemma RelatesHolds(op: CmpOp, x: real, y: real)
    ensures CmpHolds(op, x, y) <==> Relates(op, x, y)
  {}

  lemma SomeMeets(env: Env, path: string, o: Operator, needle: string, root: Json, test: Json -> bool)
    requires forall j :: test(j) <==> Meets(env, o, needle, j)
    ensures SomeClient(ClientCandidates(Own(root), Tokens(path)), test) <==> FieldMeets(env, path, o, needle, root)
  {
    var cs := ClientCandidates(Own(root), Tokens(path));
    forall w ensures w in cs <==> Leads(Own(root), Tokens(path), w) { LeadsToCandidates(Own(root), Tokens(path), w); }
    if SomeClient(cs, test) {
      var i :| 0 <= i < |cs| && Passes(cs[i], test);
      assert cs[i] in cs;
    }
    if FieldMeets(env, path, o, needle, root) {
      var w: JsValue :| Leads(Own(root), Tokens(path), w) && w.Own? && Meets(env, o, needle, w.json);
      var i :| 0 <= i < |cs| && cs[i] == w;
      assert Passes(cs[i], test);
    }
  }

  lemma FieldSelects(env: Env, path: string, o: Operator, needle: string, msg: Content)
    ensures Accepts(env, Selecting(Query(Field(path), o, needle)), msg) <==>
            Selects(env, Query(Field(path), o, needle), msg)
  {
    if Readable(msg) && env.clientParse(msg.value.value.text).Some? {
      var root := env.clientParse(msg.value.value.text).value;
      match o
      case Has =>
        forall text ensures Includes(text, env.lower(needle)) <==> Within(text, env.lower(needle)) {
          IncludesWithin(text, env.lower(needle));
        }
        SomeMeets(env, path, o, needle, root, TextHas(env, env.lower(needle)));
      case Is => SomeMeets(env, path, o, needle, root, TextIs(env, env.lower(needle)));
      case IsNot => SomeMeets(env, path, o, needle, root, TextIsNot(env, env.lower(needle)));
      case Compares(op) =>
        var y := JsonNumber(env.clientParse, needle);
        if y.Some? {
          forall x ensures CmpHolds(op, x, y.value) <==> Relates(op, x, y.value) { RelatesHolds(op, x, y.value); }
          SomeMeets(env, path, o, needle, root, NumberCompares(env.clientParse, op, y.value));
        }
    }
  }

  /** The client's predicate for a query selects exactly what the query means. */
  lemma SelectingSelects(env: Env, q: Query, msg: Content)
    ensures Accepts(env, Selecting(q), msg) <==> Selects(env, q, msg)
  {
    if q.subject.Field? {
      FieldSelects(env, q.subject.path, q.operator, q.needle, msg);
    } else if q.operator.Compares? {
      forall x, y ensures CmpHolds(q.operator.op, x, y) <==> Relates(q.operator.op, x, y) {
        RelatesHolds(q.operator.op, x, y);
      }
    } else {
      if msg.key.Some? { IncludesWithin(env.lower(msg.key.value.text), env.lower(q.needle)); }
      if Readable(msg) { IncludesWithin(env.lower(msg.value.value.text), env.lower(q.needle)); }
    }
  }

  /** A query typed into the filter box selects what it says, whatever the case of its keyword. */
  lemma WrittenSelects(env: Env, word: string, q: Query, msg: Content)
    requires AsciiLowering(env.lower) && Spells(word, q.subject) && Writable(q)
    ensures Accepts(env, ParseFilterQuery(env, Written(word, q)).accepts, msg) <==> Selects(env, q, msg)
  {
    WrittenReads(env, word, q);
    SelectingSelects(env, q, msg);
  }

  // ---- searches -----------------------------------------------------------------------------

  /** The key or the readable value contains the text. */
  ghost predicate Mentions(env: Env, needle: string, msg: Content) {
    || (msg.key.Some? && Meets(env, Has, needle, Str(msg.key.value.text)))
    || (Readable(msg) && Meets(env, Has, needle, Str(msg.value.value.text)))
  }

  lemma ContainsMentions(env: Env, needle: string, msg: Content)
    ensures Accepts(env, Contains(needle), msg) <==> Mentions(env, needle, msg)
  {
    if msg.key.Some? { IncludesWithin(env.lower(msg.key.value.text), env.lower(needle)); }
    if Readable(msg) { IncludesWithin(env.lower(msg.value.value.text), env.lower(needle)); }
  }

  /** A text in quotes is searched for as it stands, empty quotes for nothing. */
  lemma QuotedSearches(env: Env, needle: string, msg: Content)
    ensures Accepts(env, ParseFilterQuery(env, "\"" + needle + "\"").accepts, msg) <==>
            needle == "" || Mentions(env, needle, msg)
  {
    var text := "\"" + needle + "\"";
    assert text[0] == '"' && text[|text| - 1] == '"' && text[1..|text| - 1] == needle;
    ContainsMentions(env, needle, msg);
  }

  predicate Signless(text: string) {
    forall i | 0 <= i < |text| ::
      text[i] != ':' && text[i] != '=' && text[i] != '>' && text[i] != '<' && text[i] != '.' && text[i] != '"'
  }

  lemma SignlessPrefix(env: Env, text: string, prefix: string, i: nat)
    requires AsciiLowering(env.lower) && Ascii(text) && Signless(text) && i < |prefix|
    requires prefix[i] == ':' || prefix[i] == '=' || prefix[i] == '>' || prefix[i] == '<' || prefix[i] == '.'
    ensures !PrefixIs(env, text, prefix)
  {
    var front := Slice(text, |prefix|);
    assert FrontLowered(env.lower, front, "");
    if |front| == |prefix| { assert AsciiLower(front)[i] == LowerChar(text[i]); }
  }

  /** So is any ASCII text without an operator, a dot or a quote in it. */
  lemma BareSearches(env: Env, text: string, msg: Content)
    requires AsciiLowering(env.lower) && Ascii(text) && Signless(text) && text != ""
    ensures Accepts(env, ParseFilterQuery(env, text).accepts, msg) <==> Mentions(env, text, msg)
  {
    ContainsMentions(env, text, msg);
    SignlessPrefix(env, text, "key:", 3);
    SignlessPrefix(env, text, "key=", 3);
    SignlessPrefix(env, text, "key!=", 4);
    SignlessPrefix(env, text, "key>", 3);
    SignlessPrefix(env, text, "key<", 3);
    SignlessPrefix(env, text, "value:", 5);
    SignlessPrefix(env, text, "value=", 5);
    SignlessPrefix(env, text, "value!=", 6);
    SignlessPrefix(env, text, "value>", 5);
    SignlessPrefix(env, text, "value<", 5);
    SignlessPrefix(env, text, "value.", 5);
  }

  // ---- literals -----------------------------------------------------------------------------

  /** A JSON literal typed as a needle is met by that literal and by no other, where the
      parser reads the literals as JSON does. */
  lemma LiteralsMeet(env: Env, a: Json, b: Json, needle: string)
    requires AsciiLowering(env.lower) && env.clientParse(needle) == Some(a)
    requires env.clientParse("true") == Some(Bool(true)) && env.clientParse("false") == Some(Bool(false))
    requires env.clientParse("null") == Some(Null)
    requires needle in {"true", "false", "null"} && (b.Bool? || b.Null?)
    ensures Meets(env, Is, needle, b) <==> a == b
  {
    assert FrontLowered(env.lower, needle, "");
    assert AsciiLower(needle) == needle;
  }

  /** A text that holds a number is compared as that number. */
  lemma NumberTextsMeet(env: Env, op: CmpOp, needle: string, text: string, x: real)
    requires env.clientParse(text) == Some(Num(x))
    ensures Meets(env, Compares(op), needle, Str(text)) <==> Meets(env, Compares(op), needle, Num(x))
  {}

  /** A value that could not be decoded is selected by no query about it, not even a negated one. */
  lemma UnreadableUnselected(env: Env, q: Query, msg: Content)
    requires msg.value.Some? ==> msg.value.value.decodeError
    ensures q.subject != Key ==> !Accepts(env, Selecting(q), msg)
  {
    SelectingSelects(env, q, msg);
  }
}
