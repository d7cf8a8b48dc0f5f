/**
 * The field-path language: the tokenizer both filter implementations share, the
 * printer the completion list uses, and how far one undoes the other.
 */
module PathTokens {

  datatype Segment = Name(name: string) | AnyElement

  /** The tokenizer's state between two characters. */
  datatype Lexer = Lexer(segments: seq<Segment>, current: string, inQuotes: bool, afterMarker: bool)

  const START := Lexer([], "", false, false)

  function Marker(s: string): bool {
    |s| >= 2 && s[0] == '[' && s[1] == ']'
  }

  /** `.` ends a segment, except that right after a `[]` marker it ends nothing. */
  function Dot(st: Lexer): Lexer {
    Lexer(Finish(st), "", false, false)
  }

  function Mark(st: Lexer): Lexer {
    Lexer((if st.current != "" then st.segments + [Name(st.current)] else st.segments) + [AnyElement], "", false, true)
  }

  /** One step: a `[]` pair outside quotes is taken whole, anything else one character at a time. */
  function Step(s: string, st: Lexer): (Lexer, nat)
    requires s != ""
  {
    if s[0] == '"' then (st.(inQuotes := !st.inQuotes), 1)
    else if s[0] == '.' && !st.inQuotes then (Dot(st), 1)
    else if Marker(s) && !st.inQuotes then (Mark(st), 2)
    else (st.(current := st.current + [s[0]], afterMarker := false), 1)
  }

  function Feed(s: string, st: Lexer): Lexer
    decreases |s|
  {
    if s == "" then st else
    var (next, n) := Step(s, st);
    Feed(s[n..], next)
  }

  function Finish(st: Lexer): seq<Segment> {
    if st.afterMarker && st.current == "" then st.segments else st.segments + [Name(st.current)]
  }

  function Tokens(path: string): seq<Segment> {
    Finish(Feed(path, START))
  }

  method SplitPath(path: string) returns (segments: seq<Segment>)
    ensures segments == Tokens(path)
  {
    segments := [];
    var current, inQuotes, afterMarker := "", false, false;
    var i := 0;
    while i < |path|
      invariant 0 <= i <= |path|
      invariant Feed(path[i..], Lexer(segments, current, inQuotes, afterMarker)) == Feed(path, START)
    {
      var c := path[i];
      ghost var rest, st := path[i..], Lexer(segments, current, inQuotes, afterMarker);
      assert rest[0] == c && rest[1..] == path[i + 1..];
      if c == '"' {
        inQuotes := !inQuotes;
      } else if c == '.' && !inQuotes {
        if !(afterMarker && current == "") {
          segments := segments + [Name(current)];
        }
        current, afterMarker := "", false;
      } else if c == '[' && !inQuotes && i + 1 < |path| && path[i + 1] == ']' {
        assert Marker(rest) && rest[2..] == path[i + 2..];
        if current != "" {
          segments := segments + [Name(current)];
        }
        segments, current, afterMarker := segments + [AnyElement], "", true;
        i := i + 1;
      } else {
        current, afterMarker := current + [c], false;
      }
      i := i + 1;
    }
    if !(afterMarker && current == "") {
      segments := segments + [Name(current)];
    }
  }

  // ---- the printer ----------------------------------------------------------------

  predicate Special(c: char) {
    c == '.' || c == ':' || c == '=' || c == '[' || c == ']'
  }

  predicate Plain(name: string) {
    forall i | 0 <= i < |name| :: !Special(name[i])
  }

  predicate QuoteFree(name: string) {
    forall i | 0 <= i < |name| :: name[i] != '"'
  }

  /** A field name as typed: quoted when it has a character of the grammar in it. */
  function Quoted(name: string): string {
    if Plain(name) then name else "\"" + name + "\""
  }

  function Extend(prefix: string, step: Segment): string {
    match step
    case Name(k) => if prefix == "" then Quoted(k) else prefix + "." + Quoted(k)
    case AnyElement => prefix + "[]"
  }

  /** The path printed for a walk down from the root. */
  function Print(steps: seq<Segment>): string {
    if steps == [] then "" else Extend(Print(steps[..|steps| - 1]), steps[|steps| - 1])
  }

  predicate Quotable(steps: seq<Segment>) {
    forall i | 0 <= i < |steps| :: steps[i].Name? ==> QuoteFree(steps[i].name)
  }

  // ---- tokenizing what was printed ---------------------------------------------------

  /** Text may be fed in pieces, as long as no piece begins with `]`. */
  lemma {:induction false} FeedAppend(a: string, b: string, st: Lexer)
    requires b == "" || b[0] != ']'
    ensures Feed(a + b, st) == Feed(b, Feed(a, st))
    decreases |a|
  {
    if a == "" {
      assert a + b == b;
    } else {
      assert Marker(a + b) <==> Marker(a);
      var (next, n) := Step(a, st);
      assert Step(a + b, st) == (next, n);
      assert (a + b)[n..] == a[n..] + b;
      FeedAppend(a[n..], b, next);
    }
  }

  lemma {:induction false} FeedPlain(k: string, st: Lexer)
    requires Plain(k) && QuoteFree(k) && !st.inQuotes
    ensures Feed(k, st) == st.(current := st.current + k, afterMarker := k == "" && st.afterMarker)
    decreases |k|
  {
    if k == "" {
      assert st.current + k == st.current;
    } else {
      var next := st.(current := st.current + [k[0]], afterMarker := false);
      FeedPlain(k[1..], next);
      assert next.current + k[1..] == st.current + k;
    }
  }

  lemma {:induction false} FeedInside(k: string, st: Lexer)
    requires QuoteFree(k) && st.inQuotes
    ensures Feed(k, st) == st.(current := st.current + k, afterMarker := k == "" && st.afterMarker)
    decreases |k|
  {
    if k == "" {
      assert st.current + k == st.current;
    } else {
      var next := st.(current := st.current + [k[0]], afterMarker := false);
      FeedInside(k[1..], next);
      assert next.current + k[1..] == st.current + k;
    }
  }

  lemma FeedQuoted(k: string, st: Lexer)
    requires QuoteFree(k) && !st.inQuotes
    ensures Feed(Quoted(k), st) == st.(current := st.current + k, afterMarker := k == "" && st.afterMarker)
  {
    if Plain(k) {
      FeedPlain(k, st);
    } else {
      var inside := st.(inQuotes := true);
      assert ("\"" + k + "\"")[1..] == k + "\"";
      FeedAppend(k, "\"", inside);
      FeedInside(k, inside);
      assert "\""[1..] == "";
    }
  }

  /** The segments a printed path stands for: an empty name is lost at the front and
      right before a marker. */
  function Legible(steps: seq<Segment>): seq<Segment> {
    if steps == [] then [Name("")] else Finish(Lexed(steps))
  }

  /** The tokenizer's state behind a printed walk. */
  function Lexed(steps: seq<Segment>): Lexer {
    if steps == [] then START else
    var st := Lexed(steps[..|steps| - 1]);
    match steps[|steps| - 1]
    case Name(k) => if Print(steps[..|steps| - 1]) == "" then st.(current := k) else Dot(st).(current := k)
    case AnyElement => Mark(st)
  }

  /** Nothing is printed only while every name so far was empty. */
  lemma {:induction false} PrintsNothing(steps: seq<Segment>)
    ensures Print(steps) == "" <==> forall i | 0 <= i < |steps| :: steps[i] == Name("")
    ensures Print(steps) == "" ==> Lexed(steps) == START
  {
    if steps != [] {
      var front, last := steps[..|steps| - 1], steps[|steps| - 1];
      PrintsNothing(front);
      assert steps == front + [last];
      match last
      case Name(k) => assert Quoted(k) == "" <==> k == "";
      case AnyElement =>
    }
  }

  lemma {:induction false} PrintedState(steps: seq<Segment>)
    requires Quotable(steps)
    ensures Feed(Print(steps), START) == Lexed(steps) && !Lexed(steps).inQuotes
  {
    if steps != [] {
      var front, last := steps[..|steps| - 1], steps[|steps| - 1];
      PrintedState(front);
      PrintsNothing(front);
      var prefix, st := Print(front), Lexed(front);
      match last
      case Name(k) =>
        if prefix == "" {
          FeedQuoted(k, START);
        } else {
          FeedAppend(prefix, "." + Quoted(k), START);
          assert prefix + "." + Quoted(k) == prefix + ("." + Quoted(k));
          assert ("." + Quoted(k))[1..] == Quoted(k);
          FeedQuoted(k, Dot(st));
        }
      case AnyElement =>
        FeedAppend(prefix, "[]", START);
        assert "[]"[2..] == "";
    }
  }

  /** Tokenizing a printed path gives the legible part of the walk. */
  lemma PrintThenTokens(steps: seq<Segment>)
    requires Quotable(steps)
    ensures Tokens(Print(steps)) == Legible(steps)
  {
    PrintedState(steps);
  }

  // ---- when nothing is lost ---------------------------------------------------------

  /** No empty name in front of anything, none right before a marker. */
  predicate Exact(steps: seq<Segment>) {
    && steps != []
    && (|steps| > 1 ==> steps[0] != Name(""))
    && forall i | 0 <= i < |steps| - 1 :: steps[i] == Name("") ==> steps[i + 1] != AnyElement
  }

  /** What the state remembers of the last step. */
  lemma LexedLast(steps: seq<Segment>)
    requires steps != []
    ensures var st, last := Lexed(steps), steps[|steps| - 1];
      if last.Name? then st.current == last.name && !st.afterMarker else st.current == "" && st.afterMarker
  {
    PrintsNothing(steps[..|steps| - 1]);
  }

  lemma ExactFront(steps: seq<Segment>)
    requires |steps| > 1
    ensures Exact(steps) ==> Exact(steps[..|steps| - 1])
    ensures (Exact(steps[..|steps| - 1]) && !(|steps| == 2 && steps[0] == Name("")) &&
             !(steps[|steps| - 2] == Name("") && steps[|steps| - 1] == AnyElement)) ==> Exact(steps)
  {
    var front := steps[..|steps| - 1];
    assert forall i | 0 <= i < |front| :: front[i] == steps[i];
  }

  /** One more step adds at most one segment, and exactly itself where nothing is lost. */
  lemma LexedGrows(steps: seq<Segment>)
    requires |steps| > 1
    ensures var front, last := steps[..|steps| - 1], steps[|steps| - 1];
      && |Finish(Lexed(steps))| <= |Finish(Lexed(front))| + 1
      && (Print(front) == "" ==> |Finish(Lexed(steps))| == 1)
      && (front[|front| - 1] == Name("") && last == AnyElement ==> |Finish(Lexed(steps))| <= |Finish(Lexed(front))|)
      && (Print(front) != "" && !(front[|front| - 1] == Name("") && last == AnyElement) ==>
          Finish(Lexed(steps)) == Finish(Lexed(front)) + [last])
  {
    var front, last := steps[..|steps| - 1], steps[|steps| - 1];
    PrintsNothing(front);
    LexedLast(front);
    if last.Name? { DotFinish(Lexed(front), last.name); } else { MarkFinish(Lexed(front)); }
  }

  lemma DotFinish(st: Lexer, k: string)
    ensures Finish(Dot(st).(current := k)) == Finish(st) + [Name(k)]
  {}

  lemma MarkFinish(st: Lexer)
    ensures Finish(Mark(st)) == (if st.current == "" && !st.afterMarker then st.segments else Finish(st)) + [AnyElement]
  {}

  lemma {:induction false} ExactIsLegible(steps: seq<Segment>)
    requires Exact(steps)
    ensures Finish(Lexed(steps)) == steps
  {
    var front := steps[..|steps| - 1];
    assert steps == front + [steps[|steps| - 1]];
    if front == [] {
      assert Lexed(front) == START;
    } else {
      ExactFront(steps);
      ExactIsLegible(front);
      PrintsNothing(front);
      assert front[0] == steps[0] && front[|front| - 1] == steps[|steps| - 2];
      LexedGrows(steps);
    }
  }

  lemma {:induction false} InexactIsShorter(steps: seq<Segment>)
    requires steps != []
    ensures |Finish(Lexed(steps))| <= |steps|
    ensures !Exact(steps) ==> |Finish(Lexed(steps))| < |steps|
  {
    var front := steps[..|steps| - 1];
    if front == [] {
      assert Lexed(front) == START;
    } else {
      InexactIsShorter(front);
      ExactFront(steps);
      LexedGrows(steps);
      PrintsNothing(front);
      if |steps| == 2 && steps[0] == Name("") { assert front == [Name("")]; }
    }
  }

  /** Tokenizing undoes printing exactly when no name along the way is empty, except a
      lone one or one that another name follows. */
  lemma RoundTrip(steps: seq<Segment>)
    requires Quotable(steps)
    ensures Tokens(Print(steps)) == steps <==> Exact(steps)
  {
    PrintThenTokens(steps);
    if steps != [] {
      InexactIsShorter(steps);
      if Exact(steps) { ExactIsLegible(steps); }
    }
  }

  /** In particular for every walk over non-empty names. */
  lemma RoundTripOfNames(steps: seq<Segment>)
    requires Quotable(steps) && steps != [] && forall i | 0 <= i < |steps| :: steps[i] != Name("")
    ensures Tokens(Print(steps)) == steps
  {
    RoundTrip(steps);
  }
}