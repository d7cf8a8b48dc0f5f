/** The field paths offered while a filter is typed, read off the rows in the window. */
module FieldPaths {
  import opened Rows
  import opened JsonEquality
  import opened PathTokens
  import opened PathWalk

  predicate Scalar(node: Json) {
    !node.Arr? && !node.Obj?
  }

  /** The paths to the scalars under `node`; an array's first element stands for its shape. */
  function PathsOf(node: Json, prefix: string, depth: nat, maxDepth: nat): set<string>
    decreases node, 0
  {
    if prefix != "" && Scalar(node) then {prefix}
    else if depth >= maxDepth then {}
    else match node
      case Arr(items) => if items != [] then PathsOf(items[0], Extend(prefix, AnyElement), depth + 1, maxDepth) else {}
      case Obj(es) => PathsOfFirst(es, |es|, prefix, depth, maxDepth)
      case _ => {}
  }

  function PathsOfFirst(es: seq<Entry>, n: nat, prefix: string, depth: nat, maxDepth: nat): set<string>
    requires n <= |es|
    decreases es, n
  {
    if n == 0 then {} else
    PathsOfFirst(es, n - 1, prefix, depth, maxDepth) +
    if QuoteFree(es[n - 1].key) then
      PathsOf(es[n - 1].value, Extend(prefix, Name(es[n - 1].key)), depth + 1, maxDepth)
    else {}
  }

  method WalkFields(node: Json, prefix: string, depth: nat, maxDepth: nat, paths: set<string>)
    returns (paths': set<string>)
    ensures paths' == paths + PathsOf(node, prefix, depth, maxDepth)
    decreases node
  {
    paths' := paths;
    if prefix != "" && Scalar(node) {
      paths' := paths' + {prefix};
      return;
    }
    if depth >= maxDepth { return; }
    match node {
      case Arr(items) =>
        if |items| > 0 {
          paths' := WalkFields(items[0], prefix + "[]", depth + 1, maxDepth, paths');
        }
      case Obj(es) =>
        for i := 0 to |es|
          invariant paths' == paths + PathsOfFirst(es, i, prefix, depth, maxDepth)
        {
          var k := es[i].key;
          if QuoteFree(k) {
            var seg := if Plain(k) then k else "\"" + k + "\"";
            var next := if prefix == "" then seg else prefix + "." + seg;
            paths' := WalkFields(es[i].value, next, depth + 1, maxDepth, paths');
          }
        }
      case _ =>
    }
  }

  // ---- the list in order -----------------------------------------------------------------

  /** A character as JavaScript compares it: one or two UTF-16 code units. */
  function Unit(c: char): seq<int> {
    var n := c as int;
    if n < 0x1_0000 then [n] else [0xD800 + (n - 0x1_0000) / 0x400, 0xDC00 + (n - 0x1_0000) % 0x400]
  }

  function Units(s: string): seq<int> {
    if s == "" then [] else Unit(s[0]) + Units(s[1..])
  }

  predicate AtMost(a: seq<int>, b: seq<int>) {
    a == [] || (b != [] && (a[0] < b[0] || (a[0] == b[0] && AtMost(a[1..], b[1..]))))
  }

  predicate Precedes(a: string, b: string) {
    AtMost(Units(a), Units(b))
  }

  predicate InOrder(paths: seq<string>) {
    forall i, j | 0 <= i < j < |paths| :: Precedes(paths[i], paths[j])
  }

  lemma {:induction false} AtMostTotal(a: seq<int>, b: seq<int>)
    ensures AtMost(a, b) || AtMost(b, a)
  {
    if a != [] && b != [] && a[0] == b[0] { AtMostTotal(a[1..], b[1..]); }
  }

  lemma {:induction false} AtMostTransitive(a: seq<int>, b: seq<int>, c: seq<int>)
    requires AtMost(a, b) && AtMost(b, c)
    ensures AtMost(a, c)
  {
    if a != [] && a[0] == b[0] == c[0] { AtMostTransitive(a[1..], b[1..], c[1..]); }
  }

  function Inserted(paths: seq<string>, p: string): seq<string> {
    if paths == [] || Precedes(p, paths[0]) then [p] + paths else [paths[0]] + Inserted(paths[1..], p)
  }

  lemma {:induction false} InsertedHolds(paths: seq<string>, p: string, q: string)
    ensures |Inserted(paths, p)| == |paths| + 1
    ensures q in Inserted(paths, p) <==> q == p || q in paths
  {
    if paths != [] && !Precedes(p, paths[0]) {
      InsertedHolds(paths[1..], p, q);
      assert q in paths <==> q == paths[0] || q in paths[1..];
    }
  }

  lemma {:induction false} InsertedInOrder(paths: seq<string>, p: string)
    requires InOrder(paths)
    ensures InOrder(Inserted(paths, p))
  {
    if paths != [] {
      var first, rest := paths[0], paths[1..];
      forall q | q in rest ensures Precedes(first, q) {}
      if Precedes(p, first) {
        forall q | q in rest ensures Precedes(p, q) { AtMostTransitive(Units(p), Units(first), Units(q)); }
      } else {
        AtMostTotal(Units(p), Units(first));
        InsertedInOrder(rest, p);
        var out := Inserted(rest, p);
        forall j | 0 <= j < |out| ensures Precedes(first, out[j]) { InsertedHolds(rest, p, out[j]); }
      }
    }
  }

  method SortPaths(paths: set<string>) returns (out: seq<string>)
    ensures InOrder(out) && |out| == |paths|
    ensures forall p :: p in out <==> p in paths
  {
    out := [];
    var rest := paths;
    while rest != {}
      invariant InOrder(out) && |out| + |rest| == |paths|
      invariant forall p :: p in paths <==> p in out || p in rest
      invariant forall p | p in out :: p !in rest
    {
      var p :| p in rest;
      InsertedInOrder(out, p);
      forall q ensures |Inserted(out, p)| == |out| + 1 && (q in Inserted(out, p) <==> q == p || q in out) {
        InsertedHolds(out, p, q);
      }
      out, rest := Inserted(out, p), rest - {p};
    }
  }

  // ---- the whole list ---------------------------------------------------------------------

  const MAX_ROWS: nat := 200
  const MAX_DEPTH: nat := 6

  predicate OfferedBy(rows: seq<Option<Json>>, n: nat, p: string) {
    exists i | 0 <= i < n && i < |rows| :: rows[i].Some? && p in PathsOf(rows[i].value, "", 0, MAX_DEPTH)
  }

  /** The parsed value of each row, if it has a readable one. */
  method ExtractFieldPaths(rows: seq<Option<Json>>) returns (paths: seq<string>)
    ensures InOrder(paths) && forall p :: p in paths <==> OfferedBy(rows, MAX_ROWS, p)
    ensures forall i, j | 0 <= i < j < |paths| :: paths[i] != paths[j]
  {
    var found := {};
    var n := Min(|rows|, MAX_ROWS);
    for i := 0 to n
      invariant forall p :: p in found <==> OfferedBy(rows, i, p)
    {
      if rows[i].Some? {
        found := WalkFields(rows[i].value, "", 0, MAX_DEPTH, found);
      }
    }
    paths := SortPaths(found);
    OneEach(paths, found);
  }

  /** As many entries as there are different ones leave no room to repeat any. */
  lemma OneEach(paths: seq<string>, found: set<string>)
    requires |paths| == |found| && forall p :: p in paths <==> p in found
    ensures forall i, j | 0 <= i < j < |paths| :: paths[i] != paths[j]
  {
    forall i, j | 0 <= i < j < |paths| ensures paths[i] != paths[j] {
      if paths[i] == paths[j] {
        var less := paths[..j] + paths[j + 1..];
        forall p | p in found ensures p in less {
          var k :| 0 <= k < |paths| && paths[k] == p;
          if k == j { assert less[i] == p; } else { assert less[if k < j then k else k - 1] == p; }
        }
        FewEnough(less, found);
      }
    }
  }

  lemma {:induction false} FewEnough(paths: seq<string>, found: set<string>)
    requires forall p | p in found :: p in paths
    ensures |found| <= |paths|
    decreases |paths|
  {
    if found != {} {
      FewEnough(paths[1..], found - {paths[0]});
    }
  }

  // ---- every path offered leads somewhere ----------------------------------------------

  /** The node a walk over names and first elements comes to. */
  function Descend(node: Json, steps: seq<Segment>): Option<Json>
    decreases |steps|
  {
    if steps == [] then Some(node) else
    match steps[0]
    case Name(n) =>
      if node.Obj? then
        var v := Lookup(node.entries, n);
        if v.Some? then Descend(v.value, steps[1..]) else None
      else None
    case AnyElement => if node.Arr? && node.items != [] then Descend(node.items[0], steps[1..]) else None
  }

  /** Objects as a parser leaves them: one entry per key. */
  predicate WellKeyed(a: Json)
    decreases a
  {
    match a
    case Arr(x) => forall i | 0 <= i < |x| :: WellKeyed(x[i])
    case Obj(x) => ExactKeys(x) && forall i | 0 <= i < |x| :: WellKeyed(x[i].value)
    case _ => true
  }

  lemma LookupOwn(es: seq<Entry>, i: nat)
    requires ExactKeys(es) && i < |es|
    ensures Lookup(es, es[i].key) == Some(es[i].value)
  {
    var v := Lookup(es, es[i].key);
    assert v.Some?;
    var j :| 0 <= j < |es| && es[j].key == es[i].key && es[j].value == v.value;
    assert i == j;
  }

  /** A walk from `node`, printed behind `done`, that ends at a scalar. */
  ghost predicate Leads(node: Json, done: seq<Segment>, steps: seq<Segment>, path: string) {
    && Quotable(done + steps) && path == Print(done + steps)
    && Descend(node, steps).Some? && Scalar(Descend(node, steps).value)
  }

  lemma LeadsOn(node: Json, child: Json, done: seq<Segment>, s: Segment, steps: seq<Segment>, path: string)
    requires Leads(child, done + [s], steps, path)
    requires s.Name? ==> node.Obj? && Lookup(node.entries, s.name) == Some(child)
    requires s.AnyElement? ==> node.Arr? && node.items != [] && node.items[0] == child
    ensures Leads(node, done, [s] + steps, path)
  {
    assert done + ([s] + steps) == (done + [s]) + steps;
    assert ([s] + steps)[1..] == steps;
  }

  lemma PrintNext(done: seq<Segment>, s: Segment)
    ensures Print(done + [s]) == Extend(Print(done), s)
    ensures Quotable(done) && (s.Name? ==> QuoteFree(s.name)) ==> Quotable(done + [s])
  {
    assert (done + [s])[..|done|] == done;
  }

  lemma {:induction false} PathIsWalk(node: Json, done: seq<Segment>, depth: nat, maxDepth: nat, path: string)
    returns (steps: seq<Segment>)
    requires WellKeyed(node) && Quotable(done) && path in PathsOf(node, Print(done), depth, maxDepth)
    requires depth <= maxDepth
    ensures Leads(node, done, steps, path) && path != "" && depth + |steps| <= maxDepth
    decreases node, 0
  {
    var prefix := Print(done);
    if prefix != "" && Scalar(node) {
      steps := [];
      assert done + [] == done;
    } else {
      match node
      case Arr(items) =>
        PrintNext(done, AnyElement);
        var rest := PathIsWalk(items[0], done + [AnyElement], depth + 1, maxDepth, path);
        LeadsOn(node, items[0], done, AnyElement, rest, path);
        steps := [AnyElement] + rest;
      case Obj(es) => steps := PathInEntries(es, |es|, done, depth, maxDepth, path);
    }
  }

  lemma {:induction false} PathInEntries(es: seq<Entry>, n: nat, done: seq<Segment>, depth: nat, maxDepth: nat,
                                         path: string)
    returns (steps: seq<Segment>)
    requires n <= |es| && WellKeyed(Obj(es)) && Quotable(done)
    requires path in PathsOfFirst(es, n, Print(done), depth, maxDepth) && depth < maxDepth
    ensures Leads(Obj(es), done, steps, path) && path != "" && depth + |steps| <= maxDepth
    decreases es, n
  {
    if path in PathsOfFirst(es, n - 1, Print(done), depth, maxDepth) {
      steps := PathInEntries(es, n - 1, done, depth, maxDepth, path);
    } else {
      var key := Name(es[n - 1].key);
      PrintNext(done, key);
      var rest := PathIsWalk(es[n - 1].value, done + [key], depth + 1, maxDepth, path);
      EntryLeads(es, n - 1, done, rest, path);
      steps := [key] + rest;
    }
  }

  lemma EntryLeads(es: seq<Entry>, i: nat, done: seq<Segment>, rest: seq<Segment>, path: string)
    requires ExactKeys(es) && i < |es| && Leads(es[i].value, done + [Name(es[i].key)], rest, path)
    ensures Leads(Obj(es), done, [Name(es[i].key)] + rest, path)
  {
    LookupOwn(es, i);
    LeadsOn(Obj(es), es[i].value, done, Name(es[i].key), rest, path);
  }

  // ---- and every walk is offered ----------------------------------------------------------

  lemma {:induction false} EntryOffered(es: seq<Entry>, n: nat, i: nat, prefix: string, depth: nat, maxDepth: nat)
    requires i < n <= |es| && QuoteFree(es[i].key)
    ensures PathsOf(es[i].value, Extend(prefix, Name(es[i].key)), depth + 1, maxDepth) <=
            PathsOfFirst(es, n, prefix, depth, maxDepth)
    decreases n
  {
    if i < n - 1 { EntryOffered(es, n - 1, i, prefix, depth, maxDepth); }
  }

  /** The first step of a walk, and what it leaves to walk. */
  lemma LeadsNext(node: Json, done: seq<Segment>, steps: seq<Segment>, path: string) returns (child: Json, i: nat)
    requires Leads(node, done, steps, path) && steps != []
    ensures Leads(child, done + [steps[0]], steps[1..], path)
    ensures Print(done + [steps[0]]) == Extend(Print(done), steps[0])
    ensures match steps[0]
      case Name(n) =>
        node.Obj? && i < |node.entries| && node.entries[i] == Entry(n, child) && QuoteFree(n)
      case AnyElement => node.Arr? && node.items != [] && node.items[0] == child
  {
    var s, rest := steps[0], steps[1..];
    assert steps == [s] + rest && done + steps == (done + [s]) + rest;
    assert (done + steps)[|done|] == s;
    PrintNext(done, s);
    if s.Name? {
      var es := node.entries;
      i :| 0 <= i < |es| && es[i].key == s.name && es[i].value == Lookup(es, s.name).value;
      child := es[i].value;
    } else {
      child, i := node.items[0], 0;
    }
  }

  lemma {:induction false} WalkOffered(node: Json, done: seq<Segment>, steps: seq<Segment>, path: string, depth: nat,
                                       maxDepth: nat)
    requires Leads(node, done, steps, path) && path != "" && depth + |steps| <= maxDepth
    ensures path in PathsOf(node, Print(done), depth, maxDepth)
    decreases |steps|
  {
    if steps == [] {
      assert done + [] == done;
    } else {
      var child, i := LeadsNext(node, done, steps, path);
      WalkOffered(child, done + [steps[0]], steps[1..], path, depth + 1, maxDepth);
      if steps[0].Name? { EntryOffered(node.entries, |node.entries|, i, Print(done), depth, maxDepth); }
    }
  }

  /** What the completion list offers of a value is the prints of its walks to scalars: over
      names without a quote in them and first elements, so many steps deep, and no others. */
  lemma OfferedIffWalk(root: Json, path: string, maxDepth: nat)
    requires WellKeyed(root)
    ensures path in PathsOf(root, "", 0, maxDepth) <==>
            path != "" && exists steps :: |steps| <= maxDepth && Leads(root, [], steps, path)
  {
    if path in PathsOf(root, "", 0, maxDepth) {
      var steps := PathIsWalk(root, [], 0, maxDepth, path);
    }
    if path != "" && exists steps :: |steps| <= maxDepth && Leads(root, [], steps, path) {
      var steps :| |steps| <= maxDepth && Leads(root, [], steps, path);
      WalkOffered(root, [], steps, path, 0, maxDepth);
    }
  }

  lemma {:induction false} FirstOfAll(items: seq<Json>, n: nat, segs: seq<Segment>, c: Json)
    requires 0 < n <= |items| && c in ServerCandidates(items[0], segs)
    ensures c in ServerAll(items, n, segs)
  {
    if n > 1 { FirstOfAll(items, n - 1, segs, c); }
  }

  /** A walk followed as a path comes to the same node. */
  lemma {:induction false} DescentIsCandidate(node: Json, steps: seq<Segment>)
    requires Descend(node, steps).Some?
    ensures Descend(node, steps).value in ServerCandidates(node, steps)
    decreases |steps|
  {
    if steps != [] {
      match steps[0]
      case Name(n) => DescentIsCandidate(Lookup(node.entries, n).value, steps[1..]);
      case AnyElement =>
        DescentIsCandidate(node.items[0], steps[1..]);
        FirstOfAll(node.items, |node.items|, steps[1..], Descend(node, steps).value);
    }
  }

  predicate NoEmptyKey(a: Json)
    decreases a
  {
    match a
    case Arr(x) => forall i | 0 <= i < |x| :: NoEmptyKey(x[i])
    case Obj(x) => forall i | 0 <= i < |x| :: x[i].key != "" && NoEmptyKey(x[i].value)
    case _ => true
  }

  lemma {:induction false} WalkHasNames(node: Json, steps: seq<Segment>)
    requires NoEmptyKey(node) && Descend(node, steps).Some?
    ensures forall i | 0 <= i < |steps| :: steps[i] != Name("")
    decreases |steps|
  {
    if steps != [] {
      match steps[0]
      case Name(n) =>
        var v := Lookup(node.entries, n);
        var i :| 0 <= i < |node.entries| && node.entries[i].key == n && node.entries[i].value == v.value;
        WalkHasNames(v.value, steps[1..]);
      case AnyElement => WalkHasNames(node.items[0], steps[1..]);
      assert forall i | 1 <= i < |steps| :: steps[i] == steps[1..][i - 1];
    }
  }

  /** Every path offered is the print of a walk to a scalar, and reaches on the server
      what the legible part of that walk reaches; so it reaches the scalar itself when
      nothing of the walk is lost, which is exactly when tokenizing gives its steps back. */
  lemma OfferedPathLands(root: Json, path: string, maxDepth: nat) returns (steps: seq<Segment>, c: Json)
    requires WellKeyed(root) && path in PathsOf(root, "", 0, maxDepth)
    ensures Quotable(steps) && Print(steps) == path != "" && Descend(root, steps) == Some(c) && Scalar(c)
    ensures |steps| <= maxDepth
    ensures ServerCandidates(root, Tokens(path)) == ServerCandidates(root, Legible(steps))
    ensures Tokens(path) == steps <==> Exact(steps)
    ensures Exact(steps) ==> c in ServerCandidates(root, Tokens(path))
  {
    steps := PathIsWalk(root, [], 0, maxDepth, path);
    assert [] + steps == steps;
    c := Descend(root, steps).value;
    DescentIsCandidate(root, steps);
    PrintThenTokens(steps);
    RoundTrip(steps);
  }

  /** In particular every path offered reaches its scalar when no key is empty. */
  lemma OfferedPathReaches(root: Json, path: string, maxDepth: nat) returns (c: Json)
    requires WellKeyed(root) && NoEmptyKey(root) && path in PathsOf(root, "", 0, maxDepth)
    ensures Scalar(c) && c in ServerCandidates(root, Tokens(path))
  {
    var steps;
    steps, c := OfferedPathLands(root, path, maxDepth);
    WalkHasNames(root, steps);
    assert Print([]) == "";
    RoundTripOfNames(steps);
  }

  /** With an empty key at the root the path is printed as if it were not there. */
  lemma EmptyKeyMisleads()
    ensures var root := Obj([Entry("", Obj([Entry("a", Null)]))]);
      "a" in PathsOf(root, "", 0, MAX_DEPTH) && ServerCandidates(root, Tokens("a")) == []
  {
    var inner := [Entry("a", Null)];
    var es := [Entry("", Obj(inner))];
    assert Plain("a") && QuoteFree("a") && Extend("", Name("a")) == "a";
    assert PathsOf(Null, "a", 2, MAX_DEPTH) == {"a"};
    assert PathsOfFirst(inner, 0, "", 1, MAX_DEPTH) == {};
    assert PathsOf(Obj(inner), "", 1, MAX_DEPTH) == {"a"};
    assert Extend("", Name("")) == "";
    assert PathsOfFirst(es, 0, "", 0, MAX_DEPTH) == {};
    FeedPlain("a", START);
    assert START.current + "a" == "a";
    assert Tokens("a") == [Name("a")];
    assert Lookup(es, "a").None?;
  }
}
