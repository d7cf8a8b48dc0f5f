/**
 * Walking a JSON value along a path, on both sides. The server looks names up in the
 * object itself; the client's `in` also sees what every JavaScript object inherits.
 */
module PathWalk {
  import opened Rows
  import opened JsonEquality
  import opened PathTokens

  // ---- array indices ----------------------------------------------------------------

  predicate Digits(s: string) {
    s != "" && forall i | 0 <= i < |s| :: '0' <= s[i] <= '9'
  }

  function Decimal(s: string): nat
    requires forall i | 0 <= i < |s| :: '0' <= s[i] <= '9'
  {
    if s == "" then 0 else 10 * Decimal(s[..|s| - 1]) + (s[|s| - 1] as int - '0' as int)
  }

  /** Digits after at most one `+`. */
  function IndexText(name: string): Option<nat> {
    var t := if name != "" && name[0] == '+' then name[1..] else name;
    if Digits(t) then Some(Decimal(t)) else None
  }

  const MAX_USIZE: nat := 0xFFFF_FFFF_FFFF_FFFF

  /** The server's reading overflows past 64 bits, the client's does not. */
  function ServerIndex(name: string): Option<nat> {
    var v := IndexText(name);
    if v.Some? && v.value <= MAX_USIZE then v else None
  }

  /** A number in decimal. */
  function DecimalText(n: nat): string {
    (if n < 10 then "" else DecimalText(n / 10)) + [(n % 10 + '0' as int) as char]
  }

  lemma {:induction false} DecimalReads(n: nat)
    ensures Digits(DecimalText(n)) && Decimal(DecimalText(n)) == n
  {
    var front := if n < 10 then "" else DecimalText(n / 10);
    if 10 <= n { DecimalReads(n / 10); }
    assert DecimalText(n)[..|DecimalText(n)| - 1] == front;
    assert n == 10 * (n / 10) + n % 10;
  }

  /** An index typed in decimal is that index, with or without a `+`. */
  lemma IndexReads(n: nat)
    ensures IndexText(DecimalText(n)) == Some(n) && IndexText("+" + DecimalText(n)) == Some(n)
  {
    DecimalReads(n);
    assert ("+" + DecimalText(n))[1..] == DecimalText(n);
  }

  // ---- the server's walk ------------------------------------------------------------

  function Lookup(es: seq<Entry>, k: string): (v: Option<Json>)
    ensures v.Some? ==> exists i :: 0 <= i < |es| && es[i].key == k && es[i].value == v.value
    ensures v.None? ==> forall i | 0 <= i < |es| :: es[i].key != k
  {
    if es == [] then None else if es[0].key == k then Some(es[0].value) else Lookup(es[1..], k)
  }

  /** The one child a name leads to. */
  function ServerChild(node: Json, n: string): Option<Json> {
    match node
    case Obj(es) => Lookup(es, n)
    case Arr(items) => var i := ServerIndex(n); if i.Some? && i.value < |items| then Some(items[i.value]) else None
    case _ => None
  }

  function ServerCandidates(node: Json, segs: seq<Segment>): seq<Json>
    decreases |segs|, 0
  {
    if segs == [] then [node] else
    match segs[0]
    case Name(n) => var v := ServerChild(node, n); if v.Some? then ServerCandidates(v.value, segs[1..]) else []
    case AnyElement => if node.Arr? then ServerAll(node.items, |node.items|, segs[1..]) else []
  }

  function ServerAll(items: seq<Json>, n: nat, segs: seq<Segment>): seq<Json>
    requires n <= |items|
    decreases |segs|, 1, n
  {
    if n == 0 then [] else ServerAll(items, n - 1, segs) + ServerCandidates(items[n - 1], segs)
  }

  /** The recursive walk, pushing each node reached. */
  method ServerWalk(node: Json, segs: seq<Segment>, out: seq<Json>) returns (out': seq<Json>)
    ensures out' == out + ServerCandidates(node, segs)
    decreases |segs|
  {
    out' := out;
    if segs == [] {
      out' := out' + [node];
      return;
    }
    var rest := segs[1..];
    match segs[0] {
      case Name(n) =>
        var v := ServerChild(node, n);
        if v.Some? {
          out' := ServerWalk(v.value, rest, out');
        }
      case AnyElement =>
        if node.Arr? {
          for i := 0 to |node.items|
            invariant out' == out + ServerAll(node.items, i, rest)
          {
            out' := ServerWalk(node.items[i], rest, out');
          }
        }
    }
  }

  method PathCandidates(root: Json, path: string) returns (out: seq<Json>)
    ensures out == ServerCandidates(root, Tokens(path))
  {
    var segs := SplitPath(path);
    out := ServerWalk(root, segs, []);
  }

  // ---- the client's walk -------------------------------------------------------------

  /** What a property read can give: parsed JSON, the prototype every object shares, or
      one of the functions that prototype carries. */
  datatype JsValue = Own(json: Json) | ObjectPrototype | Builtin

  const PROTO := "__proto__"

  const INHERITED: set<string> := {
    "constructor", "hasOwnProperty", "isPrototypeOf", "propertyIsEnumerable", "toLocaleString", "toString", "valueOf",
    "__defineGetter__", "__defineSetter__", "__lookupGetter__", "__lookupSetter__"}

  /** `first in obj` and `obj[first]`. */
  function ClientChild(node: JsValue, n: string): Option<JsValue> {
    match node
    case Own(Obj(es)) =>
      var own := Lookup(es, n);
      if own.Some? then Some(Own(own.value))
      else if n == PROTO then Some(ObjectPrototype)
      else if n in INHERITED then Some(Builtin)
      else None
    case Own(Arr(items)) => var i := IndexText(n); if i.Some? &&
      i.value < |items| then Some(Own(items[i.value])) else None
    case Own(_) => None
    case ObjectPrototype => if n == PROTO then Some(Own(Null)) else if n in INHERITED then Some(Builtin) else None
    case Builtin => None
  }

  function ClientCandidates(node: JsValue, segs: seq<Segment>): seq<JsValue>
    decreases |segs|, 0
  {
    if segs == [] then [node] else
    match segs[0]
    case Name(n) => var v := ClientChild(node, n); if v.Some? then ClientCandidates(v.value, segs[1..]) else []
    case AnyElement => if node.Own? &&
      node.json.Arr? then ClientAll(node.json.items, |node.json.items|, segs[1..]) else []
  }

  function ClientAll(items: seq<Json>, n: nat, segs: seq<Segment>): seq<JsValue>
    requires n <= |items|
    decreases |segs|, 1, n
  {
    if n == 0 then [] else ClientAll(items, n - 1, segs) + ClientCandidates(Own(items[n - 1]), segs)
  }

  method ClientWalk(node: JsValue, segs: seq<Segment>, out: seq<JsValue>) returns (out': seq<JsValue>)
    ensures out' == out + ClientCandidates(node, segs)
    decreases |segs|
  {
    out' := out;
    if segs == [] {
      out' := out' + [node];
      return;
    }
    var first, rest := segs[0], segs[1..];
    if first == AnyElement {
      if node.Own? && node.json.Arr? {
        var items := node.json.items;
        for i := 0 to |items|
          invariant out' == out + ClientAll(items, i, rest)
        {
          out' := ClientWalk(Own(items[i]), rest, out');
        }
      }
      return;
    }
    var v := ClientChild(node, first.name);
    if v.Some? {
      out' := ClientWalk(v.value, rest, out');
    }
  }

  // ---- what a path test sees ------------------------------------------------------------

  /** A test on what a path reaches, false of everything but scalars. */
  ghost predicate OnScalars(test: Json -> bool) {
    forall j: Json :: (j.Arr? || j.Obj?) ==> !test(j)
  }

  predicate SomeServer(cs: seq<Json>, test: Json -> bool) {
    exists i | 0 <= i < |cs| :: test(cs[i])
  }

  predicate Passes(v: JsValue, test: Json -> bool) {
    v.Own? && test(v.json)
  }

  predicate SomeClient(cs: seq<JsValue>, test: Json -> bool) {
    exists i | 0 <= i < |cs| :: Passes(cs[i], test)
  }

  lemma SomeServerAppend(a: seq<Json>, b: seq<Json>, test: Json -> bool)
    ensures SomeServer(a + b, test) <==> SomeServer(a, test) || SomeServer(b, test)
  {
    if SomeServer(a, test) {
      var i :| 0 <= i < |a| && test(a[i]);
      assert test((a + b)[i]);
    }
    if SomeServer(b, test) {
      var i :| 0 <= i < |b| && test(b[i]);
      assert test((a + b)[|a| + i]);
    }
  }

  lemma SomeClientAppend(a: seq<JsValue>, b: seq<JsValue>, test: Json -> bool)
    ensures SomeClient(a + b, test) <==> SomeClient(a, test) || SomeClient(b, test)
  {
    if SomeClient(a, test) {
      var i :| 0 <= i < |a| && Passes(a[i], test);
      assert Passes((a + b)[i], test);
    }
    if SomeClient(b, test) {
      var i :| 0 <= i < |b| && Passes(b[i], test);
      assert Passes((a + b)[|a| + i], test);
    }
  }

  // ---- where the walks part -----------------------------------------------------------

  const TWICE := [Name(PROTO), Name(PROTO)]

  /** Some object on the way has no `__proto__` of its own just where the path goes on
      with `__proto__.__proto__` and ends: the client reads a null that is not there. */
  predicate Phantom(node: Json, segs: seq<Segment>)
    decreases |segs|
  {
    if segs == [] then false else
    match (segs[0], node)
    case (Name(n), Obj(es)) =>
      var v := Lookup(es, n);
      if v.Some? then Phantom(v.value, segs[1..]) else segs == TWICE
    case (Name(n), Arr(items)) =>
      var i := IndexText(n);
      i.Some? && i.value < |items| && Phantom(items[i.value], segs[1..])
    case (AnyElement, Arr(items)) => exists i | 0 <= i < |items| :: Phantom(items[i], segs[1..])
    case (_, _) => false
  }

  /** No array longer than an index can say. */
  predicate Indexable(a: Json)
    decreases a
  {
    match a
    case Arr(x) => |x| <= MAX_USIZE && forall i | 0 <= i < |x| :: Indexable(x[i])
    case Obj(x) => forall i | 0 <= i < |x| :: Indexable(x[i].value)
    case _ => true
  }

  lemma InheritedOnly(segs: seq<Segment>, test: Json -> bool)
    ensures SomeClient(ClientCandidates(Builtin, segs), test) <==> false
    ensures SomeClient(ClientCandidates(Own(Null), segs), test) <==> segs == [] && test(Null)
  {
    if segs == [] { assert Passes([Own(Null)][0], test) == test(Null); }
  }

  lemma PrototypeOnly(segs: seq<Segment>, test: Json -> bool)
    ensures SomeClient(ClientCandidates(ObjectPrototype, segs), test) <==> segs == [Name(PROTO)] && test(Null)
  {
    if segs != [] {
      InheritedOnly(segs[1..], test);
      if segs[0] == Name(PROTO) { assert segs[1..] == [] <==> segs == [Name(PROTO)]; }
    }
  }

  predicate AlikeChild(v: Option<Json>, w: Option<Json>) {
    if v.Some? then w.Some? && SameJson(v.value, w.value) && Indexable(v.value) else w.None?
  }

  function ElementAt(items: seq<Json>, n: string): Option<Json> {
    var i := IndexText(n);
    if i.Some? && i.value < |items| then Some(items[i.value]) else None
  }

  /** An own name leads both sides to the same child. */
  lemma SameChild(a: Json, b: Json, n: string)
    requires SameJson(a, b) && Indexable(a)
    ensures a.Obj? ==> b.Obj? && AlikeChild(Lookup(a.entries, n), ServerChild(b, n))
    ensures a.Arr? ==> AlikeChild(ElementAt(a.items, n), ServerChild(b, n))
    ensures !a.Obj? && !a.Arr? ==> ServerChild(b, n).None?
  {
    if a.Obj? {
      var x, y := a.entries, b.entries;
      var v, w := Lookup(x, n), Lookup(y, n);
      if v.Some? {
        var i :| 0 <= i < |x| && x[i].key == n && x[i].value == v.value;
        assert SameEntryIn(x[i], y);
      }
      if w.Some? {
        var j :| 0 <= j < |y| && y[j].key == n && y[j].value == w.value;
        var i := SameEntry(x, y, j);
      }
    }
  }

  lemma TwiceTail(segs: seq<Segment>)
    requires segs != [] && segs[0] == Name(PROTO)
    ensures segs[1..] == [Name(PROTO)] <==> segs == TWICE
  {
    if segs[1..] == [Name(PROTO)] { assert segs == [segs[0]] + segs[1..]; }
  }

  /** The two walks agree on every path test but for that one phantom. */
  lemma {:induction false} WalksAgree(a: Json, b: Json, segs: seq<Segment>, test: Json -> bool)
    requires SameJson(a, b) && Indexable(a) && OnScalars(test)
    ensures SomeClient(ClientCandidates(Own(a), segs), test) <==>
            SomeServer(ServerCandidates(b, segs), test) || (Phantom(a, segs) && test(Null))
    decreases |segs|, 0
  {
    if segs == [] {
      assert Passes([Own(a)][0], test) == test(a) && test([b][0]) == test(b);
      assert a == b || (!test(a) && !test(b));
    } else {
      match segs[0]
      case Name(n) =>
        SameChild(a, b, n);
        match a {
          case Obj(es) =>
            var v := Lookup(es, n);
            if v.Some? {
              WalksAgree(v.value, ServerChild(b, n).value, segs[1..], test);
            } else {
              PrototypeOnly(segs[1..], test);
              InheritedOnly(segs[1..], test);
              if n == PROTO { TwiceTail(segs); }
            }
          case Arr(items) =>
            var i := IndexText(n);
            if i.Some? && i.value < |items| { WalksAgree(items[i.value], ServerChild(b, n).value, segs[1..], test); }
          case _ =>
        }
      case AnyElement =>
        if a.Arr? { ElementsAgree(a.items, b.items, |a.items|, segs[1..], test); }
    }
  }

  lemma {:induction false} ElementsAgree(x: seq<Json>, y: seq<Json>, n: nat, segs: seq<Segment>, test: Json -> bool)
    requires n <= |x| == |y| && OnScalars(test) && forall i | 0 <= i < |x| :: SameJson(x[i], y[i]) && Indexable(x[i])
    ensures SomeClient(ClientAll(x, n, segs), test) <==>
            SomeServer(ServerAll(y, n, segs), test) || (SomePhantom(x, n, segs) && test(Null))
    decreases |segs|, 1, n
  {
    if n > 0 {
      ElementsAgree(x, y, n - 1, segs, test);
      WalksAgree(x[n - 1], y[n - 1], segs, test);
      OnePhantomMore(x, n, segs);
      PiecesAgree(ClientAll(x, n - 1, segs), ClientCandidates(Own(x[n - 1]), segs),
                  ServerAll(y, n - 1, segs), ServerCandidates(y[n - 1], segs), test,
                  SomePhantom(x, n - 1, segs), Phantom(x[n - 1], segs));
    }
  }

  lemma PiecesAgree(a: seq<JsValue>, b: seq<JsValue>, c: seq<Json>, d: seq<Json>, test: Json -> bool, p: bool, q: bool)
    requires SomeClient(a, test) <==> SomeServer(c, test) || (p && test(Null))
    requires SomeClient(b, test) <==> SomeServer(d, test) || (q && test(Null))
    ensures SomeClient(a + b, test) <==> SomeServer(c + d, test) || ((p || q) && test(Null))
  {
    SomeClientAppend(a, b, test);
    SomeServerAppend(c, d, test);
  }

  predicate SomePhantom(x: seq<Json>, n: nat, segs: seq<Segment>)
    requires n <= |x|
  {
    exists i | 0 <= i < n :: Phantom(x[i], segs)
  }

  lemma OnePhantomMore(x: seq<Json>, n: nat, segs: seq<Segment>)
    requires 0 < n <= |x|
    ensures SomePhantom(x, n, segs) <==> SomePhantom(x, n - 1, segs) || Phantom(x[n - 1], segs)
  {}

  /** Only a path that ends in `__proto__.__proto__` can have one. */
  lemma {:induction false} PhantomEnds(node: Json, segs: seq<Segment>)
    requires Phantom(node, segs)
    ensures |segs| >= 2 && segs[|segs| - 2..] == TWICE
    decreases |segs|
  {
    match (segs[0], node)
    case (Name(n), Obj(es)) =>
      var v := Lookup(es, n);
      if v.Some? { PhantomEnds(v.value, segs[1..]); } else { assert segs[0..] == segs; }
    case (Name(n), Arr(items)) => PhantomEnds(items[IndexText(n).value], segs[1..]);
    case (AnyElement, Arr(items)) =>
      var i :| 0 <= i < |items| && Phantom(items[i], segs[1..]);
      PhantomEnds(items[i], segs[1..]);
    case (_, _) =>
  }
}
