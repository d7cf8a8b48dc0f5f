/**
 * The order a chunk's matches are shown in: offset order inside a partition always,
 * timestamps across partitions.
 */
module DisplayOrder {
  import opened Rows
  import opened Doubles
  import opened MergeOrder
  import opened PageWindows
  import opened PollScan
  import opened OffsetOrder
  import opened ChunkMerge
  import StoreSteps
  import WindowState

  /** Each partition's matches, nearest to the position first. */
  function Grouped(matches: seq<Row>, direction: Direction): (m: Streams)
    ensures forall p :: At(m, p) == Facing(direction, SortByOffset(Lane(matches, p)))
  {
    GroupedAll(matches, direction);
    map p | p in Partitions(matches) :: Facing(direction, SortByOffset(Lane(matches, p)))
  }

  lemma GroupedAll(matches: seq<Row>, direction: Direction)
    ensures forall p | (forall r | r in matches :: r.partition != p) ::
      Facing(direction, SortByOffset(Lane(matches, p))) == []
  {
    forall p | forall r | r in matches :: r.partition != p ensures Lane(matches, p) == [] {
      LaneMembers(matches, p);
      Occupied(Lane(matches, p));
    }
  }

  lemma Occupied(s: seq<Row>)
    ensures s == [] || exists r :: r in s
  {
    if s != [] { assert s[0] in s; }
  }

  lemma SortedOwn(s: seq<Row>, p: int)
    requires AllOf(s, p)
    ensures AllOf(SortByOffset(s), p)
  {
    SortKeeps(s);
    forall i | 0 <= i < |SortByOffset(s)| ensures SortByOffset(s)[i].partition == p {
      assert SortByOffset(s)[i] in multiset(SortByOffset(s));
      assert SortByOffset(s)[i] in s;
    }
  }

  lemma GroupedLabelled(matches: seq<Row>, direction: Direction)
    ensures Labelled(Grouped(matches, direction))
  {
    var m := Grouped(matches, direction);
    forall p | p in m ensures AllOf(m[p], p) {
      assert At(m, p) == Facing(direction, SortByOffset(Lane(matches, p)));
      LaneMembers(matches, p);
      SortedOwn(Lane(matches, p), p);
    }
  }

  /** The merge of a sequence's own groups. */
  ghost function Arranged(o: Order, s: seq<Row>): seq<Row> {
    GroupedLabelled(s, o.direction);
    Merge(o, Grouped(s, o.direction))
  }

  /** The display order, stated as a merge. */
  ghost function Displayed(matches: seq<Row>, direction: Direction): seq<Row> {
    Arranged(Order(Server, direction), matches)
  }

  // ---- the popping loop ---------------------------------------------------------

  /** Stacks are popped from their end; read from there they are outward streams. */
  function Outwards(stacks: seq<seq<Row>>): seq<seq<Row>> {
    seq(|stacks|, i requires 0 <= i < |stacks| => Reverse(stacks[i]))
  }

  predicate Stacked(keys: seq<int>, stacks: seq<seq<Row>>) {
    && |stacks| == |keys| && (forall i, j | 0 <= i < j < |keys| :: keys[i] < keys[j])
    && forall i | 0 <= i < |keys| :: AllOf(stacks[i], keys[i])
  }

  method PickHead(keys: seq<int>, stacks: seq<seq<Row>>, direction: Direction) returns (best: Option<nat>)
    requires Stacked(keys, stacks)
    ensures best.None? ==> forall i | 0 <= i < |stacks| :: stacks[i] == []
    ensures best.Some? ==> best.value < |stacks| && stacks[best.value] != []
    ensures best.Some? ==> BestOf(Order(Server, direction), Outwards(stacks), best.value, |stacks|)
  {
    best := None;
    var i := 0;
    while i < |stacks|
      invariant 0 <= i <= |stacks|
      invariant best.None? ==> forall j | 0 <= j < i :: stacks[j] == []
      invariant best.Some? ==> best.value < i && stacks[best.value] != []
      invariant best.Some? ==> BestOf(Order(Server, direction), Outwards(stacks), best.value, i)
    {
      var s := stacks[i];
      if s != [] {
        var ts := ServerStamp(s[|s| - 1].stamp);
        var better := true;
        if best.Some? {
          var t := stacks[best.value];
          var bestTs := ServerStamp(t[|t| - 1].stamp);
          better := if direction.Back? then ts > bestTs else ts < bestTs;
          assert s[|s| - 1].partition == keys[i] && t[|t| - 1].partition == keys[best.value];
          assert Outwards(stacks)[i][0] == s[|s| - 1] && Outwards(stacks)[best.value][0] == t[|t| - 1];
        }
        if better {
          best := Some(i);
        }
      }
      i := i + 1;
    }
  }

  /** Partitions as the windows the merge machinery is stated for. */
  function AsWindows(keys: seq<int>): seq<PartitionRange> {
    seq(|keys|, i requires 0 <= i < |keys| => PartitionRange(keys[i], 0, 0))
  }

  lemma PopStack(stacks: seq<seq<Row>>, i: nat)
    requires i < |stacks| && stacks[i] != []
    ensures var s := stacks[i];
      Outwards(stacks)[i][0] == s[|s| - 1] &&
      Outwards(stacks[i := s[..|s| - 1]]) == Outwards(stacks)[i := Outwards(stacks)[i][1..]]
  {
    var s, next := stacks[i], stacks[i := stacks[i][..|stacks[i]| - 1]];
    assert Reverse(s)[1..] == Reverse(s[..|s| - 1]);
    forall j | 0 <= j < |stacks| ensures Outwards(next)[j] == Outwards(stacks)[i := Outwards(stacks)[i][1..]][j] {}
  }

  method PopAll(keys: seq<int>, start: seq<seq<Row>>, direction: Direction)
    returns (out: seq<Row>, ghost left: seq<seq<Row>>)
    requires Stacked(keys, start)
    ensures Walked(Order(Server, direction), Outwards(start), out, left)
    ensures |left| == |start| && forall i :: !Nonempty(left, i)
  {
    var stacks := start;
    out := [];
    while true
      invariant Stacked(keys, stacks)
      invariant Walked(Order(Server, direction), Outwards(start), out, Outwards(stacks))
      decreases Weight(stacks)
    {
      var best := PickHead(keys, stacks, direction);
      if best.None? { break; }
      var i := best.value;
      var s := stacks[i];
      PopStack(stacks, i);
      WalkedNext(Order(Server, direction), Outwards(start), out, Outwards(stacks), i, s[|s| - 1],
          Outwards(stacks[i := s[..|s| - 1]]));
      ShorterStack(stacks, i);
      out := out + [s[|s| - 1]];
      stacks := stacks[i := s[..|s| - 1]];
    }
    left := Outwards(stacks);
  }

  lemma {:induction false} ShorterStack(stacks: seq<seq<Row>>, i: nat)
    requires i < |stacks| && stacks[i] != []
    ensures Weight(stacks[i := stacks[i][..|stacks[i]| - 1]]) < Weight(stacks)
  {
    var next := stacks[i := stacks[i][..|stacks[i]| - 1]];
    if i > 0 {
      ShorterStack(stacks[1..], i - 1);
      assert next[1..] == stacks[1..][i - 1 := stacks[i][..|stacks[i]| - 1]];
    } else {
      assert next[1..] == stacks[1..];
    }
  }

  /** One partition's matches on a stack: highest offset on top going back, lowest going forward. */
  function Stack(group: seq<Row>, direction: Direction): seq<Row> {
    var v := SortByOffset(group);
    if direction.Forward? then Reverse(v) else v
  }

  lemma StackFaces(group: seq<Row>, direction: Direction)
    ensures Reverse(Stack(group, direction)) == Facing(direction, SortByOffset(group))
  {
    var v := SortByOffset(group);
    assert Reverse(Reverse(v)) == v;
  }

  lemma {:induction false} KeyIndex(keys: seq<int>, p: int)
    ensures IndexOf(AsWindows(keys), p).None? ==> p !in keys
    ensures IndexOf(AsWindows(keys), p).Some? ==>
      IndexOf(AsWindows(keys), p).value < |keys| && keys[IndexOf(AsWindows(keys), p).value] == p
  {
    var i := IndexOf(AsWindows(keys), p);
    if i.None? {
      forall j | 0 <= j < |keys| ensures keys[j] != p { assert AsWindows(keys)[j].partition != p; }
    }
  }

  /** Every match's partition is among the keys. */
  ghost predicate Keyed(keys: seq<int>, matches: seq<Row>) {
    forall p :: p in keys || Lane(matches, p) == []
  }

  lemma StackedMerge(keys: seq<int>, stacks: seq<seq<Row>>, matches: seq<Row>, direction: Direction, out: seq<Row>,
                     left: seq<seq<Row>>)
    requires Stacked(keys, stacks) && Keyed(keys, matches)
    requires forall i | 0 <= i < |keys| :: stacks[i] == Stack(Lane(matches, keys[i]), direction)
    requires Walked(Order(Server, direction), Outwards(stacks), out, left)
    requires |left| == |stacks| && forall i :: !Nonempty(left, i)
    ensures out == Displayed(matches, direction)
  {
    var o, ws := Order(Server, direction), AsWindows(keys);
    StacksParallel(keys, stacks);
    WalkedMerges(o, ws, Outwards(stacks), out, left);
    NoneLeft(o, ws, left);
    GroupedLabelled(matches, direction);
    forall p ensures At(Gather(ws, Outwards(stacks)), p) == At(Grouped(matches, direction), p) {
      StackAt(keys, stacks, matches, direction, p);
    }
    MergeExtensional(o, Gather(ws, Outwards(stacks)), Grouped(matches, direction));
  }

  lemma StacksParallel(keys: seq<int>, stacks: seq<seq<Row>>)
    requires Stacked(keys, stacks)
    ensures DistinctRanges(AsWindows(keys)) && Parallel(AsWindows(keys), Outwards(stacks))
  {
    forall i | 0 <= i < |keys| ensures AllOf(Outwards(stacks)[i], AsWindows(keys)[i].partition) {
      assert AllOf(stacks[i], keys[i]);
    }
  }

  lemma StackAt(keys: seq<int>, stacks: seq<seq<Row>>, matches: seq<Row>, direction: Direction, p: int)
    requires |stacks| == |keys| && Keyed(keys, matches)
    requires forall i | 0 <= i < |keys| :: stacks[i] == Stack(Lane(matches, keys[i]), direction)
    ensures StreamAt(AsWindows(keys), Outwards(stacks), p) == Facing(direction, SortByOffset(Lane(matches, p)))
  {
    KeyIndex(keys, p);
    assert p in keys || Lane(matches, p) == [];
    var i := IndexOf(AsWindows(keys), p);
    if i.Some? { StackFaces(Lane(matches, p), direction); }
  }

  method ChunkDisplayOrder(matches: seq<Row>, direction: Direction) returns (out: seq<Row>)
    ensures out == Displayed(matches, direction)
  {
    var groups := GroupByPartition(matches);
    var keys := StoreSteps.SortedKeys(groups);
    var stacks := [];
    var i := 0;
    while i < |keys|
      invariant 0 <= i <= |keys| && |stacks| == i
      invariant forall j | 0 <= j < i :: stacks[j] == Stack(Lane(matches, keys[j]), direction)
    {
      var group := At(groups, keys[i]);
      assert group == Lane(matches, keys[i]);
      stacks := stacks + [Stack(group, direction)];
      i := i + 1;
    }
    ghost var left;
    KeysCover(matches, groups, keys);
    StacksOwn(matches, keys, stacks, direction);
    out, left := PopAll(keys, stacks, direction);
    StackedMerge(keys, stacks, matches, direction, out, left);
  }

  lemma KeysCover(matches: seq<Row>, groups: Streams, keys: seq<int>)
    requires (forall p :: At(groups, p) == Lane(matches, p)) && forall p :: p in keys <==> p in groups
    ensures Keyed(keys, matches)
  {
    forall p ensures p in keys || Lane(matches, p) == [] { assert At(groups, p) == Lane(matches, p); }
  }

  lemma StacksOwn(matches: seq<Row>, keys: seq<int>, stacks: seq<seq<Row>>, direction: Direction)
    requires |stacks| == |keys| && forall i, j | 0 <= i < j < |keys| :: keys[i] < keys[j]
    requires forall j | 0 <= j < |keys| :: stacks[j] == Stack(Lane(matches, keys[j]), direction)
    ensures Stacked(keys, stacks)
  {
    forall j | 0 <= j < |keys| ensures AllOf(stacks[j], keys[j]) {
      LaneMembers(matches, keys[j]);
      SortedOwn(Lane(matches, keys[j]), keys[j]);
    }
  }

  // ---- what the order keeps ------------------------------------------------------

  lemma {:induction false} CountInLane(s: seq<Row>, r: Row)
    ensures multiset(Lane(s, r.partition))[r] == multiset(s)[r]
  {
    if s != [] {
      CountInLane(s[1..], r);
      assert s == [s[0]] + s[1..];
      assert Lane(s, r.partition) == (if s[0].partition == r.partition then [s[0]] else []) + Lane(s[1..], r.partition);
    }
  }

  lemma {:induction false} ReverseKeeps(s: seq<Row>)
    ensures multiset(Reverse(s)) == multiset(s)
  {
    if s != [] {
      ReverseKeeps(s[1..]);
      assert Reverse(s) == Reverse(s[1..]) + [s[0]];
      assert s == [s[0]] + s[1..];
    }
  }

  /** Inside a partition the matches come out by offset, whatever their timestamps. */
  lemma DisplayLanes(matches: seq<Row>, direction: Direction, p: int)
    ensures Lane(Displayed(matches, direction), p) == Facing(direction, SortByOffset(Lane(matches, p)))
  {
    GroupedLabelled(matches, direction);
    MergeKeepsLanes(Order(Server, direction), Grouped(matches, direction), p);
    assert At(Grouped(matches, direction), p) == Facing(direction, SortByOffset(Lane(matches, p)));
  }

  /** Nothing is lost, added or repeated. */
  lemma DisplayPermutes(matches: seq<Row>, direction: Direction)
    ensures multiset(Displayed(matches, direction)) == multiset(matches)
  {
    var out := Displayed(matches, direction);
    forall r ensures multiset(out)[r] == multiset(matches)[r] {
      var lane := Lane(matches, r.partition);
      DisplayLanes(matches, direction, r.partition);
      SortKeeps(lane);
      ReverseKeeps(SortByOffset(lane));
      CountInLane(out, r);
      CountInLane(matches, r);
    }
  }

  /** Every stream walks strictly outward. */
  ghost predicate AllOutward(m: Streams, direction: Direction) {
    forall p :: Outward(direction, At(m, p))
  }

  lemma OutwardPrefix(direction: Direction, s: seq<Row>, k: nat)
    requires Outward(direction, s) && k <= |s|
    ensures Outward(direction, s[..k])
  {}

  /** Without a filter the order records were popped in is already the display order. */
  lemma UnfilteredKeepsPopOrder(m: Streams, direction: Direction, k: nat)
    requires Labelled(m) && AllOutward(m, direction) && k <= |Merge(Order(Server, direction), m)|
    ensures Displayed(Merge(Order(Server, direction), m)[..k], direction) == Merge(Order(Server, direction), m)[..k]
  {
    var o := Order(Server, direction);
    var popped := Merge(o, m)[..k];
    GroupedLabelled(popped, direction);
    forall p
      ensures Share(popped, p) <= |At(m, p)| && At(Grouped(popped, direction), p) == At(m, p)[..Share(popped, p)]
    {
      ShareBound(o, m, k, p);
      assert Outward(direction, At(m, p));
      OutwardPrefix(direction, At(m, p), Share(popped, p));
      SortThenFace(direction, Lane(popped, p));
    }
    MergeOfTaken(o, m, k, Grouped(popped, direction));
  }

  // ---- filtered chunks ------------------------------------------------------------

  /** The first record of `s` goes before the next one of every other partition. */
  ghost predicate FirstLeads(o: Order, s: seq<Row>)
    requires s != []
  {
    forall q :: FirstAhead(o, s, q)
  }

  predicate FirstAhead(o: Order, s: seq<Row>, q: int)
    requires s != []
  {
    q == s[0].partition || Lane(s, q) == [] || Ahead(o, s[0], Lane(s, q)[0])
  }

  ghost predicate InTurn(o: Order, s: seq<Row>) {
    s == [] || (FirstLeads(o, s) && InTurn(o, s[1..]))
  }

  ghost predicate LanesOutward(s: seq<Row>, direction: Direction) {
    forall p :: Outward(direction, Lane(s, p))
  }

  lemma GroupedIsLane(s: seq<Row>, direction: Direction, p: int)
    requires LanesOutward(s, direction)
    ensures At(Grouped(s, direction), p) == Lane(s, p)
  {
    assert Outward(direction, Lane(s, p));
    SortThenFace(direction, Lane(s, p));
  }

  lemma RestOutward(s: seq<Row>, direction: Direction)
    requires s != [] && LanesOutward(s, direction)
    ensures LanesOutward(s[1..], direction)
  {
    forall p ensures Outward(direction, Lane(s[1..], p)) {
      assert Outward(direction, Lane(s, p));
      assert Lane(s, p) == (if s[0].partition == p then [s[0]] else []) + Lane(s[1..], p);
      if s[0].partition == p {
        assert Lane(s, p)[1..] == Lane(s[1..], p);
      } else {
        assert Lane(s, p) == Lane(s[1..], p);
      }
    }
  }

  lemma FirstIsHead(s: seq<Row>, direction: Direction)
    requires s != [] && LanesOutward(s, direction)
    ensures var m, p := Grouped(s, direction), s[0].partition; p in m && m[p] != [] && m[p][0] == s[0]
  {
    GroupedIsLane(s, direction, s[0].partition);
    assert Lane(s, s[0].partition)[0] == s[0];
  }

  lemma LeadsThenFirst(o: Order, s: seq<Row>, q: int)
    requires s != [] && LanesOutward(s, o.direction) && Leads(o, Grouped(s, o.direction), s[0].partition)
    ensures FirstAhead(o, s, q)
  {
    FirstIsHead(s, o.direction);
    GroupedIsLane(s, o.direction, q);
  }

  lemma FirstThenLeads(o: Order, s: seq<Row>)
    requires s != [] && LanesOutward(s, o.direction) && FirstLeads(o, s)
    ensures Leads(o, Grouped(s, o.direction), s[0].partition)
  {
    var m, p := Grouped(s, o.direction), s[0].partition;
    FirstIsHead(s, o.direction);
    forall q | q in m && m[q] != [] && q != p ensures Ahead(o, m[p][0], m[q][0]) {
      GroupedIsLane(s, o.direction, q);
      assert FirstAhead(o, s, q);
    }
  }

  lemma PoppedGroups(s: seq<Row>, direction: Direction, q: int)
    requires s != [] && LanesOutward(s, direction) && LanesOutward(s[1..], direction)
    requires s[0].partition in Grouped(s, direction) && Grouped(s, direction)[s[0].partition] != []
    ensures At(Pop(Grouped(s, direction), s[0].partition), q) == At(Grouped(s[1..], direction), q)
  {
    GroupedIsLane(s, direction, q);
    GroupedIsLane(s[1..], direction, q);
    GroupedIsLane(s, direction, s[0].partition);
    assert Lane(s, q) == (if s[0].partition == q then [s[0]] else []) + Lane(s[1..], q);
  }

  lemma ArrangedStep(o: Order, s: seq<Row>)
    requires s != [] && LanesOutward(s, o.direction) && LanesOutward(s[1..], o.direction) && FirstLeads(o, s)
    ensures Arranged(o, s) == [s[0]] + Arranged(o, s[1..])
  {
    var m, p := Grouped(s, o.direction), s[0].partition;
    FirstIsHead(s, o.direction);
    FirstThenLeads(o, s);
    GroupedLabelled(s, o.direction);
    GroupedLabelled(s[1..], o.direction);
    MergeStep(o, m, p);
    forall q ensures At(Pop(m, p), q) == At(Grouped(s[1..], o.direction), q) { PoppedGroups(s, o.direction, q); }
    MergeExtensional(o, Pop(m, p), Grouped(s[1..], o.direction));
  }

  /** Nobody else can come first. */
  lemma ArrangedFirst(o: Order, s: seq<Row>)
    requires s != [] && LanesOutward(s, o.direction) && Arranged(o, s) == s
    ensures FirstLeads(o, s)
  {
    var m := Grouped(s, o.direction);
    FirstIsHead(s, o.direction);
    GroupedLabelled(s, o.direction);
    var b := Best(o, m);
    assert Arranged(o, s)[0] == m[b][0];
    assert m[b][0].partition == b;
    forall q ensures FirstAhead(o, s, q) { LeadsThenFirst(o, s, q); }
  }

  /** On either side, a sequence merges to itself exactly when each record goes before
      the next one of every other partition. */
  lemma {:induction false} ArrangedInTurn(o: Order, s: seq<Row>)
    requires LanesOutward(s, o.direction)
    ensures Arranged(o, s) == s <==> InTurn(o, s)
  {
    if s == [] {
      GroupedLabelled(s, o.direction);
      assert Drained(Grouped(s, o.direction));
    } else {
      RestOutward(s, o.direction);
      ArrangedInTurn(o, s[1..]);
      if Arranged(o, s) == s { ArrangedFirst(o, s); }
      if FirstLeads(o, s) {
        ArrangedStep(o, s);
        Headed(Arranged(o, s), Arranged(o, s[1..]), s);
      }
    }
  }

  /** The matches of a filtered chunk are shown in the order they were popped exactly
      when each goes before the next match of every other partition. */
  lemma ShownAsPopped(s: seq<Row>, direction: Direction)
    requires LanesOutward(s, direction)
    ensures Displayed(s, direction) == s <==> InTurn(Order(Server, direction), s)
  {
    ArrangedInTurn(Order(Server, direction), s);
  }

  lemma Headed(d: seq<Row>, rest: seq<Row>, s: seq<Row>)
    requires s != [] && d == [s[0]] + rest
    ensures d == s <==> rest == s[1..]
  {
    assert s == [s[0]] + s[1..];
    assert d[1..] == rest;
  }

  const EARLY := Row(0, 0, Some(100), 0)
  const HIDDEN := Row(0, 1, Some(5), 0)
  const OTHER := Row(1, 0, Some(50), 0)

  lemma LaneOne(a: Row, p: int)
    ensures Lane([a], p) == if p == a.partition then [a] else []
  {}

  lemma LaneTwo(a: Row, b: Row, p: int)
    ensures Lane([a, b], p) == (if p == a.partition then [a] else []) + (if p == b.partition then [b] else [])
  {
    LaneOne(a, p);
    LaneLast([a], b, p);
    assert [a] + [b] == [a, b];
  }

  lemma LaneExample(p: int)
    ensures Lane([EARLY], p) == if p == 0 then [EARLY] else []
    ensures Lane([HIDDEN, EARLY], p) == if p == 0 then [HIDDEN, EARLY] else []
    ensures Lane([OTHER, EARLY], p) == if p == 0 then [EARLY] else if p == 1 then [OTHER] else []
    ensures Lane([OTHER, HIDDEN, EARLY], p) == if p == 0 then [HIDDEN, EARLY] else if p == 1 then [OTHER] else []
  {
    LaneOne(EARLY, p);
    LaneTwo(HIDDEN, EARLY, p);
    LaneTwo(OTHER, EARLY, p);
    LaneTwo(OTHER, HIDDEN, p);
    LaneLast([OTHER, HIDDEN], EARLY, p);
    assert [OTHER, HIDDEN] + [EARLY] == [OTHER, HIDDEN, EARLY];
  }

  lemma AllInTurn()
    ensures InTurn(Order(Server, Back), [OTHER, HIDDEN, EARLY])
  {
    var o, all := Order(Server, Back), [OTHER, HIDDEN, EARLY];
    assert all[1..] == [HIDDEN, EARLY] && all[1..][1..] == [EARLY] && all[1..][1..][1..] == [];
    forall q ensures FirstAhead(o, all, q) { LaneExample(q); }
    forall q ensures FirstAhead(o, [HIDDEN, EARLY], q) { LaneExample(q); }
    forall q ensures FirstAhead(o, [EARLY], q) { LaneExample(q); }
    assert InTurn(o, [EARLY]);
    assert InTurn(o, [HIDDEN, EARLY]);
  }

  lemma KeptOutOfTurn()
    ensures !InTurn(Order(Server, Back), [OTHER, EARLY])
  {
    LaneExample(0);
    assert !FirstAhead(Order(Server, Back), [OTHER, EARLY], 0);
  }

  lemma HidingOne(keep: Row -> bool)
    requires keep(OTHER) && !keep(HIDDEN) && keep(EARLY)
    ensures Matching(keep, [OTHER, HIDDEN, EARLY]) == [OTHER, EARLY]
  {
    TakeNext(keep, [], OTHER, 0, 0, 0);
    TakeNext(keep, [OTHER], HIDDEN, 0, 0, 0);
    TakeNext(keep, [OTHER, HIDDEN], EARLY, 0, 0, 0);
    assert [] + [OTHER] == [OTHER] && [OTHER] + [HIDDEN] == [OTHER, HIDDEN] &&
      [OTHER, HIDDEN] + [EARLY] == [OTHER, HIDDEN, EARLY];
  }

  lemma ExampleOutward(p: int)
    ensures Outward(Back, Lane([OTHER, EARLY], p)) && Outward(Back, Lane([OTHER, HIDDEN, EARLY], p))
  {
    LaneExample(p);
    if p == 0 {
      ShortOutward([EARLY]);
      ShortOutward([HIDDEN, EARLY]);
    } else {
      ShortOutward([OTHER]);
      ShortOutward([]);
    }
  }

  lemma ExamplesOutward()
    ensures LanesOutward([OTHER, EARLY], Back) && LanesOutward([OTHER, HIDDEN, EARLY], Back)
  {
    forall p ensures Outward(Back, Lane([OTHER, EARLY], p)) && Outward(Back, Lane([OTHER, HIDDEN, EARLY], p)) {
      ExampleOutward(p);
    }
  }

  lemma ShortOutward(s: seq<Row>)
    requires |s| <= 1 || (|s| == 2 && s[1].offset < s[0].offset)
    ensures Outward(Back, s)
  {}

  /** Hiding a match's elder can bring it forward: with timestamps out of order in
      partition 0, a filter that hides offset 1 changes the order of the rest. */
  lemma FilteredCanReorder(keep: Row -> bool)
    requires keep(OTHER) && !keep(HIDDEN) && keep(EARLY)
    ensures Displayed([OTHER, HIDDEN, EARLY], Back) == [OTHER, HIDDEN, EARLY]
    ensures Matching(keep, [OTHER, HIDDEN, EARLY]) == [OTHER, EARLY]
    ensures Displayed([OTHER, EARLY], Back) != [OTHER, EARLY]
  {
    HidingOne(keep);
    AllInTurn();
    KeptOutOfTurn();
    ExamplesOutward();
    ShownAsPopped([OTHER, HIDDEN, EARLY], Back);
    ShownAsPopped([OTHER, EARLY], Back);
  }

  // ---- the server's order and the window's ------------------------------------------

  /** The two disagreements. A missing timestamp is the smallest there is to the window,
      but the same as the smallest 64-bit one to the server; and two stamps the server
      tells apart may be one double to the window. Either way the side that tells them
      apart puts the larger partition first. */
  predicate Confused(a: Row, b: Row) {
    a.partition < b.partition &&
    match (a.stamp, b.stamp)
    case (None, Some(y)) => y == MIN_I64
    case (Some(x), Some(y)) => x < y && AsDouble(x) == AsDouble(y)
    case (_, None) => false
  }

  predicate InI64(r: Row) {
    r.stamp.Some? ==> MIN_I64 <= r.stamp.value
  }

  lemma SidesAgree(a: Row, b: Row)
    requires InI64(a) && InI64(b) && a.partition != b.partition
    ensures Ahead(Order(Server, Back), a, b) == Ahead(Order(Client, Back), a, b) <==> !Confused(a, b) && !Confused(b, a)
  {
    if a.stamp.Some? && b.stamp.Some? {
      if a.stamp.value <= b.stamp.value { AsDoubleKeepsOrder(a.stamp.value, b.stamp.value); }
      if b.stamp.value <= a.stamp.value { AsDoubleKeepsOrder(b.stamp.value, a.stamp.value); }
    }
  }

  ghost predicate NoneConfused(m: Streams) {
    forall p, q, i, j | p in m && q in m && 0 <= i < |m[p]| && 0 <= j < |m[q]| ::
      InI64(m[p][i]) && !Confused(m[p][i], m[q][j])
  }

  lemma {:induction false} SidesMergeAlike(m: Streams)
    requires Labelled(m) && NoneConfused(m)
    ensures Merge(Order(Server, Back), m) == Merge(Order(Client, Back), m)
    decreases Size(m)
  {
    if !Drained(m) {
      var p := Best(Order(Server, Back), m);
      forall q | q in m && m[q] != [] && q != p ensures Ahead(Order(Client, Back), m[p][0], m[q][0]) {
        assert m[p][0].partition == p && m[q][0].partition == q;
        SidesAgree(m[p][0], m[q][0]);
      }
      MergeStep(Order(Client, Back), m, p);
      SizePop(m, p);
      NoneConfusedPop(m, p);
      SidesMergeAlike(Pop(m, p));
    }
  }

  lemma NoneConfusedPop(m: Streams, p: int)
    requires NoneConfused(m) && p in m && m[p] != []
    ensures NoneConfused(Pop(m, p))
  {
    var n := Pop(m, p);
    forall q, q', i, j | q in n && q' in n && 0 <= i < |n[q]| && 0 <= j < |n[q']|
      ensures InI64(n[q][i]) && !Confused(n[q][i], n[q'][j])
    {
      assert n[q][i] == m[q][if q == p then i + 1 else i];
      assert n[q'][j] == m[q'][if q' == p then j + 1 else j];
    }
  }

  /** Each record is confused with no next record of another partition. */
  ghost predicate NeverConfused(s: seq<Row>) {
    s == [] || ((forall q :: ClearOf(s, q)) && NeverConfused(s[1..]))
  }

  predicate ClearOf(s: seq<Row>, q: int)
    requires s != []
  {
    q == s[0].partition || Lane(s, q) == [] || (!Confused(s[0], Lane(s, q)[0]) && !Confused(Lane(s, q)[0], s[0]))
  }

  lemma TurnAgrees(s: seq<Row>, q: int)
    requires s != [] && (forall r | r in s :: InI64(r)) && FirstAhead(Order(Server, Back), s, q)
    ensures FirstAhead(Order(Client, Back), s, q) <==> ClearOf(s, q)
  {
    if q != s[0].partition && Lane(s, q) != [] {
      var r := Lane(s, q)[0];
      LaneMembers(s, q);
      assert r in Lane(s, q) && r.partition == q;
      SidesAgree(s[0], r);
    }
  }

  lemma {:induction false} TurnsAgree(s: seq<Row>)
    requires (forall r | r in s :: InI64(r)) && InTurn(Order(Server, Back), s)
    ensures InTurn(Order(Client, Back), s) <==> NeverConfused(s)
  {
    if s != [] {
      TurnsAgree(s[1..]);
      forall q ensures FirstAhead(Order(Client, Back), s, q) <==> ClearOf(s, q) {
        assert FirstAhead(Order(Server, Back), s, q);
        TurnAgrees(s, q);
      }
    }
  }

  /** The window holds exactly these records. */
  ghost predicate HeldAs(held: Streams, s: seq<Row>) {
    WindowState.WellFormed(held) && forall p :: At(held, p) == SortByOffset(Lane(s, p))
  }

  lemma HeldIsArranged(s: seq<Row>, held: Streams)
    requires HeldAs(held, s)
    ensures WindowState.Display(held) == Arranged(Order(Client, Back), s)
  {
    GroupedLabelled(s, Back);
    WindowState.NewestIsLabelled(held);
    forall p ensures At(Grouped(s, Back), p) == At(WindowState.Newest(held), p) {
      assert At(held, p) == SortByOffset(Lane(s, p));
    }
    MergeExtensional(Order(Client, Back), Grouped(s, Back), WindowState.Newest(held));
  }

  /** Records received newest first are merged back into the order they came in exactly
      when each goes, to the window, before the next one of every other partition. */
  lemma WindowShowsAsReceived(s: seq<Row>, held: Streams)
    requires LanesOutward(s, Back) && HeldAs(held, s)
    ensures WindowState.Display(held) == s <==> InTurn(Order(Client, Back), s)
  {
    HeldIsArranged(s, held);
    ArrangedInTurn(Order(Client, Back), s);
  }

  lemma TurnedBack(v: seq<Row>)
    requires Ascending(v)
    ensures Outward(Back, Reverse(v)) && SortByOffset(Reverse(v)) == v
  {
    ReverseTurns(v);
    SortReverses(Reverse(v));
    assert Reverse(Reverse(v)) == v;
  }

  lemma DisplayedLane(matches: seq<Row>, held: Streams, p: int)
    requires HeldAs(held, matches)
    ensures Outward(Back, Lane(Displayed(matches, Back), p))
    ensures At(held, p) == SortByOffset(Lane(Displayed(matches, Back), p))
  {
    DisplayLanes(matches, Back, p);
    var v := At(held, p);
    assert WindowState.LaneOk(held, p) && v == SortByOffset(Lane(matches, p));
    TurnedBack(v);
  }

  /** What is displayed has the lanes of what was matched, turned outward. */
  lemma DisplayedHeld(matches: seq<Row>, held: Streams)
    requires HeldAs(held, matches)
    ensures LanesOutward(Displayed(matches, Back), Back) && HeldAs(held, Displayed(matches, Back))
  {
    var shown := Displayed(matches, Back);
    forall p ensures Outward(Back, Lane(shown, p)) && At(held, p) == SortByOffset(Lane(shown, p)) {
      DisplayedLane(matches, held, p);
    }
  }

  /** Showing what is shown already changes nothing. */
  lemma DisplayedInTurn(matches: seq<Row>, held: Streams)
    requires HeldAs(held, matches)
    ensures InTurn(Order(Server, Back), Displayed(matches, Back))
  {
    var shown := Displayed(matches, Back);
    DisplayedHeld(matches, held);
    GroupedLabelled(matches, Back);
    GroupedLabelled(shown, Back);
    forall p ensures At(Grouped(matches, Back), p) == At(Grouped(shown, Back), p) {
      assert At(held, p) == SortByOffset(Lane(matches, p)) && At(held, p) == SortByOffset(Lane(shown, p));
    }
    MergeExtensional(Order(Server, Back), Grouped(matches, Back), Grouped(shown, Back));
    ShownAsPopped(shown, Back);
  }

  lemma DisplayedStamps(matches: seq<Row>)
    requires forall r | r in matches :: InI64(r)
    ensures forall r | r in Displayed(matches, Back) :: InI64(r)
  {
    DisplayPermutes(matches, Back);
    forall r | r in Displayed(matches, Back) ensures InI64(r) { assert r in multiset(matches); }
  }

  /** Going back, a chunk's matches are shown exactly as the window would merge them alone,
      if and only if none is confused with the next match of another partition. */
  lemma BackShowsAsWindow(matches: seq<Row>, held: Streams)
    requires HeldAs(held, matches) && forall r | r in matches :: InI64(r)
    ensures Displayed(matches, Back) == WindowState.Display(held) <==> NeverConfused(Displayed(matches, Back))
  {
    var shown := Displayed(matches, Back);
    DisplayedHeld(matches, held);
    DisplayedInTurn(matches, held);
    DisplayedStamps(matches);
    WindowShowsAsReceived(shown, held);
    TurnsAgree(shown);
  }

  /** Stamps that are doubles of their own, or missing, confuse nobody. */
  predicate Usual(r: Row) {
    r.stamp.Some? ==> -EXACT <= r.stamp.value <= EXACT
  }

  lemma UsualNotConfused(a: Row, b: Row)
    requires Usual(a) && Usual(b)
    ensures !Confused(a, b)
  {
    if a.stamp.Some? { AsDoubleIsExact(a.stamp.value); }
    if b.stamp.Some? { AsDoubleIsExact(b.stamp.value); }
  }

  lemma {:induction false} UsualNeverConfused(s: seq<Row>)
    requires forall r | r in s :: Usual(r)
    ensures NeverConfused(s)
  {
    if s != [] {
      UsualNeverConfused(s[1..]);
      forall q ensures ClearOf(s, q) {
        if q != s[0].partition && Lane(s, q) != [] {
          LaneMembers(s, q);
          assert Lane(s, q)[0] in Lane(s, q);
          UsualNotConfused(s[0], Lane(s, q)[0]);
          UsualNotConfused(Lane(s, q)[0], s[0]);
        }
      }
    }
  }

  /** So with stamps within 2^53 of zero the two sides show one chunk alike. */
  lemma UsualStampsShownAlike(matches: seq<Row>, held: Streams)
    requires HeldAs(held, matches) && forall r | r in matches :: Usual(r)
    ensures Displayed(matches, Back) == WindowState.Display(held)
  {
    DisplayPermutes(matches, Back);
    forall r | r in Displayed(matches, Back) ensures Usual(r) { assert r in multiset(matches); }
    UsualNeverConfused(Displayed(matches, Back));
    BackShowsAsWindow(matches, held);
  }

  /** Two streams of one record each. */
  lemma PairMerge(o: Order, a: Row, b: Row)
    requires a.partition != b.partition
    ensures Labelled(map[a.partition := [a], b.partition := [b]])
    ensures Merge(o, map[a.partition := [a], b.partition := [b]]) == if Ahead(o, a, b) then [a, b] else [b, a]
  {
    var m := map[a.partition := [a], b.partition := [b]];
    var first, last := if Ahead(o, a, b) then a else b, if Ahead(o, a, b) then b else a;
    MergeStep(o, m, first.partition);
    var n := Pop(m, first.partition);
    MergeStep(o, n, last.partition);
    assert Drained(Pop(n, last.partition));
  }

  /** So two records alone are ordered alike exactly when they are not confused. */
  lemma PairShownAlike(a: Row, b: Row)
    requires InI64(a) && InI64(b) && a.partition != b.partition
    ensures var m := map[a.partition := [a], b.partition := [b]];
      Labelled(m) &&
        (Merge(Order(Server, Back), m) == Merge(Order(Client, Back), m) <==> !Confused(a, b) && !Confused(b, a))
  {
    PairMerge(Order(Server, Back), a, b);
    PairMerge(Order(Client, Back), a, b);
    SidesAgree(a, b);
    assert [a, b][0] == a && [b, a][0] == b;
  }

  const ROUNDED := Row(1, 0, Some(EXACT + 1), 0)
  const EXACTLY := Row(0, 0, Some(EXACT), 0)

  /** Two stamps one apart that the browser reads as equal: the server shows the later
      one first, the window the one of the smaller partition. */
  lemma RoundedStampsDiffer()
    ensures Confused(EXACTLY, ROUNDED)
    ensures var m := map[1 := [ROUNDED], 0 := [EXACTLY]];
      Labelled(m) && Merge(Order(Server, Back), m) == [ROUNDED, EXACTLY] &&
        Merge(Order(Client, Back), m) == [EXACTLY, ROUNDED]
  {
    FirstInexact();
    PairMerge(Order(Server, Back), ROUNDED, EXACTLY);
    PairMerge(Order(Client, Back), ROUNDED, EXACTLY);
  }
}
