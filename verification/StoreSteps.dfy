/**
 * The store's own algorithms: binary searches within a lane, the index-walking
 * merge of the lanes, and what removing one row after another amounts to. Each loop
 * is tied here to the value it computes: a lane with a record settled into it, the
 * merged display, the window with one of its ends cut away. The store's methods then
 * need no reasoning about indexes of their own.
 */
module StoreSteps {
  import opened Rows
  import opened MergeOrder
  import opened WindowState

  lemma LowerBoundUnique(arr: seq<Row>, offset: int, i: nat)
    requires i <= |arr|
    requires forall j | 0 <= j < i :: arr[j].offset < offset
    requires i < |arr| ==> offset <= arr[i].offset
    ensures i == LowerBound(arr, offset)
  {}

  method InsertByOffsetAscending(arr: seq<Row>, msg: Row) returns (out: seq<Row>)
    requires Ascending(arr)
    ensures out == InsertSorted(arr, msg)
  {
    var lo, hi := 0, |arr|;
    while lo < hi
      invariant 0 <= lo <= hi <= |arr|
      invariant forall j | 0 <= j < lo :: arr[j].offset < msg.offset
      invariant hi < |arr| ==> msg.offset <= arr[hi].offset
    {
      var mid := (lo + hi) / 2;
      if arr[mid].offset < msg.offset {
        lo := mid + 1;
      } else {
        hi := mid;
      }
    }
    LowerBoundUnique(arr, msg.offset, lo);
    out := arr[..lo] + [msg] + arr[lo..];
  }

  method FindOffsetIndex(arr: seq<Row>, offset: int) returns (idx: int)
    requires Ascending(arr)
    ensures -1 <= idx < |arr|
    ensures idx >= 0 ==> arr[idx].offset == offset
    ensures idx < 0 ==> forall j | 0 <= j < |arr| :: arr[j].offset != offset
  {
    var lo, hi := 0, |arr|;
    while lo < hi
      invariant 0 <= lo <= hi <= |arr|
      invariant forall j | 0 <= j < lo :: arr[j].offset < offset
      invariant forall j | hi <= j < |arr| :: offset <= arr[j].offset
    {
      var mid := (lo + hi) / 2;
      if arr[mid].offset < offset {
        lo := mid + 1;
      } else {
        hi := mid;
      }
    }
    idx := if lo < |arr| && arr[lo].offset == offset then lo else -1;
  }

  method SortedKeys(parts: Streams) returns (keys: seq<int>)
    ensures forall p :: p in keys <==> p in parts
    ensures forall i, j | 0 <= i < j < |keys| :: keys[i] < keys[j]
  {
    keys := [];
    var todo := parts.Keys;
    while exists p :: p in todo
      invariant todo <= parts.Keys
      invariant forall p :: p in keys <==> p in parts && p !in todo
      invariant forall i, j | 0 <= i < j < |keys| :: keys[i] < keys[j]
      decreases todo
    {
      var p :| p in todo;
      todo := todo - {p};
      var i := 0;
      while i < |keys| && keys[i] < p
        invariant 0 <= i <= |keys|
        invariant forall j | 0 <= j < i :: keys[j] < p
      {
        i := i + 1;
      }
      assert i < |keys| ==> keys[i] != p;
      keys := keys[..i] + [p] + keys[i..];
    }
  }

  /** What is still to merge: of each lane, the rows up to its index. */
  ghost predicate Pending(parts: Streams, keys: seq<int>, ptrs: seq<int>, m: Streams) {
    && |keys| == |ptrs|
    && (forall p :: p in m <==> p in keys)
    && forall i | 0 <= i < |keys| ::
      && keys[i] in parts && -1 <= ptrs[i] < |parts[keys[i]]|
      && m[keys[i]] == Reverse(parts[keys[i]][..ptrs[i] + 1])
  }

  lemma PendingHead(parts: Streams, keys: seq<int>, ptrs: seq<int>, m: Streams, i: nat)
    requires Pending(parts, keys, ptrs, m) && i < |keys|
    ensures keys[i] in m && (m[keys[i]] == [] <==> ptrs[i] < 0)
    ensures ptrs[i] >= 0 ==> m[keys[i]][0] == parts[keys[i]][ptrs[i]]
    ensures ptrs[i] >= 0 ==> m[keys[i]][1..] == Reverse(parts[keys[i]][..ptrs[i]])
  {
    var p := keys[i];
    assert p in keys;
  }

  lemma PendingAll(parts: Streams, keys: seq<int>, ptrs: seq<int>)
    requires |ptrs| == |keys| && forall p :: p in keys <==> p in parts
    requires forall i | 0 <= i < |keys| :: keys[i] in parts && ptrs[i] == |parts[keys[i]]| - 1
    ensures Pending(parts, keys, ptrs, Newest(parts))
  {
    forall i | 0 <= i < |keys| ensures keys[i] in parts && parts[keys[i]][..ptrs[i] + 1] == parts[keys[i]] {}
  }

  lemma PendingNext(parts: Streams, keys: seq<int>, ptrs: seq<int>, m: Streams, i: nat)
    requires Pending(parts, keys, ptrs, m) && i < |keys| && ptrs[i] >= 0 && keys[i] in m && m[keys[i]] != []
    requires forall i, j | 0 <= i < j < |keys| :: keys[i] < keys[j]
    ensures Pending(parts, keys, ptrs[i := ptrs[i] - 1], Pop(m, keys[i]))
  {
    PendingHead(parts, keys, ptrs, m, i);
    forall j | 0 <= j < |keys| ensures j != i ==> keys[j] != keys[i] {}
  }

  lemma PendingPop(parts: Streams, keys: seq<int>, ptrs: seq<int>, m: Streams, i: nat)
    requires Pending(parts, keys, ptrs, m) && Labelled(m)
    requires forall i, j | 0 <= i < j < |keys| :: keys[i] < keys[j]
    requires i < |keys| && ptrs[i] >= 0 && Leads(NEWEST_FIRST, m, keys[i])
    ensures Pending(parts, keys, ptrs[i := ptrs[i] - 1], Pop(m, keys[i])) && Labelled(Pop(m, keys[i]))
    ensures Merge(NEWEST_FIRST, m) == [parts[keys[i]][ptrs[i]]] + Merge(NEWEST_FIRST, Pop(m, keys[i]))
    ensures Size(Pop(m, keys[i])) < Size(m)
  {
    PendingHead(parts, keys, ptrs, m, i);
    PendingNext(parts, keys, ptrs, m, i);
    MergeStep(NEWEST_FIRST, m, keys[i]);
    SizePop(m, keys[i]);
  }

  /** Scans the heads once: the stream whose head goes next, or -1 when all are spent. */
  method SelectHead(parts: Streams, keys: seq<int>, ptrs: seq<int>, ghost m: Streams) returns (best: int)
    requires WellFormed(parts) && Pending(parts, keys, ptrs, m)
    requires forall i, j | 0 <= i < j < |keys| :: keys[i] < keys[j]
    ensures best == -1 ==> Drained(m)
    ensures best != -1 ==> 0 <= best < |keys| && ptrs[best] >= 0 && Leads(NEWEST_FIRST, m, keys[best])
  {
    best := -1;
    var bestTs: Option<int> := None;
    var i := 0;
    while i < |keys|
      invariant 0 <= i <= |keys| && -1 <= best < i
      invariant best == -1 ==> forall j | 0 <= j < i :: ptrs[j] < 0
      invariant best != -1 ==> ptrs[best] >= 0 && bestTs == parts[keys[best]][ptrs[best]].stamp
      invariant best != -1 ==> forall j | 0 <= j < i && j != best && ptrs[j] >= 0 ::
        Ahead(NEWEST_FIRST, parts[keys[best]][ptrs[best]], parts[keys[j]][ptrs[j]])
    {
      if ptrs[i] >= 0 {
        var ts := parts[keys[i]][ptrs[i]].stamp;
        assert LaneOk(parts, keys[i]) && (best != -1 ==> LaneOk(parts, keys[best]));
        assert parts[keys[i]][ptrs[i]].partition == keys[i];
        assert best != -1 ==> parts[keys[best]][ptrs[best]].partition == keys[best];
        if best == -1 || StampLess(Client, bestTs, ts) {
          best := i;
          bestTs := ts;
        }
      }
      i := i + 1;
    }
    forall p | p in m ensures best == -1 ==> m[p] == []
      ensures best != -1 && m[p] != [] && p != keys[best] ==> Ahead(NEWEST_FIRST, m[keys[best]][0], m[p][0])
    {
      var j :| 0 <= j < |keys| && keys[j] == p;
      PendingHead(parts, keys, ptrs, m, j);
      if best != -1 { PendingHead(parts, keys, ptrs, m, best); }
    }
  }

  /** The k-way merge of the lanes, newest first. */
  method MergeRowsFrom(parts: Streams) returns (result: seq<Row>)
    requires WellFormed(parts)
    ensures result == Display(parts)
  {
    var keys := SortedKeys(parts);
    forall i | 0 <= i < |keys| ensures keys[i] in parts { var p := keys[i]; assert p in keys; }
    var ptrs := seq(|keys|, i requires 0 <= i < |keys| && keys[i] in parts => |parts[keys[i]]| - 1);
    PendingAll(parts, keys, ptrs);
    NewestIsLabelled(parts);
    result := MergeFromPtrs(parts, keys, ptrs, Newest(parts));
  }

  /** `result` is the merge of `all` up to what `m` still holds. */
  ghost predicate MergedSo(all: Streams, result: seq<Row>, m: Streams) {
    Labelled(all) && Labelled(m) && Merge(NEWEST_FIRST, all) == result + Merge(NEWEST_FIRST, m)
  }

  lemma MergedNext(all: Streams, result: seq<Row>, m: Streams, r: Row, n: Streams)
    requires MergedSo(all, result, m) && Labelled(n) && Merge(NEWEST_FIRST, m) == [r] + Merge(NEWEST_FIRST, n)
    ensures MergedSo(all, result + [r], n)
  {
    Rejoin(Merge(NEWEST_FIRST, all), result, r, Merge(NEWEST_FIRST, n));
  }

  lemma Rejoin(all: seq<Row>, front: seq<Row>, r: Row, rest: seq<Row>)
    requires all == front + ([r] + rest)
    ensures all == (front + [r]) + rest
  {}

  lemma MergedAll(all: Streams, result: seq<Row>, m: Streams)
    requires MergedSo(all, result, m) && Drained(m)
    ensures result == Merge(NEWEST_FIRST, all)
  {}

  lemma MergedNone(all: Streams)
    requires Labelled(all)
    ensures MergedSo(all, [], all)
  {}

  method MergeFromPtrs(parts: Streams, keys: seq<int>, start: seq<int>, ghost all: Streams) returns (result: seq<Row>)
    requires WellFormed(parts) && Pending(parts, keys, start, all) && Labelled(all)
    requires forall i, j | 0 <= i < j < |keys| :: keys[i] < keys[j]
    ensures result == Merge(NEWEST_FIRST, all)
  {
    var ptrs := start;
    ghost var m := all;
    result := [];
    MergedNone(all);
    while true
      invariant Pending(parts, keys, ptrs, m) && MergedSo(all, result, m)
      decreases Size(m)
    {
      var best := SelectHead(parts, keys, ptrs, m);
      if best == -1 {
        MergedAll(all, result, m);
        break;
      }
      PendingPop(parts, keys, ptrs, m, best);
      MergedNext(all, result, m, parts[keys[best]][ptrs[best]], Pop(m, keys[best]));
      result := result + [parts[keys[best]][ptrs[best]]];
      ptrs := ptrs[best := ptrs[best] - 1];
      m := Pop(m, keys[best]);
    }
  }

  method MinOf(xs: seq<int>) returns (m: int)
    requires xs != []
    ensures exists j | 0 <= j < |xs| :: xs[j] == m
    ensures forall j | 0 <= j < |xs| :: m <= xs[j]
  {
    m := xs[0];
    for i := 1 to |xs|
      invariant exists j | 0 <= j < i :: xs[j] == m
      invariant forall j | 0 <= j < i :: m <= xs[j]
    {
      if xs[i] < m { m := xs[i]; }
    }
  }

  method MaxOf(xs: seq<int>) returns (m: int)
    requires xs != []
    ensures exists j | 0 <= j < |xs| :: xs[j] == m
    ensures forall j | 0 <= j < |xs| :: xs[j] <= m
  {
    m := xs[0];
    for i := 1 to |xs|
      invariant exists j | 0 <= j < i :: xs[j] == m
      invariant forall j | 0 <= j < i :: xs[j] <= m
    {
      if xs[i] > m { m := xs[i]; }
    }
  }

  type Trimmed = map<int, seq<int>>

  /** The offsets a top trim has recorded for one lane, newest first. */
  ghost predicate TopRecordAt(held: Streams, cuts: map<int, nat>, trimmed: Trimmed, p: int)
    requires CutsOf(held, cuts)
  {
    if CutAt(cuts, p) < |At(held, p)| then
      p in trimmed && Reaches(trimmed[p], TopEdge(held, cuts, p)) &&
      forall j | 0 <= j < |trimmed[p]| :: TopEdge(held, cuts, p) <= trimmed[p][j]
    else p !in trimmed
  }

  ghost predicate TopRecord(held: Streams, cuts: map<int, nat>, trimmed: Trimmed) {
    CutsOf(held, cuts) && forall p :: TopRecordAt(held, cuts, trimmed, p)
  }

  /** The offsets a bottom trim has recorded for one lane, oldest first. */
  ghost predicate BottomRecordAt(held: Streams, cuts: map<int, nat>, trimmed: Trimmed, p: int)
    requires CutsOf(held, cuts)
  {
    if 0 < CutAt(cuts, p) then
      p in trimmed && Reaches(trimmed[p], BottomEdge(held, cuts, p) - 1) &&
      forall j | 0 <= j < |trimmed[p]| :: trimmed[p][j] < BottomEdge(held, cuts, p)
    else p !in trimmed
  }

  ghost predicate BottomRecord(held: Streams, cuts: map<int, nat>, trimmed: Trimmed) {
    CutsOf(held, cuts) && forall p :: BottomRecordAt(held, cuts, trimmed, p)
  }

  predicate Reaches(xs: seq<int>, x: int) {
    xs != [] && xs[|xs| - 1] == x
  }

  function Note(trimmed: Trimmed, r: Row): Trimmed {
    trimmed[r.partition := (if r.partition in trimmed then trimmed[r.partition] else []) + [r.offset]]
  }

  lemma TopRecordStep(held: Streams, cuts: map<int, nat>, trimmed: Trimmed, r: Row)
    requires WellFormed(held) && TopRecord(held, cuts, trimmed) && r.partition in held
    requires 0 < CutAt(cuts, r.partition) && At(held, r.partition)[CutAt(cuts, r.partition) - 1] == r
    ensures TopRecord(held, cuts[r.partition := CutAt(cuts, r.partition) - 1], Note(trimmed, r))
  {
    var cuts' := cuts[r.partition := CutAt(cuts, r.partition) - 1];
    assert LaneOk(held, r.partition);
    forall p ensures TopRecordAt(held, cuts', Note(trimmed, r), p) { assert TopRecordAt(held, cuts, trimmed, p); }
  }

  lemma BottomRecordStep(held: Streams, cuts: map<int, nat>, trimmed: Trimmed, r: Row)
    requires WellFormed(held) && BottomRecord(held, cuts, trimmed) && r.partition in held
    requires CutAt(cuts, r.partition) < |At(held, r.partition)| && At(held, r.partition)[CutAt(cuts, r.partition)] == r
    ensures BottomRecord(held, cuts[r.partition := CutAt(cuts, r.partition) + 1], Note(trimmed, r))
  {
    var cuts' := cuts[r.partition := CutAt(cuts, r.partition) + 1];
    assert LaneOk(held, r.partition);
    forall p ensures BottomRecordAt(held, cuts', Note(trimmed, r), p) { assert BottomRecordAt(held, cuts, trimmed, p); }
  }

  ghost predicate SeenIs(seen: set<(int, int)>, held: Streams) {
    forall p, o :: (p, o) in seen <==> HoldsAt(held, p, o)
  }

  function Without(held: Streams, r: Row): Streams {
    var arr := At(held, r.partition);
    var i := LowerBound(arr, r.offset);
    if i == |arr| || arr[i].offset != r.offset then held
    else if |arr| == 1 then held - {r.partition}
    else held[r.partition := arr[..i] + arr[i + 1..]]
  }

  /** Counting `r` among the newest moves its lane's cut down by one, past `r`. */
  ghost predicate CutsPast(held: Streams, cuts: map<int, nat>, cuts': map<int, nat>, r: Row) {
    && CutsOf(held, cuts) && CutsOf(held, cuts') && r.partition in held
    && 0 < CutAt(cuts, r.partition) && At(held, r.partition)[CutAt(cuts, r.partition) - 1] == r
    && cuts' == cuts[r.partition := CutAt(cuts, r.partition) - 1]
  }

  /** One lane's cut, with `r` counted among the newest. */
  lemma CutWith(held: Streams, newest: seq<Row>, r: Row, q: int)
    requires Holding(held, newest) && Holding(held, newest + [r]) && q in held
    ensures CutAt(Cuts(held, newest), q) ==
      CutAt(Cuts(held, newest + [r]), q) + if q == r.partition then 1 else 0
  {
    ShareAppend(newest, r, q);
    assert Share(newest + [r], q) <= |At(held, q)|;
  }

  lemma LoweredAt(cuts: map<int, nat>, cuts': map<int, nat>, p: int)
    requires p in cuts && cuts'.Keys == cuts.Keys
    requires forall q | q in cuts :: CutAt(cuts, q) == CutAt(cuts', q) + if q == p then 1 else 0
    ensures CutAt(cuts, p) > 0 && cuts' == cuts[p := CutAt(cuts, p) - 1]
  {
    assert CutAt(cuts, p) == CutAt(cuts', p) + 1;
    var lowered := cuts[p := CutAt(cuts, p) - 1];
    assert lowered.Keys == cuts'.Keys;
    forall q | q in cuts' ensures cuts'[q] == lowered[q] {
      assert CutAt(cuts, q) == CutAt(cuts', q) + if q == p then 1 else 0;
    }
  }

  lemma CutsLower(held: Streams, newest: seq<Row>, r: Row)
    requires Holding(held, newest) && Holding(held, newest + [r]) && r.partition in held
    ensures CutAt(Cuts(held, newest), r.partition) > 0
    ensures Cuts(held, newest + [r]) ==
            Cuts(held, newest)[r.partition := CutAt(Cuts(held, newest), r.partition) - 1]
  {
    var cuts, cuts' := Cuts(held, newest), Cuts(held, newest + [r]);
    forall q | q in cuts ensures CutAt(cuts, q) == CutAt(cuts', q) + if q == r.partition then 1 else 0 {
      CutWith(held, newest, r, q);
    }
    LoweredAt(cuts, cuts', r.partition);
  }

  lemma CutsStep(held: Streams, newest: seq<Row>, r: Row, c: nat)
    requires Holding(held, newest) && Holding(held, newest + [r]) && c == Share(newest, r.partition)
    requires c < |At(held, r.partition)| && At(held, r.partition)[|At(held, r.partition)| - 1 - c] == r
    ensures CutsPast(held, Cuts(held, newest), Cuts(held, newest + [r]), r)
  {
    CutsLower(held, newest, r);
    var cuts := Cuts(held, newest);
    assert CutAt(cuts, r.partition) == |At(held, r.partition)| - c;
  }

  lemma CutsBack(held: Streams, cuts: map<int, nat>, cuts': map<int, nat>, r: Row)
    requires CutsPast(held, cuts, cuts', r)
    ensures CutAt(cuts', r.partition) < |At(held, r.partition)|
    ensures At(held, r.partition)[CutAt(cuts', r.partition)] == r
    ensures cuts == cuts'[r.partition := CutAt(cuts', r.partition) + 1]
  {}

  /** Along `merged`, each row is the newest its lane still has, down to nothing. */
  ghost predicate Peels(held: Streams, merged: seq<Row>) {
    && AllFit(held, merged)
    && (forall p :: Share(merged, p) == |At(held, p)|)
    && forall i | 0 <= i < |merged| :: PeelsAt(held, merged, i)
  }

  ghost predicate PeelsAt(held: Streams, merged: seq<Row>, i: nat)
    requires i < |merged|
  {
    && Holding(held, merged[..i]) && Holding(held, merged[..i + 1])
    && CutsPast(held, Cuts(held, merged[..i]), Cuts(held, merged[..i + 1]), merged[i])
  }

  lemma PeelsHere(held: Streams, merged: seq<Row>, i: nat)
    requires Peels(held, merged) && i < |merged|
    ensures PeelsAt(held, merged, i)
  {}

  lemma PeelsIntro(held: Streams, merged: seq<Row>, i: nat, c: nat)
    requires AllFit(held, merged) && i < |merged| && c == Share(merged[..i], merged[i].partition)
    requires c < |At(held, merged[i].partition)|
    requires At(held, merged[i].partition)[|At(held, merged[i].partition)| - 1 - c] == merged[i]
    ensures PeelsAt(held, merged, i)
  {
    var newest, r := merged[..i], merged[i];
    assert Holding(held, merged[..i]) && Holding(held, merged[..i + 1]);
    assert merged[..i + 1] == newest + [r];
    CutsStep(held, newest, r, c);
  }

  lemma TurnedAt(s: seq<Row>, turned: seq<Row>, i: nat)
    requires turned == Reverse(s) && i < |turned|
    ensures i < |s| && turned[i] == s[|s| - 1 - i]
  {}

  /** The next row of the merged timeline is the newest row its lane still has. */
  lemma NextOfLane(held: Streams, i: nat)
    requires WellFormed(held) && i < |Display(held)|
    ensures var p, c := Display(held)[i].partition, Share(Display(held)[..i], Display(held)[i].partition);
      c < |At(held, p)| && At(held, p)[|At(held, p)| - 1 - c] == Display(held)[i]
  {
    NewestIsLabelled(held);
    MergedAt(NEWEST_FIRST, Newest(held), i);
    var p := Display(held)[i].partition;
    assert At(Newest(held), p) == Reverse(At(held, p));
    TurnedAt(At(held, p), At(Newest(held), p), Share(Display(held)[..i], p));
  }

  lemma DisplayPeelsAt(held: Streams, merged: seq<Row>, i: nat)
    requires WellFormed(held) && merged == Display(held) && AllFit(held, merged) && i < |merged|
    ensures PeelsAt(held, merged, i)
  {
    NextOfLane(held, i);
    PeelsIntro(held, merged, i, Share(merged[..i], merged[i].partition));
  }

  lemma DisplayPeels(held: Streams)
    requires WellFormed(held)
    ensures Peels(held, Display(held))
  {
    DisplayFits(held);
    NewestIsLabelled(held);
    forall p ensures Share(Display(held), p) == |At(held, p)| {
      MergeKeepsLanes(NEWEST_FIRST, Newest(held), p);
    }
    forall i | 0 <= i < |Display(held)| ensures PeelsAt(held, Display(held), i) {
      DisplayPeelsAt(held, Display(held), i);
    }
  }

  lemma WholeLanes(held: Streams, cuts: map<int, nat>)
    requires WellFormed(held) && CutsOf(held, cuts) && forall p :: CutAt(cuts, p) == |At(held, p)|
    ensures LanesBelow(held, cuts) == held && TopRecord(held, cuts, map[])
  {
    forall p
      ensures At(held, p)[..CutAt(cuts, p)] == At(held, p) && LaneOk(held, p) && TopRecordAt(held, cuts, map[], p)
    {
      assert CutAt(cuts, p) == |At(held, p)|;
    }
  }

  lemma UncutLanes(held: Streams, cuts: map<int, nat>)
    requires WellFormed(held) && CutsOf(held, cuts) && forall p :: CutAt(cuts, p) == 0
    ensures LanesFrom(held, cuts) == held && BottomRecord(held, cuts, map[])
  {
    forall p
      ensures At(held, p)[CutAt(cuts, p)..] == At(held, p) && LaneOk(held, p) && BottomRecordAt(held, cuts, map[], p)
    {
      assert CutAt(cuts, p) == 0;
    }
  }

  lemma PlantTopStep(top: Edges, held: Streams, cuts: map<int, nat>, ps: set<int>, p: int)
    requires CutsOf(held, cuts) && p in held && At(held, p) != []
    ensures PlantTop(top, held, cuts, ps + {p}) == PlantTop(top, held, cuts, ps)[p := TopEdge(held, cuts, p)]
  {}

  lemma PlantBottomStep(bottom: Edges, held: Streams, cuts: map<int, nat>, ps: set<int>, p: int)
    requires CutsOf(held, cuts) && p in held && 0 < CutAt(cuts, p)
    ensures PlantBottom(bottom, held, cuts, ps + {p}) ==
      PlantBottom(bottom, held, cuts, ps)[p := BottomEdge(held, cuts, p)]
  {}

  lemma PlantTopAll(top: Edges, held: Streams, cuts: map<int, nat>, ps: set<int>)
    requires CutsOf(held, cuts) && forall p | p in held && At(held, p) != [] :: p in ps
    ensures PlantTop(top, held, cuts, ps) == PlantTop(top, held, cuts, held.Keys)
  {}

  lemma PlantBottomAll(bottom: Edges, held: Streams, cuts: map<int, nat>, ps: set<int>)
    requires CutsOf(held, cuts) && forall p | p in held && 0 < CutAt(cuts, p) :: p in ps
    ensures PlantBottom(bottom, held, cuts, ps) == PlantBottom(bottom, held, cuts, held.Keys)
  {}

  /** A lane a top trim left alone keeps its newest row, and that row's successor is its edge. */
  lemma BackfillAt(held: Streams, cuts: map<int, nat>, trimmed: Trimmed, p: int)
    requires TopRecord(held, cuts, trimmed) && p in LanesBelow(held, cuts) && p !in trimmed
    ensures p in held && At(held, p) != [] && LanesBelow(held, cuts)[p] == At(held, p)
    ensures TopEdge(held, cuts, p) == At(held, p)[|At(held, p)| - 1].offset + 1
  {
    assert TopRecordAt(held, cuts, trimmed, p);
  }

  lemma BackfillAll(top: Edges, held: Streams, cuts: map<int, nat>, trimmed: Trimmed, ps: set<int>)
    requires TopRecord(held, cuts, trimmed) && trimmed.Keys <= ps && LanesBelow(held, cuts).Keys <= ps
    ensures PlantTop(top, held, cuts, ps) == PlantTop(top, held, cuts, held.Keys)
  {
    forall p | p in held && At(held, p) != [] ensures p in ps { assert TopRecordAt(held, cuts, trimmed, p); }
    PlantTopAll(top, held, cuts, ps);
  }

  /** The lanes whose top edge is settled when `left` are still to be visited. */
  ghost function Settled(trimmed: Trimmed, parts: Streams, left: set<int>): set<int> {
    trimmed.Keys + (parts.Keys - left)
  }

  lemma SettledNext(trimmed: Trimmed, parts: Streams, left: set<int>, p: int)
    requires p in left && p in parts
    ensures Settled(trimmed, parts, left - {p}) ==
      if p in trimmed then Settled(trimmed, parts, left) else Settled(trimmed, parts, left) + {p}
  {}

  /** A lane without trimmed rows is continued from its newest row. */
  function Backfill(top: Edges, parts: Streams, trimmed: Trimmed, p: int): Edges
    requires p in parts && parts[p] != []
  {
    if p in trimmed then top else top[p := parts[p][|parts[p]| - 1].offset + 1]
  }

  lemma BackfillStep(top: Edges, before: Edges, held: Streams, cuts: map<int, nat>, trimmed: Trimmed, parts: Streams,
                     left: set<int>, p: int)
    requires TopRecord(held, cuts, trimmed) && p in left && p in parts && parts == LanesBelow(held, cuts)
    requires top == PlantTop(before, held, cuts, Settled(trimmed, parts, left))
    ensures parts[p] != []
    ensures Backfill(top, parts, trimmed, p) == PlantTop(before, held, cuts, Settled(trimmed, parts, left - {p}))
  {
    SettledNext(trimmed, parts, left, p);
    if p !in trimmed {
      BackfillAt(held, cuts, trimmed, p);
      PlantTopStep(before, held, cuts, Settled(trimmed, parts, left), p);
    }
  }

  method BackfilledTops(parts: Streams, trimmed: Trimmed, top: Edges, ghost before: Edges, ghost held: Streams,
                        ghost cuts: map<int, nat>)
    returns (top': Edges)
    requires TopRecord(held, cuts, trimmed) && parts == LanesBelow(held, cuts)
    requires top == PlantTop(before, held, cuts, trimmed.Keys)
    ensures top' == PlantTop(before, held, cuts, held.Keys)
  {
    top' := top;
    var left := parts.Keys;
    assert Settled(trimmed, parts, left) == trimmed.Keys;
    while exists p :: p in left
      invariant left <= parts.Keys
      invariant top' == PlantTop(before, held, cuts, Settled(trimmed, parts, left))
      decreases left
    {
      var p :| p in left;
      BackfillStep(top', before, held, cuts, trimmed, parts, left, p);
      top' := Backfill(top', parts, trimmed, p);
      left := left - {p};
    }
    BackfillAll(before, held, cuts, trimmed, Settled(trimmed, parts, left));
  }

  lemma AtIndex(arr: seq<Row>, i: nat)
    requires Ascending(arr) && i < |arr|
    ensures LowerBound(arr, arr[i].offset) == i
  {
    LowerBoundUnique(arr, arr[i].offset, i);
  }

  lemma WithoutNewest(held: Streams, cuts: map<int, nat>, r: Row)
    requires WellFormed(held) && CutsOf(held, cuts) && r.partition in held
    requires 0 < CutAt(cuts, r.partition) && At(held, r.partition)[CutAt(cuts, r.partition) - 1] == r
    ensures CutsOf(held, cuts[r.partition := CutAt(cuts, r.partition) - 1])
    ensures Without(LanesBelow(held, cuts), r) == LanesBelow(held, cuts[r.partition := CutAt(cuts, r.partition) - 1])
  {
    var p, i := r.partition, CutAt(cuts, r.partition);
    var cuts' := cuts[p := i - 1];
    assert LaneOk(held, p);
    PrefixAscending(At(held, p), i);
    assert CutsOf(held, cuts');
    WithoutLast(LanesBelow(held, cuts), At(held, p)[..i], r);
    RestBelow(At(held, p), i);
    forall q | q in held && q != p ensures CutAt(cuts', q) == CutAt(cuts, q) {}
  }

  lemma RestBelow(arr: seq<Row>, i: nat)
    requires 0 < i <= |arr|
    ensures arr[..i][..i - 1] == arr[..i - 1]
  {}

  /** Taking the last row of its lane leaves the rest of the lane, or no lane. */
  lemma WithoutLast(parts: Streams, arr: seq<Row>, r: Row)
    requires r.partition in parts && parts[r.partition] == arr && Ascending(arr)
    requires arr != [] && arr[|arr| - 1] == r
    ensures Without(parts, r) == if |arr| == 1 then parts - {r.partition} else parts[r.partition := arr[..|arr| - 1]]
  {
    AtIndex(arr, |arr| - 1);
    assert arr[..|arr| - 1] + arr[|arr|..] == arr[..|arr| - 1];
  }

  lemma PrefixAscending(arr: seq<Row>, i: nat)
    requires Ascending(arr) && i <= |arr|
    ensures Ascending(arr[..i]) && Ascending(arr[i..])
  {}

  lemma WithoutOldest(held: Streams, cuts: map<int, nat>, r: Row)
    requires WellFormed(held) && CutsOf(held, cuts) && r.partition in held
    requires CutAt(cuts, r.partition) < |At(held, r.partition)| && At(held, r.partition)[CutAt(cuts, r.partition)] == r
    ensures CutsOf(held, cuts[r.partition := CutAt(cuts, r.partition) + 1])
    ensures Without(LanesFrom(held, cuts), r) == LanesFrom(held, cuts[r.partition := CutAt(cuts, r.partition) + 1])
  {
    var p, i := r.partition, CutAt(cuts, r.partition);
    var cuts' := cuts[p := i + 1];
    assert LaneOk(held, p);
    assert CutsOf(held, cuts');
    WithoutFirst(LanesFrom(held, cuts), At(held, p)[i..], r);
    RestFrom(At(held, p), i);
    forall q | q in held && q != p ensures CutAt(cuts', q) == CutAt(cuts, q) {}
  }

  lemma RestFrom(arr: seq<Row>, i: nat)
    requires i < |arr|
    ensures arr[i..][1..] == arr[i + 1..]
  {}

  /** Taking the first row of its lane leaves the rest of the lane, or no lane. */
  lemma WithoutFirst(parts: Streams, arr: seq<Row>, r: Row)
    requires r.partition in parts && parts[r.partition] == arr && arr != [] && arr[0] == r && Ascending(arr)
    ensures Without(parts, r) == if |arr| == 1 then parts - {r.partition} else parts[r.partition := arr[1..]]
  {
    AtIndex(arr, 0);
    assert arr[..0] + arr[1..] == arr[1..];
  }

  /** The first `i` rows of the merged timeline removed one by one. */
  ghost predicate TopTrimmed(held: Streams, merged: seq<Row>, i: nat, parts: Streams, trimmed: Trimmed) {
    && i <= |merged| && Holding(held, merged[..i])
    && parts == LanesBelow(held, Cuts(held, merged[..i]))
    && TopRecord(held, Cuts(held, merged[..i]), trimmed)
  }

  /** All but the first `k` rows of the merged timeline removed one by one. */
  ghost predicate BottomTrimmed(held: Streams, merged: seq<Row>, k: nat, parts: Streams, trimmed: Trimmed) {
    && k <= |merged| && Holding(held, merged[..k])
    && parts == LanesFrom(held, Cuts(held, merged[..k]))
    && BottomRecord(held, Cuts(held, merged[..k]), trimmed)
  }

  lemma TopTrimmedStart(held: Streams, merged: seq<Row>)
    requires WellFormed(held)
    ensures TopTrimmed(held, merged, 0, held, map[])
  {
    assert merged[..0] == [];
    assert forall p :: Share([], p) == 0;
    WholeLanes(held, Cuts(held, []));
  }

  lemma BottomTrimmedStart(held: Streams, merged: seq<Row>)
    requires WellFormed(held) && Peels(held, merged)
    ensures BottomTrimmed(held, merged, |merged|, held, map[])
  {
    assert merged[..|merged|] == merged;
    UncutLanes(held, Cuts(held, merged));
  }

  lemma TopTrimmedStep(held: Streams, merged: seq<Row>, i: nat, parts: Streams, trimmed: Trimmed)
    requires WellFormed(held) && i < |merged| && PeelsAt(held, merged, i) && TopTrimmed(held, merged, i, parts, trimmed)
    ensures TopTrimmed(held, merged, i + 1, Without(parts, merged[i]), Note(trimmed, merged[i]))
  {
    WithoutNewest(held, Cuts(held, merged[..i]), merged[i]);
    TopRecordStep(held, Cuts(held, merged[..i]), trimmed, merged[i]);
  }

  lemma UncutStep(held: Streams, cuts: map<int, nat>, cuts': map<int, nat>, r: Row, parts: Streams, trimmed: Trimmed)
    requires WellFormed(held) && CutsPast(held, cuts, cuts', r)
    requires parts == LanesFrom(held, cuts') && BottomRecord(held, cuts', trimmed)
    ensures Without(parts, r) == LanesFrom(held, cuts) && BottomRecord(held, cuts, Note(trimmed, r))
  {
    CutsBack(held, cuts, cuts', r);
    WithoutOldest(held, cuts', r);
    BottomRecordStep(held, cuts', trimmed, r);
  }

  lemma BottomTrimmedStep(held: Streams, merged: seq<Row>, k: nat, parts: Streams, trimmed: Trimmed)
    requires WellFormed(held) && k < |merged| && PeelsAt(held, merged, k)
    requires BottomTrimmed(held, merged, k + 1, parts, trimmed)
    ensures BottomTrimmed(held, merged, k, Without(parts, merged[k]), Note(trimmed, merged[k]))
  {
    UncutStep(held, Cuts(held, merged[..k]), Cuts(held, merged[..k + 1]), merged[k], parts, trimmed);
  }

  /** What removing the rows of `merged` from its end down to the first `k` leaves, and notes. */
  function Dropped(parts: Streams, merged: seq<Row>, k: nat): Streams
    requires k <= |merged|
    decreases |merged| - k
  {
    if k == |merged| then parts else Without(Dropped(parts, merged, k + 1), merged[k])
  }

  function Noted(merged: seq<Row>, k: nat): Trimmed
    requires k <= |merged|
    decreases |merged| - k
  {
    if k == |merged| then map[] else Note(Noted(merged, k + 1), merged[k])
  }

  lemma {:induction false} DroppedIsTrimmed(held: Streams, merged: seq<Row>, k: nat)
    requires WellFormed(held) && Peels(held, merged) && k <= |merged|
    ensures BottomTrimmed(held, merged, k, Dropped(held, merged, k), Noted(merged, k))
    decreases |merged| - k
  {
    if k == |merged| {
      BottomTrimmedStart(held, merged);
    } else {
      DroppedIsTrimmed(held, merged, k + 1);
      PeelsHere(held, merged, k);
      BottomTrimmedStep(held, merged, k, Dropped(held, merged, k + 1), Noted(merged, k + 1));
    }
  }

  lemma DropOne(arr: seq<Row>, i: nat, o: int)
    requires Ascending(arr) && i < |arr|
    ensures HasOffset(arr[..i] + arr[i + 1..], o) <==> HasOffset(arr, o) && o != arr[i].offset
  {
    var rest := arr[..i] + arr[i + 1..];
    forall j | 0 <= j < |rest| ensures rest[j] == arr[if j < i then j else j + 1] {}
    if HasOffset(arr, o) && o != arr[i].offset {
      var j :| 0 <= j < |arr| && arr[j].offset == o;
      assert rest[if j < i then j else j - 1].offset == o;
    }
  }

  lemma HeldWithout(held: Streams, r: Row, p: int, o: int)
    requires WellFormed(held)
    ensures HoldsAt(Without(held, r), p, o) <==> HoldsAt(held, p, o) && (p, o) != (r.partition, r.offset)
  {
    var arr := At(held, r.partition);
    var i := LowerBound(arr, r.offset);
    assert LaneOk(held, r.partition);
    if i < |arr| && arr[i].offset == r.offset {
      DropOne(arr, i, o);
      assert At(Without(held, r), r.partition) == arr[..i] + arr[i + 1..];
      assert p != r.partition ==> At(Without(held, r), p) == At(held, p);
      assert HoldsAt(Without(held, r), p, o) == HasOffset(At(Without(held, r), p), o);
      assert HoldsAt(held, p, o) == HasOffset(At(held, p), o);
    }
  }

  /** Splices one record out, dropping its lane once that is empty. */
  method TakenOut(held: Streams, msg: Row) returns (left: Streams)
    requires WellFormed(held)
    ensures left == Without(held, msg)
  {
    left := held;
    if msg.partition in held {
      var arr := held[msg.partition];
      assert LaneOk(held, msg.partition);
      var idx := FindOffsetIndex(arr, msg.offset);
      if idx >= 0 {
        AtIndex(arr, idx);
        arr := arr[..idx] + arr[idx + 1..];
        left := if arr == [] then held - {msg.partition} else held[msg.partition := arr];
      }
    }
  }

  lemma WithoutLane(held: Streams, r: Row, p: int)
    requires LaneOk(held, p)
    ensures LaneOk(Without(held, r), p)
  {
    var arr := At(held, r.partition);
    var i := LowerBound(arr, r.offset);
    if p == r.partition && i < |arr| { OneLessOk(arr, i, p); }
  }

  lemma OneLessOk(arr: seq<Row>, i: nat, p: int)
    requires Ascending(arr) && AllOf(arr, p) && i < |arr|
    ensures Ascending(arr[..i] + arr[i + 1..]) && AllOf(arr[..i] + arr[i + 1..], p)
  {
    var left := arr[..i] + arr[i + 1..];
    forall j | 0 <= j < |left| ensures left[j] == arr[if j < i then j else j + 1] {}
  }

  lemma WithoutWellFormed(held: Streams, r: Row)
    requires WellFormed(held)
    ensures WellFormed(Without(held, r))
  {
    forall p ensures LaneOk(Without(held, r), p) {
      assert LaneOk(held, p);
      WithoutLane(held, r, p);
    }
  }

  lemma SeenWithout(seen: set<(int, int)>, held: Streams, r: Row)
    requires WellFormed(held) && SeenIs(seen, held)
    ensures SeenIs(seen - {(r.partition, r.offset)}, Without(held, r))
  {
    forall p, o ensures (p, o) in seen - {(r.partition, r.offset)} <==> HoldsAt(Without(held, r), p, o) {
      HeldWithout(held, r, p, o);
    }
  }
}
