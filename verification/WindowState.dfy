/**
 * The sliding window of the timeline as a value: the records held per
 * partition, the two edge maps and the attachment flags, together with what
 * each operation of the store turns them into. The store's methods are proved
 * against these functions, and the laws a reader relies on are proved about the
 * functions alone, so no law ever mentions the store's caches, splices or loops.
 * A record already held is never replaced.
 */
module WindowState {
  import opened Rows
  import opened MergeOrder

  const NEWEST_FIRST := Order(Client, Back)

  type Edges = map<int, int>

  datatype Window = Window(
    held: Streams,      // per partition, ascending by offset, never an empty lane
    bottom: Edges,      // exclusive upper bound for reading older
    top: Edges,         // inclusive lower bound for reading newer
    attached: bool,     // the top edge is the live tail
    historical: bool)   // an incomplete `top` must mask the top cursor

  const EMPTY := Window(map[], map[], map[], false, false)

  ghost predicate LaneOk(held: Streams, p: int) {
    AllOf(At(held, p), p) && Ascending(At(held, p)) && (p in held ==> At(held, p) != [])
  }

  ghost predicate WellFormed(held: Streams) {
    forall p :: LaneOk(held, p)
  }

  function Newest(held: Streams): (m: Streams)
    ensures forall p :: At(m, p) == Reverse(At(held, p))
  {
    map p | p in held :: Reverse(At(held, p))
  }

  lemma NewestIsLabelled(held: Streams)
    requires WellFormed(held)
    ensures Labelled(Newest(held))
  {
    forall p | p in Newest(held) ensures AllOf(Newest(held)[p], p) {
      assert LaneOk(held, p);
      assert Newest(held)[p] == At(Newest(held), p);
    }
  }

  /** The merged timeline, newest first. */
  ghost function Display(held: Streams): seq<Row>
    requires WellFormed(held)
  {
    NewestIsLabelled(held);
    Merge(NEWEST_FIRST, Newest(held))
  }

  // ---- inserting rows -------------------------------------------------------

  function LowerBound(arr: seq<Row>, offset: int): (i: nat)
    ensures i <= |arr|
    ensures forall j | 0 <= j < i :: arr[j].offset < offset
    ensures i < |arr| ==> offset <= arr[i].offset
  {
    if arr == [] || offset <= arr[0].offset then 0 else 1 + LowerBound(arr[1..], offset)
  }

  function InsertSorted(arr: seq<Row>, r: Row): seq<Row> {
    var i := LowerBound(arr, r.offset);
    arr[..i] + [r] + arr[i..]
  }

  predicate HoldsAt(held: Streams, p: int, offset: int) {
    exists i | 0 <= i < |At(held, p)| :: At(held, p)[i].offset == offset
  }

  predicate Holds(held: Streams, r: Row) {
    HoldsAt(held, r.partition, r.offset)
  }

  function InsertOne(held: Streams, r: Row): Streams {
    if Holds(held, r) then held else held[r.partition := InsertSorted(At(held, r.partition), r)]
  }

  function InsertAll(held: Streams, rows: seq<Row>): Streams
    decreases |rows|
  {
    if rows == [] then held else
    InsertOne(InsertAll(held, rows[..|rows| - 1]), rows[|rows| - 1])
  }

  /** The rows an insertion really adds: the first of each offset not held yet. */
  function Fresh(held: Streams, rows: seq<Row>): seq<Row>
    decreases |rows|
  {
    if rows == [] then [] else
    var front, r := rows[..|rows| - 1], rows[|rows| - 1];
    Fresh(held, front) + Unheld(InsertAll(held, front), r)
  }

  function Unheld(held: Streams, r: Row): seq<Row> {
    if Holds(held, r) then [] else [r]
  }

  function Lowered(m: Edges, p: int, o: int): Edges { m[p := if p in m then Min(m[p], o) else o] }

  function Raised(m: Edges, p: int, o: int): Edges { m[p := if p in m then Max(m[p], o) else o] }

  function Lowest(rows: seq<Row>): Edges
    decreases |rows|
  {
    if rows == [] then map[] else
    Lowered(Lowest(rows[..|rows| - 1]), rows[|rows| - 1].partition, rows[|rows| - 1].offset)
  }

  function Highest(rows: seq<Row>): Edges
    decreases |rows|
  {
    if rows == [] then map[] else
    Raised(Highest(rows[..|rows| - 1]), rows[|rows| - 1].partition, rows[|rows| - 1].offset)
  }

  function PastEach(m: Edges): Edges {
    map p | p in m :: m[p] + 1
  }

  /** One past the highest offset, per partition. */
  function PastHighest(rows: seq<Row>): Edges {
    PastEach(Highest(rows))
  }

  lemma InsertAppend(held: Streams, rows: seq<Row>, r: Row)
    ensures InsertAll(held, rows + [r]) == InsertOne(InsertAll(held, rows), r)
    ensures Fresh(held, rows + [r]) == Fresh(held, rows) + Unheld(InsertAll(held, rows), r)
  {
    assert (rows + [r])[..|rows|] == rows;
  }

  lemma EdgesAppend(added: seq<Row>, r: Row)
    ensures Lowest(added + [r]) == Lowered(Lowest(added), r.partition, r.offset)
    ensures Highest(added + [r]) == Raised(Highest(added), r.partition, r.offset)
  {
    assert (added + [r])[..|added|] == added;
  }

  lemma {:induction false} LowestIsLeast(rows: seq<Row>)
    ensures forall p :: p in Lowest(rows) <==> exists r :: r in rows && r.partition == p
    ensures forall p | p in Lowest(rows) :: exists r :: r in rows && r.partition == p && r.offset == Lowest(rows)[p]
    ensures forall r | r in rows :: Lowest(rows)[r.partition] <= r.offset
    decreases |rows|
  {
    if rows != [] {
      var front, r := rows[..|rows| - 1], rows[|rows| - 1];
      LowestIsLeast(front);
      assert forall x :: x in rows <==> x in front || x == r;
    }
  }

  lemma {:induction false} HighestIsGreatest(rows: seq<Row>)
    ensures forall p :: p in Highest(rows) <==> exists r :: r in rows && r.partition == p
    ensures forall p | p in Highest(rows) :: exists r :: r in rows && r.partition == p && r.offset == Highest(rows)[p]
    ensures forall r | r in rows :: r.offset <= Highest(rows)[r.partition]
    decreases |rows|
  {
    if rows != [] {
      var front, r := rows[..|rows| - 1], rows[|rows| - 1];
      HighestIsGreatest(front);
      assert forall x :: x in rows <==> x in front || x == r;
    }
  }

  /** Inserting at the lower bound keeps a lane in order and adds one row. */
  lemma InsertSortedAdds(arr: seq<Row>, r: Row)
    requires Ascending(arr) && forall i | 0 <= i < |arr| :: arr[i].offset != r.offset
    ensures Ascending(InsertSorted(arr, r))
    ensures ToSet(InsertSorted(arr, r)) == ToSet(arr) + {r}
  {
    var i := LowerBound(arr, r.offset);
    var arr' := InsertSorted(arr, r);
    forall x ensures x in arr' <==> x in arr || x == r { SplicedMembers(arr, i, r, x); }
  }

  lemma SplicedMembers(arr: seq<Row>, i: nat, r: Row, x: Row)
    requires i <= |arr|
    ensures x in arr[..i] + [r] + arr[i..] <==> x in arr || x == r
  {
    assert arr == arr[..i] + arr[i..];
  }

  lemma InsertOneWellFormed(held: Streams, r: Row)
    requires WellFormed(held)
    ensures WellFormed(InsertOne(held, r))
  {
    if !Holds(held, r) {
      forall p ensures LaneOk(InsertOne(held, r), p) {
        assert LaneOk(held, p);
        if p == r.partition { InsertSortedAdds(At(held, p), r); }
      }
    }
  }

  lemma InsertOneAdds(held: Streams, r: Row, p: int)
    requires WellFormed(held)
    ensures ToSet(At(InsertOne(held, r), p)) ==
            ToSet(At(held, p)) + ToSet(Lane(Unheld(held, r), p))
  {
    LaneMembers(Unheld(held, r), p);
    assert LaneOk(held, r.partition);
    if !Holds(held, r) { InsertSortedAdds(At(held, r.partition), r); }
  }

  lemma {:induction false} InsertAllWellFormed(held: Streams, rows: seq<Row>)
    requires WellFormed(held)
    ensures WellFormed(InsertAll(held, rows))
    decreases |rows|
  {
    if rows != [] {
      InsertAllWellFormed(held, rows[..|rows| - 1]);
      InsertOneWellFormed(InsertAll(held, rows[..|rows| - 1]), rows[|rows| - 1]);
    }
  }

  lemma AddsStep(a: Streams, b: Streams, c: Streams, f: seq<Row>, tail: seq<Row>, p: int)
    requires ToSet(At(b, p)) == ToSet(At(a, p)) + ToSet(Lane(f, p))
    requires ToSet(At(c, p)) == ToSet(At(b, p)) + ToSet(Lane(tail, p))
    ensures ToSet(At(c, p)) == ToSet(At(a, p)) + ToSet(Lane(f + tail, p))
  {
    LaneAppend(f, tail, p);
  }

  /** Insertion adds exactly the fresh rows, whatever their order. */
  lemma {:induction false} InsertAllAdds(held: Streams, rows: seq<Row>, p: int)
    requires WellFormed(held)
    ensures ToSet(At(InsertAll(held, rows), p)) == ToSet(At(held, p)) + ToSet(Lane(Fresh(held, rows), p))
    decreases |rows|
  {
    if rows != [] {
      var front, r := rows[..|rows| - 1], rows[|rows| - 1];
      InsertAllAdds(held, front, p);
      InsertAllWellFormed(held, front);
      var h := InsertAll(held, front);
      InsertOneAdds(h, r, p);
      AddsStep(held, h, InsertOne(h, r), Fresh(held, front), Unheld(h, r), p);
    }
  }

  lemma {:induction false} InsertAllHolds(held: Streams, rows: seq<Row>)
    requires WellFormed(held)
    ensures forall r | r in Fresh(held, rows) :: r in rows && !Holds(held, r)
    ensures forall r | r in rows :: Holds(InsertAll(held, rows), r)
    decreases |rows|
  {
    if rows != [] {
      var front, r := rows[..|rows| - 1], rows[|rows| - 1];
      InsertAllHolds(held, front);
      InsertAllAdds(held, front, r.partition);
      InsertAllWellFormed(held, front);
      var h := InsertAll(held, front);
      HoldsMonotone(held, h, r);
      forall x | x in rows ensures Holds(InsertAll(held, rows), x) {
        assert x in front || x == r;
        HoldsGrows(h, r, x);
      }
    }
  }

  lemma HoldsGrows(h: Streams, r: Row, x: Row)
    requires WellFormed(h)
    requires Holds(h, x) || x == r
    ensures Holds(InsertOne(h, r), x)
  {
    InsertOneAdds(h, r, x.partition);
    var arr, arr' := At(h, x.partition), At(InsertOne(h, r), x.partition);
    if Holds(h, x) {
      var i :| 0 <= i < |arr| && arr[i].offset == x.offset;
      assert arr[i] in ToSet(arr');
    } else {
      assert x in ToSet(arr');
    }
  }

  lemma HoldsMonotone(a: Streams, b: Streams, r: Row)
    requires ToSet(At(a, r.partition)) <= ToSet(At(b, r.partition))
    ensures Holds(a, r) ==> Holds(b, r)
  {
    if Holds(a, r) {
      var i :| 0 <= i < |At(a, r.partition)| && At(a, r.partition)[i].offset == r.offset;
      assert At(a, r.partition)[i] in ToSet(At(b, r.partition));
    }
  }

  ghost predicate Grounded(held: Streams, log: set<Row>) {
    forall p :: ToSet(At(held, p)) <= log
  }

  /** The delivered rows of `p` the window does not hold yet. */
  ghost function NewAt(held: Streams, rows: seq<Row>, p: int): set<Row> {
    ToSet(Lane(rows, p)) - ToSet(At(held, p))
  }

  lemma FreshRow(held: Streams, rows: seq<Row>, log: set<Row>, r: Row)
    requires WellFormed(held) && Keyed(log) && Grounded(held, log) && ToSet(rows) <= log && r in rows
    ensures r in Fresh(held, rows) || r in At(held, r.partition)
  {
    var p, h := r.partition, InsertAll(held, rows);
    InsertAllWellFormed(held, rows);
    InsertAllAdds(held, rows, p);
    InsertAllHolds(held, rows);
    LaneMembers(Fresh(held, rows), p);
    var i :| 0 <= i < |At(h, p)| && At(h, p)[i].offset == r.offset;
    var x := At(h, p)[i];
    assert LaneOk(h, p);
    assert x in ToSet(At(h, p)) && x in log && r in ToSet(rows);
    assert x == r;
  }

  /** Inside one log the fresh rows are the delivered rows not held yet. */
  lemma FreshIsNew(held: Streams, rows: seq<Row>, log: set<Row>, p: int)
    requires WellFormed(held) && Keyed(log) && Grounded(held, log) && ToSet(rows) <= log
    ensures ToSet(Lane(Fresh(held, rows), p)) == NewAt(held, rows, p)
    ensures ToSet(At(InsertAll(held, rows), p)) == ToSet(At(held, p)) + NewAt(held, rows, p)
  {
    InsertAllAdds(held, rows, p);
    InsertAllHolds(held, rows);
    LaneMembers(rows, p);
    LaneMembers(Fresh(held, rows), p);
    forall r | r in Lane(rows, p) ensures r in Fresh(held, rows) <==> r !in At(held, p) {
      FreshRow(held, rows, log, r);
      assert r in At(held, p) ==> Holds(held, r);
    }
  }

  function Entry(m: Edges, p: int): Option<int> { if p in m then Some(m[p]) else None }

  /** `lo` is the lowest offset of `n` and `hi` one past its highest. */
  ghost predicate EdgesOf(n: set<Row>, lo: Option<int>, hi: Option<int>) {
    && (lo.Some? <==> n != {}) && (hi.Some? <==> n != {})
    && (n != {} ==> (exists r :: r in n && r.offset == lo.value) && (exists r :: r in n && r.offset + 1 == hi.value))
    && (forall r | r in n :: lo.value <= r.offset < hi.value)
  }

  /** The edges a page derives from its rows, partition by partition. */
  lemma NewEdges(held: Streams, rows: seq<Row>, log: set<Row>, p: int)
    requires WellFormed(held) && Keyed(log) && Grounded(held, log) && ToSet(rows) <= log
    ensures EdgesOf(NewAt(held, rows, p), Entry(Lowest(Fresh(held, rows)), p), Entry(PastHighest(Fresh(held, rows)), p))
  {
    var added := Fresh(held, rows);
    FreshIsNew(held, rows, log, p);
    LaneMembers(added, p);
    LowestIsLeast(added);
    HighestIsGreatest(added);
    assert forall r :: r in NewAt(held, rows, p) <==> r in Lane(added, p);
    if p in Lowest(added) {
      var r :| r in added && r.partition == p && r.offset == Lowest(added)[p];
      assert r in NewAt(held, rows, p);
    }
    if p in PastHighest(added) {
      var r :| r in added && r.partition == p && r.offset == Highest(added)[p];
      assert r in NewAt(held, rows, p);
    }
  }

  // ---- edge maps ------------------------------------------------------------

  /** Keeps every entry of `m` and adds those of `seed` it lacks. */
  function Fill(m: Edges, seed: Edges): Edges { seed + m }

  function Lower(m: Edges, n: Edges): Edges {
    map p | p in m.Keys + n.Keys ::
      if p in m && p in n then Min(m[p], n[p]) else if p in m then m[p] else n[p]
  }

  function Raise(m: Edges, n: Edges): Edges {
    map p | p in m.Keys + n.Keys ::
      if p in m && p in n then Max(m[p], n[p]) else if p in m then m[p] else n[p]
  }

  predicate IsStale(w: Window, direction: Direction, start: Option<Edges>) {
    start.Some? &&
    match direction
    case Back => exists p | p in start.value && p in w.bottom :: start.value[p] < w.bottom[p]
    case Forward => exists p | p in start.value && p in w.top :: w.top[p] < start.value[p]
  }

  /** What an accepted page does to the edges, given the lowest offsets it added
      and one past the highest. */
  function Moved(w: Window, lo: Edges, hi: Edges, direction: Direction, anchored: bool,
                 cursor: Option<Edges>, attach: bool): Window {
    match direction
    case Back =>
      var bottom := Lower(w.bottom, lo);
      w.(bottom := if cursor.Some? then bottom + cursor.value else bottom,
         top := if anchored then Fill(w.top, hi) else w.top,
         attached := w.attached || (anchored && attach),
         historical := w.historical || (anchored && !attach))
    case Forward =>
      var top := Raise(w.top, hi);
      w.(bottom := if anchored then Fill(w.bottom, lo) else w.bottom,
         top := if cursor.Some? then top + cursor.value else top,
         attached := w.attached || cursor.None?)
  }

  /** A page merged in, before the size limit is enforced. */
  function WithPage(w: Window, rows: seq<Row>, direction: Direction, start: Option<Edges>,
                    cursor: Option<Edges>, attach: bool): Window {
    var added := Fresh(w.held, rows);
    Moved(w.(held := InsertAll(w.held, rows)), Lowest(added), PastHighest(added), direction, start.None?, cursor,
        attach)
  }

  function KeepsBottom(w: Window, r: Row): bool {
    r.partition in w.bottom ==> w.bottom[r.partition] <= r.offset
  }

  function Safe(w: Window, rows: seq<Row>): seq<Row>
    decreases |rows|
  {
    if rows == [] then [] else
    Safe(w, rows[..|rows| - 1]) + (if KeepsBottom(w, rows[|rows| - 1]) then [rows[|rows| - 1]] else [])
  }

  lemma {:induction false} SafeMembers(w: Window, rows: seq<Row>)
    ensures forall r :: r in Safe(w, rows) <==> r in rows && KeepsBottom(w, r)
    decreases |rows|
  {
    if rows != [] {
      SafeMembers(w, rows[..|rows| - 1]);
      assert forall r :: r in rows <==> r in rows[..|rows| - 1] || r == rows[|rows| - 1];
    }
  }

  /** Live rows merged in, before the size limit is enforced. */
  function WithLive(w: Window, rows: seq<Row>): Window {
    var safe := Safe(w, rows);
    w.(held := InsertAll(w.held, safe), top := Raise(w.top, PastHighest(Fresh(w.held, safe))))
  }

  // ---- the size limit -------------------------------------------------------

  /** Every lane has room for its share of `newest`. */
  ghost predicate Holding(held: Streams, newest: seq<Row>) {
    forall p :: Share(newest, p) <= |At(held, p)|
  }

  /** Where each lane splits when the rows `newest` are told apart from the rest. */
  function Cuts(held: Streams, newest: seq<Row>): (cuts: map<int, nat>)
    requires Holding(held, newest)
    ensures CutsOf(held, cuts)
  {
    map p | p in held :: |At(held, p)| - Share(newest, p)
  }

  function CutAt(cuts: map<int, nat>, p: int): nat {
    if p in cuts then cuts[p] else 0
  }

  predicate CutsOf(held: Streams, cuts: map<int, nat>) {
    cuts.Keys == held.Keys && forall p | p in held :: CutAt(cuts, p) <= |At(held, p)|
  }

  /** The top edge a top trim plants: the lowest offset cut away, or one past the
      newest row of a lane it did not touch. */
  function TopEdge(held: Streams, cuts: map<int, nat>, p: int): int
    requires CutsOf(held, cuts) && At(held, p) != []
  {
    var arr, i := At(held, p), CutAt(cuts, p);
    if i < |arr| then arr[i].offset else arr[|arr| - 1].offset + 1
  }

  /** The bottom edge a bottom trim plants: one past the highest offset cut away. */
  function BottomEdge(held: Streams, cuts: map<int, nat>, p: int): int
    requires CutsOf(held, cuts) && 0 < CutAt(cuts, p)
  {
    At(held, p)[CutAt(cuts, p) - 1].offset + 1
  }

  function PlantTop(top: Edges, held: Streams, cuts: map<int, nat>, ps: set<int>): Edges
    requires CutsOf(held, cuts)
  {
    top + map p | p in held && At(held, p) != [] && p in ps :: TopEdge(held, cuts, p)
  }

  function PlantBottom(bottom: Edges, held: Streams, cuts: map<int, nat>, ps: set<int>): Edges
    requires CutsOf(held, cuts)
  {
    bottom + map p | p in held && 0 < CutAt(cuts, p) && p in ps :: BottomEdge(held, cuts, p)
  }

  function LanesBelow(held: Streams, cuts: map<int, nat>): Streams
    requires CutsOf(held, cuts)
  {
    map p | p in held && 0 < CutAt(cuts, p) :: At(held, p)[..CutAt(cuts, p)]
  }

  function LanesFrom(held: Streams, cuts: map<int, nat>): Streams
    requires CutsOf(held, cuts)
  {
    map p | p in held && CutAt(cuts, p) < |At(held, p)| :: At(held, p)[CutAt(cuts, p)..]
  }

  /** Each lane's rows from its cut on go; every held partition gets a top edge. */
  function CutTop(w: Window, cuts: map<int, nat>): Window
    requires CutsOf(w.held, cuts)
  {
    w.(held := LanesBelow(w.held, cuts),
       top := PlantTop(w.top, w.held, cuts, w.held.Keys),
       attached := false)
  }

  /** Each lane's rows before its cut go; every trimmed partition gets a bottom edge. */
  function CutBottom(w: Window, cuts: map<int, nat>): Window
    requires CutsOf(w.held, cuts)
  {
    w.(held := LanesFrom(w.held, cuts),
       bottom := PlantBottom(w.bottom, w.held, cuts, w.held.Keys))
  }

  /** Every prefix of `merged` fits the lanes. */
  ghost predicate AllFit(held: Streams, merged: seq<Row>) {
    forall k | 0 <= k <= |merged| :: Holding(held, merged[..k])
  }

  lemma DisplayFits(held: Streams)
    requires WellFormed(held)
    ensures AllFit(held, Display(held))
  {
    NewestIsLabelled(held);
    forall k, p | 0 <= k <= |Display(held)| ensures Share(Display(held)[..k], p) <= |At(held, p)| {
      ShareBound(NEWEST_FIRST, Newest(held), k, p);
    }
  }

  /** The `k` newest rows dropped. */
  function TrimTop(w: Window, merged: seq<Row>, k: nat): Window
    requires Holding(w.held, merged[..Min(k, |merged|)])
  {
    CutTop(w, Cuts(w.held, merged[..Min(k, |merged|)]))
  }

  /** Only the `k` newest rows kept. */
  function TrimBottom(w: Window, merged: seq<Row>, k: nat): Window
    requires Holding(w.held, merged[..Min(k, |merged|)])
  {
    CutBottom(w, Cuts(w.held, merged[..Min(k, |merged|)]))
  }

  ghost function CappedBy(w: Window, merged: seq<Row>, cap: nat, grew: Direction): Window
    requires AllFit(w.held, merged)
  {
    if |merged| <= cap then w
    else if grew.Back? then TrimTop(w, merged, |merged| - cap)
    else TrimBottom(w, merged, cap)
  }

  /** At most `cap` rows kept, dropping them from the end opposite to the one that grew. */
  ghost function Capped(w: Window, cap: nat, grew: Direction): Window
    requires WellFormed(w.held)
  {
    DisplayFits(w.held);
    CappedBy(w, Display(w.held), cap, grew)
  }

  ghost function AfterPage(w: Window, cap: nat, rows: seq<Row>, direction: Direction,
                           start: Option<Edges>, cursor: Option<Edges>, attach: bool): Window
    requires WellFormed(w.held)
  {
    if IsStale(w, direction, start) then w else
    InsertAllWellFormed(w.held, rows);
    Capped(WithPage(w, rows, direction, start, cursor, attach), cap, direction)
  }

  ghost function AfterLive(w: Window, cap: nat, rows: seq<Row>): Window
    requires WellFormed(w.held)
  {
    if !w.attached then w else
    InsertAllWellFormed(w.held, Safe(w, rows));
    Capped(WithLive(w, rows), cap, Forward)
  }

  /** The positions a page in each direction is requested with, if any. */
  function BottomCursor(w: Window): Option<Edges> {
    if w.bottom == map[] then None else Some(w.bottom)
  }

  function TopCursor(w: Window): Option<Edges> {
    if w.attached || w.top == map[] || (w.historical && !(w.bottom.Keys <= w.top.Keys)) then None
    else Some(w.top)
  }
}
