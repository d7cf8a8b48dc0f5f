/**
 * The ground a page goes over: which records lie between two sets of positions, and
 * what one chunk contributes.
 */
module PageGround {
  import opened Rows
  import opened MergeOrder
  import opened PageWindows
  import opened PollScan
  import opened OffsetOrder
  import opened ChunkMerge
  import opened PageAdvance
  import opened DisplayOrder

  predicate CrossedBy(direction: Direction, a: Position, b: Position, r: Row) {
    r.partition == a.partition &&
    if direction.Back? then b.offset <= r.offset < a.offset else a.offset <= r.offset < b.offset
  }

  predicate Crosses(direction: Direction, before: seq<Position>, after: seq<Position>, r: Row) {
    exists i | 0 <= i < |before| && i < |after| :: CrossedBy(direction, before[i], after[i], r)
  }

  ghost function Covered(log: set<Row>, direction: Direction, before: seq<Position>, after: seq<Position>): set<Row> {
    set r | r in log && Crosses(direction, before, after, r)
  }

  /** The matching records between two sets of positions. */
  ghost function Found(log: set<Row>, keep: Row -> bool, direction: Direction, before: seq<Position>,
                       after: seq<Position>): set<Row>
  {
    set r | r in log && keep(r) && Crosses(direction, before, after, r)
  }

  predicate Steps(direction: Direction, before: seq<Position>, after: seq<Position>) {
    |before| == |after| && forall i | 0 <= i < |before| ::
      after[i].partition == before[i].partition && Onward(direction, before[i].offset, after[i].offset)
  }

  predicate Once(s: seq<Row>) {
    forall i, j | 0 <= i < j < |s| :: s[i] != s[j]
  }

  lemma StepsTrans(direction: Direction, a: seq<Position>, b: seq<Position>, c: seq<Position>)
    requires Steps(direction, a, b) && Steps(direction, b, c)
    ensures Steps(direction, a, c)
  {}

  lemma StepsDistinct(direction: Direction, a: seq<Position>, b: seq<Position>)
    requires Steps(direction, a, b) && Distinct(a)
    ensures Distinct(b)
  {}

  /** Going on from where the last stretch ended goes over new ground only. */
  lemma CrossesChain(direction: Direction, a: seq<Position>, b: seq<Position>, c: seq<Position>, r: Row)
    requires Distinct(a) && Steps(direction, a, b) && Steps(direction, b, c)
    ensures Crosses(direction, a, c, r) <==> Crosses(direction, a, b, r) || Crosses(direction, b, c, r)
    ensures Crosses(direction, a, b, r) ==> !Crosses(direction, b, c, r)
  {
    if Crosses(direction, a, c, r) {
      var i :| 0 <= i < |a| && i < |c| && CrossedBy(direction, a[i], c[i], r);
      assert CrossedBy(direction, a[i], b[i], r) || CrossedBy(direction, b[i], c[i], r);
    }
    if Crosses(direction, a, b, r) {
      var i :| 0 <= i < |a| && i < |b| && CrossedBy(direction, a[i], b[i], r);
      assert CrossedBy(direction, a[i], c[i], r);
      forall j | 0 <= j < |b| && j < |c| ensures !CrossedBy(direction, b[j], c[j], r) {}
    }
    if Crosses(direction, b, c, r) {
      var i :| 0 <= i < |b| && i < |c| && CrossedBy(direction, b[i], c[i], r);
      assert CrossedBy(direction, a[i], c[i], r);
    }
  }

  lemma {:induction false} ChargeChain(direction: Direction, a: seq<Position>, b: seq<Position>, c: seq<Position>)
    requires Steps(direction, a, b) && Steps(direction, b, c)
    ensures ChargeBudget(a, c) == ChargeBudget(a, b) + ChargeBudget(b, c)
  {
    if a != [] { ChargeChain(direction, a[1..], b[1..], c[1..]); }
  }

  lemma {:induction false} ChargeNothing(a: seq<Position>)
    ensures ChargeBudget(a, a) == 0
  {
    if a != [] { ChargeNothing(a[1..]); }
  }

  lemma ChargeZero(direction: Direction, before: seq<Position>, after: seq<Position>)
    requires Steps(direction, before, after) && ChargeBudget(before, after) == 0
    ensures after == before
  {
    forall i | 0 <= i < |before| ensures after[i] == before[i] { ChargeMoved(before, after, i); }
  }

  /** Two stretches in a row, and what was found on each. */
  lemma FoundChain(log: set<Row>, keep: Row -> bool, direction: Direction, a: seq<Position>, b: seq<Position>,
                   c: seq<Position>, s: seq<Row>, t: seq<Row>)
    requires Distinct(a) && Steps(direction, a, b) && Steps(direction, b, c)
    requires Once(s) && ToSet(s) == Found(log, keep, direction, a, b)
    requires Once(t) && ToSet(t) == Found(log, keep, direction, b, c)
    ensures Once(s + t) && ToSet(s + t) == Found(log, keep, direction, a, c)
  {
    forall r ensures r in s + t <==> r in Found(log, keep, direction, a, c) {
      CrossesChain(direction, a, b, c, r);
      assert r in s <==> r in ToSet(s);
      assert r in t <==> r in ToSet(t);
    }
    forall i, j | 0 <= i < |s| && 0 <= j < |t| ensures s[i] != t[j] {
      CrossesChain(direction, a, b, c, s[i]);
      assert s[i] in ToSet(s) && t[j] in ToSet(t);
    }
  }

  /** The second stretch lies beyond the first, so each partition keeps moving away. */
  lemma OutwardChain(log: set<Row>, keep: Row -> bool, direction: Direction, a: seq<Position>, b: seq<Position>,
                     c: seq<Position>, s: seq<Row>, t: seq<Row>)
    requires Distinct(a) && Steps(direction, a, b) && Steps(direction, b, c)
    requires LanesOutward(s, direction) && ToSet(s) == Found(log, keep, direction, a, b)
    requires LanesOutward(t, direction) && ToSet(t) == Found(log, keep, direction, b, c)
    ensures LanesOutward(s + t, direction)
  {
    forall p ensures Outward(direction, Lane(s + t, p)) {
      LaneAppend(s, t, p);
      assert Outward(direction, Lane(s, p)) && Outward(direction, Lane(t, p));
      forall q, r | q in Lane(s, p) && r in Lane(t, p) ensures Farther(direction, q, r) {
        LaneMembers(s, p);
        LaneMembers(t, p);
        assert q in ToSet(s) && r in ToSet(t) && q.partition == r.partition;
        BeyondCrossed(direction, a, b, c, q, r);
      }
      OutwardJoin(direction, Lane(s, p), Lane(t, p));
    }
  }

  predicate Farther(direction: Direction, near: Row, far: Row) {
    if direction.Back? then far.offset < near.offset else near.offset < far.offset
  }

  lemma BeyondCrossed(direction: Direction, a: seq<Position>, b: seq<Position>, c: seq<Position>, q: Row, r: Row)
    requires Distinct(a) && Steps(direction, a, b) && Steps(direction, b, c) && q.partition == r.partition
    requires Crosses(direction, a, b, q) && Crosses(direction, b, c, r)
    ensures Farther(direction, q, r)
  {
    var i :| 0 <= i < |a| && i < |b| && CrossedBy(direction, a[i], b[i], q);
    var j :| 0 <= j < |b| && j < |c| && CrossedBy(direction, b[j], c[j], r);
    assert a[i].partition == a[j].partition;
  }

  lemma OutwardJoin(direction: Direction, s: seq<Row>, t: seq<Row>)
    requires Outward(direction, s) && Outward(direction, t)
    requires forall q, r | q in s && r in t :: Farther(direction, q, r)
    ensures Outward(direction, s + t)
  {
    var all := s + t;
    forall i, j | 0 <= i < j < |all| ensures Farther(direction, all[i], all[j]) {
      if i < |s| <= j { assert all[i] in s && all[j] in t; }
    }
  }

  lemma FoundNothing(log: set<Row>, keep: Row -> bool, direction: Direction, a: seq<Position>)
    ensures Found(log, keep, direction, a, a) == {} && Steps(direction, a, a)
  {}

  // ---- what a chunk takes ---------------------------------------------------------

  lemma WindowOf(windows: seq<PartitionRange>, cur: seq<Position>, marks: seq<Mark>, direction: Direction,
                 pos: Position, i: nat)
    requires PlanOk(windows, cur, marks, direction) && Distinct(cur) && pos in cur
    requires i < |windows| && windows[i].partition == pos.partition
    ensures NextTo(windows[i], pos, marks, direction)
  {
    assert windows[i] in windows;
    var q :| q in cur && NextTo(windows[i], q, marks, direction);
    assert q == pos;
  }

  lemma CurAdvances(log: set<Row>, windows: seq<PartitionRange>, marks: seq<Mark>, direction: Direction,
                    fetched: seq<seq<Row>>, popped: seq<Row>, end: ChunkEnd, cur: seq<Position>, i: nat)
    requires ChunkOk(log, windows, direction, fetched, popped, end)
    requires PlanOk(windows, cur, marks, direction) && AllInRange(cur, marks) && Distinct(cur) && i < |cur|
    ensures Advanced(log, windows, direction, popped, cur[i], AdvancePositions(cur, windows, end, direction)[i])
    ensures InRange(AdvancePositions(cur, windows, end, direction)[i], marks)
  {
    forall j | 0 <= j < |windows| && windows[j].partition == cur[i].partition
      ensures NextTo(windows[j], cur[i], marks, direction)
    {
      WindowOf(windows, cur, marks, direction, cur[i], j);
    }
    assert InRange(cur[i], marks);
    PositionAdvances(log, windows, marks, direction, fetched, popped, end, cur[i]);
  }

  /** A record taken belongs to a partition that has a window, hence a position. */
  lemma PoppedTracked(log: set<Row>, windows: seq<PartitionRange>, marks: seq<Mark>, direction: Direction,
                      fetched: seq<seq<Row>>, popped: seq<Row>, end: ChunkEnd, cur: seq<Position>, r: Row)
    requires ChunkOk(log, windows, direction, fetched, popped, end) && PlanOk(windows, cur, marks, direction)
    requires r in popped
    ensures Tracks(cur, r.partition)
  {
    StreamsParallel(log, windows, direction, end.isComplete, fetched);
    StreamSplits(Order(Server, direction), windows, fetched, popped, end.streams, r.partition);
    LaneMembers(popped, r.partition);
    var i := IndexOf(windows, r.partition);
    assert i.Some?;
    assert windows[i.value] in windows;
    var q :| q in cur && NextTo(windows[i.value], q, marks, direction);
    var j :| 0 <= j < |cur| && cur[j] == q;
  }

  lemma LanesAreOutward(log: set<Row>, windows: seq<PartitionRange>, direction: Direction, fetched: seq<seq<Row>>,
                        popped: seq<Row>, end: ChunkEnd)
    requires ChunkOk(log, windows, direction, fetched, popped, end)
    ensures LanesOutward(popped, direction)
  {
    StreamsParallel(log, windows, direction, end.isComplete, fetched);
    forall p ensures Outward(direction, Lane(popped, p)) {
      StreamSplits(Order(Server, direction), windows, fetched, popped, end.streams, p);
      var i := IndexOf(windows, p);
      if i.Some? {
        assert StreamOk(log, windows[i.value], direction, end.isComplete[i.value], fetched[i.value]);
        FrontOutward(direction, Lane(popped, p), StreamAt(windows, end.streams, p));
      }
    }
  }

  lemma FrontOutward(direction: Direction, front: seq<Row>, back: seq<Row>)
    requires Outward(direction, front + back)
    ensures Outward(direction, front)
  {
    forall i, j | 0 <= i < j < |front|
      ensures if direction.Back? then front[j].offset < front[i].offset else front[i].offset < front[j].offset
    {
      assert (front + back)[i] == front[i] && (front + back)[j] == front[j];
    }
  }

  /** A record at index `j` can't have come up before it in a lane that only moves away. */
  lemma OnceByLanes(s: seq<Row>, direction: Direction)
    requires LanesOutward(s, direction)
    ensures Once(s)
  {
    forall i, j | 0 <= i < j < |s| ensures s[i] != s[j] {
      var p := s[j].partition;
      LaneMembers(s[..j], p);
      LaneNext(s, j, p);
      LaneAppend(s[..j + 1], s[j + 1..], p);
      assert s == s[..j + 1] + s[j + 1..];
      assert Outward(direction, Lane(s, p));
      assert s[i] in s[..j];
      FrontOutward(direction, Lane(s[..j], p) + [s[j]], Lane(s[j + 1..], p));
      NotBefore(direction, Lane(s[..j], p), s[j]);
    }
  }

  lemma NotBefore(direction: Direction, front: seq<Row>, r: Row)
    requires Outward(direction, front + [r])
    ensures r !in front
  {
    forall i | 0 <= i < |front| ensures front[i] != r {
      assert (front + [r])[i] == front[i] && (front + [r])[|front|] == r;
    }
  }

  lemma {:induction false} MatchingMembers(keep: Row -> bool, s: seq<Row>, r: Row)
    ensures r in Matching(keep, s) <==> r in s && keep(r)
  {
    if s != [] {
      MatchingMembers(keep, s[..|s| - 1], r);
      assert s == s[..|s| - 1] + [s[|s| - 1]];
    }
  }

  lemma {:induction false} MatchingLane(keep: Row -> bool, s: seq<Row>, p: int)
    ensures Lane(Matching(keep, s), p) == Matching(keep, Lane(s, p))
  {
    if s != [] {
      var front, r := s[..|s| - 1], s[|s| - 1];
      MatchingLane(keep, front, p);
      LaneLast(front, r, p);
      assert s == front + [r];
      if keep(r) { LaneLast(Matching(keep, front), r, p); }
      if r.partition == p { TakeNext(keep, Lane(front, p), r, 0, 0, 0); }
      assert Matching(keep, front) + [] == Matching(keep, front);
    }
  }

  lemma {:induction false} MatchingOutward(keep: Row -> bool, s: seq<Row>, direction: Direction)
    requires Outward(direction, s)
    ensures Outward(direction, Matching(keep, s))
  {
    if s != [] {
      var front, r := s[..|s| - 1], s[|s| - 1];
      MatchingOutward(keep, front, direction);
      forall i | 0 <= i < |Matching(keep, front)|
        ensures if direction.Back? then r.offset < Matching(keep, front)[i].offset
          else Matching(keep, front)[i].offset < r.offset
      {
        var x := Matching(keep, front)[i];
        assert x in Matching(keep, front);
        MatchingMembers(keep, front, x);
        var j :| 0 <= j < |front| && front[j] == x;
      }
    }
  }

  /** The matches shown for a chunk are the matching records it went over, each once. */
  lemma ShownIsFound(log: set<Row>, keep: Row -> bool, direction: Direction, before: seq<Position>,
                     after: seq<Position>, popped: seq<Row>)
    requires LanesOutward(popped, direction) && ToSet(popped) == Covered(log, direction, before, after)
    ensures Once(Displayed(Matching(keep, popped), direction))
    ensures LanesOutward(Displayed(Matching(keep, popped), direction), direction)
    ensures ToSet(Displayed(Matching(keep, popped), direction)) == Found(log, keep, direction, before, after)
    ensures |Displayed(Matching(keep, popped), direction)| == |Matching(keep, popped)|
  {
    var matches := Matching(keep, popped);
    var out := Displayed(matches, direction);
    forall p ensures Outward(direction, Lane(out, p)) {
      assert Outward(direction, Lane(popped, p));
      MatchingLane(keep, popped, p);
      MatchingOutward(keep, Lane(popped, p), direction);
      DisplayLanes(matches, direction, p);
      SortThenFace(direction, Lane(matches, p));
    }
    OnceByLanes(out, direction);
    DisplayPermutes(matches, direction);
    assert |multiset(out)| == |multiset(matches)|;
    forall r ensures r in out <==> r in Found(log, keep, direction, before, after) {
      assert r in out <==> r in multiset(out);
      assert r in matches <==> r in multiset(matches);
      MatchingMembers(keep, popped, r);
      assert r in popped <==> r in ToSet(popped);
    }
  }

  lemma TakenIsCovered(log: set<Row>, windows: seq<PartitionRange>, marks: seq<Mark>, direction: Direction,
                       fetched: seq<seq<Row>>, popped: seq<Row>, end: ChunkEnd, cur: seq<Position>, new': seq<Position>)
    requires ChunkOk(log, windows, direction, fetched, popped, end)
    requires PlanOk(windows, cur, marks, direction) && |cur| == |new'|
    requires forall i | 0 <= i < |cur| :: Advanced(log, windows, direction, popped, cur[i], new'[i])
    ensures ToSet(popped) == Covered(log, direction, cur, new')
  {
    forall r ensures r in popped <==> r in Covered(log, direction, cur, new') {
      LaneMembers(popped, r.partition);
      if r in popped {
        PoppedTracked(log, windows, marks, direction, fetched, popped, end, cur, r);
        var i :| 0 <= i < |cur| && cur[i].partition == r.partition;
        assert Advanced(log, windows, direction, popped, cur[i], new'[i]);
        assert r in ToSet(Lane(popped, r.partition));
        assert CrossedBy(direction, cur[i], new'[i], r);
      }
      if r in Covered(log, direction, cur, new') {
        var i :| 0 <= i < |cur| && i < |new'| && CrossedBy(direction, cur[i], new'[i], r);
        assert Advanced(log, windows, direction, popped, cur[i], new'[i]);
        assert r in ToSet(Lane(popped, r.partition));
      }
    }
  }

  /** One chunk: the records taken are exactly the real ones the positions moved over,
      and the budget charged is at least their number and at most the plan's total. */
  lemma ChunkCovers(log: set<Row>, windows: seq<PartitionRange>, marks: seq<Mark>, direction: Direction,
                    fetched: seq<seq<Row>>, popped: seq<Row>, end: ChunkEnd, cur: seq<Position>)
    requires ChunkOk(log, windows, direction, fetched, popped, end)
    requires PlanOk(windows, cur, marks, direction) && AllInRange(cur, marks) && Distinct(cur)
    ensures var new' := AdvancePositions(cur, windows, end, direction);
      && Steps(direction, cur, new') && AllInRange(new', marks) && Distinct(new')
      && ToSet(popped) == Covered(log, direction, cur, new') && LanesOutward(popped, direction)
      && |popped| <= ChargeBudget(cur, new') <= Total(windows)
  {
    var new' := AdvancePositions(cur, windows, end, direction);
    forall i | 0 <= i < |cur|
      ensures Advanced(log, windows, direction, popped, cur[i], new'[i]) && InRange(new'[i], marks)
    {
      CurAdvances(log, windows, marks, direction, fetched, popped, end, cur, i);
    }
    StepsDistinct(direction, cur, new');
    TakenIsCovered(log, windows, marks, direction, fetched, popped, end, cur, new');
    LanesAreOutward(log, windows, direction, fetched, popped, end);
    ChargeFits(log, windows, marks, direction, fetched, popped, end, cur, new');
  }

  lemma ChargeFits(log: set<Row>, windows: seq<PartitionRange>, marks: seq<Mark>, direction: Direction,
                   fetched: seq<seq<Row>>, popped: seq<Row>, end: ChunkEnd, cur: seq<Position>, new': seq<Position>)
    requires ChunkOk(log, windows, direction, fetched, popped, end)
    requires PlanOk(windows, cur, marks, direction) && Distinct(cur) && |cur| == |new'|
    requires forall i | 0 <= i < |cur| :: Advanced(log, windows, direction, popped, cur[i], new'[i])
    ensures |popped| <= ChargeBudget(cur, new') <= Total(windows)
  {
    assert Moderate(windows, popped, cur, new') by {
      forall i | 0 <= i < |cur|
        ensures Share(popped, cur[i].partition) <= Distance(cur[i].offset, new'[i].offset) <=
          SpanFor(windows, cur[i].partition)
      {
        assert Advanced(log, windows, direction, popped, cur[i], new'[i]);
      }
    }
    ChargeModerate(windows, popped, cur, new');
    forall i | 0 <= i < |popped| ensures Tracks(cur, popped[i].partition) {
      PoppedTracked(log, windows, marks, direction, fetched, popped, end, cur, popped[i]);
    }
    ShareSumAll(popped, cur);
    forall i | 0 <= i < |windows| ensures windows[i].start < windows[i].end {
      assert StreamOk(log, windows[i], direction, end.isComplete[i], fetched[i]);
    }
    SpanSumWithin(windows, cur);
  }

  lemma NextPosition(windows: seq<PartitionRange>, cur: seq<Position>, marks: seq<Mark>, direction: Direction)
    returns (i: nat)
    requires PlanOk(windows, cur, marks, direction) && windows != []
    ensures i < |cur| && NextTo(windows[0], cur[i], marks, direction)
  {
    assert windows[0] in windows;
    var q :| q in cur && NextTo(windows[0], q, marks, direction);
    i :| 0 <= i < |cur| && cur[i] == q;
  }

  /** With nothing incomplete and nothing left over, every window's position moves. */
  lemma WholeChunkMoves(log: set<Row>, windows: seq<PartitionRange>, marks: seq<Mark>, direction: Direction,
                        fetched: seq<seq<Row>>, popped: seq<Row>, end: ChunkEnd, cur: seq<Position>)
    requires ChunkOk(log, windows, direction, fetched, popped, end) && windows != []
    requires PlanOk(windows, cur, marks, direction) && AllInRange(cur, marks) && Distinct(cur)
    requires end.isComplete[0] && end.streams[0] == []
    ensures 1 <= ChargeBudget(cur, AdvancePositions(cur, windows, end, direction))
  {
    var i := NextPosition(windows, cur, marks, direction);
    IndexOfOwn(windows, 0);
    WindowSplits(log, windows, direction, fetched, popped, end, 0);
    WindowAdvances(log, windows[0], direction, true, fetched[0], Lane(popped, windows[0].partition), end.streams[0]);
    ChargeMoved(cur, AdvancePositions(cur, windows, end, direction), i);
  }
}
