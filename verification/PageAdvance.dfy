/**
 * Committing a chunk: each position advances by exact offset, and the budget is
 * charged for the ground covered, however many records that ground holds.
 */
module PageAdvance {
  import opened Rows
  import opened MergeOrder
  import opened PageWindows
  import opened PollScan
  import opened OffsetOrder
  import opened ChunkMerge

  function NewOffset(direction: Direction, w: PartitionRange, complete: bool, drained: bool,
                     takenMin: Option<int>, takenMax: Option<int>, offset: int): int {
    if complete && drained then (if direction.Back? then w.start else w.end)
    else match direction
      case Back => if takenMin.Some? then takenMin.value else offset
      case Forward => if takenMax.Some? then takenMax.value + 1 else offset
  }

  /** What a chunk leaves behind, window by window. */
  datatype ChunkEnd = ChunkEnd(isComplete: seq<bool>, streams: seq<seq<Row>>, takenMin: seq<Option<int>>,
      takenMax: seq<Option<int>>)

  predicate Fits(windows: seq<PartitionRange>, end: ChunkEnd) {
    |end.isComplete| == |end.streams| == |end.takenMin| == |end.takenMax| == |windows|
  }

  function AdvanceOne(pos: Position, windows: seq<PartitionRange>, end: ChunkEnd, direction: Direction): Position
    requires Fits(windows, end)
  {
    var at := IndexOf(windows, pos.partition);
    if at.None? then pos else
    var i := at.value;
    pos.(offset := NewOffset(direction, windows[i], end.isComplete[i], end.streams[i] == [],
        end.takenMin[i], end.takenMax[i], pos.offset))
  }

  function AdvancePositions(positions: seq<Position>, windows: seq<PartitionRange>, end: ChunkEnd,
                            direction: Direction): (out: seq<Position>)
    requires Fits(windows, end)
    ensures |out| == |positions|
  {
    seq(|positions|, i requires 0 <= i < |positions| => AdvanceOne(positions[i], windows, end, direction))
  }

  function Distance(a: int, b: int): nat {
    if a < b then b - a else a - b
  }

  /** The offsets all positions moved over, holes included. */
  function ChargeBudget(before: seq<Position>, after: seq<Position>): nat {
    if before == [] || after == [] then 0 else
    Distance(before[0].offset, after[0].offset) + ChargeBudget(before[1..], after[1..])
  }

  // ---- one partition ------------------------------------------------------------

  predicate Onward(direction: Direction, from: int, to: int) {
    if direction.Back? then to <= from else from <= to
  }

  /** The last offset of an outward walk is its extreme one, and a walk of `k` records
      covers at least `k` offsets. */
  lemma {:induction false} WalkEnds(direction: Direction, w: PartitionRange, s: seq<Row>)
    requires s != [] && Outward(direction, s) && forall i | 0 <= i < |s| :: w.start <= s[i].offset < w.end
    ensures Lowest(s).Some? && Highest(s).Some?
    ensures direction.Back? ==> Lowest(s).value == s[|s| - 1].offset && |s| <= w.end - s[|s| - 1].offset
    ensures direction.Forward? ==> Highest(s).value == s[|s| - 1].offset && |s| <= s[|s| - 1].offset + 1 - w.start
  {
    if |s| == 1 {
      assert s[..0] == [];
    } else {
      WalkEnds(direction, w, s[..|s| - 1]);
    }
  }

  lemma NothingTaken()
    ensures Lowest([]) == None && Highest([]) == None
  {}

  /** Where a walk of the first `k` records of a stream leaves the position. */
  ghost function After(direction: Direction, w: PartitionRange, complete: bool, s: seq<Row>, k: nat): int
    requires k <= |s|
  {
    NewOffset(direction, w, complete, k == |s|, Lowest(s[..k]), Highest(s[..k]), Base(w, direction))
  }

  lemma InWindow(log: set<Row>, w: PartitionRange, direction: Direction, complete: bool, s: seq<Row>)
    requires StreamOk(log, w, direction, complete, s)
    ensures forall i | 0 <= i < |s| :: w.start <= s[i].offset < w.end && s[i] in log
  {
    forall i | 0 <= i < |s| ensures w.start <= s[i].offset < w.end && s[i] in log { assert s[i] in ToSet(s); }
  }

  lemma AfterBounds(log: set<Row>, w: PartitionRange, direction: Direction, complete: bool, s: seq<Row>, k: nat)
    requires StreamOk(log, w, direction, complete, s) && k <= |s|
    ensures w.start <= After(direction, w, complete, s, k) <= w.end
    ensures k <= Distance(Base(w, direction), After(direction, w, complete, s, k)) <= w.end - w.start
    ensures 0 < k || (complete && k == |s|) ==> After(direction, w, complete, s, k) != Base(w, direction)
  {
    InWindow(log, w, direction, complete, s);
    NothingTaken();
    if 0 < k { WalkEnds(direction, w, s[..k]); } else { assert s[..k] == []; }
  }

  lemma StreamMember(log: set<Row>, w: PartitionRange, direction: Direction, complete: bool, s: seq<Row>, j: nat,
                     r: Row)
    requires StreamOk(log, w, direction, complete, s) && j < |s|
    requires r in Between(log, w.partition, direction, Base(w, direction),
                          s[j].offset + if direction.Back? then 0 else 1)
    ensures r in s
  {
    assert s[j] in ToSet(s);
    assert r in ToSet(s);
  }

  lemma PrefixMember(direction: Direction, s: seq<Row>, k: nat, r: Row)
    requires Outward(direction, s) && 0 < k <= |s| && r in s
    ensures r in s[..k] <==> if direction.Back? then s[k - 1].offset <= r.offset else r.offset <= s[k - 1].offset
  {
    var i :| 0 <= i < |s| && s[i] == r;
    if r in s[..k] { var j :| 0 <= j < k && s[j] == r; }
    if i < k { assert s[..k][i] == r; }
  }

  lemma PartlyTaken(log: set<Row>, w: PartitionRange, direction: Direction, complete: bool, s: seq<Row>, k: nat, r: Row)
    requires StreamOk(log, w, direction, complete, s) && 0 < k <= |s|
    ensures r in s[..k] <==>
      r in Between(log, w.partition, direction, Base(w, direction), s[k - 1].offset + if direction.Back? then 0 else 1)
  {
    InWindow(log, w, direction, complete, s);
    var to := s[k - 1].offset + if direction.Back? then 0 else 1;
    if r in Between(log, w.partition, direction, Base(w, direction), to) {
      StreamMember(log, w, direction, complete, s, k - 1, r);
    }
    if r in s {
      assert r in ToSet(s);
      PrefixMember(direction, s, k, r);
    } else {
      assert forall i | 0 <= i < k :: s[..k][i] == s[i];
    }
  }

  /** Neither loss nor repetition: the records taken are exactly the real ones between
      the old position and the new one. */
  lemma AfterTakes(log: set<Row>, w: PartitionRange, direction: Direction, complete: bool, s: seq<Row>, k: nat)
    requires StreamOk(log, w, direction, complete, s) && k <= |s|
    ensures ToSet(s[..k]) ==
      Between(log, w.partition, direction, Base(w, direction), After(direction, w, complete, s, k))
  {
    var to := After(direction, w, complete, s, k);
    NothingTaken();
    InWindow(log, w, direction, complete, s);
    if complete && k == |s| {
      assert s[..k] == s;
      assert Between(log, w.partition, direction, Base(w, direction), to) == Span(log, w.partition, w.start, w.end);
    } else if k == 0 {
      assert s[..k] == [];
      assert Between(log, w.partition, direction, Base(w, direction), Base(w, direction)) == {};
      assert to == Base(w, direction);
    } else {
      WalkEnds(direction, w, s[..k]);
      forall r ensures r in s[..k] <==> r in Between(log, w.partition, direction, Base(w, direction), to) {
        PartlyTaken(log, w, direction, complete, s, k, r);
      }
    }
  }

  // ---- one chunk ----------------------------------------------------------------

  ghost predicate StreamsOk(log: set<Row>, windows: seq<PartitionRange>, direction: Direction, isComplete: seq<bool>,
                            fetched: seq<seq<Row>>)
  {
    |isComplete| == |windows| == |fetched| &&
    forall i | 0 <= i < |windows| :: StreamOk(log, windows[i], direction, isComplete[i], fetched[i])
  }

  /** A chunk that took the records `popped` from the streams `fetched`. */
  ghost predicate ChunkOk(log: set<Row>, windows: seq<PartitionRange>, direction: Direction, fetched: seq<seq<Row>>,
                          popped: seq<Row>, end: ChunkEnd) {
    && DistinctRanges(windows) && Fits(windows, end) && StreamsOk(log, windows, direction, end.isComplete, fetched)
    && Walked(Order(Server, direction), fetched, popped, end.streams)
    && end.takenMin == Lows(windows, popped) && end.takenMax == Highs(windows, popped)
  }

  lemma StreamsParallel(log: set<Row>, windows: seq<PartitionRange>, direction: Direction, isComplete: seq<bool>,
                        fetched: seq<seq<Row>>)
    requires StreamsOk(log, windows, direction, isComplete, fetched)
    ensures Parallel(windows, fetched)
  {
    forall i | 0 <= i < |windows| ensures AllOf(fetched[i], windows[i].partition) {
      assert StreamOk(log, windows[i], direction, isComplete[i], fetched[i]);
    }
  }

  lemma LaneSplits(o: Order, m: Streams, n: Streams, popped: seq<Row>, p: int)
    requires Labelled(m) && Labelled(n) && Merge(o, m) == popped + Merge(o, n)
    ensures At(m, p) == Lane(popped, p) + At(n, p)
  {
    LaneAppend(popped, Merge(o, n), p);
    MergeKeepsLanes(o, m, p);
    MergeKeepsLanes(o, n, p);
  }

  /** Each stream is what was taken of it followed by what is left. */
  lemma StreamSplits(o: Order, windows: seq<PartitionRange>, fetched: seq<seq<Row>>, popped: seq<Row>,
                     streams: seq<seq<Row>>, p: int)
    requires DistinctRanges(windows) && Parallel(windows, fetched) && Walked(o, fetched, popped, streams)
    ensures StreamAt(windows, fetched, p) == Lane(popped, p) + StreamAt(windows, streams, p)
  {
    WalkedMerges(o, windows, fetched, popped, streams);
    LaneSplits(o, Gather(windows, fetched), Gather(windows, streams), popped, p);
    assert At(Gather(windows, fetched), p) == StreamAt(windows, fetched, p);
    assert At(Gather(windows, streams), p) == StreamAt(windows, streams, p);
  }

  lemma WindowSplits(log: set<Row>, windows: seq<PartitionRange>, direction: Direction, fetched: seq<seq<Row>>,
                     popped: seq<Row>, end: ChunkEnd, i: nat)
    requires ChunkOk(log, windows, direction, fetched, popped, end) && i < |windows|
    ensures fetched[i] == Lane(popped, windows[i].partition) + end.streams[i]
    ensures StreamOk(log, windows[i], direction, end.isComplete[i], fetched[i])
    ensures end.takenMin[i] == Lowest(Lane(popped, windows[i].partition))
    ensures end.takenMax[i] == Highest(Lane(popped, windows[i].partition))
  {
    StreamsParallel(log, windows, direction, end.isComplete, fetched);
    StreamSplits(Order(Server, direction), windows, fetched, popped, end.streams, windows[i].partition);
    IndexOfOwn(windows, i);
  }

  /** How many offsets a partition may move at most in this chunk. */
  function SpanFor(windows: seq<PartitionRange>, p: int): nat {
    var i := IndexOf(windows, p);
    if i.None? then 0 else Max(windows[i.value].end - windows[i.value].start, 0)
  }

  /** One position over one chunk. */
  ghost predicate Advanced(log: set<Row>, windows: seq<PartitionRange>, direction: Direction, popped: seq<Row>,
                           pos: Position, new': Position)
  {
    && new'.partition == pos.partition && Onward(direction, pos.offset, new'.offset)
    && ToSet(Lane(popped, pos.partition)) == Between(log, pos.partition, direction, pos.offset, new'.offset)
    && Share(popped, pos.partition) <= Distance(pos.offset, new'.offset) <= SpanFor(windows, pos.partition)
  }

  lemma WindowAdvances(log: set<Row>, w: PartitionRange, direction: Direction, complete: bool, s: seq<Row>,
                       lane: seq<Row>, left: seq<Row>)
    requires StreamOk(log, w, direction, complete, s) && s == lane + left
    ensures var to := NewOffset(direction, w, complete, left == [], Lowest(lane), Highest(lane), Base(w, direction));
      && w.start <= to <= w.end && ToSet(lane) == Between(log, w.partition, direction, Base(w, direction), to)
      && |lane| <= Distance(Base(w, direction), to) <= w.end - w.start
      && (lane != [] || (complete && left == []) ==> to != Base(w, direction))
  {
    assert s[..|lane|] == lane;
    AfterBounds(log, w, direction, complete, s, |lane|);
    AfterTakes(log, w, direction, complete, s, |lane|);
  }

  lemma PositionAdvances(log: set<Row>, windows: seq<PartitionRange>, marks: seq<Mark>, direction: Direction,
                         fetched: seq<seq<Row>>, popped: seq<Row>, end: ChunkEnd, pos: Position)
    requires ChunkOk(log, windows, direction, fetched, popped, end) && InRange(pos, marks)
    requires forall i | 0 <= i < |windows| && windows[i].partition == pos.partition ::
      NextTo(windows[i], pos, marks, direction)
    ensures Advanced(log, windows, direction, popped, pos, AdvanceOne(pos, windows, end, direction))
    ensures InRange(AdvanceOne(pos, windows, end, direction), marks)
  {
    var at := IndexOf(windows, pos.partition);
    if at.Some? {
      var i := at.value;
      WindowSplits(log, windows, direction, fetched, popped, end, i);
      WindowAdvances(log, windows[i], direction, end.isComplete[i], fetched[i], Lane(popped, pos.partition),
          end.streams[i]);
    } else {
      StreamsParallel(log, windows, direction, end.isComplete, fetched);
      StreamSplits(Order(Server, direction), windows, fetched, popped, end.streams, pos.partition);
      assert ToSet(Lane(popped, pos.partition)) == Between(log, pos.partition, direction, pos.offset, pos.offset);
    }
  }

  // ---- counting -----------------------------------------------------------------

  function ShareSum(popped: seq<Row>, positions: seq<Position>): nat {
    if positions == [] then 0 else Share(popped, positions[0].partition) + ShareSum(popped, positions[1..])
  }

  predicate Tracks(positions: seq<Position>, p: int) {
    exists i | 0 <= i < |positions| :: positions[i].partition == p
  }

  lemma TracksTail(positions: seq<Position>, p: int)
    requires positions != []
    ensures Tracks(positions, p) <==> positions[0].partition == p || Tracks(positions[1..], p)
  {
    assert forall i | 1 <= i < |positions| :: positions[i] == positions[1..][i - 1];
    assert forall i | 0 <= i < |positions| - 1 :: positions[1..][i] == positions[i + 1];
  }

  lemma {:induction false} ShareSumNext(popped: seq<Row>, r: Row, positions: seq<Position>)
    requires Distinct(positions)
    ensures ShareSum(popped + [r], positions) ==
      ShareSum(popped, positions) + if Tracks(positions, r.partition) then 1 else 0
  {
    if positions != [] {
      ShareSumNext(popped, r, positions[1..]);
      ShareAppend(popped, r, positions[0].partition);
      TracksTail(positions, r.partition);
    }
  }

  lemma {:induction false} ShareSumNone(positions: seq<Position>)
    ensures ShareSum([], positions) == 0
  {
    if positions != [] { ShareSumNone(positions[1..]); }
  }

  /** Every record counted once, under its own position. */
  lemma {:induction false} ShareSumAll(popped: seq<Row>, positions: seq<Position>)
    requires Distinct(positions) && forall i | 0 <= i < |popped| :: Tracks(positions, popped[i].partition)
    ensures ShareSum(popped, positions) == |popped|
  {
    if popped == [] {
      ShareSumNone(positions);
    } else {
      var front, r := popped[..|popped| - 1], popped[|popped| - 1];
      ShareSumAll(front, positions);
      ShareSumNext(front, r, positions);
      assert popped == front + [r];
    }
  }

  function SpanSum(windows: seq<PartitionRange>, positions: seq<Position>): nat {
    if positions == [] then 0 else SpanFor(windows, positions[0].partition) + SpanSum(windows, positions[1..])
  }

  lemma {:induction false} SpanSumStep(windows: seq<PartitionRange>, positions: seq<Position>)
    requires windows != [] && Distinct(positions)
    ensures SpanSum(windows, positions) <= SpanSum(windows[1..], positions) +
            if Tracks(positions, windows[0].partition) then Max(windows[0].end - windows[0].start, 0) else 0
  {
    if positions != [] {
      SpanSumStep(windows, positions[1..]);
      TracksTail(positions, windows[0].partition);
    }
  }

  lemma {:induction false} SpanSumNone(positions: seq<Position>)
    ensures SpanSum([], positions) == 0
  {
    if positions != [] { SpanSumNone(positions[1..]); }
  }

  lemma {:induction false} SpanSumWithin(windows: seq<PartitionRange>, positions: seq<Position>)
    requires Distinct(positions) && forall i | 0 <= i < |windows| :: windows[i].start < windows[i].end
    ensures SpanSum(windows, positions) <= Total(windows)
  {
    if windows == [] {
      SpanSumNone(positions);
    } else {
      SpanSumWithin(windows[1..], positions);
      SpanSumStep(windows, positions);
    }
  }

  /** Every position moved at least as far as records were taken and no farther than its window. */
  predicate Moderate(windows: seq<PartitionRange>, popped: seq<Row>, before: seq<Position>, after: seq<Position>) {
    |before| == |after| && forall i | 0 <= i < |before| ::
      Share(popped, before[i].partition) <= Distance(before[i].offset, after[i].offset) <=
        SpanFor(windows, before[i].partition)
  }

  lemma {:induction false} ChargeModerate(windows: seq<PartitionRange>, popped: seq<Row>, before: seq<Position>,
                                          after: seq<Position>)
    requires Moderate(windows, popped, before, after)
    ensures ShareSum(popped, before) <= ChargeBudget(before, after) <= SpanSum(windows, before)
  {
    if before != [] { ChargeModerate(windows, popped, before[1..], after[1..]); }
  }

  lemma {:induction false} ChargeMoved(before: seq<Position>, after: seq<Position>, i: nat)
    requires |before| == |after| && i < |before|
    ensures Distance(before[i].offset, after[i].offset) <= ChargeBudget(before, after)
  {
    if i > 0 { ChargeMoved(before[1..], after[1..], i - 1); }
  }
}
