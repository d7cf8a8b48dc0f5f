/**
 * One chunk of a page: which fetched records can be trusted, and the merge that
 * takes them until the page has enough matches. A partition the scan did not finish
 * still counts if the offset right next to its position arrived, because then
 * nothing is missing between the position and what came; otherwise all of its records
 * are thrown away unread.
 */
module ChunkMerge {
  import opened Rows
  import opened MergeOrder
  import opened PageWindows
  import opened PollScan
  import opened OffsetOrder

  // ---- selecting the streams ----------------------------------------------------

  /** The offset right next to the position the window starts from. */
  function AdjacentOffset(w: PartitionRange, direction: Direction): int {
    if direction.Back? then w.end - 1 else w.start
  }

  /** What a window's records become: all of them nearest first, or nothing at all. */
  function Gate(fetched: seq<Row>, w: PartitionRange, complete: bool, direction: Direction): seq<Row> {
    if complete || HasOffset(fetched, AdjacentOffset(w, direction)) then Facing(direction, fetched) else []
  }

  function Select(records: seq<Row>, w: PartitionRange, complete: set<int>, direction: Direction): seq<Row> {
    Gate(SortByOffset(Lane(records, w.partition)), w, w.partition in complete, direction)
  }

  lemma LaneNext(s: seq<Row>, i: nat, p: int)
    requires i < |s|
    ensures Lane(s[..i + 1], p) == Lane(s[..i], p) + if p == s[i].partition then [s[i]] else []
  {
    assert s[..i + 1] == s[..i] + [s[i]];
    LaneAppend(s[..i], [s[i]], p);
    assert Lane([s[i]], p) == if p == s[i].partition then [s[i]] else [];
  }

  /** Records by partition, each group in the order the records came. */
  method GroupByPartition(records: seq<Row>) returns (groups: Streams)
    ensures forall p :: At(groups, p) == Lane(records, p)
  {
    groups := map[];
    var i := 0;
    while i < |records|
      invariant 0 <= i <= |records|
      invariant forall p :: At(groups, p) == Lane(records[..i], p)
    {
      var r := records[i];
      groups := groups[r.partition := At(groups, r.partition) + [r]];
      forall p ensures At(groups, p) == Lane(records[..i + 1], p) { LaneNext(records, i, p); }
      i := i + 1;
    }
    assert records[..i] == records;
  }

  method SelectPartitionStreams(records: seq<Row>, windows: seq<PartitionRange>, complete: set<int>,
                                direction: Direction)
    returns (streams: seq<seq<Row>>, isComplete: seq<bool>)
    ensures |streams| == |windows| == |isComplete|
    ensures forall i | 0 <= i < |windows| :: isComplete[i] == (windows[i].partition in complete)
    ensures forall i | 0 <= i < |windows| :: streams[i] == Select(records, windows[i], complete, direction)
  {
    var groups := GroupByPartition(records);
    streams, isComplete := [], [];
    var i := 0;
    while i < |windows|
      invariant 0 <= i <= |windows| && |streams| == i == |isComplete|
      invariant forall j | 0 <= j < i :: isComplete[j] == (windows[j].partition in complete)
      invariant forall j | 0 <= j < i :: streams[j] == Select(records, windows[j], complete, direction)
    {
      var w := windows[i];
      var done := w.partition in complete;
      var group := At(groups, w.partition);
      assert group == Lane(records, w.partition);
      var stream := Gate(SortByOffset(group), w, done, direction);
      isComplete := isComplete + [done];
      streams := streams + [stream];
      i := i + 1;
    }
  }

  /** Where a window meets the position it was planned from. */
  function Base(w: PartitionRange, direction: Direction): int {
    if direction.Back? then w.end else w.start
  }

  /** The records met walking from offset `from` to offset `to`. */
  ghost function Between(log: set<Row>, p: int, direction: Direction, from: int, to: int): set<Row> {
    if direction.Back? then Span(log, p, to, from) else Span(log, p, from, to)
  }

  /** A stream that can be consumed from its front: the real records from the
      position outward up to some cut, and the whole window when it is complete. */
  ghost predicate StreamOk(log: set<Row>, w: PartitionRange, direction: Direction, complete: bool, s: seq<Row>) {
    && w.start < w.end && AllOf(s, w.partition) && Outward(direction, s)
    && (complete ==> ToSet(s) == Span(log, w.partition, w.start, w.end))
    && exists cut | w.start <= cut <= w.end :: ToSet(s) == Between(log, w.partition, direction, Base(w, direction), cut)
  }

  lemma GateTrusted(log: set<Row>, w: PartitionRange, fetched: seq<Row>, complete: bool, direction: Direction, cut: int)
    requires w.start <= cut <= w.end && w.start < w.end && AllOf(fetched, w.partition) && Ascending(fetched)
    requires ToSet(fetched) == Span(log, w.partition, w.start, cut)
    requires complete ==> ToSet(fetched) == Span(log, w.partition, w.start, w.end)
    ensures StreamOk(log, w, direction, complete, Gate(fetched, w, complete, direction))
    ensures ToSet(Gate(fetched, w, complete, direction)) ==
      if complete || HasOffset(fetched, AdjacentOffset(w, direction)) then ToSet(fetched) else {}
  {
    FacingMembers(direction, fetched);
    var s, from := Gate(fetched, w, complete, direction), Base(w, direction);
    var far := if direction.Back? then w.start else w.end;
    if complete {
      assert ToSet(s) == Between(log, w.partition, direction, from, far);
    } else if HasOffset(fetched, AdjacentOffset(w, direction)) {
      if direction.Back? { WholeWindow(log, w, fetched, cut); }
      assert ToSet(s) == Between(log, w.partition, direction, from, if direction.Back? then w.start else cut);
    } else {
      assert ToSet(s) == Between(log, w.partition, direction, from, from);
    }
  }

  lemma WholeWindow(log: set<Row>, w: PartitionRange, fetched: seq<Row>, cut: int)
    requires cut <= w.end && HasOffset(fetched, w.end - 1)
    requires ToSet(fetched) == Span(log, w.partition, w.start, cut)
    ensures cut == w.end
  {
    var i :| 0 <= i < |fetched| && fetched[i].offset == w.end - 1;
    assert fetched[i] in ToSet(fetched);
  }

  /** The trust gate: an incomplete window read back to its adjacent offset is in fact
      whole, one read forward is a prefix, and any other is dropped. */
  lemma SelectTrusted(log: set<Row>, w: PartitionRange, out: FetchOutcome, direction: Direction)
    requires w.start < w.end && ScannedAt(log, w, out)
    ensures StreamOk(log, w, direction, w.partition in out.complete, Select(out.records, w, out.complete, direction))
    ensures ToSet(Select(out.records, w, out.complete, direction)) ==
      if w.partition in out.complete || HasOffset(Lane(out.records, w.partition), AdjacentOffset(w, direction))
        then ToSet(Lane(out.records, w.partition)) else {}
  {
    var lane := Lane(out.records, w.partition);
    SortIdle(lane);
    LaneMembers(out.records, w.partition);
    var cut :| w.start <= cut <= Max(w.start, w.end) && ToSet(lane) == Span(log, w.partition, w.start, cut);
    GateTrusted(log, w, lane, w.partition in out.complete, direction, cut);
  }

  // ---- streams by window and streams by partition ----------------------------------

  /** The first window of a partition. */
  function IndexOf(windows: seq<PartitionRange>, p: int): (i: Option<nat>)
    ensures i.Some? ==> i.value < |windows| && windows[i.value].partition == p
    ensures i.None? ==> forall j | 0 <= j < |windows| :: windows[j].partition != p
  {
    if windows == [] then None
    else if windows[0].partition == p then Some(0)
    else
      var i := IndexOf(windows[1..], p);
      if i.Some? then Some(i.value + 1) else None
  }

  /** One stream per window, each of that window's partition. */
  predicate Parallel(windows: seq<PartitionRange>, streams: seq<seq<Row>>) {
    |streams| == |windows| && forall i | 0 <= i < |windows| :: AllOf(streams[i], windows[i].partition)
  }

  function StreamAt(windows: seq<PartitionRange>, streams: seq<seq<Row>>, p: int): seq<Row> {
    var i := IndexOf(windows, p);
    if i.Some? && i.value < |streams| then streams[i.value] else []
  }

  function WindowKeys(windows: seq<PartitionRange>): set<int> {
    set w | w in windows :: w.partition
  }

  function Gather(windows: seq<PartitionRange>, streams: seq<seq<Row>>): (m: Streams)
    ensures forall p :: At(m, p) == StreamAt(windows, streams, p)
  {
    map p | p in WindowKeys(windows) :: StreamAt(windows, streams, p)
  }

  lemma IndexOfOwn(windows: seq<PartitionRange>, i: nat)
    requires DistinctRanges(windows) && i < |windows|
    ensures IndexOf(windows, windows[i].partition) == Some(i)
  {}

  lemma GatherLabelled(windows: seq<PartitionRange>, streams: seq<seq<Row>>)
    requires Parallel(windows, streams)
    ensures Labelled(Gather(windows, streams))
  {
    var m := Gather(windows, streams);
    forall p | p in m ensures AllOf(m[p], p) { assert At(m, p) == StreamAt(windows, streams, p); }
  }

  predicate Nonempty(streams: seq<seq<Row>>, i: int) {
    0 <= i < |streams| && streams[i] != []
  }

  ghost predicate BestOf(o: Order, streams: seq<seq<Row>>, i: nat, upTo: nat) {
    Nonempty(streams, i) && forall j | Nonempty(streams, j) && j < upTo && j != i ::
      Ahead(o, streams[i][0], streams[j][0])
  }

  /** One pass over the heads. */
  method PickBest(windows: seq<PartitionRange>, streams: seq<seq<Row>>, direction: Direction)
    returns (best: Option<nat>)
    requires DistinctRanges(windows) && Parallel(windows, streams)
    ensures best.None? ==> forall i :: !Nonempty(streams, i)
    ensures best.Some? ==> BestOf(Order(Server, direction), streams, best.value, |streams|)
  {
    best := None;
    var i := 0;
    while i < |streams|
      invariant 0 <= i <= |streams|
      invariant best.None? ==> forall j | j < i :: !Nonempty(streams, j)
      invariant best.Some? ==> best.value < i && BestOf(Order(Server, direction), streams, best.value, i)
    {
      if streams[i] != [] {
        if best.None? {
          best := Some(i);
        } else {
          assert streams[i][0].partition == windows[i].partition;
          assert streams[best.value][0].partition == windows[best.value].partition;
          if Ahead(Order(Server, direction), streams[i][0], streams[best.value][0]) {
            best := Some(i);
          }
        }
      }
      i := i + 1;
    }
  }

  lemma BestLeads(o: Order, windows: seq<PartitionRange>, streams: seq<seq<Row>>, i: nat)
    requires DistinctRanges(windows) && Parallel(windows, streams) && BestOf(o, streams, i, |streams|)
    ensures Leads(o, Gather(windows, streams), windows[i].partition)
    ensures Gather(windows, streams)[windows[i].partition] == streams[i]
  {
    var m, p := Gather(windows, streams), windows[i].partition;
    IndexOfOwn(windows, i);
    assert At(m, p) == streams[i];
    forall q | q in m && m[q] != [] && q != p ensures Ahead(o, m[p][0], m[q][0]) {
      assert At(m, q) == StreamAt(windows, streams, q);
      assert Nonempty(streams, IndexOf(windows, q).value);
    }
  }

  lemma NoneLeft(o: Order, windows: seq<PartitionRange>, streams: seq<seq<Row>>)
    requires Parallel(windows, streams) && forall i :: !Nonempty(streams, i)
    ensures Labelled(Gather(windows, streams)) && Merge(o, Gather(windows, streams)) == []
  {
    var m := Gather(windows, streams);
    GatherLabelled(windows, streams);
    forall p | p in m ensures m[p] == [] {
      assert At(m, p) == StreamAt(windows, streams, p);
      assert IndexOf(windows, p).Some? ==> !Nonempty(streams, IndexOf(windows, p).value);
    }
  }

  lemma StreamSet(windows: seq<PartitionRange>, streams: seq<seq<Row>>, i: nat, s: seq<Row>, q: int)
    requires DistinctRanges(windows) && i < |windows| == |streams|
    ensures StreamAt(windows, streams[i := s], q) ==
      if q == windows[i].partition then s else StreamAt(windows, streams, q)
  {
    IndexOfOwn(windows, i);
    assert IndexOf(windows, q) == Some(i) ==> q == windows[i].partition;
  }

  lemma PopAt(windows: seq<PartitionRange>, streams: seq<seq<Row>>, i: nat, m: Streams, n: Streams, q: int)
    requires DistinctRanges(windows) && i < |windows| == |streams| && streams[i] != []
    requires m == Gather(windows, streams) && n == Gather(windows, streams[i := streams[i][1..]])
    requires windows[i].partition in m && m[windows[i].partition] == streams[i]
    ensures At(Pop(m, windows[i].partition), q) == At(n, q)
  {
    StreamSet(windows, streams, i, streams[i][1..], q);
    assert At(m, q) == StreamAt(windows, streams, q);
    assert At(n, q) == StreamAt(windows, streams[i := streams[i][1..]], q);
    PopOne(m, windows[i].partition, q);
  }

  lemma PopOne(m: Streams, p: int, q: int)
    requires p in m && m[p] != []
    ensures At(Pop(m, p), q) == if q == p then m[p][1..] else At(m, q)
  {}

  lemma PopParallel(windows: seq<PartitionRange>, streams: seq<seq<Row>>, i: nat)
    requires Parallel(windows, streams) && i < |windows| && streams[i] != []
    ensures Parallel(windows, streams[i := streams[i][1..]])
  {
    assert AllOf(streams[i], windows[i].partition);
  }

  /** Taking the best head is one step of the merge. */
  lemma PopBest(o: Order, windows: seq<PartitionRange>, streams: seq<seq<Row>>, i: nat)
    requires DistinctRanges(windows) && Parallel(windows, streams) && BestOf(o, streams, i, |streams|)
    ensures Parallel(windows, streams[i := streams[i][1..]])
    ensures Labelled(Gather(windows, streams)) && Labelled(Gather(windows, streams[i := streams[i][1..]]))
    ensures Merge(o, Gather(windows, streams)) ==
      [streams[i][0]] + Merge(o, Gather(windows, streams[i := streams[i][1..]]))
  {
    PopParallel(windows, streams, i);
    BestLeads(o, windows, streams, i);
    GatherLabelled(windows, streams);
    GatherLabelled(windows, streams[i := streams[i][1..]]);
    var m, n, p := Gather(windows, streams), Gather(windows, streams[i := streams[i][1..]]), windows[i].partition;
    forall q ensures At(Pop(m, p), q) == At(n, q) { PopAt(windows, streams, i, m, n, q); }
    PopMerge(o, m, n, p);
  }

  lemma PopMerge(o: Order, m: Streams, n: Streams, p: int)
    requires Labelled(m) && Labelled(n) && Leads(o, m, p) && forall q :: At(Pop(m, p), q) == At(n, q)
    ensures Merge(o, m) == [m[p][0]] + Merge(o, n)
  {
    MergeStep(o, m, p);
    MergeExtensional(o, Pop(m, p), n);
  }

  // ---- the merge loop -----------------------------------------------------------

  datatype TimelineEvent =
    | Match(row: Row)
    | Progress(scanned: nat, matches: nat, budget: nat)
    | PageEnd(cursor: Option<seq<Position>>, exhausted: bool)
    | Failed

  datatype ChunkTaken = ChunkTaken(matches: seq<Row>, takenMin: seq<Option<int>>, takenMax: seq<Option<int>>,
      anyTaken: bool)

  const PROGRESS_INTERVAL := 2_000

  function MidChunkProgress(totalScanned: nat, popped: nat): Option<nat> {
    if popped > 0 && popped % PROGRESS_INTERVAL == 0 then Some(totalScanned + popped) else None
  }

  function Matching(keep: Row -> bool, s: seq<Row>): seq<Row> {
    if s == [] then [] else
    Matching(keep, s[..|s| - 1]) + if keep(s[|s| - 1]) then [s[|s| - 1]] else []
  }

  /** The progress due while the records `popped` were taken. */
  function MidEvents(keep: Row -> bool, popped: seq<Row>, totalScanned: nat, totalMatches: nat,
                     budget: nat): seq<TimelineEvent>
  {
    if popped == [] then [] else
    MidEvents(keep, popped[..|popped| - 1], totalScanned, totalMatches, budget) +
    Due(MidChunkProgress(totalScanned, |popped|), totalMatches + |Matching(keep, popped)|, budget)
  }

  function Lowest(s: seq<Row>): Option<int> {
    if s == [] then None else
    var m, o := Lowest(s[..|s| - 1]), s[|s| - 1].offset;
    Some(if m.Some? then Min(m.value, o) else o)
  }

  function Highest(s: seq<Row>): Option<int> {
    if s == [] then None else
    var m, o := Highest(s[..|s| - 1]), s[|s| - 1].offset;
    Some(if m.Some? then Max(m.value, o) else o)
  }

  /** The bookkeeping of offsets taken, window by window. */
  function Lows(windows: seq<PartitionRange>, popped: seq<Row>): seq<Option<int>> {
    seq(|windows|, i requires 0 <= i < |windows| => Lowest(Lane(popped, windows[i].partition)))
  }

  function Highs(windows: seq<PartitionRange>, popped: seq<Row>): seq<Option<int>> {
    seq(|windows|, i requires 0 <= i < |windows| => Highest(Lane(popped, windows[i].partition)))
  }

  function Least(m: Option<int>, o: int): Option<int> { Some(if m.Some? then Min(m.value, o) else o) }

  function Greatest(m: Option<int>, o: int): Option<int> { Some(if m.Some? then Max(m.value, o) else o) }

  lemma NotedNext(windows: seq<PartitionRange>, popped: seq<Row>, i: nat, r: Row)
    requires DistinctRanges(windows) && i < |windows| && r.partition == windows[i].partition
    ensures Lows(windows, popped + [r]) == Lows(windows, popped)[i := Least(Lows(windows, popped)[i], r.offset)]
    ensures Highs(windows, popped + [r]) == Highs(windows, popped)[i := Greatest(Highs(windows, popped)[i], r.offset)]
  {
    forall j | 0 <= j < |windows|
      ensures Lows(windows, popped + [r])[j] == Lows(windows, popped)[i := Least(Lows(windows, popped)[i], r.offset)][j]
      ensures Highs(windows, popped + [r])[j] ==
        Highs(windows, popped)[i := Greatest(Highs(windows, popped)[i], r.offset)][j]
    {
      LaneLast(popped, r, windows[j].partition);
      EndsNext(Lane(popped, windows[j].partition), r);
    }
  }

  lemma LaneLast(s: seq<Row>, r: Row, p: int)
    ensures Lane(s + [r], p) == if p == r.partition then Lane(s, p) + [r] else Lane(s, p)
  {
    LaneAppend(s, [r], p);
    assert Lane([r], p) == if p == r.partition then [r] else [];
  }

  lemma EndsNext(lane: seq<Row>, r: Row)
    ensures Lowest(lane + [r]) == Least(Lowest(lane), r.offset)
    ensures Highest(lane + [r]) == Greatest(Highest(lane), r.offset)
  {
    assert (lane + [r])[..|lane|] == lane;
  }

  lemma TakeNext(keep: Row -> bool, popped: seq<Row>, r: Row, totalScanned: nat, totalMatches: nat, budget: nat)
    ensures Matching(keep, popped + [r]) == Matching(keep, popped) + if keep(r) then [r] else []
    ensures MidEvents(keep, popped + [r], totalScanned, totalMatches, budget) ==
            MidEvents(keep, popped, totalScanned, totalMatches, budget) +
            Due(MidChunkProgress(totalScanned, |popped| + 1), totalMatches + |Matching(keep, popped + [r])|, budget)
  {
    assert (popped + [r])[..|popped|] == popped;
  }

  /** The first `n` records taken are reported by the event for them. */
  function MidEvent(keep: Row -> bool, popped: seq<Row>, n: nat, totalScanned: nat, totalMatches: nat,
                    budget: nat): TimelineEvent
    requires n <= |popped|
  {
    Progress(totalScanned + n, totalMatches + |Matching(keep, popped[..n])|, budget)
  }

  /** There is progress for every whole interval of records taken, with the counts so far, and
      for nothing else. */
  lemma {:induction false} MidEventsAre(keep: Row -> bool, popped: seq<Row>, totalScanned: nat, totalMatches: nat,
                                        budget: nat)
    ensures var mid := MidEvents(keep, popped, totalScanned, totalMatches, budget);
      && |mid| == |popped| / PROGRESS_INTERVAL
      && forall i | 0 <= i < |mid| ::
           mid[i] == MidEvent(keep, popped, PROGRESS_INTERVAL * (i + 1), totalScanned, totalMatches, budget)
  {
    if popped != [] {
      var front := popped[..|popped| - 1];
      MidEventsAre(keep, front, totalScanned, totalMatches, budget);
      var n := |popped| / PROGRESS_INTERVAL;
      var mid, before := MidEvents(keep, popped, totalScanned, totalMatches, budget),
                         MidEvents(keep, front, totalScanned, totalMatches, budget);
      forall i | 0 <= i < |before|
        ensures mid[i] == MidEvent(keep, popped, PROGRESS_INTERVAL * (i + 1), totalScanned, totalMatches, budget)
      {
        assert front[..PROGRESS_INTERVAL * (i + 1)] == popped[..PROGRESS_INTERVAL * (i + 1)];
      }
      assert popped[..|popped|] == popped;
    }
  }

  /** Taking best heads from `fetched` again and again gave `popped` and left `streams`. */
  ghost predicate Walked(o: Order, fetched: seq<seq<Row>>, popped: seq<Row>, streams: seq<seq<Row>>)
    decreases |popped|, 0
  {
    if popped == [] then streams == fetched else
    WalkedBy(o, fetched, popped[..|popped| - 1], popped[|popped| - 1], streams)
  }

  ghost predicate WalkedBy(o: Order, fetched: seq<seq<Row>>, front: seq<Row>, r: Row, streams: seq<seq<Row>>)
    decreases |front|, 1
  {
    exists before, i :: Walked(o, fetched, front, before) && Takes(o, before, i, r, streams)
  }

  ghost predicate Takes(o: Order, before: seq<seq<Row>>, i: nat, r: Row, after: seq<seq<Row>>) {
    BestOf(o, before, i, |before|) && r == before[i][0] && after == before[i := before[i][1..]]
  }

  lemma WalkedNext(o: Order, fetched: seq<seq<Row>>, popped: seq<Row>, before: seq<seq<Row>>, i: nat, r: Row,
                   after: seq<seq<Row>>)
    requires Walked(o, fetched, popped, before) && Takes(o, before, i, r, after)
    ensures Walked(o, fetched, popped + [r], after)
  {
    assert (popped + [r])[..|popped|] == popped;
  }

  /** Such a walk is the beginning of the merge, and what is left merges to the rest. */
  lemma {:induction false} WalkedMerges(o: Order, windows: seq<PartitionRange>, fetched: seq<seq<Row>>,
                                        popped: seq<Row>, streams: seq<seq<Row>>)
    requires DistinctRanges(windows) && Parallel(windows, fetched) && Walked(o, fetched, popped, streams)
    ensures Parallel(windows, streams) && Labelled(Gather(windows, fetched)) && Labelled(Gather(windows, streams))
    ensures Merge(o, Gather(windows, fetched)) == popped + Merge(o, Gather(windows, streams))
    decreases |popped|
  {
    GatherLabelled(windows, fetched);
    if popped != [] {
      assert WalkedBy(o, fetched, popped[..|popped| - 1], popped[|popped| - 1], streams);
      var before, i :| Walked(o, fetched, popped[..|popped| - 1], before) &&
        Takes(o, before, i, popped[|popped| - 1], streams);
      WalkedMerges(o, windows, fetched, popped[..|popped| - 1], before);
      PopBest(o, windows, before, i);
      Glue(Merge(o, Gather(windows, fetched)), popped, Merge(o, Gather(windows, before)),
          Merge(o, Gather(windows, streams)));
    }
  }

  lemma Glue(all: seq<Row>, popped: seq<Row>, left: seq<Row>, rest: seq<Row>)
    requires popped != [] && all == popped[..|popped| - 1] + left && left == [popped[|popped| - 1]] + rest
    ensures all == popped + rest
  {
    assert popped == popped[..|popped| - 1] + [popped[|popped| - 1]];
  }

  /** The chunk's bookkeeping for the records `popped`. */
  ghost predicate Tallied(keep: Row -> bool, windows: seq<PartitionRange>, popped: seq<Row>, state: ChunkTaken) {
    && state.matches == Matching(keep, popped) && state.anyTaken == (popped != [])
    && state.takenMin == Lows(windows, popped) && state.takenMax == Highs(windows, popped)
  }

  /** Counts one more record in. */
  method Tally(keep: Row -> bool, windows: seq<PartitionRange>, ghost popped: seq<Row>, state: ChunkTaken, i: nat,
               r: Row)
    returns (state': ChunkTaken)
    requires DistinctRanges(windows) && Tallied(keep, windows, popped, state) && i < |windows|
    requires r.partition == windows[i].partition
    ensures Tallied(keep, windows, popped + [r], state')
    ensures state'.matches == state.matches + if keep(r) then [r] else []
  {
    NotedNext(windows, popped, i, r);
    TakeNext(keep, popped, r, 0, 0, 0);
    state' := ChunkTaken(state.matches, state.takenMin[i := Least(state.takenMin[i], r.offset)],
                         state.takenMax[i := Greatest(state.takenMax[i], r.offset)], true);
    if keep(r) {
      state' := state'.(matches := state.matches + [r]);
    }
  }

  /** Takes the one record that goes next, if any stream has one. */
  method TakeBest(windows: seq<PartitionRange>, streams: seq<seq<Row>>, direction: Direction, keep: Row -> bool,
                  state: ChunkTaken, ghost popped: seq<Row>)
    returns (r: Option<Row>, streams': seq<seq<Row>>, state': ChunkTaken)
    requires DistinctRanges(windows) && Parallel(windows, streams)
    requires Tallied(keep, windows, popped, state)
    ensures Parallel(windows, streams')
    ensures r.None? ==> streams' == streams && state' == state && forall i | 0 <= i < |streams| :: streams[i] == []
    ensures r.Some? ==> exists i :: Takes(Order(Server, direction), streams, i, r.value, streams')
    ensures r.Some? ==> Tallied(keep, windows, popped + [r.value], state')
    ensures r.Some? ==> state'.matches == state.matches + if keep(r.value) then [r.value] else []
    ensures r.Some? ==> Weight(streams') < Weight(streams)
  {
    r, streams', state' := None, streams, state;
    var best := PickBest(windows, streams, direction);
    if best.None? {
      forall j | 0 <= j < |streams| ensures streams[j] == [] { assert !Nonempty(streams, j); }
    } else {
      var i := best.value;
      r := Some(streams[i][0]);
      PopParallel(windows, streams, i);
      WeightPop(streams, i);
      state' := Tally(keep, windows, popped, state, i, r.value);
      streams' := streams[i := streams[i][1..]];
      assert Takes(Order(Server, direction), streams, i, r.value, streams');
    }
  }

  /** How many records are left. */
  ghost function Weight(streams: seq<seq<Row>>): nat {
    if streams == [] then 0 else |streams[0]| + Weight(streams[1..])
  }

  lemma {:induction false} WeightPop(streams: seq<seq<Row>>, i: nat)
    requires i < |streams| && streams[i] != []
    ensures Weight(streams[i := streams[i][1..]]) < Weight(streams)
  {
    var next := streams[i := streams[i][1..]];
    if i > 0 {
      WeightPop(streams[1..], i - 1);
      assert next[1..] == streams[1..][i - 1 := streams[i][1..]];
    } else {
      assert next[1..] == streams[1..];
    }
  }

  function Due(scanned: Option<nat>, matches: nat, budget: nat): seq<TimelineEvent> {
    if scanned.Some? then [Progress(scanned.value, matches, budget)] else []
  }

  /** `now` is `sent` with the progress due for `popped` behind it. */
  ghost predicate Told(keep: Row -> bool, popped: seq<Row>, totalScanned: nat, totalMatches: nat, budget: nat,
                       sent: seq<TimelineEvent>, now: seq<TimelineEvent>) {
    now == sent + MidEvents(keep, popped, totalScanned, totalMatches, budget)
  }

  /** Sends the progress due after one more record, if any. */
  method Announce(keep: Row -> bool, ghost popped: seq<Row>, ghost r: Row, count: nat, matches: nat,
                  totalScanned: nat, totalMatches: nat, budget: nat,
                  ghost sent: seq<TimelineEvent>, now: seq<TimelineEvent>, room: nat)
    returns (now': seq<TimelineEvent>, ok: bool)
    requires Told(keep, popped, totalScanned, totalMatches, budget, sent, now)
    requires count == |popped| + 1 && matches == |Matching(keep, popped)| + if keep(r) then 1 else 0
    ensures ok ==> Told(keep, popped + [r], totalScanned, totalMatches, budget, sent, now')
    ensures !ok ==> Told(keep, popped, totalScanned, totalMatches, budget, sent, now') && room <= |now'|
    ensures |now| <= room ==> |now'| <= room
  {
    TakeNext(keep, popped, r, totalScanned, totalMatches, budget);
    now', ok := now, true;
    var due := MidChunkProgress(totalScanned, count);
    if due.Some? {
      if |now| >= room {
        return now, false;
      }
      now' := now + [Progress(due.value, totalMatches + matches, budget)];
    }
  }

  /** The chunk after the records `popped`. */
  ghost predicate Running(windows: seq<PartitionRange>, direction: Direction, keep: Row -> bool, fetched: seq<seq<Row>>,
                          popped: seq<Row>, streams: seq<seq<Row>>, state: ChunkTaken) {
    Parallel(windows, streams) && Walked(Order(Server, direction), fetched, popped, streams) &&
      Tallied(keep, windows, popped, state)
  }

  lemma RunningStarts(windows: seq<PartitionRange>, direction: Direction, keep: Row -> bool, fetched: seq<seq<Row>>)
    requires Parallel(windows, fetched)
    ensures Running(windows, direction, keep, fetched, [], fetched,
        ChunkTaken([], seq(|windows|, _ => None), seq(|windows|, _ => None), false))
  {}

  /** Takes records until the page has its matches or the streams are drained. The
      receiver accepts `room` events in all; a send after that fails for good. */
  method MergeChunkRecords(windows: seq<PartitionRange>, fetched: seq<seq<Row>>, direction: Direction,
                           keep: Row -> bool, limit: nat, totalMatches: nat, totalScanned: nat, budget: nat,
                           sent: seq<TimelineEvent>, room: nat)
    returns (streams: seq<seq<Row>>, taken: Option<ChunkTaken>, sent': seq<TimelineEvent>, ghost popped: seq<Row>)
    requires DistinctRanges(windows) && Parallel(windows, fetched)
    ensures Walked(Order(Server, direction), fetched, popped, streams)
    ensures taken.Some? ==> Tallied(keep, windows, popped, taken.value)
    ensures taken.None? ==> popped != [] && room <= |sent'|
    ensures Told(keep, if taken.Some? then popped else popped[..|popped| - 1], totalScanned, totalMatches, budget, sent,
        sent')
    ensures |sent| <= room ==> |sent'| <= room
    ensures taken.Some? && totalMatches < limit ==> totalMatches + |taken.value.matches| <= limit
    ensures taken.Some? ==>
      limit <= totalMatches + |taken.value.matches| || forall i | 0 <= i < |streams| :: streams[i] == []
  {
    var state := ChunkTaken([], seq(|windows|, _ => None), seq(|windows|, _ => None), false);
    var count := 0;
    streams, sent', popped := fetched, sent, [];
    RunningStarts(windows, direction, keep, fetched);
    while totalMatches + |state.matches| < limit
      invariant count == |popped| && Running(windows, direction, keep, fetched, popped, streams, state)
      invariant Told(keep, popped, totalScanned, totalMatches, budget, sent, sent')
      invariant |sent| <= room ==> |sent'| <= room
      invariant totalMatches < limit ==> totalMatches + |state.matches| <= limit
      decreases Weight(streams)
    {
      var r, left, ok;
      r, left, state := TakeBest(windows, streams, direction, keep, state, popped);
      if r.None? {
        break;
      }
      ghost var i :| Takes(Order(Server, direction), streams, i, r.value, left);
      WalkedNext(Order(Server, direction), fetched, popped, streams, i, r.value, left);
      streams, count := left, count + 1;
      sent', ok := Announce(keep, popped, r.value, count, |state.matches|, totalScanned, totalMatches, budget, sent,
          sent', room);
      popped := popped + [r.value];
      if !ok {
        assert popped[..|popped| - 1] + [r.value] == popped;
        return streams, None, sent', popped;
      }
    }
    taken := Some(state);
  }
}
