/** Which rows a page picks: those nearest to its positions, best timestamp first. */
module PageNearest {
  import opened Rows
  import opened MergeOrder
  import opened PageWindows
  import opened PollScan
  import opened OffsetOrder
  import opened ChunkMerge
  import opened DisplayOrder
  import opened PageAdvance
  import opened PageGround

  // ---- the log next to the positions ----------------------------------------------------

  predicate Recorded(log: set<Row>, p: int, offset: int) {
    exists r :: r in log && r.partition == p && r.offset == offset
  }

  /** The records of `p` with offsets in `[lo, hi)`, lowest first. */
  ghost function Listing(log: set<Row>, p: int, lo: int, hi: int): seq<Row>
    decreases hi - lo
  {
    if hi <= lo then [] else
    Listing(log, p, lo, hi - 1) +
    if Recorded(log, p, hi - 1) then
      var r :| r in log && r.partition == p && r.offset == hi - 1;
      [r]
    else []
  }

  /** How far a page may look: so many offsets of each partition, or all of them. */
  type Reach = Option<nat>

  function Nearest(pos: Position, m: Mark, direction: Direction, reach: Reach): int {
    if direction.Back? then (if reach.None? then m.lo else Max(m.lo, pos.offset - reach.value))
    else if reach.None? then m.hi else Min(m.hi, pos.offset + reach.value)
  }

  /** One partition's records within reach of a position, nearest first. */
  ghost function Nearby(log: set<Row>, pos: Position, m: Mark, direction: Direction, reach: Reach): seq<Row> {
    var far := Nearest(pos, m, direction, reach);
    Facing(direction, if direction.Back? then Listing(log, pos.partition, far, pos.offset)
                      else Listing(log, pos.partition, pos.offset, far))
  }

  function PositionOf(positions: seq<Position>, p: int): (pos: Option<Position>)
    ensures pos.Some? ==> pos.value in positions && pos.value.partition == p
    ensures pos.None? ==> forall q | q in positions :: q.partition != p
  {
    if positions == [] then None
    else if positions[0].partition == p then Some(positions[0])
    else PositionOf(positions[1..], p)
  }

  ghost function NearbyAt(log: set<Row>, positions: seq<Position>, marks: seq<Mark>, direction: Direction, reach: Reach,
                          p: int): seq<Row>
  {
    var pos, m := PositionOf(positions, p), Find(marks, p);
    if pos.None? || m.None? then [] else Nearby(log, pos.value, m.value, direction, reach)
  }

  function PositionParts(positions: seq<Position>): set<int> {
    set pos | pos in positions :: pos.partition
  }

  /** The log within reach of the positions, a stream for each partition. */
  ghost function Around(log: set<Row>, positions: seq<Position>, marks: seq<Mark>, direction: Direction,
                        reach: Reach): (m: Streams)
    ensures forall p :: At(m, p) == NearbyAt(log, positions, marks, direction, reach, p)
    ensures Labelled(m) && AllOutward(m, direction)
  {
    AroundOwn(log, positions, marks, direction, reach);
    map p | p in PositionParts(positions) :: NearbyAt(log, positions, marks, direction, reach, p)
  }

  lemma AroundOwn(log: set<Row>, positions: seq<Position>, marks: seq<Mark>, direction: Direction, reach: Reach)
    ensures forall p :: AllOf(NearbyAt(log, positions, marks, direction, reach, p), p)
    ensures forall p :: Outward(direction, NearbyAt(log, positions, marks, direction, reach, p))
  {
    forall p
      ensures AllOf(NearbyAt(log, positions, marks, direction, reach, p), p)
      ensures Outward(direction, NearbyAt(log, positions, marks, direction, reach, p))
    {
      var pos, m := PositionOf(positions, p), Find(marks, p);
      if pos.Some? && m.Some? { NearbyOwn(log, pos.value, m.value, direction, reach); }
    }
  }

  lemma NearbyOwn(log: set<Row>, pos: Position, m: Mark, direction: Direction, reach: Reach)
    ensures AllOf(Nearby(log, pos, m, direction, reach), pos.partition)
    ensures Outward(direction, Nearby(log, pos, m, direction, reach))
  {
    var far := Nearest(pos, m, direction, reach);
    var list := if direction.Back? then Listing(log, pos.partition, far, pos.offset)
                else Listing(log, pos.partition, pos.offset, far);
    ListingOrder(log, pos.partition, if direction.Back? then far else pos.offset,
                 if direction.Back? then pos.offset else far);
    FacingMembers(direction, list);
  }

  lemma {:induction false} ListingOrder(log: set<Row>, p: int, lo: int, hi: int)
    ensures Ascending(Listing(log, p, lo, hi)) && AllOf(Listing(log, p, lo, hi), p)
    ensures forall i | 0 <= i < |Listing(log, p, lo, hi)| ::
      lo <= Listing(log, p, lo, hi)[i].offset < hi && Listing(log, p, lo, hi)[i] in log
    decreases hi - lo
  {
    if lo < hi { ListingOrder(log, p, lo, hi - 1); }
  }

  lemma {:induction false} ListingMembers(log: set<Row>, p: int, lo: int, hi: int, r: Row)
    requires Rows.Keyed(log)
    ensures r in Listing(log, p, lo, hi) <==> r in Span(log, p, lo, hi)
    decreases hi - lo
  {
    if lo < hi {
      ListingMembers(log, p, lo, hi - 1, r);
      if r in log && r.partition == p && r.offset == hi - 1 {
        assert Recorded(log, p, hi - 1);
        assert Listing(log, p, lo, hi)[|Listing(log, p, lo, hi)| - 1] == r;
      }
    }
  }

  /** Every offset from `lo` up to `hi` holds a record. */
  predicate Dense(log: set<Row>, p: int, lo: int, hi: int) {
    forall x | lo <= x < hi :: Recorded(log, p, x)
  }

  lemma {:induction false} ListingDense(log: set<Row>, p: int, lo: int, hi: int)
    requires lo <= hi && Dense(log, p, lo, hi)
    ensures |Listing(log, p, lo, hi)| == hi - lo
    decreases hi - lo
  {
    if lo < hi { ListingDense(log, p, lo, hi - 1); }
  }

  lemma {:induction false} ListingSplits(log: set<Row>, p: int, lo: int, mid: int, hi: int)
    requires lo <= mid <= hi
    ensures Listing(log, p, lo, hi) == Listing(log, p, lo, mid) + Listing(log, p, mid, hi)
    decreases hi - mid
  {
    if mid < hi { ListingSplits(log, p, lo, mid, hi - 1); }
  }

  // ---- what a plan's windows hold ---------------------------------------------------------

  lemma OneMore(span: nat, n: nat, len: nat, total: nat)
    requires total <= span * n && len <= span
    ensures len + total <= span * (n + 1)
  {
    assert span * (n + 1) == span + span * n;
  }

  lemma {:induction false} TotalAtMost(windows: seq<PartitionRange>, span: nat)
    requires forall i | 0 <= i < |windows| :: 0 <= windows[i].end - windows[i].start <= span
    ensures 0 <= Total(windows) <= span * |windows|
  {
    if windows != [] {
      TotalAtMost(windows[1..], span);
      OneMore(span, |windows| - 1, windows[0].end - windows[0].start, Total(windows[1..]));
    }
  }

  lemma {:induction false} RangesCount(positions: seq<Position>, marks: seq<Mark>, direction: Direction, span: nat)
    requires AllInRange(positions, marks)
    ensures |PageRanges(positions, marks, direction, span)| <= ActiveCount(positions, marks, direction)
  {
    if positions != [] {
      var pos, rest := positions[0], positions[1..];
      assert InRange(pos, marks);
      forall i | 0 <= i < |rest| ensures InRange(rest[i], marks) { assert InRange(positions[i + 1], marks); }
      RangesCount(rest, marks, direction, span);
      RangeNextTo(pos, marks, direction, span);
    }
  }

  lemma RangesTotal(positions: seq<Position>, marks: seq<Mark>, direction: Direction, span: nat)
    requires AllInRange(positions, marks) && 0 < span
    ensures 0 <= Total(PageRanges(positions, marks, direction, span)) <=
            span * ActiveCount(positions, marks, direction)
  {
    var ws := PageRanges(positions, marks, direction, span);
    RangesNextTo(positions, marks, direction, span);
    forall i | 0 <= i < |ws| ensures 0 <= ws[i].end - ws[i].start <= span { assert ws[i] in ws; }
    TotalAtMost(ws, span);
    RangesCount(positions, marks, direction, span);
    LessEach(span, |ws|, ActiveCount(positions, marks, direction));
  }

  lemma {:induction false} AffordableAll(windows: seq<PartitionRange>, cap: int)
    requires Total(windows) <= cap && forall i | 0 <= i < |windows| :: windows[i].start < windows[i].end
    ensures Affordable(windows, cap) == windows && 0 <= Total(windows)
  {
    if windows != [] {
      TotalPositive(windows[1..]);
      AffordableAll(windows[1..], cap - (windows[0].end - windows[0].start));
      assert windows == [windows[0]] + windows[1..];
    }
  }

  lemma {:induction false} TotalPositive(windows: seq<PartitionRange>)
    requires forall i | 0 <= i < |windows| :: windows[i].start < windows[i].end
    ensures 0 <= Total(windows)
  {
    if windows != [] { TotalPositive(windows[1..]); }
  }

  /** With its share for each partition within what is left, a plan drops no window. */
  lemma PlanKeepsAll(positions: seq<Position>, marks: seq<Mark>, direction: Direction, span: nat, remaining: nat)
    requires AllInRange(positions, marks) && 0 < span && span * ActiveCount(positions, marks, direction) <= remaining
    ensures PlanChunk(positions, marks, direction, span, remaining) == PageRanges(positions, marks, direction, span)
  {
    var ws := PageRanges(positions, marks, direction, span);
    RangesTotal(positions, marks, direction, span);
    RangesNextTo(positions, marks, direction, span);
    forall i | 0 <= i < |ws| ensures ws[i].start < ws[i].end { assert ws[i] in ws; }
    AffordableAll(ws, remaining);
  }

  /** The windows belong to the positions, each to its own. */
  predicate RangeOf(ws: seq<PartitionRange>, positions: seq<Position>, marks: seq<Mark>, direction: Direction,
                    span: nat, p: int)
  {
    var i, pos := IndexOf(ws, p), PositionOf(positions, p);
    if pos.None? then i.None?
    else var w := PageRange(pos.value, marks, direction, span);
      if w.None? then i.None? else i.Some? && ws[i.value] == w.value
  }

  lemma {:induction false} RangeAt(positions: seq<Position>, marks: seq<Mark>, direction: Direction, span: nat, p: int)
    requires Distinct(positions)
    ensures RangeOf(PageRanges(positions, marks, direction, span), positions, marks, direction, span, p)
  {
    if positions != [] {
      var pos, rest := positions[0], positions[1..];
      RangeAt(rest, marks, direction, span, p);
      var w, ws := PageRange(pos, marks, direction, span), PageRanges(rest, marks, direction, span);
      if w.Some? {
        assert ([w.value] + ws)[1..] == ws;
      } else {
        assert [] + ws == ws;
      }
      if pos.partition == p {
        assert forall q | q in rest :: q.partition != p;
        assert PositionOf(rest, p).None?;
      }
    }
  }

  lemma OutwardUnique(direction: Direction, a: seq<Row>, b: seq<Row>)
    requires Outward(direction, a) && Outward(direction, b) && ToSet(a) == ToSet(b)
    ensures a == b
  {
    if direction.Back? {
      forall r ensures r in ToSet(Reverse(a)) <==> r in ToSet(Reverse(b)) {
        ReverseMember(a, r);
        ReverseMember(b, r);
        assert r in a <==> r in ToSet(a);
        assert r in b <==> r in ToSet(b);
      }
      AscendingUnique(Reverse(a), Reverse(b));
      assert a == Reverse(Reverse(a)) && b == Reverse(Reverse(b));
    } else {
      AscendingUnique(a, b);
    }
  }

  lemma NearbySet(log: set<Row>, pos: Position, m: Mark, direction: Direction, reach: Reach)
    requires Rows.Keyed(log)
    ensures ToSet(Nearby(log, pos, m, direction, reach)) ==
            Between(log, pos.partition, direction, pos.offset, Nearest(pos, m, direction, reach))
  {
    var far := Nearest(pos, m, direction, reach);
    var lo, hi := if direction.Back? then far else pos.offset, if direction.Back? then pos.offset else far;
    var list := Listing(log, pos.partition, lo, hi);
    FacingMembers(direction, list);
    forall r ensures r in ToSet(list) <==> r in Span(log, pos.partition, lo, hi) {
      ListingMembers(log, pos.partition, lo, hi, r);
    }
  }

  /** A stream read to its window's end is what lies within reach of the position. */
  lemma StreamIsNearby(log: set<Row>, pos: Position, marks: seq<Mark>, direction: Direction, span: nat,
                       w: PartitionRange, s: seq<Row>)
    requires Rows.Keyed(log) && InRange(pos, marks) && PageRange(pos, marks, direction, span) == Some(w)
    requires StreamOk(log, w, direction, true, s)
    ensures s == Nearby(log, pos, Find(marks, pos.partition).value, direction, Some(span))
  {
    var m := Find(marks, pos.partition).value;
    NearbySet(log, pos, m, direction, Some(span));
    NearbyOwn(log, pos, m, direction, Some(span));
    OutwardUnique(direction, s, Nearby(log, pos, m, direction, Some(span)));
  }

  lemma NothingNearby(log: set<Row>, pos: Position, marks: seq<Mark>, direction: Direction, span: nat)
    requires InRange(pos, marks) && PageRange(pos, marks, direction, span).None?
    ensures Nearby(log, pos, Find(marks, pos.partition).value, direction, Some(span)) == []
  {}

  lemma PositionInRange(positions: seq<Position>, marks: seq<Mark>, p: int)
    requires AllInRange(positions, marks) && PositionOf(positions, p).Some?
    ensures InRange(PositionOf(positions, p).value, marks)
  {
    var pos := PositionOf(positions, p).value;
    var i :| 0 <= i < |positions| && positions[i] == pos;
  }

  ghost predicate AllWhole(log: set<Row>, windows: seq<PartitionRange>, direction: Direction, fetched: seq<seq<Row>>) {
    |fetched| == |windows| && forall i | 0 <= i < |windows| :: StreamOk(log, windows[i], direction, true, fetched[i])
  }

  lemma StreamsAround(log: set<Row>, positions: seq<Position>, marks: seq<Mark>, direction: Direction, span: nat,
                      fetched: seq<seq<Row>>, p: int)
    requires Rows.Keyed(log) && AllInRange(positions, marks) && Distinct(positions)
    requires AllWhole(log, PageRanges(positions, marks, direction, span), direction, fetched)
    ensures StreamAt(PageRanges(positions, marks, direction, span), fetched, p) ==
            NearbyAt(log, positions, marks, direction, Some(span), p)
  {
    var ws := PageRanges(positions, marks, direction, span);
    RangeAt(positions, marks, direction, span, p);
    var i, pos := IndexOf(ws, p), PositionOf(positions, p);
    if pos.Some? {
      PositionInRange(positions, marks, p);
      if i.Some? {
        StreamIsNearby(log, pos.value, marks, direction, span, ws[i.value], fetched[i.value]);
      } else {
        NothingNearby(log, pos.value, marks, direction, span);
      }
    }
  }

  // ---- what a chunk shows -----------------------------------------------------------------

  function Selected(out: FetchOutcome, windows: seq<PartitionRange>, direction: Direction): seq<seq<Row>> {
    seq(|windows|, i requires 0 <= i < |windows| => Select(out.records, windows[i], out.complete, direction))
  }

  lemma SelectedOwn(out: FetchOutcome, windows: seq<PartitionRange>, direction: Direction)
    ensures Parallel(windows, Selected(out, windows, direction))
  {
    forall i | 0 <= i < |windows| ensures AllOf(Selected(out, windows, direction)[i], windows[i].partition) {
      var p := windows[i].partition;
      LaneMembers(out.records, p);
      SortedOwn(Lane(out.records, p), p);
    }
  }

  /** What merging the streams of a chunk gives, were nothing to stop it. */
  ghost function MergedRows(windows: seq<PartitionRange>, streams: seq<seq<Row>>, direction: Direction): seq<Row>
    requires Parallel(windows, streams)
  {
    GatherLabelled(windows, streams);
    Merge(Order(Server, direction), Gather(windows, streams))
  }

  /** The first `want` matches of a merge, in display order. */
  ghost function ShownOf(keep: Row -> bool, merged: seq<Row>, want: nat, direction: Direction): seq<Row> {
    Displayed(FirstOf(Matching(keep, merged), want), direction)
  }

  ghost function ChunkShows(keep: Row -> bool, want: nat, out: FetchOutcome, windows: seq<PartitionRange>,
                            direction: Direction): seq<Row>
  {
    SelectedOwn(out, windows, direction);
    ShownOf(keep, MergedRows(windows, Selected(out, windows, direction), direction), want, direction)
  }

  lemma {:induction false} MatchingAppend(keep: Row -> bool, s: seq<Row>, t: seq<Row>)
    ensures Matching(keep, s + t) == Matching(keep, s) + Matching(keep, t)
  {
    if t == [] {
      assert s + t == s;
    } else {
      var front := t[..|t| - 1];
      MatchingAppend(keep, s, front);
      assert (s + t)[..|s + t| - 1] == s + front;
    }
  }

  /** Stopping at the last match wanted, or with nothing left, takes the first matches. */
  lemma TakenAreFirst(windows: seq<PartitionRange>, fetched: seq<seq<Row>>, popped: seq<Row>, streams: seq<seq<Row>>,
                      direction: Direction, keep: Row -> bool, want: nat)
    requires DistinctRanges(windows) && Parallel(windows, fetched)
    requires Walked(Order(Server, direction), fetched, popped, streams)
    requires |Matching(keep, popped)| <= want
    requires |Matching(keep, popped)| == want || forall i | 0 <= i < |streams| :: streams[i] == []
    ensures Matching(keep, popped) == FirstOf(Matching(keep, MergedRows(windows, fetched, direction)), want)
  {
    var o := Order(Server, direction);
    WalkedMerges(o, windows, fetched, popped, streams);
    MatchingAppend(keep, popped, Merge(o, Gather(windows, streams)));
    if |Matching(keep, popped)| < want {
      NoneLeft(o, windows, streams);
    }
  }

  /** The best `want` matches within reach of the positions, in display order. */
  ghost function NearestMatches(log: set<Row>, keep: Row -> bool, positions: seq<Position>, marks: seq<Mark>,
                                direction: Direction, reach: Reach, want: nat): seq<Row>
  {
    ShownOf(keep, Merge(Order(Server, direction), Around(log, positions, marks, direction, reach)), want, direction)
  }

  predicate AllComplete(out: FetchOutcome, windows: seq<PartitionRange>) {
    forall i | 0 <= i < |windows| :: windows[i].partition in out.complete
  }

  /** A chunk scanned to the end shows the best matches its span reaches. */
  lemma ChunkIsNearest(log: set<Row>, keep: Row -> bool, positions: seq<Position>, marks: seq<Mark>,
                       direction: Direction, span: nat, out: FetchOutcome, want: nat)
    requires Rows.Keyed(log) && AllInRange(positions, marks) && Distinct(positions) && 0 < span
    requires Scanned(log, PageRanges(positions, marks, direction, span), out)
    requires AllComplete(out, PageRanges(positions, marks, direction, span))
    ensures ChunkShows(keep, want, out, PageRanges(positions, marks, direction, span), direction) ==
            NearestMatches(log, keep, positions, marks, direction, Some(span), want)
  {
    var ws := PageRanges(positions, marks, direction, span);
    var fetched := Selected(out, ws, direction);
    SelectedOwn(out, ws, direction);
    GatherLabelled(ws, fetched);
    RangesNextTo(positions, marks, direction, span);
    forall i | 0 <= i < |ws| ensures StreamOk(log, ws[i], direction, true, fetched[i]) {
      assert ws[i] in ws;
      SelectTrusted(log, ws[i], out, direction);
    }
    var near := Around(log, positions, marks, direction, Some(span));
    forall p ensures At(Gather(ws, fetched), p) == At(near, p) {
      StreamsAround(log, positions, marks, direction, span, fetched, p);
      assert At(Gather(ws, fetched), p) == StreamAt(ws, fetched, p);
    }
    MergeExtensional(Order(Server, direction), Gather(ws, fetched), near);
  }

  // ---- how far a chunk reaches ------------------------------------------------------------

  /** What a chunk would ask of each partition: an unfiltered page's first chunk what the
      page wants, any other a full span. */
  function ReachOf(filtered: bool, chunkIndex: nat, limit: nat): nat {
    if !filtered && chunkIndex == 0 then limit else CHUNK_SPAN
  }

  lemma NoneActive(positions: seq<Position>, marks: seq<Mark>, direction: Direction, span: nat)
    requires AllInRange(positions, marks) && 0 < span && ActiveCount(positions, marks, direction) == 0
    ensures PageRanges(positions, marks, direction, span) == []
  {
    var ws := PageRanges(positions, marks, direction, span);
    RangesTotal(positions, marks, direction, span);
    RangesNextTo(positions, marks, direction, span);
    forall i | 0 <= i < |ws| ensures ws[i].start < ws[i].end { assert ws[i] in ws; }
    if ws != [] { TotalPositive(ws[1..]); }
  }

  /** When what is left pays for it, a chunk's windows are the whole of its reach. */
  lemma PlanReaches(filtered: bool, chunkIndex: nat, limit: nat, remaining: nat, positions: seq<Position>,
                    marks: seq<Mark>, direction: Direction)
    requires AllInRange(positions, marks) && 1 <= limit && 1 <= remaining
    requires ReachOf(filtered, chunkIndex, limit) * ActiveCount(positions, marks, direction) <= remaining
    ensures PlanChunk(positions, marks, direction,
                      ChunkSpan(filtered, chunkIndex, limit, remaining, positions, marks, direction), remaining) ==
            PageRanges(positions, marks, direction, ReachOf(filtered, chunkIndex, limit))
  {
    var reach := ReachOf(filtered, chunkIndex, limit);
    var span := ChunkSpan(filtered, chunkIndex, limit, remaining, positions, marks, direction);
    var active := ActiveCount(positions, marks, direction);
    SpanFits(filtered, chunkIndex, limit, remaining, positions, marks, direction);
    if active == 0 {
      NoneActive(positions, marks, direction, span);
      NoneActive(positions, marks, direction, reach);
    } else {
      SpanIsReach(span, reach, active, remaining);
      PlanKeepsAll(positions, marks, direction, span, remaining);
    }
  }

  lemma SpanIsReach(span: nat, reach: nat, active: nat, remaining: nat)
    requires 1 <= active && reach * active <= remaining && span <= reach
    requires span < reach ==> remaining < active * (span + 1)
    ensures span == reach && span * active <= remaining
  {
    assert reach * active == active * reach;
    if span < reach { LessEach(active, span + 1, reach); }
  }

  // ---- the whole log ----------------------------------------------------------------------

  /** No hole among the `k` offsets nearest to the position. */
  predicate DenseNear(log: set<Row>, pos: Position, marks: seq<Mark>, direction: Direction, k: nat) {
    var m := Find(marks, pos.partition);
    m.Some? ==>
      var far := Nearest(pos, m.value, direction, Some(k));
      if direction.Back? then Dense(log, pos.partition, far, pos.offset) else Dense(log, pos.partition, pos.offset, far)
  }

  lemma ReverseAppend(a: seq<Row>, b: seq<Row>)
    ensures Reverse(a + b) == Reverse(b) + Reverse(a)
  {}

  lemma NearbyHeads(log: set<Row>, pos: Position, marks: seq<Mark>, direction: Direction, k: nat)
    requires InRange(pos, marks) && DenseNear(log, pos, marks, direction, k)
    ensures var m := Find(marks, pos.partition).value;
      var near, all := Nearby(log, pos, m, direction, Some(k)), Nearby(log, pos, m, direction, None);
      near <= all && (near == all || k <= |near|)
  {
    var m, p := Find(marks, pos.partition).value, pos.partition;
    var far := Nearest(pos, m, direction, Some(k));
    if direction.Back? {
      ListingSplits(log, p, m.lo, far, pos.offset);
      ListingDense(log, p, far, pos.offset);
      ReverseAppend(Listing(log, p, m.lo, far), Listing(log, p, far, pos.offset));
    } else {
      ListingSplits(log, p, pos.offset, far, m.hi);
      ListingDense(log, p, pos.offset, far);
    }
  }

  /** Without holes nearby, the best `k` of what lies within reach are the best `k` of all. */
  lemma NearestOfAll(log: set<Row>, positions: seq<Position>, marks: seq<Mark>, direction: Direction, k: nat)
    requires AllInRange(positions, marks)
    requires forall pos | pos in positions :: DenseNear(log, pos, marks, direction, k)
    ensures FirstOf(Merge(Order(Server, direction), Around(log, positions, marks, direction, Some(k))), k) ==
            FirstOf(Merge(Order(Server, direction), Around(log, positions, marks, direction, None)), k)
  {
    var near := Around(log, positions, marks, direction, Some(k));
    var all := Around(log, positions, marks, direction, None);
    forall p ensures At(near, p) <= At(all, p) && (At(near, p) == At(all, p) || k <= |At(near, p)|) {
      var pos := PositionOf(positions, p);
      if pos.Some? {
        PositionInRange(positions, marks, p);
        NearbyHeads(log, pos.value, marks, direction, k);
      }
    }
    MergeOfHeads(Order(Server, direction), near, all, k);
  }

  lemma {:induction false} MatchingEvery(keep: Row -> bool, s: seq<Row>)
    requires forall r :: keep(r)
    ensures Matching(keep, s) == s
  {
    if s != [] {
      MatchingEvery(keep, s[..|s| - 1]);
      assert s == s[..|s| - 1] + [s[|s| - 1]];
    }
  }

  /** The best `k` rows of the log beyond the positions, whatever they are. */
  ghost function BestRows(log: set<Row>, positions: seq<Position>, marks: seq<Mark>, direction: Direction,
                          k: nat): seq<Row>
  {
    FirstOf(Merge(Order(Server, direction), Around(log, positions, marks, direction, None)), k)
  }

  lemma NearestAreBest(log: set<Row>, keep: Row -> bool, positions: seq<Position>, marks: seq<Mark>,
                       direction: Direction, k: nat)
    requires AllInRange(positions, marks) && forall r :: keep(r)
    requires forall pos | pos in positions :: DenseNear(log, pos, marks, direction, k)
    ensures NearestMatches(log, keep, positions, marks, direction, Some(k), k) ==
            BestRows(log, positions, marks, direction, k)
  {
    var merged := Merge(Order(Server, direction), Around(log, positions, marks, direction, Some(k)));
    MatchingEvery(keep, merged);
    NearestOfAll(log, positions, marks, direction, k);
    FirstDisplayed(Around(log, positions, marks, direction, Some(k)), direction, k);
  }

  lemma FirstDisplayed(m: Streams, direction: Direction, k: nat)
    requires Labelled(m) && AllOutward(m, direction)
    ensures Displayed(FirstOf(Merge(Order(Server, direction), m), k), direction) ==
            FirstOf(Merge(Order(Server, direction), m), k)
  {
    var merged := Merge(Order(Server, direction), m);
    assert merged[..|merged|] == merged;
    UnfilteredKeepsPopOrder(m, direction, if k < |merged| then k else |merged|);
  }

  /** Every record of the log between a position and its watermark is among all of them. */
  lemma AroundHolds(log: set<Row>, positions: seq<Position>, marks: seq<Mark>, direction: Direction,
                    after: seq<Position>, r: Row)
    requires Rows.Keyed(log) && AllInRange(positions, marks) && Distinct(positions)
    requires AllInRange(after, marks) && Steps(direction, positions, after)
    requires r in log && Crosses(direction, positions, after, r)
    ensures r in Merge(Order(Server, direction), Around(log, positions, marks, direction, None))
  {
    var i :| 0 <= i < |positions| && i < |after| && CrossedBy(direction, positions[i], after[i], r);
    assert InRange(positions[i], marks) && InRange(after[i], marks);
    assert PositionOf(positions, r.partition) == Some(positions[i]);
    var m, all := Find(marks, r.partition).value, Around(log, positions, marks, direction, None);
    NearbySet(log, positions[i], m, direction, None);
    assert r in ToSet(Nearby(log, positions[i], m, direction, None));
    assert At(all, r.partition) == NearbyAt(log, positions, marks, direction, None, r.partition);
    MergeKeepsLanes(Order(Server, direction), all, r.partition);
    LaneMembers(Merge(Order(Server, direction), all), r.partition);
  }

  /** Rows that begin with the best `k` there are, go over no row twice and number at most
      `k`, are the best `k`. */
  lemma BestAreAll(log: set<Row>, keep: Row -> bool, positions: seq<Position>, marks: seq<Mark>,
                   direction: Direction, after: seq<Position>, shown: seq<Row>, k: nat)
    requires Rows.Keyed(log) && AllInRange(positions, marks) && Distinct(positions)
    requires AllInRange(after, marks) && Steps(direction, positions, after)
    requires Once(shown) && |shown| <= k && ToSet(shown) == Found(log, keep, direction, positions, after)
    requires BestRows(log, positions, marks, direction, k) <= shown
    ensures shown == BestRows(log, positions, marks, direction, k)
  {
    var o, all := Order(Server, direction), Around(log, positions, marks, direction, None);
    if |Merge(o, all)| <= k {
      forall r | r in shown ensures r in Merge(o, all) {
        assert r in ToSet(shown);
        AroundHolds(log, positions, marks, direction, after, r);
      }
      PrefixOnce(Merge(o, all), shown);
    }
  }

  lemma NewAt(s: seq<Row>, n: nat)
    requires Once(s) && n < |s|
    ensures s[n] !in s[..n]
  {
    forall i | 0 <= i < n ensures s[..n][i] != s[n] {}
  }

  lemma PrefixOnce(front: seq<Row>, s: seq<Row>)
    requires front <= s && Once(s) && forall r | r in s :: r in front
    ensures s == front
  {
    assert s[..|front|] == front;
    if |front| < |s| { NewAt(s, |front|); }
  }
}
