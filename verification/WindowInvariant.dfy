/** Per partition the window holds exactly the matching records between its edges. */
module WindowInvariant {
  import opened Rows
  import opened MergeOrder
  import opened WindowState

  /** Where the held span of `p` starts: the bottom edge, or else the oldest row. */
  function Floor(w: Window, p: int): Option<int> {
    if p in w.bottom then Some(w.bottom[p])
    else if At(w.held, p) != [] then Some(At(w.held, p)[0].offset)
    else None
  }

  /** Where the held span of `p` ends: the top edge, or else just past the newest row. */
  function Ceiling(w: Window, p: int): Option<int> {
    if p in w.top then Some(w.top[p])
    else if At(w.held, p) != [] then Some(At(w.held, p)[|At(w.held, p)| - 1].offset + 1)
    else None
  }

  /** The rows of `p` held are exactly the log's rows of its span. */
  ghost predicate ExactAt(w: Window, log: set<Row>, p: int) {
    Floor(w, p).Some? && Ceiling(w, p).Some? ==>
      && Floor(w, p).value <= Ceiling(w, p).value
      && ToSet(At(w.held, p)) == Span(log, p, Floor(w, p).value, Ceiling(w, p).value)
  }

  ghost predicate Exact(w: Window, log: set<Row>) {
    WellFormed(w.held) && forall p :: ExactAt(w, log, p)
  }

  lemma ExactIsGrounded(w: Window, log: set<Row>)
    requires Exact(w, log)
    ensures Grounded(w.held, log)
  {
    forall p ensures ToSet(At(w.held, p)) <= log {
      assert ExactAt(w, log, p);
      if At(w.held, p) != [] {
        assert ToSet(At(w.held, p)) == Span(log, p, Floor(w, p).value, Ceiling(w, p).value);
      }
    }
  }

  // ---- one page ---------------------------------------------------------------

  ghost predicate Crossed(direction: Direction, start: Edges, final: Edges, r: Row) {
    r.partition in start && r.partition in final &&
    match direction
    case Back => final[r.partition] <= r.offset < start[r.partition]
    case Forward => start[r.partition] <= r.offset < final[r.partition]
  }

  /** A completed page delivered exactly the log's rows between the positions it
      was requested with and the positions it reached. */
  ghost predicate Delivered(log: set<Row>, direction: Direction, start: Edges, final: Edges, rows: seq<Row>) {
    && start.Keys == final.Keys
    && (forall p | p in start :: if direction.Back? then final[p] <= start[p] else start[p] <= final[p])
    && (forall r :: r in rows <==> r in log && Crossed(direction, start, final, r))
  }

  ghost predicate Follows(cursor: Option<Edges>, final: Edges) {
    cursor.Some? ==> cursor.value == final
  }

  lemma AscendingEnds(arr: seq<Row>)
    requires Ascending(arr) && arr != []
    ensures forall r | r in arr :: arr[0].offset <= r.offset <= arr[|arr| - 1].offset
  {}

  /** The span of `p` a page went over. */
  ghost function SpanOf(log: set<Row>, direction: Direction, start: Edges, final: Edges, p: int): set<Row> {
    if p !in start || p !in final then {}
    else if direction.Back? then Span(log, p, final[p], start[p])
    else Span(log, p, start[p], final[p])
  }

  /** The lane a page delivers for one partition is one span of the log. */
  lemma DeliveredLane(log: set<Row>, direction: Direction, start: Edges, final: Edges, rows: seq<Row>, p: int)
    requires Delivered(log, direction, start, final, rows)
    ensures ToSet(rows) <= log
    ensures ToSet(Lane(rows, p)) == SpanOf(log, direction, start, final, p)
  {
    LaneMembers(rows, p);
    assert p in start ==> p in final;
  }

  lemma LaneEnds(w: Window, p: int)
    requires WellFormed(w.held)
    ensures var arr := At(w.held, p); arr != [] ==>
      && (exists r :: r in ToSet(arr) && r.offset == arr[0].offset)
      && (exists r :: r in ToSet(arr) && r.offset == arr[|arr| - 1].offset)
      && (forall r :: r in ToSet(arr) ==> arr[0].offset <= r.offset <= arr[|arr| - 1].offset)
  {
    var arr := At(w.held, p);
    assert LaneOk(w.held, p);
    if arr != [] {
      AscendingEnds(arr);
      assert arr[0] in ToSet(arr) && arr[|arr| - 1] in ToSet(arr);
    }
  }

  ghost predicate SameEdges(w: Window, w': Window, p: int) {
    && (p in w.bottom <==> p in w'.bottom) && (p in w.bottom ==> w.bottom[p] == w'.bottom[p])
    && (p in w.top <==> p in w'.top) && (p in w.top ==> w.top[p] == w'.top[p])
  }

  lemma Untouched(w: Window, w': Window, log: set<Row>, p: int)
    requires WellFormed(w.held) && WellFormed(w'.held) && ExactAt(w, log, p)
    requires ToSet(At(w'.held, p)) == ToSet(At(w.held, p)) && SameEdges(w, w', p)
    ensures ExactAt(w', log, p)
  {
    assert LaneOk(w.held, p) && LaneOk(w'.held, p);
    AscendingUnique(At(w'.held, p), At(w.held, p));
  }

  /** A partition whose rows all arrived in one delivery. */
  lemma Begins(w: Window, log: set<Row>, lo: int, hi: int, p: int)
    requires WellFormed(w.held) && ToSet(At(w.held, p)) == Span(log, p, lo, hi)
    requires p in w.bottom ==> lo <= w.bottom[p] <= hi && Span(log, p, lo, w.bottom[p]) == {}
    requires p in w.top ==> lo <= w.top[p] <= hi && Span(log, p, w.top[p], hi) == {}
    requires p in w.bottom && p in w.top ==> w.bottom[p] <= w.top[p]
    ensures ExactAt(w, log, p)
  {
    LaneEnds(w, p);
    if p in w.bottom { assert forall r | r in Span(log, p, lo, hi) :: r !in Span(log, p, lo, w.bottom[p]); }
    if p in w.top { assert forall r | r in Span(log, p, lo, hi) :: r !in Span(log, p, w.top[p], hi); }
  }

  lemma GrowsDown(w: Window, w': Window, log: set<Row>, n: set<Row>, p: int)
    requires WellFormed(w.held) && WellFormed(w'.held) && ExactAt(w, log, p)
    requires ToSet(At(w'.held, p)) == ToSet(At(w.held, p)) + n
    requires p in w.bottom && p in w'.bottom && w'.bottom[p] <= w.bottom[p]
    requires n == Span(log, p, w'.bottom[p], w.bottom[p])
    requires SameEdges(w.(bottom := map[]), w'.(bottom := map[]), p)
    ensures ExactAt(w', log, p)
  {
    var c := Ceiling(w, p);
    Begins(w', log, w'.bottom[p], if c.Some? then c.value else w.bottom[p], p);
  }

  lemma GrowsUp(w: Window, w': Window, log: set<Row>, n: set<Row>, p: int)
    requires WellFormed(w.held) && WellFormed(w'.held) && ExactAt(w, log, p)
    requires ToSet(At(w'.held, p)) == ToSet(At(w.held, p)) + n
    requires Ceiling(w, p).Some? && p in w'.top && Ceiling(w, p).value <= w'.top[p]
    requires n == Span(log, p, Ceiling(w, p).value, w'.top[p])
    requires SameEdges(w.(top := map[]), w'.(top := map[]), p)
    ensures ExactAt(w', log, p)
  {
    var f := Floor(w, p);
    Begins(w', log, if f.Some? then f.value else Ceiling(w, p).value, w'.top[p], p);
  }

  // ---- pages ------------------------------------------------------------------

  function Least(a: Option<int>, b: Option<int>): Option<int> {
    if a.None? then b else if b.None? then a else Some(Min(a.value, b.value))
  }

  function Greatest(a: Option<int>, b: Option<int>): Option<int> {
    if a.None? then b else if b.None? then a else Some(Max(a.value, b.value))
  }

  function Or(a: Option<int>, b: Option<int>): Option<int> { if a.Some? then a else b }

  function CursorAt(cursor: Option<Edges>, p: int): Option<int> {
    if cursor.Some? then Entry(cursor.value, p) else None
  }

  lemma EntryLower(m: Edges, n: Edges, p: int)
    ensures Entry(Lower(m, n), p) == Least(Entry(m, p), Entry(n, p))
    ensures Entry(Raise(m, n), p) == Greatest(Entry(m, p), Entry(n, p))
  {}

  lemma EntryOver(m: Edges, n: Edges, p: int)
    ensures Entry(m + n, p) == Or(Entry(n, p), Entry(m, p))
  {}

  /** What a page does to the two edges of one partition: its own side follows the
      rows and then the cursor; an anchor page seeds the other side where absent. */
  lemma PageEdges(w: Window, rows: seq<Row>, direction: Direction, start: Option<Edges>, cursor: Option<Edges>,
                  attach: bool, p: int)
    ensures var w' := WithPage(w, rows, direction, start, cursor, attach);
      var lo, hi := Entry(Lowest(Fresh(w.held, rows)), p), Entry(PastHighest(Fresh(w.held, rows)), p);
      match direction
      case Back =>
        && Entry(w'.bottom, p) == Or(CursorAt(cursor, p), Least(Entry(w.bottom, p), lo))
        && Entry(w'.top, p) == (if start.None? then Or(Entry(w.top, p), hi) else Entry(w.top, p))
      case Forward =>
        && Entry(w'.top, p) == Or(CursorAt(cursor, p), Greatest(Entry(w.top, p), hi))
        && Entry(w'.bottom, p) == (if start.None? then Or(Entry(w.bottom, p), lo) else Entry(w.bottom, p))
  {
    var lo, hi := Lowest(Fresh(w.held, rows)), PastHighest(Fresh(w.held, rows));
    EdgesMoved(w.(held := InsertAll(w.held, rows)), lo, hi, direction, start.None?, cursor, attach, p);
  }

  lemma EdgesMoved(w: Window, lo: Edges, hi: Edges, direction: Direction, anchored: bool, cursor: Option<Edges>,
                   attach: bool, p: int)
    ensures var w' := Moved(w, lo, hi, direction, anchored, cursor, attach);
      match direction
      case Back =>
        && Entry(w'.bottom, p) == Or(CursorAt(cursor, p), Least(Entry(w.bottom, p), Entry(lo, p)))
        && Entry(w'.top, p) == (if anchored then Or(Entry(w.top, p), Entry(hi, p)) else Entry(w.top, p))
      case Forward =>
        && Entry(w'.top, p) == Or(CursorAt(cursor, p), Greatest(Entry(w.top, p), Entry(hi, p)))
        && Entry(w'.bottom, p) == (if anchored then Or(Entry(w.bottom, p), Entry(lo, p)) else Entry(w.bottom, p))
  {
    EntryLower(w.bottom, lo, p);
    EntryLower(w.top, hi, p);
    EntryOver(hi, w.top, p);
    EntryOver(lo, w.bottom, p);
    if cursor.Some? {
      EntryOver(Lower(w.bottom, lo), cursor.value, p);
      EntryOver(Raise(w.top, hi), cursor.value, p);
    }
  }

  ghost predicate Cleared(w: Window) {
    w.held == map[] && w.bottom == map[] && w.top == map[]
  }

  /** A lane delivered to an empty window, with the edges the page left it. */
  lemma AnchorLane(w: Window, log: set<Row>, n: set<Row>, direction: Direction, from: int, to: int,
                   cursor: Option<int>, lo: Option<int>, hi: Option<int>, p: int)
    requires WellFormed(w.held) && ToSet(At(w.held, p)) == n
    requires n == (if direction.Back? then Span(log, p, to, from) else Span(log, p, from, to))
    requires if direction.Back? then to <= from else from <= to
    requires EdgesOf(n, lo, hi) && (cursor.Some? ==> cursor.value == to)
    requires Entry(w.bottom, p) == if direction.Back? then Or(cursor, lo) else lo
    requires Entry(w.top, p) == if direction.Back? then hi else Or(cursor, hi)
    ensures ExactAt(w, log, p)
  {
    if direction.Back? { Begins(w, log, to, from, p); } else { Begins(w, log, from, to, p); }
  }

  /** An anchor page on an empty window. */
  lemma AnchorExactAt(w: Window, log: set<Row>, rows: seq<Row>, direction: Direction, start: Edges, final: Edges,
                      cursor: Option<Edges>, attach: bool, p: int)
    requires Cleared(w)
    requires Keyed(log) && Delivered(log, direction, start, final, rows) && Follows(cursor, final)
    ensures ExactAt(WithPage(w, rows, direction, None, cursor, attach), log, p)
  {
    var w' := WithPage(w, rows, direction, None, cursor, attach);
    AnchorNews(w, log, rows, direction, start, final, p);
    PageEdges(w, rows, direction, None, cursor, attach, p);
    var lo, hi := Entry(Lowest(Fresh(w.held, rows)), p), Entry(PastHighest(Fresh(w.held, rows)), p);
    var from := if p in start then start[p] else 0;
    var to := if p in start then final[p] else 0;
    AnchorLane(w', log, NewAt(w.held, rows, p), direction, from, to, CursorAt(cursor, p), lo, hi, p);
  }

  lemma AnchorNews(w: Window, log: set<Row>, rows: seq<Row>, direction: Direction, start: Edges, final: Edges, p: int)
    requires Cleared(w) && Keyed(log) && Delivered(log, direction, start, final, rows)
    ensures NewAt(w.held, rows, p) == SpanOf(log, direction, start, final, p)
    ensures EdgesOf(NewAt(w.held, rows, p), Entry(Lowest(Fresh(w.held, rows)), p),
        Entry(PastHighest(Fresh(w.held, rows)), p))
    ensures WellFormed(InsertAll(w.held, rows))
    ensures ToSet(At(InsertAll(w.held, rows), p)) == NewAt(w.held, rows, p)
  {
    InsertAllWellFormed(w.held, rows);
    DeliveredLane(log, direction, start, final, rows, p);
    FreshIsNew(w.held, rows, log, p);
    NewEdges(w.held, rows, log, p);
  }

  /** The window's own edge on the side a page was read from. */
  ghost predicate FromEdge(w: Window, direction: Direction, start: Edges, p: int) {
    p in start ==> match direction
      case Back => p in w.bottom && w.bottom[p] == start[p]
      case Forward => p in w.top && w.top[p] == start[p]
  }

  /** The lane of a page read from the window's own edge on that side. */
  lemma PageNews(w: Window, log: set<Row>, rows: seq<Row>, direction: Direction, start: Edges, final: Edges, p: int)
    requires Keyed(log) && WellFormed(w.held) && Grounded(w.held, log) && ExactAt(w, log, p)
    requires Delivered(log, direction, start, final, rows) && FromEdge(w, direction, start, p)
    ensures NewAt(w.held, rows, p) == SpanOf(log, direction, start, final, p)
    ensures EdgesOf(NewAt(w.held, rows, p), Entry(Lowest(Fresh(w.held, rows)), p),
        Entry(PastHighest(Fresh(w.held, rows)), p))
    ensures WellFormed(InsertAll(w.held, rows))
    ensures ToSet(At(InsertAll(w.held, rows), p)) == ToSet(At(w.held, p)) + NewAt(w.held, rows, p)
  {
    InsertAllWellFormed(w.held, rows);
    DeliveredLane(log, direction, start, final, rows, p);
    LaneEnds(w, p);
    FreshIsNew(w.held, rows, log, p);
    NewEdges(w.held, rows, log, p);
  }

  /** One partition of a page read from the window's own edge. */
  lemma PageLane(w: Window, w': Window, log: set<Row>, n: set<Row>, direction: Direction, start: Edges, final: Edges,
                 cursor: Option<int>, lo: Option<int>, hi: Option<int>, p: int)
    requires WellFormed(w.held) && WellFormed(w'.held) && ExactAt(w, log, p) && FromEdge(w, direction, start, p)
    requires p in start <==> p in final
    requires p in start ==> if direction.Back? then final[p] <= start[p] else start[p] <= final[p]
    requires n == SpanOf(log, direction, start, final, p) && EdgesOf(n, lo, hi)
    requires cursor.Some? ==> p in final && cursor.value == final[p]
    requires ToSet(At(w'.held, p)) == ToSet(At(w.held, p)) + n
    requires Entry(w'.bottom, p) == if direction.Back? then Or(cursor, Least(Entry(w.bottom, p), lo))
      else Entry(w.bottom, p)
    requires Entry(w'.top, p) == if direction.Back? then Entry(w.top, p) else Or(cursor, Greatest(Entry(w.top, p), hi))
    ensures ExactAt(w', log, p)
  {
    if p !in start {
      Untouched(w, w', log, p);
    } else if direction.Back? {
      GrowsDown(w, w', log, n, p);
    } else {
      GrowsUp(w, w', log, n, p);
    }
  }

  /** A page read from the window's own edge on that side. */
  lemma PageExactAt(w: Window, log: set<Row>, rows: seq<Row>, direction: Direction, start: Edges, final: Edges,
                    cursor: Option<Edges>, attach: bool, p: int)
    requires Keyed(log) && WellFormed(w.held) && Grounded(w.held, log) && ExactAt(w, log, p)
    requires Delivered(log, direction, start, final, rows) && Follows(cursor, final)
    requires FromEdge(w, direction, start, p)
    ensures ExactAt(WithPage(w, rows, direction, Some(start), cursor, attach), log, p)
  {
    var w' := WithPage(w, rows, direction, Some(start), cursor, attach);
    PageNews(w, log, rows, direction, start, final, p);
    PageEdges(w, rows, direction, Some(start), cursor, attach, p);
    var lo, hi := Entry(Lowest(Fresh(w.held, rows)), p), Entry(PastHighest(Fresh(w.held, rows)), p);
    PageLane(w, w', log, NewAt(w.held, rows, p), direction, start, final, CursorAt(cursor, p), lo, hi, p);
  }

  // ---- live rows ----------------------------------------------------------------

  /** `s` lies above what the window covers of its partition. */
  ghost predicate Beyond(w: Window, rows: seq<Row>, s: Row) {
    var p := s.partition;
    if Ceiling(w, p).Some? then Ceiling(w, p).value <= s.offset
    else if p in w.bottom then w.bottom[p] <= s.offset
    else exists q :: q in rows && q.partition == p && q.offset <= s.offset
  }

  /** What a live feed may deliver: a row already trimmed away or never owed, a
      row already held, or a new row with no gap of real records below it. */
  ghost predicate LiveFeed(w: Window, log: set<Row>, rows: seq<Row>) {
    forall r | r in rows ::
      && r in log
      && (|| !KeepsBottom(w, r)
          || r in At(w.held, r.partition)
          || (Beyond(w, rows, r) &&
              forall s | s in log && s.partition == r.partition && s.offset < r.offset && Beyond(w, rows, s) ::
                s in rows))
  }

  /** Where the news of a live delivery must start for `p`. */
  function LiveBase(w: Window, lo: Option<int>, p: int): Option<int> {
    if Ceiling(w, p).Some? then Ceiling(w, p) else if p in w.bottom then Some(w.bottom[p]) else lo
  }

  lemma NewLiveRow(w: Window, rows: seq<Row>, r: Row)
    ensures r in NewAt(w.held, Safe(w, rows), r.partition) <==>
            r in rows && KeepsBottom(w, r) && r !in At(w.held, r.partition)
  {
    SafeMembers(w, rows);
    LaneMembers(Safe(w, rows), r.partition);
  }

  lemma NewLiveLane(w: Window, rows: seq<Row>, p: int)
    ensures forall r | r in NewAt(w.held, Safe(w, rows), p) :: r.partition == p
  {
    LaneMembers(Safe(w, rows), p);
  }

  /** Above its ceiling a window holds nothing. */
  lemma CeilingBounds(w: Window, log: set<Row>, p: int)
    requires WellFormed(w.held) && ExactAt(w, log, p)
    ensures Ceiling(w, p).Some? ==> forall r | r in At(w.held, p) :: r.offset < Ceiling(w, p).value
    ensures Ceiling(w, p).None? ==> At(w.held, p) == []
    ensures Ceiling(w, p).Some? && p in w.bottom ==> w.bottom[p] <= Ceiling(w, p).value
  {
    LaneEnds(w, p);
    assert forall r | r in At(w.held, p) :: r in ToSet(At(w.held, p));
  }

  lemma LiveNewsAbove(w: Window, log: set<Row>, rows: seq<Row>, r: Row, lo: Option<int>, hi: Option<int>)
    requires LiveFeed(w, log, rows)
    requires EdgesOf(NewAt(w.held, Safe(w, rows), r.partition), lo, hi)
    requires r in NewAt(w.held, Safe(w, rows), r.partition)
    ensures r in log && LiveBase(w, lo, r.partition).value <= r.offset < hi.value
    ensures forall s | s in log && s.partition == r.partition && s.offset < r.offset && Beyond(w, rows, s) :: s in rows
  {
    NewLiveRow(w, rows, r);
  }

  lemma LiveNewsGapless(w: Window, log: set<Row>, rows: seq<Row>, q: Row, s: Row, lo: Option<int>, hi: Option<int>)
    requires Keyed(log) && WellFormed(w.held) && ExactAt(w, log, s.partition) && LiveFeed(w, log, rows)
    requires q.partition == s.partition && q in NewAt(w.held, Safe(w, rows), s.partition)
    requires EdgesOf(NewAt(w.held, Safe(w, rows), s.partition), lo, hi)
    requires s in log && LiveBase(w, lo, s.partition).value <= s.offset <= q.offset
    ensures s in NewAt(w.held, Safe(w, rows), s.partition)
  {
    LiveNewsAbove(w, log, rows, q, lo, hi);
    CeilingBounds(w, log, s.partition);
    NewLiveRow(w, rows, s);
    if Ceiling(w, s.partition).None? && s.partition !in w.bottom {
      var e :| e in NewAt(w.held, Safe(w, rows), s.partition) && e.offset == lo.value;
      NewLiveLane(w, rows, s.partition);
      NewLiveRow(w, rows, e);
    }
    assert Beyond(w, rows, s);
    NewLiveRow(w, rows, q);
    assert s.offset == q.offset ==> s == q;
  }

  /** Whatever a live feed adds to a partition is one gapless span above it. */
  lemma LiveNews(w: Window, log: set<Row>, rows: seq<Row>, p: int, lo: Option<int>, hi: Option<int>)
    requires Keyed(log) && WellFormed(w.held) && ExactAt(w, log, p) && LiveFeed(w, log, rows)
    requires EdgesOf(NewAt(w.held, Safe(w, rows), p), lo, hi)
    requires NewAt(w.held, Safe(w, rows), p) != {}
    ensures LiveBase(w, lo, p).value < hi.value
    ensures NewAt(w.held, Safe(w, rows), p) == Span(log, p, LiveBase(w, lo, p).value, hi.value)
  {
    var n, base := NewAt(w.held, Safe(w, rows), p), LiveBase(w, lo, p).value;
    NewLiveLane(w, rows, p);
    var q :| q in n && q.offset + 1 == hi.value;
    LiveNewsAbove(w, log, rows, q, lo, hi);
    forall s ensures s in n <==> s in Span(log, p, base, hi.value) {
      if s in n { LiveNewsAbove(w, log, rows, s, lo, hi); }
      if s in Span(log, p, base, hi.value) { LiveNewsGapless(w, log, rows, q, s, lo, hi); }
    }
  }

  lemma LiveEdges(w: Window, rows: seq<Row>, p: int)
    ensures var w' := WithLive(w, rows);
      && Entry(w'.bottom, p) == Entry(w.bottom, p)
      && Entry(w'.top, p) == Greatest(Entry(w.top, p), Entry(PastHighest(Fresh(w.held, Safe(w, rows))), p))
  {}

  lemma LiveLane(w: Window, w': Window, log: set<Row>, n: set<Row>, lo: Option<int>, hi: Option<int>, p: int)
    requires WellFormed(w.held) && WellFormed(w'.held) && ExactAt(w, log, p) && EdgesOf(n, lo, hi)
    requires n != {} ==> LiveBase(w, lo, p).value < hi.value && n == Span(log, p, LiveBase(w, lo, p).value, hi.value)
    requires ToSet(At(w'.held, p)) == ToSet(At(w.held, p)) + n
    requires Entry(w'.bottom, p) == Entry(w.bottom, p) && Entry(w'.top, p) == Greatest(Entry(w.top, p), hi)
    ensures ExactAt(w', log, p)
  {
    if n == {} {
      Untouched(w, w', log, p);
    } else if Ceiling(w, p).Some? {
      GrowsUp(w, w', log, n, p);
    } else {
      Begins(w', log, LiveBase(w, lo, p).value, hi.value, p);
    }
  }

  lemma LiveExactAt(w: Window, log: set<Row>, rows: seq<Row>, p: int)
    requires Keyed(log) && WellFormed(w.held) && Grounded(w.held, log) && ExactAt(w, log, p) && LiveFeed(w, log, rows)
    ensures ExactAt(WithLive(w, rows), log, p)
  {
    var safe := Safe(w, rows);
    SafeMembers(w, rows);
    InsertAllWellFormed(w.held, safe);
    FreshIsNew(w.held, safe, log, p);
    NewEdges(w.held, safe, log, p);
    var lo, hi := Entry(Lowest(Fresh(w.held, safe)), p), Entry(PastHighest(Fresh(w.held, safe)), p);
    if NewAt(w.held, safe, p) != {} { LiveNews(w, log, rows, p, lo, hi); }
    LiveEdges(w, rows, p);
    LiveLane(w, WithLive(w, rows), log, NewAt(w.held, safe, p), lo, hi, p);
  }

  // ---- trims --------------------------------------------------------------------

  /** A lane that is one span of the log, cut in two, is two spans. */
  lemma SplitSpan(arr: seq<Row>, i: nat, log: set<Row>, p: int, f: int, c: int)
    requires Ascending(arr) && arr != [] && i <= |arr| && ToSet(arr) == Span(log, p, f, c)
    ensures f <= arr[0].offset && arr[|arr| - 1].offset < c
    ensures ToSet(arr[..i]) == Span(log, p, f, if i < |arr| then arr[i].offset else arr[|arr| - 1].offset + 1)
    ensures ToSet(arr[i..]) == Span(log, p, if i > 0 then arr[i - 1].offset + 1 else f, c)
  {
    assert arr[0] in ToSet(arr) && arr[|arr| - 1] in ToSet(arr);
    var b := if i < |arr| then arr[i].offset else arr[|arr| - 1].offset + 1;
    var d := if i > 0 then arr[i - 1].offset + 1 else f;
    forall r ensures r in arr[..i] <==> r in Span(log, p, f, b) {
      assert r in ToSet(arr) <==> r in Span(log, p, f, c);
      if r in arr {
        var j :| 0 <= j < |arr| && arr[j] == r;
        assert j < i ==> arr[..i][j] == r;
      }
    }
    forall r ensures r in arr[i..] <==> r in Span(log, p, d, c) {
      assert r in ToSet(arr) <==> r in Span(log, p, f, c);
      if r in arr {
        var j :| 0 <= j < |arr| && arr[j] == r;
        assert i <= j ==> arr[i..][j - i] == r;
      }
    }
  }

  lemma CutsAt(w: Window, cuts: map<int, nat>, p: int)
    requires WellFormed(w.held) && CutsOf(w.held, cuts)
    ensures CutAt(cuts, p) <= |At(w.held, p)|
    ensures At(CutTop(w, cuts).held, p) == At(w.held, p)[..CutAt(cuts, p)]
    ensures At(CutBottom(w, cuts).held, p) == At(w.held, p)[CutAt(cuts, p)..]
  {}

  lemma CutsWellFormed(w: Window, cuts: map<int, nat>)
    requires WellFormed(w.held) && CutsOf(w.held, cuts)
    ensures WellFormed(CutTop(w, cuts).held) && WellFormed(CutBottom(w, cuts).held)
  {
    forall p ensures LaneOk(CutTop(w, cuts).held, p) && LaneOk(CutBottom(w, cuts).held, p) {
      assert LaneOk(w.held, p);
      CutsAt(w, cuts, p);
    }
  }

  lemma CutTopLane(w: Window, w': Window, log: set<Row>, i: nat, p: int)
    requires WellFormed(w.held) && WellFormed(w'.held) && ExactAt(w, log, p)
    requires At(w.held, p) != [] && i <= |At(w.held, p)| && At(w'.held, p) == At(w.held, p)[..i]
    requires Entry(w'.bottom, p) == Entry(w.bottom, p)
    requires Entry(w'.top, p) == Some(if i < |At(w.held, p)| then At(w.held, p)[i].offset
                                      else At(w.held, p)[|At(w.held, p)| - 1].offset + 1)
    ensures ExactAt(w', log, p)
  {
    assert LaneOk(w.held, p);
    SplitSpan(At(w.held, p), i, log, p, Floor(w, p).value, Ceiling(w, p).value);
    Begins(w', log, Floor(w, p).value, w'.top[p], p);
  }

  lemma CutBottomLane(w: Window, w': Window, log: set<Row>, i: nat, p: int)
    requires WellFormed(w.held) && WellFormed(w'.held) && ExactAt(w, log, p)
    requires 0 < i <= |At(w.held, p)| && At(w'.held, p) == At(w.held, p)[i..]
    requires Entry(w'.top, p) == Entry(w.top, p)
    requires Entry(w'.bottom, p) == Some(At(w.held, p)[i - 1].offset + 1)
    ensures ExactAt(w', log, p)
  {
    assert LaneOk(w.held, p);
    SplitSpan(At(w.held, p), i, log, p, Floor(w, p).value, Ceiling(w, p).value);
    Begins(w', log, w'.bottom[p], Ceiling(w, p).value, p);
  }

  /** Wherever the lanes are cut, what goes lies above the planted top edge and
      what stays lies below it. */
  lemma CutTopExactAt(w: Window, log: set<Row>, cuts: map<int, nat>, p: int)
    requires WellFormed(w.held) && CutsOf(w.held, cuts) && ExactAt(w, log, p)
    ensures ExactAt(CutTop(w, cuts), log, p)
  {
    var w' := CutTop(w, cuts);
    CutsWellFormed(w, cuts);
    CutsAt(w, cuts, p);
    if At(w.held, p) != [] {
      CutTopLane(w, w', log, CutAt(cuts, p), p);
    } else {
      Untouched(w, w', log, p);
    }
  }

  lemma CutBottomExactAt(w: Window, log: set<Row>, cuts: map<int, nat>, p: int)
    requires WellFormed(w.held) && CutsOf(w.held, cuts) && ExactAt(w, log, p)
    ensures ExactAt(CutBottom(w, cuts), log, p)
  {
    var w' := CutBottom(w, cuts);
    CutsWellFormed(w, cuts);
    CutsAt(w, cuts, p);
    if CutAt(cuts, p) > 0 {
      CutBottomLane(w, w', log, CutAt(cuts, p), p);
    } else {
      Untouched(w, w', log, p);
    }
  }

  lemma CutTopStream(w: Window, cuts: map<int, nat>, c: nat, p: int)
    requires CutsOf(w.held, cuts)
    requires c <= |At(w.held, p)| && CutAt(cuts, p) == |At(w.held, p)| - c
    ensures At(Newest(CutTop(w, cuts).held), p) == At(Newest(w.held), p)[c..]
  {
    assert At(CutTop(w, cuts).held, p) == At(w.held, p)[..|At(w.held, p)| - c];
    ReverseFront(At(w.held, p), |At(w.held, p)| - c);
  }

  lemma CutBottomStream(w: Window, cuts: map<int, nat>, c: nat, p: int)
    requires CutsOf(w.held, cuts)
    requires c <= |At(w.held, p)| && CutAt(cuts, p) == |At(w.held, p)| - c
    ensures At(Newest(CutBottom(w, cuts).held), p) == At(Newest(w.held), p)[..c]
  {
    assert At(CutBottom(w, cuts).held, p) == At(w.held, p)[|At(w.held, p)| - c..];
    ReverseBack(At(w.held, p), |At(w.held, p)| - c);
  }

  /** The two sides of a cut, as streams with their newest rows first. */
  lemma CutStreams(w: Window, newest: seq<Row>)
    requires WellFormed(w.held) && Holding(w.held, newest)
    ensures LeftBy(Newest(w.held), newest, Newest(CutTop(w, Cuts(w.held, newest)).held))
    ensures TakenBy(Newest(w.held), newest, Newest(CutBottom(w, Cuts(w.held, newest)).held))
  {
    var cuts := Cuts(w.held, newest);
    forall p
      ensures Share(newest, p) <= |At(Newest(w.held), p)|
      ensures At(Newest(CutTop(w, cuts).held), p) == At(Newest(w.held), p)[Share(newest, p)..]
      ensures At(Newest(CutBottom(w, cuts).held), p) == At(Newest(w.held), p)[..Share(newest, p)]
    {
      CutTopStream(w, cuts, Share(newest, p), p);
      CutBottomStream(w, cuts, Share(newest, p), p);
    }
  }

  lemma DisplayRest(held: Streams, rest: Streams, k: nat)
    requires WellFormed(held) && WellFormed(rest) && k <= |Display(held)|
    requires LeftBy(Newest(held), Display(held)[..k], Newest(rest))
    ensures Display(rest) == Display(held)[k..]
  {
    NewestIsLabelled(held);
    NewestIsLabelled(rest);
    MergeResumes(NEWEST_FIRST, Newest(held), k, Newest(rest));
  }

  lemma DisplayPrefix(held: Streams, kept: Streams, k: nat)
    requires WellFormed(held) && WellFormed(kept) && k <= |Display(held)|
    requires TakenBy(Newest(held), Display(held)[..k], Newest(kept))
    ensures Display(kept) == Display(held)[..k]
  {
    NewestIsLabelled(held);
    NewestIsLabelled(kept);
    MergeOfTaken(NEWEST_FIRST, Newest(held), k, Newest(kept));
  }

  /** The first rows of the merged timeline go and the rest stays as it stood. */
  lemma TrimTopDisplay(w: Window, k: nat)
    requires WellFormed(w.held) && k <= |Display(w.held)|
    ensures Holding(w.held, Display(w.held)[..k])
    ensures var w' := TrimTop(w, Display(w.held), k); WellFormed(w'.held) && Display(w'.held) == Display(w.held)[k..]
  {
    DisplayFits(w.held);
    var newest := Display(w.held)[..k];
    CutsWellFormed(w, Cuts(w.held, newest));
    CutStreams(w, newest);
    DisplayRest(w.held, TrimTop(w, Display(w.held), k).held, k);
  }

  /** Only the first rows of the merged timeline stay, as they stood. */
  lemma TrimBottomDisplay(w: Window, k: nat)
    requires WellFormed(w.held) && k <= |Display(w.held)|
    ensures Holding(w.held, Display(w.held)[..k])
    ensures var w' := TrimBottom(w, Display(w.held), k); WellFormed(w'.held) && Display(w'.held) == Display(w.held)[..k]
  {
    DisplayFits(w.held);
    var newest := Display(w.held)[..k];
    CutsWellFormed(w, Cuts(w.held, newest));
    CutStreams(w, newest);
    DisplayPrefix(w.held, TrimBottom(w, Display(w.held), k).held, k);
  }

  lemma CutsExact(w: Window, log: set<Row>, cuts: map<int, nat>)
    requires Exact(w, log) && CutsOf(w.held, cuts)
    ensures Exact(CutTop(w, cuts), log) && Exact(CutBottom(w, cuts), log)
  {
    CutsWellFormed(w, cuts);
    forall p ensures ExactAt(CutTop(w, cuts), log, p) && ExactAt(CutBottom(w, cuts), log, p) {
      assert ExactAt(w, log, p);
      CutTopExactAt(w, log, cuts, p);
      CutBottomExactAt(w, log, cuts, p);
    }
  }

  lemma CappedByExact(w: Window, log: set<Row>, merged: seq<Row>, cap: nat, grew: Direction)
    requires Exact(w, log) && AllFit(w.held, merged)
    ensures Exact(CappedBy(w, merged, cap, grew), log)
  {
    if |merged| > cap {
      CutsExact(w, log, Cuts(w.held, merged[..if grew.Back? then |merged| - cap else cap]));
    }
  }

  /** Enforcing the limit keeps every span exact. */
  lemma CappedExact(w: Window, log: set<Row>, cap: nat, grew: Direction)
    requires Exact(w, log)
    ensures Exact(Capped(w, cap, grew), log)
  {
    DisplayFits(w.held);
    CappedByExact(w, log, Display(w.held), cap, grew);
  }

  /** The slice of the merged timeline the limit leaves. */
  function Kept(merged: seq<Row>, cap: nat, grew: Direction): seq<Row> {
    if |merged| <= cap then merged else if grew.Back? then merged[|merged| - cap..] else merged[..cap]
  }

  lemma CappedByDisplay(w: Window, merged: seq<Row>, cap: nat, grew: Direction)
    requires WellFormed(w.held) && merged == Display(w.held) && AllFit(w.held, merged)
    ensures WellFormed(CappedBy(w, merged, cap, grew).held)
    ensures Display(CappedBy(w, merged, cap, grew).held) == Kept(merged, cap, grew)
  {
    if |merged| > cap {
      if grew.Back? { TrimTopDisplay(w, |merged| - cap); } else { TrimBottomDisplay(w, cap); }
    }
  }

  /** The limit holds afterwards, and what is left of the merged timeline is a
      slice of it: the oldest rows after a page back, the newest otherwise. */
  lemma CappedDisplay(w: Window, cap: nat, grew: Direction)
    requires WellFormed(w.held)
    ensures WellFormed(Capped(w, cap, grew).held)
    ensures Display(Capped(w, cap, grew).held) == Kept(Display(w.held), cap, grew)
  {
    DisplayFits(w.held);
    CappedByDisplay(w, Display(w.held), cap, grew);
  }
}
