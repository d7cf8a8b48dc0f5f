/** Why an attached window may take live rows: a tail that reads each partition in order. */
module LiveTail {
  import opened Rows
  import opened WindowState
  import opened WindowInvariant

  /** Where the rows of `p` held begin, when no bottom edge says so. */
  function Start(w: Window, p: int): Option<int> {
    if At(w.held, p) != [] then Some(At(w.held, p)[0].offset) else Entry(w.top, p)
  }

  /** No record lies between what the window covers of `p` and offset `t`, where the tail
      stands; a partition without a bottom edge begins no higher than that. */
  ghost predicate CaughtUpAt(w: Window, log: set<Row>, t: int, p: int) {
    var base := LiveBase(w, None, p);
    && (base.Some? ==> Span(log, p, base.value, t) == {})
    && (p !in w.bottom && Start(w, p).Some? ==> Start(w, p).value <= t)
  }

  predicate BelowBase(w: Window, s: Row) {
    var base := LiveBase(w, None, s.partition);
    base.Some? ==> s.offset < base.value
  }

  /** While attached the window is caught up with the tail, whatever partitions it has. */
  ghost predicate CaughtUp(w: Window, log: set<Row>, tail: Edges) {
    forall p | p in tail :: CaughtUpAt(w, log, tail[p], p)
  }

  /** The records a tail delivers on its way from one offset of each partition to another. */
  ghost predicate TailBatch(log: set<Row>, tail: Edges, tail': Edges, rows: seq<Row>) {
    && tail.Keys == tail'.Keys && (forall p | p in tail :: tail[p] <= tail'[p])
    && forall r :: r in rows <==> r in log && r.partition in tail && tail[r.partition] <= r.offset < tail'[r.partition]
  }

  /** A row inside what the window covers is held. */
  lemma CoveredIsHeld(w: Window, log: set<Row>, t: int, r: Row)
    requires WellFormed(w.held) && ExactAt(w, log, r.partition) && CaughtUpAt(w, log, t, r.partition)
    requires r in log && t <= r.offset && KeepsBottom(w, r)
    requires Ceiling(w, r.partition).Some? && r.offset < Ceiling(w, r.partition).value
    ensures r in At(w.held, r.partition)
  {
    var p := r.partition;
    assert Floor(w, p).Some? && Floor(w, p).value <= r.offset;
    assert r in Span(log, p, Floor(w, p).value, Ceiling(w, p).value);
    assert r in ToSet(At(w.held, p));
  }

  lemma NothingBetween(w: Window, log: set<Row>, tail: Edges, tail': Edges, rows: seq<Row>, s: Row)
    requires TailBatch(log, tail, tail', rows) && s.partition in tail
    requires CaughtUpAt(w, log, tail[s.partition], s.partition)
    requires s in log && s.offset < tail'[s.partition] && Beyond(w, rows, s)
    ensures s in rows
  {
    var base := LiveBase(w, None, s.partition);
    assert base.Some? ==> s in Span(log, s.partition, base.value, tail[s.partition]) || tail[s.partition] <= s.offset;
  }

  /** Whatever such a tail delivers to a window that is caught up is a live feed. */
  lemma TailIsLiveFeed(w: Window, log: set<Row>, tail: Edges, tail': Edges, rows: seq<Row>)
    requires Exact(w, log) && CaughtUp(w, log, tail) && TailBatch(log, tail, tail', rows)
    ensures LiveFeed(w, log, rows)
  {
    forall r | r in rows && KeepsBottom(w, r) && r !in At(w.held, r.partition)
      ensures Beyond(w, rows, r)
      ensures forall s | s in log && s.partition == r.partition && s.offset < r.offset && Beyond(w, rows, s) ::
        s in rows
    {
      var p := r.partition;
      assert ExactAt(w, log, p) && CaughtUpAt(w, log, tail[p], p);
      if Ceiling(w, p).Some? && r.offset < Ceiling(w, p).value { CoveredIsHeld(w, log, tail[p], r); }
      forall s | s in log && s.partition == p && s.offset < r.offset && Beyond(w, rows, s) ensures s in rows {
        NothingBetween(w, log, tail, tail', rows, s);
      }
    }
  }

  // ---- staying caught up -------------------------------------------------------------

  /** A delivery only raises where the window ends. */
  lemma BaseRises(w: Window, log: set<Row>, rows: seq<Row>, p: int)
    requires Keyed(log) && Exact(w, log) && LiveFeed(w, log, rows)
    ensures ExactAt(WithLive(w, rows), log, p) && WellFormed(WithLive(w, rows).held)
    ensures LiveBase(w, None, p).Some? ==>
      && LiveBase(WithLive(w, rows), None, p).Some?
      && LiveBase(w, None, p).value <= LiveBase(WithLive(w, rows), None, p).value
  {
    var w' := WithLive(w, rows);
    assert ExactAt(w, log, p);
    ExactIsGrounded(w, log);
    LiveExactAt(w, log, rows, p);
    InsertAllWellFormed(w.held, Safe(w, rows));
    LiveEdges(w, rows, p);
    CeilingBounds(w, log, p);
    CeilingBounds(w', log, p);
    HeldStays(w, log, rows, p);
    var arr := At(w.held, p);
    if arr != [] { assert arr[|arr| - 1] in At(w'.held, p); }
  }

  lemma HeldStays(w: Window, log: set<Row>, rows: seq<Row>, p: int)
    requires Keyed(log) && Exact(w, log) && ToSet(rows) <= log
    ensures ToSet(At(WithLive(w, rows).held, p)) == ToSet(At(w.held, p)) + NewAt(w.held, Safe(w, rows), p)
    ensures forall r | r in At(w.held, p) :: r in At(WithLive(w, rows).held, p)
  {
    ExactIsGrounded(w, log);
    SafeMembers(w, rows);
    FreshIsNew(w.held, Safe(w, rows), log, p);
    forall r | r in At(w.held, p) ensures r in At(WithLive(w, rows).held, p) { assert r in ToSet(At(w.held, p)); }
  }

  /** What the batch brought of `p` is held or lies below the bottom edge. */
  lemma BatchIsHeld(w: Window, log: set<Row>, rows: seq<Row>, s: Row)
    requires Keyed(log) && Exact(w, log) && ToSet(rows) <= log && s in rows && KeepsBottom(w, s)
    ensures s in At(WithLive(w, rows).held, s.partition)
  {
    HeldStays(w, log, rows, s.partition);
    NewLiveRow(w, rows, s);
    assert s in ToSet(At(WithLive(w, rows).held, s.partition));
  }

  lemma BatchInLog(log: set<Row>, tail: Edges, tail': Edges, rows: seq<Row>)
    requires TailBatch(log, tail, tail', rows)
    ensures ToSet(rows) <= log
  {}

  /** Rows of `p` held after a delivery and not before came with it. */
  lemma NewlyHeld(w: Window, log: set<Row>, rows: seq<Row>, r: Row, p: int)
    requires Keyed(log) && Exact(w, log) && ToSet(rows) <= log
    requires r in At(WithLive(w, rows).held, p) && r !in At(w.held, p)
    ensures r in rows && r.partition == p
  {
    HeldStays(w, log, rows, p);
    assert r in ToSet(At(WithLive(w, rows).held, p)) && r !in ToSet(At(w.held, p));
    LaneMembers(Safe(w, rows), p);
    SafeMembers(w, rows);
  }

  lemma LiveStaysCaughtUp(w: Window, log: set<Row>, tail: Edges, tail': Edges, rows: seq<Row>, p: int)
    requires Keyed(log) && Exact(w, log) && CaughtUp(w, log, tail) && TailBatch(log, tail, tail', rows) && p in tail
    ensures CaughtUpAt(WithLive(w, rows), log, tail'[p], p)
  {
    var w' := WithLive(w, rows);
    assert CaughtUpAt(w, log, tail[p], p);
    TailIsLiveFeed(w, log, tail, tail', rows);
    BatchInLog(log, tail, tail', rows);
    BaseRises(w, log, rows, p);
    LiveEdges(w, rows, p);
    forall s | s in log && s.partition == p && s.offset < tail'[p] ensures BelowBase(w', s) {
      NoneLeft(w, log, tail, tail', rows, s);
    }
    StartStaysLow(w, log, tail, tail', rows, p);
  }

  lemma BelowTail(w: Window, log: set<Row>, t: int, s: Row)
    requires CaughtUpAt(w, log, t, s.partition) && s in log && s.offset < t
    ensures BelowBase(w, s)
  {
    var base := LiveBase(w, None, s.partition);
    assert base.Some? ==> (s in Span(log, s.partition, base.value, t) <==> base.value <= s.offset);
  }

  lemma NoneLeft(w: Window, log: set<Row>, tail: Edges, tail': Edges, rows: seq<Row>, s: Row)
    requires Keyed(log) && Exact(w, log) && CaughtUp(w, log, tail) && TailBatch(log, tail, tail', rows)
    requires s.partition in tail && s in log && s.offset < tail'[s.partition]
    ensures BelowBase(WithLive(w, rows), s)
  {
    var p, w' := s.partition, WithLive(w, rows);
    assert CaughtUpAt(w, log, tail[p], p);
    TailIsLiveFeed(w, log, tail, tail', rows);
    BatchInLog(log, tail, tail', rows);
    BaseRises(w, log, rows, p);
    LiveEdges(w, rows, p);
    CeilingBounds(w', log, p);
    if s in rows {
      if KeepsBottom(w, s) { BatchIsHeld(w, log, rows, s); }
    } else if LiveBase(w, None, p).Some? {
      BelowTail(w, log, tail[p], s);
    } else if LiveBase(w', None, p).Some? {
      FirstBase(w, log, tail, tail', rows, p);
    }
  }

  /** A partition first seen in a delivery ends above where the tail stood. */
  lemma FirstBase(w: Window, log: set<Row>, tail: Edges, tail': Edges, rows: seq<Row>, p: int)
    requires Keyed(log) && Exact(w, log) && TailBatch(log, tail, tail', rows) && p in tail
    requires LiveBase(w, None, p).None? && LiveBase(WithLive(w, rows), None, p).Some?
    requires ExactAt(WithLive(w, rows), log, p) && WellFormed(WithLive(w, rows).held)
    ensures tail[p] < LiveBase(WithLive(w, rows), None, p).value
  {
    var w' := WithLive(w, rows);
    BatchInLog(log, tail, tail', rows);
    LiveEdges(w, rows, p);
    CeilingBounds(w', log, p);
    HeldStays(w, log, rows, p);
    SafeMembers(w, rows);
    ExactIsGrounded(w, log);
    NewEdges(w.held, Safe(w, rows), log, p);
    assert At(w.held, p) == [];
    assert At(w'.held, p) != [];
    var r := At(w'.held, p)[0];
    assert r in At(w'.held, p);
    NewlyHeld(w, log, rows, r, p);
  }

  lemma StartStaysLow(w: Window, log: set<Row>, tail: Edges, tail': Edges, rows: seq<Row>, p: int)
    requires Keyed(log) && Exact(w, log) && TailBatch(log, tail, tail', rows) && p in tail
    requires CaughtUpAt(w, log, tail[p], p)
    requires WellFormed(WithLive(w, rows).held)
    ensures var w' := WithLive(w, rows); p !in w'.bottom && Start(w', p).Some? ==> Start(w', p).value <= tail'[p]
  {
    var w' := WithLive(w, rows);
    BatchInLog(log, tail, tail', rows);
    HeldStays(w, log, rows, p);
    LiveEdges(w, rows, p);
    SafeMembers(w, rows);
    ExactIsGrounded(w, log);
    NewEdges(w.held, Safe(w, rows), log, p);
    var arr, arr' := At(w.held, p), At(w'.held, p);
    if arr' != [] {
      assert LaneOk(w'.held, p) && arr'[0] in arr';
      if arr != [] {
        assert arr[0] in arr && arr[0] in arr';
        AscendingEnds(arr');
      } else {
        NewlyHeld(w, log, rows, arr'[0], p);
      }
    }
  }

  lemma PlantedBottom(w: Window, cuts: map<int, nat>, p: int)
    requires WellFormed(w.held) && CutsOf(w.held, cuts)
    ensures CutBottom(w, cuts).top == w.top
    ensures Entry(CutBottom(w, cuts).bottom, p) ==
      if 0 < CutAt(cuts, p) then Some(At(w.held, p)[CutAt(cuts, p) - 1].offset + 1) else Entry(w.bottom, p)
  {}

  /** A lane cut from below ends where it did, or at the cut when nothing is left. */
  lemma RestEnds(w: Window, w': Window, i: nat, p: int)
    requires i <= |At(w.held, p)| && At(w'.held, p) == At(w.held, p)[i..] && w'.top == w.top
    requires Entry(w'.bottom, p) == if 0 < i then Some(At(w.held, p)[i - 1].offset + 1) else Entry(w.bottom, p)
    ensures LiveBase(w', None, p) == LiveBase(w, None, p)
    ensures p !in w'.bottom ==> At(w'.held, p) == At(w.held, p) && p !in w.bottom
  {
    var arr, rest := At(w.held, p), At(w'.held, p);
    if rest != [] { assert rest[|rest| - 1] == arr[|arr| - 1]; }
  }

  /** A bottom trim moves no end, and plants an edge where it takes rows. */
  lemma TrimKeepsBase(w: Window, cuts: map<int, nat>, p: int)
    requires WellFormed(w.held) && CutsOf(w.held, cuts)
    ensures LiveBase(CutBottom(w, cuts), None, p) == LiveBase(w, None, p)
    ensures p !in CutBottom(w, cuts).bottom ==> At(CutBottom(w, cuts).held, p) == At(w.held, p) && p !in w.bottom
    ensures CutBottom(w, cuts).top == w.top
  {
    CutsAt(w, cuts, p);
    PlantedBottom(w, cuts, p);
    RestEnds(w, CutBottom(w, cuts), CutAt(cuts, p), p);
  }

  lemma TrimStaysCaughtUp(w: Window, log: set<Row>, cuts: map<int, nat>, t: int, p: int)
    requires WellFormed(w.held) && CutsOf(w.held, cuts) && CaughtUpAt(w, log, t, p)
    ensures CaughtUpAt(CutBottom(w, cuts), log, t, p)
  {
    TrimKeepsBase(w, cuts, p);
  }

  lemma CappedStaysCaughtUp(w: Window, log: set<Row>, merged: seq<Row>, cap: nat, t: int, p: int)
    requires WellFormed(w.held) && AllFit(w.held, merged) && CaughtUpAt(w, log, t, p)
    ensures CaughtUpAt(CappedBy(w, merged, cap, Forward), log, t, p)
  {
    if |merged| > cap { TrimStaysCaughtUp(w, log, Cuts(w.held, merged[..cap]), t, p); }
  }

  /** An attached window that is caught up with an in-order tail takes what it delivers,
      and is caught up, and attached, again. */
  lemma TailKeepsUp(w: Window, log: set<Row>, cap: nat, tail: Edges, tail': Edges, rows: seq<Row>)
    requires Keyed(log) && Exact(w, log) && w.attached && CaughtUp(w, log, tail) && TailBatch(log, tail, tail', rows)
    ensures LiveFeed(w, log, rows)
    ensures CaughtUp(AfterLive(w, cap, rows), log, tail') && AfterLive(w, cap, rows).attached
  {
    TailIsLiveFeed(w, log, tail, tail', rows);
    var m := WithLive(w, rows);
    InsertAllWellFormed(w.held, Safe(w, rows));
    DisplayFits(m.held);
    forall p | p in tail' ensures CaughtUpAt(AfterLive(w, cap, rows), log, tail'[p], p) {
      LiveStaysCaughtUp(w, log, tail, tail', rows, p);
      CappedStaysCaughtUp(m, log, Display(m.held), cap, tail'[p], p);
    }
  }

  // ---- becoming caught up ---------------------------------------------------------------

  /** A forward page from the window's own edge that reached the watermark `hi` of `p`
      leaves nothing between the window and `hi`, and attaches it. */
  lemma PageCatchesUp(w: Window, log: set<Row>, rows: seq<Row>, start: Edges, final: Edges, attach: bool, p: int,
                      t: int)
    requires Keyed(log) && Exact(w, log) && Delivered(log, Forward, start, final, rows)
    requires FromEdge(w, Forward, start, p) && p in start && p in w.bottom && t <= final[p]
    ensures CaughtUpAt(WithPage(w, rows, Forward, Some(start), None, attach), log, t, p)
    ensures WithPage(w, rows, Forward, Some(start), None, attach).attached
  {
    var w' := WithPage(w, rows, Forward, Some(start), None, attach);
    assert ExactAt(w, log, p);
    ExactIsGrounded(w, log);
    PageNews(w, log, rows, Forward, start, final, p);
    PageExactAt(w, log, rows, Forward, start, final, None, attach, p);
    PageEdges(w, rows, Forward, Some(start), None, attach, p);
    CeilingBounds(w', log, p);
    forall s | s in log && s.partition == p && s.offset < t ensures BelowBase(w', s) {
      if start[p] <= s.offset {
        assert s in SpanOf(log, Forward, start, final, p);
        assert s in ToSet(At(w'.held, p));
      }
    }
  }

  lemma LatestHeld(log: set<Row>, rows: seq<Row>, start: Edges, final: Edges, cursor: Option<Edges>, p: int)
    requires Keyed(log) && Delivered(log, Back, start, final, rows) && Follows(cursor, final) && p in start
    ensures var w := WithPage(EMPTY, rows, Back, None, cursor, true);
      && WellFormed(w.held) && ExactAt(w, log, p) && ToSet(At(w.held, p)) == SpanOf(log, Back, start, final, p)
  {
    forall q ensures LaneOk(EMPTY.held, q) {}
    AnchorNews(EMPTY, log, rows, Back, start, final, p);
    AnchorExactAt(EMPTY, log, rows, Back, start, final, cursor, true, p);
  }

  /** So does the page a jump to the latest records is answered with. */
  lemma LatestCatchesUp(log: set<Row>, rows: seq<Row>, start: Edges, final: Edges, cursor: Option<Edges>, p: int,
                        t: int)
    requires Keyed(log) && Delivered(log, Back, start, final, rows) && Follows(cursor, final)
    requires p in start && t <= start[p]
    ensures CaughtUpAt(WithPage(EMPTY, rows, Back, None, cursor, true), log, t, p)
    ensures WithPage(EMPTY, rows, Back, None, cursor, true).attached
  {
    var w := WithPage(EMPTY, rows, Back, None, cursor, true);
    LatestHeld(log, rows, start, final, cursor, p);
    LatestBase(w, log, start, final, cursor, rows, p);
    CeilingBounds(w, log, p);
    forall s | s in log && s.partition == p && s.offset < t ensures BelowBase(w, s) {
      if final[p] <= s.offset {
        assert s in SpanOf(log, Back, start, final, p);
        assert s in ToSet(At(w.held, p));
      }
    }
  }

  lemma LatestBase(w: Window, log: set<Row>, start: Edges, final: Edges, cursor: Option<Edges>, rows: seq<Row>, p: int)
    requires w == WithPage(EMPTY, rows, Back, None, cursor, true) && Delivered(log, Back, start, final, rows)
    requires Keyed(log) && p in start && ToSet(At(w.held, p)) == SpanOf(log, Back, start, final, p)
    requires Follows(cursor, final) && WellFormed(w.held)
    ensures LiveBase(w, None, p).Some? ==> final[p] <= LiveBase(w, None, p).value
    ensures p !in w.bottom ==> Start(w, p).None?
  {
    forall q ensures LaneOk(EMPTY.held, q) {}
    AnchorNews(EMPTY, log, rows, Back, start, final, p);
    PageEdges(EMPTY, rows, Back, None, cursor, true, p);
    var arr := At(w.held, p);
    if arr != [] {
      assert arr[0] in ToSet(arr);
    } else {
      assert SpanOf(log, Back, start, final, p) == {};
    }
  }
}
