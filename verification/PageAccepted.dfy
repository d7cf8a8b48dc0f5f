/** What becomes of an answer: when the window takes it, and that it then moves on by it. */
module PageAccepted {
  import opened Rows
  import opened WindowState
  import opened WindowInvariant
  import opened WindowDisplay
  import opened Session
  import LiveTail

  /** The edge a page in `direction` is read from. */
  function OwnEdge(w: Window, direction: Direction): Edges {
    if direction.Back? then w.bottom else w.top
  }

  /** A page asked for from the window's own edge is accepted as long as that edge has not moved. */
  lemma OwnEdgeIsTaken(w: Window, direction: Direction, start: Edges)
    requires forall p | p in start && p in OwnEdge(w, direction) :: start[p] == OwnEdge(w, direction)[p]
    ensures !IsStale(w, direction, Some(start))
  {}

  /** `r` is held, or was trimmed away on the side opposite to the one that grew. */
  predicate HeldOrTrimmed(w: Window, grew: Direction, r: Row) {
    var p := r.partition;
    r in At(w.held, p) ||
    if grew.Back? then !w.attached && p in w.top && w.top[p] <= r.offset
    else p in w.bottom && r.offset < w.bottom[p]
  }

  lemma TrimTakesTop(w: Window, cuts: map<int, nat>, r: Row)
    requires WellFormed(w.held) && CutsOf(w.held, cuts) && r in At(w.held, r.partition)
    ensures HeldOrTrimmed(CutTop(w, cuts), Back, r)
  {
    CutsAt(w, cuts, r.partition);
    CutTopSides(w, cuts, r, r.partition);
    InEither(At(w.held, r.partition), CutAt(cuts, r.partition), r);
  }

  lemma TrimTakesBottom(w: Window, cuts: map<int, nat>, r: Row)
    requires WellFormed(w.held) && CutsOf(w.held, cuts) && r in At(w.held, r.partition)
    ensures HeldOrTrimmed(CutBottom(w, cuts), Forward, r)
  {
    CutsAt(w, cuts, r.partition);
    InEither(At(w.held, r.partition), CutAt(cuts, r.partition), r);
    if r in At(w.held, r.partition)[..CutAt(cuts, r.partition)] { CutBottomSides(w, cuts, r, r, r.partition); }
  }

  lemma InEither(s: seq<Row>, i: nat, r: Row)
    requires i <= |s| && r in s
    ensures r in s[..i] || r in s[i..]
  {
    assert s == s[..i] + s[i..];
  }

  /** The limit takes rows off one end and leaves the edge of the other, and trims only
      what is over. */
  lemma CappedTakes(w: Window, merged: seq<Row>, cap: nat, grew: Direction)
    requires WellFormed(w.held) && AllFit(w.held, merged)
    ensures var w' := CappedBy(w, merged, cap, grew);
      && OwnEdge(w', grew) == OwnEdge(w, grew)
      && (w'.attached <==> w.attached && (grew.Forward? || |merged| <= cap))
      && (|merged| <= cap ==> w' == w)
      && forall r: Row | r in At(w.held, r.partition) :: HeldOrTrimmed(w', grew, r)
  {
    if |merged| > cap {
      var cuts := Cuts(w.held, merged[..if grew.Back? then |merged| - cap else cap]);
      forall r: Row | r in At(w.held, r.partition)
        ensures HeldOrTrimmed(CutTop(w, cuts), Back, r) && HeldOrTrimmed(CutBottom(w, cuts), Forward, r)
      {
        TrimTakesTop(w, cuts, r);
        TrimTakesBottom(w, cuts, r);
      }
    }
  }

  /** Everything a page brought is held once it is merged in. */
  lemma BroughtIsHeld(w: Window, log: set<Row>, rows: seq<Row>, r: Row)
    requires Keyed(log) && Exact(w, log) && ToSet(rows) <= log && r in rows
    ensures r in At(InsertAll(w.held, rows), r.partition)
  {
    ExactIsGrounded(w, log);
    FreshIsNew(w.held, rows, log, r.partition);
    LaneMembers(rows, r.partition);
    assert r in ToSet(At(w.held, r.partition)) + NewAt(w.held, rows, r.partition);
  }

  /** The cursor is where the window can be continued from. */
  predicate ContinuesAt(edge: Edges, cursor: Option<Edges>) {
    cursor.Some? ==> forall p | p in cursor.value :: p in edge && edge[p] == cursor.value[p]
  }

  /** The page is in the window: its rows held or trimmed by the limit, the window to be
      continued where the page left off, attached when it has met the tail. */
  ghost predicate TakenIn(w: Window, w': Window, cap: nat, rows: seq<Row>, direction: Direction, anchored: bool,
                          cursor: Option<Edges>, attach: bool)
    requires WellFormed(InsertAll(w.held, rows))
  {
    var over := |Display(InsertAll(w.held, rows))| > cap;
    && (forall r: Row | r in rows || r in At(w.held, r.partition) ::
          if over then HeldOrTrimmed(w', direction, r) else r in At(w'.held, r.partition))
    && ContinuesAt(OwnEdge(w', direction), cursor)
    && (w'.attached <==> match direction
          case Back => (w.attached || (anchored && attach)) && !over
          case Forward => w.attached || cursor.None?)
  }

  lemma KeptByInsert(w: Window, rows: seq<Row>, r: Row)
    requires WellFormed(w.held) && r in At(w.held, r.partition)
    ensures r in At(InsertAll(w.held, rows), r.partition)
  {
    InsertAllAdds(w.held, rows, r.partition);
    assert r in ToSet(At(InsertAll(w.held, rows), r.partition));
  }

  /** An answer that was not overtaken is taken in whole. */
  lemma AcceptedIsTaken(w: Window, log: set<Row>, cap: nat, rows: seq<Row>, direction: Direction,
                        start: Option<Edges>, cursor: Option<Edges>, attach: bool)
    requires Keyed(log) && Exact(w, log) && ToSet(rows) <= log && !IsStale(w, direction, start)
    ensures WellFormed(InsertAll(w.held, rows))
    ensures TakenIn(w, AfterPage(w, cap, rows, direction, start, cursor, attach), cap, rows, direction, start.None?,
                    cursor, attach)
  {
    InsertAllWellFormed(w.held, rows);
    var m := WithPage(w, rows, direction, start, cursor, attach);
    DisplayFits(m.held);
    CappedTakes(m, Display(m.held), cap, direction);
    forall r: Row | r in rows || r in At(w.held, r.partition) ensures r in At(m.held, r.partition) {
      if r in rows { BroughtIsHeld(w, log, rows, r); } else { KeptByInsert(w, rows, r); }
    }
  }

  // ---- in a session -----------------------------------------------------------------------

  lemma ReachedInLog(c: World, hi: Edges, r: Request, rows: seq<Row>, cursor: Option<Edges>)
    requires PageAnswer(c.log, c.lo, hi, r.direction, r.start, rows, cursor)
    ensures ToSet(rows) <= c.log
  {
    var final :| Reached(c.log, c.lo, hi, r.direction, r.start, rows, cursor, final);
    forall x | x in rows ensures x in c.log {
      assert x in c.log && Crossed(r.direction, Tracked(r.start, c.lo, hi), final, x);
    }
  }

  /** A page read forward is never overtaken, nor is an anchor page; one read back is exactly
      when the bottom edge of a partition it reads has moved since. */
  lemma OvertakenIff(c: World, s: State)
    requires Inv(c, s) && s.inFlight.Some?
    ensures var r := s.inFlight.value;
      IsStale(s.window, r.direction, if r.anchor then None else Some(r.start)) <==>
      !r.anchor && r.direction.Back? && exists p | p in r.start :: s.window.bottom[p] != r.start[p]
  {
    var r := s.inFlight.value;
    if !r.anchor && r.direction.Back? {
      forall p | p in r.start ensures p in s.window.bottom && r.start[p] <= s.window.bottom[p] {
        assert StartsBelow(r.start, s.window.bottom, p);
      }
    }
  }

  /** Any answer the session gets, if nothing it reads has moved, is taken in whole. */
  lemma AnswerIsTaken(c: World, s: State, hi: Edges, rows: seq<Row>, cursor: Option<Edges>)
    requires Inv(c, s) && Legal(c, s, Answer(hi, rows, cursor))
    requires var r := s.inFlight.value;
      r.anchor || r.direction.Forward? || forall p | p in r.start :: s.window.bottom[p] == r.start[p]
    ensures WellFormed(InsertAll(s.window.held, rows))
    ensures var t, r := Step(c, s, Answer(hi, rows, cursor)), s.inFlight.value;
      t.inFlight.None? &&
      TakenIn(s.window, t.window, c.cap, rows, r.direction, r.anchor, cursor, r.attach)
  {
    var r := s.inFlight.value;
    OvertakenIff(c, s);
    ReachedInLog(c, hi, r, rows, cursor);
    AcceptedIsTaken(s.window, c.log, c.cap, rows, r.direction, if r.anchor then None else Some(r.start), cursor,
                    r.attach);
  }

  /** In every reachable state a page asked for at the top is taken in whole when it comes:
      its rows are held unless the limit trims them, the top edge is where it ended, and
      with nothing left to read the window is attached. */
  lemma ForwardIsTaken(c: World, s: State, es: seq<Event>, t: State, hi: Edges, rows: seq<Row>, cursor: Option<Edges>)
    requires Initial(c, s) && RunTo(c, s, es, t) && Legal(c, t, Answer(hi, rows, cursor))
    requires t.inFlight.value.direction.Forward? && !t.inFlight.value.anchor
    ensures Inv(c, t) && WellFormed(InsertAll(t.window.held, rows))
    ensures var u := Step(c, t, Answer(hi, rows, cursor));
      && TakenIn(t.window, u.window, c.cap, rows, Forward, false, cursor, t.inFlight.value.attach)
      && ContinuesAt(u.window.top, cursor) && (u.window.attached <==> cursor.None?)
  {
    EmptyExact(c, s.hi);
    RunKeeps(c, s, es, t);
    AnswerIsTaken(c, t, hi, rows, cursor);
    var r, u := t.inFlight.value, Step(c, t, Answer(hi, rows, cursor));
    TakenForward(t.window, u.window, c.cap, rows, cursor, r.attach);
  }

  lemma TakenForward(w: Window, w': Window, cap: nat, rows: seq<Row>, cursor: Option<Edges>, attach: bool)
    requires WellFormed(InsertAll(w.held, rows)) && TakenIn(w, w', cap, rows, Forward, false, cursor, attach)
    ensures ContinuesAt(w'.top, cursor) && (w'.attached <==> w.attached || cursor.None?)
  {}

  lemma FinalAtWatermark(c: World, hi: Edges, r: Request, rows: seq<Row>, final: Edges, p: int)
    requires Reached(c.log, c.lo, hi, Forward, r.start, rows, None, final) && p in r.start
    requires Within(r.start, c.lo, r.hi) && Grown(r.hi, hi)
    ensures p in hi && p in final && final[p] == hi[p]
    ensures p in Tracked(r.start, c.lo, hi)
  {
    TrackedAt(r.start, c.lo, r.hi, hi, p);
    assert WithinAt(r.start, c.lo, r.hi, p);
  }

  /** Once a page read forward has nothing left to read, no record lies between what the
      window covers and the watermark, for every partition it has a bottom edge for; in a
      window that began in the past the top cursor leaves none of those out. */
  lemma ForwardCatchesUp(c: World, s: State, hi: Edges, rows: seq<Row>, p: int)
    requires Inv(c, s) && Legal(c, s, Answer(hi, rows, None))
    requires s.inFlight.value.direction.Forward? && !s.inFlight.value.anchor
    requires p in s.window.bottom && (s.window.historical || p in s.window.top)
    ensures p in hi
    ensures var w := Step(c, s, Answer(hi, rows, None)).window;
      w.attached && LiveTail.CaughtUpAt(w, c.log, hi[p], p)
  {
    var r := s.inFlight.value;
    var final :| Reached(c.log, c.lo, hi, Forward, r.start, rows, None, final);
    OvertakenIff(c, s);
    AcceptedFromEdge(c, s, r, hi);
    assert FromEdge(s.window, Forward, Tracked(r.start, c.lo, hi), p);
    FinalAtWatermark(c, hi, r, rows, final, p);
    LiveTail.PageCatchesUp(s.window, c.log, rows, Tracked(r.start, c.lo, hi), final, r.attach, p, hi[p]);
    InsertAllWellFormed(s.window.held, rows);
    var m := WithPage(s.window, rows, Forward, Some(r.start), None, r.attach);
    DisplayFits(m.held);
    LiveTail.CappedStaysCaughtUp(m, c.log, Display(m.held), c.cap, hi[p], p);
  }

  // ---- reading on ---------------------------------------------------------------------------

  /** After a page read back the window can be read on below, from where that page ended. */
  lemma ReadsOnBelow(c: World, s: State, hi: Edges, rows: seq<Row>, cursor: Edges, p: int)
    requires Inv(c, s) && Legal(c, s, Answer(hi, rows, Some(cursor))) && s.inFlight.value.direction.Back?
    requires s.inFlight.value.anchor ||
      forall q | q in s.inFlight.value.start :: s.window.bottom[q] == s.inFlight.value.start[q]
    requires p in cursor
    ensures ReadsOnFrom(BottomCursor(Step(c, s, Answer(hi, rows, Some(cursor))).window), p, cursor[p])
  {
    AnswerIsTaken(c, s, hi, rows, Some(cursor));
    var r, t := s.inFlight.value, Step(c, s, Answer(hi, rows, Some(cursor)));
    TakenReadsOn(s.window, t.window, c.cap, rows, r.anchor, cursor, r.attach, p);
  }

  predicate ReadsOnFrom(edge: Option<Edges>, p: int, at: int) {
    edge.Some? && p in edge.value && edge.value[p] == at
  }

  lemma TakenReadsOn(w: Window, w': Window, cap: nat, rows: seq<Row>, anchored: bool, cursor: Edges, attach: bool,
                     p: int)
    requires WellFormed(InsertAll(w.held, rows)) && TakenIn(w, w', cap, rows, Back, anchored, Some(cursor), attach)
    requires p in cursor
    ensures ReadsOnFrom(BottomCursor(w'), p, cursor[p])
  {}

  lemma NothingShown(held: Streams)
    requires WellFormed(held) && forall p :: At(held, p) == []
    ensures Display(held) == []
  {
    NewestIsLabelled(held);
    forall p | p in Newest(held) ensures Newest(held)[p] == [] { assert Newest(held)[p] == At(Newest(held), p); }
  }

  /** A window that has given up its newest rows can be read on above, from an edge for every
      partition it held, unless it began in the past and still lacks one. */
  lemma ReadsOnAbove(w: Window, cap: nat)
    requires WellFormed(w.held) && cap < |Display(w.held)|
    ensures var w' := Capped(w, cap, Back);
      && !w'.attached && (forall p | At(w.held, p) != [] :: p in w'.top)
      && TopCursor(w') == if w.historical && !(w'.bottom.Keys <= w'.top.Keys) then None else Some(w'.top)
  {
    DisplayFits(w.held);
    if forall p :: At(w.held, p) == [] { NothingShown(w.held); }
    var p :| At(w.held, p) != [];
    var cuts := Cuts(w.held, Display(w.held)[..|Display(w.held)| - cap]);
    assert p in CutTop(w, cuts).top;
  }

  // ---- a window that began in the past -------------------------------------------------------

  lemma StepKeepsPast(c: World, s: State, e: Event)
    requires WellFormed(s.window.held) && s.window.historical && !e.Jump?
    ensures Step(c, s, e).window.historical
  {
    match e
    case Answer(hi, rows, cursor) => InsertAllWellFormed(s.window.held, rows);
    case Live(rows) => InsertAllWellFormed(s.window.held, Safe(s.window, rows));
    case _ =>
  }

  lemma {:induction false} RunKeepsPast(c: World, s: State, es: seq<Event>, t: State)
    requires Inv(c, s) && RunTo(c, s, es, t) && s.window.historical
    requires forall i | 0 <= i < |es| :: !es[i].Jump?
    ensures t.window.historical
    decreases |es|
  {
    if es != [] {
      StepKeepsPast(c, s, es[0]);
      StepKeeps(c, s, es[0]);
      RunKeepsPast(c, Step(c, s, es[0]), es[1..], t);
    }
  }

  lemma BecomesPast(c: World, s: State, hi: Edges, rows: seq<Row>, cursor: Option<Edges>)
    requires WellFormed(s.window.held) && s.inFlight.Some?
    requires var r := s.inFlight.value; r.anchor && r.direction.Back? && !r.attach
    ensures Step(c, s, Answer(hi, rows, cursor)).window.historical
  {
    InsertAllWellFormed(s.window.held, rows);
  }

  /** After a jump into the past, until the next one, the window is read on above only from
      edges for all the partitions its bottom edge has. */
  lemma PastReadsOnWhole(c: World, s: State, hi: Edges, rows: seq<Row>, cursor: Option<Edges>, u: State,
                         es: seq<Event>, t: State)
    requires Inv(c, s) && Legal(c, s, Answer(hi, rows, cursor)) && u == Step(c, s, Answer(hi, rows, cursor))
    requires var r := s.inFlight.value; r.anchor && r.direction.Back? && !r.attach
    requires RunTo(c, u, es, t) && forall i | 0 <= i < |es| :: !es[i].Jump?
    ensures TopCursor(t.window).Some? ==> t.window.bottom.Keys <= TopCursor(t.window).value.Keys
  {
    BecomesPast(c, s, hi, rows, cursor);
    StepKeeps(c, s, Answer(hi, rows, cursor));
    RunKeepsPast(c, u, es, t);
  }
}
