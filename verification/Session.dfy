/** The window and the paging engine together, over every run of the two. */
module Session {
  import opened Rows
  import opened WindowState
  import opened WindowInvariant

  /** What does not change over a run: the matching records ever produced, each
      partition's low watermark, and the window's size limit. */
  datatype World = World(ghost log: set<Row>, lo: Edges, cap: nat)

  /** A page asked for. An anchor page starts from positions the server resolves. */
  datatype Request = Request(direction: Direction, start: Edges, anchor: bool, attach: bool, hi: Edges)

  datatype State = State(window: Window, inFlight: Option<Request>, hi: Edges)

  datatype Event =
    | Jump(direction: Direction, start: Edges, attach: bool)
    | Ask(direction: Direction)
    | Answer(hi: Edges, rows: seq<Row>, cursor: Option<Edges>)
    | Fail
    | Live(rows: seq<Row>)
    | Produce(hi: Edges)

  /** Positions as the engine tracks them: known partitions only, within their watermarks. */
  function Tracked(asked: Edges, lo: Edges, hi: Edges): Edges {
    map p | p in asked && p in lo && p in hi :: Clamp(asked[p], lo[p], hi[p])
  }

  /** The edge a page in `direction` runs towards. */
  function Watermark(direction: Direction, lo: Edges, hi: Edges): Edges {
    if direction.Back? then lo else hi
  }

  ghost predicate AtWatermarks(direction: Direction, final: Edges, lo: Edges, hi: Edges) {
    forall p | p in final :: p in lo && p in hi && final[p] == Watermark(direction, lo, hi)[p]
  }

  ghost predicate Within(m: Edges, lo: Edges, hi: Edges) {
    forall p :: WithinAt(m, lo, hi, p)
  }

  ghost predicate WithinAt(m: Edges, lo: Edges, hi: Edges, p: int) {
    p in m ==> p in lo && p in hi && lo[p] <= m[p] <= hi[p]
  }

  /** What a page that ended answers: the matching records between the positions
      asked for and the positions reached, and those positions as a cursor unless
      every one of them is a watermark. */
  ghost predicate PageAnswer(log: set<Row>, lo: Edges, hi: Edges, direction: Direction, asked: Edges,
                             rows: seq<Row>, cursor: Option<Edges>) {
    exists final :: Reached(log, lo, hi, direction, asked, rows, cursor, final)
  }

  ghost predicate Reached(log: set<Row>, lo: Edges, hi: Edges, direction: Direction, asked: Edges,
                          rows: seq<Row>, cursor: Option<Edges>, final: Edges) {
    && Delivered(log, direction, Tracked(asked, lo, hi), final, rows)
    && Within(final, lo, hi)
    && (if AtWatermarks(direction, final, lo, hi) then cursor == None else cursor == Some(final))
  }

  ghost predicate Grown(hi: Edges, hi': Edges) {
    hi.Keys == hi'.Keys && forall p | p in hi :: hi[p] <= hi'[p]
  }

  ghost predicate LiveBelow(rows: seq<Row>, lo: Edges, hi: Edges) {
    forall r | r in rows :: r.partition in lo && r.partition in hi && lo[r.partition] <= r.offset < hi[r.partition]
  }

  /** What the environment may do next. */
  ghost predicate Legal(c: World, s: State, e: Event) {
    match e
    case Jump(direction, start, attach) => Within(start, c.lo, s.hi)
    case Ask(direction) => s.inFlight.None? &&
      (if direction.Back? then BottomCursor(s.window).Some? else TopCursor(s.window).Some?)
    case Answer(hi, rows, cursor) => s.inFlight.Some? &&
      Grown(s.inFlight.value.hi, hi) && Grown(hi, s.hi) &&
      PageAnswer(c.log, c.lo, hi, s.inFlight.value.direction, s.inFlight.value.start, rows, cursor)
    case Fail => s.inFlight.Some?
    case Live(rows) => s.window.attached ==> LiveFeed(s.window, c.log, rows) && LiveBelow(rows, c.lo, s.hi)
    case Produce(hi) => Grown(s.hi, hi)
  }

  ghost function Step(c: World, s: State, e: Event): State
    requires WellFormed(s.window.held)
  {
    match e
    case Jump(direction, start, attach) =>
      State(EMPTY, Some(Request(direction, start, true, attach, s.hi)), s.hi)
    case Ask(direction) =>
      var start := if direction.Back? then s.window.bottom else s.window.top;
      s.(inFlight := Some(Request(direction, start, false, false, s.hi)))
    case Answer(hi, rows, cursor) =>
      if s.inFlight.None? then s else
      var r := s.inFlight.value;
      State(AfterPage(s.window, c.cap, rows, r.direction, if r.anchor then None else Some(r.start), cursor, r.attach),
            None, s.hi)
    case Fail => s.(inFlight := None)
    case Live(rows) => s.(window := AfterLive(s.window, c.cap, rows))
    case Produce(hi) => s.(hi := hi)
  }

  // ---- edges and rows stay within the watermarks -------------------------------

  ghost predicate RowWithin(r: Row, lo: Edges, hi: Edges) {
    r.partition in lo && r.partition in hi && lo[r.partition] <= r.offset < hi[r.partition]
  }

  ghost predicate BoundedAt(w: Window, lo: Edges, hi: Edges, p: int) {
    && WithinAt(w.bottom, lo, hi, p) && WithinAt(w.top, lo, hi, p)
    && forall r | r in At(w.held, p) :: RowWithin(r, lo, hi)
  }

  ghost predicate Bounded(w: Window, lo: Edges, hi: Edges) {
    forall p :: BoundedAt(w, lo, hi, p)
  }

  lemma FreshBounded(held: Streams, rows: seq<Row>, lo: Edges, hi: Edges, p: int)
    requires WellFormed(held) && forall r | r in At(held, p) :: RowWithin(r, lo, hi)
    requires forall r | r in rows :: RowWithin(r, lo, hi)
    ensures forall r | r in At(InsertAll(held, rows), p) :: RowWithin(r, lo, hi)
    ensures WithinAt(Lowest(Fresh(held, rows)), lo, hi, p)
    ensures WithinAt(PastHighest(Fresh(held, rows)), lo, hi, p)
  {
    InsertAllAdds(held, rows, p);
    InsertAllHolds(held, rows);
    LaneMembers(Fresh(held, rows), p);
    LowestIsLeast(Fresh(held, rows));
    HighestIsGreatest(Fresh(held, rows));
    forall r | r in At(InsertAll(held, rows), p) ensures RowWithin(r, lo, hi) {
      assert r in ToSet(At(InsertAll(held, rows), p));
      assert r in ToSet(At(held, p)) || r in ToSet(Lane(Fresh(held, rows), p));
    }
  }

  lemma PageBounded(w: Window, rows: seq<Row>, direction: Direction, start: Option<Edges>, cursor: Option<Edges>,
                    attach: bool, lo: Edges, hi: Edges, p: int)
    requires WellFormed(w.held) && BoundedAt(w, lo, hi, p)
    requires forall r | r in rows :: RowWithin(r, lo, hi)
    requires cursor.Some? ==> WithinAt(cursor.value, lo, hi, p)
    ensures BoundedAt(WithPage(w, rows, direction, start, cursor, attach), lo, hi, p)
  {
    FreshBounded(w.held, rows, lo, hi, p);
    PageEdges(w, rows, direction, start, cursor, attach, p);
  }

  lemma LiveBounded(w: Window, rows: seq<Row>, lo: Edges, hi: Edges, p: int)
    requires WellFormed(w.held) && BoundedAt(w, lo, hi, p)
    requires forall r | r in rows :: RowWithin(r, lo, hi)
    ensures BoundedAt(WithLive(w, rows), lo, hi, p)
  {
    SafeMembers(w, rows);
    FreshBounded(w.held, Safe(w, rows), lo, hi, p);
    LiveEdges(w, rows, p);
  }

  lemma CutsBounded(w: Window, cuts: map<int, nat>, lo: Edges, hi: Edges, p: int)
    requires WellFormed(w.held) && CutsOf(w.held, cuts) && BoundedAt(w, lo, hi, p)
    ensures BoundedAt(CutTop(w, cuts), lo, hi, p) && BoundedAt(CutBottom(w, cuts), lo, hi, p)
  {
    CutsAt(w, cuts, p);
    var arr := At(w.held, p);
    assert LaneOk(w.held, p);
    forall i | 0 <= i < |arr| ensures RowWithin(arr[i], lo, hi) && arr[i].partition == p { assert arr[i] in arr; }
  }

  lemma CappedBounded(w: Window, merged: seq<Row>, cap: nat, grew: Direction, lo: Edges, hi: Edges)
    requires WellFormed(w.held) && AllFit(w.held, merged) && Bounded(w, lo, hi)
    ensures Bounded(CappedBy(w, merged, cap, grew), lo, hi)
  {
    if |merged| > cap {
      var cuts := Cuts(w.held, merged[..if grew.Back? then |merged| - cap else cap]);
      forall p ensures BoundedAt(CutTop(w, cuts), lo, hi, p) && BoundedAt(CutBottom(w, cuts), lo, hi, p) {
        assert BoundedAt(w, lo, hi, p);
        CutsBounded(w, cuts, lo, hi, p);
      }
    }
  }

  // ---- the invariant --------------------------------------------------------------

  ghost predicate InFlightOk(c: World, s: State, r: Request) {
    && Grown(c.lo, r.hi) && Grown(r.hi, s.hi) && Within(r.start, c.lo, r.hi)
    && if r.anchor then s.window == EMPTY
       else match r.direction
         case Back => forall p | p in r.start :: StartsBelow(r.start, s.window.bottom, p)
         case Forward =>
           && !s.window.attached && r.start == s.window.top
           && (s.window.historical ==> s.window.bottom.Keys <= s.window.top.Keys)
  }

  predicate StartsBelow(start: Edges, bottom: Edges, p: int) {
    p in start && p in bottom && start[p] <= bottom[p]
  }

  ghost predicate Inv(c: World, s: State) {
    && Keyed(c.log) && Grown(c.lo, s.hi)
    && Exact(s.window, c.log) && Bounded(s.window, c.lo, s.hi) && |Display(s.window.held)| <= c.cap
    && (s.inFlight.Some? ==> InFlightOk(c, s, s.inFlight.value))
  }

  ghost predicate Initial(c: World, s: State) {
    Keyed(c.log) && Grown(c.lo, s.hi) && s.window == EMPTY && s.inFlight == None
  }

  lemma EmptyExact(c: World, hi: Edges)
    ensures Exact(EMPTY, c.log) && Bounded(EMPTY, c.lo, hi) && Display(EMPTY.held) == []
  {
    forall p ensures LaneOk(EMPTY.held, p) && ExactAt(EMPTY, c.log, p) && BoundedAt(EMPTY, c.lo, hi, p) {}
  }

  lemma TrackedAt(asked: Edges, lo: Edges, hi: Edges, hi': Edges, p: int)
    requires Within(asked, lo, hi) && Grown(hi, hi')
    ensures p in Tracked(asked, lo, hi') <==> p in asked
    ensures p in asked ==> Tracked(asked, lo, hi')[p] == asked[p]
  {
    assert WithinAt(asked, lo, hi, p);
  }

  lemma RowsWithin(log: set<Row>, lo: Edges, hi: Edges, direction: Direction, asked: Edges,
                   rows: seq<Row>, cursor: Option<Edges>, final: Edges, r: Row)
    requires Reached(log, lo, hi, direction, asked, rows, cursor, final) && r in rows
    requires forall p | p in lo && p in hi :: lo[p] <= hi[p]
    ensures RowWithin(r, lo, hi)
  {
    var start := Tracked(asked, lo, hi);
    assert Crossed(direction, start, final, r);
    assert WithinAt(final, lo, hi, r.partition);
  }

  lemma GrownRow(r: Row, lo: Edges, hi: Edges, hi': Edges)
    requires RowWithin(r, lo, hi) && Grown(hi, hi')
    ensures RowWithin(r, lo, hi')
  {}

  lemma GrownTrans(a: Edges, b: Edges, c: Edges)
    requires Grown(a, b) && Grown(b, c)
    ensures Grown(a, c)
  {}

  lemma GrownWithin(m: Edges, lo: Edges, hi: Edges, hi': Edges, p: int)
    requires WithinAt(m, lo, hi, p) && Grown(hi, hi')
    ensures WithinAt(m, lo, hi', p)
  {}

  lemma GrownBounded(w: Window, lo: Edges, hi: Edges, hi': Edges)
    requires Bounded(w, lo, hi) && Grown(hi, hi')
    ensures Bounded(w, lo, hi')
  {
    forall p ensures BoundedAt(w, lo, hi', p) {
      assert BoundedAt(w, lo, hi, p);
      forall r | r in At(w.held, p) ensures RowWithin(r, lo, hi') { GrownRow(r, lo, hi, hi'); }
    }
  }

  /** An accepted page merged in, before the limit: still exact, still bounded. */
  lemma PageKeeps(c: World, w: Window, hi: Edges, now: Edges, r: Request, rows: seq<Row>, cursor: Option<Edges>,
                  final: Edges)
    requires Keyed(c.log) && Grown(c.lo, hi) && Grown(hi, now) && Exact(w, c.log) && Bounded(w, c.lo, now)
    requires Reached(c.log, c.lo, hi, r.direction, r.start, rows, cursor, final)
    requires if r.anchor then w == EMPTY
             else forall p :: FromEdge(w, r.direction, Tracked(r.start, c.lo, hi), p)
    ensures var w' := WithPage(w, rows, r.direction, if r.anchor then None else Some(r.start), cursor, r.attach);
      Exact(w', c.log) && Bounded(w', c.lo, now)
  {
    var start := if r.anchor then None else Some(r.start);
    var tracked := Tracked(r.start, c.lo, hi);
    var w' := WithPage(w, rows, r.direction, start, cursor, r.attach);
    InsertAllWellFormed(w.held, rows);
    ExactIsGrounded(w, c.log);
    forall x | x in rows ensures RowWithin(x, c.lo, now) {
      RowsWithin(c.log, c.lo, hi, r.direction, r.start, rows, cursor, final, x);
      GrownRow(x, c.lo, hi, now);
    }
    forall p ensures ExactAt(w', c.log, p) && BoundedAt(w', c.lo, now, p) {
      assert ExactAt(w, c.log, p) && BoundedAt(w, c.lo, now, p) && WithinAt(final, c.lo, hi, p);
      GrownWithin(final, c.lo, hi, now, p);
      PageBounded(w, rows, r.direction, start, cursor, r.attach, c.lo, now, p);
      if r.anchor {
        AnchorExactAt(w, c.log, rows, r.direction, tracked, final, cursor, r.attach, p);
      } else {
        assert FromEdge(w, r.direction, tracked, p);
        PageExactAt(w, c.log, rows, r.direction, tracked, final, cursor, r.attach, p);
      }
    }
  }

  lemma CappedKeeps(c: World, w: Window, grew: Direction, hi: Edges)
    requires Exact(w, c.log) && Bounded(w, c.lo, hi)
    ensures Exact(Capped(w, c.cap, grew), c.log) && Bounded(Capped(w, c.cap, grew), c.lo, hi)
    ensures |Display(Capped(w, c.cap, grew).held)| <= c.cap
  {
    CappedDisplay(w, c.cap, grew);
    DisplayFits(w.held);
    CappedByExact(w, c.log, Display(w.held), c.cap, grew);
    CappedBounded(w, Display(w.held), c.cap, grew, c.lo, hi);
  }

  /** A page that was not overtaken starts exactly at the window's own edge. */
  lemma AcceptedFromEdge(c: World, s: State, r: Request, hi: Edges)
    requires InFlightOk(c, s, r) && !r.anchor && Grown(r.hi, hi) && !IsStale(s.window, r.direction, Some(r.start))
    ensures forall p :: FromEdge(s.window, r.direction, Tracked(r.start, c.lo, hi), p)
  {
    forall p ensures FromEdge(s.window, r.direction, Tracked(r.start, c.lo, hi), p) {
      TrackedAt(r.start, c.lo, r.hi, hi, p);
      assert p in r.start && r.direction.Back? ==> StartsBelow(r.start, s.window.bottom, p);
    }
  }

  lemma AnswerKeeps(c: World, s: State, hi: Edges, rows: seq<Row>, cursor: Option<Edges>)
    requires Inv(c, s) && Legal(c, s, Answer(hi, rows, cursor))
    ensures Inv(c, Step(c, s, Answer(hi, rows, cursor)))
    ensures var r := s.inFlight.value;
      IsStale(s.window, r.direction, if r.anchor then None else Some(r.start)) ==>
        Step(c, s, Answer(hi, rows, cursor)) == s.(inFlight := None)
  {
    var r := s.inFlight.value;
    var start := if r.anchor then None else Some(r.start);
    if !IsStale(s.window, r.direction, start) {
      var final :| Reached(c.log, c.lo, hi, r.direction, r.start, rows, cursor, final);
      if !r.anchor { AcceptedFromEdge(c, s, r, hi); }
      GrownFrom(c, s, r, hi);
      PageKeeps(c, s.window, hi, s.hi, r, rows, cursor, final);
      InsertAllWellFormed(s.window.held, rows);
      CappedKeeps(c, WithPage(s.window, rows, r.direction, start, cursor, r.attach), r.direction, s.hi);
    }
  }

  lemma GrownFrom(c: World, s: State, r: Request, hi: Edges)
    requires Grown(c.lo, s.hi) && InFlightOk(c, s, r) && Grown(r.hi, hi) && Grown(hi, s.hi)
    ensures Grown(c.lo, hi)
  {
    GrownTrans(c.lo, r.hi, hi);
  }

  // ---- live rows while a page is in flight -----------------------------------------

  /** Rows held never lie below the bottom edge, so a bottom trim raises the edge of
      exactly the partitions it takes rows from. */
  lemma CutRaisesBottom(w: Window, log: set<Row>, cuts: map<int, nat>, p: int)
    requires WellFormed(w.held) && ExactAt(w, log, p) && CutsOf(w.held, cuts) && p in w.bottom
    ensures var w' := CutBottom(w, cuts);
      && p in w'.bottom && w.bottom[p] <= w'.bottom[p]
      && (w.bottom[p] < w'.bottom[p] <==> 0 < CutAt(cuts, p))
      && (0 < CutAt(cuts, p) <==> At(w'.held, p) != At(w.held, p))
  {
    CutsAt(w, cuts, p);
    var arr := At(w.held, p);
    if 0 < CutAt(cuts, p) {
      assert arr[CutAt(cuts, p) - 1] in ToSet(arr);
      assert |arr[CutAt(cuts, p)..]| < |arr|;
    }
  }

  lemma CappedRaisesBottom(w: Window, log: set<Row>, merged: seq<Row>, cap: nat, p: int)
    requires WellFormed(w.held) && AllFit(w.held, merged) && ExactAt(w, log, p) && p in w.bottom
    ensures var w' := CappedBy(w, merged, cap, Forward);
      && p in w'.bottom && w.bottom[p] <= w'.bottom[p]
      && (w.bottom[p] < w'.bottom[p] <==> At(w'.held, p) != At(w.held, p))
  {
    if |merged| > cap { CutRaisesBottom(w, log, Cuts(w.held, merged[..cap]), p); }
  }

  lemma LiveMerged(c: World, w: Window, rows: seq<Row>, hi: Edges)
    requires Keyed(c.log) && Exact(w, c.log) && Bounded(w, c.lo, hi)
    requires LiveFeed(w, c.log, rows) && LiveBelow(rows, c.lo, hi)
    ensures Exact(WithLive(w, rows), c.log) && Bounded(WithLive(w, rows), c.lo, hi)
  {
    ExactIsGrounded(w, c.log);
    InsertAllWellFormed(w.held, Safe(w, rows));
    forall r | r in rows ensures RowWithin(r, c.lo, hi) {}
    forall p ensures ExactAt(WithLive(w, rows), c.log, p) && BoundedAt(WithLive(w, rows), c.lo, hi, p) {
      assert ExactAt(w, c.log, p) && BoundedAt(w, c.lo, hi, p);
      LiveExactAt(w, c.log, rows, p);
      LiveBounded(w, rows, c.lo, hi, p);
    }
  }

  /** Live rows only ever raise the bottom edge. */
  lemma LiveRaisesBottom(c: World, w: Window, rows: seq<Row>, hi: Edges, p: int)
    requires Keyed(c.log) && Exact(w, c.log) && Bounded(w, c.lo, hi) && w.attached && p in w.bottom
    requires LiveFeed(w, c.log, rows) && LiveBelow(rows, c.lo, hi)
    ensures WellFormed(WithLive(w, rows).held)
    ensures var w' := AfterLive(w, c.cap, rows);
      && p in w'.bottom && w.bottom[p] <= w'.bottom[p]
      && (w.bottom[p] < w'.bottom[p] <==> At(w'.held, p) != At(WithLive(w, rows).held, p))
  {
    LiveMerged(c, w, rows, hi);
    var m := WithLive(w, rows);
    DisplayFits(m.held);
    assert ExactAt(m, c.log, p);
    CappedRaisesBottom(m, c.log, Display(m.held), c.cap, p);
  }

  lemma LiveKeeps(c: World, s: State, rows: seq<Row>)
    requires Inv(c, s) && Legal(c, s, Live(rows))
    ensures Inv(c, Step(c, s, Live(rows)))
  {
    if s.window.attached {
      LiveMerged(c, s.window, rows, s.hi);
      CappedKeeps(c, WithLive(s.window, rows), Forward, s.hi);
      if s.inFlight.Some? {
        var r := s.inFlight.value;
        forall p | p in r.start ensures StartsBelow(r.start, AfterLive(s.window, c.cap, rows).bottom, p) {
          assert StartsBelow(r.start, s.window.bottom, p);
          LiveRaisesBottom(c, s.window, rows, s.hi, p);
        }
      }
    }
  }

  /** The bottom edge moved exactly where `after` has other rows than `before`. */
  ghost predicate RaisedWhereTaken(bottom: Edges, bottom': Edges, before: Streams, after: Streams) {
    forall p | p in bottom :: p in bottom' && (bottom[p] < bottom'[p] <==> At(after, p) != At(before, p))
  }

  lemma StaleWhereTaken(bottom: Edges, before: Streams, w: Window)
    requires RaisedWhereTaken(bottom, w.bottom, before, w.held)
    ensures IsStale(w, Back, Some(bottom)) <==> exists p | p in bottom :: At(w.held, p) != At(before, p)
  {}

  /** A back page asked for just before a live delivery is overtaken exactly when the
      delivery's trim took rows from a partition the page reads. */
  lemma StaleIffTrimmed(c: World, w: Window, rows: seq<Row>, hi: Edges)
    requires Keyed(c.log) && Exact(w, c.log) && Bounded(w, c.lo, hi) && w.attached
    requires LiveFeed(w, c.log, rows) && LiveBelow(rows, c.lo, hi)
    ensures WellFormed(WithLive(w, rows).held)
    ensures IsStale(AfterLive(w, c.cap, rows), Back, Some(w.bottom)) <==>
            exists p | p in w.bottom :: At(AfterLive(w, c.cap, rows).held, p) != At(WithLive(w, rows).held, p)
  {
    LiveMerged(c, w, rows, hi);
    var w' := AfterLive(w, c.cap, rows);
    forall p | p in w.bottom
      ensures p in w'.bottom && (w.bottom[p] < w'.bottom[p] <==> At(w'.held, p) != At(WithLive(w, rows).held, p))
    {
      LiveRaisesBottom(c, w, rows, hi, p);
    }
    StaleWhereTaken(w.bottom, WithLive(w, rows).held, w');
  }

  // ---- whole runs -----------------------------------------------------------------

  lemma StepKeeps(c: World, s: State, e: Event)
    requires Inv(c, s) && Legal(c, s, e)
    ensures Inv(c, Step(c, s, e))
  {
    match e
    case Jump(direction, start, attach) => EmptyExact(c, s.hi);
    case Ask(direction) =>
      forall p ensures WithinAt(s.window.bottom, c.lo, s.hi, p) && WithinAt(s.window.top, c.lo, s.hi, p) {
        assert BoundedAt(s.window, c.lo, s.hi, p);
      }
    case Answer(hi, rows, cursor) => AnswerKeeps(c, s, hi, rows, cursor);
    case Fail =>
    case Live(rows) => LiveKeeps(c, s, rows);
    case Produce(hi) =>
      GrownTrans(c.lo, s.hi, hi);
      GrownBounded(s.window, c.lo, s.hi, hi);
      if s.inFlight.Some? { GrownTrans(s.inFlight.value.hi, s.hi, hi); }
  }

  ghost predicate RunTo(c: World, s: State, es: seq<Event>, t: State)
    decreases |es|
  {
    if es == [] then s == t
    else WellFormed(s.window.held) && Legal(c, s, es[0]) && RunTo(c, Step(c, s, es[0]), es[1..], t)
  }

  lemma {:induction false} RunKeeps(c: World, s: State, es: seq<Event>, t: State)
    requires Inv(c, s) && RunTo(c, s, es, t)
    ensures Inv(c, t)
    decreases |es|
  {
    if es != [] {
      StepKeeps(c, s, es[0]);
      RunKeeps(c, Step(c, s, es[0]), es[1..], t);
    }
  }

  /** After any run, a partition with both edges holds exactly the matching records
      between them, each once and in offset order, and the limit is respected. */
  lemma WindowIsExact(c: World, s: State, es: seq<Event>, t: State, p: int)
    requires Initial(c, s) && RunTo(c, s, es, t)
    requires p in t.window.bottom && p in t.window.top
    ensures WellFormed(t.window.held) && |Display(t.window.held)| <= c.cap
    ensures ToSet(At(t.window.held, p)) == Span(c.log, p, t.window.bottom[p], t.window.top[p])
    ensures Ascending(At(t.window.held, p))
    ensures p in c.lo && p in t.hi && c.lo[p] <= t.window.bottom[p] <= t.window.top[p] <= t.hi[p]
  {
    EmptyExact(c, s.hi);
    RunKeeps(c, s, es, t);
    assert ExactAt(t.window, c.log, p) && LaneOk(t.window.held, p) && BoundedAt(t.window, c.lo, t.hi, p);
  }
}
