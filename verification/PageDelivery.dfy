/**
 * What the engine's page means to the window: a page that ended is an answer the
 * session may deliver.
 */
module PageDelivery {
  import opened Rows
  import opened PageWindows
  import opened PageAdvance
  import opened PageGround
  import opened PageEngine
  import WindowState
  import WindowInvariant
  import Session

  /** The first position of a partition. */
  function OffsetAt(positions: seq<Position>, p: int): Option<int> {
    if positions == [] then None
    else if positions[0].partition == p then Some(positions[0].offset)
    else OffsetAt(positions[1..], p)
  }

  function OffsetOr(positions: seq<Position>, p: int): int {
    var o := OffsetAt(positions, p);
    if o.Some? then o.value else 0
  }

  function PositionKeys(positions: seq<Position>): set<int> {
    set q | q in positions :: q.partition
  }

  function MarkKeys(marks: seq<Mark>): set<int> {
    set m | m in marks :: m.partition
  }

  /** Positions and watermarks as maps. */
  function AsEdges(positions: seq<Position>): (m: WindowState.Edges)
    ensures forall p :: WindowState.Entry(m, p) == OffsetAt(positions, p)
  {
    AsEdgesAll(positions);
    map p | p in PositionKeys(positions) :: OffsetOr(positions, p)
  }

  lemma {:induction false} OffsetFound(positions: seq<Position>, p: int)
    ensures OffsetAt(positions, p).Some? <==> exists q :: q in positions && q.partition == p
  {
    if positions != [] {
      OffsetFound(positions[1..], p);
      if positions[0].partition != p {
        assert forall q: Position | q.partition == p :: q in positions <==> q in positions[1..];
      }
    }
  }

  lemma AsEdgesAll(positions: seq<Position>)
    ensures forall p :: OffsetAt(positions, p).Some? <==> exists q :: q in positions && q.partition == p
  {
    forall p ensures OffsetAt(positions, p).Some? <==> exists q :: q in positions && q.partition == p {
      OffsetFound(positions, p);
    }
  }

  function LowOr(marks: seq<Mark>, p: int): int {
    var m := Find(marks, p);
    if m.Some? then m.value.lo else 0
  }

  function HighOr(marks: seq<Mark>, p: int): int {
    var m := Find(marks, p);
    if m.Some? then m.value.hi else 0
  }

  function LowMarks(marks: seq<Mark>): WindowState.Edges {
    map p | p in MarkKeys(marks) :: LowOr(marks, p)
  }

  function HighMarks(marks: seq<Mark>): WindowState.Edges {
    map p | p in MarkKeys(marks) :: HighOr(marks, p)
  }

  lemma {:induction false} MarkFound(marks: seq<Mark>, p: int)
    ensures Find(marks, p).Some? <==> exists m :: m in marks && m.partition == p
  {
    if marks != [] {
      MarkFound(marks[1..], p);
      if marks[0].partition != p {
        assert forall m: Mark | m.partition == p :: m in marks <==> m in marks[1..];
      }
    }
  }

  lemma MarksAt(marks: seq<Mark>, p: int)
    ensures WindowState.Entry(LowMarks(marks), p) ==
      if Find(marks, p).Some? then Some(Find(marks, p).value.lo) else None
    ensures WindowState.Entry(HighMarks(marks), p) ==
      if Find(marks, p).Some? then Some(Find(marks, p).value.hi) else None
  {
    MarkFound(marks, p);
  }

  /** Clamping, position by position and partition by partition, is the same. */
  lemma {:induction false} ClampedAt(asked: seq<Position>, marks: seq<Mark>, p: int)
    requires Distinct(asked)
    ensures OffsetAt(ClampPositions(asked, marks), p) ==
            if OffsetAt(asked, p).Some? && Find(marks, p).Some?
            then Some(Clamp(OffsetAt(asked, p).value, Find(marks, p).value.lo, Find(marks, p).value.hi))
            else None
  {
    if asked != [] {
      ClampedAt(asked[1..], marks, p);
      OffsetFound(asked[1..], p);
      if asked[0].partition == p {
        forall q | q in asked[1..] ensures q.partition != p {}
      }
      var rest, m := ClampPositions(asked[1..], marks), Find(marks, asked[0].partition);
      if m.Some? {
        var x := asked[0].(offset := Clamp(asked[0].offset, m.value.lo, m.value.hi));
        assert ClampPositions(asked, marks) == [x] + rest && ([x] + rest)[1..] == rest;
      } else {
        assert ClampPositions(asked, marks) == rest;
      }
    }
  }

  /** Two sets of positions in step, partition by partition. */
  lemma {:induction false} StepsAt(direction: Direction, a: seq<Position>, b: seq<Position>, p: int)
    requires Steps(direction, a, b)
    ensures OffsetAt(a, p).Some? <==> OffsetAt(b, p).Some?
    ensures OffsetAt(a, p).Some? ==> Onward(direction, OffsetAt(a, p).value, OffsetAt(b, p).value)
  {
    if a != [] { StepsAt(direction, a[1..], b[1..], p); }
  }

  lemma {:induction false} CrossesAt(direction: Direction, a: seq<Position>, b: seq<Position>, r: Row)
    requires Steps(direction, a, b) && Distinct(a)
    ensures Crosses(direction, a, b, r) <==>
            var from, to := OffsetAt(a, r.partition), OffsetAt(b, r.partition);
            from.Some? && to.Some? &&
              if direction.Back? then to.value <= r.offset < from.value else from.value <= r.offset < to.value
  {
    if a != [] {
      var a', b' := a[1..], b[1..];
      CrossesAt(direction, a', b', r);
      CrossesTail(direction, a, b, r);
      if a[0].partition == r.partition {
        forall j | 0 <= j < |a'| && j < |b'| ensures !CrossedBy(direction, a'[j], b'[j], r) {
          assert a'[j] == a[j + 1];
        }
      }
    }
  }

  lemma CrossesTail(direction: Direction, a: seq<Position>, b: seq<Position>, r: Row)
    requires a != [] && b != []
    ensures Crosses(direction, a, b, r) <==>
      CrossedBy(direction, a[0], b[0], r) || Crosses(direction, a[1..], b[1..], r)
  {
    if Crosses(direction, a, b, r) {
      var i :| 0 <= i < |a| && i < |b| && CrossedBy(direction, a[i], b[i], r);
      if i > 0 { assert CrossedBy(direction, a[1..][i - 1], b[1..][i - 1], r); }
    }
    if Crosses(direction, a[1..], b[1..], r) {
      var i :| 0 <= i < |a[1..]| && i < |b[1..]| && CrossedBy(direction, a[1..][i], b[1..][i], r);
      assert CrossedBy(direction, a[i + 1], b[i + 1], r);
    }
  }

  /** The matching part of the log. */
  ghost function Kept(log: set<Row>, keep: Row -> bool): set<Row> {
    set r | r in log && keep(r)
  }

  /** The cursor a page hands back, as the window stores it. */
  function CursorEdges(outcome: PageOutcome): Option<WindowState.Edges> {
    if outcome.Ended? && outcome.cursor.Some? then Some(AsEdges(outcome.cursor.value)) else None
  }

  lemma TrackedIsClamped(asked: seq<Position>, marks: seq<Mark>, p: int)
    requires Distinct(asked)
    ensures WindowState.Entry(Session.Tracked(AsEdges(asked), LowMarks(marks), HighMarks(marks)), p) ==
            OffsetAt(ClampPositions(asked, marks), p)
  {
    ClampedAt(asked, marks, p);
    MarksAt(marks, p);
    assert WindowState.Entry(AsEdges(asked), p) == OffsetAt(asked, p);
  }

  lemma {:induction false} InRangeAt(positions: seq<Position>, marks: seq<Mark>, direction: Direction, p: int)
    requires AllInRange(positions, marks) && OffsetAt(positions, p).Some?
    ensures InRange(Position(p, OffsetAt(positions, p).value), marks)
    ensures AllAtEdge(positions, marks, direction) ==>
      AtEdge(OffsetAt(positions, p).value, Find(marks, p).value, direction)
  {
    assert InRange(positions[0], marks);
    if positions[0].partition != p {
      forall i | 0 <= i < |positions[1..]| ensures InRange(positions[1..][i], marks) {
        assert InRange(positions[i + 1], marks);
      }
      InRangeAt(positions[1..], marks, direction, p);
      if AllAtEdge(positions, marks, direction) {
        assert forall i | 0 <= i < |positions[1..]| :: positions[1..][i] == positions[i + 1];
      }
    }
  }

  lemma {:induction false} OffsetOwn(positions: seq<Position>, i: nat)
    requires Distinct(positions) && i < |positions|
    ensures OffsetAt(positions, positions[i].partition) == Some(positions[i].offset)
  {
    if i > 0 { OffsetOwn(positions[1..], i - 1); }
  }

  lemma EdgeAgrees(positions: seq<Position>, marks: seq<Mark>, direction: Direction)
    requires AllInRange(positions, marks) && Distinct(positions)
    ensures Session.AtWatermarks(direction, AsEdges(positions), LowMarks(marks), HighMarks(marks)) <==>
      AllAtEdge(positions, marks, direction)
  {
    var final, lo, hi := AsEdges(positions), LowMarks(marks), HighMarks(marks);
    if AllAtEdge(positions, marks, direction) {
      forall p | p in final ensures p in lo && p in hi && final[p] == Session.Watermark(direction, lo, hi)[p] {
        assert WindowState.Entry(final, p) == OffsetAt(positions, p);
        InRangeAt(positions, marks, direction, p);
        MarksAt(marks, p);
      }
    }
    if Session.AtWatermarks(direction, final, lo, hi) {
      forall i | 0 <= i < |positions|
        ensures Find(marks, positions[i].partition).Some?
        ensures AtEdge(positions[i].offset, Find(marks, positions[i].partition).value, direction)
      {
        var p := positions[i].partition;
        assert InRange(positions[i], marks);
        OffsetOwn(positions, i);
        assert WindowState.Entry(final, p) == OffsetAt(positions, p);
        MarksAt(marks, p);
        assert p in final;
      }
    }
  }

  lemma FinalWithin(positions: seq<Position>, marks: seq<Mark>, direction: Direction, p: int)
    requires AllInRange(positions, marks)
    ensures Session.WithinAt(AsEdges(positions), LowMarks(marks), HighMarks(marks), p)
  {
    assert WindowState.Entry(AsEdges(positions), p) == OffsetAt(positions, p);
    if p in AsEdges(positions) {
      InRangeAt(positions, marks, direction, p);
      MarksAt(marks, p);
    }
  }

  lemma CrossedAgrees(asked: seq<Position>, marks: seq<Mark>, direction: Direction, final: seq<Position>, r: Row)
    requires Distinct(asked) && Distinct(ClampPositions(asked, marks))
    requires Steps(direction, ClampPositions(asked, marks), final)
    ensures var start := Session.Tracked(AsEdges(asked), LowMarks(marks), HighMarks(marks));
      WindowInvariant.Crossed(direction, start, AsEdges(final), r) <==>
        Crosses(direction, ClampPositions(asked, marks), final, r)
  {
    TrackedIsClamped(asked, marks, r.partition);
    assert WindowState.Entry(AsEdges(final), r.partition) == OffsetAt(final, r.partition);
    CrossesAt(direction, ClampPositions(asked, marks), final, r);
  }

  lemma KeysAgree(asked: seq<Position>, marks: seq<Mark>, direction: Direction, final: seq<Position>, p: int)
    requires Distinct(asked) && Steps(direction, ClampPositions(asked, marks), final)
    ensures var start := Session.Tracked(AsEdges(asked), LowMarks(marks), HighMarks(marks));
      (p in start <==> p in AsEdges(final)) && (p in start ==> Onward(direction, start[p], AsEdges(final)[p]))
  {
    TrackedIsClamped(asked, marks, p);
    assert WindowState.Entry(AsEdges(final), p) == OffsetAt(final, p);
    StepsAt(direction, ClampPositions(asked, marks), final, p);
  }

  lemma PageDelivers(log: set<Row>, keep: Row -> bool, marks: seq<Mark>, direction: Direction, asked: seq<Position>,
                     final: seq<Position>, shown: seq<Row>)
    requires Distinct(asked) && Distinct(ClampPositions(asked, marks))
    requires Steps(direction, ClampPositions(asked, marks), final)
    requires ToSet(shown) == Found(log, keep, direction, ClampPositions(asked, marks), final)
    ensures WindowInvariant.Delivered(Kept(log, keep), direction,
        Session.Tracked(AsEdges(asked), LowMarks(marks), HighMarks(marks)), AsEdges(final), shown)
  {
    var start := Session.Tracked(AsEdges(asked), LowMarks(marks), HighMarks(marks));
    forall p
      ensures (p in start <==> p in AsEdges(final)) && (p in start ==> Onward(direction, start[p], AsEdges(final)[p]))
    {
      KeysAgree(asked, marks, direction, final, p);
    }
    assert start.Keys == AsEdges(final).Keys;
    forall r ensures r in shown <==>
      r in Kept(log, keep) && WindowInvariant.Crossed(direction, start, AsEdges(final), r) {
      CrossedAgrees(asked, marks, direction, final, r);
      assert r in shown <==> r in ToSet(shown);
    }
  }

  /** Every page the engine ends is one the session may answer with. */
  lemma PageIsAnswer(log: set<Row>, keep: Row -> bool, marks: seq<Mark>, direction: Direction, asked: seq<Position>,
                     limit: nat, budget: nat, page: Page, shown: seq<Row>, outcome: PageOutcome)
    requires Distinct(asked) && Ordered(marks)
    requires PageDone(log, keep, marks, direction, ClampPositions(asked, marks), limit, budget, page, shown, outcome)
    ensures Session.PageAnswer(Kept(log, keep), LowMarks(marks), HighMarks(marks), direction, AsEdges(asked), shown,
        CursorEdges(outcome))
  {
    var final := AsEdges(page.positions);
    ClampedInRange(asked, marks);
    PageDelivers(log, keep, marks, direction, asked, page.positions, shown);
    forall p ensures Session.WithinAt(final, LowMarks(marks), HighMarks(marks), p) {
      FinalWithin(page.positions, marks, direction, p);
    }
    EdgeAgrees(page.positions, marks, direction);
    assert Session.Reached(Kept(log, keep), LowMarks(marks), HighMarks(marks), direction, AsEdges(asked), shown,
        CursorEdges(outcome), final);
  }

  /** So whatever page the engine ends for the request in flight is a legal next event of
      the session, and every guarantee of a session run holds with real pages in it. */
  lemma EngineMayAnswer(c: Session.World, s: Session.State, log: set<Row>, keep: Row -> bool, marks: seq<Mark>,
                        asked: seq<Position>, limit: nat, budget: nat, page: Page, shown: seq<Row>,
                        outcome: PageOutcome)
    requires s.inFlight.Some? && Distinct(asked) && Ordered(marks)
    requires c.log == Kept(log, keep) && c.lo == LowMarks(marks) && s.inFlight.value.start == AsEdges(asked)
    requires Session.Grown(s.inFlight.value.hi, HighMarks(marks)) && Session.Grown(HighMarks(marks), s.hi)
    requires PageDone(log, keep, marks, s.inFlight.value.direction, ClampPositions(asked, marks), limit, budget, page,
        shown, outcome)
    ensures Session.Legal(c, s, Session.Answer(HighMarks(marks), shown, CursorEdges(outcome)))
  {
    PageIsAnswer(log, keep, marks, s.inFlight.value.direction, asked, limit, budget, page, shown, outcome);
  }
}
