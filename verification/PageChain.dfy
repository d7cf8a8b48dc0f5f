/**
 * Following page cursors in one direction, page after page, and the two directions
 * together.
 */
module PageChain {
  import opened Rows
  import opened PageWindows
  import opened PageAdvance
  import opened PageGround
  import opened PageEngine

  /** One completed page and the watermarks it ran under. */
  datatype Turn = Turn(marks: seq<Mark>, limit: nat, budget: nat, page: Page, shown: seq<Row>, outcome: PageOutcome)

  function MarkAt(marks: seq<Mark>, p: int): Option<Mark> { Find(marks, p) }

  predicate GrewAt(a: Option<Mark>, b: Option<Mark>) {
    a.Some? ==> b.Some? && b.value.lo == a.value.lo && a.value.hi <= b.value.hi
  }

  /** Records may be produced between two pages; none is retired. */
  ghost predicate Grew(marks: seq<Mark>, marks': seq<Mark>) {
    forall p :: GrewAt(MarkAt(marks, p), MarkAt(marks', p))
  }

  ghost predicate TurnOk(log: set<Row>, keep: Row -> bool, direction: Direction, from: seq<Position>, t: Turn) {
    PageDone(log, keep, t.marks, direction, ClampPositions(from, t.marks), t.limit, t.budget, t.page, t.shown,
        t.outcome)
  }

  /** Pages each asked for with the cursor of the one before. */
  ghost predicate Chain(log: set<Row>, keep: Row -> bool, direction: Direction, marks: seq<Mark>, from: seq<Position>,
                        turns: seq<Turn>)
    decreases |turns|
  {
    turns == [] ||
    (Grew(marks, turns[0].marks) && TurnOk(log, keep, direction, from, turns[0]) &&
     Chain(log, keep, direction, turns[0].marks, turns[0].page.positions, turns[1..]) &&
     (|turns| > 1 ==> turns[0].outcome.cursor == Some(turns[0].page.positions)))
  }

  function ShownBy(turns: seq<Turn>): seq<Row> {
    if turns == [] then [] else turns[0].shown + ShownBy(turns[1..])
  }

  function Reach(from: seq<Position>, turns: seq<Turn>): seq<Position> {
    if turns == [] then from else turns[|turns| - 1].page.positions
  }

  function LastMarks(marks: seq<Mark>, turns: seq<Turn>): seq<Mark> {
    if turns == [] then marks else turns[|turns| - 1].marks
  }

  predicate Exhausted(turns: seq<Turn>) {
    turns != [] && turns[|turns| - 1].outcome.Ended? && turns[|turns| - 1].outcome.exhausted
  }

  lemma StillInRange(from: seq<Position>, marks: seq<Mark>, marks': seq<Mark>)
    requires AllInRange(from, marks) && Grew(marks, marks')
    ensures AllInRange(from, marks')
  {
    forall i | 0 <= i < |from| ensures InRange(from[i], marks') {
      assert InRange(from[i], marks);
      assert GrewAt(MarkAt(marks, from[i].partition), MarkAt(marks', from[i].partition));
    }
  }

  lemma GrewTrans(a: seq<Mark>, b: seq<Mark>, c: seq<Mark>)
    requires Grew(a, b) && Grew(b, c)
    ensures Grew(a, c)
  {
    forall p ensures GrewAt(MarkAt(a, p), MarkAt(c, p)) {
      assert GrewAt(MarkAt(a, p), MarkAt(b, p)) && GrewAt(MarkAt(b, p), MarkAt(c, p));
    }
  }

  /** No loss and no repetition over any number of pages, whatever their spans, budgets
      and completeness verdicts were. */
  lemma {:induction false} ChainFinds(log: set<Row>, keep: Row -> bool, direction: Direction, marks: seq<Mark>,
                                      from: seq<Position>, turns: seq<Turn>)
    requires Chain(log, keep, direction, marks, from, turns) && AllInRange(from, marks) && Distinct(from)
    ensures Once(ShownBy(turns)) && ToSet(ShownBy(turns)) == Found(log, keep, direction, from, Reach(from, turns))
    ensures Steps(direction, from, Reach(from, turns)) && Grew(marks, LastMarks(marks, turns))
    ensures AllInRange(Reach(from, turns), LastMarks(marks, turns))
    decreases |turns|
  {
    if turns == [] {
      FoundNothing(log, keep, direction, from);
    } else {
      var t, rest := turns[0], turns[1..];
      StillInRange(from, marks, t.marks);
      ClampIdle(from, t.marks);
      ChainFinds(log, keep, direction, t.marks, t.page.positions, rest);
      assert Reach(from, turns) == Reach(t.page.positions, rest);
      assert LastMarks(marks, turns) == LastMarks(t.marks, rest);
      StepsTrans(direction, from, t.page.positions, Reach(from, turns));
      FoundChain(log, keep, direction, from, t.page.positions, Reach(from, turns), t.shown, ShownBy(rest));
      GrewTrans(marks, t.marks, LastMarks(marks, turns));
    }
  }

  lemma {:induction false} LastTurnAtEdge(log: set<Row>, keep: Row -> bool, direction: Direction, marks: seq<Mark>,
                                          from: seq<Position>, turns: seq<Turn>)
    requires Chain(log, keep, direction, marks, from, turns) && Exhausted(turns)
    ensures AllAtEdge(Reach(from, turns), LastMarks(marks, turns), direction)
    decreases |turns|
  {
    if |turns| > 1 {
      assert turns[1..][|turns| - 2] == turns[|turns| - 1];
      LastTurnAtEdge(log, keep, direction, turns[0].marks, turns[0].page.positions, turns[1..]);
    }
  }

  /** The records a chain run to exhaustion owes: from the position to the watermark. */
  predicate Owed(direction: Direction, pos: Position, marks: seq<Mark>, r: Row) {
    var m := Find(marks, pos.partition);
    r.partition == pos.partition && m.Some? &&
    if direction.Back? then m.value.lo <= r.offset < pos.offset else pos.offset <= r.offset < m.value.hi
  }

  predicate OwedBySome(direction: Direction, from: seq<Position>, marks: seq<Mark>, r: Row) {
    exists i | 0 <= i < |from| :: Owed(direction, from[i], marks, r)
  }

  lemma CrossedIsOwed(direction: Direction, from: seq<Position>, to: seq<Position>, marks: seq<Mark>, r: Row)
    requires Steps(direction, from, to) && AllAtEdge(to, marks, direction)
    ensures Crosses(direction, from, to, r) <==> OwedBySome(direction, from, marks, r)
  {
    forall i | 0 <= i < |from| ensures CrossedBy(direction, from[i], to[i], r) <==>
      Owed(direction, from[i], marks, r) {}
  }

  /** A direction followed to exhaustion shows exactly the matching records between the
      starting positions and the watermarks, each once. */
  lemma ExhaustionIsComplete(log: set<Row>, keep: Row -> bool, direction: Direction, marks: seq<Mark>,
                             from: seq<Position>, turns: seq<Turn>, r: Row)
    requires Chain(log, keep, direction, marks, from, turns) && AllInRange(from, marks) && Distinct(from)
    requires Exhausted(turns)
    ensures Once(ShownBy(turns))
    ensures r in ShownBy(turns) <==> r in log && keep(r) && OwedBySome(direction, from, LastMarks(marks, turns), r)
  {
    ChainFinds(log, keep, direction, marks, from, turns);
    LastTurnAtEdge(log, keep, direction, marks, from, turns);
    CrossedIsOwed(direction, from, Reach(from, turns), LastMarks(marks, turns), r);
    assert r in ShownBy(turns) <==> r in ToSet(ShownBy(turns));
  }

  /** The record lies in a tracked partition's log, from its low watermark to its latest high one. */
  predicate Tracked(from: seq<Position>, marks: seq<Mark>, r: Row) {
    exists i | 0 <= i < |from| :: InLog(from[i], marks, r)
  }

  predicate InLog(pos: Position, marks: seq<Mark>, r: Row) {
    var m := Find(marks, pos.partition);
    r.partition == pos.partition && m.Some? && m.value.lo <= r.offset < m.value.hi
  }

  lemma OwedSplits(pos: Position, marks: seq<Mark>, back: seq<Mark>, forth: seq<Mark>, r: Row)
    requires InRange(pos, marks) && Grew(marks, back) && Grew(marks, forth)
    ensures InLog(pos, forth, r) <==> Owed(Back, pos, back, r) || Owed(Forward, pos, forth, r)
    ensures !(Owed(Back, pos, back, r) && Owed(Forward, pos, forth, r))
  {
    assert GrewAt(MarkAt(marks, pos.partition), MarkAt(back, pos.partition));
    assert GrewAt(MarkAt(marks, pos.partition), MarkAt(forth, pos.partition));
  }

  /** Going back and going forward from the same positions, both to exhaustion, split the
      whole log between them: every matching record is shown by exactly one of the two. */
  lemma BackAndForwardSplit(log: set<Row>, keep: Row -> bool, marks: seq<Mark>, from: seq<Position>, back: seq<Turn>,
                            forth: seq<Turn>, r: Row)
    requires AllInRange(from, marks) && Distinct(from)
    requires Chain(log, keep, Back, marks, from, back) && Exhausted(back)
    requires Chain(log, keep, Forward, marks, from, forth) && Exhausted(forth)
    ensures r in ShownBy(back) || r in ShownBy(forth) <==>
      r in log && keep(r) && Tracked(from, LastMarks(marks, forth), r)
    ensures !(r in ShownBy(back) && r in ShownBy(forth))
  {
    ChainFinds(log, keep, Back, marks, from, back);
    ChainFinds(log, keep, Forward, marks, from, forth);
    ExhaustionIsComplete(log, keep, Back, marks, from, back, r);
    ExhaustionIsComplete(log, keep, Forward, marks, from, forth, r);
    OwedSplit(marks, from, LastMarks(marks, back), LastMarks(marks, forth), r);
  }

  lemma OwedSplit(marks: seq<Mark>, from: seq<Position>, back: seq<Mark>, forth: seq<Mark>, r: Row)
    requires AllInRange(from, marks) && Distinct(from) && Grew(marks, back) && Grew(marks, forth)
    ensures Tracked(from, forth, r) <==> OwedBySome(Back, from, back, r) || OwedBySome(Forward, from, forth, r)
    ensures !(OwedBySome(Back, from, back, r) && OwedBySome(Forward, from, forth, r))
  {
    forall i | 0 <= i < |from|
      ensures InLog(from[i], forth, r) <==> Owed(Back, from[i], back, r) || Owed(Forward, from[i], forth, r)
      ensures !(Owed(Back, from[i], back, r) && Owed(Forward, from[i], forth, r))
    {
      assert InRange(from[i], marks);
      OwedSplits(from[i], marks, back, forth, r);
    }
    forall i, j | 0 <= i < |from| && 0 <= j < |from| &&
      i != j ensures !(Owed(Back, from[i], back, r) && Owed(Forward, from[j], forth, r)) {}
  }
}
