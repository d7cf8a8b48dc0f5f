/** A whole page read back, as it was sent and as the window shows it. */
module PageDisplay {
  import opened Rows
  import opened Doubles
  import opened MergeOrder
  import opened PageWindows
  import opened OffsetOrder
  import opened ChunkMerge
  import opened DisplayOrder
  import opened PageGround
  import opened PageEngine
  import WindowState

  const NOTHING: Streams := map[]

  lemma NothingHeld()
    ensures WindowState.WellFormed(NOTHING) && forall p :: At(NOTHING, p) == []
  {
    forall p ensures WindowState.LaneOk(NOTHING, p) {}
  }

  lemma ReceivedLane(log: set<Row>, rows: seq<Row>, held: Streams, p: int)
    requires Rows.Keyed(log) && ToSet(rows) <= log && Outward(Back, Lane(rows, p))
    requires held == WindowState.InsertAll(NOTHING, rows) && WindowState.LaneOk(held, p)
    ensures At(held, p) == SortByOffset(Lane(rows, p))
  {
    NothingHeld();
    WindowState.FreshIsNew(NOTHING, rows, log, p);
    SortReverses(Lane(rows, p));
    SameTurned(At(held, p), Lane(rows, p));
  }

  /** Rows put into an empty window are held lane by lane in offset order. */
  lemma ReceivedIsHeld(log: set<Row>, rows: seq<Row>)
    requires Rows.Keyed(log) && ToSet(rows) <= log && LanesOutward(rows, Back)
    ensures HeldAs(WindowState.InsertAll(NOTHING, rows), rows)
  {
    NothingHeld();
    var held := WindowState.InsertAll(NOTHING, rows);
    WindowState.InsertAllWellFormed(NOTHING, rows);
    forall p ensures At(held, p) == SortByOffset(Lane(rows, p)) {
      assert Outward(Back, Lane(rows, p)) && WindowState.LaneOk(held, p);
      ReceivedLane(log, rows, held, p);
    }
  }

  lemma SameTurned(a: seq<Row>, s: seq<Row>)
    requires Ascending(a) && Outward(Back, s) && ToSet(a) == ToSet(s)
    ensures a == Reverse(s)
  {
    forall r ensures r in Reverse(s) <==> r in s { ReverseMember(s, r); }
    forall r ensures r in ToSet(Reverse(s)) <==> r in ToSet(a) {
      assert r in ToSet(s) <==> r in s;
    }
    AscendingUnique(a, Reverse(s));
  }

  /** A page read back that ended, once in the window, is shown as it was sent if and only
      if each row goes, as the browser reads timestamps, before the next one of every
      other partition. */
  lemma PageShowsAsSent(log: set<Row>, keep: Row -> bool, marks: seq<Mark>, start: seq<Position>, limit: nat,
                        budget: nat, page: Page, shown: seq<Row>, outcome: PageOutcome)
    requires Rows.Keyed(log) && PageDone(log, keep, marks, Back, start, limit, budget, page, shown, outcome)
    ensures WindowState.WellFormed(WindowState.InsertAll(NOTHING, shown))
    ensures WindowState.Display(WindowState.InsertAll(NOTHING, shown)) == shown <==> InTurn(Order(Client, Back), shown)
  {
    forall r | r in ToSet(shown) ensures r in log { assert r in Found(log, keep, Back, start, page.positions); }
    ReceivedIsHeld(log, shown);
    WindowShowsAsReceived(shown, WindowState.InsertAll(NOTHING, shown));
  }

  // ---- two chunks, ordinary timestamps ----------------------------------------------------

  const LATE := Row(0, 6_000, Some(6_000), 0)
  const SLOW := Row(1, 6_000, Some(60), 0)
  const NEXT := Row(0, 100, Some(100), 0)

  lemma LaneThree(a: Row, b: Row, c: Row, p: int)
    ensures Lane([a, b, c], p) ==
      (if p == a.partition then [a] else []) + (if p == b.partition then [b] else []) +
      (if p == c.partition then [c] else [])
  {
    LaneTwo(a, b, p);
    LaneLast([a, b], c, p);
    assert [a, b] + [c] == [a, b, c];
  }

  lemma AllThree(p: int)
    ensures Lane([LATE, SLOW, NEXT], p) == Lane([LATE, NEXT, SLOW], p)
    ensures Lane([LATE, NEXT, SLOW], p) == if p == 0 then [LATE, NEXT] else if p == 1 then [SLOW] else []
  {
    LaneThree(LATE, SLOW, NEXT, p);
    LaneThree(LATE, NEXT, SLOW, p);
  }

  lemma AllOutward(p: int)
    ensures Outward(Back, Lane([LATE, NEXT, SLOW], p))
  {
    AllThree(p);
    ShortOutward([LATE, NEXT]);
    ShortOutward([SLOW]);
    ShortOutward([]);
  }

  lemma StampsExact()
    ensures AsDouble(6_000) == 6_000 && AsDouble(60) == 60 && AsDouble(100) == 100
  {
    AsDoubleIsExact(6_000);
    AsDoubleIsExact(60);
    AsDoubleIsExact(100);
  }

  lemma LoneInTurn(o: Order, a: Row)
    ensures InTurn(o, [a]) && LanesOutward([a], o.direction)
  {
    forall q ensures FirstAhead(o, [a], q) && Outward(o.direction, Lane([a], q)) { LaneOne(a, q); }
    assert [a][1..] == [];
  }

  lemma PairInTurn(o: Order, a: Row, b: Row)
    requires a.partition != b.partition && Ahead(o, a, b)
    ensures InTurn(o, [a, b]) && LanesOutward([a, b], o.direction)
  {
    forall q ensures FirstAhead(o, [a, b], q) && Outward(o.direction, Lane([a, b], q)) { LaneTwo(a, b, q); }
    LoneInTurn(o, b);
    assert [a, b][1..] == [b];
  }

  lemma ChunksInTurn()
    ensures Displayed([LATE, SLOW], Back) == [LATE, SLOW] && Displayed([NEXT], Back) == [NEXT]
  {
    PairInTurn(Order(Server, Back), LATE, SLOW);
    LoneInTurn(Order(Server, Back), NEXT);
    ShownAsPopped([LATE, SLOW], Back);
    ShownAsPopped([NEXT], Back);
  }

  lemma ShownInTurn()
    ensures InTurn(Order(Client, Back), [LATE, NEXT, SLOW])
  {
    var o, all := Order(Client, Back), [LATE, NEXT, SLOW];
    StampsExact();
    PairInTurn(o, NEXT, SLOW);
    assert all[1..] == [NEXT, SLOW];
    forall q ensures FirstAhead(o, all, q) { AllThree(q); }
  }

  /** With ordinary timestamps each chunk is shown as the window shows it, but not the page
      of the two: the window puts the second chunk's row before the first chunk's last. */
  lemma TwoChunksDiffer(held: Streams)
    requires HeldAs(held, [LATE, SLOW, NEXT])
    ensures Usual(LATE) && Usual(SLOW) && Usual(NEXT)
    ensures Displayed([LATE, SLOW], Back) + Displayed([NEXT], Back) == [LATE, SLOW, NEXT]
    ensures WindowState.Display(held) == [LATE, NEXT, SLOW]
  {
    ChunksInTurn();
    assert [LATE, SLOW] + [NEXT] == [LATE, SLOW, NEXT];
    forall p
      ensures Lane([LATE, SLOW, NEXT], p) == Lane([LATE, NEXT, SLOW], p) && Outward(Back, Lane([LATE, NEXT, SLOW], p))
    {
      AllThree(p);
      AllOutward(p);
    }
    ShownInTurn();
    WindowShowsAsReceived([LATE, NEXT, SLOW], held);
  }
}
