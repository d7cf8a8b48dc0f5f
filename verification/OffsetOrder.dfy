/**
 * A partition's records in offset order, and the same records walked outward from a
 * position. The sort is stable, and the paging engine's streams and the page emitter
 * both run it; records that already ascend come out as they went in, and sorting
 * never loses or adds one.
 */
module OffsetOrder {
  import opened Rows

  /** Puts `r` after every record of `s` that is not above it. */
  function Settle(s: seq<Row>, r: Row): seq<Row> {
    if s != [] && r.offset < s[|s| - 1].offset then Settle(s[..|s| - 1], r) + [s[|s| - 1]] else s + [r]
  }

  /** The stable sort by offset. */
  function SortByOffset(s: seq<Row>): seq<Row> {
    if s == [] then [] else Settle(SortByOffset(s[..|s| - 1]), s[|s| - 1])
  }

  /** Strictly away from the position: down going back, up going forward. */
  predicate Outward(direction: Direction, s: seq<Row>) {
    forall i, j | 0 <= i < j < |s| :: if direction.Back? then s[j].offset < s[i].offset else s[i].offset < s[j].offset
  }

  function Facing(direction: Direction, s: seq<Row>): seq<Row> {
    if direction.Back? then Reverse(s) else s
  }

  lemma {:induction false} SettleKeeps(s: seq<Row>, r: Row)
    ensures multiset(Settle(s, r)) == multiset(s) + multiset{r}
  {
    if s != [] && r.offset < s[|s| - 1].offset {
      SettleKeeps(s[..|s| - 1], r);
      assert s == s[..|s| - 1] + [s[|s| - 1]];
    }
  }

  lemma {:induction false} SortKeeps(s: seq<Row>)
    ensures multiset(SortByOffset(s)) == multiset(s)
  {
    if s != [] {
      SortKeeps(s[..|s| - 1]);
      SettleKeeps(SortByOffset(s[..|s| - 1]), s[|s| - 1]);
      assert s == s[..|s| - 1] + [s[|s| - 1]];
    }
  }

  predicate Sorted(s: seq<Row>) {
    forall i, j | 0 <= i < j < |s| :: s[i].offset <= s[j].offset
  }

  lemma {:induction false} SettleSorts(s: seq<Row>, r: Row)
    requires Sorted(s)
    ensures Sorted(Settle(s, r))
    ensures forall i | 0 <= i < |Settle(s, r)| ::
      Settle(s, r)[i].offset <= Max(r.offset, if s == [] then r.offset else s[|s| - 1].offset)
  {
    if s != [] && r.offset < s[|s| - 1].offset {
      SettleSorts(s[..|s| - 1], r);
    }
  }

  lemma {:induction false} SortSorts(s: seq<Row>)
    ensures Sorted(SortByOffset(s))
  {
    if s != [] {
      SortSorts(s[..|s| - 1]);
      SettleSorts(SortByOffset(s[..|s| - 1]), s[|s| - 1]);
    }
  }

  lemma SettleLast(s: seq<Row>, r: Row)
    requires s != [] ==> s[|s| - 1].offset <= r.offset
    ensures Settle(s, r) == s + [r]
  {}

  /** Sorting what already ascends changes nothing. */
  lemma {:induction false} SortIdle(s: seq<Row>)
    requires Ascending(s)
    ensures SortByOffset(s) == s
  {
    if s != [] {
      var front := s[..|s| - 1];
      SortIdle(front);
      SettleLast(front, s[|s| - 1]);
      assert s == front + [s[|s| - 1]];
    }
  }

  lemma {:induction false} SettleFirst(s: seq<Row>, r: Row)
    requires forall i | 0 <= i < |s| :: r.offset < s[i].offset
    ensures Settle(s, r) == [r] + s
  {
    if s != [] {
      SettleFirst(s[..|s| - 1], r);
      assert s == s[..|s| - 1] + [s[|s| - 1]];
    }
  }

  /** Sorting what descends reverses it. */
  lemma {:induction false} SortReverses(s: seq<Row>)
    requires Outward(Back, s)
    ensures SortByOffset(s) == Reverse(s)
  {
    if s != [] {
      var front := s[..|s| - 1];
      SortReverses(front);
      SettleFirst(Reverse(front), s[|s| - 1]);
      assert Reverse(s) == [s[|s| - 1]] + Reverse(front);
    }
  }

  /** Records already walked outward come back unchanged from a sort and a turn. */
  lemma SortThenFace(direction: Direction, s: seq<Row>)
    requires Outward(direction, s)
    ensures Facing(direction, SortByOffset(s)) == s
  {
    if direction.Back? { SortReverses(s); } else { SortIdle(s); }
  }

  lemma ReverseTurns(s: seq<Row>)
    requires Ascending(s)
    ensures Outward(Back, Reverse(s))
  {}

  lemma FacingMembers(direction: Direction, s: seq<Row>)
    ensures |Facing(direction, s)| == |s|
    ensures ToSet(Facing(direction, s)) == ToSet(s)
    ensures Ascending(s) ==> Outward(direction, Facing(direction, s))
  {
    forall r ensures r in Facing(direction, s) <==> r in s {
      if direction.Back? { ReverseMember(s, r); }
    }
    if Ascending(s) && direction.Back? { ReverseTurns(s); }
  }
}
