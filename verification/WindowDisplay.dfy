/** What the reader sees: the merged rows before and after trims, commits and previews. */
module WindowDisplay {
  import opened Rows
  import opened MergeOrder
  import opened WindowState
  import opened WindowInvariant

  /** A displayed row at or after position `k` is in its lane's part below the cut. */
  lemma DisplayedSide(held: Streams, k: nat, r: Row)
    requires WellFormed(held) && k <= |Display(held)|
    ensures var p := r.partition; var c := Share(Display(held)[..k], p);
      && c <= |At(held, p)|
      && (r in Display(held)[..k] ==> r in At(held, p)[|At(held, p)| - c..])
      && (r in Display(held)[k..] ==> r in At(held, p)[..|At(held, p)| - c])
  {
    var d, p := Display(held), r.partition;
    var c := Share(d[..k], p);
    NewestIsLabelled(held);
    ShareBound(NEWEST_FIRST, Newest(held), k, p);
    LaneMembers(d[..k], p);
    LaneMembers(d[k..], p);
    var i := |At(held, p)| - c;
    ReverseFront(At(held, p), i);
    ReverseBack(At(held, p), i);
    ReverseMember(At(held, p)[i..], r);
    ReverseMember(At(held, p)[..i], r);
  }

  lemma SplitOffsets(arr: seq<Row>, i: nat)
    requires Ascending(arr) && i <= |arr|
    ensures i < |arr| ==> forall r | r in arr[i..] :: arr[i].offset <= r.offset
    ensures i < |arr| ==> forall r | r in arr[..i] :: r.offset < arr[i].offset
    ensures i > 0 ==> forall r | r in arr[..i] :: r.offset < arr[i - 1].offset + 1
    ensures i > 0 ==> forall r | r in arr[i..] :: arr[i - 1].offset + 1 <= r.offset
    ensures i == |arr| > 0 ==> forall r | r in arr :: r.offset < arr[|arr| - 1].offset + 1
  {}

  lemma CutTopSides(w: Window, cuts: map<int, nat>, r: Row, p: int)
    requires WellFormed(w.held) && CutsOf(w.held, cuts)
    ensures r in At(w.held, p)[CutAt(cuts, p)..] ==> p in CutTop(w, cuts).top && CutTop(w, cuts).top[p] <= r.offset
    ensures r in At(CutTop(w, cuts).held, p) ==> p in CutTop(w, cuts).top && r.offset < CutTop(w, cuts).top[p]
  {
    CutsAt(w, cuts, p);
    assert LaneOk(w.held, p);
    SplitOffsets(At(w.held, p), CutAt(cuts, p));
  }

  lemma CutBottomEdge(w: Window, cuts: map<int, nat>, p: int)
    requires CutsOf(w.held, cuts) && 0 < CutAt(cuts, p) <= |At(w.held, p)|
    ensures p in CutBottom(w, cuts).bottom
    ensures CutBottom(w, cuts).bottom[p] == At(w.held, p)[CutAt(cuts, p) - 1].offset + 1
  {}

  lemma CutBottomSides(w: Window, cuts: map<int, nat>, gone: Row, kept: Row, p: int)
    requires WellFormed(w.held) && CutsOf(w.held, cuts) && CutAt(cuts, p) <= |At(w.held, p)|
    requires gone in At(w.held, p)[..CutAt(cuts, p)]
    ensures p in CutBottom(w, cuts).bottom && gone.offset < CutBottom(w, cuts).bottom[p]
    ensures kept in At(CutBottom(w, cuts).held, p) ==> CutBottom(w, cuts).bottom[p] <= kept.offset
  {
    var arr, i := At(w.held, p), CutAt(cuts, p);
    CutsAt(w, cuts, p);
    CutBottomEdge(w, cuts, p);
    assert LaneOk(w.held, p);
    Parted(arr, i, gone, kept);
  }

  lemma Parted(arr: seq<Row>, i: nat, gone: Row, kept: Row)
    requires Ascending(arr) && 0 < i <= |arr| && gone in arr[..i]
    ensures gone.offset < arr[i - 1].offset + 1
    ensures kept in arr[i..] ==> arr[i - 1].offset + 1 <= kept.offset
  {}

  lemma CutIsShare(held: Streams, newest: seq<Row>, p: int)
    requires Holding(held, newest)
    ensures CutAt(Cuts(held, newest), p) == |At(held, p)| - Share(newest, p)
  {
    assert Share(newest, p) <= |At(held, p)|;
  }

  /** The planted top edge separates what a top trim took from what it left, however
      the timestamps interleave the partitions. */
  lemma TrimTopSeparates(w: Window, k: nat, gone: Row, kept: Row)
    requires WellFormed(w.held) && k <= |Display(w.held)|
    ensures Holding(w.held, Display(w.held)[..k])
    ensures var w' := TrimTop(w, Display(w.held), k);
      && (gone in Display(w.held)[..k] ==> gone.partition in w'.top && w'.top[gone.partition] <= gone.offset)
      && (kept in At(w'.held, kept.partition) ==> kept.partition in w'.top && kept.offset < w'.top[kept.partition])
  {
    DisplayFits(w.held);
    var newest := Display(w.held)[..k];
    DisplayedSide(w.held, k, gone);
    CutIsShare(w.held, newest, gone.partition);
    CutTopSides(w, Cuts(w.held, newest), gone, gone.partition);
    CutTopSides(w, Cuts(w.held, newest), kept, kept.partition);
  }

  /** The planted bottom edge separates what a bottom trim took from what it left. */
  lemma TrimBottomSeparates(w: Window, k: nat, gone: Row, kept: Row)
    requires WellFormed(w.held) && k <= |Display(w.held)| && gone.partition == kept.partition
    requires gone in Display(w.held)[k..]
    ensures Holding(w.held, Display(w.held)[..k])
    ensures var w' := TrimBottom(w, Display(w.held), k);
      && gone.partition in w'.bottom && gone.offset < w'.bottom[gone.partition]
      && (kept in At(w'.held, kept.partition) ==> w'.bottom[kept.partition] <= kept.offset)
  {
    DisplayFits(w.held);
    var newest := Display(w.held)[..k];
    DisplayedSide(w.held, k, gone);
    CutIsShare(w.held, newest, gone.partition);
    CutsAt(w, Cuts(w.held, newest), gone.partition);
    CutBottomSides(w, Cuts(w.held, newest), gone, kept, gone.partition);
  }

  /** The merged timeline depends on the set of rows held and on nothing else. */
  lemma DisplayOfSet(a: Streams, b: Streams)
    requires WellFormed(a) && WellFormed(b) && forall p :: ToSet(At(a, p)) == ToSet(At(b, p))
    ensures Display(a) == Display(b)
  {
    NewestIsLabelled(a);
    NewestIsLabelled(b);
    forall p ensures At(Newest(a), p) == At(Newest(b), p) {
      assert LaneOk(a, p) && LaneOk(b, p) && ToSet(At(a, p)) == ToSet(At(b, p));
      AscendingUnique(At(a, p), At(b, p));
    }
    MergeExtensional(NEWEST_FIRST, Newest(a), Newest(b));
  }

  /** The same rows delivered in any order, with any repetition, show the same timeline. */
  lemma DeliveryOrderIrrelevant(held: Streams, log: set<Row>, rows: seq<Row>, rows': seq<Row>)
    requires WellFormed(held) && Keyed(log) && Grounded(held, log)
    requires ToSet(rows) <= log && ToSet(rows) == ToSet(rows')
    ensures WellFormed(InsertAll(held, rows)) && WellFormed(InsertAll(held, rows'))
    ensures Display(InsertAll(held, rows)) == Display(InsertAll(held, rows'))
  {
    InsertAllWellFormed(held, rows);
    InsertAllWellFormed(held, rows');
    var a, b := InsertAll(held, rows), InsertAll(held, rows');
    forall p ensures ToSet(At(a, p)) == ToSet(At(b, p)) {
      FreshIsNew(held, rows, log, p);
      FreshIsNew(held, rows', log, p);
      LaneMembers(rows, p);
      LaneMembers(rows', p);
      forall r ensures r in ToSet(Lane(rows, p)) <==> r in ToSet(Lane(rows', p)) {
        assert r in ToSet(rows) <==> r in ToSet(rows');
      }
    }
    DisplayOfSet(a, b);
  }

  /** An accepted page shows what its preview showed, cut down to the limit. */
  lemma CommitShowsPreview(w: Window, cap: nat, rows: seq<Row>, direction: Direction,
                           start: Option<Edges>, cursor: Option<Edges>, attach: bool)
    requires WellFormed(w.held) && !IsStale(w, direction, start)
    ensures WellFormed(InsertAll(w.held, rows))
    ensures WellFormed(AfterPage(w, cap, rows, direction, start, cursor, attach).held)
    ensures Display(AfterPage(w, cap, rows, direction, start, cursor, attach).held) ==
            Kept(Display(InsertAll(w.held, rows)), cap, direction)
  {
    InsertAllWellFormed(w.held, rows);
    CappedDisplay(WithPage(w, rows, direction, start, cursor, attach), cap, direction);
  }
}
