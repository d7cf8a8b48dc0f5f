/**
 * The sliding window store: the object the page drives, with its caches and
 * in-place trims. Each method takes the window from one value to the next
 * exactly as `WindowState` states it.
 */
module TimelineStore {
  import opened Rows
  import opened MergeOrder
  import opened WindowState
  import opened StoreSteps

  datatype InsertOutcome = InsertOutcome(trimmedTop: nat, trimmedBottom: nat, attached: bool, rejectedStale: bool)

  class SlidingWindowStore {
    const cap: nat
    var partitions: Streams
    var seen: set<(int, int)>
    var bottomMap: Edges
    var topMap: Edges
    var attached: bool
    var topCompletenessMatters: bool
    var cachedRows: Option<seq<Row>>

    ghost predicate Valid()
      reads this
    {
      && WellFormed(partitions) && SeenIs(seen, partitions)
      && (cachedRows.Some? ==> cachedRows.value == Display(partitions))
    }

    /** The store as a window value. */
    ghost function View(): Window
      reads this
    {
      Window(partitions, bottomMap, topMap, attached, topCompletenessMatters)
    }

    constructor (cap: nat := 2000)
      ensures Valid() && View() == EMPTY && this.cap == cap
    {
      this.cap := cap;
      partitions, seen := map[], {};
      bottomMap, topMap := map[], map[];
      attached, topCompletenessMatters := false, false;
      cachedRows := None;
    }

    method Clear()
      modifies this
      ensures Valid() && View() == EMPTY
    {
      partitions, seen := map[], {};
      bottomMap, topMap := map[], map[];
      attached, topCompletenessMatters := false, false;
      cachedRows := None;
    }

    method IsAttached() returns (r: bool)
      ensures r == attached
    {
      r := attached;
    }

    method RemoveMessage(msg: Row)
      requires WellFormed(partitions) && SeenIs(seen, partitions)
      modifies `partitions, `seen
      ensures WellFormed(partitions) && SeenIs(seen, partitions)
      ensures partitions == Without(old(partitions), msg)
    {
      WithoutWellFormed(partitions, msg);
      SeenWithout(seen, partitions, msg);
      partitions := TakenOut(partitions, msg);
      seen := seen - {(msg.partition, msg.offset)};
    }

    /** One row, unless its offset is held already. */
    method InsertRow(msg: Row) returns (isNew: bool)
      requires WellFormed(partitions) && SeenIs(seen, partitions)
      modifies `partitions, `seen
      ensures WellFormed(partitions) && SeenIs(seen, partitions)
      ensures partitions == InsertOne(old(partitions), msg) && isNew == !Holds(old(partitions), msg)
    {
      InsertOneWellFormed(partitions, msg);
      assert LaneOk(partitions, msg.partition);
      isNew := (msg.partition, msg.offset) !in seen;
      if isNew {
        SeenInserted(seen, partitions, msg);
        seen := seen + {(msg.partition, msg.offset)};
        var arr := if msg.partition in partitions then partitions[msg.partition] else [];
        arr := InsertByOffsetAscending(arr, msg);
        partitions := partitions[msg.partition := arr];
      }
    }

    /** One row of a batch, with the lowest and highest offsets newly held so far. */
    method InsertNext(ghost before: Streams, rows: seq<Row>, i: nat, insertedMin: Edges, insertedMax: Edges)
      returns (isNew: bool, insertedMin': Edges, insertedMax': Edges)
      requires WellFormed(partitions) && SeenIs(seen, partitions) && i < |rows|
      requires Inserted(before, rows[..i], partitions, insertedMin, insertedMax)
      modifies `partitions, `seen
      ensures WellFormed(partitions) && SeenIs(seen, partitions)
      ensures Inserted(before, rows[..i + 1], partitions, insertedMin', insertedMax')
      ensures !isNew ==> partitions == old(partitions)
    {
      insertedMin', insertedMax' := insertedMin, insertedMax;
      ghost var held, done := partitions, rows[..i];
      var msg := rows[i];
      assert rows[..i + 1] == done + [msg];
      isNew := InsertRow(msg);
      if isNew {
        InsertedNew(before, done, msg, held, insertedMin, insertedMax);
        insertedMin' := Lowered(insertedMin, msg.partition, msg.offset);
        insertedMax' := Raised(insertedMax, msg.partition, msg.offset);
      } else {
        InsertedAgain(before, done, msg, held, insertedMin, insertedMax);
      }
    }

    method InsertRows(rows: seq<Row>) returns (insertedMin: Edges, insertedMax: Edges)
      requires Valid()
      modifies `partitions, `seen, `cachedRows
      ensures Valid()
      ensures Inserted(old(partitions), rows, partitions, insertedMin, insertedMax)
    {
      ghost var before := partitions;
      insertedMin, insertedMax := map[], map[];
      var changed := false;
      var i := 0;
      while i < |rows|
        invariant 0 <= i <= |rows|
        invariant WellFormed(partitions) && SeenIs(seen, partitions)
        invariant Inserted(before, rows[..i], partitions, insertedMin, insertedMax)
        invariant !changed ==> partitions == before
        invariant cachedRows == old(cachedRows)
      {
        var isNew;
        isNew, insertedMin, insertedMax := InsertNext(before, rows, i, insertedMin, insertedMax);
        changed := changed || isNew;
        i := i + 1;
      }
      assert rows[..i] == rows;
      if changed { cachedRows := None; }
    }

    method TotalCount() returns (n: nat)
      requires Valid()
      ensures n == |Display(partitions)|
    {
      n := 0;
      ghost var rest := Newest(partitions);
      var todo := partitions.Keys;
      while exists p :: p in todo
        invariant todo <= partitions.Keys
        invariant rest == Newest(partitions) - (partitions.Keys - todo)
        invariant n + Size(rest) == Size(Newest(partitions))
        decreases todo
      {
        var p :| p in todo;
        SizeSplit(rest, p);
        assert |rest[p]| == |partitions[p]|;
        n := n + |partitions[p]|;
        todo := todo - {p};
        rest := rest - {p};
      }
      DrainedSize(rest);
      NewestIsLabelled(partitions);
      MergeLength(NEWEST_FIRST, Newest(partitions));
    }

    /** Removes one row of the merged timeline from the top, noting its offset. */
    method DropNewest(merged: seq<Row>, i: nat, trimmed: Trimmed, ghost held: Streams) returns (trimmed': Trimmed)
      requires WellFormed(partitions) && SeenIs(seen, partitions) && WellFormed(held)
      requires i < |merged| && PeelsAt(held, merged, i) && TopTrimmed(held, merged, i, partitions, trimmed)
      modifies `partitions, `seen
      ensures WellFormed(partitions) && SeenIs(seen, partitions)
      ensures TopTrimmed(held, merged, i + 1, partitions, trimmed')
    {
      TopTrimmedStep(held, merged, i, partitions, trimmed);
      trimmed' := Note(trimmed, merged[i]);
      RemoveMessage(merged[i]);
    }

    /** Removes the first `excess` rows of the merged timeline, noting their offsets. */
    method TrimNewest(merged: seq<Row>, excess: nat) returns (trimmed: Trimmed)
      requires WellFormed(partitions) && SeenIs(seen, partitions)
      requires Peels(partitions, merged) && excess <= |merged|
      modifies `partitions, `seen
      ensures WellFormed(partitions) && SeenIs(seen, partitions)
      ensures TopTrimmed(old(partitions), merged, excess, partitions, trimmed)
    {
      ghost var held := partitions;
      TopTrimmedStart(held, merged);
      trimmed := map[];
      var i := 0;
      while i < excess
        invariant 0 <= i <= excess && WellFormed(partitions) && SeenIs(seen, partitions)
        invariant TopTrimmed(held, merged, i, partitions, trimmed)
      {
        PeelsHere(held, merged, i);
        trimmed := DropNewest(merged, i, trimmed, held);
        i := i + 1;
      }
    }

    /** Removes the rows of the merged timeline from the last down to the first `kept`,
        noting their offsets. */
    method TrimOldest(merged: seq<Row>, kept: nat) returns (trimmed: Trimmed)
      requires WellFormed(partitions) && SeenIs(seen, partitions)
      requires Peels(partitions, merged) && kept <= |merged|
      modifies `partitions, `seen
      ensures WellFormed(partitions) && SeenIs(seen, partitions)
      ensures BottomTrimmed(old(partitions), merged, kept, partitions, trimmed)
    {
      DroppedIsTrimmed(partitions, merged, kept);
      trimmed := DropOldest(merged, kept);
    }

    method DropOldest(merged: seq<Row>, kept: nat) returns (trimmed: Trimmed)
      requires WellFormed(partitions) && SeenIs(seen, partitions) && kept <= |merged|
      modifies `partitions, `seen
      ensures WellFormed(partitions) && SeenIs(seen, partitions)
      ensures partitions == Dropped(old(partitions), merged, kept) && trimmed == Noted(merged, kept)
    {
      trimmed := map[];
      var k := |merged|;
      while kept < k
        invariant kept <= k <= |merged| && WellFormed(partitions) && SeenIs(seen, partitions)
        invariant partitions == Dropped(old(partitions), merged, k) && trimmed == Noted(merged, k)
      {
        k := k - 1;
        trimmed := Note(trimmed, merged[k]);
        RemoveMessage(merged[k]);
      }
    }

    /** Plants the top edge of every trimmed partition. */
    method PlantTops(trimmed: Trimmed, ghost held: Streams, ghost cuts: map<int, nat>)
      requires TopRecord(held, cuts, trimmed)
      modifies `topMap
      ensures topMap == PlantTop(old(topMap), held, cuts, trimmed.Keys)
    {
      ghost var before, ps := topMap, {};
      assert topMap == PlantTop(before, held, cuts, ps);
      var todo := trimmed.Keys;
      while exists p :: p in todo
        invariant todo <= trimmed.Keys && ps == trimmed.Keys - todo
        invariant topMap == PlantTop(before, held, cuts, ps)
        decreases todo
      {
        var p :| p in todo;
        assert TopRecordAt(held, cuts, trimmed, p);
        var m := MinOf(trimmed[p]);
        PlantTopStep(before, held, cuts, ps, p);
        topMap := topMap[p := m];
        todo := todo - {p};
        ps := ps + {p};
      }
      assert ps == trimmed.Keys;
    }

    /** Plants the top edge of every partition still holding rows that was not trimmed. */
    method BackfillTops(trimmed: Trimmed, ghost before: Edges, ghost held: Streams, ghost cuts: map<int, nat>)
      requires TopRecord(held, cuts, trimmed)
      requires topMap == PlantTop(before, held, cuts, trimmed.Keys)
      requires partitions == LanesBelow(held, cuts)
      modifies `topMap
      ensures topMap == PlantTop(before, held, cuts, held.Keys)
    {
      topMap := BackfilledTops(partitions, trimmed, topMap, before, held, cuts);
    }

    /** Plants the bottom edge of every trimmed partition. */
    method PlantBottoms(trimmed: Trimmed, ghost held: Streams, ghost cuts: map<int, nat>)
      requires BottomRecord(held, cuts, trimmed)
      modifies `bottomMap
      ensures bottomMap == PlantBottom(old(bottomMap), held, cuts, held.Keys)
    {
      ghost var before, ps := bottomMap, {};
      assert bottomMap == PlantBottom(before, held, cuts, ps);
      var todo := trimmed.Keys;
      while exists p :: p in todo
        invariant todo <= trimmed.Keys && ps == trimmed.Keys - todo
        invariant bottomMap == PlantBottom(before, held, cuts, ps)
        decreases todo
      {
        var p :| p in todo;
        assert BottomRecordAt(held, cuts, trimmed, p);
        var m := MaxOf(trimmed[p]);
        PlantBottomStep(before, held, cuts, ps, p);
        bottomMap := bottomMap[p := m + 1];
        todo := todo - {p};
        ps := ps + {p};
      }
      forall p | p in held && 0 < CutAt(cuts, p) ensures p in ps { assert BottomRecordAt(held, cuts, trimmed, p); }
      PlantBottomAll(before, held, cuts, ps);
    }

    method TrimTopRows(merged: seq<Row>, excess: nat)
      requires WellFormed(partitions) && SeenIs(seen, partitions)
      requires Peels(partitions, merged) && excess <= |merged|
      modifies this
      ensures Valid() && Holding(old(partitions), merged[..excess])
      ensures View() == TrimTop(old(View()), merged, excess)
    {
      ghost var held, top := partitions, topMap;
      var trimmed := TrimNewest(merged, excess);
      ghost var cuts := Cuts(held, merged[..excess]);
      PlantTops(trimmed, held, cuts);
      BackfillTops(trimmed, top, held, cuts);
      attached := false;
      cachedRows := None;
    }

    method TrimBottomRows(merged: seq<Row>, kept: nat)
      requires WellFormed(partitions) && SeenIs(seen, partitions)
      requires Peels(partitions, merged) && kept <= |merged|
      modifies this
      ensures Valid() && Holding(old(partitions), merged[..kept])
      ensures View() == TrimBottom(old(View()), merged, kept)
    {
      ghost var held := partitions;
      var trimmed := TrimOldest(merged, kept);
      PlantBottoms(trimmed, held, Cuts(held, merged[..kept]));
      cachedRows := None;
    }

    /** Trims from the end opposite to the one that grew, exactly down to `cap` rows. */
    method EnforceCap(grew: Direction) returns (out: InsertOutcome)
      requires Valid()
      modifies this
      ensures Valid() && View() == Capped(old(View()), cap, grew)
      ensures out == Outcome(old(View()), cap, grew)
    {
      var total := TotalCount();
      if total <= cap {
        return InsertOutcome(0, 0, attached, false);
      }
      var merged := MergeRowsFrom(partitions);
      DisplayPeels(partitions);
      DisplayFits(partitions);
      out := TrimTo(merged, total - cap, grew);
    }

    method TrimTo(merged: seq<Row>, excess: nat, grew: Direction) returns (out: InsertOutcome)
      requires Valid() && Peels(partitions, merged) && AllFit(partitions, merged) && 0 < excess
      requires |merged| == cap + excess
      modifies this
      ensures Valid() && View() == CappedBy(old(View()), merged, cap, grew)
      ensures out == if grew.Back? then InsertOutcome(excess, 0, false, false)
        else InsertOutcome(0, excess, old(attached), false)
    {
      ghost var w := View();
      assert CappedBy(w, merged, cap, grew) ==
        if grew.Back? then TrimTop(w, merged, excess) else TrimBottom(w, merged, cap);
      if grew.Back? {
        TrimTopRows(merged, excess);
        out := InsertOutcome(excess, 0, attached, false);
      } else {
        TrimBottomRows(merged, cap);
        out := InsertOutcome(0, excess, attached, false);
      }
    }

    /** Has the same-side map already moved past where this page started from? */
    method CheckStale(direction: Direction, start: Option<Edges>) returns (stale: bool)
      ensures stale == IsStale(View(), direction, start)
    {
      if start.None? { return false; }
      var current := if direction.Back? then bottomMap else topMap;
      var todo := start.value.Keys;
      while exists p :: p in todo
        invariant todo <= start.value.Keys
        invariant forall p | p in start.value && p in current && p !in todo ::
          if direction.Back? then current[p] <= start.value[p] else start.value[p] <= current[p]
        decreases todo
      {
        var p :| p in todo;
        todo := todo - {p};
        if p in current {
          if (if direction.Back? then current[p] > start.value[p] else current[p] < start.value[p]) {
            return true;
          }
        }
      }
      stale := false;
    }

    /** One page of rows: rejected whole when stale, otherwise merged in and capped. */
    method InsertPage(rows: seq<Row>, direction: Direction, start: Option<Edges>, cursor: Option<Edges>,
                      attach: bool := true) returns (out: InsertOutcome)
      requires Valid()
      modifies this
      ensures Valid()
      ensures View() == AfterPage(old(View()), cap, rows, direction, start, cursor, attach)
      ensures IsStale(old(View()), direction, start) ==> out == InsertOutcome(0, 0, old(attached), true)
      ensures WellFormed(InsertAll(old(partitions), rows))
      ensures !IsStale(old(View()), direction, start) ==>
                out == Outcome(WithPage(old(View()), rows, direction, start, cursor, attach), cap, direction)
    {
      InsertAllWellFormed(partitions, rows);
      var stale := CheckStale(direction, start);
      if stale {
        return InsertOutcome(0, 0, attached, true);
      }
      ghost var w := View();
      var insertedMin, insertedMax := InsertRows(rows);
      MoveEdges(insertedMin, PastEach(insertedMax), direction, start.None?, cursor, attach);
      assert View() == WithPage(w, rows, direction, start, cursor, attach);
      out := EnforceCap(direction);
    }

    /** The edge and attachment updates of one accepted page. */
    method MoveEdges(lo: Edges, hi: Edges, direction: Direction, anchored: bool, cursor: Option<Edges>, attach: bool)
      modifies `bottomMap, `topMap, `attached, `topCompletenessMatters
      ensures View() == Moved(old(View()), lo, hi, direction, anchored, cursor, attach)
    {
      if anchored {
        if direction.Back? {
          topCompletenessMatters := topCompletenessMatters || !attach;
          topMap := Fill(topMap, hi);
        } else {
          bottomMap := Fill(bottomMap, lo);
        }
      }
      if direction.Back? {
        bottomMap := Lower(bottomMap, lo);
      } else {
        topMap := Raise(topMap, hi);
      }
      if cursor.Some? {
        if direction.Back? {
          bottomMap := bottomMap + cursor.value;
        } else {
          topMap := topMap + cursor.value;
        }
      }
      if direction.Back? && anchored && attach { attached := true; }
      if direction.Forward? && cursor.None? { attached := true; }
    }

    /** Live rows: refused while detached, otherwise merged in above and capped below. */
    method InsertLive(rows: seq<Row>) returns (out: Option<InsertOutcome>)
      requires Valid()
      modifies this
      ensures Valid() && View() == AfterLive(old(View()), cap, rows)
      ensures out.Some? <==> old(attached)
      ensures WellFormed(WithLive(old(View()), rows).held)
      ensures out.Some? ==> out.value == Outcome(WithLive(old(View()), rows), cap, Forward)
    {
      InsertAllWellFormed(partitions, Safe(View(), rows));
      if !attached {
        return None;
      }
      MergeLive(rows);
      var o := EnforceCap(Forward);
      out := Some(o);
    }

    /** Live rows above the window's bottom, before the limit. */
    method MergeLive(rows: seq<Row>)
      requires Valid()
      modifies this
      ensures Valid() && View() == WithLive(old(View()), rows)
    {
      InsertAllWellFormed(partitions, Safe(View(), rows));
      var safeRows := DropCovered(rows);
      var _, insertedMax := InsertRows(safeRows);
      topMap := Raise(topMap, PastEach(insertedMax));
    }

    /** Drops the rows the window has already read past at its bottom. */
    method DropCovered(rows: seq<Row>) returns (safe: seq<Row>)
      ensures safe == Safe(View(), rows)
    {
      safe := [];
      for i := 0 to |rows|
        invariant safe == Safe(View(), rows[..i])
      {
        var r := rows[i];
        assert rows[..i + 1][..i] == rows[..i];
        if r.partition !in bottomMap || r.offset >= bottomMap[r.partition] {
          safe := safe + [r];
        }
      }
      assert rows[..|rows|] == rows;
    }

    /** The merged timeline, newest first, computed once per change. */
    method GetRows() returns (r: seq<Row>)
      requires Valid()
      modifies `cachedRows
      ensures Valid() && r == Display(partitions)
    {
      if cachedRows.None? {
        var merged := MergeRowsFrom(partitions);
        cachedRows := Some(merged);
      }
      r := cachedRows.value;
    }

    /** What the timeline would show with `extra` merged in; nothing is committed. */
    method PreviewWithOverlay(extra: seq<Row>) returns (r: seq<Row>)
      requires Valid()
      modifies `cachedRows
      ensures Valid()
      ensures WellFormed(InsertAll(partitions, extra)) && r == Display(InsertAll(partitions, extra))
    {
      InsertAllWellFormed(partitions, extra);
      if extra == [] {
        r := GetRows();
        return;
      }
      var temp := Overlay(extra);
      r := MergeRowsFrom(temp);
    }

    method Overlay(extra: seq<Row>) returns (temp: Streams)
      requires Valid()
      ensures temp == InsertAll(partitions, extra)
    {
      var tempSeen := {};
      temp := partitions;
      for i := 0 to |extra|
        invariant temp == InsertAll(partitions, extra[..i]) && WellFormed(temp)
        invariant SeenIs(seen + tempSeen, temp)
      {
        InsertAppend(partitions, extra[..i], extra[i]);
        assert extra[..i + 1] == extra[..i] + [extra[i]];
        temp, tempSeen := OverlayRow(extra[i], temp, tempSeen);
      }
      assert extra[..|extra|] == extra;
    }

    method OverlayRow(msg: Row, temp: Streams, tempSeen: set<(int, int)>)
      returns (temp': Streams, tempSeen': set<(int, int)>)
      requires WellFormed(temp) && SeenIs(seen + tempSeen, temp)
      ensures temp' == InsertOne(temp, msg) && WellFormed(temp') && SeenIs(seen + tempSeen', temp')
    {
      var k := (msg.partition, msg.offset);
      InsertOneWellFormed(temp, msg);
      temp', tempSeen' := temp, tempSeen;
      if k !in seen && k !in tempSeen {
        assert LaneOk(temp, msg.partition);
        SeenInserted(seen + tempSeen, temp, msg);
        assert seen + (tempSeen + {k}) == seen + tempSeen + {k};
        tempSeen' := tempSeen + {k};
        var arr := InsertByOffsetAscending(if msg.partition in temp then temp[msg.partition] else [], msg);
        temp' := temp[msg.partition := arr];
      }
    }

    /** The positions each side can be continued from. */
    method GetEdges() returns (top: Option<Edges>, bottom: Option<Edges>)
      ensures top == TopCursor(View()) && bottom == BottomCursor(View())
    {
      bottom := if bottomMap == map[] then None else Some(bottomMap);
      var topComplete := !topCompletenessMatters || bottomMap.Keys <= topMap.Keys;
      top := if attached || topMap == map[] || !topComplete then None else Some(topMap);
    }
  }

  /** What enforcing the limit reports. */
  ghost function Outcome(w: Window, cap: nat, grew: Direction): InsertOutcome
    requires WellFormed(w.held)
  {
    var n := |Display(w.held)|;
    if n <= cap then InsertOutcome(0, 0, w.attached, false)
    else if grew.Back? then InsertOutcome(n - cap, 0, false, false)
    else InsertOutcome(0, n - cap, w.attached, false)
  }

  /** What a run of insertions has amounted to so far. */
  ghost predicate Inserted(before: Streams, rows: seq<Row>, held: Streams, mins: Edges, maxs: Edges) {
    && held == InsertAll(before, rows)
    && mins == Lowest(Fresh(before, rows))
    && maxs == Highest(Fresh(before, rows))
  }

  lemma InsertedAgain(before: Streams, rows: seq<Row>, r: Row, held: Streams, mins: Edges, maxs: Edges)
    requires Inserted(before, rows, held, mins, maxs) && Holds(held, r)
    ensures Inserted(before, rows + [r], held, mins, maxs)
  {
    InsertAppend(before, rows, r);
    assert Fresh(before, rows) + [] == Fresh(before, rows);
  }

  lemma InsertedNew(before: Streams, rows: seq<Row>, r: Row, held: Streams, mins: Edges, maxs: Edges)
    requires Inserted(before, rows, held, mins, maxs) && !Holds(held, r)
    ensures Inserted(before, rows + [r], InsertOne(held, r),
                     Lowered(mins, r.partition, r.offset), Raised(maxs, r.partition, r.offset))
  {
    InsertAppend(before, rows, r);
    EdgesAppend(Fresh(before, rows), r);
  }

  lemma SeenInserted(seen: set<(int, int)>, held: Streams, r: Row)
    requires WellFormed(held) && SeenIs(seen, held) && !Holds(held, r)
    ensures SeenIs(seen + {(r.partition, r.offset)}, InsertOne(held, r))
  {
    var arr := At(held, r.partition);
    var i := LowerBound(arr, r.offset);
    var arr' := arr[..i] + [r] + arr[i..];
    assert At(InsertOne(held, r), r.partition) == arr';
    forall o ensures HasOffset(arr', o) <==> HasOffset(arr, o) || o == r.offset {
      AddOne(arr, i, r, o);
    }
    forall p, o ensures (p, o) in seen + {(r.partition, r.offset)} <==> HoldsAt(InsertOne(held, r), p, o) {
      assert HoldsAt(held, p, o) == HasOffset(At(held, p), o);
      assert HoldsAt(InsertOne(held, r), p, o) == HasOffset(At(InsertOne(held, r), p), o);
      assert p != r.partition ==> At(InsertOne(held, r), p) == At(held, p);
    }
  }

  lemma AddOne(arr: seq<Row>, i: nat, r: Row, o: int)
    requires i <= |arr|
    ensures HasOffset(arr[..i] + [r] + arr[i..], o) <==> HasOffset(arr, o) || o == r.offset
  {
    var more := arr[..i] + [r] + arr[i..];
    forall j | 0 <= j < |more| ensures more[j] == if j < i then arr[j] else if j == i then r else arr[j - 1] {}
    if HasOffset(arr, o) {
      var j :| 0 <= j < |arr| && arr[j].offset == o;
      assert more[if j < i then j else j + 1].offset == o;
    }
    if o == r.offset { assert more[i].offset == o; }
  }
}
