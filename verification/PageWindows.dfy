/** Where a page may read next: clamped positions, one window per partition, and the budget's cap. */
module PageWindows {
  import opened Rows

  datatype Position = Position(partition: int, offset: int)

  datatype Mark = Mark(partition: int, lo: int, hi: int)

  datatype PartitionRange = PartitionRange(partition: int, start: int, end: int)

  /** The first watermark entry of a partition. */
  function Find(marks: seq<Mark>, p: int): (m: Option<Mark>)
    ensures m.Some? ==> m.value in marks && m.value.partition == p
  {
    if marks == [] then None
    else if marks[0].partition == p then Some(marks[0])
    else Find(marks[1..], p)
  }

  function ClampPositions(positions: seq<Position>, marks: seq<Mark>): seq<Position> {
    if positions == [] then [] else
    var m := Find(marks, positions[0].partition);
    (if m.Some? then [positions[0].(offset := Clamp(positions[0].offset, m.value.lo, m.value.hi))] else []) +
    ClampPositions(positions[1..], marks)
  }

  predicate AtEdge(offset: int, m: Mark, direction: Direction) {
    offset == if direction.Back? then m.lo else m.hi
  }

  /** A position off its edge has something left to read. */
  predicate Active(pos: Position, marks: seq<Mark>, direction: Direction) {
    var m := Find(marks, pos.partition);
    m.Some? && !AtEdge(pos.offset, m.value, direction)
  }

  predicate AllAtEdge(positions: seq<Position>, marks: seq<Mark>, direction: Direction) {
    forall i | 0 <= i < |positions| ::
      var m := Find(marks, positions[i].partition);
      m.Some? && AtEdge(positions[i].offset, m.value, direction)
  }

  function ActiveCount(positions: seq<Position>, marks: seq<Mark>, direction: Direction): nat {
    if positions == [] then 0 else
    (if Active(positions[0], marks, direction) then 1 else 0) + ActiveCount(positions[1..], marks, direction)
  }

  const CHUNK_SPAN := 5_000

  lemma ShareDivides(n: nat, d: nat)
    requires 1 <= d
    ensures n / d <= n && d * (n / d) <= n
  {
    assert n == d * (n / d) + n % d;
    LessEach(n / d, 1, d);
  }

  function ChunkSpan(filtered: bool, chunkIndex: nat, limit: nat, remaining: nat,
                     positions: seq<Position>, marks: seq<Mark>, direction: Direction): nat {
    var active := Max(ActiveCount(positions, marks, direction), 1);
    var share := Max(remaining / active, 1);
    var base := if !filtered && chunkIndex == 0 then limit else CHUNK_SPAN;
    Max(Min(base, share), 1)
  }

  /** A chunk asks for as many offsets per partition as what is left pays for, and at least
      one: up to what the page wants in an unfiltered page's first chunk, and up to a full
      span in any other. */
  lemma SpanFits(filtered: bool, chunkIndex: nat, limit: nat, remaining: nat,
                 positions: seq<Position>, marks: seq<Mark>, direction: Direction)
    requires 1 <= remaining
    ensures var span, active := ChunkSpan(filtered, chunkIndex, limit, remaining, positions, marks, direction),
                                ActiveCount(positions, marks, direction);
      var most := if filtered || 0 < chunkIndex then CHUNK_SPAN else Max(limit, 1);
      && 1 <= span <= remaining && span <= most
      && (1 < span ==> active * span <= remaining)
      && (span < most && 0 < active ==> remaining < active * (span + 1))
  {
    var active := Max(ActiveCount(positions, marks, direction), 1);
    ShareDivides(remaining, active);
    var span := ChunkSpan(filtered, chunkIndex, limit, remaining, positions, marks, direction);
    if 1 < span { LessEach(active, span, remaining / active); }
    ShareIsMost(remaining, active, span);
  }

  lemma ShareIsMost(n: nat, d: nat, k: nat)
    requires 1 <= d
    ensures n / d <= k ==> n < d * (k + 1)
  {
    assert n == d * (n / d) + n % d;
    if n / d <= k { LessEach(d, n / d + 1, k + 1); }
  }

  lemma LessEach(d: nat, a: nat, b: nat)
    requires a <= b
    ensures d * a <= d * b
  {
    assert d * (b - a) >= 0;
    assert d * b == d * a + d * (b - a);
  }

  /** The window next to one position, if it has any room. */
  function PageRange(pos: Position, marks: seq<Mark>, direction: Direction, span: nat): Option<PartitionRange> {
    var m := Find(marks, pos.partition);
    if m.None? then None else
    var at := Clamp(pos.offset, m.value.lo, m.value.hi);
    var start, end := if direction.Back? then Max(at - span, m.value.lo) else at,
                      if direction.Back? then at else Min(at + span, m.value.hi);
    if start < end then Some(PartitionRange(pos.partition, start, end)) else None
  }

  function PageRanges(positions: seq<Position>, marks: seq<Mark>, direction: Direction, span: nat): seq<PartitionRange>
  {
    if positions == [] then [] else
    var w := PageRange(positions[0], marks, direction, span);
    (if w.Some? then [w.value] else []) + PageRanges(positions[1..], marks, direction, span)
  }

  function Total(windows: seq<PartitionRange>): int {
    if windows == [] then 0 else windows[0].end - windows[0].start + Total(windows[1..])
  }

  /** Windows kept in order for as long as their spans fit in `cap`. */
  function Affordable(windows: seq<PartitionRange>, cap: int): (out: seq<PartitionRange>)
    ensures out <= windows
  {
    if windows == [] || cap < windows[0].end - windows[0].start then [] else
    [windows[0]] + Affordable(windows[1..], cap - (windows[0].end - windows[0].start))
  }

  lemma {:induction false} TotalAppend(a: seq<PartitionRange>, b: seq<PartitionRange>)
    ensures Total(a + b) == Total(a) + Total(b)
  {
    if a == [] {
      assert a + b == b;
    } else {
      assert (a + b)[1..] == a[1..] + b;
      TotalAppend(a[1..], b);
    }
  }

  /** The windows kept so far are the first `i`, worth `total`. */
  predicate CappedSo(windows: seq<PartitionRange>, cap: nat, i: nat, total: int) {
    i <= |windows| && total == Total(windows[..i]) <= cap &&
    Affordable(windows, cap) == windows[..i] + Affordable(windows[i..], cap - total)
  }

  lemma AffordableNext(windows: seq<PartitionRange>, i: nat, left: int)
    requires i < |windows|
    ensures var span := windows[i].end - windows[i].start;
      Affordable(windows[i..], left) ==
        if left < span then [] else [windows[i]] + Affordable(windows[i + 1..], left - span)
  {
    assert windows[i..][0] == windows[i] && windows[i..][1..] == windows[i + 1..];
  }

  lemma CappedStep(windows: seq<PartitionRange>, cap: nat, i: nat, total: int)
    requires CappedSo(windows, cap, i, total) && i < |windows|
    ensures var span := windows[i].end - windows[i].start;
      if cap < total + span then Affordable(windows, cap) == windows[..i]
        else CappedSo(windows, cap, i + 1, total + span)
  {
    TotalAppend(windows[..i], [windows[i]]);
    assert windows[..i + 1] == windows[..i] + [windows[i]];
    AffordableNext(windows, i, cap - total);
    var rest := Affordable(windows[i + 1..], cap - total - (windows[i].end - windows[i].start));
    assert (windows[..i] + [windows[i]]) + rest == windows[..i] + ([windows[i]] + rest);
  }

  method CapWindowsToBudget(windows: seq<PartitionRange>, cap: nat) returns (out: seq<PartitionRange>)
    requires forall i | 0 <= i < |windows| :: windows[i].start < windows[i].end
    ensures out == Affordable(windows, cap)
  {
    var total := 0;
    out := [];
    var i := 0;
    while i < |windows|
      invariant 0 <= i <= |windows| && out == windows[..i]
      invariant CappedSo(windows, cap, i, total)
    {
      var span := windows[i].end - windows[i].start;
      CappedStep(windows, cap, i, total);
      if total + span > cap {
        break;
      }
      total := total + span;
      out := out + [windows[i]];
      i := i + 1;
    }
  }

  // ---- what a plan is worth -------------------------------------------------------

  predicate Distinct(positions: seq<Position>) {
    forall i, j | 0 <= i < j < |positions| :: positions[i].partition != positions[j].partition
  }

  predicate Ordered(marks: seq<Mark>) {
    forall i | 0 <= i < |marks| :: marks[i].lo <= marks[i].hi
  }

  predicate InRange(pos: Position, marks: seq<Mark>) {
    var m := Find(marks, pos.partition);
    m.Some? && m.value.lo <= pos.offset <= m.value.hi
  }

  /** Every position is known and within its watermarks. */
  predicate AllInRange(positions: seq<Position>, marks: seq<Mark>) {
    forall i | 0 <= i < |positions| :: InRange(positions[i], marks)
  }

  /** `w` is a non-empty window next to `pos`, inside the partition's watermarks. */
  predicate NextTo(w: PartitionRange, pos: Position, marks: seq<Mark>, direction: Direction) {
    var m := Find(marks, pos.partition);
    m.Some? && w.partition == pos.partition && m.value.lo <= w.start < w.end <= m.value.hi &&
    pos.offset == if direction.Back? then w.end else w.start
  }

  lemma {:induction false} ClampedInRange(positions: seq<Position>, marks: seq<Mark>)
    requires Ordered(marks)
    ensures AllInRange(ClampPositions(positions, marks), marks)
    ensures forall pos | pos in ClampPositions(positions, marks) ::
      exists q :: q in positions && q.partition == pos.partition
    ensures Distinct(positions) ==> Distinct(ClampPositions(positions, marks))
  {
    if positions != [] {
      ClampedInRange(positions[1..], marks);
      var out, rest := ClampPositions(positions, marks), ClampPositions(positions[1..], marks);
      forall i | 0 <= i < |rest| && Distinct(positions) ensures rest[i].partition != positions[0].partition {
        assert rest[i] in rest;
        var q :| q in positions[1..] && q.partition == rest[i].partition;
      }
    }
  }

  /** Clamping positions already within their watermarks changes nothing. */
  lemma {:induction false} ClampIdle(positions: seq<Position>, marks: seq<Mark>)
    requires AllInRange(positions, marks)
    ensures ClampPositions(positions, marks) == positions
  {
    if positions != [] {
      assert InRange(positions[0], marks);
      forall i | 0 <= i < |positions[1..]| ensures InRange(positions[1..][i], marks) {
        assert InRange(positions[i + 1], marks);
      }
      ClampIdle(positions[1..], marks);
    }
  }

  /** A position is moved to the nearest offset its partition has, and a partition without
      watermarks is dropped. */
  predicate MovedInside(asked: Position, out: seq<Position>, marks: seq<Mark>) {
    var m := Find(marks, asked.partition);
    if m.None? then forall pos | pos in out :: pos.partition != asked.partition
    else exists pos | pos in out :: pos.partition == asked.partition && NearestInside(asked.offset, pos.offset, m.value)
  }

  predicate NearestInside(asked: int, offset: int, m: Mark) {
    m.lo <= offset <= m.hi && (asked < offset ==> offset == m.lo) && (offset < asked ==> offset == m.hi)
  }

  lemma {:induction false} ClampedToNearest(positions: seq<Position>, marks: seq<Mark>)
    requires Ordered(marks)
    ensures forall i | 0 <= i < |positions| :: MovedInside(positions[i], ClampPositions(positions, marks), marks)
    ensures forall pos | pos in ClampPositions(positions, marks) :: Find(marks, pos.partition).Some?
  {
    if positions != [] {
      ClampedToNearest(positions[1..], marks);
      var out, rest := ClampPositions(positions, marks), ClampPositions(positions[1..], marks);
      assert MovedInside(positions[0], out, marks) by {
        var m := Find(marks, positions[0].partition);
        if m.Some? { assert out[0] in out; }
      }
      forall i | 1 <= i < |positions| ensures MovedInside(positions[i], out, marks) {
        assert MovedInside(positions[1..][i - 1], rest, marks);
        assert forall pos | pos in rest :: pos in out;
      }
    }
  }

  lemma RangeNextTo(pos: Position, marks: seq<Mark>, direction: Direction, span: nat)
    requires InRange(pos, marks)
    ensures PageRange(pos, marks, direction, span).Some? <==> Active(pos, marks, direction) && 0 < span
    ensures PageRange(pos, marks, direction, span).Some? ==>
      NextTo(PageRange(pos, marks, direction, span).value, pos, marks, direction) &&
      PageRange(pos, marks, direction, span).value.end - PageRange(pos, marks, direction, span).value.start <= span
  {}

  /** The windows follow the positions' own order, one per active position. */
  lemma {:induction false} RangesNextTo(positions: seq<Position>, marks: seq<Mark>, direction: Direction, span: nat)
    requires AllInRange(positions, marks) && 0 < span
    ensures var ws := PageRanges(positions, marks, direction, span);
      && (forall w | w in ws :: w.end - w.start <= span)
      && (forall w | w in ws :: exists pos :: pos in positions && NextTo(w, pos, marks, direction))
      && (ws == [] <==> AllAtEdge(positions, marks, direction))
      && (Distinct(positions) ==> forall i, j | 0 <= i < j < |ws| :: ws[i].partition != ws[j].partition)
  {
    if positions != [] {
      var pos, rest := positions[0], positions[1..];
      assert InRange(pos, marks);
      forall i | 0 <= i < |rest| ensures InRange(rest[i], marks) { assert InRange(positions[i + 1], marks); }
      RangesNextTo(rest, marks, direction, span);
      RangeNextTo(pos, marks, direction, span);
      var w, ws := PageRange(pos, marks, direction, span), PageRanges(rest, marks, direction, span);
      assert AllAtEdge(positions, marks, direction) <==>
        !Active(pos, marks, direction) && AllAtEdge(rest, marks, direction) by {
        assert forall i | 0 <= i < |rest| :: rest[i] == positions[i + 1];
        assert forall i | 1 <= i < |positions| :: positions[i] == rest[i - 1];
      }
      forall i | 0 <= i < |ws| && Distinct(positions) ensures ws[i].partition != pos.partition {
        assert ws[i] in ws;
        var q :| q in rest && NextTo(ws[i], q, marks, direction);
      }
    }
  }

  /** The longest prefix that fits: it fits, and one window more would not. */
  lemma {:induction false} AffordableIsLongest(windows: seq<PartitionRange>, cap: nat)
    requires forall i | 0 <= i < |windows| :: windows[i].start < windows[i].end
    ensures 0 <= Total(Affordable(windows, cap)) <= cap
    ensures |Affordable(windows, cap)| < |windows| ==> Total(windows[..|Affordable(windows, cap)| + 1]) > cap
  {
    if windows != [] && windows[0].end - windows[0].start <= cap {
      var rest, c := windows[1..], cap - (windows[0].end - windows[0].start);
      AffordableIsLongest(rest, c);
      var out := Affordable(windows, cap);
      assert out[1..] == Affordable(rest, c);
      if |out| < |windows| {
        assert windows[..|out| + 1][1..] == rest[..|out|];
      }
    } else if windows != [] {
      assert windows[..1] == [windows[0]];
      assert Total([windows[0]]) == windows[0].end - windows[0].start;
    }
  }

  function PlanChunk(positions: seq<Position>, marks: seq<Mark>, direction: Direction, span: nat,
                     remaining: nat): seq<PartitionRange>
  {
    Affordable(PageRanges(positions, marks, direction, span), remaining)
  }

  /** What the engine relies on in a plan. */
  predicate PlanOk(ws: seq<PartitionRange>, positions: seq<Position>, marks: seq<Mark>, direction: Direction) {
    && (forall w | w in ws :: exists pos :: pos in positions && NextTo(w, pos, marks, direction))
    && forall i, j | 0 <= i < j < |ws| :: ws[i].partition != ws[j].partition
  }

  /** A plan never costs more than what is left, and is empty only when every
      position sits at its edge. */
  lemma PlanIsSound(positions: seq<Position>, marks: seq<Mark>, direction: Direction, span: nat, remaining: nat)
    requires AllInRange(positions, marks) && Distinct(positions) && 1 <= span <= remaining
    ensures PlanOk(PlanChunk(positions, marks, direction, span, remaining), positions, marks, direction)
    ensures 0 <= Total(PlanChunk(positions, marks, direction, span, remaining)) <= remaining
    ensures PlanChunk(positions, marks, direction, span, remaining) == [] <==> AllAtEdge(positions, marks, direction)
  {
    var ws := PageRanges(positions, marks, direction, span);
    RangesNextTo(positions, marks, direction, span);
    forall i | 0 <= i < |ws| ensures ws[i].start < ws[i].end { assert ws[i] in ws; }
    AffordableIsLongest(ws, remaining);
    var plan := Affordable(ws, remaining);
    assert forall w | w in plan :: w in ws;
    if ws != [] { assert ws[0] in ws; }
  }
}
