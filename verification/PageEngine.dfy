/** The paging engine: a page is a loop of chunks, each planned, scanned, gated, merged and sent. */
module PageEngine {
  import opened Rows
  import opened PageWindows
  import opened PollScan
  import opened ChunkMerge
  import opened PageAdvance
  import opened DisplayOrder
  import opened PageGround
  import opened PageNearest
  import MergeOrder

  /** Scanning is an oracle bound only by `SoundScan`: what `PollScan` proves of it. */
  type Scan = (nat, seq<PartitionRange>) -> Option<FetchOutcome>

  /** Whatever a scan returns is sound for the windows it was asked for. */
  ghost predicate SoundScan(log: set<Row>, scan: Scan) {
    forall i, ws :: DistinctRanges(ws) && scan(i, ws).Some? ==> Scanned(log, ws, scan(i, ws).value)
  }

  type Filter = Option<Row -> bool>

  function KeepOf(filter: Filter): Row -> bool {
    if filter.Some? then filter.value else r => true
  }

  /** The page's running state. */
  datatype Page = Page(positions: seq<Position>, matches: nat, scanned: nat, chunks: nat, exhausted: bool)

  // ---- what the receiver sees -----------------------------------------------------

  /** The matches sent so far, in the order sent. */
  function Shown(events: seq<TimelineEvent>): seq<Row> {
    if events == [] then [] else
    Shown(events[..|events| - 1]) + if events[|events| - 1].Match? then [events[|events| - 1].row] else []
  }

  /** Progress never goes back and never passes `top`. */
  predicate Honest(events: seq<TimelineEvent>, top: nat) {
    && (forall i | 0 <= i < |events| :: events[i].Progress? ==> events[i].scanned <= top)
    && forall i, j | 0 <= i < j < |events| :: events[i].Progress? && events[j].Progress? ==>
         events[i].scanned <= events[j].scanned
  }

  predicate NoEnd(events: seq<TimelineEvent>) {
    forall i | 0 <= i < |events| :: !events[i].PageEnd?
  }

  predicate LastIs(events: seq<TimelineEvent>, e: TimelineEvent) {
    events != [] && events[|events| - 1] == e
  }

  /** The receiver was last told how far the page has got, if it was told anything. */
  predicate UpToDate(events: seq<TimelineEvent>, page: Page, budget: nat) {
    events == [] || LastIs(events, Progress(page.scanned, page.matches, budget))
  }

  /** A page still under way. */
  predicate UnderWay(events: seq<TimelineEvent>, top: nat) {
    Honest(events, top) && NoEnd(events)
  }

  lemma SendNext(events: seq<TimelineEvent>, top: nat, e: TimelineEvent, top': nat)
    requires Honest(events, top) && top <= top' && (e.Progress? ==> top <= e.scanned <= top')
    ensures Honest(events + [e], top')
    ensures NoEnd(events) && !e.PageEnd? ==> NoEnd(events + [e])
    ensures Shown(events + [e]) == Shown(events) + if e.Match? then [e.row] else []
  {
    assert (events + [e])[..|events|] == events;
  }

  /** `now` is `sent` with more progress behind it, up to `top`. */
  ghost predicate StillUnderWay(sent: seq<TimelineEvent>, now: seq<TimelineEvent>, top: nat) {
    UnderWay(now, top) && Shown(now) == Shown(sent)
  }

  lemma DueHonest(sent: seq<TimelineEvent>, before: seq<TimelineEvent>, scanned: Option<nat>, matches: nat, budget: nat,
                  top: nat, top': nat)
    requires StillUnderWay(sent, before, top) && top <= top' && (scanned.Some? ==> top <= scanned.value <= top')
    ensures StillUnderWay(sent, before + Due(scanned, matches, budget), top')
  {
    if scanned.Some? {
      SendNext(before, top, Progress(scanned.value, matches, budget), top');
    } else {
      assert before + [] == before;
    }
  }

  /** The progress sent while records are popped stays between the two charges. */
  lemma {:induction false} MidEventsHonest(keep: Row -> bool, popped: seq<Row>, totalScanned: nat, totalMatches: nat,
                                           budget: nat, sent: seq<TimelineEvent>)
    requires UnderWay(sent, totalScanned)
    ensures StillUnderWay(sent, sent + MidEvents(keep, popped, totalScanned, totalMatches, budget),
        totalScanned + |popped|)
  {
    if popped == [] {
      assert sent + [] == sent;
    } else {
      var front := popped[..|popped| - 1];
      var mid := MidEvents(keep, front, totalScanned, totalMatches, budget);
      MidEventsHonest(keep, front, totalScanned, totalMatches, budget, sent);
      var due, matches := MidChunkProgress(totalScanned, |popped|), totalMatches + |Matching(keep, popped)|;
      DueHonest(sent, sent + mid, due, matches, budget, totalScanned + |front|, totalScanned + |popped|);
      Joined(sent, mid, Due(due, matches, budget));
    }
  }

  lemma Joined(a: seq<TimelineEvent>, b: seq<TimelineEvent>, c: seq<TimelineEvent>)
    ensures a + (b + c) == (a + b) + c
  {}

  lemma ToldHonest(keep: Row -> bool, popped: seq<Row>, totalScanned: nat, totalMatches: nat, budget: nat,
                   sent: seq<TimelineEvent>, now: seq<TimelineEvent>)
    requires UnderWay(sent, totalScanned) && Told(keep, popped, totalScanned, totalMatches, budget, sent, now)
    ensures UnderWay(now, totalScanned + |popped|) && Shown(now) == Shown(sent)
  {
    MidEventsHonest(keep, popped, totalScanned, totalMatches, budget, sent);
  }

  lemma HonestRaise(events: seq<TimelineEvent>, top: nat, top': nat)
    requires UnderWay(events, top) && top <= top'
    ensures UnderWay(events, top')
  {}

  /** The first `i` of `out` have been sent as matches. */
  ghost predicate Sending(sent: seq<TimelineEvent>, out: seq<Row>, i: nat, now: seq<TimelineEvent>, top: nat) {
    i <= |out| && UnderWay(now, top) && Shown(now) == Shown(sent) + out[..i]
  }

  lemma SendMatch(sent: seq<TimelineEvent>, out: seq<Row>, i: nat, now: seq<TimelineEvent>, top: nat)
    requires Sending(sent, out, i, now, top) && i < |out|
    ensures Sending(sent, out, i + 1, now + [Match(out[i])], top)
  {
    SendNext(now, top, Match(out[i]), top);
    assert out[..i + 1] == out[..i] + [out[i]];
  }

  lemma SendProgress(sent: seq<TimelineEvent>, out: seq<Row>, now: seq<TimelineEvent>, top: nat, e: TimelineEvent)
    requires Sending(sent, out, |out|, now, top) && e.Progress? && top <= e.scanned
    ensures UnderWay(now + [e], e.scanned) && Shown(now + [e]) == Shown(sent) + out
  {
    SendNext(now, top, e, e.scanned);
    assert out[..|out|] == out;
  }

  method EmitAll(sent: seq<TimelineEvent>, room: nat, out: seq<Row>, progress: TimelineEvent, ghost top: nat)
    returns (sent': seq<TimelineEvent>, ok: bool)
    requires UnderWay(sent, top) && progress.Progress? && top <= progress.scanned
    ensures UnderWay(sent', progress.scanned)
    ensures if ok then Shown(sent') == Shown(sent) + out && LastIs(sent', progress) else room <= |sent'|
    ensures |sent| <= room ==> |sent'| <= room
  {
    sent', ok := sent, false;
    assert Shown(sent) + out[..0] == Shown(sent);
    var i := 0;
    while i < |out|
      invariant 0 <= i <= |out| && Sending(sent, out, i, sent', top)
      invariant |sent| <= room ==> |sent'| <= room
    {
      if |sent'| >= room {
        HonestRaise(sent', top, progress.scanned);
        return;
      }
      SendMatch(sent, out, i, sent', top);
      sent' := sent' + [Match(out[i])];
      i := i + 1;
    }
    if |sent'| >= room {
      HonestRaise(sent', top, progress.scanned);
      return;
    }
    SendProgress(sent, out, sent', top, progress);
    sent', ok := sent' + [progress], true;
  }

  /** Sends a chunk's matches in display order, then its progress. */
  method EmitChunk(sent: seq<TimelineEvent>, room: nat, matches: seq<Row>, direction: Direction,
                   scanned: nat, total: nat, budget: nat, ghost top: nat)
    returns (sent': seq<TimelineEvent>, ok: bool)
    requires UnderWay(sent, top) && top <= scanned
    ensures UnderWay(sent', scanned)
    ensures if ok then Shown(sent') == Shown(sent) + Displayed(matches, direction) &&
                       LastIs(sent', Progress(scanned, total, budget))
            else room <= |sent'|
    ensures |sent| <= room ==> |sent'| <= room
  {
    var out := ChunkDisplayOrder(matches, direction);
    sent', ok := EmitAll(sent, room, out, Progress(scanned, total, budget), top);
  }

  // ---- one chunk ------------------------------------------------------------------

  function PageMadeNoProgress(takenIsEmpty: bool, anyIncompleteWindow: bool, cancelled: bool): bool {
    takenIsEmpty && anyIncompleteWindow && !cancelled
  }

  /** The windows a page plans next. */
  function PlanOf(filtered: bool, limit: nat, budget: nat, page: Page, marks: seq<Mark>,
                  direction: Direction): seq<PartitionRange>
    requires page.scanned < budget
  {
    var remaining := budget - page.scanned;
    PlanChunk(page.positions, marks, direction,
              ChunkSpan(filtered, page.chunks, limit, remaining, page.positions, marks, direction), remaining)
  }

  /** A scan that left some window incomplete and gave nothing that can be trusted. */
  predicate Stalled(out: FetchOutcome, windows: seq<PartitionRange>, direction: Direction) {
    && (exists i | 0 <= i < |windows| :: windows[i].partition !in out.complete)
    && (forall i | 0 <= i < |windows| :: Select(out.records, windows[i], out.complete, direction) == [])
  }

  /** The two ways a chunk can fail. */
  predicate Fails(outcome: Option<FetchOutcome>, windows: seq<PartitionRange>, direction: Direction, cancelled: bool) {
    outcome.None? || (Stalled(outcome.value, windows, direction) && !cancelled)
  }

  /** What the page's next chunk shows when it is committed: the first matches of its
      windows' merge, as many as the page still wants. */
  ghost function NextRows(scan: Scan, filter: Filter, limit: nat, budget: nat, page: Page, marks: seq<Mark>,
                          direction: Direction): seq<Row>
    requires page.scanned < budget && page.matches < limit
  {
    var plan := PlanOf(filter.Some?, limit, budget, page, marks, direction);
    RowsOf(KeepOf(filter), Wanted(limit, page), scan(page.chunks, plan), plan, direction)
  }

  /** How many matches the page still wants. */
  function Wanted(limit: nat, page: Page): nat
    requires page.matches <= limit
  {
    limit - page.matches
  }

  ghost function RowsOf(keep: Row -> bool, want: nat, out: Option<FetchOutcome>, windows: seq<PartitionRange>,
                        direction: Direction): seq<Row>
  {
    if out.None? then [] else ChunkShows(keep, want, out.value, windows, direction)
  }

  lemma SelectedShows(keep: Row -> bool, want: nat, out: FetchOutcome, windows: seq<PartitionRange>,
                      direction: Direction, fetched: seq<seq<Row>>)
    requires |fetched| == |windows|
    requires forall i | 0 <= i < |windows| :: fetched[i] == Select(out.records, windows[i], out.complete, direction)
    ensures Parallel(windows, fetched)
    ensures RowsOf(keep, want, Some(out), windows, direction) ==
            ShownOf(keep, MergedRows(windows, fetched, direction), want, direction)
  {
    SelectedOwn(out, windows, direction);
    assert fetched == Selected(out, windows, direction);
  }

  datatype ChunkStep = AtEnd | Committed | Errored | ClientGone

  /** A committed chunk: it found exactly the matching records it went over, each once and
      each partition's farther and farther out, and charged exactly that ground. */
  ghost predicate Progressed(log: set<Row>, keep: Row -> bool, marks: seq<Mark>, direction: Direction, page: Page,
                             page': Page, found: seq<Row>)
  {
    && Steps(direction, page.positions, page'.positions) && AllInRange(page'.positions, marks)
    && Distinct(page'.positions)
    && Once(found) && LanesOutward(found, direction)
    && ToSet(found) == Found(log, keep, direction, page.positions, page'.positions)
    && page'.matches == page.matches + |found|
    && page'.scanned == page.scanned + ChargeBudget(page.positions, page'.positions)
    && page'.chunks == page.chunks + 1
    && (page'.exhausted <==> AllAtEdge(page'.positions, marks, direction))
  }

  /** A chunk committed and sent, within the page's limits; only a cancelled one may be free. */
  ghost predicate CommittedSo(log: set<Row>, keep: Row -> bool, marks: seq<Mark>, direction: Direction, limit: nat,
                              budget: nat, cancelled: bool, page: Page, page': Page, sent: seq<TimelineEvent>,
                              sent': seq<TimelineEvent>, found: seq<Row>)
  {
    && Progressed(log, keep, marks, direction, page, page', found)
    && Shown(sent') == Shown(sent) + found && UnderWay(sent', page'.scanned) && UpToDate(sent', page', budget)
    && page'.matches <= limit && page'.scanned <= budget
    && (cancelled || page.scanned < page'.scanned)
  }

  lemma StreamsSelected(log: set<Row>, windows: seq<PartitionRange>, cur: seq<Position>, marks: seq<Mark>,
                        direction: Direction, out: FetchOutcome, fetched: seq<seq<Row>>, isComplete: seq<bool>)
    requires PlanOk(windows, cur, marks, direction) && Scanned(log, windows, out)
    requires |fetched| == |windows| == |isComplete|
    requires forall i | 0 <= i < |windows| :: isComplete[i] == (windows[i].partition in out.complete)
    requires forall i | 0 <= i < |windows| :: fetched[i] == Select(out.records, windows[i], out.complete, direction)
    ensures StreamsOk(log, windows, direction, isComplete, fetched)
  {
    forall i | 0 <= i < |windows| ensures StreamOk(log, windows[i], direction, isComplete[i], fetched[i]) {
      assert windows[i] in windows;
      SelectTrusted(log, windows[i], out, direction);
    }
  }

  /** A plan the chunk can be run on: sound, affordable, and empty only at the edges. */
  ghost predicate Runnable(windows: seq<PartitionRange>, positions: seq<Position>, marks: seq<Mark>,
                           direction: Direction, remaining: nat)
  {
    && PlanOk(windows, positions, marks, direction) && DistinctRanges(windows)
    && 0 <= Total(windows) <= remaining
    && (windows == [] <==> AllAtEdge(positions, marks, direction))
  }

  /** The windows of the next chunk. */
  method PlanWindows(positions: seq<Position>, marks: seq<Mark>, direction: Direction, span: nat, remaining: nat)
    returns (windows: seq<PartitionRange>)
    requires AllInRange(positions, marks) && Distinct(positions) && 1 <= span <= remaining
    ensures windows == PlanChunk(positions, marks, direction, span, remaining)
    ensures Runnable(windows, positions, marks, direction, remaining)
  {
    PlanIsSound(positions, marks, direction, span, remaining);
    var ranges := PageRanges(positions, marks, direction, span);
    RangesNextTo(positions, marks, direction, span);
    forall i | 0 <= i < |ranges| ensures ranges[i].start < ranges[i].end { assert ranges[i] in ranges; }
    windows := CapWindowsToBudget(ranges, remaining);
  }

  method NextSpan(filtered: bool, chunkIndex: nat, limit: nat, remaining: nat, positions: seq<Position>,
                  marks: seq<Mark>, direction: Direction)
    returns (span: nat)
    requires 1 <= remaining
    ensures 1 <= span <= remaining
    ensures span == ChunkSpan(filtered, chunkIndex, limit, remaining, positions, marks, direction)
  {
    span := ChunkSpan(filtered, chunkIndex, limit, remaining, positions, marks, direction);
    SpanFits(filtered, chunkIndex, limit, remaining, positions, marks, direction);
  }

  method NextWindows(filtered: bool, limit: nat, budget: nat, page: Page, marks: seq<Mark>, direction: Direction)
    returns (windows: seq<PartitionRange>)
    requires AllInRange(page.positions, marks) && Distinct(page.positions) && page.scanned < budget
    ensures windows == PlanOf(filtered, limit, budget, page, marks, direction)
    ensures Runnable(windows, page.positions, marks, direction, budget - page.scanned)
  {
    var remaining := budget - page.scanned;
    var span := NextSpan(filtered, page.chunks, limit, remaining, page.positions, marks, direction);
    windows := PlanWindows(page.positions, marks, direction, span, remaining);
  }

  /** What a chunk leaves when it is committed. */
  ghost predicate Taken(log: set<Row>, marks: seq<Mark>, direction: Direction, keep: Row -> bool, cur: seq<Position>,
                        windows: seq<PartitionRange>, fetched: seq<seq<Row>>, end: ChunkEnd, popped: seq<Row>,
                        matches: seq<Row>)
  {
    && ChunkOk(log, windows, direction, fetched, popped, end) && matches == Matching(keep, popped)
    && PlanOk(windows, cur, marks, direction) && AllInRange(cur, marks) && Distinct(cur)
  }

  /** Commits a chunk to the page. */
  method Commit(ghost log: set<Row>, marks: seq<Mark>, direction: Direction, ghost keep: Row -> bool, page: Page,
                windows: seq<PartitionRange>, ghost fetched: seq<seq<Row>>, end: ChunkEnd, ghost popped: seq<Row>,
                matches: seq<Row>)
    returns (page': Page)
    requires Taken(log, marks, direction, keep, page.positions, windows, fetched, end, popped, matches)
    ensures Progressed(log, keep, marks, direction, page, page', Displayed(matches, direction))
    ensures page.scanned + |popped| <= page'.scanned <= page.scanned + Total(windows)
    ensures page'.positions == AdvancePositions(page.positions, windows, end, direction)
    ensures page'.matches == page.matches + |matches|
  {
    ChunkCovers(log, windows, marks, direction, fetched, popped, end, page.positions);
    var positions := AdvancePositions(page.positions, windows, end, direction);
    ShownIsFound(log, keep, direction, page.positions, positions, popped);
    page' := Page(positions, page.matches + |matches|, page.scanned + ChargeBudget(page.positions, positions),
        page.chunks + 1,
                  AllAtEdge(positions, marks, direction));
  }

  function EndOf(isComplete: seq<bool>, streams: seq<seq<Row>>, taken: ChunkTaken): ChunkEnd {
    ChunkEnd(isComplete, streams, taken.takenMin, taken.takenMax)
  }

  lemma MergedIsTaken(log: set<Row>, marks: seq<Mark>, direction: Direction, keep: Row -> bool, cur: seq<Position>,
                      windows: seq<PartitionRange>, fetched: seq<seq<Row>>, isComplete: seq<bool>,
                      streams: seq<seq<Row>>, taken: ChunkTaken, popped: seq<Row>)
    requires PlanOk(windows, cur, marks, direction) && DistinctRanges(windows) && AllInRange(cur, marks)
    requires Distinct(cur)
    requires StreamsOk(log, windows, direction, isComplete, fetched) && Parallel(windows, fetched)
    requires Walked(MergeOrder.Order(MergeOrder.Server, direction), fetched, popped, streams)
    requires Tallied(keep, windows, popped, taken)
    ensures Taken(log, marks, direction, keep, cur, windows, fetched, EndOf(isComplete, streams, taken), popped,
        taken.matches)
  {
    WalkedMerges(MergeOrder.Order(MergeOrder.Server, direction), windows, fetched, popped, streams);
  }

  /** Only a cancelled chunk can be committed without moving any position. */
  lemma UncancelledMoves(log: set<Row>, marks: seq<Mark>, direction: Direction, keep: Row -> bool, page: Page,
                         page': Page, windows: seq<PartitionRange>, fetched: seq<seq<Row>>, end: ChunkEnd,
                         popped: seq<Row>, matches: seq<Row>)
    requires Taken(log, marks, direction, keep, page.positions, windows, fetched, end, popped, matches) && windows != []
    requires page'.positions == AdvancePositions(page.positions, windows, end, direction)
    requires page'.scanned == page.scanned + ChargeBudget(page.positions, page'.positions)
    requires page.scanned + |popped| <= page'.scanned
    requires popped != [] || (forall i | 0 <= i < |windows| :: end.isComplete[i] && end.streams[i] == [])
    ensures page.scanned < page'.scanned
  {
    if popped == [] { WholeChunkMoves(log, windows, marks, direction, fetched, popped, end, page.positions); }
  }

  /** One round of the page's loop. `cancelled` is the flag as it stands after the scan. */
  method RunChunk(ghost log: set<Row>, marks: seq<Mark>, direction: Direction, filter: Filter, limit: nat, budget: nat,
                  scan: Scan, cancelled: bool, page: Page, sent: seq<TimelineEvent>, room: nat)
    returns (step: ChunkStep, page': Page, sent': seq<TimelineEvent>, ghost found: seq<Row>)
    requires SoundScan(log, scan) && AllInRange(page.positions, marks) && Distinct(page.positions)
    requires page.matches < limit && page.scanned < budget && UnderWay(sent, page.scanned)
    ensures UnderWay(sent', budget) && (|sent| <= room ==> |sent'| <= room)
    ensures step.AtEnd? ==>
      AllAtEdge(page.positions, marks, direction) && sent' == sent && page' == page.(exhausted := true)
    ensures step.Committed? ==>
      CommittedSo(log, KeepOf(filter), marks, direction, limit, budget, cancelled, page, page', sent, sent', found)
    ensures step.AtEnd? <==> AllAtEdge(page.positions, marks, direction)
    ensures step.Errored? <==>
      !step.AtEnd? && ChunkFails(scan, filter.Some?, limit, budget, page, marks, direction, cancelled)
    ensures step.Errored? ==> Shown(sent') == Shown(sent) && Reported(sent', room)
    ensures step.ClientGone? ==> room <= |sent'|
    ensures step.Committed? ==> found == NextRows(scan, filter, limit, budget, page, marks, direction)
  {
    page', sent', found := page, sent, [];
    HonestRaise(sent, page.scanned, budget);
    var windows := NextWindows(filter.Some?, limit, budget, page, marks, direction);
    if windows == [] {
      return AtEnd, page.(exhausted := true), sent, [];
    }
    step, page', sent', found :=
      RunWindows(log, marks, direction, filter, limit, budget, scan(page.chunks, windows), cancelled, page, windows,
          sent, room);
  }

  /** The round once its windows are planned and scanned. */
  method RunWindows(ghost log: set<Row>, marks: seq<Mark>, direction: Direction, filter: Filter, limit: nat,
                    budget: nat, outcome: Option<FetchOutcome>, cancelled: bool, page: Page,
                    windows: seq<PartitionRange>, sent: seq<TimelineEvent>, room: nat)
    returns (step: ChunkStep, page': Page, sent': seq<TimelineEvent>, ghost found: seq<Row>)
    requires AllInRange(page.positions, marks) && Distinct(page.positions)
    requires page.matches < limit && page.scanned < budget && UnderWay(sent, page.scanned)
    requires outcome.Some? ==> Scanned(log, windows, outcome.value)
    requires Runnable(windows, page.positions, marks, direction, budget - page.scanned) && windows != []
    ensures UnderWay(sent', budget) && (|sent| <= room ==> |sent'| <= room)
    ensures !step.AtEnd?
    ensures step.Committed? ==>
      CommittedSo(log, KeepOf(filter), marks, direction, limit, budget, cancelled, page, page', sent, sent', found)
    ensures step.Committed? ==> found == RowsOf(KeepOf(filter), Wanted(limit, page), outcome, windows, direction)
    ensures step.Errored? <==> Fails(outcome, windows, direction, cancelled)
    ensures step.Errored? ==> Shown(sent') == Shown(sent) && Reported(sent', room)
    ensures step.ClientGone? ==> room <= |sent'|
  {
    page', found := page, [];
    if outcome.None? {
      HonestRaise(sent, page.scanned, budget);
      sent' := SendFailed(sent, room, budget);
      return Errored, page, sent', [];
    }
    var fetched, isComplete := SelectPartitionStreams(outcome.value.records, windows, outcome.value.complete,
        direction);
    StreamsSelected(log, windows, page.positions, marks, direction, outcome.value, fetched, isComplete);
    StalledIsDrained(outcome.value, windows, direction, fetched, isComplete);
    SelectedShows(KeepOf(filter), Wanted(limit, page), outcome.value, windows, direction, fetched);
    step, page', sent', found :=
      TakeChunk(log, marks, direction, filter, limit, budget, cancelled, page, windows, fetched, isComplete, sent,
          room);
  }

  predicate Drained(streams: seq<seq<Row>>) {
    forall i | 0 <= i < |streams| :: streams[i] == []
  }

  /** The first record taken comes from some stream that had one. */
  lemma {:induction false} TakenFromSome(o: MergeOrder.Order, fetched: seq<seq<Row>>, popped: seq<Row>,
                                         streams: seq<seq<Row>>)
    requires Walked(o, fetched, popped, streams)
    ensures popped != [] ==> !Drained(fetched)
    ensures popped == [] ==> streams == fetched
    decreases |popped|
  {
    if popped != [] {
      var front, r := popped[..|popped| - 1], popped[|popped| - 1];
      assert WalkedBy(o, fetched, front, r, streams);
      var before, i: nat :| Walked(o, fetched, front, before) && Takes(o, before, i, r, streams);
      TakenFromSome(o, fetched, front, before);
      assert Nonempty(before, i);
    }
  }

  lemma StalledIsDrained(out: FetchOutcome, windows: seq<PartitionRange>, direction: Direction, fetched: seq<seq<Row>>,
                         isComplete: seq<bool>)
    requires |fetched| == |windows| == |isComplete|
    requires forall i | 0 <= i < |windows| :: isComplete[i] == (windows[i].partition in out.complete)
    requires forall i | 0 <= i < |windows| :: fetched[i] == Select(out.records, windows[i], out.complete, direction)
    ensures Stalled(out, windows, direction) <==> Drained(fetched) && exists i | 0 <= i < |isComplete| :: !isComplete[i]
  {}

  /** The failure is the last thing the receiver was told, if it was still there. */
  predicate Reported(events: seq<TimelineEvent>, room: nat) {
    room <= |events| || (events != [] && events[|events| - 1].Failed?)
  }

  method SendFailed(sent: seq<TimelineEvent>, room: nat, ghost top: nat) returns (sent': seq<TimelineEvent>)
    requires UnderWay(sent, top)
    ensures UnderWay(sent', top) && Shown(sent') == Shown(sent) && (|sent| <= room ==> |sent'| <= room)
    ensures Reported(sent', room)
  {
    sent' := sent;
    if |sent| < room {
      SendNext(sent, top, Failed, top);
      sent' := sent + [Failed];
    }
  }

  lemma SomeTaken(isComplete: seq<bool>, streams: seq<seq<Row>>, n: nat, popped: seq<Row>, stuck: bool)
    requires |isComplete| == |streams| == n
    requires popped == [] ==> forall i | 0 <= i < n :: streams[i] == []
    requires stuck == exists i | 0 <= i < n :: !isComplete[i]
    ensures popped != [] || stuck || forall i | 0 <= i < n :: isComplete[i] && streams[i] == []
  {}

  /** The chunk from its merge on. */
  method TakeChunk(ghost log: set<Row>, marks: seq<Mark>, direction: Direction, filter: Filter, limit: nat, budget: nat,
                   cancelled: bool, page: Page, windows: seq<PartitionRange>, fetched: seq<seq<Row>>,
                   isComplete: seq<bool>, sent: seq<TimelineEvent>, room: nat)
    returns (step: ChunkStep, page': Page, sent': seq<TimelineEvent>, ghost found: seq<Row>)
    requires AllInRange(page.positions, marks) && Distinct(page.positions)
    requires page.matches < limit && page.scanned < budget && UnderWay(sent, page.scanned)
    requires PlanOk(windows, page.positions, marks, direction) && DistinctRanges(windows) && windows != []
    requires 0 <= Total(windows) <= budget - page.scanned && StreamsOk(log, windows, direction, isComplete, fetched)
    requires Parallel(windows, fetched)
    ensures step.Committed? ==>
      found == ShownOf(KeepOf(filter), MergedRows(windows, fetched, direction), Wanted(limit, page), direction)
    ensures step.Errored? <==> !cancelled && Drained(fetched) && exists i | 0 <= i < |isComplete| :: !isComplete[i]
    ensures step.Errored? ==> Shown(sent') == Shown(sent) && Reported(sent', room)
    ensures step.ClientGone? ==> room <= |sent'|
    ensures UnderWay(sent', budget) && (|sent| <= room ==> |sent'| <= room)
    ensures !step.AtEnd?
    ensures step.Committed? ==>
      CommittedSo(log, KeepOf(filter), marks, direction, limit, budget, cancelled, page, page', sent, sent', found)
  {
    page', found := page, [];
    var streams, taken;
    ghost var popped;
    streams, taken, sent', popped :=
      MergeChunkRecords(windows, fetched, direction, KeepOf(filter), limit, page.matches, page.scanned, budget, sent,
          room);
    PoppedFits(log, windows, marks, direction, fetched, isComplete, page.positions, popped, streams);
    TakenFromSome(MergeOrder.Order(MergeOrder.Server, direction), fetched, popped, streams);
    if taken.None? {
      ToldHonest(KeepOf(filter), popped[..|popped| - 1], page.scanned, page.matches, budget, sent, sent');
      HonestRaise(sent', page.scanned + |popped| - 1, budget);
      return ClientGone, page, sent', [];
    }
    ToldHonest(KeepOf(filter), popped, page.scanned, page.matches, budget, sent, sent');
    MergedIsTaken(log, marks, direction, KeepOf(filter), page.positions, windows, fetched, isComplete, streams,
        taken.value, popped);
    if taken.value.anyTaken { assert !Drained(fetched); } else { assert Drained(fetched); }
    TakenAreFirst(windows, fetched, popped, streams, direction, KeepOf(filter), Wanted(limit, page));
    step, page', sent', found :=
      SettleChunk(log, marks, direction, filter, budget, cancelled, page, windows, fetched, isComplete, streams,
          taken.value, popped, sent', room);
  }

  /** The progress guarantee, then the commit and what is sent for it. */
  method SettleChunk(ghost log: set<Row>, marks: seq<Mark>, direction: Direction, filter: Filter, budget: nat,
                     cancelled: bool, page: Page, windows: seq<PartitionRange>, ghost fetched: seq<seq<Row>>,
                     isComplete: seq<bool>, streams: seq<seq<Row>>, taken: ChunkTaken, ghost popped: seq<Row>,
                     sent: seq<TimelineEvent>, room: nat)
    returns (step: ChunkStep, page': Page, sent': seq<TimelineEvent>, ghost found: seq<Row>)
    requires page.scanned < budget && UnderWay(sent, page.scanned + |popped|) && windows != []
    requires page.scanned + |popped| <= budget && 0 <= Total(windows) <= budget - page.scanned
    requires |isComplete| == |streams| == |windows| && taken.anyTaken == (popped != [])
    requires popped == [] ==> forall i | 0 <= i < |streams| :: streams[i] == []
    requires Taken(log, marks, direction, KeepOf(filter), page.positions, windows, fetched,
        EndOf(isComplete, streams, taken), popped, taken.matches)
    ensures UnderWay(sent', budget) && (|sent| <= room ==> |sent'| <= room)
    ensures !step.AtEnd?
    ensures (step.Errored? <==> !cancelled && popped == [] && exists i | 0 <= i < |isComplete| :: !isComplete[i])
    ensures step.Errored? ==> Shown(sent') == Shown(sent) && Reported(sent', room)
    ensures step.ClientGone? ==> room <= |sent'|
    ensures step.Committed? ==>
      && Progressed(log, KeepOf(filter), marks, direction, page, page', found)
      && Shown(sent') == Shown(sent) + found && UnderWay(sent', page'.scanned) && UpToDate(sent', page', budget)
      && page'.matches == page.matches + |taken.matches| && page'.scanned <= budget
      && found == Displayed(taken.matches, direction)
      && (cancelled || page.scanned < page'.scanned)
  {
    page', found := page, [];
    var stuck := exists i | 0 <= i < |isComplete| :: !isComplete[i];
    if PageMadeNoProgress(!taken.anyTaken, stuck, cancelled) {
      HonestRaise(sent, page.scanned + |popped|, budget);
      sent' := SendFailed(sent, room, budget);
      return Errored, page, sent', [];
    }
    page' := Commit(log, marks, direction, KeepOf(filter), page, windows, fetched, EndOf(isComplete, streams, taken),
        popped, taken.matches);
    if !cancelled {
      SomeTaken(isComplete, streams, |windows|, popped, stuck);
      UncancelledMoves(log, marks, direction, KeepOf(filter), page, page', windows, fetched,
          EndOf(isComplete, streams, taken), popped, taken.matches);
    }
    var ok;
    sent', ok := EmitChunk(sent, room, taken.matches, direction, page'.scanned, page'.matches, budget,
        page.scanned + |popped|);
    found := Displayed(taken.matches, direction);
    step := if ok then Committed else ClientGone;
    HonestRaise(sent', page'.scanned, budget);
  }

  /** Records popped never outnumber the offsets planned, whatever becomes of the chunk. */
  lemma PoppedFits(log: set<Row>, windows: seq<PartitionRange>, marks: seq<Mark>, direction: Direction,
                   fetched: seq<seq<Row>>, isComplete: seq<bool>, cur: seq<Position>, popped: seq<Row>,
                   streams: seq<seq<Row>>)
    requires PlanOk(windows, cur, marks, direction) && DistinctRanges(windows) && AllInRange(cur, marks)
    requires Distinct(cur)
    requires StreamsOk(log, windows, direction, isComplete, fetched) && Parallel(windows, fetched)
    requires Walked(MergeOrder.Order(MergeOrder.Server, direction), fetched, popped, streams)
    ensures |popped| <= Total(windows) && |streams| == |windows|
  {
    WalkedMerges(MergeOrder.Order(MergeOrder.Server, direction), windows, fetched, popped, streams);
    var end := ChunkEnd(isComplete, streams, Lows(windows, popped), Highs(windows, popped));
    ChunkCovers(log, windows, marks, direction, fetched, popped, end, cur);
  }

  // ---- the page -------------------------------------------------------------------

  datatype PageOutcome =
    | Ended(cursor: Option<seq<Position>>, exhausted: bool)
    | Broken
    | Abandoned

  /** The page so far: the matches sent are exactly the matching records between where
      it started and where it stands, each once and each partition's farther and farther
      out, and the charge is that ground. */
  ghost predicate PageSo(log: set<Row>, keep: Row -> bool, marks: seq<Mark>, direction: Direction, start: seq<Position>,
                         limit: nat, budget: nat, page: Page, shown: seq<Row>) {
    && Steps(direction, start, page.positions) && AllInRange(page.positions, marks) && Distinct(page.positions)
    && Once(shown) && LanesOutward(shown, direction)
    && ToSet(shown) == Found(log, keep, direction, start, page.positions)
    && page.matches == |shown| <= limit
    && page.scanned == ChargeBudget(start, page.positions) <= budget
  }

  function FirstPage(start: seq<Position>): Page { Page(start, 0, 0, 0, false) }

  lemma PageStarts(log: set<Row>, keep: Row -> bool, marks: seq<Mark>, direction: Direction, asked: seq<Position>,
                   limit: nat, budget: nat)
    requires Ordered(marks) && Distinct(asked)
    ensures var start := ClampPositions(asked, marks);
      && Distinct(start) && AllInRange(start, marks)
      && PageSo(log, keep, marks, direction, start, limit, budget, FirstPage(start), [])
  {
    var start := ClampPositions(asked, marks);
    ClampedInRange(asked, marks);
    FoundNothing(log, keep, direction, start);
    ChargeNothing(start);
  }

  lemma PageNext(log: set<Row>, keep: Row -> bool, marks: seq<Mark>, direction: Direction, start: seq<Position>,
                 limit: nat, budget: nat, page: Page, shown: seq<Row>, page': Page, found: seq<Row>)
    requires Distinct(start) && PageSo(log, keep, marks, direction, start, limit, budget, page, shown)
    requires Progressed(log, keep, marks, direction, page, page', found) && page'.matches <= limit
    requires page'.scanned <= budget
    ensures PageSo(log, keep, marks, direction, start, limit, budget, page', shown + found)
  {
    StepsTrans(direction, start, page.positions, page'.positions);
    FoundChain(log, keep, direction, start, page.positions, page'.positions, shown, found);
    OutwardChain(log, keep, direction, start, page.positions, page'.positions, shown, found);
    ChargeChain(direction, start, page.positions, page'.positions);
  }

  /** A chunk that charged nothing changed nothing, and did not end the page. */
  lemma IdleChunk(log: set<Row>, keep: Row -> bool, marks: seq<Mark>, direction: Direction, page: Page, page': Page,
                  found: seq<Row>)
    requires Progressed(log, keep, marks, direction, page, page', found) && page'.scanned == page.scanned
    ensures page'.positions == page.positions && page'.matches == page.matches
  {
    ChargeZero(direction, page.positions, page'.positions);
    FoundNothing(log, keep, direction, page.positions);
    forall r ensures r !in found { assert r in found <==> r in ToSet(found); }
    Occupied(found);
  }

  /** How the loop has gone: chunks are paid for, except one that a cancellation froze,
      after which the loop stops. */
  predicate Paid(page: Page, limit: nat, budget: nat, stopped: nat -> bool) {
    && page.chunks <= page.scanned + 1
    && (page.chunks <= page.scanned || (stopped(2 * page.chunks) && page.matches < limit && page.scanned < budget))
  }

  /** However the page went: its charge is within the budget, and no chunk but the one a
      cancellation froze came for nothing. */
  predicate Afforded(page: Page, budget: nat) {
    page.scanned <= budget && page.chunks <= page.scanned + 1
  }

  ghost predicate StaysStopped(stopped: nat -> bool) {
    forall i, j | 0 <= i <= j :: stopped(i) ==> stopped(j)
  }

  lemma PaidNext(page: Page, page': Page, limit: nat, budget: nat, stopped: nat -> bool)
    requires StaysStopped(stopped) && Paid(page, limit, budget, stopped) && !stopped(2 * page.chunks)
    requires page.matches < limit && page.scanned < budget && page'.chunks == page.chunks + 1
    requires page.scanned <= page'.scanned
    requires stopped(2 * page.chunks + 1) || page.scanned < page'.scanned
    requires page.scanned == page'.scanned ==> page'.matches == page.matches
    ensures Paid(page', limit, budget, stopped)
    ensures page.scanned == page'.scanned ==> stopped(2 * page'.chunks)
  {
    assert stopped(2 * page.chunks + 1) ==> stopped(2 * page'.chunks);
  }

  /** Where the loop may stand between two chunks. */
  ghost predicate LoopSo(log: set<Row>, keep: Row -> bool, marks: seq<Mark>, direction: Direction, start: seq<Position>,
                           limit: nat, budget: nat, stopped: nat -> bool, page: Page, events: seq<TimelineEvent>) {
    && PageSo(log, keep, marks, direction, start, limit, budget, page, Shown(events)) && UnderWay(events, page.scanned)
    && Paid(page, limit, budget, stopped) && UpToDate(events, page, budget)
    && (page.exhausted <==> 0 < page.chunks && AllAtEdge(page.positions, marks, direction))
    && (page.exhausted ==> page.chunks <= page.scanned)
    && (page.chunks == 0 ==> page.matches == 0 && page.scanned == 0)
  }

  /** How a page that was not cut short has ended. */
  ghost predicate PageDone(log: set<Row>, keep: Row -> bool, marks: seq<Mark>, direction: Direction,
                           start: seq<Position>, limit: nat, budget: nat, page: Page, shown: seq<Row>,
                           outcome: PageOutcome)
  {
    && outcome.Ended? && PageSo(log, keep, marks, direction, start, limit, budget, page, shown)
    && (outcome.exhausted <==> AllAtEdge(page.positions, marks, direction))
    && outcome.cursor == (if outcome.exhausted then None else Some(page.positions))
    && (!outcome.exhausted ==> page.matches == limit || page.scanned == budget)
    && page.chunks <= page.scanned
  }

  lemma ChunkKeeps(log: set<Row>, keep: Row -> bool, marks: seq<Mark>, direction: Direction, start: seq<Position>,
                   limit: nat, budget: nat, stopped: nat -> bool, page: Page, events: seq<TimelineEvent>,
                   page': Page, events': seq<TimelineEvent>, found: seq<Row>)
    requires Distinct(start) && StaysStopped(stopped)
    requires LoopSo(log, keep, marks, direction, start, limit, budget, stopped, page, events)
    requires page.matches < limit && page.scanned < budget && !stopped(2 * page.chunks)
    requires !AllAtEdge(page.positions, marks, direction)
    requires CommittedSo(log, keep, marks, direction, limit, budget, stopped(2 * page.chunks + 1), page, page', events,
        events', found)
    ensures LoopSo(log, keep, marks, direction, start, limit, budget, stopped, page', events')
    ensures page.scanned < page'.scanned || stopped(2 * page'.chunks)
  {
    PageNext(log, keep, marks, direction, start, limit, budget, page, Shown(events), page', found);
    if page.scanned == page'.scanned { IdleChunk(log, keep, marks, direction, page, page', found); }
    PaidNext(page, page', limit, budget, stopped);
  }

  /** What was sent before a failure is still exactly what lies behind the positions reached. */
  ghost predicate BrokeOff(log: set<Row>, keep: Row -> bool, marks: seq<Mark>, direction: Direction,
                           start: seq<Position>, limit: nat, budget: nat, page: Page, shown: seq<Row>)
  {
    PageSo(log, keep, marks, direction, start, limit, budget, page, shown) &&
      !AllAtEdge(page.positions, marks, direction)
  }

  /** Budget is left, but the page's next chunk cannot be had. */
  predicate ChunkFails(scan: Scan, filtered: bool, limit: nat, budget: nat, page: Page, marks: seq<Mark>,
                       direction: Direction, cancelled: bool)
  {
    page.scanned < budget &&
    var plan := PlanOf(filtered, limit, budget, page, marks, direction);
    Fails(scan(page.chunks, plan), plan, direction, cancelled)
  }

  /** Where the loop stands when it was not cut short. */
  ghost predicate LoopLeft(log: set<Row>, keep: Row -> bool, marks: seq<Mark>, direction: Direction,
                           start: seq<Position>, limit: nat, budget: nat, page: Page, events: seq<TimelineEvent>)
  {
    && PageSo(log, keep, marks, direction, start, limit, budget, page, Shown(events)) && UnderWay(events, page.scanned)
    && page.chunks <= page.scanned && UpToDate(events, page, budget)
    && (page.exhausted <==> AllAtEdge(page.positions, marks, direction))
    && (page.exhausted || page.matches >= limit || page.scanned >= budget)
  }

  /** How the loop was cut short. */
  ghost predicate CutSo(log: set<Row>, keep: Row -> bool, marks: seq<Mark>, direction: Direction, start: seq<Position>,
                        limit: nat, budget: nat, scan: Scan, filtered: bool, stopped: nat -> bool, room: nat,
                        page: Page, events: seq<TimelineEvent>, cut: PageOutcome)
  {
    match cut
    case Ended(_, _) => false
    case Broken =>
      && BrokeOff(log, keep, marks, direction, start, limit, budget, page, Shown(events))
      && ChunkFails(scan, filtered, limit, budget, page, marks, direction, stopped(2 * page.chunks + 1))
      && Reported(events, room)
    case Abandoned => |events| == room || stopped(2 * page.chunks)
  }

  /** With every position at its edge there is nothing more to show. */
  lemma NoNextRows(log: set<Row>, scan: Scan, filter: Filter, limit: nat, budget: nat, page: Page, marks: seq<Mark>,
                   direction: Direction)
    requires page.scanned < budget && page.matches < limit && AllInRange(page.positions, marks)
    requires Distinct(page.positions) && AllAtEdge(page.positions, marks, direction)
    ensures NextRows(scan, filter, limit, budget, page, marks, direction) == []
  {
    PlanAtEdge(filter.Some?, limit, budget, page, marks, direction);
    NoWindowsNoRows(KeepOf(filter), Wanted(limit, page), scan(page.chunks, []), direction);
  }

  lemma PlanAtEdge(filtered: bool, limit: nat, budget: nat, page: Page, marks: seq<Mark>, direction: Direction)
    requires page.scanned < budget && AllInRange(page.positions, marks)
    requires Distinct(page.positions) && AllAtEdge(page.positions, marks, direction)
    ensures PlanOf(filtered, limit, budget, page, marks, direction) == []
  {
    var span := ChunkSpan(filtered, page.chunks, limit, budget - page.scanned, page.positions, marks, direction);
    SpanFits(filtered, page.chunks, limit, budget - page.scanned, page.positions, marks, direction);
    PlanIsSound(page.positions, marks, direction, span, budget - page.scanned);
  }

  lemma NoWindowsNoRows(keep: Row -> bool, want: nat, out: Option<FetchOutcome>, direction: Direction)
    ensures RowsOf(keep, want, out, [], direction) == []
  {
    if out.Some? {
      NoneLeft(MergeOrder.Order(MergeOrder.Server, direction), [], Selected(out.value, [], direction));
      DisplayPermutes([], direction);
    }
  }

  /** What the first chunk of a page shows when it is committed. */
  ghost function FirstRows(scan: Scan, filter: Filter, limit: nat, budget: nat, start: seq<Position>,
                           marks: seq<Mark>, direction: Direction): seq<Row>
    requires 1 <= limit && 1 <= budget
  {
    NextRows(scan, filter, limit, budget, FirstPage(start), marks, direction)
  }

  /** The page is untouched, or what it has shown begins with what its first chunk shows. */
  ghost predicate FirstSeen(scan: Scan, filter: Filter, limit: nat, budget: nat, start: seq<Position>,
                            marks: seq<Mark>, direction: Direction, page: Page, shown: seq<Row>)
    requires 1 <= limit && 1 <= budget
  {
    || (page == FirstPage(start) && shown == [])
    || FirstRows(scan, filter, limit, budget, start, marks, direction) <= shown
  }

  lemma PrefixGrows(first: seq<Row>, shown: seq<Row>, next: seq<Row>)
    ensures first <= shown ==> first <= shown + next
    ensures shown == [] ==> shown + next == next
  {}

  lemma FirstSeenNext(scan: Scan, filter: Filter, limit: nat, budget: nat, start: seq<Position>, marks: seq<Mark>,
                      direction: Direction, page: Page, shown: seq<Row>, page': Page)
    requires 1 <= limit && 1 <= budget && page.scanned < budget && page.matches < limit
    requires FirstSeen(scan, filter, limit, budget, start, marks, direction, page, shown)
    ensures FirstSeen(scan, filter, limit, budget, start, marks, direction, page',
                      shown + NextRows(scan, filter, limit, budget, page, marks, direction))
  {
    PrefixGrows(FirstRows(scan, filter, limit, budget, start, marks, direction), shown,
                NextRows(scan, filter, limit, budget, page, marks, direction));
  }

  /** One chunk more: the page goes on, has run dry, or is cut short. */
  method RunRound(ghost log: set<Row>, ghost start: seq<Position>, marks: seq<Mark>, direction: Direction,
                  filter: Filter, limit: nat, budget: nat, scan: Scan, stopped: nat -> bool, page: Page,
                  events: seq<TimelineEvent>, room: nat)
    returns (page': Page, events': seq<TimelineEvent>, cut: Option<PageOutcome>)
    requires Distinct(start) && SoundScan(log, scan) && StaysStopped(stopped)
    requires LoopSo(log, KeepOf(filter), marks, direction, start, limit, budget, stopped, page, events)
    requires !page.exhausted && |events| <= room && 1 <= limit && 1 <= budget
    requires page.matches < limit && page.scanned < budget
    requires FirstSeen(scan, filter, limit, budget, start, marks, direction, page, Shown(events))
    ensures |events'| <= room
    ensures stopped(2 * page.chunks) ==> cut.Some?
    ensures cut.None? ==>
      if page'.exhausted then LoopLeft(log, KeepOf(filter), marks, direction, start, limit, budget, page', events')
      else LoopSo(log, KeepOf(filter), marks, direction, start, limit, budget, stopped, page', events') &&
           (page.scanned < page'.scanned || stopped(2 * page'.chunks))
    ensures cut.None? ==>
      Shown(events') == Shown(events) + NextRows(scan, filter, limit, budget, page, marks, direction)
    ensures cut.None? ==> FirstSeen(scan, filter, limit, budget, start, marks, direction, page', Shown(events'))
    ensures cut.Some? ==> page' == page && UnderWay(events', budget)
    ensures cut.Some? ==>
      CutSo(log, KeepOf(filter), marks, direction, start, limit, budget, scan, filter.Some?, stopped, room, page,
            events', cut.value)
  {
    cut := None;
    if stopped(2 * page.chunks) {
      HonestRaise(events, page.scanned, budget);
      return page, events, Some(Abandoned);
    }
    var step;
    ghost var found;
    step, page', events', found :=
      RunChunk(log, marks, direction, filter, limit, budget, scan, stopped(2 * page.chunks + 1), page, events, room);
    if step.Committed? {
      ChunkKeeps(log, KeepOf(filter), marks, direction, start, limit, budget, stopped, page, events, page', events',
                 found);
    } else if step.AtEnd? {
      NoNextRows(log, scan, filter, limit, budget, page, marks, direction);
    } else {
      return page, events', Some(if step.Errored? then Broken else Abandoned);
    }
    FirstSeenNext(scan, filter, limit, budget, start, marks, direction, page, Shown(events), page');
  }

  /** The page's `n`-th scan finds all there is in any windows. */
  ghost predicate WholeScan(scan: Scan, n: nat) {
    forall ws :: scan(n, ws).Some? && AllComplete(scan(n, ws).value, ws)
  }

  /** What is left pays for the full reach of the page's next chunk in every active partition. */
  predicate PaysFor(filtered: bool, limit: nat, budget: nat, page: Page, marks: seq<Mark>, direction: Direction) {
    page.scanned < budget &&
    ReachOf(filtered, page.chunks, limit) * ActiveCount(page.positions, marks, direction) <= budget - page.scanned
  }

  /** A chunk scanned whole and paid for shows the best matches the log has within reach. */
  lemma NextRowsNearest(log: set<Row>, scan: Scan, filter: Filter, limit: nat, budget: nat, page: Page,
                        marks: seq<Mark>, direction: Direction)
    requires Rows.Keyed(log) && SoundScan(log, scan) && WholeScan(scan, page.chunks) && page.matches < limit
    requires AllInRange(page.positions, marks) && Distinct(page.positions)
    requires PaysFor(filter.Some?, limit, budget, page, marks, direction)
    ensures NextRows(scan, filter, limit, budget, page, marks, direction) ==
            NearestMatches(log, KeepOf(filter), page.positions, marks, direction,
                           Some(ReachOf(filter.Some?, page.chunks, limit)), Wanted(limit, page))
  {
    var plan, reach := PlanOf(filter.Some?, limit, budget, page, marks, direction),
                       ReachOf(filter.Some?, page.chunks, limit);
    PlanReaches(filter.Some?, page.chunks, limit, budget - page.scanned, page.positions, marks, direction);
    RangesNextTo(page.positions, marks, direction, reach);
    assert plan == PageRanges(page.positions, marks, direction, reach);
    assert DistinctRanges(plan);
    var out := scan(page.chunks, plan).value;
    ChunkIsNearest(log, KeepOf(filter), page.positions, marks, direction, reach, out, Wanted(limit, page));
  }

  lemma FirstRowsNearest(log: set<Row>, scan: Scan, filter: Filter, limit: nat, budget: nat, start: seq<Position>,
                         marks: seq<Mark>, direction: Direction)
    requires Rows.Keyed(log) && SoundScan(log, scan) && WholeScan(scan, 0) && 1 <= limit
    requires AllInRange(start, marks) && Distinct(start)
    requires PaysFor(filter.Some?, limit, budget, FirstPage(start), marks, direction)
    ensures FirstRows(scan, filter, limit, budget, start, marks, direction) ==
            NearestMatches(log, KeepOf(filter), start, marks, direction, Some(ReachOf(filter.Some?, 0, limit)), limit)
  {
    NextRowsNearest(log, scan, filter, limit, budget, FirstPage(start), marks, direction);
    assert Wanted(limit, FirstPage(start)) == limit;
  }

  lemma PlentyPays(filter: Filter, limit: nat, budget: nat, start: seq<Position>, marks: seq<Mark>,
                   direction: Direction)
    requires filter.None? && 1 <= budget && limit * ActiveCount(start, marks, direction) <= budget
    ensures PaysFor(filter.Some?, limit, budget, FirstPage(start), marks, direction)
    ensures ReachOf(filter.Some?, 0, limit) == limit
  {}

  /** An unfiltered page whose first scan is whole, with no hole among the `limit` offsets
      next to each position and a budget that pays for them. */
  ghost predicate Plentiful(log: set<Row>, scan: Scan, start: seq<Position>, marks: seq<Mark>, direction: Direction,
                            limit: nat, budget: nat)
  {
    && Rows.Keyed(log) && WholeScan(scan, 0) && limit * ActiveCount(start, marks, direction) <= budget
    && forall pos | pos in start :: DenseNear(log, pos, marks, direction, limit)
  }

  /** Such a page shows the best rows of the whole log, whatever else happens. */
  lemma PlentyShowsBest(log: set<Row>, scan: Scan, filter: Filter, limit: nat, budget: nat, start: seq<Position>,
                        marks: seq<Mark>, direction: Direction, page: Page, shown: seq<Row>)
    requires SoundScan(log, scan) && filter.None? && Plentiful(log, scan, start, marks, direction, limit, budget)
    requires 1 <= limit && 1 <= budget && AllInRange(start, marks) && Distinct(start)
    requires PageSo(log, KeepOf(filter), marks, direction, start, limit, budget, page, shown)
    requires FirstRows(scan, filter, limit, budget, start, marks, direction) <= shown
    ensures shown == BestRows(log, start, marks, direction, limit)
  {
    PlentyPays(filter, limit, budget, start, marks, direction);
    FirstRowsNearest(log, scan, filter, limit, budget, start, marks, direction);
    NearestAreBest(log, KeepOf(filter), start, marks, direction, limit);
    BestAreAll(log, KeepOf(filter), start, marks, direction, page.positions, shown, limit);
  }

  /** What a page that ended has shown: it begins with the best matches within reach when
      its first scan was whole and paid for, and when nothing stood in the way it is the
      best rows of the whole log and no others. */
  ghost predicate ShowsBest(log: set<Row>, scan: Scan, filter: Filter, limit: nat, budget: nat, start: seq<Position>,
                            marks: seq<Mark>, direction: Direction, shown: seq<Row>)
  {
    && (Rows.Keyed(log) && WholeScan(scan, 0) &&
        PaysFor(filter.Some?, limit, budget, FirstPage(start), marks, direction) ==>
          NearestMatches(log, KeepOf(filter), start, marks, direction, Some(ReachOf(filter.Some?, 0, limit)), limit)
            <= shown)
    && (filter.None? && Plentiful(log, scan, start, marks, direction, limit, budget) ==>
          shown == BestRows(log, start, marks, direction, limit))
  }

  lemma EndShowsBest(log: set<Row>, scan: Scan, filter: Filter, limit: nat, budget: nat, start: seq<Position>,
                     marks: seq<Mark>, direction: Direction, page: Page, shown: seq<Row>)
    requires SoundScan(log, scan) && 1 <= limit && 1 <= budget && AllInRange(start, marks) && Distinct(start)
    requires PageSo(log, KeepOf(filter), marks, direction, start, limit, budget, page, shown)
    requires FirstRows(scan, filter, limit, budget, start, marks, direction) <= shown
    ensures ShowsBest(log, scan, filter, limit, budget, start, marks, direction, shown)
  {
    if Rows.Keyed(log) && WholeScan(scan, 0) {
      if PaysFor(filter.Some?, limit, budget, FirstPage(start), marks, direction) {
        FirstRowsNearest(log, scan, filter, limit, budget, start, marks, direction);
      }
      if filter.None? && Plentiful(log, scan, start, marks, direction, limit, budget) {
        PlentyShowsBest(log, scan, filter, limit, budget, start, marks, direction, page, shown);
      }
    }
  }

  /** Chunk after chunk, until the page has its matches, has spent its budget, has run dry
      or is cut short. */
  method RunLoop(ghost log: set<Row>, start: seq<Position>, marks: seq<Mark>, direction: Direction, filter: Filter,
                 limit: nat, budget: nat, scan: Scan, stopped: nat -> bool, room: nat)
    returns (events: seq<TimelineEvent>, page: Page, cut: Option<PageOutcome>)
    requires Distinct(start) && 1 <= limit && 1 <= budget && SoundScan(log, scan) && StaysStopped(stopped)
    requires PageSo(log, KeepOf(filter), marks, direction, start, limit, budget, FirstPage(start), [])
    ensures |events| <= room && UnderWay(events, budget) && Afforded(page, budget)
    ensures cut.None? ==> LoopLeft(log, KeepOf(filter), marks, direction, start, limit, budget, page, events)
    ensures cut.None? ==> FirstRows(scan, filter, limit, budget, start, marks, direction) <= Shown(events)
    ensures cut.Some? ==>
      CutSo(log, KeepOf(filter), marks, direction, start, limit, budget, scan, filter.Some?, stopped, room, page,
            events, cut.value)
  {
    page, events, cut := FirstPage(start), [], None;
    while !page.exhausted && page.matches < limit && page.scanned < budget
      invariant |events| <= room && cut.None?
      invariant if page.exhausted then
          LoopLeft(log, KeepOf(filter), marks, direction, start, limit, budget, page, events)
        else LoopSo(log, KeepOf(filter), marks, direction, start, limit, budget, stopped, page, events)
      invariant FirstSeen(scan, filter, limit, budget, start, marks, direction, page, Shown(events))
      decreases !page.exhausted, if stopped(2 * page.chunks) then 0 else budget + 1 - page.scanned
    {
      page, events, cut :=
        RunRound(log, start, marks, direction, filter, limit, budget, scan, stopped, page, events, room);
      if cut.Some? {
        return;
      }
    }
    HonestRaise(events, page.scanned, budget);
  }

  /** Runs one page to its end, its failure or its abandonment. The receiver takes `room`
      events and is gone after that; `stopped` says when the page was cancelled. */
  method RunPage(ghost log: set<Row>, asked: seq<Position>, marks: seq<Mark>, direction: Direction, filter: Filter,
                 limit: nat, budget: nat, scan: Scan, stopped: nat -> bool, room: nat)
    returns (events: seq<TimelineEvent>, outcome: PageOutcome, page: Page)
    requires Distinct(asked) && Ordered(marks) && 1 <= limit && SoundScan(log, scan) && StaysStopped(stopped)
    ensures |events| <= room && Honest(events, Max(budget, 1))
    ensures !outcome.Ended? ==> NoEnd(events)
    ensures outcome.Ended? ==>
      PageDone(log, KeepOf(filter), marks, direction, ClampPositions(asked, marks), limit, Max(budget, 1), page,
               Shown(events), outcome)
    ensures outcome.Ended? ==> |events| == room || EndsWith(events, outcome, page, Max(budget, 1))
    ensures outcome.Ended? ==>
      ShowsBest(log, scan, filter, limit, Max(budget, 1), ClampPositions(asked, marks), marks, direction,
                Shown(events))
    ensures outcome.Broken? ==>
      && BrokeOff(log, KeepOf(filter), marks, direction, ClampPositions(asked, marks), limit, Max(budget, 1), page,
                  Shown(events))
      && ChunkFails(scan, filter.Some?, limit, Max(budget, 1), page, marks, direction, stopped(2 * page.chunks + 1))
      && Reported(events, room)
    ensures outcome.Abandoned? ==> |events| == room || stopped(2 * page.chunks)
    ensures Afforded(page, Max(budget, 1))
  {
    var start := ClampPositions(asked, marks);
    var cap: nat := Max(budget, 1);
    PageStarts(log, KeepOf(filter), marks, direction, asked, limit, cap);
    var cut;
    events, page, cut := RunLoop(log, start, marks, direction, filter, limit, cap, scan, stopped, room);
    if cut.Some? {
      return events, cut.value, page;
    }
    EndIsDone(log, KeepOf(filter), marks, direction, start, limit, cap, page, events);
    EndShowsBest(log, scan, filter, limit, cap, start, marks, direction, page, Shown(events));
    outcome := Ended(if page.exhausted then None else Some(page.positions), page.exhausted);
    events := SendEnd(events, room, outcome, page, page.scanned, cap);
  }

  /** The page's own end comes last and is the only one, and the totals come just before it. */
  predicate EndsWith(events: seq<TimelineEvent>, outcome: PageOutcome, page: Page, budget: nat)
    requires outcome.Ended?
  {
    && LastIs(events, PageEnd(outcome.cursor, outcome.exhausted))
    && NoEnd(events[..|events| - 1]) && UpToDate(events[..|events| - 1], page, budget)
  }

  method SendEnd(events: seq<TimelineEvent>, room: nat, outcome: PageOutcome, ghost page: Page, ghost top: nat,
                 ghost cap: nat)
    returns (events': seq<TimelineEvent>)
    requires outcome.Ended? && UpToDate(events, page, cap) && UnderWay(events, top) && top <= cap && |events| <= room
    ensures Honest(events', cap) && Shown(events') == Shown(events) && |events'| <= room
    ensures |events'| == room || EndsWith(events', outcome, page, cap)
  {
    HonestRaise(events, top, cap);
    events' := events;
    if |events| < room {
      SendNext(events, cap, PageEnd(outcome.cursor, outcome.exhausted), cap);
      events' := events + [PageEnd(outcome.cursor, outcome.exhausted)];
      assert events'[..|events|] == events;
    }
  }

  /** Leaving the loop, with or without having run dry. */
  lemma EndIsDone(log: set<Row>, keep: Row -> bool, marks: seq<Mark>, direction: Direction, start: seq<Position>,
                  limit: nat, budget: nat, page: Page, events: seq<TimelineEvent>)
    requires LoopLeft(log, keep, marks, direction, start, limit, budget, page, events)
    ensures PageDone(log, keep, marks, direction, start, limit, budget, page, Shown(events),
                     Ended(if page.exhausted then None else Some(page.positions), page.exhausted))
  {}
}
