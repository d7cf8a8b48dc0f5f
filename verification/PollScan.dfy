/**
 * One bounded scan of Kafka: a poll loop over any stream of messages, partition ends
 * and transient errors, cut short at any point, and which partitions it can vouch for.
 */
module PollScan {
  import opened Rows
  import opened PageWindows

  datatype Poll = Message(row: Row) | PartitionEof(partition: int) | Transient

  datatype FetchOutcome = FetchOutcome(records: seq<Row>, complete: set<int>)

  predicate DistinctRanges(ranges: seq<PartitionRange>) {
    forall i, j | 0 <= i < j < |ranges| :: ranges[i].partition != ranges[j].partition
  }

  predicate Assigned(w: PartitionRange, p: int) {
    w.start < w.end && w.partition == p
  }

  ghost predicate Arrived(polls: seq<Poll>, i: nat, r: Row) {
    exists j | 0 <= j < i && j < |polls| :: polls[j] == Message(r)
  }

  /** Everything of `w`'s partition from its start up to `to` arrived before poll `i`. */
  ghost predicate ArrivedBelow(log: set<Row>, w: PartitionRange, polls: seq<Poll>, i: nat, to: int) {
    forall s | s in Span(log, w.partition, w.start, to) :: Arrived(polls, i, s)
  }

  /** A consumer assigned to `ranges` delivers each partition in offset order from
      the range's start, skipping nothing real, and marks its end only after it. */
  ghost predicate FaithfulAt(log: set<Row>, ranges: seq<PartitionRange>, polls: seq<Poll>, i: nat)
    requires i < |polls|
  {
    match polls[i]
    case Message(r) =>
      && r in log
      && (exists w :: w in ranges && Assigned(w, r.partition) && w.start <= r.offset &&
             ArrivedBelow(log, w, polls, i, r.offset))
      && (forall s | Arrived(polls, i, s) && s.partition == r.partition :: s.offset < r.offset)
    case PartitionEof(p) =>
      exists w :: w in ranges && Assigned(w, p) && ArrivedBelow(log, w, polls, i, w.end)
    case Transient => true
  }

  ghost predicate Faithful(log: set<Row>, ranges: seq<PartitionRange>, polls: seq<Poll>) {
    forall i | 0 <= i < |polls| :: FaithfulAt(log, ranges, polls, i)
  }

  /** A partition's records are the real ones of its range up to some cut, in order;
      a partition marked complete has all of them. */
  ghost predicate ScannedAt(log: set<Row>, w: PartitionRange, out: FetchOutcome) {
    var lane := Lane(out.records, w.partition);
    && Ascending(lane)
    && (exists cut | w.start <= cut <= Max(w.start, w.end) :: ToSet(lane) == Span(log, w.partition, w.start, cut))
    && (w.partition in out.complete ==> ToSet(lane) == Span(log, w.partition, w.start, w.end))
  }

  ghost predicate Scanned(log: set<Row>, ranges: seq<PartitionRange>, out: FetchOutcome) {
    forall w | w in ranges :: ScannedAt(log, w, out)
  }

  /** Where one partition stands after `i` polls. */
  ghost predicate LaneSoFar(log: set<Row>, w: PartitionRange, polls: seq<Poll>, i: nat, out: seq<Row>, done: bool) {
    var lane := Lane(out, w.partition);
    && Ascending(lane)
    && (forall r :: r in lane <==> Arrived(polls, i, r) && r.partition == w.partition && r.offset < w.end)
    && (forall r | r in lane :: r in log && w.start <= r.offset && ArrivedBelow(log, w, polls, i, r.offset))
    && (done ==> ArrivedBelow(log, w, polls, i, w.end))
  }

  lemma ArrivedStep(polls: seq<Poll>, i: nat, r: Row)
    requires i < |polls|
    ensures Arrived(polls, i + 1, r) <==> Arrived(polls, i, r) || polls[i] == Message(r)
  {}

  lemma RangeUnique(ranges: seq<PartitionRange>, a: PartitionRange, b: PartitionRange)
    requires DistinctRanges(ranges) && a in ranges && b in ranges && a.partition == b.partition
    ensures a == b
  {}

  lemma ArrivedBelowGrows(log: set<Row>, w: PartitionRange, polls: seq<Poll>, i: nat, to: int)
    requires i < |polls| && ArrivedBelow(log, w, polls, i, to)
    ensures ArrivedBelow(log, w, polls, i + 1, to)
  {
    forall s | s in Span(log, w.partition, w.start, to) ensures Arrived(polls, i + 1, s) { ArrivedStep(polls, i, s); }
  }

  /** A poll that adds no record of this partition. */
  lemma LaneIdle(log: set<Row>, w: PartitionRange, polls: seq<Poll>, i: nat, out: seq<Row>, done: bool)
    requires i < |polls| && LaneSoFar(log, w, polls, i, out, done)
    requires polls[i].Message? ==> polls[i].row.partition != w.partition || w.end <= polls[i].row.offset
    ensures LaneSoFar(log, w, polls, i + 1, out, done)
  {
    forall r ensures Arrived(polls, i + 1, r) <==> Arrived(polls, i, r) || polls[i] == Message(r) {
      ArrivedStep(polls, i, r);
    }
    forall r | r in Lane(out, w.partition) ensures ArrivedBelow(log, w, polls, i + 1, r.offset) {
      ArrivedBelowGrows(log, w, polls, i, r.offset);
    }
    if done { ArrivedBelowGrows(log, w, polls, i, w.end); }
  }

  /** A poll that adds the next record of this partition. */
  lemma LaneGrows(log: set<Row>, w: PartitionRange, polls: seq<Poll>, i: nat, out: seq<Row>, done: bool, r: Row)
    requires i < |polls| && polls[i] == Message(r) && LaneSoFar(log, w, polls, i, out, done)
    requires r in log && r.partition == w.partition && w.start <= r.offset < w.end
    requires ArrivedBelow(log, w, polls, i, r.offset)
    requires forall s | Arrived(polls, i, s) && s.partition == r.partition :: s.offset < r.offset
    ensures LaneSoFar(log, w, polls, i + 1, out + [r], done)
  {
    LaneAppend(out, [r], w.partition);
    assert Lane([r], w.partition) == [r];
    var lane := Lane(out, w.partition);
    assert Lane(out + [r], w.partition) == lane + [r];
    forall j | 0 <= j < |lane| ensures lane[j].offset < r.offset { assert lane[j] in lane; }
    forall x ensures Arrived(polls, i + 1, x) <==> Arrived(polls, i, x) || x == r { ArrivedStep(polls, i, x); }
    forall x | x in lane + [r] ensures ArrivedBelow(log, w, polls, i + 1, x.offset) {
      ArrivedBelowGrows(log, w, polls, i, x.offset);
    }
    if done { ArrivedBelowGrows(log, w, polls, i, w.end); }
  }

  /** How far a partition's records reach. */
  function Cut(start: int, lane: seq<Row>): int {
    if lane == [] then start else lane[|lane| - 1].offset + 1
  }

  lemma CutCovers(log: set<Row>, w: PartitionRange, polls: seq<Poll>, i: nat, out: seq<Row>, done: bool, s: Row)
    requires Keyed(log) && LaneSoFar(log, w, polls, i, out, done)
    ensures s in Lane(out, w.partition) ==> s in Span(log, w.partition, w.start, Cut(w.start, Lane(out, w.partition)))
    ensures s in Span(log, w.partition, w.start, Cut(w.start, Lane(out, w.partition))) ==> s in Lane(out, w.partition)
  {
    var lane := Lane(out, w.partition);
    if lane != [] {
      var last := lane[|lane| - 1];
      assert last in lane;
      assert s in lane ==> s.offset <= last.offset;
      assert s in Span(log, w.partition, w.start, last.offset + 1) ==>
        s == last || s in Span(log, w.partition, w.start, last.offset);
    }
  }

  lemma DoneCovers(log: set<Row>, w: PartitionRange, polls: seq<Poll>, i: nat, out: seq<Row>, s: Row)
    requires LaneSoFar(log, w, polls, i, out, true)
    ensures s in Lane(out, w.partition) <==> s in Span(log, w.partition, w.start, w.end)
  {}

  lemma CutWithin(log: set<Row>, w: PartitionRange, polls: seq<Poll>, i: nat, out: seq<Row>, done: bool)
    requires w.start < w.end && LaneSoFar(log, w, polls, i, out, done)
    ensures w.start <= Cut(w.start, Lane(out, w.partition)) <= w.end
  {
    var lane := Lane(out, w.partition);
    if lane != [] { assert lane[|lane| - 1] in lane; }
  }

  /** Stopped here, a partition has exactly the real records up to some cut. */
  lemma LaneScanned(log: set<Row>, w: PartitionRange, polls: seq<Poll>, i: nat, out: FetchOutcome, done: bool)
    requires Keyed(log) && w.start < w.end && LaneSoFar(log, w, polls, i, out.records, done)
    requires w.partition in out.complete ==> done
    ensures ScannedAt(log, w, out)
  {
    var lane := Lane(out.records, w.partition);
    CutWithin(log, w, polls, i, out.records, done);
    forall s ensures s in lane <==> s in Span(log, w.partition, w.start, Cut(w.start, lane)) {
      CutCovers(log, w, polls, i, out.records, done, s);
    }
    assert ToSet(lane) == Span(log, w.partition, w.start, Cut(w.start, lane));
    if done {
      forall s ensures s in lane <==> s in Span(log, w.partition, w.start, w.end) {
        DoneCovers(log, w, polls, i, out.records, s);
      }
      assert ToSet(lane) == Span(log, w.partition, w.start, w.end);
    }
  }

  /** The end offset asked of a partition. */
  function Target(ranges: seq<PartitionRange>, p: int): Option<int> {
    if ranges == [] then None
    else if Assigned(ranges[0], p) then Some(ranges[0].end)
    else Target(ranges[1..], p)
  }

  lemma {:induction false} TargetIsEnd(ranges: seq<PartitionRange>, w: PartitionRange)
    requires DistinctRanges(ranges) && w in ranges && w.start < w.end
    ensures Target(ranges, w.partition) == Some(w.end)
  {
    if ranges[0] != w {
      TargetIsEnd(ranges[1..], w);
      var i :| 1 <= i < |ranges| && ranges[i] == w;
    }
  }

  /** One poll's effect on the records kept and the partitions still pending. */
  function Consume(ranges: seq<PartitionRange>, poll: Poll, records: seq<Row>, pending: set<int>): (seq<Row>, set<int>)
  {
    match poll
    case Message(r) =>
      var end := Target(ranges, r.partition);
      if end.None? then (records, pending)
      else if r.offset >= end.value then (records, pending - {r.partition})
      else (records + [r], if r.offset + 1 >= end.value then pending - {r.partition} else pending)
    case PartitionEof(p) => (records, pending - {p})
    case Transient => (records, pending)
  }

  ghost predicate Done(w: PartitionRange, pending: set<int>) {
    w.start < w.end && w.partition !in pending
  }

  lemma DoneBy(log: set<Row>, w: PartitionRange, polls: seq<Poll>, i: nat, out: seq<Row>, done: bool)
    requires LaneSoFar(log, w, polls, i, out, done) && ArrivedBelow(log, w, polls, i, w.end)
    ensures LaneSoFar(log, w, polls, i, out, true)
  {}

  lemma ConsumeKeeps(log: set<Row>, ranges: seq<PartitionRange>, polls: seq<Poll>, i: nat,
                     records: seq<Row>, pending: set<int>, w: PartitionRange)
    requires Keyed(log) && DistinctRanges(ranges) && i < |polls| && FaithfulAt(log, ranges, polls, i)
    requires w in ranges && LaneSoFar(log, w, polls, i, records, Done(w, pending))
    ensures var (records', pending') := Consume(ranges, polls[i], records, pending);
      LaneSoFar(log, w, polls, i + 1, records', Done(w, pending'))
  {
    var (records', pending') := Consume(ranges, polls[i], records, pending);
    match polls[i]
    case Message(r) =>
      var v :| v in ranges && Assigned(v, r.partition) && v.start <= r.offset &&
        ArrivedBelow(log, v, polls, i, r.offset);
      TargetIsEnd(ranges, v);
      if w.partition != r.partition {
        LaneIdle(log, w, polls, i, records, Done(w, pending));
        if r.offset < v.end { LaneIgnores(log, w, polls, i + 1, records, Done(w, pending), r); }
      } else {
        RangeUnique(ranges, v, w);
        if w.end <= r.offset {
          LaneIdle(log, w, polls, i, records, Done(w, pending));
          ArrivedBelowGrows(log, w, polls, i, r.offset);
          DoneBy(log, w, polls, i + 1, records, Done(w, pending));
        } else {
          LaneGrows(log, w, polls, i, records, Done(w, pending), r);
          if r.offset + 1 >= w.end {
            forall s | s in Span(log, w.partition, w.start, w.end) ensures Arrived(polls, i + 1, s) {
              ArrivedStep(polls, i, s);
              assert s.offset == r.offset ==> s == r;
              assert s.offset < r.offset ==> s in Span(log, w.partition, w.start, r.offset);
            }
            DoneBy(log, w, polls, i + 1, records', Done(w, pending));
          }
        }
      }
    case PartitionEof(p) =>
      var v :| v in ranges && Assigned(v, p) && ArrivedBelow(log, v, polls, i, v.end);
      LaneIdle(log, w, polls, i, records, Done(w, pending));
      if w.partition == p {
        RangeUnique(ranges, v, w);
        ArrivedBelowGrows(log, w, polls, i, w.end);
        DoneBy(log, w, polls, i + 1, records, Done(w, pending));
      }
    case Transient => LaneIdle(log, w, polls, i, records, Done(w, pending));
  }

  lemma LaneIgnores(log: set<Row>, w: PartitionRange, polls: seq<Poll>, i: nat, out: seq<Row>, done: bool, r: Row)
    requires LaneSoFar(log, w, polls, i, out, done) && r.partition != w.partition
    ensures LaneSoFar(log, w, polls, i, out + [r], done)
  {
    LaneAppend(out, [r], w.partition);
    assert Lane([r], w.partition) == [];
    assert Lane(out + [r], w.partition) == Lane(out, w.partition);
  }

  ghost predicate AllSoFar(log: set<Row>, ranges: seq<PartitionRange>, polls: seq<Poll>, i: nat, records: seq<Row>,
                           pending: set<int>)
  {
    forall w | w in ranges :: LaneSoFar(log, w, polls, i, records, Done(w, pending))
  }

  lemma ConsumeKeepsAll(log: set<Row>, ranges: seq<PartitionRange>, polls: seq<Poll>, i: nat, records: seq<Row>,
                        pending: set<int>)
    requires Keyed(log) && DistinctRanges(ranges) && i < |polls| && Faithful(log, ranges, polls)
    requires AllSoFar(log, ranges, polls, i, records, pending)
    ensures var (records', pending') := Consume(ranges, polls[i], records, pending);
      AllSoFar(log, ranges, polls, i + 1, records', pending')
  {
    assert FaithfulAt(log, ranges, polls, i);
    forall w | w in ranges
      ensures LaneSoFar(log, w, polls, i + 1, Consume(ranges, polls[i], records, pending).0,
                        Done(w, Consume(ranges, polls[i], records, pending).1))
    {
      ConsumeKeeps(log, ranges, polls, i, records, pending, w);
    }
  }

  function Live(ranges: seq<PartitionRange>): set<int> {
    set w | w in ranges && w.start < w.end :: w.partition
  }

  function Trivial(ranges: seq<PartitionRange>): set<int> {
    set w | w in ranges && w.start >= w.end :: w.partition
  }

  /** Wherever the loop stopped, the outcome is a sound scan. */
  lemma StoppedScanned(log: set<Row>, ranges: seq<PartitionRange>, polls: seq<Poll>, i: nat, records: seq<Row>,
                       pending: set<int>)
    requires Keyed(log) && DistinctRanges(ranges) && AllSoFar(log, ranges, polls, i, records, pending)
    ensures Scanned(log, ranges, FetchOutcome(records, (Live(ranges) - pending) + Trivial(ranges)))
  {
    var out := FetchOutcome(records, (Live(ranges) - pending) + Trivial(ranges));
    forall w | w in ranges ensures ScannedAt(log, w, out) {
      if w.start < w.end {
        forall v | v in ranges && v.partition == w.partition ensures v == w { RangeUnique(ranges, v, w); }
        LaneScanned(log, w, polls, i, out, Done(w, pending));
      } else {
        var lane := Lane(records, w.partition);
        assert forall r :: r !in lane;
        assert ToSet(lane) == Span(log, w.partition, w.start, w.start);
      }
    }
  }

  /** Takes in one poll result. */
  method Take(ranges: seq<PartitionRange>, poll: Poll, records: seq<Row>, pending: set<int>)
    returns (records': seq<Row>, pending': set<int>)
    ensures (records', pending') == Consume(ranges, poll, records, pending) && |records'| <= |records| + 1
  {
    records', pending' := records, pending;
    match poll {
      case Message(msg) =>
        var end := Target(ranges, msg.partition);
        if end.Some? {
          if msg.offset >= end.value {
            pending' := pending - {msg.partition};
          } else {
            records' := records + [msg];
            if msg.offset + 1 >= end.value {
              pending' := pending - {msg.partition};
            }
          }
        }
      case PartitionEof(p) => pending' := pending - {p};
      case Transient =>
    }
  }

  lemma StartsSoFar(log: set<Row>, ranges: seq<PartitionRange>, polls: seq<Poll>)
    ensures AllSoFar(log, ranges, polls, 0, [], Live(ranges))
  {}

  /** The poll that finishes a partition: its end mark, or a record at its target. */
  predicate Finishes(w: PartitionRange, poll: Poll) {
    poll == PartitionEof(w.partition) ||
      (poll.Message? && poll.row.partition == w.partition && w.end <= poll.row.offset + 1)
  }

  predicate FinishedBy(w: PartitionRange, polls: seq<Poll>, n: nat) {
    exists j | 0 <= j < n && j < |polls| :: Finishes(w, polls[j])
  }

  /** Pending are exactly the ranges nothing has finished yet. */
  ghost predicate PendingSo(ranges: seq<PartitionRange>, polls: seq<Poll>, n: nat, pending: set<int>) {
    && (forall w | w in ranges && w.start < w.end :: w.partition in pending <==> !FinishedBy(w, polls, n))
    && pending <= Live(ranges)
  }

  lemma PendingNext(ranges: seq<PartitionRange>, polls: seq<Poll>, n: nat, records: seq<Row>, pending: set<int>)
    requires DistinctRanges(ranges) && n < |polls| && PendingSo(ranges, polls, n, pending)
    ensures PendingSo(ranges, polls, n + 1, Consume(ranges, polls[n], records, pending).1)
  {
    forall w | w in ranges && w.start < w.end
      ensures w.partition in Consume(ranges, polls[n], records, pending).1 <==> !FinishedBy(w, polls, n + 1)
    {
      PendingOne(ranges, polls, n, records, pending, w);
    }
  }

  lemma PendingOne(ranges: seq<PartitionRange>, polls: seq<Poll>, n: nat, records: seq<Row>, pending: set<int>,
                   w: PartitionRange)
    requires DistinctRanges(ranges) && n < |polls| && w in ranges && w.start < w.end
    requires w.partition in pending <==> !FinishedBy(w, polls, n)
    ensures w.partition in Consume(ranges, polls[n], records, pending).1 <==> !FinishedBy(w, polls, n + 1)
  {
    TargetIsEnd(ranges, w);
    assert FinishedBy(w, polls, n + 1) <==> FinishedBy(w, polls, n) || Finishes(w, polls[n]);
  }

  /** What the first `n` polls leave. */
  function Consumed(ranges: seq<PartitionRange>, polls: seq<Poll>, n: nat): (seq<Row>, set<int>)
    requires n <= |polls|
  {
    if n == 0 then ([], Live(ranges)) else
    var (records, pending) := Consumed(ranges, polls, n - 1);
    Consume(ranges, polls[n - 1], records, pending)
  }

  /** What holds of the records and the partitions pending after `n` polls. */
  ghost predicate SoFar(log: set<Row>, ranges: seq<PartitionRange>, polls: seq<Poll>, n: nat,
                        state: (seq<Row>, set<int>))
  {
    AllSoFar(log, ranges, polls, n, state.0, state.1) && PendingSo(ranges, polls, n, state.1)
  }

  lemma SoFarNext(log: set<Row>, ranges: seq<PartitionRange>, polls: seq<Poll>, n: nat, state: (seq<Row>, set<int>),
                  state': (seq<Row>, set<int>))
    requires Keyed(log) && DistinctRanges(ranges) && Faithful(log, ranges, polls) && n < |polls|
    requires SoFar(log, ranges, polls, n, state) && state' == Consume(ranges, polls[n], state.0, state.1)
    ensures SoFar(log, ranges, polls, n + 1, state')
  {
    ConsumeKeepsAll(log, ranges, polls, n, state.0, state.1);
    PendingNext(ranges, polls, n, state.0, state.1);
  }

  lemma {:induction false} ConsumedOn(log: set<Row>, ranges: seq<PartitionRange>, polls: seq<Poll>, m: nat, n: nat)
    requires Keyed(log) && DistinctRanges(ranges) && Faithful(log, ranges, polls) && m <= n <= |polls|
    requires SoFar(log, ranges, polls, m, Consumed(ranges, polls, m))
    ensures SoFar(log, ranges, polls, n, Consumed(ranges, polls, n))
    decreases n - m
  {
    if m < n {
      SoFarNext(log, ranges, polls, m, Consumed(ranges, polls, m), Consumed(ranges, polls, m + 1));
      ConsumedOn(log, ranges, polls, m + 1, n);
    }
  }

  lemma ConsumedSoFar(log: set<Row>, ranges: seq<PartitionRange>, polls: seq<Poll>, n: nat)
    requires Keyed(log) && DistinctRanges(ranges) && Faithful(log, ranges, polls) && n <= |polls|
    ensures SoFar(log, ranges, polls, n, Consumed(ranges, polls, n))
  {
    StartsSoFar(log, ranges, polls);
    ConsumedOn(log, ranges, polls, 0, n);
  }

  /** The scan itself. `polls` is whatever the consumer produced before the deadline
      or a cancellation; the loop may stop earlier, once it has all it wants: after
      `n` polls. */
  method FetchRanges(ghost log: set<Row>, polls: seq<Poll>, ranges: seq<PartitionRange>, cap: nat)
    returns (out: FetchOutcome, n: nat)
    requires Keyed(log) && DistinctRanges(ranges) && Faithful(log, ranges, polls)
    ensures Scanned(log, ranges, out)
    ensures |out.records| <= cap && n <= |polls|
    ensures forall w | w in ranges :: w.partition in out.complete <==> w.end <= w.start || FinishedBy(w, polls, n)
    ensures n == |polls| || |out.records| == cap || forall w | w in ranges :: w.partition in out.complete
  {
    var records, pending;
    records, pending, n := PollUntil(polls, ranges, cap);
    ConsumedSoFar(log, ranges, polls, n);
    StoppedScanned(log, ranges, polls, n, records, pending);
    CompleteSo(ranges, polls, n, pending);
    out := FetchOutcome(records, (Live(ranges) - pending) + Trivial(ranges));
  }

  /** The poll loop: as many polls as it takes. */
  method PollUntil(polls: seq<Poll>, ranges: seq<PartitionRange>, cap: nat)
    returns (records: seq<Row>, pending: set<int>, n: nat)
    ensures n <= |polls| && |records| <= cap && (records, pending) == Consumed(ranges, polls, n)
    ensures n == |polls| || |records| == cap || pending == {}
  {
    records, pending := [], Live(ranges);
    n := 0;
    while n < |polls| && pending != {} && |records| < cap
      invariant 0 <= n <= |polls| && |records| <= cap && (records, pending) == Consumed(ranges, polls, n)
    {
      records, pending := Take(ranges, polls[n], records, pending);
      n := n + 1;
    }
  }

  lemma CompleteSo(ranges: seq<PartitionRange>, polls: seq<Poll>, n: nat, pending: set<int>)
    requires DistinctRanges(ranges) && PendingSo(ranges, polls, n, pending)
    ensures forall w | w in ranges ::
      w.partition in (Live(ranges) - pending) + Trivial(ranges) <==> w.end <= w.start || FinishedBy(w, polls, n)
    ensures pending == {} ==> forall w | w in ranges :: w.partition in (Live(ranges) - pending) + Trivial(ranges)
  {
    forall w | w in ranges
      ensures w.partition in (Live(ranges) - pending) + Trivial(ranges) <==> w.end <= w.start || FinishedBy(w, polls, n)
      ensures pending == {} ==> w.partition in (Live(ranges) - pending) + Trivial(ranges)
    {
      forall v | v in ranges && v.partition == w.partition ensures v == w { RangeUnique(ranges, v, w); }
    }
  }
}
