/**
 * Values every other module shares: records, directions, and the lane each
 * partition has in a sequence of records. A record is known by its partition and
 * offset; its timestamp may be missing and need not grow with the offset, so no
 * module concludes an offset order from timestamps.
 */
module Rows {

  datatype Option<+T> = None | Some(value: T)

  datatype Direction = Back | Forward

  /** One message. `body` stands for its decoded content. */
  datatype Row = Row(partition: int, offset: int, stamp: Option<int>, body: int)

  /** One stream of records per partition. */
  type Streams = map<int, seq<Row>>

  function Max(a: int, b: int): int { if a < b then b else a }

  function Min(a: int, b: int): int { if b < a then b else a }

  function Clamp(x: int, lo: int, hi: int): int {
    if x < lo then lo else if hi < x then hi else x
  }

  /** The records `m` holds for `p`; a partition without an entry holds none. */
  function At(m: Streams, p: int): seq<Row> {
    if p in m then m[p] else []
  }

  ghost function ToSet(s: seq<Row>): set<Row> {
    set r | r in s
  }

  function Reverse(s: seq<Row>): seq<Row> {
    seq(|s|, i requires 0 <= i < |s| => s[|s| - 1 - i])
  }

  /** Records of one partition, kept in the order they stand in `s`. */
  function Lane(s: seq<Row>, p: int): seq<Row> {
    if s == [] then [] else
    (if s[0].partition == p then [s[0]] else []) + Lane(s[1..], p)
  }

  /** The partitions with a record in `s`. */
  function Partitions(s: seq<Row>): set<int> {
    set r | r in s :: r.partition
  }

  predicate Ascending(s: seq<Row>) {
    forall i, j | 0 <= i < j < |s| :: s[i].offset < s[j].offset
  }

  predicate HasOffset(s: seq<Row>, offset: int) {
    exists i | 0 <= i < |s| :: s[i].offset == offset
  }

  predicate AllOf(s: seq<Row>, p: int) {
    forall i | 0 <= i < |s| :: s[i].partition == p
  }

  /** No two records share a partition and an offset: Kafka's own identity. */
  ghost predicate Keyed(s: set<Row>) {
    forall a, b | a in s && b in s && a.partition == b.partition && a.offset == b.offset :: a == b
  }

  /** The records of partition `p` with offsets in `[lo, hi)`. */
  ghost function Span(log: set<Row>, p: int, lo: int, hi: int): set<Row> {
    set r | r in log && r.partition == p && lo <= r.offset < hi
  }

  lemma ReverseMember(s: seq<Row>, r: Row)
    ensures r in Reverse(s) <==> r in s
  {
    if r in s {
      var i :| 0 <= i < |s| && s[i] == r;
      assert Reverse(s)[|s| - 1 - i] == r;
    }
  }

  lemma ReverseFront(s: seq<Row>, i: nat)
    requires i <= |s|
    ensures Reverse(s)[|s| - i..] == Reverse(s[..i])
  {}

  lemma ReverseBack(s: seq<Row>, i: nat)
    requires i <= |s|
    ensures Reverse(s)[..|s| - i] == Reverse(s[i..])
  {}

  lemma LaneFirst(r: Row, rest: seq<Row>, p: int)
    ensures Lane([r] + rest, p) == (if r.partition == p then [r] else []) + Lane(rest, p)
  {
    assert ([r] + rest)[1..] == rest;
  }

  lemma {:induction false} LaneAppend(a: seq<Row>, b: seq<Row>, p: int)
    ensures Lane(a + b, p) == Lane(a, p) + Lane(b, p)
  {
    if a == [] {
      assert a + b == b;
    } else {
      var r, rest := a[0], a[1..];
      LaneAppend(rest, b, p);
      LaneFirst(r, rest, p);
      LaneFirst(r, rest + b, p);
      assert a == [r] + rest && a + b == [r] + (rest + b);
    }
  }

  lemma {:induction false} LaneMembers(s: seq<Row>, p: int)
    ensures AllOf(Lane(s, p), p)
    ensures |Lane(s, p)| <= |s|
    ensures forall r :: r in Lane(s, p) <==> r in s && r.partition == p
  {
    if s != [] {
      LaneMembers(s[1..], p);
      assert forall r :: r in s <==> r == s[0] || r in s[1..];
    }
  }

  lemma {:induction false} LaneOfOwn(s: seq<Row>, p: int)
    requires AllOf(s, p)
    ensures Lane(s, p) == s
    ensures forall q | q != p :: Lane(s, q) == []
  {
    if s != [] {
      LaneOfOwn(s[1..], p);
      assert s == [s[0]] + s[1..];
    }
  }

  /** A lane that ascends is pinned down by its set of records. */
  lemma {:induction false} AscendingUnique(a: seq<Row>, b: seq<Row>)
    requires Ascending(a) && Ascending(b) && ToSet(a) == ToSet(b)
    ensures a == b
  {
    assert forall r :: r in a <==> r in ToSet(a);
    assert forall r :: r in b <==> r in ToSet(b);
    assert |a| > 0 ==> a[0] in b;
    assert |b| > 0 ==> b[0] in a;
    if a != [] {
      assert a[0] == b[0];
      forall r ensures r in ToSet(a[1..]) <==> r in ToSet(b[1..]) {
        assert r in a <==> r == a[0] || r in a[1..];
        assert r in b <==> r == b[0] || r in b[1..];
      }
      AscendingUnique(a[1..], b[1..]);
      assert a == [a[0]] + a[1..] && b == [b[0]] + b[1..];
    }
  }
}
