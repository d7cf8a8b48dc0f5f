/**
 * The k-way merge by timestamp, stated once for the three loops that run it: at
 * every step exactly one non-empty stream has the head that goes next.
 */
module MergeOrder {
  import opened Rows
  import opened Doubles

  /** Who runs the merge: the two sides read timestamps differently. */
  datatype Side = Server | Client

  const MIN_I64: int := -0x8000_0000_0000_0000

  datatype Order = Order(side: Side, direction: Direction)

  /** The server compares 64-bit numbers; the browser compares what parsing made of them. */
  predicate StampLess(side: Side, a: Option<int>, b: Option<int>) {
    match side
    case Server => ServerStamp(a) < ServerStamp(b)
    case Client => b.Some? && (a.Some? ==> AsDouble(a.value) < AsDouble(b.value))
  }

  function ServerStamp(a: Option<int>): int {
    if a.Some? then a.value else MIN_I64
  }

  /** `a` is taken before `b`: newer first going back, older first going forward,
      the smaller partition on equal stamps. */
  predicate Ahead(o: Order, a: Row, b: Row) {
    if StampLess(o.side, a.stamp, b.stamp) then o.direction.Forward?
    else if StampLess(o.side, b.stamp, a.stamp) then o.direction.Back?
    else a.partition < b.partition
  }

  ghost predicate Labelled(m: Streams) {
    forall p | p in m :: AllOf(m[p], p)
  }

  ghost predicate Drained(m: Streams) {
    forall p | p in m :: m[p] == []
  }

  ghost predicate Leads(o: Order, m: Streams, p: int) {
    p in m && m[p] != [] && forall q | q in m && m[q] != [] && q != p :: Ahead(o, m[p][0], m[q][0])
  }

  function Pop(m: Streams, p: int): Streams
    requires p in m && m[p] != []
  {
    m[p := m[p][1..]]
  }

  ghost function Size(m: Streams): nat
    decreases |m|
  {
    if forall p :: p !in m then 0 else
    var p :| p in m;
    |m[p]| + Size(m - {p})
  }

  lemma {:induction false} SizeSplit(m: Streams, p: int)
    requires p in m
    ensures Size(m) == |m[p]| + Size(m - {p})
    decreases |m|
  {
    var q :| q in m && Size(m) == |m[q]| + Size(m - {q});
    if q != p {
      SizeSplit(m - {q}, p);
      SizeSplit(m - {p}, q);
      assert m - {q} - {p} == m - {p} - {q};
    }
  }

  lemma SizePop(m: Streams, p: int)
    requires p in m && m[p] != []
    ensures Size(Pop(m, p)) == Size(m) - 1
  {
    SizeSplit(m, p);
    SizeSplit(Pop(m, p), p);
    assert Pop(m, p) - {p} == m - {p};
  }

  lemma {:induction false} LeaderExists(o: Order, m: Streams)
    requires Labelled(m) && !Drained(m)
    ensures exists p :: Leads(o, m, p)
    decreases |m|
  {
    var p :| p in m && m[p] != [];
    var rest := m - {p};
    if Drained(rest) {
      assert forall q | q in m && q != p :: q in rest;
      assert Leads(o, m, p);
    } else {
      LeaderExists(o, rest);
      var q :| Leads(o, rest, q);
      assert m[p][0].partition == p && m[q][0].partition == q;
      var w := if Ahead(o, m[q][0], m[p][0]) then q else p;
      forall r | r in m && m[r] != [] && r != w ensures Ahead(o, m[w][0], m[r][0]) {
        assert m[r][0].partition == r;
        if r != p && r != q { assert r in rest && Ahead(o, m[q][0], m[r][0]); }
      }
      assert Leads(o, m, w);
    }
  }

  lemma LeaderUnique(o: Order, m: Streams, p: int, q: int)
    requires Labelled(m) && Leads(o, m, p) && Leads(o, m, q)
    ensures p == q
  {
    assert m[p][0].partition == p && m[q][0].partition == q;
    assert p == q || Ahead(o, m[p][0], m[q][0]);
  }

  /** The one stream whose head goes next. */
  ghost function Best(o: Order, m: Streams): (p: int)
    requires Labelled(m) && !Drained(m)
    ensures Leads(o, m, p)
  {
    LeaderExists(o, m);
    var p :| Leads(o, m, p);
    p
  }

  ghost function Merge(o: Order, m: Streams): seq<Row>
    requires Labelled(m)
    decreases Size(m)
  {
    if Drained(m) then [] else
    var p := Best(o, m);
    SizePop(m, p);
    [m[p][0]] + Merge(o, Pop(m, p))
  }

  /** Whoever finds a leading stream has found the merge's next record. */
  lemma MergeStep(o: Order, m: Streams, p: int)
    requires Labelled(m) && Leads(o, m, p)
    ensures Merge(o, m) == [m[p][0]] + Merge(o, Pop(m, p))
  {
    LeaderUnique(o, m, p, Best(o, m));
  }

  /** The merge loses nothing, adds nothing and keeps each stream's own order. */
  lemma {:induction false} MergeKeepsLanes(o: Order, m: Streams, p: int)
    requires Labelled(m)
    ensures Lane(Merge(o, m), p) == At(m, p)
    decreases Size(m)
  {
    if !Drained(m) {
      var q := Best(o, m);
      SizePop(m, q);
      MergeKeepsLanes(o, Pop(m, q), p);
      var out := Merge(o, m);
      assert out[0] == m[q][0] && out[1..] == Merge(o, Pop(m, q));
      assert m[q] == [m[q][0]] + m[q][1..];
    }
  }

  lemma {:induction false} MergeLength(o: Order, m: Streams)
    requires Labelled(m)
    ensures |Merge(o, m)| == Size(m)
    decreases Size(m)
  {
    if Drained(m) {
      DrainedSize(m);
    } else {
      SizePop(m, Best(o, m));
      MergeLength(o, Pop(m, Best(o, m)));
    }
  }

  lemma {:induction false} DrainedSize(m: Streams)
    requires Drained(m)
    ensures Size(m) == 0
    decreases |m|
  {
    if exists p :: p in m {
      var p :| p in m && Size(m) == |m[p]| + Size(m - {p});
      DrainedSize(m - {p});
    }
  }

  /** Partitions without records play no part. */
  lemma {:induction false} MergeExtensional(o: Order, m: Streams, n: Streams)
    requires Labelled(m) && Labelled(n)
    requires forall p :: At(m, p) == At(n, p)
    ensures Merge(o, m) == Merge(o, n)
    decreases Size(m)
  {
    if Drained(m) {
      forall p | p in n ensures n[p] == [] { assert At(m, p) == At(n, p); }
    } else {
      var p := Best(o, m);
      assert At(m, p) == At(n, p);
      forall q | q in n && n[q] != [] && q != p ensures Ahead(o, n[p][0], n[q][0]) {
        assert At(m, q) == At(n, q);
      }
      MergeStep(o, n, p);
      SizePop(m, p);
      forall q ensures At(Pop(m, p), q) == At(Pop(n, p), q) { assert At(m, q) == At(n, q); }
      MergeExtensional(o, Pop(m, p), Pop(n, p));
    }
  }

  /** How many records of `p` are among `taken`. */
  function Share(taken: seq<Row>, p: int): nat {
    |Lane(taken, p)|
  }

  lemma ShareBound(o: Order, m: Streams, k: nat, p: int)
    requires Labelled(m) && k <= |Merge(o, m)|
    ensures Share(Merge(o, m)[..k], p) <= |At(m, p)|
    ensures Lane(Merge(o, m)[..k], p) == At(m, p)[..Share(Merge(o, m)[..k], p)]
    ensures Lane(Merge(o, m)[k..], p) == At(m, p)[Share(Merge(o, m)[..k], p)..]
  {
    var out := Merge(o, m);
    assert out == out[..k] + out[k..];
    LaneAppend(out[..k], out[k..], p);
    MergeKeepsLanes(o, m, p);
  }

  lemma ShareAppend(taken: seq<Row>, r: Row, p: int)
    ensures Share(taken + [r], p) == Share(taken, p) + if p == r.partition then 1 else 0
  {
    LaneAppend(taken, [r], p);
    assert Lane([r], p) == if p == r.partition then [r] else [];
  }

  /** The `i`-th merged record is the first of its stream not taken before. */
  lemma MergedAt(o: Order, m: Streams, i: nat)
    requires Labelled(m) && i < |Merge(o, m)|
    ensures var out := Merge(o, m);
      Share(out[..i], out[i].partition) < |At(m, out[i].partition)| &&
      At(m, out[i].partition)[Share(out[..i], out[i].partition)] == out[i]
  {
    var out := Merge(o, m);
    var p := out[i].partition;
    assert out[i..] == [out[i]] + out[i + 1..];
    LaneAppend([out[i]], out[i + 1..], p);
    assert Lane([out[i]], p) == [out[i]];
    ShareBound(o, m, i, p);
    assert Lane(out[i..], p)[0] == out[i];
  }

  lemma ShareStep(o: Order, m: Streams, k: nat, q: int)
    requires Labelled(m) && !Drained(m) && 0 < k <= |Merge(o, m)|
    ensures k - 1 <= |Merge(o, Pop(m, Best(o, m)))|
    ensures Share(Merge(o, m)[..k], q) ==
            Share(Merge(o, Pop(m, Best(o, m)))[..k - 1], q) + (if q == Best(o, m) then 1 else 0)
  {
    var p := Best(o, m);
    var out, rest := Merge(o, m), Merge(o, Pop(m, p));
    assert out[..k] == [m[p][0]] + rest[..k - 1];
    assert out[..k][1..] == rest[..k - 1];
    assert m[p][0].partition == p;
  }

  /** `left` is what `m` holds once the records `taken` are gone from its heads. */
  ghost predicate LeftBy(m: Streams, taken: seq<Row>, left: Streams) {
    forall p :: Share(taken, p) <= |At(m, p)| && At(left, p) == At(m, p)[Share(taken, p)..]
  }

  /** `kept` is what the records `taken` amount to in each stream of `m`. */
  ghost predicate TakenBy(m: Streams, taken: seq<Row>, kept: Streams) {
    forall p :: Share(taken, p) <= |At(m, p)| && At(kept, p) == At(m, p)[..Share(taken, p)]
  }

  lemma LeftByNext(o: Order, m: Streams, k: nat, left: Streams)
    requires Labelled(m) && !Drained(m) && 0 < k <= |Merge(o, m)| && LeftBy(m, Merge(o, m)[..k], left)
    ensures k - 1 <= |Merge(o, Pop(m, Best(o, m)))|
    ensures LeftBy(Pop(m, Best(o, m)), Merge(o, Pop(m, Best(o, m)))[..k - 1], left)
  {
    var n := Pop(m, Best(o, m));
    ShareStep(o, m, k, 0);
    var t, u := Merge(o, m)[..k], Merge(o, n)[..k - 1];
    forall p ensures Share(u, p) <= |At(n, p)| && At(left, p) == At(n, p)[Share(u, p)..] {
      ShareStep(o, m, k, p);
      assert Share(t, p) <= |At(m, p)| && At(left, p) == At(m, p)[Share(t, p)..];
    }
  }

  /** Merging the leftovers continues the same output. */
  lemma {:induction false} MergeResumes(o: Order, m: Streams, k: nat, left: Streams)
    requires Labelled(m) && Labelled(left) && k <= |Merge(o, m)| && LeftBy(m, Merge(o, m)[..k], left)
    ensures Merge(o, m)[k..] == Merge(o, left)
    decreases k
  {
    if k == 0 {
      assert Merge(o, m)[..0] == [];
      forall p ensures At(m, p) == At(left, p) { assert Share([], p) == 0; }
      MergeExtensional(o, m, left);
    } else {
      var n := Pop(m, Best(o, m));
      assert Merge(o, m)[k..] == Merge(o, n)[k - 1..];
      LeftByNext(o, m, k, left);
      MergeResumes(o, n, k - 1, left);
    }
  }

  lemma TakenHeads(o: Order, m: Streams, k: nat, kept: Streams, p: int)
    requires Labelled(m) && Labelled(kept) && 0 < k <= |Merge(o, m)| && TakenBy(m, Merge(o, m)[..k], kept)
    requires !Drained(m) && p == Best(o, m)
    ensures Leads(o, kept, p) && kept[p][0] == m[p][0]
  {
    var t := Merge(o, m)[..k];
    ShareStep(o, m, k, p);
    assert At(kept, p) == At(m, p)[..Share(t, p)];
    forall q | q in kept && kept[q] != [] && q != p ensures Ahead(o, kept[p][0], kept[q][0]) {
      assert At(kept, q) == At(m, q)[..Share(t, q)];
    }
  }

  lemma TakenByNext(o: Order, m: Streams, k: nat, kept: Streams, p: int)
    requires Labelled(m) && 0 < k <= |Merge(o, m)| && TakenBy(m, Merge(o, m)[..k], kept)
    requires !Drained(m) && p == Best(o, m) && p in kept && kept[p] != []
    ensures k - 1 <= |Merge(o, Pop(m, p))|
    ensures TakenBy(Pop(m, p), Merge(o, Pop(m, p))[..k - 1], Pop(kept, p))
  {
    var n, next := Pop(m, p), Pop(kept, p);
    ShareStep(o, m, k, 0);
    var t, u := Merge(o, m)[..k], Merge(o, n)[..k - 1];
    forall q ensures Share(u, q) <= |At(n, q)| && At(next, q) == At(n, q)[..Share(u, q)] {
      ShareStep(o, m, k, q);
      assert Share(t, q) <= |At(m, q)| && At(kept, q) == At(m, q)[..Share(t, q)];
    }
  }

  /** Merging only what the first `k` steps took gives those same `k` records. */
  lemma {:induction false} MergeOfTaken(o: Order, m: Streams, k: nat, kept: Streams)
    requires Labelled(m) && Labelled(kept) && k <= |Merge(o, m)| && TakenBy(m, Merge(o, m)[..k], kept)
    ensures Merge(o, m)[..k] == Merge(o, kept)
    decreases k
  {
    if k == 0 {
      assert Merge(o, m)[..0] == [];
      forall p | p in kept ensures kept[p] == [] {
        assert Share([], p) == 0 && At(kept, p) == At(m, p)[..Share([], p)];
      }
    } else {
      var p := Best(o, m);
      TakenHeads(o, m, k, kept, p);
      MergeStep(o, kept, p);
      TakenByNext(o, m, k, kept, p);
      MergeOfTaken(o, Pop(m, p), k - 1, Pop(kept, p));
      assert Merge(o, m)[..k] == [m[p][0]] + Merge(o, Pop(m, p))[..k - 1];
    }
  }

  function FirstOf(s: seq<Row>, n: nat): seq<Row> {
    if n < |s| then s[..n] else s
  }

  /** `m` holds the heads of `n`'s streams, at least `k` of each that it cuts short. */
  ghost predicate Heads(m: Streams, n: Streams, k: nat) {
    forall p :: At(m, p) <= At(n, p) && (At(m, p) == At(n, p) || k <= |At(m, p)|)
  }

  lemma HeadsLead(o: Order, m: Streams, n: Streams, k: nat, p: int)
    requires Labelled(m) && Labelled(n) && Heads(m, n, k) && 0 < k && Leads(o, n, p)
    ensures Leads(o, m, p) && m[p][0] == n[p][0] && Heads(Pop(m, p), Pop(n, p), k - 1)
  {
    assert At(m, p) <= At(n, p) && (At(m, p) == At(n, p) || k <= |At(m, p)|);
    forall q | q in m && m[q] != [] && q != p ensures Ahead(o, m[p][0], m[q][0]) {
      assert At(m, q) <= At(n, q);
      assert Ahead(o, n[p][0], n[q][0]);
    }
    forall q
      ensures At(Pop(m, p), q) <= At(Pop(n, p), q)
      ensures At(Pop(m, p), q) == At(Pop(n, p), q) || k - 1 <= |At(Pop(m, p), q)|
    {
      assert At(m, q) <= At(n, q) && (At(m, q) == At(n, q) || k <= |At(m, q)|);
    }
  }

  /** The first `k` records of a merge depend on the first `k` of each stream only. */
  lemma {:induction false} MergeOfHeads(o: Order, m: Streams, n: Streams, k: nat)
    requires Labelled(m) && Labelled(n) && Heads(m, n, k)
    ensures FirstOf(Merge(o, m), k) == FirstOf(Merge(o, n), k)
    decreases k
  {
    if k == 0 {
    } else if Drained(n) {
      forall p | p in m ensures m[p] == [] { assert At(m, p) <= At(n, p); }
    } else {
      var p := Best(o, n);
      HeadsLead(o, m, n, k, p);
      MergeStep(o, m, p);
      MergeOfHeads(o, Pop(m, p), Pop(n, p), k - 1);
      FirstOfNext(m[p][0], Merge(o, Pop(m, p)), k);
      FirstOfNext(m[p][0], Merge(o, Pop(n, p)), k);
    }
  }

  lemma FirstOfNext(r: Row, s: seq<Row>, k: nat)
    requires 0 < k
    ensures FirstOf([r] + s, k) == [r] + FirstOf(s, k - 1)
  {}
}
