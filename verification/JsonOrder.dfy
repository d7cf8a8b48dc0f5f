/**
 * When the order a parser holds an object's entries in can matter: exactly when the
 * value compared with has clashing keys whose values differ.
 */
module JsonOrder {
  import opened JsonEquality

  /** Keys that differ only in case carry equal values, at every level. */
  predicate Steady(lower: Lower, a: Json)
    decreases a
  {
    match a
    case Arr(x) => forall i | 0 <= i < |x| :: Steady(lower, x[i])
    case Obj(x) =>
      && (forall i | 0 <= i < |x| :: Steady(lower, x[i].value))
      && forall i, j | 0 <= i < |x| && 0 <= j < |x| && lower(x[i].key) == lower(x[j].key) ::
           JsonEq(lower, x[i].value, x[j].value)
    case _ => true
  }

  lemma {:induction false} DistinctIsSteady(lower: Lower, a: Json)
    requires CaseDistinct(lower, a)
    ensures Steady(lower, a)
    decreases a
  {
    match a
    case Arr(x) => forall i | 0 <= i < |x| ensures Steady(lower, x[i]) { DistinctIsSteady(lower, x[i]); }
    case Obj(x) =>
      forall i | 0 <= i < |x| ensures Steady(lower, x[i].value) && JsonEq(lower, x[i].value, x[i].value) {
        DistinctIsSteady(lower, x[i].value);
        Reflexive(lower, x[i].value);
      }
    case _ =>
  }

  // ---- steady values give one verdict --------------------------------------------------

  /** The entry of `y'` a key finds, and an entry of `y` that is the same. */
  lemma FoundAgain(lower: Lower, y: seq<Entry>, y': seq<Entry>, k: string) returns (g: nat)
    requires SameJson(Obj(y), Obj(y')) && FindKey(lower, y, k) < |y|
    ensures FindKey(lower, y', k) < |y'| && g < |y| && lower(y[g].key) == k
    ensures SameJson(y[g].value, y'[FindKey(lower, y', k)].value)
  {
    assert SameEntryIn(y[FindKey(lower, y, k)], y');
    g := SameEntry(y, y', FindKey(lower, y', k));
  }

  lemma {:induction false} Verdict(lower: Lower, a: Json, b: Json, a': Json, b': Json)
    requires SameJson(a, a') && SameJson(b, b') && Steady(lower, b) && JsonEq(lower, a, b)
    ensures JsonEq(lower, a', b')
    decreases a
  {
    match (a, b, a', b')
    case (Arr(x), Arr(y), Arr(x'), Arr(y')) =>
      forall i | 0 <= i < |x| ensures JsonEq(lower, x'[i], y'[i]) { Verdict(lower, x[i], y[i], x'[i], y'[i]); }
    case (Obj(x), Obj(y), Obj(x'), Obj(y')) =>
      forall i' | 0 <= i' < |x'| ensures EntryIn(lower, x'[i'], y') {
        var i := SameEntry(x, x', i');
        assert EntryIn(lower, x[i], y);
        var k := lower(x[i].key);
        var g := FoundAgain(lower, y, y', k);
        Transitive(lower, x[i].value, y[FindKey(lower, y, k)].value, y[g].value);
        Verdict(lower, x[i].value, y[g].value, x'[i'].value, y'[FindKey(lower, y', k)].value);
      }
    case (_, _, _, _) =>
  }

  lemma {:induction false} SameKeepsSteady(lower: Lower, b: Json, b': Json)
    requires SameJson(b, b') && Steady(lower, b)
    ensures Steady(lower, b')
    decreases b
  {
    match (b, b')
    case (Arr(y), Arr(y')) =>
      forall i | 0 <= i < |y'| ensures Steady(lower, y'[i]) { SameKeepsSteady(lower, y[i], y'[i]); }
    case (Obj(y), Obj(y')) =>
      forall i' | 0 <= i' < |y'| ensures Steady(lower, y'[i'].value) {
        var i := SameEntry(y, y', i');
        SameKeepsSteady(lower, y[i].value, y'[i'].value);
      }
      forall i', j' | 0 <= i' < |y'| && 0 <= j' < |y'| && lower(y'[i'].key) == lower(y'[j'].key)
        ensures JsonEq(lower, y'[i'].value, y'[j'].value)
      {
        var i := SameEntry(y, y', i');
        var j := SameEntry(y, y', j');
        Verdict(lower, y[i].value, y[j].value, y'[i'].value, y'[j'].value);
      }
    case (_, _) =>
  }

  /** Whatever is compared with a steady value, and whatever orders each side holds the
      entries in, the verdict is one. */
  lemma SteadyVerdict(lower: Lower, a: Json, b: Json, a': Json, b': Json)
    requires SameJson(a, a') && SameJson(b, b') && Steady(lower, b)
    ensures JsonEq(lower, a, b) <==> JsonEq(lower, a', b')
  {
    if JsonEq(lower, a, b) { Verdict(lower, a, b, a', b'); }
    if JsonEq(lower, a', b') {
      SameSymmetric(a, a');
      SameSymmetric(b, b');
      SameKeepsSteady(lower, b, b');
      Verdict(lower, a', b', a, b);
    }
  }

  lemma {:induction false} SteadyReflexive(lower: Lower, a: Json)
    requires Steady(lower, a)
    ensures JsonEq(lower, a, a)
    decreases a
  {
    match a
    case Arr(x) => forall i | 0 <= i < |x| ensures JsonEq(lower, x[i], x[i]) { SteadyReflexive(lower, x[i]); }
    case Obj(x) =>
      forall i | 0 <= i < |x| ensures EntryIn(lower, x[i], x) {
        assert lower(x[FindKey(lower, x, lower(x[i].key))].key) == lower(x[i].key);
      }
    case _ =>
  }

  // ---- any other value can be read two ways ----------------------------------------------

  /** A value that equals `b` as `b` stands: every key carries what its kind finds first. */
  function Likeness(lower: Lower, b: Json): Json
    decreases b
  {
    match b
    case Arr(y) => Arr(seq(|y|, i requires 0 <= i < |y| => Likeness(lower, y[i])))
    case Obj(y) => Obj(seq(|y|, i requires 0 <= i < |y| => Entry(y[i].key, Likeness(lower, FirstOf(lower, y, i)))))
    case _ => b
  }

  function FirstOf(lower: Lower, y: seq<Entry>, i: nat): (v: Json)
    requires i < |y|
    ensures v < Obj(y)
  {
    y[FindKey(lower, y, lower(y[i].key))].value
  }

  lemma {:induction false} LikenessEqual(lower: Lower, b: Json)
    ensures JsonEq(lower, Likeness(lower, b), b)
    decreases b
  {
    match b
    case Arr(y) =>
      forall i | 0 <= i < |y| ensures JsonEq(lower, Likeness(lower, b).items[i], y[i]) { LikenessEqual(lower, y[i]); }
    case Obj(y) =>
      forall i | 0 <= i < |y| ensures EntryIn(lower, Likeness(lower, b).entries[i], y) {
        LikenessEqual(lower, FirstOf(lower, y, i));
      }
    case _ =>
  }

  /** An object as a parser leaves it, keys and values. */
  predicate Keyed(a: Json) {
    SameJson(a, a)
  }

  lemma KeyedEntries(y: seq<Entry>)
    requires Keyed(Obj(y))
    ensures ExactKeys(y) && forall i | 0 <= i < |y| :: Keyed(y[i].value)
  {
    forall i | 0 <= i < |y| ensures Keyed(y[i].value) {
      assert SameEntryIn(y[i], y);
      var j :| 0 <= j < |y| && y[j].key == y[i].key && SameJson(y[i].value, y[j].value);
      assert i == j;
    }
  }

  lemma EntriesKeyed(y: seq<Entry>)
    requires ExactKeys(y) && forall i | 0 <= i < |y| :: Keyed(y[i].value)
    ensures Keyed(Obj(y))
  {
    forall i | 0 <= i < |y| ensures SameEntryIn(y[i], y) {}
  }

  lemma {:induction false} LikenessKeyed(lower: Lower, b: Json)
    requires Keyed(b)
    ensures Keyed(Likeness(lower, b))
    decreases b
  {
    match b
    case Arr(y) =>
      var x := Likeness(lower, b).items;
      forall i | 0 <= i < |x| ensures SameJson(x[i], x[i]) { LikenessKeyed(lower, y[i]); }
    case Obj(y) =>
      KeyedEntries(y);
      var x := Likeness(lower, b).entries;
      forall i | 0 <= i < |x| ensures Keyed(x[i].value) { LikenessKeyed(lower, FirstOf(lower, y, i)); }
      EntriesKeyed(x);
    case _ =>
  }

  /** The entries with the `i`-th moved to the front and given the value `w`. */
  function Fronted(y: seq<Entry>, i: nat, w: Json): seq<Entry>
    requires i < |y|
  {
    [Entry(y[i].key, w)] + (y[..i] + y[i + 1..])
  }

  lemma FrontedSame(y: seq<Entry>, i: nat, w: Json)
    requires Keyed(Obj(y)) && i < |y| && SameJson(y[i].value, w)
    ensures SameJson(Obj(y), Obj(Fronted(y, i, w)))
  {
    KeyedEntries(y);
    var z := Fronted(y, i, w);
    forall k, l | 0 <= k < l < |z| ensures z[k].key != z[l].key {
      assert z[l].key == y[if l <= i then l - 1 else l].key;
      assert k > 0 ==> z[k].key == y[if k <= i then k - 1 else k].key;
    }
    forall k | 0 <= k < |y| ensures SameEntryIn(y[k], z) {
      var at := if k == i then 0 else if k < i then k + 1 else k;
      assert z[at].key == y[k].key && SameJson(y[k].value, z[at].value);
    }
  }

  /** A message that meets every entry but those of the first one's kind, which carry `c`. */
  function Probe(lower: Lower, y: seq<Entry>, c: Json): seq<Entry> {
    seq(|y|, i requires 0 <= i < |y| =>
      Entry(y[i].key, if lower(y[i].key) == lower(y[0].key) then c else Likeness(lower, FirstOf(lower, y, i))))
  }

  /** So what it comes to is settled by the first value alone. */
  lemma ProbeVerdict(lower: Lower, y: seq<Entry>, c: Json, w: Json)
    requires y != []
    ensures JsonEq(lower, Obj(Probe(lower, y, c)), Obj([Entry(y[0].key, w)] + y[1..])) <==> JsonEq(lower, c, w)
  {
    var x, z := Probe(lower, y, c), [Entry(y[0].key, w)] + y[1..];
    forall i | 0 <= i < |x| ensures EntryIn(lower, x[i], z) <==>
      (lower(y[i].key) != lower(y[0].key) || JsonEq(lower, c, w))
    {
      var k := lower(y[i].key);
      if k == lower(y[0].key) {
        assert FindKey(lower, z, k) == 0;
      } else {
        FindBehind(lower, y, z, k);
        LikenessEqual(lower, FirstOf(lower, y, i));
      }
    }
    if JsonEq(lower, Obj(x), Obj(z)) { assert EntryIn(lower, x[0], z); }
  }

  lemma FindBehind(lower: Lower, y: seq<Entry>, z: seq<Entry>, k: string)
    requires y != [] && z != [] && z[0].key == y[0].key && z[1..] == y[1..] && lower(y[0].key) != k
    ensures FindKey(lower, z, k) == FindKey(lower, y, k) && FindKey(lower, y, k) > 0
    ensures FindKey(lower, y, k) < |y| ==> z[FindKey(lower, y, k)] == y[FindKey(lower, y, k)]
  {
    var i := FindKey(lower, y, k);
    if i < |y| { assert z[1..][i - 1] == y[1..][i - 1]; }
  }

  lemma ProbeKeyed(lower: Lower, y: seq<Entry>, c: Json)
    requires Keyed(Obj(y)) && Keyed(c)
    ensures Keyed(Obj(Probe(lower, y, c)))
  {
    KeyedEntries(y);
    var x := Probe(lower, y, c);
    forall i | 0 <= i < |x| ensures Keyed(x[i].value) { LikenessKeyed(lower, FirstOf(lower, y, i)); }
    EntriesKeyed(x);
  }

  /** Two readings of `b` that `a` tells apart. */
  predicate Apart(lower: Lower, b: Json, a: Json, b1: Json, b2: Json) {
    SameJson(b, b1) && SameJson(b, b2) && Keyed(a) && JsonEq(lower, a, b1) != JsonEq(lower, a, b2)
  }

  lemma {:induction false} ReadTwoWays(lower: Lower, b: Json) returns (a: Json, b1: Json, b2: Json)
    requires Keyed(b) && !Steady(lower, b)
    ensures Apart(lower, b, a, b1, b2)
    decreases b
  {
    match b
    case Arr(y) =>
      var i :| 0 <= i < |y| && !Steady(lower, y[i]);
      assert Keyed(y[i]);
      var c, w1, w2 := ReadTwoWays(lower, y[i]);
      a, b1, b2 := ItemApart(lower, y, i, c, w1, w2);
    case Obj(y) =>
      KeyedEntries(y);
      if i :| 0 <= i < |y| && !Steady(lower, y[i].value) {
        var c, w1, w2 := ReadTwoWays(lower, y[i].value);
        a, b1, b2 := EntryApart(lower, y, i, c, w1, w2);
      } else {
        var i, j :| 0 <= i < |y| && 0 <= j < |y| && lower(y[i].key) == lower(y[j].key) &&
          !JsonEq(lower, y[i].value, y[j].value);
        a, b1, b2 := ClashApart(lower, y, i, j);
      }
  }

  lemma ItemApart(lower: Lower, y: seq<Json>, i: nat, c: Json, w1: Json, w2: Json) returns (a: Json, b1: Json, b2: Json)
    requires Keyed(Arr(y)) && i < |y| && Apart(lower, y[i], c, w1, w2)
    ensures Apart(lower, Arr(y), a, b1, b2)
  {
    LikenessKeyed(lower, Arr(y));
    LikenessEqual(lower, Arr(y));
    var x := Likeness(lower, Arr(y)).items;
    a, b1, b2 := Arr(x[i := c]), Arr(y[i := w1]), Arr(y[i := w2]);
    forall k | 0 <= k < |y| ensures SameJson(y[k], y[k]) && SameJson(x[k], x[k]) && JsonEq(lower, x[k], y[k]) {}
    ItemVerdict(lower, x, y, i, c, w1);
    ItemVerdict(lower, x, y, i, c, w2);
  }

  lemma ItemVerdict(lower: Lower, x: seq<Json>, y: seq<Json>, i: nat, c: Json, w: Json)
    requires |x| == |y| && i < |y| && forall k | 0 <= k < |y| :: JsonEq(lower, x[k], y[k])
    ensures JsonEq(lower, Arr(x[i := c]), Arr(y[i := w])) <==> JsonEq(lower, c, w)
  {
    var p, q := x[i := c], y[i := w];
    forall k | 0 <= k < |y| ensures JsonEq(lower, p[k], q[k]) <==> k != i || JsonEq(lower, c, w) {}
    if JsonEq(lower, Arr(p), Arr(q)) { assert JsonEq(lower, p[i], q[i]); }
  }

  lemma EntryApart(lower: Lower, y: seq<Entry>, i: nat, c: Json, w1: Json, w2: Json)
    returns (a: Json, b1: Json, b2: Json)
    requires Keyed(Obj(y)) && i < |y| && Apart(lower, y[i].value, c, w1, w2)
    ensures Apart(lower, Obj(y), a, b1, b2)
  {
    FrontedSame(y, i, w1);
    FrontedSame(y, i, w2);
    var z := Fronted(y, i, w1);
    SameSymmetric(Obj(y), Obj(z));
    RightKeyed(Obj(y), Obj(z));
    ProbeKeyed(lower, z, c);
    ProbeVerdict(lower, z, c, w1);
    ProbeVerdict(lower, z, c, w2);
    assert z[1..] == y[..i] + y[i + 1..];
    a, b1, b2 := Obj(Probe(lower, z, c)), Obj(z), Obj(Fronted(y, i, w2));
  }

  lemma {:induction false} RightKeyed(a: Json, b: Json)
    requires SameJson(a, b)
    ensures Keyed(b)
    decreases a
  {
    match (a, b)
    case (Arr(x), Arr(y)) => forall i | 0 <= i < |y| ensures SameJson(y[i], y[i]) { RightKeyed(x[i], y[i]); }
    case (Obj(x), Obj(y)) =>
      forall j | 0 <= j < |y| ensures Keyed(y[j].value) {
        var i := SameEntry(x, y, j);
        RightKeyed(x[i].value, y[j].value);
      }
      EntriesKeyed(y);
    case (_, _) =>
  }

  lemma ClashApart(lower: Lower, y: seq<Entry>, i: nat, j: nat) returns (a: Json, b1: Json, b2: Json)
    requires Keyed(Obj(y)) && i < |y| && j < |y| && lower(y[i].key) == lower(y[j].key)
    requires Steady(lower, y[i].value) && !JsonEq(lower, y[i].value, y[j].value)
    ensures Apart(lower, Obj(y), a, b1, b2)
  {
    KeyedEntries(y);
    var c, z1, z2 := y[i].value, Fronted(y, i, y[i].value), Fronted(y, j, y[j].value);
    FrontedSame(y, i, c);
    FrontedSame(y, j, y[j].value);
    RightKeyed(Obj(y), Obj(z1));
    ProbeKeyed(lower, z1, c);
    SteadyReflexive(lower, c);
    ProbeVerdict(lower, z1, c, c);
    assert z1 == [Entry(z1[0].key, c)] + z1[1..];
    a, b1, b2 := Obj(Probe(lower, z1, c)), Obj(z1), Obj(z2);
    var first := Probe(lower, z1, c)[0];
    assert FindKey(lower, z2, lower(first.key)) == 0;
    assert !EntryIn(lower, first, z2);
  }

  /** All readings of `a` and `b` come to the same. */
  ghost predicate OneReading(lower: Lower, a: Json, b: Json) {
    forall a', b' | SameJson(a, a') && SameJson(b, b') :: JsonEq(lower, a', b') == JsonEq(lower, a, b)
  }

  /** Every message meets `b` alike whatever orders the entries are held in, if and only
      if keys of `b` that differ only in case carry equal values. */
  lemma OrderIrrelevant(lower: Lower, b: Json)
    requires Keyed(b)
    ensures Steady(lower, b) <==> forall a | Keyed(a) :: OneReading(lower, a, b)
  {
    if Steady(lower, b) {
      forall a, a', b' | SameJson(a, a') && SameJson(b, b')
        ensures JsonEq(lower, a', b') == JsonEq(lower, a, b)
      {
        SteadyVerdict(lower, a, b, a', b');
      }
    } else {
      var a, b1, b2 := ReadTwoWays(lower, b);
      assert !OneReading(lower, a, b);
    }
  }
}
