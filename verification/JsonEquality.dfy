/** JSON values and case-insensitive equality; the laws hold of any lower-casing. */
module JsonEquality {

  type Lower = string -> string

  datatype Json =
    | Null
    | Bool(b: bool)
    | Num(n: real)
    | Str(s: string)
    | Arr(items: seq<Json>)
    | Obj(entries: seq<Entry>)

  datatype Entry = Entry(key: string, value: Json)

  /** The first entry whose key lower-cases to `k`, or the end. */
  function FindKey(lower: Lower, es: seq<Entry>, k: string): (i: nat)
    ensures i <= |es|
    ensures i < |es| ==> lower(es[i].key) == k
    ensures forall j | 0 <= j < i :: lower(es[j].key) != k
  {
    if es == [] then 0
    else if lower(es[0].key) == k then 0
    else 1 + FindKey(lower, es[1..], k)
  }

  /** Object keys and strings compare lower-cased, object order does not matter,
      numbers compare as numbers and everything else exactly. */
  predicate JsonEq(lower: Lower, a: Json, b: Json)
    decreases a
  {
    match (a, b)
    case (Str(x), Str(y)) => lower(x) == lower(y)
    case (Num(x), Num(y)) => x == y
    case (Arr(x), Arr(y)) => |x| == |y| && forall i | 0 <= i < |x| :: JsonEq(lower, x[i], y[i])
    case (Obj(x), Obj(y)) => |x| == |y| && forall i | 0 <= i < |x| :: EntryIn(lower, x[i], y)
    case (_, _) => a == b
  }

  predicate EntryIn(lower: Lower, e: Entry, es: seq<Entry>)
    decreases e
  {
    var j := FindKey(lower, es, lower(e.key));
    j < |es| && JsonEq(lower, e.value, es[j].value)
  }

  /** No object, at any level, has two keys that differ only in case. */
  predicate CaseDistinct(lower: Lower, a: Json)
    decreases a
  {
    match a
    case Arr(x) => forall i | 0 <= i < |x| :: CaseDistinct(lower, x[i])
    case Obj(x) => KeysDistinct(lower, x) && forall i | 0 <= i < |x| :: CaseDistinct(lower, x[i].value)
    case _ => true
  }

  predicate KeysDistinct(lower: Lower, es: seq<Entry>) {
    forall i, j | 0 <= i < j < |es| :: lower(es[i].key) != lower(es[j].key)
  }

  lemma FindOwn(lower: Lower, es: seq<Entry>, i: nat)
    requires KeysDistinct(lower, es) && i < |es|
    ensures FindKey(lower, es, lower(es[i].key)) == i
  {}

  lemma {:induction false} Reflexive(lower: Lower, a: Json)
    requires CaseDistinct(lower, a)
    ensures JsonEq(lower, a, a)
    decreases a
  {
    match a
    case Arr(x) =>
      forall i | 0 <= i < |x| ensures JsonEq(lower, x[i], x[i]) { Reflexive(lower, x[i]); }
    case Obj(x) =>
      forall i | 0 <= i < |x| ensures EntryIn(lower, x[i], x) {
        Reflexive(lower, x[i].value);
        FindOwn(lower, x, i);
      }
    case _ =>
  }

  // ---- symmetry: a pigeonhole on lower-cased keys ------------------------------------

  function LowerKeys(lower: Lower, es: seq<Entry>): set<string> {
    set i | 0 <= i < |es| :: lower(es[i].key)
  }

  lemma {:induction false} DistinctCount(lower: Lower, es: seq<Entry>)
    requires KeysDistinct(lower, es)
    ensures |LowerKeys(lower, es)| == |es|
  {
    if es != [] {
      DistinctCount(lower, es[1..]);
      var k, rest := lower(es[0].key), LowerKeys(lower, es[1..]);
      assert k !in rest;
      KeysSplit(lower, es);
    }
  }

  lemma SameSize<T>(a: set<T>, b: set<T>)
    requires a <= b && |a| == |b|
    ensures a == b
  {
    assert |b - a| == |b| - |a|;
    assert b == a + (b - a);
  }

  /** If every key of `x` is one of `y`'s and there are as many, `y` has no others. */
  lemma Pigeonhole(lower: Lower, x: seq<Entry>, y: seq<Entry>, j: nat) returns (i: nat)
    requires KeysDistinct(lower, x) && KeysDistinct(lower, y) && |x| == |y| && j < |y|
    requires forall i | 0 <= i < |x| :: FindKey(lower, y, lower(x[i].key)) < |y|
    ensures i < |x| && lower(x[i].key) == lower(y[j].key)
  {
    var a, b := LowerKeys(lower, x), LowerKeys(lower, y);
    DistinctCount(lower, x);
    DistinctCount(lower, y);
    forall k | k in a ensures k in b {
      var i :| 0 <= i < |x| && lower(x[i].key) == k;
      assert lower(y[FindKey(lower, y, k)].key) == k;
    }
    SameSize(a, b);
    assert lower(y[j].key) in b;
    i :| 0 <= i < |x| && lower(x[i].key) == lower(y[j].key);
  }

  lemma {:induction false} Symmetric(lower: Lower, a: Json, b: Json)
    requires CaseDistinct(lower, a) && JsonEq(lower, a, b)
    ensures JsonEq(lower, b, a)
    decreases a
  {
    EqualKeepsDistinct(lower, a, b);
    match (a, b)
    case (Arr(x), Arr(y)) =>
      forall i | 0 <= i < |x| ensures JsonEq(lower, y[i], x[i]) { Symmetric(lower, x[i], y[i]); }
    case (Obj(x), Obj(y)) =>
      forall j | 0 <= j < |y| ensures EntryIn(lower, y[j], x) {
        forall i | 0 <= i < |x| ensures FindKey(lower, y, lower(x[i].key)) < |y| { assert EntryIn(lower, x[i], y); }
        var i := Pigeonhole(lower, x, y, j);
        assert EntryIn(lower, x[i], y);
        FindOwn(lower, y, j);
        FindOwn(lower, x, i);
        Symmetric(lower, x[i].value, y[j].value);
      }
    case (_, _) =>
  }

  lemma {:induction false} Transitive(lower: Lower, a: Json, b: Json, c: Json)
    requires JsonEq(lower, a, b) && JsonEq(lower, b, c)
    ensures JsonEq(lower, a, c)
    decreases a
  {
    match (a, b, c)
    case (Arr(x), Arr(y), Arr(z)) =>
      forall i | 0 <= i < |x| ensures JsonEq(lower, x[i], z[i]) { Transitive(lower, x[i], y[i], z[i]); }
    case (Obj(x), Obj(y), Obj(z)) =>
      forall i | 0 <= i < |x| ensures EntryIn(lower, x[i], z) {
        assert EntryIn(lower, x[i], y);
        var j := FindKey(lower, y, lower(x[i].key));
        assert EntryIn(lower, y[j], z);
        Transitive(lower, x[i].value, y[j].value, z[FindKey(lower, z, lower(y[j].key))].value);
      }
    case (_, _, _) =>
  }

  /** Without the condition even reflexivity is lost: the second of two keys that differ
      only in case is compared with the first one's value. */
  lemma ClashingKeysNotReflexive(lower: Lower, k: string, k': string)
    requires lower(k) == lower(k')
    ensures var a := Obj([Entry(k, Null), Entry(k', Bool(true))]); !JsonEq(lower, a, a)
  {
    var x := [Entry(k, Null), Entry(k', Bool(true))];
    assert FindKey(lower, x, lower(k')) == 0;
    assert !EntryIn(lower, x[1], x);
  }

  /** Nor is it symmetric then: both clashing keys find the one key they resemble. */
  lemma ClashingKeysNotSymmetric(lower: Lower, k: string, k': string, other: string)
    requires lower(k) == lower(k') != lower(other)
    ensures var a, b := Obj([Entry(k, Null), Entry(k', Null)]), Obj([Entry(k, Null), Entry(other, Null)]);
      JsonEq(lower, a, b) && !JsonEq(lower, b, a)
  {
    var x, y := [Entry(k, Null), Entry(k', Null)], [Entry(k, Null), Entry(other, Null)];
    forall i | 0 <= i < |x| ensures EntryIn(lower, x[i], y) { assert FindKey(lower, y, lower(x[i].key)) == 0; }
    assert !EntryIn(lower, y[1], x);
  }

  // ---- one value, two parsers ---------------------------------------------------------

  /** The same value with object entries in another order: the server's parser keeps
      them sorted by key, the browser's as they came. */
  predicate SameJson(a: Json, b: Json)
    decreases a
  {
    match (a, b)
    case (Arr(x), Arr(y)) => |x| == |y| && forall i | 0 <= i < |x| :: SameJson(x[i], y[i])
    case (Obj(x), Obj(y)) =>
      && |x| == |y| && ExactKeys(x) && ExactKeys(y)
      && forall i | 0 <= i < |x| :: SameEntryIn(x[i], y)
    case (_, _) => a == b
  }

  predicate SameEntryIn(e: Entry, es: seq<Entry>)
    decreases e
  {
    exists j | 0 <= j < |es| :: es[j].key == e.key && SameJson(e.value, es[j].value)
  }

  predicate ExactKeys(es: seq<Entry>) {
    forall i, j | 0 <= i < j < |es| :: es[i].key != es[j].key
  }

  lemma {:induction false} SameIsEqual(lower: Lower, a: Json, b: Json)
    requires SameJson(a, b) && CaseDistinct(lower, a) && CaseDistinct(lower, b)
    ensures JsonEq(lower, a, b)
    decreases a
  {
    match (a, b)
    case (Arr(x), Arr(y)) =>
      forall i | 0 <= i < |x| ensures JsonEq(lower, x[i], y[i]) { SameIsEqual(lower, x[i], y[i]); }
    case (Obj(x), Obj(y)) =>
      forall i | 0 <= i < |x| ensures EntryIn(lower, x[i], y) {
        assert SameEntryIn(x[i], y);
        var j :| 0 <= j < |y| && y[j].key == x[i].key && SameJson(x[i].value, y[j].value);
        FindOwn(lower, y, j);
        SameIsEqual(lower, x[i].value, y[j].value);
      }
    case (_, _) =>
  }

  const AS_IS: Lower := k => k

  lemma SameEntry(x: seq<Entry>, y: seq<Entry>, j: nat) returns (i: nat)
    requires SameJson(Obj(x), Obj(y)) && j < |y|
    ensures i < |x| && x[i].key == y[j].key && SameJson(x[i].value, y[j].value)
  {
    forall i | 0 <= i < |x| ensures FindKey(AS_IS, y, AS_IS(x[i].key)) < |y| {
      assert SameEntryIn(x[i], y);
      var j' :| 0 <= j' < |y| && y[j'].key == x[i].key && SameJson(x[i].value, y[j'].value);
      assert AS_IS(y[j'].key) == AS_IS(x[i].key);
    }
    i := Pigeonhole(AS_IS, x, y, j);
    assert SameEntryIn(x[i], y);
  }

  lemma {:induction false} SameKeepsDistinct(lower: Lower, a: Json, b: Json)
    requires SameJson(a, b) && CaseDistinct(lower, a)
    ensures CaseDistinct(lower, b)
    decreases a
  {
    match (a, b)
    case (Arr(x), Arr(y)) =>
      forall i | 0 <= i < |y| ensures CaseDistinct(lower, y[i]) { SameKeepsDistinct(lower, x[i], y[i]); }
    case (Obj(x), Obj(y)) =>
      forall j | 0 <= j < |y| ensures CaseDistinct(lower, y[j].value) {
        var i := SameEntry(x, y, j);
        SameKeepsDistinct(lower, x[i].value, y[j].value);
      }
      forall i, j | 0 <= i < j < |y| ensures lower(y[i].key) != lower(y[j].key) {
        var i' := SameEntry(x, y, i);
        var j' := SameEntry(x, y, j);
        assert i' != j';
      }
    case (_, _) =>
  }

  lemma {:induction false} SameSymmetric(a: Json, b: Json)
    requires SameJson(a, b)
    ensures SameJson(b, a)
    decreases a
  {
    match (a, b)
    case (Arr(x), Arr(y)) =>
      forall i | 0 <= i < |x| ensures SameJson(y[i], x[i]) { SameSymmetric(x[i], y[i]); }
    case (Obj(x), Obj(y)) =>
      forall j | 0 <= j < |y| ensures SameEntryIn(y[j], x) {
        var i := SameEntry(x, y, j);
        SameSymmetric(x[i].value, y[j].value);
      }
    case (_, _) =>
  }

  lemma {:induction false} CountAtMost(lower: Lower, es: seq<Entry>)
    ensures |LowerKeys(lower, es)| <= |es|
    ensures |LowerKeys(lower, es)| == |es| ==> KeysDistinct(lower, es)
  {
    if es == [] {
      assert LowerKeys(lower, es) == {};
    } else {
      CountAtMost(lower, es[1..]);
      var k, rest := lower(es[0].key), LowerKeys(lower, es[1..]);
      KeysSplit(lower, es);
      assert k in rest ==> {k} + rest == rest;
      if |LowerKeys(lower, es)| == |es| {
        forall i | 1 <= i < |es| ensures lower(es[i].key) != k { assert lower(es[1..][i - 1].key) in rest; }
        forall i, j | 1 <= i < j < |es| ensures lower(es[i].key) != lower(es[j].key) {
          assert es[i] == es[1..][i - 1] && es[j] == es[1..][j - 1];
        }
      }
    }
  }

  lemma KeysSplit(lower: Lower, es: seq<Entry>)
    requires es != []
    ensures LowerKeys(lower, es) == {lower(es[0].key)} + LowerKeys(lower, es[1..])
  {
    var k, rest := lower(es[0].key), LowerKeys(lower, es[1..]);
    forall x ensures x in LowerKeys(lower, es) <==> x in {k} + rest {
      if x in LowerKeys(lower, es) {
        var i :| 0 <= i < |es| && lower(es[i].key) == x;
        if i > 0 { assert lower(es[1..][i - 1].key) == x; }
      }
      if x in rest {
        var i :| 0 <= i < |es[1..]| && lower(es[1..][i].key) == x;
        assert lower(es[i + 1].key) == x;
      }
    }
  }

  /** A value equal to one without clashing keys has none either: there is no room. */
  lemma {:induction false} EqualKeepsDistinct(lower: Lower, a: Json, b: Json)
    requires JsonEq(lower, a, b) && CaseDistinct(lower, a)
    ensures CaseDistinct(lower, b)
    decreases a
  {
    match (a, b)
    case (Arr(x), Arr(y)) =>
      forall i | 0 <= i < |y| ensures CaseDistinct(lower, y[i]) { EqualKeepsDistinct(lower, x[i], y[i]); }
    case (Obj(x), Obj(y)) =>
      forall i | 0 <= i < |x| ensures FindKey(lower, y, lower(x[i].key)) < |y| { assert EntryIn(lower, x[i], y); }
      NoRoom(lower, x, y);
      forall j | 0 <= j < |y| ensures CaseDistinct(lower, y[j].value) {
        var i := Pigeonhole(lower, x, y, j);
        assert EntryIn(lower, x[i], y);
        FindOwn(lower, y, j);
        EqualKeepsDistinct(lower, x[i].value, y[j].value);
      }
    case (_, _) =>
  }

  lemma NoRoom(lower: Lower, x: seq<Entry>, y: seq<Entry>)
    requires KeysDistinct(lower, x) && |x| == |y|
    requires forall i | 0 <= i < |x| :: FindKey(lower, y, lower(x[i].key)) < |y|
    ensures KeysDistinct(lower, y)
  {
    var a, b := LowerKeys(lower, x), LowerKeys(lower, y);
    DistinctCount(lower, x);
    CountAtMost(lower, y);
    forall k | k in a ensures k in b {
      var i :| 0 <= i < |x| && lower(x[i].key) == k;
      assert lower(y[FindKey(lower, y, k)].key) == k;
    }
    assert a + (b - a) == b;
    assert |b| == |a| + |b - a|;
  }

  /** So the two sides give one verdict whatever order each holds the entries in, as long
      as one of the values compared has no two keys that differ only in case. */
  lemma OneVerdict(lower: Lower, a: Json, b: Json, a': Json, b': Json)
    requires SameJson(a, a') && SameJson(b, b') && CaseDistinct(lower, a)
    ensures JsonEq(lower, a, b) <==> JsonEq(lower, a', b')
  {
    SameKeepsDistinct(lower, a, a');
    SameSymmetric(a, a');
    SameSymmetric(b, b');
    SameIsEqual(lower, a, a');
    SameIsEqual(lower, a', a);
    if JsonEq(lower, a, b) { Carried(lower, a, b, a', b'); }
    if JsonEq(lower, a', b') { Carried(lower, a', b', a, b); }
  }

  lemma Carried(lower: Lower, a: Json, b: Json, a': Json, b': Json)
    requires JsonEq(lower, a', a) && SameJson(b, b') && CaseDistinct(lower, a) && JsonEq(lower, a, b)
    ensures JsonEq(lower, a', b')
  {
    EqualKeepsDistinct(lower, a, b);
    SameKeepsDistinct(lower, b, b');
    SameIsEqual(lower, b, b');
    Transitive(lower, a', a, b);
    Transitive(lower, a', b, b');
  }

  // ---- what equality tells apart ------------------------------------------------------

  /** Every key and every string lower-cased, all else as it is. */
  function Lowered(lower: Lower, a: Json): Json
    decreases a
  {
    match a
    case Str(s) => Str(lower(s))
    case Arr(x) => Arr(seq(|x|, i requires 0 <= i < |x| => Lowered(lower, x[i])))
    case Obj(x) => Obj(seq(|x|, i requires 0 <= i < |x| => Entry(lower(x[i].key), Lowered(lower, x[i].value))))
    case _ => a
  }

  lemma ExactLowered(lower: Lower, x: seq<Entry>)
    ensures ExactKeys(Lowered(lower, Obj(x)).entries) <==> KeysDistinct(lower, x)
  {
    var y := Lowered(lower, Obj(x)).entries;
    assert forall i | 0 <= i < |x| :: y[i].key == lower(x[i].key);
  }

  lemma {:induction false} LoweredSame(lower: Lower, a: Json, b: Json)
    requires SameJson(Lowered(lower, a), Lowered(lower, b))
    ensures CaseDistinct(lower, a) && JsonEq(lower, a, b)
    decreases a
  {
    match (a, b)
    case (Arr(x), Arr(y)) =>
      forall i | 0 <= i < |x| ensures CaseDistinct(lower, x[i]) && JsonEq(lower, x[i], y[i]) {
        assert SameJson(Lowered(lower, a).items[i], Lowered(lower, b).items[i]);
        LoweredSame(lower, x[i], y[i]);
      }
    case (Obj(x), Obj(y)) =>
      ExactLowered(lower, x);
      ExactLowered(lower, y);
      var v, w := Lowered(lower, a).entries, Lowered(lower, b).entries;
      forall i | 0 <= i < |x| ensures CaseDistinct(lower, x[i].value) && EntryIn(lower, x[i], y) {
        assert SameEntryIn(v[i], w);
        var j :| 0 <= j < |w| && w[j].key == v[i].key && SameJson(v[i].value, w[j].value);
        FindOwn(lower, y, j);
        LoweredSame(lower, x[i].value, y[j].value);
      }
    case (_, _) =>
  }

  lemma {:induction false} SameLowered(lower: Lower, a: Json, b: Json)
    requires CaseDistinct(lower, a) && JsonEq(lower, a, b)
    ensures SameJson(Lowered(lower, a), Lowered(lower, b))
    decreases a
  {
    EqualKeepsDistinct(lower, a, b);
    match (a, b)
    case (Arr(x), Arr(y)) =>
      forall i | 0 <= i < |x| ensures SameJson(Lowered(lower, x[i]), Lowered(lower, y[i])) {
        SameLowered(lower, x[i], y[i]);
      }
    case (Obj(x), Obj(y)) =>
      ExactLowered(lower, x);
      ExactLowered(lower, y);
      var v, w := Lowered(lower, a).entries, Lowered(lower, b).entries;
      forall i | 0 <= i < |v| ensures SameEntryIn(v[i], w) {
        assert EntryIn(lower, x[i], y);
        var j := FindKey(lower, y, lower(x[i].key));
        SameLowered(lower, x[i].value, y[j].value);
        assert w[j].key == v[i].key;
      }
    case (_, _) =>
  }

  /** Two values are equal exactly when lower-casing makes them one, up to the order of
      object entries; with keys that differ only in case lower-casing makes no value. */
  lemma EqualIffLoweredSame(lower: Lower, a: Json, b: Json)
    ensures SameJson(Lowered(lower, a), Lowered(lower, b)) <==> CaseDistinct(lower, a) && JsonEq(lower, a, b)
  {
    if SameJson(Lowered(lower, a), Lowered(lower, b)) { LoweredSame(lower, a, b); }
    if CaseDistinct(lower, a) && JsonEq(lower, a, b) { SameLowered(lower, a, b); }
  }
}
