/** One expiring value per key, swept on every insert. */
module KeyedCache {
  import opened Rows

  type Key = string

  datatype Stamped = Stamped(value: int, sampledAt: int)

  type Entries = map<Key, Stamped>

  datatype Item = Item(key: Key, value: int)

  function Sweep(m: Entries, horizon: int, now: int): Entries {
    map k | k in m && now - m[k].sampledAt < horizon :: m[k]
  }

  function InsertEach(m: Entries, items: seq<Item>, now: int): Entries
    decreases |items|
  {
    if items == [] then m else
    InsertEach(m, items[..|items| - 1], now)[items[|items| - 1].key := Stamped(items[|items| - 1].value, now)]
  }

  function Get(m: Entries, k: Key): Option<Stamped> {
    if k in m then Some(m[k]) else None
  }

  function FreshIn(m: Entries, k: Key, ttl: int, now: int): Option<int> {
    var e := Get(m, k);
    if e.Some? && now - e.value.sampledAt < ttl then Some(e.value.value) else None
  }

  class KeyedCache {
    var inner: Entries
    const horizon: int

    constructor (horizon: int)
      ensures inner == map[] && this.horizon == horizon
    {
      inner := map[];
      this.horizon := horizon;
    }

    method SampledAt(key: Key) returns (at: Option<int>)
      ensures at == if key in inner then Some(inner[key].sampledAt) else None
    {
      at := if key in inner then Some(inner[key].sampledAt) else None;
    }

    method Fresh(key: Key, ttl: int, now: int) returns (v: Option<int>)
      ensures v == FreshIn(inner, key, ttl, now)
    {
      v := None;
      if key in inner {
        var e := inner[key];
        if now - e.sampledAt < ttl {
          v := Some(e.value);
        }
      }
    }

    /** One sweep, then the whole batch. */
    method InsertMany(items: seq<Item>, now: int)
      modifies this
      ensures inner == InsertEach(Sweep(old(inner), horizon, now), items, now)
    {
      inner := map k | k in inner && now - inner[k].sampledAt < horizon :: inner[k];
      ghost var swept := inner;
      var i := 0;
      while i < |items|
        invariant 0 <= i <= |items| && inner == InsertEach(swept, items[..i], now)
      {
        assert items[..i + 1][..i] == items[..i];
        inner := inner[items[i].key := Stamped(items[i].value, now)];
        i := i + 1;
      }
      assert items[..i] == items;
    }

    method Insert(key: Key, value: int, now: int)
      modifies this
      ensures inner == InsertEach(Sweep(old(inner), horizon, now), [Item(key, value)], now)
    {
      InsertMany([Item(key, value)], now);
    }
  }

  // ---- what an insert leaves --------------------------------------------------------

  /** Item `i` is the last one of the batch for its key. */
  predicate LastFor(items: seq<Item>, i: nat) {
    i < |items| && forall j | i < j < |items| :: items[j].key != items[i].key
  }

  /** After a batch a key has the value of its last item there, for as long as that is young
      enough, whatever it had before. */
  lemma {:induction false} InsertedIsFresh(m: Entries, items: seq<Item>, now: int, i: nat, ttl: int, later: int)
    requires LastFor(items, i)
    ensures FreshIn(InsertEach(m, items, now), items[i].key, ttl, later) ==
            if later < now + ttl then Some(items[i].value) else None
    decreases |items|
  {
    if i < |items| - 1 {
      assert items[|items| - 1].key != items[i].key;
      InsertedIsFresh(m, items[..|items| - 1], now, i, ttl, later);
    }
  }

  /** A key the batch does not name keeps what it had. */
  lemma {:induction false} OthersKept(m: Entries, items: seq<Item>, now: int, k: Key)
    requires forall i | 0 <= i < |items| :: items[i].key != k
    ensures Get(InsertEach(m, items, now), k) == Get(m, k)
    decreases |items|
  {
    if items != [] { OthersKept(m, items[..|items| - 1], now, k); }
  }

  // ---- eviction is invisible --------------------------------------------------------

  datatype Batch = Batch(items: seq<Item>, now: int)

  /** What the cache holds after a history of inserts, and what it would hold if it
      never swept. */
  function Held(horizon: int, history: seq<Batch>): Entries {
    if history == [] then map[] else
    var b := history[|history| - 1];
    InsertEach(Sweep(Held(horizon, history[..|history| - 1]), horizon, b.now), b.items, b.now)
  }

  function Kept(history: seq<Batch>): Entries {
    if history == [] then map[] else
    var b := history[|history| - 1];
    InsertEach(Kept(history[..|history| - 1]), b.items, b.now)
  }

  /** The clock never goes back. */
  predicate Timely(history: seq<Batch>, now: int) {
    && (forall i, j | 0 <= i < j < |history| :: history[i].now <= history[j].now)
    && (history != [] ==> history[|history| - 1].now <= now)
  }

  /** A batch either leaves a key alone in both maps or sets it alike in both. */
  lemma {:induction false} InsertAt(m: Entries, n: Entries, items: seq<Item>, now: int, k: Key)
    ensures var a, b := Get(InsertEach(m, items, now), k), Get(InsertEach(n, items, now), k);
      (a == Get(m, k) && b == Get(n, k)) || (a == b && a.Some? && a.value.sampledAt == now)
    decreases |items|
  {
    if items != [] { InsertAt(m, n, items[..|items| - 1], now, k); }
  }

  /** An entry the sweep has taken was past the horizon already. */
  predicate Missing(held: Entries, kept: Entries, horizon: int, now: int, k: Key) {
    var h, e := Get(held, k), Get(kept, k);
    if h.Some? then e == h && h.value.sampledAt <= now
    else e.Some? ==> horizon <= now - e.value.sampledAt && e.value.sampledAt <= now
  }

  lemma {:induction false} SweptWasOld(horizon: int, history: seq<Batch>, now: int, k: Key)
    requires Timely(history, now)
    ensures Missing(Held(horizon, history), Kept(history), horizon, now, k)
  {
    if history != [] {
      var front, b := history[..|history| - 1], history[|history| - 1];
      SweptWasOld(horizon, front, b.now, k);
      var held, kept := Held(horizon, front), Kept(front);
      InsertAt(Sweep(held, horizon, b.now), kept, b.items, b.now, k);
    }
  }

  predicate Invisible(horizon: int, history: seq<Batch>, k: Key, ttl: int, now: int) {
    FreshIn(Held(horizon, history), k, ttl, now) == FreshIn(Kept(history), k, ttl, now)
  }

  /** Sweeping shows in some answer exactly for a time-to-live that is positive and
      beyond the horizon. */
  lemma EvictionIsInvisible(horizon: int, ttl: int)
    ensures (forall history, k, now | Timely(history, now) :: Invisible(horizon, history, k, ttl, now)) <==>
      ttl <= horizon || ttl <= 0
  {
    if ttl <= horizon || ttl <= 0 {
      forall history, k, now | Timely(history, now) ensures Invisible(horizon, history, k, ttl, now) {
        SweptWasOld(horizon, history, now, k);
      }
    } else {
      var now := if horizon < 0 then 0 else horizon;
      var history := [Batch([Item("a", 1)], 0), Batch([], now)];
      SweptTooEarly(horizon, ttl, now);
      assert Timely(history, now) && !Invisible(horizon, history, "a", ttl, now);
    }
  }

  lemma SweptTooEarly(horizon: int, ttl: int, now: int)
    requires 0 <= now < ttl && horizon <= now
    ensures !Invisible(horizon, [Batch([Item("a", 1)], 0), Batch([], now)], "a", ttl, now)
  {
    var first, both := [Batch([Item("a", 1)], 0)], [Batch([Item("a", 1)], 0), Batch([], now)];
    assert both[..1] == first && first[..0] == [];
    assert [Item("a", 1)][..0] == [];
    assert InsertEach(map[], [Item("a", 1)], 0) == map["a" := Stamped(1, 0)];
    assert Kept(first) == map["a" := Stamped(1, 0)];
    assert Held(horizon, first) == map["a" := Stamped(1, 0)] by { assert Sweep(map[], horizon, 0) == map[]; }
    assert Get(Sweep(map["a" := Stamped(1, 0)], horizon, now), "a") == None;
  }
}
