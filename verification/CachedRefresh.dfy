/** The protocol carried out on the shared registry and the caches themselves. */
module CachedRefresh {
  import opened Rows
  import opened SingleFlight
  import opened SnapshotProtocol

  /** What callers share: the registry, one cache a key, the clock, and where each
      caller stands in its own run of the refresh. */
  class Backend {
    const registry: Registry
    var caches: map<Key, SnapshotCache>
    var callers: map<Caller, Phase>
    var clock: int

    ghost predicate Valid()
      reads this
    {
      forall k, l | k in caches && l in caches && k != l :: caches[k] != caches[l]
    }

    ghost function Caches(): set<object>
      reads this
    {
      set k | k in caches :: caches[k]
    }

    /** The state the protocol speaks of. */
    ghost function Now(): State
      reads this, registry, Caches()
    {
      State(callers, registry.inFlight, map k | k in caches && caches[k].slot.Some? :: caches[k].slot.value, clock)
    }

    constructor (clock: int)
      ensures Valid() && Initial(Now()) && Now().clock == clock
      ensures fresh(registry) && Caches() == {}
    {
      registry := new Registry();
      caches, callers, this.clock := map[], map[], clock;
    }

    /** The cache of a key, made on first use. */
    method CacheOf(key: Key) returns (cache: SnapshotCache)
      requires Valid()
      modifies this`caches
      ensures Valid() && key in caches && caches[key] == cache
      ensures fresh(Caches() - old(Caches()))
      ensures Now() == old(Now()) && cache.slot == SlotOf(Now(), key)
    {
      if key !in caches {
        var made := new SnapshotCache();
        caches := caches[key := made];
      }
      cache := caches[key];
    }

    method Settle(c: Caller, p: Phase)
      modifies this`callers
      ensures Now() == Move(old(Now()), c, p)
    {
      callers := callers[c := p];
    }

    /** A read of the cache, served if what it holds is young enough. */
    method Look(c: Caller, key: Key, ttl: int, now: int, otherwise: Phase)
      requires Valid()
      modifies this
      ensures Valid() && fresh(Caches() - old(Caches()))
      ensures Now() == Move(old(Now()), c, ServedOr(FreshIn(SlotOf(old(Now()), key), ttl, now), otherwise))
    {
      var cache := CacheOf(key);
      var v := cache.Fresh(ttl, now);
      Settle(c, ServedOr(v, otherwise));
    }

    method Fill(c: Caller, key: Key, value: int, at: int)
      requires Valid()
      modifies this, Caches()
      ensures Valid() && fresh(Caches() - old(Caches()))
      ensures Now() ==
        Move(old(Now()), c, Leaving(key, Served(value))).(slots := old(Now()).slots[key := Stamped(value, at)])
    {
      var cache := CacheOf(key);
      FillCache(cache, key, value, at);
      Settle(c, Leaving(key, Served(value)));
    }

    method FillCache(cache: SnapshotCache, key: Key, value: int, at: int)
      requires Valid() && key in caches && caches[key] == cache
      modifies cache
      ensures Now() == old(Now()).(slots := old(Now()).slots[key := Stamped(value, at)])
    {
      cache.Put(value, at);
      assert forall k | k in caches && k != key :: caches[k].slot == old(caches[k].slot);
    }

    /** Anything the cache holds, however old. */
    method LookAgain(c: Caller, key: Key)
      requires Valid()
      modifies this
      ensures Valid() && fresh(Caches() - old(Caches()))
      ensures Now() == Move(old(Now()), c, ServedOr(AnyIn(SlotOf(old(Now()), key)), Empty(key)))
    {
      var cache := CacheOf(key);
      var v := cache.Any();
      Settle(c, ServedOr(v, Empty(key)));
    }

    /** Takes the key, or starts waiting for whoever has it. */
    method BeginOrWait(c: Caller, key: Key, ttl: int)
      modifies this`callers, registry
      ensures Now() == if key in old(Now()).inFlight then Move(old(Now()), c, Waiting(key, ttl, clock + MAX_WAIT))
                       else Move(old(Now()), c, Guarded(key)).(inFlight := old(Now()).inFlight + {key})
    {
      var won := registry.Begin(key);
      Settle(c, if won then Guarded(key) else Waiting(key, ttl, clock + MAX_WAIT));
    }

    method DropGuard(c: Caller, key: Key, answer: Answer)
      modifies this`callers, registry
      ensures Now() == Move(old(Now()), c, Done(answer)).(inFlight := old(Now()).inFlight - {key})
    {
      registry.Release(key);
      Settle(c, Done(answer));
    }

    /** One step of one caller, or of the clock. */
    method Take(e: Event)
      requires Valid() && Legal(Now(), e)
      modifies this, registry, Caches()
      ensures Valid() && fresh(Caches() - old(Caches()))
      ensures Now() == Step(old(Now()), e)
    {
      if e.Tick? {
        clock := e.now;
        return;
      }
      var c := e.c;
      var p := if c in callers then callers[c] else Idle;
      match e {
        case Call(_, key, ttl) => Settle(c, Looking(key, ttl, clock));
        case Read(_) => Look(c, p.key, p.ttl, p.now, Missed(p.key, p.ttl));
        case Begin(_) => BeginOrWait(c, p.key, p.ttl);
        case Wake(_) => Settle(c, Rereading(p.key, p.ttl, clock));
        case Reread(_) => Look(c, p.key, p.ttl, p.now, Settling(p.key));
        case ReadAny(_) => LookAgain(c, p.key);
        case GoAlone(_) => Settle(c, Alone(p.key));
        case Refresh(_, result) =>
          if p.Alone? {
            Settle(c, Done(if result.Some? then Served(result.value) else Failed));
          } else {
            Settle(c, if result.Some? then Fetched(p.key, result.value) else Leaving(p.key, Failed));
          }
        case ReadClock(_) => Settle(c, Putting(p.key, p.value, clock));
        case Put(_) => Fill(c, p.key, p.value, p.at);
        case Drop(_) => DropGuard(c, p.key, p.answer);
      }
    }

    /** Any run the protocol allows can be carried out, and ends in the state it says. */
    method Run(es: seq<Event>, ghost t: State)
      requires Valid() && RunTo(Now(), es, t)
      modifies this, registry, Caches()
      ensures Valid() && Now() == t
    {
      var i := 0;
      while i < |es|
        invariant 0 <= i <= |es| && Valid() && fresh(Caches() - old(Caches()))
        invariant RunTo(Now(), es[i..], t)
      {
        assert es[i..][0] == es[i] && es[i..][1..] == es[i + 1..];
        Take(es[i]);
        i := i + 1;
      }
    }
  }
}
