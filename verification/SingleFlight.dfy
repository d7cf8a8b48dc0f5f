/** The registry of refreshes under way, and the one-slot cache they fill. */
module SingleFlight {
  import opened Rows

  type Key = string

  /** The set behind the mutex. Each method is one critical section. */
  class Registry {
    var inFlight: set<Key>

    constructor ()
      ensures inFlight == {}
    {
      inFlight := {};
    }

    /** Takes the key if nobody holds it. */
    method Begin(key: Key) returns (won: bool)
      modifies this
      ensures won <==> key !in old(inFlight)
      ensures inFlight == old(inFlight) + {key}
    {
      won := key !in inFlight;
      inFlight := inFlight + {key};
    }

    /** What the guard does when it is dropped. */
    method Release(key: Key)
      modifies this
      ensures inFlight == old(inFlight) - {key}
    {
      inFlight := inFlight - {key};
    }
  }

  datatype Stamped = Stamped(value: int, at: int)

  type Slot = Option<Stamped>

  /** The cached value if it is younger than `ttl`. */
  function FreshIn(slot: Slot, ttl: int, now: int): Option<int> {
    if slot.Some? && now - slot.value.at < ttl then Some(slot.value.value) else None
  }

  function AnyIn(slot: Slot): Option<int> {
    if slot.Some? then Some(slot.value.value) else None
  }

  class SnapshotCache {
    var slot: Slot

    constructor ()
      ensures slot == None
    {
      slot := None;
    }

    method Fresh(ttl: int, now: int) returns (v: Option<int>)
      ensures v == FreshIn(slot, ttl, now)
    {
      v := None;
      if slot.Some? && now - slot.value.at < ttl {
        v := Some(slot.value.value);
      }
    }

    method Any() returns (v: Option<int>)
      ensures v == AnyIn(slot)
    {
      v := if slot.Some? then Some(slot.value.value) else None;
    }

    method Put(value: int, now: int)
      modifies this
      ensures slot == Some(Stamped(value, now))
    {
      slot := Some(Stamped(value, now));
    }
  }
}
