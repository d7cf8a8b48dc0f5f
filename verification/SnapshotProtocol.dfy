/** Any number of callers of the cached refresh at once, interleaved anywhere. */
module SnapshotProtocol {
  import opened Rows
  import opened SingleFlight

  datatype Caller = Caller(id: nat)

  datatype Answer = Served(value: int) | Failed

  /** Where one caller stands between two of its steps. */
  datatype Phase =
    | Idle
    | Looking(key: Key, ttl: int, now: int)     // about to read the slot
    | Missed(key: Key, ttl: int)                // found nothing fresh
    | Waiting(key: Key, ttl: int, until: int)   // another caller holds the key
    | Rereading(key: Key, ttl: int, now: int)   // the wait is over
    | Settling(key: Key)                        // still nothing fresh: anything will do
    | Empty(key: Key)                           // the slot held nothing at all
    | Alone(key: Key)                           // refreshing without the key
    | Guarded(key: Key)                         // refreshing with the key
    | Fetched(key: Key, value: int)             // refreshed, about to read the clock
    | Putting(key: Key, value: int, at: int)    // about to fill the slot
    | Leaving(key: Key, answer: Answer)         // about to drop the guard
    | Done(answer: Answer)

  datatype State = State(callers: map<Caller, Phase>, inFlight: set<Key>, slots: map<Key, Stamped>, clock: int)

  function PhaseOf(s: State, c: Caller): Phase {
    if c in s.callers then s.callers[c] else Idle
  }

  function SlotOf(s: State, k: Key): Slot {
    if k in s.slots then Some(s.slots[k]) else None
  }

  /** The caller has a live guard for `k`. */
  predicate Holds(p: Phase, k: Key) {
    (p.Guarded? || p.Fetched? || p.Putting? || p.Leaving?) && p.key == k
  }

  datatype Event =
    | Call(c: Caller, key: Key, ttl: int)
    | Read(c: Caller)
    | Begin(c: Caller)
    | Wake(c: Caller)
    | Reread(c: Caller)
    | ReadAny(c: Caller)
    | GoAlone(c: Caller)
    | Refresh(c: Caller, result: Option<int>)
    | ReadClock(c: Caller)
    | Put(c: Caller)
    | Drop(c: Caller)
    | Tick(now: int)

  const MAX_WAIT := 2_000

  /** What the event asks of the caller's phase. A wait ends when nobody holds the key or
      when it has lasted long enough, and not before. */
  predicate Legal(s: State, e: Event) {
    match e
    case Call(c, _, _) => PhaseOf(s, c).Idle? || PhaseOf(s, c).Done?
    case Read(c) => PhaseOf(s, c).Looking?
    case Begin(c) => PhaseOf(s, c).Missed?
    case Wake(c) =>
      var p := PhaseOf(s, c);
      p.Waiting? && (p.key !in s.inFlight || p.until <= s.clock)
    case Reread(c) => PhaseOf(s, c).Rereading?
    case ReadAny(c) => PhaseOf(s, c).Settling?
    case GoAlone(c) => PhaseOf(s, c).Empty?
    case Refresh(c, _) => PhaseOf(s, c).Alone? || PhaseOf(s, c).Guarded?
    case ReadClock(c) => PhaseOf(s, c).Fetched?
    case Put(c) => PhaseOf(s, c).Putting?
    case Drop(c) => PhaseOf(s, c).Leaving?
    case Tick(now) => s.clock <= now
  }

  function Move(s: State, c: Caller, p: Phase): State {
    s.(callers := s.callers[c := p])
  }

  function ServedOr(v: Option<int>, p: Phase): Phase {
    if v.Some? then Done(Served(v.value)) else p
  }

  function Step(s: State, e: Event): State
    requires Legal(s, e)
  {
    match e
    case Call(c, key, ttl) => Move(s, c, Looking(key, ttl, s.clock))
    case Read(c) =>
      var p := PhaseOf(s, c);
      Move(s, c, ServedOr(FreshIn(SlotOf(s, p.key), p.ttl, p.now), Missed(p.key, p.ttl)))
    case Begin(c) =>
      var p := PhaseOf(s, c);
      if p.key in s.inFlight then Move(s, c, Waiting(p.key, p.ttl, s.clock + MAX_WAIT))
      else Move(s, c, Guarded(p.key)).(inFlight := s.inFlight + {p.key})
    case Wake(c) =>
      var p := PhaseOf(s, c);
      Move(s, c, Rereading(p.key, p.ttl, s.clock))
    case Reread(c) =>
      var p := PhaseOf(s, c);
      Move(s, c, ServedOr(FreshIn(SlotOf(s, p.key), p.ttl, p.now), Settling(p.key)))
    case ReadAny(c) =>
      var p := PhaseOf(s, c);
      Move(s, c, ServedOr(AnyIn(SlotOf(s, p.key)), Empty(p.key)))
    case GoAlone(c) => Move(s, c, Alone(PhaseOf(s, c).key))
    case Refresh(c, result) =>
      var p := PhaseOf(s, c);
      if p.Alone? then Move(s, c, Done(if result.Some? then Served(result.value) else Failed))
      else Move(s, c, if result.Some? then Fetched(p.key, result.value) else Leaving(p.key, Failed))
    case ReadClock(c) =>
      var p := PhaseOf(s, c);
      Move(s, c, Putting(p.key, p.value, s.clock))
    case Put(c) =>
      var p := PhaseOf(s, c);
      Move(s, c, Leaving(p.key, Served(p.value))).(slots := s.slots[p.key := Stamped(p.value, p.at)])
    case Drop(c) =>
      var p := PhaseOf(s, c);
      Move(s, c, Done(p.answer)).(inFlight := s.inFlight - {p.key})
    case Tick(now) => s.(clock := now)
  }

  ghost predicate Initial(s: State) {
    s.callers == map[] && s.inFlight == {} && s.slots == map[]
  }

  // ---- the invariant --------------------------------------------------------------

  /** The keys in flight are exactly those of live guards, and no key has two. */
  ghost predicate Guards(s: State) {
    && (forall k :: k in s.inFlight <==> exists c :: Holds(PhaseOf(s, c), k))
    && (forall c, d, k | Holds(PhaseOf(s, c), k) && Holds(PhaseOf(s, d), k) :: c == d)
  }

  ghost predicate StampOk(s: State, c: Caller) {
    var p := PhaseOf(s, c);
    p.Putting? ==> p.at <= s.clock && (SlotOf(s, p.key).Some? ==> SlotOf(s, p.key).value.at <= p.at)
  }

  ghost predicate Stamps(s: State) {
    && (forall k :: SlotOf(s, k).Some? ==> SlotOf(s, k).value.at <= s.clock)
    && (forall c :: StampOk(s, c))
  }

  ghost predicate Inv(s: State) {
    Guards(s) && Stamps(s)
  }

  lemma OthersStay(s: State, e: Event, d: Caller)
    requires Legal(s, e) && (e.Tick? || d != e.c)
    ensures PhaseOf(Step(s, e), d) == PhaseOf(s, d)
  {}

  /** Whether a step takes or releases a key is told by its caller's phase alone. */
  lemma GuardsStep(s: State, e: Event)
    requires Guards(s) && Legal(s, e)
    ensures Guards(Step(s, e))
  {
    var t := Step(s, e);
    forall k ensures k in t.inFlight <==> exists c :: Holds(PhaseOf(t, c), k) {
      if k in t.inFlight { var c := Holder(s, e, k); }
      if c :| Holds(PhaseOf(t, c), k) { HeldIsInFlight(s, e, c, k); }
    }
    forall c, d, k | Holds(PhaseOf(t, c), k) && Holds(PhaseOf(t, d), k) ensures c == d { OneHolder(s, e, c, d, k); }
  }

  lemma Holder(s: State, e: Event, k: Key) returns (c: Caller)
    requires Guards(s) && Legal(s, e) && k in Step(s, e).inFlight
    ensures Holds(PhaseOf(Step(s, e), c), k)
  {
    if e.Begin? && PhaseOf(s, e.c).key == k && k !in s.inFlight {
      c := e.c;
    } else {
      assert k in s.inFlight;
      c :| Holds(PhaseOf(s, c), k);
      if !e.Tick? && c != e.c { OthersStay(s, e, c); }
    }
  }

  lemma HeldIsInFlight(s: State, e: Event, c: Caller, k: Key)
    requires Guards(s) && Legal(s, e) && Holds(PhaseOf(Step(s, e), c), k)
    ensures k in Step(s, e).inFlight
  {
    if e.Tick? || c != e.c {
      OthersStay(s, e, c);
      assert Holds(PhaseOf(s, c), k);
      if e.Drop? { assert Holds(PhaseOf(s, e.c), PhaseOf(s, e.c).key); }
    } else if !e.Begin? {
      assert Holds(PhaseOf(s, c), k);
    }
  }

  /** A holder that did not move leaves no room for another. */
  lemma HolderStays(s: State, e: Event, other: Caller, c: Caller, k: Key)
    requires Guards(s) && Legal(s, e) && (e.Tick? || other != e.c)
    requires Holds(PhaseOf(Step(s, e), other), k) && Holds(PhaseOf(Step(s, e), c), k)
    ensures c == other
  {
    OthersStay(s, e, other);
    assert Holds(PhaseOf(s, other), k) && k in s.inFlight;
    if e.Tick? || c != e.c { OthersStay(s, e, c); }
    assert Holds(PhaseOf(s, c), k);
  }

  lemma OneHolder(s: State, e: Event, c: Caller, d: Caller, k: Key)
    requires Guards(s) && Legal(s, e) && Holds(PhaseOf(Step(s, e), c), k) && Holds(PhaseOf(Step(s, e), d), k)
    ensures c == d
  {
    if e.Tick? || d != e.c { HolderStays(s, e, d, c, k); } else if c != e.c { HolderStays(s, e, c, d, k); }
  }

  /** Only the holder of a key fills its slot, and never with an older stamp. */
  lemma SlotStep(s: State, e: Event, k: Key)
    requires Inv(s) && Legal(s, e)
    ensures SlotOf(Step(s, e), k) != SlotOf(s, k) ==> e.Put? && Holds(PhaseOf(s, e.c), k) && k in s.inFlight
    ensures SlotOf(s, k).Some? ==>
      SlotOf(Step(s, e), k).Some? && SlotOf(s, k).value.at <= SlotOf(Step(s, e), k).value.at
  {
    if e.Put? {
      assert StampOk(s, e.c);
      assert Holds(PhaseOf(s, e.c), PhaseOf(s, e.c).key);
    }
  }

  lemma StampsStep(s: State, e: Event)
    requires Inv(s) && Legal(s, e)
    ensures Stamps(Step(s, e))
  {
    var t := Step(s, e);
    forall k ensures SlotOf(t, k).Some? ==> SlotOf(t, k).value.at <= t.clock {
      assert SlotOf(s, k).Some? ==> SlotOf(s, k).value.at <= s.clock;
      if e.Put? { assert StampOk(s, e.c); }
    }
    forall c ensures StampOk(t, c) { StampOkStep(s, e, c); }
  }

  lemma StampOkStep(s: State, e: Event, c: Caller)
    requires Inv(s) && Legal(s, e)
    ensures StampOk(Step(s, e), c)
  {
    assert StampOk(s, c);
    if e.Tick? || c != e.c {
      OthersStay(s, e, c);
      var p := PhaseOf(s, c);
      if p.Putting? && e.Put? {
        assert Holds(p, p.key) && Holds(PhaseOf(s, e.c), PhaseOf(s, e.c).key);
      }
    }
  }

  // ---- whole runs -----------------------------------------------------------------

  ghost predicate RunTo(s: State, es: seq<Event>, t: State)
    decreases |es|
  {
    if es == [] then s == t else Legal(s, es[0]) && RunTo(Step(s, es[0]), es[1..], t)
  }

  lemma {:induction false} RunKeeps(s: State, es: seq<Event>, t: State)
    requires Inv(s) && RunTo(s, es, t)
    ensures Inv(t)
    decreases |es|
  {
    if es != [] {
      GuardsStep(s, es[0]);
      StampsStep(s, es[0]);
      RunKeeps(Step(s, es[0]), es[1..], t);
    }
  }

  lemma InitialInv(s: State)
    requires Initial(s)
    ensures Inv(s)
  {
    forall c ensures PhaseOf(s, c) == Idle {}
  }

  /** After any run the registry is the set of live guards, each key held once. */
  lemma RegistryIsLiveGuards(s: State, es: seq<Event>, t: State)
    requires Initial(s) && RunTo(s, es, t)
    ensures Guards(t)
  {
    InitialInv(s);
    RunKeeps(s, es, t);
  }

  /** Every way out releases: once all callers are done, nothing is in flight. */
  lemma EveryExitReleases(s: State, es: seq<Event>, t: State)
    requires Initial(s) && RunTo(s, es, t)
    requires forall c :: PhaseOf(t, c).Idle? || PhaseOf(t, c).Done?
    ensures t.inFlight == {}
  {
    RegistryIsLiveGuards(s, es, t);
    forall k ensures k !in t.inFlight { assert forall c :: !Holds(PhaseOf(t, c), k); }
  }

  /** A slot once filled stays filled, and its stamp never goes back. */
  lemma {:induction false} StampsNeverGoBack(s: State, es: seq<Event>, t: State, k: Key)
    requires Inv(s) && RunTo(s, es, t) && SlotOf(s, k).Some?
    ensures SlotOf(t, k).Some? && SlotOf(s, k).value.at <= SlotOf(t, k).value.at
    decreases |es|
  {
    if es != [] {
      SlotStep(s, es[0], k);
      GuardsStep(s, es[0]);
      StampsStep(s, es[0]);
      StampsNeverGoBack(Step(s, es[0]), es[1..], t, k);
    }
  }

  /** The caller has found the slot of `k` empty and refreshes, or will, without the key. */
  predicate Unguarded(p: Phase, k: Key) {
    (p.Empty? || p.Alone?) && p.key == k
  }

  /** Once a key's slot has been filled, no further caller takes to refreshing without
      the key: only those that had already found it empty still do. */
  lemma {:induction false} NoNewUnguarded(s: State, es: seq<Event>, t: State, k: Key, c: Caller)
    requires Inv(s) && RunTo(s, es, t) && SlotOf(s, k).Some? && Unguarded(PhaseOf(t, c), k)
    ensures Unguarded(PhaseOf(s, c), k)
    decreases |es|
  {
    if es != [] {
      SlotStep(s, es[0], k);
      GuardsStep(s, es[0]);
      StampsStep(s, es[0]);
      NoNewUnguarded(Step(s, es[0]), es[1..], t, k, c);
      if es[0].Tick? || es[0].c != c { OthersStay(s, es[0], c); }
    }
  }

  // ---- waiting is bounded ---------------------------------------------------------

  ghost predicate WaitOk(s: State, c: Caller) {
    PhaseOf(s, c).Waiting? ==> PhaseOf(s, c).until <= s.clock + MAX_WAIT
  }

  lemma {:induction false} WaitsKept(s: State, es: seq<Event>, t: State, c: Caller)
    requires WaitOk(s, c) && RunTo(s, es, t)
    ensures WaitOk(t, c)
    decreases |es|
  {
    if es != [] {
      if es[0].Tick? || es[0].c != c { OthersStay(s, es[0], c); }
      WaitsKept(Step(s, es[0]), es[1..], t, c);
    }
  }

  /** While a caller takes no step its phase stays, whatever the others do. */
  lemma {:induction false} StaysPut(s: State, es: seq<Event>, t: State, c: Caller)
    requires RunTo(s, es, t) && forall i | 0 <= i < |es| :: es[i].Tick? || es[i].c != c
    ensures PhaseOf(t, c) == PhaseOf(s, c)
    decreases |es|
  {
    if es != [] {
      assert es[0].Tick? || es[0].c != c;
      OthersStay(s, es[0], c);
      StaysPut(Step(s, es[0]), es[1..], t, c);
    }
  }

  /** Nobody is ever stuck: once `MAX_WAIT` has passed, and before that unless it waits
      for a holder, a caller that is not done has a step of its own to take, whatever the
      others did meanwhile. */
  lemma NobodyIsStuck(s0: State, es: seq<Event>, s: State, more: seq<Event>, t: State, c: Caller) returns (e: Event)
    requires Initial(s0) && RunTo(s0, es, s) && !PhaseOf(s, c).Idle? && !PhaseOf(s, c).Done?
    requires RunTo(s, more, t) && forall i | 0 <= i < |more| :: more[i].Tick? || more[i].c != c
    requires s.clock + MAX_WAIT <= t.clock || !PhaseOf(s, c).Waiting? || PhaseOf(s, c).key !in t.inFlight
    ensures Legal(t, e) && !e.Tick? && e.c == c && PhaseOf(Step(t, e), c) != PhaseOf(t, c)
  {
    WaitsKept(s0, es, s, c);
    StaysPut(s, more, t, c);
    match PhaseOf(t, c)
    case Looking(_, _, _) => e := Read(c);
    case Missed(_, _) => e := Begin(c);
    case Waiting(_, _, _) => e := Wake(c);
    case Rereading(_, _, _) => e := Reread(c);
    case Settling(_) => e := ReadAny(c);
    case Empty(_) => e := GoAlone(c);
    case Alone(_) => e := Refresh(c, None);
    case Guarded(_) => e := Refresh(c, None);
    case Fetched(_, _) => e := ReadClock(c);
    case Putting(_, _, _) => e := Put(c);
    case Leaving(_, _) => e := Drop(c);
  }

  // ---- an unguarded refresh can begin after the first put --------------------------------

  const A := Caller(0)
  const B := Caller(1)

  lemma RunCons(s: State, e: Event, es: seq<Event>, t: State)
    requires Legal(s, e) && RunTo(Step(s, e), es, t)
    ensures RunTo(s, [e] + es, t)
  {
    assert ([e] + es)[1..] == es;
  }

  lemma Run4(s: State, a: Event, b: Event, c: Event, d: Event, es: seq<Event>, t: State) returns (all: seq<Event>)
    requires Legal(s, a) && Legal(Step(s, a), b) && Legal(Step(Step(s, a), b), c)
    requires Legal(Step(Step(Step(s, a), b), c), d)
    requires RunTo(Step(Step(Step(Step(s, a), b), c), d), es, t)
    ensures RunTo(s, all, t)
  {
    RunCons(Step(Step(Step(s, a), b), c), d, es, t);
    RunCons(Step(Step(s, a), b), c, [d] + es, t);
    RunCons(Step(s, a), b, [c] + ([d] + es), t);
    RunCons(s, a, [b] + ([c] + ([d] + es)), t);
    all := [a] + ([b] + ([c] + ([d] + es)));
  }

  const BEFORE := State(map[], {}, map[], 0)

  function BothMissed(k: Key): State { State(map[A := Missed(k, 10), B := Missed(k, 10)], {}, map[], 0) }

  function BGaveUp(k: Key): State { State(map[A := Guarded(k), B := Settling(k)], {k}, map[], MAX_WAIT) }

  function AFilled(k: Key): State {
    State(map[A := Leaving(k, Served(7)), B := Empty(k)], {k}, map[k := Stamped(7, MAX_WAIT)], MAX_WAIT)
  }

  lemma TheyMiss(k: Key, es: seq<Event>, t: State) returns (all: seq<Event>)
    requires RunTo(BothMissed(k), es, t)
    ensures RunTo(BEFORE, all, t)
  {
    assert Step(Step(Step(Step(BEFORE, Call(A, k, 10)), Read(A)), Call(B, k, 10)), Read(B)) == BothMissed(k);
    all := Run4(BEFORE, Call(A, k, 10), Read(A), Call(B, k, 10), Read(B), es, t);
  }

  lemma BWaits(k: Key, es: seq<Event>, t: State) returns (all: seq<Event>)
    requires RunTo(BGaveUp(k), es, t)
    ensures RunTo(BothMissed(k), all, t)
  {
    var s := BothMissed(k);
    var u := Step(Step(Step(Step(s, Begin(A)), Begin(B)), Tick(MAX_WAIT)), Wake(B));
    assert Step(u, Reread(B)) == BGaveUp(k);
    RunCons(u, Reread(B), es, t);
    all := Run4(s, Begin(A), Begin(B), Tick(MAX_WAIT), Wake(B), [Reread(B)] + es, t);
  }

  lemma AFills(k: Key) returns (all: seq<Event>)
    ensures RunTo(BGaveUp(k), all, AFilled(k))
  {
    var s := BGaveUp(k);
    assert Step(Step(Step(Step(s, ReadAny(B)), Refresh(A, Some(7))), ReadClock(A)), Put(A)) == AFilled(k);
    all := Run4(s, ReadAny(B), Refresh(A, Some(7)), ReadClock(A), Put(A), [], AFilled(k));
  }

  /** The bound is tight. B gives up waiting and finds the slot empty just before A fills
      it; B's own refresh, without the key, then begins after the first put. */
  lemma UnguardedAfterPut(k: Key) returns (s: State, es: seq<Event>, t: State)
    ensures Initial(s) && RunTo(s, es, t) && SlotOf(t, k).Some? && Legal(t, GoAlone(B)) && PhaseOf(t, B) == Empty(k)
  {
    s, t := BEFORE, AFilled(k);
    es := AFills(k);
    es := BWaits(k, es, t);
    es := TheyMiss(k, es, t);
  }
}
