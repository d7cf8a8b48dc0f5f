/** What the callers of the cached refresh are answered, over every run of the protocol. */
module SnapshotAnswers {
  import opened Rows
  import opened SingleFlight
  import opened SnapshotProtocol

  predicate Own(e: Event, c: Caller) {
    !e.Tick? && e.c == c
  }

  /** The caller takes no step from event `i` on. */
  predicate Still(es: seq<Event>, i: nat, c: Caller) {
    forall j | i <= j < |es| :: !Own(es[j], c)
  }

  /** The caller makes no new call from event `i` on. */
  predicate SameCall(es: seq<Event>, i: nat, c: Caller) {
    forall j | i <= j < |es| :: !(es[j].Call? && es[j].c == c)
  }

  // ---- runs, from their end -----------------------------------------------------------------

  /** Everything but the last event of a run, and the state before it. */
  lemma {:induction false} RunLast(s: State, es: seq<Event>, t: State) returns (u: State)
    requires RunTo(s, es, t) && es != []
    ensures RunTo(s, es[..|es| - 1], u) && Legal(u, es[|es| - 1]) && Step(u, es[|es| - 1]) == t
    decreases |es|
  {
    if |es| == 1 {
      u := s;
    } else {
      u := RunLast(Step(s, es[0]), es[1..], t);
      assert es[..|es| - 1][0] == es[0] && es[..|es| - 1][1..] == es[1..][..|es[1..]| - 1];
    }
  }

  /** The state a run was in before its event `i`. */
  ghost predicate Was(s: State, es: seq<Event>, i: nat, u: State) {
    i < |es| && RunTo(s, es[..i], u) && Legal(u, es[i])
  }

  lemma WasEarlier(s: State, es: seq<Event>, i: nat, u: State)
    requires es != [] && Was(s, es[..|es| - 1], i, u)
    ensures Was(s, es, i, u)
  {
    assert es[..|es| - 1][..i] == es[..i];
  }

  lemma StillLonger(es: seq<Event>, i: nat, c: Caller)
    requires es != [] && i <= |es| - 1 && !Own(es[|es| - 1], c) && Still(es[..|es| - 1], i, c)
    ensures Still(es, i, c)
  {
    forall j | i <= j < |es| ensures !Own(es[j], c) { if j < |es| - 1 { assert es[..|es| - 1][j] == es[j]; } }
  }

  lemma SameLonger(es: seq<Event>, i: nat, c: Caller)
    requires es != [] && i <= |es| - 1 && SameCall(es[..|es| - 1], i, c)
    requires !(es[|es| - 1].Call? && es[|es| - 1].c == c)
    ensures SameCall(es, i, c)
  {
    forall j | i <= j < |es| ensures !(es[j].Call? && es[j].c == c) {
      if j < |es| - 1 { assert es[..|es| - 1][j] == es[j]; }
    }
  }

  /** A caller that is not idle got where it is by its own last step. */
  lemma {:induction false} LastStep(s: State, es: seq<Event>, t: State, c: Caller) returns (i: nat, u: State)
    requires RunTo(s, es, t) && PhaseOf(s, c).Idle? && !PhaseOf(t, c).Idle?
    ensures Was(s, es, i, u) && Own(es[i], c) && Still(es, i + 1, c)
    ensures PhaseOf(Step(u, es[i]), c) == PhaseOf(t, c)
    decreases |es|
  {
    var n := |es| - 1;
    var v := RunLast(s, es, t);
    if Own(es[n], c) {
      i, u := n, v;
    } else {
      OthersStay(v, es[n], c);
      i, u := LastStep(s, es[..n], v, c);
      WasEarlier(s, es, i, u);
      StillLonger(es, i + 1, c);
      assert es[..n][i] == es[i];
    }
  }

  /** The phase still speaks of the key and the time to live the caller asked with. */
  predicate AskedFor(p: Phase, key: Key, ttl: int) {
    !p.Idle? && !p.Done? && p.key == key &&
    (p.Looking? || p.Missed? || p.Waiting? || p.Rereading? ==> p.ttl == ttl)
  }

  /** Until it is answered a caller is about the key and the time to live of its last call. */
  lemma {:induction false} StillAsking(s: State, es: seq<Event>, t: State, c: Caller) returns (i: nat, u: State)
    requires RunTo(s, es, t) && PhaseOf(s, c).Idle? && !PhaseOf(t, c).Idle? && !PhaseOf(t, c).Done?
    ensures Was(s, es, i, u) && es[i].Call? && es[i].c == c && SameCall(es, i + 1, c)
    ensures AskedFor(PhaseOf(t, c), es[i].key, es[i].ttl)
    decreases |es|
  {
    var n := |es| - 1;
    var v := RunLast(s, es, t);
    if es[n].Call? && es[n].c == c {
      i, u := n, v;
    } else {
      if !Own(es[n], c) { OthersStay(v, es[n], c); }
      i, u := StillAsking(s, es[..n], v, c);
      WasEarlier(s, es, i, u);
      SameLonger(es, i + 1, c);
      assert es[..n][i] == es[i];
    }
  }

  // ---- served from the cache ------------------------------------------------------------------

  /** Young enough to be served at that time. */
  predicate Young(slot: Slot, ttl: int, now: int) {
    slot.Some? && now < slot.value.at + ttl
  }

  /** The first read serves the value then in the slot exactly when its stamp is younger
      than the time to live, by the clock as it stood at the call. */
  lemma FirstReadServes(s: State, es: seq<Event>, t: State, c: Caller) returns (i: nat, u: State)
    requires RunTo(s, es, t) && PhaseOf(s, c).Idle? && Legal(t, Read(c))
    ensures Was(s, es, i, u) && es[i].Call? && es[i].c == c && Still(es, i + 1, c)
    ensures var slot := SlotOf(t, es[i].key);
      PhaseOf(Step(t, Read(c)), c) ==
        if Young(slot, es[i].ttl, u.clock) then Done(Served(slot.value.value)) else Missed(es[i].key, es[i].ttl)
  {
    i, u := LastStep(s, es, t, c);
  }

  /** So does the read after a wait, by the clock as it stood when the wait ended. */
  lemma RereadServes(s: State, es: seq<Event>, t: State, c: Caller) returns (i: nat, u: State)
    requires RunTo(s, es, t) && PhaseOf(s, c).Idle? && Legal(t, Reread(c))
    ensures Was(s, es, i, u) && es[i] == Wake(c) && Still(es, i + 1, c)
    ensures var p, slot := PhaseOf(u, c), SlotOf(t, PhaseOf(t, c).key);
      && p.Waiting? && p.key == PhaseOf(t, c).key
      && PhaseOf(Step(t, Reread(c)), c) ==
           if Young(slot, p.ttl, u.clock) then Done(Served(slot.value.value)) else Settling(p.key)
  {
    i, u := LastStep(s, es, t, c);
  }

  /** A caller stops waiting when nobody holds the key, or two seconds after it began. */
  lemma WakesInTime(s: State, es: seq<Event>, t: State, c: Caller) returns (i: nat, u: State)
    requires RunTo(s, es, t) && PhaseOf(s, c).Idle? && PhaseOf(t, c).Waiting?
    ensures Was(s, es, i, u) && es[i] == Begin(c) && Still(es, i + 1, c)
    ensures PhaseOf(t, c).key in u.inFlight
    ensures Legal(t, Wake(c)) <==> PhaseOf(t, c).key !in t.inFlight || u.clock + 2_000 <= t.clock
  {
    i, u := LastStep(s, es, t, c);
  }

  // ---- taking to refreshing -------------------------------------------------------------------

  /** On its way to a refresh or past it. */
  predicate Refreshing(p: Phase) {
    p.Guarded? || p.Fetched? || p.Putting? || p.Leaving? || p.Waiting? || p.Rereading? || p.Settling? || p.Empty? ||
    p.Alone? || p.Missed?
  }

  /** The caller's read before event `i` found nothing young enough for its call of `k`. */
  ghost predicate MissedAt(s: State, es: seq<Event>, i: nat, u: State, c: Caller, k: Key) {
    && Was(s, es, i, u) && es[i] == Read(c) && SameCall(es, i, c)
    && var p := PhaseOf(u, c);
       p.Looking? && p.key == k && !Young(SlotOf(u, k), p.ttl, p.now)
  }

  /** A caller refreshes, or waits for one that does, only if its first read found the slot
      empty or at least as old as the time to live. */
  lemma {:induction false} RefreshIsDue(s: State, es: seq<Event>, t: State, c: Caller) returns (i: nat, u: State)
    requires RunTo(s, es, t) && PhaseOf(s, c).Idle? && Refreshing(PhaseOf(t, c))
    ensures MissedAt(s, es, i, u, c, PhaseOf(t, c).key)
    decreases |es|
  {
    var n := |es| - 1;
    var v := RunLast(s, es, t);
    if es[n] == Read(c) {
      i, u := n, v;
    } else {
      if !Own(es[n], c) { OthersStay(v, es[n], c); }
      i, u := RefreshIsDue(s, es[..n], v, c);
      WasEarlier(s, es, i, u);
      SameLonger(es, i, c);
      assert es[..n][i] == es[i];
    }
  }

  /** Without the key only if, besides, it found the slot empty after its wait. */
  lemma {:induction false} AloneWasEmpty(s: State, es: seq<Event>, t: State, c: Caller) returns (i: nat, u: State)
    requires RunTo(s, es, t) && PhaseOf(s, c).Idle? && (PhaseOf(t, c).Alone? || PhaseOf(t, c).Empty?)
    ensures Was(s, es, i, u) && es[i] == ReadAny(c) && SameCall(es, i, c)
    ensures SlotOf(u, PhaseOf(t, c).key).None?
    decreases |es|
  {
    var n := |es| - 1;
    var v := RunLast(s, es, t);
    if es[n] == ReadAny(c) {
      i, u := n, v;
    } else {
      if !Own(es[n], c) { OthersStay(v, es[n], c); }
      i, u := AloneWasEmpty(s, es[..n], v, c);
      WasEarlier(s, es, i, u);
      SameLonger(es, i, c);
      assert es[..n][i] == es[i];
    }
  }

  // ---- where values come from -----------------------------------------------------------------

  /** Event `i` is a refresh of `k` that returns `v`. */
  ghost predicate ReturnedAt(s: State, es: seq<Event>, i: nat, u: State, k: Key, v: int) {
    && Was(s, es, i, u) && es[i].Refresh? && es[i].result == Some(v)
    && (PhaseOf(u, es[i].c).Alone? || PhaseOf(u, es[i].c).Guarded?) && PhaseOf(u, es[i].c).key == k
  }

  /** The value stood in the key's slot at the start, or some refresh of the key returned it. */
  ghost predicate Came(s: State, es: seq<Event>, k: Key, v: int) {
    (SlotOf(s, k).Some? && SlotOf(s, k).value.value == v) || exists i: nat, u :: ReturnedAt(s, es, i, u, k, v)
  }

  lemma CameLonger(s: State, es: seq<Event>, k: Key, v: int)
    requires es != [] && Came(s, es[..|es| - 1], k, v)
    ensures Came(s, es, k, v)
  {
    if !(SlotOf(s, k).Some? && SlotOf(s, k).value.value == v) {
      var i: nat, u :| ReturnedAt(s, es[..|es| - 1], i, u, k, v);
      WasEarlier(s, es, i, u);
      assert es[..|es| - 1][i] == es[i];
      assert ReturnedAt(s, es, i, u, k, v);
    }
  }

  /** A value the caller has got from a refresh and still carries. */
  function Carried(p: Phase): Option<int> {
    match p
    case Fetched(_, v) => Some(v)
    case Putting(_, v, _) => Some(v)
    case Leaving(_, Served(v)) => Some(v)
    case _ => None
  }

  ghost predicate CarriedCame(s: State, es: seq<Event>, p: Phase) {
    Carried(p).Some? ==> Came(s, es, p.key, Carried(p).value)
  }

  ghost predicate SlotCame(s: State, es: seq<Event>, t: State, k: Key) {
    SlotOf(t, k).Some? ==> Came(s, es, k, SlotOf(t, k).value.value)
  }

  ghost predicate Sourced(s: State, es: seq<Event>, t: State) {
    (forall k :: SlotCame(s, es, t, k)) && forall c :: CarriedCame(s, es, PhaseOf(t, c))
  }

  lemma SlotCameStep(s: State, es: seq<Event>, u: State, t: State, k: Key)
    requires es != [] && RunTo(s, es[..|es| - 1], u) && Legal(u, es[|es| - 1]) && Step(u, es[|es| - 1]) == t
    requires Sourced(s, es[..|es| - 1], u)
    ensures SlotCame(s, es, t, k)
  {
    var e := es[|es| - 1];
    assert SlotCame(s, es[..|es| - 1], u, k);
    if SlotOf(u, k).Some? { CameLonger(s, es, k, SlotOf(u, k).value.value); }
    if e.Put? {
      var p := PhaseOf(u, e.c);
      assert CarriedCame(s, es[..|es| - 1], p);
      CameLonger(s, es, p.key, p.value);
    }
  }

  lemma CarriedCameStep(s: State, es: seq<Event>, u: State, t: State, c: Caller)
    requires es != [] && RunTo(s, es[..|es| - 1], u) && Legal(u, es[|es| - 1]) && Step(u, es[|es| - 1]) == t
    requires Sourced(s, es[..|es| - 1], u)
    ensures CarriedCame(s, es, PhaseOf(t, c))
  {
    var n := |es| - 1;
    var e, p, q := es[n], PhaseOf(u, c), PhaseOf(t, c);
    assert CarriedCame(s, es[..n], p);
    if Carried(p).Some? { CameLonger(s, es, p.key, Carried(p).value); }
    if !Own(e, c) {
      OthersStay(u, e, c);
    } else if e.Refresh? && Carried(q).Some? {
      assert ReturnedAt(s, es, n, u, q.key, Carried(q).value);
    }
  }

  /** Whatever stands in a slot or is carried back to it came from a refresh of that key, or
      stood there from the start. */
  lemma {:induction false} RunSourced(s: State, es: seq<Event>, t: State)
    requires RunTo(s, es, t) && forall c :: PhaseOf(s, c).Idle?
    ensures Sourced(s, es, t)
    decreases |es|
  {
    if es == [] {
      forall c ensures CarriedCame(s, es, PhaseOf(t, c)) { assert PhaseOf(s, c).Idle?; }
      forall k ensures SlotCame(s, es, t, k) {}
    } else {
      var u := RunLast(s, es, t);
      RunSourced(s, es[..|es| - 1], u);
      forall k ensures SlotCame(s, es, t, k) { SlotCameStep(s, es, u, t, k); }
      forall c ensures CarriedCame(s, es, PhaseOf(t, c)) { CarriedCameStep(s, es, u, t, c); }
    }
  }

  lemma {:induction false} RunSnoc(s: State, es: seq<Event>, t: State, e: Event)
    requires RunTo(s, es, t) && Legal(t, e)
    ensures RunTo(s, es + [e], Step(t, e)) && Was(s, es + [e], |es|, t)
    decreases |es|
  {
    if es == [] {
      assert [e][1..] == [] && es + [e] == [e];
    } else {
      RunSnoc(Step(s, es[0]), es[1..], t, e);
      assert (es + [e])[1..] == es[1..] + [e];
    }
    assert (es + [e])[..|es|] == es;
  }

  /** Every value a caller is served is real: it was returned by some refresh of the key the
      caller asked for, or stood in its slot at the start. */
  lemma ServedIsReal(s: State, es: seq<Event>, t: State, e: Event, v: int)
    requires RunTo(s, es, t) && forall c :: PhaseOf(s, c).Idle?
    requires Legal(t, e) && !e.Tick? && PhaseOf(Step(t, e), e.c) == Done(Served(v))
    ensures Came(s, es + [e], PhaseOf(t, e.c).key, v)
  {
    var p := PhaseOf(t, e.c);
    RunSourced(s, es, t);
    RunSnoc(s, es, t, e);
    assert (es + [e])[..|es|] == es;
    assert SlotCame(s, es, t, p.key) && CarriedCame(s, es, p);
    if e.Refresh? {
      assert ReturnedAt(s, es + [e], |es|, t, p.key, v);
    } else {
      CameLonger(s, es + [e], p.key, v);
    }
  }

  // ---- the holder's own answer ------------------------------------------------------------------

  /** Where the holder of `k` may be once its refresh has returned. */
  predicate Owing(p: Phase, k: Key, result: Option<int>) {
    match p
    case Fetched(l, v) => l == k && result == Some(v)
    case Putting(l, v, _) => l == k && result == Some(v)
    case Leaving(l, answer) => l == k && answer == Told(result)
    case Done(answer) => answer == Told(result)
    case _ => false
  }

  function Told(result: Option<int>): Answer {
    if result.Some? then Served(result.value) else Failed
  }

  lemma {:induction false} StillOwing(s: State, es: seq<Event>, t: State, c: Caller, k: Key, result: Option<int>)
    requires RunTo(s, es, t) && SameCall(es, 0, c) && Owing(PhaseOf(s, c), k, result)
    ensures Owing(PhaseOf(t, c), k, result)
    decreases |es|
  {
    if es != [] {
      if !Own(es[0], c) { OthersStay(s, es[0], c); }
      assert !(es[0].Call? && es[0].c == c);
      forall j | 0 <= j < |es[1..]| ensures !(es[1..][j].Call? && es[1..][j].c == c) { assert es[1..][j] == es[j + 1]; }
      StillOwing(Step(s, es[0]), es[1..], t, c, k, result);
    }
  }

  /** A caller that refreshed is answered with what its own refresh returned, a failure
      included: never with what the slot held before. */
  lemma RefreshIsAnswered(s: State, c: Caller, result: Option<int>, es: seq<Event>, t: State)
    requires Legal(s, Refresh(c, result)) && RunTo(Step(s, Refresh(c, result)), es, t)
    requires SameCall(es, 0, c) && PhaseOf(t, c).Done?
    ensures PhaseOf(t, c).answer == Told(result)
  {
    StillOwing(Step(s, Refresh(c, result)), es, t, c, PhaseOf(s, c).key, result);
  }

  /** What a caller puts into the slot is what its own refresh returned, stamped by the clock
      as it stood between the two. */
  lemma {:induction false} PutIsOwnRefresh(s: State, es: seq<Event>, t: State, c: Caller)
    returns (i: nat, u: State)
    requires RunTo(s, es, t) && PhaseOf(s, c).Idle?
    requires PhaseOf(t, c).Fetched? || PhaseOf(t, c).Putting?
    ensures var p := PhaseOf(t, c);
      ReturnedAt(s, es, i, u, p.key, p.value) && es[i].c == c && SameCall(es, i, c) &&
      u.clock <= t.clock && (p.Putting? ==> u.clock <= p.at <= t.clock)
    decreases |es|
  {
    var n := |es| - 1;
    var v := RunLast(s, es, t);
    if es[n].Refresh? && es[n].c == c {
      i, u := n, v;
    } else {
      if !Own(es[n], c) { OthersStay(v, es[n], c); }
      i, u := PutIsOwnRefresh(s, es[..n], v, c);
      WasEarlier(s, es, i, u);
      SameLonger(es, i, c);
      assert es[..n][i] == es[i];
    }
  }

  /** And the slot then holds just that. */
  lemma PutFills(s: State, es: seq<Event>, t: State, c: Caller, k: Key) returns (i: nat, u: State, fill: Stamped)
    requires RunTo(s, es, t) && PhaseOf(s, c).Idle? && Legal(t, Put(c))
    ensures ReturnedAt(s, es, i, u, PhaseOf(t, c).key, fill.value) && es[i].c == c && SameCall(es, i, c)
    ensures u.clock <= fill.at <= t.clock
    ensures SlotOf(Step(t, Put(c)), k) == if k == PhaseOf(t, c).key then Some(fill) else SlotOf(t, k)
  {
    i, u := PutIsOwnRefresh(s, es, t, c);
    fill := Stamped(PhaseOf(t, c).value, PhaseOf(t, c).at);
  }
}
