/**
 The session store's coalescing writer: a synchronous cache in front of a save that
 takes a while and may fail.
 */
module SessionStore {
  import opened Common

  type Value = nat
  type Waiter = nat

  datatype Store = Store(
    cache: Option<Value>, savedValue: Option<Value>, saveInFlight: bool,
    pending: Option<Value>, drainWaiters: seq<Waiter>)

  // What a call or a completion does: the store after it, the value it hands to the
  // save, and the waiters it releases.
  datatype Effect = Effect(store: Store, saves: Option<Value>, releases: seq<Waiter>)

  function SetItem(s: Store, v: Value): Effect {
    if s.cache == Some(v) && (s.saveInFlight || s.savedValue == Some(v)) then Effect(s, None, [])
    else if s.saveInFlight then Effect(s.(cache := Some(v), pending := Some(v)), None, [])
    else Effect(s.(cache := Some(v), saveInFlight := true), Some(v), [])
  }

  function Drain(s: Store, waiter: Waiter): Effect {
    if !s.saveInFlight then Effect(s, None, [waiter])
    else Effect(s.(drainWaiters := s.drainWaiters + [waiter]), None, [])
  }

  function Hydrate(s: Store, seed: Option<Value>): Effect {
    Effect(s.(cache := seed, savedValue := seed), None, [])
  }

  // The save of `v` resolved.
  function Recorded(s: Store, v: Value): Effect {
    Effect(s.(savedValue := Some(v)), None, [])
  }

  // The save settled either way and what follows it runs.
  function Finished(s: Store): Effect {
    if s.pending.Some? then Effect(s.(pending := None), s.pending, [])
    else Effect(s.(saveInFlight := false, drainWaiters := []), None, s.drainWaiters)
  }

  // ----- Runs ---------------------------------------------------------------------------

  // A save handed to the host: not yet written, written or failed, resolution seen.
  datatype Stage = Writing | Wrote | Failed | Seen
  datatype Flight = Flight(value: Value, stage: Stage)

  // The store, the saves in the air, the disk, and what only the history knows: the
  // last value handed to the save or hydrated, whether the disk took it, how many saves
  // were made, and every waiter released.
  datatype World = World(
    store: Store, flights: seq<Flight>, disk: Option<Value>,
    attempted: Option<Value>, taken: bool, saves: nat, released: seq<Waiter>)

  datatype Event =
    | Sets(value: Value)
    | Drains(waiter: Waiter)
    // At boot, from what the host read.
    | Hydrates(seed: Option<Value>)
    // The host replaces the file whole, or fails and leaves it.
    | HostWrites(i: nat, ok: bool)
    | Resolves(i: nat)
    | Settles(i: nat)

  ghost predicate Allowed(w: World, e: Event) {
    match e
    case Hydrates(_) => w.flights == [] && !w.store.saveInFlight
    case HostWrites(i, _) => i < |w.flights| && w.flights[i].stage.Writing?
    case Resolves(i) => i < |w.flights| && w.flights[i].stage.Wrote?
    case Settles(i) => i < |w.flights| && (w.flights[i].stage.Failed? || w.flights[i].stage.Seen?)
    case _ => true
  }

  function Without(fs: seq<Flight>, i: nat): seq<Flight>
    requires i < |fs|
  {
    fs[..i] + fs[i + 1..]
  }

  function Applied(w: World, f: Effect): World {
    w.(store := f.store, released := w.released + f.releases,
       flights := if f.saves.Some? then w.flights + [Flight(f.saves.value, Writing)] else w.flights,
       attempted := if f.saves.Some? then f.saves else w.attempted,
       taken := if f.saves.Some? then false else w.taken,
       saves := if f.saves.Some? then w.saves + 1 else w.saves)
  }

  function Step(w: World, e: Event): World
    requires Allowed(w, e)
  {
    match e
    case Sets(v) => Applied(w, SetItem(w.store, v))
    case Drains(waiter) => Applied(w, Drain(w.store, waiter))
    case Hydrates(seed) => Applied(w, Hydrate(w.store, seed)).(attempted := seed, taken := w.disk == seed)
    case HostWrites(i, ok) =>
      var v := w.flights[i].value;
      if ok then w.(flights := w.flights[i := Flight(v, Wrote)], disk := Some(v), taken := w.attempted == Some(v))
      else w.(flights := w.flights[i := Flight(v, Failed)])
    case Resolves(i) =>
      var v := w.flights[i].value;
      Applied(w.(flights := w.flights[i := Flight(v, Seen)]), Recorded(w.store, v))
    case Settles(i) => Applied(w.(flights := Without(w.flights, i)), Finished(w.store))
  }

  ghost predicate Run(worlds: seq<World>, events: seq<Event>) {
    && |worlds| == |events| + 1
    && worlds[0] == World(Store(None, None, false, None, []), [], worlds[0].disk, None, worlds[0].disk == None, 0, [])
    && forall i :: 0 <= i < |events| ==> Allowed(worlds[i], events[i]) && worlds[i + 1] == Step(worlds[i], events[i])
  }

  // ----- What every step keeps --------------------------------------------------------------

  ghost predicate Inv(w: World) {
    var s := w.store;
    // One save in the air at most, exactly while the store says so, of the last value attempted.
    && (if s.saveInFlight then |w.flights| == 1 && w.attempted == Some(w.flights[0].value) else w.flights == [])
    // The cache is the queued value, else the value in the air, else the one last attempted.
    && s.cache == (if s.pending.Some? then s.pending else w.attempted)
    && (s.pending.Some? ==> s.saveInFlight)
    // Nobody waits while idle.
    && (!s.saveInFlight ==> s.drainWaiters == [])
    && (w.taken ==> w.disk == w.attempted)
    && (s.saveInFlight ==> match w.flights[0].stage
          case Writing => !w.taken
          case Failed => !w.taken
          case Wrote => w.taken
          case Seen => w.taken && s.savedValue == w.attempted)
    // What counts as saved, once idle, is on disk whenever the last attempt was taken.
    && (!s.saveInFlight && w.taken ==> s.savedValue == w.attempted)
  }

  lemma StepKeepsInv(w: World, e: Event)
    requires Inv(w) && Allowed(w, e)
    ensures Inv(Step(w, e))
  {
  }

  lemma {:induction false} RunKeepsInv(worlds: seq<World>, events: seq<Event>, i: nat)
    requires Run(worlds, events) && i < |worlds|
    ensures Inv(worlds[i])
  {
    if i > 0 {
      RunKeepsInv(worlds, events, i - 1);
      StepKeepsInv(worlds[i - 1], events[i - 1]);
    }
  }

  // At most one save is in the air, and the cache is what is queued behind it, else
  // what it carries. Idle after a save the disk took, disk and cache agree.
  lemma CacheAgrees(worlds: seq<World>, events: seq<Event>, i: nat)
    requires Run(worlds, events) && i < |worlds|
    ensures var w := worlds[i];
      && |w.flights| <= 1 && (w.store.saveInFlight <==> |w.flights| == 1)
      && (w.store.saveInFlight ==>
            w.store.cache == if w.store.pending.Some? then w.store.pending else Some(w.flights[0].value))
      && (!w.store.saveInFlight && w.taken ==> w.disk == w.store.cache)
  {
    RunKeepsInv(worlds, events, i);
  }

  // A waiter is let go only into a store with nothing in the air, nothing queued and
  // the cached value attempted; and then all who waited are let go together.
  lemma WaitersLeaveIdle(worlds: seq<World>, events: seq<Event>, i: nat)
    requires Run(worlds, events) && i < |events|
    requires worlds[i + 1].released != worlds[i].released
    ensures worlds[i + 1].released
         == worlds[i].released + if events[i].Drains? then [events[i].waiter] else worlds[i].store.drainWaiters
    ensures var w := worlds[i + 1];
      && w.flights == [] && w.store.pending.None? && w.store.drainWaiters == []
      && w.store.cache == w.attempted
  {
    RunKeepsInv(worlds, events, i);
    RunKeepsInv(worlds, events, i + 1);
  }

  // A new save starts only when none is in the air, or in the step that ends one.
  lemma SavesNeverOverlap(worlds: seq<World>, events: seq<Event>, i: nat)
    requires Run(worlds, events) && i < |events|
    requires worlds[i + 1].saves != worlds[i].saves
    ensures worlds[i + 1].saves == worlds[i].saves + 1
    ensures worlds[i].flights == [] || (events[i].Settles? && |worlds[i].flights| == 1)
  {
    RunKeepsInv(worlds, events, i);
  }

  // While one save is in the air a burst of any length makes no save, and queues only
  // its latest value.
  lemma {:induction false} BurstQueuesOne(worlds: seq<World>, events: seq<Event>, i: nat, j: nat)
    requires Run(worlds, events) && i <= j < |worlds| && worlds[i].store.saveInFlight
    requires forall k :: i <= k < j ==> !events[k].Settles?
    ensures worlds[j].saves == worlds[i].saves && worlds[j].store.saveInFlight
    ensures |worlds[i].flights| == 1 == |worlds[j].flights|
    ensures worlds[j].flights[0].value == worlds[i].flights[0].value
    decreases j
  {
    RunKeepsInv(worlds, events, i);
    if i < j {
      BurstQueuesOne(worlds, events, i, j - 1);
      RunKeepsInv(worlds, events, j - 1);
    }
  }

  lemma {:induction false} LatestIsCached(worlds: seq<World>, events: seq<Event>, i: nat, j: nat)
    requires Run(worlds, events) && i < j < |worlds| && events[i].Sets?
    requires forall k :: i < k < j ==> !events[k].Sets? && !events[k].Hydrates?
    ensures worlds[j].store.cache == Some(events[i].value)
    decreases j
  {
    if i + 1 < j {
      LatestIsCached(worlds, events, i, j - 1);
    }
  }

  // So the burst costs one further save at most, of its latest value: at step `i` a
  // save is in the air, it settles at `m` and is the first to, the last value is set at
  // `l` before, and nothing is set until the next settles at `n`.
  lemma BurstCostsOneSave(worlds: seq<World>, events: seq<Event>, i: nat, l: nat, m: nat, n: nat)
    requires Run(worlds, events) && i <= l < m < n < |events| && worlds[i].store.saveInFlight
    requires events[l].Sets? && events[m].Settles? && events[n].Settles?
    requires forall k :: i <= k < n && k != m ==> !events[k].Settles?
    requires forall k :: l < k < n ==> !events[k].Sets? && !events[k].Hydrates?
    ensures worlds[n + 1].saves == worlds[i].saves + 1
    ensures worlds[n + 1].flights == []
    ensures worlds[n + 1].attempted == Some(events[l].value) == worlds[n + 1].store.cache
  {
    BurstQueuesOne(worlds, events, i, m);
    RunKeepsInv(worlds, events, m);
    RunKeepsInv(worlds, events, m + 1);
    RunKeepsInv(worlds, events, n);
    RunKeepsInv(worlds, events, n + 1);
    LatestIsCached(worlds, events, l, n);
    LatestIsCached(worlds, events, l, n + 1);
    if worlds[m + 1].store.saveInFlight {
      BurstQueuesOne(worlds, events, m + 1, n);
      NothingQueued(worlds, events, m + 1, n);
    } else {
      IdleStays(worlds, events, m + 1, n);
    }
  }

  lemma {:induction false} NothingQueued(worlds: seq<World>, events: seq<Event>, i: nat, j: nat)
    requires Run(worlds, events) && i <= j < |worlds| && worlds[i].store.pending.None?
    requires forall k :: i <= k < j ==> !events[k].Sets?
    ensures worlds[j].store.pending.None?
    decreases j
  {
    if i < j {
      NothingQueued(worlds, events, i, j - 1);
    }
  }

  lemma {:induction false} IdleStays(worlds: seq<World>, events: seq<Event>, i: nat, j: nat)
    requires Run(worlds, events) && i <= j < |worlds| && !worlds[i].store.saveInFlight
    requires forall k :: i <= k < j ==> !events[k].Sets?
    ensures !worlds[j].store.saveInFlight && worlds[j].flights == []
    decreases j
  {
    RunKeepsInv(worlds, events, i);
    if i < j {
      IdleStays(worlds, events, i, j - 1);
      RunKeepsInv(worlds, events, j - 1);
      RunKeepsInv(worlds, events, j);
    }
  }

  // ----- What a set does --------------------------------------------------------------------

  // While a save is in the air a set of another value is queued in place of what was; idle, it
  // is saved at once, unless it is the value already cached and already saved.
  lemma SetIsSavedOrQueued(worlds: seq<World>, events: seq<Event>, i: nat, v: Value)
    requires Run(worlds, events) && i < |events| && events[i] == Sets(v)
    ensures var w, t := worlds[i], worlds[i + 1];
      && t.store.cache == Some(v) && t.disk == w.disk && t.released == w.released && t.store.savedValue == w.store.savedValue
      && if w.flights != [] then
           && t.flights == w.flights && t.saves == w.saves
           && t.store.pending == if w.store.cache == Some(v) then w.store.pending else Some(v)
         else if w.store.cache == Some(v) && w.store.savedValue == Some(v) then t == w
         else t.flights == [Flight(v, Writing)] && t.saves == w.saves + 1 && t.store.pending.None?
  {
    RunKeepsInv(worlds, events, i);
  }

  // What the store counts as saved is on disk: of the write in the air when it is written, and
  // of the last one there was otherwise.
  ghost predicate SavedIsDisk(w: World) {
    if w.store.saveInFlight && w.flights != [] && w.flights[0].stage.Wrote?
    then w.disk == Some(w.flights[0].value) else w.disk == w.store.savedValue
  }

  // From a boot that hydrated the store with what is on disk, what it counts as saved while
  // idle is what is on disk.
  lemma {:induction false} SavedIsOnDisk(worlds: seq<World>, events: seq<Event>, h: nat, i: nat)
    requires Run(worlds, events) && h < i < |worlds| && events[h] == Hydrates(worlds[h].disk)
    requires forall k :: h < k < i ==> !events[k].Hydrates?
    ensures SavedIsDisk(worlds[i])
    ensures worlds[i].flights == [] ==> worlds[i].disk == worlds[i].store.savedValue
    decreases i
  {
    hide Inv, SavedIsDisk;
    var w, e := worlds[i - 1], events[i - 1];
    RunKeepsInv(worlds, events, i - 1);
    RunKeepsInv(worlds, events, i);
    assert Allowed(w, e) && worlds[i] == Step(w, e);
    hide Step, Allowed;
    if h + 1 < i {
      SavedIsOnDisk(worlds, events, h, i - 1);
    }
    SavedStays(w, e);
    IdleIsSaved(worlds[i]);
  }

  lemma SavedStays(w: World, e: Event)
    requires Inv(w) && Allowed(w, e) && if e.Hydrates? then e.seed == w.disk else SavedIsDisk(w)
    ensures SavedIsDisk(Step(w, e))
  {
  }

  lemma IdleIsSaved(w: World)
    requires SavedIsDisk(w)
    ensures w.flights == [] ==> w.disk == w.store.savedValue
  {
  }

  // So a value set while the store is idle is saved exactly when it is not what is on disk or
  // not the value last set; the same value again after its write failed is saved again.
  lemma SetReachesDisk(worlds: seq<World>, events: seq<Event>, h: nat, i: nat, v: Value)
    requires Run(worlds, events) && h < i < |events| && events[h] == Hydrates(worlds[h].disk)
    requires forall k :: h < k < i ==> !events[k].Hydrates?
    requires events[i] == Sets(v) && worlds[i].flights == []
    ensures worlds[i + 1].flights ==
      if worlds[i].disk == Some(v) == worlds[i].store.cache then [] else [Flight(v, Writing)]
  {
    SavedIsOnDisk(worlds, events, h, i);
    SetIsSavedOrQueued(worlds, events, i, v);
  }

  // A save that failed with nothing queued, and the same value set again at once.
  lemma FailedIsSavedAgain(worlds: seq<World>, events: seq<Event>, m: nat, v: Value)
    requires Run(worlds, events) && m + 1 < |events|
    requires events[m] == Settles(0) && worlds[m].flights == [Flight(v, Failed)] && worlds[m].store.pending.None?
    requires events[m + 1] == Sets(v) && worlds[m].store.savedValue != Some(v)
    ensures worlds[m + 2].flights == [Flight(v, Writing)] && worlds[m + 2].saves == worlds[m].saves + 1
  {
    SetIsSavedOrQueued(worlds, events, m + 1, v);
    assert worlds[m + 1] == Step(worlds[m], events[m]);
  }

  // ----- The object ---------------------------------------------------------------------------

  // A save that settles leaves the store idle with every waiter let go and its cached
  // value attempted, or hands the cached value to the one save in the air and lets no one go.
  lemma SettlingDecides(worlds: seq<World>, events: seq<Event>, i: nat)
    requires Run(worlds, events) && i < |events| && events[i].Settles?
    ensures var w, t := worlds[i], worlds[i + 1];
      if t.store.saveInFlight then
        && |t.flights| == 1 && t.store.cache == Some(t.flights[0].value)
        && t.saves == w.saves + 1 && t.released == w.released && t.store.drainWaiters == w.store.drainWaiters
      else
        && t.flights == [] && t.attempted == t.store.cache && t.saves == w.saves
        && t.released == w.released + w.store.drainWaiters && t.store.drainWaiters == []
  {
    RunKeepsInv(worlds, events, i);
    RunKeepsInv(worlds, events, i + 1);
    assert worlds[i + 1] == Step(worlds[i], events[i]);
  }

  class TauriSessionStore {
    var cache: Option<Value>
    var savedValue: Option<Value>
    var saveInFlight: bool
    var pending: Option<Value>
    var drainWaiters: seq<Waiter>

    ghost function Now(): Store
      reads this
    {
      Store(cache, savedValue, saveInFlight, pending, drainWaiters)
    }

    constructor ()
      ensures Now() == Store(None, None, false, None, [])
    {
      cache, savedValue, saveInFlight, pending, drainWaiters := None, None, false, None, [];
    }

    // Answers the value to hand to the save, if any.
    method Set(value: Value) returns (saves: Option<Value>)
      modifies this
      ensures Effect(Now(), saves, []) == SetItem(old(Now()), value)
      ensures cache == Some(value) && savedValue == old(savedValue) && drainWaiters == old(drainWaiters)
      ensures saves == (if old(saveInFlight) || (old(cache) == Some(value) && old(savedValue) == Some(value)) then None else Some(value))
      ensures saveInFlight == (old(saveInFlight) || saves.Some?)
      ensures pending == if old(saveInFlight) && old(cache) != Some(value) then Some(value) else old(pending)
    {
      if cache == Some(value) && (saveInFlight || savedValue == Some(value)) { return None; }
      cache := Some(value);
      if saveInFlight {
        pending := Some(value);
        return None;
      }
      saveInFlight := true;
      saves := Some(value);
    }

    method AwaitDrain(waiter: Waiter) returns (resolved: bool)
      modifies this
      ensures Effect(Now(), None, if resolved then [waiter] else []) == Drain(old(Now()), waiter)
      // At once while idle; else it waits, after those who wait already.
      ensures resolved == !old(saveInFlight)
      ensures drainWaiters == old(drainWaiters) + if resolved then [] else [waiter]
    {
      if !saveInFlight { return true; }
      drainWaiters := drainWaiters + [waiter];
      resolved := false;
    }

    method Seed(seed: Option<Value>)
      modifies this
      ensures Effect(Now(), None, []) == Hydrate(old(Now()), seed)
    {
      cache, savedValue := seed, seed;
    }

    method OnResolved(value: Value)
      modifies this
      ensures Effect(Now(), None, []) == Recorded(old(Now()), value)
      ensures savedValue == Some(value) && cache == old(cache) && pending == old(pending)
    {
      savedValue := Some(value);
    }

    method OnSettled() returns (saves: Option<Value>, releases: seq<Waiter>)
      modifies this
      ensures Effect(Now(), saves, releases) == Finished(old(Now()))
      // The queued value is saved next, which is the cached one, and no one is let go; or
      // nothing was queued, the store is idle, and every waiter is let go.
      ensures saves == old(pending) && pending.None? && cache == old(cache) && savedValue == old(savedValue)
      ensures saves.Some? ==> saveInFlight == old(saveInFlight) && releases == [] && drainWaiters == old(drainWaiters)
      ensures saves.Some? && old(pending == cache) ==> saves == cache
      ensures saves.None? ==> !saveInFlight && releases == old(drainWaiters) && drainWaiters == []
    {
      if pending.Some? {
        var next := pending;
        pending := None;
        saves, releases := next, [];
      } else {
        saveInFlight := false;
        var waiters := drainWaiters;
        drainWaiters := [];
        saves, releases := None, waiters;
      }
    }
  }
}
