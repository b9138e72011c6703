/**
 * `RailwayProvider` (packages/react-railway/src/hooks/useRailway.tsx): the
 * coordinator's state plus the store it persists to, and the actions the
 * provider hands to tours. Every action dispatches to `Reduce`; the provider
 * adds the guarded stop and the write-through persistence.
 */
module Provider {
  import opened Wrappers
  import opened Coordinator

  /**
   * `stopEngine(id)`: dispatch SET_RUNNING null only when `id` is the runner,
   * so a stale stop from a preempted tour is a no-op.
   */
  function Stop(s: State, id: RailwayId, st: Storage): (r: State)
    ensures s.runningId == Some(id) ==> r.runningId == None
    ensures s.runningId != Some(id) ==> r == s
    ensures r == s.(runningId := r.runningId)
  {
    if s.runningId == Some(id) then Reduce(s, SetRunning(None), st) else s
  }

  /**
   * Preemption: after `startEngine(b)` a `stopEngine(a)` from any other tour
   * leaves `b` running, and `stopEngine(b)` empties the slot.
   */
  lemma StaleStopIsNoOp(s: State, a: RailwayId, b: RailwayId, st: Storage)
    ensures var started := Reduce(s, SetRunning(Some(b)), st);
      && (a != b ==> Stop(started, a, st).runningId == Some(b))
      && Stop(started, b, st).runningId == None
  {
  }

  class RailwayProvider {
    var state: State
    var storage: Storage

    /** A fresh provider: the reducer's initial state over the given store. */
    constructor (storage: Storage)
      ensures state == InitialState() && this.storage == storage
    {
      state := InitialState();
      this.storage := storage;
    }

    /** `isRunning`: some tour holds the run slot. */
    function IsRunning(): (r: bool)
      reads this
      ensures r <==> state.runningId != None
    {
      state.runningId.Some?
    }

    method RegisterRailway(id: RailwayId)
      modifies this
      ensures state == Reduce(old(state), Register(id), old(storage))
      ensures storage == old(storage)
    {
      state := Reduce(state, Register(id), storage);
    }

    method UnregisterRailway(id: RailwayId)
      modifies this
      ensures state == Reduce(old(state), Unregister(id), old(storage))
      ensures storage == old(storage)
    {
      state := Reduce(state, Unregister(id), storage);
    }

    /** Last caller wins: `id` takes the slot whatever was running. */
    method StartEngine(id: RailwayId)
      modifies this
      ensures state == old(state).(runningId := Some(id))
      ensures storage == old(storage)
    {
      state := Reduce(state, SetRunning(Some(id)), storage);
    }

    method StopEngine(id: RailwayId)
      modifies this
      ensures state == Stop(old(state), id, old(storage))
      ensures old(state.runningId) == Some(id) ==> !IsRunning()
      ensures old(state.runningId) != Some(id) ==> state == old(state)
      ensures storage == old(storage)
    {
      if state.runningId == Some(id) {
        state := Reduce(state, SetRunning(None), storage);
      }
    }

    /** Writes `String(value)` under `railway:<id>:completed`, then dispatches. */
    method SetCompleted(id: RailwayId, value: bool := true)
      modifies this
      ensures storage == SafeWriteBool(old(storage), StorageKey(id, Completed), value)
      ensures state == Reduce(old(state), Action.SetCompleted(id, value), old(storage))
      ensures old(storage).Available? ==> SafeReadBool(storage, StorageKey(id, Completed)) == value
      ensures !old(storage).Available? ==> storage == old(storage)
    {
      storage := SafeWriteBool(storage, StorageKey(id, Completed), value);
      state := Reduce(state, Action.SetCompleted(id, value), storage);
      PersistRoundTrip(old(storage), id, Completed, value, id, Completed);
    }

    /** Writes `String(value)` under `railway:<id>:viewed`, then dispatches. */
    method SetViewed(id: RailwayId, value: bool := true)
      modifies this
      ensures storage == SafeWriteBool(old(storage), StorageKey(id, Viewed), value)
      ensures state == Reduce(old(state), Action.SetViewed(id, value), old(storage))
      ensures old(storage).Available? ==> SafeReadBool(storage, StorageKey(id, Viewed)) == value
      ensures !old(storage).Available? ==> storage == old(storage)
    {
      storage := SafeWriteBool(storage, StorageKey(id, Viewed), value);
      state := Reduce(state, Action.SetViewed(id, value), storage);
      PersistRoundTrip(old(storage), id, Viewed, value, id, Viewed);
    }

    method SetRailwayOrder(ids: seq<RailwayId>)
      modifies this
      ensures state == Reduce(old(state), SetOrder(ids), old(storage))
      ensures storage == old(storage)
    {
      state := Reduce(state, SetOrder(ids), storage);
    }
  }

  /**
   * The preemption scenario on a live provider: `startEngine(a)`,
   * `startEngine(b)`, then the preempted tour's `stopEngine(a)`.
   */
  method PreemptionScenario(a: RailwayId, b: RailwayId) returns (running: Option<RailwayId>)
    requires a != b
    ensures running == Some(b)
  {
    var p := new RailwayProvider(Unavailable);
    p.StartEngine(a);
    p.StartEngine(b);
    p.StopEngine(a);
    running := p.state.runningId;
  }

  /**
   * Persistence across a reload: `setCompleted(id)` on one provider, then a
   * fresh provider over the same store registers `id` and finds it completed.
   */
  method ReloadScenario(items: map<string, string>, id: RailwayId) returns (completed: bool)
    ensures completed
  {
    var before := new RailwayProvider(Available(items));
    before.RegisterRailway(id);
    before.SetCompleted(id);
    var after := new RailwayProvider(before.storage);
    after.RegisterRailway(id);
    completed := id in after.state.isCompletedSet;
  }

  /**
   * The same reload over a store that rejects writes (a full store): the
   * in-memory flag is set for the session, but the write is lost, so the fresh
   * provider seeds from what the store held before.
   */
  method RejectedWriteReloadScenario(items: map<string, string>, id: RailwayId)
    returns (inSession: bool, afterReload: bool)
    ensures inSession
    ensures afterReload <==> SafeReadBool(ReadOnly(items), StorageKey(id, Completed))
  {
    var before := new RailwayProvider(ReadOnly(items));
    before.RegisterRailway(id);
    before.SetCompleted(id);
    inSession := id in before.state.isCompletedSet;
    var after := new RailwayProvider(before.storage);
    after.RegisterRailway(id);
    afterReload := id in after.state.isCompletedSet;
  }
}
