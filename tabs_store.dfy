/**
 * The sync-manager side of the tabs store: registering the store in the
 * component's weak slot, handing the sync manager a tabs engine bound to the
 * registered store, listing the remote tabs, and the convenience `sync` that
 * escalates the tabs engine's result and serializes the telemetry.
 *
 * `sync_multiple`, the telemetry serializer and the failures of parsing the
 * sync credentials are parameters; the store's storage is reduced to the
 * remote-tab list it may hold.
 */
module TabsStore {
  import opened Wrappers
  import opened SyncManager

  /** The name the tabs engine reports its result under. */
  const TABS: string := "tabs"

  /** The engine ids the sync manager asks for; only Tabs is served by this store. */
  datatype SyncEngineId = Tabs | OtherEngine(name: string)

  /** A tabs engine, holding a strong reference to the store it syncs. */
  datatype TabsEngine = TabsEngine(store: ArcCell)

  /**
   * `get_registered_sync_engine`: nothing when the slot no longer resolves;
   * otherwise a tabs engine holding a new strong reference to the registered
   * store. Asking a live registration for any other engine is a programming
   * error (the source marks it unreachable).
   */
  method GetRegisteredSyncEngine(slot: WeakSlot, engineId: SyncEngineId) returns (r: Option<TabsEngine>)
    requires engineId == Tabs || !slot.Resolves()
    modifies slot.target
    ensures r.Some? <==> old(slot.Resolves())
    ensures r.Some? ==> r.value.store == slot.target && slot.target.strong == old(slot.target.strong) + 1
    ensures r.None? ==> slot.target == null || slot.target.strong == old(slot.target.strong)
  {
    var store := slot.Upgrade();
    if store == null {
      return None;
    }
    match engineId {
      case Tabs => return Some(TabsEngine(store));
    }
  }

  /** `get_all`: the stored remote tabs, or the empty list when none are stored. */
  function GetAll<T>(remoteTabs: Option<seq<T>>): (r: seq<T>)
    ensures remoteTabs.Some? ==> r == remoteTabs.value
    ensures remoteTabs.None? ==> r == []
  {
    match remoteTabs
    case Some(list) => list
    case None => []
  }

  /**
   * `register_with_sync_manager`, which consumes a strong reference to the
   * store: the slot now refers, weakly, to the store, and the consumed strong
   * reference is dropped on return.
   */
  method RegisterWithSyncManager(store: ArcCell, slot: WeakSlot)
    requires slot.Valid() && store.strong >= 1
    modifies slot, slot.target, store
    ensures slot.Valid() && slot.target == store
    ensures store.strong == old(store.strong) - 1
    ensures old(slot.target) != store ==> store.weak == old(store.weak) + 1
    ensures old(slot.target) == store ==> store.weak == old(store.weak)
  {
    slot.Replace(store);
    DropArc(store);
  }

  /**
   * `sync`: parsing the token-server URL and the sync key come first
   * (`setupError` is the first of them to fail, if any); then run
   * `sync_multiple` with no persisted state and a fresh cache, and escalate the
   * tabs engine's result; on success the telemetry is serialized, and a
   * serialization failure is the result.
   */
  function Sync<Tel, E>(setupError: Option<E>, syncMultiple: () -> SyncResult<Tel, E>,
                        serialize: Tel -> Result<string, E>): (r: Result<string, E>)
    ensures setupError.Some? ==> r == Err(setupError.value)
    ensures setupError.None? && Escalate(syncMultiple(), TABS).Err? ==> r == Err(Escalate(syncMultiple(), TABS).error)
    ensures setupError.None? && Escalate(syncMultiple(), TABS).Ok? ==> r == serialize(syncMultiple().telemetry)
    ensures r.Ok? ==> setupError.None? && syncMultiple().result.Ok?
    ensures r.Ok? ==> TABS !in syncMultiple().engineResults || syncMultiple().engineResults[TABS].Ok?
  {
    if setupError.Some? then Err(setupError.value)
    else
      var result := syncMultiple();
      match Escalate(result, TABS)
      case Err(e) => Err(e)
      case Ok(telemetry) => serialize(telemetry)
  }

  /**
   * The component's registration test: registering a clone keeps one strong and
   * adds one weak reference; the slot upgrades to the same store, and dropping
   * that upgrade leaves the counts as they were; once the store is dropped the
   * slot no longer upgrades.
   */
  method RegistrationScenario(slot: WeakSlot)
    returns (afterRegister: (nat, nat), registered: ArcCell?, afterUpgradeDropped: (nat, nat), afterStoreDropped: ArcCell?)
    requires slot.Valid()
    modifies slot, slot.target
    ensures afterRegister == (1, 1) && afterUpgradeDropped == (1, 1)
    ensures registered != null && registered == slot.target
    ensures afterStoreDropped == null
  {
    var store := new ArcCell();
    CloneArc(store);
    RegisterWithSyncManager(store, slot);
    afterRegister := (store.strong, store.weak);
    registered := slot.Upgrade();
    DropArc(registered);
    afterUpgradeDropped := (store.strong, store.weak);
    DropArc(store);
    afterStoreDropped := slot.Upgrade();
  }
}
