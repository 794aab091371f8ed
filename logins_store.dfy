/**
 * The sync-manager side of the logins store: registering the store's shared
 * implementation in the component's weak slot, and the convenience `sync`
 * that runs one sync of the passwords engine, writes the persisted global
 * state back and escalates the result.
 *
 * `sync_multiple` is a parameter: a function from the persisted state and the
 * in-memory cache it starts from to its report and the persisted state it
 * leaves behind. Reading and writing the persisted state go to the logins
 * database; their failures are parameters as well.
 */
module LoginsStore {
  import opened Wrappers
  import opened SyncManager

  /** The name the passwords engine reports its result under. */
  const PASSWORDS: string := "passwords"

  /** sync15's in-memory cache between syncs, reduced to whether it holds anything. */
  datatype MemoryCachedState = Fresh | Cached(state: string)

  /** The persisted sync15 global state, as `get_global_state`/`set_global_state` see it. */
  class GlobalStateStore {
    var state: Option<string>

    constructor (state: Option<string>)
      ensures this.state == state
    {
      this.state := state;
    }
  }

  /** The type exposed to applications: it holds the `Arc` around the store implementation. */
  class LoginStore {
    const storeImpl: ArcCell

    constructor ()
      ensures fresh(storeImpl) && storeImpl.strong == 1 && storeImpl.weak == 0
    {
      storeImpl := new ArcCell();
    }

    /**
     * `register_with_sync_manager`: the slot now refers, weakly, to this store's
     * implementation, whatever it referred to before; no strong reference is kept.
     */
    method RegisterWithSyncManager(slot: WeakSlot)
      requires slot.Valid()
      modifies slot, slot.target, storeImpl
      ensures slot.Valid() && slot.target == storeImpl
      ensures storeImpl.strong == old(storeImpl.strong)
      ensures old(slot.target) != storeImpl ==> storeImpl.weak == old(storeImpl.weak) + 1
      ensures old(slot.target) == storeImpl ==> storeImpl.weak == old(storeImpl.weak)
    {
      slot.Replace(storeImpl);
    }

    /**
     * `sync`: read the persisted state (failing with its error), run
     * `sync_multiple` from it and from a fresh in-memory cache, write the state it
     * leaves behind back (failing with that write's error) whether or not the sync
     * succeeded, and only then escalate the passwords engine's result.
     */
    method Sync<Tel, E>(meta: GlobalStateStore,
                        syncMultiple: (Option<string>, MemoryCachedState) -> (SyncResult<Tel, E>, Option<string>),
                        getError: Option<E>, setError: Option<E>)
      returns (r: Result<Tel, E>)
      modifies meta
      ensures getError.Some? ==> r == Err(getError.value) && meta.state == old(meta.state)
      ensures getError.None? && setError.Some? ==> r == Err(setError.value) && meta.state == old(meta.state)
      ensures getError.None? && setError.None? ==>
        var outcome := syncMultiple(old(meta.state), Fresh);
        meta.state == outcome.1 && r == Escalate(outcome.0, PASSWORDS)
    {
      if getError.Some? {
        return Err(getError.value);
      }
      var diskCachedState := meta.state;
      var memCachedState := Fresh;
      var outcome := syncMultiple(diskCachedState, memCachedState);
      diskCachedState := outcome.1;
      if setError.Some? {
        return Err(setError.value);
      }
      meta.state := diskCachedState;
      r := Escalate(outcome.0, PASSWORDS);
    }
  }

  /**
   * The component's registration test: registering keeps one strong and adds one
   * weak reference; the slot upgrades to the same implementation, and dropping
   * that upgrade leaves the counts as they were; once the store is dropped the
   * slot no longer upgrades.
   */
  method RegistrationScenario(slot: WeakSlot)
    returns (afterRegister: (nat, nat), registered: ArcCell?, afterUpgradeDropped: (nat, nat), afterStoreDropped: ArcCell?)
    requires slot.Valid()
    modifies slot, slot.target
    ensures afterRegister == (1, 1) && afterUpgradeDropped == (1, 1)
    ensures registered != null && registered == slot.target
    ensures afterStoreDropped == null
  {
    var store := new LoginStore();
    store.RegisterWithSyncManager(slot);
    afterRegister := (store.storeImpl.strong, store.storeImpl.weak);
    registered := slot.Upgrade();
    DropArc(registered);
    afterUpgradeDropped := (store.storeImpl.strong, store.storeImpl.weak);
    DropArc(store.storeImpl);
    afterStoreDropped := slot.Upgrade();
  }
}
