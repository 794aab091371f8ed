/**
 * What the logins and tabs stores share in their dealings with the sync
 * manager: a reference-counted allocation (`Arc`) with its strong and weak
 * counts, the process-wide weak slot a store registers itself in
 * (`STORE_FOR_MANAGER`), and the rule that turns the outcome of a
 * `sync_multiple` run into the result of a single-engine `sync`.
 */
module SyncManager {
  import opened Wrappers

  /** An `Arc` allocation: the counts `Arc::strong_count` and `Arc::weak_count` report. */
  class ArcCell {
    var strong: nat
    var weak: nat

    /** `Arc::new`: one strong owner, no weak references. */
    constructor ()
      ensures strong == 1 && weak == 0
    {
      strong := 1;
      weak := 0;
    }
  }

  /** `Arc::clone`: one more strong owner. */
  method CloneArc(a: ArcCell)
    requires a.strong > 0
    modifies a
    ensures a.strong == old(a.strong) + 1 && a.weak == old(a.weak)
  {
    a.strong := a.strong + 1;
  }

  /** Dropping an `Arc`: one strong owner fewer. */
  method DropArc(a: ArcCell)
    requires a.strong > 0
    modifies a
    ensures a.strong == old(a.strong) - 1 && a.weak == old(a.weak)
  {
    a.strong := a.strong - 1;
  }

  /** A registration slot holding a `Weak` reference; `null` is `Weak::new()`, which points nowhere. */
  class WeakSlot {
    var target: ArcCell?

    /** The weak reference held here is one of the target's weak references. */
    ghost predicate Valid()
      reads this, target
    {
      target != null ==> target.weak >= 1
    }

    constructor ()
      ensures Valid() && target == null
    {
      target := null;
    }

    /** Whether `upgrade` succeeds: the target exists and still has a strong owner. */
    predicate Resolves()
      reads this, target
    {
      target != null && target.strong > 0
    }

    /**
     * Store a new weak reference to `a`, dropping the one held before: `a`
     * gains a weak reference unless it was already the target, the previous
     * target loses one, and no strong count changes. The last registration wins.
     */
    method Replace(a: ArcCell)
      requires Valid()
      modifies this, a, target
      ensures Valid() && target == a
      ensures a.strong == old(a.strong)
      ensures old(target) == a ==> a.weak == old(a.weak)
      ensures old(target) != a ==> a.weak == old(a.weak) + 1
      ensures old(target) != null && old(target) != a ==>
        old(target).weak == old(target.weak) - 1 && old(target).strong == old(target.strong)
    {
      var previous := target;
      a.weak := a.weak + 1;
      target := a;
      if previous != null {
        previous.weak := previous.weak - 1;
      }
    }

    /** `Weak::upgrade`: a new strong reference to the target while it has a strong owner, nothing otherwise. */
    method Upgrade() returns (r: ArcCell?)
      modifies target
      ensures r != null <==> old(Resolves())
      ensures r != null ==> r == target && r.strong == old(r.strong) + 1 && r.weak == old(r.weak)
      ensures r == null ==> target == null || (target.strong == old(target.strong) && target.weak == old(target.weak))
    {
      if target == null || target.strong == 0 {
        return null;
      }
      target.strong := target.strong + 1;
      return target;
    }
  }

  /** What `sync_multiple` reports: an overall result, a result per engine name, and telemetry. */
  datatype SyncResult<Tel, E> = SyncResult(result: Result<(), E>, engineResults: map<string, Result<(), E>>, telemetry: Tel)

  /**
   * The result of a single-engine `sync`: an overall failure first; then a
   * failure recorded under the engine's own name; otherwise the telemetry. A
   * missing entry counts as success.
   */
  function Escalate<Tel, E>(r: SyncResult<Tel, E>, engine: string): (out: Result<Tel, E>)
    ensures out.Ok? <==> r.result.Ok? && (engine !in r.engineResults || r.engineResults[engine].Ok?)
    ensures out.Ok? ==> out.value == r.telemetry
    ensures r.result.Err? ==> out == Err(r.result.error)
    ensures r.result.Ok? && engine in r.engineResults && r.engineResults[engine].Err? ==>
      out == Err(r.engineResults[engine].error)
  {
    if r.result.Err? then Err(r.result.error)
    else if engine in r.engineResults && r.engineResults[engine].Err? then Err(r.engineResults[engine].error)
    else Ok(r.telemetry)
  }

  /** What other engines report has no bearing on the result. */
  lemma EscalateIgnoresOtherEngines<Tel, E>(r: SyncResult<Tel, E>, engine: string, other: string, outcome: Result<(), E>)
    requires other != engine
    ensures Escalate(r.(engineResults := r.engineResults[other := outcome]), engine) == Escalate(r, engine)
  {
    var r' := r.(engineResults := r.engineResults[other := outcome]);
    assert (engine in r'.engineResults) == (engine in r.engineResults);
    assert engine in r.engineResults ==> r'.engineResults[engine] == r.engineResults[engine];
  }

  /** An overall failure wins over whatever the engine's own entry says. */
  lemma EscalateOverallFirst<Tel, E>(r: SyncResult<Tel, E>, engine: string, e: E)
    ensures Escalate(r.(result := Err(e)), engine) == Err(e)
  {
  }
}
