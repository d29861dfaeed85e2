/** The two periodic sweeps of the control plane, proved to be the steps of their models. */
module Sweepers {
  import opened Wrappers
  import opened Times
  import opened Protocol
  import opened Database
  import AuthCache
  import W = Workers
  import E = Enrollment

  /** The lease reaper's tick: only the replica that gets the advisory lock sweeps. */
  class LeaseReaper {
    const store: Store

    constructor (store: Store)
      ensures this.store == store
    {
      this.store := store;
    }

    ghost function Tables(clock: Time): State
      reads store
    {
      State(clock, store.jobs, store.monitors, store.results, map[])
    }

    method Tick(ghost c: Config, clock: Time, gotLock: bool, write: W.Write)
      modifies store`jobs
      ensures Tables(clock) == if gotLock && !write.Refused? then Apply(c, old(Tables(clock)), ReclaimExpired)
                               else old(Tables(clock))
    {
      if !gotLock {
        return;
      }
      if !write.Refused? {
        store.ReclaimExpiredLeases(clock);
      }
    }
  }

  class InactivityMonitor {
    const registry: W.Registry

    constructor (registry: W.Registry)
      ensures this.registry == registry
    {
      this.registry := registry;
    }

    ghost function Now(clock: Time, cache: AuthCache.Entries, issued: set<string>): E.World
      reads registry
    {
      E.World(clock, registry.workers, cache, issued)
    }

    /** `cache` and `issued` stand for the rest of the replica, which the sweep does not touch. */
    method Tick(clock: Time, write: W.Write, ghost lim: AuthCache.Limits, ghost cache: AuthCache.Entries,
                ghost issued: set<string>)
      modifies registry
      ensures if write.Refused? then Now(clock, cache, issued) == old(Now(clock, cache, issued))
              else E.Next(lim, old(Now(clock, cache, issued)), E.SweepInactive, Now(clock, cache, issued))
    {
      if !write.Refused? {
        registry.MarkWorkerInactive(clock);
      }
    }
  }
}
