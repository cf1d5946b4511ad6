/**
 What leaving the network depends on in the runtime: the two manifests, and what can be proved about
 them. The desktop runtime's `Down` and `Cleanup` and the runtime of a leave follow the same steps here.
 */
module RuntimeView {
  import opened Common

  /** The active manifest: marked stopped, its files are the recorded ones, it runs as recorded, and a down
      could prove ownership of everything it touches. */
  datatype Mark = Mark(stopped: bool, intact: bool, healthy: bool, stoppable: bool)

  /** Both manifests; of last-known-good only matters whether its files are the recorded ones. */
  datatype View = View(active: Option<Mark>, lastGood: Option<bool>)

  predicate Downable(v: View)
  {
    v.active.Some? ==> v.active.value.intact && v.active.value.stoppable
  }

  predicate Cleanable(v: View)
  {
    (v.active.Some? ==> v.active.value.intact && v.active.value.stopped) && v.lastGood != Some(false)
  }

  /** A leave takes a runtime down only when it is healthy, and a clean-up refuses what is not stopped. */
  predicate Blocked(v: View)
  {
    && v.active.Some?
    && !(v.active.value.intact && (v.active.value.stopped || (v.active.value.healthy && v.active.value.stoppable))
    && v.lastGood != Some(false))
  }

  /** The files of a recorded runtime are gone, wholly or in part, and the record is not. */
  predicate HalfCleaned(v: View)
  {
    v.active.Some? && !v.active.value.intact
  }

  /** Down: the record stays, and is marked stopped on success; what is already stopped, or not provably
      ours, is left alone. */
  predicate DownStep(v: View, w: View, ok: bool)
  {
    && w.lastGood == v.lastGood && (w.active.Some? <==> v.active.Some?)
    && (v.active.Some? ==> w.active.value.intact == v.active.value.intact)
    && (v.active.Some? && (v.active.value.stopped || !v.active.value.intact) ==> w == v)
    && (ok ==> Downable(v) && (w.active.Some? ==> w.active.value.stopped))
  }

  /** Cleanup: all or nothing when it succeeds or refuses. Interrupted, it takes files before manifests and
      the active manifest first, so that a record that is still there is no longer intact. */
  predicate CleanStep(v: View, w: View, ok: bool)
  {
    && (ok ==> Cleanable(v) && w == View(None, None))
    && (!Cleanable(v) ==> w == v)
    && (w == v
        || (w.active.Some? ==> v.active.Some? && HalfCleaned(w) && (w.lastGood.Some? <==> v.lastGood.Some?)))
    && (w.lastGood.Some? ==> v.lastGood.Some?)
  }
}
