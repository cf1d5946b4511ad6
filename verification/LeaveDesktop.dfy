/**
 The runtime half of a leave on the desktop runtime itself: the same conditions as in `Leave`, where the
 runtime is seen through `RuntimeView` only.
 */
module LeaveDesktop {
  import opened Common
  import opened RuntimeHost
  import opened DesktopRuntime
  import opened RuntimeView

  /** cleanupOwnedRuntime. Where no host call fails it succeeds exactly when the programs are missing or the
      recorded runtime is not blocked; in the first case it has not touched anything. */
  method CleanupOwned(d: Desktop, found: Option<Programs>) returns (ok: bool)
    requires d.Valid()
    modifies d.host
    ensures d.host.Consistent()
    ensures found.None? ==>
              ok && d.host.active == old(d.host.active) && d.host.live == old(d.host.live)
                && d.host.ifaces == old(d.host.ifaces)
    ensures d.host.Smooth() && found.Some? ==>
              && (ok <==> !Blocked(old(d.View(found.value))))
              && (ok ==> d.host.active.None?)
              && (!ok ==> Blocked(d.View(found.value)))
    ensures found.Some? && HalfCleaned(old(d.View(found.value))) ==> d.View(found.value) == old(d.View(found.value))
  {
    var recorded, applied;
    ok, recorded, applied := d.Status(found);
    if !ok || !recorded {
      return;
    }
    var programs := found.value;
    hide Desktop.Trusted, Desktop.FilesTrusted, Desktop.StopsCleanly, Host.Consistent;
    assert applied ==> !d.View(programs).active.value.stopped;
    assert d.host.Smooth() ==> (applied <==> d.View(programs).active.value.healthy);
    if applied {
      var down := d.Down(found);
      if down.Some? {
        return false;
      }
    }
    var cleaned := d.Cleanup(programs);
    ok := cleaned.None?;
  }

  /** A runtime whose mesh file has reached the end of its lifetime is not healthy, so until it is stopped by a
      separate down a leave is blocked. */
  lemma ExpiredMeshBlocks(d: Desktop, programs: Programs)
    requires d.host.active.Some? && !d.host.active.value.stopped && d.host.active.value.pathManager.Some?
    requires var m := d.host.active.value;
             m.dir in d.host.dirs ==>
               var mesh := d.host.dirs[m.dir].mesh;
               mesh.Some? && mesh.value.MeshFile? ==> mesh.value.config.expiresAt <= d.host.clock
    ensures Blocked(d.View(programs)) && !d.MeshValid(d.host.active.value)
  {
    hide Desktop.RunsAsRecorded, Desktop.StopsCleanly, Desktop.Trusted;
  }
}
