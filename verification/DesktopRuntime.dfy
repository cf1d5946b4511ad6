/**
 The desktop runtime transaction: an Xray process, an optional path manager process, one WireGuard
 interface or tunnel service, revision directories and two manifests.

 Every method mirrors one method of the runtime, in its order of effects. What holds between calls is
 `Valid`; it includes the host's ownership log, so ownership holds over every run of `Apply`, `Down`
 and outside interference.
 */
module DesktopRuntime {
  import opened Common
  import opened RuntimeHost
  import PM = PathManager
  import MA = MeshAllocation
  import RV = RuntimeView

  datatype Code =
    | InvalidConfig | Dependency | Permission | StateIO
    | ApplyFailed | ProcessStale | RollbackFailed | Other

  /** Paths of the external programs, as found at this call. */
  datatype Programs = Programs(xray: string, self: string)

  /** A signed configuration; `profile` and `wgProfile` stand for the parts of the rendered files that
      neither the mesh nor the gateway endpoint decides. */
  datatype Request = Request(revision: string, iface: string, profile: string, wgProfile: string, gateway: string,
    mesh: Option<PM.Config>)

  function RenderXray(q: Request, mesh: Option<PM.Config>): Content
  {
    XrayFile(q.profile, if mesh.Some? then Some(mesh.value.relayEndpoint) else None)
  }

  function RenderWg(q: Request, mesh: Option<PM.Config>): Content
  {
    WgFile(q.wgProfile, q.gateway,
           if mesh.Some? then Some(WgMesh(mesh.value.wgEndpoint, mesh.value.deviceId, mesh.value.peers)) else None)
  }

  /** How an Apply ended. */
  datatype Ending = Refused | Resumed | Reconciled | Refreshed | Replaced | RolledBack

  /** Where a start stopped. */
  datatype Stage = Inspecting | StartingXray | StartingPathManager | RaisingTunnel | CapturingIndex | Showing | Started

  /** What a start does to a manifest: new identities, the captured index, nothing else. */
  predicate StartOf(r: Manifest, m: Manifest)
  {
    && r.revision == m.revision && r.dir == m.dir && r.iface == m.iface && r.wgDigest == m.wgDigest
    && r.xray.digest == m.xray.digest
    && (r.pathManager.Some? <==> m.pathManager.Some?)
    && (r.pathManager.Some? ==> r.pathManager.value.digest == m.pathManager.value.digest)
  }

  class Desktop {
    const host: Host
    const fm: PM.Formats

    constructor (host: Host, fm: PM.Formats)
      ensures this.host == host
    {
      this.host, this.fm := host, fm;
    }

    // ---------- what holds between calls ----------

    /** The active manifest names only what is ours; both manifests name existing directories. */
    ghost predicate Valid()
      reads host
    {
      && host.Consistent()
      && (host.active.Some? ==> host.Known(host.active.value) && Settled(host.active.value))
      && (host.atomic ==> Stored(host.active) && Stored(host.lastGood))
    }

    ghost predicate Settled(m: Manifest)
    {
      !m.stopped ==> m.up && m.index != 0
    }

    ghost predicate Stored(m: Option<Manifest>)
      reads host`dirs
    {
      m.Some? ==> m.value.dir in host.dirs
    }

    /** The part of metadata trust that a start keeps. */
    predicate FilesTrusted(m: Manifest, programs: Programs)
      reads host`dirs
    {
      && m.dir in host.dirs && host.dirs[m.dir].wg == m.wgDigest
      && (m.pathManager.Some? ==>
            m.pathManager.value.executable == programs.self
              && host.dirs[m.dir].mesh == Some(m.pathManager.value.digest))
    }

    /** manifestMetadataTrusted: the manifest's files are there and have the recorded digests. */
    predicate Trusted(m: Manifest, programs: Programs)
      reads host`dirs
    {
      && FilesTrusted(m, programs) && m.xray.executable == programs.xray
      && (m.pathManager.Some? ==> m.pathManager.value.revision == m.revision)
    }

    /** The same for a clean-up, which takes the manifest's own program for the installed one. */
    predicate Intact(m: Manifest, self: string)
      reads host`dirs
    {
      Trusted(m, Programs(m.xray.executable, self))
    }

    /** What a leave can learn about the two manifests. */
    ghost function View(programs: Programs): RV.View
      reads host
    {
      RV.View(
        if host.active.Some? then Some(MarkOf(host.active.value, programs)) else None,
        if host.lastGood.Some? then Some(Intact(host.lastGood.value, programs.self)) else None)
    }

    ghost function MarkOf(m: Manifest, programs: Programs): RV.Mark
      reads host
    {
      RV.Mark(
        m.stopped, Intact(m, programs.self), RunsAsRecorded(m, programs) && MeshValid(m), StopsCleanly(m, programs))
    }

    /** The part of processTrusted that does not ask the system. */
    predicate XrayMatches(x: Proc, revision: string, dir: nat)
      reads host`dirs
    {
      && x.pid > 0 && x.executable != "" && x.revision == revision
      && dir in host.dirs && host.dirs[dir].xray == x.digest
    }

    /** The directory holds exactly the files whose digests the manifest records. */
    predicate FilesMatch(m: Manifest)
      reads host`dirs
    {
      && m.dir in host.dirs && host.dirs[m.dir].wg == m.wgDigest && host.dirs[m.dir].xray == m.xray.digest
      && (m.pathManager.Some? ==> host.dirs[m.dir].mesh == Some(m.pathManager.value.digest))
    }

    /** The manifest's files were there once, and are gone. */
    predicate FilesGone(m: Manifest)
      reads host`dirs, host`nextDir
    {
      m.dir !in host.dirs && m.dir < host.nextDir
    }

    lemma GoneUntrusted(m: Manifest, programs: Programs)
      ensures FilesGone(m) ==> !Trusted(m, programs)
    {
    }

    /** Directories come under new names only. */
    twostate predicate NoOldDirs()
      reads host`dirs, host`nextDir
    {
      old(host.nextDir) <= host.nextDir && forall k :: k in host.dirs && k < old(host.nextDir) ==> k in old(host.dirs)
    }

    /** Nothing of the manifest's name exists, and its Xray file is the recorded one. */
    predicate Startable(m: Manifest, programs: Programs)
      reads host`services, host`ifaces, host`dirs, host`clock
    {
      m.iface !in host.services && m.iface !in host.ifaces && Launchable(m, programs)
    }

    /** The Xray program is known, its file is the recorded one, and a path manager finds a valid mesh file. */
    predicate Launchable(m: Manifest, programs: Programs)
      reads host`dirs, host`clock
    {
      programs.xray != "" && m.dir in host.dirs && host.dirs[m.dir].xray == m.xray.digest && MeshValid(m)
    }

    /** The mesh file of a runtime with a path manager is valid, its lifetime included. */
    predicate MeshValid(m: Manifest)
      reads host`dirs, host`clock
    {
      m.pathManager.Some? ==> Loadable(m.dir, host.clock)
    }

    /** A stop would prove ownership of everything it touches. */
    predicate StopsCleanly(m: Manifest, programs: Programs)
      reads host`services, host`ifaces, host`dirs
    {
      Trusted(m, programs) && (m.stopped || (XrayMatches(m.xray, m.revision, m.dir) && Stoppable(m)))
    }

    /** The interface name is unused, or in use by the runtime that is about to be stopped. */
    predicate Free(iface: string, previous: Option<Manifest>)
      reads host`services, host`ifaces
    {
      || (previous.Some? && !previous.value.stopped && previous.value.up && previous.value.iface == iface)
      || (iface !in host.services && iface !in host.ifaces)
    }

    /** No foreign service or interface stands in the way of a stop. */
    predicate Stoppable(m: Manifest)
      reads host`services, host`ifaces
    {
      && (m.iface in host.services ==> host.services[m.iface] && m.up)
      && (m.up && m.iface in host.ifaces ==> m.index != 0 && host.ifaces[m.iface] == m.index)
    }

    twostate predicate NothingLeft()
      reads host
    {
      host.live == old(host.live) && host.ifaces == old(host.ifaces) && host.services == old(host.services)
    }

    method ProcessTrusted(m: Manifest) returns (alive: Option<bool>)
      ensures alive.Some? ==> XrayMatches(m.xray, m.revision, m.dir) && alive.value == (m.xray.pid in host.live)
      ensures host.Steady() ==> (alive.Some? <==> XrayMatches(m.xray, m.revision, m.dir))
    {
      if !XrayMatches(m.xray, m.revision, m.dir) {
        return None;
      }
      alive := host.ProcessAlive(m.xray);
    }

    // ---------- start and stop ----------

    /** Polls until the process owns its port, it is gone, or the time is over. */
    method WaitForXray(m: Manifest) returns (ok: bool)
      ensures ok ==> XrayMatches(m.xray, m.revision, m.dir) && m.xray.pid in host.live
      ensures host.calm && XrayMatches(m.xray, m.revision, m.dir) && m.xray.pid in host.live ==> ok
    {
      var rounds: nat := *;
      while true
        decreases rounds
      {
        var trusted := ProcessTrusted(m);
        if trusted != Some(true) {
          return false;
        }
        var owned := host.Ask();
        if owned {
          return true;
        }
        if rounds == 0 {
          return false;
        }
        rounds := rounds - 1;
      }
    }

    /** meshSocketsOwned: the mesh file is valid at this time, and the process owns the sockets of all its peers. */
    method SocketsOwned(dir: nat) returns (ok: bool)
      ensures host.calm ==> (ok <==> Loadable(dir, host.clock))
    {
      var now := host.Now();
      var c := LoadMesh(dir, now);
      ok := host.Ask();
      ok := ok && c.Some?;
    }

    /** Ready when the process is alive and owns the sockets of all peers. */
    method WaitForPathManager(p: Proc, dir: nat) returns (ok: bool)
      ensures ok ==> p.pid in host.live
      ensures host.calm ==> (ok <==> p.pid in host.live && Loadable(dir, host.clock))
    {
      hide Loadable;
      var rounds: nat := *;
      if host.calm && rounds < 1 {
        rounds := 1;
      }
      while rounds > 0
        invariant host.calm && p.pid in host.live && Loadable(dir, host.clock) ==> rounds > 0
      {
        var alive := host.ProcessAlive(p);
        if alive.None? {
          return false;
        }
        var sockets := SocketsOwned(dir);
        if alive.value && sockets {
          return true;
        }
        rounds := rounds - 1;
      }
      ok := false;
    }

    method StopBoth(m: Manifest)
      requires host.Consistent() && Pids(m) <= host.started
      modifies host`live, host`log
      ensures host.Consistent()
      ensures old(host.live) - Pids(m) <= host.live <= old(host.live)
      ensures host.Steady() ==> host.live == old(host.live) - Pids(m)
    {
      hide Host.Consistent;
      if m.pathManager.Some? {
        var _ := host.StopProcess(m.pathManager.value);
      }
      var _ := host.StopProcess(m.xray);
    }

    /** Starts the path manager next to a running Xray; on failure both are stopped. */
    method StartHelper(m: Manifest) returns (r: Manifest, code: Option<Code>)
      requires host.Consistent() && m.pathManager.Some? && m.xray.pid in host.started && m.xray.pid in host.live
      modifies host`live, host`started, host`nextPid, host`log
      ensures host.Consistent() && host.HistoryGrows()
      ensures old(host.live) - {m.xray.pid} <= host.live
      ensures code.Some? && host.Steady() ==> host.live == old(host.live) - {m.xray.pid}
      ensures host.calm ==> (code.None? <==> Loadable(m.dir, host.clock))
      ensures code.None? ==>
                && r == m.(pathManager := r.pathManager) && r.pathManager.Some?
                && r.pathManager.value == m.pathManager.value.(pid := r.pathManager.value.pid, revision := m.revision)
                && r.pathManager.value.pid in host.started && r.pathManager.value.pid !in old(host.started)
                && r.pathManager.value.pid !in old(host.live) && host.live == old(host.live) + {r.pathManager.value.pid}
    {
      hide Host.Consistent, Loadable;
      r := m;
      var helper := host.Start(m.pathManager.value.executable, m.revision, m.pathManager.value.digest);
      if helper.None? {
        var _ := host.StopProcess(m.xray);
        return r, Some(ApplyFailed);
      }
      r := m.(pathManager := helper);
      var ready := WaitForPathManager(helper.value, m.dir);
      if !ready {
        StopBoth(r);
        return r, Some(Other);
      }
      code := None;
    }

    /** First half of startManifest: inspections, then the processes. */
    method StartProcesses(m: Manifest, programs: Programs) returns (r: Manifest, code: Option<Code>, stage: Stage)
      requires host.Consistent()
      modifies host`live, host`started, host`nextPid, host`log
      ensures host.Consistent() && host.HistoryGrows() && old(host.live) <= host.live
      ensures code.Some? ==> stage in {Inspecting, StartingXray, StartingPathManager}
      ensures code.Some? && host.Steady() ==> host.live == old(host.live)
      ensures host.calm ==> (code.None? <==> old(Startable(m, programs)))
      ensures code.None? ==>
                && r == m.(xray := r.xray, pathManager := r.pathManager) && StartOf(r, m)
                && XrayMatches(r.xray, r.revision, r.dir) && r.xray.executable == programs.xray
                && (r.pathManager.Some? ==>
                      && r.pathManager.value.executable == m.pathManager.value.executable
                      && r.pathManager.value.revision == m.revision)
                && Pids(r) <= host.started && Pids(r) !! old(host.started) && Pids(r) !! old(host.live)
                && host.live == old(host.live) + Pids(r)
                && m.iface !in host.ifaces && m.iface !in host.services
    {
      hide Host.Consistent, Host.Index, Loadable;
      r, stage := m, Inspecting;
      var known, present, owned := host.ServiceState(m.iface);
      if !known {
        return r, Some(ProcessStale), stage;
      }
      if present {
        return r, Some(if owned then ApplyFailed else ProcessStale), stage;
      }
      var index := host.InterfaceIndex(m.iface);
      if index != Some(0) {
        return r, Some(ApplyFailed), stage;
      }
      var available := host.Ask();
      if !available {
        return r, Some(ApplyFailed), stage;
      }
      stage := StartingXray;
      var identity := host.Start(programs.xray, m.revision, m.xray.digest);
      if identity.None? {
        return r, Some(ApplyFailed), stage;
      }
      r := m.(xray := identity.value);
      var ready := WaitForXray(r);
      if !ready {
        var _ := host.StopProcess(r.xray);
        return r, Some(ApplyFailed), stage;
      }
      if m.pathManager.Some? {
        stage := StartingPathManager;
        r, code := StartHelper(r);
        return;
      }
      code := None;
    }

    /** After the processes started, metadata trust is a matter of the files alone. */
    lemma TrustedOnceStarted(r: Manifest, m: Manifest, programs: Programs)
      requires r.xray.executable == programs.xray
               && (r.pathManager.Some? ==> r.pathManager.value.revision == r.revision)
      requires r.dir == m.dir && r.wgDigest == m.wgDigest && (r.pathManager.Some? <==> m.pathManager.Some?)
      requires r.pathManager.Some? ==>
                 && r.pathManager.value.executable == m.pathManager.value.executable
                 && r.pathManager.value.digest == m.pathManager.value.digest
      ensures Trusted(r, programs) <==> FilesTrusted(m, programs)
    {
    }

    /** Second half of startManifest: the tunnel, its index, and a last check. */
    method StartTunnel(m: Manifest, programs: Programs) returns (r: Manifest, code: Option<Code>, stage: Stage)
      requires host.Consistent() && Pids(m) <= host.started && Pids(m) <= host.live
      requires m.iface !in host.ifaces && m.iface !in host.services
      requires XrayMatches(m.xray, m.revision, m.dir) && m.xray.executable == programs.xray
      requires m.pathManager.Some? ==> m.pathManager.value.revision == m.revision
      modifies host`live, host`log, host`ifaces, host`services, host`created, host`kernel
      ensures host.Consistent() && host.HistoryGrows()
      ensures code.Some? ==> stage in {RaisingTunnel, CapturingIndex, Showing}
      ensures host.Smooth() ==> code.None?
      ensures host.calm && host.blind ==> code.Some? && stage == Showing
      ensures code.Some? ==> old(host.live) - Pids(m) <= host.live <= old(host.live)
      ensures code.Some? && host.Steady() ==>
                if stage == Showing && (m.stopped || !FilesTrusted(m, programs))
                then host.live == old(host.live) && m.iface in host.ifaces
                else host.live == old(host.live) - Pids(m) && host.ifaces == old(host.ifaces)
                     && (stage != CapturingIndex ==> host.services == old(host.services))
      ensures code.None? ==> r == m.(up := true, index := r.index, stopped := false) && host.live == old(host.live)
      ensures code.None? ==> host.Running(r) && host.Known(r) && Stoppable(r)
      ensures host.ifaces - {m.iface} == old(host.ifaces) - {m.iface}
    {
      hide Host.Consistent, XrayMatches, Trusted, FilesTrusted;
      r, stage := m, RaisingTunnel;
      assert host.ifaces - {m.iface} == host.ifaces;
      var ok := host.TunnelUp(m.iface);
      if !ok {
        StopBoth(m);
        return r, Some(ApplyFailed), stage;
      }
      stage := CapturingIndex;
      var index := host.InterfaceIndex(m.iface);
      if index.None? || index.value == 0 {
        assert m.iface !in host.ifaces ==> host.ifaces - {m.iface} == host.ifaces;
        StopBoth(m);
        return r, Some(ApplyFailed), stage;
      }
      r := r.(index := index.value, up := true);
      stage := Showing;
      var shown := host.Show();
      if !shown {
        TrustedOnceStarted(r, m, programs);
        var _ := StopManifest(r, programs);
        return r, Some(ApplyFailed), stage;
      }
      r := r.(stopped := false);
      code := None;
    }

    /** startManifest. Without failures of the host's own, a failed start leaves the host as it was,
        unless its last check fails while the manifest is still marked stopped, or while its files no
        longer match: then the stop that should undo it refuses and everything stays up. */
    method StartManifest(m: Manifest, programs: Programs) returns (r: Manifest, code: Option<Code>, stage: Stage)
      requires host.Consistent()
      modifies host`live, host`started, host`nextPid, host`log, host`ifaces, host`services, host`created, host`kernel
      ensures host.Consistent() && host.HistoryGrows() && old(host.live) <= host.live
      ensures code.None? ==> StartOf(r, m) && host.Running(r) && host.Known(r) && XrayMatches(r.xray, r.revision, r.dir)
      ensures code.None? ==>
                (Trusted(r, programs) <==> FilesTrusted(m, programs)) && Stoppable(r) && m.iface !in old(host.ifaces)
      ensures code.None? ==>
                Pids(r) !! old(host.started) && Pids(r) !! old(host.live) && host.live == old(host.live) + Pids(r)
      ensures code.None? <==> stage == Started
      ensures host.Smooth() ==> (code.None? <==> old(Startable(m, programs)))
      ensures host.calm && host.blind ==> code.Some? && (old(Startable(m, programs)) <==> stage == Showing)
      ensures code.Some? && host.Steady() ==>
                if stage == Showing && (m.stopped || !FilesTrusted(m, programs))
                then old(host.live) < host.live && m.iface in host.ifaces
                else host.live == old(host.live) && host.ifaces == old(host.ifaces)
                     && (stage != CapturingIndex ==> host.services == old(host.services))
      ensures host.ifaces - {m.iface} == old(host.ifaces) - {m.iface}
    {
      hide Host.Consistent, XrayMatches, Trusted, FilesTrusted, Host.Running, Host.Known, Startable, Stoppable;
      r, code, stage := StartProcesses(m, programs);
      if code.Some? {
        return;
      }
      TrustedOnceStarted(r, m, programs);
      ghost var p := r;
      r, code, stage := StartTunnel(r, programs);
      TrustedOnceStarted(p, p, programs);
      if code.None? {
        TrustedOnceStarted(r, m, programs);
        stage := Started;
      }
    }

    /** The process part of a stop. */
    method StopProcesses(m: Manifest, alive: bool) returns (ok: bool)
      requires host.Consistent() && Pids(m) <= host.started && alive == (m.xray.pid in host.live)
      modifies host`live, host`log
      ensures host.Consistent()
      ensures old(host.live) - Pids(m) <= host.live <= old(host.live)
      ensures ok ==> host.live == old(host.live) - Pids(m)
      ensures host.Steady() ==> ok
    {
      hide Host.Consistent;
      if m.pathManager.Some? {
        ok := host.StopProcess(m.pathManager.value);
        if !ok {
          return;
        }
      }
      ok := true;
      if alive {
        ok := host.StopProcess(m.xray);
      }
    }

    /** stopManifest: nothing is touched unless it is proven ours. */
    method StopManifest(m: Manifest, programs: Programs) returns (code: Option<Code>)
      requires host.Consistent() && host.Known(m)
      modifies host`live, host`log, host`ifaces, host`services
      ensures host.Consistent()
      ensures code.None? ==> Trusted(m, programs)
      ensures m.stopped || !Trusted(m, programs) || (host.Steady() && code.Some?) ==> NothingLeft()
      ensures code.None? && !m.stopped ==>
                && XrayMatches(m.xray, m.revision, m.dir) && old(Stoppable(m))
                && host.live == old(host.live) - Pids(m)
                && (m.up ==>
                    host.ifaces == old(host.ifaces) - {m.iface} && host.services == old(host.services) - {m.iface})
                && (!m.up ==> host.ifaces == old(host.ifaces) && host.services == old(host.services))
      ensures old(host.live) - Pids(m) <= host.live <= old(host.live)
      ensures host.ifaces - {m.iface} == old(host.ifaces) - {m.iface}
      ensures host.Steady() ==> (code.None? <==> old(StopsCleanly(m, programs)))
      ensures code.Some? ==> code.value in {ProcessStale, ApplyFailed}
    {
      hide Host.Consistent, XrayMatches, Trusted, Pids;
      if !Trusted(m, programs) {
        return Some(ProcessStale);
      }
      if m.stopped {
        return None;
      }
      var trusted := ProcessTrusted(m);
      if trusted.None? {
        return Some(ProcessStale);
      }
      var known, present, owned := host.ServiceState(m.iface);
      if !known || (present && !owned) || (present && !m.up) {
        return Some(ProcessStale);
      }
      if m.up {
        var index := host.InterfaceIndex(m.iface);
        if index.None? || (index.value != 0 && (m.index == 0 || index.value != m.index)) {
          return Some(ProcessStale);
        }
        if index.value != 0 || present {
          var down := host.TunnelDown(m.iface);
          if !down {
            return Some(ApplyFailed);
          }
        }
      }
      var stopped := StopProcesses(m, trusted.value);
      if !stopped {
        return Some(ProcessStale);
      }
      code := None;
    }

    /** Saves a started manifest as active, or stops what was started. */
    method SaveStarted(r: Manifest, programs: Programs) returns (ok: bool)
      requires host.Consistent() && host.Known(r) && !r.stopped && r.up
      modifies host`active, host`live, host`log, host`ifaces, host`services
      ensures host.Consistent()
      ensures host.active == Some(r) || (!ok && host.active == old(host.active))
      ensures host.atomic && !ok ==> host.active == old(host.active)
      ensures ok ==> NothingLeft()
      ensures host.Smooth() ==> ok
      ensures old(host.live) - Pids(r) <= host.live <= old(host.live)
      ensures host.ifaces - {r.iface} == old(host.ifaces) - {r.iface}
      ensures !ok && host.Steady() && old(StopsCleanly(r, programs)) ==>
                host.live == old(host.live) - Pids(r) && host.ifaces == old(host.ifaces) - {r.iface}
    {
      hide Host.Consistent, Host.Known, XrayMatches, Trusted, Stoppable;
      ok := host.SaveActive(r);
      if !ok {
        var _ := StopManifest(r, programs);
      }
    }

    predicate IsStarted(m: Manifest)
    {
      m.up || m.xray.pid > 0
    }

    /** Once the candidate is out of the way, the previous manifest can be started. */
    predicate Restorable(previous: Manifest, candidate: Manifest, programs: Programs)
      reads host`services, host`ifaces, host`dirs, host`clock
    {
      Launchable(previous, programs) && Free(previous.iface, if IsStarted(candidate) then Some(candidate) else None)
    }

    /** rollback: "apply failed" is only said when the previous runtime runs again and is active. */
    method Rollback(candidate: Manifest, previous: Option<Manifest>, programs: Programs) returns (code: Code)
      requires host.Consistent()
      requires IsStarted(candidate) ==> host.Known(candidate) && !candidate.stopped
      modifies host`live, host`started, host`nextPid, host`log, host`ifaces, host`services, host`created, host`kernel
      modifies host`active
      ensures host.Consistent() && host.HistoryGrows()
      ensures code in {ApplyFailed, RollbackFailed}
      ensures previous.None? ==> host.active == old(host.active)
      ensures previous.None? && IsStarted(candidate) && code == ApplyFailed ==>
                host.live == old(host.live) - Pids(candidate)
      ensures previous.Some? && code == ApplyFailed ==>
                && host.active.Some? && StartOf(host.active.value, previous.value)
                && host.Running(host.active.value) && host.Known(host.active.value) && Settled(host.active.value)
                && host.live == Pids(host.active.value)
                     + (if IsStarted(candidate) then old(host.live) - Pids(candidate) else old(host.live))
      // In a calm host: exactly when the candidate can be stopped and the previous revision started again.
      ensures host.Smooth() ==>
                (code == ApplyFailed <==>
                  && (IsStarted(candidate) ==> old(StopsCleanly(candidate, programs)))
                  && (previous.Some? ==> old(Restorable(previous.value, candidate, programs))))
      ensures code == RollbackFailed ==>
                || host.active == old(host.active)
                || (!host.atomic && previous.Some? && host.active.Some? && StartOf(host.active.value, previous.value)
                    && host.Known(host.active.value) && Settled(host.active.value))
    {
      hide MeshValid, Host.Consistent, XrayMatches, Trusted, FilesTrusted, Host.Known, Host.Running, Stoppable,
        StopsCleanly, Launchable;
      if IsStarted(candidate) {
        var stopped := StopManifest(candidate, programs);
        if stopped.Some? {
          return RollbackFailed;
        }
      }
      if previous.None? {
        return ApplyFailed;
      }
      var restored, failed, _ := StartManifest(previous.value, programs);
      if failed.Some? {
        return RollbackFailed;
      }
      RunningSettled(restored);
      var saved := SaveStarted(restored, programs);
      code := if saved then ApplyFailed else RollbackFailed;
    }

    lemma RunningSettled(m: Manifest)
      requires host.Running(m)
      ensures Settled(m) && !m.stopped && m.up && Pids(m) <= host.live
    {
    }

    /** The manifest's own runtime is up, on trusted files. */
    ghost predicate RunsAsRecorded(m: Manifest, programs: Programs)
      reads host`dirs, host`live, host`ifaces
    {
      !m.stopped && Trusted(m, programs) && XrayMatches(m.xray, m.revision, m.dir) && host.Running(m)
    }

    /** manifestHealthy */
    method Healthy(m: Manifest, programs: Programs) returns (healthy: bool, code: Option<Code>)
      requires host.Consistent()
      ensures code.Some? ==> !healthy
      ensures host.Steady() ==> code in {None, Some(ProcessStale)}
      ensures healthy ==> Trusted(m, programs) && XrayMatches(m.xray, m.revision, m.dir) && !m.stopped
      ensures healthy && m.up ==> host.Running(m)
      ensures host.Steady() && StopsCleanly(m, programs) && (m.stopped || m.up) ==> code.None?
      ensures healthy && m.up ==> RunsAsRecorded(m, programs)
      ensures host.Smooth() && RunsAsRecorded(m, programs) && MeshValid(m) ==> healthy
      ensures host.calm && healthy ==> MeshValid(m)
    {
      hide Host.Consistent;
      if m.stopped {
        return false, None;
      }
      if !Trusted(m, programs) {
        return false, Some(ProcessStale);
      }
      var index := host.InterfaceIndex(m.iface);
      if index.None? || (index.value != 0 && index.value != m.index) {
        return false, Some(ProcessStale);
      }
      if index.value == 0 {
        return false, None;
      }
      var trusted := ProcessTrusted(m);
      if trusted.None? {
        return false, Some(ProcessStale);
      }
      if !trusted.value {
        return false, None;
      }
      if m.pathManager.Some? {
        var alive := host.ProcessAlive(m.pathManager.value);
        if alive.None? {
          return false, Some(Other);
        }
        var sockets := SocketsOwned(m.dir);
        if !alive.value || !sockets {
          return false, None;
        }
      }
      var owned := host.Ask();
      if !owned {
        return false, None;
      }
      var shown := host.Show();
      healthy, code := shown, None;
    }

    // ---------- mesh files ----------

    /** The directory's mesh file is c. */
    predicate MeshOf(dir: nat, c: PM.Config)
      reads host`dirs
    {
      dir in host.dirs && host.dirs[dir].mesh == Some(MeshFile(c, dir))
    }

    method LoadMesh(dir: nat, now: int) returns (c: Option<PM.Config>)
      ensures c.Some? <==> Loadable(dir, now)
      ensures c.Some? ==>
                && MeshOf(dir, c.value)
                && MA.DistinctIds(c.value.peers) && MA.Apart(c.value.peers, {c.value.relayEndpoint, c.value.wgEndpoint})
    {
      if !(dir in host.dirs && host.dirs[dir].mesh.Some?) {
        return None;
      }
      var file := host.dirs[dir].mesh.value;
      if !file.MeshFile? || file.home != dir {
        return None;
      }
      var ok := PM.ValidateConfig(fm, file.config, now);
      if !ok {
        return None;
      }
      PM.ConfigIdsDistinct(fm, file.config, now);
      c := Some(file.config);
    }

    /** The directory holds a mesh file of its own that is valid at this time. */
    predicate Loadable(dir: nat, now: int)
      reads host`dirs
    {
      && dir in host.dirs && host.dirs[dir].mesh.Some? && host.dirs[dir].mesh.value.MeshFile?
      && host.dirs[dir].mesh.value.home == dir && PM.ConfigOk(fm, host.dirs[dir].mesh.value.config, now)
    }

    /** The membership a template asks for, endpoints aside. */
    predicate Serves(c: PM.Config, template: PM.Config)
    {
      && MA.SamePeers(c.peers, template.peers)
      && c.networkId == template.networkId && c.deviceId == template.deviceId
      && c.gatewayPublicKey == template.gatewayPublicKey
    }

    lemma ServesExactly(c: PM.Config, t: PM.Config)
      ensures Serves(c, t) <==>
              && c.networkId == t.networkId && c.deviceId == t.deviceId && c.gatewayPublicKey == t.gatewayPublicKey
              && |c.peers| == |t.peers|
              && forall i :: 0 <= i < |c.peers| ==>
                   && c.peers[i].deviceId == t.peers[i].deviceId && c.peers[i].publicKey == t.peers[i].publicKey
                   && c.peers[i].address == t.peers[i].address
    {
      MA.SamePeersExactly(c.peers, t.peers);
    }

    /** The mesh file in the directory has the lifetime the request asks for. */
    predicate Renewed(dir: nat, q: Request)
      reads host`dirs
    {
      q.mesh.Some? ==>
        && dir in host.dirs && host.dirs[dir].mesh.Some? && host.dirs[dir].mesh.value.MeshFile?
        && host.dirs[dir].mesh.value.config.expiresAt == q.mesh.value.expiresAt
    }

    /** The manifest's mesh is the one the template asks for. */
    predicate MeshServed(m: Manifest, template: Option<PM.Config>)
      reads host`dirs
    {
      && (template.Some? <==> m.pathManager.Some?)
      && (template.Some? ==>
            && m.dir in host.dirs && host.dirs[m.dir].mesh.Some? && host.dirs[m.dir].mesh.value.MeshFile?
            && Serves(host.dirs[m.dir].mesh.value.config, template.value))
    }

    method MeshMatches(m: Manifest, template: Option<PM.Config>, now: int) returns (yes: bool)
      ensures yes ==> MeshServed(m, template)
      ensures template.Some? && m.pathManager.Some? && PM.Cleared(template.value.peers) == template.value.peers ==>
                (yes <==> MeshServed(m, template) && Loadable(m.dir, now))
      ensures template.None? || m.pathManager.None? ==> (yes <==> template.None? && m.pathManager.None?)
    {
      if template.None? || m.pathManager.None? {
        return template.None? && m.pathManager.None?;
      }
      var c := LoadMesh(m.dir, now);
      yes := c.Some? && PM.Cleared(c.value.peers) == template.value.peers
      && c.value.networkId == template.value.networkId && c.value.deviceId == template.value.deviceId
      && c.value.gatewayPublicKey == template.value.gatewayPublicKey;
      if yes {
        ClearedTwice(c.value.peers);
      }
    }

    lemma ClearedTwice(peers: seq<PM.Peer>)
      ensures PM.Cleared(PM.Cleared(peers)) == PM.Cleared(peers)
    {
    }

    // ---------- membership change in place ----------

    /** The parts of a mesh that an in-place change must not touch. */
    predicate SameScope(c: PM.Config, template: PM.Config)
    {
      && c.networkId == template.networkId && c.deviceId == template.deviceId
      && c.gatewayPublicKey == template.gatewayPublicKey
      && c.iface == template.iface && c.overlayCidr == template.overlayCidr
    }

    /** Endpoints of the transport, lifetime and peers may differ, and nothing else. */
    lemma SameScopeExactly(c: PM.Config, t: PM.Config)
      ensures SameScope(c, t) <==>
              t == c.(relayEndpoint := t.relayEndpoint, wgEndpoint := t.wgEndpoint, lanListen := t.lanListen,
                      expiresAt := t.expiresAt, peers := t.peers)
    {
    }

    /** Nothing but the membership and its lifetime differs, and every peer asked for is there already. */
    ghost predicate InPlace(m: Manifest, q: Request)
      requires q.mesh.Some?
      reads host`dirs, host`clock
    {
      && Loadable(m.dir, host.clock)
      && var former := host.dirs[m.dir].mesh.value.config;
         && SameScope(former, q.mesh.value) && MA.AllKnown(former.peers, q.mesh.value.peers)
         && host.dirs[m.dir].wg == RenderWg(q, Some(former)) && host.dirs[m.dir].xray == RenderXray(q, Some(former))
    }

    /** The checks of reconcileMesh: everything but membership and lifetime must stay as it is. */
    method PlanReconcile(m: Manifest, q: Request)
      returns (handled: bool, code: Option<Code>, former: PM.Config, next: PM.Config)
      requires q.mesh.Some? && MA.DistinctIds(q.mesh.value.peers)
      ensures handled && code.None? ==>
                && MeshOf(m.dir, former)
                && host.dirs[m.dir].wg == RenderWg(q, Some(former))
                && host.dirs[m.dir].xray == RenderXray(q, Some(next))
                && next == former.(expiresAt := q.mesh.value.expiresAt, peers := next.peers)
                && Serves(next, q.mesh.value) && MA.Carried(former, q.gateway, next.peers)
                && MA.Keeps(former.peers, q.mesh.value.peers, next.peers)
                && (host.calm ==> PM.ConfigOk(fm, next, host.clock))
      ensures !handled && code.None? ==>
                && MeshOf(m.dir, former)
                && (!SameScope(former, q.mesh.value)
                    || host.dirs[m.dir].wg != RenderWg(q, Some(former))
                    || host.dirs[m.dir].xray != RenderXray(q, Some(former)))
      // Where no host call fails, a loadable mesh of the same scope and files is changed in place, as long as no new
      // endpoint is needed and the result is a valid configuration.
      ensures host.Smooth() && InPlace(m, q) ==>
                && handled && PM.Cleared(next.peers) == PM.Cleared(q.mesh.value.peers)
                && (code.None? <==> PM.ConfigOk(fm, next, host.clock))
    {
      hide PM.ConfigOk, PM.SpecOk, MA.Apart, MA.Carried, MA.Keeps, MA.DistinctIds, MA.AllKnown;
      var template := q.mesh.value;
      former, next := template, template;
      var now := host.Now();
      var loaded := LoadMesh(m.dir, now);
      if loaded.None? {
        return false, Some(Other), former, next;
      }
      former := loaded.value;
      if !SameScope(former, template) {
        return false, None, former, next;
      }
      var readable := host.Ask();
      if !readable {
        return false, Some(Other), former, next;
      }
      if host.dirs[m.dir].wg != RenderWg(q, Some(former)) || host.dirs[m.dir].xray != RenderXray(q, Some(former)) {
        return false, None, former, next;
      }
      var peers := MA.NextPeers(former, q.gateway, template.peers);
      if peers.None? {
        return true, Some(Other), former, next;
      }
      next := former.(expiresAt := template.expiresAt, peers := peers.value);
      now := host.Now();
      var ok := PM.ValidateConfig(fm, next, now);
      handled, code := true, if ok then None else Some(InvalidConfig);
    }

    /** What the in-place change makes of the manifest. */
    function Reconfigured(m: Manifest, q: Request, next: PM.Config): Manifest
      requires m.pathManager.Some?
    {
      m.(revision := q.revision, xray := m.xray.(revision := q.revision),
         pathManager := Some(m.pathManager.value.(revision := q.revision, digest := MeshFile(next, m.dir))),
         wgDigest := RenderWg(q, Some(next)))
    }

    function ReconfiguredFiles(f: Files, m: Manifest, q: Request, next: PM.Config): Files
    {
      f.(mesh := Some(MeshFile(next, m.dir)), wg := RenderWg(q, Some(next)))
    }

    /** The steps of the membership change, up to the first that fails. */
    method ReconcileSteps(m: Manifest, q: Request, next: PM.Config) returns (ok: bool)
      requires host.Consistent() && m.pathManager.Some? && m.dir in host.dirs
      modifies host`dirs, host`active, host`kernel
      ensures host.Consistent()
      ensures exists mesh, wg :: host.dirs == old(host.dirs)[m.dir := old(host.dirs)[m.dir].(mesh := mesh, wg := wg)]
      ensures ok ==>
                && host.dirs == old(host.dirs)[m.dir := ReconfiguredFiles(old(host.dirs)[m.dir], m, q, next)]
                && host.active == Some(Reconfigured(m, q, next))
                && host.kernel == RenderWg(q, Some(next))
      ensures !ok ==> host.active == old(host.active) || (!host.atomic && host.active == Some(Reconfigured(m, q, next)))
      ensures host.Smooth() ==> (ok <==> m.pathManager.value.pid in host.live && PM.ConfigOk(fm, next, host.clock))
    {
      hide Host.Consistent;
      ghost var before := host.dirs;
      assert before == before[m.dir := before[m.dir].(mesh := before[m.dir].mesh, wg := before[m.dir].wg)];
      ok := host.WriteMesh(m.dir, MeshFile(next, m.dir));
      if !ok {
        return;
      }
      ok := WaitForPathManager(m.pathManager.value, m.dir);
      if !ok {
        return;
      }
      ok := host.WriteWg(m.dir, RenderWg(q, Some(next)));
      assert host.dirs == before[m.dir := before[m.dir].(mesh := host.dirs[m.dir].mesh, wg := host.dirs[m.dir].wg)];
      if !ok {
        return;
      }
      ok := host.Ask();  // the temporary file given to "wg syncconf"
      if !ok {
        return;
      }
      ok := host.SyncTunnel(RenderWg(q, Some(next)));
      if ok {
        ok := host.SaveActive(Reconfigured(m, q, next));
      }
    }

    /** The deferred undo: both files, then the kernel. */
    method UndoReconcile(dir: nat, mesh: Content, wg: Content) returns (undone: bool, synced: bool)
      requires host.Consistent() && dir in host.dirs
      modifies host`dirs, host`kernel
      ensures host.Consistent()
      ensures exists m, w :: host.dirs == old(host.dirs)[dir := old(host.dirs)[dir].(mesh := m, wg := w)]
      ensures undone ==> host.dirs == old(host.dirs)[dir := old(host.dirs)[dir].(mesh := Some(mesh), wg := wg)]
      ensures synced ==> host.kernel == wg
      ensures host.Smooth() ==> undone && synced
    {
      hide Host.Consistent;
      ghost var before := host.dirs;
      var a := host.WriteMesh(dir, mesh);
      var b := host.WriteWg(dir, wg);
      assert host.dirs == before[dir := before[dir].(mesh := host.dirs[dir].mesh, wg := host.dirs[dir].wg)];
      undone, synced := a && b, false;
      var c := host.Ask();
      if c {
        synced := host.SyncTunnel(wg);
      }
    }

    /** The transaction of reconcileMesh, with its deferred undo. */
    method CommitReconcile(m: Manifest, q: Request, next: PM.Config)
      returns (code: Option<Code>, undone: bool, synced: bool)
      requires host.Consistent() && m.pathManager.Some? && m.dir in host.dirs && host.dirs[m.dir].mesh.Some?
      modifies host`dirs, host`active, host`kernel
      ensures host.Consistent() && host.dirs.Keys == old(host.dirs.Keys)
      ensures host.dirs - {m.dir} == old(host.dirs) - {m.dir}
      ensures code.None? ==>
                && host.dirs == old(host.dirs)[m.dir := ReconfiguredFiles(old(host.dirs)[m.dir], m, q, next)]
                && host.active == Some(Reconfigured(m, q, next))
                && host.kernel == RenderWg(q, Some(next))
      ensures code.Some? && undone ==> host.dirs == old(host.dirs)
      ensures code.Some? ==>
                host.active == old(host.active) || (!host.atomic && host.active == Some(Reconfigured(m, q, next)))
      ensures code.Some? && synced ==> host.kernel == old(host.dirs)[m.dir].wg
      ensures host.Smooth() ==> code.None? || (undone && synced)
      ensures host.Smooth() ==>
                (code.None? <==> m.pathManager.value.pid in host.live && PM.ConfigOk(fm, next, host.clock))
    {
      hide Host.Consistent, ReconfiguredFiles, Reconfigured, RenderWg;
      undone, synced := false, false;
      var originalMesh, originalWg := host.dirs[m.dir].mesh.value, host.dirs[m.dir].wg;
      var ok := ReconcileSteps(m, q, next);
      if ok {
        return None, undone, synced;
      }
      code := Some(Other);
      undone, synced := UndoReconcile(m.dir, originalMesh, originalWg);
    }

    // ---------- revision directories ----------

    /** prepare: a fresh directory with rendered files. */
    method Prepare(q: Request, programs: Programs) returns (m: Option<Manifest>, code: Code)
      requires host.Consistent()
      modifies host`dirs, host`nextDir
      ensures host.Consistent()
      ensures old(host.dirs.Keys) <= host.dirs.Keys
      ensures m.Some? ==>
                && m.value.dir !in old(host.dirs) && FilesMatch(m.value) && FilesTrusted(m.value, programs)
                && MeshServed(m.value, q.mesh) && m.value.revision == q.revision && m.value.iface == q.iface
                && Rendered(q, m.value.dir) && Renewed(m.value.dir, q)
                && !m.value.up && m.value.xray.pid == 0 && !m.value.stopped
      ensures forall k :: k in old(host.dirs) ==> host.dirs[k] == old(host.dirs)[k]
      ensures NoOldDirs()
      ensures host.Smooth() && q.mesh.None? ==> m.Some?
    {
      hide Host.Consistent, PM.ConfigOk, MA.Apart;
      m := None;
      var dir := host.MakeDir();
      if dir.None? {
        return m, StateIO;
      }
      var mesh: Option<PM.Config> := None;
      if q.mesh.Some? {
        var now := host.Now();
        mesh := MA.AllocateMesh(fm, q.mesh.value, q.gateway, now);
        if mesh.None? {
          var _ := host.RemoveDir(dir.value);
          return m, Other;
        }
      }
      var meshFile := if mesh.Some? then Some(MeshFile(mesh.value, dir.value)) else None;
      var written := host.WriteFiles(dir.value, Files(RenderXray(q, mesh), RenderWg(q, mesh), meshFile));
      if !written {
        var _ := host.RemoveDir(dir.value);
        return m, StateIO;
      }
      m := Some(Manifest(q.revision, dir.value, q.iface, RenderWg(q, mesh),
        Proc(0, programs.xray, RenderXray(q, mesh), q.revision),
        if mesh.Some? then Some(Proc(0, programs.self, meshFile.value, q.revision)) else None,
        false, 0, false));
      code := Other;
    }

    /** The directory holds what q renders to, for the mesh in its mesh file. */
    predicate Rendered(q: Request, dir: nat)
      reads host`dirs
    {
      && dir in host.dirs
      && (host.dirs[dir].mesh.Some? ==> host.dirs[dir].mesh.value.MeshFile?)
      && var mesh := if host.dirs[dir].mesh.Some? then Some(host.dirs[dir].mesh.value.config) else None;
         host.dirs[dir].xray == RenderXray(q, mesh) && host.dirs[dir].wg == RenderWg(q, mesh)
    }

    /** cleanupRetainedRevisions: every directory but those of the two manifests goes. */
    method CleanupRetained(m: Manifest) returns (code: Option<Code>)
      requires host.Consistent()
      modifies host`dirs
      ensures host.Consistent() && host.dirs.Keys <= old(host.dirs.Keys)
      ensures Kept(m, host.lastGood) * old(host.dirs.Keys) <= host.dirs.Keys
      ensures forall k :: k in Kept(m, host.lastGood) && k in host.dirs ==> host.dirs[k] == old(host.dirs)[k]
      ensures code.None? ==> host.dirs.Keys == Kept(m, host.lastGood) * old(host.dirs.Keys)
      ensures host.Smooth() ==> code.None?
    {
      hide Host.Consistent;
      var loaded := host.Ask();
      if host.lastGood.Some? && !loaded {
        return Some(StateIO);
      }
      var keep := Kept(m, host.lastGood);
      var listed := host.Ask();
      if !listed {
        return Some(StateIO);
      }
      var todo := host.dirs.Keys;
      while todo != {}
        invariant host.Consistent() && todo <= old(host.dirs.Keys)
        invariant host.dirs.Keys <= old(host.dirs.Keys) && keep * old(host.dirs.Keys) <= host.dirs.Keys <= todo + keep
        invariant forall k :: k in keep && k in host.dirs ==> host.dirs[k] == old(host.dirs)[k]
        decreases todo
      {
        var d :| d in todo;
        todo := todo - {d};
        if d !in keep {
          var ok := host.RemoveDir(d);
          if !ok {
            return Some(StateIO);
          }
        }
      }
      code := None;
    }

    function Kept(m: Manifest, lastGood: Option<Manifest>): set<nat>
    {
      {m.dir} + if lastGood.Some? then {lastGood.value.dir} else {}
    }

    /** refreshMeshExpiry: rewrites the mesh file with the new lifetime. */
    method RefreshExpiry(m: Manifest, expires: int) returns (r: Manifest, code: Option<Code>)
      requires host.Consistent() && m.pathManager.Some? && FilesMatch(m)
      modifies host`dirs
      ensures host.Consistent() && host.dirs.Keys == old(host.dirs.Keys)
      ensures code.None? ==>
                && m.dir in old(host.dirs) && old(host.dirs)[m.dir].mesh.Some?
                && old(host.dirs)[m.dir].mesh.value.MeshFile?
                && var before := old(host.dirs)[m.dir];
                   var file := MeshFile(before.mesh.value.config.(expiresAt := expires), m.dir);
                   host.dirs == old(host.dirs)[m.dir := before.(mesh := Some(file))]
      ensures code.None? ==>
                && r == m.(pathManager := r.pathManager) && r.pathManager.Some?
                && r.pathManager.value.(digest := m.pathManager.value.digest) == m.pathManager.value
                && FilesMatch(r)
                && forall t :: old(MeshServed(m, Some(t))) ==> MeshServed(r, Some(t))
    {
      hide Host.Consistent;
      r := m;
      var now := host.Now();
      var c := LoadMesh(m.dir, now);
      if c.None? {
        return r, Some(Other);
      }
      var file := MeshFile(c.value.(expiresAt := expires), m.dir);
      var ok := host.WriteMesh(m.dir, file);
      if !ok {
        return r, Some(StateIO);
      }
      r := m.(pathManager := Some(m.pathManager.value.(digest := file)));
      code := None;
    }

    // ---------- apply ----------

    /** What a successful Apply promises: the requested revision and membership, running, on its own files. */
    ghost predicate Applied(q: Request)
      reads host
    {
      && host.active.Some? && host.active.value.revision == q.revision
      && host.Running(host.active.value) && FilesMatch(host.active.value) && MeshServed(host.active.value, q.mesh)
    }

    /** Up again from a stopped manifest of the same revision. */
    method Resume(m: Manifest, q: Request, programs: Programs) returns (code: Option<Code>, stage: Stage)
      requires Valid() && host.active == Some(m) && m.stopped && m.revision == q.revision && MeshServed(m, q.mesh)
      modifies host
      ensures Valid() && host.dirs == old(host.dirs) && host.lastGood == old(host.lastGood)
      ensures code.None? ==> Applied(q) && StartOf(host.active.value, m)
      ensures code.Some? && host.atomic ==> host.active == old(host.active)
      ensures host.Smooth() ==> (code.None? <==> old(Trusted(m, programs) && Startable(m, programs)))
      // What a failure leaves behind, when the host's own stops and inspections work: everything, if the last
      // check failed; otherwise no process and no interface.
      ensures code.Some? && host.Steady() ==>
                if stage == Showing then old(host.live) < host.live && m.iface in host.ifaces
                else host.live == old(host.live) && host.ifaces == old(host.ifaces)
      ensures host.calm && host.blind && old(Trusted(m, programs) && Startable(m, programs)) ==>
                code.Some? && stage == Showing
      ensures !old(Trusted(m, programs)) ==> code.Some? && host.active == old(host.active)
      ensures NoOldDirs()
      ensures code.None? ==>
                RunsAsRecorded(host.active.value, programs) && StopsCleanly(host.active.value, programs)
    {
      hide Loadable, MeshValid, Host.Consistent, Trusted, FilesTrusted, XrayMatches, Host.Running, Stoppable, Startable;
      if !Trusted(m, programs) {
        return Some(ProcessStale), Inspecting;
      }
      var activated, failed;
      activated, failed, stage := StartManifest(m, programs);
      if failed.Some? {
        TrustedFiles(m, programs);
        return failed, stage;
      }
      RunningSettled(activated);
      StartedMatches(activated, m, q, programs);
      TrustedFiles(m, programs);
      assert host.ifaces - {m.iface} == old(host.ifaces) by { assert old(host.ifaces) - {m.iface} == old(host.ifaces); }
      var saved := SaveStarted(activated, programs);
      code := if saved then None else Some(StateIO);
    }

    lemma TrustedFiles(m: Manifest, programs: Programs)
      requires Trusted(m, programs)
      ensures FilesTrusted(m, programs)
    {
    }

    /** A started manifest of trusted files matches its directory and serves the same mesh. */
    lemma StartedMatches(r: Manifest, m: Manifest, q: Request, programs: Programs)
      requires StartOf(r, m) && Trusted(m, programs) && XrayMatches(r.xray, r.revision, r.dir) && MeshServed(m, q.mesh)
      ensures FilesMatch(r) && MeshServed(r, q.mesh)
    {
    }

    lemma PreparedMatches(r: Manifest, m: Manifest, q: Request)
      requires StartOf(r, m) && FilesMatch(m) && MeshServed(m, q.mesh)
      ensures FilesMatch(r) && MeshServed(r, q.mesh)
    {
    }

    /** Peers that were in the mesh file before, with the same key and address, have the endpoint they had. */
    static ghost predicate PathsKept(before: map<nat, Files>, after: map<nat, Files>, dir: nat, q: Request)
      requires q.mesh.Some?
    {
      && dir in before && before[dir].mesh.Some? && before[dir].mesh.value.MeshFile?
      && dir in after && after[dir].mesh.Some? && after[dir].mesh.value.MeshFile?
      && MA.Keeps(before[dir].mesh.value.config.peers, q.mesh.value.peers, after[dir].mesh.value.config.peers)
    }

    /** The in-place change of a healthy runtime. */
    method Reconcile(m: Manifest, q: Request, programs: Programs) returns (handled: bool, code: Option<Code>)
      requires Valid() && host.active == Some(m) && m.pathManager.Some?
      requires q.mesh.Some? && MA.DistinctIds(q.mesh.value.peers)
      requires RunsAsRecorded(m, programs) && FilesMatch(m)
      modifies host`dirs, host`active, host`kernel
      ensures Valid() && host.dirs.Keys == old(host.dirs.Keys)
      ensures handled && code.None? ==>
                Applied(q) && Rendered(q, host.active.value.dir) && host.kernel == host.dirs[host.active.value.dir].wg
      ensures !handled ==> host.dirs == old(host.dirs) && host.active == old(host.active)
      ensures handled && code.None? ==>
                Renewed(host.active.value.dir, q) && PathsKept(old(host.dirs), host.dirs, m.dir, q)
      ensures handled && code.None? ==> RunsAsRecorded(host.active.value, programs)
    {
      hide MA.Keeps, Host.Consistent, MA.DistinctIds, MA.Carried, MA.SamePeers;
      var former, next;
      handled, code, former, next := PlanReconcile(m, q);
      if !handled || code.Some? {
        return;
      }
      var undone, synced;
      code, undone, synced := CommitReconcile(m, q, next);
    }

    /** A healthy runtime of the requested revision: only its lifetime is refreshed. */
    method Keep(m: Manifest, q: Request, ghost programs: Programs) returns (code: Option<Code>)
      requires Valid() && host.active == Some(m) && m.revision == q.revision && MeshServed(m, q.mesh)
      requires RunsAsRecorded(m, programs) && FilesMatch(m)
      modifies host`dirs, host`active
      ensures Valid()
      ensures code.None? ==> Applied(q) && (host.atomic ==> host.dirs.Keys == Kept(host.active.value, host.lastGood))
      ensures host.Smooth() && q.mesh.None? ==> code.None?
      ensures q.mesh.None? ==> host.active == old(host.active)
      ensures code.None? ==> Renewed(host.active.value.dir, q)
      ensures code.None? ==> RunsAsRecorded(host.active.value, programs)
    {
      hide Host.Consistent, Host.Known;
      var r := m;
      if q.mesh.Some? {
        r, code := RefreshExpiry(m, q.mesh.value.expiresAt);
        if code.Some? {
          return;
        }
        assert MeshServed(r, q.mesh);
        KnownProcesses(r, m);
        var saved := host.SaveActive(r);
        if !saved {
          return Some(StateIO);
        }
      }
      code := CleanupRetained(r);
    }

    lemma KnownProcesses(r: Manifest, m: Manifest)
      requires host.Known(m) && Pids(r) == Pids(m) && r.stopped == m.stopped && r.up == m.up && r.iface == m.iface
               && r.index == m.index
      ensures host.Known(r)
    {
    }

    /** Processes of a manifest that are supposed to run. */
    function Owned(m: Option<Manifest>): set<nat>
    {
      if m.Some? && !m.value.stopped then Pids(m.value) else {}
    }

    /** Stops the previous runtime, when it is still up and provably ours. */
    method StopPrevious(m: Manifest, programs: Programs) returns (code: Option<Code>)
      requires host.Consistent() && host.Known(m)
      modifies host`live, host`log, host`ifaces, host`services
      ensures host.Consistent()
      ensures code.None? ==> Trusted(m, programs) && host.live == old(host.live) - Owned(Some(m))
      ensures code.None? ==> forall i :: old(Free(i, Some(m))) ==> i !in host.services && i !in host.ifaces
      ensures code.None? && m.stopped ==> NothingLeft()
      ensures code.None? && !m.stopped && m.up ==>
                host.ifaces == old(host.ifaces) - {m.iface} && host.services == old(host.services) - {m.iface}
      ensures code.None? && !m.stopped && !m.up ==>
                host.ifaces == old(host.ifaces) && host.services == old(host.services)
      ensures host.Steady() ==> (code.None? <==> old(StopsCleanly(m, programs)))
    {
      hide Host.Consistent, Host.Known, XrayMatches, Stoppable, Trusted;
      if !Trusted(m, programs) {
        return Some(ProcessStale);
      }
      if !m.stopped {
        var trusted := ProcessTrusted(m);
        if trusted.None? {
          return Some(ProcessStale);
        }
        code := StopManifest(m, programs);
        return;
      }
      code := None;
    }

    /** Saves last-known-good and active, or rolls back. */
    method Commit(activated: Manifest, previous: Option<Manifest>, programs: Programs) returns (code: Option<Code>)
      requires host.Consistent() && previous == host.active
      requires host.Known(activated) && Settled(activated) && !activated.stopped && activated.up
      requires Pids(activated) <= host.live
      requires host.active.Some? ==> host.Known(host.active.value) && Settled(host.active.value)
      modifies host`live, host`started, host`nextPid, host`log, host`ifaces, host`services, host`created, host`kernel
      modifies host`active, host`lastGood
      ensures host.Consistent() && host.HistoryGrows()
      ensures host.active.Some? ==> host.Known(host.active.value) && Settled(host.active.value)
      ensures code.None? ==> host.active == Some(activated) && (previous.Some? ==> host.lastGood == previous)
      ensures host.Smooth() ==> code.None?
      ensures code.None? ==>
                host.live == old(host.live) && host.ifaces == old(host.ifaces) && host.services == old(host.services)
      ensures host.lastGood == old(host.lastGood) || host.lastGood == previous
      ensures code.Some? && host.atomic ==>
                || host.active == previous
                || (previous.Some? && host.active.Some? && StartOf(host.active.value, previous.value))
      ensures code.Some? ==> code.value in {ApplyFailed, RollbackFailed}
      ensures code == Some(ApplyFailed) && previous.Some? ==>
                && host.active.Some? && StartOf(host.active.value, previous.value) && host.Running(host.active.value)
                && host.live == old(host.live) - Pids(activated) + Pids(host.active.value)
    {
      hide Host.Consistent, Host.Running, Settled, StartOf, StopsCleanly, Restorable;
      if previous.Some? {
        var saved := host.SaveLastGood(previous.value);
        if !saved {
          var why := Rollback(activated, previous, programs);
          return Some(why);
        }
      }
      var saved := host.SaveActive(activated);
      if !saved {
        var why := Rollback(activated, previous, programs);
        return Some(why);
      }
      code := None;
    }

    /** The previous runtime, if any, can be stopped, and then the name is free. */
    predicate Switchable(iface: string, programs: Programs)
      reads host`services, host`ifaces, host`dirs, host`active
    {
      && (host.active.Some? ==> StopsCleanly(host.active.value, programs))
      && Free(iface, host.active)
    }

    /** The second half: the previous runtime, if any, has been stopped. */
    method StartCandidate(candidate: Manifest, programs: Programs) returns (code: Option<Code>, ending: Ending)
      requires host.Consistent()
      requires host.active.Some? ==> host.Known(host.active.value) && Settled(host.active.value)
      requires !candidate.up && candidate.xray.pid == 0
      modifies host`live, host`started, host`nextPid, host`log, host`ifaces, host`services, host`created, host`kernel
      modifies host`active, host`lastGood
      ensures host.Consistent() && host.HistoryGrows()
      ensures host.active.Some? ==> host.Known(host.active.value) && Settled(host.active.value)
      ensures code.None? <==> ending == Replaced
      ensures ending in {RolledBack, Replaced}
      ensures code.None? ==>
                && host.active.Some? && StartOf(host.active.value, candidate) && host.Running(host.active.value)
                && host.live == old(host.live) + Pids(host.active.value)
                && (old(host.active).Some? ==> host.lastGood == old(host.active))
      ensures host.lastGood == old(host.lastGood) || host.lastGood == old(host.active)
      ensures code.Some? && host.atomic ==>
                || host.active == old(host.active)
                || (old(host.active).Some? && host.active.Some? && StartOf(host.active.value, old(host.active).value))
      ensures ending == RolledBack ==> code.Some? && code.value in {ApplyFailed, RollbackFailed}
      ensures ending == RolledBack && code == Some(ApplyFailed) && old(host.active).Some? ==>
                && host.active.Some? && StartOf(host.active.value, old(host.active).value)
                && host.Running(host.active.value)
                && old(host.live) + Pids(host.active.value) <= host.live
      ensures host.Smooth() ==> (code.None? <==> old(Startable(candidate, programs)))
      ensures code.None? && old(FilesTrusted(candidate, programs)) ==>
                RunsAsRecorded(host.active.value, programs) && StopsCleanly(host.active.value, programs)
    {
      hide Loadable, MeshValid, Host.Consistent, Host.Running, Trusted, FilesTrusted, XrayMatches, Settled, StartOf;
      hide StopsCleanly, Restorable, Stoppable, Startable;
      var previous := host.active;
      var activated, failed, _ := StartManifest(candidate, programs);
      if failed.Some? {
        var why := Rollback(candidate, previous, programs);
        return Some(why), RolledBack;
      }
      RunningSettled(activated);
      code := Commit(activated, previous, programs);
      if code.None? && Trusted(activated, programs) {
        StoppableAgain(activated, programs);
      }
      ending := if code.Some? then RolledBack else Replaced;
    }

    /** Replaces the running configuration by a prepared candidate, or rolls back. */
    method Activate(candidate: Manifest, programs: Programs) returns (code: Option<Code>, ending: Ending)
      requires host.Consistent()
      requires host.active.Some? ==> host.Known(host.active.value) && Settled(host.active.value)
      requires !candidate.up && candidate.xray.pid == 0
      modifies host`live, host`started, host`nextPid, host`log, host`ifaces, host`services, host`created, host`kernel
      modifies host`active, host`lastGood
      ensures host.Consistent() && host.HistoryGrows()
      ensures host.active.Some? ==> host.Known(host.active.value) && Settled(host.active.value)
      ensures code.None? <==> ending == Replaced
      ensures code.None? ==>
                && host.active.Some? && StartOf(host.active.value, candidate) && host.Running(host.active.value)
                && host.live == old(host.live) - old(Owned(host.active)) + Pids(host.active.value)
                && (old(host.active).Some? ==> host.lastGood == old(host.active))
      ensures host.lastGood == old(host.lastGood) || host.lastGood == old(host.active)
      ensures code.Some? && host.atomic ==>
                || host.active == old(host.active)
                || (old(host.active).Some? && host.active.Some? && StartOf(host.active.value, old(host.active).value))
      ensures ending == RolledBack ==> code.Some? && code.value in {ApplyFailed, RollbackFailed}
      ensures ending == RolledBack && code == Some(ApplyFailed) && old(host.active).Some? ==>
                && host.active.Some? && StartOf(host.active.value, old(host.active).value)
                && host.Running(host.active.value)
                && old(host.live) - old(Owned(host.active)) + Pids(host.active.value) <= host.live
      ensures ending in {Refused, RolledBack, Replaced}
      ensures host.Smooth() && old(FilesMatch(candidate) && MeshValid(candidate)) && programs.xray != "" ==>
                (code.None? <==> old(Switchable(candidate.iface, programs)))
      ensures old(host.active).Some? && !old(Trusted(host.active.value, programs)) ==>
                code.Some? && host.active == old(host.active)
      ensures code.None? && old(FilesTrusted(candidate, programs)) ==>
                RunsAsRecorded(host.active.value, programs) && StopsCleanly(host.active.value, programs)
    {
      hide Loadable, MeshValid, Host.Consistent, Host.Running, Trusted, FilesTrusted, XrayMatches, Settled, StartOf,
        StopsCleanly, Restorable, Stoppable;
      var previous := host.active;
      if previous.Some? {
        code := StopPrevious(previous.value, programs);
        if code.Some? {
          return code, Refused;
        }
      }
      code, ending := StartCandidate(candidate, programs);
    }

    lemma StoppableAgain(m: Manifest, programs: Programs)
      requires Trusted(m, programs) && XrayMatches(m.xray, m.revision, m.dir) && Stoppable(m)
      ensures StopsCleanly(m, programs)
    {
    }

    /** Cleanup keeps what the manifest describes. */
    method Finish(m: Manifest, q: Request, ghost programs: Programs) returns (code: Option<Code>)
      requires host.Consistent() && FilesMatch(m) && MeshServed(m, q.mesh) && Rendered(q, m.dir) && Renewed(m.dir, q)
      requires RunsAsRecorded(m, programs) && StopsCleanly(m, programs)
      modifies host`dirs
      ensures RunsAsRecorded(m, programs) && StopsCleanly(m, programs)
      ensures host.Consistent() && FilesMatch(m) && MeshServed(m, q.mesh) && Rendered(q, m.dir)
              && host.dirs.Keys <= old(host.dirs.Keys)
      ensures Renewed(m.dir, q)
      ensures host.atomic && old(Stored(host.lastGood)) ==> Stored(host.lastGood)
      ensures code.None? && host.atomic && old(Stored(host.lastGood)) ==> host.dirs.Keys == Kept(m, host.lastGood)
      ensures host.Smooth() ==> code.None?
    {
      hide Host.Consistent;
      code := CleanupRetained(m);
    }

    /** Preparing a candidate does not change what can be said about the active manifest. */
    method PrepareBeside(q: Request, programs: Programs) returns (m: Option<Manifest>, code: Code)
      requires host.Consistent()
      modifies host`dirs, host`nextDir
      ensures host.Consistent()
      ensures old(host.dirs.Keys) <= host.dirs.Keys
      ensures m.Some? ==>
                && m.value.dir !in old(host.dirs) && FilesMatch(m.value) && FilesTrusted(m.value, programs)
                && MeshServed(m.value, q.mesh) && m.value.revision == q.revision && m.value.iface == q.iface
                && Rendered(q, m.value.dir) && Renewed(m.value.dir, q)
                && !m.value.up && m.value.xray.pid == 0 && !m.value.stopped
      ensures host.Smooth() && q.mesh.None? ==> m.Some?
      ensures old(Stored(host.active)) ==> (Switchable(q.iface, programs) <==> old(Switchable(q.iface, programs)))
      ensures NoOldDirs()
    {
      hide Renewed, Host.Consistent, MeshServed, Rendered, Stoppable, Free;
      m, code := Prepare(q, programs);
    }

    /** From a prepared and tested candidate on; a candidate that does not become active loses its directory. */
    method SwitchTo(m: Manifest, q: Request, programs: Programs) returns (code: Option<Code>, ending: Ending)
      requires Valid() && FilesMatch(m) && MeshServed(m, q.mesh) && Rendered(q, m.dir) && Renewed(m.dir, q)
      requires m.revision == q.revision && m.iface == q.iface && !m.up && m.xray.pid == 0
      requires host.atomic ==> Apart(m.dir, host.active) && Apart(m.dir, host.lastGood)
      requires FilesTrusted(m, programs)
      modifies host
      ensures Valid()
      ensures code.None? ==> ending == Replaced && Applied(q) && Rendered(q, host.active.value.dir)
      ensures code.None? ==> host.live == old(host.live) - old(Owned(host.active)) + Pids(host.active.value)
      ensures code.None? && old(host.active).Some? ==> host.lastGood == old(host.active)
      ensures code.None? && host.atomic ==> host.dirs.Keys == Kept(host.active.value, host.lastGood)
      ensures ending == RolledBack ==> code.Some? && code.value in {ApplyFailed, RollbackFailed}
      ensures ending == RolledBack && code == Some(ApplyFailed) && old(host.active).Some? ==>
                host.active.Some? && StartOf(host.active.value, old(host.active).value)
                  && host.Running(host.active.value)
      ensures ending in {Refused, RolledBack, Replaced}
      ensures host.Smooth() && host.atomic && programs.xray != "" && old(MeshValid(m)) ==>
                (code.None? <==> old(Switchable(q.iface, programs)))
      ensures old(host.active).Some? && !old(Trusted(host.active.value, programs)) ==>
                code.Some? && host.active == old(host.active)
      ensures NoOldDirs()
      ensures code.None? ==> Renewed(host.active.value.dir, q)
      ensures code.None? ==>
                RunsAsRecorded(host.active.value, programs) && StopsCleanly(host.active.value, programs)
    {
      hide Renewed, MeshValid, Host.Consistent, Host.Running, Host.Known, Settled, FilesMatch, FilesTrusted,
        MeshServed, Pids,
        Switchable;
      code, ending := Activate(m, programs);
      if code.Some? {
        var _ := host.RemoveDir(m.dir);
        return;
      }
      var r := host.active.value;
      assert FilesMatch(r) && MeshServed(r, q.mesh) by { PreparedMatches(r, m, q); }
      code := Finish(r, q, programs);
    }

    ghost predicate Apart(dir: nat, m: Option<Manifest>)
    {
      m.Some? ==> m.value.dir != dir
    }

    lemma MeshlessIsValid(m: Manifest, q: Request)
      requires MeshServed(m, q.mesh)
      ensures q.mesh.None? ==> MeshValid(m)
    {
    }

    /** The full transaction: a new directory, the switch, and the removal of what is not kept. */
    method Replace(q: Request, programs: Programs) returns (code: Option<Code>, ending: Ending)
      requires Valid()
      modifies host
      ensures Valid()
      ensures code.None? ==> ending == Replaced && Applied(q) && Rendered(q, host.active.value.dir)
      ensures code.None? ==> host.live == old(host.live) - old(Owned(host.active)) + Pids(host.active.value)
      ensures code.None? && old(host.active).Some? ==> host.lastGood == old(host.active)
      ensures code.None? && host.atomic ==> host.dirs.Keys == Kept(host.active.value, host.lastGood)
      ensures ending == RolledBack ==> code.Some? && code.value in {ApplyFailed, RollbackFailed}
      ensures ending == RolledBack && code == Some(ApplyFailed) && old(host.active).Some? ==>
                host.active.Some? && StartOf(host.active.value, old(host.active).value)
                  && host.Running(host.active.value)
      ensures ending in {Refused, RolledBack, Replaced}
      ensures host.Smooth() && host.atomic && q.mesh.None? && programs.xray != "" ==>
                (code.None? <==> old(Switchable(q.iface, programs)))
      ensures old(host.active).Some? && old(FilesGone(host.active.value)) ==>
                code.Some? && host.active == old(host.active) && FilesGone(host.active.value)
      ensures code.None? ==> Renewed(host.active.value.dir, q)
      ensures code.None? ==>
                RunsAsRecorded(host.active.value, programs) && StopsCleanly(host.active.value, programs)
    {
      hide Renewed, Host.Consistent, Host.Running, Host.Known, Settled, FilesMatch, FilesTrusted, MeshServed, Rendered,
        Pids,
        Switchable, Applied;
      var candidate, why := PrepareBeside(q, programs);
      if candidate.None? {
        return Some(why), Refused;
      }
      var m := candidate.value;
      var tested := host.Ask();  // "xray run -test"
      if !tested {
        var _ := host.RemoveDir(m.dir);
        return Some(ApplyFailed), Refused;
      }
      if host.active.Some? {
        GoneUntrusted(host.active.value, programs);
      }
      MeshlessIsValid(m, q);
      code, ending := SwitchTo(m, q, programs);
    }

    /** Checks that precede every effect: the request, the programs, the permission. */
    method Preflight(q: Request, programs: Option<Programs>) returns (code: Option<Code>)
      ensures code.None? ==> programs.Some? && q.revision != ""
      ensures code.None? && q.mesh.Some? ==> PM.SpecOk(fm, q.mesh.value.peers, q.mesh.value.deviceId)
      ensures host.calm && q.mesh.None? && q.revision != "" && programs.Some? ==> code.None?
    {
      var formed := host.Ask();
      if q.revision == "" || !formed || (q.mesh.Some? && q.mesh.value.iface != q.iface) {
        return Some(InvalidConfig);
      }
      if q.mesh.Some? {
        var ok := PM.ValidateSpec(fm, q.mesh.value.peers, q.mesh.value.deviceId);
        if !ok {
          return Some(InvalidConfig);
        }
      }
      if programs.None? {
        return Some(Dependency);
      }
      var privileged := host.Ask();
      if !privileged {
        return Some(Permission);
      }
      var secured := host.Ask();
      code := if secured then None else Some(StateIO);
    }

    /** What is tried while the active runtime is healthy, before a full transaction: a membership change in
        place, or nothing but a new lifetime. */
    method KeepOrReconcile(m: Manifest, q: Request, programs: Programs, same: bool)
      returns (done: bool, code: Option<Code>, ending: Ending)
      requires Valid() && host.active == Some(m) && RunsAsRecorded(m, programs) && FilesMatch(m)
      requires same ==> MeshServed(m, q.mesh)
      requires q.mesh.Some? ==> PM.SpecOk(fm, q.mesh.value.peers, q.mesh.value.deviceId)
      modifies host`dirs, host`active, host`kernel
      ensures Valid()
      ensures done ==> ending in {Refused, Reconciled, Refreshed} && (ending == Refused ==> code.Some?)
      ensures done && code.None? ==> Applied(q)
      ensures done && code.None? && ending == Reconciled ==> Rendered(q, host.active.value.dir)
      ensures done && code.None? && ending == Refreshed && host.atomic ==>
                host.dirs.Keys == Kept(host.active.value, host.lastGood)
      ensures !done ==> host.dirs == old(host.dirs) && host.active == old(host.active)
      ensures q.mesh.None? ==>
                && host.active == old(host.active)
                && (done <==> m.revision == q.revision && same)
                && (done ==> ending == Refreshed)
                && (done && host.Smooth() ==> code.None?)
      ensures done && code.None? ==> Renewed(host.active.value.dir, q)
      ensures done && code.None? && ending == Reconciled ==>
                q.mesh.Some? && PathsKept(old(host.dirs), host.dirs, m.dir, q)
      ensures done && code.None? ==> RunsAsRecorded(host.active.value, programs)
    {
      hide Renewed, PathsKept, Host.Consistent, Host.Running, Host.Known, Rendered, Pids, Kept, PM.SpecOk;
      if m.pathManager.Some? && q.mesh.Some? && (!same || m.revision != q.revision) {
        SpecIds(q.mesh.value.peers, q.mesh.value.deviceId);
        var handled, failed := Reconcile(m, q, programs);
        if failed.Some? {
          return true, if same then failed else Some(ApplyFailed), Refused;
        }
        if handled {
          return true, None, Reconciled;
        }
      }
      if m.revision == q.revision && same {
        code := Keep(m, q, programs);
        return true, code, Refreshed;
      }
      done, code, ending := false, None, Refused;
    }

    /** What is tried before a full transaction: to start a stopped runtime again, or to go on with a healthy one. */
    method Continue(m: Manifest, q: Request, programs: Programs)
      returns (done: bool, code: Option<Code>, ending: Ending)
      requires Valid() && host.active == Some(m)
      requires q.mesh.Some? ==> PM.SpecOk(fm, q.mesh.value.peers, q.mesh.value.deviceId)
      modifies host
      ensures Valid()
      ensures !done ==> Undisturbed()
      ensures done ==> ending in {Refused, Resumed, Reconciled, Refreshed} && (ending == Refused ==> code.Some?)
      ensures done && code.None? ==> Applied(q) && RunsAsRecorded(host.active.value, programs)
      ensures done && code.None? && ending == Resumed ==> StopsCleanly(host.active.value, programs)
      ensures done && code.None? && ending != Resumed ==> Renewed(host.active.value.dir, q)
      ensures done && code.None? && ending == Reconciled ==>
                Rendered(q, host.active.value.dir) && q.mesh.Some? && PathsKept(old(host.dirs), host.dirs, m.dir, q)
      ensures done && code.None? && ending == Refreshed && host.atomic ==>
                host.dirs.Keys == Kept(host.active.value, host.lastGood)
      ensures done && code.Some? && host.Smooth() && q.mesh.None? ==>
                !old(StopsCleanly(m, programs)) || (m.stopped && !old(Startable(m, programs)))
      ensures done && ending == Resumed && code.Some? && host.Steady() ==>
                || (host.live == old(host.live) && host.ifaces == old(host.ifaces))
                || (old(host.live) < host.live && m.iface in host.ifaces)
      ensures host.calm && host.blind && q.mesh.None? && m.stopped && m.revision == q.revision && m.pathManager.None?
              && old(Trusted(m, programs)) && old(Startable(m, programs)) ==>
                done && code.Some? && old(host.live) < host.live && m.iface in host.ifaces
      ensures host.Smooth() && q.mesh.None? && m.revision == q.revision && m.pathManager.None?
              && old(RunsAsRecorded(m, programs)) ==>
                && done && code.None? && ending == Refreshed
                && host.live == old(host.live) && host.active == old(host.active)
      ensures old(FilesGone(m)) ==> (done ==> code.Some?) && host.active == old(host.active) && FilesGone(m)
    {
      hide Renewed, PathsKept, Loadable, Kept, Trusted, Host.Consistent, Host.Running, Host.Known, FilesMatch;
      hide FilesTrusted, MeshServed, Rendered, Pids, Startable, XrayMatches, Stoppable, Free;
      done, code, ending := true, None, Refused;
      GoneUntrusted(m, programs);
      var now := host.Now();
      var same := MeshMatches(m, q.mesh, now);
      if m.stopped && m.revision == q.revision && same {
        var stage;
        code, stage := Resume(m, q, programs);
        return true, code, Resumed;
      }
      var healthy, why := Healthy(m, programs);
      if why == Some(ProcessStale) {
        return true, why, Refused;
      }
      if healthy {
        assert FilesMatch(m) by { TrustedMatches(m, programs); }
        done, code, ending := KeepOrReconcile(m, q, programs, same);
        return;
      }
      done := false;
    }

    /** Nothing that a full transaction depends on has changed. */
    twostate predicate Undisturbed()
      reads host
    {
      && host.dirs == old(host.dirs) && host.nextDir == old(host.nextDir) && host.active == old(host.active)
      && host.lastGood == old(host.lastGood) && host.live == old(host.live) && host.started == old(host.started)
      && host.ifaces == old(host.ifaces) && host.services == old(host.services) && host.clock == old(host.clock)
    }

    /** Apply, with the programs found at this call. In a calm host, a configuration without a mesh is
        applied whenever the previous runtime is provably ours and the interface name is free. */
    method Apply(q: Request, found: Option<Programs>) returns (code: Option<Code>, ending: Ending)
      requires Valid()
      requires q.mesh.Some? ==> q.mesh.value.relayEndpoint == ""
      modifies host
      ensures Valid()
      ensures ending in {Resumed, Reconciled, Refreshed} ==> old(host.active).Some?
      ensures code.None? ==> found.Some? && Applied(q) && ending in {Resumed, Reconciled, Refreshed, Replaced}
      ensures code.None? && ending in {Reconciled, Replaced} ==> Rendered(q, host.active.value.dir)
      ensures code.None? ==> RunsAsRecorded(host.active.value, found.value)
      ensures code.None? && ending in {Resumed, Replaced} ==> StopsCleanly(host.active.value, found.value)
      // Only a stopped runtime that is started again keeps the lifetime it had.
      ensures code.None? && ending != Resumed ==> Renewed(host.active.value.dir, q)
      ensures code.None? && ending == Reconciled ==>
                old(host.active).Some? && q.mesh.Some?
                  && PathsKept(old(host.dirs), host.dirs, old(host.active).value.dir, q)
      ensures code.None? && ending == Replaced ==>
                && host.live == old(host.live) - old(Owned(host.active)) + Pids(host.active.value)
                && (old(host.active).Some? ==> host.lastGood == old(host.active))
      ensures code.None? && ending in {Refreshed, Replaced} && host.atomic ==>
                host.dirs.Keys == Kept(host.active.value, host.lastGood)
      ensures ending == RolledBack ==> code.Some? && code.value in {ApplyFailed, RollbackFailed}
      ensures ending == RolledBack && code == Some(ApplyFailed) && old(host.active).Some? ==>
                host.active.Some? && StartOf(host.active.value, old(host.active).value)
                  && host.Running(host.active.value)
      ensures host.Smooth() && host.atomic && q.mesh.None? && q.revision != "" && found.Some?
              && found.value.xray != "" ==>
                && (old(host.active).None? ==> (code.None? <==> old(Free(q.iface, None))))
                && (old(Switchable(q.iface, found.value))
                    && (old(host.active).Some? && old(host.active).value.stopped ==>
                        old(Startable(host.active.value, found.value)))
                    ==> code.None?)
      // A failed resume leaves nothing, or everything; the latter whenever only the last check fails.
      ensures ending == Resumed && code.Some? && host.Steady() ==>
                || (host.live == old(host.live) && host.ifaces == old(host.ifaces))
                || (old(host.live) < host.live && old(host.active).value.iface in host.ifaces)
      ensures host.calm && host.blind && q.mesh.None? && q.revision != "" && found.Some? && old(host.active).Some?
              && old(host.active).value.stopped && old(host.active).value.revision == q.revision
              && old(host.active).value.pathManager.None?
              && old(Trusted(host.active.value, found.value)) && old(Startable(host.active.value, found.value)) ==>
                code.Some? && old(host.live) < host.live && old(host.active).value.iface in host.ifaces
      // A runtime of the requested revision that runs as recorded is left running.
      ensures host.Smooth() && host.atomic && q.mesh.None? && q.revision != "" && found.Some? && old(host.active).Some?
              && old(host.active).value.revision == q.revision && old(host.active).value.pathManager.None?
              && old(RunsAsRecorded(host.active.value, found.value)) ==>
                code.None? && ending == Refreshed && host.live == old(host.live) && host.active == old(host.active)
      // Once the files of the active manifest are gone, nothing can be applied any more.
      ensures old(host.active).Some? && old(FilesGone(host.active.value)) ==>
                code.Some? && host.active == old(host.active) && FilesGone(host.active.value)
    {
      hide Renewed, PathsKept, Kept, Trusted, Host.Consistent, Host.Running, Host.Known, FilesMatch, FilesTrusted;
      hide MeshServed, Rendered, Startable, XrayMatches, Stoppable, Free, Applied;
      code := Preflight(q, found);
      ending := Refused;
      if code.Some? {
        return;
      }
      var programs := found.value;
      var readable := host.Ask();
      if host.active.Some? {
        if !readable {
          return Some(StateIO), Refused;
        }
        var done;
        done, code, ending := Continue(host.active.value, q, programs);
        if done {
          return;
        }
      }
      code, ending := Replace(q, programs);
    }

    lemma TrustedMatches(m: Manifest, programs: Programs)
      requires Trusted(m, programs) && XrayMatches(m.xray, m.revision, m.dir)
      ensures FilesMatch(m)
    {
    }

    lemma SpecIds(peers: seq<PM.Peer>, self: string)
      requires PM.SpecOk(fm, peers, self)
      ensures MA.DistinctIds(peers)
    {
    }

    /** Down: stops exactly what the active manifest describes and keeps the manifest for the next Apply. */
    method Down(found: Option<Programs>) returns (code: Option<Code>)
      requires Valid()
      modifies host
      ensures Valid() && host.dirs == old(host.dirs) && host.lastGood == old(host.lastGood)
      ensures host.live <= old(host.live) && old(host.live) - old(Owned(host.active)) <= host.live
      ensures code.None? && old(host.active).None? ==> host.active.None?
      ensures code.None? && old(host.active).Some? ==>
                && host.active.Some? && host.active.value.stopped && StartOf(host.active.value, old(host.active).value)
                && host.live == old(host.live) - old(Owned(host.active))
                && (!old(host.active).value.stopped ==> host.active.value.iface !in host.ifaces)
      ensures host.active == old(host.active)
              || (old(host.active).Some? && host.active == Some(Downed(old(host.active).value)))
      ensures found.None? || (old(host.active).Some? && !old(Trusted(host.active.value, found.value))) ==>
                code.Some? && host.active == old(host.active)
      ensures NoOldDirs()
      ensures found.Some? ==> RV.DownStep(old(View(found.value)), View(found.value), code.None?)
      ensures host.Smooth() && found.Some? ==>
                (code.None? <==> RV.Downable(old(View(found.value))))
                && (code.Some? ==> View(found.value) == old(View(found.value)))
      ensures host.Smooth() && found.Some? ==>
                (code.None? <==> old(host.active).None? || old(StopsCleanly(host.active.value, found.value)))
    {
      hide Loadable, MeshValid, Host.Consistent, FilesTrusted;
      if found.None? {
        return Some(Dependency);
      }
      var programs := found.value;
      var privileged := host.Ask();
      if !privileged {
        return Some(Permission);
      }
      if host.active.None? {
        return None;
      }
      var readable := host.Ask();
      if !readable {
        return Some(StateIO);
      }
      var m := host.active.value;
      if !Trusted(m, programs) {
        return Some(ProcessStale);
      }
      if m.stopped {
        return None;
      }
      code := StopManifest(m, programs);
      if code.Some? {
        return;
      }
      DownedIntact(m, programs.self);
      var saved := host.SaveActive(Downed(m));
      code := if saved then None else Some(StateIO);
    }

    /** The manifest that Down keeps. */
    function Downed(m: Manifest): Manifest
    {
      m.(stopped := true, up := false, xray := m.xray.(pid := 0))
    }

    lemma DownedIntact(m: Manifest, self: string)
      ensures Intact(Downed(m), self) <==> Intact(m, self)
    {
    }

    /** Status, as far as a leave reads it: whether a runtime is on record and healthy. Without the programs
        or the privilege nothing is on record. */
    method Status(found: Option<Programs>) returns (ok: bool, recorded: bool, applied: bool)
      requires Valid()
      ensures recorded ==> found.Some? && host.active.Some?
      ensures applied ==> ok && recorded && RunsAsRecorded(host.active.value, found.value)
      ensures found.None? ==> ok && !recorded
      ensures host.Smooth() && found.Some? ==>
                ok && (recorded <==> host.active.Some?)
                  && (recorded ==>
                      (applied <==> RunsAsRecorded(host.active.value, found.value) && MeshValid(host.active.value)))
    {
      ok, recorded, applied := true, false, false;
      var privileged := host.Ask();
      if found.None? || !privileged || host.active.None? {
        return;
      }
      ok := host.Ask();  // the manifest can be read
      if !ok {
        return;
      }
      recorded := true;
      var healthy, why := Healthy(host.active.value, found.value);
      if why.Some? && why != Some(ProcessStale) {
        return false, true, false;
      }
      applied := healthy;
    }

    /** What a clean-up checks before it removes anything. */
    method Checked(programs: Programs) returns (code: Option<Code>)
      ensures code.None? ==> RV.Cleanable(View(programs))
      ensures host.Smooth() ==> (code.None? <==> RV.Cleanable(View(programs)))
    {
      hide RunsAsRecorded, StopsCleanly, Trusted;
      if host.active.Some? {
        var readable := host.Ask();
        if !readable {
          return Some(StateIO);
        }
        if !Intact(host.active.value, programs.self) {
          return Some(ProcessStale);
        }
        if !host.active.value.stopped {
          return Some(ApplyFailed);
        }
      }
      if host.lastGood.Some? {
        var readable := host.Ask();
        if !readable {
          return Some(StateIO);
        }
        if !Intact(host.lastGood.value, programs.self) {
          return Some(ProcessStale);
        }
      }
      code := None;
    }

    /** Cleanup: the files of both manifests, then the manifests. */
    method Cleanup(programs: Programs) returns (code: Option<Code>)
      requires host.Consistent()
      modifies host`dirs, host`active, host`lastGood
      ensures host.Consistent()
      ensures RV.CleanStep(old(View(programs)), View(programs), code.None?)
      ensures host.Smooth() ==> (code.None? <==> RV.Cleanable(old(View(programs))))
      ensures host.active in {None, old(host.active)} && host.lastGood in {None, old(host.lastGood)}
      ensures host.active.Some? && host.dirs != old(host.dirs) ==> FilesGone(host.active.value)
      ensures code.None? ==> host.dirs == old(host.dirs) - (DirOf(old(host.active)) + DirOf(old(host.lastGood)))
    {
      hide RunsAsRecorded, StopsCleanly;
      code := Checked(programs);
      if code.Some? {
        return;
      }
      var ok := true;
      if host.active.Some? {
        ok := host.RemoveFiles(host.active.value.dir);
      }
      if ok && host.lastGood.Some? {
        ok := host.RemoveFiles(host.lastGood.value.dir);
      }
      if ok {
        ok := host.RemoveManifests();
      }
      code := if ok then None else Some(StateIO);
    }

    function DirOf(m: Option<Manifest>): set<nat>
    {
      if m.Some? then {m.value.dir} else {}
    }
  }

  function StoppedManifest(): Manifest
  {
    Manifest("r", 0, "wg", Unknown("w"), Proc(0, "xray", Unknown("x"), "r"), None, false, 0, true)
  }

  /** A calm host on which "wg show" fails, with one stopped runtime on record. */
  method StoppedRuntime() returns (d: Desktop)
    ensures fresh(d) && fresh(d.host) && d.Valid() && d.host.calm && d.host.blind
            && d.host.active == Some(StoppedManifest())
    ensures d.Trusted(StoppedManifest(), Programs("xray", "self"))
            && d.Startable(StoppedManifest(), Programs("xray", "self"))
  {
    var host := new Host(true, true, true, true);
    host.dirs, host.nextDir, host.active := map[0 := Files(Unknown("x"), Unknown("w"), None)], 1,
      Some(StoppedManifest());
    var all: string -> bool := _ => true;
    d := new Desktop(host, PM.Formats(all, _ => 1, all, all, all, all, all));
  }

  /** A witness of the start that leaks: nothing fails but "wg show", and a stopped runtime is asked to come
      up again. The call fails, and its process and interface are there. */
  method ResumeLeaks() returns (d: Desktop, code: Option<Code>)
    ensures code.Some? && d.host.live != {} && "wg" in d.host.ifaces
  {
    d := StoppedRuntime();
    hide Desktop.Valid, Desktop.Trusted, Desktop.Startable, Desktop.Switchable, Desktop.RunsAsRecorded, Desktop.Applied;
    var ending;
    code, ending := d.Apply(Request("r", "wg", "", "", "", None), Some(Programs("xray", "self")));
  }

  /** What has been applied needs not be applied again: where no host call fails, the same request goes on with
      the same runtime. */
  method ApplyAgain(d: Desktop, q: Request, programs: Programs) returns (first: Option<Code>, second: Option<Code>)
    requires d.Valid() && d.host.Smooth() && d.host.atomic && q.mesh.None? && q.revision != ""
    modifies d.host
    ensures first.None? ==> second.None? && d.Applied(q) && d.RunsAsRecorded(d.host.active.value, programs)
  {
    hide Desktop.Valid, Desktop.Trusted, Desktop.Switchable, Desktop.Startable, Host.Running, Desktop.FilesMatch;
    var ending;
    first, ending := d.Apply(q, Some(programs));
    second := first;
    if first.None? {
      second, ending := d.Apply(q, Some(programs));
    }
  }

  /** And what has been brought up from nothing can be taken down: where no host call fails and the name is
      free, both succeed, and neither the processes nor the interface are left. */
  method ApplyThenDown(d: Desktop, q: Request, programs: Programs) returns (up: Option<Code>, down: Option<Code>)
    requires d.Valid() && d.host.Smooth() && d.host.atomic && q.mesh.None? && q.revision != "" && programs.xray != ""
    requires d.host.active.None? && d.Free(q.iface, None)
    modifies d.host
    ensures up.None? && down.None? && d.host.live <= old(d.host.live)
    ensures d.host.active.Some? && d.host.active.value.stopped && d.host.active.value.iface !in d.host.ifaces
  {
    hide Desktop.Valid, Desktop.Trusted, Desktop.Switchable, Desktop.Startable, Host.Running, Desktop.FilesMatch;
    hide Desktop.StopsCleanly, Desktop.View;
    var ending;
    up, ending := d.Apply(q, Some(programs));
    down := d.Down(Some(programs));
  }

  /** An interrupted clean-up is a dead end: the files are gone, the record is not, and whatever is called
      afterwards, with whatever programs and under whatever interference, refuses and leaves the record. (The
      directory facts of `Valid` claim nothing here, so this is about hosts for which they are not made.) */
  method DeadEnd(d: Desktop) returns (codes: seq<Option<Code>>)
    requires d.Valid() && d.host.active.Some? && d.FilesGone(d.host.active.value)
    modifies d.host
    ensures forall i :: 0 <= i < |codes| ==> codes[i].Some?
    ensures d.host.active == old(d.host.active) && d.FilesGone(d.host.active.value)
  {
    codes := [];
    var calls: nat := *;
    while calls > 0
      invariant d.Valid() && d.host.active == old(d.host.active) && d.FilesGone(d.host.active.value)
      invariant forall i :: 0 <= i < |codes| ==> codes[i].Some?
    {
      var found: bool, programs: Programs := *, *;
      var code := AnyCall(d, if found then Some(programs) else None);
      codes := codes + [code];
      calls := calls - 1;
    }
  }

  /** Any one call in such a state. */
  method AnyCall(d: Desktop, found: Option<Programs>) returns (code: Option<Code>)
    requires d.Valid() && d.host.active.Some? && d.FilesGone(d.host.active.value)
    modifies d.host
    ensures code.Some? && d.Valid() && d.host.active == old(d.host.active) && d.FilesGone(d.host.active.value)
  {
    hide Desktop.Trusted, Desktop.FilesTrusted, Desktop.StopsCleanly, Desktop.RunsAsRecorded, Desktop.Applied,
      Host.Consistent;
    d.host.Outside();
    var m := d.host.active.value;
    var which: nat, q: Request, self: string := *, *, *;
    if found.Some? {
      d.GoneUntrusted(m, found.value);
    }
    d.GoneUntrusted(m, Programs(m.xray.executable, self));
    if which == 0 {
      code := d.Down(found);
    } else if which == 1 || (q.mesh.Some? && q.mesh.value.relayEndpoint != "") {
      code := d.Cleanup(Programs("", self));
    } else {
      var ending;
      code, ending := d.Apply(q, found);
    }
  }

  /** Every run: any calls, in any order, with other actors between them, from an empty host. No step
      ever touches what is not ours, and both manifests keep naming existing directories; only clean-ups, which
      may be interrupted, come without the latter. */
  method AnyRun(host: Host, fm: PM.Formats) returns (d: Desktop)
    requires host.Consistent() && host.active.None? && host.lastGood.None?
    modifies host
    ensures d.host == host && d.Valid() && host.HonestLog()
    ensures forall i :: 0 <= i < |host.log| ==>
              match host.log[i]
              case Up(_, taken) => !taken
              case Down(_, ours) => ours
              case Stop(_, ours) => ours
  {
    d := new Desktop(host, fm);
    var calls: nat := *;
    while calls > 0
      invariant d.host == host && d.Valid()
    {
      host.Outside();
      var which: nat, q: Request, xray: string, self: string := *, *, *, *;
      if which == 0 {
        var _ := d.Down(Some(Programs(xray, self)));
      } else if which == 1 && !host.atomic {
        var _ := d.Cleanup(Programs(xray, self));
      } else if q.mesh.None? || q.mesh.value.relayEndpoint == "" {
        var _, _ := d.Apply(q, Some(Programs(xray, self)));
      }
      calls := calls - 1;
    }
  }
}
