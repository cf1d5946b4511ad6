/**
 Everything outside the desktop runtime: processes, WireGuard interfaces and tunnel services,
 revision directories and the two manifest files. Any call may fail.

 The host logs what each command found at the moment it ran; `HonestLog` is the ownership rule over
 the host's whole life.
 */
module RuntimeHost {
  import opened Common
  import PM = PathManager

  /** The part of a WireGuard file that mesh membership decides. */
  datatype WgMesh = WgMesh(listen: string, self: string, peers: seq<PM.Peer>)

  /** A file's bytes. Its SHA-256 is taken to be collision-free, so the content stands for the digest. */
  datatype Content =
    | Unknown(bytes: string)
    | XrayFile(profile: string, relay: Option<string>)
    | WgFile(profile: string, gateway: string, mesh: Option<WgMesh>)
    | MeshFile(config: PM.Config, home: nat)

  datatype Files = Files(xray: Content, wg: Content, mesh: Option<Content>)

  /** A process identity; the pid stands for pid and start token together. Pid 0 is none. */
  datatype Proc = Proc(pid: nat, executable: string, digest: Content, revision: string)

  datatype Manifest = Manifest(
    revision: string, dir: nat, iface: string, wgDigest: Content,
    xray: Proc, pathManager: Option<Proc>, up: bool, index: nat, stopped: bool)

  function Pids(m: Manifest): set<nat>
  {
    {m.xray.pid} + if m.pathManager.Some? then {m.pathManager.value.pid} else {}
  }

  /** What a command found when it ran. */
  datatype Event =
    | Up(iface: string, taken: bool)   // an interface or service of this name existed
    | Down(iface: string, ours: bool)  // the live index came from our own up, or the service is ours
    | Stop(pid: nat, ours: bool)       // the identity came from our own start

  predicate Good(e: Event)
  {
    match e
    case Up(_, taken) => !taken
    case Down(_, ours) => ours
    case Stop(_, ours) => ours
  }

  class Host {
    var live: set<nat>                     // running processes that this runtime started
    var ifaces: map<string, nat>           // live interface indices
    var services: map<string, bool>        // tunnel services: is it ours?
    var dirs: map<nat, Files>              // revision directories
    var active: Option<Manifest>
    var lastGood: Option<Manifest>
    var kernel: Content                    // configuration the WireGuard interface was last given
    var nextPid: nat
    var nextDir: nat
    var clock: int                         // the time a calm host shows
    const reliable: bool                   // stops, downs and inspections never fail, a failed up leaves nothing
    const calm: bool                       // nothing fails, every question is answered yes, programs are installed
    const blind: bool                      // except that "wg show" always fails
    const atomic: bool                     // a failed file replacement leaves the old file
    ghost var started: set<nat>            // identities returned by our starts
    ghost var created: set<(string, nat)>  // interface indices that our ups brought up
    ghost var log: seq<Event>

    constructor (reliable: bool, atomic: bool, calm: bool, blind: bool)
      ensures this.reliable == reliable && this.atomic == atomic && this.calm == calm && this.blind == blind
      ensures Consistent() && log == [] && active.None? && lastGood.None?
      ensures live == {} && ifaces == map[] && services == map[] && dirs == map[] && nextDir == 0
    {
      this.reliable, this.atomic, this.calm, this.blind := reliable, atomic, calm, blind;
      live, ifaces, services, dirs, active, lastGood := {}, map[], map[], map[], None, None;
      kernel, nextPid, nextDir, clock, started, created, log := Unknown(""), 0, 0, 0, {}, {}, [];
    }

    /** "wg-quick up" only ran on free names, "wg-quick down" and Stop only on what is ours. */
    ghost predicate HonestLog()
      reads this`log
    {
      forall i :: 0 <= i < |log| ==> Good(log[i])
    }

    ghost predicate Consistent()
      reads this`live, this`started, this`nextPid, this`dirs, this`nextDir, this`ifaces, this`log
    {
      && live <= started
      && (forall p :: p in started ==> 0 < p < nextPid)
      && (forall d :: d in dirs ==> d < nextDir)
      && (forall k :: k in ifaces ==> ifaces[k] != 0)
      && HonestLog()
    }

    /** An identity that may be acted on: everything it names came from this runtime. */
    ghost predicate Known(m: Manifest)
      reads this`started, this`created
    {
      !m.stopped ==>
        && Pids(m) <= started
        && (m.up && m.index != 0 ==> (m.iface, m.index) in created)
    }

    /** The runtime described by m is up: its processes run and its interface is the live one. */
    ghost predicate Running(m: Manifest)
      reads this`live, this`ifaces
    {
      && !m.stopped && m.up && m.index != 0
      && Pids(m) <= live
      && m.iface in ifaces && ifaces[m.iface] == m.index
    }

    /** Calm in every respect. */
    predicate Smooth()
    {
      calm && !blind
    }

    predicate Steady()
    {
      reliable || calm
    }

    function Index(iface: string): nat
      reads this`ifaces
    {
      if iface in ifaces then ifaces[iface] else 0
    }

    twostate predicate HistoryGrows()
      reads this
    {
      old(started) <= started && old(created) <= created
    }

    method ServiceState(iface: string) returns (ok: bool, present: bool, owned: bool)
      ensures ok ==> (present <==> iface in services) && (owned <==> present && services[iface])
      ensures Steady() ==> ok
    {
      var failed: bool := *;
      ok := Steady() || !failed;
      present := iface in services;
      owned := present && services[iface];
    }

    method InterfaceIndex(iface: string) returns (index: Option<nat>)
      requires Consistent()
      ensures index.Some? ==> index.value == Index(iface) && (index.value == 0 <==> iface !in ifaces)
      ensures Steady() ==> index.Some?
    {
      var failed: bool := *;
      index := if failed && !Steady() then None else Some(Index(iface));
    }

    /** Any other question whose answer only the system knows. */
    method Ask() returns (yes: bool)
      ensures calm ==> yes
    {
      yes := *;
      yes := yes || calm;
    }

    /** "wg show" */
    method Show() returns (ok: bool)
      ensures Smooth() ==> ok
      ensures blind ==> !ok
    {
      ok := *;
      ok := (ok || calm) && !blind;
    }

    method Now() returns (now: int)
      ensures calm ==> now == clock
    {
      now := *;
      now := if calm then clock else now;
    }

    method Start(executable: string, revision: string, digest: Content) returns (p: Option<Proc>)
      requires Consistent()
      modifies this`live, this`started, this`nextPid
      ensures Consistent() && HistoryGrows()
      ensures p.None? ==> live == old(live) && !calm
      ensures p.Some? ==>
                && p.value.executable == executable && p.value.revision == revision && p.value.digest == digest
                && p.value.pid !in old(started) && p.value.pid !in old(live) && p.value.pid in started
                && p.value.pid != 0
                && live == old(live) + {p.value.pid}
    {
      var failed: bool := *;
      if failed && !calm {
        return None;
      }
      p := Some(Proc(nextPid + 1, executable, digest, revision));
      live := live + {nextPid + 1};
      started := started + {nextPid + 1};
      nextPid := nextPid + 2;
    }

    method ProcessAlive(p: Proc) returns (alive: Option<bool>)
      ensures alive.Some? ==> alive.value == (p.pid in live)
      ensures Steady() ==> alive.Some?
    {
      var failed: bool := *;
      alive := if failed && !Steady() then None else Some(p.pid in live);
    }

    method StopProcess(p: Proc) returns (ok: bool)
      requires Consistent()
      modifies this`live, this`log
      ensures log == old(log) + [Stop(p.pid, p.pid in started)]
      ensures p.pid in started ==> Consistent()
      ensures if ok then live == old(live) - {p.pid} else live == old(live) || live == old(live) - {p.pid}
      ensures Steady() ==> ok
    {
      log := log + [Stop(p.pid, p.pid in started)];
      var failed: bool, late: bool := *, *;
      ok := Steady() || !failed;
      if ok || late {
        live := live - {p.pid};
      }
    }

    /** "wg-quick up": may fail after creating the interface, and may succeed without one. */
    method TunnelUp(iface: string) returns (ok: bool)
      requires Consistent()
      modifies this`ifaces, this`services, this`created, this`log, this`kernel
      ensures log == old(log) + [Up(iface, iface in old(ifaces) || iface in old(services))]
      ensures iface !in old(ifaces) && iface !in old(services) ==> Consistent()
      ensures old(created) <= created
      ensures ifaces - {iface} == old(ifaces) - {iface} && services - {iface} == old(services) - {iface}
      ensures iface !in old(ifaces) && iface in ifaces ==> (iface, ifaces[iface]) in created
      ensures iface in services && iface !in old(services) ==> services[iface]
      ensures Steady() && !ok ==> ifaces == old(ifaces) && services == old(services)
      ensures calm && iface !in old(ifaces) ==> ok && iface in ifaces
    {
      log := log + [Up(iface, iface in ifaces || iface in services)];
      var index: nat, serviced: bool, made: bool := *, *, *;
      ok := *;
      kernel := *;
      if calm {
        ok, made := true, true;
        index := if index == 0 then 1 else index;
      }
      if !ok && Steady() {
        return;
      }
      if serviced && iface !in services {
        services := services[iface := true];
      }
      if made && index != 0 && iface !in ifaces {
        assert ifaces[iface := index] - {iface} == ifaces - {iface};
        ifaces := ifaces[iface := index];
        created := created + {(iface, index)};
      }
    }

    method TunnelDown(iface: string) returns (ok: bool)
      requires Consistent()
      modifies this`ifaces, this`services, this`log
      ensures log == old(log) + [Down(iface,
                old((iface in ifaces && (iface, ifaces[iface]) in created) || (iface in services && services[iface])))]
      ensures old(Ours(iface)) ==> Consistent()
      ensures if ok then ifaces == old(ifaces) - {iface} && services == old(services) - {iface}
              else
                && ifaces in {old(ifaces), old(ifaces) - {iface}}
                && services in {old(services), old(services) - {iface}}
      ensures Steady() ==> ok
    {
      var failed: bool, late: bool, half: bool := *, *, *;
      log := log + [Down(iface, Ours(iface))];
      ok := Steady() || !failed;
      if ok || late {
        ifaces := ifaces - {iface};
      }
      if ok || half {
        services := services - {iface};
      }
    }

    ghost predicate Ours(iface: string)
      reads this`ifaces, this`created, this`services
    {
      (iface in ifaces && (iface, ifaces[iface]) in created) || (iface in services && services[iface])
    }

    /** "wg syncconf". */
    method SyncTunnel(wg: Content) returns (ok: bool)
      modifies this`kernel
      ensures kernel == wg || (!ok && kernel == old(kernel))
      ensures calm ==> ok
    {
      var late: bool := *;
      ok := *;
      ok := ok || calm;
      if ok || late {
        kernel := wg;
      }
    }

    method SaveActive(m: Manifest) returns (ok: bool)
      modifies this`active
      ensures active == Some(m) || (!ok && active == old(active))
      ensures calm ==> ok
      ensures atomic && !ok ==> active == old(active)
    {
      var late: bool := *;
      ok := *;
      ok := ok || calm;
      if ok || (late && !atomic) {
        active := Some(m);
      }
    }

    method SaveLastGood(m: Manifest) returns (ok: bool)
      modifies this`lastGood
      ensures lastGood == Some(m) || (!ok && lastGood == old(lastGood))
      ensures calm ==> ok
    {
      var late: bool := *;
      ok := *;
      ok := ok || calm;
      if ok || (late && !atomic) {
        lastGood := Some(m);
      }
    }

    /** A new revision directory, empty of trusted files. */
    method MakeDir() returns (d: Option<nat>)
      requires Consistent()
      modifies this`dirs, this`nextDir
      ensures Consistent()
      ensures d.None? ==> dirs == old(dirs) && nextDir == old(nextDir) && !calm
      ensures d.Some? ==> nextDir > old(nextDir)
      ensures d.Some? ==>
                d.value == old(nextDir) && d.value !in old(dirs) && d.value in dirs
                  && dirs.Keys == old(dirs.Keys) + {d.value}
      ensures forall k :: k in old(dirs) ==> dirs[k] == old(dirs)[k]
    {
      var failed: bool := *;
      if failed && !calm {
        return None;
      }
      d := Some(nextDir);
      dirs := dirs[nextDir := Files(Unknown(""), Unknown(""), None)];
      nextDir := nextDir + 1;
    }

    /** Replaces the files of a directory; on failure any of them may still be the old one. */
    method WriteFiles(d: nat, files: Files) returns (ok: bool)
      requires Consistent()
      modifies this`dirs
      ensures Consistent() && dirs.Keys == old(dirs.Keys)
      ensures forall k :: k in dirs && k != d ==> dirs[k] == old(dirs)[k]
      ensures ok && d in dirs ==> dirs[d] == files
      ensures calm ==> ok
    {
      ok := *;
      ok := ok || calm;
      if d in dirs {
        var partial: Files := *;
        dirs := dirs[d := if ok then files else partial];
      }
    }

    method WriteMesh(d: nat, content: Content) returns (ok: bool)
      requires Consistent() && d in dirs
      modifies this`dirs
      ensures Consistent()
      ensures dirs == old(dirs)[d := old(dirs)[d].(mesh := Some(content))] || (!ok && dirs == old(dirs))
      ensures atomic && !ok ==> dirs == old(dirs)
      ensures calm ==> ok
    {
      var late: bool := *;
      ok := *;
      ok := ok || calm;
      if ok || (late && !atomic) {
        dirs := dirs[d := dirs[d].(mesh := Some(content))];
      }
    }

    method WriteWg(d: nat, content: Content) returns (ok: bool)
      requires Consistent() && d in dirs
      modifies this`dirs
      ensures Consistent()
      ensures dirs == old(dirs)[d := old(dirs)[d].(wg := content)] || (!ok && dirs == old(dirs))
      ensures atomic && !ok ==> dirs == old(dirs)
      ensures calm ==> ok
    {
      var late: bool := *;
      ok := *;
      ok := ok || calm;
      if ok || (late && !atomic) {
        dirs := dirs[d := dirs[d].(wg := content)];
      }
    }

    method RemoveDir(d: nat) returns (ok: bool)
      requires Consistent()
      modifies this`dirs
      ensures Consistent()
      ensures ok ==> dirs == old(dirs) - {d}
      ensures calm ==> ok
      ensures dirs.Keys <= old(dirs.Keys) && old(dirs.Keys) - {d} <= dirs.Keys
      ensures forall k :: k in dirs && k != d ==> dirs[k] == old(dirs)[k]
    {
      var kept: bool, left: Files := *, *;
      ok := *;
      ok := ok || calm;
      if ok || !kept {
        dirs := dirs - {d};
      } else if d in dirs {
        dirs := dirs[d := left];
      }
    }

    /** Removes the Xray and the WireGuard file of a directory; without them it is none of a manifest's. */
    method RemoveFiles(d: nat) returns (ok: bool)
      requires Consistent()
      modifies this`dirs
      ensures Consistent()
      ensures dirs == old(dirs) - {d} || (!ok && dirs == old(dirs))
      ensures calm ==> ok
    {
      var late: bool := *;
      ok := *;
      ok := ok || calm;
      if ok || late {
        dirs := dirs - {d};
      }
    }

    /** Removes the active manifest, then last-known-good. */
    method RemoveManifests() returns (ok: bool)
      modifies this`active, this`lastGood
      ensures active in {None, old(active)} && lastGood in {None, old(lastGood)}
      ensures active.Some? ==> lastGood == old(lastGood)
      ensures ok ==> active.None? && lastGood.None?
      ensures calm ==> ok
    {
      var first: bool, second: bool := *, *;
      ok := *;
      ok := ok || calm;
      if ok || first {
        active := None;
        if ok || second {
          lastGood := None;
        }
      }
    }

    /** Other actors, between two calls of this runtime: processes end, interfaces and services come
        and go, file contents change, time passes. Manifests and the set of revision directories stay. */
    method Outside()
      requires Consistent()
      modifies this`live, this`ifaces, this`services, this`dirs, this`kernel, this`clock
      ensures Consistent() && live <= old(live) && dirs.Keys == old(dirs.Keys)
    {
      var survivors: set<nat>, wild: map<string, nat>, tampered: map<nat, Files> := *, *, *;
      live := live * survivors;
      ifaces := map k | k in wild && wild[k] != 0 :: wild[k];
      services := *;
      kernel := *;
      clock := *;
      dirs := map d | d in dirs :: if d in tampered then tampered[d] else dirs[d];
    }
  }
}
