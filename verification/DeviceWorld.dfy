/**
 The durable state of one device, its runtime and its controller, seen through effects that may fail,
 lose their reply, or crash the process.

 A crash sets `halted`; every effect after that does nothing and fails, so the rest of a use case has
 no influence on the world until `Restart`. The ghost log records, for every effect that matters,
 whether it was right at the moment it happened; `HonestLog` says all were.
 */
module DeviceWorld {
  import opened Common
  import CF = ConfigFloor

  /** A verified signed configuration. */
  datatype Signed = Signed(configId: string, generation: uint64, device: string, network: string, payload: string)

  /** A runtime configuration: compiled from a signed one (injectively), or a legacy one. */
  datatype Config = Compiled(source: Signed) | Legacy(revision: string, device: string, network: string, body: string)

  /** Compile puts the configuration id into the revision. */
  function Revision(c: Config): string
  {
    if c.Compiled? then c.source.configId else c.revision
  }

  function OwnedBy(c: Config): (string, string)
  {
    if c.Compiled? then (c.source.device, c.source.network) else (c.device, c.network)
  }

  datatype Phase = Started | Registered | Fetched | Applied | Acknowledged

  function Rank(p: Phase): nat
  {
    match p
    case Started => 1
    case Registered => 2
    case Fetched => 3
    case Applied => 4
    case Acknowledged => 5
  }

  datatype Contract = Unset | SignedContract | LegacyContract

  datatype Checkpoint = Checkpoint(
    server: string, device: string, network: string, node: string, invite: bool, key: string,
    phase: Phase, contract: Contract, configId: string, generation: uint64, config: Option<Config>)

  datatype LastKnown = LastKnown(
    server: string, device: string, network: string, node: string, key: string,
    acknowledged: bool, config: Config, contract: Contract, configId: string, generation: uint64)

  /** The short-lived enrollment bearer, and the long-lived device credential, by their bindings. */
  /** `session`: its scope is exactly that of a device session. */
  datatype Enrollment = Enrollment(server: string, device: string, network: string, key: string, expires: int,
    session: bool)
  datatype Credential = Credential(server: string, device: string, network: string, key: string, expires: int)

  datatype Ack = Ack(acked: bool, device: string, configId: string, generation: uint64)

  /** Replacing a checkpoint never loses its key and never moves its phase back. */
  predicate Forward(before: Option<Checkpoint>, c: Checkpoint)
  {
    before.Some? ==>
      && c.server == before.value.server && c.device == before.value.device
      && c.key == before.value.key && c.invite == before.value.invite
      && Rank(before.value.phase) <= Rank(c.phase)
  }

  datatype Event =
    | CheckpointSaved(forward: bool)   // no old checkpoint, or same key and no phase back
    | LastKnownSaved(earned: bool)     // signed, acknowledged by the controller, confirmed by the runtime
    | CheckpointCleared(kept: bool)    // the last-known state holds its key and configuration
    | KeyMade(needed: bool)            // neither a checkpoint nor a matching last-known state existed
    | KeySent(durable: bool)           // the key that left the device is the durable checkpoint's
    | AckSent(truthful: bool)          // exactly that configuration was applied before
    | SyncAckSent(truthful: bool)      // the runtime had confirmed that revision before

  predicate Good(e: Event)
  {
    match e
    case CheckpointSaved(b) => b
    case LastKnownSaved(b) => b
    case CheckpointCleared(b) => b
    case KeyMade(b) => b
    case KeySent(b) => b
    case AckSent(b) => b
    case SyncAckSent(b) => b
  }

  class Device {
    var checkpoint: Option<Checkpoint>
    var lastKnown: Option<LastKnown>
    var secret: Option<Enrollment>
    var credential: Option<Credential>
    const floor: CF.Store
    const digest: Signed -> string
    var running: Option<string>  // revision the runtime was last told to run
    var halted: bool
    var calm: bool               // nothing fails or crashes, and the outside answers as asked
    var clock: int               // the time, in a calm world
    ghost var applied: set<Config>              // the runtime reported success for exactly these
    ghost var confirmed: set<string>            // revisions the runtime reported as running
    ghost var accepted: set<(uint64, string)>   // generation and id of matching accepted ACKs
    ghost var keys: set<string>                 // keys that ever became durable
    ghost var log: seq<Event>

    ghost predicate HonestLog()
      reads this`log
    {
      forall i :: 0 <= i < |log| ==> Good(log[i])
    }

    /** What a durable checkpoint vouches for, phase by phase. */
    ghost predicate CheckpointSound(c: Checkpoint)
      reads this`applied, this`accepted
    {
      && (Rank(c.phase) >= 3 ==>
            && c.config.Some?
            && (c.invite ==> c.contract == SignedContract)
            && (c.contract == SignedContract ==>
                  c.config.value.Compiled? && c.config.value.source.configId == c.configId
                    && c.config.value.source.generation == c.generation))
      && (Rank(c.phase) >= 4 ==> c.config.value in applied)
      && (Rank(c.phase) >= 5 ==> c.contract == SignedContract && (c.generation, c.configId) in accepted)
    }

    /** What a signed last-known state vouches for. */
    ghost predicate KnownSound(k: LastKnown)
      reads this`confirmed, this`accepted
    {
      k.contract == SignedContract ==>
        && k.config.Compiled?
        && k.config.source.configId == k.configId && k.config.source.generation == k.generation
        && k.configId in confirmed && (k.generation, k.configId) in accepted
    }

    /** Every durable claim is backed by what runtime and controller said. */
    ghost predicate Backed()
      reads this`checkpoint, this`lastKnown, this`log, this`applied, this`confirmed, this`accepted
    {
      && HonestLog()
      && (checkpoint.Some? ==> CheckpointSound(checkpoint.value))
      && (lastKnown.Some? ==> KnownSound(lastKnown.value))
      && (forall c :: c in applied ==> Revision(c) in confirmed)
    }

    ghost predicate Sound()
      reads this`checkpoint, this`lastKnown, this`log, this`applied, this`confirmed, this`accepted, floor`bindings
    {
      floor.Valid() && Backed()
    }

    /** Nothing stands in the way of this run. */
    predicate Calm()
      reads this`calm, this`halted, floor`readable, floor`writable
    {
      calm && !halted && floor.readable && floor.writable
    }

    predicate Remembers(server: string, device: string)
      reads this`lastKnown
    {
      lastKnown.Some? && lastKnown.value.server == server && lastKnown.value.device == device
        && lastKnown.value.acknowledged
    }

    /** All durable state belongs to one identity and carries the only key that ever became durable. */
    ghost predicate OneKey(server: string, device: string)
      reads this`checkpoint, this`lastKnown, this`keys
    {
      && (checkpoint.Some? ==>
          checkpoint.value.server == server && checkpoint.value.device == device && keys == {checkpoint.value.key})
      && (lastKnown.Some? ==> Remembers(server, device) && keys == {lastKnown.value.key})
      && (checkpoint.None? && lastKnown.None? ==> keys == {})
    }

    ghost predicate Truthful(generation: uint64, configId: string)
      reads this`applied
    {
      exists c :: c in applied && c.Compiled? && c.source.generation == generation && c.source.configId == configId
    }

    constructor (digest: Signed -> string)
      ensures Sound() && !halted && !calm && fresh(floor)
      ensures checkpoint.None? && lastKnown.None? && secret.None? && credential.None? && keys == {}
    {
      this.digest := digest;
      floor := new CF.Store();
      checkpoint, lastKnown, secret, credential, running, halted, calm, clock := None, None, None, None, None, false,
        false, 0;
      applied, confirmed, accepted, keys, log := {}, {}, {}, {}, [];
    }

    /** The process is started again; only durable state and the outside world survived. */
    method Restart()
      modifies this`halted
      ensures !halted
    {
      halted := false;
    }

    // ---------- answers of the outside ----------

    method Ask() returns (yes: bool)
      ensures halted ==> !yes
      ensures calm && !halted ==> yes
    {
      yes := *;
      yes := (yes || calm) && !halted;
    }

    method Now() returns (now: int)
      ensures calm ==> now == clock
    {
      now := *;
      now := if calm then clock else now;
    }

    /** The process may die here. */
    method MayCrash()
      modifies this`halted
      ensures old(halted) ==> halted
      ensures calm && !old(halted) ==> !halted
    {
      var crash: bool := *;
      halted := halted || (crash && !calm);
    }

    // ---------- durable writes ----------

    method SaveCheckpoint(c: Checkpoint) returns (ok: bool)
      modifies this`checkpoint, this`halted, this`log, this`keys
      ensures (!ok && checkpoint == old(checkpoint) && keys == old(keys))
              || (checkpoint == Some(c) && keys == old(keys) + {c.key})
      ensures halted ==> !ok
      ensures calm && !old(halted) ==> ok
      ensures old(halted) ==> halted && checkpoint == old(checkpoint)
      ensures old(HonestLog()) && Forward(old(checkpoint), c) ==> HonestLog()
    {
      ok := false;
      if halted {
        return;
      }
      var late: bool := *;
      ok := *;
      ok := ok || calm;
      if ok || late {
        log := log + [CheckpointSaved(Forward(checkpoint, c))];
        checkpoint := Some(c);
        keys := keys + {c.key};
      }
      MayCrash();
      ok := ok && !halted;
    }

    method SaveLastKnown(k: LastKnown) returns (ok: bool)
      modifies this`lastKnown, this`halted, this`log, this`keys
      ensures (!ok && lastKnown == old(lastKnown) && keys == old(keys))
              || (lastKnown == Some(k) && keys == old(keys) + {k.key})
      ensures halted ==> !ok
      ensures calm && !old(halted) ==> ok
      ensures old(halted) ==> halted && lastKnown == old(lastKnown)
      ensures old(HonestLog()) && k.contract == SignedContract && KnownSound(k) ==> HonestLog()
    {
      ok := false;
      if halted {
        return;
      }
      var late: bool := *;
      ok := *;
      ok := ok || calm;
      if ok || late {
        log := log + [LastKnownSaved(k.contract == SignedContract && KnownSound(k))];
        lastKnown := Some(k);
        keys := keys + {k.key};
      }
      MayCrash();
      ok := ok && !halted;
    }

    method ClearCheckpoint() returns (ok: bool)
      modifies this`checkpoint, this`halted, this`log
      ensures checkpoint == None || (!ok && checkpoint == old(checkpoint))
      ensures halted ==> !ok
      ensures calm && !old(halted) ==> ok
      ensures old(halted) ==> halted && checkpoint == old(checkpoint)
      ensures old(HonestLog()) && old(Covered()) ==> HonestLog()
    {
      ok := false;
      if halted {
        return;
      }
      var late: bool := *;
      ok := *;
      ok := ok || calm;
      if ok || late {
        log := log + [CheckpointCleared(Covered())];
        checkpoint := None;
      }
      MayCrash();
      ok := ok && !halted;
    }

    /** The checkpoint, if any, has nothing that the last-known state lacks. */
    ghost predicate Covered()
      reads this`checkpoint, this`lastKnown
    {
      checkpoint.Some? ==>
        && lastKnown.Some? && lastKnown.value.key == checkpoint.value.key
        && Some(lastKnown.value.config) == checkpoint.value.config
        && lastKnown.value.server == checkpoint.value.server && lastKnown.value.device == checkpoint.value.device
    }

    method SaveSecret(e: Enrollment) returns (ok: bool)
      modifies this`secret, this`halted
      ensures secret == Some(e) || (!ok && secret == old(secret))
      ensures halted ==> !ok
      ensures calm && !old(halted) ==> ok
      ensures old(halted) ==> halted && secret == old(secret)
    {
      ok := false;
      if halted {
        return;
      }
      var late: bool := *;
      ok := *;
      ok := ok || calm;
      if ok || late {
        secret := Some(e);
      }
      MayCrash();
      ok := ok && !halted;
    }

    method ClearSecret() returns (ok: bool)
      modifies this`secret, this`halted
      ensures secret == None || (!ok && secret == old(secret))
      ensures halted ==> !ok
      ensures calm && !old(halted) ==> ok
      ensures old(halted) ==> halted && secret == old(secret)
    {
      ok := false;
      if halted {
        return;
      }
      var late: bool := *;
      ok := *;
      ok := ok || calm;
      if ok || late {
        secret := None;
      }
      MayCrash();
      ok := ok && !halted;
    }

    method SaveCredential(c: Option<Credential>) returns (ok: bool)
      modifies this`credential, this`halted
      ensures credential == c || (!ok && credential == old(credential))
      ensures halted ==> !ok
      ensures calm && !old(halted) ==> ok
      ensures old(halted) ==> halted && credential == old(credential)
    {
      ok := false;
      if halted {
        return;
      }
      var late: bool := *;
      ok := *;
      ok := ok || calm;
      if ok || late {
        credential := c;
      }
      MayCrash();
      ok := ok && !halted;
    }

    function OfferOf(key: CF.Key, source: Signed): CF.Offer
    {
      CF.Offer(key, source.configId, digest(source), source.generation)
    }

    /** AcceptSignedConfig on the contract file. */
    method AcceptSigned(key: CF.Key, source: Signed) returns (v: CF.Verdict)
      requires floor.Valid()
      modifies floor`bindings, this`halted
      ensures floor.Valid()
      ensures halted ==> v == CF.Failed
      ensures old(halted) ==> halted && floor.bindings == old(floor.bindings)
      ensures v == CF.Fine ==> CF.Allowed(old(CF.Floor(floor.bindings)), OfferOf(key, source))
      ensures v == CF.Fine ==> CF.Floor(floor.bindings) == CF.Moved(old(CF.Floor(floor.bindings)), OfferOf(key, source))
      // The floor is then this configuration's, and allows it again.
      ensures v == CF.Fine ==>
                && key.network != "" && key in CF.Floor(floor.bindings)
                && CF.Floor(floor.bindings)[key].generation == source.generation
                && CF.Floor(floor.bindings)[key].configId == source.configId
                && CF.Allowed(CF.Floor(floor.bindings), OfferOf(key, source))
      ensures CF.Floor(floor.bindings) == old(CF.Floor(floor.bindings))
              || (CF.Allowed(old(CF.Floor(floor.bindings)), OfferOf(key, source))
                  && CF.Floor(floor.bindings) == CF.Moved(old(CF.Floor(floor.bindings)), OfferOf(key, source)))
      ensures old(Calm()) ==>
                !halted && (v == CF.Fine <==> CF.Allowed(old(CF.Floor(floor.bindings)), OfferOf(key, source)))
      ensures v == CF.Replay ==>
                CF.OfferOk(OfferOf(key, source)) && !CF.Allowed(old(CF.Floor(floor.bindings)), OfferOf(key, source))
    {
      hide CF.Floor, CF.Unique, CF.OfferOk, CF.Replays;
      v := CF.Failed;
      if halted {
        return;
      }
      ghost var before := CF.Floor(floor.bindings);
      v := floor.AcceptSignedConfig(OfferOf(key, source));
      if v == CF.Fine {
        CF.NamesNetwork(OfferOf(key, source));
        CF.AcceptedAgain(before, OfferOf(key, source), digest(source));
      }
      MayCrash();
      if halted {
        v := CF.Failed;
      }
    }

    // ---------- runtime, controller and key source ----------

    /** runtime.Apply: the revision it reports, when it reports success. */
    method Apply(c: Config) returns (reported: Option<string>)
      modifies this`applied, this`confirmed, this`running, this`halted
      ensures old(applied) <= applied && old(confirmed) <= confirmed
      ensures reported == Some(Revision(c)) ==> c in applied
      ensures (forall x :: x in old(applied) ==> Revision(x) in old(confirmed)) ==>
                (forall x :: x in applied ==> Revision(x) in confirmed)
      ensures halted ==> reported.None?
      ensures calm && !old(halted) ==> !halted && reported == Some(Revision(c)) && running == reported
      ensures old(halted) ==> halted && applied == old(applied)
    {
      reported := None;
      if halted {
        return;
      }
      var ok: bool, revision: string := *, *;
      if calm {
        ok, revision := true, Revision(c);
      }
      if ok {
        if revision == Revision(c) {
          applied := applied + {c};
        }
        confirmed := confirmed + {revision};
        reported, running := Some(revision), Some(revision);
      }
      MayCrash();
      if halted {
        reported := None;
      }
    }

    /** runtime.Status: the running revision, when the runtime says it is applied. */
    method Status() returns (ok: bool, seen: Option<string>)
      modifies this`confirmed
      ensures old(confirmed) <= confirmed
      ensures seen.Some? ==> seen.value in confirmed
      ensures halted ==> !ok && seen.None?
      ensures calm && !halted ==> ok && seen == running
    {
      ok := *;
      var up: bool, revision: string := *, *;
      if halted || (!ok && !calm) {
        return false, None;
      }
      ok, seen := true, if calm then running else if up then Some(revision) else None;
      if seen.Some? {
        confirmed := confirmed + {seen.value};
      }
    }

    method GenerateKey(server: string, device: string) returns (key: Option<string>)
      modifies this`log
      ensures old(HonestLog()) && checkpoint.None? && !Remembers(server, device) ==> HonestLog()
      ensures halted ==> key.None?
      ensures calm && !halted ==> key.Some?
    {
      var drawn: bool, k: string := *, *;
      if halted || (!drawn && !calm) {
        return None;
      }
      key := Some(k);
      log := log + [KeyMade(checkpoint.None? && !Remembers(server, device))];
    }

    /** A request that carries the public key: registration or invite exchange. */
    method SendKey(key: string) returns (answered: bool)
      modifies this`log, this`halted
      ensures old(HonestLog()) && checkpoint.Some? && checkpoint.value.key == key ==> HonestLog()
      ensures halted ==> !answered
      ensures calm && !old(halted) ==> answered
      ensures old(halted) ==> halted
    {
      answered := false;
      if halted {
        return;
      }
      log := log + [KeySent(checkpoint.Some? && checkpoint.value.key == key)];
      answered := *;
      answered := answered || calm;
      MayCrash();
      answered := answered && !halted;
    }

    /** Any other request; its reply may be lost and the process may die. */
    method Request() returns (answered: bool)
      modifies this`halted
      ensures halted ==> !answered
      ensures calm && !old(halted) ==> answered
      ensures old(halted) ==> halted
    {
      answered := false;
      if halted {
        return;
      }
      answered := *;
      answered := answered || calm;
      MayCrash();
      answered := answered && !halted;
    }

    /** An ACK sent by Join. */
    method SendAck(generation: uint64, configId: string, device: string) returns (reply: Option<Ack>)
      modifies this`log, this`halted, this`accepted
      ensures old(HonestLog()) && Truthful(generation, configId) ==> HonestLog()
      ensures old(accepted) <= accepted
      ensures reply == Some(Ack(true, device, configId, generation)) ==> (generation, configId) in accepted
      ensures halted ==> reply.None?
      ensures calm && !old(halted) ==> !halted && reply == Some(Ack(true, device, configId, generation))
      ensures old(halted) ==> halted
    {
      reply := None;
      if halted {
        return;
      }
      log := log + [AckSent(Truthful(generation, configId))];
      reply := Reply(generation, configId, device);
    }

    /** An ACK sent by Sync, which may rest on what the runtime reads back. */
    method SendSyncAck(generation: uint64, configId: string, device: string) returns (reply: Option<Ack>)
      modifies this`log, this`halted, this`accepted
      ensures old(HonestLog()) && configId in confirmed ==> HonestLog()
      ensures old(accepted) <= accepted
      ensures reply == Some(Ack(true, device, configId, generation)) ==> (generation, configId) in accepted
      ensures halted ==> reply.None?
      ensures calm && !old(halted) ==> !halted && reply == Some(Ack(true, device, configId, generation))
      ensures old(halted) ==> halted
    {
      reply := None;
      if halted {
        return;
      }
      log := log + [SyncAckSent(configId in confirmed)];
      reply := Reply(generation, configId, device);
    }

    method Reply(generation: uint64, configId: string, device: string) returns (reply: Option<Ack>)
      modifies this`halted, this`accepted
      ensures old(accepted) <= accepted
      ensures reply == Some(Ack(true, device, configId, generation)) ==> (generation, configId) in accepted
      ensures halted ==> reply.None?
      ensures calm && !old(halted) ==> !halted && reply == Some(Ack(true, device, configId, generation))
      ensures old(halted) ==> halted
    {
      reply := *;
      if calm {
        reply := Some(Ack(true, device, configId, generation));
      }
      if reply == Some(Ack(true, device, configId, generation)) {
        accepted := accepted + {(generation, configId)};
      }
      MayCrash();
      if halted {
        reply := None;
      }
    }
  }
}
