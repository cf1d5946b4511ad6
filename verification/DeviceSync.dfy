/**
 Synchronising an already joined device. The v1 contract moves the configuration floor before the
 runtime changes; the v2 contract moves it only after the controller accepted the ACK.
 */
module DeviceSync {
  import opened Common
  import opened DeviceWorld
  import CF = ConfigFloor

  class Manager {
    const d: Device
    const v2: bool

    constructor (d: Device, v2: bool)
      ensures this.d == d && this.v2 == v2
    {
      this.d, this.v2 := d, v2;
    }

    /** The stored credential is this device's own and alive, and a stored session is not another's. */
    predicate Bound(k: LastKnown, now: int)
      reads d`credential, d`secret
    {
      && d.credential.Some?
      && var c := d.credential.value;
         && now < c.expires && c.server == k.server && c.device == k.device && c.network == k.network && c.key == k.key
         && (d.secret.Some? ==>
             d.secret.value.server == k.server && d.secret.value.device == k.device && d.secret.value.key == k.key)
    }

    /** loadBoundCredential and loadOrMintSession. */
    method OpenSession(k: LastKnown, now: int) returns (ok: bool)
      modifies d`secret, d`halted
      ensures d.halted ==> !ok
      ensures ok ==> old(Bound(k, now))
      ensures d.calm && !old(d.halted) ==> !d.halted && (old(Bound(k, now)) ==> ok)
      // Whether stored or new, the session is this device's own.
      ensures ok ==>
                && d.secret.Some? && d.secret.value.server == k.server && d.secret.value.device == k.device
                && d.secret.value.key == k.key && d.secret.value.network == k.network
    {
      var readable := d.Ask();
      if !readable || d.credential.None? {
        return false;
      }
      var c := d.credential.value;
      if c.expires <= now || c.server != k.server || c.device != k.device || c.network != k.network || c.key != k.key {
        return false;
      }
      if d.secret.Some? {
        var s := d.secret.value;
        if s.server != c.server || s.device != c.device || s.key != c.key {
          return false;
        }
        if s.session && now < s.expires && s.network == c.network {
          return true;
        }
      }
      var _ := d.ClearSecret();
      var answered := d.Request();
      if !answered {
        return false;
      }
      var expires: int := *;
      ok := d.SaveSecret(Enrollment(c.server, c.device, c.network, c.key, expires, true));
    }

    /** The served configuration is this device's, and the floor allows it. */
    ghost predicate Stageable(k: LastKnown, s: Signed)
      requires d.floor.Valid()
      reads d.floor`bindings
    {
      && s.device == k.device && s.network == k.network
      && CF.Allowed(CF.Floor(d.floor.bindings), d.OfferOf(CF.Key(k.server, k.device, k.network), s))
    }

    /** A verified configuration of this device that the floor would accept. Nothing durable changes. */
    method Stage(k: LastKnown, s: Signed) returns (source: Option<Signed>)
      requires d.Sound()
      modifies d`secret, d`halted
      ensures d.halted ==> source.None?
      ensures source.Some? ==> source.value == s
      ensures source.Some? ==> old(Stageable(k, s))
      ensures old(d.Calm()) ==> !d.halted && (old(Stageable(k, s)) ==> source.Some?)
    {
      hide Device.HonestLog, Device.CheckpointSound, Device.KnownSound, CF.Floor, CF.OfferOk, CF.Replays;
      var answered := d.Request();
      if !answered {
        var expired := d.Ask();
        if expired {
          var _ := d.ClearSecret();
        }
        return None;
      }
      var verified := d.Ask();
      if !verified || s.device != k.device || s.network != k.network {
        return None;
      }
      var o := d.OfferOf(CF.Key(k.server, k.device, k.network), s);
      if CF.OfferOk(o) {
        CF.ValidateIsAccept(d.floor.bindings, o);
      }
      var verdict := d.floor.ValidateSignedConfigFloor(o);
      if verdict != CF.Fine || d.halted {
        return None;
      }
      source := Some(s);
    }

    /** The runtime runs this configuration: either it already did, or an apply was read back. */
    method Settle(c: Config) returns (ok: bool)
      requires d.Sound()
      modifies d`applied, d`confirmed, d`running, d`halted
      ensures d.Sound() && (d.halted ==> !ok)
      ensures ok ==> Revision(c) in d.confirmed
      ensures d.calm && !old(d.halted) ==> ok && !d.halted
    {
      hide Device.HonestLog;
      var running;
      ok, running := d.Status();
      if !ok || running == Some(Revision(c)) {
        return;
      }
      var reported := d.Apply(c);
      if reported != Some(Revision(c)) {
        return false;
      }
      ok, running := d.Status();
      ok := ok && running == Some(Revision(c));
    }

    /** The ACK, checked against its reply. */
    method Acknowledge(s: Signed, device: string) returns (ok: bool)
      requires d.Sound() && s.configId in d.confirmed
      modifies d`secret, d`accepted, d`halted, d`log
      ensures d.Sound() && (d.halted ==> !ok)
      ensures ok ==> (s.generation, s.configId) in d.accepted
      ensures d.calm && !old(d.halted) ==> ok && !d.halted
    {
      hide Device.HonestLog;
      var reply := d.SendSyncAck(s.generation, s.configId, device);
      ok := reply == Some(Ack(true, device, s.configId, s.generation));
      if !ok {
        var expired := d.Ask();
        if expired {
          var _ := d.ClearSecret();
        }
      }
    }

    /** The last-known state after a sync to s. */
    function Synced(k: LastKnown, s: Signed): LastKnown
    {
      k.(config := Compiled(s), contract := SignedContract, configId := s.configId, generation := s.generation)
    }

    /** Last-known state, the verified keys, and the end of the session. */
    method Record(k: LastKnown, s: Signed) returns (ok: bool)
      requires d.Sound() && s.configId in d.confirmed && (s.generation, s.configId) in d.accepted
      requires d.lastKnown == Some(k)
      modifies d`lastKnown, d`secret, d`credential, d`halted, d`log, d`keys
      ensures d.Sound() && (d.lastKnown == Some(k) || d.lastKnown == Some(Synced(k, s)))
      ensures forall server, device :: old(d.OneKey(server, device)) ==> d.OneKey(server, device)
      ensures ok ==> d.lastKnown == Some(Synced(k, s)) && d.secret.None?
      ensures d.calm && !old(d.halted) ==> ok
    {
      ok := d.SaveLastKnown(Synced(k, s));
      if !ok {
        return;
      }
      ok := d.SaveCredential(d.credential);
      if ok {
        ok := d.ClearSecret();
      }
    }

    /** The v2 floor, after the ACK. What validation let through cannot be a replay now. */
    method CommitFloor(key: CF.Key, s: Signed) returns (ok: bool, commit: Option<CF.Verdict>)
      requires d.Sound() && CF.Allowed(CF.Floor(d.floor.bindings), d.OfferOf(key, s))
      modifies d`halted, d.floor`bindings
      ensures d.Sound() && commit != Some(CF.Replay)
      ensures old(d.Calm()) ==> ok && !d.halted
    {
      hide Device.Backed, CF.Unique, CF.Floor, CF.Moved, CF.Allowed, CF.OfferOk;
      var moved := d.AcceptSigned(key, s);
      commit := Some(moved);
      ok := d.Ask();  // and the accepted policy
      ok := ok && moved == CF.Fine;
    }

    /** From a staged configuration to last-known state, with the floor moved at the contract's own time. */
    method Proceed(k: LastKnown, s: Signed) returns (ok: bool, commit: Option<CF.Verdict>)
      requires d.Sound() && d.lastKnown == Some(k)
      requires CF.Allowed(CF.Floor(d.floor.bindings), d.OfferOf(CF.Key(k.server, k.device, k.network), s))
      modifies d`lastKnown, d`secret, d`credential, d`halted, d`applied, d`confirmed, d`running, d`accepted, d`keys
      modifies d`log, d.floor`bindings
      ensures d.Sound()
      ensures forall server, device :: old(d.OneKey(server, device)) ==> d.OneKey(server, device)
      ensures commit != Some(CF.Replay)
      ensures old(d.Calm()) ==> ok
      ensures v2 && CF.Floor(d.floor.bindings) != old(CF.Floor(d.floor.bindings)) ==>
                (s.generation, s.configId) in d.accepted
      ensures !v2 && d.applied != old(d.applied) ==>
                CF.Floor(d.floor.bindings) == CF.Moved(old(CF.Floor(d.floor.bindings)), d.OfferOf(CF.Key(k.server,
                  k.device, k.network), s))
      ensures d.lastKnown in {Some(k), Some(Synced(k, s))}
      ensures ok ==> d.secret.None? && d.lastKnown == Some(Synced(k, s))
    {
      hide Device.Backed, Device.OneKey, CF.Unique, CF.Floor, CF.Moved, CF.Allowed, CF.OfferOk;
      var key := CF.Key(k.server, k.device, k.network);
      commit := None;
      if !v2 {
        var moved := d.AcceptSigned(key, s);
        if moved != CF.Fine {
          return false, None;
        }
      } else {
        var staged := d.Ask();  // the policy artifact was fetched and consumed
        if !staged {
          return false, None;
        }
      }
      ok := Settle(Compiled(s));
      if !ok {
        return;
      }
      ok := Acknowledge(s, k.device);
      if !ok {
        return;
      }
      if v2 {
        ok, commit := CommitFloor(key, s);
        if !ok {
          return;
        }
      }
      ok := Record(k, s);
    }

    /** Sync to the configuration the controller serves. `commit` is the verdict on the v2 floor after the
        ACK. A calm sync succeeds exactly when credential, session, configuration and floor agree. */
    method Sync(served: Signed, now: int) returns (ok: bool, commit: Option<CF.Verdict>, source: Option<Signed>)
      requires d.Sound()
      modifies d`lastKnown, d`secret, d`credential, d`halted, d`applied, d`confirmed, d`running, d`accepted, d`keys
      modifies d`log, d.floor`bindings
      ensures source.Some? ==>
                old(d.lastKnown).Some? && old(Bound(d.lastKnown.value, now))
                  && old(Stageable(d.lastKnown.value, served))
      ensures old(d.Calm()) && old(d.lastKnown).Some? && old(Bound(d.lastKnown.value, now))
              && old(Stageable(d.lastKnown.value, served)) ==>
                ok
      ensures source.Some? ==> source.value == served
      ensures d.Sound() && d.checkpoint == old(d.checkpoint)
      ensures forall server, device :: old(d.OneKey(server, device)) ==> d.OneKey(server, device)
      ensures commit != Some(CF.Replay)
      ensures v2 && CF.Floor(d.floor.bindings) != old(CF.Floor(d.floor.bindings)) ==>
                source.Some? && (source.value.generation, source.value.configId) in d.accepted
      ensures !v2 && d.applied != old(d.applied) ==>
                && source.Some? && old(d.lastKnown).Some?
                && var k := old(d.lastKnown).value;
                   CF.Floor(d.floor.bindings)
                   == CF.Moved(old(CF.Floor(d.floor.bindings)), d.OfferOf(CF.Key(k.server, k.device, k.network),
                     source.value))
      ensures || d.lastKnown == old(d.lastKnown)
              || (&& old(d.lastKnown).Some? && source.Some?
                  && d.lastKnown == Some(Synced(old(d.lastKnown).value, source.value)))
      ensures ok ==>
                old(d.lastKnown).Some? && source.Some? && d.secret.None?
                  && d.lastKnown == Some(Synced(old(d.lastKnown).value, source.value))
      // What a success leaves, field by field; the floor is then at the same configuration.
      ensures ok ==>
                && old(d.lastKnown).Some? && d.lastKnown.Some?
                && var k, before := d.lastKnown.value, old(d.lastKnown).value;
                   && k.config == Compiled(served) && k.configId == served.configId && k.generation == served.generation
                   && k.contract == SignedContract
                   && k.server == before.server && k.device == before.device && k.key == before.key
                   && k.network == before.network && k.node == before.node && k.acknowledged == before.acknowledged
    {
      hide Device.Backed, Device.OneKey, CF.Unique, CF.Floor, CF.Moved, CF.Allowed, CF.OfferOk;
      ok, commit, source := false, None, None;
      var readable := d.Ask();
      if !readable || d.lastKnown.None? {
        return;
      }
      var k := d.lastKnown.value;
      ok := OpenSession(k, now);
      if !ok {
        return;
      }
      source := Stage(k, served);
      if source.None? {
        return false, None, None;
      }
      ok, commit := Proceed(k, served);
    }
  }
}
