/**
 The crash-safe join: a checkpointed sequence of registration, configuration, runtime, ACK and
 last-known state, where every step may fail or be the last one before a crash.
 */
module Join {
  import opened Common
  import opened DeviceWorld
  import CF = ConfigFloor

  datatype Mode = Auto | SignedOnly | LegacyOnly

  /** What the controller answers in one run: the device and network it registers or enrolls, the
      configuration it serves, and, in a calm world, the expiry of the enrollments it grants. */
  datatype Answers = Answers(device: string, network: string, source: Signed, expires: int)

  datatype Request = Request(server: string, device: string, network: string, node: string, token: string)

  datatype Fetch = Fetch(config: Config, contract: Contract, configId: string, generation: uint64)

  /** The result of a fetch carries the source's own identity. */
  predicate FetchSound(f: Fetch)
  {
    && f.contract != Unset
    && (f.contract == SignedContract ==>
          f.config.Compiled? && f.config.source.configId == f.configId && f.config.source.generation == f.generation)
  }

  /** The checkpoint of the same join, later. */
  predicate Later(cp: Checkpoint, next: Checkpoint)
  {
    Forward(Some(cp), next)
  }

  class Joiner {
    const d: Device
    const mode: Mode
    const hasCredentials: bool
    const answers: Answers

    constructor (d: Device, mode: Mode, hasCredentials: bool, answers: Answers)
      ensures this.d == d && this.mode == mode && this.answers == answers
    {
      this.d, this.mode, this.hasCredentials, this.answers := d, mode, hasCredentials, answers;
    }

    /** Nothing but the enrollment, the credential and the checkpoint's enrollment fields changed. */
    twostate predicate Untouched()
      reads d
    {
      d.lastKnown == old(d.lastKnown) && d.applied == old(d.applied) && d.confirmed == old(d.confirmed)
        && d.accepted == old(d.accepted)
    }

    /** Every step of a join: soundness and the single key survive, the checkpoint never goes back. */
    twostate predicate Safe(cp: Checkpoint)
      reads d, d.floor
    {
      && d.Sound()
      && d.checkpoint.Some? && Later(cp, d.checkpoint.value)
      && (old(d.OneKey(cp.server, cp.device)) ==> d.OneKey(cp.server, cp.device))
    }

    /** One durable step forward. */
    method SavePhase(cp: Checkpoint, next: Checkpoint) returns (ok: bool)
      requires d.Sound() && d.checkpoint == Some(cp) && Later(cp, next) && d.CheckpointSound(next)
      modifies d`checkpoint, d`halted, d`log, d`keys
      ensures Safe(cp) && Untouched() && (d.halted ==> !ok)
      ensures d.checkpoint in {Some(cp), Some(next)} && (ok ==> d.checkpoint == Some(next))
      ensures d.calm && !old(d.halted) ==> ok && !d.halted
    {
      ok := d.SaveCheckpoint(next);
    }

    // ---------- enrollment ----------

    predicate OwnEnrollment(cp: Checkpoint, e: Enrollment)
    {
      e.server == cp.server && e.device == cp.device && e.key == cp.key
    }

    /** The stored bearer serves this checkpoint. */
    predicate Reusable(cp: Checkpoint)
      reads d`secret, d`clock
    {
      && d.secret.Some? && OwnEnrollment(cp, d.secret.value)
      && d.clock < d.secret.value.expires && (cp.network == "" || d.secret.value.network == cp.network)
    }

    predicate Mintable(cp: Checkpoint, c: Credential)
    {
      c.server == cp.server && c.device == cp.device && c.key == cp.key && (cp.network == "" || c.network == cp.network)
    }

    predicate HasLiveCredential()
      reads d`credential, d`clock
    {
      hasCredentials && d.credential.Some? && d.clock < d.credential.value.expires
    }

    /** A new bearer can be had: from a live credential of this device, or else from an invite. */
    predicate Renewable(cp: Checkpoint, token: string)
      reads d`credential, d`clock
    {
      if HasLiveCredential() then Mintable(cp, d.credential.value)
      else token != "" && (cp.network == "" || answers.network == cp.network)
    }

    /** What an enrollment needs in a calm world, and the network it is for. */
    predicate Enrollable(cp: Checkpoint, token: string)
      reads d`secret, d`credential, d`clock
    {
      && (d.secret.Some? ==> OwnEnrollment(cp, d.secret.value))
      && (Reusable(cp) || Renewable(cp, token))
    }

    /** A bearer with the scope of a session is of no use without the credential record it was minted from. */
    predicate Backed()
      reads d`secret, d`credential
    {
      hasCredentials && d.secret.Some? && d.secret.value.session ==> d.credential.Some?
    }

    /** What fetching and acknowledging with an enrollment need in a calm world. */
    predicate Ready(cp: Checkpoint, token: string)
      reads d`secret, d`credential, d`clock
    {
      Enrollable(cp, token) && (Reusable(cp) ==> Backed())
    }

    function EnrolledNetwork(cp: Checkpoint): string
      reads d`secret, d`credential, d`clock
    {
      if Reusable(cp) then d.secret.value.network
      else if HasLiveCredential() then d.credential.value.network else answers.network
    }

    /** The expiry of a granted enrollment. */
    method GrantedUntil() returns (expires: int)
      ensures d.calm ==> expires == answers.expires
    {
      expires := *;
      expires := if d.calm then answers.expires else expires;
    }

    method Exchange(cp: Checkpoint, token: string) returns (e: Option<Enrollment>)
      requires d.Sound() && d.checkpoint == Some(cp)
      modifies d`secret, d`credential, d`halted, d`log
      ensures d.Sound() && (d.halted ==> e.None?)
      ensures e.Some? ==> token != "" && OwnEnrollment(cp, e.value) && d.secret == e && d.credential.Some?
      ensures d.calm && !old(d.halted) ==>
                !d.halted && (e.Some? <==> token != "")
                  && (e.Some? ==> e.value.network == answers.network && e.value.expires == answers.expires)
      ensures e.Some? ==>
                && d.credential.value.server == cp.server && d.credential.value.device == cp.device
                && d.credential.value.key == cp.key && d.credential.value.network == e.value.network
    {
      hide Device.Backed;
      var capable := d.Ask();
      if token == "" || !capable {
        return None;
      }
      var answered := KeyOut(cp);
      if !answered {
        return None;
      }
      var until: int, network: string := *, *;
      if d.calm {
        network := answers.network;
      }
      var saved := d.SaveCredential(Some(Credential(cp.server, cp.device, network, cp.key, until)));
      if !saved {
        return None;
      }
      var expires := GrantedUntil();
      var session: bool := *;
      e := Some(Enrollment(cp.server, cp.device, network, cp.key, expires, session));
      saved := d.SaveSecret(e.value);
      if !saved {
        e := None;
      }
    }

    /** The checkpoint's own key leaves the device. */
    method KeyOut(cp: Checkpoint) returns (answered: bool)
      requires d.Sound() && d.checkpoint == Some(cp)
      modifies d`log, d`halted
      ensures d.Sound() && (d.halted ==> !answered)
      ensures d.calm && !old(d.halted) ==> answered && !d.halted
    {
      answered := d.SendKey(cp.key);
    }

    method Mint(cp: Checkpoint, c: Credential) returns (e: Option<Enrollment>)
      modifies d`secret, d`halted
      ensures d.halted ==> e.None?
      ensures e.Some? ==> Mintable(cp, c) && OwnEnrollment(cp, e.value) && e.value.network == c.network && d.secret == e
      ensures d.calm && !old(d.halted) ==>
                !d.halted && (e.Some? <==> Mintable(cp, c)) && (e.Some? ==> e.value.expires == answers.expires)
    {
      if c.server != cp.server || c.device != cp.device || c.key != cp.key
        || (cp.network != "" && c.network != cp.network) {
        return None;
      }
      var answered := d.Request();
      if !answered {
        return None;
      }
      var expires := GrantedUntil();
      e := Some(Enrollment(cp.server, cp.device, c.network, cp.key, expires, true));
      var saved := d.SaveSecret(e.value);
      if !saved {
        e := None;
      }
    }

    /** Records a new enrollment in the checkpoint. */
    method Enrolled(cp: Checkpoint, e: Enrollment) returns (ok: bool, next: Checkpoint)
      requires d.Sound() && d.checkpoint == Some(cp) && cp.invite
      modifies d`checkpoint, d`halted, d`log, d`keys
      ensures Safe(cp) && Untouched() && (d.halted ==> !ok)
      ensures next == cp.(network := e.network, contract := SignedContract)
      ensures ok ==> d.checkpoint == Some(next)
      ensures d.calm && !old(d.halted) ==> ok && !d.halted
    {
      next := cp.(network := e.network, contract := SignedContract);
      ok := SavePhase(cp, next);
    }

    /** The device credential, while it is there and not expired, mints a new enrollment. */
    method Renew(cp: Checkpoint, token: string) returns (e: Option<Enrollment>)
      requires d.Sound() && d.checkpoint == Some(cp)
      modifies d`secret, d`credential, d`halted, d`log
      ensures d.Sound() && (d.halted ==> e.None?)
      ensures e.Some? ==>
                OwnEnrollment(cp, e.value) && d.secret == e && (cp.network == "" || e.value.network == cp.network)
                  && d.credential.Some?
      ensures d.calm && !old(d.halted) ==>
                && !d.halted && (e.Some? <==> old(Renewable(cp, token)))
                && (e.Some? ==> e.value.expires == answers.expires
                                && e.value.network == if old(HasLiveCredential()) then old(d.credential).value.network
                                                      else answers.network)
    {
      hide Device.Sound;
      if hasCredentials {
        var readable := d.Ask();
        if !readable {
          return None;
        }
        if d.credential.Some? {
          var now := d.Now();
          if now < d.credential.value.expires {
            e := Mint(cp, d.credential.value);
            return;
          }
          var _ := d.SaveCredential(None);
        }
      }
      if token == "" {
        return None;
      }
      e := Exchange(cp, token);
      if e.Some? && cp.network != "" && e.value.network != cp.network {
        var _ := d.ClearSecret();
        e := None;
      }
    }

    /** A new bearer, recorded in the checkpoint. */
    method RenewInto(cp: Checkpoint, token: string) returns (e: Option<Enrollment>, next: Checkpoint)
      requires d.Sound() && d.checkpoint == Some(cp) && cp.invite
      modifies d`secret, d`credential, d`checkpoint, d`halted, d`log, d`keys
      ensures Safe(cp) && Untouched() && (d.halted ==> e.None?)
      ensures next == cp || next == cp.(network := next.network, contract := SignedContract)
      ensures e.Some? ==>
                d.checkpoint == Some(next) && d.secret == e && OwnEnrollment(cp, e.value)
                  && next.network == e.value.network
      ensures e.Some? ==> Backed() && (cp.network == "" || e.value.network == cp.network)
      ensures d.calm && !old(d.halted) ==>
                && (e.Some? <==> old(Renewable(cp, token)))
                && (e.Some? ==> !d.halted && e.value.expires == answers.expires
                                && e.value.network == if old(HasLiveCredential()) then old(d.credential).value.network
                                                      else answers.network)
    {
      hide Device.Sound, Device.OneKey;
      next := cp;
      e := Renew(cp, token);
      if e.None? {
        return None, cp;
      }
      var ok;
      ok, next := Enrolled(cp, e.value);
      e := if ok then e else None;
    }

    /** loadOrRenewEnrollment: the stored bearer, or a new one minted from the credential, or an exchange.
        A bearer is always this checkpoint's own; in a calm world there is one exactly when the stored one
        can be reused or a new one can be had. */
    method LoadOrRenewEnrollment(cp: Checkpoint, token: string) returns (e: Option<Enrollment>, next: Checkpoint)
      requires d.Sound() && d.checkpoint == Some(cp) && cp.invite
      modifies d`secret, d`credential, d`checkpoint, d`halted, d`log, d`keys
      ensures Safe(cp) && Untouched() && (d.halted ==> e.None?)
      ensures next == cp.(network := next.network, contract := next.contract)
              && (next == cp || next.contract == SignedContract)
      ensures e.Some? ==> d.checkpoint == Some(next) && d.secret == e && OwnEnrollment(cp, e.value)
      ensures e.Some? ==>
                next.network in {cp.network, e.value.network} && (cp.network == "" || e.value.network == cp.network)
      ensures d.calm && !old(d.halted) ==>
                && (e.Some? <==> old(Enrollable(cp, token)))
                && (e.Some? ==> (Backed() <==> old(Reusable(cp) ==> Backed())))
                && (e.Some? ==> !d.halted && e.value.network == old(EnrolledNetwork(cp))
                                && (d.clock < answers.expires ==> d.clock < e.value.expires))
    {
      hide Device.Sound, Device.OneKey;
      next := cp;
      var readable := d.Ask();
      if !readable {
        return None, cp;
      }
      if d.secret.Some? {
        var s := d.secret.value;
        if s.server != cp.server || s.device != cp.device || s.key != cp.key {
          return None, cp;
        }
        var now := d.Now();
        if now < s.expires && (cp.network == "" || s.network == cp.network) {
          return Some(s), cp;
        }
        var _ := d.ClearSecret();
      }
      e, next := RenewInto(cp, token);
    }

    // ---------- phases ----------

    /** Registration, unless an earlier run got past it. */
    method RegisterPhase(cp: Checkpoint, token: string) returns (ok: bool, next: Checkpoint)
      requires d.Sound() && d.checkpoint == Some(cp)
      modifies d`secret, d`credential, d`checkpoint, d`halted, d`log, d`keys
      ensures Safe(cp) && Untouched() && (d.halted && !old(d.halted) ==> !ok)
      ensures ok ==> d.checkpoint == Some(next) && Rank(next.phase) >= 2
      ensures Rank(cp.phase) >= 2 ==> ok && next == cp && d.checkpoint == Some(cp) && d.halted == old(d.halted)
      // The phase follows the reply: this device, one network; or an enrollment that is this device's own.
      ensures ok && Rank(cp.phase) < 2 && !cp.invite ==>
                answers.device == cp.device && answers.network != ""
                  && next == cp.(network := answers.network, phase := Registered)
      ensures ok && Rank(cp.phase) < 2 && cp.invite ==>
                && d.secret.Some? && OwnEnrollment(cp, d.secret.value)
                && (cp.network == "" || d.secret.value.network == cp.network)
                && next == cp.(network := d.secret.value.network, contract := SignedContract, phase := Registered)
      ensures old(d.Calm()) && !cp.invite && Rank(cp.phase) < 2 && answers.device == cp.device
              && answers.network != "" ==>
                ok && !d.halted
      ensures old(d.Calm()) && cp.invite && Rank(cp.phase) < 2 ==>
                && (ok <==> old(Enrollable(cp, token)))
                && (ok ==>
                    !d.halted && next.network == old(EnrolledNetwork(cp))
                      && (d.clock < answers.expires ==> Reusable(next)))
                && (ok ==> (Backed() <==> old(Reusable(cp) ==> Backed())))
      ensures Rank(cp.phase) >= 2 ==> d.secret == old(d.secret) && d.credential == old(d.credential)
    {
      ok, next := true, cp;
      if Rank(cp.phase) >= 2 {
        return;
      }
      var base := cp;
      if cp.invite {
        var e;
        e, next := LoadOrRenewEnrollment(cp, token);
        base := next;
        if e.None? || (next.network != "" && next.network != e.value.network) {
          return false, next;
        }
        next := next.(network := e.value.network, contract := SignedContract, phase := Registered);
      } else {
        var answered := d.SendKey(cp.key);
        if !answered || answers.device != cp.device || answers.network == "" {
          return false, next;
        }
        next := cp.(network := answers.network, phase := Registered);
      }
      ok := SavePhase(base, next);
    }

    /** The served configuration belongs to this device and network, and the floor allows it. */
    ghost predicate Served(server: string, device: string, network: string)
      reads d.floor`bindings
      requires d.floor.Valid()
    {
      && answers.source.device == device && answers.source.network == network
      && CF.Allowed(CF.Floor(d.floor.bindings), d.OfferOf(CF.Key(server, device, network), answers.source))
    }

    /** The floor is at the served configuration, which is this device's, and would allow it again. */
    ghost predicate Floored(server: string, device: string, network: string)
      requires d.floor.Valid()
      reads d.floor`bindings
    {
      var floor, key := CF.Floor(d.floor.bindings), CF.Key(server, device, network);
      && network != "" && answers.source.device == device && answers.source.network == network
      && key in floor && floor[key].generation == answers.source.generation
      && floor[key].configId == answers.source.configId
      && CF.Allowed(floor, d.OfferOf(key, answers.source))
    }

    /** A signed configuration, verified, owned by this device, and above the durable floor. */
    method FetchSigned(cp: Checkpoint) returns (f: Option<Fetch>)
      requires d.Sound()
      modifies d`halted, d.floor`bindings
      ensures d.Sound() && (d.halted ==> f.None?)
      ensures f.Some? ==>
                FetchSound(f.value) && f.value.contract == SignedContract
                  && OwnedBy(f.value.config) == (cp.device, cp.network)
      ensures f.Some? ==> f.value.config == Compiled(answers.source) && old(Served(cp.server, cp.device, cp.network))
      ensures f.Some? ==>
                CF.Floor(d.floor.bindings)
                == CF.Moved(old(CF.Floor(d.floor.bindings)), d.OfferOf(CF.Key(cp.server, cp.device, cp.network),
                  answers.source))
      ensures old(d.Calm()) ==> !d.halted && (old(Served(cp.server, cp.device, cp.network)) ==> f.Some?)
      ensures f.Some? ==> Floored(cp.server, cp.device, cp.network)
    {
      hide CF.Floor, CF.Unique, CF.Allowed, CF.Moved;
      var source := answers.source;
      var answered := d.Request();
      if !answered {
        return None;
      }
      var verified := d.Ask();
      if !verified || source.device != cp.device || source.network != cp.network {
        return None;
      }
      var accepted := d.AcceptSigned(CF.Key(cp.server, cp.device, cp.network), source);
      if accepted == CF.Fine {
        f := Some(Fetch(Compiled(source), SignedContract, source.configId, source.generation));
      } else {
        f := None;
      }
    }

    /** fetchEnrollmentSignedConfig */
    method FetchInvited(cp: Checkpoint, token: string) returns (f: Option<Fetch>, next: Checkpoint)
      requires d.Sound() && d.checkpoint == Some(cp) && cp.invite
      modifies d`secret, d`credential, d`checkpoint, d`halted, d`log, d`keys, d.floor`bindings
      ensures Safe(cp) && Untouched() && (d.halted ==> f.None?)
      ensures next == cp.(network := next.network, contract := next.contract)
      ensures f.Some? ==> d.checkpoint == Some(next) && FetchSound(f.value) && f.value.contract == SignedContract
      ensures f.Some? ==> f.value.config == Compiled(answers.source) && old(Served(cp.server, cp.device, next.network))
      ensures f.Some? ==> OwnedBy(f.value.config) == (next.device, next.network)
      ensures f.Some? ==>
                d.secret.Some? && OwnEnrollment(cp, d.secret.value)
                  && next.network in {cp.network, d.secret.value.network}
      ensures old(d.Calm()) && cp.network != "" ==>
                && (f.Some? <==> old(Ready(cp, token)) && old(Served(cp.server, cp.device, cp.network)))
                && (f.Some? ==>
                    !d.halted && Backed() && next.network == cp.network
                      && (d.clock < answers.expires ==> Reusable(next)))
      ensures f.Some? ==> Floored(cp.server, cp.device, next.network)
      ensures f.Some? && cp.network != "" ==> next.network == cp.network
    {
      hide CF.Floor, CF.Unique, CF.Allowed, Device.HonestLog, Device.OneKey, Device.CheckpointSound, Device.KnownSound;
      var e;
      e, next := LoadOrRenewEnrollment(cp, token);
      if e.None? {
        return None, next;
      }
      if hasCredentials && e.value.session {
        var readable := d.Ask();
        if !readable || d.credential.None? {
          return None, next;
        }
      }
      f := FetchSigned(next);
      if f.None? {
        var expired := d.Ask();
        if expired {
          var _ := d.ClearSecret();
        }
      }
    }

    /** fetchRuntimeConfig. A legacy configuration is only taken in legacy mode, and never once the
        device is locked to signed configurations. */
    method FetchRuntimeConfig(cp: Checkpoint, token: string) returns (f: Option<Fetch>, next: Checkpoint)
      requires d.Sound() && d.checkpoint == Some(cp)
      modifies d`secret, d`credential, d`checkpoint, d`halted, d`log, d`keys, d.floor`bindings
      ensures Safe(cp) && Untouched() && (d.halted ==> f.None?)
      ensures next == cp.(network := next.network, contract := next.contract)
      ensures f.Some? ==>
                d.checkpoint == Some(next) && FetchSound(f.value) && (cp.invite ==> f.value.contract == SignedContract)
      ensures f.Some? && f.value.contract == SignedContract ==>
                f.value.config == Compiled(answers.source) && old(Served(cp.server, cp.device, next.network))
      ensures !cp.invite ==> next == cp
      ensures old(d.Calm()) && !cp.invite ==>
                !d.halted && (mode != LegacyOnly && old(Served(cp.server, cp.device, cp.network)) ==> f.Some?)
      ensures f.Some? && cp.invite ==>
                d.secret.Some? && OwnEnrollment(cp, d.secret.value)
                  && next.network in {cp.network, d.secret.value.network}
      ensures old(d.Calm()) && cp.invite && cp.network != "" ==>
                && (f.Some? <==> old(Ready(cp, token)) && old(Served(cp.server, cp.device, cp.network)))
                && (f.Some? ==>
                    !d.halted && Backed() && next.network == cp.network
                      && (d.clock < answers.expires ==> Reusable(next)))
      ensures f.Some? && f.value.contract == SignedContract ==> OwnedBy(f.value.config) == (next.device, next.network)
      ensures f.Some? && !cp.invite ==> (f.value.contract == SignedContract <==> mode != LegacyOnly)
      ensures f.Some? && f.value.contract == LegacyContract ==>
                mode == LegacyOnly && !Locked(old(CF.Floor(d.floor.bindings)), CF.Key(cp.server, cp.device, cp.network))
      ensures f.Some? && f.value.contract == SignedContract ==> Floored(cp.server, cp.device, next.network)
      ensures f.Some? && cp.network != "" ==> next.network == cp.network
    {
      hide CF.Floor, CF.Unique;
      next := cp;
      if cp.invite {
        f, next := FetchInvited(cp, token);
        return;
      }
      var locked := d.floor.IsSignedLocked(CF.Key(cp.server, cp.device, cp.network));
      if locked.None? {
        return None, cp;
      }
      if mode == LegacyOnly {
        if locked.value {
          return None, cp;
        }
        var answered := d.Request();
        if !answered {
          return None, cp;
        }
        var revision: string, device: string, network: string, body: string := *, *, *, *;
        return Some(Fetch(Legacy(revision, device, network, body), LegacyContract, "", 0)), cp;
      }
      f := FetchSigned(cp);
    }

    ghost predicate Locked(floor: map<CF.Key, CF.Binding>, key: CF.Key)
    {
      key in floor && floor[key].locked
    }

    method FetchPhase(cp: Checkpoint, token: string) returns (ok: bool, next: Checkpoint)
      requires d.Sound() && d.checkpoint == Some(cp)
      modifies d`secret, d`credential, d`checkpoint, d`halted, d`log, d`keys, d.floor`bindings
      ensures Safe(cp) && Untouched() && (d.halted && !old(d.halted) ==> !ok)
      ensures ok ==> d.checkpoint == Some(next) && Rank(next.phase) >= 3
      ensures Rank(cp.phase) >= 3 ==> ok && next == cp && d.checkpoint == Some(cp) && d.halted == old(d.halted)
      ensures ok && Rank(cp.phase) < 3 && next.contract == SignedContract ==>
                next.config == Some(Compiled(answers.source)) && old(Served(cp.server, cp.device, next.network))
      ensures ok && Rank(cp.phase) < 3 && !cp.invite ==>
                (next.contract == SignedContract <==> mode != LegacyOnly) && next.network == cp.network
      ensures ok && Rank(cp.phase) < 3 && next.contract == LegacyContract ==>
                !Locked(old(CF.Floor(d.floor.bindings)), CF.Key(cp.server, cp.device, cp.network))
      ensures old(d.Calm()) && !cp.invite && Rank(cp.phase) < 3 ==>
                (ok ==> !d.halted) && (mode != LegacyOnly && old(Served(cp.server, cp.device, cp.network)) ==> ok)
      ensures old(d.Calm()) && cp.invite && Rank(cp.phase) < 3 && cp.network != "" ==>
                && (ok <==> old(Ready(cp, token)) && old(Served(cp.server, cp.device, cp.network)))
                && (ok ==> !d.halted && Backed() && (d.clock < answers.expires ==> Reusable(next)))
      ensures Rank(cp.phase) >= 3 ==> d.secret == old(d.secret) && d.credential == old(d.credential)
      ensures next.invite == cp.invite && next.server == cp.server && next.device == cp.device
      // Which join this is does not change, and the checkpoint holds what was served, as the floor now has it.
      ensures ok ==> next.node == cp.node && next.key == cp.key && (cp.network != "" ==> next.network == cp.network)
      ensures ok && Rank(cp.phase) < 3 && next.contract == SignedContract ==>
                && next.configId == answers.source.configId && next.generation == answers.source.generation
                && Floored(next.server, next.device, next.network)
    {
      hide Device.HonestLog, Device.OneKey, Device.KnownSound, CF.Floor, CF.Unique, CF.Allowed, Floored, Served;
      ok, next := true, cp;
      if Rank(cp.phase) >= 3 {
        return;
      }
      var f;
      f, next := FetchRuntimeConfig(cp, token);
      if f.None? {
        return false, next;
      }
      var valid := d.Ask();
      if !valid || OwnedBy(f.value.config) != (next.device, next.network) {
        return false, next;
      }
      var base := next;
      next := next.(config := Some(f.value.config), contract := f.value.contract, configId := f.value.configId,
                    generation := f.value.generation, phase := Fetched);
      ok := SavePhase(base, next);
    }

    method ApplyPhase(cp: Checkpoint) returns (ok: bool, next: Checkpoint)
      requires d.Sound() && d.checkpoint == Some(cp) && Rank(cp.phase) >= 3
      modifies d`applied, d`confirmed, d`running, d`checkpoint, d`halted, d`log, d`keys
      ensures Safe(cp) && d.lastKnown == old(d.lastKnown) && (d.halted && !old(d.halted) ==> !ok)
      ensures ok ==> d.checkpoint == Some(next) && Rank(next.phase) >= 4 && next == cp.(phase := next.phase)
      ensures !ok ==> d.checkpoint == Some(cp) || d.checkpoint == Some(next)
      ensures next == cp.(phase := next.phase)
      ensures ok ==> next == if Rank(cp.phase) >= 4 then cp else cp.(phase := Applied)
      ensures d.calm && !old(d.halted) ==> ok && !d.halted
    {
      ok, next := true, cp;
      if Rank(cp.phase) >= 4 {
        return;
      }
      var reported := d.Apply(cp.config.value);
      var known := d.Ask();  // core and adapter are supported
      if reported != Some(Revision(cp.config.value)) || !known {
        var _ := SavePhase(cp, cp);
        return false, cp;
      }
      next := cp.(phase := Applied);
      ok := SavePhase(cp, next);
    }

    /** Sends the ACK of the durable checkpoint and checks that the reply matches it. */
    method Acknowledge(cp: Checkpoint) returns (ok: bool)
      requires d.Sound() && d.checkpoint == Some(cp) && Rank(cp.phase) >= 4 && cp.contract == SignedContract
      modifies d`secret, d`accepted, d`halted, d`log
      ensures d.Sound() && (d.halted ==> !ok)
      ensures ok ==> (cp.generation, cp.configId) in d.accepted
      ensures d.calm && !old(d.halted) ==> ok && !d.halted
    {
      hide Device.HonestLog;
      AppliedIsTruthful(cp);
      var capable := d.Ask();
      if !capable {
        return false;
      }
      var reply := d.SendAck(cp.generation, cp.configId, cp.device);
      ok := reply == Some(Ack(true, cp.device, cp.configId, cp.generation));
      if !ok && cp.invite {
        var expired := d.Ask();
        if expired {
          var _ := d.ClearSecret();
        }
      }
    }

    /** The ACK of exactly the checkpoint's configuration; legacy configurations have none. */
    method AckPhase(cp: Checkpoint, token: string) returns (ok: bool, next: Checkpoint)
      requires d.Sound() && d.checkpoint == Some(cp) && Rank(cp.phase) >= 4
      modifies d`secret, d`credential, d`accepted, d`checkpoint, d`halted, d`log, d`keys
      ensures Safe(cp) && d.lastKnown == old(d.lastKnown) && d.applied == old(d.applied)
              && d.confirmed == old(d.confirmed)
      ensures d.halted && !old(d.halted) ==> !ok
      ensures ok ==> d.checkpoint == Some(next) && Rank(next.phase) >= 5
      ensures !cp.invite && cp.contract == LegacyContract ==> !ok && d.checkpoint == Some(cp)
      ensures d.calm && !old(d.halted) && !cp.invite ==> (ok <==> cp.contract == SignedContract) && (ok ==> !d.halted)
      ensures d.calm && !old(d.halted) && cp.invite ==>
                (ok <==> Rank(cp.phase) >= 5 || old(Ready(cp, token))) && (ok ==> !d.halted)
      ensures ok ==> next == cp.(network := next.network, contract := next.contract, phase := next.phase)
      ensures ok && cp.network != "" ==> next.network == cp.network
      ensures ok ==> cp.contract == SignedContract
    {
      ok, next := true, cp;
      if Rank(cp.phase) >= 5 {
        return;
      }
      var session := false;
      if cp.invite {
        var e;
        e, next := LoadOrRenewEnrollment(cp, token);
        if e.None? {
          return false, next;
        }
        session := e.value.session;
      } else if cp.contract != SignedContract {
        return false, cp;
      }
      ok := Acknowledge(next);
      if !ok {
        return;
      }
      if cp.invite && hasCredentials && session {
        var committed := d.Ask();  // the signing keys stored with the credential
        if !committed || d.credential.None? {
          return false, next;
        }
      }
      var base := next;
      next := next.(phase := Acknowledged);
      ok := SavePhase(base, next);
    }

    lemma AppliedIsTruthful(cp: Checkpoint)
      requires d.CheckpointSound(cp) && Rank(cp.phase) >= 4 && cp.contract == SignedContract
      ensures d.Truthful(cp.generation, cp.configId)
    {
      assert cp.config.value in d.applied;
    }

    /** The last-known state holds the checkpoint's node, key and configuration. */
    predicate Carried(k: LastKnown, cp: Checkpoint)
    {
      && k.server == cp.server && k.device == cp.device && k.node == cp.node && k.key == cp.key && k.acknowledged
      && cp.config == Some(k.config) && k.configId == cp.configId && k.generation == cp.generation
    }

    /** Last-known state first, then the checkpoint goes. */
    method Finish(cp: Checkpoint) returns (ok: bool)
      requires d.Sound() && d.checkpoint == Some(cp) && Rank(cp.phase) >= 5
      modifies d`lastKnown, d`checkpoint, d`secret, d`halted, d`log, d`keys
      ensures d.Sound() && (d.halted ==> !ok)
      ensures old(d.OneKey(cp.server, cp.device)) ==> d.OneKey(cp.server, cp.device)
      ensures d.checkpoint == if d.checkpoint.Some? then Some(cp) else None
      ensures d.calm && !old(d.halted) ==> ok
      ensures d.checkpoint.None? ==> d.lastKnown.Some? && d.lastKnown.value.key == cp.key
      ensures ok ==> d.checkpoint.None? && Joined(cp.server, cp.device)
      // Last-known state is the acknowledged checkpoint, field by field.
      ensures ok ==> d.lastKnown.Some? && Carried(d.lastKnown.value, cp) && d.lastKnown.value.network == cp.network
    {
      var k := LastKnown(cp.server, cp.device, cp.network, cp.node, cp.key, true, cp.config.value, cp.contract,
        cp.configId, cp.generation);
      assert d.KnownSound(k);
      ok := d.SaveLastKnown(k);
      if !ok {
        return;
      }
      ok := d.ClearCheckpoint();
      if ok && cp.invite {
        ok := d.ClearSecret();
      }
    }

    /** Joined under the signed contract: the stored configuration was applied and acknowledged. */
    ghost predicate Joined(server: string, device: string)
      reads d`lastKnown, d`confirmed, d`accepted
    {
      && d.Remembers(server, device) && d.lastKnown.value.contract == SignedContract
      && d.KnownSound(d.lastKnown.value)
    }

    // ---------- starting points ----------

    /** The floor still allows the last-known configuration, when it is a signed one. */
    ghost predicate Recoverable(k: LastKnown)
      requires d.floor.Valid() && d.KnownSound(k)
      reads d, d.floor`bindings
    {
      k.contract == SignedContract ==>
        CF.Allowed(CF.Floor(d.floor.bindings), d.OfferOf(CF.Key(k.server, k.device, k.network), k.config.source))
    }

    /** recoverLastKnown: an already joined device only gets its runtime back. */
    method RecoverLastKnown(k: LastKnown) returns (ok: bool)
      requires d.Sound() && d.lastKnown == Some(k)
      modifies d`applied, d`confirmed, d`running, d`halted, d.floor`bindings
      ensures d.Sound()
      ensures ok ==> Revision(k.config) in d.confirmed && old(Recoverable(k))
      ensures old(d.Calm()) && old(Recoverable(k)) ==> ok
      ensures CF.Floor(d.floor.bindings) == old(CF.Floor(d.floor.bindings)) ||
              (k.contract == SignedContract
               && CF.Floor(d.floor.bindings)
                  == CF.Moved(old(CF.Floor(d.floor.bindings)), d.OfferOf(CF.Key(k.server, k.device, k.network),
                    k.config.source)))
    {
      hide Device.HonestLog, CF.Floor, CF.Unique, CF.Allowed, CF.Moved;
      if k.contract == SignedContract {
        var accepted := d.AcceptSigned(CF.Key(k.server, k.device, k.network), k.config.source);
        if accepted != CF.Fine {
          return false;
        }
      }
      var running;
      ok, running := d.Status();
      if !ok {
        return;
      }
      if running != Some(Revision(k.config)) {
        var reported := d.Apply(k.config);
        ok := reported == Some(Revision(k.config));
      }
    }

    /** seedMigrationCheckpoint: a device joined under the legacy contract keeps its key. */
    method SeedMigration(k: LastKnown) returns (ok: bool)
      requires d.Sound() && d.lastKnown == Some(k) && k.acknowledged
      modifies d`checkpoint, d`halted, d`log, d`keys
      ensures d.Sound() && (ok ==> d.checkpoint.Some?)
      ensures old(d.checkpoint).Some? ==> d.checkpoint == old(d.checkpoint)
      ensures old(d.OneKey(k.server, k.device)) ==> d.OneKey(k.server, k.device)
      ensures ok ==> d.checkpoint.value.server == k.server && d.checkpoint.value.device == k.device
                     && d.checkpoint.value.network == k.network
      ensures ok && old(d.checkpoint).None? ==>
                && d.checkpoint.value.key == k.key && d.checkpoint.value.node == k.node
                && d.checkpoint.value.phase == Registered && !d.checkpoint.value.invite
    {
      var readable := d.Ask();
      if !readable {
        return false;
      }
      if d.checkpoint.Some? {
        var c := d.checkpoint.value;
        return c.server == k.server && c.device == k.device && c.network == k.network;
      }
      ok := d.SaveCheckpoint(Checkpoint(k.server, k.device, k.network, k.node, false, k.key, Registered, Unset, "", 0,
        None));
    }

    /** loadOrCreateCheckpoint: a new key only when nothing durable has one. */
    method LoadOrCreateCheckpoint(q: Request) returns (ok: bool, cp: Checkpoint)
      requires d.Sound()
      requires d.Remembers(q.server, q.device) ==> d.checkpoint.Some?
      modifies d`checkpoint, d`halted, d`log, d`keys
      ensures d.Sound()
      ensures ok ==> d.checkpoint == Some(cp) && cp.server == q.server && cp.device == q.device
      ensures old(d.Calm()) && (old(Plain(q)) || old(Invited(q))) ==>
                ok && !d.halted && (cp.invite <==> old(Invited(q)))
                  && cp.(key := "") == old(StartingPoint(q)).(key := "")
      ensures old(d.checkpoint).Some? ==> d.checkpoint == old(d.checkpoint)
      ensures old(d.OneKey(q.server, q.device)) ==> d.OneKey(q.server, q.device)
      ensures ok ==> if old(d.checkpoint).Some? then cp == old(d.checkpoint).value
                     else cp == old(StartingPoint(q)).(key := cp.key)
    {
      cp := Checkpoint(q.server, q.device, q.network, q.node, q.token != "", "", Started, Unset, "", 0, None);
      var readable := d.Ask();
      if !readable {
        return false, cp;
      }
      if d.checkpoint.Some? {
        cp := d.checkpoint.value;
        return cp.server == q.server && cp.device == q.device && (q.token == "" || cp.invite), cp;
      }
      var key := d.GenerateKey(q.server, q.device);
      if key.None? {
        return false, cp;
      }
      cp := cp.(key := key.value);
      ok := d.SaveCheckpoint(cp);
    }

    // ---------- the whole join ----------

    /** A checkpoint whose configuration came over the legacy contract. */
    ghost predicate LegacyFetched()
      reads d`checkpoint
    {
      d.checkpoint.Some? && !d.checkpoint.value.invite && d.checkpoint.value.contract == LegacyContract
        && Rank(d.checkpoint.value.phase) >= 3
    }

    /** What a calm run needs from the controller to finish this checkpoint. */
    ghost predicate Completable(cp: Checkpoint)
      requires d.floor.Valid()
      reads d.floor`bindings
    {
      && mode != LegacyOnly
      && if Rank(cp.phase) >= 3 then cp.contract == SignedContract
         else if Rank(cp.phase) >= 2 then Served(cp.server, cp.device, cp.network)
         else answers.device == cp.device && answers.network != "" && Served(cp.server, cp.device, answers.network)
    }

    /** No checkpoint, bearer or credential without a network, and no reply without one. */
    predicate NetworkKnown(cp: Checkpoint)
      reads d`secret, d`credential, d`clock
    {
      (if Rank(cp.phase) < 2 then EnrolledNetwork(cp) else cp.network) != ""
    }

    /** The same for a checkpoint that was started with an invite. */
    ghost predicate InviteCompletable(cp: Checkpoint, token: string)
      requires d.floor.Valid()
      reads d.floor`bindings, d`secret, d`credential, d`clock
    {
      && hasCredentials && !(cp.contract == SignedContract && mode == LegacyOnly)
      && (Rank(cp.phase) >= 5 || Ready(cp, token))
      && (Rank(cp.phase) >= 3 || Served(cp.server, cp.device, EnrolledNetwork(cp)))
    }

    /** From a fetched configuration to last-known state. */
    method Complete(start: Checkpoint, token: string) returns (ok: bool)
      requires d.Sound() && d.checkpoint == Some(start) && Rank(start.phase) >= 3
      modifies d`checkpoint, d`lastKnown, d`secret, d`credential, d`halted, d`applied, d`confirmed, d`running
      modifies d`accepted, d`keys, d`log
      ensures d.Sound()
      ensures old(d.OneKey(start.server, start.device)) ==> d.OneKey(start.server, start.device)
      ensures if d.checkpoint.Some? then Later(start, d.checkpoint.value)
              else d.lastKnown.Some? && d.lastKnown.value.key == start.key
      ensures ok ==> d.checkpoint.None? && Joined(start.server, start.device)
      ensures old(d.Calm()) && !start.invite ==> (ok <==> start.contract == SignedContract)
      ensures old(d.Calm()) && start.invite ==> (ok <==> Rank(start.phase) >= 5 || old(Ready(start, token)))
      ensures old(LegacyFetched()) ==> !ok && LegacyFetched()
      ensures ok ==>
                Carried(d.lastKnown.value, start)
                  && (start.network != "" ==> d.lastKnown.value.network == start.network)
      ensures ok ==> start.contract == SignedContract
      ensures d.halted ==> !ok
    {
      hide Device.Sound, Device.OneKey, Device.CheckpointSound, Device.KnownSound, Joined;
      var cp;
      ok, cp := ApplyPhase(start);
      if !ok {
        return;
      }
      ok, cp := AckPhase(cp, token);
      if !ok {
        return;
      }
      ok := Finish(cp);
    }

    /** From a durable checkpoint to a fetched configuration. */
    method ToFetched(start: Checkpoint, token: string) returns (ok: bool, cp: Checkpoint)
      requires d.Sound() && d.checkpoint == Some(start)
      modifies d`secret, d`credential, d`checkpoint, d`halted, d`log, d`keys, d.floor`bindings
      ensures Safe(start)
      ensures ok ==> d.checkpoint == Some(cp) && Rank(cp.phase) >= 3 && Later(start, cp)
      ensures Rank(start.phase) >= 3 ==>
                ok && cp == start && d.halted == old(d.halted) && d.secret == old(d.secret)
                  && d.credential == old(d.credential)
      ensures old(d.Calm()) && !start.invite && Rank(start.phase) < 3 ==>
                && (ok ==> !d.halted && (cp.contract == SignedContract <==> mode != LegacyOnly))
                && (mode != LegacyOnly ==> (ok <==> old(Completable(start))))
      ensures old(d.Calm()) && start.invite && Rank(start.phase) < 3 && d.clock < answers.expires
              && old(NetworkKnown(start)) ==>
                && (ok <==> old(Ready(start, token)) && old(Served(start.server, start.device, EnrolledNetwork(start))))
                && (ok ==> !d.halted && Reusable(cp) && Backed())
      ensures ok ==> cp.node == start.node && cp.key == start.key && cp.invite == start.invite
      ensures ok && Rank(start.phase) < 3 && cp.contract == SignedContract ==>
                && cp.config == Some(Compiled(answers.source))
                && cp.configId == answers.source.configId && cp.generation == answers.source.generation
                && Floored(cp.server, cp.device, cp.network)
      ensures ok && Rank(start.phase) < 2 && !start.invite ==> cp.network == answers.network
      ensures ok && (Rank(start.phase) >= 2 || start.invite) && start.network != "" ==> cp.network == start.network
    {
      hide Device.Backed, Device.OneKey, Device.CheckpointSound, CF.Floor, CF.Unique, CF.Allowed;
      ok, cp := RegisterPhase(start, token);
      if !ok {
        return;
      }
      ok, cp := FetchPhase(cp, token);
    }

    /** Where a join that started from this checkpoint ends: the device, node and key it started with, on the
        network the checkpoint named or the controller registered, with the checkpoint's configuration if it had
        one, and otherwise with the one that was served - which the floor then is at, and allows again. */
    ghost predicate Delivered(start: Checkpoint)
      requires d.floor.Valid()
      reads d`lastKnown, d.floor`bindings
    {
      && d.lastKnown.Some?
      && var k := d.lastKnown.value;
         && k.server == start.server && k.device == start.device && k.node == start.node
         && (start.key != "" ==> k.key == start.key)
         && (Rank(start.phase) < 2 && !start.invite ==> k.network == answers.network)
         && ((Rank(start.phase) >= 2 || start.invite) && start.network != "" ==> k.network == start.network)
         && (if Rank(start.phase) >= 3 then
               start.config == Some(k.config) && k.configId == start.configId && k.generation == start.generation
             else
               && k.config == Compiled(answers.source) && k.configId == answers.source.configId
               && k.generation == answers.source.generation && Floored(k.server, k.device, k.network))
    }

    /** From a durable checkpoint to last-known state. */
    method Resume(start: Checkpoint, token: string) returns (ok: bool)
      requires d.Sound() && d.checkpoint == Some(start)
      modifies d`checkpoint, d`lastKnown, d`secret, d`credential, d`halted, d`applied, d`confirmed, d`running
      modifies d`accepted, d`keys, d`log, d.floor`bindings
      ensures d.Sound()
      ensures old(d.OneKey(start.server, start.device)) ==> d.OneKey(start.server, start.device)
      ensures if d.checkpoint.Some? then Later(start, d.checkpoint.value)
              else d.lastKnown.Some? && d.lastKnown.value.key == start.key
      ensures ok ==> d.checkpoint.None? && Joined(start.server, start.device)
      ensures old(d.Calm()) && !start.invite ==> (ok <==> old(Completable(start)))
      ensures old(d.Calm()) && start.invite && d.clock < answers.expires && old(NetworkKnown(start)) ==>
                (ok <==> old(InviteCompletable(start, token)))
      ensures old(LegacyFetched()) ==> !ok && LegacyFetched()
      ensures ok ==> Delivered(start)
      ensures d.halted ==> !ok
    {
      assert start.invite && Rank(start.phase) >= 3 ==> start.contract == SignedContract;
      hide Device.Backed, Device.OneKey, Device.CheckpointSound, Device.KnownSound, Joined, CF.Floor, CF.Unique,
        CF.Allowed;
      if start.invite && !hasCredentials {
        return false;
      }
      if start.contract == SignedContract && mode == LegacyOnly {
        return false;
      }
      if start.contract == LegacyContract && mode == SignedOnly && Rank(start.phase) >= 3 {
        return false;
      }
      var cp;
      ok, cp := ToFetched(start, token);
      if !ok {
        return;
      }
      ok := Complete(cp, token);
    }

    /** A plain join: no invite, not joined before, and no checkpoint of another join. */
    predicate Plain(q: Request)
      reads d`checkpoint, d`lastKnown
    {
      && q.server != "" && q.device != "" && q.token == "" && !d.Remembers(q.server, q.device)
      && (d.checkpoint.Some? ==>
            d.checkpoint.value.server == q.server && d.checkpoint.value.device == q.device
              && !d.checkpoint.value.invite)
    }

    /** A join with an invite: not joined before, and either its own checkpoint or nothing of another enrollment. */
    predicate Invited(q: Request)
      reads d`checkpoint, d`lastKnown, d`secret, d`credential
    {
      && q.server != "" && q.device != "" && !d.Remembers(q.server, q.device)
      && (d.checkpoint.Some? ==>
            d.checkpoint.value.server == q.server && d.checkpoint.value.device == q.device && d.checkpoint.value.invite)
      && (d.checkpoint.None? ==> q.token != "" && d.secret.None? && d.credential.None?)
    }

    /** Joined before under the signed contract, and asked for the same again. */
    ghost predicate Rejoin(q: Request)
      reads d`lastKnown
    {
      && q.server != "" && q.device != "" && d.Remembers(q.server, q.device)
      && d.lastKnown.value.contract == SignedContract
      && q.network in {"", d.lastKnown.value.network} && q.node in {"", d.lastKnown.value.node}
    }

    /** The checkpoint a join goes on from. */
    function StartingPoint(q: Request): Checkpoint
      reads d`checkpoint
    {
      if d.checkpoint.Some? then d.checkpoint.value
      else Checkpoint(q.server, q.device, q.network, q.node, q.token != "", "", Started, Unset, "", 0, None)
    }

    /** Join. Whatever earlier runs left behind, a calm plain join completes exactly when the controller's
        answers fit the checkpoint and the floor, and the caller does not insist on the legacy contract. */
    method Join(q: Request) returns (ok: bool, already: bool)
      requires d.Sound()
      modifies d`checkpoint, d`lastKnown, d`secret, d`credential, d`halted, d`applied, d`confirmed, d`running
      modifies d`accepted, d`keys, d`log, d.floor`bindings
      ensures old(d.Calm()) && old(Plain(q)) ==> (ok <==> old(Completable(StartingPoint(q))))
      ensures old(d.Calm()) && old(Invited(q)) && d.clock < answers.expires && old(NetworkKnown(StartingPoint(q))) ==>
                (ok <==> old(InviteCompletable(StartingPoint(q), q.token)))
      ensures old(d.Calm()) && old(Rejoin(q)) ==>
                (ok <==> mode != LegacyOnly && old(Recoverable(d.lastKnown.value)))
      ensures d.Sound()
      ensures old(d.OneKey(q.server, q.device)) ==> d.OneKey(q.server, q.device)
      ensures ok && !already ==> d.checkpoint.None? && Joined(q.server, q.device)
      ensures ok && !already && (old(d.checkpoint).Some? || !old(d.Remembers(q.server, q.device))) ==>
                Delivered(old(StartingPoint(q)))
      ensures ok && already ==> d.lastKnown == old(d.lastKnown) && d.Remembers(q.server, q.device)
      ensures ok && already ==> Revision(d.lastKnown.value.config) in d.confirmed
      ensures old(d.checkpoint).Some? ==>
                if d.checkpoint.Some? then
                  && d.checkpoint.value.key == old(d.checkpoint).value.key
                  && d.checkpoint.value.server == old(d.checkpoint).value.server
                  && d.checkpoint.value.device == old(d.checkpoint).value.device
                  && Rank(old(d.checkpoint).value.phase) <= Rank(d.checkpoint.value.phase)
                else d.lastKnown.Some? && d.lastKnown.value.key == old(d.checkpoint).value.key
      ensures old(LegacyFetched()) ==> (ok ==> already) && LegacyFetched()
      ensures ok && !already ==> !d.halted
    {
      hide Device.Sound, Device.OneKey, Device.CheckpointSound, Device.KnownSound, Joined, CF.Floor, CF.Allowed,
        CF.Moved, CF.Unique;
      already := false;
      var readable := d.Ask();
      if q.server == "" || q.device == "" || !readable {
        return false, false;
      }
      if d.Remembers(q.server, q.device) {
        var k := d.lastKnown.value;
        if (q.network != "" && q.network != k.network) || (q.node != "" && q.node != k.node) {
          return false, false;
        }
        if k.contract == SignedContract && mode == LegacyOnly {
          return false, false;
        }
        if k.contract == SignedContract || mode == LegacyOnly {
          if k.contract == SignedContract {
            ok := d.ClearSecret();
            if !ok {
              return;
            }
          }
          ok := RecoverLastKnown(k);
          return ok, true;
        }
        ok := SeedMigration(k);
        if !ok {
          return;
        }
      }
      var cp;
      ok, cp := LoadOrCreateCheckpoint(q);
      if !ok {
        return;
      }
      ok := Resume(cp, q.token);
    }
  }

  /** What a calm join has brought about can be recovered: joining again goes back to the same last-known state. */
  method JoinAgain(j: Joiner, q: Request) returns (first: bool, second: bool)
    requires j.d.Sound() && j.d.Calm() && j.Plain(q) && q.network == "" && q.node == "" && j.mode != LegacyOnly
    requires j.d.checkpoint.Some? ==> Rank(j.d.checkpoint.value.phase) < 3
    modifies j.d, j.d.floor`bindings
    ensures first <==> old(j.Completable(j.StartingPoint(q)))
    ensures first ==> second && j.Joined(q.server, q.device)
  {
    hide Device.HonestLog, Device.OneKey, Device.CheckpointSound, CF.Floor, CF.Unique, CF.Allowed;
    var already;
    first, already := j.Join(q);
    second := first;
    if first {
      ghost var k := j.d.lastKnown.value;
      assert j.Recoverable(k);
      second, already := j.Join(q);
    }
  }
}
