/**
 The single-device lab controller: one invite, one lease, one WireGuard key.

 The state is held in memory and on disk. A failed save may have left either version on disk, so it
 stops the server for good; only a restart, which reads the disk, goes on. `Die` is a crash.
 */
module ZeroLab {
  import opened Common

  datatype Invite = Invite(hash: string, device: string, platform: string, expires: int)
  datatype DeviceRecord = DeviceRecord(id: string, platform: string, key: string, address: string)

  /** The pending peer binding: a collision-free hash of its three parts. */
  datatype Binding = Binding(device: string, platform: string, key: string)

  datatype Session = Session(hash: string, expires: int)
  datatype Config = Config(configId: string, device: string, generation: nat, expires: int)
  datatype Ack = Ack(device: string, configId: string, generation: nat)
  datatype Secret = Secret(verifier: string, expires: int)

  datatype State = State(
    invite: Option<Invite>, device: Option<DeviceRecord>, pending: Option<Binding>, credential: Option<Secret>,
    sessions: seq<Session>, config: Option<Config>, ack: Option<Ack>)

  const EMPTY := State(None, None, None, None, [], None, None)

  datatype InviteRequest = InviteRequest(admin: bool, network: string, device: string, platform: string, seconds: int)
  datatype ExchangeRequest = ExchangeRequest(tokenHash: string, device: string, platform: string, key: string)
  datatype AckRequest = AckRequest(generation: nat, configId: string, device: string, timely: bool)

  /** Deployment options and the formats decided by library code. */
  datatype Options = Options(network: string, address: string, validId: string -> bool, validPlatform: string -> bool,
    validKey: string -> bool)

  const MAX_SESSIONS := 32
  const SESSION_SECONDS := 900
  const CREDENTIAL_SECONDS := 2_592_000
  const CONFIG_SECONDS := 3600
  const CONFIG_MARGIN := 300
  const MAX_INVITE_SECONDS := 86_400

  function LiveSessions(sessions: seq<Session>, now: int): (r: seq<Session>)
    ensures |r| <= |sessions| && forall i :: 0 <= i < |r| ==> r[i] in sessions && r[i].expires > now
  {
    if sessions == [] then []
    else
      var rest := LiveSessions(sessions[..|sessions| - 1], now);
      var s := sessions[|sessions| - 1];
      if s.expires > now then rest + [s] else rest
  }

  /** No live session is lost by the filter. */
  lemma {:induction false} LiveSessionsComplete(sessions: seq<Session>, now: int, s: Session)
    requires s in sessions && s.expires > now
    ensures s in LiveSessions(sessions, now)
  {
    var n := |sessions| - 1;
    if s != sessions[n] {
      assert s in sessions[..n];
      LiveSessionsComplete(sessions[..n], now, s);
    }
  }

  /** The filter looks at every session by itself, in order. */
  lemma {:induction false} LiveFirst(sessions: seq<Session>, now: int)
    requires sessions != []
    ensures LiveSessions(sessions, now)
            == (if sessions[0].expires > now then [sessions[0]] else []) + LiveSessions(sessions[1..], now)
  {
    var n := |sessions| - 1;
    if n > 0 {
      LiveFirst(sessions[..n], now);
      assert sessions[..n][1..] == sessions[1..][..n - 1] && sessions[1..][n - 1] == sessions[n];
    }
  }

  /** What is left without the first k live sessions are the live ones from some point on. */
  lemma {:induction false} LiveFrom(sessions: seq<Session>, now: int, k: nat) returns (cut: nat)
    requires k <= |LiveSessions(sessions, now)|
    ensures cut <= |sessions| && LiveSessions(sessions[cut..], now) == LiveSessions(sessions, now)[k..]
  {
    if k == 0 {
      cut := 0;
      assert sessions[0..] == sessions;
    } else {
      LiveFirst(sessions, now);
      var rest := LiveFrom(sessions[1..], now, if sessions[0].expires > now then k - 1 else k);
      cut := rest + 1;
      assert sessions[1..][rest..] == sessions[cut..];
    }
  }

  /** A session more: all that are live from some point on are kept, which is the very beginning unless there is
      no room for more than the newest 31. */
  ghost predicate OneMore(before: seq<Session>, after: seq<Session>, now: int, s: Session)
  {
    exists cut :: 0 <= cut <= |before| && KeptFrom(before, after, now, s, cut)
  }

  ghost predicate KeptFrom(before: seq<Session>, after: seq<Session>, now: int, s: Session, cut: nat)
    requires cut <= |before|
  {
    && after != [] && after[|after| - 1] == s
    && (forall k :: cut <= k < |before| && before[k].expires > now ==> before[k] in after)
    && (forall k :: 0 <= k < |after| - 1 ==> after[k] in before[cut..] && after[k].expires > now)
    && (cut > 0 ==> |after| == MAX_SESSIONS)
  }

  lemma NewestKept(before: seq<Session>, now: int, s: Session)
    ensures OneMore(before, Newest(LiveSessions(before, now)) + [s], now, s)
  {
    hide LiveSessions, KeptFrom;
    var live := LiveSessions(before, now);
    var k := if |live| >= MAX_SESSIONS then |live| - (MAX_SESSIONS - 1) else 0;
    assert Newest(live) == live[k..];
    var cut: nat := 0;
    if k > 0 {
      cut := LiveFrom(before, now, k);
    } else {
      assert before[0..] == before && live[0..] == live;
    }
    TailKept(before, now, s, cut);
  }

  lemma TailKept(before: seq<Session>, now: int, s: Session, cut: nat)
    requires cut <= |before| && (cut > 0 ==> |LiveSessions(before[cut..], now)| == MAX_SESSIONS - 1)
    ensures KeptFrom(before, LiveSessions(before[cut..], now) + [s], now, s, cut)
  {
    hide LiveSessions;
    forall i | cut <= i < |before| && before[i].expires > now ensures before[i] in LiveSessions(before[cut..], now) {
      assert before[cut..][i - cut] == before[i];
      LiveSessionsComplete(before[cut..], now, before[i]);
    }
  }

  function Newest(sessions: seq<Session>): seq<Session>
  {
    if |sessions| >= MAX_SESSIONS then sessions[|sessions| - (MAX_SESSIONS - 1)..] else sessions
  }

  /** The key a state commits the lease to. */
  function Lease(s: State): Option<string>
  {
    if s.device.Some? then Some(s.device.value.key)
    else if s.pending.Some? then Some(s.pending.value.key) else None
  }

  predicate StateOk(s: State)
  {
    && (s.device.Some? ==> s.invite.None? && s.pending.None?)
    && |s.sessions| <= MAX_SESSIONS
    && (s.ack.Some? ==>
          && s.config.Some? && s.ack.value.configId == s.config.value.configId
          && s.ack.value.generation == s.config.value.generation && s.ack.value.device == s.config.value.device)
    && (s.config.Some? ==> s.device.Some? && s.config.value.device == s.device.value.id)
  }

  /** Served generations never decrease, one generation is one configuration, and the stored one is the latest. */
  ghost predicate ServedOk(served: seq<Config>, current: Option<Config>)
  {
    && (forall i, j :: 0 <= i < j < |served| ==>
          served[i].generation <= served[j].generation
            && (served[i].generation == served[j].generation ==> served[i] == served[j]))
    && (forall i :: 0 <= i < |served| ==>
          && current.Some? && served[i].generation <= current.value.generation
          && (served[i].generation == current.value.generation ==> served[i] == current.value))
  }

  lemma ServeCurrent(served: seq<Config>, c: Config)
    requires ServedOk(served, Some(c))
    ensures ServedOk(served + [c], Some(c))
  {
  }

  lemma NewGeneration(served: seq<Config>, current: Option<Config>, c: Config)
    requires ServedOk(served, current) && (current.Some? ==> current.value.generation < c.generation)
    ensures ServedOk(served, Some(c))
  {
  }

  class Server {
    const o: Options
    const calm: bool                 // no save, helper or random source ever fails, and nothing crashes
    var mem: State
    var disk: State
    var failed: bool
    ghost var applied: set<string>   // keys ever given to ApplyPeer
    ghost var gateway: Option<string>  // the key the gateway lets in now
    ghost var successes: nat         // exchanges answered with success
    ghost var served: seq<Config>    // configurations answered, in order

    ghost predicate Valid()
      reads this
    {
      && StateOk(disk)
      && (!failed ==> mem == disk)
      && (forall k :: k in applied ==> Lease(disk) == Some(k))
      && (gateway.Some? ==> gateway.value in applied)
      && successes <= 1 && (successes == 1 ==> disk.device.Some?)
      && ServedOk(served, disk.config)
    }

    constructor (o: Options, calm: bool)
      ensures Valid() && this.o == o && this.calm == calm && disk == EMPTY && !failed && applied == {} && successes == 0
    {
      this.o, this.calm := o, calm;
      mem, disk, failed, applied, gateway, successes, served := EMPTY, EMPTY, false, {}, None, 0, [];
    }

    /** A new process on the same state file. */
    method Restart()
      requires Valid()
      modifies this`mem, this`failed
      ensures Valid() && !failed && mem == disk
    {
      mem, failed := disk, false;
    }

    /** The process may be killed here. */
    method Die() returns (dead: bool)
      requires Valid()
      modifies this`failed
      ensures Valid() && (dead ==> failed) && (!dead ==> failed == old(failed))
      ensures calm ==> !dead
    {
      dead := *;
      dead := dead && !calm;
      failed := failed || dead;
    }

    method Ask() returns (yes: bool)
      ensures calm ==> yes
    {
      yes := *;
      yes := yes || calm;
    }

    /** commit: on failure the disk holds the old state or the new one, and the server stops. */
    method Commit() returns (ok: bool)
      modifies this`disk, this`failed
      ensures if ok then disk == mem && failed == old(failed) else failed && disk in {old(disk), mem}
      ensures calm ==> ok
    {
      var late: bool := *;
      ok := Ask();
      if ok || late {
        disk := mem;
      }
      failed := failed || !ok;
    }

    /** The gateway helper; it may have taken effect although it reports failure. */
    method ApplyPeer(key: string) returns (ok: bool)
      modifies this`applied, this`gateway
      ensures applied == old(applied) + {key}
      ensures gateway in {old(gateway), Some(key)} && (ok ==> gateway == Some(key))
      ensures calm ==> ok
    {
      var late: bool := *;
      ok := Ask();
      applied := applied + {key};
      if ok || late {
        gateway := Some(key);
      }
    }

    /** The gateway reboots and forgets its peers. */
    ghost method GatewayReboots()
      requires Valid()
      modifies this`gateway
      ensures Valid() && gateway.None?
    {
      gateway := None;
    }

    /** A valid request of the administrator, while no lease exists or is being made. */
    predicate Invitable(s: State, q: InviteRequest)
    {
      && q.admin && q.network == o.network && (q.device == "" || o.validId(q.device))
      && (q.platform == "" || o.validPlatform(q.platform))
      && 1 <= q.seconds <= MAX_INVITE_SECONDS && s.device.None? && s.pending.None?
    }

    method CreateInvite(q: InviteRequest, now: int) returns (status: nat)
      requires Valid()
      modifies this`mem, this`disk, this`failed
      ensures Valid()
      ensures status == 200 ==>
                old(disk).device.None? && old(disk).pending.None? && disk == old(disk).(invite := disk.invite)
                  && disk.invite.Some?
      ensures status != 200 && !failed ==> disk == old(disk)
      ensures status == 200 ==>
                Invitable(old(disk), q)
                  && disk.invite.value.(hash := "") == Invite("", q.device, q.platform, now + q.seconds)
      ensures calm && !old(failed) && Invitable(old(disk), q) ==> status == 200
    {
      hide ServedOk;
      if failed {
        return 503;
      }
      if !q.admin {
        return 401;
      }
      if q.network != o.network || (q.device != "" && !o.validId(q.device))
        || (q.platform != "" && !o.validPlatform(q.platform))
         || q.seconds < 1 || q.seconds > MAX_INVITE_SECONDS {
        return 400;
      }
      if mem.device.Some? || mem.pending.Some? {
        return 409;
      }
      var token: string := *;
      var drawn := Ask();
      if !drawn {
        return 503;
      }
      mem := mem.(invite := Some(Invite(token, q.device, q.platform, now + q.seconds)));
      var ok := Commit();
      status := if ok then 200 else 503;
    }

    /** Drops expired sessions, keeps the newest, and adds one. */
    method NewSession(now: int) returns (token: Option<string>)
      requires |mem.sessions| <= MAX_SESSIONS
      modifies this`mem
      ensures token.None? ==> mem == old(mem)
      ensures token.Some? ==>
                mem == old(mem).(sessions := Newest(LiveSessions(old(mem).sessions, now)) + [Session(token.value,
                  now + SESSION_SECONDS)])
      ensures token.Some? ==> OneMore(old(mem).sessions, mem.sessions, now, Session(token.value, now + SESSION_SECONDS))
      ensures |mem.sessions| <= MAX_SESSIONS
      ensures calm ==> token.Some?
    {
      hide OneMore;
      var hash: string := *;
      var drawn := Ask();
      if !drawn {
        return None;
      }
      token := Some(hash);
      var sessions: seq<Session> := [];
      for i := 0 to |mem.sessions|
        invariant sessions == LiveSessions(mem.sessions[..i], now)
      {
        assert mem.sessions[..i + 1][..i] == mem.sessions[..i];
        if mem.sessions[i].expires > now {
          sessions := sessions + [mem.sessions[i]];
        }
      }
      assert mem.sessions[..|mem.sessions|] == mem.sessions;
      if |sessions| >= MAX_SESSIONS {
        sessions := sessions[|sessions| - (MAX_SESSIONS - 1)..];
      }
      NewestKept(mem.sessions, now, Session(hash, now + SESSION_SECONDS));
      mem := mem.(sessions := sessions + [Session(hash, now + SESSION_SECONDS)]);
    }

    /** A live invite for this device, no lease yet, and no other key on its way to the gateway. */
    predicate Exchangeable(s: State, q: ExchangeRequest, now: int)
    {
      && s.invite.Some? && s.invite.value.expires > now && s.invite.value.hash == q.tokenHash
      && s.device.None? && o.validId(q.device) && o.validPlatform(q.platform) && o.validKey(q.key)
      && s.invite.value.device in {"", q.device} && s.invite.value.platform in {"", q.platform}
      && s.pending in {None, Some(Binding(q.device, q.platform, q.key))}
    }

    /** The checks of an exchange, before any effect. */
    method Admissible(q: ExchangeRequest, now: int) returns (status: nat)
      ensures status == 200 <==> Exchangeable(mem, q, now)
    {
      if mem.invite.None? {
        return 401;
      }
      var inv := mem.invite.value;
      if !(inv.expires > now) || q.tokenHash != inv.hash {
        return 401;
      }
      if mem.device.Some? {
        return 409;
      }
      if !o.validId(q.device) || !o.validPlatform(q.platform) || !o.validKey(q.key)
         || (inv.device != "" && inv.device != q.device) || (inv.platform != "" && inv.platform != q.platform) {
        return 403;
      }
      if mem.pending.Some? && mem.pending.value != Binding(q.device, q.platform, q.key) {
        return 409;
      }
      status := 200;
    }

    /** First half of exchange: the intent is on disk before the key reaches the gateway. */
    method Provision(q: ExchangeRequest) returns (ok: bool)
      requires Valid() && !failed && mem.device.None?
               && mem.pending in {None, Some(Binding(q.device, q.platform, q.key))}
      modifies this`mem, this`disk, this`failed, this`applied, this`gateway
      ensures Valid()
      ensures ok ==> q.key in applied && gateway == Some(q.key)
      ensures disk.device.None?
              && disk in {old(disk), old(disk).(pending := Some(Binding(q.device, q.platform, q.key)))}
      ensures ok ==> !failed && mem == old(mem).(pending := Some(Binding(q.device, q.platform, q.key)))
      ensures applied == old(applied) || applied == old(applied) + {q.key}
      ensures calm ==> ok
    {
      hide ServedOk;
      mem := mem.(pending := Some(Binding(q.device, q.platform, q.key)));
      ok := Commit();
      if !ok {
        return;
      }
      var dead := Die();
      if dead {
        return false;
      }
      ok := ApplyPeer(q.key);
      if ok {
        dead := Die();
        ok := !dead;
      }
    }

    /** Second half: the lease and a first session, on disk before the answer. */
    method GrantLease(q: ExchangeRequest, verifier: string, now: int) returns (ok: bool, session: string)
      requires Valid() && !failed && mem.device.None? && mem.pending == Some(Binding(q.device, q.platform, q.key))
      modifies this`mem, this`disk, this`failed, this`successes
      ensures Valid()
      ensures ok ==> successes == 1 && old(successes) == 0
                     && disk.device == Some(DeviceRecord(q.device, q.platform, q.key, o.address)) && disk.invite.None?
      ensures !ok ==> successes == old(successes)
      ensures calm ==> ok
      ensures ok ==>
                !failed && Opened(session, now) && disk.credential == Some(Secret(verifier, now + CREDENTIAL_SECONDS))
    {
      hide ServedOk, LiveSessions, Newest;
      mem := mem.(device := Some(DeviceRecord(q.device, q.platform, q.key, o.address)),
                  credential := Some(Secret(verifier, now + CREDENTIAL_SECONDS)), invite := None, pending := None);
      var token := NewSession(now);
      if token.None? {
        failed := true;
        return false, "";
      }
      session := token.value;
      ok := Commit();
      if ok {
        successes := successes + 1;
      }
    }

    /** exchange */
    method Exchange(q: ExchangeRequest, now: int) returns (status: nat, verifier: string, session: string)
      requires Valid()
      modifies this`mem, this`disk, this`failed, this`applied, this`gateway, this`successes
      ensures Valid()
      // The gateway lets the new device in before it hears of its lease.
      ensures status == 200 ==> applied == {q.key} && gateway == Some(q.key)
      ensures status == 200 ==>
                && old(disk).device.None? && successes == 1 && old(successes) == 0
                && disk.device == Some(DeviceRecord(q.device, q.platform, q.key, o.address)) && disk.invite.None?
      ensures status != 200 ==> successes == old(successes)
      ensures applied == old(applied) || (applied == old(applied) + {q.key} && o.validKey(q.key))
      ensures status == 200 ==> Exchangeable(old(disk), q, now)
      ensures calm && !old(failed) && Exchangeable(old(disk), q, now) ==> status == 200
      // The answer carries a credential for 30 days and a session for 15 minutes, both on disk.
      ensures status == 200 ==>
                !failed && disk.credential == Some(Secret(verifier, now + 2_592_000)) && Opened(session, now)
    {
      hide ServedOk, Lease, StateOk;
      verifier, session := *, "";
      if failed {
        return 503, verifier, session;
      }
      status := Admissible(q, now);
      if status != 200 {
        return;
      }
      var drawn := Ask();
      if !drawn {
        return 503, verifier, session;
      }
      var ok := Provision(q);
      if !ok {
        return 503, verifier, session;
      }
      ok, session := GrantLease(q, verifier, now);
      status := if ok then 200 else 503;
    }

    /** The newest stored session is this one, and it lasts for 15 minutes. */
    predicate Opened(session: string, now: int)
      reads this`disk
    {
      disk.sessions != [] && disk.sessions[|disk.sessions| - 1] == Session(session, now + 900)
    }

    predicate SessionAllowed(s: State, verifier: string, nonceOk: bool, now: int)
    {
      s.device.Some? && s.credential.Some? && s.credential.value.expires > now
        && s.credential.value.verifier == verifier && nonceOk
    }

    /** session: a live device credential opens a session. */
    method OpenSession(verifier: string, nonceOk: bool, now: int) returns (status: nat, session: string)
      requires Valid()
      modifies this`mem, this`disk, this`failed
      ensures Valid()
      ensures status == 200 ==> SessionAllowed(old(disk), verifier, nonceOk, now)
      ensures status == 200 ==>
                && disk == old(disk).(sessions := disk.sessions)
                && disk.sessions != [] && disk.sessions[|disk.sessions| - 1].expires == now + SESSION_SECONDS
      ensures disk.device == old(disk).device && disk.pending == old(disk).pending && disk.config == old(disk).config
      ensures calm && !old(failed) && SessionAllowed(old(disk), verifier, nonceOk, now) ==> status == 200
      ensures status == 200 ==> !failed && Opened(session, now)
    {
      hide ServedOk, LiveSessions, Newest;
      if failed {
        return 503, "";
      }
      if mem.device.None? || mem.credential.None? || !(mem.credential.value.expires > now)
        || mem.credential.value.verifier != verifier {
        return 401, "";
      }
      if !nonceOk {
        return 400, "";
      }
      var token := NewSession(now);
      if token.None? {
        return 503, "";
      }
      session := token.value;
      var ok := Commit();
      status := if ok then 200 else 503;
    }

    /** A live session of the one device. */
    predicate InSession(s: State, hash: string, now: int)
    {
      s.device.Some? && exists i :: 0 <= i < |s.sessions| && s.sessions[i].hash == hash && s.sessions[i].expires > now
    }

    method Authorized(hash: string, now: int) returns (ok: bool)
      ensures ok <==> InSession(mem, hash, now)
    {
      if mem.device.None? {
        return false;
      }
      for i := 0 to |mem.sessions|
        invariant forall k :: 0 <= k < i ==> !(mem.sessions[k].hash == hash && mem.sessions[k].expires > now)
      {
        if mem.sessions[i].hash == hash && mem.sessions[i].expires > now {
          return true;
        }
      }
      ok := false;
    }

    /** A new generation, on disk before anyone sees it. */
    method IssueConfig(now: int) returns (ok: bool)
      requires Valid() && !failed && mem.device.Some?
      modifies this`mem, this`disk, this`failed
      ensures Valid() && (ok ==> !failed && disk == old(disk).(config := disk.config, ack := None) && disk.config.Some?)
      ensures calm ==> ok
      ensures ok ==>
                disk.config.value.generation
                == if old(disk).config.Some? then old(disk).config.value.generation + 1 else 1
      ensures ok ==> disk.config.value.expires == now + 3600
      ensures disk.device == old(disk).device && disk.sessions == old(disk).sessions
              && disk.credential == old(disk).credential
    {
      hide ServedOk;
      var id: nat -> string := *;
      var signed := Ask();
      if !signed {
        return false;
      }
      var generation := if mem.config.Some? then mem.config.value.generation + 1 else 1;
      var c := Config(id(generation), mem.device.value.id, generation, now + CONFIG_SECONDS);
      NewGeneration(served, mem.config, c);
      mem := mem.(config := Some(c), ack := None);
      ok := Commit();
    }

    /** config: the peer is reconciled first; a new generation is on disk before it is answered. */
    method GetConfig(sessionHash: string, device: string, ownNetwork: bool, wantsV2: bool, now: int)
      returns (status: nat, config: Option<Config>)
      requires Valid()
      modifies this`mem, this`disk, this`failed, this`applied, this`gateway, this`served
      ensures Valid()
      // Whatever the gateway forgot, it lets the device in before the device gets its configuration.
      ensures status == 200 ==>
                disk.device.Some? && applied == {disk.device.value.key} && gateway == Some(disk.device.value.key)
      ensures config.Some? <==> status == 200
      ensures status == 200 ==>
                disk.config == config && served == old(served) + [config.value] && config.value.device == device
      ensures status != 200 ==> served == old(served)
      ensures status == 200 && old(disk).config.Some? ==>
                (if old(disk).config.value.expires > now + CONFIG_MARGIN then config == old(disk).config
                 else config.value.generation == old(disk).config.value.generation + 1 && disk.ack.None?)
      ensures status == 200 ==>
                InSession(old(disk), sessionHash, now) && old(disk).device.value.id == device && ownNetwork && !wantsV2
      ensures calm && !old(failed) && InSession(old(disk), sessionHash, now) && old(disk).device.value.id == device
              && ownNetwork && !wantsV2 ==>
                status == 200
      // What is answered is live for more than five minutes, and nothing else about the device changed.
      ensures status == 200 ==> !failed && config.value.expires > now + 300
      ensures disk.device == old(disk).device && disk.sessions == old(disk).sessions
              && disk.credential == old(disk).credential
    {
      hide ServedOk;
      config := None;
      if failed {
        return 503, None;
      }
      var ok := Authorized(sessionHash, now);
      if !ok {
        return 401, None;
      }
      if device != mem.device.value.id || !ownNetwork {
        return 403, None;
      }
      if wantsV2 {
        return 406, None;
      }
      ok := ApplyPeer(mem.device.value.key);
      if !ok {
        return 503, None;
      }
      if mem.config.None? || !(mem.config.value.expires > now + CONFIG_MARGIN) {
        ok := IssueConfig(now);
        if !ok {
          return 503, None;
        }
      }
      ServeCurrent(served, mem.config.value);
      served := served + [mem.config.value];
      return 200, mem.config;
    }

    /** A live session acknowledges exactly the current configuration, in time. */
    predicate Ackable(s: State, sessionHash: string, q: AckRequest, now: int)
    {
      && InSession(s, sessionHash, now) && s.config.Some? && q.timely && q.device == s.device.value.id
      && q.generation == s.config.value.generation && q.configId == s.config.value.configId
    }

    /** ack: only for the current configuration; a repeated one changes nothing. */
    method AckConfig(sessionHash: string, q: AckRequest, now: int) returns (status: nat, duplicate: bool)
      requires Valid()
      modifies this`mem, this`disk, this`failed
      ensures Valid()
      ensures status == 200 ==>
                && disk.config.Some? && disk.config == old(disk).config
                && disk.ack == Some(Ack(disk.config.value.device, disk.config.value.configId,
                  disk.config.value.generation))
                && q.configId == disk.config.value.configId && q.generation == disk.config.value.generation && q.timely
                && (duplicate <==> old(disk).ack.Some?) && (duplicate ==> disk == old(disk))
      ensures status != 200 && !failed ==> disk == old(disk)
      ensures status == 200 ==> Ackable(old(disk), sessionHash, q, now)
      ensures calm && !old(failed) && Ackable(old(disk), sessionHash, q, now) ==> status == 200
      ensures status == 200 ==> !failed
      ensures disk == old(disk).(ack := disk.ack)
    {
      hide ServedOk;
      duplicate := false;
      if failed {
        return 503, false;
      }
      var ok := Authorized(sessionHash, now);
      if !ok {
        return 401, false;
      }
      if mem.config.None? || q.generation != mem.config.value.generation || q.configId != mem.config.value.configId
         || q.device != mem.device.value.id || !q.timely {
        return 409, false;
      }
      duplicate := mem.ack.Some?;
      if !duplicate {
        mem := mem.(ack := Some(Ack(q.device, q.configId, mem.config.value.generation)));
        ok := Commit();
        if !ok {
          return 503, false;
        }
      }
      status := 200;
    }
  }

  /** A set whose members all equal one value has at most one. */
  lemma OneLease(s: Server)
    requires s.Valid()
    ensures |s.applied| <= 1
  {
    if s.applied != {} {
      var k :| k in s.applied;
      assert forall j :: j in s.applied ==> j == k;
      assert s.applied == {k};
    }
  }

  /** Without failures an invite leads all the way: the exchange is answered, its session gets a configuration and
      may acknowledge it for 15 minutes, and its credential opens another session for 30 days. */
  method WholeJoin(s: Server, q: ExchangeRequest, now: int, soon: int, later: int)
    returns (answers: seq<nat>, config: Option<Config>)
    requires s.Valid() && s.calm && !s.failed && s.Exchangeable(s.disk, q, now)
    requires now <= soon < now + 900 && soon <= later < now + 2_592_000
    modifies s
    ensures answers == [200, 200, 200, 200, 200]
    ensures config.Some? && config.value.device == q.device && config.value.expires > later
  {
    var exchanged, verifier, session := s.Exchange(q, now);
    assert s.InSession(s.disk, session, soon);
    var got;
    got, config := s.GetConfig(session, q.device, true, false, soon);
    assert s.InSession(s.disk, session, soon);
    var acked, _ := s.AckConfig(session, AckRequest(config.value.generation, config.value.configId, q.device, true),
      soon);
    var renewed;
    renewed, session := s.OpenSession(verifier, true, later);
    assert s.InSession(s.disk, session, later);
    var again;
    again, config := s.GetConfig(session, q.device, true, false, later);
    answers := [exchanged, got, acked, renewed, again];
  }

  /** Every run, across requests, failed saves, crashes and restarts: one key, one answered exchange. */
  method AnyRun(o: Options) returns (s: Server)
    ensures s.Valid() && |s.applied| <= 1 && s.successes <= 1
  {
    s := new Server(o, false);
    var steps: nat := *;
    while steps > 0
      invariant s.Valid() && fresh(s)
    {
      hide ServedOk;
      var choice: nat, now: int := *, *;
      match choice {
      case 0 => s.Restart();
      case 1 => var _ := s.Die();
      case 6 => s.GatewayReboots();
      case 2 => var q: InviteRequest := *; var _ := s.CreateInvite(q, now);
      case 3 => var q: ExchangeRequest := *; var _, _, _ := s.Exchange(q, now);
      case 4 => var v: string, b: bool := *, *; var _, _ := s.OpenSession(v, b, now);
      case 5 => var h: string, d: string, b: bool, w: bool := *, *, *, *; var _, _ := s.GetConfig(h, d, b, w, now);
      case _ => var h: string, q: AckRequest := *, *; var _, _ := s.AckConfig(h, q, now);
      }
      steps := steps - 1;
    }
    OneLease(s);
  }
}
