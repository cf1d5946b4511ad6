/**
 The path manager: one `PeerState` object per authorized peer, and the membership swap.

 Every method is one mutex-held region. `PeerState` methods are tied to the set-level session of
 `ReplayWindow` and to the path machine of `PathHealth`, whose theorems speak of whole runs.
 */
module PathManager {
  import opened Common
  import opened PathHealth
  import RW = ReplayWindow
  import Wire = PathWire

  // ---------- configuration ----------

  datatype Peer = Peer(deviceId: string, publicKey: string, address: string, localEndpoint: string)

  datatype Config = Config(
    networkId: string, deviceId: string, gatewayPublicKey: string, relayEndpoint: string, lanListen: string,
    wgEndpoint: string, iface: string, overlayCidr: string, expiresAt: int, peers: seq<Peer>)

  /** Text formats decided by library parsers. */
  datatype Formats = Formats(
    loopback: string -> bool,      // 127.0.0.1 with a non-zero port
    port: string -> nat,           // that port; several spellings of one are accepted
    publicKey: string -> bool,     // canonical base64 of 32 bytes
    derivable: string -> bool,     // agrees on a key with this device's private key (low-order points do not)
    hostPrefix: string -> bool,    // canonical single-address prefix
    prefix: string -> bool,
    listener: string -> bool)

  const MAX_PEERS := 256
  const MAX_LIFETIME := 960_000_000_000   // 16 minutes in nanoseconds
  const MAX_CANDIDATES := 32
  const MAX_DATA := 4096

  predicate PeerOk(fm: Formats, p: Peer, self: string)
  {
    && p.deviceId != "" && |p.deviceId| <= 128 && p.deviceId != self
    && fm.publicKey(p.publicKey) && fm.hostPrefix(p.address) && p.localEndpoint == ""
  }

  /** No two peers share an id, a key or an address. */
  predicate Distinct(peers: seq<Peer>)
  {
    forall i, j :: 0 <= i < j < |peers| ==>
      peers[i].deviceId != peers[j].deviceId && peers[i].publicKey != peers[j].publicKey
        && peers[i].address != peers[j].address
  }

  predicate SpecOk(fm: Formats, peers: seq<Peer>, self: string)
  {
    && 0 < |peers| <= MAX_PEERS
    && (forall i :: 0 <= i < |peers| ==> PeerOk(fm, peers[i], self))
    && Distinct(peers)
  }

  method ValidateSpec(fm: Formats, peers: seq<Peer>, self: string) returns (ok: bool)
    ensures ok <==> SpecOk(fm, peers, self)
  {
    if |peers| == 0 || |peers| > MAX_PEERS {
      return false;
    }
    var ids: set<string>, keys: set<string>, addresses: set<string> := {}, {}, {};
    for i := 0 to |peers|
      invariant ids == set k | 0 <= k < i :: peers[k].deviceId
      invariant keys == set k | 0 <= k < i :: peers[k].publicKey
      invariant addresses == set k | 0 <= k < i :: peers[k].address
      invariant forall k :: 0 <= k < i ==> PeerOk(fm, peers[k], self)
      invariant Distinct(peers[..i])
    {
      var p := peers[i];
      if p.deviceId == "" || |p.deviceId| > 128 || p.deviceId == self || p.deviceId in ids || p.publicKey in keys
        || !fm.publicKey(p.publicKey) || !fm.hostPrefix(p.address) || p.address in addresses || p.localEndpoint != "" {
        if PeerOk(fm, p, self) {
          var k :| 0 <= k < i
            && (peers[k].deviceId == p.deviceId || peers[k].publicKey == p.publicKey || peers[k].address == p.address);
          assert !Distinct(peers);
        }
        return false;
      }
      ids, keys, addresses := ids + {p.deviceId}, keys + {p.publicKey}, addresses + {p.address};
    }
    assert peers[..|peers|] == peers;
    ok := true;
  }

  function Cleared(peers: seq<Peer>): seq<Peer>
  {
    seq(|peers|, i requires 0 <= i < |peers| => peers[i].(localEndpoint := ""))
  }

  predicate EndpointsOk(fm: Formats, c: Config)
  {
    && (forall i :: 0 <= i < |c.peers| ==>
          fm.loopback(c.peers[i].localEndpoint) && c.peers[i].localEndpoint != c.relayEndpoint
            && c.peers[i].localEndpoint != c.wgEndpoint)
    && (forall i, j :: 0 <= i < j < |c.peers| ==> c.peers[i].localEndpoint != c.peers[j].localEndpoint)
  }

  predicate ConfigOk(fm: Formats, c: Config, now: int)
  {
    && c.networkId != "" && c.deviceId != "" && now < c.expiresAt <= now + MAX_LIFETIME
    && EndpointsOk(fm, c)
    && SpecOk(fm, Cleared(c.peers), c.deviceId)
    && fm.loopback(c.relayEndpoint) && fm.loopback(c.wgEndpoint) && c.relayEndpoint != c.wgEndpoint
    && fm.prefix(c.overlayCidr) && fm.listener(c.lanListen)
  }

  method ValidateConfig(fm: Formats, c: Config, now: int) returns (ok: bool)
    ensures ok <==> ConfigOk(fm, c, now)
  {
    if c.networkId == "" || c.deviceId == "" || !(c.expiresAt > now) || c.expiresAt > now + MAX_LIFETIME {
      return false;
    }
    hide SpecOk, Distinct;
    var peers := c.peers;
    var endpoints: set<string> := {};
    for i := 0 to |c.peers|
      invariant |peers| == |c.peers|
      invariant forall k :: 0 <= k < |peers| ==>
                peers[k] == if k < i then c.peers[k].(localEndpoint := "") else c.peers[k]
      invariant endpoints == set k | 0 <= k < i :: c.peers[k].localEndpoint
      invariant EndpointsOk(fm, c.(peers := c.peers[..i]))
    {
      var e := c.peers[i].localEndpoint;
      if !fm.loopback(e) || e in endpoints || e == c.relayEndpoint || e == c.wgEndpoint {
        return false;
      }
      endpoints := endpoints + {e};
      peers := peers[i := peers[i].(localEndpoint := "")];
    }
    assert c.peers[..|c.peers|] == c.peers && peers == Cleared(c.peers);
    var specOk := ValidateSpec(fm, peers, c.deviceId);
    ok := specOk && fm.loopback(c.relayEndpoint) && fm.loopback(c.wgEndpoint) && c.relayEndpoint != c.wgEndpoint
          && fm.prefix(c.overlayCidr) && fm.listener(c.lanListen);
  }

  /** A valid configuration names every device and every local endpoint once. */
  lemma ConfigIdsDistinct(fm: Formats, c: Config, now: int)
    requires ConfigOk(fm, c, now)
    ensures forall i, j :: 0 <= i < j < |c.peers| ==> c.peers[i].deviceId != c.peers[j].deviceId
  {
    forall i, j | 0 <= i < j < |c.peers| ensures c.peers[i].deviceId != c.peers[j].deviceId {
      assert Cleared(c.peers)[i].deviceId != Cleared(c.peers)[j].deviceId;
    }
  }

  // ---------- one peer ----------

  /** The network seen while a frame is handled: address syntax and on-link decisions. */
  datatype Network = Network(parse: string -> Option<Addr>, onLink: Addr -> bool)

  function OnLinkOnly(net: Network, candidates: seq<string>): seq<Addr>
  {
    if candidates == [] then []
    else
      var rest := OnLinkOnly(net, candidates[..|candidates| - 1]);
      var a := net.parse(candidates[|candidates| - 1]);
      if a.Some? && net.onLink(a.value) then rest + [a.value] else rest
  }

  /** Exactly the addresses that some text of the list names and that are on link. */
  lemma {:induction false} OnLinkExactly(net: Network, candidates: seq<string>, a: Addr)
    ensures a in OnLinkOnly(net, candidates) <==>
              (exists c :: c in candidates && net.parse(c) == Some(a)) && net.onLink(a)
  {
    if candidates != [] {
      var n := |candidates| - 1;
      OnLinkExactly(net, candidates[..n], a);
      assert candidates == candidates[..n] + [candidates[n]];
    }
  }

  datatype Effect = Nothing | Reply(nonce: string, to: Addr) | Deliver(payload: seq<Wire.byte>)

  function Arrived(f: Wire.Frame): RW.Arrival { RW.Arrival(f.typ, f.epoch, f.seqno) }

  /** What an accepted frame does to the path, by type. */
  function Handled(o: Limits, p: Path, f: Wire.Frame, source: Option<Addr>, net: Network, now: nat): Path
  {
    if f.typ == "discover" && source.None?
      && |f.candidates| <= MAX_CANDIDATES then Step(o, p, Discover(OnLinkOnly(net, f.candidates)))
    else if f.typ == "ack" then Step(o, p, Ack(f.nonce, source, now))
    else p
  }

  /** The path after one received frame: at most two events of the path machine. */
  ghost function PathAfter(o: Limits, p: Path, s: RW.Session, f: Wire.Frame, source: Option<Addr>, net: Network,
                           now: nat): Path
  {
    if !RW.Accepts(s, Arrived(f)) then p
    else Handled(o, if f.epoch != s.epoch then Step(o, p, NewEpoch) else p, f, source, net, now)
  }

  function HandledEffect(f: Wire.Frame, source: Option<Addr>): Effect
  {
    if f.typ == "probe" && source.Some? && |f.nonce| == 32 then Reply(f.nonce, source.value)
    else if f.typ == "data" && 0 < |f.payload| <= MAX_DATA then Deliver(f.payload)
    else Nothing
  }

  ghost function EffectOf(s: RW.Session, f: Wire.Frame, source: Option<Addr>): Effect
  {
    if RW.Accepts(s, Arrived(f)) then HandledEffect(f, source) else Nothing
  }

  lemma HandledParts(o: Limits, p: Path, f: Wire.Frame, source: Option<Addr>, net: Network, now: nat)
    ensures var e := HandledEffect(f, source);
            && (e.Deliver? <==> f.typ == "data" && 0 < |f.payload| <= MAX_DATA)
            && (e.Deliver? ==> e.payload == f.payload)
            && (e.Reply? <==> f.typ == "probe" && source.Some? && |f.nonce| == 32)
            && (e.Reply? ==> e.nonce == f.nonce && Some(e.to) == source)
    ensures f.typ == "discover" && source.None? && |f.candidates| <= MAX_CANDIDATES ==>
              OnLinkOf(net, f.candidates, Handled(o, p, f, source, net, now).candidates)
  {
    forall a ensures a in OnLinkOnly(net, f.candidates) <==>
                     (exists c :: c in f.candidates && net.parse(c) == Some(a)) && net.onLink(a) {
      OnLinkExactly(net, f.candidates, a);
    }
  }

  /** Exactly the addresses on link that the texts name. */
  ghost predicate OnLinkOf(net: Network, texts: seq<string>, r: seq<Addr>)
  {
    forall a :: a in r <==> (exists c :: c in texts && net.parse(c) == Some(a)) && net.onLink(a)
  }

  lemma StepNewEpoch(o: Limits, p: Path)
    ensures Step(o, p, NewEpoch) == p.(active := None, pending := map[], health := map[])
  {
  }

  class PeerState {
    const peer: Peer
    const local: nat          // the peer's loopback socket
    const sendEpoch: string
    var sendSequence: uint64
    var health: map<Addr, Health>
    var candidates: seq<Addr>
    var active: Option<Addr>
    var ack: nat
    var rtt: int
    var pending: map<Nonce, Probe>
    var epoch: string
    var high: uint64
    var bitmap: RW.Word
    var retired: set<string>
    var sent: uint64
    var received: uint64
    var reason: Reason
    ghost var seen: set<RW.Stamp>   // every (epoch, sequence) ever accepted

    ghost function Session(): RW.Session
      reads this
    {
      RW.Session(epoch, retired, seen)
    }

    ghost function State(): Path
      reads this
    {
      Path(candidates, active, ack, rtt, pending, health, reason)
    }

    ghost predicate Valid()
      reads this
    {
      RW.Valid(Session()) && RW.Represents(RW.Window(high, bitmap), Session())
    }

    constructor (peer: Peer, local: nat, sendEpoch: string)
      ensures Valid() && Session() == RW.FRESH && State() == IDLE
      ensures this.peer == peer && this.local == local && this.sendEpoch == sendEpoch
      ensures sendSequence == 0 && sent == 0 && received == 0
    {
      this.peer, this.local, this.sendEpoch := peer, local, sendEpoch;
      sendSequence, sent, received := 0, 0, 0;
      health, pending, candidates, active, ack, rtt, reason := map[], map[], [], None, 0, 0, Awaiting;
      epoch, high, bitmap, retired, seen := "", 0, RW.EmptyWord(), {}, {};
    }

    /** The next sequence number of this sending session. */
    method NextSequence() returns (n: uint64)
      modifies this`sendSequence
      ensures n == sendSequence == RW.SentSeqno(old(sendSequence))
    {
      sendSequence := if sendSequence == TWO_64 - 1 then 0 else sendSequence + 1;
      n := sendSequence;
    }

    method Accept(f: RW.Arrival) returns (ok: bool)
      requires Valid()
      modifies this`epoch, this`high, this`bitmap, this`retired, this`seen, this`active, this`pending, this`health
      ensures Valid()
      ensures ok <==> RW.Accepts(old(Session()), f)
      ensures Session() == RW.Next(old(Session()), f)
      ensures ok && f.epoch != old(epoch) ==>
                active == None && pending == map[] && health == map[]
      ensures !(ok && f.epoch != old(epoch)) ==>
                active == old(active) && pending == old(pending) && health == old(health)
    {
      ghost var s := Session();
      if |f.epoch| != RW.EPOCH_LENGTH || f.seqno == 0 {
        return false;
      }
      if f.epoch != epoch {
        if f.epoch in retired || (epoch != "" && f.typ != "discover") || |retired| >= RW.MAX_RETIRED {
          return false;
        }
        RW.EpochStarts(s, f);
        if epoch != "" {
          retired := retired + {epoch};
        }
        epoch, high, bitmap := f.epoch, 0, RW.EmptyWord();
        active, pending, health := None, map[], map[];
      }
      RW.SlideRefines(RW.Window(high, bitmap), Session(), f);
      RW.NextValid(s, f);
      ok := SlideWindow(f.seqno);
      if ok {
        seen := seen + {(f.epoch, f.seqno)};
      }
    }

    /** Moves or marks the window for a number of the current epoch. */
    method SlideWindow(n: uint64) returns (ok: bool)
      requires n != 0
      modifies this`high, this`bitmap
      ensures (ok, RW.Window(high, bitmap)) == RW.Slide(RW.Window(old(high), old(bitmap)), n)
    {
      if n > high {
        var delta := n - high;
        if delta >= RW.WIDTH {
          bitmap := RW.EmptyWord();
        } else {
          bitmap := RW.ShiftLeft(bitmap, delta);
        }
        high := n;
        bitmap := RW.SetBit(bitmap, 0);
        return true;
      }
      var delta := high - n;
      if delta >= RW.WIDTH || bitmap[delta] {
        return false;
      }
      bitmap := RW.SetBit(bitmap, delta);
      ok := true;
    }

    /** The candidates that parse and are on link, in order. */
    static method FilterCandidates(net: Network, texts: seq<string>) returns (r: seq<Addr>)
      ensures r == OnLinkOnly(net, texts)
    {
      r := [];
      for i := 0 to |texts|
        invariant r == OnLinkOnly(net, texts[..i])
      {
        assert texts[..i + 1][..i] == texts[..i];
        var a := net.parse(texts[i]);
        if a.Some? && net.onLink(a.value) {
          r := r + [a.value];
        }
      }
      assert texts[..|texts|] == texts;
    }

    static method KeepHealth(health: map<Addr, Health>, listed: seq<Addr>) returns (kept: map<Addr, Health>)
      ensures kept == map a | a in health && a in listed :: health[a]
    {
      kept := map[];
      for i := 0 to |listed|
        invariant kept == map a | a in health && a in listed[..i] :: health[a]
      {
        if listed[i] in health {
          kept := kept[listed[i] := health[listed[i]]];
        }
      }
      assert listed[..|listed|] == listed;
    }

    static method KeepPending(pending: map<Nonce, Probe>, listed: seq<Addr>) returns (keep: map<Nonce, Probe>)
      ensures keep == map n | n in pending && pending[n].addr in listed :: pending[n]
    {
      var todo := pending.Keys;
      keep := pending;
      while todo != {}
        invariant todo <= pending.Keys
        invariant keep == map n | n in pending && (n in todo || pending[n].addr in listed) :: pending[n]
      {
        var n :| n in todo;
        if pending[n].addr !in listed {
          keep := keep - {n};
        }
        todo := todo - {n};
      }
    }

    /** Candidate list from the relay: keeps only the state that belongs to listed addresses. */
    method TakeCandidates(o: Limits, listed: seq<Addr>)
      modifies this`candidates, this`health, this`pending, this`active, this`reason
      ensures State() == Step(o, old(State()), Discover(listed))
    {
      health := KeepHealth(health, listed);
      pending := KeepPending(pending, listed);
      candidates := listed;
      if active.Some? && active.value !in listed {
        active := None;
        reason := CandidateChanged;
      }
    }

    /** Acknowledgement of a probe; the nonce is consumed whatever it turns out to be. */
    method TakeAck(o: Limits, nonce: Nonce, source: Option<Addr>, now: nat)
      modifies this`pending, this`health, this`ack, this`rtt, this`active, this`reason
      ensures State() == Step(o, old(State()), PathHealth.Ack(nonce, source, now))
    {
      var known := nonce in pending;
      var probe := if known then pending[nonce] else Probe("", 0);
      pending := pending - {nonce};
      if !known || source != Some(probe.addr) || now - probe.sent > o.failureAfter {
        return;
      }
      var from := source.value;
      var h := if from in health then health[from] else Health(0, 0, 0);
      if now - h.ack > o.failureAfter {
        h := h.(success := 0);
      }
      h := Health(now, h.success + 1, now - probe.sent);
      health := health[from := h];
      if Some(from) == active {
        ack, rtt := h.ack, h.rtt;
      }
      if active.None? && h.success >= o.promoteAfter {
        active, ack, rtt, reason := Some(from), h.ack, h.rtt, Healthy;
      }
    }

    /** The switch on the type of an accepted frame. */
    method Handle(o: Limits, f: Wire.Frame, source: Option<Addr>, net: Network, now: nat) returns (effect: Effect)
      modifies this`candidates, this`health, this`pending, this`active, this`ack, this`rtt, this`reason, this`received
      ensures State() == Handled(o, old(State()), f, source, net, now)
      ensures effect == HandledEffect(f, source)
      ensures received == if f.typ == "data" then (old(received) + 1) % TWO_64 else old(received)
    {
      effect := Nothing;
      match f.typ {
        case "discover" =>
          if source.Some? || |f.candidates| > MAX_CANDIDATES {
            return;
          }
          var listed := FilterCandidates(net, f.candidates);
          TakeCandidates(o, listed);
        case "probe" =>
          if source.Some? && |f.nonce| == 32 {
            effect := Reply(f.nonce, source.value);
          }
        case "ack" =>
          TakeAck(o, f.nonce, source, now);
        case "data" =>
          received := (received + 1) % TWO_64;
          if 0 < |f.payload| <= MAX_DATA {
            effect := Deliver(f.payload);
          }
        case _ =>
      }
    }

    /** The lock region of `receive` once the frame is known to be authentic and addressed here. */
    method Receive(o: Limits, f: Wire.Frame, source: Option<Addr>, net: Network, now: nat) returns (effect: Effect)
      requires Valid()
      modifies this
      ensures Valid()
      ensures Session() == RW.Next(old(Session()), Arrived(f))
      ensures State() == PathAfter(o, old(State()), old(Session()), f, source, net, now)
      ensures effect == EffectOf(old(Session()), f, source)
      // What is handed on or answered, field by field.
      ensures effect.Deliver? <==>
                RW.Accepts(old(Session()), Arrived(f)) && f.typ == "data" && 0 < |f.payload| <= MAX_DATA
      ensures effect.Deliver? ==> effect.payload == f.payload
      ensures effect.Reply? <==>
                RW.Accepts(old(Session()), Arrived(f)) && f.typ == "probe" && source.Some? && |f.nonce| == 32
      ensures effect.Reply? ==> effect.nonce == f.nonce && Some(effect.to) == source
      // Exactly the on-link addresses of a relayed list of bounded length become the candidates.
      ensures RW.Accepts(old(Session()), Arrived(f)) && f.typ == "discover" && source.None?
              && |f.candidates| <= MAX_CANDIDATES ==>
                OnLinkOf(net, f.candidates, candidates)
      ensures received == if RW.Accepts(old(Session()), Arrived(f))
              && f.typ == "data" then (old(received) + 1) % TWO_64 else old(received)
      ensures sent == old(sent) && sendSequence == old(sendSequence)
    {
      hide RW.Valid, RW.Represents, RW.Next, RW.Accepts, Step, Handled, HandledEffect, OnLinkOf;
      ghost var p, s := State(), Session();
      var ok := Accept(Arrived(f));
      if !ok {
        return Nothing;
      }
      StepNewEpoch(o, p);
      assert State() == if f.epoch != s.epoch then Step(o, p, NewEpoch) else p;
      effect := Handle(o, f, source, net, now);
      HandledParts(o, if f.epoch != s.epoch then Step(o, p, NewEpoch) else p, f, source, net, now);
    }

    /** First region of a probe round: time out the active path, expire probes, copy candidates. */
    method ProbeTick(o: Limits, now: nat) returns (addresses: seq<Addr>)
      modifies this`active, this`reason, this`pending
      ensures State() == Step(o, old(State()), Tick(now))
      ensures addresses == old(candidates)
    {
      if active.Some? && now - ack > o.failureAfter {
        active, reason := None, TimedOut;
      }
      addresses := candidates;
      var todo, keep := pending.Keys, pending;
      while todo != {}
        invariant todo <= pending.Keys
        invariant keep == map n | n in pending && (n in todo || now - pending[n].sent <= o.failureAfter) :: pending[n]
      {
        var n :| n in todo;
        if now - pending[n].sent > o.failureAfter {
          keep := keep - {n};
        }
        todo := todo - {n};
      }
      pending := keep;
    }

    /** Later region: one probe recorded, for an address copied earlier. */
    method RecordProbe(o: Limits, nonce: Nonce, addr: Addr, now: nat)
      modifies this`pending
      ensures State() == Step(o, old(State()), Record(nonce, addr, now))
    {
      pending := pending[nonce := Probe(addr, now)];
    }
  }

  // ---------- membership ----------

  /** Loopback UDP sockets of this process, by the port each is bound to. */
  class SocketTable {
    var open: map<nat, nat>
    var next: nat
    const steady: bool        // binding fails only for a port in use

    ghost predicate Valid()
      reads this
    {
      forall s :: s in open ==> s < next
    }

    constructor (steady: bool)
      ensures Valid() && open == map[] && this.steady == steady
    {
      open, next, this.steady := map[], 0, steady;
    }

    /** Fails when the port is taken, and for any other reason the system has. */
    method Listen(port: nat) returns (s: Option<nat>)
      requires Valid()
      modifies this
      ensures Valid() && next >= old(next)
      ensures s.None? ==> open == old(open)
      ensures s.Some? ==> s.value !in old(open) && s.value < next && open == old(open)[s.value := port]
      ensures port in old(open.Values) ==> s.None?
      ensures steady && s.None? ==> port in old(open.Values)
    {
      var refused: bool := *;
      if (refused && !steady) || port in open.Values {
        return None;
      }
      s := Some(next);
      open := open[next := port];
      next := next + 1;
    }

    method Close(s: nat)
      requires Valid()
      modifies this`open
      ensures Valid() && open == old(open) - {s}
    {
      open := open - {s};
    }
  }

  datatype Refusal = Invalid | IdentityChanged | Stopped | KeyFailed | ListenFailed

  predicate SameTransport(c: Config, d: Config)
  {
    && c.networkId == d.networkId && c.deviceId == d.deviceId && c.gatewayPublicKey == d.gatewayPublicKey
    && c.relayEndpoint == d.relayEndpoint && c.lanListen == d.lanListen && c.wgEndpoint == d.wgEndpoint
    && c.iface == d.iface && c.overlayCidr == d.overlayCidr
  }

  /** The running transport is everything but the membership and its lifetime. */
  lemma SameTransportExactly(c: Config, d: Config)
    ensures SameTransport(c, d) <==> c == d.(expiresAt := c.expiresAt, peers := c.peers)
  {
  }

  datatype PeerStatus = PeerStatus(
    deviceId: string, direct: bool, endpoint: Option<Addr>, rtt: int, reason: Reason, sent: uint64, received: uint64)

  ghost predicate UniqueIds(specs: seq<Peer>)
  {
    forall i, j :: 0 <= i < j < |specs| ==> specs[i].deviceId != specs[j].deviceId
  }

  /** The table holds one state object per configured peer, with the configured spec. */
  ghost predicate Matches(table: map<string, PeerState>, specs: seq<Peer>)
  {
    && (forall i :: 0 <= i < |specs| ==> specs[i].deviceId in table && table[specs[i].deviceId].peer == specs[i])
    && (forall id :: id in table ==> exists i :: 0 <= i < |specs| && specs[i].deviceId == id)
  }

  ghost predicate OwnSockets(table: map<string, PeerState>)
  {
    forall id, other :: id in table && other in table && id != other ==> table[id].local != table[other].local
  }

  /** Every peer's socket is open, on the peer's own endpoint. */
  ghost predicate OnOwnEndpoints(fm: Formats, table: map<string, PeerState>, open: map<nat, nat>)
  {
    forall id :: id in table ==>
        table[id].local in open && open[table[id].local] == fm.port(table[id].peer.localEndpoint)
  }

  ghost function SocketsOf(table: map<string, PeerState>): set<nat>
  {
    set id | id in table :: table[id].local
  }

  class Manager {
    var cfg: Config
    var peers: map<string, PeerState>
    var expiry: int
    var running: bool
    const sockets: SocketTable
    const formats: Formats

    /** While running, the peer table, the configured list and the open sockets agree. */
    ghost predicate Valid()
      reads this, sockets
    {
      && sockets.Valid()
      && UniqueIds(cfg.peers) && Matches(peers, cfg.peers) && OwnSockets(peers)
      && sockets.open.Keys == SocketsOf(peers) && OnOwnEndpoints(formats, peers, sockets.open)
    }

    constructor (fm: Formats, table: SocketTable, c: Config)
      requires table.Valid() && table.open == map[]
      ensures Valid() && cfg == c.(peers := []) && peers == map[] && expiry == c.expiresAt && running
      ensures sockets == table && formats == fm
    {
      formats, sockets := fm, table;
      cfg, peers, expiry, running := c.(peers := []), map[], c.expiresAt, true;
    }

    /** One line of status per configured peer; no lookup can miss. */
    method Status() returns (r: seq<PeerStatus>)
      requires Valid()
      ensures |r| == |cfg.peers|
      ensures forall i :: 0 <= i < |r| ==>
                var p := peers[cfg.peers[i].deviceId];
                && r[i].deviceId == cfg.peers[i].deviceId
                && (r[i].direct <==> p.active.Some?) && r[i].endpoint == p.active
                && r[i].reason == p.reason && r[i].sent == p.sent && r[i].received == p.received
                && r[i].rtt == if p.active.Some? then p.rtt else 0
    {
      r := [];
      for i := 0 to |cfg.peers|
        invariant |r| == i
        invariant forall k :: 0 <= k < i ==>
                    var p := peers[cfg.peers[k].deviceId];
                    && r[k].deviceId == cfg.peers[k].deviceId
                    && (r[k].direct <==> p.active.Some?) && r[k].endpoint == p.active
                    && r[k].reason == p.reason && r[k].sent == p.sent && r[k].received == p.received
                    && r[k].rtt == if p.active.Some? then p.rtt else 0
      {
        var p := peers[cfg.peers[i].deviceId];
        var line := PeerStatus(p.peer.deviceId, false, None, 0, p.reason, p.sent, p.received);
        if p.active.Some? {
          line := line.(direct := true, endpoint := p.active, rtt := p.rtt);
        }
        r := r + [line];
      }
    }

    /** Handles a frame for the peer object looked up earlier; an object that has been replaced
        since, a frame for another network or device, a frame without valid authentication, an
        expired grant and an off-link source all change nothing. */
    method Receive(o: Limits, p: PeerState, f: Wire.Frame, authentic: bool, source: Option<Addr>, net: Network,
                   now: nat)
      returns (effect: Effect)
      requires p.Valid()
      modifies p
      ensures p.Valid()
      ensures var handled := f.from in peers && peers[f.from] == p && f.network == cfg.networkId && f.to == cfg.deviceId
                             && authentic && now < expiry && (source.Some? ==> net.onLink(source.value));
              if handled then
                && effect == EffectOf(old(p.Session()), f, source)
                && p.Session() == RW.Next(old(p.Session()), Arrived(f))
                && p.State() == PathAfter(o, old(p.State()), old(p.Session()), f, source, net, now)
              else
                effect == Nothing && p.Session() == old(p.Session()) && p.State() == old(p.State())
    {
      if f.network != cfg.networkId || f.to != cfg.deviceId || !authentic || now >= expiry {
        return Nothing;
      }
      if source.Some? && !net.onLink(source.value) {
        return Nothing;
      }
      if f.from !in peers || peers[f.from] != p {
        return Nothing;
      }
      effect := p.Receive(o, f, source, net, now);
    }

    /** Closes the sockets of peers created by an abandoned reconfiguration. */
    method CloseCreated(created: seq<PeerState>)
      requires sockets.Valid()
      modifies sockets
      ensures sockets.Valid()
      ensures sockets.open == old(sockets.open) - LocalsOf(created)
    {
      for i := 0 to |created|
        invariant sockets.Valid()
        invariant sockets.open == old(sockets.open) - LocalsOf(created[..i])
      {
        assert LocalsOf(created[..i + 1]) == LocalsOf(created[..i]) + {created[i].local};
        sockets.Close(created[i].local);
      }
      assert created[..|created|] == created;
    }

    /** Closes the sockets of peers that are not carried over into `next`. */
    method CloseRemoved(next: map<string, PeerState>)
      requires sockets.Valid()
      modifies sockets
      ensures sockets.Valid()
      ensures sockets.open == old(sockets.open) - Removed(next)
    {
      var todo := peers.Keys;
      while todo != {}
        invariant todo <= peers.Keys && sockets.Valid()
        invariant sockets.open == old(sockets.open) - (set id | id in peers.Keys - todo
                  && (id !in next || next[id] != peers[id]) :: peers[id].local)
      {
        var id :| id in todo;
        if id !in next || next[id] != peers[id] {
          sockets.Close(peers[id].local);
        }
        todo := todo - {id};
      }
    }

    predicate Unchanged(spec: Peer)
      reads this
    {
      spec.deviceId in peers && peers[spec.deviceId].peer == spec
    }

    /** A table under construction: unchanged specs keep their object, others have a created one,
        each created one with a socket of its own. */
    ghost predicate Partial(next: map<string, PeerState>, created: seq<PeerState>, specs: seq<Peer>, before: map<nat,
                            nat>)
      reads this
    {
      && Matches(next, specs)
      && (forall i :: 0 <= i < |specs| ==>
            (Unchanged(specs[i]) ==> next[specs[i].deviceId] == peers[specs[i].deviceId]) &&
            (!Unchanged(specs[i]) ==> next[specs[i].deviceId] in created))
      && (forall k :: 0 <= k < |created| ==>
            created[k].local !in before && created[k].peer.deviceId in next
              && next[created[k].peer.deviceId] == created[k])
      && (forall j, k :: 0 <= j < k < |created| ==> created[j].local != created[k].local)
    }

    static ghost predicate Pristine(p: PeerState)
      reads p
    {
      p.Valid() && p.State() == IDLE && p.Session() == RW.FRESH && p.sendSequence == 0
    }

    lemma PartialInherit(next: map<string, PeerState>, created: seq<PeerState>, specs: seq<Peer>, before: map<nat,
                         nat>, spec: Peer)
      requires Partial(next, created, specs, before) && UniqueIds(specs + [spec]) && Unchanged(spec)
      ensures Partial(next[spec.deviceId := peers[spec.deviceId]], created, specs + [spec], before)
    {
      FreshId(next, specs, spec, peers[spec.deviceId]);
    }

    lemma PartialCreate(next: map<string, PeerState>, created: seq<PeerState>, specs: seq<Peer>, before: map<nat, nat>,
                        spec: Peer, p: PeerState)
      requires Partial(next, created, specs, before) && UniqueIds(specs + [spec]) && !Unchanged(spec)
      requires p.peer == spec && p.local !in before && forall k :: 0 <= k < |created| ==> created[k].local != p.local
      ensures Partial(next[spec.deviceId := p], created + [p], specs + [spec], before)
    {
      FreshId(next, specs, spec, p);
      assert (created + [p])[|created|] == p;
    }

    lemma FreshId(next: map<string, PeerState>, specs: seq<Peer>, spec: Peer, p: PeerState)
      requires Matches(next, specs) && UniqueIds(specs + [spec]) && p.peer == spec
      ensures spec.deviceId !in next
      ensures Matches(next[spec.deviceId := p], specs + [spec])
    {
      var all := specs + [spec];
      assert all[|specs|] == spec;
      assert forall i :: 0 <= i < |specs| ==> all[i] == specs[i] && specs[i].deviceId != spec.deviceId;
    }

    lemma PartialOwnsSockets(next: map<string, PeerState>, created: seq<PeerState>, specs: seq<Peer>, before: map<nat,
                             nat>)
      requires OwnSockets(peers) && before.Keys == SocketsOf(peers) && Partial(next, created, specs, before)
      requires Matches(peers, cfg.peers)
      ensures OwnSockets(next)
    {
      forall id, other | id in next && other in next && id != other ensures next[id].local != next[other].local {
        var i :| 0 <= i < |specs| && specs[i].deviceId == id;
        var j :| 0 <= j < |specs| && specs[j].deviceId == other;
        assert next[id].peer.deviceId == id && next[other].peer.deviceId == other;
      }
    }

    ghost function Removed(next: map<string, PeerState>): set<nat>
      reads this
    {
      set id | id in peers && (id !in next || next[id] != peers[id]) :: peers[id].local
    }

    /** What remains open once the sockets of dropped peers are closed. */
    lemma SocketsAreNext(next: map<string, PeerState>, created: seq<PeerState>, specs: seq<Peer>, before: map<nat,
                         nat>, after: map<nat, nat>)
      requires OwnSockets(peers) && before.Keys == SocketsOf(peers) && Partial(next, created, specs, before)
      requires Matches(peers, cfg.peers)
      requires after.Keys == before.Keys + LocalsOf(created) - Removed(next)
      ensures after.Keys == SocketsOf(next)
    {
      forall s | s in SocketsOf(next) ensures s in after.Keys {
        var id :| id in next && next[id].local == s;
        var i :| 0 <= i < |specs| && specs[i].deviceId == id;
        if Unchanged(specs[i]) {
          assert s in before.Keys;
        } else {
          assert s in LocalsOf(created);
        }
      }
      forall s | s in after.Keys ensures s in SocketsOf(next) {
        if s in before.Keys {
          var id :| id in peers && peers[id].local == s;
          assert id in next && next[id] == peers[id];
        }
      }
    }

    /** A state object with a fresh socket, or the reason why there is none. */
    method CreatePeer(spec: Peer) returns (p: PeerState?, refusal: Option<Refusal>)
      requires sockets.Valid()
      modifies sockets
      ensures sockets.Valid()
      ensures p == null ==> refusal in {Some(KeyFailed), Some(ListenFailed)} && sockets.open == old(sockets.open)
      ensures p != null ==>
                && refusal.None? && fresh(p) && Pristine(p) && p.peer == spec
                && p.local !in old(sockets.open) && sockets.open == old(sockets.open)[p.local := PortOf(spec)]
      ensures refusal == Some(KeyFailed) <==> !formats.derivable(spec.publicKey)
      ensures p == null && sockets.steady && formats.derivable(spec.publicKey) ==>
                PortOf(spec) in old(sockets.open.Values)
      ensures PortOf(spec) in old(sockets.open.Values) ==> p == null
    {
      if !formats.derivable(spec.publicKey) {
        return null, Some(KeyFailed);
      }
      var socket := sockets.Listen(PortOf(spec));
      if socket.None? {
        return null, Some(ListenFailed);
      }
      var epoch: string := *;
      p := new PeerState(spec, socket.value, epoch);
      refusal := None;
    }

    static ghost function LocalsOf(created: seq<PeerState>): set<nat>
    {
      set k | 0 <= k < |created| :: created[k].local
    }

    static lemma LocalsExtend(created: seq<PeerState>, p: PeerState)
      ensures LocalsOf(created + [p]) == LocalsOf(created) + {p.local}
    {
      var all := created + [p];
      assert all[|created|] == p && forall k :: 0 <= k < |created| ==> all[k] == created[k];
      forall x | x in LocalsOf(created) + {p.local} ensures x in LocalsOf(all) {
        if x == p.local {
          assert all[|created|].local == x;
        } else {
          var k :| 0 <= k < |created| && created[k].local == x;
          assert all[k].local == x;
        }
      }
    }

    /** The sockets before, plus one for each created object. */
    ghost predicate Grown(before: map<nat, nat>, created: seq<PeerState>)
      reads sockets
    {
      && sockets.Valid()
      && sockets.open.Keys == before.Keys + LocalsOf(created)
      && sockets.open - LocalsOf(created) == before
      && CreatedOnOwn(created, sockets.open)
    }

    ghost predicate CreatedOnOwn(created: seq<PeerState>, open: map<nat, nat>)
    {
      forall k :: 0 <= k < |created| ==> created[k].local in open && open[created[k].local] == PortOf(created[k].peer)
    }

    static lemma OneMoreSocket(open: map<nat, nat>, s: nat, port: nat)
      requires s !in open
      ensures open[s := port].Values == open.Values + {port}
    {
      var next := open[s := port];
      forall v | v in open.Values + {port} ensures v in next.Values {
        if v == port {
          assert next[s] == v;
        } else {
          var k :| k in open && open[k] == v;
          assert next[k] == v;
        }
      }
    }

    function PortOf(spec: Peer): nat
    {
      formats.port(spec.localEndpoint)
    }

    /** A new peer that cannot be set up: no key agreement, or a port that some open socket has. */
    predicate Blocked(spec: Peer, open: map<nat, nat>)
      reads this
    {
      !Unchanged(spec) && (!formats.derivable(spec.publicKey) || PortOf(spec) in open.Values)
    }

    predicate Obstructed(specs: seq<Peer>, open: map<nat, nat>)
      reads this
    {
      || (exists i :: 0 <= i < |specs| && Blocked(specs[i], open))
      || (exists i, j :: 0 <= i < j < |specs| && Doubled(specs[i], specs[j]))
    }

    /** Two new peers on one port; their endpoints are different texts in a valid configuration. */
    predicate Doubled(spec: Peer, other: Peer)
      reads this
    {
      !Unchanged(spec) && !Unchanged(other) && PortOf(spec) == PortOf(other)
    }

    /** One round of the loop: carry the object over, or create one. */
    method AddPeer(next: map<string, PeerState>, created: seq<PeerState>, specs: seq<Peer>, ghost before: map<nat,
                   nat>, spec: Peer)
      returns (next': map<string, PeerState>, created': seq<PeerState>, refusal: Option<Refusal>)
      requires Grown(before, created) && Partial(next, created, specs, before) && UniqueIds(specs + [spec])
      modifies sockets
      ensures Grown(before, created')
      ensures || created' == created
              || (|created'| == |created| + 1 && created'[..|created|] == created
                  && fresh(created'[|created|]) && Pristine(created'[|created|]))
      ensures refusal in {None, Some(KeyFailed), Some(ListenFailed)}
      ensures refusal.None? ==> Partial(next', created', specs + [spec], before)
      ensures refusal.None? ==>
                sockets.open.Values == old(sockets.open.Values) + if Unchanged(spec) then {} else {PortOf(spec)}
      ensures old(Blocked(spec, sockets.open)) ==> refusal.Some?
      ensures refusal.Some? && sockets.steady ==> old(Blocked(spec, sockets.open))
    {
      hide Partial, Pristine, LocalsOf;
      next', created', refusal := next, created, None;
      if Unchanged(spec) {
        PartialInherit(next, created, specs, before, spec);
        next' := next[spec.deviceId := peers[spec.deviceId]];
        return;
      }
      var p;
      p, refusal := CreatePeer(spec);
      if p == null {
        return;
      }
      OneMoreSocket(old(sockets.open), p.local, PortOf(spec));
      GrownByOne(before, created, old(sockets.open), p);
      PartialCreate(next, created, specs, before, spec, p);
      created' := created + [p];
      next' := next[spec.deviceId := p];
    }

    /** A socket that was not open belongs to nothing created before. */
    lemma GrownByOne(before: map<nat, nat>, created: seq<PeerState>, open: map<nat, nat>, p: PeerState)
      requires open.Keys == before.Keys + LocalsOf(created) && open - LocalsOf(created) == before && p.local !in open
      requires CreatedOnOwn(created, open)
      ensures p.local !in before && forall k :: 0 <= k < |created| ==> created[k].local != p.local
      ensures var next := open[p.local := PortOf(p.peer)];
              && next.Keys == before.Keys + LocalsOf(created + [p]) && next - LocalsOf(created + [p]) == before
              && CreatedOnOwn(created + [p], next)
    {
      LocalsExtend(created, p);
      assert forall k :: 0 <= k < |created| ==> created[k].local in LocalsOf(created);
    }

    lemma NothingBuilt()
      requires sockets.Valid()
      ensures Grown(sockets.open, []) && Partial(map[], [], [], sockets.open)
    {
      assert sockets.open - {} == sockets.open;
    }

    static lemma IdsExtend(specs: seq<Peer>, i: nat)
      requires i < |specs| && UniqueIds(specs)
      ensures specs[..i + 1] == specs[..i] + [specs[i]] && UniqueIds(specs[..i] + [specs[i]])
    {
    }

    method BuildNext(c: Config)
      returns (next: map<string, PeerState>, created: seq<PeerState>, refusal: Option<Refusal>)
      requires sockets.Valid() && UniqueIds(c.peers)
      modifies sockets
      ensures Grown(old(sockets.open), created)
      ensures refusal in {None, Some(KeyFailed), Some(ListenFailed)}
      ensures forall k :: 0 <= k < |created| ==> fresh(created[k]) && Pristine(created[k])
      ensures refusal.None? ==> Partial(next, created, c.peers, old(sockets.open))
      ensures refusal.None? ==> !Obstructed(c.peers, old(sockets.open))
      ensures sockets.steady && refusal.Some? ==> Obstructed(c.peers, old(sockets.open))
    {
      hide Partial, Grown, Pristine, Unchanged, Blocked, Obstructed, Clear, Earlier;
      next, created, refusal := map[], [], None;
      NothingEarlier(c.peers, sockets.open);
      NothingBuilt();
      for i := 0 to |c.peers|
        invariant Grown(old(sockets.open), created)
        invariant forall k :: 0 <= k < |created| ==> fresh(created[k]) && Pristine(created[k])
        invariant refusal.None? && Partial(next, created, c.peers[..i], old(sockets.open))
        invariant sockets.open.Values == old(sockets.open.Values) + Earlier(c.peers, i)
                  && Clear(c.peers, i, old(sockets.open))
      {
        IdsExtend(c.peers, i);
        ghost var open := sockets.open;
        next, created, refusal := AddPeer(next, created, c.peers[..i], old(sockets.open), c.peers[i]);
        if refusal.Some? {
          if sockets.steady {
            BlockedIsObstructed(c.peers, i, old(sockets.open), open);
          }
          return;
        }
        ClearGrows(c.peers, i, old(sockets.open), open);
      }
      ClearIsUnobstructed(c.peers, old(sockets.open));
      assert c.peers[..|c.peers|] == c.peers;
    }

    /** The ports of the new peers among the first i. */
    ghost function Earlier(specs: seq<Peer>, i: nat): set<nat>
      reads this
      requires i <= |specs|
    {
      set k | 0 <= k < i && !Unchanged(specs[k]) :: PortOf(specs[k])
    }

    /** None of the first i peers is in the way of the others, or stopped by a socket that is open. */
    ghost predicate Clear(specs: seq<Peer>, i: nat, open: map<nat, nat>)
      requires i <= |specs|
      reads this
    {
      && (forall k :: 0 <= k < i ==> !Blocked(specs[k], open))
      && (forall j, k :: 0 <= j < k < i ==> !Doubled(specs[j], specs[k]))
    }

    lemma NothingEarlier(specs: seq<Peer>, open: map<nat, nat>)
      ensures Earlier(specs, 0) == {} && Clear(specs, 0, open)
    {
    }

    lemma ClearGrows(specs: seq<Peer>, i: nat, before: map<nat, nat>, open: map<nat, nat>)
      requires i < |specs| && Clear(specs, i, before) && open.Values == before.Values + Earlier(specs, i)
               && !Blocked(specs[i], open)
      ensures Clear(specs, i + 1, before)
      ensures Earlier(specs, i + 1) == Earlier(specs, i) + if Unchanged(specs[i]) then {} else {PortOf(specs[i])}
    {
    }

    lemma BlockedIsObstructed(specs: seq<Peer>, i: nat, before: map<nat, nat>, open: map<nat, nat>)
      requires i < |specs| && open.Values == before.Values + Earlier(specs, i) && Blocked(specs[i], open)
      ensures Obstructed(specs, before)
    {
      if !Blocked(specs[i], before) {
        var k :| 0 <= k < i && !Unchanged(specs[k]) && PortOf(specs[k]) == PortOf(specs[i]);
        assert Doubled(specs[k], specs[i]);
      }
    }

    lemma ClearIsUnobstructed(specs: seq<Peer>, open: map<nat, nat>)
      requires Clear(specs, |specs|, open)
      ensures !Obstructed(specs, open)
    {
    }

    /** The keys of a finished table are the configured ids. */
    lemma NextKeys(next: map<string, PeerState>, specs: seq<Peer>)
      requires Matches(next, specs)
      ensures next.Keys == set i | 0 <= i < |specs| :: specs[i].deviceId
    {
    }

    lemma PartialMatches(next: map<string, PeerState>, created: seq<PeerState>, specs: seq<Peer>, before: map<nat, nat>)
      requires Partial(next, created, specs, before)
      ensures Matches(next, specs)
    {
    }

    /** Kept sockets and new ones stay on the endpoints of their peers. */
    lemma EndpointsAreNext(next: map<string, PeerState>, created: seq<PeerState>, specs: seq<Peer>, before: map<nat,
                           nat>,
                           grown: map<nat, nat>, after: map<nat, nat>)
      requires Partial(next, created, specs, before) && OnOwnEndpoints(formats, peers, before)
      requires CreatedOnOwn(created, grown) && grown - LocalsOf(created) == before
      requires after == grown - Removed(next) && after.Keys == SocketsOf(next)
      ensures OnOwnEndpoints(formats, next, after)
    {
      forall id | id in next ensures next[id].local in after && after[next[id].local] == PortOf(next[id].peer) {
        assert next[id].local in SocketsOf(next);
        var i :| 0 <= i < |specs| && specs[i].deviceId == id;
        if Unchanged(specs[i]) {
          assert next[id].local in before;
          assert before[next[id].local] == grown[next[id].local];
        }
      }
    }

    /** The swap itself: dropped peers lose their sockets, then table, list and expiry change together. */
    method Swap(c: Config, next: map<string, PeerState>, created: seq<PeerState>, ghost before: map<nat, nat>)
      requires OwnSockets(peers) && before.Keys == SocketsOf(peers) && Matches(peers, cfg.peers)
               && OnOwnEndpoints(formats, peers, before)
      requires Grown(before, created) && Partial(next, created, c.peers, before) && UniqueIds(c.peers)
      modifies this`cfg, this`peers, this`expiry, sockets
      ensures Valid() && peers == next && cfg == old(cfg).(peers := c.peers) && expiry == c.expiresAt
    {
      hide Partial, OwnSockets, Matches;
      PartialOwnsSockets(next, created, c.peers, before);
      ghost var grown := sockets.open;
      CloseRemoved(next);
      SocketsAreNext(next, created, c.peers, before, sockets.open);
      EndpointsAreNext(next, created, c.peers, before, grown, sockets.open);
      PartialMatches(next, created, c.peers, before);
      peers := next;
      cfg := cfg.(peers := c.peers);
      expiry := c.expiresAt;
    }

    /** Membership swap: all or nothing, live peers keep their state object, and the open sockets
        are exactly those of the current peers. */
    method Reconfigure(c: Config, now: int) returns (refusal: Option<Refusal>)
      requires Valid()
      modifies this`cfg, this`peers, this`expiry, sockets
      ensures Valid()
      ensures refusal == Some(Invalid) <==> !ConfigOk(formats, c, now)
      ensures refusal == Some(IdentityChanged) <==> ConfigOk(formats, c, now) && !SameTransport(c, old(cfg))
      ensures refusal == Some(Stopped) <==> ConfigOk(formats, c, now) && SameTransport(c, old(cfg)) && !running
      // When binding fails only for busy ports: refused exactly when a new peer has no derivable key, or wants a
      // port that is still bound, be it a removed peer's, or that another new peer wants in another spelling.
      ensures sockets.steady && ConfigOk(formats, c, now) && SameTransport(c, old(cfg)) && running ==>
                (refusal.None? <==> !old(Obstructed(c.peers, sockets.open)))
      ensures refusal.Some? ==>
                && cfg == old(cfg) && peers == old(peers) && expiry == old(expiry)
                && sockets.open == old(sockets.open)
      ensures refusal.None? ==>
                && cfg == old(cfg).(peers := c.peers) && expiry == c.expiresAt
                && peers.Keys == (set i | 0 <= i < |c.peers| :: c.peers[i].deviceId)
                && forall i :: 0 <= i < |c.peers| ==>
                     var id := c.peers[i].deviceId;
                     && peers[id].peer == c.peers[i]
                     && if id in old(peers) && old(peers)[id].peer == c.peers[i] then peers[id] == old(peers)[id]
                        else fresh(peers[id]) && Pristine(peers[id])
    {
      hide ConfigOk, SameTransport, OwnSockets, Grown, Obstructed;
      var ok := ValidateConfig(formats, c, now);
      if !ok {
        return Some(Invalid);
      }
      if !SameTransport(c, cfg) {
        return Some(IdentityChanged);
      }
      if !running {
        return Some(Stopped);
      }
      ConfigIdsDistinct(formats, c, now);
      ghost var before := sockets.open;
      var next, created;
      next, created, refusal := BuildNext(c);
      if refusal.Some? {
        GrownBack(before, created);
        CloseCreated(created);
        return;
      }
      NextKeys(next, c.peers);
      Swap(c, next, created, before);
    }

    lemma GrownBack(before: map<nat, nat>, created: seq<PeerState>)
      requires Grown(before, created)
      ensures sockets.Valid() && sockets.open - LocalsOf(created) == before
    {
    }
  }

  /** A configuration with one peer on one endpoint, valid for every parser that takes everything. */
  function Single(id: string, key: string): Config
  {
    Config("n", "d", "g", "r", "l", "w", "i", "c", 1, [Peer(id, key, "a", "e")])
  }

  lemma SingleOk(fm: Formats, id: string, key: string)
    requires forall s: string :: fm.loopback(s) && fm.publicKey(s) && fm.hostPrefix(s) && fm.prefix(s) && fm.listener(s)
    requires id in {"p", "q"}
    ensures ConfigOk(fm, Single(id, key), 0)
  {
    var c := Single(id, key);
    assert Cleared(c.peers) == [Peer(id, key, "a", "")];
  }

  /** A witness: with sockets that never fail otherwise, the configuration with peer "p" is taken, and
      the one that replaces it by peer "q" on the same endpoint is refused, although it is as valid. */
  method TakeOverRefused() returns (first: Option<Refusal>, second: Option<Refusal>)
    ensures first.None? && second.Some?
  {
    var all: string -> bool := _ => true;
    var fm := Formats(all, _ => 1, all, all, all, all, all);
    var table := new SocketTable(true);
    SingleOk(fm, "p", "k");
    SingleOk(fm, "q", "k");
    var m := new Manager(fm, table, Single("p", "k"));
    first := m.Reconfigure(Single("p", "k"), 0);
    EndpointTaken(m, "k");
    second := m.Reconfigure(Single("q", "k"), 0);
  }

  lemma EndpointTaken(m: Manager, key: string)
    requires m.Valid() && m.cfg.peers == Single("p", key).peers
    ensures m.Obstructed(Single("q", key).peers, m.sockets.open)
  {
    var p, q := m.cfg.peers[0], Single("q", key).peers[0];
    assert p.deviceId in m.peers && m.peers[p.deviceId].peer == p;
    assert m.sockets.open[m.peers[p.deviceId].local] == m.PortOf(q);
    assert "p"[0] != "q"[0];
    assert m.Blocked(q, m.sockets.open);
    assert Single("q", key).peers[0] == q;
  }

  /** Two peers on one port, in two spellings. */
  function Pair(): Config
  {
    Single("p", "k").(peers := [Peer("p", "k", "a", "127.0.0.1:8080"), Peer("q", "l", "b", "127.0.0.1:08080")])
  }

  lemma PairOk(fm: Formats)
    requires forall s: string :: fm.loopback(s) && fm.publicKey(s) && fm.hostPrefix(s) && fm.prefix(s) && fm.listener(s)
    ensures ConfigOk(fm, Pair(), 0)
  {
    var ps := Pair().peers;
    assert ps[0].localEndpoint[10] != ps[1].localEndpoint[10];
    assert Cleared(ps) == [Peer("p", "k", "a", ""), Peer("q", "l", "b", "")];
    assert "p"[0] != "q"[0] && "k"[0] != "l"[0] && "a"[0] != "b"[0];
  }

  /** A witness: endpoints are compared as texts when a configuration is validated and by port when sockets
      are bound, so a valid configuration can stand in its own way. */
  method SpellingsClash() returns (refusal: Option<Refusal>)
    ensures refusal.Some?
  {
    var all: string -> bool := _ => true;
    var fm := Formats(all, _ => 8080, all, all, all, all, all);
    var table := new SocketTable(true);
    PairOk(fm);
    var m := new Manager(fm, table, Pair());
    assert m.Doubled(Pair().peers[0], Pair().peers[1]);
    refusal := m.Reconfigure(Pair(), 0);
  }
}
