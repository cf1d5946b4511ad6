/**
 Whole runs of the path manager's objects: received frames, probe rounds and reconfigurations in any order.
 The runs of `PathHealth` and the histories of `ReplayWindow` are those of the objects.
 */
module PeerRuns {
  import opened Common
  import opened PathHealth
  import opened PathManager
  import RW = ReplayWindow
  import Wire = PathWire

  /** What an object has been through: the events of its path, and the frames it was handed. */
  datatype Trace = Trace(run: seq<Event>, arrivals: seq<RW.Arrival>)

  /** The object is where its trace leads. */
  ghost predicate Follows(o: Limits, p: PeerState, t: Trace)
    reads p
  {
    p.Valid() && p.State() == After(o, t.run, |t.run|) && p.Session() == RW.After(t.arrivals, |t.arrivals|)
  }

  /** No event lies after `now`, and time never ran backwards. */
  ghost predicate Upto(t: Trace, now: nat)
  {
    Monotone(t.run) && Clock(t.run, |t.run|) <= now
  }

  lemma Longer(o: Limits, run: seq<Event>, more: seq<Event>, n: nat)
    requires n <= |run|
    ensures After(o, run + more, n) == After(o, run, n) && Clock(run + more, n) == Clock(run, n)
  {
    if n != 0 {
      Longer(o, run, more, n - 1);
      assert (run + more)[n - 1] == run[n - 1];
    }
  }

  lemma Appended(o: Limits, run: seq<Event>, e: Event, now: nat)
    requires Monotone(run) && Clock(run, |run|) <= now && TimeOf(e, now) == now
    ensures After(o, run + [e], |run| + 1) == Step(o, After(o, run, |run|), e)
    ensures Monotone(run + [e]) && Clock(run + [e], |run| + 1) <= now
  {
    forall n | 0 <= n <= |run|
      ensures After(o, run + [e], n) == After(o, run, n) && Clock(run + [e], n) == Clock(run, n)
    {
      Longer(o, run, [e], n);
    }
  }

  lemma LongerArrivals(arrivals: seq<RW.Arrival>, f: RW.Arrival, n: nat)
    requires n <= |arrivals|
    ensures RW.After(arrivals + [f], n) == RW.After(arrivals, n)
  {
    if n != 0 {
      LongerArrivals(arrivals, f, n - 1);
      assert (arrivals + [f])[n - 1] == arrivals[n - 1];
    }
  }

  /** The events of the path that one frame amounts to. */
  ghost function EventsOf(s: RW.Session, f: Wire.Frame, source: Option<Addr>, net: Network, now: nat): seq<Event>
  {
    if !RW.Accepts(s, Arrived(f)) then []
    else
      (if f.epoch != s.epoch then [NewEpoch] else [])
      + (if f.typ == "discover" && source.None?
        && |f.candidates| <= MAX_CANDIDATES then [Discover(OnLinkOnly(net, f.candidates))]
         else if f.typ == "ack" then [Ack(f.nonce, source, now)]
         else [])
  }

  function Fold(o: Limits, p: Path, es: seq<Event>): Path
  {
    if es == [] then p else Step(o, Fold(o, p, es[..|es| - 1]), es[|es| - 1])
  }

  lemma FoldOne(o: Limits, p: Path, e: Event)
    ensures Fold(o, p, [e]) == Step(o, p, e)
  {
    assert [e][..0] == [];
  }

  lemma {:induction false} AppendedAll(o: Limits, run: seq<Event>, es: seq<Event>, now: nat)
    requires Monotone(run) && Clock(run, |run|) <= now && forall e :: e in es ==> TimeOf(e, now) == now
    ensures After(o, run + es, |run| + |es|) == Fold(o, After(o, run, |run|), es)
    ensures es != [] ==> After(o, run + es, |run| + |es| - 1) == Fold(o, After(o, run, |run|), es[..|es| - 1])
    ensures Monotone(run + es) && Clock(run + es, |run| + |es|) <= now
  {
    hide Step, Monotone, Clock, After;
    if es == [] {
      assert run + es == run;
    } else {
      var first, last := es[..|es| - 1], es[|es| - 1];
      AppendedAll(o, run, first, now);
      Appended(o, run + first, last, now);
      Longer(o, run + first, [last], |run| + |first|);
      assert run + es == run + first + [last];
    }
  }

  /** What these events do to the path is what the frame does; only the last can make an address active. */
  lemma FoldEvents(o: Limits, p: Path, s: RW.Session, f: Wire.Frame, source: Option<Addr>, net: Network, now: nat)
    ensures var es := EventsOf(s, f, source, net, now);
            && (forall e :: e in es ==> TimeOf(e, now) == now)
            && PathAfter(o, p, s, f, source, net, now) == Fold(o, p, es)
            && (es != [] ==> Fold(o, p, es[..|es| - 1]).active in {p.active, None})
  {
    StepNewEpoch(o, p);
    hide Step, RW.Accepts;
    var es := EventsOf(s, f, source, net, now);
    if |es| == 2 {
      FoldOne(o, p, es[0]);
      assert es[..1] == [es[0]];
    } else if |es| == 1 {
      FoldOne(o, p, es[0]);
      assert es[..0] == [] && es == [es[0]];
    }
  }

  // ---------- one call on one object ----------

  /** The last event of the run made `a` active, and it had to: the probes that were consumed for it, and enough
      of them since any time it was dropped before. */
  ghost predicate Justified(o: Limits, run: seq<Event>, a: Addr)
  {
    && |run| > 0
    && Proven(o, run, |run| - 1, a)
    && (forall m :: 0 <= m < |run| - 1 && DroppedAt(o, run, m, a) ==> ProvenSince(o, run, m, |run| - 1, a))
  }

  ghost predicate Proven(o: Limits, run: seq<Event>, n: nat, a: Addr)
    requires n < |run|
  {
    exists acks, probes :: Evidence(o, run, n, a, acks, probes)
  }

  ghost predicate ProvenSince(o: Limits, run: seq<Event>, m: nat, n: nat, a: Addr)
    requires n < |run|
  {
    exists c :: FreshEvidence(o, run, m, n, CreditedSet(o, run, a), c)
  }

  lemma PromotionJustified(o: Limits, run: seq<Event>, a: Addr)
    requires |run| > 0 && Monotone(run) && PromotedAt(o, run, |run| - 1, a)
    ensures Justified(o, run, a)
  {
    hide Evidence, FreshEvidence, DroppedAt, PromotedAt, Monotone;
    PromotionEvidence(o, run, |run| - 1, a);
    forall m | 0 <= m < |run| - 1 && DroppedAt(o, run, m, a)
      ensures ProvenSince(o, run, m, |run| - 1, a)
    {
      Hysteresis(o, run, m, |run| - 1, a);
    }
  }

  lemma ActivatedIsPromoted(o: Limits, run: seq<Event>, before: Option<Addr>, after: Option<Addr>)
    requires |run| > 0 && After(o, run, |run|).active == after && After(o, run, |run| - 1).active in {before, None}
    requires after.Some? && after != before
    ensures PromotedAt(o, run, |run| - 1, after.value)
  {
  }

  /** PromoteAfter probes in a row, answered in time, the last by event n. */
  ghost predicate Suffices(o: Limits, run: seq<Event>, n: nat, a: Addr)
    requires n < |run|
  {
    exists acks :: Enough(o, run, n, a, acks)
  }

  /** Every answer to a probe of a came too long before the last event. */
  ghost predicate AllTooOld(o: Limits, run: seq<Event>, a: Addr)
    requires run != [] && run[|run| - 1].Tick?
  {
    forall m: nat :: m < |run| - 1 && run[m].Ack? && Credited(o, run, m, a) ==>
      run[|run| - 1].now - run[m].now > o.failureAfter
  }

  /** The active address is what the last event makes of the one before, decided by the events alone. */
  ghost predicate Decided(o: Limits, run: seq<Event>, active: Option<Addr>)
  {
    run != [] ==>
      var before, e := After(o, run, |run| - 1).active, run[|run| - 1];
      && (e.Ack? && before.None? ==> forall a :: active == Some(a) <==> Suffices(o, run, |run| - 1, a))
      && (e.Tick? && before.Some? ==> active == if AllTooOld(o, run, before.value) then None else before)
      && (e.NewEpoch? ==> active.None?)
      && (e.Discover? ==> active == if before.Some? && before.value in e.onLink then before else None)
      && (e.Record? || (e.Ack? && before.Some?) || (e.Tick? && before.None?) ==> active == before)
  }

  lemma DecidedAlways(o: Limits, run: seq<Event>)
    requires Monotone(run)
    ensures Decided(o, run, After(o, run, |run|).active)
  {
    if run != [] {
      var n := |run| - 1;
      var before, e := After(o, run, n).active, run[n];
      if e.Ack? && before.None? {
        forall a ensures After(o, run, n + 1).active == Some(a) <==> Suffices(o, run, n, a) {
          PromotionExactly(o, run, n, a);
        }
      } else if e.Tick? && before.Some? {
        DemotionExactly(o, run, n, before.value);
      } else {
        OtherwiseKept(o, After(o, run, n), e);
      }
    }
  }

  /** The frame gets to the object: for this network and device, authentic, in time, from a link or the relay, and the
      object is the peer's current one. */
  predicate Passes(m: Manager, p: PeerState, f: Wire.Frame, authentic: bool, source: Option<Addr>, net: Network,
                   now: nat)
    reads m
  {
    && f.from in m.peers && m.peers[f.from] == p && f.network == m.cfg.networkId && f.to == m.cfg.deviceId
    && authentic && now < m.expiry && (source.Some? ==> net.onLink(source.value))
  }

  /** What an accepted frame adds to the trace. */
  ghost predicate Logged(before: seq<Event>, after: seq<Event>, s: RW.Session, f: Wire.Frame, source: Option<Addr>,
                         net: Network, now: nat)
  {
    if !RW.Accepts(s, Arrived(f)) then after == before
    else
      var moved, more := f.epoch != s.epoch, |after| > |before|;
      && (f.typ == "ack" ==> more && after[|after| - 1] == Ack(f.nonce, source, now))
      && (f.typ == "discover" && source.None? && |f.candidates| <= MAX_CANDIDATES ==>
            more && after[|after| - 1].Discover? && OnLinkOf(net, f.candidates, after[|after| - 1].onLink))
      && (moved ==> more && after[|before|] == NewEpoch)
      && (!moved && f.typ !in {"ack", "discover"} ==> after == before)
  }

  lemma EventsLogged(run: seq<Event>, s: RW.Session, f: Wire.Frame, source: Option<Addr>, net: Network, now: nat)
    ensures Logged(run, run + EventsOf(s, f, source, net, now), s, f, source, net, now)
  {
    hide RW.Accepts;
    forall a ensures a in OnLinkOnly(net, f.candidates) <==>
                     (exists c :: c in f.candidates && net.parse(c) == Some(a)) && net.onLink(a) {
      OnLinkExactly(net, f.candidates, a);
    }
  }

  /** A frame for the object, through the manager. */
  method Frame(m: Manager, o: Limits, p: PeerState, f: Wire.Frame, authentic: bool, source: Option<Addr>, net: Network,
               now: nat, ghost t: Trace)
    returns (effect: Effect, ghost t': Trace)
    requires Follows(o, p, t) && Upto(t, now)
    modifies p
    ensures p.Valid()
    ensures Follows(o, p, t') && Upto(t', now) && t.run <= t'.run
    ensures p.active.Some? && p.active != old(p.active) ==> Justified(o, t'.run, p.active.value)
    ensures t'.arrivals == t.arrivals || t'.arrivals == t.arrivals + [Arrived(f)]
    ensures effect != Nothing ==> t'.arrivals == t.arrivals + [Arrived(f)] && RW.Accepts(old(p.Session()), Arrived(f))
    ensures p.Session() == if t'.arrivals == t.arrivals then old(p.Session()) else RW.Next(old(p.Session()), Arrived(f))
    ensures if old(Passes(m, p, f, authentic, source, net, now))
            then Logged(t.run, t'.run, old(p.Session()), f, source, net, now) else t' == t
    ensures Decided(o, t'.run, p.active)
  {
    hide Logged, Decided;
    hide RW.Next, RW.Accepts, RW.Valid, RW.Represents, Step, Monotone, Clock, EventsOf, PathAfter, Justified;
    t' := t;
    ghost var s, before := p.Session(), p.active;
    effect := m.Receive(o, p, f, authentic, source, net, now);
    if Passes(m, p, f, authentic, source, net, now) {
      ghost var es := EventsOf(s, f, source, net, now);
      FoldEvents(o, After(o, t.run, |t.run|), s, f, source, net, now);
      AppendedAll(o, t.run, es, now);
      EventsLogged(t.run, s, f, source, net, now);
      t' := Trace(t.run + es, t.arrivals + [Arrived(f)]);
      LongerArrivals(t.arrivals, Arrived(f), |t.arrivals|);
      if p.active.Some? && p.active != before {
        assert t'.run != t.run;
        ActivatedIsPromoted(o, t'.run, before, p.active);
        PromotionJustified(o, t'.run, p.active.value);
      }
    }    DecidedAlways(o, t'.run);
  }

  /** The lock regions of a probe round. Neither makes an address active. */
  method Round(o: Limits, p: PeerState, now: nat, ghost t: Trace) returns (addresses: seq<Addr>, ghost t': Trace)
    requires Follows(o, p, t) && Upto(t, now)
    modifies p
    ensures p.Valid()
    ensures Follows(o, p, t') && Upto(t', now) && t.run <= t'.run && t'.arrivals == t.arrivals
    ensures p.active in {old(p.active), None} && p.Session() == old(p.Session())
    ensures t'.run == t.run + [Tick(now)]
    ensures Decided(o, t'.run, p.active)
  {
    Appended(o, t.run, Tick(now), now);
    t' := Trace(t.run + [Tick(now)], t.arrivals);
    addresses := p.ProbeTick(o, now);
    DecidedAlways(o, t'.run);
  }

  method Probed(o: Limits, p: PeerState, nonce: Nonce, addr: Addr, now: nat, ghost t: Trace) returns (ghost t': Trace)
    requires Follows(o, p, t) && Upto(t, now)
    modifies p
    ensures p.Valid()
    ensures Follows(o, p, t') && Upto(t', now) && t.run <= t'.run && t'.arrivals == t.arrivals
    ensures p.active == old(p.active) && p.Session() == old(p.Session())
    ensures t'.run == t.run + [Record(nonce, addr, now)]
    ensures Decided(o, t'.run, p.active)
  {
    Appended(o, t.run, Record(nonce, addr, now), now);
    t' := Trace(t.run + [Record(nonce, addr, now)], t.arrivals);
    p.RecordProbe(o, nonce, addr, now);
    DecidedAlways(o, t'.run);
  }

  // ---------- whole runs of a manager ----------

  /** What the manager hands out for the peer: the frames it acted on, at which points of the peer's life. */
  datatype Story = Story(life: seq<RW.Life>, at: seq<nat>)

  /** Every frame acted on was accepted at its point, and the points are in order. */
  ghost predicate Told(s: Story, got: seq<RW.Arrival>)
  {
    && |s.at| == |got|
    && (forall k :: 0 <= k < |got| ==>
        s.at[k] < |s.life| && RW.TakenAt(s.life, s.at[k]) && s.life[s.at[k]] == RW.Comes(got[k]))
    && (forall j, k :: 0 <= j < k < |got| ==> s.at[j] < s.at[k])
  }

  lemma LivedLonger(life: seq<RW.Life>, e: RW.Life, n: nat)
    requires n <= |life|
    ensures RW.Lived(life + [e], n) == RW.Lived(life, n)
  {
    if n != 0 {
      LivedLonger(life, e, n - 1);
      assert (life + [e])[n - 1] == life[n - 1];
    }
  }

  lemma TellMore(s: Story, got: seq<RW.Arrival>, e: RW.Life)
    requires Told(s, got)
    ensures Told(s.(life := s.life + [e]), got)
    ensures RW.Lived(s.life + [e], |s.life| + 1) == if e.Rebuilt? then RW.FRESH else RW.Next(RW.Lived(s.life,
      |s.life|), e.frame)
  {
    LivedLonger(s.life, e, |s.life|);
    forall k | 0 <= k < |got| ensures RW.TakenAt(s.life + [e], s.at[k]) {
      LivedLonger(s.life, e, s.at[k]);
    }
  }

  lemma TellTaken(s: Story, got: seq<RW.Arrival>, f: RW.Arrival)
    requires Told(s, got) && RW.Accepts(RW.Lived(s.life, |s.life|), f)
    ensures Told(Story(s.life + [RW.Comes(f)], s.at + [|s.life|]), got + [f])
  {
    TellMore(s, got, RW.Comes(f));
    LivedLonger(s.life, RW.Comes(f), |s.life|);
  }

  /** A frame acted on twice was acted on by two objects. */
  lemma ToldApart(s: Story, got: seq<RW.Arrival>, i: nat, j: nat)
    requires Told(s, got) && i < j < |got| && RW.StampOf(got[i]) == RW.StampOf(got[j])
    ensures RW.RebuiltBetween(s.life, s.at[i], s.at[j])
  {
    RW.AtMostOncePerObject(s.life, s.at[i], s.at[j]);
  }

  /** The whole table: every object is sound, and its own. */
  ghost predicate Sound(m: Manager)
    reads m, m.sockets, m.peers.Values
  {
    m.Valid() && forall k :: k in m.peers ==> m.peers[k].Valid()
  }

  /** The peer's object, if it has one, is where its trace and its story lead. */
  ghost predicate Tracked(m: Manager, o: Limits, id: string, t: Trace, s: Story, now: nat)
    reads m, m.peers.Values
  {
    if id in m.peers then
      && Follows(o, m.peers[id], t) && Upto(t, now)
      && m.peers[id].Session() == RW.Lived(s.life, |s.life|)
    else
      RW.Lived(s.life, |s.life|) == RW.FRESH
  }

  /** Objects of different peers are different. */
  lemma OtherObject(m: Manager, id: string, other: string)
    requires m.Valid() && id in m.peers && other in m.peers && id != other
    ensures m.peers[id] != m.peers[other]
  {
  }

  /** A received frame, for whichever peer it is. */
  method FrameStep(m: Manager, o: Limits, id: string, k: string, f: Wire.Frame, authentic: bool, source: Option<Addr>,
                   net: Network,
                   now: nat,
                   got: seq<RW.Arrival>, ghost t: Trace, ghost s: Story)
    returns (effect: Effect, got': seq<RW.Arrival>, ghost t': Trace, ghost s': Story)
    requires Sound(m) && k in m.peers && Tracked(m, o, id, t, s, now) && Told(s, got)
    modifies m.peers.Values
    ensures Sound(m) && Tracked(m, o, id, t', s', now) && Told(s', got')
    // Exactly the frames acted on for this peer are noted, and the peer's life goes on.
    ensures got' == if k == id && effect != Nothing then got + [Arrived(f)] else got
    ensures s'.life == s.life || s'.life == s.life + [RW.Comes(Arrived(f))]
    ensures k == id && effect != Nothing ==> s'.life == s.life + [RW.Comes(Arrived(f))]
    ensures id in m.peers && m.peers[id].active.Some? && m.peers[id].active != old(m.peers[id].active) ==>
              Justified(o, t'.run, m.peers[id].active.value)
    ensures k != id ==> t' == t
    ensures k == id ==> if old(Passes(m, m.peers[id], f, authentic, source, net, now))
                        then Logged(t.run, t'.run, old(m.peers[id].Session()), f, source, net, now) else t' == t
  {
    hide Logged, Decided, Passes;
    hide RW.Next, RW.Accepts, Justified, Upto, Told, RW.Lived, Follows, Manager.Valid, PeerState.Valid,
      PeerState.Session, PathAfter, EffectOf;
    got', t', s' := got, t, s;
    var p := m.peers[k];
    if k != id {
      if id in m.peers {
        OtherObject(m, id, k);
      }
      effect := m.Receive(o, p, f, authentic, source, net, now);
      return;
    }
    effect, t' := Frame(m, o, p, f, authentic, source, net, now, t);
    if effect != Nothing {
      TellMore(s, got, RW.Comes(Arrived(f)));
      TellTaken(s, got, Arrived(f));
      got' := got + [Arrived(f)];
      s' := Story(s.life + [RW.Comes(Arrived(f))], s.at + [|s.life|]);
    } else if t'.arrivals != t.arrivals {
      TellMore(s, got, RW.Comes(Arrived(f)));
      s' := s.(life := s.life + [RW.Comes(Arrived(f))]);
    }
  }

  /** A lock region of a probe round, for whichever peer. */
  method RoundStep(m: Manager, o: Limits, id: string, k: string, now: nat, ghost t: Trace, ghost s: Story)
    returns (ghost t': Trace)
    requires Sound(m) && k in m.peers && Tracked(m, o, id, t, s, now)
    modifies m.peers.Values
    ensures Sound(m) && Tracked(m, o, id, t', s, now)
    ensures id in m.peers ==> m.peers[id].active in {old(m.peers[id].active), None}
    ensures if k != id then t' == t
            else |t'.run| == |t.run| + 1 && t.run <= t'.run && (t'.run[|t.run|] == Tick(now) || t'.run[|t.run|].Record?)
  {
    hide RW.Next, Upto, RW.Lived, Step, Follows, Manager.Valid;
    t' := t;
    var p, record: bool, nonce: string, addr: string := m.peers[k], *, *, *;
    if k != id {
      if id in m.peers {
        OtherObject(m, id, k);
      }
      if record {
        p.RecordProbe(o, nonce, addr, now);
      } else {
        var _ := p.ProbeTick(o, now);
      }
    } else if record {
      t' := Probed(o, p, nonce, addr, now, t);
    } else {
      var addresses;
      addresses, t' := Round(o, p, now, t);
    }
  }

  lemma PristineFollows(o: Limits, p: PeerState)
    requires Manager.Pristine(p)
    ensures Follows(o, p, Trace([], [])) && p.Session() == RW.FRESH
  {
  }

  lemma PristineValid(p: PeerState)
    requires Manager.Pristine(p)
    ensures p.Valid()
  {
  }

  /** A reconfiguration, object by object. */
  method Swapped(m: Manager, c: Config, now: nat)
    requires m.Valid()
    modifies m, m.sockets
    ensures m.Valid()
    ensures forall k :: k in m.peers ==>
              (k in old(m.peers) && m.peers[k] == old(m.peers)[k])
              || (fresh(m.peers[k]) && Manager.Pristine(m.peers[k]))
  {
    hide Manager.Valid, Manager.Pristine, ConfigOk, SameTransport, Manager.Obstructed;
    var refusal := m.Reconfigure(c, now);
  }

  /** A reconfiguration: the peer keeps its object, or its trace starts over. */
  method ConfigStep(m: Manager, o: Limits, id: string, c: Config, now: nat, got: seq<RW.Arrival>, ghost t: Trace,
                    ghost s: Story)
    returns (kept: bool, ghost t': Trace, ghost s': Story)
    requires Sound(m) && Tracked(m, o, id, t, s, now) && Told(s, got)
    modifies m, m.sockets
    ensures Sound(m) && Tracked(m, o, id, t', s', now) && Told(s', got)
    ensures forall k :: k in m.peers ==> (k in old(m.peers) && m.peers[k] == old(m.peers)[k]) || fresh(m.peers[k])
    ensures kept ==> s' == s && (id in old(m.peers) ==> id in m.peers && m.peers[id] == old(m.peers)[id] && t' == t)
    ensures !kept ==> s' == s.(life := s.life + [RW.Rebuilt])
    ensures kept <==> (id in old(m.peers) ==> id in m.peers && m.peers[id] == old(m.peers)[id])
  {
    hide Manager.Valid, Manager.Pristine, PeerState.Valid, PeerState.Session, Follows, RW.Lived, Told;
    var before := m.peers;
    Swapped(m, c, now);
    kept := id in before ==> id in m.peers && m.peers[id] == before[id];
    forall k | k in m.peers && (k !in before || m.peers[k] != before[k]) ensures m.peers[k].Valid() {
      PristineValid(m.peers[k]);
    }
    if id in m.peers && (id !in before || !kept) {
      PristineFollows(o, m.peers[id]);
    }
    t' := if id in before && kept then t else Trace([], []);
    s' := s;
    if !kept {
      TellMore(s, got, RW.Rebuilt);
      s' := s.(life := s.life + [RW.Rebuilt]);
    }
  }

  /** How often the peer was removed or replaced. */
  function Rebuilds(life: seq<RW.Life>): nat
  {
    if life == [] then 0 else Rebuilds(life[..|life| - 1]) + if life[|life| - 1].Rebuilt? then 1 else 0
  }

  lemma OneMoreRebuild(life: seq<RW.Life>, e: RW.Life)
    ensures Rebuilds(life + [e]) == Rebuilds(life) + if e.Rebuilt? then 1 else 0
  {
    assert (life + [e])[..|life|] == life;
  }

  lemma {:induction false} NoneBetween(life: seq<RW.Life>)
    requires Rebuilds(life) == 0
    ensures forall i :: 0 <= i < |life| ==> life[i].Comes?
  {
    if life != [] {
      NoneBetween(life[..|life| - 1]);
    }
  }

  lemma TrackedDecided(m: Manager, o: Limits, id: string, t: Trace, s: Story, now: nat)
    requires Tracked(m, o, id, t, s, now)
    ensures id in m.peers ==> Decided(o, t.run, m.peers[id].active)
  {
    if id in m.peers {
      DecidedAlways(o, t.run);
    }
  }

  /** Any one step; `acted` is the frame acted on for the peer, if it was one. */
  method AnyStep(m: Manager, o: Limits, net: Network, id: string, now: nat, got: seq<RW.Arrival>, ghost t: Trace,
                 ghost s: Story)
    returns (got': seq<RW.Arrival>, acted: Option<RW.Arrival>, kept: bool, ghost t': Trace, ghost s': Story)
    requires Sound(m) && Tracked(m, o, id, t, s, now) && Told(s, got)
    modifies m, m.sockets, m.peers.Values
    ensures Sound(m) && Tracked(m, o, id, t', s', now) && Told(s', got')
    ensures forall k :: k in m.peers ==> (k in old(m.peers) && m.peers[k] == old(m.peers)[k]) || fresh(m.peers[k])
    ensures got' == if acted.Some? then got + [acted.value] else got
    ensures acted.Some? ==> s'.life == s.life + [RW.Comes(acted.value)]
    ensures kept <==> (id in old(m.peers) ==> id in m.peers && m.peers[id] == old(m.peers)[id])
    ensures Rebuilds(s'.life) == Rebuilds(s.life) + if kept then 0 else 1
    ensures kept && id in old(m.peers) && id in m.peers ==> var a := m.peers[id].active;
              a.Some? && a != old(m.peers[id].active) ==> Justified(o, t'.run, a.value)
    ensures id in m.peers ==> Decided(o, t'.run, m.peers[id].active)
  {
    hide Sound, Told, Tracked, RW.Lived, Justified, Follows, Rebuilds, Decided, Logged;
    got', acted, kept, t', s' := got, None, true, t, s;
    var which: nat, k: string := *, *;
    if which == 0 {
      var c: Config := *;
      kept, t', s' := ConfigStep(m, o, id, c, now, got, t, s);
      OneMoreRebuild(s.life, RW.Rebuilt);
    } else if k in m.peers && which == 1 {
      t' := RoundStep(m, o, id, k, now, t, s);
    } else if k in m.peers {
      var f: Wire.Frame, authentic: bool, source: Option<Addr> := *, *, *;
      var effect;
      effect, got', t', s' := FrameStep(m, o, id, k, f, authentic, source, net, now, got, t, s);
      acted := if k == id && effect != Nothing then Some(Arrived(f)) else None;
      OneMoreRebuild(s.life, RW.Comes(Arrived(f)));
    }
    TrackedDecided(m, o, id, t', s', now);
  }

  lemma TimePasses(m: Manager, o: Limits, id: string, t: Trace, s: Story, now: nat, later: nat)
    requires Tracked(m, o, id, t, s, now) && now <= later
    ensures Tracked(m, o, id, t, s, later)
  {
  }

  lemma AtStart(m: Manager, o: Limits, id: string)
    requires m.Valid() && m.peers == map[]
    ensures Sound(m) && Tracked(m, o, id, Trace([], []), Story([], []), 0) && Told(Story([], []), [])
  {
  }

  /** Every run of a manager, seen from one peer: frames of any peer, probe rounds, reconfigurations and passing
      time, in any order. The peer's object is always where its trace leads, so all that is proved of runs
      holds of it; every activation was justified, step by step; and no frame is acted on twice but by two
      objects - never, if no reconfiguration removed or replaced the peer. */
  method AnyRun(m: Manager, o: Limits, net: Network, id: string)
    returns (got: seq<RW.Arrival>, rebuilt: nat, ghost t: Trace, ghost s: Story, ghost now: nat)
    requires m.Valid() && m.peers == map[]
    modifies m, m.sockets
    ensures Sound(m) && Tracked(m, o, id, t, s, now) && Told(s, got) && rebuilt == Rebuilds(s.life)
    ensures id in m.peers ==> Decided(o, t.run, m.peers[id].active)
    ensures forall i, j :: 0 <= i < j < |got| && RW.StampOf(got[i]) == RW.StampOf(got[j]) ==>
              RW.RebuiltBetween(s.life, s.at[i], s.at[j])
    ensures rebuilt == 0 ==> forall i, j :: 0 <= i < j < |got| ==> RW.StampOf(got[i]) != RW.StampOf(got[j])
  {
    got, rebuilt, t, s := [], 0, Trace([], []), Story([], []);
    AtStart(m, o, id);
    var clock: nat := 0;
    var steps: nat := *;
    while steps > 0
      invariant Sound(m) && Tracked(m, o, id, t, s, clock) && Told(s, got)
      invariant forall k :: k in m.peers ==> fresh(m.peers[k])
      invariant rebuilt == Rebuilds(s.life)
    {
      hide Sound, Told, Tracked, Justified, Rebuilds, RW.StampOf, RW.RebuiltBetween;
      var later: int := *;
      later := if later < clock then clock else later;
      TimePasses(m, o, id, t, s, clock, later);
      clock := later;
      var acted, kept;
      got, acted, kept, t, s := AnyStep(m, o, net, id, clock, got, t, s);
      rebuilt := if kept then rebuilt else rebuilt + 1;
      steps := steps - 1;
    }
    now := clock;
    TrackedDecided(m, o, id, t, s, now);
    Apart(s, got);
  }

  lemma Apart(s: Story, got: seq<RW.Arrival>)
    requires Told(s, got)
    ensures forall i, j :: 0 <= i < j < |got| && RW.StampOf(got[i]) == RW.StampOf(got[j]) ==>
              RW.RebuiltBetween(s.life, s.at[i], s.at[j])
    ensures Rebuilds(s.life) == 0 ==> forall i, j :: 0 <= i < j < |got| ==> RW.StampOf(got[i]) != RW.StampOf(got[j])
  {
    if Rebuilds(s.life) == 0 {
      NoneBetween(s.life);
    }
    forall i, j | 0 <= i < j < |got| && RW.StampOf(got[i]) == RW.StampOf(got[j])
      ensures RW.RebuiltBetween(s.life, s.at[i], s.at[j])
    {
      ToldApart(s, got, i, j);
    }
  }
}
