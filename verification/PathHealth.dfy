/**
 The LAN/relay path of one peer as a machine over its lock regions.

 `Step` is one region's effect on the path fields. The theorems speak of whole runs: what must
 have happened before an address was promoted, and how long a dropped address stays dropped.
 A run is any interleaving of the events; candidates used by `Record` may be stale, so the
 active address need not be a candidate.
 */
module PathHealth {
  import opened Common

  type Addr = string
  type Nonce = string

  datatype Reason = Awaiting | CandidateChanged | Healthy | TimedOut

  datatype Health = Health(ack: nat, success: nat, rtt: int)
  datatype Probe = Probe(addr: Addr, sent: nat)

  datatype Path = Path(
    candidates: seq<Addr>,
    active: Option<Addr>,
    ack: nat,
    rtt: int,
    pending: map<Nonce, Probe>,
    health: map<Addr, Health>,
    reason: Reason)

  /** FailureAfter and PromoteAfter; `New` replaces non-positive values by 4s and 3. */
  datatype Limits = Limits(failureAfter: nat, promoteAfter: nat)

  const IDLE: Path := Path([], None, 0, 0, map[], map[], Awaiting)

  datatype Event =
    | NewEpoch                                       // a frame moved the peer to a new epoch
    | Discover(onLink: seq<Addr>)                    // candidate list received over the relay
    | Ack(nonce: Nonce, source: Option<Addr>, now: nat)  // acknowledgement; no source when relayed
    | Tick(now: nat)                                 // first lock region of a probe round
    | Record(nonce: Nonce, addr: Addr, now: nat)     // later lock region: one probe recorded

  /** A never acknowledged address has the zero health entry. */
  function HealthOf(p: Path, a: Addr): Health
  {
    if a in p.health then p.health[a] else Health(0, 0, 0)
  }

  /** The acknowledgement answers an outstanding probe of this very address, in time. */
  predicate Answers(o: Limits, p: Path, nonce: Nonce, source: Option<Addr>, now: nat)
  {
    nonce in p.pending && source == Some(p.pending[nonce].addr) && now - p.pending[nonce].sent <= o.failureAfter
  }

  function Credit(o: Limits, p: Path, nonce: Nonce, source: Addr, now: nat): Health
    requires nonce in p.pending
  {
    var h := HealthOf(p, source);
    var kept := if now - h.ack > o.failureAfter then 0 else h.success;
    Health(now, kept + 1, now - p.pending[nonce].sent)
  }

  function Step(o: Limits, p: Path, e: Event): Path
  {
    match e
    case NewEpoch => p.(active := None, pending := map[], health := map[])
    case Discover(cands) =>
      var gone := p.active.Some? && p.active.value !in cands;
      p.(candidates := cands,
         health := map a | a in p.health && a in cands :: p.health[a],
         pending := map n | n in p.pending && p.pending[n].addr in cands :: p.pending[n],
         active := if gone then None else p.active,
         reason := if gone then CandidateChanged else p.reason)
    case Ack(nonce, source, now) =>
      var rest := p.(pending := p.pending - {nonce});
      if !Answers(o, p, nonce, source, now) then rest
      else
        var h := Credit(o, p, nonce, source.value, now);
        var credited := rest.(health := p.health[source.value := h]);
        if p.active == source then credited.(ack := h.ack, rtt := h.rtt)
        else if p.active.None? && h.success >= o.promoteAfter then
          credited.(active := source, ack := h.ack, rtt := h.rtt, reason := Healthy)
        else credited
    case Tick(now) =>
      var late := p.active.Some? && now - p.ack > o.failureAfter;
      p.(active := if late then None else p.active,
         reason := if late then TimedOut else p.reason,
         pending := map n | n in p.pending && now - p.pending[n].sent <= o.failureAfter :: p.pending[n])
    case Record(nonce, addr, now) =>
      p.(pending := p.pending[nonce := Probe(addr, now)])
  }

  // ---------- runs under a monotone clock ----------

  function TimeOf(e: Event, otherwise: nat): nat
  {
    match e
    case Ack(_, _, now) => now
    case Tick(now) => now
    case Record(_, _, now) => now
    case _ => otherwise
  }

  /** The clock after the first n events. */
  function Clock(run: seq<Event>, n: nat): nat
    requires n <= |run|
  {
    if n == 0 then 0 else TimeOf(run[n - 1], Clock(run, n - 1))
  }

  ghost predicate Monotone(run: seq<Event>)
  {
    forall n :: 0 < n <= |run| ==> Clock(run, n - 1) <= Clock(run, n)
  }

  /** The path after the first n events. */
  ghost function After(o: Limits, run: seq<Event>, n: nat): Path
    requires n <= |run|
  {
    if n == 0 then IDLE else Step(o, After(o, run, n - 1), run[n - 1])
  }

  // ---------- what the active address rests on ----------

  /** A valid active address has a health entry, stamped with the peer's own ack time. */
  predicate ActiveBacked(p: Path)
  {
    p.active.Some? ==> p.active.value in p.health && p.health[p.active.value].ack == p.ack
  }

  lemma StepBacked(o: Limits, p: Path, e: Event)
    requires ActiveBacked(p)
    ensures ActiveBacked(Step(o, p, e))
  {
  }

  lemma {:induction false} ActiveIsBacked(o: Limits, run: seq<Event>, n: nat)
    requires n <= |run|
    ensures ActiveBacked(After(o, run, n))
  {
    if n != 0 {
      ActiveIsBacked(o, run, n - 1);
      StepBacked(o, After(o, run, n - 1), run[n - 1]);
    }
  }

  /** No lock region moves traffic from one address straight to another. */
  lemma NoDirectSwitch(o: Limits, p: Path, e: Event)
    requires p.active.Some?
    ensures Step(o, p, e).active in {p.active, None}
  {
  }

  // ---------- acknowledgement chains ----------

  /** The event is an acknowledgement from a that earns credit. */
  predicate Credits(o: Limits, p: Path, e: Event, a: Addr)
  {
    e.Ack? && e.source == Some(a) && Answers(o, p, e.nonce, e.source, e.now)
  }

  /** The same, read off the events alone: it consumed a probe that was recorded for a and spared since. */
  ghost predicate Credited(o: Limits, run: seq<Event>, n: nat, a: Addr)
    requires n < |run|
  {
    exists r: nat :: Consumed(o, run, n, r, a)
  }

  lemma CreditedExactly(o: Limits, run: seq<Event>, n: nat, a: Addr)
    requires n < |run|
    ensures Credited(o, run, n, a) <==> Credits(o, After(o, run, n), run[n], a)
  {
    if Credits(o, After(o, run, n), run[n], a) {
      var r := CreditConsumes(o, run, n, a);
    }
    if Credited(o, run, n, a) {
      var r: nat :| Consumed(o, run, n, r, a);
      SparedIsPending(o, run, n, run[n].nonce, Probe(a, run[r].now), r);
    }
  }

  /** Positions of acknowledgements in a run. */
  ghost predicate AckPositions(run: seq<Event>, n: nat, c: seq<nat>)
  {
    forall i :: 0 <= i < |c| ==> c[i] < n && c[i] < |run| && run[c[i]].Ack?
  }

  ghost function Extend(o: Limits, run: seq<Event>, n: nat, credited: bool, c: seq<nat>, a: Addr): seq<nat>
    requires n < |run| && AckPositions(run, n, c) && (credited ==> run[n].Ack?)
  {
    var e := run[n];
    if e.NewEpoch? || (e.Discover? && a !in e.onLink) then []
    else if !credited then c
    else if c != [] && e.now - run[c[|c| - 1]].now <= o.failureAfter then c + [n]
    else [n]
  }

  /** The credited acknowledgements from a, since the last one that came too late, since the last
      candidate list without a, and since the last new epoch. */
  ghost function Chain(o: Limits, run: seq<Event>, n: nat, a: Addr): (c: seq<nat>)
    requires n <= |run|
    ensures AckPositions(run, n, c)
  {
    if n == 0 then []
    else Extend(o, run, n - 1, Credited(o, run, n - 1, a), Chain(o, run, n - 1, a), a)
  }

  /** The counters the code keeps per address are the chain's length and last time. */
  ghost predicate Counts(p: Path, run: seq<Event>, c: seq<nat>, a: Addr)
    requires AckPositions(run, |run|, c)
  {
    && (a in p.health <==> c != [])
    && (a in p.health ==> p.health[a].success == |c| && p.health[a].ack == run[c[|c| - 1]].now)
  }

  lemma CountsStep(o: Limits, p: Path, run: seq<Event>, n: nat, c: seq<nat>, a: Addr)
    requires n < |run| && AckPositions(run, n, c) && Counts(p, run, c, a)
    ensures Counts(Step(o, p, run[n]), run, Extend(o, run, n, Credits(o, p, run[n], a), c, a), a)
  {
  }

  lemma {:induction false} HealthCountsChain(o: Limits, run: seq<Event>, n: nat, a: Addr)
    requires n <= |run|
    ensures Counts(After(o, run, n), run, Chain(o, run, n, a), a)
  {
    if n != 0 {
      HealthCountsChain(o, run, n - 1, a);
      CreditedExactly(o, run, n - 1, a);
      CountsStep(o, After(o, run, n - 1), run, n - 1, Chain(o, run, n - 1, a), a);
    }
  }

  /** All positions whose acknowledgement earns credit for a. */
  ghost function CreditedSet(o: Limits, run: seq<Event>, a: Addr): set<nat>
  {
    set n: nat | n < |run| && Credited(o, run, n, a)
  }

  /** Taken from `good`, increasing, never more than FailureAfter apart, and all within one epoch. */
  ghost predicate Unbroken(o: Limits, run: seq<Event>, n: nat, good: set<nat>, c: seq<nat>)
    requires n <= |run|
  {
    && AckPositions(run, n, c)
    && (forall i :: 0 <= i < |c| ==> c[i] in good)
    && (forall i :: 0 < i < |c| ==> c[i - 1] < c[i] && run[c[i]].now - run[c[i - 1]].now <= o.failureAfter)
    && (c != [] ==> forall k :: c[0] <= k < n ==> !run[k].NewEpoch?)
  }

  lemma UnbrokenStep(o: Limits, run: seq<Event>, n: nat, a: Addr, c: seq<nat>, good: set<nat>)
    requires n < |run| && Unbroken(o, run, n, good, c)
    requires n in good ==> run[n].Ack?
    ensures Unbroken(o, run, n + 1, good, Extend(o, run, n, n in good, c, a))
  {
    var e := run[n];
    if e.NewEpoch? || (e.Discover? && a !in e.onLink) {
    } else if n !in good {
      UnbrokenLater(o, run, n, good, c);
    } else if c != [] && e.now - run[c[|c| - 1]].now <= o.failureAfter {
      UnbrokenAppend(o, run, n, good, c);
    } else {
      assert [n][0] == n;
    }
  }

  lemma UnbrokenLater(o: Limits, run: seq<Event>, n: nat, good: set<nat>, c: seq<nat>)
    requires n < |run| && Unbroken(o, run, n, good, c) && !run[n].NewEpoch?
    ensures Unbroken(o, run, n + 1, good, c)
  {
  }

  lemma UnbrokenAppend(o: Limits, run: seq<Event>, n: nat, good: set<nat>, c: seq<nat>)
    requires n < |run| && Unbroken(o, run, n, good, c) && c != []
    requires n in good && run[n].Ack? && run[n].now - run[c[|c| - 1]].now <= o.failureAfter
    ensures Unbroken(o, run, n + 1, good, c + [n])
  {
    assert forall i :: 0 <= i < |c| ==> (c + [n])[i] == c[i];
  }

  lemma {:induction false} ChainUnbroken(o: Limits, run: seq<Event>, n: nat, a: Addr)
    requires n <= |run|
    ensures Unbroken(o, run, n, CreditedSet(o, run, a), Chain(o, run, n, a))
  {
    if n != 0 {
      hide Credited, Unbroken;
      ChainUnbroken(o, run, n - 1, a);
      var good := CreditedSet(o, run, a);
      assert n - 1 in good <==> Credited(o, run, n - 1, a);
      if n - 1 in good {
        CreditedIsAck(o, run, n - 1, a);
      }
      UnbrokenStep(o, run, n - 1, a, Chain(o, run, n - 1, a), good);
    }
  }

  lemma {:induction false} Increasing(o: Limits, run: seq<Event>, n: nat, good: set<nat>, c: seq<nat>, i: nat, j: nat)
    requires n <= |run| && Unbroken(o, run, n, good, c) && i < j < |c|
    ensures c[i] < c[j]
    decreases j
  {
    if i < j - 1 {
      Increasing(o, run, n, good, c, i, j - 1);
    }
  }

  // ---------- outstanding probes ----------

  /** The event leaves an outstanding probe alone: no new epoch, no answer with its nonce, no record that
      reuses the nonce, its address stays listed, and it is not too old when the round comes. */
  predicate Spares(o: Limits, e: Event, x: Nonce, probe: Probe)
  {
    match e
    case NewEpoch => false
    case Discover(onLink) => probe.addr in onLink
    case Ack(nonce, _, _) => nonce != x
    case Tick(now) => now - probe.sent <= o.failureAfter
    case Record(nonce, _, _) => nonce != x
  }

  /** Event r recorded the probe x, and everything between r and n spared it. */
  ghost predicate Outstanding(o: Limits, run: seq<Event>, n: nat, x: Nonce, probe: Probe, r: nat)
    requires n <= |run|
  {
    && r < n
    && run[r] == Record(x, probe.addr, probe.sent)
    && forall k :: r < k < n ==> Spares(o, run[k], x, probe)
  }

  lemma {:induction false} PendingWasRecorded(o: Limits, run: seq<Event>, n: nat, x: Nonce)
    requires n <= |run| && x in After(o, run, n).pending
    ensures exists r: nat :: Outstanding(o, run, n, x, After(o, run, n).pending[x], r)
  {
    if run[n - 1].Record? && run[n - 1].nonce == x {
      assert Outstanding(o, run, n, x, After(o, run, n).pending[x], n - 1);
    } else {
      PendingWasRecorded(o, run, n - 1, x);
      var r: nat :| Outstanding(o, run, n - 1, x, After(o, run, n - 1).pending[x], r);
      assert Outstanding(o, run, n, x, After(o, run, n).pending[x], r);
    }
  }

  /** And back: a recorded probe that everything since has spared is pending. */
  lemma {:induction false} SparedIsPending(o: Limits, run: seq<Event>, n: nat, x: Nonce, probe: Probe, r: nat)
    requires n <= |run| && Outstanding(o, run, n, x, probe, r)
    ensures x in After(o, run, n).pending && After(o, run, n).pending[x] == probe
  {
    if r < n - 1 {
      SparedIsPending(o, run, n - 1, x, probe, r);
      assert Spares(o, run[n - 1], x, probe);
    }
  }

  /** The i-th acknowledgement consumed the probe recorded by event r, in time. */
  ghost predicate Consumed(o: Limits, run: seq<Event>, ack: nat, r: nat, a: Addr)
    requires ack < |run|
  {
    && run[ack].Ack? && run[ack].source == Some(a)
    && r < ack && run[r].Record? && run[r].addr == a && run[r].nonce == run[ack].nonce
    && run[ack].now - run[r].now <= o.failureAfter
    && forall k :: r < k < ack ==> Spares(o, run[k], run[ack].nonce, Probe(a, run[r].now))
  }

  lemma CreditConsumes(o: Limits, run: seq<Event>, n: nat, a: Addr) returns (r: nat)
    requires n < |run| && Credits(o, After(o, run, n), run[n], a)
    ensures Consumed(o, run, n, r, a)
  {
    var x := run[n].nonce;
    PendingWasRecorded(o, run, n, x);
    r :| Outstanding(o, run, n, x, After(o, run, n).pending[x], r);
  }

  // ---------- the theorems ----------

  ghost predicate PromotedAt(o: Limits, run: seq<Event>, n: nat, a: Addr)
    requires n < |run|
  {
    After(o, run, n).active != Some(a) && After(o, run, n + 1).active == Some(a)
  }

  ghost predicate DroppedAt(o: Limits, run: seq<Event>, m: nat, a: Addr)
    requires m < |run|
  {
    After(o, run, m).active == Some(a) && After(o, run, m + 1).active != Some(a)
  }

  lemma PromotionNeedsChain(o: Limits, run: seq<Event>, n: nat, a: Addr)
    requires n < |run| && PromotedAt(o, run, n, a)
    ensures |Chain(o, run, n + 1, a)| >= o.promoteAfter && |Chain(o, run, n + 1, a)| > 0
    ensures Credited(o, run, n, a)
  {
    CreditedExactly(o, run, n, a);
    HealthCountsChain(o, run, n + 1, a);
  }

  /** No nonce is recorded twice. */
  ghost predicate FreshNonces(run: seq<Event>)
  {
    forall i, j :: 0 <= i < j < |run| && run[i].Record? && run[j].Record? ==> run[i].nonce != run[j].nonce
  }

  /** The evidence for a promotion: acknowledgements `acks` and the probes `probes` they consumed. */
  ghost predicate Evidence(o: Limits, run: seq<Event>, n: nat, a: Addr, acks: seq<nat>, probes: seq<nat>)
    requires n < |run|
  {
    && |acks| == |probes| >= o.promoteAfter
    && (forall i :: 0 <= i < |acks| ==> acks[i] <= n && Consumed(o, run, acks[i], probes[i], a))
    && (forall i, j :: 0 <= i < j < |acks| ==> acks[i] < acks[j] && probes[i] != probes[j])
    && (forall i :: 0 < i < |acks| ==> run[acks[i]].now - run[acks[i - 1]].now <= o.failureAfter)
    && (forall i, k :: 0 <= i < |probes| && probes[i] <= k <= n ==> !run[k].NewEpoch?)
    && (FreshNonces(run) ==> forall i, j :: 0 <= i < j < |acks| ==> run[acks[i]].nonce != run[acks[j]].nonce)
  }

  lemma CollectProbes(o: Limits, run: seq<Event>, a: Addr, c: seq<nat>) returns (probes: seq<nat>)
    requires forall i :: 0 <= i < |c| ==> c[i] in CreditedSet(o, run, a)
    ensures Matched(o, run, a, c, probes)
  {
    probes := [];
    while |probes| < |c|
      invariant |probes| <= |c| && forall i :: 0 <= i < |probes| ==>
                c[i] < |run| && Consumed(o, run, c[i], probes[i], a)
    {
      assert c[|probes|] in CreditedSet(o, run, a);
      var r: nat :| Consumed(o, run, c[|probes|], r, a);
      probes := probes + [r];
    }
  }

  /** Acknowledgement i consumed probe i. */
  ghost predicate Matched(o: Limits, run: seq<Event>, a: Addr, acks: seq<nat>, probes: seq<nat>)
  {
    |acks| == |probes| && forall i :: 0 <= i < |acks| ==> acks[i] < |run| && Consumed(o, run, acks[i], probes[i], a)
  }

  /** Two acknowledgements never consume the same record, and with fresh nonces not even the same nonce. */
  lemma ConsumedApart(o: Limits, run: seq<Event>, a: Addr, x: nat, r: nat, y: nat, s: nat)
    requires x < y < |run| && Consumed(o, run, x, r, a) && Consumed(o, run, y, s, a)
    ensures r != s && (FreshNonces(run) ==> run[x].nonce != run[y].nonce)
  {
    assert s < x ==> Spares(o, run[x], run[y].nonce, Probe(a, run[s].now));
  }

  lemma ConsumedInEpoch(o: Limits, run: seq<Event>, a: Addr, x: nat, r: nat)
    requires x < |run| && Consumed(o, run, x, r, a)
    ensures forall k :: r <= k <= x ==> !run[k].NewEpoch?
  {
    forall k | r < k < x ensures !run[k].NewEpoch? {
      assert Spares(o, run[k], run[x].nonce, Probe(a, run[r].now));
    }
  }

  lemma ChainIsEvidence(o: Limits, run: seq<Event>, n: nat, a: Addr, good: set<nat>, c: seq<nat>, probes: seq<nat>)
    requires n < |run| && Unbroken(o, run, n + 1, good, c) && |c| >= o.promoteAfter
    requires Matched(o, run, a, c, probes)
    ensures Evidence(o, run, n, a, c, probes)
  {
    hide Spares, Consumed, FreshNonces;
    forall i, j | 0 <= i < j < |c|
      ensures c[i] < c[j] && probes[i] != probes[j] && (FreshNonces(run) ==> run[c[i]].nonce != run[c[j]].nonce)
    {
      Increasing(o, run, n + 1, good, c, i, j);
      ConsumedApart(o, run, a, c[i], probes[i], c[j], probes[j]);
    }
    forall i, k | 0 <= i < |probes| && probes[i] <= k <= n ensures !run[k].NewEpoch? {
      ConsumedInEpoch(o, run, a, c[i], probes[i]);
      if i != 0 { Increasing(o, run, n + 1, good, c, 0, i); }
    }
  }

  /** Whenever an address becomes active, at least PromoteAfter distinct outstanding probes of
      this address, all recorded in the current epoch, were each consumed once by an
      acknowledgement from it within FailureAfter, at most FailureAfter apart. */
  lemma PromotionEvidence(o: Limits, run: seq<Event>, n: nat, a: Addr)
    requires n < |run| && PromotedAt(o, run, n, a)
    ensures exists acks, probes :: Evidence(o, run, n, a, acks, probes)
  {
    var c := Chain(o, run, n + 1, a);
    assert |c| >= o.promoteAfter by { PromotionNeedsChain(o, run, n, a); }
    assert Unbroken(o, run, n + 1, CreditedSet(o, run, a), c) by { ChainUnbroken(o, run, n + 1, a); }
    var probes := CollectProbes(o, run, a, c);
    ChainIsEvidence(o, run, n, a, CreditedSet(o, run, a), c, probes);
  }

  /** After a drop, the old chain is gone, or restarted, or already too old to be continued. */
  ghost predicate Cooled(o: Limits, run: seq<Event>, m: nat, n: nat, c: seq<nat>)
    requires n <= |run| && AckPositions(run, n, c)
  {
    c == [] || c[0] > m || Clock(run, n) - run[c[|c| - 1]].now > o.failureAfter
  }

  lemma DropCools(o: Limits, run: seq<Event>, m: nat, a: Addr)
    requires m < |run| && DroppedAt(o, run, m, a)
    ensures Cooled(o, run, m, m + 1, Chain(o, run, m + 1, a))
  {
    ActiveIsBacked(o, run, m);
    HealthCountsChain(o, run, m, a);
  }

  lemma CooledStep(o: Limits, run: seq<Event>, m: nat, n: nat, c: seq<nat>, credited: bool, a: Addr)
    requires m < n < |run| && AckPositions(run, n, c) && Cooled(o, run, m, n, c)
    requires Clock(run, n) <= Clock(run, n + 1) && (credited ==> run[n].Ack?)
    ensures Cooled(o, run, m, n + 1, Extend(o, run, n, credited, c, a))
  {
  }

  lemma {:induction false} StaysCooled(o: Limits, run: seq<Event>, m: nat, n: nat, a: Addr)
    requires Monotone(run) && m < n <= |run| && DroppedAt(o, run, m, a)
    ensures Cooled(o, run, m, n, Chain(o, run, n, a))
  {
    if n == m + 1 {
      DropCools(o, run, m, a);
    } else {
      StaysCooled(o, run, m, n - 1, a);
      CooledStep(o, run, m, n - 1, Chain(o, run, n - 1, a), Credited(o, run, n - 1, a), a);
    }
  }

  lemma AllAfterFirst(o: Limits, run: seq<Event>, m: nat, n: nat, good: set<nat>, c: seq<nat>)
    requires n <= |run| && Unbroken(o, run, n, good, c) && c != [] && c[0] > m
    ensures forall i :: 0 <= i < |c| ==> c[i] > m
  {
    forall i | 0 < i < |c| ensures c[i] > m { Increasing(o, run, n, good, c, 0, i); }
  }

  /** The latest acknowledgement of a fresh promotion is the promoting event itself. */
  lemma PromotionIsLast(o: Limits, run: seq<Event>, n: nat, a: Addr)
    requires n < |run| && PromotedAt(o, run, n, a)
    ensures var c := Chain(o, run, n + 1, a);
            |c| >= o.promoteAfter && c != [] && c[|c| - 1] == n && Clock(run, n + 1) == run[n].now
  {
    PromotionNeedsChain(o, run, n, a);
  }

  /** PromoteAfter credited acknowledgements in a row, all after event m. */
  ghost predicate FreshEvidence(o: Limits, run: seq<Event>, m: nat, n: nat, good: set<nat>, c: seq<nat>)
    requires n < |run|
  {
    |c| >= o.promoteAfter && Unbroken(o, run, n + 1, good, c) && forall i :: 0 <= i < |c| ==> m < c[i] <= n
  }

  lemma CooledIsFresh(o: Limits, run: seq<Event>, m: nat, n: nat, good: set<nat>, c: seq<nat>)
    requires m < n < |run| && Unbroken(o, run, n + 1, good, c) && |c| >= o.promoteAfter
    requires c != [] && c[|c| - 1] == n && Clock(run, n + 1) == run[n].now
    requires Cooled(o, run, m, n + 1, c)
    ensures FreshEvidence(o, run, m, n, good, c)
  {
    AllAfterFirst(o, run, m, n + 1, good, c);
  }

  /** After an address is dropped, for whatever reason, promoting it again takes PromoteAfter
      credited acknowledgements that were all received after the drop. */
  lemma Hysteresis(o: Limits, run: seq<Event>, m: nat, n: nat, a: Addr)
    requires Monotone(run) && m < n < |run|
    requires DroppedAt(o, run, m, a) && PromotedAt(o, run, n, a)
    ensures exists c :: FreshEvidence(o, run, m, n, CreditedSet(o, run, a), c)
  {
    hide Unbroken, Cooled, FreshEvidence, Chain, CreditedSet, DroppedAt, PromotedAt, Clock, Monotone;
    var c, good := Chain(o, run, n + 1, a), CreditedSet(o, run, a);
    assert Unbroken(o, run, n + 1, good, c) by { ChainUnbroken(o, run, n + 1, a); }
    PromotionIsLast(o, run, n, a);
    assert Cooled(o, run, m, n + 1, c) by { StaysCooled(o, run, m, n + 1, a); }
    CooledIsFresh(o, run, m, n, good, c);
  }

  // ---------- exactly when an address becomes active, and when it stops ----------

  /** No new epoch and no candidate list without a among the events from m on, before n. */
  ghost predicate Listed(run: seq<Event>, a: Addr, m: nat, n: nat)
    requires n <= |run|
  {
    forall k :: m <= k < n ==> !run[k].NewEpoch? && (run[k].Discover? ==> a in run[k].onLink)
  }

  /** Credited acknowledgements up to event n, the last being n itself, in order, at most FailureAfter apart, with a
      listed and no new epoch since the first, PromoteAfter of them. */
  ghost predicate Enough(o: Limits, run: seq<Event>, n: nat, a: Addr, acks: seq<nat>)
    requires n < |run|
  {
    && acks != [] && |acks| >= o.promoteAfter && acks[|acks| - 1] == n
    && (forall i :: 0 <= i < |acks| ==> acks[i] <= n && run[acks[i]].Ack? && Credited(o, run, acks[i], a))
    && (forall i :: 0 < i < |acks| ==>
          acks[i - 1] < acks[i] && run[acks[i]].now - run[acks[i - 1]].now <= o.failureAfter)
    && Listed(run, a, acks[0], n)
  }

  lemma {:induction false} ChainListed(o: Limits, run: seq<Event>, n: nat, a: Addr)
    requires n <= |run| && Chain(o, run, n, a) != []
    ensures Listed(run, a, Chain(o, run, n, a)[0], n)
  {
    hide Credited;
    if Chain(o, run, n, a) != [n - 1] {
      ChainListed(o, run, n - 1, a);
    }
  }

  lemma {:induction false} ClockOrdered(run: seq<Event>, i: nat, j: nat)
    requires Monotone(run) && i <= j <= |run|
    ensures Clock(run, i) <= Clock(run, j)
    decreases j
  {
    if i < j {
      ClockOrdered(run, i, j - 1);
    }
  }

  lemma AcksOrdered(run: seq<Event>, i: nat, j: nat)
    requires Monotone(run) && i <= j < |run| && run[i].Ack? && (run[j].Ack? || run[j].Tick?)
    ensures run[i].now <= run[j].now
  {
    ClockOrdered(run, i + 1, j + 1);
  }

  /** No credited acknowledgement is later than the chain's last. */
  lemma {:induction false} LastIsLast(o: Limits, run: seq<Event>, n: nat, a: Addr, m: nat)
    requires m < n <= |run| && Chain(o, run, n, a) != [] && run[m].Ack? && Credited(o, run, m, a)
    ensures m <= Chain(o, run, n, a)[|Chain(o, run, n, a)| - 1]
  {
    hide Credited;
    if m < n - 1 && Chain(o, run, n - 1, a) != [] {
      LastIsLast(o, run, n - 1, a, m);
    } else if m < n - 1 {
      assert Chain(o, run, n, a) == [n - 1];
    }
  }

  /** While a stays listed, the chain only grows, as long as no credited acknowledgement comes too late. */
  lemma {:induction false} ChainGrows(o: Limits, run: seq<Event>, m: nat, n: nat, a: Addr, limit: nat)
    requires Monotone(run) && m < n <= limit < |run| && run[m].Ack? && run[limit].Ack? && Credited(o, run, m, a)
    requires Listed(run, a, m, n) && run[limit].now - run[m].now <= o.failureAfter
    ensures var c := Chain(o, run, n, a);
            |c| >= |Chain(o, run, m + 1, a)| > 0 && m <= c[|c| - 1] < n
  {
    hide Credited, Monotone, Clock, Listed;
    if n > m + 1 {
      assert Listed(run, a, m, n - 1) && !run[n - 1].NewEpoch? && (run[n - 1].Discover? ==> a in run[n - 1].onLink) by {
        ListedBefore(run, a, m, n);
      }
      ChainGrows(o, run, m, n - 1, a, limit);
      var c := Chain(o, run, n - 1, a);
      if Credited(o, run, n - 1, a) {
        CreditedIsAck(o, run, n - 1, a);
        AcksOrdered(run, m, c[|c| - 1]);
        AcksOrdered(run, n - 1, limit);
      }
    } else {
      ChainEndsAt(o, run, m, a);
    }
  }

  lemma ListedBefore(run: seq<Event>, a: Addr, m: nat, n: nat)
    requires m < n <= |run| && Listed(run, a, m, n)
    ensures Listed(run, a, m, n - 1) && !run[n - 1].NewEpoch? && (run[n - 1].Discover? ==> a in run[n - 1].onLink)
  {
  }

  lemma CreditedIsAck(o: Limits, run: seq<Event>, n: nat, a: Addr)
    requires n < |run| && Credited(o, run, n, a)
    ensures run[n].Ack? && run[n].source == Some(a)
  {
  }

  lemma ChainEndsAt(o: Limits, run: seq<Event>, m: nat, a: Addr)
    requires m < |run| && Credited(o, run, m, a)
    ensures var c := Chain(o, run, m + 1, a); c != [] && c[|c| - 1] == m
  {
    CreditedIsAck(o, run, m, a);
  }

  lemma Neighbours(o: Limits, run: seq<Event>, n: nat, a: Addr, acks: seq<nat>, k: nat)
    requires n < |run| && Enough(o, run, n, a, acks) && 0 < k < |acks|
    ensures acks[k - 1] < acks[k] <= n && run[acks[k]].Ack? && run[acks[k - 1]].Ack?
    ensures Credited(o, run, acks[k], a) && Credited(o, run, acks[k - 1], a)
    ensures run[acks[k]].now - run[acks[k - 1]].now <= o.failureAfter && Listed(run, a, acks[k - 1], acks[k])
  {
    hide Credited;
    InOrder(o, run, n, a, acks, 0, k - 1);
  }

  /** The chain that ends at the k-th of such acknowledgements has at least k + 1 members. */
  lemma {:induction false} EnoughInChain(o: Limits, run: seq<Event>, n: nat, a: Addr, acks: seq<nat>, k: nat)
    requires Monotone(run) && n < |run| && Enough(o, run, n, a, acks) && k < |acks|
    ensures acks[k] < |run| && |Chain(o, run, acks[k] + 1, a)| >= k + 1
  {
    hide Credited, Enough, Monotone, Listed, Chain;
    FirstCredited(o, run, n, a, acks, k);
    ChainEndsAt(o, run, acks[k], a);
    if k > 0 {
      EnoughInChain(o, run, n, a, acks, k - 1);
      Neighbours(o, run, n, a, acks, k);
      var m, e := acks[k - 1], acks[k];
      ChainGrows(o, run, m, e, a, e);
      var c := Chain(o, run, e, a);
      AcksOrdered(run, m, c[|c| - 1]);
      ChainExtends(o, run, e, a);
    }
  }

  lemma ChainExtends(o: Limits, run: seq<Event>, e: nat, a: Addr)
    requires e < |run| && Credited(o, run, e, a) && run[e].Ack? && Chain(o, run, e, a) != []
    requires var c := Chain(o, run, e, a); run[e].now - run[c[|c| - 1]].now <= o.failureAfter
    ensures Chain(o, run, e + 1, a) == Chain(o, run, e, a) + [e]
  {
    hide Credited;
  }

  lemma FirstCredited(o: Limits, run: seq<Event>, n: nat, a: Addr, acks: seq<nat>, k: nat)
    requires n < |run| && Enough(o, run, n, a, acks) && k < |acks|
    ensures acks[k] <= n && run[acks[k]].Ack? && Credited(o, run, acks[k], a)
  {
    hide Credited;
  }

  lemma {:induction false} InOrder(o: Limits, run: seq<Event>, n: nat, a: Addr, acks: seq<nat>, i: nat, k: nat)
    requires n < |run| && Enough(o, run, n, a, acks) && i <= k < |acks|
    ensures acks[i] <= acks[k]
    decreases k
  {
    if i < k {
      InOrder(o, run, n, a, acks, i, k - 1);
    }
  }

  lemma EnoughIsEnough(o: Limits, run: seq<Event>, n: nat, a: Addr, acks: seq<nat>)
    requires Monotone(run) && n < |run| && Enough(o, run, n, a, acks)
    ensures Credited(o, run, n, a) && |Chain(o, run, n + 1, a)| >= o.promoteAfter
  {
    hide Credited, Chain, Monotone;
    EnoughInChain(o, run, n, a, acks, |acks| - 1);
  }

  lemma PromotedByChain(o: Limits, run: seq<Event>, n: nat, a: Addr)
    requires n < |run| && run[n].Ack? && After(o, run, n).active.None?
    ensures After(o, run, n + 1).active == Some(a) <==>
            Credited(o, run, n, a) && |Chain(o, run, n + 1, a)| >= o.promoteAfter
  {
    hide Credited, Chain;
    HealthCountsChain(o, run, n + 1, a);
    CreditedExactly(o, run, n, a);
    if Credited(o, run, n, a) {
      ChainNeedsCredit(o, run, n, a);
    }
  }

  lemma ChainNeedsCredit(o: Limits, run: seq<Event>, n: nat, a: Addr)
    requires n < |run| && Credited(o, run, n, a)
    ensures Chain(o, run, n + 1, a) != []
  {
    ChainEndsAt(o, run, n, a);
  }

  lemma ChainIsEnough(o: Limits, run: seq<Event>, n: nat, a: Addr)
    requires n < |run| && Credited(o, run, n, a) && |Chain(o, run, n + 1, a)| >= o.promoteAfter
    ensures Enough(o, run, n, a, Chain(o, run, n + 1, a))
  {
    hide Credited, Chain;
    ChainEndsAt(o, run, n, a);
    ChainUnbroken(o, run, n + 1, a);
    ChainListed(o, run, n + 1, a);
  }

  /** An acknowledgement makes an address active exactly when it completes PromoteAfter in a row. */
  lemma PromotionExactly(o: Limits, run: seq<Event>, n: nat, a: Addr)
    requires Monotone(run) && n < |run| && run[n].Ack? && After(o, run, n).active.None?
    ensures After(o, run, n + 1).active == Some(a) <==> exists acks :: Enough(o, run, n, a, acks)
  {
    hide Credited, Chain, After, Enough;
    PromotedByChain(o, run, n, a);
    if Credited(o, run, n, a) && |Chain(o, run, n + 1, a)| >= o.promoteAfter {
      ChainIsEnough(o, run, n, a);
    }
    if acks :| Enough(o, run, n, a, acks) {
      EnoughIsEnough(o, run, n, a, acks);
    }
  }

  /** The ack time of the active address is that of its latest credited acknowledgement. */
  lemma LatestAck(o: Limits, run: seq<Event>, n: nat, a: Addr) returns (l: nat)
    requires Monotone(run) && n <= |run| && After(o, run, n).active == Some(a)
    ensures l < n && run[l].Ack? && Credited(o, run, l, a) && run[l].now == After(o, run, n).ack
    ensures forall m: nat :: m < n && run[m].Ack? && Credited(o, run, m, a) ==> run[m].now <= run[l].now
  {
    hide Credited, Chain, Monotone, After;
    ActiveIsBacked(o, run, n);
    HealthCountsChain(o, run, n, a);
    ChainUnbroken(o, run, n, a);
    var c := Chain(o, run, n, a);
    l := c[|c| - 1];
    assert l in CreditedSet(o, run, a);
    forall m: nat | m < n && run[m].Ack? && Credited(o, run, m, a) ensures run[m].now <= run[l].now {
      LastIsLast(o, run, n, a, m);
      AcksOrdered(run, m, l);
    }
  }

  /** A probe round drops the active address exactly when every credited acknowledgement from it is too old. */
  lemma DemotionExactly(o: Limits, run: seq<Event>, n: nat, a: Addr)
    requires Monotone(run) && n < |run| && run[n].Tick? && After(o, run, n).active == Some(a)
    ensures After(o, run, n + 1).active in {None, Some(a)}
    ensures After(o, run, n + 1).active.None? <==>
            forall m: nat :: m < n && run[m].Ack? && Credited(o, run, m, a) ==> run[n].now - run[m].now > o.failureAfter
  {
    hide Credited, Monotone;
    var l := LatestAck(o, run, n, a);
  }

  /** Nothing else makes an address active or inactive, but a new epoch and a candidate list without it. */
  lemma OtherwiseKept(o: Limits, p: Path, e: Event)
    requires e.NewEpoch? || e.Discover? || e.Record? || (e.Ack? && p.active.Some?) || (e.Tick? && p.active.None?)
    ensures Step(o, p, e).active
            == if e.NewEpoch? || (e.Discover? && p.active.Some? && p.active.value !in e.onLink) then None else p.active
  {
  }
}
