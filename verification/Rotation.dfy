/**
 Credential rotation against a controller whose replies may be lost, with crashes anywhere.

 The controller holds the hash of its one current credential and swaps it atomically. `calm` is a world
 in which no effect fails; it is what the exact success condition of `Rotate` is stated for.
 */
module Rotation {
  import opened Common
  import opened Credential

  datatype Reply = Lost | Refused | Granted(issued: int, expires: int, scope: seq<string>)
  datatype Probe = Live | Invalid | Unclear

  class Rotator {
    const fm: Formats
    var calm: bool
    var record: Option<Record>          // durable
    var server: string                  // hash of the controller's current credential
    var halted: bool
    ghost var announced: seq<string>    // successors announced since the last completed rotation

    /** The credentials the durable record can still authenticate with. */
    ghost predicate Holds(r: Record)
      reads this`server
    {
      server == fm.hash(r.credential) || (r.pending.Some? && server == r.pending.value.verifier)
    }

    /** The device is never locked out, and there is at most one successor. */
    ghost predicate Sound()
      reads this`record, this`server, this`announced
    {
      record.Some? ==>
        && Valid(fm, record.value) && Holds(record.value)
        && (record.value.pending.None? ==> server == fm.hash(record.value.credential))
        && (record.value.pending.Some? ==>
            forall i :: 0 <= i < |announced| ==> announced[i] == record.value.pending.value.verifier)
    }

    constructor (fm: Formats, calm: bool, record: Record)
      requires Valid(fm, record) && record.pending.None?
      ensures Sound() && this.record == Some(record) && this.calm == calm && this.fm == fm
    {
      this.fm, this.calm, this.record := fm, calm, Some(record);
      server, halted, announced := fm.hash(record.credential), false, [];
    }

    method Restart()
      modifies this`halted
      ensures !halted
    {
      halted := false;
    }

    method MayCrash()
      modifies this`halted
      ensures old(halted) ==> halted
      ensures calm && !old(halted) ==> !halted
    {
      var crash: bool := *;
      halted := halted || (crash && !calm);
    }

    method Ask() returns (yes: bool)
      ensures halted ==> !yes
      ensures calm && !halted ==> yes
    {
      yes := *;
      yes := (yes || calm) && !halted;
    }

    /** A failed save leaves the old record or the new one. */
    method Save(r: Record) returns (ok: bool)
      modifies this`record, this`halted
      ensures record == Some(r) || (!ok && record == old(record))
      ensures halted ==> !ok
      ensures old(halted) ==> halted && record == old(record)
      ensures calm && !old(halted) ==> ok
    {
      ok := false;
      if halted {
        return;
      }
      var late: bool := *;
      ok := *;
      ok := ok || calm;
      if ok || late {
        record := Some(r);
      }
      MayCrash();
      ok := ok && !halted;
    }

    /** A session minted with the probe proves that the controller swapped to it. The client refuses to ask
        with a probe that has expired. */
    method Mint(probe: Record, now: int) returns (p: Probe)
      modifies this`halted
      ensures p == Live ==> server == fm.hash(probe.credential)
      ensures halted || Expired(probe, now) ==> p == Unclear
      ensures old(halted) ==> halted
      ensures calm && !old(halted) ==>
                !halted && (!Expired(probe, now) ==> p == if server == fm.hash(probe.credential) then Live else Invalid)
    {
      if Expired(probe, now) {
        return Unclear;
      }
      var lost: bool, spurious: bool := *, *;
      MayCrash();
      if halted || (lost && !calm) {
        p := Unclear;
      } else if server == fm.hash(probe.credential) && (calm || !spurious) {
        p := Live;
      } else {
        p := Invalid;
      }
    }

    /** The controller swaps when the caller holds the current credential; a repeat of the swap that
        already happened may be granted again or refused; any reply may be lost. */
    method Swap(credential: string, successor: string) returns (reply: Reply)
      modifies this`server, this`halted, this`announced
      ensures server == old(server) || (server == successor && old(server) == fm.hash(credential))
      ensures reply.Granted? ==> server == successor
      ensures announced == if old(halted) then old(announced) else old(announced) + [successor]
      ensures old(halted) ==> halted && server == old(server)
      ensures halted ==> reply == Lost
      ensures calm && !old(halted) && old(server) == fm.hash(credential) ==>
                !halted && reply.Granted? && reply.issued < reply.expires <= reply.issued + MAX_LIFETIME
                  && ScopeOk(reply.scope)
    {
      reply := Lost;
      if halted {
        return;
      }
      announced := announced + [successor];
      var failed: bool, lost: bool, again: bool := *, *, *;
      if calm {
        failed, lost := false, false;
      }
      if !failed && server == fm.hash(credential) {
        server := successor;
        var issued: int, expires: int, scope: seq<string> := *, *, *;
        if calm && !(issued < expires <= issued + MAX_LIFETIME && ScopeOk(scope)) {
          issued, expires, scope := 0, MAX_LIFETIME, [MINT, ROTATE, REVOKE];
        }
        reply := Granted(issued, expires, scope);
      } else if !failed && again && server == successor {
        var issued: int, expires: int, scope: seq<string> := *, *, *;
        reply := Granted(issued, expires, scope);
      } else {
        reply := Refused;
      }
      MayCrash();
      if halted || lost {
        reply := Lost;
      }
    }

    /** A secret that can become the successor of an active identity. */
    predicate Usable(s: Secret, active: string)
    {
      fm.parse(s.value) == Some(s.credentialId) && s.credentialId != active
    }

    /** Rotate, with the secret drawn in case a successor is needed. While a successor is stored it is
        probed and reused, never replaced. */
    method Rotate(now: int, drawn: Secret) returns (ok: bool, recovered: bool)
      requires Sound()
      modifies this`record, this`server, this`halted, this`announced
      ensures Sound()
      ensures old(record).Some? ==> record.Some? && record.value.binding == old(record).value.binding
      ensures ok ==> record.Some? && record.value.pending.None? && server == fm.hash(record.value.credential)
                     && old(record).Some?
      ensures old(record).Some? && old(record).value.pending.Some? && record.value.pending.Some? ==>
                record == old(record)
      ensures ok && old(record).value.pending.Some? ==>
                record.value.credential == old(record).value.pending.value.credential
      // An expired active credential, or an expired probe, ends every recovery, whatever the controller holds.
      ensures old(record).Some? && TooLate(old(record).value, now) ==>
                !ok && record == old(record) && server == old(server) && announced == old(announced)
      // In a calm world being too late is the only obstacle, besides a secret that cannot be used.
      ensures calm && !old(halted) && old(record).Some? ==>
                (ok <==>
                    !TooLate(old(record).value, now)
                      && (old(record).value.pending.None? ==> Usable(drawn, old(record).value.credentialId)))
      ensures ok && old(record).value.pending.None? ==> record.value.credential == drawn.value
    {
      hide ScopeOk;
      ok, recovered := false, false;
      var readable := Ask();
      if !readable || record.None? {
        return;
      }
      var r := record.value;
      if Expired(r, now) {
        return;
      }
      if r.pending.Some? {
        ProbeAlwaysThere(fm, r);
        var probe := PendingRecord(fm, r).value;
        var p := Mint(probe, now);
        if p == Live {
          RecoveryPromotes(fm, r);
          ok := Save(probe);
          if ok {
            announced := [];
          }
          return ok, true;
        }
        if p != Invalid {
          return;
        }
      } else {
        PendingAccepted(fm, r, drawn, now);
        var next := WithPending(fm, r, drawn, now);
        if next.None? {
          return;
        }
        r := next.value;
        announced := [];
        ok := Save(r);
        if !ok {
          return;
        }
      }
      var reply := Swap(r.credential, r.pending.value.verifier);
      if !reply.Granted? {
        return false, false;
      }
      var promoted := PromotePending(fm, r, reply.issued, reply.expires, reply.scope);
      if promoted.None? {
        return false, false;
      }
      ok := Save(promoted.value);
      if ok {
        announced := [];
      }
    }
  }

  /** The active credential has expired, or the probe for its successor has. */
  predicate TooLate(r: Record, now: int)
  {
    Expired(r, now) || (r.pending.Some? && r.pending.value.created + PROBE_LIFETIME <= now)
  }

  /** Such states exist. The controller holds the successor, and no longer the stored active credential. At the
      first time the active credential has just expired, and the probe would be live; at the second, of
      another record, the active credential lives for half a day, and the probe has expired. */
  lemma LockOutExample()
    ensures var fm := Formats(b => true, v => Some(v), v => v);
            var b := Binding("c", "d", "n", "linux", "k");
            var p, q := Pending("new", "new", "new", 90), Pending("new", "new", "new", 34_560);
            var r := Record(b, "old", "old", 0, 100, [MINT, ROTATE, REVOKE], Some(p));
            var s := Record(b, "old", "old", 0, MAX_LIFETIME, [MINT, ROTATE, REVOKE], Some(q));
            var server := fm.hash("new");
            && Valid(fm, r) && server == p.verifier && server != fm.hash(r.credential)
            && Expired(r, 100) && PendingRecord(fm, r).Some? && !Expired(PendingRecord(fm, r).value, 100)
            && Valid(fm, s) && server == q.verifier && server != fm.hash(s.credential)
            && !Expired(s, 2_635_200) && PendingRecord(fm, s).Some? && Expired(PendingRecord(fm, s).value, 2_635_200)
  {
  }

  /** The probe ends a recovery before the active credential does exactly when the successor was announced
      earlier than the probe's lifetime before the expiry. */
  lemma ProbeEndsFirst(fm: Formats, r: Record)
    requires Valid(fm, r) && r.pending.Some?
    ensures PendingRecord(fm, r).Some?
    ensures (exists now :: Expired(PendingRecord(fm, r).value, now) && !Expired(r, now)) <==>
              r.pending.value.created < r.expires - PROBE_LIFETIME
    ensures forall now :: TooLate(r, now) <==> Expired(r, now) || Expired(PendingRecord(fm, r).value, now)
  {
    ProbeAlwaysThere(fm, r);
    var end := r.pending.value.created + PROBE_LIFETIME;
    assert Expired(PendingRecord(fm, r).value, end);
    assert r.pending.value.created < r.expires - PROBE_LIFETIME ==> !Expired(r, end);
  }

  /** The lock-out that does happen: a successor was announced, the reply was lost - whether the controller
      swapped or not - and the probe or the old credential expires before the next try. From then on no
      rotation ever succeeds, however often it is tried. */
  method LockedOut(w: Rotator, since: int) returns (results: seq<bool>)
    requires w.Sound() && w.record.Some? && w.record.value.pending.Some? && TooLate(w.record.value, since)
    modifies w
    ensures forall i :: 0 <= i < |results| ==> !results[i]
    ensures w.record == old(w.record) && w.server == old(w.server)
  {
    results := [];
    var tries: nat := *;
    while tries > 0
      invariant w.Sound() && w.record == old(w.record) && w.server == old(w.server)
      invariant forall i :: 0 <= i < |results| ==> !results[i]
    {
      w.halted, w.calm := false, *;
      var later: int, id: string, value: string := *, *, *;
      var ok, recovered := w.Rotate(if later < since then since else later, Secret(id, value));
      results := results + [ok];
      tries := tries - 1;
    }
  }

  /** Every run of rotations, lost replies, failed saves and crashes: the record is never lost, and it
      holds a credential that the controller accepts. */
  method AnyRun(w: Rotator)
    requires w.Sound() && w.record.Some?
    modifies w
    ensures w.Sound() && w.record.Some? && w.Holds(w.record.value)
    ensures w.record.value.binding == old(w.record).value.binding
  {
    var steps: nat := *;
    while steps > 0
      invariant w.Sound() && w.record.Some? && w.record.value.binding == old(w.record).value.binding
    {
      w.Restart();
      var now: int, id: string, value: string := *, *, *;
      var _, _ := w.Rotate(now, Secret(id, value));
      steps := steps - 1;
    }
  }
}
