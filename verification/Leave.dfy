/**
 Leaving the network with the device credential: a revoke that survives crashes, then the runtime, the
 credential and the owned files, in an order that keeps the leave resumable.

 As in `DeviceWorld`, a crash sets `halted` and turns every later effect into a failure; `calm` is a
 world without failures. The ghost log records whether each effect was right when it happened.
 */
module Leave {
  import opened Common
  import opened RuntimeView

  datatype File = Checkpoint | LastKnown | Contract | SigningKeys | Secret | Policy | Operation

  /** ClearOwnedState's order: the operation record goes last. */
  function Order(): seq<File>
  {
    [Checkpoint, LastKnown, Contract, SigningKeys, Secret, Policy, Operation]
  }

  /** The files that are left when the first n of the order are gone. */
  function Left(present: set<File>, n: nat): set<File>
    requires n <= 7
  {
    set f | f in present && f !in Order()[..n]
  }

  datatype Who = Who(controller: string, device: string, network: string)
  datatype Record = Record(who: Who, nonce: string, committed: bool)
  datatype Credential = Credential(who: Who, key: string, expires: int)

  datatype Event =
    | RevokeSent(nonce: string, proper: bool)  // the nonce is the durable record's, and it is not committed yet
    | RecordSaved(steady: bool)        // no record before, or the same nonce and no commitment lost
    // no runtime was to be seen, and the controller had confirmed the revoke unless the leave is local
    | CredentialDeleted(clean: bool)

  predicate Good(e: Event)
  {
    match e
    case RevokeSent(_, b) => b
    case RecordSaved(b) => b
    case CredentialDeleted(b) => b
  }

  /** The log only grew, and every revoke sent meanwhile carries this nonce. */
  ghost predicate RevokesCarry(before: seq<Event>, after: seq<Event>, nonce: string)
  {
    before <= after && forall i :: |before| <= i < |after| && after[i].RevokeSent? ==> after[i].nonce == nonce
  }

  ghost predicate NoRevokes(before: seq<Event>, after: seq<Event>)
  {
    before <= after && forall i :: |before| <= i < |after| ==> !after[i].RevokeSent?
  }

  class World {
    var calm: bool
    var present: set<File>
    var known: Who                 // content of the last-known file
    var knownKey: string
    var record: Record             // content of the operation file
    var credential: Option<Credential>
    var runtime: View              // what is on record about the runtime
    var available: bool            // its programs are installed, and we have the privilege
    var halted: bool
    ghost var confirmed: set<string>  // nonces of the revokes the controller carried out
    ghost var overlooked: bool     // some leave could not see a runtime that was on record
    ghost var disturbed: bool      // a down or a clean-up changed something and failed, or the runtime broke by itself
    ghost var log: seq<Event>

    /** Every effect was right when it happened, and a durable receipt is the controller's. */
    ghost predicate HonestLog()
      reads this`log, this`present, this`record, this`confirmed
    {
      && (forall i :: 0 <= i < |log| ==> Good(log[i]))
      && (Committed() ==> record.nonce in confirmed)
    }

    predicate RuntimeGone()
      reads this`runtime
    {
      runtime.active.None?
    }

    /** Neither credential nor owned files. */
    predicate Cleared()
      reads this`present, this`credential
    {
      present == {} && credential.None?
    }

    predicate Gone()
      reads this`present, this`credential, this`runtime
    {
      Cleared() && RuntimeGone()
    }

    /** Gone, but for a runtime that some leave could not see. */
    ghost predicate Done()
      reads this`present, this`credential, this`runtime, this`overlooked
    {
      Cleared() && (RuntimeGone() || overlooked)
    }

    /** Nothing a leave can see is left of the runtime. */
    predicate Unseen()
      reads this`runtime, this`available
    {
      RuntimeGone() || !available
    }

    /** What a leave looks at first; with none of it, it reports that the device already left. */
    predicate Quiet()
      reads this`present, this`credential
    {
      LastKnown !in present && credential.None? && Operation !in present
    }

    /** Whom the leave speaks for. */
    function Subject(): Who
      reads this`present, this`credential, this`known, this`record
    {
      var who := if LastKnown in present then known else if credential.Some? then credential.value.who else Who("", "",
        "");
      if who.controller == "" && Operation in present then record.who else who
    }

    /** The durable pieces disagree about the device. */
    predicate Conflict()
      reads this`present, this`credential, this`known, this`knownKey, this`record
    {
      || (&& LastKnown in present && credential.Some?
          && (credential.value.who != known || credential.value.key != knownKey))
      || (Operation in present && record.who != Subject())
    }

    /** The controller still has to hear about it. */
    predicate MustRevoke(localOnly: bool)
      reads this`present, this`record
    {
      !localOnly && !Committed()
    }

    method Ask() returns (yes: bool)
      ensures halted ==> !yes
      ensures calm && !halted ==> yes
    {
      yes := *;
      yes := (yes || calm) && !halted;
    }

    /** One effect: it fails in a dead process, succeeds in a calm world, and may take place although it
        reports failure, or be the last thing the process does. */
    method Attempt() returns (done: bool, ok: bool)
      modifies this`halted
      ensures old(halted) ==> !done && halted
      ensures ok ==> done && !halted
      ensures calm && !old(halted) ==> ok && !halted
    {
      done, ok := false, false;
      if halted {
        return;
      }
      var works: bool, reports: bool, crash: bool := *, *, *;
      done := works || calm;
      halted := crash && !calm;
      ok := done && (reports || calm) && !halted;
    }

    method SaveRecord(r: Record) returns (ok: bool)
      modifies this`present, this`record, this`halted, this`log
      ensures (present == old(present) && record == old(record) && !ok)
              || (present == old(present) + {Operation} && record == r)
      ensures old(halted) ==> halted && present == old(present) && record == old(record)
      ensures halted ==> !ok
      ensures calm && !old(halted) ==> ok
      ensures NoRevokes(old(log), log)
      ensures (&& old(HonestLog()) && (r.committed ==> r.nonce in confirmed)
               && (Operation in old(present) ==>
                   r.nonce == old(record).nonce && (old(record).committed ==> r.committed)))
              ==> HonestLog()
    {
      var done;
      done, ok := Attempt();
      if done {
        log := log + [RecordSaved(Operation in present ==>
            r.nonce == record.nonce && (record.committed ==> r.committed))];
        present, record := present + {Operation}, r;
      }
    }

    /** One removal. */
    method Remove(f: File) returns (ok: bool)
      modifies this`present, this`halted
      ensures present == old(present) - {f} || (!ok && present == old(present))
      ensures old(halted) ==> halted && !ok
      ensures halted ==> !ok
      ensures calm && !old(halted) ==> ok
    {
      var done;
      done, ok := Attempt();
      if done {
        present := present - {f};
      }
    }

    method DeleteCredential(local: bool) returns (ok: bool)
      modifies this`credential, this`halted, this`log
      ensures credential == None || (!ok && credential == old(credential))
      ensures old(halted) ==> credential == old(credential)
      ensures halted ==> !ok
      ensures calm && !old(halted) ==> ok
      ensures NoRevokes(old(log), log)
      ensures old(HonestLog()) && Unseen() && (local || Committed()) ==> HonestLog()
    {
      var done;
      done, ok := Attempt();
      if done {
        log := log + [CredentialDeleted(Unseen() && (local || (Committed() && record.nonce in confirmed)))];
        credential := None;
      }
    }

    /** A receipt is durable. */
    predicate Committed()
      reads this`present, this`record
    {
      Operation in present && record.committed
    }

    /** The revoke call, with the nonce of the durable record. The controller may carry it out and the reply be
        lost; a reply that says so is true. */
    method Revoke(nonce: string) returns (revoked: bool)
      modifies this`halted, this`log, this`confirmed
      ensures revoked ==> nonce in confirmed
      ensures old(confirmed) <= confirmed <= old(confirmed) + {nonce}
      ensures halted ==> !revoked
      ensures old(halted) ==> halted
      ensures calm && !old(halted) ==> revoked
      ensures RevokesCarry(old(log), log, nonce)
      ensures old(HonestLog()) && Operation in present && record.nonce == nonce && !record.committed ==> HonestLog()
    {
      revoked := false;
      if halted {
        return;
      }
      log := log + [RevokeSent(nonce, Operation in present && record.nonce == nonce && !record.committed)];
      var done;
      done, revoked := Attempt();
      if done {
        confirmed := confirmed + {nonce};
      }
    }

    /** Down, as the runtime's own contract has it. */
    method Down() returns (ok: bool)
      modifies this`runtime, this`halted
      ensures DownStep(old(runtime), runtime, ok)
      ensures old(halted) ==> halted && runtime == old(runtime)
      ensures halted ==> !ok
      ensures calm && !old(halted) ==> !halted && (ok <==> Downable(old(runtime))) && (!ok ==> runtime == old(runtime))
    {
      ok := Ask();
      if !ok || !Downable(runtime) {
        return false;
      }
      if runtime.active.None? || runtime.active.value.stopped {
        return;
      }
      var m := runtime.active.value;
      var done, healthy: bool, stoppable: bool;
      done, ok := Attempt();
      healthy, stoppable := *, *;
      if done {
        var marked: bool := *;
        runtime := View(Some(Mark(marked || ok, m.intact, healthy, stoppable)), runtime.lastGood);
      }
    }

    /** Cleanup: files first, then the active manifest, then the other. */
    method Cleanup() returns (ok: bool)
      modifies this`runtime, this`halted
      ensures CleanStep(old(runtime), runtime, ok)
      ensures old(halted) ==> halted && runtime == old(runtime)
      ensures halted ==> !ok
      ensures calm && !old(halted) ==> !halted && (ok <==> Cleanable(old(runtime))) && (!ok ==> runtime == old(runtime))
    {
      ok := Ask();
      if !ok || !Cleanable(runtime) {
        return false;
      }
      var done;
      if runtime.active.Some? {
        done, ok := Attempt();
        if done {
          var shared: bool := *;
          runtime := View(Some(runtime.active.value.(intact := false)), if shared
            && runtime.lastGood.Some? then Some(false) else runtime.lastGood);
        }
      }
      if ok && runtime.lastGood.Some? {
        done, ok := Attempt();
        if done {
          runtime := runtime.(lastGood := Some(false));
        }
      }
      if ok && runtime.active.Some? {
        done, ok := Attempt();
        if done {
          runtime := runtime.(active := None);
        }
      }
      if ok && runtime.lastGood.Some? {
        done, ok := Attempt();
        if done {
          runtime := runtime.(lastGood := None);
        }
      }
    }

    /** What a status calls applied. */
    predicate Up(m: Mark)
    {
      m.healthy && !m.stopped
    }

    /** Status: without programs or privilege there is nothing on record. */
    method Status() returns (ok: bool, recorded: bool, applied: bool)
      ensures ok ==> !halted && (recorded <==> !Unseen()) && (applied ==> recorded && Up(runtime.active.value))
      ensures calm && !halted ==> ok && (recorded ==> (applied <==> Up(runtime.active.value)))
    {
      applied := false;
      recorded := !Unseen();
      ok := Ask();
      if ok && recorded {
        var healthy := Ask();
        applied := healthy && Up(runtime.active.value);
      }
    }

    /** cleanupOwnedRuntime: a healthy runtime is taken down, a recorded one cleaned up. */
    method CleanupRuntime() returns (ok: bool)
      modifies this`runtime, this`halted, this`overlooked, this`disturbed
      ensures halted ==> !ok
      ensures old(halted) ==> halted && runtime == old(runtime)
      ensures ok ==> Unseen() && (RuntimeGone() || overlooked)
      ensures !available ==> runtime == old(runtime)
      ensures old(RuntimeGone()) ==> runtime == old(runtime)
      // Without failures, exactly a blocked runtime stands in the way, and stays blocked.
      ensures calm && !old(halted) ==>
                !halted && (ok <==> !available || !old(Blocked(runtime))) && (!ok ==> Blocked(runtime))
      ensures calm && !ok && old(runtime).active.Some? && !Up(old(runtime).active.value) ==> runtime == old(runtime)
      ensures old(HalfCleaned(runtime)) ==> runtime == old(runtime) && (available ==> !ok)
      ensures Blocked(runtime) ==> old(Blocked(runtime)) || disturbed
      ensures old(overlooked) ==> overlooked
      ensures overlooked ==> old(overlooked) || !available
      ensures old(disturbed) ==> disturbed
      ensures calm ==> disturbed == old(disturbed)
    {
      var recorded, applied;
      ok, recorded, applied := Status();
      if !ok {
        return;
      }
      if !recorded {
        overlooked := overlooked || runtime.active.Some?;
        return;
      }
      ghost var before := runtime;
      if applied {
        ok := Down();
        if !ok {
          disturbed := disturbed || runtime != before;
          return;
        }
      }
      before := runtime;
      ok := Cleanup();
      disturbed := disturbed || (!ok && runtime != before);
    }

    /** ClearOwnedState: whatever stops it, what is left is a tail of the order. */
    method ClearOwnedState() returns (ok: bool)
      modifies this`present, this`halted
      ensures exists n :: 0 <= n <= 7 && present == Left(old(present), n)
      ensures Operation in old(present) ==> Operation in present || present == {}
      ensures present <= old(present) && (old(HonestLog()) ==> HonestLog())
      ensures ok ==> present == {} && !halted
      ensures calm && !old(halted) ==> ok
    {
      assert present == Left(present, 0);
      ghost var before := present;
      for n := 0 to 7
        invariant present == Left(before, n)
        invariant old(halted) && n == 0 ==> halted
        invariant calm && !old(halted) ==> !halted
        invariant n > 0 && old(halted) ==> halted || n == 0
      {
        var f := Order()[n];
        LeftStep(before, n);
        RecordOutlivesAll(before, n);
        RecordOutlivesAll(before, n + 1);
        var regular := Ask();
        if f in present {
          if !regular {
            return false;
          }
          ok := Remove(f);
          if !ok {
            return;
          }
        }
      }
      LeftNothing(before);
      ok := Ask();
    }

    // ---------- the leave ----------

    /** The remote half: the nonce is durable before the first revoke, the receipt after the controller's answer. */
    method RevokeRemotely(now: int) returns (ok: bool)
      requires HonestLog() && MustRevoke(false) && !Conflict()
      modifies this`present, this`record, this`halted, this`log, this`confirmed
      ensures HonestLog()
      ensures Operation in old(present) ==> old(confirmed) <= confirmed
      ensures ok ==> record.nonce in confirmed
      ensures present == old(present) || present == old(present) + {Operation}
      ensures ok ==> Operation in present && record.committed && !halted
      ensures Operation in old(present) ==> record.nonce == old(record).nonce
      ensures RevokesCarry(old(log), log, record.nonce)
      ensures Operation !in present ==> NoRevokes(old(log), log)
      ensures !Conflict()
      ensures calm && !old(halted) ==> !halted && (ok <==> Revocable(now))
      ensures calm && !old(halted) && !ok ==> present == old(present) && record == old(record)
    {
      if credential.None? || credential.value.expires <= now {
        return false;
      }
      ok := Ask();
      if !ok {
        return;
      }
      var r := record;
      if Operation !in present {
        var nonce: string := *;
        confirmed := confirmed - {nonce};  // a drawn nonce is new
        r := Record(Subject(), nonce, false);
        ok := SaveRecord(r);
        if !ok {
          return;
        }
      }
      ok := Revoke(r.nonce);
      if ok {
        ok := SaveRecord(r.(committed := true));
      }
    }

    /** LeaveWithDeviceCredential. */
    method Leave(localOnly: bool, now: int) returns (ok: bool, already: bool)
      requires HonestLog()
      modifies this`present, this`record, this`credential, this`runtime, this`halted, this`overlooked, this`disturbed
      modifies this`log, this`confirmed
      ensures HonestLog()
      // The controller has carried out the revoke before the credential goes.
      ensures !localOnly && ok && !already ==> record.nonce in confirmed
      ensures !localOnly && old(credential).Some? && credential.None? ==>
                record.nonce in confirmed && (Operation in present || Done())
      ensures Operation in old(present) ==> old(confirmed) <= confirmed
      ensures ok && !already ==> Cleared() && Unseen() && (RuntimeGone() || overlooked)
      ensures !available ==> runtime == old(runtime)
      // An interrupted leave keeps its record until everything is gone, and a remote one always has one by then.
      ensures old(Cleared()) ==>
                Cleared() && runtime == old(runtime) && log == old(log) && record == old(record)
                  && confirmed == old(confirmed)
      ensures Operation in old(present) ==> Operation in present || Done()
      ensures !localOnly && !old(Quiet()) ==> !Quiet() || (Done() && record.nonce in confirmed)
      // One leave, one nonce.
      ensures RevokesCarry(old(log), log, record.nonce)
      ensures Operation in old(present) ==> record.nonce == old(record).nonce
      ensures NoRevokes(old(log), log) || Operation in present || Done()
      ensures !old(Conflict()) ==> !Conflict()
      ensures already ==> ok && old(Quiet()) && present == old(present)
      // Without failures, exactly this decides whether the leave finishes.
      ensures calm && !old(halted) ==>
                (ok <==>
                  || old(Quiet())
                  || (&& !old(Conflict()) && (old(MustRevoke(localOnly)) ==> old(Revocable(now)))
                      && (available ==> !old(Blocked(runtime)))))
      ensures calm && !old(halted) && !ok ==>
                credential == old(credential) && present - {Operation} == old(present) - {Operation}
      ensures calm && !old(halted) && !ok
              && (old(Conflict()) || (old(MustRevoke(localOnly)) && !old(Revocable(now)))) ==>
                present == old(present) && record == old(record) && runtime == old(runtime)
      ensures calm && !old(halted) && !ok && !old(MustRevoke(localOnly)) ==>
                present == old(present) && record == old(record)
      ensures calm && !old(halted) ==> !halted
      ensures calm && !old(halted) && !ok && !old(Conflict())
              && (old(MustRevoke(localOnly)) ==> old(Revocable(now))) ==>
                available && Blocked(runtime) && !MustRevoke(localOnly)
      ensures calm && !old(halted) && ok ==> (already <==> old(Quiet()))
      // What the runtime's own refusals leave behind.
      ensures Blocked(runtime) ==> old(Blocked(runtime)) || disturbed
      ensures calm && !ok && old(runtime).active.Some? && !Up(old(runtime).active.value) ==> runtime == old(runtime)
      ensures old(HalfCleaned(runtime)) ==> runtime == old(runtime) && (available && !old(Quiet()) ==> !ok && !Quiet())
      ensures old(overlooked) ==> overlooked
      ensures overlooked ==> old(overlooked) || !available
      ensures old(disturbed) ==> disturbed
      ensures calm ==> disturbed == old(disturbed)
    {
      hide HonestLog, Subject, Blocked, HalfCleaned;
      already := false;
      ok := Ask();
      if !ok {
        return;
      }
      if Quiet() {
        return true, true;
      }
      if Conflict() {
        return false, false;
      }
      if MustRevoke(localOnly) {
        ok := RevokeRemotely(now);
        if !ok {
          return;
        }
      }
      ok := CleanupLocally(localOnly);
    }

    predicate Revocable(now: int)
      reads this`credential
    {
      credential.Some? && now < credential.value.expires
    }

    /** The local half, in this order: the runtime, the credential, the files. */
    method CleanupLocally(localOnly: bool) returns (ok: bool)
      requires HonestLog() && !Conflict() && (localOnly || Committed())
      modifies this`present, this`credential, this`runtime, this`halted, this`overlooked, this`disturbed, this`log
      ensures HonestLog() && !Conflict()
      ensures !localOnly ==> record.nonce in confirmed
      ensures ok ==> Cleared() && Unseen() && (RuntimeGone() || overlooked)
      ensures !available ==> runtime == old(runtime)
      ensures NoRevokes(old(log), log)
      ensures old(RuntimeGone()) ==> runtime == old(runtime)
      ensures Operation in old(present) ==> Operation in present || Done()
      ensures calm && !old(halted) ==>
                && !halted && (ok <==> !available || !old(Blocked(runtime)))
                && (!ok ==> Blocked(runtime) && present == old(present) && credential == old(credential))
      ensures Blocked(runtime) ==> old(Blocked(runtime)) || disturbed
      ensures calm && !ok && old(runtime).active.Some? && !Up(old(runtime).active.value) ==> runtime == old(runtime)
      ensures old(HalfCleaned(runtime)) ==> runtime == old(runtime)
      ensures old(HalfCleaned(runtime)) && available ==> !ok && present == old(present) && credential == old(credential)
      ensures old(overlooked) ==> overlooked
      ensures overlooked ==> old(overlooked) || !available
      ensures old(disturbed) ==> disturbed
      ensures calm ==> disturbed == old(disturbed)
    {
      assert !localOnly ==> record.nonce in confirmed;
      hide HonestLog, Blocked, HalfCleaned;
      ok := CleanupRuntime();
      if !ok {
        return;
      }
      if credential.Some? {
        ok := DeleteCredential(localOnly);
        if !ok {
          return;
        }
      }
      ok := ClearOwnedState();
    }
  }

  lemma LeftStep(before: set<File>, n: nat)
    requires n < 7
    ensures Left(before, n + 1) == Left(before, n) - {Order()[n]}
  {
    assert Order()[..n + 1] == Order()[..n] + [Order()[n]];
  }

  lemma LeftNothing(before: set<File>)
    ensures Left(before, 7) == {}
  {
    forall f: File ensures f in Order()[..7] {
      assert Order()[..7] == Order();
      match f {
        case Checkpoint => assert Order()[0] == f;
        case LastKnown => assert Order()[1] == f;
        case Contract => assert Order()[2] == f;
        case SigningKeys => assert Order()[3] == f;
        case Secret => assert Order()[4] == f;
        case Policy => assert Order()[5] == f;
        case Operation => assert Order()[6] == f;
      }
    }
  }

  /** However far the removal got, the operation record is there until nothing else is: an interrupted
      leave that has a record is always recognised as one. */
  lemma RecordOutlivesAll(before: set<File>, n: nat)
    requires n <= 7
    ensures Operation in Left(before, n) <==> Operation in before && n < 7
    ensures Operation in before && Operation !in Left(before, n) ==> Left(before, n) == {}
  {
    if n < 7 {
      assert forall i :: 0 <= i < n ==> Order()[i] != Operation;
    } else {
      LeftNothing(before);
    }
  }

  /** What an interrupted removal leaves is overlooked exactly when no record was there and the last-known
      file was missing or already gone. */
  lemma OverlookedExactly(before: set<File>, n: nat)
    requires n <= 7
    ensures var left := Left(before, n);
            left != {} && LastKnown !in left && Operation !in left <==>
            left != {} && Operation !in before && (LastKnown !in before || n >= 2)
  {
    RecordOutlivesAll(before, n);
    assert Order()[1] == LastKnown;
    if n >= 2 {
      assert Order()[..n][1] == LastKnown;
    } else {
      assert forall i :: 0 <= i < n ==> Order()[i] != LastKnown;
    }
  }

  /** The smallest such case: a leave without a record, interrupted after the last-known file. */
  lemma StrandedWithoutRecord()
    ensures var before := {Checkpoint, LastKnown, Contract, SigningKeys, Secret, Policy};
            var left := Left(before, 2);
            LastKnown !in left && Operation !in left && left == {Contract, SigningKeys, Secret, Policy}
  {
    assert Order()[..2] == [Checkpoint, LastKnown];
  }

  /** The next leave then: it succeeds, says the device already left, and removes nothing. */
  method StrandedLeave(w: World, localOnly: bool, now: int) returns (ok: bool)
    requires w.calm && !w.halted && w.HonestLog() && w.credential.None?
             && w.present == {Contract, SigningKeys, Secret, Policy}
    modifies w
    ensures ok && w.present == old(w.present)
  {
    var already;
    ok, already := w.Leave(localOnly, now);
  }

  // ---------- whole runs ----------

  /** What holds from call to call of one leave that has been going on since `start`. */
  ghost predicate OneNonce(w: World, start: seq<Event>)
    reads w
  {
    RevokesCarry(start, w.log, w.record.nonce) && (NoRevokes(start, w.log) || Operation in w.present || w.Done())
  }

  /** Between two leaves: a new process, another mood of the system, and a runtime that may have died. */
  method Meanwhile(w: World)
    modifies w`halted, w`calm, w`available, w`runtime, w`disturbed
    ensures !w.halted && !w.calm
    ensures w.RuntimeGone() <==> old(w.RuntimeGone())
    ensures old(w.disturbed) ==> w.disturbed
    ensures Blocked(w.runtime) ==> old(Blocked(w.runtime)) || w.disturbed
  {
    w.halted, w.calm := false, false;
    w.available := *;
    var died: bool := *;
    if died && w.runtime.active.Some? {
      var m, stoppable: bool := w.runtime.active.value, *;
      w.runtime := View(Some(m.(healthy := false, stoppable := stoppable)), w.runtime.lastGood);
      w.disturbed := true;
    }
  }

  /** Leaves of any kind that failed or crashed anywhere, then one in a calm world with the runtime's programs
      there. Once the record is there, a success of that last one means that everything is gone, but for a
      runtime that an earlier leave could not see; it fails only while the controller still has to hear of it
      and the credential is dead, or while the runtime is blocked - which it was from the start, or came to be
      by a step interrupted half-way or by dying. All revokes on the way carried the record's nonce. */
  method Converges(w: World, localOnly: bool, now: int) returns (ok: bool)
    requires w.HonestLog() && !w.Conflict() && Operation in w.present
    requires !w.overlooked && !w.disturbed
    modifies w
    ensures ok ==> w.Cleared() && (w.RuntimeGone() || w.overlooked)
    ensures !ok ==> (w.MustRevoke(localOnly) && !w.Revocable(now)) || Blocked(w.runtime)
    ensures Blocked(w.runtime) ==> old(Blocked(w.runtime)) || w.disturbed
    ensures w.HonestLog() && RevokesCarry(old(w.log), w.log, old(w.record).nonce)
  {
    var runs: nat := *;
    while runs > 0
      invariant w.HonestLog() && !w.Conflict() && (Operation in w.present || w.Done())
      invariant w.record.nonce == old(w.record).nonce && OneNonce(w, old(w.log))
      invariant Blocked(w.runtime) ==> old(Blocked(w.runtime)) || w.disturbed
    {
      hide Blocked, HalfCleaned, World.HonestLog, World.Conflict;
      Meanwhile(w);
      var local: bool, at: int := *, *;
      var _, _ := w.Leave(local, at);
      runs := runs - 1;
    }
    hide Blocked, HalfCleaned, World.HonestLog, World.Conflict;
    w.halted, w.calm, w.available := false, true, true;
    var already;
    ok, already := w.Leave(localOnly, now);
  }

  /** What holds from call to call of leaves that all reach out to the controller: a leave is always recognised
      until everything is gone, and a credential that was there only goes after the controller has carried out
      the revoke. */
  ghost predicate Underway(w: World, start: seq<Event>, had: bool)
    reads w
  {
    && OneNonce(w, start)
    && (!w.Quiet() || (w.Done() && w.record.nonce in w.confirmed))
    && (had && w.credential.None? ==> w.record.nonce in w.confirmed && (Operation in w.present || w.Done()))
  }

  method LeaveRemotely(w: World, now: int, ghost start: seq<Event>, ghost had: bool) returns (ok: bool)
    requires w.HonestLog() && !w.Conflict() && Underway(w, start, had)
    modifies w
    ensures w.HonestLog() && !w.Conflict() && Underway(w, start, had)
    ensures w.calm == old(w.calm) && w.available == old(w.available)
    ensures ok ==> w.Cleared() && (w.RuntimeGone() || w.overlooked) && w.record.nonce in w.confirmed
    ensures w.calm && w.available && !old(w.halted) && !ok ==>
              (w.MustRevoke(false) && !w.Revocable(now)) || Blocked(w.runtime)
    ensures Blocked(w.runtime) ==> old(Blocked(w.runtime)) || w.disturbed
    ensures old(w.disturbed) ==> w.disturbed
  {
    hide Blocked, HalfCleaned, World.HonestLog, World.Conflict;
    var already;
    ok, already := w.Leave(false, now);
  }

  /** The same for leaves that all reach out to the controller, from any joined state, record or not: they
      save a record before they remove anything. A success, or as much as the loss of the credential, means
      that the controller has carried out the revoke under the record's nonce. */
  method ConvergesRemotely(w: World, now: int) returns (ok: bool)
    requires w.HonestLog() && !w.Conflict() && !w.Quiet()
    requires !w.overlooked && !w.disturbed
    modifies w
    ensures ok ==> w.Cleared() && (w.RuntimeGone() || w.overlooked)
    ensures !ok ==> (w.MustRevoke(false) && !w.Revocable(now)) || Blocked(w.runtime)
    ensures Blocked(w.runtime) ==> old(Blocked(w.runtime)) || w.disturbed
    ensures w.HonestLog() && OneNonce(w, old(w.log))
    ensures ok || (old(w.credential).Some? && w.credential.None?) ==> w.record.nonce in w.confirmed
  {
    ghost var had := w.credential.Some?;
    var runs: nat := *;
    while runs > 0
      invariant w.HonestLog() && !w.Conflict() && Underway(w, old(w.log), had)
      invariant Blocked(w.runtime) ==> old(Blocked(w.runtime)) || w.disturbed
    {
      hide Blocked, HalfCleaned, World.HonestLog, World.Conflict, OneNonce;
      Meanwhile(w);
      var at: int := *;
      var _ := LeaveRemotely(w, at, old(w.log), had);
      runs := runs - 1;
    }
    hide Blocked, HalfCleaned, World.HonestLog, World.Conflict, OneNonce;
    w.halted, w.calm, w.available := false, true, true;
    ok := LeaveRemotely(w, now, old(w.log), had);
  }

  /** A device that is joined, consistently recorded, with a live credential and a healthy runtime of its own leaves in
      one go where nothing fails - whether it tells the controller or not. */
  method CleanLeave(w: World, localOnly: bool, now: int) returns (ok: bool, already: bool)
    requires w.calm && !w.halted && w.available && w.HonestLog() && LastKnown in w.present && Operation !in w.present
    requires w.known.controller != "" && w.credential.Some? && now < w.credential.value.expires
    requires w.credential.value.who == w.known && w.credential.value.key == w.knownKey
    requires w.runtime == View(Some(Mark(false, true, true, true)), None)
    modifies w
    ensures ok && !already && w.Gone() && (!localOnly ==> w.record.nonce in w.confirmed)
  {
    ok, already := w.Leave(localOnly, now);
  }

  /** Where the credential is not the joined device's, or the record is another device's, a leave refuses and changes
      nothing. */
  method ForeignLeave(w: World, localOnly: bool, now: int) returns (ok: bool, already: bool)
    requires w.calm && !w.halted && w.HonestLog() && LastKnown in w.present && w.known.controller != ""
    requires || (w.credential.Some? && (w.credential.value.who != w.known || w.credential.value.key != w.knownKey))
             || (Operation in w.present && w.record.who != w.known)
    modifies w
    ensures !ok && w.present == old(w.present) && w.credential == old(w.credential) && w.runtime == old(w.runtime)
  {
    ok, already := w.Leave(localOnly, now);
  }

  /** A joined device whose runtime died without being stopped cannot leave, although the controller has
      confirmed and nothing fails; after a down it can. */
  method UnhealthyRuntime(w: World, localOnly: bool, now: int) returns (before: bool, after: bool)
    requires w.calm && !w.halted && w.available && w.HonestLog() && !w.Conflict() && Operation in w.present
             && w.record.committed
    requires w.runtime == View(Some(Mark(false, true, false, true)), None)
    modifies w
    ensures !before && after && w.Gone()
  {
    var already;
    before, already := w.Leave(localOnly, now);
    var down := w.Down();
    after, already := w.Leave(localOnly, now);
  }

  /** A clean-up that was interrupted between files and manifest blocks every later leave for good. */
  method HalfCleanedForever(w: World) returns (results: seq<bool>)
    requires w.HonestLog() && !w.Quiet() && HalfCleaned(w.runtime)
    modifies w
    ensures forall i :: 0 <= i < |results| ==> !results[i]
    ensures w.runtime == old(w.runtime) && !w.Quiet()
  {
    results := [];
    var runs: nat := *;
    while runs > 0
      invariant w.HonestLog() && !w.Quiet() && HalfCleaned(w.runtime) && w.runtime == old(w.runtime)
      invariant forall i :: 0 <= i < |results| ==> !results[i]
    {
      w.halted, w.available := false, true;
      w.calm := *;
      var local: bool, at: int := *, *;
      var ok, already := w.Leave(local, at);
      results := results + [ok];
      runs := runs - 1;
    }
  }

  /** Without the programs, or without the privilege, a leave does not see the runtime: it succeeds, and the
      runtime keeps running, on record, with the credential gone. */
  method OverlookedRuntime(w: World, localOnly: bool, now: int) returns (ok: bool)
    requires w.calm && !w.halted && !w.available && w.HonestLog() && !w.Conflict() && Operation in w.present
             && w.record.committed
    requires w.runtime == View(Some(Mark(false, true, true, true)), None)
    modifies w
    ensures ok && w.Cleared() && w.runtime == old(w.runtime)
  {
    var already;
    ok, already := w.Leave(localOnly, now);
  }
}
