/**
 Whole runs of one device: joins and syncs in any order, with crashes and restarts anywhere, and with
 credentials and sessions that other operations replace in between.
 */
module DeviceRuns {
  import opened Common
  import opened DeviceWorld
  import Join
  import DeviceSync

  /** Between two runs: a new process, another time and other luck, and whatever other operations do to the
      credential, the session and the runtime. */
  method Meanwhile(d: Device)
    modifies d`halted, d`calm, d`clock, d`secret, d`credential, d`running, d.floor`readable, d.floor`writable
  {
    d.Restart();
    d.calm, d.clock, d.secret, d.credential, d.running := *, *, *, *, *;
    d.floor.readable, d.floor.writable := *, *;
  }

  lemma AtMostOneKey(d: Device, server: string, device: string)
    requires d.OneKey(server, device)
    ensures |d.keys| <= 1
  {
  }

  method OneJoin(d: Device, server: string, device: string)
    requires d.Sound() && d.OneKey(server, device)
    modifies d, d.floor`bindings
    ensures d.Sound() && d.OneKey(server, device)
  {
    hide Device.Sound, Device.OneKey;
    var mode: Join.Mode, hasCredentials: bool, q: Join.Request, answers: Join.Answers := *, *, *, *;
    var j := new Join.Joiner(d, mode, hasCredentials, answers);
    var _, _ := j.Join(q.(server := server, device := device));
  }

  method OneSync(d: Device, server: string, device: string)
    requires d.Sound() && d.OneKey(server, device)
    modifies d, d.floor`bindings
    ensures d.Sound() && d.OneKey(server, device)
  {
    hide Device.Sound, Device.OneKey;
    var v2: bool, served: Signed, now: int := *, *, *;
    var m := new DeviceSync.Manager(d, v2);
    var _, _, _ := m.Sync(served, now);
  }

  /** Every run of one identity: all effects were right when they happened, every durable claim is backed,
      and no more than one key ever became durable. */
  method AnyRun(d: Device, server: string, device: string)
    requires d.Sound() && d.OneKey(server, device)
    modifies d, d.floor`bindings, d.floor`readable, d.floor`writable
    ensures d.Sound() && d.HonestLog() && d.OneKey(server, device) && |d.keys| <= 1
    ensures forall i :: 0 <= i < |d.log| ==>
              match d.log[i]
              case CheckpointSaved(forward) => forward
              case LastKnownSaved(earned) => earned
              case CheckpointCleared(kept) => kept
              case KeyMade(needed) => needed
              case KeySent(durable) => durable
              case AckSent(truthful) => truthful
              case SyncAckSent(truthful) => truthful
  {
    var runs: nat := *;
    while runs > 0
      invariant d.Sound() && d.OneKey(server, device)
    {
      hide Device.Sound, Device.OneKey;
      Meanwhile(d);
      var join: bool := *;
      if join {
        OneJoin(d, server, device);
      } else {
        OneSync(d, server, device);
      }
      runs := runs - 1;
    }
    AtMostOneKey(d, server, device);
  }
}
