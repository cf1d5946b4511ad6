# Verified models of the overlay client

A Dafny project beside the overlay client and its lab controller. It models the code whose behaviour
depends on whole runs - lost frames, failed commands, crashes, other actors - and proves what holds
over all of them. `dafny verify dfyconfig.toml` checks everything.

How the modules follow the program:

- `ReplayWindow`, `PathHealth`, `PathManager`, `PathWire`, `PeerRuns`: the per-peer LAN/relay path. `PeerState`
  and `Manager` are the objects the code mutates, one method per mutex-held region; they are tied to
  a set of accepted stamps and to a path machine. The theorems speak of all runs of these, and `PeerRuns`
  says that any run of a manager is one.
- `RuntimeHost`, `DesktopRuntime`, `MeshAllocation`: the runtime transaction and the in-place
  membership change. The host may fail any call, and `Outside` lets others act between calls.
- `ConfigFloor`, `DeviceWorld`, `Join`, `DeviceSync`, `DeviceRuns`: durable state of one device. A crash
  sets `halted`, after which every effect fails without effect until a restart.
- `Credential`, `Rotation`, `Leave`: the credential record, its rotation and the resumable leave, which
  sees the runtime through `RuntimeView`; `LeaveDesktop` ties that view to the desktop runtime.
- `ZeroLab`: the single-device lab controller with write-ahead intent and fail-stop on save errors.
- `Poll`, `Policy`: the registration poll and the policy validator and consumer.

Three devices recur. Effects of the outside are methods whose results are arbitrary, so every proof
covers all of them. Ghost logs record, for each effect that matters, whether it was right when it
happened; the invariant says that all were. What a success means is stated for every world; a `calm`
world, in which nothing fails, is where these conditions are also shown to be enough, so that the main
operations cannot comply by always refusing.

Where the code falls short of what one would expect of it, the model follows the code and states the
exact boundary:

- `StartManifest`: when the last check of a start fails while the manifest is still marked stopped,
  the stop that should undo it returns early (overlay/runtime/desktop.go:599 and 611), and processes
  and interface stay up. The contracts of `StartManifest`, `Resume` and `Apply` say when, and
  `ResumeLeaks` is a witness.
- `Reconfigure`: sockets of removed peers are closed last (overlay/pathmanager/manager.go:723-727), so a new
  peer cannot take over the endpoint of a peer removed by the same change; `TakeOverRefused` is a witness.
  Validation compares endpoints as texts and binding compares ports (overlay/pathmanager/config.go:63), so two
  spellings of one port clash as well (`SpellingsClash`). A public key that passes validation but admits no key
  agreement is the only other reason for refusal besides a failing system.
- `Reconfigure` gives every new or changed peer a fresh session. Frames recorded before are then accepted
  once more: at most once holds for the life of a peer object, and no longer (`AtMostOncePerObject`,
  `RebuiltForgets`).
- A stopped runtime that is started again keeps the lifetime in its mesh file, whatever the request says
  (overlay/runtime/desktop.go:158-175); every other successful `Apply` writes the lifetime asked for.
- `Rotate`: recovery of a pending successor is refused as soon as the stored active credential has
  expired (overlay/usecase/device_session.go:313), although the successor may be live; and as soon as the probe,
  which is given 30 days from the announcement, has (overlay/credential/model.go:185 with
  overlay/controlplane/device.go:95), although the active credential may live a day longer. In both
  cases no later rotation succeeds (`LockedOut`).
- `Leave`: a local leave saves no operation record; when it is interrupted after the last-known file, the
  next leave does not recognise what is left (overlay/usecase/lifecycle.go:167). `OverlookedExactly` gives
  the condition and `StrandedLeave` the outcome. With a record, or when leaving remotely, this cannot happen.
- `Leave`: a runtime that died without being stopped is not healthy, so the leave does not take it down
  (overlay/usecase/lifecycle.go:250), and not stopped, so the clean-up refuses it
  (overlay/runtime/desktop.go:358). `Blocked` is the exact condition, `UnhealthyRuntime` a witness; a separate
  down helps. A runtime whose mesh lifetime is over counts as unhealthy too (overlay/runtime/path_manager.go:139,
  `ExpiredMeshBlocks`), and it can neither be resumed nor restored by a rollback.
- `Cleanup`: files go before manifests (overlay/runtime/desktop.go:363-377), so an interruption leaves a record whose
  files are gone, which every later `Apply`, `Down`, `Cleanup` and leave refuses (`DeadEnd`, `HalfCleanedForever`).
- `Status`: without the programs or the privilege it shows no runtime at all (overlay/runtime/desktop.go:267-270). A leave then
  succeeds and the runtime keeps running without a credential (`OverlookedRuntime`).
- `Join`: a checkpoint whose configuration was fetched over the legacy contract can never be
  acknowledged (overlay/usecase/join.go:311-313), so such a join never completes.
- A file replacement that fails after the rename reports an error although the new file is in place
  (overlay/runtime/desktop.go:963-969). Directory facts of the runtime are stated for atomic saves;
  ownership facts hold without that assumption.

## Model

| member | source | states |
|---|---|---|
| ReplayWindow.SlideRefines | overlay/pathmanager/manager.go:346-359 | within an epoch the 64-bit word decides exactly as the set of accepted numbers does, and afterwards still has bit i set exactly when `high - i` was accepted |
| ReplayWindow.EpochStarts | overlay/pathmanager/manager.go:328-345 | resetting high and word on a new epoch represents the empty set of the new epoch |
| ReplayWindow.NextValid | overlay/pathmanager/manager.go:324-360 | every accepted frame is new; the current epoch is never retired; at most 64 epochs are retired |
| ReplayWindow.RunValid | overlay/pathmanager/manager.go:324-360 | the same over every run from a fresh peer |
| ReplayWindow.AtMostOnce | overlay/pathmanager/manager.go:324-360 | over any arrivals and any epoch changes no (epoch, sequence) is accepted twice |
| ReplayWindow.SeenIsHistory | overlay/pathmanager/manager.go:324-360 | the ghost set of a session is exactly the stamps of the arrivals accepted before |
| ReplayWindow.EpochsAreHistory | overlay/pathmanager/manager.go:328-335 | current and retired epochs are exactly the epochs accepted before |
| ReplayWindow.HistoryDecides | overlay/pathmanager/manager.go:324-360 | acceptance is decided by the accepted past alone: sequence at least 1, not accepted, none accepted 64 or more ahead; or a never-used epoch, announced by discover, with room in the retired set |
| ReplayWindow.AtMostOncePerObject | overlay/pathmanager/manager.go:707-722 | a frame accepted twice means that the peer object was replaced in between |
| ReplayWindow.RebuiltForgets | overlay/pathmanager/manager.go:707-722 | and a replaced object accepts again, as its first frame, anything its predecessor accepted |
| ReplayWindow.EndToEndAtMostOnce | overlay/pathmanager/manager.go:193-199 | with the sending counter as source and a network that drops, repeats and reorders, one sent frame is accepted at most once |
| ReplayWindow.StampsDistinct | overlay/pathmanager/manager.go:193-199 | before the 64-bit counter wraps, two sent frames share a stamp exactly when they are the same frame |
| ReplayWindow.EndToEndNotLost | overlay/pathmanager/manager.go:324-360 | a frame of the current session is accepted exactly when it was not accepted before and nothing 64 or more ahead of it was |
| PathHealth.ActiveIsBacked | overlay/pathmanager/manager.go:336-341 | over every run an active address has a health entry stamped with the peer's own ack time |
| PathHealth.NoDirectSwitch | overlay/pathmanager/manager.go:446-461 | no lock region moves the active address from one valid address to another |
| PathHealth.HealthCountsChain | overlay/pathmanager/manager.go:436-455 | the counter kept per address is the length of the chain of credited ACKs, and its time is the last of them |
| PathHealth.ChainUnbroken | overlay/pathmanager/manager.go:440-445 | the credited ACKs behind a counter are in order, at most FailureAfter apart, and within one epoch |
| PathHealth.PendingWasRecorded | overlay/pathmanager/manager.go:500-515 | an outstanding nonce was recorded for its address at its time, and everything since spared it: no answer, no second record of the nonce, no new epoch, no list without its address, no round that found it too old |
| PathHealth.SparedIsPending | overlay/pathmanager/manager.go:393-525 | and back: a recorded probe that everything since has spared is outstanding |
| PathHealth.CreditConsumes | overlay/pathmanager/manager.go:436-441 | each credited ACK consumed a probe recorded for the same address no more than FailureAfter before |
| PathHealth.PromotionEvidence | overlay/pathmanager/manager.go:436-461 | an address that becomes active has at least PromoteAfter distinct probes of its own, all of the current epoch, each consumed once, in time, at most FailureAfter apart; with nonces that are never reused, as many distinct nonces |
| PathHealth.StaysCooled | overlay/pathmanager/manager.go:393-425 | after an address is dropped its old chain can never be continued to a promotion |
| PathHealth.Hysteresis | overlay/pathmanager/manager.go:393-461 | after a timeout, a candidate removal or an epoch change, promoting the address again takes PromoteAfter ACKs received after the drop |
| PathHealth.CreditedExactly | overlay/pathmanager/manager.go:436-441 | read off the events alone: an ACK earns credit exactly when it consumed a probe recorded for its address, in time and spared since |
| PathHealth.PromotionExactly | overlay/pathmanager/manager.go:446-461 | over every run, with no address active, an ACK makes its address active exactly when it completes PromoteAfter credited ACKs in order, at most FailureAfter apart, with the address listed and no new epoch since the first |
| PathHealth.DemotionExactly | overlay/pathmanager/manager.go:495-499 | over every run a probe round drops the active address exactly when every credited ACK from it is more than FailureAfter old |
| PathHealth.OtherwiseKept | overlay/pathmanager/manager.go:393-461 | nothing else makes an address active or inactive but a new epoch and a list without it |
| PathManager.ValidateSpec | overlay/pathmanager/config.go:39-55 | accepts exactly 1 to 256 well-formed peers without a repeated id, key or address |
| PathManager.ValidateConfig | overlay/pathmanager/config.go:56-82 | accepts exactly a live configuration with distinct loopback endpoints apart from relay and WireGuard, and a valid spec |
| PathManager.ConfigIdsDistinct | overlay/pathmanager/config.go:56-82 | a valid configuration names every device once |
| PathManager.SameTransportExactly | overlay/pathmanager/manager.go:687 | the running transport is the whole configuration but membership and lifetime |
| PathManager.PeerState.NextSequence | overlay/pathmanager/manager.go:193-199 | the next 64-bit sequence number of this sending session, wrapping |
| PathManager.PeerState.Accept | overlay/pathmanager/manager.go:324-360 | the object accepts exactly what the set-level session accepts, moves to its next state, and clears the path only on a new epoch |
| PathManager.PeerState.SlideWindow | overlay/pathmanager/manager.go:346-359 | high and word move as the window function, which is proved to refine the set |
| PathManager.PeerState.TakeCandidates | overlay/pathmanager/manager.go:378-425 | health and pending keep exactly the entries of listed addresses; active is dropped exactly when unlisted |
| PathManager.OnLinkExactly | overlay/pathmanager/manager.go:386-392 | the candidates are exactly the addresses that some text of the list names and that are on link |
| PathManager.PeerState.TakeAck | overlay/pathmanager/manager.go:436-461 | the acknowledgement step of the path machine: the nonce is consumed whatever happens, credit only for an in-time answer from the probed address |
| PathManager.PeerState.Receive | overlay/pathmanager/manager.go:361-474 | one frame is at most two steps of the path machine and one of the session; a refused frame changes nothing; what is delivered or answered is determined; a payload is delivered as it came, a probe answered with its own nonce to its source, and a relayed list leaves exactly its on-link addresses as candidates |
| PathManager.PeerState.ProbeTick | overlay/pathmanager/manager.go:495-507 | drops a late active path, expires exactly the old probes, and returns the candidates as they are |
| PathManager.PeerState.RecordProbe | overlay/pathmanager/manager.go:508-515 | records a probe for an address copied in an earlier lock region, which may no longer be a candidate |
| PathManager.Manager.Receive | overlay/pathmanager/manager.go:361-376 | a foreign, unauthentic, expired, off-link or superseded delivery changes nothing; any other is handled by the current object |
| PathManager.Manager.Status | overlay/pathmanager/manager.go:177-192 | one truthful line per configured peer, and no lookup can miss |
| PathManager.Manager.BuildNext | overlay/pathmanager/manager.go:702-722 | the table under construction keeps unchanged peers' objects and has one created object with a socket of its own for each other |
| PathManager.Manager.SocketsAreNext | overlay/pathmanager/manager.go:723-728 | closing the sockets of dropped peers leaves exactly the sockets of the new table |
| PathManager.Manager.Reconfigure | overlay/pathmanager/manager.go:683-736 | on any refusal table, list, expiry and open sockets are as before; on success the table has exactly the configured ids, unchanged specs keep their object, all others start fresh, and the open sockets are exactly those of current peers; when binding fails only for busy ports, an admissible change succeeds exactly when every new peer has a derivable key and a port that no open socket has, a removed peer's included, and no other new peer wants in another spelling |
| PathManager.TakeOverRefused | overlay/pathmanager/manager.go:710-727 | a witness: a valid configuration is taken, and the equally valid one that gives its endpoint to another peer is refused |
| PathManager.SpellingsClash | overlay/pathmanager/config.go:56-87 | a witness: a valid configuration with one port in two spellings is refused |
| PeerRuns.AppendedAll | overlay/pathmanager/manager.go:324-515 | the path after more events is the path moved by each of them in turn, under a clock that never ran backwards |
| PeerRuns.FoldEvents | overlay/pathmanager/manager.go:361-474 | one received frame is the events listed for it, and only the last of them can make an address active |
| PeerRuns.Frame | overlay/pathmanager/manager.go:361-474 | the object is where its trace leads, before and after; an address it makes active has the evidence for its promotion, and enough of it since every earlier drop; a frame it acts on was acceptable; a frame that passes and is acceptable is in the trace as what it is, and any other leaves no trace |
| PeerRuns.DecidedAlways | overlay/pathmanager/manager.go:393-507 | after any run the active address is what the last event makes of the one before: promoted exactly on enough evidence, dropped exactly when all of it is too old |
| PeerRuns.FrameStep | overlay/pathmanager/manager.go:361-474 | a frame through the manager, for whichever peer: it is noted exactly when it was acted on for the observed one |
| PeerRuns.ConfigStep | overlay/pathmanager/manager.go:683-736 | a reconfiguration keeps the peer's object and trace, or starts both over |
| PeerRuns.AnyStep | overlay/pathmanager/manager.go:361-736 | every single step of a manager - a frame of any peer, a region of a probe round, a reconfiguration - keeps the peer's object where its trace leads, and every activation is justified; noted are exactly the frames acted on for the peer, and counted exactly its removals and replacements; whether an address is active then is decided by the events alone, in both directions |
| PeerRuns.ToldApart | overlay/pathmanager/manager.go:324-360 | a frame acted on twice was acted on by two objects |
| PeerRuns.AnyRun | overlay/pathmanager/manager.go:361-736 | the same over every run of a manager; no frame is acted on twice for one peer unless a reconfiguration removed or replaced the peer in between, and the returned count says how often that happened |
| PathWire.EncodeLAN | overlay/pathwire/wire.go:138-176 | encodes exactly the encodable frames, as the fixed-layout datagram |
| PathWire.DecodeLAN | overlay/pathwire/wire.go:177-218 | accepts exactly datagrams for this network and device from a known peer, and reads every field back |
| PathWire.LanRoundTrip | overlay/pathwire/wire.go:138-218 | decoding an encoded frame gives the frame back if and only if it is canonical: lower-case hex, no candidates, no nonce on data, no payload on probe and ack |
| PathWire.CollisionFree | overlay/pathwire/wire.go:186-195 | with collision-free identities the sender found is the only one possible |
| PathWire.LanReencode | overlay/pathwire/wire.go:138-218 | encoding an accepted probe or ack again gives the same bytes |
| PathWire.HexCharacters | overlay/pathwire/wire.go:138-176 | the hexadecimal digits, by value |
| PathWire.BigEndianLast | overlay/pathwire/wire.go:138-176 | numbers are written with the lowest byte last |
| PathWire.Conn.WriteAll | overlay/pathwire/wire.go:98-110 | whatever pieces the connection takes, success means exactly all bytes were written, anything else a prefix; a writer that always takes something and never fails gets all |
| PathWire.Conn.Write | overlay/pathwire/wire.go:86-97 | success appends the length-prefixed frame; frames over the limit are refused before anything is written |
| PathWire.Conn.Read | overlay/pathwire/wire.go:111-126 | reads one frame and leaves exactly the bytes after it |
| PathWire.StreamRoundTrip | overlay/pathwire/wire.go:86-126 | reading the concatenation of any written frames returns that list |
| RuntimeHost.Host.StopProcess | overlay/runtime/desktop.go:607-645 | a stop is recorded with whether its target came from this runtime's own start |
| RuntimeHost.Host.TunnelUp | overlay/runtime/desktop.go:576-590 | an "up" is recorded with whether the name was taken, and may leave an interface although it fails |
| RuntimeHost.Host.TunnelDown | overlay/runtime/desktop.go:622-630 | a "down" is recorded with whether the live index came from this runtime's own "up" or the service is its own |
| DesktopRuntime.Desktop.ProcessTrusted | overlay/runtime/desktop.go:753-770 | an answer means the identity matches its config file, and is then the truth about the process |
| DesktopRuntime.Desktop.WaitForPathManager | overlay/runtime/path_manager.go:138-167 | ready means alive; where no host call fails, exactly when the process is alive and the mesh file is valid, its lifetime included |
| DesktopRuntime.Desktop.StartProcesses | overlay/runtime/desktop.go:535-577 | either nothing of this start keeps running, or exactly two (or one) new processes of matching identity do, and the name is free |
| DesktopRuntime.Desktop.StartTunnel | overlay/runtime/desktop.go:578-604 | success means the captured non-zero index is the live one |
| DesktopRuntime.Desktop.StartManifest | overlay/runtime/desktop.go:535-605 | success means the runtime runs with exactly its new processes; without failures of the host a failed start leaves nothing, except exactly when the last check fails on a manifest marked stopped or with changed files - then everything stays up; where no host call fails it succeeds exactly when the name is free, the Xray file is the recorded one, and a path manager finds a valid mesh file |
| DesktopRuntime.Desktop.SaveStarted | overlay/runtime/desktop.go:170-174 | a started runtime is saved as active, or its processes and interface are taken down again |
| DesktopRuntime.Desktop.StopManifest | overlay/runtime/desktop.go:607-645 | without failures of the host it succeeds exactly when files, process identity, interface index and service are provably ours, and refuses before touching anything otherwise; success removes exactly the manifest's processes, interface and service |
| DesktopRuntime.Desktop.Rollback | overlay/runtime/desktop.go:647-665 | "apply failed" with a previous manifest means the previous revision runs again and is saved as active; anything else is "rollback failed"; where no host call fails, the rollback works exactly when the candidate can be stopped, if it was started, and the previous revision can be started again, its mesh lifetime included |
| DesktopRuntime.Desktop.Healthy | overlay/runtime/desktop.go:667-704 | healthy means trusted files, trusted live process and the recorded live index; a provably owned runtime is never called stale; where no host call fails, one that runs as recorded is healthy if its mesh file is valid, and only then |
| DesktopRuntime.Desktop.Prepare | overlay/runtime/desktop.go:458-533 | a fresh directory holding exactly the rendered files whose digests the manifest records; older directories are untouched |
| DesktopRuntime.Desktop.CleanupRetained | overlay/runtime/desktop.go:864-895 | success leaves exactly the directories of active and last-known-good; those two are never touched |
| DesktopRuntime.Desktop.Activate | overlay/runtime/desktop.go:210-249 | the switch: on success exactly the previous runtime's processes were replaced and it became last-known-good; on failure active still names the old or the restored revision; where no host call fails a candidate whose mesh file is valid succeeds exactly when the previous runtime is provably ours and the name is free |
| DesktopRuntime.Desktop.Commit | overlay/runtime/desktop.go:236-249 | last-known-good is saved before active; a failed save of either ends in a rollback |
| DesktopRuntime.Desktop.SwitchTo | overlay/runtime/desktop.go:219-257 | from a prepared candidate on: either it runs and was saved, or its directory is given up and the previous revision is restored or still active |
| DesktopRuntime.Desktop.Replace | overlay/runtime/desktop.go:201-257 | a successful full apply runs the request on its own rendered files and leaves exactly the directories of active and last-known-good |
| DesktopRuntime.Desktop.Resume | overlay/runtime/desktop.go:158-175 | a stopped manifest comes up again; where no host call fails, exactly when it is trusted and startable, with a mesh file that is still valid; a failed resume leaves no process and no interface, unless the last check failed - then both stay |
| DesktopRuntime.ResumeLeaks | overlay/runtime/desktop.go:578-618 | a witness: on a host where only the last check fails, asking a stopped runtime to come up fails and leaves process and interface |
| DesktopRuntime.Desktop.Keep | overlay/runtime/desktop.go:193-208 | a healthy runtime of the same revision only has its lifetime refreshed, and stays consistent with its files; the mesh file then has the lifetime asked for |
| DesktopRuntime.Desktop.Apply | overlay/runtime/desktop.go:128-257 | success always means: requested revision and membership, running as recorded, on matching trusted files, and - unless a stopped runtime was only started again - with the lifetime asked for in the mesh file; a change in place keeps the endpoints of peers that were there; a failed resume leaves everything or nothing; once the files of the active manifest are gone it always refuses; ownership and directory facts survive every outcome; where no host call fails a mesh-free request succeeds whenever the previous runtime is provably ours and the name is free, and a runtime of the requested revision that runs as recorded is left running |
| DesktopRuntime.Desktop.Continue | overlay/runtime/desktop.go:157-209 | what is tried before a full transaction: a stopped runtime is started again, a healthy one goes on or is changed in place, and otherwise nothing has changed |
| DesktopRuntime.ApplyAgain | overlay/runtime/desktop.go:128-257 | where no host call fails, what has been applied is applied again by going on with the same runtime |
| DesktopRuntime.ApplyThenDown | overlay/runtime/desktop.go:128-338 | where no host call fails and the name is free, a request comes up from nothing and goes down again, leaving neither process nor interface |
| DesktopRuntime.Desktop.Down | overlay/runtime/desktop.go:307-338 | success means exactly the manifest's processes and interface are gone and the manifest is kept as stopped; any outcome is a down step of the two manifests as a leave sees them; where no host call fails it succeeds exactly when everything is provably ours, and otherwise changes nothing |
| DesktopRuntime.Desktop.Status | overlay/runtime/desktop.go:259-302 | a recorded runtime is called applied only if it runs as recorded, and where no host call fails exactly when its mesh file is valid too; without the programs nothing is recorded |
| DesktopRuntime.Desktop.Cleanup | overlay/runtime/desktop.go:343-381 | success removes both manifests and exactly their directories; a runtime not marked stopped, or with changed files, is refused before anything is touched; an interruption leaves no files behind a record that is still there; where no host call fails these are the only refusals |
| DesktopRuntime.AnyCall | overlay/runtime/desktop.go:128-381 | with the files gone and the record there, any call refuses and keeps that state |
| DesktopRuntime.DeadEnd | overlay/runtime/desktop.go:128-381 | so an interrupted clean-up is a dead end for every sequence of Apply, Down and Cleanup, under any interference |
| DesktopRuntime.AnyRun | overlay/runtime/desktop.go:128-381 | over every run of Apply, Down, Cleanup and outside interference no command ever touched what is not ours; without clean-ups and with atomic saves both manifests name existing directories |
| MeshAllocation.AllocateMesh | overlay/runtime/path_manager.go:46-82 | relay, WireGuard and all peer endpoints are pairwise distinct and apart from the gateway, and nothing else about the mesh changes |
| MeshAllocation.NextPeers | overlay/runtime/path_manager.go:273-301 | a peer whose id, key and address were there before has the endpoint it had; every other one avoids relay, WireGuard, gateway and all old endpoints; all are pairwise distinct; it only fails when a new endpoint is needed |
| DesktopRuntime.Desktop.LoadMesh | overlay/runtime/path_manager.go:83-103 | loads exactly a mesh file of the directory itself that is valid at that time; it then has distinct ids and endpoints |
| DesktopRuntime.Desktop.MeshMatches | overlay/runtime/path_manager.go:104-120 | matches exactly when a loadable mesh file serves the template's membership, or neither has a mesh |
| DesktopRuntime.Desktop.ServesExactly | overlay/runtime/path_manager.go:104-120 | the same membership: network, device, gateway key, and every peer's id, key and address |
| DesktopRuntime.Desktop.SameScopeExactly | overlay/runtime/path_manager.go:247 | the same scope: everything but endpoints of the transport, lifetime and peers |
| DesktopRuntime.Desktop.RefreshExpiry | overlay/runtime/path_manager.go:121-137 | exactly the lifetime in the mesh file changes, and the new digest matches it |
| DesktopRuntime.Desktop.PlanReconcile | overlay/runtime/path_manager.go:236-305 | the change is left to the full transaction only when network identity, WireGuard file or Xray file would change too; otherwise endpoints follow the carry-over rule; where no host call fails, a loadable mesh of the same scope whose peers are all known is changed in place exactly when the result is a valid configuration |
| DesktopRuntime.Desktop.CommitReconcile | overlay/runtime/path_manager.go:321-374 | success: files, saved manifest and kernel agree with the new membership; failure with successful undo: every file is byte for byte as before and, with atomic saves, the manifest too; a successful undo sync gives the kernel its old configuration; where no host call fails it succeeds exactly with a live path manager and a configuration that is valid at that time |
| DesktopRuntime.Desktop.Reconcile | overlay/runtime/path_manager.go:236-374 | an in-place change keeps all processes and the interface, and ends with digests and revision that match the files; peers that were there keep their endpoints, and the mesh file has the lifetime asked for |
| ConfigFloor.Store.AcceptSignedConfig | overlay/state/store.go:291-333 | the floor moves exactly to an allowed offer; a replay is refused exactly when it is below the floor or renames its generation, and changes nothing; bindings stay unique; in generations and ids: with a working file a well-formed offer is accepted exactly when it is of a later generation or the same configuration, and the floor then has its generation, id and digest |
| ConfigFloor.Store.ValidateSignedConfigFloor | overlay/state/store.go:338-356 | refuses exactly when some binding of the key is violated, and changes nothing |
| ConfigFloor.Store.IsSignedLocked | overlay/state/store.go:275-289 | reports the lock of the one binding of the key |
| ConfigFloor.ValidateIsAccept | overlay/state/store.go:291-356 | with unique bindings, validation refuses exactly what acceptance would refuse |
| ConfigFloor.DuplicatesSplitTheTwo | overlay/state/store.go:303-313 | with two bindings of one key the two would disagree |
| ConfigFloor.GenerationsNeverDecrease | overlay/state/store.go:313-319 | over any list of offers, accepted generations of one key never decrease and one generation never has two configuration ids |
| ConfigFloor.LockIsForever | overlay/state/store.go:321 | over any list of offers a signed lock survives |
| ConfigFloor.AcceptedExactly | overlay/state/store.go:307-326 | over any list a well-formed offer is accepted exactly when it is not below the floor at the start and every accepted earlier offer of its key has a smaller generation, or the same generation and id |
| ConfigFloor.AcceptedAgain | overlay/state/store.go:300-319 | an accepted offer is accepted again, and a renewed signature is then the one on record |
| ConfigFloor.AnyRun | overlay/state/store.go:291-333 | both of the store itself, over any calls, with an unreadable file and writes that fail before or after the replacement; and a call is refused as a replay only below the start's floor or below an earlier call that was not refused |
| DeviceSync.Manager.OpenSession | overlay/usecase/device_session.go:272-328 | only opens for this device's own live credential and no foreign stored session; in a calm run exactly then; stored or new, the session is its own |
| DeviceSync.Manager.Stage | overlay/usecase/device_session.go:99-121 | a staged configuration is this device's and the floor allows it, and nothing durable changed; in a calm run exactly such a one is staged |
| DeviceSync.Manager.Settle | overlay/usecase/device_session.go:146-163 | success means the runtime reported exactly this revision |
| DeviceSync.Manager.CommitFloor | overlay/usecase/device_session.go:171-174 | after the ACK the v2 floor is never refused as a replay |
| DeviceSync.Manager.Proceed | overlay/usecase/device_session.go:122-200 | once staged, a calm sync always gets to last-known state |
| DeviceSync.Manager.Sync | overlay/usecase/device_session.go:76-201 | a success had a live own credential, no foreign session, and an own configuration the floor allowed, and in a calm run these suffice; v1 moves the floor before the runtime changes, v2 only after an accepted matching ACK; last-known state and key survive unless the ACK was accepted, and then only the configuration changes; a success leaves the served configuration, id and generation as last-known state, with everything else as it was |
| DeviceWorld.Device.SaveCheckpoint | overlay/state/store.go:235-238 | a failed save leaves the old or the new checkpoint; the log records whether key and phase were kept |
| Join.Joiner.LoadOrRenewEnrollment | overlay/usecase/join.go:462-515 | a bearer is always this device's own; renewal keeps key, phase and configuration of the durable checkpoint; in a calm run there is one exactly when the stored one can be reused or a credential or an invite gives a new one |
| Join.Joiner.FetchRuntimeConfig | overlay/usecase/join.go:360-391 | a signed fetch is the served configuration, this device's, allowed by the floor; a legacy one only happens in legacy mode and never for a locked device; in a calm run with an invite for a known network, exactly when there is a bearer and the floor allows what is served |
| Join.Joiner.FetchSigned | overlay/usecase/join.go:573-633 | only a verified configuration of this device that the floor allowed is returned, and the floor has then moved to it; in a calm run any such one is, and would allow it again |
| Join.Joiner.ApplyPhase | overlay/usecase/join.go:241-262 | the phase "applied" is only saved when the runtime reported success for exactly this configuration |
| Join.Joiner.AckPhase | overlay/usecase/join.go:264-319 | the phase "acknowledged" is only saved after a matching accepted ACK of the applied configuration; a legacy configuration never gets there |
| Join.Joiner.RegisterPhase | overlay/usecase/join.go:177-212 | the durable phase "registered" follows the reply: this device and its network, or an enrollment of this device's own; in a calm run such a reply is enough |
| Join.Joiner.FetchPhase | overlay/usecase/join.go:214-236 | the durable phase "fetched" carries the served configuration, this device's and allowed by the floor, or a legacy one of an unlocked device; in a calm run that is enough |
| Join.Joiner.ToFetched | overlay/usecase/join.go:177-236 | from any checkpoint to a fetched one; a calm run gets there exactly when registration or enrollment and the served configuration fit |
| Join.Joiner.Complete | overlay/usecase/join.go:238-351 | from a fetched configuration: a calm plain run finishes exactly when the configuration is a signed one |
| Join.Joiner.Finish | overlay/usecase/join.go:321-351 | last-known state is the acknowledged checkpoint, field by field, and is written before the checkpoint goes |
| Join.Joiner.RecoverLastKnown | overlay/usecase/join.go:635-655 | success means the runtime reports the last-known revision and the floor allowed it; in a calm run exactly then; the floor moves to that configuration or not at all |
| Join.Joiner.SeedMigration | overlay/usecase/join.go:657-675 | migration keeps the key of the last-known state and never overwrites a checkpoint, and of its network and node |
| Join.Joiner.LoadOrCreateCheckpoint | overlay/usecase/join.go:690-726 | a key is made only when neither a checkpoint nor a matching last-known state has one |
| Join.Joiner.Resume | overlay/usecase/join.go:177-351 | from any durable checkpoint: phase and key never go back; a calm run, with an invite or without, finishes exactly when the controller's answers fit the checkpoint and the floor |
| Join.Joiner.Join | overlay/usecase/join.go:125-358 | success means acknowledged signed last-known state, or a recovered one; a checkpoint only disappears when last-known state holds its key; a fetched legacy checkpoint can never be completed; whatever earlier runs left, a calm join - plain, invited, or repeated - completes exactly when the controller's answers fit; last-known state then names the network the checkpoint named or the controller registered, with the configuration fetched before or served now, which the floor is at and allows again |
| Join.JoinAgain | overlay/usecase/join.go:125-358 | what a calm join has brought about is recovered by joining again |
| DeviceRuns.AnyRun | overlay/usecase/join.go:125-358 | over every run of joins and syncs of one identity, in any order, with crashes and restarts: ACKs only after applying exactly that configuration, phases never back, last-known state only after an accepted ACK, and at most one durable key |
| Credential.ValidScope | overlay/credential/model.go:193-205 | accepts exactly the permutations of the three scopes |
| Credential.PendingAccepted | overlay/credential/model.go:139-153 | a valid record takes exactly a well-formed successor with a new identity |
| Credential.ProbeAlwaysThere | overlay/credential/model.go:175-191 | a valid record with a successor can always be probed |
| Credential.RotationRoundTrip | overlay/credential/model.go:139-170 | announce then promote hands over exactly the announced secret and nothing of the binding |
| Credential.RecoveryPromotes | overlay/credential/model.go:155-191 | the recovered promotion is the probe record itself |
| Rotation.Rotator.Rotate | overlay/usecase/device_session.go:214-270 | the record is never lost and keeps its binding; the controller's current credential is always the record's active or pending one; retries reuse the same successor; success leaves active equal to the controller's with no successor; in a calm world it succeeds exactly when neither the active credential nor the 30-day probe of a stored successor has expired and, if a successor is still needed, the drawn secret is usable |
| Rotation.LockOutExample | overlay/credential/model.go:172-191 | two concrete lock-outs, the controller holding the successor: the stored credential has expired and the probe would be live, or the stored credential is alive and the probe has expired |
| Rotation.ProbeEndsFirst | overlay/credential/model.go:172-191 | the probe ends a recovery before the active credential does exactly when the successor was announced more than 30 days before that expiry |
| Rotation.LockedOut | overlay/usecase/device_session.go:214-317 | from any state in which one of the two has expired no later rotation succeeds, however often it is tried, and nothing changes |
| Rotation.AnyRun | overlay/usecase/device_session.go:214-270 | over every run of rotations, lost replies, failed saves and crashes the record is still there and holds a credential the controller accepts |
| Leave.World.ClearOwnedState | overlay/state/lifecycle.go:199-235 | whatever stops it, what is left is a tail of the removal order, and a record that was there is there until nothing is; success means nothing is left |
| Leave.RecordOutlivesAll | overlay/state/lifecycle.go:199-222 | however far the removal got, the operation record is there exactly if it was before and something is left to do |
| Leave.OverlookedExactly | overlay/state/lifecycle.go:199-222 | files are left behind unrecognised exactly when no record was there and the removal got past the last-known file |
| Leave.World.CleanupRuntime | overlay/usecase/lifecycle.go:238-256 | success means no recorded runtime is left, or that none could be seen; without failures it is refused exactly by a recorded runtime that is neither healthy and provably ours nor stopped, or whose files, or those of last-known-good, are not intact |
| LeaveDesktop.CleanupOwned | overlay/usecase/lifecycle.go:238-256 | the same refusals of the desktop runtime itself, step by step through its own status, down and cleanup, the lifetime of the mesh file included |
| LeaveDesktop.ExpiredMeshBlocks | overlay/runtime/path_manager.go:138-150 | a running runtime whose mesh lifetime is over is not healthy, so it blocks a leave |
| Leave.World.RevokeRemotely | overlay/usecase/lifecycle.go:184-219 | the nonce is durable before the revoke that carries it; success means that the controller carried out the revoke under this nonce and that the receipt is durable |
| Leave.World.CleanupLocally | overlay/usecase/lifecycle.go:220-236 | runtime, then credential, then files; a remote leave gets here only with a revoke the controller carried out; a record that was there stays until everything is gone; without failures only a blocked runtime stops it, before credential and files |
| Leave.World.Leave | overlay/usecase/lifecycle.go:141-236 | success that had something to do means credential, files and every runtime that could be seen are gone, and for a remote leave that the controller carried out the revoke; a remote leave gives up the credential only after that; an interrupted leave keeps its record until everything is gone; without failures an exact condition for finishing: no conflict, a live credential if a revoke is due, and no blocked runtime in sight; every revoke carries the nonce of the durable record and precedes the receipt |
| Leave.Converges | overlay/usecase/lifecycle.go:141-236 | once the record is there, after any failed and crashed leaves, a calm one that succeeds leaves nothing but a runtime an earlier leave could not see; it fails only while a revoke is due without a live credential or the runtime is blocked, which it was from the start or became by a step interrupted half-way or by dying; every revoke on the way carried the one nonce of the record |
| Leave.ConvergesRemotely | overlay/usecase/lifecycle.go:141-236 | the same for leaves that reach out to the controller, from any joined state, with a record or without; a success, or the mere loss of the credential, means that the controller carried out the revoke under the nonce of the record |
| Leave.CleanLeave | overlay/usecase/lifecycle.go:141-236 | where nothing fails, a consistently joined device with a live credential and a healthy runtime leaves in one go, with or without the controller |
| Leave.ForeignLeave | overlay/usecase/lifecycle.go:174-187 | a credential or a record of another device makes a leave refuse and change nothing |
| Leave.UnhealthyRuntime | overlay/usecase/lifecycle.go:238-256 | a device whose runtime died without being stopped cannot leave although nothing fails; after a down it can |
| Leave.HalfCleanedForever | overlay/runtime/desktop.go:343-381 | after a clean-up interrupted between files and manifest no leave that can see the runtime ever succeeds |
| Leave.OverlookedRuntime | overlay/runtime/desktop.go:267-270 | without the programs or the privilege a leave succeeds, and the runtime keeps running, on record |
| Leave.StrandedWithoutRecord | overlay/state/lifecycle.go:199-222 | a leave without a record, interrupted after the last-known file, leaves files that no longer mark an unfinished leave |
| Leave.StrandedLeave | overlay/usecase/lifecycle.go:167-169 | the next leave then reports success and removes nothing |
| ZeroLab.LiveSessionsComplete | internal/zerolab/server.go:349-353 | no live session is lost by the expiry filter |
| ZeroLab.Server.CreateInvite | internal/zerolab/server.go:315-343 | a 200 was a valid admin request while no lease exists or is being made, and stores exactly that invite; without failures any such request gets one |
| ZeroLab.Server.NewSession | internal/zerolab/server.go:344-360 | all sessions that are live from some point on and one new; that point is the beginning unless only the newest 31 have room |
| ZeroLab.Server.Provision | internal/zerolab/server.go:381-394 | the key reaches the gateway only when its intent is on disk; success means that the gateway lets it in |
| ZeroLab.Server.Exchange | internal/zerolab/server.go:361-418 | success happens at most once ever, for a live invite and no other key under way, and the gateway then lets in that key and was never given another; without failures every such request succeeds; the answer carries a credential for 30 days and a session for 15 minutes, both on disk |
| ZeroLab.Server.OpenSession | internal/zerolab/server.go:419-443 | a 200 was for the live device credential; without failures any such request gets one |
| ZeroLab.Server.Authorized | internal/zerolab/server.go:444-455 | exactly a live session of the one device |
| ZeroLab.Server.GetConfig | internal/zerolab/server.go:456-501 | a 200 was for a live session of this device, and the gateway lets its key in, whatever it had forgotten; what is answered is on disk; a live configuration is repeated, an expiring one is replaced by the next generation without ACK; what is answered is live for more than five minutes |
| ZeroLab.Server.AckConfig | internal/zerolab/server.go:502-528 | a 200 was for a live session and names the current configuration; a repeated one changes nothing |
| ZeroLab.OneLease | internal/zerolab/server.go:382-394 | at most one key was ever given to the gateway |
| ZeroLab.WholeJoin | internal/zerolab/server.go:361-528 | without failures an invite leads all the way: exchange, configuration and ACK within the session's 15 minutes, and another session and live configuration any time within 30 days |
| ZeroLab.AnyRun | internal/zerolab/server.go:140-528 | over all requests, failed saves with either disk outcome, crashes, restarts and reboots of the gateway: one key, one answered exchange, generations never back |
| Poll.Poll | overlay/usecase/register.go:213-277 | at most one call per started five seconds of the remaining lifetime; every wait follows the back-off and stays within the lifetime; the outcome is the one the last reply dictates, and "expired" means the lifetime is over; every wait within the lifetime is the delay or what is left of it |
| Poll.DelayBounds | overlay/usecase/register.go:213-221 | the delay always stays within 5 to 30 seconds |
| Poll.DelayExactly | overlay/usecase/register.go:213-250 | the delay in closed form: the interval within 5 and 30 seconds, doubled once per error, at most 30 seconds |
| Poll.ThreeErrorsSaturate | overlay/usecase/register.go:245-250 | three errors, wherever they come, bring the longest delay |
| Policy.ValidDevices | overlay/policy/consumer.go:177-189 | neighbour checks accept exactly strictly increasing lists of valid ids |
| Policy.ValidProtocols | overlay/policy/consumer.go:191-206 | accepts exactly non-empty increasing lists of the three protocols |
| Policy.ValidPorts | overlay/policy/consumer.go:208-227 | accepts exactly increasing in-range ports, or none for icmp alone |
| Policy.AllPorts | overlay/policy/consumer.go:163-165 | 65535 increasing ports in range are all ports in order |
| Policy.ValidateRules | overlay/policy/consumer.go:158-173 | accepts exactly valid rules with unique ids in which every earlier one precedes every later one |
| Policy.ValidateArtifact | overlay/policy/consumer.go:154-175 | accepts exactly the canonical artifacts of the network |
| Policy.DeniesFirst | overlay/policy/consumer.go:241-246 | denies precede accepts, ids strictly increase inside each block |
| Policy.BlocksAreOrdered | overlay/policy/consumer.go:241-246 | and every such list is in order |
| Policy.LessExactly | overlay/policy/consumer.go:241-246 | the order of ids is that of bytes |
| Policy.SameRulesSameList | overlay/policy/consumer.go:241-246 | an ordered rule list is determined by its set of rules |
| Policy.CanonicalArtifact | overlay/policy/consumer.go:154-175 | two valid artifacts with the same rules and revision are the same artifact |
| Policy.WholeDeviceIsEverything | overlay/policy/consumer.go:163-165 | a whole-device grant covers every protocol and port |
| Policy.Consume | overlay/policy/consumer.go:106-152 | accepts exactly a canonical valid artifact with the referenced digest, in time and not below the floor |
| Policy.PolicyFloorRises | overlay/policy/consumer.go:119-121 | over any list of references an accepted generation is a floor for good and keeps its digest |
| Policy.AcceptedExactly | overlay/policy/consumer.go:116-121 | from nothing, a well-formed reference is accepted exactly when every accepted earlier one is of its network and of a smaller generation, or the same generation and digest |
| Policy.Store.Take | overlay/usecase/device_session.go:130-186 | an artifact is taken only if acceptable to the stored floor, which then is its own; where reads and writes work exactly a canonical, timely, authentic artifact not below the floor is taken |
| Policy.AnyRun | overlay/usecase/device_session.go:130-211 | over every run with unreadable files and failing writes: no taken policy is of another network or a lower generation than one taken before, and one generation has one digest |

## Left out

- Goroutine scheduling, sockets, relay dialing and the relay handshake: only lock regions and delivered frames are modelled; `readWG`, `sendLAN`, `sendRelay` and the relay writer are I/O around them.
- Several clock readings inside one lock region are taken as one reading.
- The peer field `success` is written but never read by the code and is not part of the model.
- The 64-bit replay word is a sequence of 64 booleans with the shift and mark the code uses.
- X25519, HMAC, Ed25519, SHA-256, base64 and JSON: digests stand for contents (no collisions), encoders and parsers are parameters, signature checks are answers of the outside. Which stored key set verifies a configuration is not modelled.
- Operating system backends, permissions and ACLs, command lines and file modes: answers of the host.
- Sockets owned by a process, loopback readiness and `wg show`: answers of the host; readiness loops are bounded by an arbitrary number of rounds.
- Manifest schema version, core id and adapter id, loopback address checks and trust of directory modes.
- The lifetime of a mesh file is judged at one reading per load, and once per Apply for the comparison with the request.
- Mesh templates that already carry endpoints: the signed configuration never does, and Apply requires it.
- `wg syncconf` gets the WireGuard file without address, MTU and DNS lines; the model identifies the two.
- Processes and interfaces of a failed host call may survive a failed start; only a host whose stops and inspections work is claimed to be clean.
- `Diagnose`, the path and version fields of `Status`, the mesh file that `Cleanup` leaves in a directory it cannot remove, and the digest of active after a manifest save that fails right after the lifetime refresh (overlay/runtime/desktop.go:195-201).
- The directory operation lock: operations on one device are taken to be serialized.
- Trimming of request fields, scope sets of enrollments beyond being a session's or not, device names, platforms and host names in join and sync.
- Signing key cache and ETag handling in the signed fetch; the overlap of stored and served signing keys that a session needs is part of the controller's answer.
- The policy artifact within a v2 sync: staging and storing it succeed or fail there, and what they do is proved of the policy store alone.
- Register around the poll (creation, staging of the exchange, handoff to Join), sync-loop back-off, status and diagnosis, invite URLs.
- Leave.Converges: a runtime is seen through what leaving depends on; whether processes and interface of a manifest marked stopped really are down is the runtime's own matter.
- The leave variants without a device credential (overlay/usecase/lifecycle.go:92-136 and 258-293).
- registration.json is not among the files a leave owns, in the code and in the model.
- HTTP handling, request decoding and key export of the lab controller; its state binding check on restart is taken to succeed.
- DesktopRuntime.Desktop.Apply: the exact success condition where no host call fails is stated for requests without a mesh, because free ports and the clock decide the others.
- MeshAllocation.AllocateMesh: does not promise success, because which ports the system offers is not modelled.
- Join.Joiner.Join: the exact success condition of a calm invited run takes enrollments granted in the run to be alive for its length and to name a network; the migration of a device joined under the legacy contract has no success condition.
