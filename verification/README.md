# qmp-mcp: a verified model of the server's state machines and codecs

qmp-mcp drives one QEMU instance for an agent. This project models the parts of its Rust
implementation that carry the logic, and proves what they are for:

- **Orchestrator** (`Orchestrator.dfy`, `OrchestratorRuns.dfy`). The single-instance lifecycle,
  as a class whose methods take the same branches as the original, over an ordered log of
  every outside resource acquired and released (qemu process, Viewer, serial bridge, recorder).
  Runs interleave tool calls, which hold the mutex to their end, with process exits at any moment
  and exit watchers that wake at any moment afterwards. Aborting a watcher is not relied on.
- **QMP client** (`QmpClient.dfy`, `QmpProtocol.dfy`, `QmpWriteLock.dfy`). The request/reply protocol.
  Each atomic or lock-protected action is a step of its own: the check of `closed`, the allocation of
  the id, the insertion into `pending`, the taking of the write lock, the write, the two halves of
  routing a reply, the steps of a `close`, and the four actions of `fail_all`. Any number of `execute`
  and `close` calls interleave with them.
- **Event Buffer** (`EventBuffer.dfy`, `EventLog.dfy`, `EventFeed.dfy`). The bounded ring with its
  cursor and long-poll waiters, against an unbounded log of everything appended; and the feeders of
  successive Instances, whose receives and appends interleave with creates, teardowns and waits. A
  wait's poll of its receiver and timer is one step, and the arm that a timeout then runs under the
  lock another.
- **Hardware Spec to argv** (`QemuOpts.dfy`, `HardwareSpec.dfy`, `ArgvBuilder.dfy`, `ArgvReader.dfy`,
  `ArgvOrder.dfy`, `ArgvRefusal.dfy`, `ArgvInjective.dfy`). The generator as the original runs it, the
  options it stands for, a left-to-right reader that gets the spec's values back from the tokens, the
  order of the options, and the list of checks.
- **Downloader** (`Download.dfy`, `DownloadSlot.dfy`). Mirror failover with temp-then-rename, the
  single slot, and starts that race with running downloads.
- **Codecs** (`Base64.dfy`, `Sha256.dfy`, `Sha256Vectors.dfy`, `VncPassword.dfy`, `SerialRing.dfy`).

Where the original loops or updates fields, the model has a method with a loop or a class, proved
against a function on values; the properties are lemmas about that function and about runs of it.
What the outside world answers (a launch that fails, a write that errors, a fetch that leaves a
partial file, a timer that fires) is an input of the step, so every lemma about runs covers every
such answer.

Some properties one would like are false of the code. Each has an example and its exact condition:

- A failed create does not always leave the slot empty (`OrchestratorRuns.PublishedFailureExample`):
  exactly when only the auto-start `cont` fails, the Instance stays published
  (`OrchestratorRuns.CreateOutcome`).
- A download can overwrite a file although its start found none (`DownloadSlots.OverwriteExample`,
  `DownloadSlots.ClashOverwriteExample`): exactly when the file is present as it claims the slot.
  Without name clashes that is exactly when a download of the same file completed between this start's
  check and its claim (`DownloadSlots.OverwritesIff`).
- A file already in the store can be lost to downloads of other names (`DownloadSlots.ClashExample`):
  exactly when it is named like the temp file of a catalog name that is absent or can itself be lost
  so (`DownloadSlots.LostIffExposed`).
- An entry can enter `pending` after a close has drained it (`QmpProtocols.LateEntryExample`): exactly
  when some call is between its check of `closed` and its insertion at the drain
  (`QmpProtocols.LateEntryIff`). It leaves only in the three ways of `QmpProtocols.LateEntryLeavesOnly`.
- An event of one Instance can be read under the next (`EventFeeds.BleedExample`): exactly when an older
  feeder is still running at the create (`EventFeeds.BleedIff`). Aborting it does not interrupt it
  between two awaits.
- A property list may not be read back as it was meant (`QemuOpts.MisreadExample`): exactly when a
  later property begins with a comma or one that is neither first nor last is empty
  (`QemuOpts.SplitRender`). None of those generated is such a list.
- The two Base64 decoders can disagree (`Base64.DecodersDisagreeExample`): they agree exactly when the
  body has a bad character, or it is well padded and no space or tab precedes the padding, or neither
  (`Base64.DecodersAgree`).
- A long-poll can time out although a match was appended before it returned, with a cursor past that
  event (`EventLogs.MissedMatchExample`): exactly when the match was appended between the last poll of
  its receiver and its timeout (`EventLogs.LongPollSettlesWithFirstMatch`).
- The command timeout does not bound a command, and a `close` does not bound it either
  (`QmpWriteLocks.StuckWriteExample`). The timeout covers only the wait for the reply
  (`QmpProtocols.AwaitingFailsClosed`). Before it, a call stays in its write exactly until that write
  ends or its caller drops it (`QmpWriteLocks.WritingIsUntimed`); behind it other calls stay queued
  (`QmpWriteLocks.WriteHoldsUpCalls`), and a requested `close` can get to its `fail_all` exactly if that
  write has ended or been dropped (`QmpWriteLocks.CloseWaitsForWrite`).

Where the code and its own comments disagree, the model follows the code. The comment on
`generate_vnc_password` speaks of a 55-glyph alphabet whose first 36 glyphs plain reduction would
favour; the array has 56 glyphs, the rejection limit is 224, and plain reduction would favour the
first 32 (`VncPasswords.AlphabetIsInjective`). The comments beside the resets of the Event Buffer say
that no event carries over to the next Instance; `EventFeeds.BleedIff` says when one does.

Conventions: ids, cursors and generations are unbounded; text is a sequence of characters and is
taken as ASCII where the original works on its bytes; error messages are reduced to their kind. The
Base64 accumulator is an integer modulo 2^32; SHA-256 works on 32-bit vectors. The glyph tables are
written as their runs. `dafny verify dfyconfig.toml` checks everything.

## Model

| member | source | states |
|---|---|---|
| `OrchestratorRuns.ResourcesBalance` | rust/src/instance/orchestrator.rs:629-975 | in every run, of each kind of resource as many were acquired as were released plus the one in the field; nothing is released twice or before it was acquired; a qemu is closed only when no viewer, bridge or recording is held |
| `OrchestratorRuns.LifecycleHolds` | rust/src/instance/orchestrator.rs:944-975 | whenever the mutex is free: state is NONE, RUNNING or PAUSED; NONE iff handle, spec and accel are absent; Viewer iff vnc spec; bridge iff serial spec on the socket backend; recording only with a display adapter; the event feeder drains the current handle |
| `OrchestratorRuns.QemuRunsTheSpec` | rust/src/instance/orchestrator.rs:773-857 | in every run whose argvs come from the argv generator, the current qemu was launched with an argv generated for the published spec and accelerator |
| `OrchestratorRuns.GenerationSafety` | rust/src/instance/orchestrator.rs:917-932 | in every reachable world a watcher that is not the current Instance's changes nothing; the current one, after its process exited, empties the slot, giving back everything in the order of a teardown and last the process it watched |
| `OrchestratorRuns.StaleForever` | rust/src/instance/orchestrator.rs:983-1004 | once a watcher is not the current one, as after a destroy or recreate, running it at any later moment of any run changes nothing |
| `OrchestratorRuns.NoLostExit` | rust/src/instance/orchestrator.rs:683-699 | whenever the current Instance's process has exited, its watcher is armed, not aborted and not yet run, and running it leaves NONE |
| `OrchestratorRuns.ExitIsSeen` | rust/src/instance/orchestrator.rs:983-996 | the current Instance's process can exit in every reachable world, and that alone changes no field |
| `OrchestratorRuns.CreateOutcome` | rust/src/instance/orchestrator.rs:629-734 | whatever the argv generator answers: a create fails with the first of ten obstacles, listed in the order in which the original meets them, and succeeds iff there is none; what it acquires and gives back on each way out, in order; a failed one leaves NONE and nothing held, except iff only the auto-start failed, and then the Instance is published; with an Instance present nothing changes |
| `OrchestratorRuns.PublishedFailureExample` | rust/src/instance/orchestrator.rs:704-709 | a create in the initial world that fails in its auto-start and leaves the Instance published and RUNNING |
| `OrchestratorRuns.DestroyOutcome` | rust/src/instance/orchestrator.rs:883-904 | a destroy gives back recording, bridge, Viewer and qemu in that order and leaves nothing but the log, the generation and the aborted watcher, even if the close errors; it reports success iff the close succeeded; without an Instance it changes nothing |
| `OrchestratorRuns.SwitchOutcome` | rust/src/instance/orchestrator.rs:1091-1111 | in every run: PAUSED after a pause and RUNNING after a resume that QEMU agreed to, nothing else changed; a refusal by QEMU or without an Instance changes nothing |
| `OrchestratorRuns.StartRecordingOutcome` | rust/src/instance/orchestrator.rs:1429-1608 | in every run: a recording starts iff an Instance with an adapter runs, recording is available, none is running, and path, spawn and first moments are fine; an ffmpeg that exits at once is acquired and given back; which refusal each failed guard gives |
| `OrchestratorRuns.StopRecordingOutcome` | rust/src/instance/orchestrator.rs:1614-1629 | in every run: the recording is given back and none is held, or there was none and nothing changes |
| `OrchestratorRuns.RunKeeps` | rust/src/instance/orchestrator.rs:629-1004 | every step of every interleaving keeps ledger, lifecycle and watcher invariants |
| `OrchestratorRuns.CreateShape` | rust/src/instance/orchestrator.rs:629-857 | a create either publishes exactly one Instance or leaves the state as it was but for log entries, and only the post-publish `cont` yields a command error |
| `OrchestratorRuns.TornKeepsLedger` | rust/src/instance/orchestrator.rs:944-975 | the shared teardown releases exactly what the fields hold, the qemu after everything else |
| `OrchestratorRuns.Conservation` | rust/src/instance/orchestrator.rs:944-975 | in any log of rightful releases, acquisitions of a kind equal its releases plus what is held |
| `OrchestratorRuns.ReleasedOnce` | rust/src/instance/orchestrator.rs:944-975 | in such a log no release occurs twice |
| `Orchestrators.Orchestrator.CreateInstance` | rust/src/instance/orchestrator.rs:629-734 | new state and result are those of the create specification, for every outcome of parsing, accelerator, argv, spool directory, socket, launch, dial, display arming and auto-start |
| `Orchestrators.Orchestrator.LaunchInstance` | rust/src/instance/orchestrator.rs:740-857 | the refusals in the original's order; a launch whose serial dial fails closes the qemu again; nothing but the log changes |
| `Orchestrators.Orchestrator.Publish` | rust/src/instance/orchestrator.rs:668-699 | exactly the fields of the published Instance change, the generation grows by one, a fresh watcher is armed for it |
| `Orchestrators.Orchestrator.TeardownCurrentInstance` | rust/src/instance/orchestrator.rs:944-975 | recording, bridge, Viewer and qemu are released in that order and every Instance field is cleared |
| `Orchestrators.Orchestrator.DestroyInstance` | rust/src/instance/orchestrator.rs:883-904 | the watcher is stopped before the teardown; refused without an Instance |
| `Orchestrators.Orchestrator.ReconcileUnexpectedExit` | rust/src/instance/orchestrator.rs:917-932 | nothing unless generation, state and handle agree; otherwise the teardown, with the watcher dropped and not aborted |
| `Orchestrators.Orchestrator.SpawnExitWatcher` | rust/src/instance/orchestrator.rs:983-996 | a new watcher for this generation and handle replaces and aborts the former |
| `Orchestrators.Orchestrator.StopExitWatcher` | rust/src/instance/orchestrator.rs:1000-1004 | the watcher is taken and aborted, if there was one |
| `Orchestrators.Orchestrator.PauseInstance` | rust/src/instance/orchestrator.rs:1091-1099 | PAUSED only if QEMU agreed; otherwise nothing changes |
| `Orchestrators.Orchestrator.ResumeInstance` | rust/src/instance/orchestrator.rs:1103-1111 | RUNNING only if QEMU agreed; otherwise nothing changes |
| `Orchestrators.Orchestrator.StartRecording` | rust/src/instance/orchestrator.rs:1429-1608 | the refusals in order; an ffmpeg that exits at once was acquired and is released; a live one is in the field |
| `Orchestrators.Orchestrator.StopRecording` | rust/src/instance/orchestrator.rs:1614-1629 | the recording is released and its field cleared, or there was none |
| `QmpProtocols.RepliesAreCorrelated` | rust/src/qemu/qmp_client.rs:311-386 | over every interleaving: ids are never shared and lie below the next id, an execute that returns a reply returns the first on the wire that carried its own id after its insertion, each id is consumed at most once |
| `QmpProtocols.PendingIsAccounted` | rust/src/qemu/qmp_client.rs:334-385 | every id in `pending` is that of the call whose sender it holds, in flight or dropped unanswered; a finished call left nothing behind |
| `QmpProtocols.CloseIsFinal` | rust/src/qemu/qmp_client.rs:139-159 | `closed`, the reason and the exit latch are set once, in that order, by one close, and never revert; a command that checks later never gets an id |
| `QmpProtocols.LateEntryLeavesOnly` | rust/src/qemu/qmp_client.rs:334-385 | an entry in `pending` after the drain leaves only by its own write failure, its own timeout or a reply with its id |
| `QmpProtocols.LateEntryIff` | rust/src/qemu/qmp_client.rs:317-339 | after the drain some continuation has a pending entry iff some call is between its check of `closed` and its insertion |
| `QmpProtocols.LateEntryExample` | rust/src/qemu/qmp_client.rs:317-339 | a reachable world in which a closed client has a pending entry |
| `QmpProtocols.DrainRejects` | rust/src/qemu/qmp_client.rs:144-155 | the drain empties `pending`; an awaiting call then learns of the close at its next poll iff its entry was still there, and otherwise, its entry being claimed, gets its reply |
| `QmpProtocols.ClosedReportsReason` | rust/src/qemu/qmp_client.rs:162-168 | a rejected command reports the reason of the close that won, except that one refused between the swap and the recording reports the fallback |
| `QmpProtocols.AwaitingFailsClosed` | rust/src/qemu/qmp_client.rs:358-385 | once its timer fires a command that awaits its reply is two steps from an outcome, a timeout iff its channel was still open, and its entry is gone |
| `QmpProtocols.WriteOutcome` | rust/src/qemu/qmp_client.rs:341-357 | a write that went through gives the lock up and leaves the call awaiting with its entry; a failed one keeps the lock until its entry is out and ends the call at once with a write failure, nothing left behind; nothing else changes |
| `QmpProtocols.ReceiveOutcome` | rust/src/qemu/qmp_client.rs:482-506 | a reply that some entry waits for claims it and, once delivered, is in the channel of the call whose sender the entry held, if it still listens; any other reply is ignored |
| `QmpWriteLocks.OneWriter` | rust/src/qemu/qmp_client.rs:341-356 | in every run the write lock is held at most once, by a call that writes or unwinds or a close that shuts down |
| `QmpWriteLocks.WritingIsUntimed` | rust/src/qemu/qmp_client.rs:341-357 | through any run a call is still in its write if that write has not ended and its caller has not dropped it, and past it otherwise: no timer, reply or close ends it |
| `QmpWriteLocks.WriteHoldsUpCalls` | rust/src/qemu/qmp_client.rs:341-343 | behind a write that has not ended a call stays queued unless its caller drops it |
| `QmpWriteLocks.CloseWaitsForWrite` | rust/src/qemu/qmp_client.rs:390-402 | a close requested during a write can get to its own swap, without that write's end, iff the write has ended or been dropped meanwhile |
| `QmpWriteLocks.StuckWriteExample` | rust/src/qemu/qmp_client.rs:341-402 | a reachable world in which the reader has failed all, a call is still in its write and a requested close waits behind it |
| `QmpProtocols.FirstReplyIsFirst` | rust/src/qemu/qmp_client.rs:482-506 | the reply specification is the first message with the id, or there is none |
| `QmpProtocols.RunKeeps` | rust/src/qemu/qmp_client.rs:139-507 | every step of every interleaving keeps the protocol invariant |
| `QmpClients.Shared.AllocateId` | rust/src/qemu/qmp_client.rs:321 | a fresh id, one past the former |
| `QmpClients.Shared.Insert` | rust/src/qemu/qmp_client.rs:334-339 | the entry is added with an open channel |
| `QmpClients.Shared.Remove` | rust/src/qemu/qmp_client.rs:345-349 | the entry goes and its sender is dropped |
| `QmpClients.SendersGoWithTheirEntries` | rust/src/qemu/qmp_client.rs:144-155 | removing an entry or draining them all drops exactly the senders held in what goes, and taking one drops none |
| `QmpClients.Shared.Take` | rust/src/qemu/qmp_client.rs:483-490 | the reader claims the entry a reply answers, or learns there is none |
| `QmpClients.Shared.Deliver` | rust/src/qemu/qmp_client.rs:491-506 | the reply reaches the channel if its receiver is still there |
| `QmpClients.Shared.SwapClosed` | rust/src/qemu/qmp_client.rs:140-142 | the former value is returned and the flag is set |
| `QmpClients.Shared.Drain` | rust/src/qemu/qmp_client.rs:144-155 | `pending` is empty and exactly the drained senders are dropped |
| `QmpClients.Shared.FailAll` | rust/src/qemu/qmp_client.rs:139-159 | undisturbed, the first call closes, records, drains and latches, and later ones do nothing |
| `EventLogs.RingRefinesLog` | rust/src/instance/event_buffer.rs:194-247 | in every run the ring is the log's last min(capacity, appended since reset) events, numbered consecutively up to the cursor |
| `EventLogs.ChainedReads` | rust/src/instance/event_buffer.rs:232-247 | a read from an earlier cursor returns a suffix of what was appended since, repeats nothing, accounts for everything it skips, and skips nothing iff at most `capacity` events were appended and no reset dropped one |
| `EventLogs.LongPollSettlesWithFirstMatch` | rust/src/instance/event_buffer.rs:259-328 | a settled long-poll holds the smallest-numbered matching event among those retained past its cursor and those appended while it was open, or timed out; one that timed out was offered a match iff that was appended between the last poll of its receiver and its timeout, and its cursor is past all it was offered |
| `EventLogs.NamedWaitGetsItsName` | rust/src/instance/event_buffer.rs:259-359 | a settled wait for a name holds the smallest-numbered event of that name it was offered and no other; a timed-out one had been shown none of that name |
| `EventLogs.UnnamedWaitGetsTheFirst` | rust/src/instance/event_buffer.rs:259-359 | a settled wait for any event holds the very first one it was offered; a timed-out one had been shown none |
| `EventLogs.WaitForOutcome` | rust/src/instance/event_buffer.rs:259-303 | a wait is offered at once exactly the retained events past its cursor, none without one; it settles on the spot iff one of them was asked for or the timeout is zero, and otherwise a waiter is registered |
| `EventLogs.LogIsWhatWasAppended` | rust/src/instance/event_buffer.rs:194-204 | a run adds to the log exactly the events appended, in order, each with its own number, name, data and timestamp |
| `EventLogs.MissedMatchExample` | rust/src/instance/event_buffer.rs:306-325 | a run in which a wait times out with a cursor past a retained match |
| `EventLogs.NoWaiterOutlivesAMatch` | rust/src/instance/event_buffer.rs:215-226 | a registered waiter never coexists with a matching event appended since its registration |
| `EventLogs.PollSettles` | rust/src/instance/event_buffer.rs:305-322 | a poll of an open wait settles it iff a match was appended, and sends it to its timeout iff none was and its timer fired or a reset dropped it |
| `EventFeeds.BleedIff` | rust/src/instance/orchestrator.rs:944-967 | during the life of a newly created Instance an older Instance's event can come to be read or to answer a long-poll iff an older feeder is running at the create |
| `EventFeeds.EventsAreOwnOrLate` | rust/src/instance/orchestrator.rs:1060-1086 | in every run whatever is read or answers a long-poll under an Instance is its own event, or one of an older feeder that was running at its create |
| `EventFeeds.FeedersDeliver` | rust/src/instance/orchestrator.rs:1060-1078 | in every run what a feeder appended is what it received: each event once and in order, but for the one it holds |
| `EventFeeds.YieldEndsAbortedFeeder` | rust/src/instance/orchestrator.rs:1080-1086 | an aborted feeder receives nothing in any run after its next yield |
| `EventFeeds.RunRefinesLog` | rust/src/instance/orchestrator.rs:1020-1086 | every run of feeders, Instances and waits is a run of the buffer's own steps |
| `EventFeeds.BleedExample` | rust/src/instance/orchestrator.rs:668-673 | a run in which the second Instance's ring holds only an event of the first |
| `EventFeeds.RunKeeps` | rust/src/instance/orchestrator.rs:1060-1086 | every interleaving of feeders, creates, teardowns and long-polls keeps the ownership invariant |
| `EventLogs.RunExtends` | rust/src/instance/event_buffer.rs:194-344 | the log only grows, calls are kept, and a settled call never settles again |
| `EventLogs.RunKeeps` | rust/src/instance/event_buffer.rs:194-344 | every step keeps the invariant tying ring, waiters, channels and log |
| `EventBuffers.EventBuffer.constructor` | rust/src/instance/event_buffer.rs:161-175 | an empty buffer of that capacity, cursor 0 |
| `EventBuffers.EventBuffer.Append` | rust/src/instance/event_buffer.rs:194-228 | the event is stamped with the next number, the ring evicts, matching waiters are removed and sent it |
| `EventBuffers.EventBuffer.Evict` | rust/src/instance/event_buffer.rs:205-214 | the last `capacity` events remain |
| `EventBuffers.EventBuffer.Wake` | rust/src/instance/event_buffer.rs:217-226 | exactly the waiters that do not match remain, in order, and each that matched was sent the event |
| `EventBuffers.EventBuffer.Read` | rust/src/instance/event_buffer.rs:232-247 | without a cursor all retained events; with one, the order-preserving selection of exactly the places whose number exceeds it; in either case the latest cursor |
| `EventBuffers.EventBuffer.WaitFor` | rust/src/instance/event_buffer.rs:259-303 | the first retained match past the cursor, or a clean timeout at zero timeout, or else a registered waiter |
| `EventBuffers.EventBuffer.Poll` | rust/src/instance/event_buffer.rs:306-321 | a delivered event wins over the timer; a dropped sender or the timer leads to the timeout; once decided the receiver is gone, and the waiter still registered |
| `EventBuffers.EventBuffer.TimeOut` | rust/src/instance/event_buffer.rs:316-325 | under the lock: the waiter is removed and the timeout carries the cursor of that moment |
| `EventBuffers.EventBuffer.Reset` | rust/src/instance/event_buffer.rs:334-344 | events and waiters are gone, every waiter's sender is dropped, the cursor stays |
| `ArgvBuilders.BuildArgv` | rust/src/instance/hardware_spec.rs:1375-1525 | the tokens, or the first refusal in the original's order, of the option-list specification |
| `ArgvBuilders.BuildHead` | rust/src/instance/hardware_spec.rs:1381-1464 | machine, sizing, boot artifacts, fixed flags and display, or the first refusal among them |
| `ArgvBuilders.PushDrives` | rust/src/instance/hardware_spec.rs:1466-1468 | one drive option per disk, in order, or the refusal of the first unusable image |
| `ArgvBuilders.BuildTail` | rust/src/instance/hardware_spec.rs:1482-1502 | boot order, network and QMP options, or the network refusal |
| `ArgvBuilders.BuildDriveArgs` | rust/src/instance/hardware_spec.rs:1001-1027 | the joined, partly escaped parts render exactly the drive's property list |
| `ArgvBuilders.BuildCdromArgs` | rust/src/instance/hardware_spec.rs:1185-1208 | the same for the read-only CD-ROM drive |
| `ArgvBuilders.BuildShareArgs` | rust/src/instance/hardware_spec.rs:1046-1082 | the formatted `-fsdev` and `-device` texts render the share's property lists, read-only unless writes are enabled |
| `ArgvBuilders.BuildSerialArgs` | rust/src/instance/hardware_spec.rs:1094-1125 | the formatted `-chardev` text renders the property list of its backend |
| `ArgvBuilders.BuildNetworkArgs` | rust/src/instance/hardware_spec.rs:1239-1338 | the NIC options with every forward in order, or the first refusal |
| `ArgvReaders.ReadRecoversHardware` | rust/src/instance/hardware_spec.rs:1375-1525 | a left-to-right reader of any successful argv without raw arguments, with its own spellings of flags, words and numbers, recovers machine, accelerator, sizing, boot artifacts at their paths in the stores, display, adapter, drives in order, share, serial device, boot order, NIC and forwards as the spec and the options have them |
| `ArgvReaders.ShareIsReadonlyByDefault` | rust/src/instance/hardware_spec.rs:1046-1082 | the share is there iff asked for, on the operator's directory, and writable iff the operator enabled writes |
| `ArgvReaders.ForwardRead` | rust/src/instance/hardware_spec.rs:1302-1307 | the text of a forward is read back as its protocol and ports, on the loopback address |
| `ArgvOrders.ArgvOrder` | rust/src/instance/hardware_spec.rs:1375-1525 | the options come in one fixed order, each exactly when the spec calls for it |
| `ArgvRefusals.ArgvRefusal` | rust/src/instance/hardware_spec.rs:1375-1525 | the generator succeeds iff the spec passes every check of a list in the original's order, and otherwise answers with the first it fails: caps, references, adapter, disks, CD-ROM, share, serial, network, raw arguments |
| `ArgvRefusals.RawArgsComeLast` | rust/src/instance/hardware_spec.rs:1504-1523 | raw arguments pass only if allowed, and end the argv that is generated without them |
| `ArgvRefusals.StoreNameIff` | rust/src/instance/store_path.rs:57-64 | a store name is a letter or digit followed by letters, digits, dots, underscores and hyphens, so one segment without separator, comma, equals sign, colon or blank |
| `ArgvRefusals.BlankIff` | rust/src/instance/hardware_spec.rs:1005-1006 | a directory counts as missing iff it has no character outside Unicode's White_Space |
| `ArgvRefusals.RaspiIff` | rust/src/instance/hardware_spec.rs:284-295 | the boards without a PCI bus are exactly the six raspi machines |
| `ArgvReaders.TokensFlatten` | rust/src/instance/hardware_spec.rs:1384-1502 | grouping the tokens again gives the options back |
| `ArgvInjectives.ArgvDeterminesHardware` | rust/src/instance/hardware_spec.rs:1375-1525 | on one host and under one set of options, specs with the same argv agree on every field argv is generated from |
| `ArgvInjectives.ForwardInjective` | rust/src/instance/hardware_spec.rs:1302-1307 | the text of a forward determines protocol and both ports |
| `QemuOpts.SplitRender` | rust/src/instance/hardware_spec.rs:993-995 | splitting a rendered list at undoubled commas and undoubling gives the list back iff no later property begins with a comma and only the last may be empty |
| `QemuOpts.MisreadExample` | rust/src/instance/hardware_spec.rs:993-995 | a two-property list whose rendering is read back as another one |
| `QemuOpts.SplitEscaped` | rust/src/instance/hardware_spec.rs:993-995 | an escaped value is read back whole, whatever commas it has and whatever follows |
| `QemuOpts.JoinIsRender` | rust/src/instance/hardware_spec.rs:1016-1026 | joining escaped parts is rendering the properties they stand for |
| `QemuOpts.EscapeKeyValue` | rust/src/instance/hardware_spec.rs:1017 | escaping only the value after a constant key escapes the whole property |
| `Downloads.MirrorFailover` | rust/src/instance/download.rs:425-509 | a download completes iff the first mirror whose fetch succeeds can be renamed, and then the destination holds that mirror's bytes, no temp file is left, and the percent is 100 if a total is known; otherwise it fails with all but the temp file untouched, with a finalize error iff some mirror had succeeded, else the last mirror's error, or that there were none; if removals succeed no temp file is left either way |
| `Downloads.PercentDoesNotDrop` | rust/src/instance/download.rs:447-466 | within one attempt with growing byte counts and one total, the percent never drops |
| `Downloads.PercentNeverExceeds` | rust/src/instance/download.rs:436-509 | every status shown through any sequence of attempts and reports, from any mirror on, has a percent of at most 100 |
| `Downloads.LastShownIsFinal` | rust/src/instance/download.rs:436-509 | the last status shown is the one the failover specification ends with |
| `Downloads.Percent` | rust/src/instance/download.rs:460-463 | at most 100, and 100 exactly when all bytes are in |
| `Downloads.PercentIsFloor` | rust/src/instance/download.rs:460-463 | the percent is the whole part of the share that is in, and the only such number |
| `Downloads.ReportIsShown` | rust/src/instance/download.rs:446-466 | after any reports, a total replaces the total, and a byte count the byte count and, once a positive total is known, the percent |
| `Downloads.EveryReportIsShown` | rust/src/instance/download.rs:446-466 | each report of an attempt is shown, in order |
| `Downloads.EveryTriedMirrorIsShown` | rust/src/instance/download.rs:436-445 | every mirror up to the first success is shown with its url and number and nothing downloaded |
| `Downloads.DownloadManager.RunDownload` | rust/src/instance/download.rs:425-517 | status and store end as the failover specification says, the statuses shown on the way are the specified ones in order, the slot is free and `last` is the final status |
| `Downloads.FindIsEntry` | rust/src/instance/download.rs:345-355 | the lookup finds an entry with the id iff the catalog has one, and the only one if ids are distinct |
| `Downloads.StartIsLetThrough` | rust/src/instance/download.rs:337-369 | with distinct ids a start passes its check with an entry and target iff downloading is enabled, the entry has that id and its target resolves and is absent |
| `Downloads.StartIsRefused` | rust/src/instance/download.rs:337-369 | which refusal a start gets: disabled, unknown id, bad target or already present, the first that applies |
| `Downloads.DownloadManager.Check` | rust/src/instance/download.rs:337-369 | the first refusal in the original's order, or the entry with its absent target; nothing changes |
| `Downloads.DownloadManager.Start` | rust/src/instance/download.rs:337-411 | an uninterrupted start either refuses and leaves the slot, or fills the free slot with the entry's initial status |
| `Downloads.DownloadManager.Claim` | rust/src/instance/download.rs:371-397 | refused naming the active download, or the slot holds a fresh initial status |
| `Downloads.DownloadManager.Finish` | rust/src/instance/download.rs:512-517 | the slot is free and `last` is the snapshot |
| `Downloads.Shared.OnProgress` | rust/src/instance/download.rs:453-466 | bytes and percent follow a progress report |
| `Downloads.Shared.OnTotal` | rust/src/instance/download.rs:446-452 | the total follows its report |
| `DownloadSlots.SingleSlot` | rust/src/instance/download.rs:371-394 | over interleaved starts and jobs at most one job is live, and the slot holds exactly that one from claim to finish |
| `DownloadSlots.OverwritesIff` | rust/src/instance/download.rs:363-372 | for any names, a running download's rename overwrites iff its file was present when it claimed the slot, and overwrites that very file; with clash-free names iff a download of the same file completed between its start's check and claim |
| `DownloadSlots.OverwriteExample` | rust/src/instance/download.rs:363-372 | a run in which the second of two starts replaces the file the first completed |
| `DownloadSlots.ClashOverwriteExample` | rust/src/instance/download.rs:363-433 | a run in which a running download finds its file present although nothing has completed |
| `DownloadSlots.LostIffExposed` | rust/src/instance/download.rs:363-433 | of the files already in the store, exactly those named like the temp file of a catalog name that is absent or can itself be lost so are lost or changed in some run |
| `DownloadSlots.ClashExample` | rust/src/instance/download.rs:416-433 | a run in which clearing a stale temp file deletes another file of that name |
| `DownloadSlots.FilesAreKept` | rust/src/instance/download.rs:425-509 | over any run, a file that is no download's temp file and onto which none is renamed stays as it was |
| `DownloadSlots.JobRefinesSteps` | rust/src/instance/download.rs:425-509 | what the background job does to the store is a run of the interleaved steps |
| `Base64.RoundTrip` | rust/src/instance/orchestrator.rs:2313-2385 | decoding an encoding gives every byte sequence back |
| `Base64.StrictAccepts` | rust/src/instance/orchestrator.rs:2324-2357 | accepted iff, whitespace aside, an alphabet body of length not 1 modulo 4 followed only by padding; the result has floor(6 * length / 8) bytes |
| `Base64.StrictRefuses` | rust/src/instance/orchestrator.rs:2324-2357 | which error a refused text gets: something after a pad, else its first character outside the alphabet, else a body of length 1 modulo 4 |
| `Base64.WhiteSpaceIsIgnored` | rust/src/instance/orchestrator.rs:2324-2327 | exactly space, tab and line breaks may stand anywhere without changing the answer |
| `Base64.EncodingIsCanonical` | rust/src/instance/orchestrator.rs:2363-2385 | as many pads as bytes are missing, pads at the end only, and zero bits after the last byte |
| `Base64.KnownEncodings` | rust/src/instance/orchestrator.rs:3429-3436 | the examples of section 10 of RFC 4648 |
| `Base64.OnlyGlyphsDecode` | rust/src/instance/orchestrator.rs:2314-2323 | no character but the sixty-four glyphs stands for a value |
| `Base64.DecodersAgree` | rust/src/viewer.rs:330-359 | on every input the decoders give the same bytes or both refuse iff the body has a bad character, or it is well padded and no blank precedes the padding, or neither; the lenient one refuses exactly a bad character or a blank and otherwise yields the body's whole bytes |
| `Base64.DecodersDisagreeExample` | rust/src/viewer.rs:330-359 | a text that only the strict decoder accepts, and one that only the lenient one does |
| `Base64.AccumulateSextet` | rust/src/instance/orchestrator.rs:2341-2346 | one round keeps the output equal to the whole bytes read so far although the accumulator is never masked |
| `Base64.ByteOfLastTwo` | rust/src/instance/orchestrator.rs:2341-2345 | a byte taken from the wrapped accumulator depends on its last two sextets only |
| `Base64.SextetsCarryBytes` | rust/src/instance/orchestrator.rs:2363-2385 | the sextets of an encoding carry exactly the bytes encoded |
| `Base64.Encode` | rust/src/instance/orchestrator.rs:2363-2385 | the encoding of section 4 of RFC 4648, defined glyph by glyph on the bit string |
| `Base64.EncodeGroup` | rust/src/instance/orchestrator.rs:2366-2382 | packing three bytes and reading six bits at a time gives the group's four glyphs |
| `Base64.StrictDecode` | rust/src/instance/orchestrator.rs:2313-2358 | the whole bytes of the body, or the first error |
| `Base64.DecodeBody` | rust/src/instance/orchestrator.rs:2335-2357 | the whole bytes of the body, the first bad character, or a dangling sextet |
| `Base64.LenientDecode` | rust/src/viewer.rs:330-359 | the whole bytes of everything before the padding, line breaks aside, or nothing |
| `Sha256.Sha256` | rust/src/viewer.rs:223-305 | the digest of sections 5.1.1 and 6.2.2 of FIPS 180-4, defined by recursion over blocks and rounds |
| `Sha256Vectors.AbcDigest` | rust/src/viewer.rs:833-837 | the digest of "abc" is the standard's |
| `Sha256Vectors.LongDigest` | rust/src/viewer.rs:838-844 | so is that of the 56-byte message, whose padding fills a second block |
| `Sha256.Compress` | rust/src/viewer.rs:267-297 | rotating eight variables is the sixty-four rounds added to the hash value |
| `Sha256.ExpandSchedule` | rust/src/viewer.rs:249-265 | the array filled in place is the message schedule |
| `Sha256.Pad` | rust/src/viewer.rs:240-246 | the padding loop ends with the padded message |
| `Sha256.PaddedLength` | rust/src/viewer.rs:243-248 | the padded length is a multiple of 64 |
| `Sha256.PaddingIsMinimal` | rust/src/viewer.rs:243-245 | the loop adds the standard's smallest number of zero bits |
| `Sha256.PaddingIsInjective` | rust/src/viewer.rs:240-246 | different messages, of any length, have different paddings |
| `Sha256.ConstantTimeEq` | rust/src/viewer.rs:309-318 | true iff the two are equal |
| `Sha256.PasswordMatches` | rust/src/viewer.rs:322-324 | true iff the digests are equal, so always for equal passwords |
| `VncPasswords.Unbiased` | rust/src/instance/orchestrator.rs:1778-1780 | for every alphabet size and byte range, each glyph is hit by exactly floor(m/n) of the accepted values |
| `VncPasswords.GlyphsAreEquallyLikely` | rust/src/instance/orchestrator.rs:1781-1789 | one draw of the generator yields each glyph of an alphabet without repetitions for exactly 256 / n of the bytes |
| `VncPasswords.EveryGlyphHasFourBytes` | rust/src/instance/orchestrator.rs:1776-1789 | so each of the fifty-six glyphs has four bytes that yield it |
| `VncPasswords.HitCount` | rust/src/instance/orchestrator.rs:1787 | reduction hits the first `m mod n` glyphs once more than the others |
| `VncPasswords.PlainModuloIsUnbiasedIff` | rust/src/instance/orchestrator.rs:1778-1780 | without the rejection the choice is unbiased iff n divides the range |
| `VncPasswords.AlphabetIsInjective` | rust/src/instance/orchestrator.rs:1776-1780 | fifty-six distinct glyphs, limit 224, so choosing an index chooses a character |
| `VncPasswords.Generate` | rust/src/instance/orchestrator.rs:1775-1791 | the first eight glyphs of the accepted bytes, drawing no byte more than needed |
| `SerialRings.RingIsStreamSuffix` | rust/src/instance/orchestrator.rs:1828-1834 | over any mix of pushes and drains the ring is the stream from the later of the last read and the last `cap` bytes; drains are disjoint in-order windows; produced = drained + evicted + held |
| `SerialRings.StreamIsWhatWasPushed` | rust/src/instance/orchestrator.rs:1828-1834 | the stream is what was pushed, in order, and there is one read for every drain |
| `SerialRings.DrainTakesTheOldest` | rust/src/instance/orchestrator.rs:1207-1212 | in every run a read takes as many bytes as it asked for, or all, the oldest first; the rest is held on |
| `SerialRings.SerialRing.PushBounded` | rust/src/instance/orchestrator.rs:1828-1834 | the last `cap` bytes of ring and data remain |
| `SerialRings.SerialRing.Drain` | rust/src/instance/orchestrator.rs:1208-1212 | as many of the oldest bytes as asked for, or all, are taken off, in order |

## Left out

- AwaitingFailsClosed: bounds only the wait for the reply, because the code starts no timer before it; `WritingIsUntimed` and `WriteHoldsUpCalls` prove that nothing else bounds the wait for the lock and the write.
- Sockets, process spawning, the tokio runtime, ffmpeg encoding and probes of the host: their outcomes are inputs of the steps.
- The real QEMU driver is not part of this model; a handle is known only by the driver port's contract.
- Reading QMP lines and routing greetings and events (`dispatch` before the id lookup): JSON plumbing; a reply is a step that carries its id.
- `parse_hardware_spec`, `resolve_accel` and the choice of the qemu binary: validation and single-branch choices; their results are inputs of a create.
- The containment checks of the stores: a name resolves to the real directory joined with a separator-free name, or is refused.
- The derivation of the serial socket's path from the QMP socket's: the path is an option.
- The `-qmp` value, which the original prints unescaped: it is printed by the model but is outside the comma round trip.
- `reset_instance`, `powerdown_instance`, the queries and `execute_command` leave the Orchestrator's fields alone; the lifecycle state is not claimed to equal the Guest's run state, which an allowed `stop` or `cont` command can change behind it.
- Creates and teardowns appear in the feeders' model by their resets, aborts and spawns only; what a feeder receives may be any event, and lagging is receiving nothing.
- A tool call, or a `close` of the QMP client, dropped midway.
- Writers to the ISO Store other than the downloader.
- The byte source of the password generator is finite here, so the loop may stop early when it runs dry; that the original's never does is not modelled.
- Wrap-around of cursors, ids and generations, error texts, logging and pacing by the clock.
- HTTP, authentication, the noVNC proxy, configuration, the catalog's validation and the Command Policy: not modelled.
