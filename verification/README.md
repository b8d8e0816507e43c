# Verified models of the bus, the sealed secret, calls, egress and wsctl

Dafny models of six stateful parts of the repository, and proofs about all their inputs, histories and
interleavings. `dafny verify dfyconfig.toml` checks the whole of it.

| part | source | files |
|---|---|---|
| event bus | `internal/bus/bus.go` | `Bus`, `BusTrace`, `BusSystem`, `BusObjects` |
| contract-secret rotation | `cmd/whatserverd/contract_secret.go`, `internal/membership/sealdir.go` | `SealedDir`, `SealedDirRuns`, `SecretRotation`, `SecretCommands` |
| call service | `internal/calling/service.go` | `CallService`, `CallSafety`, `CallProperties`, `CallHistory`, `CallDebts`, `CallObjects` |
| participant roster | `internal/calling/groups.go` | `Roster`, `RosterObjects` |
| media bridge | `internal/calling/media.go` | `Pcm`, `VideoPacket`, `MediaQueues`, `MediaBridge` |
| egress proxy | `internal/cimdegress/cimdegress.go` | `Egress`, `EgressObjects` |
| wsctl's client | `cmd/wsctl/client.go` | `Multiplexer`, `MultiplexerObjects` |

Each part has the same shape. A value for the state, with one function per critical section (or per file
operation); a `Run` over any sequence of steps, where the steps of different goroutines, crashes, timers and
callbacks come in any order and a step that is not possible does nothing; theorems about every such run; and
a class whose methods do the source's work in place, with its loops and early returns. Where a method's
contract names a function of the run (the bus, the sealed directory, the call service, wsctl's client), it is
proved to compute exactly that, so the theorems speak about the method. The roster's, the bridge's and the
proxy's methods keep the invariants themselves; the proxy's interleavings (`Egress`) are of a value of their
own.

## Assumptions

- A section under one mutex is one step. What is under two mutexes in turn, or under none, is two steps:
  `Publish` (its snapshot and each offer), `Close`, `Start`, `Answer`, the end of a call, a media connection.
- A fingerprint identifies its envelope, and an envelope opens to the secret sealed in it. Two seals of one
  secret are two envelopes. One command works on the directory at a time.
- A crash keeps any of the unsynced changes of the directory, or, on a disk that orders them, any beginning
  of them; both kinds are modelled, and killing the process keeps them all. A command may be started over
  whatever a killed one left unsynced.
- A media ticket's token is never drawn twice (it is 32 random bytes); a step that would draw one again does
  nothing.
- A subscription has one reader, which clears a lag only once it has read it, as `pushLag` does.
- Sequences are allocated in commit order, so a reader of the history sees them without holes.
- The WhatsApp engine may call back, end a call or fail at any time, and returns a call it has not returned
  before. Timers are steps that may come at any time.
- Samples are reals; a decoded sample is its word over 32768, exactly. The frame size is any positive even
  number of bytes.
- Times are integers given to each call.
- What others do while a method runs is an input of it: `Publish` and `DropDevice` are given the calls of other
  goroutines that come in each gap between their own, the sealed directory's commands which of their file
  operations fail, and a write to the bridge whether the queue's reader takes anything meanwhile. So a method's
  contract says what it does itself, exactly. After a refused exchange the current file can be read again.

## What the proofs found

- **The lag marker is not always the lowest sequence missed** (`internal/bus/bus.go:23-26` promises it).
  It is the first one refused. Two publishers may overtake each other between the snapshot and the offer;
  then a lower sequence is refused later: `OvertakingSkipsAMissedEvent` is such a run, in which 513 is missed
  and the client is told to resume from 514. `MarkerIsLowestIff` says over whole histories exactly when the
  promise holds, and `NoLoss` exactly which events such a lag fails to cover.
- **A replay ended without reading the history loses what was published before the registration.** An event
  whose publisher ran before the subscription was there arrives exactly when the history read goes as far
  (`NoLoss`; `UnreadHistoryIsLost` is a run in which it does not).
- **A command started over what a killed one left unsynced does not sync it first.** On a disk that orders
  changes this is harmless (`EveryRunIsGood`, `SwapExchangesOnce`). On one that does not, `GoodStartIsSafeIff`
  says for every command exactly when it is safe: a first seal, a swap that was exchanged and a drop being
  finished always are, the others by what a crash before them could leave. A reset run again is not
  (`TornReset`: its first removal and nothing else survives, and an intent stands over one file), nor a drop
  after a killed promote (`TornDrop`). A swap run again leaves only its own four directories exactly when it
  does not resume over anything unsynced (`SwapIsSafeIffSynced`; `KilledSwap`, `TornAfterExchange` and
  `TornBeforeIntent` show what is left otherwise). To sync the disk before each command is enough
  (`SyncedStartsAreCareful`).
- **A call whose media comes before its Answer is not active once answered.** `Answer` sets it connecting and
  looks at no media; it stays so until the engine reports another phase (`AnsweredAfterMedia`, and `ActiveIff`
  says exactly when a call is active). An outgoing call is looked at as the peer accepts.
- **The participant limit can be exceeded before a group forms**: an activation marks every row connected,
  departed ones too. `LimitHoldsIff` says over whole calls exactly when it is not; `InvitesGoOverLimit` is a
  call that goes over after seven or more invitations that failed.
- **Two requests of one id can lose each other's frames.** A request that cleans up takes out the waiters of
  its id whoever they are for by then. `ListensIff` says over all runs exactly when a request is still
  registered; `ErrorGoesAstray` and `ReplyGoesAstray` are runs in which an error and a reply go to the stream
  instead. With distinct ids neither happens (`DistinctIdsSuffice`).

## Model

| member | source | states |
|---|---|---|
| EventBus.QueueIsBounded | internal/bus/bus.go:38-45 | After any history of calls the queue and the replay buffer hold at most 512 events each, nothing is queued while a replay lasts, and nothing stays buffered once it has ended or the subscription has. |
| EventBus.EndReplayNeverOverflows | internal/bus/bus.go:238-243 | Ending a replay, after any history and at any sequence, refuses nothing: lag marker and count stay, and the queue becomes exactly what the handover passes on. |
| EventBus.HandoverFits | internal/bus/bus.go:160-168 | A handover with room delivers, in order, exactly the buffered events past the sequence and still allowed. |
| EventBus.NothingLost | internal/bus/bus.go:145-265 | Conservation over every history: the buffer is the events held, queue and events taken are the events queued, `dropped` is the number refused since the last ClearLag, and `laggedAt` is the sequence of the first of those; each offered event has one fate. |
| EventBusTrace.FateIsJudged | internal/bus/bus.go:223-252 | The fate of each offered event equals what an independent rule gives from the flags at its offer, the room, and the call that ended the replay. |
| EventBusTrace.ExactTrace | internal/bus/bus.go:145-265 | Everything ever put on the queue, in order, equals the events the rule owes the reader, less those that found no room: allowed, offered live or captured in a replay, not ephemeral there, past throughSeq and still allowed at the handover. |
| EventBusTrace.NoLagNoGap | internal/bus/bus.go:5-18 | After a history that never lagged, the events with a sequence that were put on the queue are, in order, all those the rule owes, with nothing said of how long queue or buffer were. |
| EventBusTrace.DropIsFinal | internal/bus/bus.go:267-328 | After a device is dropped from a subscription that names its devices, no call that follows, live offer or handover, adds one of its events to the queue. |
| EventBusTrace.FilterNeverEmpties | internal/bus/bus.go:318-324 | A filter that starts with a device is never left empty: the last drop ends the subscription instead. |
| EventBusTrace.MarkerIsLowestIff | internal/bus/bus.go:345-351 | Over any history the marker is the lowest sequence missed at every moment, if and only if no offer that finds no room in a lag has a lower sequence than the one that began it. |
| EventBusTrace.MarkerIsLowestInOrder | internal/bus/bus.go:23-26 | With offers in sequence order the marker is the lowest sequence missed, after any history. |
| EventBusTrace.LagStartsThere | internal/bus/bus.go:345-351 | The subscription is lagged exactly while an offer since the last ClearLag found no room, and the marker is the sequence of the first such. |
| EventBusTrace.ToldIff | internal/wsapi/subscribe.go:331-341 | The client was told a sequence that covers a refused event if and only if its lag was cleared, having been read first, and it does not undercut that lag; refusals between the reading and the clearing are covered too. |
| EventBusSystem.InvAlways | internal/bus/bus.go:108-221 | In every interleaving of committers, publishers, subscribers and readers: a registered subscription has been offered an event exactly when its publisher's snapshot held it and has come to it, and no subscription any event twice. |
| EventBusSystem.NoLoss | internal/bus/bus.go:5-18 | In every interleaving, for each published event of a device still allowed with no offer pending: it was read from history, is buffered, queued or taken, or a lag that goes back to it is to be told or was told, if and only if the history read goes as far, or its publisher found the subscription registered and it was not refused in a lag that a higher sequence began. |
| EventBusSystem.ReplayLeavesNoGap | internal/wsapi/subscribe.go:119-210 | The reader's own order of work, history read up to the log at registration, leaves no gap but for refusals that undercut their lag. |
| EventBusSystem.InOrderNeverUndercut | internal/bus/bus.go:23-26 | Where offers come in sequence order no refusal undercuts its lag. |
| EventBusSystem.OvertakingSkipsAMissedEvent | internal/bus/bus.go:210-221 | A run of two publishers after which the marker is 514 and 513 was missed. |
| EventBusSystem.UnreadHistoryIsLost | internal/wsapi/subscribe.go:119-210 | A run in which a replay ended at 0 loses an event published before the registration. |
| EventBusSystem.OfferedAtMostOnce | internal/bus/bus.go:210-221 | In every interleaving a committed event is offered to a subscription at most once. |
| EventBusObjects.Subscription.DropLocked | internal/bus/bus.go:332-352 | In place: presence leaves no trace, the first refusal sets the marker, each one counts. |
| EventBusObjects.Subscription.DeliverLocked | internal/bus/bus.go:256-265 | In place, without blocking: queued while there is room, else refused; nothing is sent on a closed channel. |
| EventBusObjects.Subscription.Offer | internal/bus/bus.go:223-252 | In place, the offer of which the theorems speak, with the flags of its channels kept right. |
| EventBusObjects.Subscription.EndReplay | internal/bus/bus.go:145-169 | The loop over the buffer computes exactly the handover. |
| EventBusObjects.Subscription.Drop | internal/bus/bus.go:303-328 | Filter replaced and buffer filtered in place, or the subscription ended, its `done` channel closed that once. |
| EventBusObjects.Subscription.Allows | internal/bus/bus.go:288-295 | True exactly when the subscription delivers the device now. |
| EventBusObjects.Subscription.MarkClosed | internal/bus/bus.go:198-203 | The events channel is closed at most once. |
| EventBusObjects.Bus.Subscribe | internal/bus/bus.go:113-131 | A fresh subscription in replay mode, added to its tenant's and no other's. |
| EventBusObjects.Bus.Publish | internal/bus/bus.go:210-221 | Every subscription registered as it begins is offered the event by it exactly once, wherever the given calls of other goroutines come; with none, each is exactly what the one offer makes of it. No other tenant's is touched. |
| EventBusObjects.Bus.DropDevice | internal/bus/bus.go:273-283 | Likewise for a drop, and no such subscription that names its devices delivers the device any more, whatever was done meanwhile. |
| EventBusObjects.CallAmongOthers | internal/bus/bus.go:210-221 | Of each subscription called: what others do to it up to that gap, the call once, and what others do to it after; nothing else. |
| EventBusObjects.CallAlone | internal/bus/bus.go:210-221 | With nobody else about, the one call is all that is done to each. |
| EventBusObjects.CallInHistory | internal/bus/bus.go:145-328 | A subscription with a history so gets a longer one with the call in it once more, so that what is proved of all histories holds of it. |
| EventBusObjects.Bus.Close | internal/bus/bus.go:188-204 | Unregistered and closed, once or twice alike; a tenant without subscriptions has no entry. |
| SecretRotation.EveryRunIsGood | cmd/whatserverd/contract_secret.go:41-46 | Over every sequence of commands, kills, refused exchanges and power losses: every directory reached, now and after any crash, is one of the known ones (an intent only over the two files, never one secret in both), and a finished command leaves an agreeing directory, synced. On a disk that keeps no order: as long as each command is started where the next row says it may be. |
| SecretRotation.GoodStartIsSafeIff | cmd/whatserverd/contract_secret.go:41-46 | On a disk that keeps no order, a command started over whatever is unsynced leaves only known directories, whatever is killed, refused or lost after it, if and only if what a crash before it could leave suits its first change. |
| SecretRotation.SyncedStartIsSafe | cmd/whatserverd/contract_secret.go:41-46 | On such a disk with nothing unsynced every command is safe, whatever is killed, refused or lost after it. |
| SecretRotation.SyncedStartsAreCareful | cmd/whatserverd/contract_secret.go:41-46 | A run in which nothing is unsynced as each command starts is, on any disk, one that EveryRunIsGood holds of. |
| SecretRotation.ExactlyOneFinishes | cmd/whatserverd/contract_secret.go:159-174 | In a half-done directory, given a usable secret other than the current one, of all steps but reset exactly the step that stopped is accepted, and run to its end it leaves the directory it was after; after a first seal that stopped none is, and the others refuse as disagreeing. |
| SecretRotation.CleanTurns | cmd/whatserverd/contract_secret.go:228-234 | In an agreeing directory, given such a secret, each step is accepted in its turn and otherwise refused as out of turn. |
| SecretRotation.PlanEffect | cmd/whatserverd/contract_secret.go:34-39 | What each command, carried out whole, makes of the directory: the sealed file and its state, the two files exchanged once, the other file gone, nothing left after a reset. |
| SecretRotation.SwapRefusalsUnreachable | cmd/whatserverd/contract_secret.go:383-393 | From an empty directory no run as above reaches the refusals of one envelope in both files, of a file missing, or of an intent that names neither file. |
| SecretRotation.SwapExchangesOnce | cmd/whatserverd/contract_secret.go:352-429 | Promote or unpromote, stopped anywhere any number of times and repeated: the directory is always one of the swap's four, live, durable and after any crash, so neither envelope is lost and `to` never stands over files not exchanged; once a run finishes they are exchanged once, for good. On a disk that keeps no order: as long as none resumes over anything unsynced. |
| SecretRotation.SwapIsSafeIffSynced | cmd/whatserverd/contract_secret.go:370-376 | On a disk that keeps no order, after any such run of a swap, one run more leaves only those four, whatever becomes of it, if and only if it does not resume over anything unsynced. |
| SecretRotation.SwapFinishes | cmd/whatserverd/contract_secret.go:400-429 | From each of those four directories the same swap is accepted and ends exchanged in `to`, or is finished and out of turn. |
| SecretRotation.ResumeIsSafeIffSynced | cmd/whatserverd/contract_secret.go:370-376 | On a disk that keeps no order, whatever part of the resumed swap is done and whatever a power loss keeps, one of the four directories is left, if and only if nothing was unsynced. |
| SecretRotation.TornAfterExchange | cmd/whatserverd/contract_secret.go:400-402 | The exchange made and unsynced: a power loss in the resumed swap can leave `to` without the exchange. |
| SecretRotation.TornBeforeIntent | cmd/whatserverd/contract_secret.go:403-404 | The intent written and unsynced: a power loss in the resumed swap can leave the files exchanged under the state `from`. |
| SecretRotation.KilledSwap | cmd/whatserverd/contract_secret.go:403-404 | A run that ends killed with the exchange made and unsynced. |
| SecretRotation.TornReset | internal/membership/sealdir.go:160-182 | A run of a killed promote, a killed reset and a reset after which a crash leaves an intent over one file. |
| SecretRotation.TornDrop | cmd/whatserverd/contract_secret.go:482-489 | A run of a killed promote and a drop after which a crash leaves an intent over one file. |
| SealedDirRuns.RunKeepsInv | internal/membership/sealdir.go:197-242 | A property that every plan keeps along the way, that backing out of a refused exchange keeps, and that finished plans end in, holds over every run with crashes, of the live directory and of every directory a crash may leave, as long as, without order, each command's first change may be made over what is unsynced. |
| SealedDirRuns.StartIsSafeIff | internal/membership/sealdir.go:257-269 | And exactly then: for any such property, a command started over unsynced changes keeps it whatever follows if and only if every directory a crash before it could leave keeps it with the command's first change. |
| SealedDirRuns.OrderedRecovery | internal/membership/sealdir.go:257-269 | On a disk that keeps order, what a crash leaves is the directory after some beginning of the unsynced changes. |
| SecretCommands.DoAllEffect | internal/membership/sealdir.go:197-269 | Actions carried out on the disk leave the live directory that their effect says. |
| SecretCommands.SealDirectory.Write | internal/membership/sealdir.go:197-255 | A durable change fails before it, or before its sync, exactly as the outcomes of its two operations say, or is done: change, then sync. |
| SecretCommands.SealDirectory.SwapTwo | cmd/whatserverd/contract_secret.go:361-429 | The swap refuses and touches nothing, or carries out its plan up to the first operation that fails; where that is the exchange, and only there, it then writes the word back, as far as that succeeds. It fails as broken exactly if an operation failed, and leaves the two files exchanged under the new word otherwise. |
| SecretCommands.SealDirectory.Seal | cmd/whatserverd/contract_secret.go:201-298 | Seal refuses, with the plan's reason, and touches nothing, or carries out its plan up to the first operation that fails; it fails as broken exactly if one did, and otherwise the new file stands under the new word. |
| SecretCommands.SealDirectory.DropOther | cmd/whatserverd/contract_secret.go:457-495 | Drop, the same; finishing an earlier drop it removes nothing, and it leaves the current file alone, steady. |
| SecretCommands.SealDirectory.ResetAll | internal/membership/sealdir.go:160-182 | Reset, from any directory, removes state, other and current file in that order, each removal synced, up to the first operation that fails; nothing is left exactly if none does. |
| SecretCommands.RefusedExchangeIsUndone | cmd/whatserverd/contract_secret.go:400-413 | Where the exchange is refused and nothing else fails, a swap just started leaves exactly the directory it found, and one resumed the directory it began with, synced. |
| SecretCommands.CommandIsARun | cmd/whatserverd/contract_secret.go:41-46 | What a method does up to any operation, a run from the same disk does too, so what is proved of all runs holds of what the methods leave. |
| SecretCommands.RefusalIsARun | cmd/whatserverd/contract_secret.go:400-413 | And so for putting the word back after a refused exchange. |
| SecretRotation.SealRefusals | cmd/whatserverd/contract_secret.go:201-275 | In its turn a seal is accepted exactly with a usable secret that, for the other slot, is not the current one; each of the two refusals comes for its reason alone. |
| SecretRotation.ForeignWordRefused | internal/membership/sealdir.go:108-131 | Over an empty or unknown state file every command but reset refuses. |
| CallSafety.InvAlways | internal/calling/service.go:234-632 | In every interleaving of requests, callbacks, timers, session ends and detaching: a reservation is of a live or pending call, a lock's holder is a goroutine that will release it, a ticket is its owner's, a native call is one record's or nobody's, and no goroutine is left that could signal out of turn. |
| CallProperties.SignalsInOrder | internal/calling/service.go:271-300 | The engine is told, of any call: nothing; Answer; Reject; Hangup; or Answer and then Hangup. So one Answer at most, one end at most, no Answer after it and none with a Reject. |
| CallProperties.SignalsMatchLife | internal/calling/service.go:537-588 | No end is told of a call that has not ended, and no Answer of one that rings or is outgoing. |
| CallHistory.EndIsTold | internal/calling/service.go:537-588 | Of every call and the step that ended it, at any later moment: Reject has been told if and only if the call was incoming and ringing then, its end was to be told and nobody is still to tell it; Hangup likewise of any other call. |
| CallHistory.OrphanIsTold | internal/calling/service.go:273-328 | A call of the engine that Start cannot take, or that rings at a busy or detached device, is told nothing before its Hangup or Reject. |
| CallProperties.LifeOnlyAdvances | internal/calling/service.go:368-403 | Between any two moments a record's state never falls back (ringing, connecting, active, ended), its owner is written once, its device and direction stay, and its call is final once Start has settled. |
| CallProperties.ActiveMeansAccepted | internal/calling/service.go:383-389 | An active call has had media, and is claimed if incoming, accepted by the peer if outgoing. |
| CallHistory.ActiveIff | internal/calling/service.go:383-400 | Over every run, a live call that was claimed, or accepted by the peer, is active at any later moment if and only if it was, or a phase change has come since by which media had been seen. |
| CallHistory.MediaSeenIff | internal/calling/service.go:378-380 | And media has been seen of it if and only if it had been, or the engine has reported it since. |
| CallHistory.RingsUntilAgreed | internal/calling/service.go:381-385 | A live call neither claimed nor accepted rings, whatever media has come. |
| CallHistory.AnsweredAfterMedia | internal/calling/service.go:418-449 | A call whose media came before its Answer is connecting, or ended, until another phase change comes. |
| CallProperties.OneLiveCall | internal/calling/service.go:261-268 | Two calls of one device that have not ended, or are reserved by a Start that has not returned, are the same, and it holds the device. |
| CallProperties.EndedCallsLetGo | internal/calling/service.go:273-286 | An ended call holds its device only while its Start has not taken the engine's result. |
| CallDebts.FailedStartLetsGo | internal/calling/service.go:287-298 | Once a Start without a call has returned, whichever of error, cancellation, session end or detaching came first, its record has ended and no longer holds its device. |
| CallDebts.FailedAnswerEnds | internal/calling/service.go:440-445 | Once an Answer that the engine failed has returned, its call has ended. |
| CallDebts.ReleasedOwnsNothing | internal/calling/service.go:512-535 | Once ReleaseOwner has returned, the session owns no live call, whatever came between. |
| CallDebts.RejectedHasEnded | internal/calling/service.go:450-471 | Once a Reject that claimed a call has returned, the call has ended, whatever came between. |
| CallDebts.DetachedHasNoCall | internal/calling/service.go:192-202 | Once detach has returned, no record of its device is live, and none comes to it any more, but for one of a Start that failed and is still to end it, which has no call. |
| CallProperties.TicketsAreOwned | internal/calling/service.go:514-535 | A ticket names a record that has not ended and a live session that owns it; a record has one ticket at most. |
| CallProperties.TokenOnce | internal/calling/service.go:623-632 | A token that let a connection through is never valid again, whatever follows. |
| CallHistory.TicketHoldsIff | internal/calling/service.go:596-632 | At any later moment of every run a ticket lets a connection through if and only if it was issued less than thirty seconds before, its call lives, its device is attached, and it was not used, replaced by another for the call, cleared as expired by an issue, or taken with its session. |
| CallHistory.TicketWasIssued | internal/calling/service.go:596-621 | Each ticket was issued so, for a live call of the live session without a connection, with thirty seconds to live. |
| CallProperties.OneMediaConnection | internal/calling/media.go:73-83 | One media connection at most is ever bound to a call. |
| CallProperties.AudioAfterAcceptance | internal/calling/service.go:352-364 | Audio is enabled only after a successful Answer of an incoming call, or the peer's accept of an outgoing one. |
| CallObjects.Service.Lookup | internal/calling/service.go:491-508 | The loop over the calls returns a record of that device and id, live and the session's own or claimable, whenever every one of that id is; unavailable exactly without a live session; conflict and not found only for their reasons. |
| CallObjects.Service.Reserve | internal/calling/service.go:241-270 | Start's first section: the device reserved exactly when the session lives, the device is attached and online, the number is not its own and no call holds it; otherwise nothing changes. |
| CallObjects.Service.Settle | internal/calling/service.go:271-298 | Start's second section: the call taken exactly if it is still wanted and the engine made one; or the reservation given up, the record left to be ended by this Start, and the engine's call left to another goroutine to hang up. |
| CallService.SettleIsFollowed | internal/calling/service.go:271-298 | Record, reservation and what is left to do after the second section, for each of the four outcomes; nothing else changes hands. |
| CallObjects.Service.Incoming | internal/calling/service.go:303-328 | An incoming call recorded exactly when its device is attached and free, else left to be rejected. |
| CallObjects.Service.PhaseChanged | internal/calling/service.go:368-403 | In place, the phase change that PhaseIsFollowed is about, and nothing else of the record or of another one. |
| CallService.PhaseIsFollowed | internal/calling/service.go:368-403 | A live call is active after a phase change if it is claimed (incoming) or accepted (outgoing) and media has been seen by then; connecting, without media, if the engine connects or the peer has accepted; as it was otherwise. |
| CallObjects.Service.ClaimAnswer | internal/calling/service.go:418-431 | Answer's claim: made only on a ringing incoming call that is unclaimed or the session's own, and made whenever the call is such; a refusal changes nothing. |
| CallObjects.Service.ClaimReject | internal/calling/service.go:457-468 | Reject's claim, the same, after which it owes the end. |
| CallObjects.Service.EnterAnswer | internal/calling/service.go:432-439 | With the call's lock, Answer goes on only if the session lives and the call has not ended. |
| CallObjects.Service.SendAnswer | internal/calling/service.go:440-446 | The Answer told and the lock given back; on success audio is due, on failure the end is owed. |
| CallObjects.Service.SendEnd | internal/calling/service.go:575-586 | Reject or Hangup told once, under the call's lock. |
| CallObjects.Service.PeerAccepts | internal/calling/service.go:352-362 | The peer's accept counts exactly for a live outgoing call of a live session. |
| CallObjects.Service.BindMedia | internal/calling/media.go:73-83 | A connection is bound exactly when the bridge is open and none was before. |
| CallObjects.Service.Detach | internal/calling/service.go:192-202 | The device gone if it is still the attached one, and its call, if any, left to be ended. |
| CallObjects.Service.ReleaseOwner | internal/calling/service.go:514-535 | The session and all of its tickets gone at once, and exactly its calls left to be ended. |
| CallObjects.Service.End | internal/calling/service.go:537-587 | In place, the end that EndIsFollowed is about. |
| CallService.EndIsFollowed | internal/calling/service.go:537-587 | Ended once; exactly the tickets of the call gone, the device freed exactly if the call holds it and Start is not pending, and Reject to be told exactly of a ringing incoming call, Hangup of any other the engine has. |
| CallObjects.Service.MediaTicket | internal/calling/service.go:596-621 | A ticket for thirty seconds for a live call of the session without a connection, granted whenever the call is such; in place of any before it, expired ones dropped, all others kept. |
| CallObjects.Service.ConsumeTicket | internal/calling/service.go:623-632 | The token is spent whatever comes of it, and lets through exactly an unexpired ticket of a live owned call on an attached device. |
| Roster.LimitHoldsIff | internal/calling/groups.go:255-473 | Over any sequence of reservations, failed and expired invitations, group states and activations, in any order: at most eight slots are taken and each row is under its own id, always, if and only if no activation before a group finds more than eight rows. |
| Roster.PhaseKeepsLimitIff | internal/calling/service.go:388-394 | One activation keeps the limit if and only if a group has formed or there are no more than eight rows. |
| Roster.InvitesGoOverLimit | internal/calling/service.go:388-394 | For every n from seven to thirty, a call that starts with this account and the peer, becomes active, reserves and fails n invitations, and has n + 2 slots taken after one more activation. |
| Roster.PutTakesOneSlot | internal/calling/groups.go:81-109 | Putting a participant takes at most one slot more, whatever row is found, renamed or evicted. |
| Roster.PutKeepsHistory | internal/calling/groups.go:94-104 | From a roster within the limit the history stays within 32 rows. |
| Roster.FullHistoryCanEvict | internal/calling/groups.go:94-104 | A full history within the limit always has a departed row to give up. |
| Roster.ExpiryFreesSlots | internal/calling/groups.go:326-337 | Expiry takes no slot and keeps each row under its id. |
| Roster.UnnamedHaveLeft | internal/calling/groups.go:379-451 | Reading all entries of a group state in turn leaves a row that no entry names by any of its ids as it was carried over, or evicts it as departed. |
| Roster.NamedOnce | internal/calling/groups.go:391-451 | And a person whom one entry alone names stands, at the end, exactly as it says, wherever in the list it is and whoever else comes, goes, is renamed or evicted: connected if and only if in the call with a device, or this account; left if and only if departed; failed if reported so, or an invitation has run out; invited otherwise. |
| Roster.ReportedGoneTakesNoSlot | internal/calling/groups.go:431-434 | So nobody reported departed or failed takes a slot afterwards. |
| Roster.CarriedHolds | internal/calling/groups.go:379-390 | Before the entries are read, with a real transaction exactly this account and whom Invite is inviting keep their slots; without one everybody does, connected people as invited for sixty seconds. |
| Roster.MatchesIff | internal/calling/groups.go:110-117 | A row matches exactly if its ids and the given ones share one. |
| RosterObjects.CallRoster.Find | internal/calling/groups.go:110-117 | A row that one of the ids names, found if and only if there is one. |
| RosterObjects.CallRoster.Put | internal/calling/groups.go:81-109 | A known person's row under the hidden id with the latest number and otherwise unchanged, or, exactly if nobody matches, a new invited row, for which a full history gives up its oldest departed row; every other row untouched. |
| RosterObjects.CallRoster.ParticipantCount | internal/calling/groups.go:118-126 | The loop counts exactly the rows that take a slot. |
| RosterObjects.CallRoster.ExpireInvites | internal/calling/groups.go:326-337 | Exactly the invitations whose time has come fail. |
| RosterObjects.CallRoster.IdentityError | internal/calling/groups.go:308-324 | Self for this account's ids, and otherwise only for a person whose row is its own; duplicate only for a person that has a slot; allowed only if nobody matches or somebody without a slot does. |
| RosterObjects.CallRoster.ReserveSlot | internal/calling/groups.go:255-283 | A slot is taken only below the limit, for somebody none of whose ids was attempted before, uninterrupted, and is held for sixty seconds as an invitation from here; each refusal changes nothing and comes for its own reason. |
| RosterObjects.CallRoster.AnswersAreExact | internal/calling/groups.go:255-266 | Those reasons decide: somebody not this account, not attempted and without a slot is reserved one exactly below the limit and told of the limit otherwise; this account is told so; and who was attempted or has a slot is a duplicate. |
| RosterObjects.CallRoster.FailInvite | internal/calling/groups.go:284-303 | The current row of a failed invitation fails if it is still invited, and nothing else changes; nothing at all only if no row matches or one that matches is not invited. |
| RosterObjects.CallRoster.GroupState | internal/calling/groups.go:357-473 | Stale and unusable states change nothing; otherwise the next roster is built aside from the expired one, entry by entry as NamedOnce and UnnamedHaveLeft are about, and taken whole exactly when it is within the limit. |
| RosterObjects.CallRoster.ConnectedPeople | internal/calling/groups.go:461-468 | The connected people other than this account, each exactly once. |
| Pcm.DecodeEncode | internal/calling/media.go:173-176 | Every 16-bit word written in two bytes reads back as itself. |
| Pcm.EncodeDecode | internal/calling/media.go:283-290 | Every two bytes read as a 16-bit word are written back as themselves. |
| Pcm.QuantiseSample | internal/calling/media.go:175-175 | A received sample written out again is the same word: scaling, clamp and truncation lose nothing of it. |
| Pcm.QuantiseWithin | internal/calling/media.go:173-176 | Every sample, words or not: from 32767/32768 of full scale up it is the highest word, from minus full scale down the lowest, and between them it goes toward zero by less than one. |
| Pcm.QuantiseInOrder | internal/calling/media.go:175-175 | A louder sample is never a lower word. |
| Pcm.LowByteFirst | internal/calling/media.go:173-176 | A word goes out as two bytes in two's complement, the low one first. |
| Pcm.DecodeEncodeAll | internal/calling/media.go:283-291 | A whole frame decodes to the words it was encoded from. |
| Pcm.EncodeDecodeAll | internal/calling/media.go:283-291 | And every frame of whole words is the encoding of what it decodes to. |
| Pcm.EncodeAllConcat | internal/calling/media.go:153-154 | The bytes of samples do not depend on how they are divided over calls. |
| Pcm.EncodeAllAt | internal/calling/media.go:172-176 | The bytes of a frame are two for each sample, in order, that sample's word. |
| Pcm.DecodeAllAt | internal/calling/media.go:283-290 | And a received frame decodes to one word for each two bytes, in order. |
| Pcm.FramedGrows | internal/calling/media.go:172-184 | One more word keeps packets and pending bytes the cut of all the bytes: a packet goes out exactly when it is full. |
| Pcm.FramedOnce | internal/calling/media.go:153-154 | The cut is unique, so the packets depend on the bytes alone. |
| VideoPacket.FrameReadsBack | internal/calling/media.go:238-262 | A video packet of each of the three kinds reads back as its frame, for every participant id its length bytes can measure. |
| VideoPacket.PacketOfTwo | internal/calling/media.go:251-262 | The bytes of a call of two: kind, turn if the browser asked for it, duration in four bytes, the low one first, and the data. |
| VideoPacket.PacketOfGroup | internal/calling/media.go:239-250 | The bytes of a group: kind, turn, duration and stream in four bytes each, the id after its length in two, and the data. |
| MediaQueues.OfferLatest | internal/calling/media.go:320-334 | With the reader taking between its tries, the new value is always queued last, one old value at most is lost to it, the oldest, and the queue stays the last of all that was offered; with no reader it is exactly the newest there is room for. |
| MediaQueues.PickFindsWaiting | internal/calling/media.go:568-575 | The search from the cursor finds a waiting person no further than any given one. |
| MediaQueues.ServesTheNext | internal/calling/media.go:568-575 | A turn serves somebody exactly if anybody waits: the first of those waiting from the cursor on. |
| MediaQueues.ServeIsExact | internal/calling/media.go:562-591 | It takes the oldest of their frames and leaves the cursor at the next person; nothing else changes. |
| MediaQueues.WriteIsExact | internal/calling/media.go:536-545 | A frame joins its person's queue, whose oldest of three gives way; nothing else changes. |
| MediaQueues.ServeComesNearer | internal/calling/media.go:562-591 | A turn that does not serve a waiting person brings them nearer, and keeps their frames. |
| MediaQueues.NearerEachTurn | internal/calling/media.go:549-550 | Over any mix of writes and turns, a person not served yet is nearer by one for every turn. |
| MediaQueues.ServedInTurn | internal/calling/media.go:549-550 | A waiting person is served within as many turns as there are people, whatever is written meanwhile. |
| MediaBridges.MediaBridge.Bind | internal/calling/media.go:73-83 | One connection at most, and none once closed. |
| MediaBridges.MediaBridge.AllowAudio | internal/calling/media.go:105-118 | Both audio queues and the pending bytes are emptied as audio is let through; a closed bridge stays as it is. |
| MediaBridges.MediaBridge.ReadFrame | internal/calling/media.go:126-145 | Silence, or the oldest queued frame, which the browser sent after audio was allowed; end of stream exactly when closed. |
| MediaBridges.MediaBridge.WriteFrame | internal/calling/media.go:147-186 | While audio is allowed, the packets sent and the pending bytes are always the encoding of all samples, each packet of the exact size, and the queue is the last of the packets, the newest at least and, with no reader about, as many as it has room for; before, nothing is kept. |
| MediaBridges.MediaBridge.Judge | internal/calling/media.go:266-308 | A browser frame is taken, decoded as what it is, if and only if the bridge is open, audio is allowed and the frame is well formed, of audio or, in a video call, of video; it is invalid if and only if it is neither. |
| MediaBridges.OwnPacketIsTaken | internal/calling/media.go:251-262 | What encodeVideoFrame makes of a valid frame of a call of two is well formed for `receive`, and decodes to its data and duration. |
| MediaBridges.VideoFrameIff | internal/calling/media.go:292-303 | A browser's video frame, byte by byte: its kind, a duration between a millisecond and a second, and valid data. |
| MediaBridges.AnnexBIff | internal/calling/media.go:336-350 | Valid data starts with two or three zero bytes and a one, and a unit whose first bit is clear and whose type is not zero, within 4 bytes and 512 kibibytes. |
| MediaBridges.MediaBridge.QueueAudio | internal/calling/media.go:283-291 | A judged audio frame is the newest of the queue, which stays the last of those received, and, with no reader about, as many as it has room for. |
| MediaBridges.MediaBridge.WriteVideo | internal/calling/media.go:213-236 | Video goes out only after acceptance and outside a group, the newest last, turned as the peer last told: by the video itself if it ever did, else by signalling, else not. |
| MediaBridges.MediaBridge.SetOrientation | internal/calling/media.go:188-200 | The remembered turn stays the one all that was told gives; what is no quarter turn, or comes once closed, changes nothing. |
| MediaBridges.MediaBridge.SetVideoState | internal/calling/media.go:202-211 | Likewise for a signalled one. |
| MediaBridges.SignalsNeverTurn | internal/calling/media.go:60-62 | Once a turn came with the video, no number of signalled ones, however late, changes it. |
| MediaBridges.MediaBridge.EnableGroup | internal/calling/media.go:516-523 | The single video queue is emptied and stays empty. |
| MediaBridges.MediaBridge.WriteParticipantVideo | internal/calling/media.go:524-547 | A valid frame of a connected person joins their queue of three, the oldest giving way, and the token is there; any other frame changes nothing. |
| MediaBridges.MediaBridge.TakeToken | internal/calling/media.go:478-483 | Taking the token loses no wakeup: a queue that is not empty on an open bridge still has a token or the writer that took it. |
| MediaBridges.MediaBridge.FindTurn | internal/calling/media.go:568-575 | The loop finds the first waiting person from the cursor on, once round. |
| MediaBridges.MediaBridge.NextParticipantVideo | internal/calling/media.go:562-591 | Yields the oldest frame of the person whose turn it is and passes the turn; if anybody still waits, the token is back. |
| MediaBridges.MediaBridge.SyncGroupParticipants | internal/calling/media.go:551-561 | People who stay keep their queues, others start empty or are gone, and the turn starts over. |
| Egress.PlacesAreGivenBack | internal/cimdegress/cimdegress.go:154-181 | Over every interleaving of connections the places filled are those between taking and giving back, at most four; none takes twice, and each that is over has given back what it took. |
| Egress.EntersIff | internal/cimdegress/cimdegress.go:221-226 | Over every interleaving a connection that asks gets a place if and only if fewer than four are held, and otherwise is over without one. |
| EgressObjects.NegativeCache.Has | internal/cimdegress/cimdegress.go:372-377 | True exactly for a host still in the cache within the lifetime of its last failure. |
| EgressObjects.NegativeCache.Add | internal/cimdegress/cimdegress.go:379-390 | Both structures stay in step without duplicates and within the bound: a new host joins last, a known one keeps its place, the oldest go, and the lifetime is that of the newest failure. |
| EgressObjects.Proxy.TakePlace | internal/cimdegress/cimdegress.go:221-226 | A place is taken if and only if one of four is free. |
| EgressObjects.Proxy.Connect | internal/cimdegress/cimdegress.go:237-274 | The place is kept exactly on success, which is when every address may be dialed and one answers, the first in order, before the time is over; nothing is dialed unless every address may be; only failed resolution or dialing is cached. |
| EgressObjects.Proxy.Serve | internal/cimdegress/cimdegress.go:154-181 | Every way out leaves the places as they were, and each code comes exactly when its reason does: busy, no address, an address that may not be dialed, no answer or no greeting, the limit, or none of them. |
| EgressObjects.CopyCapped | internal/cimdegress/cimdegress.go:301-326 | What is sent is a beginning of the stream, as long as the least of cap, receiver and stream, or nothing if what came with the request is over the cap; `over` exactly if the source had more than the cap for a receiver that took it all. |
| Multiplexer.InvAlways | cmd/wsctl/client.go:55-155 | In every interleaving of requests of any ids each registered channel is its request's own, empty and not being sent to, each frame read is routed once, in order, and the stream is closed once at most. |
| Multiplexer.WaiterNeverBlocks | cmd/wsctl/client.go:76-79 | The read loop never blocks on a waiter's channel. |
| Multiplexer.EveryFrameRouted | cmd/wsctl/client.go:69-86 | Every frame read goes to a waiter of its own id and type, as its channel's only frame, or to the stream in order; only the one in hand when the context ends goes nowhere. |
| Multiplexer.UnclaimedAt | cmd/wsctl/client.go:80-86 | The stream has each frame that went there in its place: after as many as went there before it. |
| Multiplexer.ListensIff | cmd/wsctl/client.go:115-134 | A request not yet done is registered for its reply, or for errors, if and only if it has none, no other request that shares the key has cleaned up since it came and, for errors, no other was registered for those of its id when it came. |
| Multiplexer.ReplyIsHandedIff | cmd/wsctl/client.go:69-79 | The read loop hands a reply to the request that waits for it if and only if it has none and no other request of its id and type has cleaned up since it came. |
| Multiplexer.ErrorIsHandedIff | cmd/wsctl/client.go:121-134 | And an error of its id if and only if it has none, was registered for errors and no other request of its id has cleaned up since it came. |
| Multiplexer.DistinctIdsSuffice | cmd/wsctl/client.go:106-127 | With distinct ids in flight a request stays registered for its reply and for an error until it has one. |
| Multiplexer.ErrorGoesAstray | cmd/wsctl/client.go:129-134 | A run in which a second request of an id cleans up and the error of the first goes to the stream. |
| Multiplexer.ReplyGoesAstray | cmd/wsctl/client.go:141-144 | A run in which a request has its reply, another of its id and type comes, and the first one's cleanup sends the other's reply to the stream. |
| Multiplexer.ClosedAtMostOnce | cmd/wsctl/client.go:89-95 | However often finish is called, the stream is closed once at most, and not before the loop is over. |
| Multiplexer.ClosedForGood | cmd/wsctl/client.go:89-95 | Once closed, it is not closed again and nothing is sent on it, or to a waiter, whatever follows. |
| Multiplexer.FinishedTwice | cmd/wsctl/client.go:56-67 | The deferred finish of a loop that ended on an error closes nothing more. |
| MultiplexerObjects.Client.Register | cmd/wsctl/client.go:115-127 | Both waiters registered at once, or the request refused because its key is in flight and nothing changed. |
| MultiplexerObjects.Client.Cleanup | cmd/wsctl/client.go:129-134 | Exactly the request's two keys are taken out. |
| MultiplexerObjects.Client.RouteOne | cmd/wsctl/client.go:69-86 | A frame with a waiter spends it and is its channel's only frame; any other joins the stream while it has room. |
| MultiplexerObjects.Client.Route | cmd/wsctl/client.go:55-87 | The read loop over any frames: each key's first frame goes to its waiter, all others to the stream in order; it stops only at a full stream. |
| MultiplexerObjects.Client.Finish | cmd/wsctl/client.go:89-95 | Called once or again, the stream has been closed exactly once. |

## Left out

- EventBusSystem.ReplayLeavesNoGap: the subscriber of `internal/wsapi/subscribe.go` is its order of work only; its live-only path, which reads no history, and its device lookups are not modelled.
- SecretCommands.SealDirectory.SwapTwo: that the current file cannot be read again, or is another, after a refused exchange is left out; the word would stay then.
- SecretCommands.SealDirectory.Seal: flags, terminal, standard input, its shape and the KMS are one input that is usable or not; the reread of the new envelope is assumed to agree.
- SecretRotation.EveryRunIsGood: temporary files, permissions, unreadable files and a hand in the directory are left out, and so are two commands at once.
- CallObjects.Service.End: the reasons of an end are left out; none of the promises depends on them.
- CallSafety.InvAlways: `Attach` is its effect on the devices; its event handler is an end that may come at any time.
- CallObjects.Service.ReleaseOwner: its loop over the calls is one step for each, so that others may come between.
- RosterObjects.CallRoster.ReserveSlot: the resolution of a target, and its parsing, precede it and are left out.
- RosterObjects.CallRoster.GroupState: the choice among a participant's devices is a flag of its entry; that an unsupported or over-full state ends the call is a step of the call service.
- MediaBridges.MediaBridge.WriteFrame: NaN, infinities and the rounding of floats are left out.
- MediaQueues.OfferLatest: only the queue's reader interferes between its tries; each queue has one writer at a time.
- EgressObjects.Proxy.Serve: the checks before a place is taken (request, host, cache, rate limiters) end a connection without one; the deadline and the two directions of the pipe are one result.
- EgressObjects.CopyCapped: one direction by itself; the source's end and its failure are not told apart, as the result does not.
- Multiplexer.EveryFrameRouted: frames are known by request id and type; sending and decoding are not modelled.
- `participantVideo`'s match of a sender to the selected device (groups.go) is not modelled.
- Snapshots, lists, logging, configuration, metrics and the wire formats of the other commands would add easy members only.
- The stores, the engine (meowcaller, whatsmeow), HTTP and websocket handling are not part of this model.
