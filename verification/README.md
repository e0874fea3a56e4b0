# RevDash verification

A Dafny model of the state machines and algorithms at the core of RevDash, an OBD-II engine written in
C++20, with proofs about every run, every file and every input of them. `dafny verify dfyconfig.toml`
checks the whole project.

- **Engine** (`EngineModel`, `EngineService`, `EngineSafety`, `EngineAccounting`, `EngineClearing`,
  `EngineTies`, `EngineHeard`, `EngineOutcomes`, `EngineEffects`, `EngineScenarios`): the engine worker takes one step per command, packet,
  transmit completion, source event and clock reading. The class `EngineService` updates its fields as the
  worker does; each of its methods is proved to make the step of the model and to keep the engine's
  invariant. The lemmas are about all interleavings of these steps: what a clear token is bound to, which
  clears are audited and exactly when without an error, that every completion is called once, that no
  sample survives its epoch, what an identification publishes, how many requests an operation still has out, after how many answers it ends,
  and exactly when the clear requests under way are those of the active clear.
- **Source lifecycle** (`AsyncSource`, `Sources`): pending operations, late and repeated completions, shutdown.
- **Sessions** (`Session`, `Recorder`, `Playback`, `Replay`, `CsvExport`): the recorder, the validator with its sparse
  index, the player with its one-record look-ahead, and the resampling export, all over the same lines.
- **ISO-TP** (`IsoTp`): segmenter, parser and reassembler.
- **Windows and fast forms** (`Scheduler`, `Aggregator`, `RuleLifecycle`, `CsvText`, `Utf8`, `DtcSearch`): each
  loop against the plain definition it must agree with.

Measured values are exact reals, times and counters unbounded integers. Time points are nanoseconds
except where a line of a session file counts microseconds.

Some properties one might expect are false of the code; the model keeps the code as it is and states when
they hold.

- Request accounting in the engine is lost by a fault that cancels an operation with requests outstanding
  and by an explicit disconnect with a request in flight, by nothing else, and every epoch change restores
  it (`EngineAccounting.StepAccountsExactly`, `EngineAccounting.LeftoversBreakTheAccount`).
- A clear request may go out although its clear has been audited as not transmitted
  (`EngineScenarios.FaultLeavesClearQueued`), and an old request's answer may mark the audit of a newer
  clear whose own request is still queued (`EngineScenarios.OldAnswerMarksNewAudit`). Clear requests under
  way and the active clear stay tied exactly as long as no fault ends a waiting clear and no explicit
  disconnect finds a clear request unanswered (`EngineTies.RunTiesExactly`), and an answer is that of the
  clear's own request exactly when no clear request is queued or was sent after it
  (`EngineTies.OwnRequestIsAnsweredExactly`).
- A disconnected source can have operations pending, because connecting is allowed while a disconnect is
  pending (`AsyncSource.DisconnectedWithPending`); that happens exactly when a disconnect completes well
  while later operations are pending (`AsyncSource.RunQuietExactly`).
- A new list of supported PIDs makes all of them due at time zero and so forgets a dispatch, exactly when
  the PID is in the list and its period ends later than that (`Scheduler.NewListBlocksExactly`,
  `Scheduler.NewPidListForgetsPeriods`); spacing holds across the lists that remember
  (`Scheduler.NeverTwiceWithinPeriod`).
- The range scan for a prefix made of 0xFF bytes misses that prefix's extensions
  (`DtcSearch.RangeIsPrefixExactly`); with UTF-8 terms nothing is missed.
- A table whose first field begins with a byte-order mark does not survive writing and reading
  (`CsvText.MarkIsLost`).
- A finished recording with an empty payload, a value that is not finite or times that go back is written
  without complaint and refused by the player (`Recorder.FinishedIsValidExactly`).
- Drops counted by the queue are lost to the statistics when their marker is refused
  (`Recorder.JsonlSessionRecorder.ObserveQueueDrops`).

## Model

| member | source | states |
|---|---|---|
| EngineSafety.StepKeeps | src/core/engine_service.cpp:126-293 | No command, packet, completion, source event or clock tick breaks the engine's invariant: a live token binds to the present epoch, source type, configuration and vehicle with no operation active; clears and audits balance; held samples are of the present epoch |
| EngineSafety.RecheckNeverRejects | src/core/engine_service.cpp:246-275 | In every state keeping the invariant a confirmation is refused as invalid if and only if no live token has its number, so the re-check of epoch, source, configuration and vehicle never refuses one; as expired exactly from its expiry on; otherwise it begins a clear if and only if it is safe and answers the safety reason if not; only another number leaves the token alive |
| EngineSafety.PreparedTokenConfirms | src/core/engine_service.cpp:214-283 | A freshly prepared token begins a clear if and only if it is confirmed by its number, within thirty seconds, with the vehicle still safe |
| EngineSafety.ClearBeginsOnlySafely | src/core/engine_service.cpp:246-293 | A step begins a clear if and only if it confirms a live unexpired token on a ready, configured physical source without operation, while the last vehicle-speed sample held is of the present epoch, valid, at most a second old and at no more than 0.5; the token is gone afterwards |
| EngineSafety.LatestExactly | headers/revdash/core/latest_telemetry_store.hpp:18-32 | The latest sample of a metric is the last one held of it, and there is none if and only if none is held |
| EngineSafety.SafeExactly | src/core/engine_service.cpp:827-850 | No reason against clearing is found if and only if the source is physical, configured and ready, no operation is active, and the last vehicle-speed sample held is of the present epoch, valid, fresh and at rest |
| EngineSafety.TokensBeginOneClear | src/core/engine_service.cpp:246-293 | In no run do two clears begin with the same token |
| EngineSafety.ClearsAreAuditedInEveryRun | src/core/engine_service.cpp:627-823 | In every run, faults, disconnects and epoch changes included, the clears begun are the audits plus the active clear; in each audit rescanned implies positive implies transmitted, and no error implies all three |
| EngineSafety.CompletionsAreCalledOnce | src/core/engine_service.cpp:608-823 | In every run each scan, identify and clear completion has been called exactly once or is held by the active operation, never both, and none that was not issued is called |
| EngineSafety.DisconnectCallsEveryCompletion | src/core/engine_service.cpp:109-112 | After the disconnect that the destructor issues, every completion issued has been called exactly once |
| EngineSafety.EpochsAreIsolated | src/core/engine_service.cpp:504-579 | After any interleaving of pushes, processing and epoch changes every held sample came in a pushed packet tagged with the present epoch |
| EngineHeard.HeldAreTheArrivals | src/core/engine_service.cpp:504-526 | After every run the samples held, followed by those of the packets still waiting, are exactly the live samples of the packets accepted since the epoch began, in order of arrival |
| EngineSafety.FinishRequestKeeps | src/core/engine_service.cpp:627-671 | The answer of a request, whichever operation is active, keeps the invariant: an audit marked positive is marked transmitted, one filed without an error is marked both and rescanned, settling only follows an accepted clear; whose request was answered is the matter of EngineTies |
| EngineSafety.SettleKeeps | src/core/engine_service.cpp:468-477 | The settle step turns an accepted clear into its rescan and keeps the invariant |
| EngineAccounting.StepAccountsExactly | src/core/engine_service.cpp:532-547 | With one unanswered transmit of the epoch exactly when in flight, and the counter equal to the operation's requests queued or in flight, a step keeps both if and only if it is neither a fault cancelling an operation with requests outstanding nor an explicit disconnect with a request in flight |
| EngineAccounting.NewEpochRestoresAccount | src/core/engine_service.cpp:564-579 | Whatever faults and disconnects left behind, an epoch change and a source swap restore the account |
| EngineAccounting.CounterNeverUnderflows | src/core/engine_service.cpp:641-641 | Under the account the counter is positive whenever an answer of the operation counts it down |
| EngineAccounting.ActiveOperationIsServed | src/core/engine_service.cpp:608-671 | Under the account an active operation waits for settling or has a request queued or in flight: it is never stuck |
| EngineAccounting.AnswersAreBounded | src/core/engine_service.cpp:627-671 | In every run that does not break the account, the answers an operation has had plus those it may still have never exceed its bound |
| EngineAccounting.OperationsEnd | src/core/engine_service.cpp:608-671 | A scan or identification is over after at most three answers and a clear, its rescan included, after at most four |
| EngineAccounting.LeftoversBreakTheAccount | src/core/engine_service.cpp:166-186 | Two reachable runs that lose the account: a fault while a scan is queued, a disconnect while it is in flight |
| EngineClearing.ErrorsAreAudited | src/core/engine_service.cpp:638-655 | A clear that met an error keeps one, whatever step comes next, until its audit is filed with one |
| EngineClearing.AuditsAreAnswered | src/core/engine_service.cpp:790-808 | Audits are only ever added, one at a time, and the clear's completion is told the error of its audit, or success |
| EngineClearing.SettlingNeedsPositiveReply | src/core/engine_service.cpp:644-655 | The wait before the rescan starts only by the successful answer of a clear request of the epoch, after a well-formed positive reply of the epoch was received and without any error; the request need not be the clear's own (EngineScenarios.OldAnswerMarksNewAudit) |
| EngineClearing.RescanWaitsForSettling | src/core/engine_service.cpp:468-477 | A clear turns into its rescan if and only if the clock is read at or after the time settled for |
| EngineClearing.ClearRequestsAreConfirmed | src/core/engine_service.cpp:246-293 | In every run, faults and disconnects included, the clear requests handed to the source and still queued never outnumber the tokens confirmed |
| EngineTies.StepTiesExactly | src/core/engine_service.cpp:532-547 | With as many clear requests queued or unanswered in the epoch as the active clear waits for, a step keeps that if and only if it is neither a fault that ends a waiting clear nor an explicit disconnect with a clear request unanswered |
| EngineTies.RunTiesExactly | src/core/engine_service.cpp:166-186 | In a run the two stay equal throughout if and only if no step of it is such a fault or disconnect |
| EngineTies.ClearIsSentWhileActive | src/core/engine_service.cpp:532-547 | While they are equal a clear request goes out only for the active clear that waits for it, and no other is unanswered |
| EngineTies.AccountTies | src/core/engine_service.cpp:532-547 | The request account implies that they are equal |
| EngineTies.OwnRequestIsAnsweredExactly | src/core/engine_service.cpp:627-656 | In every run of the engine the answer counted for a waiting clear is that of the request this clear queued if and only if no clear request is queued and none of the epoch was sent after the one answered |
| EngineTies.TiedAnswerIsOwn | src/core/engine_service.cpp:627-656 | While the clear requests under way equal those waited for, that answer is always the clear's own, and no clear request is queued or unanswered after it |
| EngineTies.AuditsAreMarkedByAnswers | src/core/engine_service.cpp:638-656 | The audit of a clear that has not begun to settle is marked only by an answer counted for it |
| EngineScenarios.FaultLeavesClearQueued | src/core/engine_service.cpp:581-595 | A concrete run in which a fault audits a clear as failed and not transmitted although its request stays queued and goes out when the source is ready again |
| EngineScenarios.OldAnswerMarksNewAudit | src/core/engine_service.cpp:627-656 | A concrete run in which the answer to a first clear's request marks a second clear transmitted and positive and lets it settle while its own request is still queued |
| EngineScenarios.ClearCanSucceed | src/core/engine_service.cpp:246-770 | A concrete run from connecting to an audit without an error: nothing else queued or unanswered, one positive reply, no codes reported, no settling delay, all at one clock reading |
| EngineOutcomes.StepIsCleanExactly | src/core/engine_service.cpp:627-770 | A step leaves any active operation, or answers it, without an error if and only if it had none and the step is no mishap (no cancelling, no packet that reports an error, no failed answer of its own, no missing positive reply, no failed look-up); the end of an identification is stated apart |
| EngineOutcomes.SucceedsExactly | src/core/engine_service.cpp:608-808 | Over all runs, with any packets, streaming, delays and codes, a scan is answered, and a confirmed clear answered and audited, without an error if and only if no step from its beginning to its end is a mishap |
| EngineOutcomes.IdentificationPublishes | src/core/engine_service.cpp:772-788 | Over all runs the last own answer of an identification publishes exactly one entry for each ECU heard since it began, with the first VIN it reported, and answers an error if and only if there is none and something went wrong |
| EngineOutcomes.OnlyIdentificationPublishes | src/core/engine_service.cpp:772-788 | No other step changes the published metadata |
| EngineOutcomes.FrameIsAskedExactly | src/core/engine_service.cpp:658-667 | The last answer of a scan or rescan asks, once, for the freeze frame of the first code noted if and only if a code was noted, and ends the operation otherwise; the codes are those heard |
| EngineOutcomes.SettlesExactly | src/core/engine_service.cpp:644-655 | A clear begins to settle if and only if an answer of its own is good, no error was noted and a well-formed positive reply was noted |
| EngineEffects.AuditRecordsTheClear | src/core/engine_service.cpp:274-291 | Over all runs the audit of a confirmed clear records when its token was prepared, the source type, epoch and vehicle at its confirmation, and the time of the step that ended it |
| EngineEffects.EndGivesReason | src/core/engine_service.cpp:636-655 | The answer that ends a scan or clear gives the first error noted, a failed transmit, a missing reply or a failed look-up, in this order |
| EngineEffects.ErrorNoted | src/core/engine_service.cpp:673-722 | A rejection of the clear has the last word, otherwise the first error stays, and a new one says malformed |
| EngineEffects.BeginAnswersExactly | src/core/engine_service.cpp:608-625 | A scan or identification is refused as busy or not ready exactly so, or queues its requests behind all others |
| EngineEffects.CancelAnswersExactly | src/core/engine_service.cpp:581-591 | A cancelled operation is answered with the source's error if it reported one and as cancelled otherwise, by nothing but an epoch change, a disconnect or the loss of the source |
| EngineEffects.ConnectionIsLastReported | src/core/engine_service.cpp:152-184 | After every run the engine's connection state is what the last step to report one reported |
| EngineEffects.RunBinds | src/core/engine_service.cpp:555-562 | After every run the source's subscription tags packets with the present epoch |
| EngineEffects.SourceFollows | src/core/engine_service.cpp:126-143 | The source changes only by a swap, to the one given, or by its own moves |
| EngineEffects.ConfigFollows | src/core/engine_service.cpp:145-150 | The configuration changes only by an allowed connect, to the one given, or by a swap, to none |
| EngineEffects.ResetsForget | src/core/engine_service.cpp:564-575 | A new epoch or disconnect leaves no operation, token, settling, queued request, PID or flight, and transmits unanswered |
| EngineEffects.TransmitLeavesConnection | src/core/engine_service.cpp:538-545 | An answer of the epoch ends the flight and is averaged, a failed one as a timeout |
| EngineEffects.ConfirmQueuesTheClear | src/core/engine_service.cpp:292-292 | A clear that begins queues its one request behind all others |
| EngineEffects.RescanStartsAfresh | src/core/engine_service.cpp:468-477 | A rescan forgets the codes noted before it and queues its two requests |
| EngineService.EngineService.SetSource | src/core/engine_service.cpp:126-143 | Drops the token; swaps the source at once and begins an epoch, or asks a source still connected to disconnect first; keeps the invariant, calls at most the active completion and begins no clear |
| EngineService.EngineService.Connect | src/core/engine_service.cpp:145-150 | Refuses a missing or mismatched source and then changes nothing; otherwise drops the token and takes the configuration; keeps the invariant |
| EngineService.EngineService.Disconnect | src/core/engine_service.cpp:166-176 | Drops the token, cancels the operation, calling its completion once, and resets the scheduler; keeps the invariant |
| EngineService.EngineService.ConnectCompleted | src/core/engine_service.cpp:152-163 | A good connect makes the engine's connection Ready; keeps the invariant |
| EngineService.EngineService.DisconnectCompleted | src/core/engine_service.cpp:177-184 | A disconnect leaves the connection Disconnected, or Faulted if it failed; keeps the invariant |
| EngineService.EngineService.TryPush | src/core/engine_service.cpp:558-559 | The source's packet is queued behind the others, or refused by a full queue; keeps the invariant |
| EngineService.EngineService.Identify | src/core/engine_service.cpp:192-212 | Answers at once when busy or not ready; otherwise starts with three requests queued; keeps the invariant and moves its completion exactly so |
| EngineService.EngineService.BeginScan | src/core/engine_service.cpp:608-625 | Answers at once when busy or not ready; otherwise starts with stored and pending codes queued; keeps the invariant and moves its completion exactly so |
| EngineService.EngineService.PrepareClear | src/core/engine_service.cpp:214-244 | Drops any token and, exactly if safe, issues one that has begun no clear, with the latest speed sample at rest; keeps the invariant |
| EngineService.EngineService.ConfirmClear | src/core/engine_service.cpp:246-295 | Answers that the token is invalid exactly if no live token has the number, begins a clear exactly if it answers nothing, and then with the latest speed sample at rest and the token gone; keeps the invariant |
| EngineService.EngineService.InvalidateEpoch | src/core/engine_service.cpp:564-579 | Even with a token that no longer binds, cancels, forgets token, settling, schedule, queued packets and samples, binds the source to the next epoch and establishes the invariant |
| EngineService.EngineService.HandleSourceState | src/core/engine_service.cpp:581-595 | Drops the token unless ready, ends the operation when the source is gone, leaves the scheduler alone; keeps the invariant |
| EngineService.EngineService.HandleDiagnosticMessage | src/core/engine_service.cpp:673-722 | Notes codes, metadata, a positive or negative clear reply or the first error on the active operation; keeps the invariant |
| EngineService.EngineService.ProcessPackets | src/core/engine_service.cpp:504-530 | The loop empties the queue in order, drops packets of other epochs, and changes nothing but the samples held and what the operation has noted; keeps the invariant |
| EngineService.EngineService.DispatchScheduler | src/core/engine_service.cpp:532-547 | Sends what the scheduler picks, tagged with the epoch, only to a ready source; keeps the invariant |
| EngineService.EngineService.TransmitCompleted | src/core/engine_service.cpp:538-546 | Ignores an answer of another epoch; otherwise drains the packets, tells the scheduler and counts the request; keeps the invariant, calls at most the active completion and begins no clear |
| EngineService.EngineService.FinishDiagnosticRequest | src/core/engine_service.cpp:627-671 | Counts a request that belongs and, at the last one, fails, settles, asks for the freeze frame once, or finishes; keeps the invariant |
| EngineService.EngineService.FinishScan | src/core/engine_service.cpp:724-770 | Marks the rescan of a clear and finishes it, or calls the scan's completion; restores the invariant |
| EngineService.EngineService.FinishIdentification | src/core/engine_service.cpp:772-788 | Publishes the metadata and calls the completion, with an error only if there is no metadata; restores the invariant |
| EngineService.EngineService.FinishClear | src/core/engine_service.cpp:790-808 | Files a sound audit, ends the operation and its settling, and calls the completion in a state that has the invariant |
| EngineService.EngineService.CancelDiagnosticOperation | src/core/engine_service.cpp:810-823 | Ends the active operation, a clear with its audit and the others with an error; keeps the invariant |
| EngineService.EngineService.SettleAfterClear | src/core/engine_service.cpp:468-477 | After the delay turns an accepted clear into its rescan; keeps the invariant |
| AsyncSource.RunConserves | src/core/async_data_source.cpp:175-397 | In every interleaving of calls, late or repeated completions and destruction the callbacks issued are partitioned into invoked once and still pending |
| AsyncSource.NothingPendingAfterShutdown | src/core/async_data_source.cpp:94-118 | After the shutdown handler nothing is ever pending and every callback issued, before or after, was invoked exactly once |
| AsyncSource.DisconnectRetiresPending | src/core/async_data_source.cpp:206-241 | Once a disconnect has started, completing an operation pending at that moment changes nothing, however late |
| AsyncSource.RepeatedCompletionIsIgnored | src/core/async_data_source.cpp:344-397 | A completion takes effect at most once |
| AsyncSource.DisconnectedWithPending | src/core/async_data_source.cpp:175-204 | A concrete run in which a Disconnected source has an operation pending |
| AsyncSource.StepQuietExactly | src/core/async_data_source.cpp:344-397 | With nothing pending whenever Disconnected, a step keeps that if and only if it is not the successful completion of a disconnect while other operations are pending |
| AsyncSource.RunQuietExactly | src/core/async_data_source.cpp:175-397 | In a run a Disconnected source never has anything pending if and only if no step of the run is such a completion |
| AsyncSource.ConnectionIsExplained | src/core/async_data_source.cpp:344-381 | Over all runs the source is Ready if and only if the last event to change its state was the good completion of a pending operation that a connect or reconnect began, Faulted if and only if it was the failed completion of one that a connect, reconnect or disconnect began, and likewise for the other states |
| AsyncSource.RepliesAreExplained | src/core/async_data_source.cpp:175-397 | Over all runs each reply is the one its step explains: success exactly for a good completion of the call's own operation or a disconnect when already disconnected, a driver error exactly for a failed one, and otherwise the refusal or cancellation that applies |
| AsyncSource.PendingHasOrigin | src/core/async_data_source.cpp:190-202 | A pending operation is of the kind of the call that began it and holds that call's callback |
| AsyncSource.ConfigIsLastAccepted | src/core/async_data_source.cpp:194-194 | The configuration is that of the last connect accepted |
| AsyncSource.AsyncDataSource.Connect | src/core/async_data_source.cpp:175-204 | Does the connect step, with its refusals; keeps the partition of callbacks |
| AsyncSource.AsyncDataSource.Disconnect | src/core/async_data_source.cpp:206-241 | Does the disconnect step: cancels every pending callback and pends its own; keeps the partition of callbacks |
| AsyncSource.AsyncDataSource.Reconnect | src/core/async_data_source.cpp:243-276 | Does the reconnect step, with its refusals; keeps the partition of callbacks |
| AsyncSource.AsyncDataSource.Transmit | src/core/async_data_source.cpp:278-305 | Does the transmit step, only when ready; keeps the partition of callbacks |
| AsyncSource.AsyncDataSource.Complete | src/core/async_data_source.cpp:344-397 | Removes the operation, sets the state its kind calls for and invokes its callback; does nothing for an unknown id; keeps the partition of callbacks |
| AsyncSource.AsyncDataSource.Shutdown | src/core/async_data_source.cpp:100-114 | Detaches the table, goes to Disconnected and cancels every callback; keeps the partition of callbacks |
| Session.ValidateAndIndex | src/drivers/playback/playback.cpp:227-323 | Accepts exactly the well-formed files: header at time zero first, footer last, neither elsewhere, time never going back, every record structurally valid; the index is the specified one |
| Session.CheckpointsSeparate | src/drivers/playback/playback.cpp:236-271 | Every record before a checkpoint is strictly earlier than it, and the checkpoint has its own record's time |
| Session.CheckpointsAscend | src/drivers/playback/playback.cpp:268-271 | Checkpoints strictly ascend from the first record on and no record reaches the second after the last one |
| Session.CheckpointsAreSparse | src/drivers/playback/playback.cpp:268-271 | After each checkpoint the next is the first record at or after the next whole second |
| Session.DecodeHexInvertsHex | src/session/session_recorder.cpp:61-70 | Decoding undoes encoding, and an encoding is valid exactly for payloads of at most 4095 bytes |
| Session.AddressRoundTrip | src/session/session_recorder.cpp:47-59 | A written address, or none, is valid and reads back as itself |
| Recorder.FinishedIsValidExactly | src/session/session_recorder.cpp:245-402 | A finished file is accepted by the player's validation if and only if its microsecond times never go back, no payload is empty and every value is finite |
| Recorder.MonotoneTimesAreInOrder | src/session/session_recorder.cpp:72-74 | Times that never go back at nanosecond resolution never go back in the file |
| Recorder.ReplayIsWhatWasRecorded | src/session/session_recorder.cpp:285-293 | A full scan of a finished file yields the recorded messages: elapsed time, sequence, address and payload, in order |
| Recorder.JsonlSessionRecorder.WriteRecord | src/session/session_recorder.cpp:366-402 | Appends exactly one line and counts it; a refused record changes nothing and a failed write ends the recording |
| Recorder.JsonlSessionRecorder.Start | src/session/session_recorder.cpp:245-283 | Opens a file with its header, or changes nothing of an active recording |
| Recorder.JsonlSessionRecorder.Record | src/session/session_recorder.cpp:285-336 | Accepts an entry exactly if open, not older than the recording and the storage takes it; the statistics stay a recount of the file |
| Recorder.JsonlSessionRecorder.ObserveQueueDrops | src/session/session_recorder.cpp:337-344 | Marks exactly the drops since the last call; all drops reported are in the file's statistics or their marker was refused |
| Recorder.JsonlSessionRecorder.Finish | src/session/session_recorder.cpp:346-364 | Publishes exactly the header, the accepted entries and a footer that recounts them |
| Recorder.FooterNumbersTheEntries | src/session/session_recorder.cpp:346-401 | The footer numbers the entries by kind, sums the drops marked and counts all lines |
| Recorder.ElapsedIsWhole | src/session/session_recorder.cpp:72-74 | Elapsed times are whole microseconds, rounded toward the origin |
| Playback.IndexedSeekIsFullScan | src/drivers/playback/playback.cpp:465-470 | For every valid session and start, the records from the chosen checkpoint that are not before the start are those of the whole file |
| Playback.Player.Seek | src/drivers/playback/playback.cpp:455-493 | Publishes exactly the records between warm-up start and target as a scan of the whole file would, in order, and leaves the first later one as look-ahead |
| Playback.SeekOffsetIsLast | src/drivers/playback/playback.cpp:465-469 | The seek starts at the last checkpoint not after its start |
| Playback.ScaledMeaning | src/drivers/playback/playback.cpp:544-545 | For every multiplier accepted as a speed, wall time is playback time divided by it and playback time wall time multiplied by it, rounded toward zero |
| Playback.SpeedsExactly | src/drivers/playback/playback.cpp:500-503 | Exactly 0.5, 1, 2 and 5 are accepted, each as its own speed |
| Playback.StretchedMeaning | src/drivers/playback/playback.cpp:218-225 | The wall time gone by that positions are stated with is multiplied by the accepted multiplier |
| Playback.DueAtMeaning | src/drivers/playback/playback.cpp:544-545 | A record is due at the anchor's time plus its distance divided by the multiplier |
| Playback.DueMeetsPosition | src/drivers/playback/playback.cpp:218-225 | A record is due once the virtual position has reached it, and the position is then short of it by less than a microsecond's playback |
| Playback.Player.FindOffset | src/drivers/playback/playback.cpp:465-469 | Finds the last checkpoint not after the start |
| Playback.Player.PublishRange | src/drivers/playback/playback.cpp:472-489 | The seek loop publishes the unread records of the range and stops at the first later one |
| Playback.Player.ProcessDue | src/drivers/playback/playback.cpp:520-553 | A stale wake does nothing; while playing exactly the remaining records due by now come out, the loop ends, and the position is that of the last one or the end; published, look-ahead and unread together stay what is owed |
| Playback.Player.Play | src/drivers/playback/playback.cpp:400-414 | Anchors at the present position and publishes exactly what is due; nothing is lost or repeated |
| Playback.Player.Pause | src/drivers/playback/playback.cpp:416-423 | Stops, publishing nothing, at the anchor plus the wall time gone by times the multiplier, within the session |
| Playback.Player.StepOnce | src/drivers/playback/playback.cpp:425-443 | Publishes exactly the next remaining record, due or not, if there is one, and stands at it |
| Playback.Player.Stop | src/drivers/playback/playback.cpp:445-453 | Publishes nothing and owes the whole file again |
| Playback.Player.SetSpeed | src/drivers/playback/playback.cpp:495-514 | Accepts exactly the four speeds; while playing re-anchors at the anchor plus the wall time gone by times the old multiplier and publishes what is due at the new speed |
| Playback.Player.Poll | src/drivers/playback/playback.cpp:516-518 | While playing publishes exactly what is due, otherwise nothing |
| Playback.Player.StaleWake | src/drivers/playback/playback.cpp:555-557 | A timer wake from before the last control changes neither what was published nor what remains |
| Replay.ReplayFinished | src/drivers/playback/playback.cpp:362-414 | A finished recording with ordered times, non-empty payloads and finite values is accepted by validation; a player started on it has always published the beginning of what was recorded, all of it once stopped, and has stopped when polled at or after the scaled end |
| CsvExport.ReadSession | src/session/csv_exporter.cpp:230-281 | Accepts exactly the exportable files and returns each metric's samples in file order and the duration |
| CsvExport.ExportSession | src/session/csv_exporter.cpp:308-334 | The export has duration/interval+1 rows, row k at k intervals and never past the duration, and every cell is what the whole file says: the last sample not after the tick if it is valid and not stale |
| CsvExport.Resampler.CellAt | src/session/csv_exporter.cpp:311-322 | The moving cursor's cell is the cell defined by a scan of all samples |
| CsvExport.LastAtMeaning | src/session/csv_exporter.cpp:313-315 | The cell's sample is the one not after the tick that all later samples in the file are after |
| CsvExport.CellIsOfTheFile | src/session/csv_exporter.cpp:311-322 | Said of the file's lines: a cell is filled if and only if the last line that samples its metric by its tick is valid and not older than the metric's limit, and shows that line's value |
| CsvExport.ValidSessionExports | src/session/csv_exporter.cpp:237-276 | A session fit for replay is fit for export if and only if its telemetry names known metrics and qualities |
| IsoTp.ParseInvertsEncode | src/protocol/isotp_trace.cpp:25-80 | Parsing accepts exactly the encodings of well-formed frames and inverts them; only flow control may carry further bytes |
| IsoTp.Reassembler.Accept | src/protocol/isotp_trace.cpp:84-125 | Does the specified step and keeps every entry short of its declared length |
| IsoTp.Reassembler.ExpireEntries | src/protocol/isotp_trace.cpp:127-131 | Drops exactly the entries older than the timeout and counts them |
| IsoTp.TableIsRun | src/protocol/isotp_trace.cpp:84-133 | After any history an address is pending if and only if the run since its last first frame is in sequence modulo 16, within the timeout and short, and its entry is what that run determines |
| IsoTp.EmissionIsExact | src/protocol/isotp_trace.cpp:101-125 | On arbitrary traces a consecutive frame completes a message if and only if its run is in sequence, in time, short before and not short after it; the message has the declared length and is a prefix of the run's bytes |
| IsoTp.PendingIsShort | src/protocol/isotp_trace.cpp:91-99 | Pending entries hold fewer bytes than declared and the inconsistent-first-frame branch is unreachable for parsed frames |
| IsoTp.MakeFrames | src/protocol/isotp_trace.cpp:135-166 | The segmenting loop yields the specified frames, sequence numbers wrapping from 15 to 0, or refuses exactly the payloads of other than 1 to 4095 bytes |
| IsoTp.InterleavedRoundTrip | src/protocol/isotp_trace.cpp:84-166 | Whatever was pending and whatever other addresses send in between, the frames of a message spaced within the timeout yield its payload on the last of them and nothing on the others |
| IsoTp.MergeDelivers | src/protocol/isotp_trace.cpp:84-166 | Any order-preserving merge of messages on distinct addresses delivers each exactly once, on its own last frame, and nothing else |
| Scheduler.SelectIsLeast | src/drivers/elm327/pid_scheduler.cpp:14-20 | The scan picks the least due PID by tier, due time and number, and one whenever any is due |
| Scheduler.NextServes | src/drivers/elm327/pid_scheduler.cpp:11-25 | The oldest diagnostic request is served before any streaming, then the least due PID, and nothing in flight or with nothing due |
| Scheduler.DiagnosticsAreFifo | src/drivers/elm327/pid_scheduler.cpp:10-13 | In every run the diagnostics sent and still queued are those queued, in order |
| Scheduler.NeverTwiceWithinPeriod | src/drivers/elm327/pid_scheduler.cpp:6-25 | Between resets no PID is dispatched again before the period in force at its last dispatch has passed, if every PID list set in between leaves it out or was set with the period over by time zero |
| Scheduler.FourHighDispatchesTakeTime | src/drivers/elm327/pid_scheduler.cpp:42-53 | Four high-tier dispatches span at least three of the smallest dispatch interval in force, so a shorter span of four includes another tier, as long as the PID lists set in between remember the dispatches |
| Scheduler.CallKeepsBlockExactly | src/drivers/elm327/pid_scheduler.cpp:6-25 | No call but a new PID list lets a PID be due before its period is over |
| Scheduler.NewListBlocksExactly | src/drivers/elm327/pid_scheduler.cpp:6-9 | After a new list a past dispatch holds its PID back if and only if the list leaves it out or its period was over by time zero |
| Scheduler.NewPidListForgetsPeriods | src/drivers/elm327/pid_scheduler.cpp:6-9 | A concrete run of calls in which setting the PID list again makes a PID go out twice at one instant |
| Scheduler.ServedIsRescheduled | src/drivers/elm327/pid_scheduler.cpp:21-23 | A streamed PID is next due exactly its period later, and no other PID's time changes |
| Scheduler.AverageIsWeighted | src/drivers/elm327/pid_scheduler.cpp:26-30 | A completed request enters the average with one eighth, a timeout as at least a second |
| Scheduler.PeriodsAreMultiples | src/drivers/elm327/pid_scheduler.cpp:42-53 | The interval is five quarters of the average, at least ten milliseconds, and the tiers' periods are its stated multiples |
| Wrappers.TruncDivTruncates | src/drivers/elm327/pid_scheduler.cpp:29-29 | The division of the averages and of elapsed times rounds toward zero, by under one |
| Scheduler.TiersExactly | src/drivers/elm327/pid_scheduler.cpp:43-47 | Which PIDs are of which tier |
| Scheduler.AdaptivePidScheduler.Next | src/drivers/elm327/pid_scheduler.cpp:11-25 | The loop serves exactly what the specification picks and re-schedules it |
| Scheduler.AdaptivePidScheduler.SetSupportedPids | src/drivers/elm327/pid_scheduler.cpp:6-9 | Keeps each PID once, ascending, all due at time zero |
| Scheduler.AdaptivePidScheduler.Complete | src/drivers/elm327/pid_scheduler.cpp:26-30 | Ends the flight and averages the round trip, a timeout counting at least a second |
| Aggregator.MetricAggregator.Ingest | headers/revdash/core/metric_aggregator.hpp:26-35 | A sample, in or out of order, extends the history that the window is kept equal to |
| Aggregator.MetricAggregator.GetStatistics | headers/revdash/core/metric_aggregator.hpp:37-51 | Asked at or after every earlier time, the pruned window reports exactly what recomputing from the whole valid history since the reset would |
| Aggregator.MetricAggregator.GetQuality | headers/revdash/core/metric_aggregator.hpp:53-59 | The quality of the last sample to arrive, stale after the metric's limit |
| Aggregator.MetricAggregator.SetEpoch | headers/revdash/core/metric_aggregator.hpp:63-63 | Forgets everything exactly when the epoch changes |
| Aggregator.StatisticsMeaning | headers/revdash/core/metric_aggregator.hpp:43-50 | The figures are the least, the greatest and the average value and the middle of the ascending arrangement |
| Aggregator.StatisticsIgnoreOrder | headers/revdash/core/metric_aggregator.hpp:46-50 | Two windows with the same values sorted have the same statistics |
| Aggregator.QualityIsOfTheLast | headers/revdash/core/metric_aggregator.hpp:53-72 | A metric's quality is that of its last sample to arrive, or stale if that was valid but older than the metric's limit; without one it is unsupported |
| RuleLifecycle.DiagnosticRuleEvaluator.Apply | src/diagnostics/rule_evaluator.cpp:174-216 | Keeps at most one finding per rule, does the specified step for its own rule and nothing to the others; reports a change exactly if the rule's activity changed |
| RuleLifecycle.DiagnosticRuleEvaluator.Evaluate | src/diagnostics/rule_evaluator.cpp:409-416 | Returns true exactly when the set of active rules changes |
| RuleLifecycle.DiagnosticRuleEvaluator.SetOxygenSensorTopology | src/diagnostics/rule_evaluator.cpp:423-427 | Restarts the catalyst rule's clearing streak and nothing else |
| RuleLifecycle.DiagnosticRuleEvaluator.SetEpoch | src/diagnostics/rule_evaluator.cpp:429-434 | Forgets all findings exactly when the epoch changes |
| RuleLifecycle.LifecycleInvariant | src/diagnostics/rule_evaluator.cpp:174-216 | Over all runs with non-decreasing time a finding is active exactly without a resolution time, and a resolution is at least a whole window after the finding was last seen |
| RuleLifecycle.FindingIsOfItsEvents | src/diagnostics/rule_evaluator.cpp:174-216 | Over all runs the finding is a function of the events: first detected at the first trigger, last seen with its evidence at the last, active exactly if no stable clear has ended since, otherwise resolved by the one that first did, last evaluated at the last event that concerned it |
| RuleLifecycle.ResolvesExactlyAfterStableClear | src/diagnostics/rule_evaluator.cpp:208-215 | An active finding becomes inactive if and only if the evaluation ends an unbroken streak of Clear outcomes spanning the window |
| RuleLifecycle.ActivatesExactlyWhenTriggered | src/diagnostics/rule_evaluator.cpp:182-206 | An inactive or missing finding becomes active if and only if its rule triggers |
| CsvText.CsvField | src/session/csv_exporter.cpp:153-164 | Quotes exactly the fields with a comma, quote, CR or LF, doubling quotes |
| CsvText.ParseCsv | src/diagnostics/dtc_database.cpp:115-193 | The reader's loop with its flags and look-ahead agrees with the grammar-like specification, errors included |
| CsvText.RoundTrip | src/diagnostics/dtc_database.cpp:115-193 | Reading back a written table returns it, for every mixture of LF, CR and CRLF row ends, the last one optional |
| CsvText.RoundTripExactly | src/diagnostics/dtc_database.cpp:115-193 | The written table is read back if and only if the text is valid UTF-8 without a leading byte-order mark and the table has rows, none empty or a single empty field |
| CsvText.MarkIsLost | src/diagnostics/dtc_database.cpp:119-121 | A text that begins with a byte-order mark never reads back as the table it was written from |
| CsvText.StrayQuoteIsRefused | src/diagnostics/dtc_database.cpp:165-168 | A quote inside a field that did not begin with one is refused, whatever came before |
| CsvText.JunkAfterQuoteIsRefused | src/diagnostics/dtc_database.cpp:162-164 | After a closing quote anything but a comma or a row end is refused |
| CsvText.OpenQuoteIsRefused | src/diagnostics/dtc_database.cpp:183-185 | A quoted field that is never closed is refused |
| Utf8.IsValidUtf8 | src/diagnostics/dtc_database.cpp:69-111 | The decoding loop accepts exactly the UTF-8 grammar of section 4 of RFC 3629 |
| DtcSearch.PrefixUpperBound | src/diagnostics/dtc_database.cpp:407-416 | The loop computes the specified bound |
| DtcSearch.RangeIsPrefixExactly | src/diagnostics/dtc_database.cpp:407-416 | The range from a prefix to its bound holds exactly the strings it begins, for every string, if and only if the prefix has a byte below 0xFF |
| DtcSearch.RangeIsPrefixInUtf8 | src/diagnostics/dtc_database.cpp:407-416 | Among strings without 0xFF the range is the prefix test for every non-empty prefix |
| DtcSearch.NormalizedTokens | src/diagnostics/dtc_database.cpp:250-272 | The loop collects exactly the longest stretches of word bytes, lower-cased |
| DtcSearch.CaseIsIgnored | src/diagnostics/dtc_database.cpp:259-267 | The tokens of a text do not depend on the case of its letters |
| DtcSearch.WordBytesExactly | src/diagnostics/dtc_database.cpp:259-267 | Which bytes are parts of words, and which are folded |
| DtcSearch.SearchIsNaiveScan | src/diagnostics/dtc_database.cpp:602-615 | The joined range scans over the term index select exactly the codes whose rows have, for each query token, a word beginning with it |
| DtcSearch.SearchKeywords | src/diagnostics/dtc_database.cpp:747-782 | Returns those codes in code order up to the limit, and an error exactly for a query without tokens or with more of them than the database joins tables |
| DtcSearch.TrimmedMeaning | src/diagnostics/dtc_database.cpp:57-67 | Trimming drops white space from both ends and nothing else |
| DtcSearch.LookupPrefix | src/diagnostics/dtc_database.cpp:726-745 | Trims and upper-cases its text, returns the codes with that prefix in code order up to the limit, and an error exactly for an invalid prefix |

## Left out

- Engine: payload bytes and their decoding are not modelled; a message is what its decoder made of it, and a transmit's dispatch and answer are each one step.
- Engine: confirmation tokens are numbered instead of drawn at random; a vehicle's identity is its set of VINs instead of their sorted, joined text.
- Engine: events to subscribers, diagnostic snapshots, code descriptions, freeze-frame contents, retry timers and the recorder queue are not modelled.
- Engine: a source swap that waits for a disconnect is a separate step that may come at any time; the playback and simulation commands appear only through the epoch change two of them make.
- EngineAccounting.OperationsEnd: does not say that answers arrive, since a source may stay silent; it bounds how many are needed.
- AsyncSource: subscribers and delayed timers of the source's worker are not modelled.
- Session: JSON text, the record fields no modelled step reads, and the `.ridx` file that only decides whether the index is rewritten.
- Recorder: publishing and renaming files, and the count of buffer growths; what other records contain is not modelled.
- Playback: looping, whose loop need not end for a session without OBD records; the time stamps put on published messages; the clock is read once per step; disconnecting and connecting again is a new player.
- CsvExport: column presets, unit conversion, number and time formatting, and the output file.
- IsoTp: the 16-bit width of declared lengths needs no wrap-around because they are at most 4095.
- Scheduler: the round-trip average is an unbounded integer.
- RuleLifecycle: the windows and thresholds behind each rule's outcome; outcomes are given.
- Aggregator: exact reals take the place of floating point, and nothing is claimed for a query earlier than an earlier one.
- DtcSearch: SQL is modelled by set comprehensions over imported rows; reading and writing the database is not modelled.
- Serial port and CAN drivers, the simulator, Mode 01 formulas, trouble-code bit decoding, VIN checks, the user interfaces and the command line are not part of this model.
