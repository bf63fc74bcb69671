# Verified model of the IICP TypeScript SDK's stateful protocols

The SDK routes tasks between nodes. Underneath its HTTP and command-line code sit
a number of small protocols that keep state. This project models those protocols
in Dafny and proves what they are for. Files that change state step by step are
classes and methods; each method is tied to a pure function of the old state, and
the main results are lemmas about those functions over all inputs, runs and
interleavings.

| file | component |
|---|---|
| `Framing`, `FrameSession` | 12-byte frames, reassembly from arbitrary TCP chunks, the server's INIT-first session, the client's frame reader |
| `ResponseSequence`, `StreamCall` | the response acceptor; the stream emitter and `streamCall`, joined end to end |
| `Heartbeat` | metrics batches reported at least once by overlapping heartbeats |
| `RateWindow` | the fixed-window limiter used for tasks and for relay binds |
| `TrustBundle`, `TicketVerdict`, `TrustStore`, `Sorting` | bundle normalisation, stored form, and when a ticket passes; lock, temporary file and rename between crashing processes |
| `Admission`, `ReplayCache` | durable single-use admission; the four in-memory replay caches |
| `Lifecycle`, `ObserverBuffer`, `Accounting` | lifecycle records with trimmed logs, the bounded observer buffer, accounting decisions driven over a ledger |
| `RelayStream`, `RelayCalls`, `RelayRegistry` | stream hand-off with backpressure, call correlation, the registry shared by TCP and HTTP binds |
| `JsonText`, `CanonicalJson`, `JsonRoundTrip`, `JsonMeaning` | `losslessParse` and `canonicalJson` |
| `Handoff` | operator handoff markers |
| `Optional`, `Picking` | small helpers |

Modelling choices. Time is an integer argument. A random UUID is a fresh name. A
synchronous stretch between two `await`s is one atomic step, and clocks read twice
are two arguments. Beside every trimmed structure stands its full history as ghost
state. CBOR, JSON text of stored bundles, SHA-256, Ed25519, `localeCompare` and
`String(value)` are uninterpreted functions; CBOR and the stored JSON are assumed
to decode what they encoded, and `localeCompare` to be a total preorder.

What the proofs bring out:

- **A streamed call ends normally exactly when** every emitted item's event label
  fits its status and the closing frame fits into 16 MiB (`StreamCall.EndToEnd`).
  A handler that overrides `event` with a label of another status makes its own
  client raise `status_event_disagreement`; nothing else a handler does can.
- **Admission** is single-use when every cleanup's retention is at least every
  consume's clock skew less one second; with any shorter retention a replay is
  accepted (`Admission.ShorterRetentionFails`).
- **The limiter** admits at most (k + 1) * limit requests of a key in any closed
  interval of k windows.
- **A relay bind ticket** is checked at one reading of the clock and consumed at
  another. If the second falls on its expiry while the first was before it, the
  cache has already forgotten the ticket and it is consumed again
  (`ReplayCache.RelayTicketAgain`, `ReplayCache.RelayTicketStraddle`).
- **`eventsAfter` with a negative cursor** skips the trimming check, so such a page
  is the next slice of the history exactly when nothing has been trimmed.
- **`cancel`** of an unexpired record never conflicts, and returns a terminal
  record unless the clock passes the time to live before its last look.
- **The trust store's mark** never drops while every bundle stays within 4 MiB
  (`TrustStore.MarkNeverDrops`). `commit` does not check the size: an oversized
  bundle is reported installed, does not load, and a recovery may then lower the
  mark (`TrustStore.OversizedLosesMark`).
- **Accounting** validates its fields by `String(x)` and compares them by `===`, so
  that the array `["conflict"]` passes validation and starts an execution. The
  books are kept for string fields; for others exactly unless a step is one of two
  kinds of look-alike (`Accounting.ConservationExactly`).
- **A response status** named like an inherited property (`constructor`) makes the
  acceptor throw a TypeError instead of one of its own codes; the frame is refused
  either way.
- **A handoff marker for no nodes** is never removed (`Handoff.EmptyMarkerStays`).

## Model

| member | source | states |
|---|---|---|
| `Framing.EncodeFrame` | src/iicp_tcp.ts:77-89 | fills the buffer in place with magic, version, type, flags, reserved byte, big-endian length and payload; refuses exactly payloads over 16 MiB |
| `Framing.DecodeEncoded` | src/iicp_tcp.ts:77-123 | decoding an encoded frame followed by anything gives back the frame and its exact length |
| `Framing.DecodeOnlyEncoded` | src/iicp_tcp.ts:91-123 | decoding succeeds if and only if the bytes start with some frame's encoding, up to the reserved byte |
| `Framing.EncodedBytes` | src/iicp_tcp.ts:77-89 | what stands in each byte of an encoded frame, big-endian length included |
| `Framing.StableTypeError` | src/iicp_tcp.ts:38-50 | a type byte has no objection exactly when it is one of the stable types |
| `Framing.TypeErrors` | src/iicp_tcp.ts:44-50 | which of the four objections is raised to which type bytes |
| `FrameSession.DecodeAfterPeek` | src/iicp_tcp.ts:440-447 | once the announced bytes are there, decoding cannot fail: the catch branch is unreachable |
| `FrameSession.FaultsExactly` | src/iicp_tcp.ts:969-988 | the exact circumstances of every fault a header can have |
| `FrameSession.NextFrame` | src/iicp_tcp.ts:395-448 | header, checks, payload and decode over a chunk queue see only the concatenated bytes and keep every byte not consumed |
| `FrameSession.Serve` | src/iicp_tcp.ts:395-461 | the session loop dispatches what the concatenated stream determines |
| `FrameSession.HandleConnection` | src/iicp_tcp.ts:340-469 | frames dispatched, reason for ending and bytes used depend on the concatenated stream only, never on the chunking |
| `FrameSession.SessionShape` | src/iicp_tcp.ts:421-460 | the first dispatched frame is INIT and no later one is; types are stable, payloads bounded, nothing follows a CLOSE |
| `FrameSession.SessionObeys` | src/iicp_tcp.ts:450-487 | the session goes on after INIT, PING, DISCOVER and CALL exactly if the application keeps it open; it is stopped exactly by a CLOSE or such a refusal, and throws exactly if the application does |
| `FrameSession.SessionConsumes` | src/iicp_tcp.ts:395-461 | as many bytes are used as the dispatched frames' encodings take, and what follows explains the end: no whole frame, a faulty one, or an INIT out of place |
| `FrameSession.SessionReads` | src/iicp_tcp.ts:395-455 | each dispatched frame is the one standing in the stream right behind the encodings of those before it |
| `FrameSession.SessionMonotone` | src/iicp_tcp.ts:340-469 | more bytes never change what was dispatched, nor an ending that is not starvation |
| `FrameSession.OrderlyExactly` | src/iicp_tcp.ts:450-460 | what a list of frames must be to be dispatched whole, frame by frame |
| `FrameSession.SessionOfEncoded` | src/iicp_tcp.ts:77-89 | a concatenation of encoded frames is dispatched as exactly those frames |
| `FrameSession.FrameReader.OnData` | src/iicp_tcp.ts:940-949 | appending a chunk keeps the stream still to be read |
| `FrameSession.FrameReader.ReadFrame` | src/iicp_tcp.ts:959-1000 | the client reads the next frame of the stream, or reports its fault, whatever the chunking |
| `ResponseSequence.NativeResponseSequence.Accept` | src/native_response_sequence.ts:36-59 | which objection is raised, in order of the checks, the failing lookup of a status like `constructor` included, and the state after acceptance |
| `ResponseSequence.NativeResponseSequence.Finish` | src/native_response_sequence.ts:61-63 | objects exactly when no terminal frame was accepted |
| `ResponseSequence.LabelsThatFit` | src/native_response_sequence.ts:45-53 | the six pairs of status and event label that fit |
| `ResponseSequence.RunIsAnswer` | src/native_response_sequence.ts:36-63 | a run is accepted and finished exactly when its frames are numbered consecutively with one terminal frame, last |
| `ResponseSequence.AcceptsCompleteAnswers` | src/native_response_sequence.ts:26-64 | the acceptor accepts precisely the complete answers of its session, call and task |
| `StreamCall.PayloadRoundTrip` | src/iicp_tcp.ts:202-228 | decoding an encoded lifecycle payload gives back ids, number, label, flags, result, error and tokens |
| `StreamCall.SeenAtClient` | src/iicp_tcp.ts:202-228 | what the client sees of an item, in the item's own fields: default labels, default error parts, finality |
| `StreamCall.Readable` | src/iicp_tcp.ts:1023-1051 | which decoded values are responses at all, and the defaults of missing or null text |
| `StreamCall.MeantIsAccepted` | src/native_response_sequence.ts:36-59 | an emitted frame is refused only for a label that does not fit its status |
| `StreamCall.CallRoundTrip` | src/iicp_tcp.ts:548-588 | the server extracts the ids the client put into its CALL, which also holds intent and payload |
| `StreamCall.StreamEmitter.Emit` | src/iicp_tcp.ts:650-663 | writes one numbered frame unless a terminal one was sent or the payload is too large, and then nothing changes |
| `StreamCall.StreamEmitter.RunHandler` | src/iicp_tcp.ts:664-672 | the handler loop for any items, early end or throw |
| `StreamCall.StreamEmitter.OnStreamCall` | src/iicp_tcp.ts:643-685 | what is on the wire for every behaviour of gate and handler |
| `StreamCall.EmissionPassesThrough` | src/iicp_tcp.ts:664-683 | the handler's items go out unchanged up to the first terminal or oversized one, then one closing error if none was terminal |
| `StreamCall.EmissionSendable` | src/iicp_tcp.ts:650-685 | every emission has one terminal item, last, unless even the closing error does not fit |
| `StreamCall.StreamCall` | src/iicp_tcp.ts:867-926 | the client loop yields what the bytes determine and leaves the rest unread |
| `StreamCall.ReceiveWire` | src/iicp_tcp.ts:893-921 | reading an emission's bytes yields its frames up to the first unfit label |
| `StreamCall.EndToEnd` | src/iicp_tcp.ts:643-926 | for every behaviour: the client ends normally if and only if all labels fit and the emission ended, and then holds exactly the emitted frames, numbered 0..n-1, one final frame last |
| `StreamCall.RunCall` | src/iicp_tcp.ts:643-1052 | the same with both ends running and the bytes cut arbitrarily |
| `Heartbeat.Metrics.TaskFinished` | src/node.ts:1992-1993 | success, failure and positive latency are counted once |
| `Heartbeat.Metrics.BeginHeartbeat` | src/node.ts:779-794 | a batch is opened from the counters, which restart at zero, only if none is outstanding and something is pending |
| `Heartbeat.Metrics.ReplyReceived` | src/node.ts:861-871 | the outstanding batch is cleared only by a reply to that very batch |
| `Heartbeat.Conservation` | src/node.ts:779-872 | over every interleaving with loss, delay and repetition: recorded counts plus the unrecorded batch plus pending counters equal all tasks finished |
| `Heartbeat.InitialInv` | src/node.ts:782 | a node that has done nothing satisfies what every step keeps |
| `Heartbeat.ContentsNeverChange` | src/node.ts:782-794 | a batch id stands for the same contents for ever |
| `Heartbeat.LatencyConserved` | src/node.ts:782-792 | over every run the time measured is what the batches opened carry plus what is still pending |
| `Heartbeat.OpenedOnce` | src/node.ts:782-794 | heartbeats carry exactly the batches opened, each opened once under an id of its own |
| `Heartbeat.AcknowledgementIsPrecise` | src/node.ts:865-866 | a late acknowledgement never clears a newer batch |
| `Heartbeat.ExchangeDelivers` | src/node.ts:779-872 | one undisturbed exchange records the outstanding batch and frees the slot |
| `Heartbeat.ExchangeRuns` | src/node.ts:779-872 | such an exchange is a run that is possible in every reachable state |
| `Heartbeat.TwoExchangesCatchUp` | src/node.ts:779-872 | after two undisturbed exchanges the directory has counted everything |
| `RateWindow.Limiter.TaskRateAllow` | src/node.ts:1728-1743 | the decision and the table after it, with the prune above 4096 buckets |
| `RateWindow.Limiter.AllowBind` | src/relay_session.ts:338-352 | the same for binds; rebinds and a zero limit pass uncounted |
| `RateWindow.PruneExactly` | src/node.ts:1736-1741 | only above 4096 buckets is anything dropped, and only buckets whose window is over |
| `RateWindow.PruneUnobservable` | src/node.ts:1736-1741 | on a clock that never goes back every decision equals that of a table never pruned |
| `RateWindow.AdmissionBound` | src/node.ts:1728-1743 | at most (k + 1) * limit admissions of a key in any interval of k windows |
| `RateWindow.RateLimit` | src/relay_session.ts:338-352 | that bound for the limiter as it runs, pruning included |
| `RateWindow.BucketCounts` | src/node.ts:1731-1735 | a bucket counts exactly its key's requests since its window began |
| `RateWindow.RefusedOnlyAboveRate` | src/node.ts:1742 | a refusal means `limit` counted requests of that key within the last window |
| `TrustBundle.NormalizeIdempotent` | src/dispatch_ticket_trust.ts:109-129 | normalising twice is normalising once |
| `TrustBundle.FindSort` | src/dispatch_ticket_trust.ts:113 | the stable sort keeps the first of several keys with one id first |
| `TrustBundle.NormalizeKeepsVerdict` | src/dispatch_ticket_trust.ts:306-346 | every ticket gets the same verdict from a bundle and from its normal form, defaulted and empty lists and duplicate ids included |
| `TrustBundle.LoadAfterCommit` | src/dispatch_ticket_trust.ts:191-259 | `load` accepts what `commit` wrote exactly within 4 MiB and returns the normalised bundle and mark |
| `TrustBundle.LoadOnlyCommitted` | src/dispatch_ticket_trust.ts:202-217 | a file loads exactly if it is within 4 MiB and says what `commit` writes for some bundle and mark: bytes, digest, version and canonical form agree |
| `TrustBundle.LoadedIsLegal` | src/dispatch_ticket_trust.ts:212-216 | whatever loads has 0 <= version <= mark, both safe integers |
| `TrustBundle.ReloadKeepsVerdict` | src/dispatch_ticket_trust.ts:202-217 | a reloaded bundle decides every ticket like the installed one |
| `TicketVerdict.PassExactly` | src/dispatch_ticket_trust.ts:306-346 | a ticket passes if and only if under the first key it names everything holds: key not revoked, key and bundle in their windows, version counted, profile allowed, issuer and audience listed, claims as bound and unexpired, signature good |
| `TicketVerdict.RefusedForBundle` | src/dispatch_ticket_trust.ts:309-319 | exactly when a ticket is refused for rollback, the bundle's window, its profile or an unknown key |
| `TicketVerdict.RefusedForKey` | src/dispatch_ticket_trust.ts:320-342 | exactly when it is refused for the key's state, window, profiles, issuers or audiences, for its claims or its signature, and what a passing one carries |
| `TrustStore.FileStore.Perform` | src/dispatch_ticket_trust.ts:261-298 | status, new file and released lock of `install` and `recover` |
| `TrustStore.InstallRaises` | src/dispatch_ticket_trust.ts:271-276 | an "installed" result strictly raises the version it replaces and is at least the old mark |
| `TrustStore.InstallRefusals` | src/dispatch_ticket_trust.ts:267-276 | exactly when an install fails, is stale, conflicting or unchanged, and when it writes |
| `TrustStore.RecoverKeepsMark` | src/dispatch_ticket_trust.ts:289-294 | a recovery's mark is at least the old one, the requested one and the version |
| `TrustStore.RecoverExactly` | src/dispatch_ticket_trust.ts:284-295 | a recovery is written over any file, loadable or not and whatever its version, with the highest of version, requested and current mark, unless the requested one is no safe integer |
| `TrustStore.InvNext` | src/dispatch_ticket_trust.ts:167-189 | every file step of every process, crashes included, keeps the lock discipline |
| `TrustStore.AtMostOneInside` | src/dispatch_ticket_trust.ts:167-189 | at most one process is inside the lock |
| `TrustStore.OthersCannotInterfere` | src/dispatch_ticket_trust.ts:265-279 | while one process is inside, no other changes file, lock or its progress |
| `TrustStore.FileChangesWhole` | src/dispatch_ticket_trust.ts:237-257 | the stored file changes only from one whole state to another, the one planned on the file it replaces |
| `TrustStore.StaleLockStays` | src/dispatch_ticket_trust.ts:167-189 | a crashed process's lock stays through every step of others until it is cleared by hand, and only then can an operation begin |
| `TrustStore.StepCorrupts` | src/dispatch_ticket_trust.ts:203-257 | the one step that makes a loadable file unloadable is renaming a state over 4 MiB into place |
| `TrustStore.StaysLoadable` | src/dispatch_ticket_trust.ts:203-257 | if every bundle stays within the size limit, the file loads in every state of every run |
| `TrustStore.MarkNeverDrops` | src/dispatch_ticket_trust.ts:261-298 | over every interleaving and crash the high-water mark never drops, if the file loads at the start and every bundle stays within the size limit |
| `TrustStore.OversizedLosesMark` | src/dispatch_ticket_trust.ts:203-294 | one bundle over the limit is reported installed, does not load, and lets a recovery write any lower mark |
| `Admission.Store.ConsumeClaim` | src/dispatch_admission.ts:165-218 | screening order, replay and terminal answers, and the one inserted row |
| `Admission.Store.Evaluate` | src/dispatch_admission.ts:88-116 | trust is checked before anything is stored |
| `Admission.ConsumeExactly` | src/dispatch_admission.ts:165-218 | the exact circumstances of every code, from the ticket id's characters to the clock skew, and the one row an accepted claim leaves |
| `Admission.Store.SetTerminal` | src/dispatch_admission.ts:220-255 | the row after a transition, or a range error and no change |
| `Admission.TransitionExactly` | src/dispatch_admission.ts:220-255 | which transitions are possible, the state and time the row then has, and that nothing else changes |
| `Admission.Store.Cleanup` | src/dispatch_admission.ts:257-281 | deletes as many stale rows as the limit allows, earliest expiry first, and counts them |
| `Admission.DeletesExactly` | src/dispatch_admission.ts:257-281 | which sets of rows a cleanup may delete |
| `Admission.SingleUse` | src/dispatch_admission.ts:165-281 | over any run a claim is accepted at most once if every retention is at least every skew less one |
| `Admission.ShorterRetentionFails` | src/dispatch_admission.ts:172-177 | with any shorter retention there is a run that accepts a claim twice |
| `Admission.TerminalIsFinal` | src/dispatch_admission.ts:232-239 | a terminal row keeps its state until a cleanup removes it after its expiry |
| `ReplayCache.RelayBindTicketReplayCache.Consume` | src/relay_ticket.ts:22-29 | verdict and table after eviction and insertion |
| `ReplayCache.IdempotencyGuard.CheckAndRegister` | src/idempotency.ts:22-31 | the same for task ids, empty ids being always new |
| `ReplayCache.NonceTable.CheckNonce` | src/node.ts:1048-1058 | the same for nonces, kept through their last instant |
| `ReplayCache.VerifyDispatchTicketV2` | src/dispatch_ticket_trust.ts:306-347 | the decision, which is a refusal unless the ticket is genuine under a key it names, and the cache, which a ticket refused before the replay check leaves untouched |
| `ReplayCache.Exact` | src/dispatch_ticket_trust.ts:88-99 | on a clock that never goes back, a name is let through exactly when no earlier accepted use of it is unexpired |
| `ReplayCache.AcceptedTwice` | src/relay_ticket.ts:22-29 | accepted twice means the first expiry has been reached |
| `ReplayCache.RepeatExactly` | src/idempotency.ts:22-31 | a task id or nonce is refused exactly if it was let through within the time to live before; absent and empty ones are never recorded |
| `ReplayCache.SameClaimsOnce` | src/dispatch_ticket_trust.ts:333-346 | the same claims are accepted at most once, whatever bundles, bindings and signatures |
| `ReplayCache.RelayTicketAgain` | src/relay_ticket.ts:68-72 | a consumed relay ticket is consumed again exactly when the clock reaches its expiry between check and use |
| `ReplayCache.RelayTicketStraddle` | src/relay_ticket.ts:19-30 | an instance of that |
| `Lifecycle.LifecycleStore.SubmitTask` | src/service_lifecycle.ts:127-133 | creation, repetition and both conflicts |
| `Lifecycle.SubmitExactly` | src/service_lifecycle.ts:127-133 | exactly when a task is created, found again or in conflict, and that only a creation changes anything |
| `Lifecycle.LifecycleStore.GetStatus` | src/service_lifecycle.ts:134 | the record, or its removal once its time to live is over |
| `Lifecycle.LifecycleStore.Transition` | src/service_lifecycle.ts:135 | legal moves append one event and trim; others change nothing |
| `Lifecycle.MoveExactly` | src/service_lifecycle.ts:135 | exactly when a record moves and to what, `timed_out` meaning expiry, and that nothing else changes |
| `Lifecycle.Sources` | src/service_lifecycle.ts:4-11 | from which states each state is reached, and that exactly the terminal ones lead nowhere |
| `Lifecycle.LifecycleStore.CancelTask` | src/service_lifecycle.ts:136 | status, move and status at three readings of the clock |
| `Lifecycle.LifecycleStore.ReadAfter` | src/service_lifecycle.ts:137 | the page after a cursor, as long as `limit` says, or resume unavailable |
| `Lifecycle.LifecycleStore.TakeSnapshot` | src/service_lifecycle.ts:138 | lists every record exactly once |
| `Lifecycle.LifecycleStore.RestoreFrom` | src/service_lifecycle.ts:139 | what is stored after a restore, also one that fails half-way; a fresh store restored from a snapshot is a valid store with those records |
| `Lifecycle.RunInv` | src/service_lifecycle.ts:127-137 | over every run each record is its full history cut to the newest events, and idempotency keys are distinct |
| `Lifecycle.RecordShape` | src/service_lifecycle.ts:4-11 | as many events as the store keeps, contiguous, neighbours edges of the table, the last carrying state and time, a final event last and unique |
| `Lifecycle.PageIsExact` | src/service_lifecycle.ts:137 | a page is exactly the next max(1, limit) events of the untrimmed history, or all that are left, if and only if the cursor is not below what is kept |
| `Lifecycle.PagingIsGapFree` | src/service_lifecycle.ts:127-137 | a reader paging while any steps happen in between: as long as the record lives it holds one gap-free, duplicate-free piece of the untrimmed history up to its cursor, beginning right behind a non-negative start |
| `Lifecycle.ReaderAnswers` | src/service_lifecycle.ts:137 | it is told that it cannot resume exactly when the event behind its cursor is gone, and an empty page means it has everything |
| `Lifecycle.SubmitIsIdempotent` | src/service_lifecycle.ts:127-133 | within one life, whatever happens in between: the same content gets the stored record, other content or the same key under another id conflicts, and nothing changes |
| `Lifecycle.HistoryGrows` | src/service_lifecycle.ts:127-137 | within one life a history only grows, and other records are untouched |
| `Lifecycle.CancelEnds` | src/service_lifecycle.ts:136 | cancel never conflicts, and when exactly it returns a terminal record |
| `Lifecycle.CancelIdempotent` | src/service_lifecycle.ts:136 | within the time to live, cancelling again changes nothing and answers alike |
| `Lifecycle.RestoreCollects` | src/service_lifecycle.ts:139 | restore succeeds exactly on contiguous records, and then holds the last one listed for each id |
| `Lifecycle.ContiguousExactly` | src/service_lifecycle.ts:139 | the check of a restored record: not empty, each event's number one above its predecessor's |
| `Lifecycle.RestoreOfSnapshot` | src/service_lifecycle.ts:138-139 | a fresh store restored from any snapshot of a reachable store equals it |
| `ObserverBuffer.BoundedObserverBuffer.Publish` | src/service_lifecycle.ts:106-112 | accepts exactly increasing sequence numbers and keeps the newest events |
| `ObserverBuffer.BoundedObserverBuffer.Subscribe` | src/service_lifecycle.ts:97-102 | refuses exactly a new observer at capacity |
| `ObserverBuffer.BoundedObserverBuffer.Disconnect` | src/service_lifecycle.ts:104 | frees the observer's place |
| `ObserverBuffer.BoundedObserverBuffer.PollAfter` | src/service_lifecycle.ts:114-118 | a poll that returns has every published event above the cursor, dropped ones included |
| `ObserverBuffer.LaggedMeansLost` | src/service_lifecycle.ts:116 | on contiguous numbers, lagging is reported if and only if an event above the cursor was dropped |
| `Accounting.EffectsOfAnything` | src/service_lifecycle_accounting.ts:18-69 | for fields of any type, exactly when a reservation is created or released, a settlement created, an execution started |
| `Accounting.CodesOfAnything` | src/service_lifecycle_accounting.ts:18-69 | the exact circumstances of every one of the sixteen answers |
| `Accounting.Reuses` | src/service_lifecycle_accounting.ts:18-69 | which answers reuse a reservation or a settlement |
| `Accounting.NextTotals` | src/service_lifecycle_accounting.ts:18-69 | what each answer adds to the ledger's totals |
| `Accounting.EffectsExactly` | src/service_lifecycle_accounting.ts:18-69 | the same when operation and binding are strings: reservations only for a fresh binding, settlements only for the same one |
| `Accounting.LookAlikes` | src/service_lifecycle_accounting.ts:26-53 | `["conflict"]` as binding starts an execution and `["submit"]` as operation settles, where the strings are refused |
| `Accounting.InvNextExactly` | src/service_lifecycle_accounting.ts:18-69 | one decision booked in a ledger of many tasks keeps the books if and only if it is not one of two kinds of look-alike |
| `Accounting.InvNext` | src/service_lifecycle_accounting.ts:18-69 | with operation and binding strings it always does |
| `Accounting.Conservation` | src/service_lifecycle_accounting.ts:18-69 | over runs of string inputs: created = live + released + settled; at most one settlement, never without a reservation nor after a release; executions start with reservations |
| `Accounting.ConservationExactly` | src/service_lifecycle_accounting.ts:18-69 | over runs of any inputs the books balance throughout exactly if no step is such a look-alike |
| `Accounting.LookAlikeBreaksBooks` | src/service_lifecycle_accounting.ts:46-52 | a run in which one task gets a second reservation |
| `Accounting.EmptyInv` | src/service_lifecycle_accounting.ts:18-69 | an empty ledger is balanced |
| `RelayStream.PendingRelayStream.PushEvent` | src/relay_session.ts:43-51 | acceptance, hand-over to the oldest waiter, buffering, or failure at 32 |
| `RelayStream.PendingRelayStream.NextEvent` | src/relay_session.ts:59-72 | failed, served from the buffer, or waiting |
| `RelayStream.PendingRelayStream.FailStream` | src/relay_session.ts:53-57 | clears the buffer and rejects every waiter |
| `RelayStream.PendingRelayStream.TimerFired` | src/relay_session.ts:65-69 | a waiting call leaves the list; a settled one is unaffected |
| `RelayStream.HandOff` | src/relay_session.ts:33-73 | over every run: buffer and waiters never both in use, at most 32 buffered, and the events that the calls of `next` returned are, in call order, a prefix of the accepted frames, all but the buffered ones if nothing failed |
| `RelayStream.PushAccepts` | src/relay_session.ts:43-51 | a frame nothing stands against answers the oldest waiting call or is buffered last |
| `RelayStream.FailsExactly` | src/relay_session.ts:43-57 | a stream fails exactly at a refused frame, a 33rd unread one, or from outside, and then every waiting call fails alike |
| `RelayStream.Drains` | src/relay_session.ts:59-64 | as many calls as there are buffered events get them all, and with them everything accepted |
| `RelayStream.OrderAfter` | src/relay_session.ts:43-72 | each step keeps the waiters in call order, behind every call that got an event, and the events got equal to those handed over |
| `RelayStream.EmptyInv` | src/relay_session.ts:33-41 | a new stream satisfies what every step keeps |
| `RelayStream.NothingAfterFailure` | src/relay_session.ts:43-61 | after a failure nothing is delivered or accepted and every further call fails |
| `RelayStream.SettledOnce` | src/relay_session.ts:59-72 | a settled call stays settled the same way |
| `RelayStream.RunNumbers` | src/relay_session.ts:43-46 | accepted frames carry the stream's ids and consecutive numbers, a final one last |
| `RelayCalls.HttpPollWorkerSession.ForwardTask` | src/relay_session.ts:238-256 | a call goes to the oldest waiting poll or to the end of the queue |
| `RelayCalls.HttpPollWorkerSession.Poll` | src/relay_session.ts:259-276 | a poll takes the oldest queued call or waits |
| `RelayCalls.HttpPollWorkerSession.PollTimerFired` | src/relay_session.ts:269-274 | a waiting poll ends empty |
| `RelayCalls.HttpPollWorkerSession.OnResponse` | src/relay_session.ts:282-288 | settles a pending call once; unknown ids are ignored |
| `RelayCalls.RelayWorkerSession.ForwardTask` | src/relay_session.ts:129-156 | over a socket: one frame per call in order, and no trace of a call that could not be written |
| `RelayCalls.RelayWorkerSession.OnResponse` | src/relay_session.ts:168-173 | settles a pending call once; unknown ids are ignored |
| `RelayCalls.Correlation` | src/relay_worker_client.ts:268-290 | with a worker answering concurrently in any order: calls go out first in, first out, each to one poll; queue and waiting polls are never both in use; an answered call has the result computed for its own task |
| `RelayCalls.SettledExactly` | src/relay_session.ts:238-288 | a pending call is settled exactly by the first answer naming it, with that result, or by its timer |
| `RelayCalls.TimersFire` | src/relay_session.ts:247-252 | a call's timer may fire at any time and ends a pending call as timed out |
| `RelayCalls.EveryStepActs` | src/relay_session.ts:238-276 | what every step adds, hands over, lets wait and ends |
| `RelayCalls.CanAnswer` | src/relay_worker_client.ts:268-290 | from every reachable state some run answers a pending call with a result computed for its task |
| `RelayCalls.SettledOnce` | src/relay_session.ts:238-287 | each call settles at most once, by timeout or by its answer |
| `RelayCalls.NoneLost` | src/relay_session.ts:238-276 | every call is queued or handed out, and every plain call is pending or settled |
| `RelayRegistry.RelaySessionRegistry.HandleBind` | src/relay_session.ts:510-580 | the bind sequence over TCP: ticket, alive session, rate, capacity, single use, in that order, and everything it changes |
| `RelayRegistry.DecisionExactly` | src/relay_session.ts:514-574 | the exact circumstances of every refusal of a bind, missing and unverified tickets included |
| `RelayRegistry.RelaySessionRegistry.Screen` | src/node.ts:1491-1514 | the same checks in the HTTP bind handler |
| `RelayRegistry.RelaySessionRegistry.Install` | src/node.ts:1521-1526 | a fresh session replaces the entry of its worker |
| `RelayRegistry.RelaySessionRegistry.GetByToken` | src/relay_session.ts:377-383 | finds a session exactly when the token belongs to a registered long-poll session |
| `RelayRegistry.RelaySessionRegistry.HandlerEnds` | src/relay_session.ts:625-634 | teardown removes the entry only if it is still this session's |
| `RelayRegistry.RelaySessionRegistry.HandleUnbind` | src/node.ts:1587-1598 | a token unbinds its own session and no other |
| `RelayRegistry.CapKept` | src/relay_session.ts:354-366 | over every interleaving the session count never exceeds the cap |
| `RelayRegistry.EntryLeaves` | src/relay_session.ts:534-634 | a registered session leaves the registry if and only if its worker binds while it is not alive, its own handler ends, or its own token unbinds it |
| `RelayRegistry.ReconnectAdmitted` | src/relay_session.ts:534-577 | a worker whose session is dead is let in whatever the rate and the cap, and no other entry changes |
| `RelayRegistry.RefusedBind` | src/node.ts:1491-1519 | a refused bind changes no session, and uses up no ticket |
| `RelayRegistry.OneTicketOneSession` | src/relay_session.ts:566-577 | over both transports together, a second session on one ticket means it was consumed at or after its expiry |
| `JsonText.LosslessParser.ParseStr` | src/cli.ts:1672-1697 | reads any spelling of a string, every escape included, and stops after the closing quote |
| `JsonText.Letters` | src/cli.ts:1672-1745 | which characters are blanks, number characters and hexadecimal digits, what a digit is worth, and what each short escape stands for |
| `JsonText.LosslessParser.ParseVal` | src/cli.ts:1698-1759 | reads whatever tree the text ahead stands for and stops right behind it; terminates on every legal text |
| `JsonText.LosslessParse` | src/cli.ts:1667-1761 | for every way of writing a tree, with any blanks, escapes, repeated keys and member order, returns that tree with its number literals as written; an object has exactly the keys mentioned |
| `JsonText.LastWins` | src/cli.ts:1703-1722 | of several members with one key the last one counts |
| `CanonicalJson.CanonicalIsWrite` | src/cli.ts:1769-1775 | sorting keys while printing equals sorting the whole tree first and then writing it |
| `CanonicalJson.EscapeExactly` | src/cli.ts:1770 | what each unit of a string is printed as |
| `CanonicalJson.EscapesExactly` | src/cli.ts:1770 | only surrogates without a partner are printed in hexadecimal for being surrogates |
| `Sorting.LexExactly` | src/cli.ts:1773 | keys are ordered by their first difference, a prefix coming first |
| `JsonRoundTrip.EscapesMean` | src/cli.ts:1770 | the string escapes the printer uses read back as the string, surrogates included |
| `JsonRoundTrip.WriteShows` | src/cli.ts:1769-1775 | written text is a legal spelling of the tree |
| `JsonRoundTrip.LayoutLegal` | src/cli.ts:1667-1775 | and that spelling stands for the tree itself |
| `JsonRoundTrip.Unambiguous` | src/cli.ts:1667-1761 | two readings of one text agree |
| `JsonMeaning.SameCanon` | src/cli.ts:1773 | two trees are the same value, object members compared by key, exactly when their sorted trees are equal |
| `JsonMeaning.CanonicalDecides` | src/cli.ts:1764-1775 | canonical texts are equal if and only if the trees are the same value: independent of key order, and injective |
| `JsonMeaning.TextsAgree` | src/cli.ts:1667-1775 | the same for trees read from any two texts |
| `JsonMeaning.CanonicalIsText` | src/cli.ts:1769-1775 | the canonical text of a tree is a legal text of the same value |
| `JsonMeaning.Reprint` | src/cli.ts:1667-1775 | printing, reading and printing again: same value, same text |
| `Handoff.MarkerDirectory.CheckRestart` | src/cli.ts:2572-2590 | a node claims one marker that is due, or none is |
| `Handoff.DelayExactly` | src/cli.ts:2536-2547 | which nodes have a delay, and that it ends exactly with the marker's grace, 300 seconds unless it names another |
| `Handoff.CompleteExactly` | src/cli.ts:2549-2566 | which returns count, exactly when one removes the marker, and what is kept otherwise |
| `Handoff.MarkerDirectory.CompleteHandoff` | src/cli.ts:2549-2566 | which markers are completed, which removed, which left alone |
| `Handoff.MarkerDirectory.WriteMarker` | src/cli.ts:2497-2511 | the marker a rotation writes |
| `Handoff.Safety` | src/cli.ts:2536-2585 | over every run: completed within claimed within affected, no restart before the grace is over nor twice per marker, removal only when every affected node has restarted and registered again |
| `Handoff.RestartProgress` | src/cli.ts:2577-2581 | every claim is one step fewer to come |
| `Handoff.ReturnProgress` | src/cli.ts:2558-2563 | every return is one step fewer to come, or the last |
| `Handoff.NeverStuck` | src/cli.ts:2536-2563 | once the grace is over some node can always take an unfinished marker further |
| `Handoff.NeverFull` | src/cli.ts:2562-2563 | in every reachable state a kept marker still misses some node's return |
| `Handoff.CanFinish` | src/cli.ts:2536-2585 | from every reachable state, once the grace is over, some run of at most as many steps as are left removes the marker |
| `Handoff.EmptyMarkerStays` | src/cli.ts:2552 | a marker for no node is never restarted on nor removed |

## Left out

- Network and operating system: `fetch`, socket errors and read timeouts, file modes and ACLs, fsync; a socket is a list of chunks and a file step is atomic.
- Cryptography and codecs: Ed25519, SHA-256, base64, CBOR, JSON of stored bundles and `localeCompare` are uninterpreted, as stated above.
- Numbers: JavaScript integers are unbounded integers, checked against the safe range only where the code does; fractional clock skew, retention, grace and bucket times are not modelled.
- Identifiers whose text is never inspected (task ids, worker ids, batch ids, node names) are integers or an arbitrary type; a random UUID is never repeated.
- StreamCall.StreamCall: a read timeout is not modelled; a stream that ends early reports the missing terminal frame as the code does.
- StreamCall.EndToEnd: the optional idempotency key of a CALL and the JSON of its payload are not followed to the handler.
- Heartbeat.Conservation: latency is balanced on the node's side only, because the directory gets the rounded average of src/node.ts:815.
- FrameSession.HandleConnection: the replies written by INIT, PING and DISCOVER handlers and the unary CALL path are one arbitrary verdict per frame.
- TrustStore.InvNext: removal of a crashed process's lock file by an operator is a step of the model; the code has no such step.
- Admission.Store.Evaluate: a storage failure, which the code turns into a refusal, is not modelled.
- Lifecycle.RestoreOfSnapshot: restoring into a store that already holds records, which does not recheck idempotency keys, or into one with another event limit, and the snapshot's profile string are not covered.
- Lifecycle.LifecycleStore.Transition: event detail, task ids inside events and the copies made by `structuredClone` are not modelled.
- Accounting.Conservation: a resume's flags are arbitrary because they describe another task; values on which `String` throws are not modelled.
- RelayRegistry.RelaySessionRegistry.HandleBind: reading and decoding the INIT and RELAY_BIND frames before it, and the worker's frame loop after it, are not modelled; they reassemble frames as the server session does.
- RelayCalls.Correlation: the JSON of tasks and results on the wire is not modelled; an answer whose payload cannot be read carries no call id.
- JsonText.LosslessParse: malformed text is not covered; the string loop at src/cli.ts:1675 does not end on an unterminated string.
- JsonMeaning.CanonicalDecides: trees with a key `__num`, which the printer takes for a number node, or `__proto__`, which JavaScript objects treat specially, are not covered.
- Handoff.Safety: two processes that read and rewrite one marker at the same time can lose an update in the code; here each rewrite is one step.
- Sorting: `Array.prototype.sort` is modelled by a stable insertion sort.
- BackendCancellationRegistry, ConcurrencyGate, policy tables, NAT and tunnel code, the CLI and the Python qualification scripts.
