# Osprey: verified models of the stateful cores

This project models the parts of Osprey whose guarantees span several functions and a whole run: the
encrypted channel and its push-driven twin, live-session revocation, the pin store, pairing, the session
protocol with its metrics stream, the metrics history that reaches the phone's chart, the relay's
multi-tenant store and its limiters, and the timed supervisors. Every lemma and every method is checked by
Dafny 4.11; `dafny verify dfyconfig.toml` checks the whole project. Nothing here was executed.

## How to read it

| file | component |
|---|---|
| `NoiseFraming`, `NoiseSession`, `NoiseChannel` | length-prefix framing, chunking, `NoiseSession::send`/`recv`; integrity, truncation and round trip of the channel |
| `PushTransport`, `PushAgreement` | the FFI's non-blocking handshake and transport; agreement with the sent sequence over every run |
| `SessionRegistry`, `LiveSessions` | the registry of live sockets; sessions, store writers and the watcher in every interleaving |
| `AuditLog` | the security log that pairing and revocation write to |
| `Identity`, `HostState`, `PinStore` | cross-signed pins, the state file, the store over every history |
| `Revocation`, `RevocationRuns`, `RevocationReplay` | verifying and applying a `pair.revoke`; single use over runs with crashes; exactly when a body is accepted again |
| `PairingFlow`, `PairingRuns` | one pairing attempt; the life of one offer |
| `SessionDispatch`, `SessionTrace` | answering envelopes and pushing ticks; what the peer sees over a run |
| `MetricsRing`, `MetricsEngine`, `MetricsWire`, `MetricsEndToEnd` | history, grid storage, wire bodies, the time error of the phone's chart |
| `RelayStore`, `RelayRuns`, `RelayIsolation`, `RelayLedger` | the relay's transactions, their invariants over runs, tenancy, what the audit log accounts for |
| `TokenRedemption`, `RedemptionRaces`, `RedemptionRefinement` | redemption and device revocation statement by statement under row locks; exactly when the two miss each other; their refinement of the whole transactions |
| `IssueRaces`, `QuotaRaces` | issues and quota checks statement by statement; exactly when the hourly rate and the device quota are kept, and by how much overlap exceeds them |
| `RateLimiter` | the fixed-window limiter |
| `RelayLink`, `RelaySupervisor`, `HelperSupervisor` | keepalive, jittered backoff, crash-loop pacing |

Code that works by changing things step by step is a class or a method with loops, proved against a
specification function; the lemmas are about those functions and about runs of them. Concurrent protocols are
labelled transition systems: a `Step`, when it is enabled, and the state it leads to. Integers are unbounded
and every width that matters is written out (`i64` saturation, the `u64` narrowing of a delay). Cryptography
is a parameter: `Cipher` and `Crypto` hold the functions, and the laws a lemma needs are its preconditions
(a 16-byte tag, what was sealed opens, nothing else opens, fingerprints do not collide). `LawsAreConsistent`
shows the channel's laws can be met.

## Hypotheses

- Revocation: `SingleUse` is proved for runs in which `now_ms` does not decrease in the order requests take the
  write lock, and in which no other process writes back a state file it loaded before a revocation. The exact
  conditions are proved too. For one body, whatever the clocks, single use holds when no request for it takes
  the lock after an acceptance past its window (`SingleUseOf`), and a fresh request is accepted again if and
  only if such an acceptance has pruned it (`AcceptedAgainExactlyWhen`); a stale file readmits exactly the
  bodies whose nonces it lacks (`StaleFileReadmitsExactly`). `ClocksOutOfLockOrderAdmitReplay` and
  `StaleSavesAdmitReplay` are such runs. The first exists because `apply` reads the clock before it takes the
  lock.
- Live sessions: a socket shutdown succeeds. `WatcherCycleIsFinal` says what a watcher cycle does to each entry
  with no further hypothesis; `WatcherCycleRevokes` adds that the identity is not pinned again, and
  `ServesOnlyRepinned` that only pinning again can undo it.
- Channel: integrity holds up to the first error only, where both callers stop.
- Relay: new ids are fresh, a device account has a quota of at least one device (the configuration accepts only
  positive numbers), and only an agent is let through to issue a token. The invariants of
  `RelayRuns` and `RelayLedger` take whole transactions as atomic. What the live pairings, the device quota and the
  hourly rate lose at statement granularity, under read committed, is proved exactly. A live pairing has a dead agent
  if and only if a revocation of the agent swept the pairings before the redemption's commit and committed after its
  agent check (`DeadAgentExactlyWhen`); its client is always live (`ClientsAreAlwaysLive`). With at most m redemptions
  of an account past the quota check at once, its quota is exceeded by up to m - 1 devices and no more
  (`QuotaIsKeptExactlyTo`). With at most m of its issues in flight at once, its rate is exceeded by up to m - 1 tokens
  and no more, over an hour less the lag between stamp and count (`BoundHoldsExactlyWhen`).
- Limiters and timers: clocks do not go back, except where a lemma says otherwise. The hourly issue bound needs
  no monotone clock, but it compares two clocks: the database stamps the row when the transaction begins, and the
  relay's clock opens the counting window later in it.

## What a reader of the code may not expect

- A full subscriber queue drops the new sample. The comments of the engine speak of losing the oldest ticks.
- The catch-up loop of the grid does not end for a timestamp equal to the largest `i64`, and ends for every other
  (`CatchUpEndsBelowMax`).
- A token quota of N an hour does not bound every hour by N. The count is taken after the stamp, by another clock,
  and an issue does not wait for the ones it overlaps: two can both count before either commits. Every hour is sure to
  be kept if and only if no count comes later than its stamp and no two issues of the account overlap
  (`EveryHourIsKeptExactlyWhen`). With counts at most d after their stamps and m issues in flight the bound is
  N + m - 1, for intervals up to an hour less d and no longer ones (`BoundHoldsExactlyWhen`). The device quota gives
  way to overlap in the same manner (`QuotaIsKeptExactlyTo`).
- The comment on `deliver` places sample N within one sampler period of its grid point. From the start of the
  service the chart's time error is below the largest gap between readings, for every gap up to the ring interval
  of 30 s; the bound fails for every gap above it, up to the longest step a run may take
  (`BoundFailsAboveTheInterval`). After a sleep or an outage the first sample can sit anywhere in its grid cell, and
  a charted time can be late by up to 15 s more (`ChartIsTimely`, `GapBoundIsReached`).
- A silent link is found dead by a deadline that grows with twice the gap between polls, and a keepalive ping whose
  send blocks puts it off by as long as the send took, up to that gap; the deadline is reached (`SilenceIsReported`,
  `TheDeadlineIsReached`).
- The helper supervisor reports a session without a helper in it exactly after a failed liveness check, until the
  next start (`StaleSessionExactlyWhen`, `SessionOutlivesAFailedCheck`), and a console switch during a retry
  delay does not shorten it (`NextStartWaits`).
- A pairing that confirms but cannot be acknowledged or audited is refused, and still spends the offer
  (`OfferIsSingleUse`).
- A version-mismatched `bye` is answered with an error and does not end the session
  (`EveryEnvelopeAnsweredOnce`).

## Model

| member | source | states |
|---|---|---|
| NoiseFraming.ReadExactOrEof | agent/osprey-core/src/noise/framing.rs:87-101 | whatever short or interrupted reads the stream gives, exactly the wanted prefix is consumed, cut only by end of file |
| NoiseFraming.ReadFrame | agent/osprey-core/src/noise/framing.rs:68-85 | reading from any stream agrees with the frame the stream's bytes hold: a frame, a clean end, or the exact error |
| NoiseFraming.FrameRoundTrip | agent/osprey-core/src/noise/framing.rs:51-85 | a written frame is read back whole and leaves the bytes after it |
| NoiseFraming.FrameCut | agent/osprey-core/src/noise/framing.rs:68-85 | a frame cut anywhere inside is an error, never a shorter frame or a clean end |
| NoiseFraming.SplitIntoChunks | agent/osprey-core/src/noise/framing.rs:103-124 | every payload becomes chunks that each fit one Noise message, of which the last alone is flagged final, and whose bodies put together are the payload |
| NoiseFraming.HeaderIsExact | agent/osprey-core/src/noise/framing.rs:126-133 | a chunk is accepted if and only if it is one of the two known flags followed by its body |
| NoiseFraming.ChunkContinues | agent/osprey-core/src/noise/framing.rs:103-133 | reading the chunks back in order rebuilds the payload slice by slice and ends on the last one |
| NoiseSession.LawsAreConsistent | agent/osprey-core/src/noise/session.rs:57-115 | for any sent sequence some cipher meets the laws the channel lemmas assume |
| NoiseSession.RecvTurn | agent/osprey-core/src/noise/session.rs:86-114 | one turn of reassembly: the byte cap and the chunk ceiling are kept, and the nonce advances only past a frame that opened |
| NoiseSession.RecvFrom | agent/osprey-core/src/noise/session.rs:51-115 | however long the stream, a call reads at most one frame past the ceiling and returns at most the permitted size |
| NoiseSession.Session.Send | agent/osprey-core/src/noise/session.rs:57-70 | on success the message's chunks are written, sealed under consecutive nonces; if the writer breaks, an error, a prefix of them and their nonces spent |
| NoiseSession.Session.Recv | agent/osprey-core/src/noise/session.rs:81-115 | the loop, over any reader behaviour, leaves the result, nonce and stream that reassembly of the bytes defines |
| NoiseChannel.Integrity | agent/osprey-core/src/noise/session.rs:81-115 | of any delivered stream the messages before the first error are a prefix of those sent, and reading ends cleanly if and only if the stream is the sender's own up to a message's end |
| NoiseChannel.RecvIsFaithful | agent/osprey-core/src/noise/session.rs:81-115 | inside any message, any stream yields an error or that very message out of exactly the sender's frames |
| NoiseChannel.RecvBeyondTheEnd | agent/osprey-core/src/noise/session.rs:81-115 | after the last sent message nothing is accepted |
| NoiseChannel.RoundTrip | agent/osprey-core/src/noise/session.rs:57-115 | everything up to the first message over the cap comes back unchanged; then a clean end, or `MessageTooLarge` and never `TooManyChunks` |
| NoiseChannel.CutShort | agent/osprey-core/src/noise/session.rs:81-115 | a cut stream delivers exactly the messages wholly before the cut, and ends cleanly if and only if the cut falls between two |
| NoiseChannel.RecvAllBounded | agent/osprey-core/src/noise/session.rs:44-115 | nothing longer than the cap is ever returned, from any bytes |
| NoiseChannel.SendExtendsTheWire | agent/osprey-core/src/noise/session.rs:57-75 | the output of successive sends is the stream the channel lemmas speak of |
| PushTransport.IncompleteIsSmall | agent/osprey-ffi/src/framing.rs:42-50 | a buffer without a complete frame is at most one byte short of the largest frame |
| PushTransport.SafePush | agent/osprey-ffi/src/framing.rs:25-82 | 65538 bytes is the largest push that can never overflow for a caller that drains first, exactly |
| PushTransport.NoiseTransport.PushBytes | agent/osprey-ffi/src/session.rs:98-104 | a push appends whole or changes nothing, and a failed session refuses it |
| PushTransport.NoiseTransport.NextMessage | agent/osprey-ffi/src/session.rs:108-165 | one complete frame is consumed and delivered, or the session latches failure, or more bytes are asked for |
| PushTransport.NoiseHandshake.ReadMessage | agent/osprey-ffi/src/handshake.rs:101-115 | one complete handshake frame is taken and later bytes stay buffered |
| PushTransport.NoiseHandshake.IntoTransport | agent/osprey-ffi/src/handshake.rs:129-147 | bytes left over at promotion move to the transport, none lost and none repeated |
| PushAgreement.EveryRunTracks | agent/osprey-ffi/src/session.rs:98-165 | whatever is pushed, in whatever pieces, only sent messages come out, in order, and the buffer stays bounded |
| PushAgreement.FailureIsForEver | agent/osprey-ffi/src/session.rs:152-165 | from the first failure on nothing is delivered and nothing changes |
| PushAgreement.EveryRunHealthy | agent/osprey-ffi/src/session.rs:98-165 | while the pushes are a prefix of the honest wire, what is consumed, buffered and delivered account for it exactly |
| PushAgreement.PushesDeliver | agent/osprey-ffi/src/handshake.rs:82-147 | for any split of the wire between handshake and transport nothing fails, and once all is pushed and drained exactly the sent messages were delivered |
| PushAgreement.OverlongLatches | agent/osprey-ffi/src/session.rs:129-165 | the first non-final chunk is refused and latches failure |
| PushAgreement.DrainedPushFits | agent/osprey-ffi/src/framing.rs:74-82 | a caller that drains to `None` before each push of at most 65538 bytes is never refused |
| SessionRegistry.Registry.Register | agent/osprey-svc/src/registry.rs:70-77 | a new entry under a fresh id, every other entry kept |
| SessionRegistry.Registry.ShutdownMatching | agent/osprey-svc/src/registry.rs:103-121 | exactly the matching entries' sockets are closed, and no entry is dropped |
| SessionRegistry.Registry.RetainPinned | agent/osprey-svc/src/registry.rs:90-97 | exactly the sessions whose peer is no longer pinned are closed |
| SessionRegistry.Registry.RevokeIdentity | agent/osprey-svc/src/registry.rs:85-88 | exactly that identity's sessions are closed |
| SessionRegistry.Registry.Remove | agent/osprey-svc/src/registry.rs:123-125 | dropping a handle takes its own entry and no other |
| LiveSessions.AlwaysVisible | agent/osprey-svc/src/commands/run.rs:254-289 | in every reachable state each thread past registration has its entry in the registry table |
| LiveSessions.ServingWasRegisteredFirst | agent/osprey-svc/src/commands/run.rs:254-289 | every serving thread was registered at an earlier step than the re-read that found its pin, and has been in the table since |
| LiveSessions.WatcherCycleIsFinal | agent/osprey-svc/src/registry.rs:90-163 | an entry stays open across a watcher's close if and only if it was open and the read found its peer pinned; otherwise it is shut or gone in every later state, re-pinned or not |
| LiveSessions.ServesOnlyRepinned | agent/osprey-svc/src/commands/run.rs:254-289 | whoever serves a peer openly after a cycle that did not find it pinned has found it pinned again since the read |
| LiveSessions.WatcherCycleRevokes | agent/osprey-svc/src/registry.rs:140-163 | once a watcher cycle whose read follows a pin's removal has closed, no session of that peer serves on an open socket, in any interleaving |
| LiveSessions.HangingUpRevokes | agent/osprey-svc/src/revoke.rs:164-166 | hanging up on an identity whose pin is gone holds from that step on, without the watcher |
| LiveSessions.RepinnedBetweenReadsSurvives | agent/osprey-svc/src/registry.rs:140-163 | a run in which a pin removed and restored between two reads leaves the old session serving |
| Identity.CrossSigMessageInjective | agent/osprey-core/src/identity.rs:56-66 | under one key length the signed message determines both keys |
| Identity.PinPeer | agent/osprey-core/src/identity.rs:187-196 | what is pinned is what was presented, and it verifies |
| Identity.AcceptStatic | agent/osprey-core/src/identity.rs:219-236 | a rotated static is accepted if and only if the pinned identity signed it |
| Identity.HexPrefixIsEquality | agent/osprey-svc/src/state.rs:140-147 | a full-length fingerprint prefix matches that fingerprint alone |
| HostState.ParseState | agent/osprey-svc/src/state.rs:180-210 | a file loads if and only if its version is current and every pin verifies, and loads unchanged |
| HostState.Disk.Replace | agent/osprey-svc/src/state.rs:355-385 | after a save the disk holds the new state, or the old one with an error |
| HostState.HostState.AddPeer | agent/osprey-svc/src/state.rs:295-304 | the new pin replaces any of the same identity and is last; memory and disk agree when it succeeds |
| HostState.HostState.ConsumeRevocationNonce | agent/osprey-svc/src/state.rs:310-338 | a seen nonce changes nothing; a new one is recorded, with only expired ones pruned |
| HostState.HostState.RemovePeers | agent/osprey-svc/src/state.rs:341-351 | exactly the selected pins go, the rest keep their order |
| PinStore.StoreIsTrustworthy | agent/osprey-svc/src/state.rs:295-351 | over every history from an empty store identities are distinct, and each held pin is the last added for its identity and verifies |
| PinStore.ReloadIsIdentity | agent/osprey-svc/src/state.rs:180-222 | saving and loading never loses, refuses or changes a pin the store holds |
| PinStore.RotationOutcome | agent/osprey-core/src/identity.rs:219-236 | a refused rotation changes nothing; an accepted one replaces that record and touches no other identity |
| PinStore.FullFingerprintRemovesOne | agent/osprey-svc/src/state.rs:341-351 | removal by full fingerprint deletes exactly that pin and keeps the others in order |
| Revocation.SigningBytesInjective | agent/osprey-core/src/pairing/revoke.rs:87-110 | no two distinct revocations produce the same signed message |
| Revocation.FreshIsExact | agent/osprey-core/src/pairing/revoke.rs:133-178 | saturating arithmetic never changes the freshness verdict |
| Revocation.VerifyRevocation | agent/osprey-core/src/pairing/revoke.rs:133-178 | accepted if and only if nonce length, issuer, target, freshness and signature all hold |
| Revocation.RevocationHandler.Apply | agent/osprey-svc/src/revoke.rs:123-162 | a rejected request leaves disk and log alone; otherwise the locked half decides, and an applied one leaves at most one audit record |
| Revocation.RevocationHandler.RemovePin | agent/osprey-svc/src/revoke.rs:168-211 | whatever its writes do, the disk holds the old file, the file with the nonce, or that file without the pin; the result says which, and whether the unpairing was recorded |
| Revocation.RevocationHandler.ClosePeerSessions | agent/osprey-svc/src/revoke.rs:164-166 | exactly that identity's sessions are shut |
| RevocationRuns.SpentIsRefused | agent/osprey-svc/src/state.rs:310-338 | a spent body fails the freshness check or the nonce check, pruning included |
| RevocationRuns.SingleUse | agent/osprey-svc/src/revoke.rs:123-211 | over every run with crashes and reloads, clocks in lock order and no stale save, no revocation body is accepted twice |
| RevocationReplay.OnRecordExactlyWhen | agent/osprey-svc/src/state.rs:310-338 | from its last acceptance a body stays on disk exactly until an acceptance past its window |
| RevocationReplay.AcceptedAgainExactlyWhen | agent/osprey-svc/src/state.rs:310-338 | a still fresh body is accepted again if and only if an acceptance in between was past its window and its nonce is not on record for another body |
| RevocationReplay.SingleUseOf | agent/osprey-svc/src/revoke.rs:123-211 | whatever the order of the clocks, a body is accepted at most once if no request for it takes the lock after an acceptance past its window |
| RevocationReplay.OrderedClocksComeInTime | agent/osprey-svc/src/revoke.rs:129-154 | clocks in lock order leave no such late request, for any body |
| RevocationReplay.StaleFileReadmitsExactly | agent/osprey-svc/src/state.rs:355-385 | a file written back by another process readmits exactly the bodies whose nonces it lacks |
| RevocationReplay.MethodIsItsSteps | agent/osprey-svc/src/revoke.rs:168-211 | whatever the locked method does to the disk, the transition system's steps do, with the same result |
| RevocationRuns.NonceBeforePin | agent/osprey-svc/src/revoke.rs:168-211 | no crash point leaves a pin removed whose revocation's nonce is not on disk |
| RevocationRuns.ClocksOutOfLockOrderAdmitReplay | agent/osprey-svc/src/revoke.rs:129-154 | a run with clocks out of lock order accepts one body twice |
| RevocationRuns.StaleSavesAdmitReplay | agent/osprey-svc/src/state.rs:355-385 | a run in which another process saves an old file accepts one body twice |
| PairingFlow.PinFromHandshake | agent/osprey-core/src/pairing/flow.rs:99-112 | a pin returned verifies and carries the static the handshake authenticated |
| PairingFlow.Respond | agent/osprey-core/src/pairing/flow.rs:127-136 | one call leaves the offer, the result and at most one audit record as the verdict on its inputs says |
| PairingFlow.RespondInner | agent/osprey-core/src/pairing/flow.rs:138-194 | the verdict, with the offer consumed only after the confirmation decrypted |
| PairingRuns.SpentByAConfirmation | agent/osprey-core/src/pairing/secret.rs:85-118 | an offer is spent if and only if some call confirmed while it was unconsumed and unexpired |
| PairingRuns.SucceedsExactlyWhen | agent/osprey-core/src/pairing/flow.rs:60-194 | a call succeeds if and only if it confirmed, its acceptance went out and its record was written; its pin verifies and equals the handshake static |
| PairingRuns.OfferIsSingleUse | agent/osprey-core/src/pairing/flow.rs:138-194 | after a confirmation every later call is refused as a replay |
| PairingRuns.AtMostOneSuccess | agent/osprey-core/src/pairing/flow.rs:127-194 | over any calls on one offer at most one succeeds |
| PairingRuns.OneRecordACall | agent/osprey-core/src/pairing/flow.rs:60-92 | while log writes succeed each call leaves one record, a success exactly for the call that succeeded |
| PairingRuns.OnlyAHolderConfirms | agent/osprey-core/src/pairing/flow.rs:138-194 | under the ideal cipher an offer is spent only when the holder of the session's keys sent the confirmation first |
| SessionDispatch.Runtime.PushTicks | agent/osprey-svc/src/session.rs:264-286 | every queued sample is sent, oldest first, under the open stream's id, and the queue is left empty |
| SessionDispatch.Runtime.HandleSubscribe | agent/osprey-svc/src/session.rs:407-439 | the reply is the body of the ring's history for the seconds asked, and the session is left with one new stream or none |
| SessionDispatch.Runtime.HandleRevoke | agent/osprey-svc/src/session.rs:446-508 | the reply, the disk, the log and the end follow from what the request came to; applied, every session of the peer is shut |
| SessionDispatch.Runtime.Dispatch | agent/osprey-svc/src/session.rs:296-399 | the frames written, the stream and the end follow from the envelope; a revocation's verdict is the one its checks and the stored state give, store, log and registry change for nothing else, and a session ends as revoked only when one was applied |
| SessionTrace.EveryEnvelopeAnsweredOnce | agent/osprey-svc/src/session.rs:159-508 | over every run the replies are, in order, one for each envelope received other than `bye`: the one frame with its id whose answer its version, body and outcome warrant |
| SessionTrace.PingsAreCounted | agent/osprey-svc/src/session.rs:316-345 | the reported count of answered pings is the number of pongs sent |
| SessionTrace.OpenStreamIsLatest | agent/osprey-svc/src/session.rs:407-439 | the open stream is the one the latest well-formed subscribe asked for, and there is none if it asked for none |
| SessionTrace.TickNamesItsSubscribe | agent/osprey-svc/src/session.rs:264-286 | every pushed tick carries the id of the latest well-formed subscribe, which asked to stream |
| SessionTrace.TicksAreASubsequence | agent/osprey-svc/src/metrics/engine.rs:215-231 | the ticks of a subscription are an in-order part of the samples delivered since it opened |
| SessionTrace.NothingLostWhileKeepingUp | agent/osprey-svc/src/metrics/engine.rs:215-231 | no sample of a subscription is lost if and only if at most four came between two pushes |
| MetricsRing.RunIsLongest | agent/osprey-svc/src/metrics/ring.rs:99-122 | the scan starts at the earliest place from which the ring is inside the horizon and free of gaps |
| MetricsRing.HistoryShape | agent/osprey-svc/src/metrics/ring.rs:99-136 | there is a history exactly when something recent is asked for and held; at most 512 points, strictly increasing, spaced within 15 to 45 s a place, ending fewer than `factor` places from the newest |
| MetricsRing.RingBuffer.Push | agent/osprey-svc/src/metrics/ring.rs:80-85 | the ring holds the newest samples up to its capacity, in order |
| MetricsRing.RingBuffer.History | agent/osprey-svc/src/metrics/ring.rs:99-136 | the reverse scan and the decimation return the specified history |
| MetricsEngine.NextDueIsLeast | agent/osprey-svc/src/metrics/engine.rs:247-257 | the next due time is the least grid point after the sample, or saturates |
| MetricsEngine.CatchUp | agent/osprey-svc/src/metrics/engine.rs:251-256 | the catch-up loop lands on that point |
| MetricsEngine.CatchUpEndsBelowMax | agent/osprey-svc/src/metrics/engine.rs:251-256 | the loop ends for exactly the timestamps below the largest `i64` |
| MetricsEngine.GridStorage | agent/osprey-svc/src/metrics/engine.rs:242-260 | for any samples, even with the clock going back, stored times strictly increase and no two share a grid cell |
| MetricsEngine.Engine.Deliver | agent/osprey-svc/src/metrics/engine.rs:215-261 | each live subscriber's queue gets the sample unless full, dead ones go, and the sample is stored when due; required only that the catch-up loop is not entered where it cannot end |
| MetricsEngine.Engine.Subscribe | agent/osprey-svc/src/metrics/engine.rs:95-105 | a fresh empty queue joins the others |
| MetricsWire.MakeTick | agent/osprey-svc/src/metrics/wire.rs:16-42 | the parallel arrays give the phone back the sample's volumes exactly |
| MetricsWire.MakeHistory | agent/osprey-svc/src/metrics/wire.rs:48-106 | the arrays are parallel and carry the samples up to the first with an unknown rate |
| MetricsEndToEnd.StoreInStep | agent/osprey-svc/src/metrics/engine.rs:242-260 | whatever came before, from the first sample after a gap readings at most P apart fill every grid cell, each after the first less than P late; readings with unknown rates change nothing |
| MetricsEndToEnd.HistoryIsTimely | agent/osprey-svc/src/metrics/ring.rs:99-136 | each history point is less than P early and less than P late, or after a gap 15 s + min(P, 15 s) late, for its index, after eviction, scan and decimation |
| MetricsEndToEnd.ChartIsTimely | ios/Osprey/Osprey/Metrics/MetricSample.swift:83-95 | from the start or after any gap, the body is never truncated, and the phone shows each sample's values at a time within those bounds of its own, for every P up to 30 s |
| MetricsEndToEnd.GapBoundIsReached | agent/osprey-svc/src/metrics/engine.rs:247-257 | for every P up to 30 s there is a gap after which a charted time is late by a millisecond less than the bound |
| MetricsEndToEnd.BoundFailsAboveTheInterval | agent/osprey-svc/src/metrics/engine.rs:242-260 | for every gap from 30.001 to 45 s, readings no further apart whose charted time is wrong by the whole gap |
| RelayStore.Find | relay/src/repo/pairingTokens.ts:163-168 | the account's row with a routing id, or none when no row matches |
| RelayStore.Repo.Enroll | relay/src/repo/accounts.ts:42-83 | account, quota, agent device and two audit rows in one transaction |
| RelayStore.Repo.Issue | relay/src/repo/pairingTokens.ts:45-109 | a token stamped by the database's clock and its audit row, a rate refusal by the relay's clock audited, or nothing at all when the routing id is taken |
| RelayStore.Repo.Redeem | relay/src/repo/pairingTokens.ts:134-246 | the claim, the agent and quota checks and the inserts, statement by statement, are the transaction's effect |
| RelayStore.Repo.RevokeDevice | relay/src/repo/devices.ts:79-111 | a device and its live pairings are revoked together, or nothing is written |
| RelayStore.Repo.RevokePairing | relay/src/repo/pairings.ts:35-69 | a participant revokes a live pairing, and anyone else writes nothing |
| IssueRaces.OverlapAddsTheOthers | relay/src/repo/pairingTokens.ts:45-84 | in every interleaving of the statements with at most m issues of an account in flight, no interval of an hour less d holds more than `perHour` + m - 1 of its tokens |
| IssueRaces.BoundHoldsExactlyWhen | relay/src/repo/pairingTokens.ts:53-76 | that bound is reached, and holds for an interval length if and only if it is at most an hour less d |
| IssueRaces.EveryHourIsKeptExactlyWhen | relay/src/repo/pairingTokens.ts:45-84 | no hour ever holds more than `perHour` of an account's tokens if and only if counts come no later than stamps and issues do not overlap |
| IssueRaces.TransactionsAreARun | relay/src/repo/pairingTokens.ts:45-84 | any run of the relay's whole transactions is, for each account, such an interleaving with one issue in flight at a time |
| IssueRaces.HourlyRate | relay/src/repo/pairingTokens.ts:45-84 | so over every run of whole transactions no interval of an hour less d holds more than `perHour` of an account's tokens |
| IssueRaces.AloneIsAtomic | relay/src/repo/pairingTokens.ts:45-84 | run without interleaving, an issue's statements commit exactly the tokens of the atomic transaction |
| RelayRuns.PairKeepsSound | relay/src/repo/pairingTokens.ts:183-246 | a redemption keeps the quota, the devices of pairings live and the rest of the invariant |
| RelayRuns.RevokeDeviceKeepsSound | relay/src/repo/devices.ts:79-111 | revoking a device leaves no live pairing of it |
| RelayRuns.StepKeepsSound | relay/src/repo/pairingTokens.ts:45-246 | each transaction keeps unique routing ids, device quotas, token ownership and live pairings |
| RelayRuns.AlwaysSound | relay/src/repo/accounts.ts:42-83 | all of them hold after every run from the empty tables |
| RelayRuns.RelayingJoinsLiveDevices | relay/src/repo/pairings.ts:10-28 | relaying is authorised only between a live agent and a live client of the account, in both directions alike, and revoking either ends it |
| RelayIsolation.OthersUntouched | relay/src/repo/pairingTokens.ts:45-246 | a step for one account changes no row another account can see |
| RelayIsolation.OwnRowsDecide | relay/src/repo/pairingTokens.ts:45-246 | an account's next rows depend on its own rows alone, unless its routing id collides |
| RelayIsolation.TenantRunsAlone | relay/src/repo/pairingTokens.ts:45-246 | however tenants interleave, each account's rows are those of a relay it has to itself |
| RelayIsolation.RedeemWritesOnAMatch | relay/src/repo/pairingTokens.ts:111-181 | a redemption writes if and only if its routing id matches a row of the account |
| RelayIsolation.UsedNeverReverts | relay/src/repo/pairingTokens.ts:134-150 | over every run a token row stays, and only ever goes from unused to used |
| RelayLedger.StepBalances | relay/src/repo/pairingTokens.ts:45-246 | each transaction enters in the audit log exactly what it does to the account's rows |
| RelayLedger.AuditAccountsForEveryRow | relay/src/repo/pairingTokens.ts:45-246 | over every run a success is logged for each pairing, an issue for each token, a revocation for each revoked device, and for each spent token a success or a refusal that came after the claim |
| RelayLedger.PairingsPinTheirDevices | relay/src/repo/pairingTokens.ts:217-237 | over every run a pairing row carries the statics of the two devices it names, each on its own side |
| RelayLedger.TokenLivesItsTtl | relay/src/repo/pairingTokens.ts:69-150 | an issued token can be claimed until its time to live is over and not from then on, and never after a claim |
| TokenRedemption.StepKeepsSafe | relay/src/repo/pairingTokens.ts:134-246 | every statement keeps locks, claims and committed pairings consistent |
| TokenRedemption.SingleRedemption | relay/src/repo/pairingTokens.ts:134-246 | in every interleaving a token yields at most one committed pairing, of its own account and agent |
| TokenRedemption.SpentForEver | relay/src/repo/pairingTokens.ts:134-246 | a committed `used` never reverts, and a token spent by a refusal never yields a pairing |
| TokenRedemption.LoserMisses | relay/src/repo/pairingTokens.ts:111-150 | while one redemption holds the row another cannot claim it; after a commit it misses, after a rollback it can |
| QuotaRaces.QuotaIsKeptExactlyTo | relay/src/repo/pairingTokens.ts:196-211 | with at most m redemptions of an account past the quota check at once, its live devices never exceed n in any run if and only if n is at least the quota + m - 1, for every quota of two or more |
| RedemptionRaces.DeadAgentExactlyWhen | relay/src/repo/devices.ts:79-111 | in every run a live pairing's agent is dead if and only if some revocation of it swept before that redemption's commit and committed after its agent check |
| RedemptionRaces.BrokenExactlyWhen | relay/src/repo/pairingTokens.ts:183-246 | in every run a step makes a live pairing's agent dead if and only if it commits a redemption whose agent is revoked by then, or a revocation whose sweep missed a live pairing of its device |
| RedemptionRaces.LiveWhileApart | relay/src/repo/devices.ts:79-111 | while no redemption that has found its agent live is open together with a revocation of it that has swept, every live pairing has a live agent |
| RedemptionRaces.ClientsAreAlwaysLive | relay/src/repo/pairingTokens.ts:217-237 | in every run a live pairing's client is a live device of its account |
| RedemptionRaces.BothOrdersHappen | relay/src/repo/devices.ts:85-108 | two runs that leave a live pairing of a revoked agent: a revocation inside a redemption, and a redemption inside a revocation |
| RedemptionRaces.EveryRunPairs | relay/src/repo/pairingTokens.ts:134-246 | whatever a run leaves, a live pairing joins a live client to an agent that is live unless a revocation overlapped the redemption so |
| RedemptionRefinement.AloneIsAtomic | relay/src/repo/pairingTokens.ts:134-246 | run without interleaving, the statements commit exactly the rows of the atomic transaction |
| RedemptionRefinement.RevocationAloneIsAtomic | relay/src/repo/devices.ts:79-111 | and so do a device revocation's |
| RateLimiter.FixedWindowLimiter.EvictExpired | relay/src/http/rateLimit.ts:29-33 | exactly the expired windows go |
| RateLimiter.FixedWindowLimiter.Consume | relay/src/http/rateLimit.ts:36-46 | the windows and the answer after spending one unit |
| RateLimiter.FixedWindowLimiter.Check | relay/src/http/rateLimit.ts:47-52 | the answer is what `consume` would give, and nothing is spent |
| RateLimiter.EvictionIsUnobservable | relay/src/http/rateLimit.ts:29-46 | no sequence of calls can tell the limiter from one that never evicts |
| RateLimiter.AtMostTheLimitPerWindow | relay/src/http/rateLimit.ts:36-46 | from the call that opens a window until it closes a key is granted at most the limit |
| RateLimiter.AtMostTwiceTheLimit | relay/src/http/rateLimit.ts:26-57 | no interval of one window's length, both ends included, grants more than twice the limit |
| RateLimiter.TwiceTheLimitIsReached | relay/src/http/rateLimit.ts:26-57 | that bound is reached, for every limit and window |
| RelayLink.RelayLink.TickKeepalive | agent/osprey-svc/src/relay/link.rs:272-287 | a ping is sent when due and none is outstanding; an overdue one fails the link |
| RelayLink.RelayLink.Poll | agent/osprey-svc/src/relay/link.rs:233-269 | the keepalive, then what the read brings |
| RelayLink.AwaitsItsPing | agent/osprey-svc/src/relay/link.rs:233-287 | a link awaits a pong if and only if it sent a ping and has read no pong since |
| RelayLink.TimesOutExactlyWhen | agent/osprey-svc/src/relay/link.rs:272-287 | the keepalive fails a link if and only if a poll starts 20 s or more after a ping no pong followed |
| RelayLink.SilenceIsReported | agent/osprey-svc/src/relay/link.rs:233-287 | polled at most D apart, a silent link is found dead by `last_ping` + 50 s + 2D less two milliseconds, plus the time its ping took to send up to D |
| RelayLink.TheDeadlineIsReached | agent/osprey-svc/src/relay/link.rs:233-287 | for every gap and every send that fits in it, a silent link found dead no sooner than that |
| RelaySupervisor.Backoff.NextDelay | agent/osprey-svc/src/relay/link.rs:145-168 | the jittered delay of the attempt, and the attempt counted |
| RelaySupervisor.WithinAQuarter | agent/osprey-svc/src/relay/link.rs:145-168 | for any clock noise the delay is within a quarter either side of the scaled one |
| RelaySupervisor.GrowsWhileDoubling | agent/osprey-svc/src/relay/link.rs:145-168 | while doubling stays under the cap each delay exceeds the one before, for any noise |
| RelaySupervisor.Supervise | agent/osprey-svc/src/relay/supervisor.rs:79-127 | turns are taken until a terminal close or a stop, with the specified wait after each, one attachment counted a link, and the flag down afterwards |
| RelaySupervisor.WaitsAreLongEnough | agent/osprey-svc/src/relay/supervisor.rs:79-127 | after k failures more in a row the wait is at least three quarters of 1 s doubled k times up to a minute, and never over 75 s |
| HelperSupervisor.Supervisor.Iterate | agent/osprey-svc/src/helper/supervisor.rs:71-160 | one turn: follow the session, notice an exit, start one if due |
| HelperSupervisor.Supervisor.Supervise | agent/osprey-svc/src/helper/supervisor.rs:65-174 | the loop is its turns in order, and leaves the flag down |
| HelperSupervisor.AlwaysTruthful | agent/osprey-svc/src/helper/supervisor.rs:65-174 | at every iteration `running` says exactly whether a child is held, and the session is then the child's |
| HelperSupervisor.StaleSessionExactlyWhen | agent/osprey-svc/src/helper/supervisor.rs:45-158 | a session is reported without a helper in it if and only if a liveness check failed on one and nothing was started since |
| HelperSupervisor.SessionOutlivesAFailedCheck | agent/osprey-svc/src/helper/supervisor.rs:125-131 | a run in which that happens |
| HelperSupervisor.DelayCountsFailures | agent/osprey-svc/src/helper/supervisor.rs:71-160 | the delay is 250 ms doubled once a failure since the last reset, up to 30 s |
| HelperSupervisor.NextStartWaits | agent/osprey-svc/src/helper/supervisor.rs:71-160 | after k failures since the last reset the next start comes at least min(250 · 2^k, 30 000) ms later |
| HelperSupervisor.RestartInTheSameTurnWaits | agent/osprey-svc/src/helper/supervisor.rs:96-160 | a turn that both sees an exit and starts again has waited as long |
| HelperSupervisor.CrashLoopIsThrottled | agent/osprey-svc/src/helper/supervisor.rs:65-174 | in a crash loop the start number k + 1 comes no earlier than the first k delays added up |

## Left out

- Cryptography: the Noise handshake tokens, key derivation, signatures and hashes are abstract functions; nonce exhaustion after 2^64 messages is not modelled.
- JSON encoding: envelopes and state files are values; a message whose envelope does not parse ends a session and is not an event of the trace.
- The `hello` exchange and its version negotiation, and the idle timeout: they only start a session or cut its run short.
- SessionDispatch.Handle: takes the verdict of a revocation and the body of a history as inputs, so that the trace lemmas hold for every one; `Dispatch` ties them to the store and the ring. The trace has successful writes only.
- PairingFlow.Attempt: takes the handshake's outcome as an input, because its tokens are not modelled.
- HelperSupervisor.CrashLoopIsThrottled: a liveness check that fails is excluded from a crash loop, because the code retries it without doubling; `NextStartWaits` covers it.
- RelayRuns.AlwaysSound: whole transactions are atomic, as said under the hypotheses; what overlap takes from it is stated by `RedemptionRaces` and `QuotaRaces`.
- IssueRaces.HourlyRate: whole transactions are atomic here; the lemmas above it are for overlapping issues.
- TokenRedemption.Step: the audit inserts of a redemption or a revocation are not steps of their own, and an insert refused by the unique index is a rollback.
- `lastSeenAt`, device listing, authentication by token hash, audit details and remote addresses: columns the invariants do not mention.
- The controller's half of pairing, QR payloads, routing ids and pairing secrets as values.
- `PeerSelector::parse`, hex and endpoint parsing: correct and easy.
- The accept loop's shutdown timing, mDNS, LAN binding, HTTP and WebSocket plumbing, migrations, row-level security as a database feature.
- Windows API calls: what a spawn, a liveness check or a console query answers is an input of a turn.
- Swift's arithmetic trap on overflow, and the chart's drawing.
- Sampling itself: the collector's readings are the inputs of the engine.
