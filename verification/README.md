# Verification of the validator operator's safety-critical code

Dafny models of the code in this repository that decides who may sign, which evidence is believed and
which findings pass, with proofs that it decides as intended, or of exactly when it does.
`dafny verify dfyconfig.toml` checks the whole project.

| files | what they model |
|---|---|
| `LeaseClient`, `LeaseCluster`, `LeaseExclusion`, `LeaseSkew`, `LeaseHistory`, `LeaseChain`, `LeaseBootstrap`, `LeaseExpiry`, `RenewalTiming` | the Lease protocol of the signing fence: any number of fences, one Lease, requests in flight, replies lost and patches applied late, one clock per fence |
| `FenceProxy`, `FenceProcess`, `FenceConnections`, `FenceTraffic`, `FenceLastChunk`, `FenceAuthority`, `FenceTimeliness`, `FenceRuns`, `LeaseProcesses` | the fence's process: the object behind one mutex, and every interleaving of its goroutines |
| `AuditReceipts`, `FenceLog` | the fence's one-line connection receipts, and the log of a run |
| `LayerImage`, `LayerSearch`, `LayerAgreement`, `SbomHydration`, `HydrationProperties` | hashes added to an SBOM from the layers of an image |
| `CanonicalJson`, `Attestation` | the comparison of attested and local evidence |
| `BufferedReading`, `LineFollower`, `RelayedLines`, `RelayedExactly`, `RelayOutput`, `RelayRuns`, `RelayedFile` | the Vault audit relay, from bytes appended to a file to lines of output |
| `ScanSummary`, `SeverityGates` | the scan summary and the two gates that read it |
| `Outcomes`, `Text`, `Numerals`, `JsonText`, `Order` | splitting and joining, numerals, JSON strings, sorting |

Objects that the source updates under a lock or in place are classes (`Proxy`, `LeaseApi`, `ConnectionAudit`,
`BufferedReader`, `Relay`, `SbomFile`), loops are loops, and each method is proved against a function of the old
state; what the source promises is proved of those functions, over every run. Goroutines are steps of a
transition function, one step per critical section or blocking call.

## What is assumed

- Nobody but the fences writes the Lease, and its duration does not change. Live fences have distinct holder
  ids. The API server never reuses a resource version and applies a patch whole or not at all (sections 4.6 and 5
  of RFC 6902). A patch may be applied any time after it was sent, also after its sender gave up. If the Lease names
  one of the fences at the start, its renewal time was written from that fence's clock, so does not lie ahead of it.
- A fence's clock never goes back, its wall and monotonic readings advance together, and any two clocks differ by
  at most the stated skew. A timer never fires early. The operating system enforces the deadline set on a
  connection. A restarted fence starts from the state of a new process.
- Instants are integers in nanoseconds, truncated to microseconds where the source does; no 64-bit arithmetic
  overflows, and the connection counter does not wrap.
- Python prints the non-integral doubles injectively, in the alphabet of JSON numbers. Characters are Unicode
  scalar values.

## What turned out different

- **Exclusion needs the margin.** No two fences are live together in any run exactly when, of any two fences that accept
  the Lease's duration, each one's safety margin is at least the clock skew plus 999 ns (`LeaseSkew.ExclusionExactly`). With
  less there is a run with two live fences.
- **Bootstrap needs the member.** The patch tests `holderIdentity`, so a Lease without that member stays as it is in every run
  and no fence ever has authority (`LeaseBootstrap.MissingMemberIsNeverAcquired`); a Lease that nobody holds can be acquired
  exactly when it has the member (`LeaseBootstrap.AcquirableExactly`). The template at
  `deploy/validator/runtime-template.yaml:229` has it, empty.
- **The first renewal is the tight one.** The duration check makes every renewal but the first timely. The first
  also needs one more request timeout and the delay of starting to listen (`RenewalTiming.FirstExactly`).
- **A tripped fence may still write one chunk.** `trip` closes the clients' sockets only. So something still reaches the signer
  on a tunnel exactly when a copying goroutine has a chunk in hand by then, the upstream is open and the tunnel's deadline ahead
  (`FenceLastChunk.DeliversAfterTripExactly`, `LeaseProcesses.TrippedFenceDeliversExactly`), and there is a run in which it does
  (`FenceLastChunk.ChunkAfterTrip`). It is at most that one chunk on each connection, and only before a deadline within the
  authority (`FenceTraffic.AfterTripOnlyTheChunkInHand`, `LeaseHistory.MovesAreWithinAuthority`).
- **Own expiry needs 999 ns of margin.** The own expiry of a holder that accepts the Lease's duration means that its authority is
  over exactly when its margin covers what truncation loses (`LeaseExpiry.ExpiryEndsAuthorityExactly`); that no patch of it lands
  again needs no margin at all.
- **Entries the layer search overlooks.** It compares names as strings after dropping one `./` and trailing slashes, so an entry
  spelled otherwise than it resolves, `/b` for `b`, is overlooked, a whiteout or not. A digest is right exactly when the name
  is no whiteout's and the last overlooked entry that concerns the file, if any, puts an empty file there
  (`LayerAgreement.DigestIsRightExactly`); a whiteout's name is found even though the image never holds it.
- **A second run may refuse what the first one wrote.** Hydrating a completed file changes nothing, unless the hashes added have
  made it longer than the 16 MiB that are read, and then it is refused (`HydrationProperties.SecondRunChangesNothing`).
- **The relay's file follower stops after one line.** `followFile` returns after the first line it hands on
  (`cmd/vault-audit-relay/main.go:121-132`: only an end of file continues the loop), and `tailFile` then closes the file and
  reopens it at its end, which the comment in that loop warns against. So the file's lines get through exactly when
  no opening sees more than one that fits (`RelayedLines.TailDeliversExactly`), and, however the file is read, exactly when each
  opening's first record to fit is a whole line and the last that fits (`RelayedExactly.TailDeliversLinesExactly`). A line met
  by an end of file before its newline loses its head, and its tail is taken for a line.

## Where the code's steps are

The rows below name the members whose contracts state properties. The functions they speak of model:

- `LeaseClient.DecodeLease`, `ValidDuration`, `Prepare`, `PatchFor`, `Conclude`: `cmd/validator-signing-fence/main.go:175-196`, `258-267`,
  `276-300`, `302-312`, `336-343`.
- `LeaseCluster.NextFetch` (GET), `NextSend` (clock reading and PATCH), `NextLand` and `NextAnswer` (the patch applied or refused, the
  reply), and the event of giving up: `cmd/validator-signing-fence/main.go:269-344`.
- `FenceProcess.NextAccept`, `NextTunnel`, `NextMove`, `NextTrip`, `NextRenew`, `NextWatchdog`: `cmd/validator-signing-fence/main.go:474-494`, `496-526`,
  `522-525`, `558-578`, `370-411` with `539-556`, `428-452`.
- `LayerSearch.Observe`, `Verdict`, `Search`: `scripts/ci/image_sbom_evidence.py:169-183`, `216-223`; `SbomHydration.Completed`: `196-223`;
  `Rewritten`: `188-231`.
- `FenceProxy.Proxy.CheckWatchdog`, `Healthy`: `cmd/validator-signing-fence/main.go:444-446`, `422-426`; `LeaseClient.BuildPatch`: `302-312`; what they
  compute is the subject of `WatchdogVerdict` and `PatchIsCompareAndSwap`.
- `CanonicalJson.Norm`, `Print`: `scripts/ci/ci_image_attestation.py:61-82`; `Attestation.Judge` and `JudgeRecord`: `167-183`.
- `LineFollower.Follow`, `Discard`, `RelayedLines.Tail`, `RelayRuns.Next`: `cmd/vault-audit-relay/main.go:109-134`, `115-117`, `86-107`, `148-179`.

## Model

| member | source | states |
|---|---|---|
| LeaseClient.PatchIsCompareAndSwap | cmd/validator-signing-fence/main.go:302-312 | the patch applies exactly when version and holder are still the snapshot's, and then changes holder and renewal time only |
| LeaseClient.PrepareExactly | cmd/validator-signing-fence/main.go:276-300 | exactly which snapshots a fence writes over: unheld, its own unexpired, another's expired, never with a time it cannot trust or too short a duration |
| LeaseClient.ConcludeExactly | cmd/validator-signing-fence/main.go:336-343 | exactly which replies give authority, and that the authority outlasts a polling interval and three requests |
| LeaseClient.LandedReplyGivesAuthority | cmd/validator-signing-fence/main.go:336-343 | the reply to a landed patch gives the deadline fixed by the reading taken before the patch was sent |
| LeaseClient.AcquireOrRenew | cmd/validator-signing-fence/main.go:269-344 | exactly which stored Leases are written over, what is written, which failure is reported otherwise, and that authority comes only with the reply, so that a lost reply is a failure that has written |
| LeaseClient.LeaseApi.Patch | cmd/validator-signing-fence/main.go:323-336 | a patch is applied whole and stamped with a new version, or refused with nothing changed |
| FenceProxy.ListeningIsWithinAuthority | cmd/validator-signing-fence/main.go:375-388 | listening starts exactly with authority ahead, and no connection may outlive that authority |
| FenceProxy.ConnectionDeadlineIsBounded | cmd/validator-signing-fence/main.go:528-537 | a tunnel's deadline is the earlier of the authority in force and its own age, and there is none once authority has lapsed |
| FenceProxy.Proxy.PinIdentity | cmd/validator-signing-fence/main.go:402-409 | accepts exactly the first identity and then the same one, takes UID and IP once, and changes nothing else |
| FenceProxy.Proxy.StartListening | cmd/validator-signing-fence/main.go:375-388 | refused when the authority has lapsed or the address cannot be bound; otherwise listening, with the connection age the smaller of the configured one and what the authority leaves |
| FenceProxy.Proxy.SetAuthorityDeadline | cmd/validator-signing-fence/main.go:428-433 | publishes a deadline under a fresh version and changes nothing else |
| FenceProxy.Proxy.AdmitSource | cmd/validator-signing-fence/main.go:454-472 | admits exactly the pinned client address while unfenced, pins the downstream address on first use, and changes nothing else |
| FenceProxy.Proxy.Register | cmd/validator-signing-fence/main.go:484-491 | a connection enters the map unless the proxy is fenced |
| FenceProxy.Proxy.Deregister | cmd/validator-signing-fence/main.go:497-500 | removes exactly that connection |
| FenceProxy.Proxy.TunnelDeadline | cmd/validator-signing-fence/main.go:528-537 | the deadline computed is the bounded one, valid exactly when it lies ahead |
| FenceProxy.Proxy.Trip | cmd/validator-signing-fence/main.go:558-570 | fences for good; the first caller alone gets every registered connection, each once |
| FenceConnections.ConnectionsKept | cmd/validator-signing-fence/main.go:474-526 | every step keeps the invariant that ties open connections, the map, their goroutines and the close loop together |
| FenceConnections.FencedIsFinal | cmd/validator-signing-fence/main.go:558-570 | over every continuation of a fenced process, fencing stays and the map only shrinks |
| FenceConnections.AfterTripConnectionsAreClosed | cmd/validator-signing-fence/main.go:571-577 | after the close loop every accepted connection is closed, about to be turned away, or was removed by its own goroutine with the upstream closed first; no tunnel has both sockets open |
| FenceTraffic.RunsKeepTraffic | cmd/validator-signing-fence/main.go:522-525 | in every run each copying goroutine holds at most the one chunk it has read and not written |
| FenceTraffic.AfterTripOnlyTheChunkInHand | cmd/validator-signing-fence/main.go:522-525 | from the end of the close loop on, over every continuation, no tunnel opens, a closed client is never read or written, and no more reaches the signer on a tunnel than the chunk in hand |
| FenceLastChunk.DeliversAfterTripExactly | cmd/validator-signing-fence/main.go:509-526 | after the close loop some continuation brings something more to the signer on a tunnel if and only if a chunk is in hand, the upstream open and the tunnel's deadline ahead |
| FenceLastChunk.ChunkAfterTrip | cmd/validator-signing-fence/main.go:522-577 | a run from start-up that ends with the close loop finished and the client closed, after which a chunk still reaches the signer |
| FenceConnections.FencedTurnsAway | cmd/validator-signing-fence/main.go:480-489 | in a fenced process the accept loop closes what it accepts and starts no tunnel |
| FenceConnections.TunnelDeadlineIsFixed | cmd/validator-signing-fence/main.go:509-521 | no later step, a renewal included, changes an open tunnel's deadline |
| FenceConnections.ReceiptsKept | cmd/validator-signing-fence/main.go:503-519 | every step keeps one receipt per reported connection, with distinct ids and results that match what happened |
| FenceConnections.RunsKeepConnections | cmd/validator-signing-fence/main.go:474-526 | the connection and receipt invariants hold after every run from start-up |
| FenceConnections.EveryConnectionHasOneReceipt | cmd/validator-signing-fence/main.go:503-519 | in every run each finished connection has exactly one receipt, ids never repeat, and it says closed exactly when the dial succeeded and expired exactly when there was no authority to dial under |
| FenceAuthority.WatchKept | cmd/validator-signing-fence/main.go:428-452 | every step keeps the watchdog invariant |
| FenceAuthority.CurrentDeadlineIsWatched | cmd/validator-signing-fence/main.go:428-452 | in every started unfenced state the current version has a watchdog, being armed, armed or fired, at exactly the authority deadline |
| FenceAuthority.WatchdogVerdict | cmd/validator-signing-fence/main.go:443-449 | a watchdog trips exactly when unfenced with its version current, and the deadline in force has then passed |
| FenceAuthority.LapseTrips | cmd/validator-signing-fence/main.go:437-450 | once the deadline is reached, at most four steps of the watchdog's own path fence the process |
| FenceAuthority.PendingStaysPending | cmd/validator-signing-fence/main.go:437-450 | every other step leaves the watchdog's pending one enabled, unless the process is fenced or a later deadline published |
| FenceAuthority.LapseIsNoticed | cmd/validator-signing-fence/main.go:437-450 | over every continuation of a lapse the process is fenced, or has a later deadline, or has its next step to `trip` enabled, with each taken bringing it closer, at most four |
| FenceAuthority.IdentityIsPinned | cmd/validator-signing-fence/main.go:403-408 | from any state of any run on, client UID and IP, the admitted source and every connection's host never change once set |
| FenceAuthority.ClientKept | cmd/validator-signing-fence/main.go:454-472 | every step keeps the downstream address empty or the client's, and every tunnel's host that address |
| FenceAuthority.TunnelsComeFromTheClient | cmd/validator-signing-fence/main.go:464-471 | every connection with a tunnel comes from the pinned client address |
| FenceAuthority.AdmittedExactly | cmd/validator-signing-fence/main.go:454-483 | in every run a connection passes the source check exactly when it comes from the pinned client and the process is not fenced, on its first connection and on every later one |
| FenceAuthority.OtherIdentityEndsFenced | cmd/validator-signing-fence/main.go:405-408 | whatever follows a renewal that observed another UID or IP publishes no authority, and the renewal loop has tripped the fence or can only do that |
| FenceAuthority.FailureIsFinal | cmd/validator-signing-fence/main.go:548-552 | after a failed renewal, over every continuation, the authority stays what it was and the loop has failed or ended in the fenced state |
| FenceAuthority.RunsKeepAuthority | cmd/validator-signing-fence/main.go:370-393 | the watchdog and client invariants hold after every run from start-up |
| FenceTimeliness.LastAnnouncedIsInForce | cmd/validator-signing-fence/main.go:428-433 | in every run the deadline in force is the one announced last |
| FenceTimeliness.NoWatchdogTripsInTime | cmd/validator-signing-fence/main.go:437-450 | no watchdog trips in a run whose every announcement, and whose end, comes before the deadline in force |
| FenceTimeliness.OnScheduleNoWatchdogTrips | cmd/validator-signing-fence/main.go:539-556 | with a duration that covers the first renewal and the later ones, no watchdog trips in a run that announces on any schedule the timers allow |
| FenceRuns.SameIdentityIsAccepted | cmd/validator-signing-fence/main.go:402-410 | a renewal goes on to the Lease exactly when it observes the first identity or the same one again, and fails otherwise |
| FenceRuns.AnyRenewals | cmd/validator-signing-fence/main.go:375-437 | any series of announcements, of any length, is that of a run from start-up whose fence stays unfenced and ready to renew |
| FenceRuns.EveryScheduleIsKept | cmd/validator-signing-fence/main.go:539-556 | every schedule the timers allow is kept by a run that announces each of its renewals without a watchdog trip |
| FenceRuns.ListeningExactly | cmd/validator-signing-fence/main.go:375-388 | the listener opens exactly with authority ahead and a free address; otherwise start-up has failed with nothing listening |
| FenceRuns.ClientIsServed | cmd/validator-signing-fence/main.go:474-526 | while a fence is serving, the pinned client's next connection can be admitted, carry any number of chunks both ways, be reported closed and leave, after which the fence serves as before |
| FenceRuns.AllConnectionsAreServed | cmd/validator-signing-fence/main.go:474-526 | however many connections the client makes, some run from start-up serves each to its end, with one receipt each, numbered from one |
| FenceRuns.LapsedIsReported | cmd/validator-signing-fence/main.go:504-507 | a tunnel under no authority is given up at once, reported as expired, and its client closed |
| FenceRuns.FailedDialIsReported | cmd/validator-signing-fence/main.go:509-513 | a failed dial is reported as such and the client closed |
| FenceRuns.OthersAreTurnedAway | cmd/validator-signing-fence/main.go:480-483 | a connection from elsewhere, or to a fenced process, is closed with nothing else changed and the next one accepted |
| FenceRuns.TripRunsToItsEnd | cmd/validator-signing-fence/main.go:558-577 | a first call of `trip` can run to its end, with the listener and every registered connection closed |
| FenceRuns.NoTunnelOutlivesItsAge | cmd/validator-signing-fence/main.go:381-383 | in every run no tunnel's deadline lies further ahead than the connection age, nor that beyond the configured one |
| LeaseExclusion.LandedOnItsSnapshot | cmd/validator-signing-fence/main.go:302-312 | a patch that applies was built on exactly the Lease it replaces |
| LeaseExclusion.TakeoverEndsAuthority | cmd/validator-signing-fence/main.go:286-300 | when a fence takes the Lease, every deadline the previous holder ever had has passed on that holder's own clock |
| LeaseExclusion.EveryTakeoverIsLate | cmd/validator-signing-fence/main.go:286-311 | at every takeover of every run, whatever deadline the previous holder published or was about to publish has passed on its own clock |
| LeaseExclusion.RunKeepsInv | cmd/validator-signing-fence/main.go:269-344 | the protocol invariant holds over every run of any number of fences |
| LeaseExclusion.MutualExclusion | cmd/validator-signing-fence/main.go:269-344 | no two fences ever have live authority together, replies lost and patches late included, and a live fence is the Lease's holder |
| LeaseSkew.Overlap | cmd/validator-signing-fence/main.go:282-291 | with a margin below skew plus 999 ns there is a run in which two fences are live |
| LeaseSkew.ExclusionExactly | cmd/validator-signing-fence/main.go:282-343 | exclusion over all runs holds if and only if, of any two fences that accept the duration, each one's margin covers skew plus 999 ns |
| LeaseHistory.AuthorityNeverDecreases | cmd/validator-signing-fence/main.go:428-433 | within a process, over all runs, no event lowers the authority deadline |
| LeaseHistory.MovesAreWithinAuthority | cmd/validator-signing-fence/main.go:509-526 | whatever a tunnel can still read or write, either way, is before its own deadline, at most the authority in force |
| LeaseHistory.OneFenceMovesBytes | cmd/validator-signing-fence/main.go:496-537 | at any instant of any run at most one fence can read or write on its tunnels, a chunk left in hand included, and it is the Lease's holder |
| LeaseChain.WritesFormOneChain | cmd/validator-signing-fence/main.go:298-343 | the Lease changes only by a landing patch whose snapshot is the Lease it replaces, one per version, and renewal times do not go back while it is held |
| LeaseBootstrap.MissingMemberIsNeverAcquired | cmd/validator-signing-fence/main.go:302-312 | in every run from a Lease without `holderIdentity` the Lease never changes, no patch lands and no fence has authority |
| LeaseBootstrap.AcquirableExactly | cmd/validator-signing-fence/main.go:302-312 | a Lease that nobody holds can be acquired in some run by a fence that accepts it if and only if it has the member |
| LeaseBootstrap.FetchGoesOnExactly | cmd/validator-signing-fence/main.go:175-196 | reading goes on exactly with a Lease that can be read, and fails the renewal otherwise |
| LeaseBootstrap.SendGoesOnExactly | cmd/validator-signing-fence/main.go:276-312 | a patch is sent exactly over an unheld Lease, the fence's own unexpired one or another's expired one, and the renewal fails otherwise |
| LeaseBootstrap.AnswerGoesOnExactly | cmd/validator-signing-fence/main.go:331-343 | a reply gives its deadline exactly if it shows this fence as holder since the reading it sent, for long enough; any other ends the renewal |
| LeaseExpiry.OwnExpiryIsNotUndone | cmd/validator-signing-fence/main.go:293-297 | after a holder's own expiry with nothing in flight, whatever margins and skew, no patch of it lands before another holder had the Lease |
| LeaseExpiry.OwnExpiryIsFinal | cmd/validator-signing-fence/main.go:293-297 | with a margin of 999 ns of its own it has no live authority either, in any run, before another holder had the Lease |
| LeaseExpiry.OwnExpiryIsFinalInEveryRun | cmd/validator-signing-fence/main.go:286-300 | the same from every reachable state |
| LeaseExpiry.ExpiryEndsAuthorityExactly | cmd/validator-signing-fence/main.go:282-297 | own expiry always means that the authority is over if and only if the holder's margin covers 999 ns or it does not accept the duration |
| LeaseProcesses.EventsAreProcessMoves | cmd/validator-signing-fence/main.go:370-411 | every cluster event is, for each fence, nothing or a step of its process, and only a restart is a new boot |
| LeaseProcesses.EveryFenceKeepsItsInvariants | cmd/validator-signing-fence/main.go:346-578 | in every cluster run every fence keeps its connection, receipt, traffic, watchdog and client invariants |
| LeaseProcesses.TrippedFenceDeliversTheChunkInHand | cmd/validator-signing-fence/main.go:522-525 | in every cluster run a tripped fence, until it restarts, delivers on each tunnel no more than the chunk in hand |
| LeaseProcesses.TrippedFenceDeliversExactly | cmd/validator-signing-fence/main.go:509-526 | in every cluster run a tripped fence can still, before it restarts, bring something to its signer on a tunnel if and only if that tunnel's next write is enabled |
| RenewalTiming.SteadyExactly | cmd/validator-signing-fence/main.go:539-556 | the loop's renewals beat the previous deadline in every schedule exactly under the stated bound |
| RenewalTiming.FirstExactly | cmd/validator-signing-fence/main.go:370-393 | the first renewal does exactly when the duration covers one more request and the listen delay |
| RenewalTiming.ValidDurationMeansNoLateRenewal | cmd/validator-signing-fence/main.go:258-267 | with a timeout of at most a polling interval the duration check is exactly the condition for no late renewal, and with a longer one it is too weak |
| AuditReceipts.ValidAuditField | cmd/validator-signing-fence/main.go:608-618 | accepts exactly the non-empty texts over the field alphabet |
| AuditReceipts.ConnectionAudit.Begin | cmd/validator-signing-fence/main.go:85-93 | each connection gets the next id |
| AuditReceipts.ConnectionAudit.Close | cmd/validator-signing-fence/main.go:95-109 | appends one whole line for the receipt |
| AuditReceipts.ReceiptReadsBack | cmd/validator-signing-fence/main.go:104-107 | a receipt of valid fields reads back, split at spaces and equals signs, to exactly its fields, each under its own key |
| AuditReceipts.IdIsSixteenDigits | cmd/validator-signing-fence/main.go:91-91 | a connection id is printed as sixteen hexadecimal digits with its value |
| AuditReceipts.ReceiptsAreDistinguished | cmd/validator-signing-fence/main.go:104-107 | two receipts with one line are the same receipt |
| AuditReceipts.LogSplitsIntoReceipts | cmd/validator-signing-fence/main.go:100-108 | the log splits at newlines into exactly the receipts |
| FenceLog.RunsLogEveryConnectionOnce | cmd/validator-signing-fence/main.go:503-519 | the log of every run has one readable line for each connection that reports and no other, with distinct ids, and each says under its key what was configured, when, and what became of the connection |
| LayerSearch.RelativeFileExactly | scripts/ci/image_sbom_evidence.py:135-141 | a path is accepted exactly when it is slashes, one at least, and then plain components, which are the result |
| LayerSearch.OpenedExactly | scripts/ci/image_sbom_evidence.py:145-155 | a layer is opened exactly when one archive entry alone has its name and that entry is a layer |
| LayerSearch.MarkerNames | scripts/ci/image_sbom_evidence.py:162-168 | the names collected are the whiteout of every component and the opaque marker of every directory above the target |
| LayerImage.HidesExactly | scripts/ci/image_sbom_evidence.py:161-168 | the two markers by their names, `.wh..wh..opq` for what is in a directory and `.wh.` before a name for that name and what is below it |
| LayerSearch.ObservesByName | scripts/ci/image_sbom_evidence.py:160-180 | looking a name up in the two string sets decides what comparing path components decides |
| LayerSearch.LayerHash | scripts/ci/image_sbom_evidence.py:144-185 | the scan of one layer yields the digest, nothing, or the first problem, as the fold over its entries does |
| LayerSearch.SearchLayers | scripts/ci/image_sbom_evidence.py:216-223 | the loop from the top layer with early exit is the search reasoned about |
| LayerAgreement.NormalKeepsPath | scripts/ci/image_sbom_evidence.py:170-172 | normalising a name for comparison never changes the path it resolves to |
| LayerSearch.NormalExactly | scripts/ci/image_sbom_evidence.py:170-170 | what a name is compared as: the name less one leading `./` and all trailing slashes |
| LayerAgreement.RecognisedExactly | scripts/ci/image_sbom_evidence.py:170-180 | a name is taken for a path exactly when it is its components, after one `./` or not, with slashes at the end or not |
| LayerAgreement.LayersRejectedExactly | scripts/ci/image_sbom_evidence.py:173-178 | a layer is rejected exactly for a wrong entry at or above the target or two entries at it |
| LayerAgreement.ObserveAgrees | scripts/ci/image_sbom_evidence.py:169-180 | an entry that concerns the target is rejected or taken for what it is if it is spelled as it resolves, and overlooked if not; no other changes the scan |
| LayerAgreement.LayerAgrees | scripts/ci/image_sbom_evidence.py:169-183 | for any entry names, what a layer leaves at the target is what the scan claims unless an overlooked entry after it settles it otherwise |
| LayerAgreement.LayerAgreesHidingLower | scripts/ci/image_sbom_evidence.py:169-183 | in the reading in which whiteouts hide lower layers only, the scan's flags say exactly what the layer hides and places, for a layer that misspells nothing that concerns the target |
| LayerAgreement.ArchiveHolds | scripts/ci/image_sbom_evidence.py:145-155 | what opening the manifest's layers yields is a reading the agreement theorems speak of |
| LayerAgreement.SearchDecidesFinalImage | scripts/ci/image_sbom_evidence.py:156-223 | for any image, what it holds at the target is what the search claims, unless an overlooked entry after the deciding one settles it otherwise |
| LayerAgreement.DigestIsRightExactly | scripts/ci/image_sbom_evidence.py:156-223 | a digest is right if and only if the name is no whiteout's and no entry overlooked after the deciding one leaves anything but an empty file |
| LayerAgreement.RefusalIsRightExactly | scripts/ci/image_sbom_evidence.py:156-223 | absent and deleted are right if and only if the last overlooked entry that concerns the target is not at it |
| LayerAgreement.SpelledIsNotOverlooked | scripts/ci/image_sbom_evidence.py:170-180 | if what concerns the target is spelled as it resolves in the layers searched, nothing that matters is overlooked |
| LayerAgreement.SearchDecidesImageHidingLower | scripts/ci/image_sbom_evidence.py:156-223 | in the image specification's reading, for any image, what it holds is what the highest layer read that touches the target leaves there |
| LayerAgreement.DigestIsRightHidingLowerExactly | scripts/ci/image_sbom_evidence.py:156-223 | in that reading a digest is right if and only if the name is no whiteout's and what the search overlooked, in the highest layer that concerns the target, leaves nothing but an empty file |
| LayerAgreement.SpelledSearchHidingLower | scripts/ci/image_sbom_evidence.py:156-223 | in that reading, with what concerns the target spelled as it resolves where searched, a digest and absent are right, and a file called deleted is there exactly when the deciding layer deletes it after placing it |
| LayerAgreement.WhiteoutNameIsFoundInVain | scripts/ci/image_sbom_evidence.py:175-178 | for every whiteout's name there is an image in which a digest is found and nothing is there |
| LayerAgreement.SlashedEntryIsMissed | scripts/ci/image_sbom_evidence.py:170-180 | for every target any entry with a leading slash in its name is missed, a whiteout, another file at the target, or a file above it, and what the image then holds in both readings |
| SbomHydration.HydrateComponents | scripts/ci/image_sbom_evidence.py:205-223 | the loop completes the components in place, in order, or stops at the first that cannot be |
| SbomHydration.SbomFile.HydrateFileHashes | scripts/ci/image_sbom_evidence.py:188-233 | the file is rewritten with the completed document, keys sorted, and a newline, or left untouched with the reason, too large first |
| HydrationProperties.LayerNamesExactly | scripts/ci/image_sbom_evidence.py:198-204 | the layers searched are exactly those the manifest of one image lists, in its order: distinct, none absolute, none with a part `..` |
| HydrationProperties.HashlessExactly | scripts/ci/image_sbom_evidence.py:206-215 | which components are completed: objects of type file without an entry of algorithm SHA-256 and 64 lower-case hexadecimal digits |
| HydrationProperties.CompletedExactly | scripts/ci/image_sbom_evidence.py:196-223 | for a manifest that lists its layers, the document is completed exactly when it has components and every hashless file's path is found |
| HydrationProperties.SortedExactly | scripts/ci/image_sbom_evidence.py:230-230 | what is printed is the completed document, only rearranged so that keys ascend at every level |
| HydrationProperties.EachComponentIsHydrated | scripts/ci/image_sbom_evidence.py:205-223 | the document is completed exactly when each component is on its own |
| HydrationProperties.HydrationConserves | scripts/ci/image_sbom_evidence.py:205-231 | same components in the same order, only the hashes of hashless files differ, and every file component passes the hash clause |
| HydrationProperties.AddedHashIsEvidence | scripts/ci/image_sbom_evidence.py:97-104 | the hash that is added passes validation's hash clause |
| HydrationProperties.AddedDigestsAreTrue | scripts/ci/image_sbom_evidence.py:216-220 | with the layers in the manifest's order, an added digest is that of the file the final image holds there under an exact condition in each reading, and in both whenever what concerns the file is spelled as it resolves |
| HydrationProperties.SecondRunChangesNothing | scripts/ci/image_sbom_evidence.py:188-233 | a second run leaves the text as the first wrote it, whatever image it is held against, or refuses it exactly when the added hashes have made it longer than the 16 MiB that are read |
| CanonicalJson.Unique | scripts/ci/ci_image_attestation.py:32-38 | refuses a repeated key and otherwise keeps every pair |
| CanonicalJson.NormalizeIsIdempotent | scripts/ci/ci_image_attestation.py:61-73 | normalising twice is normalising once |
| CanonicalJson.AcceptableExactly | scripts/ci/ci_image_attestation.py:61-73 | accepted are exactly the documents in which every number, at any depth, is finite and of magnitude below 2^53 |
| CanonicalJson.FormDecidesSame | scripts/ci/ci_image_attestation.py:61-82 | normalising and sorting identifies exactly the documents equal up to key order and spelling of integral numbers |
| CanonicalJson.PrintsAgree | scripts/ci/ci_image_attestation.py:76-82 | a printed value can be told from every other, whatever follows |
| CanonicalJson.CanonicalTextDecidesSame | scripts/ci/ci_image_attestation.py:61-82 | two accepted documents give the same text exactly when they are the same JSON; rejected are exactly those with a number that is not finite or of magnitude 2^53 and more |
| Attestation.Verify | scripts/ci/ci_image_attestation.py:163-185 | accepts exactly when no envelope is fatal and at least one matches |
| Attestation.AcceptsExactly | scripts/ci/ci_image_attestation.py:163-185 | verification succeeds exactly when no in-toto record is fatal and one is about this image, of these types, with the same predicate |
| Attestation.SubjectIsOneImage | scripts/ci/ci_image_attestation.py:159-160 | the subject compares equal exactly when it is one object with just this name and just the SHA-256 digest, with `sha256:` taken off |
| Attestation.MatchMeansSameEvidence | scripts/ci/ci_image_attestation.py:159-183 | a record matches exactly when it is an in-toto record whose statement names this image and types and has the same predicate; fatal are exactly undecodable payloads and uncomparable predicates |
| Attestation.SameRecordsSameResult | scripts/ci/ci_image_attestation.py:166-185 | the result depends only on which envelopes there are |
| Attestation.OrderDoesNotMatter | scripts/ci/ci_image_attestation.py:166-185 | nor on the order of the records |
| Attestation.OtherRecordsDoNotMatter | scripts/ci/ci_image_attestation.py:167-168 | nor on records of another payload type |
| BufferedReading.BufferedReader.Fill | cmd/vault-audit-relay/main.go:110-112 | one read moves bytes into the buffer and changes nothing of what is still to be read |
| BufferedReading.BufferedReader.ReadSlice | cmd/vault-audit-relay/main.go:112-116 | the slice returned depends on bytes and ends of file only, not on how reads were chunked |
| LineFollower.FollowFile | cmd/vault-audit-relay/main.go:109-134 | whatever the chunks, the loop hands on exactly what the slices of bytes and ends of file determine |
| LineFollower.DiscardLine | cmd/vault-audit-relay/main.go:115-117 | the discard mode goes past the rest of the oversize line, or to the end of file or failure that ends it |
| LineFollower.DiscardSkipsOversize | cmd/vault-audit-relay/main.go:113-119 | oversize lines are dropped whole |
| LineFollower.FollowHandsOnTheFirst | cmd/vault-audit-relay/main.go:111-133 | one run of the loop hands on the first record that fits and is ended by a newline, and no other |
| RelayedLines.KeptAreTheLinesExactly | cmd/vault-audit-relay/main.go:121-129 | the records between ends of file are the fitting lines exactly when no line whose last fragment fits was torn by one |
| RelayedLines.OneLineToAnOpening | cmd/vault-audit-relay/main.go:109-134 | an opening in which no line is torn delivers the first fitting line, so all of them exactly when there is at most one |
| RelayedLines.SecondLineIsLost | cmd/vault-audit-relay/main.go:121-132 | of two lines that arrive together the second is lost |
| RelayedLines.TornLineIsCut | cmd/vault-audit-relay/main.go:121-129 | a line torn by an end of file loses its head and its tail passes for a line |
| RelayedLines.TailFile | cmd/vault-audit-relay/main.go:86-107 | following and reopening hands on what each opening hands on, in order |
| RelayedLines.TailDeliversExactly | cmd/vault-audit-relay/main.go:86-134 | the file's fitting lines all get through exactly when no opening sees more than one, for openings of whole lines |
| RelayedExactly.OpeningDeliversExactly | cmd/vault-audit-relay/main.go:109-134 | however an opening is read and wherever in a line it starts, what the loop hands on is the fitting lines exactly when its first record to fit is a whole line and the last that fits |
| RelayedExactly.TailDeliversLinesExactly | cmd/vault-audit-relay/main.go:86-134 | the same over all openings, with no hypothesis on chunks, ends of file or failing reads |
| RelayedFile.FileReachesOutput | cmd/vault-audit-relay/main.go:86-179 | in every interleaving the output's logs from the file are a prefix of the JSON lines handed on, and once all is through, with every opening arriving right, exactly the file's JSON lines that fit |
| RelayOutput.Relay.EmitRecord | cmd/vault-audit-relay/main.go:148-171 | a JSON line from the file or the socket goes on the channel inside its envelope, or waits while 128 are there; anything else is dropped |
| RelayOutput.Relay.WriteRecord | cmd/vault-audit-relay/main.go:173-179 | the writer appends the oldest record and a newline |
| RelayOutput.EnvelopeReadsBack | cmd/vault-audit-relay/main.go:160-171 | every envelope gives back its source and, from the log field, exactly the line |
| RelayOutput.EnvelopeIsOneLine | cmd/vault-audit-relay/main.go:160-171 | an envelope has no newline inside |
| JsonText.EscapedExactly | cmd/vault-audit-relay/main.go:160-165 | which characters of a line are escaped: controls, quotes and backslashes, and for HTML five more |
| RelayRuns.RunsKeepInvariants | cmd/vault-audit-relay/main.go:43-58 | in every interleaving the output and the channel together are the records sent, and each reader's are those it accepted, in order |
| RelayRuns.AcceptedExactly | cmd/vault-audit-relay/main.go:149-156 | of a reader's lines exactly the JSON ones are sent, in order, and of any other source none |
| RelayRuns.EverythingGetsThrough | cmd/vault-audit-relay/main.go:43-58 | whatever has happened, a run can go on until every line is emitted and the channel is empty |
| RelayRuns.OutputIsTheEnvelopes | cmd/vault-audit-relay/main.go:148-179 | in every interleaving the output splits at newlines into exactly the envelopes written, each with its source and line |
| RelayRuns.EachReaderKeepsItsOrder | cmd/vault-audit-relay/main.go:136-179 | what is written of a reader's lines is a prefix, in order, of those it emitted, and all of them once the channel is empty |
| ScanSummary.CountSeverities | scripts/ci/summarize-vault-runtime-scan.py:38-44 | the loop gives each class the number of findings whose severity is, in lower case, that class, odd ones as unknown, and refuses a finding without one |
| ScanSummary.TallyCounts | scripts/ci/summarize-vault-runtime-scan.py:38-44 | counting up gives every class the number of its findings |
| ScanSummary.CountsExactly | scripts/ci/summarize-vault-runtime-scan.py:43-44 | the counts are of the severities as spelled, put into lower case |
| ScanSummary.Summarize | scripts/ci/summarize-vault-runtime-scan.py:38-52 | each class has its number of findings, and the summary blocks exactly when some severity is, in lower case, neither medium nor low |
| SeverityGates.AssessVault | scripts/ci/assess-vault-runtime-applicability.py:194-204 | passes exactly when every severity is medium or low but for at most one finding with the approved advisory's identifier, package and version and severity unknown |
| SeverityGates.VaultGateIsExact | scripts/ci/assess-vault-runtime-applicability.py:109-115 | comparing the two counts of unknown findings is what makes the gate exact |
| SeverityGates.MatchingIsExact | scripts/ci/assess-kyverno-cli-risk-acceptance.py:54-61 | counts by class and findings matched by name together decide the multiset of everything not medium or low |
| SeverityGates.OnlyAcceptedExactly | scripts/ci/assess-kyverno-cli-risk-acceptance.py:52-61 | that multiset is the accepted one exactly when two findings are the two accepted ones and all others medium or low |
| SeverityGates.AssessKyverno | scripts/ci/assess-kyverno-cli-risk-acceptance.py:52-63 | accepts exactly when two findings are the two accepted ones, all others medium or low, and the summary is the blocked one with the same counts |
| SeverityGates.AcceptedScanIsBlocked | scripts/ci/assess-kyverno-cli-risk-acceptance.py:63-63 | demanding a blocked summary never refuses the summary of an accepted scan |

## Left out

- Kubernetes, HTTP, TLS and socket encoding, certificates and tokens: a request is a success, a refusal or a loss.
- RFC 3339 text of `renewTime`: an instant, or text that does not parse; 64-bit overflow of durations.
- The health server and process start-up around `main`: flags, signals and exit codes.
- SHA-256, base64, tar and JSON parsing: a layer is a list of entries, a document a value; only the digest of no bytes
  appears, as a constant.
- Opening files safely (`O_NOFOLLOW`, modes, size limits other than the SBOM's own), and an I/O error while the SBOM is being rewritten.
- Symbolic and hard links inside an image: paths are maps from names to entries, and a link is an entry that is not a
  regular file. An entry below a name that a lower layer made a link counts as being at its own path.
- Chunks are not broken down: a write that the socket takes in part counts as the chunk. What the operating system still sends
  after a socket has taken it is not modelled.
- LineFollower.FollowFile: a run that never ends is cut off after finitely many reads by a read that fails; what it has handed on
  by then is the same.
- RelayedLines.KeptAreTheLinesExactly: speaks of every record the slices hold; the loop hands on the first of them alone, and what
  that makes of an opening is `RelayedExactly.OpeningDeliversExactly`.
- RelayedLines.TailFile: each opening is given with all that is appended until the next one, read or not; waiting times
  and failures to open or seek are not modelled.
- The relay's socket reader (`bufio.Scanner`, `cmd/vault-audit-relay/main.go:136-146`): library behaviour; its lines enter
  `RelayRuns` like the file's.
- Invalid UTF-8 in a relayed line, which Go replaces: lines are sequences of Unicode scalar values.
- Lone surrogates in JSON strings, and numbers beyond 2^53 other than as values to refuse.
- The gates' other checks, field by field (identities, expiry, digests, dependency closure): they only refuse more.
- Non-string identifiers in a scan: treated like missing ones; both gates refuse them where they matter.
- Splitting Cosign's output into records (`scripts/ci/ci_image_attestation.py:145-156`) and the signature check beside it.
- The remaining scripts (fetchers, installers, release selection, the Prysm assessor): field checks that would add only
  easy members.
