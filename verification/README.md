# Oshioki: a verified model

Oshioki puts a second device between `sudo` and its password. A root *hook* seals each request to
the devices pinned on the host, asks a local *agent* over a socket or a browser over NATS, and turns
the first decision it can authenticate into an exit status: 0 approves, 1 denies, 2 leaves the
password. This project models the parts of that program where order, failure and concurrency decide
what is true, and proves what holds over every input and every interleaving.

The model has seven parts.

* **The device registry** (`Records`, `Transactions`, `RegistryProtocol`, `RegistryRuns`,
  `RegistryRevokes`, `RegistryEnds`, `RegistryScenarios`, `RegistryStore`). Any number of processes
  take snapshots, pass the final gate, pin devices and revoke them, each step interleaved with the
  others' and able to fail or crash. The transactions are also written as the in-place code they are and proved against the same plans.
* **Request admission in the agent** (`Admission`, `AdmissionSteps`, `AdmissionRuns`,
  `AdmissionAnswers`, `AdmissionEviction`, `AdmissionReclaims`, `AdmissionProgress`,
  `AdmissionScenarios`, `AdmissionTable`). Permits, claims, owners, waiters and reclaiming after a
  death, over one clock.
* **The socket conversation** (`Socket`, `SocketLaws`, `SocketReader`). A function of which byte
  arrives when; the chunked reader is proved to compute it however the kernel splits the bytes.
* **The hook's decision** (`Verdicts`, `HookLanes`, `HookLaws`, `HookRuns`). Both lanes from
  configuration to exit status, with exact conditions for 0 and for 1.
* **The authentication chain** (`AuthChain`). Seal, open, sign, verify, for both directions:
  an honest answer is accepted, and nothing else is.
* **The Touch ID prompt** (`TouchId`, `TouchIdRuns`, `TouchIdProgress`, `TouchIdDrops`). Numbered
  cancellation against timers that cannot always be stopped and signers that run on their own threads.
* **Files and text** (`Migration`, `Quoting`, `Settings`, `SettingsLaws`). Moving a secret out of the
  identity file under crashes, rendering argument vectors, and editing another program's settings.

Hashes are ideal (injective), and signatures and sealed bodies are terms that only the matching key
makes or opens. Parsers of JSON the proofs do not look into are parameters. A state machine is a
`Sys` datatype with `Enabled` and `Next`; a run is any sequence of enabled steps from `Init`.

## Where the code falls short of a promise

Each of these is kept as the code has it, with the input that shows it and the exact condition.

* A granted request's device is compared at the snapshot and at the gate, not in between. A re-pin to
  another API token and back goes unnoticed (`RotationAndBackIsGranted`); the identity held
  throughout exactly when no such re-pin was written (`GrantKeptIdentityIff`). The fingerprint itself
  stays active throughout in every run (`GrantIsFenced`).
* `agent/src/main.rs:165-168` says an answered id is a duplicate for the rest of the validity window.
  With 1024 other ids in that window it is not (`EvictionAllowsASecondPrompt`). The next claim of it is
  a duplicate exactly when no claim since dropped it from the full table (`FirstReplayIff`), and a
  second prompt or a different verdict needs such an eviction between the two claims concerned
  (`SecondPromptNeedsAnEviction`, `DisagreementNeedsAnEviction`).
* `agent/src/main.rs:883-886` says no transport is left unanswered after an owner's death. A waiter
  that reclaims after two later deliveries have taken over is (`ReclaimCanComeTooLate`). It leaves with
  nothing exactly when another delivery has owned the key since and is answered, already has a waiter,
  or carries another body (`ReclaimMeaning`).
* `agent/src/touchid.rs:8-9` says one sheet at a time. That holds exactly while no dropped prompt's
  signer is still running (`OneSheetIff`). The deadline takes a showing sheet down exactly when no other
  signer armed or disarmed since it came up (`DeadlineTearsDownIff`). A run with a dropped prompt breaks
  both (`DropBreaksTheSheetRules`). No false verdict follows even then (`VerdictIsTheOperators`).
* Removing the managed hook undoes installing it exactly when the settings already had a permission
  request list without a hook in it (`UninstallUndoesInstallIff`).
* `.prev` holds the identity just migrated exactly when no other `.prev` was there
  (`PrevHoldsTheOriginalIff`), and once the file is replaced only then does losing the secret store cost nothing
  (`StoreLossIsRecoverableIff`); a failed first save can leave a partial file
  (`FailedSaveLeavesNothingIff`).
* Two comments differ from the code beside them. `hook/src/main.rs:857-859` says silence with no NATS
  configured denies; the code reports it as unavailable, and so does the model. The size check at
  `hook/src/main.rs:829-831`, which would deny, is never reached, because sealing has already refused
  an envelope of that size; the exit theorems rely on that.

## Model

| member | source | states |
|---|---|---|
| Records.FingerprintDeterminesKeys | protocol/src/v1.rs:795-808 | two valid records with one fingerprint have the same credential id, public key and box key: the length-prefixed hash input reads back one way only |
| Records.IdentityIff | hook/src/registry.rs:181-192 | two records are one identity exactly when they differ at most in name, counter and activity |
| Transactions.PutTouchesTargetOnly | hook/src/registry.rs:195-227 | whatever a transaction writes, every record under another fingerprint is exactly as it was |
| Transactions.GatePutEffect | hook/src/registry.rs:286-330 | a gate's write keeps the epoch and the answering record's identity and activity, and raises its counter to the observed value |
| Transactions.PinPutEffect | hook/src/registry.rs:195-227 | a pin leaves the epoch alone, stores the device active under its fingerprint and never lowers the counter of the same credential |
| Transactions.DisablePutEffect | hook/src/main.rs:3141-3166 | a disable leaves the record in place but inactive and moves the epoch by one exactly when the record was active |
| Transactions.CleanupPutEffect | hook/src/main.rs:3193-3209 | a cleanup removes that record and keeps the epoch |
| RegistryProtocol.PutKeepsFence | hook/src/registry.rs:286-330 | a write that does not move the epoch leaves every device that was active at a snapshot of that epoch active |
| RegistryProtocol.EpochStep | hook/src/main.rs:3150-3158 | a planned write moves the epoch only by disabling an active device, and then by one |
| RegistryProtocol.ActiveStep | hook/src/main.rs:3141-3166 | a planned write deactivates a fingerprint only if it is the disable of that very device |
| RegistryProtocol.GateKeepsPending | hook/src/main.rs:3193-3209 | a gate running between the two phases of a revoke never disturbs the tombstone the second phase will look for |
| RegistryProtocol.StepKeepsInv | hook/src/registry.rs:85-179 | every interleaved step of every process, with any write fault or crash, keeps the locking, snapshot and revoke invariants |
| RegistryRuns.RunKeepsInv | hook/src/registry.rs:135-162 | in every reachable state the file on disk is a valid registry |
| RegistryRuns.CommitIsAtomic | hook/src/registry.rs:96-162 | each rename replaces exactly the registry its transaction was planned against |
| RegistryRuns.RefinesAtomicRegistry | hook/src/registry.rs:96-162 | after any run the disk equals the committed operations replayed one by one from the first registry: no update is lost |
| RegistryRuns.LifeStep | hook/src/main.rs:3125-3232 | one step never takes a record from active to gone, from tombstone to active or from gone to tombstone, and a tombstone is removed only by its own cleanup |
| RegistryRuns.TombstoneLeavesThroughAbsence | hook/src/registry.rs:195-227 | a disabled record is active again only after a moment at which it was gone |
| RegistryRuns.RemovalPassesThroughTombstone | hook/src/main.rs:3125-3232 | between active and gone there is a moment at which the record was on disk, inactive |
| RegistryRuns.RemoteSeesDisabledDevice | hook/src/main.rs:3176-3191 | all through a remote revoke the device on disk is not active, and it is a tombstone exactly when the revoke remembers one |
| RegistryRuns.CleanupIsNeverRefused | hook/src/main.rs:3196-3219 | under every interleaving the two identity checks before a cleanup pass |
| RegistryRuns.CleanupFollowsConfirmation | hook/src/main.rs:3176-3191 | a process at any point of a cleanup had the remote side confirm that very target |
| RegistryRuns.RemovalFollowsConfirmation | hook/src/main.rs:3176-3209 | a record disappears only after a confirmed remote revoke, made while it was a tombstone |
| RegistryRuns.EpochCountsDeactivations | hook/src/main.rs:3150-3160 | across crashes, failed writes and retries the epoch has grown by exactly the number of devices disabled |
| RegistryRuns.EpochMonotone | hook/src/main.rs:3150-3160 | the epoch never falls in any run |
| RegistryRuns.ExhaustedRevokeStops | hook/src/main.rs:3153-3158 | with the epoch at its maximum, revoking an active device changes nothing on disk and never reaches the remote |
| RegistryRuns.SnapshotOrigin | hook/src/registry.rs:177-179 | the snapshot a request carries is what the registry was at an earlier step of the same process |
| RegistryRuns.GrantOrigin | hook/src/registry.rs:235-256 | every grant goes back to one locked gate check that refused nothing |
| RegistryRuns.GrantIsFenced | hook/src/registry.rs:286-330 | from a granted request's snapshot to its gate no device was revoked, its own device stayed active, and the gate was before the expiry |
| RegistryRuns.GrantKeptIdentityIff | hook/src/registry.rs:190-192 | the answering record kept its identity from snapshot to gate exactly when nobody re-pinned its fingerprint under another identity |
| RegistryRuns.CounterMonotone | hook/src/registry.rs:195-227 | while a fingerprint stays in the registry its stored counter never falls |
| RegistryRuns.GrantRecordsCounter | hook/src/registry.rs:315-328 | when a command-lane grant settled, the active record on disk held at least the counter it observed |
| RegistryRevokes.RevokeStep | hook/src/main.rs:3125-3232 | one step of anyone leaves a revoke going on, ends it with the device gone, or fails it at its own crash or failed write or at an exhausted epoch |
| RegistryRevokes.UncutRevokeRemoves | hook/src/main.rs:3125-3232 | from any state a crash can leave and under every interleaving, a revoke never cut short is still going, has removed the device, or met an active device at the last epoch |
| RegistryRevokes.NineStepsRemove | hook/src/main.rs:3125-3232 | nine steps of its own, uncut, are enough: by then the device was gone at one of them or the epoch was exhausted, however other processes' steps fall between |
| RegistryRevokes.SuccessMeansGone | hook/src/main.rs:3125-3232 | a revoke that reports success had the device gone at the step that finished it, whatever ran meanwhile |
| RegistryRevokes.RevokeCanStep | hook/src/registry.rs:85-120 | a revoke is never stuck: it can take a step of its own or waits for a lock that another process holds |
| RegistryEnds.UnrefusedIsGranted | hook/src/registry.rs:286-330 | under every interleaving an answered request with no reason against it, no crash, no owed refusal and no failed counter write, is on its way or granted, and four steps of its own are enough |
| RegistryEnds.FailureHasAReason | hook/src/registry.rs:286-330 | and a decision that fails had such a reason: a crash, a moved epoch, an expired request, a record that is gone or another, or a counter it could not store |
| RegistryEnds.PinComesTo | hook/src/registry.rs:195-227 | a pin or enrollment goes on until it has written, with the device then active on disk, or until a crash, a failed write or a device that may not be pinned ends it |
| RegistryEnds.ActivationSeesPinnedDevice | hook/src/main.rs:3066-3082 | all through a remote activation the pinned device is on disk and active, whatever else runs, and the enrollment succeeds exactly when the activation is confirmed |
| RegistryEnds.EndIsFinal | hook/src/registry.rs:235-256 | a granted or finished process stays what it is |
| RegistryEnds.AnyoneCanStep | hook/src/registry.rs:85-134 | every unfinished process can crash, and can go on unless it waits for an answer or for a lock another process holds |
| RegistryScenarios.RetryCanFinish | hook/src/main.rs:3125-3232 | once the locks are free, from any reachable state, some run of a new revoke ends with the device gone |
| RegistryScenarios.RotationAndBackIsGranted | hook/src/registry.rs:302-309 | for every valid device there is a run in which its token changes and changes back between snapshot and gate and the request is granted |
| RegistryStore.Validate | protocol/src/v1.rs:620-638 | the loop with two seen-sets accepts exactly the valid registries |
| RegistryStore.OrderlyIff | protocol/src/v1.rs:342-380 | validation lets through exactly the registries of at most eight records with the right lengths, key shapes and hashes, no fingerprint and no credential twice |
| RegistryStore.Find | hook/src/main.rs:3144-3149 | the scan returns the first record under the fingerprint, or nothing when there is none |
| RegistryStore.Retain | hook/src/main.rs:3205-3208 | the retaining loop drops exactly the records under the fingerprint, in order |
| RegistryStore.Rewrite | hook/src/registry.rs:302-321 | the in-place update changes the first record under the fingerprint only |
| RegistryStore.PinPlanIff | hook/src/registry.rs:195-227 | a pin is planned and leaves a valid registry exactly for a valid active device whose credential no other fingerprint holds, whose own record is no tombstone, and for which there is room |
| RegistryStore.EditPin | hook/src/registry.rs:195-227 | the checks, the scan for a taken credential, the larger counter, the retain and the push come to the planned registry or to nothing |
| RegistryStore.Store.Save | hook/src/registry.rs:159-162 | an invalid state or an early fault leaves the file as it was; a fault after the rename reports failure over a changed file |
| RegistryStore.Store.PinDevice | hook/src/registry.rs:195-227 | pinning in place succeeds exactly when the device may be pinned and the write does not fail; then its record is the device with the larger of the two counters and no other record has changed |
| RegistryStore.Store.Authorize | hook/src/registry.rs:286-330 | the gate in place denies, grants and writes as planned, and a command-lane grant leaves an active record with at least the observed counter |
| RegistryStore.Store.DisableDevice | hook/src/main.rs:3141-3166 | the first phase in place follows its plan, touches one record, moves the epoch exactly with a deactivation, and remembers exactly what the disk then holds |
| RegistryStore.Store.CleanUp | hook/src/main.rs:3192-3223 | the last phase in place succeeds only with the device gone; over what the first phase left it removes that record alone and cannot be refused |
| RegistryStore.Store.Revoke | hook/src/main.rs:3125-3232 | the three phases in place: the remote is called only over a disabled or absent device, and success means the device is gone |
| Admission.ClaimKeyInjective | agent/src/main.rs:1033-1035 | a command and an authentication never share a claim key, and one lane's keys are distinct for distinct ids |
| AdmissionSteps.PruneStep | agent/src/main.rs:174-175 | pruning by age disturbs no unexpired owner, waiter or answer: retention covers the whole validity window |
| AdmissionSteps.EvictStep | agent/src/main.rs:201-209 | dropping the oldest claim costs only that key's guarantees |
| AdmissionSteps.AttachStep | agent/src/main.rs:187-197 | attaching keeps one waiter per owner, waiting on exactly the same request |
| AdmissionSteps.ClaimStep | agent/src/main.rs:169-225 | all three outcomes of a claim, first or after a death, keep the admission invariant |
| AdmissionSteps.StepKeepsInv | agent/src/main.rs:855-898 | every step of every lane, in any interleaving, keeps the admission invariant |
| AdmissionRuns.Agreement | agent/src/main.rs:855-898 | all deliveries of one request, on any lanes at any times, carry one and the same verdict of its own kind unless its key was evicted |
| AdmissionAnswers.DisagreementNeedsAnEviction | agent/src/main.rs:169-225 | two deliveries of one request differ only if its key was dropped for capacity between the two claims that were answered |
| AdmissionAnswers.OnTableIff | agent/src/main.rs:169-225 | while its request is valid, a generation that has not died is on the table at a later moment exactly when no claim in between dropped its key for capacity |
| AdmissionAnswers.FirstReplayIff | agent/src/main.rs:176-225 | the first claim under an answered key, while valid, is a duplicate exactly when the answer was not dropped for capacity in between, and owns the request anew exactly when it was |
| AdmissionAnswers.ReplayIsNotPrompted | agent/src/main.rs:169-186 | a lane that does not own an answered request yet prompts for it only after a claim dropped that answer for capacity; evictions before the answer do not count |
| AdmissionAnswers.TwoGenerationsNeedAnEviction | agent/src/main.rs:201-225 | a valid request has a newer generation beside one that has not died only through an eviction of its key between the two claims |
| AdmissionAnswers.SecondPromptNeedsAnEviction | agent/src/main.rs:855-898 | an answered request is prompted for again only if its key was dropped between the claim that was answered and the claim that prompts |
| AdmissionAnswers.SecondPromptMeans | agent/src/main.rs:855-898 | two prompts for one request have the first lane's death between them or an eviction of the key between their two claims |
| AdmissionAnswers.EvictedIff | agent/src/main.rs:201-209 | the keys called evicted are exactly those an earlier own claim dropped from a full table |
| AdmissionRuns.SecondPromptNeedsADeath | agent/src/main.rs:855-898 | two prompts for one unevicted request have the first prompting lane's death between them |
| AdmissionRuns.ForgottenOnlyWhenExpired | agent/src/main.rs:44-50 | a claim leaves the table, or changes its body, only after its request expired or its key was evicted |
| AdmissionRuns.PrunedIsNeverPrompted | agent/src/main.rs:1287-1295 | a body claimed once, its key unevicted, is still on the table at every moment before any later prompt for it, whenever that lane was opened or claimed |
| AdmissionRuns.WorkIsBounded | agent/src/main.rs:40-50 | permits are conserved in every run, so at most 8 lanes prompt at once and the table holds at most 1024 claims |
| AdmissionRuns.OneLiveOwner | agent/src/main.rs:169-225 | while a request is valid and its key unevicted one lane at most owns it, and the table points at that lane's channel |
| AdmissionRuns.OneWaiter | agent/src/main.rs:187-197 | no two lanes ever wait on the same owner |
| AdmissionRuns.DeathsCountDeadChans | agent/src/main.rs:227-260 | a channel dies exactly when its owner is dropped unanswered, once |
| AdmissionRuns.TurnsPaidByDeaths | agent/src/main.rs:862-891 | a lane goes round the claim loop at most once more than owners have died: the loop cannot spin |
| AdmissionRuns.RelayDeliversTheAnswer | agent/src/main.rs:872-881 | what a waiter relays is the answer recorded for its own request, and the other lane's kind never surfaces |
| AdmissionAnswers.RecordDelivers | agent/src/main.rs:892-898 | the owner that records an answer delivers exactly that answer, of its own lane's kind, and opens it to everyone on its channel |
| AdmissionAnswers.WaiterGetsTheAnswer | agent/src/main.rs:872-881 | once its owner has answered, a waiter can relay until it is dropped or its request expires, and what it relays is that answer |
| AdmissionAnswers.UndecidedIsClaimable | agent/src/main.rs:187-225 | in every run a claim of a request nobody has answered and nobody owns, first or after any number of deaths, owns it exactly when its id is not on the table with another body |
| AdmissionAnswers.LiveHasOwner | agent/src/main.rs:210-233 | a generation is undecided and alive only while some lane owns it |
| AdmissionAnswers.ReclaimMeaning | agent/src/main.rs:262-271 | a waiter whose owner died leaves with nothing exactly when another delivery has owned the key since and is answered, already has a waiter, or carries another body; otherwise it owns the request or waits on the newer owner |
| AdmissionProgress.LaneCanStep | agent/src/main.rs:855-898 | a lane with an opened request can act at every moment except while it waits on a live owner with time left or owns a request that expired unprompted, and it can always be dropped |
| AdmissionProgress.WaitEnds | agent/src/main.rs:864-881 | nobody waits for ever: when its time is up a waiter can leave, with its permit given back |
| AdmissionProgress.EndIsFinal | agent/src/main.rs:855-898 | what a lane ended with, an answer or nothing, is final |
| AdmissionReclaims.ReclaimCanComeTooLate | agent/src/main.rs:883-887 | a run in which a waiter reclaims after two later deliveries took over, delivers nothing, and the other two get the answer in time |
| AdmissionEviction.EvictionAllowsASecondPrompt | agent/src/main.rs:201-209 | a run in which 1024 other requests push an answered claim off the table and the same request prompts again before it expires |
| AdmissionTable.Retain | agent/src/main.rs:175-175 | the retaining pass keeps exactly the claims younger than the retention |
| AdmissionTable.OldestKey | agent/src/main.rs:203-207 | the scan returns a claim no other claim is older than |
| AdmissionTable.RequestAdmission.Reserve | agent/src/main.rs:149-154 | a permit is granted exactly when one is free, without waiting |
| AdmissionTable.RequestAdmission.ClaimRequest | agent/src/main.rs:169-225 | claiming in place, on a first delivery or for a waiter whose owner died, is one claim step of the machine for every surrounding state, whichever oldest claim makes room |
| AdmissionTable.RequestAdmission.Answered | agent/src/main.rs:227-233 | an answer reaches everyone on that channel and nobody else |
| Socket.PrefixRoundTrip | protocol/src/socket_v1.rs:182-206 | a length written as a prefix reads back as itself |
| SocketLaws.FrameRoundTrip | protocol/src/socket_v1.rs:182-206 | a frame written whole before the deadline is read back whole, whatever follows it on the wire |
| SocketLaws.FrameSplit | hook/src/main.rs:1593-1618 | conversely, a payload read is one whole frame at the front of the wire, all of it before the deadline |
| SocketLaws.NoiseBeforeVerdict | hook/src/main.rs:1535-1550 | any number of informational or unrecognised frames before the verdict leave the outcome unchanged |
| SocketLaws.NoiseBeforeAck | hook/src/main.rs:1444-1447 | any number of unrecognised frames before the acknowledgement leave the acknowledgement phase unchanged |
| SocketLaws.NoiseChangesNothing | hook/src/main.rs:1376-1558 | both together, for the whole conversation |
| SocketLaws.VerdictNormalForm | hook/src/main.rs:1469-1558 | every wait for a verdict is skipped frames and one settling event, and hanging up, truncating, resetting and a bad length all settle it alike |
| SocketLaws.VerdictIff | hook/src/main.rs:1469-1558 | a verdict is reported exactly when the first thing not skipped is a whole, timely frame that decodes as a decision |
| SocketLaws.AckIff | hook/src/main.rs:1376-1463 | an acknowledgement counts exactly when it is whole inside one fixed window after nothing but unrecognised frames |
| SocketLaws.LateBytesDoNotDecide | hook/src/main.rs:1469-1530 | nothing that arrives at or after the deadline, nor how the connection ends then, changes the verdict phase |
| SocketLaws.LateBytesDoNotAcknowledge | hook/src/main.rs:1376-1418 | nor does it decide whether the request was acknowledged |
| SocketLaws.EncodedIff | protocol/src/socket_v1.rs:182-206 | the encoder writes frames only, four bytes counting the at most 3 MiB after them, and every frame is what it writes for its body |
| SocketLaws.AckedIff | hook/src/main.rs:1376-1463 | the acknowledgement phase succeeds exactly when this request's acknowledgement is whole before the deadline and within three seconds of the write |
| SocketLaws.AttemptMeaning | hook/src/main.rs:1302-1376 | from what the peer does and when: which attempts find no agent, which get no acknowledgement, which are faults, and that the rest is what the wire says afterwards |
| SocketReader.Connection.Read | hook/src/main.rs:1597-1597 | one read returns between one byte and everything that has arrived, or the event that stopped it |
| SocketReader.Arrived | hook/src/main.rs:1597-1597 | what one read may return is exactly the bytes that have arrived, up to the limit |
| SocketReader.Connection.ReadExactly | hook/src/main.rs:1593-1616 | reading a fixed count stops for the same reason under every chunking |
| SocketReader.Connection.ReadPayload | hook/src/main.rs:1611-1617 | the announced bytes are read whole or the event that stopped them is reported, under every chunking |
| SocketReader.Connection.ReadFrame | hook/src/main.rs:1593-1618 | the chunked reader computes the frame function of the arrivals |
| SocketReader.Connection.AwaitAck | hook/src/main.rs:1376-1463 | the acknowledgement loop computes its phase and leaves the rest of the wire unread |
| SocketReader.Connection.AwaitVerdict | hook/src/main.rs:1469-1558 | the verdict loop computes its phase |
| SocketReader.TryAgentSocket | hook/src/main.rs:1302-1559 | the whole attempt, under every chunking, reports each kind of silence exactly when the peer's times call for it, and a verdict exactly when the wire brings one after a timely acknowledgement |
| Verdicts.DomainsDisjoint | protocol/src/v1.rs:736-743 | no approval, denial or authentication challenge equals one of another domain |
| Verdicts.ChallengesInjective | protocol/src/auth_v1.rs:462-467 | a challenge fixes the exact request bytes |
| Verdicts.DenyChallengeInjective | protocol/src/v1.rs:736-743 | a denial challenge fixes both the request and the device |
| Verdicts.HardwareRecipients | protocol/src/auth_v1.rs:599-615 | the recipients are exactly the active devices that are not software |
| Verdicts.RecipientsInOrder | protocol/src/auth_v1.rs:609-615 | the recipients keep the registry's order |
| Verdicts.OneSignatureOneRequest | protocol/src/webauthn_v1.rs:42-112 | one browser signature, carried in any messages to any hosts, approves the same request bytes everywhere, under one key and for one site |
| Verdicts.SignatureServesOneLane | protocol/src/auth_v1.rs:523-596 | no browser signature that approves a command is ever accepted as an authentication, nor the reverse |
| Verdicts.OnlyItsOwnDenial | protocol/src/v1.rs:748-775 | for each request the one denial a device's verifier accepts is the one that device makes |
| Verdicts.OnlyItsOwnApproval | protocol/src/native_v1.rs:40-61 | the one native approval of given request bytes is the one a native device makes over them |
| Verdicts.OnlyItsOwnAuthentication | protocol/src/auth_v1.rs:486-510 | the one native authentication is the one an enclave device makes for the request those bytes hold |
| HookLanes.Find | hook/src/main.rs:1720-1723 | the search returns a matching record of the list, and nothing only when none matches |
| HookLanes.FirstValidDecision | hook/src/main.rs:1048-1086 | the loop discards exactly the leading invalid candidates and returns the result of the next one |
| HookLanes.ActiveDevices | hook/src/main.rs:808-814 | the request's devices are exactly the active ones of the snapshot |
| HookRuns.ActiveInOrder | hook/src/main.rs:808-814 | the active devices keep the registry's order |
| HookLaws.GateMeaning | hook/src/main.rs:1668-1693 | the final gate denies exactly on epoch, identity or expiry read under the lock, and grants exactly when none stops it and the counter is stored |
| HookLaws.OnlyTheNamed | hook/src/main.rs:1720-1723 | at most one pinned device can have made a candidate, the one it names, so searching for the first match loses nothing |
| HookLaws.ApprovalMeaning | protocol/src/webauthn_v1.rs:42-112 | the library's browser check on its own: for any device, it accepts exactly an assertion of these bytes for one configured site, presence and verification flagged |
| HookLaws.DenyMeaning | hook/src/main.rs:1713-1763 | a denial takes effect exactly when an active pinned device signed it for this request, or the server confirms an unsigned one relayed from a browser |
| HookLaws.CandidateMeaning | hook/src/main.rs:1703-1836 | the result for any candidate follows from which active device made it |
| HookLaws.DiscardedIff | hook/src/main.rs:1703-1836 | a candidate is discarded exactly when no active pinned device made it, except a browser approval that cannot be checked without the configuration |
| HookLaws.GrantedIff | hook/src/main.rs:1764-1836 | a candidate is granted exactly when an active device of the snapshot approved this request, in a browser with presence and verification flagged or natively, and the clock and the gate let it through |
| HookLaws.DeniedIff | hook/src/main.rs:1703-1836 | a candidate denies exactly when an active device made it and it is a denial, late, or refused at the gate |
| HookRuns.DiscardedChangeNothing | hook/src/main.rs:1048-1086 | inserting any number of discarded candidates anywhere in the stream leaves the result unchanged |
| HookRuns.FirstKept | hook/src/main.rs:1048-1086 | the stream's result is that of its first item that is not discarded |
| HookRuns.TransportedMeaning | hook/src/main.rs:861-1009 | a lane ends in a fault of host or transport, or with the result of the one decision that settles it; no size check denies |
| HookRuns.FallsBack | hook/src/main.rs:861-1009 | when no agent took the request, for whatever reason and at whatever moment, the NATS stream alone decides |
| HookRuns.DoesNotFallBack | hook/src/main.rs:861-1009 | once an agent has acknowledged in time, nothing on the NATS side makes any difference |
| HookRuns.CommandExitZeroIff | hook/src/main.rs:780-1009 | exit 0 exactly when the settling decision is an approval by a device active in the snapshot, in time and past the gate |
| HookRuns.CommandExitOneIff | hook/src/main.rs:780-1009 | exit 1 exactly when the settling decision was made by such a device and denies, is late or is refused at the gate |
| HookRuns.ForgersCannotDecide | hook/src/main.rs:319-334 | with no authentic decision among those delivered, on either transport, the exit status is 2 |
| HookRuns.FirstAuthenticDecides | hook/src/main.rs:1048-1086 | the first authentic candidate decides whatever was forged before it and whatever follows |
| HookRuns.LateForgeryStaysDiscarded | hook/src/main.rs:1756-1762 | a forgery stays discarded however late it is checked and whatever the registry says by then |
| AuthChain.AcceptedIff | hook/src/main.rs:2585-2686 | an authentication is accepted, or denied, exactly when a listed hardware device answered these bytes and the gate passes, or stops, it |
| AuthChain.BrowserGrantIsUserVerified | protocol/src/webauthn_v1.rs:83-89 | in both lanes a browser is granted something only with the user-present and user-verified bits set |
| AuthChain.OnlyTheNamedAnswers | hook/src/main.rs:2585-2686 | only the listed hardware device an answer names can have given it |
| AuthChain.OtherSignaturesAreDiscarded | protocol/src/auth_v1.rs:486-510 | a native signature for any command, denial or other authentication is never accepted |
| AuthChain.AuthenticationDecidesNoCommand | protocol/src/v1.rs:748-775 | an authentication signature neither approves nor denies any command |
| AuthChain.HonestAnswerIsAccepted | agent/src/lib.rs:652-692 | what the host seals, a listed enclave device opens to the same bytes while timely, and its answer is accepted subject only to clock and gate |
| AuthChain.OpenedIsSealed | protocol/src/auth_v1.rs:354-381 | what a device shows and signs is its sealed body's own content, and the envelope around it agrees with it, both times included |
| AuthChain.OpensIff | protocol/src/auth_v1.rs:346-381 | a device opens an envelope to a given request exactly when it is an enclave device named once in a version 2 envelope, and its own body holds that request, fresh, with the header repeating it |
| AuthChain.PassesOverIff | protocol/src/auth_v1.rs:351-381 | it passes over an envelope exactly when a well-formed and timely one has no body for it |
| AuthChain.AnswersWhatVerifies | agent/src/lib.rs:664-692 | what a device makes of what it opened is the one native answer that verifies, and a software device makes none |
| AuthChain.SealSucceedsIff | hook/src/main.rs:2247-2270 | sealing succeeds exactly for one to eight valid devices under different fingerprints, a body within its limit and a well-formed header, and addresses each device in order |
| AuthChain.AuthExitZeroIff | hook/src/main.rs:2285-2388 | the authentication lane answers 0 exactly when a snapshot hardware device's answer over the sealed bytes settles it and passes the gate |
| AuthChain.AuthExitOneIff | hook/src/main.rs:2585-2686 | it answers 1 exactly when such an answer is late or refused at the gate |
| TouchId.PromptCanceller.Begin | enclave/src/mac.rs:224-230 | a new attempt gets the next number, wrapping, and forgets the old context and cancellation |
| TouchId.PromptCanceller.Cancel | enclave/src/mac.rs:235-245 | only the current attempt's number cancels, and it invalidates exactly the armed context |
| TouchId.PromptCanceller.Arm | enclave/src/mac.rs:247-254 | a context armed after an early cancellation is invalidated at once |
| TouchId.PromptCanceller.Disarm | enclave/src/mac.rs:256-258 | disarming forgets the context and keeps the number and the cancellation |
| TouchId.AwaitScreen | agent/src/touchid.rs:172-196 | a sheet is raised at the first unlocked look with time left, and every earlier look was locked and in time |
| TouchIdRuns.StepKeepsInv | agent/src/touchid.rs:161-233 | every interleaved step of asks, timers and signers, a signer failing before its sheet included, keeps the prompt invariant while numbers have not wrapped |
| TouchIdRuns.ConcludesWith | agent/src/touchid.rs:219-233 | what an ask concludes with, exactly, in every run: expired if the deadline flag was stored by then, else approved, denied or failed as its signer came back with a signature, a dismissal or a fault |
| TouchIdRuns.DoneHow | agent/src/touchid.rs:161-233 | an ask is done only by concluding, or by giving up at or after its expiry, which counts as expired |
| TouchIdRuns.TimelyAnswerCounts | agent/src/touchid.rs:228-232 | an operator who responds before the flag is stored gets the outcome of that response |
| TouchIdProgress.ExpiredIsLate | agent/src/touchid.rs:204-217 | nothing expires early: a stored flag or an expired outcome is at or after the request's expiry |
| TouchIdProgress.JoinedInTimeCounts | agent/src/touchid.rs:218-220 | a signer that is back while the deadline task sleeps decides, however late the ask concludes |
| TouchIdProgress.EndingFreesTheSheet | agent/src/touchid.rs:115-160 | giving up, concluding and being dropped end the ask and free the sheet |
| TouchIdProgress.EndIsFinal | agent/src/touchid.rs:161-233 | however an ask ended, it stays that way |
| TouchIdProgress.AskCanStep | agent/src/touchid.rs:161-233 | in every reachable state an ask can take a step of its own unless it waits for another's sheet or for a locked screen with time left |
| TouchIdProgress.FreshAskCanBeApproved | agent/src/touchid.rs:161-233 | from any reachable state with the sheet free, a new request in time has a run that approves it |
| TouchIdProgress.DropTakesDownIff | agent/src/touchid.rs:105-111 | dropping a prompt takes its showing sheet down exactly when it was down already or no other signer armed or disarmed since it came up |
| TouchIdProgress.DroppedSheetComesUpInvalid | agent/src/touchid.rs:105-111 | a prompt dropped before its sheet is up leaves a sheet that comes up invalid, unless another attempt has begun meanwhile |
| TouchIdRuns.VerdictIsTheOperators | agent/src/touchid.rs:219-233 | conversely, a denial or an approval is the operator's own response to a sheet nothing had torn down |
| TouchIdRuns.TeardownIsNoVerdict | agent/src/touchid.rs:222-226 | a request whose sheet was torn down ends as expired and publishes nothing |
| TouchIdRuns.LateTimerIsHarmless | agent/src/touchid.rs:39-51 | a timer that cancels after its attempt ended changes nothing for the attempt on screen |
| TouchIdRuns.TimerReachesCurrentIff | enclave/src/mac.rs:224-245 | in every run, wrapped or not, a timer's cancellation reaches the attempt on screen exactly when a multiple of 2^64 attempts has begun since its own |
| TouchIdRuns.SheetWasRaised | agent/src/touchid.rs:140-145 | no signer runs that was not started on an unlocked screen with time left |
| TouchIdRuns.OneSheetIff | agent/src/touchid.rs:8-9 | every running signer is the sheet holder's, and there is at most one, if and only if no dropped prompt's signer is still running |
| TouchIdRuns.ContextKeptIff | enclave/src/mac.rs:247-258 | a sheet's context stays in the canceller exactly as long as no other signer arms or disarms |
| TouchIdRuns.DeadlineTearsDownIff | agent/src/touchid.rs:204-217 | a sheet still showing when its timer cancels is invalidated exactly when no other signer armed or disarmed since it came up, and any that did belongs to a dropped prompt |
| TouchIdRuns.LateSheetIsInvalid | enclave/src/mac.rs:247-254 | a sheet that comes up after its own deadline has cancelled is invalid from the start, dropped prompts or not |
| TouchIdDrops.DropBreaksTheSheetRules | agent/src/touchid.rs:105-111 | a run with a dropped prompt in which two sheets show at once and the deadline misses the live one |
| Migration.IdentityStore.PersistPrev | agent/src/lib.rs:826-857 | an existing copy is left alone; otherwise the rename either installs the whole original or leaves no copy |
| Migration.IdentityStore.ReplaceLive | agent/src/lib.rs:862-894 | the live file is the old one or the new one, whole, wherever the write is cut short |
| Migration.IdentityStore.LoadWith | agent/src/lib.rs:240-323 | loading in place, cut short anywhere and with any verdict on the signing key, follows the load function |
| Migration.NothingIsLost | agent/src/lib.rs:259-277 | after any number of loads cut short anywhere, whatever saved copy an earlier identity left, signing key and token hash are the original ones and the secret is inline or stored under the live reference |
| Migration.NextLoadSucceeds | agent/src/lib.rs:240-323 | from there a load that is not cut short returns the original identity exactly when the original's own signing key and token hash can be used |
| Migration.NoLoadReturnsAnother | agent/src/lib.rs:240-323 | no load on the way ever returns any other identity |
| Migration.StoreLossIsRecoverableIff | agent/src/lib.rs:278-288 | with the secret store wiped the original file is still there, live or as the saved copy, exactly when the live one was not replaced yet or no other identity's copy was in the way |
| Migration.LoadsIff | agent/src/lib.rs:240-323 | a file loads exactly if it is version 1 with a usable key and token hash and its secret in one place only, whole |
| Migration.OtherFilesStay | agent/src/lib.rs:240-323 | no sequence of loads rewrites a file that is not a legacy one with a whole secret, nor stores anything for it |
| Migration.PrevIsWrittenOnce | agent/src/lib.rs:823-830 | once a saved copy exists no load changes it |
| Migration.PrevHoldsTheOriginalIff | agent/src/lib.rs:826-830 | the saved copy is the identity migrated exactly when none, or that one, was there before |
| Migration.OtherSecretsStay | agent/src/lib.rs:265-269 | no load touches another identity's stored secret |
| Migration.SaveLoadRoundTrip | agent/src/lib.rs:363-390 | a save succeeds exactly on a free path without faults, and loads back as itself |
| Migration.SaveKeepsExisting | agent/src/lib.rs:868-877 | saving never replaces an identity |
| Migration.FailedSaveLeavesNothingIff | agent/src/lib.rs:378-387 | a failed save leaves nothing behind exactly when the secret was taken back and the file was never created |
| Quoting.QuoteArgvRoundTrip | agent/src/main.rs:1692-1713 | POSIX word splitting reads every rendered vector back as exactly that vector, with no character left open to expansion |
| Quoting.QuoteArgvInjective | agent/src/main.rs:1685-1697 | two different vectors never render alike |
| Quoting.ShownAsIsIff | agent/src/main.rs:1703-1713 | an argument is shown unquoted exactly when it is non-empty and made of letters, digits and ten harmless signs |
| Settings.RetainForeign | hook/src/approvals.rs:322-322 | the retaining pass drops exactly the owned handlers |
| Settings.CleanGroup | hook/src/approvals.rs:317-335 | a group goes only if it held nothing but the hook, and the flag tells whether anything was taken out |
| Settings.CleanGroups | hook/src/approvals.rs:313-338 | the loop leaves of each group exactly what the hook does not own, in order, and reports whether anything changed |
| Settings.SettingsFile.RemoveOwnedHook | hook/src/approvals.rs:300-339 | removing in place edits the groups it finds, refuses a wrong shape with the tree unchanged, and reports a change exactly when an owned handler was there |
| Settings.SettingsFile.InstallHarness | hook/src/approvals.rs:259-298 | installing in place creates the missing levels, keeps the rest of the tree, and leaves a malformed one as it was |
| SettingsLaws.OtherSettingsStay | hook/src/approvals.rs:259-298 | neither installing nor removing changes any other setting or any other hook event |
| SettingsLaws.OwnedIff | hook/src/approvals.rs:341-347 | a handler counts as the hook's exactly when it is a command whose line has the marker somewhere in it |
| SettingsLaws.HandlerStaysIff | hook/src/approvals.rs:316-325 | wherever it stands in its group, a handler is taken out exactly when it mentions the marker |
| SettingsLaws.GroupGoesIff | hook/src/approvals.rs:326-335 | a group disappears exactly when it held handlers, every one of them the hook's, and nothing else but a matcher |
| SettingsLaws.ForeignHandlerStays | hook/src/approvals.rs:300-339 | a handler that does not mention the marker survives a removal between the same neighbours |
| SettingsLaws.RemoveMentionsNone | hook/src/approvals.rs:300-339 | after a removal no handler mentions the marker, and only a mentioning one makes it change anything |
| SettingsLaws.RefusedIff | hook/src/approvals.rs:300-312 | both commands refuse exactly the files whose hooks are no table or whose permission requests are no list |
| SettingsLaws.ForeignGroupsStay | hook/src/approvals.rs:316-338 | every group that is not the hook's alone stays, in order, with everything the operator wrote in it, handlers or none |
| SettingsLaws.UntouchedGroupStays | hook/src/approvals.rs:326-335 | a group without a handler of the hook's survives verbatim where it stands |
| SettingsLaws.RemoveMeaning | hook/src/approvals.rs:300-339 | removing fails only on a malformed file, changes it exactly when an owned handler was there, and is idempotent |
| SettingsLaws.InstallMeaning | hook/src/approvals.rs:259-273 | installing puts one group at the end of what removing leaves, creating the missing levels |
| SettingsLaws.InstallReplaces | hook/src/approvals.rs:259-273 | installing again, from the same or a moved executable, equals installing once |
| SettingsLaws.InstalledOnce | hook/src/approvals.rs:259-273 | afterwards only the last group is the hook's, and every other group is where it was with all the operator wrote in it |
| SettingsLaws.UninstallUndoesInstallIff | hook/src/approvals.rs:275-282 | removing after installing restores the file exactly when it had a permission request list and no hook in it |
| SettingsLaws.ManagedCommandWords | hook/src/approvals.rs:349-361 | for every path, word splitting reads the installed line as that program and exactly the managed arguments |

## Left out

- NATS, HTTP, Unix sockets, pipes and the async runtime appear only as events and orders of steps.
- Cryptography: SHA-256, ECDSA, X25519 and the AEAD are ideal; key and DER parsing is left out.
- JSON text: control messages, client data and authentication requests come through parser parameters, so version skew inside one message kind is not modelled.
- File ownership, modes, symlinks, size caps on reading and fsync durability: a rename is taken as durable once it happened, except where a write fault says otherwise.
- Clocks: the agent's monotonic and wall clocks are one clock, and times are whole seconds (milliseconds on the socket).
- The retry loop around a busy registry lock (`hook/src/registry.rs:121-134`): waiting is any delay before the lock is taken. The lifecycle lock may be released a step earlier than in the program, which only adds interleavings.
- The shape check of the fingerprint argument in revoke (`hook/src/main.rs:3137-3139`), which refuses before anything else happens.
- The context fields of authentication requests that only people read (user, tty, command) are one opaque field; their length and character checks are not modelled.
- The random box-secret reference and the operating system keychain: references are assumed fresh, and the store is a map.
- Command position in a shell: `Quoting` covers word splitting, so a first word that is an assignment or a reserved word is not treated apart.
- A signer thread that panics, and the companion review window shown before Touch ID.
- The server, the browser page, the PAM and sudo plugins, enrollment transcripts, tool approvals beyond settings, CLI output and terminal escaping: not part of this model.
- Socket.Attempt: connecting and writing are one event each with a time, because their internal progress decides nothing.
- AdmissionRuns.Agreement: stated for one request, meaning one id with one body; the same id with another body may be answered anew after the retention.
- AuthChain.SealRequest: the 3 MiB cap on the serialized envelope (`protocol/src/auth_v1.rs:335-341`) is not modelled there, because envelopes are values; the hook's own lane has it in `HookLanes.Sealed`.
- Quoting.QuoteArgv: `=` and `%`, which section 2.2 of the POSIX Shell Command Language calls special only in some positions, are read as ordinary characters.
