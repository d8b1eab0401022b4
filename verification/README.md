# BetterFrame: verified models of its protocols and policies

BetterFrame drives wall displays: kiosks and their updaters, ioBOX input devices, an Android viewer, and a server
that pairs, orders and limits them. This project models the parts of it that are state machines or decision
procedures and proves what they are for. It is written in Dafny 4.11; `dafny verify dfyconfig.toml` checks all of it.

Two layers recur. A component's meaning is a set of functions, or a step relation, on immutable values, and the
results are lemmas about every input, every step or every run of it. Where the original changes state in place there
is also a class with that state, whose methods follow the original statement by statement and are proved equal to
the functions, so that the lemmas are about them too.

| component | files | original form |
|---|---|---|
| Windows updater | `UpdaterJournal.dfy`, `UpdaterWorker.dfy` | service tick and detached helper over durable files, either of which may die between any two writes |
| ioBOX enrolment | `IoBoxEnrollment.dfy`, `IoBoxParties.dfy` | server transactions and device flash, joined by a network that loses, delays and repeats |
| Power ordering | `PowerSessions.dfy`, `PowerSessionProofs.dfy`, `PowerOrder.dfy` | bounded session history with ownership, expiry and eviction |
| Power lock and dispatch | `PowerLock.dfy`, `PowerDispatch.dfy` | promise chains and callbacks, as interleaved steps |
| Rate limiter | `RateLimit.dfy` | lazily trimmed storage, against the full history |
| Kiosk pairing | `KioskPairing.dfy`, `KioskPairingProofs.dfy`, `KioskPairingService.dfy` | row-locked confirmation and acknowledgement, two-read polls |
| Android viewer | `AndroidLayout.dfy`, `AndroidPlan.dfy` | grid validation and render plan |
| Diagnostics | `DiagnosticQueue.dfy` | bounded queue, upload in flight, spool across restarts |
| Versions | `Versions.dfy`, `OsUpdateStatus.dfy` | precedence in two programs, and the reconciler built on it |
| Small policies | `HttpPolicy.dfy`, `UpdateSchedule.dfy`, `StreamReuse.dfy` | URL parser and origin policy, maintenance windows, reuse of streams |

Results that say where a promise stops, each with the exact condition or the case that shows it:

- `KioskPairingProofs.PollAfterAcknowledgement`: a poll that finishes after the acknowledgement hands credentials out if
  and only if it had read them from the row before it, and the kiosk is there and enabled.
- `PowerLock.NestedWorkExclusiveIff`: all work on a kiosk belongs to one ticket, now and for as long as tickets await the
  work nested in them, if and only if no nested work on it runs whose ticket has been released.
  `PowerLock.DetachedNestedCallOverlaps` is a run in which work nested in a released ticket runs beside the next ticket
  and the work nested in that one.
- `Versions.TotalPreorderIffDiscrete`: version precedence is transitive if and only if no two different identifiers
  collate as equal, because the comparison stops at the first pair that is not identical.
- `Versions.AgreeExactlyWhen`: the server and the deployment script order the versions both accept alike if and only if
  rounding to doubles keeps their numeric identifiers apart, which it does up to 2 to the 53, and the server's collation
  puts different identifiers in the order of their code points. A collation that puts a before B does not: the two
  programs then disagree on 1.0.0-alpha.a and 1.0.0-alpha.B (`Versions.DictionaryOrderDisagrees`).
- `UpdaterJournal.CandidateRunsBounded`: a candidate's installer runs at most once under a journal, and at most once more
  for each helper that was still waiting when the journal was opened. `UpdaterJournal.SecondRunHappens` is a run in which
  a helper left behind by a rollback makes it two.
- `UpdateSchedule.RawScheduleAgreesIff`: a raw schedule means the same to the device and to the server if and only if
  its mode is `always`, or `windows` with at least one well-formed window.
- `AndroidPlan.ExpandingIsLive` asks for a cell id that is not empty: an empty id is read as no expansion. The
  bundle reader never produces one.

## Model

| member | source | states |
|---|---|---|
| UpdaterJournal.JournalAlwaysRecoverable | client/windows-updater/src/worker.rs:81-110 | In every world of every run, so after a crash anywhere: no journal and the installed release is the one at rest, or a journal whose previous package verifies on disk and is the release at rest |
| UpdaterJournal.WayBackIsSigned | client/windows-updater/src/lib.rs:219-246 | Written out: while a journal exists, the previous package on disk is of the release at rest, with the recorded digest and size, signed, and within the size limit |
| UpdaterJournal.OnlySignedPackagesInstall | client/windows-updater/src/worker.rs:276-290 | What is installed changes only under a journal, to the release of a package on disk whose digest a signature in the journal vouches for |
| UpdaterJournal.JournalClosesOnlyWhenSettled | client/windows-updater/src/worker.rs:332-363 | The journal goes away only after a matching health report dated at or after the attempt's start, or after the previous package was reinstalled; either way the release at rest is what is installed |
| UpdaterJournal.RestNeverGoesDown | client/windows-updater/src/lib.rs:193-217 | The release at rest only moves to upgrades, over any run |
| UpdaterJournal.InstalledNeverGoesDown | client/windows-updater/src/worker.rs:157-196 | What is installed whenever no journal exists never goes down, from a version that parses |
| UpdaterJournal.AtMostThreeAttempts | client/windows-updater/src/worker.rs:158-174 | While offered version and push request stay the same, at most three attempts start and consecutive ones are at least 1800 s apart |
| UpdaterJournal.NewOfferStartsFresh | client/windows-updater/src/worker.rs:163-174 | A new version or a new push request starts with all its attempts and at once |
| UpdaterJournal.OfferAcceptedExactly | client/windows-updater/src/lib.rs:193-217 | An offer is accepted exactly as an upgrade of 1 byte to 512 MB under an id of letters, digits and hyphens at one of the two routes |
| UpdaterJournal.VerifiedExactly | client/windows-updater/src/lib.rs:219-246 | A file verifies exactly with the recorded size within the limit, the recorded digest and a signature of it |
| UpdaterJournal.OfferAddressIsPlain | client/windows-updater/src/lib.rs:197-215 | The address of an accepted offer is a server path without dots, queries or other special characters; its size is 1 byte to 512 MB |
| UpdaterJournal.EveryJournalSpendsAnAttempt | client/windows-updater/src/worker.rs:230-243 | No two journals share an attempt record, so the attempt bound bounds journals |
| UpdaterJournal.CandidateRunsBounded | client/windows-updater/src/worker.rs:246-289 | Under each journal the candidate's installer runs at most once, plus once for each helper still waiting when the journal was opened |
| UpdaterJournal.OfferRunsBounded | client/windows-updater/src/worker.rs:157-243 | While offered version and push request stay the same, candidate installers run at most three times in all, plus once for each helper still waiting at one of the openings; at most three times if none ever was |
| UpdaterJournal.SecondRunHappens | client/windows-updater/src/worker.rs:104-110 | A run in which a helper left behind by a rollback meets the next journal and its candidate's installer runs twice |
| UpdaterWorker.Updater.constructor | client/windows-updater/src/worker.rs:12-41 | A fresh machine is the start of a run |
| UpdaterWorker.Updater.Tick | client/windows-updater/src/worker.rs:81-244 | Every world a tick passes through continues the run; a journal it opens was offered twice, is an upgrade under this server's policy, names the installed release as the way back, may be installed now, and has a helper; without a fault of files or processes it deals with any journal, fails only if the server is silent, not the policy's or makes no takable offer, and opens nothing only if there is nothing to do |
| UpdaterWorker.Updater.Follow | client/windows-updater/src/worker.rs:128-157 | A policy is saved, and a journal opened, only if updates were not suspended since the tick began; the newest policy is then the one on disk |
| UpdaterWorker.Updater.Recover | client/windows-updater/src/worker.rs:85-110 | A running candidate is confirmed exactly when it is reported healthy at the read; otherwise it waits while nobody is signed in and for 300 s after that, then is marked for rollback, as is any interrupted installation; whatever is marked has a helper unless a fault struck; nothing installed changes |
| UpdaterWorker.Updater.Observe | client/windows-updater/src/worker.rs:88-103 | The five minutes run from the first look with somebody signed in, kept in the journal |
| UpdaterWorker.Updater.GiveUp | client/windows-updater/src/worker.rs:106-109 | The journal is marked for rollback and a helper launched, unless a fault strikes |
| UpdaterWorker.Updater.Update | client/windows-updater/src/worker.rs:156-243 | A journal appears only for an offer that validates and that the recheck still offers; without a fault none appears only if the attempts are spent, the policy was suspended meanwhile, the recheck no longer offers it, or the packages do not verify |
| UpdaterWorker.Updater.Recheck | client/windows-updater/src/worker.rs:199-243 | What the server no longer offers after the downloads is not installed, and what it still offers is begun |
| UpdaterWorker.Updater.StageInstallers | client/windows-updater/src/worker.rs:189-196 | Without a fault it succeeds exactly if both packages can be had, verify and carry the right versions; then they are on disk, and nothing else changed |
| UpdaterWorker.Updater.Begin | client/windows-updater/src/worker.rs:230-243 | A journal is opened only with its attempt already recorded, and without a fault it is, with its helper |
| UpdaterWorker.Updater.Handoff | client/windows-updater/src/worker.rs:246-257 | A helper is launched for a journal just opened, once, or for one marked for rollback; the journal stays as it is |
| UpdaterWorker.Updater.Help | client/windows-updater/src/worker.rs:259-297 | A helper's whole life continues the run; without a fault it settles any journal and is gone |
| UpdaterWorker.Updater.DownloadPrevious | client/windows-updater/src/lib.rs:248-304 | Without a fault the previous package is replaced exactly if the download verifies |
| UpdaterWorker.Updater.DownloadCandidate | client/windows-updater/src/lib.rs:248-304 | Without a fault the candidate package is replaced exactly if the download verifies |
| UpdaterWorker.Updater.Healthy | client/windows-updater/src/worker.rs:48-53 | True exactly when the health file reports the candidate, no earlier than the attempt and at most 60 s from now |
| UpdaterWorker.Updater.Apply | client/windows-updater/src/worker.rs:268-297 | A helper that meets no error leaves the candidate, or the release at rest and no journal; only a fault makes it fail, and without one it gives the candidate up only for a bad package, suspended updates or 150 looks without a report; verification never refuses the way back |
| UpdaterWorker.Updater.Install | client/windows-updater/src/worker.rs:299-345 | Success leaves the candidate installed and a journal awaiting health with start and sessions, or none; failure leaves a journal that names the same way back |
| UpdaterWorker.Updater.Prepare | client/windows-updater/src/worker.rs:303-312 | The journal gets the start of the attempt and everybody signed in before or while the clients stop |
| UpdaterWorker.JoinedOnce | client/windows-updater/src/worker.rs:306-311 | Sessions found while stopping follow the earlier ones, each once |
| UpdaterWorker.Updater.AwaitConfirmation | client/windows-updater/src/worker.rs:332-344 | The first report found ends the polling confirmed; without one it ends when nobody is signed in any more, or fails after exactly 150 looks; otherwise a fault struck |
| UpdaterWorker.Updater.RollBack | client/windows-updater/src/worker.rs:347-363 | It succeeds exactly without a fault, and leaves the previous release installed, at rest, and no journal |
| UpdaterWorker.Updater.Reinstall | client/windows-updater/src/worker.rs:354-356 | It succeeds exactly without a fault, and leaves the previous release installed |
| UpdaterWorker.Updater.Live | client/windows-updater/src/worker.rs:55-79 | Any series of services and helpers, each possibly cut short, is one run, ends recoverable, and did not go down |
| IoBoxEnrollment.ClaimKeeps | server/src/shared/iobox-pairing.ts:29-70 | A successful claim answers with the serial's one box and key, new or old, and touches no other serial |
| IoBoxEnrollment.BindKeeps | server/src/shared/iobox-pairing.ts:11-27 | Binding keeps every box and key, and binds a serial to one secret for good |
| IoBoxEnrollment.AckKeeps | server/src/shared/iobox-pairing.ts:72-82 | Only the bound secret acknowledges; that serial's envelope is gone and it is marked, every other claim stays as it was |
| IoBoxEnrollment.RetryAnsweredExactly | server/src/shared/iobox-pairing.ts:39-48 | A paired serial's claim is answered exactly for its bound secret, while the envelope is kept, the box enabled and the tenant absent or active |
| IoBoxEnrollment.FirstClaimAnsweredExactly | server/src/shared/iobox-pairing.ts:34-50 | A serial without a box is enrolled exactly if it and its model are known and the secret is the bound one, if one is |
| IoBoxEnrollment.FirstClaimEnrolls | server/src/shared/iobox-pairing.ts:51-67 | The first claim gives the serial an enabled box that the answered key authenticates, and keeps the answer encrypted for retries |
| IoBoxEnrollment.BoundExactly | server/src/shared/iobox-pairing.ts:11-27 | A serial is bound exactly to the secret it is bound to, or to a first one while it has no box |
| IoBoxEnrollment.AcknowledgedExactly | server/src/shared/iobox-pairing.ts:72-79 | An acknowledgement is accepted exactly for the serial's own box and tenant and its bound secret |
| IoBoxEnrollment.RunInv | iobox-firmware/src/main.cpp:605-654 | Server, device and network together keep the enrolment invariant under loss, repetition, failed writes and reboots |
| IoBoxEnrollment.OneBoxPerSerial | server/src/shared/iobox-pairing.ts:29-70 | A serial never gets a second box |
| IoBoxEnrollment.ClaimRetriesAgree | server/src/shared/iobox-pairing.ts:40-48 | Every claim the device was ever answered carries the identical id and key |
| IoBoxEnrollment.StoredIdentityIsTheBox | iobox-firmware/src/main.cpp:118-138 | An identity in flash or RAM is the server's box for the serial |
| IoBoxEnrollment.KeyAlwaysRecoverable | server/src/shared/iobox-pairing.ts:29-82 | A paired device in service holds its identity in flash or gets it from a claim with the secret in flash |
| IoBoxEnrollment.NoAnswerOutOfService | server/src/shared/iobox-pairing.ts:43-46 | In every run, while a paired serial is out of service the device is answered no claim |
| IoBoxEnrollment.HeldKeyAuthenticates | iobox-firmware/src/main.cpp:118-138 | In every run, in service, exactly the key in the device's flash authenticates it |
| IoBoxEnrollment.ErasedOnlyWhenHeld | server/src/shared/iobox-pairing.ts:72-82 | The retry envelope is erased only when the device already holds the identity durably |
| IoBoxParties.PairingServer.Bind | server/src/shared/iobox-pairing.ts:11-27 | The binding transaction: its new rows or its error with everything rolled back |
| IoBoxParties.PairingServer.ClaimBox | server/src/shared/iobox-pairing.ts:29-70 | The claim transaction: its envelope and new rows, or its error with everything rolled back |
| IoBoxParties.PairingServer.Acknowledge | server/src/shared/iobox-pairing.ts:72-82 | The acknowledgement transaction: its new rows, or its error with everything rolled back |
| IoBoxParties.Firmware.SaveIdentity | iobox-firmware/src/main.cpp:118-138 | RAM takes an identity exactly when there is one and flash verified it; a reported failure leaves RAM alone |
| IoBoxParties.Firmware.SaveSecret | iobox-firmware/src/main.cpp:618-630 | A secret is used only when flash verified it |
| IoBoxParties.Firmware.Setup | iobox-firmware/src/main.cpp:953-978 | After power-up RAM is what flash holds |
| IoBoxParties.Firmware.AcknowledgeClaim | iobox-firmware/src/main.cpp:605-613 | An acknowledgement is sent exactly as long as it is due, with secret and key, only with the identity in flash; it stays due until answered, and not longer if flash verifies |
| IoBoxParties.Firmware.AnnounceOrClaim | iobox-firmware/src/main.cpp:615-654 | Every move is one the protocol allows; the secret is drawn once, an identity in use is kept; without one the device announces itself, claims exactly if announced, and takes exactly the answered identity, due for acknowledgement until that is answered |
| IoBoxParties.Firmware.Claim | iobox-firmware/src/main.cpp:634-653 | The requests of a round, and what becomes of the answer |
| PowerSessionProofs.StepInv | server/src/shared/power-state-order.ts:17-101 | After every operation: at most 4096 ownerless records, retired lists of at most 8, sorted by expiry, without the current session, none outliving its record |
| PowerSessionProofs.StepFind | server/src/shared/power-state-order.ts:17-47 | A record after an operation is the intended one; a missing one was ownerless and lapsed or was evicted for capacity |
| PowerSessionProofs.OwnedRecordsStay | server/src/shared/power-state-order.ts:17-30 | An owned record keeps owner and session, and its revision does not fall, through everything but a bind of the kiosk and its own socket's unbind |
| PowerSessionProofs.BindTakesOver | server/src/shared/power-state-order.ts:39-67 | A bind by whatever socket takes an owned record over; a session it replaces is retired for thirty minutes, one it keeps does not lose revision |
| PowerSessionProofs.BareBindReleases | server/src/shared/power-state-order.ts:57-65 | A bind without a sample gives the record up with session and history for thirty minutes, unless capacity evicts it at once |
| PowerSessionProofs.RevisionNeverFalls | server/src/shared/power-state-order.ts:39-47 | A session's revision never falls while it stays current |
| PowerSessionProofs.HeartbeatAllowedExactly | server/src/shared/power-state-order.ts:86-94 | In every state a heartbeat is allowed exactly if the live record has its session and no higher revision, or there is no live record, or an ownerless one of another session whose history holds no unexpired retirement of it |
| PowerSessionProofs.StaleHeartbeatRefused | server/src/shared/power-state-order.ts:89-89 | In every run a heartbeat of the session on record with an older revision is refused |
| PowerSessionProofs.SampleAllowedExactly | server/src/shared/power-state-order.ts:80-83 | A sample is allowed exactly if the live record has its session and no higher revision |
| PowerSessionProofs.AdvanceRecords | server/src/shared/power-state-order.ts:95-101 | An allowed report becomes the record's revision and keeps the record for thirty minutes; any other changes nothing of it |
| PowerSessionProofs.UnbindReleases | server/src/shared/power-state-order.ts:68-75 | The owning socket gives the record up with session, revision and history for thirty minutes; any other socket changes nothing |
| PowerSessionProofs.SweepsWhenDue | server/src/shared/power-state-order.ts:17-19 | A sweep happens at once after an operation that may add an ownerless record, and otherwise not before it is due; no other kiosk is touched without one |
| PowerSessionProofs.SweepDropsLapsed | server/src/shared/power-state-order.ts:17-25 | A prune that is due leaves no ownerless record that has expired |
| PowerSessionProofs.EvictedExpireFirst | server/src/shared/power-state-order.ts:26-29 | An ownerless record evicted for capacity expires no later than any ownerless record kept |
| PowerSessionProofs.AllowedHeartbeatIsRecorded | server/src/shared/power-state-order.ts:86-94 | An allowed heartbeat leaves its session current: the record unchanged, or a new ownerless one at revision -1 for thirty minutes that survives its own prune at full capacity |
| PowerSessionProofs.RunInv | server/src/shared/power-state-order.ts:17-101 | The same invariant in every state of every run |
| PowerSessionProofs.BarHolds | server/src/shared/power-state-order.ts:39-47 | A retired session stays in the history until eight later retirements |
| PowerSessionProofs.ReplacedSessionStaysOut | server/src/shared/power-state-order.ts:86-94 | A session replaced at t cannot come back by heartbeat before t + 30 min unless a socket rebinds it, eight retirements displace it or the ownerless record is evicted |
| PowerOrder.PowerStateOrder.Prune | server/src/shared/power-state-order.ts:17-30 | The two passes equal the specification: lapsed ownerless records go, then those closest to expiry until 4096 are left |
| PowerOrder.PowerStateOrder.EvictOldest | server/src/shared/power-state-order.ts:26-29 | The eviction loop removes exactly the ownerless records first by expiry |
| PowerOrder.PowerStateOrder.DropLapsed | server/src/shared/power-state-order.ts:20-25 | The first pass drops the lapsed ownerless records and lists the other ownerless ones |
| PowerOrder.PowerStateOrder.CurrentSession | server/src/shared/power-state-order.ts:31-38 | A lapsed ownerless record reads as absent and is removed |
| PowerOrder.PowerStateOrder.ReplaceSession | server/src/shared/power-state-order.ts:39-47 | The new record, its retired list and the prune that follows |
| PowerOrder.PowerStateOrder.BindPowerSession | server/src/shared/power-state-order.ts:57-67 | The bind step of the run model |
| PowerOrder.PowerStateOrder.UnbindPowerSession | server/src/shared/power-state-order.ts:68-75 | The unbind step, for the owning socket only |
| PowerOrder.PowerStateOrder.HeartbeatPowerSampleAllowed | server/src/shared/power-state-order.ts:86-94 | The heartbeat step and whether it is allowed |
| PowerOrder.PowerStateOrder.AdvancePowerSample | server/src/shared/power-state-order.ts:95-101 | The advance step, for an allowed sample only |
| PowerOrder.PowerStateOrder.PowerSampleAllowed | server/src/shared/power-state-order.ts:80-83 | Whether a sample is of the current session and no older |
| PowerLock.MutualExclusion | server/src/shared/power-state-order.ts:104-117 | At most one outermost holder per kiosk |
| PowerLock.EntryInCallOrder | server/src/shared/power-state-order.ts:107-112 | Whoever enters, every earlier caller of the kiosk has left |
| PowerLock.EntryGoneWhenDrained | server/src/shared/power-state-order.ts:113-116 | A kiosk's map entry exists exactly while some call of it is unfinished |
| PowerLock.OldestWaiterCanEnter | server/src/shared/power-state-order.ts:107-112 | If nobody before it is unfinished, the oldest waiting call of a kiosk can enter |
| PowerLock.NestedCallsDoNotWait | server/src/shared/power-state-order.ts:105-106 | In every run a call for any kiosk its context carries makes no ticket and its work starts at once, through a ticket that has been let in |
| PowerLock.OverlapNeedsReleasedTicket | server/src/shared/power-state-order.ts:104-117 | In every run two pieces of work on a kiosk that belong to different tickets run together only if one is nested work whose ticket is released |
| PowerLock.NestedWorkExclusiveIff | server/src/shared/power-state-order.ts:104-117 | In every run all work on a kiosk belongs to one ticket, now and on every continuation in which tickets await the work nested in them, exactly when no running nested work on it has a released ticket |
| PowerLock.HolderKeepsTicketsOutIff | server/src/shared/power-state-order.ts:104-117 | The ticket a context holds a kiosk by keeps other tickets out, short of its release, exactly while it is running |
| PowerLock.DetachedNestedCallOverlaps | server/src/shared/power-state-order.ts:105-106 | A run of seven steps after which work nested in a released ticket runs beside the next ticket and the work nested in it |
| PowerLock.PowerStateLock.Request | server/src/shared/power-state-order.ts:104-110 | The synchronous part of a call is the call step |
| PowerLock.PowerStateLock.Resume | server/src/shared/power-state-order.ts:111-112 | The predecessor's promise resolving is the entry step |
| PowerLock.PowerStateLock.Release | server/src/shared/power-state-order.ts:113-116 | The finally block is the exit step |
| PowerDispatch.SettlesOnce | server/src/shared/power-dispatch.ts:32-42 | In every interleaving a dispatch resolves at most once, exactly when settled, and sends at most once |
| PowerDispatch.SettledIsFinal | server/src/shared/power-dispatch.ts:35-42 | A settled dispatch never changes its answer, sends or resolves again |
| PowerDispatch.TimeoutSettles | server/src/shared/power-dispatch.ts:43-43 | Whatever else happens, the timeout settles |
| PowerDispatch.TrueOnlyWhenConfirmed | server/src/shared/power-dispatch.ts:44-71 | True only on the connection that is still current, after one send, and after these events of the run: an error-free write, and for a viewer a validation before it that said yes and an accepted result from its own socket |
| PowerDispatch.SettlesExactlyWhen | server/src/shared/power-dispatch.ts:35-71 | In every run an open dispatch settles true in a step exactly when the step is its error-free write, a viewer's after its acceptance, or its handled acceptance after the write, on the current open connection; and false exactly on a timeout, a refused validation or result, a send that cannot be made, a failed write, or any of these events off the current connection |
| PowerDispatch.CallStartsExactly | server/src/shared/power-dispatch.ts:24-43 | A call starts a dispatch exactly for a known kiosk on an open socket, a wake or standby message and, for a viewer, a socket that is not busy |
| PowerDispatch.ValidatedSends | server/src/shared/power-dispatch.ts:47-66 | A dispatch sends at its validation exactly if the validation said yes, the connection is still current and open and, for a viewer, acknowledgements can be registered |
| PowerDispatch.LostConnectionFails | server/src/shared/power-dispatch.ts:44-67 | A write that ends after the kiosk was disconnected or replaced or its socket closed settles false |
| PowerDispatch.ConnectedIsReached | server/src/shared/power-dispatch.ts:24-31 | A kiosk that connects on a free, open socket is no longer refused |
| PowerDispatch.FlagsHaveHistory | server/src/shared/power-dispatch.ts:44-71 | Every validated, written or accepted flag stands for an event of the run, the latter two after the validation |
| PowerDispatch.NeverBornTrue | server/src/shared/power-dispatch.ts:17-31 | A call never yields a dispatch that is already true |
| PowerDispatch.AckOnlyFromOwnSocket | server/src/shared/power-dispatch.ts:87-103 | An acknowledgement counts only from the kiosk and socket asked, under its own request id, and well formed |
| PowerDispatch.BusyExactlyWhileUnsettled | server/src/shared/power-dispatch.ts:29-38 | A socket is marked busy exactly while it has an unsettled viewer dispatch, and then one |
| PowerDispatch.EitherOrderConfirms | server/src/shared/power-dispatch.ts:60-71 | A waiting viewer dispatch is confirmed in every order of the incoming result, its handling and the write callback |
| PowerDispatch.RunInv | server/src/shared/power-dispatch.ts:17-76 | Dispatches, busy sockets and pending requests agree in every state of every run |
| PowerDispatch.Coordinator.DispatchPower | server/src/shared/power-dispatch.ts:17-76 | The call step, and the immediate refusals |
| PowerDispatch.Coordinator.Settle | server/src/shared/power-dispatch.ts:35-42 | The finish closure |
| PowerDispatch.Coordinator.Send | server/src/shared/power-dispatch.ts:50-71 | From the check after validation to the send |
| PowerDispatch.Coordinator.OnValidated | server/src/shared/power-dispatch.ts:47-50 | The validation step |
| PowerDispatch.Coordinator.OnWritten | server/src/shared/power-dispatch.ts:66-70 | The write callback step |
| PowerDispatch.Coordinator.OnAck | server/src/shared/power-dispatch.ts:60-64 | The acknowledgement step |
| PowerDispatch.Coordinator.OnTimeout | server/src/shared/power-dispatch.ts:43-43 | The timeout step |
| PowerDispatch.Coordinator.AcceptPowerResult | server/src/shared/power-dispatch.ts:87-103 | The incoming result step, and whether it was consumed |
| RateLimit.TrafficFaithful | server/src/shared/rate-limit.ts:35-77 | After every call storage is within both caps, `entries` is the sum of bucket sizes, and live hits are those of the full history |
| RateLimit.NoWindowOverfull | server/src/shared/rate-limit.ts:55-65 | Between resets no window of the configured length holds more than `max` admitted hits of a key |
| RateLimit.TakeDecidedByHistory | server/src/shared/rate-limit.ts:55-65 | A take is admitted exactly when the full history has fewer than `max` live hits and storage has room |
| RateLimit.StoredHitsAreRecent | server/src/shared/rate-limit.ts:48-52 | After a call no stored hit is older than the window plus a sweep interval |
| RateLimit.OtherKeysUntouched | server/src/shared/rate-limit.ts:39-77 | A call on one key never changes which hits of another are live, then or later |
| RateLimit.RemainingIsExact | server/src/shared/rate-limit.ts:66-72 | `remaining` returning r means exactly r immediate takes succeed and the next fails |
| RateLimit.CreateRateLimiter | server/src/shared/rate-limit.ts:26-37 | A limiter is made exactly for positive safe integers, with the defaults filled in |
| RateLimit.ConfigurationLimits | server/src/shared/rate-limit.ts:30-34 | Limits are whole numbers from 1 to 2 to the 53 less one; the defaults are ten and a hundred thousand |
| RateLimit.RateLimiter.Trim | server/src/shared/rate-limit.ts:39-46 | One bucket keeps its live hits and the count follows |
| RateLimit.RateLimiter.Sweep | server/src/shared/rate-limit.ts:48-52 | When due, every bucket keeps its live hits |
| RateLimit.RateLimiter.Take | server/src/shared/rate-limit.ts:55-65 | The take step and its answer |
| RateLimit.RateLimiter.Remaining | server/src/shared/rate-limit.ts:66-72 | The remaining quota |
| RateLimit.RateLimiter.Reset | server/src/shared/rate-limit.ts:73-76 | One key is forgotten and the count follows |
| KioskPairing.FreeNameIsFirstFree | server/src/shared/pairing.ts:255-262 | A name is found exactly when one of the 99 candidates is free, and it is the first free one |
| KioskPairingProofs.ConsumedRowStays | server/src/shared/pairing.ts:185-199 | A confirmed row never reopens; it changes only by losing its credentials to an acknowledgement |
| KioskPairingProofs.OneKioskPerCode | server/src/shared/pairing.ts:177-320 | A code creates or rekeys at most one kiosk over any run, and none if it was used before |
| KioskPairingProofs.KioskChangesAreIssued | server/src/shared/pairing.ts:239-315 | A confirmation changes a kiosk only when it is the code's first, and then that one |
| KioskPairingProofs.FirstConfirmationEffect | server/src/shared/pairing.ts:209-289 | A replacement keeps id, name and enabling and takes the rest from the device, refused on mismatch unless forced; a new kiosk gets a name not in use |
| KioskPairingProofs.ConfirmedExactly | server/src/shared/pairing.ts:200-262 | A code not used yet is confirmed exactly until it expires, for a kiosk of the tenant the device fits or is forced on, or for a new one if one of 99 numbered names is free; the operator's name goes before the device's, and the first free one is given |
| KioskPairingProofs.UnknownCodeRefused | server/src/shared/pairing.ts:97-104 | A code without a row is neither confirmed nor pending and changes nothing |
| KioskPairingProofs.InitiatedCodePends | server/src/shared/pairing.ts:58-84 | A code just drawn is pending until it expires for whoever knows its secret, and nothing else changed |
| KioskPairingProofs.PendingExactly | server/src/shared/pairing.ts:104-116 | Before its confirmation a code is pending exactly for the secret whose digest it has until it expires, with the seconds rounded up |
| KioskPairingProofs.RepeatedConfirmAgrees | server/src/shared/pairing.ts:187-199 | A repeated confirmation succeeds exactly for the same request in the same tenant with the kiosk still there, names the same kiosk and changes nothing |
| KioskPairingProofs.ClaimedPollsAgree | server/src/shared/pairing.ts:97-158 | Every claimed poll of a code carries the same kiosk and keys |
| KioskPairingProofs.NeverPendingAgain | server/src/shared/pairing.ts:111-116 | After a confirmation no poll that reads the row answers pending |
| KioskPairingProofs.NoCredentialsAfterAcknowledgement | server/src/shared/pairing.ts:323-338 | After an acknowledgement no poll that reads the row carries credentials, and the row holds none |
| KioskPairingProofs.OverlappingPollOutlivesAcknowledgement | server/src/shared/pairing.ts:143-157 | The acknowledgement between a poll's two reads, with nothing else, does not stop the credentials |
| KioskPairingProofs.PollAfterAcknowledgement | server/src/shared/pairing.ts:97-158 | In every run a poll finished after the acknowledgement gives credentials out exactly when it took them before it and the kiosk is there and enabled at its second read |
| KioskPairingProofs.DeliveredExactly | server/src/shared/pairing.ts:104-157 | A poll gives out the issued credentials, with the kiosk's name, exactly for the secret whose digest the row has, before the acknowledgement, within fifteen minutes, if the envelope opens and the kiosk is there and enabled |
| KioskPairingProofs.WrongSecretFails | server/src/shared/pairing.ts:107-109 | A poll without the right secret fails, whatever the row's state |
| KioskPairingProofs.AcknowledgedExactly | server/src/shared/pairing.ts:323-338 | An acknowledgement is accepted exactly from the row's kiosk and tenant with the right secret; it erases that row's credentials and changes nothing else |
| KioskPairingProofs.KioskReadLast | server/src/shared/pairing.ts:143-157 | A kiosk disabled or deleted between a poll's two reads gets nothing, one renamed its new name |
| KioskPairingProofs.UnreadableClaimFails | server/src/shared/pairing.ts:119-141 | A sealed claim that cannot be opened or holds no key delivers nothing |
| KioskPairingProofs.LegacyRowDelivers | server/src/shared/pairing.ts:134-157 | A row from an older server delivers its plain key for the public tenant until its own expiry, exactly for the right secret |
| KioskPairingProofs.ClaimedKeyIsTheKiosks | server/src/shared/pairing.ts:202-204 | What a poll gives out is what the kiosk accepts, unless another code rekeyed it since |
| KioskPairingService.PairingDesk.Initiate | server/src/shared/pairing.ts:58-84 | The first unused of twenty drawn codes gets the row; otherwise an error and no row |
| KioskPairingService.PairingDesk.UniqueName | server/src/shared/pairing.ts:256-262 | The suffix loop finds the first free candidate |
| KioskPairingService.PairingDesk.ConfirmPairing | server/src/shared/pairing.ts:177-320 | The confirmation transaction: its result and new tables, or its error and the old ones |
| KioskPairingService.PairingDesk.ClaimPairing | server/src/shared/pairing.ts:97-158 | An undisturbed poll is its two halves on the same tables |
| KioskPairingService.PairingDesk.AcknowledgePairing | server/src/shared/pairing.ts:323-338 | The acknowledgement transaction: the row erased, or an error and the old tables |
| AndroidLayout.ValidateLayout | client/core/src/android.rs:327-362 | No fault exactly for a 1..16 by 1..16 grid, at most 64 cells, distinct ids and disjoint rectangles inside it; a fault blames the first faulty cell |
| AndroidLayout.Occupy | client/core/src/android.rs:353-359 | Marking a cell's squares clashes exactly when it overlaps an earlier cell |
| AndroidLayout.ValidCellByCell | client/core/src/android.rs:338-360 | Checking each cell against the earlier ones is validity of the whole |
| AndroidLayout.AcceptedLayoutFits | client/core/src/android.rs:342-352 | In an accepted layout areas add up to at most rows times columns, and no edge overflows a u32 |
| AndroidLayout.OverlapIsIntersection | client/core/src/android.rs:353-359 | Sharing a square is intersecting in both directions |
| AndroidLayout.InsideIsCovering | client/core/src/android.rs:342-352 | A cell is inside the grid exactly when it covers a square and only squares of the grid |
| AndroidLayout.UnnamedCellsDiffer | client/core/src/android.rs:322-326 | Cells keep their views' ids, and those without one never share an id |
| AndroidPlan.StreamFound | client/core/src/android.rs:409-443 | A stream is found exactly when the camera has a playable one, whatever role is preferred |
| AndroidPlan.WantedRolePicked | client/core/src/android.rs:422-434 | A playable stream of the wanted role is picked whenever there is one: main when expanded or selected, otherwise sub |
| AndroidPlan.CodecsPlayed | client/core/src/android.rs:409-421 | A stream plays exactly if its address does and its encoding is absent or H.264 or AVC, whatever dots, hyphens and case |
| AndroidPlan.RenderPlan | client/core/src/android.rs:96-293 | A plan exactly for one display, an assigned layout and that layout valid; it is then the specified one |
| AndroidPlan.PlanNamesItsLayout | client/core/src/android.rs:270-293 | A plan is of the asked display and layout, in its grid or one by one when expanded, and names the expanded cell and the layout to return to |
| AndroidPlan.SelectedAsRequested | client/core/src/android.rs:112-118 | A requested layout is taken if the display has it and nothing in its place; without a request, the initial one |
| AndroidPlan.Cells | client/core/src/android.rs:146-257 | The counting loop gives each cell what its place among the usable cells says |
| AndroidPlan.RenderOne | client/core/src/android.rs:150-256 | One cell, its camera source, caption, message and action |
| AndroidPlan.CamerasById | client/core/src/android.rs:120-125 | Enabled cameras by id, a later one winning |
| AndroidPlan.PlanShowsVisibleCells | client/core/src/android.rs:140-174 | Output cells are the visible cells one to one, in order, in place or as a single cell |
| AndroidPlan.PlanPacksItsGrid | client/core/src/android.rs:270-279 | Expanded or not, the output cells pack the output grid |
| AndroidPlan.CameraExactlyInBudget | client/core/src/android.rs:176-198 | A cell holds a camera exactly when it is usable and among the first 32 usable visible cells; its fallback differs from its stream |
| AndroidPlan.PageShownExactly | client/core/src/android.rs:199-240 | A page is shown exactly for web content with a valid address or HTML with a text, and no scripted login |
| AndroidPlan.MessageSays | client/core/src/android.rs:175-255 | Which message a cell has, exactly, and that none is left without one when it shows nothing |
| AndroidPlan.PageSays | client/core/src/android.rs:296-313 | A page that is not shown says why, a scripted login first |
| AndroidPlan.FallsBackToSub | client/core/src/android.rs:185-191 | A camera falls back to a playable sub stream unless that is what it shows |
| AndroidPlan.LegacyBundleIsOneDisplay | client/core/src/bundle.rs:87-104 | A bundle of the older form means the one display it describes, with its layouts |
| AndroidPlan.CameraBudgetHolds | client/core/src/android.rs:146-147 | As many cells hold cameras as are usable, up to 32 |
| AndroidPlan.ExpandingIsLive | client/core/src/android.rs:126-139 | Expanding any usable cell gives one live cell, also one over the budget |
| AndroidPlan.InvalidExpansionIsNone | client/core/src/android.rs:126-139 | An empty, unknown or revoked expansion gives the plan without one |
| AndroidPlan.ActionOf | client/core/src/android.rs:363-383 | A cell switches only to an existing layout of its own display, restores exactly when expanded, and expands exactly when it may |
| AndroidPlan.InitialLayoutId | client/core/src/layout.rs:10-24 | The layout to start with is one of the display's own, and there is one if it has any |
| AndroidPlan.InitialLayoutExactly | client/core/src/layout.rs:10-24 | It is the display's named default if it has it, or else the first layout marked default, or else the first |
| DiagnosticQueue.QueueBoundedInOrder | client/src/diagnostic_logs.rs:159-161 | Whenever the lock is free the queue has at most 1000 entries in the order of logging, and so has the spool |
| DiagnosticQueue.EntryLeavesOnly | client/src/diagnostic_logs.rs:136-185 | An entry leaves only as the oldest of a full queue, by an upload of its id, by an owner change or with the process |
| DiagnosticQueue.UploadRemovesExactlyTheBatch | client/src/diagnostic_logs.rs:172-179 | After an upload exactly the entries with a sent id are gone, whatever was evicted meanwhile |
| DiagnosticQueue.OldestHundredAreSent | client/src/diagnostic_logs.rs:159-172 | A round with anything queued sends the oldest hundred, or all, under its owner, an empty one nothing; what it saves is the whole queue under its owner |
| DiagnosticQueue.LoggedEntersLast | client/src/diagnostic_logs.rs:103-118 | What is logged, or reported by a panic under a known owner, is the newest entry, at most one entry having gone for it; a panic's save is the whole queue |
| DiagnosticQueue.SpoolIsASavedQueue | client/src/diagnostic_logs.rs:162-184 | The spool changes only by a save that took effect, to the whole queue under its owner |
| DiagnosticQueue.RoundEnds | client/src/diagnostic_logs.rs:171-185 | Nothing is in flight after an answer, and a failed upload keeps every entry |
| DiagnosticQueue.UnlockedIsDropped | client/src/diagnostic_logs.rs:103-106 | What cannot take the lock, and a panic before any owner is known, is not queued |
| DiagnosticQueue.RestoreKeepsNewest | client/src/diagnostic_logs.rs:141-161 | A restore yields the last 1000 of the spool followed by the live entries, in order |
| DiagnosticQueue.NeverUploadedForAnotherOwner | client/src/diagnostic_logs.rs:135-158 | An entry queued or spooled under one owner is never sent under another, over owner changes and restarts |
| DiagnosticQueue.AppLog.OnEvent | client/src/diagnostic_logs.rs:223-228 | The logging step |
| DiagnosticQueue.AppLog.PanicHook | client/src/diagnostic_logs.rs:103-118 | The panic step |
| DiagnosticQueue.AppLog.CollectBatch | client/src/diagnostic_logs.rs:136-171 | One round of the uploader up to the send |
| DiagnosticQueue.AppLog.Restore | client/src/diagnostic_logs.rs:147-151 | Pushing the newest saved entries in front keeps their order |
| DiagnosticQueue.AppLog.Trim | client/src/diagnostic_logs.rs:159-161 | Popping from the front leaves the newest 1000 |
| DiagnosticQueue.AppLog.Retain | client/src/diagnostic_logs.rs:175-179 | What was sent is dropped wherever it is, the rest keeps its order |
| DiagnosticQueue.AppLog.Finish | client/src/diagnostic_logs.rs:172-185 | The end of an upload, successful or not |
| Versions.CompareVersions | server/src/shared/version.ts:34-52 | The two loops with early returns have the sign of lexicographic precedence |
| Versions.CompareFlips | server/src/shared/version.ts:34-52 | Swapping the arguments flips the sign |
| Versions.CompareChains | server/src/shared/version.ts:34-52 | With a total order on identifiers precedence is transitive |
| Versions.EquatedStringsBreakTheOrder | server/src/shared/version.ts:44-49 | A collation that equates two different identifiers breaks transitivity |
| Versions.TotalPreorderIffDiscrete | server/src/shared/version.ts:34-52 | Precedence is a total preorder exactly when the collation equates no two different identifiers |
| Versions.AgreesWithKey | deploy/easy1/deploy.py:235-249 | By code point the comparison has the sign of the script's tuple keys and is zero only for equal versions |
| Versions.AgreeExactlyWhen | deploy/easy1/deploy.py:235-249 | Server and script order all versions both accept, with numbers from a set, alike exactly when rounding keeps the numbers apart and the collation orders identifiers by code point |
| Versions.DictionaryOrderDisagrees | server/src/shared/version.ts:49-49 | A collation that puts a before B orders 1.0.0-alpha.a and 1.0.0-alpha.B against the script |
| Versions.CodePointCollates | deploy/easy1/deploy.py:243-248 | The order by code point is such a collation, and a total order |
| Versions.SafeNumbersAgree | server/src/shared/version.ts:24-31 | Up to 2 to the 53, and with a collation by code point, they agree |
| OsUpdateStatus.TargetStepsUp | server/src/shared/os-update-status.ts:10-32 | One report never replaces a target that parses by one that does not, nor lowers it |
| OsUpdateStatus.TargetNeverGoesDown | server/src/shared/os-update-status.ts:10-32 | Over any series of reports a target that parses stays one and never goes down |
| OsUpdateStatus.FirstReportStored | server/src/shared/os-update-status.ts:11-12 | Without a target, a report is stored as it is |
| OsUpdateStatus.PrecedenceDecides | server/src/shared/os-update-status.ts:14-24 | A report of a later version is always stored; one of an earlier version leaves target and phase alone and at most adds the warning, exactly when the device runs it and no error is known |
| OsUpdateStatus.OwnReportStored | server/src/shared/os-update-status.ts:25-31 | A report of the target itself is stored unless it would undo a confirmation other than by a rollback |
| OsUpdateStatus.NothingToStoreExactly | server/src/shared/os-update-status.ts:30-31 | There is nothing to store exactly when storing changes nothing |
| OsUpdateStatus.ApplyingTwiceIsOnce | server/src/shared/os-update-status.ts:10-32 | Applying a report twice is applying it once |
| OsUpdateStatus.ConfirmedOnlyRollsBack | server/src/shared/os-update-status.ts:25-29 | While the target stays, a confirmation can only be rolled back |
| OsUpdateStatus.ConfirmationLasts | server/src/shared/os-update-status.ts:25-29 | Over any series that keeps a confirmed target, only an explicit rollback ends the confirmation |
| HttpPolicy.ParseHttpUrl | iobox-firmware/include/http_policy.h:18-59 | The parser's loops compute the specified record or refuse |
| HttpPolicy.ReadPort | iobox-firmware/include/http_policy.h:45-55 | One to five digits in 1..65535, the sum staying below 2 to the 32 |
| HttpPolicy.ParsedIsAccepted | iobox-firmware/include/http_policy.h:37-57 | What is accepted has a lower-case host, a port in 1..65535 and a clean absolute path |
| HttpPolicy.ConfusingUrlsRefused | iobox-firmware/include/http_policy.h:29-33 | A URL with a blank, control character, backslash, fragment or user information is refused everywhere |
| HttpPolicy.HostCharacters | iobox-firmware/include/http_policy.h:38-43 | Hosts are letters, digits, hyphens and dots, in lower case |
| HttpPolicy.PortExactly | iobox-firmware/include/http_policy.h:45-55 | After a host, a port is one to five digits of a number from 1 to 65535, leading zeros included |
| HttpPolicy.PrintThenParse | iobox-firmware/include/http_policy.h:18-59 | Printing an accepted record and parsing it gives it back |
| HttpPolicy.OmittedPortIsDefault | iobox-firmware/include/http_policy.h:44-45 | Without a port the same URL stands for 443 or 80 |
| HttpPolicy.ParsePrintParse | iobox-firmware/include/http_policy.h:18-59 | Printing what was parsed and parsing again gives the same record |
| HttpPolicy.AllowHttpRequest | iobox-firmware/include/http_policy.h:61-71 | The policy as it runs |
| HttpPolicy.SameSecureOrigin | iobox-firmware/include/http_policy.h:68-70 | Apart from local calls the policy is having the same secure origin |
| HttpPolicy.LocalByPathAlone | iobox-firmware/include/http_policy.h:61-70 | A local kiosk call needs a URL that parses with a path under /local/ and nothing of the configured server; any other target needs https |
| HttpPolicy.AllowIsAnEquivalence | iobox-firmware/include/http_policy.h:61-71 | It is symmetric and transitive |
| HttpPolicy.TrailingSlashesIgnored | iobox-firmware/include/http_policy.h:61-71 | Any number of trailing slashes on the configured URL changes no answer |
| UpdateSchedule.MinutesAgree | client/core/src/update_policy.rs:43-57 | Both programs read the same times of day |
| UpdateSchedule.ClockIsRead | client/core/src/update_policy.rs:43-57 | Both programs read hh:mm as 60 times the hour plus the minute, for every time of day |
| UpdateSchedule.OnlyClocksAreRead | client/core/src/update_policy.rs:43-57 | Nothing else is read as a time |
| UpdateSchedule.SplitIsModular | client/core/src/update_policy.rs:33-38 | The case split on midnight is the modular test, across midnight and the end of the week |
| UpdateSchedule.BothTestsAreModular | server/src/shared/update-schedule.ts:31-47 | For well-formed windows both tests agree and are the modular one |
| UpdateSchedule.NeverOpenOutside | client/core/src/update_policy.rs:19-41 | The device allows nothing in an unknown mode or out of the week, and a malformed window never opens |
| UpdateSchedule.RawScheduleAgreesIff | server/src/shared/update-schedule.ts:19-29 | When a raw schedule means the same to both programs; when it does not, the server always allows and the device never does |
| StreamReuse.SameInputsPlayAlike | client/core/src/bundle.rs:347-397 | Cameras with the same pipeline inputs give the same stream, badge and fallback for every selector and area |
| StreamReuse.StreamPicked | client/core/src/bundle.rs:357-397 | Main or sub gives the first such stream; a missing sub gives the first main one, a missing main the very first, no streams the camera's own address; the badge appears only with both roles |
| StreamReuse.AutomaticByArea | client/core/src/bundle.rs:366-377 | Any other selector means main from a fifth of the grid on, sub below |
| StreamReuse.FallbackExactly | client/core/src/bundle.rs:346-352 | The fallback is the first main stream's address exactly if it is there, not empty and not the first sub stream's |
| StreamReuse.ReuseIsSound | client/core/src/layout.rs:110-118 | A camera id reported unchanged plays alike in both bundles |
| StreamReuse.UnchangedExactly | client/core/src/layout.rs:110-118 | A camera is reported unchanged exactly when its id was there before, with the same enabling, address, credentials and stream roles and addresses |
| StreamReuse.UnchangedIsAnEquivalence | client/core/src/layout.rs:76-106 | Keeping a display is symmetric and transitive |
| StreamReuse.KeptExactly | client/core/src/layout.rs:74-106 | A display is kept exactly when size, active layout, console and tenant are the same and each camera the layout shows or preloads is there in both or neither, reached in the same way and, if shown, under the same name |
| StreamReuse.ActiveLayoutExactly | client/core/src/layout.rs:82-86 | The active layout is the first with its id on the first display with that one |
| StreamReuse.KeptDisplayPlaysAlike | client/core/src/layout.rs:76-106 | If a display is kept, every camera it shows or preloads is still there, plays alike and, if shown, has the same name |

## Left out

- HTTP, WebSocket, MQTT and ONVIF transport, SQL, Win32, MSI and NVS calls: each appears as an outcome (done, failed, crashed, answered or not) or as a parameter.
- Hashing, encryption and signatures are functions with the injectivity or verification the protocols rely on; random draws are parameters assumed fresh.
- Windows updater: a file write is one atomic step, because the original writes a staging file and renames it; a journal or attempt file that does not parse, and `identity.json`, are not modelled.
- Windows updater: the version of the running service is taken to be the installed one, and the order of versions is an abstract strict order on the versions that parse; waiting times, service restarts, telemetry and the launching of clients have no effect in the model.
- Windows updater: which file, process, installer or probe fails, and where a crash strikes, is chosen freely; `faults` counts these, so that what happens without one can be said.
- Windows updater: the wall clock never goes back; the 1800 s between attempts and the dates of health reports rest on that.
- Windows updater: the maintenance window and the policy selection are answers given to a tick; the window test itself is in `UpdateSchedule.dfy`.
- ioBOX: legacy stored identities, a changed server address (`identityBlocked`), the administrator's reset of a serial, device names and display assignment.
- Power ordering: the shape of session identifiers (`readPowerSample`) and of database writes around it; deadlock between locks of different kiosks, which the original does not rule out.
- Rate limiter: clock values are reals, without rounding; an invalid configuration yields null instead of an exception.
- Kiosk pairing: displays and labels created with a kiosk, the firmware target, log lines and unparsable dates; that two confirmations may race for one name is left to the unique index.
- KioskPairingService.PairingDesk.Initiate: looks up and inserts in one step, so an insert never meets a code taken in between.
- Android viewer: web sources, fit, background, gap and timeouts; whether a URL is valid and whether text is blank are predicates; captions and messages are constructors rather than their texts.
- Diagnostics: scrubbing, the contents of entries and the transport; a failed or unreadable spool write has no effect; entries lost with the process before they were spooled are what `EntryLeavesOnly` calls leaving with the process.
- Versions: how a text is split into a version is a parameter, and so is the collation behind `localeCompare`; that the collation is a total order on identifiers is a hypothesis, and whether it is that by code point is part of the condition under which the two programs agree. What the script refuses outright is outside the comparison.
- Maintenance windows: time zones; raw windows are taken with the types the device requires of them.
- Stream reuse: passwords are compared as they are, after the platform's own normalization.
- Bundle assembly, operator console, templates, layout editor, Node-RED nodes and the rest of the deployment scripts.
