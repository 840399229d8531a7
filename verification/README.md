# Xochi SDK: a verified model

This project models the parts of the Xochi SDK that move or guard funds and proves what they
promise. Each module is named after the component it models.

- **Crash-safe solver state.** `StateLease` is the `<state>.lock` lease as starters and holders
  race for it, one file-system call a step. `AtomicRewrite` is a file rewritten whole, call by
  call, over a volume that power loss can take back to an earlier directory. `StateFormat`,
  `StateDocument` and `FillStateFile` are SOLVER_STATE_FILE on it: tagged bigints, entries decoded
  one by one, and the map that is changed in memory, rewritten on disk and rolled back;
  `StateTypes` names the fields of what is written, one by one.
  `DurableMap` and `DurableRuns` abstract that map to the three ways a write can end, and on it
  `EscrowSolver` runs the order protocol `accepting -> accepted -> filled -> forgotten` with a
  crash between any two steps: `EscrowSolverSafety` says what it never does, `EscrowSolverDuties`
  what it is never left without. `Startup` is the gate in front of it: resumed fills wait for an
  allowance, and bidding waits for the resumed fills.
- **Grumpkin arithmetic.** `JacobianCurve` refines the chord-and-tangent law, `Grumpkin` adds the
  extended-Euclid inverse, double-and-add and the Schnorr verifier. `CurveFormulas`, `Residues` and
  `ScalarMultiples` hold the polynomial identities and the group lemmas.
- **Signing ledger.** `Ledger` is the in-memory store over heap arrays, `LedgerContention` the
  interleaving of any number of signers.
- **Inventory and auction.** `Inventory` and `ReferenceSolver`, `Auction`, `AuctionRules` and
  `StubAuctioneer`.
- **Execution planner.** `SplitPlanner`, `VenueRouter`, `DiffusionScheduler`,
  `ExecutionOrchestrator`, with `StableSort` for `Array.sort`.
- **Encodings, keys and fees.** `OracleCalldata`, `DepositAttestation`, `StealthAgreement`,
  `FeePolicy`.
- **Shared vocabulary.** `Wrappers`, `Numerals`, `OrderedMap` (a JavaScript `Map`), `Text`,
  `Arithmetic`.

Classes and loops of the source that run without an `await` in the middle are classes and loops
here, each proved equal to a function on values; the properties are lemmas about those functions.
Code whose awaits interleave (the lease, the order protocol, startup, the contending signers, the
auction feed) is a state machine whose events are the points where control can change hands, and
its results hold for every sequence of events.

## Hypotheses

- The Grumpkin results take a prime modulus, associativity of the affine law and, for the
  completeness of signatures, the generator's order as hypotheses. They are stated for every such
  curve; `Grumpkin.GRUMPKIN` holds the signer's own constants.
- The escrow gateway, the chain and the node's approval calls are environments. A gateway may refuse
  before it signs; it calls `onSigned` after signing and before the POST, a failed `onSigned` stops
  the POST, nothing else throws once it has signed (`escrow-gateway.ts:496-497`), it never signs an
  order under two fillIds in one process, and `prepare` returns the award's own order and fillId.
  `ensureAllowance` answers "nothing sent" only when the allowance is at least the cap or at least
  what is sufficient, and leaves the cap when it is confirmed.
- A file system: data is durable once the file is fsynced, and each name, once the directory is;
  before that, power loss may bring back any bytes, and any earlier entry since the last fsync.
  Nobody else writes the temp file, which is named for the process's own token. `JSON.parse` undoes
  `JSON.stringify`.
- Hash functions, signature checks and the elliptic curve secp256k1 are parameters.

## Where the code and its documentation part

- `fill-state-file.ts:450-461` says that of two racing starters exactly one wins and that one
  holder survives. At most one does: a starter that judged the dead lease stale can move the
  winner's lease aside, and a check of the winner in that instant makes it stop for good
  (`StateLease.NoSurvivor`); with a third starter two can hold at once
  (`StateLease.ThreeStartersBothHold`).
- `fill-state-file.ts:445-449` counts a lease's age from its renewal. It counts from the writing of the
  temp file, before the link or the rename, so a start that links late has a lease that is already old
  (`StateLease.LateLinkJudgedStale`).
- `fill-state-file.ts:264-267` says memory follows the disk. It does unless a write fails after its
  rename, in the directory fsync; `DurableRuns.PartsExactlyAfterRename` gives the exact condition.
- `supervise.ts:269-270` releases a resumed fill only once a covering allowance stands. What stands
  covers what is owed exactly when the configured cap is at least that sum
  (`Startup.CoverNeedsCap`).
- `escrow-solver.ts:416-418` says that `accepting` on disk means nothing reached the venue. After an
  order's claim loop has returned it can be put back as `accepting`: by a redelivered award whose
  `prepare` had read the lock open before the claim landed, or, when dropping it again failed
  after the rename, by the next write of any order. `EscrowSolverSafety.AcceptingAfterPostExactly`
  gives the exact condition, `EscrowSolverSafety.AcceptingAfterClaim` both runs.
- `fill-state-file.ts:617-620` says that anything else found aside is put back. It is destroyed when
  the path has been taken meanwhile (`StateLease.PutBackDestroysExactly`).
- `offline-solver.ts:381` takes a quotient by the floor after the hold is taken, so a floor of zero
  makes a quote throw while it holds; and a re-quote whose amount or floor does not parse throws
  while the earlier bid's hold stands, which the error hook at 978-982 then gives back although that
  bid is live (`Inventory.ThrownQuoteHoldsExactly`). A re-quote refused for inventory has already
  dropped the hold of a bid that is still live (`Inventory.RequoteKeepsIntentExactly`). An award for
  a negative amount lowers what is settled (`Inventory.NegativeAwardUnsettles`).
- `venue-router.ts:79` lets the largest sub-trades pick first. With a negative gas estimate a smaller
  one can still get the more private venue (`VenueRouter.PrivacyBreaksExactly`).
- `fee.ts:87-90` makes a fractional trust score standard, so a higher score can pay more
  (`FeePolicy.FractionalScorePaysMore`).
- `stealth-receive.ts:308` multiplies by the hash of the shared secret, which throws for a hash that
  is zero modulo the order; the receiver does not (`StealthAgreement.ZeroTweakStopsSenderOnly`).

## Model

| member | source | states |
|---|---|---|
| StateLease.MutualExclusion | packages/solver-sdk/examples/fill-state-file.ts:490-537 | In every interleaving of two starters' link, read, rename and unlink calls over a dead holder's lease, at most one has an unreleased lock its `acquire` returned, even one it has since found lost; and a starter that was refused leaves the other's lease at the path |
| StateLease.TakeoverDestroysOnlyStale | packages/solver-sdk/examples/fill-state-file.ts:621-636 | For any number of starters, a takeover that returns normally destroys only the lease judged stale: any other lease goes only by a put-back onto a taken path, a renewal renamed over it, or a release |
| StateLease.PutBackDestroysExactly | packages/solver-sdk/examples/fill-state-file.ts:637-647 | A put-back has a live lease in hand and destroys it if and only if another lease has taken the path meanwhile |
| StateLease.HolderLosesExactlyWhenMovedAside | packages/solver-sdk/examples/fill-state-file.ts:550-583 | A holder's check can fail exactly while the other starter has its lease aside, between the rename and the link that puts it back |
| StateLease.RenewalRestartsLease | packages/solver-sdk/examples/fill-state-file.ts:566-583 | A renewal that finds its lease and then renames leaves at the path its own token with the time of that renewal, whatever others and the clock do between |
| StateLease.JudgedStaleIsOld | packages/solver-sdk/examples/fill-state-file.ts:511-529 | With the clock free and any number of starters: a lease is moved aside as stale exactly when the start or renewal that wrote it is 30 seconds back or more; a younger one refuses the start |
| StateLease.RenewedSurvivesTakeover | packages/solver-sdk/examples/fill-state-file.ts:617-647 | With the clock free, a takeover that returns normally destroys only a lease 30 seconds old: one renewed since it was read is put back |
| StateLease.StaleIsTakenOver | packages/solver-sdk/examples/fill-state-file.ts:501-533 | A lease 30 seconds old is taken over in six calls of a starter left alone |
| StateLease.HolderJudgedStaleExactly | packages/solver-sdk/examples/fill-state-file.ts:511-529 | Of two starters, one that finds the holder's lease moves it aside if and only if the holder wrote the last one it linked or renewed 30 seconds ago or more |
| StateLease.LateLinkJudgedStale | packages/solver-sdk/examples/fill-state-file.ts:498-529 | The time that counts is the writing, before the link: a run in which a lease is judged stale a millisecond after its start returned |
| StateLease.LostForGood | packages/solver-sdk/examples/fill-state-file.ts:550-583 | A holder that finds at a check or a renewal that the path no longer has its lease stays lost, and changes nothing at the path, until it releases |
| StateLease.FailedRenewalKeeps | packages/solver-sdk/examples/fill-state-file.ts:566-583 | A renewal whose write fails leaves the path alone and the holder free to try again |
| StateLease.ReleaseLetsNextIn | packages/solver-sdk/examples/fill-state-file.ts:585-592 | A release empties the path exactly if it found its own lease there, and then whoever links next holds at once |
| StateLease.GivesUpAfterThree | packages/solver-sdk/examples/fill-state-file.ts:501-533 | A starter that finds the path free again, or has freed it, links once more until it has linked three times, and then is refused |
| StateLease.NoSurvivor | packages/solver-sdk/examples/fill-state-file.ts:450-461 | A run of two starters after which the winner has stopped for good and the other was refused |
| StateLease.ThreeStartersBothHold | packages/solver-sdk/examples/fill-state-file.ts:637-647 | With three starters or more, a run in which two hold the lease at once and a third has the winner's lease aside, about to destroy it |
| StateFormat.PreparedRoundTrip | packages/solver-sdk/examples/fill-state-file.ts:147-164 | A PreparedFill's record is revived from its tagged JSON exactly when no bigint in it is negative, otherwise refused |
| StateFormat.EntryRoundTrip | packages/solver-sdk/examples/fill-state-file.ts:134-259 | A typed entry, written with its modelled fields only, decodes to those same fields if and only if none of its bigints is negative |
| StateFormat.DecodedStorable | packages/solver-sdk/examples/fill-state-file.ts:134-173 | Whatever JSON decodes, by whomever written, has the types that make it survive being written and read again |
| StateTypes.TypedRoundTrip | packages/solver-sdk/examples/fill-state-file.ts:134-259 | For every typed fill, its record with any further keys decodes after writing to exactly that fill, field by field and without those keys, if and only if no bigint of it is negative |
| StateTypes.DecodedHasTypes | packages/solver-sdk/examples/fill-state-file.ts:134-173 | An entry that decodes has, under each name, a value of the type the fill declares there |
| StateDocument.FileRoundTrip | packages/solver-sdk/examples/fill-state-file.ts:83-129 | Loading what was written gives the same orders in the same order, the undecodable entries verbatim and the same held order ids |
| StateDocument.LoadedSurvives | packages/solver-sdk/examples/fill-state-file.ts:83-129 | Any file that loads gives the same orders, undecodable entries and holds after a rewrite |
| FillStateFile.FileLoadsExactly | packages/solver-sdk/examples/fill-state-file.ts:83-129 | A file loads exactly when there is none, or it is JSON with a list of fills each of which decodes or names its order; then each order is as its last entry has it, and the orders held are those of the entries that do not decode |
| FillStateFile.FillStateFile.constructor | packages/solver-sdk/examples/fill-state-file.ts:295-298 | A file that loads starts with memory equal to disk, and whatever power loss may bring back loads too |
| FillStateFile.OpenStateFile | packages/solver-sdk/examples/fill-state-file.ts:288-303 | A start succeeds exactly when the lease was taken and the file loads; a file that does not load gives the lease back |
| FillStateFile.FillStateFile.Write | packages/solver-sdk/examples/fill-state-file.ts:353-382 | Nothing is written once released, lost or found taken, and the loss latches; otherwise the calls of the rewrite are made one by one, and the file is the old one or the complete new one as they went |
| FillStateFile.FillStateFile.Put | packages/solver-sdk/examples/fill-state-file.ts:323-334 | Memory and disk change as a durable map's put under each way the calls can go, and a failed put leaves memory as it was |
| FillStateFile.FillStateFile.Remove | packages/solver-sdk/examples/fill-state-file.ts:336-347 | Memory and disk change as a durable map's remove; a failed remove leaves the order back in memory, now last |
| AtomicRewrite.WriteNewFile | packages/solver-sdk/examples/fill-state-file.ts:389-407 | Create, write and fsync end well exactly when the file was created, every byte was taken and the fsync succeeded; the state file is untouched |
| AtomicRewrite.Rewrite | packages/solver-sdk/examples/fill-state-file.ts:356-381 | The calls of one write end in exactly one of three ways: done, failed with the state file untouched, or failed with it replaced |
| AtomicRewrite.AlwaysWhole | packages/solver-sdk/examples/fill-state-file.ts:261-266 | Whatever call fails or falls short, and wherever the process is killed or the power lost, the state file holds its first content or the whole text a write began with |
| AtomicRewrite.ReturnedIsDurable | packages/solver-sdk/examples/fill-state-file.ts:261-266 | Once a write has returned, no kill or power loss brings back anything but its text or that of a write begun later |
| AtomicRewrite.KilledWriteIsEither | packages/solver-sdk/examples/fill-state-file.ts:353-382 | A process killed between any two calls of a write leaves the old content or the new one |
| AtomicRewrite.UnsyncedIsAnything | packages/solver-sdk/examples/fill-state-file.ts:389-407 | Why the file is fsynced: until then power loss may leave anything in what the write is about to rename into place |
| AtomicRewrite.RenameMayBeUndone | packages/solver-sdk/examples/fill-state-file.ts:374-381 | Why the directory is fsynced: until then power loss may bring the old state file back |
| FillStateFile.AlwaysLoads | packages/solver-sdk/examples/fill-state-file.ts:261-270 | At every moment of such a run the state file loads and still has every undecodable entry |
| DurableRuns.PartsExactlyAfterRename | packages/solver-sdk/examples/fill-state-file.ts:323-382 | Memory parts from the disk exactly on a failure after the rename of a write that changes something |
| DurableRuns.MemoryFollowsDisk | packages/solver-sdk/examples/fill-state-file.ts:323-347 | Over any puts and removes with failures at or before the rename, memory equals disk |
| DurableRuns.DiskIsWhole | packages/solver-sdk/examples/fill-state-file.ts:323-382 | Over any puts and removes ending in any of the three ways, the disk is the first state or one complete state an operation meant to write |
| EscrowSolverSafety.CrashSafety | packages/solver-sdk/examples/escrow-solver.ts:421-452 | Over all runs with crashes and failing writes, an acceptance that may have reached the venue, a repeated one too, is on disk as accepted or filled under its fillId until its claim loop returns; an accepting order has none out, and no order has two |
| EscrowSolverSafety.PostNamesPersistedFillId | packages/solver-sdk/examples/escrow-solver.ts:336-452 | At every POST, first or repeated, by an award, a redelivered award or a restart: an order on disk is there under the fillId posted, and it is there as accepted or filled unless its claim loop has returned |
| EscrowSolverSafety.OneSettleTaskPerOrder | packages/solver-sdk/examples/escrow-solver.ts:672-697 | No two settle tasks of one order run at a time, across restarts and redeliveries |
| EscrowSolverSafety.HeldOrderNeverPosted | packages/solver-sdk/examples/escrow-solver.ts:363-397 | No award is ever posted for an order held as unreadable; only an entry of it that did decode is, under its own fillId |
| EscrowSolverSafety.SettlingIsExact | packages/solver-sdk/examples/escrow-solver.ts:672-697 | Every order marked as settling has a running task, so a finished order can be settled again |
| EscrowSolverDuties.OwedIsDriven | packages/solver-sdk/examples/escrow-solver.ts:441-513 | Over all runs an acceptance resumed, recorded or posted is in the award in hand or has a running settle task under its own fillId, until its claim loop returns, throws or is aborted, or its fill is refused for good |
| EscrowSolverDuties.RestartResumesEvery | packages/solver-sdk/examples/escrow-solver.ts:535-558 | A restart resumes every order on disk and no other, each where its phase left it, with its auction bound |
| EscrowSolverDuties.ClaimsFollowFills | packages/solver-sdk/examples/escrow-solver.ts:574-728 | Over all runs a fill is driven after a restart only once its wait ended, and a claim loop runs only for a fill confirmed, resumed as filled, driven to its end, or one that cannot be read |
| EscrowSolverDuties.OnlyAcceptedIsDriven | packages/solver-sdk/examples/escrow-solver.ts:574-634 | Over all runs a fill is sent, by an award or a settle task, only for an acceptance this process resumed as accepted, recorded or posted |
| EscrowSolverDuties.OnlyOwnAuctions | packages/solver-sdk/examples/escrow-solver.ts:371-382 | Over all runs an award is worked on only for an auction this process bid on, or of an order it resumed |
| EscrowSolverDuties.AwardTakenExactly | packages/solver-sdk/examples/escrow-solver.ts:336-397 | An award is taken up if and only if this process bid for it or accepted it, its order is not held, and it names the fillId its auction is bound to and its order is on record under, if any |
| EscrowSolverDuties.BindingNeverChanges | packages/solver-sdk/examples/escrow-solver.ts:336-347 | Over all runs an auction bound to one fillId is never bound to another |
| EscrowSolverDuties.RecordFollowsOutcome | packages/solver-sdk/examples/escrow-solver.ts:643-738 | A landed fill is recorded as filled; a returned claim loop, a refused award and a dropped resumption are forgotten |
| EscrowSolverDuties.RecordedBeforeSigned | packages/solver-sdk/examples/escrow-solver.ts:409-426 | Over all runs, at each signature of an award its order is on record, unless a claim loop of it has returned meanwhile |
| EscrowSolverDuties.BidAnswersOnce | packages/solver-sdk/examples/escrow-solver.ts:371-386 | Taking up an award uses its bid; if `prepare` fails the award may be delivered again until its auction is pruned |
| EscrowSolverDuties.BidIsAnswered | packages/solver-sdk/examples/escrow-solver.ts:327-386 | A bid is answered by an award for its auction, of an order neither held nor on record, unless it was pruned first |
| EscrowSolverDuties.PruneForgetsUnaccepted | packages/solver-sdk/examples/escrow-solver.ts:327-334 | Pruning forgets a bid and an award not accepted, and nothing else |
| EscrowSolverDuties.CallEnds | packages/solver-sdk/examples/escrow-solver.ts:453-513 | However an award's call ends it is over, and an accepted fill that is confirmed, or not known to have landed, is being settled |
| EscrowSolverDuties.SignedIsPosted | packages/solver-sdk/examples/escrow-solver.ts:429-452 | A signature that is recorded if it has to be is posted next and then filled; should `accept` throw instead, the acceptance this award recorded has a settle task |
| EscrowSolverDuties.AcceptedAnew | packages/solver-sdk/examples/escrow-solver.ts:421-437 | An acceptance recorded or posted anew is owed anew though its last claim loop returned |
| EscrowSolverDuties.DroppedExactly | packages/solver-sdk/examples/escrow-solver.ts:606-640 | A resumed order whose accept failed is dropped exactly when its fill is read as not landed; otherwise it stays on record and goes to the claim loop |
| EscrowSolverDuties.TaskCanEnd | packages/solver-sdk/examples/escrow-solver.ts:672-739 | No settle task is ever stuck: it can still come to its end |
| EscrowSolverSafety.AcceptingAfterPostExactly | packages/solver-sdk/examples/escrow-solver.ts:414-420 | The file starts to say accepting of an order sent for if and only if its entry is put back in one of two ways, and then every acceptance of it has seen its claim loop return |
| EscrowSolverSafety.AcceptingAfterClaim | packages/solver-sdk/examples/escrow-solver.ts:414-420 | Runs in which both ways happen: a redelivered award puts a claimed order back as accepting, and another order's write does |
| EscrowSolverSafety.EarlyFeedLosesAcceptance | packages/solver-sdk/examples/escrow-solver.ts:606-634 | Without the startup gate, dropping a resumed order erases an acceptance just posted for it |
| Startup.NoFillReleasedUncovered | packages/solver-sdk/examples/supervise.ts:300-336 | In every interleaving a resumed fill goes on only after a good approval left the cap or what is owed, or a minute past its FillAuth deadline |
| Startup.CoverNeedsCap | packages/solver-sdk/examples/supervise.ts:294-313 | Every allowance release covers all that is owed if and only if the cap is that large |
| Startup.NeverStacked | packages/solver-sdk/examples/supervise.ts:300-314 | At most one approval call is under way, and none is sent while the last outcome is in doubt or cancelled |
| Startup.BiddingAfterBoth | packages/solver-sdk/examples/supervise.ts:386-424 | Bidding starts only after the fills' approval stood, every resumed fill was sent or settled, and the top-up left the cap, or what is owed plus half of it |
| Startup.RetryNeverAbandons | packages/solver-sdk/examples/supervise.ts:352-383 | A retry loop stays alive while a resumed fill waits, and after a failed top-up while one is unsettled |
| Startup.FailedTopUpIsRetried | packages/solver-sdk/examples/supervise.ts:400-419 | From the moment a top-up comes back not good with a resumed fill unsettled, the approval is retried as long as that fill is unsettled, until a retry comes back good; the feed is over |
| Startup.RetryRound | packages/solver-sdk/examples/supervise.ts:352-383 | An attempt that has come back ends its loop once the approval stands or no fill needs it; otherwise the loop sleeps and makes another, which re-reads the last approval exactly when that was in doubt or cancelled |
| Startup.ResolvedFirst | packages/solver-sdk/examples/supervise.ts:300-305 | An approval re-read is followed by a new one exactly when it has a final outcome by now |
| Startup.ApprovalStands | packages/solver-sdk/examples/supervise.ts:306-313 | An approval call comes back without sending exactly when the allowance covers the cap or all that is owed, it stands exactly when it did so or was confirmed, and only a confirmed one sets the allowance |
| Startup.TopUpDecides | packages/solver-sdk/examples/supervise.ts:399-424 | The top-up comes back without sending exactly when the allowance covers the cap, or what is owed and half of it; then, or confirmed, bidding starts, and otherwise the feed is over |
| Startup.FailedFirstIsFatal | packages/solver-sdk/examples/supervise.ts:386-398 | A first approval that comes back not good ends the feed for good |
| Startup.AllowanceChanges | packages/solver-sdk/examples/supervise.ts:300-313 | Only a confirmed approval or top-up, or others on the chain, change the allowance |
| Startup.RetriesOnlyWhileNeeded | packages/solver-sdk/examples/supervise.ts:352-383 | No retry is sent once the approval stands, and a loop that wakes sends one exactly when a fill it is for still waits or is unsettled |
| Startup.StopsWaitingExactly | packages/solver-sdk/examples/supervise.ts:317-336 | A waiting fill can go on exactly when an approval has stood or its deadline is a minute past |
| Startup.FillIsItsHistory | packages/solver-sdk/examples/supervise.ts:337-348 | A fill counts as sent, settled or lapsed exactly when the run contains that event for it |
| Startup.EveryFillCanSettle | packages/solver-sdk/examples/supervise.ts:317-348 | From every state of every run each resumed fill can still be followed to its end |
| Startup.CanStillBid | packages/solver-sdk/examples/supervise.ts:386-424 | At any moment of any run bidding is still within reach unless the first approval or the top-up failed |
| Startup.CoverMayBeSpent | packages/solver-sdk/examples/supervise.ts:300-336 | A run in which a fill goes on though the allowance that stood has since been spent by others |
| JacobianCurve.DoubleRepresents | packages/signer/src/shielded-recipient.ts:94-103 | Doubling any representative of a point represents the tangent sum, infinity and order two included |
| JacobianCurve.AddRepresents | packages/signer/src/shielded-recipient.ts:104-125 | Adding any representatives represents the chord-and-tangent sum in every case split |
| JacobianCurve.AffineAddOnCurve | packages/signer/src/shielded-recipient.ts:94-125 | The affine law stays on the curve |
| JacobianCurve.EquationIsCurve | packages/signer/src/shielded-recipient.ts:94-125 | A triple satisfies Y^2 = X^3 + b Z^6, or is at infinity, if and only if the point it represents is on the curve |
| JacobianCurve.DoubleKeepsEquation | packages/signer/src/shielded-recipient.ts:94-103 | Doubling a triple that satisfies the equation gives one that does |
| JacobianCurve.AddKeepsEquation | packages/signer/src/shielded-recipient.ts:104-125 | So does adding two, in every case split |
| JacobianCurve.RepresentsOne | packages/signer/src/shielded-recipient.ts:135-140 | A Jacobian triple represents only one point, so results do not depend on the representative |
| Grumpkin.InverseIsInverse | packages/signer/src/shielded-recipient.ts:84-93 | Over a prime modulus the extended Euclid cofactor inverts every nonzero residue |
| Grumpkin.Invert | packages/signer/src/shielded-recipient.ts:84-93 | The loop terminates with that inverse, and with zero for zero |
| Grumpkin.MultiplyJ | packages/signer/src/shielded-recipient.ts:126-134 | Double-and-add represents the (k mod q)-fold sum; a negative scalar gives infinity |
| Grumpkin.MulJRepresents | packages/signer/src/shielded-recipient.ts:126-134 | The same, for the specification of the loop, with the result on the curve |
| Grumpkin.Affine | packages/signer/src/shielded-recipient.ts:135-140 | The affine form through the inverse loop |
| Grumpkin.AffineOfSum | packages/signer/src/shielded-recipient.ts:104-140 | Through `affine`, Jacobian addition is the textbook law |
| Grumpkin.AffineOfDouble | packages/signer/src/shielded-recipient.ts:94-140 | Through `affine`, Jacobian doubling is the textbook law |
| Grumpkin.GrumpkinGenerator | packages/signer/src/shielded-recipient.ts:70-72 | The signer's generator lies on its curve |
| Grumpkin.VerifyRecipientSchnorr | packages/signer/src/shielded-recipient.ts:439-462 | Accepts exactly well-shaped hex that spells a signature in range, of a key on the curve, that satisfies the group equation |
| Grumpkin.SpelledIsRead | packages/signer/src/shielded-recipient.ts:453-456 | Any spelling of a number in its digits, either case, leading zeros kept, is read as that number |
| Grumpkin.HonestTextAccepted | packages/signer/src/shielded-recipient.ts:439-462 | End to end: the hex of the public key, of the message and of a signature made as s = k - e d, with neither s nor e zero, is accepted |
| Grumpkin.HonestSignatureAccepted | packages/signer/src/shielded-recipient.ts:439-462 | A signature made as s = k - e d, with neither s nor e zero, is one of those |
| Ledger.KeyInjective | packages/provider/src/replay-db.ts:160-162 | No two submitter and payload pairs share a key |
| Ledger.MemoryReplayDb.EvictExpired | packages/provider/src/replay-db.ts:152-157 | Deleting while walking leaves exactly the unexpired rows in order |
| Ledger.MemoryReplayDb.Trim | packages/provider/src/replay-db.ts:134-138 | Dropping the oldest keys one by one leaves the newest `maxEntries` rows |
| Ledger.MemoryReplayDb.Lookup | packages/provider/src/replay-db.ts:111-115 | Answers with the retained bundle in fresh arrays the ledger does not hold |
| Ledger.MemoryReplayDb.RecordCanonical | packages/provider/src/replay-db.ts:117-140 | A standing bundle of the same signer wins, otherwise the candidate becomes the newest row; no array is shared with the caller |
| Ledger.OfferedExactly | packages/provider/src/replay-db.ts:117-140 | A bundle of another signer replaces the standing row, becomes the newest and is itself the answer; one of the same signer changes nothing |
| Ledger.UnexpiredExactly | packages/provider/src/replay-db.ts:152-157 | A row survives eviction if and only if it is not older than the retention |
| LedgerContention.OneBundle | packages/provider/src/replay-db.ts:268-317 | Any number of interleaved signers of one request get one bundle, with exactly one of them not replayed, while fewer than `maxEntries` others are recorded within the retention |
| LedgerContention.LateCallerReplays | packages/provider/src/replay-db.ts:286-293 | Once one has its bundle, a contender that only now looks it up is answered with that bundle and never signs |
| LedgerContention.FailureIsItsOwn | packages/provider/src/replay-db.ts:295 | A signing that fails fails its own call for good and leaves the ledger and the other calls as they were |
| LedgerContention.CrowdSplits | packages/provider/src/replay-db.ts:134-138 | The bound on other requests is exact: with `maxEntries` of them in between, all within the retention, a second signer gets a bundle of its own |
| LedgerContention.ExpirySplits | packages/provider/src/replay-db.ts:152-157 | Once the clock outruns the retention, or a lookup for another request ran so late, a second signer gets a bundle of its own |
| Inventory.OverlappingWinsFit | packages/solver-sdk/examples/offline-solver.ts:302-547 | After any operations, uncommitted, held and settled make up each key's float, nothing uncommitted is negative, and payouts with live bids fit the float |
| Inventory.PayoutsFit | packages/solver-sdk/examples/offline-solver.ts:435-443 | While no award is negative, payouts alone and live bids alone fit the float |
| Inventory.NegativeAwardUnsettles | packages/solver-sdk/examples/offline-solver.ts:417-443 | A fill lowers what is settled if and only if it is for a negative amount, which nothing refuses |
| Inventory.DraftIsHeld | packages/solver-sdk/examples/offline-solver.ts:302-390 | A draft is held once and in full, priced between the floor and the deliverable |
| Inventory.BidIsFirm | packages/solver-sdk/examples/offline-solver.ts:392-460 | Whatever other auctions do meanwhile, an award at the bid or below, in its window, is filled from its own hold |
| Inventory.DraftIsFirm | packages/solver-sdk/examples/offline-solver.ts:363-460 | A drafted bid stays fillable at its output or below until the end of the announced exclusive window, whatever other auctions do meanwhile |
| Inventory.DraftTerms | packages/solver-sdk/examples/offline-solver.ts:312-390 | When a quote drafts, and the output and time limit it drafts, in the announcement's own numbers |
| Inventory.FilledExactly | packages/solver-sdk/examples/offline-solver.ts:392-443 | An award is filled exactly when its intent has a live bid, its window is open and it is for a number no larger than the bid |
| Inventory.FillPaysOnce | packages/solver-sdk/examples/offline-solver.ts:431-443 | A fillable award is paid once, out of its bid's hold, the rest of which goes back; awarded again it pays nothing |
| Inventory.ReleaseGivesBack | packages/solver-sdk/examples/offline-solver.ts:466-469 | A refused bid's hold goes back in full to the key it was held on, once |
| Inventory.ClockMoves | packages/solver-sdk/examples/offline-solver.ts:302-343 | Time goes forward: by 40 ms for a quote that gets as far as its price, and by nothing else the solver does |
| Inventory.EvictsSoonest | packages/solver-sdk/examples/offline-solver.ts:522-547 | A live bid is given up only when more than 512 are live; then 512 are kept, and none given up is due after one kept |
| Inventory.RescaleTruncates | packages/solver-sdk/examples/offline-solver.ts:213-218 | Rescaling is exact to more decimals and drops less than a unit, toward zero, to fewer |
| Inventory.ReleaseUndoesCommit | packages/solver-sdk/examples/offline-solver.ts:466-469 | Handing back a refused bid leaves the books as if only the earlier hold had been dropped |
| Inventory.ThrownQuoteHoldsExactly | packages/solver-sdk/examples/offline-solver.ts:347-390 | A quote throws while its intent is held if and only if the floor is zero and the float covers the price, or an amount or floor does not parse and an earlier bid is live; handing the hold back then leaves the books as with that bid dropped |
| Inventory.RequoteKeepsIntentExactly | packages/solver-sdk/examples/offline-solver.ts:358-374 | A quote leaves its intent fillable exactly when the float with the earlier hold returned covers the new price |
| ReferenceSolver.ReferenceSolver.Quote | packages/solver-sdk/examples/offline-solver.ts:302-390 | Prunes, prices and commits in place, as the specification of a quote |
| ReferenceSolver.ReferenceSolver.Fill | packages/solver-sdk/examples/offline-solver.ts:392-460 | Fills exactly the fillable awards, consuming the hold and returning what the award left |
| ReferenceSolver.ReferenceSolver.ReleaseBid | packages/solver-sdk/examples/offline-solver.ts:466-469 | Gives a refused bid's hold back |
| ReferenceSolver.ReferenceSolver.Prune | packages/solver-sdk/examples/offline-solver.ts:522-547 | Drops every elapsed bid, then evicts the soonest deadlines down to the bound |
| ReferenceSolver.ReferenceSolver.Victim | packages/solver-sdk/examples/offline-solver.ts:534-541 | Picks the soonest fill deadline, first made among equals |
| Auction.EachRoundClosesOnce | packages/solver-sdk/examples/offline-solver.ts:618-635 | A feed read to its end has closed each scripted round exactly once |
| AuctionRules.SettledOnRightfulBids | packages/solver-sdk/examples/offline-solver.ts:640-680 | Each closing is settled on the last accepted bid of every solver, each verified, in time, for its intent and at or above its floor |
| AuctionRules.SelectIsBest | packages/solver-sdk/examples/offline-solver.ts:732-783 | The award goes to a maximal standing bid strictly above the reserve, first entered among equals, and exists whenever such a bid does |
| AuctionRules.TakenExactly | packages/solver-sdk/examples/offline-solver.ts:640-680 | A bid is taken in, 25 ms after it is sent, if and only if it verifies and some window announced and not closed takes it; it then replaces that solver's bid and no other |
| AuctionRules.RivalsBid | packages/solver-sdk/examples/offline-solver.ts:689-712 | With an announcement each rival submits its bid, in order, under the rules of any bid, and the clock is put back |
| AuctionRules.AdvancesInOrder | packages/solver-sdk/examples/offline-solver.ts:618-635 | The feed announces a round only when no open window has elapsed by then, closes elapsed ones in the order of their closes, and never puts its clock back |
| StubAuctioneer.StubAuctioneer.SubmitBid | packages/solver-sdk/examples/offline-solver.ts:640-680 | Takes exactly the bids that pass every check, replacing that solver's bid only |
| StubAuctioneer.StubAuctioneer.Close | packages/solver-sdk/examples/offline-solver.ts:732-783 | Closes the window, seals its book and selects from it |
| StubAuctioneer.StubAuctioneer.Settle | packages/solver-sdk/examples/offline-solver.ts:744-769 | One pass over the sealed bids finds the selection |
| StubAuctioneer.StubAuctioneer.EarliestDue | packages/solver-sdk/examples/offline-solver.ts:713-722 | The earliest due close, first pending among equals |
| StubAuctioneer.StubAuctioneer.Deliver | packages/solver-sdk/examples/offline-solver.ts:618-635 | Closes what has elapsed before it announces the next round |
| SplitPlanner.PlanSplit | packages/sdk/src/split.ts:66-129 | Refuses exactly invalid inputs; otherwise the largest uniform split without dust, remainder last |
| SplitPlanner.UniformPlans | packages/sdk/src/split.ts:101-120 | Such a split adds up, stays within the cap and has no part below the minimum |
| SplitPlanner.SplitUnique | packages/sdk/src/split.ts:96-129 | A total has one split |
| SplitPlanner.SplitIsLeast | packages/sdk/src/split.ts:96-129 | Above the threshold the split has the fewest parts, two or more, that come down to the threshold on average, unless the cap or dust stops it sooner |
| StableSort.SortSorts | packages/sdk/src/venue-router.ts:79-83 | The sort is an ordered permutation |
| StableSort.SortStable | packages/sdk/src/venue-router.ts:79-83 | Elements of one key keep their order |
| VenueRouter.FirstFit | packages/sdk/src/venue-router.ts:97-121 | The most private permitted venue the budget still covers, if there is one |
| VenueRouter.ScoreOpens | packages/sdk/src/venue-router.ts:38-42 | Which venues a trust score opens |
| VenueRouter.FitsExactly | packages/sdk/src/venue-router.ts:94-117 | What fits next: a permitted venue, if there is no budget or all gas so far and its own stay within it |
| VenueRouter.AssignVenues | packages/sdk/src/venue-router.ts:66-135 | Greedy assignment through both sorts, failing exactly on invalid input or where a sub-trade fits no venue |
| VenueRouter.StuckExcludesServed | packages/sdk/src/venue-router.ts:94-129 | The pass is deterministic: it cannot both get stuck and serve every sub-trade |
| VenueRouter.GreedyRoutes | packages/sdk/src/venue-router.ts:66-135 | One permitted venue per sub-trade, in its own place, total gas within a positive budget |
| VenueRouter.LargerIsNoLessPrivate | packages/sdk/src/venue-router.ts:79-134 | Where no gas can be regained, a strictly larger sub-trade never gets a less private venue than a smaller one |
| VenueRouter.PrivacyBreaksExactly | packages/sdk/src/venue-router.ts:101-117 | That order breaks for some sub-trades if and only if, under a budget, a permitted venue has a negative estimate and the permitted venues more private than it, one at least, all have positive ones |
| DiffusionScheduler.OffsetInStratum | packages/sdk/src/diffusion-scheduler.ts:62-78 | For every random value each offset lies in its own stratum of the slack |
| DiffusionScheduler.SpacedInsideWindow | packages/sdk/src/diffusion-scheduler.ts:22-79 | For a nonzero window and every random draw, timestamps are 12 seconds apart inside the window |
| DiffusionScheduler.ScheduledExactly | packages/sdk/src/diffusion-scheduler.ts:22-79 | Scheduled exactly when each sub-trade has a venue and the window is zero or leaves 12 seconds between them; each keeps its place, amount and venue |
| ExecutionOrchestrator.PlanExecution | packages/sdk/src/execution-orchestrator.ts:59-98 | A plan is refused if and only if the input is invalid, or the one split of the total has a sub-trade that fits no venue or does not fit the window; otherwise it carries that split, pairs each part with its own venue, and keeps the total, the budget, the privacy order and the spacing |
| OracleCalldata.CalldataRoundTrip | packages/sdk/src/oracle-lite.ts:457-501 | The encoder accepts exactly well-formed hex, and following offsets and lengths reads back all five values |
| OracleCalldata.CalldataInjective | packages/sdk/src/oracle-lite.ts:457-501 | No two submissions share calldata |
| OracleCalldata.BytesArrive | packages/sdk/src/oracle-lite.ts:433-501 | Whatever spelling three byte strings are given in, the encoder accepts them if and only if the public inputs are whole words and the hash is one, and a decoder reads digits of the very same bytes |
| OracleCalldata.OnlyBytesAccepted | packages/sdk/src/oracle-lite.ts:435-441 | Nothing is accepted but texts that spell bytes |
| OracleCalldata.CallsSubmitCompliance | packages/sdk/src/oracle-lite.ts:494-501 | Every accepted call starts with the selector of `submitCompliance` |
| OracleCalldata.SplitWords | packages/sdk/src/oracle-lite.ts:444-452 | Splits exactly whole words of hex, and the words concatenate to the lowercased input |
| DepositAttestation.MessageNamesTheDeal | packages/signer/src/deposit-verify.ts:289-320 | Two accepted field sets give one message if and only if all their canonical fields agree |
| DepositAttestation.MessageLines | packages/signer/src/deposit-verify.ts:289-320 | A message split at its newlines has eighteen lines, each the named field in its place |
| DepositAttestation.SpellingsAgree | packages/signer/src/deposit-verify.ts:243-274 | Exactly when two spellings of an address, token or recipient count as one |
| DepositAttestation.BuiltExactly | packages/signer/src/deposit-verify.ts:311-317 | A message is built exactly when no text of the deal contains a newline |
| DepositAttestation.UncheckedCollides | packages/signer/src/deposit-verify.ts:282-287 | Without the newline check any boundary between two lines can be shifted with the message unchanged; the check refuses both sides |
| StealthAgreement.BytesToBigInt | packages/signer/src/stealth-ecdh.ts:14-20 | The accumulation loop reads big-endian bytes |
| StealthAgreement.BigEndianInjective | packages/signer/src/stealth-ecdh.ts:14-20 | Bytes of one length give one number only if they are the same |
| StealthAgreement.SenderAndReceiverAgree | packages/signer/src/stealth-receive.ts:301-400 | The sender succeeds exactly when hash and sum are nonzero, and then the receiver derives the private key of exactly that address and the view tag matches |
| StealthAgreement.OwnerExactly | packages/signer/src/stealth-receive.ts:369-399 | For any announcement an owner is derived exactly when both private keys are in range and their sum with the hash is not zero, and one view tag matches |
| StealthAgreement.ZeroTweakStopsSenderOnly | packages/signer/src/stealth-receive.ts:301-320 | A hash that is zero modulo the order stops the sender but not the receiver |
| FeePolicy.ScoreToTier | packages/client/src/fee.ts:89-95 | The table walk finds the highest boundary a whole score meets |
| FeePolicy.Boundaries | packages/client/src/fee.ts:89-95 | The four boundaries for a whole score; a fraction opens none |
| FeePolicy.GateTier | packages/client/src/fee.ts:103-111 | The best tier, not above the raw one, whose proofs are presented |
| FeePolicy.GatedIsLower | packages/client/src/fee.ts:103-111 | A gated tier is the raw one, or the one the proofs open if that is lower: trusted with none, verified with compliance, any with non-membership besides |
| FeePolicy.ComputeFeeBreakdown | packages/client/src/fee.ts:191-227 | Every breakdown reconciles with its own amount, through decimal printing and parsing |
| FeePolicy.AmountIsRead | packages/client/src/fee.ts:138-149 | A printed amount is parsed as that amount |
| FeePolicy.LayersReported | packages/client/src/fee.ts:191-227 | Which layer each fee is reported under |
| FeePolicy.TotalJustBelowShare | packages/client/src/fee.ts:130-136 | The total is the floor of the whole share or at most three units below it |
| FeePolicy.HigherScoreNeverPaysMore | packages/client/src/fee.ts:89-136 | For any amount and proofs, a higher whole trust score never raises the total |
| FeePolicy.FractionalScorePaysMore | packages/client/src/fee.ts:87-95 | Over all scores: a higher one pays more for some amount if and only if it is a fraction and the lower one is whole and at least 25; then it does on 10,000 units, and otherwise on none |
| FeePolicy.AssertFeeBreakdownInvariants | packages/client/src/fee.ts:335-382 | Passes exactly the breakdowns whose layers sum up and, for a known amount, are each the floor of their share |
| FeePolicy.CheckerPinsAmounts | packages/client/src/fee.ts:335-382 | For known bps and amount only one amount of each layer, and one total, passes |

## Left out

- StateLease.MutualExclusion: for two starters, and while no lease but the dead holder's ages past its limit; a third starter can break it. A lease that does not parse, a starter that dies inside a takeover and a process that already holds the path are not modelled.
- EscrowSolverSafety.CrashSafety: the no-show mode, an undefined state file and the orders' amounts are not modelled; the claim loop and `followFill` are events with their possible results.
- Startup.NoFillReleasedUncovered: a timer delay above what `setTimeout` takes, and the lengths of the delays between retries, are not modelled.
- EscrowSolver, Startup, StateLease and LedgerContention are state machines on values, because their awaits interleave; update in place and aliasing are captured only for the file, the ledger, the solver's books and the auctioneer.
- `BackgroundTasks` and `superviseFeed`: restart backoff and draining.
- StateDocument.FileRoundTrip: letter case is that of ASCII.
- AtomicRewrite.AlwaysWhole: a file planted at the temp name between the open and the rename, and a volume that reorders fsynced writes.
- EscrowSolverSafety.PostNamesPersistedFillId: an award for an order already accepted, whose claim loop returns before its POST, posts with nothing on disk; that is the case of the returned claim loop.
- LedgerContention.OneBundle: a row replaced by another signer's identity between two contenders is excluded, as the source says it may be.
- Ledger: stores that outlive the process, and options out of range.
- ReferenceSolver.ReferenceSolver.Quote: statistics and log text, except the quotient that can throw.
- DiffusionScheduler.SpacedInsideWindow: jitter is a 32-bit integer, and its quotient is exact.
- SplitPlanner.PlanSplit: the trade id is a hash of a random nonce; a fractional part limit is not modelled.
- OracleCalldata.CalldataRoundTrip: `eth_call` and the attestation decoder.
- DepositAttestation.MessageNamesTheDeal: chain ids and deadlines are whole numbers; recovering the signer and `recordDepositAddress`.
- StealthAgreement.SenderAndReceiverAgree: points and hashes are abstract; metadata decoding and key derivation from a signature.
- FeePolicy.ComputeFeeBreakdown: price impact is an integer between 0 and 150; the checker takes amounts of the wire shape.
- Chain, HTTP and contract wrappers, EIP-712 digests and capability parsing.
