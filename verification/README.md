# Concurrent protocols of the rewards backend, in Dafny

The backend keeps its guarantees with single-row conditional updates, unique indexes and short
transactions. This project models each of its protocols as a transition system, one database
operation or committed transaction per step, and proves what holds in every interleaving and
every run.

How the files fit together:

- `Runs.dfy` defines runs of any transition system and the induction principles over them. A step
  that is not enabled leaves the state alone, so a statement about all step sequences is a statement
  about all interleavings.
- A protocol file (`Sessions`, `Webhooks`, `Billing`, `Rooms`, `Codes`, `Ledger`, `Erasure`,
  `Lockout`, `PrizePools`) holds the state, the steps, an inductive invariant, and the theorems about
  runs.
- A service file (`AuthService`, `WebhookService`, `SubscriptionService`, `RoomService`,
  `CodeService`, `CoinService`, `ErasureService`, `OtpService`, `PrizePoolService`) holds the
  imperative handlers: a class whose fields are the collections, methods that update them in place,
  and, where a handler reads first and writes later, a parameter (`env`) with what other requests do
  in its gaps. Each method is proved to be a run of the protocol, so the theorems apply to it.
- `Access` gives the array of entries its meaning over whole runs: it refines one slot per user and tier.
- `Tiers`, `TierSweep`, `Pagination`, `CursorCodec` and `Gst` model the array rewrites, the batched
  sweep, the cursor walk and the invoice arithmetic.

Hashes are injective, random ids are fresh, a signature check accepts exactly the issued tokens, and
one database operation is atomic. Clocks, random ids and rows owned by other subsystems are
parameters.

Where the code and its comments disagree, the model follows the code:

- `adjustCoins` has no balance predicate, and update validators are not enabled, so a debit can
  overdraw although the comment says it fails (`Ledger.OverdraftHappens`). `Ledger.NeverOverdrawnIff`
  gives the exact condition.
- The anonymize sweep writes by id only, so a cancel made between its scan and its write is lost
  (`Erasure.CancelDuringPassIsLost`). `Erasure.WriteIsRightIff` gives the exact condition. Overlapping
  passes may also rewrite the date (`Erasure.OverlapMovesDate`), exactly as `Erasure.DateStaysIff` says.
- A process that crashes while it owns a webhook event leaves the row PROCESSING, which no later
  delivery or retry reclaims (`Webhooks.CrashStrandsEvent`, `Webhooks.CrashHappens`).
  `Webhooks.StrandedIff` gives the exact condition.
- The lockout comment speaks of a rolling window; the counter's window starts at its first failure,
  so three failures within 30 minutes need not lock (`Lockout.FourIsReached`). `Lockout.FailureLocksIff`
  and `Lockout.RollingWindowIff` give the exact conditions.
- An admin payout may release a prize whose code its user never copied
  (`Codes.PayoutWithoutCopyHappens`). `Codes.UncopiedReleaseIff` gives the exact condition.
- The tier sweep clamps its batch size but compares the count with the unclamped one, so batch sizes
  below 1 or above 10000 end the chain early, or never (`TierSweep.EarlyEndHappens`).
  `TierSweep.ChainDrainsIff` and `TierSweep.NeverEndsIff` give the exact conditions.
- An ACTIVE entry past its expiry grants access until a sweep removes it
  (`Tiers.OverdueActiveEntryCounterexample`). `Access.OverdueAccessIff` and
  `Tiers.SweepChangesAccessIff` give the exact conditions.
- A charge whose subscription or user row is missing is skipped and its event still becomes DONE
  (`Webhooks.SkippedChargeIsDone`). `Webhooks.RecordedIff` gives the exact condition.

## Model

| member | source | states |
|---|---|---|
| `Sessions.OneActiveSessionPerFamily` | src/modules/auth/auth.service.ts:472-602 | In every interleaving of logins, logouts, deletions and refreshes, a family has at most one unrevoked session. |
| `Sessions.DeadFamilyStaysDead` | src/modules/auth/auth.service.ts:472-602 | A family that has no active session at some point of a run has none at any later point. |
| `Sessions.TokenExchangedOnce` | src/modules/auth/auth.service.ts:552-581 | Over any run, at most one rotate transaction exchanges a given refresh token. |
| `Sessions.ReuseRevokesFamily` | src/modules/auth/auth.service.ts:477-593 | After a token was exchanged, a call that looks it up, or whose rotate step comes second, can only be refused, and once it returns its whole family is revoked at every later point, the winner's session included. |
| `Sessions.RefusalIsFinal` | src/modules/auth/auth.service.ts:462-538 | Every refusal other than an unknown user or a blocked user leaves the family without an active session for the rest of the run. |
| `Sessions.FamilyIsBoundToDevice` | src/modules/auth/auth.service.ts:501-509 | A family belongs to one user and one device, and a successor session sits on the device of the call that obtained it. |
| `Sessions.FamilySurvivesIff` | src/modules/auth/auth.service.ts:552-581 | Rotation never logs a client out: a family with an active session still has one exactly when no step in between ended it, that is, logged out or deleted its active row, logged out that row's user, or revoked the family. |
| `Sessions.UncontendedRefreshRotates` | src/modules/auth/auth.service.ts:472-602 | With nothing in between, an active token from its own device is revoked and replaced by a fresh session of the same family and device, and only that changes. |
| `Sessions.LoginDeviceRotates` | src/modules/auth/auth.service.ts:411-419 | A login opens a session on its own device, and the first refresh from that device rotates it, with the exact rows after it. |
| `Sessions.OtherDeviceIsRefused` | src/modules/auth/auth.service.ts:500-507 | A refresh from any other device is refused for the mismatch and leaves the family dead. |
| `Sessions.StepKeepsInv` | src/modules/auth/auth.service.ts:442-627 | Every atomic operation keeps: rows name their own token, one active session per family, one user and device per family, and the condition of every refresh call in progress. |
| `AuthService.AuthService.FindActiveByRefreshHash` | src/shared/repositories/LoginSession.repository.ts:10-12 | Finds a row exactly when some unrevoked session stores the token, and returns the row keyed by that token. |
| `AuthService.AuthService.RevokeFamilyRows` | src/shared/repositories/LoginSession.repository.ts:26-32 | Revokes every session of the family and touches nothing else. |
| `AuthService.AuthService.OpenSession` | src/modules/auth/auth.service.ts:411-419 | The session of a verified login: one unrevoked row of a fresh family on the device that logged in, and its token. |
| `AuthService.AuthService.Logout` | src/modules/auth/auth.service.ts:608-615 | Revokes exactly the user's session with this token, silently when there is none, and touches no other row. |
| `AuthService.AuthService.LogoutAll` | src/modules/auth/auth.service.ts:621-627 | Revokes exactly the sessions of the user and counts those that were active. |
| `AuthService.AuthService.RotateInTransaction` | src/modules/auth/auth.service.ts:552-593 | Revokes the matched session only if it is still active and then issues the successor; otherwise leaves the rows alone and hands over to the family revoke. |
| `AuthService.AuthService.Refresh` | src/modules/auth/auth.service.ts:442-602 | The whole handler takes only its own steps between those of others, so it is a run of the protocol; unverified, with nothing changed, exactly when signature or expiry fails; force-logout exactly when denied; success and every later refusal as the user row says; the exact answer and the exact rows after an undisturbed call; a killing refusal implies a dead family, a success a spent token and an issued successor. |
| `Webhooks.OneDispatchInFlight` | src/modules/webhooks/webhooks.service.ts:111-155 | At most one dispatch per event id is in flight, and only while its row says PROCESSING. |
| `Webhooks.DoneIsFinal` | src/modules/webhooks/webhooks.service.ts:141-142 | Once DONE, an event stays DONE and no dispatch of it is in flight at any later point. |
| `Webhooks.CrashStrandsEvent` | src/modules/webhooks/webhooks.service.ts:135-167 | A crash of the owning delivery leaves the row PROCESSING for ever, and every later delivery is answered "concurrent". |
| `Webhooks.StrandedIff` | src/modules/webhooks/webhooks.service.ts:111-167 | In every run an event is PROCESSING with nobody dispatching it exactly when a delivery crashed while it owned the event. |
| `Webhooks.CrashHappens` | src/modules/webhooks/webhooks.service.ts:111-167 | The shortest such run: a first delivery crashes and the second is answered "concurrent". |
| `Webhooks.RetryNumbersNeverRepeat` | src/modules/webhooks/webhooks.service.ts:169-182 | No retry job is enqueued twice under the same event and attempt number. |
| `Webhooks.AttemptsCountFailures` | src/modules/webhooks/webhooks.service.ts:144-175 | The attempts counter is 2f, or 2f - 1 while FAILED, where f counts the failures of the event in the run. |
| `Webhooks.FailureNumbersItsRetry` | src/modules/webhooks/webhooks.service.ts:169-182 | The k-th failure of an event schedules its retry under attempt 2k - 1. |
| `Webhooks.WebhookRunIsBillingRun` | src/modules/webhooks/webhooks.service.ts:157-190 | The billing rows after any webhook run equal those of the billing run made of the effects performed, so every billing theorem carries over. |
| `Webhooks.ChargedExactlyOnce` | src/modules/subscriptions/subscriptions.service.ts:345-409 | Through deliveries, redeliveries, failures and crashes, if payloads carry no paid_count the counter equals the number of distinct payments on record. |
| `Webhooks.DoneMeansDispatched` | src/modules/webhooks/webhooks.service.ts:162-167 | An event is DONE only if its effect was performed earlier in the run. |
| `Webhooks.DispatchedChargeIsRecorded` | src/modules/subscriptions/subscriptions.service.ts:327-409 | A dispatched charge has its payment on record at every later point, unless the subscription or user row was missing, in which case nothing was written. |
| `Webhooks.RecordedIff` | src/modules/subscriptions/subscriptions.service.ts:327-388 | In every run a payment is on record exactly when some dispatched charge of it found its subscription and user. |
| `Webhooks.SkippedChargeIsDone` | src/modules/subscriptions/subscriptions.service.ts:327-336 | A charge that comes before its subscription: its event becomes DONE and the payment is not on record. |
| `Webhooks.StepKeepsInv` | src/modules/webhooks/webhooks.service.ts:111-189 | Every step keeps one owner per event, distinct attempt numbers and an event row for every delivery. |
| `WebhookService.WebhookService.InsertOrInspect` | src/modules/webhooks/webhooks.service.ts:111-142 | Inserts a PROCESSING row or inspects the existing one without overwriting it, and branches on its status. |
| `WebhookService.WebhookService.TakeOwnership` | src/modules/webhooks/webhooks.service.ts:111-154 | With other deliveries in its gaps: a new event is owned, a PROCESSING one answered concurrent, duplicate is answered exactly for a DONE one, and a failed one is owned if nobody comes in between. |
| `WebhookService.WebhookService.RecordFailure` | src/modules/webhooks/webhooks.service.ts:169-189 | A run of the protocol that answers retry and, when the queue is up, has enqueued a retry of the event under a number that was not on the queue before. |
| `WebhookService.WebhookService.DispatchAndFinalise` | src/modules/webhooks/webhooks.service.ts:157-190 | Answers ok exactly when the handler succeeded, and then the event is DONE; otherwise retry, with a new retry job when the queue is up; undisturbed, exactly the effect, the final row and the retry job. |
| `WebhookService.WebhookService.HandleRazorpayWebhook` | src/modules/webhooks/webhooks.service.ts:76-155 | The handler takes only its own steps between those of others; each bad request gets its 400 and changes nothing; duplicate exactly when the event was DONE; a new event, or a failed one nobody else takes, is dispatched and answered as the handler fares; a retry answer leaves a new retry job when the queue is up; ok and duplicate mean DONE; undisturbed, the exact event row, billing rows and retry jobs. |
| `Billing.EntriesStayUnique` | src/modules/subscriptions/subscriptions.service.ts:528-645 | Every run of charges, cancels, halts and sweeps keeps at most one entry per tier and per subscription, each owned by the user and paid for. |
| `Billing.LateCancelIsNoop` | src/modules/subscriptions/subscriptions.service.ts:444-499 | A cancel or halt for a subscription without an entry changes no row. |
| `Billing.ChargeReplaces` | src/modules/subscriptions/subscriptions.service.ts:528-565 | A recorded charge removes the entry of every other subscription of the same user and tier. |
| `Billing.ReplacedSubStaysInert` | src/modules/subscriptions/subscriptions.service.ts:444-499 | Until it is charged again, a replaced subscription stays without an entry, and its cancels and halts change nothing at any later point. |
| `Billing.OnePaymentPerId` | src/modules/subscriptions/subscriptions.service.ts:376-388 | There is a payment row for an id exactly when some charge with that id found its subscription and user. |
| `Billing.FirstChargeWins` | src/modules/subscriptions/subscriptions.service.ts:345-388 | A payment row carries what the first processed charge of its id said, whatever follows. |
| `Billing.PaidCountIsExact` | src/modules/subscriptions/subscriptions.service.ts:366-388 | Without paid_count in the payloads, paidCount is the number of distinct payments of the subscription. |
| `Billing.PaidCountFollowsPayload` | src/modules/subscriptions/subscriptions.service.ts:366-392 | A paid_count that a recorded charge carries stands until the next recorded charge of the subscription. |
| `Billing.ReplayIsNoop` | src/modules/subscriptions/subscriptions.service.ts:376-388 | Once a payment id is on record, any charge with that id leaves all rows as they are. |
| `SubscriptionService.SubscriptionService.OnCharged` | src/modules/subscriptions/subscriptions.service.ts:323-436 | Writes exactly payment, count and entry for a first-time capture of a known subscription, and nothing otherwise; that capture alone gets an invoice and grants its tier at once. |
| `SubscriptionService.SubscriptionService.OnHalted` | src/modules/subscriptions/subscriptions.service.ts:444-458 | Ends the grace of the subscription's own entry and keeps the array invariant. |
| `SubscriptionService.SubscriptionService.OnCancelled` | src/modules/subscriptions/subscriptions.service.ts:473-499 | Cancels the subscription's own entry with or without grace and keeps the array invariant. |
| `SubscriptionService.SubscriptionService.UpsertSubscriptionEntry` | src/modules/subscriptions/subscriptions.service.ts:528-565 | Replaces the user's entry of the same tier: that tier is then granted as the entry says, every other tier as before, and tiers stay distinct. |
| `SubscriptionService.SubscriptionService.MarkEntryCancelledBySubId` | src/modules/subscriptions/subscriptions.service.ts:576-604 | Cancels the subscription's entries: they grant their tier until their expiry, and the other entries as before. |
| `SubscriptionService.SubscriptionService.MarkEntryExpiredImmediatelyBySubId` | src/modules/subscriptions/subscriptions.service.ts:614-645 | Ends the subscription's entries: from now on a tier is granted exactly by the entries of other subscriptions. |
| `Access.ArrayRefinesSlots` | src/modules/subscriptions/subscriptions.service.ts:528-645 | In every run of charges, cancels, halts and sweeps, the rewritten array holds for each user and tier exactly what a single independent slot per tier holds. |
| `Access.AccessIsTheSlots` | src/shared/models/_tier.ts:54-65 | At every point of every run and for every time, a paid tier is granted exactly when its slot is filled and active. |
| `Access.CoverLastsIff` | src/modules/subscriptions/subscriptions.service.ts:438-565 | A slot paid at least until a time stays so exactly as long as no shorter charge, no earlier end of the subscription it names, and no sweep past its expiry comes. |
| `Access.OverdueAccessIff` | src/shared/models/_tier.ts:137-147 | Past the expiry its slot shows, a tier is still granted exactly while the slot is ACTIVE. |
| `Access.PaidPeriodIsHonoured` | src/modules/subscriptions/subscriptions.service.ts:460-499 | From a recorded charge until the end of its period access lasts, through renewals and other charges for no shorter a time, cancels at cycle end, ends of other subscriptions or after the period, events of other tiers and users, and sweeps dated up to the expiry then held. |
| `Access.EndedAccessStaysEnded` | src/modules/subscriptions/subscriptions.service.ts:438-499 | After a halt or a cancel without grace of the subscription behind a tier, the tier is not granted again at any time up to its next recorded charge. |
| `Tiers.CurrentTier` | src/shared/models/_tier.ts:99-113 | The derived tier is granted by the access predicate and no granted tier ranks higher. |
| `Tiers.UserCanAccessTier` | src/shared/models/_tier.ts:54-65 | The loop answers yes exactly when the tier is PUBLIC or an active entry of that tier exists. |
| `Tiers.DeriveCurrentTier` | src/shared/models/_tier.ts:99-113 | The flag loop returns the highest tier that access is granted to. |
| `Tiers.MaxExpiresAt` | src/shared/models/_tier.ts:149-156 | The latest set expiry, absent exactly when no entry has one. |
| `Tiers.DeriveTierExpiresAt` | src/shared/models/_tier.ts:126-135 | The latest set expiry among the active entries of the derived tier. |
| `Tiers.UpsertAccess` | src/modules/subscriptions/subscriptions.service.ts:528-565 | After a charge its own tier is granted as its entry says, and every other tier as before. |
| `Tiers.ChargesCommute` | src/modules/subscriptions/subscriptions.service.ts:528-565 | Charges of different tiers in either order grant the same tiers at all times. |
| `Tiers.CancelKeepsGrace` | src/shared/models/_tier.ts:137-147 | After a cancel at cycle end the subscription's entries grant access exactly until their expiry. |
| `Tiers.CancelUnchangedUntilExpiry` | src/modules/subscriptions/subscriptions.service.ts:576-604 | Cancelling ACTIVE entries with a set expiry changes no access before that expiry. |
| `Tiers.ExpireEndsAccess` | src/modules/subscriptions/subscriptions.service.ts:614-645 | An immediate expiry removes exactly the access its own entries gave, from that moment on. |
| `Tiers.SweepChangesAccessIff` | src/modules/subscriptions/_subscriptions.pipelines.ts:34-46 | A sweep changes access to a tier from then on exactly when it drops an ACTIVE entry and no kept entry grants the tier. |
| `Tiers.SweepOfInactiveIsSilent` | src/modules/subscriptions/sweep.service.ts:42-71 | A sweep that drops only non-ACTIVE entries changes neither access nor the derived tier at any time from then on. |
| `Tiers.OverdueActiveEntryCounterexample` | src/shared/models/_tier.ts:137-147 | An ACTIVE entry past its expiry still grants its tier until a sweep removes it. |
| `Tiers.SweepClears` | src/modules/subscriptions/_subscriptions.pipelines.ts:34-46 | After the filter no entry is past a set expiry, and a user who had one is modified. |
| `Tiers.SweepKeepsExactly` | src/modules/subscriptions/_subscriptions.pipelines.ts:34-46 | A sweep keeps exactly the entries whose expiry, when set, is not before it. |
| `TierSweep.ChainLengthIsExact` | src/workers/tier-sweep.worker.ts:33-49 | For batch sizes 1 to 10000 the continuation chain has exactly floor(N/b) + 1 jobs and leaves nobody behind. |
| `TierSweep.ChainDrainsIff` | src/workers/tier-sweep.worker.ts:35-48 | For any batch size, the chain leaves nobody behind exactly when the size is within the clamp or one job is enough. |
| `TierSweep.EarlyEndHappens` | src/workers/tier-sweep.worker.ts:35-48 | A batch size of 20000 with 20000 users ends after one job with 10000 users left. |
| `TierSweep.NeverEndsIff` | src/workers/tier-sweep.worker.ts:38-46 | The chain of jobs goes on for ever exactly when the batch size is 0 and there is nothing to sweep. |
| `TierSweep.SweepService.FindCandidates` | src/modules/subscriptions/sweep.service.ts:47-57 | Picks users past a set expiry, as many as there are or as the limit allows. |
| `TierSweep.SweepService.SweepExpiredTiers` | src/modules/subscriptions/sweep.service.ts:42-71 | Filters the arrays of one clamped batch, counts it, leaves other users alone and shrinks the backlog by exactly that batch. |
| `TierSweep.SweepService.HandleJob` | src/workers/tier-sweep.worker.ts:33-49 | Sweeps one batch and re-enqueues exactly when the count equals the requested, unclamped batch size. |
| `TierSweep.SweepService.RunChain` | src/workers/tier-sweep.worker.ts:33-49 | Running the chain takes the computed number of jobs and, for sizes 1 to 10000, ends with an empty backlog. |
| `Rooms.SeatsAndCounter` | src/modules/custom-rooms/custom-rooms.service.ts:183-212 | In every interleaving participants are distinct and at most 100, and the counter lags the list by exactly the calls between their two writes. |
| `Rooms.NewlyRegisteredOnce` | src/modules/custom-rooms/custom-rooms.service.ts:208-212 | At most one call per user is answered alreadyRegistered: false. |
| `Rooms.RegisterFailedUnreachable` | src/modules/custom-rooms/custom-rooms.service.ts:193-206 | The "unknown reason" branch is never reached. |
| `Rooms.ParticipantsOnlyGrow` | src/modules/custom-rooms/custom-rooms.service.ts:183-191 | The list only grows, and once the room is full or completed it never changes or reopens. |
| `Rooms.AnswersArePermanent` | src/modules/custom-rooms/custom-rooms.service.ts:193-212 | A registered user stays on the list; a user refused for a full or closed room is never on it later. |
| `Rooms.LiveIff` | src/modules/custom-rooms/custom-rooms.admin.service.ts:161-181 | A room is LIVE exactly from a start while it was SCHEDULED until the next end. |
| `Rooms.CompletedIff` | src/modules/custom-rooms/custom-rooms.admin.service.ts:172-181 | A room is COMPLETED exactly once it was ended while LIVE. |
| `Rooms.StepKeepsInv` | src/modules/custom-rooms/custom-rooms.service.ts:162-213 | Every step keeps seats distinct and capped, the counter in line, adders distinct, and the condition of each call in progress. |
| `RoomService.RoomService.SetRoomStatus` | src/modules/custom-rooms/custom-rooms.admin.service.ts:161-181 | Moves the status only from the expected one, and reports whether it did. |
| `RoomService.RoomService.StartTheMatch` | src/modules/custom-rooms/custom-rooms.admin.service.ts:161-170 | A SCHEDULED room becomes LIVE, and any other is refused unchanged. |
| `RoomService.RoomService.EndTheMatch` | src/modules/custom-rooms/custom-rooms.admin.service.ts:172-181 | A LIVE room becomes COMPLETED, and any other is refused unchanged. |
| `RoomService.RoomService.AddAndCount` | src/modules/custom-rooms/custom-rooms.service.ts:183-212 | From the guarded add, with other requests in between, to an answer that is never NotFound or a tier refusal. |
| `RoomService.RoomService.Register` | src/modules/custom-rooms/custom-rooms.service.ts:162-213 | The handler takes only its own steps between those of others; refused unchanged exactly when the feature is off; each answer is true of the room at the end, REGISTER_FAILED is never given, and an undisturbed call gets the exact answer, seat and counter. |
| `Codes.CodeLifecycle` | src/modules/redeem-codes/redeem-codes.reconcile.ts:36-58 | Between any two points of any run the status only moves forward, VOID is final, post, first copier and claimer are written at most once, copyCount is at most 1 and a claimer is the first copier. |
| `Codes.StatusIff` | src/modules/redeem-codes/redeem-codes.admin.service.ts:178-242 | In every run a code has a status exactly when a step brought it there (upload, publish, winning claim, closing by its copier or reconcile, void) and none has taken it on since. |
| `Codes.OneClaimWins` | src/shared/repositories/RedeemCode.repository.ts:16-29 | At most one claim of a code wins over any run, and the winner stays its first copier. |
| `Codes.CopiedIff` | src/modules/redeem-codes/redeem-codes.service.ts:165-171 | A user is a code's first copier exactly when an earlier claim of that user won it. |
| `Codes.ClaimedPrizeFollowsCopier` | src/modules/redeem-codes/redeem-codes.service.ts:165-196 | A prize released by a claim belongs to the first copier of its code at every later point. |
| `Codes.ReleasedIff` | src/modules/admin-prize-pools/admin-prize-pools.service.ts:83-94 | A prize is RELEASED exactly when a claim or an admin payout released it and no admin payout has taken that back. |
| `Codes.UncopiedReleaseIff` | src/modules/admin-prize-pools/admin-prize-pools.service.ts:83-94 | A released prize whose user did not copy its code exists exactly when a standing admin payout released it and that user never won the code. |
| `Codes.PayoutWithoutCopyHappens` | src/modules/admin-prize-pools/admin-prize-pools.service.ts:83-94 | A run in which an admin releases a prize whose code nobody has copied. |
| `Codes.StepKeepsInv` | src/modules/redeem-codes/redeem-codes.reconcile.ts:36-58 | Every step keeps the code records consistent and the reconcile snapshots true of the first copier. |
| `CodeService.CodeService.AtomicFcfsClaim` | src/shared/repositories/RedeemCode.repository.ts:16-29 | Copies a code exactly when it is PUBLISHED, and otherwise changes nothing. |
| `CodeService.CodeService.ClaimInTransaction` | src/modules/redeem-codes/redeem-codes.service.ts:165-201 | The claim transaction succeeds exactly when the code was still published; then the caller is its first copier and one pending prize of the caller for the code, if any, is released; otherwise no prize changes. |
| `CodeService.CodeService.MarkCodeClaimed` | src/modules/redeem-codes/redeem-codes.service.ts:227-235 | Succeeds exactly for a COPIED code and its own copier, and then the code is CLAIMED by that user; otherwise nothing changes. |
| `CodeService.CodeService.VoidRedeemCode` | src/modules/redeem-codes/redeem-codes.admin.service.ts:237-242 | Voids a code whatever its status and keeps who copied and claimed it. |
| `CodeService.CodeService.MarkWinnerPayout` | src/modules/admin-prize-pools/admin-prize-pools.service.ts:83-94 | Moves an existing prize to any payout status, and reports a missing one. |
| `CodeService.CodeService.PublishOne` | src/modules/redeem-codes/redeem-codes.admin.service.ts:191-213 | Publishes some available code of the batch to the post if there is one, and it stays attached whatever others do. |
| `CodeService.CodeService.PublishBatchToPost` | src/modules/redeem-codes/redeem-codes.admin.service.ts:178-230 | Refused unchanged exactly for a missing post or batch; otherwise every counted code is attached to this post for good, the count is reached or the batch exhausted, and undisturbed exactly the counted codes are published and no other is touched. |
| `CodeService.CodeService.SettleOne` | src/modules/redeem-codes/redeem-codes.reconcile.ts:45-58 | Closes a code exactly when it is still COPIED, for the user read earlier; either way the code is past COPIED. |
| `CodeService.CodeService.ReconcileCopiedCodes` | src/modules/redeem-codes/redeem-codes.reconcile.ts:30-61 | Every code copied by the threshold is closed or void afterwards, and it counts exactly the codes it closed, each for its first copier; undisturbed it closes exactly those and touches no other. |
| `Ledger.BalanceIsLedgerSum` | src/modules/votes/votes.service.ts:103-138 | In every reachable state the balance is the sum of the user's ledger rows, totalCoinsEarned the sum of bonus and reward rows, totalVotesCast the number of votes. |
| `Ledger.RowsCarryRunningSum` | src/modules/admin-users/admin-users.service.ts:156-190 | Every row's balanceAfter is the user's running sum up to that row. |
| `Ledger.LedgerOnlyGrows` | src/modules/admin-users/admin-users.service.ts:156-190 | Ledger rows are only appended. |
| `Ledger.VotesMatchSpends` | src/modules/votes/votes.service.ts:93-136 | Votes and VOTE_SPEND rows correspond one to one, each worth 3 coins, with at most one vote per user, tier and day. |
| `Ledger.CompletionsMatchRewards` | src/modules/posts/posts.service.ts:176-219 | Completions and POST_REWARD rows name each other with equal amounts, one to one. |
| `Ledger.CoinsAreConserved` | src/modules/votes/votes.service.ts:103-138 | Balance plus 3 per vote equals coins earned plus admin credits and debits, for every user of every run. |
| `Ledger.BalanceIsTotalWorth` | src/modules/posts/posts.service.ts:176-221 | Over any run the balance is 3 for signing up, plus the reward of every post completed for the first time, minus 3 per vote cast, plus every adjustment; the coins earned are the first two. |
| `Ledger.NeverOverdrawnIff` | src/modules/admin-users/admin-users.service.ts:142-161 | A balance stays non-negative through a run exactly when no admin debit in it exceeds the balance it meets. |
| `Ledger.VotesArePaidFor` | src/modules/votes/votes.service.ts:111-125 | Without admin debits the balance is never negative and 3 per vote never exceeds coins earned plus credits. |
| `Ledger.OverdraftHappens` | src/modules/admin-users/admin-users.service.ts:142-161 | A debit of 5 after signup leaves a balance of -2, although the comment says it fails. |
| `Ledger.StepKeepsInv` | src/modules/posts/posts.service.ts:176-221 | Every transaction keeps user rows, ledger, votes and completions in agreement. |
| `CoinService.CoinService.SignupUser` | src/modules/auth/auth.service.ts:267-308 | Creates the user with the bonus and its opening row unless the phone is taken. |
| `CoinService.CoinService.IncCoinBalance` | src/shared/repositories/User.repository.ts:24-32 | Adds to the balance, and to the earned total for positive amounts, or reports a missing user. |
| `CoinService.CoinService.InsertIfAbsent` | src/shared/repositories/Vote.repository.ts:40-50 | Inserts the vote unless the user already voted in this tier on this day. |
| `CoinService.CoinService.SpendOnVote` | src/modules/votes/votes.service.ts:111-125 | Takes 3 coins exactly when the user exists, has them and is not blocked. |
| `CoinService.CoinService.VoteInTransaction` | src/modules/votes/votes.service.ts:85-139 | All of vote, spend and ledger row, or none; a duplicate is reported before a missing balance. |
| `CoinService.CoinService.CastVoteHandler` | src/modules/votes/votes.service.ts:59-155 | With other requests between the checks and the transaction, the answer is exact for the state the transaction met, and only a cast vote changes anything. |
| `CoinService.CoinService.CompleteInTransaction` | src/modules/posts/posts.service.ts:172-222 | Completion, award of exactly the reward, ledger row and back-link, or none; a repeat changes nothing and reports the current balance. |
| `CoinService.CoinService.CompletePostHandler` | src/modules/posts/posts.service.ts:143-240 | Missing, not-live and tier errors exactly as checked; otherwise one completion step on the state the transaction met, with the post's reward on top of the balance it found unless it is a repeat; an existing user is never reported missing. |
| `CoinService.CoinService.AdjustUserCoins` | src/modules/admin-users/admin-users.service.ts:149-209 | Moves the balance by exactly delta with its row and reports before and after; zero delta and unknown users change nothing. |
| `Pagination.WalkYieldsSortedList` | src/modules/users/users.coins.service.ts:104-144 | For any rows, page sizes and cursor, following nextCursor ends within one fetch per row and yields exactly the sorted rows below the cursor. |
| `Pagination.PageCountIsExact` | src/modules/users/users.coins.service.ts:104-144 | With one page size the number of pages is the row count over it, rounded up, and 1 for no rows. |
| `Pagination.WalkIsDescending` | src/modules/admin-audit-logs/admin-audit-logs.service.ts:48-74 | Whatever is inserted or deleted between fetches, the walk is strictly descending, so no row repeats. |
| `Pagination.NothingIsSkipped` | src/modules/admin-audit-logs/admin-audit-logs.service.ts:48-74 | When rows are only added, a finished walk contains every row that was there at its first fetch. |
| `Pagination.ChangesAboveAreUnseen` | src/modules/users/users.coins.service.ts:96-144 | If changes land above the cursor held at that time, a finished walk is exactly the sorted list of its first fetch. |
| `Pagination.NewerRowsAreUnseen` | src/modules/users/users.coins.service.ts:96-103 | Rows that arrive later than all rows of the first fetch never appear and disturb nothing. |
| `Pagination.PageSplits` | src/modules/users/users.coins.service.ts:125-143 | A page and the rows below its cursor are together exactly the rows that were left before it. |
| `Pagination.DescIsUnique` | src/modules/admin-audit-logs/admin-audit-logs.service.ts:61-64 | The sorted list is the only descending sequence of its rows. |
| `Pagination.FetchPage` | src/modules/users/users.coins.service.ts:125-143 | Fetching one row to spare gives the page of the sorted remaining rows, with a cursor exactly when more remain. |
| `Pagination.ListTransactions` | src/modules/users/users.coins.service.ts:104-144 | The first rows below the cursor, as many as the limit says: at least 1, at most 100, and 50 by default. |
| `Pagination.ListAuditLogs` | src/modules/admin-audit-logs/admin-audit-logs.service.ts:31-75 | The first matching rows below the cursor, as many as the limit says: at least 1 and at most 500. |
| `CursorCodec.CursorRoundTrip` | src/modules/admin-audit-logs/admin-audit-logs.service.ts:78-95 | Decoding an encoded cursor gives back its timestamp and id, for every timestamp and 24-digit id. |
| `CursorCodec.DecodeIff` | src/modules/admin-audit-logs/admin-audit-logs.service.ts:83-95 | A cursor is accepted exactly when it is a number, one underscore and 24 hexadecimal digits, and then it means that pair. |
| `CursorCodec.HexRoundTrip` | src/modules/admin-audit-logs/admin-audit-logs.service.ts:78-95 | Fixed-width hexadecimal text parses back to its number. |
| `CursorCodec.DecimalRoundTrip` | src/modules/admin-audit-logs/admin-audit-logs.service.ts:78-95 | Decimal text of any integer parses back to it and holds no separator. |
| `Erasure.RowShowsClock` | src/modules/admin-users/admin-users.service.ts:272-300 | In every run the stored dates of a user who is not anonymized show exactly what a stopwatch shows that is driven by the steps alone and paused by holds. |
| `Erasure.CandidateIffGraceServed` | src/workers/user-anonymize-sweep.worker.ts:59-67 | At every point of every run the sweep's predicate holds exactly when the user is not anonymized and that stopwatch is counting and shows at least 30 days. |
| `Erasure.SweepHonoursGrace` | src/workers/user-anonymize-sweep.worker.ts:69-95 | A user picked by a scan and then written, with no cancel in between and no hold at the write, is anonymized only after 30 days of un-held time. |
| `Erasure.CancelDuringPassIsLost` | src/workers/user-anonymize-sweep.worker.ts:171-182 | A cancel between the scan and the write does not stop the write: a user without a pending request is anonymized. |
| `Erasure.WriteIsRightIff` | src/workers/user-anonymize-sweep.worker.ts:69-182 | Of what happened since the scan: without a cancel the write keeps the promise exactly when there is no hold; in a pass of less than 30 days exactly when there was no cancel and there is no hold. |
| `Erasure.ScanPicksAllServed` | src/workers/user-anonymize-sweep.worker.ts:59-67 | A scan at the present time picks exactly the users whose grace is served. |
| `Erasure.OnlySweepAnonymizes` | src/workers/user-anonymize-sweep.worker.ts:171-182 | Only the sweep's write anonymizes, and only users that the pass picked. |
| `Erasure.CancelRestartsGrace` | src/modules/users/users.erasure.service.ts:84-107 | After a cancel the grace can be used up again only 30 days later. |
| `Erasure.AnonymizedStays` | src/workers/user-anonymize-sweep.worker.ts:69-182 | Once anonymized, always anonymized, however many passes overlap. |
| `Erasure.DateMovesOnlyByOverlap` | src/workers/user-anonymize-sweep.worker.ts:171-182 | The date of an anonymized user changes only if a second pass that had already picked the user comes to the user too. |
| `Erasure.DateStaysIff` | src/workers/user-anonymize-sweep.worker.ts:171-182 | The date of an anonymized user stays the same through a run exactly when no step of it is the write of another pass that picked the user and carries another date. |
| `Erasure.OverlapMovesDate` | src/workers/user-anonymize-sweep.worker.ts:59-182 | A run from the start in which two overlapping passes write the same user and the second moves the date. |
| `Erasure.StepMovesDateIff` | src/workers/user-anonymize-sweep.worker.ts:171-182 | A step rewrites the date exactly when it is the write of a pass that picked the user and carries another date. |
| `Erasure.ZeroDaysIffCandidate` | src/modules/users/users.erasure.service.ts:134-141 | daysRemaining is 0 exactly when a sweep at that instant would pick the user. |
| `Erasure.DaysRoundUp` | src/modules/users/users.erasure.service.ts:134-141 | The days shown are the time left of the 30 days, rounded up to whole days, and 0 once it is over. |
| `Erasure.DaysFollowClock` | src/modules/users/users.erasure.service.ts:115-143 | daysRemaining is 30 days minus what the stopwatch shows, in whole days rounded up, never negative. |
| `Erasure.HoldPreservesGrace` | src/modules/admin-users/admin-users.service.ts:231-300 | However long a hold lasts, days remaining are the same after clearing it as when it was applied. |
| `ErasureService.ErasureService.RequestErasure` | src/modules/users/users.erasure.service.ts:60-82 | Starts the clock, or leaves a pending one where it is, and answers with the status or the refusal. |
| `ErasureService.ErasureService.CancelErasure` | src/modules/users/users.erasure.service.ts:84-107 | Clears request and hold, or refuses in the source's order. |
| `ErasureService.ErasureService.ApplyErasureHold` | src/modules/admin-users/admin-users.service.ts:231-263 | Sets the hold for a pending, unheld request and answers with its time, or refuses in the source's order. |
| `ErasureService.ErasureService.ClearErasureHold` | src/modules/admin-users/admin-users.service.ts:272-300 | Advances deletedAt by the held time, drops the hold and answers with both dates, or refuses. |
| `ErasureService.ErasureService.AnonymizeSweep` | src/workers/user-anonymize-sweep.worker.ts:69-126 | With other requests and other passes between its writes, every candidate of its scan ends anonymized except those whose transaction fails, with the date of this pass unless another one writes, and its counts are exact. |
| `Lockout.LockOutlivesCounter` | src/modules/auth/lockout.store.ts:58-90 | In every run a live count is at most 3, and at 3 the phone is locked at least until the counter expires. |
| `Lockout.AtMostFourPerWindow` | src/modules/auth/otp.service.ts:89-141 | Without a success in between, a half-open 30-minute window holds at most four counted failures. |
| `Lockout.FailureLocksIff` | src/modules/auth/otp.service.ts:132-141 | A counted failure locks exactly when two failures are live before it, which is exactly when, by the failure times alone, the failure two before it opened the window. |
| `Lockout.WrongCodeCounts` | src/modules/auth/otp.service.ts:99-125 | A wrong code, a missing or a used-up row counts on an unlocked phone, in the live window or a new one, and the third locks for 30 minutes. |
| `Lockout.ThreeWrongCodesLock` | src/modules/auth/otp.service.ts:118-141 | From a phone without a live failure, three wrong codes within 30 minutes lock it, and two do not. |
| `Lockout.RightCodeForgives` | src/modules/auth/otp.service.ts:127-129 | A right code on an unlocked phone forgets its failures. |
| `Lockout.RollingWindowIff` | src/modules/auth/otp.service.ts:132-141 | A third failure within 30 minutes locks, as a rolling window would, exactly when the first of the three opened the counter's window. |
| `Lockout.FourIsReached` | src/modules/auth/otp.service.ts:132-141 | Four failures within a millisecond do occur, and the third of them does not lock: the window is the counter's, not a rolling one. |
| `Lockout.LockIsEarned` | src/modules/auth/otp.service.ts:132-141 | A locked phone has three failures within one window, the last less than a window ago, and the lock ends a window after it. |
| `Lockout.StepKeepsInv` | src/modules/auth/lockout.store.ts:58-90 | Every step keeps counter and lock tied to the times of the failures. |
| `OtpService.InMemoryLockoutStore.IsLockedNow` | src/modules/auth/lockout.store.ts:62-70 | Reports the lock and drops it when it has expired. |
| `OtpService.InMemoryLockoutStore.IncrementFails` | src/modules/auth/lockout.store.ts:76-85 | Counts on in a live window or starts a new one, and returns one more than the live count. |
| `OtpService.OtpService.RecordFailAndMaybeLock` | src/modules/auth/otp.service.ts:132-141 | Counts the failure and locks exactly from the third live one on. |
| `OtpService.OtpService.VerifyOtp` | src/modules/auth/otp.service.ts:89-130 | Verified exactly for an unlocked phone with a match, which forgets its failures; every other outcome but a row without a hash counts one failure and locks at the third; OTP_LOCKED exactly when the phone is locked afterwards. |
| `OtpService.OtpService.SendOtp` | src/modules/auth/otp.service.ts:60-87 | Refused exactly while the phone is locked, and never touches the counter. |
| `PrizePools.FirstComputationWins` | src/modules/prize-pools/prize-pools.service.ts:133-243 | Of the finished computations of a tier and day exactly one created the row, from its own snapshot, and all report its figures. |
| `PrizePools.FiguresWereRead` | src/modules/prize-pools/prize-pools.service.ts:136-142 | Vote count, configuration and donations of a computation are what its own three reads found, each at its own step of the run. |
| `PrizePools.FiguresByTier` | src/modules/prize-pools/prize-pools.service.ts:144-153 | Votes times base rate, times 1 for PUBLIC, the PRO and the PRO_MAX multiplier for the paid tiers, plus donations; defaults 100, 5 and 10; the two budgets are the total. |
| `PrizePools.ReadsShowTheWinner` | src/modules/prize-pools/prize-pools.service.ts:245-298 | Every later read of the day shows those figures, whatever votes, donations and configuration do. |
| `PrizePools.TodayIsSound` | src/modules/prize-pools/prize-pools.service.ts:258-298 | Whatever a read shows adds up: shares to the total, budgets to the total, nothing negative, donations only for PUBLIC; no row shows zeros. |
| `PrizePools.RebuildIsExact` | src/modules/prize-pools/prize-pools.service.ts:218-243 | The shares taken back out of the stored row are those computed when it was stored. |
| `PrizePools.StepKeepsInv` | src/modules/prize-pools/prize-pools.service.ts:133-243 | Every step keeps one creator per row, sound rows, and finished answers equal to the row. |
| `PrizePoolService.PrizePoolService.BeginAndReadVotes` | src/modules/prize-pools/prize-pools.service.ts:133-137 | The vote count is the one in the database when it is read. |
| `PrizePoolService.PrizePoolService.ReadConfigAndDonations` | src/modules/prize-pools/prize-pools.service.ts:136-146 | The configuration, or its defaults, and for PUBLIC the donations, are those in the database when each is read. |
| `PrizePoolService.PrizePoolService.UpsertPool` | src/modules/prize-pools/prize-pools.service.ts:150-243 | Inserts the row unless it is there and answers with computed or rebuilt figures. |
| `PrizePoolService.PrizePoolService.ComputeAndPublishPool` | src/modules/prize-pools/prize-pools.service.ts:133-243 | With other requests between the three reads and the upsert, the answer equals what a read then shows and adds up; it is created exactly when the upsert met no row, and then computed from what each read met; existing rows are untouched. |
| `PrizePoolService.PrizePoolService.GetTodayForTier` | src/modules/prize-pools/prize-pools.service.ts:258-298 | Shows the rebuilt figures of the row, or the PENDING zeros when there is none, and they add up. |
| `Gst.TaxRoundTrip` | src/shared/invoicing/gst.ts:23-27 | Adding 18% rounded to the paisa to any base and deriving again gives back the base and the tax. |
| `Gst.TaxIsEighteenPercent` | src/shared/invoicing/gst.ts:23-27 | Base and tax sum to the total, are not negative, and the tax is within 0.59 paise of 18% of the base. |
| `Gst.BaseIsNearest` | src/shared/invoicing/gst.ts:23-27 | The derived base is the nearest whole paisa to total * 100 / 118, strictly nearer than any other. |
| `Gst.RoundDivIsNearest` | src/shared/invoicing/gst.ts:24-24 | The rounded quotient is the one integer within half of the quotient, halves going up. |
| `Gst.SplitGst` | src/shared/invoicing/gst.ts:43-48 | The lines re-sum to the tax; halves differ by at most one; one scheme excludes the other. |
| `Gst.InvoiceAddsUp` | src/shared/invoicing/gst.ts:23-48 | Base and tax lines re-sum to the amount charged and none is negative. |

## Left out

- HTTP routes, controllers, request schemas, error rendering, metrics, logging, queue wiring: no deep state.
- Razorpay, KMS, S3, SES, SMS, PDF, bcrypt, HMAC and JWT: foreign calls, present only as booleans, injective hashes and fresh ids.
- Mongo and Redis internals (write conflicts, transaction retry, document-by-document `updateMany`): every operation is atomic; expiry of session rows is the `DeleteSessions` step.
- Unreachable defensive branches on null results of an upsert or a transaction (VOTE_FAILED, REFRESH_FAILED, a missing pre-image): the atomic model has no such result.
- The user row and the force-logout denylist as read by a refresh, and the row lookup and hash comparison of an OTP verify: inputs that may take any value.
- Access tokens, device fingerprints, audit rows, coin events and notifications: written beside the modelled rows and never read by them.
- The KYC gate and the TDS amount of a claim, the challan and PAN fields of a payout, and code statuses that no code writes: no guarantee over runs.
- Invoice numbering, the financial-year key, donations aggregation, dashboards, CMS and other admin CRUD, migrations and seeds: they would add only easy members.
- Calendar arithmetic: day keys and instants are opaque numbers.
- Tiers.SweepFilter: whether an entry without an expiry survives depends on how the database compares a missing field with null, so that verdict is a parameter and the results hold for both.
- PrizePools.Computed: the gift budget is the floor of a floating-point product; only 0 <= gift <= total is used, not an exact 70%.
- Gst.DeriveBaseAndGst: exact integer rounding; the source divides in doubles, which agrees as long as amounts are exactly representable.
- CursorCodec.DecodeCursor: base64 and the JSON form of the coin-history cursor are library code; integers are unbounded and leading white space is blank, tab or line end.
- Erasure.Apply: each handler and each write of a sweep pass is one step, and a pass is never dated in the future.
- ErasureService.ErasureService.RequestErasure: the session revocation and denylist write that follow the request are not part of its state.
- ErasureService.ErasureService.CancelErasure: removing the denylist key is not part of its state.
- ErasureService.ErasureService.ApplyErasureHold: the reason and the acting admin are not stored.
- ErasureService.ErasureService.AnonymizeSweep: cascades, tombstones, session deletion and the audit rows for pending winnings are not part of its state.
- SubscriptionService.SubscriptionService.OnCharged: the status, period and remaining-count fields of the subscription row are not modelled, because nothing modelled reads them.
- SubscriptionService.SubscriptionService.OnHalted: the status of the subscription row is not modelled, for the same reason.
- SubscriptionService.SubscriptionService.OnCancelled: the status and cancellation time of the subscription row are not modelled, for the same reason.
- CodeService.CodeService.PublishBatchToPost: the status of the batch row and the tier copied onto the code are not modelled.
- PrizePoolService.PrizePoolService.ComputeAndPublishPool: the handler makes its three reads in one order; the theorems of `PrizePools` hold for every order.
- Lockout.Apply: verifies of one phone are sequential and the clock does not go back; the Redis store with the same contract is not modelled separately.
- Ledger.Apply: post rewards are naturals, as the admin schema demands; the coin emission after a commit is not modelled.
- Webhooks.Apply: the retry worker is another delivery of the same event; the queue's own redelivery policy is not modelled.
