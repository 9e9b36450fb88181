# Verified model of the chat platform's core

A Dafny project that models the stateful core of the platform and proves properties of it. `dafny verify
dfyconfig.toml` checks everything.

| files | what they model |
|---|---|
| `SecureMessages`, `SecureMessageInvariants`, `SecureMessageRuns`, `SecureMessagePictures`, `SecureMessageOutcomes`, `SecureMessageController` | the browser's secure message controller: six maps, object URLs, expiry timers, and loads that are suspended while timers, other loads and close run |
| `CashierSelection`, `AssignmentTables`, `AssignmentInvariants`, `AssignmentRuns`, `AssignmentRequests`, `AssignmentBatches`, `AssignmentEffects`, `AssignmentRetries` | the assignment scheduler: its rows, the least-loaded choice, and whole runs of registration, reassignment, moderation, deletion and subscription changes |
| `AssignmentsService`, `AdminUsers` | the services over those rows, as classes whose transactions commit or change nothing |
| `ExpiryDrain`, `SubscriptionExpiryWorker` | the drain of lapsed subscriptions in bounded turns, served round-robin, and the worker that drives it |
| `AdminMfa`, `AdminMfaRuns`, `AdminMfaCommits`, `AdminMfaService` | the passkey ceremonies of an administrator, with principals that may be out of date |
| `DeviceQuarantine`, `DeviceQuarantineRuns`, `DeviceQuarantineAnswers`, `MatrixDeviceServices` | candidate devices and their verification flows, moved by four services and one SQL trigger |
| `Timelines`, `TimelineCommands` | published terms and investigation keys |
| `LoginLockout`, `RecoveryCode`, `Base64` | the login lock, the packer of recovery codes, and three checks of base64 keys |
| `Wrappers`, `Arithmetic` | results, options and the arithmetic that several modules share |

Each machine has the same shape. A functional specification says what every step does to the tables. Classes with the
fields of the source do it step by step, each method proved against the specification. Lemmas about the specification
prove what the steps keep, and what therefore holds over every run. The modules `SecureMessageOutcomes`,
`AssignmentEffects`, `AdminMfaCommits` and `DeviceQuarantineAnswers` state the answers and the new rows of the operations
in terms of the rows alone, without the functions that compute them.

A database transaction is one atomic step, and a stretch of JavaScript between two awaits is one atomic step. There is
one clock that does not go back; a transaction that reads it several times has that many ordered readings. Random
tie-breaking is an arbitrary choice.

## Where the code differs from what is expected of it

- A client that is not deleted does not always have an open assignment or a pending request. When the fifth distinct
  cashier blocks it, `apps/api/src/moderation/moderation.service.ts:406-437` ends the assignment and suspends the client
  without opening a request, and reactivation only retries a pending request. `OneAssignmentOrOneRequest` states the
  exact condition, fewer than five distinct cashiers, and `FifthBlockExample` is a run that leaves a client with neither.
- The round-robin of the expiry drain can stand still. The cursor is the update instant, ties are broken by end and id,
  and a turn that completes at the instant already stored keeps its place (`StalledClockRepeats`; `StalledClockExample`
  is a reachable case). `RoundRobin` has the exact condition: a waiting subscription gets its turn in order if and only
  if each turn before it expires its subscription or completes past the stamp of the one that waits.
- A rotation of the investigation key in the very instant of the previous activation is refused; `RotationGoesAhead`
  has that condition, `SecondRotationIsRefused` and `SecondRotationExample` the failing case.

- The cache entry of a picture can outlive its record. `apps/web/src/secureMessageController.ts:153-164` writes it after an
  await without another test, so a picture that expires meanwhile stays cached, with a revoked URL, until a load meets
  it again or the controller closes (`PictureOutlivesItsRecord`); cached text always has its record
  (`TextNeverOutlivesItsRecord`).

## Model

| member | source | states |
|---|---|---|
| `SecureMessageRuns.LoadRefinesDecryption` | apps/web/src/secureMessageController.ts:81-197 | Under any interleaving of loads, timers, aborts and close, a load that returns shows exactly the page messages that are unexpired at its end, in page order, with distinct ids and distinct authenticated keys; each is what decrypting afresh builds, bound to its device and client id, with the delivery status of its first receipt, so the cache path refines the uncached one |
| `SecureMessageRuns.IndexesAgree` | apps/web/src/secureMessageController.ts:369-460 | In every reachable state the records, the keys by message id and the expiry timers are in bijection, each URL and each listed id belongs to a registered message, and an unexpired plaintext in an open controller has a record for the same conversation and fingerprint |
| `SecureMessageRuns.RecordPersists` | apps/web/src/secureMessageController.ts:424-474 | An anti-replay record stays unchanged until the clock reaches its own expiry or the controller closes, whatever expiry later pages claim |
| `SecureMessageRuns.ReuseNeverReturns` | apps/web/src/secureMessageController.ts:83-147 | In every run: until a record expires or the controller closes, no load returns a page on which an unexpired message reuses its key or its message id with another id, conversation, fingerprint or expiry, whichever of the two came first |
| `SecureMessageRuns.ReturnedLoadsAgree` | apps/web/src/secureMessageController.ts:369-405 | In every run: two loads that return, in any conversations, never show one message id or one authenticated key with two contents while both messages are unexpired |
| `SecureMessagePictures.PicturesAreMade` | apps/web/src/secureMessageController.ts:296-344 | In every run each image message that awaits its store, is cached, collected or returned carries a URL that an earlier download of that very message created, and so does each URL held under an id |
| `SecureMessagePictures.OnePictureOneMessage` | apps/web/src/secureMessageController.ts:322-344 | No URL shows two messages: whatever carries or holds it, in any two states of a run and in any loads, does so for one message id |
| `SecureMessagePictures.ReturnedPictures` | apps/web/src/secureMessageController.ts:191-197 | In a returned load each image message has a picture made for it, a URL that is still held is held under its own id, and two messages with one URL are the same message |
| `SecureMessageOutcomes.TextNeverOutlivesItsRecord` | apps/web/src/secureMessageController.ts:123-158 | In every run cached text belongs to an open controller and has a record for its conversation and fingerprint |
| `SecureMessageOutcomes.PictureOutlivesItsRecord` | apps/web/src/secureMessageController.ts:153-164 | The rule for text fails for pictures: a run in which the entry of a picture is written after its record and URL are gone |
| `SecureMessageOutcomes.AbortedNeverReturns` | apps/web/src/secureMessageController.ts:476-481 | After an abort, its own or by close, a load that has not returned never does |
| `SecureMessageOutcomes.TimerForgets` | apps/web/src/secureMessageController.ts:400-404 | In every run, when the timer of a message has run nothing is kept of it: no URL, plaintext, record, timer or listing |
| `SecureMessageOutcomes.ExpiredIsForgotten` | apps/web/src/secureMessageController.ts:81-93 | A load that meets an expired message of its page skips it, and whatever was kept of it is forgotten exactly when its recorded expiry has passed too |
| `SecureMessageOutcomes.ReturnForgets` | apps/web/src/secureMessageController.ts:176-180 | A return forgets what it had collected and what has expired since, in the message and on record |
| `SecureMessageOutcomes.ReturnReleases` | apps/web/src/secureMessageController.ts:181-188 | A return lists exactly what it shows and releases the URL and plaintext of whatever the conversation listed before and does not show now |
| `SecureMessageOutcomes.DecryptedDecides` | apps/web/src/secureMessageController.ts:123-158 | After decryption a load goes on exactly when what was authenticated names the device and client id of the message, no record contradicts it and a picture has an attachment; otherwise it fails with the first of the three errors |
| `SecureMessageOutcomes.LatePictureFails` | apps/web/src/secureMessageController.ts:322-326 | A picture that arrives after its message expired fails the load and no URL is created |
| `SecureMessageOutcomes.CollectedIsCached` | apps/web/src/secureMessageController.ts:83-164 | What a stretch adds to a load it also caches, under the id and fingerprint of the message |
| `SecureMessageOutcomes.CachedIsShown` | apps/web/src/secureMessageController.ts:83-122 | A cached, registered and unexpired message is shown without a new decryption, with the status its receipts have now |
| `SecureMessageOutcomes.KeysIdentify` | apps/web/src/secureMessageController.ts:500-505 | For device ids without a colon, equal authenticated keys mean equal device and client message ids |
| `SecureMessageRuns.UrlsAreConserved` | apps/web/src/secureMessageController.ts:322-344 | Every object URL created is held by exactly one message and not revoked, or is held by none and was revoked exactly once |
| `SecureMessageRuns.ClosedForGood` | apps/web/src/secureMessageController.ts:281-293 | After close, with loads still in flight, the URL, listing, record and timer maps stay empty, no URL is created any more and every one was revoked once |
| `SecureMessageRuns.ReceiptsFollowDecryption` | apps/web/src/secureMessageController.ts:109-115 | A load confirms as read exactly the messages of other users, not yet read, that it has decrypted or taken from the cache and collected |
| `SecureMessageRuns.RunKeeps` | apps/web/src/secureMessageController.ts:65-198 | The whole invariant of controller and loads in flight holds in every state of every run |
| `SecureMessageRuns.StepKeeps` | apps/web/src/secureMessageController.ts:65-198 | Each stretch between two awaits, timer callback, abort and close keeps the invariant, keeps every unexpired record and does not turn the clock back |
| `SecureMessageInvariants.FireKeeps` | apps/web/src/secureMessageController.ts:400-404 | A timer callback at its deadline removes exactly its message and keeps the indexes, the schedule and the URL ledger |
| `SecureMessageInvariants.ExpireIfDueKeeps` | apps/web/src/secureMessageController.ts:462-474 | An expiry that a page claims removes a message only when the recorded expiry has passed |
| `SecureMessageControllers.SecureMessageController.constructor` | apps/web/src/secureMessageController.ts:50-63 | A new controller holds nothing |
| `SecureMessageControllers.SecureMessageController.RevokeObjectUrl` | apps/web/src/secureMessageController.ts:362-367 | Revokes the held URL once and forgets it; without one nothing changes |
| `SecureMessageControllers.SecureMessageController.ExpireMessage` | apps/web/src/secureMessageController.ts:424-460 | The new state of the six maps and of the platform is that of the specification, for every expected key |
| `SecureMessageControllers.SecureMessageController.ExpireMessageIfDue` | apps/web/src/secureMessageController.ts:462-474 | As specified: nothing while the recorded expiry lies ahead |
| `SecureMessageControllers.SecureMessageController.RememberAuthenticatedMessage` | apps/web/src/secureMessageController.ts:369-405 | Registers, accepts an identical repeat, or fails on any conflict and then changes nothing |
| `SecureMessageControllers.SecureMessageController.TimerFires` | apps/web/src/secureMessageController.ts:400-404 | Spends the timer and expires the message it was started for |
| `SecureMessageControllers.SecureMessageController.Close` | apps/web/src/secureMessageController.ts:281-293 | Revokes every held URL, cancels every timer and empties the six maps |
| `SecureMessageControllers.SecureMessageController.ScanItem` | apps/web/src/secureMessageController.ts:81-122 | The stretch before the decryption of one message: expiry, cache hit, or the await |
| `SecureMessageControllers.SecureMessageController.AfterDecrypt` | apps/web/src/secureMessageController.ts:123-158 | The stretch after it: abort, expiry, binding, registration, text or the image await |
| `SecureMessageControllers.SecureMessageController.AfterDownload` | apps/web/src/secureMessageController.ts:322-341 | The stretch that creates an image URL, having revoked the previous one |
| `SecureMessageControllers.SecureMessageController.StoreImage` | apps/web/src/secureMessageController.ts:153-164 | The cache write after the image await, without another abort check |
| `SecureMessageControllers.SecureMessageController.FilterLive` | apps/web/src/secureMessageController.ts:176-180 | Keeps the collected messages that are unexpired and expires the others |
| `SecureMessageControllers.SecureMessageController.ShowOnly` | apps/web/src/secureMessageController.ts:181-188 | Drops what the conversation listed before and no longer shows |
| `SecureMessageControllers.SecureMessageController.Finish` | apps/web/src/secureMessageController.ts:174-197 | The last stretch of a load and the conversation it returns |
| `SecureMessageControllers.RevokeEach` | apps/web/src/secureMessageController.ts:283-283 | The loop over held URLs revokes each of them exactly once |
| `SecureMessageControllers.CancelEach` | apps/web/src/secureMessageController.ts:284-286 | The loop over expiry entries cancels exactly their timers |
| `SecureMessageControllers.DownloadExactBytes` | apps/web/src/secureMessageController.ts:582-609 | Accepts exactly the complete bodies of the declared size and returns their bytes; on any failure the buffer is zero and the error names the cause, where an aborted signal hides every failure while reading |
| `SecureMessageControllers.CheckPageOrder` | apps/web/src/messagePayload.ts:151-164 | Neighbour checks and the cursor accept exactly the pages whose sequence numbers strictly increase and end at the cursor |
| `SecureMessageRuns.ReuseFailsTheLoad` | apps/web/src/secureMessageController.ts:83-147 | Helper: the stretch that meets a conflicting record changes nothing, shows nothing, and after decryption fails |
| `SecureMessageOutcomes.AbortedStretchFails` | apps/web/src/secureMessageController.ts:613-618 | Helper: the stretch that finds an abort fails with it and changes nothing else |
| `SecureMessageInvariants.CloseKeeps` | apps/web/src/secureMessageController.ts:281-293 | Helper: close keeps the URL ledger: everything held is revoked and nothing twice |
| `AssignmentBatches.RedistributionIsBalanced` | apps/api/src/assignments/assignments.service.ts:444-485 | Redistributing a leaving cashier's active clients that have no blocks of their own reaches the least possible maximum load, for every tie-break |
| `CashierSelection.GreedyIsOptimal` | apps/api/src/assignments/cashier-selection.ts:16-40 | Placing k clients one by one with the least loaded, for every tie-break, ends with the maximum max(old maximum, ceil((sum + k) / n)), and no spread of the k clients ends lower |
| `CashierSelection.SelectLeastLoadedCashier` | apps/api/src/assignments/cashier-selection.ts:8-41 | Exact error cases; otherwise the drawn index picks from the candidates with the fewest clients |
| `CashierSelection.TiedAreLeastLoaded` | apps/api/src/assignments/cashier-selection.ts:27-30 | The tie that the index is drawn over holds exactly the least-loaded candidates |
| `AssignmentRuns.OneAssignmentOrOneRequest` | apps/api/src/moderation/moderation.service.ts:389-437 | In every run a client has exactly one open assignment or pending request if it is not deleted and fewer than five distinct cashiers blocked it, and otherwise neither |
| `AssignmentRuns.FifthBlockLeavesNeither` | apps/api/src/moderation/moderation.service.ts:406-437 | The fifth distinct cashier to block a client leaves it suspended with neither, and reactivation does not bring it back |
| `AssignmentRuns.FifthBlockExample` | apps/api/src/moderation/moderation.service.ts:406-437 | A run from the empty tables, step by step, that ends with a client whose account is active and that has neither |
| `AssignmentRuns.ConversationActiveExactlyWhileOpen` | apps/api/src/assignments/assignments.service.ts:644-673 | In every run each assignment has its conversation, active exactly while the assignment is open |
| `AssignmentRuns.LineageHolds` | apps/api/src/assignments/assignments.service.ts:649-694 | In every run a reassigned assignment follows an ended one of the same client with another cashier, started no earlier than it ended; no two follow the same one; chains are acyclic and end at an invitation; and no block between its two parties existed when it was created |
| `AssignmentRuns.EligibilityIsUnique` | apps/api/src/assignments/conversation-eligibility.service.ts:387-392 | The error for more than one active eligibility cannot be reached |
| `AssignmentRuns.NewAssignmentIsEligible` | apps/api/src/assignments/conversation-eligibility.service.ts:12-36 | In every run each assignment that a step other than registration adds, by a move, a retry, a report or a block, passes the separately written eligibility query at that instant, with exactly one row |
| `AssignmentBatches.BatchMakesEligible` | apps/api/src/assignments/assignments.service.ts:465-482 | So does each assignment that a batch of moves makes and leaves open, when the batch commits |
| `AssignmentBatches.RetriesMakeEligible` | apps/api/src/assignments/assignments.service.ts:581-605 | And each that a batch of retries makes |
| `ExpiryDrain.TurnMakesEligible` | apps/api/src/assignments/assignments.service.ts:147-224 | And each that a turn of the expiry drain makes |
| `AssignmentRuns.StepKeeps` | apps/api/src/assignments/assignments.service.ts:644-828 | Registration, reassignment, retries, reports, blocks, deletion, account and subscription changes all keep the invariant |
| `AssignmentRuns.RunKeeps` | apps/api/src/assignments/assignments.service.ts:644-828 | So it holds in every state of every run |
| `AssignmentRuns.BlockKeeps` | apps/api/src/moderation/moderation.service.ts:379-500 | A cashier's block keeps the invariant in both its branches |
| `AssignmentRuns.ReportKeeps` | apps/api/src/moderation/moderation.service.ts:299-345 | A client's report never takes the client out of the scheduler |
| `AssignmentRuns.DeleteKeeps` | apps/api/src/assignments/assignments.service.ts:488-559 | Deleting a client ends what it has, and only that |
| `AssignmentRetries.WorkerWaits` | apps/api/src/assignments/assignments.service.ts:286-296 | In every run, after the n-th try of a request, by whatever step, no selection of the worker takes it and no attempt of the worker follows before min(5 min, 5 s * 2^min(n, 6)) have passed |
| `AssignmentRetries.AttemptsAreCounted` | apps/api/src/assignments/assignments.service.ts:731-828 | The stored number of attempts is the number of steps of the run that tried the request while its client was active |
| `AssignmentRetries.SelectedFrom` | apps/api/src/assignments/assignments.service.ts:276-301 | The worker selects from exactly the pending requests of active clients that were never tried or whose waiting time is over |
| `AssignmentEffects.CandidatesCouldWrite` | apps/api/src/assignments/assignments.service.ts:836-857 | The candidates are exactly the cashiers that the separately written eligibility query would let write to the client, without a block and without the one that is left |
| `AssignmentEffects.ChoiceIsLeastLoaded` | apps/api/src/assignments/assignments.service.ts:751-758 | A choice is allowed exactly when it is nobody because nobody could take over, or one that could with the fewest open assignments |
| `AssignmentEffects.CompleteTries` | apps/api/src/assignments/assignments.service.ts:696-828 | One try of a request, row by row: nothing for an inactive client, one more attempt without a choice, the following assignment with one |
| `AssignmentEffects.BeginLeaves` | apps/api/src/assignments/assignments.service.ts:644-694 | A move ends the assignment and its conversation for the given reason and tries the request it opens |
| `AssignmentEffects.ReportLeaves` | apps/api/src/moderation/moderation.service.ts:299-345 | A report blocks the own cashier in the name of the client and moves the client for that reason |
| `AssignmentEffects.BlockLeaves` | apps/api/src/moderation/moderation.service.ts:379-500 | A block moves the client, or at the fifth cashier suspends it, ends its assignment and opens nothing |
| `AssignmentEffects.RemovalEnds` | apps/api/src/assignments/assignments.service.ts:488-559 | A deleted client ends with its rows, and no row of another client changes |
| `AssignmentEffects.ActivationOpens` | apps/api/src/admin/admin-users.service.ts:1214-1272 | One new period from now on for a cashier without any |
| `AssignmentEffects.ActivationIsRefused` | apps/api/src/admin/admin-users.service.ts:1218-1256 | Which of the four refusals an activation meets, from the rows of the cashier |
| `AssignmentEffects.PeriodEnds` | apps/api/src/admin/admin-users.service.ts:1297-1391 | Deactivation and cancellation end one period now, at least a millisecond after its start; only deactivation keeps an end that has passed |
| `AssignmentRequests.ReassignmentsAnswerRequests` | apps/api/src/assignments/assignments.service.ts:782-818 | In every run the reassignments correspond one to one to the completed requests: same client, the predecessor that the request was opened for, no earlier than it, after at least one attempt |
| `AssignmentRequests.StepKeepsMatched` | apps/api/src/assignments/assignments.service.ts:696-828 | Every step keeps that correspondence, with attempts, dates and status of each request |
| `AssignmentInvariants.CompleteKeepsHistory` | apps/api/src/assignments/assignments.service.ts:731-828 | Completing a request keeps lineage, pending requests, blocks and conversations sound |
| `AssignmentBatches.BatchIsGreedy` | apps/api/src/assignments/assignments.service.ts:465-482 | Each move of a batch is one greedy placement on the loads that the database then counts |
| `AssignmentBatches.BatchKeeps` | apps/api/src/assignments/assignments.service.ts:465-482 | A batch of reassignments keeps the invariant at each of its moves |
| `AssignmentBatches.RetriesKeep` | apps/api/src/assignments/assignments.service.ts:581-605 | A batch of retries keeps the invariant at each of its steps |
| `AssignmentsServices.FindEligibleCandidates` | apps/api/src/assignments/assignments.service.ts:830-875 | Lists exactly the eligible cashiers, each once, with the number of its open assignments |
| `AssignmentsServices.ChooseCashier` | apps/api/src/assignments/assignments.service.ts:751-758 | Answers nobody exactly when nobody is eligible, and otherwise a least-loaded eligible cashier |
| `AssignmentsServices.CompletePendingIn` | apps/api/src/assignments/assignments.service.ts:696-828 | The new tables are those of the specification for an allowed choice; the only error is a count beyond the safe integers |
| `AssignmentsServices.BeginReassignmentIn` | apps/api/src/assignments/assignments.service.ts:644-694 | Ends the assignment and its conversation, opens the request and tries it at once |
| `AssignmentsServices.BeginEach` | apps/api/src/assignments/assignments.service.ts:465-482 | The loop is the specified batch, each assignment still open when its turn comes |
| `AssignmentsServices.OrderBy` | apps/api/src/assignments/assignments.service.ts:157-160 | Ordering by instant and id with a limit: the first rows, sorted, and no later row before an unselected one |
| `AssignmentsServices.ReassignCashierClientsIn` | apps/api/src/assignments/assignments.service.ts:439-486 | All open clients of the cashier leave, oldest first, and none is left |
| `AssignmentsServices.AssignmentsService.NextExpired` | apps/api/src/assignments/assignments.service.ts:121-138 | The lapsed subscription that was served longest ago, if any is lapsed |
| `AssignmentsServices.AssignmentsService.ReconcileNextExpiredSubscription` | apps/api/src/assignments/assignments.service.ts:110-243 | One turn as specified, or no change when nothing is lapsed; the limit is refused exactly outside 1 to 100 |
| `AssignmentsServices.ServeTurn` | apps/api/src/assignments/assignments.service.ts:147-224 | At most the limit of clients leave, then the subscription expires or goes to the back |
| `AssignmentsServices.AssignmentsService.ReconcilePendingReassignments` | apps/api/src/assignments/assignments.service.ts:245-337 | Retries exactly the oldest due requests of active clients, within the limit |
| `AssignmentsServices.AssignmentsService.ReassignAdministrative` | apps/api/src/assignments/assignments.service.ts:339-401 | Not found exactly for a client that is not active; in conflict exactly for one that five cashiers blocked; otherwise its request is retried or it is moved |
| `AssignmentsServices.RetryClientIn` | apps/api/src/assignments/assignments.service.ts:607-642 | Tries the pending request of one client once, if there is one |
| `AssignmentsServices.RetryPendingIn` | apps/api/src/assignments/assignments.service.ts:581-605 | Retries the oldest pending requests of active clients, within the limit |
| `AssignmentRuns.ChainEndsAtInvitation` | apps/api/src/assignments/assignments.service.ts:782-800 | Helper: following predecessors terminates at an invitation |
| `AssignmentRuns.ActivateKeeps` | apps/api/src/admin/admin-users.service.ts:1214-1272 | Helper: a new period never makes a second active one for its cashier |
| `AssignmentEffects.RegistrationAdds` | apps/api/src/auth/auth.service.ts:183-300 | Helper: the rows of a new client |
| `AssignmentRetries.RetriedFrom` | apps/api/src/assignments/assignments.service.ts:581-605 | Helper: retries outside the worker take any pending request of an active client |
| `ExpiryDrain.OwnTurns` | apps/api/src/assignments/assignments.service.ts:147-224 | A lapsed cashier with n open clients waits for exactly max(1, ceil(n / limit)) turns of its own |
| `ExpiryDrain.DrainEnds` | apps/api/src/assignments/assignments.service.ts:110-243 | Nothing waits any more after exactly the total of turns, and not before |
| `ExpiryDrain.RoundRobin` | apps/api/src/assignments/assignments.service.ts:133-138 | A waiting subscription with k others ahead is served by none of the next k turns, and by the turn after them exactly when each of those k turns let it by: the served subscription expired, or completed past its stamp; and k is less than the number that wait |
| `SubscriptionExpiryWorkers.RunsNeeded` | apps/api/src/assignments/subscription-expiry.worker.ts:106-130 | Lapsed subscriptions that owe T turns are finished by exactly ceil(T / 8) runs |
| `ExpiryDrain.TurnEffect` | apps/api/src/assignments/assignments.service.ts:147-224 | A turn takes min(limit, n) clients from the served cashier, expires the subscription exactly when n is at most the limit, and otherwise only moves its cursor |
| `ExpiryDrain.TurnSparesOthers` | apps/api/src/assignments/assignments.service.ts:836-857 | No client of another lapsed cashier is touched, and no lapsed cashier receives one |
| `ExpiryDrain.TurnKeeps` | apps/api/src/assignments/assignments.service.ts:147-224 | A turn keeps the invariant of the scheduler |
| `ExpiryDrain.ExpiresEmpty` | apps/api/src/assignments/assignments.service.ts:189-207 | A served subscription is expired exactly when its cashier has no open client left |
| `ExpiryDrain.TotalTurns` | apps/api/src/assignments/assignments.service.ts:110-243 | Each turn of a serial drain leaves exactly one turn fewer to do |
| `ExpiryDrain.NextIsOldest` | apps/api/src/assignments/assignments.service.ts:121-138 | The subscription served has lapsed, and no other lapsed one comes before it by stamp, then end, then id |
| `ExpiryDrain.FirstRows` | apps/api/src/assignments/assignments.service.ts:157-160 | Selected rows ascend by instant and id, fill the limit, and nothing left out comes before any of them |
| `ExpiryDrain.ServedGoesLast` | apps/api/src/assignments/assignments.service.ts:208-216 | A served subscription that still waits is last in the queue exactly when its turn completed past the stamp of every other waiting one |
| `ExpiryDrain.StalledClockRepeats` | apps/api/src/assignments/assignments.service.ts:133-138 | A turn that completes at the instant already stored leaves the served subscription the next one again |
| `ExpiryDrain.StalledClockExample` | apps/api/src/assignments/assignments.service.ts:133-138 | Tables that a run from the empty ones reaches, in which a turn completes at the stored stamp, lets nobody by and serves the same subscription again |
| `SubscriptionExpiryWorkers.SubscriptionExpiryWorker.ReconcileBatch` | apps/api/src/assignments/subscription-expiry.worker.ts:106-130 | A run is at most eight turns, fewer only when nothing is lapsed, and then the fifty oldest due retries |
| `SubscriptionExpiryWorkers.RunPaysEight` | apps/api/src/assignments/subscription-expiry.worker.ts:106-130 | One run does eight of the turns still owed, or all of them; the retries at its end cost none |
| `AdminUsers.EffectiveStatusAgrees` | apps/api/src/admin/admin-users.service.ts:1499-1517 | In every run the status shown as in force or as expired agrees with what the scheduler and the worker act on |
| `AdminUsers.AdminUsersService.SuspendCashier` | apps/api/src/admin/admin-users.service.ts:1043-1119 | Exact refusals; the cashier is suspended first and then has no open client |
| `AdminUsers.AdminUsersService.ReactivateCashier` | apps/api/src/admin/admin-users.service.ts:1121-1199 | An approved cashier is active again and the oldest pending requests are tried; another one only waits for approval |
| `AdminUsers.AdminUsersService.ReactivateClient` | apps/api/src/admin/admin-users.service.ts:1121-1199 | The pending request of the client is tried once, if it has one |
| `AdminUsers.AdminUsersService.ActivateSubscription` | apps/api/src/admin/admin-users.service.ts:1201-1295 | Refused exactly for an end in the past or any active row of the cashier; otherwise a period starts now |
| `AdminUsers.AdminUsersService.DeactivateSubscription` | apps/api/src/admin/admin-users.service.ts:1297-1391 | The only active period ends now, or keeps an end already past, and no open client is left |
| `AdminUsers.AdminUsersService.DeleteClientAccount` | apps/api/src/admin/admin-users.service.ts:748-755 | The client ends with neither assignment nor request, and the counts are those of what was ended |
| `AdminUsers.AdminUsersService.DeleteCashierAccount` | apps/api/src/admin/admin-users.service.ts:755-802 | The clients leave first; then no open client and no active subscription is left |
| `AdminUsers.EndClientRelationshipsIn` | apps/api/src/assignments/assignments.service.ts:488-559 | The bulk updates are the specified ones, with their counts |
| `AdminMfaRuns.PasskeysCodesAndSessions` | apps/api/src/auth/admin-mfa.service.ts:203-308 | For every interleaving with stale principals: at most ten active passkeys, ten live codes exactly when there is a passkey and none otherwise, and a verified session in use only while there is one |
| `AdminMfaRuns.OneOpenChallenge` | apps/api/src/auth/admin-mfa.service.ts:711-748 | At most one open challenge per session and purpose |
| `AdminMfaRuns.ConsumedOnce` | apps/api/src/auth/admin-mfa.service.ts:781-804 | A challenge is consumed by at most one commit |
| `AdminMfaRuns.RecoveryIsACut` | apps/api/src/auth/admin-mfa.service.ts:614-657 | No challenge opened before a recovery commits after it, and no session begun before it commits except the recovering one |
| `AdminMfaRuns.CodeWorksOnce` | apps/api/src/auth/admin-mfa.service.ts:590-613 | A recovery code recovers at most once |
| `AdminMfaRuns.CountersNeverGoBack` | apps/api/src/auth/admin-mfa.service.ts:420-434 | With the counter check of the verification library, counters never go back and a revoked passkey never changes |
| `AdminMfaCommits.NoCounterTwice` | apps/api/src/auth/admin-mfa.service.ts:406-434 | In every run of two successful authentications with one passkey the later received counter is strictly greater, unless both are 0 |
| `AdminMfaCommits.CommitAnswersOptions` | apps/api/src/auth/admin-mfa.service.ts:711-804 | In every run a commit presents the session and hash of an earlier options request of the same ceremony, less than five minutes after it |
| `AdminMfaCommits.ShownCodeRecovers` | apps/api/src/auth/admin-mfa.service.ts:271-300 | In every run each code shown with the first passkey recovers the account at any time before the first recovery |
| `AdminMfaCommits.AuthenticationStores` | apps/api/src/auth/admin-mfa.service.ts:420-446 | A successful authentication stores the received counter and the instant, verifies the session, consumes the challenge and changes no other row |
| `AdminMfaCommits.AuthenticationCommits` | apps/api/src/auth/admin-mfa.service.ts:406-453 | It commits exactly for an open challenge, an unchanged passkey and a session in use, and has one error |
| `AdminMfaCommits.RegistrationStores` | apps/api/src/auth/admin-mfa.service.ts:229-308 | One passkey more, as the response gave it; with the first one the codes in use are exactly the ones shown |
| `AdminMfaCommits.RegistrationCommits` | apps/api/src/auth/admin-mfa.service.ts:203-308 | Which registrations are refused, and with which error |
| `AdminMfaCommits.RevocationCommits` | apps/api/src/auth/admin-mfa.service.ts:481-565 | Only one of several passkeys can be revoked, and only that one changes |
| `AdminMfaCommits.RecoveryStores` | apps/api/src/auth/admin-mfa.service.ts:614-657 | The presented code is used, the other codes, all passkeys, open challenges and other sessions end, and the own session is no longer verified |
| `AdminMfaCommits.RecoveryCommits` | apps/api/src/auth/admin-mfa.service.ts:584-640 | A recovery commits exactly for a session in use that is not verified and a code in use |
| `AdminMfaCommits.OptionsOpen` | apps/api/src/auth/admin-mfa.service.ts:711-748 | Options open one challenge for five minutes and end the previous one of the session and ceremony |
| `AdminMfaRuns.VerificationHasACause` | apps/api/src/auth/admin-mfa.service.ts:435-446 | The verification time of a session was set by a commit of that session |
| `AdminMfaRuns.FurtherPasskeyNeedsStepUp` | apps/api/src/auth/admin-mfa.service.ts:214-225 | A further passkey is added only within five minutes after the session itself was verified |
| `AdminMfaRuns.RunLater` | apps/api/src/auth/admin-mfa.service.ts:203-680 | Consumed challenges, revoked sessions, revoked passkeys and spent codes stay so |
| `AdminMfa.StepKeeps` | apps/api/src/auth/admin-mfa.service.ts:203-680 | Every ceremony step keeps the invariant |
| `AdminMfa.RegistersKeeps` | apps/api/src/auth/admin-mfa.service.ts:203-280 | Ten new codes come exactly with the first passkey |
| `AdminMfa.RecoversKeeps` | apps/api/src/auth/admin-mfa.service.ts:584-657 | A recovery leaves no active passkey, no live code and no open challenge |
| `AdminMfaServices.AdminMfaService.PersistChallenge` | apps/api/src/auth/admin-mfa.service.ts:711-748 | Opens a claimable challenge for five minutes and consumes the previous one of session and purpose |
| `AdminMfaServices.AdminMfaService.ReadChallenge` | apps/api/src/auth/admin-mfa.service.ts:750-779 | Succeeds exactly for a challenge that could be claimed now |
| `AdminMfaServices.AdminMfaService.ReadCredential` | apps/api/src/auth/admin-mfa.service.ts:354-371 | Finds the active passkey that the response names |
| `AdminMfaServices.AdminMfaService.CommitRegistration` | apps/api/src/auth/admin-mfa.service.ts:203-308 | The transaction as specified, or its first error and no change; codes are shown only for the first passkey |
| `AdminMfaServices.AdminMfaService.CommitAuthentication` | apps/api/src/auth/admin-mfa.service.ts:406-453 | The transaction as specified, or an error and no change |
| `AdminMfaServices.AdminMfaService.RevokePasskey` | apps/api/src/auth/admin-mfa.service.ts:481-565 | The transaction as specified; the last passkey is never revoked |
| `AdminMfaServices.AdminMfaService.RecoverWithCode` | apps/api/src/auth/admin-mfa.service.ts:567-682 | The transaction as specified, or an error and no change |
| `AdminMfaServices.CreateCodes` | apps/api/src/auth/admin-mfa.service.ts:271-277 | Creating the codes one by one gives exactly the specified rows |
| `AdminMfaRuns.FirstEnrollmentSucceeds` | apps/api/src/auth/admin-mfa.service.ts:203-308 | Helper: an undisturbed first enrolment within five minutes succeeds |
| `AdminMfaRuns.AuthenticationSucceeds` | apps/api/src/auth/admin-mfa.service.ts:406-453 | Helper: an undisturbed authentication within five minutes succeeds |
| `AdminMfaServices.OptionsRefuseWhatTheCommitRefuses` | apps/api/src/auth/admin-mfa.service.ts:129-140 | Helper: whoever is refused the registration options is refused the commit for the same reason, and the other way round |
| `DeviceQuarantineRuns.OnePendingPerUser` | apps/api/src/e2ee/matrix-device-candidates.service.ts:71-79 | In every run a user has at most one pending candidate |
| `DeviceQuarantineRuns.CandidateOverTime` | apps/api/src/e2ee/matrix-device-candidates.service.ts:145-158 | The deadline never moves and is at most ten minutes after creation, terminal rows never change, a row is expired exactly when resolved at or after its deadline, and its flow changes with it and not before |
| `DeviceQuarantineRuns.VisitsAgree` | apps/api/src/e2ee/matrix-device-candidates.service.ts:145-158 | Over a run: the answers of status and cancel keep one deadline, a terminal answer is repeated by every later one, pending is never answered at or after the deadline nor expired before it, and nothing is pending after a cancel |
| `DeviceQuarantineAnswers.ReviewShows` | apps/api/src/e2ee/matrix-device-candidate-review.service.ts:83-136 | A review shows a candidate exactly when it is the only one to review, pending, before its deadline and asked for by its own live session on no device; an overdue one ends, otherwise nothing changes |
| `DeviceQuarantineAnswers.ReviewRejects` | apps/api/src/e2ee/matrix-device-candidate-review.service.ts:97-107 | A rejection ends the only candidate under review if it is pending, and answers how it stands |
| `DeviceQuarantineAnswers.ReviewIsRefused` | apps/api/src/e2ee/matrix-device-candidate-review.service.ts:60-96 | Who may review: a session of the first device of the account, in use at each reading |
| `DeviceQuarantineAnswers.PollDelivers` | apps/api/src/e2ee/matrix-device-verification-inbox.service.ts:77-134 | A poll delivers the stored flow exactly when candidate, flow, identity and reviewer session make it deliverable at both readings |
| `DeviceQuarantineAnswers.PollEnds` | apps/api/src/e2ee/matrix-device-verification-inbox.service.ts:93-131 | A poll ends its candidate exactly when the candidate or its flow is over at a reading it gets to |
| `DeviceQuarantineAnswers.PollIsRefused` | apps/api/src/e2ee/matrix-device-verification-inbox.service.ts:41-103 | Whom a poll refuses, and exactly when it is a conflict |
| `DeviceQuarantineAnswers.OpenedFlow` | apps/api/src/e2ee/matrix-device-verification.service.ts:56-120 | What an opened flow is: for a candidate still asked for, from the trusted device, in the time window, with new identifiers, until the earliest bounding deadline; or the stored one again |
| `DeviceQuarantineAnswers.OpeningSucceeds` | apps/api/src/e2ee/matrix-device-verification.service.ts:56-120 | And whenever all of that holds and the sessions stay in use, opening succeeds |
| `DeviceQuarantineAnswers.OpeningFindsItOver` | apps/api/src/e2ee/matrix-device-verification.service.ts:79-90 | The conflict after the commit: the candidate was over already, or is over now and ends |
| `DeviceQuarantineAnswers.ReservedRow` | apps/api/src/e2ee/matrix-device-candidates.service.ts:47-91 | A new reservation carries two different keys that neither the identity nor any device has, a new id, and the earliest of its deadlines |
| `DeviceQuarantineAnswers.ReservationIsRefused` | apps/api/src/e2ee/matrix-device-candidates.service.ts:59-91 | Why a new reservation is refused: the id, then the keys, then another pending candidate |
| `DeviceQuarantineAnswers.RepeatIsExact` | apps/api/src/e2ee/matrix-device-candidates.service.ts:48-56 | A known id is repeated exactly, by the same session under the same identity, or refused |
| `DeviceQuarantineAnswers.RepeatAnswers` | apps/api/src/e2ee/matrix-device-candidates.service.ts:48-58 | An exact repeat answers the row as it stands, and is an error only when the deadline passes meanwhile |
| `DeviceQuarantineAnswers.VisitAnswers` | apps/api/src/e2ee/matrix-device-candidates.service.ts:94-158 | What status and cancel change and answer, row by row |
| `DeviceQuarantineAnswers.VisitIsRefused` | apps/api/src/e2ee/matrix-device-candidates.service.ts:94-143 | Whom status and cancel refuse |
| `DeviceQuarantineRuns.ExactRepeatReturnsTheRow` | apps/api/src/e2ee/matrix-device-candidates.service.ts:48-58 | An exact repeat returns the same row with the same deadline and adds none |
| `DeviceQuarantineRuns.OtherReservationIsRefused` | apps/api/src/e2ee/matrix-device-candidates.service.ts:49-55 | An identifier reserved for another user, session or document is never taken over |
| `DeviceQuarantineRuns.DeliveryIsRepeatableUntilTerminal` | apps/api/src/e2ee/matrix-device-verification-inbox.service.ts:93-133 | A poll delivers only while candidate and flow are pending and before both deadlines, always the same request, and nothing once the candidate is terminal |
| `DeviceQuarantineRuns.StepFollows` | apps/api/src/e2ee/matrix-device-candidates.service.ts:47-92 | Each operation of the four services keeps the tables sound and only moves pending rows to terminal ones |
| `DeviceQuarantineRuns.TerminateFollows` | apps/api/prisma/migrations/20260913000000_matrix_device_verification_flow/migration.sql:301-331 | Ending a candidate ends its pending flow with it, each classified by its own deadline and clock, and changes no other row |
| `DeviceQuarantineRuns.RunKeeps` | apps/api/src/e2ee/matrix-device-candidates.service.ts:47-167 | So the tables are sound in every state of every run |
| `DeviceQuarantineRuns.RunLater` | apps/api/src/e2ee/matrix-device-candidates.service.ts:145-158 | And later tables keep every earlier row |
| `MatrixDeviceServices.MatrixDeviceCandidatesService.ReserveDevice` | apps/api/src/e2ee/matrix-device-candidates.service.ts:34-92 | The transaction as specified, or its error and no change |
| `MatrixDeviceServices.MatrixDeviceCandidatesService.VisitDevice` | apps/api/src/e2ee/matrix-device-candidates.service.ts:94-109 | status and cancel as specified |
| `MatrixDeviceServices.MatrixDeviceReviewer.ReviewCandidate` | apps/api/src/e2ee/matrix-device-candidate-review.service.ts:53-136 | pending, detail and reject as specified |
| `MatrixDeviceServices.MatrixDeviceVerificationInbox.PollRequest` | apps/api/src/e2ee/matrix-device-verification-inbox.service.ts:41-134 | The poll as specified |
| `MatrixDeviceServices.Sweep` | apps/api/src/e2ee/matrix-device-candidates.service.ts:73-76 | The bulk update of overdue rows ends at most one |
| `DeviceQuarantineRuns.ReservationIsBounded` | apps/api/src/e2ee/matrix-device-candidates.service.ts:80-90 | Helper: a new reservation ends within ten minutes, the session and the subscription |
| `DeviceQuarantineRuns.AnswersAreStored` | apps/api/src/e2ee/matrix-device-candidates.service.ts:94-109 | Helper: what status and cancel answer is what they leave stored, and it agrees with the clock of the answer |
| `DeviceQuarantineRuns.NextReservationSucceeds` | apps/api/src/e2ee/matrix-device-candidates.service.ts:71-91 | Helper: an overdue pending row does not stand in the way of the next reservation |
| `DeviceQuarantineRuns.ShownWhilePending` | apps/api/src/e2ee/matrix-device-candidate-review.service.ts:109-135 | Helper: a reviewer is shown a candidate only while it is pending and before its deadline |
| `DeviceQuarantineRuns.RejectionIsTerminal` | apps/api/src/e2ee/matrix-device-candidate-review.service.ts:97-107 | Helper: a rejection leaves the candidate terminal, whoever resolved it first |
| `DeviceQuarantineRuns.OpenedFlowIsDelivered` | apps/api/src/e2ee/matrix-device-verification.service.ts:96-117 | Helper: an opened flow is what an undisturbed poll of the candidate's session delivers |
| `LoginLockout.GuessesAreBounded` | apps/api/src/auth/auth.service.ts:317-331 | Any window of T milliseconds of sequential wrong logins compares at most 5 * (floor(T / 15 min) + 1) passwords |
| `LoginLockout.BoundIsReached` | apps/api/src/auth/auth.service.ts:1196-1221 | A sequence of logins reaches that bound for whole lock periods |
| `LoginLockout.CounterStaysSound` | apps/api/src/auth/auth.service.ts:1196-1221 | Over any order of failed logins, successes and resets the counter stays in 0 to 4 and is 0 while a lock is in force |
| `LoginLockout.LoginAmongWrites` | apps/api/src/auth/auth.service.ts:303-367 | Whatever writes come between its read and its update, a login succeeds exactly with the right password on an account that was open when read and still is; each other answer has its exact condition, and the effect is one of the modelled writes |
| `LoginLockout.LockStands` | apps/api/src/auth/auth.service.ts:1196-1221 | Failures recorded under a lock neither count nor prolong it |
| `LoginLockout.LoginAccount.AnswerLogin` | apps/api/src/auth/auth.service.ts:319-367 | The part of login after the read, on a row that may have changed since |
| `LoginLockout.LoginAccount.Login` | apps/api/src/auth/auth.service.ts:303-367 | One login: it succeeds exactly with the right password on an account that is neither locked, suspended, deleted nor waiting for a reset |
| `LoginLockout.LoginAccount.RecordFailedLoginAttempt` | apps/api/src/auth/auth.service.ts:1196-1221 | The update statement, case by case |
| `LoginLockout.BurstsAreSequential` | apps/api/src/auth/auth.service.ts:1196-1221 | That sequence is one of sequential logins |
| `LoginLockout.ResetUnlocks` | apps/api/src/auth/auth.service.ts:333-345 | Helper: a reset clears counter and lock, so that the account opens unless something else closes it |
| `RecoveryCode.RandomCodePayload` | apps/api/src/auth/cashier-recovery-code.ts:55-75 | The error branch is unreachable; the symbols are the twenty base-32 digits of the number of the bytes without its last four bits; the accumulator stays below 2^12 in every pass |
| `RecoveryCode.ShiftsAreArithmetic` | apps/api/src/auth/cashier-recovery-code.ts:62-67 | On such values the 32-bit operators are the arithmetic used |
| `RecoveryCode.SixteenPreimages` | apps/api/src/auth/cashier-recovery-code.ts:55-75 | Every payload comes from exactly sixteen byte strings |
| `RecoveryCode.FormatIsUndone` | apps/api/src/auth/cashier-recovery-code.ts:77-79 | Removing the dashes gives the payload back, exactly for whole groups of five |
| `RecoveryCode.PatternAcceptsPrintedCodes` | apps/api/src/auth/cashier-recovery-code.ts:4-5 | The pattern accepts every printed payload of twenty symbols |
| `RecoveryCode.PatternAcceptsNothingElse` | apps/api/src/auth/cashier-recovery-code.ts:4-5 | and nothing else |
| `RecoveryCode.IssuedCodesMatch` | apps/api/src/auth/cashier-recovery-code.ts:55-79 | Issued codes match the pattern of the reset form |
| `Base64.KeyChecksAgree` | apps/api/src/e2ee/matrix-cross-signing.ts:310-320 | The browser pattern, the server check and the payload decoder at 32 bytes accept the same strings: the unpadded canonical encodings of 32-byte sequences (sections 3.5 and 4 of RFC 4648) |
| `Base64.EncodeWritesTheBits` | apps/web/src/messagePayload.ts:829-837 | Four sextets write the same 24-bit number as their three bytes, and a shorter rest is followed by zero bits (section 4 of RFC 4648) |
| `Base64.LettersOfTheTable` | apps/api/src/e2ee/matrix-cross-signing.ts:310-320 | Values 0 to 31 are written as table 1 of RFC 4648 has them |
| `Base64.LaterLettersOfTheTable` | apps/api/src/e2ee/matrix-cross-signing.ts:310-320 | and so are 32 to 63 |
| `Base64.UnpaddedIsInjective` | apps/api/src/e2ee/matrix-cross-signing.ts:315-318 | One string per sequence |
| `Base64.BrowserAcceptsEncodings` | apps/web/src/api.ts:2644 | The pattern of 42 letters and one of sixteen is exactly canonical encoding of 32 bytes |
| `Base64.ServerAcceptsEncodings` | apps/api/src/e2ee/matrix-cross-signing.ts:310-320 | Decoding and encoding again accepts exactly canonical encodings of the given length |
| `Base64.DecoderAcceptsEncodings` | apps/web/src/messagePayload.ts:819-842 | The decoder returns a sequence exactly for its canonical encoding within the bounds |
| `Base64.PaddedDecoderInverts` | apps/web/src/messagePayload.ts:795-817 | The padded decoder returns a sequence exactly for its padded encoding within the bounds |
| `Base64.DecodeUndoesEncode` | apps/web/src/messagePayload.ts:829-837 | Decoding undoes encoding, and encodings are canonical |
| `Base64.EncodeUndoesDecode` | apps/web/src/messagePayload.ts:829-837 | Encoding undoes decoding exactly on canonical strings |
| `Base64.IdentityNeedsThreeKeys` | apps/web/src/api.ts:2641-2646 | The identity is accepted exactly when it encodes three different 32-byte keys |
| `Base64.HexToBase64` | apps/web/src/messagePayload.ts:844-850 | The loop turns the hexadecimal form of any bytes into their padded encoding |
| `Base64.HexRoundTrip` | apps/web/src/messagePayload.ts:844-850 | Bytes survive their hexadecimal form |
| `Timelines.OneVersionAtEveryRegistration` | apps/api/src/auth/auth.service.ts:1095-1115 | After any sequence of publications exactly one version is in force at every instant from the first effective date on, and it is the one the registration query selects |
| `Timelines.OneKeyAtEveryInstant` | apps/api/src/cli/register-investigation-key.ts:69-235 | After any sequence of rotations exactly one key is active at every instant from the first activation on, the newest one activated by then, and none before |
| `Timelines.RetiredForEver` | apps/api/src/cli/register-investigation-key.ts:82-102 | Once retired, a key is active at no later instant and the command refuses its version, whatever rotations follow |
| `Timelines.UniqueVersionInForce` | apps/api/src/auth/auth.service.ts:1095-1108 | The query answers the only version in force, or nothing before the first date |
| `Timelines.PublishDecides` | apps/api/src/cli/publish-terms.ts:83-242 | The command row by row: a known version is accepted exactly as stored, a new one needs new content and a later date, ends the newest row at its date and is stored as given |
| `Timelines.RotateDecides` | apps/api/src/cli/register-investigation-key.ts:69-235 | The command row by row: a known version is accepted only as the newest key exactly as stored, a new one needs a new fingerprint, a greater version and a later clock |
| `Timelines.PublishKeeps` | apps/api/src/cli/publish-terms.ts:126-242 | A publication keeps the tiling, changes nothing before its own effective date and is in force from then on |
| `Timelines.OnlyThreeRefusals` | apps/api/src/cli/publish-terms.ts:161-193 | On a sound history the errors for several open or overlapping versions, a misplaced open one and an overlapping retirement are unreachable |
| `Timelines.RepublicationChangesNothing` | apps/api/src/cli/publish-terms.ts:96-114 | An exact republication is accepted and changes nothing |
| `Timelines.HistoryTiles` | apps/api/src/cli/publish-terms.ts:83-242 | Any sequence of publications keeps the history sound |
| `Timelines.ExtendedTiles` | apps/api/src/cli/publish-terms.ts:205-234 | Closing the last period where the next one starts keeps the tiling |
| `Timelines.RotateKeeps` | apps/api/src/cli/register-investigation-key.ts:120-235 | A rotation keeps the tiling and strictly increasing versions, leaves exactly one active key and changes nothing before it |
| `Timelines.RotationGoesAhead` | apps/api/src/cli/register-investigation-key.ts:155-216 | A rotation goes ahead exactly for a new fingerprint, a greater version and a clock past the last activation; the other errors are unreachable |
| `Timelines.SecondRotationIsRefused` | apps/api/src/cli/register-investigation-key.ts:188-194 | After a rotation, a second one at the same instant is refused as not later, although its version and fingerprint are new |
| `Timelines.SecondRotationExample` | apps/api/src/cli/register-investigation-key.ts:188-194 | Two concrete keys for which this happens |
| `Timelines.RotationsTile` | apps/api/src/cli/register-investigation-key.ts:69-235 | Any sequence of rotations keeps the history sound at the clock of the last one |
| `TimelineCommands.TermsTable.PublishTerms` | apps/api/src/cli/publish-terms.ts:83-248 | The command as specified; it creates a document unless it is an exact repeat |
| `TimelineCommands.TermsTable.LatestTerms` | apps/api/src/cli/publish-terms.ts:128-139 | The row with the newest effective date |
| `TimelineCommands.TermsTable.CurrentTermsInTransaction` | apps/api/src/auth/auth.service.ts:1080-1115 | The only version in force, or none |
| `TimelineCommands.KeyTable.RegisterKey` | apps/api/src/cli/register-investigation-key.ts:69-240 | The command as specified |
| `Timelines.RetiredKeyStaysRetired` | apps/api/src/cli/register-investigation-key.ts:82-102 | Helper: on one sound table the version of a retired row is refused |

## Left out

- Cryptography, hashing, parsing of payloads and WebAuthn verification: decryption is a function of the conversation and
  of the fingerprinted fields, and a hash or fingerprint is the tuple it covers.
- HTTP, sockets, notifications, audit rows, published device lists, receipts sent to the server, retries of serialisation
  conflicts, row locks and `SKIP LOCKED`: transactions run one after the other.
- Milliseconds: JavaScript and the database share one clock, and a timer never fires before its deadline (delays under
  2^31 ms).
- Within one stretch of the controller `Date.now()` is read once; sending messages is not modelled.
- Whether a returned image URL is still live after another load of the same conversation: the later load revokes it.
- SecureMessageRuns.LoadRefinesDecryption: for an image message everything but the URL is compared, because
  the URL is new in each load. Whose picture it is, `SecureMessagePictures` states.
- TimelineCommands.TermsTable.CurrentTermsInTransaction: the registration query also skips rows without stored content,
  content type or size; the model has no such rows, because publication always stores all three.
- AdminUsers.AdminUsersService.SuspendCashier: revoking the cashier's sessions is not modelled.
- AdminUsers.AdminUsersService.ActivateSubscription: the conflict with a row that another transaction has locked is not
  modelled, because transactions run one after the other.
- AdminUsers.AdminUsersService.DeactivateSubscription: the same conflict with a locked row is not modelled.
- AdminUsers.AdminUsersService.DeleteClientAccount: session revocation and erasure of the account's own data are not
  modelled.
- AdminUsers.AdminUsersService.DeleteCashierAccount: session revocation, erasure of the account's own data and the
  cashier's invitations are not modelled.
- SecureMessageControllers.DownloadExactBytes: the HTTP status and the declared length, checked before the first read,
  are not modelled.
- UUIDs are numbers in the database models, and new rows take the next number; `ADMIN` accounts are not rows.
- Registration does not check the subscription of the inviting cashier in its transaction, so no claim is made that a
  cashier without a subscription has no clients. Client periods and report evidence are not modelled.
- `AssignmentRuns` allows moderation steps for any open assignment, which is more than the eligibility check before them
  allows; every theorem over runs covers the smaller set.
- The selection of a cashier assumes fewer than 2^32 candidates, the length limit of a JavaScript array.
- The tables of one administrator are modelled in `AdminMfa`; rows of other administrators only matter through the unique
  credential ids. Challenges are random, so a repeated hash is an error.
- In `DeviceQuarantine` all other writers are one step that may change accounts and sessions at will; direct SQL
  maintenance of candidate rows is not a step. Opening a flow is specified as a function and has no class.
- Optimal balance when clients have blocks of their own: the greedy choice does not guarantee it.
- Periods of one cashier's subscriptions may overlap by a millisecond, so their disjointness is not claimed.
- Whether the version that a past registration accepted is still shown in force at that time: a publication may take
  effect in the past.
- `issueCashierRecoveryCodes`: the loop that draws until eight codes differ, which ends only with probability one.
- Files `matrix-key-upload`, `matrix-sas-to-device` and the candidate's validation trigger are not part of this model.
