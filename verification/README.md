# Verified models of the shop backend

This project models the parts of the backend whose correctness cannot be settled by running a few cases, and
proves properties of them over every input and every run.

- **Rate limiter** (`RateLimit.dfy`, `OneClient.dfy`, `SweepVisibility.dfy`). The token-bucket map as an object, its
  sweeps, and the ideal limiter it should be indistinguishable from. Time is whole nanoseconds, balances are exact
  reals, and both truncating conversions to a duration are kept.
- **Broadcast worker** (`Broadcasts.dfy`, `BroadcastWorker.dfy`, `BroadcastQueue.dfy`, `BroadcastDrain.dfy`).
  One broadcast as a step system in which store calls fail, the process stops or crashes anywhere and restarts, and
  everybody else changes the device table; and the worker and its repository as objects whose every execution is a
  run of that system. Then the queue of all broadcasts, likewise as a step system and as the loop that drains it.
- **Sessions** (`RefreshTokens.dfy`, `Sessions.dfy`) and **one-time codes** (`OtpCodes.dfy`, `OtpService.dfy`).
  Each repository call is one atomic step, each service call a process of several; calls interleave freely. The
  service classes keep a ghost history, so what is proved of runs holds for what their methods return.
- **Stock editing** (`ProductStore.dfy`, `StockStores.dfy`, `StockRuns.dfy`, `ProductForm.dfy`,
  `ProductFormLoops.dfy`, `FormRoundTrips.dfy`, `FreshDraws.dfy`, `Resubmission.dfy`, `LostOverrides.dfy`,
  `SharedVariants.dfy`, `Text.dfy`). Render, edit, parse, compare and set cell by cell, then commit, or refresh the
  conflicting cells and submit again, with sales in between.
- **Bulk import** (`ImportCells.dfy`, `ImportPlan*.dfy`, `ImportCategories.dfy`, `ImportStore.dfy`, `ImportRun.dfy`,
  `ImportInvariant.dfy`, `Reimport*.dfy`, `ImportSession.dfy`). From keyed rows to models, to writes in a
  transaction per model, to the report; as functions on the catalogue, and as the planner, transaction, session and
  report objects proved to compute them. Prices are whole hundredths.
- **Category forest** (`Categories.dfy`, `CategoryForest.dfy`). Building it in place from the flat list, walking
  it, and what moving a category does to it.

## Assumptions

- Each SQL statement or transaction block is one atomic step that is either applied or not.
- There is one clock and it does not go back. The limiter reads its clock before it takes its lock
  (internal/httpmw/ratelimit.go:145-146), so there this is a real assumption, and it appears as `ClockNeverGoesBack`.
- New ids, tokens and hashes are nobody's yet. Device tokens are unique (registration upserts by token,
  internal/httpapi/devices.go:84-87).
- The database's `lower`, Go's `ToLower` and `EqualFold` agree; they are modelled on Latin, Russian and Kyrgyz letters.
- Optional text columns hold no empty string: an empty text stands for NULL.

## Where the code and its comments part

- "A bucket that has refilled to capacity is indistinguishable from a fresh one, so dropping it loses nothing"
  (internal/httpmw/ratelimit.go:112-114): true of every bucket exactly when a burst refills in a whole number of
  nanoseconds, because `fullAfter` is truncated (`RateLimit.SweepDropsOnlyFullBuckets`). The answers of the limiter show it
  for all other limits but two kinds with room for a single client (`SweepVisibility.SweepingIsInvisibleIff`);
  `RateLimit.SweepingShowsWhenTruncated` is a run at 3 requests per second and burst 1.
- The wait a refused client is told is truncated too. A call at the nanosecond it ends is refused again exactly if it was
  truncated and no sweep has forgotten the client by then (`RateLimit.RefusalIsHonest`; both outcomes in
  `RateLimit.TruncatedWaitEndsEitherWay`).
- Stored overrides are left untouched when the form has no price column, but the conflict page always has one: sent
  back, it clears them. `LostOverrides.OverridesAreKept` and `LostOverrides.OverridesAreCleared` say so of what is stored,
  `LostOverrides.OneOverrideIsLost` follows one form from its first parse to the lost override.
- The parser refuses rows that share a key, not rows that name one stored variant. Where two changes are for one cell, the
  later is compared with what the earlier has just written. A refused form then names a cell that never moved, with a
  quantity that was rolled back (`SharedVariants.SharedVariantConflictsWithItself`). `ProductStore.SaveIsCompareAndSet` is
  stated for all forms: the cells named are those that moved exactly when no change that matches the table is followed
  by another for its cell. Forms that name each variant once never do that (`SharedVariants.ParsedCellsStayApart`).
- "One broken row can't block the queue forever" (internal/broadcasts/worker.go:267-269): its fifth error in a row does end it
  (`BroadcastQueue.BrokenIsGivenUp`), unless marking it failed fails as well or the process keeps restarting before that,
  as errors are counted in memory. Then there is no bound (`BroadcastQueue.BlockedWhileUnmarked`,
  `BroadcastQueue.BlockedByRestarts`).
- Category updates refuse a category as its own parent, not a longer circle. Categories on or below a circle are
  dropped from the tree without a word (`Categories.UpdateKeepsForestIff`, `Categories.TwoUpdatesCanHideCategories`).
- Category cells of an import are cached by their lower-case spelling although slugs match exactly, so the first
  spelling in a file decides for all. `ImportCategories.OwnCategoriesIff` gives the exact condition under which every model
  still gets what its own cell resolves to, `ImportCategories.OrderOfSpellingsDecides` a file of two models that is refused
  in one order and accepted in the other.
- Deleting an account forgets its phone's send limits (`OtpCodes.AccountDeletionResetsLimits`). `OtpCodes.LimitsHoldIff` says
  exactly when the limits hold over everything a phone was sent.
- A cell's original and a row's price original are fields of one form, and a row key that starts like the price field's name
  makes them share a name (`ProductForm.FieldNamesMeetIff`).

## Model

| member | source | states |
|---|---|---|
| `RateLimit.Limiter.Allow` | internal/httpmw/ratelimit.go:144-175 | the answer, the wait, the balances and the map after a call are those of `AllowStep`: sweep on time, sweep for room, then spend from a known or a full bucket |
| `RateLimit.Limiter.Sweep` | internal/httpmw/ratelimit.go:179-186 | exactly the buckets idle for `fullAfter` go, the rest stay as they are |
| `RateLimit.SweepDropsOnlyFullBuckets` | internal/httpmw/ratelimit.go:112-114 | every bucket a sweep may drop is full if and only if a burst refills in a whole number of nanoseconds |
| `RateLimit.RunsMatchIdeal` | internal/httpmw/ratelimit.go:144-186 | from any state that mirrors the ideal map, a run gives the ideal answers as long as nobody is served untracked |
| `RateLimit.SweepingIsInvisible` | internal/httpmw/ratelimit.go:111-186 | with a whole refill time, any call sequence gets the same answers and waits as from a limiter that never forgets anybody |
| `RateLimit.SweepingShowsWhenTruncated` | internal/httpmw/ratelimit.go:126-140 | a concrete run at 3 requests per second in which a sweep serves a request the ideal limiter refuses |
| `OneClient.ForgettingOneIsInvisible` | internal/httpmw/ratelimit.go:144-186 | with room for one client, and a burst that refills within a nanosecond or a burst of one that refills in the last nanosecond before a sweep, every run that serves nobody untracked is answered as ideally, although buckets are forgotten before they are full |
| `SweepVisibility.SweepingIsInvisibleIff` | internal/httpmw/ratelimit.go:111-186 | for all limits: no run can tell the sweeps exactly when a burst refills in whole nanoseconds or the limits are of those two kinds; for any other a run is given that shows them |
| `RateLimit.MapStaysBounded` | internal/httpmw/ratelimit.go:153-166 | the map never exceeds maxClients and balances stay between nothing and a burst, in every run |
| `RateLimit.AdmissionBound` | internal/httpmw/ratelimit.go:142-175 | in any stretch of any run of length D a client is admitted at most burst + rps*D times; with a truncated refill time, at the pace of one burst per `fullAfter` |
| `RateLimit.RefusalIsHonest` | internal/httpmw/ratelimit.go:142-186 | after a refusal with wait w every call before now+w is refused and every first call after it is admitted, whoever else calls; at that very nanosecond it is refused exactly if w was truncated and its bucket survived the sweeps, which it always does when w is shorter than `fullAfter` |
| `RateLimit.TruncatedWaitEndsEitherWay` | internal/httpmw/ratelimit.go:149-174 | two runs at 3 requests per second and burst 1 in which a client calls exactly when its truncated wait ends: refused again, and admitted because its own call sweeps first |
| `Broadcasts.RunKeepsInv` | internal/broadcasts/worker.go:178-265 | the invariant of cursor, recorded set, audience, batch in flight and send counts holds after every step of every run |
| `Broadcasts.CountersAreExact` | internal/broadcasts/worker.go:362-381 | sent + failed + invalid_removed counts exactly the devices of committed batches, all at or before the cursor and all sent to |
| `Broadcasts.RepeatsAreBounded` | internal/broadcasts/worker.go:190-220 | a device is sent to at most once more than the number of its batches that were begun and never committed |
| `Broadcasts.NobodyIsSkipped` | internal/broadcasts/worker.go:328-381 | once the broadcast is done, every device eligible throughout was sent to, whatever failed or crashed and whoever changed the table |
| `Broadcasts.AccountingIsCrashSafe` | internal/broadcasts/worker.go:178-265 | over a fixed audience the counters always equal the number of audience devices at or before the cursor, and targets once done |
| `Broadcasts.FixedAudienceIsReached` | internal/broadcasts/worker.go:338-381 | over a fixed audience a done broadcast reached all of it and nobody else, exactly once each if no batch was lost |
| `BroadcastWorker.Repo.MarkSending` | internal/broadcasts/worker.go:328-335 | only a queued row becomes sending, with targets counted from the eligible devices |
| `BroadcastWorker.Repo.NextTargets` | internal/broadcasts/worker.go:338-359 | the page is the eligible devices after the cursor with the least ids, in order, up to the limit |
| `BroadcastWorker.Repo.RecordBatch` | internal/broadcasts/worker.go:362-381 | counters, cursor and the deletion of invalid tokens change together or not at all |
| `BroadcastWorker.Worker.SendBatch` | internal/broadcasts/worker.go:226-265 | whatever order the sends complete in, the totals and the invalid tokens are those of the outcomes, one per target |
| `BroadcastWorker.Worker.StoreError` | internal/broadcasts/worker.go:270-288 | the broadcast is given up only after the fifth store error in a row and not during a shutdown, and otherwise keeps its status |
| `BroadcastWorker.Worker.OneBatch` | internal/broadcasts/worker.go:190-220 | one load-send-record round is a run of the step system and ends between batches, finished, or to be retried |
| `BroadcastWorker.Worker.Process` | internal/broadcasts/worker.go:178-221 | true if and only if the broadcast reached a final status; every execution is a run of the step system |
| `BroadcastWorker.Worker.Run` | internal/broadcasts/worker.go:141-173 | over any number of wake-ups the counters stay exact, done means nobody was skipped, and repeats stay bounded |
| `BroadcastWorker.Worker.Restart` | internal/broadcasts/worker.go:121-153 | a restart keeps the stored row and forgets cursor and error counts held in memory |
| `BroadcastQueue.OneAfterAnother` | internal/broadcasts/worker.go:155-173 | in every reachable state all broadcasts created before one that was begun or given up are final, and two are half sent only if created at one instant |
| `BroadcastQueue.TwoHalfSent` | internal/broadcasts/worker.go:315-325 | a run in which two created at one instant are |
| `BroadcastQueue.ErrorsAreBounded` | internal/broadcasts/worker.go:267-294 | in any run a broadcast fails at most four times from each committed batch or restart on, plus the times marking it failed also failed, plus once more exactly if it was given up |
| `BroadcastQueue.BrokenIsGivenUp` | internal/broadcasts/worker.go:267-288 | a broadcast that gets no batch through, in a process that runs on and can mark it, is failed exactly from its fifth error on |
| `BroadcastQueue.BlockedWhileUnmarked` | internal/broadcasts/worker.go:283-286 | for every number n a run in which the oldest broadcast fails n times and stays the oldest pending one, because marking it fails |
| `BroadcastQueue.BlockedByRestarts` | internal/broadcasts/worker.go:69-90 | the same for every 4n, because the process restarts after every fourth error |
| `BroadcastDrain.Worker.NextPending` | internal/broadcasts/worker.go:315-325 | a pending broadcast created no later than any other, or none if there is none |
| `BroadcastDrain.Worker.StoreError` | internal/broadcasts/worker.go:270-288 | a shutdown's error counts for nothing; the others count one by one, and from the fifth in a row on the broadcast is failed or, if that fails, stays |
| `BroadcastDrain.Worker.Process` | internal/broadcasts/worker.go:178-221 | true exactly when the broadcast is no longer pending; otherwise it is still the head of the queue, whatever was queued meanwhile |
| `BroadcastDrain.Worker.Drain` | internal/broadcasts/worker.go:157-173 | ends with nothing pending, with the head to be retried, with an unreadable queue, or at a shutdown |
| `BroadcastDrain.Worker.Run` | internal/broadcasts/worker.go:141-173 | over any polls and restarts broadcasts go out in turn and the errors of each are bounded |
| `RefreshTokens.RowsPersist` | internal/auth/refresh_repo.go:45-121 | no step changes a token's customer, family or expiry, removes a row, or takes back a revocation or rotation |
| `RefreshTokens.TokenCountLaw` | internal/auth/refresh_repo.go:53-121 | a family has no unrevoked token once it was revoked, else one plus its successful grace re-issues; at most one in strict mode; all its tokens name one customer |
| `RefreshTokens.RotatedAtMostOnce` | internal/auth/refresh_repo.go:57-86 | two steps of one run never rotate the same token |
| `RefreshTokens.DeadStaysDead` | internal/auth/service.go:257-331 | a family without an active token never gets one again, in any continuation |
| `RefreshTokens.NoGrantFromDeadFamily` | internal/auth/service.go:296-317 | no call presenting a dead family's token is granted afterwards, even one already between its lookup and its re-issue |
| `RefreshTokens.RevocationIsFinal` | internal/auth/account_repo.go:68-76 | after a logout, detected reuse or account deletion no token of the family is ever granted or active again |
| `Sessions.RefreshRepo.Rotate` | internal/auth/refresh_repo.go:57-86 | an active token is revoked and replaced in its family in one step; otherwise nothing changes |
| `Sessions.RefreshRepo.RevokeFamily` | internal/auth/refresh_repo.go:101-105 | every unrevoked token of the family is revoked now, every other row is as it was |
| `Sessions.RefreshRepo.IssueInFamily` | internal/auth/refresh_repo.go:107-121 | a token is added exactly if the family still has an active one |
| `Sessions.Service.Refresh` | internal/auth/service.go:257-289 | a granted call leaves its new token in the presented token's family for the same customer, and is never granted for a family that was dead when it began |
| `Sessions.Service.HandleInactive` | internal/auth/service.go:296-317 | a token rotated within the grace window ends in a re-issue attempt and only then can be granted; a reused one ends in a revocation that leaves its family dead; any other ends at the lookup; a failing store call ends it earlier |
| `Sessions.Service.Logout` | internal/auth/service.go:322-331 | when it reports success the family of the presented token is dead, whatever ran in between |
| `OtpCodes.CleanupIsInvisible` | internal/auth/otp_cleanup.go:20-26 | when cleanup only removed rows older than a day, every reserve and latestActive decision is as without cleanup |
| `OtpCodes.DecisionsIgnoreCleanup` | internal/config/security.go:94-100 | the same in every reachable state, for any retention of at least a day |
| `OtpCodes.SendLimitsHold` | internal/auth/otp_repo.go:56-112 | in any stretch of any run without a deletion of the phone's account, cleanup included, two codes for it are a cooldown apart and no hour holds more than five |
| `OtpCodes.HourlyCapHolds` | internal/auth/otp_repo.go:74-76 | an hour in which the phone's account is not deleted holds at most five codes, whatever was deleted before or after |
| `OtpCodes.LimitsHoldIff` | internal/auth/account_repo.go:65-80 | everything a phone was ever sent keeps to the cooldown and the cap exactly when no accepted request was one that erased rows would have refused |
| `OtpCodes.ErasedByDeletion` | internal/auth/account_repo.go:65-80 | a code's row is missing exactly when a deletion of its phone's account took it |
| `OtpCodes.AccountDeletionResetsLimits` | internal/auth/account_repo.go:42-83 | a run in which deleting the account lets a second code out at the same instant |
| `OtpCodes.VerificationBudget` | internal/auth/service.go:148-211 | a code is compared at most maxAttempts times, attempt numbers are distinct, and at most one call logs in with it, under every interleaving |
| `OtpCodes.ClosedStaysClosed` | internal/auth/otp_repo.go:119-174 | a burned or consumed code never logs anybody in afterwards |
| `OtpService.OtpRepo.PhoneStats` | internal/auth/otp_repo.go:63-76 | the newest row and the hour's count decide cooldown and cap exactly |
| `OtpService.OtpRepo.Reserve` | internal/auth/otp_repo.go:56-112 | refuses for the first limit that is hit, in order, and otherwise inserts one row |
| `OtpService.OtpRepo.LatestActive` | internal/auth/otp_repo.go:128-143 | a newest unconsumed, unexpired row with a token, or none if there is none |
| `OtpService.OtpRepo.TakeAttempt` | internal/auth/otp_repo.go:149-163 | spends and numbers one attempt exactly while the row is open and below its budget |
| `OtpService.OtpRepo.DeleteBefore` | internal/auth/otp_cleanup.go:20-26 | keeps exactly the rows not older than the cutoff and counts the others |
| `OtpService.Service.RequestOTP` | internal/auth/service.go:93-132 | a refusal names the limit that holds; otherwise, unless the reservation itself failed, a step of the call inserted the row of a request no limit refused, and the last one gives it the provider's token or burns it, unless that store call failed |
| `OtpService.Service.RunCleanup` | internal/auth/otp_cleanup.go:37-67 | each of its passes, among anybody else's steps, deletes and counts exactly the rows older than the retention when the pass began |
| `OtpService.Service.VerifyOTP` | internal/auth/service.go:148-211 | if it logs in, it used a code no other call ever logged in with; every other exit refuses |
| `ProductStore.ChangesAreIndependent` | internal/admin/product_store.go:356-380 | if every change that matches the table is the last for its cell, cell by cell writing conflicts exactly where the table before all writes differed from the form, and every other change is written; a cell no change matches is always as it was |
| `ProductStore.TurnsDecide` | internal/admin/product_store.go:356-414 | for any changes: no conflict exactly when each saw what its cell holds when its turn comes, the stored value or what the change before it typed, and then each cell holds the last quantity typed for it |
| `ProductStore.ConflictsAreStoredIff` | internal/admin/product_store.go:356-380 | the conflicts are those of the table before all writes exactly when every change that matches it is the last for its cell |
| `ProductStore.SaveIsCompareAndSet` | internal/admin/product_store.go:142-207 | for any form: a save commits every changed cell over exactly the value its author saw, or what the change before it for that cell typed, and leaves the rest; or it reports conflicts, which are exactly the cells that moved if and only if no change that matches the table is followed by another for its cell |
| `ProductStore.SaveCommitsIffNothingMoved` | internal/admin/product_store.go:352-425 | when nothing but stock can stand in the way, a save commits if and only if every change saw the last value of its cell; with no two changes for one cell, if and only if no changed cell moved; with two, never over a table in which none moved |
| `ProductStore.CellsStayApart` | internal/admin/product_store.go:259-309 | rows that never name one stored variant twice never put two changes into one cell |
| `ProductStore.SyncStoresRows` | internal/admin/product_store.go:259-309 | afterwards the product has exactly the submitted variants, each as the last row for it says; other products' variants are untouched |
| `ProductStore.SaveStoresRows` | internal/admin/product_store.go:142-207 | a committed save leaves product, variants and photos exactly as submitted, the last row for a variant deciding, keeping unset prices and SKUs |
| `StockStores.Stores.Save` | internal/admin/product_store.go:142-207 | the loops over rows and cells compute the specified save, and any error leaves the database as it was |
| `StockStores.Stores.SyncVariantsTx` | internal/admin/product_store.go:259-309 | deletes, updates and inserts row by row, and maps every row key to its variant |
| `StockStores.Stores.ApplyStockChangesTx` | internal/admin/product_store.go:356-380 | attempts every cell and reports all conflicts, not only the first |
| `StockStores.Stores.Set` | internal/httpapi/admin_catalog_stock.go:56-121 | writes the quantity only over the expected one, if one is given; every refusal changes nothing |
| `StockRuns.EventMovesAsIntended` | internal/httpapi/admin_catalog_stock.go:56-121 | each committed sale, restock, set or form save, of any form, moves every surviving cell by what its author meant, except an unchecked set of a cell that no longer held what its author saw |
| `StockRuns.RunAddsUp` | internal/httpapi/admin_catalog_stock.go:56-121 | over any run a cell holds what it held, plus every committed change, each counted from the value its author saw, plus what the unchecked sets were off by |
| `StockRuns.NoUpdateIsLost` | internal/admin/product_store.go:352-425 | without unchecked sets of the cell, that last part is nothing |
| `StockRuns.UncheckedSetLosesASale` | internal/httpapi/admin_catalog_stock.go:56-121 | a set without an expected quantity, after any number of pieces was sold unseen, is off by exactly that number; with the quantity its author saw it is refused |
| `StockRuns.RunKeepsOk` | internal/orders/order.go:922-948 | no run stores a negative quantity, or stock of a variant or at a point that does not exist |
| `ProductForm.FieldNamesMeetIff` | internal/admin/product_form_parse.go:61-66 | for any keys, and points of one length, two fields share a name only if they are one, or a cell's original and a price original whose row key starts like that field's name, in exactly the cases given |
| `ProductFormLoops.ParseForm` | internal/admin/product_form_parse.go:222-345 | the parse loops with seen keys compute the specified form |
| `ProductFormLoops.MarkConflicts` | internal/admin/product_form_parse.go:376-402 | updates in place exactly the conflicting cells, from the last conflict reported for each |
| `ProductFormLoops.BuildRows` | internal/admin/product_form_parse.go:406-447 | renders one row per variant and one cell per point, blank for an override that is not positive |
| `FormRoundTrips.UntouchedFormChangesNothing` | internal/admin/product_form_parse.go:222-447 | parsing the matrix as rendered gives one row per variant in order, no stock change and no price but cleared non-positive ones; it has no error exactly when every stored value is one the form accepts |
| `FormRoundTrips.AmountIgnoresEnds` | internal/admin/product_form_parse.go:95-106 | trimming an amount before parsing it changes nothing |
| `FormRoundTrips.AmountRoundTrip` | internal/admin/product_form_parse.go:95-106 | a formatted amount parses back to itself, for every whole number of hundredths |
| `Text.ItoaRoundTrip` | internal/admin/product_form_parse.go:70-86 | a formatted integer parses back to itself over the whole 64-bit range |
| `Resubmission.ParsedCellsAreDistinct` | internal/admin/product_form_parse.go:262-345 | a parsed form asks for each cell at most once, whatever was submitted |
| `Resubmission.ResentRows` | internal/admin/product_form_parse.go:376-402 | the refreshed rows parse without error exactly when every cell shown can be sent back, and then ask for the same variants and the unconflicted changes |
| `FreshDraws.SyncIgnoresDraws` | internal/admin/product_store.go:259-309 | whether the variants can be written depends neither on which new ids are drawn nor on the prices, for stored and new products |
| `Resubmission.ResubmissionConverges` | internal/admin/product_form_parse.go:372-402 | a conflict page sent back unedited is accepted exactly when its quantities are, and then saves every unconflicted edit and leaves the conflicting cells as stored, with or without submitted prices, for stored and new products; where rows share a cell, it ends up with the last edit for it that did not conflict |
| `Resubmission.MissingPricesAreCleared` | internal/admin/product_form_parse.go:262-300 | the same page asks for the same variants exactly when prices had been submitted; without them it asks to clear every override |
| `LostOverrides.OverridesAreKept` | internal/admin/product_store.go:313-326 | saved without submitted prices, every surviving variant keeps its stored override, whether or not rows share it |
| `LostOverrides.OverridesAreCleared` | internal/admin/product_store.go:313-326 | the conflict page of such a form, sent back and saved, leaves every surviving variant without one, so what was stored is kept exactly where nothing was |
| `LostOverrides.OneOverrideIsLost` | internal/admin/product_form_parse.go:222-402 | one form without a price column, one stored variant priced 5.00: accepted, conflicting in one cell, sent back as shown, saved, and the price is gone |
| `SharedVariants.ParsedCellsStayApart` | internal/admin/product_form_parse.go:257-345 | a parsed form puts no two changes into one cell unless two of its rows name one variant |
| `SharedVariants.RefusalNamesMovedCellsIff` | internal/admin/product_store.go:356-380 | whatever form was parsed, the conflicts it is refused with are the cells that moved exactly when none of its changes that matches the table is followed by another for its cell |
| `SharedVariants.SharedVariantConflictsWithItself` | internal/admin/product_form_parse.go:262-269 | one form that is accepted and names a variant twice: refused for a cell that has not moved, shown with a quantity of its own that was rolled back |
| `ImportCells.PriceRoundTrip` | internal/catalog/import_parse.go:338-355 | a price the program shows is the price an import reads |
| `ImportCells.QuantityRoundTrip` | internal/catalog/import_parse.go:359-375 | a quantity the program shows is the quantity an import reads |
| `ImportPlanLaws.ParsedRowIsOk` | internal/catalog/import_plan.go:156-255 | prices are positive and fit the column, a bad price is an error, and only a variant has stock, at an active point and within the cap |
| `ImportPlanLaws.RepeatedSkusAreMarked` | internal/catalog/import_plan.go:102-109 | of two rows with one SKU the later is in error |
| `ImportPlanLaws.GroupsFollowKeys` | internal/catalog/import_plan.go:111-133 | a group is exactly the rows with its key in file order, no two groups share a key, and a row without a key is alone |
| `ImportPlanLaws.EveryRowIsPlannedOnce` | internal/catalog/import_plan.go:87-140 | every non-blank row of the file is in exactly one model |
| `ImportPlanLaws.PlannedModelsAreSound` | internal/catalog/import_plan.go:290-371 | a model without errors has a name, a positive base price, only positive overrides, and no size and colour twice |
| `ImportPlanLaws.EffectivePrice` | internal/catalog/import_plan.go:351-363 | a variant sells for its positive override cell, for the base price if that cell is zero, and otherwise for its own price cell or the base price |
| `ImportPlanKeys.KeysTell` | internal/catalog/import_plan.go:144-152 | two rows share a key exactly when their articles agree up to case, or both have none and brand, name and category do; rows without an article need brands and names without the NUL separator |
| `ImportPlanKeys.NulsMixKeys` | internal/catalog/import_plan.go:144-152 | with one, two different products share a key |
| `ImportCategories.FirstSpellingDecides` | internal/catalog/import_plan.go:272-285 | every model is assembled with what the first spelling of its category in the file resolves to |
| `ImportCategories.OwnCategoriesIff` | internal/catalog/import_plan.go:272-285 | every model of a file is assembled with what its own category cell resolves to, exactly when every first spelling resolves as the model's own does |
| `ImportCategories.OrderOfSpellingsDecides` | internal/catalog/import_store.go:31-78 | a file of two models in which the one whose cell is the very slug is refused, and accepted when the two rows are swapped |
| `ImportPlanKeys.ModelsApart` | internal/catalog/import_plan.go:87-140 | two models without errors share no SKU and no article |
| `ImportPlanner.Planner.Plan` | internal/catalog/import_plan.go:87-140 | the loops, index map and caches compute the specified plan |
| `ImportPlanner.Planner.ParseOne` | internal/catalog/import_plan.go:156-255 | one row's cells, errors and stock, with the point cache |
| `ImportPlanner.Planner.Assemble` | internal/catalog/import_plan.go:290-371 | the loops over fields, prices and sizes compute the specified model and remember its category |
| `ImportStore.ProductsByName` | internal/catalog/import_store.go:211-233 | exactly the products with that brand, name and category, for a model with an article only those without one |
| `ImportSession.Tx.FindProduct` | internal/catalog/import.go:390-437 | by article, then by the owner of the rows' SKUs, then by name; two owners or two names are refused |
| `ImportSession.Tx.ImportModel` | internal/catalog/import.go:312-379 | writing the product, each row's variant and its stock computes the specified outcome or failing row |
| `ImportSession.Tx.UpdateVariant` | internal/catalog/import_store.go:314-324 | size, colour and override as in the file, an empty SKU keeps the stored one, a clash is refused |
| `ImportSession.Session.Model` | internal/catalog/import_store.go:164-181 | a failing model leaves no trace, by rollback or savepoint; a dry run never touches the committed catalogue |
| `ImportSession.ImportResult.AddModel` | internal/catalog/import.go:462-504 | every row of the model is counted by its status and appended, with its line among the errors if skipped or failed |
| `ImportSession.ImportProducts` | internal/catalog/import.go:206-293 | the committed catalogue and the report are those of `Import`, for real and dry runs; a refused point changes nothing |
| `ImportRun.ModelsAreAtomic` | internal/catalog/import.go:248-274 | a model not imported changes nothing, has an error row and no row reported as written, whether it failed in planning or midway; an imported one has every row created or updated |
| `ImportRun.EveryRowIsReported` | internal/catalog/import.go:462-504 | the report lists every non-blank row once in line order; its counters add up, Imported counts the products, and the error list is exactly the skipped and failed lines |
| `ImportRun.DryRunIsFaithful` | internal/catalog/import_store.go:148-188 | a dry run leaves the catalogue as it was and its report is the real run's but for the flag |
| `ImportInvariant.ImportKeepsCatalogue` | internal/catalog/import_store.go:235-334 | an import of any file keeps articles, SKUs and sizes unique and references whole, removes nothing, and clears no article or SKU |
| `Reimport.FirstImport` | internal/catalog/import.go:312-379 | a model the catalogue knows nothing of is created exactly as planned, every row reported created |
| `Reimport.ImportAgain` | internal/catalog/import.go:312-437 | a stored model is found again, and writing it changes nothing and reports only updates |
| `Reimport.AllBecomeStored` | internal/catalog/import.go:248-274 | after a first import every model without errors is stored, later models leaving earlier ones alone |
| `ReimportReport.SecondImportChangesNothing` | internal/catalog/import.go:196-274 | importing a file of unknown articles twice: the second import leaves the catalogue as it is, creates nothing, and repeats the report with updated for created and the same errors |
| `Categories.GroundedIffNoCircle` | internal/catalog/category.go:115-137 | a category's chain of parents ends exactly when no ancestor of it is its own proper ancestor |
| `Categories.ForestHoldsTheGrounded` | internal/catalog/category.go:115-137 | the forest holds exactly the categories whose chain of parents ends, each once |
| `Categories.SubtreeIsTheDescendants` | internal/catalog/facets.go:130-157 | a subtree's ids are, without repeats, the category and all its descendants, or the id alone when the forest does not hold it |
| `Categories.UpdateKeepsForestIff` | internal/catalog/category.go:210-232 | an accepted update keeps every category in the forest exactly when the new parent is not the category's own descendant |
| `Categories.TwoUpdatesCanHideCategories` | internal/catalog/category.go:214-216 | two accepted updates after which two categories are nowhere in the forest |
| `CategoryForest.BuildTree` | internal/catalog/category.go:115-137 | every category's children, and the roots, are the rows under it in input order; a dangling parent makes a root |
| `CategoryForest.Find` | internal/catalog/facets.go:131-141 | finds a category with the id if and only if walking the nodes meets one |
| `CategoryForest.SubtreeIDs` | internal/catalog/facets.go:130-157 | the find-and-walk recursion returns the specified subtree, parents before children and siblings in order |

## Left out

- `RateLimit.AdmissionBound`: says nothing of rates that refill a whole burst within a nanosecond.
- HTTP handlers, templates, locale texts, audit entries and journal rows: presentation. Messages are kept as kinds, not as texts.
- Message templates per language. The queue and the batches of one broadcast are two models: the queue sees of a batch only whether it was committed.
- A crash in the middle of `BroadcastWorker.Worker.Process`: crashes are steps of the step system; the class is restarted between calls.
- Actual sends (FCM, SMS) and the code check of the provider: their outcomes are arbitrary.
- The store-review login, per-address failure counters, JWTs and customer creation after a login; calls refused by them only end earlier.
- The per-address and global code caps under concurrency: they are checked, but only the per-phone limits are claimed over runs.
- accountRepo.deleteCustomer's other statements: its two effects here, revoking sessions and removing codes, are single steps.
- Orders beyond one line's decrement or restock, and payments.
- Floating point: amounts are whole hundredths with exact half-up rounding of plain decimals; exponents, hexadecimal floats and numbers beyond the float range are not modelled.
- Postgres numeric overflow, wrap-around of counters, and commits whose acknowledgement is lost.
- The row totals and badges of the stock matrix, descriptions, brand and the active flag of the product form.
- CSV and Excel decoding, header aliases and templates: an import starts from keyed rows, its per-point columns already in name order.
- Store failures during planning, and cancellation: both end an import early with what was committed so far.
- Upper-case spellings of ids: ids are compared as written.
- The catalogue's ids in an import are positions, so rows deleted earlier leave no gaps.
- Category photos, facets and listing: they read the forest and the catalogue and keep no state of their own.
- `ImportPlanKeys.KeysTell`: says nothing of brands and names with a NUL character, which the database cannot store.
