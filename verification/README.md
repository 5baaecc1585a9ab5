# Licensing platform: a verified model

This project models the parts of a software licensing platform whose correctness is hard to see from
any single function, and proves what they keep.

- The licensing engine of the API server. `Licensing.dfy` states the tables, the requests and the
  effect of each request; `Store.dfy` and `Services.dfy` are the guarded statements and the service
  calls that issue them, proved to compute exactly those effects. `Consumption.dfy`, `Evolution.dfy`,
  `PaidTime.dfy`, `Devices.dfy`, `Leases.dfy`, `Lapse.dfy` and `Ledger.dfy` prove what every run keeps;
  `Answers.dfy` and `Activations.dfy` say of each request when it is accepted and what it leaves behind;
  `Witnesses.dfy` holds the runs behind the findings.
- The Redis scripts and the replay protocol: `Seats.dfy`, `RateLimit.dfy`, `Replay.dfy` and
  `SequenceOrder.dfy`, over `SortedSets.dfy`. Failures, expiry and loss of keys are explicit steps. `Lockout.dfy` is the
  administrator login counter.
- The codecs and arithmetic of the Windows client and the texts it shares with the server:
  `Json.dfy`, `JsonText.dfy`, `JsonGrammar.dfy`, `JsonEscape.dfy`, `StateStore.dfy`, `Base64.dfy`,
  `X25519.dfy`, `Curve.dfy`, `DeviceAuth.dfy`, `Token.dfy`, `Version.dfy`, over `Decimal.dfy`, `Division.dfy`, `Sequences.dfy`,
  `Sets.dfy` and `Wrappers.dfy`.

`dafny verify dfyconfig.toml` checks everything.

## Reading the model

- A service call is one atomic step, a serial schedule. This is an assumption. Row locks give part of
  it: Activate, Redeem and UserBindCard lock the card, and the license where there is one, but read the
  plan row unlocked, so an UpdatePlan that commits in between could pair a new policy version with old
  features. CardAction, LicenseAction, UnbindDevice, AdminExtendLicense, UpdatePlan, DeletePlan and
  CreateCardBatch read before they write; Heartbeat and Deactivate have no transaction at all;
  AdminLogin compares the password between the lock test and the count. `PolicyIdentified` and
  `GuessesBounded` in particular depend on it.
- Instants are milliseconds and a day is 24 hours. Redis keys are alive until, not at, their deadline.
- Ids and tokens drawn at random are part of the request; a drawn id that is taken violates the
  primary key, as in the database. A card is named by its lookup value and a device by its license
  and fingerprint, both unique columns. The unique index on active public keys is taken to exist.
- What lies outside the tables enters as part of the request: the outcome of envelopes, signatures,
  replay checks, bans and product grants, and the reply of the seat script.
- A run starts from products, plans, users and agents with nothing sold and zero balances.
- `strtod` and the conversion of a double to a 64-bit integer are parameters with the laws
  `ReadsIntegers` and `ExactUpTo53Bits`. Field inversion, and what it means that the curve formulas
  double and add, are parameters with the laws `LadderLaws` and `CurveLaws`; field arithmetic is exact
  modulo 2^255 - 19. Signatures and the JSON of token claims are parameters with the laws of `Sound`.
- Shifts and masks are written as multiplication, division and remainder, with 32-bit wrap-around
  where the source has it.

## Findings

- A depleted card blocks revocation. A license created under a plan with a single use can be frozen
  but never revoked or voided; for all other licenses revocation works until they are in a final
  status, even when a later device takes the last use (`RevocationEffective`, `DepletedExactly`,
  `RevocableExactly`, `DepletedShields`; a run is `SpentCardShields`).
- A machine whose device row was unbound gets a lease when it activates again, and stays unbound
  (`LeasedDeviceActive` is the exact condition, `UnboundDeviceLeased` a run).
- The replay window must exceed the tolerated skew by a full second, because timestamps are compared
  in whole seconds; only with both at zero, when nonce keys never expire, is nothing more needed
  (`NoReplay` is exact, `Replayed` gives the runs).
- The lease given out by a redemption carries the expiry from before it, every other lease the current
  one (`LeaseExpiryCurrent`; a run is `RedemptionTellsOldExpiry`).
- The client's saved state is not always valid JSON for other readers: `esc` copies control
  characters other than newline (`EscHasNoControls` is exact, `TabIsCopied` an instance); its own
  parser accepts them.

## Model

| member | source | states |
|---|---|---|
| `Consumption.Reachable` | apps/license-api/internal/service/service.go:268-437 | every state a run reaches keeps the tables consistent: cards and licenses name each other, statuses match what consumed a card, no dangling rows |
| `Consumption.ConsistentKept` | apps/license-api/internal/service/adminsvc.go:301-427 | each of the fifteen steps, refusals and roll-backs included, keeps that consistency |
| `Evolution.RunEvolves` | apps/license-api/internal/store/catalog.go:23-35 | between any two states of a run: consumed cards keep their consumer, final statuses stay, policy versions and histories only grow |
| `Evolution.StepEvolves` | apps/license-api/internal/service/adminsvc.go:563-653 | one step of any kind keeps consumed cards, final statuses, origins and plans, and raises the policy version whenever a plan row changes |
| `Evolution.SingleConsumption` | apps/license-api/internal/service/usersvc.go:220-257 | a card has at most one of a license, a user and a renewal row, an unused card has none, and card.license_id and origin_card_id are inverse |
| `Evolution.ConsumedForever` | apps/license-api/internal/service/adminsvc.go:313-340 | a consumed card is never deleted, never unused again and keeps the same consumer in all later states |
| `Evolution.ConsumedOnce` | apps/license-api/internal/service/heartbeat.go:303-343 | at most one step of a run consumes a given card |
| `Evolution.TerminalLockstep` | apps/license-api/internal/service/adminsvc.go:341-365 | a license and its card are revoked together and voided together in every reachable state |
| `Evolution.TerminalForever` | apps/license-api/internal/store/licenses.go:172-230 | revoked and voided absorb every later step, for the license and for its card |
| `Evolution.RevocationEffective` | apps/license-api/internal/service/adminsvc.go:374-427 | for every caller that may see it, revoking or voiding takes effect, from either side, exactly when the license is not in a final status and its card is not depleted |
| `Evolution.DepletedShields` | apps/license-api/internal/store/licenses.go:172-182 | once the card of a license is depleted no run revokes or voids that license |
| `Devices.DepletedExactly` | apps/license-api/internal/service/service.go:325-340 | in every state after its creation the card of a license is depleted if and only if the plan at the creating activation was a uses plan with a single use |
| `Devices.RevocableExactly` | apps/license-api/internal/service/adminsvc.go:374-427 | an administrator can revoke or void a license, at any time, if and only if it is not in a final status and was not created under a plan with a single use |
| `Witnesses.SpentCardShields` | apps/license-api/internal/store/licenses.go:172-182 | a run from an empty shop to an active license whose revocation is refused |
| `PaidTime.StepConserves` | apps/license-api/internal/store/licenses.go:256-271 | one step: time left plus time used up equals time left before plus time granted |
| `PaidTime.TimeConserved` | apps/license-api/internal/service/heartbeat.go:291-362 | between any two points of any run, time used while unexpired plus time left equals time left before plus first grants plus all days redeemed or given |
| `PaidTime.ExpiryIsSum` | apps/license-api/internal/service/adminsvc.go:997-1027 | the expiry is the earlier one plus the sum of all days, in any order, if and only if no extension met the license lapsed; otherwise it is later |
| `Devices.UsesConserved` | apps/license-api/internal/store/licenses.go:233-242 | uses left plus devices ever bound is the same at any two points of a run |
| `Devices.UsesGranted` | apps/license-api/internal/service/service.go:312-364 | that sum is the number of uses the plan had at the activation that created the license |
| `Devices.DeviceBound` | apps/license-api/internal/service/service.go:401-411 | if the plan never allows more than a number of devices, the active devices of a license never exceed it |
| `Devices.PubsStayUnique` | apps/license-api/internal/store/licenses.go:422-434 | in every reachable state a public key belongs to at most one active device |
| `Devices.Origin` | apps/license-api/internal/service/service.go:294-348 | every license of a reachable state was created by one first activation of an unused card |
| `Devices.StepBinds` | apps/license-api/internal/service/service.go:378-436 | one step of any kind keeps public keys unique, conserves uses, and raises a device count only within the limit |
| `Leases.StepMints` | apps/license-api/internal/service/service.go:461-495 | a step mints at most one lease, for an active license, from the current plan row and policy version |
| `Leases.LeasesReachable` | apps/license-api/internal/service/adminsvc.go:591-598 | in every reachable state no lease is ahead of its license, current versions carry the current policy, and leases of one license are ordered |
| `Leases.PolicyIdentified` | apps/license-api/internal/store/catalog.go:257-261 | two leases of a license with the same policy version carry the same features, interval and grace, and versions never fall in minting order |
| `Leases.InactiveMintsNothing` | apps/license-api/internal/service/heartbeat.go:66-76 | while a license is not active no request mints a lease for it |
| `Leases.RevocationHorizon` | apps/license-api/internal/service/service.go:367-377 | after a revocation no lease is minted, and every lease that exists ends within the largest lease time the plan has had |
| `Leases.FreezeHorizon` | apps/license-api/internal/service/heartbeat.go:292-299 | the same for a freeze, until the license is active again |
| `Leases.LeasedDeviceActive` | apps/license-api/internal/service/service.go:381-396 | an activation leases to an active device exactly unless the row was there and unbound: reactivation does not bind again |
| `Witnesses.UnboundDeviceLeased` | apps/license-api/internal/service/service.go:381-396 | a run in which a device that unbound itself activates again, gets a lease and stays unbound |
| `Leases.LeaseExpiryCurrent` | apps/license-api/internal/service/heartbeat.go:344-354 | a fresh lease tells the license expiry of the moment if and only if it was not minted by a redemption; a redemption tells an earlier one |
| `Witnesses.RedemptionTellsOldExpiry` | apps/license-api/internal/service/heartbeat.go:327-354 | a run in which a redemption is accepted and its lease tells the expiry from before |
| `Ledger.LedgerReachable` | apps/license-api/internal/store/catalog.go:331-364 | in every reachable state each balance is the sum of its ledger rows, each balance_after the sum up to it, and none is negative |
| `Ledger.BatchAllOrNothing` | apps/license-api/internal/service/adminsvc.go:211-245 | a batch leaves exactly quantity new unused cards and one row of minus quantity times price within 64 bits, or nothing changes |
| `Ledger.PurchaseOrigin` | apps/license-api/internal/service/adminsvc.go:222-239 | every batch_purchase row of a run was booked by one batch at quantity times price, beside that many new cards |
| `Lapse.MintedUnlapsed` | apps/license-api/internal/service/heartbeat.go:66-76 | every lease is minted for a license that is active and has not lapsed at that moment, whichever request mints it |
| `Lapse.LapsedMintsNothing` | apps/license-api/internal/service/heartbeat.go:70-72 | from the moment a license has lapsed no request of any run mints a lease for it until it is extended |
| `Lapse.FrozenMintsNothing` | apps/license-api/internal/service/adminsvc.go:341-365 | after an accepted freezing of a license or its card no request mints a lease for it until an accepted unfreezing |
| `Lapse.FreezingFreezes` | apps/license-api/internal/service/adminsvc.go:410-414 | an accepted freezing, from either side, leaves the license frozen |
| `Lapse.OnlyUnfreezingActivates` | apps/license-api/internal/store/licenses.go:208-218 | no other request than an accepted unfreezing makes an inactive license active |
| `Answers.HeartbeatExactly` | apps/license-api/internal/service/heartbeat.go:36-136 | a heartbeat is granted if and only if the device, its license, its client and its seat are in order; it then adds one lease and changes nothing else |
| `Answers.HeartbeatRefusals` | apps/license-api/internal/service/heartbeat.go:66-72 | a device is told frozen, revoked, voided or expired exactly when its license is |
| `Answers.RedeemExactly` | apps/license-api/internal/service/heartbeat.go:291-362 | a renewal card is redeemed if and only if it is unused, of the product and worth days, on an active license with an expiry under an active plan; it adds its days |
| `Answers.DeactivateExactly` | apps/license-api/internal/service/heartbeat.go:375-405 | the device of the key, and no other row, is unbound |
| `Answers.UserBindCardExactly` | apps/license-api/internal/service/usersvc.go:220-254 | a license card is spent on a user if and only if it is unused, of the product and worth days; the user gains these days from now or a later expiry |
| `Answers.LicenseActionExactly` | apps/license-api/internal/service/adminsvc.go:386-421 | each action is accepted exactly from its statuses and leaves the license frozen, active, revoked or voided; a revocation takes the card along |
| `Answers.CardActionExactly` | apps/license-api/internal/service/adminsvc.go:313-365 | the same for a card with a license: both change together or the call is refused |
| `Answers.LooseCardActionExactly` | apps/license-api/internal/service/adminsvc.go:313-340 | the same for a card without a license, which goes back to unused when unfrozen |
| `Answers.UnbindDeviceExactly` | apps/license-api/internal/service/adminsvc.go:430-452 | an active device of a license the caller may see is unbound, any other request is answered as not found |
| `Answers.AdminExtendExactly` | apps/license-api/internal/service/adminsvc.go:997-1020 | 1 to 36500 days on a license that is visible and not revoked or voided, from now or a later expiry |
| `Answers.UpdatePlanExactly` | apps/license-api/internal/service/adminsvc.go:563-598 | accepted if and only if the values, zeros filled in, are in range; then they are the row, and exactly the licenses of the plan have the next version |
| `Answers.PlanStatusExactly` | apps/license-api/internal/service/adminsvc.go:642-651 | the status becomes the given one, and the versions rise with it |
| `Answers.DeletePlanExactly` | apps/license-api/internal/service/adminsvc.go:608-635 | a plan goes if and only if it is retired and no license and no used card has it; exactly its cards and batches go with it |
| `Answers.BatchExactly` | apps/license-api/internal/service/adminsvc.go:129-245 | a batch is made if and only if the request is orderly, nothing collides, and the agent can pay |
| `Answers.BatchCardsExactly` | apps/license-api/internal/service/adminsvc.go:192-221 | every card of it is new, unused and as ordered |
| `Answers.AdjustExactly` | apps/license-api/internal/service/adminsvc.go:256-282 | a non-zero amount moves the balance if and only if the result is between zero and the 64-bit maximum |
| `Answers.PoorRefused` | apps/license-api/internal/service/adminsvc.go:226-232 | who cannot pay is told so, and nothing changes |
| `Activations.FirstExactly` | apps/license-api/internal/service/service.go:296-365 | an unused card starts a license if and only if it is a license card with a term not over and a use to give; owner, product, plan, term, uses and device are as ordered |
| `Activations.SameMachineExactly` | apps/license-api/internal/service/service.go:381-396 | a machine seen before gets the new key if and only if no other active device has it, and nothing else changes |
| `Activations.NewMachineExactly` | apps/license-api/internal/service/service.go:399-434 | another machine is bound if and only if the limit, the uses and the key allow it, and takes one use |
| `Activations.CardDecides` | apps/license-api/internal/service/service.go:294-437 | an unused card is activated, every other status but active is answered by its own error |
| `Activations.CardInUseDecides` | apps/license-api/internal/service/service.go:367-381 | a license that is not active or has lapsed is answered by its own error |
| `Activations.OffSale` | apps/license-api/internal/service/service.go:268-292 | an unknown card, a retired product and a retired plan are refused |
| `Activations.ActivateExactly` | apps/license-api/internal/service/service.go:438-456 | the call is answered Done, with one lease, if and only if nothing refused and the seats could be asked; otherwise a committed binding stays |
| `Services.Service.Activate` | apps/license-api/internal/service/service.go:268-456 | the tables and the answer after the call are those of the specified step, roll-back and seat failure included |
| `Services.Service.ActivateTx` | apps/license-api/internal/service/service.go:268-434 | the transaction commits what the declarative specification says, or fails with the error it names |
| `Services.Service.FirstActivationTx` | apps/license-api/internal/service/service.go:296-365 | license, use, card and device statements add up to the specified first activation |
| `Services.Service.TakeFirstUse` | apps/license-api/internal/service/service.go:327-339 | the first device takes a use; the last use depletes the card |
| `Services.Service.SameDeviceTx` | apps/license-api/internal/service/service.go:381-396 | the same machine: a changed key is replaced unless another active device has it |
| `Services.Service.NewDeviceTx` | apps/license-api/internal/service/service.go:399-434 | device limit, use and uniqueness decide in this order |
| `Services.Service.Mint` | apps/license-api/internal/service/service.go:471-495 | the lease carries the license and plan rows it was given |
| `Services.Service.Heartbeat` | apps/license-api/internal/service/heartbeat.go:36-136 | the checks in the order of the code; a lease exactly when none refuses |
| `Services.Service.TooOldClient` | apps/license-api/internal/service/heartbeat.go:97-100 | the version check is the order on version keys |
| `Services.Service.Redeem` | apps/license-api/internal/service/heartbeat.go:251-372 | the extension, the depleted card and the renewal row, and a lease with the expiry from before |
| `Services.Service.RedeemTx` | apps/license-api/internal/service/heartbeat.go:291-343 | every refusal of the redemption and the three rows it changes |
| `Services.Service.Deactivate` | apps/license-api/internal/service/heartbeat.go:375-405 | the device of the public key is unbound |
| `Services.Service.UserBindCard` | apps/license-api/internal/service/usersvc.go:209-262 | the card is spent on the user and the user account extended, or nothing changes |
| `Services.Service.CardAction` | apps/license-api/internal/service/adminsvc.go:301-371 | the card and, if it has one, its license change together, or the call is rolled back |
| `Services.Service.LicenseAction` | apps/license-api/internal/service/adminsvc.go:374-427 | a revocation takes the card with it or is rolled back; a freeze leaves the card alone |
| `Services.Service.UnbindDevice` | apps/license-api/internal/service/adminsvc.go:430-462 | an agent reaches only devices of its own licenses |
| `Services.Service.AdminExtendLicense` | apps/license-api/internal/service/adminsvc.go:997-1027 | 1 to 36500 days, not on a revoked or voided license |
| `Services.Service.UpdatePlan` | apps/license-api/internal/service/adminsvc.go:563-603 | kept and defaulted fields, validation, column checks, and the policy version of all licenses of the plan |
| `Services.Service.PlanStatus` | apps/license-api/internal/service/adminsvc.go:642-657 | status and policy version change together |
| `Services.Service.DeletePlan` | apps/license-api/internal/service/adminsvc.go:608-640 | only a retired plan without licenses and without cards that have a history goes, with its unused cards |
| `Services.Service.CreateCardBatch` | apps/license-api/internal/service/adminsvc.go:129-253 | batch, cards, charge and ledger row, or nothing |
| `Services.Service.ChargeTx` | apps/license-api/internal/service/adminsvc.go:222-239 | the division guard excludes exactly the products beyond 64 bits; a covered charge is booked |
| `Services.Service.AgentAdjustBalance` | apps/license-api/internal/service/adminsvc.go:256-288 | a balance moves by the amount within 0 and the 64-bit maximum, with its ledger row |
| `Services.QuotientGuard` | apps/license-api/internal/service/adminsvc.go:223-225 | the guard by division is the guard on the product |
| `Store.Queries.SetCardStatus` | apps/license-api/internal/store/licenses.go:147-156 | new status, or NoRows and no change |
| `Store.Queries.TransitionCardStatus` | apps/license-api/internal/store/licenses.go:159-169 | changes status only from the given one |
| `Store.Queries.TransitionCardToTerminal` | apps/license-api/internal/store/licenses.go:172-182 | changes status only of cards not revoked, voided or depleted |
| `Store.Queries.SetCardActivated` | apps/license-api/internal/store/licenses.go:416-419 | unused becomes active, depleted stays depleted, others are left alone |
| `Store.Queries.MarkCardUsedByUser` | apps/license-api/internal/store/users.go:116-128 | spends an unused, unbound card on a user |
| `Store.Queries.CreateLicense` | apps/license-api/internal/store/licenses.go:197-205 | inserts a row under a new id |
| `Store.Queries.TransitionLicense` | apps/license-api/internal/store/licenses.go:208-218 | changes status only from the given one |
| `Store.Queries.TransitionLicenseTerminal` | apps/license-api/internal/store/licenses.go:220-230 | changes status unless it is final |
| `Store.Queries.ConsumeLicenseUse` | apps/license-api/internal/store/licenses.go:233-242 | takes one use while there is one |
| `Store.Queries.ExtendLicense` | apps/license-api/internal/store/licenses.go:256-271 | adds the days to the later of now and the expiry |
| `Store.Queries.TouchLicensesPolicy` | apps/license-api/internal/store/catalog.go:257-261 | every license of the plan has its policy version raised by one, every other row is unchanged |
| `Store.Queries.GetDeviceByPub` | apps/license-api/internal/store/licenses.go:348-351 | finds an active device with the key exactly when there is one |
| `Store.Queries.CreateDevice` | apps/license-api/internal/store/licenses.go:333-341 | inserts a row unless fingerprint or active key is taken |
| `Store.Queries.RotateDevicePub` | apps/license-api/internal/store/licenses.go:422-434 | replaces the key unless another active device has it |
| `Store.Queries.UnbindDevice` | apps/license-api/internal/store/licenses.go:367-375 | unbinds an active device |
| `Store.Queries.ExtendEndUser` | apps/license-api/internal/store/users.go:64-76 | adds the days to the later of now and the expiry |
| `Store.Queries.UpdatePlan` | apps/license-api/internal/store/catalog.go:128-141 | writes an existing row if the column checks hold |
| `Store.Queries.SetPlanStatus` | apps/license-api/internal/store/catalog.go:114-123 | writes the status of an existing row |
| `Store.Queries.VoidAndDeleteUnusedCards` | apps/license-api/internal/store/catalog.go:165-168 | a card is left if and only if it is of another plan or not unused, and is then unchanged |
| `Store.Queries.DeleteBatchesByPlan` | apps/license-api/internal/store/catalog.go:171-174 | a batch is left if and only if it is of another plan, and is then unchanged |
| `Store.Queries.DeletePlan` | apps/license-api/internal/store/catalog.go:244-253 | deletes the plan row |
| `Store.Queries.CreateBatch` | apps/license-api/internal/store/licenses.go:21-49 | inserts the batch and all its cards, or reports the first violated constraint |
| `Store.Queries.InsertCards` | apps/license-api/internal/store/licenses.go:32-47 | the insertion loop fails exactly when two keys collide |
| `Store.Queries.DeductAgentBalance` | apps/license-api/internal/store/catalog.go:331-344 | takes a positive amount the balance covers |
| `Store.Queries.TopUpAgentBalance` | apps/license-api/internal/store/catalog.go:347-357 | moves the balance by the amount if it stays non-negative |
| `Store.Queries.InsertAgentTransaction` | apps/license-api/internal/store/catalog.go:359-364 | appends the row |
| `Store.Queries.Rollback` | apps/license-api/internal/store/catalog.go:23-35 | a failed transaction leaves the tables as they were |
| `Seats.SeatCovers` | apps/license-api/internal/cache/cache.go:109-139 | the seat taken with a heartbeat lasts at least as long as the lease it paid for, unless the device is dropped |
| `Seats.SeatBound` | apps/license-api/internal/service/heartbeat.go:102-136 | at every instant at most concurrent_limit devices hold an unexpired heartbeat lease |
| `Seats.AdmittedExactly` | apps/license-api/internal/cache/cache.go:116-128 | a seat is renewed exactly for a device seated by its history, and given to another exactly while fewer than limit devices are; it lasts one lease time |
| `Seats.HolderRenews` | apps/license-api/internal/cache/cache.go:116-121 | a device that renews while its lease is unexpired is never refused |
| `Seats.SeatsLimited` | apps/license-api/internal/cache/cache.go:122-127 | the set never holds more members than the limit |
| `Seats.Online.RenewOnline` | apps/license-api/internal/cache/cache.go:130-139 | the statements of the script, and admission unless the set is full |
| `Seats.Online.DropOnline` | apps/license-api/internal/cache/cache.go:142-144 | every other member is left with its score |
| `Seats.Online.Heartbeat` | apps/license-api/internal/service/heartbeat.go:102-129 | a lease exactly with a seat, expiring no later than the seat |
| `RateLimit.DecidesAsHistory` | apps/license-api/internal/cache/cache.go:73-88 | the pruned, expiring set answers every request as the whole admission history would |
| `RateLimit.AdmittedExactly` | apps/license-api/internal/cache/cache.go:73-104 | a request is admitted exactly while fewer than limit earlier ones of the window were, and is told what the window had left |
| `RateLimit.NeverExceeded` | apps/license-api/internal/cache/cache.go:90-104 | any window of time contains at most limit admissions |
| `RateLimit.ScriptFollows` | apps/license-api/internal/cache/cache.go:73-88 | one request: the answer by definition, and the set stays in step with the history |
| `RateLimit.Limiter.RateLimit` | apps/license-api/internal/cache/cache.go:73-104 | the statements of the script compute its specification |
| `Replay.NoReplay` | apps/license-api/internal/service/heartbeat.go:199-217 | no tag passes twice in any run if and only if the replay window is at least the skew plus one second, or both are zero and nonce keys never expire |
| `Replay.Replayed` | apps/license-api/internal/service/heartbeat.go:200-208 | in every other configuration a run accepts the same tag twice |
| `Replay.NotTwice` | apps/license-api/internal/cache/cache.go:42-49 | with a long enough nonce lifetime a second use is refused in any run |
| `SequenceOrder.NumbersRise` | apps/license-api/internal/cache/cache.go:52-70 | of two accepted requests on one counter that Redis kept and answered, the later has the larger number; for devices and for activations |
| `SequenceOrder.RegressionRefused` | apps/license-api/internal/service/heartbeat.go:218-235 | a request whose number does not rise is refused as a replay or a regression |
| `SequenceOrder.DatabaseNumbersRise` | apps/license-api/internal/store/licenses.go:387-413 | a request the database decides carries a larger number than any earlier accepted one it knows of, whatever Redis does in between |
| `SequenceOrder.ErrorsExactly` | apps/license-api/internal/service/heartbeat.go:174-235 | an activation is accepted only if Redis answered twice; any other request falls back on last_seq |
| `SequenceOrder.WindowExactly` | apps/license-api/internal/service/heartbeat.go:200-208 | a timestamp outside the skew, in whole seconds, is a replay and changes nothing |
| `SequenceOrder.BumpIsMaximum` | apps/license-api/internal/store/licenses.go:387-393 | the larger of the two numbers stays, other rows are unchanged |
| `Replay.HonestAccepted` | sdk/windows-cpp/src/sdk.cpp:326-355 | an honest device is accepted through any sequence of errors, expiries, losses and recoveries of Redis |
| `Replay.NobodyAhead` | apps/license-api/internal/service/heartbeat.go:218-235 | neither the counter nor last_seq runs ahead of the numbers a device used |
| `Replay.LastSeqGrows` | apps/license-api/internal/store/licenses.go:387-413 | last_seq of a device never falls in any run |
| `Replay.Guard.CheckReplay` | apps/license-api/internal/service/heartbeat.go:199-235 | window, nonce and sequence checks with the database fallback compute the specified verdict and state |
| `Replay.Guard.CheckActivationReplay` | apps/license-api/internal/service/heartbeat.go:174-197 | the activation variant, which refuses on every Redis error |
| `Replay.Guard.SetNX` | apps/license-api/internal/cache/cache.go:42-49 | first use of a key within its life time |
| `Replay.Guard.RunSeqScript` | apps/license-api/internal/cache/cache.go:52-70 | a missing counter counts as -1, and a lifetime of zero is an error |
| `Replay.Guard.AcceptDeviceSeq` | apps/license-api/internal/store/licenses.go:396-413 | accepts exactly a larger number |
| `Replay.Guard.BumpDeviceHeartbeat` | apps/license-api/internal/store/licenses.go:387-393 | the maximum of the stored and the new number |
| `Json.Parser.ParseValue` | sdk/windows-cpp/src/util.cpp:110-121 | parses what the grammar on the remaining text says, never moving past the end |
| `Json.Parser.ParseStr` | sdk/windows-cpp/src/util.cpp:140-181 | string literals with escapes |
| `Json.Parser.ParseNum` | sdk/windows-cpp/src/util.cpp:131-138 | numbers through strtod |
| `Json.Parser.ParseArr` | sdk/windows-cpp/src/util.cpp:183-196 | arrays |
| `Json.Parser.ParseObj` | sdk/windows-cpp/src/util.cpp:198-219 | objects |
| `Json.Parser.Lit` | sdk/windows-cpp/src/util.cpp:123-129 | literals |
| `Json.ParseText` | sdk/windows-cpp/src/util.cpp:222-231 | a whole text with nothing but white space behind the value |
| `JsonGrammar.LetterRead` | sdk/windows-cpp/src/util.cpp:140-181 | the one-letter escapes stand for the characters of section 7 of RFC 8259 |
| `JsonGrammar.FourDigits` | sdk/windows-cpp/src/util.cpp:155-165 | four hexadecimal digits are read as the number they spell |
| `JsonGrammar.Utf8Means` | sdk/windows-cpp/src/util.cpp:155-175 | a code is added as the shortest UTF-8 sequence that carries it |
| `JsonGrammar.LiteralsRead` | sdk/windows-cpp/src/util.cpp:123-129 | true, false and null are read as such |
| `JsonGrammar.SpaceBeforeValue` | sdk/windows-cpp/src/util.cpp:106-121 | space, tab, carriage return and line feed may stand before a value |
| `JsonGrammar.NestingLimit` | sdk/windows-cpp/src/util.cpp:110-121 | arrays nested 64 deep inside the outermost are read, and no deeper ones |
| `JsonText.EscInverse` | sdk/windows-cpp/src/store.cpp:38-46 | the parser undoes esc on every string |
| `JsonText.ValueInverse` | sdk/windows-cpp/src/util.cpp:110-219 | parsing a printed document gives its value back exactly when its nesting stays within the limit |
| `JsonText.ParseInverse` | sdk/windows-cpp/src/util.cpp:222-231 | the same for a whole text |
| `StateStore.RoundTrip` | sdk/windows-cpp/src/store.cpp:48-92 | a fresh object that loads a saved state equals it, for all strings, pins and key blobs and integers up to 2^53 |
| `StateStore.Reload` | sdk/windows-cpp/src/store.cpp:74-92 | for larger integers the state comes back but for their passage through a double |
| `StateStore.SavedText` | sdk/windows-cpp/src/store.cpp:48-72 | the text is the eleven members between braces, each value under its own name |
| `StateStore.EscText` | sdk/windows-cpp/src/store.cpp:38-46 | the loop of esc |
| `StateStore.SdkState.Serialize` | sdk/windows-cpp/src/store.cpp:48-72 | prints the eleven members |
| `StateStore.SdkState.ParseState` | sdk/windows-cpp/src/store.cpp:74-92 | assigns the fields found and leaves the others |
| `JsonEscape.EscapeJson` | sdk/windows-cpp/src/sdk.cpp:573-587 | the loop of json_escape |
| `JsonEscape.EscapedInverse` | sdk/windows-cpp/src/sdk.cpp:573-587 | the client's own parser undoes json_escape on every string |
| `JsonEscape.EscapedHasNoControls` | sdk/windows-cpp/src/sdk.cpp:573-587 | its output holds no control character (section 7 of RFC 8259) |
| `JsonEscape.EscHasNoControls` | sdk/windows-cpp/src/store.cpp:38-46 | the output of esc meets that rule if and only if newline is the only control character of the input |
| `JsonEscape.TabIsCopied` | sdk/windows-cpp/src/store.cpp:38-46 | a tab is copied as it is |
| `Base64.Encode` | sdk/windows-cpp/src/util.cpp:12-26 | the text whose base-64 number is the bytes' number, filled with zero bits |
| `Base64.Decode` | sdk/windows-cpp/src/util.cpp:37-57 | succeeds exactly on base64url characters, up to the first "=", and yields their whole bytes |
| `Base64.RoundTrip` | sdk/windows-cpp/src/util.cpp:12-57 | decoding what was encoded gives the bytes back |
| `Base64.AlphabetIs` | sdk/windows-cpp/src/util.cpp:12-35 | the digits are A-Z, a-z, 0-9, minus and underline (table 2 of RFC 4648) |
| `Base64.Examples` | sdk/windows-cpp/src/util.cpp:12-26 | two bytes are spelt as in section 10 of RFC 4648 |
| `Base64.EncodingUnique` | sdk/windows-cpp/src/util.cpp:12-26 | bytes have one encoding |
| `X25519.X25519ScalarMult` | sdk/windows-cpp/src/x25519.cpp:32-86 | the loop with deferred swaps returns what the plain recursive ladder over the clamped bits returns |
| `X25519.X25519Public` | sdk/windows-cpp/src/x25519.cpp:89-93 | the same at base point 9 |
| `X25519.ClampScalar` | sdk/windows-cpp/src/x25519.cpp:13-17 | clamping in place |
| `X25519.Iterate` | sdk/windows-cpp/src/x25519.cpp:52-79 | making the pending swap and the new one together, and owing the new one, is one step of the plain ladder |
| `X25519.Step` | sdk/windows-cpp/src/x25519.cpp:57-79 | one iteration is the doubling and the differential addition |
| `X25519.CombineSymmetric` | sdk/windows-cpp/src/x25519.cpp:54-79 | swapping the pair only negates the difference, so deferring swaps is sound |
| `Curve.DoubleMeans` | sdk/windows-cpp/src/x25519.cpp:57-79 | the doubling is that of the curve with coefficient 486662, in plain arithmetic modulo the prime |
| `Curve.CombineMeans` | sdk/windows-cpp/src/x25519.cpp:57-75 | the differential addition is that of the curve, in plain arithmetic modulo the prime |
| `Curve.PrimeIs` | sdk/windows-cpp/src/x25519.cpp:19-28 | the prime is 2^255 - 19 |
| `Curve.BaseSpellsNine` | sdk/windows-cpp/src/x25519.cpp:89-93 | the base point has u-coordinate 9, least significant byte first |
| `Curve.ClampingKeepsTheRest` | sdk/windows-cpp/src/x25519.cpp:13-17 | clamping changes the low three and the high two bits only |
| `Curve.TopBitIgnored` | sdk/windows-cpp/src/x25519.cpp:32-50 | the top bit of a received coordinate is ignored |
| `X25519.LadderStands` | sdk/windows-cpp/src/x25519.cpp:52-79 | the two points always stand for n and n + 1 times the input, n being the bits read |
| `X25519.ClampedScalar` | sdk/windows-cpp/src/x25519.cpp:13-17 | the bits read spell the clamped number, a multiple of 8 with bit 254 set |
| `X25519.ScalarMultMeans` | sdk/windows-cpp/src/x25519.cpp:32-86 | the result is the multiple by the clamped scalar, where the formulas obey the group law |
| `X25519.KeyAgreement` | sdk/windows-cpp/src/x25519.cpp:32-93 | both sides compute the same shared bytes |
| `DeviceAuth.MessageInjective` | apps/license-api/internal/crypto/sigtoken.go:132-148 | the signed message determines the upper-cased method, path, numbers, nonce and body hash, for methods and paths without bars, whatever upper-casing does |
| `DeviceAuth.SameMessage` | sdk/windows-cpp/src/sdk.cpp:104-110 | client and server form the same text exactly when they agree on the upper-cased method and the body digest |
| `DeviceAuth.HeaderSpelledOut` | apps/license-api/internal/service/httpsig.go:126-129 | the header text, key by key |
| `DeviceAuth.RefusedExactly` | apps/license-api/internal/service/httpsig.go:40-83 | a header is refused exactly for a wrong version, a bad word, or a field that is missing or zero |
| `DeviceAuth.SignedNumbers` | apps/license-api/internal/service/httpsig.go:51-66 | an explicit plus is read, and what does not fit 64 bits is not |
| `DeviceAuth.ParseDeviceSignature` | apps/license-api/internal/service/httpsig.go:40-83 | the field loop computes the specified parse |
| `DeviceAuth.HeaderInverse` | apps/license-api/internal/service/httpsig.go:126-129 | parsing a printed header gives the value back if and only if the value is canonical |
| `DeviceAuth.ParsedCanonical` | apps/license-api/internal/service/httpsig.go:76-83 | every accepted header, whatever its text, holds canonical values |
| `DeviceAuth.Header` | sdk/windows-cpp/src/sdk.cpp:119-121 | the header text with the base64url encoding of the signature |
| `Token.MintedVerifies` | apps/license-api/internal/crypto/sigtoken.go:63-115 | a minted token is accepted with its claims from one minute before its issue until its expiry, and refused with the matching error otherwise |
| `Token.MintThenVerify` | apps/license-api/internal/crypto/sigtoken.go:63-115 | whatever minting returns is accepted, with its claims, exactly from a minute before its issue until its expiry |
| `Token.AcceptedExactly` | apps/license-api/internal/crypto/sigtoken.go:83-115 | any text is accepted with given claims if and only if a known key signed the part that spells them and the time allows it |
| `Token.ForgedRefused` | apps/license-api/internal/crypto/sigtoken.go:106-108 | a well-formed token of a known key is answered with a bad signature exactly if the signature does not fit |
| `Token.VerifyToken` | apps/license-api/internal/crypto/sigtoken.go:83-115 | the checks in order |
| `Token.MintToken` | apps/license-api/internal/crypto/sigtoken.go:63-79 | prefix, claims and signature parts, or the error of the step that failed |
| `Version.CompareVersion` | apps/license-api/internal/service/service.go:156-188 | the loop compares the keys of the two strings |
| `Version.TotalPreorder` | apps/license-api/internal/service/service.go:153-188 | mirrored, transitive, total; equality of keys is equivalence; malformed strings form one lowest class |
| `Version.CompareMeans` | apps/license-api/internal/service/service.go:166-188 | valid versions compare as the first differing numbers do, and are equal exactly if none differ |
| `Version.VersionExamples` | apps/license-api/internal/service/service.go:153-155 | digits between single dots, and nothing else |
| `Lockout.LoginExactly` | apps/license-api/internal/service/adminauth.go:52-81 | each answer exactly when, and what it leaves in the count and the lock: five failures, fifteen minutes |
| `Lockout.GuessesBounded` | apps/license-api/internal/service/adminauth.go:55-79 | any 15 minutes see at most 5 failed checks, and any interval of length T at most 5 plus T over 15 minutes |
| `Lockout.FailuresCounted` | apps/license-api/internal/store/adminstore.go:53-60 | the row counts the failures since the last success and is locked after the latest from the fifth on |
| `Lockout.AdminRow.AdminLogin` | apps/license-api/internal/service/adminauth.go:42-81 | the login checks in order |
| `Lockout.AdminRow.OnLoginFailed` | apps/license-api/internal/store/adminstore.go:53-60 | count and lock |
| `Lockout.AdminRow.OnLoginSuccess` | apps/license-api/internal/store/adminstore.go:46-51 | reset |

## Left out

- Interleavings inside one administrative call, clock skew between replicas, calendar months and time
  zones: fixed by the assumptions above.
- Creating and retiring products, creating plans, agents and users, importing cards, notes, product
  grants: they add no hard invariant.
- Seats and last_seq inside the licensing state: `Seats.dfy` and `Replay.dfy` treat them on their own,
  with the plan's limits fixed while seats are held.
- Bans, risk events, audit rows, activation and license event rows: they only refuse more or append.
- The range of timestamps and of policy versions in the database, and service calls whose lease cannot be signed, are not modelled.
- Envelope encryption, HMAC lookups, Argon2, TOTP, Ed25519 and ECDSA, platform key stores: assumed.
- UTF-16 and console conversions, card code formatting and prefixes, configuration: no hard property.
- HTTP handlers, the administration console, the Python client, metrics and deployment.
- Retries inside the Redis client library: a lost reply is modelled, a repeated command is not.
- Services.Service.Heartbeat: last_seq and the heartbeat metadata of the device row are not written here (`Replay.Guard.BumpDeviceHeartbeat` models last_seq), and the reply of the seat script is an input.
- Services.Service.Deactivate: dropping the Redis seat is modelled in `Seats.Online.DropOnline` only.
- Services.Service.UnbindDevice: dropping the Redis seat is modelled in `Seats.Online.DropOnline` only.
- Services.Service.Redeem: requires that a public key has one active device row, as the unique index of migration 0008 does where it could be created; every run keeps this (`PubsStayUnique`).
- Store.Queries.GetDeviceByPub: without that index the latest bound of several rows would be taken; the model finds any of them.
- Services.Service.CreateCardBatch: whether the card prefix is well-formed is an input; the prefix itself and the text of the cards are not modelled.
- Lockout.AdminRow.AdminLogin: an unknown user name has no row to change and is not modelled, nor is the session that a success creates.
- Version.CompareVersion: strconv.Atoi's saturation is modelled at 64 bits.
- Json.Parser.ParseNum: which texts strtod takes is a parameter, so numbers with fractions are read but their value is not computed.
