# Airport ride pooling — a verified model of the matching engine

This project models the core of an airport ride-pooling service. Travellers heading to the
same terminal are grouped into shared pools. The model covers four parts:

- **Matching engine** (`pooling.dfy`, module `Matching`). It walks the nearby open pools
  nearest-first and pre-checks seats and luggage on the snapshot the query returned. It then
  takes the pool's lock without waiting, re-reads and re-validates the pool, and rejects a
  pickup more than 5 km from the pool's start. On commit it appends the passenger, reduces
  the capacities and locks a full pool. If no pool survives, it creates a new pool for the
  passenger. The lock service is modelled as a key space of held pool locks (`LockTable`):
  acquire is set-if-absent, release is an unconditional delete.
- **Pool lifecycle** (`ride_controller.dfy`, module `RideController`). A driver accepts an
  open pool. A passenger cancels their membership; the pool gets back its capacity, capped at
  the totals, and a locked or emptied pool reopens. The module also covers the input guard of
  a ride request and the price estimate.
- **Pricing** (`pricing.dfy`, module `Pricing`). The fare is base plus rate times distance,
  times surge, with a 0.8 pooling discount, rounded to cents. The surge policy maps demand and
  supply to a multiplier.
- **Pool record** (`ride_pool.dfy`, module `PoolModel`). The RidePool document, its members,
  the status enum, the schema defaults and the capacity invariant. The collection the
  documents live in is the class `PoolStore` with `FindById`, `Save` and `Create`.

Every state-changing method (`Match`, `AcceptRide`, `CancelRide`) is proved equal to a pure
function of the old state (`MatchSpec`, `Accept`, `Cancel`). The matching engine takes a
`Revision` argument: `AsWritten` is the code as it stands, and `Corrected` applies the two
corrections listed under Findings. Both are verified against the same specification function,
and the promises that hold for both are proved for both. The lemmas state what the
engine promises about those functions: the first surviving candidate wins, at most one pool
changes, capacities stay consistent, cancelling undoes a join, and so on.

Design choices:
- Pool documents are values. findById hands out a copy, the code mutates the copy field by
  field, and save writes it back. The methods do exactly that on a local value and then call
  `PoolStore.Save`.
- Fares are whole cents computed from exact reals. `Math.round` is modelled as
  `floor(x + 0.5)`.
- The great-circle distance is a function parameter `(Point, Point) -> real`. Only the
  comparison with 5 km matters to matching.
- A failing store write is an input (`Faults`, `saveFails`). This lets the model show that
  the lock is released on the exception path too.
- The candidates are an input sequence: the result of the nearby-pools query. `Match`
  requires what that query guarantees: the candidates are open, belong to the request's
  terminal and come nearest-first.
- Accept is allowed only from `open`, as the code has it. A `locked` pool cannot be accepted.

## Model

| member | source | states |
|---|---|---|
| `PoolModel.SchemaDefaults` | src/models/RidePool.js:23-64 | a pool created with no explicit fields is open, driverless, empty, has 4 seats and 4 luggage places in total and remaining, and is consistent |
| `PoolModel.MaterializeMember` | src/models/RidePool.js:4-21 | a member stored without seatsNeeded holds 1 seat, with it holds the given number; every given field is kept and the dropoff is an empty point |
| `PoolModel.Materialize` | src/models/RidePool.js:3-64 | a stored pool has no driver; its status is open when the creator leaves it out, and each of totalSeats, seatsRemaining, luggageCapacity and luggageRemaining is 4 when left out; every given field is kept, and every member is stored by the member schema |
| `PoolModel.Lookup` | src/services/poolingService.js:44 | a lookup finds a document exactly when the id is stored, and what it finds is the stored document |
| `PoolModel.HttpStatus` | src/controllers/rideController.js:83-167 | not-found is answered 404 and a non-member cancel 403, a thrown store error 500, and every other declined operation 400 |
| `PoolModel.PoolStore.FindById` | src/services/poolingService.js:44 | the re-read returns the stored document for a known id and nothing for an unknown one |
| `PoolModel.PoolStore.Save` | src/services/poolingService.js:96 | a save either writes the whole document under its id or throws and changes nothing |
| `PoolModel.PoolStore.Create` | src/services/poolingService.js:111-124 | a create either adds the new document under a fresh id or throws and changes nothing |
| `Pricing.PreRoundFare` | src/services/pricingService.js:24-30 | for a non-negative distance and surge the amount is never negative, and sharing takes at most the 20% discount off the solo amount and never adds to it |
| `Pricing.RoundToCents` | src/services/pricingService.js:32 | the result is the whole number of cents nearest the amount, halves rounded up |
| `Pricing.CalculateFare` | src/services/pricingService.js:24-33 | the fare in cents is within half a cent of 100 times (5 + 2 × km) × surge, times 0.8 when more than one passenger shares it |
| `Pricing.ZeroDistanceCostsBaseFare` | src/services/pricingService.js:24-32 | with the default surge 1.0 and count 1, a zero-distance fare is the base fare 5.00 |
| `Pricing.PoolingDiscountApplies` | src/services/pricingService.js:28-30 | the pre-rounding fare is 0.8 times the single-passenger fare exactly when the count exceeds 1 |
| `Pricing.FareLinearInDistance` | src/services/pricingService.js:25 | the pre-rounding fare grows by rate × surge × discount per km |
| `Pricing.RoundingMonotone` | src/services/pricingService.js:32 | rounding to cents preserves order |
| `Pricing.FareMonotoneInDistance` | src/services/pricingService.js:24-33 | under a non-negative surge a longer trip never costs fewer cents |
| `Pricing.SurgeForRatio` | src/services/pricingService.js:37-40 | the multiplier is 1.5 exactly above ratio 2, 1.25 exactly in (1.5, 2], 1.0 exactly at or below 1.5 |
| `Pricing.GetSurgeMultiplier` | src/services/pricingService.js:35-41 | the multiplier is one of 1.0, 1.25, 1.5, 2.0; it is 2.0 exactly when supply is 0; otherwise it follows the demand/supply thresholds |
| `Pricing.SurgeMonotoneInRatio` | src/services/pricingService.js:37-40 | a higher ratio never gives a lower multiplier |
| `Pricing.SurgeMonotoneInDemand` | src/services/pricingService.js:35-41 | with positive supply more demand never gives a lower multiplier |
| `Pricing.SurgeBounded` | src/services/pricingService.js:35-41 | the multiplier lies between 1.0 and 2.0 |
| `Matching.StillFits` | src/services/poolingService.js:45-49 | a pool passes re-validation exactly when it is still stored, open and has the seats, and, in the corrected engine, also the luggage room |
| `Matching.Assess` | src/services/poolingService.js:33-71 | a candidate failing the snapshot pre-check is unfit, one whose lock is held is contended, and a candidate is accepted exactly when it passes the pre-check, is not locked, passes re-validation on the stored pool and starts within 5 km of the pickup |
| `Matching.FirstAccepted` | src/services/poolingService.js:31-108 | the candidate chosen is accepted and every earlier one is not; none is chosen only when no candidate is accepted |
| `Matching.Commit` | src/services/poolingService.js:80-94 | a join appends the member, takes its seats and luggage off what remains, locks the pool when no seat is left (a locked pool stays locked), and leaves driver, location, terminal and totals alone |
| `Matching.CommitConservesCapacity` | src/services/poolingService.js:80-90 | a join moves exactly the member's seats and luggage from remaining to taken, so remaining plus taken is unchanged |
| `Matching.NewPool` | src/services/poolingService.js:111-124 | a created pool is open and driverless, holds the passenger alone, starts at the pickup and has 4 minus the request in seats and luggage; as written the founder records 1 seat, corrected the seats requested |
| `Matching.MatchSpec` | src/services/poolingService.js:24-128 | a failed match is a persistence failure and leaves the pools as they were; a successful one stores exactly the pool it returns, under the joined pool's id or the new id |
| `Matching.LockTable.Acquire` | src/services/poolingService.js:12-17 | acquiring succeeds exactly when no lock on the pool was held; the lock is held afterwards |
| `Matching.LockTable.Release` | src/services/poolingService.js:19-22 | releasing removes the pool's lock whoever holds it |
| `Matching.Match` | src/services/poolingService.js:24-128 | for either engine revision, the result and the stored pools afterwards are those of MatchSpec; the held locks after the match are exactly those held before, on success, skip and thrown error alike |
| `Matching.QuotedFares` | src/services/poolingService.js:78-119 | a joining passenger is quoted 24.00 (30.00 into an empty pool) and a founder 25.00 |
| `Matching.CommitPreservesConsistency` | src/services/poolingService.js:80-94 | a join into a pool with room keeps the capacity identity and the bounds |
| `Matching.CommitEffect` | src/services/poolingService.js:80-94 | a join appends exactly one member, subtracts its seats and luggage, sets locked exactly when no seat remains, and leaves driver, location, terminal and totals alone |
| `Matching.NewPoolIsConsistent` | src/services/poolingService.js:111-124 | a pool the corrected engine creates for a request of 1 to 4 seats and 0 to 4 bags satisfies the capacity identity |
| `Matching.MatchBreaksSeatIdentityAsWritten` | src/services/poolingService.js:114-121 | as written, a match that creates a pool for a 2-seat request stores a pool with 2 seats remaining whose member records 1 seat, so the stored pools are no longer consistent |
| `Matching.MatchOverdrawsLuggageAsWritten` | src/services/poolingService.js:33-99 | as written, a match whose only candidate ran out of luggage room after the snapshot joins it and leaves -1 luggage remaining; the corrected engine passes it over and creates a pool |
| `Matching.MatchJoinsFirstSurvivor` | src/services/poolingService.js:31-99 | in either revision, the pool joined is the first candidate in order that is accepted; a new pool is created only when no candidate is accepted |
| `Matching.MatchSkipsContendedAndUnfit` | src/services/poolingService.js:33-40 | in either revision, a pool locked by someone else, or failing the pre-check, is neither joined nor changed |
| `Matching.MatchTouchesOnePool` | src/services/poolingService.js:80-124 | in either revision, a match changes only the pool it joins or creates; a failed match changes nothing |
| `Matching.MatchJoinEffect` | src/services/poolingService.js:44-99 | in either revision a joined pool was open and within 5 km, is the stored pool with the passenger's membership committed, gains exactly the passenger at the end, loses the requested seats without going below 0 and the requested luggage, and is locked exactly when full; in the corrected engine luggage also stays at or above 0 |
| `Matching.MatchNewPoolShape` | src/services/poolingService.js:111-127 | in either revision a created pool is open and driverless, holds only the passenger, starts at the pickup and has 4 minus the request in seats and luggage; its founder records 1 seat as written and the seats requested when corrected |
| `Matching.MatchPreservesConsistency` | src/services/poolingService.js:24-128 | in the corrected engine, if every stored pool is consistent, every pool is still consistent after the match |
| `Matching.JoinedIsNearestSurvivor` | src/services/poolingService.js:29-31 | in either revision, with candidates nearest-first, no accepted candidate is nearer than the pool joined |
| `RideController.ValidateRideRequest` | src/controllers/rideController.js:19-24 | a request is accepted exactly when it has a pickup with coordinates and a non-empty terminal |
| `RideController.EstimatePrice` | src/controllers/rideController.js:57-64 | without a distance the estimate is declined; otherwise it is the rounded fare at surge 1.0, discounted exactly when more than one seat is given |
| `RideController.Accept` | src/controllers/rideController.js:79-93 | accept declines a missing pool (404) and any pool not open; it succeeds exactly on an open pool, setting the driver and in-progress and nothing else |
| `RideController.AcceptRide` | src/controllers/rideController.js:79-93 | the result and the stored pools are those of Accept, then saved; a declined or failed accept changes nothing |
| `RideController.Withdraw` | src/controllers/rideController.js:145-161 | withdrawing removes one membership and keeps the others in order, never restores capacity above the totals or below what remained, never makes a pool completed or cancelled or undoes either, reopens an emptied pool, and leaves driver, location, terminal and totals alone |
| `RideController.FindMember` | src/controllers/rideController.js:131-135 | the index found is the user's first membership; none is found only when the user is not a member |
| `RideController.Cancel` | src/controllers/rideController.js:122-167 | cancel declines a missing pool, a non-member (403), a completed pool and a cancelled pool; it succeeds exactly for a member of an open, locked or in-progress pool |
| `RideController.CancelRide` | src/controllers/rideController.js:122-167 | the result and the stored pools are those of Cancel, then saved; a declined or failed cancel changes nothing |
| `RideController.AcceptIsOnce` | src/controllers/rideController.js:87-92 | an accepted pool cannot be accepted again |
| `RideController.AcceptPreservesConsistency` | src/controllers/rideController.js:91-93 | accepting keeps the capacity invariant |
| `RideController.CancelWithdrawsFirstMembership` | src/controllers/rideController.js:132-151 | a cancel removes exactly the user's first membership, keeps the rest in order, restores seats (1 if it recorded 0) and luggage capped at the totals, and leaves driver, start location, terminal and totals alone |
| `RideController.CancelStatusReversion` | src/controllers/rideController.js:153-161 | after a cancel an emptied pool is open, a locked pool with a free seat is open, any other keeps its status, and none is completed or cancelled |
| `RideController.CancelPreservesConsistency` | src/controllers/rideController.js:145-151 | on a consistent pool the cap never bites: exactly the member's seats and luggage return and the pool stays consistent |
| `RideController.CancelSoleMemberRestoresPool` | src/controllers/rideController.js:146-157 | cancelling the sole member empties the pool, reopens it and restores full capacity |
| `RideController.CancelReopensLockedPool` | src/controllers/rideController.js:158-161 | cancelling from a consistent locked pool always reopens it |
| `RideController.CancelUndoesJoin` | src/controllers/rideController.js:145-161 | cancelling right after joining an open pool returns the pool exactly as it was before the join |

## Left out

- Notifications (the `rideMatched`, `rideAccepted` and `rideError` events) and the job queue and worker are left out. They are I/O with no effect on pool state.
- `getPool` and `getOpenPools` are left out. They are read-only queries.
- Authentication and the shape of the acting user's identity are left out. Users are plain ids.
- The nearby-pools query is left out. Its result is the `candidates` input of `Match`.
- `calculateDistance` (haversine over floating point) is left out. It is the `dist` parameter, and nothing about it is assumed.
- Lock expiry after 2000 ms and the 24-hour pool expiry are left out, because the model has no clock. So is the unfenced-release race that expiry makes possible. The lock key prefix `lock:pool:` is modelled by keying locks on the pool id.
- Concurrency between worker instances is left out. Other workers appear only as locks already held when a match starts, and as snapshots that differ from the stored pools.
- A `findById` that throws during matching is left out. Only a throwing save or create is modelled.
- The optional `route`, `startTime` and `createdAt` fields are left out; the core never sets them. A member's `dropoffLocation` is never given by the core, so the schema stores it as a point with no coordinates; the model writes that empty point as `None`.
- Numbers are modelled as exact integers (counts) and reals (money, distances). IEEE rounding, `NaN` and missing numeric fields in a request body are not modelled. A ride request's seats and luggage are taken as integers, because the request guard does not check them.
- `EstimatePrice` takes an already-parsed distance and seat count. A missing or empty query string is `None`.
- Matching.MatchPreservesConsistency: is stated for the corrected engine only, since the as-written engine breaks consistency (see Findings). It also requires a request of 1 to 4 seats and 0 to 4 bags. The source does not check this, and a larger request makes a new pool with negative capacity.
- RideController.CancelPreservesConsistency: requires every member to hold at least one seat. A member recorded with 0 seats gets 1 seat back on cancel, which breaks the identity.

## Findings

| source | as written | input that shows it | evidently intended | confidence | as-written member | corrected member |
|---|---|---|---|---|---|---|
| src/services/poolingService.js:45-49 | after the lock, the pool is re-validated for status and seats only | the snapshot has 2 luggage places; the re-read pool is open with 3 seats and 0 luggage; the request is 1 seat, 1 bag. The join leaves luggageRemaining = -1 | re-validate luggage as the pre-check does, so no join drives luggage negative | not executed; high | `Matching.MatchOverdrawsLuggageAsWritten` | `Matching.MatchJoinEffect` |
| src/services/poolingService.js:114-121 | the founder's membership omits seatsNeeded, so the schema default of 1 applies, while seatsRemaining becomes 4 − seatsNeeded | a founder requests 2 seats. The pool has 2 seats remaining but the member records 1, and 2 + 1 ≠ 4. A later cancel then gives back only 1 seat | record the founder's seatsNeeded, so the seats identity holds | not executed; high | `Matching.MatchBreaksSeatIdentityAsWritten` | `Matching.MatchPreservesConsistency` |
