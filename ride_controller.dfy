/**
 * The ride controller's operations on pools: the input guard of a ride request, the price
 * estimate, a driver accepting a pool, and a passenger cancelling their membership.
 */
module RideController {
  import opened Wrappers
  import opened PoolModel
  import Pricing
  import Matching

  /** A GeoJSON point as it arrives in a request body; the coordinates may be missing. */
  datatype GeoJsonPoint = GeoJsonPoint(coordinates: Option<seq<real>>)

  /** A ride request body; every field may be missing. */
  datatype RequestBody = RequestBody(
    pickupLocation: Option<GeoJsonPoint>,
    terminal: Option<string>,
    luggageCount: Option<int>,
    seatsNeeded: Option<int>)

  /** The guard of a ride request: a pickup with coordinates and a non-empty terminal are required. */
  function ValidateRideRequest(body: RequestBody): (r: Result<RequestBody, Error>)
    ensures r.Ok? <==>
      && body.pickupLocation.Some? && body.pickupLocation.value.coordinates.Some?
      && body.terminal.Some? && body.terminal.value != ""
    ensures r.Ok? ==> r.value == body
    ensures r.Err? ==> r.error == InvalidRequest
  {
    if body.pickupLocation.None? || body.pickupLocation.value.coordinates.None?
       || body.terminal.None? || body.terminal.value == "" then
      Err(InvalidRequest)
    else
      Ok(body)
  }

  /**
   * The price estimate in cents for a distance and an optional seat count: the baseline
   * surge, one passenger unless a count is given, and no estimate without a distance.
   */
  function EstimatePrice(distance: Option<real>, seats: Option<int>): (r: Result<int, Error>)
    ensures r.Err? <==> distance.None?
    ensures r.Err? ==> r.error == DistanceRequired
    ensures r.Ok? ==>
      var undiscounted := Pricing.BaseFare + distance.value * Pricing.BaseRatePerKm;
      var amount := if seats.Some? && seats.value > 1 then undiscounted * Pricing.PoolingDiscount else undiscounted;
      r.value as real - 0.5 <= amount * 100.0 < r.value as real + 0.5
  {
    if distance.None? then Err(DistanceRequired)
    else Ok(Pricing.CalculateFare(distance.value, Pricing.DefaultSurge, if seats.Some? then seats.value else 1))
  }

  /** Two pools that differ at most in their driver and their status. */
  predicate SameExceptDriverAndStatus(a: RidePool, b: RidePool) {
    && a.passengers == b.passengers && a.startLocation == b.startLocation && a.terminal == b.terminal
    && a.totalSeats == b.totalSeats && a.seatsRemaining == b.seatsRemaining
    && a.luggageCapacity == b.luggageCapacity && a.luggageRemaining == b.luggageRemaining
  }

  /** A driver accepting the pool found (or not) under the requested id. */
  function Accept(found: Option<RidePool>, user: UserId): (r: Result<RidePool, Error>)
    ensures found.None? ==> r == Err(NotFound)
    ensures found.Some? && found.value.status != Open ==> r == Err(NoLongerAvailable)
    ensures r.Ok? <==> found.Some? && found.value.status == Open
    ensures r.Ok? ==>
      && r.value.driver == Some(user) && r.value.status == InProgress
      && SameExceptDriverAndStatus(found.value, r.value)
  {
    if found.None? then Err(NotFound)
    else if found.value.status != Open then Err(NoLongerAvailable)
    else Ok(found.value.(driver := Some(user), status := InProgress))
  }

  /** A successful outcome turns into a persistence failure when the store's write throws. */
  function Persisted(r: Result<RidePool, Error>, saveFails: bool): Result<RidePool, Error> {
    if r.Ok? && saveFails then Err(PersistenceFailure) else r
  }

  /** Accepts a pool for a driver and saves it; a declined accept changes nothing. */
  method AcceptRide(store: PoolStore, id: PoolId, user: UserId, saveFails: bool) returns (r: Result<RidePool, Error>)
    modifies store
    ensures r == Persisted(Accept(Lookup(old(store.pools), id), user), saveFails)
    ensures store.pools == if r.Ok? then old(store.pools)[id := r.value] else old(store.pools)
  {
    var found := store.FindById(id);
    if found.None? {
      return Err(NotFound);
    }
    var pool := found.value;
    if pool.status != Open {
      return Err(NoLongerAvailable);
    }
    pool := pool.(driver := Some(user));
    pool := pool.(status := InProgress);
    var saved := store.Save(id, pool, saveFails);
    if !saved {
      return Err(PersistenceFailure);
    }
    return Ok(pool);
  }

  /** The index of the first membership of a user, if any. */
  function FindMember(ps: seq<Member>, user: UserId): (k: Option<nat>)
    ensures k.Some? ==> k.value < |ps| && ps[k.value].passengerId == user
    ensures k.Some? ==> forall j :: 0 <= j < k.value ==> ps[j].passengerId != user
    ensures k.None? ==> forall j :: 0 <= j < |ps| ==> ps[j].passengerId != user
  {
    if ps == [] then None
    else if ps[0].passengerId == user then Some(0)
    else match FindMember(ps[1..], user)
      case None => None
      case Some(k) => Some(k + 1)
  }

  function Min(a: int, b: int): int {
    if a <= b then a else b
  }

  /** Seats given back for a member: its seatsNeeded, or one when that is zero. */
  function SeatsToRestore(m: Member): int {
    if m.seatsNeeded != 0 then m.seatsNeeded else 1
  }

  /** A pool after the membership at index k is withdrawn: capacity restored up to the totals, status reverted. */
  function Withdraw(pool: RidePool, k: nat): (r: RidePool)
    requires k < |pool.passengers|
    ensures |r.passengers| + 1 == |pool.passengers|
    ensures r.passengers == pool.passengers[..k] + pool.passengers[k+1..]
    ensures r.seatsRemaining <= pool.totalSeats && r.luggageRemaining <= pool.luggageCapacity
    ensures SeatsToRestore(pool.passengers[k]) >= 0 ==> r.seatsRemaining >= Min(pool.totalSeats, pool.seatsRemaining)
    ensures pool.passengers[k].luggageCount >= 0 ==> r.luggageRemaining >= Min(pool.luggageCapacity, pool.luggageRemaining)
    ensures r.status == Completed <==> pool.status == Completed
    ensures r.status == Cancelled <==> pool.status == Cancelled
    ensures |r.passengers| == 0 && pool.status != Completed && pool.status != Cancelled ==> r.status == Open
    ensures r.driver == pool.driver && r.startLocation == pool.startLocation && r.terminal == pool.terminal
    ensures r.totalSeats == pool.totalSeats && r.luggageCapacity == pool.luggageCapacity
  {
    var passenger := pool.passengers[k];
    var rest := pool.(
      seatsRemaining := Min(pool.totalSeats, pool.seatsRemaining + SeatsToRestore(passenger)),
      luggageRemaining := Min(pool.luggageCapacity, pool.luggageRemaining + passenger.luggageCount),
      passengers := pool.passengers[..k] + pool.passengers[k+1..]);
    if |rest.passengers| == 0 then
      if rest.status != Completed && rest.status != Cancelled then rest.(status := Open) else rest
    else if rest.status == Locked && rest.seatsRemaining > 0 then rest.(status := Open)
    else rest
  }

  /** A user cancelling their membership in the pool found (or not) under the requested id. */
  function Cancel(found: Option<RidePool>, user: UserId): (r: Result<RidePool, Error>)
    ensures found.None? ==> r == Err(NotFound)
    ensures found.Some? && FindMember(found.value.passengers, user).None? ==> r == Err(NotAuthorized)
    ensures found.Some? && FindMember(found.value.passengers, user).Some? && found.value.status == Completed
            ==> r == Err(CannotCancelCompleted)
    ensures found.Some? && FindMember(found.value.passengers, user).Some? && found.value.status == Cancelled
            ==> r == Err(CannotCancelInStatus)
    ensures r.Ok? <==>
      && found.Some? && FindMember(found.value.passengers, user).Some?
      && found.value.status in {Open, Locked, InProgress}
  {
    if found.None? then Err(NotFound)
    else
      var pool := found.value;
      match FindMember(pool.passengers, user)
      case None => Err(NotAuthorized)
      case Some(k) =>
        if pool.status in {Open, Locked, InProgress, Completed} then
          if pool.status == Completed then Err(CannotCancelCompleted)
          else Ok(Withdraw(pool, k))
        else Err(CannotCancelInStatus)
  }

  /** Cancels a user's membership and saves the pool; a declined cancel changes nothing. */
  method CancelRide(store: PoolStore, id: PoolId, user: UserId, saveFails: bool) returns (r: Result<RidePool, Error>)
    modifies store
    ensures r == Persisted(Cancel(Lookup(old(store.pools), id), user), saveFails)
    ensures store.pools == if r.Ok? then old(store.pools)[id := r.value] else old(store.pools)
  {
    var found := store.FindById(id);
    if found.None? {
      return Err(NotFound);
    }
    var pool := found.value;
    var passengerIndex := FindMember(pool.passengers, user);
    if passengerIndex.None? {
      return Err(NotAuthorized);
    }
    var k := passengerIndex.value;
    if pool.status == Open || pool.status == Locked || pool.status == InProgress || pool.status == Completed {
      var passenger := pool.passengers[k];
      if pool.status == Completed {
        return Err(CannotCancelCompleted);
      }
      var seatsToRestore := if passenger.seatsNeeded != 0 then passenger.seatsNeeded else 1;
      pool := pool.(seatsRemaining := Min(pool.totalSeats, pool.seatsRemaining + seatsToRestore));
      pool := pool.(luggageRemaining := Min(pool.luggageCapacity, pool.luggageRemaining + passenger.luggageCount));
      pool := pool.(passengers := pool.passengers[..k] + pool.passengers[k+1..]);
      if |pool.passengers| == 0 {
        if pool.status != Completed && pool.status != Cancelled {
          pool := pool.(status := Open);
        }
      } else if pool.status == Locked && pool.seatsRemaining > 0 {
        pool := pool.(status := Open);
      }
      assert pool == Withdraw(found.value, k);
      var saved := store.Save(id, pool, saveFails);
      if !saved {
        return Err(PersistenceFailure);
      }
      return Ok(pool);
    }
    return Err(CannotCancelInStatus);
  }

  /** An accepted pool cannot be accepted again. */
  lemma AcceptIsOnce(found: Option<RidePool>, user: UserId, other: UserId)
    requires Accept(found, user).Ok?
    ensures Accept(Some(Accept(found, user).value), other) == Err(NoLongerAvailable)
  {
  }

  /** Accepting keeps the pool invariant: it touches neither members nor capacities. */
  lemma AcceptPreservesConsistency(found: Option<RidePool>, user: UserId)
    requires found.Some? && Consistent(found.value)
    ensures Accept(found, user).Ok? ==> Consistent(Accept(found, user).value)
  {
  }

  /**
   * A successful cancel removes exactly the user's first membership, keeping the others in
   * order, and gives back its seats (one when it recorded none) and luggage, capped at the totals.
   */
  lemma CancelWithdrawsFirstMembership(p: RidePool, user: UserId)
    ensures var r := Cancel(Some(p), user);
      r.Ok? ==>
        exists k :: 0 <= k < |p.passengers|
          && p.passengers[k].passengerId == user
          && (forall j :: 0 <= j < k ==> p.passengers[j].passengerId != user)
          && r.value.passengers == p.passengers[..k] + p.passengers[k+1..]
          && multiset(r.value.passengers) + multiset{p.passengers[k]} == multiset(p.passengers)
          && r.value.seatsRemaining == Min(p.totalSeats, p.seatsRemaining + SeatsToRestore(p.passengers[k]))
          && r.value.luggageRemaining == Min(p.luggageCapacity, p.luggageRemaining + p.passengers[k].luggageCount)
          && r.value.driver == p.driver && r.value.totalSeats == p.totalSeats
          && r.value.luggageCapacity == p.luggageCapacity
          && r.value.startLocation == p.startLocation && r.value.terminal == p.terminal
  {
    var r := Cancel(Some(p), user);
    if r.Ok? {
      var k := FindMember(p.passengers, user).value;
      assert p.passengers == p.passengers[..k] + [p.passengers[k]] + p.passengers[k+1..];
    }
  }

  /**
   * After a successful cancel an emptied pool is open, a locked pool with a free seat is
   * open, and any other pool keeps its status; it is never completed or cancelled.
   */
  lemma CancelStatusReversion(p: RidePool, user: UserId)
    ensures var r := Cancel(Some(p), user);
      r.Ok? ==>
        && (|r.value.passengers| == 0 ==> r.value.status == Open)
        && (p.status == Locked && r.value.seatsRemaining > 0 ==> r.value.status == Open)
        && (|r.value.passengers| > 0 && !(p.status == Locked && r.value.seatsRemaining > 0) ==> r.value.status == p.status)
        && r.value.status != Completed && r.value.status != Cancelled
  {
  }

  /** Cancelling keeps the pool invariant, and the cap never bites: exactly the member's seats and luggage come back. */
  lemma CancelPreservesConsistency(p: RidePool, user: UserId)
    requires Consistent(p)
    ensures var r := Cancel(Some(p), user);
      r.Ok? ==>
        && Consistent(r.value)
        && r.value.seatsRemaining + SeatsTaken(r.value.passengers) == p.seatsRemaining + SeatsTaken(p.passengers)
        && r.value.seatsRemaining > p.seatsRemaining
  {
    var r := Cancel(Some(p), user);
    if r.Ok? {
      var k := FindMember(p.passengers, user).value;
      var rest := p.passengers[..k] + p.passengers[k+1..];
      TakenRemoveAt(p.passengers, k);
      assert WellFormedMembers(rest) by {
        forall i | 0 <= i < |rest|
          ensures rest[i].seatsNeeded >= 1 && rest[i].luggageCount >= 0
        {
          if i < k { assert rest[i] == p.passengers[i]; } else { assert rest[i] == p.passengers[i + 1]; }
        }
      }
      TakenLowerBound(rest);
      assert r.value.passengers == rest;
    }
  }

  /** Cancelling the sole member of a consistent pool restores full capacity and reopens it. */
  lemma CancelSoleMemberRestoresPool(p: RidePool, user: UserId)
    requires Consistent(p) && |p.passengers| == 1
    ensures var r := Cancel(Some(p), user);
      r.Ok? ==>
        && r.value.passengers == [] && r.value.status == Open
        && r.value.seatsRemaining == p.totalSeats && r.value.luggageRemaining == p.luggageCapacity
  {
    CancelPreservesConsistency(p, user);
    var r := Cancel(Some(p), user);
    if r.Ok? {
      assert r.value.passengers == [];
    }
  }

  /** Cancelling from a consistent locked pool always frees a seat and so reopens it. */
  lemma CancelReopensLockedPool(p: RidePool, user: UserId)
    requires Consistent(p) && p.status == Locked
    ensures Cancel(Some(p), user).Ok? ==> Cancel(Some(p), user).value.status == Open
  {
    CancelPreservesConsistency(p, user);
    CancelStatusReversion(p, user);
  }

  /** Cancelling right after joining an open pool gives back the pool as it was before the join. */
  lemma CancelUndoesJoin(p: RidePool, m: Member)
    requires Consistent(p) && p.status == Open
    requires m.seatsNeeded >= 1 && m.luggageCount >= 0
    requires p.seatsRemaining >= m.seatsNeeded && p.luggageRemaining >= m.luggageCount
    requires FindMember(p.passengers, m.passengerId).None?
    ensures Cancel(Some(Matching.Commit(p, m)), m.passengerId) == Ok(p)
  {
    var q := Matching.Commit(p, m);
    assert q.passengers == p.passengers + [m];
    var k := FindMember(q.passengers, m.passengerId);
    assert q.passengers[|p.passengers|] == m;
    assert k == Some(|p.passengers|);
    assert q.passengers[..|p.passengers|] + q.passengers[|p.passengers| + 1..] == p.passengers;
  }
}
