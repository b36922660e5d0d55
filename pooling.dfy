/**
 * The matching engine: walk the nearby open pools nearest-first, pre-check seats and
 * luggage on the snapshot, take the pool's lock without waiting, re-read and re-validate
 * the pool, apply the detour threshold, then commit the passenger to the first pool that
 * survives; when none survives, create a pool for the passenger alone. The lock service is
 * the key space of held pool locks.
 */
module Matching {
  import opened Wrappers
  import opened PoolModel
  import Pricing

  /** A pickup farther than this from a pool's start location (in km) is not joined. */
  const MaxDetourKm: real := 5.0
  /** The distance and surge the engine passes when it prices a joining passenger. */
  const QuotedTripKm: real := 10.0
  const JoinSurge: real := 1.2
  /** The surge it passes when it prices the founder of a new pool. */
  const NewPoolSurge: real := 1.0

  /** The great-circle distance, in km, between two points; supplied by the pricing engine. */
  type Distance = (Point, Point) -> real

  /** A validated ride request. */
  datatype RideRequest = RideRequest(pickupLocation: Point, terminal: string, luggageCount: int, seatsNeeded: int)

  /** One pool as the nearby-pools query returned it: its id and the document as read then. */
  datatype Candidate = Candidate(id: PoolId, snapshot: RidePool)

  /** The engine's answer: the pool the passenger is now in, and whether it was just created. */
  datatype Matched = Matched(id: PoolId, pool: RidePool, isNew: bool)

  /** Which writes of the store throw during one match. */
  datatype Faults = Faults(saveFails: set<PoolId>, createFails: bool)

  /** What the nearby-pools query guarantees: open pools of the request's terminal, nearest first. */
  predicate NearbyOpenPools(candidates: seq<Candidate>, req: RideRequest, dist: Distance) {
    && (forall i :: 0 <= i < |candidates| ==>
          candidates[i].snapshot.status == Open && candidates[i].snapshot.terminal == req.terminal)
    && (forall i, j :: 0 <= i < j < |candidates| ==>
          dist(candidates[i].snapshot.startLocation, req.pickupLocation)
            <= dist(candidates[j].snapshot.startLocation, req.pickupLocation))
  }

  /** The lock-free pre-check on the snapshot. */
  predicate FitsSnapshot(c: Candidate, req: RideRequest) {
    c.snapshot.seatsRemaining >= req.seatsNeeded && c.snapshot.luggageRemaining >= req.luggageCount
  }

  /**
   * Which engine is meant: the code as written, or the code with the two corrections listed
   * under Findings (luggage re-validated after the lock, the founder's seats recorded).
   */
  datatype Revision = AsWritten | Corrected

  /**
   * The re-validation after the lock. As written it asks for a present, open pool with
   * enough seats; the corrected engine also asks for enough luggage room again.
   */
  function StillFits(rev: Revision, live: Option<RidePool>, req: RideRequest): (ok: bool)
    ensures ok ==> live.Some? && live.value.status == Open && live.value.seatsRemaining >= req.seatsNeeded
    ensures ok && rev == Corrected ==> live.value.luggageRemaining >= req.luggageCount
    ensures (live.Some? && live.value.status == Open && live.value.seatsRemaining >= req.seatsNeeded
             && (rev == AsWritten || live.value.luggageRemaining >= req.luggageCount)) ==> ok
  {
    && live.Some?
    && live.value.status == Open
    && live.value.seatsRemaining >= req.seatsNeeded
    && (rev == Corrected ==> live.value.luggageRemaining >= req.luggageCount)
  }

  /** Why a candidate was passed over, or that it was accepted. */
  datatype Verdict = Unfit | Contended | Stale | TooFar | Accepted

  /**
   * The verdict on one candidate, given the stored pools and the locks already held by
   * others when the match starts.
   */
  function Assess(rev: Revision, c: Candidate, pools: map<PoolId, RidePool>, held: set<PoolId>,
                  req: RideRequest, dist: Distance): (v: Verdict)
    ensures v == Unfit <==> !FitsSnapshot(c, req)
    ensures v == Contended <==> FitsSnapshot(c, req) && c.id in held
    ensures v == Accepted <==>
      && FitsSnapshot(c, req) && c.id !in held
      && c.id in pools && StillFits(rev, Some(pools[c.id]), req)
      && dist(pools[c.id].startLocation, req.pickupLocation) <= MaxDetourKm
  {
    if !FitsSnapshot(c, req) then Unfit
    else if c.id in held then Contended
    else if !StillFits(rev, Lookup(pools, c.id), req) then Stale
    else if dist(pools[c.id].startLocation, req.pickupLocation) > MaxDetourKm then TooFar
    else Accepted
  }

  /** The first candidate, from index `from` on, that is accepted. */
  function FirstAccepted(rev: Revision, candidates: seq<Candidate>, pools: map<PoolId, RidePool>, held: set<PoolId>,
                         req: RideRequest, dist: Distance, from: nat): (k: Option<nat>)
    requires from <= |candidates|
    ensures k.Some? ==> from <= k.value < |candidates|
    ensures k.Some? ==> Assess(rev, candidates[k.value], pools, held, req, dist) == Accepted
    ensures k.Some? ==> forall j :: from <= j < k.value ==> Assess(rev, candidates[j], pools, held, req, dist) != Accepted
    ensures k.None? ==> forall j :: from <= j < |candidates| ==> Assess(rev, candidates[j], pools, held, req, dist) != Accepted
    decreases |candidates| - from
  {
    if from == |candidates| then None
    else if Assess(rev, candidates[from], pools, held, req, dist) == Accepted then Some(from)
    else FirstAccepted(rev, candidates, pools, held, req, dist, from + 1)
  }

  /** The membership appended for a passenger joining a pool that already has `poolSize` members. */
  function JoinMember(passengerId: UserId, req: RideRequest, poolSize: int): Member {
    MaterializeMember(MemberDraft(passengerId, req.pickupLocation, req.terminal, req.luggageCount,
                                  Some(req.seatsNeeded), Pricing.CalculateFare(QuotedTripKm, JoinSurge, poolSize + 1)))
  }

  /**
   * A pool after a member joins it: the member is appended, the seats and luggage it holds
   * come off what remains, and the pool locks when no seat is left.
   */
  function Commit(p: RidePool, m: Member): (q: RidePool)
    ensures q.passengers == p.passengers + [m]
    ensures q.seatsRemaining + m.seatsNeeded == p.seatsRemaining
    ensures q.luggageRemaining + m.luggageCount == p.luggageRemaining
    ensures q.status == Locked <==> q.seatsRemaining == 0 || p.status == Locked
    ensures q.driver == p.driver && q.startLocation == p.startLocation && q.terminal == p.terminal
    ensures q.totalSeats == p.totalSeats && q.luggageCapacity == p.luggageCapacity
  {
    var q := p.(passengers := p.passengers + [m],
                seatsRemaining := p.seatsRemaining - m.seatsNeeded,
                luggageRemaining := p.luggageRemaining - m.luggageCount);
    if q.seatsRemaining == 0 then q.(status := Locked) else q
  }

  /** The draft the engine hands to the store for a new pool; `memberSeats` is what the member records. */
  function NewPoolDraft(passengerId: UserId, req: RideRequest, memberSeats: Option<int>): PoolDraft {
    PoolDraft(
      [MemberDraft(passengerId, req.pickupLocation, req.terminal, req.luggageCount, memberSeats,
                   Pricing.CalculateFare(QuotedTripKm, NewPoolSurge, 1))],
      Some(Open), req.pickupLocation, req.terminal,
      None, Some(DefaultCapacity - req.seatsNeeded), None, Some(DefaultCapacity - req.luggageCount))
  }

  /**
   * The pool created when no candidate is accepted: open, driverless, starting at the pickup,
   * holding the passenger alone, at the default capacities minus the request. As written the
   * founder's membership leaves seatsNeeded out and so records the schema default; corrected,
   * it records the seats requested.
   */
  function NewPool(rev: Revision, passengerId: UserId, req: RideRequest): (p: RidePool)
    ensures p.status == Open && p.driver == None
    ensures |p.passengers| == 1 && p.passengers[0].passengerId == passengerId
    ensures p.passengers[0].luggageCount == req.luggageCount && p.passengers[0].pickupLocation == req.pickupLocation
    ensures rev == AsWritten ==> p.passengers[0].seatsNeeded == DefaultSeatsNeeded
    ensures rev == Corrected ==> p.passengers[0].seatsNeeded == req.seatsNeeded
    ensures p.startLocation == req.pickupLocation && p.terminal == req.terminal
    ensures p.totalSeats == DefaultCapacity && p.seatsRemaining == DefaultCapacity - req.seatsNeeded
    ensures p.luggageCapacity == DefaultCapacity && p.luggageRemaining == DefaultCapacity - req.luggageCount
  {
    Materialize(NewPoolDraft(passengerId, req, if rev == Corrected then Some(req.seatsNeeded) else None))
  }

  /**
   * The whole effect of one match on the stored pools: the result and the pools afterwards.
   * `newId` is the id the store gives a created pool.
   */
  function MatchSpec(rev: Revision, pools: map<PoolId, RidePool>, held: set<PoolId>, passengerId: UserId, req: RideRequest,
                     candidates: seq<Candidate>, dist: Distance, newId: PoolId, faults: Faults)
    : (out: (Result<Matched, Error>, map<PoolId, RidePool>))
    ensures out.0.Err? ==> out.0.error == PersistenceFailure && out.1 == pools
    ensures out.0.Ok? ==> out.1 == pools[out.0.value.id := out.0.value.pool]
    ensures out.0.Ok? && out.0.value.isNew ==> out.0.value.id == newId
    ensures out.0.Ok? && !out.0.value.isNew ==> out.0.value.id in pools
  {
    match FirstAccepted(rev, candidates, pools, held, req, dist, 0)
    case Some(k) =>
      var id := candidates[k].id;
      var joined := Commit(pools[id], JoinMember(passengerId, req, |pools[id].passengers|));
      if id in faults.saveFails then (Err(PersistenceFailure), pools)
      else (Ok(Matched(id, joined, false)), pools[id := joined])
    case None =>
      var created := NewPool(rev, passengerId, req);
      if faults.createFails then (Err(PersistenceFailure), pools)
      else (Ok(Matched(newId, created, true)), pools[newId := created])
  }

  /** The quoted fares: 24.00 for a passenger joining a non-empty pool, 30.00 for an empty one, 25.00 for a founder. */
  lemma QuotedFares(rev: Revision, passengerId: UserId, req: RideRequest, poolSize: nat)
    ensures JoinMember(passengerId, req, poolSize).fare == (if poolSize > 0 then 2400 else 3000)
    ensures NewPool(rev, passengerId, req).passengers[0].fare == 2500
  {
  }

  /** A join moves exactly the member's seats and luggage from remaining to taken. */
  lemma CommitConservesCapacity(p: RidePool, m: Member)
    ensures var q := Commit(p, m);
      && q.seatsRemaining + SeatsTaken(q.passengers) == p.seatsRemaining + SeatsTaken(p.passengers)
      && q.luggageRemaining + LuggageTaken(q.passengers) == p.luggageRemaining + LuggageTaken(p.passengers)
  {
    TakenAppend(p.passengers, [m]);
    assert SeatsTaken([m]) == m.seatsNeeded;
    assert LuggageTaken([m]) == m.luggageCount;
  }

  /** A join keeps the pool invariant when the re-read pool had room for the member. */
  lemma CommitPreservesConsistency(p: RidePool, m: Member)
    requires Consistent(p)
    requires m.seatsNeeded >= 1 && m.luggageCount >= 0
    requires p.seatsRemaining >= m.seatsNeeded && p.luggageRemaining >= m.luggageCount
    ensures Consistent(Commit(p, m))
  {
    CommitConservesCapacity(p, m);
  }

  /** A join appends exactly the new member, takes its seats and luggage, and locks the pool exactly when it is full. */
  lemma CommitEffect(p: RidePool, m: Member)
    requires p.status == Open
    ensures var q := Commit(p, m);
      && q.passengers == p.passengers + [m]
      && |q.passengers| == |p.passengers| + 1
      && q.seatsRemaining == p.seatsRemaining - m.seatsNeeded
      && q.luggageRemaining == p.luggageRemaining - m.luggageCount
      && (q.status == Locked <==> q.seatsRemaining == 0)
      && (q.status == Open <==> q.seatsRemaining != 0)
      && q.driver == p.driver && q.startLocation == p.startLocation && q.terminal == p.terminal
      && q.totalSeats == p.totalSeats && q.luggageCapacity == p.luggageCapacity
  {
  }

  /** A pool created by the corrected engine for a request that fits the default capacity satisfies the pool invariant. */
  lemma NewPoolIsConsistent(passengerId: UserId, req: RideRequest)
    requires 1 <= req.seatsNeeded <= DefaultCapacity && 0 <= req.luggageCount <= DefaultCapacity
    ensures Consistent(NewPool(Corrected, passengerId, req))
  {
    var p := NewPool(Corrected, passengerId, req);
    assert SeatsTaken(p.passengers) == req.seatsNeeded;
    assert LuggageTaken(p.passengers) == req.luggageCount;
  }

  /**
   * Finding: as written, a match that creates a pool for a two-seat request stores a pool
   * whose founder records the schema default of one seat while seatsRemaining is reduced by
   * two, so the stored pools are no longer consistent.
   */
  lemma MatchBreaksSeatIdentityAsWritten(pools: map<PoolId, RidePool>, held: set<PoolId>, passengerId: UserId,
                                         pickup: Point, terminal: string, dist: Distance, newId: PoolId)
    ensures var (r, after) := MatchSpec(AsWritten, pools, held, passengerId, RideRequest(pickup, terminal, 1, 2),
                                        [], dist, newId, Faults({}, false));
      && r.Ok? && r.value.isNew && newId in after
      && after[newId].seatsRemaining == 2 && SeatsTaken(after[newId].passengers) == 1 && after[newId].totalSeats == 4
      && !StoreConsistent(after)
  {
    var (r, after) := MatchSpec(AsWritten, pools, held, passengerId, RideRequest(pickup, terminal, 1, 2),
                                [], dist, newId, Faults({}, false));
    assert SeatsTaken(after[newId].passengers) == 1;
    assert !Consistent(after[newId]);
  }

  /**
   * Finding: as written, the re-validation after the lock does not look at luggage again.
   * A pool whose snapshot had room for two bags but which has no luggage room left when it
   * is re-read is still joined, and the join leaves it at -1 luggage remaining. The corrected
   * engine passes that pool over and creates a new one.
   */
  lemma MatchOverdrawsLuggageAsWritten(id: PoolId, live: RidePool, passengerId: UserId, pickup: Point, terminal: string,
                                       dist: Distance, newId: PoolId)
    requires live.status == Open && live.seatsRemaining == 3 && live.luggageRemaining == 0
    requires dist(live.startLocation, pickup) <= MaxDetourKm
    requires newId != id
    ensures var req := RideRequest(pickup, terminal, 1, 1);
      var candidates := [Candidate(id, live.(luggageRemaining := 2))];
      var (r, after) := MatchSpec(AsWritten, map[id := live], {}, passengerId, req, candidates, dist, newId, Faults({}, false));
      && r == Ok(Matched(id, after[id], false))
      && after[id].luggageRemaining == -1
    ensures var req := RideRequest(pickup, terminal, 1, 1);
      var candidates := [Candidate(id, live.(luggageRemaining := 2))];
      var (r, after) := MatchSpec(Corrected, map[id := live], {}, passengerId, req, candidates, dist, newId, Faults({}, false));
      && r.Ok? && r.value.isNew && r.value.id == newId
      && after[id] == live
  {
  }

  /** The pool joined, if any, is the first candidate in order that is accepted; a new pool means none was. */
  lemma MatchJoinsFirstSurvivor(rev: Revision, pools: map<PoolId, RidePool>, held: set<PoolId>, passengerId: UserId,
                                req: RideRequest, candidates: seq<Candidate>, dist: Distance, newId: PoolId, faults: Faults)
    ensures var r := MatchSpec(rev, pools, held, passengerId, req, candidates, dist, newId, faults).0;
      r.Ok? && !r.value.isNew ==>
        exists k :: 0 <= k < |candidates| && candidates[k].id == r.value.id
          && Assess(rev, candidates[k], pools, held, req, dist) == Accepted
          && forall j :: 0 <= j < k ==> Assess(rev, candidates[j], pools, held, req, dist) != Accepted
    ensures var r := MatchSpec(rev, pools, held, passengerId, req, candidates, dist, newId, faults).0;
      r.Ok? && r.value.isNew ==>
        r.value.id == newId && forall j :: 0 <= j < |candidates| ==> Assess(rev, candidates[j], pools, held, req, dist) != Accepted
  {
    var k := FirstAccepted(rev, candidates, pools, held, req, dist, 0);
    if k.Some? {
      var r := MatchSpec(rev, pools, held, passengerId, req, candidates, dist, newId, faults).0;
      if r.Ok? {
        assert candidates[k.value].id == r.value.id;
      }
    }
  }

  /** A pool whose lock someone else holds, or that fails the pre-check, is never joined. */
  lemma MatchSkipsContendedAndUnfit(rev: Revision, pools: map<PoolId, RidePool>, held: set<PoolId>, passengerId: UserId,
                                    req: RideRequest, candidates: seq<Candidate>, dist: Distance, newId: PoolId,
                                    faults: Faults, id: PoolId)
    requires id in held || forall i :: 0 <= i < |candidates| && candidates[i].id == id ==> !FitsSnapshot(candidates[i], req)
    ensures var (r, after) := MatchSpec(rev, pools, held, passengerId, req, candidates, dist, newId, faults);
      (r.Ok? && !r.value.isNew ==> r.value.id != id) && (id in pools && id != newId ==> id in after && after[id] == pools[id])
  {
    MatchJoinsFirstSurvivor(rev, pools, held, passengerId, req, candidates, dist, newId, faults);
  }

  /** One match changes at most one stored pool: the one it joined or the one it created. */
  lemma MatchTouchesOnePool(rev: Revision, pools: map<PoolId, RidePool>, held: set<PoolId>, passengerId: UserId,
                            req: RideRequest, candidates: seq<Candidate>, dist: Distance, newId: PoolId, faults: Faults)
    requires newId !in pools
    ensures var (r, after) := MatchSpec(rev, pools, held, passengerId, req, candidates, dist, newId, faults);
      && (r.Err? ==> after == pools)
      && (r.Ok? && !r.value.isNew ==> r.value.id in pools && after.Keys == pools.Keys && after[r.value.id] == r.value.pool)
      && (r.Ok? && r.value.isNew ==> after.Keys == pools.Keys + {newId} && after[newId] == r.value.pool)
      && (forall id :: id in pools && (r.Err? || id != r.value.id) ==> id in after && after[id] == pools[id])
  {
  }

  /**
   * A join commits the passenger to the re-read pool: one member appended, capacities
   * reduced, locked exactly when full. Seats never go negative in either engine; luggage
   * stays non-negative in the corrected one.
   */
  lemma MatchJoinEffect(rev: Revision, pools: map<PoolId, RidePool>, held: set<PoolId>, passengerId: UserId,
                        req: RideRequest, candidates: seq<Candidate>, dist: Distance, newId: PoolId, faults: Faults)
    ensures var r := MatchSpec(rev, pools, held, passengerId, req, candidates, dist, newId, faults).0;
      r.Ok? && !r.value.isNew ==>
        && r.value.id in pools
        && var before, after := pools[r.value.id], r.value.pool;
        && before.status == Open
        && after == Commit(before, JoinMember(passengerId, req, |before.passengers|))
        && |after.passengers| == |before.passengers| + 1
        && after.passengers[..|before.passengers|] == before.passengers
        && after.passengers[|before.passengers|].passengerId == passengerId
        && after.passengers[|before.passengers|].seatsNeeded == req.seatsNeeded
        && after.seatsRemaining == before.seatsRemaining - req.seatsNeeded >= 0
        && after.luggageRemaining == before.luggageRemaining - req.luggageCount
        && (rev == Corrected ==> after.luggageRemaining >= 0)
        && (after.status == Locked <==> after.seatsRemaining == 0)
        && (after.status == Open <==> after.seatsRemaining != 0)
        && dist(before.startLocation, req.pickupLocation) <= MaxDetourKm
  {
    var k := FirstAccepted(rev, candidates, pools, held, req, dist, 0);
    if k.Some? {
      var id := candidates[k.value].id;
      CommitEffect(pools[id], JoinMember(passengerId, req, |pools[id].passengers|));
    }
  }

  /** A created pool is open, holds the passenger alone, starts at the pickup, and has the defaults minus the request. */
  lemma MatchNewPoolShape(rev: Revision, pools: map<PoolId, RidePool>, held: set<PoolId>, passengerId: UserId,
                          req: RideRequest, candidates: seq<Candidate>, dist: Distance, newId: PoolId, faults: Faults)
    ensures var r := MatchSpec(rev, pools, held, passengerId, req, candidates, dist, newId, faults).0;
      r.Ok? && r.value.isNew ==>
        var p := r.value.pool;
        && p.status == Open && p.driver == None
        && |p.passengers| == 1 && p.passengers[0].passengerId == passengerId
        && p.passengers[0].seatsNeeded == (if rev == Corrected then req.seatsNeeded else DefaultSeatsNeeded)
        && p.seatsRemaining == DefaultCapacity - req.seatsNeeded && p.totalSeats == DefaultCapacity
        && p.luggageRemaining == DefaultCapacity - req.luggageCount && p.luggageCapacity == DefaultCapacity
        && p.startLocation == req.pickupLocation && p.terminal == req.terminal
  {
  }

  /** The corrected engine keeps every stored pool consistent, given a request that fits an empty pool. */
  lemma MatchPreservesConsistency(pools: map<PoolId, RidePool>, held: set<PoolId>, passengerId: UserId, req: RideRequest,
                                  candidates: seq<Candidate>, dist: Distance, newId: PoolId, faults: Faults)
    requires StoreConsistent(pools)
    requires 1 <= req.seatsNeeded <= DefaultCapacity && 0 <= req.luggageCount <= DefaultCapacity
    ensures StoreConsistent(MatchSpec(Corrected, pools, held, passengerId, req, candidates, dist, newId, faults).1)
  {
    var k := FirstAccepted(Corrected, candidates, pools, held, req, dist, 0);
    if k.Some? {
      var id := candidates[k.value].id;
      CommitPreservesConsistency(pools[id], JoinMember(passengerId, req, |pools[id].passengers|));
    } else {
      NewPoolIsConsistent(passengerId, req);
    }
  }

  /** With candidates nearest-first, the joined pool is at least as near as any other candidate that would be accepted. */
  lemma JoinedIsNearestSurvivor(rev: Revision, pools: map<PoolId, RidePool>, held: set<PoolId>, passengerId: UserId,
                                req: RideRequest, candidates: seq<Candidate>, dist: Distance, newId: PoolId, faults: Faults)
    requires NearbyOpenPools(candidates, req, dist)
    ensures var r := MatchSpec(rev, pools, held, passengerId, req, candidates, dist, newId, faults).0;
      r.Ok? && !r.value.isNew ==>
        exists k :: 0 <= k < |candidates| && candidates[k].id == r.value.id
          && forall j :: 0 <= j < |candidates| && Assess(rev, candidates[j], pools, held, req, dist) == Accepted ==>
               dist(candidates[k].snapshot.startLocation, req.pickupLocation)
                 <= dist(candidates[j].snapshot.startLocation, req.pickupLocation)
  {
    var k := FirstAccepted(rev, candidates, pools, held, req, dist, 0);
    if k.Some? {
      var r := MatchSpec(rev, pools, held, passengerId, req, candidates, dist, newId, faults).0;
      if r.Ok? {
        assert candidates[k.value].id == r.value.id;
      }
    }
  }

  /** The lock key space: the ids of the pools whose lock is currently held. */
  class LockTable {
    var held: set<PoolId>

    constructor ()
      ensures held == {}
    {
      held := {};
    }

    /** Set-if-absent: succeeds exactly when nobody holds the pool's lock, which is then held. */
    method Acquire(id: PoolId) returns (acquired: bool)
      modifies this
      ensures acquired == (id !in old(held))
      ensures held == old(held) + {id}
    {
      acquired := id !in held;
      held := held + {id};
    }

    /** Unconditional delete: the lock is gone whoever took it. */
    method Release(id: PoolId)
      modifies this
      ensures held == old(held) - {id}
    {
      held := held - {id};
    }
  }

  /**
   * Matches a passenger to a pool, as the engine revision `rev` does it. Every lock the
   * engine takes is released before it moves on or returns, so the held locks afterwards
   * are those held before.
   */
  method Match(rev: Revision, store: PoolStore, locks: LockTable, passengerId: UserId, req: RideRequest,
               candidates: seq<Candidate>, dist: Distance, newId: PoolId, faults: Faults)
    returns (r: Result<Matched, Error>)
    requires NearbyOpenPools(candidates, req, dist)
    requires newId !in store.pools
    modifies store, locks
    ensures locks.held == old(locks.held)
    ensures (r, store.pools) == MatchSpec(rev, old(store.pools), old(locks.held), passengerId, req, candidates, dist, newId, faults)
  {
    ghost var pools0, held0 := store.pools, locks.held;
    for i := 0 to |candidates|
      invariant store.pools == pools0 && locks.held == held0
      invariant FirstAccepted(rev, candidates, pools0, held0, req, dist, 0) == FirstAccepted(rev, candidates, pools0, held0, req, dist, i)
    {
      var candidate := candidates[i];
      if candidate.snapshot.seatsRemaining >= req.seatsNeeded && candidate.snapshot.luggageRemaining >= req.luggageCount {
        var isLocked := locks.Acquire(candidate.id);
        if !isLocked {
          continue;
        }
        var current := store.FindById(candidate.id);
        if current.None? || current.value.status != Open || current.value.seatsRemaining < req.seatsNeeded
           || (rev == Corrected && current.value.luggageRemaining < req.luggageCount) {
          locks.Release(candidate.id);
          continue;
        }
        var pool := current.value;
        assert pool == pools0[candidate.id];
        var distToPickup := dist(pool.startLocation, req.pickupLocation);
        if distToPickup > MaxDetourKm {
          locks.Release(candidate.id);
          continue;
        }
        var fare := Pricing.CalculateFare(QuotedTripKm, JoinSurge, |pool.passengers| + 1);
        pool := pool.(passengers := pool.passengers + [MaterializeMember(MemberDraft(
          passengerId, req.pickupLocation, req.terminal, req.luggageCount, Some(req.seatsNeeded), fare))]);
        pool := pool.(seatsRemaining := pool.seatsRemaining - req.seatsNeeded);
        pool := pool.(luggageRemaining := pool.luggageRemaining - req.luggageCount);
        if pool.seatsRemaining == 0 {
          pool := pool.(status := Locked);
        }
        assert Assess(rev, candidate, pools0, held0, req, dist) == Accepted;
        assert pool == Commit(pools0[candidate.id], JoinMember(passengerId, req, |pools0[candidate.id].passengers|));
        var saved := store.Save(candidate.id, pool, candidate.id in faults.saveFails);
        locks.Release(candidate.id);
        if !saved {
          return Err(PersistenceFailure);
        }
        return Ok(Matched(candidate.id, pool, false));
      }
    }
    var founderSeats := if rev == Corrected then Some(req.seatsNeeded) else None;
    var newPool := Materialize(NewPoolDraft(passengerId, req, founderSeats));
    assert newPool == NewPool(rev, passengerId, req);
    var created := store.Create(newId, newPool, faults.createFails);
    if !created {
      return Err(PersistenceFailure);
    }
    return Ok(Matched(newId, newPool, true));
  }
}
