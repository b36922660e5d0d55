/**
 * The RidePool document: its members, its status enum, the schema defaults, the
 * capacity bookkeeping, and the collection the documents are stored in.
 */
module PoolModel {
  import opened Wrappers

  type PoolId = nat
  type UserId = nat

  /** A GeoJSON point; the coordinates array is [longitude, latitude]. */
  datatype Point = Point(lon: real, lat: real)

  /** The five values the schema's status enum admits. */
  datatype Status = Open | Locked | InProgress | Completed | Cancelled

  /** Schema default for a member's seatsNeeded. */
  const DefaultSeatsNeeded: int := 1
  /** Schema default for totalSeats, seatsRemaining, luggageCapacity and luggageRemaining. */
  const DefaultCapacity: int := 4

  /** One passenger's membership in a pool; the fare is kept in cents. */
  datatype Member = Member(
    passengerId: UserId,
    pickupLocation: Point,
    dropoffLocation: Option<Point>,
    terminal: string,
    luggageCount: int,
    seatsNeeded: int,
    fare: int)

  /** A persisted pool. `driver` stays absent until a driver accepts. */
  datatype RidePool = RidePool(
    passengers: seq<Member>,
    status: Status,
    driver: Option<UserId>,
    startLocation: Point,
    terminal: string,
    totalSeats: int,
    seatsRemaining: int,
    luggageCapacity: int,
    luggageRemaining: int)

  /** The fields a caller hands to the schema when it builds a member; absent ones take defaults. */
  datatype MemberDraft = MemberDraft(
    passengerId: UserId,
    pickupLocation: Point,
    terminal: string,
    luggageCount: int,
    seatsNeeded: Option<int>,
    fare: int)

  /** The fields a caller hands to the schema when it creates a pool; absent ones take defaults. */
  datatype PoolDraft = PoolDraft(
    passengers: seq<MemberDraft>,
    status: Option<Status>,
    startLocation: Point,
    terminal: string,
    totalSeats: Option<int>,
    seatsRemaining: Option<int>,
    luggageCapacity: Option<int>,
    luggageRemaining: Option<int>)

  function OrDefault(o: Option<int>, default: int): int {
    if o.Some? then o.value else default
  }

  /**
   * The member the schema stores for a draft: seatsNeeded falls back to one seat exactly
   * when the draft leaves it out, and every given field is kept. The schema fills the dropoff
   * with a point that has no coordinates; `None` stands for that empty point.
   */
  function MaterializeMember(d: MemberDraft): (m: Member)
    ensures d.seatsNeeded.None? ==> m.seatsNeeded == DefaultSeatsNeeded
    ensures d.seatsNeeded.Some? ==> m.seatsNeeded == d.seatsNeeded.value
    ensures m.dropoffLocation == None
    ensures m.passengerId == d.passengerId && m.pickupLocation == d.pickupLocation && m.terminal == d.terminal
    ensures m.luggageCount == d.luggageCount && m.fare == d.fare
  {
    Member(d.passengerId, d.pickupLocation, None, d.terminal, d.luggageCount,
           OrDefault(d.seatsNeeded, DefaultSeatsNeeded), d.fare)
  }

  function MaterializeMembers(ds: seq<MemberDraft>): (ms: seq<Member>)
    ensures |ms| == |ds|
    ensures forall i :: 0 <= i < |ds| ==> ms[i] == MaterializeMember(ds[i])
  {
    if ds == [] then [] else [MaterializeMember(ds[0])] + MaterializeMembers(ds[1..])
  }

  /** The pool the schema stores for a draft: no driver, and every absent field at its default. */
  function Materialize(d: PoolDraft): (p: RidePool)
    ensures |p.passengers| == |d.passengers|
    ensures forall i :: 0 <= i < |d.passengers| ==> p.passengers[i] == MaterializeMember(d.passengers[i])
    ensures p.driver == None
    ensures p.startLocation == d.startLocation && p.terminal == d.terminal
    ensures d.status.None? ==> p.status == Open
    ensures d.status.Some? ==> p.status == d.status.value
    ensures d.totalSeats.None? ==> p.totalSeats == DefaultCapacity
    ensures d.totalSeats.Some? ==> p.totalSeats == d.totalSeats.value
    ensures d.seatsRemaining.None? ==> p.seatsRemaining == DefaultCapacity
    ensures d.seatsRemaining.Some? ==> p.seatsRemaining == d.seatsRemaining.value
    ensures d.luggageCapacity.None? ==> p.luggageCapacity == DefaultCapacity
    ensures d.luggageCapacity.Some? ==> p.luggageCapacity == d.luggageCapacity.value
    ensures d.luggageRemaining.None? ==> p.luggageRemaining == DefaultCapacity
    ensures d.luggageRemaining.Some? ==> p.luggageRemaining == d.luggageRemaining.value
  {
    RidePool(
      MaterializeMembers(d.passengers),
      if d.status.Some? then d.status.value else Open,
      None,
      d.startLocation,
      d.terminal,
      OrDefault(d.totalSeats, DefaultCapacity),
      OrDefault(d.seatsRemaining, DefaultCapacity),
      OrDefault(d.luggageCapacity, DefaultCapacity),
      OrDefault(d.luggageRemaining, DefaultCapacity))
  }

  /** Seats held by a list of members. */
  function SeatsTaken(ms: seq<Member>): int {
    if ms == [] then 0 else ms[0].seatsNeeded + SeatsTaken(ms[1..])
  }

  /** Luggage pieces held by a list of members. */
  function LuggageTaken(ms: seq<Member>): int {
    if ms == [] then 0 else ms[0].luggageCount + LuggageTaken(ms[1..])
  }

  /** Every member occupies at least one seat and carries no negative luggage. */
  predicate WellFormedMembers(ms: seq<Member>) {
    forall i :: 0 <= i < |ms| ==> ms[i].seatsNeeded >= 1 && ms[i].luggageCount >= 0
  }

  /**
   * The capacity identity of a pool: the remaining seats (luggage) plus what its members
   * hold is the total, and the remaining amount lies between 0 and the total.
   */
  predicate CapacityConsistent(p: RidePool) {
    && p.seatsRemaining + SeatsTaken(p.passengers) == p.totalSeats
    && p.luggageRemaining + LuggageTaken(p.passengers) == p.luggageCapacity
    && 0 <= p.seatsRemaining <= p.totalSeats
    && 0 <= p.luggageRemaining <= p.luggageCapacity
  }

  /** The pool invariant: consistent capacities over well-formed members. */
  predicate Consistent(p: RidePool) {
    CapacityConsistent(p) && WellFormedMembers(p.passengers)
  }

  predicate StoreConsistent(pools: map<PoolId, RidePool>) {
    forall id :: id in pools ==> Consistent(pools[id])
  }

  lemma {:induction false} TakenAppend(a: seq<Member>, b: seq<Member>)
    ensures SeatsTaken(a + b) == SeatsTaken(a) + SeatsTaken(b)
    ensures LuggageTaken(a + b) == LuggageTaken(a) + LuggageTaken(b)
  {
    if a == [] {
      assert a + b == b;
    } else {
      assert (a + b)[1..] == a[1..] + b;
      TakenAppend(a[1..], b);
    }
  }

  /** Removing the member at index k gives back exactly what that member held. */
  lemma TakenRemoveAt(ms: seq<Member>, k: nat)
    requires k < |ms|
    ensures SeatsTaken(ms) == SeatsTaken(ms[..k] + ms[k+1..]) + ms[k].seatsNeeded
    ensures LuggageTaken(ms) == LuggageTaken(ms[..k] + ms[k+1..]) + ms[k].luggageCount
  {
    var before, after := ms[..k], ms[k+1..];
    var tail := [ms[k]] + after;
    assert ms == before + tail;
    TakenAppend(before, tail);
    assert tail[1..] == after;
    TakenAppend(before, after);
  }

  /** Well-formed members hold at least one seat each and no negative luggage. */
  lemma {:induction false} TakenLowerBound(ms: seq<Member>)
    requires WellFormedMembers(ms)
    ensures SeatsTaken(ms) >= |ms|
    ensures LuggageTaken(ms) >= 0
  {
    if ms != [] {
      TakenLowerBound(ms[1..]);
    }
  }

  /** A pool created from nothing but its location and terminal is open, empty, driverless and at full capacity. */
  lemma SchemaDefaults(start: Point, terminal: string)
    ensures var p := Materialize(PoolDraft([], None, start, terminal, None, None, None, None));
      && p.status == Open && p.driver == None && p.passengers == []
      && p.totalSeats == 4 && p.seatsRemaining == 4
      && p.luggageCapacity == 4 && p.luggageRemaining == 4
      && Consistent(p)
  {
  }

  /** What the store's findById answers: the document, or nothing for an unknown id. */
  function Lookup(pools: map<PoolId, RidePool>, id: PoolId): (found: Option<RidePool>)
    ensures found.Some? <==> id in pools
    ensures found.Some? ==> found.value == pools[id]
  {
    if id in pools then Some(pools[id]) else None
  }

  /** The outcomes of operations on pools that are declined or fail. */
  datatype Error =
    | InvalidRequest        // 400: request lacks pickup, coordinates or terminal
    | DistanceRequired      // 400: price estimate without a distance
    | NotFound              // 404: no pool with that id
    | NoLongerAvailable     // 400: accept on a pool that is not open
    | NotAuthorized         // 403: cancel by a user who is not a member
    | CannotCancelCompleted // 400: cancel on a completed pool
    | CannotCancelInStatus  // 400: cancel on a pool in any other status it does not handle
    | PersistenceFailure    // the store's write threw; passed on to the caller

  /** The HTTP status the controllers answer for each declined operation. */
  function HttpStatus(e: Error): (code: int)
    ensures e == NotFound <==> code == 404
    ensures e == NotAuthorized <==> code == 403
    ensures e == PersistenceFailure <==> code == 500
    ensures e != NotFound && e != NotAuthorized && e != PersistenceFailure ==> code == 400
  {
    match e
    case NotFound => 404
    case NotAuthorized => 403
    case PersistenceFailure => 500
    case _ => 400
  }

  /**
   * The RidePool collection. findById hands out a copy of a document; save and create write
   * a whole document back, or throw (the `fails` argument stands for the store's own outcome).
   */
  class PoolStore {
    var pools: map<PoolId, RidePool>

    constructor ()
      ensures pools == map[]
    {
      pools := map[];
    }

    /** The stored document for a known id, nothing for an unknown one. */
    function FindById(id: PoolId): (found: Option<RidePool>)
      reads this
      ensures id in pools ==> found == Some(pools[id])
      ensures id !in pools ==> found == None
    {
      Lookup(pools, id)
    }

    method Save(id: PoolId, doc: RidePool, fails: bool) returns (saved: bool)
      modifies this
      ensures saved == !fails
      ensures pools == if saved then old(pools)[id := doc] else old(pools)
    {
      saved := !fails;
      if saved {
        pools := pools[id := doc];
      }
    }

    method Create(id: PoolId, doc: RidePool, fails: bool) returns (created: bool)
      requires id !in pools
      modifies this
      ensures created == !fails
      ensures pools == if created then old(pools)[id := doc] else old(pools)
    {
      created := !fails;
      if created {
        pools := pools[id := doc];
      }
    }
  }
}
