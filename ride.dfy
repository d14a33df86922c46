/** A trip with a fixed number of seats, its ordered participations and the
    guarded transitions of both (src/models/ride.py). */
module Rides {
  import opened Wrappers
  import opened Errors
  import opened Participations
  import opened Search

  /** The three ride statuses. The participation statuses of the same names
      are written `RPStatus.InProgress` and `RPStatus.Done` in this module. */
  datatype RideStatus = Ready | InProgress | Done

  /** Position of a status along ready -> inprogress -> done. */
  function Stage(s: RideStatus): nat
  {
    match s
    case Ready => 0
    case InProgress => 1
    case Done => 2
  }

  // ---------------------------------------------------------------------
  // The seat ledger, recomputed from the participation list.
  // ---------------------------------------------------------------------

  /** Statuses whose seats count as occupied. */
  predicate HoldsSeat(s: RPStatus)
  {
    s == Confirmed || s == RPStatus.InProgress || s == RPStatus.Done
  }

  function Contribution(p: Participation): nat
  {
    if HoldsSeat(p.status) then p.seats else 0
  }

  /** The source's `occupied`: seats of confirmed, in-progress and done entries. */
  function Occupied(ps: seq<Participation>): (n: nat)
    ensures (forall i :: 0 <= i < |ps| ==> !HoldsSeat(ps[i].status)) ==> n == 0
    ensures forall i :: 0 <= i < |ps| && HoldsSeat(ps[i].status) ==> ps[i].seats <= n
  {
    if ps == [] then 0 else Contribution(ps[0]) + Occupied(ps[1..])
  }

  /** Appending an entry adds its seats when it holds a seat and nothing otherwise. */
  lemma {:induction false} OccupiedAppend(ps: seq<Participation>, p: Participation)
    ensures Occupied(ps + [p]) == Occupied(ps) + (if HoldsSeat(p.status) then p.seats else 0)
  {
    if ps == [] {
      assert [] + [p] == [p];
    } else {
      assert (ps + [p])[1..] == ps[1..] + [p];
      OccupiedAppend(ps[1..], p);
    }
  }

  /** Replacing one entry changes the total by the difference of the two contributions. */
  lemma {:induction false} OccupiedUpdate(ps: seq<Participation>, k: nat, q: Participation)
    requires k < |ps|
    ensures Occupied(ps[k := q]) + Contribution(ps[k]) == Occupied(ps) + Contribution(q)
  {
    if k == 0 {
      assert ps[k := q][1..] == ps[1..];
    } else {
      assert ps[k := q][1..] == ps[1..][k - 1 := q];
      OccupiedUpdate(ps[1..], k - 1, q);
    }
  }

  // ---------------------------------------------------------------------
  // Looking a participant up.
  // ---------------------------------------------------------------------

  function AliasOf(p: Participation): string
  {
    p.alias
  }

  /** The position of the first participation with this alias, if any. */
  function IndexOfAlias(ps: seq<Participation>, alias: string): Option<nat>
  {
    FirstIndex(ps, AliasOf, alias)
  }

  predicate DistinctAliases(ps: seq<Participation>)
  {
    forall i, j :: 0 <= i < j < |ps| ==> ps[i].alias != ps[j].alias
  }

  /** The ledger invariant: no overbooking and one entry per participant. */
  predicate Consistent(allowed: int, ps: seq<Participation>)
  {
    Occupied(ps) <= allowed && DistinctAliases(ps)
  }

  // ---------------------------------------------------------------------
  // Per-entry effects of the ride's transitions.
  // ---------------------------------------------------------------------

  /** Acceptance: the entry is confirmed, stamped, and now holds its seats. */
  function Confirm(p: Participation, now: Timestamp): (q: Participation)
    ensures q.alias == p.alias && q.destination == p.destination && q.seats == p.seats
    ensures q.status == Confirmed && q.confirmation == Some(now)
    ensures Contribution(q) == p.seats
  {
    p.(status := Confirmed, confirmation := Some(now))
  }

  /** Departure: confirmed riders are on board, undecided requests are missing. */
  function StartOne(p: Participation): (q: Participation)
    ensures q == p.(status := q.status)
    ensures q.status != Waiting && q.status != Confirmed
    ensures HoldsSeat(q.status) == HoldsSeat(p.status)
    ensures p.status != Waiting && p.status != Confirmed ==> q == p
  {
    if p.status == Confirmed then p.(status := RPStatus.InProgress)
    else if p.status == Waiting then p.(status := Missing)
    else p
  }

  /** Arrival: riders still on board were never unloaded. */
  function EndOne(p: Participation): (q: Participation)
    ensures q == p.(status := q.status)
    ensures q.status != RPStatus.InProgress
    ensures Contribution(q) <= Contribution(p)
    ensures p.status != RPStatus.InProgress ==> q == p
  {
    if p.status == RPStatus.InProgress then p.(status := NotMarked) else p
  }

  /** `StartOne` applied to every entry, in order. */
  function StartAll(ps: seq<Participation>): (r: seq<Participation>)
    ensures |r| == |ps|
    ensures forall i :: 0 <= i < |ps| ==> r[i] == StartOne(ps[i])
  {
    if ps == [] then [] else [StartOne(ps[0])] + StartAll(ps[1..])
  }

  /** `EndOne` applied to every entry, in order. */
  function EndAll(ps: seq<Participation>): (r: seq<Participation>)
    ensures |r| == |ps|
    ensures forall i :: 0 <= i < |ps| ==> r[i] == EndOne(ps[i])
  {
    if ps == [] then [] else [EndOne(ps[0])] + EndAll(ps[1..])
  }

  /** Starting a ride moves no seat: confirmed and in-progress both hold one,
      waiting and missing both do not. */
  lemma {:induction false} StartKeepsOccupied(ps: seq<Participation>)
    ensures Occupied(StartAll(ps)) == Occupied(ps)
  {
    if ps != [] {
      StartKeepsOccupied(ps[1..]);
      assert StartAll(ps)[1..] == StartAll(ps[1..]);
    }
  }

  /** Ending a ride only frees seats. */
  lemma {:induction false} EndReleasesSeats(ps: seq<Participation>)
    ensures Occupied(EndAll(ps)) <= Occupied(ps)
  {
    if ps != [] {
      EndReleasesSeats(ps[1..]);
      assert EndAll(ps)[1..] == EndAll(ps[1..]);
    }
  }

  // ---------------------------------------------------------------------
  // Every successful transition keeps the ledger consistent.
  // ---------------------------------------------------------------------

  lemma JoinKeepsConsistent(allowed: int, ps: seq<Participation>, p: Participation)
    requires IndexOfAlias(ps, p.alias).None?
    requires p.seats <= allowed - Occupied(ps)
    ensures Consistent(allowed, ps) ==> Consistent(allowed, ps + [p])
  {
    OccupiedAppend(ps, p);
  }

  /** Accepting a waiting entry takes exactly its seats, within the free ones. */
  lemma AcceptKeepsConsistent(allowed: int, ps: seq<Participation>, k: nat, now: Timestamp)
    requires k < |ps| && ps[k].status == Waiting
    requires ps[k].seats <= allowed - Occupied(ps)
    ensures Occupied(ps[k := Confirm(ps[k], now)]) == Occupied(ps) + ps[k].seats
    ensures Consistent(allowed, ps) ==> Consistent(allowed, ps[k := Confirm(ps[k], now)])
  {
    OccupiedUpdate(ps, k, Confirm(ps[k], now));
  }

  /** Changing one entry's status between two statuses on the same side of the
      ledger leaves the occupied seats and the aliases as they were. */
  lemma RestatusKeepsConsistent(allowed: int, ps: seq<Participation>, k: nat, s: RPStatus)
    requires k < |ps| && HoldsSeat(ps[k].status) == HoldsSeat(s)
    ensures Occupied(ps[k := ps[k].(status := s)]) == Occupied(ps)
    ensures Consistent(allowed, ps) ==> Consistent(allowed, ps[k := ps[k].(status := s)])
  {
    OccupiedUpdate(ps, k, ps[k].(status := s));
  }

  lemma StartKeepsConsistent(allowed: int, ps: seq<Participation>)
    ensures Consistent(allowed, ps) ==> Consistent(allowed, StartAll(ps))
  {
    StartKeepsOccupied(ps);
  }

  lemma EndKeepsConsistent(allowed: int, ps: seq<Participation>)
    ensures Consistent(allowed, ps) ==> Consistent(allowed, EndAll(ps))
  {
    EndReleasesSeats(ps);
  }

  // ---------------------------------------------------------------------
  // The ride object.
  // ---------------------------------------------------------------------

  class Ride {
    const id: int
    const departure: Timestamp
    const finalAddress: string
    const allowedSpaces: nat
    const driver: string
    var status: RideStatus
    var participants: seq<Participation>

    /** The seat and alias invariant. A ride may be built without it, as the
        constructor does not check it; every operation preserves it. */
    predicate Valid()
      reads this
    {
      Consistent(allowedSpaces, participants)
    }

    /** Building a ride; the allowed seat count must be positive. */
    constructor (id: int, departure: Timestamp, finalAddress: string, allowedSpaces: nat,
                 driver: string, status: RideStatus := Ready,
                 participants: seq<Participation> := [])
      requires allowedSpaces > 0
      ensures this.id == id && this.departure == departure && this.finalAddress == finalAddress
      ensures this.allowedSpaces == allowedSpaces && this.driver == driver
      ensures this.status == status && this.participants == participants
    {
      this.id := id;
      this.departure := departure;
      this.finalAddress := finalAddress;
      this.allowedSpaces := allowedSpaces;
      this.driver := driver;
      this.status := status;
      this.participants := participants;
    }

    /** Building a ride with field validation: a seat count that is not
        positive is refused. */
    static method Create(id: int, departure: Timestamp, finalAddress: string,
                         allowedSpaces: int, driver: string, status: RideStatus := Ready,
                         participants: seq<Participation> := [])
      returns (r: Result<Ride, Error>)
      ensures r.Err? <==> allowedSpaces <= 0
      ensures r.Err? ==> r.error == InvalidAllowedSpaces
      ensures r.Ok? ==> fresh(r.value) && r.value.id == id && r.value.departure == departure
                        && r.value.finalAddress == finalAddress
                        && r.value.allowedSpaces == allowedSpaces && r.value.driver == driver
                        && r.value.status == status && r.value.participants == participants
    {
      if allowedSpaces <= 0 {
        return Err(InvalidAllowedSpaces);
      }
      var ride := new Ride(id, departure, finalAddress, allowedSpaces, driver, status, participants);
      return Ok(ride);
    }

    /** The source's `free_spaces`; negative on an overbooked ride. */
    function FreeSpaces(): (r: int)
      reads this
      ensures r <= allowedSpaces
      ensures r == allowedSpaces <==> Occupied(participants) == 0
      ensures Valid() ==> r >= 0
    {
      allowedSpaces - Occupied(participants)
    }

    /** The linear search of `get_participation`, giving the position found. */
    method Locate(alias: string) returns (k: Option<nat>)
      ensures k == IndexOfAlias(participants, alias)
    {
      var i := 0;
      while i < |participants|
        invariant 0 <= i <= |participants|
        invariant forall j :: 0 <= j < i ==> participants[j].alias != alias
      {
        if participants[i].alias == alias {
          return Some(i);
        }
        i := i + 1;
      }
      return None;
    }

    /** The first participation with this alias, or none. */
    method GetParticipation(alias: string) returns (r: Option<Participation>)
      ensures r.None? <==> forall i :: 0 <= i < |participants| ==> participants[i].alias != alias
      ensures r.Some? ==> exists i :: 0 <= i < |participants| && participants[i] == r.value
                                      && r.value.alias == alias
                                      && forall j :: 0 <= j < i ==> participants[j].alias != alias
    {
      var k := Locate(alias);
      match k
      case None =>
        r := None;
      case Some(i) =>
        r := Some(participants[i]);
    }

    /** Three checks in order: the ride is ready, the alias is new, the seats
        fit in the free ones; then the request is appended. */
    method RequestJoin(p: Participation) returns (r: Outcome<Error>)
      modifies this
      ensures status == old(status)
      ensures r == (if old(status) != Ready then Fail(RideAlreadyStarted)
                    else if IndexOfAlias(old(participants), p.alias).Some? then Fail(DuplicateRequest)
                    else if p.seats > allowedSpaces - Occupied(old(participants)) then Fail(NotEnoughFreeSpaces)
                    else Pass)
      ensures participants == if r.Pass? then old(participants) + [p] else old(participants)
      ensures old(Valid()) ==> Valid()
    {
      if status != Ready {
        return Fail(RideAlreadyStarted);
      }
      var k := Locate(p.alias);
      if k.Some? {
        return Fail(DuplicateRequest);
      }
      if p.seats > FreeSpaces() {
        return Fail(NotEnoughFreeSpaces);
      }
      JoinKeepsConsistent(allowedSpaces, participants, p);
      participants := participants + [p];
      r := Pass;
    }

    /** Confirms the first entry with this alias when it is waiting and its
        seats fit in the free ones, stamping the confirmation time. */
    method Accept(alias: string, now: Timestamp) returns (r: Outcome<Error>)
      modifies this
      ensures status == old(status)
      ensures var k := IndexOfAlias(old(participants), alias);
              if k.None? || old(participants)[k.value].status != Waiting then
                r == Fail(NoWaitingRequestToAccept) && participants == old(participants)
              else if old(participants)[k.value].seats > allowedSpaces - Occupied(old(participants)) then
                r == Fail(NoFreeSeats) && participants == old(participants)
              else
                r == Pass
                && participants == old(participants)[k.value := Confirm(old(participants)[k.value], now)]
      ensures old(Valid()) ==> Valid()
    {
      var k := Locate(alias);
      if k.None? || participants[k.value].status != Waiting {
        return Fail(NoWaitingRequestToAccept);
      }
      var i := k.value;
      if participants[i].seats > FreeSpaces() {
        return Fail(NoFreeSeats);
      }
      AcceptKeepsConsistent(allowedSpaces, participants, i, now);
      participants := participants[i := Confirm(participants[i], now)];
      r := Pass;
    }

    /** Rejects the first entry with this alias when it is waiting. */
    method Reject(alias: string) returns (r: Outcome<Error>)
      modifies this
      ensures status == old(status)
      ensures var k := IndexOfAlias(old(participants), alias);
              if k.None? || old(participants)[k.value].status != Waiting then
                r == Fail(NoWaitingRequestToReject) && participants == old(participants)
              else
                r == Pass
                && participants == old(participants)[k.value := old(participants)[k.value].(status := Rejected)]
      ensures old(Valid()) ==> Valid()
    {
      var k := Locate(alias);
      if k.None? || participants[k.value].status != Waiting {
        return Fail(NoWaitingRequestToReject);
      }
      var i := k.value;
      RestatusKeepsConsistent(allowedSpaces, participants, i, Rejected);
      participants := participants[i := participants[i].(status := Rejected)];
      r := Pass;
    }

    /** Departure of a ready ride: every entry goes through `StartOne` and the
        ride becomes in progress. */
    method Start() returns (r: Outcome<Error>)
      modifies this
      ensures old(status) != Ready ==>
                r == Fail(RideAlreadyStartedOrFinished)
                && status == old(status) && participants == old(participants)
      ensures old(status) == Ready ==>
                r == Pass && status == RideStatus.InProgress && participants == StartAll(old(participants))
      ensures Stage(old(status)) <= Stage(status)
      ensures old(Valid()) ==> Valid()
    {
      if status != Ready {
        return Fail(RideAlreadyStartedOrFinished);
      }
      ghost var before := participants;
      StartKeepsConsistent(allowedSpaces, before);
      var i := 0;
      while i < |participants|
        invariant 0 <= i <= |participants| == |before|
        invariant forall j :: 0 <= j < i ==> participants[j] == StartOne(before[j])
        invariant forall j :: i <= j < |participants| ==> participants[j] == before[j]
      {
        var p := participants[i];
        if p.status == Confirmed {
          participants := participants[i := p.(status := RPStatus.InProgress)];
        } else if p.status == Waiting {
          participants := participants[i := p.(status := Missing)];
        }
        i := i + 1;
      }
      status := RideStatus.InProgress;
      r := Pass;
    }

    /** Arrival of a ride in progress: every entry goes through `EndOne` and
        the ride becomes done. */
    method End() returns (r: Outcome<Error>)
      modifies this
      ensures old(status) != RideStatus.InProgress ==>
                r == Fail(RideNotInProgress)
                && status == old(status) && participants == old(participants)
      ensures old(status) == RideStatus.InProgress ==>
                r == Pass && status == RideStatus.Done && participants == EndAll(old(participants))
      ensures Stage(old(status)) <= Stage(status)
      ensures old(Valid()) ==> Valid()
    {
      if status != RideStatus.InProgress {
        return Fail(RideNotInProgress);
      }
      ghost var before := participants;
      EndKeepsConsistent(allowedSpaces, before);
      var i := 0;
      while i < |participants|
        invariant 0 <= i <= |participants| == |before|
        invariant forall j :: 0 <= j < i ==> participants[j] == EndOne(before[j])
        invariant forall j :: i <= j < |participants| ==> participants[j] == before[j]
      {
        var p := participants[i];
        if p.status == RPStatus.InProgress {
          participants := participants[i := p.(status := NotMarked)];
        }
        i := i + 1;
      }
      status := RideStatus.Done;
      r := Pass;
    }

    /** The driver's drop-off of one participant: the first entry with this
        alias goes through `MarkUnloaded`; the ride's own status is not consulted. */
    method Unload(alias: string) returns (r: Outcome<Error>)
      modifies this
      ensures status == old(status)
      ensures var k := IndexOfAlias(old(participants), alias);
              if k.None? then
                r == Fail(ParticipationNotFound) && participants == old(participants)
              else match MarkUnloaded(old(participants)[k.value])
                case Err(e) => r == Fail(e) && participants == old(participants)
                case Ok(q) => r == Pass && participants == old(participants)[k.value := q]
      ensures old(Valid()) ==> Valid()
    {
      var k := Locate(alias);
      if k.None? {
        return Fail(ParticipationNotFound);
      }
      var i := k.value;
      match MarkUnloaded(participants[i])
      case Err(e) =>
        r := Fail(e);
      case Ok(q) =>
        RestatusKeepsConsistent(allowedSpaces, participants, i, RPStatus.Done);
        participants := participants[i := q];
        r := Pass;
    }
  }
}
