/** Client runs over the ride, participation and user contracts: the outcomes
    below follow from the contracts alone. */
module Scenarios {
  import opened Wrappers
  import opened Errors
  import opened Participations
  import opened Rides
  import opened Users

  function Request(alias: string, seats: nat): Participation
  {
    Participation(alias, "X", seats, None, Waiting)
  }

  /** A second request under the same alias is refused, whatever became of the first. */
  method DuplicateRequestIsRefused()
  {
    var ride := new Ride(1, 0, "X", 2, "drv");
    var r1 := ride.RequestJoin(Request("p", 1));
    assert r1 == Pass;
    var r2 := ride.RequestJoin(Request("p", 1));
    assert r2 == Fail(DuplicateRequest);
    var rejected := ride.Reject("p");
    assert rejected == Pass;
    var r3 := ride.RequestJoin(Request("p", 1));
    assert r3 == Fail(DuplicateRequest);
  }

  /** A waiting request holds no seat, so a second one-seat request on a
      one-seat ride is registered; only one of the two can then be accepted. */
  method WaitingReservesNoSeat()
  {
    var ride := new Ride(2, 0, "X", 1, "drv");
    var r1 := ride.RequestJoin(Request("p1", 1));
    OccupiedAppend([], Request("p1", 1));
    var r2 := ride.RequestJoin(Request("p2", 1));
    OccupiedAppend([Request("p1", 1)], Request("p2", 1));
    assert r1 == Pass && r2 == Pass;
    var a1 := ride.Accept("p1", 10);
    assert a1 == Pass && ride.participants[0].confirmation == Some(10);
    var a2 := ride.Accept("p2", 11);
    assert a2 == Fail(NoFreeSeats);
    var r3 := ride.RequestJoin(Request("p3", 1));
    assert r3 == Fail(NotEnoughFreeSpaces);
  }

  /** Departure: the confirmed rider is on board, the undecided one is missing,
      and a second start fails. */
  method StartMarksMissing()
  {
    var p1 := Participation("p1", "A", 1, Some(5), Confirmed);
    var p2 := Request("p2", 1);
    var ride := new Ride(3, 0, "X", 2, "drv", Ready, [p1, p2]);
    var s1 := ride.Start();
    assert s1 == Pass && ride.status == RideStatus.InProgress;
    assert ride.participants[0].status == RPStatus.InProgress;
    assert ride.participants[1].status == Missing;
    var s2 := ride.Start();
    assert s2 == Fail(RideAlreadyStartedOrFinished);
  }

  /** Drop-off runs once per rider; arrival marks riders still on board, and a
      second end fails. */
  method UnloadThenEnd()
  {
    var p1 := Participation("p1", "A", 1, Some(5), RPStatus.InProgress);
    var p2 := Participation("p2", "B", 1, Some(6), RPStatus.InProgress);
    var ride := new Ride(4, 0, "X", 2, "drv", RideStatus.InProgress, [p1, p2]);
    var u1 := ride.Unload("p1");
    assert u1 == Pass && ride.participants == [p1.(status := RPStatus.Done), p2];
    var u2 := ride.Unload("p1");
    assert u2 == Fail(CanOnlyUnloadInProgress);
    var u3 := ride.Unload("p3");
    assert u3 == Fail(ParticipationNotFound);
    var e1 := ride.End();
    assert e1 == Pass && ride.status == RideStatus.Done;
    assert ride.participants[0].status == RPStatus.Done;
    assert ride.participants[1].status == NotMarked;
    var e2 := ride.End();
    assert e2 == Fail(RideNotInProgress);
  }

  /** A confirmed participant cannot be unloaded. */
  method UnloadNeedsInProgress()
  {
    var p := Participation("p", "X", 1, None, Confirmed);
    assert MarkUnloaded(p) == Err(CanOnlyUnloadInProgress);
  }

  /** A user with one completed ride. */
  method CompletedRideIsCounted()
  {
    var u := User("a", "A", None, [Participation("a", "X", 1, None, RPStatus.Done)]);
    var stats := GetRideStats(u);
    OneDoneStats(u);
    assert stats.completed == 1 && stats.total == 1;
  }
}
