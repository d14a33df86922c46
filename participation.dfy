/** A participant's request to ride: its seat count and its status lifecycle
    (src/models/ride_participation.py). */
module Participations {
  import opened Wrappers
  import opened Errors

  /** An instant; the source's `datetime` values are opaque here. */
  type Timestamp = int

  /** The seven participation statuses. */
  datatype RPStatus = Waiting | Rejected | Confirmed | Missing | NotMarked | InProgress | Done

  /** One participation record. `seats` is the source's `occupied_spaces`. */
  datatype Participation = Participation(
    alias: string,
    destination: string,
    seats: nat,
    confirmation: Option<Timestamp>,
    status: RPStatus)

  /** Building a record: the seat count must be greater than -1, the
      confirmation defaults to none and the status to waiting. */
  function NewParticipation(alias: string, destination: string, seats: int,
                            confirmation: Option<Timestamp> := None,
                            status: RPStatus := Waiting): (r: Result<Participation, Error>)
    ensures r.Ok? <==> seats >= 0
    ensures r.Err? ==> r.error == InvalidSeatCount
    ensures r.Ok? ==> r.value.alias == alias && r.value.destination == destination
                      && r.value.seats == seats
                      && r.value.confirmation == confirmation && r.value.status == status
  {
    if seats < 0 then Err(InvalidSeatCount)
    else Ok(Participation(alias, destination, seats, confirmation, status))
  }

  /** A record built without confirmation and status is waiting and unconfirmed,
      and zero seats is an accepted count. */
  lemma NewParticipationDefaults(alias: string, destination: string, seats: nat)
    ensures NewParticipation(alias, destination, seats)
            == Ok(Participation(alias, destination, seats, None, Waiting))
    ensures NewParticipation(alias, destination, 0).Ok?
  {
  }

  /** Only a participant on board can be dropped off: the one status from which
      `MarkUnloaded` succeeds. */
  predicate CanBeUnloaded(p: Participation): (b: bool)
    ensures b <==> p.status == InProgress
    ensures b ==> p.status != Waiting && p.status != Done
  {
    p.status == InProgress
  }

  /** The drop-off: only an in-progress participant can be unloaded, it becomes
      done and nothing but its status changes; any other status is refused. */
  function MarkUnloaded(p: Participation): (r: Result<Participation, Error>)
    ensures r.Ok? <==> p.status == InProgress
    ensures r.Ok? ==> r.value.status == Done && r.value == p.(status := Done)
    ensures r.Err? ==> r.error == CanOnlyUnloadInProgress
  {
    if !CanBeUnloaded(p) then Err(CanOnlyUnloadInProgress)
    else Ok(p.(status := Done))
  }

  /** Unloading twice fails the second time, since done is not in progress. */
  lemma UnloadOnlyOnce(p: Participation)
    requires MarkUnloaded(p).Ok?
    ensures MarkUnloaded(MarkUnloaded(p).value) == Err(CanOnlyUnloadInProgress)
  {
  }
}
