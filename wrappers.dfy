/** Option, Result and Outcome: the values that stand for Python's `None`
    and for a raised `ValueError` throughout the model. */
module Wrappers {

  datatype Option<+T> = None | Some(value: T)

  /** An operation that computes a value or fails with an error. */
  datatype Result<+T, +E> = Ok(value: T) | Err(error: E)

  /** An operation run for its effect, which succeeds or fails with an error. */
  datatype Outcome<+E> = Pass | Fail(error: E)
}

/** The domain errors the core raises. The two field-validation failures are
    raised by the validation library with its own wording, which is not
    modelled; every other error carries one fixed reason string. */
module Errors {
  import opened Wrappers

  datatype Error =
    | InvalidSeatCount              // a participation's seat count is not greater than -1
    | InvalidAllowedSpaces          // a ride's allowed seat count is not greater than 0
    | RideAlreadyStarted            // request_join on a ride that is not ready
    | DuplicateRequest              // request_join with an alias already present
    | NotEnoughFreeSpaces           // request_join asking for more than the free seats
    | NoWaitingRequestToAccept      // accept without a waiting participation
    | NoFreeSeats                   // accept asking for more than the free seats
    | NoWaitingRequestToReject      // reject without a waiting participation
    | RideAlreadyStartedOrFinished  // start on a ride that is not ready
    | RideNotInProgress             // end on a ride that is not in progress
    | CanOnlyUnloadInProgress       // mark_unloaded on a participant not in progress
    | ParticipationNotFound         // unload of an alias the ride does not hold

  predicate IsValidationError(e: Error)
  {
    e == InvalidSeatCount || e == InvalidAllowedSpaces
  }

  /** The reason string the raised exception carries; none for the two
      validation failures, whose wording belongs to the validation library. */
  function Message(e: Error): (m: Option<string>)
    ensures m.None? <==> IsValidationError(e)
    ensures m.Some? ==> |m.value| > 0
  {
    match e
    case InvalidSeatCount => None
    case InvalidAllowedSpaces => None
    case RideAlreadyStarted => Some("Ride already started")
    case DuplicateRequest => Some("Duplicate request")
    case NotEnoughFreeSpaces => Some("Not enough free spaces")
    case NoWaitingRequestToAccept => Some("No waiting request to accept")
    case NoFreeSeats => Some("No free seats")
    case NoWaitingRequestToReject => Some("No waiting request to reject")
    case RideAlreadyStartedOrFinished => Some("Ride already started/finished")
    case RideNotInProgress => Some("Ride not in progress")
    case CanOnlyUnloadInProgress => Some("Can only unload inprogress participants")
    case ParticipationNotFound => Some("Participation not found")
  }

  /** Distinct domain errors carry distinct reason strings, so a caller can
      tell every refusal apart by its string alone. */
  lemma MessagesDistinct(e1: Error, e2: Error)
    requires !IsValidationError(e1) && !IsValidationError(e2) && e1 != e2
    ensures Message(e1) != Message(e2)
  {
  }
}

/** The first-match linear search shared by every lookup of the core. */
module Search {
  import opened Wrappers

  /** The position of the first element whose key is `k`, or none when no
      element has that key. */
  function FirstIndex<T, K(==)>(s: seq<T>, key: T -> K, k: K): (r: Option<nat>)
    ensures r.None? <==> forall i :: 0 <= i < |s| ==> key(s[i]) != k
    ensures r.Some? ==> r.value < |s| && key(s[r.value]) == k
                        && forall j :: 0 <= j < r.value ==> key(s[j]) != k
  {
    if s == [] then None
    else if key(s[0]) == k then Some(0)
    else match FirstIndex(s[1..], key, k)
      case None => None
      case Some(i) => Some(i + 1)
  }
}
