# Ride-sharing core in Dafny

This project models the domain core of a ride-sharing backend. A driver offers a
**ride** with a fixed number of seats. Participants file **participations**
(join requests), each with a seat count and a status. The driver accepts or
rejects waiting requests, starts the ride, drops participants off ("unload")
and ends the ride. A **user** reports statistics over its ride history. A
**directory** (`DataHandler`) stores users and rides and hands out sequential
ride ids.

Files and modules:

- `wrappers.dfy`: `Wrappers` (Option, Result, Outcome); `Errors`, with one
  error per reason string the source raises and one per field-validation
  failure; and `Search`, the first-match linear search that every lookup uses.
- `participation.dfy`: `Participations`. The seven participation statuses, the
  participation record, its validated construction and the unload transition.
- `ride.dfy`: `Rides`. The seat ledger as pure functions with their lemmas, and
  the `Ride` class. The class holds the participation list as a `seq` field and
  has one method per guarded transition.
- `user.dfy`: `Users`. The user record and `GetRideStats`.
- `data_handler.dfy`: `Directory`. The `DataHandler` class with its search
  loops, its appends and the ride-id counter.
- `scenarios.dfy`: `Scenarios`. Client methods whose assertions follow from
  the contracts alone: a duplicate request is refused, waiting requests hold no
  seat, start marks undecided requests missing, unload runs once, and end runs
  once.

How the model is built:

- The seat invariant is `Rides.Consistent`: occupied seats ≤ allowed seats, and
  aliases are pairwise distinct. It is not a constructor guarantee, because the
  source's `Ride` accepts any initial list. Each `Ride` method instead ensures
  `old(Valid()) ==> Valid()`, using the `...KeepsConsistent` lemmas.
- Each failing operation leaves the ride exactly as it was.
- The ride status only moves forward: `Stage(old(status)) <= Stage(status)`.
- The source raises `ValueError`. The model returns `Fail(e)` or `Err(e)`
  instead. `Errors.Message` gives the reason string for each domain error. It
  gives none for the two field-validation failures, whose wording comes from the
  validation library.

Where the model follows the code rather than other descriptions of it:

- Waiting requests reserve no seat (`src/models/ride.py:30-34,53`). A second
  one-seat request on a one-seat ride whose first request is still waiting is
  therefore registered; `Scenarios.WaitingReservesNoSeat` shows this. The
  repository's test `tests/test_core.py:37-51` expects a refusal there.
- `request_join` appends the participation exactly as the caller built it. It
  does not force the status to waiting (`src/models/ride.py:55`).
- The unload action is the controller's use of `get_participation` followed by
  `mark_unloaded` (`src/controller.py:239-249`). It does not consult the ride's
  own status.

## Model

| member | source | states |
|---|---|---|
| `Participations.NewParticipation` | src/models/ride_participation.py:20-25 | A record is built exactly when the seat count is greater than -1, so zero is accepted. Otherwise the validation error is returned. The built record carries the given fields. |
| `Participations.NewParticipationDefaults` | src/models/ride_participation.py:24-25 | Without an explicit confirmation and status, a new record is waiting with no confirmation. Zero seats is a valid count. |
| `Participations.CanBeUnloaded` | src/models/ride_participation.py:28-29 | Holds exactly when the status is inprogress, so never for a waiting or an already done participant. |
| `Participations.MarkUnloaded` | src/models/ride_participation.py:28-34 | Unloading succeeds exactly when the status is inprogress, and then yields done. Otherwise it fails with "Can only unload inprogress participants". Only the status changes; alias, destination, seats and confirmation are kept. |
| `Participations.UnloadOnlyOnce` | src/models/ride_participation.py:28-34 | After a successful unload, a second unload always fails. |
| `Errors.Message` | src/models/ride.py:48-89 | Each domain error carries a reason string, and the string is never empty. The two field-validation failures carry none, because their wording is not modelled. |
| `Errors.MessagesDistinct` | src/models/ride.py:48-89 | Two different domain errors carry different reason strings. |
| `Rides.Occupied` | src/models/ride.py:28-34 | The occupied seats are zero when no entry is confirmed, inprogress or done. Each such entry's seats are within the total. |
| `Rides.OccupiedAppend` | src/models/ride.py:28-34 | Occupied seats grow by an entry's seats exactly when its status is confirmed, inprogress or done. Waiting, rejected, missing and notmarked entries add nothing. |
| `Rides.OccupiedUpdate` | src/models/ride.py:28-34 | Replacing one entry changes the occupied total by the difference between the new and old entries' contributions. |
| `Rides.Ride.FreeSpaces` | src/models/ride.py:36-38 | The free seats never exceed the allowed seats. They equal the allowed seats exactly when nothing is occupied. They are never negative on a ride that keeps the seat invariant. |
| `Rides.Confirm` | src/models/ride.py:63-64 | An accepted entry keeps its alias, destination and seats. It becomes confirmed, stamped with the given time, and now holds its seats. |
| `Rides.StartOne` | src/models/ride.py:77-80 | Departure changes only the status. No entry is left waiting or confirmed, and an entry keeps its side of the seat ledger. Entries in any other status are untouched. |
| `Rides.EndOne` | src/models/ride.py:86-88 | Arrival changes only the status. No entry is left inprogress, and an entry never gains seats. Entries not in progress are untouched. |
| `Search.FirstIndex` | src/models/ride.py:41-45 | The first-match search behind `get_participation`, `get_user` and `get_ride`. It gives the position of the first element with the key. It gives none exactly when no element has the key. |
| `Rides.StartAll` | src/models/ride.py:76-80 | The bulk departure keeps the length. Entry i becomes the departure of entry i: confirmed to inprogress, waiting to missing, others unchanged. |
| `Rides.EndAll` | src/models/ride.py:86-88 | The bulk arrival keeps the length. Entry i becomes the arrival of entry i: inprogress to notmarked, others unchanged. |
| `Rides.StartKeepsOccupied` | src/models/ride.py:72-81 | Starting a ride leaves the occupied seats unchanged. |
| `Rides.EndReleasesSeats` | src/models/ride.py:83-89 | Ending a ride never increases the occupied seats. |
| `Rides.JoinKeepsConsistent` | src/models/ride.py:48-55 | Appending a request with a new alias whose seats fit the free ones keeps seats ≤ allowed and aliases distinct. |
| `Rides.AcceptKeepsConsistent` | src/models/ride.py:57-64 | Confirming a waiting entry whose seats fit takes exactly its seats and keeps the invariant. |
| `Rides.RestatusKeepsConsistent` | src/models/ride.py:66-70 | A status change that does not cross the seat-holding line keeps the occupied seats and the invariant. Reject (waiting to rejected) and unload (inprogress to done) are such changes. |
| `Rides.StartKeepsConsistent` | src/models/ride.py:72-81 | Starting keeps the seat and alias invariant. |
| `Rides.EndKeepsConsistent` | src/models/ride.py:83-89 | Ending keeps the seat and alias invariant. |
| `Rides.Ride.constructor` | src/models/ride.py:18-25 | A ride with a positive seat count holds the given fields. It is ready with no participants unless these are given. |
| `Rides.Ride.Create` | src/models/ride.py:22 | A seat count ≤ 0 is refused with the allowed-spaces validation error. Otherwise a fresh ride holds the given fields. |
| `Rides.Ride.Locate` | src/models/ride.py:41-45 | The search loop finds the position of the first entry with the alias, or none. |
| `Rides.Ride.GetParticipation` | src/models/ride.py:41-45 | Returns none exactly when no entry has the alias. Otherwise it returns the first entry that has it. Nothing is changed. |
| `Rides.Ride.RequestJoin` | src/models/ride.py:48-55 | Three checks, in order: "Ride already started" unless the ride is ready, "Duplicate request" if the alias is present, "Not enough free spaces" if the seats exceed the free seats. On success the request is appended at the end. Status is untouched, a failure changes nothing, and the invariant is kept. |
| `Rides.Ride.Accept` | src/models/ride.py:57-64 | Fails with "No waiting request to accept" unless the first entry with the alias is waiting. Then fails with "No free seats" if its seats exceed the free seats. Otherwise only that entry becomes confirmed, stamped with the given time. The invariant is kept. |
| `Rides.Ride.Reject` | src/models/ride.py:66-70 | Fails with "No waiting request to reject" unless the first entry with the alias is waiting. Otherwise only that entry becomes rejected. The invariant is kept. |
| `Rides.Ride.Start` | src/models/ride.py:72-81 | Fails with "Ride already started/finished" unless the ride is ready, changing nothing. Otherwise every entry is departed (see `StartAll`) and the ride becomes inprogress, so a second start fails. Status never moves back, and the invariant is kept. |
| `Rides.Ride.End` | src/models/ride.py:83-89 | Fails with "Ride not in progress" unless the ride is inprogress, changing nothing. Otherwise every inprogress entry becomes notmarked and the ride becomes done, so a second end fails. Status never moves back, and the invariant is kept. |
| `Rides.Ride.Unload` | src/controller.py:239-249 | Fails with "Participation not found" if no entry has the alias. Otherwise it applies `MarkUnloaded` to the first such entry: on success only that entry changes, on failure nothing does. The ride status is untouched, and the invariant is kept. |
| `Users.CountStatus` | src/models/user.py:16-19 | The number of history entries with a given status never exceeds the history's length. |
| `Users.CountIsMultiplicity` | src/models/user.py:16-19 | The count of a status equals its multiplicity in the multiset of the history's statuses. |
| `Users.CategoriesWithinTotal` | src/models/user.py:15-19 | Completed, missing, notmarked and rejected counts together never exceed the number of entries. |
| `Users.GetRideStats` | src/models/user.py:13-26 | Total is the history's length. Each category is the multiplicity of done, missing, notmarked or rejected. The four categories sum to at most the total. The history is only read. |
| `Users.EmptyHistoryStats` | src/models/user.py:13-26 | An empty history yields all five numbers zero. |
| `Users.OneDoneStats` | src/models/user.py:13-26 | A history of one done entry yields total 1 and completed 1. |
| `Directory.AddRideKeepsIds` | src/models/data_handler.py:27-29 | Storing a ride under the counter's id, then incrementing the counter, keeps stored ids distinct and below the counter. |
| `Directory.StoredRideIsFound` | src/models/data_handler.py:18-22 | With distinct ids, looking up a stored ride's id finds that ride at its own position. |
| `Directory.FreshIdIsUnused` | src/models/data_handler.py:10 | The counter's id is not held by any stored ride. |
| `Directory.AddUserKeepsAliases` | src/controller.py:26-34 | Appending a user whose alias the search does not find keeps user aliases unique. This is the check the registration handler makes before storing. |
| `Directory.StoredUserIsFound` | src/models/data_handler.py:12-16 | With unique aliases, looking up a stored user's alias finds that user at its own position. |
| `Directory.DataHandler.constructor` | src/models/data_handler.py:8-10 | A new store has no users, no rides and next ride id 1. |
| `Directory.DataHandler.GetUser` | src/models/data_handler.py:12-16 | The search loop returns the first user with the alias, or none when there is none. Nothing is changed. |
| `Directory.DataHandler.GetRide` | src/models/data_handler.py:18-22 | The search loop returns the first ride with the id, or none when there is none. Nothing is changed. |
| `Directory.DataHandler.AddUser` | src/models/data_handler.py:24-25 | Appends the user with no duplicate check. Rides and the counter are unchanged. If the alias was not yet stored, as the registration handler checks first, unique aliases and the rest of the store invariant are kept. |
| `Directory.DataHandler.AddRide` | src/models/data_handler.py:27-29 | Appends the ride and increments the counter by exactly one. Users are unchanged. If the ride carries the counter's id, the distinct-ids invariant is kept. |

## Left out

- HTTP routing, status-code mapping and response shaping (`src/controller.py`) are not modelled, nor are the request and response shapes (`src/schemas.py`). The only exception is the unload action, modelled as `Ride.Unload`. The controller's earlier unload handler (`src/controller.py:105-116`) behaves the same and is not modelled separately.
- Field coercion (status strings to enum members) is not modelled. Dates and addresses are opaque values: a `Timestamp` is an `int`, and addresses and destinations are strings with no meaning. The wording of the two field-validation errors (`src/models/ride_participation.py:23`, `src/models/ride.py:22`) is not modelled, so `Errors.Message` gives none for them.
- The clock read in `accept` is not modelled: `Ride.Accept` takes the confirmation time as a parameter.
- Participations are values, not shared objects. A participation mutated through one reference and seen through another, such as a user's history sharing records with a ride, is not captured. Every mutation goes through the owning ride.
- `Users.User`: the history holds participation records only. The controller also appends ride objects to a driver's history (`src/controller.py:72`). Those rides would be counted by status string in the statistics; this is not modelled.
- `Directory.DataHandler.GetUser` returns the user value. The controller's later mutation of the returned user object is not captured.
- `Rides.Ride.constructor` requires a positive seat count. The refusal of a non-positive count is modelled by `Rides.Ride.Create`.
- Integer widths: Python integers are unbounded, so `int` and `nat` need no wrap-around.
- Concurrency: none exists in the code, so none is modelled.
