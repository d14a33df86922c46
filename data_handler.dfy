/** The in-memory store of users and rides with its sequential ride ids
    (src/models/data_handler.py). */
module Directory {
  import opened Wrappers
  import opened Users
  import opened Rides
  import opened Search

  function UserAlias(u: User): string
  {
    u.alias
  }

  function RideId(r: Ride): int
  {
    r.id
  }

  /** The position of the first user with this alias, if any. */
  function UserIndex(users: seq<User>, alias: string): Option<nat>
  {
    FirstIndex(users, UserAlias, alias)
  }

  /** The position of the first ride with this id, if any. */
  function RideIndex(rides: seq<Ride>, id: int): Option<nat>
  {
    FirstIndex(rides, RideId, id)
  }

  /** No two stored users share an alias. */
  predicate DistinctUserAliases(users: seq<User>)
  {
    forall i, j :: 0 <= i < j < |users| ==> users[i].alias != users[j].alias
  }

  /** Appending a user whose alias the search does not find, as the
      registration handler checks before storing, keeps aliases unique. */
  lemma AddUserKeepsAliases(users: seq<User>, u: User)
    requires DistinctUserAliases(users) && UserIndex(users, u.alias).None?
    ensures DistinctUserAliases(users + [u])
  {
  }

  /** With unique aliases, the search by alias finds every stored user at its own place. */
  lemma StoredUserIsFound(users: seq<User>, i: nat)
    requires DistinctUserAliases(users) && i < |users|
    ensures UserIndex(users, users[i].alias) == Some(i)
  {
  }

  /** Stored ride ids are pairwise distinct and all below the next id. */
  predicate IdsBelow(rides: seq<Ride>, next: int)
  {
    && (forall i :: 0 <= i < |rides| ==> rides[i].id < next)
    && (forall i, j :: 0 <= i < j < |rides| ==> rides[i].id != rides[j].id)
  }

  /** Storing a ride under the next id, then counting on, keeps ids distinct
      and below the counter. */
  lemma AddRideKeepsIds(rides: seq<Ride>, ride: Ride, next: int)
    requires IdsBelow(rides, next) && ride.id == next
    ensures IdsBelow(rides + [ride], next + 1)
  {
  }

  /** With distinct ids, the search by id finds every stored ride at its own place. */
  lemma StoredRideIsFound(rides: seq<Ride>, next: int, i: nat)
    requires IdsBelow(rides, next) && i < |rides|
    ensures RideIndex(rides, rides[i].id) == Some(i)
  {
  }

  /** The id the counter holds is not yet used by any stored ride. */
  lemma FreshIdIsUnused(rides: seq<Ride>, next: int)
    requires IdsBelow(rides, next)
    ensures RideIndex(rides, next).None?
  {
  }

  class DataHandler {
    var users: seq<User>
    var rides: seq<Ride>
    var nextRideId: int

    /** The invariant kept by a caller that stores each ride under `nextRideId`
        and registers a user only when its alias is not yet taken. */
    predicate Valid()
      reads this
    {
      nextRideId >= 1 && IdsBelow(rides, nextRideId) && DistinctUserAliases(users)
    }

    /** An empty store whose first ride id is 1. */
    constructor ()
      ensures users == [] && rides == [] && nextRideId == 1
      ensures Valid()
    {
      users := [];
      rides := [];
      nextRideId := 1;
    }

    /** The first user with this alias, or none. */
    method GetUser(alias: string) returns (r: Option<User>)
      ensures r.None? <==> UserIndex(users, alias).None?
      ensures r.Some? ==> r.value == users[UserIndex(users, alias).value]
    {
      var i := 0;
      while i < |users|
        invariant 0 <= i <= |users|
        invariant forall j :: 0 <= j < i ==> users[j].alias != alias
      {
        if users[i].alias == alias {
          return Some(users[i]);
        }
        i := i + 1;
      }
      return None;
    }

    /** The first ride with this id, or none. */
    method GetRide(id: int) returns (r: Option<Ride>)
      ensures r.None? <==> RideIndex(rides, id).None?
      ensures r.Some? ==> r.value == rides[RideIndex(rides, id).value]
    {
      var i := 0;
      while i < |rides|
        invariant 0 <= i <= |rides|
        invariant forall j :: 0 <= j < i ==> rides[j].id != id
      {
        if rides[i].id == id {
          return Some(rides[i]);
        }
        i := i + 1;
      }
      return None;
    }

    /** Appends the user; duplicates are not checked here. */
    method AddUser(u: User)
      modifies this
      ensures users == old(users) + [u]
      ensures rides == old(rides) && nextRideId == old(nextRideId)
      ensures old(Valid()) && UserIndex(old(users), u.alias).None? ==> Valid()
    {
      users := users + [u];
    }

    /** Appends the ride and advances the id counter by one. */
    method AddRide(ride: Ride)
      modifies this
      ensures rides == old(rides) + [ride] && nextRideId == old(nextRideId) + 1
      ensures users == old(users)
      ensures old(Valid()) && ride.id == old(nextRideId) ==> Valid()
    {
      rides := rides + [ride];
      nextRideId := nextRideId + 1;
    }
  }
}
