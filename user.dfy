/** A registered user and the statistics drawn from its ride history
    (src/models/user.py). */
module Users {
  import opened Wrappers
  import opened Participations

  /** `carPlate` is set only for drivers. */
  datatype User = User(alias: string, name: string, carPlate: Option<string>,
                       rides: seq<Participation>)

  /** The five numbers reported for a user's history. */
  datatype RideStats = RideStats(total: nat, completed: nat, missing: nat,
                                 notMarked: nat, rejected: nat)

  /** How many history entries have status `s`. */
  function CountStatus(rides: seq<Participation>, s: RPStatus): (n: nat)
    ensures n <= |rides|
  {
    if rides == [] then 0
    else (if rides[0].status == s then 1 else 0) + CountStatus(rides[1..], s)
  }

  /** The statuses of the history, in order. */
  function Statuses(rides: seq<Participation>): (r: seq<RPStatus>)
    ensures |r| == |rides| && forall i :: 0 <= i < |rides| ==> r[i] == rides[i].status
  {
    seq(|rides|, i requires 0 <= i < |rides| => rides[i].status)
  }

  /** The count agrees with the multiplicity of the status in the history. */
  lemma {:induction false} CountIsMultiplicity(rides: seq<Participation>, s: RPStatus)
    ensures CountStatus(rides, s) == multiset(Statuses(rides))[s]
  {
    if rides != [] {
      CountIsMultiplicity(rides[1..], s);
      assert Statuses(rides) == [rides[0].status] + Statuses(rides[1..]);
    }
  }

  /** Every entry has one status, so the four reported categories together
      never count more entries than the history holds. */
  lemma {:induction false} CategoriesWithinTotal(rides: seq<Participation>)
    ensures CountStatus(rides, Done) + CountStatus(rides, Missing)
            + CountStatus(rides, NotMarked) + CountStatus(rides, Rejected) <= |rides|
  {
    if rides != [] {
      CategoriesWithinTotal(rides[1..]);
    }
  }

  /** The statistics of `get_ride_stats`; the history is only read. */
  function GetRideStats(u: User): (r: RideStats)
    ensures r.total == |u.rides|
    ensures r.completed == multiset(Statuses(u.rides))[Done]
    ensures r.missing == multiset(Statuses(u.rides))[Missing]
    ensures r.notMarked == multiset(Statuses(u.rides))[NotMarked]
    ensures r.rejected == multiset(Statuses(u.rides))[Rejected]
    ensures r.completed + r.missing + r.notMarked + r.rejected <= r.total
  {
    CountIsMultiplicity(u.rides, Done);
    CountIsMultiplicity(u.rides, Missing);
    CountIsMultiplicity(u.rides, NotMarked);
    CountIsMultiplicity(u.rides, Rejected);
    CategoriesWithinTotal(u.rides);
    RideStats(|u.rides|, CountStatus(u.rides, Done), CountStatus(u.rides, Missing),
              CountStatus(u.rides, NotMarked), CountStatus(u.rides, Rejected))
  }

  /** An empty history reports zero everywhere. */
  lemma EmptyHistoryStats(u: User)
    requires u.rides == []
    ensures GetRideStats(u) == RideStats(0, 0, 0, 0, 0)
  {
  }

  /** A history of one done participation reports one ride, completed. */
  lemma OneDoneStats(u: User)
    requires |u.rides| == 1 && u.rides[0].status == Done
    ensures GetRideStats(u).total == 1 && GetRideStats(u).completed == 1
    ensures GetRideStats(u).missing == 0 && GetRideStats(u).rejected == 0
  {
  }
}
