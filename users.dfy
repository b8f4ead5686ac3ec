/**
 * The dashboard's user records and the four counters it derives from them.
 */
module Users {

  import opened Wrappers
  import opened Seqs
  import Text

  /**
   * A user or client record. Optional properties are None when absent.
   * `createdAt` is the creation time as `new Date(...)` reads it, in
   * milliseconds: None when the property is absent, empty or not a date.
   */
  datatype User = User(
    id: string,
    name: Option<string>,
    email: Option<string>,
    phone: Option<string>,
    createdAt: Option<int>,
    status: Option<string>)

  datatype Stats = Stats(totalUsers: nat, activeUsers: nat, recentUsers: nat, usersWithEmail: nat)

  /** The counters before any data has been loaded. */
  const NoStats := Stats(0, 0, 0, 0)

  /** Thirty days, in milliseconds. */
  const ThirtyDays := 30 * 24 * 60 * 60 * 1000

  /** `u.status === "active" || !u.status`: a missing or empty status counts as active. */
  predicate IsActive(u: User)
  {
    u.status == None || u.status == Some("") || u.status == Some("active")
  }

  /** A status that is present, not empty and not "active". */
  predicate HasOtherStatus(u: User)
  {
    u.status.Some? && u.status.value != "" && u.status.value != "active"
  }

  /** Created strictly after thirty days before `now`. */
  predicate IsRecent(u: User, now: int)
  {
    u.createdAt.Some? && u.createdAt.value > now - ThirtyDays
  }

  /** An email that is present and not blank once trimmed. */
  predicate HasEmail(u: User)
  {
    u.email.Some? && Text.Trim(u.email.value) != ""
  }

  /** The dashboard counters for `users`, at time `now`. */
  function ComputeStats(users: seq<User>, now: int): (s: Stats)
    ensures s.totalUsers == |users|
    ensures s.activeUsers <= s.totalUsers && s.recentUsers <= s.totalUsers && s.usersWithEmail <= s.totalUsers
  {
    Stats(
      |users|,
      |Filter(users, IsActive)|,
      |Filter(users, u => IsRecent(u, now))|,
      |Filter(users, HasEmail)|)
  }

  /** Every user is either counted active or carries some other status, never both. */
  lemma ActivePartition(users: seq<User>, now: int)
    ensures ComputeStats(users, now).activeUsers + |Filter(users, HasOtherStatus)| == ComputeStats(users, now).totalUsers
  {
    FilterComplement(users, IsActive, HasOtherStatus);
  }

  /** A user's email counts exactly when it holds some character that is not white space. */
  lemma HasEmailIff(u: User)
    requires u.email.Some?
    ensures HasEmail(u) <==> exists i :: 0 <= i < |u.email.value| && !Text.IsTrimmable(u.email.value[i])
  {
    Text.TrimEmptyIff(u.email.value);
  }

  /** With a later `now` the thirty-day window moves on, so the recent count can only fall. */
  lemma RecentMonotone(users: seq<User>, earlier: int, later: int)
    requires earlier <= later
    ensures ComputeStats(users, later).recentUsers <= ComputeStats(users, earlier).recentUsers
  {
    FilterMonotone(users, u => IsRecent(u, later), u => IsRecent(u, earlier));
  }

  /** Counters of a concatenation add up: each one is a count over the records, independent of the others. */
  lemma StatsConcat(a: seq<User>, b: seq<User>, now: int)
    ensures ComputeStats(a + b, now).activeUsers == ComputeStats(a, now).activeUsers + ComputeStats(b, now).activeUsers
    ensures ComputeStats(a + b, now).recentUsers == ComputeStats(a, now).recentUsers + ComputeStats(b, now).recentUsers
    ensures ComputeStats(a + b, now).usersWithEmail == ComputeStats(a, now).usersWithEmail + ComputeStats(b, now).usersWithEmail
  {
    FilterConcat(a, b, IsActive);
    FilterConcat(a, b, u => IsRecent(u, now));
    FilterConcat(a, b, HasEmail);
  }

  /**
   * No users give zero counters, and a single user counts once in each
   * counter whose condition it meets; with StatsConcat this fixes every
   * counter of every list.
   */
  lemma StatsOfOne(u: User, now: int)
    ensures ComputeStats([], now) == NoStats
    ensures ComputeStats([u], now) ==
              Stats(1, if IsActive(u) then 1 else 0, if IsRecent(u, now) then 1 else 0, if HasEmail(u) then 1 else 0)
  {
    assert [u][1..] == [];
  }
}
