/**
 * How the dashboard obtains its users: three endpoints tried in order,
 * each response unwrapped by `r.data || r || []`, the first one that
 * goes through winning, and an empty list when none does.
 */
module UserFetch {

  import opened Wrappers
  import opened Users

  /** The endpoints tried, in priority order. */
  const Candidates: seq<string> := ["/clients", "/users", "/admin/users"]

  /** A JSON value, told apart only as far as `r.data || r || []` and the code after it can tell. */
  datatype Json =
    | Nullish                  // null or undefined: reading a property of it throws
    | FalsyScalar              // false, 0, NaN or "": falsy, its properties read as undefined
    | TruthyScalar             // any other number or string, or true
    | List(users: seq<User>)   // an array, truthy even when empty
    | Object(data: Json)       // any other object; `data` is its data property, Nullish when absent

  /** JavaScript truthiness. */
  predicate Truthy(v: Json)
  {
    !(v.Nullish? || v.FalsyScalar?)
  }

  /** What one `apiFetch` call does: reject, or resolve to a value. */
  datatype Outcome = Rejected | Resolved(response: Json)

  /** Reading `r.data`: None when it throws, Nullish (undefined) when `r` has no such property. */
  function DataProperty(r: Json): Option<Json>
  {
    match r
    case Nullish => None
    case Object(d) => Some(d)
    case _ => Some(Nullish)
  }

  /** `r.data || r || []`; None when reading `r.data` throws. */
  function Unwrap(r: Json): (u: Option<Json>)
    ensures u.None? <==> r.Nullish?
    ensures u.Some? ==> Truthy(u.value)
    ensures r.Object? && Truthy(r.data) ==> u == Some(r.data)
    ensures r.Object? && !Truthy(r.data) ==> u == Some(r)
    ensures r.List? || r.TruthyScalar? ==> u == Some(r)
    ensures r.FalsyScalar? ==> u == Some(List([]))
  {
    match DataProperty(r)
    case None => None
    case Some(data) =>
      if Truthy(data) then Some(data)
      else if Truthy(r) then Some(r)
      else Some(List([]))
  }

  /** The value one fallback step stores in `userData`; None when its try block throws. */
  function Attempt(o: Outcome): Option<Json>
  {
    match o
    case Rejected => None
    case Resolved(r) => Unwrap(r)
  }

  /** The position of the first candidate, from `i` on, whose try block completes. */
  function FirstSuccess(api: string -> Outcome, i: nat): (k: Option<nat>)
    ensures k.Some? ==> i <= k.value < |Candidates| && Attempt(api(Candidates[k.value])).Some?
    ensures k.Some? ==> forall j :: i <= j < k.value ==> Attempt(api(Candidates[j])).None?
    ensures k.None? ==> forall j :: i <= j < |Candidates| ==> Attempt(api(Candidates[j])).None?
    decreases |Candidates| - i
  {
    if i >= |Candidates| then None
    else if Attempt(api(Candidates[i])).Some? then Some(i)
    else FirstSuccess(api, i + 1)
  }

  /** The user data the chain settles on. */
  function FetchUsers(api: string -> Outcome): (d: Json)
    ensures Truthy(d)
    ensures FirstSuccess(api, 0).Some? ==> Attempt(api(Candidates[FirstSuccess(api, 0).value])) == Some(d)
    ensures FirstSuccess(api, 0).None? ==> d == List([])
  {
    match FirstSuccess(api, 0)
    case Some(k) => Attempt(api(Candidates[k])).value
    case None => List([])
  }

  /** How many endpoints the chain requests. */
  function RequestCount(api: string -> Outcome): (n: nat)
    ensures 1 <= n <= |Candidates|
  {
    match FirstSuccess(api, 0)
    case Some(k) => k + 1
    case None => |Candidates|
  }

  /**
   * The nested try/catch chain: request each endpoint in turn, stop at the
   * first whose response unwraps. `requested` lists the endpoints asked,
   * in order.
   */
  method FetchChain(api: string -> Outcome) returns (userData: Json, requested: seq<string>)
    ensures requested == Candidates[..RequestCount(api)]
    ensures userData == FetchUsers(api)
  {
    userData := List([]);
    requested := [];
    var i := 0;
    var found := false;
    while i < |Candidates| && !found
      invariant 0 <= i <= |Candidates|
      invariant requested == Candidates[..i]
      invariant found ==> i >= 1 && FirstSuccess(api, 0) == Some(i - 1) && Attempt(api(Candidates[i - 1])) == Some(userData)
      invariant !found ==> FirstSuccess(api, 0) == FirstSuccess(api, i) && userData == List([])
    {
      requested := requested + [Candidates[i]];
      var got := Attempt(api(Candidates[i]));
      if got.Some? {
        userData := got.value;
        found := true;
      }
      i := i + 1;
    }
  }

  /** The first endpoint that goes through wins: no later endpoint is asked, every earlier one failed. */
  lemma FirstSuccessWins(api: string -> Outcome, k: nat)
    requires k < |Candidates| && Attempt(api(Candidates[k])).Some?
    requires forall j :: 0 <= j < k ==> Attempt(api(Candidates[j])).None?
    ensures FetchUsers(api) == Attempt(api(Candidates[k])).value
    ensures RequestCount(api) == k + 1
  {
  }

  /** When all three endpoints fail the chain asks all three and settles on the empty list. */
  lemma AllFail(api: string -> Outcome)
    requires forall j :: 0 <= j < |Candidates| ==> Attempt(api(Candidates[j])).None?
    ensures FetchUsers(api) == List([]) && RequestCount(api) == |Candidates|
  {
  }

  /** A response of null counts as a failure and the chain moves on, because reading its `data` throws. */
  lemma NullResponseFallsThrough(api: string -> Outcome)
    requires api(Candidates[0]) == Resolved(Nullish)
    ensures FirstSuccess(api, 0) != Some(0) && RequestCount(api) >= 2
  {
  }

  /** An envelope holding an empty array yields the empty list: an empty array is truthy, so `||` stops there. */
  lemma EmptyDataIsKept(api: string -> Outcome)
    requires api(Candidates[0]) == Resolved(Object(List([])))
    ensures FetchUsers(api) == List([]) && RequestCount(api) == 1
  {
    FirstSuccessWins(api, 0);
  }

  /** An envelope whose `data` is falsy yields the envelope itself, which is not a list. */
  lemma FalsyDataYieldsEnvelope(api: string -> Outcome, d: Json)
    requires !Truthy(d) && api(Candidates[0]) == Resolved(Object(d))
    ensures FetchUsers(api) == Object(d) && !FetchUsers(api).List?
  {
    FirstSuccessWins(api, 0);
  }

  /** Two failures, then an envelope `{data: [u]}` from the third endpoint: the chain settles on `[u]` after three requests. */
  lemma FallbackScenario(api: string -> Outcome, u: User)
    requires api(Candidates[0]) == Rejected && api(Candidates[1]) == Rejected
    requires api(Candidates[2]) == Resolved(Object(List([u])))
    ensures FetchUsers(api) == List([u]) && RequestCount(api) == 3
  {
    FirstSuccessWins(api, 2);
  }

  /** The dashboard after a load: the list and its counters, or the outer catch's error state. */
  datatype Load = Loaded(users: seq<User>, stats: Stats) | LoadError

  /**
   * The outer try block: the counters are computed from the chain's data;
   * when that is not an array, `userData.filter` throws and the outer catch
   * sets the error.
   */
  function LoadDashboard(api: string -> Outcome, now: int): (l: Load)
    ensures l.LoadError? <==> !FetchUsers(api).List?
    ensures l.Loaded? ==> l.users == FetchUsers(api).users && l.stats.totalUsers == |l.users|
  {
    var data := FetchUsers(api);
    if data.List? then Loaded(data.users, ComputeStats(data.users, now)) else LoadError
  }

  /** All endpoints failing is a soft failure: an empty list, zero counters and no error. */
  lemma AllFailIsSoft(api: string -> Outcome, now: int)
    requires forall j :: 0 <= j < |Candidates| ==> Attempt(api(Candidates[j])).None?
    ensures LoadDashboard(api, now) == Loaded([], NoStats)
  {
    AllFail(api);
  }

  /** A falsy scalar response (`0`, `""`, `false`) has no `data`, so it unwraps to `[]` and loads as an empty list. */
  lemma FalsyResponseLoadsEmpty(api: string -> Outcome, now: int)
    requires api(Candidates[0]) == Resolved(FalsyScalar)
    ensures LoadDashboard(api, now) == Loaded([], NoStats)
  {
    FirstSuccessWins(api, 0);
  }

  /** A truthy scalar response has no `data` either, but unwraps to itself, so the outer catch sets the error. */
  lemma TruthyResponseIsError(api: string -> Outcome, now: int)
    requires api(Candidates[0]) == Resolved(TruthyScalar)
    ensures LoadDashboard(api, now) == LoadError
  {
    FirstSuccessWins(api, 0);
  }
}
