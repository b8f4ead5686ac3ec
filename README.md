# Storefront and admin dashboard: presentation logic

This project models, in Dafny, the logic inside the two page components of
a storefront and admin web client. Both components fetch data from a backend
whose response shape is not certain.

- **Home page** (`app/page.tsx`):
  - the flash-sale countdown clock, stepped once a second;
  - the whole-percent discount badge;
  - which price a product card shows, and when the original price is struck through;
  - the best-seller strip: the first six products rated 4.0 or better.
- **Dashboard** (`app/dashboard/page.tsx`):
  - the user list, fetched from three endpoints in order (`/clients`, `/users`, `/admin/users`): the first response that unwraps wins, and if all three fail the list is empty;
  - the four user counters (total, active, recent, with an email);
  - the client-side search;
  - paging at ten rows a page, with a window of at most five page buttons, the Previous and Next buttons, and the "Showing X to Y of N" line.

Modules, one per file:

| file | module | what it holds |
|---|---|---|
| wrappers.dfy | Wrappers | `Option` |
| seqs.dfy | Seqs | `filter` and `slice` as JavaScript defines them, and the subsequence relation |
| text.dfy | Text | `toLowerCase` on ASCII letters, `includes`, `trim` with the full ECMAScript white-space set |
| countdown.dfy | Countdown | the clock's state, its updater `Next`, and the `FlashSaleClock` class |
| pricing.dfy | Pricing | the discount, the displayed prices, best sellers, the featured grid |
| users.dfy | Users | the user record and `ComputeStats` |
| fetch.dfy | UserFetch | JSON values, the `r.data \|\| r \|\| []` unwrap, the fallback chain, the dashboard load |
| search.dfy | UserSearch | the search predicate and filter |
| pagination.dfy | Pagination | page count, page slice, page window, Previous/Next targets, showing range |
| dashboard.dfy | Dashboard | the `DashboardView` class: users, counters, error flag, search term, current page |

Collaborators the model does not see, and what stands in for them:

- **`apiFetch`** becomes a parameter `api: string -> Outcome`. For each endpoint it says whether the call rejects or resolves, and to which JSON value.
- **JSON values** (`Json`) are told apart only as far as the code can tell them apart:
  - null/undefined: reading `.data` on it throws;
  - a falsy scalar;
  - a truthy scalar;
  - an array of users;
  - any other object, with its `data` property.
- **The current time** of the counters is a parameter `now`, in milliseconds.
- **`new Date(createdAt)`** becomes `createdAt: Option<int>` on the record (None when absent, empty or not a date).
- **`parseFloat(rating)`** becomes `rating: Option<real>`.
- **Prices** are `real`. `Math.round` rounds to the nearest integer, with halves rounded up.
- **The one-second timer** is an external event: each firing is one call of `FlashSaleClock.Tick`.

## Surprising behaviour of the code

The model follows the code in every case below.

- **Unwrap.** The unwrap is `r.data || r || []`. It uses `||`, which tests truthiness, rather than `??`, which tests only for null/undefined. So an envelope whose `data` is `0`, `""` or `false` unwraps to the envelope itself. The code then cannot count users in it: `userData.filter` throws, and the outer catch sets the error state (`FalsyDataYieldsEnvelope`, `LoadDashboard`).
- **Failures.** Only two things move the chain to the next endpoint: a rejected call, or a response of null/undefined (reading `.data` on it throws inside the inner try). A malformed payload does not. A falsy scalar response (`0`, `""`, `false`) has no `data`, so it unwraps to `[]` and loads as an empty list (`FalsyResponseLoadsEmpty`). Any other payload that is not an array reaches the outer catch (`TruthyResponseIsError`).
- **Empty search term.** The empty term does not list every user. It drops users that have none of name, email and phone, because an absent field never matches, not even the empty term (`EmptyTermKeepsSearchable`).
- **Active users.** A user counts as active when its status is `"active"` or falsy: absent, and also an empty string (`!u.status`).
- **Current page.** Nothing keeps the current page within the page count: the page is not reset when the search term changes. A page past the last one shows an empty slice, and the table with its pagination bar disappears (`DashboardView.SetSearchTerm`, `PageBeyondLast`).

## Model

| member | source | states |
|---|---|---|
| Countdown.Next | app/page.tsx:57-68 | a tick keeps the counters non-negative and keeps hours ≤ 23 and minutes, seconds ≤ 59; at all zeros it changes nothing; otherwise the time left falls by exactly one second |
| Countdown.NextIsOneSecondEarlier | app/page.tsx:58-66 | for a well-formed clock that has not run out, a tick gives exactly the days/hours/minutes/seconds reading of one second less (an independent div/mod definition); this covers each borrowing case |
| Countdown.FromTotalSeconds | app/page.tsx:47-52 | a well-formed reading is determined by its total number of seconds (the round trip through the div/mod reading) |
| Countdown.NextCountsDown | app/page.tsx:57-68 | one tick takes exactly one second off a non-negative clock, stopping at zero |
| Countdown.TicksKeepShape | app/page.tsx:55-69 | any number of ticks keeps every counter non-negative and keeps a well-formed clock well formed |
| Countdown.TicksCountDown | app/page.tsx:55-69 | after n ticks the time left is max(total − n, 0) seconds |
| Countdown.TicksReachZero | app/page.tsx:67 | once enough ticks have passed the clock reads all zeros and stays there |
| Countdown.InitialState | app/page.tsx:47-52 | the initial duration {2, 14, 30, 45} is well formed and is 225 045 seconds |
| Countdown.FlashSaleClock.constructor | app/page.tsx:47-52 | the clock starts at {2, 14, 30, 45} |
| Countdown.FlashSaleClock.Tick | app/page.tsx:56-68 | one interval firing replaces the state by the updater applied to it |
| Countdown.FlashSaleClock.Run | app/page.tsx:55-69 | n firings leave the state after n ticks, with max(total − n, 0) seconds left |
| Pricing.Round | app/page.tsx:109 | `Math.round` gives the integer r with r − ½ ≤ x < r + ½ |
| Pricing.DiscountPercentage | app/page.tsx:107-110 | 0 when the original is ≤ 0 or the final price ≥ original; otherwise the exact percentage rounded half-up |
| Pricing.DiscountInRange | app/page.tsx:107-110 | for a non-negative final price the discount is in 0..100 |
| Pricing.DiscountMonotone | app/page.tsx:107-110 | a lower final price never shows a smaller discount |
| Pricing.DiscountExamples | app/page.tsx:107-110 | (100, 80) gives 20; (100, 120) and (0, 50) give 0 |
| Pricing.GridPrice | app/page.tsx:443-458 | the featured card shows one of the two prices; what it shows is positive exactly when either price is positive; whenever the original is struck through (`StrikesOriginal`, app/page.tsx:448) the shown price is below the original |
| Pricing.StripPrice | app/page.tsx:599-601 | the best-seller card shows one of the two prices; what it shows is non-zero exactly when either price is non-zero; whenever the original is struck through (`StrikesOriginal`, app/page.tsx:601) the shown price is below the original |
| Pricing.GridAndStripAgree | app/page.tsx:443-458 | the two cards show the same price exactly when the final price is ≥ 0 or equals the original |
| Pricing.StrikeShowsLowerPrice | app/page.tsx:448 | beside a struck-through original (`StrikesOriginal`: final price positive and below the original, app/page.tsx:448 and 601), both cards show the final price, which is lower |
| Pricing.BadgeIffStrikeAndHalfPercent | app/page.tsx:395 | for a positive final price the discount badge (`ShowsBadge`: rounded percentage above 0, app/page.tsx:395 and 576) appears iff the original is struck through (`StrikesOriginal`) and the exact discount is at least ½ percent |
| Pricing.BadgeMeansReduction | app/page.tsx:576 | a badge appears only when the original is positive and above the final price |
| Pricing.BestSellers | app/page.tsx:89 | at most six products, each parsing to a rating ≥ 4.0; a subsequence of the catalog; exactly the first min(6, n) qualifying products in catalog order |
| Pricing.BestSellersAll | app/page.tsx:89 | with fewer than six qualifying products every one of them is listed |
| Pricing.FeaturedGrid | app/page.tsx:362 | the grid shows the first min(8, n) featured products |
| Seqs.Filter | app/dashboard/page.tsx:120-125 | `filter` keeps exactly the elements satisfying the predicate, each as often as in its input, as a subsequence of its input |
| Seqs.JsSlice | app/dashboard/page.tsx:127-130 | `slice(start, end)` with non-negative bounds is the part from min(start, n) to min(end, n) |
| Text.Includes | app/dashboard/page.tsx:122-124 | `includes` holds iff the needle occurs at some position of the string |
| Text.TrimEmptyIff | app/dashboard/page.tsx:100 | `trim()` gives "" iff every character is ECMAScript white space or a line terminator |
| Users.ComputeStats | app/dashboard/page.tsx:90-102 | totalUsers is the number of records; each other counter is at most totalUsers |
| Users.ActivePartition | app/dashboard/page.tsx:92-94 | active users plus users with a non-empty status other than "active" make up all users |
| Users.HasEmailIff | app/dashboard/page.tsx:99-101 | a present email counts iff it holds a character that is not white space |
| Users.RecentMonotone | app/dashboard/page.tsx:85-98 | with a later `now` the recent count can only fall |
| Users.StatsOfOne | app/dashboard/page.tsx:90-102 | no users give zero counters; one user adds 1 to each counter whose condition (active, recent, non-blank email) it meets and 0 to the others |
| Users.StatsConcat | app/dashboard/page.tsx:90-102 | each counter of a concatenation is the sum of the counters of its parts |
| UserFetch.Unwrap | app/dashboard/page.tsx:61 | `r.data \|\| r \|\| []` throws only for null/undefined, always yields a truthy value, and gives `data` when truthy, else the response itself when truthy, else [] |
| UserFetch.FirstSuccess | app/dashboard/page.tsx:58-80 | the first endpoint at or after i whose try block completes, all before it failing; none when all fail |
| UserFetch.FetchUsers | app/dashboard/page.tsx:56-80 | the data is that of the first endpoint that goes through, or [] when none does; it is always truthy |
| UserFetch.RequestCount | app/dashboard/page.tsx:58-80 | between one and three endpoints are requested |
| UserFetch.FetchChain | app/dashboard/page.tsx:56-80 | the endpoints are requested in priority order, stopping after the first success; the data equals FetchUsers |
| UserFetch.FirstSuccessWins | app/dashboard/page.tsx:58-73 | if endpoint k succeeds after k failures, its data is used and nothing after it is requested |
| UserFetch.AllFail | app/dashboard/page.tsx:74-78 | when all endpoints fail, all three are requested and the data is [] |
| UserFetch.NullResponseFallsThrough | app/dashboard/page.tsx:60-62 | a null response counts as a failure and the second endpoint is requested |
| UserFetch.EmptyDataIsKept | app/dashboard/page.tsx:61 | `{data: []}` yields [] and stops the chain |
| UserFetch.FalsyDataYieldsEnvelope | app/dashboard/page.tsx:61 | an envelope whose `data` is falsy yields the envelope, which is not a list |
| UserFetch.FallbackScenario | app/dashboard/page.tsx:58-73 | fail, fail, then `{data: [u]}` gives [u] after three requests |
| UserFetch.LoadDashboard | app/dashboard/page.tsx:54-106 | the error is set iff the chain's data is not an array; otherwise the users are that array and totalUsers their number |
| UserFetch.AllFailIsSoft | app/dashboard/page.tsx:74-106 | all endpoints failing gives an empty list, zero counters and no error |
| UserFetch.FalsyResponseLoadsEmpty | app/dashboard/page.tsx:61 | a falsy scalar response unwraps to `[]`: the load succeeds with no users, zero counters and no error |
| UserFetch.TruthyResponseIsError | app/dashboard/page.tsx:61 | a truthy scalar response unwraps to itself, so the load ends in the error state |
| UserSearch.Matches | app/dashboard/page.tsx:120-125 | a user matches iff the lower-cased term occurs in its lower-cased name or email, or the term occurs in its phone; absent fields never match |
| UserSearch.FilterUsers | app/dashboard/page.tsx:120-125 | the listed users are a subsequence of all users and are exactly the matching ones, each as often as in the full list |
| UserSearch.EmptyTermKeepsSearchable | app/dashboard/page.tsx:120-125 | the empty term lists exactly the users with a name, an email or a phone |
| UserSearch.TermCaseIgnoredForNameAndEmail | app/dashboard/page.tsx:122-123 | without a phone, lower-casing the term changes nothing |
| UserSearch.NarrowingTerm | app/dashboard/page.tsx:120-125 | a user matched by a term is matched by every prefix of it |
| Pagination.TotalPages | app/dashboard/page.tsx:132 | the page count is ⌈n/10⌉, and it is 0 iff n = 0 |
| Pagination.PageSlice | app/dashboard/page.tsx:127-130 | a page holds at most ten items: for page p ≥ 1, items min((p−1)·10, n) to min(p·10, n) |
| Pagination.PageBeyondLast | app/dashboard/page.tsx:127-132 | a page past the page count is empty |
| Pagination.NonEmptyPageInRange | app/dashboard/page.tsx:127-132 | a non-empty page lies within the page count |
| Pagination.PageInRangeNotEmpty | app/dashboard/page.tsx:127-132 | every page from 1 to the page count is non-empty |
| Pagination.PagesCoverAll | app/dashboard/page.tsx:127-132 | pages 1 to the page count, concatenated, give back the filtered list |
| Pagination.PageWindow | app/dashboard/page.tsx:630-642 | there are min(5, T) buttons, consecutive and ascending, within 1..T, including the current page when it is in 1..T |
| Pagination.WindowCentred | app/dashboard/page.tsx:640-641 | away from both ends the window is the current page ± 2 |
| Pagination.WindowAtStart | app/dashboard/page.tsx:636-637 | when current ≤ 3 (and T > 5) the window is pages 1 to 5 |
| Pagination.WindowAtEnd | app/dashboard/page.tsx:638-639 | when current ≥ T − 2 (and T > 5) the window is the last five pages |
| Pagination.WindowExamples | app/dashboard/page.tsx:630-642 | (7, 20) gives [5..9]; (1, 3) gives [1, 2, 3] |
| Pagination.PreviousPage | app/dashboard/page.tsx:621 | the target is page 1 or later; from a page p ≥ 1 it is p or p − 1, and strictly earlier when p > 1 |
| Pagination.NextPage | app/dashboard/page.tsx:663-665 | the target never passes the page count T; from p ≤ T it is p or p + 1, and strictly later when p < T |
| Pagination.PreviousNextInverse | app/dashboard/page.tsx:619-667 | inside 1..T both targets stay inside 1..T; Previous undoes Next below T and Next undoes Previous above 1 |
| Pagination.ShowingRangeMatchesPage | app/dashboard/page.tsx:611-616 | on an existing page, "Showing X to Y" names exactly the items of that page |
| Dashboard.DashboardView.constructor | app/dashboard/page.tsx:29-39 | no users, zero counters, no error, empty term, page 1 |
| Dashboard.DashboardView.FetchDashboardData | app/dashboard/page.tsx:51-110 | the endpoints are requested in priority order; a successful load sets the users and their counters and clears the error; a non-array payload sets the error and keeps the counters; term and page are untouched, so the page stays valid (≥ 1); the empty state (no users, no error, app/dashboard/page.tsx:428) shows exactly when the load succeeds with no users |
| Dashboard.DashboardView.SetSearchTerm | app/dashboard/page.tsx:365 | only the term changes, not the page, which stays valid (≥ 1); a page left past the page count shows no rows and no pagination bar (`PaginationShown`: rows on the page and more than one page, app/dashboard/page.tsx:465 and 608) |
| Dashboard.DashboardView.Previous | app/dashboard/page.tsx:619-623 | moves to max(p − 1, 1), staying within 1..T on a non-empty page; when the button is disabled (`PreviousDisabled`: page 1, app/dashboard/page.tsx:623) it stays |
| Dashboard.DashboardView.Next | app/dashboard/page.tsx:661-667 | moves to min(p + 1, T), staying within 1..T on a non-empty page; when the button is disabled (`NextDisabled`: page T, app/dashboard/page.tsx:667) it stays |
| Dashboard.DashboardView.SelectPage | app/dashboard/page.tsx:645-647 | a page button moves to its page, which lies within 1..T and is non-empty |

## Left out

- app/products/page.tsx and app/products/[id]/page.tsx are not part of this model. The list page holds one fetch with a `data.data || []` unwrap (app/products/page.tsx:25), plus markup. The detail page holds one fetch with a `data.data || data` unwrap (app/products/[id]/page.tsx:29), an `error || !product` gate before the detail view (app/products/[id]/page.tsx:53), plus markup.
- The home page's load of categories and featured products (app/page.tsx:74-98) is left out: `Promise.all`, the `data || []` unwraps, and the loading and error flags. `BestSellers` and `FeaturedGrid` take the product list directly.
- Transport and concurrency are left out: `apiFetch` is a parameter. Nothing here models responses arriving out of order, or a stale response being applied after a newer request.
- `setInterval`/`clearInterval` scheduling is left out; each timer firing is one `Tick`.
- Authentication, the redirect to `/login` and logout are left out: they are routing, not data logic.
- `Intl.NumberFormat` currency formatting, `toLocaleDateString` and `padStart` are left out: they are locale library behaviour.
- Date parsing and `parseFloat` are represented by their results (`Option<int>`, `Option<real>`), not modelled as parsers.
- `toLowerCase` is modelled on ASCII letters only; Unicode case mapping is left out.
- Prices are exact reals; IEEE double rounding in the discount division is left out.
- `console.warn`/`console.log`, the newsletter form, the loading flags and all rendering beyond the visibility conditions above are left out.
- User records keep only the properties the code reads. The open set of other properties is not modelled. Non-string values of `status` or `email` are not modelled either. Nor are null or undefined array elements, which make the counters throw when `u.status` is read (app/dashboard/page.tsx:93). Nor are primitive elements (numbers, strings, booleans): they count in `totalUsers` and `activeUsers`, but in neither of the other counters, and the search never lists them.
- The countdown counters are integers; non-integral numbers are not modelled.
- Dashboard.DashboardView.FetchDashboardData: when the payload is not an array, the source still stores it in `users`, and the next render throws on `users.filter`. The model keeps the previous users and only records the error, because a render crash is outside the model.
