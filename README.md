# Car-listing moderation admin, modelled in Dafny

The system is an admin site for moderating used-car listings. Anyone may
submit a listing. A listing waits as *pending* until an administrator
approves or rejects it, and only approved listings appear in the public
catalogue. Administrators sign in with a bearer token; they query listings
and an audit log, and a dashboard gives them counts and short paged lists.

The project models the core of that system:

- **Shared record types** (`types.dfy`): listings, audit-log entries, the
  paginated page and the response envelope. The enumerated fields are
  Dafny datatypes whose wire names are proved to parse back.
- **Store** (`store.dfy`): a `Database` class whose two collections are
  sequences. Submitting a listing appends to the listings sequence; every
  query only reads.
- **Token extraction** (`auth.dfy`, `api.dfy`): `getAuthToken` (prefix
  strip), and the different extraction the handlers actually use, which
  removes the first `"Bearer "` anywhere in the header. Token verification
  is a function parameter.
- **Submission** (`submit.dfy`): the fail-fast validation chain as a spec
  function and as a method with the source's loop, the new pending record,
  the 405/400/201 responses, and a handler method that inserts only on 201.
- **The three paged queries** (`admin_listings.dfy`, `public_listings.dfy`,
  `audit_logs.dfy`). Each handler method builds its filter one criterion at
  a time, as the source does, and is proved to return what a declarative
  `Respond` function says: the records the query asks for, sorted newest
  first, skipped and limited, with a total that does not depend on the page.
- **The shared paged read** (`api.dfy`, `seqs.dfy`): selection, a stable
  descending sort, the skip/limit window and `Math.ceil(total / limit)`.
- **Dashboards** (`dashboard.dfy`, `src_dashboard.dfy`): status counts by
  filter-and-length, and by a counting loop; the fallback props; and the
  arithmetic of the five-per-page pager.
- **Edit form** (`edit_listing.dfy`): the initial form state, the one-field
  change, and the features text. The features round trip is proved for
  clean tags, and a tag holding a comma is shown to come back as two.

Several facts cross module boundaries. Both dashboards' server-side fetches
send no Authorization header, so against the modelled handlers they always
yield zero statistics and empty lists (`Dashboard.ServerFetchUnauthenticated`,
`SrcDashboard.ServerFetchUnauthenticated`). With a valid token, the
`pages/` dashboard counts at most the 1000 newest listings. The `src/`
dashboard's counters see only the five newest listings, so they add up to
min(5, total) and not to the total it displays.

Approve, reject and edit, and the audit entries they write, live in
`pages/api/listings/[id].ts`, which this model leaves out; only the edit
form's request body is modelled.

All numbers of a JSON body are `real`. Timestamps are integers. The
current year, the submission time and the new listing's id are
parameters. Query-string numbers arrive already read by `parseInt`:
`None` stands for absent or unparsable.

## Model

| member | source | states |
|---|---|---|
| `Types.ParseStatus` | types/index.ts:14 | a status is exactly one of "pending", "approved", "rejected"; any other string names none |
| `Types.ParseFuelType` | types/index.ts:10 | a fuel type is exactly one of the four names |
| `Types.ParseTransmission` | types/index.ts:11 | a transmission is exactly "automatic" or "manual" |
| `Types.ParseAction` | types/index.ts:24 | an audit action is exactly one of "approve", "reject", "edit" |
| `Types.NamesRoundTrip` | types/index.ts:10-24 | every enumerated value's wire name parses back to that value |
| `Auth.GetAuthToken` | lib/auth.ts:45-51 | a token exists iff the header is present and starts with the case-sensitive "Bearer "; then the header is prefix + token and the token is 7 characters shorter |
| `Auth.BearerRoundTrip` | lib/auth.ts:47-48 | extracting from "Bearer " + t gives t back, for every t including "" |
| `Text.RemoveFirst` | pages/api/listings/index.ts:18 | `replace` with a string pattern: a leading pattern is cut off, a string without it is unchanged, never longer |
| `Text.RemoveFirstAt` | pages/api/listings/index.ts:18 | where the pattern first occurs at index i, exactly those characters are cut out and everything before and after is kept |
| `Api.HeaderToken` | pages/api/listings/index.ts:18 | the handlers' token is present iff the header is; "Bearer " in front is stripped; a header without "Bearer " passes whole |
| `Api.HeaderTokenCutsFirst` | pages/api/listings/index.ts:18 | wherever the first "Bearer " of the header sits, the token is the header with those seven characters removed |
| `Api.HeaderTokenAgrees` | lib/auth.ts:46-50 | wherever getAuthToken finds a token, the handlers' extraction finds the same one |
| `Api.HeaderTokenDiffers` | pages/api/listings/index.ts:18 | a "Bearer " that does not open the header is rejected by getAuthToken but cut out by the handlers |
| `Api.Guard` | pages/api/listings/index.ts:12-26 | 405 "Method not allowed" for any method but GET; 401 "No token provided" for a missing or empty token; 401 "Invalid token" when the verifier rejects the token; passes iff GET, a non-empty token and the verifier all agree |
| `Api.ParamOr` | pages/api/listings/index.ts:32-33 | `parseInt(x) \|\| d`: absent and 0 give the default, any other value (negatives included) passes; a non-zero default never yields 0 |
| `Api.SearchHitIff` | pages/api/listings/index.ts:42-49 | a search term hits a listing iff, up to ASCII case, it occurs in its title, description, car model or location |
| `Api.SearchIgnoresCase` | pages/api/listings/index.ts:44 | the case of the search term makes no difference to which listings it hits |
| `Api.Paginate` | pages/api/listings/index.ts:52-70 | no page iff the skip is negative; otherwise total = number matching, page and limit echoed, totalPages = ceil(total/limit), at most limit records, sorted descending, drawn from the matches, row k is sorted position skip + k |
| `Api.PastLastPage` | pages/api/listings/index.ts:55-62 | a page past the last one is empty and still reports the full total |
| `Api.PageIsFull` | pages/api/listings/index.ts:55-61 | every sorted position of a page's stretch that exists is on that page |
| `Text.ContainsIffOccurs` | pages/api/listings/index.ts:44 | substring search succeeds iff the pattern occurs at some index |
| `Text.ContainsCIIffOccurs` | pages/api/listings/index.ts:44 | the 'i' option: a match iff the folded pattern occurs in the folded text |
| `Seqs.Select` | pages/api/listings/index.ts:58 | the records a filter keeps are records of the input that satisfy it, and every satisfying record is kept |
| `Seqs.SelectAppend` | pages/api/listings/index.ts:58 | filtering preserves store order: over a concatenation it is the concatenation of the filtered parts |
| `Seqs.SelectAll` | pages/api/listings/index.ts:38 | a filter every record satisfies keeps the whole collection, in order |
| `Seqs.SelectNone` | pages/api/listings/index.ts:52 | a filter no record satisfies keeps nothing |
| `Seqs.SelectCongruent` | pages/api/listings/index.ts:38-49 | two filters that agree on every record select the same records |
| `Seqs.DrawnFromSelect` | pages/api/listings/index.ts:56-62 | whatever a read draws from the filtered records is a stored record that passes the filter |
| `Seqs.Insert` | pages/api/listings/index.ts:59 | one step of the descending sort: a sorted sequence with one record more, the same records plus x |
| `Seqs.SortDesc` | pages/api/listings/index.ts:59 | `sort({createdAt: -1})`: a permutation of the input, non-increasing by key |
| `Seqs.Window` | pages/api/listings/index.ts:60-61 | `skip(n).limit(m)`: at most m records, empty past the end, record k is input record n + k, exactly min(m, length - n) when n is within the input |
| `Seqs.WindowOfSorted` | pages/api/listings/index.ts:59-61 | a window of a sorted sequence is sorted and draws only from it |
| `Seqs.WindowIndex` | pages/api/listings/index.ts:55-61 | consecutive pages tile the sorted order: position i sits on page i / limit at row i % limit |
| `Seqs.Ceil` | pages/api/listings/index.ts:70 | `Math.ceil`: the least integer not below x |
| `Seqs.CeilDivide` | pages/api/listings/index.ts:70 | for a positive limit, ceil(total/limit) is the fewest pages of limit records holding total records, equal to (total + limit - 1) / limit |
| `Store.Database.InsertListing` | pages/api/listings/submit.ts:84 | insertOne appends the record and changes nothing else |
| `Submit.FirstMissing` | pages/api/listings/submit.ts:29-34 | a reported field is required and falsy; none is reported iff every required field is truthy |
| `Submit.FirstMissingIsFirst` | pages/api/listings/submit.ts:30-33 | the field reported is the first falsy one in list order: all before it are present |
| `Submit.Truthy` | pages/api/listings/submit.ts:31 | a value is falsy exactly when it is absent, null, false, 0 or the empty string |
| `Submit.ValidationError` | pages/api/listings/submit.ts:29-59 | a missing required field is reported first, as "<field> is required"; with every required field present the error is exactly ValueError's; no error iff every required field is truthy and no value check fails |
| `Submit.ValueError` | pages/api/listings/submit.ts:37-59 | no error iff all five value checks pass; each of the five messages is reported exactly when its own check fails and every check before it passed |
| `Submit.CheckRequired` | pages/api/listings/submit.ts:30-34 | the loop over the required fields stops at exactly the field FirstMissing reports, or finds none |
| `Submit.CheckValues` | pages/api/listings/submit.ts:37-59 | the guards on price, car year, mileage, fuel type and transmission return the first value error of the chain, or none |
| `Submit.Validate` | pages/api/listings/submit.ts:29-59 | the handler's loop and guards return exactly the fail-fast chain's first error |
| `Submit.AcceptedIff` | pages/api/listings/submit.ts:29-59 | no error iff every required field is truthy, price is a number > 0, carYear a number in [1900, currentYear + 1], mileage a number ≥ 0, fuel type and transmission in their lists |
| `Submit.ErrorMessages` | pages/api/listings/submit.ts:32-58 | every error is "<field> is required" for a required field or one of the five value messages |
| `Submit.ZeroIsMissing` | pages/api/listings/submit.ts:31 | a price, carYear or mileage of 0 is reported as a missing field, before any numeric check |
| `Submit.AcceptedMileagePositive` | pages/api/listings/submit.ts:45-47 | mileage 0 is never accepted, although the check reads `mileage < 0`: an accepted mileage is above 0 |
| `Submit.FuelTypeOf` | pages/api/listings/submit.ts:50-53 | a fuel type that passed the check is stored as the value it names |
| `Submit.TransmissionOf` | pages/api/listings/submit.ts:56-59 | a transmission that passed the check is stored as the value it names |
| `Submit.TextList` | pages/api/listings/submit.ts:74-75 | features and images become [] unless they are arrays; an array keeps its length, each string element is kept as it is and a non-string element becomes "" |
| `Submit.NewListing` | pages/api/listings/submit.ts:64-82 | the stored record carries the given id, is pending, created and updated at the submission time; price, carYear and mileage are the submitted numbers (price > 0, carYear within bounds, mileage > 0); the text fields are the submitted strings; fuel type and transmission are the submitted names; features and images are the submitted lists |
| `Submit.Respond` | pages/api/listings/submit.ts:5-93 | 405 for a method other than POST; 400 with the first error; 201 iff POST and valid, carrying the new id and status pending |
| `Submit.SameReadsSameError` | pages/api/listings/submit.ts:11-59 | bodies that agree on the keys the handler reads get the same decision |
| `Submit.SameReadsSameListing` | pages/api/listings/submit.ts:64-82 | accepted bodies that agree on those keys get the same stored record |
| `Submit.StatusFieldIgnored` | pages/api/listings/submit.ts:76 | a body's own "status" changes neither the decision nor the stored record |
| `Submit.Handler` | pages/api/listings/submit.ts:5-93 | answers as Respond does and appends the new listing exactly when it answers 201 |
| `AdminListings.Respond` | pages/api/listings/index.ts:11-88 | the guard's failure, or a page whose records are stored listings the query asks for, newest first, with the defaults 1 and 10, the full matching count, totalPages = ceil(total / limit), and 500 iff the skip is negative; past the guard with a non-negative skip it is 200 and the data is exactly the window (page - 1) * limit, |limit| of the matching records sorted newest first |
| `AdminListings.FilterAgrees` | src/pages/api/listings/index.ts:33-44 | the filter built field by field selects exactly the listings the query asks for |
| `AdminListings.Handler` | src/pages/api/listings/index.ts:6-77 | the handler (both copies) answers exactly as Respond over the stored listings |
| `AdminListings.AuthBeforeStore` | src/pages/api/listings/index.ts:7-21 | when the guard fails, the answer (401 or 405) is the same whatever the store holds |
| `AdminListings.UnfilteredCountsAll` | pages/api/listings/index.ts:39-41 | with no status (or "all") and no search, the total is the whole collection |
| `AdminListings.UnknownStatusEmpty` | pages/api/listings/index.ts:39-41 | a status naming no status matches nothing: total 0 and no data |
| `AdminListings.TotalIndependentOfPage` | src/pages/api/listings/index.ts:47-59 | total and totalPages do not depend on the page asked for |
| `AdminListings.PastLastPageEmpty` | pages/api/listings/index.ts:52-62 | a page past the last one is answered 200 with no data and the full total |
| `PublicListings.Respond` | pages/api/public/listings.ts:5-91 | 405 for a method other than GET; otherwise every listing shown is approved and satisfies every given criterion, newest first, with the defaults 1 and 10 and the full matching count, totalPages = ceil(total / limit); past the guard with a non-negative skip it is 200 and the data is exactly the window (page - 1) * limit, |limit| of the matching records sorted newest first |
| `PublicListings.FilterAgrees` | pages/api/public/listings.ts:25-52 | the filter built in place (price range created empty, then bounded) selects exactly what the query asks for |
| `PublicListings.Handler` | pages/api/public/listings.ts:5-91 | the handler answers exactly as Respond over the stored listings |
| `PublicListings.NothingApprovedNothingShown` | pages/api/public/listings.ts:25 | pending and rejected listings never reach the public: without approved listings the page is empty |
| `PublicListings.BoundsInclusive` | pages/api/public/listings.ts:40-44 | a price equal to a bound passes it |
| `PublicListings.CrossedBoundsEmpty` | pages/api/public/listings.ts:40-44 | a minimum above the maximum matches nothing |
| `PublicListings.UnknownNameEmpty` | pages/api/public/listings.ts:46-52 | an unknown fuel type or transmission matches nothing |
| `AuditLogs.Respond` | pages/api/audit-logs/index.ts:11-83 | the guard's failure, or a page of stored entries the query asks for, newest first by timestamp, with the defaults 1 and 20 and the full matching count, totalPages = ceil(total / limit); past the guard with a non-negative skip it is 200 and the data is exactly the window (page - 1) * limit, |limit| of the matching records sorted newest first |
| `AuditLogs.FilterAgrees` | pages/api/audit-logs/index.ts:38-44 | the filter built field by field selects exactly the entries the query asks for |
| `AuditLogs.Handler` | pages/api/audit-logs/index.ts:11-83 | the handler only reads, and answers exactly as Respond over the stored entries |
| `AuditLogs.AuthBeforeStore` | pages/api/audit-logs/index.ts:12-26 | when the guard fails, the answer is the same whatever the log holds |
| `AuditLogs.UnfilteredCountsAll` | pages/api/audit-logs/index.ts:39-44 | with no action and no administrator (or "all"), the total is the whole log |
| `AuditLogs.UnknownActionEmpty` | pages/api/audit-logs/index.ts:39-41 | an action naming no action matches nothing |
| `AuditLogs.DefaultPageSize` | pages/api/audit-logs/index.ts:32-33 | without page and limit the answer is 200 with the min(20, matching) newest matching entries, in order |
| `Dashboard.CountStatus` | pages/dashboard.tsx:78-80 | a status count never exceeds the number of listings; CountOne, CountAppend and CountStatusExtremes pin it down |
| `Dashboard.CountStatusExtremes` | pages/dashboard.tsx:78-80 | a status count is 0 iff no listing has that status, and the list's length iff every listing has it |
| `Dashboard.CountAppend` | pages/dashboard.tsx:78-80 | status counts add up over concatenation |
| `Dashboard.CountOne` | pages/dashboard.tsx:78-80 | one listing counts 1 under its own status and 0 under the others |
| `Dashboard.CountsPartition` | pages/dashboard.tsx:378-381 | the three status counts add up to the number of listings |
| `Dashboard.StatsOf` | pages/dashboard.tsx:76-81 | totalListings is the list's length, each status count is the number of listings with exactly that status, and the three counts sum to the total |
| `Dashboard.ServerSideProps` | pages/dashboard.tsx:358-401 | statistics over all fetched listings and the two recent lists; all zeros and empty lists when a fetch fails |
| `Dashboard.Refresh` | pages/dashboard.tsx:76-87 | the statistics count the records of the all-listings answer by status (zeros when it carries no data) and sum to its length; the two lists and totals are the other answers' data and totals, or [] and 0 without data |
| `Dashboard.ServerFetchUnauthenticated` | pages/dashboard.tsx:364-373 | the server-side fetches carry no token, so the props are the empty fallback whatever the store holds |
| `Dashboard.RefreshCountsAtMost1000` | pages/dashboard.tsx:48-55 | with a valid token the refresh's total is min(1000, number of listings), whichever pages the two pagers ask for |
| `Dashboard.LastPage` | pages/dashboard.tsx:281 | `Math.ceil(total / 5)` is the fewest pages of five holding total listings, equal to (total + 4) / 5 |
| `Dashboard.PrevPage` | pages/dashboard.tsx:274 | `Math.max(1, page - 1)` is at least 1, and page - 1 from any page above 1 |
| `Dashboard.PrevDisabledIff` | pages/dashboard.tsx:274-275 | the previous button is disabled iff its target is the page already shown |
| `Dashboard.NextPage` | pages/dashboard.tsx:281 | `Math.min(lastPage, page + 1)` never passes the last page or page + 1 |
| `Dashboard.NextDisabledIff` | pages/dashboard.tsx:281-282 | the next button is disabled iff its target would not advance |
| `Dashboard.ClampsStayInRange` | pages/dashboard.tsx:266-282 | when the pager shows, there are at least two pages, and from a page in range both buttons lead to a page in range |
| `Dashboard.CaptionMatchesPage` | pages/dashboard.tsx:270 | on a page in range, "Showing a to b" counts exactly the records the handler returns for that page of five |
| `SrcDashboard.PropsOf` | src/pages/dashboard.tsx:160-213 | the total from the stats query, each counter the number of recent listings with its status, the counters adding up to the number of recent listings; or the zero fallback |
| `SrcDashboard.ServerSideProps` | src/pages/dashboard.tsx:173-195 | counters start at 0 and each listing increments its own status's counter, giving the counts PropsOf states |
| `SrcDashboard.ServerFetchUnauthenticated` | src/pages/dashboard.tsx:163-167 | the unauthenticated fetches yield only zeros and empty lists |
| `SrcDashboard.CountersSeeOnlyRecent` | src/pages/dashboard.tsx:164-195 | with a valid token the total is the whole store while the counters add up to min(5, total) |
| `Text.TrimStart` | components/EditListingModal.tsx:35 | the leading white space is dropped: the result is a suffix that does not start with white space |
| `Text.TrimEnd` | components/EditListingModal.tsx:35 | the trailing white space is dropped: the result is a prefix that does not end with white space |
| `Text.TrimStartDropsSpace` | components/EditListingModal.tsx:35 | every character trimStart drops is white space |
| `Text.TrimEndDropsSpace` | components/EditListingModal.tsx:35 | every character trimEnd drops is white space |
| `Text.Trim` | components/EditListingModal.tsx:35 | neither end of the trimmed string is white space |
| `Text.TrimStretch` | components/EditListingModal.tsx:35 | the trimmed string is one stretch of the input, and everything outside that stretch is white space |
| `Text.TrimSpec` | components/EditListingModal.tsx:35 | trim yields a trimmed string and leaves trimmed strings alone |
| `Text.TrimIdempotent` | components/EditListingModal.tsx:35 | trimming twice is trimming once |
| `Text.TrimCons` | components/EditListingModal.tsx:35 | leading white space never survives a trim |
| `Text.SplitPiecesFree` | components/EditListingModal.tsx:35 | no piece of a split contains the separator |
| `Text.SplitFree` | components/EditListingModal.tsx:35 | a string without the separator splits into itself |
| `Text.SplitAround` | components/EditListingModal.tsx:35 | splitting distributes over a separator, keeping order |
| `Text.Split` | components/EditListingModal.tsx:35 | `split(sep)` always yields at least one piece; its meaning is pinned by SplitPiecesFree, SplitFree, SplitAround, JoinSplit and SplitJoin |
| `Text.JoinSplit` | components/EditListingModal.tsx:35 | joining the pieces of a split with the separator gives the string back |
| `Text.Join` | components/EditListingModal.tsx:24 | `join`: "" for no pieces; otherwise the pieces' lengths plus one separator between each neighbouring pair, starting with the first piece |
| `Text.SplitJoin` | components/EditListingModal.tsx:24-35 | splitting the join of separator-free pieces gives the pieces back |
| `EditListing.InitialForm` | components/EditListingModal.tsx:14-25 | the form starts with every field of the listing, features joined with ", " |
| `EditListing.ShowFeatures` | components/EditListingModal.tsx:24 | `features.join(', ')`: "" for no tags, the tag itself for one, and the text always starts with the first tag |
| `EditListing.HandleChange` | components/EditListingModal.tsx:61-67 | the named field takes the input's text and every other field keeps its value |
| `EditListing.HandleChangeSameValue` | components/EditListingModal.tsx:61-67 | re-entering a field's value leaves the form unchanged |
| `EditListing.ParseFeaturesClean` | components/EditListingModal.tsx:35 | every parsed feature is non-empty and equal to its own trim |
| `EditListing.ParseFeatures` | components/EditListingModal.tsx:35 | never more features than comma-separated pieces |
| `EditListing.ParseNoComma` | components/EditListingModal.tsx:35 | text without a comma is one feature, its trim, or none when it is all white space |
| `EditListing.ParseConcat` | components/EditListingModal.tsx:35 | parsing keeps left-to-right order: a + "," + b parses to the features of a, then those of b |
| `EditListing.ParseLeadingSpace` | components/EditListingModal.tsx:35 | the space the join puts after a comma is trimmed away |
| `EditListing.ParseOne` | components/EditListingModal.tsx:35 | a single clean tag parses to itself |
| `EditListing.FeaturesRoundTrip` | components/EditListingModal.tsx:24-35 | parse(join(tags, ", ")) == tags when every tag is non-empty, trimmed and comma-free |
| `EditListing.CommaSplitsTag` | components/EditListingModal.tsx:24-35 | a tag holding a comma comes back as the two tags around it |
| `EditListing.UpdateBody` | components/EditListingModal.tsx:33-36 | the submitted body is the form with its features text replaced by the parsed list (`u.features`, which is what the spread sends in place of `form.features`), every parsed feature non-empty and trimmed |
| `EditListing.UntouchedFormKeepsFeatures` | components/EditListingModal.tsx:14-36 | saving an untouched form sends back the listing's own features, when they are clean tags |

## Left out

- JWT signing and verification, bcrypt hashing, and the login and verify handlers: library calls. The verifier is a function parameter.
- The per-id update handler (`pages/api/listings/[id].ts`), with its approve, reject and edit transitions and audit writes: it is not part of this model.
- The MongoDB driver, connections, concurrency and atomicity: the store is two in-memory sequences, read and appended one call at a time.
- The handlers' 500 answer when the store throws: the model reaches it only through a negative skip, which the store refuses. A negative limit is read as its magnitude, as MongoDB does.
- The order of records with equal timestamps is unspecified in the store. The model sorts stably.
- `$regex` metacharacters: a search term is a literal substring, matched with ASCII case folding only.
- JSON and JavaScript number width: `JNum` holds the finite double the JSON parser produced, as an exact `real`. Infinity (a literal such as `1e400`, which the source accepts and stores), the rounding of long literals to the nearest double, and the precision and integer width of the query arithmetic `(page - 1) * limit` are not modelled. In particular, a skip beyond the store's 64-bit range, which the store refuses with a 500, is answered by the model with an empty page.
- `parseInt` on raw query strings (NaN, trailing text): numbers arrive parsed. A non-numeric minPrice or maxPrice, which would compare against NaN, is not modelled.
- `new Date()`: the submission time and the current year are parameters. The two `new Date()` calls are one timestamp.
- Submit.NewListing: a truthy non-string value in a text field (a number as title, say) is stored as "", and non-string elements of features and images as "". The source stores such values as they are.
- A request body that is not a JSON object and thrown exceptions inside the submit handler: the body is a map from keys to JSON values.
- The approval-rate percentage: floating-point division and `Math.round`.
- React rendering, hooks, toasts and date formatting. The dashboards' fetch sequencing is reduced to the three answers it receives. For the server-side props a failed fetch is `None`, which gives the empty fallback.
- Dashboard.Refresh: a fetch or `json()` that throws during the client refresh is not modelled. The source's catch only logs, so the previous statistics, lists and totals stay on screen; Refresh covers only the case where all three answers arrive.
- Dashboard.StatsOf: a fetched listing's status is always one of the three, as its type says, so the counts add up to the total exactly rather than to at most the total. A status outside the enum, which the `src/` counting loop would skip, is not modelled (the same holds for SrcDashboard.ServerSideProps).
- The `Admin` record type: it serves only login.
- Seed and setup scripts: fixture data.
