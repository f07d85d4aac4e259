# Policy feed client: feed cache, fetch gate and vote bookkeeping

This project models the stateful core of a React client for a policy-voting
site. It covers:

- the shared policy context, which holds a paginated feed. A single-flight
  gate guards it, and an upvote replaces a cached record by id;
- the query string built for the list request;
- the vote ledgers and vote counters kept by each view: the paginated list
  with filters, the two carousels, and the single-policy page;
- the filter and pager state of the paginated list;
- the client-side pager and delete guard of the dashboard;
- the submit decision of the sign-up form.

Each handler is one atomic transition over immutable records. A remote call
is never performed. Its outcome is a parameter: `Reply<T>` is either
`Ok(value)` or `Threw`, for an awaited call that resolved or one that threw.

Modules:

| module | file | models |
|---|---|---|
| `PolicyTypes` | policy_types.dfy | records: `Policy`, `Owner`, `Filters`, replies |
| `Seqs` | seqs.dfy | order-preserving filter (`Array.prototype.filter`) |
| `PolicyLists` | policy_lists.dfy | page merge, replace-by-id, vote increment |
| `PolicyContext` | policy_context.dfy | src/contexts/PolicyContext.tsx |
| `Api` | api.dfy | query of `getPolicies` in src/services/api.ts |
| `Paging` | paging.dfy | `Math.ceil(n / k)` |
| `HorizontalPolicyList` | horizontal_policy_list.dfy | src/components/policies/HorizontalPolicyList.tsx |
| `Carousels` | carousels.dfy | src/components/policies/PolicyList.tsx and PolicyCarousel.tsx |
| `PolicySinglePage` | policy_single_page.dfy | src/pages/PolicySinglePage.tsx |
| `Dashboard` | dashboard.dfy | src/pages/Dashboard.tsx |
| `Signup` | signup.dfy | src/pages/Signup.tsx |

## Where the code differs from an idealised feed cache

The model follows the code in each of these places:

- **Merge overwrites.** A re-fetched record is not left in place. Its old copy
  is dropped and the page's copy is appended at the end (`PolicyLists.Merge`).
  So order is not "first seen", and a later page can overwrite a vote count.
- **Filter changes keep the cursor.** Changing a filter or the sort key in the
  paginated list does not reset the page to 1 and does not clear the records
  (`HorizontalPolicyList.FilterChangeKeepsPage`). The shared context has no
  filter reset at all.
- **The ledger can shrink.** Loading the user's votes replaces each view's
  ledger wholesale (`LoadVotes`). Each view keeps its own ledger. A
  reloaded list that lacks an id lets the same user vote on it again
  (`HorizontalPolicyList.LedgerReloadReopens`).
- **A refetch drops local votes.** The paginated list replaces its records
  with each fetched page, so a local +1 disappears while the id stays in the
  ledger (`HorizontalPolicyList.RefetchDropsLocalVote`).
- **A delete can strand the dashboard page.** The dashboard keeps its page
  after a delete, even when the reloaded list has fewer pages
  (`Dashboard.DeleteCanStrandPage`).
- **A failed fetch keeps `hasMore`.** It is not reset to `true`. The gate only
  admits a fetch while `hasMore` is `true`, so the value is the same.
- **Carousel votes can count twice.** A carousel upvote applies the server's
  copy of the record and then adds one to it (`Carousels.UpvoteNetEffect`).
  If the server copy already includes the vote, the carousel shows one vote
  more than the server. If the call fails, the error is swallowed: the local
  +1 and the ledger entry still happen.
- **The detail page waits for confirmation.** It counts a vote only when the
  reply carries `success`. It has no pending reservation, and none of the
  views checks whether it is still mounted when a reply arrives.
- **`hasMore` comes from the server.** The client does not compare the number
  of cached records with `totalPolicies`.

## Model

| member | source | states |
|---|---|---|
| `PolicyLists.Merge` | src/contexts/PolicyContext.tsx:68-72 | the merged feed holds exactly the old records whose id the page lacks, plus the page; the page forms its tail; its length is the kept count plus the page length |
| `PolicyLists.MergeShape` | src/contexts/PolicyContext.tsx:69-71 | the part before the page is a subsequence of the old list (original relative order), containing exactly the old records whose id is absent from the page |
| `PolicyLists.MergeFreshPage` | src/contexts/PolicyContext.tsx:69-71 | when no cached record shares an id with the page, the merge is the old list followed by the page, so the feed grows by exactly the page length |
| `PolicyLists.MergeIdempotent` | src/contexts/PolicyContext.tsx:69-71 | merging the same page twice yields the same list as merging it once |
| `PolicyLists.MergeUnique` | src/contexts/PolicyContext.tsx:69-71 | if the old list and the page each have distinct ids, so does the merge, and every record with a page id is the page's copy |
| `PolicyLists.WithoutUnique` | src/contexts/PolicyContext.tsx:70 | filtering out ids never creates a duplicate id |
| `PolicyLists.ReplaceById` | src/contexts/PolicyContext.tsx:113-117 | replace-by-id keeps the length and the id at every position, and leaves records with another id untouched |
| `PolicyLists.ReplaceSetsServerCopy` | src/contexts/PolicyContext.tsx:113-117 | every record with the server copy's id becomes that copy, so its vote count is the server's absolute value; the id set and id uniqueness are kept |
| `PolicyLists.ReplaceIdempotent` | src/contexts/PolicyContext.tsx:113-117 | applying the same server copy twice equals applying it once |
| `PolicyLists.IncrementVotes` | src/components/policies/HorizontalPolicyList.tsx:71-75 | only `votes` can change, only on records carrying the id; the length is kept |
| `PolicyLists.IncrementTotal` | src/components/policies/HorizontalPolicyList.tsx:71-75 | the sum of vote counts grows by exactly the number of records carrying the id |
| `PolicyLists.IncrementMatching` | src/components/policies/PolicyList.tsx:50-54 | a record carrying the id gets exactly +1 with every other field kept; all ids are kept |
| `PolicyContext.ResolveArgs` | src/contexts/PolicyContext.tsx:62 | an omitted page means the current page, an omitted limit means 10, omitted filters mean no categories, no years, sort "date" |
| `PolicyContext.BeginFetch` | src/contexts/PolicyContext.tsx:63-64 | while a fetch is in flight or `hasMore` is false the call changes nothing and issues nothing; otherwise the gate closes and the resolved request is issued |
| `PolicyContext.CompleteFetch` | src/contexts/PolicyContext.tsx:66-80 | success: the feed is the merge, `hasMore` and total come from the reply, the current page is the requested page + 1; failure: feed and cursor unchanged; the gate always reopens |
| `PolicyContext.FetchPolicies` | src/contexts/PolicyContext.tsx:61-83 | a gated call is a no-op, a thrown call leaves the state unchanged, and an idle context ends idle |
| `PolicyContext.FetchSucceeds` | src/contexts/PolicyContext.tsx:67-75 | an admitted successful fetch sets the current page to the requested page + 1, not the old current page + 1, along with the merge, `hasMore` and total |
| `PolicyContext.FetchPolicy` | src/contexts/PolicyContext.tsx:85-93 | the single-record fetch yields the record, or nothing exactly when the call throws |
| `PolicyContext.FetchUserPolicies` | src/contexts/PolicyContext.tsx:95-107 | a successful envelope replaces the whole feed with its data; a refused envelope or a thrown call changes nothing |
| `PolicyContext.UserPoliciesKeepCursor` | src/contexts/PolicyContext.tsx:95-107 | loading the user's policies keeps the cursor, so the next page fetch without a page argument merges into the user's list and moves on from the old current page |
| `PolicyContext.UpvotePolicy` | src/contexts/PolicyContext.tsx:110-121 | records carrying the server copy's id become that copy, others and the length stay; a thrown call is swallowed and changes nothing |
| `PolicyContext.AddPolicy` | src/contexts/PolicyContext.tsx:123-138 | the created record is appended once at the end, earlier records untouched; a thrown call changes nothing |
| `PolicyContext.ExhaustedStaysExhausted` | src/contexts/PolicyContext.tsx:63-75 | once `hasMore` is false, no sequence of handlers sets it back, and the cursor's page and total stay fixed |
| `PolicyContext.GateReopens` | src/contexts/PolicyContext.tsx:59-80 | from an idle context, no sequence of handlers leaves `isFetching` set |
| `PolicyContext.SingleFlight` | src/contexts/PolicyContext.tsx:63-64 | a burst of fetch calls with none completing issues no request if the gate is closed or the feed exhausted, and otherwise exactly one: the first call's |
| `PolicyContext.ThreePagesThenExhausted` | src/contexts/PolicyContext.tsx:55-83 | from mount, fresh pages of 10, 10 and 5 records (the last reporting no more) give all 25 records in order with the cursor on page 4, and every later fetch is dropped |
| `PolicyContext.DefaultFetchQuery` | src/contexts/PolicyContext.tsx:61-66 | a fetch with no arguments sends exactly three parameters: the current page, limit 10 and sort "date", with no category or year |
| `Api.Decimal` | src/services/api.ts:9-10 | `String(n)` starts with a minus sign exactly for negative n |
| `Api.DecimalRoundTrip` | src/services/api.ts:9-10 | reading back the decimal rendering of an integer gives the integer |
| `Api.DecimalInjective` | src/services/api.ts:9-10 | distinct integers render to distinct strings |
| `Api.QueryParams` | src/services/api.ts:8-21 | `page` then `limit`, then `sortBy` iff non-empty, then one `categories` entry per category and one `year` entry per year, in list order; count is 2 + (sortBy non-empty) + categories + years |
| `Api.QueryParamsRoundTrip` | src/services/api.ts:8-21 | the query gives back every input: page and limit parse back to the integers, the sort key is present iff non-empty, and categories and years come back in order with duplicates kept |
| `Paging.CeilDiv` | src/components/policies/HorizontalPolicyList.tsx:109 | the page count is the least r with n <= r*k |
| `Paging.CeilDivSign` | src/pages/Dashboard.tsx:34 | for a non-negative count the page count is zero exactly when the count is zero |
| `HorizontalPolicyList.ApplyFetch` | src/components/policies/HorizontalPolicyList.tsx:44-55 | a page replaces the records wholesale (no merge) and sets the total; a thrown call keeps both; filters, page and ledger unchanged |
| `HorizontalPolicyList.LoadVotes` | src/components/policies/HorizontalPolicyList.tsx:57-64 | the server's vote list replaces the ledger; a thrown call changes nothing |
| `HorizontalPolicyList.HandleUpvote` | src/components/policies/HorizontalPolicyList.tsx:66-82 | a guest or an id already voted changes nothing; on success records carrying the id get +1 and the id is appended; on a throw records and ledger stay |
| `HorizontalPolicyList.UpvoteOnce` | src/components/policies/HorizontalPolicyList.tsx:66-82 | an accepted upvote adds exactly the number of matching records to the vote total, and a repeat press changes nothing |
| `HorizontalPolicyList.RefetchDropsLocalVote` | src/components/policies/HorizontalPolicyList.tsx:44-82 | a page fetched after an accepted upvote replaces the locally incremented records, while the id stays in the ledger and blocks another press |
| `HorizontalPolicyList.LedgerReloadReopens` | src/components/policies/HorizontalPolicyList.tsx:57-82 | after a vote, reloading a server ledger that lacks the id re-enables the press, and a second accepted press leaves each matching record two votes up |
| `HorizontalPolicyList.RemoveAll` | src/components/policies/HorizontalPolicyList.tsx:91 | unchecking removes every occurrence of the value; every other value keeps its multiplicity and order |
| `HorizontalPolicyList.Toggle` | src/components/policies/HorizontalPolicyList.tsx:89-96 | checking appends the value, unchecking removes all its occurrences |
| `HorizontalPolicyList.ToggleRoundTrip` | src/components/policies/HorizontalPolicyList.tsx:89-91 | checking then unchecking a value that was not selected restores the list |
| `HorizontalPolicyList.HandleFilterChange` | src/components/policies/HorizontalPolicyList.tsx:84-99 | only the named list changes (categories or years); any other kind changes nothing |
| `HorizontalPolicyList.HandleSortChange` | src/components/policies/HorizontalPolicyList.tsx:101-103 | only the sort key changes |
| `HorizontalPolicyList.HandlePageChange` | src/components/policies/HorizontalPolicyList.tsx:105-107 | only the page changes, to the requested value |
| `HorizontalPolicyList.FilterChangeKeepsPage` | src/components/policies/HorizontalPolicyList.tsx:84-107 | filter and sort changes never modify the page, the ledger or the records |
| `HorizontalPolicyList.PagerButtons` | src/components/policies/HorizontalPolicyList.tsx:197-208 | "Next" shows iff page*10 < total (some record lies beyond this page); "Previous" shows iff page > 1 |
| `HorizontalPolicyList.MountedPager` | src/components/policies/HorizontalPolicyList.tsx:26-55 | the freshly mounted list shows no pager button; after a fetch, "Next" shows exactly when the reported total exceeds 10 |
| `Carousels.ListStep` | src/components/policies/PolicyList.tsx:32-34 | the next index is 0 when i+2 >= n, else i+1, and always lies in [0, max(0, n-2)] |
| `Carousels.ListCycle` | src/components/policies/PolicyList.tsx:32-34 | with n >= 2, from 0 the strip visits 0..n-2 in order and is back at 0 after n-1 ticks |
| `Carousels.CarouselStep` | src/components/policies/PolicyCarousel.tsx:32-34 | the next index is 0 when i+1 >= n, else i+1, and lies in [0, n-1] for n >= 1 |
| `Carousels.CarouselCycle` | src/components/policies/PolicyCarousel.tsx:32-34 | with n >= 1, from 0 the slider visits 0..n-1 in order and is back at 0 after n ticks |
| `Carousels.CarouselWalk` | src/components/policies/PolicyCarousel.tsx:32-34 | while no wrap occurs, k ticks advance the index by k |
| `Carousels.LoadVotes` | src/components/policies/PolicyList.tsx:18-25 | the server's vote list replaces the carousel's ledger; a thrown call changes nothing |
| `Carousels.LedgerReloadReopens` | src/components/policies/PolicyList.tsx:18-63 | after a carousel vote, reloading a server ledger that lacks the id lets the same id be recorded again, and its records get +1 again: on top of the server copy when the second call answers, on top of the current record when it throws |
| `Carousels.HandleUpvote` | src/components/policies/PolicyList.tsx:42-63 | a guest or an id already voted changes nothing; otherwise the id is always appended (errors are swallowed upstream), only `policies` of the context changes, records carrying the id get +1 on top of the server copy when the call answered and on top of the old record when it failed (the handler at PolicyCarousel.tsx:41-62 is the same) |
| `Carousels.UpvoteNetEffect` | src/components/policies/PolicyCarousel.tsx:41-62 | per record: the server copy +1 when the server answered for that id, the old record +1 when the call failed, the server copy for another record carrying its id, unchanged otherwise |
| `Carousels.UpvoteOnce` | src/components/policies/PolicyCarousel.tsx:42-56 | the ledger only grows (old ledger is a prefix), a signed-in press always records the id, and a repeat press changes nothing |
| `PolicySinglePage.InitialVotes` | src/pages/PolicySinglePage.tsx:26 | the counter starts at the fetched record's vote count, or 0 when the fetch gave nothing |
| `PolicySinglePage.Load` | src/pages/PolicySinglePage.tsx:21-31 | loading shows the fetched record and restarts the counter from it, keeping the ledger |
| `PolicySinglePage.HandleUpvote` | src/pages/PolicySinglePage.tsx:34-61 | no record or guest: refused, unchanged; id already voted: refused, unchanged; counted iff the reply carries success, then +1 and the id appended; declined or thrown: counter and ledger unchanged |
| `PolicySinglePage.PressKeepsCount` | src/pages/PolicySinglePage.tsx:40-52 | a press keeps "counter = record's count + ledger size, ledger holds only this id, at most once" |
| `PolicySinglePage.AtMostOneVote` | src/pages/PolicySinglePage.tsx:40-52 | any number of presses with any replies leaves the counter at the record's count or one more |
| `PolicySinglePage.LoadStartsSession` | src/pages/PolicySinglePage.tsx:15-26 | a freshly mounted page with a loaded record satisfies the session invariant (empty ledger, counter = record's count) |
| `PolicySinglePage.LoadThroughContext` | src/pages/PolicySinglePage.tsx:21-31 | a record fetched through the context starts the session with its count; a failed fetch leaves no record, a counter of 0 and a button that refuses every press |
| `Dashboard.TotalPages` | src/pages/Dashboard.tsx:34 | the page count is ceil(len / 5): the least r with len <= 5r |
| `Dashboard.SliceBound` | src/pages/Dashboard.tsx:37-40 | a slice bound is clamped as `Array.prototype.slice` does: a negative bound b means max(0, len + b), a bound beyond the list means len, any other bound is kept |
| `Dashboard.Slice` | src/pages/Dashboard.tsx:37-40 | a slice is never longer than the list |
| `Dashboard.PageSliceBounds` | src/pages/Dashboard.tsx:37-40 | page p >= 1 shows the records from (p-1)*5 up to min(p*5, len), at most 5 of them |
| `Dashboard.PagesPrefix` | src/pages/Dashboard.tsx:37-40 | pages 1..k laid end to end are the first min(5k, len) records |
| `Dashboard.PagesCoverList` | src/pages/Dashboard.tsx:34-40 | pages 1..TotalPages laid end to end reproduce the whole list in order |
| `Dashboard.HandlePrevPage` | src/pages/Dashboard.tsx:43-45 | goes back one page unless on page 1 or below, where it is a no-op; nothing else changes |
| `Dashboard.HandleNextPage` | src/pages/Dashboard.tsx:47-49 | goes forward one page unless at or beyond the last page, where it is a no-op; nothing else changes |
| `Dashboard.HandleDelete` | src/pages/Dashboard.tsx:56-63 | with no record picked nothing happens; a thrown delete changes nothing; a successful delete closes the dialog and reloads the user's policies into the context |
| `Dashboard.OnHandleDelete` | src/pages/Dashboard.tsx:51-54 | the trash link picks the id and opens the dialog, keeping the page and the list |
| `Dashboard.PickThenConfirm` | src/pages/Dashboard.tsx:51-63 | a picked record reaches the delete call exactly when its id is non-empty; the dialog closes when the delete returns and stays open when it throws |
| `Dashboard.DeleteCanStrandPage` | src/pages/Dashboard.tsx:34-63 | when the reloaded list has fewer pages than the current page, the page is kept, lies beyond the last page and shows nothing, and "Next" does nothing |
| `Dashboard.DeleteFromLastPage` | src/pages/Dashboard.tsx:34-63 | on page 3 of eleven records, a delete that leaves ten records strands the page: there are two pages and page 3 is empty |
| `Dashboard.NavigateStaysInRange` | src/pages/Dashboard.tsx:43-49 | with the list fixed, a page within [1, max(1, TotalPages)] stays there under any clicks |
| `Dashboard.PageFromMountInRange` | src/pages/Dashboard.tsx:17-49 | starting from page 1, any click sequence keeps the page within [1, max(1, TotalPages)] |
| `Signup.HandleInputChange` | src/pages/Signup.tsx:16-27 | only the field named by the input changes; an unknown name changes nothing |
| `Signup.LastEditWins` | src/pages/Signup.tsx:16-27 | the last edit to a field wins, and edits to different fields commute |
| `Signup.HandleTermsChange` | src/pages/Signup.tsx:29-31 | the checkbox sets the terms flag to its checked state and changes nothing else |
| `Signup.TermsBoxDecides` | src/pages/Signup.tsx:29-40 | with the box ticked, a submit calls the service exactly when the passwords match; with it unticked, the submit shows the terms message |
| `Signup.HandleSubmit` | src/pages/Signup.tsx:33-62 | terms unaccepted: terms message, no call; passwords differ: mismatch message, no call; otherwise called with error cleared, loading ends false, a thrown Error shows "Signup failed: " + message, anything else leaves no error, and only a return navigates |
| `Signup.TermsCheckedFirst` | src/pages/Signup.tsx:36-39 | without accepted terms the outcome is the terms message and no call, whatever the passwords |
| `Signup.UntouchedFormRefused` | src/pages/Signup.tsx:7-39 | submitting the untouched form shows the terms message, makes no call and keeps every field empty |
| `Signup.RefusalIsStable` | src/pages/Signup.tsx:36-61 | a refused submit keeps the typed fields, and resubmitting unchanged gives the same refusal |

## Left out

- HTTP transport, the auth header interceptor (src/services/apiClient.ts) and every remote call other than building the list query. Each call is a `Reply` parameter, so the server's behaviour is not modelled.
- Percent-encoding by `URLSearchParams.toString()`. The query is modelled as its ordered key/value list.
- Api.Decimal: renders integers only. `String(n)` for non-integer or very large numbers (exponent form from 1e21 upwards) is not modelled.
- Vote counts, pages and totals are unbounded integers. JavaScript numbers are doubles, so precision loss above 2^53 and `NaN` are not modelled.
- React scheduling. The fetch gate reads `isFetching` and `hasMore` from the callback's closure (src/contexts/PolicyContext.tsx:82). The model reads the current state. Effect timing and re-renders are not modelled either. The views' `useEffect` triggers are not modelled: fetches and vote loads are transitions a caller applies.
- The `setInterval` timers of the carousels. Only the index step is modelled, and the index is a natural number, as every reachable index is.
- The `loading` flags are modelled only at the end of each handler, not while a call is in flight.
- PolicyContext.AddPolicy: the create endpoint returns an envelope with `success`, `message` and `data`. The context appends whatever the call returns. The model types the appended value as a `Policy`.
- The yup schemas and submit handlers of src/pages/AddPolicy.tsx and src/pages/EditPolicy.tsx. Their rules live in a library that is not part of this model.
- Rendering, toasts, alerts, `moment` date formatting and navigation. Sign-up navigation appears only as a flag in the result.
