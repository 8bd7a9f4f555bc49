# Tartami auction rules in Dafny

This project models the decision rules of the Tartami online auction
marketplace, a Next.js application whose state lives in a hosted Postgres
database. Approved bidders place bids on the items of timed auction events.
Each bid steps the price up by a fixed ten-tier increment table. A bid that
lands in the last two minutes pushes the event's end back by two minutes
(the "soft close").

The model covers these parts of the application:

- **The bid route** (`POST /api/bids`): `Bids.Decide` runs the ordered chain
  of rejections. It reads the current price from the item's bid ledger and
  plans one bid at that price plus the table increment, with the soft-close
  extension. `Bids.BidBook` is the state the route changes: the `bids` table
  (append-only) and the events' `ends_at`. `BidBook.PlaceBid` applies the
  decision. A failed insert is a nondeterministic parameter. So is the event
  update, whose error the route never checks.
- **The increment table** (`BidIncrements`): the table, its `find`, and the
  proof that every whole amount lies in exactly one tier.
- **The three time classifiers**: `EventStatus.ComputeEventStatus`
  (`lib/auctionStatus.ts`), and the two identical copies of the listing
  pages' `computeStatus` (`AuctionsPage.ComputeStatus` and
  `HomePage.ComputeStatus`). `StatusBoundaries` proves where they and the bid
  route's clock checks agree and where they differ: at the end instant, on
  events that end before they start, and on missing times.
- **The listing pages**: on the auctions page, the item and image chosen for
  each card, the approved-item count and the date label. On the homepage,
  the loop that splits events into live, upcoming and ended sections, and
  which sections are rendered.
- **The middleware's redirect decision.**
- **Three gated write routes**: the profile update, the approval request
  and the admin's event creation. Each is a pure check chain plus a method
  over a small table object (`Accounts.ProfileTable`,
  `AdminCreate.EventTable`).
- **The image viewer's wrap-around navigation.**

Conventions:

- Amounts are whole currency units (`nat`).
- Times are integer milliseconds.
- A nullable text column is `Accounts.Field`.
- A JSON body property is `Accounts.Submitted`. It distinguishes a missing
  property (`undefined`) from `null`, because the code treats them
  differently: `undefined !== null`, and `undefined` keys are dropped from an
  update.
- A request body that is not valid JSON, or is JSON `null`, is `None`
  (or `Unparsable` in the bid route). Parsing or destructuring it throws, and
  the route answers 500. Any other body that lacks the properties, such as
  `5` or `[]`, reads every property as absent.

The model follows the code as written, with one exception. The bid route
creates its database client without `await` (app/api/bids/route.ts:44), so as
written it answers 500 to every request that gets past the `item_id` check.
The route as written is `Bids.DecideAsWritten`. `Bids.Decide` and
`BidBook.PlaceBid` model it with the missing `await` supplied, as every other
route has it (see "## Findings"). Behaviours worth knowing:

- The first bid on an item is inserted at `starting_bid + increment`, not at
  `starting_bid`.
- The request's `amount` is never read, so there is no "bid too low" answer.
- There is a single fixed increment table and fixed two-minute constants.
  There is no per-event configuration.
- The ledger read, the insert and the `ends_at` update are separate steps,
  not one atomic unit. Only the insert's error is checked.
- An error of the latest-bid query is not checked. The route then prices from
  `starting_bid` as if the item had no bids, and inserts the first-bid amount
  again. The model carries this as the `readFails` parameter. Every bid still
  stays above its item's starting bid (`BidBook.Valid`). The chain of strictly
  increasing bids (`BidBook.Chained`) survives only placements whose read
  succeeded.
- `lib/auctionStatus.ts` treats `now == ends_at` as ended, while the bid
  route (with the `await` supplied) still accepts bids at that instant.
- A null `starts_at`/`ends_at` reaches the bid route's `new Date(null)`,
  which is the epoch.

A side observation: the client in
`app/auctions/[id]/items/[itemId]/BidBox.tsx` posts `itemId` rather than
`item_id`. Under this model, its requests are answered `MissingItemId`.

## Model

| member | source | states |
|---|---|---|
| BidIncrements.FindFrom | app/api/bids/route.ts:23-25 | `find`: the returned index is the first tier containing the amount; None means no tier contains it |
| BidIncrements.GetIncrement | app/api/bids/route.ts:22-27 | the increment is at least 1, including the fallback of 1, and at most 1000 |
| BidIncrements.NextBid | app/api/bids/route.ts:129-130 | the required bid `currentPrice + increment` is strictly above the current price, by at most 1000 |
| BidIncrements.TartamiTableIsContiguous | app/api/bids/route.ts:9-20 | the table starts at 0, each `min` is the previous `max + 1`, only the last tier is unbounded, steps never decrease and all are at least 1 |
| BidIncrements.ExactlyOneTier | app/api/bids/route.ts:9-20 | in any contiguous table, every amount lies in exactly one tier |
| BidIncrements.IncrementIsTierStep | app/api/bids/route.ts:22-27 | every whole amount has a tier, the `find` never falls back, and `getIncrement` returns that tier's `inc` |
| BidIncrements.IncrementMonotone | app/api/bids/route.ts:22-27 | `getIncrement` is non-decreasing in the amount |
| Bids.MaxAmount | app/api/bids/route.ts:117-123 | the highest amount of a non-empty ledger is in the ledger and bounds every bid (`order by amount desc limit 1`) |
| Bids.CurrentPrice | app/api/bids/route.ts:125-127 | the current price is `starting_bid` for an empty ledger, else the maximum bid amount |
| Bids.Ledger | app/api/bids/route.ts:117-123 | the item's ledger holds exactly the amounts of the bids on that item, in insertion order (`LedgerAppend`) |
| Bids.Decide | app/api/bids/route.ts:35-156 | with the missing `await` supplied: a planned bid is the caller's bid on the requested, listed item of an existing event; its extension is the soft close of that event's end at `now`; the decision is never InsertFailed; its order is stated by `DecisionOrder`, its window by `BiddingWindowInclusive` and its amount by `AcceptedAmount` |
| Bids.DecideAsWritten | app/api/bids/route.ts:37-49 | as written: MissingItemId exactly for a parsed body with a falsy `item_id`, otherwise 500 |
| Bids.MissingAwaitAnswers500 | app/api/bids/route.ts:44-49 | every request that the route with `await` supplied would get past the `item_id` check (planned bids included) is answered 500 as written |
| Bids.BidBook.PlaceBidAsWritten | app/api/bids/route.ts:35-168 | as written: the answer is `DecideAsWritten`, and items, events and bids are left unchanged for every request |
| Bids.StatusCodes | app/api/bids/route.ts:40-166 | every rejection answers a 4xx or 500 status, and only the server error is 500 |
| Bids.SoftClose | app/api/bids/route.ts:147-156 | the end moves to `end + 120000` exactly when `end - now <= 120000` |
| Bids.BidBook.PlaceBid | app/api/bids/route.ts:35-168 | a rejection or a failed insert leaves bids and events unchanged; a success appends exactly the planned bid, moves `ends_at` only on a late bid whose update succeeds, and never moves any `ends_at` backward; every bid stays above its item's starting bid, and every ledger stays a chain of placements when the latest-bid query succeeds |
| Bids.BidBook.constructor | app/api/bids/route.ts:116-137 | an empty bid table satisfies both invariants |
| Bids.DecisionOrder | app/api/bids/route.ts:40-114 | with the missing `await` supplied: each rejection (missing item_id, unauthenticated, no profile, banned, not approved, item not found, own item) holds exactly when every earlier check passed and its own failed; 500 exactly for an unparsable body or an item without an event; a bid is planned exactly when every check passes, whatever the latest-bid query answers |
| Bids.BiddingWindowInclusive | app/api/bids/route.ts:98-114 | for a request that passes the earlier checks, bidding is open exactly when `start <= now <= end`; before the start the answer is NotStarted, after the end AuctionEnded |
| Bids.AcceptedAmount | app/api/bids/route.ts:116-137 | after a successful latest-bid query, the inserted amount is the current price plus its increment and above every bid on the item; the first bid, and any bid after a failed query, is `starting_bid + increment`; the body's `amount` never changes a planned bid |
| Bids.AmountIgnored | app/api/bids/route.ts:37-38 | the body's `amount` never changes any answer, accepted or refused, of the route either with the `await` supplied or as written |
| Bids.SoftCloseBoundary | app/api/bids/route.ts:32-33 | a bid at exactly 120000 ms remaining extends and one at 120001 ms does not; an extension always lands after the old end |
| Bids.ChainIncreases | app/api/bids/route.ts:117-137 | a ledger built by successive placements is strictly increasing and above the starting bid |
| Bids.PriceIsLastBid | app/api/bids/route.ts:117-127 | in a strictly increasing ledger the current price is the last bid |
| Bids.PlacementExtendsChain | app/api/bids/route.ts:125-137 | appending the planned amount to a chained ledger yields a chain: each amount equals its predecessor plus the predecessor's increment |
| Bids.PlacementKeepsChains | app/api/bids/route.ts:117-137 | a planned insert priced from a successful latest-bid query keeps the ledger of every item a chain |
| Bids.PlacementStaysAboveStart | app/api/bids/route.ts:117-137 | a planned insert keeps every bid above its item's starting bid, including one priced after a failed latest-bid query |
| Bids.ReadFailureRepeatsFirstBid | app/api/bids/route.ts:117-130 | after a failed latest-bid query the amount is `starting_bid + increment` whatever the ledger holds; on an item that already has chained bids it repeats the first bid, and the ledger is no longer strictly increasing |
| Bids.LedgerAppend | app/api/bids/route.ts:133-137 | inserting a bid extends only the ledger of its own item |
| EventStatus.ComputeEventStatus | lib/auctionStatus.ts:9-27 | `computeEventStatus`; its cases are stated by `StatusCases` and `StoredStatusIgnored` |
| EventStatus.StatusCases | lib/auctionStatus.ts:9-27 | draft exactly when a time is missing; with both set, ended iff `now >= end`, live iff `start <= now < end`, scheduled otherwise |
| EventStatus.StoredStatusIgnored | lib/auctionStatus.ts:9-13 | the stored `status` never affects the result |
| AuctionsPage.ComputeStatus | app/auctions/page.tsx:31-40 | `computeStatus`; its four cases are stated by `StatusCases` |
| AuctionsPage.StatusCases | app/auctions/page.tsx:31-40 | Upcoming iff a start is set and not reached; Live iff both are set and `start <= now <= end`; Ended iff an end is set and passed after the start checks; Auction otherwise, including both times missing |
| AuctionsPage.FirstApprovedFrom | app/auctions/page.tsx:92 | `find` over the items: the first index whose status is "approved" |
| AuctionsPage.FirstApproved | app/auctions/page.tsx:92 | the card's item exists iff some item is approved, and is the first approved item |
| AuctionsPage.FirstPrimaryFrom | app/auctions/page.tsx:96 | `find` over the images: the first index marked primary |
| AuctionsPage.CoverImage | app/auctions/page.tsx:95-98 | the card image is the first primary image, else the first image when none is primary, else none (also when there is no item or no image list) |
| AuctionsPage.CountApproved | app/auctions/page.tsx:161 | the length of the approved filter; bounded by `CountApprovedBound` and positive exactly when some item is approved (`CountPositiveIffSomeApproved`) |
| AuctionsPage.ApprovedCount | app/auctions/page.tsx:161 | the item count is 0 without an item list and never exceeds the number of items |
| AuctionsPage.CountApprovedBound | app/auctions/page.tsx:161 | at most as many approved items as items |
| AuctionsPage.CountPositiveIffSomeApproved | app/auctions/page.tsx:161 | the count is positive exactly when some item is approved |
| AuctionsPage.CardItemAgreesWithCount | app/auctions/page.tsx:92-98 | a card shows an item exactly when its approved-item count is positive |
| AuctionsPage.FormatDate | app/auctions/page.tsx:42-45 | the label is blank exactly for a null or empty timestamp |
| HomePage.ComputeStatus | app/page.tsx:24-34 | the homepage's `computeStatus`; equal to the auctions page's by `SameAsAuctionsPage` |
| HomePage.SameAsAuctionsPage | app/page.tsx:24-34 | the homepage's `computeStatus` equals the auctions page's on every event and instant |
| HomePage.Select | app/page.tsx:49-54 | a list holds only input events whose status names it; `SectionMembership` gives the converse and `SectionKeepsOrder` the order |
| HomePage.Partition | app/page.tsx:45-54 | the loop's three lists are the live, upcoming and other events of `events \|\| []`, each in input order |
| HomePage.SelectLast | app/page.tsx:49-54 | one more event extends exactly the list its status names |
| HomePage.AppendToOneList | app/page.tsx:49-54 | pushing an event onto one of three lists that split a prefix splits the longer prefix |
| HomePage.SectionsSplitEvents | app/page.tsx:45-54 | the three lists together hold exactly the input events (as multisets) |
| HomePage.SectionSizes | app/page.tsx:45-54 | the three lengths add up to the number of events |
| HomePage.SectionMembership | app/page.tsx:49-54 | an event is in a list exactly when it is an input event whose status names that list; "Auction" events (times missing) are in ended |
| HomePage.SectionKeepsOrder | app/page.tsx:43 | input sorted by `starts_at` (nulls last) gives sorted lists |
| HomePage.PageShowsSomething | app/page.tsx:135-145 | some list is rendered iff there are events; the "No auctions" notice shows only for an empty result, and an absent result shows neither |
| Middleware.Decide | middleware.ts:32-48 | the middleware's answer; its cases are stated by `DecisionCases` and `RedirectTargetsSettle` |
| Middleware.DecisionCases | middleware.ts:32-48 | signed-out /account… or /admin… redirects to /auth/login; signed-in /auth… redirects to /account; everything else passes through |
| Middleware.RoutesDisjoint | middleware.ts:32-46 | no path is both an /auth route and a protected one, so the two redirects never compete |
| Middleware.RedirectTargetsSettle | middleware.ts:38-46 | the redirect target passes through for the same session, so there are no redirect loops |
| ImageViewer.Next | components/FullScreenImageViewer.tsx:20 | `(i+1) % n` lies in `[0, n)`; it is `i+1`, or 0 from the last image |
| ImageViewer.Prev | components/FullScreenImageViewer.tsx:21-22 | `(i-1+n) % n` lies in `[0, n)`; it is `i-1`, or `n-1` from the first image |
| ImageViewer.NextPrevInverse | components/FullScreenImageViewer.tsx:20-22 | next and previous undo each other |
| ImageViewer.Forward | components/FullScreenImageViewer.tsx:20 | any number of right-arrow presses stays in `[0, n)` |
| ImageViewer.ForwardWithoutWrap | components/FullScreenImageViewer.tsx:20 | before the last image, k presses move k images |
| ImageViewer.ForwardCompose | components/FullScreenImageViewer.tsx:20 | a presses then b presses equal a + b presses |
| ImageViewer.FullCycle | components/FullScreenImageViewer.tsx:20 | n presses return to the start, and next of the last image is 0 |
| ImageViewer.HandleKey | components/FullScreenImageViewer.tsx:18-23 | Escape closes, and only Escape; ArrowRight sets the next index and ArrowLeft the previous one, both in `[0, n)`; every other key is ignored |
| ImageViewer.Render | components/FullScreenImageViewer.tsx:28-56 | a negative index renders nothing; otherwise the image at the index, with arrows exactly when `n > 1` |
| ProfileRoute.ApplyForm | app/api/profile/route.ts:64-75 | each of the seven columns takes the submitted value when the property is given and keeps its stored value when it is omitted; `approved`, `banned` and `is_admin` are never written |
| ProfileRoute.UpdateProfile | app/api/profile/route.ts:6-91 | a rejection or failed update leaves the table unchanged; a success changes only the caller's row, to the submitted columns |
| ProfileRoute.Check | app/api/profile/route.ts:8-61 | the check chain before the update; its order is stated by `CheckOrder` and the lock by `LockedFieldsRule` |
| ProfileRoute.CheckOrder | app/api/profile/route.ts:8-61 | an unusable body (500), then unauthenticated (401), then missing profile (404), then banned (403), then locked fields (400); the first failure wins |
| ProfileRoute.StatusCodes | app/api/profile/route.ts:26-89 | every refusal answers a 4xx or 500 status, and only the server error is 500 |
| ProfileRoute.LockedFieldsRule | app/api/profile/route.ts:49-61 | an approved user is refused iff the submitted full name or phone differs from the stored one (an omitted one always differs); an unapproved user may change everything |
| ProfileRoute.LockedFieldsStay | app/api/profile/route.ts:49-75 | after a successful update, an approved user's full name and phone are unchanged |
| RequestApproval.Request | app/api/request-approval/route.ts:6-81 | a rejection or failed update writes nothing; a success writes `approved = false` on the caller's row; either way the table ends as it began |
| RequestApproval.Check | app/api/request-approval/route.ts:15-56 | the check chain before the update; its order is stated by `CheckOrder` |
| RequestApproval.CheckOrder | app/api/request-approval/route.ts:15-56 | unauthenticated, then missing profile, then banned, then already approved, then incomplete; the first failure wins |
| RequestApproval.StatusCodes | app/api/request-approval/route.ts:15-69 | every refusal the model distinguishes answers a 4xx status |
| RequestApproval.CountryNotRequired | app/api/request-approval/route.ts:44-49 | completeness looks at full name, username, phone, city and neighborhood, never at country |
| RequestApproval.ApprovalWriteChangesNothing | app/api/request-approval/route.ts:37-62 | a request that passes finds `approved` already false, so the write never grants approval and leaves the row unchanged |
| AdminCreate.GetAdmin | app/api/admin/auctions/create/route.ts:7-26 | `getAdmin`; its order is stated by `AdminCheckOrder` |
| AdminCreate.Plan | app/api/admin/auctions/create/route.ts:31-54 | the decision and the row to insert; the admin gate comes first (`AdminCheckedBeforeBody`), and the required fields and defaults are stated by `InsertedRow` |
| AdminCreate.AdminCheckOrder | app/api/admin/auctions/create/route.ts:7-26 | 401, then 404, then banned 403, then not-admin 403; only a non-banned admin passes |
| AdminCreate.AdminCheckedBeforeBody | app/api/admin/auctions/create/route.ts:31-36 | a non-admin is refused whatever the body, malformed or not |
| AdminCreate.InsertedRow | app/api/admin/auctions/create/route.ts:38-54 | for an admin with a parsed body, the request is refused exactly when the name, start or end is falsy, and planned otherwise; the row is a draft with the given name and times, description defaulting to "" and images to []; no order between start and end is required |
| AdminCreate.StatusCodes | app/api/admin/auctions/create/route.ts:7-63 | every refusal answers a 4xx or 500 status; the 500s are a malformed body and a failed insert |
| AdminCreate.Create | app/api/admin/auctions/create/route.ts:28-66 | a rejection or failed insert leaves the table unchanged; a success appends exactly the planned row |
| AdminCreate.EventTable.constructor | app/api/admin/auctions/create/route.ts:45-56 | the table starts with the given rows |
| Accounts.ProfileTable.constructor | app/api/profile/route.ts:64-75 | the table starts with the given rows |
| StatusBoundaries.EventStatusVersusListing | lib/auctionStatus.ts:20-26 | with both times set and `start <= end`, the event status and the listing badge agree except at `now == end`: ended for one, live for the other |
| StatusBoundaries.EndInstantDisagreement | app/api/bids/route.ts:109-114 | at `now == end` the event status says ended, the listing says live, and the bid route still accepts an otherwise eligible bid |
| StatusBoundaries.ListingLiveIffBiddingOpen | app/auctions/page.tsx:37 | with both times set, the listing shows Live exactly when the bid route's clock checks pass |
| StatusBoundaries.InvertedTimes | lib/auctionStatus.ts:22-26 | an event that ends before it starts is ended for the event status but upcoming for the listing between the two times, and never live for either |
| StatusBoundaries.MissingEndReadsAsEpoch | app/api/bids/route.ts:98-114 | a missing end makes the event a draft for the event status, while the bid route reads it as the epoch and refuses later bids as ended |

## Findings

| source | as written | input that shows it | evidently intended | confidence | as-written member | corrected member |
|---|---|---|---|---|---|---|
| app/api/bids/route.ts:44 | `createRouteHandlerClient()` is async and is called without `await`, so `supabase.auth` is undefined, line 49 throws, and the catch at lines 162-166 answers 500 | any parsed body with a non-empty `item_id`, such as an eligible bidder's bid on a live item | `await createRouteHandlerClient()`, as in app/api/profile/route.ts:19 and app/api/admin/auctions/create/route.ts:29 | high (not executed) | Bids.MissingAwaitAnswers500 | Bids.BidBook.PlaceBid |

## Left out

- Supabase client construction, cookie plumbing and the session lookup are foreign calls. The session is a parameter, and the queried rows are maps.
- Auth flows that only delegate to the auth provider, pure rendering components, the zoom component (floating-point positioning), and the source-rewriting codemod (filesystem and regular expressions) are not part of this model.
- Date parsing and `toLocaleString` are left out. Times are already-parsed milliseconds. A formatted date is `Localized(timestamp)` with its text left opaque. A malformed timestamp (an invalid `Date`, which compares false both ways) is not modelled.
- The read-then-insert race in the bid route and any database isolation are left out. Placement is sequential. The failed latest-bid query, the failed insert and the failed `ends_at` update are boolean parameters.
- Bids.DecisionOrder: states the rejection order of the bid route with the missing `await` supplied. As written, every rejection after MissingItemId is a 500 (`Bids.DecideAsWritten`).
- Bids.BiddingWindowInclusive: states the clock checks with the missing `await` supplied. As written, the route answers 500 before reaching them.
- StatusBoundaries.EndInstantDisagreement: the bid route's acceptance at `now == end` assumes the missing `await` supplied. As written, the route answers 500.
- StatusBoundaries.MissingEndReadsAsEpoch: the AuctionEnded answer assumes the missing `await` supplied. As written, the route answers 500.
- Bids.Decide: models the bid route's decision with the missing `await` supplied. As written, it is `Bids.DecideAsWritten`.
- Bids.BidBook.PlaceBid: models the route with the missing `await` supplied. As written, no bid is ever placed (`Bids.BidBook.PlaceBidAsWritten`). The database-assigned bid id and `created_at` are not modelled. Neither is the JSON response text.
- Error message texts are not modelled. Each rejection carries its HTTP status through a `Status()` function.
- Request bodies are modelled only in the properties the routes read. `item_id` is a string. A non-string `item_id` or non-text field values are not modelled.
- The Next.js `matcher` configuration of the middleware is framework path matching and is left out. The decision is modelled for every path.
- AdminCreate.Create: the database-assigned id of the inserted event is not modelled. `starts_at`/`ends_at` are kept as the submitted text, as the route inserts them.
- BidIncrements.GetIncrement: its own contract bounds the step (1 to 1000). The exact tier step is stated by `IncrementIsTierStep`. The fallback of 1 can only fire for non-integer or negative JavaScript numbers, which whole-unit amounts exclude.
- ImageViewer.Next and ImageViewer.Prev: JavaScript's truncating `%` is modelled by Dafny's `%`. The two agree because callers mount the viewer only with `0 <= index < n`. With no images, the source would compute `NaN`, which is outside the model.
