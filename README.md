# wdgames-library: request decisions, comment store and browsing state

This project models two parts of a game catalog site in Dafny and proves properties about them.

- **The server** (`server.js`):
  - the `/api/games` listing, which slices the cached game list into pages;
  - the `/api/game/:id` detail route, which promotes `premium_url` to `download_url` for signed-in callers and never sends `premium_url`;
  - the `isLoggedIn` guard;
  - comment posting: a length check on the trimmed text, then a fail-open toxicity screen with a strict `> 0.7` threshold, then the insertion;
  - comment listing: approved comments of one game, newest first;
  - the Google sign-in callback, which finds or creates an account keyed by `googleId`.
- **The home page's browsing state** (`public/js/main.js`): `currentPage`, `totalPages`, `currentCategoryId`, `currentSearchTerm` and `isLoading`, and the events that change them. These are search input, category click, "Todos" click, the infinite-scroll trigger, and the start and the end of `loadData`.

Files:

- `wrappers.dfy`: `Option`, `Min`, `Max`.
- `jstext.dfy`: JavaScript's `String.prototype.trim`.
- `accounts.dfy`: accounts and find-or-create, with the `UserStore` class.
- `catalog.dfy`: pagination with JavaScript's `slice` and `Math.ceil` rules, and the download-link resolver, with a `GameObject` class that is changed in place as the route does it.
- `comments.dfy`: the guard, the screener, posting and listing, with the `CommentStore` class.
- `browse.dfy`: the `Browser` class, whose fields are main.js's module-level variables and whose methods are its events.

Inputs that come from outside become parameters:

- the signed-in caller is an `Option<User>` (`req.isAuthenticated()` / `req.user`);
- the Perspective reply is a `ScreenerOutcome`: `NoKey`, `ProviderError` or `Score(real)`;
- the upstream game payload is an `Upstream` value;
- a comment's timestamp is `now`;
- a fetch result on the client is a `LoadOutcome`;
- a query or path value after `parseInt` is an `Option<int>`, where `None` stands for a missing value or `NaN`.

Facts about the code that a reader might not expect, which the model follows:

- The code has no route that deletes comments, so there is no deletion and no ownership check.
- The listing accepts any parsed page, including negative ones. Negative slice bounds then count from the end of the list (`NegativePage`, `NegativePageCountsFromEnd`).
- When a signed-in caller asks for a game without `premium_url`, `download_url` is set to `undefined`. The JSON reply then has no `download_url` at all.
- A category id of `0` is falsy, so it selects the full listing.
- A search term made only of blanks is truthy, so it selects the search endpoint.

## Model

| member | source | states |
|---|---|---|
| `JsText.TrimStart` | server.js:233 | the result is the suffix of the text after its leading white space, and starts with a non-space |
| `JsText.TrimEnd` | server.js:233 | the result is the prefix of the text before its trailing white space, and ends with a non-space |
| `JsText.Trim` | server.js:233 | `trim()` is the window of the text that starts right after its leading white space and is followed only by white space; neither end of it is a space |
| `JsText.TrimEmptyIff` | server.js:233 | `trim()` is empty exactly when the text is all white space |
| `Accounts.FindByGoogleId` | server.js:77 | `findOne` returns a stored account with that Google id, and returns none exactly when no stored account has that id |
| `Accounts.NewUser` | server.js:83-88 | a new account takes the profile's id, its name, its first e-mail and its first photo; it cannot be built when the profile has no e-mail or no photo |
| `Accounts.FindOrCreateUser` | server.js:74-96 | an existing account is returned and nothing is stored; otherwise exactly one account with the profile's Google id is appended and returned; a profile without e-mail or photo, or with an empty Google id (which the `required` validator of server.js:27, the predicate `SaveAccepts`, rejects at `save`), gives an error and stores nothing |
| `Accounts.FindAfterAppend` | server.js:77-89 | once an account with a new Google id is appended, looking that id up finds it |
| `Accounts.FindOrCreateKeepsUnique` | server.js:27 | signing in keeps every Google id unique among the stored accounts |
| `Accounts.FindOrCreateIdempotent` | server.js:77-90 | signing in a second time with the same profile returns the same result and stores nothing more |
| `Accounts.UserStore.FindOrCreate` | server.js:74-96 | the callback's reply and the collection afterwards are those of `FindOrCreateUser`, and Google ids stay unique |
| `Catalog.IntParamOr` | server.js:172-173 | `parseInt(q)` with the fallback `d` gives `d` for a missing value, `NaN` or 0, and gives the parsed value otherwise |
| `Catalog.SliceIndex` | server.js:176 | how `slice` resolves a bound: a negative bound counts back from the end, and every bound is clamped to the list |
| `Catalog.JsSlice` | server.js:174-176 | `slice` is never longer than the list; with ordered non-negative bounds it is the clamped window; with two negative ordered bounds it is the window counted back from the end; with reversed bounds that are both non-negative or both negative it is empty; with a non-negative start and a negative end it runs from the clamped start to `length + end` (empty when that lies before the start); with a negative start and a non-negative end it runs from `length + start` (clamped at 0) to the clamped end (empty when that lies before the start) |
| `Catalog.CeilDiv` | server.js:178 | `Math.ceil(n / limit)` is the ceiling for both signs of a non-zero limit: `(r-1)*limit < n <= r*limit` when the limit is positive, reversed when it is negative |
| `Catalog.ListGames` | server.js:171-185 | the reply echoes the page number (1 when absent, `NaN` or 0), `totalGames` is the list length, `totalPages` is the ceiling of the length over the limit (24 by default) for a positive and for a negative limit alike, and the page never holds more games than the list |
| `Catalog.PageSlice` | server.js:174-176 | for a page and a limit of at least 1, the page is the list between `(page-1)*limit` and `page*limit`, clamped to its length, so it holds at most `limit` games |
| `Catalog.PageContents` | server.js:172-176 | for a page and a limit of at least 1, the page has at most `limit` games, is empty exactly when `page > totalPages`, and otherwise is `all[(page-1)*limit .. min(page*limit, length))` |
| `Catalog.NegativePage` | server.js:172-176 | a page of -1 or below, with a limit of at least 1, is the list between `length + (page-1)*limit` and `length + page*limit`, each clamped at 0 |
| `Catalog.NegativeLimitFirstPage` | server.js:172-176 | with a limit of -1 or below, page 1 is `slice(0, limit)`: every game except the last `-limit` ones, or none |
| `Catalog.NegativePageCountsFromEnd` | server.js:172-176 | page -1 with limit 2 of a five-game list returns its second and third games, because the negative slice bounds count from the end |
| `Catalog.PageWindow` | server.js:174-178 | a page starts inside the list exactly when its number is at most the page count |
| `Catalog.ListedPage` | server.js:172-176 | for a non-zero page and a non-zero limit, the reply's games are the slice from `(page-1)*limit` to `page*limit` |
| `Catalog.OffsetIsProduct` | server.js:174-175 | a proof helper for the paging lemmas: the offset of page `k + 1`, built by adding `limit` k times, is the product `k*limit` the route computes |
| `Catalog.PageK` | server.js:176 | page `k` of a positive limit is the list between the clamped bounds `(k-1)*limit` and `k*limit` |
| `Catalog.PagesUpToIsPrefix` | server.js:174-178 | pages 1 to k, concatenated, are the first `k*limit` games of the list, or all of them |
| `Catalog.PagesCoverList` | server.js:176-178 | for any limit of at least 1, concatenating pages 1 to `totalPages` gives back the list exactly, in order |
| `Catalog.Resolved` | server.js:195-201 | `premium_url` is never in the output; a signed-in caller gets `download_url` equal to `premium_url` (absent when there is none); an anonymous caller keeps `download_url`; every other field is unchanged |
| `Catalog.GameObject.ResolveDownload` | server.js:195-201 | the in-place assignment and `delete` leave the object's fields equal to `Resolved` of the old fields |
| `Catalog.GameDetail` | server.js:188-207 | an upstream failure gives 500 with the fixed message and the error's message; otherwise 200 with the game resolved for the caller's sign-in state, which never contains `premium_url` |
| `Comments.IsLoggedIn` | server.js:114-119 | a request goes on to the handler exactly when there is a signed-in user, and carries that user; otherwise it is answered 401 with the fixed message |
| `Comments.ScreenerFailsOpen` | server.js:263-289 | a missing key and a provider error are both "not toxic"; a score is toxic exactly when it is strictly above 0.7, so 0.7 itself passes |
| `Comments.PostVerdict` | server.js:228-242 | anonymous means 401; a missing text or a trimmed length below 3 means 400 "Comentário muito curto."; a toxic screen means 400 with the blocking message; a comment is accepted exactly when the caller is signed in, the text is long enough, the screen passes and the id is a number; an accepted comment carries the parsed `gameId`, the caller and the untrimmed text |
| `Comments.CheckToxicity` | server.js:263-289 | only a score can make a comment toxic, and a score does so exactly when it is strictly above 0.7 |
| `Comments.TooShortIff` | server.js:233 | the length check rejects a text exactly when the text is missing or has no two non-spaces at least two positions apart |
| `Comments.AnonymousPostIgnoresRequest` | server.js:228 | an anonymous post gets the same answer whatever its game id, text or screen outcome: the handler never runs |
| `Comments.ShortTextIsNotScreened` | server.js:233-239 | a too-short text gets the same answer whatever the screener would say: the screener is not consulted |
| `Comments.ShortExamples` | server.js:233 | "hi", the empty text and a missing text are too short; "abc" is not |
| `Comments.NewComment` | server.js:244-251 | the saved comment has the parsed game id, the caller's `googleId`, `displayName` and `photo`, the text as sent, the given timestamp, and `isApproved = true` |
| `Comments.ApprovedFor` | server.js:219 | a comment occurs in the filtered list exactly when it is stored, belongs to that game and is approved; the list is no longer than the collection |
| `Comments.ApprovedForCounts` | server.js:219 | the filter keeps each approved comment of that game exactly as often as it is stored, and no other comment |
| `Comments.ApprovedForAppend` | server.js:219 | filtering a collection with one more comment adds that comment at the end when it matches, and adds nothing otherwise |
| `Comments.Insert` | server.js:220 | inserting a comment adds exactly that comment, and the result begins with either it or the old first comment |
| `Comments.InsertKeepsOrder` | server.js:220 | inserting into a newest-first sequence keeps it newest first |
| `Comments.SortNewestFirst` | server.js:220 | `sort({ timestamp: -1 })` returns the same comments, the same number of times, in non-increasing timestamp order |
| `Comments.PostedIsListedFirst` | server.js:219-254 | a posted comment that is strictly newer than every approved comment of its game is listed first for that game |
| `Comments.CommentStore.List` | server.js:216-225 | exactly the stored approved comments of the game, each as often as stored, in non-increasing timestamp order; 500 with the fixed message when the id is not a number |
| `Comments.CommentStore.Post` | server.js:228-259 | a rejected post sends the verdict's reply and saves nothing; an accepted post appends exactly one comment, built by `NewComment`, answers 201 with it, and leaves the rest of the collection as it was; document ids stay distinct |
| `Comments.StoredAppendKeepsIds` | server.js:244-254 | saving a comment under the next free id keeps every stored id below the counter and all ids distinct |
| `Browse.SelectEndpoint` | public/js/main.js:133-143 | a non-empty search term selects `/api/search`; otherwise a truthy category id (the predicate `CategorySelected`: neither `null` nor 0, main.js:136) selects `/api/games/category/:id`; otherwise `/api/games`; the page is the given one and the limit is always 24 |
| `Browse.Browser.constructor` | public/js/main.js:20-24 | the page state starts on page 1 of 1, with no category, no search term and no load running |
| `Browse.Browser.LoadData` | public/js/main.js:112-143 | a non-clearing load while `isLoading` changes nothing and fetches nothing; any other load sets `isLoading`, resets `totalPages` to 1 when clearing, sets `currentPage := page`, keeps the filters, and fetches the endpoint `SelectEndpoint` picks |
| `Browse.Browser.LoadFinished` | public/js/main.js:145-164 | on success `currentPage` and `totalPages` take the reply's `page` and `totalPages`; on failure they are unchanged; either way `isLoading` is false afterwards |
| `Browse.Browser.ScrollRequest` | public/js/main.js:60-61 | the scroll trigger asks for a page exactly when no load runs and `currentPage < totalPages`, and that page is `currentPage + 1`, never beyond `totalPages` |
| `Browse.Browser.OnScrollTrigger` | public/js/main.js:58-62 | when visible and allowed, it starts a non-clearing load of page `currentPage + 1` (at most `totalPages`); otherwise nothing changes |
| `Browse.Browser.SearchInput` | public/js/main.js:44-53 | the term becomes the input's value, the category is cleared, and a clearing load of page 1 is scheduled |
| `Browse.Browser.CategoryClick` | public/js/main.js:98-104 | the category is set, the term is cleared, and a clearing load of page 1 of that category starts |
| `Browse.Browser.AllClick` | public/js/main.js:85-91 | both filters are cleared, and a clearing load of page 1 of `/api/games` starts |

The `Valid()` predicates are invariants that every method keeps:

- `UserStore`: Google ids are unique.
- `CommentStore`: document ids are distinct and below the next id to hand out.
- `Browser`: a search term and a category are never active together.

`Browse.OverlappingLoads` is a scenario with no contract. It shows a clearing load starting while a scroll load is still running. It also shows that the first of the two to finish sets `isLoading` to false while the other is still outstanding.

## Left out

- MongoDB connection, the schemas as storage, `connect-mongo` sessions and cookie settings (server.js:17-61): the two collections are `seq` fields of `UserStore` and `CommentStore`.
- The Passport/Google OAuth handshake, `serializeUser`/`deserializeUser`, the login, callback and logout routes, and `/api/me` (server.js:63-111, 128-161): they reduce to the `Option<User>` caller.
- The axios calls to the upstream catalog and to the Perspective API (server.js:124, 191, 270-277): they are network I/O, so their outcomes are the `Upstream` and `ScreenerOutcome` parameters.
- `cacheData` is an empty stub (server.js:126), so the cached game list is a parameter of `ListGames`.
- The routes that are only placeholders in the code (categories, category listing, search, recommendations, frontend pages): they have no body to model.
- Comment deletion and ownership checks: no such route exists in the code.
- `Date.now` and MongoDB's generated ids: the timestamp is a parameter and the id is a counter (`nextId`).
- `parseInt` itself: the model starts from the parsed integer or `None` for `NaN`. The trailing-garbage rule of `parseInt` ("12abc" gives 12) and the precision of JavaScript numbers are not modelled.
- The toxicity score is a Dafny `real`, not a floating-point number. What is modelled is the strict comparison with 0.7.
- Comments.TooShort: Dafny counts code points, while JavaScript's `length` counts UTF-16 code units. The two differ only for characters outside the Basic Multilingual Plane.
- Accounts.UserStore.FindOrCreate: the callback is modelled as one atomic step, although `findOne` (server.js:77) and `save` (server.js:89) are two awaited calls between which other requests can run. Two overlapping first sign-ins with the same new Google id both find nothing; in the code the second `save` then fails on the `unique` index (server.js:27) and ends in `done(err)`, while the model finds the first account and signs in. So in the code it is the index, not the check before the insert, that keeps Google ids unique under concurrency. Database errors in `findOne` or `save`, which also end in `done(err)`, are not modelled either; they are I/O.
- Comments.CommentStore.Post: database failures other than a non-numeric game id are not modelled, because they are I/O. A `text` that is not a string, whose `trim` throws, is not modelled either. Both would give the 500 reply.
- Catalog.GameDetail: the upstream payload is modelled as a JSON object only. server.js is not in strict mode, so a primitive payload (a string, a number or a boolean) goes through: the assignment and the `delete` do nothing and the route answers 200 with that payload. An array payload also goes through, and the added key is dropped by JSON. Only a `null` payload throws, at the assignment for a signed-in caller and at the `delete` for an anonymous one, and gives the 500 reply. None of these payload shapes is modelled.
- Comments.SortNewestFirst: MongoDB does not fix the order of equal timestamps. The model keeps stored order for them. The contract promises only the non-increasing order and the same comments.
- In main.js: the `debounce` timer, the `IntersectionObserver` wiring, `setLoading`'s spinner, `updateActiveButton`, the grid-title lookup, `loadCategories`' fetch and the render functions. The DOM, timers and fetch are I/O. `SearchInput` returns the load it schedules, and the caller runs it later with `LoadData`.
- The `console.warn`, `console.log` and `console.error` calls (server.js:266, 280, 286; main.js:108, 159): logging only, with no effect on replies or state.
- public/js/game.js, public/js/global.js and tailwind.config.js: presentation and styling only.
