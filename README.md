# ao3_api core, modelled in Dafny

This project models the core of `ao3_api`, a JavaScript client for the
Archive of Our Own (AO3). The client fetches pages of the archive, reads them
with CSS selectors and presents their contents as lazily computed, cached
properties:

- **Work** and **Chapter**: the field getters, their field cache (`data`),
  `reload` and `loadChapters`.
- **User**: three facets (works, profile and bookmarks) with their getters and
  page walks.
- **Search**: the query string built from the search parameters, and `update`.
- **Session**: the user gate, `get`/`request` and `refresh`.
- The utilities these build on:
  - the sliding-window rate limiter `Requester`;
  - the `encodeURI` query builder `Query`;
  - `WordCount`;
  - `WorkIdFromUrl`;
  - `WorkFromBanner`, which builds a work stub from a listing blurb.

The network is a parameter: a function from URL to a response, given as a
status code, a body length and the page already parsed into a record of what
the selectors find. Clocks are parameters too (`Date.now` readings). The
JavaScript values the client handles are modelled explicitly:

- `Prim`: undefined, null, booleans, numbers that are integers or NaN, and
  strings;
- truthiness;
- strict equality;
- template-literal rendering;
- `parseInt` with and without a radix, including its hexadecimal prefix;
- `split`, `join`, the one-shot `replace`, `trim` and `includes`.

Exceptions are the error side of `Result`/`Outcome`. Each one carries the
error class and message the source throws: `TypeError` for a property read on
`undefined`, `ReferenceError` for an undefined name, `HTTPError`,
`BaseAO3Error` and `AuthError`.

Modules, one per file:

- `Prelude`: Option, Result, Outcome and Error.
- `Strings`, `Numbers` and `Js`: the JavaScript built-ins.
- `Fetch`: the status rules of `get` and the long-page advisory of `request`.
- `RateLimit`: `Requester.js`.
- `QueryString`: `Query.js`, with `encodeURI` and `decodeURI`.
- `Words`: `WordCount.js`.
- `WorkIds`: `WorkIdFromUrl.js`.
- `Banners`: `WorkFromBanner.js`.
- `Memo`: the getter-with-cache shape that Work, Chapter and User share.
- `Searching`: `Search.js`.
- `Works`: `Work.js` and `Chapter.js`, in one module because each refers to
  the other.
- `Users`: `User.js`.
- `Sessions`: `Session.js`.

Objects whose fields the source updates in place are classes:

- `Requester`
- `Query`
- `Search`
- `Work`
- `Chapter`
- `User`
- `Session`

Their methods state the new state and the outcome in terms of specification
functions (`Admit`, `EncodeAll`, `Updated`, `WorkLookup`, `ChapterPlan`,
`LoadOutcome`, `Collected`, `RefreshOutcome`, …). One part is stated only up
to a prefix: when `loadChapters` stops early, the chapters made so far are the
first ones of the plan (`PlanPrefix`). Each chapter the listing makes starts
with an empty cache and, when loading, holds the page its fetch gave, as
`Adopt` places it among the chapters before it (`Pages`). Lemmas prove what those functions promise. Loops in the
source are loops here, each checked against its specification function: the
eviction loop, the banner walks, the article loop, the paragraph walk, the
page-count scan, the chapter creation loop and the page walks of a user.

Where the code and its documentation disagree, the model follows the code:

- `setIfNotNull` assigns only null or undefined values, so a stub built from a
  banner gets no properties.
- Any series link in a banner throws, because `Series` is not imported.
- `Work.status` is always "Completed".
- The eviction loop of `Requester` tests the newest entry but drops the
  oldest one.
- `Session.user` always throws.
- `Session.refresh` throws `ReferenceError` in place of
  `UnexpectedResponseError`.
- `User.reload` leaves `works` and `bookmarks` undefined.
- `new User(name, {load: true})` throws TypeError: it calls `this.load()`,
  which User does not define.
- A chapter without a work cannot reload. `Work.js` and `Chapter.js` require
  each other, and every entry point loads `Work.js` first. Inside `Chapter.js`,
  `Work` is therefore the still empty exports object of `Work.js`, and
  `new Work(…)` throws TypeError.
- The text of the single chapter of a one-chapter work throws TypeError: it
  calls `children('p')` on the document root function, which has no such
  method.

## Model

| member | source | states |
|---|---|---|
| RateLimit.Requester.constructor | src/structs/util/Requester.js:10-15 | empty record; the limit and the window as given, 12 per 60000 ms by default |
| RateLimit.Requester.SetRequestsPerWindow | src/structs/util/Requester.js:21-23 | only the limit changes, to the value given |
| RateLimit.Requester.SetWindow | src/structs/util/Requester.js:29-31 | only the window changes, to the value given |
| RateLimit.Requester.Request | src/structs/util/Requester.js:37-58 | the loop of evictions, the wait and the new stamp in front yield `Admit` of the old record, and the wait is that of `Throttle` |
| RateLimit.UnlimitedOnlyPrepends | src/structs/util/Requester.js:38 | with limit -1 nothing is evicted, nothing waits, and the stamp is prepended |
| RateLimit.ThrottleOnlyWhenFull | src/structs/util/Requester.js:39 | eviction or a wait happens only when the record is at the limit on entry |
| RateLimit.EvictAllOrNothing | src/structs/util/Requester.js:41-47 | on a newest-first record the loop evicts everything or nothing, and which one depends only on the newest entry's age |
| RateLimit.FullWindowWaits | src/structs/util/Requester.js:48-51 | still full after eviction: sleep exactly `requests[0] + window - t` (positive) and drop the last entry |
| RateLimit.ThrottleKeepsPrefix | src/structs/util/Requester.js:41-51 | what survives throttling is a prefix of the old record |
| RateLimit.AdmitBounded | src/structs/util/Requester.js:37-57 | with a limit of at least one, a record within the limit stays within it after a call |
| RateLimit.RunBounded | src/structs/util/Requester.js:37-57 | the same after any series of calls |
| RateLimit.AdmitNewestFirst | src/structs/util/Requester.js:56 | the new stamp is at index 0 and a newest-first record stays newest first |
| RateLimit.RunNewestFirst | src/structs/util/Requester.js:56 | calls whose stamps never decrease keep the record newest first |
| RateLimit.RunSnoc | src/structs/util/Requester.js:37-57 | a series of calls followed by one more is that call's `Admit` of the series' record |
| RateLimit.RunStep | src/structs/util/Requester.js:37-57 | the record before call k + 1 is call k's `Admit` of the record before call k |
| RateLimit.SequentialRises | src/structs/util/Requester.js:56 | calls made one after another have stamps that never decrease |
| RateLimit.FullCallWaitsWindow | src/structs/util/Requester.js:39-51 | a call that finds the record full is stamped at least a window after the newest entry: that entry had expired, or the call sleeps until it expires |
| RateLimit.RecordGrows | src/structs/util/Requester.js:39-56 | while no call finds the record full, each call adds one entry |
| RateLimit.FullCallBetween | src/structs/util/Requester.js:37-57 | among any `perWindow` consecutive calls after a call, one finds the record full |
| RateLimit.RecordBefore | src/structs/util/Requester.js:56 | before each later call the record is newest first, with the previous call's stamp in front |
| RateLimit.SlidingWindow | src/structs/util/Requester.js:37-57 | sliding window: with a limit of at least one, calls i and j with j - i >= the limit are stamped at least a window apart, so no window-long interval holds more than the limit's number of calls |
| QueryString.Query.constructor | src/structs/util/Query.js:15-17 | no fields; the query string is "" |
| QueryString.Query.AddField | src/structs/util/Query.js:19-21 | the fields are the old ones followed by `encodeURI(text)` |
| QueryString.EncodeAll | src/structs/util/Query.js:19-21 | one field per text, in call order, each the encoding of its text |
| QueryString.EncodeURIAppend | src/structs/util/Query.js:20 | `encodeURI` works character by character: the encoding of a concatenation is the concatenation of the encodings |
| QueryString.EncodeURIKeeps | src/structs/util/Query.js:20 | text made only of unescaped characters is left as it is |
| QueryString.EscapedExamples | src/structs/util/Query.js:20 | a space becomes "%20"; "[" and "]" become "%5B" and "%5D" |
| QueryString.EncodeURIKeepsOccurrence | src/structs/util/Query.js:20 | an unescaped, non-hexadecimal character such as "&" occurs in the encoding exactly when it occurs in the text |
| QueryString.QuerySplitsBack | src/structs/util/Query.js:19-25 | splitting the query string on "&" gives back the fields exactly when there is at least one field and no text holds "&" |
| QueryString.DecodeEncode | src/structs/util/Query.js:20 | `decodeURI` undoes `encodeURI` on every text, including characters that need two, three or four bytes of UTF-8 |
| QueryString.EncodeURIInjective | src/structs/util/Query.js:20 | different texts give different fields |
| Words.PiecesAndRuns | src/structs/util/WordCount.js:7 | the non-empty pieces between single spaces are as many as the runs of non-space characters |
| Words.WordCountIsRuns | src/structs/util/WordCount.js:6-8 | the word count is the number of maximal runs of characters other than " " |
| Words.WordCountEmpty | src/structs/util/WordCount.js:6-8 | the empty text has no words |
| Words.WordCountBound | src/structs/util/WordCount.js:6-8 | never more words than characters |
| Words.WordCountAdditive | src/structs/util/WordCount.js:6-8 | counts add up across a space |
| Words.WordCountExtraSpaces | src/structs/util/WordCount.js:6-8 | a doubled space, or a space at either end, changes nothing |
| Words.WordCountOneWord | src/structs/util/WordCount.js:6-8 | a non-empty text without a space is one word |
| WorkIds.NoWorksSegment | src/structs/util/WorkIdFromUrl.js:8-9 | no "works" segment: undefined |
| WorkIds.WorkIdOfSegments | src/structs/util/WorkIdFromUrl.js:7-16 | only the segment after the first "works" matters; none after it is a TypeError |
| WorkIds.SegmentOfDigits | src/structs/util/WorkIdFromUrl.js:11-13 | digits followed by a non-digit and a "?" query read as their value |
| Fetch.Accept | src/structs/ao3/Work.js:535-546 | a response is accepted exactly when its status is at most 399; otherwise HTTPError with that status |
| Fetch.AcceptOnly200 | src/structs/ao3/Session.js:112-123 | a response is accepted exactly when its status is 200; otherwise HTTPError with that status |
| Fetch.AcceptOnly200Stricter | src/structs/ao3/Session.js:119 | the session rule accepts only what the general rule accepts, and refuses every 3xx the general rule lets through |
| Js.ToStrOfInteger | src/structs/ao3/Work.js:457 | the template rendering of an integer id reads back under `parseInt(…, 10)` |
| Numbers.ValueOfNatToString | src/structs/ao3/Work.js:457 | the decimal rendering of a natural number is digits whose value is that number |
| Numbers.ParseIntOfRendering | src/structs/util/WorkIdFromUrl.js:12-13 | the rendering of any integer, followed by anything but a digit, parses back to it |
| Numbers.ParseIntOfDigits | src/structs/util/WorkFromBanner.js:74-76 | what `/^\d+$/` accepts, `parseInt` reads in full |
| Numbers.ParseIntNoDigits | src/structs/ao3/User.js:69 | a text without a digit parses as NaN |
| Numbers.ParseIntSkipsSpace | src/structs/ao3/Search.js:241 | leading white space does not change the result |
| Numbers.ParseIntIgnoresTail | src/structs/util/WorkIdFromUrl.js:12 | the leading digits decide: a tail starting with a non-digit is ignored |
| Strings.Split | src/structs/util/WorkIdFromUrl.js:7 | `split` always yields at least one piece |
| Strings.JoinSplit | src/structs/util/WorkFromBanner.js:59 | joining the pieces of a split with the same separator gives back the text |
| Strings.SplitJoinExactly | src/structs/util/Query.js:23-25 | splitting a join on a one-character separator gives back the parts exactly when there is at least one part and no part holds the separator |
| Memo.Memo | src/structs/ao3/Work.js:35-45 | a cache hit answers from the cache; otherwise an unloaded entity throws its not-loaded error; otherwise the computed answer, stored only when the getter stores and it succeeded |
| Memo.MemoStable | src/structs/ao3/Work.js:35-45 | once stored, a value the cache test accepts is answered by every later call, unchanged |
| Memo.MemoNoStore | src/structs/ao3/Work.js:465-476 | a getter that does not store leaves the cache as it was |
| Memo.MemoUnloaded | src/structs/ao3/Work.js:35-45 | on an unloaded entity the getter answers from the cache or throws, and changes nothing |
| Banners.AuthorNames | src/structs/util/WorkFromBanner.js:25-30 | the text of every heading link whose `rel` includes "author", and no other name; no more names than links |
| Banners.Slot | src/structs/util/WorkFromBanner.js:46-56 | each tag goes to one of the four groups or to none |
| Banners.Coerce | src/structs/util/WorkFromBanner.js:73-100 | a stat is a number or a text, never NaN |
| Banners.WorkFromBanner | src/structs/util/WorkFromBanner.js:21-136 | the walk returns or throws exactly what `BannerWork` specifies |
| Banners.CollectAuthors | src/structs/util/WorkFromBanner.js:25-30 | the loop keeps the texts of the author links, in order |
| Banners.RouteTags | src/structs/util/WorkFromBanner.js:42-56 | the loop files each tag under the first class it names and fails on the first tag without a class |
| Banners.AssignPairs | src/structs/util/WorkFromBanner.js:112-133 | the `setIfNotNull` calls in order, from an empty object |
| Banners.Entries | src/structs/ao3/Search.js:229-237 | one entry per article, in order |
| Banners.CollectArticles | src/structs/ao3/Search.js:229-237 | the article loop returns the stubs of the articles that have an `h4`, in order, and stops at the first banner that throws |
| Banners.RouteAllFails | src/structs/util/WorkFromBanner.js:47 | a tag without a class fails the whole walk with TypeError |
| Banners.SetIfNotNullInverted | src/structs/util/WorkFromBanner.js:10-14 | `setIfNotNull` writes exactly the null and undefined values |
| Banners.AssignAllNonNull | src/structs/util/WorkFromBanner.js:112-133 | assignments of values that are neither null nor undefined change nothing |
| Banners.AssignmentsNonNull | src/structs/util/WorkFromBanner.js:112-133 | none of the values the walk computes is null or undefined |
| Banners.StubGetsNoProperties | src/structs/util/WorkFromBanner.js:112-135 | a stub that is built carries no properties, and its id is the last "/"-piece of the heading link |
| Banners.StubId | src/structs/util/WorkFromBanner.js:35 | a built stub has a heading link, and its id is that link's last "/"-piece |
| Banners.StubIdOfLink | src/structs/util/WorkFromBanner.js:35 | a heading link ".../<id>" gives the stub id `<id>` |
| Banners.ScrapeFailsWhen | src/structs/util/WorkFromBanner.js:21-136 | the walk throws exactly when the heading has no link `href`, a tag has no class, there is a series link, or the chapters stat has no "/" |
| Banners.RouteAllErrIff | src/structs/util/WorkFromBanner.js:46-56 | the tag walk fails exactly when some tag has no class, and then with TypeError |
| Banners.RouteAllIsFilter | src/structs/util/WorkFromBanner.js:46-56 | each group holds, in order, the texts of the tags whose first matching class is that group's |
| Banners.AuthorNamesAppend | src/structs/util/WorkFromBanner.js:26-30 | author names keep document order across a concatenation |
| Banners.AuthorNamesSingle | src/structs/util/WorkFromBanner.js:27-28 | a link is an author exactly when its `rel` includes "author" |
| Banners.CoerceCases | src/structs/util/WorkFromBanner.js:73-76 | after removing the first comma, digits become their number and anything else stays text |
| Banners.CoerceKeepsSecondComma | src/structs/util/WorkFromBanner.js:73 | "1,234,567" stays the text "1234,567" |
| Banners.CompleteIff | src/structs/util/WorkFromBanner.js:102-105 | a banner is complete exactly when both halves of the chapters stat coerce to the same value |
| Banners.CompleteOfCounts | src/structs/util/WorkFromBanner.js:81-105 | "a/b" with plain counts is complete exactly when a = b |
| Banners.CountsOfHalves | src/structs/util/WorkFromBanner.js:81-88 | both halves of "a/b" read as their numbers |
| Banners.UnknownTotalIncomplete | src/structs/util/WorkFromBanner.js:85-105 | "a/?" is incomplete, and its expected count is the text "?" |
| Banners.CategoriesRejoin | src/structs/util/WorkFromBanner.js:59 | the categories joined with ", " give back the category text |
| Banners.GatherLast | src/structs/ao3/Search.js:229-237 | one more entry is skipped when absent or after an error; otherwise it ends the walk with its error or adds its value |
| Banners.GatherStops | src/structs/ao3/Search.js:234 | once an entry has failed, later entries change nothing |
| Banners.GatherAppend | src/structs/ao3/Search.js:229-237 | a walk over a concatenation whose first part goes through is the two walks in sequence |
| Banners.HarvestAppend | src/structs/ao3/Search.js:229-237 | so the stubs of a listing keep document order |
| Banners.HarvestSingle | src/structs/ao3/Search.js:231-236 | an article without an `h4` gives nothing; one with an `h4` gives its stub or its error |
| Searching.BuildQuery | src/structs/ao3/Search.js:115-176 | a fresh Query whose fields are the encodings of the texts, in call order |
| Searching.Search.constructor | src/structs/ao3/Search.js:33-83 | parameters as given; no results, 0 pages, 0 total |
| Searching.Search.Update | src/structs/ao3/Search.js:202-246 | the outcome is that of `Updated` on the fetched page; on success the results, total and page count are its values, and on failure nothing changes |
| Searching.Search.Receive | src/structs/ao3/Search.js:209-243 | the same, for a given response |
| Searching.EncodeAllAppend | src/structs/ao3/Search.js:115-176 | one more `addField` appends one encoded field |
| Searching.QueryStringIsUrlTail | src/structs/ao3/Search.js:178 | the URL is the search base followed by the built query string |
| Searching.QueryFieldFirst | src/structs/ao3/Search.js:116 | the first field is always the query, with "" for a falsy `any_field` |
| Searching.KeptAreFilters | src/structs/ao3/Search.js:120-176 | every filter field starts with "work_search[" |
| Searching.PageFieldIff | src/structs/ao3/Search.js:117-119 | a "page=" field is present exactly when `page !== 1`, and then it comes second with the page rendered |
| Searching.KeptAppend | src/structs/ao3/Search.js:120-176 | filters contribute in order |
| Searching.FilterPlace | src/structs/ao3/Search.js:120-176 | each filter adds its field exactly when its rule lets it through, in its place |
| Searching.KeptCount | src/structs/ao3/Search.js:120-176 | the number of filter fields is the number of filters let through |
| Searching.UndefinedCrossoverAddsF | src/structs/ao3/Search.js:156-158 | an undefined `crossovers` passes `!== null` and adds "work_search[crossover]=F" |
| Searching.DefaultFields | src/structs/ao3/Search.js:33-56 | with every default the only field is the empty query |
| Searching.KeptNone | src/structs/ao3/Search.js:120-176 | filters that are all refused add nothing |
| Searching.PageCountBounds | src/structs/ao3/Search.js:242 | the page count is the smallest number of 20-result pages that holds the total |
| Searching.TotalReadsLeadingDigits | src/structs/ao3/Search.js:241 | the total is the leading digits of the heading's first word |
| Sessions.RefreshUrl | src/structs/ao3/Session.js:76-80 | the user's page once authenticated, the landing page otherwise |
| Sessions.Session.constructor | src/structs/ao3/Session.js:16-22 | credentials as given; not authenticated, not logged in, no token |
| Sessions.Session.User | src/structs/ao3/Session.js:29-34 | always throws: AuthError exactly when `loggedIn` is falsy, TypeError past the gate |
| Sessions.Session.Get | src/structs/ao3/Session.js:112-123 | accepted exactly when the status is 200 |
| Sessions.Session.Request | src/structs/ao3/Session.js:97-104 | the page `get` accepted; the warning exactly when an accepted body is longer than 650000 |
| Sessions.Session.Refresh | src/structs/ao3/Session.js:60-89 | the outcome of `RefreshOutcome`; the token is replaced only on success |
| Sessions.RefreshPasses | src/structs/ao3/Session.js:76-88 | a refresh succeeds exactly when the page came back, the status is not the number 429 and a token was found |
| Sessions.RefreshRejectsNon200 | src/structs/ao3/Session.js:76-80 | any status other than 200 fails with that status before the other tests |
| Sessions.RateLimitIsStrict | src/structs/ao3/Session.js:82-84 | only the number 429 counts as rate limiting, not the string "429" |
| Users.Fetches | src/structs/ao3/User.js:121-122 | one response per page 1..n, each from that page's URL |
| Users.ScanPages | src/structs/ao3/User.js:66-72 | the loop yields the last page number in the list, 1 when there is none |
| Users.User.constructor | src/structs/ao3/User.js:19-30 | nothing loaded, empty cache, no pages, works and bookmarks undefined |
| Users.User.Create | src/structs/ao3/User.js:19-30 | `new User(name, {load})` fails with TypeError exactly when `load` is set, and otherwise gives a fresh user with nothing loaded |
| Users.User.GetWorks | src/structs/ao3/User.js:104-110 | the works page is kept; HTTPError when refused, "User not found." on the 404 page |
| Users.User.GetProfile | src/structs/ao3/User.js:149-155 | the same for the profile page |
| Users.User.GetBookmarks | src/structs/ao3/User.js:203-209 | the same for the bookmarks page |
| Users.User.Reload | src/structs/ao3/User.js:84-97 | the asked facets load in the order works, profile, bookmarks; a facet reached keeps its fetched page when accepted (even the 404 page) and is marked loaded only when its fetch went through; works and bookmarks become undefined; the first failure stops the rest |
| Users.User.NWorks | src/structs/ao3/User.js:37-47 | the works count from the heading, never cached; "User works not loaded." before loading |
| Users.User.NBookmarks | src/structs/ao3/User.js:162-173 | the bookmarks count, cached after a truthy answer |
| Users.User.WorksPages | src/structs/ao3/User.js:55-76 | 1 without pagination (not cached), else the last page number (cached) |
| Users.User.BookmarksPagesCount | src/structs/ao3/User.js:180-196 | the same scan over digit-only items, never cached |
| Users.User.Bio | src/structs/ao3/User.js:247-262 | "" without a bio module (not cached), else its text (cached) |
| Users.User.Avatar | src/structs/ao3/User.js:311-323 | the icon's `src`, or null when it is missing or empty |
| Users.User.Walk | src/structs/ao3/User.js:121-123 | visiting pages 1..n gathers what `Collected` specifies for those pages' responses |
| Users.User.GetWorkObjects | src/structs/ao3/User.js:117-125 | built only while `works` is undefined, from pages 1..`_worksPages` |
| Users.User.GetBookmarkObjects | src/structs/ao3/User.js:216-224 | the same for bookmarks |
| Users.CollectedStops | src/structs/ao3/User.js:121-123 | once a page fails, more pages change nothing |
| Users.CollectedGrows | src/structs/ao3/User.js:121-123 | more pages only add works after those already gathered |
| Users.CollectedAll | src/structs/ao3/User.js:121-141 | when every page and banner goes through, the walk fails nowhere and its works are `AllWorks`: the concatenation of each page's works, in page order |
| Users.AllWorksSnoc | src/structs/ao3/User.js:121-141 | the concatenation of the pages' works, taken from the last page |
| Users.LastPageIsLastNumber | src/structs/ao3/User.js:67-72 | the page count is the value of the last item that passes the page test |
| Users.LastPageWithoutNumbers | src/structs/ao3/User.js:66-72 | 1 when no item passes it |
| Users.PageTestsAgree | src/structs/ao3/User.js:180-196 | the bookmarks test (all digits) and the works test (`parseInt` is an integer) agree when every parsable item is all digits |
| Users.BookmarkPagesNatural | src/structs/ao3/User.js:180-196 | the bookmarks page count is never negative |
| Users.CountInCurrentOf | src/structs/ao3/User.js:44-45 | "Works (45)" gives 45 |
| Users.CountInCurrentOfOneWord | src/structs/ao3/User.js:44-45 | a heading without a second word gives NaN |
| Works.LinkIds | src/structs/ao3/Work.js:563-564 | each navigation item's id is `parseInt` of its link's last "/"-piece; an item without a link has none |
| Works.FirstParagraph | src/structs/ao3/Chapter.js:124 | the index of the first `p` child at or after a position, or none |
| Works.CollectLines | src/structs/ao3/Chapter.js:126-129 | each piece followed by a newline |
| Works.Paragraphs | src/structs/ao3/Chapter.js:123-130 | the walk over `p` siblings yields `ParagraphText` |
| Works.Work.constructor | src/structs/ao3/Work.js:19-28 | not loaded, empty cache, no page, no chapters |
| Works.Work.Get | src/structs/ao3/Work.js:35-492 | every field getter answers and updates the cache as `WorkLookup` specifies |
| Works.Work.Reload | src/structs/ao3/Work.js:503-512 | the page is kept even on the 404 page; "Work not found" there; loaded otherwise; when asked, the chapters are loaded with the outcome `LoadOutcome` and the cache `ListingData`, and on failure the ones made so far are a `PlanPrefix`; every chapter made has an empty cache and the page `Adopt` gives for its fetched page (`Pages`); cached values kept |
| Works.Work.LoadChapters | src/structs/ao3/Work.js:552-579 | the outcome is `LoadOutcome` (the first failure: navigation fetch, `nChapters`, a missing link or a chapter fetch, in that order); the cache is `ListingData`; the chapters are fresh, owned by this work, loaded when asked, each with an empty cache and, when loading, the page `Adopt` gives for its fetched page (`Pages`), and their ids are those of `ChapterPlan`; when it stops early: none if the navigation fetch fails, else the first ones of the plan (`PlanPrefix`) |
| Works.Work.OwnedAppend | src/structs/ao3/Work.js:569 | appending a chapter of this work keeps the list owned |
| Works.Work.AddListed | src/structs/ao3/Work.js:560-578 | with a chapter list present: the outcome is `LoadOutcome`, a failing `nChapters` stops the listing with no chapter, the cache is what reading `nChapters` leaves, and the chapters are a `PlanPrefix` of the plan with their pages (`Pages`) |
| Works.Work.AddCounted | src/structs/ao3/Work.js:560-578 | with `nChapters` read: one chapter per position when it is more than one, else a single null-id chapter; outcome `LoadOutcome`, ids a `PlanPrefix`, pages `Pages` |
| Works.Work.AddNth | src/structs/ao3/Work.js:562-569 | one loop turn: the outcome is `ChapterWalk` up to position n; on failure the chapters are unchanged, otherwise the chapter for position n is appended with its page |
| Works.Work.Push | src/structs/ao3/Work.js:569 | appends the chapter, so the ids gain its id at the end, and ownership and `Pages` still hold |
| Works.Work.AddChapters | src/structs/ao3/Work.js:561-570 | the outcome is `ChapterWalk`: the first missing link or refused chapter page in position order; one chapter per position 1..n, in order, with the ids `ChapterIds` gives; on failure the chapters made so far keep the ids of the first positions; each has an empty cache and, when loading, its adopted page (`Pages`) |
| Works.Work.NewChapter | src/structs/ao3/Work.js:565-568 | a fresh chapter of this work with the given id and an empty cache; when asked it is reloaded, passing exactly when its page is accepted, and then holds the page `Adopt` gives among the chapters listed so far; unloaded and without a page otherwise |
| Works.Work.AddSingle | src/structs/ao3/Work.js:572-577 | the single chapter has a null id; the outcome is its page fetch when loading; no chapter when its reload fails; the chapter has an empty cache and, when loading, its adopted page (`Pages`) |
| Works.Chapter.constructor | src/structs/ao3/Chapter.js:15-26 | the id and work as given, not loaded, empty cache |
| Works.Chapter.Reload | src/structs/ao3/Chapter.js:57-83 | the page fetched; a chapter without a work fails: "Cannot find work" without the "entire work" link, else the error of `WorkIdFromUrl` or the TypeError of `new Work`; with a work, the page of the last sibling with the same id replaces its own and the chapter is loaded |
| Works.Chapter.Text | src/structs/ao3/Chapter.js:114-142 | the first `p` without its first newline, then each following `p` sibling, each line ended by a newline, cached; TypeError (not cached) for the single chapter, whose branch calls `children` on the document root |
| Works.Chapter.Number | src/structs/ao3/Chapter.js:177-190 | 1 for the single chapter, else `parseInt` of the div id's last "-"-piece, cached |
| Works.Chapter.Title | src/structs/ao3/Chapter.js:149-170 | the work's title for the single chapter, the number as text without a title, else the trimmed title without its first two characters; the chapter keeps its work, and the work changes nothing but its cache |
| Works.Chapter.Summary | src/structs/ao3/Chapter.js:197-215 | the summary paragraphs' lines, "" (not cached) without a summary |
| Works.Chapter.StartNotes | src/structs/ao3/Chapter.js:222-240 | the same for the start notes |
| Works.Chapter.EndNotes | src/structs/ao3/Chapter.js:247-265 | the same for the end notes div named after the chapter number |
| Works.Chapter.Block | src/structs/ao3/Chapter.js:203-213 | the loop over a notes div's paragraphs yields what `BlockStep` specifies |
| Works.Chapter.Url | src/structs/ao3/Chapter.js:272-286 | the chapter's URL under its work, or the work's URL for the single chapter, cached |
| Works.WorkLookupKeeps | src/structs/ao3/Work.js:35-492 | a work getter never drops or changes a cached value |
| Works.ChapterIds | src/structs/ao3/Work.js:561-570 | a successful enumeration of k positions has k ids |
| Works.ChapterIdsPrefix | src/structs/ao3/Work.js:561-570 | the ids of the first j positions are the first j ids of a longer enumeration |
| Works.PagesAt | src/structs/ao3/Work.js:561-577 | under `Pages`, the chapter at each position has an empty cache and, when loading, the page `Adopt` gives among the chapters before it |
| Works.ChapterWalkStaysFailed | src/structs/ao3/Work.js:561-570 | once the chapter loop fails it fails the same way for good |
| Works.ChapterWalkUnloaded | src/structs/ao3/Work.js:561-570 | without loading, the loop fails exactly where the id enumeration does |
| Works.ChapterWalkPasses | src/structs/ao3/Work.js:561-570 | the loop passes exactly when every position has a link and, when loading, every chapter page is accepted |
| Works.LoadOutcomeUnloaded | src/structs/ao3/Work.js:552-579 | without loading, `loadChapters` fails exactly where its plan does |
| Works.LoadOutcomePasses | src/structs/ao3/Work.js:552-579 | `loadChapters` passes exactly when its plan succeeds and, when loading, the page of every planned chapter is accepted |
| Works.PlanPrefixOfPlan | src/structs/ao3/Work.js:552-579 | a successful listing's ids satisfy `PlanPrefix`, and any `PlanPrefix` of a plan that succeeds is a prefix of its ids |
| Works.ChapterIdsStep | src/structs/ao3/Work.js:561-570 | one more position with a link adds its id at the end |
| Works.ChapterIdsStayFailed | src/structs/ao3/Work.js:564 | once a position has no link, the enumeration fails with TypeError |
| Works.WorkUrlRoundTrip | src/structs/ao3/Work.js:456-458 | `WorkIdFromUrl` reads a work's URL back to its id |
| Works.ChapterUrlRoundTrip | src/structs/ao3/Chapter.js:272-286 | a chapter URL names the work it belongs to |
| Works.ChapterUrlNamesWork | src/structs/ao3/Chapter.js:272-286 | whatever the chapter's id, its URL leads back to the work's id |
| Works.ComputeFails | src/structs/ao3/Work.js:69-262 | on a loaded page only `expectedChapters` (no "/") and `edited` (a download link without `href`) throw, with TypeError; no answer is undefined |
| Works.LookupComputes | src/structs/ao3/Work.js:35-492 | a getter that misses the cache on a loaded page answers with what the page gives (apart from `edited` without a download menu) |
| Works.LookupDefined | src/structs/ao3/Work.js:35-492 | a getter's answer is never undefined |
| Works.FieldSticks | src/structs/ao3/Work.js:35-492 | once a stored field has been read, it answers the same forever |
| Works.CompleteNeverStored | src/structs/ao3/Work.js:465-476 | `complete` is never cached, and is recomputed from the page |
| Works.StatusAlwaysCompleted | src/structs/ao3/Work.js:92-102 | every loaded work reports "Completed" |
| Works.CountOfDigitGroups | src/structs/ao3/Work.js:35-45 | counts drop every comma, so digit groups read as one number |
| Works.ExpectedOfDigits | src/structs/ao3/Work.js:69-85 | "a/b" with b digits and commas gives b's value |
| Works.UnknownExpectedIsNull | src/structs/ao3/Work.js:69-85 | "a/?" gives null |
| Works.CompleteComparesText | src/structs/ao3/Work.js:465-476 | `complete` compares the two raw sides of the stat as text |
| Works.CommaBreaksComplete | src/structs/ao3/Work.js:465-476 | a finished work written "1,000/1000" (a thousands separator in the count but not in the expected total) is reported incomplete, although both sides read as the same number |
| Works.ChapterIdsOk | src/structs/ao3/Work.js:561-570 | enumeration succeeds exactly when positions 1..k all have a link |
| Works.ChapterIdsValues | src/structs/ao3/Work.js:561-570 | it then yields one id per position, in order |
| Works.NavHrefId | src/structs/ao3/Work.js:564 | ".../chapters/123" gives chapter id 123 |
| Works.SingleChapterIsOne | src/structs/ao3/Chapter.js:184-186 | the single chapter is number 1, not cached |
| Works.NumberOfDivId | src/structs/ao3/Chapter.js:187-188 | a div "chapter-12" gives 12, cached |
| Works.TitleFallsBackToNumber | src/structs/ao3/Chapter.js:159-166 | without a title the title is the number as text, not cached |
| Works.TextStopsAtNonParagraph | src/structs/ao3/Chapter.js:126-129 | the text stops at the first non-`p` sibling after the first paragraph |
| Works.AdoptNoMatch | src/structs/ao3/Chapter.js:67-72 | with no sibling of the same id the fetched page stays |
| Works.AdoptLastMatch | src/structs/ao3/Chapter.js:67-72 | otherwise the page of the last such sibling wins |
| Works.SummaryOfBlock | src/structs/ao3/Chapter.js:197-215 | an absent summary gives "" and is not cached; a present one gives its lines and is cached |

## Left out

- RateLimit.SlidingWindow: proved for calls made one after another on a fresh
  limiter with fixed settings (`Sequential`). Requests started without
  awaiting the previous one can overlap, and their clock readings interleave;
  that case is not covered.
- The transport: `undici`, the sleep itself and cookie jars. Responses are a
  parameter from URL to status and parsed page, and `Requester.request` returns
  the wait it would sleep.
- HTML parsing and the cheerio selection API: a page is the record of what its
  selectors find. Where the source iterates a selection with `for…of` or `each`
  and calls `.text()`/`.find()` on raw elements, the model reads every element
  as offering its text.
- Time: `Date.now` readings are parameters, and `Date` values stay opaque
  descriptions of how they were built, since their value depends on the local
  time zone.
- Concurrency: the constructors of Work and Chapter that start a load without
  awaiting it are modelled as not loading. `reload` stands for the completed
  load. (The `load` option of User throws at once: `Users.User.Create`.)
- Works.Chapter.Reload: the failure of a chapter without a work follows the
  load order of the package's own entry points (`Work.js` before
  `Chapter.js`). A program that requires `Chapter.js` first would get a
  working `Work` there, and a broken `Chapter` inside `Work.js`; that order
  is not modelled.
- Console output: the `console.log` of the search URL, and the long-page
  warning of every `request` except `Session.request`, which returns it.
- `Session.get` reads `this.requester`, which the class never assigns, and
  `refresh` reads `this.status` and `this.soup`, which it never assigns either.
  Fetching, the last status and the token lookup are therefore parameters of
  `Session.Refresh` and `Session.Get`.
- `Session.comment`, `Session.kudos`, `User.getID`, `User.name`,
  `Chapter.authenticityToken`, the `work` accessor pair of Chapter, every
  `toString`, and `Search.reload`, which only calls `update`:
  `Searching.Search.Update` stands for it.
- `Chapter.get` and `Chapter.post` share the status rule `Fetch.Accept`. The
  request method and body are not modelled.
- Series objects: any series link throws before one is built.
- The `_session` property put on every search result.
- Floating point: numbers are integers or NaN. Only `Math.ceil(total / 20)` on
  an integer total and `parseInt` results occur in the core.
- UTF-16: strings are sequences of Unicode scalar values. Lone surrogates, for
  which `encodeURI` throws, do not arise.
- The `"No results found"` branch of `update`: `$(…)` never returns null, so
  the branch is dead and the model does not take it.
- `index.js`, the error classes beyond their names and messages, and the tests.
- Users.User.GetWorkObjects: reads the page count once, before the loop; the
  source re-reads the getter on each iteration, which answers the same after
  its first call.
- Users.User.GetBookmarkObjects: reads the page count once, as above; the
  uncached bookmarks getter recomputes the same value from the same page.
