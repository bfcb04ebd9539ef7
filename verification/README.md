# School companion app: a Dafny model of its core

The app is a small school companion. Students can:
- see homework, textbooks, live classes, notices and circulars;
- file complaints, optionally anonymously.

Its server keeps everything in an in-memory store (`MemStorage`) behind a handful of REST handlers. Its React pages derive badges, filters and labels from the fetched lists.

This project models that core as pure functions over immutable data, and proves properties about it:

- **Record shapes** (`schema.dfy`):
  - one insert shape per table;
  - a stored record is `Entity(id, payload)`, exactly the `{ ...insert, id }` the store builds;
  - nullable and defaulted columns are `Option`s;
  - the declared defaults are written out once (`WithDefaults`), and the store never applies them.
- **Tables** (`tables.dfy`):
  - each collection is an insertion-ordered sequence of rows plus its own id counter, starting at 1;
  - the table invariant is that ids run 1, 2, 3, … in insertion order.
- **The store** (`storage.dfy`):
  - create, get-by-id and list for all seven kinds;
  - the three filtered queries (textbooks, circulars, complaints);
  - the lookup of a user by name;
  - the homework status update;
  - the demo data the constructor seeds.
- **The handlers** (`routes.dfy`):
  - each handler is a function of the store, the caller's user id (`None` when the request has no session) and the request;
  - it returns the reply and, for the two mutating routes, the next store;
  - `parseInt` on the path parameter is modelled in full (`text.dfy`), so a non-numeric id is a real case, not a precondition.
- **Page derivations**:
  - the homework date buckets, status toggle and status label (`homework_page.dfy`);
  - the dashboard badges and latest-notices previews (`dashboard_page.dfy`);
  - the textbook search and group-by-subject (`textbooks_page.dfy`);
  - the circular search and category tab (`circulars_page.dfy`);
  - the live-class countdown label (`live_classes_page.dfy`);
  - the active-tab rule of the navigation bar (`nav_bar.dfy`).

Inputs the code reads from its environment are parameters:
- the clock: a timestamp, or today's day number and weekday;
- `toLowerCase`: a function `lower`;
- the schema validation of a complaint: a predicate `valid`;
- the time formatter: a function `format`;
- the seed's clock readings: `SeedClock`.

Timestamps are integers of milliseconds in local time, and a day is `timestamp / 86400000`.

Two behaviours of the code are easy to misread:
- **Usernames.** `username` is declared `.unique()` in schema.ts:8, but `createUser` (storage.ts:103-108) appends without checking it, so a second user with a taken name is stored; `DuplicateUsernameShadowed` states what lookup by name then answers.
- **Circular category.** `getCirculars` (storage.ts:197) filters only for a truthy category other than `"all"`, so an absent, an empty and the `"all"` category all answer every circular (`IsWildcard`).

## Model

| member | source | states |
|---|---|---|
| Schema.WithDefaults | schema.ts:34-135 | filling the declared defaults (homework and complaint status "pending", live class "upcoming", category "general", isNew true, isAnonymous false) sets every omitted defaulted column and keeps every given field |
| Schema.WithDefaultsIdempotent | schema.ts:34-135 | applying the defaults twice is the same as once |
| Tables.EmptyTable | storage.ts:67-82 | a fresh collection is empty, its counter is 1, and it satisfies the id invariant |
| Tables.Insert | storage.ts:103-108 | a create takes the counter as the new id, appends `{...payload, id}` at the end, raises the counter by exactly one and keeps the id invariant |
| Tables.InsertAll | storage.ts:240-411 | the run of creates that seeds a collection gives the payloads the consecutive ids from the counter on, in order, and leaves the earlier rows untouched |
| Tables.Get | storage.ts:93-95 | the lookup finds a row exactly when one carries the id; under the invariant that is the row at position id-1 for 1 <= id < counter and nothing otherwise |
| Tables.Replace | storage.ts:130-131 | re-setting a key changes only the row with that id, keeps its id and its place, and keeps the invariant |
| Tables.IdsStrictlyIncreasing | storage.ts:67-73 | within one kind ids are unique, at least 1, below the counter and strictly increasing in creation order |
| Storage.GetUserByUsername | storage.ts:97-101 | a user is found exactly when one has the name, and it is the earliest such user |
| Storage.CreateUser | storage.ts:103-108 | the new user gets the user counter as id, only the user table changes, and duplicates are not refused |
| Storage.CreateHomework | storage.ts:119-124 | the new homework gets the homework counter as id and is appended; no other table changes |
| Storage.GetHomeworks | storage.ts:111-113 | whatever user id is passed, under the invariant the list holds one homework per id issued, in id order, each the record the by-id lookup returns |
| Storage.UpdateHomeworkStatus | storage.ts:126-133 | an unknown id answers nothing and leaves the store as it was; a known id replaces only that record's status, keeping its id, other fields and place; the invariant is kept |
| Storage.UpdateHomeworkStatusIdempotent | storage.ts:126-133 | repeating the update with the same status changes nothing more |
| Storage.GetTextbooks | storage.ts:136-148 | the result is the stored textbooks matching every non-empty filter given, in stored order, as a subsequence of the store |
| Storage.TextbookQueryIsOnePass | storage.ts:139-145 | the two successive conditional filters equal one filter by the conjunction of both conditions |
| Storage.TextbookFiltersCommute | storage.ts:139-145 | filtering by subject before class gives the same list as class before subject |
| Storage.CreateTextbook | storage.ts:154-159 | the new textbook gets the textbook counter as id and is appended; no other table changes |
| Storage.CreateLiveClass | storage.ts:170-175 | the new live class gets the live-class counter as id and is appended; no other table changes |
| Storage.GetLiveClasses | storage.ts:162-164 | under the invariant the list holds one live class per id issued, in id order, each the record the by-id lookup returns |
| Storage.CreateNotice | storage.ts:186-191 | the new notice gets the notice counter as id and is appended; no other table changes |
| Storage.GetNotices | storage.ts:178-180 | under the invariant the list holds one notice per id issued, in id order, each the record the by-id lookup returns |
| Storage.GetCirculars | storage.ts:194-202 | an absent, empty or "all" category returns every circular; any other returns exactly the circulars of that category, in stored order |
| Storage.UnusedCategoryGivesNothing | storage.ts:197-199 | a category no circular carries gives the empty list |
| Storage.CreateCircular | storage.ts:208-213 | the new circular gets the circular counter as id and is appended; no other table changes |
| Storage.GetComplaints | storage.ts:216-226 | without a user id (or with 0) every complaint; with user u exactly the complaints filed under u or whose isAnonymous is strictly false, in stored order |
| Storage.CreateComplaint | storage.ts:232-237 | the new complaint gets the complaint counter as id and is appended; no other table changes |
| Storage.ListsAfterCreate | storage.ts:110-191 | after a create the list is the old list with the new record last, and the homework list ignores the user id passed in |
| Storage.CreateKeepsOmittedStatus | storage.ts:119-124 | a homework created without a status is stored without one, not with the declared default |
| Storage.DuplicateUsernameShadowed | storage.ts:97-108 | a second user with a taken name is stored, but the lookup by name still returns the earlier user |
| Storage.SeedTextbooks | storage.ts:241-280 | four demo textbooks, all for class "10" |
| Storage.SeedHomeworks | storage.ts:282-305 | three demo homeworks |
| Storage.SeedLiveClasses | storage.ts:307-338 | three demo live classes |
| Storage.SeedNotices | storage.ts:340-363 | three demo notices |
| Storage.SeedCirculars | storage.ts:365-391 | three demo circulars |
| Storage.SeedComplaints | storage.ts:393-410 | two demo complaints |
| Storage.Seeded | storage.ts:240-411 | creating the demo payloads of one kind in order into a fresh table numbers them 1, 2, … and keeps the invariant |
| Storage.NewStorage | storage.ts:75-90 | the constructed store satisfies every table's id invariant |
| Storage.SeedContents | storage.ts:240-411 | after construction there are 0 users, 4 textbooks, 3 homeworks, 3 live classes, 3 notices, 3 circulars and 2 complaints, each counter one past its last id |
| Storage.SeedTextbooksClassTen | storage.ts:241-280 | every seeded textbook is for class "10" |
| Text.NatToString | dashboard-page.tsx:104 | the rendering of a count as `${n}` is a non-empty run of decimal digits with no leading zero except for 0 itself |
| Text.ParseInt | routes.ts:24 | `parseInt` is NaN exactly when the first character after whitespace, sign and `0x` prefix is not a digit of the radix; a number read after "-" is never positive and one read without it never negative |
| Text.ParseIntLeadingNat | routes.ts:24 | `parseInt` of a number written in decimal, possibly followed by non-digit text, reads back that number |
| Text.ParseIntNoDigits | routes.ts:24 | `parseInt` of a string without decimal digits is NaN, which no record has as id |
| Routes.ListHomeworks | routes.ts:13-20 | GET /api/homeworks answers 200 with every homework in insertion order |
| Routes.ListLiveClasses | routes.ts:87-94 | GET /api/live-classes answers 200 with every live class in insertion order |
| Routes.ListNotices | routes.ts:112-119 | GET /api/notices answers 200 with every notice in insertion order |
| Routes.ListTextbooks | routes.ts:59-69 | both query parameters reach the store unchanged and its answer is passed through: 200 with exactly the stored textbooks matching each non-empty parameter, in stored order (a subsequence of the store) |
| Routes.ListCirculars | routes.ts:137-145 | the category reaches the store unchanged and its answer is passed through: wildcard gives the whole list, otherwise exactly that category's circulars in stored order (a subsequence of the store) |
| Routes.ById | routes.ts:22-35 | 404 with the route's message exactly when the parsed id finds no record, otherwise 200 with a stored record whose id is the parsed one; under the invariant 200 exactly for an id in 1..counter-1 |
| Routes.GetHomeworkRoute | routes.ts:22-35 | 404 "Homework not found" exactly when the parsed id is NaN or the store's lookup finds nothing, otherwise 200 with the stored homework |
| Routes.GetTextbookRoute | routes.ts:71-84 | 404 "Textbook not found" exactly when the store's lookup finds nothing, otherwise 200 with the stored textbook |
| Routes.GetLiveClassRoute | routes.ts:96-109 | 404 "Live class not found" exactly when the store's lookup finds nothing, otherwise 200 with the stored live class |
| Routes.GetNoticeRoute | routes.ts:121-134 | 404 "Notice not found" exactly when the store's lookup finds nothing, otherwise 200 with the stored notice |
| Routes.GetCircularRoute | routes.ts:147-160 | 404 "Circular not found" exactly when the store's lookup finds nothing, otherwise 200 with the stored circular |
| Routes.PatchHomeworkStatus | routes.ts:37-56 | a missing status or one outside {pending, completed} gives 400 before any lookup; an unknown or non-numeric id gives 404; a known id gives 200 with only that record's status replaced; only a 200 changes the store |
| Routes.ListComplaints | routes.ts:163-175 | 401 exactly when there is no session; otherwise 200 with `getComplaints` for the caller passed through: the caller's own complaints and the non-anonymous ones, in stored order |
| Routes.Draft | routes.ts:184-188 | the author is dropped when isAnonymous is true and is the caller otherwise, overriding the body; the date is the server's; other fields are kept |
| Routes.Parse | routes.ts:191 | validation succeeds exactly when subject, message and date are present and the schema accepts the draft, and then yields the draft's fields unchanged without filling defaults |
| Routes.PostComplaint | routes.ts:177-201 | 401 without a session and 400 on failed validation, both leaving the store unchanged; otherwise 201 with exactly one new complaint appended, carrying the server's author and date |
| Routes.ListComplaintsIgnoresStoreWhenUnauthenticated | routes.ts:163-166 | without a session the answer is 401 whatever the store holds |
| Routes.AnonymousComplaintNeverListed | storage.ts:219-222 | a stored complaint without author flagged anonymous is in no signed-in user's list |
| Routes.AnonymousPostHidden | routes.ts:184-188 | a complaint posted anonymously is stored without author and never appears in any signed-in user's list, its author's included, in any store that holds it |
| HomeworkPage.FilterHomeworks | homework-page.tsx:42-73 | "today", "yesterday", "thisWeek" (this week's Sunday up to today) and "lastWeek" (the seven days before that Sunday) keep exactly the homeworks whose due day lies in the range; any other filter keeps all; the result is a subsequence |
| HomeworkPage.UnknownFilterKeepsAll | homework-page.tsx:42-73 | a filter value outside the four named ranges falls to the default case and keeps every homework |
| HomeworkPage.TodayWithinThisWeek | homework-page.tsx:49-67 | the "today" list is a subsequence of the "thisWeek" list |
| HomeworkPage.YesterdayWithinLastWeekOnSunday | homework-page.tsx:46-69 | on a Sunday the "yesterday" list is a subsequence of the "lastWeek" list |
| HomeworkPage.LastWeekDisjointFromThisWeek | homework-page.tsx:49-69 | no homework is in both the "lastWeek" and the "thisWeek" list |
| HomeworkPage.LaterThisWeekExcluded | homework-page.tsx:66-67 | a homework due after today is in neither the "today" nor the "thisWeek" list |
| HomeworkPage.NextStatus | homework-page.tsx:75-78 | the toggle sends "pending" exactly for a completed homework and "completed" for any other status |
| HomeworkPage.ToggleTwice | homework-page.tsx:75-78 | toggling twice restores "pending" or "completed" |
| HomeworkPage.TogglePatchSucceeds | homework-page.tsx:20-24 | the toggle's PATCH for a stored homework passes the whitelist, its id parses back, and it answers 200 with that homework's status flipped |
| HomeworkPage.StatusLabel | homework-page.tsx:146-150 | "Completed" exactly for a completed homework, else "Overdue" exactly when the due time is before now, else "Due Soon" |
| HomeworkPage.LabelFollowsToggle | homework-page.tsx:146-168 | one toggle turns the "Completed" label on exactly when it was off |
| HomeworkPage.LaterDayNeverOverdue | homework-page.tsx:141-150 | a homework due on a later day than today is never labelled "Overdue" |
| DashboardPage.PendingHomeworks | dashboard-page.tsx:30 | exactly the fetched homeworks whose status is "pending", in order; none before the fetch |
| DashboardPage.HomeworkBadge | dashboard-page.tsx:70-73 | a badge exactly when some homework is pending, and its number reads back as the pending count |
| DashboardPage.PendingCountAfterAppend | dashboard-page.tsx:30 | one more homework raises the pending count by one exactly when it is pending |
| DashboardPage.TextbooksBadge | dashboard-page.tsx:81-84 | the badge's number is the homework count (0 before the fetch), not the textbook count |
| DashboardPage.UpcomingClass | dashboard-page.tsx:31 | the first live class in list order whose status is "upcoming", and none exactly when there is no such class |
| DashboardPage.LiveBadge | dashboard-page.tsx:92-95 | "Live Now" exactly for a live class, "In 30 mins" for any other, no badge without a class |
| DashboardPage.LiveBadgeNeverLiveNow | dashboard-page.tsx:31-95 | the live badge never says "Live Now", and says "In 30 mins" exactly when some class is upcoming |
| DashboardPage.NewNotices | dashboard-page.tsx:32 | exactly the fetched notices whose isNew is true, in fetched order (a subsequence), and none before the fetch |
| DashboardPage.NewCirculars | dashboard-page.tsx:33 | exactly the fetched circulars whose isNew is true, in fetched order (a subsequence), and none before the fetch |
| DashboardPage.NewNoticeCountAfterAppend | dashboard-page.tsx:32 | one more notice raises the count shown as "<n> new" by one exactly when it is flagged new, and leaves it otherwise |
| DashboardPage.NewCircularCountAfterAppend | dashboard-page.tsx:33 | one more circular raises the count shown as "<n> new" by one exactly when it is flagged new, and leaves it otherwise |
| DashboardPage.NewBadge | dashboard-page.tsx:103-106 | a badge exactly for a positive count, and its number reads back as the count |
| DashboardPage.NoticeBadgeIffSomeNew | dashboard-page.tsx:103-106 | the notice card has a badge exactly when some fetched notice is flagged new |
| DashboardPage.Excerpt | dashboard-page.tsx:178 | the preview is the first 100 characters of the content (all of it when shorter) followed by "..." |
| DashboardPage.ShortNoticeShownWhole | dashboard-page.tsx:178 | content of at most 100 characters is shown whole, followed by "..." |
| DashboardPage.LatestNotices | dashboard-page.tsx:169-178 | the previews are those of the first min(n, 2) notices, in order; none before the fetch |
| DashboardPage.LatestNoticesArePrefix | dashboard-page.tsx:170 | never more than two previews, exactly two when two notices exist, each linking to the notice at its position |
| DashboardPage.DashboardView | dashboard-page.tsx:35-131 | nothing exactly when there is no user; otherwise the greeting, a photo exactly for a non-empty profile image, and badges present exactly when their counts are positive, the live badge never "Live Now" |
| TextbooksPage.SearchTextbooks | textbooks-page.tsx:19-22 | exactly the books whose lower-cased title or subject contains the lower-cased query, as a subsequence |
| TextbooksPage.EmptyQueryKeepsAll | textbooks-page.tsx:11-22 | the initial empty query keeps every book |
| TextbooksPage.SubjectsComplete | textbooks-page.tsx:25-32 | a subject is a group key exactly when some book has it |
| TextbooksPage.SubjectsDistinct | textbooks-page.tsx:25-32 | group keys are never repeated |
| TextbooksPage.SubjectsSnoc | textbooks-page.tsx:27-29 | a book with a new subject adds that key at the end; a known subject adds none |
| TextbooksPage.GroupedSnocExisting | textbooks-page.tsx:27-30 | a book of a known subject is appended to that group only |
| TextbooksPage.GroupedSnocNew | textbooks-page.tsx:27-30 | a book of a new subject opens a new last group holding just that book |
| TextbooksPage.GroupedPartitions | textbooks-page.tsx:25-32 | every group is non-empty and holds exactly its subject's books in order, keys are distinct, every book is in a group, and there are no groups exactly when there are no books |
| TextbooksPage.GroupBySubject | textbooks-page.tsx:25-32 | the one-pass reduce builds exactly the reference grouping, with its partition properties |
| TextbooksPage.TextbooksView | textbooks-page.tsx:65-104 | "No textbooks found" exactly when the search keeps nothing, otherwise the groups of the search result |
| CircularsPage.FilterCirculars | circulars-page.tsx:22-25 | exactly the circulars whose lower-cased title contains the lower-cased query and whose category is the tab's (any, on "all"), as a subsequence |
| CircularsPage.InitialStateKeepsAll | circulars-page.tsx:13-25 | the initial empty query on the "all" tab shows every circular |
| CircularsPage.DescriptionIgnored | circulars-page.tsx:22-25 | rewriting the descriptions keeps or drops each circular as before |
| CircularsPage.PageShowsStoredCirculars | circulars-page.tsx:17-22 | the page fetches without a category, gets every stored circular, and shows a subsequence of them |
| CircularsPage.TabAgreesWithServerFilter | circulars-page.tsx:22-25 | with an empty search, a category tab shows exactly what the server answers for that category |
| LiveClassesPage.DiffMins | live-classes-page.tsx:55-58 | the minute count is the nearest whole minute, halves rounded up: within half a minute of the difference |
| LiveClassesPage.DiffMinsMonotone | live-classes-page.tsx:58 | rounding never reverses the order of two differences |
| LiveClassesPage.StatusLabel | live-classes-page.tsx:52-64 | "Live Now" for a live class whatever the times; otherwise "In N mins" with N in 0..59 within half a minute of the real gap exactly when the start is at most half a minute past and under 59.5 minutes away, and the formatted start time otherwise |
| LiveClassesPage.CountdownNeverIncreases | live-classes-page.tsx:55-61 | as the clock moves on the minutes shown never increase |
| NavBar.IsActive | nav-bar.tsx:20-24 | the home tab is active exactly on "/", every other tab exactly when its path prefixes the location |
| NavBar.NavBarView | nav-bar.tsx:13-59 | nothing exactly without a user; otherwise each route tab lit per the rule and More lit exactly while its menu is open |
| NavBar.AtMostOneRouteTab | nav-bar.tsx:20-52 | for any location at most one of the four route tabs is active |
| NavBar.PrefixIsEnough | nav-bar.tsx:22 | the homework tab is lit on any location starting with "/homework", "/homeworkX" included |

## Left out

- **Sessions and authentication.** The session store and its 24-hour sweep (storage.ts:84-86), and the login, logout and register routes, are library and auth code outside this model. Authentication is reduced to an optional caller id.
- **The 500 paths** of every handler. The in-memory store cannot fail, so they are unreachable.
- **zod and drizzle.** Schema validation of a complaint is the abstract predicate `valid`, beyond the three required fields. The schema's default filling is not assumed, matching the store.
- **Real dates.** `Date`, time zones, daylight-saving shifts and date-fns (`format`, `isToday`, `startOfWeek`) are not modelled. Timestamps are local-time milliseconds, day numbers are derived by division, and the weekday is an input.
- **The live-classes date tabs** (live-classes-page.tsx:20-38). They rest entirely on date-fns.
- **Concrete seed dates.** The seeded records keep their texts, statuses and flags. Their dates come from the abstract `SeedClock`.
- **Unicode case folding.** `toLowerCase` is a parameter.
- **UTF-16 lengths.** A Dafny string is a sequence of Unicode scalar values, while `slice(0, 100)` counts UTF-16 code units, so excerpts of text outside the Basic Multilingual Plane can differ.
- **Floating point.** `Math.round(diffMs / 60000)` is modelled as exact integer rounding. `parseInt` of more than 15 or so significant digits loses precision in JavaScript but not here.
- **`getUser`, `get*ById` of the store.** They are the generic lookup `Tables.Get` and have no contract of their own.
- **Query-string arrays.** `?subject=a&subject=b` reaches the store as an array in Express. Query parameters are modelled as optional strings.
- **Non-string JSON values.** A non-string `status` in the PATCH body, or a non-boolean `isAnonymous`, is modelled as absent. The status whitelist rejects the former anyway.
- **Rendering, navigation, toasts, query caching and loading spinners** of the pages, and the other pages and components. These include notice-board-page.tsx, complaint-page.tsx, auth-page.tsx, more-menu.tsx, pdf-viewer.tsx and App.tsx.
- TextbooksPage.GroupBySubject: keeps groups in order of first occurrence. `Object.keys` lists integer-like keys such as "10" first, in ascending order, so a subject that looks like an integer would be listed earlier on the real page. A subject named like an `Object.prototype` member ("constructor") would make the real page throw.
- Routes.PatchHomeworkStatus: when the id parses to NaN it answers 404 without consulting the store, which is what the store's `Map.get(NaN)` gives.
