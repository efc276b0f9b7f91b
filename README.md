# Neurosurgery learning app — a verified model of its core

The application is a small Express server with a browser client for
learning neurosurgical procedures step by step. Residents can also keep a
log of the cases they took part in, and browse an anatomy atlas. This
project models the logic under that wiring in Dafny and proves what it
promises:

- **`Database`** (`database.dfy`) is the procedure store: one document with
  the procedures and two ID counters (`nextProcedureId`, `nextStepId`). The
  document is the state of a `Store` object. `CreateProcedure`,
  `UpdateProcedure` and `DeleteProcedure` change it in place, and the
  step-issuing loop advances the step counter once per step. Listing,
  lookup and the category list are functions over the procedures. The
  `Store.Valid` invariant holds across all operations: procedure IDs are
  distinct and below their counter, step IDs are distinct across the whole
  document and below theirs, and steps are numbered by position.
- **`CaseLogs`** (`caselogs.dfy`) holds the case-log routes:
  - the list filter (substring search plus an inclusive date range);
  - the statistics loop, proved against per-key counting functions. The
    dictionaries are plain objects, so a role, category or month that is a
    name `Object.prototype` already has (`constructor`, `valueOf`, ...) is
    modelled as the source treats it: `__proto__` is never stored and the
    others hold text rather than a count;
  - validation and defaulting on create;
  - the 404 mapping of the by-ID routes.

  The case-log store itself is a parameter, a user's logs or a lookup
  result. Categories are resolved against the procedure store.
- **`Atlas`** (`atlas.dfy`) covers the anatomy atlas:
  - the region listing;
  - the two-level lookup, with its two distinct not-found errors;
  - the weighted search, a nested loop followed by a stable sort by
    descending score.
- **`Auth`** (`auth.dfy`) covers the account routes:
  - register and login as ordered guard chains;
  - the profile route;
  - a user table that register appends to.

  Password hashing is an input, and password checking is an opaque
  predicate. A token is the payload that gets signed.
- **`Frontend`** (`frontend.dfy`) covers the browser client apart from
  rendering:
  - the step viewer's index;
  - the stored token, and the request headers built from it;
  - role badges and labels;
  - the case-log search box;
  - reading step blocks from the procedure form.
- **`JsValues`** and **`JsSort`** (`js_values.dfy`, `js_sort.dfy`) hold
  the JavaScript value semantics used throughout:
  - `null`/`undefined` as `Option`, truthiness and `x || default`;
  - `toLowerCase`, `includes` and `trim`;
  - string `<=`;
  - the stable `Array.prototype.sort`, modelled as a stable insertion sort
    proved ordered and a permutation.

The client and the server sometimes name the same field differently. Each
side is modelled as written, and the consequences are proved:
- The case-log form sends its duration as `duration`, while the server
  reads `duration_minutes`. A duration typed into the form is therefore
  never stored (`Frontend.FormDurationNotStored`).
- The statistics panel reads `totalCases`, `asPrimary` and `asAssistant`,
  which the reply does not contain. The panel therefore shows 0 for all
  three (`Frontend.TotalCasesShownAsZero`).

The store also drops some of what the client sends:
- Steps are stored without their `media`, although the client's form
  collects media for each step (public/app.js:713-742) and sends them
  (database.js:67-74 copies only the title, description, tips and
  warnings).
- A procedure is stored without its `thumbnail_url`, although the form
  sends one (public/app.js:565).
- The case-log route does not convert `procedureId` or `duration_minutes`
  to integers; it stores what it is sent, or `null` when that is falsy.

## Model

| member | source | states |
|---|---|---|
| JsValues.Find | routes/atlas.js:36 | `find` returns the first element satisfying the test, and nothing exactly when no element does |
| JsValues.Filter | database.js:37-45 | `filter` keeps exactly the elements passing the test and is never longer than its input |
| JsValues.FilterCount | database.js:37-45 | `filter` keeps each passing element as often as it occurs and drops every other element |
| JsValues.FilterAll | routes/caselogs.js:15-25 | a filter every element passes returns its input unchanged |
| JsValues.FilterSame | database.js:35-46 | two tests that agree on every element filter alike |
| JsValues.FilterAppend | database.js:37-45 | `filter` keeps order: filtering two parts and joining them equals filtering the whole |
| JsValues.FilterFilter | database.js:35-46 | two filters in a row keep exactly what passes both tests, in order, as one filter on the joint test does |
| JsValues.IncludesAt | database.js:38-40 | `includes` holds exactly when the query occurs at some position of the text |
| JsValues.TrimEmpty | public/app.js:716-717 | a trimmed value is empty exactly when every character of the raw value is white space |
| JsValues.StrLeqTotal | routes/caselogs.js:24-25 | any two strings are comparable under `<=` |
| JsValues.StrLeqTransitive | routes/caselogs.js:24-25 | string `<=` is transitive, so applying a start bound and then an end bound acts as one range |
| JsValues.NatToString | database.js:70 | the number in a default title `Step n` is rendered as decimal digits that denote exactly that number, with no leading zero |
| JsValues.NatToStringInjective | database.js:70 | different step positions get different default titles |
| JsSort.InsertBy | database.js:48 | inserting into a key-ordered list keeps it ordered and adds exactly the one element |
| JsSort.SortBy | database.js:48 | the sort returns a permutation of its input ordered by the key |
| JsSort.InsertByWithKey | database.js:48 | an insertion places the new element ahead of the elements with its key and reorders nothing else |
| JsSort.SortByStable | database.js:48 | the sort is stable: for every key, the elements with that key keep their order |
| Database.IssuedStepsAt | database.js:67-74 | step `k` of a rebuilt step list is built from input `k` with number `k+1` and the counter's value plus `k` as its ID |
| Database.IssuedStepsPositional | database.js:67-74 | rebuilt steps are numbered `i+1` and take IDs `nextStepId+i`; a falsy title becomes `Step i+1`, so every title is non-empty; falsy description, tips and warnings become null |
| Database.UpdateReplacesEverything | database.js:91-107 | an update keeps `id` and `created_at`, replaces name and every optional field (falsy becomes null, never the old value), and gives every new step an ID no old step had |
| Database.IndexOf | database.js:87 | the result is the first position holding the ID, or none exactly when no record has it |
| Database.GetProcedure | database.js:52-55 | a record is returned exactly when one has the ID, and it is a stored record with that ID |
| Database.WithoutId | database.js:117 | the filter keeps exactly the records with other IDs, and shortens the list exactly when some record has the ID |
| Database.WithoutIdCutsOne | database.js:117 | with distinct IDs, the filter cuts out exactly the one matching record and keeps the rest in order |
| Database.NoMatchKeepsAll | database.js:117-119 | when no record has the ID, the filter returns the list unchanged |
| Database.FilterListed | database.js:35-46 | the two filters keep exactly the records whose name, description or indications contain the search (ignoring case) and whose category equals the requested one, each as often as it is stored |
| Database.FilterListedAppend | database.js:35-46 | the filters keep the store's order: listing two parts and joining them equals listing the whole |
| Database.FilterListedOnePass | database.js:35-46 | the search filter followed by the category filter equals one filter on `Listed` |
| Database.GetAllProcedures | database.js:31-49 | the listing is ordered by name and holds each record passing both filters as often as it is stored and no other; records with the same name keep their order in the store |
| Database.CategoryValues | database.js:128-131 | the collected values are exactly the non-null categories of the records |
| Database.Distinct | database.js:128-132 | the de-duplicated list has no repeats and holds exactly the values of its input |
| Database.NoDuplicatesPermutation | database.js:133 | reordering a list without repeats leaves it without repeats |
| Database.GetCategories | database.js:126-134 | the category list is sorted, has no repeats and holds exactly the non-null categories in use |
| Database.PutValid | database.js:58-111 | storing a record whose steps were just issued from the step counter, in place of the record with its ID or appended under a fresh ID, keeps procedure IDs and step IDs distinct and below the advanced counters |
| Database.SpliceValid | database.js:114-123 | cutting one record out of a valid document leaves it valid |
| Database.Store.constructor | database.js:7-16 | a fresh document has no procedures and both counters at 1 |
| Database.Store.IssueSteps | database.js:67-74 | the step loop builds the positional step list and advances the step counter by the number of steps |
| Database.Store.CreateProcedure | database.js:58-82 | returns the old procedure counter, advances it by one, advances the step counter by the number of steps, appends the new record after the unchanged old ones, and keeps the document valid |
| Database.Store.UpdateProcedure | database.js:85-111 | returns whether the ID exists; for an unknown ID nothing changes and no step ID is consumed; otherwise the first record with the ID is replaced in place and the document stays valid |
| Database.Store.DeleteProcedure | database.js:114-123 | returns whether any record had the ID, removes exactly those records keeping the rest in order (in a valid document, exactly one record), and keeps the document valid |
| CaseLogs.ListCaseLogs | routes/caselogs.js:10-31 | the three filters keep exactly the logs matching the search (procedure name, diagnosis or hospital) and lying within both inclusive date bounds, each as often as the store holds it; a log without a date is taken to fail any bound; with no filter the list is returned whole |
| CaseLogs.ListCaseLogsAppend | routes/caselogs.js:15-27 | the list keeps the store's order: listing two parts and joining them equals listing the whole |
| CaseLogs.ListCaseLogsOnePass | routes/caselogs.js:15-27 | the search, start and end filters one after the other equal one filter on `Listed` |
| CaseLogs.CountedByRole | routes/caselogs.js:48 | every log has a role, so the role dictionary counts every log as a number exactly when no role is a name `Object.prototype` already has |
| CaseLogs.CountedAtMost | routes/caselogs.js:50-60 | at most every log is counted as a number by category or by month |
| CaseLogs.TotalBump | routes/caselogs.js:48 | counting one more log under an own key raises the dictionary's numeric sum by one; under an inherited key, whose value is text, the sum stays |
| CaseLogs.TallyStep | routes/caselogs.js:46-66 | one loop iteration turns the dictionary of the earlier logs into the dictionary including the next log, inherited keys included |
| CaseLogs.ComputeStats | routes/caselogs.js:34-74 | `total` is the number of logs; each dictionary holds exactly the roles, resolved categories or `YYYY-MM` months the logs have, bar `__proto__`, with the per-key count, or for an inherited name such as `constructor` the method's text followed by that many "1"s; the role counts sum to `total` exactly when no role is an inherited name, the category and month counts to at most `total`; the minutes are the sum of the truthy durations |
| CaseLogs.RoundedTenths | routes/caselogs.js:67 | `Math.round` of the hours times ten: the nearest whole number of 6-minute tenths, halves rounded up, and 0 exactly for -3 to 2 minutes |
| CaseLogs.PostCaseLog | routes/caselogs.js:88-117 | 400 "Procedure name and date are required" exactly when the name or date is falsy; otherwise the record keeps name and date, role defaults to `observer`, and each of the ten optional fields keeps a truthy value and becomes null otherwise |
| CaseLogs.GetReply | routes/caselogs.js:77-85 | 404 "Case log not found" exactly when the owner-scoped lookup finds nothing, else the log |
| CaseLogs.ChangeReply | routes/caselogs.js:120-139 | for an update or a delete, 404 "Case log not found" exactly when the store reports failure, else that route's success message |
| Atlas.RegionSummaries | routes/atlas.js:20-25 | one summary per region, in order, with its ID, name, icon and `subregionCount` equal to its number of subregions |
| Atlas.FindRegion | routes/atlas.js:36 | finds the first region with the ID, or none exactly when no region has it |
| Atlas.FindSubregion | routes/atlas.js:51 | finds the first subregion with the ID, or none exactly when none has it |
| Atlas.GetRegion | routes/atlas.js:33-42 | "Region not found" exactly when no region has the ID, otherwise the first region with that ID |
| Atlas.GetSubregion | routes/atlas.js:45-58 | "Region not found" exactly when no region has the ID; "Subregion not found" exactly when the region exists but has no such subregion; found exactly when both exist, giving that subregion with its region's name; no other error |
| Atlas.Score | routes/atlas.js:72-76 | the match score lies between 0 and 8, and a name match alone gives at least 3 |
| Atlas.SubregionHitsExactly | routes/atlas.js:71-87 | the inner loop reports exactly the subregions with a positive score, each with the region being visited |
| Atlas.RegionHitsExactly | routes/atlas.js:70-88 | the loops report exactly the positively scoring subregions, each with the region whose subregion list holds it and with its score |
| Atlas.InsertByScore | routes/atlas.js:90 | inserting into a list ordered by descending score keeps it ordered and adds exactly the one result |
| Atlas.SortByScore | routes/atlas.js:90 | the sort returns a permutation of the results in non-increasing score order |
| Atlas.InsertByScoreWithScore | routes/atlas.js:90 | an insertion places the new result ahead of every result with the same score |
| Atlas.SortByScoreStable | routes/atlas.js:90 | the sort is stable: for every score, the results with that score keep their order |
| Atlas.Search | routes/atlas.js:61-95 | a missing or empty query gives no results; otherwise the nested loops collect the positive-score hits region by region and the result is their sort by score |
| Atlas.SearchResults | routes/atlas.js:64-90 | a search result is in non-increasing score order, holds exactly the positively scoring subregions with their containing region, and keeps traversal order among equal scores |
| Auth.SessionFor | routes/auth.js:41-44 | the token and the returned user carry the same ID, username, display name and role as the stored user, and the user carries its email |
| Auth.SessionIgnoresHash | routes/auth.js:41-44 | what register and login return does not depend on the stored password hash |
| Auth.FindByUsername | routes/auth.js:21 | finds the first user with the username, or none exactly when no user has it |
| Auth.FindByEmail | routes/auth.js:24 | finds the first user with the email, or none exactly when no user has it |
| Auth.FindById | routes/auth.js:83 | finds the first user with the ID, or none exactly when no user has it |
| Auth.RegisterCheck | routes/auth.js:12-26 | the guards in order: 400 for a missing username, email or password first; then 400 for a password under 6 characters; then 409 exactly when the username is taken; then 409 exactly when the email is taken; registration proceeds exactly when all pass |
| Auth.NewUser | routes/auth.js:28-36 | the new user keeps username, email and hash; display name defaults to the username, role to `resident`, specialization to `neurosurgery` |
| Auth.Login | routes/auth.js:51-78 | one of three replies: 400 when username or password is falsy; otherwise the same 401 for an unknown username and for a wrong password; 200 with the session of the user found by name exactly when the password matches that user's hash |
| Auth.Me | routes/auth.js:81-91 | 404 "User not found" exactly when no user has the token's ID, otherwise that user's profile |
| Auth.AppendNewUser | routes/auth.js:28-38 | appending a user with the next ID and an unused username and email keeps IDs, usernames and emails unique, and looking up the new ID finds that user |
| Auth.UserTable.constructor | routes/auth.js:28-38 | the table starts with no users and issues IDs from 1 |
| Auth.UserTable.Register | routes/auth.js:8-48 | a failed guard changes nothing and returns its error; otherwise appends the defaulted user under the next ID and returns 201 with the session of the user found under that ID, which in a valid table is the new user; keeps IDs, usernames and emails unique |
| Frontend.App.constructor | public/app.js:6-13 | the client starts with no procedure open, index 0, no user, and the token held in local storage |
| Frontend.App.IndexInRange | public/app.js:471-472 | in a valid state the index is at least 0, and at most the last step's position when the open procedure has steps |
| Frontend.App.LoadProcedure | public/app.js:371-385 | a failed fetch changes nothing; a fetched procedure is opened at index 0 |
| Frontend.App.PrevStep | public/app.js:475-480 | decrements the index only when it is above 0, and keeps the index in range |
| Frontend.App.NextStep | public/app.js:482-487 | increments the index only when a procedure is open and the index is before its last step, and keeps the index in range |
| Frontend.App.CloseStepViewer | public/app.js:410-416 | closes the procedure and resets the index to 0 |
| Frontend.App.AuthHeaders | public/app.js:104-110 | always the JSON content type; a `Bearer` authorization with the token exactly when a token is held; no other header |
| Frontend.App.Logout | public/app.js:255-258 | clears the token in memory and in local storage and the user, after which requests carry no authorization |
| Frontend.RoleBadgeClass | public/app.js:798-806 | green, blue and purple exactly for assistant, primary surgeon and teaching; gray for everything else |
| Frontend.FormatRoleLabel | public/app.js:808-816 | `Observer`, `Assistant`, `Primary Surgeon` and `Teaching` for the four known roles; `N/A` for a falsy role; the role itself for any other; never empty |
| Frontend.KnownLabelsDistinct | public/app.js:808-816 | the four known roles get four different labels |
| Frontend.FilterMatching | public/app.js:826-832 | keeps exactly the logs whose procedure name, diagnosis, hospital, supervisor or notes contain the query, ignoring case, each as often as it was fetched |
| Frontend.VisibleCaseLogs | public/app.js:822-833 | an absent or blank search box shows every log; otherwise exactly the logs with one of the five fields containing the trimmed, lower-cased query, each as often as it was fetched |
| Frontend.VisibleCaseLogsAppend | public/app.js:822-833 | the list is shown in the order the server sent it: showing two parts and joining them equals showing the whole |
| Frontend.KeepMapAppend | public/app.js:715-740 | the form-reading loops keep order: reading two parts of a list and joining the results equals reading the whole |
| Frontend.KeepMapExactly | public/app.js:715-740 | the form-reading loops produce exactly the images of the kept entries |
| Frontend.GetStepsFromForm | public/app.js:713-742 | the nested loops produce exactly the specification of the kept steps and their kept media |
| Frontend.FormSteps | public/app.js:713-742 | the form yields exactly the step blocks with a non-blank title, each with exactly its media rows with a non-blank URL, trimmed and in page order |
| Frontend.FormTitlesKept | public/app.js:716-717 | every step read from the form has a non-empty title, so the server stores the typed title and never the default `Step n` |
| Frontend.SaveCaseLog | public/app.js:952-994 | a request is sent exactly when a user is signed in and the trimmed name and the date are non-empty, and it carries the form's body |
| Frontend.FormDurationNotStored | public/app.js:952-994 | the server never refuses a create request the form sends for a missing name or date, and the log it creates never has a stored duration, since the form sends `duration` and the server reads `duration_minutes` |
| Frontend.StatsReply | routes/caselogs.js:38-70 | the reply has exactly the members `total`, `totalHours` (the rounded tenths of an hour), `byRole`, `byCategory` and `byMonth` |
| Frontend.ShownFigure | public/app.js:788-791 | the panel shows a reply member when present and truthy, and 0 otherwise |
| Frontend.TotalCasesShownAsZero | public/app.js:788-791 | the panel reads `totalCases`, `asPrimary` and `asAssistant`, which the reply lacks, so it shows 0 for each; `totalHours` shows 0 exactly when the minutes total -3 to 2, which round to 0 tenths, and otherwise the rounded hours |

## Left out

- Reading and writing the JSON document file, creating it on first use, and the lazy load of the atlas file. The document is in memory and the atlas is a parameter.
- Malformed stored JSON (the 500 path), and two requests overwriting each other's copy of the document. These are I/O and concurrency concerns.
- The 500 replies for exceptions thrown inside handlers, for example a non-string query parameter reaching `toLowerCase`.
- The Express wiring in server.js:
  - its `name` check on create is the caller's concern;
  - its mapping of `false` to 404 is the boolean the store methods return;
  - a `PUT` without `name` stores no name, while the model always stores a name string.
- `parseInt` of path parameters and of stored procedure IDs. IDs are integers throughout.
- Signing and verifying tokens, and their 7-day expiry. A token is its payload.
- bcrypt. The hash of a submitted password is an input to `Auth.UserTable.Register`, and password checking is a function parameter of `Auth.Login`.
- The user and case-log store functions. Their code is not part of this model:
  - users live in a table that issues IDs from a counter starting at 1, and lookups return the first match;
  - a user's case logs, a by-ID lookup and the store's success flag are parameters;
  - owner scoping, the order in which the store returns logs, and how an update merges fields are not modelled.
- The service worker, and all DOM rendering, modals, toasts, timers and `fetch` calls in the client. A fetched procedure and the form's values are parameters.
- CaseLogs.ComputeStats: reports the exact total of minutes; the reply turns it into `totalHours` through `CaseLogs.RoundedTenths`, which rounds the exact sum. The server adds each `minutes / 60` in floating point before rounding, and that rounding error is not modelled, because the model has no floating point.
- The order in which the reply's dictionaries list their keys. They are maps in the model.
- CaseLogs.ListCaseLogs: a log without a date is taken to fail every date bound. JavaScript compares `null` with the bound as numbers (`null` as 0), so a bound that reads as a number, such as the end bound `2024`, lets such a log through. String-to-number conversion is not modelled; for every `YYYY-MM-DD` bound the model is exact.
- The progress-bar percentage of the step viewer, which is floating point.
- Database.GetAllProcedures: orders names by character code point instead of `localeCompare`'s locale-aware order.
- Database.GetCategories: orders categories by code point; `sort()` compares UTF-16 code units, and the two orders differ only for characters above U+FFFF.
- JsValues.Lower: lower-cases only ASCII letters instead of Unicode `toLowerCase`. This affects every search in the model.
- JsValues.Trim: removes a fixed set of white-space characters, not every Unicode space separator.
- Strings are sequences of characters rather than UTF-16 code units. The 6-character password minimum therefore counts characters.
- Timestamps from `new Date()` are inputs. `createProcedure` reads the clock twice, so `createdAt` and `updatedAt` are separate inputs.
