# LIA campus map: the report, validate and resolve workflow

LIA is a campus map. Users sign in with one of three roles:

- a **Reporter** clicks the map and reports a new place;
- a **Validator** approves pending reports, which turns each one into a
  space on the map;
- a **Comunidad** member searches the validated spaces and, when a search
  finds nothing, publishes a search request.

Points reward each step: +5 for the reporter and +3 for the validator when a
report is approved, and +1 when a search request is published. Approving a
report also marks as `resuelta` every pending search request whose query and
type are exactly the report's name and type. Every submit and every approval
appends one entry to the activity log.

This project models that workflow in Dafny:

- **`Firestore`** (`store.dfy`). The document store, as a `Store` class that
  holds the `users`, `reports`, `spaces` and `searchRequests` collections and
  the activity log. Writes are explicit `Write` values. A batch applies them
  in order, and an update of a missing document aborts the whole batch.
  `Commit` is all-or-nothing.
- **The three handlers**. Each handler builds the batch the component
  builds and commits it:
  - `handleSubmit` in `PanelInteractivo`;
  - `handleApprove` in `PanelValidacion`;
  - `handlePublishSearch` in `PanelComunidad`.

  For each batch, a lemma proves it equal to a declarative description of
  the new state: `Submitted`, `Approved` or `Published`. The properties are
  proved about those descriptions.
- **The read side**. The views are functions of snapshot rows:
  - the validator's pending queue;
  - the reporters' pending-search list;
  - the community search results;
  - "my searches";
  - the activity feed;
  - both leaderboards;
  - the users tab's role/online grouping.
- **Role gating**. `AuthContext` holds the signed-in profile. `Page` decides
  which panels each role sees.
- **`Workflow`**. Proves that whatever the submit, approve, publish and
  sign-up handlers commit, the store only moves forward.
- **`Scenarios`**. Two end-to-end runs.

Three behaviours of the code worth knowing:

- **Approval is unguarded.** `handleApprove` does not re-read the report's
  status before it writes. Only the component's `isSubmitting` flag holds
  back a second click. A second approval of the same report therefore credits
  the points again and creates a second space
  (`PanelValidacion.RepeatedApprovalCreditsAgain`).
- **A missing account aborts the approval.** The `increment` writes are
  Firestore updates, so if the reporter's or the validator's account
  document is missing, the whole approval fails. It is not a partial
  success.
- **Reporters are credited only at approval.** A reporter earns nothing when
  submitting. The +5 comes only when the report is approved.

## Model

| member | source | states |
|---|---|---|
| Common.Lower | src/components/paneles/PanelComunidad.jsx:130 | lower-casing keeps the length and maps each character through the per-character lower-case |
| Common.Contains | src/components/paneles/PanelComunidad.jsx:130 | `includes` holds exactly when the needle occurs at some position of the haystack |
| Common.SortByStable | src/components/paneles/PanelValidacion.jsx:97 | ordering by a field keeps the relative order of the rows that share a sort key |
| Common.InsertStable | src/components/paneles/PanelValidacion.jsx:97 | inserting a row into a sorted list places it before the rows that already share its key |
| Common.TakeKeepsSmallest | src/components/paneles/PanelComunidad.jsx:79 | `orderBy(...)` followed by `limit(k)` keeps k rows, and no row left out sorts before a kept row |
| Firestore.Credit | src/components/paneles/PanelValidacion.jsx:145-150 | `increment(n)` on an account adds n to its points (a missing `points` field counts as 0) and changes no other account or field |
| Firestore.Store.NewDocId | src/components/paneles/PanelValidacion.jsx:132 | `doc(collection(...))` returns an id used by no document yet, and later ids are larger |
| Firestore.Store.Commit | src/components/paneles/PanelValidacion.jsx:176 | `batch.commit()` applies every write or none: the new state is the batch's result when the backend accepts and the batch applies, and the old state otherwise |
| Firestore.Store.ReportRows | src/components/paneles/PanelValidacion.jsx:94-106 | a snapshot of `reports` lists every report document exactly once |
| Firestore.Store.SpaceRows | src/components/paneles/PanelComunidad.jsx:308-311 | a snapshot of `spaces` lists every space document exactly once |
| Firestore.Store.SearchRows | src/components/paneles/PanelBusquedasPendientes.jsx:127-136 | a snapshot of `searchRequests` lists every search request exactly once |
| PanelValidacion.PendingQueue | src/components/paneles/PanelValidacion.jsx:94-98 | the queue holds exactly the `Pendiente` reports, oldest `reportedAt` first, as a sub-multiset of the snapshot |
| PanelValidacion.QueueBadge | src/components/paneles/PanelValidacion.jsx:204-206 | the badge equals the number of `Pendiente` reports in the snapshot, and is 0 for an empty collection |
| PanelValidacion.MatchingSearchIds | src/components/paneles/PanelValidacion.jsx:153-158 | a search request is selected iff it is `pendiente` and its query and type equal the report's name and type exactly |
| PanelValidacion.ResolveWrites | src/components/paneles/PanelValidacion.jsx:161-164 | the `forEach` issues one `status: 'resuelta'` update per selected request, in order |
| PanelValidacion.ApplyResolveWrites | src/components/paneles/PanelValidacion.jsx:161-164 | applying those updates marks exactly the selected requests `resuelta` and changes nothing else |
| PanelValidacion.ApplyApprovalPrefix | src/components/paneles/PanelValidacion.jsx:124-150 | the first four approval writes validate the report, create the space and credit +5/+3, and fail iff the report document or an account is missing |
| PanelValidacion.ApplyResolveAndLog | src/components/paneles/PanelValidacion.jsx:161-172 | the resolve updates followed by the log write resolve the selected requests and append the one log entry |
| PanelValidacion.ApprovalBatch | src/components/paneles/PanelValidacion.jsx:120-172 | every document the approval batch creates has an id no larger than the fresh id |
| PanelValidacion.ApprovalBatchMeetsSpec | src/components/paneles/PanelValidacion.jsx:120-176 | the batch `handleApprove` builds, applied to the store, gives exactly the intended approval outcome |
| PanelValidacion.ValidationPanel.constructor | src/components/paneles/PanelValidacion.jsx:90 | the panel starts not submitting |
| PanelValidacion.ValidationPanel.HandleApprove | src/components/paneles/PanelValidacion.jsx:116-184 | while submitting, a click is ignored; otherwise the store becomes the approval outcome (or stays unchanged and an alert is raised when the commit fails), and the flag is cleared again |
| PanelValidacion.ApprovalNeedsAccounts | src/components/paneles/PanelValidacion.jsx:145-150 | the approval commits iff the report document and both the reporter's and the validator's account documents exist |
| PanelValidacion.ApprovalCreditsPoints | src/components/paneles/PanelValidacion.jsx:144-150 | the reporter gains exactly 5 points, the validator 3 (8 when they are the same account), and every other account keeps its points |
| PanelValidacion.ApprovalValidatesReport | src/components/paneles/PanelValidacion.jsx:124-129 | the approved report becomes `Validado` with its validator and time, and every other report is unchanged |
| PanelValidacion.ApprovalCreatesOneSpace | src/components/paneles/PanelValidacion.jsx:132-142 | exactly one space is added, copying the report's name, type, coordinates and reporter, with status `Validado` |
| PanelValidacion.ApprovalResolvesExactMatches | src/components/paneles/PanelValidacion.jsx:152-164 | a pending request becomes `resuelta` iff its query and type equal the report's name and type; a status only ever changes to `resuelta`, other fields are kept, and no matching request is left |
| PanelValidacion.ApprovalLogsOnce | src/components/paneles/PanelValidacion.jsx:166-172 | exactly one log entry is appended, with action `validate`, the validator's id, the approval time and the approval message naming the validator and the report, and the earlier log is kept |
| PanelValidacion.ApprovalMessageFallback | src/components/paneles/PanelValidacion.jsx:168 | a validator without a display name is logged as `Un validador` |
| PanelValidacion.ApprovalMessageNamesValidator | src/components/paneles/PanelValidacion.jsx:168 | a validator with a display name is logged under that name, followed by `aprobó` and the quoted report name |
| PanelValidacion.RepeatedApprovalCreditsAgain | src/components/paneles/PanelValidacion.jsx:116-118 | approving the same report twice credits the reporter 10 points and the validator 6, because nothing checks the status |
| PanelValidacion.ApprovedReportLeavesQueue | src/components/paneles/PanelValidacion.jsx:94-98 | after approval the report is no longer in the validator's pending queue |
| PanelInteractivo.SubmitBatch | src/components/paneles/PanelInteractivo.jsx:34-53 | every document the submit batch creates has an id no larger than the fresh id |
| PanelInteractivo.SubmitBatchMeetsSpec | src/components/paneles/PanelInteractivo.jsx:34-56 | the batch `handleSubmit` builds, applied to the store, adds the report and the log entry and always applies |
| PanelInteractivo.ReportPanel.constructor | src/components/paneles/PanelInteractivo.jsx:10-12 | the form starts with an empty name, type `Salón de clase`, not submitting and no error |
| PanelInteractivo.ReportPanel.HandleChange | src/components/paneles/PanelInteractivo.jsx:15-18 | editing a field sets that field only |
| PanelInteractivo.ReportPanel.HandleSubmit | src/components/paneles/PanelInteractivo.jsx:22-107 | called only with a non-empty name, as the `required` input ensures; without coordinates or a Reporter profile, it sets the guard error and changes nothing; otherwise it commits the submit batch, closing and resetting the form on success, or keeping the form and setting the retry error on failure |
| PanelInteractivo.SubmitAddsOneReport | src/components/paneles/PanelInteractivo.jsx:37-45 | exactly one `Pendiente` report is added, carrying the form's name and type, the clicked point and the reporter's id |
| PanelInteractivo.SubmitLogsOnce | src/components/paneles/PanelInteractivo.jsx:48-53 | exactly one log entry is appended, without an action, naming the reporter |
| PanelInteractivo.SubmitMessageFallback | src/components/paneles/PanelInteractivo.jsx:50 | a reporter without a display name is logged as `Un reportero` |
| PanelInteractivo.SubmittedReportJoinsQueue | src/components/paneles/PanelInteractivo.jsx:42 | a submitted report appears in the validator's pending queue |
| Ranking.RankDisplay | src/components/paneles/PanelComunidad.jsx:59-71 | places 0, 1 and 2 get the gold, silver and bronze medal respectively (enlarged for the current user), and the others show their 1-based position |
| Ranking.RankDisplayDistinct | src/components/paneles/PanelComunidad.jsx:64-70 | different places never get the same badge |
| Ranking.Leaderboard | src/components/paneles/PanelComunidad.jsx:79 | at most 5 accounts, all with a `points` field and drawn from the snapshot, most points first |
| Ranking.LeaderboardIsTop | src/components/paneles/PanelComunidad.jsx:79 | the leaderboard has min(5, number of ranked accounts) rows, and no account left out has more points than one shown |
| Ranking.LeaderboardView | src/components/paneles/PanelBusquedasPendientes.jsx:82-95 | one row per leaderboard entry, with its uid and points, highlighted iff its id is the signed-in uid, named by its display name or `Usuario Anónimo` without one, and carrying its place's badge |
| Ranking.AtMostOneHighlighted | src/components/paneles/PanelBusquedasPendientes.jsx:86 | with distinct account ids, at most one row is highlighted |
| Ranking.LeaderboardViewAsWritten | src/components/paneles/PanelComunidad.jsx:96-110 | the community leaderboard compares the row's id with the row's own `uid` field |
| Ranking.AsWrittenHighlightsNobody | src/components/paneles/PanelComunidad.jsx:100-105 | as written, the community leaderboard highlights no row whoever is signed in |
| Ranking.AsWrittenMissesOwnRow | src/components/paneles/PanelComunidad.jsx:100-105 | a signed-in user in the top 5 is not highlighted by the community leaderboard, though the corrected view highlights them |
| Ranking.DisplayedPoints | src/components/paneles/PanelBusquedasPendientes.jsx:175 | the header shows the profile's points, or 0 without a profile or a `points` field |
| PanelComunidad.SearchableSpaces | src/components/paneles/PanelComunidad.jsx:308 | only `Validado` spaces are searchable |
| PanelComunidad.Results | src/components/paneles/PanelComunidad.jsx:127-133 | an empty query gives no results; otherwise a space is a result iff its type equals the selected type and its lower-cased name contains the lower-cased query |
| PanelComunidad.ResultsIgnoreCase | src/components/paneles/PanelComunidad.jsx:130 | queries that differ only in letter case give the same results |
| PanelComunidad.ResultsFindExactName | src/components/paneles/PanelComunidad.jsx:129-132 | a searchable space is found by its own name and type |
| PanelComunidad.PublishOfferedIffNoMatch | src/components/paneles/PanelComunidad.jsx:212-221 | publishing is offered iff the query is non-empty and no searchable space matches it |
| PanelComunidad.PublishBatch | src/components/paneles/PanelComunidad.jsx:139-154 | every document the publish batch creates has an id no larger than the fresh id |
| PanelComunidad.PublishBatchMeetsSpec | src/components/paneles/PanelComunidad.jsx:139-156 | the batch `handlePublishSearch` builds, applied to the store, gives exactly the intended publish outcome |
| PanelComunidad.SearchTab.constructor | src/components/paneles/PanelComunidad.jsx:122-124 | the tab starts with an empty query, type `Salón de clase` and not publishing |
| PanelComunidad.SearchTab.HandlePublishSearch | src/components/paneles/PanelComunidad.jsx:135-164 | without a query or profile, or while publishing, nothing happens; otherwise it commits the request plus the +1, clearing the query on success and leaving the store unchanged on failure |
| PanelComunidad.PublishCreatesRequestAndCredits | src/components/paneles/PanelComunidad.jsx:142-156 | exactly one `pendiente` request is added, with the query, type, the requester's id and their display name (or `Usuario anónimo`), and the requester gains exactly 1 point |
| PanelComunidad.PublishNeedsAccount | src/components/paneles/PanelComunidad.jsx:153-156 | publishing commits iff the requester's account document exists |
| PanelComunidad.LaterApprovalResolvesPublished | src/components/paneles/PanelValidacion.jsx:152-164 | a published request is resolved by a later approval of a report with the same name and type |
| PanelComunidad.ApprovedSpaceIsFound | src/components/paneles/PanelComunidad.jsx:308-311 | after an approval, searching for the report's name and type finds the new space |
| PanelComunidad.MySearches | src/components/paneles/PanelComunidad.jsx:252-256 | exactly the user's own requests, newest first, as a sub-multiset of the snapshot |
| PanelComunidad.StatusLabel | src/components/paneles/PanelComunidad.jsx:285-290 | the chip reads `Resuelta` for a resolved request and `Pendiente` otherwise |
| PanelComunidad.PublishedShowsInMySearches | src/components/paneles/PanelComunidad.jsx:252-256 | a request the user published appears in their own list with the `Pendiente` chip |
| PanelComunidad.Feed | src/components/paneles/PanelComunidad.jsx:26-27 | at most 10 log entries, newest first, all drawn from the log |
| PanelComunidad.FeedShowsNewest | src/components/paneles/PanelComunidad.jsx:27 | the feed has min(10, log length) entries, and no entry left out is newer than one shown |
| PanelComunidad.NewestEntryHeadsFeed | src/components/paneles/PanelComunidad.jsx:27 | an entry strictly newer than every other heads the feed |
| PanelBusquedasPendientes.PendingSearches | src/components/paneles/PanelBusquedasPendientes.jsx:127-131 | exactly the `pendiente` requests, newest first, as a sub-multiset of the snapshot |
| PanelBusquedasPendientes.PendingBadge | src/components/paneles/PanelBusquedasPendientes.jsx:169-171 | the badge equals the number of `pendiente` requests in the snapshot, and never exceeds the snapshot's size |
| PanelBusquedasPendientes.ResolvedNotListed | src/components/paneles/PanelBusquedasPendientes.jsx:129 | a resolved request is never listed |
| PanelBusquedasPendientes.ApprovalClearsMatchingSearches | src/components/paneles/PanelBusquedasPendientes.jsx:127-131 | after an approval, no request matching the report stays in the reporters' pending list |
| PanelBusquedasPendientes.PublishedIsListed | src/components/paneles/PanelBusquedasPendientes.jsx:127-131 | a newly published request shows up in the reporters' pending list |
| PanelBusquedasPendientes.ReporterLeaderboard | src/components/paneles/PanelBusquedasPendientes.jsx:57-97 | the reporters' leaderboard highlights a row iff it is the signed-in user's |
| AuthContext.NewAccount | src/context/AuthContext.js:73-79 | a signed-up account has role `Comunidad`, 0 points and the given name and email |
| AuthContext.ProfileOf | src/context/AuthContext.js:24-28 | a profile exists iff the account document exists, and it carries the uid and the document's fields |
| AuthContext.AuthProvider.constructor | src/context/AuthContext.js:14-16 | the context starts signed out and loading, and renders nothing |
| AuthContext.AuthProvider.OnAuthStateChanged | src/context/AuthContext.js:18-58 | after the callback the user is the given one; when signed out, or when the account read succeeds, the profile is cleared or read from the account document and the children render; when the read is rejected, the profile and the loading flag stay as they were, so the loading screen stays up |
| AuthContext.AuthProvider.SignUp | src/context/AuthContext.js:66-89 | a successful sign-up stores the new `Comunidad` account and sets the same profile locally; a failed one changes neither |
| AuthContext.AuthProvider.LogOut | src/context/AuthContext.js:98-105 | the user's presence entry is removed before signing out, and a failed removal leaves the user signed in |
| AuthContext.SignUpProfileMatchesStore | src/context/AuthContext.js:82-88 | the profile read back after a sign-up equals the one set locally |
| UsuariosTab.CategoryOf | src/components/ui/UsuariosTab.jsx:83-89 | an empty role counts as `Otros`, each of the three roles has its own group, and any other role has none |
| UsuariosTab.Push | src/components/ui/UsuariosTab.jsx:86-90 | a push appends the user to one list and leaves the other seven unchanged |
| UsuariosTab.PushOneList | src/components/ui/UsuariosTab.jsx:86-90 | after one more push, each list is still the grouping of the users seen so far |
| UsuariosTab.CategorizeUsers | src/components/ui/UsuariosTab.jsx:74-93 | the loop yields, in each list, exactly the users of that role and presence, in `allUsers` order |
| UsuariosTab.EachUserInOneList | src/components/ui/UsuariosTab.jsx:82-91 | a user is in a list iff its role's group and its presence are that list's |
| UsuariosTab.OnlineOfflineDisjoint | src/components/ui/UsuariosTab.jsx:84-90 | no user is both online and offline in a group |
| UsuariosTab.CategorizedKeepsOrder | src/components/ui/UsuariosTab.jsx:82-90 | grouping a concatenation concatenates the groupings, so each list keeps the input order |
| UsuariosTab.RoleColorFollowsCategory | src/components/ui/UsuariosTab.jsx:11-18 | blue, yellow and green mark exactly the three role groups, and gray marks the rest |
| UsuariosTab.UsersTab.constructor | src/components/ui/UsuariosTab.jsx:37-40 | the tab starts empty, with both sources loading |
| UsuariosTab.UsersTab.Shown | src/components/ui/UsuariosTab.jsx:105-111 | nothing is listed while either source loads; afterwards the grouping of the current users and presence is listed |
| UsuariosTab.UsersTab.OnUsersFetched | src/components/ui/UsuariosTab.jsx:42-58 | the fetched users replace the list (kept on failure), and user loading ends either way |
| UsuariosTab.UsersTab.OnPresence | src/components/ui/UsuariosTab.jsx:61-70 | a presence snapshot replaces the status map (an empty tree reads as no entries), and status loading ends |
| UsuariosTab.LoadBothSources | src/components/ui/UsuariosTab.jsx:42-111 | whichever source answers first, once both have answered the shown lists are the grouping of what they returned |
| Page.PanelsFor | src/app/page.js:53-76 | without a profile, no role panel is mounted |
| Page.ScreenFor | src/app/page.js:20-26 | the loading screen shows iff auth is still loading |
| Page.PanelsDetermineRole | src/app/page.js:53-76 | each panel is mounted iff the profile has that panel's role, and an unknown role sees none |
| Page.NewAccountIsCommunity | src/app/page.js:53-71 | a freshly signed-up account sees only the community panel and cannot submit reports |
| Page.Home.constructor | src/app/page.js:16-18 | the page starts with the report panel closed, no pending point and no highlighted pin |
| Page.Home.HandleMapClick | src/app/page.js:28-33 | only a Reporter's click records the point and opens the report panel |
| Page.Home.HandleCloseReportPanel | src/app/page.js:35-38 | closing hides the panel and forgets the point |
| Page.Home.OnSearchResultClick | src/app/page.js:56 | clicking a search result highlights that space's pin |
| Page.ReportFromMap | src/app/page.js:60-67 | a Reporter's click then submit stores the report at the clicked point and closes the panel, and a failed commit keeps the panel open at that point |
| Workflow.SubmitEvolves | src/components/paneles/PanelInteractivo.jsx:34-56 | a submit loses no account, points, report, space, resolution or log entry |
| Workflow.ApprovalEvolves | src/components/paneles/PanelValidacion.jsx:120-176 | an approval loses no account, points, validation, space, resolution or log entry |
| Workflow.PublishEvolves | src/components/paneles/PanelComunidad.jsx:139-156 | a publish loses no account, points, report, space, resolution or log entry |
| Workflow.SignUpEvolves | src/context/AuthContext.js:66-89 | a sign-up under a newly issued uid only adds an account |
| Workflow.Step | src/components/paneles/PanelValidacion.jsx:116-184 | whichever of submit, approve, publish or sign-up runs, and whatever the backend answers, the store only moves forward |
| Scenarios.ReportAndApprove | src/components/paneles/PanelValidacion.jsx:116-184 | a report by a 0-point reporter, approved by a 0-point validator, ends `Validado` with one space, 5 and 3 points and log actions none then `validate` |
| Scenarios.SearchThenReport | src/components/paneles/PanelComunidad.jsx:135-164 | an unanswered search is published (+1) and becomes `resuelta` once a matching report is approved |

## Left out

- Live subscriptions (`onSnapshot`), the loading flags of the panels, and unsubscribing. Views are functions of one snapshot. The users tab's two loading flags are modelled.
- Concurrency. Each handler runs to completion, one at a time. `handleApprove` reads the matching search requests before it commits; a request published in between is not modelled.
- Coordinates are two opaque real numbers. Map rendering, pins, Leaflet and floating point are not modelled.
- Time. Each handler gets one instant `now`. `handleApprove` calls `Timestamp.now()` three times, so its report, space and log timestamps may differ by a few milliseconds.
- UsuariosTab.CategoryOf: a role that names an inherited object property (`toString`, `constructor`, `__proto__`) makes `categories[role]` defined but without an `online` list, so the push throws and `categorizedUsers` fails. The model puts such a user in no list, as the code does for every other unknown role through `?.`.
- Common.Lower: lower-cases ASCII letters only. JavaScript's `toLowerCase` also folds accented and other Unicode letters.
- `ReportCard`'s lookup of the reporter's display name, and the other purely presentational components (menus, chat tab, map, login form).
- The `createdAt` field `signUp` stores on the account document.
- `logIn` and the identity provider's password handling. They live in Firebase Authentication, which is not part of this model.
- The presence transport (Realtime Database `onDisconnect` hooks). Presence reaches `UsersTab` only as a map from uid to the `online` flag.
- AuthContext.AuthProvider.LogOut: a failure of `signOut` itself is not modelled; only the presence removal can fail.
- Document ids are a counter, so rows come out in creation order. Firestore's auto-ids are random, so the order of rows with equal sort keys, and of the unsorted search results, can differ from the program's.
- Ranking.DisplayedPoints: shows the points of the profile held in the auth context, which is not refreshed when the account document changes.
- The Firebase configuration (`src/lib/firebase-config.js`) and the backend's security rules. The backend's verdict on each commit is the `accepted` parameter.

## Findings

| source | as written | input that shows it | evidently intended | confidence | as-written member | corrected member |
|---|---|---|---|---|---|---|
| src/components/paneles/PanelComunidad.jsx:100,105 | the community leaderboard highlights a row when `user.id === user?.uid`, where `user` is the map's own row, which shadows the signed-in user; account documents have no `uid` field, so the comparison is always false | signed-in user `u1` with 12 points, whose account is in the top 5 | highlight the row whose id is the signed-in user's uid, as PanelBusquedasPendientes.jsx:86 does | not executed | Ranking.AsWrittenMissesOwnRow | Ranking.AtMostOneHighlighted |
