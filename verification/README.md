# Arts scoreboard: a Dafny model of the leaderboard and the admin dashboard

The scoreboard is a React page pair over a realtime document store with two
collections, `scores` and `groups`.

- The public **leaderboard** (`src/Pages/HomeScreen.jsx`) follows both
  collections live. It mirrors the Arts scores to the browser cache cell
  `arts_data` and falls back to that cell when the subscription fails. It
  ranks the four fixed groups Nishan, Nagara, Dhankul and Bansuri by their
  total score, and pages the score table ten rows at a time.
- The **admin dashboard** (`src/Pages/Admin/Dashboard.jsx`) follows the same
  collections, seeds four default groups when the groups collection is
  empty, and offers the score form (create, edit, cancel, save, delete) and
  group management (add, rename or recolour, delete).

This project models that logic as pure functions over immutable data:

| module | file | what it holds |
|---|---|---|
| `Values` | values.dfy | field values with JavaScript truthiness, `a \|\| b`, documents as maps |
| `Store` | store.dfy | the two collections, the three write kinds (full set, merge set, delete), snapshots |
| `GroupId` | groupid.dfy | `\s` white space, `replace(/\s+/g, '')`, `trim()`, the derived group id |
| `Numbers` | numbers.dfy | `Number(score)` for whole numbers, and its inverse |
| `Standings` | standings.dfy | per-group totals and the stable descending sort |
| `Pagination` | pagination.dfy | the offset pager: window, buttons, label |
| `Leaderboard` | leaderboard.dfy | the leaderboard's state, its subscription callbacks, what it renders |
| `Dashboard` | dashboard.dfy | the dashboard's state, its subscription callbacks and handlers, with the writes each one issues |

Each callback and handler is one atomic transition. A dashboard handler
returns the next page state together with the writes that took effect. The
store's verdict on an awaited write is a boolean parameter, and so is the
operator's answer to a confirmation dialog. `Store.Apply` gives each write's
effect on the store, and the lemmas about the handlers are stated on the
store after the writes.

Some behaviour of the code is easy to misread from its comments or from
what the pages are for. The model follows the code:

- Seeding is not guarded. The comment says "one-time", but every empty
  groups snapshot issues the four seed writes again (`Dashboard.SeedingRepeats`).
- The leaderboard's `error` is set on a subscription failure and never
  cleared. Once a non-empty message is recorded, the page shows the
  connection error until it is mounted again
  (`Leaderboard.ErrorIsSticky`, `Leaderboard.ErrorBannerStays`). The
  store's client sends no further callbacks after an error, so the model's
  event lists, which allow snapshots after an error, are more permissive
  than what the page receives.
- Adding a group is a full, non-merge set. The document at the derived id
  becomes exactly `{ name, color }`, and a second add with the same id
  replaces the first, keeping none of its fields (`Dashboard.AddGroupOverwrites`,
  `Dashboard.AddSameGroupTwice`).
- Editing a score whose item type is missing or falsy shows `Individual`,
  and saving it unchanged writes `Individual` back
  (`Dashboard.EditThenSaveRoundTrip`).
- The two pages build their rows differently. The leaderboard writes
  `{ ...doc.data(), id: doc.id }`, so the document id wins. The dashboard
  writes `{ id: doc.id, ...doc.data() }`, so a stored `id` field wins, and
  editing such a score saves into the document that field names
  (`Leaderboard.Row`, `Dashboard.AdminRow`, `Dashboard.StoredIdRedirectsEdit`).
- The pager offset is not reset when the list shrinks. Whenever the list
  has at most ten rows and the offset is at or past its end (five rows at
  offset 10, say), the table is empty and no button is shown
  (`Pagination.StrandedOffset`, `Pagination.StrandedExample`).
- Deleting the last group empties the groups collection, so the next
  snapshot seeds the four defaults again. A score naming a default group
  then shows that group's name again, not `Unknown`
  (`Dashboard.LastGroupDeleteReseeds`).

## Model

| member | source | states |
|---|---|---|
| Values.Or | src/Pages/HomeScreen.jsx:53-54 | `a \|\| b` yields `a` when it is truthy and `b` otherwise |
| Values.DocRef | src/Pages/Admin/Dashboard.jsx:129 | a value names a document exactly when it is a non-empty string, and then names that string |
| Store.Merge | src/Pages/Admin/Dashboard.jsx:88 | a merge set keeps every stored field the data does not name and takes the data's value for every field it names |
| Store.Apply | src/Pages/Admin/Dashboard.jsx:86-95 | a write changes one document of one collection: a full set leaves exactly the data, a merge leaves the merge of old and new, a delete removes the document; the other collection and every other id are untouched |
| Store.DeleteIdempotent | src/Pages/Admin/Dashboard.jsx:127-131 | a second delete of the same id leaves the store as the first left it, and deleting an absent id changes nothing |
| Store.SetLastWriteWins | src/Pages/Admin/Dashboard.jsx:149-152 | two full sets to one id end with the second set's document |
| GroupId.StripWhitespace | src/Pages/Admin/Dashboard.jsx:146 | the result has no white space, is no longer than the name, and is empty exactly when the name is all white space |
| GroupId.TrimStart | src/Pages/Admin/Dashboard.jsx:143 | the result is a suffix of the input, everything cut off is white space, and it does not start with white space |
| GroupId.TrimEnd | src/Pages/Admin/Dashboard.jsx:143 | the result is a prefix of the input, everything cut off is white space, and it does not end with white space |
| GroupId.TrimNoWhitespace | src/Pages/Admin/Dashboard.jsx:146 | trimming a string without white space returns it unchanged |
| GroupId.DeriveIdIsStrip | src/Pages/Admin/Dashboard.jsx:146 | the trailing `trim()` is a no-op: the id is the name with all white space removed, and it has no white space |
| GroupId.StripFixedPoints | src/Pages/Admin/Dashboard.jsx:146 | removing white space leaves a string unchanged exactly when it has none |
| GroupId.DeriveIdIdempotent | src/Pages/Admin/Dashboard.jsx:146 | deriving an id from a derived id gives the same id |
| GroupId.StripAppend | src/Pages/Admin/Dashboard.jsx:146 | removing white space from a concatenation removes it from each part |
| GroupId.SameIdIgnoringWhitespace | src/Pages/Admin/Dashboard.jsx:146 | names that differ only by inserted white space derive the same id |
| GroupId.TrimEmptyIffAllWhitespace | src/Pages/Admin/Dashboard.jsx:143 | the trim is empty exactly when the name is all white space |
| GroupId.GuardMatchesEmptyId | src/Pages/Admin/Dashboard.jsx:143-146 | the blank-name guard refuses a name exactly when its derived id would be empty |
| GroupId.JoinedId | src/Pages/Admin/Dashboard.jsx:146 | two words without white space joined by white space derive the two words written together |
| GroupId.NewTeamExample | src/Pages/Admin/Dashboard.jsx:146 | the name "New Team" derives the id "NewTeam" |
| Numbers.ParseInt | src/Pages/Admin/Dashboard.jsx:81 | text parses exactly when it is an optional minus sign followed by at least one digit, and then to the value of those digits |
| Numbers.ParseDecimal | src/Pages/Admin/Dashboard.jsx:81 | reading back the decimal text of any whole number gives that number |
| Numbers.NumberOf | src/Pages/Admin/Dashboard.jsx:81 | a number is itself, text is parsed, any other value is not a number |
| Standings.Members | src/Pages/HomeScreen.jsx:57 | the filtered list holds exactly the records whose group is the id, each as many times as it occurs in the data, so a duplicated record counts twice in the total |
| Standings.NameOf | src/Pages/HomeScreen.jsx:53 | a group's shown name is its document's truthy `name`, and otherwise the id itself |
| Standings.ColorOf | src/Pages/HomeScreen.jsx:54 | a group's shown colour is its document's truthy `color`, and otherwise `#ffffff` |
| Standings.Unranked | src/Pages/HomeScreen.jsx:51-60 | one standing per fixed id, in the fixed order, each with its id's name, total and colour |
| Standings.Insert | src/Pages/HomeScreen.jsx:61 | inserting into a non-increasing list keeps it non-increasing and adds one element |
| Standings.InsertPerm | src/Pages/HomeScreen.jsx:61 | inserting adds exactly that standing and keeps every other one |
| Standings.InsertStable | src/Pages/HomeScreen.jsx:61 | the inserted standing goes in front of the standings with an equal total, and every other total's run is unchanged |
| Standings.SortDescending | src/Pages/HomeScreen.jsx:61 | the sorted list is non-increasing by total and a permutation of the input |
| Standings.SortStable | src/Pages/HomeScreen.jsx:61 | for every total, the standings with that total keep their relative order |
| Standings.SortKeepsIds | src/Pages/HomeScreen.jsx:61 | sorting keeps the multiset of ids: no id is added, dropped or repeated |
| Standings.SortKeepsSum | src/Pages/HomeScreen.jsx:61 | sorting keeps the sum of totals |
| Standings.StableSortUnique | src/Pages/HomeScreen.jsx:61 | any two non-increasing, order-preserving arrangements of the same list are equal, so the model's sort gives the same result as any stable sort |
| Standings.StandingsListFixedIds | src/Pages/HomeScreen.jsx:49-61 | the standings have four entries, hold each of Nishan, Nagara, Dhankul and Bansuri exactly once, and hold no other id, whatever the groups collection holds |
| Standings.StandingsShowTotals | src/Pages/HomeScreen.jsx:51-61 | every standing carries its own id's total, name and colour, and the list runs from the highest total down |
| Standings.TiesKeepFixedOrder | src/Pages/HomeScreen.jsx:49-61 | standings with equal totals appear in the fixed id order |
| Standings.OrphanContributesNothing | src/Pages/HomeScreen.jsx:56-58 | adding a record whose group is none of the four fixed ids changes no standing |
| Standings.TotalsAddUp | src/Pages/HomeScreen.jsx:56-58 | the four totals add up to the points of the records that name one of the four groups |
| Standings.StandingsConservePoints | src/Pages/HomeScreen.jsx:49-61 | the totals on the board add up to exactly the points of the records tagged with a ranked group; none is lost or counted twice |
| Pagination.Window | src/Pages/HomeScreen.jsx:64-65 | the window has at most ten rows, exactly `min(10, count - page)` when the offset is inside the list, none otherwise, and is the run of rows starting at the offset, in order |
| Pagination.Previous | src/Pages/HomeScreen.jsx:190 | Previous moves back by ten, stopping at 0 |
| Pagination.PageLabel | src/Pages/HomeScreen.jsx:195 | the label is the page number `r` whose block of ten rows, offsets `10(r-1)` up to `10r - 1`, holds the offset |
| Pagination.OnClick | src/Pages/HomeScreen.jsx:185-203 | an enabled Previous moves the offset to `max(0, page - 10)`, an enabled Next raises it by ten to an offset that is still inside the list, and a disabled or hidden button changes nothing |
| Pagination.ClickKeepsAlignment | src/Pages/HomeScreen.jsx:189-200 | from a multiple of ten, a click leaves the offset a multiple of ten and moves the label by exactly one page |
| Pagination.NextPageNonEmpty | src/Pages/HomeScreen.jsx:199-200 | whenever Next is enabled, the current page is full and the next page has rows |
| Pagination.PreviousShowsPrecedingRows | src/Pages/HomeScreen.jsx:189-190 | Previous from an aligned offset shows the ten rows just before it |
| Pagination.PagesCoverRest | src/Pages/HomeScreen.jsx:65 | the pages from any offset on, read in order, are exactly the rows from that offset on |
| Pagination.PagesCoverData | src/Pages/HomeScreen.jsx:65 | the pages read from the first are the whole table, each row once, in order |
| Pagination.StrandedOffset | src/Pages/HomeScreen.jsx:185-200 | whenever the list has at most ten rows and the offset is at or past its end, the table is empty and no click moves the offset |
| Pagination.StrandedExample | src/Pages/HomeScreen.jsx:185-200 | with five rows and offset 10 the table is empty, the pager is hidden and no click moves the offset |
| Pagination.LabelNamesBlock | src/Pages/HomeScreen.jsx:195 | no other page number's block holds the offset, and an aligned offset is the first row of its label's block |
| Leaderboard.Mount | src/Pages/HomeScreen.jsx:6-10 | the page starts loading, with no rows, no groups, no error, offset 0, and whatever cache an earlier visit left |
| Leaderboard.ConfigOf | src/Pages/HomeScreen.jsx:15-18 | the config has a key for exactly the ids in the batch |
| Leaderboard.ConfigOfHasEveryDoc | src/Pages/HomeScreen.jsx:16-18 | every document of a snapshot is in the config under its own id, with exactly its stored fields |
| Leaderboard.OnGroupsSnapshot | src/Pages/HomeScreen.jsx:14-20 | a groups snapshot replaces the config, keyed by the batch's ids, and changes nothing else |
| Leaderboard.GroupsConfigMirrorsCollection | src/Pages/HomeScreen.jsx:14-20 | after a snapshot of the groups collection, the config equals that collection |
| Leaderboard.Row | src/Pages/HomeScreen.jsx:30 | a row's `id` is the document id, even over a stored `id` field, and every other field is the stored one |
| Leaderboard.Rows | src/Pages/HomeScreen.jsx:30 | one row per document, in the batch's order |
| Leaderboard.OnScoresSnapshot | src/Pages/HomeScreen.jsx:29-34 | a scores snapshot replaces the rows with the batch's, ends loading, puts the same list in the cache, and keeps config, error and offset |
| Leaderboard.OnScoresError | src/Pages/HomeScreen.jsx:35-41 | a subscription error records the message, shows the cached list when there is one and otherwise keeps the rows, and ends loading |
| Leaderboard.OnPagerClick | src/Pages/HomeScreen.jsx:189-200 | a pager click changes only the offset, as the pager rules say |
| Leaderboard.RunAppend | src/Pages/HomeScreen.jsx:12-45 | running two event sequences one after the other is running their concatenation |
| Leaderboard.QuietEventsKeepData | src/Pages/HomeScreen.jsx:14-20 | groups snapshots and pager clicks leave the rows and the cache alone |
| Leaderboard.LatestSnapshotWins | src/Pages/HomeScreen.jsx:29-34 | whatever came before, the rows and the cache are the latest scores snapshot's until the next scores event |
| Leaderboard.ErrorIsSticky | src/Pages/HomeScreen.jsx:37 | once an error is recorded and loading is over, no event clears the error or restarts loading |
| Leaderboard.PageStaysAligned | src/Pages/HomeScreen.jsx:10 | an offset that starts at a multiple of ten stays one under any events |
| Leaderboard.FallbackThenRecovery | src/Pages/HomeScreen.jsx:29-41 | after an error the cached list is shown; in the model's free event order a later snapshot would replace it while the error stays recorded, an order the store's client does not produce on one mount |
| Leaderboard.View | src/Pages/HomeScreen.jsx:67-75 | the spinner while loading with no rows, otherwise the error banner when the error message is non-empty, otherwise a board with the ranked standings, the current window as its table, the pager exactly when there are more than ten rows, and the page label of the offset |
| Leaderboard.ErrorBannerStays | src/Pages/HomeScreen.jsx:75 | once a non-empty error message is recorded, the page shows the connection error after any events, unless a later error has an empty message |
| Leaderboard.RowGroup | src/Pages/HomeScreen.jsx:153 | a row's group is its config document when there is one, and otherwise the raw group value as name in colour `#94a3b8` |
| Dashboard.Mount | src/Pages/Admin/Dashboard.jsx:12-29 | student, item, group and score start empty, with item type `Individual` and category `Arts`, no edit target, not loading, and new-group colour `#000000` |
| Dashboard.GroupDoc | src/Pages/Admin/Dashboard.jsx:32-37 | a default group's document holds exactly its id, name and colour |
| Dashboard.DefaultGroupDocs | src/Pages/Admin/Dashboard.jsx:32-37 | the shown defaults are the four default groups' documents, in order |
| Dashboard.SeedWrites | src/Pages/Admin/Dashboard.jsx:62-64 | seeding is one full set per default group, at that group's own id, in order |
| Dashboard.AdminRow | src/Pages/Admin/Dashboard.jsx:43 | a dashboard row's `id` is a stored `id` field when there is one, and otherwise the document id; every other field is the stored one |
| Dashboard.AdminRows | src/Pages/Admin/Dashboard.jsx:50 | one row per document, in the batch's order |
| Dashboard.OnScoresSnapshot | src/Pages/Admin/Dashboard.jsx:42-44 | a scores snapshot replaces the table with one row per document, in order, each carrying the document's fields, and a stored `id` field wins over the document id; nothing else changes |
| Dashboard.LatestScoresSnapshotWins | src/Pages/Admin/Dashboard.jsx:42-44 | after two scores snapshots the table is the second one's |
| Dashboard.ScoresTableMirrorsCollection | src/Pages/Admin/Dashboard.jsx:42-44 | a snapshot of the scores collection shows every stored score in a row holding its stored fields |
| Dashboard.OnGroupsSnapshot | src/Pages/Admin/Dashboard.jsx:48-66 | a non-empty groups snapshot replaces the list without writing and keeps the selected group exactly when it is still listed; an empty one shows the defaults, issues the seed writes and clears the selection; nothing else changes |
| Dashboard.SeedingWritesDefaults | src/Pages/Admin/Dashboard.jsx:59-64 | after seeding, each default id holds its default document, every other group and every score are as before |
| Dashboard.SeedLands | src/Pages/Admin/Dashboard.jsx:62-64 | after seeding, each default id holds that default group's document |
| Dashboard.SeedingRepeats | src/Pages/Admin/Dashboard.jsx:61-64 | two empty groups snapshots in a row issue the seed writes twice: eight writes |
| Dashboard.ScoreData | src/Pages/Admin/Dashboard.jsx:76-84 | the saved data holds exactly the six form fields, the score as a number and the timestamp placeholder |
| Dashboard.TargetOf | src/Pages/Admin/Dashboard.jsx:86 | a falsy edit id saves a new score, a non-empty string id edits that score, anything else fails |
| Dashboard.SaveScore | src/Pages/Admin/Dashboard.jsx:72-105 | a complete form whose write is accepted issues one write (a new document, or a merge into the edited one, which clears the edit target) and clears student, item and score but keeps item type, group and category; a refused write leaves everything but `loading` as it was; `loading` always ends false; the new-group form fields never change |
| Dashboard.Edit | src/Pages/Admin/Dashboard.jsx:107-118 | editing copies the record's six fields into the form, with item type `Individual` when the record's is falsy, and makes the record's id the edit target |
| Dashboard.CancelEdit | src/Pages/Admin/Dashboard.jsx:120-125 | cancelling clears student, item, score and the edit target only |
| Dashboard.EditThenCancel | src/Pages/Admin/Dashboard.jsx:107-125 | after editing a record and cancelling, the edit target and student, item and score are cleared, but item type, group and category keep the record's values |
| Dashboard.DeleteScore | src/Pages/Admin/Dashboard.jsx:127-131 | a confirmed, accepted delete issues exactly the delete of that score; otherwise nothing is written |
| Dashboard.UpdateGroup | src/Pages/Admin/Dashboard.jsx:133-139 | an accepted update issues one merge of exactly that field into that group; otherwise nothing is written |
| Dashboard.AddGroup | src/Pages/Admin/Dashboard.jsx:141-160 | a blank name writes nothing; otherwise an accepted add issues a full set of exactly `{ name, color }` at the derived id and resets the form, and a refused one changes nothing |
| Dashboard.DeleteGroup | src/Pages/Admin/Dashboard.jsx:162-171 | a confirmed, accepted delete issues exactly the delete of that group document and nothing else |
| Dashboard.FindGroup | src/Pages/Admin/Dashboard.jsx:416 | the lookup finds nothing exactly when no listed group has that id, and otherwise returns the first one that has it |
| Dashboard.GroupLabel | src/Pages/Admin/Dashboard.jsx:416-428 | a score whose group is not listed shows `Unknown`; otherwise it shows the first matching group's `name` when truthy and `Unknown` when not |
| Dashboard.SaveCreatesOneScore | src/Pages/Admin/Dashboard.jsx:93 | saving a new score adds exactly one document, at the fresh id, holding exactly the score data; no other document changes |
| Dashboard.SaveEditMergesIntoRecord | src/Pages/Admin/Dashboard.jsx:88 | saving an edit gives the edited document the saved fields and keeps its other stored fields; no other document changes |
| Dashboard.EditCopiesRecord | src/Pages/Admin/Dashboard.jsx:107-114 | for a stored score with student, item and group filled, a numeric score, a category and no stored `id` field, editing fills the form with its fields, a missing or falsy item type showing as `Individual`, and targets its id; the form is submittable |
| Dashboard.ScoreDataOfRecord | src/Pages/Admin/Dashboard.jsx:76-84 | for such a record, the data saved from its own form agrees with it on every field except the item type, which becomes the shown one, and the timestamp |
| Dashboard.EditThenSaveRoundTrip | src/Pages/Admin/Dashboard.jsx:86-90 | for such a record, opening it for edit and saving unchanged merges into the same document, which keeps its fields and gets a fresh timestamp, and a missing or falsy item type comes back as `Individual` |
| Dashboard.StoredIdRedirectsEdit | src/Pages/Admin/Dashboard.jsx:107-114 | a score with a stored `id` field naming another document is opened for edit against that other document |
| Dashboard.DeleteScoreRemovesOnlyIt | src/Pages/Admin/Dashboard.jsx:127-131 | deleting a score removes that document only, and a repeated delete changes nothing more |
| Dashboard.UpdateGroupChangesOneField | src/Pages/Admin/Dashboard.jsx:135 | updating a group sets that one field; the group's other fields, every other group and every score are unchanged |
| Dashboard.NewGroupDoc | src/Pages/Admin/Dashboard.jsx:149-152 | the added group's document has exactly the fields `name` and `color`, holding the form's values |
| Dashboard.AddGroupIdIsClean | src/Pages/Admin/Dashboard.jsx:143-146 | a name that passes the blank check derives a non-empty id without white space |
| Dashboard.AddGroupOverwrites | src/Pages/Admin/Dashboard.jsx:146-152 | an accepted add is one full set at the derived id: that group becomes exactly `{ name, color }`, whatever it held, and nothing else changes |
| Dashboard.AddSameGroupTwice | src/Pages/Admin/Dashboard.jsx:146-152 | two adds whose names derive the same id leave the store as the second alone would: nothing of the first is merged in |
| Dashboard.NewTeamTwice | src/Pages/Admin/Dashboard.jsx:146-152 | adding "New Team" with `#112233` and then with `#445566` leaves one group `NewTeam` with the second colour |
| Dashboard.DeletedGroupShowsUnknown | src/Pages/Admin/Dashboard.jsx:165 | when every group document's stored `id` field, if any, equals its key, deleting a group leaves every score in place, and once a non-empty set of remaining groups arrives, a score that named it shows `Unknown` |
| Dashboard.SeedKeepsWellKeyed | src/Pages/Admin/Dashboard.jsx:59-66 | seeding keeps every group document's stored `id` field, if any, equal to its key |
| Dashboard.AddGroupKeepsWellKeyed | src/Pages/Admin/Dashboard.jsx:146-152 | adding a group keeps every group document's stored `id` field, if any, equal to its key |
| Dashboard.UpdateGroupKeepsWellKeyed | src/Pages/Admin/Dashboard.jsx:133-139 | renaming or recolouring a group keeps every group document's stored `id` field, if any, equal to its key |
| Dashboard.LastGroupDeleteReseeds | src/Pages/Admin/Dashboard.jsx:59-66 | deleting the only group gives an empty snapshot, which re-issues the seed writes, so a score naming a default group shows that group's name again |

## Left out

- The store's client library is not modelled. This covers the subscription lifecycle, unsubscribing on unmount, query filtering and ordering, the generation of new document ids and offline persistence. A snapshot is a given list of documents. The leaderboard's `category == "Arts"` filter and newest-first order are properties of that list, not something the model computes. A new document's id is a parameter.
- Leaderboard.Run: event lists are unrestricted, so they include snapshots after a scores error. The store's client ends a subscription after its error callback, so those orders do not happen on one mount. The lemmas remain true of the orders that do happen.
- Asynchrony is not modelled. Each handler is one atomic step, with an `accepted` flag for the outcome of its awaited write. The seed writes are not awaited and are listed as issued.
- `localStorage` and JSON serialisation are not modelled. The `arts_data` cell is an optional list in the leaderboard state, and the JSON round trip is taken as the identity.
- `window.confirm`, `alert`, `scrollTo`, logging, styling and rendering beyond the choice of screen and the group labels are not modelled. Confirmations are boolean parameters.
- Values are whole numbers, not floating point. `NaN`, `Infinity` and fractional scores do not occur.
- Numbers.NumberOf: models `Number()` only on whole-number text (`-?[0-9]+`). Other text that JavaScript accepts, such as `" 7 "`, `"1e3"` or `"0x10"`, counts as not a number. The browser's number input normally yields only whole-number text for scores.
- Standings.ScoreOf: a record whose `score` is not a number adds 0 to its group's total. In JavaScript such a score would make the total `NaN` or turn it into a string by concatenation.
- Dashboard.Submittable: the browser's form validation is reduced to "student, item and group filled, and the score parses". Until it holds, the save handler does not run.
- Paths containing `/` in a document id (which `doc()` would read as a sub-path) are not modelled. A derived group id can contain `/` if the name does.
- `src/components/FireBanner.jsx` (a random floating-point particle animation), `src/components/Layout.jsx`, `src/Pages/Admin/Login.jsx`, `src/App.jsx` and `src/firebase-config.js` are not part of this model. Logout, routing and authentication are presentation and library code.
