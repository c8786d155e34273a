# Cohabitify core in Dafny

Cohabitify is a shared-living app. This project models its core:

- **Habits.** A user tracks habits, completes a habit at most once a day, and has streaks
  kept by `updateStreak` (the habit document of `backend/models/Habit.js`, the routes of
  `backend/routes/habits.js` and the same handlers in `backend/controllers/habitController.js`).
- **Rooms.** Roommates create a room, join it with a generated join code, leave it, rename
  it, resize it, and regenerate its code (`backend/routes/rooms.js`, `backend/models/Room.js`).
- **Secrets.** An anonymous board of secrets with likes and comments, where the author of an
  anonymous post never leaves the server (`backend/routes/secrets.js`,
  `backend/controllers/secretController.js`, `backend/models/Secret.js`).
- **Moods.** A mood log with a date-range query and analytics: counts per mood, entries per
  day, and weekly trends (`backend/routes/moods.js`, `backend/controllers/moodController.js`,
  `backend/models/Mood.js`).
- **The client store.** The React data store of the client (`src/contexts/DataContext.tsx`,
  and the identical reducers of `src/contexts/DataContext.jsx`): the add/update/delete
  reducers of every list, the client-side check-in with its badges, and habit duels.

Layout:

- `wrappers.dfy`: `Option`, the HTTP `Outcome` of a handler, millisecond time and day
  numbers (`Time`), and Mongoose's `trim: true` (`Text`).
- `sorting.dfy`: `filter`, a stable sort, `findIndex`/`findOne`, and `.limit`.
- `tally.dfy`: counting dictionaries.
- `habit_model.dfy`, `habit_routes.dfy`: the habit document as a class whose methods update
  its fields in place (`updateStreak` is a loop over the sorted completions), and the
  collection with one method per handler.
- `streak_findings.dfy`: the streak walk compared with what its names promise (see below).
- `room_model.dfy`, `room_routes.dfy`: the room value and its invariants, code generation
  with `Math.random` as an oracle, and the collection with one method per handler.
- `secrets.dfy`: the board.
- `moods.dfy`, `mood_analytics.dfy`, `mood_routes.dfy`: the mood log and its analytics.
- `client_lists.dfy`, `client_data.dfy`: the client store as pure functions from the old
  lists to the new ones.

Every handler is a method of a store class whose `docs` (or `rooms`) field is the
collection. Each method:

- keeps the collection's invariant (no duplicate ids; every room well formed, with its owner
  among at most `maxSize` members and no user in two rooms; every stored streak consistent);
- states its response in each case: the express-validator 400, the 403 and 404 cases, the
  500 from a schema check at save time, and success, which it promises whenever every
  check passes;
- states the new collection in each case.

The backend measures text twice, in two different ways. The express-validator `isLength`
checks count a surrogate pair as one character and skip the variation selectors U+FE0E and
U+FE0F (`TextLength.CheckedLen`). The Mongoose `maxlength` checks run at save time and
compare JavaScript's `String.length`, in UTF-16 code units (`TextLength.Utf16Len`). So text
that passes the validator can still fail the schema, and the handler then answers 500.
An example is a secret of 600 characters above U+FFFF. Every habit, secret and mood handler
that saves text states that 500.
On text where the two measures agree, the lemmas with `Plain` in their names show what
can still fail the schema: text that trims to nothing, a habit target below 1, or a mood
tag sent to PUT, which does not check tags.

The streak walk of `updateStreak` is modelled as written. `StreakFindings` sets a repaired
walk beside it and proves that the repaired walk stores the intended streak: the maximal
run of consecutive days that starts at a completion from today or yesterday, and the
longest run ever. Two lemmas show where the walk as written differs:

- `StaleRunAsWritten`: two consecutive but stale days give a current streak of 1 instead of 0.
- `LongRunAsWritten`: a three-day run ending today gives a current streak of 2 instead of 3.

The rest of the model keeps the stored value of the code as written. `HabitModel.StreakAfterBounds`
states what it does guarantee: `current <= 2`, `current <= longest`, and `longest` never
decreases.

The weekly windows of the mood analytics are also modelled as written: `MoodAnalytics.Summarize`
places them `AsWritten`, which leaves one day in each week uncounted. The same loop over
`Tiled` windows, placed edge to edge, is the repaired version, and `TiledWeeksCover` proves
that every moment after `now - 7 * n` days and up to `now` lies in exactly one of its `n`
weeks. Two fetched entries still fall outside every tiled week: an entry dated after `now`
(the query has no upper bound), and, when `days` is a multiple of 7, an entry dated exactly
`days` days before `now` (the oldest window starts one millisecond later).

The join-code alphabet of `rooms.js` has 32 characters: no `I`, `O`, `0` or `1`. The model
uses those 32.

## Model

| member | source | states |
|---|---|---|
| Text.Trim | cohabitify/backend/models/Habit.js:4-9 | a trimmed string is no longer than the original and neither starts nor ends with white space |
| Text.TrimStartDropsSpace | cohabitify/backend/models/Habit.js:4-9 | what is dropped at the front is white space |
| Text.TrimEndDropsSpace | cohabitify/backend/models/Habit.js:4-9 | what is dropped at the back is white space |
| Text.TrimKeepsMiddle | cohabitify/backend/models/Secret.js:4-9 | the trimmed string is a contiguous part of the original with only white space before and after it |
| Text.TrimBlank | cohabitify/backend/models/Secret.js:4-9 | a string trims to "" (which the `required` check then refuses) exactly when it is all white space |
| Text.TrimIdempotent | cohabitify/backend/models/Secret.js:4-9 | trimming a stored (already trimmed) value again changes nothing |
| TextLength.Utf16Len | cohabitify/backend/models/Habit.js:8 | `maxlength` measures `String.length`: between one and two UTF-16 units per character |
| TextLength.CheckedLen | cohabitify/backend/routes/habits.js:32 | `isLength` counts a surrogate pair once and skips U+FE0E/U+FE0F, so never more than the characters |
| TextLength.PlainLengths | cohabitify/backend/routes/habits.js:32 | on text with no character above U+FFFF and no variation selector, both measures are the number of characters |
| TextLength.Utf16LenAppend | cohabitify/backend/models/Secret.js:8 | the units of a concatenation are the units of its parts |
| TextLength.TrimmedUnits | cohabitify/backend/models/Secret.js:4-9 | trimming never adds UTF-16 units |
| TextLength.AstralCounts | cohabitify/backend/routes/secrets.js:50 | `n` copies of a character above U+FFFF count `n` for `isLength` and `2 * n` for `maxlength` |
| TextLength.SelectorCounts | cohabitify/backend/routes/secrets.js:50 | `n` letters and a trailing U+FE0F count `n` for `isLength` and `n + 1` for `maxlength` |
| Sorting.Filter | cohabitify/backend/routes/habits.js:13-16 | `find` with a condition never returns more documents than the collection holds |
| Sorting.FilterCounts | cohabitify/backend/routes/habits.js:13-16 | a document is in the result iff it is in the collection and matches; the result is a sub-multiset, holding each matching document exactly as often as the collection does and no other |
| Sorting.PrefixIsTop | cohabitify/backend/routes/secrets.js:13-17 | the first `n` of a newest-first list are `n` of the newest: nothing left out is newer than anything kept |
| Sorting.FindFirst | cohabitify/backend/routes/habits.js:109-116 | `findOne` returns the first matching position, and nothing exactly when no document matches |
| Sorting.SortDescending | cohabitify/backend/models/Habit.js:80-81 | the newest-first sort is ordered by date and is a permutation of its input |
| Sorting.FilterAppend | cohabitify/backend/routes/habits.js:13-16 | filtering keeps the relative order of what it keeps |
| Tally.Bump | cohabitify/backend/routes/habits.js:244-255 | `counts[k] = (counts[k] \|\| 0) + 1` adds the key, adds one to its count, and leaves every other count alone |
| Tally.BumpTotal | cohabitify/backend/controllers/habitController.js:182-193 | each bump raises the sum of all counts by exactly one |
| HabitModel.DaysOf | cohabitify/backend/models/Habit.js:91-92 | every completion maps to its midnight-truncated day, in list order |
| HabitModel.WalkBounds | cohabitify/backend/models/Habit.js:90-115 | during the walk the run counters never exceed the completions seen, are never negative, and `current` is at most 2 |
| HabitModel.StaleNewestStartsNoRun | cohabitify/backend/models/Habit.js:94-100 | a newest completion more than a day old leaves all counters at 0 after the first step |
| HabitModel.GapAfterNewestResetsCurrent | cohabitify/backend/models/Habit.js:106-113 | when the two newest completions are not one day apart, `current` ends at 0 |
| HabitModel.StreakAfterBounds | cohabitify/backend/models/Habit.js:74-120 | the stored streak: `0 <= current <= longest`, `current <= 2`, `longest` at least the old longest, no completions give current 0 and keep longest, and a gap after the newest completion gives current 0 |
| HabitModel.PatchedKeepsTheRest | cohabitify/backend/routes/habits.js:118-124 | a PUT changes exactly the fields the body carries; id, owner, streak and completions stay |
| HabitModel.PatchedIdempotent | cohabitify/backend/controllers/habitController.js:73-79 | sending the same PUT twice gives the same document as sending it once |
| HabitModel.AddedCompletionFits | cohabitify/backend/models/Habit.js:60-63 | after one completion joins notes that all fit 200 units, they all fit exactly when the new one does |
| HabitModel.Habit.constructor | cohabitify/backend/models/Habit.js:3-67 | a new document takes the given fields and the schema defaults: active, streak 0/0, no completions |
| HabitModel.Habit.Load | cohabitify/backend/routes/habits.js:109-116 | a loaded document has exactly the stored fields |
| HabitModel.Habit.UpdateStreak | cohabitify/backend/models/Habit.js:74-120 | completions are sorted newest first in place (a permutation); the streak is the walk over their days and never lowers `longest`; no completions set current to 0 |
| HabitModel.Habit.WalkCompletions | cohabitify/backend/models/Habit.js:90-115 | the loop's counters are the walk defined step by step over the sorted days |
| HabitModel.Habit.ApplyPatch | cohabitify/backend/routes/habits.js:118-124 | the document becomes the patched view of the old one |
| HabitModel.Habit.Deactivate | cohabitify/backend/routes/habits.js:207-226 | the soft delete clears `isActive` and nothing else |
| HabitModel.Habit.Complete | cohabitify/backend/routes/habits.js:183-191 | the completion is added (multiset), the list ends up sorted newest first, and the streak is recomputed |
| HabitRoutes.Lookup | cohabitify/backend/routes/habits.js:109-116 | the lookup finds a document of that id and owner, and fails exactly when none exists |
| HabitRoutes.ActiveHabits | cohabitify/backend/routes/habits.js:11-23 | GET returns exactly the caller's active habits, each as often as it is stored, newest first |
| HabitRoutes.TargetOrOne | cohabitify/backend/routes/habits.js:61 | an absent or zero target becomes 1, any other is kept |
| HabitRoutes.CreatePlainAccepted | cohabitify/backend/routes/habits.js:28-75 | on plain text, a POST that passes the validators fails the schema exactly when the title trims to nothing or the target is below 1 |
| HabitRoutes.PatchPlainAccepted | cohabitify/backend/routes/habits.js:80-136 | on plain text, a valid PUT keeps a stored habit storable exactly when the new title is not blank and the new target is at least 1 |
| HabitRoutes.CompletedOn | cohabitify/backend/routes/habits.js:169-181 | the guard holds exactly when some completion falls on the day |
| HabitRoutes.TotalCompletions | cohabitify/backend/routes/habits.js:238-241 | the total is 0 for no habits and at least every habit's completion count |
| HabitRoutes.LongestStreak | cohabitify/backend/controllers/habitController.js:177-180 | the maximum longest streak: not negative, an upper bound, and attained unless 0 |
| HabitRoutes.CountIntoTotal | cohabitify/backend/routes/habits.js:244-255 | counting a habit's completions raises the histogram total by its recent completions |
| HabitRoutes.CountIntoPerDay | cohabitify/backend/routes/habits.js:244-255 | each day key counts exactly the recent completions of that day |
| HabitRoutes.CountIntoKeys | cohabitify/backend/controllers/habitController.js:182-193 | a day key appears only for a day some recent completion falls on |
| HabitRoutes.RecentCountBound | cohabitify/backend/routes/habits.js:244-255 | the last 30 days never hold more completions than all time |
| HabitRoutes.TotalCompletionsSnoc | cohabitify/backend/routes/habits.js:238-241 | one more habit adds its completions to the total |
| HabitRoutes.HistogramPerDay | cohabitify/backend/routes/habits.js:244-255 | across all the habits, each day key counts exactly the recent completions of that day |
| HabitRoutes.HistogramTotal | cohabitify/backend/routes/habits.js:231-270 | the histogram's counts add up to the recent completions, never more than the total |
| HabitRoutes.HabitStore.constructor | cohabitify/backend/models/Habit.js:3-67 | an empty, valid collection |
| HabitRoutes.HabitStore.GetHabits | cohabitify/backend/controllers/habitController.js:5-17 | the response is the caller's active habits, newest first |
| HabitRoutes.HabitStore.CreateHabit | cohabitify/backend/routes/habits.js:28-75 | 400 on a failed validator (lengths as `isLength` counts them), 500 on a failed schema check (lengths in UTF-16 units, blank trimmed title, target below 1), and when both pass the new document (target `\|\| 1`) is stored last and returned |
| HabitRoutes.HabitStore.Append | cohabitify/backend/controllers/habitController.js:20-51 | a save appends the document with the next id and keeps the collection valid |
| HabitRoutes.HabitStore.UpdateHabit | cohabitify/backend/routes/habits.js:80-136 | 400, 404, 500 when the patched document fails the schema (UTF-16 lengths, blank title, target below 1), and otherwise the patched document in place; on failure nothing changes |
| HabitRoutes.HabitStore.CompleteHabit | cohabitify/backend/routes/habits.js:141-202 | 400, 404, 400 "already completed today" when a completion falls on today, 500 when the notes exceed 200 UTF-16 units, and otherwise success with one completion added and the streak recomputed |
| HabitRoutes.HabitStore.DeleteHabit | cohabitify/backend/routes/habits.js:207-226 | 404 exactly when the lookup fails, else the document is deactivated in place |
| HabitRoutes.HabitStore.Analytics | cohabitify/backend/routes/habits.js:231-270 | the counts, totals, longest streak and 30-day histogram of the caller's active habits |
| StreakFindings.FixedTemp | cohabitify/backend/models/Habit.js:90-115 | in the repaired walk, `temp` is the maximal run ending at the current index |
| StreakFindings.FixedBest | cohabitify/backend/models/Habit.js:106-115 | in the repaired walk, the larger of `longest` and `temp` is the longest run so far |
| StreakFindings.FixedCurrent | cohabitify/backend/models/Habit.js:94-113 | in the repaired walk, `current` is the run that starts at a fresh newest completion, else 0 |
| StreakFindings.FixedStreakIsIntended | cohabitify/backend/models/Habit.js:74-120 | the repaired walk stores the intended current run and the longest run (or the old longest) |
| StreakFindings.StaleRunAsWritten | cohabitify/backend/models/Habit.js:94-100 | two stale consecutive days store current 1 as written, 0 when repaired |
| StreakFindings.LongRunAsWritten | cohabitify/backend/models/Habit.js:106-113 | a three-day run ending today stores current 2 as written, 3 when repaired |
| RoomModel.Without | cohabitify/backend/routes/rooms.js:176-179 | the filter removes exactly the leaving user and keeps members distinct |
| RoomModel.LeaveKeepsWellFormed | cohabitify/backend/routes/rooms.js:169-197 | leaving keeps a room well formed when someone stays and the owner is handed to the first remaining member |
| RoomModel.IndexFor | cohabitify/backend/routes/rooms.js:34-41 | `Math.floor(x * chars.length)` of a draw in [0, 1) is a valid index |
| RoomModel.CharFor | cohabitify/backend/routes/rooms.js:34-41 | every generated character is from the alphabet |
| RoomModel.CodeFrom | cohabitify/backend/routes/rooms.js:34-41 | a generated code has the requested length |
| RoomModel.CodeFromChars | cohabitify/backend/routes/rooms.js:34-41 | character `i` of a code comes from draw `i` and is in the alphabet |
| RoomModel.CodeFromSnoc | cohabitify/backend/routes/rooms.js:34-41 | one more draw appends one more character |
| RoomModel.PickCodeShape | cohabitify/backend/routes/rooms.js:44-52 | `generateUniqueCode` gives six or eight alphabet characters |
| RoomModel.PickCodeUnused | cohabitify/backend/routes/rooms.js:44-52 | a six-character result is used by no room |
| RoomModel.AttemptShift | cohabitify/backend/routes/rooms.js:44-52 | each later attempt is the next six draws |
| RoomModel.PickCodeFallback | cohabitify/backend/routes/rooms.js:44-52 | the unchecked eight-character fallback comes only after five taken six-character codes |
| RoomRoutes.MemberOf | cohabitify/backend/routes/rooms.js:57-68 | the room found has the user as member; none exactly when no room does |
| RoomRoutes.ById | cohabitify/backend/routes/rooms.js:11-32 | the room found has the id; none exactly when no room does |
| RoomRoutes.ByCode | cohabitify/backend/routes/rooms.js:122-164 | the room found has the code; none exactly when the code is unused |
| RoomRoutes.AtMostOneRoom | cohabitify/backend/routes/rooms.js:134-137 | under the invariant a user is a member of at most one room |
| RoomRoutes.ReplaceKeepsValid | cohabitify/backend/routes/rooms.js:202-245 | replacing a room by a well-formed one with the same id, an unused code and no one else's members keeps the collection valid |
| RoomRoutes.AppendKeepsValid | cohabitify/backend/routes/rooms.js:73-117 | appending a well-formed room with the next id, a fresh code and new members keeps it valid |
| RoomRoutes.RemoveKeepsValid | cohabitify/backend/routes/rooms.js:182-184 | deleting a room keeps the collection valid |
| RoomRoutes.RoomStore.constructor | cohabitify/backend/models/Room.js:1-31 | an empty, valid collection with the given random draws |
| RoomRoutes.RoomStore.GenerateCode | cohabitify/backend/routes/rooms.js:34-41 | the code is the next `length` draws, and exactly that many are consumed |
| RoomRoutes.RoomStore.GenerateUniqueCode | cohabitify/backend/routes/rooms.js:44-52 | the code and draws are those of five attempts, then the fallback |
| RoomRoutes.RoomStore.TryCodes | cohabitify/backend/routes/rooms.js:44-52 | the retry loop with `tries` attempts left |
| RoomRoutes.RoomStore.GetMine | cohabitify/backend/routes/rooms.js:57-68 | the caller's room if any; none exactly when the caller is in no room |
| RoomRoutes.RoomStore.Create | cohabitify/backend/routes/rooms.js:73-117 | 400 on validation, 400 when already in a room, else a room with the caller as owner and only member stored and returned |
| RoomRoutes.RoomStore.Join | cohabitify/backend/routes/rooms.js:122-164 | 400 validation, 400 already in a room, 404 unknown code, 400 full, and otherwise success with the caller appended to the members |
| RoomRoutes.RoomStore.Leave | cohabitify/backend/routes/rooms.js:169-197 | 400 when in no room; the last member deletes the room; a leaving owner hands the room to the first remaining member |
| RoomRoutes.RoomStore.Update | cohabitify/backend/routes/rooms.js:202-245 | 400 validation, 404, 403 for a non-owner, 400 capacity below the member count, and otherwise success with the new settings |
| RoomRoutes.RoomStore.RegenerateCode | cohabitify/backend/routes/rooms.js:11-32 | 404, 403 for a non-owner, else the room gets the generated code, or 500 when another room already has it |
| Secrets.ShowComment | cohabitify/backend/routes/secrets.js:20-34 | a comment's author is sent exactly when it is not anonymous |
| Secrets.Show | cohabitify/backend/controllers/secretController.js:13-23 | a secret's author is sent exactly when it is not anonymous; every comment is shown the same way |
| Secrets.AnonymousSecretHidesAuthor | cohabitify/backend/routes/secrets.js:20-34 | the response to an anonymous secret does not depend on its author |
| Secrets.AnonymousCommentHidesAuthor | cohabitify/backend/routes/secrets.js:20-34 | the response does not depend on who wrote an anonymous comment |
| Secrets.Active | cohabitify/backend/routes/secrets.js:13 | the active secrets, each as often as it is stored |
| Secrets.Newest | cohabitify/backend/routes/secrets.js:13-17 | the 50 newest active secrets (all of them when there are fewer), newest first: exactly min(active, 50) of them, and no active secret left out is newer than one kept |
| Secrets.Board | cohabitify/backend/routes/secrets.js:11-41 | the board is the projection of the newest active secrets, newest first |
| Secrets.DeletedNotListed | cohabitify/backend/routes/secrets.js:189-208 | a deleted secret is not on the board |
| Secrets.Unliked | cohabitify/backend/routes/secrets.js:103-115 | removing a user's likes removes exactly that user from the likers |
| Secrets.Toggled | cohabitify/backend/controllers/secretController.js:59-75 | a like toggles the user's membership of the likers |
| Secrets.ToggleTwice | cohabitify/backend/routes/secrets.js:103-115 | two toggles give back the same likers |
| Secrets.LikeThenUnlike | cohabitify/backend/routes/secrets.js:103-115 | liking then unliking restores the likes exactly |
| Secrets.FilterKeepsAll | cohabitify/backend/routes/secrets.js:103-115 | filtering out a user with no like keeps every like |
| Secrets.CommentKeepsSchema | cohabitify/backend/models/Secret.js:30-40 | a comment that fits 500 units keeps a stored secret storable |
| Secrets.PlainPostFits | cohabitify/backend/routes/secrets.js:46-90 | on plain text, content that passes the validator fails the schema only when it trims to nothing |
| Secrets.SecretBoard.constructor | cohabitify/backend/models/Secret.js:1-63 | an empty, valid collection |
| Secrets.SecretBoard.GetSecrets | cohabitify/backend/controllers/secretController.js:5-30 | the response is the board of the stored secrets |
| Secrets.SecretBoard.CreateSecret | cohabitify/backend/routes/secrets.js:46-90 | 400 on validation, 500 when the trimmed content is blank or over 1000 UTF-16 units, and otherwise success with the secret stored last, anonymity defaulting to true |
| Secrets.SecretBoard.ToggleLike | cohabitify/backend/routes/secrets.js:95-128 | 404 for an unknown id, else the likes are toggled and the response says whether the user now likes it and how many likes there are |
| Secrets.SecretBoard.AddComment | cohabitify/backend/routes/secrets.js:133-184 | 400, 404, 500 on blank content or over 500 UTF-16 units, else the comment goes last and is returned shown |
| Secrets.SecretBoard.DeleteSecret | cohabitify/backend/routes/secrets.js:189-208 | 404 unless the caller wrote it; else only `isActive` is cleared |
| Moods.ParseMood | cohabitify/backend/routes/moods.js:38-55 | a name is accepted exactly when it names a mood of the enum, and it parses to that mood |
| Moods.ParseName | cohabitify/backend/models/Mood.js:3-37 | every stored mood name parses back to its mood |
| Moods.MoodValue | cohabitify/backend/routes/moods.js:209-215 | each mood scores from 1 to 5 |
| Moods.MoodValueOrder | cohabitify/backend/controllers/moodController.js:114 | different moods score differently; very sad scores least and very happy most |
| Moods.NewMood | cohabitify/backend/routes/moods.js:66-75 | the given fields with notes and tags trimmed; no tags means `[]`; a missing date or the falsy date 0 means now, any other date is kept |
| Moods.CreatedMoodAccepted | cohabitify/backend/routes/moods.js:37-87 | after the POST validators, the schema accepts the new entry exactly when the trimmed notes fit 500 and every trimmed tag 50 UTF-16 units |
| Moods.CreatedPlainMoodAccepted | cohabitify/backend/routes/moods.js:37-87 | on plain text, whatever passes the POST validators the schema accepts |
| Moods.PatchedKeepsTheRest | cohabitify/backend/routes/moods.js:115-122 | a PUT changes exactly the fields it carries |
| Moods.PatchedIdempotent | cohabitify/backend/controllers/moodController.js:60-67 | the same PUT twice gives the same entry as once |
| Moods.PatchedAccepted | cohabitify/backend/routes/moods.js:92-141 | a patch that passes the PUT validators is saved exactly when its trimmed notes and tags fit the schema's UTF-16 limits |
| Moods.PlainPatchAccepted | cohabitify/backend/routes/moods.js:92-141 | with plain notes, a valid PUT fails the schema exactly when a trimmed tag (which PUT does not check) is too long |
| Moods.Matching | cohabitify/backend/routes/moods.js:11-15 | the caller's entries in the date range, each as often as it is stored |
| Moods.Query | cohabitify/backend/routes/moods.js:11-32 | the `limit` newest matching entries, newest first: exactly min(matching, \|limit\|) of them (all when the limit is 0), and no matching entry left out is newer than one kept |
| MoodAnalytics.Fetch | cohabitify/backend/routes/moods.js:171-178 | exactly the caller's entries of the last `days` days, each as often as it is stored, oldest first |
| MoodAnalytics.Bumped | cohabitify/backend/routes/moods.js:192-194 | `moodCounts[mood]++` raises that mood's count by one and no other |
| MoodAnalytics.TalliedCounts | cohabitify/backend/routes/moods.js:181-204 | each count is the number of entries with its mood, and the counts add up to the entries |
| MoodAnalytics.Distribute | cohabitify/backend/controllers/moodController.js:100-110 | the counting loop ends with the tally of the entries |
| MoodAnalytics.DaysOfMeaning | cohabitify/backend/routes/moods.js:196-203 | the set of day keys holds exactly the days some entry falls on |
| MoodAnalytics.DayEntriesEmpty | cohabitify/backend/routes/moods.js:196-203 | a day has entries exactly when it is a day key |
| MoodAnalytics.GroupByDay | cohabitify/backend/routes/moods.js:192-204 | the day keys are the entries' days, each bucket holds that day's entries in order, and the buckets hold every entry once |
| MoodAnalytics.Push | cohabitify/backend/routes/moods.js:197-203 | one push creates the bucket if needed and appends the entry |
| MoodAnalytics.GroupKeys | cohabitify/backend/routes/moods.js:196-203 | after a push the keys are the days of the entries so far |
| MoodAnalytics.GroupBuckets | cohabitify/backend/routes/moods.js:196-203 | after a push each bucket holds the entries of its day so far |
| MoodAnalytics.GroupSizes | cohabitify/backend/routes/moods.js:200-203 | a push adds one entry to the buckets in total |
| MoodAnalytics.Within | cohabitify/backend/routes/moods.js:224-226 | a week holds exactly the entries between its bounds |
| MoodAnalytics.WithinCounts | cohabitify/backend/routes/moods.js:224-226 | a week holds each entry between its bounds as often as the fetched entries do, and no other |
| MoodAnalytics.TrendOf | cohabitify/backend/routes/moods.js:228-238 | a week is reported exactly when it holds an entry, with its bounds |
| MoodAnalytics.WindowEnds | cohabitify/backend/routes/moods.js:217-222 | each turn of the loop looks further back than the one before |
| MoodAnalytics.TrendsCounts | cohabitify/backend/routes/moods.js:217-239 | at most one week per turn, only non-empty weeks, each with its count |
| MoodAnalytics.PrependEarlier | cohabitify/backend/routes/moods.js:233 | putting an earlier week in front keeps the weeks in order |
| MoodAnalytics.TrendsFront | cohabitify/backend/routes/moods.js:228-238 | turn `n` puts at most its own week in front |
| MoodAnalytics.TrendsStep | cohabitify/backend/routes/moods.js:217-239 | one more turn keeps the weeks oldest first |
| MoodAnalytics.TrendsOldestFirst | cohabitify/backend/controllers/moodController.js:115-130 | the reported weeks are oldest first and end within the period |
| MoodAnalytics.TiledWeeksCover | cohabitify/backend/routes/moods.js:217-239 | with `n` weeks placed edge to edge, every moment after `now - 7 * n` days and up to `now` lies in exactly one week |
| MoodAnalytics.WrittenWeeksMiss | cohabitify/backend/routes/moods.js:219-222 | as written, the moment just before a week's start lies in no week |
| MoodAnalytics.WeekGapAsWritten | cohabitify/backend/routes/moods.js:217-239 | an entry of the last 14 days is in no week as written, and in one tiled week |
| MoodAnalytics.WeeklyTrends | cohabitify/backend/routes/moods.js:217-239 | the weekly loop computes the trends of `ceil(days / 7)` windows placed as the handler places them (`AsWritten`), or edge to edge (`Tiled`) |
| MoodAnalytics.AddWeek | cohabitify/backend/routes/moods.js:224-238 | one turn puts the week's trend in front when it holds entries |
| MoodAnalytics.TrendsNext | cohabitify/backend/routes/moods.js:218-222 | turn `n + 1` looks at the window starting `7n` days back |
| MoodAnalytics.LoopTurns | cohabitify/backend/routes/moods.js:218 | `for (i = 0; i < days; i += 7)` turns `ceil(days / 7)` times |
| MoodAnalytics.SummaryTotals | cohabitify/backend/routes/moods.js:241-249 | the counts and the day buckets each add up to the total |
| MoodAnalytics.Summarize | cohabitify/backend/controllers/moodController.js:92-145 | the report is the analytics of the entries with the handler's weekly windows, and its counts and buckets add up to the total |
| MoodRoutes.ReplaceKeepsValid | cohabitify/backend/routes/moods.js:124-129 | saving a patched entry accepted by the schema keeps the log valid |
| MoodRoutes.RemoveKeepsValid | cohabitify/backend/routes/moods.js:146-164 | deleting an entry keeps the log valid and removes its id |
| MoodRoutes.AppendKeepsValid | cohabitify/backend/routes/moods.js:66-75 | a new entry with the next id keeps the log valid |
| MoodRoutes.MoodLog.constructor | cohabitify/backend/models/Mood.js:3-37 | an empty, valid log |
| MoodRoutes.MoodLog.GetMoods | cohabitify/backend/routes/moods.js:11-32 | the query with limit 30 when none is given: the newest matching entries of the caller |
| MoodRoutes.MoodLog.CreateMood | cohabitify/backend/routes/moods.js:37-87 | 400 on validation, 500 when the trimmed notes or a tag exceed the schema's UTF-16 limits, else the new entry is stored last and returned |
| MoodRoutes.MoodLog.UpdateMood | cohabitify/backend/routes/moods.js:92-141 | 400, 404 for someone else's or a missing entry, 500 exactly when the trimmed notes or a tag are too long for the schema in UTF-16 units, else the patched entry in place |
| MoodRoutes.MoodLog.DeleteMood | cohabitify/backend/routes/moods.js:146-164 | 404, else the entry is removed and no entry keeps its id |
| MoodRoutes.MoodLog.Analytics | cohabitify/backend/routes/moods.js:169-254 | the analytics of the fetched entries over `days` (30 by default), weeks placed as the handler places them |
| ClientLists.Prepend | cohabitify/src/contexts/DataContext.tsx:326-338 | `[x, ...prev]` puts the new record first and keeps the rest |
| ClientLists.MapWhere | cohabitify/src/contexts/DataContext.tsx:340-342 | records with the id are merged, the others kept, at the same places |
| ClientLists.RemoveWhere | cohabitify/src/contexts/DataContext.tsx:344-346 | exactly the records with other ids remain, each as often as before |
| ClientLists.MapWhereAbsent | cohabitify/src/contexts/DataContext.jsx:207-209 | updating an id no record has changes nothing |
| ClientLists.MapWhereKeys | cohabitify/src/contexts/DataContext.tsx:340-342 | a merge that keeps the id keeps every id |
| ClientLists.RemoveWhereAbsent | cohabitify/src/contexts/DataContext.jsx:211-213 | deleting an id no record has changes nothing |
| ClientLists.AddThenRemove | cohabitify/src/contexts/DataContext.tsx:326-346 | deleting a record just added under a fresh id restores the list |
| ClientLists.RemoveWhereIdempotent | cohabitify/src/contexts/DataContext.tsx:344-346 | deleting twice is deleting once |
| ClientLists.RemoveWhereSplit | cohabitify/src/contexts/DataContext.tsx:344-346 | the delete keeps the order of the records it keeps |
| ClientData.DifficultyPoints | cohabitify/src/contexts/DataContext.tsx:326-338 | easy, medium and hard habits are worth 10, 15 and 20 points |
| ClientData.AddHabit | cohabitify/src/contexts/DataContext.tsx:326-338 | the new habit comes first with the draft's fields, the id, the creation date, no check-ins, streaks 0 and its points |
| ClientData.MergeHabitLaws | cohabitify/src/contexts/DataContext.jsx:207-209 | merging an update twice is merging it once; two merges are the merge of the combined update |
| ClientData.UpdateHabit | cohabitify/src/contexts/DataContext.tsx:340-342 | habits with the id get the update, others stay; ids stay unless the update sets one |
| ClientData.DeleteHabit | cohabitify/src/contexts/DataContext.tsx:344-346 | exactly the habits with other ids remain, each as often as before |
| ClientData.CheckDate | cohabitify/src/contexts/DataContext.tsx:349 | the date given, or today when it is missing or empty |
| ClientData.CheckedIn | cohabitify/src/contexts/DataContext.tsx:352-366 | one completed check-in appended, streak + 1, longest the max of both, marked completed with that date, nothing else changed |
| ClientData.CheckInTwice | cohabitify/src/contexts/DataContext.jsx:215-239 | two check-ins on one date record two check-ins and add two streak days |
| ClientData.HabitsCheckedIn | cohabitify/src/contexts/DataContext.tsx:352-369 | the habits with the id are checked in, the others stay, ids unchanged |
| ClientData.StreakTarget | cohabitify/src/contexts/DataContext.tsx:386-398 | Week Warrior needs 7 days and Month Master 30; no other badge has a target |
| ClientData.Award | cohabitify/src/contexts/DataContext.tsx:378-400 | an earned badge stays; First Step is earned at exactly one check-in; a streak badge is earned at its target or records the streak as progress |
| ClientData.FindHabit | cohabitify/src/contexts/DataContext.tsx:375-376 | the first habit with the id, none exactly when no habit has it |
| ClientData.AwardBadges | cohabitify/src/contexts/DataContext.tsx:374-402 | no habit means no change; else every badge is judged on that habit |
| ClientData.CheckInHabitAsWritten | cohabitify/src/contexts/DataContext.tsx:348-402 | as written: the habits are checked in, but the badges are judged on the habits before the check-in |
| ClientData.CheckInHabit | cohabitify/src/contexts/DataContext.tsx:348-402 | the habits are checked in and the badges are judged on the checked-in habit |
| ClientData.FindSameIds | cohabitify/src/contexts/DataContext.tsx:375 | lists with the same ids find the same habit |
| ClientData.FindAfterCheckIn | cohabitify/src/contexts/DataContext.tsx:352-375 | the check-in does not change which habit the lookup finds |
| ClientData.FirstStepLateAsWritten | cohabitify/src/contexts/DataContext.tsx:374-383 | as written, a habit's first check-in leaves First Step unearned |
| ClientData.WeekWarriorLateAsWritten | cohabitify/src/contexts/DataContext.tsx:385-390 | as written, the check-in reaching a 7-day streak leaves Week Warrior unearned |
| ClientData.JudgedAfterCheckIn | cohabitify/src/contexts/DataContext.jsx:215-269 | each badge is judged on the habit with the new check-in |
| ClientData.FirstStepOnFirstCheckIn | cohabitify/src/contexts/DataContext.tsx:381-383 | a habit's first check-in earns First Step today |
| ClientData.StreakBadgeOnTarget | cohabitify/src/contexts/DataContext.tsx:385-398 | a streak badge is earned on the check-in that reaches its target, and otherwise records the new streak as progress |
| ClientData.CreateHabitDuel | cohabitify/src/contexts/DataContext.tsx:404-418 | an active duel without winner comes first, from today to `duration` days later |
| ClientData.UpdateHabitDuel | cohabitify/src/contexts/DataContext.tsx:420-422 | duels with the id get the update, others stay |
| ClientData.AddRoommate | cohabitify/src/contexts/DataContext.tsx:425-428 | the roommate comes first with the given fields and id |
| ClientData.UpdateRoommate | cohabitify/src/contexts/DataContext.tsx:430-432 | roommates with the id get the update, others stay |
| ClientData.RemoveRoommate | cohabitify/src/contexts/DataContext.tsx:434-436 | exactly the roommates with other ids remain, each as often as before |
| ClientData.AddSecret | cohabitify/src/contexts/DataContext.tsx:439-442 | the secret comes first with the given fields and id |
| ClientData.UpdateSecret | cohabitify/src/contexts/DataContext.tsx:444-446 | secrets with the id get the update, others stay |
| ClientData.DeleteSecret | cohabitify/src/contexts/DataContext.tsx:448-450 | exactly the secrets with other ids remain, each as often as before |
| ClientData.AddMood | cohabitify/src/contexts/DataContext.tsx:453-456 | the mood comes first with the given fields and id |
| ClientData.UpdateMood | cohabitify/src/contexts/DataContext.tsx:458-460 | moods with the id get the update, others stay |
| ClientData.DeleteMood | cohabitify/src/contexts/DataContext.tsx:462-464 | exactly the moods with other ids remain, each as often as before |
| ClientData.AddThenDeleteHabit | cohabitify/src/contexts/DataContext.jsx:193-213 | deleting a habit just added under a fresh id gives back the habits before |
| ClientData.UpdateAbsentHabit | cohabitify/src/contexts/DataContext.jsx:207-209 | updating a habit id nobody has changes nothing |

## Left out

- Floating point: the average streak of the habit analytics and the average intensity of the mood analytics are not modelled. A weekly trend carries the sum of its scores and its count, not the rounded average.
- `populate`, `save`, `findOne` and `find` are operations on in-memory sequences. Unique indexes are checks over the collection. A code collision at save time is a 500 `Fail`.
- Authentication (`auth` middleware) and the user object: the caller is a user id parameter.
- Time zones: a day is the timestamp divided by 86 400 000, as for UTC. Local midnight truncation and `toISOString` day keys are both that day number. Day keys are numbers, not `YYYY-MM-DD` strings.
- `parseInt` returning `NaN`, invalid dates, and `isBoolean` coercing strings such as `"true"` are not modelled. Numeric fields are integers or absent; `IntField` covers the string forms `isInt` accepts.
- The `isArray` check on mood tags: tags are a sequence of strings by type.
- HTTP statuses 200 and 201 are both `Ok`.
- Concurrency between requests: each handler runs to completion on its own.
- The order Mongo gives to documents with equal sort keys: the model uses a stable sort over insertion order.
- MoodAnalytics.Summarize: the handler's single `forEach` is split into separate passes (counts, then day buckets). Each pass is the same loop restricted to one output.
- ClientData: ids and timestamps come from `Date.now()` and `new Date()`, so they are parameters. `createHabitDuel`'s two clock reads are taken to be the same instant, and ISO date formatting is the parameter `dateOf`.
- ClientData.CheckInHabit, ClientData.CheckInHabitAsWritten, ClientData.Award: `checkInHabit` reads the clock for the check-in date and `checkAndAwardBadges` reads it again for each badge's `earnedDate`. The model uses one `today` for all of these reads, so a check-in that spans midnight is not modelled.
- ClientData.Award: the source's `!badge.earnedDate` treats an empty-string `earnedDate` as unearned. The model stores `earnedDate` as an `Option`, where `Some("")` counts as earned; the source never writes an empty date itself.
- ClientData: a spread of an update whose field is present but `undefined` is not distinguished from an absent field. Patches are `Option` fields.
- ClientData: persistence to `localStorage` and the React rendering cycle are not modelled.
- HabitModel.Habit.UpdateStreak: the streak quirks of the source are kept. `StreakFindings` states the intended value beside it, and the stored value is not corrected.
- Text.Trim: `IsSpace` covers the six ASCII white-space characters only. JavaScript's `trim` also drops Unicode white space such as U+00A0 and U+FEFF, and line terminators such as U+2028.
- HabitRoutes.HabitStore.CompleteHabit: the handler reads the clock three times (for "today", for the new completion's date, and inside `updateStreak`). The model takes one instant `now` for all three, so a request that spans midnight is not modelled.
- The authentication, roommate and support routes, the service wrappers and the pages are not part of this model.

## Findings

| source | as written | input that shows it | evidently intended | confidence | as-written member | corrected member |
|---|---|---|---|---|---|---|
| cohabitify/backend/routes/moods.js:217-239 | each week runs from `i + 6` days before now to `i` days before now, so the day between `i + 7` and `i + 6` days back belongs to no week (the same loop is at cohabitify/backend/controllers/moodController.js:115-130) | a mood dated six days and one millisecond before now, with `days = 14`: it is fetched, but it is counted in no weekly trend | consecutive weeks that meet edge to edge, so every moment of the last `7 * ceil(days / 7)` days, up to now, falls in exactly one week (entries dated after now, or exactly `days` days back when `days` is a multiple of 7, still fall in none) | not executed | MoodAnalytics.WeekGapAsWritten | MoodAnalytics.TiledWeeksCover |
| cohabitify/backend/models/Habit.js:94-113 | the streak walk starts no run when the newest completion is stale but lets the next step raise `tempStreak` from 0 to 1 and copy it into `current`; and it copies `tempStreak` into `current` only at `i === 1`, so `current` never exceeds 2 | completions ten and eleven days before today give current 1 (and longest 1); completions today, yesterday and the day before give current 2 | the current streak is the run of consecutive days ending today or yesterday (0 when the newest completion is older), and the longest streak is the longest run | not executed | StreakFindings.StaleRunAsWritten | StreakFindings.FixedStreakIsIntended |
| cohabitify/src/contexts/DataContext.tsx:348-402 | `checkAndAwardBadges` finds the habit in the `habits` captured before `setHabits` applies the check-in (the same at cohabitify/src/contexts/DataContext.jsx:215-269) | the first check-in of a habit with no check-ins: the badge sees zero check-ins, so First Step is unearned. Likewise a habit at streak 6 does not earn Week Warrior on the check-in that brings it to 7 | badges judged on the habit including the check-in just made | not executed | ClientData.CheckInHabitAsWritten | ClientData.CheckInHabit |
