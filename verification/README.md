# Habit tracker core: a verified Dafny model

This project models the small pieces of sequential logic in a personal habit-tracking web app. The app keeps a list of habits and, for each day, the ids of the habits marked done. It mirrors both into the browser's local storage and into one cloud document per signed-in user. Two maintenance scripts read a `.env` file by hand and summarise an exported document day by day.

The model has six modules, one per concern:

- `JsString` holds the two ECMAScript string primitives the code relies on: `String.prototype.trim`, with the ECMAScript whitespace set, and `String.prototype.split` with a one-character separator. `Split` is proved to be the inverse of `Join`. `Trim` is proved to be the unique "strip whitespace at both ends" result.
- `EnvLoader` is the `.env` reader `loadEnv`. The two scripts carry character-for-character the same parser; they differ only in their comments and in the text of the error message printed when the file is missing. The one function `EnvLoader.LoadEnv` therefore models both copies, `scripts/export_data.js:10-26` and `scripts/analyze_history.js:7-23`. Rows below cite whichever copy is clearer for the line concerned, and every row holds for both.
- `HabitTracker` holds the pure transitions of the tracker screen: `addHabit`, `deleteHabit`, `toggleHabit` and `getProgress`.
- `CloudSync` holds the screen's event handlers as one atomic state machine. The events are start-up (the mount effect's load of the local cache, followed in the same commit by the signed-out branch of the sync effect), sign-in, sign-out, the snapshot callbacks of the document subscription, the three mutations, and the save that follows each mutation. The state is a record that holds:
  - the user;
  - the habits and the completions;
  - the `loaded` gate (`isDataLoaded`);
  - the loading flag and the error message;
  - the local cache;
  - the cloud documents keyed by user id.

  The clock, the `Date.now()` id and the outcome of the remote write are parameters of the events. In the source, each of `addHabit`, `deleteHabit` and `toggleHabit` updates the state and then calls `saveToFirebase`. The model splits this into the mutation event (`Add`, `Delete`, `Toggle`) followed by a `Save` event. A blank `Add` returns early in the source, so no `Save` follows it there.
- `HistoryAnalysis` is the `dailyBreakdown` construction of the history script over its four target dates.
- `Wrappers` holds `Option` and `Result`.

The cloud store's write is `setDoc(..., { merge: true })`. Under that write, fields absent from the payload keep their stored values. A nested map in the payload is merged key by key into a stored map, except that an empty map replaces the stored one. Array values, and values that are not maps, are replaced. `CloudSync.MergeWrite` states this, and it is why stored days that are missing locally survive a save of `completions`.

Every mount, the first or one after a page reload, starts from the `useState` initial values, with the gate (`isDataLoaded`) closed and no error; only the local cache and the cloud carry over. On mount, the fallback load and the sync effect's `!user` branch run in the same commit, so the cached habits and completions are replaced by empty ones before anything is shown. The cache is read but never displayed before sign-in, and it never reaches a new user's document. `CloudSync.Startup` and `CloudSync.StartupShowsNoCache` state this.

## Model

| member | source | states |
|---|---|---|
| `JsString.TrimSpec` | scripts/export_data.js:18 | `trim` (trimStart then trimEnd) gives `s` with its leading and trailing whitespace removed (ECMAScript WhiteSpace and LineTerminator), with none left at either end |
| `JsString.TrimUnique` | scripts/export_data.js:18 | any string that is a whitespace-free-ended slice of `s` with only whitespace around it is exactly `Trim(s)` |
| `JsString.TrimEmptyIff` | src/components/habit-tracker.tsx:247 | `trim` gives the empty string exactly when the input is all whitespace |
| `JsString.TrimIdempotent` | scripts/export_data.js:18 | trimming twice is trimming once |
| `JsString.Split` | scripts/export_data.js:15-16 | `split` with a one-character separator gives at least one piece, no piece contains the separator, and joining the pieces back gives the input |
| `JsString.SplitJoin` | scripts/export_data.js:16 | splitting undoes joining when no piece contains the separator |
| `JsString.SplitSnoc` | scripts/export_data.js:15 | appending a separator and a separator-free line appends exactly that line to the pieces |
| `EnvLoader.StripQuotes` | scripts/export_data.js:18 | one `"` or `'` is removed at the start and one at the end, each independently and without needing a matching pair; a lone quote becomes empty |
| `EnvLoader.StripQuotesUnquoted` | scripts/export_data.js:18 | a value with no quote at either end is returned unchanged |
| `EnvLoader.StripQuotesExamples` | scripts/export_data.js:18 | mismatched quotes are stripped, only one quote per end is removed, and inner quotes stay |
| `EnvLoader.ParseLine` | scripts/export_data.js:16-18 | a line without `=` yields nothing; a stored key and value never contain `=`; the key has no outer whitespace |
| `EnvLoader.ParseLineShape` | scripts/export_data.js:16-17 | a line `key=seg` followed by nothing or by a second `=` and more yields an entry iff `key` and `seg` are non-empty before trimming; the entry is the trimmed key and the quote-stripped trimmed segment |
| `EnvLoader.ValueTruncatedAtSecondEquals` | scripts/export_data.js:16 | everything from the second `=` on is dropped from the value |
| `EnvLoader.BlankKeyIsEmptyKey` | scripts/export_data.js:17-18 | a whitespace-only key passes the emptiness test, which runs before trimming, and is stored under the empty key |
| `EnvLoader.BlankValueIsEmptyValue` | scripts/export_data.js:17-18 | a whitespace-only value passes the emptiness test and is stored as the empty string |
| `EnvLoader.Assign` | scripts/export_data.js:18 | one line's entry sets its key and leaves every other key alone; the key `__proto__` is never stored, because a plain object's prototype setter ignores string values |
| `EnvLoader.Collect` | scripts/export_data.js:14-20 | the object built from the lines never holds the `__proto__` key |
| `EnvLoader.CollectDomain` | scripts/export_data.js:15-18 | a key is present iff some line yields an entry for it and it is not `__proto__` |
| `EnvLoader.CollectFromLines` | scripts/export_data.js:15-18 | every stored key comes from a line that is the last one defining that key |
| `EnvLoader.CollectLastWins` | scripts/export_data.js:15-18 | the value stored for a key is that of the last line defining it |
| `EnvLoader.LoadEnv` | scripts/analyze_history.js:7-23 | over a whole file, `__proto__` is never a key of the result |
| `EnvLoader.LoadEnvClean` | scripts/analyze_history.js:12-17 | no stored key or value contains `=` or a line feed, since the file is split on line feeds and every line on `=` |
| `EnvLoader.LoadEnvDomain` | scripts/analyze_history.js:12-17 | over the lines of a whole file, a key is present iff some line defines it and it is not `__proto__` |
| `EnvLoader.LoadEnvLastDefinitionWins` | scripts/analyze_history.js:12-17 | over the lines of a whole file, the value of a key is that of the last line defining it |
| `EnvLoader.LaterLineWins` | scripts/export_data.js:15-18 | a line appended to the file overrides the earlier value of its key and leaves the other keys alone |
| `EnvLoader.IgnoredLineChangesNothing` | scripts/export_data.js:17 | an appended line that yields no entry leaves the result unchanged |
| `HabitTracker.AddHabit` | src/components/habit-tracker.tsx:245-256 | blank input leaves the habits unchanged; otherwise exactly one habit is appended at the end, with the given id and the trimmed, non-empty text |
| `HabitTracker.DeleteHabit` | src/components/habit-tracker.tsx:259-262 | the result holds exactly the habits whose id differs, none with that id, and is the input itself when no habit had the id |
| `HabitTracker.DeleteHabitConcat` | src/components/habit-tracker.tsx:260 | deletion distributes over concatenation, so the surviving habits keep their relative order |
| `HabitTracker.DeleteUndoesAdd` | src/components/habit-tracker.tsx:247-262 | deleting the id of a habit just added, under a fresh id, restores the previous list |
| `HabitTracker.RemoveAll` | src/components/habit-tracker.tsx:271 | every occurrence of the id is removed and every other id keeps its multiplicity |
| `HabitTracker.ToggleHabit` | src/components/habit-tracker.tsx:265-273 | the id is appended when absent from the day's list and all its occurrences are removed when present; the day's key exists afterwards; other days are untouched |
| `HabitTracker.ToggleTwiceRestoresMembership` | src/components/habit-tracker.tsx:266-273 | toggling the same id on the same day twice restores whether it is done, and other days stay untouched |
| `HabitTracker.ToggleTwiceFromAbsent` | src/components/habit-tracker.tsx:267-271 | when the id was not done, toggling twice gives back exactly the original day list |
| `HabitTracker.ToggleTwiceFromPresentReorders` | src/components/habit-tracker.tsx:269-271 | when the id was done, toggling twice moves it to the end, so the list itself can differ |
| `HabitTracker.Progress` | src/components/habit-tracker.tsx:278-282 | 0 for an empty habit list; otherwise 100 times the day's completion count over the habit count, rounded half up |
| `HabitTracker.ProgressNearest` | src/components/habit-tracker.tsx:281 | over the reals, the exact percentage `100d/n` lies in `[r - 1/2, r + 1/2)`: the nearest integer, ties going up |
| `HabitTracker.ProgressAtMost100` | src/components/habit-tracker.tsx:279-281 | with no more completion ids than habits, the result is at most 100 |
| `HabitTracker.ProgressCanExceed100` | src/components/habit-tracker.tsx:278-281 | dangling completion ids, matching no habit, still count, so the result can pass 100 |
| `HabitTracker.ProgressAfterToggle` | src/components/habit-tracker.tsx:265-281 | with one habit, progress is 0 before the toggle and 100 after it |
| `CloudSync.LoadFallback` | src/components/habit-tracker.tsx:128-132 | cached habits and completions, when stored, replace the shown ones; the gate, the user and the cloud are untouched |
| `CloudSync.Startup` | src/components/habit-tracker.tsx:128-152 | a mount, first or after a reload, starts afresh (gate closed, no error, as the `useState` initial values at lines 54-55 give), then the fallback load is followed by the signed-out branch: no user, no habits, no completions, not loading; only the stored cache and the cloud carry over |
| `CloudSync.SignIn` | src/components/habit-tracker.tsx:134-156 | sign-in sets the user and the loading flag and resets nothing: habits, completions and the gate stay as they were |
| `CloudSync.SignOut` | src/components/habit-tracker.tsx:148-152 | sign-out empties habits and completions, keeps the local cache and leaves the gate as it was |
| `CloudSync.ApplySnapshot` | src/components/habit-tracker.tsx:158-173 | with a user, the gate opens and the error clears; present fields replace state and cache; a missing document or field keeps them; without a user nothing changes |
| `CloudSync.SnapshotError` | src/components/habit-tracker.tsx:174-178 | the error callback sets the sync error message and never opens the gate; data, cache and cloud are untouched |
| `CloudSync.Payload` | src/components/habit-tracker.tsx:204-210 | a save writes exactly the fields habits, completions, lastUpdated, email and name |
| `CloudSync.MergeWrite` | src/components/habit-tracker.tsx:204-210 | fields outside the payload keep their stored values; payload values replace stored ones, except that a non-empty day map merged into a stored day map gives the stored days overridden by the payload's days |
| `CloudSync.SaveToCloud` | src/components/habit-tracker.tsx:195-219 | with no user or a closed gate nothing changes; otherwise both cache entries are written, and the merge lands in the user's document only (error cleared) or fails (cloud unchanged, error set) |
| `CloudSync.Handle` | src/components/habit-tracker.tsx:158-276 | for the events other than start-up, sign-in and sign-out (those are handled in `Step`): the user is kept; only a snapshot with a user opens the gate; only a successful save with an open gate changes the cloud; only a snapshot or a save through an open gate, successful or not, changes the cache; `Add` and `Delete` change only the habits and `Toggle` only the completions, each exactly as `addHabit`, `deleteHabit` and `toggleHabit` do, so deleting a habit does not cascade to its completion ids |
| `CloudSync.DeleteLeavesCompletions` | src/components/habit-tracker.tsx:259-281 | deleting a habit keeps the completions, so with two habits both done on a day, deleting one turns that day's progress from 100 into 200 |
| `CloudSync.Step` | src/components/habit-tracker.tsx:128-276 | over every event, start-up included, as written: only a snapshot with a user opens the gate, and only a save with an open gate writes the cloud |
| `CloudSync.StepGated` | src/components/habit-tracker.tsx:147-156 | the corrected step: a change of identity (start-up, sign-in, sign-out) closes the gate, and the other guarantees of `Step` still hold |
| `CloudSync.GatedLoadedIff` | src/components/habit-tracker.tsx:171-196 | with the correction, after any events from the initial state the gate is open iff a snapshot arrived while a user was signed in and the identity has not changed since |
| `CloudSync.GatedSaveNeedsSnapshot` | src/components/habit-tracker.tsx:196 | with the correction, a save that changes the cloud happens only for a signed-in user whose own snapshot has been received |
| `CloudSync.AsWrittenGateSurvivesIdentityChange` | src/components/habit-tracker.tsx:148-152 | as written, a sign-out followed by a sign-in leaves the gate exactly as it was |
| `CloudSync.AsWrittenSavesBeforeSnapshot` | src/components/habit-tracker.tsx:196 | as written, after the mount and user A's session, user B adds a habit before B's snapshot, and the save replaces whatever habit list B's cloud document held with that single habit |
| `CloudSync.SaveAfterRun` | src/components/habit-tracker.tsx:196-210 | whenever a trace leaves the gate open, a successful save appended to it stores the shown habit list as the `habits` field of the signed-in user's document |
| `CloudSync.GatedKeepsCloudOnSwitch` | src/components/habit-tracker.tsx:196 | with the correction, the same events leave the cloud unchanged |
| `CloudSync.SaveThenEchoSnapshot` | src/components/habit-tracker.tsx:158-210 | the snapshot echoing a successful save shows the saved habits exactly and every saved day's list; stored days missing locally come back unchanged when local completions are non-empty; with no stored day map it shows exactly the saved completions |
| `CloudSync.ReloadClosesGate` | src/components/habit-tracker.tsx:128-152 | as written, a reload after any events closes the gate, clears the error and shows no habits, keeping only the stored cache |
| `CloudSync.StartupShowsNoCache` | src/components/habit-tracker.tsx:128-152 | after start-up alone, as written and corrected, no habits and no completions are shown whatever the cache holds, and the cache itself is kept |
| `CloudSync.CachedHabitsNotSaved` | src/components/habit-tracker.tsx:128-210 | cached habits never reach a new user's document, both as written and with the correction: after start-up, sign-in, a snapshot with no document and one added habit, the save stores exactly that one habit |
| `HistoryAnalysis.CategoryOf` | scripts/analyze_history.js:63 | a missing or empty category becomes "General"; any other category is kept |
| `HistoryAnalysis.NoteFor` | scripts/analyze_history.js:55 | the day's note, or the empty string when the day has none |
| `HistoryAnalysis.DayHabits` | scripts/analyze_history.js:53 | exactly the habits whose `createdAt` equals the date, with their multiplicities |
| `HistoryAnalysis.DayHabitsConcat` | scripts/analyze_history.js:53 | the filter distributes over concatenation, so the day's habits keep their original order |
| `HistoryAnalysis.CountCompleted` | scripts/analyze_history.js:59 | the completed count never exceeds the number of the day's habits |
| `HistoryAnalysis.Tasks` | scripts/analyze_history.js:60-64 | one line per day habit in order, with its text, a status that is the string "DONE" exactly when its id is in the day's completions and "PENDING" otherwise, and its category with the default applied |
| `HistoryAnalysis.CompletedMatchesDoneLines` | scripts/analyze_history.js:59-62 | the completed count equals the number of DONE lines |
| `HistoryAnalysis.ForeignIdsIgnored` | scripts/analyze_history.js:54-59 | a completion id that none of the day's habits has does not change the completed count |
| `HistoryAnalysis.Report` | scripts/analyze_history.js:53-66 | total is the number of the day's habits, `0 <= completed <= total`, one task per habit, and the note has its default |
| `HistoryAnalysis.DailyBreakdown` | scripts/analyze_history.js:50-67 | with all three fields present, one report per date and no other key; with a date to process, a missing habits, completions or notes field fails in that order |
| `HistoryAnalysis.TargetBreakdownKeys` | scripts/analyze_history.js:30-57 | the script's breakdown has exactly the keys 2026-01-18 to 2026-01-21 |

## Findings

| source | as written | input that shows it | evidently intended | confidence | as-written member | corrected member |
|---|---|---|---|---|---|---|
| src/components/habit-tracker.tsx:148-156 | `isDataLoaded` is set by the first successful snapshot and never reset, neither on sign-out nor on sign-in, so the guard at line 196 stays open across identities | the screen mounts, A signs in, a snapshot arrives, A signs out, B signs in, B adds a habit before B's snapshot arrives: the merge write replaces the `habits` array of B's existing document with that one habit | the guard's own comment says to stop saving until the cloud data has loaded, so the gate should close on every identity change and reopen only on the new user's snapshot | medium (not executed) | `CloudSync.AsWrittenSavesBeforeSnapshot` | `CloudSync.GatedSaveNeedsSnapshot` |

`CloudSync.Step` models the code as written. `CloudSync.StepGated` is the corrected step, and the trace results about the gate (`GatedLoadedIff`, `GatedSaveNeedsSnapshot`) are stated over it. `StartupShowsNoCache` and `CachedHabitsNotSaved` hold under both.

## Left out

- Firebase plumbing is left out: `doc`, `onSnapshot`, `setDoc`, `signInWithPopup`, `signOut`, `onAuthStateChanged` and unsubscription. It appears only as events and as the merge semantics of a write. A failed sign-in, which only sets an error message, is not modelled.
- `localStorage` is an abstract cache of already-decoded values. `JSON.parse` and `JSON.stringify` are not modelled. A malformed cache entry makes the start-up effect throw, which skips the auth listener; that is not modelled. A failing `localStorage.setItem` inside a save, which would skip the remote write and set the error, is not modelled.
- `CloudSync.ApplySnapshot`: a `habits` or `completions` field that is truthy but not an array or a map would be adopted as is by the code. The model treats such a field as absent, because the state holds only typed habit lists and day maps.
- Display-only state is not modelled: `lastSynced`, `isSyncing`, `isLoading`, theme, language, and all rendering, calendar and date formatting.
- "Today" (`toISOString().split('T')[0]`), the `Date.now()` id and the save timestamp are event parameters.
- Async ordering is not modelled: each handler is one atomic step, and a late snapshot racing an optimistic update is just another event in the trace. The outcome of the remote write is the `ok` parameter of `Save`.
- `HabitTracker.Progress`: exact rational rounding half up, `(200d + n) / (2n)`. The code divides floating-point numbers before `Math.round`. For exact ties such as 57 of 200 it may round down, because `57 / 200 * 100` is slightly below 28.5 in binary floating point.
- JavaScript strings are sequences of UTF-16 code units. The model uses Unicode scalar values, so `trim` and `split` agree except on unpaired surrogates.
- Object keys are plain strings. A day key or an exported field named `__proto__` would behave differently in JavaScript. This is modelled only for the `.env` keys, where it is reachable from file contents.
- Script I/O is not modelled: reading `.env` and `user_data.json`, `process.exit`, console output, the empty-habits warning, and the Firebase and Gemini calls.
- `HistoryAnalysis.DailyBreakdown`: the exported document is assumed well typed. Habits are records with string `id` and `text`, and completions are lists of strings. Other JSON shapes are not modelled.
- `src/lib/gemini.ts`, `src/lib/google-sheets.ts` and `src/main.tsx` are thin wrappers over libraries and are not part of this model.
