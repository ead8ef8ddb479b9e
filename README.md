# TimeTracker Pro: the tracker engine in Dafny

TimeTracker Pro is a single-page time tracker. One `TimeTracker` object
(`app.js`) holds `this.data`: the list of projects, the list of recorded work
sessions, the active project and one timer (`currentTimer`: running flag,
start time, frozen elapsed time, session name). The user selects a project,
starts the timer with a session name, pauses, starts again and stops. A stop
records a work session when at least a second was timed. Deleting a project
also deletes its sessions. The whole of `this.data` is written to
`localStorage` after each change and merged back in on the next page load.

This project models that engine without its DOM, interval and storage calls:

- `domain.dfy` (module `Domain`): the entities as datatypes, the initial state,
  the constants (1000 ms minimum session, `"Untitled Session"`), and the
  JavaScript truthiness of `startTime` (null and 0 are falsy) and of
  `activeProject` (null and `""` are falsy).
- `js_text.dfy` (module `JsText`): `String.prototype.trim` over the ECMAScript
  WhiteSpace and LineTerminator characters, `Number.prototype.toString` on
  integers, `padStart`, and a reader of digit strings used to state round trips.
- `time_format.dfy` (module `TimeFormat`): `formatTime`, with `Math.floor` and
  JavaScript's truncating `%` written out.
- `sessions.dfy` (module `Sessions`): the `filter` and `reduce` calls behind
  `getProjectSessions`, `getProjectTotalTime` and `deleteProject`, and what
  they preserve (order, partition, totals, unique ids).
- `engine.dfy` (module `Engine`): each operation as a function from the old
  `this.data` to the new one, the validation errors of `startTimer`, the
  invariant every operation keeps, and lemmas that relate operations
  (stop after stop, pause then start, start–pause–stop, delete cascade).
- `persistence.dfy` (module `Persistence`): `loadData`'s shallow merge
  `{ ...this.data, ...parsed }` and `saveData`, with storage and JSON abstract.
- `tracker.dfy` (module `Tracker`): the class `TimeTracker`, whose fields are
  the fields of `this.data` (with `currentTimer` spread into four fields).
  Its methods update those fields statement by statement as the source does.
  Each method is specified by the matching `Engine` function applied to the
  state it started from.

`Date.now()` is the parameter `now`. An id that `generateId` would make is a
parameter (`sessionId`, `id`). The text of the session-name input box is the
parameter `sessionInput`. Timestamps and durations are integer milliseconds.

The model follows the code where it differs from what its comments or UI suggest:

- `pauseTimer` (`app.js:103-120`) keeps `startTime`; it does not clear it. A
  stop after a pause therefore records a session whose `startTime` is the last
  start instant minus the time accumulated before it, so `endTime - startTime`
  exceeds `duration` by the time since the last pause
  (`Engine.StoppedSessionInterval`). For example, start at 10000, pause at
  20000, start at 50000, pause at 60000 and stop at 100000: the session has
  `startTime` 40000, `endTime` 100000 and `duration` 20000.
- `createProject` (`app.js:222-233`) does not reject an empty name. Only the
  button handler checks the name (`app.js:446-455`), so `Engine.CreateProject`
  accepts any name and trims it.
- A running timer whose start time is exactly 0 counts as having no start time,
  as JavaScript truthiness makes it. `Engine.StartPauseStop` therefore asks
  for a non-zero start instant.

## Model

| member | source | states |
|---|---|---|
| Domain.StartTimeSet | app.js:129 | A start time counts as set only when present; a start time of 0 counts as unset, and every other present value as set. |
| Domain.ProjectSelected | app.js:56 | A project counts as selected only when present; the empty id counts as unselected, and every other present id as selected. |
| Engine.StartTimer | app.js:55-70 | Succeeds exactly when a project is selected and the trimmed input is non-empty. Otherwise it fails with `NoProjectSelected`, checked first, or else `MissingSessionName`, and changes nothing. On success the timer runs, the name is the trimmed input, and `now - startTime` equals the time already accumulated. Projects, sessions and selection are unchanged. |
| Engine.StartTimerRefusesExactly | app.js:56-65 | `startTimer` refuses exactly when no project is selected or every character typed is whitespace. |
| Engine.ResumeTimer | app.js:90-96 | Recomputing the start time after a reload gives back the same state, so the time the page was closed counts as elapsed. |
| Engine.PauseTimer | app.js:103-110 | A no-op unless running. Otherwise the timer is no longer running and `elapsedTime` becomes `now - startTime` when a start time is set. Start time, name and all other data are kept. |
| Engine.ResetTimer | app.js:157-161 | The timer becomes idle and nothing else changes. |
| Engine.StopTimer | app.js:122-148 | A no-op when nothing was accumulated and the timer is not running. Otherwise the timer ends idle. Exactly one session is appended iff the final duration is at least 1000 ms, with the given id, the active project, the name (or `Untitled Session`), `endTime == now` and that duration. Earlier sessions, projects and selection are unchanged. |
| Engine.StopTwiceIsNoOp | app.js:122-125 | After a stop or a reset, the stop guard holds, so a second stop changes nothing and records nothing. |
| Engine.DisplayedTime | app.js:176-182 | While the timer runs with a start time, the displayed time is the time since that start. Otherwise it is the accumulated time when that is positive, and 0 when it is not. |
| Engine.FinalDuration | app.js:128-131 | The duration a stop records equals the displayed time whenever it is positive; they differ only when the accumulated time is not positive and the display shows 0. |
| Engine.StoppedSession | app.js:135-142 | The session built by a stop has the given id, the active project, `endTime == now`, the final duration and the timer's name, or `Untitled Session` when that name is empty. It starts at the timer's start time when one is set, and otherwise `duration` before `now`. |
| Engine.StoppedSessionInterval | app.js:135-142 | A recorded session starts at the timer's start time when one is set. When the timer was running, or had no start time, `endTime - startTime == duration`. |
| Engine.StopCreditsActiveProject | app.js:134-145 | A stop adds its final duration to the active project's total and changes no other project's total. |
| Engine.DisplayedTimeMonotone | app.js:176-182 | The displayed time never decreases as the clock advances. It stays fixed unless the timer runs with a start time. |
| Engine.StartKeepsDisplayedTime | app.js:67-69 | Starting a stopped timer whose accumulated time is not negative does not change the displayed time at that instant. |
| Engine.PauseKeepsDisplayedTime | app.js:106-110 | Pausing does not change the displayed time at that instant, when the clock is not behind the start time. |
| Engine.PauseThenStartRestores | app.js:103-110 | Pausing and starting again at the same instant with the same name restores the running timer with its original start time. |
| Engine.StartSelectedIdle | app.js:55-70 | Starting an idle timer on a newly selected project runs it from `now` with the trimmed name and no accumulated time. |
| Engine.PauseRunning | app.js:103-110 | Pausing a running timer that has a start time freezes `now - startTime` and changes nothing else. |
| Engine.StopPaused | app.js:122-148 | Stopping a paused timer that holds at least 1000 ms appends a session spanning from its start time to now with the frozen duration, then leaves the timer idle. |
| Engine.StartThenPause | app.js:55-110 | Select, start at `t0`, pause at `t1`: the timer is paused holding `t1 - t0`, with `t0` kept as its start. |
| Engine.StartPauseStop | app.js:55-148 | Select, start at `t0`, pause at `t1`, stop at `t2`: the new state is the old one with the project selected, exactly one session appended (the selected project, the trimmed input, from `t0` to `t2`, lasting `t1 - t0`) and the timer idle. |
| Engine.StartPauseStopTotal | app.js:55-148 | After such a run, the selected project's total has grown by exactly `t1 - t0`. |
| Engine.NewProject | app.js:223-227 | The new project has the given id, `createdAt == now`, and the trimmed name, which neither starts nor ends with whitespace. |
| Engine.CreateProject | app.js:222-229 | Appends exactly the new project and changes nothing else. |
| Engine.SelectProject | app.js:235-236 | Sets the active project and changes nothing else, not even the timer. |
| Engine.DeleteProject | app.js:250-261 | Keeps exactly the projects with another id and the sessions of other owners. Deleting the active project clears the selection and resets the timer without recording a session. Otherwise the selection and timer are unchanged. |
| Engine.DeleteProjectCascade | app.js:250-261 | After a delete, the deleted project has no sessions and a total of 0. Every other project keeps its sessions, in order, and its total. |
| Engine.DefaultStateValid | app.js:5-15 | The initial data satisfies the invariant: every session lasts at least 1000 ms and a running timer has a start time. |
| Engine.TimerOperationsKeepValid | app.js:55-172 | Start, pause, resume, reset and stop each keep the invariant. |
| Engine.ProjectOperationsKeepValid | app.js:222-261 | Create, select and delete each keep the invariant. |
| Engine.ProjectIdsStayUnique | app.js:222-261 | Project ids stay distinct across a delete, and across a create with a fresh id. |
| Sessions.SessionsOf | app.js:241-243 | The result holds exactly the sessions of the given project and is no longer than the input. |
| Sessions.SessionsExcept | app.js:255 | The result holds exactly the sessions of other owners and is no longer than the input. |
| Sessions.ProjectsExcept | app.js:252 | The result holds exactly the projects with another id and is no longer than the input. |
| Sessions.SessionsOfAppend | app.js:242 | The project filter distributes over concatenation, so it keeps the recorded order. |
| Sessions.SessionsExceptAppend | app.js:255 | The session-removal filter distributes over concatenation, so it keeps order. |
| Sessions.ProjectsExceptAppend | app.js:252 | The project-removal filter distributes over concatenation, so it keeps order. |
| Sessions.TotalDuration | app.js:247 | The sum of no sessions is 0, and the sum of one session is its duration. |
| Sessions.ProjectTotal | app.js:245-248 | A project without sessions has a total of 0. |
| Sessions.TotalDurationAppend | app.js:247 | The duration sum of a concatenation is the sum of the parts' sums. |
| Sessions.ProjectTotalAppend | app.js:241-248 | Recording one more session adds its duration to its own project's total and to no other. |
| Sessions.SessionsPartition | app.js:242-255 | The kept sessions and the removed sessions together are the original sessions, as a multiset. |
| Sessions.TotalDurationPartition | app.js:245-255 | The project's total plus everyone else's equals the total of all sessions. |
| Sessions.SessionsOfAfterExcept | app.js:241-255 | After one project's sessions are removed, that project has none left and every other project has exactly the sessions it had. |
| Sessions.TotalDurationAtLeast | app.js:245-248 | A total of sessions each lasting at least `least` is at least `least` times their number. |
| Sessions.ProjectTotalBounds | app.js:245-248 | A project's total is 0 with no sessions, non-negative when no duration is negative, and at least 1000 ms per session under the invariant. |
| Sessions.ProjectsExceptKeepsUniqueIds | app.js:252 | Removing the projects with one id keeps the remaining ids distinct. |
| Sessions.AppendFreshKeepsUniqueIds | app.js:229 | Appending a project with a fresh id keeps ids distinct. |
| TimeFormat.FloorDiv | app.js:521-523 | `Math.floor(a / b)` for `b > 0`: the largest `q` with `b * q <= a`. |
| TimeFormat.JsRemainder | app.js:523-524 | JavaScript `%` for a positive divisor: in `[0, b)` for non-negative `a` and in `(-b, 0]` for negative `a`. |
| TimeFormat.JsRemainderQuotient | app.js:523-524 | The remainder is `a` minus `b` times the quotient truncated toward zero, so with the range above it is the only possible value. |
| TimeFormat.ClockFields | app.js:521-524 | For a non-negative duration: hours are non-negative, minutes and seconds lie in `[0, 60)`, and together they make up the whole seconds. |
| TimeFormat.Pad2 | app.js:526 | At least two characters. A non-negative value gives digits that read back to it, exactly two characters below 100, and no leading zero when longer than two. |
| TimeFormat.FormatTime | app.js:520-527 | The rendered text has at least eight characters. |
| TimeFormat.FormatTimeReadsBack | app.js:520-527 | For a non-negative duration the text has the form `H:MM:SS`: the hour digits are never cut and carry no leading zero beyond two digits, minutes and seconds are below 60, and the fields read back to `milliseconds / 1000` whole seconds. |
| TimeFormat.FieldsReadBack | app.js:526 | Digit fields joined by colons, the last two fields two wide and the first without a leading zero beyond two digits, read back to the seconds their values add up to. |
| JsText.LeadingRun | app.js:61 | Counts the trimmable characters the string starts with: all of them are trimmable, and the next character, if any, is not. |
| JsText.TrimStart | app.js:61 | Drops the longest run of leading whitespace and keeps the rest unchanged. |
| JsText.TrimEnd | app.js:61 | Drops the longest run of trailing whitespace and keeps the rest unchanged. |
| JsText.Trim | app.js:61 | The result neither starts nor ends with whitespace. |
| JsText.TrimIsInfix | app.js:61 | The trimmed text is a contiguous slice of the input, and everything outside that slice is whitespace. |
| JsText.TrimEmptyIffBlank | app.js:61-62 | The trimmed text is empty exactly when every character of the input is whitespace. |
| JsText.TrimOfTrimmed | app.js:225 | A string without whitespace at either end is its own trim. |
| JsText.TrimIdempotent | app.js:225 | Trimming twice equals trimming once. |
| JsText.DecimalDigits | app.js:526 | `n.toString()` for `n >= 0` is all digits, a single digit exactly when `n < 10`, and starts with `0` only for 0. |
| JsText.NumberToString | app.js:526 | A non-negative value renders as digits that read back to it. A negative one renders as a minus sign followed by digits that read back to its magnitude. No rendering of two or more digits starts with `0`. |
| JsText.PadStart | app.js:526 | `padStart` keeps the string as a suffix, fills the front with the fill character, and reaches the target length unless the string is already longer. |
| JsText.DigitsValueOfDecimalDigits | app.js:526 | Reading back the digits `toString` writes gives the number. |
| JsText.LeadingZerosIgnored | app.js:526 | The zeros `padStart(2, '0')` adds do not change the value read. |
| Persistence.Merge | app.js:39 | Each top-level key present in the parsed object replaces that whole field, and every absent key keeps its current value. |
| Persistence.LoadData | app.js:34-44 | Nothing stored, or text that does not parse, leaves the data as it was. A parsed object is merged over the data key by key. |
| Persistence.SaveData | app.js:46-52 | The saved object has every top-level key. |
| Persistence.SaveThenLoad | app.js:34-52 | Loading what was saved gives back the saved state, whatever state it is loaded over. |
| Persistence.MergeIdempotent | app.js:39 | Merging the same object twice equals merging it once, and an object without keys changes nothing. |
| Tracker.TimeTracker.constructor | app.js:4-31 | The new tracker holds the defaults with the stored snapshot merged over them. The resume step on a running timer leaves that state unchanged. |
| Tracker.TimeTracker.LoadData | app.js:34-44 | The fields become `Persistence.LoadData` of the old fields. |
| Tracker.TimeTracker.StartTimer | app.js:55-70 | Returns the validation error and changes nothing exactly when `Engine.StartTimer` fails. Otherwise the fields become its result. |
| Tracker.TimeTracker.ResumeTimer | app.js:90-96 | The fields become `Engine.ResumeTimer` of the old fields, which are left unchanged. |
| Tracker.TimeTracker.PauseTimer | app.js:103-110 | The fields become `Engine.PauseTimer` of the old fields. |
| Tracker.TimeTracker.StopTimer | app.js:122-148 | The fields become `Engine.StopTimer` of the old fields. |
| Tracker.TimeTracker.ResetTimer | app.js:157-161 | The fields become `Engine.ResetTimer` of the old fields. |
| Tracker.TimeTracker.CreateProject | app.js:222-232 | Returns `Engine.NewProject`, and the fields become `Engine.CreateProject` of the old fields. |
| Tracker.TimeTracker.SelectProject | app.js:235-236 | The fields become `Engine.SelectProject` of the old fields. |
| Tracker.TimeTracker.DeleteProject | app.js:250-261 | The fields become `Engine.DeleteProject` of the old fields. |
| Tracker.TimeTracker.GetProjectSessions | app.js:241-243 | Exactly the sessions attributed to the project, in recorded order. |
| Tracker.TimeTracker.GetProjectTotalTime | app.js:245-248 | The sum of those sessions' durations: 0 with none, and at least 1000 ms per session under the invariant. |

## Left out

- DOM updates (`updateUI`, `updateTimerControls`, `updateTimerDisplay`'s text, `updateProjectSelector` and `updateProjectsGrid` (`app.js:283-347`), modals, alerts, focus): presentation only. The value `updateTimerDisplay` computes is modelled as `Engine.DisplayedTime`.
- `startTimerInterval` and `setInterval`/`clearInterval`: the tick only re-renders and changes no data.
- `localStorage` and `JSON.parse`/`JSON.stringify`: the stored slot is abstract (empty, unparsable, or a parsed object whose top-level keys are present or absent). A parsed `currentTimer` object lacking some of its own keys, or holding values of other types, cannot be represented.
- Unknown top-level keys: `loadData` keeps any extra top-level key of the stored object (`app.js:39`) and `saveData` writes it back (`app.js:48`), but `Persistence.Snapshot` holds only the four known keys, so such keys cannot be represented.
- `saveData` write failures: the `catch` only logs, and the data is unaffected.
- `generateId`: clock- and random-based, so ids are parameters. Uniqueness is stated as a precondition where it matters (`Engine.ProjectIdsStayUnique`).
- `formatDate`, `escapeHtml`, the project and session list rendering, and the visibility-change and `beforeunload` handlers: presentation or host events.
- The `confirm` dialog before reset and the name check in the add-project button handler: user interaction outside the engine. `Engine.ResetTimer` and `Engine.CreateProject` model the calls made once the user has confirmed.
- Engine.StopTimer: the source reads `Date.now()` up to three times during one stop; the model uses one instant `now` for all of them.
- Timestamps and durations are exact integers: JavaScript numbers are doubles, and precision loss above 2^53 ms is not modelled.
- TimeFormat.FormatTime: round trip stated only for non-negative durations; for a negative duration the source renders a minus sign inside a field, which the model computes but states nothing about beyond its length.
