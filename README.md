# A verified model of the productivity app's core

This project models, in Dafny, the local behaviour of a React Native productivity app
that combines a Pomodoro timer, a todo list, a dream journal and a calendar. The screens
and providers in `packages/mobile/src` are the source. The model covers:

- **The Pomodoro session controller.** One session record `{phase, timeRemaining,
  isRunning, sessionCount, currentTask}` and a settings record. The transitions are start,
  pause, resume, stop, skip, the one-second tick, the foreground correction, and the
  phase-complete rule that chooses a short or a long break.
- **The settings sanitiser.** It parses, falls back to the defaults, and clamps.
- **The timer face.** It covers the `MM:SS` formatter, the phase lookups and the choice of
  buttons.
- **The two in-memory list stores, for todos and dreams.** They support add, update by id,
  delete by id, toggle and filter by date. A list is replaced only after a successful
  storage write.
- **The forms.** These are the add-todo form, the edit-todo form with its `HH:MM` round
  trip, the dream editor's tag pipeline, and the ordered checks of the sign-in screen.
- **The view rules.**
  - The 42-cell, Sunday-aligned calendar grid.
  - Month navigation through `setMonth`, including its overflow past short months.
  - The day panel.
  - The newest-first dream list.
  - Today's pending/completed partition.
  - The invitation countdown.
  - The `useCounter` hook.

Each source file becomes one Dafny module (`PomodoroContext`, `TodoContext`,
`EditTodoModal`, `CalendarGrid`, ...). Three shared modules hold the JavaScript built-ins
the source relies on: `JsText` for `trim`, `split`, `parseInt`, `padStart` and `toString`,
`Lists` for `map` and `filter`, and `JsDate` for the calendar arithmetic of `Date`. The
`Wrappers` module holds `Option` and the patch field of a `Partial<T>` spread.

Wherever the source changes state, the model does too:

- Providers and forms are classes whose methods update fields.
- The calendar grid's loop is a method with loop invariants.
- Every method is specified by a function, and lemmas state what the source promises about
  that function.

Clocks, storage outcomes, identifiers and today's date are parameters.

## Model

All source paths are under `packages/mobile/src/`, written out in full in each row.

| member | source | states |
|---|---|---|
| PomodoroTypes.MergeSettings | packages/mobile/src/contexts/PomodoroContext.tsx:155-157 | every field present in the patch replaces the old setting and every absent one keeps it |
| PomodoroTypes.DefaultSettingsValues | packages/mobile/src/types/pomodoro.ts:18-23 | the defaults are 25, 5 and 15 minutes with a long break every 4 sessions; they satisfy the sanitiser's invariant, and a default work phase is 1500 seconds |
| PomodoroTypes.MergeFullPatch | packages/mobile/src/contexts/PomodoroContext.tsx:155-157 | a patch naming all four fields replaces the settings outright |
| PomodoroContext.WorkPhaseComplete | packages/mobile/src/contexts/PomodoroContext.tsx:85-101 | completing work raises the session count by exactly one and goes to a long break (long-break minutes ×60) iff the new count is a multiple of `sessionsUntilLongBreak`, else to a short break; the result is paused and keeps the task |
| PomodoroContext.OtherPhaseComplete | packages/mobile/src/contexts/PomodoroContext.tsx:102-114 | completing a break, or idle through skip, returns to a paused work phase of `workDuration*60` seconds with the session count and task unchanged |
| PomodoroContext.TickSteps | packages/mobile/src/contexts/PomodoroContext.tsx:59-70 | a tick changes nothing unless running with time left; above one second it removes exactly one second and nothing else; at one second or less the net state is the phase-complete state |
| PomodoroContext.PhaseCompleteIgnoresTimer | packages/mobile/src/contexts/PomodoroContext.tsx:85-114 | the next phase depends only on the phase, the session count and the task, not on the remaining time or the running flag |
| PomodoroContext.CountdownCompletes | packages/mobile/src/contexts/PomodoroContext.tsx:59-70 | from `T` seconds left, each of the first `k < T` ticks removes one second, and the `T`-th tick gives the phase-complete state, so completion fires exactly once |
| PomodoroContext.SkipEqualsCountdown | packages/mobile/src/contexts/PomodoroContext.tsx:151-153 | skipping a running phase yields the same state as letting its countdown run out |
| PomodoroContext.ForegroundEqualsTicks | packages/mobile/src/contexts/PomodoroContext.tsx:39-57 | the foreground correction after `e` elapsed seconds equals `e` ticks while `e` is within the time left, and the phase completion once it is not |
| PomodoroContext.ForegroundClockSetBack | packages/mobile/src/contexts/PomodoroContext.tsx:43-51 | a clock set back (negative elapsed time) lengthens the running phase |
| PomodoroContext.StartThenFullCountdown | packages/mobile/src/contexts/PomodoroContext.tsx:117-126 | after a start, exactly `workDuration*60` ticks end the first work phase in a paused short break with one session counted (for at least two sessions per long break) |
| PomodoroContext.Cycles | packages/mobile/src/contexts/PomodoroContext.tsx:85-114 | skipping through `k` work/break cycles counts `k` sessions and ends at work; the following break is long iff the count reached is a multiple of `sessionsUntilLongBreak` |
| PomodoroContext.FourthSessionLongBreak | packages/mobile/src/contexts/PomodoroContext.tsx:93-101 | with the defaults, the first three work phases end in short breaks and the fourth in a long break |
| PomodoroContext.SettingsApplyFromNextPhase | packages/mobile/src/contexts/PomodoroContext.tsx:155-157 | a new work duration leaves the running work phase's time alone and applies from the next work phase |
| PomodoroContext.PomodoroController.constructor | packages/mobile/src/contexts/PomodoroContext.tsx:18-29 | the provider starts with the default settings, idle, a paused 1500-second work phase, no sessions and no task |
| PomodoroContext.PomodoroController.Start | packages/mobile/src/contexts/PomodoroContext.tsx:117-126 | from any state: a running work phase of `workDuration*60` seconds, no sessions, the given task, and the clock recorded |
| PomodoroContext.PomodoroController.Pause | packages/mobile/src/contexts/PomodoroContext.tsx:128-130 | only `isRunning` changes, to false, so pausing twice is pausing once |
| PomodoroContext.PomodoroController.Resume | packages/mobile/src/contexts/PomodoroContext.tsx:132-135 | only `isRunning` changes, to true, and the clock is recorded |
| PomodoroContext.PomodoroController.Stop | packages/mobile/src/contexts/PomodoroContext.tsx:137-149 | from any state: idle, a paused full work phase, no sessions and no task |
| PomodoroContext.PomodoroController.Skip | packages/mobile/src/contexts/PomodoroContext.tsx:151-153 | the new state is what the phase-complete rule gives for the old one; the controller invariant is kept |
| PomodoroContext.PomodoroController.Tick | packages/mobile/src/contexts/PomodoroContext.tsx:59-70 | one firing of the interval leaves the net state of both queued updates, as `TickSteps` describes, and keeps the invariant |
| PomodoroContext.PomodoroController.AppStateChange | packages/mobile/src/contexts/PomodoroContext.tsx:39-57 | back in the foreground while running, the whole elapsed seconds are subtracted, floored at 0, and the phase completes at 0; going to the background or inactive only records the clock; any other case changes nothing |
| PomodoroContext.PomodoroController.UpdateSettings | packages/mobile/src/contexts/PomodoroContext.tsx:155-157 | the patch is merged into the settings and the session record is untouched |
| PomodoroSettingsModal.SanitizeSettings | packages/mobile/src/components/organisms/PomodoroSettingsModal.tsx:33-44 | whatever was typed, the saved settings have every duration at least 1 and at least 2 sessions per long break |
| PomodoroSettingsModal.SanitizeFields | packages/mobile/src/components/organisms/PomodoroSettingsModal.tsx:34-43 | each field is its parsed value when that is neither NaN nor 0, else that field's default, then raised to the field's minimum |
| PomodoroSettingsModal.ParsedOrOfNatToString | packages/mobile/src/components/organisms/PomodoroSettingsModal.tsx:34-37 | a field holding the numeral of a positive number yields that number |
| PomodoroSettingsModal.DefaultTextsSave | packages/mobile/src/components/organisms/PomodoroSettingsModal.tsx:48-53 | the texts the reset button writes save exactly the default settings |
| PomodoroSettingsModal.ZeroMeansDefault | packages/mobile/src/components/organisms/PomodoroSettingsModal.tsx:34-43 | entering "0" saves the default, not the minimum |
| PomodoroSettingsModal.NegativeMeansMinimum | packages/mobile/src/components/organisms/PomodoroSettingsModal.tsx:34-43 | a negative entry is kept by the fallback and then clamped to the minimum (1 minute, 2 sessions) |
| PomodoroSettingsModal.MinusSevenKept | packages/mobile/src/components/organisms/PomodoroSettingsModal.tsx:34 | "-7" parses as -7, which is truthy, so the fallback does not apply |
| PomodoroSettingsModal.NotANumberMeansDefault | packages/mobile/src/components/organisms/PomodoroSettingsModal.tsx:34-43 | empty or non-numeric text saves the default; a 1 is kept for a duration and raised to 2 for the sessions |
| PomodoroSettingsModal.EmptyTextIsDefault | packages/mobile/src/components/organisms/PomodoroSettingsModal.tsx:34 | an empty field parses as NaN and falls back to its default |
| PomodoroSettingsModal.LettersAreDefault | packages/mobile/src/components/organisms/PomodoroSettingsModal.tsx:35 | a field of letters parses as NaN and falls back to its default |
| PomodoroSettingsModal.LeadingBlankSkipped | packages/mobile/src/components/organisms/PomodoroSettingsModal.tsx:34-37 | leading white space does not change what a field saves |
| PomodoroSettingsModal.DigitInputBounds | packages/mobile/src/components/organisms/PomodoroSettingsModal.tsx:92-173 | with digit-only input under the fields' `maxLength`, durations lie in 1..999 and sessions in 2..99 |
| PomodoroSettingsModal.DigitFieldBound | packages/mobile/src/components/organisms/PomodoroSettingsModal.tsx:92 | a digit-only field of `k` characters yields a value below 10^k or its default |
| PomodoroSettingsModal.SaveUnchangedForm | packages/mobile/src/components/organisms/PomodoroSettingsModal.tsx:21-44 | opening the form on valid settings and saving without a change gives those settings back |
| PomodoroSettingsModal.Limit | packages/mobile/src/components/organisms/PomodoroSettingsModal.tsx:92 | a typed text is cut to a prefix of at most `maxLength` characters, and a text already that short is kept whole |
| PomodoroSettingsModal.SettingsForm.constructor | packages/mobile/src/components/organisms/PomodoroSettingsModal.tsx:21-24 | the four fields start as the `toString` of the current settings |
| PomodoroSettingsModal.SettingsForm.EditWork | packages/mobile/src/components/organisms/PomodoroSettingsModal.tsx:89-92 | the work field becomes the typed text cut to 3 characters |
| PomodoroSettingsModal.SettingsForm.EditShortBreak | packages/mobile/src/components/organisms/PomodoroSettingsModal.tsx:116-119 | the short-break field becomes the typed text cut to 3 characters |
| PomodoroSettingsModal.SettingsForm.EditLongBreak | packages/mobile/src/components/organisms/PomodoroSettingsModal.tsx:143-146 | the long-break field becomes the typed text cut to 3 characters |
| PomodoroSettingsModal.SettingsForm.EditSessions | packages/mobile/src/components/organisms/PomodoroSettingsModal.tsx:170-173 | the sessions field becomes the typed text cut to 2 characters |
| PomodoroSettingsModal.SettingsForm.Reset | packages/mobile/src/components/organisms/PomodoroSettingsModal.tsx:48-53 | the four fields become "25", "5", "15" and "4", and the controller is not touched |
| PomodoroSettingsModal.SettingsForm.Save | packages/mobile/src/components/organisms/PomodoroSettingsModal.tsx:33-46 | the controller's settings become the sanitised fields, its session is untouched, and its invariant is kept |
| PomodoroTimer.FormatTimeFields | packages/mobile/src/components/organisms/PomodoroTimer.tsx:23-27 | the text is at least two digits of minutes, a colon and exactly two digits of seconds (00–59) that read back as `s div 60` and `s mod 60`; it is exactly 5 characters iff `s < 6000` |
| PomodoroTimer.FormatTimeRoundTrip | packages/mobile/src/components/organisms/PomodoroTimer.tsx:23-27 | reading the minutes and seconds back from the text recovers the number of seconds |
| PomodoroTimer.PhaseLookupsDistinct | packages/mobile/src/components/organisms/PomodoroTimer.tsx:29-66 | different phases get different colours, labels and icons; idle gets the default colour, the "Pomodoro" label and the timer icon |
| PomodoroTimer.Controls | packages/mobile/src/components/organisms/PomodoroTimer.tsx:88-134 | idle shows settings and start only; any other phase shows stop, settings and skip, plus pause iff running or resume iff not |
| PomodoroTimer.ShownControlsAct | packages/mobile/src/components/organisms/PomodoroTimer.tsx:189-245 | the pause/resume button that is shown flips `isRunning` and nothing else; start gives a fresh work phase; skip is offered only outside idle |
| TodoContext.Merge | packages/mobile/src/contexts/TodoContext.tsx:62-66 | for each of the eleven other fields, a field the patch has takes the patch's value and a field it lacks keeps the todo's; `updatedAt` is the current time whatever the patch says |
| TodoContext.MergeEmptyPatch | packages/mobile/src/contexts/TodoContext.tsx:64 | an empty patch only refreshes `updatedAt` |
| TodoContext.UpdateOnlyMatching | packages/mobile/src/contexts/TodoContext.tsx:61-68 | an update keeps the length and replaces exactly the todos with the id by their merge with the patch; every other todo stays at its place |
| TodoContext.ToggleOnlyMatching | packages/mobile/src/contexts/TodoContext.tsx:75-82 | a toggle negates `completed` and touches `updatedAt` of exactly the todos with the id; the others are unchanged |
| TodoContext.ToggleTwice | packages/mobile/src/contexts/TodoContext.tsx:75-82 | toggling an id twice restores every `completed` flag; only the timestamps of the matching todos move |
| TodoContext.AbsentIdUnchanged | packages/mobile/src/contexts/TodoContext.tsx:61-82 | updating, toggling or deleting an id no todo has leaves the list as it was |
| TodoContext.DeleteRemovesOnlyMatching | packages/mobile/src/contexts/TodoContext.tsx:70-73 | a delete removes every todo with the id, keeps every other one, and keeps the order |
| TodoContext.ByDateExact | packages/mobile/src/contexts/TodoContext.tsx:84-86 | a date's todos are exactly those with that date, in list order |
| TodoContext.TodoStore.constructor | packages/mobile/src/contexts/TodoContext.tsx:20-21 | the provider starts with an empty list while loading |
| TodoContext.TodoStore.LoadTodos | packages/mobile/src/contexts/TodoContext.tsx:28-39 | stored data replaces the list only when present, and loading ends either way |
| TodoContext.TodoStore.SaveTodos | packages/mobile/src/contexts/TodoContext.tsx:41-48 | the new list is kept iff the storage write succeeds |
| TodoContext.TodoStore.AddTodo | packages/mobile/src/contexts/TodoContext.tsx:50-58 | on success, one todo built from the form and not completed is appended and the earlier todos keep their order; on failure nothing changes |
| TodoContext.TodoStore.UpdateTodo | packages/mobile/src/contexts/TodoContext.tsx:61-68 | on success the list becomes the update described by `UpdateOnlyMatching`; on failure nothing changes |
| TodoContext.TodoStore.DeleteTodo | packages/mobile/src/contexts/TodoContext.tsx:70-73 | on success the todos with the id are removed; on failure nothing changes |
| TodoContext.TodoStore.ToggleTodo | packages/mobile/src/contexts/TodoContext.tsx:75-82 | on success the todos with the id are toggled; on failure nothing changes |
| TodoContext.TodoStore.GetTodosByDate | packages/mobile/src/contexts/TodoContext.tsx:84-86 | every returned todo is in the list with that date, and every such todo is returned |
| DreamContext.Merge | packages/mobile/src/contexts/DreamContext.tsx:60-64 | for each of the seven other fields, a field the patch has takes the patch's value and a field it lacks keeps the dream's; `updatedAt` is the current time whatever the patch says |
| DreamContext.NewDreamDatedToday | packages/mobile/src/contexts/DreamContext.tsx:48-55 | a new dream is dated today whatever the form held, and carries the form's text, mood and tags |
| DreamContext.UpdateOnlyMatching | packages/mobile/src/contexts/DreamContext.tsx:59-66 | only the dreams with the id are merged, the length is kept, and an absent id leaves the list as it was |
| DreamContext.DeleteRemovesOnlyMatching | packages/mobile/src/contexts/DreamContext.tsx:68-71 | every dream with the id is removed, the rest are kept in order, and an absent id changes nothing |
| DreamContext.ByDateExact | packages/mobile/src/contexts/DreamContext.tsx:73-75 | a date's dreams are exactly those with that date, in list order |
| DreamContext.AddedDreamIsToday | packages/mobile/src/contexts/DreamContext.tsx:48-57 | a dream just added appears last among today's dreams |
| DreamContext.DreamStore.constructor | packages/mobile/src/contexts/DreamContext.tsx:19-20 | the provider starts with an empty list while loading |
| DreamContext.DreamStore.LoadDreams | packages/mobile/src/contexts/DreamContext.tsx:26-37 | stored data replaces the list only when present, and loading ends either way |
| DreamContext.DreamStore.SaveDreams | packages/mobile/src/contexts/DreamContext.tsx:39-46 | the new list is kept iff the storage write succeeds |
| DreamContext.DreamStore.AddDream | packages/mobile/src/contexts/DreamContext.tsx:48-57 | on success one dream dated today is appended; on failure nothing changes |
| DreamContext.DreamStore.UpdateDream | packages/mobile/src/contexts/DreamContext.tsx:59-66 | on success the matching dreams are merged; on failure nothing changes |
| DreamContext.DreamStore.DeleteDream | packages/mobile/src/contexts/DreamContext.tsx:68-71 | on success the dreams with the id are removed; on failure nothing changes |
| DreamContext.DreamStore.GetDreamsByDate | packages/mobile/src/contexts/DreamContext.tsx:73-75 | every returned dream is in the list with that date, and every such dream is returned |
| AddTodoModal.FormDataChecks | packages/mobile/src/features/todo/components/AddTodoModal.tsx:30-46 | refused with "Please enter a title" iff the title is blank; otherwise the title is trimmed and non-empty, a blank description or time becomes undefined, the date is today, and the priority is the one picked |
| AddTodoModal.FormDataStable | packages/mobile/src/features/todo/components/AddTodoModal.tsx:40-46 | entering the submitted data again yields the same data, so the normalisation is already final |
| AddTodoModal.AddTodoForm.constructor | packages/mobile/src/features/todo/components/AddTodoModal.tsx:21-24 | the form starts with empty texts and medium priority |
| AddTodoModal.AddTodoForm.Submit | packages/mobile/src/features/todo/components/AddTodoModal.tsx:30-56 | a refusal changes neither the form nor the store; otherwise the todo is handed to the store and all four fields are reset, medium priority included |
| EditTodoModal.ParseClock | packages/mobile/src/features/todo/components/EditTodoModal.tsx:45-49 | loading a stored time yields a time of day within the day or the invalid date |
| EditTodoModal.SetHours | packages/mobile/src/features/todo/components/EditTodoModal.tsx:48 | `setHours` with numbers gives a minute of the day after roll-over; with NaN it gives the invalid date |
| EditTodoModal.LoadTime | packages/mobile/src/features/todo/components/EditTodoModal.tsx:45-61 | a missing or empty stored time loads as no time |
| EditTodoModal.FormatTime | packages/mobile/src/features/todo/components/EditTodoModal.tsx:65-70 | no time gives undefined, and the invalid date gives "NaN:NaN" |
| EditTodoModal.ClockTextRoundTrip | packages/mobile/src/features/todo/components/EditTodoModal.tsx:45-70 | every time of day is written as a well-formed `HH:MM` text that loads back as the same time |
| EditTodoModal.ReadClock | packages/mobile/src/features/todo/components/EditTodoModal.tsx:45-49 | a well-formed `HH:MM` text loads as the minute of the day it names |
| EditTodoModal.WriteClock | packages/mobile/src/features/todo/components/EditTodoModal.tsx:65-70 | formatting the minute a well-formed text names gives the text back |
| EditTodoModal.ColonlessTimeSavedAsNaN | packages/mobile/src/features/todo/components/EditTodoModal.tsx:45-49 | a non-empty stored time without a colon opens as the invalid date and is saved back as "NaN:NaN" |
| EditTodoModal.SubmissionChecks | packages/mobile/src/features/todo/components/EditTodoModal.tsx:86-105 | refused iff the title is blank; ignored iff it is not blank and there is no todo; otherwise the patch goes to the todo's own id |
| EditTodoModal.OpenSaveUnchanged | packages/mobile/src/features/todo/components/EditTodoModal.tsx:37-105 | opening a saved todo and saving it unchanged patches that todo's id and writes back what was stored, with a new `updatedAt`; a todo with an alert flag (as the edit form saves it) changes in nothing else, and one without (as the add form saves it) also gets the flag `false` |
| EditTodoModal.MergeSaved | packages/mobile/src/features/todo/components/EditTodoModal.tsx:98-105 | a form whose save writes every field of a target todo turns the todo into that target with a new `updatedAt`; the fields the edit form does not write are kept |
| EditTodoModal.TimeSurvives | packages/mobile/src/features/todo/components/EditTodoModal.tsx:45-70 | a well-formed stored time, or none, survives load then format unchanged |
| EditTodoModal.ShownDurationWrong | packages/mobile/src/features/todo/components/EditTodoModal.tsx:212-213 | from 09:50 to 10:10, twenty minutes, the display as written shows 1 hour 40 minutes |
| EditTodoModal.Duration | packages/mobile/src/features/todo/components/EditTodoModal.tsx:208-214 | the intended duration: hours ×60 plus minutes is the distance between the two times, with minutes below 60 |
| EditTodoModal.ShownDurationAgrees | packages/mobile/src/features/todo/components/EditTodoModal.tsx:212-213 | the display as written is right when the end is later and its minute field is not smaller |
| EditTodoModal.DurationText | packages/mobile/src/features/todo/components/EditTodoModal.tsx:208-213 | the line appears iff both pickers hold something; it shows `NaN hours NaN minutes` iff either holds an invalid date (a truthy object); otherwise it shows the as-written distances between the hour fields and between the minute fields, below 24 and 60, so 1 hour 40 minutes for 09:50 to 10:10 |
| EditTodoModal.EditTodoForm.constructor | packages/mobile/src/features/todo/components/EditTodoModal.tsx:23-30 | the form starts empty, without times or alert, at medium priority |
| EditTodoModal.EditTodoForm.Open | packages/mobile/src/features/todo/components/EditTodoModal.tsx:37-63 | only while visible and with a todo, the fields become those loaded from the todo; otherwise they are kept |
| EditTodoModal.EditTodoForm.PickStart | packages/mobile/src/features/todo/components/EditTodoModal.tsx:72-77 | a picked time replaces the start time and a dismissal keeps it |
| EditTodoModal.EditTodoForm.PickEnd | packages/mobile/src/features/todo/components/EditTodoModal.tsx:79-84 | a picked time replaces the end time and a dismissal keeps it |
| EditTodoModal.EditTodoForm.Submit | packages/mobile/src/features/todo/components/EditTodoModal.tsx:86-108 | the store changes only for a non-blank title, a present todo and a successful write, and then by the update of that todo's id with the form's patch |
| DreamEditor.TagsClean | packages/mobile/src/features/dream/components/DreamEditor.tsx:40-43 | no tag is empty, contains a comma, or starts or ends with white space |
| DreamEditor.TagsConcat | packages/mobile/src/features/dream/components/DreamEditor.tsx:40-43 | the tags of `a,b` are the tags of `a` followed by those of `b`, so order is kept |
| DreamEditor.TagsOfJoin | packages/mobile/src/features/dream/components/DreamEditor.tsx:40-43 | clean tags written out with commas are read back as the same tags |
| DreamEditor.FormDataChecks | packages/mobile/src/features/dream/components/DreamEditor.tsx:30-50 | refused iff the title or the content is blank; otherwise both are trimmed and non-empty, the mood is passed on, and the tags are clean and absent iff none remain |
| DreamEditor.DreamEditorForm.constructor | packages/mobile/src/features/dream/components/DreamEditor.tsx:21-24 | the editor starts with empty texts and no mood |
| DreamEditor.DreamEditorForm.SelectMood | packages/mobile/src/features/dream/components/DreamEditor.tsx:132 | a mood button selects its mood |
| DreamEditor.DreamEditorForm.Submit | packages/mobile/src/features/dream/components/DreamEditor.tsx:30-60 | a refusal changes nothing; otherwise the dream goes to the store and all four fields are reset |
| AuthScreen.EmailPatternShape | packages/mobile/src/screens/AuthScreen.tsx:35-36 | the email pattern matches exactly the texts with one run before the first `@` and, after it, no `@`, no white space and a dot with characters on both sides |
| AuthScreen.ValidateOrder | packages/mobile/src/screens/AuthScreen.tsx:29-52 | each refusal happens iff its check is the first to fail, in the order blank email, malformed email, blank password (not in reset mode), password under 6 characters (sign-up only) |
| AuthScreen.ResetIgnoresPassword | packages/mobile/src/screens/AuthScreen.tsx:42 | reset mode never looks at the password |
| AuthScreen.Attempt | packages/mobile/src/screens/AuthScreen.tsx:27-116 | no request is made iff a check refuses; otherwise the request for the mode is sent with the trimmed email |
| AuthScreen.SentRequestValid | packages/mobile/src/screens/AuthScreen.tsx:54-109 | a sent request carries an email matching the pattern, its kind follows the mode, and a sign-up password has at least 6 characters and is not blank |
| AuthScreen.AuthForm.constructor | packages/mobile/src/screens/AuthScreen.tsx:21-24 | the screen starts in sign-in mode with empty fields |
| AuthScreen.AuthForm.EditEmail | packages/mobile/src/screens/AuthScreen.tsx:179 | the email field becomes the typed text |
| AuthScreen.AuthForm.EditPassword | packages/mobile/src/screens/AuthScreen.tsx:197 | the password field becomes the typed text |
| AuthScreen.AuthForm.SwitchMode | packages/mobile/src/screens/AuthScreen.tsx:208-272 | a mode link sets the mode it names |
| AuthScreen.AuthForm.HandleAuth | packages/mobile/src/screens/AuthScreen.tsx:27-116 | the outcome is the attempt for the current fields, loading is over afterwards, and a successful sign-up or reset opens its dialog |
| AuthScreen.AuthForm.Confirm | packages/mobile/src/screens/AuthScreen.tsx:80-83 | confirming the sign-up dialog returns to sign-in and clears the password; confirming the reset dialog returns to sign-in only |
| InviteScreen.CountdownFields | packages/mobile/src/screens/InviteScreen.tsx:47-49 | the display is unpadded minutes, a colon and two digits of seconds in 0–59; it starts with 0 only under a minute |
| InviteScreen.CountdownReadsBack | packages/mobile/src/screens/InviteScreen.tsx:47-49 | read as a clock, the display gives back the whole seconds left |
| InviteScreen.CountdownNotExpired | packages/mobile/src/screens/InviteScreen.tsx:41-49 | a countdown never reads "Expired" |
| InviteScreen.DisplayMeaning | packages/mobile/src/screens/InviteScreen.tsx:39-50 | a tick shows "Expired" iff no time is left, and otherwise a clock of the whole seconds left |
| InviteScreen.InviteState.constructor | packages/mobile/src/screens/InviteScreen.tsx:22-25 | the screen starts without a code or expiry, so no countdown runs |
| InviteScreen.InviteState.GenerateCode | packages/mobile/src/screens/InviteScreen.tsx:63-78 | an issued code and its expiry replace the shown ones and start the countdown; a failure keeps them |
| InviteScreen.InviteState.Tick | packages/mobile/src/screens/InviteScreen.tsx:33-51 | without an expiry nothing runs; at `diff <= 0` it shows "Expired" and clears the code and the expiry, which stops the countdown; otherwise it shows the time left and changes nothing else |
| UseCounter.Counter.constructor | packages/mobile/src/hooks/useCounter.ts:8-9 | the count starts at the initial value |
| UseCounter.Counter.Default | packages/mobile/src/hooks/useCounter.ts:8-9 | the default initial value is 0 |
| UseCounter.Counter.Increment | packages/mobile/src/hooks/useCounter.ts:11 | the count goes up by exactly one |
| UseCounter.Counter.Decrement | packages/mobile/src/hooks/useCounter.ts:12 | the count goes down by exactly one, with no lower bound |
| UseCounter.Counter.Reset | packages/mobile/src/hooks/useCounter.ts:13 | the count returns to the initial value |
| UseCounter.Counter.SetValue | packages/mobile/src/hooks/useCounter.ts:14 | the count becomes the given value |
| UseCounter.RunNet | packages/mobile/src/hooks/useCounter.ts:11-12 | a run of increments and decrements moves the count by their difference |
| UseCounter.IncrementDecrementRestores | packages/mobile/src/hooks/useCounter.ts:11-12 | an increment then a decrement (or the other way round) restores the count |
| UseCounter.LastResetOrSetWins | packages/mobile/src/hooks/useCounter.ts:13-14 | whatever came before, a final reset leaves the initial value and a final set leaves the value set |
| UseCounter.Replay | packages/mobile/src/hooks/useCounter.ts:11-14 | the class's methods move the count exactly as the step function says |
| JsDate.DaysInMonth | packages/mobile/src/features/calendar/components/CalendarGrid.tsx:33 | a month has 28 to 31 days, and 29 exactly for February of a leap year |
| JsDate.MonthStepsInverse | packages/mobile/src/features/calendar/screens/CalendarScreen.tsx:25-35 | the next and the previous month undo each other and move the month count by one |
| JsDate.NextDayNumber | packages/mobile/src/features/calendar/components/CalendarGrid.tsx:64 | the day after a date is a date and is numbered one more |
| JsDate.NextWeekday | packages/mobile/src/features/calendar/components/CalendarGrid.tsx:64 | the day after a date falls on the next weekday, Saturday followed by Sunday |
| JsDate.Anchors | packages/mobile/src/features/calendar/components/CalendarGrid.tsx:37 | 1 January 1970 is day 0 and a Thursday; 1 January 2000 is day 10957 and a Saturday |
| JsDate.SetMonth | packages/mobile/src/features/calendar/screens/CalendarScreen.tsx:27 | `setMonth` always yields a valid date |
| CalendarGrid.GenerateCalendarDays | packages/mobile/src/features/calendar/components/CalendarGrid.tsx:27-68 | the cells built step by step are the grid of the shown month |
| CalendarGrid.FillDays | packages/mobile/src/features/calendar/components/CalendarGrid.tsx:40-65 | the 42-step loop, advancing the date one day at a time, builds exactly the grid's cells |
| CalendarGrid.GridStartsOnSunday | packages/mobile/src/features/calendar/components/CalendarGrid.tsx:32-37 | the grid has 42 cells and the first is the Sunday on or before the 1st of the month, at most 6 days earlier |
| CalendarGrid.GridConsecutive | packages/mobile/src/features/calendar/components/CalendarGrid.tsx:43-64 | every cell holds a valid date, and each cell is the day after the one before it |
| CalendarGrid.GridMonthRun | packages/mobile/src/features/calendar/components/CalendarGrid.tsx:43-45 | days 1..n of the month fill the cells from the 1st's weekday on, and `isCurrentMonth` and pressability hold exactly on that run |
| CalendarGrid.GridFlags | packages/mobile/src/features/calendar/components/CalendarGrid.tsx:44-56 | each cell's key is its date's key, and today, selected, has-todos and has-dreams hold iff the key is today's, the selected one, or some todo's or dream's date |
| CalendarScreen.NextMonthStep | packages/mobile/src/features/calendar/screens/CalendarScreen.tsx:31-35 | "next" shows the same day of the following month when that month has it, else the overflow into the month after |
| CalendarScreen.PrevMonthStep | packages/mobile/src/features/calendar/screens/CalendarScreen.tsx:25-29 | "previous" shows the same day of the preceding month when it has it, else the overflow into the month shown before |
| CalendarScreen.StepsOnEarlyDays | packages/mobile/src/features/calendar/screens/CalendarScreen.tsx:25-35 | on day 28 or earlier the buttons move the month by exactly one, roll the year over, keep the day, and undo each other |
| CalendarScreen.NextStepOverflow | packages/mobile/src/features/calendar/screens/CalendarScreen.tsx:31-35 | "next" moves one month iff the target month has the day, and two months otherwise |
| CalendarScreen.PrevStepOverflow | packages/mobile/src/features/calendar/screens/CalendarScreen.tsx:25-29 | "previous" moves back one month iff the target month has the day, and otherwise stays on the shown month |
| CalendarScreen.MonthEndExamples | packages/mobile/src/features/calendar/screens/CalendarScreen.tsx:25-35 | from 31 January 2025 "next" shows 3 March, from 31 March "previous" shows 3 March, and in 2024 "next" from 31 January shows 2 March |
| CalendarScreen.DayPanelExact | packages/mobile/src/features/calendar/screens/CalendarScreen.tsx:44-45 | the panel gets exactly the selected day's todos and dreams, in list order; each list is non-empty iff the grid marks that day |
| CalendarScreen.CalendarView.constructor | packages/mobile/src/features/calendar/screens/CalendarScreen.tsx:17-18 | the shown month and the selection both start at today |
| CalendarScreen.CalendarView.GoToPreviousMonth | packages/mobile/src/features/calendar/screens/CalendarScreen.tsx:25-29 | the shown month becomes `setMonth(month - 1)` of the old one, and the selection stays |
| CalendarScreen.CalendarView.GoToNextMonth | packages/mobile/src/features/calendar/screens/CalendarScreen.tsx:31-35 | the shown month becomes `setMonth(month + 1)` of the old one, and the selection stays |
| CalendarScreen.CalendarView.GoToToday | packages/mobile/src/features/calendar/screens/CalendarScreen.tsx:37-41 | both the shown month and the selection become today |
| CalendarScreen.CalendarView.SelectDate | packages/mobile/src/features/calendar/screens/CalendarScreen.tsx:86 | the pressed day's key becomes the selection, and the shown month stays |
| DayDetails.PriorityColor | packages/mobile/src/features/calendar/components/DayDetails.tsx:78-81 | the accent is red iff the priority is high, orange iff medium, and green iff low |
| DayDetails.MoodEmojiFallback | packages/mobile/src/features/calendar/components/DayDetails.tsx:134-142 | the neutral face is shown iff the mood is missing, unknown or "neutral"; the five known moods have five different faces |
| DayDetails.PluralUnlessOne | packages/mobile/src/features/calendar/components/DayDetails.tsx:43 | each noun ends in "s" iff its count is not one |
| DayDetails.SummaryDeterminesCounts | packages/mobile/src/features/calendar/components/DayDetails.tsx:43 | the summary line gives back both counts: different counts never read the same |
| DayDetails.HashTags | packages/mobile/src/features/calendar/components/DayDetails.tsx:183-190 | one `#tag` per tag, in order |
| DayDetails.TaskCards | packages/mobile/src/features/calendar/components/DayDetails.tsx:70-117 | one card per todo, in list order |
| DayDetails.DreamCards | packages/mobile/src/features/calendar/components/DayDetails.tsx:134-195 | one card per dream, in list order |
| DayDetails.PanelShape | packages/mobile/src/features/calendar/components/DayDetails.tsx:32-132 | the empty note and no summary iff both lists are empty; otherwise each section is present iff its list is non-empty, so at least one is, with one card per item |
| DayDetails.TaskCardFacts | packages/mobile/src/features/calendar/components/DayDetails.tsx:76-115 | a card is struck through iff the todo is completed, shows a time or description iff it is non-empty, and is red iff the priority is high |
| DayDetails.DreamCardFacts | packages/mobile/src/features/calendar/components/DayDetails.tsx:134-193 | a card shows the mood's face, the content iff it is non-empty, and one `#tag` per tag in order |
| DreamScreen.Insert | packages/mobile/src/features/dream/screens/DreamScreen.tsx:21-23 | inserting a dream adds exactly one entry |
| DreamScreen.SortedDreams | packages/mobile/src/features/dream/screens/DreamScreen.tsx:21-23 | the sorted copy has as many dreams as the store |
| DreamScreen.InsertPerm | packages/mobile/src/features/dream/screens/DreamScreen.tsx:21-23 | inserting keeps every dream and adds the new one |
| DreamScreen.InsertOrder | packages/mobile/src/features/dream/screens/DreamScreen.tsx:21-23 | inserting into a newest-first list keeps it newest first |
| DreamScreen.SortedDreamsPerm | packages/mobile/src/features/dream/screens/DreamScreen.tsx:21 | the shown list is a permutation of the store's dreams |
| DreamScreen.SortedDreamsOrder | packages/mobile/src/features/dream/screens/DreamScreen.tsx:21-23 | the shown list is ordered by creation time, newest first |
| DreamScreen.SortedKeepsSorted | packages/mobile/src/features/dream/screens/DreamScreen.tsx:21-23 | a list already newest first is shown as it is |
| DreamScreen.SortedDreamsStable | packages/mobile/src/features/dream/screens/DreamScreen.tsx:21-23 | the sort is stable: for any input and any instant, the dreams created at that instant are shown in their order in the store |
| DreamScreen.HeaderCounts | packages/mobile/src/features/dream/screens/DreamScreen.tsx:34 | the header is a numeral followed by " dreams recorded", and the numeral is the number of dreams, which is also the number of cards |
| TodoScreen.PendingCompleted | packages/mobile/src/features/todo/screens/TodoScreen.tsx:25-26 | pending and completed together hold each of today's todos exactly as often, so the counts add up to the total |
| TodoScreen.PendingCompletedMembers | packages/mobile/src/features/todo/screens/TodoScreen.tsx:25-26 | a todo is pending iff shown and not completed, and completed iff shown and completed; each part keeps list order |
| TodoScreen.TodayExact | packages/mobile/src/features/todo/screens/TodoScreen.tsx:21-22 | the screen shows exactly the todos dated today, in list order |
| TodoScreen.DeleteRow | packages/mobile/src/features/todo/screens/TodoScreen.tsx:49-50 | a row's delete removes every todo with that row's id from the screen and keeps the other rows in order |
| TodoScreen.ToggleRow | packages/mobile/src/features/todo/screens/TodoScreen.tsx:49-50 | a row's toggle flips the rows with that id, never moves a todo on or off today's list, and keeps the other rows |
| Lists.FilterAppend | packages/mobile/src/features/todo/screens/TodoScreen.tsx:25-26 | `filter` on a concatenation filters each part and keeps their order |
| Lists.FilterPartition | packages/mobile/src/features/todo/screens/TodoScreen.tsx:25-26 | a filter and its complement split a list, each element counted once |
| Lists.FilterCommute | packages/mobile/src/features/todo/screens/TodoScreen.tsx:21-26 | two filters can be applied in either order |
| Lists.FilterMap | packages/mobile/src/contexts/TodoContext.tsx:76-80 | a map that never changes whether an element passes a filter commutes with that filter |
| JsText.TrimFacts | packages/mobile/src/features/todo/components/AddTodoModal.tsx:31-41 | `trim` gives the empty text iff the text is blank; otherwise the result starts and ends with a non-space |
| JsText.TrimIdempotent | packages/mobile/src/features/todo/components/AddTodoModal.tsx:41 | trimming twice is trimming once |
| JsText.TrimmedOrNoneFacts | packages/mobile/src/features/todo/components/AddTodoModal.tsx:42-44 | the trimmed text or undefined is undefined iff the text is blank, and otherwise the non-empty trimmed text |
| JsText.PadStart | packages/mobile/src/components/organisms/PomodoroTimer.tsx:26 | the text is left-filled with the fill character up to the length, and ends with the original text |
| JsText.NatToString | packages/mobile/src/components/organisms/PomodoroTimer.tsx:26 | `toString` of a natural number is a non-empty numeral without leading zeros |
| JsText.DecimalValueOfNatToString | packages/mobile/src/components/organisms/PomodoroTimer.tsx:26 | reading a numeral back gives its number |
| JsText.Pad2 | packages/mobile/src/components/organisms/PomodoroTimer.tsx:26 | two-digit zero padding gives digits that read as the number, exactly two below 100 |
| JsText.IndexOf | packages/mobile/src/features/todo/components/EditTodoModal.tsx:46 | the first position of the character, or -1 iff it does not occur |
| JsText.Split | packages/mobile/src/features/dream/components/DreamEditor.tsx:41 | `split` gives at least one piece, and no piece holds the separator |
| JsText.JoinSplit | packages/mobile/src/features/dream/components/DreamEditor.tsx:41 | joining the pieces of a split with the separator gives the text back |
| JsText.SplitJoin | packages/mobile/src/features/dream/components/DreamEditor.tsx:41 | splitting a join of separator-free pieces gives the pieces back |
| JsText.SplitConcat | packages/mobile/src/features/dream/components/DreamEditor.tsx:41 | `(a + sep + b).split(sep)` is the split of `a` followed by the split of `b` |
| JsText.ParseIntDigits | packages/mobile/src/components/organisms/PomodoroSettingsModal.tsx:34 | `parseInt` of a non-empty digit string is its decimal value |
| JsText.ParseIntOfNatToString | packages/mobile/src/components/organisms/PomodoroSettingsModal.tsx:34 | `parseInt(n.toString())` is `n` |
| JsText.ParseIntNegative | packages/mobile/src/components/organisms/PomodoroSettingsModal.tsx:34 | a minus sign before a numeral negates it |
| JsText.ParseIntLeadingSpace | packages/mobile/src/components/organisms/PomodoroSettingsModal.tsx:34 | leading white space is skipped |
| JsText.ParseIntNotANumber | packages/mobile/src/components/organisms/PomodoroSettingsModal.tsx:34 | a text starting with neither white space, a sign nor a digit is NaN |
| JsText.ParseIntDigitsBound | packages/mobile/src/components/organisms/PomodoroSettingsModal.tsx:92 | `parseInt` of `k` digits is NaN only for the empty text, and otherwise below 10^k |

## Left out

- Storage: AsyncStorage and JSON (de)serialisation become an abstract outcome. A load gets an optional stored list, and a save gets a success flag. A read or parse error is the same as nothing stored.
- Clocks and timers: `Date.now()`, `new Date()`, `setInterval` and `clearInterval`, the `AppState` subscription, and React's effect and render scheduling. PomodoroContext.tsx:31-36 subscribes to `AppState` with the dependency list `[state.isRunning]`, so the foreground handler, and the `handlePhaseComplete` it calls, use the `settings` captured when `isRunning` last changed. `PomodoroController.AppStateChange` uses the current settings: a settings change made while the timer runs, followed by a return to the foreground that completes the phase, is not modelled with the stale durations. Clock readings and elapsed milliseconds are parameters, and each timer firing is one call of a `Tick` method.
- Instants: `createdAt`/`updatedAt` and the invitation expiry are millisecond numbers. Their ISO text form and the parse of the expiry string are not modelled.
- Date keys: the `YYYY-MM-DD` key of today is a parameter wherever the source calls `toISOString().split('T')[0]`.
- Time zones: the source mixes UTC keys (`toISOString`) with local months and days (`getMonth`, `getDate`). The model uses one time-zone-free proleptic Gregorian calendar, so a cell's key is the key of its own date.
- Identifiers: `Date.now().toString()` ids are parameters. Uniqueness is not assumed, so update, toggle and delete act on every todo or dream with the id.
- Locale formatting: the `toLocaleDateString` headings (the month title, the day panel's long date, the dream card's date) and the invitation history's `toLocaleString`.
- The invitation screen's code history list, copy and share actions, and its network calls: the service result is a parameter of `GenerateCode`.
- Remote calls: the sign-in, sign-up and reset requests. The service's answer is a success flag, and remote error messages and the generic "something went wrong" alert are not modelled.
- Notifications and the notification debugger: they are platform APIs.
- Presentation: colours from the theme, styles, icons other than the phase icons, and the `Platform.OS` choice between `alert` and `Alert.alert`. Both alert paths carry the same message, and the model keeps that message.
- Text: strings are sequences of code points. Lengths where the source counts UTF-16 units (the 6-character password check, `maxLength`) agree for the texts that matter here.
- `DreamScreen.SortedDreams`: a `createdAt` that is not a number (NaN in the comparator) is not modelled, because timestamps are integers.
- `DayDetails.MoodEmoji`: the object-literal lookup is modelled as a map of the five moods. A mood name that is an `Object.prototype` key (such as `toString`) is not modelled.
- `CalendarScreen.CalendarView.constructor`: requires only a month in range and does not state `Valid()` afterwards, although `new Date()` is always a valid date. `GoToPreviousMonth` and `GoToNextMonth` require `Valid()`.
- `CalendarScreen.CalendarView.GoToToday`: the same weakening as the constructor.
- `PomodoroContext.PomodoroController.UpdateSettings`: it keeps the controller invariant only when the merged settings are sanitised, as they are when they come from the settings form.

## Findings

| source | as written | input that shows it | evidently intended | confidence | as-written member | corrected member |
|---|---|---|---|---|---|---|
| packages/mobile/src/features/todo/components/EditTodoModal.tsx:212-213 | the duration is the absolute difference of the hour fields in hours and of the minute fields in minutes, each taken on its own | start 09:50, end 10:10: it shows 1 hour 40 minutes for twenty minutes | hours and minutes of the distance between the two times | not executed | EditTodoModal.ShownDurationWrong | EditTodoModal.Duration |
