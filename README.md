# StudySync core, modelled in Dafny

StudySync is a React and Firestore study app. This project models the logic inside its components that can be stated exactly, once the clock, the store, the language model and `JSON.parse` are made inputs:

- **Streaks.** `calculateStreaks` turns session timestamps into distinct UTC days, then sorts and walks them. It finds the running streak and the longest streak, applies the "yesterday" rule, and reconciles the longest streak with the stored value.
- **Topic quiz and practice exam.** Both are state machines over one answer sheet with the same scoring, submit guard and retry. The quiz also restores stored results and chooses the shape of the generated quiz. The exam adds a countdown and its `m:ss` display. The two percentage displays differ: the quiz rounds, the exam floors.
- **`cleanJSON`.** Strips a Markdown code fence from a language-model reply. The app contains it twice; it is modelled once.
- **Revision section.** `handleCreateExam` looks up the module, joins its notes, builds the exam record and prepends it to the list. It also sets the error and closes the modal. The "Unknown Module" label fallback is modelled too.
- **Stopwatch.** The `(isRunning, elapsed, lastTick)` state of `StopwatchProvider`, with start, pause, reset and the interval body.
- **`formatTime`.** Milliseconds to `HH:MM:SS`.
- **Seven-day chart buckets.** The bucketing in `fetchStudyData`: seven `dd/mm` buckets, filled with whole minutes and listed in creation order.
- **Module details editor.** Adding a topic, changing an input field and editing the notes.

## How the code is modelled

- **Component state.** Each component's state is a class whose fields are the `useState` variables. Its handlers are methods whose `modifies` clauses name what they change.
  - Where a handler does several things, its new state is stated as a pure function of the old state. The properties are proved about that function. Examples are `TopicQuizComponent.Initialised`, `RevisionSectionComponent.CreateExam` and `StopwatchContext.Step`.
- **Loops.** The source's counting and filling loops are `for` and `while` loops with invariants: `forEach` scoring, the streak walk, the 7-day initialisation and the session accumulation.
- **Language primitives.** JavaScript's `trim`, `\s`, `%`, `String(n)`, `padStart`, `slice(-2)`, `join` and `split` are written out in `js_builtins.dfy`.
  - `Math.floor` with a positive divisor is Dafny's `/`.
  - JavaScript's truncating `%` is `JsRem`.
- **Outside inputs.** I/O and foreign calls become parameters. `Outcome<T>` is the result or the throw of an awaited call. `ParseResult` is what `JSON.parse` gives, or its failure. `now`, `nowMs` and `createdAt` stand for `Date.now()`.
  - The chart's local calendar is two functions: `daysBefore(i)` gives the day `i` days back, and `localDate(t)` gives the day of timestamp `t`.
- **Scoring.** An answer is correct when `selectedAnswers[i] === q.answer`: exact, untrimmed string equality. The quiz rounds its percentage and the exam floors it.

## Model

| member | source | states |
|---|---|---|
| Streaks.DayKey | lib/streakUtils.ts:22-25 | the key of a timestamp is the UTC day whose 86400000 ms span contains it |
| Streaks.YesterdayIsPreviousDay | lib/streakUtils.ts:59-64 | the key of the instant one day before now is the day before today's key |
| Streaks.DayKeyUnique | lib/streakUtils.ts:24 | a timestamp lies in exactly one day span, so equal keys mean the same UTC day |
| Streaks.SameDayCollapses | lib/streakUtils.ts:19-26 | a further session on an already present day leaves the day set unchanged |
| Streaks.CollectDayKeys | lib/streakUtils.ts:19-26 | the collected keys have no duplicates and are exactly the set of session days |
| Streaks.Insert | lib/streakUtils.ts:30-32 | inserting a new day into an ascending sequence keeps it ascending, adds exactly that day and lengthens it by one |
| Streaks.SortAscending | lib/streakUtils.ts:30-32 | the sorted days are strictly ascending, the same set and the same number, so no two walk steps share a day |
| Streaks.LongestRunPositive | lib/streakUtils.ts:38-53 | the longest run is at least 1 exactly when there is a session day |
| Streaks.LongestRunUnique | lib/streakUtils.ts:38-53 | the longest run is a function of the set of days |
| Streaks.LatestRunUnique | lib/streakUtils.ts:38-53 | the run ending at the latest day is a function of the set of days |
| Streaks.LatestRunAtMostLongest | lib/streakUtils.ts:51 | the run ending at the latest day never exceeds the longest run |
| Streaks.StepCurrent | lib/streakUtils.ts:42-49 | a later day one after the previous extends the run ending there by one; a bigger gap starts a run of one |
| Streaks.FirstDay | lib/streakUtils.ts:39-40 | the first walked day is a maximal run of one |
| Streaks.StepLongest | lib/streakUtils.ts:51 | after a later day is added, no run is longer than the maximum of the old longest and the run ending at the new day |
| Streaks.WalkDays | lib/streakUtils.ts:34-53 | over ascending days the walk ends with `highest` equal to the longest run of consecutive days and `current` equal to the run ending at the latest day (0 with no days), and `current <= highest` |
| Streaks.SavedValue | lib/streakUtils.ts:72-79 | a missing document or missing field reads as 0, a present field as its value |
| Streaks.CalculateStreaks | lib/streakUtils.ts:8-89 | signed out: {0, 0} and no write. Otherwise: the current streak is 0 when yesterday has no session, and otherwise it is the run ending at the latest day, at most the pass's longest. The highest is max(saved, longest run). The store is written iff the longest run exceeds the saved value, and it is written with the returned highest. No sessions give {0, saved} |
| Grading.Range | components/details/TopicQuiz.tsx:109 | the set of question indices 0..n-1 has n elements |
| Grading.SubsetSize | components/details/TopicQuiz.tsx:107-114 | a subset is no bigger, and equal size means equal sets |
| Grading.ScoreAtMostTotal | components/details/TopicQuiz.tsx:107-114 | the score never exceeds the number of questions |
| Grading.FullMarksIff | components/details/PracticeExam.tsx:40-47 | the score equals the number of questions iff every question carries its own answer |
| Grading.NoAnswersScoreZero | components/details/TopicQuiz.tsx:119-123 | an empty sheet scores 0 |
| Grading.OnlyThatIndexChanges | components/details/TopicQuiz.tsx:100-105 | overwriting answer i changes the correctness of no other question |
| Grading.SelectMovesScoreByAtMostOne | components/details/TopicQuiz.tsx:100-114 | selecting one answer moves the score by at most one |
| Grading.IsCorrect | components/details/TopicQuiz.tsx:110 | a question with no entry in the sheet is never correct |
| Grading.Score | components/details/TopicQuiz.tsx:109-110 | the score is 0 exactly when no question is answered with its own `answer` |
| Grading.CountCorrect | components/details/TopicQuiz.tsx:107-114 | the `forEach` count equals the number of indices whose answer exactly equals the question's `answer` (unanswered never counts) and is at most the number of questions |
| Grading.SubmitGuard | components/details/TopicQuiz.tsx:191 | with answers filed under question indices, the guard opens exactly when every question is answered |
| Grading.QuotientUnique | components/details/PracticeExam.tsx:141 | the floor quotient is the only integer whose multiple brackets the dividend |
| Grading.RoundedPercent | components/details/TopicQuiz.tsx:200 | the result is the integer nearest to 100*score/total, halves rounded up |
| Grading.FlooredPercent | components/details/PracticeExam.tsx:141 | no number for an empty exam; otherwise the result is the floor of 100*score/total |
| Grading.PercentsInRange | components/details/TopicQuiz.tsx:200 | for 0 <= score <= total, both percentages lie in 0..100 |
| Grading.RoundedIsFloorOrNext | components/details/PracticeExam.tsx:141 | the rounded percentage is the floored one or one more |
| TopicQuizComponent.QuizFromParse | components/details/TopicQuiz.tsx:71-80 | a non-empty quiz is exactly a parsed array or a parsed object's `questions` list; a reply that does not parse gives the empty quiz |
| TopicQuizComponent.FencedArrayBecomesQuiz | components/details/TopicQuiz.tsx:69-74 | a fenced reply whose body parses to an array becomes exactly that quiz |
| TopicQuizComponent.FencedObjectBecomesQuiz | components/details/TopicQuiz.tsx:69-77 | a fenced reply whose body parses to an object with `questions` becomes that list |
| TopicQuizComponent.Restored | components/details/TopicQuiz.tsx:50-63 | the stored array becomes the questions and loading ends. A non-empty stored sheet is restored with results shown; the stored score is adopted only when score and total are both numbers. Otherwise the sheet, results flag and score are unchanged |
| TopicQuizComponent.Generated | components/details/TopicQuiz.tsx:66-87 | a reply gives the questions chosen from the cleaned and parsed reply, and the same list is reported. A failed request keeps the questions and reports nothing. Either way loading ends and the sheet is untouched |
| TopicQuizComponent.Initialised | components/details/TopicQuiz.tsx:49-88 | stored array: restore and report nothing; otherwise generate from the reply. Loading always ends |
| TopicQuizComponent.TopicQuiz.constructor | components/details/TopicQuiz.tsx:28-34 | the initial state: no questions, loading, empty sheet, results hidden, score 0 |
| TopicQuizComponent.TopicQuiz.InitQuiz | components/details/TopicQuiz.tsx:49-88 | the new state and the reported list are those of `Initialised` |
| TopicQuizComponent.TopicQuiz.RestoreQuiz | components/details/TopicQuiz.tsx:50-63 | the new state is `Restored` of the old |
| TopicQuizComponent.TopicQuiz.GenerateQuiz | components/details/TopicQuiz.tsx:66-87 | the new state and the reported list are `Generated` of the old |
| TopicQuizComponent.TopicQuiz.HandleAnswerSelect | components/details/TopicQuiz.tsx:100-105 | only the selected question's entry changes; every other entry and field is kept |
| TopicQuizComponent.TopicQuiz.HandleSubmitQuiz | components/details/TopicQuiz.tsx:107-117 | score = number of correct answers, between 0 and the question count; results shown; the reported sheet, score and total are the current ones |
| TopicQuizComponent.TopicQuiz.HandleRetryQuiz | components/details/TopicQuiz.tsx:119-123 | the sheet is empty, results are hidden, and the score is 0, which equals the score of the empty sheet |
| PracticeExamComponent.LastTwo | components/details/PracticeExam.tsx:62 | `slice(-2)` gives the last two characters, or the whole of a shorter string |
| PracticeExamComponent.TwoDigits | components/details/PracticeExam.tsx:62 | two decimal digit characters |
| PracticeExamComponent.TwoDigitsValue | components/details/PracticeExam.tsx:62 | the two digits read back as the number |
| PracticeExamComponent.PadSingleDigit | components/details/PracticeExam.tsx:62 | a seconds value below 10 shows with a leading 0 |
| PracticeExamComponent.PadDoubleDigit | components/details/PracticeExam.tsx:62 | a seconds value of 10 to 99 shows as its own two digits |
| PracticeExamComponent.SecondsShowTwoDigits | components/details/PracticeExam.tsx:62 | the seconds of a non-negative timer always show as exactly two digits |
| PracticeExamComponent.TimeDisplay | components/details/PracticeExam.tsx:61-62 | the display is at least four characters, with the colon third from the end |
| PracticeExamComponent.TimeDisplayParts | components/details/PracticeExam.tsx:61-62 | the display is floor(timer/60), a colon and two digits of timer % 60 |
| PracticeExamComponent.TimeDisplayRoundTrip | components/details/PracticeExam.tsx:61-62 | splitting the display on `:` gives two digit fields with minutes*60 + seconds = timer |
| PracticeExamComponent.PracticeExam.constructor | components/details/PracticeExam.tsx:21-26 | the timer starts at `timeAllowed * 60`, with an empty sheet, not submitted, score 0 |
| PracticeExamComponent.PracticeExam.Tick | components/details/PracticeExam.tsx:28-34 | while not submitted and time remains, exactly one second goes; otherwise nothing changes. A non-negative start stays within 0..start |
| PracticeExamComponent.PracticeExam.HandleAnswerSelect | components/details/PracticeExam.tsx:36-38 | only that index's entry changes, for a chosen option and for typed text alike |
| PracticeExamComponent.PracticeExam.HandleSubmitExam | components/details/PracticeExam.tsx:40-47 | score = number of correct answers, at most the question count; submitted |
| PracticeExamComponent.PracticeExam.HandleRetryExam | components/details/PracticeExam.tsx:49-54 | sheet cleared, not submitted, score 0, timer back at exactly its start |
| JsonFences.StripOpeningFence | components/sections/RevisionSection.tsx:108-110 | the result is a suffix of the text; without a leading "```json" it is the text itself |
| JsonFences.StripClosingFence | components/sections/RevisionSection.tsx:111-113 | the result is a prefix of the text; without a trailing "```" it is the text itself |
| JsonFences.OpenedIsSlice | components/sections/RevisionSection.tsx:107-110 | the trimmed reply after the opening fence is a contiguous piece of the reply |
| JsonFences.CleanJson | components/sections/RevisionSection.tsx:106-115 | the cleaned text is never longer than the reply |
| JsonFences.CleanJsonTrimmed | components/sections/RevisionSection.tsx:106-115 | the cleaned text, which `JSON.parse` receives, has no white space at either end |
| JsonFences.CleanJsonIsSlice | components/sections/RevisionSection.tsx:106-115 | the cleaned text is a contiguous piece of the reply and never longer |
| JsonFences.CleanJsonWithoutFences | components/sections/RevisionSection.tsx:107-114 | with no fence at either end the result is the trimmed reply |
| JsonFences.CleanJsonKeepsUnlabelledStart | components/sections/RevisionSection.tsx:108 | without "```json" the beginning of the trimmed reply is kept, so a bare "```" is not stripped |
| JsonFences.OpeningFenceStripped | components/sections/RevisionSection.tsx:109 | "```json" and all white space after it go |
| JsonFences.ClosingFenceStripped | components/sections/RevisionSection.tsx:112 | the final "```" and all white space before it go |
| JsonFences.WhitespaceConcat | components/sections/RevisionSection.tsx:109 | two runs of white space make one |
| JsonFences.EmptyFencedBody | components/sections/RevisionSection.tsx:108-113 | a fence holding only white space cleans to "" |
| JsonFences.NonEmptyFencedBody | components/sections/RevisionSection.tsx:108-113 | the white space on both inner sides of a non-empty body goes and the body stays |
| JsonFences.FencesStripped | components/sections/RevisionSection.tsx:108-113 | after trimming, a fenced body cleans to exactly the body |
| JsonFences.CleanJsonFencedRoundTrip | components/sections/RevisionSection.tsx:106-115 | white space, "```json", white space, the body, white space, "```", white space cleans to exactly the body |
| RevisionSectionComponent.FindIndex | components/sections/RevisionSection.tsx:149 | None iff no module has the id; otherwise the first index with that id |
| RevisionSectionComponent.FindModule | components/sections/RevisionSection.tsx:149 | None iff no module has the id; otherwise the module at the first index holding that id, as `find` returns |
| RevisionSectionComponent.TopicNotes | components/sections/RevisionSection.tsx:154 | the topics' notes, one per topic, in order |
| RevisionSectionComponent.NoTopicsNoNotes | components/sections/RevisionSection.tsx:154 | a module without topics sends empty notes |
| RevisionSectionComponent.NotesContentInOrder | components/sections/RevisionSection.tsx:154 | splitting the notes content on "\n" gives each topic's notes in order (at least one topic, no line break inside a note) |
| RevisionSectionComponent.ModuleLabel | components/sections/RevisionSection.tsx:202-203 | an unknown module shows "Unknown Module"; a known one shows its label, or "Unknown Module" if the label is empty |
| RevisionSectionComponent.ModuleLabelNeverEmpty | components/sections/RevisionSection.tsx:202-203 | the label shown is never empty; anything but the fallback is the label of a module with that id |
| RevisionSectionComponent.ExamFromResponse | components/sections/RevisionSection.tsx:155-180 | a failed generator call passes its error through; the result is an exam exactly when the call succeeds and its cleaned reply parses, and then it is the parsed value; a cleaned reply that does not parse becomes a throw with the parser's message |
| RevisionSectionComponent.NotesContent | components/sections/RevisionSection.tsx:154 | the content opens with the first topic's notes and closes with the last topic's |
| RevisionSectionComponent.AfterGenerate | components/sections/RevisionSection.tsx:162-182 | the modal always closes; a failed generation keeps the list and sets the message or "Error generating practice exam"; a parsed exam is saved as `SaveExam` does, and a successful save puts that exam data in front |
| RevisionSectionComponent.FencedReplyParsed | components/sections/RevisionSection.tsx:162-163 | a fenced reply is parsed from exactly its body |
| RevisionSectionComponent.SaveExam | components/sections/RevisionSection.tsx:118-139 | a save puts the new record in front and keeps every earlier one in order; a failure keeps the list and sets `message` or "Error adding practice exam"; the modal flag is untouched |
| RevisionSectionComponent.CreateExam | components/sections/RevisionSection.tsx:141-183 | unknown module: only the error "Selected module not found", no generator call, modal left open. Otherwise the notes content is sent and the modal closes. A generation or parse failure keeps the list and sets `message` or "Error generating practice exam". A parsed exam is saved with the details record |
| RevisionSectionComponent.RevisionSection.constructor | components/sections/RevisionSection.tsx:42-47 | modules are the passed ones or []; the list is empty, there is no error and the modal is closed |
| RevisionSectionComponent.RevisionSection.OpenModal | components/sections/RevisionSection.tsx:219 | the modal is open |
| RevisionSectionComponent.RevisionSection.SavePracticeExam | components/sections/RevisionSection.tsx:118-139 | the new state is `SaveExam` of the old |
| RevisionSectionComponent.RevisionSection.FinishCreateExam | components/sections/RevisionSection.tsx:162-182 | the new state is the parse-failure error or the saved exam, with the modal closed |
| RevisionSectionComponent.RevisionSection.HandleCreateExam | components/sections/RevisionSection.tsx:141-183 | the generator request and the new state are those of `CreateExam` |
| StopwatchContext.TickGain | app/contexts/StopwatchContext.tsx:26 | with no last tick the gain is 0; with a clock that has not gone back it is not negative |
| StopwatchContext.Step | app/contexts/StopwatchContext.tsx:24-45 | a running watch always has a last tick, and every step keeps this. Reset gives the initial state. Only a tick of a running watch changes `elapsed` |
| StopwatchContext.RunConsistent | app/contexts/StopwatchContext.tsx:24-45 | any history keeps a running watch's last tick present |
| StopwatchContext.ResetForgets | app/contexts/StopwatchContext.tsx:41-45 | after `reset` the state is the initial one, whatever came before |
| StopwatchContext.Run | app/contexts/StopwatchContext.tsx:24-45 | a history of only start and pause presses leaves `elapsed` unchanged: only firings and reset change it |
| StopwatchContext.RunAppend | app/contexts/StopwatchContext.tsx:24-45 | running two histories in turn is running their concatenation |
| StopwatchContext.ElapsedMonotone | app/contexts/StopwatchContext.tsx:26-43 | with a non-decreasing clock and no reset, `elapsed` never decreases |
| StopwatchContext.Ticks | app/contexts/StopwatchContext.tsx:25-28 | one tick event per firing time, in order |
| StopwatchContext.TicksTelescope | app/contexts/StopwatchContext.tsx:26-27 | consecutive firings of a running watch add exactly last firing − last recorded tick |
| StopwatchContext.StoppedTicksAddNothing | app/contexts/StopwatchContext.tsx:24 | firings while stopped change nothing |
| StopwatchContext.PausedTimeNotCounted | app/contexts/StopwatchContext.tsx:36-40 | after pause, idle firings, start at s and firings up to t, `elapsed` has grown by exactly t − s |
| StopwatchContext.Stopwatch.constructor | app/contexts/StopwatchContext.tsx:17-19 | not running, 0 elapsed, no last tick |
| StopwatchContext.Stopwatch.Start | app/contexts/StopwatchContext.tsx:36-39 | running, last tick = now, elapsed unchanged |
| StopwatchContext.Stopwatch.Pause | app/contexts/StopwatchContext.tsx:40 | only the running flag changes, to false |
| StopwatchContext.Stopwatch.Reset | app/contexts/StopwatchContext.tsx:41-45 | stopped, 0 elapsed, no last tick |
| StopwatchContext.Stopwatch.Tick | app/contexts/StopwatchContext.tsx:24-28 | while running: elapsed grows by now − last tick (0 without one) and last tick = now; while stopped nothing changes |
| StudySectionTime.Fields | components/sections/StudySection.tsx:15-18 | for ms >= 0 the hours are not negative and the minutes and seconds lie in 0..59 |
| StudySectionTime.FormatTime | components/sections/StudySection.tsx:14-23 | the display always has at least eight characters, two per padded field and two colons |
| StudySectionTime.FieldsAddUp | components/sections/StudySection.tsx:15-18 | hours*3600 + minutes*60 + seconds = floor(ms/1000), minutes and seconds in 0..59 |
| StudySectionTime.FieldWidths | components/sections/StudySection.tsx:19-22 | minutes and seconds show as exactly two digits, hours as at least two |
| StudySectionTime.SplitClock | components/sections/StudySection.tsx:19-22 | three digit fields joined with ":" split back into those fields |
| StudySectionTime.FormatTimeRoundTrip | components/sections/StudySection.tsx:14-23 | splitting on ":" gives three digit fields that read back as floor(ms/1000) |
| StudySectionTime.UnderOneSecond | components/sections/StudySection.tsx:14-23 | any ms below 1000 shows "00:00:00" |
| StudyHoursChartBuckets.WholeMinutes | components/charts/StudyHoursChart.tsx:55 | the result is floor(duration/60000) |
| StudyHoursChartBuckets.WeekLabels | components/charts/StudyHoursChart.tsx:40-45 | seven labels, 6 days back first and today last |
| StudyHoursChartBuckets.AddKey | components/charts/StudyHoursChart.tsx:46 | the assigned key is among the keys |
| StudyHoursChartBuckets.InsertionOrder | components/charts/StudyHoursChart.tsx:59 | the key list is never longer than the sequence of assignments |
| StudyHoursChartBuckets.InsertionOrderKeys | components/charts/StudyHoursChart.tsx:59 | exactly the assigned keys appear |
| StudyHoursChartBuckets.InsertionOrderDistinct | components/charts/StudyHoursChart.tsx:59 | each key appears once |
| StudyHoursChartBuckets.InsertionOrderAppend | components/charts/StudyHoursChart.tsx:46 | a further assignment puts a new key at the end and leaves the order otherwise |
| StudyHoursChartBuckets.InsertionOrderOfDistinct | components/charts/StudyHoursChart.tsx:40-59 | distinct keys keep exactly their assignment order |
| StudyHoursChartBuckets.MinutesFor | components/charts/StudyHoursChart.tsx:49-56 | a bucket whose label no session carries holds 0 minutes |
| StudyHoursChartBuckets.MinutesForAppend | components/charts/StudyHoursChart.tsx:49-56 | a further session adds its whole minutes to its own bucket and nothing to the others |
| StudyHoursChartBuckets.MinutesNonNegative | components/charts/StudyHoursChart.tsx:55 | with non-negative durations no bucket is negative |
| StudyHoursChartBuckets.Label | components/charts/StudyHoursChart.tsx:43-45 | the label has at least five characters and holds a "/" |
| StudyHoursChartBuckets.LabelFormat | components/charts/StudyHoursChart.tsx:43-45 | a valid day's label is 5 characters: two day digits, "/", two month digits |
| StudyHoursChartBuckets.Pad2Injective | components/charts/StudyHoursChart.tsx:43-45 | different numbers below 100 pad to different texts |
| StudyHoursChartBuckets.LabelInjective | components/charts/StudyHoursChart.tsx:43-45 | different valid days have different labels |
| StudyHoursChartBuckets.WeekInOrderBy | components/charts/StudyHoursChart.tsx:40-47 | under a label function that tells valid days apart, seven different days give seven buckets, oldest first |
| StudyHoursChartBuckets.WeekInOrder | components/charts/StudyHoursChart.tsx:40-62 | with seven different valid days the buckets are exactly their `dd/mm` labels, oldest first |
| StudyHoursChartBuckets.InitBuckets | components/charts/StudyHoursChart.tsx:39-47 | the loop leaves one 0 bucket per label, keyed in the order the labels were assigned |
| StudyHoursChartBuckets.AddSessions | components/charts/StudyHoursChart.tsx:49-57 | no bucket is created, and each bucket holds the whole minutes of exactly the sessions with its label |
| StudyHoursChartBuckets.Bucket | components/charts/StudyHoursChart.tsx:27-62 | nothing is produced signed out; otherwise one row per bucket in creation order, each with its sessions' minutes |
| StudyHoursChartBuckets.FetchStudyData | components/charts/StudyHoursChart.tsx:25-64 | the same as `Bucket`, with the `dd/mm` label |
| ModuleDetailsEditor.WithField | components/details/ModuleDetails.tsx:28-31 | the named field takes the value; every other field is unchanged |
| ModuleDetailsEditor.AddTopic | components/details/ModuleDetails.tsx:34-42 | blank text changes nothing, not even the box. Otherwise the trimmed text is appended, the existing topics keep their order, the other fields are unchanged and the box is cleared |
| ModuleDetailsEditor.AddedTopicIsTrimmed | components/details/ModuleDetails.tsx:35-38 | an added topic is non-empty and has no white space at its ends |
| ModuleDetailsEditor.AddTopicTwice | components/details/ModuleDetails.tsx:34-42 | a second add right after the first changes nothing |
| ModuleDetailsEditor.ModuleEditor.constructor | components/details/ModuleDetails.tsx:24-25 | the record is the given module and the box is empty |
| ModuleDetailsEditor.ModuleEditor.HandleInputChange | components/details/ModuleDetails.tsx:28-31 | the new record is `WithField` of the old |
| ModuleDetailsEditor.ModuleEditor.HandleNewTopicChange | components/details/ModuleDetails.tsx:134 | the box holds the typed text |
| ModuleDetailsEditor.ModuleEditor.HandleAddTopic | components/details/ModuleDetails.tsx:34-42 | the new record and box are `AddTopic` of the old |
| ModuleDetailsEditor.ModuleEditor.HandleNotesChange | components/details/ModuleDetails.tsx:153-155 | only `notes` changes |
| JsBuiltins.JsRem | components/sections/StudySection.tsx:17-18 | `%` takes the sign of the dividend and agrees with Euclidean `%` for non-negative operands |
| JsBuiltins.MathMax | lib/streakUtils.ts:82 | the larger of the two |
| JsBuiltins.TrimStart | components/details/ModuleDetails.tsx:35 | a suffix that does not start with white space |
| JsBuiltins.TrimEnd | components/details/ModuleDetails.tsx:35 | a prefix that does not end with white space |
| JsBuiltins.TrimStartDropsWhitespace | components/details/ModuleDetails.tsx:35 | what is dropped in front is white space |
| JsBuiltins.TrimEndDropsWhitespace | components/details/ModuleDetails.tsx:35 | what is dropped at the end is white space |
| JsBuiltins.Trim | components/details/ModuleDetails.tsx:35 | no longer than the text, with no white space at either end |
| JsBuiltins.TrimSlice | components/sections/RevisionSection.tsx:107 | the trimmed text is a contiguous piece of the text with only white space around it |
| JsBuiltins.TrimEmptyIff | components/details/ModuleDetails.tsx:35 | the trimmed text is empty iff the text is all white space |
| JsBuiltins.TrimStartAfterWhitespace | components/sections/RevisionSection.tsx:109 | white space in front of a text that does not start with white space is removed exactly |
| JsBuiltins.TrimEndBeforeWhitespace | components/sections/RevisionSection.tsx:112 | white space after a text that does not end with white space is removed exactly |
| JsBuiltins.TrimAround | components/sections/RevisionSection.tsx:107 | white space around a text without white space at its ends trims away exactly |
| JsBuiltins.Repeat | components/sections/StudySection.tsx:19 | n copies of the character |
| JsBuiltins.PadStart | components/sections/StudySection.tsx:19-22 | at least the width long, ending with the text, pad characters in front |
| JsBuiltins.DigitValue | components/sections/StudySection.tsx:19 | a digit character's value below 10, the inverse of `DigitChar` |
| JsBuiltins.NatToString | components/sections/StudySection.tsx:19 | at least one digit and no leading zero; one digit exactly for n < 10 |
| JsBuiltins.IntToString | components/details/PracticeExam.tsx:61-62 | a minus sign before the digits of a negative number, the digits otherwise |
| JsBuiltins.ParseNatToString | components/sections/StudySection.tsx:19 | the decimal text of n reads back as n |
| JsBuiltins.ParseNatLeadingZeros | components/sections/StudySection.tsx:19 | leading zeros change neither digit-ness nor value |
| JsBuiltins.PadZerosKeepsValue | components/sections/StudySection.tsx:19 | zero padding keeps a digit string's value |
| JsBuiltins.PaddedRoundTrip | components/sections/StudySection.tsx:19-22 | a zero-padded number reads back as itself |
| JsBuiltins.Pad2 | components/sections/StudySection.tsx:19 | at least two characters |
| JsBuiltins.AtMostTwoDigits | components/charts/StudyHoursChart.tsx:43 | a number below 100 has at most two digits |
| JsBuiltins.Pad2Length | components/charts/StudyHoursChart.tsx:43-45 | a number below 100 pads to exactly two characters |
| JsBuiltins.Pad2Small | components/charts/StudyHoursChart.tsx:43-45 | a number below 100 pads to two digits reading back as itself |
| JsBuiltins.Pad2Digits | components/sections/StudySection.tsx:19-22 | a non-negative number pads to digits reading back as itself |
| JsBuiltins.DigitsHaveNoColon | components/sections/StudySection.tsx:19-22 | a digit string has no ":" |
| JsBuiltins.Join | components/sections/RevisionSection.tsx:154 | `join` opens with the first piece and closes with the last |
| JsBuiltins.Split | components/sections/StudySection.tsx:19-22 | a reader of `split` semantics, used only to state the inverses of `join` (`SplitJoin`, `NotesContentInOrder`) and of the clock displays (`SplitClock`, `TimeDisplayParts`); the app calls no `split` here. It always gives at least one piece |
| JsBuiltins.SplitNoSeparator | components/sections/RevisionSection.tsx:154 | a text without the separator splits to itself |
| JsBuiltins.SplitAtFirst | components/sections/StudySection.tsx:19-22 | splitting at the first separator gives the part before it, then the split of the rest |
| JsBuiltins.SplitJoin | components/sections/RevisionSection.tsx:154 | splitting a join of separator-free pieces gives the pieces back |
| Wrappers.ErrorText | components/sections/RevisionSection.tsx:137 | the error text: a non-empty message is kept, an empty one falls back |

## Left out

- Firestore: `getDocs`, `getDoc`, `setDoc`, `addDoc`, `query` and `auth.currentUser` are external I/O. Fetched data are parameters, a signed-in user is a flag, a store write is a returned value, and a new document's id is the `saved` outcome. Fetching the modules and the saved quizzes in the revision section is not modelled, and neither are the `loadingModules` and `loadingRevision` flags.
- The language-model clients (`fetchAIResponse`, `practiceExamClient`) are foreign network calls; their result is the `response` outcome. `components/sections/RevisionSection.tsx:16` imports a `practiceExamClient`, but `lib/practiceExamClient.ts:3` does not export one. The logic around the call is modelled as if it existed.
- `JSON.parse` is external; its result is the `parse` parameter.
  - The revision section's parsed exam is kept as a `Json` value, whose contents are not inspected.
- Timers: `setInterval` and `clearInterval` scheduling is not modelled, so a tick is a method called by hand. `Date.now()` is the `now` parameter.
- StopwatchContext.Stopwatch.Tick: takes one `now`. The source reads `Date.now()` twice in one firing, once for the gain and once for the new last tick, and any gap between the two reads is not modelled.
- Calendar conversions are not modelled: `new Date`, `toISOString`, `setDate`, `getDate` and `getMonth`.
  - Streak days are integer UTC days.
  - The chart's days come from the `daysBefore` and `localDate` functions.
- Streaks.CalculateStreaks: yesterday is one day of milliseconds before now, which is the UTC day before today's key. The local-time `setDate` in the source can differ from this across a daylight-saving change.
- StudyHoursChartBuckets.FetchStudyData: takes `daysBefore` as given. It proves the output is in creation order for any calendar. That the seven days are valid and pairwise different is a precondition of `WeekInOrder`, not a fact proved about the calendar.
- Grading.RoundedPercent: exact rational arithmetic with halves rounded up. The source computes with IEEE doubles, which can land just below a boundary; for example, 57/100*100 is 56.99999999999999.
- Grading.FlooredPercent: the same exact-arithmetic caveat as `RoundedPercent`.
- Grading.SubmitGuard: the equivalence holds only when every answer is filed under a question index, which is how the handlers call it. An answer filed under another index can open the guard with a question left blank; this is allowed but not characterised further.
- Rendering, JSX, styles and console logging are not modelled.
- The attempt view (`attemptExam`, `setAttemptExam`) and the modal form are not modelled. The modal's settings arrive as the handler's parameters.
- Durations and timestamps are integers. A fractional millisecond count is outside the model.
- Grading.Question: `answer` is always a string. In the source a question without an `answer` field makes `selectedAnswers[index] === q.answer` true for an unanswered index (`undefined === undefined`, components/details/TopicQuiz.tsx:110 and components/details/PracticeExam.tsx:43). "Unanswered never counts" holds only for questions that carry an answer.
- TopicQuizComponent.QuizFromParse: a truthy `parsed.questions` that is not an array is used as the quiz by the source (components/details/TopicQuiz.tsx:75-76). `Json.JObject` carries only a list of questions or nothing, so that case is not expressed.
- Streaks.CalculateStreaks: takes integer timestamps and returns a value for each. In the source a session whose `timestamp` is missing, not a number or beyond 8.64e15 ms gives an Invalid Date. Its `toISOString()` throws a RangeError and `calculateStreaks` rejects (lib/streakUtils.ts:22-24). That error path is not modelled.
- Each handler is one atomic step. Overlapping awaits are not modelled: an `initQuiz` or `handleCreateExam` still pending while a retry, a selection or a second create runs.
- The `label` field of a module is named `moduleLabel`, because `label` is a Dafny keyword.
- StudySectionTime.FormatTimeRoundTrip: proved for `ms >= 0` only. A negative `ms`, which the source shows with minus signs, is covered by no lemma.
- PracticeExamComponent.TimeDisplayRoundTrip: proved for a non-negative timer only. The timer never goes below 0 from a non-negative start (`PracticeExam.Tick`).
