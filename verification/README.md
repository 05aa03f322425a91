# Hermione, verified

Hermione lets a teacher watch a programming class: editors and terminals report to a server, and a
dashboard shows who is at work on what, who is stuck, and how a file differs from an earlier look at
it. Around the plumbing it has a number of self-contained algorithms and protocols. This project
models those in Dafny and proves what they are for.

| file | what it models |
|---|---|
| `EditScripts.dfy` | edit scripts between two lists, and the longest common subsequence, defined twice |
| `LineDiffs.dfy`, `Hunks.dfy`, `SinceDiffs.dfy` | the dashboard's comparison of two texts: peeling, the table, the walk back, hunks, and patching with them |
| `Utf8.dfy` | texts measured in bytes, and cut on character boundaries |
| `Intraline.dfy`, `WordDiffers.dfy` | the words marked on the two lines of an edited pair |
| `ColouredLines.dfy`, `DiffRows.dfy` | coloured spans, marking them, and the rows of a diff |
| `SnapshotKeys.dfy`, `SnapshotModel.dfy`, `SnapshotStores.dfy`, `SnapshotProtocol.dfy` | live snapshots: the key, the reuse of colours, the store, and editors and server interleaved |
| `SharedPaths.dfy` | what happens to that protocol when an editor has two buffers with one path |
| `Fences.dfy`, `TimeOnTask.dfy`, `Lessons.dfy` | time on task, outlier fences and the level shown, lessons |
| `TokenCaches.dfy`, `SolutionsCaches.dfy`, `Baselines.dfy` | three caches used by many requests at once |
| `Ingest.dfy` | recording a terminal in batches |
| `Sse.dfy` | reading server-sent events piece by piece |
| `Globs.dfy`, `Exercises.dfy` | globs compiled to regular expressions, and which exercise a file belongs to |
| `Attention.dfy` | who has been flagged, announced and visited |

Code that changes things step by step is a method, with loops and arrays where the source has them,
proved against what it should give. Objects updated in place are classes. What happens between
concurrent parties is a step function on the state of the whole system, and the claims are about
every sequence of steps.

## What came out

Besides the claims that hold as expected, these are worth a maintainer's time. Each is the
contract of a lemma or a method.

* A caret-only snapshot report is always truthful about the text, as long as no editor has two
  buffers with one path. Two such buffers are the cells of a notebook, which share its path and have
  versions of their own (`vscode-extension/src/snapshot.ts:151`); or an ordinary file that is closed
  and opened again, where the second document starts counting versions anew. `SharedPathsMislead`:
  after any run that has left an editor with two, some further steps, none of which opens anything,
  have the server store one buffer's text for the other. `OnlySharedPathsMislead`: that can happen
  exactly then.
* The map of solution slots is swept once it holds 512. A sweep may take out a slot that a reader has
  in hand and whose lock it has yet to try, and then one file can be fetched twice at once.
  `OneFetchAtATime` and `SweepInUseLetsTwoFetch` together say that this is the only way, and
  `LargeClassesFetchTwice` that one such reader is enough, while 511 other files are read in turn.
* A terminal stream that starts a second session after its first one ended leaves the second session
  open for good: that there was an end is remembered per stream (`crates/server/src/grpc.rs:203`).
  `RestartedSessionsStayOpen` runs such a stream. A session that has no end of its own before the next
  one starts stays open too. `SessionAtEnd` is what becomes of every session.
* The error counts are per stream as well (`crates/server/src/grpc.rs:88-90`), so a second session is
  credited with the first one's errors, and errors of the first that had not been written yet never
  reach it: `RestartedSessionsMiscount` runs such a stream. `CountsOwnErrorsIff` and
  `LastCountsOwnErrorsIff` say exactly when a session's row counts its own errors.
* An event stream whose unterminated end is a lone carriage return loses its last event
  (`ReadsWhatIsMeant`). Otherwise an event still open at the end is delivered, as its documentation
  says.
* A folder's rule does not match a file under it when the folder's name holds a backslash, or when
  the file's path beyond the folder holds a line terminator, and otherwise it does
  (`FolderRuleWorksIff`). A second folder with the same slug gets no rule
  (`FilesBelongToTheirFolder`). A file of a folder `a\b` belongs to the exercise of folder `a`, where
  there is one (`BackslashFilesGoElsewhere`).
* In `since.js` the second way to answer "same" is never taken: texts that differ have lists of
  lines that differ, a missing final newline included. The comment on
  `crates/server/static/assets/since.js:72` says otherwise; the model follows the code.
* In `intraline.rs` the two sides of the "covers the whole line" condition always agree, since what
  is left unmarked is the same text on both sides.
* The store's sweep shows in one case only: a snapshot went stale, an insertion into more than 256
  entries swept it out, and it is touched after that (`PruningIsInvisible`, in both directions, with
  `MissedTouch` said by the calls). `ingest` looks whether the snapshot is fresh and touches it under
  two separate locks (`crates/server/src/snapshots/mod.rs:79`, `:95`), so this takes a snapshot that
  runs out, and a sweep, in between. A touch of a snapshot that is still fresh is never missed
  (`FreshTouchIsNotMissed`).

## Hypotheses

* The version of a buffer determines its text, and never goes down: so VS Code promises for a document
  that stays open. One that is opened again is another buffer. Language ids and commit ids hold no
  `|`. The server is not restarted within a sequence of steps, so its snapshot numbers are not given
  out again.
* Clocks do not go back.
* Names in the watch list are not among those every JavaScript object inherits, such as `toString` or
  `__proto__`, which `attention.js` would find in an empty list.
* A word differ's operations go through both lists of words, and the runs it calls equal are equal
  (`Honest`). `ScriptsAreHonest` shows that the project's own edit scripts keep this promise, and
  `SomeDifferIsHonest` that some differ keeps it on all lists.
* Grammars, the alphanumeric characters, slugs, what plain text is made of terminal output and
  which of it looks like an error are arbitrary functions.

## Model

| member | source | states |
|---|---|---|
| LineDiffs.Script | crates/server/static/assets/since.js:21-57 | gives nothing exactly when the middles exceed the cell limit; otherwise a script that spells both lists with consecutive numbers, whose kept rows are a longest common subsequence of the whole lists, that is no longer than any other script, and removes before it adds |
| LineDiffs.PeelingKeepsLcs | crates/server/static/assets/since.js:22-27 | peeling the shared ends loses nothing: the longest common subsequence is the two ends and that of the middles |
| LineDiffs.PeelRejoins | crates/server/static/assets/since.js:22-27 | the peeled parts put together are the two lists |
| LineDiffs.PeelEnds | crates/server/static/assets/since.js:22-27 | the two loops find how much the lists share at either end, without overlapping |
| LineDiffs.FillTable | crates/server/static/assets/since.js:31-39 | every cell holds the length for the suffixes it stands for, and no cell is over 1999, so none wraps in 16 bits |
| LineDiffs.SuffixesFit | crates/server/static/assets/since.js:28-32 | within the cell limit no suffixes have more than 1999 lines in common |
| LineDiffs.Walk | crates/server/static/assets/since.js:42-52 | the walk back spells the middles and keeps as many lines as the table promises |
| LineDiffs.NoRemovalAfterAdding | crates/server/static/assets/since.js:46-51 | having had to add, the walk does not remove next |
| EditScripts.OptimalByCount | crates/server/static/assets/since.js:30-52 | a script that keeps as many rows as the recurrence says keeps a longest common subsequence, and no other script is shorter |
| EditScripts.LcsBounds | crates/server/static/assets/since.js:30-39 | no common subsequence is longer than the recurrence says |
| EditScripts.KeptIsCommon | crates/server/static/assets/since.js:40-56 | the kept rows of any script are found in order on both sides |
| Hunks.FindChanges | crates/server/static/assets/since.js:65-71 | counts added and removed rows and lists exactly the changed ones |
| Hunks.CutHunks | crates/server/static/assets/since.js:74-92 | hunks hold exactly the rows within three of a change, each once, in order, with a row left out between any two |
| Hunks.CutsAreNear | crates/server/static/assets/since.js:86-91 | widening and merging gives exactly the rows near a change |
| SinceDiffs.Diff | crates/server/static/assets/since.js:61-94 | same exactly for equal texts, uncomparable exactly over the limit; otherwise hunks of an optimal script that patch the old lines into the new and back |
| SinceDiffs.PatchForward | crates/server/static/assets/since.js:74-93 | patching the old lines with the hunks gives the new ones; every hunk says where it sits |
| SinceDiffs.PatchRoundTrip | crates/server/static/assets/since.js:74-93 | the hunks turned round undo the patch |
| SinceDiffs.CutHasOld | crates/server/static/assets/since.js:79-83 | no hunk falls back to line 0: each holds a line of a side that has any |
| SinceDiffs.JoinSplit | crates/server/static/assets/since.js:63 | splitting into lines loses nothing |
| Intraline.Tokens | crates/server/src/snapshots/intraline.rs:88-119 | tokens tile the line on character boundaries; words and whitespace runs are whole, symbols single |
| Intraline.TokensUnique | crates/server/src/snapshots/intraline.rs:88-119 | there is one way only to cut a line like that |
| Intraline.Join | crates/server/src/snapshots/intraline.rs:123-134 | joined ranges are separated by text and mark the same text as before; every slice taken is in bounds |
| Intraline.CoversNoSurvivors | crates/server/src/snapshots/intraline.rs:138-146 | a separated range covers the line exactly when no text is left unmarked |
| Intraline.DiffWords | crates/server/src/snapshots/intraline.rs:43-56 | the gathered ranges mark the changed words and the shared weight is that of the equal ones |
| Intraline.FindChanges | crates/server/src/snapshots/intraline.rs:35-72 | answers exactly when enough text is shared and some is left; its ranges are ordered, on boundaries, separated by text, hold every changed token and otherwise only whitespace |
| Intraline.ChangesLeaveSharedText | crates/server/src/snapshots/intraline.rs:35-72 | hiding the marks and all whitespace leaves the same text on both sides, and some |
| Intraline.NoSurvivors | crates/server/src/snapshots/intraline.rs:75-80 | nothing survives exactly when all that is not whitespace is marked |
| Utf8.SliceAt | crates/server/src/snapshots/intraline.rs:127 | a slice between the byte offsets of two characters is the text between them |
| Utf8.OffOrder | crates/server/src/snapshots/intraline.rs:144-145 | byte offsets are in the order of the characters they belong to |
| WordDiffers.ScriptsAreHonest | crates/server/src/snapshots/intraline.rs:45-55 | any edit script keeps the promise asked of the word differ |
| WordDiffers.DiffWordLists | crates/server/src/snapshots/intraline.rs:45 | the line differ put to work on words keeps it |
| WordDiffers.SomeDifferIsHonest | crates/server/src/snapshots/intraline.rs:45 | some differ keeps it on all lists of words |
| ColouredLines.MarkLine | crates/server/src/highlight.rs:150-173 | changes no character, class or order, flags exactly the characters in the ranges, and draws no empty piece |
| ColouredLines.MarkSpan | crates/server/src/highlight.rs:153-171 | one span's pieces draw it flagged as the ranges say, and every piece is cut on boundaries |
| ColouredLines.Rebuilds | crates/server/src/highlight.rs:177-186 | reading spans off the front succeeds exactly when together they are the text |
| ColouredLines.PlainLineText | crates/server/src/highlight.rs:133-139 | a plain line reads as its text |
| DiffRows.BuildRows | crates/server/src/snapshots/diff.rs:116-164 | row by row: the sign of its line, numbers counted from the hunk's start, and colours from the right side, or plain |
| DiffRows.NumbersCountLines | crates/server/src/snapshots/diff.rs:131-161 | a row's number is the hunk's start and the lines before it on its side, modulo 2 to the 32nd |
| DiffRows.RowsShowReport | crates/server/src/snapshots/diff.rs:115-176 | whatever the colours, every row reads exactly as reported, with its line's sign and number |
| DiffRows.SpansForText | crates/server/src/snapshots/diff.rs:215-219 | the spans chosen for a line rebuild it, whatever the candidate |
| DiffRows.MarkPair | crates/server/src/snapshots/diff.rs:191-199 | marks the two rows of a pair with the words that changed, or neither; no other row and no text changes |
| DiffRows.MarkWords | crates/server/src/snapshots/diff.rs:183-204 | each removed line is marked with the added line at the same place of the run after it, each row at most once, and all others are as they were |
| DiffRows.BlockPairs | crates/server/src/snapshots/diff.rs:188-195 | within a run of removed and added lines the k-th goes with the k-th, and with no other |
| DiffRows.PairsAreApart | crates/server/src/snapshots/diff.rs:183-204 | over a whole hunk no line is in two pairs, neither a removed one nor an added one |
| DiffRows.PairsReadAlike | crates/server/src/snapshots/diff.rs:183-212 | the rows of a pair are as coloured, or read the same but for what is marked and whitespace |
| DiffRows.BuildHunk | crates/server/src/snapshots/diff.rs:115-176 | a hunk shows its report and counts its sides |
| DiffRows.KeepHunks | crates/server/src/snapshots/diff.rs:57-67 | the hunks kept are as many of the first as fit 2000 rows, each showing its report, and there is a cut exactly when one is left out |
| DiffRows.BuildDiff | crates/server/src/snapshots/diff.rs:45-74 | added and removed are counted over all hunks, and those kept show their reports |
| SnapshotKeys.KeysTellPartsApart | vscode-extension/src/snapshot.ts:148-152 | equal keys were made of equal parts, whatever bars a path holds |
| SnapshotModel.NewContent | crates/server/src/snapshots/model.rs:94-109 | cuts on a character boundary, and says so exactly when something was cut |
| SnapshotModel.ClampLongest | crates/server/src/snapshots/model.rs:95-103 | nothing longer fits |
| SnapshotModel.ReuseChangesNothing | crates/server/src/snapshots/model.rs:132-191 | on top of a coherent snapshot a report gives a coherent one, and a whole report the very one it gives on top of nothing |
| SnapshotModel.ChainsReuseNothing | crates/server/src/snapshots/model.rs:132-235 | for every chain of reports, reusing colours shows what building from nothing shows |
| SnapshotStores.SnapshotStore.InsertSnapshot | crates/server/src/snapshots/store.rs:60-76 | answers how many insertions there have been, and leaves the store as the log of calls says |
| SnapshotStores.SnapshotStore.TouchSnapshot | crates/server/src/snapshots/store.rs:81-85 | leaves the store as the log of calls says, with this one added |
| SnapshotStores.SnapshotStore.LatestSnapshot | crates/server/src/snapshots/store.rs:88-97 | answers, in terms of the calls so far, the slot's last insertion while it is fresh, unless it was touched too late |
| SnapshotStores.SnapshotStore.ClaimAsk | crates/server/src/snapshots/store.rs:101-114 | yes exactly when the last yes to this slot is 750 ms old or there was none |
| SnapshotStores.PruningIsInvisible | crates/server/src/snapshots/store.rs:60-114 | a call is answered as a store that is never swept would answer it, exactly unless it reads a last insertion that would be fresh, had it not gone stale, been swept out by an insertion into more than 256 entries, and been touched after that |
| SnapshotStores.LostAreMissed | crates/server/src/snapshots/store.rs:60-85 | the calls alone tell which touches find their entry swept out |
| SnapshotStores.HeldAreLatest | crates/server/src/snapshots/store.rs:60-76 | and which slots have an entry |
| SnapshotStores.FreshTouchIsNotMissed | crates/server/src/snapshots/store.rs:81-97 | a touch of what a read would answer is not missed |
| SnapshotStores.ReadsLastKept | crates/server/src/snapshots/store.rs:88-97 | a read gives the last insertion for its slot, if it was inserted or touched within the time to live and not touched too late |
| SnapshotStores.RevsIncrease | crates/server/src/snapshots/store.rs:65-66 | later insertions have higher numbers |
| SnapshotStores.AskedOncePerInterval | crates/server/src/snapshots/store.rs:101-114 | over any calls, yes exactly when the last yes to that slot is at least 750 ms ago |
| SnapshotStores.YesesApart | crates/server/src/snapshots/store.rs:101-114 | two yeses to one slot are at least 750 ms apart |
| SnapshotProtocol.CursorReportsTellTheTruth | vscode-extension/src/extension.ts:897-970 | in every interleaving, what a caret-only report stores or confirms has the text, clamped, that the sender's buffer had when it took the key it compared |
| SnapshotProtocol.StepKeeps | crates/server/src/snapshots/mod.rs:79-107 | every step of an editor or of the server keeps the invariant, the read and the insert of one report being apart |
| SnapshotProtocol.StoredColoursAreFresh | crates/server/src/snapshots/mod.rs:100-106 | in every run, with or without shared paths, every snapshot ever stored has the colours of its own text |
| SnapshotProtocol.ReportsAreStoredAsBuiltAfresh | crates/server/src/snapshots/mod.rs:100-106 | in every run, what is stored for a report other than a caret's is the snapshot that building on nothing gives, whichever one its colours came from |
| SharedPaths.SharedPathsMislead | vscode-extension/src/snapshot.ts:148-152 | after any run that leaves an editor with two buffers of one path: further steps, opening nothing, after which the server has the other one's text |
| SharedPaths.OnlySharedPathsMislead | vscode-extension/src/snapshot.ts:148-152 | after any run, steps that open nothing can have a caret-only report mislead exactly when some editor has two buffers of one path |
| SharedPaths.ComesToRest | vscode-extension/src/extension.ts:897-970 | whatever an editor is in the middle of, it can come to an end with its buffers as they were |
| Fences.QuantileMonotone | crates/server/src/files.rs:574-579 | a higher quantile is no smaller |
| Fences.ValueBounds | crates/server/src/files.rs:574-579 | an interpolated value lies between its neighbours, which exist |
| Fences.FencesInOrder | crates/server/src/files.rs:556-570 | the watch fence is above the third quartile and not above the help fence |
| Fences.AtMostAQuarterReachWatch | crates/server/src/files.rs:556-579 | of n times, five or more, at most a quarter of n - 1, rounded up, reach the watch fence |
| Fences.Assess | crates/server/src/files.rs:615-669 | the level; each reason, with its numbers, exactly when it applies; and, the fences being in order, a level of ok exactly when there is none |
| Fences.MoreTroubleRanksHigher | crates/server/src/files.rs:606-669 | more errors, failures or time never lower the level |
| Fences.ClockFlagsFew | crates/server/src/files.rs:556-669 | however anyone types, the clock alone flags at most about a quarter of a class |
| TimeOnTask.TimePerFile | crates/server/src/files.rs:249-270 | every file and exercise with any time has exactly its seconds, a file the labels of its first credited event, and the total is all of it |
| TimeOnTask.CohortTimes | crates/server/src/files.rs:798-816 | the same seconds per exercise; above zero for the same exercises |
| TimeOnTask.CurrentExercise | crates/server/src/files.rs:827-846 | the same seconds for what is open now |
| TimeOnTask.RecapTotals | crates/server/src/recap.rs:202-234 | the same seconds under each exercise's index, the same total, and the last exercise worked on |
| TimeOnTask.IndexOf | crates/server/src/recap.rs:202-206 | exercises have different indexes, at which they stand |
| TimeOnTask.AllAgree | crates/server/src/files.rs:798-846 | the four loops agree on every exercise |
| TimeOnTask.FilesSumToTotal | crates/server/src/files.rs:249-282 | the seconds of the files, in whatever order, sum to the total |
| TimeOnTask.ExercisesSumToTotal | crates/server/src/files.rs:249-270 | tagged and untagged seconds sum to the total |
| TimeOnTask.TotalWithinElapsed | crates/server/src/files.rs:249-258 | for events in time order, no more is credited than passed |
| TimeOnTask.TotalWithinCaps | crates/server/src/files.rs:254 | nor more than two minutes for each event but the last |
| Lessons.Lessons | crates/server/src/recap.rs:153-162 | spans begin and end at times of the list, hold every time of their lesson, and are at least the gap apart |
| Lessons.SameLessonIffLinked | crates/server/src/recap.rs:151-152 | two times are in one lesson exactly when no neighbours between them are the gap apart |
| Lessons.InNoOtherSpan | crates/server/src/recap.rs:151-162 | every time lies in the span of its lesson and in no other |
| TokenCaches.OneMintAtATime | crates/server/src/github_app.rs:67-91 | in every interleaving a repo has at most one mint in flight |
| TokenCaches.SameRepoIffSameLetters | crates/server/src/github_app.rs:72-73 | names are one repo exactly when they differ in capitals only |
| TokenCaches.CachedTokensAreGood | crates/server/src/github_app.rs:81-90 | a cached token is the last minted, with more than 60 s left; a mint begins only when there is none |
| TokenCaches.FailureIsForgotten | crates/server/src/github_app.rs:87-89 | after a mint that failed or was dropped, and any time, the next request is answered or begins to mint exactly as if that mint had never begun |
| TokenCaches.OnlyItsOwnRepoHoldsARequestUp | crates/server/src/github_app.rs:74-81 | a queued request waits exactly while its own repo is being minted |
| SolutionsCaches.AnswersAreBelievable | crates/server/src/solutions/cache.rs:87-113 | in every interleaving, swept or not, a cached answer was fetched for that key within its kind's time to live |
| SolutionsCaches.OneFetchAtATime | crates/server/src/solutions/cache.rs:87-128 | while no sweep takes out such a slot, a file has one fetch in flight, and fetches begin 20 s or more after the last one ended |
| SolutionsCaches.SweepInUseLetsTwoFetch | crates/server/src/solutions/cache.rs:115-128 | once a sweep takes out a slot whose lock a reader has yet to try, there is a way on in which one file is fetched twice at once |
| SolutionsCaches.LargeClassesFetchTwice | crates/server/src/solutions/cache.rs:119-126 | such a sequence of steps, from an empty cache: one reader pauses while 511 other files are read one after another and one more is asked for |
| Baselines.BaselineCache.Look | vscode-extension/src/baselines.ts:94-99 | answers what is known and believed for this commit, and makes the file the most recent |
| Baselines.BaselineCache.Keep | vscode-extension/src/baselines.ts:101-110 | keeps what was loaded as the most recent, putting out the oldest over the limit |
| Baselines.KeepsTheMostRecent | vscode-extension/src/baselines.ts:86-111 | in every interleaving the cache is within its limit and holds exactly the files used most recently |
| Baselines.HitsExactlyWhatIsKnown | vscode-extension/src/baselines.ts:94-115 | a load is saved exactly when the file is among those, last loaded for the same commit, and still believed |
| Baselines.HitsWereLoaded | vscode-extension/src/baselines.ts:94-115 | every hit was loaded for that file and commit; an absence less than ten seconds ago |
| Baselines.LikeAlwaysLoading | vscode-extension/src/baselines.ts:86-111 | with a loader that always says the same, the cache cannot be told from none |
| Ingest.StreamSession | crates/server/src/grpc.rs:101-213 | ends well with exactly the rows of inserting one at a time, and every session as `SessionAtEnd` says; or stops at some input with a beginning of them; no INSERT is empty or over 128; and ends well when no write fails |
| Ingest.Stream.Handle | crates/server/src/grpc.rs:101-196 | between inputs, table and buffer are together all accepted rows, and fewer than 128 wait; failure keeps a beginning, and has a cause |
| Ingest.Stream.Flush | crates/server/src/grpc.rs:281-294 | empties the buffer into one INSERT, whose rows may have landed even when it fails |
| Ingest.Stream.PersistErrors | crates/server/src/grpc.rs:299-316 | writes the error count only when it changed |
| Ingest.Stream.Finish | crates/server/src/grpc.rs:198-214 | everything buffered is written; every session started has a row, closed and with its error count as the inputs say |
| Ingest.RowsAreNumbered | crates/server/src/grpc.rs:145-154 | rows are numbered 0, 1, 2, ... |
| Ingest.RowsAreTheChunks | crates/server/src/grpc.rs:131-154 | rows are exactly the chunks after the first start, each once, in order |
| Ingest.TableIsAPrefix | crates/server/src/grpc.rs:101-213 | however a call goes, the table is a beginning of those |
| Ingest.RestartedSessionsStayOpen | crates/server/src/grpc.rs:101-205 | a stream of start, end, start, every write going well, ends well with its second session open |
| Ingest.RestartedSessionsMiscount | crates/server/src/grpc.rs:87-203 | a stream of start, error, start, every write going well, ends well with the error counted for the second session and not for the first |
| Ingest.CountsOwnErrorsIff | crates/server/src/grpc.rs:299-316 | a session's row counts its own errors exactly when as many were carried in from before as it had after the count was last written for it, or it had none and nothing was written |
| Ingest.LastCountsOwnErrorsIff | crates/server/src/grpc.rs:200-205 | the last session's row does, in the end, exactly when none were carried in, or it had none and those carried in had been written before it started |
| Ingest.StreamOneSession | crates/server/src/grpc.rs:101-214 | with one session to a stream it is closed, and counts its own errors |
| Sse.SseEvents | vscode-extension/src/sse.ts:14-71 | what comes out depends on the whole text, not on where it was cut |
| Sse.LinesOfJoin | vscode-extension/src/sse.ts:50-57 | a buffer carried over between pieces gives the lines of the whole |
| Sse.ReadsWhatIsMeant | vscode-extension/src/sse.ts:26-67 | yields exactly the events of the blocks of the text, the open one too, exactly unless a lone carriage return at the end loses it |
| Sse.OpenIsLastBlock | vscode-extension/src/sse.ts:20-43 | line by line, the event being read is what the last block says, and those before it are out |
| Sse.RoundTrip | vscode-extension/src/sse.ts:14-71 | printed events come back exactly when no name holds a line feed and no line ends in a carriage return |
| Sse.CutAnywhere | vscode-extension/src/sse.ts:14-71 | printed events come back whole from any two ways of cutting the body |
| Globs.GlobToRegExp | vscode-extension/src/exercises.ts:52-75 | the loop's expression is the parts of the glob, each compiled |
| Globs.ReadsCompiled | vscode-extension/src/exercises.ts:55-73 | read back, the expression has one piece for every part, all else escaped |
| Globs.CompiledMeansTheGlob | vscode-extension/src/exercises.ts:51-75 | the expression matches exactly the paths the glob means |
| Globs.QuestionTakesOneUnit | vscode-extension/src/exercises.ts:66-75 | a question mark stands for one UTF-16 code unit, so a character beyond U+FFFF takes two |
| Globs.PlainGlobsMeanThemselves | vscode-extension/src/exercises.ts:68-75 | a glob without wildcards, surrogates or not, accepts exactly the code units it is made of |
| Exercises.ExerciseMap.Load | vscode-extension/src/exercises.ts:27-38 | the rules are then those of the files, in order, and no others |
| Exercises.ExerciseMap.Resolve | vscode-extension/src/exercises.ts:40-48 | the first exercise with a glob that means the path, slashes normalised |
| Exercises.PatternsCover | vscode-extension/src/exercises.ts:34 | some expression matches exactly when some glob that is not empty means the path |
| Exercises.RulesForFolders | crates/recorder/src/course.rs:327-339 | one rule for each folder that is the first of its slug |
| Exercises.NamesAreDistinct | crates/recorder/src/course.rs:328-334 | no two rules have the same name |
| Exercises.FolderGlobAccepts | crates/recorder/src/course.rs:335 | a folder's rule accepts exactly the paths under it whose part beyond it is on one line |
| Exercises.UnderOneFolder | crates/recorder/src/course.rs:327-339 | no path is under two folders |
| Exercises.FolderRuleWorksIff | crates/recorder/src/course.rs:327-339 | a folder's rule finds a file exactly when the folder's name holds no backslash and the rest of the path no line terminator |
| Exercises.FilesBelongToTheirFolder | crates/recorder/src/course.rs:221-250 | any path belongs to the exercise of the folder its normalised form begins with, if that one is the first of its slug and the rest of the path is on one line, and to none otherwise |
| Exercises.BackslashFilesGoElsewhere | vscode-extension/src/exercises.ts:40-48 | the files of a folder `a\b` belong to the exercise of folder `a`, where there is one |
| Attention.Update | crates/server/static/assets/attention.js:22-40 | entries for exactly the flagged, kept while no worse than known; names whoever newly needs help, once |
| Attention.EntriesAreStretches | crates/server/static/assets/attention.js:17-40 | from any saved list, over any polls and visits, an entry lasts exactly as long as the flag, with the worst rank of the stretch |
| Attention.StretchIsUnbroken | crates/server/static/assets/attention.js:17-40 | the stretch spelled out: flagged in every poll since it began, on the page or in the saved list, the rank being the highest |
| Attention.AnnouncedOncePerStretch | crates/server/static/assets/attention.js:21-37 | announced exactly when first needing help in a stretch |
| Attention.ReadBack | crates/server/static/assets/attention.js:105-111 | a list that one page leaves can be read back by the next, which goes on with the stretches that are recent enough and forgets the others |
| Attention.WalksEveryoneOnce | crates/server/static/assets/attention.js:43-80 | going to whoever is next and marking them seen, however the clock moves on the way: nobody is visited twice, each visit goes to the most urgent who asks then and is not visited, and nobody is next exactly when all who ask have been visited |
| Attention.VisitedNoLongerAsk | crates/server/static/assets/attention.js:43-80 | at any time, those who ask after some visits are those who asked before, less the visited, in the same order |
| Attention.WalksDownTheList | crates/server/static/assets/attention.js:68-80 | while the same students ask at every visit, the walk goes down their list |
| Attention.PolledIsUpToDate | crates/server/static/assets/attention.js:22-40 | after a poll every flagged student has an entry no later than the poll |
| Attention.SortsThem | crates/server/static/assets/attention.js:68-77 | sorting by urgency orders the same students |
| Attention.StepsUndoEachOther | crates/server/static/assets/attention.js:85-91 | a step round the ring and one back end where they began |

## Left out

- The rest of the repository: HTTP handlers, SQL, migrations, gRPC transport, terminal recording, the GitHub and Anthropic clients, sign-in, and the pages of the dashboard.
- Live fan-out of chunks and messages to viewers, and their catch-up with what was stored: no claim is made about what a viewer sees.
- `syntect` and `similar`: grammars are arbitrary functions from lines to spans, and the word differ any honest one.
- The server's comparison with a reference solution, whose work is done by `similar`.
- What the browser stores between comparisons (`since.js`, from line 96), and pins (`attention.js`, from line 93): a branch each.
- 64-bit sums of seconds, counts and times do not overflow in the model; 16-bit table cells and 32-bit row numbers are modelled as such, the latter wrapping as in a release build.
- Fences.QuantileMonotone: quantiles are computed over the reals, where the source has 64-bit floating point; the positions it uses are exact in both.
- Sorting is insertion sort in the model, where the source calls a library; names are compared through a collation that may tie.
- The extension's `Reporter` and the server's `ingest` are steps on values, one for each stretch of code between two awaits, not objects; timers, the queue of file events, size limits on posts and the decision what may be shared are not modelled.
- SnapshotProtocol.CursorReportsTellTheTruth: has no step that closes a document, so a file that is closed and opened again has two buffers from then on; and speaks of the text only: the diff shown with it may be against a commit that moved away and back while it was built.
- The order of lists taken out of hash maps, and the sorting of reports by seconds.
- Recap medians, follow-up lists and the order of undefined exercises in `recap.rs`; a class's terminal trouble is an input of `Assess`.
- Whether a repo's text at HEAD is that of the commit it was asked for with: `LikeAlwaysLoading` assumes so.
- A poisoned lock, which the Rust code recovers from; in `TokenCaches.dfy`, the order in which a lock is handed on.
- Ingest.StreamSession: session names, sizes and start times are not in the model, a resize changes nothing in it, and a session number already in use fails to start.
- Decoding bytes to text in `sse.ts`: pieces are given decoded. Section 9.2.6 of the WHATWG HTML standard also ends lines at a lone carriage return, knows `id` and `retry`, takes an empty event name for the default one, and drops an event still open at the end; the code does none of these, and the model follows it.
- Globs.CompiledMeansTheGlob: a character is a UTF-16 code unit, as for the engine. Dafny has no characters for surrogates, so those from U+10000 to U+107FF stand for them (`Unit`), and for nothing else. Of regular expressions the reader knows what the compiler can write, and rejects the rest.
- How a folder's name becomes a slug, which folders are skipped as build output, and the writing of the course file.
- Students with the same name in one poll: the server sends each once.
