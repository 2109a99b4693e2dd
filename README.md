# Exam proctoring platform: a verified model of its core

This project models the core of the Hackathon exam-proctoring platform in Dafny and
proves properties of that model:

- **The anti-cheat detector** (`AntiCheatDetector.jsx`) watches a student during an exam.
  It records violations: hiding the tab, the window losing focus, Alt/Meta+Tab,
  copy/paste/select/cut keys, other Ctrl+Shift shortcuts, the context menu, and
  developer tools (their keys, a console call, or the window-size probe). It applies a one-second
  debounce, shows a warning toast, reports each violation to the logging endpoint and
  blocks the exam once the count reaches the maximum. The hook is modelled as the class
  `AntiCheat.Detector`. Its fields are the component's state and refs. Every handler,
  effect and timer is a method. Each method is proved against a pure step function on
  `AntiCheat.DetectorState`, and the lemmas are stated about that step function.
- **The webcam frame hysteresis** (`RFAPI_DB/flaskws.py`) decides when to run face
  recognition and when to report gaze. It also keeps one global history of the frame
  intervals in which cheating was flagged. The model has the classes `ExamMonitor.ExamMonitoring`
  and `ExamMonitor.FrameHandler`, specified by pure functions of their state.
- **The frontend helpers** are modelled one module per page or component:
  - Commits and CommitHistory: the gaps between commits and the delayed ones, commit
    statistics, the per-day chart, and the newest-first list cut to a maximum;
  - DateFormatters: date and duration text;
  - ExamCreation: the question editor;
  - ExamFilters and ExamHistory: filtering and sorting exams;
  - ExamStatistics: attendance and fraud figures;
  - Monitoring and ProfessorDashboard: alert labels, colours, upcoming exams and recent alerts;
  - StudentDashboard: exam status and countdown;
  - ExamSession: the remaining-time text and the face-alert counter;
  - IdentityVerification: the door check;
  - MainLayout, Sidebar and Navbar: route guards, menu entries, initials and notifications.
  They are pure functions with lemmas. The page state that event handlers update is a
  class where the page has one.

Time is an integer number of milliseconds, and the current time is a parameter (`now`).
A `setTimeout` or `setInterval` callback is a method the environment calls when the
timer fires. JavaScript built-ins are defined once in module `Common`: filter,
split/join, trim, case mapping, integer-to-text and `Math.round` of a ratio. Module
`Sorting` holds a stable sort by an integer key, which is what `Array.prototype.sort`
with a key comparator does. The shared entity types are in `Types` (`types/index.ts`)
and `ExamTypes` (`types/exam.ts`).

## Model

| member | source | states |
|---|---|---|
| AntiCheat.Set | Hackathon/Plateform/frontend/src/components/AntiCheatDetector.jsx:210-228 | writing one console slot changes that slot and no other |
| AntiCheat.PatchAll | Hackathon/Plateform/frontend/src/components/AntiCheatDetector.jsx:210-219 | patching installs the wrapper on all five methods and stashes exactly the previous ones |
| AntiCheat.RestoreAll | Hackathon/Plateform/frontend/src/components/AntiCheatDetector.jsx:226-228 | restoring a full stash puts each of the five stashed methods back |
| AntiCheat.PatchThenRestore | Hackathon/Plateform/frontend/src/components/AntiCheatDetector.jsx:210-228 | the cleanup undoes the patch: the console is as it was before the effect ran |
| AntiCheat.RestoreNothing | Hackathon/Plateform/frontend/src/components/AntiCheatDetector.jsx:226-228 | when the effect returned early and stashed nothing, its cleanup changes nothing |
| AntiCheat.Initial | Hackathon/Plateform/frontend/src/components/AntiCheatDetector.jsx:7-21 | the detector starts with no violation, not blocked, not armed and with no event, and satisfies the invariant |
| AntiCheat.RerunKeepsConsole | Hackathon/Plateform/frontend/src/components/AntiCheatDetector.jsx:177-230 | re-running the effect leaves the console as it was; only the geometry latch is new |
| AntiCheat.Report | Hackathon/Plateform/frontend/src/components/AntiCheatDetector.jsx:38-46 | the report carries the kind, the time, the caller's details and the new count under "violationCount" |
| AntiCheat.ClassifyKey | Hackathon/Plateform/frontend/src/components/AntiCheatDetector.jsx:127-157 | a key is reported exactly when one of the four rules matches; the first matching rule decides the kind and details, and Ctrl+Shift with any other key reports KEYBOARD_SHORTCUT with ctrl, shift and key |
| AntiCheat.RecordGated | Hackathon/Plateform/frontend/src/components/AntiCheatDetector.jsx:63 | nothing is recorded while inactive or before arming |
| AntiCheat.Record | Hackathon/Plateform/frontend/src/components/AntiCheatDetector.jsx:62-98 | a signal the detector does not accept leaves the state as it is; an accepted one never lowers the count, never unblocks, and only appends events |
| AntiCheat.RecordDebounced | Hackathon/Plateform/frontend/src/components/AntiCheatDetector.jsx:67 | any signal, of any kind, within 1000 ms of the last accepted one is dropped and changes nothing |
| AntiCheat.RecordAccepted | Hackathon/Plateform/frontend/src/components/AntiCheatDetector.jsx:62-98 | an accepted signal counts one more, stamps the time, reports with the new count, warns when warnings are on and blocks at the threshold; nothing else changes but the fresh latch |
| AntiCheat.AcceptEvents | Hackathon/Plateform/frontend/src/components/AntiCheatDetector.jsx:74-96 | an accepted signal appends the report, then onViolation, then onExamBlocked at the threshold |
| AntiCheat.AcceptFields | Hackathon/Plateform/frontend/src/components/AntiCheatDetector.jsx:68-97 | field by field: the count, the stamp, the block, the warning and its hide timer change as the handler says; activation, arming and console do not |
| AntiCheat.AcceptClosedForm | Hackathon/Plateform/frontend/src/components/AntiCheatDetector.jsx:68-97 | the three stages of an accepted signal compose into one update of the detector |
| AntiCheat.CountStage | Hackathon/Plateform/frontend/src/components/AntiCheatDetector.jsx:68-82 | counting changes the count, the debounce stamp and the events, and nothing else |
| AntiCheat.WarnStage | Hackathon/Plateform/frontend/src/components/AntiCheatDetector.jsx:85-89 | the warning fields change only when warnings are on: the kind's label shows and one hide timer is queued |
| AntiCheat.BlockStage | Hackathon/Plateform/frontend/src/components/AntiCheatDetector.jsx:92-97 | at the threshold the exam is blocked and onExamBlocked is told the count; below it nothing changes |
| AntiCheat.RecordIsAccept | Hackathon/Plateform/frontend/src/components/AntiCheatDetector.jsx:62-98 | under the invariant, the effect re-run after an accepted signal only renews the geometry latch |
| AntiCheat.BlockedOnEveryViolationPastMax | Hackathon/Plateform/frontend/src/components/AntiCheatDetector.jsx:92-96 | every accepted violation at or past the threshold blocks and ends with an onExamBlocked notice, even when already blocked |
| AntiCheat.ReportedEndsWithBlock | Hackathon/Plateform/frontend/src/components/AntiCheatDetector.jsx:92-96 | at the threshold the events of a report end with the block notice for the count |
| AntiCheat.RecordMonotone | Hackathon/Plateform/frontend/src/components/AntiCheatDetector.jsx:62-98 | the aggregator never lowers the count, never unblocks and never removes an event |
| AntiCheat.RecordValid | Hackathon/Plateform/frontend/src/components/AntiCheatDetector.jsx:62-98 | the aggregator keeps the detector invariant |
| AntiCheat.SensorsKeepValid | Hackathon/Plateform/frontend/src/components/AntiCheatDetector.jsx:101-174 | the visibility, blur, keyboard and context-menu handlers keep the invariant |
| AntiCheat.ConsoleCallValid | Hackathon/Plateform/frontend/src/components/AntiCheatDetector.jsx:213-218 | a call of a patched console method keeps the invariant |
| AntiCheat.SetActiveValid | Hackathon/Plateform/frontend/src/components/AntiCheatDetector.jsx:177-243 | a change of the isActive prop keeps the invariant |
| AntiCheat.HostOperationsKeepValid | Hackathon/Plateform/frontend/src/components/AntiCheatDetector.jsx:235-256 | the arming timer, the hide timer, resetViolations and forceBlock keep the invariant |
| AntiCheat.ProbeTickValid | Hackathon/Plateform/frontend/src/components/AntiCheatDetector.jsx:183-204 | one tick of the devtools probe keeps the invariant |
| AntiCheat.AltTabFirst | Hackathon/Plateform/frontend/src/components/AntiCheatDetector.jsx:127-131 | Alt+Tab and Cmd+Tab are reported as such even with Ctrl and Shift held |
| AntiCheat.CtrlUIsCaseSensitive | Hackathon/Plateform/frontend/src/components/AntiCheatDetector.jsx:136 | Ctrl+U is a devtools key, Ctrl+u without Shift is not classified at all |
| AntiCheat.CopyPasteAnyCase | Hackathon/Plateform/frontend/src/components/AntiCheatDetector.jsx:135-145 | copy/paste keys match in either case, and Ctrl+Shift+C is the devtools rule instead |
| AntiCheat.KeyDownBeforeArming | Hackathon/Plateform/frontend/src/components/AntiCheatDetector.jsx:124-167 | before arming no key or context menu is prevented or recorded |
| AntiCheat.GeometryEdge | Hackathon/Plateform/frontend/src/components/AntiCheatDetector.jsx:187-195 | the geometry probe reports only on the rising edge of its condition and clears the latch silently on the falling edge |
| AntiCheat.GeometryLatchResetByAcceptedReport | Hackathon/Plateform/frontend/src/components/AntiCheatDetector.jsx:180-191 | an accepted geometry report re-runs the effect, whose fresh latch is closed again |
| AntiCheat.ConsoleCallRunsOriginalOnce | Hackathon/Plateform/frontend/src/components/AntiCheatDetector.jsx:213-218 | a patched method reports only when armed, and the original then runs exactly once, after the reports; the await on the report is taken as atomic (see Left out) |
| AntiCheat.RecordOnlyReports | Hackathon/Plateform/frontend/src/components/AntiCheatDetector.jsx:62-98 | the aggregator appends only reports and block notices, never console output |
| AntiCheat.ReportedNoConsole | Hackathon/Plateform/frontend/src/components/AntiCheatDetector.jsx:74-96 | the events of a report hold no console output |
| AntiCheat.ActivationArming | Hackathon/Plateform/frontend/src/components/AntiCheatDetector.jsx:233-243 | deactivating disarms, cancels the arming timer and restores the console; activating an inactive detector patches it and starts the 2000 ms timer |
| AntiCheat.ArmingOnlyWhenDue | Hackathon/Plateform/frontend/src/components/AntiCheatDetector.jsx:235-237 | the detector is armed once the timer set at activation is due, and only then |
| AntiCheat.ResetLaw | Hackathon/Plateform/frontend/src/components/AntiCheatDetector.jsx:246-249 | resetViolations clears the count and the block, and changes nothing else but the latch of the re-run effect |
| AntiCheat.ForceBlockLaw | Hackathon/Plateform/frontend/src/components/AntiCheatDetector.jsx:251-256 | forceBlock blocks whatever the count and tells onExamBlocked the current count with the forced payload |
| AntiCheat.WarningHiddenByEarlierTimer | Hackathon/Plateform/frontend/src/components/AntiCheatDetector.jsx:85-89 | hide timers are never cancelled: a second warning 1500 ms after the first is hidden 3000 ms after the first |
| AntiCheat.RecordWarns | Hackathon/Plateform/frontend/src/components/AntiCheatDetector.jsx:85-89 | with warnings on, an accepted signal shows its kind's label and queues one hide timer |
| AntiCheat.ThreeStrikes | Hackathon/Plateform/frontend/src/components/AntiCheatDetector.jsx:62-98 | with a threshold of 3, three spaced violations block on the third, and one within the window is dropped |
| AntiCheat.RecordCounts | Hackathon/Plateform/frontend/src/components/AntiCheatDetector.jsx:67-93 | an accepted signal counts one more, stamps the debounce and blocks exactly at or past the threshold |
| AntiCheat.HookOnViolation | Hackathon/Plateform/frontend/src/components/AntiCheatDetector.jsx:325-330 | a truthy reported count (a non-zero number, a non-empty text or true) becomes the hook's counter as it is; the block and active flags stay |
| AntiCheat.HookCountsOneMore | Hackathon/Plateform/frontend/src/components/AntiCheatDetector.jsx:325-330 | with no reported count, or a falsy one (0, "" or false), the hook's counter becomes its JavaScript `+ 1`: one more when it is a number |
| AntiCheat.HookTextCountConcatenates | Hackathon/Plateform/frontend/src/components/AntiCheatDetector.jsx:325-330 | a reported count "3" is stored as the text "3", and a later report without a count makes it "31" |
| AntiCheat.PlusOne | Hackathon/Plateform/frontend/src/components/AntiCheatDetector.jsx:328 | JavaScript `+ 1`: a number gains one, true and false become 2 and 1, and a text gets one character appended after it |
| AntiCheat.HookOnBlocked | Hackathon/Plateform/frontend/src/components/AntiCheatDetector.jsx:336-340 | the hook's block flag is set and its counter stays |
| AntiCheat.HookTracksDetector | Hackathon/Plateform/frontend/src/components/AntiCheatDetector.jsx:325-330 | for the detector's own report the hook's counter becomes the detector's new count as a number, whatever it held before |
| AntiCheat.PatchLoop | Hackathon/Plateform/frontend/src/components/AntiCheatDetector.jsx:211-219 | the patching loop computes the patch of the five methods, in order |
| AntiCheat.RestoreLoop | Hackathon/Plateform/frontend/src/components/AntiCheatDetector.jsx:226-228 | the restoring loop computes the restore of the stashed methods, in order |
| AntiCheat.Detector.constructor | Hackathon/Plateform/frontend/src/components/AntiCheatDetector.jsx:7-21 | the detector's fields start as the initial state, with the console patched when active |
| AntiCheat.Detector.PatchConsole | Hackathon/Plateform/frontend/src/components/AntiCheatDetector.jsx:210-219 | the console and stash become the patch of the old ones; nothing else changes |
| AntiCheat.Detector.RestoreConsole | Hackathon/Plateform/frontend/src/components/AntiCheatDetector.jsx:226-228 | the console becomes the restore of the old one from the stash; nothing else changes |
| AntiCheat.Detector.RerunDetection | Hackathon/Plateform/frontend/src/components/AntiCheatDetector.jsx:177-230 | the new state is the effect re-run of the old one |
| AntiCheat.Detector.HandleViolation | Hackathon/Plateform/frontend/src/components/AntiCheatDetector.jsx:62-98 | the new state is the aggregator's step on the old one, and the invariant holds |
| AntiCheat.Detector.CountReportWarnBlock | Hackathon/Plateform/frontend/src/components/AntiCheatDetector.jsx:68-97 | the new state is the accepted-signal step of the old one |
| AntiCheat.Detector.Warn | Hackathon/Plateform/frontend/src/components/AntiCheatDetector.jsx:85-89 | the new state is the warning stage of the old one |
| AntiCheat.Detector.CountAndLog | Hackathon/Plateform/frontend/src/components/AntiCheatDetector.jsx:68-82 | the new state is the counting stage of the old one |
| AntiCheat.Detector.BlockWhenOver | Hackathon/Plateform/frontend/src/components/AntiCheatDetector.jsx:92-97 | the new state is the blocking stage of the old one |
| AntiCheat.Detector.OnVisibilityChange | Hackathon/Plateform/frontend/src/components/AntiCheatDetector.jsx:102-106 | the new state is the visibility step of the old one |
| AntiCheat.Detector.OnWindowBlur | Hackathon/Plateform/frontend/src/components/AntiCheatDetector.jsx:108-110 | the new state is the blur step of the old one |
| AntiCheat.Detector.OnKeyDown | Hackathon/Plateform/frontend/src/components/AntiCheatDetector.jsx:123-158 | the new state is the keydown step of the old one, and the default is prevented exactly when an armed detector matches a rule |
| AntiCheat.Detector.OnContextMenu | Hackathon/Plateform/frontend/src/components/AntiCheatDetector.jsx:166-170 | the new state is the context-menu step, and the menu is suppressed exactly when armed |
| AntiCheat.Detector.OnProbeTick | Hackathon/Plateform/frontend/src/components/AntiCheatDetector.jsx:183-204 | the new state is the probe step of the old one |
| AntiCheat.Detector.OnConsoleCall | Hackathon/Plateform/frontend/src/components/AntiCheatDetector.jsx:213-218 | the new state is the console-call step of the old one |
| AntiCheat.Detector.OnActiveChange | Hackathon/Plateform/frontend/src/components/AntiCheatDetector.jsx:177-243 | the new state is the activation step of the old one |
| AntiCheat.Detector.ArmingTimer | Hackathon/Plateform/frontend/src/components/AntiCheatDetector.jsx:235-237 | the new state is the arming step of the old one |
| AntiCheat.Detector.WarningTimer | Hackathon/Plateform/frontend/src/components/AntiCheatDetector.jsx:88 | the new state is the hide step of the old one |
| AntiCheat.Detector.Reset | Hackathon/Plateform/frontend/src/components/AntiCheatDetector.jsx:246-249 | the new state is resetViolations applied to the old one |
| AntiCheat.Detector.Block | Hackathon/Plateform/frontend/src/components/AntiCheatDetector.jsx:251-256 | the new state is forceBlock applied to the old one |
| ExamMonitor.Max0 | Hackathon/RFAPI_DB/flaskws.py:151-183 | max(0, x): never negative, never below x, and x itself when x is not negative |
| ExamMonitor.ScanFacesBounds | Hackathon/RFAPI_DB/flaskws.py:81-158 | the face loop never makes the stability counter negative, and finds eyes exactly when some face has them |
| ExamMonitor.ScanFaces | Hackathon/RFAPI_DB/flaskws.py:81-158 | the face loop keeps a non-negative stability counter non-negative, and eyes once found stay found |
| ExamMonitor.ScanLookingNeedsEvidence | Hackathon/RFAPI_DB/flaskws.py:112-158 | the looking flag is only raised by a face with eyes that passed its test: a level gaze for two eyes, a centred face for one |
| ExamMonitor.SettleGaze | Hackathon/RFAPI_DB/flaskws.py:160-166 | with no face the frame is not looking and the stability counter is reset |
| ExamMonitor.RecordWellFormed | Hackathon/RFAPI_DB/flaskws.py:175-180 | recording a detailed frame just after the frames seen keeps the history ordered, disjoint and within the frames seen |
| ExamMonitor.CheatingStepKeepsGaze | Hackathon/RFAPI_DB/flaskws.py:169-186 | the cheating update neither reads nor writes the stability counter |
| ExamMonitor.Respond | Hackathon/RFAPI_DB/flaskws.py:192-196 | the response carries the updated cheating flag, and names only on detailed frames |
| ExamMonitor.MostRecentDetailed | Hackathon/RFAPI_DB/flaskws.py:41-54 | the most recent detailed frame up to n: detailed, at most n, and no detailed frame after it |
| ExamMonitor.InitialValid | Hackathon/RFAPI_DB/flaskws.py:17-23 | a fresh monitor satisfies the invariant |
| ExamMonitor.FrameCounter | Hackathon/RFAPI_DB/flaskws.py:37-54 | each frame handled in full raises the counter by one and stamps the last detailed check exactly on detailed frames (a frame that raises is FailedFrame) |
| ExamMonitor.DetailedCadence | Hackathon/RFAPI_DB/flaskws.py:40-42 | from frame 30 on, the latest detailed frame is never more than two frames old; the stamp equals it while no frame fails before the stamp (see FailureBeforeStampLags) |
| ExamMonitor.NoFaceNotLooking | Hackathon/RFAPI_DB/flaskws.py:164-171 | a frame with no face is not looking, resets the stability counter, and on a detailed frame counts one more not-looking check |
| ExamMonitor.NonDetailedKeepsVerdict | Hackathon/RFAPI_DB/flaskws.py:169 | a frame that is not detailed leaves the not-looking count, the flag and the history alone |
| ExamMonitor.Hysteresis | Hackathon/RFAPI_DB/flaskws.py:169-186 | on a detailed frame, not looking counts one more and raises the flag past 5; looking takes 2 off, never below 0, and clears the flag at 1 or less |
| ExamMonitor.CheatingStep | Hackathon/RFAPI_DB/flaskws.py:169-186 | the cheating update touches neither the frame counters nor the stability counter; the flag is raised only past 5 and cleared only at 1 or less |
| ExamMonitor.FrameStep | Hackathon/RFAPI_DB/flaskws.py:33-186 | each frame raises total_frames by one; a frame that is not detailed leaves the flag, the counter and the history as they were |
| ExamMonitor.CheatingOnlyAfterSixChecks | Hackathon/RFAPI_DB/flaskws.py:169-174 | the flag is raised only on a detailed, not-looking frame after at least six not-looking checks |
| ExamMonitor.HistoryUpdate | Hackathon/RFAPI_DB/flaskws.py:175-180 | a flagged frame extends the last interval when it ended on the previous frame, and starts a new one otherwise |
| ExamMonitor.NoMergeAfterFrame30 | Hackathon/RFAPI_DB/flaskws.py:176-177 | after frame 30 no two flagged frames are adjacent, so every flagged frame starts a new interval |
| ExamMonitor.FrameStepValid | Hackathon/RFAPI_DB/flaskws.py:33-186 | each frame keeps the invariant: counters non-negative, the last check stamped, the flag backed by history, the history well formed |
| ExamMonitor.FailedFrame | Hackathon/RFAPI_DB/flaskws.py:37-61 | a frame that raises still raises total_frames by one; the flag, the history and both counters stay; the stamp moves only if the failure came after it |
| ExamMonitor.ValidAllowsFailures | Hackathon/RFAPI_DB/flaskws.py:17-54 | the full invariant implies the weaker one that allows failed frames |
| ExamMonitor.FramesKeepValidWithFailures | Hackathon/RFAPI_DB/flaskws.py:33-186 | failed frames and frames handled in full both keep the weaker invariant: the stamp is some detailed frame seen, and the history stays well formed |
| ExamMonitor.FailureBeforeStampLags | Hackathon/RFAPI_DB/flaskws.py:37-54 | a detailed frame that raises before the stamp leaves the stamp behind the latest detailed frame, so the full invariant is lost |
| ExamMonitor.ExamMonitoring.constructor | Hackathon/RFAPI_DB/flaskws.py:18-23 | a fresh monitor has zero frames and checks, no flag, no history and no not-looking count |
| ExamMonitor.ExamMonitoring.DetailedCheck | Hackathon/RFAPI_DB/flaskws.py:169-186 | the counters become the detailed-check update of the old ones |
| ExamMonitor.FrameHandler.constructor | Hackathon/RFAPI_DB/flaskws.py:66-67 | the handler holds the monitor and a stability counter at 0 |
| ExamMonitor.FrameHandler.HandleFrame | Hackathon/RFAPI_DB/flaskws.py:33-199 | the new state is the frame step of the old one, and the response is the one that step emits |
| ExamMonitor.FrameHandler.HandleFailedFrame | Hackathon/RFAPI_DB/flaskws.py:37-61 | a frame that raises changes the monitor as FailedFrame does, and sends no response |
| ExamMonitor.FrameHandler.ScanGaze | Hackathon/RFAPI_DB/flaskws.py:59-158 | the loop computes the face scan from the old stability counter |
| Commits.CalculateIntervals | Hackathon/Plateform/frontend/src/pages/student/Commits.tsx:78-100 | one annotated commit per commit given |
| Commits.IntervalsOfShortList | Hackathon/Plateform/frontend/src/pages/student/Commits.tsx:79 | a list of at most one commit comes back as it is, with no interval |
| Commits.IntervalsNewestFirst | Hackathon/Plateform/frontend/src/pages/student/Commits.tsx:81-85 | from two commits on, the list is a permutation of the commits, newest first |
| Commits.IntervalsGaps | Hackathon/Plateform/frontend/src/pages/student/Commits.tsx:85-98 | each commit but the last carries the floored minutes to the next, never negative, and is delayed exactly above 15 minutes; the last carries neither |
| Commits.DefinedIntervals | Hackathon/Plateform/frontend/src/pages/student/Commits.tsx:120-122 | at most one interval per commit |
| Commits.CalculateStats | Hackathon/Plateform/frontend/src/pages/student/Commits.tsx:119-133 | the total is the number of commits, and the mean is 0 when no interval is defined |
| Commits.AverageIsRoundedMean | Hackathon/Plateform/frontend/src/pages/student/Commits.tsx:125-127 | the mean is the sum over the count rounded half up, as Math.round does |
| Commits.DefinedIntervalsNonNegative | Hackathon/Plateform/frontend/src/pages/student/Commits.tsx:120-126 | intervals that are never negative sum to a non-negative total |
| Commits.DefinedIntervalsCount | Hackathon/Plateform/frontend/src/pages/student/Commits.tsx:120-122 | a list whose commits but the last carry an interval has one interval fewer than commits |
| Commits.AverageNonNegative | Hackathon/Plateform/frontend/src/pages/student/Commits.tsx:125-127 | a non-negative total gives a non-negative mean |
| Commits.StatsOfIntervals | Hackathon/Plateform/frontend/src/pages/student/Commits.tsx:197-198 | the statistics of the annotated list count every commit, have a non-negative mean, 0 for at most one commit, and average the n - 1 gaps otherwise |
| Commits.CountOnDay | Hackathon/Plateform/frontend/src/pages/student/Commits.tsx:104-107 | no day holds more commits than the list |
| Commits.PrepareChartData | Hackathon/Plateform/frontend/src/pages/student/Commits.tsx:103-116 | one entry per day with commits, with its exact positive count, days ascending, every commit's day listed and the counts summing to the number of commits |
| Commits.TallyStep | Hackathon/Plateform/frontend/src/pages/student/Commits.tsx:104-107 | one more commit keeps the accumulator exact: keys once each in insertion order, exact counts, every commit's day present, counts summing to the commits seen |
| Commits.KeysStep | Hackathon/Plateform/frontend/src/pages/student/Commits.tsx:106 | one more commit keeps each day once among the keys, in insertion order |
| Commits.CountsStep | Hackathon/Plateform/frontend/src/pages/student/Commits.tsx:106 | one more commit raises its day's count by one, or starts it at 1, and leaves the others exact |
| Commits.CoversStep | Hackathon/Plateform/frontend/src/pages/student/Commits.tsx:106 | every commit seen keeps its day in the accumulator |
| Commits.ChartOfTally | Hackathon/Plateform/frontend/src/pages/student/Commits.tsx:110-115 | the entries of an exact accumulator, sorted by day, are the chart of the commits |
| Commits.ChartCounts | Hackathon/Plateform/frontend/src/pages/student/Commits.tsx:110-114 | each sorted entry holds the exact, positive count of its day |
| Commits.ChartCovers | Hackathon/Plateform/frontend/src/pages/student/Commits.tsx:110-114 | every commit's day is among the chart's days |
| Commits.ChartAscending | Hackathon/Plateform/frontend/src/pages/student/Commits.tsx:115 | distinct keys sorted by day give strictly ascending days |
| Commits.NoCommitOnDay | Hackathon/Plateform/frontend/src/pages/student/Commits.tsx:104-107 | a day no commit falls on counts zero |
| Commits.SumOverIncrement | Hackathon/Plateform/frontend/src/pages/student/Commits.tsx:106 | raising one existing day's count raises the total by one |
| Commits.SumOverUnchanged | Hackathon/Plateform/frontend/src/pages/student/Commits.tsx:106 | writing a day that is not a key leaves the total of the keys |
| Commits.SumOverFresh | Hackathon/Plateform/frontend/src/pages/student/Commits.tsx:106 | a new day starting at 1 raises the total by one |
| Commits.EntriesSum | Hackathon/Plateform/frontend/src/pages/student/Commits.tsx:110-114 | the entries' counts sum to the accumulator's total |
| Commits.SumCountsPermutation | Hackathon/Plateform/frontend/src/pages/student/Commits.tsx:115 | sorting the entries leaves their total unchanged |
| Commits.DistinctDaysPermutation | Hackathon/Plateform/frontend/src/pages/student/Commits.tsx:115 | sorting the entries keeps their days distinct |
| Commits.ExtractRepoName | Hackathon/Plateform/frontend/src/pages/student/Commits.tsx:50-63 | anything but the default label comes from a github.com URL with at least two path parts |
| Commits.RepoNameRoundTrip | Hackathon/Plateform/frontend/src/pages/student/Commits.tsx:55-58 | "https://github.com/owner/repo" gives back "owner/repo" |
| Commits.RepoNameOtherHost | Hackathon/Plateform/frontend/src/pages/student/Commits.tsx:53 | any other host gives the default label |
| Commits.FetchCommits | Hackathon/Plateform/frontend/src/pages/student/Commits.tsx:136-143 | a blank URL only sets the error; otherwise loading starts, the error clears and one timer is set |
| Commits.Analyse | Hackathon/Plateform/frontend/src/pages/student/Commits.tsx:197-199 | the annotated list, its statistics, and a chart of the fetched commits |
| Commits.CommitsPage.constructor | Hackathon/Plateform/frontend/src/pages/student/Commits.tsx:37-47 | the page starts empty, not loading, without error and with zero statistics |
| Commits.CommitsPage.SetRepoUrl | Hackathon/Plateform/frontend/src/pages/student/Commits.tsx:223-224 | only the URL changes |
| Commits.CommitsPage.Fetch | Hackathon/Plateform/frontend/src/pages/student/Commits.tsx:136-143 | the new state is the fetch step of the old one |
| Commits.CommitsPage.FetchTimerFires | Hackathon/Plateform/frontend/src/pages/student/Commits.tsx:146-204 | the fetched commits are shown annotated, with their statistics and chart; loading ends, the URL and error stay |
| Commits.CommitsPage.Show | Hackathon/Plateform/frontend/src/pages/student/Commits.tsx:201-204 | the results are shown and loading ends; the URL and error stay |
| DateFormatters.JsNumber | Hackathon/Plateform/frontend/src/utils/dateFormatters.ts:25 | Number() of a clock part: the empty part reads as 0, and a part still holding a colon is never a number (NaN) |
| DateFormatters.JsNumberReadsDecimal | Hackathon/Plateform/frontend/src/utils/dateFormatters.ts:25 | Number() of the decimal text of n is n |
| DateFormatters.JsNumberLeadingZero | Hackathon/Plateform/frontend/src/utils/dateFormatters.ts:25 | a leading zero does not change the number: "09" reads as 9 |
| DateFormatters.FormatTime | Hackathon/Plateform/frontend/src/utils/dateFormatters.ts:16-19 | a time with no colon prints as itself followed by "hundefined" (the missing minutes) |
| DateFormatters.FormatTimeOfClock | Hackathon/Plateform/frontend/src/utils/dateFormatters.ts:16-19 | formatTime copies the hours and minutes parts verbatim around an "h", whatever follows a second colon |
| DateFormatters.MinutesOfDay | Hackathon/Plateform/frontend/src/utils/dateFormatters.ts:25-28 | a clock time has minutes of the day exactly when both its parts are numbers |
| DateFormatters.CalculateDuration | Hackathon/Plateform/frontend/src/utils/dateFormatters.ts:24-32 | the duration is defined exactly when both times are, and start minutes plus duration equal end minutes (no wrap at midnight) |
| DateFormatters.DurationOfClockTimes | Hackathon/Plateform/frontend/src/utils/dateFormatters.ts:24-32 | for digit parts, the duration is (eh·60+em) − (sh·60+sm), negative when the end precedes the start |
| DateFormatters.ClockOfDigits | Hackathon/Plateform/frontend/src/utils/dateFormatters.ts:25-28 | "hh:mm" of digit strings has h·60+m minutes |
| DateFormatters.DurationSelf | Hackathon/Plateform/frontend/src/utils/dateFormatters.ts:24-32 | a time to itself lasts 0 minutes |
| DateFormatters.DurationSwap | Hackathon/Plateform/frontend/src/utils/dateFormatters.ts:24-32 | swapping the two times negates the duration |
| DateFormatters.FormatDurationUnderAnHour | Hackathon/Plateform/frontend/src/utils/dateFormatters.ts:37-43 | under an hour the text is "{m} min" |
| DateFormatters.FormatDuration | Hackathon/Plateform/frontend/src/utils/dateFormatters.ts:37-46 | under an hour the text is "{m} min"; a negative duration prints only its floor hour count ("-1h" for -5), its minutes dropped |
| DateFormatters.FormatDurationHours | Hackathon/Plateform/frontend/src/utils/dateFormatters.ts:37-45 | from an hour up the text is "{h}h", or "{h}h {r}min" when the remainder r is not 0 |
| DateFormatters.HoursParts | Hackathon/Plateform/frontend/src/utils/dateFormatters.ts:38-39 | the floor quotient and the remainder by 60 of h·60+r are h and r |
| DateFormatters.FormatDurationReadBack | Hackathon/Plateform/frontend/src/utils/dateFormatters.ts:37-45 | the two numbers printed for m ≥ 60 read back as m |
| DateFormatters.IsExamInProgress | Hackathon/Plateform/frontend/src/utils/dateFormatters.ts:51-58 | an exam on another day is never in progress |
| DateFormatters.InProgressWindow | Hackathon/Plateform/frontend/src/utils/dateFormatters.ts:60-69 | on the exam's day, in progress exactly when start ≤ now ≤ end, both bounds included |
| DateFormatters.NegativeDurationNeverInProgress | Hackathon/Plateform/frontend/src/utils/dateFormatters.ts:24-32 | an exam whose end precedes its start is never in progress |
| ExamCreation.AddQuestion | Hackathon/Plateform/frontend/src/pages/professor/ExamCreation.tsx:28-36 | one question is appended, with id the new length, empty text, multiple choice and four empty options; the earlier questions are unchanged |
| ExamCreation.RemoveQuestion | Hackathon/Plateform/frontend/src/pages/professor/ExamCreation.tsx:39-41 | exactly the questions with another id are kept, and the length drops by the number carrying the id |
| ExamCreation.CountComplement | Hackathon/Plateform/frontend/src/pages/professor/ExamCreation.tsx:40 | the questions kept and those removed make up the list |
| ExamCreation.RemoveQuestionKeepsOrder | Hackathon/Plateform/frontend/src/pages/professor/ExamCreation.tsx:40 | removal distributes over any split of the list, so the kept questions stay in order |
| ExamCreation.AddAfterRemoveRepeatsId | Hackathon/Plateform/frontend/src/pages/professor/ExamCreation.tsx:30-41 | removing question "1" of two and adding one yields two questions with id "2": ids come from the length and are not unique |
| ExamCreation.RemoveFirstOfTwo | Hackathon/Plateform/frontend/src/pages/professor/ExamCreation.tsx:39-41 | removing "1" from questions "1" and "2" leaves question "2" |
| ExamCreation.UpdateQuestionTextSpec | Hackathon/Plateform/frontend/src/pages/professor/ExamCreation.tsx:44-48 | only the text of the matching questions changes, to the new text; a second identical update changes nothing |
| ExamCreation.UpdateQuestionTypeSpec | Hackathon/Plateform/frontend/src/pages/professor/ExamCreation.tsx:51-55 | only the type of the matching questions changes; a second identical update changes nothing |
| ExamCreation.SetOption | Hackathon/Plateform/frontend/src/pages/professor/ExamCreation.tsx:61-62 | writing one option keeps the number of options |
| ExamCreation.SpliceOne | Hackathon/Plateform/frontend/src/pages/professor/ExamCreation.tsx:84 | splice(index, 1) removes one option when the index falls inside the list (negative indices counting from the end) and none otherwise |
| ExamCreation.UpdateOptionTextSpec | Hackathon/Plateform/frontend/src/pages/professor/ExamCreation.tsx:58-67 | only options[index] of the matching questions is replaced; other questions and fields are identical |
| ExamCreation.AddOptionSpec | Hackathon/Plateform/frontend/src/pages/professor/ExamCreation.tsx:70-77 | the matching questions get exactly one more, empty, option; nothing else changes |
| ExamCreation.RemoveOptionSpec | Hackathon/Plateform/frontend/src/pages/professor/ExamCreation.tsx:80-89 | a matching question with more than two options loses options[index]; all other questions are unchanged |
| ExamCreation.RemoveAddedOption | Hackathon/Plateform/frontend/src/pages/professor/ExamCreation.tsx:70-89 | removing the option just added gives the list back |
| ExamCreation.QuestionOpsKeepOptionFloor | Hackathon/Plateform/frontend/src/pages/professor/ExamCreation.tsx:19-55 | the initial list and the question operations keep every question at two options or more |
| ExamCreation.OptionOpsKeepOptionFloor | Hackathon/Plateform/frontend/src/pages/professor/ExamCreation.tsx:58-89 | the option operations keep every question at two options or more |
| ExamCreation.QuestionEditor.constructor | Hackathon/Plateform/frontend/src/pages/professor/ExamCreation.tsx:19-21 | the editor starts with one multiple-choice question "1" with four empty options |
| ExamCreation.QuestionEditor.OnAddQuestion | Hackathon/Plateform/frontend/src/pages/professor/ExamCreation.tsx:28-36 | the new list is AddQuestion of the old |
| ExamCreation.QuestionEditor.OnRemoveQuestion | Hackathon/Plateform/frontend/src/pages/professor/ExamCreation.tsx:39-41 | the new list is RemoveQuestion of the old |
| ExamCreation.QuestionEditor.OnUpdateQuestionText | Hackathon/Plateform/frontend/src/pages/professor/ExamCreation.tsx:44-48 | the new list is UpdateQuestionText of the old |
| ExamCreation.QuestionEditor.OnUpdateQuestionType | Hackathon/Plateform/frontend/src/pages/professor/ExamCreation.tsx:51-55 | the new list is UpdateQuestionType of the old |
| ExamCreation.QuestionEditor.OnUpdateOptionText | Hackathon/Plateform/frontend/src/pages/professor/ExamCreation.tsx:58-67 | the new list is UpdateOptionText of the old |
| ExamCreation.QuestionEditor.OnAddOption | Hackathon/Plateform/frontend/src/pages/professor/ExamCreation.tsx:70-77 | the new list is AddOption of the old |
| ExamCreation.QuestionEditor.OnRemoveOption | Hackathon/Plateform/frontend/src/pages/professor/ExamCreation.tsx:80-89 | the new list is RemoveOption of the old |
| ProfessorDashboard.AlertColor | Hackathon/Plateform/frontend/src/pages/professor/ProfessorDashboard.tsx:39-56 | any type outside the six known ones gets the zinc fallback colour |
| ProfessorDashboard.AlertColorsDistinct | Hackathon/Plateform/frontend/src/pages/professor/ProfessorDashboard.tsx:39-56 | the six known types have six distinct colours, none of them the fallback |
| ProfessorDashboard.AlertName | Hackathon/Plateform/frontend/src/pages/professor/ProfessorDashboard.tsx:59-76 | any type outside the six known ones is named by its own code |
| ProfessorDashboard.AlertNameAgreesWithMonitoring | Hackathon/Plateform/frontend/src/pages/professor/ProfessorDashboard.tsx:59-76 | the dashboard names every type exactly as the monitoring page labels it |
| ProfessorDashboard.UpcomingExamsSpec | Hackathon/Plateform/frontend/src/pages/professor/ProfessorDashboard.tsx:91-94 | at most three exams, all future exams of the list, by ascending start; every future exam when fewer than three are kept; none left out starts before one kept |
| ProfessorDashboard.UpcomingExams | Hackathon/Plateform/frontend/src/pages/professor/ProfessorDashboard.tsx:91-94 | at most three exams, no more than the list holds, by ascending start time |
| ProfessorDashboard.UpcomingAreFuture | Hackathon/Plateform/frontend/src/pages/professor/ProfessorDashboard.tsx:92 | every exam kept is an exam of the list that starts after now |
| ProfessorDashboard.UpcomingOrdered | Hackathon/Plateform/frontend/src/pages/professor/ProfessorDashboard.tsx:93 | the exams kept are by ascending start time |
| ProfessorDashboard.UpcomingNoneSkipped | Hackathon/Plateform/frontend/src/pages/professor/ProfessorDashboard.tsx:92-94 | no future exam is left out while fewer than three are kept, and none left out starts before one kept |
| ProfessorDashboard.RecentAlertsSpec | Hackathon/Plateform/frontend/src/pages/professor/ProfessorDashboard.tsx:97-99 | five alerts of the list unless there are fewer, newest first, and none left out is newer than one kept |
| ProfessorDashboard.RecentAlerts | Hackathon/Plateform/frontend/src/pages/professor/ProfessorDashboard.tsx:97-99 | five alerts unless there are fewer, newest first |
| ProfessorDashboard.AlertTypeDataSpec | Hackathon/Plateform/frontend/src/pages/professor/ProfessorDashboard.tsx:102-106 | one bar per entry in order, with its count, name and colour; bars of two different known types differ in name and in colour |
| ProfessorDashboard.AlertTypeData | Hackathon/Plateform/frontend/src/pages/professor/ProfessorDashboard.tsx:102-106 | one bar per entry; a known type never gets the fallback colour nor its raw code as name |
| IdentityVerification.ResultShown | Hackathon/Plateform/frontend/src/components/IdentityVerification.tsx:170-179 | the result panel, when shown, shows exactly the record held |
| IdentityVerification.BlankIdChangesNothing | Hackathon/Plateform/frontend/src/components/IdentityVerification.tsx:65-69 | a blank or whitespace id only raises the missing-id toast: no loading and no lookup |
| IdentityVerification.IdQueuesLookup | Hackathon/Plateform/frontend/src/components/IdentityVerification.tsx:65-74 | any other id starts loading and queues one lookup for that id as given, with no toast yet |
| IdentityVerification.LookupOutcome | Hackathon/Plateform/frontend/src/components/IdentityVerification.tsx:74-111 | a lookup ends loading and completes; a known id shows its record with the entry time, an unknown one shows the not-found panel; the 2 s timer starts exactly for an authorized student |
| IdentityVerification.LookupFires | Hackathon/Plateform/frontend/src/components/IdentityVerification.tsx:74-111 | a lookup ends loading, completes the check and consumes its request; a record is shown exactly for a known id, stamped with the entry time |
| IdentityVerification.ToggleResets | Hackathon/Plateform/frontend/src/components/IdentityVerification.tsx:58-63 | toggling flips the mode, clears the result and hides the session, and leaves the timers |
| IdentityVerification.ToggleScanMode | Hackathon/Plateform/frontend/src/components/IdentityVerification.tsx:58-63 | toggling flips the mode, shows no result panel and no exam session |
| IdentityVerification.StepsKeepValid | Hackathon/Plateform/frontend/src/components/IdentityVerification.tsx:53-116 | the handlers and the session timer keep the shown record one of the table's |
| IdentityVerification.VerifyKeepsRecord | Hackathon/Plateform/frontend/src/components/IdentityVerification.tsx:65-72 | verifying leaves the shown record as it is |
| IdentityVerification.LookupKeepsValid | Hackathon/Plateform/frontend/src/components/IdentityVerification.tsx:75-91 | a lookup shows the record filed under the id looked up, with an entry time |
| IdentityVerification.SessionOnlyForAuthorized | Hackathon/Plateform/frontend/src/components/IdentityVerification.tsx:118-120 | the exam session is only shown to a student the table authorizes |
| IdentityVerification.UnauthorizedStudentStopped | Hackathon/Plateform/frontend/src/components/IdentityVerification.tsx:75-91 | looking up the unauthorized student of the table raises the refusal toast and starts no session |
| IdentityVerification.IdentityPage.constructor | Hackathon/Plateform/frontend/src/components/IdentityVerification.tsx:45-50 | the page starts in scan mode with no id, no record, nothing loading and no timers |
| IdentityVerification.IdentityPage.VerifyStudent | Hackathon/Plateform/frontend/src/components/IdentityVerification.tsx:65-74 | the new state is the verification step of the old one |
| IdentityVerification.IdentityPage.HandleScan | Hackathon/Plateform/frontend/src/components/IdentityVerification.tsx:53-56 | the scanned value becomes the id and is verified |
| IdentityVerification.IdentityPage.OnIdInput | Hackathon/Plateform/frontend/src/components/IdentityVerification.tsx:152-159 | only the typed id changes |
| IdentityVerification.IdentityPage.HandleManualVerify | Hackathon/Plateform/frontend/src/components/IdentityVerification.tsx:114-116 | the typed id is verified |
| IdentityVerification.IdentityPage.ToggleMode | Hackathon/Plateform/frontend/src/components/IdentityVerification.tsx:58-63 | the new state is the toggle step of the old one |
| IdentityVerification.IdentityPage.OnLookupTimer | Hackathon/Plateform/frontend/src/components/IdentityVerification.tsx:74-111 | the new state is the lookup step of the old one |
| IdentityVerification.IdentityPage.OnShowTimer | Hackathon/Plateform/frontend/src/components/IdentityVerification.tsx:96-98 | the session is to be shown and one session timer fewer is pending |
| StudentDashboard.FindExam | Hackathon/Plateform/frontend/src/pages/student/StudentDashboard.tsx:26 | find returns nothing exactly when no exam has the id, and otherwise the first exam with it |
| StudentDashboard.UpcomingExamsSpec | Hackathon/Plateform/frontend/src/pages/student/StudentDashboard.tsx:21-28 | nothing without a user; otherwise one card per student-exam of the user, each of the list and the user's, paired with the first exam of its id, and every such student-exam has a card |
| StudentDashboard.UpcomingExams | Hackathon/Plateform/frontend/src/pages/student/StudentDashboard.tsx:21-28 | no cards exactly without a user; otherwise no more cards than entries, each an entry of that student |
| StudentDashboard.StartedExamInProgress | Hackathon/Plateform/frontend/src/pages/student/StudentDashboard.tsx:45-47 | a start already passed reads "En cours" |
| StudentDashboard.TimeUntilExam | Hackathon/Plateform/frontend/src/pages/student/StudentDashboard.tsx:42-56 | an exam whose start has passed reads "En cours" |
| StudentDashboard.Countdown | Hackathon/Plateform/frontend/src/pages/student/StudentDashboard.tsx:44-56 | the text is "En cours" exactly when the start is past; the days text ends in "h" and the hours text in "min" |
| StudentDashboard.TimeUntilInDays | Hackathon/Plateform/frontend/src/pages/student/StudentDashboard.tsx:49-53 | a day or more ahead: days ≥ 1 and hours in 0..23 are the time left rounded down to the hour, the text is "{d} jour{s} {h}h", with "s" exactly from two days on |
| StudentDashboard.DaysArith | Hackathon/Plateform/frontend/src/pages/student/StudentDashboard.tsx:49-50 | the floor quotient and remainder by a day and by an hour bound the time left |
| StudentDashboard.TimeUntilInHours | Hackathon/Plateform/frontend/src/pages/student/StudentDashboard.tsx:49-55 | less than a day ahead: hours in 0..23 and minutes in 0..59 are the time left rounded down to the minute, and the text is "{h}h {m}min" |
| StudentDashboard.HoursTextOf | Hackathon/Plateform/frontend/src/pages/student/StudentDashboard.tsx:54-55 | within the day the hours-and-minutes text is shown |
| StudentDashboard.HoursArith | Hackathon/Plateform/frontend/src/pages/student/StudentDashboard.tsx:50-55 | the hour and minute of a time left under a day bound it to the minute |
| StudentDashboard.ButtonLabel | Hackathon/Plateform/frontend/src/pages/student/StudentDashboard.tsx:125-126 | "Reprendre" exactly for in_progress, "Détails" exactly for not_started, "Voir résultats" exactly for the others |
| StudentDashboard.WelcomeCountPlural | Hackathon/Plateform/frontend/src/pages/student/StudentDashboard.tsx:73 | the welcome count ends in "s" exactly for more than one exam, and its number reads back as the count |
| StudentDashboard.WelcomeCount | Hackathon/Plateform/frontend/src/pages/student/StudentDashboard.tsx:73 | the count ends in "s" exactly for more than one exam |
| ExamSession.FormatTimeRemaining | Hackathon/Plateform/frontend/src/pages/student/ExamSession.tsx:31-35 | a non-negative time shows as at least two hour characters, a colon and two minute characters (their read-back is FormatTimeRemainingReadBack) |
| ExamSession.InitialDisplay | Hackathon/Plateform/frontend/src/pages/student/ExamSession.tsx:22 | the initial 120 minutes show as "02:00" |
| ExamSession.FormatTimeRemainingReadBack | Hackathon/Plateform/frontend/src/pages/student/ExamSession.tsx:31-35 | the text is two or more digits, a colon and two digits, which read back as floor(m/60) and m mod 60 and so as m |
| ExamSession.PaddedValue | Hackathon/Plateform/frontend/src/pages/student/ExamSession.tsx:34 | padStart(2, "0") of a number's text keeps its value, all digits, exactly two of them below 100 |
| ExamSession.ColonJoin | Hackathon/Plateform/frontend/src/pages/student/ExamSession.tsx:34 | hours digits, a colon and two minute digits under 60 show the minutes they add up to |
| ExamSession.LookingAway | Hackathon/Plateform/frontend/src/pages/student/ExamSession.tsx:50-58 | looking away never changes the alert counter |
| ExamSession.Misses | Hackathon/Plateform/frontend/src/pages/student/ExamSession.tsx:38-40 | the reports that found no face are at most all of them |
| ExamSession.FaceDetection | Hackathon/Plateform/frontend/src/pages/student/ExamSession.tsx:38-47 | a missed face adds one to the counter and appends the "Alerte!" toast after the earlier ones; a detected face adds neither |
| ExamSession.FaceReports | Hackathon/Plateform/frontend/src/pages/student/ExamSession.tsx:38-47 | a run of reports never lowers the counter, raises it by at most the number of reports, and adds exactly one toast per alert counted |
| ExamSession.FaceReportsCount | Hackathon/Plateform/frontend/src/pages/student/ExamSession.tsx:38-47 | a run of face reports raises the counter by exactly the number with no face, never lowers it, and adds one toast per miss after the earlier toasts |
| ExamSession.DetectedFacesChangeNothing | Hackathon/Plateform/frontend/src/pages/student/ExamSession.tsx:38-39 | reports that all found a face change nothing |
| ExamSession.SessionPage.constructor | Hackathon/Plateform/frontend/src/pages/student/ExamSession.tsx:22-24 | the page starts with 120 minutes, no webcam alert and no toast |
| ExamSession.SessionPage.OnFaceDetection | Hackathon/Plateform/frontend/src/pages/student/ExamSession.tsx:38-47 | the handler's new state is the face-detection step of the old one; the time is untouched |
| ExamSession.SessionPage.OnLookingAway | Hackathon/Plateform/frontend/src/pages/student/ExamSession.tsx:50-58 | the handler's new state is the looking-away step of the old one; the time is untouched |
| ExamSession.AlertBadge | Hackathon/Plateform/frontend/src/pages/student/ExamSession.tsx:280-284 | the webcam badge is shown exactly when the counter is above 0 |
| ExamSession.WarningText | Hackathon/Plateform/frontend/src/pages/student/ExamSession.tsx:298-309 | the warning box is shown exactly when the counter is above 0 |
| ExamSession.SingularTexts | Hackathon/Plateform/frontend/src/pages/student/ExamSession.tsx:303-305 | one alert reads "1 alerte" and "comportement suspect détecté" |
| ExamSession.PluralTexts | Hackathon/Plateform/frontend/src/pages/student/ExamSession.tsx:303-305 | more than one alert puts the "s" on each word |
| ExamStatistics.CountStatus | Hackathon/Plateform/frontend/src/components/exams/ExamStatistics.tsx:19-21 | the exams of one status are at most all of them |
| ExamStatistics.Compute | Hackathon/Plateform/frontend/src/components/exams/ExamStatistics.tsx:18-36 | totalExams is the list's length; the completed, scheduled and in-progress figures count the exams of that status; the student, presence and incident figures are the sums over the exams (additive by SumsSplit); the attendance is 0 without students and otherwise 100·present/total rounded half up; the fraud rate is 0 without present students and otherwise exactly 100·incidents/present |
| ExamStatistics.StatusCountsBounded | Hackathon/Plateform/frontend/src/components/exams/ExamStatistics.tsx:18-21 | completed + scheduled + in-progress ≤ totalExams |
| ExamStatistics.SumsSplit | Hackathon/Plateform/frontend/src/components/exams/ExamStatistics.tsx:23-32 | the student, presence and incident sums add up over any split of the list |
| ExamStatistics.PresentWithinTotal | Hackathon/Plateform/frontend/src/components/exams/ExamStatistics.tsx:23-24 | when every exam has no more present than enrolled students, neither does the whole list |
| ExamStatistics.AttendanceIsPercentage | Hackathon/Plateform/frontend/src/components/exams/ExamStatistics.tsx:25-27 | the attendance is then between 0 and 100 |
| ExamStatistics.NextExamPlanned | Hackathon/Plateform/frontend/src/components/exams/ExamStatistics.tsx:62-66 | the next-exam card reads "Planifié" exactly when some exam is scheduled |
| ExamFilters.HandleFilterChange | Hackathon/Plateform/frontend/src/components/exams/ExamFilters.tsx:28-37 | a truthy value is stored under its key, a falsy one removes the key, and every other key keeps its presence and value |
| ExamFilters.SansFraudeNeverStored | Hackathon/Plateform/frontend/src/components/exams/ExamFilters.tsx:151-163 | choosing "Sans fraude" stores nothing, exactly like choosing "Tous" |
| ExamFilters.FraudSelectStoresOnlyTrue | Hackathon/Plateform/frontend/src/components/exams/ExamFilters.tsx:151-163 | whatever option of the fraud select is chosen, hasFraud is absent or true |
| ExamFilters.BadgeCount | Hackathon/Plateform/frontend/src/components/exams/ExamFilters.tsx:78-82 | the badge number is 0 exactly when no filter is set |
| ExamFilters.FilterPanel.constructor | Hackathon/Plateform/frontend/src/components/exams/ExamFilters.tsx:20-22 | the panel starts with no term, closed, with no filter and nothing sent |
| ExamFilters.FilterPanel.OnSearchChange | Hackathon/Plateform/frontend/src/components/exams/ExamFilters.tsx:24-26 | the search term changes and nothing is sent to the parent |
| ExamFilters.FilterPanel.OnFilterChange | Hackathon/Plateform/frontend/src/components/exams/ExamFilters.tsx:28-41 | the new object is stored and the same object is sent; the term and the panel stay |
| ExamFilters.FilterPanel.OnClearFilters | Hackathon/Plateform/frontend/src/components/exams/ExamFilters.tsx:43-47 | filters and term are emptied, the empty object is sent and the badge disappears |
| ExamFilters.FilterPanel.ToggleFilters | Hackathon/Plateform/frontend/src/components/exams/ExamFilters.tsx:49-51 | only the panel's visibility flips |
| ExamHistory.SetCourse | Hackathon/Plateform/frontend/src/components/exams/ExamHistory.tsx:17 | setting a key keeps the list's length or adds one entry |
| ExamHistory.SetCourseSpec | Hackathon/Plateform/frontend/src/components/exams/ExamHistory.tsx:17 | Map.set on courses with distinct ids: the ids become the old ones plus the new, stay distinct, and each entry is the new course or the old entry at its place |
| ExamHistory.SetCourseStepIds | Hackathon/Plateform/frontend/src/components/exams/ExamHistory.tsx:17 | the ids part of that statement carries over one step of the recursion |
| ExamHistory.SetCourseStepEntries | Hackathon/Plateform/frontend/src/components/exams/ExamHistory.tsx:17 | the entries part carries over one step |
| ExamHistory.SetCourseStepDistinct | Hackathon/Plateform/frontend/src/components/exams/ExamHistory.tsx:17 | distinctness carries over one step |
| ExamHistory.CoursesSpec | Hackathon/Plateform/frontend/src/components/exams/ExamHistory.tsx:16-18 | the course list has one entry per distinct course id of the exams, and each entry is the course of the last exam with that id |
| ExamHistory.Courses | Hackathon/Plateform/frontend/src/components/exams/ExamHistory.tsx:16-18 | at most one course per exam, and none exactly when there are no exams |
| ExamHistory.SetCourseKeepsOrder | Hackathon/Plateform/frontend/src/components/exams/ExamHistory.tsx:16-18 | Map.set keeps the ids already present in place, as a prefix |
| ExamHistory.SetCourseKeepsIds | Hackathon/Plateform/frontend/src/components/exams/ExamHistory.tsx:16-18 | Map.set leaves the id at every existing position as it was |
| ExamHistory.CoursesKeepOrder | Hackathon/Plateform/frontend/src/components/exams/ExamHistory.tsx:16-18 | the courses are listed in order of first appearance: one more exam leaves the listed ids as a prefix |
| ExamHistory.CoursesStepLast | Hackathon/Plateform/frontend/src/components/exams/ExamHistory.tsx:16-18 | the "last exam's course" part carries over from a prefix to one more exam |
| ExamHistory.ApplyFilters | Hackathon/Plateform/frontend/src/components/exams/ExamHistory.tsx:21-47 | the effect's loop of filters on a copy, followed by the sort, yields the history view |
| Sorting.SortByStable | Hackathon/Plateform/frontend/src/components/exams/ExamHistory.tsx:44 | the sort is stable: for any key value, the elements with that key come out in their input order |
| Sorting.InsertKeepsKeyOrder | Hackathon/Plateform/frontend/src/components/exams/ExamHistory.tsx:44 | inserting into a sorted list puts the element first among those of its key, keeping the others' order |
| ExamHistory.HistoryViewSpec | Hackathon/Plateform/frontend/src/components/exams/ExamHistory.tsx:21-44 | the view holds exactly the exams passing every active filter, each as many times as in the input (its multiset is that of the filtered list), by date descending |
| ExamHistory.HistoryView | Hackathon/Plateform/frontend/src/components/exams/ExamHistory.tsx:21-44 | the view is never longer than the exams and is sorted by date, most recent first |
| ExamHistory.CourseFilterSelects | Hackathon/Plateform/frontend/src/components/exams/ExamHistory.tsx:25-27 | a non-empty course filter keeps exactly the exams of that course |
| ExamHistory.StatusFilterSelects | Hackathon/Plateform/frontend/src/components/exams/ExamHistory.tsx:30-32 | a status filter keeps exactly the exams of that status |
| ExamHistory.StatusNameInjective | Hackathon/Plateform/frontend/src/components/exams/ExamHistory.tsx:30-32 | two statuses have different names |
| ExamHistory.FraudFilterSelects | Hackathon/Plateform/frontend/src/components/exams/ExamHistory.tsx:35-41 | hasFraud true keeps exams with incidents, false keeps those without, and no filter keeps every exam |
| ExamHistory.SansFraudeShowsAll | Hackathon/Plateform/frontend/src/components/exams/ExamFilters.tsx:151-163 | choosing "Sans fraude" in the panel shows the same exams as choosing "Tous" |
| CommitHistory.FilteredCommitsSpec | Hackathon/Plateform/frontend/src/components/github/CommitHistory.tsx:40-43 | with an id only the commits carrying it are kept, in order; without one every commit is |
| CommitHistory.SliceToEnd | Hackathon/Plateform/frontend/src/components/github/CommitHistory.tsx:48 | slice(0, n) is a prefix of length n (or all) for n ≥ 0, and drops the last −n for negative n |
| CommitHistory.DisplayedCommitsSpec | Hackathon/Plateform/frontend/src/components/github/CommitHistory.tsx:45-48 | the displayed commits are kept commits, newest first, at most maxCommits of them (all when fewer), and no kept commit left out is newer than one shown |
| CommitHistory.DisplayedCommits | Hackathon/Plateform/frontend/src/components/github/CommitHistory.tsx:45-48 | no more commits than given, at most maxCommits when it is not negative, newest first |
| CommitHistory.DisplayedAreKept | Hackathon/Plateform/frontend/src/components/github/CommitHistory.tsx:41-48 | every displayed commit is one of the kept commits |
| CommitHistory.DisplayedNewestFirst | Hackathon/Plateform/frontend/src/components/github/CommitHistory.tsx:46-47 | the displayed commits are by descending timestamp |
| CommitHistory.DisplayedNoneSkipped | Hackathon/Plateform/frontend/src/components/github/CommitHistory.tsx:46-48 | a kept commit left out is no newer than any displayed |
| CommitHistory.DefaultShowsFive | Hackathon/Plateform/frontend/src/components/github/CommitHistory.tsx:34-48 | the default maximum shows five commits, or all when fewer |
| CommitHistory.SuspectShownSpec | Hackathon/Plateform/frontend/src/components/github/CommitHistory.tsx:126-137 | the highlight and badge show exactly for a suspicious commit while showSuspicious is on (its default) |
| CommitHistory.ShortSha | Hackathon/Plateform/frontend/src/components/github/CommitHistory.tsx:161 | the SHA is shown as its first 7 characters, or all of it when shorter |
| CommitHistory.ShortShaDistinguishes | Hackathon/Plateform/frontend/src/components/github/CommitHistory.tsx:161 | two commits shown with different short SHAs have different SHAs |
| CommitHistory.CommitDialog.constructor | Hackathon/Plateform/frontend/src/components/github/CommitHistory.tsx:37-38 | no commit selected and the dialog closed |
| CommitHistory.CommitDialog.OnCommitClick | Hackathon/Plateform/frontend/src/components/github/CommitHistory.tsx:62-65 | the clicked commit is selected and the dialog opened |
| CommitHistory.CommitDialog.Close | Hackathon/Plateform/frontend/src/components/github/CommitHistory.tsx:251 | the dialog closes and the selection stays; an open dialog always has a selection |
| Monitoring.AlertColor | Hackathon/Plateform/frontend/src/pages/professor/Monitoring.tsx:51-68 | any type outside the six known ones gets the "neutral" badge |
| Monitoring.AlertTypeText | Hackathon/Plateform/frontend/src/pages/professor/Monitoring.tsx:71-88 | any type outside the six known ones is shown as its own code |
| Monitoring.AlertTypeTextRoundTrip | Hackathon/Plateform/frontend/src/pages/professor/Monitoring.tsx:71-88 | each known type's label reads back as that type and differs from the code |
| Monitoring.AlertTypeTextTellsType | Hackathon/Plateform/frontend/src/pages/professor/Monitoring.tsx:71-88 | the label differs from the code exactly for the six known types, whose labels are pairwise distinct |
| Monitoring.FilteredStudents | Hackathon/Plateform/frontend/src/pages/professor/Monitoring.tsx:97-116 | a student is listed exactly when listed in the page, the name or e-mail contains the term (lowercased) and the status filter accepts it |
| Monitoring.FilteredKeepsOrder | Hackathon/Plateform/frontend/src/pages/professor/Monitoring.tsx:97 | the filtered list keeps the students' order: it distributes over any split of the list |
| Monitoring.NoCriteriaListsAll | Hackathon/Plateform/frontend/src/pages/professor/Monitoring.tsx:99-104 | an empty search with no filter lists every student, in order |
| Monitoring.FilterCases | Hackathon/Plateform/frontend/src/pages/professor/Monitoring.tsx:104-113 | "online"/"offline" test the status, "alerts" the recent-alert flag, any other non-empty value the alert type, and no or empty filter accepts all |
| Monitoring.MonitoringPage.constructor | Hackathon/Plateform/frontend/src/pages/professor/Monitoring.tsx:91-93 | the page starts with no search term, no filter, the initial statuses and no toast |
| Monitoring.MonitoringPage.SetSearchTerm | Hackathon/Plateform/frontend/src/pages/professor/Monitoring.tsx:91 | only the search term changes; no toast is added |
| Monitoring.MonitoringPage.SetFilter | Hackathon/Plateform/frontend/src/pages/professor/Monitoring.tsx:92 | only the filter changes; no toast is added |
| Monitoring.MonitoringPage.AlertTick | Hackathon/Plateform/frontend/src/pages/professor/Monitoring.tsx:119-150 | the chosen entry is flagged with the drawn type, time and screenshot; every other entry, the length, the term and the filter are unchanged; one "Nouvelle alerte" toast naming the type and the student is added |
| Monitoring.AlertToast | Hackathon/Plateform/frontend/src/pages/professor/Monitoring.tsx:145-149 | the toast is titled "Nouvelle alerte", and its description is the type's label, " détecté pour " and the student's name, ending in the name |
| Monitoring.AlertToastTellsTypeAndStudent | Hackathon/Plateform/frontend/src/pages/professor/Monitoring.tsx:145-149 | for a drawn type, the description's head reads back as that type, followed by " détecté pour " and the student's name |
| Monitoring.AlertedMatches | Hackathon/Plateform/frontend/src/pages/professor/Monitoring.tsx:105-113 | the alerted student passes the "alerts" filter and its new type's filter, and its search matching is unchanged |
| MainLayout.GuardSpec | Hackathon/Plateform/frontend/src/components/layout/MainLayout.tsx:17-29 | "/login" exactly when not authenticated or no user; "/{role}" exactly when a role list is given without the user's role; the layout otherwise |
| MainLayout.Guard | Hackathon/Plateform/frontend/src/components/layout/MainLayout.tsx:17-29 | the page renders only for a signed-in user, and every redirect goes to "/login" or to the user's own "/{role}" |
| MainLayout.EmptyRoleListAdmitsNobody | Hackathon/Plateform/frontend/src/components/layout/MainLayout.tsx:23-26 | an empty role list (truthy) sends every user back to their own area |
| MainLayout.LayoutShell.constructor | Hackathon/Plateform/frontend/src/components/layout/MainLayout.tsx:15 | the sidebar starts open |
| MainLayout.LayoutShell.ToggleSidebar | Hackathon/Plateform/frontend/src/components/layout/MainLayout.tsx:15-38 | the toggle flips the sidebar's state |
| Sidebar.NavItems | Hackathon/Plateform/frontend/src/components/layout/Sidebar.tsx:47-129 | the list holds the thirteen links of the page |
| Sidebar.VisibleMembers | Hackathon/Plateform/frontend/src/components/layout/Sidebar.tsx:132 | a link is shown exactly when it is in the list and its roles include the user's |
| Sidebar.VisibleAppend | Hackathon/Plateform/frontend/src/components/layout/Sidebar.tsx:132 | the filter keeps the list's order: it distributes over concatenation |
| Sidebar.VisibleItemsSpec | Hackathon/Plateform/frontend/src/components/layout/Sidebar.tsx:132 | nothing without a user; for a user, exactly the links listing the role, and never a link listing no role |
| Sidebar.VisibleItems | Hackathon/Plateform/frontend/src/components/layout/Sidebar.tsx:132 | nothing exactly without a user; otherwise no more links than the menu has |
| Sidebar.SharedPaths | Hackathon/Plateform/frontend/src/components/layout/Sidebar.tsx:48-65 | the three shared links point to the user's own dashboard, exams and profile |
| Sidebar.SharedVisible | Hackathon/Plateform/frontend/src/components/layout/Sidebar.tsx:48-65 | an admin sees the dashboard and profile links of the shared three, the other roles all three |
| Sidebar.StudentVisible | Hackathon/Plateform/frontend/src/components/layout/Sidebar.tsx:67-78 | the two student links are seen by a student only |
| Sidebar.ProfessorVisible | Hackathon/Plateform/frontend/src/components/layout/Sidebar.tsx:79-103 | the four professor links are seen by a professor only |
| Sidebar.AdminVisible | Hackathon/Plateform/frontend/src/components/layout/Sidebar.tsx:105-128 | of the four admin links only video monitoring is seen, by an admin only; the three with no role never show |
| Sidebar.VisibleByGroup | Hackathon/Plateform/frontend/src/components/layout/Sidebar.tsx:47-132 | the visible links are those of each group, in the list's order |
| Sidebar.StudentSees | Hackathon/Plateform/frontend/src/components/layout/Sidebar.tsx:47-132 | a student sees the shared links and the two student links |
| Sidebar.ProfessorSees | Hackathon/Plateform/frontend/src/components/layout/Sidebar.tsx:47-132 | a professor sees the shared links and the four professor links |
| Sidebar.AdminSees | Hackathon/Plateform/frontend/src/components/layout/Sidebar.tsx:47-132 | an admin sees the dashboard, the profile and video monitoring |
| Sidebar.SharedItemPaths | Hackathon/Plateform/frontend/src/components/layout/Sidebar.tsx:48-65 | the shared links' paths, spelled out for each role |
| Sidebar.RolePaths | Hackathon/Plateform/frontend/src/components/layout/Sidebar.tsx:48-65 | the shared paths are the role's home, its exams and its profile |
| Sidebar.StudentPaths | Hackathon/Plateform/frontend/src/components/layout/Sidebar.tsx:47-132 | a student's links lead to the five student routes, in order |
| Sidebar.ProfessorPaths | Hackathon/Plateform/frontend/src/components/layout/Sidebar.tsx:47-132 | a professor's links lead to the professor routes and to the student commits route, in order |
| Sidebar.ProfessorExpected | Hackathon/Plateform/frontend/src/components/layout/Sidebar.tsx:79-103 | a professor's expected routes are the shared ones followed by the four professor links' |
| Sidebar.StudentExpected | Hackathon/Plateform/frontend/src/components/layout/Sidebar.tsx:67-78 | a student's expected routes are the shared ones followed by the two student links' |
| Sidebar.AdminExpected | Hackathon/Plateform/frontend/src/components/layout/Sidebar.tsx:105-128 | an admin's expected routes are the home, the profile and video monitoring |
| Sidebar.AdminPaths | Hackathon/Plateform/frontend/src/components/layout/Sidebar.tsx:47-132 | an admin's links lead to the home, the profile and video monitoring, in order |
| Sidebar.VisiblePathsSpec | Hackathon/Plateform/frontend/src/components/layout/Sidebar.tsx:47-132 | each role's links lead exactly to its expected routes, in order |
| Sidebar.VisiblePathsDistinct | Hackathon/Plateform/frontend/src/components/layout/Sidebar.tsx:188-192 | the paths a role sees are pairwise distinct, so they are sound as the links' keys |
| Sidebar.ExpectedPathsDistinct | Hackathon/Plateform/frontend/src/components/layout/Sidebar.tsx:47-129 | the expected routes of each role are pairwise distinct |
| Sidebar.AtMostOneActive | Hackathon/Plateform/frontend/src/components/layout/Sidebar.tsx:189 | at most one visible link is highlighted for any location |
| Sidebar.RoleLabel | Hackathon/Plateform/frontend/src/components/layout/Sidebar.tsx:177-178 | the badge reads "Étudiant", "Professeur" or "Administrateur" exactly for the matching role |
| Sidebar.Header | Hackathon/Plateform/frontend/src/components/layout/Sidebar.tsx:144-148 | open, the header reads "Academy Guard"; folded, the initials of its two words |
| Navbar.NotificationsSpec | Hackathon/Plateform/frontend/src/components/layout/Navbar.tsx:27 | at most three notifications, a prefix of the unresolved alerts in order, three unless fewer are unresolved and then all of them |
| Navbar.Notifications | Hackathon/Plateform/frontend/src/components/layout/Navbar.tsx:27 | at most three notifications, each an unresolved alert of the list |
| Navbar.NotificationsIgnoreLater | Hackathon/Plateform/frontend/src/components/layout/Navbar.tsx:27 | once three alerts are unresolved, alerts added after them never change the notifications |
| Navbar.BellDotSpec | Hackathon/Plateform/frontend/src/components/layout/Navbar.tsx:83 | the bell's dot shows exactly when some alert is unresolved |
| Navbar.UnreadLabel | Hackathon/Plateform/frontend/src/components/layout/Navbar.tsx:97 | "{n} non lus" exactly when n > 1, "{n} non lu" otherwise |
| Navbar.AlertText | Hackathon/Plateform/frontend/src/components/layout/Navbar.tsx:37-54 | any type outside the six known ones is titled "Alerte système" |
| Navbar.AlertTextRoundTrip | Hackathon/Plateform/frontend/src/components/layout/Navbar.tsx:37-54 | each known type's title reads back as that type, and the system alert's title as none |
| Navbar.AlertTextTellsType | Hackathon/Plateform/frontend/src/components/layout/Navbar.tsx:37-54 | the six titles are distinct and none of them is "Alerte système" |
| Navbar.FirstChar | Hackathon/Plateform/frontend/src/components/layout/Navbar.tsx:32-33 | part[0] of an empty part joins as "", otherwise it is the first character |
| Navbar.SplitJoin | Hackathon/Plateform/frontend/src/components/layout/Navbar.tsx:31 | splitting words joined by single spaces gives the words back |
| Navbar.UpperFirsts | Hackathon/Plateform/frontend/src/components/layout/Navbar.tsx:32-34 | one uppercased first letter per word |
| Navbar.ConcatFirsts | Hackathon/Plateform/frontend/src/components/layout/Navbar.tsx:32-34 | joining and uppercasing the first characters of non-empty words gives their uppercased first letters |
| Navbar.InitialsOfWords | Hackathon/Plateform/frontend/src/components/layout/Navbar.tsx:29-35 | a name of non-empty words separated by single spaces has one initial per word, its first letter uppercased |
| Navbar.Initials | Hackathon/Plateform/frontend/src/components/layout/Navbar.tsx:29-35 | a name with no space gives its first character, uppercased |
| Navbar.DoubleSpaceAddsNothing | Hackathon/Plateform/frontend/src/components/layout/Navbar.tsx:29-35 | a doubled space adds an empty part, which adds nothing to the initials |
| Navbar.ConcatFirstsAppend | Hackathon/Plateform/frontend/src/components/layout/Navbar.tsx:32-33 | the initials of two lists of parts are the initials of each, joined |
| Navbar.Render | Hackathon/Plateform/frontend/src/components/layout/Navbar.tsx:56 | nothing is rendered exactly when there is no user |
| Navbar.RenderSpec | Hackathon/Plateform/frontend/src/components/layout/Navbar.tsx:83-125 | for a user, one title per notification in order, the dot exactly when some are listed, and the plural label exactly for more than one |

## Left out

- Network calls are not modelled: `fetch` to the violation sink, the AuthContext
  login request and the commit fetches. A report is recorded as the payload it
  would send. The `userAgent` and `url` fields of that payload are not modelled.
  The `await` on the report is taken as atomic. In the page, the rest of the
  handler runs after that `await`: the count, the warning, `onViolation` and
  `onExamBlocked`. A patched console method returns before them, once its
  original has run. The model records these effects before `ConsoleWritten`.
- The `console.error` in the sink's failure handler is not modelled. While the
  detector is armed, that call goes through the console wrapper, which reports a
  DEV_TOOLS violation. With the report taken as atomic, the failure lands inside
  the 1000 ms debounce and is dropped. A failure that arrives 1 s or more after the
  report would be a new violation in the page; the model does not produce it.
- The developer-tools timing probe (`performance.now` around `console.log`) is
  a boolean input. Whether the tools are open is an input too.
- The `useImperativeHandle` of the detector is not wired to any ref in the
  component, so `useAntiCheat`'s `reset` and `forceBlock` reach nothing.
  The model offers reset and forceBlock as direct methods of `AntiCheat.Detector`.
- OpenCV is not modelled: Haar cascades, face geometry and image decode/encode.
  Each detected face comes with booleans for eyes found and gaze. The names that
  face recognition returns are a parameter of the frame handler.
- ExamMonitor.FrameStep takes a frame that parses and decodes. A frame that raises
  is ExamMonitor.FailedFrame. Whether the failure came before or after the stamp
  is an input, because it depends on the payload and on the recognizer. How the
  Socket.IO server reports the exception is not modelled.
- AntiCheat.HookOnViolation: a detail value is a text, a boolean or an integer.
  `null`, `undefined`, `NaN` and objects cannot be reported as a count.
- The second Flask service (object detection) is not part of this model.
- Floating point is replaced by exact rationals. `Math.round` is taken over a
  ratio of integers.
- ExamStatistics.Compute: the fraud rate is kept as an exact ratio.
  Its `toFixed(2)` text is not produced.
- ISO date parsing is not modelled, and neither is `Intl`/`toLocale*`
  formatting. Dates are integers, and the entry time of the identity check is a
  text parameter.
- DateFormatters.JsNumber: only strings of decimal digits are read as numbers.
  Whitespace, signs, decimals and exponents, which `Number()` also accepts, are
  not read.
- Case mapping (`ToLower`, `ToUpper`) covers ASCII only. The model has no Unicode
  case folding. Blank detection follows `String.prototype.trim`, with its full set
  of whitespace and line-terminator characters.
- The Monitoring simulation's random choices are parameters: the student index,
  the alert type and the screenshot. The random mock students are fixed data.
- ExamCreation.SetOption: JavaScript array assignment at an index past the end
  extends the array. The model leaves the options unchanged there, because the
  page only edits rendered options, whose indices are in range.
- The `handleSubmit` of ExamCreation is not modelled. It POSTs the form to the
  platform API, then navigates away or shows an alert; that is a network call.
- The `console.log` on an unauthorized identity check in IdentityVerification is not modelled.
- Toasts are recorded by their message (by title and description on the monitoring page). Their styling and duration are not
  modelled.
- Inherited keys of JavaScript objects are not modelled (for example
  `"toString" in obj`). Maps hold only their own keys.
- Presentational JSX is not modelled: the warning toast, the blocked screen,
  the pie chart data, the log-out button, `window.open` of a commit and the
  notification popover's open flag.
- The mock code-change fixtures of CommitHistory are not modelled.
- The following follow the code as written rather than the design text:
  - the exam-blocked callback fires on every accepted violation at or past the
    maximum, not once;
  - `maxViolations` is not validated;
  - forceBlock can block with fewer violations than the maximum;
  - after frame 30 of the flaskws handler, detailed frames are three apart, so
    history intervals never merge;
  - the identity check looks up the id untrimmed.
