# Verified models of the ns-3 tooling

This project models the algorithms in the tooling around ns-3 and proves properties of them in
Dafny 4.11. `dafny verify dfyconfig.toml` checks everything.

| file | models | about |
|---|---|---|
| `Options.dfy`, `Jobs.dfy`, `Runner.dfy` | `test.py` | the parallel runner: main thread, workers, two FIFO queues, break tokens, SIGINT |
| `Collector.dfy` | `test.py` | the collecting loop, its summary and exit code |
| `Runs.dfy` | `test.py` | whole runs against a sequential run; chains of `--rerun-failed` |
| `PyText.dfy`, `Style.dfy` | `utils/check-style-clang-format.py` | the line checker and fixer with its clang-format guards |
| `Trace.dfy` | `scratch/0126.cc`, `scratch/wns3-mpquic-four-path.cc`, `wns3-draw-figures/figure0103b.py` | throughput monitor composed with the figure script's parser |
| `Bench.dfy` | `utils/bench-scheduler.cc` | online statistics and the event population |
| `Timeline.dfy`, `Store.dfy`, `Layout.dfy` | `utils/grid.py` | window queries, log grouping, bounds, legend packing, tick choice |

## Main results

* **Test runner.** The protocol is a step relation over all interleavings of the main thread, any
  number of workers and an interrupt at any moment. Every token put on the queue is in exactly one
  place in every reachable state; no reachable state is a deadlock; every run has at most
  `6 * jobs + 7 * workers + 2` steps; and an undisturbed run ends with the counters, sorted name
  lists and exit code of running the jobs one at a time, which are characterised by return codes. An
  interrupted run hands back exactly the jobs no worker had looked at, and differs otherwise only in the
  at most `workers` jobs that were running. Over chains of reruns, each an arbitrary interleaving and
  interrupted or not, the tests executed are characterised exactly.
* **Style fixer.** Which lines are checked, and what is written for them, is stated by the text of the
  guard lines. For every file content, fixing and checking again finds nothing, although expanding tabs
  can turn an ordinary line into a guard and so change which lines the second pass looks at. Fixing
  changes nothing but white space. The two fixers commute on whole files and leave them clean for both
  checks.
* **Trace.** The rows the figure script computes from a monitor's log are given in closed form for
  every run whose set of flows only grows, with the exact condition for the first of them.
* **Statistics.** Over the reals the online algorithm yields the mean and the sum of squared
  deviations, for any list of results and any seed of the average.
* **Timelines.** Binary-search queries are compared with linear filters, including exactly when the
  two agree, for ranges that touch and events at equal times too; grouping a log loses and invents nothing; bounds and queries are stated for whole logs;
  legend
  boxes flow line by line and never overlap; a time scale can be drawn exactly when its span exceeds 10.

## Premises

* `test.py`: at least one worker; `run_job_synchronously` returns. Until the interrupt flag is up a
  job's outcome is a function of the job; afterwards a running job may return anything. The start of
  a thread and its first wait on the queue are one step, as are a queue operation and the check of
  a local variable.
* `--rerun-failed`: the results file of every invocation in a chain parses. A suite's own file is copied
  into it unread (`test.py:2078-2086`), so a garbled one makes the next invocation exit with -1
  (`test.py:1178-1182`) instead of running anything. "Recorded" otherwise means what the results file
  says: a suite whose file cannot be read counts as one whose file does not say PASS or SKIP.
* `utils/grid.py` is read with the semantics of Python 3, its declared interpreter. There
  `list.sort` rejects the comparator that `sort` passes (`utils/grid.py:188`, `utils/grid.py:271`), so
  sortedness is a premise of what is proved about queries and bounds. Text extents and the padding are
  non-negative. The bounds of a time scale are real numbers, as the middle scale gets floats
  (`utils/grid.py:1090-1091`, `utils/grid.py:1160-1174`); the rounding of floats is not modelled.
* Monitors: a flow map iterates by ascending flow id and never loses a flow. `Tick` holds the two
  columns that the parser reads.
* Simulator: `Stop` ends the event loop after the current event, `Destroy` empties the queue, and the
  scheduler may pick any pending event.

## Where the code does something unexpected

* A suite that fails enters `failed_jobs` twice, once for its return code and once for its results
  file (`test.py:1965`, `test.py:2076`); `ListedTwiceIff` says exactly when, for every complete run,
  and `FailedSuiteListedTwice` is an instance.
* An interrupted run can forget a PASS: a test that it was to skip but handed back is not in its results
  file, so the next `--rerun-failed` runs it again. `PassHoldsIff` says exactly when a PASS holds along a
  chain, and `ForgottenPass` is a chain on which it does not.
* `get_ranges` returns nothing for a window with both ends in gaps, even when ranges lie inside it
  (`RangeInsideMissed`); `AnswerIsExactIff` states exactly when the answer is the set of overlapping
  ranges when no two of them touch. Of ranges that share the start of the window it may leave out an
  earlier one, and of ranges that share its end a later one (`NothingMissed`, `TouchingRangeMissed`).
  `NoneMissedIff` states exactly when it leaves out none: each search must stop at the outermost of the
  ranges that contain its end of the window, and where it stops (`Landing`) follows from their positions.
  `TouchingExactIff` states when the answer is the set of overlapping ranges.
* `get_events` returns one event too many exactly when no event is at the end of the window and one
  follows, if times are distinct (`Events.QueryIsExactIff`, `LaterEventReturned`). Of events at the same
  time at an end of the window it may leave some out (`RepeatedEventLost`); `RepeatsExactIff` is the exact
  condition for all sorted lists.
* `get_bounds` looks at the first start and the last end of a series, so a reversed range can lie
  outside the bounds (`ReversedRangeEscapes`); `EnclosesIff` is the exact condition.
* When flow 1 appears before the last flow, the first row of the figure mixes ticks
  (`FirstRowIsHonestIff`, `FirstRowMixesTicks`).
* Drawing a time scale fails exactly for spans of at most 10, as the step of its finer marks is then
  rounded down to 0, which Python rejects (`RejectedIff`, `SpanOfFiveFails`).

## Model

| member | source | states |
|---|---|---|
| `Runner.InitInv` | test.py:1574-1615 | the freshly started workers and empty queues satisfy the protocol invariant |
| `Runner.StepConserved` | test.py:1075-1159 | no step of any thread duplicates or drops a token: what was sent is queued, held, reported or collected |
| `Runner.StepOrdered` | test.py:1076-1083 | break tokens stay behind all jobs in the queue, and once a worker has taken one no job is queued |
| `Runner.StepInv` | test.py:1075-1102 | every step of the main thread, a worker or the signal handler keeps the invariant |
| `Runner.RunInv` | test.py:1926-1952 | every state of every run satisfies the invariant |
| `Runner.EachJobInOnePlace` | test.py:1089-1092 | a job is in at most one place; once reported it is neither queued nor held again, even if re-marked as a break |
| `Runner.BreaksMatchLiveWorkers` | test.py:1926-1929 | after dispatch the input queue holds exactly one break per worker that has not taken one |
| `Runner.FinalState` | test.py:2108-2109 | when all workers are joined both queues are empty and the collected jobs are all jobs, each once |
| `Runner.WorkIsQueued` | test.py:1949-1950 | if reports are missing and everybody waits, a job is queued and a worker waits for it |
| `Runner.NoDeadlock` | test.py:1949-1950 | in every reachable unfinished state some step other than an interrupt is enabled |
| `Runner.StepDecreases` | test.py:1075-1092 | every step, interrupts included, strictly lowers a global measure |
| `Runner.RunsTerminate` | test.py:1926-1952 | no run has more than 6 steps per job and 7 per worker, plus 2 |
| `Runner.CanFinish` | test.py:1949-2109 | from every reachable state the run can be carried on to the end |
| `Runner.StuckMeansDone` | test.py:2108-2109 | a run that nothing but an interrupt can extend has collected everything and joined everybody |
| `Runs.FirstInFirstOut` | test.py:1926-1950 | workers take the jobs in the order in which they are listed, and reports are collected in the order in which workers deliver them |
| `Names.Sort` | test.py:2139-2149 | the sorted list with the same elements in Python's string order |
| `Names.SortedIsUnique` | test.py:2139-2149 | two sorted lists with the same elements are equal, so the printed lists depend on contents only |
| `Names.LeqIff` | test.py:2139-2149 | the order is the one by the first differing character, a prefix coming first |
| `Collector.Collector.Classify` | test.py:1959-1985 | each return code and a skip raise exactly their own counter and list; the entry in the failed list is popped on success |
| `Collector.Collector.Recheck` | test.py:2076-2095 | a suite stays listed once more unless its results file says PASS or SKIP |
| `Collector.Collector.Accept` | test.py:1950-2095 | the whole collecting step; every pop removes the entry just pushed, earlier entries survive |
| `Collector.Collector.Finish` | test.py:2124-2149 | the printed summary and exit code are those of all reports seen |
| `Collector.CollectAll` | test.py:1949-2221 | the loop computes the summary and the failed list of the reports it is given |
| `Collector.SummaryByCode` | test.py:1971-1985 | passed, failed and valgrind count the reports that ran and returned 0, 1 and 2, crashed those with another code; each printed list holds exactly their names, as often and sorted |
| `Collector.SkippedWithReason` | test.py:1959-1963 | skipped counts the skipped reports, and their list holds exactly their names with the reason in brackets |
| `Collector.EveryReportCounted` | test.py:1951-1985 | passed, failed, crashed, valgrind, skipped and interrupted add up to the number of reports |
| `Collector.SuccessesCounted` | test.py:2218-2221 | passed plus skipped is the total exactly when every report is processed and skipped or returned 0 |
| `Collector.FailureListed` | test.py:1965-1970 | a job is in the failed list iff it was processed, not skipped, and failed by return code or results file |
| `Collector.FailedSuiteListedTwice` | test.py:2076-2093 | a suite that returns 1 with a failing results file is in the list twice |
| `Collector.TallyIgnoresOrder` | test.py:1949-1985 | counting reports by any criterion does not depend on their order |
| `Collector.SummaryIgnoresOrder` | test.py:1949-2149 | the summary does not depend on the order in which reports arrive |
| `Runs.CollectedIsPermutation` | test.py:1075-1159 | the reports of an undisturbed run are those of a sequential run in some order |
| `Runs.ParallelRefinesSequential` | test.py:1949-2221 | counters, sorted lists and exit code equal those of a sequential run, for every interleaving and worker count |
| `Runs.UndisturbedReports` | test.py:1089-1159 | without an interrupt every job comes back processed, and with what it returned unless it is to be skipped |
| `Runs.UndisturbedExitCode` | test.py:2218-2221 | without an interrupt the exit code is 0 iff every job is skipped or returned 0 |
| `Runs.EveryJobReturns` | test.py:1949-1952 | in any complete run every job comes back exactly once |
| `Runs.EveryJobAccountedFor` | test.py:2218-2221 | in any complete run the counters add up to the jobs, and the exit code is 0 iff all came back processed and were skipped or returned 0 |
| `Runs.ListedTwiceIff` | test.py:1965-2095 | in any complete run a job is in the failed list at most twice, and twice iff it is a suite that ran, did not return 0 and has no results file with PASS or SKIP to a code of 1 or 2 |
| `Runs.WaitingJobsAreHandedBack` | test.py:1089-1092 | a job queued or just taken when SIGINT arrives is never run, comes back marked as a break in every continuation, and makes the exit code 1 |
| `Runs.InterruptChangesOnlyTheRunning` | test.py:1089-1159 | every report of an interrupted run is handed back untouched, or that of a sequential run, or of one of the at most N jobs running when SIGINT arrived; the last come back as processed |
| `Runs.HandedBackIff` | test.py:1089-1159 | in every continuation a job comes back marked as a break iff no worker had looked at it when SIGINT arrived: it was queued, just taken or not sent yet |
| `Rerun.LoadedByCode` | test.py:1183-1194 | a name is loaded iff its section lists a processed report of it that was skipped, or of an example that returned 0, or of a suite that returned 0 or 1 with a file that says PASS or SKIP |
| `Rerun.RecordedIff` | test.py:2003-2086 | what is written for a report, by status or by the suite's own file, says PASS or SKIP exactly under that condition |
| `Rerun.NeverGrows` | test.py:1665-1667 | a suite or C++ example runs again only if it ran before and was not recorded PASS |
| `Rerun.PassedIsNeverRerun` | test.py:1735-1740 | along a chain, a test that runs has run and failed in every earlier invocation |
| `Rerun.RerunIffFailed` | test.py:1665-1667 | with unique names, a rerun executes exactly what ran before, was not recorded PASS and is not skipped otherwise |
| `Rerun.FailedRunsAgain` | test.py:2003-2086 | with unique names, an example that ran runs again iff it did not return 0, and a suite iff it did not return 0 or 1 with a file that says PASS or SKIP |
| `Rerun.RunsExactlyTheFailed` | test.py:2003-2021 | closed form, by return codes and results files, of the executed set for a whole chain |
| `Rerun.ReturnedZeroIsNeverRerun` | test.py:2068-2086 | when records agree with return codes, a test that returned 0 is never executed again |
| `Rerun.HandedBackRunsAgain` | test.py:1951-1952 | whatever the names, a test whose every report was handed back runs next time unless skipped for another reason |
| `Rerun.RerunIffNotRecorded` | test.py:1183-1194 | after any run, interrupted or not, a rerun executes exactly the tests not recorded PASS or SKIP; one that was to run does iff it was handed back or failed by code or file, one that was to be skipped iff it was handed back |
| `Rerun.PassHoldsIff` | test.py:1665-1667 | along a chain with interrupts, a recorded PASS keeps a test from running iff no invocation in between handed it back |
| `Rerun.ForgottenPass` | test.py:1951-1952 | a chain in which a suite passes, is handed back by an interrupted rerun and runs again |
| `PyText.RoundTrip` | utils/check-style-clang-format.py:528-565 | reading back written lines yields those lines |
| `PyText.UniversalEnds` | utils/check-style-clang-format.py:528-529 | each of the three line ends is read as one newline |
| `PyText.StripExpand` | utils/check-style-clang-format.py:535 | expanding tabs around a tab-free core leaves what strip sees unchanged |
| `PyText.ExpandKeepsColumns` | utils/check-style-clang-format.py:678 | expanding tabs moves no later character to another column |
| `PyText.ExpandStops` | utils/check-style-clang-format.py:678 | character by character: a tab becomes one to four spaces up to a multiple of four columns, any other character is kept |
| `PyText.RStripExpand` | utils/check-style-clang-format.py:638 | stripping trailing white space and expanding tabs commute on a line |
| `Style.ReadGuard` | utils/check-style-clang-format.py:534-546 | the flag follows the guards read so far, and says which lines are checked |
| `Style.UncheckedIff` | utils/check-style-clang-format.py:527-546 | a line goes unchecked iff guards count, the last guard line before it is the OFF text, and it is no guard line itself |
| `Style.CheckLine` | utils/check-style-clang-format.py:548-555 | one line is fixed in place iff it is checked and offends, all others stay |
| `Style.CheckLines` | utils/check-style-clang-format.py:532-561 | the loop fixes exactly the checked lines and reports exactly the offending ones; the early exit keeps the verdict |
| `Style.CheckManuallyFile` | utils/check-style-clang-format.py:505-567 | verdict, new content and reported lines of a file, in fix, verbose and plain mode; without OFF guards a file passes the tab check iff it has no tab |
| `Style.NoTabsIff` | utils/check-style-clang-format.py:671-686 | a file without OFF guard passes the tab check iff there is no tab in it |
| `Style.NoTrailingSpaceIff` | utils/check-style-clang-format.py:637-651 | it passes the white-space check iff every line ends in a newline that no white space precedes |
| `Style.TrailingBlanksGo` | utils/check-style-clang-format.py:637-651 | the white-space fix removes the blanks at the end of a line and nothing before them |
| `Style.OffendingIff` | utils/check-style-clang-format.py:548-561 | the reported lines are exactly the offending ones, in order |
| `Style.FixedLineIsOk` | utils/check-style-clang-format.py:637-686 | a fixed line passes its own check |
| `Style.GuardSurvives` | utils/check-style-clang-format.py:537-540 | a guard line stays the same guard when fixed |
| `Style.FixCanCreateGuard` | utils/check-style-clang-format.py:674-678 | the tab fixer turns a line that is no guard into one |
| `Style.DisabledStaysDisabled` | utils/check-style-clang-format.py:534-546 | a second pass enables nothing the first had disabled |
| `Style.CheckedAgain` | utils/check-style-clang-format.py:542-546 | a line checked in the second pass was checked in the first |
| `Style.FixThenCheckIsClean` | utils/check-style-clang-format.py:532-567 | for every content, rule and guard setting, checking after fixing finds nothing and fixing again changes nothing |
| `Style.FixedByPosition` | utils/check-style-clang-format.py:532-565 | line by line: what follows an OFF guard and is no guard comes out as it went in, all else is fixed |
| `Style.FixKeepsText` | utils/check-style-clang-format.py:563-565 | fixing changes nothing but white space, for every content, rule and guard setting |
| `Style.GuardedLinesUntouched` | utils/check-style-clang-format.py:542-546 | lines in a switched-off region come out as they went in |
| `Style.LineFixersCommute` | utils/check-style-clang-format.py:637-678 | the two line fixers commute |
| `Style.FixersCommute` | utils/check-style-clang-format.py:343-367 | the two fixers commute on whole files and leave them clean for both checks |
| `Style.CheckStyleFiles` | utils/check-style-clang-format.py:379-441 | the answer, and that after a yes every listed file is clean and no other file has changed |
| `Trace.Monitor.Emit` | scratch/0126.cc:55-88 | a tick appends the selected flows of the map to the stream |
| `Trace.TwoInOrder` | scratch/0126.cc:59-66 | at most one line each for flows 1 and 3, in that order |
| `Trace.FourInOrder` | scratch/wns3-mpquic-four-path.cc:57-61 | at most one line each for flows 1, 3, 4 and 5, in that order |
| `Trace.Parse` | wns3-draw-figures/figure0103b.py:134-145 | the loop with its early exit yields the rows up to the first past the finish time |
| `Trace.CutSpec` | wns3-draw-figures/figure0103b.py:143-144 | only the last row can be past the finish time, and rows are dropped only after such a row |
| `Trace.TickThroughParser` | wns3-draw-figures/figure0103b.py:158-173 | the lines of one tick open, extend and close a row as the flows present demand |
| `Trace.ParserAfter` | wns3-draw-figures/figure0103b.py:132-145 | the parser's state after any number of ticks, in closed form |
| `Trace.RowsOfRun` | scratch/0126.cc:59-87 | the rows of a whole run, in closed form |
| `Trace.RowIsTick` | wns3-draw-figures/figure0103b.py:134-145 | every row after the first is the sum of one tick, in tick order without gaps; the first too if flow 1 is not early |
| `Trace.TwoFlowRow` | wns3-draw-figures/figure0103b.py:134-145 | by the flows of the tick: the time of flow 1 and the values of flows 1 and 3 added |
| `Trace.FourFlowRow` | wns3-draw-figures/figure0103b.py:158-173 | the time of flow 1 and the values of flows 1, 3, 4 and 5 added, flows 3 and 4 as far as they exist |
| `Trace.NoTickLost` | wns3-draw-figures/figure0103b.py:143-145 | one row per tick from the first complete one on, unless a row was past the finish time |
| `Trace.CarrySums` | wns3-draw-figures/figure0103b.py:160-167 | what the accumulating branches add up before flow 5 appears |
| `Trace.FirstRow` | wns3-draw-figures/figure0103b.py:158-173 | which ticks the first row takes its time and its parts from |
| `Trace.FirstRowIsTickIff` | wns3-draw-figures/figure0103b.py:158-173 | exactly when the first row equals the sum of the first complete tick |
| `Trace.FirstRowIsHonestIff` | scratch/0126.cc:79-81 | with increasing times, it does iff the last flow does not appear later than flow 1 |
| `Trace.FirstRowMixesTicks` | wns3-draw-figures/figure0103b.py:134-145 | a two-tick run whose first row is not the sum of a tick |
| `Welford.WelfordStep` | utils/bench-scheduler.cc:358-362 | one update keeps the average the mean and the moment the sum of squared deviations |
| `Welford.FirstSample` | utils/bench-scheduler.cc:347 | the first sample becomes the average whatever it was seeded with |
| `Welford.Log` | utils/bench-scheduler.cc:332-389 | mean and variance of all six fields, printed for two or more results |
| `Welford.FieldsDetermine` | utils/bench-scheduler.cc:351-370 | the six fields are all of a result, so none is left out of the statistics |
| `Welford.SpreadNonNegative` | utils/bench-scheduler.cc:374-381 | the moment is never negative, and 0 only if all samples agree |
| `Welford.StatisticsIgnoreOrder` | utils/bench-scheduler.cc:351-370 | mean and spread do not depend on the order of the runs |
| `EventPopulation.Bench.Cb` | utils/bench-scheduler.cc:163-176 | the callback stops at the total without drawing a delay, else draws one, adds an event after it and counts one |
| `EventPopulation.Bench.Populate` | utils/bench-scheduler.cc:144-148 | the initial events fall due at the present time plus the first delays drawn, one each |
| `EventPopulation.Bench.Execute` | utils/bench-scheduler.cc:152-170 | the event loop takes `total + 1` callbacks at a constant population and draws one delay for each event it adds |
| `EventPopulation.Bench.Run` | utils/bench-scheduler.cc:133-161 | the population is pending before each of `total + 1` callbacks, `total` is reported, every event is scheduled with the next delay drawn, `population + total` in all, nothing stays pending |
| `EventPopulation.Suite` | utils/bench-scheduler.cc:291-307 | every run of the suite starts with no event pending and reports `total`, and no delay drawn is skipped or used twice |
| `Ranges.FindSpec` | utils/grid.py:113-130 | on ranges that may touch, the search finds one that contains the key, or reports that none does |
| `Ranges.TimelineDataRange.Search` | utils/grid.py:113-130 | the loop computes that search on any list |
| `Ranges.TimelineDataRange.GetRanges` | utils/grid.py:147-163 | the slice between the positions found; for disjoint ranges a linear selection, by where the window ends lie |
| `Ranges.TimelineDataRange.GetRangesBounds` | utils/grid.py:165-181 | the positions denote the slice that the query returns |
| `Ranges.QueryIsAnswer` | utils/grid.py:154-163 | for disjoint ranges the binary-search query is the linear selection |
| `Ranges.NothingMissed` | utils/grid.py:154-163 | if an end of the window lies in a range, every overlapping range is returned, except that of ranges sharing the window's start an earlier one, and of ranges sharing its end a later one, may be left out |
| `Ranges.BisectLands` | utils/grid.py:113-130 | the search stops at the first midpoint that hits the positions of the ranges containing the key |
| `Ranges.NoneMissedIff` | utils/grid.py:113-163 | with touching ranges, all overlapping ranges are returned iff each search stops at the outermost of the ranges containing its end of the window, and nothing overlaps if both ends are in gaps |
| `Ranges.NoneExtraIff` | utils/grid.py:147-163 | with touching ranges, only overlapping ranges are returned iff none lies beyond the one end that is in a gap |
| `Ranges.TouchingExactIff` | utils/grid.py:113-163 | with touching ranges, the query is the selection of the overlapping ranges iff both conditions hold |
| `Ranges.NothingExtra` | utils/grid.py:162-163 | if both ends lie in ranges, nothing else is returned |
| `Ranges.TouchingRangeMissed` | utils/grid.py:154-163 | two ranges that share a point, of which a window on that point returns one |
| `Ranges.RangeInsideMissed` | utils/grid.py:156-157 | a range inside a window with both ends in gaps is not returned |
| `Ranges.AnswerIsExactIff` | utils/grid.py:154-163 | exactly when the query returns the overlapping ranges and no others |
| `Events.TimelineEvent.Search` | utils/grid.py:217-235 | an event at the key, or the insertion point if there is none |
| `Events.TimelineEvent.GetEvents` | utils/grid.py:244-253 | the result is the slice between the positions found for the window's ends |
| `Events.TimelineEvent.GetEventsBounds` | utils/grid.py:255-264 | the positions denote the very slice that the query returns, on any list |
| `Events.WindowIsFilter` | utils/grid.py:244-253 | with distinct times the query is the linear filter plus at most the first event after the window |
| `Events.WindowWithRepeats` | utils/grid.py:244-253 | with repeated times every event strictly inside is returned, and at most one after the end |
| `Events.QueryIsExactIff` | utils/grid.py:244-253 | with distinct times it is exactly the filter iff an event is at the window's end or none follows |
| `Events.BisectLands` | utils/grid.py:217-235 | the search stops at the first midpoint that hits the events at the key, or where one would be inserted |
| `Events.RepeatsExactIff` | utils/grid.py:217-253 | with repeated times it is the filter iff the search for the start stops at the first event there, and that for the end at the last event there or past all events |
| `Events.RepeatedEventLost` | utils/grid.py:244-253 | times 2 and 2, window 2..2: one of the two is returned |
| `Events.LaterEventReturned` | utils/grid.py:244-253 | times 1 and 5, window 0..3: both are returned |
| `Store.GetOrCreate` | utils/grid.py:306-343 | finds the entry with a name or appends one |
| `Store.Timelines.Read` | utils/grid.py:1748-1780 | one log line goes to the end of its series in its timeline |
| `Store.ReadData` | utils/grid.py:1739-1780 | the loop over the log |
| `Store.SeriesHoldTheirLines` | utils/grid.py:1748-1780 | every series holds exactly the items of its own lines, in file order |
| `Store.StoredByKind` | utils/grid.py:1748-1780 | range lines, string events and integer events are found in the series of their own kind, and nothing else is |
| `Store.NamesStayDistinct` | utils/grid.py:306-343 | timelines have distinct names, and so have the series of a timeline |
| `Store.NothingLost` | utils/grid.py:1748-1780 | as many items are stored as lines matched |
| `Store.SeriesBounds` | utils/grid.py:385-402 | folding in series sorted by start keeps the least start, the greatest end of a last item, and 0 |
| `Store.TimelineBounds` | utils/grid.py:378-405 | the bounds of one timeline |
| `Store.GetBounds` | utils/grid.py:444-457 | the least start and the greatest end of a last item over all timelines, or 0 |
| `Store.EnclosesIff` | utils/grid.py:190-201 | exactly when these enclose every stored start and end |
| `Store.AllSpanned` | utils/grid.py:378-457 | they do when every series is sorted and its ranges overlap in end points at most |
| `Store.ReversedRangeEscapes` | utils/grid.py:190-201 | a reversed range that lies outside the bounds |
| `Store.StoredTimes` | utils/grid.py:1748-1780 | the starts and ends in the store are exactly those in the log |
| `Store.LogBounds` | utils/grid.py:1739-1780 | for a log in sequence the bounds enclose every time in the log, and each is 0 or a time of the log |
| `Store.QueryRanges` | utils/grid.py:147-163 | a window query after reading a log is the query on the lines of that series |
| `Store.QueryEvents` | utils/grid.py:244-253 | the same for events |
| `Legend.TopLegendRenderer.Layout` | utils/grid.py:582-607 | the height is that of the packed lines: the top of the last box and the height of the tallest item |
| `Legend.TopLegendRenderer.Draw` | utils/grid.py:616-647 | each item is drawn where the packer places it, and the boxes flow: sized by text and padding, next to each other, a new line exactly when the next would not fit |
| `Legend.BoxesFlow` | utils/grid.py:626-637 | the first box, every pair of neighbours and every extent: same line and flush if it fits, else the start of a line lower by the tallest item so far |
| `Legend.NoOverlap` | utils/grid.py:616-647 | no two item boxes overlap |
| `Legend.WithinHeight` | utils/grid.py:606-607 | every item lies within the height that layout computed |
| `Legend.WithinWidthIff` | utils/grid.py:632-637 | an item lies within the width iff it fits on a line of its own |
| `Ticks.Closest` | utils/grid.py:985-988 | a power of ten below the span and at least a tenth of it |
| `Ticks.Draw` | utils/grid.py:985-1058 | the marks and finer marks drawn for every pair of real bounds, or the marks drawn before a step of 0 is rejected |
| `Ticks.RejectedIff` | utils/grid.py:1048-1052 | drawing fails exactly for spans of at most 10, the bounds being any real numbers |
| `Ticks.SpanOfFiveFails` | utils/grid.py:1048-1052 | the scale 0..5 fails after its five marks |
| `Ticks.DrawnMarks` | utils/grid.py:1022-1058 | otherwise the marks and finer marks are exactly the multiples in (lo, hi], in ascending order, 1 to 10 and 10 to 100 of them |
| `Ticks.NumberOfMarks` | utils/grid.py:1022-1033 | a span of more than m and at most n distances holds m to n marks |
| `Ticks.LargestPower` | utils/grid.py:987-988 | the distance is the largest power of ten below the span |
| `Ticks.MarksAreMultiples` | utils/grid.py:1022-1033 | a number is a mark iff it is a multiple of the distance above `lo` and up to `hi`, for the floors of the bounds |
| `Ticks.OneToTenMarks` | utils/grid.py:985-996 | between 1 and 10 marks are drawn |

## Left out

* The topology and traffic set-up in `scratch/`, and ns-3 itself: calls into code that is not in this repository.
* `test.py`: subprocesses, environment paths, HTML and text rendering, configuration, the choice of suites and examples. A results file that is missing for a suite with return code 0 to 2 raises in the source and is not modelled.
* `test.py`: the queues and the fields of a job are values in a state, not shared objects; blocking is a step that is not enabled.
* `utils/check-style-clang-format.py`: clang-format, directory walking, the process pool and the `#include` fixer, which depends on the file system. The text of the diagnostics is reduced to line numbers.
* `utils/grid.py`: drawing itself, colours, mouse handling, `sort`. Timelines and series are values that methods replace, so aliasing between a timeline and the objects handed out is not captured; `Store` keeps an event as a range of length 0.
* `utils/bench-scheduler.cc`: wall-clock times, rates and the square root of the variance; `uint64_t` counters are unbounded, which is harmless as no counter exceeds `m_total`.
* Trace: the text format of a line and the rounding of printed numbers; values are reals and a flow missing from a tick adds nothing.
* `utils/bench-packets.cc`, `bak/inet-socket-address.cc`, the other figure scripts, `utils.py`, `setup.py`, `utils/create-module.py`: I/O, templates, or only easy members.
