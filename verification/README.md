# Models of the Arterm maintenance scripts

Arterm's maintenance scripts hide several real algorithms behind thin shells.  This project models
nine of them in Dafny and proves what they are for.

* **Crate-split planner** (`Digraph`, `Components`, `Tarjan`, `Sums`, `Feedback`, `Eades`, `Planner`,
  `Blanks`, `ImportSplit`).  Tarjan's search over the module graph, with its shared index, lowlink and stack
  tables, returns exactly the strongly connected components, dependencies first.  The greedy
  Eades-Lin-Smyth order of the largest cycle leaves back-edges of at most half the total weight, all of
  them into vertices that the run placed by its pick rule, and cutting them frees precisely the modules of that cycle from all cycles, leaving the rest of the
  graph's cycles as they are.
* **Diagram fit planner** (`FitPlan`).  Which zoom crops which axis, how far a centred viewport can be
  off, what the contain rectangle guarantees, and when the reported clipping bug occurs.
* **Benchmark campaign** (`TextOrder`, `JobNames`, `CampaignModel`, `CampaignOutcome`, `Campaign`).  The runner as a state
  machine over manifest, mirrored log and run directories, with crashes between any two writes; the
  program text is proved to be a run of that machine, and what an invocation leaves of each task is stated
  task by task, whatever the order in which jobs finish.
* **Budget ratchets** (`Scanner`, `PanicBudget`, `SwallowedBudget`).  The scan that skips
  `#[cfg(test)]` items, and the ratchets over files, patterns and totals.
* **Reload recovery audit** (`ReloadAudit`).  Incremental correlation of log lines, trace events and
  durable records equals a declarative reading of the inputs.
* **Terminal replies** (`TerminalReplies`), **memory log** (`Sorting`, `MemoryLog`) and **process tree**
  (`ProcessTree`): the leftmost-first and the table-order reply loop, process lifetimes and spikes, and
  worklist reachability.  `Options` holds the one shared datatype, and `Listing` what it means that a
  sequence lists, in order and completely, what the positions of an input give.

`dafny verify dfyconfig.toml` checks everything.

## How the models are made

Scripts that update state in place are imperative here too: `Tarjan.Search`, `Campaign.Runner` and
`ReloadAudit.Audit` are classes with the scripts' variables as fields, and every other loop of the
scripts is a loop with invariants, proved against a specification function or an outright property.
The fit planner, which only computes values, is a set of functions with lemmas about them.

Inputs that come from the machine are parameters: the contents of directories, what a benchmark
process leaves behind, a process table, a byte buffer, and source lines reduced to what the scanners
ask about them.  Where a script iterates over a Python set, or over a sorted listing whose order does
not matter for the result proved, the model takes elements in any order, so the result holds for
every order; likewise `EadesOrder` may pick any vertex of maximal score.
`EadesOrder` also returns the run it took as a ghost sequence of steps, each with its vertex, the rule that
placed it and the remainder it was taken from; what is said about greedy orders is said about such runs.

## Results worth knowing

* `Campaign.Runner.Invoke`: what an invocation leaves of a task depends on that task alone, so running the jobs
  in parallel and one after the other leave the same for every task, unless a failure stops the sequential
  loop.  With at least one attempt the exit code is 0 exactly when there is a task, the settings agree and,
  without --continue-on-failure, every task is settled in the end.
* `NameOrderIsAgeIff`: looking for a finished run to adopt goes through the directory names from last
  to first, which is newest to oldest exactly as long as a task has at most 999 runs; `run-1000` sorts
  before `run-999`.
* `AdoptedCountsIff`, `AdoptedForever`: a run that is adopted settles its task exactly when it has a numeric
  reward.  A positive number of attempts guarantees that.  With zero attempts a run without any reward
  is adopted instead (`AdoptedWithoutReward`), and in every history in which the task's directories are
  not changed by hand the task is then never settled and never scheduled, and each invocation that asks for it
  adopts the same run again.
* `LogIsLastFlush`, `MirroredUnlessTorn`, `SettledRepairsNothing`: the log is the list as of its last write, so
  it mirrors the manifest except when a stop has fallen between the two writes of a record.  An
  invocation that writes anything repairs that; one whose tasks are all settled writes nothing, so the log may
  stay behind for good (`TornHistory`).
* `ItemOutput`, `ItemHiddenIff`: a `#[cfg(test)]` attribute hides an item exactly when the next significant line
  starts a `mod` or `fn` and the braces opened on that very line stay open up to the item's last line.  A
  test-only `impl` or `use` counts as production code, and so does the body of a test function whose
  signature takes several lines (`LongSignatureCounts`).  A line that holds both the attribute and the start
  of its item is taken as an attribute line, and the line after it as the item's header.  All this although the script describes its counts as
  production occurrences.
* `CellGrowsIff`: the swallowed-error ratchet holds file totals and pattern totals, so the count of one pattern
  in one file may grow unnoticed, exactly when the file has a hit of another pattern and another file
  has a hit of this one.
* `ClippingBugIff`: the old fit plan crops a diagram that already used its pane exactly when the fit zoom is
  unreadable, the fill zoom exceeds it by more than five points and the contain rectangle reaches the
  target share; the script's default sizes are such a case (`ClippingBugHappens`).
* `AllAnsweredIff`: the table-order reply loop writes one reply per different query, so a stream gets all its
  replies exactly when it asks nothing twice; the leftmost-first loop answers each one.
* `CuttingBreaksCycles`: cutting the back-edges leaves an acyclic graph exactly when no module refers
  to itself, which the module graph rules out.

## Model

| member | source | states |
|---|---|---|
| Tarjan.Search.StrongConnect | scripts/analyze_root_crate.py:290-311 | one visit keeps the whole index/lowlink/on-stack invariant, leaves earlier entries alone, and its lowlink is witnessed by a reachable stack vertex and bounds every edge back into the older stack; terminates by the number of unvisited vertices |
| Tarjan.Search.PopComponent | scripts/analyze_root_crate.py:303-311 | pops exactly the stack above and including the root, clears its flags and emits it in pop order |
| Tarjan.StayOpen | scripts/analyze_root_crate.py:302-303 | when the lowlink is below the index, the visit may end with its vertex left on the stack: every stack vertex still reaches an unfinished vertex below it |
| Tarjan.Close | scripts/analyze_root_crate.py:303-311 | when lowlink and index agree, emitting the stack segment keeps the invariant with the vertex no longer in progress |
| Tarjan.SegmentIsComponent | scripts/analyze_root_crate.py:303-311 | the stack segment above a root is exactly the set of vertices mutually reachable with it |
| Tarjan.StronglyConnectedComponents | scripts/analyze_root_crate.py:271-315 | every vertex, successors outside the keys included, is listed once; each listed group is a class of mutual reachability without duplicates; edges lead to the same or an earlier group |
| Components.TogetherIffMutual | scripts/analyze_root_crate.py:271-315 | two vertices share a component exactly when each reaches the other |
| Components.ReverseTopological | scripts/analyze_root_crate.py:271-278 | whatever a component reaches along any path is listed no later than the component itself |
| Components.OnCycleIff | scripts/analyze_root_crate.py:274-277 | a vertex lies on a cycle exactly when its component has a second member or it has a self-loop |
| Components.NoCyclesIffAcyclic | scripts/analyze_root_crate.py:405-411 | for a graph without self-loops the list of cycles is empty exactly when the graph is acyclic |
| Eades.ScoreOf | scripts/analyze_root_crate.py:515-518 | the two sums are the out-weight and in-weight within the remaining vertices |
| Eades.EadesOrder | scripts/analyze_root_crate.py:483-522 | terminates with a run and the order it arranges: every node is placed by one step, as a sink, a source or a best-score pick out of a core, of what the steps before left over; back-edges weigh at most half of all edges, and each enters a vertex the run picked, from a vertex still left at that pick |
| Eades.GreedyOrder | scripts/analyze_root_crate.py:483-522 | all of that for every run that uses up the nodes, whatever choices it makes |
| Eades.PlacedOnce | scripts/analyze_root_crate.py:498-521 | a run places no vertex twice, and has placed exactly the nodes that are no longer left |
| Feedback.ScoresCancel | scripts/analyze_root_crate.py:515-519 | scores over any vertex set sum to zero |
| Feedback.BestScore | scripts/analyze_root_crate.py:515-519 | so a vertex of maximal score has score at least zero |
| Eades.SinkKeeps | scripts/analyze_root_crate.py:502-506 | moving a sink to the front of the right part adds no back weight and keeps every edge back to a picked vertex |
| Eades.SourceKeeps | scripts/analyze_root_crate.py:507-512 | moving a source to the end of the left part adds no back weight and keeps every edge back to a picked vertex |
| Eades.PickKeeps | scripts/analyze_root_crate.py:515-521 | a pick adds back weight that is paid for twice by edges leaving the remainder |
| Eades.TopologicalIffDag | scripts/analyze_root_crate.py:483-522 | the order of any greedy run has no back-edge exactly when the loop-free input was acyclic |
| Feedback.KeptCycles | scripts/analyze_root_crate.py:430-435 | after deleting the back-edges of any order the only cycles left are self-loops |
| Feedback.CuttingBreaksCycles | scripts/analyze_root_crate.py:430-435 | deleting the back-edges leaves an acyclic graph exactly when there are no self-loops |
| Planner.BackEdges | scripts/analyze_root_crate.py:430-437 | lists each edge with pos[v] < pos[u] once with its weight, in ascending weight and then by the names of source and target; the total is the sum of the listed weights and the back weight of the order |
| Planner.CutsClear | scripts/analyze_root_crate.py:400-447 | after the cuts a module is on a cycle exactly when it was before and lies outside the cut cycle |
| Planner.LargestOfAll | scripts/analyze_root_crate.py:406-422 | the chosen cycle has the most lines among all cyclic components of the graph |
| Planner.PlanSplit | scripts/analyze_root_crate.py:400-437 | the report says DAG exactly when the graph is acyclic, and otherwise names a largest cycle, the order of a greedy run over it, and as cuts exactly the references within the cycle that point backwards, with their line counts, in ascending order and at no more than half the weight, which clear precisely that cycle |
| Planner.ModuleGraphIs | scripts/analyze_root_crate.py:400-404 | an edge is a reference between two different modules of which neither is a full facade |
| ImportSplit.SplitTopLevel | scripts/analyze_root_crate.py:34-53 | returns the entries of the body's pieces: none blank, none with a blank end or a top-level comma, and all with even braces if the body's are |
| ImportSplit.EntriesAre | scripts/analyze_root_crate.py:53 | the entries are exactly the non-empty texts that some piece leaves when stripped |
| ImportSplit.EntriesJoin | scripts/analyze_root_crate.py:53 | entries come in the order of their pieces |
| ImportSplit.EntriesRoundTrip | scripts/analyze_root_crate.py:34-53 | splitting gives back any stripped, unbroken entries that were joined with commas |
| ImportSplit.SplitAgain | scripts/analyze_root_crate.py:34-53 | joining the entries of a brace-balanced body and splitting again changes nothing |
| Blanks.StripIs | scripts/analyze_root_crate.py:53 | stripping takes blanks off both ends and leaves no blank end |
| ImportSplit.JoinPieces | scripts/analyze_root_crate.py:34-53 | joined with commas the pieces give the body back, except that a comma is lost exactly when the body ends in one outside all braces |
| ImportSplit.SplitJoin | scripts/analyze_root_crate.py:34-53 | splitting undoes joining for pieces with even braces and no top-level comma |
| ImportSplit.PiecesUnbroken | scripts/analyze_root_crate.py:34-53 | no piece contains a top-level comma, and pieces of a brace-balanced body are balanced |
| FitPlan.CoversIff | scripts/mermaid_fit_probe.py:64-70 | the viewport covers the image along an axis exactly when the zoom is at most the axis quotient |
| FitPlan.FitOverflowIff | scripts/mermaid_fit_probe.py:40-45 | fit zoom crops an axis exactly when that axis' quotient is zero |
| FitPlan.FillOverflowsBothIff | scripts/mermaid_fit_probe.py:78-80 | the fill zoom crops both axes exactly when the larger axis zoom is below the readable minimum |
| FitPlan.CentredScroll | scripts/mermaid_fit_probe.py:64-72 | the scrolled viewport stays in the image and its right margin exceeds the left one by less than two steps, never the other way round |
| FitPlan.StepIsZoomedCell | scripts/mermaid_fit_probe.py:30-31 | a step is one zoomed cell rounded up |
| FitPlan.ContainRect | scripts/mermaid_fit_probe.py:48-61 | the rectangle lies in the pane, is centred to within a cell, spans one axis fully and is the least whole-cell cover of the scaled image on both |
| FitPlan.AreaIsMin | scripts/mermaid_fit_probe.py:82-84 | for all sizes the area utilization is the smaller of the two axis utilizations |
| FitPlan.UnderutilizedIff | scripts/mermaid_fit_probe.py:82-89 | the three-way underutilized test is the area test |
| FitPlan.LargerFillCrops | scripts/mermaid_fit_probe.py:78-90 | a fill meaningfully larger than fit crops both axes exactly when neither axis zoom is readable, and otherwise exactly one |
| FitPlan.PlansFillIff | scripts/mermaid_fit_probe.py:82-124 | for all sizes, when the old plan and the fixed plan fill, and that they otherwise show the contain rectangle |
| FitPlan.BelowTargetIff | scripts/mermaid_fit_probe.py:26-27 | the area share is below 85% exactly when the rectangle has fewer than 85 in a hundred of the pane's cells |
| FitPlan.FitZoomIsLargest | scripts/mermaid_fit_probe.py:40-45 | fit zoom is the largest percentage up to the maximum that shows both axes in full, or 1 if there is none |
| FitPlan.FillZoomIsLargest | scripts/mermaid_fit_probe.py:78-80 | fill zoom is the largest readable percentage that shows one axis in full, or the least readable one if there is none |
| FitPlan.ViewIsPane | scripts/mermaid_fit_probe.py:64-70 | the viewport is the pane in image pixels, rounded down |
| FitPlan.MissingSizes | scripts/mermaid_fit_probe.py:30-72 | what the functions return when a size is zero |
| FitPlan.ClippingBugIff | scripts/mermaid_fit_probe.py:92-124 | the bug flag holds exactly when the fit zoom is unreadable, the fill zoom exceeds it by more than five and the contain rectangle reaches the target share; then the old plan crops and the fixed plan does not |
| FitPlan.ClippingBugHappens | scripts/mermaid_fit_probe.py:238-240 | the default pane, image and font sizes show the bug |
| FitPlan.FillIsCentred | scripts/mermaid_fit_probe.py:95-100 | both plans, when they fill, use a readable zoom and a centred scroll on each axis |
| JobNames.JobNameReads | scripts/run_terminal_bench_campaign.py:454-455 | a directory name is "run-" and the number in decimal, in three digits or, without a leading zero, in more |
| JobNames.JobNameInjective | scripts/run_terminal_bench_campaign.py:454-455 | different run numbers have different directory names |
| JobNames.NameOrderIsAgeIff | scripts/run_terminal_bench_campaign.py:242 | name order is age order exactly up to 999 runs |
| Campaign.LoadTasks | scripts/run_terminal_bench_campaign.py:46-62 | lists, in order, the first occurrences among the arguments and the lines that, apart from blanks at both ends, are a name and no comment |
| Campaign.DedupIs | scripts/run_terminal_bench_campaign.py:54-59 | deduplication keeps every name and keeps it once |
| CampaignModel.CountsIff | scripts/run_terminal_bench_campaign.py:215-238 | a record settles its task exactly when it is completed, names a task, and has a mean and enough rewards |
| CampaignModel.FinalRecordIs | scripts/run_terminal_bench_campaign.py:318-393 | which of the five statuses a finished process gets, its return code, trials and mean, by what its directory holds |
| CampaignModel.MeanBalances | scripts/run_terminal_bench_campaign.py:196-212 | the mean is the number from which the rewards differ by nothing in sum; without rewards there is none |
| CampaignModel.RewardsList | scripts/run_terminal_bench_campaign.py:196-222 | the numeric rewards are those of the trials, in order |
| CampaignModel.AdoptedIff | scripts/run_terminal_bench_campaign.py:241-261 | the adopted run is the one with a job result, trials and enough rewards whose name sorts last |
| CampaignModel.UpsertIs | scripts/run_terminal_bench_campaign.py:154-171 | an upsert contains the record, moves and changes no record of another key, and otherwise only appends |
| CampaignModel.UpsertAppendsIff | scripts/run_terminal_bench_campaign.py:159-168 | it appends exactly when the key is new |
| CampaignModel.UpsertUnique | scripts/run_terminal_bench_campaign.py:154-171 | at most one record per task and job is kept |
| CampaignModel.UpsertTwice | scripts/run_terminal_bench_campaign.py:159-162 | appending is idempotent |
| Campaign.Runner.AppendResult | scripts/run_terminal_bench_campaign.py:154-171 | first the manifest and then the log becomes the upserted list, and neither is touched when the record is already there |
| Campaign.Runner.EnsureManifest | scripts/run_terminal_bench_campaign.py:119-140 | succeeds exactly when there is no manifest or its pinned settings agree, and then is a boot step |
| Campaign.Runner.CompletedRecordedJobs | scripts/run_terminal_bench_campaign.py:225-238 | maps exactly the settled tasks, each to its last settling record |
| Campaign.Runner.AdoptExistingJob | scripts/run_terminal_bench_campaign.py:241-261 | adopts the adoptable run whose name sorts last and records it, or finds none |
| Campaign.Runner.PrepareTask | scripts/run_terminal_bench_campaign.py:396-413 | skips a settled task; otherwise makes its directory and there adopts the run whose name sorts last among the adoptable ones, or schedules the next number when there is none |
| Campaign.PreparePath | scripts/run_terminal_bench_campaign.py:396-413 | that is a run of the machine, write by write |
| Campaign.FinalizePath | scripts/run_terminal_bench_campaign.py:318-393 | and so is filing the result of a finished process |
| Campaign.Runner.FinalizeTaskResult | scripts/run_terminal_bench_campaign.py:318-393 | files the record that the directory's contents and the return code call for; the last branch is reached only without trials |
| Campaign.Runner.Invoke | scripts/run_terminal_bench_campaign.py:416-515 | an invocation is a run of the machine; of every task it leaves what that task calls for (nothing new, an adopted run, or its next job run and its record filed), up to the first failure if the loop stops there, and of other tasks everything as it was; the exit code is 0 exactly when all runs called for succeed or failures are tolerated, and with at least one attempt exactly when all tasks are settled in the end; the log mirrors the manifest unless neither has changed |
| CampaignOutcome.HandledSettlesIff | scripts/run_terminal_bench_campaign.py:443-515 | a task is settled in the end exactly when no run was called for, or its run was reached and succeeds |
| CampaignOutcome.AllSettledIff | scripts/run_terminal_bench_campaign.py:457-515 | all runs called for succeed exactly when all tasks are settled in the end |
| CampaignOutcome.TaskHandled | scripts/run_terminal_bench_campaign.py:443-515 | preparing all tasks and then running the jobs handles each task by itself |
| CampaignOutcome.OneMore | scripts/run_terminal_bench_campaign.py:457-515 | one more finished job, whichever it is, moves its own task and no other |
| CampaignOutcome.UpsertByTask | scripts/run_terminal_bench_campaign.py:154-171 | filing a record is filing it among the records of its task, and leaves those of every other task |
| Campaign.HistoryGoesOn | scripts/run_terminal_bench_campaign.py:416-515 | an invocation carries on any history, so results about histories hold over all sequences of invocations |
| CampaignModel.StepInv | scripts/run_terminal_bench_campaign.py:396-493 | every step keeps the campaign invariant |
| CampaignModel.StepKeeps | scripts/run_terminal_bench_campaign.py:154-171 | no step overwrites a settling record, removes a directory or changes the settings |
| CampaignModel.SettledForGood | scripts/run_terminal_bench_campaign.py:396-400 | over every history a settled task stays settled by the same record and is never pending again |
| CampaignModel.ScheduledJobIsFresh | scripts/run_terminal_bench_campaign.py:447-455 | over every history a scheduled job has the next free number, its directory does not exist, and all lower numbers do |
| CampaignModel.ReachableDisk | scripts/run_terminal_bench_campaign.py:147-171 | in every reachable state keys are unique, directories are numbered without a gap, and settling records name existing directories |
| CampaignModel.LogIsLastFlush | scripts/run_terminal_bench_campaign.py:147-171 | in every reachable state the log is the manifest's list as of the last log write, or absent without one; so it mirrors the manifest exactly when the list is that one |
| CampaignModel.MirroredUnlessTorn | scripts/run_terminal_bench_campaign.py:170-171 | unless a stop falls between the two writes, between records the log is up to date whenever either list has changed |
| CampaignModel.SettledRepairsNothing | scripts/run_terminal_bench_campaign.py:396-400 | over every continuation of a history that only asks for settled tasks, neither list is written, so a log left behind stays behind |
| CampaignModel.TornHistory | scripts/run_terminal_bench_campaign.py:170-171 | a history that ends with a settled task in the manifest and no log |
| CampaignModel.FinalCountsIff | scripts/run_terminal_bench_campaign.py:215-238 | finalizing reports success exactly when the record will count as completed later, for any number of attempts |
| CampaignModel.AdoptedCountsIff | scripts/run_terminal_bench_campaign.py:241-261 | an adopted run counts as completed exactly when it has a numeric reward, which at least one attempt guarantees |
| CampaignModel.AdoptedWithoutReward | scripts/run_terminal_bench_campaign.py:247-252 | with zero attempts a run without reward is adopted and does not count |
| CampaignModel.AdoptedForever | scripts/run_terminal_bench_campaign.py:241-261 | over every history without changes to its directories such a task is never settled and never pending, and each preparation adopts the same run again |
| Scanner.ProductionLines | scripts/check_panic_budget.py:79-105 | the loop with its skip stack outputs what the line-by-line scan keeps |
| Scanner.ShapeAlways | scripts/check_panic_budget.py:86-104 | the skip stack always holds at most one entry, and a positive one |
| Scanner.StackIsCounter | scripts/check_panic_budget.py:86-104 | the scan is the same scan over a plain depth counter |
| Scanner.OutputIsSubsequence | scripts/check_panic_budget.py:79-105 | the output is a subsequence of the input |
| Scanner.PlainCodeIsKept | scripts/check_panic_budget.py:98-101 | without a cfg(test) attribute every line is kept |
| Scanner.BlockLeavesNoTrace | scripts/check_panic_budget.py:88-104 | inserting a well-formed test item where the scan is clean adds its other attribute lines and nothing else |
| Scanner.ItemOutput | scripts/check_panic_budget.py:86-104 | of any cfg(test) item: a header that starts a mod or fn goes with the lines up to where the braces opened on it close, and any other header stays with its whole body |
| Scanner.ItemHiddenIff | scripts/check_panic_budget.py:86-104 | the item leaves no line exactly when its header starts a mod or fn and the brace depth is positive before each further line (a line past the braces that is itself a cfg(test) attribute begins the next item) |
| Scanner.LongSignatureCounts | scripts/check_panic_budget.py:89-95 | a test function with its opening brace on the second line is counted as production code |
| Scanner.HitsAre | scripts/check_panic_budget.py:108-114 | the hits are as many as the lines that match |
| PanicBudget.CurrentCounts | scripts/check_panic_budget.py:108-114 | counts matching production lines per file, for exactly the files with one or more |
| PanicBudget.TestBlockIsFree | scripts/check_panic_budget.py:79-114 | such a test item changes neither its file's count nor the table of counts |
| PanicBudget.Check | scripts/check_panic_budget.py:160-180 | reports exactly the regressions and exactly the improvements, with their numbers |
| PanicBudget.PassesIff | scripts/check_panic_budget.py:163-187 | nothing is a regression exactly when the total and every file stay within the baseline |
| PanicBudget.FilesDecide | scripts/check_panic_budget.py:134-143 | against a written baseline the per-file checks alone decide |
| PanicBudget.FreshIsQuiet | scripts/check_panic_budget.py:134-143 | a freshly written baseline reports nothing for the same tree |
| PanicBudget.RatchetTightens | scripts/check_panic_budget.py:9-13 | over every run of passing commits no file's allowance grows, no file is added and the total never increases |
| PanicBudget.PassesBackwards | scripts/check_panic_budget.py:9-13 | what passes now would have passed against every earlier baseline |
| SwallowedBudget.CurrentCounts | scripts/check_swallowed_error_budget.py:113-123 | counts every pattern per file, leaving out files without any hit |
| SwallowedBudget.TotalCounts | scripts/check_swallowed_error_budget.py:130-135 | the totals per pattern are the column sums |
| SwallowedBudget.GrandByPattern | scripts/check_swallowed_error_budget.py:126-139 | the grand total by files equals the sum of the pattern totals |
| SwallowedBudget.Check | scripts/check_swallowed_error_budget.py:202-233 | reports exactly the margins that grew and exactly those that shrank |
| SwallowedBudget.PassesIff | scripts/check_swallowed_error_budget.py:205-240 | nothing grew exactly when the total, every pattern and every file stay within the baseline |
| SwallowedBudget.PatternsDecideTotal | scripts/check_swallowed_error_budget.py:165-179 | against a written baseline the pattern checks imply the total check |
| SwallowedBudget.FilesDecideTotal | scripts/check_swallowed_error_budget.py:165-179 | and so do the file checks |
| SwallowedBudget.FreshIsQuiet | scripts/check_swallowed_error_budget.py:165-179 | checking freshly written counts reports neither regression nor improvement |
| SwallowedBudget.RatchetTightens | scripts/check_swallowed_error_budget.py:202-240 | over every run of passing commits every margin of the baseline only shrinks |
| SwallowedBudget.QuietIff | scripts/check_swallowed_error_budget.py:202-233 | the check reports nothing exactly for the tables with the same files, file totals and pattern totals |
| SwallowedBudget.CellGrowsIff | scripts/check_swallowed_error_budget.py:219-233 | some passing table, and even some table without any report, has a larger count of a pattern in a file exactly when the baseline's count is below both the file's and the pattern's total |
| SwallowedBudget.CellMayGrow | scripts/check_swallowed_error_budget.py:219-233 | two files with one hit each of different patterns are such a baseline |
| ReloadAudit.Audit.AddEvent | scripts/reload_recovery_audit.py:206-241 | files one event under its key, creating the record and adopting the first role |
| ReloadAudit.FilingIsGrouping | scripts/reload_recovery_audit.py:206-241 | filing events one by one gives every key the record read off its own events, in order |
| ReloadAudit.GroupLists | scripts/reload_recovery_audit.py:206-218 | a key's events are those with its two ids, both non-empty, in order |
| ReloadAudit.RecordLists | scripts/reload_recovery_audit.py:219-241 | a record keeps the events of each kind in order |
| ReloadAudit.RecordLast | scripts/reload_recovery_audit.py:219-222 | of persisted and of claimed events it keeps the last |
| ReloadAudit.FirstRoleAt | scripts/reload_recovery_audit.py:209-218 | its role is that of the first event with a non-empty one |
| ReloadAudit.Audit.ParseLogs | scripts/reload_recovery_audit.py:244-412 | files, in line order and at most one a line, the events that the lines give, where a line without a reload id gives one under the id that the nearest earlier line naming its session named, if that is not empty; hidden sends are listed in order |
| ReloadAudit.LogLists | scripts/reload_recovery_audit.py:244-412 | the same of the events: nothing else, and nothing left out |
| ReloadAudit.LatestMeans | scripts/reload_recovery_audit.py:246-382 | most recently named: by an earlier line with no naming line of that session in between |
| ReloadAudit.Audit.ParseTraceFiles | scripts/reload_recovery_audit.py:415-461 | files, in order and with nothing left out, the lines of known phases with a session, under their own reload id or else the file's |
| ReloadAudit.Audit.MergeDurableRecords | scripts/reload_recovery_audit.py:464-485 | creates missing records and leaves every record as it was except for what its durable records say as a whole |
| ReloadAudit.DurablesRead | scripts/reload_recovery_audit.py:464-485 | merging one by one gives every key the status and delivery time of its last durable record, and the first role that says anything |
| ReloadAudit.LastDurableDecides | scripts/reload_recovery_audit.py:484-485 | the durable record of a key with none after it decides status and delivery time |
| ReloadAudit.PickAt | scripts/reload_recovery_audit.py:483 | the first non-empty role, of the events or else of the durable records, stays |
| ReloadAudit.OkSurvivesEvents | scripts/reload_recovery_audit.py:121-145 | no later event takes a record out of the ok verdicts |
| ReloadAudit.OkSurvivesDurables | scripts/reload_recovery_audit.py:464-485 | nor does any durable record |
| ReloadAudit.AuditReads | scripts/reload_recovery_audit.py:608-610 | after logs, traces and durable records: which keys have a record, what every field of it is, read off the key's events and durable records, and that its verdict is ok exactly when an evidence event was filed under its key |
| ReloadAudit.Audit.Collect | scripts/reload_recovery_audit.py:608-610 | the three passes in sequence establish that reading, with a record for exactly the keys that some line or durable record names |
| ReloadAudit.VerdictReads | scripts/reload_recovery_audit.py:121-154 | every one of the seven verdicts, from what log lines, trace lines and the last durable record of the key say |
| ReloadAudit.KeysRead | scripts/reload_recovery_audit.py:608-610 | a key has a record exactly when some line gives it an event or some durable record is its own |
| TerminalReplies.ReplyQueries | scripts/verify_light_theme.py:29-57 | answers the leftmost query until none is left, writing the reply to each query answered, in that order |
| TerminalReplies.BytesAccounted | scripts/verify_light_theme.py:47-57 | the bytes left over and the bytes of the answered queries make up the buffer |
| TerminalReplies.StreamAnswered | scripts/verify_light_theme.py:44-57 | for any prefix-free table of ESC-led queries, queries embedded in ESC-free text are answered one by one in stream order and the text comes back unchanged |
| TerminalReplies.LightTableShape | scripts/verify_light_theme.py:33-43 | the table is such a table |
| TerminalReplies.LightTableReads | scripts/verify_light_theme.py:29-43 | colour questions are answered with the number asked and the background or its contrast, ending as they ended, and reports with fixed values |
| TerminalReplies.LightRepliesInOrder | scripts/verify_light_theme.py:29-57 | hence exactly the queries of the stream are answered, in stream order |
| TerminalReplies.ReplyQueriesTableOrder | scripts/bench_memory_cli.py:166-175 | rounds over the table until one finds nothing: which replies are written, what is left, no query among it, and nothing written exactly when nothing changes |
| TerminalReplies.TableOrderAnswers | scripts/bench_memory_cli.py:166-175 | for ESC-led queries none of which can begin inside another, a stream of plain text and queries gets one reply for each different query, in table order, and the text comes back unchanged |
| TerminalReplies.AllAnsweredIff | scripts/bench_memory_cli.py:166-175 | so all queries asked are answered exactly when none is asked twice |
| TerminalReplies.BenchReplies | scripts/bench_memory_cli.py:147-165 | the script's sixteen queries are such a table |
| TerminalReplies.BenchTableReads | scripts/bench_memory_cli.py:147-165 | its replies: white on black, the same reports, and yes to each mode |
| MemoryLog.SelectLatestInstances | scripts/analyze_runtime_memory_log.py:252-271 | keeps exactly the samples of one process instance per target, that of the target's first latest sample, each as often as it was given, ordered by time, path and line |
| MemoryLog.ComputeSpikes | scripts/analyze_runtime_memory_log.py:394-404 | one spike for each pair of measured samples with none measured in between that differ by the threshold or more, from the earlier to the later, largest first and those of a size in order of time |
| MemoryLog.SpikeIff | scripts/analyze_runtime_memory_log.py:394-404 | a spike is reported exactly for such a pair |
| MemoryLog.NetGrowthIs | scripts/analyze_runtime_memory_log.py:579-594 | net growth is the last measured value less the first |
| MemoryLog.SpikesAddUp | scripts/analyze_runtime_memory_log.py:394-404 | spikes and dropped steps add up to the net growth, and what is dropped is less than the threshold per step |
| MemoryLog.SpikeMembers | scripts/analyze_runtime_memory_log.py:394-404 | a spike joins two measured samples of the list, and its size is their difference |
| MemoryLog.SpikesWithinProcess | scripts/analyze_runtime_memory_log.py:1057-1070 | over selected samples every spike starts and ends in the same process instance |
| MemoryLog.Summarize | scripts/analyze_runtime_memory_log.py:1057-1070 | the report has one entry per target, the spikes among that target's selected samples taken in order, and so for every log no spike crosses a process lifetime |
| Sorting.SortMembers | scripts/analyze_runtime_memory_log.py:403 | sorting permutes |
| Sorting.SortSorted | scripts/analyze_runtime_memory_log.py:270 | sorting by a total preorder sorts |
| Sorting.SortStable | scripts/analyze_runtime_memory_log.py:403 | and elements that sort alike keep their order |
| ProcessTree.CollectDescendants | scripts/bench_memory_cli.py:287-300 | collects exactly the processes that some root reaches through child links, a set closed under children in which all but the roots have their parent |
| ProcessTree.TreeIs | scripts/bench_memory_cli.py:287-300 | a child link leads from a process to one that names it as parent |

## Left out

- The text side of the planner: finding modules, counting references by regular expressions, and classifying facades; the model starts from the resulting table.
- The order in which the planner's report displays cycles and their members, and its list of modules cheapest to evict.
- The interpreter's recursion limit in the component search.
- The unused initial degree sums of the greedy order.
- Floating-point rounding in the contain rectangle: exact rationals stand in for it.
- The display metrics of the fit probe that project a PNG's visible area.
- JSON decoding, regular expressions and file access everywhere; lines and records come as the values the scripts branch on.
- Invalid JSON and other exceptions that end a campaign invocation; a stop between any two writes is modelled, a stop in the middle of one file's write is not.
- Two campaign runners working on the same directory at once.
- Booleans as rewards, which Python takes for numbers.
- Letters outside ASCII when a durable status is lower-cased.
- The transcript markers, filters and tables of the reload audit.
- The median and peak figures of the memory summary, attribution deltas, incident thresholds and hints.
- Process group collection and memory totals of the process tree.
- Campaign.Runner.Invoke: with several workers a process's writes appear when it completes; the machine it runs on allows any interleaving, and the results about histories cover those.
- ReloadAudit.Audit.ParseTraceFiles: keeps of an event's detail only whether it speaks of a queued continuation or an accepting party.
