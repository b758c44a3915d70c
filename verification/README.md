# The harness, modelled

The harness runs coding agents and lands their work. This project models the parts of it that carry state, order or
arithmetic, and proves what they keep:

- **Splitting a change into a stack of pull requests** (`LoadBalance`, `LoadBalanceTight`, `SplitPlan`, `PlanProperties`,
  `SliceCounts`): round-robin, by
  directory, and the greedy load balancer. The claimed 4/3 approximation is proved in its sharp form, 4/3 - 1/(3n),
  against every other way of spreading the files, with files that meet it for every number of slices.
- **The merge queue** (`Jobs`, `PrChecks`, `MergeQueue`, `QueueProperties`, `MergeAttempts`,
  `RunRecord`, `LockStep`, `StackShape`, `StackCommits`): one job through
  coding, review, verification and one of three landings. Agents, verifier, git and GitHub are a `World` of arbitrary
  answers. A run is a trace of actions; the class `JobRun` has the source's steps and is proved to produce exactly that
  trace, and the job table is always what replaying the trace gives. Then the traces are proved legal, justified,
  forward-moving, and the two versions of the run are compared.
- **All jobs at once** (`RepoLocks`, `QueueSystem`, `RepoExclusion`): any number of queue tasks and lock look-ups interleaved, with
  process restarts; mutual exclusion, lock identity and forward-only statuses over every run, and which
  repository the locks protect.
- **Hybrid retrieval** (`Bm25`, `Bm25Index`, `Bm25Order`, `Fusion`): term statistics against raw token lists, ranked answers, the
  Rust and the Python scorer compared, and reciprocal rank fusion.
- **The scratchpad** (`Scratchpad`, `ScratchpadProperties`, `ScratchpadEviction`, `ScratchpadMoves`, `Utf8`): the byte
  budget of the hot level under any mix of stores, what eviction takes and spares, and what each operation does.
- **Three small protocols**: the elicitation broker (`Elicitation`, `ElicitationProperties`, `ElicitationOutcomes`,
  `ElicitationRecords`), version numbers of the compaction cache under concurrent inserts (`CompactStore`), and tailing
  and rotating the audit log (`LogFollow`, `LogRotation`).

`Ordering` holds the stable sort and the orders used throughout; `Wrappers` holds `Option` and `Result`.

Code that changes state step by step is a class whose methods are proved equal to a specification function of the old
state; the theorems are about those functions and about runs made of them. Arithmetic on scores is over the reals; of
the logarithm only its sign and growth above one are used.

## Where the code and its documentation differ

The model follows the code. These are the differences it makes precise.

- The worked example of the load balancer puts file `c` with `a` (harness/agents/pr_split.py:316-322); the code puts it
  with `b`: `LoadBalanceTight.DocumentedExample`.
- A directory split with more components than `max_slices` drops whole groups of files from the plan;
  `PlanProperties.DirectoryPlanPartitions` says exactly when nothing is lost. `max_slices` itself can be exceeded:
  `SliceCounts.PlanIsBounded` says exactly when.
- Files at the root are promised a slice of their own (harness/agents/pr_split.py:39-40); files under a directory named
  `(root)` go into the same one: `PlanProperties.RootIsShared`, and `PlanProperties.RootFilesAreAlone` for exactly when
  the promise holds.
- `auto` is documented to ignore an explicit slice count, and a count too large for the diff to collapse to one slice
  (harness/agents/pr_split.py:52-54, 119-124). The code keeps the count for small diffs, and lowers it only to the
  number of files: `PlanProperties.ExplicitCountIsKept`.
- Checks are documented as a success only if every check succeeded; any conclusion outside four failing ones counts as
  success, and so does a check that failed by its state: `PrChecks.UnknownConclusionIsSuccess`,
  `PrChecks.FailedStateIsSuccess`. A wait whose every poll shows an open, unrejected pull request without checks times
  out, approved or not: `PrChecks.NoChecksNeverReady`. A closed pull request ends the wait, and the queue then still asks
  for its merge: `MergeAttempts.MergeRequestsAreJustified` says exactly when, `MergeAttempts.ClosedIsStillMerged` shows one.
- The two versions of a run "must stay in lock-step". They do for local merging exactly when nothing is split and the
  job names no repository of its own: the synchronous version merges in the runner's repository, and refuses a split
  that the background version ignores (`LockStep.LockStepExactly`).
- A row may say `merged` with nothing merged: when automatic merging was only requested, and when the list of changed
  files of a stack is empty, which is also what a failed or slow `git diff` gives (harness/agents/merge_queue.py:1232-1244).
  These two are all: `MergeAttempts.MergedWithoutMerge`.
- Jobs are said to be serialised per repository. The lock taken is that of the job's repository, while worktrees belong
  to the runner's, and a synchronous job also merges there (harness/agents/merge_queue.py:260-262, 459-460, 680, 771).
  `RepoExclusion.StepsUnderLock` and `MergesUnderLock` say exactly which steps are protected;
  `RepoExclusion.OverrideIsNotExcluded` is a run where they are not.
- A stack whose plan collapses to one slice can be merged and yet stay in flight (`QueueProperties.Parked`); when it is
  merged directly its cost is never written either (`RunRecord.RunIsRecorded`, by `RunRecord.Charged`).
- A question is said to be counted and recorded once. `ElicitationProperties.QuestionsAreConserved` holds exactly while
  no question has a second wait end, `ElicitationOutcomes.DecisionIsTheLast` says which wait rewrites a decision, and
  `ElicitationOutcomes.SecondWaiterRewrites` is a run where one does. An accepted answer can be lost to the timeout, but
  only when accepted at the deadline or later: `ElicitationOutcomes.TimelyAnswerArrives`, `AcceptedAnswerMayBeLost`.
- Reading the greatest version on the inserting connection does not prevent a race: `CompactStore.ReadingIsNotReserving`.
- A truncated log is said to be read from the start. The reader starts over exactly when a read brought something and
  the path then names a smaller file (`LogFollow.ResetsExactly`): a file cut down in place is never noticed, and read on
  from the middle once it has grown (`LogFollow.TruncationNeverResets`, `TruncationResumesMidFile`). After a rotation the
  old file is given out again, as often as `LogFollow.RotationRepeatsOldFile` says.
- Rotation goes on after a failed rename and then overwrites the file that stayed: `LogRotation.RotationLosesNothing`.
- "Consensus first" is not stated in the source; it holds for `fetch_k <= rrf_k + 1`, which the defaults 20 and 60
  satisfy, and fails for every larger `fetch_k`: `Fusion.ConsensusCanFail`.

## Model

| member | source | states |
|---|---|---|
| LoadBalance.SplitBySize | harness/agents/pr_split.py:302-342 | The loop over running totals yields the greedy split, heaviest file first, ties by path, each to the first least-loaded bucket, without empty buckets |
| LoadBalance.SplitByCount | harness/agents/pr_split.py:261-274 | The loop deals files round-robin and drops empty buckets; `DealAt` and `DealSize` say which file goes where |
| LoadBalance.SizeGroupsWithinBound | harness/agents/pr_split.py:302-342 | Graham's bound: 3n times the heaviest slice is at most (4n - 1) times the makespan of any other way of spreading the same files over n slices |
| LoadBalance.GreedyWithinBound | harness/agents/pr_split.py:331-342 | The bound holds after every prefix of the weight-ordered files, for every bucket |
| LoadBalance.CountGroupFits | harness/agents/pr_split.py:313-327 | Without line counts the fallback is optimal: no slice exceeds any rival's largest |
| LoadBalanceTight.BoundIsTight | harness/agents/pr_split.py:302-342 | The bound cannot be improved for any number of slices n >= 2: Graham's 2n + 1 files, given in any order, get a slice of 4n - 1 lines where 3n are possible |
| LoadBalanceTight.DocumentedExample | harness/agents/pr_split.py:316-340 | The documented four-file example as the code splits it, in whatever order the files come: a with d, b with c |
| LoadBalance.SizeGroupsConserve | harness/agents/pr_split.py:302-342 | Every file is in exactly one slice with its multiplicity, no slice is empty, at most n slices |
| LoadBalance.CountGroupsConserve | harness/agents/pr_split.py:261-274 | The same for round-robin |
| LoadBalance.DealSize | harness/agents/pr_split.py:261-274 | Bucket b of a round-robin of k files over n has k / n files, one more for the first k mod n buckets |
| LoadBalance.DealAt | harness/agents/pr_split.py:261-274 | File j of bucket b is file b + j n of the input: order is kept |
| SplitPlan.PlanSplits | harness/agents/pr_split.py:96-199 | The planner, error cases included: unknown strategy, a cap of zero, empty diff, clamping, groups into numbered slices |
| SplitPlan.SplitByDirectory | harness/agents/pr_split.py:277-299 | The grouping loop yields one group per top-level component, root first, then by name |
| SplitPlan.CollectByTop | harness/agents/pr_split.py:283-290 | The dictionary loop collects exactly the files under each component, components in order of first appearance |
| SplitPlan.PlanDependsOnSet | harness/agents/pr_split.py:137-197 | Two diffs with the same set of files have the same plan, whatever their order and repetitions |
| Ordering.LexIsCodePointOrder | harness/agents/pr_split.py:143 | The order of paths is that of code points: a prefix first, else the first difference decides |
| PlanProperties.CountedPlanPartitions | harness/agents/pr_split.py:137-197 | A plan asked for by `files`, by `size`, or by `auto` with no more files than the cap has every changed file in exactly one slice, once, and no slice is empty |
| PlanProperties.DirectoryPlanGroups | harness/agents/pr_split.py:164-197 | Under `directory` the slices are, in order, exactly the groups of the first components; above the limit the first `max_slices` survive |
| PlanProperties.DirectoryPlanPartitions | harness/agents/pr_split.py:164-197 | A plan asked for by `directory`, or by `auto` with more files than the cap, covers the diff if and only if there are at most `max_slices` components |
| PlanProperties.SameSliceIffSameTop | harness/agents/pr_split.py:277-299 | Two planned files share a slice if and only if they have the same component, where files at the root and files under a directory named `(root)` have the same one |
| PlanProperties.RootFilesAreAlone | harness/agents/pr_split.py:277-299 | Files at the root go in their own slice, all of them and nothing else, if and only if no changed file lies under a directory named `(root)` |
| PlanProperties.RootIsShared | harness/agents/pr_split.py:277-299 | `a` and `(root)/b` have the same component |
| SliceCounts.TopIsFirstComponent | harness/agents/pr_split.py:277-299 | The component of a path is what stands before its first slash, `(root)` without one |
| SliceCounts.DirectoryOrder | harness/agents/pr_split.py:277-299 | Slices come with the files at the root first, then by component in code-point order |
| SliceCounts.AutoKeepsTogether | harness/agents/pr_split.py:202-229 | Left the choice, without a count, a diff that fits the cap is one slice holding all of it |
| SliceCounts.AutoSplitsByDirectory | harness/agents/pr_split.py:202-229 | Left the choice, in a larger diff two planned files share a slice if and only if they share their component |
| SliceCounts.PlanFails | harness/agents/pr_split.py:202-258 | Planning fails if and only if the strategy is none of the four, or a count has to be made from a cap of zero |
| SliceCounts.TitlesCount | harness/agents/pr_split.py:349-367 | Titles carry at most 80 characters of the task and number the slices from one up to their total |
| SliceCounts.NothingToSplit | harness/agents/pr_split.py:137-140 | Without changes there is one slice without files |
| PlanProperties.PlanIsAStack | harness/agents/pr_split.py:349-367 | Slices are numbered 0, 1, ... on pairwise different branches, each with its files sorted |
| PlanProperties.BranchesDiffer | harness/agents/pr_split.py:349-367 | The branch name of a slice determines its position |
| SliceCounts.PlanIsBounded | harness/agents/pr_split.py:96-199 | A plan has at least one slice; it keeps to `max_slices` if and only if that is positive and, by count or size, `min_slices` does not push the count above it or too few files have lines |
| SliceCounts.PlanHasLength | harness/agents/pr_split.py:137-197 | The exact number of slices of every plan, by strategy |
| SliceCounts.SizeGroupsCount | harness/agents/pr_split.py:329-342 | By line counts there is a slice for every file with lines, as far as there are slices, and one for all files without lines if one is free |
| PlanProperties.CountedPlanIsEven | harness/agents/pr_split.py:232-274 | Round-robin has exactly the decided number of slices, and their sizes differ by at most one |
| PlanProperties.SliceCapHolds | harness/agents/pr_split.py:232-274 | No slice exceeds `max_files_per_slice` if and only if the decided count times the cap covers the files |
| PlanProperties.DefaultCountKeepsCap | harness/agents/pr_split.py:232-258 | With no explicit count and ceil(files / cap) within `max_slices`, the cap holds |
| SliceCounts.DefaultCountIsLeast | harness/agents/pr_split.py:232-258 | Without a count a plan by files has the least number of slices that respects the cap, lowered to `max_slices` and raised to `min_slices` as far as there are files |
| PlanProperties.ExplicitCountIsKept | harness/agents/pr_split.py:232-258 | What becomes of any explicit count: raised to one, lowered to `max_slices` and the number of files, raised to `min_slices` as far as there are files, also when the strategy was chosen automatically |
| PrChecks.ReduceChecks | harness/agents/pr_integration.py:474-494 | The flag loop computes the rollup's state; one failing check makes a failure, else one unsettled makes it pending, success means some check and none of either |
| PrChecks.UnknownConclusionIsSuccess | harness/agents/pr_integration.py:474-494 | A lone check is a success if and only if its state is not one of three unsettled ones and its conclusion not one of four failing ones |
| PrChecks.FailedStateIsSuccess | harness/agents/pr_integration.py:474-494 | A check whose state is FAILURE or ERROR, without a conclusion, counts as success |
| PrChecks.ParsePrStatus | harness/agents/pr_integration.py:442-505 | What a view says: missing fields, lower case and a lone check tolerated, checks reduced, review normalised |
| PrChecks.UpperChanges | harness/agents/pr_integration.py:442-505 | Upper-casing changes small letters to their capitals and nothing else |
| PrChecks.WaitForChecks | harness/agents/pr_integration.py:507-556 | The polling loop returns what the first decisive poll says |
| PrChecks.WaitIsFirstDecision | harness/agents/pr_integration.py:507-556 | The wait times out if and only if every poll leaves the matter open; otherwise some first poll decides and is the answer |
| PrChecks.WaitGoesOn | harness/agents/pr_integration.py:532-556 | The wait goes on if and only if the pull request is open and unmerged, nothing failed, no changes are asked for, and checks are missing or unsettled or a review is required |
| PrChecks.WaitGoesOnView | harness/agents/pr_integration.py:532-556 | The same in terms of what the tool prints |
| PrChecks.NoChecksNeverReady | harness/agents/pr_integration.py:532-556 | An open pull request without checks is never ready, approved or not |
| PrChecks.OnlyGreenOrClosedRemains | harness/agents/pr_integration.py:532-556 | What survives the caller's filters is exactly: green and approved or unreviewed, or closed without objection |
| Jobs.JobStore.RecoverRunning | harness/agents/jobs.py:825-859 | The start-up loop cancels exactly the rows in flight and reports them in table order |
| Jobs.JobStore.Create | harness/agents/jobs.py:466-534 | Appends the row and changes no other; a new id keeps ids unique |
| Jobs.RecoveryMovesForward | harness/agents/jobs.py:47-78 | Recovery moves no row backwards, leaves none in flight and keeps the stamps right |
| Jobs.RecoveryCancels | harness/agents/jobs.py:825-859 | Recovery cancels and stamps exactly the rows not merged, failed, timed out or cancelled, and changes nothing else |
| Jobs.RecoveryReports | harness/agents/jobs.py:825-859 | The ids reported are those of the rows cancelled, in table order |
| Jobs.JobStore.UpdateStatus | harness/agents/jobs.py:536-602 | An update changes the one row, only the fields it names, and stamps it when asked |
| Jobs.JobStore.FindJobsByStackId | harness/agents/jobs.py:690-724 | The rows of a stack by position, creation order between equals |
| MergeQueue.JobRun.RunJobAsync | harness/agents/merge_queue.py:452-649 | The background run performs exactly its specified trace, and the table is what replaying the trace gives |
| MergeQueue.JobRun.RunJob | harness/agents/merge_queue.py:651-815 | The same for the synchronous run and its result |
| MergeQueue.JobRun.PrPhaseOf | harness/agents/merge_queue.py:830-1199 | The pull request phase: creation, fallback to a local merge, waiting, failure paths |
| MergeQueue.JobRun.WatchPr | harness/agents/merge_queue.py:1019-1102 | What follows the wait: timeout, objections, failing checks, a merge done elsewhere |
| MergeQueue.JobRun.MergeThePr | harness/agents/merge_queue.py:1104-1199 | Automatic merge first when asked for, else or on failure a direct merge |
| MergeQueue.JobRun.SlicesOf | harness/agents/merge_queue.py:1523-1708 | The stack loop opens slices one on another and stops at the first that fails |
| MergeQueue.JobRun.StackPhaseOf | harness/agents/merge_queue.py:1369-1708 | The stack phase with its early exits: no diff, no plan, one slice, a wrong number of repositories |
| QueueProperties.RunEnds | harness/agents/merge_queue.py:452-649 | Every run writes statuses that only go forward and stamps exactly the terminal ones, has at most one successful merge or merge request and only for accepted work, ends terminal exactly when not parked, and ends `merged` exactly when it had one, when somebody else had merged, or when a stack had no changed file listed |
| QueueProperties.NoMergeBeforeAcceptance | harness/agents/merge_queue.py:532-632 | Every attempt to merge, of any kind, comes after the verifier's acceptance in the same run |
| MergeAttempts.AttemptsAreExact | harness/agents/merge_queue.py:830-1199 | The attempts to merge of every run, in order, as a function of the answers of the world |
| MergeAttempts.MergeRequestsAreJustified | harness/agents/merge_queue.py:1019-1199 | GitHub is asked to merge if and only if accepted work has a pull request and the wait ended on green checks with review approved or absent, or on a pull request closed without objection or failure |
| MergeAttempts.MergeRequestsReadView | harness/agents/merge_queue.py:1019-1199 | The same in terms of the last view: no check failing, and either all settled with no review missing, or closed |
| MergeAttempts.ClosedIsStillMerged | harness/agents/merge_queue.py:1104-1199 | A closed pull request with running checks is asked to be merged |
| MergeAttempts.MergedWithoutMerge | harness/agents/merge_queue.py:1427-1444 | A row says `merged` with nothing merged by this run or anybody else if and only if the work was accepted and either a stack had no changed file listed or a merge was only requested outside a stack |
| MergeAttempts.EmptyDiffIsReportedMerged | harness/agents/merge_queue.py:1427-1444 | A stack with no changed file listed ends `merged`, attempts nothing and leaves its worktree |
| MergeAttempts.AutoMergeIsReportedMerged | harness/agents/merge_queue.py:1164-1173 | Outside a stack automatic merging is enabled exactly under these answers, and the run then ends `merged` with nothing merged |
| MergeAttempts.UnmergedRowsExist | harness/agents/merge_queue.py:1427-1444 | Both kinds of such rows occur |
| QueueProperties.LegalKeepsStamp | harness/agents/jobs.py:536-602 | Along a legal run `finished_at` is set exactly on terminal rows, and the end follows the start |
| QueueProperties.SlicesEnd | harness/agents/merge_queue.py:1523-1708 | The stack loop merges nothing, ends `pr_open` if every slice opened and `failed` otherwise, or crashes leaving the row alone |
| QueueProperties.SlicesChildren | harness/agents/merge_queue.py:1523-1708 | The rows a stack adds are exactly the chain of the slices opened before the first failure |
| StackCommits.StackDeliversSlices | harness/agents/merge_queue.py:1523-1708 | An accepted stack delivers its slices in turn, as far as they open: the planned files of slice j committed on branch step-j in the repository of its row, that branch pushed there, the pull request from it onto the row's base, the row; with the repository, base and stack id each row has |
| StackCommits.EveryFileIsCommittedOnce | harness/agents/merge_queue.py:1446-1456 | Split by files or size, a stack whose slices all open commits every wanted file in exactly one slice, once, and nothing else; wanted are the files the job names, else all that changed |
| StackCommits.DirectoryStackCommits | harness/agents/merge_queue.py:1446-1456 | Split by directory it does so if and only if the wanted files have at most `max_slices` components |
| StackCommits.StackSizeIsAsked | harness/agents/merge_queue.py:1446-1456 | Split by files, a stack has as many slices as the job asked for, within the limits and the number of wanted files |
| RunRecord.RunIsRecorded | harness/agents/merge_queue.py:452-649 | What the row shows after any run: the cost of the agents exactly when it is known and written, the number of the pull request opened, a timeout if and only if an agent ran out of time |
| RunRecord.WorktreeFate | harness/agents/merge_queue.py:456-645 | The worktree is opened first, and removed with its branch if and only if an agent failed without output, or accepted unsplit work landed |
| RunRecord.ClearsLast | harness/agents/merge_queue.py:585-632 | Landed work is cleared away last, worktree before branch, and then the row is closed with cost and number |
| RunRecord.PrIsRequested | harness/agents/merge_queue.py:830-1017 | Outside a stack a pull request is asked for exactly for accepted work in a pull request mode whose body was composed, from the worktree's branch onto the job's target or else the default |
| RunRecord.PrStatuses | harness/agents/merge_queue.py:830-1199 | A single pull request passes each of its six statuses if and only if it gets that far |
| LockStep.BackgroundRefinesSync | harness/agents/merge_queue.py:416-422 | With local merging and no split: same merged, timeout, cost and worktree fate, and the same requests to the world unless accepted work goes to another repository |
| LockStep.LockStepExactly | harness/agents/merge_queue.py:416-422 | For local merging the two versions ask the same of the world if and only if nothing is split and no accepted work goes to another repository |
| StackShape.StackIsAChain | harness/agents/merge_queue.py:1523-1763 | Positions 1, 2, ... up to the first failing slice; the first on the target branch, each later one on its predecessor's head and depending on its pull request; the orchestrator is `pr_open` or `failed` accordingly |
| StackShape.StackHeads | harness/agents/merge_queue.py:1523-1708 | The pull request of every opened slice is requested from its own branch onto its predecessor's |
| StackShape.StackIsListed | harness/agents/jobs.py:690-724 | Looking the stack up after the run lists the orchestrator and then the chain in order |
| StackShape.RunTouchesOnlyItsRows | harness/agents/merge_queue.py:452-649 | A run changes its own row, appends its stack's rows and leaves every other job alone |
| RepoLocks.RepoLockRegistry.LockFor | harness/agents/repo_locks.py:121-151 | A known key keeps its lock, a new one gets a fresh lock, and different keys never share one |
| RepoLocks.RepoLockRegistry.GetGuarded | harness/agents/repo_locks.py:99-119 | The look under the guard finds what others bound meanwhile and never rebinds |
| RepoLocks.RepoLockRegistry.Get | harness/agents/repo_locks.py:99-119 | `get` without interference: a known key keeps its lock, an unknown one is bound to the lock returned |
| RepoLocks.RepoLockRegistry.GetFast | harness/agents/repo_locks.py:99-119 | The look without the guard finds exactly the bound keys |
| QueueSystem.RunKeepsInv | harness/agents/merge_queue.py:247-272 | In every reachable state of all jobs together, each asking for the lock of its own repository and doing what some run of it does, locks, holders and rows are consistent and what is left of every run is legal |
| RepoExclusion.MutualExclusion | harness/agents/merge_queue.py:247-272 | In every reachable state at most one job for a repository is inside its critical section |
| RepoExclusion.HoldsOnlyItsLock | harness/agents/merge_queue.py:247-272 | A job inside holds the lock of a path if and only if that path resolves like its own repository |
| RepoExclusion.StepsUnderLock | harness/agents/merge_queue.py:452-462 | Every step of a run on a repository, worktrees included, is taken under that repository's lock if and only if it is the job's own |
| RepoExclusion.MergesUnderLock | harness/agents/merge_queue.py:765-775 | A local merge is made under the lock of the repository merged into: always in the background, in a synchronous run if and only if the job's repository is the runner's |
| RepoExclusion.BackgroundMergesTakeTurns | harness/agents/merge_queue.py:606-608 | Two background jobs with a local merge into one repository ahead of them are never both inside |
| RepoExclusion.OverrideIsNotExcluded | harness/agents/merge_queue.py:260-272 | Two synchronous jobs, one with a repository of its own, can both be inside with the same worktree repository and the same merge ahead |
| QueueSystem.LocksAreForever | harness/agents/repo_locks.py:99-151 | Under any interleaving of `get` and `lock_for` a key keeps its first lock until the process restarts |
| QueueSystem.DifferentReposTogether | harness/agents/repo_locks.py:65-151 | Jobs on different repositories may be inside together |
| QueueSystem.NobodyWaitsForNothing | harness/agents/merge_queue.py:247-272 | A waiting job can enter, or the lock's holder is inside the same repository with work left or free to leave |
| QueueSystem.StatusesGoForward | harness/agents/jobs.py:47-78 | Between any two moments of any run, restarts included, no row moves backwards or leaves a terminal status |
| Bm25.TermIsBounded | harness-perf/src/bm25.rs:118-137 | A query token that occurs contributes a positive amount below idf (K1 + 1) |
| Bm25.ScorePositive | harness-perf/src/bm25.rs:104-137 | A document scores if and only if it shares a token with the query, and never below zero |
| Bm25.ScoreMonotone | harness-perf/src/bm25.rs:104-137 | For documents of one length the score grows with every query token's frequency, strictly when one is strictly higher |
| Bm25Order.DocFreqCounts | harness-perf/src/bm25.rs:74-86 | The document frequency of a token is the number of documents that hold it |
| Bm25Order.RarerCountsMore | harness-perf/src/bm25.rs:118-137 | At equal frequency and length a token held by fewer documents counts for more |
| Bm25Order.ShorterCountsMore | harness-perf/src/bm25.rs:118-137 | At equal frequency a token counts for more in a shorter document |
| Bm25Order.RareComesFirst | harness/agents/l2_retriever.py:85-121 | In both implementations, of two equally long documents holding one query token each equally often, the one with the rarer token comes first |
| Bm25Order.OneByHand | harness-perf/src/bm25.rs:315-340 | The hand-computed score of the source: ln(4/3) |
| Bm25Order.TwoByHand | harness-perf/src/bm25.rs:34-36 | Two documents of different length by hand: 40/31 and 40/27 of ln 2 |
| Bm25.ScoresAgreeExactly | harness/agents/l2_retriever.py:106-121 | On a matching document the floored scorer gives the same score if and only if the average length is at least the floor |
| Bm25.FloorIsInert | harness/agents/l2_retriever.py:106-121 | Up to a million documents, one not empty, the floor of 1e-6 never applies |
| Bm25Order.FloorIs | harness/agents/l2_retriever.py:106-121 | The floor under the average length is a millionth |
| Bm25Index.NewIndex | harness-perf/src/bm25.rs:63-100 | The statistics agree with the token lists: frequencies, document frequencies counting each document once, lengths, average |
| Bm25Index.IndexScore | harness-perf/src/bm25.rs:104-137 | Scoring through the index equals the sum over the raw token lists; empty and missing documents score nothing |
| Bm25Index.ListScore | harness/agents/l2_retriever.py:106-121 | The in-memory scorer equals the same sum with the average length kept off zero |
| Bm25Index.Search | harness-perf/src/bm25.rs:145-165 | The ranked answer of the index is the ranking of the direct scores |
| Bm25Index.SearchDocuments | harness-perf/src/bm25.rs:187-206 | The one-shot search answers as the index does, with its empty cases |
| Bm25Index.Retrieve | harness/agents/l2_retriever.py:85-104 | The ranked answer of the in-memory retriever is the ranking of the floored scores |
| Bm25Index.RankIsTopK | harness-perf/src/bm25.rs:139-165 | An answer is exactly the first k scoring documents, by score descending and index ascending, and everything left out comes after everything listed |
| Bm25Index.SearchFindsSharers | harness-perf/src/bm25.rs:145-165 | The scoring documents are those sharing a query token, in both implementations |
| Bm25Index.ScoreListsAgreeExactly | harness/agents/l2_retriever.py:106-121 | The two score lists are equal if and only if the average reaches the floor or no document matches |
| Bm25Index.RankingsCoincide | harness/agents/l2_retriever.py:72-121 | Up to a million documents both implementations give the same answer to every query |
| Fusion.RrfFuse | harness/agents/l2_retriever.py:368-395 | The accumulating loops yield the stable ranking of the fused scores, cut to `top_k` |
| Fusion.ConsensusFirst | harness/agents/l2_retriever.py:368-395 | With `fetch_k <= rrf_k + 1` every note found by both retrievers is ahead of every note found by one |
| Fusion.ConsensusCanFail | harness/agents/l2_retriever.py:228-231 | For every `rrf_k`, lists one hit longer can put a note of one list ahead of a note of both |
| Fusion.RepeatsBreakConsensus | harness/agents/l2_retriever.py:368-395 | Without repetition-free lists the guarantee fails: three mentions in one list outweigh one in each |
| Fusion.DominanceWins | harness/agents/l2_retriever.py:368-395 | For any constant, a note ranked no worse in both lists and better in one is ahead |
| Fusion.LoneListKeepsOrder | harness/agents/l2_retriever.py:368-395 | When one list is empty the answer is the other in its order |
| Fusion.AnswerShape | harness/agents/l2_retriever.py:368-395 | The answer has distinct ids, falling fused scores, and length min(top_k, size of the union) |
| Fusion.L2Retriever.Search | harness/agents/l2_retriever.py:234-278 | A search fuses the lexical hits with the known dense hits; nothing for a non-positive `top_k` |
| Fusion.KnownKeepsOrder | harness/agents/l2_retriever.py:180-195 | Known dense hits keep the order of the vector store's answer |
| Fusion.L2Retriever.LexicalShares | harness/agents/l2_retriever.py:85-104 | Lexical hits are ids of notes that share a token with the query |
| Fusion.L2Retriever.SearchWithoutDense | harness/agents/l2_retriever.py:234-278 | With no known dense hit a search answers the lexical ranking, note by note |
| Fusion.L2Retriever.SearchWithoutLexical | harness/agents/l2_retriever.py:234-278 | With no query token it answers the known dense hits in order |
| Fusion.L2Retriever.SearchPutsConsensusFirst | harness/agents/l2_retriever.py:219-278 | With the clamped constants, consensus comes first in a whole search |
| Scratchpad.ScratchpadStore.WriteNote | harness/agents/scratchpad_store.py:179-252 | A hot note above the cap is refused with nothing changed; otherwise room is made and the note appended under a new id |
| Scratchpad.ScratchpadStore.PromoteNote | harness/agents/scratchpad_store.py:305-366 | Promotion of an unseen note is a no-op, of a hot one to hot as well; above the cap refused; else room is made and the one row moves |
| Scratchpad.ScratchpadStore.MakeRoom | harness/agents/scratchpad_store.py:212-220 | The prune loop ends and removes exactly what pruning specifies |
| Scratchpad.ScratchpadStore.PruneOldestL0 | harness/agents/scratchpad_store.py:389-407 | One step deletes the oldest hot row the store sees, or reports that there is none |
| Scratchpad.ScratchpadStore.DeleteNote | harness/agents/scratchpad_store.py:289-303 | Deletes the row with the id if the store sees it, and says whether it did |
| Scratchpad.ScratchpadStore.L0SizeBytes | harness/agents/scratchpad_store.py:368-387 | The sum of the UTF-8 sizes of the hot rows the store sees |
| Utf8.LengthIsBytes | harness/agents/scratchpad_store.py:381-387 | The weight of a text is the number of bytes of its UTF-8 encoding |
| Utf8.EncodingIsFaithful | harness/agents/scratchpad_store.py:381-387 | Two texts with the same bytes are the same text |
| ScratchpadMoves.WriteAdds | harness/agents/scratchpad_store.py:179-252 | A note written stands last with a new id, its owner and all it was given, after the rows eviction left if it is hot; only a hot note above the cap is refused, changing nothing |
| ScratchpadMoves.PromoteMoves | harness/agents/scratchpad_store.py:305-366 | A promotion not refused moves the one row to the level asked for, in its place, and changes no other; only a note that becomes hot makes room first, never at its own cost |
| ScratchpadMoves.PromoteWeighs | harness/agents/scratchpad_store.py:334-361 | For whoever sees the note, hot bytes grow by exactly its size when it becomes hot, after eviction, and fall by it when it leaves |
| ScratchpadMoves.PromoteRefused | harness/agents/scratchpad_store.py:305-366 | Nothing changes when the promotion is refused or the store does not reach the note |
| ScratchpadMoves.DeleteRemoves | harness/agents/scratchpad_store.py:289-303 | Only the note asked for goes, if the store reaches it; the others keep their order |
| ScratchpadEviction.ViewsSee | harness/agents/scratchpad_store.py:166-175 | A store sees the notes of its session, with an agent only those of that agent |
| ScratchpadProperties.PruneMakesRoom | harness/agents/scratchpad_store.py:201-220 | Pruning makes room for anything that fits the cap at all |
| ScratchpadProperties.OpKeepsSound | harness/agents/scratchpad_store.py:179-407 | Write, promote and delete, by any store, keep every owner of every session within the cap |
| ScratchpadProperties.BudgetIsKept | harness/agents/scratchpad_store.py:166-407 | After any sequence of operations by any mix of stores no owner holds more hot bytes than the cap |
| ScratchpadEviction.EvictionIsFifo | harness/agents/scratchpad_store.py:389-407 | What is evicted is hot and visible and was created before every visible hot row that stays, or at the same time with a smaller id; the rest keep their order |
| ScratchpadEviction.EvictionIsMinimal | harness/agents/scratchpad_store.py:212-220 | For every evicted row, evicting only the older ones would not have made room |
| ScratchpadEviction.OthersAreUntouched | harness/agents/scratchpad_store.py:166-175 | No operation touches or reorders a row its store does not see |
| ScratchpadEviction.AdminWriteCapsSession | harness/agents/scratchpad_store.py:166-252 | A hot write by a store without agent brings the whole session within the cap |
| ScratchpadEviction.SessionMayExceedCap | harness/agents/scratchpad_store.py:166-252 | The cap is per agent: two agents of a session can hold twice the cap |
| Elicitation.ElicitationBroker.Ask | harness/elicitation.py:406-469 | Publishing makes the question pending, with its time and, if recorded, a pending row |
| Elicitation.ElicitationBroker.TakeAnswer | harness/elicitation.py:521-549 | An answer is taken if and only if the question is pending, somebody waits and nobody answered yet |
| Elicitation.ElicitationBroker.BeginWait | harness/elicitation.py:481-486 | A wait for a question that is not pending is refused; the first wait creates the future |
| Elicitation.ElicitationBroker.FinishWait | harness/elicitation.py:484-519 | A wait returns the answer or the default, counts and records it, and always clears the question; it times out only at its deadline or later |
| ElicitationProperties.QuestionsAreConserved | harness/elicitation.py:406-519 | Published = answered + timed out + cancelled + pending if and only if no question had a second wait end; otherwise less; the side tables hold only pending questions |
| ElicitationProperties.ConservedWithOneWaiter | harness/elicitation.py:406-519 | With one waiter per question the equation holds in every reachable state |
| ElicitationRecords.CountersCount | harness/elicitation.py:553-560 | Each counter counts the publications, answered waits and timed-out waits of the run |
| ElicitationOutcomes.AnsweredAtMostOnce | harness/elicitation.py:521-549 | Of all answers to a question at most one is ever accepted, and exactly one if it counts as answered |
| ElicitationOutcomes.AnswersComeFromAnswer | harness/elicitation.py:471-519 | The value a question resolves to is that of an accepted answer |
| ElicitationRecords.AnswerIsTakenWhen | harness/elicitation.py:521-549 | An answer is taken if and only if a wait for the question has begun, none has ended and none was taken yet |
| ElicitationOutcomes.DecisionIsTheLast | harness/elicitation.py:564-605 | A decision row holds what the last wait wrote that ended uncancelled and whose row got through |
| ElicitationOutcomes.DecisionsAreFinal | harness/elicitation.py:564-605 | Between two moments without such a wait a resolved row does not change |
| ElicitationOutcomes.LateRowsSayWs | harness/elicitation.py:488-499 | An answered wait after the first to end rewrites the row with the source `ws`, whoever answered |
| ElicitationOutcomes.OneWaiterDecidesOnce | harness/elicitation.py:564-605 | With one waiter per question every decision row is final |
| ElicitationOutcomes.SecondWaiterRewrites | harness/elicitation.py:471-519 | Two waiters on one question: counted twice, and the recorded source changes |
| ElicitationOutcomes.TimelyAnswerArrives | harness/elicitation.py:487-512 | An answer accepted before the deadline of an uncancelled wait is what that wait returns |
| ElicitationRecords.TimedOutGetsDefault | harness/elicitation.py:500-513 | A wait that times out returns the default its question was published with |
| ElicitationRecords.RowsTellTheTruth | harness/elicitation.py:564-605 | The row a wait writes has the answer its caller gets and the way it ended, the session and the first 120 characters of the question as published, and the whole milliseconds since, never negative |
| ElicitationRecords.RowsNameTheSource | harness/elicitation.py:488-513 | The first wait to end names whoever gave the accepted answer, a timed-out one the timeout |
| ElicitationRecords.PublishedRowIsPending | harness/elicitation.py:443-468 | A recorded publication shows as pending, without answer, until a wait decides it |
| ElicitationOutcomes.TimeoutsAreDue | harness/elicitation.py:487-512 | A wait that times out began its timeout ago or longer; an answer accepted all the same was accepted after it began, at its deadline or later |
| ElicitationOutcomes.AcceptedAnswerMayBeLost | harness/elicitation.py:487-519 | An answer accepted at the deadline may be lost: the asker gets the default |
| CompactStore.Store.ReadNext | harness/agents/compact_store.py:249-259 | The next version read is one above the session's greatest, 1 for a new session |
| CompactStore.Store.Commit | harness/agents/compact_store.py:260-282 | The row goes in under the version read, or is refused when the session has that version already |
| CompactStore.Store.LookupCached | harness/agents/compact_store.py:206-230 | The greatest version of the session with that source hash, if any |
| CompactStore.VersionsAreGapFree | harness/agents/compact_store.py:232-282 | However inserts interleave, every session's versions are 1, 2, ... in the order written |
| CompactStore.InsertFailsIffOvertaken | harness/agents/compact_store.py:232-282 | An insert is refused if and only if another insert for the session succeeded since it read |
| CompactStore.ReadingIsNotReserving | harness/agents/compact_store.py:249-259 | Two inserts that both read first: the second is refused |
| CompactStore.LaterIsGreater | harness/agents/compact_store.py:206-230 | A later row of a session has a greater version, so the greatest is the latest |
| LogFollow.LineFollower.Turn | harness/cli_follow.py:137-157 | One turn: an empty read does nothing, lines come out before the size is looked at, a smaller size starts over |
| LogFollow.LineFollower.Follow | harness/cli_follow.py:133-157 | The loop is its turns in order |
| LogFollow.SplitKeepsText | harness/cli_follow.py:144-148 | Joining the pieces gives the text back and no piece holds a newline |
| LogFollow.SplitIsUnique | harness/cli_follow.py:144-148 | There is no other such splitting |
| LogFollow.SplitInTwo | harness/cli_follow.py:144-148 | A text may be split in two goes, carrying the unfinished line over |
| LogFollow.ChunksDoNotMatter | harness/cli_follow.py:133-157 | Between resets the lines given out and the unfinished one are the whole text read, split at once |
| LogFollow.FollowSeesAppends | harness/cli_follow.py:133-157 | While the file only grows, every line after the start comes out once and in order |
| LogFollow.BetweenResets | harness/cli_follow.py:133-157 | The same for a follower with any past, resets included |
| LogFollow.ResetsExactly | harness/cli_follow.py:140-157 | The reader starts over if and only if the open file holds something new and the path names a smaller file |
| LogFollow.TruncationNeverResets | harness/cli_follow.py:140-157 | If after every read the path has at least the size of what was read, the reader never starts over, however the file was cut down |
| LogFollow.TruncationIsMissed | harness/cli_follow.py:138-157 | A file cut down to what was read, or less, is not noticed while it stays there |
| LogFollow.TruncationResumesMidFile | harness/cli_follow.py:138-157 | When it has grown past that point, reading resumes in the middle and joins the old unfinished line to the new text |
| LogFollow.RotationRepeatsOldFile | harness/cli_follow.py:149-157 | Any number of turns on a rotated file: the old file is given out again after every turn that finds the new one smaller, and never after the first turn that does not |
| LogRotation.LogDirectory.RotateIfNeeded | harness/cli_follow.py:66-106 | Rotates if and only if the limit is positive and the readable log exceeds it; otherwise changes nothing |
| LogRotation.LogDirectory.HighestRotation | harness/cli_follow.py:87-93 | The number of copies before the first gap; the search ends |
| LogRotation.RotationMovesUp | harness/cli_follow.py:94-106 | If every rename succeeds the log is `.1`, each copy moved up by one, and every other file is as it was |
| LogRotation.ShiftLands | harness/cli_follow.py:94-106 | What every name holds after a rotation with any set of failing renames |
| LogRotation.RotationLosesNothing | harness/cli_follow.py:94-106 | No file is lost if and only if no rename succeeds right after one that failed |

## Left out

- SQLite, asyncio, git, `gh`, HTTP and language models: arbitrary outcomes or atomic steps. Store writes of the queue are
  taken to succeed.
- Events, live queues, outbound webhooks, result texts, titles, bodies, labels, redaction and observability.
- Task cancellation inside a queue run, and the registry's `aclose`.
- The later merge of stack children by webhook; the webhook handler is not part of this model.
- Repositories of slices in a cross-repository stack are not locked by the source, so no exclusion is stated for them.
- Floating-point rounding and the widths of `u32` and `usize`: scores are reals, counts are unbounded.
- Tokenising, path resolution and JSON encodings: token lists, keys and records are taken as given.
- Tags and plan steps of the scratchpad; other stores running inside one scratchpad operation; stores with different caps
  on one table.
- LoadBalance.SplitBySize: line counts are natural numbers; negative ones, which the source does not exclude, have no
  meaning as loads.
- Jobs.JobStore.UpdateStatus: the columns for the error, the pull request's address and the result text are not modelled,
  because no decision reads them.
- PrChecks.ParsePrStatus: upper-casing is that of ASCII letters, the only ones in these fields.
- Fusion.L2Retriever.SearchPutsConsensusFirst: asks for notes with distinct ids and a vector store that answers each id
  once, without which the property is false (`Fusion.RepeatsBreakConsensus`).
- Elicitation.ElicitationBroker.FinishWait: the rule that a waiter resumes before a timer that fell due after its answer
  is taken from the event loop's order of callbacks; the resolution of its clock is not modelled.
- The second listing of changed files in a collapsed stack is merged with the outcome of composing the pull request body.
- LogFollow.FollowSeesAppends: positions count characters, not bytes, and line endings are not translated.
- The class `Follower`, which drops a trailing partial line, and the command lines around both followers.
- The query side of the decision table; a detached table is modelled as rows that are not recorded.
- Curated search, prompts and cascade thresholds, which would only add easy members.
