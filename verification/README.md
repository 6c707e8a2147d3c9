# RepoScout: models and proofs

A Dafny project that models the algorithms and protocols of RepoScout whose correctness is decided by
code rather than by plumbing, and proves what they promise. `dafny verify dfyconfig.toml` checks it.

Each file models one component.

| files | component |
|---|---|
| `Reach`, `Selection` | multi-source search over dependents and the budgeted greedy choice of context files |
| `Daemon`, `DaemonScan`, `DaemonRequests`, `DaemonRuns`, `DaemonCases`, `DaemonAnswers`, `DaemonTasks` | the daemon as a step system: scan loop, trigger channel, revisioned snapshot, graph cache, event streams, rescan cooldown, and what every request is answered |
| `Lineage`, `RenameOrder`, `CommitChanges` | churn over renames: alias ownership, rename order, what a commit changed and lazy rename resolution |
| `EventLimits`, `WalkEvents`, `WalkLimits`, `HistoryWalk` | the bounded history walk: caps, the walk that loses nothing, and when a run is that walk |
| `ChurnReference`, `ChurnExamples`, `ChurnCollect` | the churn a history has, and its view and event caches over sequences of collections |
| `ChangedLines` | changed-line ranges and the review filter that reads them |
| `Topology`, `Adjacency`, `GraphModel` | from resolved imports to dual adjacency lists |
| `Components`, `ImportComponents`, `WorkScope` | weak components, the whole chain from imports to components, and their projection under one path budget |
| `Findings`, `Fingerprint`, `RenameRebase` | finding comparison, the length-prefixed fingerprint, rebasing over renames |
| `Markers`, `MarkerPlaces`, `MarkerLaws` | annotation markers: counts, numbered occurrences, where they stand, and what of the configured list shows in them |
| `AnalysisProfile`, `AnalysisCache`, `CachedScan`, `ConfiguredScan` | the incremental analysis cache, sequences of scans, and configurations that change between them |
| `PhpInclude` | PHP quoted strings and static includes |
| `Spans`, `LedgerModel`, `Ledger`, `LedgerFacts`, `LedgerRecords` | the evaluation ledger |
| `ReadBudgets` | bounded reads that share one budget |
| `Orders`, `Machine` | sorting, path order, hash iteration in arbitrary order, saturating counters |

## How the code is modelled

- A loop that changes variables is a method with that loop, tied by its contract to a function or to a
  declarative predicate; the lemmas are about that function or predicate. Objects whose methods change their
  fields are classes.
- The daemon is a state machine. Every stretch of code between two awaits, or under one lock, is one step,
  and a run is any sequence of possible steps of any tasks. `DaemonTasks` holds the locked sections as methods
  that change shared fields, each proved to make exactly its step, and runs a whole scan and a whole graph request with
  arbitrary steps of other tasks in between. The trigger channel holds one token, the
  broadcast channel keeps the last 32 events, a lagging receiver is told so on its next poll.
- Iteration over hash maps and sets, and the order of files in a parallel batch, is arbitrary, so that every result independent of it has
  to be proved so.
- What other components deliver enters as a parameter with a stated contract: what a scan of an unchanging tree
  sees, what a graph build makes of its inputs, commits and similarity detection, streamed events, resolved
  imports, what the extractors find in a file, hash functions, file contents at the moment of reading.
- Scores and metrics are reals or ranks; paths are strings under a total order. Saturating arithmetic is kept
  where its effect can be seen: the token counters of the selection, line numbers of changed ranges, byte
  budgets of reads.

## Where the code does less than one would expect

These follow the code as it is. Each is a lemma with a concrete input, or an if-and-only-if that names the condition.

- The context budget is compared with a saturating sum. With the budget at the largest usize two files may be
  chosen whose exact sum exceeds it (`Selection.LargestBudgetOverflows`); below it the exact sum always fits
  (`Selection.TrueTotalWithinBudget`).
- `push_line` records a line exactly when it is not below the start of the last range, or covered already
  (`ChangedLines.PushRecordsExactly`), and a line it loses stays lost (`ChangedLines.ExactIffNoneIsLost`); diffs print
  lines ascending, so nothing is lost where it is used.
- When similarity detection fails at a commit that renames a wanted file, the event stays unresolved and nothing is
  marked. The walk then goes on under the newer name, exactly where the commit has no answer
  (`ChurnReference.FollowedIffDetected`), and can end complete and unmarked with too few commits
  (`ChurnExamples.FailedDetectionUnderCounts`).
- Whether events come from the native stream, from libgit2 or from the cache cannot show for a path, as long as each
  commit that renames it adds it under its new name and deletes some path (`ChurnReference.FaithfulIsReference`).
  Where a rename of it starts or ends at a path that changed its type the stream may not ask for detection, and the
  sources divide (`CommitChanges.StreamAsksIffStable`, `ChurnExamples.TypeChangeDividesSources`); other paths are not
  affected.
- The total of deltas is tested before each commit, so a run that dropped nothing ends marked when the commits before
  the last one fill it exactly (`WalkLimits.FullBeforeTheLastIsMarked`). A deadline that fires where the commit limit
  is already reached marks the run as well (`ChurnCollect.WalkHistory`).
- Swapping two catalogs swaps worsened with improved only where equal fingerprints are measured on the same scale
  (`Findings.SwapLawIffSameScale`).
- The profile that keys cached analyses drops repeats in the list of markers, but the marker scan does not: a marker
  listed twice keeps its count and doubles its occurrences (`ConfiguredScan.RepeatedMarkerIsNotInTheProfile`). After a
  scan that was saved, a scan under another configuration of the same profile is right about a file if and only if the
  file is not selected for health or every marker that occurs in it is listed equally often
  (`ConfiguredScan.ScanUnderOther`); lists without repeats always are (`ConfiguredScan.NoRepeatsNoDifference`).
- The two `replace` calls of the PHP string reader are a one-pass unescape on the texts its scanner accepts, and
  not on others (`PhpInclude.TwoPassDiffersOutsideScannedText`).
- The comment in the scan task says older graphs are ignored because entries are keyed by revision. They are never
  served for another revision, but a newer entry is replaced exactly when a request for an older revision stores its
  graph (`DaemonCases.EntryFallsIffOlderStored`), and a run gets there (`DaemonCases.OverwriteIsReached`); the cost is one
  more build.
- Startup fails if and only if a change was heard before the initial scan is queued and the scan task, already running,
  has not taken its token by then (`DaemonCases.StartupFailsIffTokenWaits`).
- After the last byte of a read budget is spent even an empty file is refused (`ReadBudgets.AllReadIffTheyFit`), and
  a file that grows may cost one byte more than was left (`ReadBudgets.ReadsStayWithinBudget`).
- `union_size` starts its sweep at -1 and would miss positions below it (`Spans.UnderCountIffBelowSweep`); byte
  positions never are.
- A churn result without a head, without files, or without a revision walk and a stored view is empty and not marked
  partial (`ChurnCollect.Collect`, `ChurnCollect.EmptyWalkIsUnmarked`), and a walk cut at the commit limit counts as
  complete.

## Renames in order

Renames of one commit are applied one after another. In general that equals remapping all names at once if and only if no
rename's old path is the new path of a later one (`RenameOrder.OrderIsInvisibleIffNoChain`); a swap would break it
(`RenameOrder.SwapMergesLineages`). The events that are delivered have no such chain, because detection pairs regular
files that went with regular files that came, and a path that changed its type is regular on one side only
(`CommitChanges.DeliveredOrderNeverShows`).

## Model

| member | source | states |
|---|---|---|
| Reach.DependentReach | src/context.rs:929-979 | The search returns exactly the non-seed files reachable along dependents; each entry has the least edge count from any seed, the least seed in sorted order among those attaining it, and a resolver only at distance 1, taken from that seed; every node enters the queue once and the queue is ordered by distance |
| Reach.ReachDetermined | src/context.rs:929-979 | That promise has one solution, so the hash order of the maps and of the seed set cannot show in the result |
| Reach.WalkBound | src/context.rs:944-977 | Once every queued node is expanded, every walk from every seed is bounded below by the recorded distance and seed position: the recorded values are minimal |
| Reach.Discover | src/context.rs:953-975 | Enqueuing a newly found node keeps the queue sorted by distance and seed, with at most one step between front and back |
| Reach.NeverImproved | src/context.rs:947-952 | A node already known never gets a smaller distance, so the re-visit test never lets one through |
| Reach.Visit | src/context.rs:945-976 | One dependent of the node being expanded: it is recorded once with distance, seed and resolver, and the search invariant is kept |
| Reach.Expand | src/context.rs:941-978 | All dependents of the popped node become known and the node is fully relaxed |
| Reach.FinishedOrder | src/context.rs:929-979 | Files leave the search in order of distance, seeds first, each once |
| Reach.SeedDependencies | src/context.rs:326-340 | A dependency of several seeds keeps the resolver recorded by the least seed that lists it, and exactly the listed dependencies appear |
| Reach.GraphNeighborhood | src/context.rs:322-368 | Dependencies and dependents as above; direct plus transitive counts equal the reach; the direct count is the number of non-seed files some seed lists as a dependent; eligible and covered seeds are counted exactly |
| Reach.DirectPlusTransitive | src/context.rs:341-348 | No reached file has distance 0, so the two counters split the reach |
| Reach.DirectAreListed | src/context.rs:341-344 | Distance 1 means: listed as a dependent by some seed, and not itself a seed |
| Selection.SelectCandidates | src/context.rs:700-746 | The selection is the greedy one over the candidates sorted by rank; what that order is, and who is passed over, the rows below say |
| Selection.CandidatesConserved | src/context.rs:723-744 | Selected and rejected candidates together are exactly the candidates, with multiplicity |
| Selection.CountersAgree | src/context.rs:726-743 | Token and file counters equal the true totals of their lists, capped at the largest usize |
| Selection.OmissionsReported | src/context.rs:728-739 | The listed omissions are the first ten rejections in rank order and the outlined ones are exactly the rejected seeds |
| Selection.SelectionWithinLimits | src/context.rs:748-762 | The selection never has more files than allowed, and its counter never exceeds the budget |
| Selection.TrueTotalWithinBudget | src/context.rs:742-762 | The exact token total obeys the budget if and only if the budget is below the largest usize or the first maxFiles candidates fit it anyway |
| Selection.UnboundedBudgetTakesPrefix | src/context.rs:748-762 | With the largest budget nothing is ever too big: the first maxFiles candidates are taken |
| Selection.LargestBudgetOverflows | src/context.rs:742-758 | Two files whose sizes add up to one more than the largest budget are both selected |
| Selection.GreedyRefinesReference | src/context.rs:723-762 | Below the largest budget the saturating selection equals the greedy selection in exact arithmetic |
| Selection.NothingOmittedStillFits | src/context.rs:700-762 | Greedily maximal, for every budget: either the file limit is reached or the exact total with any rejected candidate exceeds the budget |
| Selection.SelectionIgnoresOrder | src/context.rs:700-746 | With distinct paths the whole plan depends only on the set of candidates |
| Selection.ListedByRank | src/context.rs:705-745 | In the selection, the ten omissions and the outlines, whoever has the higher priority, then the higher score, then fewer tokens, then the smaller path stands first; outlined are exactly the seeds among all that was turned away |
| Selection.TurnedAwayInTurn | src/context.rs:723-762 | A candidate is turned away with the file limit, the total budget or the remaining budget as reason exactly as the files chosen before its turn leave it; it outranks none of these, and none chosen later outranks it |
| Selection.PassedOver | src/context.rs:705-762 | A candidate is passed over for one it outranks only if its tokens did not fit beside what was chosen before it, although a file could still be chosen |
| Orders.PathLeIsDictionary | src/context.rs:711 | Texts are ordered as in a dictionary: a beginning comes first, otherwise the first differing character decides |
| DaemonScan.ScanInvariantStep | src/daemon.rs:702-826 | Every step of the scan task, the watcher and startup keeps: nothing lost, snapshot is the latest success, log agrees, status agrees, an unchanged tree is shown truthfully; published revisions and logged events are never rewritten |
| DaemonScan.NothingLostStep | src/daemon.rs:713-731 | A demand newer than the latest scan start always has a token queued or a scan task between receive and read |
| DaemonScan.ShowsLatestStep | src/daemon.rs:774-787 | The revision counts the successes, and report, facts and limits in the snapshot are always those of one and the same success |
| DaemonScan.LogAgreesStep | src/daemon.rs:742-798 | Each emission extends the log by the only event that fits there |
| DaemonScan.RevisionsCountCompletions | src/daemon.rs:774-797 | In a well-formed log the last revision is the number of Completed events |
| DaemonScan.EventsTrailTheSnapshot | src/daemon.rs:774-798 | No logged event names a revision above the snapshot's |
| DaemonScan.RankFalls | src/daemon.rs:713-731 | Every step of the scan task except the scan start brings the next scan nearer; other tasks put it off by at most one step for each demand they send |
| DaemonScan.LoopCanMove | src/daemon.rs:713-731 | With a demand outstanding the scan task always has a step of its own to take |
| DaemonScan.RestingIsCurrent | src/daemon.rs:713-798 | At rest, with every change reported, the latest scan began after the last change |
| DaemonRequests.GraphSoundStep | src/daemon.rs:556-618 | Every step of every graph request keeps the cache entry and all requests tied to the inputs of their own revision, with at most one request building |
| DaemonRequests.GraphSoundLater | src/daemon.rs:774-787 | Publishing more revisions disturbs no request in flight |
| DaemonRequests.OldRequestOverwrites | src/daemon.rs:593-615 | A slow request for an older revision does replace a newer cache entry; the next request for the newer revision then rebuilds and answers the same graph as before |
| DaemonRequests.FeedSoundStep | src/daemon.rs:645-689 | Every subscription, poll and departure keeps each client's received events a stretch of the log, and open clients plus free slots at 32 |
| DaemonRequests.PollDeliversOrCloses | src/daemon.rs:664-689 | A poll either delivers exactly the next event of the log or, when the client lags more than the channel holds or shutdown has begun, closes the stream without delivering |
| DaemonRequests.SpacedStep | src/daemon.rs:632-642 | Every rescan step keeps neighbouring admissions a cooldown apart, one admission for each request past the check |
| DaemonRequests.AcceptedFitTheClock | src/daemon.rs:632-642 | Accepted rescans are at most one plus one for every second of the clock |
| DaemonRuns.RunKeeps | src/daemon.rs:556-858 | Every run, in every interleaving, keeps the whole invariant |
| DaemonRuns.EveryReplyIsOfItsRevision | src/daemon.rs:556-618 | In every run an answered graph is the build of the inputs published at the answered revision, which is the revision asked for if one was named |
| DaemonRuns.LogTellsTheScans | src/daemon.rs:734-840 | In every run the log alternates Started r with Completed r+1 or Failed r, the revision counts the completions logged or about to be, and the report is that of the last success |
| DaemonRuns.EachClientSawASegment | src/daemon.rs:645-689 | In every run each event stream holds a gap-free stretch of the log from its subscription on, and at most 32 are open |
| DaemonRuns.HeardRevisionIsThere | src/daemon.rs:664-689 | In every run a client that received an event finds at least that revision in the snapshot |
| DaemonRuns.NoChangeIsLost | src/daemon.rs:639-731 | In every run, until the scan task stops, a demand newer than the latest scan start is queued or on its way to a scan |
| DaemonRuns.NextScanIsNear | src/daemon.rs:713-731 | While no scan starts, the scan task has taken at most nine steps plus one for each new demand |
| DaemonRuns.AcceptedRescanIsDemanded | src/daemon.rs:639-642 | Accepted means a token is queued and a scan is owed, whether or not the channel was full; Unavailable means exactly that the scan task has stopped |
| DaemonRuns.RestingShowsTheTree | src/daemon.rs:713-798 | In every run, once the loop rests with no token queued and every change reported, a Ready snapshot shows the tree as it is |
| DaemonRuns.RescansFitTheClock | src/daemon.rs:624-642 | In every run the accepted rescans fit the clock |
| DaemonRuns.ScanCanComplete | src/daemon.rs:734-798 | From any state in which the scan task is about to begin, a scan of the tree as it stands can run to its end, publishing one revision and logging Started and Completed |
| DaemonRuns.FirstScanCompletes | src/daemon.rs:226-798 | A run exists in which the initial scan completes and the loop rests with revision 1, so the statements about resting states are not empty |
| DaemonCases.StartupFailsIffTokenWaits | src/daemon.rs:226-249 | In every run startup fails if and only if a change was heard before the initial scan is queued and the scan task, already running, has not taken its token by then |
| DaemonCases.PendingSlot | src/daemon.rs:226-249 | Until the initial scan is queued the slot is full exactly when a change was heard and not taken since |
| DaemonCases.EarlyChangeEitherWay | src/daemon.rs:226-249 | Both outcomes of an early change occur: a run in which startup fails and one in which the scan task takes the token in time |
| DaemonCases.EntryFallsIffOlderStored | src/daemon.rs:593-615 | The cached revision falls in a step if and only if the step stores the graph of a request for an older revision than the entry |
| DaemonCases.OverwriteIsReached | src/daemon.rs:556-618 | A run reaches the situation in which a slow request overwrites a newer entry |
| DaemonAnswers.EveryRescanIsJudged | src/daemon.rs:624-642 | In every run a rescan request is bad exactly if it lacks the header, and too early exactly if it has it and the cooldown since the last admission is not over; refused it changes nothing but its own answer, otherwise it is admitted, and no later step takes the verdict back |
| DaemonAnswers.LastIsLatest | src/daemon.rs:632-637 | In every run the recorded time is that of the latest admission, or absent if there was none |
| DaemonAnswers.EverySubscriberIsServed | src/daemon.rs:645-662 | In every run a subscriber is refused exactly if 32 streams are open when it comes; otherwise its stream begins with the next event logged |
| DaemonAnswers.EveryRequestIsOfItsTime | src/daemon.rs:556-618 | In every run an answered graph request is a conflict exactly if it asked for another revision than was current when it was read, has no report exactly if there was none, and a graph it got is that of this revision, however late it came |
| DaemonAnswers.DemandsAreCounted | src/daemon.rs:639-731 | Every token sent is in the slot afterwards, is counted and moves what was heard; nothing else is counted, and a scan covers what was demanded when it is announced |
| DaemonAnswers.EveryDemandIsHeard | src/daemon.rs:639-731 | In every run the tree version of every token sent is heard, and seen by the latest scan if that began after every demand |
| DaemonAnswers.AlwaysPossible | src/daemon.rs:556-689 | Once the daemon serves, a new request can always be made; the lock can be taken exactly while it is free, an open stream polled exactly when an event is unread or shutdown has begun, and the clock goes on |
| DaemonTasks.AppState.constructor | src/daemon.rs:195-222 | The daemon starts at revision 0 with nothing queued, cached or logged |
| DaemonTasks.AppState.TrySend | src/daemon.rs:639-642 | Sending a token into a full channel loses nothing; a stopped receiver is reported |
| DaemonTasks.AppState.AdmitRescan | src/daemon.rs:624-637 | A request without the header is bad, one with it within the cooldown since the last admission comes too early, any other is admitted at the time of the clock; a refused one changes neither the last admission nor the channel |
| DaemonTasks.AppState.QueueRescan | src/daemon.rs:638-642 | The answer of a rescan and the demand it leaves |
| DaemonTasks.AppState.DrainTriggers | src/daemon.rs:727-728 | Draining takes tokens until the channel is empty |
| DaemonTasks.AppState.BeginScan | src/daemon.rs:742-748 | The first locked write of a scan: status and error only, revision read out |
| DaemonTasks.AppState.AnnounceScan | src/daemon.rs:749-752 | The Started event carries the revision read under the lock |
| DaemonTasks.AppState.FinishScan | src/daemon.rs:772-804 | A success replaces revision, report, facts and limits in one write; a failure leaves them |
| DaemonTasks.AppState.RecordScanError | src/daemon.rs:806-826 | A failure changes status and error only and announces the old revision |
| DaemonTasks.AppState.EmitFinished | src/daemon.rs:788-797 | The finishing event is logged after the write it announces |
| DaemonTasks.AppState.ReadRevision | src/daemon.rs:560-591 | One locked read: Conflict exactly if another revision was asked for, NoReport exactly if otherwise there is none, else revision and inputs together |
| DaemonTasks.AppState.LookUpGraph | src/daemon.rs:593-602 | The entry is answered at once exactly if its revision is the one read; otherwise the request holds the lock and builds |
| DaemonTasks.AppState.StoreGraph | src/daemon.rs:603-617 | The built graph is stored and answered under the revision read; a failed build stores nothing |
| DaemonTasks.AppState.SubscribeEvents | src/daemon.rs:645-662 | A stream is refused exactly if no slot is free; otherwise it takes one and starts at the end of the log |
| DaemonTasks.AppState.PollEvents | src/daemon.rs:664-689 | Lag or shutdown ends the stream and frees its slot; otherwise the next event is delivered |
| DaemonTasks.AppState.QueueInitialScan | src/daemon.rs:247-249 | The initial token is sent, or the slot is taken and startup fails |
| DaemonTasks.AppState.AbandonRequest | src/daemon.rs:593-611 | A dropped request gives the cache lock back and stores nothing |
| DaemonTasks.AppState.Perform | src/daemon.rs:556-858 | Whichever task moves next makes exactly its step of the system and keeps the invariant |
| DaemonTasks.AppState.ScanOnce | src/daemon.rs:734-826 | A whole scan, with any steps of other tasks between its sections, logs one start and one end and nothing else meanwhile, and publishes one revision, whole, or none and leaves the last report |
| DaemonTasks.FinishingHandsOn | src/daemon.rs:591-616 | Tasks that hand the cache lock on exist: it is enough that the request that holds it finishes its build |
| DaemonTasks.AppState.AwaitLock | src/daemon.rs:591 | Waiting for the cache lock, round by round, changes nothing of the request, and ends with the lock free if the other tasks hand it on in one of the rounds |
| DaemonTasks.AppState.ServeGraph | src/daemon.rs:556-618 | A whole graph request, with any steps of other tasks between its sections and while it waits for the lock, answers the graph of the revision current when it was read; it is answered as soon as the other tasks hand the lock on |
| Lineage.ApplyEvent | src/git.rs:616-662 | One event: ownership moves with the renames and every wanted path is counted at most once, if the name it has at that point is touched |
| Lineage.OwnershipConserved | src/git.rs:203-207 | The alias sets stay pairwise disjoint, their union stays the wanted paths, and each path sits under its own historical name |
| Lineage.OwnsDetermined | src/git.rs:647-661 | The alias map is determined by the historical names alone |
| Lineage.AccumulatedMeans | src/git.rs:630-646 | commits is the number of touching events, first and last are their least and greatest times, authors the distinct authors |
| Lineage.TouchedPaths | src/git.rs:617-629 | The touched paths are the wanted paths whose current name is the old or new path of a delta |
| Lineage.TouchAll | src/git.rs:630-646 | Each touched path is updated once, in whatever order the hash set yields them |
| Lineage.MoveOwners | src/git.rs:647-661 | A rename moves all owners of the new name to the old name |
| Lineage.MoveAll | src/git.rs:647-661 | The renames of an event move ownership one after another |
| Lineage.ResolutionNeededIffWantedAppears | src/git.rs:601-614 | Similarity detection is asked for exactly when something is deleted and the current name of a wanted path is added |
| RenameOrder.DeltasAreSequential | src/git.rs:647-661 | The loop over the deltas is the sequential application of its renames |
| RenameOrder.SequentialIsSimultaneous | src/git.rs:647-661 | Without a chain, sequential application equals remapping every name at once |
| RenameOrder.OrderIsInvisibleIffNoChain | src/git.rs:647-661 | For well-formed renames the two readings agree on every name if and only if no rename's old path is a later rename's new path |
| RenameOrder.ChainMisleads | src/git.rs:647-661 | A chain sends the first rename's new name somewhere other than its old name |
| RenameOrder.SwapMergesLineages | src/git.rs:647-661 | The smallest chain: read in order, a swapped pair would put both lineages under one name |
| RenameOrder.AliasesRemappedAtOnce | src/git.rs:647-661 | Without a chain the alias map after an event regroups every owned path at once |
| CommitChanges.ResolvedMakesNoChain | src/git.rs:485-499 | Detection pairs regular files that went with regular files that came, so no path is both a source and a target of the delivered renames, and they have no chain |
| CommitChanges.DeliveredOrderNeverShows | src/git.rs:647-661 | For every intact event the order of its renames never shows, for any name |
| CommitChanges.ResolvedStep | src/git.rs:647-661 | Walking back through rename-resolved deltas takes a name to the path it was detected to come from |
| CommitChanges.TouchedNames | src/git.rs:617-629 | Rename detection never changes which names a commit touches |
| CommitChanges.LazyResolutionIsInvisible | src/git.rs:408-424 | Whether or not an event was resolved, an owned name is touched and renamed as its commit says, if the commit does not rename it or can be seen to, and resolution was done where asked for |
| CommitChanges.StreamAsksIffStable | src/git.rs:601-614 | The condition is exact: a streamed event asks for detection at a name if and only if the name is that of an added path and some path is deleted; where detection could follow the name, that is stability |
| ChurnReference.FaithfulFollows | src/git.rs:340-360 | Whatever the sources of the events, a wanted path that is stable along its own lineage has the name and the commits that the history alone gives it |
| ChurnReference.FaithfulIsReference | src/git.rs:340-360 | For every wanted path that is stable along its own lineage a faithful walk returns the churn defined on the commits alone, whatever other paths and commits do: cold, warm, native and fallback runs agree |
| ChurnReference.FinishedTells | src/git.rs:664-679 | A finished entry holds the number of its commits, the number of their distinct authors, and the least and the greatest of their times |
| ChurnReference.SameSignaturesTell | src/git.rs:664-679 | An entry depends on the authors and times of its commits alone |
| ChurnReference.TellsDetermined | src/git.rs:664-679 | The commits leave nothing of an entry open |
| ChurnReference.FollowedIffResolved | src/git.rs:408-424 | On every faithful walk, stable or not, a path keeps its true name exactly as far as the events that rename it were resolved |
| ChurnReference.ResolvedIffDetected | src/git.rs:408-424 | On a faithful walk a stable rename of a wanted path is resolved if and only if similarity detection answers at that commit |
| ChurnReference.FollowedIffDetected | src/git.rs:408-424 | A faithful walk knows a stable wanted path by its true name after every commit if and only if similarity detection answers at every commit that renames it |
| ChurnExamples.FailedDetectionUnderCounts | src/git.rs:417-421 | When detection fails at a rename every faithful walk counts one commit of two, and within large enough limits the walk ends complete and unmarked |
| ChurnExamples.TypeChangeDividesSources | src/git.rs:443-460 | Where a rename starts at a path that changed its type, a streamed and an analyzed walk are both faithful and count differently |
| EventLimits.KeptWithin | src/git.rs:557-599 | What is kept is within the caps, and it is everything if and only if everything was within them and there is room |
| EventLimits.EnforceEventLimits | src/git.rs:557-599 | Kept are the first of the deltas short enough, as many as the per-commit cap and what is left of the total allow; the rest is counted, and the event counts as whole if and only if it was within every cap |
| EventLimits.CachedDeltas | src/git.rs:516-549 | Kept are the first of the diff's deltas short enough, up to the per-commit cap; each dropped one is counted, and the run is marked if and only if the diff was not within the caps |
| EventLimits.KeptAreFirst | src/git.rs:557-599 | A delta short enough stays exactly if fewer short ones come before it than both caps leave room for, and stands behind those |
| EventLimits.PathBytesCount | src/git.rs:551-553 | A path counts one byte for each character and one more from U+0080, U+0800 and U+10000 on |
| WalkEvents.UnhinderedUnique | src/git.rs:340-360 | The events of a walk that loses nothing are fixed by commits, cache, stream and limits before it |
| WalkEvents.BlockedHere | src/git.rs:340-375 | Where a deadline, the spent total, a missing or refused event or a cap stops the walk from losing nothing, no walk of these commits does |
| WalkEvents.UnhinderedIsFaithful | src/git.rs:340-360 | A walk that loses nothing is faithful, and what it remembers is intact, if what was cached and streamed is |
| WalkLimits.FullBeforeTheLastIsMarked | src/git.rs:362-375 | With nothing to drop a walk finishes unmarked if and only if the commits before the last leave some of the total, even when the last changes nothing |
| WalkLimits.LargerLimits | src/git.rs:340-375 | Larger limits change nothing in a walk that loses nothing |
| WalkLimits.AmpleLimits | src/git.rs:340-375 | With the fallback allowed, no deadline and an event for every commit some limits let the walk finish, so the statements about complete walks are not empty |
| HistoryWalk.WholeIffUnmarked | src/git.rs:377-424 | Finding and resolving one event leaves the run unmarked only if the event is the whole one, and marks it only if that is missing, refused or beyond the caps |
| HistoryWalk.HistoryProcessor.constructor | src/git.rs:203-220 | Processing starts with every wanted path owning itself and nothing applied |
| HistoryWalk.HistoryProcessor.LimitReached | src/git.rs:362-375 | Stopping early always leaves the run incomplete and partial |
| HistoryWalk.HistoryProcessor.AnalyzeCommit | src/git.rs:431-468 | The fallback event: the deltas kept of the diff, replaced by those of similarity detection if nothing was lost before, a wanted name asks and detection answers; every counter and mark |
| HistoryWalk.HistoryProcessor.EventFor | src/git.rs:377-406 | An event is found if and only if the commit is a merge that can be looked up, or is cached, streamed or may be analyzed, from the first of these sources; without one the run is incomplete; an unmarked one is intact, author and time included |
| HistoryWalk.HistoryProcessor.ResolveCommitRenames | src/git.rs:470-499 | Fails exactly when the commit has no similarity answer; otherwise the event has the deltas kept of it, and is marked if and only if some were dropped |
| HistoryWalk.HistoryProcessor.ResolveRenames | src/git.rs:408-424 | Renames are resolved exactly when asked for; without the means the run is marked, and a failed detection leaves event and marks alone, which happens exactly when the commit has no answer |
| HistoryWalk.HistoryProcessor.ApplyBounded | src/git.rs:345-358 | What the caps keep of the event is applied; the run stays complete and unmarked if and only if that is all of it, and only then it is remembered; ownership, accounts, caps and a cache of intact events are kept |
| HistoryWalk.HistoryProcessor.Advance | src/git.rs:345-358 | One commit of the walk follows the walk that loses nothing as long as the run is clear, and once it is not, there is no such walk |
| HistoryWalk.HistoryProcessor.Process | src/git.rs:340-360 | A run ends complete and unmarked if and only if it began so and nothing stands in its way, and has then applied the whole event of every commit; any run applied, in walk order, an event for every commit some source had one for, until a deadline or the spent total stopped it |
| ChurnCollect.WalkHistory | src/git.rs:239-270 | The readable entries up to the first deadline, the commit limit or the end; complete if and only if every entry up to the limit is readable and no deadline comes first, and then these are the newest commits; a deadline marks the run |
| ChurnCollect.UncachedOids | src/git.rs:282-291 | Exactly the walked non-merge commits without a cached event are streamed |
| ChurnCollect.CollectStreamed | src/git.rs:293-325 | What a stream adds to events, marks and counts: nothing where all commits are covered; a failed stream hinders only without fallback, any other only if it was cut |
| ChurnCollect.ReplayHistory | src/git.rs:190-222 | Complete and unmarked if and only if the walk is read in time, the stream does not hinder and the walk over what is cached, streamed and readable loses nothing; the churn is then exact, each entry with commits, authors, first and last time of the events that touch the path; the events stay intact for every head of the history state |
| ChurnCollect.Collect | src/git.rs:144-237 | Empty and unmarked without head, files, or walk and stored view; a stored view is never marked; any other result is unmarked if and only if nothing hinders the replay, and is then exact, so that every entry tells its commits, and stored; both cache files stay sound |
| ChurnCollect.ExactAt | src/git.rs:144-237 | An exact result is the churn of the commits at every wanted path that is stable along its own lineage |
| ChurnCollect.ExactTells | src/git.rs:144-237 | Every entry of an exact result has the number of events of one faithful walk that touch the path, the number of their distinct authors, and the least and greatest of their times, first at most last; at a stable path these are the commits that change it under the name it has there, and each such path has an entry |
| ChurnCollect.ExactResultsAgree | src/git.rs:144-237 | Two exact results for the same commits and paths agree at every wanted path that is stable along its own lineage, whatever limits, caches and sources they came from; if all are, they are equal |
| ChurnCollect.CollectWithCache | src/git.rs:94-102 | One collection that opens the cache anew: its unmarked result is exact unless there was nothing to walk, and it is unmarked if and only if its view is stored or nothing hinders its replay |
| ChurnCollect.CollectAll | src/git.rs:94-142 | Over any sequence of collections with changing heads, history states, paths and limits, and with files that cannot be read or written, every unmarked result is exact and the cache stays sound |
| ChurnCollect.EmptyWalkIsUnmarked | src/git.rs:190-192 | A walk that cannot start returns an empty unmarked result although a wanted file was committed |
| ChurnCollect.ChurnCache.GetView | src/git/churn_cache.rs:172-189 | A hit returns the first stored view of that identity and moves it to the front, the others keeping their order |
| ChurnCollect.PositionIsFirst | src/git/churn_cache.rs:176-180 | The view looked up is the first of its identity, and there is none if the search runs past the end |
| ChurnCollect.SameViewIffSameRun | src/git/churn_cache.rs:41-90 | A stored view is shared exactly by runs with the same head, history state, paths and limits, the fallback aside |
| ChurnCollect.ChurnCache.PutView | src/git/churn_cache.rs:191-207 | The new view comes first, the others follow in order without any of its identity, and the first eight remain |
| ChurnCollect.OthersJoin | src/git/churn_cache.rs:195 | Leaving out the views of one identity never changes the order of the others |
| ChurnCollect.ChurnCache.At | src/git/churn_cache.rs:122-150 | A cache opens with the views it can read and no events |
| ChurnCollect.ChurnCache.LoadEvents | src/git/churn_cache.rs:209-226 | Only events of the same history state are loaded |
| ChurnCollect.ChurnCache.Save | src/git/churn_cache.rs:242-271 | Only what changed is written, events under their history state, and a failed write leaves its file |
| ChangedLines.CollectRanges | src/git.rs:1080-1091 | The diff callback's repeated pushes compute the ranges of the printed lines |
| ChangedLines.PushRecordsExactly | src/git.rs:1080-1091 | One push adds exactly its line if and only if the line is not below the start of the last range or was covered already |
| ChangedLines.LostForGood | src/git.rs:1080-1091 | A line that is lost when it is pushed is not covered in the end, even if it is pushed again |
| ChangedLines.ExactIffNoneIsLost | src/git.rs:1080-1091 | For lines in any order the ranges cover exactly the lines if and only if each, when it is pushed, is not below the range opened last or is covered already |
| ChangedLines.DescendingLineIsLost | src/git.rs:1080-1091 | A line pushed out of order is swallowed: the first input for which recording is wrong |
| ChangedLines.RangesAreExact | src/git.rs:1080-1091 | Ascending lines give sorted ranges with a gap between neighbours that cover exactly those lines |
| ChangedLines.NormalFormUnique | src/git.rs:1080-1091 | Such ranges are determined by the lines they cover |
| ChangedLines.RangesDependOnLineSet | src/git.rs:1080-1091 | The recorded ranges depend only on which lines changed |
| ChangedLines.LocationChangedIffLineChanged | src/review.rs:211-223 | A location is changed if and only if a changed line of that file lies in its span |
| ChangedLines.OldLocationChangedIffLineRemoved | src/review.rs:225-238 | The same for removed lines, under the old path or the new path of a rename |
| ChangedLines.ChangeReviewedIffTouched | src/review.rs:240-268 | A finding change is reviewed if and only if a location of either side holds a changed line of that side |
| Topology.SelectGraphUniverse | src/graph.rs:1077-1102 | The universe is the sorted distinct normalized paths of graph languages, with each at its index |
| Topology.TopologyState.constructor | src/graph.rs:694-708 | The state starts empty for a valid universe |
| Topology.TopologyState.RecordResolution | src/graph.rs:869-899 | After every recorded import the edges, first resolvers, self-imports and unresolved counters are those of the whole log |
| Topology.TopologyState.Finish | src/graph.rs:901-924 | The edges come out sorted, once each, in bounds and without self-edges |
| Topology.EdgeIffImported | src/graph.rs:869-899 | An edge exists if and only if some import of the one file resolved to the other, different, file |
| Topology.FirstResolverIsFirst | src/graph.rs:883-891 | An edge keeps the resolver of the import that made it |
| Topology.ExtractTopology | src/graph.rs:720-781 | The edges are exactly the resolved imports between two files, in ascending order, each with the resolver of the first import of the one file that resolves to the other; files that import themselves are listed apart and unresolved imports counted |
| Topology.FanCounts | src/graph.rs:1104-1112 | Fan-out and fan-in count the edges leaving and entering each file |
| Adjacency.CollectSides | src/graph.rs:1166-1183 | Both directions are collected edge by edge |
| Adjacency.BuildSignals | src/graph.rs:1160-1211 | Each file's signal lists exactly the far ends of its edges, sorted, with resolvers, and the fan counts are the lengths of the lists |
| Adjacency.EdgeInSignals | src/graph.rs:1160-1211 | An edge shows in the dependencies of its source, in the dependents of its target, and nowhere else |
| Adjacency.SignalsAreDual | src/graph.rs:1160-1211 | Dependencies and dependents are exact converses, stay inside the graph and have no self-edges |
| Adjacency.ResolversAgree | src/graph.rs:1172-1183 | Both ends of an edge carry the same resolver |
| Components.SearchComponent | src/work_scope.rs:229-245 | The search from an unvisited file finds exactly the files connected to it |
| Components.FindComponents | src/work_scope.rs:220-261 | The listing holds every class of undirected reachability with exactly its seeds, in ascending order |
| Components.ConnectedIsEquivalence | src/work_scope.rs:235-245 | By duality, connectedness is an equivalence |
| Components.ComponentsPartition | src/work_scope.rs:225-253 | Each file lies in exactly one component, and two files share one if and only if they are connected |
| Components.SharedFileSameComponent | src/work_scope.rs:229-253 | Components that share a file are equal |
| Components.ComponentsDetermined | src/work_scope.rs:225-261 | The ordered listing is unique, whatever the hash iteration order |
| Components.ListingTells | src/work_scope.rs:246-261 | The seeds of a component are exactly its paths in the seed set, sorted and without repeats; a component with more seeds stands first, then one with more files, then the one with the smaller least path |
| ImportComponents.ComponentsOfImports | src/graph.rs:978-1018 | Extracting, counting, building and searching in turn: two files share a component if and only if a chain of imports, in whichever directions, joins them |
| WorkScope.PathBudget.Take | src/work_scope.rs:382-386 | Takes the longest affordable prefix and charges what it shows |
| WorkScope.TakesIsPrefix | src/work_scope.rs:382-386 | Over all lists together the budget shows the longest affordable prefix of their concatenation |
| WorkScope.TakesConcat | src/work_scope.rs:382-386 | Sections sharing a budget show what one long section would |
| WorkScope.SeededComponentsFirst | src/work_scope.rs:269-275 | Once a component has a seed, only components with seeds are shown |
| WorkScope.ProjectStructure | src/work_scope.rs:220-302 | Counts, largest component, shown and omitted entries and representative paths of the true component listing, charged to the shared budget; what the entries say is in the next row |
| WorkScope.StructureTells | src/work_scope.rs:268-302 | The entries are those of the first components of the listing, ten at most: of all that have a seed, or of any if none has; each has the number of files and of seeds, represents only seeds, the least first, or without any seed the least path, and counts what is left out |
| WorkScope.ProjectFocus | src/work_scope.rs:122-145 | Resolved paths first and unmatched ones from the rest: each section is the longest affordable beginning of its ascending listing, and shown plus omitted is the total |
| WorkScope.ProjectChanges | src/work_scope.rs:147-163 | The changed paths shown are the longest affordable beginning of their ascending listing, and shown plus omitted is the total |
| WorkScope.BuildScope | src/work_scope.rs:30-120 | Focus, changes and structure each get what the sections before them left of one budget of 25 paths, so the whole scope never shows more |
| Findings.Compare | src/findings.rs:136-231 | For equal nonzero versions the delta holds every change of the two indexes once, sorted, with matching counts; otherwise it is unavailable with its reason. What a change says of the catalogs is in the next rows |
| Findings.DeltaSays | src/findings.rs:136-231 | A change is reported if and only if it holds: a fingerprint of the later catalog alone is new, of the earlier alone resolved, a common one worsened if the first of its kind's metrics that differs is larger after, or its risk score rose by at least 0.01, improved the other way round, and no other kind changes; the counts are the numbers of reported changes |
| Findings.SeverityMeans | src/findings.rs:277-310 | Complexity compares cyclomatic, cognitive and max_nesting in this order, duplication removable_lines, copies and tokens, risk the score by hundredths; a missing metric counts as zero, and the kind of the later finding decides |
| Findings.IndexedIffStands | src/findings.rs:141-150 | Of findings with one fingerprint the last one of the catalog counts |
| Findings.ReportedInOrder | src/findings.rs:185-206 | New before worsened before improved before resolved; in one state by kind, then path, then line, then fingerprint |
| Findings.VerdictsPartition | src/findings.rs:136-206 | Every fingerprint of either catalog is in exactly one of new, resolved, worsened, improved, unchanged |
| Findings.CountsPartition | src/findings.rs:207-231 | The counts and the unchanged ones add up to all fingerprints |
| Findings.DeltaDetermined | src/findings.rs:136-231 | The delta is determined by the two indexes |
| Findings.CompareIgnoresOrder | src/findings.rs:136-231 | With unique fingerprints permuting either catalog changes nothing |
| Findings.CompareWithItself | src/findings.rs:136-231 | A catalog compared with itself has no changes, even with repeated fingerprints |
| Findings.CompareSwapped | src/findings.rs:136-231 | Swapping the catalogs swaps new with resolved and worsened with improved, when equal fingerprints are measured alike, and lists the reversed changes in the order of the report |
| Findings.SeverityFlips | src/findings.rs:277-306 | Swapping two findings measured alike reverses the severity verdict |
| Findings.SwapLawIffSameScale | src/findings.rs:277-306 | The swap law holds for all metrics of two kinds if and only if both kinds are measured on the same scale |
| Findings.ReportOrderTotal | src/findings.rs:183-206 | The report order is a total preorder |
| Fingerprint.DecodeEncode | src/findings.rs:416-423 | The length-prefixed bytes decode to their parts |
| Fingerprint.EncodeDecode | src/findings.rs:416-423 | Any bytes that decode are the encoding of what they decode to |
| Fingerprint.EncodeInjective | src/findings.rs:416-423 | Different lists of parts have different bytes |
| Fingerprint.FingerprintOf | src/findings.rs:416-423 | The loop hashes exactly that encoding |
| Fingerprint.FingerprintIdentifies | src/findings.rs:403-423 | Short of a collision, fingerprints agree if and only if kind and identity agree and the paths differ at most in the direction of their separators |
| Fingerprint.HashedReadsBack | src/findings.rs:403-423 | What is hashed reads back as the versioned kind, the path with slashes for backslashes and the identity, in this order, and the fingerprint is the versioned kind before the hash of it |
| Fingerprint.LaterBytesWeighMore | src/findings.rs:419 | The bytes of a length stand least significant first |
| Fingerprint.SeparatorsShareFingerprints | src/findings.rs:412-414 | Paths that differ only in the direction of slashes share fingerprints |
| RenameRebase.CollectRenames | src/findings.rs:236-246 | A later rename of the same old path wins |
| RenameRebase.RemapRenames | src/findings.rs:236-267 | Every finding is rewritten by the renames and re-fingerprinted, and the catalog re-sorted |
| RenameRebase.RenamedIsNewPath | src/findings.rs:240-246 | A path is renamed to the new path of the last rename of it, and stays if there is none |
| RenameRebase.RebasedTells | src/findings.rs:236-267 | Without a rename the catalog stays as it is; otherwise every finding keeps everything but its paths and fingerprint, the latter only where it is a duplication, and the findings are listed by fingerprint |
| RenameRebase.RebasedIsKnown | src/findings.rs:236-267 | Every rebased finding is found in the renamed catalog with the same metrics |
| RenameRebase.MovedIsRebased | src/findings.rs:236-267 | Every finding of the renamed catalog is found among the rebased ones |
| RenameRebase.RenamesAreNotChanges | src/findings.rs:236-267 | When only paths changed, by the detected renames, the rebased comparison reports nothing |
| Markers.WordsExactly | src/metrics/markers.rs:123-139 | A marker of word characters is found at exactly the places where it stands as a word, although matches do not overlap |
| Markers.LineAround | src/metrics/markers.rs:72-80 | The line of a position starts at or before it, and its text ends at the next newline |
| Markers.Locate | src/metrics/markers.rs:71-93 | One occurrence gets the line, the column, the hash of the line, and one more than the number of earlier ones of its marker and context |
| Markers.ScanRanges | src/metrics/markers.rs:41-105 | The loop over the configured list computes counts and sorted occurrences; empty markers are passed over, repeats are not |
| MarkerPlaces.MatchesAreLeftmost | src/metrics/markers.rs:123-135 | The matches taken never overlap, and one left out overlaps an earlier one |
| MarkerPlaces.PositionsStand | src/metrics/markers.rs:61-67 | A position is a place inside a searched range where the marker stands and no word goes on; of a marker that is one word the positions are all such places |
| MarkerPlaces.EveryOccurrenceStands | src/metrics/markers.rs:57-94 | Every occurrence tells a place where its marker, which is listed, stands: line and column count from one, and the hash is of the whole line |
| MarkerPlaces.EveryPlaceIsReported | src/metrics/markers.rs:57-94 | Every place of a listed marker that is one word is reported |
| MarkerPlaces.LineCountsNewlines | src/metrics/markers.rs:50-73 | The line of a position is the number of newlines before it |
| MarkerPlaces.CountsTellOccurrences | src/metrics/markers.rs:68-70 | The count of a marker, once for each time it is listed, is the number of its occurrences |
| MarkerPlaces.NumberedFromOne | src/metrics/markers.rs:81-91 | Occurrences of one marker on lines of one context are numbered from one to as many as there are, each number once |
| MarkerPlaces.ListedInOrder | src/metrics/markers.rs:95-100 | Occurrences are listed by line, column and marker, and at one place by their numbers |
| MarkerLaws.FoundAsOftenAsListed | src/metrics/markers.rs:57-70 | The positions of a marker are found over and over, as often as it is listed |
| MarkerLaws.NumberedOfMarker | src/metrics/markers.rs:82-92 | Other markers have no part in how the occurrences of one are numbered |
| MarkerLaws.ScanIsOrdered | src/metrics/markers.rs:95-100 | The sort by line, column and marker leaves nothing open: what shares a place is in the order of its numbers |
| MarkerLaws.CountsIffSameMarkers | src/metrics/markers.rs:68-70 | The counts of two lists agree on a content if and only if the same of the markers that occur are listed |
| MarkerLaws.OccurrencesIffEquallyListed | src/metrics/markers.rs:57-100 | The occurrences of two lists agree on a content if and only if every marker that occurs is listed equally often |
| MarkerLaws.ScanIffEquallyListed | src/metrics/markers.rs:41-105 | So does the whole scan |
| MarkerLaws.OrderNeverShows | src/metrics/markers.rs:57-100 | The order of the list never shows |
| MarkerLaws.IdentitiesAreDistinct | src/findings.rs:66-69 | No two occurrences of a file share marker, context and number, however often a marker is listed |
| MarkerLaws.RepeatedMarkerDoubles | src/metrics/markers.rs:57-92 | Listing a marker twice doubles its occurrences on a text that is that marker, and keeps its count |
| AnalysisProfile.ProfileIffSameSettings | src/cache.rs:143-180 | Two configurations share a profile if and only if they agree on tokenizer, switches, set of non-empty markers and health selection, each where it has an effect; how often a marker is listed is not part of it |
| AnalysisProfile.MarkersAgree | src/cache.rs:209-218 | Equal canonical markers mean equal sets of non-empty markers |
| AnalysisProfile.CanonicalIffSameElements | src/cache.rs:151-168 | Sorting and removing repeats keeps exactly the set |
| AnalysisProfile.SameEncodingSameTokenizer | src/cache.rs:196-204 | Known encodings share a profile entry if and only if they name the same tokenizer |
| AnalysisProfile.TokenizerByName | src/cache.rs:198-204 | A tokenizer is known by two names, however they are capitalized; any other encoding keeps its own name in lower case |
| AnalysisCache.Cache.OpenAt | src/cache.rs:228-248 | Only a readable, small enough file of the same key is loaded, and without a directory the cache is off |
| AnalysisCache.Cache.Get | src/cache.rs:250-271 | A hit needs an equal hash, is carried forward, and hit or miss is counted once |
| AnalysisCache.Cache.Put | src/cache.rs:277-305 | An entry replaces the one of its path |
| AnalysisCache.Cache.RecordEnrichment | src/cache.rs:365-369 | An enrichment is counted when the cache is on |
| AnalysisCache.Cache.Save | src/cache.rs:313-338 | Pruning keeps exactly the seen entries, otherwise they overlay the loaded ones; a refused or failed write leaves the disk alone |
| AnalysisCache.LoadedSound | src/cache.rs:476-491 | What is loaded from a sound disk is sound for the analysis its key stands for |
| AnalysisCache.WrittenDiskSound | src/cache.rs:325-337 | Writing sound entries under their key keeps the disk sound |
| AnalysisCache.FoundMatches | src/cache.rs:256-261 | Short of a collision, an entry found under a content's hash describes that content |
| AnalysisCache.EnrichCachedFacts | src/scan/file_analysis.rs:679-736 | Enrichment adds what is asked for and missing and nothing else, says whether it did, and the facts handed on, duplication flag included, equal those of a full analysis |
| AnalysisCache.HintTellsTheArtifact | src/metrics/classify.rs:52-120 | A cached skip hint tells whether the file is a duplication artifact exactly as classifying it again would |
| AnalysisCache.AnalysisTells | src/scan/file_analysis.rs:740-853 | Exactly the detected files are analyzed; hints and the duplication flag follow the classification, outlines and definitions come with whatever needs them, and every other fact exactly where it is asked for |
| AnalysisCache.AnswersSoundly | src/scan/file_analysis.rs:582-677 | From sound entries the answer of a scan is that of an analysis without a cache, and what it leaves is sound again |
| AnalysisCache.AnswersForOtherIffSameFacts | src/scan/file_analysis.rs:582-736 | An entry of one analysis answers for another, alike but for the measured facts, if and only if the facts of the file are the same |
| AnalysisCache.AgreeingSound | src/cache.rs:476-491 | Entries sound for one analysis are sound for any that finds the same |
| AnalysisCache.AnalyzeLoadedFile | src/scan/file_analysis.rs:582-677 | A hit answers with the enriched entry, anything else with a fresh analysis; if what is loaded is sound, that is the analysis without a cache |
| CachedScan.ScanFiles | src/scan/file_analysis.rs:58-120 | A batch whose files are taken in any order reports them in file order: past the deadline, without a detected language, or analyzed, and from sound entries what an uncached batch reports; it records exactly the analyzed paths, and hits plus misses count the files read in time |
| CachedScan.SeenDetermined | src/scan/file_analysis.rs:58-90 | For distinct paths the order in which files were taken cannot show in what is left in the cache |
| CachedScan.RunScan | src/scan/file_analysis.rs:165-174 | One scan with its save: hits and misses exactly those of what was loaded, the disk unchanged but for what is saved when it fits and can be written, the seen entries over the loaded ones unless pruned; if the analysis is the one its key stands for, outcomes as without a cache and a sound disk |
| CachedScan.SavedScanHits | src/cache.rs:250-338 | From what a scan of distinct paths left, pruned or not, a scan of the same files finds exactly those with a detected language |
| CachedScan.ScanTwice | src/scan/file_analysis.rs:58-174 | After a saved scan, scanning the same files again, with any requirements, misses exactly the files without a detected language; the others are answered as without a cache if and only if both analyses measure the same facts |
| CachedScan.RunScans | src/cache.rs:228-338 | Any sequence of scoped and full scans whose analyses are those their keys stand for, with refused and failed saves: every result equals an uncached scan and the disk stays sound |
| CachedScan.MissesNothingIffLoaded | src/cache.rs:250-271 | A batch misses nothing if and only if every file read in time is stored under its hash |
| ConfiguredScan.CounterFromProfile | src/cache.rs:167-170 | Configurations of one profile use the same tokenizer |
| ConfiguredScan.EligibleFromProfile | src/cache.rs:149-165 | Configurations of one profile select the same files for health, as far as anything is measured only there |
| ConfiguredScan.ConfiguredTells | src/scan/file_analysis.rs:758-899 | What a scan makes of a file under a configuration: tokens, complexity, imports, symbols, plans and markers each exactly where the configuration and the requirements ask for them |
| ConfiguredScan.FactsIffEquallyListed | src/scan/file_analysis.rs:758-869 | Of two configurations with one profile the facts of a file agree if and only if the file is not selected for health or every marker that occurs in it is listed equally often |
| ConfiguredScan.SameRepeatsAgree | src/cache.rs:143-193 | Configurations with one profile that list every marker equally often find the same in every file |
| ConfiguredScan.AgreeIffSameRepeats | src/cache.rs:209-218 | The condition is exact wherever some selected path is searched whole |
| ConfiguredScan.NoRepeatsNoDifference | src/cache.rs:209-218 | Lists that name no marker twice meet it as soon as they share a profile |
| ConfiguredScan.ScanConfigured | src/cache.rs:228-338 | Over a cache that starts empty, scans whose configurations change report what they would report without a cache, if configurations of one profile list every marker equally often |
| ConfiguredScan.ScanUnderOther | src/scan/file_analysis.rs:582-677 | After a scan that was saved, a scan of the same files under another configuration of the same profile answers a file as without a cache if and only if it is not selected for health or every marker that occurs in it is listed equally often |
| ConfiguredScan.RepeatedMarkerIsNotInTheProfile | src/cache.rs:206-218 | A marker listed twice keeps the profile, but doubles the occurrences on a selected text that is that marker |
| PhpInclude.TakeQuoted | src/php.rs:113-139 | The scanning loop and its two replacements compute the quoted prefix of the text |
| PhpInclude.TwoPassIsOnePass | src/php.rs:131-134 | On every text the scanner can produce, the two replacements equal a one-pass unescape |
| PhpInclude.TwoPassDiffersOutsideScannedText | src/php.rs:131-134 | On other text they need not |
| PhpInclude.QuotedExactly | src/php.rs:113-139 | A value and rest are returned if and only if the text opens with a closed, non-interpolating string of that meaning |
| PhpInclude.QuotedRoundTrip | src/php.rs:113-139 | Quoting any string and appending any tail reads back the string and the tail |
| PhpInclude.DirectoryBase | src/php.rs:77-94 | The loop over nested dirname calls computes the nesting depth and the rest |
| PhpInclude.BaseRoundTrip | src/php.rs:77-94 | Any printed nesting depth is read back |
| PhpInclude.StripWrappingParentheses | src/php.rs:96-106 | Outer parentheses are stripped pair by pair |
| PhpInclude.WrapStrips | src/php.rs:96-106 | Any number of wrapping parentheses comes off and nothing else is lost |
| PhpInclude.ParseSegments | src/php.rs:66-73 | The loop concatenates the dotted segments |
| PhpInclude.SegmentsRoundTrip | src/php.rs:66-73 | Any written list of segments is read back as the concatenation of what they mean |
| PhpInclude.SegmentsSplit | src/php.rs:66-73 | Whatever is read as segments is a written list of segments of that meaning, up to white space at the end |
| PhpInclude.ParseStaticInclude | src/php.rs:59-75 | The parser computes the parsed include |
| PhpInclude.IncludeRoundTrip | src/php.rs:59-106 | Parsing inverts writing for a quoted path and for any depth and segments, with any white space and any wrapping |
| PhpInclude.IncludeExactly | src/php.rs:59-106 | An include is returned if and only if the input is, in white space and wrapping parentheses, one quoted path or a directory some levels up joined with quoted paths, of that meaning |
| PhpInclude.EveryPathCanBeWritten | src/php.rs:113-139 | Every path has such a quoted form that means it |
| Spans.UnionSize | scripts/agent-eval/accounting.py:60-66 | The sweep returns the number of positions the half-open spans cover, whatever their order and overlaps |
| Spans.SpanAdds | scripts/agent-eval/accounting.py:63-65 | A span adds exactly the positions beyond the frontier |
| Spans.CoveredIsUnion | scripts/agent-eval/accounting.py:60-66 | For spans of byte positions the count is of the plain union |
| Spans.UnderCountIffBelowSweep | scripts/agent-eval/accounting.py:61 | Positions are missed if and only if a span covers one below -1 |
| Ledger.Register | scripts/agent-eval/accounting.py:98-152 | The record of ids, agents, calls and attempts remains that of the events so far |
| Ledger.Measure | scripts/agent-eval/accounting.py:121-169 | The totals of tokens, reasoning, costs, tools and sources remain those of the events so far |
| Ledger.Record | scripts/agent-eval/accounting.py:98-189 | One event is rejected exactly when it is out of place, and otherwise every total remains that of the events so far |
| Ledger.CountRoots | scripts/agent-eval/accounting.py:192 | Counts the agents without a parent |
| Ledger.UniqueSource | scripts/agent-eval/accounting.py:195 | The sum of the union sizes counts every byte of every source snapshot once |
| Ledger.Summarize | scripts/agent-eval/accounting.py:69-210 | A ledger is accepted if and only if it is valid, and the summary holds the end status, the completeness of usage and the totals of its events |
| LedgerFacts.AgentsFormOneTree | scripts/agent-eval/accounting.py:109-192 | In an accepted ledger there is one root, every agent climbs to it, and no agent is its own ancestor |
| LedgerFacts.ShortestLedger | scripts/agent-eval/accounting.py:69-210 | For every acceptable manifest some ledger is accepted: one root agent, a verdict and an aborted end |
| LedgerFacts.EndIsLast | scripts/agent-eval/accounting.py:101-190 | The end record is the last event and the only one of its kind |
| LedgerFacts.CallsCountOnce | scripts/agent-eval/accounting.py:121-127 | Model calls, agents and event ids are counted once each |
| LedgerFacts.SummaryConserves | scripts/agent-eval/accounting.py:130-210 | Input tokens split exactly into their parts, reasoning is within output, and unique plus duplicate bytes are the bytes read |
| LedgerRecords.ValidIffAcceptable | scripts/agent-eval/accounting.py:69-194 | A ledger is valid if and only if it is acceptable record by record: every text, hash, status, token split and cost in its bounds, every agent registered once and before it acts, every call and event id once, inventories without repeats, nothing after the end, one verdict, one root, and no success without a passed verdict and a call |
| LedgerRecords.PlaceIff | scripts/agent-eval/accounting.py:98-189 | The sets and totals kept along the way decide the place of a record as a look at all records before it does |
| LedgerRecords.CallAdds | scripts/agent-eval/accounting.py:121-155 | A call adds each of its token counts, its reasoning and its cost in its own currency, and nothing to tools and sources |
| LedgerRecords.OtherAdds | scripts/agent-eval/accounting.py:156-174 | No other record adds tokens or costs; a tool adds its bytes, a source read the length of its span |
| LedgerRecords.CountedSets | scripts/agent-eval/accounting.py:114-169 | Counted are the attempts of any acting record, the currencies of costs, and the source bytes some read covers |
| ReadBudgets.ReadBudget.constructor | src/fs_budget.rs:33-46 | Limits below one count as one |
| ReadBudgets.ReadBudget.Consume | src/fs_budget.rs:61-64 | Charging saturates at zero |
| ReadBudgets.ReadBudget.ReadFromRoot | src/fs_budget.rs:191-253 | Outcome and charge of an attempt, also when the file is longer than it claimed; the next rows say which |
| ReadBudgets.OneAttempt | src/fs_budget.rs:191-253 | A returned content is within both limits and charged in full; a read takes at most one byte more than is left |
| ReadBudgets.AnswerOfAttempt | src/fs_budget.rs:191-253 | Each answer by the facts of the attempt alone: content, past the deadline, no regular file, budget exceeded and oversized, each exactly when; only the limit for one file makes a file oversized |
| ReadBudgets.ChargeOfAttempt | src/fs_budget.rs:225-235 | Charged is exactly a read that completes: one file, and the bytes taken, one beyond the limit at most |
| ReadBudgets.ReadsStayWithinBudget | src/fs_budget.rs:191-253 | Over any sequence of reads, whatever the files do, returned bytes and files never exceed the budget, and completed reads take at most one byte too many |
| ReadBudgets.AllReadIffTheyFit | src/fs_budget.rs:191-253 | Files that hold still are all read if and only if some budget is left before each and each fits |

## Left out

- `src/daemon.rs`: HTTP routing, tokens, host and origin checks, timestamps and error texts of events, JSON encoding of an event (taken never to fail); aborting the scan task on exit appears as a run that ends there.
- Liveness of the daemon is stated as a bound on the scan task's own steps; that the task is scheduled and that a scan returns is assumed.
- `src/git.rs`: libgit2, native Git and similarity detection are an oracle of commits, events and deltas; diff computation and the JSON files and size limits of the churn cache are not modelled.
- Paths that are not valid Unicode: path lengths are counted in the bytes of the UTF-8 form.
- A path that turns from a file into a link or back is one retyped path of its commit; libgit2 may show it as a deletion and an addition. That detection pairs only regular files that went with regular files that came, and answers the same each time, is the contract of the object database.
- Formatting of commit times; the churn keeps seconds.
- Revisions, distances, fan counts, commit counters and ledger totals are unbounded; their overflow is not modelled.
- Floating point: metrics of findings are reals and scores of candidates their rank under the total order, so NaN and rounding do not appear.
- Findings.Compare: takes the path order as a parameter, because the code compares paths component by component; elsewhere paths are the string keys the code sorts.
- `src/graph.rs`: extraction with tree-sitter, the language resolvers, strongly connected components, orphans and diagnostics; resolved imports are the input.
- `src/context.rs`: scoring weights, reasons, evidence and outline rendering; priority, score, tokens and path of a candidate are given.
- `src/work_scope.rs`: context, impact and coverage projections, which copy counters.
- `src/cache.rs`: clearing caches, cache locations, the JSON form of the key and of the entries; keys are taken to be injective in the profile and hashes not to collide among the contents that occur.
- `src/metrics/markers.rs`: the text is a sequence of characters, so positions count characters where the code counts bytes; lines and columns are the same. Normalizing the white space of a line and hashing it is one given function, and the comments of a syntax tree are given ranges.
- `src/scan/file_analysis.rs`: what each extractor finds is given, including that counting symbols with and without outlines agrees; files of a parallel batch are taken one after another in any order, so two lookups do not overlap.
- `scripts/agent-eval/accounting.py`: JSON types; a field of a wrong type or a missing field is represented by an invalid value, and every kind of failure is one rejection. Latencies, context events and the texts of the summary are copied through and not modelled; costs are exact reals, without the precision limit of Decimal.
- Ledger.Record: why an event was rejected; all kinds of failure are one rejection.
- `src/fs_budget.rs`: opening below a root, symbolic links, atomic writes, and `read_text`, which bounds its bytes by a different check; a read that fails half way is not charged, as in the code.
- `src/cli.rs`, `src/main.rs`, `src/config.rs`, `src/fail_gate.rs`, `src/change_summary.rs`, `src/snapshot.rs`, `src/walk.rs`, `src/update.rs`, `src/scan.rs`, `src/query.rs`, the web and ESLint packages: argument handling, counters, orchestration and presentation that would add only easy members.
