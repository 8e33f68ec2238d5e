# A verified model of bees

bees is a deduplication daemon for btrfs.  This project models the parts of it that carry its hard
guarantees, in Dafny 4.11, and proves those guarantees for every input, every run and every
interleaving.  `dafny verify dfyconfig.toml` checks everything.

Code that changes things step by step keeps that form: classes with fields, methods with loops, each
proved against a specification.  Code that runs in several threads is a state machine in which each
region under a mutex is one step; the methods of the classes are proved to be exactly those steps.
The kernel, the clock, the random generator and the contents of files are parameters: a fetch is any
function that meets its contract, a random position is any index, and the data of a file is a sequence.
A check of the source that cannot fail is an `assert`; one that depends on the input is an error value
or a result that says that the source throws.

| file | what it models |
|---|---|
| `Tasks.dfy` | the task scheduler: queues, flags, workers, tasks that wait for other tasks |
| `Order.dfy` | in what order the scheduler runs what it was given |
| `Progress.dfy`, `Circles.dfy` | which pending tasks can still be started, and which calls make circles of waiting tasks |
| `NamedLocks.dfy` | the lock on an extent: one shared object per name, one owner per object |
| `Deferral.dfy`, `Deadlock.dfy` | the scheduler and the lock together: a task turned away at an extent, and when it is turned away for good |
| `Crawl.dfy`, `Cycle.dfy` | the extent crawl, the position it saves, and how many calls it takes |
| `Seeker.dfy`, `TreeSearch.dfy` | the backward search and the tree searches built on it |
| `Crc64.dfy`, `Polynomial.dfy` | the slice-by-8 CRC64, and polynomials over two elements |
| `HashTable.dfy` | the buckets of the hash table |
| `Planner.dfy` | the plan for an extent: trimmed matches, copies, and what they cost |
| `RangePair.dfy` | growing a pair of matching ranges |
| `ExtentWalker.dfy` | the extent list of a file |
| `CrawlText.dfy` | the crawl state file |
| `Address.dfy` | block addresses and the search for a block through another reference |
| `Common.dfy` | what the modules share: options, ranges, 64-bit bounds |

Results that differ from what the code or its comments suggest, each with an input and the exact
condition:

- A pending task is not always started: tasks that wait for each other in a circle, none of them running,
  never start, whatever the threads do.  A pending task can still be started if and only if it is in no
  such circle (`Progress.StuckNeverStarts`, `Progress.ServedIffNotStuck`).
- Being turned away at a lock can put two tasks into such a circle, in a run from the beginning
  (`Deadlock.DeferralCanDeadlock`); `Deadlock.DeferClosesIff` says exactly when.  The locks on inodes
  (src/bees-roots.cc:728), which are held while an extent's lock is tried, are of the same kind.
- `seek_backward` takes the maximum position for an empty answer.  With a key there as the target it
  promises the key in one fetch (include/crucible/seeker.h:44-46), but it always makes two or more, and it
  may return the key right before it, or 0 if there is none below (`Seeker.SeekIsWrong`).  It finds the
  floor whatever the fetches return if and only if some key is below and none right before
  (`Seeker.SeekBackward`).
- `BtrfsTreeFetcher::next` starts over at the first item when it is called with 2^64 - 1 and a scale of 1,
  because the sum of position and 1 wraps around; `next` and `prev` miss an item at the last scaled
  position (`TreeSearch.Next`, `TreeSearch.Prev`, each with the exact condition).
- `BtrfsIoctlSearchKey::next_min` with one argument starts over at the first key when it is called with
  the last one; its check looks at the wrong variable (`TreeSearch.NextAnyIsExactBelowLast`).  Nothing in
  the repository calls this form: the calls at lib/btrfs-tree.cc:365 and src/bees-roots.cc:2178 give a type.
- Trimming overlapping matches can lose bytes that no remaining match covers, even where no match as it was
  found would cut them off (`Planner.TrimLosesBytes`); `Planner.LostIff` says exactly which bytes.
- The distance inside a compressed extent is converted to a 32-bit `int` before it is checked
  (`Address.OffsetFolds`, `Address.OffsetRoundTripIff`).  No compressed extent of btrfs is 4 GiB long, so
  this is an input of the constructor only.
- The comment at src/bees-hash.cc:592-593 says that a pair that is found is not moved; the code moves it,
  and so does the model.

## Model

| member | source | states |
|---|---|---|
| Tasks.StepKeepsInv | lib/task.cc:236-447 | every step of every thread (create, run, idle, append, insert, pop, start and end of exec, worker exit, destruction) keeps: no task is in two queues or twice in one, no task runs in two workers, m_run_now is set exactly for tasks with a pending execution, m_is_running exactly for those a worker runs, and rescue wrappers are never requested |
| Tasks.RunKeepsInv | lib/task.cc:236-447 | the same for every finite interleaving from any state that satisfies it |
| Tasks.OneAtATime | lib/task.cc:356-402 | in every interleaving from an empty scheduler, two workers never run one task, and the pending execution of a task is in at most one place and at one index |
| Tasks.FlagIsToken | lib/task.cc:417-447 | in every reachable state m_run_now holds if and only if some queue, some worker that has popped it or its run-again note holds the task, and m_is_running if and only if some worker runs it |
| Tasks.RequestFate | lib/task.cc:327-447 | after any step a task is requested if and only if it was and this step did not start it, or this step requested it; a start needs a request and makes the task run |
| Tasks.StartsAreRequested | lib/task.cc:356-447 | over any run, starts of a task plus a request left at the end never exceed the requests made plus one left at the beginning |
| Tasks.NeverLost | lib/task.cc:236-278 | over any run after a request, the task stays pending in some place until its function is started: no queue move, wrapper, worker exit or destruction loses it |
| Tasks.RequestServed | lib/task.cc:327-447 | the same for a request made in any reachable state, through run, idle, append or insert |
| Tasks.RescueKeepsTokens | lib/task.cc:236-268 | rescue_queue empties the queue, changes no flag, keeps every pending execution, and adds one only for the wrapper it may create |
| Tasks.ExecEndKeepsInv | lib/task.cc:383-402 | the end of exec keeps the invariant: the run-again note moves to the idle or post-exec queue, and the post-exec queue to the worker |
| Tasks.SortByIdSorts | lib/task.cc:243-252 | the sort of the local queue is a permutation in ascending order of m_id |
| Tasks.TaskMaster.CreateTask | lib/task.cc:280-289 | a new task has a new id and is the step Create |
| Tasks.TaskMaster.RunTask | lib/task.cc:417-431 | the locked region of run is the step Run |
| Tasks.TaskMaster.IdleTask | lib/task.cc:433-447 | the locked region of idle is the step Idle |
| Tasks.TaskMaster.Append | lib/task.cc:327-337 | append, under both locks, is the step Append |
| Tasks.TaskMaster.Insert | lib/task.cc:339-354 | insert, under both locks, is the step Insert; it refuses a task that follows itself |
| Tasks.TaskMaster.RescueQueue | lib/task.cc:236-268 | rescue_queue computes the specification: to the worker's queue, sorted on request, or one task to the global queue, or a wrapper with the rest |
| Tasks.TaskMaster.PopNext | lib/task.cc:884-903 | one turn of the worker loop takes from the local, then the global, then the idle queue, or finds nothing |
| Tasks.TaskMaster.BeginExec | lib/task.cc:362-369 | the first region of exec: a task that already runs is noted for later, else its request is consumed |
| Tasks.TaskMaster.FinishExec | lib/task.cc:383-402 | the second region of exec is the step ExecEnd |
| Tasks.TaskMaster.Exit | lib/task.cc:922-942 | a worker that leaves gives its queue back |
| Tasks.TaskMaster.DestroyTask | lib/task.cc:271-278 | the destructor rescues the post-exec queue |
| Order.ExecEndOrder | lib/task.cc:236-402 | at the end of exec what was appended, and the task itself if it is to run again, goes in front of the worker's own queue, in order; the whole queue becomes an ascending permutation if insert asked for it; an idle task goes to the end of the idle queue; nothing else moves |
| Order.DestroyOrder | lib/task.cc:271-278 | a task destroyed in a worker leaves its queue to that worker in the same way |
| Order.DestroyElsewhere | lib/task.cc:253-268 | without a worker, one task goes to the head of the global queue; of several, a new wrapper goes there that keeps them in order, and the sort flag |
| Order.ExitOrder | lib/task.cc:922-942 | a worker that leaves gives its queue to the head of the global queue in the same way, unsorted |
| Order.PopOrder | lib/task.cc:891-903 | a worker takes the first of its own queue, then of the global one, and an idle task only if both are empty |
| Order.RequestOrder | lib/task.cc:417-447 | run and idle put a task that neither waits nor runs at the end of the queue asked for, note one that runs, and leave one that waits where it is |
| Order.AppendOrder | lib/task.cc:327-354 | append and insert put the task at the end of the parent's queue; insert takes along what follows the task and asks for a sort |
| Order.RepeatOrder | lib/task.cc:327-354 | a request that is repeated, and an insert after itself, move nothing |
| Order.NoOvertaking | lib/task.cc:236-447 | no step takes a task out of the global queue before those in front of it, or changes their order |
| Order.FirstInFirstOut | lib/task.cc:236-447 | over any run, as long as a task is in the global queue, whatever was behind it still is |
| Progress.StuckStays | lib/task.cc:236-447 | a set of tasks each of which waits in the post-exec queue of a member that is not running stays so, whatever any thread does |
| Progress.StuckNeverStarts | lib/task.cc:356-402 | over any run, no member of such a set is ever started |
| Progress.MutualAppendIsStuck | lib/task.cc:327-337 | any two idle tasks appended to each other, or one to itself, are such a set |
| Progress.RunToRest | lib/task.cc:884-918 | with one worker, and no new requests, any state runs in finitely many steps to one where every pending task waits in some post-exec queue |
| Progress.CanStart | lib/task.cc:884-918 | a requested task in no such set has a run, without new requests, that starts it |
| Progress.RestServesAll | lib/task.cc:884-918 | every run without new requests that comes to rest, however it goes, has started every requested task that was in no such set |
| Progress.QuietRunIsBounded | lib/task.cc:884-918 | every run without new requests is bounded in length, by the workers it starts and the tasks and workers there are at its beginning |
| Progress.ServedIffNotStuck | lib/task.cc:327-447 | a requested task has a run that starts it if and only if it is in no such set |
| Circles.AppendClosesIff | lib/task.cc:327-337 | an append of a task that is not requested makes a circle if and only if the parent is not running and waits already for the task, directly or through others, or in a circle |
| Circles.InsertClosesIff | lib/task.cc:339-354 | an insert does if and only if the parent is not running and waits already for the task or for one that waits for it, because those move along, or in a circle |
| Circles.InsertAfterWaiter | lib/task.cc:339-354 | a task inserted after one that waits for it, and is not running, is in a circle |
| Circles.NewCircleHasAdded | lib/task.cc:327-354 | no other circle is made: a new one has a task that was added |
| Circles.RepeatClosesNone | lib/task.cc:327-337 | a request that is repeated makes none |
| NamedLocks.StepKeepsInv | include/crucible/namedptr.h:84-191 | every step keeps: a live Value is named by the map or about to be inserted by the one thread that created it under the key lock, key locks match the threads that hold them, each scanning thread is the owner its Exclusion knows |
| NamedLocks.OneObjectPerName | include/crucible/namedptr.h:128-191 | in every interleaving at most one live object exists per name |
| NamedLocks.MutualExclusion | src/bees-context.cc:935-950 | in every interleaving no two threads are inside the scan of the same extent |
| NamedLocks.AssertNeverFails | include/crucible/namedptr.h:167-185 | the assert that the slot is empty or expired holds in every interleaving |
| NamedLocks.LiveNameIsKept | include/crucible/namedptr.h:84-103 | no step of any thread, a dead Value's destructor included, takes a live object's entry out of the map or replaces it |
| NamedLocks.LookupSharesObject | include/crucible/namedptr.h:105-144 | whoever asks for a name in use gets a pointer to the object in use, or waits for the key lock that the maker of that very object still has |
| NamedLocks.OneNameOneObject | include/crucible/namedptr.h:128-191 | in every interleaving, threads that have objects of one name have the same object |
| NamedLocks.DeferredToScanner | lib/task.cc:1012-1022 | a thread that asks for an extent while another scans it is turned away, and its task goes to the owner that scans |
| NamedLocks.TryLockKeepsOwners | lib/task.cc:1012-1027 | a new owner is made only when no scan of the object is left |
| NamedLocks.GrantedIff | lib/task.cc:1012-1027 | try_lock always answers: it grants if and only if no thread scans that object or is being deferred to one that did, and defers otherwise; no other thread, pointer or name changes |
| NamedLocks.ReleasedIsGranted | lib/task.cc:1000-1010 | after a scan the next thread that asks for the extent gets it, unless one is still being deferred |
| NamedLocks.WaiterGetsObject | include/crucible/namedptr.h:146-191 | a thread whose turn it is at the key lock gets, by its own steps alone, the object that the map names: the one in use, or a new one |
| NamedLocks.LeavingForgets | include/crucible/namedptr.h:84-103 | a thread that leaves lets go of its own pointer and of nothing else |
| NamedLocks.DeadNameIsErased | include/crucible/namedptr.h:84-103 | the entry of a Value that is destroyed is gone |
| NamedLocks.ExtentLocks.LookupItem | include/crucible/namedptr.h:107-126 | a strong pointer if and only if the entry exists and has not expired; the entry stays either way |
| NamedLocks.ExtentLocks.FirstLookup | include/crucible/namedptr.h:128-144 | the first lookup is the step Lookup |
| NamedLocks.ExtentLocks.TryLockKey | include/crucible/lockset.h:112-122 | a key is locked if and only if no one has it |
| NamedLocks.ExtentLocks.SecondLookup | include/crucible/namedptr.h:150-159 | the second lookup, under the key lock, is the step LookAgain |
| NamedLocks.ExtentLocks.MakeValue | include/crucible/namedptr.h:161-162 | the new Value is not in the map and has one pointer |
| NamedLocks.ExtentLocks.InsertValue | include/crucible/namedptr.h:167-188 | the insertion, with its assert proved, is the step Insert |
| NamedLocks.ExtentLocks.ReleaseKey | include/crucible/lockset.h:137-145 | the key that is released was locked, as the check demands |
| NamedLocks.ExtentLocks.TryOwn | lib/task.cc:1012-1027 | try_lock grants ownership or defers, as the step TryLock |
| NamedLocks.ExtentLocks.DestroyValue | include/crucible/namedptr.h:84-103 | the destructor erases the entry only if it has expired |
| Deferral.StepKeepsInv | lib/task.cc:1012-1027 | every step of scheduler and locks together keeps: who has or wants an extent is inside a task, the owner of an extent holds the task that scans it, and the task a thread is deferred to exists and is not its own |
| Deferral.DeferredToTask | lib/task.cc:1012-1022 | a worker that asks for an extent another worker scans is deferred to that worker's task, which is another task than its own |
| Deferral.DeferralSucceeds | lib/task.cc:339-354 | in every interleaving, the insertion that a deferred worker makes never throws, even if the owner has let go meanwhile |
| Deferral.TurnedAwayIsPending | lib/task.cc:1012-1027 | in every interleaving, a task turned away at an extent is pending from then on until it is started again |
| Deferral.QueuedAfterOwner | lib/task.cc:339-354 | unless it was requested already, it is in the post-exec queue of the task that had the extent |
| Deadlock.DeferClosesIff | lib/task.cc:1012-1022 | a deferral makes a circle if and only if the task that had the extent has ended its execution and waits already for this task, directly or through others, or in a circle |
| Deadlock.NeverAgain | lib/task.cc:356-402 | a task in a circle is never started again, whatever scheduler and locks do |
| Deadlock.DeferralCanDeadlock | lib/task.cc:1012-1027 | there is a run from the beginning in which two tasks turn each other away and the second deferral makes a circle, so that the task is never started again in any continuation |
| Crawl.ProgressTracker.NewHold | include/crucible/progress.h:99-114 | a new hold is added, begin becomes the least state held, end never moves back |
| Crawl.ProgressTracker.DropHold | include/crucible/progress.h:116-130 | the hold is found and removed; begin becomes the least state still held, or end |
| Crawl.HeadIsBegin | include/crucible/progress.h:99-130 | the head of the ordered set is the least state of the holds that exist |
| Crawl.SkipPassesOnlySmall | src/bees-roots.cc:1116-1176 | for any extents that do not overlap, everything between the old position and the one the skip lands on is shorter than the tier's minimum, wrap-around included |
| Crawl.StepKeepsInv | src/bees-roots.cc:1029-1217 | every step (start, fetch, discard, skip, queue, restart, return, tasks finishing in any order) keeps: each wanted extent that is not finished is ahead of the end, or in a later cycle, or held by its task or by the call that looks at it |
| Crawl.BeginIsSafe | src/bees-roots.cc:1029-1217 | under that invariant the first state in progress still wants every extent that is not finished |
| Crawl.CheckpointIsSafe | src/bees-roots.cc:1029-1217 | at every point of every run, each extent the crawl had to scan is finished or wanted by a crawl that resumes at the saved position |
| Crawl.CrashesLoseNothing | src/bees-roots.cc:1029-1217 | the same after any number of crashes, each followed by a run that resumes at the saved position |
| Crawl.BeginBehindTasks | include/crucible/progress.h:99-130 | at every point of every run, for every queued extent that is not finished, the saved position is in the cycle that wants the extent and at or before its bytenr, or in an earlier cycle than its task's hold |
| Crawl.CyclesComplete | src/bees-roots.cc:2364-2391 | cycles chain without a gap: in a later cycle with no work in progress, every wanted extent up to its min_transid is finished |
| Crawl.RestartKeepsTracker | src/bees-roots.cc:2364-2391 | a restart moves the end to the start of the cycle whose min_transid is the old max_transid, after every state held |
| Crawl.PositionAdvances | src/bees-roots.cc:1073-1087 | each fetch moves the end strictly past the current position, and no later turn goes back |
| Crawl.SizeTier.RestartCrawl | src/bees-roots.cc:2364-2391 | up to date means deferred, else a new cycle; both are steps of the machine |
| Crawl.SizeTier.SetState | src/bees-roots.cc:2546-2551 | a hold dropped at once moves only the end |
| Crawl.SizeTier.Pass | src/bees-roots.cc:1106-1188 | an extent that is not wanted is discarded or skipped past, as a step of the machine |
| Crawl.SizeTier.Queue | src/bees-roots.cc:1191-1209 | a wanted extent gets a hold of its own before the call's holds are dropped |
| Crawl.SizeTier.FindNextExtent | src/bees-roots.cc:1029-1217 | a call that is not deferred queues exactly the first extent that the rest of the cycle has to scan, under a hold at its bytenr, and moves the end to its end; if there is none it defers, when up to date, or begins the next cycle, and queues nothing; the loop ends, its position checks hold, and every call is a run of the machine's steps |
| Crawl.SizeTier.Look | src/bees-roots.cc:1048-1209 | one turn of the loop ends the call so, or passes an extent without passing any that has to be scanned |
| Crawl.SizeTier.EndCycle | src/bees-roots.cc:1060-1070 | without an extent left the crawl waits, or is at the start of the next cycle |
| Crawl.PassedIsUnwanted | src/bees-roots.cc:1073-1188 | going on after an extent that is not taken, or skipping, passes no extent that the cycle has to scan |
| Crawl.SkipLandsBefore | src/bees-roots.cc:1134-1176 | a skip never lands past an extent of the tier |
| Cycle.CycleIsQueued | src/bees-roots.cc:1029-1217 | as many calls as the cycle has extents left to scan queue every one of them, while tasks finish in between |
| Cycle.CycleEnds | src/bees-roots.cc:2364-2391 | one call more ends the cycle: the crawl is up to date and waits, or begins the cycle from the old max_transid to the new one |
| Cycle.WantedIsQueued | src/bees-roots.cc:1029-1217 | twice as many calls as there are extents, and one, queue every extent that the crawl still has to scan and whose generation is not in the future |
| Cycle.FinishingSettles | src/bees-roots.cc:1029-1217 | tasks that finish between calls move neither the end nor the deferral, and lose no queued extent |
| Seeker.SeekBackward | include/crucible/seeker.h:41-154 | for every finite key set and any fetch that returns a nonempty prefix of the keys at or above the probe: the result is the highest key at or below the target, or the minimum, unless the target is the maximum position and a key; then it is so for every fetch if some key is below and none right before, and otherwise it is wrong for every fetch of one key at a time; no check throws; at most min(2(W+1), max_loops) fetches; with that many loops it ends if and only if min_step is at least 1, or the target is 0 or a key below the maximum; one fetch if the target is a key below the maximum, at least two at the maximum |
| Seeker.SeekIsWrong | include/crucible/seeker.h:79-86 | wherever that condition fails, the fetch of the next key alone is legal and gives a wrong answer |
| Seeker.LookLower | include/crucible/seeker.h:87-105 | without a lower bound the seek ends at the beginning of the key space, when no key is below the target, or moves the probe |
| Seeker.Advance | include/crucible/seeker.h:75-149 | one turn ends with the floor, or with a mistake at the maximum position, or keeps the search invariant with one fetch more |
| Seeker.Widen | include/crucible/seeker.h:94-104 | the distance to the target doubles until the beginning is reached |
| Seeker.LowFound | include/crucible/seeker.h:79-86 | the fetch that ends the doubling leaves a bracket that W more fetches close |
| Seeker.BisectStep | include/crucible/seeker.h:123-149 | a fetch from the middle halves the bracket, whichever side it lands on, within the loop budget |
| Seeker.Narrow | include/crucible/seeker.h:107-149 | the result is the floor, or the key before a target at the maximum position, or a smaller bracket around it |
| Seeker.HighestAtMost | include/crucible/seeker.h:110-117 | the highest element at or below the target, from the high end |
| Seeker.PrefixIsFetchOk | include/crucible/seeker.h:26-32 | every nonempty prefix of the keys at or above the probe is a legal fetch |
| TreeSearch.NextOfTypeIsExact | lib/fs.cc:858-886 | a search from the new key sees exactly the keys of the wanted type above the reference |
| TreeSearch.SearchKey.NextMinOfType | lib/fs.cc:858-886 | the three fields become that key; it throws if and only if no key of the type is left |
| TreeSearch.SearchKey.NextMin | lib/fs.cc:838-856 | the one-argument form computes the successor with wrap-around |
| TreeSearch.NextAnyIsExactBelowLast | lib/fs.cc:838-856 | it sees exactly the keys above the reference if and only if the reference is not the last key |
| TreeSearch.NothingSkipped | lib/btrfs-tree.cc:483-491 | moving past an item that does not match passes no later match |
| TreeSearch.LowerBound | lib/btrfs-tree.cc:475-494 | for any tree and any sizes of results, the first match at or above logical, or none if and only if there is none |
| TreeSearch.KeysMoveIff | lib/btrfs-tree.cc:435-435 | next_sk throws on an item in reach of a fetch if and only if the very last key of the type is one |
| TreeSearch.RunCollects | lib/btrfs-tree.cc:428-469 | one fetch does not throw, returns positions in order, at most upper, leaves out no match below the last one it returns, and returns some if any is at most upper |
| TreeSearch.FetchFromIsExact | lib/btrfs-tree.cc:427-427 | a fetch from a position starts at or before exactly the matches at or after it; from the last scaled position it starts after the matches there, unless they are at 2^64 - 1 |
| TreeSearch.FetchMeetsContract | lib/btrfs-tree.cc:425-470 | the fetch of rlower_bound meets the contract of the backward search |
| TreeSearch.UnscaledOrder | lib/btrfs-tree.cc:387-408 | scaling and unscaling keep the order of aligned positions |
| TreeSearch.RlowerBound | lib/btrfs-tree.cc:410-473 | for any tree with aligned keys, the last match at or below logical, or none if and only if there is none; it throws if and only if logical or the lookbehind cannot be scaled, or the step is zero and the scaled logical is neither zero nor a match below 2^64 - 1 |
| TreeSearch.Next | lib/btrfs-tree.cc:496-505 | the first match above logical, or none if and only if there is none; wrong if and only if that match is at the last scaled position and not at 2^64 - 1, or the scale is 1, logical is 2^64 - 1 and there is any match |
| TreeSearch.Prev | lib/btrfs-tree.cc:507-516 | the last match below logical, or none if and only if there is none; wrong if and only if logical is 2^64 - 1 and a match is at the last scaled position and not at 2^64 - 1; it throws if and only if logical cannot be scaled or the search below it throws |
| Crc64.Digest.Crc64 | lib/crc64.cc:68-103 | for every byte string and every start alignment the result is the remainder of bit-by-bit division by the polynomial |
| Crc64.Digest.InitTable | lib/crc64.cc:38-66 | the generated tables are eight steps of the division per row |
| Crc64.Digest.NestTable | lib/crc64.cc:56-63 | each nested column follows from the first row |
| Crc64.Digest.PushByte | lib/crc64.cc:75-79 | one table lookup is eight steps of the division |
| Crc64.Digest.PushWord | lib/crc64.cc:81-94 | eight table lookups are 64 steps of the division |
| Crc64.ByteUpdate | lib/crc64.cc:77-77 | the byte update divides by the byte's bits |
| Crc64.WordUpdate | lib/crc64.cc:83-91 | the sliced update divides by the word's bits |
| Crc64.NextTable | lib/crc64.cc:59-62 | a row is the row before and a byte of zeros |
| Crc64.CrcLinear | lib/crc64.cc:68-103 | the division is linear over xor of messages of one length |
| Crc64.CrcOfXor | lib/crc64.cc:68-103 | the checksum of the xor of two byte strings of one length is the xor of their checksums |
| Crc64.ZeroData | src/bees-types.cc:933-940 | all-zero data of any length hashes to zero |
| Crc64.BurstDetected | lib/crc64.cc:68-103 | any change inside at most eight consecutive bytes, in a message of any length, changes the checksum |
| Crc64.MessageInjective | lib/crc64.cc:68-103 | different bytes are different messages |
| Polynomial.DivisionIsExact | lib/crc64.cc:68-103 | the message times x^64 is the quotient times x^64 + x^4 + x^3 + x + 1 plus the register, over two elements |
| Polynomial.RemainderIsUnique | lib/crc64.cc:68-103 | any polynomial of degree below 64 that, with any quotient, adds up to the message times x^64 is the register |
| Polynomial.StepDivides | lib/crc64.cc:44-52 | one step of the register takes the polynomial away if the top coefficient is set |
| HashTable.ApplyRefinesSet | src/bees-hash.cc:494-683 | a bucket behaves as a set of pairs: lookup changes nothing, erase removes the pair, a push adds it and loses only the last cell, and that only if the pair is absent and the bucket full |
| HashTable.PushKeepsOthers | src/bees-hash.cc:541-683 | a push stores the pair and keeps the other pairs in their order |
| HashTable.EraseKeepsOthers | src/bees-hash.cc:511-533 | erasing leaves the other pairs in their order |
| HashTable.ApplyKeepsNoDup | src/bees-hash.cc:494-683 | every operation keeps a bucket without duplicates so |
| HashTable.RunKeepsNoDup | src/bees-hash.cc:494-683 | and so does every sequence of operations |
| HashTable.ApplyMovesOneBack | src/bees-hash.cc:541-683 | no operation other than its own erase moves a pair back by more than one cell |
| HashTable.SurvivesAfterFront | src/bees-hash.cc:541-587 | a pair pushed to the front survives any next operations fewer than the cells of the bucket (255 of 256) other than its own erase |
| HashTable.ClearToxicNoDup | src/bees-hash.cc:456-479 | clearing toxic bits on load keeps the cells without duplicates |
| HashTable.ClearToxicKeepsPair | src/bees-hash.cc:456-479 | and keeps every pair up to its toxic bit |
| HashTable.ClearToxicAddsNothing | src/bees-hash.cc:456-479 | and adds no pair and leaves none toxic |
| HashTable.MatchesAre | src/bees-hash.cc:494-506 | a lookup returns a cell if and only if it is in the bucket, has the hash and an address of at least 0x1000 |
| HashTable.LookupAnswers | src/bees-hash.cc:494-506 | what a lookup returns is what the set of pairs answers |
| HashTable.EventRefinesSet | src/bees-hash.cc:456-683 | every operation, and the clearing of toxic bits on load, is a step of the set of pairs |
| HashTable.LifetimeRefinesSet | src/bees-hash.cc:456-683 | every sequence of operations and loads is a run of the set, and every lookup after it answers from the set |
| HashTable.LoadIsPerBucket | src/bees-hash.cc:456-479 | in a table where each cell is in the bucket of its hash, clearing an extent does to each bucket what clearing the bucket alone does |
| HashTable.EventKeepsHome | src/bees-hash.cc:456-683 | operations and loads keep each cell in the bucket of its hash |
| HashTable.BeesHashTable.FindCell | src/bees-hash.cc:494-506 | the cells with this hash, in bucket order, which are exactly the answer of the set, and, if each cell is in the bucket of its hash, all that the whole table has |
| HashTable.BeesHashTable.BucketsSplitTable | src/bees-hash.cc:76-87 | cell i is in the bucket of a hash if and only if i / 256 is the hash modulo the number of buckets |
| HashTable.BeesHashTable.BucketsAreApart | src/bees-hash.cc:76-87 | buckets of hashes of different residues share no cell, those of equal residues are the same |
| HashTable.BeesHashTable.EveryCellHasBucket | src/bees-hash.cc:76-87 | every cell is in the bucket of some hash |
| HashTable.PartHasAll | src/bees-hash.cc:494-506 | if each cell is in the bucket of its hash, a lookup in one bucket finds what the whole table has |
| HashTable.TableLoad | src/bees-hash.cc:456-479 | loading any whole buckets of such a table does to each of them what clearing it alone does |
| HashTable.PushFrontPlace | src/bees-hash.cc:541-587 | the pair goes to the front from where it was, else into the first empty cell, else the last cell is lost; the cells in between move back by one |
| HashTable.PushRandomPlace | src/bees-hash.cc:597-683 | a pair behind the position moves up to it, one in front stays, a new one fills the first empty cell from there on, else the last one before, else goes to the position and the last cell is lost |
| HashTable.BeesHashTable.EraseHashAddr | src/bees-hash.cc:511-533 | erases in the bucket of the hash and leaves the bucket of every hash of another residue as it was, and each cell in the bucket of its hash |
| HashTable.BeesHashTable.PushFrontHashAddr | src/bees-hash.cc:541-587 | pushes to the front of the bucket of the hash, says if the pair was there, and leaves the bucket of every hash of another residue as it was, and each cell in the bucket of its hash |
| HashTable.BeesHashTable.PushRandomHashAddr | src/bees-hash.cc:597-683 | pushes at any position of the bucket, says if the pair was there, and leaves the bucket of every hash of another residue as it was, and each cell in the bucket of its hash |
| HashTable.BeesHashTable.FindEmpty | src/bees-hash.cc:597-683 | the empty cell the random push fills, or none |
| HashTable.BeesHashTable.ShiftIn | src/bees-hash.cc:541-587 | the shift loop moves the cells in between back by one |
| HashTable.BeesHashTable.ClearToxicCells | src/bees-hash.cc:456-479 | the loading loop clears in place and changes nothing else |
| Planner.TrimOverlaps | src/bees-context.cc:645-703 | the destinations kept are pairwise disjoint and nonempty, each a part of one match at the same displacement; every match overlaps one that is kept; the longest is kept whole; ends stay at blocks; a byte is in none of them if and only if every match that has it gets it cut off |
| Planner.TrimStep | src/bees-context.cc:650-697 | the conditions in their order, with the split branch and the check after it proved dead and no shrink check failing |
| Planner.SplitUnreachable | src/bees-context.cc:667-697 | what reaches the fourth condition always satisfies it, with a delta less than the size |
| Planner.KeptIsDisjoint | src/bees-context.cc:645-703 | no two ranges kept overlap |
| Planner.KeptIsPart | src/bees-types.cc:571-585 | each range kept is a part of a match, paired with the same part of its source |
| Planner.EveryMatchMeetsKept | src/bees-context.cc:645-703 | a match is dropped only where its bytes are already matched |
| Planner.PartStillMatches | src/bees-types.cc:571-585 | data that was equal before trimming is equal after it |
| Planner.TrimKeepsBytesIff | src/bees-context.cc:667-675 | trimming by one range loses bytes if and only if the other begins at or after it and ends before it |
| Planner.ByteFate | src/bees-context.cc:650-697 | a byte of a match survives the trimming, or a range kept before has it, or such a range cuts it off, and then it does not survive |
| Planner.LostIff | src/bees-context.cc:645-703 | a byte is in no range that is kept if and only if each match with it, when its turn comes, has it cut off by a range kept before that begins inside the match and ends before the byte |
| Planner.TrimLosesBytes | src/bees-context.cc:645-703 | three matches of which none cuts off a byte of another as found, and a byte that is lost all the same |
| Planner.SortIsStable | src/bees-context.cc:647-649 | the matches are sorted longest first, and those of one size stay in the order they were found |
| Planner.ShrinkBegin | src/bees-types.cc:186-192 | a part at the same displacement with the same end |
| Planner.ShrinkEnd | src/bees-types.cc:194-202 | both ends move by delta, which may be as large as the source's checks admit; a part at the same displacement with the same begin if delta is less than the size |
| Planner.MarkDeduped | src/bees-context.cc:705-716 | the dedupe set is the blocks of the matches, the zero set loses them, the bytes are their sizes |
| Planner.CopyRest | src/bees-context.cc:718-752 | the copies ascend, do not touch each other and hold exactly the bytes no match has, so they are as few as can be; the bytes zeroed are those of the zero blocks |
| Planner.MakePlan | src/bees-context.cc:705-781 | matches and copies split the extent exactly; the bytes zeroed are those in zero blocks that no match has, and never more than are copied; the plan is refused if and only if the caller says so, or it writes more than half of the extent as new data, or takes more than 100 operations |
| Planner.PlanExtent | src/bees-context.cc:645-781 | the same from the untrimmed matches on, with the exact decision and the exact bytes |
| Planner.BytesAreSum | src/bees-context.cc:705-716 | disjoint ranges hold as many bytes as their sizes add up to |
| RangePair.BeesRangePair.Grow | src/bees-types.cc:328-565 | it refuses exactly unaligned or overlapping pairs; else the ranges end equally long, apart, around the old ones at the same distance, with equal data, the destination inside its extent; and on each side there is what stops it: 256 MiB, an end of the extent or of a file, a byte that differs, one that both would have, or what is asked about the block |
| RangePair.StoppedBackIff | src/bees-types.cc:360-448 | a turn backward is taken if and only if none of these stops it |
| RangePair.StoppedForwardIff | src/bees-types.cc:458-553 | and so forward, where the files may also end at different places in the next block |
| RangePair.BeesRangePair.TryBack | src/bees-types.cc:360-448 | one turn backward, with its size check proved |
| RangePair.BeesRangePair.TryForward | src/bees-types.cc:458-553 | one turn forward, with its size check proved |
| RangePair.ForwardKeepsSizes | src/bees-types.cc:490-498 | ends equally misaligned grow equally, at an end of file inside a block too |
| RangePair.BackKeepsPair | src/bees-types.cc:381-445 | a step backward keeps the pair aligned, equally long and inside the extent |
| RangePair.ForwardKeepsPair | src/bees-types.cc:474-551 | a step forward keeps the pair equally long and inside the extent |
| RangePair.OverlapsIsSharing | src/bees-types.cc:236-257 | overlaps is true if and only if the ranges share a byte of one file |
| ExtentWalker.FillHoles | lib/extentwalker.cc:315-387 | the list is contiguous and nonempty, its members that are not holes are the originals in order, the last one cut at the file size, the final member alone has the last flag, if the last original had it, it reaches the end of the file if the map does, and no check fails |
| ExtentWalker.CompleteEnds | lib/extentwalker.cc:331-371 | the list ends at the end of the file if the map is empty, has an extent that reaches it or one marked as the last, and else where the map ends |
| ExtentWalker.HolesAreGaps | lib/extentwalker.cc:331-343 | a position is in a hole if and only if no original has it |
| ExtentWalker.FinishList | lib/extentwalker.cc:345-371 | the trailing hole takes the last flag, or the last extent is cut |
| ExtentWalker.Walker.Refill | lib/extentwalker.cc:315-387 | the complete list replaces the cache; it is the whole file if the map starts at 0 and reaches the end |
| ExtentWalker.Walker.FindInCache | lib/extentwalker.cc:142-174 | it finds the one extent that has the position if its neighbours are known too, the last one for a position past the end of a cached end, and nothing only if there is no such extent; with the whole file cached it always finds one |
| ExtentWalker.EveryPositionIsCached | lib/extentwalker.cc:142-174 | every position of a contiguous list is in one of its extents |
| CrawlText.Split | lib/string.cc:22-42 | the loop computes the pieces, and refuses an empty delimiter |
| CrawlText.PiecesMean | lib/string.cc:22-42 | for a delimiter of one character, no piece is empty or has the delimiter, and together they are the text without it |
| CrawlText.DecimalReads | lib/string.cc:16-20 | from_hex undoes decimal printing for all 64-bit values, zero included |
| CrawlText.SignedDecimalReads | src/bees-roots.cc:1938-1940 | and for signed times, through the unsigned map |
| CrawlText.HexReads | lib/string.cc:10-20 | from_hex undoes to_hex for all 64-bit values |
| CrawlText.DecimalTooBig | lib/string.cc:16-20 | a number that does not fit in 64 bits is refused as out of range |
| CrawlText.NotANumber | lib/string.cc:16-20 | what does not begin as a number is refused |
| CrawlText.FormatTimeReads | src/bees-roots.cc:57-64 | every time that format_time prints, for any year an int holds and whatever width the library pads it to, is one word that is read without error |
| CrawlText.FormatTimeIsYear | src/bees-roots.cc:57-64 | it is read as its year, if that is after the year 0 and not padded |
| CrawlText.LineRoundTrip | src/bees-roots.cc:1493-1500 | a printed line loads as its state, transids that were never set repaired |
| CrawlText.FileRoundTrip | src/bees-roots.cc:1910-1954 | loading what was saved, with the times that format_time prints in any time zone, gives back every crawl with a nonzero max_transid, in order and without error |
| CrawlText.MapRoundTrip | src/bees-roots.cc:1841-1854 | saving the crawl map and loading it into an empty one gives back exactly those crawls, each under its root |
| CrawlText.FirstLineCounts | src/bees-roots.cc:1841-1854 | whatever the file holds, a crawl that exists stays as it is, and for another root its first line counts |
| CrawlText.RestoredUnchangedIff | src/bees-roots.cc:1940-1950 | an entry comes back unchanged if and only if neither transid is the 64-bit maximum; no transid is afterwards, and a range that was never set is empty |
| CrawlText.OldNamesLoad | src/bees-roots.cc:1932-1940 | the old names of the transids load in the same way, and a missing start time is now |
| CrawlText.StateToStream | src/bees-roots.cc:1488-1504 | the printing loop writes exactly those lines |
| CrawlText.LoadWords | src/bees-roots.cc:1920-1931 | the pairing loop, with its errors for an odd word, a bad number and a repeated key |
| CrawlText.PairsReadIff | src/bees-roots.cc:1920-1931 | the words of a line are read without error if and only if they come in pairs of a name and a number that can be read, and no name is repeated |
| CrawlText.PairsAreRead | src/bees-roots.cc:1920-1931 | then every name has its number, and there are no other names |
| CrawlText.BeesRoots.Insert | src/bees-roots.cc:1841-1854 | a root that has a crawl keeps it, another one gets this one |
| CrawlText.BeesRoots.StateLoad | src/bees-roots.cc:1910-1954 | the loading loop inserts the crawls of the lines in order; when it throws, those of the lines before stay |
| Address.PhysicalRoundTrip | src/bees-types.cc:682-731 | the physical address and the flags come back for every input the checks admit; the word is magic only if an uncompressed address adds up to 2^64 |
| Address.PackOkIff | src/bees-types.cc:682-731 | exactly which extents and offsets the constructor accepts |
| Address.EofIsInside | src/bees-types.cc:716-727 | the end-of-file flag is set for the block of the last extent that the end is inside of |
| Address.AdjustOffset | src/bees-resolve.cc:102-107 | an address that is not compressed keeps its position; a compressed one without an offset has none |
| Address.OffsetRoundTripIff | src/bees-types.cc:700-712 | the compressed offset comes back if and only if it is in the 128 KiB of a compressed extent |
| Address.OffsetFolds | src/bees-types.cc:703-705 | an offset of 4 GiB is accepted and reads back as zero |
| Address.OffsetChecksHold | src/bees-types.cc:706-710 | the checks after the range check never fail |
| Address.ToxicKeepsFields | src/bees-types.cc:797-802 | marking an address toxic disturbs no other field and is idempotent |
| Address.WordFields | src/bees.h:353-369 | the masks do not overlap: each field of a word can be read back whatever the others are |
| Address.AdjustFindsTheBlock | src/bees-resolve.cc:102-123 | for a distance that the constructor makes, the position found is exactly the block of the reference, less than 4 GiB into the extent, whose own address encodes the same offset |
| Address.AdjustRejectsIff | src/bees-resolve.cc:108-118 | a reference is rejected if and only if no such block of it encodes the offset |

## Left out

- `TaskMaster::cancel` and `clear_queue`: they discard work on purpose.
- The task objects are records in a map of one class, named by m_id; reference counts are modelled by when a task may be destroyed (nothing refers to it), which allows more runs than the handles of the source do.
- Tasks.StepKeepsInv: a task may be requested at any time by anyone who could hold it, and a worker may exit whenever it is between tasks; load control, pausing and thread counts are not modelled.
- Deferral.TurnedAwayIsPending: the threads that ask for extents are workers inside a task, as in the daemon; a thread without a task would be turned away and not deferred. A thread has one lock at a time, and may go on to another after it was turned away.
- NamedLocks.ExtentLocks.TryLockKey: the LockSet's limit on its size is not modelled; nothing sets one for the names.
- Seeker.SeekBackward: positions are unsigned, as the source's comment asks.
- TreeSearch.LowerBound: the override of next_sk for data extents and the transid filter of the ioctl are not modelled; each ioctl returns at least one item while any is left.
- TreeSearch.RlowerBound: the tree does not change during a search; keys are aligned to the scale, as scale_logical demands; the last key of the type is not in reach, where next_sk throws (KeysMoveIff); and if logical is at the last scaled position, no match is there below 2^64 - 1, because a search from there begins after it (FetchFromIsExact).
- Crawl.CheckpointIsSafe: extent mode only; the older modes advance the state before they hold it. Exceptions between the hold on the next position and the hold of the task are not modelled, and there the source gives the extent up on purpose.
- Crawl.CheckpointIsSafe: the first position has min_transid at most max_transid; extents do not overlap and do not change, and extents outside the transid range may or may not be seen.
- Crawl.SizeTier.FindNextExtent: throttling, statistics and the task that maps the extent are not modelled; tasks that finish during the call are steps of the machine between those of the call, and only the machine's results cover them.
- HashTable.BeesHashTable.PushFrontHashAddr: dirty flags, writeback, prefetch and the table file are not modelled.
- Planner.MakePlan: the matches lie in the extent, begin at blocks and end at a block or with the extent, as the search for matches makes them; carrying the plan out is not modelled.
- RangePair.BeesRangePair.Grow: the unconstrained form, which walks on to the next extents, is not modelled; both calls (src/bees-resolve.cc:293 and 436) are constrained. Whether two blocks are one physical block, zero or toxic is an oracle; it hides that the zero check going forward looks at the address of the start of the grown range (src/bees-types.cc:526) and not of the new block. An end inside a block is the end of one of the files.
- ExtentWalker.FillHoles: the search loop of run_fiemap is not modelled, it has a loop limit and may throw; only the final extent of the kernel's map is marked as last.
- CrawlText.PiecesMean: delimiters of several characters, which the loader does not use.
- CrawlText.FileRoundTrip: localtime is a function from times to dates whose year fits in an int; one that fails is not modelled.
- Address.AdjustFindsTheBlock: which flags make an address magic is a parameter; comparison operators of addresses are not modelled, and the less-than is not an order.
- File access, ioctls, the resolver's search for references, hashing other than CRC64, logging, statistics and option parsing.
- `MultiLocker`, `Pool`, `Barrier`, `LRUCache`, `ResourceHandle`: they would only add easier variants of the locking above.
