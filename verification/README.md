# A model of libgcore: thread pool, time-slot scheduler, event jobs

Three parts of the library, each modelled on its own and proved correct in Dafny 4.11.

## The thread pool (`threadpool/src/threadpool.c`)

`RingQueue.dfy` is the ring buffer with its three indices. `PoolState.dfy` holds what the threads share, what each
critical section does to it, and the class `ThreadPool` with the arrays of the C structure and the code that runs on
them under the lock. `PoolProtocol.dfy` is the whole pool as a transition system in which every access to shared state
is a step of its own: any number of workers, any number of threads that call `threadpool_add`, one that calls
`threadpool_del` again and again, one that calls `threadpool_destroy`. The lock has an explicit owner, and all four
kinds of thread have a program counter. `PoolInvariant.dfy` proves the inductive invariant, `PoolRuns.dfy` what follows
for every run, `PoolCalls.dfy` what a whole call of `threadpool_add` answers and stores, `PoolShutdown.dfy` that
shutdowns terminate, `PoolCancel.dfy` whom an immediate shutdown cancels, `PoolScan.dfy` which slot `threadpool_del`
picks, `PoolDel.dfy` and `PoolDelMiss.dfy` what it aborts, and `PoolDelReturns.dfy` that it can come to its end. Thread count and queue size are arbitrary positive numbers.

Decisions of the model:

- `pthread_cond_signal` wakes at least one waiter if there is one, and waiters may wake spuriously, as in POSIX.1-2017
  (IEEE Std 1003.1), System Interfaces, `pthread_cond_signal` and `pthread_cond_wait`.
- A cancel takes effect only inside the task body; a cancel sent at any other time stays pending.
- A new worker finds its slot: its identity scan runs after the creator has recorded the thread id, and is part of the
  step from creation to the lock.
- The shutdown mode is 0, 1 or 2. For any other value the worker's test falls through to the grab with an empty queue
  (`PoolState.Decide` states both halves).
- There is one `threadpool_destroy` per pool, and `threadpool_del` does not run beside it. Calls of `threadpool_del`
  follow one another.
- A task function is a number, NULL is 0; a task body returns or is cancelled.

Where the code and its documentation differ, the code is followed. The pool's README says that one queue slot is
reserved to signal a full queue; the code uses all of them. The header calls shutdown mode 0 the default; with mode 0 the
flag stays unset and `threadpool_destroy` never returns (`PoolShutdown.DestroyReturnsIffShutdownMode`). Asked to stop one
function, `threadpool_del` can abort a task of another. If the worker it found makes no step of its own before the
cancel takes effect, the task found is the one aborted (`PoolDel.FoundTaskIsAborted`). If it does, the task found
completes and one dequeued later is aborted (`PoolDel.DelAbortsOne`). No test before the cancel can rule out that this
is a task of another function: wherever a worker is about to be cancelled inside a task body, and there is anybody to
call `threadpool_add`, some continuation ends that way (`PoolDelMiss.DelCanHitAnother`).

## The time-slot scheduler (`g_timer/g_schedule.c`, `g_timer/g_tool.c`, `g_timer/g_timer.c`)

`SlotMask.dfy` has the 64-bit `long long` as a range type in which an overflow does not verify, and bit operations on
integers. `SlotCalendar.dfy` is the plain definition: 48 half hours a day, seven days a week, an instant is active or
not. `SlotSearch.dfy` holds the shift loops, as methods of an entry of the schedule table, and the search over boolean
sequences that they refine. `SlotLaws.dfy` says what the search means, `TimerArming.dfy` how the timer is armed.

Time is UTC, and all readings of the clock in one call are one reading. The end of an interval is the start of the last
active slot of the run, as in the code and in the diagram of its comment, so a run of one slot ends where it starts, and
the announced duration can be negative (`SlotLaws.EndBeforeStartIff` says exactly when). Evaluating again at each
midnight is what the comment at `g_timer/g_schedule.c` line 81 intends; the loop that does so is the model's own.

## The event jobs (`g_schedule/ev_core.c`, `g_schedule/ev_action.c`)

`EventRules.dfy` has rules, counters and single actions, `EventJobs.dfy` the mutual recursion of `next_job` with the
action functions and the launch, `EventRuns.dfy` any interleaving of launches and of the actions of the jobs in flight,
`EventOverlap.dfy` a run that matters. An action function up to its call of `next_job` is one atomic step, and so is a
launch. Time does not go backwards, and no restart happens in a run. A time kept in a C `int` is narrowed as the code
narrows it.

Three expectations turn out not to hold, and the model says exactly when they do:

- The cooldown works for a launch at a time that fits an `int`; from 2038 on the narrowed time lies in the past and
  nothing is held back (`EventRules.CooldownWorksIff`, `EventRules.CooldownFailsIn2038`).
- The counter of recordings says how many are live, and stays right in every order in which the jobs in flight can go
  on, exactly if no more jobs are running than `RAM_MP4_MAX` (`EventRuns.StaysExactIffWithinLimit`). So it is right
  throughout a run in which never more jobs run at once (`EventRuns.ExactWhileWithinLimit`). It is never too high
  (`EventRuns.CounterIsNeverTooHigh`) but can be too low: with five jobs four recordings can be live
  (`EventOverlap.RecordingsCanExceedTheLimit`).
- A motion job never leaves the picture counter as it found it (`EventRules.MotionJobAlone`,
  `EventRules.EverySecondPictureIsLost`).

## Model

| member | source | states |
|---|---|---|
| RingQueue.PushAppends | threadpool/src/threadpool.c:148-152 | a store into a ring that is not full appends to the pending tasks and rewrites no pending cell |
| RingQueue.PopDropsOldest | threadpool/src/threadpool.c:276-281 | a grab from a non-empty ring drops exactly the oldest task |
| RingQueue.ValidInRemainders | threadpool/src/threadpool.c:137-152 | the tail is (head + count) % size and the k-th pending task is in cell (head + k) % size |
| RingQueue.RingRefinesBoundedQueue | threadpool/src/threadpool.c:137-152 | over every sequence of calls the ring behaves as a first-in first-out queue of exactly queue_size elements |
| PoolState.Decide | threadpool/src/threadpool.c:265-273 | a worker goes on to an empty queue exactly if the queue is empty and the flag is none of 0, 1, 2; with such a flag it always goes on; nobody sleeps under a set flag |
| PoolObject.ThreadPool.Create | threadpool/src/threadpool.c:53-92 | succeeds exactly within the limits; the new pool is empty, running, with every worker counted |
| PoolObject.ThreadPool.Add | threadpool/src/threadpool.c:124-159 | -1 for a NULL function, else -3 exactly with a full queue, else -4 exactly in a shutdown, else 0; success appends the task, failure changes nothing |
| PoolObject.ThreadPool.NextTask | threadpool/src/threadpool.c:265-281 | sleeps, leaves or takes the oldest pending task and notes its type against the worker |
| PoolObject.ThreadPool.FindSlot | threadpool/src/threadpool.c:100-106 | the first slot that runs the function, or the thread count |
| PoolObject.ThreadPool.BeginShutdown | threadpool/src/threadpool.c:184-191 | sets the flag once; a second time it changes nothing and leaves with the lock held |
| PoolInvariant.InitHasInv | threadpool/src/threadpool.c:60-91 | the state after creation satisfies the invariant |
| PoolInvariant.StepKeepsInv | threadpool/src/threadpool.c:97-299 | every step of every thread keeps the whole invariant |
| PoolInvariant.StepKeepsFlags | threadpool/src/threadpool.c:278-291 | thread_type, thread_busy and thread_func follow the worker of the slot at every step, del's reset included |
| PoolInvariant.StepKeepsWake | threadpool/src/threadpool.c:148-158 | store, signal, grab, sleep, wakeup, finish, del and destroy keep the wakeup invariant |
| PoolInvariant.StepKeepsCancel | threadpool/src/threadpool.c:198-205 | del's target is cancelled from the cancel to the respawn, and besides it only, in an immediate shutdown, a worker seen with a nonzero type |
| PoolInvariant.DeleterKeepsStarted | threadpool/src/threadpool.c:107-121 | cancelling and refilling a slot leaves the count of started workers right |
| PoolRuns.GlobalFifo | threadpool/src/threadpool.c:136-158 | in every run the dequeued tasks followed by the pending ones are the accepted ones in order |
| PoolRuns.Conservation | threadpool/src/threadpool.c:276-291 | every accepted copy of a task is pending, in hand, completed or aborted, and only one of these |
| PoolRuns.NoLostWakeup | threadpool/src/threadpool.c:259-291 | with no critical section in progress nobody sleeps, or every pending task has an available awake worker |
| PoolRuns.QuietMeansEmpty | threadpool/src/threadpool.c:259-291 | where nothing can happen but new calls and spurious wakeups no task is pending, every worker sleeps and every call has returned |
| PoolRuns.StartedIsExact | threadpool/src/threadpool.c:81-90 | started is the thread count less the workers that left normally |
| PoolRuns.CriticalSectionsAreSafe | threadpool/src/threadpool.c:261-284 | the grab never meets an empty queue nor the store a full one, and no two of workers, callers of add and destroy are in critical sections at once |
| PoolRuns.AddAnswersTruly | threadpool/src/threadpool.c:135-165 | outside the lock the calls that returned 0 are as many as the accepted tasks; an error about to be returned is -3 with the queue full, or -4 with a shutdown begun and the queue not full |
| PoolCalls.AddAnswersForItsTest | threadpool/src/threadpool.c:124-165 | a whole call answers -1 for NULL, and else what held at a moment in the call at which it had the lock: -3 full, -4 shutting down and not full, 0 otherwise; it stores its own task once if it answers 0, and nothing else |
| PoolCalls.OnlyCallersStore | threadpool/src/threadpool.c:148-152 | what enters the queue is the task of a call at its store, and nothing else does |
| PoolRuns.OnlyTheOwnerTouches | threadpool/src/threadpool.c:131-163 | queue, shutdown flag and started change only in a step of the lock's owner |
| PoolRuns.DestroyKeepsItsMode | threadpool/src/threadpool.c:191-213 | the mode that destroy was called with is the mode of the shutdown, in every continuation |
| PoolRuns.GracefulAbortsNothing | threadpool/src/threadpool.c:191-213 | from the call of a graceful destroy on, no task is aborted |
| PoolRuns.DoneAccounts | threadpool/src/threadpool.c:206-213 | when destroy returns every worker is gone and every dequeued task completed or was aborted |
| PoolRuns.AbortsAreJoins | threadpool/src/threadpool.c:100-112 | while no immediate shutdown is under way the tasks aborted in a run are as many as the joins of del in it, counting a cancel that has taken effect and is not yet joined |
| PoolRuns.GracefulShutdownDrains | threadpool/src/threadpool.c:177-243 | after a graceful destroy the queue is empty, every accepted copy completed once or was aborted, exactly one for each del that found its function, started is 0 and the pool is released |
| PoolRuns.GracefulShutdownCompletesAll | threadpool/src/threadpool.c:177-243 | after a graceful destroy in a run without del the completed tasks are the accepted ones, copy for copy |
| PoolRuns.ImmediateFreezesQueue | threadpool/src/threadpool.c:269-273 | once the immediate flag is set nothing is accepted or dequeued and the ring stays as it is |
| PoolRuns.ImmediateAbortsOnlyTyped | threadpool/src/threadpool.c:198-205 | an immediate shutdown aborts only tasks of nonzero type |
| PoolRuns.ShotsHitTypedSlots | threadpool/src/threadpool.c:199-201 | a worker that is shot has a task of nonzero type in hand, or has just ended one and not yet cleared its type |
| PoolCancel.CancelledIffSeenTyped | threadpool/src/threadpool.c:198-205 | the cancel loop reads every slot once, in order, and when it is through exactly the workers it read a nonzero type of are cancelled |
| PoolCancel.TypedTaskIsShot | threadpool/src/threadpool.c:198-225 | a task of nonzero type in hand when the loop begins, that does not end by itself: its worker is cancelled once the loop has passed it, and when destroy is done the task is aborted and the pool not released |
| PoolRuns.ImmediateShutdownOutcome | threadpool/src/threadpool.c:198-225 | afterwards started is the number of cancelled workers, the pool is released exactly if there are none, and the tasks not started are the tail of the accepted ones |
| PoolRuns.ReleasedIffNobodyCancelled | threadpool/src/threadpool.c:222-225 | when destroy comes to release the pool, started is the number of cancelled workers, and the pool is released exactly if there are none |
| PoolRuns.FreeTheLock | threadpool/src/threadpool.c:261-296 | from every state in which a worker or a caller of add has the lock its own steps alone give it back |
| PoolShutdown.StepLowersMeasure | threadpool/src/threadpool.c:259-297 | after the broadcast every step of a worker, a cancel or destroy lowers a measure on count and their program counters, and no step of an add changes it |
| PoolShutdown.ShutdownTerminates | threadpool/src/threadpool.c:191-213 | whatever the callers of add do, workers, cancels and destroy make no more steps in a draining pool than the measure it starts with, and nobody sleeps |
| PoolShutdown.DrainingRunIsBounded | threadpool/src/threadpool.c:191-213 | a draining run is no longer than that measure, the steps left to the calls in flight, and six steps for each new call |
| PoolShutdown.SomebodyCanMove | threadpool/src/threadpool.c:206-213 | until destroy is done some step other than a new call is enabled |
| PoolShutdown.DestroyReturns | threadpool/src/threadpool.c:177-220 | every draining state has a run without new calls in which destroy returns |
| PoolShutdown.DestroyAliveNeverReturns | threadpool/src/threadpool.c:206-213 | called with mode 0, destroy is still joining in every state of every run |
| PoolShutdown.DestroyReturnsIffShutdownMode | threadpool/src/threadpool.h:143-147 | called in any reachable state, destroy can return if and only if its mode is one of the two shutdown modes |
| PoolScan.ScanStopsAtFirst | threadpool/src/threadpool.c:100-107 | del reads the slots in order; it cancels exactly the first in which it reads its function, and gives up exactly if it has read all of them and its function in none |
| PoolScan.OtherSlotsAreSpared | threadpool/src/threadpool.c:100-107 | a worker whose slot never shows the function is never cancelled in a run with dels of that function only and no destroy |
| PoolScan.UnknownFunctionAbortsNothing | threadpool/src/threadpool.c:100-106 | dels of a function that no slot ever shows abort nothing |
| PoolDel.DelAbortsOne | threadpool/src/threadpool.c:100-112 | del aborts exactly one task: the one running in the slot it found if that worker makes no step of its own, else one dequeued later |
| PoolDel.FoundTaskIsAborted | threadpool/src/threadpool.c:100-112 | from a scan that finds the function in the slot of a worker inside a task body to the join: if that worker makes no step of its own, its task is aborted and is of that function |
| PoolDelMiss.DelCanHitAnother | threadpool/src/threadpool.c:107-109 | from every state of the invariant in which a worker inside a task body is about to be cancelled, if anybody can call add, some continuation with no other del aborts a task of another function |
| PoolDelMiss.DelCanAbortAnotherFunction | threadpool/src/threadpool.c:100-112 | in every new pool with a caller, and for every function, there is a run in which del of that function aborts a task of another |
| PoolDelReturns.DelApproachesReturn | threadpool/src/threadpool.c:97-123 | del makes at most thread_count + 7 steps of its own, no other step sets it back, and it waits for nothing but its join |
| PoolDelReturns.DelCanReturn | threadpool/src/threadpool.c:107-123 | wherever a del is, if anybody can call add some continuation without another del lets it return |
| SlotMask.AndSpot | g_timer/g_tool.h:7 | both tests of an offset against a mask read exactly the slot of the offset |
| SlotMask.SpotShifts | g_timer/g_schedule.c:36-45 | offsets fit a long long, a shift moves to the neighbouring slot, the last one to zero |
| SlotMask.SameSlotsIff | g_timer/g_tool.h:6-7 | two masks mean the same exactly if they differ by a multiple of 2^48 |
| SlotSearch.TodayZero | g_timer/g_schedule.c:20-30 | the midnight at or before the time |
| SlotSearch.TimeslotGetOffset | g_timer/g_tool.c:29-38 | the one-bit offset of the half hour that the time lies in |
| SlotSearch.TimeMaskChk | g_timer/g_tool.c:50-68 | answers whether the slot of now is set in the mask of the day |
| SlotSearch.GSchedule.TimeslotGetStartEnd | g_timer/g_schedule.c:32-53 | recovers the slot of the offset; the start is that slot, the end the last slot of the active run from it |
| SlotSearch.GSchedule.TimeslotGetNextStartEnd | g_timer/g_schedule.c:59-85 | computes exactly the search over the boolean schedule; over the seven masks themselves: no instant from now to the start has its slot set in the mask of its weekday, and the start has on success |
| SlotSearch.FirstActive | g_timer/g_schedule.c:70-80 | the least active slot from a slot on, or 48 |
| SlotSearch.RunEnd | g_timer/g_schedule.c:44-49 | the last slot of the run, also when it reaches slot 47 |
| SlotCalendar.SlotBounds | g_timer/g_schedule.c:41-42 | a time lies in the half hour that starts at its midnight plus its slot number times 1800 |
| SlotCalendar.WeekdaysFollow | g_timer/g_schedule.c:20-30 | the epoch is midnight of a Thursday; a day later is the next weekday, the next midnight and the same slot |
| SlotLaws.SearchIsRight | g_timer/g_schedule.c:59-85 | returns 1 exactly if an active slot is left today, starting now or at the least later one; else tomorrow's midnight |
| SlotSearch.NothingActiveIsSkipped | g_timer/g_schedule.c:54-85 | the start is not in the past, no earlier instant is active, and the start is active on success |
| SlotLaws.EndIsLastSlotOfRun | g_timer/g_schedule.c:44-50 | the end is the start of the last slot of the maximal active run that the start lies in |
| SlotLaws.DurationOfFutureRun | g_timer/g_schedule.c:42-50 | for a later start the duration is the run length less one, times 1800 |
| SlotLaws.EndBeforeStartIff | g_timer/g_schedule.c:73-76 | the duration is negative exactly if now is past the beginning of the last slot of an active run |
| SlotLaws.EndsBeforeItStarts | g_timer/g_schedule.c:73-76 | a schedule and a time for which the announced end lies before the start |
| SlotLaws.SearchIsMonotone | g_timer/g_schedule.c:59-85 | a later call never announces an earlier start, across days too |
| SlotLaws.SearchIsIdempotent | g_timer/g_schedule.c:59-85 | searching again at the announced start announces the same interval |
| SlotLaws.IterateSkipsNothing | g_timer/g_schedule.c:78-84 | evaluating again at each returned midnight skips no active instant and moves one day on each time |
| SlotLaws.SevenMoreSuffice | g_timer/g_schedule.c:65-84 | a schedule that is ever active is found within seven more evaluations, at its first active instant |
| SlotLaws.SixMayFail | g_timer/g_schedule.c:65-84 | six more evaluations are not always enough |
| TimerArming.TimerTable.GTimerStart | g_timer/g_timer.c:28-51 | arms one enabled timer, or for -1 all of them, and leaves the others |
| TimerArming.TimerTable.GTimerSet | g_timer/g_timer.c:111-140 | refuses a NULL callback or a number beyond the table; else fills the entry and arms it |
| TimerArming.GScheduleStartSingle | g_timer/g_schedule.c:137-151 | arms one millisecond exactly if the mask of today has the slot of now; else the seconds to the next instant whose slot is set in the mask of its weekday, or to midnight |
| TimerArming.StartsNowIffActive | g_timer/g_schedule.c:67-75 | the start is now exactly if the point query succeeds |
| TimerArming.ArmingAgreesWithPointQuery | g_timer/g_schedule.c:145-150 | one millisecond exactly if active now, else the seconds to the start, at least one; never the disarming zero |
| EventRules.Int32 | g_schedule/ev_core.c:138 | the int that is congruent to the time |
| EventRules.CooldownWorksIff | g_schedule/ev_core.c:133-138 | after a launch the rule is held back for exactly its cooldown, at all later times, if and only if the time of the launch fits an int |
| EventRules.CooldownFailsIn2038 | g_schedule/ev_core.c:133-138 | launched at the first second that does not fit an int, the motion rule is ready again in the same second |
| EventRules.MotionJobAlone | g_schedule/ev_action.c:7-41 | a motion job alone restores the recordings below their limit and always shifts the pictures by one |
| EventRules.EverySecondPictureIsLost | g_schedule/ev_action.c:33-41 | of motion jobs one after the other every second takes no picture from the fourth on |
| EventRules.CleanupsStopAtZero | g_schedule/ev_core.c:25-40 | n cleanups take n from each counter but not below zero, and n from the jobs running |
| EventJobs.EventSystem.EventInit | g_schedule/ev_core.c:164-198 | sets rules, one mask entry and counters; the manual rule keeps a count of zero |
| EventJobs.EventSystem.CheckExit | g_schedule/ev_core.c:69-88 | boots on the first call and makes jobs give up in a restart |
| EventJobs.EventSystem.RemoveTmpFile | g_schedule/ev_core.c:25-40 | takes one from each counter that is not zero |
| EventJobs.EventSystem.NextJob | g_schedule/ev_core.c:90-107 | runs the remaining actions in order, each once, then one cleanup and one decrement; gives up in a restart |
| EventJobs.EventSystem.RunJob | g_schedule/ev_core.c:97-99 | the call through the table runs the action and then the rest of the job |
| EventJobs.EventSystem.RamJpgAction | g_schedule/ev_action.c:33-41 | counts two pictures below the limit, then the rest of the job |
| EventJobs.EventSystem.SnapShot | g_schedule/ev_action.c:7-12 | counts one picture |
| EventJobs.EventSystem.RamMp4Action | g_schedule/ev_action.c:21-32 | counts one recording below the limit, then the rest of the job |
| EventJobs.EventSystem.EventRecordStart | g_schedule/ev_action.c:13-19 | leaves the recording mark of the job as it was |
| EventJobs.EventSystem.FtpAction | g_schedule/ev_action.c:42-50 | goes on with the rest of the job |
| EventJobs.EventSystem.Launch | g_schedule/ev_core.c:134-140 | runs the whole job of the rule and notes the narrowed time |
| EventJobs.EventSystem.RunWholeJob | g_schedule/ev_core.c:134-140 | a new job runs all actions of its rule in order and one cleanup |
| EventJobs.EventSystem.PushReady | g_schedule/ev_core.c:120-142 | answers 0 exactly if the rule has actions and the mask of the weekday has the slot of now; then it launches exactly if more than the cooldown has passed; in all other cases nothing changes |
| EventJobs.EventSystem.PushJob | g_schedule/ev_core.c:109-143 | the same from any state of the system, not up, running or restarting, with the answer and every field it leaves |
| EventRuns.CountersInEveryRun | g_schedule/ev_core.c:102-139 | running is the number of unfinished jobs, recordings stay within 0..3, pictures within 0..4, in every interleaving |
| EventRuns.FinishedJobsRanTheirRule | g_schedule/ev_core.c:94-100 | a finished job ran its rule's actions in order, each once, whatever ran between |
| EventRuns.EveryJobWasAllowed | g_schedule/ev_core.c:120-129 | in every run every job was launched by a rule with actions, at a time whose slot is set in the mask of its weekday |
| EventRuns.PushLaunchesIff | g_schedule/ev_core.c:120-140 | while times fit an int, a push launches a job with all actions of its rule if and only if there are any, the mask allows the time, and more than the cooldown has passed since every earlier job of the trigger |
| EventRuns.LaunchRateIsLimited | g_schedule/ev_core.c:133-138 | k launches of a trigger within [a, b], b an int, satisfy (k - 1) * (cooldown + 1) <= b - a, wherever the clock goes later |
| EventRuns.JobsTerminate | g_schedule/ev_core.c:90-107 | each step brings the end one nearer; all jobs are done exactly when the steps are used up, and running is then zero |
| EventRuns.AloneIsTheRecursion | g_schedule/ev_core.c:90-107 | a job left alone takes the counters where the recursion takes them |
| EventRuns.CounterIsNeverTooHigh | g_schedule/ev_core.c:34-39 | where no rule asks for two recordings the counter is never above the live ones, however many jobs overlap, and zero whenever no job is running |
| EventRuns.StaysExactIffWithinLimit | g_schedule/ev_core.c:34-39 | from an exact counter with no job in flight turned away, every continuation without a launch keeps it exact if and only if no more than RAM_MP4_MAX jobs are running |
| EventRuns.ExactWhileWithinLimit | g_schedule/ev_action.c:22-25 | the counter is exact and the recordings are within the limit throughout every run, launches included, in which never more than RAM_MP4_MAX jobs run at once |
| EventOverlap.LimitHoldsForFewJobs | g_schedule/ev_action.c:22-25 | a system just booted keeps the limit, and its counter exact, while never more jobs than the limit run at once |
| EventOverlap.RecordingsCanExceedTheLimit | g_schedule/ev_action.c:22-25 | a run of a system just booted in which one recording more than RAM_MP4_MAX is live |

## Left out

- Lock, thread and timer calls that fail, allocation failures and messages: the environment is taken to work.
- The path on which creating a worker fails: it calls `threadpool_destroy` with mode 0 on a pool that is half started.
- Interleavings with `threadpool_create` itself: workers are modelled from the moment all of them are created.
- A second `threadpool_destroy` on the same pool: it leaves without unlocking, and only its answer and the lock it keeps are modelled.
- Shutdown modes other than 0, 1 and 2 in the protocol; `PoolState.Decide` says what goes wrong with them.
- `threadpool_status`: it prints two counts that it reads without the lock.
- Cancellation at a blocking call outside the task body.
- Local time zones, daylight saving and the overflow of a 64-bit time.
- `schedule_handler` and the dispatch of `g_schedule_start` and `g_schedule_stop`.
- PoolObject.ThreadPool.NextTask: on an empty queue requires one of the three modes, because with any other the code reads a stale cell and counts below zero.
- TimerArming.TimerTable.GTimerSet: leaves out the number 20 and negative numbers, which pass the test and lie beyond the table.
- TimerArming.TimerTable.GTimerStart: leaves out numbers below -1 and from 20 on, which the code does not test and which lie beyond the table.
- SlotSearch.TimeMaskChk: works on a given mask; the table of masks and its setter, which ignores its type, are not modelled.
- `event_stop`, and jobs in flight while the system restarts; a restart is modelled at the head of a launch and of `next_job`.
- EventJobs.EventSystem.NextJob: requires a system that was booted, as every launch boots it first.
- EventJobs.EventSystem.RemoveTmpFile: takes from the counters; that the files named after the job's time stamps are removed is not modelled.
- EventJobs.EventSystem.SnapShot: counts; the time stamp written into the job is not modelled.
- EventJobs.EventSystem.EventInit: the call of `sche_init` is not part of this model; it is defined in a draft, g_schedule/tmp/g_schedule.c, that is not modelled.
- Races on the counters inside one action function: its guard and its increments are one step.
- File names, pictures' and recordings' time stamps, the two unused storage bits of a job, and the message queues.
- `timeslot_str_to_hex`, `convert_time_string`, `lltostr`, `debug_info`, and the signal handler of the timers.
