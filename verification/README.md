# What supervisord guarantees

A model, in Dafny, of the parts of this process supervisor in which goroutines, files and
configuration maps have to stay in agreement, and proofs of what those parts guarantee. Where a
promise does not hold for every input, the exact condition under which it does is proved instead.

| modules | what they model |
|---|---|
| `LifecycleModel`, `LifecycleInvariant`, `LifecycleTheorems`, `LifecycleDiscipline`, `LifecycleRecovery`, `LifecycleCrash`, `LifecycleStates`, `LifecycleRestart` | one supervised process: `Start`, the run loop, an exit waiter and a start monitor per attempt and any number of `Stop` calls, as interleaved steps |
| `EventCapture`, `EventCaptureProof`, `EventCaptureOverflow` | the parser that cuts events out of the output of a process |
| `EventDelivery` | the queue between event producers and one listener |
| `LogRotation`, `LogRotationProof` | the rotating log file and reading its tail |
| `ConfigEntry`, `Listing`, `DependencyGraph`, `ProcessSort` | the order in which programs are started |
| `Configuration`, `LoadedOptions`, `ProcessManager`, `Supervisor`, `ReloadOrder`, `ProcessGroup`, `Util` | reloading the configuration, and what changed between two of them |
| `CommandParser`, `CommandEscapes`, `StringExpression`, `PlainExpression`, `ReferenceGraph`, `ExpressionMeaning`, `ExpressionTermination`, `EnvParser`, `Text`, `TextProof` | the three small languages of the configuration |
| `Liveness` | counting the results of liveness checks |

Objects whose methods update their fields are classes, and their methods are proved against functions
on values; the lemmas are about these functions. The life of a process and the event queue are step
systems, because their goroutines interleave: one step is one critical section, or one access to a
variable that is shared without a lock. The operating system, the clock and the other side of a pipe
are steps that may happen at any time.

## What the proofs found

- **A process can be lost for good.** `Stop` tests the state and stores Stopping in separate steps. When
  the child exits and the run loop settles the attempt in between, the state says Stopping although
  nothing runs, every later start is refused, and no waiting `Stop` ever returns, so that
  `StopAllProcesses` waits for ever. `LifecycleRecovery.Doomed` describes these states; a reachable
  process without a child can get one again exactly when it is not in one of them and the supervisor has
  not crashed. Under every setting a doomed state can be reached, even if `Start` is only called before
  the first `Stop`.
- **`Stop` can crash the supervisor.** It uses `p.cmd.Process`, which is nil while the run loop has a
  command that is not started: once in the goroutine of the caller and without the lock, and then, under
  the read lock, in the goroutine that sends the signals. That goroutine outlives the call: `Stop(true)`
  returns as soon as the process is not running. So a caller that waits for `Stop(true)` to return and
  then calls `Start`, as the restarts of process/process.go:656-657 do, is not safe: the signal left over
  can find the new command without a process, under every setting. The supervisor cannot crash if and
  only if the run loop never pauses between attempts, that is, if restartpause is not positive or
  startretries is at most 1, and `Start` is called only while no `Stop` is under way and no signal of an
  earlier one is left, or only before the first `Stop`. A caller has no means to see the signals that are
  left; it can only see to it that `Start` comes before every `Stop`. All this is so whether or not the
  callers recover: net/http recovers a nil dereference in the goroutine of a request, such as the one
  that runs supervisor.go:328, and then only this call of `Stop` ends; in the goroutines that
  supervisor.go:346 and 366 start for every process, and in the one that sends the signals, nobody does.
- **`Stop(true)` is final only without a pause between attempts.** It is so under exactly the same
  settings; otherwise one more child can start.
- **A child that exits counts as a failed start, however long it ran.** The waiter stores Stopped before
  the run loop looks at the state. The loop then stores Backoff and tries again up to startretries,
  whatever autorestart says, or ends Fatal; after an ordinary `Stop` it ends in Backoff or Fatal. An
  attempt ends as Exited or Stopped exactly if a `Stop` or a late monitor has stored something after
  the waiter.
- **Starting and Running are never left over.** They are stored only while an attempt is under way, and
  Running not before startsecs have passed since the attempt was prepared.
- **A start callback can be missed.** A run that finds the stop flag set returns without it, so that
  `Start(true)` waits on.
- **A stray END marker crashes the capture.** Output of a process whose blocks fit the capture limit is
  parsed alike in every chunking exactly when no END marker lies in front of a BEGIN marker within
  reach of one read of 10240 bytes; otherwise some chunking makes the slice in `captureEvent` panic. A
  block that outgrows the limit is lost whole, and what follows it is captured as if nothing had been.
- **A reader of the tail can miss what follows a rotation.** If it passes back its old offset, it gets the
  new file from there on, or from the end it finds: nothing is missed only if it had read nothing or the
  new file was still empty.
- **Writes cut short can let a log grow past its limit.** The bytes taken are not counted. In a history of
  writes every full one leaves the file shorter than the limit exactly if none of them stays below it
  by the recorded size and passes it by the uncounted bytes. With backups set to 0 one backup is still
  kept. A rename that fails loses a file: the current one is emptied, and a backup is replaced.
- **A reload can hang.** Programs that vanished from the files are sorted together with the new ones,
  and a program keeps options that were taken away. The sort ends exactly if the dependencies of this
  mixture are acyclic, which can fail although those before and those in the files are.
- **`IsSameStringArray` is not what its comment says.** It decides equality without regard to order
  for a given first list exactly if that list has no repetition, as the lists it is used on do.
- **A command whose last argument is a lone quote panics.** If its last argument starts with a quote that
  is never closed, the byte dropped at its end is not the closing quote; for all other arguments it is,
  or nothing is dropped. In an environment list everything behind a closing quote that is not followed
  by a comma is dropped, and so are an empty value at the end and a value whose quote is never closed.
- **Expanding variables can go on for ever.** For texts and values made of literal text without percent
  signs and of references `%(name)s` and `%(name)d`, the latter also with a width, `Eval` ends exactly if
  no reference that it follows leads into a cycle of references that it follows. It follows a reference
  if everything in front of it becomes text, so that an error met first ends it. It returns a text exactly
  if no variable or integer that the references lead to is missing and they lead into no cycle at all.
  Only the variables that the text leads to matter; the others may have any value.

## Model

| member | source | states |
|---|---|---|
| LifecycleInvariant.StepInv | process/process.go:315-901 | every step of every goroutine keeps the invariant that ties the program counters to the lock, the state, the flags, the children, the attempt counts and the callbacks |
| LifecycleInvariant.ReachableInv | process/process.go:315-901 | the invariant holds in every state of every interleaving |
| LifecycleTheorems.OneChild | process/process.go:315-366 | at most one child is alive, a live child implies `IsRunning`, a waiter waits for its own child, and `Start` launches a run loop only when there is none |
| LifecycleTheorems.PromotionIsTimely | process/process.go:723-737 | a monitor moves the state to Running only for the current attempt, not before the end time that it shares with it, and before the attempt is accounted for |
| LifecycleStates.RunningAfterStartSecs | process/process.go:778-779 | from when an attempt is prepared until the next one is, no monitor promotes and the state is not Running before startsecs have passed since then |
| LifecycleStates.RunningAtOnce | process/process.go:834-838 | without a positive startsecs the state is Running, or Stopping, as long as a child lives and is watched |
| LifecycleStates.PromotionHappens | process/process.go:723-737 | with one, whenever the state is Starting while a child is watched and nobody holds the lock, its monitor can go on to report Running without a call of anybody |
| LifecycleStates.StoppingIsKept | process/process.go:723-737 | once a `Stop` has stored Stopping the state is not Starting or Running before the next attempt, unless a monitor had made up its mind already |
| LifecycleStates.NeverStale | process/process.go:778-899 | Starting and Running are stored only while an attempt is under way |
| LifecycleStates.BackoffBetween | process/process.go:793-799 | between two attempts of a call of `run` the state is Backoff, unless a `Stop` has stored Stopping |
| LifecycleStates.FatalStays | process/process.go:716-720 | after a call of `run` that has failed the state is Fatal until the next one, unless a `Stop` has stored Stopping |
| LifecycleStates.EndsAs | process/process.go:878-887 | an attempt that is not retried ends as Stopped only if `Stop` was called, and else as Exited |
| LifecycleStates.SettledAfterMonitor | process/process.go:867-876 | an attempt is settled only when its monitor has seen the time run out or the child exit |
| LifecycleStates.ExitCountsAsFailure | process/process.go:878-890 | after the waiter has stored Stopped an attempt is judged a failed start if and only if no `Stop` and no monitor has stored anything since |
| LifecycleStates.RestartedAnyway | process/process.go:878-899 | whatever autorestart says, with startretries above 1 a child reported as Running that exits can be followed by another one in the same call of `run`, without a call of anybody |
| LifecycleRestart.OneRunPerStart | process/process.go:334-356 | with autorestart switched off, and with the default as long as no child was ever spawned, `run` is called exactly once for every `Start` that launches it |
| LifecycleRestart.AlwaysRunsOn | process/process.go:348-356 | with autorestart set to true the loop of `Start` is left only with the stop flag set |
| LifecycleRestart.RunsAgainIff | process/process.go:348-356 | `run` can be called again after it has returned, without a call of anybody, if and only if autorestart is not switched off |
| LifecycleRestart.SignalsOfStop | process/process.go:1278-1294 | when the goroutine of a call of `Stop` has ended it has sent the stop signal, and SIGKILL if and only if the check in between found the process running |
| LifecycleRestart.WaitsAsAsked | process/process.go:1294-1299 | a call of `Stop` waits only if it was asked to, and returns at once only if it was not |
| LifecycleTheorems.AttemptsBounded | process/process.go:768-897 | a call of `run` makes at most max(1, startretries) attempts |
| LifecycleTheorems.GivesUpAtLimit | process/process.go:889-897 | the retry check gives up only at exactly that number of attempts |
| LifecycleTheorems.CallbackExactlyOnce | process/process.go:763-766 | the completion callback never fires twice for a call of `run`; when its goroutines are done it has fired exactly if the call was refused, spawned a child or ended Fatal |
| LifecycleTheorems.CallbackCanBeMissed | process/process.go:769 | a call of `run` that finds the stop flag set ends without any callback, whatever the settings |
| LifecycleTheorems.SpawnsAfterStop | process/process.go:769-777 | after the stop flag is set and until `Start` clears it at most one child is spawned, and none if the loop never pauses |
| LifecycleTheorems.AtMostOneSpawnAfterStop | process/process.go:769-790 | along every run the spawns made and the one still owed to a pause add up to no more than what was owed at first |
| LifecycleTheorems.StopFinalIff | process/process.go:1255-1299 | once a `Stop` has seen the process not running no child lives until the next `Start`, in every interleaving, if and only if restartpause <= 0 or startretries <= 1 |
| LifecycleTheorems.StopOvertaken | process/process.go:771-777 | the run in which a child starts after `Stop` has returned, for every other setting |
| LifecycleRecovery.DoomedForever | process/process.go:1260-1266 | from a doomed state every run leads to doomed states without a child, in which no waiting `Stop` can return |
| LifecycleRecovery.WayOut | process/process.go:746-901 | from every other state the goroutines can go on to a live child, whatever autorestart says, unless the supervisor has crashed |
| LifecycleRecovery.RecoverableIff | process/process.go:746-755 | a reachable process has or can still get a live child if and only if it has one, or is not doomed and the supervisor has not crashed |
| LifecycleRecovery.DoomIsReachable | process/process.go:1255-1266 | under every setting, and whatever the callers agree on, a run in which the child exits while `Stop` is between its test and its store leads to a doomed state, without a crash |
| LifecycleCrash.OthersHaveProcess | process/process.go:903-934 | wherever the run loop, a waiter or a monitor uses `p.cmd.Process` it is not nil |
| LifecycleCrash.OrderlyRunIsSafe | process/process.go:1255-1299 | if the loop never pauses, and `Start` is called only while no `Stop` is under way and no signal goroutine is left over from a call that has returned, or only before the first `Stop`, every run keeps the process at hand for all that will use it |
| LifecycleCrash.SequentialStartCrashes | process/process.go:1278-1299 | unless `Start` waits for the signal goroutines too, some run crashes under every setting: even one in which `Start` is called only when every call of `Stop` has seen the process not running and returned, and every caller of `Stop` recovers |
| LifecycleCrash.NeverCrashesIff | process/process.go:1255-1299 | for every setting and each of four rules for calling `Start` (at any time; when all calls of `Stop` have returned; while none is under way and no signal goroutine is left over from a call that has returned; before the first `Stop`), whether or not the callers recover: no run crashes the supervisor if and only if restartpause <= 0 or startretries <= 1, and the rule is one of the last two |
| LifecycleCrash.CrashIsReachable | process/process.go:1255-1299 | under every setting a single call of `Stop` can crash before it returns, when a `Start` falls between its flag and its test |
| EventCapture.ProcCommEventCapture.FindBeginStr | events/events.go:539-550 | the buffer afterwards: the position of the first BEGIN is known, or only the last bytes are kept |
| EventCapture.ProcCommEventCapture.FindEndStr | events/events.go:552-565 | the first END of the whole buffer, and the overflow that discards the buffer |
| EventCapture.ProcCommEventCapture.CaptureEvent | events/events.go:523-537 | the data cut out and the buffer left, or nothing, or a panic |
| EventCapture.ProcCommEventCapture.Read | events/events.go:506-518 | one read and its drain loop, which ends because every event shrinks the buffer, emit what the drain function says |
| EventCapture.ProcCommEventCapture.StartCapture | events/events.go:503-521 | a whole sequence of reads emits what the stream function says |
| EventCaptureProof.CleanStream | events/events.go:503-565 | fed a clean stream of any length whose blocks fit the capture limit, in any chunks, the capture has emitted exactly the complete blocks so far, in order, and tracks the rest |
| EventCaptureProof.HoldsWithoutOverflow | events/events.go:557-562 | a limit with room for one read and one block with its markers is never exceeded on such a stream |
| EventCaptureProof.UncleanPanics | events/events.go:529 | for every other stream whose blocks fit the limit there is a chunking that panics |
| EventCaptureProof.ChunkIndependentIff | events/events.go:503-565 | for a stream of any length whose blocks fit the limit, every chunking emits exactly the data blocks of the stream if and only if it is clean |
| EventCaptureProof.WrittenThenParsed | events/events.go:22-26 | what a program writes as output and marked data is a clean stream whose blocks are the data written |
| EventCaptureProof.BlocksGrow | events/events.go:523-537 | blocks complete so far are final: reading on only adds the blocks of what follows |
| EventCaptureOverflow.ReceiveWithinLimit | events/events.go:557-562 | whatever was in the buffer, a read that does not panic leaves at most the capture limit and no END in it if a BEGIN is open, and else no more bytes than a BEGIN has |
| EventCaptureOverflow.BufferBounded | events/events.go:503-565 | so it is between reads on every stream in every chunking |
| EventCaptureOverflow.OverflowDiscards | events/events.go:557-562 | a read that finds a block open beyond the limit leaves the empty buffer without a BEGIN and emits nothing |
| EventCaptureOverflow.StartsAnew | events/events.go:503-565 | whatever follows such a read is captured like a stream of its own |
| EventCaptureOverflow.OverlongBlockIsLost | events/events.go:503-565 | in a clean stream with one block that outgrows the limit, between parts that fit: the complete blocks of both parts are emitted, and of the block nothing |
| EventDelivery.EventListener.HandleEvent | events/events.go:234-244 | the event is put at the end of the queue, or refused if the queue holds more than bufferSize; the step of the same name does just this |
| EventDelivery.AcceptedIff | events/events.go:238-243 | after any run an event is accepted if and only if of the events accepted before no more than bufferSize are still to be removed |
| EventDelivery.AcceptsAll | events/events.go:238-243 | in every interleaving in which at most bufferSize + 1 events are handed in, all of them are accepted, in order |
| EventDelivery.EventListener.RemoveFirstEvent | events/events.go:141-147 | the head is removed, if there is one, and the rest stays |
| EventDelivery.EventListener.GetFirstEvent | events/events.go:112-131 | once the wait is over, the head of the queue is fetched, or nothing if and only if the listener was stopped |
| EventDelivery.RunsInv | events/events.go:112-187 | every interleaving of producers, `stop` and the delivery goroutine keeps the invariant of queue, log and stop mark |
| EventDelivery.Conservation | events/events.go:234-244 | the accepted events are the removed ones followed by the queue, which holds at most bufferSize + 1 |
| EventDelivery.RemovedAfterOk | events/events.go:161-176 | an event leaves the queue only directly after the OK that answers its own write |
| EventDelivery.WritesInOrder | events/events.go:160-182 | each write carries the event of the write before or its immediate successor |
| EventDelivery.OneWriteAfterStop | events/events.go:134-139 | at most one write follows `stop` |
| EventDelivery.EveryOkRemoves | events/events.go:174-178 | as many events have been removed as OKs were read, but for one OK that is being dealt with |
| EventDelivery.WritesOnlyWhenReady | events/events.go:149-187 | the goroutine fetches, writes and reads answers if and only if READY was read and no answer but an unknown one, no failed write and no end has followed |
| EventDelivery.EndsIff | events/events.go:149-187 | delivery ends if and only if a READY could not be read or stop was seen |
| EventDelivery.QueueCanGo | events/events.go:149-187 | a listener that answers OK each time gets the whole queue, in order |
| LogRotation.FileLogger.constructor | logger/log.go:164-174 | an existing file is kept and its size taken over, whether or not it can be opened, unless its size cannot be asked for: then it is truncated |
| LogRotation.FileLogger.OpenFile | logger/log.go:182-199 | the file set and the recorded size afterwards: also when the file cannot be opened, when its size cannot be asked for and it is truncated, and that truncation leaves the recorded size as it was |
| LogRotation.FileLogger.BackupFiles | logger/log.go:201-211 | the renaming loop computes the shifted file set, whichever renames fail |
| LogRotation.FileLogger.Write | logger/log.go:349-374 | files and recorded size after a full write, a write cut short, a write to a closed file, one whose size cannot be measured and one after which the file cannot be opened again |
| LogRotation.FileLogger.ClearCurLogFile | logger/log.go:214-218 | the file is empty afterwards and the recorded size what it was |
| LogRotation.FileLogger.ReadTailLog | logger/log.go:303-346 | data, next offset, end of file and all the errors |
| LogRotationProof.ShiftSlot | logger/log.go:202-208 | what every single file is after the renaming loop, also with gaps between the backups and with renames that fail |
| LogRotationProof.StuckLoses | logger/log.go:201-211 | a current file that is not renamed is emptied, and a backup that is not renamed is replaced by the next younger file if that one is; in neither case the contents are in the next slot |
| LogRotationProof.RotationConserves | logger/log.go:201-211 | a rotation drops exactly the oldest slot and keeps every other byte in order |
| LogRotationProof.WriteConserves | logger/log.go:349-374 | for every file set, bytes lost and bytes retained after a write are those retained before and those written |
| LogRotationProof.FailingWritesConserve | logger/log.go:349-374 | so it is for a write that is cut short, one whose size cannot be measured, and one after whose rotation the file cannot be opened again |
| LogRotationProof.WriteKeepsTrack | logger/log.go:359-372 | while the recorded size is not below the real one, a write rotates exactly when the real size reaches the limit, and keeps it so, although truncation leaves it stale |
| LogRotationProof.RotationExactIff | logger/log.go:359-368 | writes rotate exactly at the limit if and only if the recorded size is not below the real one or has reached the limit |
| LogRotationProof.HistoryConserves | logger/log.go:349-374 | conservation over every sequence of writes, of which some are cut short: bytes retained before and bytes taken are the bytes dropped and those retained after |
| LogRotationProof.BoundedWindow | logger/log.go:201-211 | from an empty log, for full writes and writes cut short: all bytes taken are a dropped prefix, then the backups from oldest to newest, then the current file; at most max(1, backups) backups exist, and bytes are dropped only when all slots are full |
| LogRotationProof.OpAccounted | logger/log.go:353-367 | the real size exceeds the recorded one by at most the bytes that writes cut short added since it was last measured, and below the limit by exactly these |
| LogRotationProof.StaysBelowIff | logger/log.go:349-374 | from an empty log every full write leaves the current file shorter than the limit if and only if none stays below it by the recorded size and passes it by the uncounted bytes; without writes cut short none does |
| LogRotationProof.ShortWriteOvershoots | logger/log.go:353-358 | for every limit above 1 a write cut short and a full write that let the file reach the limit without a rotation |
| LogRotationProof.TailIsSlice | logger/log.go:303-346 | any read gives the slice of the file between its offset, or the end, and the offset it returns, which lies within the file and as far on as was asked for and is there |
| LogRotationProof.ReaderSeesPrefix | logger/log.go:303-346 | under every interleaving of writes and tail reads between two rotations, if the offset is passed back, the data seen is the prefix of the file up to it |
| LogRotationProof.FollowsNewFile | logger/log.go:330-331 | with an offset that a rotation has made too large, or any other, the data got from then on is the slice of the new file from that offset, or from the end that the first read finds |
| LogRotationProof.RotationUnnoticedIff | logger/log.go:303-346 | a reader in step with the file misses nothing by a rotation if and only if it has read nothing or its next read finds the new file empty |
| LogRotationProof.ReadOnIsRest | logger/log.go:303-346 | without writes and with a positive length, reading on ends with the whole rest of the file |
| DependencyGraph.SortDepends | config/process_sort.go:83-106 | for an acyclic graph the loop ends, and lists every name of the graph once, behind all it depends on, in whatever order the keys are visited |
| DependencyGraph.WaitingWalk | config/process_sort.go:97-102 | programs that all wait for one another close a cycle |
| DependencyGraph.CycleNeverFinishes | config/process_sort.go:96-103 | with a cycle the guard stays true after any number of rounds and for any order of visits |
| DependencyGraph.AcyclicFinishes | config/process_sort.go:96-103 | without a cycle as many rounds as there are unfinished keys suffice, for any order of visits |
| DependencyGraph.TerminatesIff | config/process_sort.go:83-106 | the sort ends if and only if the dependencies are acyclic, and then within as many rounds as keys |
| DependencyGraph.DependenciesFirst | config/process_sort.go:83-106 | in the resulting order every transitive dependency comes first |
| ProcessSort.SortByPriority | config/process_sort.go:21-24 | a permutation in non-decreasing priority |
| ProcessSort.ProcessSorter.InitDepends | config/process_sort.go:38-57 | the graph field becomes the graph that the entries describe |
| Configuration.GraphOfAll | config/process_sort.go:44-52 | the graph has for a name what all program entries of that name list, one behind the other, and the names for which they list anything |
| Listing.ListIsRead | config/process_sort.go:44-52 | names joined by commas, with white space anywhere around them, are read as the list of the names, without those that are empty |
| Listing.EveryTextIsList | config/process_sort.go:44-52 | every text is such a list |
| Listing.DependsOnListed | config/process_sort.go:42-52 | a program depends on just the names that its option lists |
| Listing.PriorityIs | config/process_sort.go:21-24 | a priority other than 999 is the number in decimal digits that the option holds, with or without a sign and within 64 bits |
| TextProof.TrimIff | config/process_sort.go:45 | the trimmed text is the one that is left between white space and neither starts nor ends with any |
| TextProof.SpaceCharacterIff | config/process_sort.go:45 | white space is the UTF-8 encodings of 25 code points |
| TextProof.SplitIff | config/process_sort.go:44 | the parts of a split are those without a separator that give the text when joined by it |
| TextProof.AtoiIff | config/config.go:320-327 | a number is read from an optional sign and digits, as the sum of the digits times the powers of ten of their places, if it fits 64 bits, and else there is none |
| Configuration.GraphOfDistinct | config/process_sort.go:38-57 | for a program whose name no other listed entry has, the graph holds exactly the dependencies that its entry lists |
| ProcessSort.ProcessSorter.InitProgramWithoutDepends | config/process_sort.go:59-68 | the programs outside the graph, each as often as it was given |
| ProcessSort.ProcessSorter.SortProgram | config/process_sort.go:140-158 | a permutation of the programs, dependencies first, then the unrelated programs by priority |
| ProcessSort.SortProgram | config/process_sort.go:164-166 | the same on a new sorter |
| Configuration.Config.CreateEntry | config/config.go:110-118 | an entry that exists is returned, and a new one is filed |
| Configuration.Config.ParseSection | config/config.go:541-546 | the options of the section are added to those the entry has; other entries and the identity of all are kept |
| Configuration.Config.LoadSections | config/config.go:121-133 | the configuration afterwards, with entry objects kept, and the names of the programs and listeners in the files |
| Configuration.LoadPrograms | config/config.go:580-652 | without name collisions a load leaves the programs known before and those of the files, filed under their own names |
| LoadedOptions.LoadedOption | config/config.go:541-546 | after a load an option has the value that the last section of another kind sets, else the one of the last program or listener section that sets it, else its former one |
| LoadedOptions.KindOf | config/config.go:636-652 | a section of a program or listener makes its entry one of that kind and that name |
| Configuration.Config.GetPrograms | config/config.go:262-268 | every program entry once, in the order of starting |
| Configuration.Config.GetProgramNames | config/config.go:280-289 | every program name once |
| Configuration.Config.SortingEndsIff | config/config.go:262-268 | the sort of whatever listing of the configured programs ends if and only if their dependencies have no cycle |
| ProcessManager.Manager.CreateProcess | process/process_manager.go:30-76 | a process of a program or event listener that exists is kept, a new one gets the entry, and other entries get none |
| ProcessManager.Manager.Remove | process/process_manager.go:91-98 | the process or none, and it is gone |
| ProcessManager.SortProcess | process/process_manager.go:241-260 | the processes whose entries come in a start order of the program entries |
| ProcessManager.Permuted | process/process_manager.go:249-256 | with an entry of its own each, no process is lost or listed twice when the entries are permuted |
| ProcessManager.Manager.GetAllProcess | process/process_manager.go:187-193 | every process once, dependencies first, then the unrelated ones by priority |
| ProcessManager.Manager.StopAllProcesses | process/process_manager.go:196-210 | every process is stopped exactly once |
| Supervisor.Supervisor.CanListProcesses | process/process_manager.go:187-193 | what listing the processes needs holds whenever the two indexes agree |
| Supervisor.Supervisor.CreatePrograms | supervisor.go:514-524 | afterwards the processes are exactly those of the configured programs, and what existed is untouched |
| Supervisor.Supervisor.RemoveAll | supervisor.go:485-493 | the removed names leave both indexes, each of their processes is stopped once and no other |
| Supervisor.Supervisor.Reload | supervisor.go:453-496 | manager keys, configured programs and programs in the files agree; each process shares its entry with the configuration; survivors keep process and entry; new ones are fresh; each removed process is stopped exactly once and no other is |
| Supervisor.ReloadedPrograms | supervisor.go:484-493 | dropping the vanished programs from the loaded configuration leaves exactly those of the files |
| Supervisor.AfterReloads | supervisor.go:453-496 | after any sequence of reloads the configuration holds exactly the programs of the last one, without a cycle among their dependencies |
| Supervisor.Supervisor.ReloadEach | supervisor.go:453-496 | over any sequence of reloads the two indexes agree; a process whose program is in the files every time is the same and was never stopped, and every other one was stopped exactly once |
| Supervisor.Supervisor.GetsPastSortingIff | supervisor.go:475-481 | after a load the sort of the programs ends, on whatever listing, if and only if the programs known before and those of the files together have no cycle |
| ReloadOrder.SortsIffResultSorts | supervisor.go:475-493 | if no program of the files depends on a vanished one, the sort in a reload of a sortable configuration ends if and only if the result has no cycle |
| ReloadOrder.VanishedProgramHangs | supervisor.go:475-488 | an example in which the programs before and those of the files are each sortable and the reload never ends |
| ReloadOrder.ReplacesOptionsIff | config/config.go:541-546 | loading a section replaces its options if and only if no other option was set before |
| ProcessGroup.ProcessGroup.Clone | config/process_group.go:22-28 | a new object with the same assignment |
| ProcessGroup.ProcessGroup.GetGroup | config/process_group.go:101-109 | the group, and that a program without one is put into the default |
| ProcessGroup.ProcessGroup.GetAllGroup | config/process_group.go:59-71 | every group once |
| ProcessGroup.ProcessGroup.GetAllProcess | config/process_group.go:73-81 | every member once |
| ProcessGroup.ProcessGroup.Sub | config/process_group.go:31-46 | the added groups, the common groups whose member sets differ, and the removed groups, each once |
| ProcessGroup.SameMembers | config/process_group.go:39-44 | comparing member lists by length and inclusion is equality of the member sets |
| ProcessGroup.ReportedOnceIff | config/process_group.go:31-46 | a group that both sides have with the same members is in none of the three lists and every other one in exactly one, from whichever side one looks |
| ProcessGroup.NothingReportedIff | config/process_group.go:31-46 | nothing is reported if and only if the two assignments are equal |
| Util.Sub | util/util.go:33-47 | the elements of the first list that the second lacks, in their order and number |
| Util.WithoutInOrder | util/util.go:33-47 | these elements of two lists, one behind the other, are those of the first and then those of the second |
| Util.IsSameStringArray | util/util.go:50-67 | equal length and inclusion |
| Util.Pigeonhole | util/util.go:50-67 | for a list without repetition this makes the other a rearrangement of it |
| Util.DecidesIff | util/util.go:49-67 | the comparison is right about a list, whatever it is compared with, if and only if the list has no repetition |
| CommandParser.FindChar | process/command_parser.go:15-24 | the scan finds what the definition on text finds |
| CommandEscapes.FindIff | process/command_parser.go:15-24 | that is the first occurrence in front of which an even number of backslashes stands, or none if there is no such one |
| CommandEscapes.ArgMeans | process/command_parser.go:56-78 | an argument ends at the first white space that is not escaped, behind the quote that closes the first one that is not escaped, or with the command |
| CommandEscapes.FirstArgument | process/command_parser.go:46-84 | the first argument of a command ends there, and the rest of the command is split in the same way |
| CommandEscapes.SpaceIff | process/command_parser.go:32 | the white space of single bytes is that of the code points below 256 |
| CommandParser.SkipSpace | process/command_parser.go:30-37 | where the rest without leading white space starts |
| CommandParser.AppendArgument | process/command_parser.go:39-44 | the argument without its quotes is added, or a lone quote panics |
| CommandParser.ParseCommand | process/command_parser.go:46-84 | the index loops compute the arguments that the definition on text gives, or the error, or the panic |
| CommandParser.WeaveSplits | process/command_parser.go:46-84 | any text put together from arguments and white space splits into just these arguments |
| CommandParser.SplitWeaves | process/command_parser.go:46-84 | every command is put together in this way: the raw arguments are non-empty, in order and disjoint, and all else is white space |
| CommandParser.SplitsIff | process/command_parser.go:46-84 | a command has given arguments if and only if it is these arguments, set off by white space that may be missing only behind a quoted one |
| CommandParser.Outcomes | process/command_parser.go:39-44 | the parser panics exactly if the last argument is a lone quote, never with closed quotes, and fails exactly on blank commands |
| CommandParser.DropsClosingQuoteIff | process/command_parser.go:39-44 | for every command and every argument but a lone quote, nothing or the closing quote is dropped at its end if and only if it does not start with a quote or is not left open |
| CommandParser.OpenLosesByte | process/command_parser.go:39-44 | a command whose last argument loses a byte |
| CommandParser.QuotedRoundTrip | process/command_parser.go:46-84 | arguments without backslashes, each in single or double quotes that do not occur in it, and joined by any white space, come back as they were |
| StringExpression.StringExpression.TakeTurn | config/string_expression.go:45-89 | one turn of the loop on any text, with every error |
| StringExpression.StringExpression.Eval | config/string_expression.go:44-91 | returns the result of the run, whenever the run ends |
| PlainExpression.PlainTerminates | config/string_expression.go:44-91 | if no value has a percent sign, no reference of the text stands right behind one and its references to numbers have plain widths, `Eval` ends after at most as many turns as the text has percent signs, and one |
| ExpressionTermination.EvalIff | config/string_expression.go:44-91 | for texts and values of literal text without percent signs and references to strings and to numbers, `Eval` ends with a given text or error if and only if it is what replacing the references from left to right, and those in the values, gives to a depth of as many references as there are variables; variables the text does not lead to may have any value |
| ExpressionTermination.TerminatesIff | config/string_expression.go:44-91 | for the same texts `Eval` ends if and only if no reference that it follows leads into a cycle of such references, where it follows a reference if all in front of it becomes text; variables and integers may be missing |
| ExpressionTermination.SucceedsIff | config/string_expression.go:44-91 | for the same texts `Eval` returns a text if and only if the references lead only to variables that exist, and to integers where these are called for, and into no cycle |
| ExpressionTermination.TerminatesIffNoCycle | config/string_expression.go:44-91 | when no variable or integer that the references lead to is missing, `Eval` ends if and only if they lead into no cycle |
| ExpressionMeaning.ExpandsIff | config/string_expression.go:44-91 | replacing references, and those in the values, gives a text within as many levels as there are variables if and only if nothing they lead to is missing and they lead into no cycle |
| ExpressionMeaning.EvaluatesIff | config/string_expression.go:44-91 | it gives a text or an error at all if and only if the references followed lead into no cycle of such references, and then within as many levels as there are variables |
| StringExpression.TemplateExpands | config/string_expression.go:44-91 | a template of literal text and references to strings, to numbers and of other types gives what replacing all references at once gives, or the error of the first one without a meaning |
| StringExpression.UnfinishedFails | config/string_expression.go:57-88 | a text whose first reference is not closed or has no type is an error, whatever the variables are |
| StringExpression.SelfReferenceNeverEnds | config/string_expression.go:82-83 | a variable whose value starts with a reference to itself is expanded for ever, whatever the other values are |
| EnvParser.ParseEnv | config/config.go:338-382 | ends on every text, with the map that its pairs define when stored in order |
| EnvParser.ItemsRoundTrip | config/config.go:338-382 | quoted and bare items joined by commas come back as they were if and only if the last of them is not bare and empty |
| EnvParser.MapRoundTrip | config/config.go:338-382 | a map of trimmed keys and values printed as key="value" in any order, with any white space around both, is parsed back |
| EnvParser.UnclosedIsDropped | config/config.go:355-366 | a value whose quote is never closed is dropped, with its key |
| EnvParser.NoPairs | config/config.go:344-351 | without an equals sign, or with one at the very end, there is nothing |
| EnvParser.DroppedBehindQuote | config/config.go:355-366 | behind a closing quote without a comma everything is dropped |
| Liveness.LivenessChecker.DoLivenessCheck | process/process.go:185-225 | a check is made only when it is due and sets when the next one is; the failure action follows it exactly if the failures at the end of the history are a positive multiple of the threshold, the success action exactly if the successes equal theirs |
| Liveness.FailureRun | process/process.go:158-171 | in a maximal run of n failures the failure action follows n / threshold times, and never with threshold 0 |
| Liveness.SuccessRun | process/process.go:149-177 | in a maximal run of successes the success action follows once if the run reaches the threshold, and else not |

## Left out

- The lifecycle model keeps the settings fixed while a process runs, leaves out hooks and log files, lets a child exit at any time, takes at least one stop signal to be configured, and does not fix how long a pause or a poll takes.
- The states that events announce.
- `changeStateTo` emits state events; the events are not part of the lifecycle model.
- The encoding of an event header, its serial numbers and the text protocol that tells READY and RESULT lines apart: a result is OK, FAIL, unknown or an error.
- Registering an event listener again under a name in use.
- LogRotation.FileLogger.Write: nobody else touches the log files, and sizes are integers without a bound.
- LogRotationProof.HistoryConserves: histories are of writes whose size can be measured, whose renames succeed and whose file can be opened again; what one failing rename costs is LogRotationProof.StuckLoses.
- ReadLog, ClearAllLogFile and the other loggers.
- Configuration.Config.ParseSection: a section stands for one process after `numprocs` and the expressions in its name and command are expanded; the default section, include files, the INI syntax and the group sections are not part of this model.
- Configuration.Config.LoadSections: it starts from the sections, and the load of the files never fails.
- ConfigEntry takes option values as `GetString` returns them, with references to the environment already expanded.
- Supervisor.Supervisor.Reload: automatic starts, the web server, the resource check that ends the supervisor, and the group lists returned are not modelled; what a stop does to a process is the lifecycle model.
- Supervisor.Supervisor.Reload: names must not be used both for a program and for something else, and the dependencies after the load must be acyclic, because the source then never returns.
- ProcessSort.SortByPriority: the source leaves the order of equal priorities to `sort.Sort`, and the contract to any order; it reads `int` as 64 bits.
- Supervisor.Supervisor.ReloadEach: a sequence of calls of `Reload` and nothing in between.
- ProcessManager.Manager.StopAllProcesses: the calls of `Stop` come one after the other, while the source makes them at the same time and waits.
- Finding processes by name or group, and starting processes automatically.
- StringExpression.StringExpression.Eval: `fmt.Sprintf` is any function, of which only the termination and template theorems assume that a plain width of up to six digits brings no percent sign; the variables come from the caller, not from the operating system.
- ExpressionTermination.TerminatesIff: a reference that arises from a percent sign at the end of one value and what follows it, and one to a number with anything but a width between its parenthesis and its type, are not covered.
- Liveness.LivenessChecker.DoLivenessCheck: checks do not overlap; an action that takes longer than the check period can let the next check start before the counters are reset.
- Servers, clients, the command line, the web interface, process creation, signals, resource limits, users, schedules and file change monitors.
