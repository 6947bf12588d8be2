# agentctl: a verified model of its protocols

agentctl supervises agent processes on one machine. `agentd` starts, adopts, restarts and stops them from a
table of 32 slots and hands out message channels to those whose policy allows it. The kernel module `agentfs`
offers bounded mailboxes to registered agents. A small ASCII format carries the messages. This project models
the parts of it that have state, interleaving or a wire format, and proves what they promise.

Check it with `dafny verify dfyconfig.toml`. Bytes are modelled as characters.

- **Supervisor** (`SupervisorModel`, `SupervisorSafety`, `SupervisorRestart`, `SupervisorRuns`,
  `SupervisorStops`, `SupervisorCrashLoop`, `SupervisorEffects`, `SupervisorDescriptors`, `SupervisorBoot`,
  `SupervisorStartup`, `SupervisorPidFiles`, `Agentd`). `SupervisorModel` is the state machine: slots, settings on disk, processes that live, become zombies
  and go, a clock, open descriptors. `SupervisorBoot` and `SupervisorStartup` carry its theorems back to the
  moment agentd starts, and `SupervisorPidFiles` across a restart of agentd. `SupervisorEffects` says what each
  handler achieves. `Agentd` is the same code as a class with a slot array, a reaper loop nested in the stop loop and the command handlers; every method is
  proved to compute the function of that step, so the lemmas about runs are about it. Forking, waiting and
  signalling are choices of the environment.
- **agentfs** (`AgentfsModel`, `AgentfsInvariant`, `AgentfsSteps`, `AgentfsTheorems`, `Agentfs`, `AgentfsPasses`). Threads
  interleave at the grain of single writes to shared fields; both locks have explicit owners, and a thread's
  position says which ones it holds. `Agentfs` is the code on one entry as a class, proved equal to the steps
  of its critical sections taken in order. `AgentfsPasses` says what the reaper, a registration and unload achieve
  from any reachable state when nobody interrupts them.
- **Broker** (`Exchange`, `Broker`, `Policy`, `PolicyAppend`, `Issuance`). The client's two-level lock as a state machine over
  processes and threads; the request parser; the policy scanner and matcher; the event handler with every
  descriptor accounted for.
- **Wire format** (`Wire`, `Ipc`, `IpcStream`, `Codecs`, `FramedRule`, `LineRules`, `WireRule`, `PythonRule`). The in-place parser over a byte array, the
  stream framer over arbitrary chunks, and the other encoders and decoders in C and Python, each decoder with
  a declarative rule for the bytes it accepts.
- **Smaller pieces** (`Fanout`, `SendTargets`, `KvFile`, `Seccomp`).
- `Text`, `AgentNames` and `Options` hold what they share.

## What holds only under a condition

Where the code does less than its documentation says, the model follows the code.

- The restart delay is documented as capped at 30 seconds (`docs/design-invariants.md:146`). The cap is never
  reached: the fifth short run ends in `crash-loop`, so the delays are 1, 2, 4 and 8 seconds
  (`BackoffIsSmallPower`).
- "At most one pidfd per supervised process" (`docs/design-invariants.md:86`) fails in one window: a start
  between the death of an adopted runtime and its cleanup overwrites the slot's pidfd without closing it. A step
  leaks exactly then (`StepLeaksIffStartOverPidfd`), and the window is reached from startup (`LeakAfterStartup`).
- A name of 64 bytes passes `validate_name`, but a slot stores 63. A slot is found again under its name exactly
  when the name fits (`SlotFoundAgainIffNameFits`). Starting a 64-byte name twice leaves two runtimes of one agent
  exactly when its first 63 bytes name an agent, since the runtime is looked up under the name in the slot
  (`LongNameStartsTwice`). Whether or not a process comes of it, each start takes one more slot
  (`LongNameFillsTable`).
- Recovery keeps a live runtime exactly when the table has a slot for it (`RecoveryDropsIffFull`).
- A comment at `agentd.c:304-308` says that the reap inside a stop will not restart the agent. Stopping a running
  agent schedules its restart exactly when its exit is reaped, in a round of the stop loop, while the agent is
  wanted, its policy asks for a restart on that exit, and fewer than five failures are counted
  (`StopSchedulesExactly`). If nobody asks for the agent meanwhile that cannot be (`StopNeverSchedules`). The stop
  command gives up the slot and so leaves no schedule in any case (`StopCommandLeavesNoSlot`).
- The exchange over the broker channel is safe exactly when both locks are used, no process dies between its
  request and the reply, and no receive fails (`SafeExactlyWhen`): after a death or a failed receive the lock is
  free while the request is still outstanding.
- A broker packet that is empty but carries descriptors leaves them open (`ConservedExactly`).
- Appending to a policy keeps every grant, whatever is appended, exactly when the file is not fragile: fragile is a
  file that is read whole with room left, whose unterminated last line is among the first 32 allowing lines, and
  whose pattern no earlier one covers (`SafeExactlyIfNotFragile`).
- Duplicate headers and malformed lengths are documented as violations, and recognised values as never truncated
  (`docs/design-invariants.md:55`). `parse_framed_in_buf` takes the last of two LEN, REPLY-TO or TASK-ID lines,
  reads `LEN abc` as 0 and `LEN 5x` as 5, and drops a value that is too long or led by a space. On what it accepts
  it agrees with the in-place parser, which enforces the rule, exactly when no known header repeats and every
  header line is kept as it stands (`AgreesExactlyWhenKept`).
- A fanout task that nobody accepted is `failed`, until any result naming it turns it into `completed`
  (`StrayResultCompletesFailedTask`). A result whose task id has a dot can remove another task's pending entry. A
  run keeps every task's count of outstanding targets right exactly when no result shares its file name with an
  outstanding delegation of another task (`AlwaysAccurateExactlyIfNoCollision`); accepting no name with a dot is enough
  (`DotFreeRunHasNoCollision`).
- Of the `deny send:` lines only the first sixteen are obeyed (`CollectedExactly`, `SeventeenthDenyIsIgnored`).
- `agentctl config` passes a value with newlines on. Every key stays on one line exactly when the lines of each
  accepted argument have different keys, and those other than its own key are new to the file
  (`AlwaysOneLineExactlyIfAllFit`, `NewlineDoublesKey`). Setting the same thing twice changes nothing exactly when
  the argument is one line, newlines at its end aside (`SetTwiceExactly`).
- The seccomp filter is accepted exactly up to the kernel's 4096 instructions (`FilterIsAccepted`).

## Model

| member | source | states |
|---|---|---|
| SupervisorSafety.OneRuntimeInEveryRun | agentd.c:121-511 | in every run, each agent has at most one live runtime not sent SIGKILL, it is held by the slot of that name, used slots have distinct names and pids, and a slot without a process holds no descriptor |
| SupervisorSafety.StepKeeps | agentd.c:911-971 | every step, whatever exits during it, keeps the safety invariant |
| SupervisorSafety.CoreMeansOneRuntime | agentd.c:121-174 | the safety invariant means one runtime per agent, found through its slot |
| SupervisorEffects.ExitTable | agentd.c:348-405 | one reaped exit by exit, settings and slot alone: status crashed for a signal, failed for a non-zero code, stopped for zero; policy never, and on-failure with a clean exit, end in desired stopped without a schedule; every other exit of a wanted agent counts and schedules 2^(k-1) seconds, or at five marks crash-loop and stops |
| SupervisorEffects.ExitOfRemoved | agentd.c:348-369 | an exit after the directory is gone clears the slot and nothing else |
| SupervisorEffects.ReconcileStarts | agentd.c:490-505 | a wanted agent without a process, with its delay over and a slot for it, ends with the forked process live in its slot, or with the next try a second later |
| SupervisorEffects.ReconcileWaits | agentd.c:493-494 | before its delay is over it is left alone |
| SupervisorEffects.ReconcileStops | agentd.c:506-510 | an agent that runs and is not wanted ends with its process gone or sent SIGKILL, and the slot gets no other |
| SupervisorEffects.ReconcileElse | agentd.c:472-511 | in all other cases reconciling only cleans up after an adopted runtime that is gone |
| SupervisorEffects.DropExternalCleans | agentd.c:481-486 | that cleanup leaves status stopped and an empty slot of the agent, by reconcile and by pidfd alike |
| SupervisorEffects.ForgetFrees | agentd.c:876-894 | after a directory is gone its agent has a slot exactly if it still has a process |
| SupervisorEffects.StartStarts | agentd.c:911-942 | a start makes the agent wanted; without a process and with a slot it gets one, counter and delay cleared, and otherwise nothing is created |
| SupervisorEffects.StopStops | agentd.c:944-962 | a stop leaves the process gone or sent SIGKILL, and the agent unwanted unless somebody asks for it meanwhile |
| SupervisorEffects.RestartRestarts | agentd.c:964-971 | a restart of a running agent ends with the old process gone or sent SIGKILL and the new one in its place |
| SupervisorBoot.OneRuntimeFromBoot | agentd.c:429-470 | the same safety from startup on, when the scan visits every agent that has a runtime and never meets a full table |
| SupervisorBoot.RecoveryDropsIffFull | agentd.c:429-452 | a live runtime found by the scan is held afterwards exactly when the table had a slot for it |
| SupervisorStartup.RecoverActs | agentd.c:429-470 | one visit of the scan: a live runtime is adopted, a dead one's pid file cleared, a wanted agent started, and the slot given up if the fork fails |
| SupervisorPidFiles.PidFilesFromBoot | common.c:1353-1358 | from startup on, for as long as nobody else writes it, an agent's pid file names its runtime if that was not sent SIGKILL, and never another agent's |
| SupervisorPidFiles.StepPid | agentd.c:220-256 | every step keeps that |
| SupervisorPidFiles.ForgottenIsJustStarted | agentd.c:429-452 | with right pid files and its table forgotten, the world is one a new agentd may start in |
| SupervisorPidFiles.OneRuntimeAcrossRestarts | agentd.c:429-470 | so one runtime per agent holds across two lives of agentd: the second adopts what the first left |
| SupervisorBoot.ThirtyTwoAgentsFit | agentd.c:138-154 | from the empty table of a daemon that has just started, the scan over at most 32 agents never meets a full table |
| SupervisorBoot.SlotFoundAgainIffNameFits | agentd.c:121-154 | a slot is found under the name it was made for exactly when that name has at most 63 bytes |
| SupervisorBoot.LongNameStartsTwice | agentd.c:202-256 | starting a 64-byte name twice leaves two runtimes of one agent exactly when the name cut to 63 bytes is an agent |
| SupervisorBoot.LongNameFillsTable | agentd.c:138-154 | every start of such a name takes one more slot, fork or no fork, until the table is full |
| SupervisorStartup.BootSpawnsWanted | agentd.c:462-469 | every process the recovery scan creates is the runtime of an agent that is enabled and desired running |
| SupervisorStartup.NothingLeaksFromBoot | agentd.c:429-470 | from startup on, every slot's descriptors are its own and open, and none is lost in a run without a start over a pidfd |
| SupervisorStartup.LeakAfterStartup | agentd.c:437-444 | from startup a runtime is adopted, dies and is started over: a reachable leak |
| SupervisorStartup.StopSchedulesFromBoot | agentd.c:279-338 | in every state reachable from startup, stopping a running agent schedules its restart exactly under the condition of StopSchedulesExactly |
| SupervisorRestart.FailuresAreTheStreak | agentd.c:382-387 | in every run a slot's failure counter is the one number that counts the exits since the last reset, or since and including the last stable one |
| SupervisorRestart.StreakStep | agentd.c:383-384 | an exit after at least 30 seconds restarts the streak at one, a shorter one extends it |
| SupervisorRestart.CrashLoopAfterFiveSpawns | agentd.c:386-397 | an agent with only short, restart-eligible exits since its reset is spawned at most five times, and after the fifth exit exactly five times with desired state stopped |
| SupervisorRestart.StepBooks | agentd.c:342-407 | every step keeps counter, spawns, exits and desired state in step with the history |
| SupervisorRuns.SpawnsAreWanted | agentd.c:472-511 | a process appears, in any step after the recovery scan, only for an agent that is enabled and desired running |
| SupervisorRuns.StoppedIsFinal | agentd.c:463-511 | once desired state is stopped, no run in which nobody sets it to running creates a process for the agent |
| SupervisorRuns.DeclinedOrSuppressedIsFinal | agentd.c:366-397 | an exit that the policy declines or that is the fifth short one stops the agent until somebody asks for it again |
| SupervisorRuns.BackoffIsSmallPower | agentd.c:386-401 | a scheduled delay is 2^(k-1) seconds with k from 1 to 4; the fifth failure schedules nothing and marks crash-loop |
| SupervisorRuns.NoRespawnBeforeBackoff | agentd.c:490-505 | no automatic path respawns the agent before that delay has passed |
| SupervisorStops.StopSchedulesExactly | agentd.c:279-338 | stopping a running agent leaves it scheduled exactly when its exit is reaped, in a reached round, while the agent is wanted, its policy restarts on that exit and the burst limit is not reached |
| SupervisorStops.ReapAllSlot | agentd.c:342-407 | reaping the whole queue treats a slot as reaping its own exit alone would |
| SupervisorStops.RunPending | agentd.c:220-247 | in every run a slot that has a process has no restart scheduled |
| SupervisorStops.StopCommandLeavesNoSlot | agentd.c:944-962 | the stop command leaves no slot of that name, and so no schedule, whatever happens meanwhile |
| SupervisorStops.StopNeverSchedules | agentd.c:304-309 | if nobody asks for the agent meanwhile, the reap nested in a stop leaves its schedule, counter and restart count alone |
| SupervisorStops.StopSchedulesIfWantedAgain | agentd.c:279-338 | an agent asked for again between the signal and the exit is scheduled, under any policy that restarts on that exit |
| SupervisorCrashLoop.CrashLoopStaysMarked | agentd.c:386-397 | the fifth failure marks the agent crash-loop and stopped, and every run in which nobody edits its files or starts it keeps both marks and no process |
| SupervisorDescriptors.StepLeaksIffStartOverPidfd | agentd.c:929-936 | every step keeps each slot's descriptors its own and open, and leaks one exactly when it starts over a pidfd that was not cleaned up |
| SupervisorDescriptors.RunLeaksNothing | agentd.c:158-174 | a run without such a start leaks nothing, from any state whose ledger is in order; NothingLeaksFromBoot gives the states from startup on |
| SupervisorDescriptors.DeadAdoptedRuntimeLeaksItsPidfd | agentd.c:236-247 | the window exists: an adopted runtime dies and the agent is started before the main loop looks |
| SupervisorModel.AllocIndexIsFirst | agentd.c:138-154 | the slot handed out is the first of that name, or the first free one if there is none of that name, and there is none exactly when all are in use by others |
| AgentNames.ValidNameIsOneComponent | common.c:21-33 | a valid name is one path component, not hidden, not a parent, not an option |
| Agentd.Supervisor.constructor | agentd.c:1275-1276 | a table of 32 free slots |
| Agentd.Supervisor.FindByName | agentd.c:121-127 | the first used slot of that name |
| Agentd.Supervisor.FindByPid | agentd.c:129-136 | the first used slot of that pid; pid 0 is nobody's |
| Agentd.Supervisor.AllocSlot | agentd.c:138-154 | the slot of that name, or the first free one, reset for it |
| Agentd.Supervisor.ClearRuntimeState | agentd.c:158-165 | closes the slot's three descriptors and forgets the pid |
| Agentd.Supervisor.ReleaseSlot | agentd.c:167-174 | closes the slot's descriptors and frees it |
| Agentd.Supervisor.SpawnAgent | agentd.c:220-256 | it succeeds exactly when the slot's own name is an agent and the fork succeeds; then the slot holds the new process and its descriptors and the pid file its pid |
| Agentd.Supervisor.StopAgent | agentd.c:279-338 | the signalling rounds with the nested reap compute the stop of the state machine |
| Agentd.Supervisor.ReapZombies | agentd.c:342-407 | the wait loop computes the reaping of the whole queue |
| Agentd.Supervisor.HandleOneExit | agentd.c:349-407 | one exit is booked, declined, suppressed or scheduled as the state machine says |
| Agentd.Supervisor.DecideRestart | agentd.c:366-407 | policy, streak, crash-loop limit and delay for one exit |
| Agentd.Supervisor.RecoverCb | agentd.c:429-470 | adopt a live runtime, drop it if the table is full, or start a wanted agent |
| Agentd.Supervisor.ReconcileCb | agentd.c:472-511 | clean up a dead adopted runtime, respect the delay, start what is missing |
| Agentd.Supervisor.PidfdReady | agentd.c:1344-1362 | an adopted runtime whose pidfd fires is cleaned up |
| Agentd.Supervisor.DirectoryGone | agentd.c:876-894 | when an agent's directory is gone its slot is freed, unless it still has a process |
| Agentd.Supervisor.HandleCmdStart | agentd.c:911-942 | the start command, its reset of the backoff, and which of its six replies is given when |
| Agentd.Supervisor.HandleCmdStop | agentd.c:944-962 | the stop command, and which of its four replies is given when |
| Agentd.Supervisor.HandleCmdRestart | agentd.c:964-971 | stop, then start, with the reply of the start unless there is no such agent |
| Agentd.Supervisor.ScheduledRestartTimeoutMs | agentd.c:515-527 | the poll timeout is the smaller of the fallback and the earliest scheduled restart |
| Agentd.Supervisor.ScheduledRestartDue | agentd.c:529-538 | true exactly when some scheduled restart is due |
| Agentd.TimeoutMeetsTheFirstRestart | agentd.c:1324-1379 | sleeping less than the timeout oversleeps no restart, sleeping it out makes one due |
| AgentfsTheorems.EveryInterleavingIsGood | kernel/agentfs.c:179-804 | every interleaving of readers, writers, pollers, registrants, the reaper and unload keeps the whole invariant |
| AgentfsTheorems.MailboxesAreSound | kernel/agentfs.c:151-309 | whenever an agent's lock is free, both mailboxes are FIFO and exactly-once, the counters equal the sums, the bounds hold, and a dead agent's queues are empty |
| AgentfsTheorems.NeverLosesOrder | kernel/agentfs.c:222-309 | even inside the lock, accepted messages are those removed followed by those queued, within 1024 messages and 8 MiB |
| AgentfsTheorems.HistoryOnlyGrows | kernel/agentfs.c:151-309 | along any run, what was accepted and who removed it only gets longer |
| AgentfsTheorems.RegistryIsSound | kernel/agentfs.c:565-655 | names are unique and task references equal owner pointers in every state; whenever the global lock is free, dead holds exactly when there is no owner |
| AgentfsTheorems.NobodyAliveIsReaped | kernel/agentfs.c:179-218 | no interleaving of reaper and re-registration marks dead an agent whose current owner is alive |
| AgentfsTheorems.OnlyTheOwnerlessDie | kernel/agentfs.c:186-200 | in a consistent state only the reaper sets the flag, and only on an agent without a live owner |
| AgentfsTheorems.RefusedExactlyWhileOwned | kernel/agentfs.c:582-593 | in every reachable state, a registration that holds an entry of its name is refused exactly while the entry's owner is alive, and takes it over otherwise, reaped or not |
| AgentfsTheorems.ReaperTakesExactlyTheAbandoned | kernel/agentfs.c:186-200 | in every reachable state, the reaper's walk takes up an entry exactly when it has an owner and that owner is gone |
| AgentfsPasses.ReaperPass | kernel/agentfs.c:179-218 | an undisturbed pass from any reachable state leaves exactly the entries whose owner was gone dead, drained and without owner, and all others as they were |
| AgentfsPasses.RegisterPass | kernel/agentfs.c:565-655 | an undisturbed registration is refused exactly while the name has a live owner, takes over an entry without one, and adds an entry for a new name |
| AgentfsPasses.UnloadPass | kernel/agentfs.c:771-804 | an undisturbed unload runs to its end and leaves no entry, no list and no task reference |
| AgentfsTheorems.NoUseAfterFree | kernel/agentfs.c:640-655 | every entry a thread is about to touch is allocated |
| AgentfsTheorems.NoDeadlock | kernel/agentfs.c:179-655 | while any thread is inside a call and not asleep on an empty mailbox, some thread that is not asleep either can take its next step |
| AgentfsTheorems.UnloadFreesEverything | kernel/agentfs.c:771-804 | once unload has emptied the list, every entry is freed and every task reference returned |
| Agentfs.UnloadLosesNoMessage | kernel/agentfs.c:782-800 | of each entry that unload frees, both queues are empty and every message that was queued has been drained in order |
| AgentfsTheorems.PollTellsTheTruth | kernel/agentfs.c:311-332 | readable means a read takes a message, readable or hung up means it does not sleep, writable and fitting means a write is accepted, hung up excludes both |
| AgentfsSteps.StepKeepsInv | kernel/agentfs.c:565-804 | each atomic step keeps locks, list, references, counters and life cycle consistent |
| AgentfsInvariant.MailStepKeeps | kernel/agentfs.c:222-332 | each step of a read, write or poll keeps the invariant |
| AgentfsInvariant.ReapKeeps | kernel/agentfs.c:179-218 | each step of the reaper keeps the invariant |
| AgentfsInvariant.RecycleKeeps | kernel/agentfs.c:576-620 | each step of re-registering a dead entry keeps the invariant |
| Agentfs.Entry.constructor | kernel/agentfs.c:623-640 | a new entry is alive, owned by its registrant, with empty mailboxes |
| Agentfs.Entry.Write | kernel/agentfs.c:267-309 | the five outcomes of a write, and the state its critical section leaves |
| Agentfs.Entry.Read | kernel/agentfs.c:222-265 | a read takes the oldest message, or end of file on a dead agent, or would block |
| Agentfs.Entry.Drain | kernel/agentfs.c:151-160 | the drain loop |
| Agentfs.DrainedOutIs | kernel/agentfs.c:151-160 | a drain removes everything queued, oldest first, and zeroes the counters, touching nothing else |
| Agentfs.Entry.Reap | kernel/agentfs.c:186-210 | a live or already dead entry is left alone; otherwise it is marked, drained and disowned, and the owner's reference is the one dropped |
| Agentfs.Entry.Recycle | kernel/agentfs.c:576-620 | on an entry that is dead exactly if it has no owner, refused exactly while the owner lives; otherwise drained, re-owned and revived with the old reference dropped |
| Agentfs.WriteIs | kernel/agentfs.c:290-305 | the steps of a write, taken in order, are one append with both counters or nothing |
| Agentfs.ReadIs | kernel/agentfs.c:232-257 | the steps of a read, taken in order, are one removal with all three counters, or nothing |
| Exchange.EveryCallGetsItsOwn | ipc.c:35-66 | with both locks and no fault, no interleaving of processes and threads has two requests outstanding or gives a caller a descriptor minted for another's request |
| Exchange.SafeExactlyWhen | ipc.c:240-280 | all runs are safe if and only if the flag and the record lock are both used, nobody dies between request and reply, and no receive fails |
| Exchange.CallReturnsTheAnswer | ipc.c:240-290 | a call that finds locks and channel free and whose system calls succeed returns what was answered to its own request, and leaves them free |
| Exchange.MissingLockMixesUp | ipc.c:30-33 | without either lock some run hands a caller another's descriptor |
| Exchange.DeathBeforeReplyMixesUp | ipc.c:249-266 | a process killed before it reads its reply leaves that reply to the next caller |
| Exchange.FailedReceiveMixesUp | ipc.c:264-268 | so does a receive that fails: the lock is given up with the request outstanding |
| Broker.ParseBuffer | broker.c:65-127 | the cursor loop computes the parse |
| Broker.ParseIsGrammar | broker.c:65-127 | a buffer is accepted with given fields exactly when it is header lines, an empty line and anything, known headers occur at most once with admissible values, VERB and CAP are there, TOKEN when issued |
| Broker.FitsExactly | broker.c:52-63 | the admissible values: three verbs, and 1 to 127, 31, 127 and 8 bytes for the others |
| Broker.OrderAndTrailerDoNotMatter | broker.c:65-127 | reordering the lines and replacing what follows the empty line changes nothing |
| Broker.ParseInvertsIssued | broker.c:131-139 | formatting and parsing an issued reply is the identity exactly on non-empty, bounded, one-line values without leading space |
| Broker.ParseInvertsDenied | broker.c:141-150 | the same for a denied reply |
| Broker.ParsedIsPlain | broker.c:57-63 | every parsed field is such a value |
| Broker.IssuedReplyFits | broker.h:28-31 | the issued reply for any parsed capability fits 512 bytes |
| Policy.ScanPatterns | agentd.c:555-586 | the scanner loop |
| Policy.PatternOfIsDeclared | agentd.c:570-581 | a line yields a pattern exactly when it is blanks, allow, blanks, the pattern, blanks |
| Policy.AllowedIsTheRule | agentd.c:555-586 | a capability is allowed exactly when one of the first 32 allowing lines of the readable text declares it, or a beginning of it and a star |
| Policy.MatchesIs | broker.c:156-166 | a pattern matches its own text, and every name that begins with what stands before its final star |
| Policy.PolicyCheck | broker.c:156-176 | the search loop finds a match exactly when there is one |
| PolicyAppend.SafeExactlyIfNotFragile | agentd.c:555-586 | nothing appended to a policy file can take a grant away, if and only if the file is not fragile |
| Policy.AppendingKeepsGrants | agentd.c:555-586 | in particular appending to a policy made of whole lines never takes a grant away |
| Policy.UnterminatedLineLosesGrant | agentd.c:570-583 | a fragile file and a text that takes its grant away |
| Issuance.EveryIssueIsRightful | agentd.c:689-760 | over any run, every descriptor sent to a requester answers its own well-formed request, allowed by the policy file of the agent in the requester's slot at that moment, after the other end was delivered to a live target's inbox with metadata naming the requester's slot |
| Issuance.GrantedExactly | agentd.c:653-769 | a requester is sent a descriptor exactly when it asked in due form, its own policy allows it, the first agent of that name listens, and pair, delivery, token and reply succeed; then the delivery and the issued reply are all that is sent |
| Issuance.HandleSends | agentd.c:653-769 | what an event sends in every case: nothing at the end of the channel, the denial with the reason of that case, a delivery and a denial, or a delivery and the issued reply |
| Issuance.DenialIsHeard | broker.c:141-150 | a denial for one of the handler's own reasons always fits and reads back as such |
| Issuance.HandleIsProper | agentd.c:653-769 | one event answers at most once, on the requester's channel, and what it sends is proper |
| Issuance.ConservedExactly | agentd.c:665-769 | an event leaves exactly the descriptors it found, less a closed channel, and closes nothing twice, except that an empty packet's descriptors stay open |
| Issuance.IssueFds | agentd.c:612-651 | each end of a minted pair is closed exactly once on every path |
| Issuance.RunConserves | agentd.c:653-769 | a run of events ends with the descriptors it began with, less the channels it hung up |
| Issuance.ReceiverReadsRequester | ipc.c:213-221 | the receiver reads back exactly the slot name and pid the broker wrote |
| Issuance.BrokerDaemon.IssueChannel | agentd.c:612-651 | minting, delivery, token and reply with every early return |
| Issuance.BrokerDaemon.HandleEvent | agentd.c:653-769 | the whole handler |
| Issuance.BrokerDaemon.CloseInbound | agentd.c:681-687 | the loop that closes inbound descriptors |
| Wire.RoundTrip | ipc.c:317-340 | a built frame parses back to the same fields and payload, with or without LEN, whatever the payload holds |
| Wire.SurvivesExactlyIfPlain | ipc.c:474-550 | within the size cap a message survives exactly when its fields are one line, NUL-free and without leading space, and the verb is not empty |
| Wire.DecodedIsPlain | ipc.c:474-550 | whatever bytes arrive, the fields handed out are such values |
| WireRule.ParseIsTheRule | ipc.c:474-550 | the in-place parser hands out a message exactly when there is an empty line, the lines before it have no known header twice, no empty verb and no LEN that is not a length, one names the verb, and the payload is there |
| WireRule.LenValueIs | ipc.c:511-520 | a length is white space, a sign or none, and digits to the end, from 0 to the cap |
| Wire.Parse | ipc.c:474-550 | the payload slice lies inside the buffer |
| Ipc.ParseInPlace | ipc.c:474-550 | on arbitrary bytes the loop accepts exactly when the parse does, its pointers read back as the fields, and it writes only NULs over newlines that end header lines |
| Ipc.FindSeparator | ipc.c:476-481 | the first empty line, or none |
| Ipc.TakeLineAt | ipc.c:506-536 | one header line, with its duplicate and value checks |
| IpcStream.ReceiveFrame | ipc.c:562-609 | however the payload is chunked, the buffer gets exactly one frame and the stream is left at the byte after it |
| WireRule.ReceiveIsTheRule | ipc.c:562-609 | a frame is cut exactly when the first empty line ends inside the buffer, the first LEN line has a length in its first 31 bytes, and the payload is there and fits; the peer is gone exactly when nothing is left |
| IpcStream.ReadHead | ipc.c:564-579 | the byte loop stops at the first empty line, at end of file or when the buffer is full |
| IpcStream.FindNeed | ipc.c:580-597 | the length is that of the first LEN line, cut to 31 characters |
| IpcStream.FrameIsCut | ipc.c:562-609 | a built frame is cut where it ends, whatever follows |
| IpcStream.StreamRoundTrip | ipc.c:562-609 | a stream of built frames decodes to exactly the messages sent, in order |
| IpcStream.FramerAndParserAgree | ipc.c:580-597 | whenever both accept, framer and parser agree on the payload length, even where the number buffer cut it short |
| Codecs.BuildHeader | ipc.c:317-340 | the header is the lines in order and an empty line, or nothing if the verb is empty or the buffer too small |
| Codecs.IpcFrame | ipc.c:346-366 | ipc_send's bytes |
| Codecs.AgentfsFrame | common.c:872-903 | agentfs_send's bytes are the same frame |
| Codecs.PythonFrame | sdk/python/agent.py:112-119 | the SDK's bytes are the same frame |
| Codecs.ParseFramed | common.c:784-851 | the loop of the in-buffer parser |
| WireRule.FramedParseIsTheRule | common.c:784-851 | it returns a message exactly when the first line is a verb of 1 to 63 bytes, every LEN is short and begins with a number in range or with none, there is one, and the payload of the last is there; the last REPLY-TO and TASK-ID that fit are the fields |
| Codecs.FramedRoundTrip | common.c:784-851 | it decodes every built frame within the limits to the message sent |
| Codecs.ParsePython | sdk/python/agent.py:122-151 | the loop over the header lines computes the parse |
| PythonRule.PyParseIsTheRule | sdk/python/agent.py:122-151 | it returns a message and a byte count exactly when there is an empty line, every LEN is an integer, the last one of each header gives its field without leading white space, the verb is not empty, and the payload is there |
| Codecs.PyRoundTrip | sdk/python/agent.py:122-151 | so does the SDK, and it reports how many bytes it used |
| Codecs.DecodersAgree | common.c:784-851 | the three decoders return the same message for every frame the encoders produce from declared fields |
| FramedRule.AgreesExactlyWhenKept | common.c:784-851 | on every buffer the in-buffer parser accepts, the in-place parser returns the same message exactly when no known header repeats, the verb is not empty, LEN is one whole number, and no REPLY-TO or TASK-ID with anything in it is too long or led by a space |
| Codecs.SecondLenIsTaken | common.c:813-826 | of two LEN lines the in-buffer parser takes the last, and the in-place parser refuses the frame |
| Codecs.PrefixIsIncomplete | sdk/python/agent.py:122-151 | no proper beginning of a frame is taken for a frame |
| Codecs.RecvOneFrame | sdk/python/agent.py:154-168 | however the bytes are chunked, the read loop returns the message of the frame the stream begins with; an empty chunk ends the stream |
| Fanout.CompletedExactlyWhenAllReplied | fanout-agent.c:267-285 | in every run without a collision a delegated task is completed exactly when all accepted targets have replied, and its prefix count is the number that have not |
| Fanout.AlwaysAccurateExactlyIfNoCollision | tasks.c:461-517 | throughout a run every task's prefix count is the number of its outstanding targets exactly when no result shares its file name with an outstanding delegation of another task |
| Fanout.AccurateExactlyIfNoCollision | tasks.c:491-497 | the same for one result |
| Fanout.CollisionCompletesEarly | fanout-agent.c:267-285 | a collision that takes a task's last entry lets its next result complete it while a target is still outstanding |
| Fanout.DotFreeRunHasNoCollision | tasks.c:461-473 | a run that accepts no name with a dot has no collision |
| Fanout.LastFirstReplyCompletes | fanout-agent.c:267-285 | the step that completes it is the first reply of the last accepted target |
| Fanout.CountIsOutstanding | tasks.c:499-517 | for dot-free ids the file-name prefix count is the size of the outstanding set |
| Fanout.FileNamesCollide | tasks.c:461-473 | which two delegations share a pending file name |
| Fanout.StrayResultCompletesFailedTask | fanout-agent.c:353-360 | a task nobody accepted is failed until a result names it |
| Fanout.DottedIdTakesAnotherEntry | tasks.c:491-497 | a result with a dotted id can stand in for another task's reply |
| Fanout.FanoutAgent.HandleResult | fanout-agent.c:267-285 | the result handler |
| Fanout.FanoutAgent.HandleIncoming | fanout-agent.c:306-360 | the delegation loop |
| Fanout.FanoutAgent.PendingCount | tasks.c:499-517 | the directory loop counts the names with the id and a dot in front |
| SendTargets.CollectSendTargets | fanout-agent.c:28-89 | the scan and the compaction in place yield the collected targets |
| SendTargets.Compact | fanout-agent.c:76-88 | compaction in place keeps order and drops exactly the denied |
| SendTargets.CollectedExactly | fanout-agent.c:28-89 | a target is collected exactly when one of the first sixteen lines that allow a target by name names it, none of the first sixteen that deny one does, and no line is `deny send:*` but for white space |
| SendTargets.RuleOfIsDeclared | fanout-agent.c:36-70 | which rule a line is: white space, the word, white space, `send:` and a target of 1 to 63 bytes that does not begin with a star, or `*` after deny, white space; every other line is none |
| SendTargets.KeptInOrder | fanout-agent.c:76-88 | dropping the denied keeps the others in order, repetitions included |
| SendTargets.SixteenDeniesHold | fanout-agent.c:57-69 | with at most sixteen denying lines nothing denied is collected |
| SendTargets.SeventeenthDenyIsIgnored | fanout-agent.c:64-68 | a seventeenth is not seen |
| KvFile.SetInFile | profiles.c:349-394 | the loop over the old text computes the set, or refuses it |
| KvFile.SetIsLines | profiles.c:349-394 | on any file of lines and for any argument with a key, newlines in it or not, the call replaces the key's line by the argument's lines or adds them at the end, unless the result is too long |
| KvFile.FileIsLines | profiles.c:349-394 | from empty, after any sequence of arguments, the file is the lines so computed and at most 4095 bytes |
| KvFile.OneLineExactlyIfFits | profiles.c:369-392 | a set keeps every key on one line exactly when the argument's lines have different keys and those other than its own key are new to the file |
| KvFile.AlwaysOneLineExactlyIfAllFit | profiles.c:349-394 | throughout a sequence of calls every key is on one line exactly when every accepted call fits so |
| KvFile.SingleLinesAllFit | profiles.c:349-394 | arguments without newlines always fit |
| KvFile.NewlineDoublesKey | agentctl.c:811-821 | a value with a newline in it puts another key on two lines |
| KvFile.SetIsUpdate | profiles.c:369-392 | read as a map, a set that fits replaces its key by what its lines say and leaves every other key as it was |
| KvFile.SingleLineUpdates | profiles.c:369-392 | an argument of one line is a plain map update of its key |
| KvFile.LastWriteWins | profiles.c:349-394 | after any sequence of calls that fit, the file is the map of the last accepted write of each key |
| KvFile.SetKeepsOrder | profiles.c:369-387 | the argument takes the place of the line with its key or comes last; the others keep their order, and empty lines go |
| KvFile.SetTwiceExactly | profiles.c:349-394 | setting the same thing again changes nothing exactly when the argument is one line, newlines at its end aside |
| Seccomp.FilterDecides | enforcement.c:453-585 | for every list, the filter kills exactly on a foreign architecture, allows exactly the listed numbers and answers the rest with EPERM |
| Seccomp.FilterIsAccepted | enforcement.c:465-583 | jumps stay inside, the last instruction returns, and the length passes the kernel's check exactly up to 2045 listed numbers |
| Seccomp.OnlyTheSetMatters | enforcement.c:453-455 | order and repetition in the list do not matter |

## Left out

- System calls (fork, poll, sendmsg, inotify, Landlock, cgroups, pidfd): choices of the environment, with fresh
  pids and descriptors and a clock that does not run backwards.
- A spawn that forks but fails before it is recorded: a spawn either fails without a process or succeeds.
- The main loop's use of poll results for slots released in the same iteration: descriptor statements are about
  used slots.
- Truncated broker packets: the handler closes the channel before the loop that closes inbound descriptors.
- OneRuntimeAcrossRestarts: a process that was sent SIGKILL is taken to be gone when the next agentd starts, and no
  process appears between the two.
- ReaperPass, RegisterPass, UnloadPass: undisturbed passes; what interleavings may do meanwhile is in AgentfsTheorems.
- A process of the exchange that closes descriptor 5, which would drop its record lock.
- agentfs directory building: an agent can be opened only once its tree is complete, so a tree that fails half
  way after its inbox file exists is not modelled.
- agentfs allocation failures, copy faults, the read-only text files and the truncation of long names in
  `register_write`.
- DecodersAgree: header fields are ASCII; UTF-8 decoding with replacement and the
  wider syntax of Python's `int` are not modelled.
- ParsePython: the same two, so a header with bytes over 127, or a LEN such as `+5` or `1_0`, is outside the model.
- CrashLoopAfterFiveSpawns: says nothing of the status file, which anybody may rewrite; CrashLoopStaysMarked does.
- Fanout across restarts: recovery marks tasks failed while their pending entries stay.
- Task ids: `task_create` refuses an existing directory, so ids are taken as new; sequence numbers and
  timestamps are not modelled.
- The list of syscalls itself, the remaining enforcement code, profiles search, layout migration, CLI, logging,
  token and secret generation, peer credentials.
