# Verified model of the Geneva server's generation lifecycle and packet path

The server moves a proxy's connections between immutable engine generations. A
generation is an artifact with a number; the number is carried in the conntrack mark of
every connection the generation owns, the nft program queues a connection's packets to
the engine its mark names, and a state file says which generations exist. This project
models that machinery in Dafny and proves what it is for: a connection stays on one
generation, every generation a packet can name has an engine and a durable record, a new
generation takes over without touching connections that existed before it, and every
failure either undoes itself, fails closed or is reported as fatal.

`dafny verify dfyconfig.toml` checks everything.

## How it is organised

| file | what it holds |
|---|---|
| `Marks.dfy`, `Selectors.dfy` | the mark namespace and what a queue rule selects |
| `Tcp.dfy`, `ScopeDerivation.dfy` | the flags of the TCP header; from a strategy's triggers to the packets the kernel must queue |
| `Steering.dfy` | the same for the rules that are installed at any moment of a run |
| `Artifacts.dfy` | admission checks, lifecycle entries, the state file and its round trip |
| `Host.dfy` | the machine: nft program, conntrack table, state file, and the history of a run |
| `Registry.dfy`, `Engine.dfy` | the engines and their counters |
| `Allocation.dfy` | which generation number is handed out |
| `Latch.dfy` | the fault latch at the granularity of single atomic operations |
| `Lifecycle.dfy` | what table, registry, program and file have to do with each other; the atomics as a lifecycle operation sees them |
| `Controller.dfy` | the controller itself |
| `Runs.dfy` | whole runs: calls that interleave, processes started, driven, killed at any moment and started again |
| `Queue.dfy`, `Runtime.dfy` | deferred and individual verdicts; one packet through its engine |
| `Netlink.dfy`, `Marshal.dfy` | reading packets out of a netlink read, writing verdicts into a reused buffer |
| `KernelCounter.dfy`, `Classifiers.dfy` | counters that survive table rebuilds; the two TCP classifiers |

The controller runs against a `Host`, which outlives it. Between any two steps of any
operation, `Controller.Disturbance` lets the environment act: packets create, retransmit,
answer, idle and expire connections under the installed program, integrity signals arrive,
and a finished reconciliation lowers its flag. A transaction that fails leaves the old or
the new program, a persist that fails leaves the old or the new file. The host keeps a
ghost history of every moment, and the controller a count of how often the environment has
refused something, so that a contract can say that nothing fails without a cause.
`Host.History` says that every moment so far was safe, that
marks only took legal steps, that everything ever persisted was the image of an
admissible view, and that what was on disk at any moment was there from the start, absent
or such an image. `Runs.Run` shows that this holds after any number of processes, each
killed at any moment inside any operation, so the theorems of `Host` hold of every
reachable state.

A call that lets go of the mutex, such as draining, collecting, rolling back or reporting
status, is pending until it takes it again, and any turn of anybody may come between
(`Runs.Turn`, `Runs.Others`). `Runs.Kept` is what holds whenever the mutex is free. It
carries a ledger of what could go wrong with each generation number, so that each way a
number can be reused is named, and for each there is a run that reuses one.

## What the code does not do

These are results about the code, each with a proof.

* **A fault can stay latched with nothing scheduled** (`internal/steering/controller.go:1259-1267`).
  The reconciliation goroutine releases the mutex before it lowers `integrityReconciling`.
  A signal in that window schedules nothing. If it falls between a repair's guard load and
  its reconciling load, the repair activates, finds its guard gone and fails: a generation
  is active, the fault is latched, and no reconciliation is left to run.
  `FaultCanBeLatchedWithNothingScheduled` is one schedule, with one indivisible signal.
  `FaultCanBeUnattendedExactlyWhen` is the exact condition, over every state in which a
  repair begins: the finished goroutine's flag is still up, some signal has yet to take the
  guard away, and a guard to be kept is there. In the controller, a repair can end that way
  only if the flag was up without a waiting reconciliation when it began
  (`ActivateLocked`), and a run without such a repair fails closed with no exception
  (`FailsClosed`).
* **A repair's success does not mean that no signal completed meanwhile**
  (`controller.go:853-895`). A signal that counted before the sample and disarmed before
  the arming completes in between and is cleared with the old latch
  (`SuccessDoesNotMeanNoSignalCompleted`). `CompletesInsideExactlyWhen` is the exact
  condition, over every state in which a repair has just taken its sample: that signal was
  in flight, no reconciliation was waiting, and a guard to be kept was there. With none in
  flight nothing happens at all inside a success (`SuccessMeansNothingHappened`), and a
  signal that counted after the sample is never hidden (`RepairNeverHidesLaterFault`).
* **A generation number can be reused while a connection carries it.** `README.md:130-131`
  and `deploy/README.md:233` say it cannot. The drain count leaves idle connections out
  when an idle age is configured, and an ordinary prepare takes no snapshot.
  What does hold, over every run, is that a carried number is handed out only after one of
  three lapses of that very number (`Process`, `Prepare`), and each of them is enough in a
  run that is otherwise undisturbed:
  a collection relied on a count that leaves idle connections out (`ReuseNumber`, from a new
  controller on a machine `ReuseFromStart`; never with no idle age configured);
  a collection relied on a count taken before some program assigned the number once more
  (`ReuseAssigned`: a generation is activated and deactivated again between the count and
  the rest of its collection);
  or the number was handed out although no snapshot had been taken since the start
  (`ReuseUnaudited`, `ReuseAfterBlindStart`: the startup audit fails, a rollback to a
  retained artifact lowers the latch without a snapshot, and an ordinary prepare follows).
  `ZeroDrainCountMeansUncarriedExactlyWhen` says for which idle ages and kernel timeouts a
  zero count can be trusted.
* **`Rollback` looks at `persistFatal` before it takes the mutex and not again**
  (`controller.go:691-775`). `RollBack` runs it with anybody's turns in between: when it
  succeeds it has lowered the latch, over a durability failure that stands exactly when
  that failure landed between the look and the rollback's last turn. And it does succeed:
  once the failure has landed, a rollback to a retained artifact ends with the latch down
  and a generation active unless something more is refused, a signal arrives or a
  reconciliation is under way (`RollBackOver`); `RollBackOverDrain` is the whole run, in which a drain that cannot write
  the state file comes in between.
* **A read that ends in a malformed message leaves accepts waiting**
  (`internal/nfqueue/queue_linux.go:267-276`), although the comment says that none ever
  waits for the next read. `ReadBuffer` says exactly when.
* **A verdict's replacement reads back exactly up to 65531 bytes**; beyond that the 16-bit
  length wraps (`VerdictRoundTripsExactlyWhenItFits`).
* **A visible counter restart can still lose packets** (`VisibleRestartCanStillLose`): those
  counted between the last reading and the rebuild. `TotalIsExactExactlyWhen` is the exact
  condition.
* Some error branches are unreachable under the controller's invariant: the engine
  re-check of a repair, activating an engine after the flip, removing a collected engine.
  They appear as assertions.

## Model

| member | source | states |
|---|---|---|
| Marks.AssignKeepsLow | internal/nftables/manager.go:286-289 | the SYN rule never changes the low 12 bits of a mark |
| Marks.AssignSetsReserved | internal/nftables/manager.go:286-289 | the SYN rule leaves exactly the assigned generation's reserved bits, and they are not zero |
| Marks.AssignNamesOwner | internal/generation/mark.go:21-35 | the owner decoded from an assigned mark is the assigned generation |
| Marks.QueueRuleMatchesDecoder | internal/nftables/manager.go:340-349 | on every 32-bit mark the kernel's queue rule and the userspace decoder name the same generation, both ways |
| Marks.NeutralIsOwnedByNobody | internal/flowtrack/counter_linux.go:314-316 | a neutral mark keeps its low bits, is not zero in the reserved ones, and names no generation |
| Selectors.HandshakeScopedSeesOnlyHandshake | internal/steering/controller.go:2003-2020 | a handshake-scoped selector queues nothing but SYN and SYN-ACK |
| Selectors.EveryPacketExactlyWhen | internal/steering/controller.go:2003-2020 | a scope whose matches are derived ones is in the every-packet class if and only if it queues some packet other than a SYN or a SYN-ACK |
| ScopeDerivation.TriggerValueReadsBack | internal/steering/scope.go:163-181 | reading a trigger's value out of its serialized form inverts the serialization, with or without gas |
| ScopeDerivation.UnknownLetterSpoils | internal/steering/scope.go:144-151 | one letter outside the flags byte makes a trigger inexpressible |
| ScopeDerivation.ReduceTrigger | internal/steering/scope.go:129-161 | the letter loop computes the reduction of a trigger to a flag match |
| ScopeDerivation.PatternMatchIsExact | internal/steering/scope.go:152-160 | a flag match selects an octet if and only if its flags are exactly the wanted ones, or with the wildcard at least those |
| ScopeDerivation.ReducedValueIsExact | internal/steering/scope.go:144-160 | a flags value reduces to a match if and only if it is a set of letters of the flags octet; the match selects an octet if and only if exactly the header flags the letters stand for are set in it, or with the wildcard at least those |
| ScopeDerivation.WantedFlags | internal/steering/scope.go:49-58 | the bits of some letters are those of the header flags they stand for, by their place in the octet |
| Tcp.EveryOctetIsRead | internal/steering/scope.go:49-58 | every octet is that of the flags read out of it |
| ScopeDerivation.ReducedTriggerIsExact | internal/steering/scope.go:129-161 | a reduced trigger selects every packet it covers, and without the NS bit nothing more |
| ScopeDerivation.SubsumptionIsSound | internal/steering/scope.go:102-106 | whatever the subsumed match matches, the broader one matches |
| ScopeDerivation.SubsumptionIsTransitive | internal/steering/scope.go:102-106 | subsumption is transitive |
| ScopeDerivation.SubsumptionIsAntisymmetric | internal/steering/scope.go:102-106 | two matches that subsume each other are the same |
| ScopeDerivation.MaximalAbove | internal/steering/scope.go:90-111 | above every match in a set there is a maximal one, so dropping subsumed matches never drops them all |
| ScopeDerivation.CanonicalFlags | internal/steering/scope.go:90-119 | the loops produce the sorted list of exactly the maximal matches |
| ScopeDerivation.CanonicalKeepsMeaning | internal/steering/scope.go:90-119 | the canonical list matches exactly the flag bytes the input matched |
| ScopeDerivation.CanonicalIsAntichain | internal/steering/scope.go:90-119 | no match in a canonical list subsumes another |
| ScopeDerivation.CanonicalDependsOnTheSet | internal/steering/scope.go:90-119 | two canonical lists of the same set of matches are the same list |
| ScopeDerivation.SelectorOf | internal/steering/scope.go:72-88 | one inexpressible trigger widens the direction to everything; otherwise the selector is the canonical list of all of them |
| ScopeDerivation.Of | internal/steering/scope.go:62-70 | each direction's selector is that of its forest |
| ScopeDerivation.SelectorIsNeverTooNarrow | internal/steering/scope.go:62-88 | a packet some trigger covers is always queued |
| ScopeDerivation.SelectorIsNeverTooWide | internal/steering/scope.go:62-88 | with every trigger expressible and no NS bit, a packet is queued if and only if some trigger covers it |
| ScopeDerivation.IdleMeansNoTriggers | internal/steering/scope.go:43 | a scope is idle if and only if the strategy has no trigger |
| ScopeDerivation.NarrowedSteeringIsUnobservable | internal/steering/scope.go:62-88 | for every strategy, state and packet sequence, a kernel that queues at least what the scope selects gives the same output and the same state as one that queues everything |
| Steering.QueuedExactlyWhen | internal/steering/controller.go:1529-1565 | of the flows a live generation owns, the installed rules queue outbound exactly what the scope of its DNA selects outbound, and inbound exactly what it selects inbound, or everything where inbound traffic is observed and the scope is not idle |
| Steering.InstalledSteeringIsUnobservable | internal/steering/scope.go:1-18 | at every moment of every run, for any flow a live generation owns, any state of its strategy and any packets, the installed rules give the same output and state as queueing everything |
| Steering.InstalledSteeringIsExact | internal/steering/scope.go:1-18 | and where inbound traffic is not observed, every trigger is expressible and there is no NS bit, a packet is queued if and only if some trigger covers it |
| Steering.ResourceClassIsExact | internal/steering/controller.go:2003-2020 | a strategy is in the every-packet class if and only if its scope can queue anything but a SYN or a SYN-ACK |
| Artifacts.BudgetsMean | internal/steering/controller.go:2022-2038 | at most so many entries can see more than handshakes, and at most so many cannot |
| Artifacts.AdmittedExactlyWhen | internal/adapter/types.go:104-148 | an artifact passes the checks of its form if and only if it is Geneva's, for exactly this runtime and a schema of it, at most 256 KiB, parses, says something as its revision, and has the length and the digest it says |
| Artifacts.InsertRecord | internal/steering/controller.go:1803-1809 | a record goes where its number belongs, and nothing is lost |
| Artifacts.BuildFile | internal/steering/controller.go:1803-1809 | the file persisted is the image of the view: every entry once, in order of number |
| Artifacts.AdmittedGenIsLoadable | internal/steering/controller.go:1930-1960 | what admission accepted passes every check of the loader and reconstructs to the same entry, scope included |
| Artifacts.ImageReloads | internal/steering/controller.go:1879-1996 | the image of any admissible view passes all of the loader's checks on the same host and reconstructs exactly that view |
| Hosts.QueuedPacketNamesOneGeneration | internal/nftables/manager.go:340-360 | a queued packet is queued to the one generation its mark names |
| Hosts.SynMarkFacts | internal/nftables/manager.go:280-289 | the SYN rule changes nothing but zero reserved bits, and changes a mark at most once |
| Hosts.NeutralProgramFacts | internal/nftables/manager.go:280-289 | a program that assigns no generation leaves an unowned mark or makes it neutral |
| Hosts.HappenSteps | internal/nftables/manager.go:286-289 | one packet or timer takes every mark at most one legal step and never lets a new entry start owned by an unassigned generation |
| Hosts.SnapshotIsAuthoritative | internal/flowtrack/counter_linux.go:135-152 | the namespace snapshot counts zero for a number if and only if no flow carries it |
| Hosts.SnapshotCountsFlows | internal/flowtrack/counter_linux.go:135-152 | what it counts for a number are all the flows that carry it, idle or not |
| Hosts.LeftOutExactlyWhen | internal/flowtrack/counter_linux.go:99-114 | a connection is left out of a drain count if and only if an age is configured, the timeouts are known, it is established, its timer lies strictly between the short ones and the established timeout, and it has run for that age |
| Hosts.CountedByAge | internal/flowtrack/counter_linux.go:99-132 | a flow whose last packet reset the timer to the established timeout counts if and only if that packet is younger than the age or the timer is as short as the short ones; with a short timer or in another state it always counts |
| Hosts.ZeroCountMeansAllIdle | internal/flowtrack/counter_linux.go:114-132 | a drain that counts none leaves no flow of the number whose last packet is younger than the age |
| Hosts.SkipsMeans | internal/flowtrack/counter_linux.go:99-112 | some timer value makes a connection idle if and only if an idle age is set and leaves room between the short timers and the established timeout |
| Hosts.ZeroCountIsAuthoritative | internal/flowtrack/counter_linux.go:114-132 | when no timer value makes a connection idle, a zero drain count means that no flow carries the number |
| Hosts.ZeroDrainCountMeansUncarriedExactlyWhen | internal/flowtrack/counter_linux.go:99-132 | a zero drain count means that no flow carries the number, over all conntrack tables, if and only if the idle age and the kernel's timeouts let no connection be idle |
| Hosts.BoundaryStays | internal/steering/controller.go:919-957 | a neutral boundary stays one as the run goes on |
| Hosts.Host.Happens | internal/nftables/manager.go:286-289 | one packet or timer extends the history by one legal moment |
| Hosts.Host.Replace | internal/nftables/manager.go:405-426 | a table replacement extends the history only if the new program is safe to run |
| Hosts.Host.Save | internal/steering/controller.go:1841-1861 | a state file may become the surviving one only if it is the image of an admissible view and the running program stays safe |
| Hosts.Host.UpdateMark | internal/flowtrack/counter_linux.go:299-306 | the sweep's update of one entry is a legal step of that mark and leaves all others alone |
| Hosts.Host.AffinityOverRun | internal/nftables/manager.go:280-289 | over any run, crashes and restarts included, a flow's low 12 bits never change and its reserved 20 bits change at most once, from zero; so its owner never changes |
| Hosts.Host.OwnershipWasAssigned | internal/nftables/manager.go:280-289 | a flow owned by a generation was so from the start, or the installed program assigned that generation at some earlier moment |
| Hosts.Host.StaysUnowned | internal/flowtrack/counter_linux.go:154-156 | while nothing is assigned, an unowned mark stays as it is or turns neutral |
| Hosts.Host.NeutralIsForGood | internal/flowtrack/counter_linux.go:154-156 | an entry that is neutral or gone stays so |
| Hosts.Host.SweepMakesBoundary | internal/flowtrack/counter_linux.go:261-312 | if all that a dump showed unowned is neutral or gone, the time since the neutral program is a boundary |
| Hosts.Host.BoundaryHolds | internal/steering/controller.go:919-957 | a flow to the port that was unowned when the boundary began is owned by no generation at any later moment of the run |
| Hosts.Host.UncarriedStays | internal/nftables/manager.go:280-289 | a number no flow carries stays so while no installed program assigns it |
| Hosts.Host.DispatchIsSafeOverRun | internal/steering/controller.go:1680-1722 | at every moment of a run, a packet any queue rule hands over names one generation with a registered engine, and the surviving state file holds the same DNA for it |
| Hosts.Host.EverythingPersistedReloads | internal/steering/controller.go:1793-1862 | every file ever persisted, at any point inside any operation, is loadable and reloads to the view it was written for |
| Hosts.Host.EveryMomentIsReadable | internal/steering/controller.go:1841-1862 | at every moment of a run, whatever operation a crash would interrupt there, the file on disk passes the loader's checks, if the one at the very start did |
| Hosts.Host.Crash | internal/steering/controller.go:1841-1862 | a crash at any moment leaves the machine as it was then, and what is left is still a history |
| Registries.Registry.Prepare | internal/engine/registry.go:70-94 | an ID keeps its engine: the same DNA is accepted without effect, other DNA refused, a new ID gets a new lineage |
| Registries.Registry.Activate | internal/engine/registry.go:111-121 | only a registered engine can be activated, and a swap is counted when another one was active |
| Registries.Registry.Remove | internal/engine/registry.go:125-145 | only a registered engine that is not the active one is forgotten |
| Registries.Registry.EditionsFollow | internal/engine/registry.go:61-94 | between any two moments of a process an ID keeps its engine or gets one published in between |
| Registries.Registry.SameLineageMeansNeverReplaced | internal/engine/registry.go:61-94 | a lineage met again at any later moment is the same ID, DNA and engine, registered at every moment in between; lineages never repeat |
| Allocation.LeastFree | internal/steering/controller.go:2040-2063 | the number handed out is the least one in 1..4095 that is neither listed nor reserved, and zero if and only if there is none |
| Allocation.Reconcile | internal/steering/controller.go:2065-2076 | a reservation is dropped exactly when the snapshot counts zero, and an unknown number with flows becomes reserved |
| Allocation.HandedOutIdIsUncarried | internal/steering/controller.go:742-747 | after reconciling with a snapshot, a number handed out was carried by no flow in it, idle ones included |
| Allocation.StillNeverRegained | internal/steering/controller.go:1152-1164 | while only listed numbers are assigned and those collected are carried by no flow, no unlisted number gains flows |
| Allocation.SnapshotAccounts | internal/steering/controller.go:2065-2076 | reconciling with a snapshot, however old, accounts for every number any flow carries now |
| Allocation.StillAccounted | internal/steering/controller.go:2040-2063 | numbers once accounted for stay accounted for until another snapshot is reconciled |
| Allocation.CollectedIsUncarried | internal/steering/controller.go:1145-1164 | a number collected at a count of zero that left no idle flow out is carried by no flow, if no program has assigned it since the count |
| Allocation.FreshUnlessForgotten | internal/steering/controller.go:2040-2063 | while every carried number but the forgotten ones is listed or reserved, the number handed out is carried by no flow or is a forgotten one |
| Latch.RepairNeverHidesLaterFault | internal/steering/controller.go:853-895 | in every interleaving of single atomic operations, a signal that counted after a repair's sample leaves the latch up once both have finished |
| Latch.RepairSucceedsExactlyWhenUndisturbed | internal/steering/controller.go:976-985 | a repair that lowered the latch succeeds if and only if no epoch increment fell between its sample and its last check and no guard consumption between arming and swap |
| Latch.SuccessMeansNothingHappened | internal/steering/controller.go:853-895 | if no signal is in flight at a repair's sample, none completes or even begins before the last check of a successful repair |
| Latch.CompletesInsideExactlyWhen | internal/steering/controller.go:853-895 | for every state in which a repair has just taken its sample and every signal: some schedule completes the signal inside a successful repair if and only if it is in flight, no reconciliation waits, and a guard to be kept is there |
| Latch.SuccessDoesNotMeanNoSignalCompleted | internal/steering/controller.go:853-895 | a schedule in which a signal completes inside a repair that succeeds and lowers the latch |
| Latch.FaultCanBeUnattendedExactlyWhen | internal/steering/controller.go:1253-1269 | for every state in which a repair begins: some schedule ends with the repair failed, all signals run out or not begun and no reconciliation waiting if and only if a finished reconciliation still has its flag up, some signal has yet to take the guard away, and a guard to be kept is there |
| Latch.FailedRepairIsReconciledUnlessFinishing | internal/steering/controller.go:1253-1269 | if no finished reconciliation still had its flag up when the repair began, a failed repair always has a reconciliation waiting |
| Latch.FaultCanBeLatchedWithNothingScheduled | internal/steering/controller.go:1259-1267 | a schedule with one indivisible signal that ends with a generation active, the fault latched and nothing scheduled |
| Lifecycle.AgreementIsSafe | internal/steering/controller.go:1680-1722 | if table, registry, file and program agree, everything the program can dispatch to is backed |
| Lifecycle.LiveMeans | internal/steering/controller.go:1539-1556 | exactly the active and the draining entries have rules, each with its own scope, and the table steers if and only if one of them is not idle |
| Lifecycle.PhasesKeepAgreement | internal/steering/controller.go:857-863 | changing phases never breaks the agreement |
| Lifecycle.RestoringPhasesRestores | internal/steering/controller.go:2125-2138 | restoring the remembered phases undoes any change of phases |
| Lifecycle.LoadedAgrees | internal/steering/controller.go:1930-1996 | what a loadable file reconstructs satisfies the run-wide facts about the table and agrees with the file |
| Lifecycle.StartIntentMeans | internal/steering/controller.go:244-324 | a start is safe if and only if the file said so, or there was none, and the audit left no doubt; then it takes over the file's active generation and every phase; otherwise nothing is active, and only phases change |
| Lifecycle.LoadsProve | internal/steering/controller.go:1657-1663 | three clean loads, one after the other, prove that no signal arrived since the sample, unless a finished reconciliation still had its flag up at the first load |
| Lifecycle.LoadsInterrupted | internal/steering/controller.go:880-886 | if a load was not clean, a reconciliation is waiting for the signal that spoiled it |
| Lifecycle.LoadsCause | internal/steering/controller.go:880-886 | without a signal a load is unclean only if the guard was not armed or a reconciliation was under way to begin with |
| Lifecycle.RepairEnds | internal/steering/controller.go:976-985 | lowering the latch, swapping the guard and the last look at the epoch either leave the latch down for good reason or up with a reconciliation waiting, unless a finished one had its flag up when the repair took its sample |
| Lifecycle.RestKept | internal/steering/controller.go:1253-1307 | whatever signals arrive and whatever persist fails, a fault latched over an active generation keeps a reconciliation waiting, or is the one the last repair left to nobody, or a durability failure stands |
| Lifecycle.FaultCell.IntegrityFailure | internal/steering/controller.go:1253-1276 | one signal counts, latches, disarms, and schedules a reconciliation unless one is under way |
| Lifecycle.FaultCell.LowerReconciling | internal/steering/controller.go:1260 | a finished reconciliation lowers its flag |
| Controllers.Controller.constructor | internal/steering/controller.go:183-222 | a new controller has no entries, no faults and nothing active |
| Controllers.Controller.Disturbance | internal/steering/controller.go:1253-1276 | between any two steps packets, timers and signals leave everything settled settled, and what they do to the atomics is bounded |
| Controllers.Controller.ProgramMode | internal/steering/controller.go:1680-1722 | a transaction that succeeds has installed exactly its program, one that fails the old or the new, and steering is reported only when it is proven |
| Controllers.Controller.ProgramLocked | internal/steering/controller.go:1567-1569 | a transaction whose program steers only entries keeps table, registry, file and program in agreement, whether it succeeds or not |
| Controllers.Controller.Persist | internal/steering/controller.go:1793-1862 | success means the file on disk is the image of the view; failure leaves the old file or the new one and is fatal the first time |
| Controllers.Controller.PersistLocked | internal/steering/controller.go:1793-1862 | a persist keeps the agreement in both outcomes |
| Controllers.Controller.PersistenceFailure | internal/steering/controller.go:1864-1877 | the first durability failure latches the fault, takes the recovery gate away and is reported |
| Controllers.Controller.EnsureOffloadsDown | internal/steering/controller.go:1736-1770 | ownership of the NIC is durable before it is used, and a failure leaves the file current or is fatal |
| Controllers.Controller.RestoreOffloads | internal/steering/controller.go:1771-1782 | giving the NIC back keeps the file current or is fatal |
| Controllers.Controller.Neutralize | internal/flowtrack/counter_linux.go:261-312 | a sweep that completes makes the time since the neutral program a boundary, whatever SYNs and retransmits interleave |
| Controllers.Controller.Sweep | internal/flowtrack/counter_linux.go:290-311 | the loop over one dump leaves everything it showed unowned neutral or gone |
| Controllers.Controller.DisableAssignment | internal/steering/controller.go:1290-1298 | afterwards the kernel assigns nothing, or this call has reported the failure as fatal |
| Controllers.Controller.Reconcile | internal/steering/controller.go:1283-1307 | nothing is active, the fault is recorded durably unless that fails fatally, and the kernel assigns nothing unless this call has reported that as fatal |
| Controllers.Controller.IntegrityFailureLocked | internal/steering/controller.go:1278-1281 | a failed compensation is one more signal, reconciled at once |
| Controllers.Controller.RunReconcile | internal/steering/controller.go:1259-1268 | the goroutine's turn with the mutex zeroes the active generation and keeps the controller valid |
| Controllers.Controller.VerifyLiveEngines | internal/steering/controller.go:1665-1678 | the re-check of retained engines always succeeds and publishes nothing |
| Controllers.Controller.RestoreState | internal/steering/controller.go:859-872 | phases, active, previous and fault state are exactly those remembered, or the fatal ones after a durability failure |
| Controllers.Controller.ThreeLoads | internal/steering/controller.go:880-886 | epoch, guard and flag, each loaded a little later than the one before, prove the repair may go on or that somebody will see to the signal |
| Controllers.Controller.ProveRepair | internal/steering/controller.go:870-886 | a repair goes on only if no signal arrived since its sample |
| Controllers.Controller.AbandonRepair | internal/steering/controller.go:880-886 | an interrupted repair leaves everything as it was, the guard gone and the latch up |
| Controllers.Controller.Compensate | internal/steering/controller.go:921-937 | after a failed transaction everything is as before in memory, kernel and file, or nothing is active any more, or a durability failure stands |
| Controllers.Controller.MakeDurable | internal/steering/controller.go:888-908 | durable intent precedes every kernel change, and its failure undoes the staging |
| Controllers.Controller.ClaimNic | internal/steering/controller.go:895-908 | the NIC is claimed before anything is steered, and a failure puts everything back, on disk too |
| Controllers.Controller.Transaction1 | internal/steering/controller.go:909-957 | the candidate's rules are added under the old assignment; on a first activation under the neutral boundary, which is complete before this succeeds |
| Controllers.Controller.CompleteBoundary | internal/steering/controller.go:938-957 | the sweep either completes the boundary or everything is put back, closed or fatal |
| Controllers.Controller.Transaction2 | internal/steering/controller.go:958-975 | the flip installs exactly the live rules with the candidate assigned |
| Controllers.Controller.MoveAssignment | internal/steering/controller.go:909-975 | no program that assigns the candidate is ever installed before the boundary is complete |
| Controllers.Controller.FinishRepair | internal/steering/controller.go:979-986 | a repair that reports success has the latch down; one that does not has it up with a reconciliation waiting, unless a finished one still had its flag up at the sample |
| Controllers.Controller.ActivateLocked | internal/steering/controller.go:841-989 | it does nothing if and only if the number is unknown or its scope idle; success installs the candidate and records it; every failure is exactly one of interrupted before anything changed, rolled back, failed closed, durability-fatal, or interrupted after the flip, and each has its cause, a refusal or a signal; an interruption after the flip has a reconciliation waiting unless a finished one still had its flag up when the call began; a first activation has a boundary before its flip, and until then every program is the old one or assigns nothing |
| Controllers.Controller.DeactivateLocked | internal/steering/controller.go:1008-1036 | success leaves nothing assigned and says so on disk; every failure is rolled back, failed closed or durability-fatal, and only after something was refused |
| Controllers.Controller.DrainFinish | internal/steering/controller.go:1083-1098 | a drain changes only the phase of the identity it counted, a complete one is durable, and if its count left no idle flow out and no program assigned the number since, no flow carries it; one that fails for an identity that matches has failed to persist, and that failure stands |
| Controllers.Controller.Unlist | internal/steering/controller.go:1164-1170 | a collected entry leaves table and program first, while its engine is still registered |
| Controllers.Controller.CollectFinish | internal/steering/controller.go:1152-1199 | only at a zero count, and only the identity that was counted, is an entry removed from table, kernel and registry, in that order; a failure puts it back or fails closed; and if the count left no idle flow out and no program assigned the number since, no flow carries it |
| Controllers.Controller.Lookup | internal/steering/controller.go:777-790 | an identity is mapped to at most one number, so the search is never ambiguous |
| Controllers.Controller.ConnectionCounts | internal/steering/controller.go:1478-1496 | the counts are those of one moment inside the call, and without a failure there are some |
| Controllers.Controller.VerifyCurrentProgram | internal/steering/controller.go:1571-1585 | success means the kernel holds the program of the present table, and without a failure it is missed only if it does not |
| Controllers.Controller.SameTableBehaves | internal/steering/controller.go:1571-1585 | two programs with the same table queue the same packets and assign the same marks |
| Controllers.Controller.NextGeneration | internal/steering/controller.go:2040-2063 | the number is the least one neither listed nor reserved |
| Controllers.Controller.ReconcileReserved | internal/steering/controller.go:2065-2076 | reservations follow the snapshot |
| Controllers.Controller.BeginGate | internal/steering/controller.go:1593-1617 | the gate is tried with nothing active, a fault recorded, a state file and a counter, and no reconciliation under way, and is not otherwise; the guard is armed after the epoch has been sampled |
| Controllers.Controller.ProveToTheEnd | internal/steering/controller.go:1618-1655 | the proofs of the gate end with three clean loads, the reservations are those before or those of one snapshot taken meanwhile, and the proofs fail only for a failure, a signal or another table in the kernel |
| Controllers.Controller.EstablishGate | internal/steering/controller.go:1587-1655 | the recovery gate opens only with nothing active, over a verified program, with every reservation proven against one snapshot taken inside the call, and with no signal since the sample; and with that it does open, unless something is refused |
| Controllers.Controller.GateIntact | internal/steering/controller.go:1657-1663 | an intact gate is the one that was opened, with no signal since, and without a signal it is intact |
| Controllers.Controller.AdmitNew | internal/steering/controller.go:590-626 | an unmapped artifact with room, a number and a budget is refused only if a persist fails, or in a recovery a signal arrives |
| Controllers.Controller.OnlyMapping | internal/steering/controller.go:583-594 | an identity mapped to other content cannot be mapped to this one as well |
| Controllers.Controller.HeldFits | internal/steering/controller.go:647-667 | an artifact that is listed always passes the checks made of it again at activation and rollback |
| Controllers.Controller.FatalShutsTheGate | internal/steering/controller.go:1864-1877 | over every run: while a durability failure stands, the recovery gate is shut |
| Controllers.Controller.PrepareArtifact | internal/steering/controller.go:476-509 | an artifact is listed if and only if it passes every admission check, and a refused one leaves no engine behind |
| Controllers.Controller.Keep | internal/steering/controller.go:606-626 | a listed entry is durable or gone again, engine and all; without recovery it is refused only for a budget or a failed persist |
| Controllers.Controller.Prepare | internal/steering/controller.go:563-626 | a mapped identity is reused unchanged, a new one gets the least free number; while a fault is latched that number was carried by no flow in a snapshot taken inside the call; an admissible artifact is refused only if something fails, and while a fault is latched if a signal arrives, the gate is barred or the kernel holds another table |
| Controllers.Controller.MayActivate | internal/steering/controller.go:653-656 | an activation goes on with no fault latched, or as a repair through an intact gate, and then does go on unless a signal arrives |
| Controllers.Controller.VerifyForRepair | internal/steering/controller.go:668-672 | an activation through the gate goes on only over a table that could be read back and is the right one |
| Controllers.Controller.Proceed | internal/steering/controller.go:888-989 | past its proof an activation ends with the candidate active, or undone, or closed, or fatal, each with its cause |
| Controllers.Controller.ChooseHeld | internal/steering/controller.go:653-671 | an activation goes on only with the entry that holds exactly this artifact, and only as far as the fault state allows |
| Controllers.Controller.ActivateForNewConnections | internal/steering/controller.go:647-673 | success means exactly this artifact is active; while a fault is latched only an intact recovery gate lets it through; where it may go on, every other end has its cause: something refused, a signal, another table in the kernel, or nothing to activate |
| Controllers.Controller.DeactivateForNewConnections | internal/steering/controller.go:675-689 | it does nothing if and only if a fault is latched, nothing is active or the identity is stale |
| Controllers.Controller.RollbackBegin | internal/steering/controller.go:698-715 | a retained artifact is activated as a repair, success leaves the latch down whatever durability failure stands, and every other end has its cause: something refused, a signal, a reconciliation under way, a gate whose guard is gone, or an empty scope |
| Controllers.Controller.RollbackUnproven | internal/steering/controller.go:717-737 | when no snapshot can be had, nothing stays active and the fault is latched |
| Controllers.Controller.RollbackFinish | internal/steering/controller.go:739-775 | an absent artifact gets a number no flow carried in the snapshot, and it, or one retained by then, is activated as a repair, with a cause for every end but success |
| Controllers.Controller.RollbackAbsent | internal/steering/controller.go:755-775 | the entry of an absent artifact stays whatever becomes of its activation, under a number no flow carried in the snapshot |
| Controllers.Controller.PrepareAbsent | internal/steering/controller.go:759-774 | the reservations follow the snapshot, and the artifact gets the least number that is then free or nothing changes |
| Controllers.Controller.CheckRecords | internal/steering/controller.go:1924-1963 | the per-record loop accepts exactly valid records with distinct numbers and distinct identities |
| Controllers.Controller.Reconstruct | internal/steering/controller.go:1973-1992 | every recorded engine is published, and all are taken back exactly when a budget is exceeded |
| Controllers.Controller.Adopt | internal/steering/controller.go:1964-1996 | what a loadable file says besides its entries is taken over, and agrees with them |
| Controllers.Controller.Load | internal/steering/controller.go:1879-1996 | exactly an absent or loadable file is accepted, and what is then held is exactly what the file records |
| Controllers.Controller.LoadOrQuarantine | internal/steering/controller.go:244-260 | a readable file is never quarantined, and what is then held is what it says, safe or not; another one is set aside, and then nothing is safe |
| Controllers.Controller.Audit | internal/steering/controller.go:261-309 | table, active generation and safety stay as they were if every flow of the namespace at one moment inside the call belongs to an entry; without a count, or with an orphan, nothing is active or safe, and without a count no entry keeps its active phase |
| Controllers.Controller.SettleIntent | internal/steering/controller.go:311-318 | an unsafe controller starts with nothing active, what was active draining, and the latch up; a safe one keeps everything |
| Controllers.Controller.RestoreActive | internal/steering/controller.go:388-415 | a restored generation is assigned only behind a complete boundary |
| Controllers.Controller.StartGate | internal/steering/controller.go:341-366 | start opens the recovery gate only over a verified program and with no signal since it began |
| Controllers.Controller.Rebuild | internal/steering/controller.go:246-386 | once nothing is installed: what is held in the end is what the file and the audit's snapshot determine, only entries are ever assigned, and after a successful audit every carried number is listed or reserved |
| Controllers.Controller.Start | internal/steering/controller.go:225-386 | start ends with a valid controller that holds exactly what the state file and the audit's snapshot determine, and has it on disk; an unsafe one has the fault latched and nothing active; a readable file is never quarantined; nothing is assigned except through a boundary; after a successful audit every carried number is listed or reserved; it fails only on a latched fault, a missing counter or a failure |
| Controllers.Controller.Close | internal/steering/controller.go:1518-1527 | the NIC gets its features back only once no rule is left |
| Runs.FailsClosed | internal/steering/controller.go:1253-1307 | over every run: a fault latched over an active generation has a reconciliation waiting or a durability failure standing, unless some repair of the process began while a finished reconciliation still had its flag up |
| Runs.Prepare | internal/steering/controller.go:563-626 | over every run: the number a prepare hands out is carried by no flow unless that number has lapsed, and handing one out is a lapse only if no snapshot has been taken since the start |
| Runs.FinishCollect | internal/steering/controller.go:1145-1199 | collecting enters a lapse of the number exactly when it takes it off the list after a count that leaves idle flows out or with some program having assigned it since the count |
| Runs.FinishDrain | internal/steering/controller.go:1083-1098 | a drain's last turn keeps what holds whenever the mutex is free, and leaves a durability failure standing if it fails for an identity that matches |
| Runs.BeginRollback | internal/steering/controller.go:698-715 | a rollback's first turn keeps it too, leaves the durability failure as it found it, and for a retained artifact succeeds unless something is refused, a signal arrives, a reconciliation is under way or the gate's guard is gone |
| Runs.FinishRollback | internal/steering/controller.go:739-775 | a rollback's last turn reconciles with its snapshot, however old, and enters as reused exactly the number it gave if a flow carried it when the turn began, which only a number that has lapsed can be; an artifact retained by then is activated unless something is refused or a signal arrives |
| Runs.Activate | internal/steering/controller.go:647-673 | an activation between other turns keeps what holds whenever the mutex is free, and with no fault latched succeeds for a retained artifact unless something is refused or a signal arrives |
| Runs.Deactivate | internal/steering/controller.go:675-689 | so does a deactivation, which is refused only for a fault or an identity that is not active |
| Runs.Act | internal/steering/controller.go:647-689 | activation, deactivation, close, the reconciliation's turn and time passing keep what holds whenever the mutex is free |
| Runs.CountFlows | internal/steering/controller.go:1229-1251 | the count of one number is that of one moment, without the mutex, with the configured idle age or none |
| Runs.Snapshot | internal/steering/controller.go:1478-1496 | the namespace snapshot is that of one moment, without the mutex |
| Runs.Enter | internal/steering/controller.go:691-697 | a rollback is let in only if no durability failure is seen without the mutex, a drain or collection only for a listed number that is not active |
| Runs.GoOn | internal/steering/controller.go:1066-1199 | every pending call can go on after any turns of others |
| Runs.Turn | internal/steering/controller.go:225-386 | any turn of any call, pending or new, keeps what holds whenever the mutex is free, and the registry's past |
| Runs.Process | internal/steering/controller.go:225-386 | one process, from its start to its death at any moment inside any operation, keeps the history, never sets a file of ours aside, and hands a carried number out only after a lapse of that number; with no idle age configured never after one for idle flows |
| Runs.Drive | internal/steering/controller.go:225-386 | a started process keeps what holds whenever the mutex is free until it dies at any moment |
| Runs.Run | internal/steering/controller.go:225-386 | any number of processes one after the other keep the history, none sets a file of ours aside, and a restart would find a readable file |
| Runs.RollBack | internal/steering/controller.go:691-775 | with any turns in between: a rollback is refused exactly for a durability failure it sees at the entry, and when it succeeds the latch is down over a standing durability failure exactly when that landed between the look and the last turn |
| Runs.RollBackOver | internal/steering/controller.go:691-715 | with any turns in between: over a durability failure that lands after the look, a rollback to a retained artifact lowers the latch and makes it active, unless something more is refused or a signal arrives |
| Runs.RollBackOverDrain | internal/steering/controller.go:691-715 | such a run to the end: a drain that cannot write the state file comes between the look and the lock |
| Runs.DrainAndCollect | internal/steering/controller.go:1066-1199 | undisturbed, a generation counted at zero is drained and collected |
| Runs.HandOut | internal/steering/controller.go:563-626 | undisturbed, an ordinary prepare of an artifact that can be admitted hands out the least number not taken, whether or not a flow carries it |
| Runs.ReuseNumber | internal/steering/controller.go:595-600 | with an idle age configured: in every undisturbed run that drains and collects a generation of idle flows and then prepares, the number is handed out again while a flow names it |
| Runs.ReuseFromStart | internal/steering/controller.go:225-626 | the same beginning with a new controller on a machine |
| Runs.CountAndActivate | internal/steering/controller.go:1130-1153 | undisturbed, a generation counted at zero can be activated before its collection goes on, and given a flow |
| Runs.DeactivateAndCollect | internal/steering/controller.go:1153-1199 | deactivated again, it is collected on the strength of the old count, which is entered as a lapse |
| Runs.ReuseAssigned | internal/steering/controller.go:1130-1199 | with or without an idle age: in every undisturbed run that activates and deactivates a generation between its count and its collection and then prepares, the number is handed out again while a flow it was given meanwhile names it |
| Runs.ReuseUnaudited | internal/steering/controller.go:698-715 | with no snapshot since the start: in every undisturbed run that rolls back to a retained artifact and then prepares, the least number neither listed nor reserved is handed out although a flow names it |
| Runs.CarriedUnaudited | internal/steering/controller.go:2040-2063 | while nothing has lapsed, the least number not taken is carried by some flow only where there has been no snapshot |
| Runs.ReuseAfterBlindStart | internal/steering/controller.go:252-292 | the same beginning with a new controller on a machine; it comes to that only if the startup audit fails |
| Runs.Lineages | internal/steering/controller.go:1405-1414 | the pinned lineages are those of the registry at that moment |
| Runs.ReadActivity | internal/steering/controller.go:1415-1448 | a read that comes out speaks of every serving entry, each with one engine registered since the pin, and it does come out unless the registry has moved on since |
| Runs.Status | internal/steering/controller.go:1329-1402 | with any turns in between: a status that comes out pairs every serving identity with one engine, of its DNA, that stayed registered at every moment from the pin to the read, and with its connections at one moment inside the call; it does come out unless the lifecycle looked different in between or the registry moved on |
| Queues.ApplyKeepsOk | internal/nfqueue/queue_linux.go:27-31 | no packet is both decided and outstanding |
| Queues.BatchSettlesEverythingBelow | internal/nfqueue/queue_linux.go:27-31 | a successful batch on n settles every delivered packet up to n |
| Queues.Queue.Accept | internal/nfqueue/queue_linux.go:408-416 | deferring keeps the highest id |
| Queues.Queue.Flush | internal/nfqueue/queue_linux.go:418-425 | flushing sends at most one batch and leaves nothing deferred |
| Queues.Queue.Verdict | internal/nfqueue/queue_linux.go:427-438 | deferred accepts of earlier ids go out before a verdict, and if they cannot be sent neither is the verdict |
| Queues.DeferAccept | internal/nfqueue/queue_linux.go:408-416 | deferring an accept keeps every decided packet on its way to exactly its verdict |
| Queues.Settle | internal/nfqueue/queue_linux.go:427-438 | an individual verdict settles its packet and everything deferred before it |
| Queues.ReadDecisions | internal/nfqueue/queue_linux.go:264-276 | for every sequence of decisions with ascending ids: with successful sends each packet gets exactly its verdict, none is left waiting unless the read was malformed, and there is one message per individual verdict and per maximal run of accepts; with any failures nobody gets anything but its own verdict or an accept |
| Queues.ReadBuffer | internal/nfqueue/queue_linux.go:264-307 | on the bytes of one read, or the messages walked until it is cancelled: exactly their packets are decided, with successful sends each gets exactly its verdict and none waits, unless the walk met a malformed message, and then the accepts deferred at the end wait |
| Runtimes.DecisionsFollowTheStrategy | internal/nfqueue/runtime.go:288-418 | a packet its engine can handle is dropped if and only if the strategy put nothing out; outbound it is replaced by the last packet put out if and only if that was anything but the packet itself, inbound by the one put out if and only if that was one other packet |
| Runtimes.OthersAreLeftAlone | internal/nfqueue/runtime.go:288-336 | a packet without a generation, without payload, cut short, or with no output is left alone |
| Runtimes.ClassifyMeans | internal/engine/engine.go:280-305 | nothing put out is Dropped, the packet itself Unchanged, one other Tampered, more than one Expanded, and all of them are kept |
| Runtimes.WantedIsDue | internal/nfqueue/runtime.go:344-418 | the verdict by the engine's classification is the one due by what the strategy put out |
| Runtimes.InjectionsAreNoMessages | internal/nfqueue/runtime.go:357-365 | injected packets cost no netlink message |
| Runtimes.Runtime.InjectExtras | internal/nfqueue/runtime.go:354-365 | the extra packets go out in the strategy's order |
| Runtimes.Runtime.VerdictOutbound | internal/nfqueue/runtime.go:344-392 | one counter moves by one; the kernel drops an original only if the strategy put nothing out or one of its own packets went through the raw socket, and drops no other; with no failure exactly the verdict's counter moves, and exactly the extra packets, the accepts deferred before and the verdict leave, in that order |
| Runtimes.Runtime.SendReplacements | internal/nfqueue/runtime.go:354-392 | everything but the last replacement goes through the raw socket in order, and the last one replaces the packet |
| Runtimes.Runtime.ReplaceRefused | internal/nfqueue/runtime.go:366-389 | when the replacement's verdict is refused, the original is dropped only if something its strategy put out has gone through the raw socket, and accepted otherwise |
| Runtimes.Runtime.VerdictInbound | internal/nfqueue/runtime.go:396-418 | one counter moves by one, only a strategy's own drop drops, and with no failure exactly the verdict wanted is sent and counted |
| Runtimes.Runtime.Handle | internal/nfqueue/runtime.go:288-336 | every packet is counted exactly once, is never black-holed by what the kernel is told, and raises an integrity failure exactly if its mark or its engine is missing; with no failure exactly what its strategy put out leaves the box |
| Runtimes.Runtime.Pump | internal/nfqueue/runtime.go:257-286 | over a whole read Accepted, Dropped and Modified grow by exactly the packets handled; with successful sends each packet gets exactly what was decided, and what leaves the box is exactly the injections, batches and verdicts due, in order, each counted by its kind; whatever fails, a packet decided to be accepted is never dropped or rewritten, and one the kernel has settled as dropped had an empty output or has one of its own packets in the raw socket's log |
| Netlink.WalkInverts | internal/nfqueue/queue_linux.go:340-375 | the attribute walk inverts the encoding, whatever flag bits each attribute carries, last attribute padded or not |
| Netlink.ConntrackMark | internal/nfqueue/queue_linux.go:389-405 | the nested walk finds the first mark |
| Netlink.ParsePacket | internal/nfqueue/queue_linux.go:335-387 | the one-pass parse computes what the attribute list means, on arbitrary bytes |
| Netlink.ForEachPacket | internal/nfqueue/queue_linux.go:285-307 | the loop yields exactly the packets of the messages in order, or of those walked until it is cancelled, and says whether one was malformed |
| Netlink.ReadInverts | internal/nfqueue/queue_linux.go:278-307 | for every list of messages in the kernel's wire format, with any flag bits, padded or not at the end, exactly the packets of those walked come out, in order |
| Netlink.NestedMark | internal/nfqueue/queue_linux.go:389-405 | the mark of a nested list is found behind any other attributes, with any flag bits |
| Netlink.PacketRoundTrip | internal/nfqueue/queue_linux.go:335-387 | id, both marks, payload and the truncation flag all survive the trip from the kernel's own attribute numbers, whatever flag bits the attributes carry and whatever else the nested list holds |
| Netlink.ReadPackets | internal/nfqueue/queue_linux.go:285-387 | for every list of packets, each encoded with any flag bits and paddings and mixed with other messages, one read yields exactly those packets in order, or those of the messages walked until it is cancelled |
| Marshal.Marshaller.Put | internal/nfqueue/queue_linux.go:446-487 | a write changes its bytes of the buffer and no others |
| Marshal.Marshaller.MarshalVerdict | internal/nfqueue/queue_linux.go:446-487 | the bytes sent are a function of the verdict and the queue alone, whatever earlier messages left in the buffer |
| Marshal.AttrsWalkBack | internal/nfqueue/queue_linux.go:446-487 | the message's attributes walk back to header and replacement |
| Marshal.VerdictRoundTripsExactlyWhenItFits | internal/nfqueue/queue_linux.go:446-487 | type, queue, id, verdict and replacement read back exactly, by the kernel's own numbers, if and only if the replacement has at most 65531 bytes |
| Engines.Counters.Record | internal/engine/engine.go:307-322 | one outcome is counted, with every packet and byte put out |
| Engines.Counters.Process | internal/engine/engine.go:202-239 | at rest the packets taken in are exactly the four outcomes plus the errors, and each packet is counted by what the strategy put out: nothing, itself, one other, or more than one |
| KernelCounter.KernelSource.Begin | internal/censor/kernel.go:79-86 | at most one read is in flight |
| KernelCounter.KernelSource.Finish | internal/censor/kernel.go:92-115 | a reading adds each reported counter's growth, and a failed or partial one changes nothing else |
| KernelCounter.TotalsAreMonotoneAndHonest | internal/censor/kernel.go:72-116 | over any run the exported total never decreases and never exceeds the true number of packets |
| KernelCounter.TotalIsExactExactlyWhen | internal/censor/kernel.go:105-114 | the exported total is the true number if and only if every reading was lossless |
| KernelCounter.VisibleRestartCanStillLose | internal/censor/kernel.go:108-112 | a run in which the restart shows and a packet is lost all the same |
| Classifiers.ClassifiersAgreeExactlyWhen | internal/censor/observer.go:148-199 | the userspace and the kernel classifier agree on a readable packet if and only if a condition on its header flags and lengths holds |
| Classifiers.WireReads | internal/censor/observer.go:148-185 | of every unfragmented TCP packet with headers of any length, the header lengths, the length that belongs to the packet and the flags are read for what they are |
| Classifiers.ClassifiedByFlags | internal/censor/observer.go:186-199 | a reset goes before a SYN, a SYN before a FIN, and anything else by whether payload belongs to the packet |
| Classifiers.BucketsAreDistinct | internal/censor/observer.go:32-62 | no two events share a bucket |
| Classifiers.EveryOctetIsSomeFlags | internal/censor/observer.go:142-146 | every flags octet is that of some header flags |
| Classifiers.Observer.Observe | internal/censor/observer.go:99-110 | every inbound packet lands in exactly one bucket |

## Left out

- The numeric-generation entry points, `prepare` by number and the deployment variants: tests use them, the adapter does not.
- JSON, the size limit of the state file, temporary files, renames and fsync: a write leaves the old value or the new one.
- The failure text carried with the fault state, logging, and the order of joined errors.
- Running without nft, and running without a state file.
- What the NIC does: disabling and restoring features is an answer that is left open, and only the controller's record of ownership is modelled.
- The strategy library, packet decoding and SHA-256: a scope for each DNA, a digest for each payload, and whatever packets an engine puts out.
- Timeouts and cancellation, except that an operation may end at each point where the source checks for them.
- Controllers.Controller.Neutralize: an update of the sweep that is still being sent when its deadline passes, and lands after the sweep has given up, is not modelled; closing the socket interrupts it.
- Runs.Status: the counters are those of the engine named; the sorting of the lists, the draining list and the steering flag are not modelled.
- Runs.ReuseNumber: that an undisturbed run exists is not stated; what is, is what every such run does.
- Runs.ReuseAssigned: likewise.
- Runs.ReuseUnaudited: likewise.
- Runs.RollBackOver: likewise, and for the drain whose write is refused in Runs.RollBackOverDrain.
- Keeping at most one conntrack dump in flight, and reading the kernel's timeouts from files: each count takes the timeouts as they are then, or none.
- Controllers.Controller.Prepare: does not model cancellation between its steps beyond the recovery checks; the source of the ordinary path has none either.
- Hosts.Host.Happens: connection tuples are not reused once they have left, and other mark users are taken to leave reserved bits in Geneva's namespace alone.
- Queues.ReadDecisions: packet ids do not wrap around 32 bits.
- Runtimes.Runtime.Pump: one queue with its own counters; the other direction's queue shares the counters and nothing else.
- KernelCounter.KernelSource.Finish: counters do not wrap around 64 bits.
- The HTTP control server, telemetry, command line and load generators.
