/** The fault latch at the granularity of single atomic operations: any number of
    integrity signals, one lifecycle repair holding the controller's mutex, and the
    background reconciliation goroutine that needs that mutex. */
module Latch {

  /** How a signal left the scheduling compare-and-swap. */
  datatype Handoff =
    | Scheduled          // started a reconciliation
    | JoinedWaiting      // one is already waiting for the mutex
    | JoinedFinishing    // one has released the mutex but not yet lowered its flag

  /** Program counter of one integrity signal: increment the epoch, set the latch,
      consume the repair guard, then try to schedule a reconciliation. */
  datatype Signal =
    | Arriving
    | Counted(late: bool)
    | Latched(late: bool)
    | Disarmed(late: bool)
    | Done(late: bool, how: Handoff)

  /** Program counter of the repair inside activateLocked. */
  datatype Repair =
    | Entered
    | Sampled
    | Armed            // guard raised, or an earlier recovery gate's guard kept
    | EpochChecked
    | GuardChecked
    | Proven           // all three loads were clean; kernel and disk change here
    | Cleared          // latch lowered
    | Swapped          // guard compare-and-swap succeeded
    | Relatching       // an interruption was seen after the latch was lowered
    | Disarming        // an interruption was seen before anything changed
    | Aborting
    | Succeeded
    | Failed           // the new generation is active and the latch is up again
    | Aborted          // nothing was changed and the latch is up
  {
    predicate Finished() {
      Succeeded? || Failed? || Aborted?
    }
  }

  /** The reconciliation goroutine: its flag is up from scheduling until Quiet. */
  datatype Goroutine = Quiet | Waiting | Finishing

  datatype State = State(
    epoch: nat,
    latched: bool,
    guard: bool,
    goroutine: Goroutine,
    signals: seq<Signal>,
    repair: Repair,
    sample: nat,           // the epoch the repair read
    keep: bool,            // the repair keeps an existing guard instead of raising one
    counted: bool,         // some epoch increment fell between the sample and the last check
    disarmed: bool)        // some guard consumption fell between arming and the swap

  datatype Step = SignalStep(i: nat) | RepairStep | GoroutineStep

  predicate SampleTaken(r: Repair) {
    !r.Entered?
  }

  /** Between the sample and the final epoch check. */
  predicate Sampling(r: Repair) {
    r.Sampled? || r.Armed? || r.EpochChecked? || r.GuardChecked? || r.Proven? || r.Cleared? || r.Swapped?
  }

  /** Between arming and the guard swap. */
  predicate Guarding(r: Repair) {
    r.Armed? || r.EpochChecked? || r.GuardChecked? || r.Proven? || r.Cleared?
  }

  function DoSignal(s: State, i: nat): (t: State)
    requires i < |s.signals|
    ensures t.repair == s.repair && t.sample == s.sample && t.keep == s.keep
    ensures |t.signals| == |s.signals|
    ensures forall j :: 0 <= j < |s.signals| && j != i ==> t.signals[j] == s.signals[j]
  {
    match s.signals[i]
    case Arriving =>
      s.(epoch := s.epoch + 1, signals := s.signals[i := Counted(SampleTaken(s.repair))],
         counted := s.counted || Sampling(s.repair))
    case Counted(late) => s.(latched := true, signals := s.signals[i := Latched(late)])
    case Latched(late) =>
      s.(guard := false, signals := s.signals[i := Disarmed(late)],
         disarmed := s.disarmed || Guarding(s.repair))
    case Disarmed(late) =>
      (match s.goroutine
       case Quiet => s.(goroutine := Waiting, signals := s.signals[i := Done(late, Scheduled)])
       case Waiting => s.(signals := s.signals[i := Done(late, JoinedWaiting)])
       case Finishing => s.(signals := s.signals[i := Done(late, JoinedFinishing)]))
    case Done(_, _) => s
  }

  function DoRepair(s: State): (t: State)
    ensures t.signals == s.signals && t.epoch == s.epoch && t.goroutine == s.goroutine && t.keep == s.keep
  {
    match s.repair
    case Entered => s.(repair := Sampled, sample := s.epoch, counted := false, disarmed := false)
    case Sampled => s.(repair := Armed, guard := s.guard || !s.keep)
    case Armed => s.(repair := if s.epoch != s.sample then Disarming else EpochChecked)
    case EpochChecked => s.(repair := if !s.guard then Disarming else GuardChecked)
    case GuardChecked => s.(repair := if !s.goroutine.Quiet? then Disarming else Proven)
    case Proven => s.(repair := Cleared, latched := false)
    case Cleared => if s.guard then s.(repair := Swapped, guard := false) else s.(repair := Relatching)
    case Swapped => s.(repair := if s.epoch == s.sample then Succeeded else Relatching)
    case Relatching => s.(repair := Failed, latched := true)
    case Disarming => s.(repair := Aborting, guard := false)
    case Aborting => s.(repair := Aborted, latched := true)
    case _ => s
  }

  /** One atomic operation of whoever the scheduler picks. A waiting reconciliation
      cannot run: the repair holds the mutex. */
  function Do(s: State, step: Step): State {
    match step
    case SignalStep(i) => if i < |s.signals| then DoSignal(s, i) else s
    case RepairStep => DoRepair(s)
    case GoroutineStep => if s.goroutine.Finishing? then s.(goroutine := Quiet) else s
  }

  function Exec(s: State, schedule: seq<Step>): State
    decreases |schedule|
  {
    if schedule == [] then s else Exec(Do(s, schedule[0]), schedule[1..])
  }

  /** The repair has just taken the mutex; signals may be anywhere short of done. */
  ghost predicate Init(s: State) {
    && s.repair == Entered
    && !s.counted && !s.disarmed
    && (forall i :: 0 <= i < |s.signals| ==> !s.signals[i].Done?)
    && (forall i :: 0 <= i < |s.signals| && !s.signals[i].Arriving? ==> !s.signals[i].late)
    && (forall i :: 0 <= i < |s.signals| && (s.signals[i].Latched? || s.signals[i].Disarmed?) ==> s.latched)
  }

  predicate SignalLatched(sig: Signal) {
    sig.Latched? || sig.Disarmed? || sig.Done?
  }

  /** Some signal incremented the epoch after the repair sampled it. */
  ghost predicate SomeLate(s: State) {
    exists i :: 0 <= i < |s.signals| && Late(s.signals[i])
  }

  predicate Late(sig: Signal) {
    !sig.Arriving? && sig.late
  }

  /** The signal reached a reconciliation that will still run. */
  predicate Handed(sig: Signal) {
    sig.Done? && !sig.how.JoinedFinishing?
  }

  predicate PastProof(r: Repair) {
    r.Proven? || r.Cleared? || r.Swapped? || r.Relatching? || r.Succeeded? || r.Failed?
  }

  ghost predicate EpochInv(s: State) {
    && (SampleTaken(s.repair) ==> s.sample <= s.epoch && (SomeLate(s) <==> s.sample < s.epoch))
    && (!SampleTaken(s.repair) ==> !SomeLate(s) && !s.counted && !s.disarmed)
    && (Sampling(s.repair) ==> (s.counted <==> SomeLate(s)))
  }

  ghost predicate GuardInv(s: State) {
    && (Guarding(s.repair) && s.disarmed ==> !s.guard)
    && (Guarding(s.repair) && !s.keep && !s.guard ==> s.disarmed)
    && (s.repair.GuardChecked? || s.repair.Proven? || s.repair.Cleared? ==> s.guard || s.disarmed)
    && (s.repair.Sampled? || s.repair.Swapped? ==> !s.disarmed)
  }

  ghost predicate LatchInv(s: State) {
    // nothing lowers the latch except the repair's own clearing step
    && (!(s.repair.Cleared? || s.repair.Swapped? || s.repair.Relatching? || s.repair.Succeeded?) ==>
          forall i :: 0 <= i < |s.signals| && SignalLatched(s.signals[i]) ==> s.latched)
    && (s.repair.Succeeded? ==>
          && !s.counted && !s.disarmed
          && forall i :: 0 <= i < |s.signals| && SignalLatched(s.signals[i]) && Late(s.signals[i]) ==> s.latched)
    && (s.repair.Relatching? || s.repair.Failed? ==> s.counted || s.disarmed)
    && (s.repair.Failed? || s.repair.Aborted? ==> s.latched)
  }

  ghost predicate HandoffInv(s: State) {
    && ((exists i :: 0 <= i < |s.signals| && Handed(s.signals[i])) ==> s.goroutine.Waiting?)
    && (PastProof(s.repair) && s.goroutine.Waiting? ==> exists i :: 0 <= i < |s.signals| && Handed(s.signals[i]))
  }

  ghost predicate Inv(s: State) {
    EpochInv(s) && GuardInv(s) && LatchInv(s) && HandoffInv(s)
  }

  lemma InitEstablishesInv(s: State)
    requires Init(s)
    ensures Inv(s)
  {
  }

  lemma OneSignalMoves(s: State, i: nat)
    requires i < |s.signals|
    ensures SomeLate(DoSignal(s, i)) <==>
            SomeLate(s) || (s.signals[i].Arriving? && SampleTaken(s.repair))
  {
    var t := DoSignal(s, i);
    assert Late(t.signals[i]) <==> Late(s.signals[i]) || (s.signals[i].Arriving? && SampleTaken(s.repair));
    hide DoSignal;
    if k :| 0 <= k < |s.signals| && Late(s.signals[k]) {
      assert Late(t.signals[k]);
    }
    if k :| 0 <= k < |t.signals| && Late(t.signals[k]) {
      assert k == i || Late(s.signals[k]);
    }
  }

  lemma SignalKeepsEpochInv(s: State, i: nat)
    requires EpochInv(s) && i < |s.signals|
    ensures EpochInv(DoSignal(s, i))
  {
    OneSignalMoves(s, i);
    hide SomeLate;
    match s.signals[i]
    case Arriving =>
    case Counted(late) =>
    case Latched(late) =>
    case Disarmed(late) =>
    case Done(late, how) =>
  }

  lemma SignalKeepsGuardInv(s: State, i: nat)
    requires GuardInv(s) && i < |s.signals|
    ensures GuardInv(DoSignal(s, i))
  {
    match s.signals[i]
    case Arriving =>
    case Counted(late) =>
    case Latched(late) =>
    case Disarmed(late) =>
    case Done(late, how) =>
  }

  lemma SignalKeepsLatchInv(s: State, i: nat)
    requires LatchInv(s) && EpochInv(s) && i < |s.signals|
    ensures LatchInv(DoSignal(s, i))
  {
    var t := DoSignal(s, i);
    OneSignalMoves(s, i);
    assert t.latched == (s.latched || s.signals[i].Counted?);
    assert SignalLatched(t.signals[i]) ==> SignalLatched(s.signals[i]) || t.latched;
    assert SignalLatched(t.signals[i]) && Late(t.signals[i]) ==> (SignalLatched(s.signals[i]) && Late(s.signals[i])) || t.latched;
    assert (s.counted ==> t.counted) && (s.disarmed ==> t.disarmed);
    assert s.repair.Succeeded? ==> t.counted == s.counted && t.disarmed == s.disarmed;
    hide DoSignal, SomeLate;
  }

  lemma SignalKeepsHandoffInv(s: State, i: nat)
    requires HandoffInv(s) && i < |s.signals|
    ensures HandoffInv(DoSignal(s, i))
  {
    var t := DoSignal(s, i);
    assert s.goroutine.Waiting? ==> t.goroutine.Waiting?;
    assert t.goroutine.Waiting? && !s.goroutine.Waiting? ==> Handed(t.signals[i]);
    assert Handed(t.signals[i]) ==> t.goroutine.Waiting? || t.signals[i] == s.signals[i];
    assert Handed(s.signals[i]) ==> t.signals[i] == s.signals[i];
    hide DoSignal;
    if k :| 0 <= k < |s.signals| && Handed(s.signals[k]) {
      assert Handed(t.signals[k]);
    }
    if k :| 0 <= k < |t.signals| && Handed(t.signals[k]) {
      assert k == i || Handed(s.signals[k]);
    }
  }

  lemma SignalKeepsInv(s: State, i: nat)
    requires Inv(s) && i < |s.signals|
    ensures Inv(DoSignal(s, i))
  {
    SignalKeepsEpochInv(s, i);
    SignalKeepsGuardInv(s, i);
    SignalKeepsLatchInv(s, i);
    SignalKeepsHandoffInv(s, i);
  }

  lemma SameSignals(s: State, t: State)
    requires t.signals == s.signals
    ensures SomeLate(t) <==> SomeLate(s)
  {
  }

  lemma RepairKeepsEpochInv(s: State)
    requires EpochInv(s)
    ensures EpochInv(DoRepair(s))
  {
    hide SomeLate;
    SameSignals(s, DoRepair(s));
    match s.repair
    case Entered =>
    case Sampled =>
    case Armed =>
    case EpochChecked =>
    case GuardChecked =>
    case Proven =>
    case Cleared =>
    case Swapped =>
    case Relatching =>
    case Disarming =>
    case Aborting =>
    case Succeeded =>
    case Failed =>
    case Aborted =>
  }

  lemma RepairKeepsGuardInv(s: State)
    requires GuardInv(s) && EpochInv(s)
    ensures GuardInv(DoRepair(s))
  {
  }

  lemma RepairKeepsLatchInv(s: State)
    requires Inv(s)
    ensures LatchInv(DoRepair(s))
  {
    if s.repair.Swapped? && s.epoch == s.sample {
      assert !SomeLate(s);
    }
    match s.repair
    case Entered =>
    case Sampled =>
    case Armed =>
    case EpochChecked =>
    case GuardChecked =>
    case Proven =>
    case Cleared =>
    case Swapped =>
    case Relatching =>
    case Disarming =>
    case Aborting =>
    case Succeeded =>
    case Failed =>
    case Aborted =>
  }

  lemma RepairKeepsHandoffInv(s: State)
    requires HandoffInv(s)
    ensures HandoffInv(DoRepair(s))
  {
    match s.repair
    case Entered =>
    case Sampled =>
    case Armed =>
    case EpochChecked =>
    case GuardChecked =>
    case Proven =>
    case Cleared =>
    case Swapped =>
    case Relatching =>
    case Disarming =>
    case Aborting =>
    case Succeeded =>
    case Failed =>
    case Aborted =>
  }

  lemma RepairKeepsInv(s: State)
    requires Inv(s)
    ensures Inv(DoRepair(s))
  {
    RepairKeepsEpochInv(s);
    RepairKeepsGuardInv(s);
    RepairKeepsLatchInv(s);
    RepairKeepsHandoffInv(s);
  }

  lemma StepKeepsInv(s: State, step: Step)
    requires Inv(s)
    ensures Inv(Do(s, step))
  {
    match step
    case SignalStep(i) =>
      if i < |s.signals| {
        SignalKeepsInv(s, i);
      }
    case RepairStep => RepairKeepsInv(s);
    case GoroutineStep =>
      assert SomeLate(Do(s, step)) <==> SomeLate(s);
  }

  lemma {:induction false} RunKeepsInv(s: State, schedule: seq<Step>)
    requires Inv(s)
    ensures Inv(Exec(s, schedule))
    decreases |schedule|
  {
    if schedule != [] {
      StepKeepsInv(s, schedule[0]);
      RunKeepsInv(Do(s, schedule[0]), schedule[1..]);
    }
  }

  // ---------------------------------------------------------------- what the protocol guarantees

  /** For every interleaving: a fault whose epoch increment came after the repair's sample
      is never hidden. Once the repair and that signal's latch store are done, the latch
      is up. */
  lemma RepairNeverHidesLaterFault(s: State, schedule: seq<Step>, i: nat)
    requires Init(s)
    requires Exec(s, schedule).repair.Finished()
    requires i < |Exec(s, schedule).signals|
    requires SignalLatched(Exec(s, schedule).signals[i]) && Late(Exec(s, schedule).signals[i])
    ensures Exec(s, schedule).latched
  {
    InitEstablishesInv(s);
    RunKeepsInv(s, schedule);
  }

  /** A repair that got as far as lowering the latch reports success exactly when no epoch
      increment fell between its sample and its last check and no guard consumption fell
      between arming and the swap. */
  lemma RepairSucceedsExactlyWhenUndisturbed(s: State, schedule: seq<Step>)
    requires Init(s)
    ensures var t := Exec(s, schedule);
            t.repair.Succeeded? || t.repair.Failed? ==> (t.repair.Succeeded? <==> !t.counted && !t.disarmed)
  {
    InitEstablishesInv(s);
    RunKeepsInv(s, schedule);
  }

  lemma ExecFront(s: State, step: Step, rest: seq<Step>)
    ensures Exec(s, [step] + rest) == Exec(Do(s, step), rest)
  {
    assert ([step] + rest)[1..] == rest;
  }

  /** "Success means no signal completed between the sample and the final check" is too
      strong: a signal that counted before the sample and disarmed before the arming
      completes in between, and its latch is lowered with the old one. */
  lemma SuccessDoesNotMeanNoSignalCompleted() returns (s: State, schedule: seq<Step>)
    ensures Init(s) && |s.signals| == 1 && s.signals[0] == Arriving
    ensures Exec(s, schedule).repair.Succeeded?
    ensures Exec(s, schedule).signals == [Done(false, JoinedFinishing)]
    ensures !Exec(s, schedule).latched
  {
    s := State(0, false, false, Finishing, [Arriving], Entered, 0, false, false, false);
    var sig, rep, gor := SignalStep(0), RepairStep, GoroutineStep;
    var tail := [gor, rep, rep, rep, rep, rep, rep, rep];
    schedule := [sig] + ([rep] + ([sig] + ([sig] + ([sig] + tail))));
    ExecFront(s, sig, [rep] + ([sig] + ([sig] + ([sig] + tail))));
    var s1 := Do(s, sig);
    ExecFront(s1, rep, [sig] + ([sig] + ([sig] + tail)));
    var s2 := Do(s1, rep);
    ExecFront(s2, sig, [sig] + ([sig] + tail));
    var s3 := Do(s2, sig);
    ExecFront(s3, sig, [sig] + tail);
    var s4 := Do(s3, sig);
    ExecFront(s4, sig, tail);
    var s5 := Do(s4, sig);
    assert s5 == State(1, true, false, Finishing, [Done(false, JoinedFinishing)], Sampled, 1, false, false, false);
    RepairRunsUndisturbed(s5, tail);
  }

  /** From a sample onwards, with nothing else running, the repair succeeds. */
  lemma RepairRunsUndisturbed(s: State, tail: seq<Step>)
    requires tail == [GoroutineStep, RepairStep, RepairStep, RepairStep, RepairStep, RepairStep, RepairStep, RepairStep]
    requires s.repair.Sampled? && !s.keep && s.epoch == s.sample && !s.goroutine.Waiting?
    ensures Exec(s, tail) == s.(repair := Succeeded, latched := false, guard := false, goroutine := Quiet)
  {
    var quiet := s.(goroutine := Quiet);
    ExecFront(s, GoroutineStep, tail[1..]);
    assert tail == [GoroutineStep] + tail[1..];
    ThreeThenFour(quiet, tail[1..]);
  }

  lemma ThreeThenFour(s: State, tail: seq<Step>)
    requires tail == [RepairStep, RepairStep, RepairStep, RepairStep, RepairStep, RepairStep, RepairStep]
    requires s.repair.Sampled? && !s.keep && s.epoch == s.sample && s.goroutine.Quiet?
    ensures Exec(s, tail) == s.(repair := Succeeded, latched := false, guard := false)
  {
    assert tail == tail[..3] + tail[3..];
    ExecConcat(s, tail[..3], tail[3..]);
    ThreeSteps(s, tail[..3]);
    FourSteps(Exec(s, tail[..3]), tail[3..]);
    hide Exec;
    assert Exec(s, tail[..3]) == s.(repair := GuardChecked, guard := true);
  }

  lemma ThreeSteps(s: State, three: seq<Step>)
    requires |three| == 3
    ensures Exec(s, three) == Do(Do(Do(s, three[0]), three[1]), three[2])
  {
    var s1 := Do(s, three[0]);
    var s2 := Do(s1, three[1]);
    assert Exec(s2, three[2..]) == Do(s2, three[2]);
    assert Exec(s1, three[1..]) == Exec(s2, three[2..]);
  }

  // ---------------------------------------------------------------- what success means

  /** The repair has just read the epoch. */
  predicate JustSampled(s: State) {
    s.repair.Sampled? && s.sample == s.epoch
  }

  /** A signal that has counted and has not yet run to its end. */
  predicate InFlight(sig: Signal) {
    sig.Counted? || sig.Latched? || sig.Disarmed?
  }

  /** The repair is about to make its last check, and the check will be passed. */
  predicate WillSucceed(t: State) {
    t.repair.Swapped? && Do(t, RepairStep).repair.Succeeded?
  }

  /** Between the sample s and a last check that is passed, signal i runs to its end. */
  ghost predicate CompletesInside(s: State, mid: seq<Step>, i: nat) {
    var t := Exec(s, mid);
    WillSucceed(t) && i < |s.signals| == |t.signals| && !s.signals[i].Done? && t.signals[i].Done?
  }

  predicate BeforeProof(r: Repair) {
    r.Sampled? || r.Armed? || r.EpochChecked? || r.GuardChecked? || r.Disarming? || r.Aborting? || r.Aborted?
  }

  /** What can have become of the sampled state s while the epoch stands still, while a
      reconciliation waits, and while a guard that is to be kept is missing. */
  ghost predicate SinceSample(s: State, t: State) {
    && !t.repair.Entered? && t.sample == s.sample && t.keep == s.keep && s.epoch <= t.epoch
    && |t.signals| == |s.signals|
    && (forall i :: 0 <= i < |s.signals| && s.signals[i].Done? ==> t.signals[i] == s.signals[i])
    && (t.epoch == s.epoch ==> forall i :: 0 <= i < |s.signals| && s.signals[i].Arriving? ==> t.signals[i].Arriving?)
    && (s.goroutine.Waiting? ==> t.goroutine.Waiting? && BeforeProof(t.repair))
    && (s.keep && !s.guard ==> !t.guard && BeforeProof(t.repair) && !t.repair.GuardChecked?)
  }

  /** How many steps a signal has left. */
  function Left(sig: Signal): nat {
    match sig
    case Arriving => 4
    case Counted(_) => 3
    case Latched(_) => 2
    case Disarmed(_) => 1
    case Done(_, _) => 0
  }

  /** One step of one signal, whoever else is where. */
  lemma SignalAdvances(s: State, i: nat)
    requires i < |s.signals|
    ensures var t := DoSignal(s, i);
            && Left(t.signals[i]) == (if s.signals[i].Done? then 0 else Left(s.signals[i]) - 1)
            && (s.signals[i].Done? ==> t == s)
            && t.epoch == (if s.signals[i].Arriving? then s.epoch + 1 else s.epoch)
            && t.guard == (s.guard && !s.signals[i].Latched?)
            && (!s.goroutine.Quiet? ==> t.goroutine == s.goroutine)
  {
    match s.signals[i]
    case Arriving =>
    case Counted(late) =>
    case Latched(late) =>
    case Disarmed(late) =>
    case Done(late, how) =>
  }

  lemma SignalSinceSample(s: State, t: State, i: nat)
    requires SinceSample(s, t) && i < |t.signals|
    ensures SinceSample(s, DoSignal(t, i))
  {
    SignalAdvances(t, i);
    hide DoSignal;
  }

  /** The repair's own step: it stays before the proof as long as a reconciliation waits. */
  lemma RepairIsBlocked(t: State)
    requires t.goroutine.Waiting? && BeforeProof(t.repair)
    ensures BeforeProof(DoRepair(t).repair)
  {
  }

  lemma RepairIsUnguarded(t: State)
    requires t.keep && !t.guard && BeforeProof(t.repair) && !t.repair.GuardChecked?
    ensures !DoRepair(t).guard && BeforeProof(DoRepair(t).repair) && !DoRepair(t).repair.GuardChecked?
  {
  }

  lemma RepairKeepsSample(t: State)
    requires !t.repair.Entered?
    ensures DoRepair(t).sample == t.sample && !DoRepair(t).repair.Entered?
  {
  }

  lemma RepairSinceSample(s: State, t: State)
    requires SinceSample(s, t)
    ensures SinceSample(s, DoRepair(t))
  {
    RepairKeepsSample(t);
    if s.goroutine.Waiting? {
      RepairIsBlocked(t);
    }
    if s.keep && !s.guard {
      RepairIsUnguarded(t);
    }
    hide DoRepair, BeforeProof;
  }

  lemma StepSinceSample(s: State, t: State, step: Step)
    requires SinceSample(s, t)
    ensures SinceSample(s, Do(t, step))
  {
    hide SinceSample, DoSignal, DoRepair;
    match step
    case SignalStep(i) =>
      if i < |t.signals| {
        SignalSinceSample(s, t, i);
      }
    case RepairStep => RepairSinceSample(s, t);
    case GoroutineStep => QuietSinceSample(s, t);
  }

  lemma QuietSinceSample(s: State, t: State)
    requires SinceSample(s, t)
    ensures t.goroutine.Finishing? ==> SinceSample(s, t.(goroutine := Quiet))
  {
  }

  lemma {:induction false} RunSinceSample(s: State, t: State, schedule: seq<Step>)
    requires SinceSample(s, t)
    ensures SinceSample(s, Exec(t, schedule))
    decreases |schedule|
  {
    if schedule != [] {
      StepSinceSample(s, t, schedule[0]);
      RunSinceSample(s, Do(t, schedule[0]), schedule[1..]);
    }
  }

  /** With no signal in flight at the sample, success does mean that no signal completed, or
      did anything at all, between the sample and the last check. */
  lemma SuccessMeansNothingHappened(s: State, mid: seq<Step>)
    requires JustSampled(s) && WillSucceed(Exec(s, mid))
    requires forall i :: 0 <= i < |s.signals| ==> !InFlight(s.signals[i])
    ensures |Exec(s, mid).signals| == |s.signals|
    ensures forall i :: 0 <= i < |s.signals| ==> Exec(s, mid).signals[i] == s.signals[i]
  {
    RunSinceSample(s, s, mid);
  }

  /** A signal can complete inside a successful repair exactly when it was in flight at the
      sample, no reconciliation was waiting, and a guard to be kept was there. */
  lemma CompletesInsideExactlyWhen(s: State, i: nat)
    requires JustSampled(s) && i < |s.signals| && !s.signals[i].Done?
    ensures (exists mid :: CompletesInside(s, mid, i)) <==>
            InFlight(s.signals[i]) && !s.goroutine.Waiting? && (s.keep ==> s.guard)
  {
    if mid :| CompletesInside(s, mid, i) {
      RunSinceSample(s, s, mid);
    }
    if InFlight(s.signals[i]) && !s.goroutine.Waiting? && (s.keep ==> s.guard) {
      var mid := LateCompletion(s, i);
    }
  }

  /** The schedule: the repair runs up to its last check, then the signal runs to its end. */
  lemma LateCompletion(s: State, i: nat) returns (mid: seq<Step>)
    requires JustSampled(s) && i < |s.signals|
    requires InFlight(s.signals[i]) && !s.goroutine.Waiting? && (s.keep ==> s.guard)
    ensures CompletesInside(s, mid, i)
  {
    var six := [RepairStep, RepairStep, RepairStep, RepairStep, RepairStep, RepairStep];
    var three := [SignalStep(i), SignalStep(i), SignalStep(i)];
    mid := [GoroutineStep] + (six + three);
    var quiet := s.(goroutine := Quiet);
    var swapped := quiet.(repair := Swapped, latched := false, guard := false);
    assert Do(s, GoroutineStep) == quiet && JustSampled(quiet);
    assert swapped.repair == Swapped && swapped.epoch == swapped.sample;
    hide *;
    ExecFront(s, GoroutineStep, six + three);
    ExecConcat(quiet, six, three);
    UpToTheLastCheck(quiet, six);
    SignalRunsOut(swapped, i, three);
    Completed(s, mid, i);
  }

  lemma Completed(s: State, mid: seq<Step>, i: nat)
    requires Exec(s, mid).repair.Swapped? && Exec(s, mid).epoch == Exec(s, mid).sample
    requires i < |s.signals| == |Exec(s, mid).signals| && InFlight(s.signals[i]) && Exec(s, mid).signals[i].Done?
    ensures CompletesInside(s, mid, i)
  {
    hide Exec, DoSignal;
  }

  lemma UpToTheLastCheck(s: State, six: seq<Step>)
    requires six == [RepairStep, RepairStep, RepairStep, RepairStep, RepairStep, RepairStep]
    requires JustSampled(s) && s.goroutine.Quiet? && (s.keep ==> s.guard)
    ensures Exec(s, six) == s.(repair := Swapped, latched := false, guard := false)
  {
    assert six == six[..3] + six[3..];
    ExecConcat(s, six[..3], six[3..]);
    ThreeSteps(s, six[..3]);
    ThreeSteps(s.(repair := GuardChecked, guard := true), six[3..]);
    hide Exec;
  }

  lemma SignalRunsOut(s: State, i: nat, three: seq<Step>)
    requires i < |s.signals| && InFlight(s.signals[i]) && three == [SignalStep(i), SignalStep(i), SignalStep(i)]
    ensures var t := Exec(s, three);
            && t.repair == s.repair && t.epoch == s.epoch && t.sample == s.sample
            && |t.signals| == |s.signals| && t.signals[i].Done?
  {
    ThreeSteps(s, three);
    hide Exec, DoSignal;
    var t := DoSignal(s, i);
    var u := DoSignal(t, i);
    SignalAdvances(s, i);
    SignalAdvances(t, i);
    SignalAdvances(u, i);
  }

  // ---------------------------------------------------------------- handing a fault to reconciliation

  /** When no finished reconciliation still had its flag up as the repair began, and every
      signal has run to its end, a failed repair always has a reconciliation waiting. */
  lemma FailedRepairIsReconciledUnlessFinishing(s: State, schedule: seq<Step>)
    requires Init(s) && !s.goroutine.Finishing?
    ensures var t := Exec(s, schedule);
            t.repair.Failed? && (forall i :: 0 <= i < |t.signals| ==> t.signals[i].Done? || t.signals[i].Arriving?) ==>
              t.goroutine.Waiting?
  {
    InitEstablishesInv(s);
    RunKeepsInv(s, schedule);
    NeverFinishingAgain(s, schedule);
    SomethingMoved(s, schedule);
    var t := Exec(s, schedule);
    if t.repair.Failed? && (forall i :: 0 <= i < |t.signals| ==> t.signals[i].Done? || t.signals[i].Arriving?) {
      var i :| 0 <= i < |t.signals| && !t.signals[i].Arriving?;
      assert Handed(t.signals[i]);
    }
  }

  ghost predicate NeverFinishing(s: State) {
    && !s.goroutine.Finishing?
    && forall i :: 0 <= i < |s.signals| && s.signals[i].Done? ==> Handed(s.signals[i])
  }

  lemma StepKeepsNeverFinishing(s: State, step: Step)
    requires NeverFinishing(s)
    ensures NeverFinishing(Do(s, step))
  {
    hide DoRepair;
  }

  lemma {:induction false} NeverFinishingAgain(s: State, schedule: seq<Step>)
    requires NeverFinishing(s)
    ensures NeverFinishing(Exec(s, schedule))
    decreases |schedule|
  {
    if schedule != [] {
      StepKeepsNeverFinishing(s, schedule[0]);
      NeverFinishingAgain(Do(s, schedule[0]), schedule[1..]);
    }
  }

  /** An interruption needs an interrupter. */
  ghost predicate Disturbed(s: State) {
    s.counted || s.disarmed ==> exists i :: 0 <= i < |s.signals| && !s.signals[i].Arriving?
  }

  lemma RepairKeepsDisturbed(s: State)
    requires Disturbed(s)
    ensures Disturbed(DoRepair(s))
  {
    match s.repair
    case Entered =>
    case Sampled =>
    case Armed =>
    case EpochChecked =>
    case GuardChecked =>
    case Proven =>
    case Cleared =>
    case Swapped =>
    case Relatching =>
    case Disarming =>
    case Aborting =>
    case Succeeded =>
    case Failed =>
    case Aborted =>
  }

  lemma StepKeepsDisturbed(s: State, step: Step)
    requires Disturbed(s)
    ensures Disturbed(Do(s, step))
  {
    if step.RepairStep? {
      RepairKeepsDisturbed(s);
      return;
    }
    hide DoRepair;
    var t := Do(s, step);
    assert |t.signals| == |s.signals|;
    if k :| 0 <= k < |s.signals| && !s.signals[k].Arriving? {
      assert !t.signals[k].Arriving?;
    }
    if step.SignalStep? && step.i < |s.signals| {
      assert !t.signals[step.i].Arriving?;
    }
  }

  lemma {:induction false} SomethingMoved(s: State, schedule: seq<Step>)
    requires Disturbed(s) && Inv(s)
    ensures Disturbed(Exec(s, schedule))
    ensures Exec(s, schedule).repair.Failed? ==>
              exists i :: 0 <= i < |Exec(s, schedule).signals| && !Exec(s, schedule).signals[i].Arriving?
    decreases |schedule|
  {
    if schedule != [] {
      StepKeepsInv(s, schedule[0]);
      StepKeepsDisturbed(s, schedule[0]);
      SomethingMoved(Do(s, schedule[0]), schedule[1..]);
    }
  }

  // ---- exactly when a fault can be left to nobody

  /** The repair has failed with the new generation active, every signal has run to its end
      or not begun, and no reconciliation is waiting. */
  ghost predicate Unattended(t: State) {
    && t.repair.Failed? && !t.goroutine.Waiting?
    && forall i :: 0 <= i < |t.signals| ==> t.signals[i].Done? || t.signals[i].Arriving?
  }

  /** The signal has yet to take the guard away. */
  predicate CanDisarm(sig: Signal) {
    sig.Arriving? || sig.Counted? || sig.Latched?
  }

  /** A fault can be left latched over an active generation with nothing scheduled exactly
      when a reconciliation that has released the mutex still has its flag up as the repair
      begins, some signal has yet to take the guard away, and a guard to be kept is there. */
  lemma FaultCanBeUnattendedExactlyWhen(s: State)
    requires Init(s)
    ensures (exists schedule :: Unattended(Exec(s, schedule))) <==>
            && s.goroutine.Finishing? && (s.keep ==> s.guard)
            && exists i :: 0 <= i < |s.signals| && CanDisarm(s.signals[i])
  {
    if schedule :| Unattended(Exec(s, schedule)) {
      if !s.goroutine.Finishing? {
        FailedRepairIsReconciledUnlessFinishing(s, schedule);
      }
      if s.keep && !s.guard {
        NeverGuarded(s, schedule);
      }
      if forall i :: 0 <= i < |s.signals| ==> !CanDisarm(s.signals[i]) {
        InitEstablishesInv(s);
        RunKeepsInv(s, schedule);
        StaysSpent(s, schedule);
      }
    }
    if s.goroutine.Finishing? && (s.keep ==> s.guard) {
      if i :| 0 <= i < |s.signals| && CanDisarm(s.signals[i]) {
        var schedule := UnattendedSchedule(s, i);
      }
    }
  }

  /** A guard that is to be kept and is not there never appears. */
  ghost predicate Unguarded(s: State) {
    s.keep && !s.guard && (s.repair.Entered? || (BeforeProof(s.repair) && !s.repair.GuardChecked?))
  }

  lemma {:induction false} NeverGuarded(s: State, schedule: seq<Step>)
    requires Unguarded(s)
    ensures Unguarded(Exec(s, schedule))
    decreases |schedule|
  {
    if schedule != [] {
      NeverGuarded(Do(s, schedule[0]), schedule[1..]);
    }
  }

  /** Signals that have all taken the guard already leave a later repair alone. */
  ghost predicate Spent(s: State) {
    !s.counted && !s.disarmed && forall i :: 0 <= i < |s.signals| ==> !CanDisarm(s.signals[i])
  }

  lemma StepKeepsSpent(s: State, step: Step)
    requires Spent(s)
    ensures Spent(Do(s, step))
  {
  }

  lemma {:induction false} StaysSpent(s: State, schedule: seq<Step>)
    requires Spent(s)
    ensures Spent(Exec(s, schedule))
    decreases |schedule|
  {
    if schedule != [] {
      StepKeepsSpent(s, schedule[0]);
      StaysSpent(Do(s, schedule[0]), schedule[1..]);
    }
  }

  /** Four steps of every signal from the j-th on, but for those that have not begun; the
      i-th runs in any case. */
  function RunOut(signals: seq<Signal>, i: nat, j: nat): seq<Step>
    requires j <= |signals|
    decreases |signals| - j
  {
    if j == |signals| then []
    else
      (if signals[j].Arriving? && j != i then [] else [SignalStep(j), SignalStep(j), SignalStep(j), SignalStep(j)])
      + RunOut(signals, i, j + 1)
  }

  /** The repair gets past its guard load, all signals run out while the finished
      reconciliation still has its flag up, the flag goes down, and the repair goes on. */
  lemma UnattendedSchedule(s: State, i: nat) returns (schedule: seq<Step>)
    requires s.repair.Entered? && s.goroutine.Finishing? && (s.keep ==> s.guard)
    requires i < |s.signals| && CanDisarm(s.signals[i])
    ensures Unattended(Exec(s, schedule))
  {
    var pre := [RepairStep, RepairStep, RepairStep, RepairStep];
    var mid := RunOut(s.signals, i, 0);
    var post := [GoroutineStep, RepairStep, RepairStep, RepairStep, RepairStep];
    schedule := pre + (mid + post);
    var checked := s.(repair := GuardChecked, sample := s.epoch, guard := true, counted := false, disarmed := false);
    GuardCheckedFirst(s, pre);
    AllRunOut(checked, i, 0, s.signals);
    ThenActivatesAndFails(Exec(checked, mid), post);
    ExecConcat(s, pre, mid + post);
    ExecConcat(checked, mid, post);
    hide Exec, RunOut;
  }

  lemma {:induction false} AllRunOut(s: State, i: nat, j: nat, signals: seq<Signal>)
    requires s.repair.GuardChecked? && s.goroutine.Finishing? && j <= |signals| == |s.signals| && i < |signals|
    requires forall k :: j <= k < |signals| ==> s.signals[k] == signals[k]
    requires forall k :: 0 <= k < j ==> s.signals[k].Done? || s.signals[k].Arriving?
    requires if i < j then !s.guard else CanDisarm(signals[i])
    ensures var t := Exec(s, RunOut(signals, i, j));
            && t.repair.GuardChecked? && t.goroutine.Finishing? && !t.guard
            && forall k :: 0 <= k < |t.signals| ==> t.signals[k].Done? || t.signals[k].Arriving?
    decreases |signals| - j
  {
    if j < |signals| {
      var four := [SignalStep(j), SignalStep(j), SignalStep(j), SignalStep(j)];
      if signals[j].Arriving? && j != i {
        AllRunOut(s, i, j + 1, signals);
        assert RunOut(signals, i, j) == RunOut(signals, i, j + 1);
      } else {
        OneRunsOut(s, j, four);
        AllRunOut(Exec(s, four), i, j + 1, signals);
        ExecConcat(s, four, RunOut(signals, i, j + 1));
        assert RunOut(signals, i, j) == four + RunOut(signals, i, j + 1);
        hide Exec;
      }
    }
  }

  lemma OneRunsOut(s: State, j: nat, four: seq<Step>)
    requires j < |s.signals| && s.goroutine.Finishing?
    requires four == [SignalStep(j), SignalStep(j), SignalStep(j), SignalStep(j)]
    ensures var t := Exec(s, four);
            && t.repair == s.repair && t.goroutine == s.goroutine && |t.signals| == |s.signals|
            && t.signals[j].Done? && (forall k :: 0 <= k < |s.signals| && k != j ==> t.signals[k] == s.signals[k])
            && (t.guard ==> s.guard && !CanDisarm(s.signals[j]))
  {
    FourSteps(s, four);
    hide Exec, DoSignal;
    var t := DoSignal(s, j);
    var u := DoSignal(t, j);
    var v := DoSignal(u, j);
    SignalAdvances(s, j);
    SignalAdvances(t, j);
    SignalAdvances(u, j);
    SignalAdvances(v, j);
  }

  /** The exception is real. A signal delivered as one indivisible call, while a finished
      reconciliation has released the mutex but not lowered its flag, and between the
      repair's guard load and its reconciling load, schedules nothing: the repair then
      activates, sees its guard gone, raises the latch again and fails, with a generation
      active, the fault latched and no reconciliation left to run. */
  lemma FaultCanBeLatchedWithNothingScheduled() returns (s: State, schedule: seq<Step>)
    ensures Init(s) && s.goroutine == Finishing && s.latched
    ensures exists pre, post :: schedule == pre + [SignalStep(0), SignalStep(0), SignalStep(0), SignalStep(0)] + post
    ensures Exec(s, schedule).repair.Failed?
    ensures Exec(s, schedule).latched && Exec(s, schedule).goroutine.Quiet?
    ensures Exec(s, schedule).signals == [Done(true, JoinedFinishing)]
  {
    s := State(1, true, false, Finishing, [Arriving], Entered, 0, false, false, false);
    var checked := s.(repair := GuardChecked, sample := 1, guard := true);
    var hit := checked.(epoch := 2, guard := false, signals := [Done(true, JoinedFinishing)], counted := true, disarmed := true);
    var pre := [RepairStep, RepairStep, RepairStep, RepairStep];
    var mid := [SignalStep(0), SignalStep(0), SignalStep(0), SignalStep(0)];
    var post := [GoroutineStep, RepairStep, RepairStep, RepairStep, RepairStep];
    schedule := pre + mid + post;
    GuardCheckedFirst(s, pre);
    OneWholeSignal(checked, mid);
    ThenActivatesAndFails(hit, post);
    ExecConcat(s, pre + mid, post);
    ExecConcat(s, pre, mid);
    hide Exec;
  }

  lemma GuardCheckedFirst(s: State, pre: seq<Step>)
    requires s.repair.Entered? && (s.keep ==> s.guard)
    requires pre == [RepairStep, RepairStep, RepairStep, RepairStep]
    ensures Exec(s, pre) == s.(repair := GuardChecked, sample := s.epoch, guard := true, counted := false, disarmed := false)
  {
    FourSteps(s, pre);
    hide Exec;
  }

  lemma OneWholeSignal(s: State, mid: seq<Step>)
    requires s.repair.GuardChecked? && s.signals == [Arriving] && s.goroutine.Finishing?
    requires mid == [SignalStep(0), SignalStep(0), SignalStep(0), SignalStep(0)]
    ensures Exec(s, mid) == s.(epoch := s.epoch + 1, latched := true, guard := false,
                               signals := [Done(true, JoinedFinishing)], counted := true, disarmed := true)
  {
    FourSteps(s, mid);
    hide Exec;
  }

  lemma ThenActivatesAndFails(s: State, post: seq<Step>)
    requires s.repair.GuardChecked? && s.goroutine.Finishing? && !s.guard
    requires post == [GoroutineStep, RepairStep, RepairStep, RepairStep, RepairStep]
    ensures Exec(s, post) == s.(goroutine := Quiet, repair := Failed, latched := true)
  {
    ExecFront(s, GoroutineStep, post[1..]);
    assert post == [GoroutineStep] + post[1..];
    FourSteps(s.(goroutine := Quiet), post[1..]);
    hide Exec;
  }

  lemma FourSteps(s: State, four: seq<Step>)
    requires |four| == 4
    ensures Exec(s, four) == Do(Do(Do(Do(s, four[0]), four[1]), four[2]), four[3])
  {
    var s1 := Do(s, four[0]);
    var s2 := Do(s1, four[1]);
    var s3 := Do(s2, four[2]);
    assert Exec(s3, four[3..]) == Do(s3, four[3]);
    assert Exec(s2, four[2..]) == Exec(s3, four[3..]);
    assert Exec(s1, four[1..]) == Exec(s2, four[2..]);
  }

  lemma {:induction false} ExecConcat(s: State, a: seq<Step>, b: seq<Step>)
    ensures Exec(s, a + b) == Exec(Exec(s, a), b)
    decreases |a|
  {
    if a == [] {
      assert a + b == b;
    } else {
      assert (a + b)[0] == a[0] && (a + b)[1..] == a[1..] + b;
      ExecConcat(Do(s, a[0]), a[1..], b);
    }
  }
}
