/** The controller that moves new connections between immutable engine generations. Every
    stretch the source runs under its mutex is one method here; between any two of its
    steps Disturbance lets packets, timers and integrity signals happen.

    Steady is what the environment relies on, Settled is what every step of an operation
    keeps, and AtRest is what holds of the fault state besides when the mutex is free. Bodies
    hide all definitions and take the facts they need from small lemmas: SettledParts and
    SettledFrom take the agreement apart and put it together again, and StandsIs and NowIs
    do the same for the fault state. */
module Controllers {
  import opened Wrappers
  import opened Selectors
  import opened Artifacts
  import opened Hosts
  import opened Registries
  import opened Lifecycle
  import Allocation
  import Marks

  class Controller {
    const host: Host
    const eng: Registry
    const faults: FaultCell

    var generations: Gens
    var activeNew: GenId
    var previous: GenId
    var isUnsafe: bool
    var steeringInstalled: bool
    var offloads: Option<string>
    var persistFatal: bool
    var remediation: bool
    var remediationEpoch: nat
    var reserved: set<GenId>
    /** How often the kernel, the disk, the NIC or conntrack has refused something. */
    ghost var failed: nat
    /** How many fatal callbacks have been scheduled. */
    var reports: nat
    /** The stale table of a predecessor has been removed. */
    var serving: bool

    constructor (host: Host)
      requires host.History()
      ensures this.host == host && fresh(eng) && fresh(faults)
      ensures Steady() && Fresh()
      ensures faults.Now() == Faults(0, false, false, false, false, false) && faults.Now().Sound()
    {
      this.host := host;
      this.eng := new Registry(host.cfg.library);
      this.faults := new FaultCell();
      generations, activeNew, previous := map[], NO_GEN, NO_GEN;
      isUnsafe, steeringInstalled, offloads, persistFatal := false, false, None, false;
      remediation, remediationEpoch, reserved := false, 0, {};
      reports, serving, failed := 0, false, 0;
      new;
      hide Host.History;
    }

    // ------------------------------------------------------------ invariants

    function ThisView(): View
      reads this`generations, this`activeNew, this`previous, this`isUnsafe, this`offloads
    {
      View(generations, activeNew, previous, isUnsafe, offloads)
    }

    function Stands(): Standing
      reads this`persistFatal, this`isUnsafe, this`remediation, this`remediationEpoch
    {
      Standing(persistFatal, isUnsafe, remediation, remediationEpoch)
    }

    /** The state file holds exactly the controller's present view. */
    ghost predicate DiskIsImage()
      reads this`generations, this`activeNew, this`previous, this`isUnsafe, this`offloads, host`disk
    {
      host.disk.Stored? && IsImage(host.disk.file, ThisView())
    }

    /** What the environment relies on at any step. */
    ghost predicate Steady()
      reads this`serving, host, eng`byID, faults
    {
      && host.History()
      && (serving ==> SafeFor(host.program, DnasOf(eng.byID), host.disk, host.cfg))
      && faults.Now().Ok()
    }

    /** Table, registry, program and state file agree; every step of a lifecycle operation
        keeps this. */
    ghost predicate Settled()
      reads this`serving, this`generations, this`activeNew, this`offloads, this`steeringInstalled, this`reserved
      reads host`program, host`disk, eng`byID, eng`prepared, eng`log
    {
      && serving
      && eng.Valid() && eng.library == host.cfg.library
      && GensOk(generations, host.cfg)
      && EnginesMatch(eng.byID, generations)
      && DiskCovers(host.disk, generations)
      && ProgramWithin(host.program, generations)
      && ActiveOk(generations, activeNew)
      && (offloads.Some? ==> offloads.value == host.cfg.iface)
      && (steeringInstalled ==> Steers(host.program))
      && ReservedOk()
    }

    ghost predicate ReservedOk()
      reads this`reserved
    {
      forall id :: id in reserved ==> ValidGen(id)
    }

    /** What holds whenever the mutex is free. */
    ghost predicate Valid()
      reads this, host, eng, faults
    {
      Steady() && Settled() && AtRest(activeNew, eng.active, Stands(), faults.Now())
    }

    lemma SettledParts()
      requires Settled()
      ensures serving && eng.Valid() && eng.library == host.cfg.library
      ensures GensOk(generations, host.cfg) && EnginesMatch(eng.byID, generations)
      ensures DiskCovers(host.disk, generations) && ProgramWithin(host.program, generations)
      ensures ActiveOk(generations, activeNew) && (offloads.Some? ==> offloads.value == host.cfg.iface)
      ensures steeringInstalled ==> Steers(host.program)
      ensures ReservedOk()
      ensures ViewOk(ThisView(), host.cfg)
      ensures ThisView() == View(generations, activeNew, previous, isUnsafe, offloads)
    {
      hide GensOk, EnginesMatch, DiskCovers, ProgramWithin, ActiveOk, Steers, Registry.Valid, ReservedOk;
    }

    lemma SettledFrom()
      requires serving && eng.Valid() && eng.library == host.cfg.library
      requires GensOk(generations, host.cfg) && EnginesMatch(eng.byID, generations)
      requires DiskCovers(host.disk, generations) && ProgramWithin(host.program, generations)
      requires ActiveOk(generations, activeNew) && (offloads.Some? ==> offloads.value == host.cfg.iface)
      requires (steeringInstalled ==> Steers(host.program)) && ReservedOk()
      ensures Settled()
    {
      hide GensOk, EnginesMatch, DiskCovers, ProgramWithin, ActiveOk, Steers, Registry.Valid, ReservedOk;
    }

    lemma SteadyFacts()
      requires Steady()
      ensures host.History() && ProgramIdsOk(host.program) && faults.Now().Ok()
      ensures serving ==> SafeFor(host.program, DnasOf(eng.byID), host.disk, host.cfg)
      ensures |host.trace| > 0 && host.trace[|host.trace| - 1].program == host.program
      ensures host.Watched(Watch(|host.trace| - 1, {}, {host.program}))
    {
      hide SafeFor, ProgramIdsOk, SafeMoment, MomentsStep, IsImage, ViewOk;
    }

    lemma SteadyFrom()
      requires host.History() && faults.Now().Ok()
      requires serving ==> SafeFor(host.program, DnasOf(eng.byID), host.disk, host.cfg)
      ensures Steady()
    {
      hide Host.History, SafeFor;
    }

    lemma ValidParts()
      requires Valid()
      ensures Steady() && Settled() && AtRest(activeNew, eng.active, Stands(), faults.Now())
    {
      hide Steady, Settled, AtRest;
    }

    lemma ValidFrom()
      requires Steady() && Settled() && AtRest(activeNew, eng.active, Stands(), faults.Now())
      ensures Valid()
    {
      hide Steady, Settled, AtRest;
    }

    // ------------------------------------------------------------ the environment

    method Traffic(ghost w: Watch)
      requires Steady() && host.Watched(w)
      modifies host`table, host`gone, host`trace
      ensures Steady() && host.Watched(w) && old(host.trace) <= host.trace
    {
      hide *;
      SteadyFacts();
      host.Traffic(DnasOf(eng.byID), serving, w);
      SteadyFrom();
    }

    /** A signal changes nothing but the atomics. */
    method Signalled()
      requires Steady()
      modifies faults
      ensures unchanged(faults`unattended)
      ensures Steady() && Disturbs(old(faults.Now()), faults.Now())
    {
      hide *;
      SteadyFacts();
      ghost var f := faults.Now();
      faults.IntegrityFailure();
      OkIsKept(f, faults.Now());
      SteadyFrom();
    }

    method Lowered()
      requires Steady()
      modifies faults
      ensures unchanged(faults`unattended)
      ensures Steady() && Disturbs(old(faults.Now()), faults.Now())
    {
      hide *;
      SteadyFacts();
      ghost var f := faults.Now();
      faults.LowerReconciling();
      OkIsKept(f, faults.Now());
      SteadyFrom();
    }

    /** Anything that does not need the mutex: packets, timers, integrity signals, and a
        finished reconciliation lowering its flag; any number, in any order. */
    method Disturbance(ghost w: Watch)
      requires Steady() && host.Watched(w)
      modifies faults, host`table, host`gone, host`trace
      ensures unchanged(faults`unattended)
      ensures Steady() && host.Watched(w) && old(host.trace) <= host.trace
      ensures Disturbs(old(faults.Now()), faults.Now())
    {
      hide *;
      ghost var f := faults.Now();
      DisturbsIsReflexive(f);
      var n: nat := *;
      while n > 0
        invariant Steady() && host.Watched(w) && old(host.trace) <= host.trace
        invariant Disturbs(f, faults.Now()) && unchanged(faults`unattended)
        decreases n
      {
        ghost var g := faults.Now();
        DisturbsIsReflexive(g);
        var kind: nat := *;
        if kind == 0 {
          Signalled();
        } else if kind == 1 {
          Lowered();
        } else {
          Traffic(w);
        }
        DisturbsIsTransitive(f, g, faults.Now());
        n := n - 1;
      }
    }

    // ------------------------------------------------------------ kernel transactions

    method Commit(p: Program, ghost w: Watch)
      requires Steady() && host.Watched(w) && p.assignee in w.allowed
      requires ProgramIdsOk(p) && (serving ==> SafeFor(p, DnasOf(eng.byID), host.disk, host.cfg))
      modifies host`program, host`trace
      ensures Steady() && host.Watched(w) && old(host.trace) <= host.trace
      ensures host.program == p
    {
      hide *;
      SteadyFacts();
      host.Replace(p, DnasOf(eng.byID), serving, w);
      SteadyFrom();
    }

    lemma WatchFrom(extra: set<GenId>)
      requires Steady()
      ensures |host.trace| > 0 && host.Watched(Watch(|host.trace| - 1, extra, {host.program}))
    {
      SteadyFacts();
    }

    /** What a narrower watch has seen since some moment, the wider one has seen too. */
    lemma Spliced(h: seq<Moment>, wide: Watch, narrow: Watch)
      requires h <= host.trace && wide.since < |h| && narrow.since <= |h|
      requires narrow.allowed <= wide.allowed && forall p :: p in narrow.kept ==> wide.Allows(p)
      requires forall k :: wide.since <= k < |h| ==> wide.Allows(h[k].program)
      requires host.Watched(narrow)
      ensures host.Watched(wide)
    {
      forall k | wide.since <= k < |host.trace|
        ensures wide.Allows(host.trace[k].program)
      {
        if k < |h| {
          assert host.trace[k] == h[k];
        } else {
          assert narrow.Allows(host.trace[k].program);
        }
      }
    }

    lemma WatchedFacts(w: Watch)
      requires Steady() && host.Watched(w)
      ensures w.since < |host.trace| && w.Allows(host.program)
      ensures forall k :: w.since <= k < |host.trace| ==> w.Allows(host.trace[k].program)
    {
      SteadyFacts();
    }

    /** Watching for one program is watching for its assignment. */
    lemma WatchedAssignee(cut: nat, p: Program)
      requires host.Watched(Watch(cut, {}, {p}))
      ensures host.Watched(Watch(cut, {p.assignee}))
    {
      forall k | cut <= k < |host.trace|
        ensures Watch(cut, {p.assignee}).Allows(host.trace[k].program)
      {
        assert Watch(cut, {}, {p}).Allows(host.trace[k].program);
      }
    }

    /** A watch that lets only listed numbers be assigned. */
    lemma OnlyListed(h: seq<Moment>, w: Watch, listed: set<GenId>)
      requires h <= host.trace && w.since <= |h| && host.Watched(w)
      requires forall id :: id in w.allowed ==> id == NO_GEN || id in listed
      requires forall p: Program :: p in w.kept ==> p.assignee == NO_GEN || p.assignee in listed
      ensures Allocation.AssignedOnly(h, host.trace, listed)
    {
      forall k | |h| <= k < |host.trace|
        ensures host.trace[k].program.assignee == NO_GEN || host.trace[k].program.assignee in listed
      {
        assert w.Allows(host.trace[k].program);
      }
    }

    /** The assignee and the active number are listed, and an entry is where its engine is. */
    lemma Listed()
      requires Settled()
      ensures host.program.assignee == NO_GEN || host.program.assignee in generations
      ensures activeNew == NO_GEN || activeNew in generations
      ensures generations.Keys == eng.byID.Keys
    {
      hide GensOk, DiskCovers, Registry.Valid, ReservedOk;
    }

    lemma ValidListed()
      requires Valid()
      ensures generations.Keys == eng.byID.Keys
    {
      hide *;
      ValidParts();
      Listed();
    }

    /** programModeLocked: one atomic table replacement, verified by reading its fingerprint
        back. A failure leaves the old table or the new one. After a success no moment from
        `cut` on has another assignment. */
    method ProgramMode(live: map<GenId, Scope>, assignee: GenId, neutral: bool, verify: bool, ghost w: Watch)
      returns (ok: bool, ghost cut: nat)
      requires Steady() && host.Watched(w) && assignee in w.allowed
      requires ProgramIdsOk(Program(live, assignee, neutral))
      requires serving ==> SafeFor(Program(live, assignee, neutral), DnasOf(eng.byID), host.disk, host.cfg)
      modifies faults, host`program, host`table, host`gone, host`trace, this`steeringInstalled, this`failed
      ensures unchanged(faults`unattended)
      ensures Steady() && host.Watched(w) && old(host.trace) <= host.trace && old(failed) <= failed
      ensures Disturbs(old(faults.Now()), faults.Now())
      ensures ok ==> host.program == Program(live, assignee, neutral) && host.Watched(Watch(cut, {assignee}))
      ensures ok ==> |old(host.trace)| <= cut + 1
      ensures !ok ==> host.program == old(host.program) || host.program == Program(live, assignee, neutral)
      ensures !ok ==> old(failed) < failed
      ensures steeringInstalled == (ok && Steers(Program(live, assignee, neutral)))
    {
      hide *;
      ghost var f := faults.Now();
      var p := Program(live, assignee, neutral);
      steeringInstalled := false;
      cut := 0;
      Disturbance(w);
      if verify {
        var accepted: bool := *;
        if !accepted {
          failed := failed + 1;
          return false, cut;
        }
      }
      var committed: bool := *;
      if committed {
        Commit(p, w);
      }
      SteadyFacts();
      WatchedFacts(w);
      ghost var g, h := faults.Now(), host.trace;
      cut := |host.trace| - 1;
      ghost var now := Watch(cut, {}, {host.program});
      Disturbance(now);
      Spliced(h, w, now);
      WatchedAssignee(cut, host.program);
      DisturbsIsTransitive(f, g, faults.Now());
      var readBack: bool := *;
      ok := readBack && host.program == p;
      if ok {
        steeringInstalled := Steers(p);
      } else {
        failed := failed + 1;
      }
    }

    /** A transaction whose program steers only entries keeps everything settled. */
    method ProgramLocked(live: map<GenId, Scope>, assignee: GenId, neutral: bool, verify: bool, ghost w: Watch)
      returns (ok: bool, ghost cut: nat)
      requires Steady() && Settled() && host.Watched(w) && assignee in w.allowed
      requires ProgramWithin(Program(live, assignee, neutral), generations)
      modifies faults, host`program, host`table, host`gone, host`trace, this`steeringInstalled, this`failed
      ensures unchanged(faults`unattended)
      ensures Steady() && Settled() && host.Watched(w) && old(host.trace) <= host.trace && old(failed) <= failed
      ensures Disturbs(old(faults.Now()), faults.Now())
      ensures ok ==> host.program == Program(live, assignee, neutral) && host.Watched(Watch(cut, {assignee}))
      ensures ok ==> |old(host.trace)| <= cut + 1
      ensures !ok ==> host.program == old(host.program) || host.program == Program(live, assignee, neutral)
      ensures !ok ==> old(failed) < failed
      ensures steeringInstalled == (ok && Steers(Program(live, assignee, neutral)))
    {
      hide *;
      SettledParts();
      AgreementIsSafe(Program(live, assignee, neutral), eng.byID, host.disk, generations, host.cfg);
      ok, cut := ProgramMode(live, assignee, neutral, verify, w);
      SettledFrom();
    }

    // ------------------------------------------------------------ durable state

    method WriteFile(file: File, ghost w: Watch)
      requires Steady() && host.Watched(w) && IsImage(file, ThisView()) && ViewOk(ThisView(), host.cfg)
      requires serving ==> SafeFor(host.program, DnasOf(eng.byID), Stored(file), host.cfg)
      modifies host`disk, host`written, host`trace
      ensures Steady() && host.Watched(w) && old(host.trace) <= host.trace
      ensures host.disk == Stored(file) && DiskIsImage()
    {
      hide *;
      SteadyFacts();
      host.Save(file, ThisView(), DnasOf(eng.byID), serving, w);
      SteadyFrom();
      DiskHolds(file);
    }

    lemma DiskHolds(file: File)
      requires host.disk == Stored(file) && IsImage(file, ThisView())
      ensures DiskIsImage()
    {
    }

    /** persistenceFailureLocked: the first failure is fatal, and latches. */
    method PersistenceFailure()
      requires Steady()
      modifies faults`latched, faults`guard, this`persistFatal, this`isUnsafe, this`remediation
      modifies this`remediationEpoch, this`reports
      ensures Steady() && persistFatal && old(reports) <= reports
      ensures KeptOrFatal(old(faults.Now()), old(Stands()), faults.Now(), Stands())
    {
      hide SafeFor, Host.History;
      if !persistFatal {
        persistFatal := true;
        faults.latched := true;
        faults.guard := false;
        isUnsafe, remediation, remediationEpoch := true, false, 0;
        reports := reports + 1;
      }
    }

    /** persistLocked: the new file survives a crash if this returns true; after a failure
        either file may be the one that survives. */
    method Persist(ghost w: Watch) returns (ok: bool)
      requires Steady() && host.Watched(w) && ViewOk(ThisView(), host.cfg)
      requires serving ==> forall f :: IsImage(f, ThisView()) ==> SafeFor(host.program, DnasOf(eng.byID), Stored(f), host.cfg)
      modifies faults, host`table, host`gone, host`trace, host`disk, host`written, this`failed
      modifies this`persistFatal, this`isUnsafe, this`remediation, this`remediationEpoch, this`reports
      ensures unchanged(faults`unattended)
      ensures Steady() && host.Watched(w) && old(host.trace) <= host.trace && old(failed) <= failed
      ensures KeptOrFatal(old(faults.Now()), old(Stands()), faults.Now(), Stands())
      ensures ok ==> DiskIsImage() && Disturbs(old(faults.Now()), faults.Now()) && Stands() == old(Stands())
      ensures ok ==> isUnsafe == old(isUnsafe) && persistFatal == old(persistFatal)
      ensures (!ok ==> persistFatal && old(failed) < failed) && old(reports) <= reports
      ensures !ok ==> host.disk == old(host.disk) || (host.disk.Stored? && IsImage(host.disk.file, old(ThisView())))
    {
      hide *;
      ghost var f, s := faults.Now(), Stands();
      var file := BuildFile(ThisView());
      Disturbance(w);
      KeptIsKept(f, s, faults.Now());
      var outcome: nat := *;
      if outcome != 0 {
        WriteFile(file, w);
        if outcome != 1 {
          return true;
        }
      }
      ghost var g := faults.Now();
      failed := failed + 1;
      PersistenceFailure();
      KeptOrFatalIsTransitive(f, s, g, s, faults.Now(), Stands());
      return false;
    }

    /** A persist of a settled controller keeps it settled. */
    method PersistLocked(ghost w: Watch) returns (ok: bool)
      requires Steady() && Settled() && host.Watched(w)
      modifies faults, host`table, host`gone, host`trace, host`disk, host`written, this`failed
      modifies this`persistFatal, this`isUnsafe, this`remediation, this`remediationEpoch, this`reports
      ensures unchanged(faults`unattended)
      ensures Steady() && Settled() && host.Watched(w) && old(host.trace) <= host.trace && old(failed) <= failed
      ensures KeptOrFatal(old(faults.Now()), old(Stands()), faults.Now(), Stands())
      ensures ok ==> DiskIsImage() && Disturbs(old(faults.Now()), faults.Now()) && Stands() == old(Stands())
      ensures ok ==> isUnsafe == old(isUnsafe) && persistFatal == old(persistFatal)
      ensures (!ok ==> persistFatal && old(failed) < failed) && old(reports) <= reports
    {
      hide *;
      SettledParts();
      forall f | IsImage(f, ThisView())
        ensures SafeFor(host.program, DnasOf(eng.byID), Stored(f), host.cfg)
      {
        ImageCovers(f, ThisView());
        AgreementIsSafe(host.program, eng.byID, Stored(f), generations, host.cfg);
      }
      ghost var v, gens := ThisView(), generations;
      ok := Persist(w);
      if ok {
        ImageOnDiskCovers();
      } else if host.disk.Stored? && IsImage(host.disk.file, v) {
        ImageCovers(host.disk.file, v);
        assert host.disk == Stored(host.disk.file);
      }
      SettledFrom();
    }

    lemma ImageOnDiskCovers()
      requires DiskIsImage()
      ensures DiskCovers(host.disk, generations)
    {
      ImageCovers(host.disk.file, ThisView());
    }

    // ------------------------------------------------------------ NIC offloads

    /** ensureOffloadsDown: ownership is durable before the first feature is changed. What
        the NIC answers is left open. */
    method EnsureOffloadsDown(ghost w: Watch) returns (ok: bool)
      requires Steady() && Settled() && host.Watched(w)
      modifies faults, host`table, host`gone, host`trace, host`disk, host`written, this`failed
      modifies this`persistFatal, this`isUnsafe, this`remediation, this`remediationEpoch, this`reports
      modifies this`offloads
      ensures unchanged(faults`unattended)
      ensures Steady() && Settled() && host.Watched(w) && old(host.trace) <= host.trace && old(failed) <= failed
      ensures old(reports) <= reports
      ensures KeptOrFatal(old(faults.Now()), old(Stands()), faults.Now(), Stands())
      ensures ok ==> Disturbs(old(faults.Now()), faults.Now()) && Stands() == old(Stands())
      ensures !ok ==> old(failed) < failed
      ensures ok || !persistFatal ==> old(DiskIsImage()) ==> DiskIsImage()
    {
      hide *;
      ghost var f, s := faults.Now(), Stands();
      DisturbsIsReflexive(f);
      KeptIsKept(f, s, f);
      if host.cfg.iface == "" && offloads.None? {
        return true;
      }
      if offloads.Some? {
        ok := *;
        if offloads.value != host.cfg.iface || !ok {
          failed := failed + 1;
          return false;
        }
        return true;
      }
      var captured: bool, features: bool := *, *;
      if !captured {
        failed := failed + 1;
        return false;
      }
      if !features {
        return true;
      }
      SettledParts();
      offloads := Some(host.cfg.iface);
      SettledFrom();
      ok := PersistLocked(w);
      if !ok {
        SettledParts();
        offloads := None;
        SettledFrom();
        return false;
      }
      ghost var g, t := faults.Now(), Stands();
      var disabled: bool, restored: bool := *, *;
      if disabled {
        return true;
      }
      failed := failed + 1;
      if restored {
        SettledParts();
        offloads := None;
        SettledFrom();
      }
      ok := PersistLocked(w);
      KeptOrFatalIsTransitive(f, s, g, t, faults.Now(), Stands());
      return false;
    }

    /** restoreOffloads. */
    method RestoreOffloads(ghost w: Watch) returns (ok: bool)
      requires Steady() && Settled() && host.Watched(w)
      modifies faults, host`table, host`gone, host`trace, host`disk, host`written, this`failed
      modifies this`persistFatal, this`isUnsafe, this`remediation, this`remediationEpoch, this`reports
      modifies this`offloads
      ensures unchanged(faults`unattended)
      ensures Steady() && Settled() && host.Watched(w) && old(host.trace) <= host.trace && old(failed) <= failed
      ensures old(reports) <= reports
      ensures KeptOrFatal(old(faults.Now()), old(Stands()), faults.Now(), Stands())
      ensures ok ==> Disturbs(old(faults.Now()), faults.Now()) && Stands() == old(Stands())
      ensures !ok ==> old(failed) < failed
      ensures ok || !persistFatal ==> old(DiskIsImage()) ==> DiskIsImage()
    {
      hide *;
      DisturbsIsReflexive(faults.Now());
      KeptIsKept(faults.Now(), Stands(), faults.Now());
      if offloads.None? {
        return true;
      }
      var restored: bool := *;
      if !restored {
        failed := failed + 1;
        var persisted := PersistLocked(w);
        return false;
      }
      SettledParts();
      offloads := None;
      SettledFrom();
      ok := PersistLocked(w);
    }

    // ------------------------------------------------------------ the neutral boundary

    method SetMark(f: Flow, mark: bv32, ghost w: Watch) returns (ok: bool)
      requires Steady() && host.Watched(w)
      requires f in host.table ==> MarkStep(host.program, host.table[f].mark, mark)
      modifies host`table, host`trace
      ensures Steady() && host.Watched(w) && old(host.trace) <= host.trace
      ensures ok ==> f in host.table && host.table[f].mark == mark
    {
      hide *;
      SteadyFacts();
      ok := host.UpdateMark(f, mark, DnasOf(eng.byID), serving, w);
      SteadyFrom();
    }

    /** Neutralizes one entry that the dump at moment d showed unowned. */
    method NeutralizeFlow(f: Flow, ghost d: nat, mark: bv32, ghost done: set<Flow>, ghost cut: nat) returns (ok: bool)
      requires Steady() && host.Watched(Watch(cut, {NO_GEN})) && cut <= d < |host.trace|
      requires f in host.trace[d].table && host.trace[d].table[f].mark == mark && Marks.Reserved(mark) == 0
      requires forall g :: g in done ==> g in host.trace[d].table && NeutralIn(host.table, g)
      modifies faults, host`table, host`gone, host`trace
      ensures unchanged(faults`unattended)
      ensures Steady() && host.Watched(Watch(cut, {NO_GEN})) && old(host.trace) <= host.trace
      ensures Disturbs(old(faults.Now()), faults.Now())
      ensures ok ==> NeutralIn(host.table, f)
      ensures ok ==> forall g :: g in done ==> NeutralIn(host.table, g)
    {
      hide *;
      TableIsLast();
      ghost var h := host.trace;
      Disturbance(Watch(cut, {NO_GEN}));
      SweptMarkIsAStep(cut, d, f);
      ok := SetMark(f, Marks.NeutralMark(mark), Watch(cut, {NO_GEN}));
      if ok {
        NeutralStays(h, d, done);
        Marks.NeutralReserved(mark);
        IsNeutralIn(host.table, f);
      }
    }

    method Sweep(dump: Table, ghost d: nat, ghost cut: nat) returns (ok: bool)
      requires Steady() && host.Watched(Watch(cut, {NO_GEN})) && cut <= d < |host.trace|
      requires host.trace[d].table == dump
      modifies faults, host`table, host`gone, host`trace
      ensures unchanged(faults`unattended)
      ensures Steady() && host.Watched(Watch(cut, {NO_GEN})) && old(host.trace) <= host.trace
      ensures Disturbs(old(faults.Now()), faults.Now())
      ensures ok ==> Boundary(host.trace, host.cfg.port, cut, |host.trace| - 1)
    {
      hide *;
      ghost var f0, h := faults.Now(), host.trace;
      DisturbsIsReflexive(f0);
      var todo := set f | f in dump && AdapterFlow(f, host.cfg.port) && Marks.Reserved(dump[f].mark) == 0;
      ghost var unowned := todo;
      while todo != {}
        invariant Steady() && host.Watched(Watch(cut, {NO_GEN})) && h <= host.trace
        invariant Disturbs(f0, faults.Now()) && unchanged(faults`unattended)
        invariant todo <= unowned
        invariant forall f :: f in unowned - todo ==> NeutralIn(host.table, f)
        decreases |todo|
      {
        var f :| f in todo;
        ghost var f1 := faults.Now();
        ok := NeutralizeFlow(f, d, dump[f].mark, unowned - todo, cut);
        DisturbsIsTransitive(f0, f1, faults.Now());
        if !ok {
          return false;
        }
        todo := todo - {f};
      }
      assert unowned - todo == unowned;
      AllNeutral(cut, d, unowned);
      return true;
    }

    /** neutralizeNetlinkTransaction: dump once, then neutralize every entry to the port
        that the dump showed unowned. It may be cut short at any point. */
    method Neutralize(ghost cut: nat, ghost w: Watch) returns (ok: bool, ghost swept: nat)
      requires Steady() && host.Watched(w) && host.Watched(Watch(cut, {NO_GEN})) && NO_GEN in w.allowed
      modifies faults, host`table, host`gone, host`trace, this`failed
      ensures unchanged(faults`unattended)
      ensures Steady() && host.Watched(w) && old(host.trace) <= host.trace && old(failed) <= failed
      ensures Disturbs(old(faults.Now()), faults.Now())
      ensures ok ==> Boundary(host.trace, host.cfg.port, cut, swept)
      ensures !ok ==> old(failed) < failed
    {
      hide *;
      ghost var f, h := faults.Now(), host.trace;
      WatchedFacts(w);
      WatchedFacts(Watch(cut, {NO_GEN}));
      Disturbance(Watch(cut, {NO_GEN}));
      var dumped: bool := *;
      ok := false;
      if dumped {
        ghost var g := faults.Now();
        TableIsLast();
        ok := Sweep(host.table, |host.trace| - 1, cut);
        DisturbsIsTransitive(f, g, faults.Now());
      }
      swept := |host.trace| - 1;
      Spliced(h, w, Watch(cut, {NO_GEN}));
      if !ok {
        failed := failed + 1;
      }
    }

    static ghost predicate NeutralIn(t: Table, f: Flow) {
      f in t ==> Marks.Reserved(t[f].mark) == Marks.NAMESPACE
    }

    static lemma IsNeutralIn(t: Table, f: Flow)
      requires f in t && Marks.Reserved(t[f].mark) == Marks.NAMESPACE
      ensures NeutralIn(t, f)
    {
    }

    lemma TableIsLast()
      requires Steady()
      ensures |host.trace| > 0 && host.trace[|host.trace| - 1].table == host.table
    {
      hide SafeFor, ProgramIdsOk, SafeMoment, MomentsStep, IsImage, ViewOk;
    }

    lemma ProgramIsLast()
      requires Steady()
      ensures |host.trace| > 0 && host.trace[|host.trace| - 1].program == host.program
    {
      hide SafeFor, ProgramIdsOk, SafeMoment, MomentsStep, IsImage, ViewOk;
    }

    lemma NeutralStays(h: seq<Moment>, d: nat, done: set<Flow>)
      requires Steady() && h <= host.trace && d < |h|
      requires forall f :: f in done ==> f in host.trace[d].table && NeutralIn(h[|h| - 1].table, f)
      ensures forall f :: f in done ==> NeutralIn(host.table, f)
    {
      hide *;
      TableIsLast();
      SteadyFacts();
      assert h[|h| - 1] == host.trace[|h| - 1];
      forall f | f in done
        ensures NeutralIn(host.table, f)
      {
        OneNeutralStays(d, |h| - 1, |host.trace| - 1, f);
      }
    }

    lemma OneNeutralStays(d: nat, i: nat, j: nat, f: Flow)
      requires host.History() && d <= i <= j < |host.trace|
      requires f in host.trace[d].table && NeutralIn(host.trace[i].table, f)
      ensures NeutralIn(host.trace[j].table, f)
    {
      hide Host.History, Marks.Reserved;
      host.NeutralIsForGood(d, i, j, f);
    }

    /** Whatever became of an entry since the dump, neutralizing it is a legal step. */
    lemma SweptMarkIsAStep(cut: nat, d: nat, f: Flow)
      requires Steady() && host.Watched(Watch(cut, {NO_GEN})) && cut <= d < |host.trace|
      requires f in host.trace[d].table && Marks.Reserved(host.trace[d].table[f].mark) == 0
      ensures f in host.table ==> MarkStep(host.program, host.table[f].mark, Marks.NeutralMark(host.trace[d].table[f].mark))
    {
      hide *;
      TableIsLast();
      SteadyFacts();
      AssignsNothing(cut);
      if f in host.table {
        host.StaysUnowned(d, |host.trace| - 1, f);
        NeutralizingIsAStep(host.program, host.trace[d].table[f].mark, host.table[f].mark);
      }
    }

    static lemma NeutralizingIsAStep(p: Program, start: bv32, mark: bv32)
      requires Marks.Reserved(start) == 0 && (mark == start || mark == Marks.NeutralMark(start))
      ensures MarkStep(p, mark, Marks.NeutralMark(start))
    {
      hide Marks.NeutralMark, Marks.Reserved, SynMark;
    }

    lemma AssignsNothing(cut: nat)
      requires host.Watched(Watch(cut, {NO_GEN}))
      ensures cut < |host.trace| && forall k :: cut <= k < |host.trace| ==> host.trace[k].program.assignee == NO_GEN
    {
      forall k | cut <= k < |host.trace|
        ensures host.trace[k].program.assignee == NO_GEN
      {
        assert Watch(cut, {NO_GEN}).Allows(host.trace[k].program);
      }
    }

    lemma AllNeutral(cut: nat, d: nat, unowned: set<Flow>)
      requires Steady() && host.Watched(Watch(cut, {NO_GEN})) && cut <= d < |host.trace|
      requires forall f :: f in unowned ==> NeutralIn(host.table, f)
      requires unowned == set f | f in host.trace[d].table && AdapterFlow(f, host.cfg.port) && Marks.Reserved(host.trace[d].table[f].mark) == 0
      ensures Boundary(host.trace, host.cfg.port, cut, |host.trace| - 1)
    {
      hide *;
      TableIsLast();
      AssignsNothing(cut);
      IsCleared(host.trace, d, |host.trace| - 1, unowned);
      SteadyFacts();
      host.SweepMakesBoundary(cut, d, |host.trace| - 1);
    }

    lemma IsCleared(trace: seq<Moment>, d: nat, m: nat, unowned: set<Flow>)
      requires d < |trace| && m < |trace| && forall f :: f in unowned ==> NeutralIn(trace[m].table, f)
      requires unowned == set f | f in trace[d].table && AdapterFlow(f, host.cfg.port) && Marks.Reserved(trace[d].table[f].mark) == 0
      ensures Cleared(trace, host.cfg.port, d, m)
    {
      hide Marks.Reserved, AdapterFlow;
      forall f | f in trace[d].table && f in trace[m].table && AdapterFlow(f, host.cfg.port) && Marks.Reserved(trace[d].table[f].mark) == 0
        ensures Marks.Reserved(trace[m].table[f].mark) == Marks.NAMESPACE
      {
        assert f in unowned;
      }
    }

    // ------------------------------------------------------------ failing closed

    /** Takes the active generation out of service. */
    method Retire()
      requires Settled()
      modifies this`generations, this`activeNew
      ensures Settled() && activeNew == NO_GEN
      ensures old(activeNew) == NO_GEN ==> generations == old(generations)
      ensures old(activeNew) != NO_GEN ==> old(activeNew) in old(generations)
      ensures old(activeNew) != NO_GEN ==> generations == WithPhase(old(generations), old(activeNew), Draining)
    {
      hide *;
      SettledParts();
      IsActive();
      ghost var before := generations;
      if activeNew != NO_GEN && activeNew in generations {
        WithPhaseIsSame(generations, activeNew, Draining);
        generations := WithPhase(generations, activeNew, Draining);
        PhasesKeepAgreement(before, generations, host.program, eng.byID, host.disk, host.cfg);
      }
      activeNew := NO_GEN;
      NoneActive(generations);
      SettledFrom();
    }

    lemma IsActive()
      requires ActiveOk(generations, activeNew)
      ensures activeNew != NO_GEN ==> activeNew in generations && generations[activeNew].phase == Active
    {
    }

    static lemma NoneActive(gens: Gens)
      ensures ActiveOk(gens, NO_GEN)
    {
    }

    /** Stops assigning new connections, by removing every rule if need be. */
    method DisableAssignment(ghost w: Watch)
      requires Steady() && Settled() && host.Watched(w) && NO_GEN in w.allowed
      modifies faults, host`program, host`table, host`gone, host`trace, this`steeringInstalled, this`reports
      modifies this`failed
      ensures unchanged(faults`unattended)
      ensures Steady() && Settled() && host.Watched(w) && old(host.trace) <= host.trace && old(failed) <= failed
      ensures old(reports) <= reports
      ensures host.program.assignee == NO_GEN || old(reports) < reports
      ensures Disturbs(old(faults.Now()), faults.Now())
    {
      hide *;
      ghost var f := faults.Now();
      LiveIsWithin(generations, NO_GEN, false);
      var ok, cut := ProgramLocked(Live(generations), NO_GEN, false, false, w);
      if !ok {
        NothingIsWithin(generations);
        ghost var g := faults.Now();
        ok, cut := ProgramLocked(map[], NO_GEN, false, true, w);
        DisturbsIsTransitive(f, g, faults.Now());
      }
      if !ok {
        reports := reports + 1;
      }
    }

    /** reconcileIntegrityFailureLocked: nothing is active any more, and either the kernel
        assigns nothing or the failure to make it so has been reported as fatal. */
    method Reconcile(ghost w: Watch)
      requires Steady() && Settled() && host.Watched(w) && NO_GEN in w.allowed
      modifies host, faults, eng`active, this`failed, this`generations, this`activeNew, this`steeringInstalled
      modifies this`persistFatal, this`isUnsafe, this`remediation, this`remediationEpoch, this`reports
      ensures unchanged(faults`unattended)
      ensures Steady() && Settled() && host.Watched(w) && old(host.trace) <= host.trace && old(failed) <= failed
      ensures old(reports) <= reports
      ensures activeNew == NO_GEN && eng.active == NO_GEN && Stands() == Standing(persistFatal, true, false, 0)
      ensures host.program.assignee == NO_GEN || old(reports) < reports
      ensures old(activeNew) == NO_GEN ==> generations == old(generations)
      ensures old(activeNew) != NO_GEN ==> old(activeNew) in old(generations)
      ensures old(activeNew) != NO_GEN ==> generations == WithPhase(old(generations), old(activeNew), Draining)
      ensures Stirs(old(faults.Now()), faults.Now()) && (old(persistFatal) ==> persistFatal)
      ensures !persistFatal ==> DiskIsImage() && Disturbs(old(faults.Now()), faults.Now())
    {
      hide *;
      ghost var f := faults.Now();
      isUnsafe, remediation, remediationEpoch := true, false, 0;
      Retire();
      eng.Deactivate();
      DisableAssignment(w);
      ghost var s, g := Stands(), faults.Now();
      StandsIs();
      KeptIsKept(f, s, g);
      var persisted := PersistLocked(w);
      KeptOrFatalIsTransitive(f, s, g, s, faults.Now(), Stands());
      KeptUnlessFatal(f, s, faults.Now(), Stands());
      DisturbsWhenKept(f, s, faults.Now(), Stands());
      StandsIs();
      if !persisted {
        reports := reports + 1;
      }
    }

    lemma StandsIs()
      ensures Stands() == Standing(persistFatal, isUnsafe, remediation, remediationEpoch)
    {
    }

    /** integrityFailureLocked: a failed compensation, treated as one more signal. */
    method IntegrityFailureLocked(ghost w: Watch)
      requires Steady() && Settled() && host.Watched(w) && NO_GEN in w.allowed
      modifies host, faults, eng`active, this`failed, this`generations, this`activeNew, this`steeringInstalled
      modifies this`persistFatal, this`isUnsafe, this`remediation, this`remediationEpoch, this`reports
      ensures unchanged(faults`unattended)
      ensures Steady() && Settled() && host.Watched(w) && old(host.trace) <= host.trace && old(failed) <= failed
      ensures old(reports) <= reports
      ensures activeNew == NO_GEN && eng.active == NO_GEN && Stands() == Standing(persistFatal, true, false, 0)
      ensures host.program.assignee == NO_GEN || old(reports) < reports
      ensures Stirs(old(faults.Now()), faults.Now()) && faults.latched
      ensures (old(persistFatal) ==> persistFatal) && (!persistFatal ==> DiskIsImage())
    {
      hide *;
      ghost var f := faults.Now();
      RecordLatched();
      ghost var g := faults.Now();
      Reconcile(w);
      StirsIsTransitive(f, g, faults.Now());
      LatchStays(g, faults.Now());
      NowIs();
    }

    method RecordLatched()
      requires Steady()
      modifies faults`epoch, faults`latched, faults`guard
      ensures Steady() && Stirs(old(faults.Now()), faults.Now()) && faults.Now().latched
    {
      hide SafeFor, Host.History;
      faults.Record();
    }

    lemma NowIs()
      ensures faults.Now() == Faults(faults.epoch, faults.latched, faults.guard, faults.reconciling, faults.waiting, faults.unattended)
    {
    }

    /** The reconciliation goroutine's turn with the mutex. */
    method RunReconcile()
      requires Valid() && faults.waiting
      modifies host, faults, eng`active, this`failed, this`generations, this`activeNew, this`steeringInstalled
      modifies this`persistFatal, this`isUnsafe, this`remediation, this`remediationEpoch, this`reports
      ensures Valid() && old(host.trace) <= host.trace && old(failed) <= failed
      ensures old(reports) <= reports
      ensures Allocation.AssignedOnly(old(host.trace), host.trace, generations.Keys)
      ensures activeNew == NO_GEN && eng.active == NO_GEN && isUnsafe && faults.latched && !faults.waiting && !faults.unattended
      ensures host.program.assignee == NO_GEN || old(reports) < reports
      ensures !persistFatal ==> DiskIsImage()
    {
      hide *;
      ValidParts();
      SteadyFacts();
      ghost var f := faults.Now();
      WaitingIsLatched(activeNew, eng.active, Stands(), f);
      NowIs();
      WatchFrom({NO_GEN});
      Listed();
      ghost var h, listed := host.trace, generations.Keys;
      ghost var w := Watch(|host.trace| - 1, {NO_GEN}, {host.program});
      Reconcile(w);
      Listed();
      OnlyListed(h, w, generations.Keys);
      LatchStays(f, faults.Now());
      NowIs();
      StandsIs();
      ReleaseMutex();
      RestInactive(Stands(), faults.Now());
      ValidFrom();
      NowIs();
    }

    method ReleaseMutex()
      requires Steady() && faults.Now().latched
      modifies faults`waiting, faults`unattended
      ensures Steady() && faults.Now() == old(faults.Now()).(waiting := false, unattended := false)
      ensures faults.Now().Ok() && faults.Now().Sound()
    {
      hide SafeFor, Host.History;
      faults.waiting := false;
      faults.unattended := false;
    }

    // ------------------------------------------------------------ activation

    lemma EntryFacts(id: GenId)
      requires Settled() && id in generations
      ensures id in eng.byID && eng.byID[id].dna == generations[id].dna
      ensures eng.library.scopeOf(generations[id].dna).Some? && id != NO_GEN
    {
      SettledParts();
      ScopeIsOfDna(generations[id], host.cfg);
      hide GenOk, ScopeFor, WithinBudgets, OneIdPerIdentity;
    }

    /** reconstructAndVerifyLiveEnginesLocked. Reconstruction finds every live engine in
        place, with the DNA its entry has, so it neither fails nor publishes anything. */
    method VerifyLiveEngines() returns (ok: bool)
      requires Settled()
      modifies eng`byID, eng`log, eng`prepared
      ensures ok && Settled() && eng.byID == old(eng.byID) && eng.prepared == old(eng.prepared) && eng.log == old(eng.log)
    {
      hide *;
      SettledParts();
      ghost var byID, prepared, log := eng.byID, eng.prepared, eng.log;
      var todo := Live(generations).Keys;
      LiveAreEntries(generations);
      while todo != {}
        invariant todo <= generations.Keys
        invariant eng.byID == byID && eng.prepared == prepared && eng.log == log && Settled()
        decreases |todo|
      {
        var id :| id in todo;
        EntryFacts(id);
        SettledParts();
        ok := eng.Prepare(id, generations[id].dna);
        if !ok {
          return false;
        }
        todo := todo - {id};
      }
      todo := Live(generations).Keys;
      while todo != {}
        invariant todo <= generations.Keys
        invariant eng.byID == byID && eng.prepared == prepared && eng.log == log && Settled()
        decreases |todo|
      {
        var id :| id in todo;
        EntryFacts(id);
        Verifies(id);
        if !eng.VerifyGeneration(id, generations[id].dna) {
          return false;
        }
        todo := todo - {id};
      }
      return true;
    }

    lemma Verifies(id: GenId)
      requires id in generations && id in eng.byID && eng.byID[id].dna == generations[id].dna
      ensures eng.VerifyGeneration(id, generations[id].dna)
    {
    }

    /** What has to stay true of the table for the operation to be undone. */
    ghost predicate Remembers(saved: Saved, before: Gens)
      reads this`generations
    {
      SameButPhases(before, generations) && saved.phases == Phases(before) && ActiveOk(before, saved.active)
    }

    /** restoreState. */
    method RestoreState(saved: Saved, ghost before: Gens, ghost f: Faults)
      requires Steady() && Settled() && Remembers(saved, before)
      requires Undoable(saved, eng.active, f, faults.Now(), persistFatal)
      modifies faults`guard, faults`latched, this`generations, this`activeNew, this`previous, this`isUnsafe
      modifies this`remediation, this`remediationEpoch
      ensures Steady() && Settled() && generations == before
      ensures activeNew == saved.active && previous == saved.previous
      ensures Stands() == Restored(saved, persistFatal)
      ensures AtRest(activeNew, eng.active, Stands(), faults.Now())
      ensures faults.Now() == old(faults.Now()).(guard := faults.guard, latched := old(faults.latched) || persistFatal)
      ensures Stirs(old(faults.Now()), faults.Now())
    {
      hide *;
      ghost var g := faults.Now();
      UndoableFacts(saved, eng.active, f, g, persistFatal);
      PutBackTable(saved, before);
      previous := saved.previous;
      PutBackStanding(saved);
      PutBackAtomics(saved);
      NowIs();
      UndoneIsAtRest(saved, eng.active, f, g, persistFatal, faults.Now());
    }

    method PutBackStanding(saved: Saved)
      requires saved.standing.fatal ==> persistFatal
      modifies this`isUnsafe, this`remediation, this`remediationEpoch
      ensures Stands() == Restored(saved, persistFatal)
    {
      isUnsafe, remediation, remediationEpoch :=
        saved.standing.isUnsafe, saved.standing.remediation, saved.standing.remediationEpoch;
      if persistFatal {
        isUnsafe, remediation, remediationEpoch := true, false, 0;
      }
    }

    method PutBackTable(saved: Saved, ghost before: Gens)
      requires Settled() && Remembers(saved, before)
      modifies this`generations, this`activeNew
      ensures Settled() && generations == before && activeNew == saved.active
    {
      hide *;
      SettledParts();
      ghost var after := generations;
      RemembersParts(saved, before);
      RestoringPhasesRestores(before, generations);
      PhasesAreMutual(before, after);
      PhasesKeepAgreement(after, before, host.program, eng.byID, host.disk, host.cfg);
      generations := RestorePhases(generations, saved.phases);
      activeNew := saved.active;
      SettledFrom();
    }

    lemma RemembersParts(saved: Saved, before: Gens)
      requires Remembers(saved, before)
      ensures SameButPhases(before, generations) && saved.phases == Phases(before) && ActiveOk(before, saved.active)
    {
    }

    method PutBackAtomics(saved: Saved)
      requires Steady()
      modifies faults`guard, faults`latched
      ensures Steady() && Stirs(old(faults.Now()), faults.Now())
      ensures faults.Now() == old(faults.Now()).(guard := faults.guard, latched := old(faults.latched) || persistFatal)
      ensures old(faults.Now()).latched == old(faults.latched)
    {
      hide SafeFor, Host.History;
      if !saved.guard {
        faults.guard := false;
      }
      if persistFatal {
        faults.latched := true;
        faults.guard := false;
      }
    }

    /** The repair's proof: arm the guard (a recovery gate's own guard is kept), verify the
        retained engines, then load the epoch, the guard and the reconciling flag. */
    method ProveRepair(saved: Saved, repairEpoch: nat, ghost f: Faults, ghost w: Watch) returns (ok: bool)
      requires Steady() && Settled() && host.Watched(w)
      requires Undoable(saved, eng.active, f, faults.Now(), persistFatal) && saved.standing.fatal == persistFatal
      requires repairEpoch == f.epoch && f == faults.Now()
      modifies faults, host`table, host`gone, host`trace, eng`byID, eng`log, eng`prepared
      modifies this`isUnsafe, this`remediation, this`remediationEpoch
      ensures unchanged(faults`unattended)
      ensures Steady() && Settled() && host.Watched(w) && old(host.trace) <= host.trace
      ensures old(eng.log) <= eng.log && eng.byID == old(eng.byID)
      ensures Undoable(saved, eng.active, f, faults.Now(), persistFatal)
      ensures Stands() == Standing(persistFatal, false, false, 0)
      ensures ok ==> Proven(repairEpoch, f.Finishing(), faults.Now())
      ensures !ok && saved.active != NO_GEN ==> faults.Now().waiting
      ensures !ok && faults.Now().epoch == f.epoch ==> f.reconciling || (saved.standing.remediation && !f.guard)
      ensures f.epoch <= faults.Now().epoch
    {
      hide *;
      ghost var s := Standing(persistFatal, false, false, 0);
      ArmRepair(!saved.standing.remediation);
      UndoableArmed(saved, eng.active, f, f, persistFatal, faults.Now());
      ok := VerifyLiveEngines();
      assert ok;   // whatever the kernel and the signals do meanwhile
      ghost var g := faults.Now();
      UndoableFacts(saved, eng.active, f, g, persistFatal);
      ok := ThreeLoads(repairEpoch, w);
      if ok {
        ProvenSince(repairEpoch, f, g, faults.Now());
      }
      KeptIsKept(g, s, faults.Now());
      UndoableKept(saved, eng.active, f, g, s, faults.Now(), s);
      UndoableFacts(saved, eng.active, f, faults.Now(), persistFatal);
    }

    /** Takes the quarantine back for the time being, and arms the guard unless an open
        recovery gate has armed it already. */
    method ArmRepair(arm: bool)
      requires Steady()
      modifies faults`guard, this`isUnsafe, this`remediation, this`remediationEpoch
      ensures Steady() && Stands() == Standing(persistFatal, false, false, 0)
      ensures faults.Now() == old(faults.Now()).(guard := arm || old(faults.Now()).guard)
    {
      hide *;
      isUnsafe := false;
      remediation, remediationEpoch := false, 0;
      StandsIs();
      GuardIsGuard(faults.Now());
      if arm {
        Arm();
      }
    }

    static lemma GuardIsGuard(f: Faults)
      ensures f.(guard := f.guard) == f
    {
    }

    /** The epoch, the guard and the reconciling flag, each loaded a little later than the
        one before. */
    method ThreeLoads(epoch: nat, ghost w: Watch) returns (ok: bool)
      requires Steady() && host.Watched(w)
      modifies faults, host`table, host`gone, host`trace
      ensures unchanged(faults`unattended)
      ensures Steady() && host.Watched(w) && old(host.trace) <= host.trace
      ensures Disturbs(old(faults.Now()), faults.Now())
      ensures ok ==> Proven(epoch, old(faults.Now()).Finishing(), faults.Now())
      ensures !ok && AtHand(epoch, old(faults.Now())) ==> faults.Now().waiting
      ensures !ok && faults.Now().epoch == epoch == old(faults.Now()).epoch ==> !old(faults.Now()).guard || old(faults.Now()).reconciling
      ensures !ok && GateOpen(epoch, old(faults.Now())) ==> old(faults.epoch) < faults.epoch
    {
      hide *;
      ghost var g := faults.Now();
      NowIs();
      SteadyFacts();
      Disturbance(w);
      ghost var a := faults.Now();
      NowIs();
      var epochIntact := faults.epoch == epoch;
      Disturbance(w);
      ghost var b := faults.Now();
      NowIs();
      var guardIntact := faults.guard;
      Disturbance(w);
      ghost var c := faults.Now();
      NowIs();
      ok := epochIntact && guardIntact && !faults.reconciling;
      DisturbsIsTransitive(g, a, b);
      DisturbsIsTransitive(g, b, c);
      LoadsCause(epoch, g, a, b, c);
      DisturbsUnmoved(g, c);
      GateOpenIs(epoch, g);
      if ok {
        LoadsProve(epoch, g, a, b, c);
      } else if AtHand(epoch, g) {
        LoadsInterrupted(epoch, g, a, b, c);
      }
    }

    method Arm()
      requires Steady()
      modifies faults`guard
      ensures Steady() && faults.Now() == old(faults.Now()).(guard := true)
    {
      hide SafeFor, Host.History;
      faults.guard := true;
    }

    /** What a repair does when its proof was interrupted: nothing has changed, and the
        latch is up. */
    method AbandonRepair(saved: Saved, ghost before: Gens, ghost f: Faults)
      requires Steady() && Settled() && Remembers(saved, before)
      requires Undoable(saved, eng.active, f, faults.Now(), persistFatal)
      requires saved.active != NO_GEN ==> faults.Now().waiting
      modifies faults`guard, faults`latched, this`generations, this`activeNew, this`previous, this`isUnsafe
      modifies this`remediation, this`remediationEpoch
      ensures Steady() && Settled() && generations == before
      ensures activeNew == saved.active && previous == saved.previous
      ensures Stands() == Restored(saved, persistFatal).(remediation := false, remediationEpoch := 0)
      ensures AtRest(activeNew, eng.active, Stands(), faults.Now())
      ensures faults.latched && !faults.guard
    {
      hide *;
      RestoreState(saved, before, f);
      NowIs();
      AbandonedIsAtRest(activeNew, eng.active, Stands(), faults.Now());
      StandsIs();
      remediation, remediationEpoch := false, 0;
      StandsIs();
      Relatch();
      NowIs();
    }

    method Relatch()
      requires Steady()
      modifies faults`guard, faults`latched
      ensures Steady() && faults.Now() == old(faults.Now()).(guard := false, latched := true)
    {
      hide SafeFor, Host.History;
      faults.guard := false;
      faults.latched := true;
    }

    /** Everything is as it was before the operation, on disk too. */
    ghost predicate UndoneTo(saved: Saved, before: Gens)
      reads this`generations, this`activeNew, this`previous, this`isUnsafe, this`offloads
      reads this`persistFatal, this`remediation, this`remediationEpoch, host`disk
    {
      && generations == before && activeNew == saved.active && previous == saved.previous
      && Stands() == saved.standing && !persistFatal && DiskIsImage()
    }

    /** Nothing is active, the fault is latched and recorded durably, and the kernel assigns
        nothing unless more fatal callbacks have been scheduled than `before`. */
    ghost predicate ClosedNow(before: nat)
      reads this`generations, this`activeNew, this`previous, this`isUnsafe, this`remediation, this`offloads
      reads this`persistFatal, this`reports, host`disk, host`program, eng`active, faults`latched
    {
      && activeNew == NO_GEN && eng.active == NO_GEN && isUnsafe && !remediation && faults.latched
      && !persistFatal && DiskIsImage()
      && (host.program.assignee == NO_GEN || before < reports)
    }

    lemma ClosedSince(before: nat, later: nat)
      requires before <= later
      ensures ClosedNow(later) ==> ClosedNow(before)
    {
      hide DiskIsImage;
    }

    lemma IsClosedNow(before: nat)
      requires activeNew == NO_GEN && eng.active == NO_GEN && Stands() == Standing(persistFatal, true, false, 0)
      requires faults.latched && !persistFatal && DiskIsImage() && (host.program.assignee == NO_GEN || before < reports)
      ensures ClosedNow(before)
    {
      hide DiskIsImage;
    }

    lemma IsUndoneTo(saved: Saved, before: Gens)
      requires generations == before && activeNew == saved.active && previous == saved.previous
      requires Stands() == saved.standing && !persistFatal && DiskIsImage()
      ensures UndoneTo(saved, before)
    {
      hide DiskIsImage;
    }

    lemma StaysAtRest(f: Faults, s: Standing)
      requires AtRest(activeNew, eng.active, s, f) && KeptOrFatal(f, s, faults.Now(), Stands())
      ensures AtRest(activeNew, eng.active, Stands(), faults.Now())
    {
      hide AtRest, KeptOrFatal;
      RestKept(activeNew, eng.active, s, f, Stands(), faults.Now());
    }

    /** A compensation failed: one more integrity failure. */
    method CloseAfterFailure(ghost w: Watch) returns (outcome: Outcome)
      requires Steady() && Settled() && host.Watched(w) && NO_GEN in w.allowed
      modifies host, faults, eng`active, this`failed, this`generations, this`activeNew, this`steeringInstalled
      modifies this`persistFatal, this`isUnsafe, this`remediation, this`remediationEpoch, this`reports
      ensures unchanged(faults`unattended)
      ensures Steady() && Settled() && host.Watched(w) && old(host.trace) <= host.trace && old(failed) <= failed
      ensures old(reports) <= reports
      ensures AtRest(activeNew, eng.active, Stands(), faults.Now())
      ensures outcome == if persistFatal then DurabilityFatal else FailClosed
      ensures outcome == FailClosed ==> ClosedNow(old(reports))
      ensures activeNew == NO_GEN && eng.active == NO_GEN && isUnsafe && !remediation && faults.latched
      ensures old(persistFatal) ==> persistFatal
    {
      hide *;
      IntegrityFailureLocked(w);
      SteadyFacts();
      NowIs();
      StandsIs();
      LatchedIsSound(faults.Now());
      RestInactive(Stands(), faults.Now());
      if persistFatal {
        return DurabilityFatal;
      }
      IsClosedNow(old(reports));
      return FailClosed;
    }

    /** What every failed step after the first transaction does: put everything back, in
        memory, in the kernel and on disk, and fail closed if that fails too. */
    method Compensate(saved: Saved, undoOffloads: bool, ghost before: Gens, ghost f: Faults, ghost w: Watch)
      returns (outcome: Outcome)
      requires Steady() && Settled() && host.Watched(w) && NO_GEN in w.allowed && saved.active in w.allowed
      requires Remembers(saved, before) && Undoable(saved, eng.active, f, faults.Now(), persistFatal)
      modifies this, host, faults, eng`active
      ensures unchanged(faults`unattended, this`reserved, this`serving)
      ensures Steady() && Settled() && host.Watched(w) && old(host.trace) <= host.trace && old(failed) <= failed
      ensures old(reports) <= reports
      ensures AtRest(activeNew, eng.active, Stands(), faults.Now())
      ensures outcome == RolledBack || outcome == FailClosed || outcome == DurabilityFatal
      ensures outcome == RolledBack ==> UndoneTo(saved, before) && eng.active == old(eng.active)
      ensures outcome == RolledBack ==> host.program == Program(Live(before), saved.active, false)
      ensures outcome == FailClosed ==> ClosedNow(old(reports))
      ensures outcome == DurabilityFatal <==> persistFatal
    {
      hide *;
      RestoreState(saved, before, f);
      SettledParts();
      ActiveIsLive(generations, activeNew);
      LiveIsWithin(generations, saved.active, false);
      ghost var g, s := faults.Now(), Stands();
      var programmed, cut := ProgramLocked(Live(generations), saved.active, false, false, w);
      KeptIsKept(g, s, faults.Now());
      StaysAtRest(g, s);
      RestoredMeans(saved, persistFatal);
      outcome := PersistUndone(saved, programmed, undoOffloads, before, w);
    }

    /** The rest of a compensation, once the kernel has been told. */
    method PersistUndone(saved: Saved, programmed: bool, undoOffloads: bool, ghost before: Gens, ghost w: Watch)
      returns (outcome: Outcome)
      requires Steady() && Settled() && host.Watched(w) && NO_GEN in w.allowed
      requires AtRest(activeNew, eng.active, Stands(), faults.Now())
      requires generations == before && activeNew == saved.active && previous == saved.previous
      requires persistFatal || Stands() == saved.standing
      modifies host, faults, eng`active, this`failed, this`generations, this`activeNew, this`steeringInstalled
      modifies this`offloads, this`persistFatal, this`isUnsafe, this`remediation, this`remediationEpoch
      modifies this`reports
      ensures unchanged(faults`unattended)
      ensures Steady() && Settled() && host.Watched(w) && old(host.trace) <= host.trace && old(failed) <= failed
      ensures old(reports) <= reports
      ensures AtRest(activeNew, eng.active, Stands(), faults.Now())
      ensures outcome == RolledBack || outcome == FailClosed || outcome == DurabilityFatal
      ensures outcome == RolledBack ==> UndoneTo(saved, before) && eng.active == old(eng.active)
      ensures outcome == RolledBack ==> programmed && host.program == old(host.program)
      ensures outcome == FailClosed ==> ClosedNow(old(reports))
      ensures outcome == DurabilityFatal <==> persistFatal
    {
      hide *;
      StandsIs();
      ghost var g, s := faults.Now(), Stands();
      var persisted := PersistLocked(w);
      StaysAtRest(g, s);
      var offloaded := true;
      if undoOffloads {
        g, s := faults.Now(), Stands();
        offloaded := RestoreOffloads(w);
        StaysAtRest(g, s);
      }
      StandsIs();
      if !programmed || !persisted || !offloaded {
        ghost var r := reports;
        outcome := CloseAfterFailure(w);
        ClosedSince(old(reports), r);
      } else if persistFatal {
        outcome := DurabilityFatal;
      } else {
        IsUndoneTo(saved, before);
        outcome := RolledBack;
      }
    }

    // ---- the two transactions

    /** What an activation knows once its intent is durable. */
    ghost predicate Ready(saved: Saved, id: GenId, before: Gens)
      reads this`generations, this`activeNew
    {
      && Remembers(saved, before)
      && activeNew == id && id in generations && generations[id].Live() && !generations[id].scope.Idle()
      && (saved.active != NO_GEN ==> saved.active in generations && generations[saved.active].Live())
    }

    lemma ReadyFacts(saved: Saved, id: GenId, before: Gens)
      requires Ready(saved, id, before)
      ensures Remembers(saved, before) && activeNew == id && id in generations
      ensures generations[id].Live() && !generations[id].scope.Idle()
      ensures saved.active != NO_GEN ==> saved.active in generations && generations[saved.active].Live()
    {
      hide Remembers, Gen.Live, Scope.Idle;
    }

    lemma IsBoundarySince(h: seq<Moment>, b: Option<(nat, nat)>)
      requires b.Some? ==> |h| <= b.value.0 + 1 && Boundary(host.trace, host.cfg.port, b.value.0, b.value.1)
      ensures BoundarySince(h, host.trace, host.cfg.port, b)
    {
      hide Boundary;
    }

    lemma Widens(w: Watch, extra: set<GenId>)
      requires host.Watched(w)
      ensures host.Watched(Watch(w.since, w.allowed + extra, w.kept))
    {
    }

    /** Transaction one adds the candidate's rules while the assignment stays as it was; on
        a first activation it is the neutral boundary, followed by the sweep. */
    method Transaction1(saved: Saved, id: GenId, ghost before: Gens, ghost f: Faults, ghost w: Watch)
      returns (outcome: Outcome, ghost boundary: Option<(nat, nat)>)
      requires Steady() && Settled() && host.Watched(w) && NO_GEN in w.allowed && saved.active in w.allowed
      requires Ready(saved, id, before) && Undoable(saved, eng.active, f, faults.Now(), persistFatal)
      modifies this, host, faults, eng`active
      ensures unchanged(faults`unattended, this`reserved, this`serving)
      ensures Steady() && Settled() && host.Watched(w) && old(host.trace) <= host.trace && old(failed) <= failed
      ensures old(reports) <= reports
      ensures outcome == Done ==> unchanged(this`generations, this`activeNew, this`previous, this`offloads, eng`active, host`disk)
      ensures outcome == Done ==> unchanged(this`persistFatal, this`isUnsafe, this`remediation, this`remediationEpoch)
      ensures outcome == Done ==> Disturbs(old(faults.Now()), faults.Now())
      ensures outcome == Done && saved.active == NO_GEN && host.cfg.hasCounter ==> boundary.Some?
      ensures BoundarySince(old(host.trace), host.trace, host.cfg.port, boundary)
      ensures outcome != Done ==> AtRest(activeNew, eng.active, Stands(), faults.Now())
      ensures outcome == Done || outcome == RolledBack || outcome == FailClosed || outcome == DurabilityFatal
      ensures outcome == RolledBack ==> UndoneTo(saved, before) && eng.active == old(eng.active)
      ensures outcome == RolledBack ==> host.program == Program(Live(before), saved.active, false)
      ensures outcome == FailClosed ==> ClosedNow(old(reports))
      ensures outcome != Done ==> (outcome == DurabilityFatal <==> persistFatal) && old(failed) < failed
    {
      hide *;
      ghost var g, s, h0 := faults.Now(), Stands(), host.trace;
      boundary := None;
      ReadyFacts(saved, id, before);
      LiveIsWithin(generations, saved.active, saved.active == NO_GEN);
      var ok, cut := ProgramLocked(Live(generations), saved.active, saved.active == NO_GEN, true, w);
      KeptIsKept(g, s, faults.Now());
      StandsIs();
      UndoableKept(saved, eng.active, f, g, s, faults.Now(), s);
      NoBoundary(h0, host.trace, host.cfg.port);
      if !ok {
        outcome := Compensate(saved, !saved.hadSteering, before, f, w);
        NoBoundary(h0, host.trace, host.cfg.port);
      } else if saved.active == NO_GEN && host.cfg.hasCounter {
        ghost var g1, h := faults.Now(), host.trace;
        outcome, boundary := CompleteBoundary(saved, cut, before, f, w);
        DisturbsWhen(outcome == Done, g, g1, faults.Now());
        IsBoundarySince(h0, boundary);
      } else {
        outcome := Done;
      }
    }

    /** The sweep behind the neutral program. */
    method CompleteBoundary(saved: Saved, ghost cut: nat, ghost before: Gens, ghost f: Faults, ghost w: Watch)
      returns (outcome: Outcome, ghost boundary: Option<(nat, nat)>)
      requires Steady() && Settled() && host.Watched(w) && NO_GEN in w.allowed && saved.active in w.allowed
      requires host.Watched(Watch(cut, {NO_GEN}))
      requires Remembers(saved, before) && Undoable(saved, eng.active, f, faults.Now(), persistFatal)
      modifies this, host, faults, eng`active
      ensures unchanged(faults`unattended, this`reserved, this`serving)
      ensures Steady() && Settled() && host.Watched(w) && old(host.trace) <= host.trace && old(failed) <= failed
      ensures old(reports) <= reports
      ensures outcome == Done ==> unchanged(this`generations, this`activeNew, this`previous, this`offloads, eng`active, host`disk)
      ensures outcome == Done ==> unchanged(this`persistFatal, this`isUnsafe, this`remediation, this`remediationEpoch)
      ensures outcome == Done ==> Disturbs(old(faults.Now()), faults.Now())
      ensures outcome == Done ==> boundary.Some? && Boundary(host.trace, host.cfg.port, cut, boundary.value.1)
      ensures boundary.Some? ==> boundary.value.0 == cut && outcome == Done
      ensures outcome != Done ==> AtRest(activeNew, eng.active, Stands(), faults.Now())
      ensures outcome == Done || outcome == RolledBack || outcome == FailClosed || outcome == DurabilityFatal
      ensures outcome == RolledBack ==> UndoneTo(saved, before) && eng.active == old(eng.active)
      ensures outcome == RolledBack ==> host.program == Program(Live(before), saved.active, false)
      ensures outcome == FailClosed ==> ClosedNow(old(reports))
      ensures outcome != Done ==> (outcome == DurabilityFatal <==> persistFatal) && old(failed) < failed
    {
      hide *;
      boundary := None;
      ghost var g, s := faults.Now(), Stands();
      StandsIs();
      ghost var swept;
      var ok;
      ok, swept := Neutralize(cut, w);
      KeptIsKept(g, s, faults.Now());
      UndoableKept(saved, eng.active, f, g, s, faults.Now(), s);
      if !ok {
        outcome := Compensate(saved, false, before, f, w);
        return;
      }
      boundary := Some((cut, swept));
      outcome := Done;
    }

    /** Transaction two changes only which mark new SYNs receive. */
    method Transaction2(saved: Saved, id: GenId, ghost before: Gens, ghost f: Faults, ghost w: Watch)
      returns (outcome: Outcome)
      requires Steady() && Settled() && host.Watched(w) && NO_GEN in w.allowed && saved.active in w.allowed && id in w.allowed
      requires Ready(saved, id, before) && Undoable(saved, eng.active, f, faults.Now(), persistFatal)
      modifies this, host, faults, eng`active
      ensures unchanged(faults`unattended, this`reserved, this`serving)
      ensures Steady() && Settled() && host.Watched(w) && old(host.trace) <= host.trace && old(failed) <= failed
      ensures old(reports) <= reports
      ensures outcome == Done ==> unchanged(this`generations, this`activeNew, this`previous, this`offloads, eng`active, host`disk)
      ensures outcome == Done ==> unchanged(this`persistFatal, this`isUnsafe, this`remediation, this`remediationEpoch)
      ensures outcome == Done ==> Disturbs(old(faults.Now()), faults.Now())
      ensures outcome == Done ==> host.program == Program(Live(generations), id, false) && steeringInstalled
      ensures outcome != Done ==> AtRest(activeNew, eng.active, Stands(), faults.Now())
      ensures outcome == Done || outcome == RolledBack || outcome == FailClosed || outcome == DurabilityFatal
      ensures outcome == RolledBack ==> UndoneTo(saved, before) && eng.active == old(eng.active)
      ensures outcome == RolledBack ==> host.program == Program(Live(before), saved.active, false)
      ensures outcome == FailClosed ==> ClosedNow(old(reports))
      ensures outcome != Done ==> (outcome == DurabilityFatal <==> persistFatal) && old(failed) < failed
    {
      hide *;
      ghost var g, s := faults.Now(), Stands();
      ReadyFacts(saved, id, before);
      LiveIsWithin(generations, id, false);
      LiveSteers(generations, id, id);
      var ok, cut := ProgramLocked(Live(generations), id, false, false, w);
      KeptIsKept(g, s, faults.Now());
      StandsIs();
      UndoableKept(saved, eng.active, f, g, s, faults.Now(), s);
      if ok {
        return Done;
      }
      outcome := Compensate(saved, !saved.hadSteering, before, f, w);
    }

    /** Durable intent, then the NIC. */
    method MakeDurable(saved: Saved, ghost before: Gens, ghost f: Faults, ghost w: Watch) returns (outcome: Outcome)
      requires Steady() && Settled() && host.Watched(w) && NO_GEN in w.allowed
      requires Remembers(saved, before) && Undoable(saved, eng.active, f, faults.Now(), persistFatal)
      modifies this, host, faults, eng`active
      ensures unchanged(faults`unattended, this`reserved, this`serving)
      ensures Steady() && Settled() && host.Watched(w) && old(host.trace) <= host.trace && old(failed) <= failed
      ensures old(reports) <= reports
      ensures outcome == Done ==> unchanged(this`generations, this`activeNew, this`previous, eng`active, host`program)
      ensures outcome == Done ==> Stands() == old(Stands()) && DiskIsImage()
      ensures outcome == Done ==> Disturbs(old(faults.Now()), faults.Now())
      ensures outcome != Done ==> AtRest(activeNew, eng.active, Stands(), faults.Now())
      ensures outcome == Done || outcome == RolledBack || outcome == FailClosed || outcome == DurabilityFatal
      ensures outcome == RolledBack ==> UndoneTo(saved, before) && eng.active == old(eng.active)
      ensures outcome == RolledBack ==> host.program == old(host.program)
      ensures outcome == FailClosed ==> ClosedNow(old(reports))
      ensures outcome != Done ==> (outcome == DurabilityFatal <==> persistFatal) && old(failed) < failed
    {
      hide *;
      StandsIs();
      ghost var gens, active, prev := generations, activeNew, previous;
      ghost var g, s := faults.Now(), Stands();
      var ok := PersistLocked(w);
      UndoableKept(saved, eng.active, f, g, s, faults.Now(), Stands());
      StandsIs();
      if !ok {
        RestoreState(saved, before, f);
        return DurabilityFatal;
      }
      ghost var g1, r := faults.Now(), reports;
      outcome := ClaimNic(saved, before, f, w);
      DisturbsWhen(outcome == Done, g, g1, faults.Now());
      ClosedSince(old(reports), r);
    }

    static lemma DisturbsWhen(c: bool, f: Faults, g: Faults, h: Faults)
      requires Disturbs(f, g) && (c ==> Disturbs(g, h))
      ensures c ==> Disturbs(f, h)
    {
      if c {
        DisturbsIsTransitive(f, g, h);
      }
    }

    /** The NIC's features go down before anything is steered; if that fails, everything is
        put back, on disk too. */
    method ClaimNic(saved: Saved, ghost before: Gens, ghost f: Faults, ghost w: Watch) returns (outcome: Outcome)
      requires Steady() && Settled() && host.Watched(w) && NO_GEN in w.allowed && DiskIsImage()
      requires Remembers(saved, before) && Undoable(saved, eng.active, f, faults.Now(), persistFatal)
      modifies this, host, faults, eng`active
      ensures unchanged(faults`unattended, this`reserved, this`serving)
      ensures Steady() && Settled() && host.Watched(w) && old(host.trace) <= host.trace && old(failed) <= failed
      ensures old(reports) <= reports
      ensures outcome == Done ==> unchanged(this`generations, this`activeNew, this`previous, eng`active, host`program)
      ensures outcome == Done ==> Stands() == old(Stands()) && DiskIsImage()
      ensures outcome == Done ==> Disturbs(old(faults.Now()), faults.Now())
      ensures outcome != Done ==> AtRest(activeNew, eng.active, Stands(), faults.Now())
      ensures outcome == Done || outcome == RolledBack || outcome == FailClosed || outcome == DurabilityFatal
      ensures outcome == RolledBack ==> UndoneTo(saved, before) && eng.active == old(eng.active)
      ensures outcome == RolledBack ==> host.program == old(host.program)
      ensures outcome == FailClosed ==> ClosedNow(old(reports))
      ensures outcome != Done ==> (outcome == DurabilityFatal <==> persistFatal) && old(failed) < failed
    {
      hide *;
      ghost var g, s := faults.Now(), Stands();
      StandsIs();
      var ok := EnsureOffloadsDown(w);
      UndoableKept(saved, eng.active, f, g, s, faults.Now(), Stands());
      StandsIs();
      if ok {
        return Done;
      }
      RestoreState(saved, before, f);
      RestoredMeans(saved, persistFatal);
      ghost var r := reports;
      outcome := PersistUndone(saved, true, false, before, w);
      ClosedSince(old(reports), r);
    }

    /** The last steps of a repair. `early` says that a finished reconciliation still had its
        flag up when the repair took its sample; only then can an interruption be left to
        nobody. */
    method FinishRepair(repairEpoch: nat, ghost early: bool, ghost f: Faults, ghost w: Watch) returns (outcome: Outcome)
      requires Steady() && host.Watched(w) && f.Ok() && Proven(repairEpoch, early, f) && Disturbs(f, faults.Now())
      modifies faults, host`table, host`gone, host`trace
      ensures Steady() && host.Watched(w) && old(host.trace) <= host.trace
      ensures outcome == Done || outcome == SignalInterrupted
      ensures outcome == Done ==> !faults.latched && Attended(faults.Now())
      ensures outcome == SignalInterrupted ==> faults.latched && (faults.waiting || early) && Attended(faults.Now())
      ensures outcome == SignalInterrupted ==> faults.epoch > repairEpoch
      ensures faults.unattended <==> outcome == SignalInterrupted && !faults.waiting
    {
      hide *;
      ghost var a := faults.Now();
      LowerLatch();
      Disturbance(w);
      ghost var b := faults.Now();
      NowIs();
      var guardIntact := faults.guard;
      Disarm();
      Disturbance(w);
      ghost var c := faults.Now();
      RepairEnds(repairEpoch, early, f, a, b, c);
      NowIs();
      if !guardIntact || faults.epoch != repairEpoch {
        RaiseLatch();
        NowIs();
        LeaveTo(!faults.waiting);
        NowIs();
        IsAttended(faults.Now());
        return SignalInterrupted;
      }
      QuietAfterRepair(c);
      LeaveTo(false);
      NowIs();
      return Done;
    }

    /** Notes whether an interrupted repair has left its fault to nobody. */
    ghost method LeaveTo(nobody: bool)
      requires Steady()
      modifies faults`unattended
      ensures Steady() && faults.Now() == old(faults.Now()).(unattended := nobody)
      ensures faults.Now().Ok() == old(faults.Now()).Ok() && faults.Now().Sound() == old(faults.Now()).Sound()
      ensures faults.Now().Finishing() == old(faults.Now()).Finishing()
    {
      hide SafeFor, Host.History;
      faults.unattended := nobody;
    }

    method LowerLatch()
      requires Steady()
      modifies faults`latched
      ensures Steady() && faults.Now() == old(faults.Now()).(latched := false)
    {
      hide SafeFor, Host.History;
      faults.latched := false;
    }

    method RaiseLatch()
      requires Steady()
      modifies faults`latched
      ensures Steady() && faults.Now() == old(faults.Now()).(latched := true)
    {
      hide SafeFor, Host.History;
      faults.latched := true;
    }

    /** CompareAndSwap(true, false), whose result the caller has already loaded. */
    method Disarm()
      requires Steady()
      modifies faults`guard
      ensures Steady() && faults.Now() == old(faults.Now()).(guard := false)
    {
      hide SafeFor, Host.History;
      faults.guard := false;
    }

    /** Both transactions, with the boundary between them on a first activation. */
    method MoveAssignment(saved: Saved, id: GenId, ghost before: Gens, ghost f: Faults, ghost w: Watch)
      returns (outcome: Outcome, ghost boundary: Option<(nat, nat)>)
      requires Steady() && Settled() && host.Watched(w) && NO_GEN in w.allowed && saved.active in w.allowed
      requires Ready(saved, id, before) && Undoable(saved, eng.active, f, faults.Now(), persistFatal)
      modifies this, host, faults, eng`active
      ensures unchanged(faults`unattended, this`reserved, this`serving)
      ensures Steady() && Settled() && old(host.trace) <= host.trace && old(failed) <= failed
      ensures old(reports) <= reports
      ensures host.Watched(Watch(w.since, w.allowed + {id}, w.kept))
      ensures saved.active == NO_GEN && host.cfg.hasCounter && boundary.None? ==> host.Watched(w) && outcome != Done
      ensures BoundarySince(old(host.trace), host.trace, host.cfg.port, boundary)
      ensures outcome == Done ==> unchanged(this`generations, this`activeNew, this`previous, this`offloads, eng`active, host`disk)
      ensures outcome == Done ==> unchanged(this`persistFatal, this`isUnsafe, this`remediation, this`remediationEpoch)
      ensures outcome == Done ==> Disturbs(old(faults.Now()), faults.Now())
      ensures outcome == Done ==> host.program == Program(Live(generations), id, false) && steeringInstalled
      ensures outcome != Done ==> AtRest(activeNew, eng.active, Stands(), faults.Now())
      ensures outcome == Done || outcome == RolledBack || outcome == FailClosed || outcome == DurabilityFatal
      ensures outcome == RolledBack ==> UndoneTo(saved, before) && eng.active == old(eng.active)
      ensures outcome == RolledBack ==> host.program == Program(Live(before), saved.active, false)
      ensures outcome == FailClosed ==> ClosedNow(old(reports))
      ensures outcome != Done ==> (outcome == DurabilityFatal <==> persistFatal) && old(failed) < failed
    {
      hide *;
      ghost var g, s := faults.Now(), Stands();
      StandsIs();
      outcome, boundary := Transaction1(saved, id, before, f, w);
      Widens(w, {id});
      if outcome != Done {
        return;
      }
      ghost var g1, h := faults.Now(), host.trace;
      StandsIs();
      KeptIsKept(g, s, g1);
      UndoableKept(saved, eng.active, f, g, s, g1, s);
      ghost var r := reports;
      outcome := Transaction2(saved, id, before, f, Watch(w.since, w.allowed + {id}, w.kept));
      ClosedSince(old(reports), r);
      BoundarySinceStays(old(host.trace), old(host.trace), h, host.trace, host.cfg.port, boundary);
      if outcome == Done {
        DisturbsIsTransitive(g, g1, faults.Now());
      }
    }

    /** Stages the candidate in memory. */
    method Stage(id: GenId)
      requires Settled() && id in generations && !generations[id].scope.Idle()
      modifies this`generations, this`activeNew, this`previous
      ensures Settled() && activeNew == id
      ensures old(activeNew) != NO_GEN ==> old(activeNew) in old(generations)
      ensures generations == Staged(old(generations), old(activeNew), id)
      ensures previous == if old(activeNew) != NO_GEN && old(activeNew) != id then old(activeNew) else old(previous)
      ensures forall saved: Saved :: saved.active == old(activeNew) && saved.phases == Phases(old(generations)) ==>
                Ready(saved, id, old(generations))
    {
      hide *;
      SettledParts();
      EntryFacts(id);
      ghost var before, was := generations, activeNew;
      StagedFacts(before, was, id);
      generations := Staged(generations, activeNew, id);
      PhasesKeepAgreement(before, generations, host.program, eng.byID, host.disk, host.cfg);
      if activeNew != NO_GEN && activeNew != id {
        previous := activeNew;
      }
      activeNew := id;
      SettledFrom();
      forall saved: Saved | saved.active == was && saved.phases == Phases(before)
        ensures Ready(saved, id, before)
      {
        IsReady(saved, id, before);
      }
    }

    lemma IsReady(saved: Saved, id: GenId, before: Gens)
      requires SameButPhases(before, generations) && saved.phases == Phases(before) && ActiveOk(before, saved.active)
      requires activeNew == id && id in generations && generations[id].Live() && !generations[id].scope.Idle()
      requires saved.active != NO_GEN ==> saved.active in generations && generations[saved.active].Live()
      ensures Ready(saved, id, before)
    {
      hide SameButPhases, Phases, ActiveOk, Gen.Live, Scope.Idle;
    }

    /** What an activation has to show for itself, whichever way it ends. */
    ghost predicate Activated(id: GenId)
      reads this`generations, this`activeNew, this`previous, this`isUnsafe, this`remediation, this`offloads, this`steeringInstalled
      reads host`disk, host`program, eng`active
    {
      && activeNew == id && eng.active == id && !isUnsafe && !remediation && DiskIsImage()
      && host.program == Program(Live(generations), id, false) && steeringInstalled
    }

    lemma IsActivated(id: GenId)
      requires activeNew == id && eng.active == id && !isUnsafe && !remediation && DiskIsImage()
      requires host.program == Program(Live(generations), id, false) && steeringInstalled
      ensures Activated(id)
    {
      hide DiskIsImage;
    }

    /** Durable intent and both transactions. */
    method CarryOut(saved: Saved, id: GenId, ghost before: Gens, ghost f: Faults, ghost w: Watch)
      returns (outcome: Outcome, ghost boundary: Option<(nat, nat)>)
      requires Steady() && Settled() && host.Watched(w) && NO_GEN in w.allowed && saved.active in w.allowed
      requires Ready(saved, id, before) && Undoable(saved, eng.active, f, faults.Now(), persistFatal)
      modifies this, host, faults, eng`active
      ensures unchanged(faults`unattended, this`reserved, this`serving)
      ensures Steady() && Settled() && old(host.trace) <= host.trace && old(failed) <= failed
      ensures old(reports) <= reports
      ensures host.Watched(Watch(w.since, w.allowed + {id}, w.kept))
      ensures saved.active == NO_GEN && host.cfg.hasCounter && boundary.None? ==> host.Watched(w) && outcome != Done
      ensures BoundarySince(old(host.trace), host.trace, host.cfg.port, boundary)
      ensures outcome == Done ==> unchanged(this`generations, this`activeNew, this`previous, eng`active)
      ensures outcome == Done ==> Stands() == old(Stands()) && DiskIsImage()
      ensures outcome == Done ==> Disturbs(old(faults.Now()), faults.Now())
      ensures outcome == Done ==> host.program == Program(Live(generations), id, false) && steeringInstalled
      ensures outcome != Done ==> AtRest(activeNew, eng.active, Stands(), faults.Now())
      ensures outcome == Done || outcome == RolledBack || outcome == FailClosed || outcome == DurabilityFatal
      ensures outcome == RolledBack ==> UndoneTo(saved, before) && eng.active == old(eng.active)
      ensures outcome == RolledBack ==> host.program == old(host.program) || host.program == Program(Live(before), saved.active, false)
      ensures outcome == FailClosed ==> ClosedNow(old(reports))
      ensures outcome == DurabilityFatal ==> persistFatal
      // and there is a cause for each
      ensures outcome == RolledBack || outcome == FailClosed || outcome == DurabilityFatal ==> old(failed) < failed
    {
      hide *;
      ReadyFacts(saved, id, before);
      RemembersParts(saved, before);
      boundary := None;
      StandsIs();
      ghost var g, s := faults.Now(), Stands();
      outcome := MakeDurable(saved, before, f, w);
      Widens(w, {id});
      NoBoundary(old(host.trace), host.trace, host.cfg.port);
      if outcome != Done {
        return;
      }
      StandsIs();
      ghost var g1, s1 := faults.Now(), Stands();
      KeptIsKept(g, s, g1);
      UndoableKept(saved, eng.active, f, g, s, g1, s1);
      IsReady(saved, id, before);
      ghost var r, h := reports, host.trace;
      outcome, boundary := MoveAssignment(saved, id, before, f, w);
      ClosedSince(old(reports), r);
      BoundarySinceStays(old(host.trace), h, host.trace, host.trace, host.cfg.port, boundary);
      if outcome == Done {
        StandsIs();
        DisturbsIsTransitive(g, g1, faults.Now());
      }
    }

    /** The engine follows the kernel, and a repair settles the latch. */
    method Conclude(id: GenId, repair: bool, repairEpoch: nat, ghost early: bool, ghost f: Faults, ghost w: Watch) returns (outcome: Outcome)
      requires Steady() && Settled() && host.Watched(Watch(w.since, w.allowed + {id}, w.kept))
      requires activeNew == id && id in generations && !isUnsafe && !remediation && DiskIsImage()
      requires host.program == Program(Live(generations), id, false) && steeringInstalled
      requires f.Ok() && Disturbs(f, faults.Now()) && if repair then Proven(repairEpoch, early, f) else Attended(f)
      modifies faults, host`table, host`gone, host`trace, eng`active, eng`swaps
      ensures Steady() && Settled() && old(host.trace) <= host.trace
      ensures AtRest(activeNew, eng.active, Stands(), faults.Now()) && Activated(id)
      ensures outcome == Done || outcome == SignalInterrupted
      ensures host.Watched(Watch(w.since, w.allowed + {id}, w.kept))
      ensures outcome == Done && repair ==> !faults.latched
      ensures outcome == SignalInterrupted ==> repair && faults.latched && (faults.waiting || early)
      ensures outcome == SignalInterrupted ==> faults.epoch > repairEpoch
      ensures !repair ==> faults.Now() == old(faults.Now())
      ensures faults.unattended ==> old(faults.unattended) || (outcome == SignalInterrupted && !faults.waiting)
    {
      hide *;
      EntryFacts(id);
      var activated := eng.Activate(id);
      assert activated;   // the engine is registered, so this cannot fail
      IsActivated(id);
      outcome := Done;
      if repair {
        outcome := FinishRepair(repairEpoch, early, f, Watch(w.since, w.allowed + {id}, w.kept));
      } else {
        AttendedStays(f, faults.Now());
      }
      StandsIs();
      RestAttended(id, Stands(), faults.Now());
    }

    /** Stages the candidate and, for a repair, proves that it may go on. */
    method Begin(id: GenId, repair: bool, guard: bool, repairEpoch: nat, ghost w: Watch)
      returns (saved: Saved, ok: bool)
      requires Steady() && Settled() && host.Watched(w)
      requires AtRest(activeNew, eng.active, Stands(), faults.Now()) && repairEpoch == faults.epoch
      requires id in generations && !generations[id].scope.Idle()
      requires !repair ==> !isUnsafe && Attended(faults.Now())
      modifies faults, host`table, host`gone, host`trace, eng`byID, eng`log, eng`prepared
      modifies this`generations, this`activeNew, this`previous, this`isUnsafe, this`remediation
      modifies this`remediationEpoch
      ensures unchanged(faults`unattended)
      ensures Steady() && Settled() && host.Watched(w) && old(host.trace) <= host.trace
      ensures old(eng.log) <= eng.log && eng.byID == old(eng.byID)
      ensures saved.active == old(activeNew) && saved.previous == old(previous) && saved.standing == old(Stands())
      ensures old(activeNew) != NO_GEN ==> old(activeNew) in old(generations)
      ensures ok ==> Ready(saved, id, old(generations)) && generations == Staged(old(generations), old(activeNew), id)
      ensures ok ==> previous == if old(activeNew) != NO_GEN && old(activeNew) != id then old(activeNew) else old(previous)
      ensures ok ==> !isUnsafe && !remediation && Undoable(saved, eng.active, old(faults.Now()), faults.Now(), persistFatal)
      ensures ok ==> faults.Now().Ok()
      ensures !repair ==> ok && faults.Now() == old(faults.Now())
      ensures ok ==> if repair then Proven(repairEpoch, old(faults.Now()).Finishing(), faults.Now()) else Attended(faults.Now())
      ensures !ok ==> repair && generations == old(generations) && activeNew == old(activeNew) && previous == old(previous)
      ensures !ok ==> AtRest(activeNew, eng.active, Stands(), faults.Now())
      ensures !ok ==> isUnsafe == (persistFatal || old(isUnsafe)) && !remediation && faults.latched && !faults.guard
      ensures old(faults.epoch) <= faults.epoch || ok
      ensures !ok && faults.epoch == old(faults.epoch) ==> old(faults.reconciling) || (old(remediation) && !old(faults.guard))
    {
      hide *;
      saved := Saved(activeNew, previous, Stands(), guard, Phases(generations), HasSteering(generations));
      ghost var before, f := generations, faults.Now();
      StandsIs();
      NowIs();
      BeginsUndoable(saved, eng.active, f, persistFatal);
      Stage(id);
      assert Ready(saved, id, before);
      ReadyFacts(saved, id, before);
      ok := true;
      if repair {
        ok := ProveRepair(saved, repairEpoch, f, w);
        NowIs();
        StandsIs();
        if !ok {
          AbandonRepair(saved, before, f);
          StandsIs();
          RestoredMeans(saved, persistFatal);
        }
      }
      SteadyFacts();
    }

    /** An activation past its proof. */
    method Proceed(saved: Saved, id: GenId, repair: bool, repairEpoch: nat, ghost before: Gens, ghost f: Faults, ghost w: Watch)
      returns (outcome: Outcome, ghost boundary: Option<(nat, nat)>)
      requires Steady() && Settled() && host.Watched(w) && NO_GEN in w.allowed && saved.active in w.allowed
      requires Ready(saved, id, before) && Undoable(saved, eng.active, f, faults.Now(), persistFatal)
      requires !isUnsafe && !remediation
      requires faults.Now().Ok() && if repair then Proven(repairEpoch, f.Finishing(), faults.Now()) else Attended(faults.Now())
      modifies this, host, faults, eng`active, eng`swaps
      ensures unchanged(this`reserved, this`serving)
      ensures Steady() && Settled() && AtRest(activeNew, eng.active, Stands(), faults.Now())
      ensures old(reports) <= reports
      ensures old(host.trace) <= host.trace && old(failed) <= failed
      ensures host.Watched(Watch(w.since, w.allowed + {id}, w.kept))
      ensures outcome == Done || outcome == SignalInterrupted ==> Activated(id) && unchanged(this`generations, this`previous)
      ensures outcome == Done && repair ==> !faults.latched
      ensures outcome == SignalInterrupted ==>
                repair && faults.latched && (faults.waiting || f.Finishing()) && faults.epoch > repairEpoch
      ensures faults.unattended ==> old(faults.unattended) || (outcome == SignalInterrupted && !faults.waiting)
      ensures outcome == Done ==> persistFatal == old(persistFatal)
      ensures outcome == Done && !repair ==> Disturbs(old(faults.Now()), faults.Now())
      ensures outcome == RolledBack ==> UndoneTo(saved, before) && eng.active == old(eng.active)
      ensures outcome == RolledBack ==> host.program == old(host.program) || host.program == Program(Live(before), saved.active, false)
      ensures outcome == FailClosed ==> ClosedNow(old(reports))
      ensures outcome == DurabilityFatal ==> persistFatal
      ensures outcome == Done || outcome == SignalInterrupted || ((outcome == RolledBack || outcome == FailClosed || outcome == DurabilityFatal) && old(failed) < failed)
      ensures BoundarySince(old(host.trace), host.trace, host.cfg.port, boundary)
      ensures saved.active == NO_GEN && host.cfg.hasCounter && boundary.None? ==>
                outcome != Done && outcome != SignalInterrupted && host.Watched(w)
    {
      hide *;
      StandsIs();
      ReadyFacts(saved, id, before);
      ghost var fs := faults.Now();
      outcome, boundary := CarryOut(saved, id, before, f, w);
      if outcome != Done {
        return;
      }
      StandsIs();
      ghost var h := host.trace;
      outcome := Conclude(id, repair, repairEpoch, f.Finishing(), fs, w);
      BoundarySinceStays(old(host.trace), old(host.trace), h, host.trace, host.cfg.port, boundary);
    }

    /** activateLocked from the moment the fault epoch has been sampled. */
    method ActivateSampled(id: GenId, repair: bool, guard: bool, repairEpoch: nat, ghost w: Watch)
      returns (outcome: Outcome, ghost boundary: Option<(nat, nat)>)
      requires Steady() && Settled() && host.Watched(w) && NO_GEN in w.allowed && activeNew in w.allowed
      requires AtRest(activeNew, eng.active, Stands(), faults.Now()) && repairEpoch == faults.epoch
      requires id in generations && !generations[id].scope.Idle()
      requires !repair ==> !isUnsafe && Attended(faults.Now())
      modifies this, host, eng, faults
      ensures unchanged(this`reserved, this`serving)
      ensures Steady() && Settled() && AtRest(activeNew, eng.active, Stands(), faults.Now())
      ensures old(eng.log) <= eng.log && eng.byID == old(eng.byID)
      ensures host.Watched(Watch(w.since, w.allowed + {id}, w.kept))
      ensures old(reports) <= reports
      ensures old(host.trace) <= host.trace && old(failed) <= failed && outcome != NoAction && outcome != NicFailed
      // success, or all but the last step of it
      ensures outcome == Done || outcome == SignalInterrupted ==>
                && Activated(id) && id in old(generations) && (old(activeNew) != NO_GEN ==> old(activeNew) in old(generations))
                && generations == Staged(old(generations), old(activeNew), id)
                && previous == (if old(activeNew) != NO_GEN && old(activeNew) != id then old(activeNew) else old(previous))
      ensures outcome == Done && repair ==> !faults.latched
      ensures outcome == SignalInterrupted ==> repair && faults.latched && (faults.waiting || old(faults.Now()).Finishing())
      ensures faults.unattended ==> old(faults.unattended) || (outcome == SignalInterrupted && !faults.waiting)
      ensures outcome == Done ==> persistFatal == old(persistFatal)
      ensures outcome == Done && !repair ==> Disturbs(old(faults.Now()), faults.Now())
      // failure, which is one of five
      ensures outcome == RecheckInterrupted ==> old(faults.epoch) <= faults.epoch
      ensures outcome == RecheckInterrupted && faults.epoch == old(faults.epoch) ==>
                old(faults.reconciling) || (old(remediation) && !old(faults.guard))
      ensures outcome == SignalInterrupted ==> faults.epoch > old(faults.epoch)
      ensures outcome == RecheckInterrupted ==>
                && repair && unchanged(this`generations, this`activeNew, this`previous, this`persistFatal)
                && isUnsafe == (persistFatal || old(isUnsafe)) && !remediation && faults.latched && !faults.guard
                && unchanged(eng`active, host`program, host`disk)
      ensures outcome == RolledBack ==>
                && unchanged(this`generations, this`activeNew, this`previous, eng`active, this`isUnsafe, this`remediation)
                && !persistFatal && DiskIsImage()
                && (host.program == old(host.program) || host.program == Program(Live(generations), activeNew, false))
      ensures outcome == FailClosed ==> ClosedNow(old(reports))
      ensures outcome == DurabilityFatal ==> persistFatal
      // and there is a cause for each
      ensures outcome == RolledBack || outcome == FailClosed || outcome == DurabilityFatal ==> old(failed) < failed
      // the boundary
      ensures BoundarySince(old(host.trace), host.trace, host.cfg.port, boundary)
      ensures old(activeNew) == NO_GEN && host.cfg.hasCounter && boundary.None? ==>
                outcome != Done && outcome != SignalInterrupted && host.Watched(w)
    {
      hide *;
      ghost var before, f := generations, faults.Now();
      boundary := None;
      StandsIs();
      var saved, ready := Begin(id, repair, guard, repairEpoch, w);
      Widens(w, {id});
      NoBoundary(old(host.trace), host.trace, host.cfg.port);
      ghost var h := host.trace;
      if !ready {
        return RecheckInterrupted, boundary;
      }
      outcome, boundary := Proceed(saved, id, repair, repairEpoch, before, f, w);
      BoundarySinceStays(old(host.trace), h, host.trace, host.trace, host.cfg.port, boundary);
      StandsIs();
      UndoneMeans(saved, before);
    }

    lemma UndoneMeans(saved: Saved, before: Gens)
      ensures UndoneTo(saved, before) ==>
                && generations == before && activeNew == saved.active && previous == saved.previous
                && isUnsafe == saved.standing.isUnsafe && remediation == saved.standing.remediation
                && !persistFatal && DiskIsImage()
    {
      hide DiskIsImage;
    }

    /** The guard is remembered a little before the epoch is sampled. */
    method BeforeSample(repair: bool, ghost w: Watch) returns (guard: bool)
      requires Steady() && Settled() && host.Watched(w) && AtRest(activeNew, eng.active, Stands(), faults.Now())
      requires !repair ==> Attended(faults.Now())
      modifies faults, host`table, host`gone, host`trace
      ensures unchanged(faults`unattended)
      ensures Steady() && Settled() && host.Watched(w) && AtRest(activeNew, eng.active, Stands(), faults.Now())
      ensures old(host.trace) <= host.trace && guard == old(faults.guard)
      ensures Disturbs(old(faults.Now()), faults.Now()) && (!repair ==> Attended(faults.Now()))
      ensures old(faults.epoch) <= faults.epoch && (faults.Now().Finishing() ==> old(faults.Now()).Finishing())
      ensures faults.epoch == old(faults.epoch) ==> faults.guard == old(faults.guard) && (faults.reconciling ==> old(faults.reconciling))
    {
      hide *;
      ghost var f, s := faults.Now(), Stands();
      NowIs();
      guard := faults.guard;
      Disturbance(w);
      KeptIsKept(f, s, faults.Now());
      StaysAtRest(f, s);
      DisturbsUnmoved(f, faults.Now());
      DisturbsHeeds(f, faults.Now());
      FinishingWas(f, faults.Now());
      NowIs();
      if !repair {
        AttendedStays(f, faults.Now());
      }
    }

    /** activateLocked. */
    method ActivateLocked(id: GenId, repair: bool) returns (outcome: Outcome, ghost boundary: Option<(nat, nat)>)
      requires Valid() && (!repair ==> !isUnsafe && Attended(faults.Now()))
      modifies this, host, eng, faults
      ensures unchanged(this`reserved, this`serving)
      ensures Valid() && old(host.trace) <= host.trace && old(failed) <= failed
      ensures old(eng.log) <= eng.log && eng.byID == old(eng.byID)
      ensures Allocation.AssignedOnly(old(host.trace), host.trace, generations.Keys)
      ensures old(reports) <= reports
      // success, or all but the last step of it
      ensures outcome == Done || outcome == SignalInterrupted ==>
                && Activated(id) && id in old(generations) && (old(activeNew) != NO_GEN ==> old(activeNew) in old(generations))
                && generations == Staged(old(generations), old(activeNew), id)
                && previous == (if old(activeNew) != NO_GEN && old(activeNew) != id then old(activeNew) else old(previous))
      ensures outcome == Done && repair ==> !faults.latched
      ensures outcome == SignalInterrupted ==> repair && faults.latched && (faults.waiting || old(faults.Now()).Finishing())
      ensures faults.unattended ==> old(faults.unattended) || (outcome == SignalInterrupted && !faults.waiting)
      ensures outcome == Done ==> persistFatal == old(persistFatal)
      ensures outcome == Done && !repair ==> Disturbs(old(faults.Now()), faults.Now())
      // failure, which is one of five
      ensures outcome != NicFailed
      ensures outcome == NoAction <==> id !in old(generations) || old(generations)[id].scope.Idle()
      ensures outcome == NoAction ==>
                && unchanged(this`generations, this`activeNew, this`previous, this`isUnsafe, this`persistFatal, this`remediation)
                && unchanged(eng`active, host`program, host`disk)
      ensures outcome == RecheckInterrupted ==> old(faults.epoch) <= faults.epoch
      ensures outcome == RecheckInterrupted && faults.epoch == old(faults.epoch) ==>
                old(faults.reconciling) || (old(remediation) && !old(faults.guard))
      ensures outcome == SignalInterrupted ==> faults.epoch > old(faults.epoch)
      ensures outcome == RecheckInterrupted ==>
                && repair && unchanged(this`generations, this`activeNew, this`previous, this`persistFatal)
                && isUnsafe == (persistFatal || old(isUnsafe)) && !remediation && faults.latched && !faults.guard
                && unchanged(eng`active, host`program, host`disk)
      ensures outcome == RolledBack ==>
                && unchanged(this`generations, this`activeNew, this`previous, eng`active, this`isUnsafe, this`remediation)
                && !persistFatal && DiskIsImage()
                && (host.program == old(host.program) || host.program == Program(Live(generations), activeNew, false))
      ensures outcome == FailClosed ==> ClosedNow(old(reports))
      ensures outcome == DurabilityFatal ==> persistFatal
      // and there is a cause for each
      ensures outcome == RolledBack || outcome == FailClosed || outcome == DurabilityFatal ==> old(failed) < failed
      // the boundary
      ensures BoundarySince(old(host.trace), host.trace, host.cfg.port, boundary)
      ensures old(activeNew) == NO_GEN && host.cfg.hasCounter && boundary.None? ==>
                && outcome != Done && outcome != SignalInterrupted
                && host.Watched(Watch(|old(host.trace)| - 1, {NO_GEN}, {old(host.program)}))
    {
      hide *;
      boundary := None;
      NoBoundary(host.trace, host.trace, host.cfg.port);
      ValidParts();
      SteadyFacts();
      WatchFrom({NO_GEN, activeNew});
      WatchFrom({NO_GEN});
      ghost var w := Watch(|host.trace| - 1, {NO_GEN, activeNew}, {host.program});
      ghost var h, listed := host.trace, generations.Keys;
      Listed();
      if id !in generations || generations[id].scope.Idle() {
        Listed();
        OnlyListed(h, w, generations.Keys);
        return NoAction, boundary;
      }
      ghost var f0 := faults.Now();
      var guard := BeforeSample(repair, w);
      ghost var mid, m := host.trace, faults.Now();
      outcome, boundary := ActivateSampled(id, repair, guard, faults.epoch, w);
      if outcome == Done && !repair {
        DisturbsIsTransitive(f0, m, faults.Now());
      }
      BoundarySinceStays(h, mid, host.trace, host.trace, host.cfg.port, boundary);
      assert {NO_GEN, NO_GEN} == {NO_GEN};
      Listed();
      OnlyListed(h, Watch(w.since, w.allowed + {id}, w.kept), generations.Keys);
      ValidFrom();
    }

    // ------------------------------------------------------------ deactivation

    /** deactivateLocked. */
    method DeactivateLocked() returns (outcome: Outcome)
      requires Valid()
      modifies this, host, faults, eng`active
      ensures unchanged(faults`unattended, this`reserved, this`serving)
      ensures Valid() && old(host.trace) <= host.trace && old(failed) <= failed
      ensures old(reports) <= reports
      ensures Allocation.AssignedOnly(old(host.trace), host.trace, generations.Keys)
      ensures outcome == NoAction <==> old(activeNew) == NO_GEN
      ensures outcome == NoAction ==> unchanged(this, eng, host`program, host`disk)
      ensures outcome == Done ==>
                && old(activeNew) in old(generations)
                && generations == WithPhase(old(generations), old(activeNew), Draining)
                && activeNew == NO_GEN && eng.active == NO_GEN && previous == old(activeNew)
                && DiskIsImage() && host.program == Program(Live(generations), NO_GEN, false)
      ensures outcome == RolledBack ==>
                && unchanged(this`generations, this`activeNew, this`previous, eng`active, this`isUnsafe, this`remediation)
                && !persistFatal && DiskIsImage()
                && host.program == Program(Live(generations), activeNew, false)
      ensures outcome == FailClosed ==> ClosedNow(old(reports))
      ensures outcome == DurabilityFatal ==> persistFatal
      ensures outcome == Done ==> Disturbs(old(faults.Now()), faults.Now())
      ensures outcome == Done || outcome == NoAction
              || ((outcome == RolledBack || outcome == FailClosed || outcome == DurabilityFatal) && old(failed) < failed)
    {
      hide *;
      ValidParts();
      SettledParts();
      ghost var h, listed := host.trace, generations.Keys;
      Listed();
      if activeNew == NO_GEN {
        Allocation.NothingAssigned(h, generations.Keys);
        return NoAction;
      }
      WatchFrom({NO_GEN, activeNew});
      var saved := Saved(activeNew, previous, Stands(), faults.guard, Phases(generations), HasSteering(generations));
      ghost var before := generations;
      StandsIs();
      ghost var w := Watch(|host.trace| - 1, {NO_GEN, activeNew}, {host.program});
      outcome := DeactivateActive(saved, w);
      Listed();
      OnlyListed(h, w, generations.Keys);
      UndoneMeans(saved, before);
      ValidFrom();
    }

    method Unstage(saved: Saved)
      requires Settled() && activeNew == saved.active != NO_GEN && saved.phases == Phases(generations)
      modifies this`generations, this`activeNew, this`previous
      ensures Settled() && Remembers(saved, old(generations)) && saved.active in old(generations)
      ensures generations == WithPhase(old(generations), saved.active, Draining)
      ensures activeNew == NO_GEN && previous == saved.active
    {
      hide *;
      SettledParts();
      ghost var before := generations;
      previous := activeNew;
      Retire();
      WithPhaseIsSame(before, saved.active, Draining);
      WasRemembered(saved, before);
    }

    method DeactivateActive(saved: Saved, ghost w: Watch) returns (outcome: Outcome)
      requires Steady() && Settled() && host.Watched(w) && NO_GEN in w.allowed && saved.active in w.allowed
      requires activeNew == saved.active != NO_GEN && previous == saved.previous && Stands() == saved.standing
      requires saved.phases == Phases(generations) && AtRest(activeNew, eng.active, Stands(), faults.Now())
      modifies this, host, faults, eng`active
      ensures unchanged(faults`unattended, this`reserved, this`serving)
      ensures Steady() && Settled() && AtRest(activeNew, eng.active, Stands(), faults.Now())
      ensures old(reports) <= reports
      ensures old(host.trace) <= host.trace && old(failed) <= failed && saved.active in old(generations)
      ensures host.Watched(w)
      ensures outcome == Done ==>
                && generations == WithPhase(old(generations), saved.active, Draining)
                && activeNew == NO_GEN && eng.active == NO_GEN && previous == saved.active
                && DiskIsImage() && host.program == Program(Live(generations), NO_GEN, false)
      ensures outcome == RolledBack ==> UndoneTo(saved, old(generations)) && eng.active == old(eng.active)
      ensures outcome == RolledBack ==> host.program == Program(Live(generations), activeNew, false)
      ensures outcome == FailClosed ==> ClosedNow(old(reports))
      ensures outcome == DurabilityFatal ==> persistFatal
      ensures outcome == Done ==> Disturbs(old(faults.Now()), faults.Now())
      ensures outcome == Done || ((outcome == RolledBack || outcome == FailClosed || outcome == DurabilityFatal) && old(failed) < failed)
    {
      hide *;
      ghost var before, f := generations, faults.Now();
      StandsIs();
      Unstage(saved);
      var ok := PersistLocked(w);
      StandsIs();
      if !ok {
        PutBackTable(saved, before);
        previous := saved.previous;
        StaysAtRest(f, saved.standing);
        outcome := DurabilityFatal;
      } else {
        ghost var r := reports;
        ghost var g := faults.Now();
        outcome := Unassign(saved, before, f, w);
        DisturbsWhen(outcome == Done, f, g, faults.Now());
        ClosedSince(old(reports), r);
        UndoneMeans(saved, before);
      }
    }

    lemma WasRemembered(saved: Saved, before: Gens)
      requires SameButPhases(before, generations) && saved.phases == Phases(before) && ActiveOk(before, saved.active)
      ensures Remembers(saved, before)
    {
    }

    /** The transaction of a deactivation, once its intent is durable. */
    method Unassign(saved: Saved, ghost before: Gens, ghost f: Faults, ghost w: Watch) returns (outcome: Outcome)
      requires Steady() && Settled() && host.Watched(w) && NO_GEN in w.allowed && saved.active in w.allowed
      requires Remembers(saved, before) && activeNew == NO_GEN && DiskIsImage()
      requires AtRest(saved.active, eng.active, saved.standing, f) && KeptOrFatal(f, saved.standing, faults.Now(), Stands())
      requires Stands() == saved.standing
      modifies this, host, faults, eng`active
      ensures unchanged(faults`unattended, this`reserved, this`serving)
      ensures Steady() && Settled() && host.Watched(w) && old(host.trace) <= host.trace && old(failed) <= failed
      ensures old(reports) <= reports
      ensures AtRest(activeNew, eng.active, Stands(), faults.Now())
      ensures outcome == Done ==> unchanged(this`generations, this`activeNew, this`previous) && eng.active == NO_GEN
      ensures outcome == Done ==> DiskIsImage() && host.program == Program(Live(generations), NO_GEN, false)
      ensures outcome == RolledBack ==> UndoneTo(saved, before) && eng.active == old(eng.active)
      ensures outcome == RolledBack ==> host.program == Program(Live(before), saved.active, false)
      ensures outcome == FailClosed ==> ClosedNow(old(reports))
      ensures outcome == DurabilityFatal ==> persistFatal
      ensures outcome == Done ==> Disturbs(old(faults.Now()), faults.Now())
      ensures outcome == Done || ((outcome == RolledBack || outcome == FailClosed || outcome == DurabilityFatal) && old(failed) < failed)
    {
      hide *;
      StandsIs();
      ghost var g, s := faults.Now(), saved.standing;
      LiveIsWithin(generations, NO_GEN, false);
      var ok, cut := ProgramLocked(Live(generations), NO_GEN, false, true, w);
      KeptIsKept(g, s, faults.Now());
      StandsIs();
      KeptOrFatalIsTransitive(f, s, g, s, faults.Now(), s);
      RestKept(saved.active, eng.active, s, f, s, faults.Now());
      if ok {
        eng.Deactivate();
        RestDeactivated(saved.active, old(eng.active), s, faults.Now());
        return Done;
      }
      outcome := Reassign(saved, before, w);
    }

    /** A deactivation's transaction failed: everything goes back. */
    method Reassign(saved: Saved, ghost before: Gens, ghost w: Watch) returns (outcome: Outcome)
      requires Steady() && Settled() && host.Watched(w) && NO_GEN in w.allowed && saved.active in w.allowed
      requires Remembers(saved, before) && Stands() == saved.standing
      requires AtRest(saved.active, eng.active, saved.standing, faults.Now())
      modifies this, host, faults, eng`active
      ensures unchanged(faults`unattended, this`reserved, this`serving)
      ensures Steady() && Settled() && host.Watched(w) && old(host.trace) <= host.trace && old(failed) <= failed
      ensures old(reports) <= reports
      ensures AtRest(activeNew, eng.active, Stands(), faults.Now())
      ensures outcome == RolledBack ==> UndoneTo(saved, before) && eng.active == old(eng.active)
      ensures outcome == RolledBack ==> host.program == Program(Live(before), saved.active, false)
      ensures outcome == FailClosed ==> ClosedNow(old(reports))
      ensures outcome == DurabilityFatal ==> persistFatal
      ensures outcome == RolledBack || outcome == FailClosed || outcome == DurabilityFatal
    {
      hide *;
      PutBackTable(saved, before);
      previous := saved.previous;
      SettledParts();
      ActiveIsLive(generations, activeNew);
      LiveIsWithin(generations, saved.active, false);
      ghost var g, s := faults.Now(), Stands();
      var programmed, cut := ProgramLocked(Live(generations), saved.active, false, false, w);
      KeptIsKept(g, s, faults.Now());
      StandsIs();
      StaysAtRest(g, s);
      outcome := PersistUndone(saved, programmed, false, before, w);
    }

    // ------------------------------------------------------------ draining and collecting

    /** Changes the phase of an entry that is not the active one. */
    method SetPhase(id: GenId, phase: Phase)
      requires Settled() && id in generations && id != activeNew
      modifies this`generations
      ensures Settled() && generations == WithPhase(old(generations), id, phase)
    {
      hide *;
      SettledParts();
      ghost var before := generations;
      WithPhaseIsSame(generations, id, phase);
      OtherIsActive(generations, id, phase, activeNew);
      generations := WithPhase(generations, id, phase);
      PhasesKeepAgreement(before, generations, host.program, eng.byID, host.disk, host.cfg);
      SettledFrom();
    }

    static lemma OtherIsActive(gens: Gens, id: GenId, phase: Phase, active: GenId)
      requires ActiveOk(gens, active) && id in gens && id != active
      ensures ActiveOk(WithPhase(gens, id, phase), active)
    {
    }

    /** Drain's second turn with the mutex, after an unlocked count at moment k. */
    method DrainFinish(id: GenId, identity: Identity, n: nat, ghost l: Liveness, ghost k: nat) returns (remaining: Option<nat>)
      requires Valid() && Counted(id, n, l, k)
      modifies faults, host`table, host`gone, host`trace, host`disk, host`written, this`failed, this`generations
      modifies this`persistFatal, this`isUnsafe, this`remediation, this`remediationEpoch, this`reports
      ensures unchanged(faults`unattended)
      ensures Valid() && old(host.trace) <= host.trace && old(failed) <= failed && old(reports) <= reports
      ensures Allocation.AssignedOnly(old(host.trace), host.trace, generations.Keys)
      ensures remaining.Some? ==> remaining.value == n
      ensures remaining.Some? ==> id in old(generations) && old(generations)[id].identity == identity && id != activeNew
      ensures remaining.Some? ==> generations == WithPhase(old(generations), id, if n == 0 then Drained else Draining)
      ensures remaining.Some? ==> persistFatal == old(persistFatal)
      ensures remaining == Some(0) ==> DiskIsImage() && Disturbs(old(faults.Now()), faults.Now())
      // a completed drain has drained the generation, if the count was of all flows and nothing was assigned since
      ensures remaining == Some(0) && !Skips(l) && UnassignedSince(old(host.trace), id, k) ==>
                !Carried(host.table, host.cfg.port, id)
      ensures remaining.None? ==>
                id !in old(generations) || old(generations)[id].identity != identity || old(activeNew) == id
                || (persistFatal && old(failed) < failed && generations == WithPhase(old(generations), id, Drained))
      ensures remaining.None? ==>
                generations == old(generations)
                || (persistFatal && id in old(generations) && generations == WithPhase(old(generations), id, Drained))
      ensures Stirs(old(faults.Now()), faults.Now())
    {
      hide *;
      DisturbsIsReflexive(faults.Now());
      DisturbsHeeds(faults.Now(), faults.Now());
      ValidParts();
      Listed();
      Allocation.NothingAssigned(host.trace, generations.Keys);
      if id !in generations || generations[id].identity != identity || activeNew == id {
        return None;
      }
      WatchFrom({});
      EntryFacts(id);
      ghost var f, s, h, assignee := faults.Now(), Stands(), host.trace, host.program.assignee;
      SteadyFacts();
      DisturbsIsReflexive(f);
      KeptIsKept(f, s, f);
      if n != 0 {
        SetPhase(id, Draining);
        Listed();
        Allocation.NothingAssigned(host.trace, generations.Keys);
        ValidFrom();
        return Some(n);
      }
      SetPhase(id, Drained);
      CountedMeans(id, n, l, k);
      ghost var w := Watch(|host.trace| - 1, {}, {host.program});
      var ok := PersistLocked(w);
      KeptUnlessFatal(f, s, faults.Now(), Stands());
      StaysAtRest(f, s);
      Listed();
      OnlyListed(h, w, generations.Keys);
      OnlyListed(h, w, {assignee});
      if !Skips(l) && UnassignedSince(h, id, k) {
        UnassignedMeans(h, id, k);
        SteadyFacts();
        TableIsLast();
        Allocation.CollectedIsUncarried(host, id, k, h, l, {assignee});
      }
      ValidFrom();
      if !ok {
        return None;
      }
      return Some(0);
    }

    /** What is settled but for the entry an operation has taken out of the table, or not
        yet put in: gens is the table that agrees with the rest. */
    ghost predicate SettledAs(gens: Gens)
      reads this`serving, this`offloads, this`steeringInstalled, this`reserved
      reads host`program, host`disk, eng`byID, eng`prepared, eng`log
    {
      && serving
      && eng.Valid() && eng.library == host.cfg.library
      && GensOk(gens, host.cfg) && EnginesMatch(eng.byID, gens)
      && DiskCovers(host.disk, gens) && ProgramWithin(host.program, gens)
      && (offloads.Some? ==> offloads.value == host.cfg.iface)
      && (steeringInstalled ==> Steers(host.program)) && ReservedOk()
    }

    lemma SettledAsParts(gens: Gens)
      requires SettledAs(gens)
      ensures serving && eng.Valid() && eng.library == host.cfg.library
      ensures GensOk(gens, host.cfg) && EnginesMatch(eng.byID, gens)
      ensures DiskCovers(host.disk, gens) && ProgramWithin(host.program, gens)
      ensures offloads.Some? ==> offloads.value == host.cfg.iface
      ensures (steeringInstalled ==> Steers(host.program)) && ReservedOk()
    {
      hide GensOk, EnginesMatch, DiskCovers, ProgramWithin, Steers, Registry.Valid, ReservedOk;
    }

    lemma SettledAsFrom(gens: Gens)
      requires serving && eng.Valid() && eng.library == host.cfg.library
      requires GensOk(gens, host.cfg) && EnginesMatch(eng.byID, gens)
      requires DiskCovers(host.disk, gens) && ProgramWithin(host.program, gens)
      requires offloads.Some? ==> offloads.value == host.cfg.iface
      requires (steeringInstalled ==> Steers(host.program)) && ReservedOk()
      ensures SettledAs(gens)
    {
      hide GensOk, EnginesMatch, DiskCovers, ProgramWithin, Steers, Registry.Valid, ReservedOk;
    }

    lemma SettledIsSettledAs()
      ensures Settled() <==> SettledAs(generations) && ActiveOk(generations, activeNew)
    {
      hide GensOk, EnginesMatch, DiskCovers, ProgramWithin, ActiveOk, Steers, Registry.Valid, ReservedOk;
    }

    /** Takes an entry out of the table and out of the kernel, in that order. */
    method Unlist(id: GenId, ghost w: Watch) returns (ok: bool)
      requires Steady() && Settled() && host.Watched(w) && activeNew in w.allowed
      requires id in generations && id != activeNew
      modifies faults, host`program, host`table, host`gone, host`trace, this`failed, this`generations
      modifies this`previous, this`steeringInstalled
      ensures unchanged(faults`unattended)
      ensures Steady() && SettledAs(old(generations)) && host.Watched(w) && old(host.trace) <= host.trace && old(failed) <= failed
      ensures generations == old(generations) - {id} && ActiveOk(generations, activeNew)
      ensures previous == if old(previous) == id then NO_GEN else old(previous)
      ensures Disturbs(old(faults.Now()), faults.Now())
      ensures ok ==> host.program == Program(Live(generations), activeNew, false) && ProgramWithin(host.program, generations)
      ensures !ok ==> old(failed) < failed
    {
      hide *;
      SettledParts();
      ghost var before := generations;
      FewerActive(generations, id, activeNew);
      generations := generations - {id};
      if previous == id {
        previous := NO_GEN;
      }
      LiveIsWithin(generations, activeNew, false);
      FewerAgree(before, id, eng.byID, host.disk, Program(Live(generations), activeNew, false), host.cfg);
      AgreementIsSafe(Program(Live(generations), activeNew, false), eng.byID, host.disk, before, host.cfg);
      ghost var cut;
      ok, cut := ProgramMode(Live(generations), activeNew, false, true, w);
      SettledAsFrom(before);
    }

    /** Puts a taken-out entry back after a failure. */
    method Relist(id: GenId, g: Gen, oldPrevious: GenId, ghost before: Gens, ghost w: Watch) returns (outcome: Outcome)
      requires Steady() && SettledAs(before) && host.Watched(w) && NO_GEN in w.allowed && activeNew in w.allowed
      requires id in before && before[id] == g && generations == before - {id} && ActiveOk(before, activeNew)
      requires AtRest(activeNew, eng.active, Stands(), faults.Now())
      modifies this, host, faults, eng`active
      ensures unchanged(faults`unattended, this`offloads, this`reserved, this`serving)
      ensures Steady() && Settled() && AtRest(activeNew, eng.active, Stands(), faults.Now())
      ensures old(reports) <= reports
      ensures host.Watched(w) && old(host.trace) <= host.trace && old(failed) <= failed
      ensures outcome == RolledBack || outcome == FailClosed || outcome == DurabilityFatal
      ensures outcome == RolledBack ==>
                && generations == before && previous == oldPrevious && unchanged(this`activeNew, eng`active, host`disk)
                && host.program == Program(Live(generations), activeNew, false)
      ensures outcome == FailClosed ==> ClosedNow(old(reports))
      ensures outcome == DurabilityFatal ==> persistFatal
    {
      hide *;
      generations := generations[id := g];
      assert generations == before;
      previous := oldPrevious;
      SettledIsSettledAs();
      ActiveIsLive(generations, activeNew);
      LiveIsWithin(generations, activeNew, false);
      ghost var f, s := faults.Now(), Stands();
      var ok, cut := ProgramLocked(Live(generations), activeNew, false, false, w);
      KeptIsKept(f, s, faults.Now());
      StaysAtRest(f, s);
      if ok {
        return RolledBack;
      }
      outcome := CloseAfterFailure(w);
    }

    /** Removes the engine of an entry that neither table nor kernel has any more. */
    method DropEngine(id: GenId, ghost before: Gens)
      requires Steady() && SettledAs(before) && generations == before - {id} && id in before
      requires ActiveOk(generations, activeNew) && ProgramWithin(host.program, generations) && eng.active != id
      modifies eng`byID, eng`log
      ensures Steady() && Settled() && eng.byID == old(eng.byID) - {id}
      ensures old(eng.log) <= eng.log
    {
      hide *;
      SteadyFacts();
      SettledAsParts(before);
      FewerAgree(before, id, eng.byID, host.disk, host.program, host.cfg);
      EngineOf(id, before);
      var removed := eng.Remove(id);
      assert removed;   // it is registered and not the active one, so this cannot fail
      AgreementIsSafe(host.program, eng.byID, host.disk, generations, host.cfg);
      SteadyFrom();
      SettledFrom();
    }

    lemma EngineOf(id: GenId, gens: Gens)
      requires EnginesMatch(eng.byID, gens) && id in gens
      ensures id in eng.byID && eng.byID[id].dna == gens[id].dna
    {
    }

    /** The end of a collection: the engine, the NIC if nothing is steered, and the disk. */
    method Forget(id: GenId, ghost before: Gens, ghost w: Watch) returns (outcome: Outcome)
      requires Steady() && SettledAs(before) && host.Watched(w) && generations == before - {id} && id in before
      requires ActiveOk(generations, activeNew) && ProgramWithin(host.program, generations) && id != activeNew && id != NO_GEN
      requires AtRest(activeNew, eng.active, Stands(), faults.Now())
      modifies this, host, faults, eng`byID, eng`log
      ensures unchanged(faults`unattended, host`program)
      ensures unchanged(this`generations, this`activeNew, this`previous, this`steeringInstalled, this`reserved, this`serving)
      ensures Steady() && Settled() && AtRest(activeNew, eng.active, Stands(), faults.Now())
      ensures old(eng.log) <= eng.log
      ensures old(reports) <= reports
      ensures host.Watched(w) && old(host.trace) <= host.trace && old(failed) <= failed
      ensures eng.byID == old(eng.byID) - {id}
      ensures outcome == Done || ((outcome == NicFailed || outcome == DurabilityFatal) && old(failed) < failed)
      ensures outcome == Done ==> DiskIsImage() && Disturbs(old(faults.Now()), faults.Now())
      ensures outcome == DurabilityFatal ==> persistFatal
    {
      hide *;
      ghost var f0 := faults.Now();
      DisturbsIsReflexive(f0);
      RestEngine(activeNew, eng.active, Stands(), faults.Now());
      DropEngine(id, before);
      if !HasSteering(generations) {
        ghost var f, s := faults.Now(), Stands();
        var restored := RestoreOffloads(w);
        StaysAtRest(f, s);
        if !restored {
          return if persistFatal then DurabilityFatal else NicFailed;
        }
      }
      ghost var f, s := faults.Now(), Stands();
      var persisted := PersistLocked(w);
      StaysAtRest(f, s);
      if !persisted {
        return DurabilityFatal;
      }
      DisturbsIsTransitive(f0, f, faults.Now());
      return Done;
    }

    /** Removes kernel rules before the engine. */
    method Collect(id: GenId) returns (outcome: Outcome)
      requires Valid() && id in generations && id != activeNew
      modifies this, host, faults, eng`active, eng`byID, eng`log
      ensures unchanged(faults`unattended, this`reserved, this`serving)
      ensures Valid() && old(host.trace) <= host.trace && old(failed) <= failed && outcome != NoAction
      ensures old(eng.log) <= eng.log
      ensures generations.Keys == old(generations).Keys || generations.Keys == old(generations).Keys - {id}
      ensures Allocation.AssignedOnly(old(host.trace), host.trace, {old(activeNew), old(host.program).assignee})
      ensures old(reports) <= reports
      ensures outcome == Done || outcome == NicFailed ==>
                && generations == old(generations) - {id} && eng.byID == old(eng.byID) - {id}
                && activeNew == old(activeNew) && previous == (if old(previous) == id then NO_GEN else old(previous))
                && host.program == Program(Live(generations), activeNew, false)
      ensures outcome == Done ==> DiskIsImage() && Disturbs(old(faults.Now()), faults.Now())
      ensures outcome == RolledBack ==>
                && unchanged(this`generations, this`activeNew, this`previous, eng`active, eng`byID, host`disk)
                && host.program == Program(Live(generations), activeNew, false)
      ensures outcome == FailClosed ==> ClosedNow(old(reports))
      ensures outcome == DurabilityFatal ==> persistFatal
      ensures outcome == Done || old(failed) < failed
    {
      hide *;
      ValidParts();
      SettledParts();
      WatchFrom({NO_GEN, activeNew});
      ghost var w := Watch(|host.trace| - 1, {NO_GEN, activeNew}, {host.program});
      ghost var h, active, assignee := host.trace, activeNew, host.program.assignee;
      Listed();
      outcome := CollectIt(id, w);
      Listed();
      OnlyListed(h, w, {active, assignee});
      ValidFrom();
    }

    /** The entry is taken off the list and then forgotten, or put back. */
    method CollectIt(id: GenId, ghost w: Watch) returns (outcome: Outcome)
      requires Steady() && Settled() && AtRest(activeNew, eng.active, Stands(), faults.Now())
      requires host.Watched(w) && NO_GEN in w.allowed && activeNew in w.allowed && id in generations && id != activeNew
      modifies this, host, faults, eng`active, eng`byID, eng`log
      ensures unchanged(faults`unattended, this`reserved, this`serving)
      ensures Steady() && Settled() && AtRest(activeNew, eng.active, Stands(), faults.Now()) && host.Watched(w)
      ensures old(host.trace) <= host.trace && old(failed) <= failed && outcome != NoAction
      ensures old(eng.log) <= eng.log && old(reports) <= reports
      ensures outcome == Done || outcome == NicFailed ==>
                && generations == old(generations) - {id} && eng.byID == old(eng.byID) - {id}
                && activeNew == old(activeNew) && previous == (if old(previous) == id then NO_GEN else old(previous))
                && host.program == Program(Live(generations), activeNew, false)
      ensures generations.Keys == old(generations).Keys || generations.Keys == old(generations).Keys - {id}
      ensures outcome == Done ==> DiskIsImage() && Disturbs(old(faults.Now()), faults.Now())
      ensures outcome == RolledBack ==>
                && unchanged(this`generations, this`activeNew, this`previous, eng`active, eng`byID, host`disk)
                && host.program == Program(Live(generations), activeNew, false)
      ensures outcome == FailClosed ==> ClosedNow(old(reports))
      ensures outcome == DurabilityFatal ==> persistFatal
      ensures outcome == Done || old(failed) < failed
    {
      hide *;
      SettledParts();
      EntryFacts(id);
      Listed();
      var g, oldPrevious := generations[id], previous;
      ghost var before, f, s := generations, faults.Now(), Stands();
      StandsIs();
      var ok := Unlist(id, w);
      KeptIsKept(f, s, faults.Now());
      StandsIs();
      StaysAtRest(f, s);
      ghost var f1 := faults.Now();
      if !ok {
        outcome := Relist(id, g, oldPrevious, before, w);
      } else {
        outcome := Forget(id, before, w);
        DisturbsWhen(outcome == Done, f, f1, faults.Now());
      }
      Listed();
    }

    /** Garbage collection's second turn with the mutex, after an unlocked count at moment k. */
    method CollectFinish(id: GenId, identity: Identity, n: nat, ghost l: Liveness, ghost k: nat) returns (outcome: Outcome)
      requires Valid() && Counted(id, n, l, k)
      modifies this, host, faults, eng`active, eng`byID, eng`log
      ensures unchanged(faults`unattended, this`reserved, this`serving)
      ensures Valid() && old(host.trace) <= host.trace && old(failed) <= failed && old(reports) <= reports
      ensures old(eng.log) <= eng.log
      ensures outcome == NoAction <==>
                n != 0 || old(faults.latched) || id !in old(generations) || old(generations)[id].identity != identity || old(activeNew) == id
      ensures outcome == NoAction ==> unchanged(this, eng, host`program, host`disk) && Disturbs(old(faults.Now()), faults.Now())
      ensures outcome == Done || outcome == NoAction || old(failed) < failed
      // the entry is collected at zero flows, if the count was of all flows and nothing was assigned since
      ensures generations.Keys == old(generations).Keys || (n == 0 && generations.Keys == old(generations).Keys - {id})
      ensures id in old(generations) && id !in generations && !Skips(l) && UnassignedSince(old(host.trace), id, k) ==>
                !Carried(host.table, host.cfg.port, id)
      ensures Allocation.AssignedOnly(old(host.trace), host.trace, old(generations).Keys)
      ensures outcome == Done || outcome == NicFailed ==>
                && n == 0 && id in old(generations) && old(generations)[id].identity == identity && id != activeNew
                && generations == old(generations) - {id} && eng.byID == old(eng.byID) - {id}
                && activeNew == old(activeNew) && previous == (if old(previous) == id then NO_GEN else old(previous))
                && host.program == Program(Live(generations), activeNew, false)
      ensures outcome == Done ==> DiskIsImage() && Disturbs(old(faults.Now()), faults.Now())
      ensures outcome == RolledBack ==>
                && unchanged(this`generations, this`activeNew, this`previous, eng`active, eng`byID, host`disk)
                && host.program == Program(Live(generations), activeNew, false)
      ensures outcome == FailClosed ==> ClosedNow(old(reports))
      ensures outcome == DurabilityFatal ==> persistFatal
    {
      hide *;
      NothingStirs(faults.Now());
      ValidParts();
      SteadyFacts();
      Listed();
      Allocation.NothingAssigned(host.trace, generations.Keys);
      if n != 0 || faults.latched || id !in generations || generations[id].identity != identity || activeNew == id {
        return NoAction;
      }
      EntryFacts(id);
      ghost var h, listed, active, assignee := host.trace, generations.Keys, activeNew, host.program.assignee;
      CountedMeans(id, n, l, k);
      outcome := Collect(id);
      OnlyThese(h, active, assignee, listed);
      if id !in generations && !Skips(l) && UnassignedSince(h, id, k) {
        UnassignedMeans(h, id, k);
        ValidParts();
        SteadyFacts();
        TableIsLast();
        Allocation.CollectedIsUncarried(host, id, k, h, l, {active, assignee});
      }
    }

    /** n is a count of the flows of a number, taken at moment k. */
    ghost predicate Counted(id: GenId, n: nat, l: Liveness, k: nat)
      reads host`trace
    {
      k < |host.trace| && n == |CountedFlows(host.trace[k].table, host.cfg.port, id, l)|
    }

    lemma CountedMeans(id: GenId, n: nat, l: Liveness, k: nat)
      requires Counted(id, n, l, k)
      ensures k < |host.trace| && n == |CountedFlows(host.trace[k].table, host.cfg.port, id, l)|
    {
    }

    /** No program has assigned the number from moment k to the end of h. */
    static ghost predicate UnassignedSince(h: seq<Moment>, id: GenId, k: nat) {
      forall i :: k <= i < |h| ==> h[i].program.assignee != id
    }

    lemma UnassignedMeans(h: seq<Moment>, id: GenId, k: nat)
      requires UnassignedSince(h, id, k) && h <= host.trace && k < |h|
      ensures forall i :: k <= i < |h| ==> host.trace[i].program.assignee != id
      ensures h[|h| - 1].program.assignee != id
    {
      forall i | k <= i < |h|
        ensures host.trace[i].program.assignee != id
      {
        assert host.trace[i] == h[i];
      }
    }

    lemma OnlyThese(h: seq<Moment>, active: GenId, assignee: GenId, listed: set<GenId>)
      requires Allocation.AssignedOnly(h, host.trace, {active, assignee})
      requires active == NO_GEN || active in listed
      requires assignee == NO_GEN || assignee in listed
      ensures Allocation.AssignedOnly(h, host.trace, listed)
    {
    }

    // ------------------------------------------------------------ preparing artifacts

    /** generationForIdentityLocked. No identity is ever mapped twice, so the search cannot
        be ambiguous. */
    method Lookup(identity: Identity) returns (found: Option<GenId>)
      requires Settled()
      ensures found.Some? ==> found.value in generations && generations[found.value].identity == identity
      ensures found.None? ==> forall id :: id in generations ==> generations[id].identity != identity
    {
      hide *;
      SettledParts();
      found := None;
      var todo := generations.Keys;
      while todo != {}
        invariant todo <= generations.Keys
        invariant found.Some? ==> found.value in generations && found.value !in todo && generations[found.value].identity == identity
        invariant found.None? ==> forall id :: id in generations && id !in todo ==> generations[id].identity != identity
        decreases |todo|
      {
        var id :| id in todo;
        if generations[id].identity == identity {
          if found.Some? {
            NotTwice(found.value, id);
            assert false;
          }
          found := Some(id);
        }
        todo := todo - {id};
      }
    }

    lemma NotTwice(i: GenId, j: GenId)
      requires GensOk(generations, host.cfg) && i in generations && j in generations
      requires generations[i].identity == generations[j].identity
      ensures i == j
    {
      hide GenOk, WithinBudgets, ValidGen;
    }

    /** connectionCounts: a snapshot of the namespace, if it can be had in time. */
    method ConnectionCounts(ghost w: Watch) returns (counts: Option<map<GenId, nat>>, ghost k: nat)
      requires Steady() && host.Watched(w)
      modifies faults, host`table, host`gone, host`trace, this`failed
      ensures unchanged(faults`unattended)
      ensures Steady() && host.Watched(w) && old(host.trace) <= host.trace
      ensures Disturbs(old(faults.Now()), faults.Now())
      ensures |old(host.trace)| <= k + 1 && k < |host.trace|
      ensures old(failed) <= failed && (counts.None? ==> old(failed) < failed)
      ensures counts.Some? ==> counts.value == NamespaceCounts(host.trace[k].table, host.cfg.port)
    {
      hide *;
      ghost var f := faults.Now();
      Disturbance(w);
      TableIsLast();
      k := |host.trace| - 1;
      var counted: bool := *;
      counts := if counted then Some(NamespaceCounts(host.table, host.cfg.port)) else None;
      if !counted {
        failed := failed + 1;
      }
      ghost var g := faults.Now();
      Disturbance(w);
      DisturbsIsTransitive(f, g, faults.Now());
    }

    /** Two programs that leave the same table in the kernel: either the same, or both none. */
    predicate SameTable(p: Program, q: Program) {
      p == q || (!Steers(p) && !Assigns(p) && !Steers(q) && !Assigns(q))
    }

    /** So they queue the same packets and assign the same marks. */
    lemma SameTableBehaves(p: Program, q: Program, f: Flow, mark: bv32, outbound: bool, flags: bv8, id: GenId, port: nat)
      requires SameTable(p, q)
      ensures QueuesTo(p, f, mark, outbound, flags, id, port) <==> QueuesTo(q, f, mark, outbound, flags, id, port)
      ensures SynMark(p, mark) == SynMark(q, mark)
    {
      hide AdapterFlow, Marks.Mark, Marks.Reserved, Marks.Assign;
    }

    /** verifyCurrentProgramLocked: reads the installed program back. */
    method VerifyCurrentProgram(ghost w: Watch) returns (ok: bool)
      requires Steady() && host.Watched(w)
      modifies faults, host`table, host`gone, host`trace, this`failed
      ensures unchanged(faults`unattended)
      ensures Steady() && host.Watched(w) && old(host.trace) <= host.trace
      ensures Disturbs(old(faults.Now()), faults.Now())
      ensures old(failed) <= failed
      ensures !ok ==> old(failed) < failed || !SameTable(host.program, Program(Live(generations), activeNew, false))
      ensures ok ==> SameTable(host.program, Program(Live(generations), activeNew, false))
    {
      hide *;
      Disturbance(w);
      ok := *;
      if !ok {
        failed := failed + 1;   // the table could not be read back
      }
      ok := ok && SameTable(host.program, Program(Live(generations), activeNew, false));
    }

    /** Reservations follow a snapshot. */
    method ReconcileReserved(counts: map<GenId, nat>)
      requires Settled() && forall id :: id in counts ==> ValidGen(id)
      modifies this`reserved
      ensures Settled() && reserved == Allocation.Reconciled(old(reserved), counts, generations.Keys)
    {
      hide *;
      SettledParts();
      ghost var before := reserved;
      reserved := Allocation.Reconcile(reserved, counts, generations.Keys);
      StillReservedOk(before, counts);
      SettledFrom();
    }

    lemma StillReservedOk(before: set<GenId>, counts: map<GenId, nat>)
      requires reserved == Allocation.Reconciled(before, counts, generations.Keys)
      requires forall id :: id in counts ==> ValidGen(id)
      ensures ReservedOk()
    {
      hide ValidGen;
    }

    /** nextGenerationLocked. */
    method NextGeneration() returns (id: GenId)
      requires Settled()
      ensures Allocation.IsLeastFree(id, generations.Keys + reserved)
    {
      UsedAreValid();
      hide *;
      id := Allocation.LeastFree(generations.Keys + reserved);
    }

    lemma UsedAreValid()
      requires Settled()
      ensures forall id :: id in generations.Keys + reserved ==> ValidGen(id)
    {
      hide GenOk, WithinBudgets, ValidGen, EnginesMatch, DiskCovers, ProgramWithin;
    }

    // ---- the recovery gate

    /** The proofs of establishRemediationGateLocked, between arming and opening. */
    method ProveGate(proofEpoch: nat, ghost w: Watch) returns (ok: bool, ghost k: nat)
      requires Steady() && Settled() && host.Watched(w)
      modifies faults, host`table, host`gone, host`trace, eng`byID, eng`log, eng`prepared, this`reserved, this`failed
      ensures unchanged(faults`unattended)
      ensures old(failed) <= failed
      ensures !ok && GateOpen(proofEpoch, old(faults.Now())) ==>
                old(failed) < failed || old(faults.epoch) < faults.epoch || !SameTable(host.program, Program(Live(generations), activeNew, false))
      ensures Steady() && Settled() && host.Watched(w) && old(host.trace) <= host.trace
      ensures old(eng.log) <= eng.log
      ensures Disturbs(old(faults.Now()), faults.Now())
      ensures eng.byID == old(eng.byID)
      ensures ok ==> SameTable(host.program, Program(Live(generations), activeNew, false))
      ensures Allocation.ReconciledAt(old(reserved), reserved, generations.Keys, old(host.trace), host.trace, host.cfg.port, k)
      ensures ok ==> |old(host.trace)| <= k + 1 && k < |host.trace|
      ensures ok ==> reserved == Allocation.Reconciled(old(reserved), NamespaceCounts(host.trace[k].table, host.cfg.port), generations.Keys)
    {
      hide *;
      ghost var f, h0 := faults.Now(), host.trace;
      k := 0;
      NowIs();
      ok := ThreeLoads(proofEpoch, w);
      NowIs();
      OpenStays(proofEpoch, f, faults.Now());
      Allocation.NotReconciled(reserved, generations.Keys, h0, host.trace, host.cfg.port, k);
      if !ok {
        return;
      }
      ghost var g := faults.Now();
      ok := VerifyCurrentProgram(w);
      DisturbsIsTransitive(f, g, faults.Now());
      NowIs();
      OpenStays(proofEpoch, f, faults.Now());
      OpenStays(proofEpoch, g, faults.Now());
      Allocation.NotReconciled(reserved, generations.Keys, h0, host.trace, host.cfg.port, k);
      if !ok {
        return;
      }
      g := faults.Now();
      ghost var before, h := reserved, host.trace;
      ok, k := ProveReservations(proofEpoch, w);
      Allocation.ReconciledStays(before, reserved, generations.Keys, h0, h, host.trace, host.trace, host.cfg.port, k);
      DisturbsIsTransitive(f, g, faults.Now());
      NowIs();
      OpenStays(proofEpoch, f, faults.Now());
      OpenStays(proofEpoch, g, faults.Now());
    }

    /** The snapshot, the retained engines, and only then the reservations. */
    method ProveReservations(proofEpoch: nat, ghost w: Watch) returns (ok: bool, ghost k: nat)
      requires Steady() && Settled() && host.Watched(w)
      modifies faults, host`table, host`gone, host`trace, eng`byID, eng`log, eng`prepared, this`reserved, this`failed
      ensures unchanged(faults`unattended)
      ensures old(failed) <= failed
      ensures !ok && GateOpen(proofEpoch, old(faults.Now())) ==>
                old(failed) < failed || old(faults.epoch) < faults.epoch
      ensures Steady() && Settled() && host.Watched(w) && old(host.trace) <= host.trace
      ensures old(eng.log) <= eng.log
      ensures Disturbs(old(faults.Now()), faults.Now())
      ensures eng.byID == old(eng.byID)
      ensures Allocation.ReconciledAt(old(reserved), reserved, generations.Keys, old(host.trace), host.trace, host.cfg.port, k)
      ensures ok ==> |old(host.trace)| <= k + 1 && k < |host.trace|
      ensures ok ==> reserved == Allocation.Reconciled(old(reserved), NamespaceCounts(host.trace[k].table, host.cfg.port), generations.Keys)
    {
      hide *;
      NowIs();
      ghost var f, h0, before := faults.Now(), host.trace, reserved;
      var counts;
      counts, k := ConnectionCounts(w);
      Allocation.NotReconciled(reserved, generations.Keys, h0, host.trace, host.cfg.port, k);
      NowIs();
      OpenStays(proofEpoch, f, faults.Now());
      if counts.None? {
        return false, k;
      }
      ghost var t, g := host.trace[k].table, faults.Now();
      ok := ThreeLoads(proofEpoch, w);
      DisturbsIsTransitive(f, g, faults.Now());
      NowIs();
      OpenStays(proofEpoch, f, faults.Now());
      OpenStays(proofEpoch, g, faults.Now());
      Allocation.NotReconciled(reserved, generations.Keys, h0, host.trace, host.cfg.port, k);
      if !ok {
        return;
      }
      CountedAreValid(t, host.cfg.port);
      g := faults.Now();
      ok := ReserveProven(proofEpoch, counts.value, w);
      DisturbsIsTransitive(f, g, faults.Now());
      OpenStays(proofEpoch, f, faults.Now());
      OpenStays(proofEpoch, g, faults.Now());
      NowIs();
      if reserved == before {
        Allocation.NotReconciled(before, generations.Keys, h0, host.trace, host.cfg.port, k);
      } else {
        Allocation.IsReconciled(before, reserved, generations.Keys, h0, host.trace, host.cfg.port, k);
      }
    }

    /** The retained engines are verified, and then the reservations follow the snapshot. */
    method ReserveProven(proofEpoch: nat, counts: map<GenId, nat>, ghost w: Watch) returns (ok: bool)
      requires Steady() && Settled() && host.Watched(w) && forall id :: id in counts ==> ValidGen(id)
      modifies faults, host`table, host`gone, host`trace, eng`byID, eng`log, eng`prepared, this`reserved
      ensures unchanged(faults`unattended)
      ensures Steady() && Settled() && host.Watched(w) && old(host.trace) <= host.trace
      ensures old(eng.log) <= eng.log && eng.byID == old(eng.byID)
      ensures Disturbs(old(faults.Now()), faults.Now())
      ensures !ok && GateOpen(proofEpoch, old(faults.Now())) ==> old(faults.epoch) < faults.epoch
      ensures reserved == old(reserved) || reserved == Allocation.Reconciled(old(reserved), counts, generations.Keys)
      ensures ok ==> reserved == Allocation.Reconciled(old(reserved), counts, generations.Keys)
    {
      hide *;
      NowIs();
      ok := VerifyLiveEngines();
      ghost var f := faults.Now();
      ok := ThreeLoads(proofEpoch, w);
      NowIs();
      if !ok {
        return;
      }
      OpenStays(proofEpoch, f, faults.Now());
      ReconcileReserved(counts);
      ghost var g := faults.Now();
      ok := ThreeLoads(proofEpoch, w);
      DisturbsIsTransitive(f, g, faults.Now());
      OpenStays(proofEpoch, g, faults.Now());
      NowIs();
    }

    /** establishRemediationGateLocked. The gate opens only over a verified neutral program,
        with every reservation proven against one snapshot and no signal since the sample
        (but for one a finished reconciliation swallowed). */
    method EstablishGate(ghost w: Watch) returns (ok: bool, ghost k: nat)
      requires Steady() && Settled() && host.Watched(w)
      requires AtRest(activeNew, eng.active, Stands(), faults.Now())
      modifies faults, host`table, host`gone, host`trace, eng`byID, eng`log, eng`prepared
      modifies this`reserved, this`remediation, this`remediationEpoch, this`failed
      ensures unchanged(faults`unattended)
      ensures old(failed) <= failed && old(faults.epoch) <= faults.epoch
      ensures !ok ==>
                || old(failed) < failed || old(faults.epoch) < faults.epoch || GateBarred(old(faults.reconciling))
                || !SameTable(host.program, Program(Live(generations), activeNew, false))
      ensures ok && faults.epoch == old(faults.epoch) ==> Unhindered(true, remediationEpoch)
      ensures Steady() && Settled() && host.Watched(w) && old(host.trace) <= host.trace
      ensures old(eng.log) <= eng.log
      ensures AtRest(activeNew, eng.active, Stands(), faults.Now())
      ensures eng.byID == old(eng.byID)
      ensures ok ==> activeNew == NO_GEN && isUnsafe && !persistFatal && remediation
      ensures ok ==> Proven(remediationEpoch, old(faults.Now()).Finishing(), faults.Now())
      ensures ok ==> SameTable(host.program, Program(Live(generations), NO_GEN, false))
      ensures Allocation.ReconciledAt(old(reserved), reserved, generations.Keys, old(host.trace), host.trace, host.cfg.port, k)
      ensures ok ==> k < |host.trace| && |old(host.trace)| <= k + 1
      ensures ok ==> reserved == Allocation.Reconciled(old(reserved), NamespaceCounts(host.trace[k].table, host.cfg.port), generations.Keys)
    {
      hide *;
      k := 0;
      StandsIs();
      ghost var f, h0, before := faults.Now(), host.trace, reserved;
      var proofEpoch;
      ok, proofEpoch := BeginGate(w);
      if !ok {
        Allocation.NotReconciled(before, generations.Keys, h0, host.trace, host.cfg.port, k);
        return;
      }
      ghost var g, h := faults.Now(), host.trace;
      NowIs();
      ok, k := OpenGate(proofEpoch, w);
      StandsIs();
      Allocation.ReconciledStays(before, reserved, generations.Keys, h0, h, host.trace, host.trace, host.cfg.port, k);
      if ok {
        ProvenSince(proofEpoch, f, g, faults.Now());
        NowIs();
        GateOpenIs(proofEpoch, g);
        if faults.epoch == proofEpoch {
          ProvenIsOpen(proofEpoch, f.Finishing(), faults.Now());
        }
        UnhinderedIs(true, remediationEpoch);
      }
    }

    /** Why the gate is not even tried: something is active, or nothing is wrong, or only a
        restart helps, or nobody can count, or a reconciliation is under way. */
    ghost predicate GateBarred(reconciling: bool)
      reads this`activeNew, this`isUnsafe, this`persistFatal
    {
      activeNew != NO_GEN || !isUnsafe || persistFatal || !host.cfg.hasCounter || reconciling
    }

    /** No recovery, or one whose gate is intact so far. */
    ghost predicate Unhindered(recovery: bool, epoch: nat)
      reads this`remediation, this`remediationEpoch, faults
    {
      recovery ==> remediation && remediationEpoch == epoch && GateOpen(epoch, faults.Now())
    }

    lemma UnhinderedIs(recovery: bool, epoch: nat)
      ensures Unhindered(recovery, epoch) <==>
                (recovery ==> remediation && remediationEpoch == epoch && GateOpen(epoch, faults.Now()))
    {
    }

    lemma BarredIs(reconciling: bool)
      ensures GateBarred(reconciling) <==>
                activeNew != NO_GEN || !isUnsafe || persistFatal || !host.cfg.hasCounter || reconciling
    {
    }

    /** The first checks of the gate; then the epoch is sampled and the guard armed. */
    method BeginGate(ghost w: Watch) returns (ok: bool, proofEpoch: nat)
      requires Steady() && Settled() && host.Watched(w)
      requires AtRest(activeNew, eng.active, Stands(), faults.Now())
      modifies faults, host`table, host`gone, host`trace, this`remediation, this`remediationEpoch, this`failed
      ensures unchanged(faults`unattended)
      ensures old(failed) <= failed && old(faults.epoch) <= faults.epoch
      ensures !ok ==> old(failed) < failed || old(faults.epoch) < faults.epoch || GateBarred(old(faults.reconciling))
      ensures ok && faults.epoch == old(faults.epoch) ==> GateOpen(proofEpoch, faults.Now())
      ensures Steady() && Settled() && host.Watched(w) && old(host.trace) <= host.trace
      ensures AtRest(activeNew, eng.active, Stands(), faults.Now())
      ensures Stirs(old(faults.Now()), faults.Now())
      ensures ok ==> activeNew == NO_GEN && isUnsafe && !persistFatal && !remediation && remediationEpoch == 0
    {
      hide *;
      proofEpoch := 0;
      StandsIs();
      NowIs();
      ghost var f, s := faults.Now(), Stands();
      BarredIs(faults.reconciling);
      DisturbsIsReflexive(f);
      DisturbsHeeds(f, f);
      if activeNew != NO_GEN || !isUnsafe || persistFatal {
        return false, proofEpoch;
      }
      Disturbance(w);
      KeptIsKept(f, s, faults.Now());
      StaysAtRest(f, s);
      DisturbsHeeds(f, faults.Now());
      DisturbsUnmoved(f, faults.Now());
      NowIs();
      var stateFile: bool := *;   // it is there and not empty
      if !stateFile {
        failed := failed + 1;
      }
      if !stateFile || !host.cfg.hasCounter || faults.reconciling {
        return false, proofEpoch;
      }
      ghost var g := faults.Now();
      proofEpoch := SampleAndArm(w);
      StirsIsTransitive(f, g, faults.Now());
      NowIs();
      ok := true;
    }

    /** The epoch is sampled before the guard is armed. */
    method SampleAndArm(ghost w: Watch) returns (proofEpoch: nat)
      requires Steady() && Settled() && host.Watched(w)
      requires AtRest(activeNew, eng.active, Stands(), faults.Now()) && !faults.reconciling
      modifies faults, host`table, host`gone, host`trace, this`remediation, this`remediationEpoch
      ensures unchanged(faults`unattended)
      ensures Steady() && Settled() && host.Watched(w) && old(host.trace) <= host.trace
      ensures AtRest(activeNew, eng.active, Stands(), faults.Now())
      ensures Stirs(old(faults.Now()), faults.Now()) && !remediation && remediationEpoch == 0
      ensures old(faults.epoch) <= faults.epoch
      ensures faults.epoch == old(faults.epoch) ==> GateOpen(proofEpoch, faults.Now())
    {
      hide *;
      ghost var f, s := faults.Now(), Stands();
      NowIs();
      StandsIs();
      Disturbance(w);
      KeptIsKept(f, s, faults.Now());
      StaysAtRest(f, s);
      proofEpoch := faults.epoch;
      ghost var g := faults.Now();
      DisturbsHeeds(f, g);
      DisturbsUnmoved(f, g);
      NowIs();
      remediation, remediationEpoch := false, 0;
      StandsIs();
      Arm();
      RestGate(activeNew, eng.active, s, g, false, 0, true);
      GuardStirs(g, true);
      StirsIsTransitive(f, g, faults.Now());
      StandsIs();
      NowIs();
      GateOpenIs(proofEpoch, faults.Now());
    }

    method OpenGate(proofEpoch: nat, ghost w: Watch) returns (ok: bool, ghost k: nat)
      requires Steady() && Settled() && host.Watched(w)
      requires AtRest(activeNew, eng.active, Stands(), faults.Now()) && !remediation && remediationEpoch == 0
      requires activeNew == NO_GEN && isUnsafe && !persistFatal
      modifies faults, host`table, host`gone, host`trace, eng`byID, eng`log, eng`prepared
      modifies this`reserved, this`remediation, this`remediationEpoch, this`failed
      ensures unchanged(faults`unattended)
      ensures old(failed) <= failed && old(faults.epoch) <= faults.epoch
      ensures !ok && GateOpen(proofEpoch, old(faults.Now())) ==>
                old(failed) < failed || old(faults.epoch) < faults.epoch || !SameTable(host.program, Program(Live(generations), activeNew, false))
      ensures Steady() && Settled() && host.Watched(w) && old(host.trace) <= host.trace
      ensures old(eng.log) <= eng.log
      ensures AtRest(activeNew, eng.active, Stands(), faults.Now())
      ensures eng.byID == old(eng.byID) && remediation == ok
      ensures ok ==> remediationEpoch == proofEpoch && Proven(remediationEpoch, old(faults.Now()).Finishing(), faults.Now())
      ensures ok ==> SameTable(host.program, Program(Live(generations), activeNew, false))
      ensures Allocation.ReconciledAt(old(reserved), reserved, generations.Keys, old(host.trace), host.trace, host.cfg.port, k)
      ensures ok ==> k < |host.trace| && |old(host.trace)| <= k + 1
      ensures ok ==> reserved == Allocation.Reconciled(old(reserved), NamespaceCounts(host.trace[k].table, host.cfg.port), generations.Keys)
    {
      hide *;
      NowIs();
      ghost var f, s := faults.Now(), Stands();
      StandsIs();
      ok, k := ProveToTheEnd(proofEpoch, w);
      KeptIsKept(f, s, faults.Now());
      StaysAtRest(f, s);
      OpenStays(proofEpoch, f, faults.Now());
      NowIs();
      f := faults.Now();
      if ok {
        RestGate(activeNew, eng.active, s, f, true, proofEpoch, faults.guard);
        remediation, remediationEpoch := true, proofEpoch;
      } else {
        RestGate(activeNew, eng.active, s, f, false, 0, false);
        Disarm();
      }
      NowIs();
      StandsIs();
    }

    /** The proofs, and the three loads once more after all of them. */
    method ProveToTheEnd(proofEpoch: nat, ghost w: Watch) returns (ok: bool, ghost k: nat)
      requires Steady() && Settled() && host.Watched(w)
      modifies faults, host`table, host`gone, host`trace, eng`byID, eng`log, eng`prepared, this`reserved, this`failed
      ensures unchanged(faults`unattended)
      ensures old(failed) <= failed
      ensures !ok && GateOpen(proofEpoch, old(faults.Now())) ==>
                old(failed) < failed || old(faults.epoch) < faults.epoch || !SameTable(host.program, Program(Live(generations), activeNew, false))
      ensures Steady() && Settled() && host.Watched(w) && old(host.trace) <= host.trace
      ensures old(eng.log) <= eng.log && eng.byID == old(eng.byID)
      ensures Disturbs(old(faults.Now()), faults.Now())
      ensures ok ==> Proven(proofEpoch, old(faults.Now()).Finishing(), faults.Now())
      ensures ok ==> SameTable(host.program, Program(Live(generations), activeNew, false))
      ensures Allocation.ReconciledAt(old(reserved), reserved, generations.Keys, old(host.trace), host.trace, host.cfg.port, k)
      ensures ok ==> k < |host.trace| && |old(host.trace)| <= k + 1
      ensures ok ==> reserved == Allocation.Reconciled(old(reserved), NamespaceCounts(host.trace[k].table, host.cfg.port), generations.Keys)
    {
      hide *;
      NowIs();
      ghost var f, before, h0 := faults.Now(), reserved, host.trace;
      ok, k := ProveGate(proofEpoch, w);
      ghost var mid, g := host.trace, faults.Now();
      NowIs();
      OpenStays(proofEpoch, f, g);
      if ok {
        ghost var t := host.trace[k].table;
        ok := ThreeLoads(proofEpoch, w);
        if ok {
          DisturbsHeeds(f, g);
          ProvenSince(proofEpoch, f, g, faults.Now());
        }
        DisturbsIsTransitive(f, g, faults.Now());
        NowIs();
        OpenStays(proofEpoch, g, faults.Now());
      }
      Allocation.ReconciledStays(before, reserved, generations.Keys, h0, h0, mid, host.trace, host.cfg.port, k);
    }

    /** recoveryGateIntactLocked. */
    method GateIntact(epoch: nat, ghost w: Watch) returns (ok: bool)
      requires Steady() && host.Watched(w)
      modifies faults, host`table, host`gone, host`trace
      ensures unchanged(faults`unattended)
      ensures Steady() && host.Watched(w) && old(host.trace) <= host.trace
      ensures Disturbs(old(faults.Now()), faults.Now())
      ensures !ok && old(Unhindered(true, epoch)) ==> old(faults.epoch) < faults.epoch
      ensures old(faults.epoch) <= faults.epoch && (faults.epoch == old(faults.epoch) && old(Unhindered(true, epoch)) ==> Unhindered(true, epoch))
      ensures ok ==> remediation && remediationEpoch == epoch && Proven(epoch, old(faults.Now()).Finishing(), faults.Now())
    {
      hide *;
      ghost var f := faults.Now();
      DisturbsIsReflexive(f);
      NowIs();
      UnhinderedIs(true, epoch);
      if !remediation || remediationEpoch != epoch {
        NowIs();
        return false;
      }
      ok := ThreeLoads(epoch, w);
      OpenStays(epoch, f, faults.Now());
      UnhinderedIs(true, epoch);
      NowIs();
    }

    // ---- admitting one artifact

    /** An engine has been published for id, which is not in `before`, the table that agrees
        with everything else. */
    ghost predicate Adding(before: Gens, id: GenId)
      reads this`serving, this`offloads, this`steeringInstalled, this`reserved
      reads host`program, host`disk, eng`byID, eng`prepared, eng`log
    {
      && serving
      && eng.Valid() && eng.library == host.cfg.library
      && id !in before && id in eng.byID && EnginesMatch(eng.byID - {id}, before)
      && GensOk(before, host.cfg)
      && DiskCovers(host.disk, before) && ProgramWithin(host.program, before)
      && (offloads.Some? ==> offloads.value == host.cfg.iface)
      && (steeringInstalled ==> Steers(host.program)) && ReservedOk()
    }

    lemma AddingParts(before: Gens, id: GenId)
      requires Adding(before, id)
      ensures serving && eng.Valid() && eng.library == host.cfg.library
      ensures id !in before && id in eng.byID && EnginesMatch(eng.byID - {id}, before) && GensOk(before, host.cfg)
      ensures DiskCovers(host.disk, before) && ProgramWithin(host.program, before)
      ensures offloads.Some? ==> offloads.value == host.cfg.iface
      ensures (steeringInstalled ==> Steers(host.program)) && ReservedOk()
    {
      hide GensOk, EnginesMatch, DiskCovers, ProgramWithin, Steers, Registry.Valid, ReservedOk;
    }

    lemma AddingFrom(before: Gens, id: GenId)
      requires serving && eng.Valid() && eng.library == host.cfg.library
      requires id !in before && id in eng.byID && EnginesMatch(eng.byID - {id}, before) && GensOk(before, host.cfg)
      requires DiskCovers(host.disk, before) && ProgramWithin(host.program, before)
      requires offloads.Some? ==> offloads.value == host.cfg.iface
      requires (steeringInstalled ==> Steers(host.program)) && ReservedOk()
      ensures Adding(before, id)
    {
      hide GensOk, EnginesMatch, DiskCovers, ProgramWithin, Steers, Registry.Valid, ReservedOk;
    }

    lemma Unregistered(gens: Gens, id: GenId)
      requires EnginesMatch(eng.byID, gens) && id !in gens
      ensures id !in eng.byID
    {
    }

    method Publish(id: GenId, dna: Dna) returns (ok: bool)
      requires Steady() && Settled() && id !in generations && host.cfg.library.scopeOf(dna).Some?
      modifies eng`byID, eng`log, eng`prepared
      ensures ok && Steady() && Adding(generations, id)
      ensures old(eng.log) <= eng.log
      ensures eng.byID[id].dna == dna && eng.byID - {id} == old(eng.byID)
    {
      hide *;
      SteadyFacts();
      SettledParts();
      Unregistered(generations, id);
      ghost var before := eng.byID;
      ok := eng.Prepare(id, dna);
      assert eng.byID - {id} == before;
      MoreEnginesAreSafe(host.program, before, eng.byID, host.disk, host.cfg);
      SteadyFrom();
      AddingFrom(generations, id);
    }

    method Withdraw(id: GenId)
      requires Steady() && Adding(generations, id) && ActiveOk(generations, activeNew) && eng.active != id
      modifies eng`byID, eng`log
      ensures Steady() && Settled() && eng.byID == old(eng.byID) - {id}
      ensures old(eng.log) <= eng.log
    {
      hide *;
      SteadyFacts();
      AddingParts(generations, id);
      var removed := eng.Remove(id);
      assert removed;
      AgreementIsSafe(host.program, eng.byID, host.disk, generations, host.cfg);
      SteadyFrom();
      SettledFrom();
    }

    /** prepareArtifactLocked: checks the artifact, publishes its engine and lists it. */
    method PrepareArtifact(id: GenId, a: Artifact) returns (ok: bool)
      requires Steady() && Settled() && id !in generations && eng.active != id
      modifies eng`byID, eng`log, eng`prepared, this`generations
      ensures Steady()
      ensures old(eng.log) <= eng.log
      ensures !ok ==> Settled() && generations == old(generations) && eng.byID == old(eng.byID)
      ensures ok <==> Preparable(a, host.cfg)
      ensures ok ==> generations == old(generations)[id := NewGen(a, host.cfg)] && Adding(old(generations), id)
      ensures ok ==> eng.byID[id].dna == a.payload && eng.byID - {id} == old(eng.byID)
    {
      hide *;
      SettledParts();
      PreparableMeans(a, host.cfg);
      if |a.payload| > MAX_ARTIFACT || !ArtifactFits(a, host.cfg) || host.cfg.library.scopeOf(a.payload).None? {
        return false;
      }
      ghost var byID := eng.byID;
      ok := Publish(id, a.payload);
      if !IdentityValid(a.metadata.Id(), host.cfg.library.digestOf(a.payload)) {
        Withdraw(id);
        return false;
      }
      generations := generations[id := NewGen(a, host.cfg)];
    }

    static lemma PreparableMeans(a: Artifact, cfg: Config)
      ensures Preparable(a, cfg) <==>
                && |a.payload| <= MAX_ARTIFACT && ArtifactFits(a, cfg) && cfg.library.scopeOf(a.payload).Some?
                && IdentityValid(a.metadata.Id(), cfg.library.digestOf(a.payload))
    {
      hide ArtifactFits, IdentityValid;
    }

    static lemma NewGenFacts(a: Artifact, cfg: Config)
      requires Preparable(a, cfg)
      ensures NewGen(a, cfg).dna == a.payload && NewGen(a, cfg).identity == a.metadata.Id()
      ensures NewGen(a, cfg).metadata == a.metadata && NewGen(a, cfg).phase == Prepared
      ensures GenOk(NewGen(a, cfg), cfg)
    {
      hide Preparable, ScopeFor;
    }

    /** Takes a listed entry back out. */
    method Drop(id: GenId, ghost before: Gens, g: Gen)
      requires Steady() && Adding(before, id) && generations == before[id := g]
      requires ActiveOk(before, activeNew) && eng.active != id
      modifies eng`byID, eng`log, this`generations
      ensures Steady() && Settled() && generations == before && eng.byID == old(eng.byID) - {id}
      ensures old(eng.log) <= eng.log
    {
      hide *;
      AddingParts(before, id);
      generations := generations - {id};
      assert generations == before;
      Withdraw(id);
    }

    /** Makes a listed entry durable. */
    method PersistAdded(id: GenId, ghost before: Gens, g: Gen, ghost w: Watch) returns (ok: bool)
      requires Steady() && host.Watched(w) && Adding(before, id) && generations == before[id := g]
      requires ActiveOk(before, activeNew) && GenOk(g, host.cfg) && ValidGen(id) && eng.byID[id].dna == g.dna
      requires (forall i :: i in before ==> before[i].identity != g.identity)
      requires |before| < host.cfg.maxGenerations && WithinBudgets(generations, host.cfg)
      modifies faults, host`table, host`gone, host`trace, host`disk, host`written, this`failed
      modifies this`persistFatal, this`isUnsafe, this`remediation, this`remediationEpoch, this`reports
      ensures unchanged(faults`unattended)
      ensures Steady() && host.Watched(w) && old(host.trace) <= host.trace && old(failed) <= failed
      ensures old(reports) <= reports
      ensures KeptOrFatal(old(faults.Now()), old(Stands()), faults.Now(), Stands())
      ensures ok ==> Settled() && DiskIsImage() && Stands() == old(Stands())
      ensures !ok ==> persistFatal && Adding(before, id) && old(failed) < failed
    {
      hide *;
      AddingParts(before, id);
      OneMoreIsOk(before, id, g, host.cfg);
      OneMoreAgrees(before, id, g, eng.byID, host.program);
      OneMoreActive(before, id, g, activeNew);
      ViewIsOk();
      forall f | IsImage(f, ThisView())
        ensures SafeFor(host.program, DnasOf(eng.byID), Stored(f), host.cfg)
      {
        ImageCovers(f, ThisView());
        AgreementIsSafe(host.program, eng.byID, Stored(f), generations, host.cfg);
      }
      ghost var v := ThisView();
      ok := Persist(w);
      if ok {
        ImageOnDiskCovers();
        SettledFrom();
      } else {
        if host.disk.Stored? && IsImage(host.disk.file, v) {
          ImageCovers(host.disk.file, v);
          CoveredWithout(before, id, g, host.disk);
        }
        AddingFrom(before, id);
      }
    }

    lemma ViewIsOk()
      requires GensOk(generations, host.cfg) && ActiveOk(generations, activeNew)
      requires offloads.Some? ==> offloads.value == host.cfg.iface
      ensures ViewOk(ThisView(), host.cfg) && ThisView().gens == generations
    {
      hide GensOk, ActiveOk;
    }

    /** The checks between listing an entry and persisting it. */
    method MayKeep(recovery: bool, epoch: nat, ghost w: Watch) returns (ok: bool)
      requires Steady() && host.Watched(w)
      modifies faults, host`table, host`gone, host`trace
      ensures unchanged(faults`unattended)
      ensures Steady() && host.Watched(w) && old(host.trace) <= host.trace
      ensures Disturbs(old(faults.Now()), faults.Now())
      ensures ok ==> WithinBudgets(generations, host.cfg)
      ensures !ok && WithinBudgets(generations, host.cfg) && old(Unhindered(recovery, epoch)) ==>
                recovery && old(faults.epoch) < faults.epoch
    {
      hide *;
      ghost var f := faults.Now();
      DisturbsIsReflexive(f);
      UnhinderedIs(recovery, epoch);
      UnhinderedIs(true, epoch);
      ok := true;
      if recovery {
        ok := GateIntact(epoch, w);
      }
      ok := ok && WithinBudgets(generations, host.cfg);
      if ok && recovery {
        ghost var g := faults.Now();
        ok := GateIntact(epoch, w);
        DisturbsIsTransitive(f, g, faults.Now());
      }
    }

    /** Keeps a listed entry if it may be kept and persists, and takes it back out if not. */
    method Keep(id: GenId, ghost before: Gens, g: Gen, recovery: bool, epoch: nat, ghost w: Watch) returns (ok: bool)
      requires Steady() && host.Watched(w) && Adding(before, id) && generations == before[id := g]
      requires AtRest(activeNew, eng.active, Stands(), faults.Now())
      requires ActiveOk(before, activeNew) && GenOk(g, host.cfg) && ValidGen(id) && eng.byID[id].dna == g.dna
      requires eng.active != id && |before| < host.cfg.maxGenerations
      requires forall i :: i in before ==> before[i].identity != g.identity
      modifies faults, host`table, host`gone, host`trace, host`disk, host`written, eng`byID, eng`log
      modifies this`failed, this`generations, this`persistFatal, this`isUnsafe, this`remediation
      modifies this`remediationEpoch, this`reports
      ensures unchanged(faults`unattended)
      ensures Steady() && Settled() && host.Watched(w) && old(host.trace) <= host.trace && old(failed) <= failed
      ensures old(eng.log) <= eng.log
      ensures old(reports) <= reports
      ensures AtRest(activeNew, eng.active, Stands(), faults.Now())
      ensures ok ==> generations == before[id := g] && DiskIsImage() && Stands() == old(Stands())
      ensures persistFatal ==> old(persistFatal) || old(failed) < failed
      ensures Stirs(old(faults.Now()), faults.Now())
      ensures !ok ==> generations == before
      ensures !ok && old(Unhindered(recovery, epoch)) ==>
                || old(failed) < failed || !WithinBudgets(before[id := g], host.cfg)
                || (recovery && old(faults.epoch) < faults.epoch)
    {
      hide *;
      ghost var f, s := faults.Now(), Stands();
      ghost var f0 := f;
      ok := MayKeep(recovery, epoch, w);
      KeptIsKept(f, s, faults.Now());
      StaysAtRest(f, s);
      StandsIs();
      DisturbsHeeds(f, faults.Now());
      if ok {
        f := faults.Now();
        ok := PersistAdded(id, before, g, w);
        StaysAtRest(f, s);
        StandsIs();
        KeptUnlessFatal(f, s, faults.Now(), Stands());
        StirsIsTransitive(f0, f, faults.Now());
      }
      if !ok {
        Drop(id, before, g);
      }
    }

    /** Admits an artifact under an unused ID. For a recovery the gate must still be intact
        after every step; whatever fails, the entry and its engine are gone again. */
    method AddEntry(id: GenId, a: Artifact, recovery: bool, epoch: nat, ghost w: Watch) returns (ok: bool)
      requires Steady() && Settled() && host.Watched(w) && AtRest(activeNew, eng.active, Stands(), faults.Now())
      requires ValidGen(id) && id !in generations && |generations| < host.cfg.maxGenerations
      requires forall i :: i in generations ==> generations[i].identity != a.metadata.Id()
      modifies faults, host`table, host`gone, host`trace, host`disk, host`written, eng`byID, eng`log
      modifies eng`prepared, this`failed, this`generations, this`persistFatal, this`isUnsafe, this`remediation
      modifies this`remediationEpoch, this`reports
      ensures unchanged(faults`unattended)
      ensures Steady() && Settled() && host.Watched(w) && old(host.trace) <= host.trace && old(failed) <= failed
      ensures old(eng.log) <= eng.log
      ensures old(reports) <= reports
      ensures AtRest(activeNew, eng.active, Stands(), faults.Now())
      ensures ok ==> Preparable(a, host.cfg) && generations == old(generations)[id := NewGen(a, host.cfg)] && DiskIsImage()
      ensures ok ==> Stands() == old(Stands())
      ensures Stirs(old(faults.Now()), faults.Now())
      ensures persistFatal ==> old(persistFatal) || old(failed) < failed
      ensures !ok ==> generations == old(generations)
      ensures !ok && old(Unhindered(recovery, epoch)) && Preparable(a, host.cfg) ==>
                || old(failed) < failed || !WithinBudgets(generations[id := NewGen(a, host.cfg)], host.cfg)
                || (recovery && old(faults.epoch) < faults.epoch)
    {
      hide *;
      MayAdd(id);
      ghost var before := generations;
      DisturbsIsReflexive(faults.Now());
      DisturbsHeeds(faults.Now(), faults.Now());
      UnhinderedIs(recovery, epoch);
      ok := PrepareArtifact(id, a);
      if ok {
        NewGenFacts(a, host.cfg);
        UnhinderedIs(recovery, epoch);
        ok := Keep(id, before, NewGen(a, host.cfg), recovery, epoch, w);
      }
    }

    lemma MayAdd(id: GenId)
      requires Settled() && AtRest(activeNew, eng.active, Stands(), faults.Now()) && ValidGen(id) && id !in generations
      ensures ActiveOk(generations, activeNew) && eng.active != id
    {
      SettledParts();
      hide *;
      RestEngine(activeNew, eng.active, Stands(), faults.Now());
      NotListed(id);
    }

    lemma NotListed(id: GenId)
      requires ActiveOk(generations, activeNew) && ValidGen(id) && id !in generations
      ensures activeNew != id && id != NO_GEN
    {
    }

    // ------------------------------------------------------------ the adapter's operations

    /** The entry an artifact is mapped to, if it is mapped with exactly this content. */
    predicate Holds(id: GenId, a: Artifact)
      reads this`generations
    {
      id in generations && generations[id].dna == a.payload && generations[id].metadata == a.metadata
      && generations[id].identity == a.metadata.Id()
    }

    /** The artifact is mapped already, or there is room, a number and a budget for it. */
    ghost predicate CanAdmit(a: Artifact)
      reads this`generations, this`reserved
    {
      Admits(generations, reserved, host.cfg, a)
    }

    static ghost predicate Admits(gens: Gens, reserved: set<GenId>, cfg: Config, a: Artifact) {
      if MappedIn(gens, a.metadata.Id()) then
        exists id :: id in gens && gens[id].dna == a.payload && gens[id].metadata == a.metadata && gens[id].identity == a.metadata.Id()
      else
        && |gens| < cfg.maxGenerations && Preparable(a, cfg)
        && exists id :: id != NO_GEN && Allocation.IsLeastFree(id, gens.Keys + reserved) && FitsIn(gens, id, a, cfg)
    }

    ghost predicate Mapped(identity: Identity)
      reads this`generations
    {
      MappedIn(generations, identity)
    }

    static ghost predicate MappedIn(gens: Gens, identity: Identity) {
      exists id :: id in gens && gens[id].identity == identity
    }

    static ghost predicate FitsIn(gens: Gens, id: GenId, a: Artifact, cfg: Config)
      requires Preparable(a, cfg)
    {
      WithinBudgets(gens[id := NewGen(a, cfg)], cfg)
    }

    ghost predicate FitsAs(id: GenId, a: Artifact)
      requires Preparable(a, host.cfg)
      reads this`generations
    {
      FitsIn(generations, id, a, host.cfg)
    }

    lemma AdmissionIs(a: Artifact)
      ensures CanAdmit(a) == Admits(generations, reserved, host.cfg, a)
    {
    }

    /** A mapping with other content is the only mapping there is. */
    lemma OnlyMapping(id: GenId, a: Artifact)
      requires Settled() && id in generations && generations[id].identity == a.metadata.Id() && CanAdmit(a)
      ensures generations[id].dna == a.payload && generations[id].metadata == a.metadata
    {
      hide *;
      SettledParts();
      var other := SomeHolder(id, a);
      NotTwice(id, other);
    }

    lemma SomeHolder(id: GenId, a: Artifact) returns (other: GenId)
      requires id in generations && generations[id].identity == a.metadata.Id() && CanAdmit(a)
      ensures other in generations && generations[other].identity == a.metadata.Id()
      ensures generations[other].dna == a.payload && generations[other].metadata == a.metadata
    {
      hide FitsIn, Preparable, Allocation.IsLeastFree;
      assert Mapped(a.metadata.Id());
      other :| other in generations && generations[other].dna == a.payload && generations[other].metadata == a.metadata
               && generations[other].identity == a.metadata.Id();
    }

    /** An unmapped artifact that can be admitted fits, under the number it will get. */
    lemma UnmappedFits(id: GenId, a: Artifact)
      requires Settled() && CanAdmit(a) && (forall i :: i in generations ==> generations[i].identity != a.metadata.Id())
      ensures |generations| < host.cfg.maxGenerations && Preparable(a, host.cfg)
      ensures Allocation.IsLeastFree(id, generations.Keys + reserved) ==> id != NO_GEN && FitsAs(id, a)
    {
      hide Settled, WithinBudgets, Preparable, Holds, Allocation.IsLeastFree;
      assert !Mapped(a.metadata.Id());
      var other :| other != NO_GEN && Allocation.IsLeastFree(other, generations.Keys + reserved) && FitsAs(other, a);
      if Allocation.IsLeastFree(id, generations.Keys + reserved) {
        Allocation.LeastFreeIsUnique(id, other, generations.Keys + reserved);
      }
    }

    lemma FitsAsMeans(id: GenId, a: Artifact)
      requires Preparable(a, host.cfg)
      ensures FitsAs(id, a) <==> WithinBudgets(generations[id := NewGen(a, host.cfg)], host.cfg)
    {
      hide WithinBudgets, NewGen, Preparable;
    }

    lemma HoldsNew(id: GenId, a: Artifact)
      requires Preparable(a, host.cfg) && id in generations && generations[id] == NewGen(a, host.cfg)
      ensures Holds(id, a)
    {
      hide Preparable, ScopeFor;
    }

    /** Prepare. With a fault latched it goes through the recovery gate, and whatever ID it
        hands out then was carried by no flow in the gate's snapshot. */
    method Prepare(a: Artifact) returns (ok: bool, id: GenId, ghost k: nat)
      requires Valid()
      modifies faults, host`table, host`gone, host`trace, host`disk, host`written, eng`byID, eng`log
      modifies eng`prepared, this`failed, this`generations, this`reserved, this`persistFatal, this`isUnsafe
      modifies this`remediation, this`remediationEpoch, this`reports
      ensures unchanged(faults`unattended)
      ensures Valid() && old(host.trace) <= host.trace && old(failed) <= failed
      ensures old(eng.log) <= eng.log && old(generations).Keys <= generations.Keys
      ensures Allocation.AssignedOnly(old(host.trace), host.trace, old(generations).Keys)
      ensures Allocation.ReconciledAt(old(reserved), reserved, old(generations).Keys, old(host.trace), host.trace, host.cfg.port, k)
      ensures old(reports) <= reports
      ensures !old(faults.latched) ==> reserved == old(reserved) && Stirs(old(faults.Now()), faults.Now())
      ensures ok && old(faults.latched) ==>
                && |old(host.trace)| <= k + 1 && k < |host.trace|
                && reserved == Allocation.Reconciled(old(reserved), NamespaceCounts(host.trace[k].table, host.cfg.port), old(generations).Keys)
      ensures ok ==> Holds(id, a) && activeNew == old(activeNew)
      ensures ok && id in old(generations) ==> generations == old(generations)
      ensures ok && id !in old(generations) ==>
                && Preparable(a, host.cfg) && generations == old(generations)[id := NewGen(a, host.cfg)] && DiskIsImage()
                && Allocation.IsLeastFree(id, old(generations).Keys + reserved) && id != NO_GEN
      ensures ok && id !in old(generations) && old(faults.latched) ==>
                |old(host.trace)| <= k + 1 && k < |host.trace| && !Carried(host.trace[k].table, host.cfg.port, id)
      ensures !ok ==> generations == old(generations)
      // refused only for a reason
      ensures !ok && !old(faults.latched) ==>
                || !ArtifactFits(a, host.cfg) || !ArtifactVerifies(a.metadata.Id(), a.payload, host.cfg)
                || !old(CanAdmit(a)) || old(failed) < failed
      ensures !ok && old(faults.latched) ==>
                || !ArtifactFits(a, host.cfg) || !ArtifactVerifies(a.metadata.Id(), a.payload, host.cfg)
                || old(failed) < failed || old(faults.epoch) < faults.epoch || old(GateBarred(faults.reconciling))
                || !SameTable(host.program, Program(Live(generations), activeNew, false)) || !CanAdmit(a)
    {
      hide *;
      NothingStirs(faults.Now());
      id, k := NO_GEN, 0;
      ValidParts();
      BarredIs(faults.reconciling);
      Listed();
      ghost var h0, before, known := host.trace, reserved, generations.Keys;
      Allocation.NotReconciled(before, known, h0, h0, host.cfg.port, k);
      Allocation.NothingAssigned(h0, known);
      if !ArtifactFits(a, host.cfg) || !ArtifactVerifies(a.metadata.Id(), a.payload, host.cfg) {
        return false, id, k;
      }
      WatchFrom({});
      ghost var w := Watch(|host.trace| - 1, {}, {host.program});
      var recovery, epoch := faults.latched, 0;
      if recovery {
        ok, k := EstablishGate(w);
        if !ok {
          OnlyListed(h0, w, known);
          ValidFrom();
          return;
        }
        epoch := remediationEpoch;
        AdmissionIs(a);
      }
      ghost var h := host.trace;
      UnhinderedIs(recovery, epoch);
      ok, id := Admit(a, recovery, epoch, w);
      AdmissionIs(a);
      if ok && recovery && id !in known {
        Allocation.HandedOutIdIsUncarried(id, before, known, host.trace[k].table, host.cfg.port);
      }
      Allocation.ReconciledStays(before, reserved, known, h0, h0, h, host.trace, host.cfg.port, k);
      OnlyListed(h0, w, known);
      ValidFrom();
    }

    /** Prepare, past the gate. */
    method Admit(a: Artifact, recovery: bool, epoch: nat, ghost w: Watch) returns (ok: bool, id: GenId)
      requires Steady() && Settled() && host.Watched(w) && AtRest(activeNew, eng.active, Stands(), faults.Now())
      modifies faults, host`table, host`gone, host`trace, host`disk, host`written, eng`byID, eng`log
      modifies eng`prepared, this`failed, this`generations, this`persistFatal, this`isUnsafe, this`remediation
      modifies this`remediationEpoch, this`reports
      ensures unchanged(faults`unattended)
      ensures Steady() && Settled() && host.Watched(w) && old(host.trace) <= host.trace && old(failed) <= failed
      ensures old(eng.log) <= eng.log
      ensures old(reports) <= reports
      ensures AtRest(activeNew, eng.active, Stands(), faults.Now())
      ensures ok ==> Holds(id, a)
      ensures ok && id in old(generations) ==> generations == old(generations)
      ensures ok && id !in old(generations) ==>
                && Preparable(a, host.cfg) && generations == old(generations)[id := NewGen(a, host.cfg)] && DiskIsImage()
                && Allocation.IsLeastFree(id, old(generations).Keys + reserved) && id != NO_GEN
      ensures !ok ==> generations == old(generations)
      ensures old(faults.epoch) <= faults.epoch
      ensures !recovery ==> Stirs(old(faults.Now()), faults.Now())
      ensures !ok && old(Unhindered(recovery, epoch)) ==>
                !old(CanAdmit(a)) || old(failed) < failed || (recovery && old(faults.epoch) < faults.epoch)
    {
      hide *;
      NothingStirs(faults.Now());
      id := NO_GEN;
      ghost var f, s := faults.Now(), Stands();
      ghost var can := CanAdmit(a);
      var found := Lookup(a.metadata.Id());
      if found.Some? {
        id := found.value;
        if can {
          OnlyMapping(id, a);
        }
        ok := generations[id].dna == a.payload && generations[id].metadata == a.metadata;
        if ok && recovery {
          ok := GateIntact(epoch, w);
          KeptIsKept(f, s, faults.Now());
          StaysAtRest(f, s);
        }
        if ok {
          IsHeld(id, a);
        }
        return;
      }
      ok, id := AdmitNew(a, recovery, epoch, w);
    }

    static lemma NothingStirs(f: Faults)
      ensures Stirs(f, f) && Disturbs(f, f)
    {
    }

    /** Prepare, for an identity that is not mapped yet. */
    method AdmitNew(a: Artifact, recovery: bool, epoch: nat, ghost w: Watch) returns (ok: bool, id: GenId)
      requires Steady() && Settled() && host.Watched(w) && AtRest(activeNew, eng.active, Stands(), faults.Now())
      requires forall i :: i in generations ==> generations[i].identity != a.metadata.Id()
      modifies faults, host`table, host`gone, host`trace, host`disk, host`written, eng`byID, eng`log
      modifies eng`prepared, this`failed, this`generations, this`persistFatal, this`isUnsafe, this`remediation
      modifies this`remediationEpoch, this`reports
      ensures unchanged(faults`unattended)
      ensures Steady() && Settled() && host.Watched(w) && old(host.trace) <= host.trace && old(failed) <= failed
      ensures old(eng.log) <= eng.log
      ensures old(reports) <= reports
      ensures AtRest(activeNew, eng.active, Stands(), faults.Now())
      ensures ok ==> Holds(id, a) && id !in old(generations)
      ensures ok ==>
                && Preparable(a, host.cfg) && generations == old(generations)[id := NewGen(a, host.cfg)] && DiskIsImage()
                && Allocation.IsLeastFree(id, old(generations).Keys + reserved) && id != NO_GEN
      ensures !ok ==> generations == old(generations)
      ensures old(faults.epoch) <= faults.epoch
      ensures !recovery ==> Stirs(old(faults.Now()), faults.Now())
      ensures !ok && old(Unhindered(recovery, epoch)) ==>
                !old(CanAdmit(a)) || old(failed) < failed || (recovery && old(faults.epoch) < faults.epoch)
    {
      hide *;
      NothingStirs(faults.Now());
      if |generations| >= host.cfg.maxGenerations {
        Unmapped(NO_GEN, a);
        return false, NO_GEN;
      }
      id := NextGeneration();
      Unmapped(id, a);
      if id == NO_GEN {
        return false, id;
      }
      LeastFreeIsFree(id);
      NowIs();
      if recovery {
        UnhinderedIs(true, epoch);
        ghost var f, s := faults.Now(), Stands();
        ok := GateIntact(epoch, w);
        KeptIsKept(f, s, faults.Now());
        StaysAtRest(f, s);
        UnhinderedIs(true, epoch);
        if !ok {
          return;
        }
      }
      ghost var f1 := faults.Now();
      NowIs();
      ok := AddEntry(id, a, recovery, epoch, w);
      StirsEpoch(f1, faults.Now());
      NowIs();
      if ok {
        HoldsNew(id, a);
      }
    }

    lemma Unmapped(id: GenId, a: Artifact)
      requires Settled() && forall i :: i in generations ==> generations[i].identity != a.metadata.Id()
      ensures CanAdmit(a) ==> |generations| < host.cfg.maxGenerations && Preparable(a, host.cfg)
      ensures CanAdmit(a) && Allocation.IsLeastFree(id, generations.Keys + reserved) ==>
                id != NO_GEN && WithinBudgets(generations[id := NewGen(a, host.cfg)], host.cfg)
    {
      hide *;
      if CanAdmit(a) {
        UnmappedFits(id, a);
        FitsAsMeans(id, a);
      }
    }

    lemma OnlyHolder(found: Option<GenId>, a: Artifact)
      requires Settled()
      requires found.Some? ==> found.value in generations && generations[found.value].identity == a.metadata.Id()
      requires found.None? ==> forall id :: id in generations ==> generations[id].identity != a.metadata.Id()
      ensures forall id :: Holds(id, a) ==>
                && id in generations && found == Some(id)
                && generations[id].dna == a.payload && generations[id].metadata == a.metadata
    {
      hide *;
      SettledParts();
      forall id | Holds(id, a)
        ensures id in generations && found == Some(id) && generations[id].dna == a.payload && generations[id].metadata == a.metadata
      {
        HoldsMeans(id, a);
        if found.Some? {
          NotTwice(id, found.value);
        }
      }
    }

    lemma HoldsMeans(id: GenId, a: Artifact)
      requires Holds(id, a)
      ensures id in generations && generations[id].dna == a.payload && generations[id].metadata == a.metadata
      ensures generations[id].identity == a.metadata.Id()
    {
    }

    lemma HeldFits(id: GenId, a: Artifact)
      requires Settled() && Holds(id, a)
      ensures ArtifactFits(a, host.cfg)
    {
      SettledParts();
      hide *;
      HoldsMeans(id, a);
      AllAreOk(generations, host.cfg);
      OkFits(generations[id], host.cfg);
      assert a == Artifact(generations[id].metadata, generations[id].dna);
    }

    static lemma AllAreOk(gens: Gens, cfg: Config)
      requires GensOk(gens, cfg)
      ensures forall id :: id in gens ==> GenOk(gens[id], cfg)
    {
      hide GenOk, WithinBudgets;
    }

    static lemma OkFits(g: Gen, cfg: Config)
      requires GenOk(g, cfg)
      ensures ArtifactFits(Artifact(g.metadata, g.dna), cfg)
    {
      hide ArtifactFits, NewGen;
    }

    /** A durability failure shuts the recovery gate for good. */
    lemma FatalShutsTheGate()
      requires Valid()
      ensures persistFatal ==> !remediation
    {
      hide *;
      ValidParts();
      StandsIs();
      RestGated(activeNew, eng.active, Stands(), faults.Now());
    }

    lemma IsHeld(id: GenId, a: Artifact)
      requires id in generations && generations[id].dna == a.payload && generations[id].metadata == a.metadata
      requires generations[id].identity == a.metadata.Id()
      ensures Holds(id, a)
    {
    }

    lemma LeastFreeIsFree(id: GenId)
      requires Allocation.IsLeastFree(id, generations.Keys + reserved) && id != NO_GEN
      ensures id !in generations && ValidGen(id)
    {
      hide ValidGen;
    }

    /** No fault is latched, or nothing is active, the state file can be written and the
        recovery gate is intact. */
    ghost predicate Permitted()
      reads this`activeNew, this`persistFatal, this`remediation, this`remediationEpoch, faults
    {
      faults.latched ==> activeNew == NO_GEN && !persistFatal && Unhindered(true, remediationEpoch)
    }

    lemma PermittedIs()
      ensures Permitted() <==> (faults.latched ==> activeNew == NO_GEN && !persistFatal && Unhindered(true, remediationEpoch))
    {
    }

    /** The kernel has what the table says. */
    ghost predicate InForce()
      reads this`generations, this`activeNew, host`program
    {
      SameTable(host.program, Program(Live(generations), activeNew, false))
    }

    lemma InForceIs()
      ensures InForce() <==> SameTable(host.program, Program(Live(generations), activeNew, false))
    {
    }

    /** Whether an activation may go on: with no fault latched, or as a repair through an
        intact recovery gate. */
    method MayActivate(ghost w: Watch) returns (allowed: bool, repair: bool)
      requires Steady() && Settled() && host.Watched(w) && AtRest(activeNew, eng.active, Stands(), faults.Now())
      modifies faults, host`table, host`gone, host`trace
      ensures unchanged(faults`unattended)
      ensures Steady() && Settled() && host.Watched(w) && old(host.trace) <= host.trace
      ensures AtRest(activeNew, eng.active, Stands(), faults.Now())
      ensures allowed && !repair ==> !isUnsafe && Attended(faults.Now())
      ensures old(faults.epoch) <= faults.epoch
      ensures !allowed && old(Permitted()) ==> faults.epoch > old(faults.epoch)
      ensures repair && faults.epoch == old(faults.epoch) && old(Permitted()) ==> Unhindered(true, remediationEpoch)
      ensures repair ==> remediation && activeNew == NO_GEN && !persistFatal && old(faults.latched)
      ensures Disturbs(old(faults.Now()), faults.Now())
    {
      hide *;
      ghost var f, s := faults.Now(), Stands();
      NowIs();
      PermittedIs();
      repair := TryGate(w);
      ghost var g := faults.Now();
      NowIs();
      UnhinderedIs(true, remediationEpoch);
      Disturbance(w);
      DisturbsIsTransitive(f, g, faults.Now());
      KeptIsKept(f, s, faults.Now());
      StaysAtRest(f, s);
      QuietIsAttended(activeNew, eng.active, s, faults.Now());
      DisturbsUnmoved(f, faults.Now());
      DisturbsUnmoved(g, faults.Now());
      GateOpenIs(remediationEpoch, g);
      UnhinderedIs(true, remediationEpoch);
      StaysUnhindered(g);
      NowIs();
      StandsIs();
      allowed := !faults.latched || repair;
    }

    /** Whether the recovery gate, if there is any point in it, is intact. */
    method TryGate(ghost w: Watch) returns (repair: bool)
      requires Steady() && host.Watched(w)
      modifies faults, host`table, host`gone, host`trace
      ensures unchanged(faults`unattended)
      ensures Steady() && host.Watched(w) && old(host.trace) <= host.trace
      ensures Disturbs(old(faults.Now()), faults.Now()) && old(faults.epoch) <= faults.epoch
      ensures repair ==> remediation && activeNew == NO_GEN && !persistFatal && old(faults.latched)
      ensures !repair && old(faults.latched) && old(Permitted()) ==> old(faults.epoch) < faults.epoch
      ensures repair && faults.epoch == old(faults.epoch) && old(Permitted()) ==> Unhindered(true, remediationEpoch)
    {
      hide *;
      NowIs();
      PermittedIs();
      repair := false;
      DisturbsIsReflexive(faults.Now());
      if faults.latched && activeNew == NO_GEN && !persistFatal {
        repair := GateIntact(remediationEpoch, w);
      }
    }

    lemma StaysUnhindered(f: Faults)
      requires Disturbs(f, faults.Now())
      ensures remediation && GateOpen(remediationEpoch, f) && faults.epoch == f.epoch ==> Unhindered(true, remediationEpoch)
    {
    }

    /** ActivateForNewConnections. */
    method ActivateForNewConnections(a: Artifact) returns (outcome: Outcome, ghost boundary: Option<(nat, nat)>)
      requires Valid()
      modifies this, host, eng, faults
      ensures unchanged(this`reserved, this`serving)
      ensures Valid() && old(host.trace) <= host.trace && old(failed) <= failed
      ensures old(eng.log) <= eng.log && eng.byID == old(eng.byID)
      ensures Allocation.AssignedOnly(old(host.trace), host.trace, generations.Keys)
      ensures old(reports) <= reports
      ensures outcome == Done ==> Holds(activeNew, a) && Activated(activeNew)
      ensures outcome == Done ==> forall id :: old(Holds(id, a)) ==> id == activeNew
      ensures faults.unattended ==> old(faults.unattended) || old(faults.Now()).Finishing()
      ensures outcome == Done && old(activeNew) == NO_GEN && host.cfg.hasCounter ==> boundary.Some?
      ensures BoundarySince(old(host.trace), host.trace, host.cfg.port, boundary)
      ensures outcome != NicFailed
      ensures outcome == RecheckInterrupted || outcome == SignalInterrupted ==> old(faults.latched)
      ensures outcome == SignalInterrupted || (outcome == RecheckInterrupted && old(Permitted())) ==> faults.epoch > old(faults.epoch)
      ensures outcome == NoAction && old(Permitted()) ==>
                || faults.epoch > old(faults.epoch) || !ArtifactFits(a, host.cfg)
                || (forall id :: Holds(id, a) ==> id == activeNew || generations[id].scope.Idle())
                || (old(faults.latched) && (old(failed) < failed || !InForce()))
      ensures outcome == Done && !old(faults.latched) ==> Disturbs(old(faults.Now()), faults.Now())
      ensures outcome == NoAction ==> unchanged(this`generations, this`activeNew, this`previous, host`program, host`disk)
      ensures outcome == FailClosed ==> ClosedNow(old(reports))
      ensures outcome == RolledBack ==>
                unchanged(this`generations, this`activeNew, this`previous) && !persistFatal && DiskIsImage()
      ensures outcome == RolledBack || outcome == FailClosed || outcome == DurabilityFatal ==> old(failed) < failed
    {
      hide *;
      boundary := None;
      ghost var h := host.trace;
      NoBoundary(h, h, host.cfg.port);
      Allocation.NothingAssigned(h, generations.Keys);
      if !ArtifactFits(a, host.cfg) {
        return NoAction, boundary;
      }
      NowIs();
      PermittedIs();
      ghost var f := faults.Now();
      var id, repair := Choose(a);
      NoBoundary(h, host.trace, host.cfg.port);
      if id.None? {
        return NoAction, boundary;
      }
      ghost var mid, m := host.trace, faults.Now();
      NowIs();
      UnhinderedIs(true, remediationEpoch);
      GateOpenIs(remediationEpoch, m);
      outcome, boundary := ActivateHeld(id.value, a, repair);
      if outcome == Done && !repair {
        DisturbsIsTransitive(f, m, faults.Now());
      }
      NowIs();
      ValidListed();
      Allocation.AssignedOnlyJoins(h, mid, host.trace, generations.Keys, generations.Keys);
      BoundarySinceStays(h, mid, host.trace, host.trace, host.cfg.port, boundary);
    }

    /** What an activation of the artifact comes to before anything changes. */
    method Choose(a: Artifact) returns (id: Option<GenId>, repair: bool)
      requires Valid()
      modifies faults, host`table, host`gone, host`trace, this`failed
      ensures unchanged(faults`unattended)
      ensures Valid() && old(host.trace) <= host.trace && old(failed) <= failed && generations.Keys == eng.byID.Keys
      ensures Allocation.AssignedOnly(old(host.trace), host.trace, generations.Keys)
      ensures faults.Now().Finishing() ==> old(faults.Now()).Finishing()
      ensures id.Some? ==>
                && id.value in generations && generations[id.value].dna == a.payload
                && generations[id.value].metadata == a.metadata && generations[id.value].identity == a.metadata.Id()
                && (!repair ==> !isUnsafe && Attended(faults.Now()))
      ensures repair ==> old(faults.latched)
      ensures !repair ==> Disturbs(old(faults.Now()), faults.Now())
      ensures old(faults.epoch) <= faults.epoch
      ensures id.None? && old(Permitted()) && faults.epoch == old(faults.epoch) ==>
                || (forall i :: Holds(i, a) ==> i == activeNew)
                || (old(faults.latched) && (old(failed) < failed || !InForce()))
      ensures id.Some? && repair && old(Permitted()) && faults.epoch == old(faults.epoch) ==> Unhindered(true, remediationEpoch)
      ensures id.Some? ==> forall i :: old(Holds(i, a)) ==> i == id.value
    {
      hide *;
      ValidParts();
      Listed();
      WatchFrom({});
      ghost var h, f, w := host.trace, faults.Now(), Watch(|host.trace| - 1, {}, {host.program});
      id, repair := ChooseHeld(a, w);
      OnlyListed(h, w, generations.Keys);
      ValidFrom();
      FinishingWas(f, faults.Now());
      if id.Some? {
        forall i | old(Holds(i, a))
          ensures i == id.value
        {
          assert Holds(i, a);
        }
      }
    }

    /** The entry an activation of the artifact goes on with, if it may go on at all. */
    method ChooseHeld(a: Artifact, ghost w: Watch) returns (id: Option<GenId>, repair: bool)
      requires Steady() && Settled() && host.Watched(w) && AtRest(activeNew, eng.active, Stands(), faults.Now())
      modifies faults, host`table, host`gone, host`trace, this`failed
      ensures unchanged(faults`unattended)
      ensures Steady() && Settled() && host.Watched(w) && AtRest(activeNew, eng.active, Stands(), faults.Now())
      ensures old(failed) <= failed
      ensures old(host.trace) <= host.trace && Stirs(old(faults.Now()), faults.Now())
      ensures id.Some? ==>
                && id.value in generations && generations[id.value].dna == a.payload
                && generations[id.value].metadata == a.metadata && generations[id.value].identity == a.metadata.Id()
                && (!repair ==> !isUnsafe && Attended(faults.Now()))
      ensures repair ==> old(faults.latched)
      ensures !repair ==> Disturbs(old(faults.Now()), faults.Now())
      ensures old(faults.epoch) <= faults.epoch
      ensures id.None? && old(Permitted()) && faults.epoch == old(faults.epoch) ==>
                || (forall i :: Holds(i, a) ==> i == activeNew)
                || (old(faults.latched) && (old(failed) < failed || !InForce()))
      ensures id.Some? && repair && old(Permitted()) && faults.epoch == old(faults.epoch) ==> Unhindered(true, remediationEpoch)
      ensures id.Some? ==> forall i :: Holds(i, a) ==> i == id.value
    {
      hide *;
      id := None;
      ghost var f, s := faults.Now(), Stands();
      NowIs();
      var allowed;
      allowed, repair := MayActivate(w);
      DisturbsHeeds(f, faults.Now());
      if !allowed {
        return;
      }
      var found := Lookup(a.metadata.Id());
      OnlyHolder(found, a);
      if found.None? || generations[found.value].dna != a.payload || generations[found.value].metadata != a.metadata
         || activeNew == found.value {
        return;
      }
      if repair {
        ghost var g := faults.Now();
        var verified := VerifyForRepair(w);
        StirsIsTransitive(f, g, faults.Now());
        NowIs();
        if !verified {
          return;
        }
      }
      id := found;
    }

    /** The kernel's table is read back before an activation through the gate. */
    method VerifyForRepair(ghost w: Watch) returns (verified: bool)
      requires Steady() && Settled() && host.Watched(w) && AtRest(activeNew, eng.active, Stands(), faults.Now())
      modifies faults, host`table, host`gone, host`trace, this`failed
      ensures unchanged(faults`unattended)
      ensures Steady() && Settled() && host.Watched(w) && AtRest(activeNew, eng.active, Stands(), faults.Now())
      ensures old(host.trace) <= host.trace && Stirs(old(faults.Now()), faults.Now())
      ensures old(failed) <= failed && old(faults.epoch) <= faults.epoch
      ensures !verified ==> old(failed) < failed || !InForce()
      ensures faults.epoch == old(faults.epoch) && old(Unhindered(true, remediationEpoch)) ==> Unhindered(true, remediationEpoch)
    {
      hide *;
      ghost var f, s := faults.Now(), Stands();
      NowIs();
      UnhinderedIs(true, remediationEpoch);
      verified := VerifyCurrentProgram(w);
      KeptIsKept(f, s, faults.Now());
      StaysAtRest(f, s);
      DisturbsHeeds(f, faults.Now());
      OpenStays(remediationEpoch, f, faults.Now());
      UnhinderedIs(true, remediationEpoch);
      NowIs();
      InForceIs();
    }

    /** Activates the entry an artifact is mapped to. */
    method ActivateHeld(id: GenId, a: Artifact, repair: bool) returns (outcome: Outcome, ghost boundary: Option<(nat, nat)>)
      requires Valid() && (!repair ==> !isUnsafe && Attended(faults.Now()))
      requires id in generations && generations[id].dna == a.payload && generations[id].metadata == a.metadata
      requires generations[id].identity == a.metadata.Id()
      modifies this, host, eng, faults
      ensures unchanged(this`reserved, this`serving)
      ensures Valid() && old(host.trace) <= host.trace && old(failed) <= failed
      ensures old(eng.log) <= eng.log && eng.byID == old(eng.byID)
      ensures Allocation.AssignedOnly(old(host.trace), host.trace, generations.Keys)
      ensures old(reports) <= reports
      ensures outcome == Done ==> activeNew == id && Holds(id, a) && Activated(id)
      ensures outcome == Done && repair ==> !faults.latched
      ensures outcome == Done ==> persistFatal == old(persistFatal)
      ensures outcome == Done && !repair ==> Disturbs(old(faults.Now()), faults.Now())
      ensures faults.unattended ==> old(faults.unattended) || old(faults.Now()).Finishing()
      ensures outcome == Done && old(activeNew) == NO_GEN && host.cfg.hasCounter ==> boundary.Some?
      ensures BoundarySince(old(host.trace), host.trace, host.cfg.port, boundary)
      ensures outcome == DurabilityFatal ==> persistFatal
      ensures outcome == NoAction ==> unchanged(this`generations, this`activeNew, this`previous, host`program, host`disk)
      ensures outcome == FailClosed ==> ClosedNow(old(reports))
      ensures outcome == RolledBack ==>
                unchanged(this`generations, this`activeNew, this`previous) && !persistFatal && DiskIsImage()
      ensures outcome == RolledBack || outcome == FailClosed || outcome == DurabilityFatal ==> old(failed) < failed
      ensures outcome == NoAction ==> old(generations)[id].scope.Idle()
      ensures outcome == NoAction ==> generations[id].scope.Idle()
      ensures outcome != NicFailed
      ensures outcome == SignalInterrupted ==> repair && faults.epoch > old(faults.epoch)
      ensures outcome == RecheckInterrupted ==> repair && old(faults.epoch) <= faults.epoch
      ensures outcome == RecheckInterrupted && faults.epoch == old(faults.epoch) ==>
                old(faults.reconciling) || (old(remediation) && !old(faults.guard))
    {
      hide *;
      ghost var before, was := generations, activeNew;
      outcome, boundary := ActivateLocked(id, repair);
      if outcome == Done {
        ActivatedMeans(id);
        StagedHolds(before, was, id, a);
      }
    }

    lemma ActivatedMeans(id: GenId)
      requires Activated(id)
      ensures activeNew == id && eng.active == id && !isUnsafe && DiskIsImage()
    {
      hide DiskIsImage;
    }

    lemma StagedHolds(before: Gens, was: GenId, id: GenId, a: Artifact)
      requires id in before && (was != NO_GEN ==> was in before) && generations == Staged(before, was, id)
      requires before[id].dna == a.payload && before[id].metadata == a.metadata && before[id].identity == a.metadata.Id()
      ensures Holds(id, a)
    {
    }

    /** DeactivateForNewConnections: fenced by identity, so a stale retry changes nothing. */
    method DeactivateForNewConnections(identity: Identity) returns (outcome: Outcome)
      requires Valid()
      modifies this, host, faults, eng`active
      ensures unchanged(faults`unattended, this`reserved, this`serving)
      ensures Valid() && old(host.trace) <= host.trace && old(failed) <= failed
      ensures old(reports) <= reports
      ensures Allocation.AssignedOnly(old(host.trace), host.trace, generations.Keys)
      ensures outcome == NoAction <==>
                old(faults.latched) || old(activeNew) == NO_GEN || old(activeNew) !in old(generations)
                || old(generations)[old(activeNew)].identity != identity
      ensures outcome == NoAction ==> unchanged(this, eng, host`program, host`disk)
      ensures outcome == Done || outcome == NoAction || old(failed) < failed
      ensures outcome == Done ==>
                && old(activeNew) in old(generations) && generations == WithPhase(old(generations), old(activeNew), Draining)
                && Disturbs(old(faults.Now()), faults.Now())
      ensures outcome == Done ==> activeNew == NO_GEN && host.program == Program(Live(generations), NO_GEN, false) && DiskIsImage()
    {
      hide *;
      if faults.latched || activeNew == NO_GEN || activeNew !in generations || generations[activeNew].identity != identity {
        Allocation.NothingAssigned(host.trace, generations.Keys);
        return NoAction;
      }
      outcome := DeactivateLocked();
    }

    /** Rollback, first turn with the mutex: a retained artifact is activated as a repair.
        `counting` says that the artifact is absent and a snapshot is to be taken. */
    method RollbackBegin(a: Artifact) returns (outcome: Outcome, counting: bool, ghost boundary: Option<(nat, nat)>)
      requires Valid()
      modifies this, host, eng, faults
      ensures unchanged(this`reserved, this`serving)
      ensures Valid() && old(host.trace) <= host.trace && old(failed) <= failed
      ensures old(eng.log) <= eng.log && eng.byID == old(eng.byID)
      ensures Allocation.AssignedOnly(old(host.trace), host.trace, generations.Keys)
      ensures old(reports) <= reports
      ensures outcome == Done ==> Holds(activeNew, a) && Activated(activeNew) && !faults.latched
      ensures outcome == Done && old(activeNew) == NO_GEN && host.cfg.hasCounter ==> boundary.Some?
      ensures BoundarySince(old(host.trace), host.trace, host.cfg.port, boundary)
      ensures outcome == NoAction ==> unchanged(this`generations, this`activeNew, this`previous, host`program, host`disk)
      ensures counting ==> outcome == NoAction
      ensures outcome == Done ==> persistFatal == old(persistFatal)
      ensures faults.unattended ==> old(faults.unattended) || old(faults.Now()).Finishing()
      ensures outcome == FailClosed ==> ClosedNow(old(reports))
      ensures outcome == RolledBack ==>
                unchanged(this`generations, this`activeNew, this`previous) && !persistFatal && DiskIsImage()
      ensures outcome == RolledBack || outcome == FailClosed || outcome == DurabilityFatal ==> old(failed) < failed
      ensures counting <==>
                && ArtifactFits(a, host.cfg) && |old(generations)| < host.cfg.maxGenerations
                && forall id :: id in old(generations) ==> old(generations)[id].identity != a.metadata.Id()
      ensures outcome == NoAction ==> forall id :: Holds(id, a) ==> generations[id].scope.Idle()
      ensures outcome != NicFailed
      ensures outcome == SignalInterrupted ==> faults.epoch > old(faults.epoch)
      ensures outcome == RecheckInterrupted ==> old(faults.epoch) <= faults.epoch
      ensures outcome == RecheckInterrupted && faults.epoch == old(faults.epoch) ==>
                old(faults.reconciling) || (old(remediation) && !old(faults.guard))
    {
      hide *;
      boundary, counting := None, false;
      NoBoundary(host.trace, host.trace, host.cfg.port);
      Allocation.NothingAssigned(host.trace, generations.Keys);
      ValidParts();
      forall id | Holds(id, a)
        ensures ArtifactFits(a, host.cfg)
      {
        HeldFits(id, a);
      }
      if !ArtifactFits(a, host.cfg) {
        return NoAction, counting, boundary;
      }
      var found := Lookup(a.metadata.Id());
      OnlyHolder(found, a);
      if found.None? {
        return NoAction, |generations| < host.cfg.maxGenerations, boundary;
      }
      if generations[found.value].dna != a.payload || generations[found.value].metadata != a.metadata {
        return NoAction, counting, boundary;
      }
      outcome, boundary := ActivateHeld(found.value, a, true);
    }

    /** Rollback, when the snapshot could not be had: the fault is latched, and what is
        active is taken out of service. */
    method RollbackUnproven() returns (outcome: Outcome)
      requires Valid()
      modifies host, faults, eng`active, this`failed, this`generations, this`activeNew, this`steeringInstalled
      modifies this`persistFatal, this`isUnsafe, this`remediation, this`remediationEpoch, this`reports
      ensures unchanged(faults`unattended)
      ensures Valid() && old(host.trace) <= host.trace && old(failed) <= failed
      ensures old(reports) <= reports
      ensures Allocation.AssignedOnly(old(host.trace), host.trace, generations.Keys)
      ensures activeNew == NO_GEN && isUnsafe && !remediation && faults.latched
      ensures outcome == NoAction || outcome == FailClosed || outcome == DurabilityFatal
      ensures old(activeNew) != NO_GEN && outcome == FailClosed ==> ClosedNow(old(reports))
      ensures outcome == DurabilityFatal ==> persistFatal
    {
      hide *;
      ValidParts();
      SteadyFacts();
      WatchFrom({NO_GEN});
      Listed();
      ghost var f, h, listed := faults.Now(), host.trace, generations.Keys;
      ghost var w := Watch(|host.trace| - 1, {NO_GEN}, {host.program});
      Relatch();
      isUnsafe, remediation, remediationEpoch := true, false, 0;
      if activeNew != NO_GEN {
        outcome := CloseAfterFailure(w);
        Listed();
        OnlyListed(h, w, generations.Keys);
        ValidFrom();
        return;
      }
      NowIs();
      SteadyFacts();
      StandsIs();
      LatchedIsSound(faults.Now());
      RestInactive(Stands(), faults.Now());
      RestEngine(activeNew, eng.active, old(Stands()), f);
      Listed();
      OnlyListed(h, w, generations.Keys);
      ValidFrom();
      return NoAction;
    }

    /** Rollback, last turn with the mutex, with a snapshot of the namespace taken at moment
        k: an artifact that is still absent gets an ID no flow carried in that snapshot, and
        is then activated as a repair. */
    method RollbackFinish(a: Artifact, counts: map<GenId, nat>, ghost k: nat)
      returns (outcome: Outcome, ghost boundary: Option<(nat, nat)>)
      requires Valid() && k < |host.trace| && counts == NamespaceCounts(host.trace[k].table, host.cfg.port)
      modifies this, host, eng, faults
      ensures unchanged(this`serving)
      ensures Valid() && old(host.trace) <= host.trace && old(failed) <= failed && old(reports) <= reports
      ensures old(eng.log) <= eng.log && old(generations).Keys <= generations.Keys
      ensures Allocation.AssignedOnly(old(host.trace), host.trace, generations.Keys)
      ensures reserved == old(reserved) || reserved == Allocation.Reconciled(old(reserved), counts, old(generations).Keys)
      ensures outcome == Done ==> Holds(activeNew, a) && Activated(activeNew) && !faults.latched
      ensures outcome == Done ==> persistFatal == old(persistFatal)
      ensures forall id :: id in generations && id !in old(generations) ==> !Carried(host.trace[k].table, host.cfg.port, id)
      ensures outcome == Done && old(activeNew) == NO_GEN && host.cfg.hasCounter ==> boundary.Some?
      ensures BoundarySince(old(host.trace), host.trace, host.cfg.port, boundary)
      ensures outcome == DurabilityFatal ==> persistFatal
      ensures outcome == FailClosed ==> ClosedNow(old(reports))
      ensures outcome == RolledBack || outcome == FailClosed || outcome == DurabilityFatal ==> old(failed) < failed
      ensures faults.unattended ==> old(faults.unattended) || old(faults.Now()).Finishing()
      ensures outcome != NicFailed
      ensures outcome == SignalInterrupted ==> faults.epoch > old(faults.epoch)
      ensures outcome == NoAction ==> forall id :: old(Holds(id, a)) ==> old(generations)[id].scope.Idle()
      ensures outcome == RecheckInterrupted ==> old(faults.epoch) <= faults.epoch
      ensures outcome == RecheckInterrupted && faults.epoch == old(faults.epoch) ==> old(faults.reconciling) || old(remediation)
    {
      hide *;
      boundary := None;
      NoBoundary(host.trace, host.trace, host.cfg.port);
      Allocation.NothingAssigned(host.trace, generations.Keys);
      ValidParts();
      forall id | Holds(id, a)
        ensures ArtifactFits(a, host.cfg)
      {
        HeldFits(id, a);
      }
      if !ArtifactFits(a, host.cfg) {
        return NoAction, boundary;
      }
      var found := Lookup(a.metadata.Id());
      OnlyHolder(found, a);
      if found.None? {
        outcome, boundary := RollbackAbsent(a, counts, k);
        return;
      }
      if generations[found.value].dna != a.payload || generations[found.value].metadata != a.metadata {
        return NoAction, boundary;
      }
      Listed();
      outcome, boundary := ActivateHeld(found.value, a, true);
      ValidListed();
    }

    /** The last turn of a rollback whose artifact is still absent. */
    method RollbackAbsent(a: Artifact, counts: map<GenId, nat>, ghost k: nat)
      returns (outcome: Outcome, ghost boundary: Option<(nat, nat)>)
      requires Valid() && k < |host.trace| && counts == NamespaceCounts(host.trace[k].table, host.cfg.port)
      requires forall id :: id in generations ==> generations[id].identity != a.metadata.Id()
      modifies this, host, eng, faults
      ensures unchanged(this`serving)
      ensures Valid() && old(host.trace) <= host.trace && old(failed) <= failed && old(reports) <= reports
      ensures old(eng.log) <= eng.log && old(generations).Keys <= generations.Keys
      ensures Allocation.AssignedOnly(old(host.trace), host.trace, generations.Keys)
      ensures reserved == old(reserved) || reserved == Allocation.Reconciled(old(reserved), counts, old(generations).Keys)
      ensures outcome == Done ==> Holds(activeNew, a) && Activated(activeNew) && !faults.latched
      ensures outcome == Done ==> persistFatal == old(persistFatal)
      ensures forall id :: id in generations && id !in old(generations) ==> !Carried(host.trace[k].table, host.cfg.port, id)
      ensures outcome == Done && old(activeNew) == NO_GEN && host.cfg.hasCounter ==> boundary.Some?
      ensures BoundarySince(old(host.trace), host.trace, host.cfg.port, boundary)
      ensures outcome == DurabilityFatal ==> persistFatal
      ensures outcome == FailClosed ==> ClosedNow(old(reports))
      ensures outcome == RolledBack || outcome == FailClosed || outcome == DurabilityFatal ==> old(failed) < failed
      ensures faults.unattended ==> old(faults.unattended) || old(faults.Now()).Finishing()
      ensures outcome != NicFailed
      ensures outcome == SignalInterrupted ==> faults.epoch > old(faults.epoch)
      ensures outcome == RecheckInterrupted ==> old(faults.epoch) <= faults.epoch
      ensures outcome == RecheckInterrupted && faults.epoch == old(faults.epoch) ==> old(faults.reconciling) || old(remediation)
    {
      hide *;
      boundary := None;
      NoBoundary(host.trace, host.trace, host.cfg.port);
      Allocation.NothingAssigned(host.trace, generations.Keys);
      if |generations| >= host.cfg.maxGenerations {
        return NoAction, boundary;
      }
      var fatal := persistFatal;
      ghost var h, f := host.trace, faults.Now();
      NowIs();
      var id, ok := PrepareAbsent(a, counts, k);
      NowIs();
      if !ok {
        NoBoundary(h, host.trace, host.cfg.port);
        outcome := if persistFatal && !fatal then DurabilityFatal else NoAction;
        return;
      }
      NewGenFacts(a, host.cfg);
      ghost var r, mid, keys := reports, host.trace, generations.Keys;
      StirsEpoch(f, faults.Now());
      StillDown(f, faults.Now());
      ValidListed();
      FinishingWas(f, faults.Now());
      outcome, boundary := ActivateHeld(id, a, true);
      ValidListed();
      ClosedSince(old(reports), r);
      Allocation.AssignedOnlyJoins(h, mid, host.trace, keys, generations.Keys);
      BoundarySinceStays(h, mid, host.trace, host.trace, host.cfg.port, boundary);
    }

    /** Reconciles the reservations with the snapshot, and prepares the artifact under the
        least number that is then free. */
    method PrepareAbsent(a: Artifact, counts: map<GenId, nat>, ghost k: nat) returns (id: GenId, ok: bool)
      requires Valid() && k < |host.trace| && counts == NamespaceCounts(host.trace[k].table, host.cfg.port)
      requires |generations| < host.cfg.maxGenerations
      requires forall id :: id in generations ==> generations[id].identity != a.metadata.Id()
      modifies faults, host`table, host`gone, host`trace, host`disk, host`written, eng`byID, eng`log, eng`prepared
      modifies this`generations, this`reserved, this`failed
      modifies this`persistFatal, this`isUnsafe, this`remediation, this`remediationEpoch, this`reports
      ensures unchanged(faults`unattended)
      ensures Valid() && old(host.trace) <= host.trace && old(failed) <= failed && old(reports) <= reports
      ensures old(eng.log) <= eng.log && old(generations).Keys <= generations.Keys
      ensures Allocation.AssignedOnly(old(host.trace), host.trace, generations.Keys)
      ensures reserved == Allocation.Reconciled(old(reserved), counts, old(generations).Keys)
      ensures Stirs(old(faults.Now()), faults.Now())
      ensures ok ==> Preparable(a, host.cfg) && id !in old(generations) && generations == old(generations)[id := NewGen(a, host.cfg)]
      ensures ok ==> persistFatal == old(persistFatal) && !Carried(host.trace[k].table, host.cfg.port, id)
      ensures ok ==> remediation == old(remediation)
      ensures !ok ==> generations == old(generations)
      ensures persistFatal ==> old(persistFatal) || old(failed) < failed
    {
      hide *;
      ValidParts();
      Listed();
      ghost var t, h, listed := host.trace[k].table, host.trace, generations.Keys;
      ghost var before := reserved;
      Allocation.NothingAssigned(h, listed);
      CountedAreValid(t, host.cfg.port);
      DisturbsIsReflexive(faults.Now());
      DisturbsHeeds(faults.Now(), faults.Now());
      ReconcileReserved(counts);
      id := NextGeneration();
      if id == NO_GEN {
        ValidFrom();
        return id, false;
      }
      LeastFreeIsFree(id);
      Allocation.HandedOutIdIsUncarried(id, before, listed, t, host.cfg.port);
      WatchFrom({});
      StandsIs();
      ghost var w := Watch(|host.trace| - 1, {}, {host.program});
      ok := AddEntry(id, a, false, 0, w);
      StandsIs();
      Listed();
      OnlyListed(h, w, generations.Keys);
      ValidFrom();
    }

    // ------------------------------------------------------------ loading

    /** Nothing is steered or assigned. */
    ghost predicate Bare()
      reads host`program
    {
      host.program == Program(map[], NO_GEN, false)
    }

    /** loadLocked's checks of every record, in order, with the maps it fills. */
    method CheckRecords(rs: seq<Record>) returns (ok: bool)
      ensures ok <==>
                && (forall i :: 0 <= i < |rs| ==> RecordOk(rs[i], host.cfg))
                && DistinctIds(rs) && DistinctIdentities(rs)
    {
      hide RecordOk;
      var ids: set<GenId>, identities: set<Identity> := {}, {};
      var i := 0;
      while i < |rs|
        invariant 0 <= i <= |rs|
        invariant forall k :: 0 <= k < i ==> RecordOk(rs[k], host.cfg)
        invariant forall j, k :: 0 <= j < k < i ==> rs[j].id != rs[k].id && rs[j].identity != rs[k].identity
        invariant forall x :: x in ids <==> exists k :: 0 <= k < i && rs[k].id == x
        invariant forall x :: x in identities <==> exists k :: 0 <= k < i && rs[k].identity == x
      {
        if rs[i].id in ids || rs[i].identity in identities || !RecordOk(rs[i], host.cfg) {
          return false;
        }
        ids, identities := ids + {rs[i].id}, identities + {rs[i].identity};
        i := i + 1;
      }
      return true;
    }

    /** Publishes one record's engine and lists its entry. */
    method Reconstruct1(r: Record, ghost before: Gens)
      requires Steady() && Bare() && eng.Valid() && eng.library == host.cfg.library && RecordOk(r, host.cfg)
      requires generations == before && r.id !in before && EnginesMatch(eng.byID, before)
      modifies eng`byID, eng`log, eng`prepared, this`generations
      ensures Steady() && eng.Valid()
      ensures old(eng.log) <= eng.log
      ensures generations == before[r.id := Reloaded(r, host.cfg)] && EnginesMatch(eng.byID, generations)
    {
      hide *;
      SteadyFacts();
      RecordParses(r);
      Unregistered(generations, r.id);
      ghost var was := eng.byID;
      var ok := eng.Prepare(r.id, r.dna);
      assert ok;
      generations := generations[r.id := Reloaded(r, host.cfg)];
      OneMoreMatches(was, before, r);
      BareIsSafe();
      SteadyFrom();
    }

    lemma RecordParses(r: Record)
      requires RecordOk(r, host.cfg)
      ensures host.cfg.library.scopeOf(r.dna).Some? && Reloaded(r, host.cfg).dna == r.dna
    {
    }

    lemma OneMoreMatches(was: Engines, before: Gens, r: Record)
      requires EnginesMatch(was, before) && RecordOk(r, host.cfg) && r.id in eng.byID
      requires eng.byID == was[r.id := eng.byID[r.id]] && eng.byID[r.id].dna == r.dna
      ensures EnginesMatch(eng.byID, before[r.id := Reloaded(r, host.cfg)])
    {
      RecordParses(r);
      hide RecordOk, Reloaded;
    }

    lemma BareIsSafe()
      requires Bare()
      ensures SafeFor(host.program, DnasOf(eng.byID), host.disk, host.cfg) && ProgramIdsOk(host.program)
    {
      NothingIsSafe(DnasOf(eng.byID), host.disk, host.cfg);
    }

    /** Reconstructs every engine of a checked file, and takes them all back when the whole
        exceeds a budget. */
    method Reconstruct(rs: seq<Record>) returns (ok: bool)
      requires Steady() && Bare() && eng.Valid() && eng.library == host.cfg.library && eng.active == NO_GEN
      requires generations == map[] && eng.byID == map[]
      requires (forall i :: 0 <= i < |rs| ==> RecordOk(rs[i], host.cfg)) && DistinctIds(rs)
      modifies eng`byID, eng`log, eng`prepared, this`generations
      ensures Steady() && eng.Valid() && EnginesMatch(eng.byID, generations)
      ensures old(eng.log) <= eng.log
      ensures ok <==> WithinBudgets(ReloadedGens(rs, host.cfg), host.cfg)
      ensures ok ==> generations == ReloadedGens(rs, host.cfg)
      ensures !ok ==> generations == map[] && eng.byID == map[]
    {
      hide *;
      var i := 0;
      NothingMatches();
      NoneReloaded(rs);
      while i < |rs|
        invariant 0 <= i <= |rs| && old(eng.log) <= eng.log
        invariant Steady() && Bare() && eng.Valid() && EnginesMatch(eng.byID, generations)
        invariant generations == ReloadedGens(rs[..i], host.cfg)
      {
        OneMoreReloaded(rs, i);
        Reconstruct1(rs[i], generations);
        i := i + 1;
      }
      assert rs[..i] == rs;
      if WithinBudgets(generations, host.cfg) {
        return true;
      }
      NoneIsZero(rs);
      TakeBack();
      return false;
    }

    lemma NoneIsZero(rs: seq<Record>)
      requires (forall k :: 0 <= k < |rs| ==> RecordOk(rs[k], host.cfg)) && DistinctIds(rs)
      ensures NO_GEN !in ReloadedGens(rs, host.cfg)
    {
      hide *;
      if NO_GEN in ReloadedGens(rs, host.cfg) {
        var i := ReloadedCameFrom(rs, host.cfg, NO_GEN);
        ReloadedIsOk(rs[i], host.cfg);
        ZeroIsInvalid();
      }
    }

    static lemma ZeroIsInvalid()
      ensures !ValidGen(NO_GEN)
    {
    }

    lemma NothingMatches()
      ensures EnginesMatch(map[], map[])
    {
    }

    lemma NoneReloaded(rs: seq<Record>)
      ensures ReloadedGens(rs[..0], host.cfg) == map[]
    {
    }

    lemma OneMoreReloaded(rs: seq<Record>, i: nat)
      requires (forall k :: 0 <= k < |rs| ==> RecordOk(rs[k], host.cfg)) && DistinctIds(rs) && i < |rs|
      ensures rs[i].id !in ReloadedGens(rs[..i], host.cfg)
      ensures ReloadedGens(rs[..i + 1], host.cfg) == ReloadedGens(rs[..i], host.cfg)[rs[i].id := Reloaded(rs[i], host.cfg)]
    {
      hide RecordOk, Reloaded;
      assert rs[..i + 1][..i] == rs[..i];
      if rs[i].id in ReloadedGens(rs[..i], host.cfg) {
        var k := ReloadedCameFrom(rs[..i], host.cfg, rs[i].id);
      }
    }

    method TakeBack()
      requires Steady() && Bare() && eng.Valid() && eng.active == NO_GEN && EnginesMatch(eng.byID, generations)
      requires NO_GEN !in generations
      modifies eng`byID, eng`log, this`generations
      ensures Steady() && eng.Valid() && generations == map[] && eng.byID == map[]
      ensures old(eng.log) <= eng.log
    {
      hide *;
      SteadyFacts();
      var todo := generations.Keys;
      KeysMatch();
      while todo != {}
        invariant todo == generations.Keys == eng.byID.Keys && eng.Valid() && NO_GEN !in todo && old(eng.log) <= eng.log
        decreases |todo|
      {
        var id :| id in todo;
        generations := generations - {id};
        var removed := eng.Remove(id);
        todo := todo - {id};
      }
      assert generations == map[] && eng.byID == map[];
      BareIsSafe();
      SteadyFrom();
    }

    lemma KeysMatch()
      requires EnginesMatch(eng.byID, generations)
      ensures generations.Keys == eng.byID.Keys
    {
    }

    /** Every check loadLocked makes before it reconstructs anything. */
    ghost predicate FileOk(f: File) {
      && (f.offloads.Some? ==> f.offloads.value == host.cfg.iface)
      && f.version == STATE_VERSION
      && |f.generations| <= host.cfg.maxGenerations
      && (forall i :: 0 <= i < |f.generations| ==> RecordOk(f.generations[i], host.cfg))
      && DistinctIds(f.generations) && DistinctIdentities(f.generations)
      && ActiveListed(f)
    }

    lemma LoadableMeans(f: File)
      ensures Loadable(f, host.cfg) <==> FileOk(f) && WithinBudgets(ReloadedGens(f.generations, host.cfg), host.cfg)
      ensures FileOk(f) ==> forall i :: 0 <= i < |f.generations| ==> RecordOk(f.generations[i], host.cfg)
      ensures FileOk(f) ==> DistinctIds(f.generations)
    {
      hide RecordOk, WithinBudgets, ReloadedGens;
    }

    /** The checks before reconstruction; the NIC's original features are kept as soon as
        they are known to be this host's, whatever becomes of the rest. */
    method CheckFile(f: File) returns (ok: bool)
      requires Settled()
      modifies this`offloads
      ensures Settled() && (ok <==> FileOk(f))
    {
      hide *;
      FileOkMeans(f);
      SettledParts();
      if f.offloads.Some? && f.offloads.value != host.cfg.iface {
        return false;
      }
      offloads := f.offloads;
      SettledFrom();
      if f.version != STATE_VERSION || |f.generations| > host.cfg.maxGenerations {
        return false;
      }
      ok := CheckRecords(f.generations);
      ok := ok && ActiveListed(f);
    }

    predicate ActiveListed(f: File) {
      f.activeNew != NO_GEN ==>
        exists i :: 0 <= i < |f.generations| && f.generations[i].id == f.activeNew && f.generations[i].phase == Active
    }

    lemma FileOkMeans(f: File)
      ensures FileOk(f) <==>
                && (f.offloads.Some? ==> f.offloads.value == host.cfg.iface)
                && f.version == STATE_VERSION && |f.generations| <= host.cfg.maxGenerations
                && (forall i :: 0 <= i < |f.generations| ==> RecordOk(f.generations[i], host.cfg))
                && DistinctIds(f.generations) && DistinctIdentities(f.generations)
                && ActiveListed(f)
    {
      hide RecordOk;
    }

    /** loadLocked. It accepts exactly an absent file and a loadable one, and what it then
        holds is exactly what the file records. */
    method Load() returns (loaded: bool, good: bool)
      requires Steady() && Settled() && Bare() && eng.active == NO_GEN && activeNew == NO_GEN
      requires generations == map[] && eng.byID == map[]
      modifies eng`byID, eng`log, eng`prepared, this`generations, this`activeNew, this`previous, this`isUnsafe
      modifies this`offloads, this`remediation, this`remediationEpoch
      ensures Steady() && Settled()
      ensures old(eng.log) <= eng.log
      ensures good <==> host.disk.Absent? || (host.disk.Stored? && Loadable(host.disk.file, host.cfg))
      ensures loaded <==> good && host.disk.Stored?
      ensures loaded ==>
                && generations == ReloadedGens(host.disk.file.generations, host.cfg)
                && activeNew == host.disk.file.activeNew && previous == host.disk.file.previous
                && isUnsafe == host.disk.file.isUnsafe && offloads == host.disk.file.offloads && !remediation
      ensures !loaded ==> generations == map[] && eng.byID == map[] && unchanged(this`activeNew, this`previous, this`isUnsafe, this`remediation)
    {
      hide *;
      if !host.disk.Stored? {
        return false, host.disk.Absent?;
      }
      var f := host.disk.file;
      LoadableMeans(f);
      good := CheckFile(f);
      if good {
        good := LoadChecked(f);
      }
      loaded := good;
    }

    method LoadChecked(f: File) returns (ok: bool)
      requires Steady() && Settled() && Bare() && eng.active == NO_GEN && activeNew == NO_GEN
      requires generations == map[] && eng.byID == map[]
      requires host.disk.Stored? && f == host.disk.file && FileOk(f)
      modifies eng`byID, eng`log, eng`prepared, this`generations, this`activeNew, this`previous, this`isUnsafe
      modifies this`offloads, this`remediation, this`remediationEpoch
      ensures Steady() && Settled()
      ensures old(eng.log) <= eng.log
      ensures ok <==> Loadable(f, host.cfg)
      ensures ok ==>
                && generations == ReloadedGens(f.generations, host.cfg) && activeNew == f.activeNew && previous == f.previous
                && isUnsafe == f.isUnsafe && offloads == f.offloads && !remediation
      ensures !ok ==> generations == map[] && eng.byID == map[] && unchanged(this`activeNew, this`previous, this`isUnsafe, this`remediation)
    {
      hide *;
      LoadableMeans(f);
      ForLoading();
      ok := Reconstruct(f.generations);
      if ok {
        Adopt(f);
      } else {
        StillEmpty();
      }
    }

    /** What loading relies on and leaves alone. */
    lemma ForLoading()
      requires Settled()
      ensures serving && eng.Valid() && eng.library == host.cfg.library && ReservedOk()
      ensures (offloads.Some? ==> offloads.value == host.cfg.iface) && (steeringInstalled ==> Steers(host.program))
    {
      hide *;
      SettledParts();
    }

    lemma StillEmpty()
      requires Bare() && generations == map[] && eng.byID == map[] && activeNew == NO_GEN
      requires serving && eng.Valid() && eng.library == host.cfg.library && ReservedOk()
      requires (offloads.Some? ==> offloads.value == host.cfg.iface) && (steeringInstalled ==> Steers(host.program))
      ensures Settled()
    {
      hide *;
      EmptyAgrees(host.disk, host.cfg);
      BareIsWithin();
      SettledFrom();
    }

    /** Takes over what a loadable file says besides its entries. */
    method Adopt(f: File)
      requires host.disk.Stored? && f == host.disk.file && Loadable(f, host.cfg) && Bare()
      requires EnginesMatch(eng.byID, generations)
      requires (forall i :: 0 <= i < |f.generations| ==> RecordOk(f.generations[i], host.cfg))
      requires generations == ReloadedGens(f.generations, host.cfg)
      requires serving && eng.Valid() && eng.library == host.cfg.library && ReservedOk()
      requires steeringInstalled ==> Steers(host.program)
      modifies this`activeNew, this`previous, this`isUnsafe, this`offloads, this`remediation, this`remediationEpoch
      ensures Settled()
      ensures activeNew == f.activeNew && previous == f.previous && isUnsafe == f.isUnsafe && offloads == f.offloads
      ensures !remediation
    {
      hide *;
      LoadedAgrees(f, host.cfg);
      StoredIs(f);
      activeNew, previous, isUnsafe, offloads := f.activeNew, f.previous, f.isUnsafe, f.offloads;
      remediation, remediationEpoch := false, 0;
      BareIsWithin();
      SettledFrom();
    }

    lemma StoredIs(f: File)
      requires host.disk.Stored? && f == host.disk.file
      ensures host.disk == Stored(f)
    {
    }

    lemma BareIsWithin()
      requires Bare()
      ensures ProgramWithin(host.program, generations)
    {
    }

    // ------------------------------------------------------------ start and close

    /** A controller that has done nothing yet. */
    ghost predicate Fresh()
      reads this, eng
    {
      && !serving && eng.Valid() && eng.library == host.cfg.library && eng.byID == map[] && eng.active == NO_GEN
      && generations == map[] && activeNew == NO_GEN && previous == NO_GEN && offloads == None && reserved == {}
      && !steeringInstalled && Stands() == Standing(false, false, false, 0)
    }

    lemma FreshParts()
      requires Fresh()
      ensures !serving && eng.Valid() && eng.library == host.cfg.library && eng.byID == map[] && eng.active == NO_GEN
      ensures generations == map[] && activeNew == NO_GEN && previous == NO_GEN && offloads == None && ReservedOk() && reserved == {}
      ensures Stands() == Standing(false, false, false, 0) && !isUnsafe && !persistFatal && !remediation
    {
    }

    lemma IsBare()
      requires host.program == Program(map[], NO_GEN, false)
      ensures Bare()
    {
    }

    /** The stale table of a predecessor goes before anything is read. */
    method RemoveStale(ghost w: Watch) returns (ok: bool)
      requires Steady() && Fresh() && host.Watched(w) && NO_GEN in w.allowed
      modifies faults, host`program, host`table, host`gone, host`trace, this`steeringInstalled, this`serving
      modifies this`failed
      ensures unchanged(faults`unattended)
      ensures Steady() && host.Watched(w) && old(host.trace) <= host.trace && old(failed) <= failed
      ensures Disturbs(old(faults.Now()), faults.Now())
      ensures ok ==> Settled() && Bare()
      ensures !ok ==> old(failed) < failed
    {
      hide *;
      FreshParts();
      NothingIsSafe(DnasOf(eng.byID), host.disk, host.cfg);
      ghost var cut;
      ok, cut := ProgramMode(map[], NO_GEN, false, true, w);
      if ok {
        SteadyFacts();
        IsBare();
        serving := true;
        BareIsSafe();
        SteadyFrom();
        EmptyAgrees(host.disk, host.cfg);
        NothingSteers();
        SettledFrom();
      }
    }

    static lemma NothingSteers()
      ensures !Steers(Program(map[], NO_GEN, false))
    {
    }

    /** Loads the durable state, or renames it out of the way. */
    method LoadOrQuarantine(ghost w: Watch) returns (ok: bool, loaded: bool, quarantined: bool)
      requires Steady() && Settled() && Bare() && host.Watched(w) && eng.active == NO_GEN && activeNew == NO_GEN
      requires generations == map[] && eng.byID == map[] && previous == NO_GEN && !isUnsafe && !remediation
      modifies eng`byID, eng`log, eng`prepared, this`generations, this`activeNew, this`previous, this`isUnsafe
      modifies this`offloads, this`remediation, this`remediationEpoch, host`disk, host`trace, faults`latched
      modifies this`failed
      ensures Steady() && Settled() && host.Watched(w) && old(host.trace) <= host.trace && old(failed) <= failed
      ensures old(eng.log) <= eng.log
      ensures !remediation && Stirs(old(faults.Now()), faults.Now())
      ensures quarantined ==> faults.latched
      ensures !isUnsafe ==> faults.Now() == old(faults.Now())
      ensures !quarantined ==> faults.Now() == old(faults.Now())
      ensures ok ==> Held() == DiskIntent(old(host.disk), host.cfg)
      ensures Readable(old(host.disk), host.cfg) ==> ok && !quarantined && loaded == host.disk.Stored?
      ensures !quarantined ==> host.disk == old(host.disk)
      ensures ok && !loaded ==> generations == map[]
      ensures !ok ==> old(failed) < failed
    {
      hide *;
      ReadableMeans(host.disk);
      var good;
      DisturbsIsReflexive(faults.Now());
      DisturbsHeeds(faults.Now(), faults.Now());
      loaded, good := Load();
      if good {
        DiskIntentMeans(host.disk);
        HeldIs();
        return true, loaded, false;
      }
      var renamed: bool := *;
      if !renamed {
        failed := failed + 1;
        return false, false, false;
      }
      MoveAside(w);
      isUnsafe := true;
      RaiseLatch();
      LatchStirs(old(faults.Now()));
      NowIs();
      DiskIntentMeans(old(host.disk));
      HeldIs();
      return true, false, true;
    }

    lemma ReadableMeans(disk: Disk)
      ensures Readable(disk, host.cfg) <==> disk.Absent? || (disk.Stored? && Loadable(disk.file, host.cfg))
    {
      hide Loadable;
    }

    lemma DiskIntentMeans(disk: Disk)
      ensures disk.Stored? && Loadable(disk.file, host.cfg) ==>
                DiskIntent(disk, host.cfg) ==
                Intent(ReloadedGens(disk.file.generations, host.cfg), disk.file.activeNew, disk.file.previous, disk.file.isUnsafe)
      ensures !(disk.Stored? && Loadable(disk.file, host.cfg)) ==>
                DiskIntent(disk, host.cfg) == Intent(map[], NO_GEN, NO_GEN, !disk.Absent?)
    {
      hide Loadable, ReloadedGens;
    }

    ghost function Held(): Intent
      reads this`generations, this`activeNew, this`previous, this`isUnsafe
    {
      Intent(generations, activeNew, previous, isUnsafe)
    }

    lemma HeldIs()
      ensures Held() == Intent(generations, activeNew, previous, isUnsafe)
    {
    }

    static lemma LatchStirs(f: Faults)
      ensures Stirs(f, f.(latched := true))
    {
    }

    method MoveAside(ghost w: Watch)
      requires Steady() && Settled() && Bare() && host.Watched(w) && generations == map[] && eng.byID == map[]
      modifies host`disk, host`trace
      ensures Steady() && Settled() && host.Watched(w) && old(host.trace) <= host.trace
    {
      hide *;
      SteadyFacts();
      SettledParts();
      NothingIsSafe(DnasOf(eng.byID), Absent, host.cfg);
      BareMeans();
      host.Quarantine(DnasOf(eng.byID), serving, w);
      EmptyAgrees(host.disk, host.cfg);
      BareIsSafe();
      SteadyFrom();
      SettledFrom();
    }

    lemma BareMeans()
      requires Bare()
      ensures host.program == Program(map[], NO_GEN, false)
    {
    }

    /** Puts every entry of phase `was`, or every entry at all, into phase `now`; nothing is
        active any more. */
    method Rephase(was: Option<Phase>, now: Phase)
      requires Settled()
      modifies this`generations, this`activeNew
      ensures Settled() && activeNew == NO_GEN && SameButPhases(old(generations), generations)
      ensures generations == Rephased(old(generations), was, now)
    {
      hide *;
      SettledParts();
      ghost var before := generations;
      activeNew := NO_GEN;
      NoneActive(Rephased(generations, was, now));
      generations := Rephased(generations, was, now);
      RephasedIsSame(before, was, now);
      PhasesKeepAgreement(before, generations, host.program, eng.byID, host.disk, host.cfg);
      SettledFrom();
    }

    static lemma RephasedIsSame(gens: Gens, was: Option<Phase>, now: Phase)
      ensures SameButPhases(gens, Rephased(gens, was, now))
    {
    }

    method ClearActive()
      requires Settled()
      modifies this`activeNew
      ensures Settled() && activeNew == NO_GEN
    {
      hide *;
      SettledParts();
      activeNew := NO_GEN;
      NoneActive(generations);
      SettledFrom();
    }

    /** The startup audit. Any flow whose generation cannot be reconstructed, and any doubt
        about the count, leaves nothing active and the controller unsafe. */
    method Audit(loaded: bool, ghost w: Watch) returns (authoritative: bool, ghost k: nat)
      requires Steady() && Settled() && host.Watched(w) && (!loaded ==> generations == map[])
      modifies faults, host`table, host`gone, host`trace, this`generations, this`activeNew
      modifies this`isUnsafe, this`reserved, this`failed
      ensures unchanged(faults`unattended)
      ensures Steady() && Settled() && host.Watched(w) && old(host.trace) <= host.trace
      ensures SameButPhases(old(generations), generations)
      ensures old(isUnsafe) ==> isUnsafe
      ensures Stirs(old(faults.Now()), faults.Now())
      ensures !isUnsafe ==> unchanged(this`generations, this`activeNew) && Disturbs(old(faults.Now()), faults.Now())
      ensures authoritative ==> host.cfg.hasCounter
      ensures if authoritative then AuditedAt(old(reserved), old(host.trace), k) else reserved == old(reserved)
      ensures authoritative ==> k < |host.trace|
      ensures old(failed) <= failed && (host.cfg.hasCounter && !authoritative ==> isUnsafe && old(failed) < failed)
      ensures Held() ==
                Doubted(old(Held()), DoubtAt(host.cfg, if authoritative then Some(k) else None, host.trace, old(generations)))
    {
      hide *;
      DisturbsIsReflexive(faults.Now());
      DisturbsHeeds(faults.Now(), faults.Now());
      IsSame(generations);
      if !host.cfg.hasCounter {
        NoAudit(None);
        return false, 0;
      }
      ghost var held := Held();
      ghost var f := faults.Now();
      ghost var before, h, known0 := reserved, host.trace, generations;
      HeldIs();
      var counts;
      counts, k := ConnectionCounts(w);
      DisturbsHeeds(f, faults.Now());
      if counts.None? {
        ghost var g := faults.Now();
        NobodyCounted();
        StirsIsTransitive(f, g, faults.Now());
        DoubtedMeans(held, None, known0);
        return false, k;
      }
      CountedAreValid(host.trace[k].table, host.cfg.port);
      ReconcileReserved(counts.value);
      ghost var known := generations.Keys;
      if exists id :: id in counts.value && counts.value[id] > 0 && id !in generations {
        SomeOrphan(host.trace[k].table, counts.value, known0);
        ghost var gens := generations;
        FoundOrphans(loaded);
        SameKeys(gens, generations);
        IsAudited(before, h, k);
        DoubtedMeans(held, Some(k), known0);
        return true, k;
      }
      AllCounted(host.trace[k].table, counts.value);
      IsAudited(before, h, k);
      DoubtedMeans(held, Some(k), known0);
      HeldIs();
      return true, k;
    }

    /** Nobody could count. */
    method NobodyCounted()
      requires Steady() && Settled()
      modifies faults`latched, faults`guard, this`generations, this`activeNew, this`isUnsafe
      ensures Steady() && Settled() && SameButPhases(old(generations), generations) && isUnsafe
      ensures Held() == Intent(Rephased(old(generations), Some(Active), Draining), NO_GEN, previous, true)
      ensures Stirs(old(faults.Now()), faults.Now())
    {
      hide *;
      isUnsafe := true;
      Rephase(Some(Active), Draining);
      ghost var g := faults.Now();
      RaiseLatch();
      LatchStirs(g);
      HeldIs();
    }

    /** Some flow belongs to no entry. */
    method FoundOrphans(loaded: bool)
      requires Settled() && (!loaded ==> generations == map[])
      modifies this`generations, this`activeNew, this`isUnsafe
      ensures Settled() && isUnsafe && Held() == Intent(old(generations), NO_GEN, previous, true)
      ensures SameButPhases(old(generations), generations)
    {
      hide *;
      isUnsafe := true;
      IsSame(generations);
      if loaded {
        ClearActive();
      } else {
        Rephase(None, Prepared);
        NothingToRephase();
      }
      HeldIs();
    }

    lemma NoAudit(audit: Option<nat>)
      requires !host.cfg.hasCounter
      ensures Doubted(Held(), DoubtAt(host.cfg, audit, host.trace, generations)) == Held()
    {
      hide NoOrphans;
    }

    static lemma NothingToRephase()
      ensures Rephased(map[], None, Prepared) == map[]
    {
    }

    lemma DoubtedMeans(i: Intent, audit: Option<nat>, gens: Gens)
      requires host.cfg.hasCounter && (audit.Some? ==> audit.value < |host.trace|)
      ensures Doubted(i, DoubtAt(host.cfg, audit, host.trace, gens)) ==
                if audit.None? then Intent(Rephased(i.gens, Some(Active), Draining), NO_GEN, i.previous, true)
                else if NoOrphans(host.trace[audit.value].table, host.cfg.port, gens) then i
                else Intent(i.gens, NO_GEN, i.previous, true)
    {
      hide NoOrphans, Rephased;
    }

    lemma SomeOrphan(t: Table, counts: map<GenId, nat>, gens: Gens)
      requires counts == NamespaceCounts(t, host.cfg.port)
      requires exists id :: id in counts && counts[id] > 0 && id !in gens
      ensures !NoOrphans(t, host.cfg.port, gens)
    {
      var id :| id in counts && counts[id] > 0 && id !in gens;
      hide Carried, NamespaceCounts;
      SnapshotIsAuthoritative(t, host.cfg.port, id);
    }

    /** The reservations have been reconciled with a snapshot taken at k, since h. */
    ghost predicate AuditedAt(before: set<GenId>, h: seq<Moment>, k: nat)
      reads this`reserved, this`generations, host`trace
    {
      && |h| <= k + 1 && k < |host.trace|
      && reserved == Allocation.Reconciled(before, NamespaceCounts(host.trace[k].table, host.cfg.port), generations.Keys)
    }

    lemma IsAudited(before: set<GenId>, h: seq<Moment>, k: nat)
      requires |h| <= k + 1 && k < |host.trace|
      requires reserved == Allocation.Reconciled(before, NamespaceCounts(host.trace[k].table, host.cfg.port), generations.Keys)
      ensures AuditedAt(before, h, k)
    {
    }

    lemma StillAudited(before: set<GenId>, earlier: seq<Moment>, h: seq<Moment>, mid: seq<Moment>, keys: set<GenId>, k: nat)
      requires earlier <= h && mid <= host.trace && |h| <= k + 1 && k < |mid| && keys == generations.Keys
      requires reserved == Allocation.Reconciled(before, NamespaceCounts(mid[k].table, host.cfg.port), keys)
      ensures AuditedAt(before, earlier, k)
    {
      assert mid[k] == host.trace[k];
    }

    lemma AuditedMeans(before: set<GenId>, h: seq<Moment>, k: nat)
      requires AuditedAt(before, h, k)
      ensures |h| <= k + 1 && k < |host.trace|
      ensures reserved == Allocation.Reconciled(before, NamespaceCounts(host.trace[k].table, host.cfg.port), generations.Keys)
    {
    }

    static lemma SameKeys(a: Gens, b: Gens)
      requires SameButPhases(a, b)
      ensures a.Keys == b.Keys
    {
    }

    static lemma IsSame(gens: Gens)
      ensures SameButPhases(gens, gens)
    {
    }

    lemma AllCounted(t: Table, counts: map<GenId, nat>)
      requires counts == NamespaceCounts(t, host.cfg.port)
      requires forall id :: id in counts && counts[id] > 0 ==> id in generations
      ensures NoOrphans(t, host.cfg.port, generations)
    {
      hide Carried, NamespaceCounts;
      forall id | Carried(t, host.cfg.port, id)
        ensures id in generations
      {
        SnapshotIsAuthoritative(t, host.cfg.port, id);
      }
    }

    /** restoreActiveAfterRestartLocked: a durable active identity is only desired state, so
        every restart goes through the neutral boundary again. */
    method RestoreActive(ghost w: Watch) returns (ok: bool, ghost boundary: Option<(nat, nat)>)
      requires Steady() && Settled() && host.Watched(w) && NO_GEN in w.allowed && activeNew != NO_GEN
      modifies faults, host`program, host`table, host`gone, host`trace, eng`active, eng`swaps
      modifies this`steeringInstalled, this`failed
      ensures unchanged(faults`unattended)
      ensures Steady() && Settled() && old(host.trace) <= host.trace && old(failed) <= failed
      ensures Disturbs(old(faults.Now()), faults.Now())
      ensures ok ==> eng.active == activeNew && host.program == Program(Live(generations), activeNew, false)
      ensures ok ==> boundary.Some?
      ensures !ok ==> !host.cfg.hasCounter || old(failed) < failed
      ensures BoundarySince(old(host.trace), host.trace, host.cfg.port, boundary)
      ensures boundary.None? ==> host.Watched(w)
      ensures host.Watched(Watch(w.since, w.allowed + {activeNew}, w.kept))
    {
      hide *;
      ghost var f := faults.Now();
      DisturbsIsReflexive(f);
      boundary := None;
      ghost var h0 := host.trace;
      NoBoundary(host.trace, host.trace, host.cfg.port);
      ok := false;
      Widens(w, {activeNew});
      if !host.cfg.hasCounter {
        return;
      }
      SettledParts();
      IsActive();
      LiveIsWithin(generations, NO_GEN, true);
      ghost var cut, swept;
      ok, cut := ProgramLocked(Live(generations), NO_GEN, true, true, w);
      Widens(w, {activeNew});
      if !ok {
        NoBoundary(h0, host.trace, host.cfg.port);
        return;
      }
      ghost var g := faults.Now();
      ok, swept := Neutralize(cut, w);
      DisturbsIsTransitive(f, g, faults.Now());
      Widens(w, {activeNew});
      if !ok {
        NoBoundary(h0, host.trace, host.cfg.port);
        return;
      }
      boundary := Some((cut, swept));
      ActiveIsLive(generations, activeNew);
      LiveIsWithin(generations, activeNew, false);
      ghost var h := host.trace;
      g := faults.Now();
      ok, cut := ProgramLocked(Live(generations), activeNew, false, false, Watch(w.since, w.allowed + {activeNew}, w.kept));
      DisturbsIsTransitive(f, g, faults.Now());
      BoundaryStays(h, host.trace, host.cfg.port, boundary.value.0, boundary.value.1);
      IsBoundarySince(h0, boundary);
      if !ok {
        return;
      }
      EntryFacts(activeNew);
      ok := eng.Activate(activeNew);
      assert ok;   // the engine is registered, so this cannot fail
    }

    /** The proofs of Start's recovery gate. */
    method ProveStartGate(startEpoch: nat, ghost w: Watch) returns (ok: bool)
      requires Steady() && Settled() && host.Watched(w)
      modifies faults, host`table, host`gone, host`trace, eng`byID, eng`log, eng`prepared, this`failed
      ensures unchanged(faults`unattended)
      ensures Steady() && Settled() && host.Watched(w) && old(host.trace) <= host.trace
      ensures old(eng.log) <= eng.log && old(failed) <= failed
      ensures Disturbs(old(faults.Now()), faults.Now())
      ensures ok ==> Proven(startEpoch, old(faults.Now()).Finishing(), faults.Now())
      ensures ok ==> SameTable(host.program, Program(Live(generations), activeNew, false))
    {
      hide *;
      ghost var f := faults.Now();
      Disturbance(w);
      var epochIntact := faults.epoch == startEpoch;
      ghost var g := faults.Now();
      Disturbance(w);
      DisturbsIsTransitive(f, g, faults.Now());
      if !epochIntact || faults.reconciling {
        return false;
      }
      ok := VerifyLiveEngines();
      g := faults.Now();
      ok := VerifyCurrentProgram(w);
      DisturbsIsTransitive(f, g, faults.Now());
      if ok {
        g := faults.Now();
        ok := ThreeLoads(startEpoch, w);
        if ok {
          DisturbsHeeds(f, g);
          ProvenSince(startEpoch, f, g, faults.Now());
        }
        DisturbsIsTransitive(f, g, faults.Now());
      }
    }

    /** The recovery gate as Start tries it: once, against the epoch Start began with. */
    method StartGate(startEpoch: nat, ghost w: Watch)
      requires Steady() && Settled() && host.Watched(w) && AtRest(activeNew, eng.active, Stands(), faults.Now())
      requires activeNew == NO_GEN && isUnsafe && !remediation && !persistFatal
      modifies faults, host`table, host`gone, host`trace, eng`byID, eng`log, eng`prepared, this`remediation
      modifies this`remediationEpoch, this`failed
      ensures unchanged(faults`unattended)
      ensures Steady() && Settled() && host.Watched(w) && old(host.trace) <= host.trace
      ensures old(eng.log) <= eng.log && old(failed) <= failed
      ensures AtRest(activeNew, eng.active, Stands(), faults.Now())
      ensures remediation ==> remediationEpoch == startEpoch && Proven(startEpoch, old(faults.Now()).Finishing(), faults.Now())
      ensures remediation ==> SameTable(host.program, Program(Live(generations), activeNew, false))
    {
      hide *;
      ghost var f, s := faults.Now(), Stands();
      StandsIs();
      RestGate(activeNew, eng.active, s, f, false, remediationEpoch, true);
      Arm();
      GuardStirs(f, true);
      ghost var f0 := f;
      f := faults.Now();
      var ok := ProveStartGate(startEpoch, w);
      if ok {
        ProvenSince(startEpoch, f0, f, faults.Now());
      }
      KeptIsKept(f, s, faults.Now());
      StaysAtRest(f, s);
      NowIs();
      f := faults.Now();
      if ok {
        RestGate(activeNew, eng.active, s, f, true, startEpoch, faults.guard);
        remediation, remediationEpoch := true, startEpoch;
      } else {
        RestGate(activeNew, eng.active, s, f, false, 0, false);
        remediation, remediationEpoch := false, 0;
        Disarm();
      }
      NowIs();
      StandsIs();
    }

    /** Start with nothing to activate: the retained generations are queued, new connections
        are assigned to none. */
    method ProgramInactive(startEpoch: nat, authoritative: bool, steering: bool, ghost w: Watch) returns (ok: bool)
      requires Steady() && Settled() && host.Watched(w) && NO_GEN in w.allowed
      requires activeNew == NO_GEN && eng.active == NO_GEN && AtRest(NO_GEN, NO_GEN, Stands(), faults.Now()) && !remediation
      modifies host, faults, this`failed, eng`active, eng`byID, eng`log, eng`prepared, this`steeringInstalled
      modifies this`offloads, this`persistFatal, this`isUnsafe, this`remediation, this`remediationEpoch
      modifies this`reports
      ensures unchanged(faults`unattended)
      ensures Steady() && Settled() && host.Watched(w) && old(host.trace) <= host.trace && old(failed) <= failed
      ensures old(eng.log) <= eng.log
      ensures old(reports) <= reports
      ensures ok ==> AtRest(NO_GEN, NO_GEN, Stands(), faults.Now()) && eng.active == NO_GEN
      ensures ok ==> host.program == Program(Live(generations), NO_GEN, false)
      ensures ok ==> isUnsafe == old(isUnsafe) && (old(DiskIsImage()) ==> DiskIsImage())
      ensures !ok ==> old(failed) < failed
    {
      hide *;
      ghost var f, s := faults.Now(), Stands();
      LiveIsWithin(generations, NO_GEN, false);
      ghost var cut;
      ok, cut := ProgramLocked(Live(generations), NO_GEN, false, true, w);
      KeptIsKept(f, s, faults.Now());
      StaysAtRest(f, s);
      if !ok {
        RemoveAgain(w);
        return false;
      }
      if isUnsafe && authoritative && !persistFatal {
        StartGate(startEpoch, w);
      }
      if !steering {
        ok := HandBack(w);
      }
      if ok {
        eng.Deactivate();
      }
    }

    /** Nothing is steered: the NIC gets its features back. */
    method HandBack(ghost w: Watch) returns (ok: bool)
      requires Steady() && Settled() && host.Watched(w) && AtRest(activeNew, eng.active, Stands(), faults.Now())
      modifies faults, host`table, host`gone, host`trace, host`disk, host`written, this`failed
      modifies this`persistFatal, this`isUnsafe, this`remediation, this`remediationEpoch, this`reports
      modifies this`offloads
      ensures unchanged(faults`unattended)
      ensures Steady() && Settled() && host.Watched(w) && AtRest(activeNew, eng.active, Stands(), faults.Now())
      ensures old(host.trace) <= host.trace && old(failed) <= failed && old(reports) <= reports
      ensures ok ==> isUnsafe == old(isUnsafe) && (old(DiskIsImage()) ==> DiskIsImage())
      ensures !ok ==> old(failed) < failed
    {
      hide *;
      ghost var f, s := faults.Now(), Stands();
      StandsIs();
      ok := RestoreOffloads(w);
      StaysAtRest(f, s);
      StandsIs();
    }

    /** The table could not be installed: it goes, and the NIC gets its features back. */
    method RemoveAgain(ghost w: Watch)
      requires Steady() && Settled() && host.Watched(w) && NO_GEN in w.allowed
      modifies host, faults, this`failed, this`steeringInstalled, this`offloads
      modifies this`persistFatal, this`isUnsafe, this`remediation, this`remediationEpoch, this`reports
      ensures unchanged(faults`unattended)
      ensures Steady() && Settled() && host.Watched(w) && old(host.trace) <= host.trace && old(failed) <= failed
      ensures old(reports) <= reports
    {
      hide *;
      NothingIsWithin(generations);
      var removed, cut := ProgramLocked(map[], NO_GEN, false, true, w);
      if removed {
        var restored := RestoreOffloads(w);
      }
    }

    /** Start up to the point where durable intent and the audit agree. */
    method Reckon(ghost w: Watch) returns (ok: bool, authoritative: bool, quarantined: bool, ghost audit: Option<nat>)
      requires Steady() && Settled() && Bare() && host.Watched(w) && Attended(faults.Now())
      requires eng.active == NO_GEN && activeNew == NO_GEN && generations == map[] && eng.byID == map[]
      requires !isUnsafe && !remediation && !persistFatal && previous == NO_GEN
      modifies faults, eng`byID, eng`log, eng`prepared, host`table, host`gone, host`trace, host`disk
      modifies this`failed, this`generations, this`activeNew, this`previous, this`isUnsafe, this`offloads
      modifies this`reserved, this`remediation, this`remediationEpoch
      ensures unchanged(faults`unattended)
      ensures Steady() && host.Watched(w) && old(host.trace) <= host.trace && old(failed) <= failed
      ensures old(eng.log) <= eng.log
      ensures ok ==> Settled() && !remediation && faults.Now().Ok() && faults.Now().Sound()
      ensures ok ==> (isUnsafe ==> activeNew == NO_GEN && faults.latched) && (!isUnsafe ==> Attended(faults.Now()))
      ensures (Readable(old(host.disk), host.cfg) ==> ok && !quarantined) && (!ok ==> old(failed) < failed)
      ensures ok ==>
                Held() == StartIntent(old(host.disk), DoubtAt(host.cfg, audit, host.trace, DiskIntent(old(host.disk), host.cfg).gens), host.cfg)
      ensures ok && audit.Some? ==> audit.value < |host.trace|
      ensures ok && audit.Some? ==> AuditedAt(old(reserved), old(host.trace), audit.value)
      ensures ok && audit.None? && host.cfg.hasCounter ==> isUnsafe
      ensures ok ==> authoritative == audit.Some?
    {
      hide *;
      ghost var f, h0, before, disk := faults.Now(), host.trace, reserved, host.disk;
      audit, authoritative := None, false;
      var loaded;
      AttendedMeans(f);
      ok, loaded, quarantined := LoadOrQuarantine(w);
      ghost var g, gens, h := faults.Now(), generations, host.trace;
      SoundStays(f, g);
      if !ok {
        return;
      }
      HeldIs();
      ghost var k, held := 0, Held();
      authoritative, k := Audit(loaded, w);
      SoundStays(g, faults.Now());
      if !isUnsafe {
        AttendedStays(g, faults.Now());
      }
      ghost var after, mid := generations, host.trace;
      ghost var d := DoubtAt(host.cfg, if authoritative then Some(k) else None, host.trace, gens);
      if authoritative {
        AuditedMeans(before, h, k);
      }
      SettleIntent();
      SteadyFacts();
      SameKeys(after, generations);
      if authoritative {
        audit := Some(k);
        StillAudited(before, h0, h, mid, generations.Keys, k);
      }
      HeldIs();
      IsStartIntent(disk);
      CautiousMeans(Doubted(held, d));
      assert d == DoubtAt(host.cfg, audit, host.trace, gens);
    }

    lemma IsStartIntent(disk: Disk)
      ensures forall d :: StartIntent(disk, d, host.cfg) == Cautious(Doubted(DiskIntent(disk, host.cfg), d))
    {
      hide DiskIntent, Doubted, Cautious;
    }

    /** An unsafe controller starts with nothing active and the latch up; the guard is down in
        any case. */
    method SettleIntent()
      requires Steady() && Settled() && !remediation && faults.Now().Ok() && faults.Now().Sound()
      requires !isUnsafe ==> Attended(faults.Now())
      modifies faults`latched, faults`guard, this`generations, this`activeNew, this`remediation, this`remediationEpoch
      ensures Steady() && Settled() && !remediation && faults.Now().Ok() && faults.Now().Sound()
      ensures if isUnsafe then activeNew == NO_GEN && faults.latched else Attended(faults.Now())
      ensures SameButPhases(old(generations), generations)
      ensures Held() == Cautious(old(Held()))
    {
      hide *;
      IsSame(generations);
      HeldIs();
      ghost var held, active := Held(), activeNew;
      ActiveListedOrZero();
      ghost var g := faults.Now();
      if isUnsafe {
        remediation, remediationEpoch := false, 0;
        RaiseLatch();
        LatchStirs(g);
        SoundStays(g, faults.Now());
        RetireSame();
      }
      CautiousMeans(held);
      HeldIs();
      g := faults.Now();
      NowIs();
      Disarm();
      NowIs();
      GuardIsIrrelevant(g, false);
      SteadyFacts();
    }

    lemma CautiousMeans(i: Intent)
      ensures Cautious(i) ==
                if !i.isUnsafe then i
                else Intent(if i.active in i.gens then WithPhase(i.gens, i.active, Draining) else i.gens, NO_GEN, i.previous, true)
    {
    }

    lemma ActiveListedOrZero()
      requires Settled()
      ensures activeNew in generations <==> activeNew != NO_GEN
    {
      SettledParts();
      hide *;
      ActiveIsLive(generations, activeNew);
      if NO_GEN in generations {
        EntryFacts(NO_GEN);
      }
    }

    method RetireSame()
      requires Settled()
      modifies this`generations, this`activeNew
      ensures Settled() && activeNew == NO_GEN && SameButPhases(old(generations), generations)
      ensures generations ==
                if old(activeNew) in old(generations) then WithPhase(old(generations), old(activeNew), Draining) else old(generations)
    {
      hide *;
      IsSame(generations);
      ActiveListedOrZero();
      if activeNew != NO_GEN {
        ghost var before, was := generations, activeNew;
        Retire();
        WithPhaseIsSame(before, was, Draining);
      } else {
        Retire();
      }
    }

    lemma UnsafeIsLatched()
      requires Valid()
      ensures isUnsafe ==> faults.latched
    {
      hide *;
      ValidParts();
      StandsIs();
      NowIs();
      RestUnsafe(activeNew, eng.active, Stands(), faults.Now());
    }

    /** Start. Until the stale table of a predecessor is gone nothing is believed; whatever
        the process that wrote the state file was doing, a readable file is reloaded and not
        quarantined; and nothing is assigned except through a boundary. From `since` on only
        entries have been assigned; `audit` is the moment of the snapshot, if there was one,
        that the reservations account for. */
    method Start() returns (ok: bool, quarantined: bool, ghost boundary: Option<(nat, nat)>, ghost since: nat, ghost audit: Option<nat>)
      requires Steady() && Fresh() && faults.Now().Sound()
      modifies this, host, eng, faults
      ensures unchanged(faults`unattended)
      ensures Steady() && old(host.trace) <= host.trace && old(failed) <= failed
      ensures old(eng.log) <= eng.log
      ensures old(reports) <= reports
      ensures ok ==> Valid() && DiskIsImage()
      ensures ok && activeNew != NO_GEN ==> boundary.Some? && !isUnsafe && eng.active == activeNew
      ensures ok ==> host.program == Program(Live(generations), activeNew, false)
      ensures BoundarySince(old(host.trace), host.trace, host.cfg.port, boundary)
      ensures boundary.None? ==> host.Watched(Watch(|old(host.trace)| - 1, {NO_GEN}, {old(host.program)}))
      ensures ok ==>
                Held() == StartIntent(old(host.disk), DoubtAt(host.cfg, audit, host.trace, DiskIntent(old(host.disk), host.cfg).gens), host.cfg)
      ensures ok && audit.Some? ==> audit.value < |host.trace|
      ensures ok && isUnsafe ==> faults.latched && activeNew == NO_GEN
      ensures Readable(old(host.disk), host.cfg) ==> !quarantined
      ensures ok ==> since < |host.trace| && Allocation.NeverRegained(host.trace, host.cfg.port, since, generations.Keys)
      ensures ok && audit.Some? ==> Allocation.Accounted(host.table, host.cfg.port, generations.Keys, reserved)
      ensures ok && audit.None? && host.cfg.hasCounter ==> isUnsafe
      ensures !ok ==> old(faults.latched) || !host.cfg.hasCounter || old(failed) < failed
    {
      hide *;
      boundary, ok, quarantined, since, audit := None, false, false, 0, None;
      NoBoundary(host.trace, host.trace, host.cfg.port);
      SteadyFacts();
      FreshParts();
      WatchFrom({NO_GEN});
      ghost var w := Watch(|host.trace| - 1, {NO_GEN}, {host.program});
      var startEpoch := faults.epoch;
      if faults.latched {
        return;
      }
      ghost var f := faults.Now();
      NowIs();
      IsQuiet(f);
      ok := RemoveStale(w);
      AttendedStays(f, faults.Now());
      NoBoundary(old(host.trace), host.trace, host.cfg.port);
      if !ok {
        return;
      }
      ghost var h := host.trace;
      since := |host.trace| - 1;
      BareFromNow();
      WatchedFacts(w);
      ok, quarantined, boundary, audit := Rebuild(startEpoch, since);
      BoundarySinceStays(old(host.trace), h, host.trace, host.trace, host.cfg.port, boundary);
      if ok {
        UnsafeIsLatched();
      }
      if boundary.None? {
        Spliced(h, w, Watch(since, {NO_GEN}));
      }
    }

    lemma BareFromNow()
      requires Steady() && Bare()
      ensures |host.trace| > 0 && host.Watched(Watch(|host.trace| - 1, {NO_GEN}))
    {
      SteadyFacts();
      hide Host.History, SafeFor, Steady;
    }

    /** Start, once nothing is installed any more. */
    method Rebuild(startEpoch: nat, ghost since: nat)
      returns (ok: bool, quarantined: bool, ghost boundary: Option<(nat, nat)>, ghost audit: Option<nat>)
      requires Steady() && Settled() && Bare() && host.Watched(Watch(since, {NO_GEN})) && since == |host.trace| - 1
      requires Attended(faults.Now()) && reserved == {}
      requires eng.active == NO_GEN && activeNew == NO_GEN && generations == map[] && eng.byID == map[]
      requires !isUnsafe && !remediation && !persistFatal && previous == NO_GEN
      modifies this, host, eng, faults
      ensures unchanged(faults`unattended, this`serving)
      ensures Steady() && old(host.trace) <= host.trace && old(failed) <= failed && old(reports) <= reports
      ensures old(eng.log) <= eng.log
      ensures ok ==> Valid() && DiskIsImage()
      ensures ok && activeNew != NO_GEN ==> boundary.Some? && !isUnsafe && eng.active == activeNew
      ensures ok ==> host.program == Program(Live(generations), activeNew, false)
      ensures BoundarySince(old(host.trace), host.trace, host.cfg.port, boundary)
      ensures boundary.None? ==> host.Watched(Watch(since, {NO_GEN}))
      ensures ok ==>
                Held() == StartIntent(old(host.disk), DoubtAt(host.cfg, audit, host.trace, DiskIntent(old(host.disk), host.cfg).gens), host.cfg)
      ensures ok && audit.Some? ==> audit.value < |host.trace|
      ensures Readable(old(host.disk), host.cfg) ==> !quarantined
      ensures ok ==> Allocation.NeverRegained(host.trace, host.cfg.port, since, generations.Keys)
      ensures ok && audit.Some? ==> Allocation.Accounted(host.table, host.cfg.port, generations.Keys, reserved)
      ensures ok && audit.None? && host.cfg.hasCounter ==> isUnsafe
      ensures !ok ==> !host.cfg.hasCounter || old(failed) < failed
    {
      hide *;
      boundary := None;
      ghost var h0, w, disk := host.trace, Watch(since, {NO_GEN}), host.disk;
      DisturbedBare(w);
      var authoritative;
      ghost var h1 := host.trace;
      ok, authoritative, quarantined, audit := Reckon(w);
      NoBoundary(h0, host.trace, host.cfg.port);
      if !ok {
        return;
      }
      ghost var h := host.trace;
      if audit.Some? {
        AuditedMeans({}, h1, audit.value);
      }
      HeldIs();
      ok, boundary := Resume(startEpoch, authoritative, w);
      BoundarySinceStays(h0, h, host.trace, host.trace, host.cfg.port, boundary);
      if ok {
        HeldIs();
        DoubtStays(host.cfg, audit, h, host.trace, DiskIntent(disk, host.cfg).gens);
        NothingLost(h0, since);
        if audit.Some? {
          AccountedFrom(h, since, audit.value);
        }
      }
    }

    method DisturbedBare(ghost w: Watch)
      requires Steady() && Settled() && Bare() && host.Watched(w) && Attended(faults.Now())
      modifies faults, host`table, host`gone, host`trace
      ensures unchanged(faults`unattended)
      ensures Steady() && Settled() && Bare() && host.Watched(w) && old(host.trace) <= host.trace && Attended(faults.Now())
    {
      hide *;
      ghost var f := faults.Now();
      Disturbance(w);
      AttendedStays(f, faults.Now());
    }

    /** Nothing but entries has been assigned since the end of h. */
    lemma NothingLost(h: seq<Moment>, since: nat)
      requires Valid() && h <= host.trace && |h| > 0 && since == |h| - 1
      requires host.Watched(Watch(since, {NO_GEN} + {activeNew}, {}))
      ensures Allocation.NeverRegained(host.trace, host.cfg.port, since, generations.Keys)
    {
      hide *;
      ValidParts();
      SteadyFacts();
      Listed();
      OnlyListed(h, Watch(since, {NO_GEN} + {activeNew}, {}), generations.Keys);
      Allocation.NothingRegainedYet(h, host.cfg.port, generations.Keys);
      Allocation.MoreListed(h, host.trace, generations.Keys, generations.Keys + generations.Keys);
      Allocation.StillNeverRegained(host, h, since, generations.Keys, generations.Keys);
    }

    lemma AccountedFrom(h: seq<Moment>, since: nat, k: nat)
      requires Valid() && h <= host.trace && since <= k < |h|
      requires Allocation.NeverRegained(host.trace, host.cfg.port, since, generations.Keys)
      requires reserved == Allocation.Reconciled({}, NamespaceCounts(h[k].table, host.cfg.port), generations.Keys)
      ensures Allocation.Accounted(host.table, host.cfg.port, generations.Keys, reserved)
    {
      hide *;
      ValidParts();
      TableIsLast();
      assert h[k] == host.trace[k];
      Allocation.SnapshotAccounts(host.trace, host.cfg.port, since, k, generations.Keys, {});
    }

    /** Start from the point where durable intent is settled. */
    method Resume(startEpoch: nat, authoritative: bool, ghost w: Watch) returns (ok: bool, ghost boundary: Option<(nat, nat)>)
      requires Steady() && Settled() && host.Watched(w) && NO_GEN in w.allowed && eng.active == NO_GEN
      requires !remediation && !persistFatal && faults.Now().Ok() && faults.Now().Sound()
      requires if isUnsafe then activeNew == NO_GEN && faults.latched else Attended(faults.Now())
      modifies host, eng, faults, this`failed, this`steeringInstalled, this`offloads, this`persistFatal
      modifies this`isUnsafe, this`remediation, this`remediationEpoch, this`reports
      ensures unchanged(faults`unattended)
      ensures Steady() && old(host.trace) <= host.trace && old(failed) <= failed
      ensures old(eng.log) <= eng.log
      ensures old(reports) <= reports
      ensures ok ==> Valid() && isUnsafe == old(isUnsafe) && DiskIsImage()
      ensures ok && activeNew != NO_GEN ==> boundary.Some? && !isUnsafe && eng.active == activeNew
      ensures ok ==> host.program == Program(Live(generations), activeNew, false)
      ensures BoundarySince(old(host.trace), host.trace, host.cfg.port, boundary)
      ensures boundary.None? ==> host.Watched(w)
      ensures host.Watched(Watch(w.since, w.allowed + {activeNew}, w.kept))
      ensures !ok ==> !host.cfg.hasCounter || old(failed) < failed
    {
      hide *;
      boundary := None;
      ghost var h0 := host.trace;
      StandsIs();
      NowIs();
      ghost var f, s := faults.Now(), Stands();
      StartRest(activeNew, s, f);
      ok := PersistLocked(w);
      StaysAtRest(f, s);
      StandsIs();
      NoBoundary(h0, host.trace, host.cfg.port);
      Widens(w, {activeNew});
      if !ok {
        return;
      }
      var steering := HasSteering(generations);
      if steering {
        ghost var g := faults.Now();
        ok := EnsureOffloadsDown(w);
        StaysAtRest(g, s);
        StandsIs();
        NoBoundary(h0, host.trace, host.cfg.port);
        Widens(w, {activeNew});
        if !ok {
          return;
        }
        DisturbsIsTransitive(f, g, faults.Now());
      }
      if activeNew != NO_GEN && !isUnsafe {
        ghost var g := faults.Now();
        ghost var h := host.trace;
        ok, boundary := RestoreActive(w);
        BoundarySinceStays(h0, h, host.trace, host.trace, host.cfg.port, boundary);
        DisturbsIsTransitive(f, g, faults.Now());
        AttendedStays(f, faults.Now());
        StandsIs();
        if ok {
          RestAttended(activeNew, Stands(), faults.Now());
          ValidFrom();
        }
        return;
      }
      ok := ProgramInactive(startEpoch, authoritative, steering, w);
      NoBoundary(h0, host.trace, host.cfg.port);
      Widens(w, {activeNew});
      if ok {
        ValidFrom();
      }
    }

    /** Close: the NIC gets its features back only once no rule is left. */
    method Close() returns (ok: bool)
      requires Valid()
      modifies host, faults, this`failed, this`steeringInstalled, this`offloads, this`persistFatal
      modifies this`isUnsafe, this`remediation, this`remediationEpoch, this`reports
      ensures unchanged(faults`unattended)
      ensures Valid() && old(host.trace) <= host.trace && old(failed) <= failed
      ensures old(reports) <= reports
      ensures Allocation.AssignedOnly(old(host.trace), host.trace, generations.Keys)
      ensures ok ==> host.program == Program(map[], NO_GEN, false) && !steeringInstalled
      ensures offloads == old(offloads) || host.program == Program(map[], NO_GEN, false)
      ensures !ok ==> old(failed) < failed
    {
      hide *;
      ValidParts();
      WatchFrom({NO_GEN});
      ghost var w := Watch(|host.trace| - 1, {NO_GEN}, {host.program});
      Listed();
      ghost var h, listed := host.trace, generations.Keys;
      NothingIsWithin(generations);
      NothingSteers();
      ghost var f, s := faults.Now(), Stands();
      ghost var cut;
      ok, cut := ProgramLocked(map[], NO_GEN, false, true, w);
      KeptIsKept(f, s, faults.Now());
      StaysAtRest(f, s);
      if ok {
        f := faults.Now();
        ok := RestoreOffloads(w);
        StaysAtRest(f, s);
      }
      Listed();
      OnlyListed(h, w, generations.Keys);
      ValidFrom();
    }
  }
}
