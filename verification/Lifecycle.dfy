/** What the generation table, the registry, the program and the state file have to do with
    each other, and the fault latch as a lifecycle operation sees it. */
module Lifecycle {
  import opened Wrappers
  import opened Selectors
  import opened Artifacts
  import opened Hosts
  import opened Registries
  import Marks

  function Live(gens: Gens): map<GenId, Scope> {
    map id | id in gens && gens[id].Live() :: gens[id].scope
  }

  /** A program has rules for the generations that serve connections, new or old. */
  lemma LiveMeans(gens: Gens)
    ensures forall id :: id in Live(gens) <==> id in gens && (gens[id].phase == Active || gens[id].phase == Draining)
    ensures forall id :: id in Live(gens) ==> Live(gens)[id] == gens[id].scope
    ensures HasSteering(gens) <==> Steers(Program(Live(gens), NO_GEN, false))
  {
    if id :| id in gens && gens[id].Live() && !gens[id].scope.Idle() {
      assert id in Live(gens) && !Live(gens)[id].Idle();
    }
  }

  predicate HasSteering(gens: Gens) {
    exists id :: id in gens && gens[id].Live() && !gens[id].scope.Idle()
  }

  function WithPhase(gens: Gens, id: GenId, phase: Phase): Gens
    requires id in gens
  {
    gens[id := gens[id].(phase := phase)]
  }

  function Phases(gens: Gens): map<GenId, Phase> {
    map id | id in gens :: gens[id].phase
  }

  function RestorePhases(gens: Gens, phases: map<GenId, Phase>): Gens {
    map id | id in gens :: if id in phases then gens[id].(phase := phases[id]) else gens[id]
  }

  lemma RestoringPhasesRestores(before: Gens, after: Gens)
    requires SameButPhases(before, after)
    ensures RestorePhases(after, Phases(before)) == before
  {
  }

  /** Every entry has exactly its engine, and no engine is without an entry. */
  ghost predicate EnginesMatch(byID: Engines, gens: Gens) {
    byID.Keys == gens.Keys && forall id :: id in gens ==> byID[id].dna == gens[id].dna
  }

  /** The surviving state file can reconstruct every entry. */
  ghost predicate DiskCovers(disk: Disk, gens: Gens) {
    && (gens != map[] ==> disk.Stored?)
    && forall id :: id in gens ==>
         id in ById(disk.file.generations) && ById(disk.file.generations)[id].dna == gens[id].dna
  }

  /** The program steers only entries, each with its own scope. */
  ghost predicate ProgramWithin(p: Program, gens: Gens) {
    && (forall id :: id in p.live ==> id in gens && p.live[id] == gens[id].scope)
    && (p.assignee != NO_GEN ==> p.assignee in p.live)
  }

  function DnasOf(byID: Engines): map<GenId, Dna> {
    map id | id in byID :: byID[id].dna
  }

  /** Agreement of the three makes a program safe to run. */
  lemma AgreementIsSafe(p: Program, byID: Engines, disk: Disk, gens: Gens, cfg: Config)
    requires GensOk(gens, cfg) && EnginesMatch(byID, gens) && DiskCovers(disk, gens) && ProgramWithin(p, gens)
    ensures SafeFor(p, DnasOf(byID), disk, cfg) && ProgramIdsOk(p)
  {
    hide GensOk, GenOk, ScopeFor, ValidGen, ById, DiskCovers, EnginesMatch, Backed;
    forall id | id in p.live
      ensures ValidGen(id) && Backed(id, p.live[id], DnasOf(byID), disk, cfg)
    {
      EntryIsBacked(id, byID, disk, gens, cfg);
    }
  }

  lemma EntryIsBacked(id: GenId, byID: Engines, disk: Disk, gens: Gens, cfg: Config)
    requires GensOk(gens, cfg) && EnginesMatch(byID, gens) && DiskCovers(disk, gens) && id in gens
    ensures ValidGen(id) && Backed(id, gens[id].scope, DnasOf(byID), disk, cfg)
  {
    ScopeIsOfDna(gens[id], cfg);
    hide GenOk, ScopeFor, ValidGen, ById, WithinBudgets, OneIdPerIdentity;
    assert disk.Stored?;
  }

  /** Publishing one more engine endangers nothing. */
  lemma MoreEnginesAreSafe(p: Program, byID: Engines, more: Engines, disk: Disk, cfg: Config)
    requires SafeFor(p, DnasOf(byID), disk, cfg)
    requires forall id :: id in byID ==> id in more && more[id] == byID[id]
    ensures SafeFor(p, DnasOf(more), disk, cfg)
  {
    hide ValidGen, ScopeFor, ById;
    forall id | id in p.live
      ensures Backed(id, p.live[id], DnasOf(more), disk, cfg)
    {
      assert Backed(id, p.live[id], DnasOf(byID), disk, cfg);
    }
  }

  lemma OneMoreAgrees(gens: Gens, id: GenId, g: Gen, byID: Engines, p: Program)
    requires EnginesMatch(byID - {id}, gens) && id in byID && byID[id].dna == g.dna && id !in gens
    requires ProgramWithin(p, gens)
    ensures EnginesMatch(byID, gens[id := g]) && ProgramWithin(p, gens[id := g])
  {
  }

  lemma OneMoreActive(gens: Gens, id: GenId, g: Gen, active: GenId)
    requires ActiveOk(gens, active) && id !in gens
    ensures ActiveOk(gens[id := g], active)
  {
  }

  lemma CoveredWithout(gens: Gens, id: GenId, g: Gen, disk: Disk)
    requires DiskCovers(disk, gens[id := g]) && id !in gens
    ensures DiskCovers(disk, gens)
  {
    hide ById;
    assert id in gens[id := g];
    forall i | i in gens
      ensures i in gens[id := g] && gens[id := g][i] == gens[i]
    {
    }
  }

  lemma ScopeIsOfDna(g: Gen, cfg: Config)
    requires GenOk(g, cfg)
    ensures ScopeFor(g.dna, cfg) == Some(g.scope)
    ensures cfg.library.scopeOf(g.dna).Some?
  {
  }

  lemma LiveIsWithin(gens: Gens, assignee: GenId, neutral: bool)
    requires assignee != NO_GEN ==> assignee in gens && gens[assignee].Live()
    ensures ProgramWithin(Program(Live(gens), assignee, neutral), gens)
  {
  }

  lemma PhasesDoNotMatterToAgreement(before: Gens, after: Gens, p: Program, byID: Engines, disk: Disk)
    requires SameButPhases(before, after)
    ensures EnginesMatch(byID, before) ==> EnginesMatch(byID, after)
    ensures DiskCovers(disk, before) ==> DiskCovers(disk, after)
    ensures ProgramWithin(p, before) ==> ProgramWithin(p, after)
  {
    if DiskCovers(disk, before) && after != map[] {
      assert before != map[] by {
        var id :| id in after;
        assert id in before;
      }
    }
  }

  lemma PhasesKeepAgreement(before: Gens, after: Gens, p: Program, byID: Engines, disk: Disk, cfg: Config)
    requires SameButPhases(before, after) && GensOk(before, cfg)
    requires EnginesMatch(byID, before) && DiskCovers(disk, before) && ProgramWithin(p, before)
    ensures GensOk(after, cfg) && EnginesMatch(byID, after) && DiskCovers(disk, after) && ProgramWithin(p, after)
  {
    hide *;
    PhasesDoNotMatter(before, after, cfg);
    PhasesDoNotMatterToAgreement(before, after, p, byID, disk);
  }

  lemma FewerAgree(gens: Gens, id: GenId, byID: Engines, disk: Disk, p: Program, cfg: Config)
    requires GensOk(gens, cfg) && EnginesMatch(byID, gens) && DiskCovers(disk, gens)
    requires ProgramWithin(p, gens - {id})
    ensures GensOk(gens - {id}, cfg) && EnginesMatch(byID - {id}, gens - {id}) && DiskCovers(disk, gens - {id})
    ensures ProgramWithin(p, gens)
  {
    hide *;
    FewerIsStillOk(gens, id, cfg);
    FewerMatch(gens, id, byID);
    FewerCovered(gens, id, disk);
    FewerWithin(gens, id, p);
  }

  lemma FewerMatch(gens: Gens, id: GenId, byID: Engines)
    requires EnginesMatch(byID, gens)
    ensures EnginesMatch(byID - {id}, gens - {id})
  {
  }

  lemma FewerCovered(gens: Gens, id: GenId, disk: Disk)
    requires DiskCovers(disk, gens)
    ensures DiskCovers(disk, gens - {id})
  {
    hide ById;
  }

  lemma FewerWithin(gens: Gens, id: GenId, p: Program)
    requires ProgramWithin(p, gens - {id})
    ensures ProgramWithin(p, gens)
  {
  }

  lemma FewerActive(gens: Gens, id: GenId, active: GenId)
    requires ActiveOk(gens, active) && id != active
    ensures ActiveOk(gens - {id}, active)
    ensures active != NO_GEN ==> active in gens - {id} && (gens - {id})[active].Live()
  {
  }

  lemma NothingIsWithin(gens: Gens)
    ensures ProgramWithin(Program(map[], NO_GEN, false), gens)
  {
  }

  lemma WithPhaseIsSame(gens: Gens, id: GenId, phase: Phase)
    requires id in gens
    ensures SameButPhases(gens, WithPhase(gens, id, phase))
  {
  }

  /** An image of a view covers exactly the view's entries. */
  lemma ImageCovers(f: File, v: View)
    requires IsImage(f, v)
    ensures DiskCovers(Stored(f), v.gens)
  {
    ImageById(f, v);
  }

  // ---------------------------------------------------------------- loading

  lemma ReloadedIsOk(r: Record, cfg: Config)
    requires RecordOk(r, cfg)
    ensures GenOk(Reloaded(r, cfg), cfg) && ValidGen(r.id)
    ensures Reloaded(r, cfg).identity == r.identity && Reloaded(r, cfg).dna == r.dna && Reloaded(r, cfg).phase == r.phase
  {
  }

  lemma ReloadedAt(rs: seq<Record>, cfg: Config, i: nat)
    requires DistinctIds(rs) && (forall k :: 0 <= k < |rs| ==> RecordOk(rs[k], cfg)) && i < |rs|
    ensures rs[i].id in ReloadedGens(rs, cfg) && ReloadedGens(rs, cfg)[rs[i].id] == Reloaded(rs[i], cfg)
    ensures rs[i].id in ById(rs) && ById(rs)[rs[i].id] == rs[i]
  {
    hide *;
    ReloadedGensLookup(rs, cfg);
    ByIdIsLookup(rs);
  }

  lemma ReloadedCameFrom(rs: seq<Record>, cfg: Config, id: GenId) returns (i: nat)
    requires DistinctIds(rs) && (forall k :: 0 <= k < |rs| ==> RecordOk(rs[k], cfg)) && id in ReloadedGens(rs, cfg)
    ensures i < |rs| && rs[i].id == id
  {
    hide *;
    ReloadedGensLookup(rs, cfg);
    ByIdIsLookup(rs);
    assert ById(rs)[id] in rs;
    i :| 0 <= i < |rs| && rs[i] == ById(rs)[id];
  }

  lemma ReloadedEntriesOk(rs: seq<Record>, cfg: Config)
    requires DistinctIds(rs) && forall k :: 0 <= k < |rs| ==> RecordOk(rs[k], cfg)
    ensures var gens := ReloadedGens(rs, cfg);
            forall id :: id in gens ==>
              ValidGen(id) && GenOk(gens[id], cfg) && id in ById(rs) && ById(rs)[id].dna == gens[id].dna
  {
    hide *;
    var gens := ReloadedGens(rs, cfg);
    forall id | id in gens
      ensures ValidGen(id) && GenOk(gens[id], cfg) && id in ById(rs) && ById(rs)[id].dna == gens[id].dna
    {
      var i := ReloadedCameFrom(rs, cfg, id);
      ReloadedAt(rs, cfg, i);
      ReloadedIsOk(rs[i], cfg);
    }
  }

  lemma ReloadedIdentities(rs: seq<Record>, cfg: Config)
    requires DistinctIds(rs) && DistinctIdentities(rs) && forall k :: 0 <= k < |rs| ==> RecordOk(rs[k], cfg)
    ensures var gens := ReloadedGens(rs, cfg);
            forall i, j :: i in gens && j in gens && gens[i].identity == gens[j].identity ==> i == j
  {
    hide *;
    var gens := ReloadedGens(rs, cfg);
    forall i, j | i in gens && j in gens && gens[i].identity == gens[j].identity
      ensures i == j
    {
      var p := ReloadedCameFrom(rs, cfg, i);
      var q := ReloadedCameFrom(rs, cfg, j);
      ReloadedAt(rs, cfg, p);
      ReloadedAt(rs, cfg, q);
      ReloadedIsOk(rs[p], cfg);
      ReloadedIsOk(rs[q], cfg);
      IdentitiesDiffer(rs, p, q);
    }
  }

  /** What a loadable file reconstructs is a table that agrees with the file. */
  lemma LoadedAgrees(f: File, cfg: Config)
    requires Loadable(f, cfg)
    ensures GensOk(ReloadedGens(f.generations, cfg), cfg)
    ensures DiskCovers(Stored(f), ReloadedGens(f.generations, cfg))
    ensures ActiveOk(ReloadedGens(f.generations, cfg), f.activeNew)
    ensures f.offloads.Some? ==> f.offloads.value == cfg.iface
  {
    LoadableParts(f, cfg);
    hide *;
    var rs := f.generations;
    var gens := ReloadedGens(rs, cfg);
    ReloadedEntriesOk(rs, cfg);
    ReloadedIdentities(rs, cfg);
    ReloadedSize(rs, cfg);
    IsGensOk(gens, cfg);
    IsCovered(f, gens);
    if f.activeNew != NO_GEN {
      var i :| 0 <= i < |rs| && rs[i].id == f.activeNew && rs[i].phase == Active;
      ReloadedAt(rs, cfg, i);
      ReloadedIsOk(rs[i], cfg);
    }
    IsActiveOk(gens, f.activeNew);
  }

  lemma LoadableParts(f: File, cfg: Config)
    requires Loadable(f, cfg)
    ensures f.offloads.Some? ==> f.offloads.value == cfg.iface
    ensures |f.generations| <= cfg.maxGenerations
    ensures forall i :: 0 <= i < |f.generations| ==> RecordOk(f.generations[i], cfg)
    ensures DistinctIds(f.generations) && DistinctIdentities(f.generations)
    ensures f.activeNew != NO_GEN ==>
              exists i :: 0 <= i < |f.generations| && f.generations[i].id == f.activeNew && f.generations[i].phase == Active
    ensures WithinBudgets(ReloadedGens(f.generations, cfg), cfg)
  {
    hide RecordOk, WithinBudgets, ReloadedGens;
  }

  lemma IdentitiesDiffer(rs: seq<Record>, p: nat, q: nat)
    requires DistinctIdentities(rs) && p < |rs| && q < |rs| && rs[p].identity == rs[q].identity
    ensures p == q
  {
  }

  lemma ReloadedSize(rs: seq<Record>, cfg: Config)
    requires DistinctIds(rs) && forall k :: 0 <= k < |rs| ==> RecordOk(rs[k], cfg)
    ensures |ReloadedGens(rs, cfg)| == |rs|
  {
    hide RecordOk, Reloaded;
    ReloadedGensLookup(rs, cfg);
    ByIdIsLookup(rs);
    assert |ReloadedGens(rs, cfg)| == |ReloadedGens(rs, cfg).Keys| && |ById(rs)| == |ById(rs).Keys|;
  }

  lemma IsGensOk(gens: Gens, cfg: Config)
    requires forall id :: id in gens ==> ValidGen(id) && GenOk(gens[id], cfg)
    requires forall i, j :: i in gens && j in gens && gens[i].identity == gens[j].identity ==> i == j
    requires |gens| <= cfg.maxGenerations && WithinBudgets(gens, cfg)
    ensures GensOk(gens, cfg)
  {
    hide ValidGen, GenOk, WithinBudgets;
  }

  lemma IsCovered(f: File, gens: Gens)
    requires forall id :: id in gens ==> id in ById(f.generations) && ById(f.generations)[id].dna == gens[id].dna
    ensures DiskCovers(Stored(f), gens)
  {
    hide ById;
  }

  lemma IsActiveOk(gens: Gens, active: GenId)
    requires active != NO_GEN ==> active in gens && gens[active].phase == Active
    ensures ActiveOk(gens, active)
  {
  }

  lemma EmptyAgrees(disk: Disk, cfg: Config)
    ensures GensOk(map[], cfg) && EnginesMatch(map[], map[]) && DiskCovers(disk, map[]) && ActiveOk(map[], NO_GEN)
    ensures ProgramWithin(Program(map[], NO_GEN, false), map[])
    ensures SafeFor(Program(map[], NO_GEN, false), DnasOf(map[]), disk, cfg) && EnginesOk(map[], 0)
  {
  }

  lemma NothingIsSafe(engines: map<GenId, Dna>, disk: Disk, cfg: Config)
    ensures SafeFor(Program(map[], NO_GEN, false), engines, disk, cfg) && ProgramIdsOk(Program(map[], NO_GEN, false))
  {
  }

  // ---------------------------------------------------------------- the fault latch

  /** The atomics a fault signal touches. `waiting` is a reconciliation that has been
      scheduled and still has to take the mutex; a raised `reconciling` without it belongs
      to one that has released the mutex but not yet lowered the flag. `unattended` says that
      the last repair ended with its fault latched and nobody scheduled to see to it, and
      that no reconciliation and no repair has settled it since; no signal touches it. */
  datatype Faults = Faults(epoch: nat, latched: bool, guard: bool, reconciling: bool, waiting: bool, unattended: bool)
  {
    predicate Finishing() {
      reconciling && !waiting
    }

    predicate Ok() {
      waiting ==> reconciling
    }

    /** Holds whenever the mutex is free. */
    predicate Sound() {
      reconciling ==> latched
    }
  }

  function Signal(f: Faults): Faults {
    Faults(f.epoch + 1, true, false, true, f.waiting || !f.reconciling, f.unattended)
  }

  function Finish(f: Faults): Faults {
    if f.Finishing() then f.(reconciling := false) else f
  }

  /** What never goes back while one operation holds the mutex, whatever it does itself. */
  ghost predicate Stirs(a: Faults, b: Faults) {
    && a.epoch <= b.epoch
    && (a.latched ==> b.latched)
    && (a.waiting ==> b.waiting)
    && (b.epoch == a.epoch && b.reconciling ==> a.reconciling)
    && b.unattended == a.unattended
    && (b.Finishing() ==> a.Finishing())
    && (a.Ok() ==> b.Ok())
    && (a.Sound() ==> b.Sound())
  }

  /** As Disturbs, but the operation may have armed or disarmed the guard. */
  ghost predicate Heeds(a: Faults, b: Faults) {
    && Stirs(a, b)
    && (b.epoch == a.epoch ==>
          && b.latched == a.latched && b.waiting == a.waiting
          && (b.reconciling ==> a.reconciling) && (a.reconciling && !b.reconciling ==> a.Finishing()))
    && (b.epoch > a.epoch ==> b.latched && (b.waiting || a.Finishing()))
  }

  /** b is what any number of signals, and a finished reconciliation lowering its flag, can
      make of a while some operation holds the mutex. */
  ghost predicate Disturbs(a: Faults, b: Faults) {
    && Heeds(a, b)
    && (b.guard ==> a.guard)
    && (b.epoch == a.epoch ==> b.guard == a.guard)
    && (b.epoch > a.epoch ==> !b.guard)
  }

  lemma DisturbsIsReflexive(a: Faults)
    ensures Disturbs(a, a)
  {
  }

  lemma DisturbsIsTransitive(a: Faults, b: Faults, c: Faults)
    requires Disturbs(a, b) && Disturbs(b, c)
    ensures Disturbs(a, c)
  {
  }

  lemma StirsIsTransitive(a: Faults, b: Faults, c: Faults)
    requires Stirs(a, b) && Stirs(b, c)
    ensures Stirs(a, c)
  {
  }

  lemma LatchStays(a: Faults, b: Faults)
    requires Stirs(a, b) && a.latched
    ensures b.latched
  {
  }

  lemma OkIsKept(a: Faults, b: Faults)
    requires a.Ok() && Disturbs(a, b)
    ensures b.Ok()
  {
  }

  lemma DisturbsHeeds(a: Faults, b: Faults)
    requires Disturbs(a, b)
    ensures Heeds(a, b) && Stirs(a, b)
  {
  }

  lemma DisturbsUnmoved(a: Faults, b: Faults)
    requires Disturbs(a, b)
    ensures a.epoch <= b.epoch
    ensures b.epoch == a.epoch ==> b.latched == a.latched && b.guard == a.guard && (b.reconciling ==> a.reconciling)
  {
  }

  lemma SignalDisturbs(a: Faults)
    requires a.Ok()
    ensures Disturbs(a, Signal(a)) && Disturbs(a, Finish(a))
  {
  }

  // ---------------------------------------------------------------- standing

  /** The controller's own fault state, kept under the mutex. */
  datatype Standing = Standing(fatal: bool, isUnsafe: bool, remediation: bool, remediationEpoch: nat)

  const FATAL := Standing(true, true, false, 0)

  /** Either only the environment touched the atomics and the standing is as it was, or a
      persist failed for the first time in this process. */
  ghost predicate KeptOrFatal(f: Faults, s: Standing, g: Faults, t: Standing) {
    || (Disturbs(f, g) && t == s)
    || (Stirs(f, g) && g.latched && !s.fatal && t == FATAL)
  }

  lemma KeptIsKept(f: Faults, s: Standing, g: Faults)
    requires Disturbs(f, g)
    ensures KeptOrFatal(f, s, g, s)
  {
  }

  lemma KeptOrFatalIsTransitive(f: Faults, s: Standing, g: Faults, t: Standing, h: Faults, u: Standing)
    requires KeptOrFatal(f, s, g, t) && KeptOrFatal(g, t, h, u)
    ensures KeptOrFatal(f, s, h, u)
  {
  }

  lemma KeptUnlessFatal(f: Faults, s: Standing, g: Faults, t: Standing)
    requires KeptOrFatal(f, s, g, t)
    ensures !t.fatal || s.fatal ==> Disturbs(f, g) && t == s
    ensures t.fatal && !s.fatal ==> t == FATAL && g.latched
    ensures Stirs(f, g)
  {
  }

  lemma DisturbsWhenKept(f: Faults, s: Standing, g: Faults, t: Standing)
    requires KeptOrFatal(f, s, g, t)
    ensures !t.fatal ==> Disturbs(f, g)
    ensures t.fatal && s.fatal ==> Disturbs(f, g)
    ensures s.fatal ==> t.fatal
    ensures t == s || t == Standing(true, true, false, 0)
  {
  }

  /** What holds of the fault state whenever the mutex is free. The last clause is what
      failing closed means: a latched fault over an active generation has a reconciliation
      waiting that will deactivate it, or a durability failure latched, or is the fault that
      a repair has left to nobody. */
  ghost predicate AtRest(active: GenId, engine: GenId, s: Standing, f: Faults) {
    && f.Ok() && f.Sound()
    && (engine == NO_GEN || engine == active)
    && (s.remediation ==> active == NO_GEN && s.isUnsafe && !s.fatal)
    && (s.isUnsafe ==> f.latched)
    && (s.isUnsafe && active != NO_GEN ==> s.fatal)
    && (f.Finishing() ==> active == NO_GEN)
    && (f.latched && active != NO_GEN ==> f.waiting || f.unattended || s.fatal)
  }

  lemma RestKept(active: GenId, engine: GenId, s: Standing, f: Faults, t: Standing, g: Faults)
    requires AtRest(active, engine, s, f) && KeptOrFatal(f, s, g, t)
    ensures AtRest(active, engine, t, g)
  {
  }

  lemma WaitingIsLatched(active: GenId, engine: GenId, s: Standing, f: Faults)
    requires AtRest(active, engine, s, f)
    ensures f.waiting ==> f.latched && f.reconciling
  {
  }

  lemma RestDeactivated(active: GenId, engine: GenId, s: Standing, f: Faults)
    requires AtRest(active, engine, s, f)
    ensures AtRest(NO_GEN, NO_GEN, s, f)
  {
  }

  /** Opening or closing the recovery gate. */
  lemma RestGate(active: GenId, engine: GenId, s: Standing, f: Faults, r: bool, epoch: nat, guard: bool)
    requires AtRest(active, engine, s, f) && (r ==> active == NO_GEN && s.isUnsafe && !s.fatal)
    ensures AtRest(active, engine, s.(remediation := r, remediationEpoch := epoch), f.(guard := guard))
  {
  }

  lemma QuietIsAttended(active: GenId, engine: GenId, s: Standing, f: Faults)
    requires AtRest(active, engine, s, f)
    ensures !f.latched ==> Attended(f) && !s.isUnsafe
  {
  }

  lemma RestEngine(active: GenId, engine: GenId, s: Standing, f: Faults)
    requires AtRest(active, engine, s, f)
    ensures engine == NO_GEN || engine == active
  {
  }

  lemma RestGated(active: GenId, engine: GenId, s: Standing, f: Faults)
    requires AtRest(active, engine, s, f)
    ensures s.fatal ==> !s.remediation
  {
  }

  lemma RestUnsafe(active: GenId, engine: GenId, s: Standing, f: Faults)
    requires AtRest(active, engine, s, f)
    ensures s.isUnsafe ==> f.latched
  {
  }

  lemma RestFailsClosed(active: GenId, engine: GenId, s: Standing, f: Faults)
    requires AtRest(active, engine, s, f)
    ensures f.latched && active != NO_GEN ==> f.waiting || f.unattended || s.fatal
  {
  }

  lemma RestInactive(s: Standing, f: Faults)
    requires f.Ok() && f.Sound() && (s.remediation ==> s.isUnsafe && !s.fatal) && (s.isUnsafe ==> f.latched)
    ensures AtRest(NO_GEN, NO_GEN, s, f)
  {
  }

  // ---------------------------------------------------------------- undoing an operation

  /** How activate, deactivate and their compensations end. */
  datatype Outcome =
    | Done
    | NoAction              // nothing was attempted, or nothing was left to do
    | RolledBack            // failed, and everything is as it was
    | FailClosed            // failed, and no generation is active any more
    | DurabilityFatal       // a persist has failed, and only a restart helps
    | NicFailed             // all done but handing the NIC its features back
    | RecheckInterrupted    // a signal arrived before anything changed
    | SignalInterrupted     // a signal arrived after the flip

  /** What an activation remembers so that it can be undone. */
  datatype Saved = Saved(
    active: GenId, previous: GenId, standing: Standing, guard: bool, phases: map<GenId, Phase>, hadSteering: bool)

  /** The fault state reached so far still lets the operation that began in `saved` under
      the faults f be undone. */
  ghost predicate Undoable(saved: Saved, engine: GenId, f: Faults, g: Faults, fatal: bool) {
    && AtRest(saved.active, engine, saved.standing, f)
    && (saved.standing.fatal ==> fatal)
    && Stirs(f, g)
    && (!fatal || saved.standing.fatal ==> Heeds(f, g))
  }

  lemma UndoableKept(saved: Saved, engine: GenId, f: Faults, g: Faults, s: Standing, h: Faults, t: Standing)
    requires Undoable(saved, engine, f, g, s.fatal) && KeptOrFatal(g, s, h, t)
    ensures Undoable(saved, engine, f, h, t.fatal)
  {
  }

  function Restored(saved: Saved, fatal: bool): Standing {
    if fatal then FATAL else saved.standing
  }

  lemma RestoredMeans(saved: Saved, fatal: bool)
    ensures Restored(saved, fatal).isUnsafe == (fatal || saved.standing.isUnsafe)
    ensures !fatal ==> Restored(saved, fatal) == saved.standing
  {
  }

  lemma UndoneIsAtRest(saved: Saved, engine: GenId, f: Faults, g: Faults, fatal: bool, h: Faults)
    requires Undoable(saved, engine, f, g, fatal)
    requires h == g.(guard := h.guard, latched := g.latched || fatal)
    ensures AtRest(saved.active, engine, Restored(saved, fatal), h)
  {
  }

  lemma LatchedIsSound(f: Faults)
    requires f.latched
    ensures f.Sound()
  {
  }

  lemma BeginsUndoable(saved: Saved, engine: GenId, f: Faults, fatal: bool)
    requires AtRest(saved.active, engine, saved.standing, f) && saved.standing.fatal == fatal
    ensures Undoable(saved, engine, f, f, fatal)
    ensures saved.standing.remediation ==> saved.standing.isUnsafe
  {
  }

  /** The operation may move the guard as it likes. */
  lemma UndoableArmed(saved: Saved, engine: GenId, f: Faults, g: Faults, fatal: bool, h: Faults)
    requires Undoable(saved, engine, f, g, fatal) && h == g.(guard := h.guard)
    ensures Undoable(saved, engine, f, h, fatal)
  {
  }

  lemma UndoableFacts(saved: Saved, engine: GenId, f: Faults, g: Faults, fatal: bool)
    requires Undoable(saved, engine, f, g, fatal)
    ensures (saved.standing.fatal ==> fatal) && f.epoch <= g.epoch && AtRest(saved.active, engine, saved.standing, f)
    ensures f.Ok() && g.Ok() && f.Sound() && g.Sound() && Stirs(f, g)
    ensures !fatal || saved.standing.fatal ==> g.epoch > f.epoch ==> g.waiting || f.Finishing()
    ensures saved.active != NO_GEN ==> !g.Finishing()
    ensures (!fatal || saved.standing.fatal) && saved.active != NO_GEN && g.guard ==> AtHand(f.epoch, g)
    ensures saved.standing.remediation ==> saved.active == NO_GEN
  {
  }

  lemma AbandonedIsAtRest(active: GenId, engine: GenId, s: Standing, f: Faults)
    requires AtRest(active, engine, s, f)
    requires active != NO_GEN ==> f.waiting
    ensures AtRest(active, engine, s.(remediation := false, remediationEpoch := 0), f.(guard := false, latched := true))
  {
  }

  /** The table an activation of id stages. */
  function Staged(gens: Gens, was: GenId, id: GenId): Gens
    requires id in gens && (was != NO_GEN ==> was in gens)
  {
    WithPhase(if was != NO_GEN && was != id then WithPhase(gens, was, Draining) else gens, id, Active)
  }

  lemma StagedFacts(gens: Gens, was: GenId, id: GenId)
    requires id in gens && id != NO_GEN && ActiveOk(gens, was)
    ensures was != NO_GEN ==> was in gens
    ensures SameButPhases(gens, Staged(gens, was, id))
    ensures ActiveOk(Staged(gens, was, id), id)
    ensures id in Staged(gens, was, id) && Staged(gens, was, id)[id].Live()
    ensures Staged(gens, was, id)[id].scope == gens[id].scope
    ensures was != NO_GEN ==> was in Staged(gens, was, id) && Staged(gens, was, id)[was].Live()
  {
  }

  lemma ActiveIsLive(gens: Gens, active: GenId)
    requires ActiveOk(gens, active)
    ensures active != NO_GEN ==> active in gens && gens[active].Live()
  {
  }

  lemma LiveAreEntries(gens: Gens)
    ensures Live(gens).Keys <= gens.Keys
  {
  }

  lemma PhaseKeepsIdentity(gens: Gens, id: GenId, phase: Phase)
    requires id in gens
    ensures id in WithPhase(gens, id, phase) && WithPhase(gens, id, phase)[id].identity == gens[id].identity
    ensures WithPhase(gens, id, phase).Keys == gens.Keys
  {
  }

  lemma PhasesAreMutual(a: Gens, b: Gens)
    requires SameButPhases(a, b)
    ensures SameButPhases(b, a)
  {
  }

  lemma LiveSteers(gens: Gens, id: GenId, assignee: GenId)
    requires id in gens && gens[id].Live() && !gens[id].scope.Idle()
    ensures Steers(Program(Live(gens), assignee, false))
  {
    assert Live(gens)[id] == gens[id].scope;
  }

  // ---------------------------------------------------------------- how a repair ends

  /** The three loads of a repair were clean: no signal since the sample, unless a finished
      reconciliation still had its flag up at first (`early`) and swallowed it. */
  ghost predicate Proven(epoch: nat, early: bool, f: Faults) {
    !f.reconciling && if f.epoch == epoch then f.guard else f.epoch > epoch && early
  }

  lemma ProvenSince(epoch: nat, f: Faults, g: Faults, h: Faults)
    requires Stirs(f, g) && Proven(epoch, g.Finishing(), h)
    ensures Proven(epoch, f.Finishing(), h)
  {
  }

  lemma StirsEpoch(f: Faults, g: Faults)
    requires Stirs(f, g)
    ensures f.epoch <= g.epoch
  {
  }

  /** The gate sampled at `epoch` is armed, and nobody has signalled. */
  predicate GateOpen(epoch: nat, f: Faults) {
    f.epoch == epoch && f.guard && !f.reconciling
  }

  lemma GateOpenIs(epoch: nat, f: Faults)
    ensures GateOpen(epoch, f) <==> f.epoch == epoch && f.guard && !f.reconciling
  {
  }

  lemma OpenStays(epoch: nat, f: Faults, g: Faults)
    requires Disturbs(f, g)
    ensures f.epoch <= g.epoch
    ensures GateOpen(epoch, f) && g.epoch == f.epoch ==> GateOpen(epoch, g)
  {
  }

  lemma ProvenIsOpen(epoch: nat, early: bool, f: Faults)
    requires Proven(epoch, early, f) && f.epoch == epoch
    ensures GateOpen(epoch, f)
  {
  }

  lemma StillDown(f: Faults, g: Faults)
    requires Stirs(f, g)
    ensures g.epoch == f.epoch && g.reconciling ==> f.reconciling
  {
  }

  lemma GuardStirs(f: Faults, guard: bool)
    ensures Stirs(f, f.(guard := guard))
  {
  }

  lemma FinishingWas(f: Faults, g: Faults)
    requires Stirs(f, g)
    ensures g.Finishing() ==> f.Finishing()
  {
  }

  /** Nobody but a waiting reconciliation has anything to do. */
  ghost predicate Attended(f: Faults) {
    f.Ok() && f.Sound() && !f.Finishing() && (f.latched ==> f.waiting || f.unattended)
  }

  /** Each load sees the atomics a little later than the one before. */
  lemma LoadsProve(epoch: nat, f: Faults, a: Faults, b: Faults, c: Faults)
    requires Disturbs(f, a) && Disturbs(a, b) && Disturbs(b, c)
    requires f.Ok() && a.epoch == epoch && b.guard && !c.reconciling
    ensures Proven(epoch, f.Finishing(), c)
  {
  }

  /** The guard is armed since epoch, or somebody has been told already. */
  predicate AtHand(epoch: nat, f: Faults) {
    epoch <= f.epoch && !f.Finishing() && if f.epoch > epoch then f.waiting else f.guard
  }

  /** If a load was not clean, a reconciliation will see to the signal that spoiled it. */
  lemma LoadsInterrupted(epoch: nat, f: Faults, a: Faults, b: Faults, c: Faults)
    requires Disturbs(f, a) && Disturbs(a, b) && Disturbs(b, c)
    requires f.Ok() && AtHand(epoch, f)
    requires a.epoch != epoch || !b.guard || c.reconciling
    ensures c.waiting
  {
  }

  /** Without a signal a load is unclean only if the guard was not armed or a reconciliation
      was under way to begin with. */
  lemma LoadsCause(epoch: nat, f: Faults, a: Faults, b: Faults, c: Faults)
    requires Disturbs(f, a) && Disturbs(a, b) && Disturbs(b, c)
    ensures f.epoch == epoch == c.epoch && (a.epoch != epoch || !b.guard || c.reconciling) ==> !f.guard || f.reconciling
  {
  }

  /** The last three steps of a repair: lower the latch, swap the guard, look at the epoch
      once more. Clean means the latch is down for good reason; anything else raises it
      again with a reconciliation waiting, unless a finished one had its flag up at first. */
  lemma RepairEnds(epoch: nat, early: bool, f: Faults, a: Faults, b: Faults, c: Faults)
    requires Proven(epoch, early, f) && f.Ok() && Disturbs(f, a)
    requires Disturbs(a.(latched := false), b)
    requires Disturbs(b.(guard := false), c)
    ensures b.guard && c.epoch == epoch ==> !c.latched && !c.reconciling && c.Ok() && c.Sound()
    ensures !(b.guard && c.epoch == epoch) ==> (c.waiting || early) && c.epoch > epoch
    ensures c.Ok() && c.(latched := true).Ok() && c.(latched := true).Sound()
    ensures !c.Finishing() && !c.(latched := true).Finishing()
  {
  }

  lemma IsAttended(f: Faults)
    requires f.Ok() && f.Sound() && !f.Finishing() && (f.latched ==> f.waiting || f.unattended)
    ensures Attended(f)
  {
  }

  lemma SoundStays(a: Faults, b: Faults)
    requires Stirs(a, b)
    ensures (a.Ok() ==> b.Ok()) && (a.Sound() ==> b.Sound())
  {
  }

  lemma AttendedMeans(f: Faults)
    requires Attended(f)
    ensures f.Ok() && f.Sound()
  {
  }

  lemma IsQuiet(f: Faults)
    requires f.Ok() && f.Sound() && !f.latched
    ensures Attended(f)
  {
  }

  lemma GuardIsIrrelevant(f: Faults, guard: bool)
    ensures Attended(f) ==> Attended(f.(guard := guard))
    ensures f.Sound() ==> f.(guard := guard).Sound()
  {
  }

  /** Where Start resumes. */
  // ---------------------------------------------------------------- what a start takes over

  /** What a controller holds that survives it: its table, what is active in it, what was
      before, and whether it is safe. */
  datatype Intent = Intent(gens: Gens, active: GenId, previous: GenId, isUnsafe: bool)

  /** What is read from disk. A file that cannot be loaded is set aside, and nothing is safe. */
  ghost function DiskIntent(disk: Disk, cfg: Config): Intent {
    if disk.Stored? && Loadable(disk.file, cfg) then
      Intent(ReloadedGens(disk.file.generations, cfg), disk.file.activeNew, disk.file.previous, disk.file.isUnsafe)
    else Intent(map[], NO_GEN, NO_GEN, !disk.Absent?)
  }

  /** How the startup audit ended: no flow belongs to nobody, or nobody could count, or some
      flow belongs to no entry. Without a counter there is no audit. */
  datatype Doubt = NoDoubt | Uncounted | Orphaned

  ghost function DoubtAt(cfg: Config, audit: Option<nat>, trace: seq<Moment>, gens: Gens): Doubt {
    if !cfg.hasCounter then NoDoubt
    else if audit.None? || audit.value >= |trace| then Uncounted
    else if NoOrphans(trace[audit.value].table, cfg.port, gens) then NoDoubt
    else Orphaned
  }

  /** Every flow of the namespace belongs to an entry. */
  ghost predicate NoOrphans(t: Table, port: nat, gens: Gens) {
    forall id :: Carried(t, port, id) ==> id in gens
  }

  /** Any doubt leaves nothing active and nothing safe; without a count no entry stays in its
      active phase either. */
  ghost function Doubted(i: Intent, d: Doubt): Intent {
    match d
    case NoDoubt => i
    case Uncounted => Intent(Rephased(i.gens, Some(Active), Draining), NO_GEN, i.previous, true)
    case Orphaned => Intent(i.gens, NO_GEN, i.previous, true)
  }

  /** And nothing unsafe starts with anything active. */
  ghost function Cautious(i: Intent): Intent {
    if !i.isUnsafe then i
    else Intent(if i.active in i.gens then WithPhase(i.gens, i.active, Draining) else i.gens, NO_GEN, i.previous, true)
  }

  function Rephased(gens: Gens, was: Option<Phase>, now: Phase): Gens {
    map id | id in gens :: if was.None? || gens[id].phase == was.value then gens[id].(phase := now) else gens[id]
  }

  /** What a start makes of what it finds. */
  ghost function StartIntent(disk: Disk, d: Doubt, cfg: Config): Intent {
    Cautious(Doubted(DiskIntent(disk, cfg), d))
  }

  /** A start is safe if and only if the file said so, or there was none, and no doubt arose.
      Then it takes over what the file says, to the phase of every entry; otherwise nothing is
      active, and only phases change. */
  lemma StartIntentMeans(disk: Disk, d: Doubt, cfg: Config)
    ensures var s := StartIntent(disk, d, cfg);
            && (!s.isUnsafe <==> d == NoDoubt && (disk.Absent? || (disk.Stored? && Loadable(disk.file, cfg) && !disk.file.isUnsafe)))
            && (s.isUnsafe ==> s.active == NO_GEN && forall id :: id in s.gens && s.gens[id].phase == Active ==>
                  d == Orphaned || (disk.file.isUnsafe && id != disk.file.activeNew))
    ensures disk.Stored? && Loadable(disk.file, cfg) ==>
              var s, f := StartIntent(disk, d, cfg), disk.file;
              && s.previous == f.previous
              && SameButPhases(ReloadedGens(f.generations, cfg), s.gens)
              && (d == NoDoubt && !f.isUnsafe ==> s.active == f.activeNew && s.gens == ReloadedGens(f.generations, cfg))
    ensures !(disk.Stored? && Loadable(disk.file, cfg)) ==>
              StartIntent(disk, d, cfg).gens == map[] && StartIntent(disk, d, cfg).active == NO_GEN
  {
    hide Loadable, ReloadedGens;
  }

  lemma DoubtStays(cfg: Config, audit: Option<nat>, h: seq<Moment>, trace: seq<Moment>, gens: Gens)
    requires h <= trace && (audit.Some? ==> audit.value < |h|)
    ensures DoubtAt(cfg, audit, h, gens) == DoubtAt(cfg, audit, trace, gens)
  {
    hide NoOrphans;
  }

  lemma StartRest(active: GenId, s: Standing, f: Faults)
    requires f.Ok() && f.Sound() && !s.remediation
    requires if s.isUnsafe then active == NO_GEN && f.latched else Attended(f)
    ensures AtRest(active, NO_GEN, s, f)
  {
  }

  lemma QuietAfterRepair(f: Faults)
    requires f.Ok() && f.Sound() && !f.Finishing() && !f.latched
    ensures Attended(f.(unattended := false))
  {
  }

  lemma AttendedStays(f: Faults, g: Faults)
    requires Attended(f) && Disturbs(f, g)
    ensures Attended(g)
  {
  }

  lemma RestAttended(id: GenId, s: Standing, f: Faults)
    requires Attended(f) && !s.isUnsafe && !s.remediation
    ensures AtRest(id, id, s, f)
  {
  }

  /** The atomic fields of the controller that a fault signal reads and writes without the
      mutex. */
  class FaultCell {
    var epoch: nat
    var latched: bool
    var guard: bool
    var reconciling: bool
    /** A reconciliation goroutine is waiting for the mutex. */
    var waiting: bool
    /** The last repair left its fault to nobody. */
    ghost var unattended: bool

    constructor ()
      ensures Now() == Faults(0, false, false, false, false, false)
    {
      epoch, latched, guard, reconciling, waiting, unattended := 0, false, false, false, false, false;
    }

    ghost function Now(): Faults
      reads this
    {
      Faults(epoch, latched, guard, reconciling, waiting, unattended)
    }

    /** The nonblocking half of a signal. */
    method Record()
      modifies this`epoch, this`latched, this`guard
      ensures Now() == old(Now()).(epoch := old(epoch) + 1, latched := true, guard := false)
    {
      epoch := epoch + 1;
      latched := true;
      guard := false;
    }

    /** One integrity signal, as the NFQUEUE hot path delivers it: record the fault, and
        schedule a reconciliation unless one is already under way. */
    method IntegrityFailure()
      modifies this`epoch, this`latched, this`guard, this`reconciling, this`waiting
      ensures Now() == Signal(old(Now()))
      ensures old(Now()).Ok() ==> Disturbs(old(Now()), Now())
    {
      if Now().Ok() {
        SignalDisturbs(Now());
      }
      Record();
      if !reconciling {
        reconciling, waiting := true, true;
      }
    }

    /** A reconciliation that has released the mutex lowers its flag. */
    method LowerReconciling()
      modifies this`reconciling
      ensures Now() == Finish(old(Now()))
      ensures old(Now()).Ok() ==> Disturbs(old(Now()), Now())
    {
      if Now().Ok() {
        SignalDisturbs(Now());
      }
      if reconciling && !waiting {
        reconciling := false;
      }
    }
  }
}
