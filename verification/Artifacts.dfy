/** Immutable artifacts, the checks that admit them, and the lifecycle entry made from
    an admitted one. */
module Artifacts {
  import opened Wrappers
  import opened Selectors
  import Marks

  /** A generation number: the uint32 the controller keeps private, zero for none. */
  datatype GenId = GenId(raw: bv32)

  const NO_GEN := GenId(0)

  predicate ValidGen(id: GenId) {
    Marks.ValidId(id.raw)
  }

  type Dna = string

  const MAX_ARTIFACT := 256 * 1024
  const TECHNIQUE_GENEVA := "geneva"

  datatype Identity = Identity(technique: string, revision: string, digest: string)

  datatype Metadata = Metadata(
    technique: string, revision: string, digest: string, size: int,
    protocol: nat, runtimeName: string, runtimeVersion: string, schema: nat)
  {
    function Id(): Identity {
      Identity(technique, revision, digest)
    }
  }

  datatype Artifact = Artifact(metadata: Metadata, payload: Dna)

  datatype Descriptor = Descriptor(
    protocol: nat, technique: string, runtimeName: string, runtimeVersion: string, schemas: seq<nat>)

  /** The strategy library and the hash, as the controller uses them: the scope of a DNA
      that parses and validates, and the lower-case hex digest of its bytes. */
  datatype Library = Library(scopeOf: Dna -> Option<Scope>, digestOf: Dna -> string)

  datatype Config = Config(
    port: nat,
    iface: string,
    widenInbound: bool,        // eval mode observing inbound traffic
    maxGenerations: nat,
    maxScoped: nat,
    maxEvery: nat,
    hasCounter: bool,          // a conntrack counter is configured
    idleAfter: nat,            // the age at which a connection stops counting in a drain; zero for never
    descriptor: Descriptor,
    library: Library)

  // ---------------------------------------------------------------- admission

  predicate IsSpace(c: char) {
    || c == ' ' || '\t' <= c <= '\r' || c == '\U{0085}' || c == '\U{00A0}' || c == '\U{1680}'
    || '\U{2000}' <= c <= '\U{200A}' || c == '\U{2028}' || c == '\U{2029}' || c == '\U{202F}'
    || c == '\U{205F}' || c == '\U{3000}'
  }

  predicate Blank(s: string) {
    forall k :: 0 <= k < |s| ==> IsSpace(s[k])
  }

  predicate BareLowerHex(s: string) {
    |s| == 64 && forall k :: 0 <= k < |s| ==> '0' <= s[k] <= '9' || 'a' <= s[k] <= 'f'
  }

  /** Artifact.Validate. */
  predicate ArtifactValid(a: Artifact, lib: Library) {
    && !Blank(a.metadata.technique)
    && !Blank(a.metadata.revision)
    && a.metadata.size == |a.payload|
    && |a.payload| <= MAX_ARTIFACT
    && a.metadata.digest == lib.digestOf(a.payload)
    && a.metadata.protocol != 0
    && !Blank(a.metadata.runtimeName)
    && !Blank(a.metadata.runtimeVersion)
    && a.metadata.schema != 0
  }

  /** Artifact.ValidateFor. */
  predicate ArtifactFits(a: Artifact, cfg: Config) {
    && ArtifactValid(a, cfg.library)
    && cfg.descriptor.protocol == a.metadata.protocol
    && cfg.descriptor.technique == a.metadata.technique
    && cfg.descriptor.runtimeName == a.metadata.runtimeName
    && cfg.descriptor.runtimeVersion == a.metadata.runtimeVersion
    && a.metadata.schema in cfg.descriptor.schemas
  }

  predicate IdentityValid(id: Identity, digest: string) {
    && id.technique == TECHNIQUE_GENEVA
    && id.revision != ""
    && BareLowerHex(id.digest)
    && id.digest == digest
  }

  /** The controller's verifyArtifact. */
  predicate ArtifactVerifies(id: Identity, dna: Dna, cfg: Config) {
    && |dna| <= MAX_ARTIFACT
    && IdentityValid(id, cfg.library.digestOf(dna))
    && cfg.library.scopeOf(dna).Some?
  }

  /** prepareArtifactLocked's own checks. */
  predicate Preparable(a: Artifact, cfg: Config) {
    && |a.payload| <= MAX_ARTIFACT
    && ArtifactFits(a, cfg)
    && cfg.library.scopeOf(a.payload).Some?
    && IdentityValid(a.metadata.Id(), cfg.library.digestOf(a.payload))
  }

  /** Some character that is more than space. */
  predicate Says(s: string) {
    exists c :: c in s && !IsSpace(c)
  }

  /** Everything an artifact needs to be admitted, by any of the three checks: it is Geneva's,
      for exactly this runtime and one of its schemas, of at most 256 KiB, parses, is as long
      as it says and has the digest it says, in lower-case hexadecimal, and names a revision.
      For a digest function that returns such digests nothing else is asked. */
  lemma AdmittedExactlyWhen(a: Artifact, cfg: Config)
    requires BareLowerHex(cfg.library.digestOf(a.payload))
    requires cfg.descriptor.technique == "geneva" && cfg.descriptor.protocol != 0 && 0 !in cfg.descriptor.schemas
    requires Says(cfg.descriptor.runtimeName) && Says(cfg.descriptor.runtimeVersion)
    ensures ArtifactFits(a, cfg) && ArtifactVerifies(a.metadata.Id(), a.payload, cfg) <==>
              && a.metadata.technique == "geneva" && a.metadata.protocol == cfg.descriptor.protocol
              && a.metadata.runtimeName == cfg.descriptor.runtimeName
              && a.metadata.runtimeVersion == cfg.descriptor.runtimeVersion
              && a.metadata.schema in cfg.descriptor.schemas
              && Says(a.metadata.revision)
              && a.metadata.size == |a.payload| <= 262144 && a.metadata.digest == cfg.library.digestOf(a.payload)
              && cfg.library.scopeOf(a.payload).Some?
  {
    BlankSaysNothing(a.metadata.technique);
    BlankSaysNothing(a.metadata.revision);
    BlankSaysNothing(a.metadata.runtimeName);
    BlankSaysNothing(a.metadata.runtimeVersion);
    assert "geneva"[0] == 'g' && !IsSpace('g');
    assert 'g' in "geneva";
    hide Blank, Says, IsSpace, BareLowerHex;
  }

  lemma BlankSaysNothing(s: string)
    ensures Blank(s) <==> !Says(s)
    ensures s == "" ==> Blank(s)
  {
    hide IsSpace;
  }

  // ---------------------------------------------------------------- lifecycle entries

  datatype Phase = Prepared | Active | Draining | Drained

  datatype Gen = Gen(dna: Dna, digest: string, phase: Phase, scope: Scope, identity: Identity, metadata: Metadata)
  {
    predicate Live() {
      phase.Active? || phase.Draining?
    }
  }

  type Gens = map<GenId, Gen>

  function Widen(scope: Scope, cfg: Config): Scope {
    if !cfg.widenInbound || scope.Idle() then scope else scope.(inbound := EVERYTHING)
  }

  /** The steering scope a DNA gets on this host. */
  function ScopeFor(dna: Dna, cfg: Config): Option<Scope> {
    match cfg.library.scopeOf(dna)
    case None => None
    case Some(scope) => Some(Widen(scope, cfg))
  }

  function NewGen(a: Artifact, cfg: Config): Gen
    requires Preparable(a, cfg)
  {
    Gen(a.payload, cfg.library.digestOf(a.payload), Prepared, ScopeFor(a.payload, cfg).value, a.metadata.Id(), a.metadata)
  }

  /** An entry prepareArtifactLocked could have made, whatever its phase is by now. */
  predicate GenOk(g: Gen, cfg: Config) {
    var a := Artifact(g.metadata, g.dna);
    Preparable(a, cfg) && g == NewGen(a, cfg).(phase := g.phase)
  }

  function EveryIds(gens: Gens): set<GenId> {
    set id | id in gens && EveryPacket(gens[id].scope)
  }

  function ScopedIds(gens: Gens): set<GenId> {
    set id | id in gens && !EveryPacket(gens[id].scope)
  }

  /** Both budgets are kept: of the generations that can see more than handshakes there are at
      most maxEvery, of the others at most maxScoped. */
  lemma BudgetsMean(gens: Gens, cfg: Config)
    ensures WithinBudgets(gens, cfg) <==>
              && |set id | id in gens && EveryPacket(gens[id].scope)| <= cfg.maxEvery
              && |set id | id in gens && EstablishmentOnly(gens[id].scope.outbound) && EstablishmentOnly(gens[id].scope.inbound)| <= cfg.maxScoped
  {
    hide EstablishmentOnly;
    assert ScopedIds(gens) == set id | id in gens && EstablishmentOnly(gens[id].scope.outbound) && EstablishmentOnly(gens[id].scope.inbound);
  }

  predicate WithinBudgets(gens: Gens, cfg: Config) {
    |ScopedIds(gens)| <= cfg.maxScoped && |EveryIds(gens)| <= cfg.maxEvery
  }

  predicate OneIdPerIdentity(gens: Gens) {
    forall i, j :: i in gens && j in gens && gens[i].identity == gens[j].identity ==> i == j
  }

  /** The run-wide facts about the generation table. */
  ghost predicate GensOk(gens: Gens, cfg: Config) {
    && (forall id :: id in gens ==> ValidGen(id) && GenOk(gens[id], cfg))
    && OneIdPerIdentity(gens)
    && |gens| <= cfg.maxGenerations
    && WithinBudgets(gens, cfg)
  }

  predicate ActiveOk(gens: Gens, active: GenId) {
    active != NO_GEN ==> active in gens && gens[active].phase == Active
  }

  /** a and b agree on everything but the phases. */
  predicate SameButPhases(a: Gens, b: Gens) {
    a.Keys == b.Keys && forall id :: id in a ==> b[id] == a[id].(phase := b[id].phase)
  }

  lemma PhaseIsFree(g: Gen, phase: Phase, cfg: Config)
    requires GenOk(g, cfg)
    ensures GenOk(g.(phase := phase), cfg)
  {
  }

  lemma PhasesDoNotMatter(a: Gens, b: Gens, cfg: Config)
    requires SameButPhases(a, b) && GensOk(a, cfg)
    ensures GensOk(b, cfg)
  {
    hide GenOk, EveryPacket, ValidGen;
    assert EveryIds(a) == EveryIds(b) && ScopedIds(a) == ScopedIds(b);
    hide EveryIds, ScopedIds;
    assert |a| == |a.Keys| == |b.Keys| == |b|;
    forall id | id in b
      ensures ValidGen(id) && GenOk(b[id], cfg)
    {
      PhaseIsFree(a[id], b[id].phase, cfg);
    }
  }

  lemma FewerIsStillOk(gens: Gens, id: GenId, cfg: Config)
    requires GensOk(gens, cfg)
    ensures GensOk(gens - {id}, cfg)
  {
    hide GenOk, EveryPacket, ValidGen;
    var less := gens - {id};
    assert forall i :: i in less ==> i in gens && less[i] == gens[i];
    assert EveryIds(less) <= EveryIds(gens);
    assert ScopedIds(less) <= ScopedIds(gens);
    SubsetIsSmaller(EveryIds(less), EveryIds(gens));
    SubsetIsSmaller(ScopedIds(less), ScopedIds(gens));
    SubsetIsSmaller(less.Keys, gens.Keys);
    assert |less| == |less.Keys| && |gens| == |gens.Keys|;
  }

  lemma SubsetIsSmaller<T>(a: set<T>, b: set<T>)
    requires a <= b
    ensures |a| <= |b|
  {
    assert |b| == |a| + |b - a| by {
      assert b == a + (b - a);
    }
  }

  lemma OneMoreIsOk(gens: Gens, id: GenId, g: Gen, cfg: Config)
    requires GensOk(gens, cfg) && id !in gens && ValidGen(id)
    requires GenOk(g, cfg) && forall i :: i in gens ==> gens[i].identity != g.identity
    requires |gens| < cfg.maxGenerations && WithinBudgets(gens[id := g], cfg)
    ensures GensOk(gens[id := g], cfg)
  {
    hide GenOk, WithinBudgets, ValidGen;
    assert gens[id := g].Keys == gens.Keys + {id};
    assert |gens[id := g]| == |gens[id := g].Keys| && |gens| == |gens.Keys|;
  }

  // ---------------------------------------------------------------- the state file

  datatype Record = Record(id: GenId, dna: Dna, digest: string, phase: Phase, identity: Identity, metadata: Metadata)

  datatype File = File(
    version: nat, activeNew: GenId, previous: GenId, isUnsafe: bool, offloads: Option<string>, generations: seq<Record>)

  /** The state file's content: absent, not decodable, or a decoded value. */
  datatype Disk = Absent | Garbage | Stored(file: File)

  const STATE_VERSION := 2

  function RecordOf(id: GenId, g: Gen): Record {
    Record(id, g.dna, g.digest, g.phase, g.identity, g.metadata)
  }

  function ById(rs: seq<Record>): map<GenId, Record> {
    if rs == [] then map[] else ById(rs[..|rs| - 1])[rs[|rs| - 1].id := rs[|rs| - 1]]
  }

  predicate DistinctIds(rs: seq<Record>) {
    forall i, j :: 0 <= i < j < |rs| ==> rs[i].id != rs[j].id
  }

  predicate DistinctIdentities(rs: seq<Record>) {
    forall i, j :: 0 <= i < j < |rs| ==> rs[i].identity != rs[j].identity
  }

  lemma {:induction false} ByIdIsLookup(rs: seq<Record>)
    requires DistinctIds(rs)
    ensures forall i :: 0 <= i < |rs| ==> rs[i].id in ById(rs) && ById(rs)[rs[i].id] == rs[i]
    ensures forall id :: id in ById(rs) ==> ById(rs)[id] in rs && ById(rs)[id].id == id
    ensures |ById(rs)| == |rs|
  {
    if rs != [] {
      var n := |rs| - 1;
      ByIdIsLookup(rs[..n]);
      assert rs == rs[..n] + [rs[n]];
      NewId(rs);
      LookupOneMore(rs[..n], ById(rs[..n]), rs[n]);
    }
  }

  lemma NewId(rs: seq<Record>)
    requires DistinctIds(rs) && rs != []
    ensures forall r :: r in rs[..|rs| - 1] ==> r.id != rs[|rs| - 1].id
  {
  }

  lemma LookupOneMore(front: seq<Record>, m: map<GenId, Record>, r: Record)
    requires forall i :: 0 <= i < |front| ==> front[i].id in m && m[front[i].id] == front[i]
    requires forall id :: id in m ==> m[id] in front && m[id].id == id
    requires |m| == |front| && forall x :: x in front ==> x.id != r.id
    ensures var rs := front + [r]; var n := m[r.id := r];
            && (forall i :: 0 <= i < |rs| ==> rs[i].id in n && n[rs[i].id] == rs[i])
            && (forall id :: id in n ==> n[id] in rs && n[id].id == id)
            && |n| == |rs|
  {
    assert r.id !in m;
  }

  /** The loader's per-record checks. */
  predicate RecordOk(r: Record, cfg: Config) {
    && Marks.Mark(r.id.raw).Some?
    && ArtifactValid(Artifact(r.metadata, r.dna), cfg.library)
    && r.metadata.Id() == r.identity
    && ArtifactFits(Artifact(r.metadata, r.dna), cfg)
    && r.digest == r.metadata.digest
    && ArtifactVerifies(r.identity, r.dna, cfg)
  }

  /** The entry a record reconstructs to: its scope is computed again from the DNA. */
  function Reloaded(r: Record, cfg: Config): Gen
    requires RecordOk(r, cfg)
  {
    NewGen(Artifact(r.metadata, r.dna), cfg).(phase := r.phase)
  }

  function ReloadedGens(rs: seq<Record>, cfg: Config): Gens
    requires forall i :: 0 <= i < |rs| ==> RecordOk(rs[i], cfg)
  {
    if rs == [] then map[]
    else ReloadedGens(rs[..|rs| - 1], cfg)[rs[|rs| - 1].id := Reloaded(rs[|rs| - 1], cfg)]
  }

  /** Every check loadLocked makes on a decoded file. */
  ghost predicate Loadable(f: File, cfg: Config) {
    && (f.offloads.Some? ==> f.offloads.value == cfg.iface)
    && f.version == STATE_VERSION
    && |f.generations| <= cfg.maxGenerations
    && (forall i :: 0 <= i < |f.generations| ==> RecordOk(f.generations[i], cfg))
    && DistinctIds(f.generations)
    && DistinctIdentities(f.generations)
    && (f.activeNew != NO_GEN ==>
          exists i :: 0 <= i < |f.generations| && f.generations[i].id == f.activeNew && f.generations[i].phase == Active)
    && WithinBudgets(ReloadedGens(f.generations, cfg), cfg)
  }

  /** The loader has nothing against this. */
  ghost predicate Readable(disk: Disk, cfg: Config) {
    disk.Absent? || (disk.Stored? && Loadable(disk.file, cfg))
  }

  /** What the controller persists about itself. */
  datatype View = View(gens: Gens, activeNew: GenId, previous: GenId, isUnsafe: bool, offloads: Option<string>)

  ghost predicate ViewOk(v: View, cfg: Config) {
    GensOk(v.gens, cfg) && ActiveOk(v.gens, v.activeNew) && (v.offloads.Some? ==> v.offloads.value == cfg.iface)
  }

  function Number(id: GenId): nat {
    id.raw as nat
  }

  predicate IdBefore(a: GenId, b: GenId) {
    Number(a) < Number(b)
  }

  /** The one place where bits become a number again. */
  lemma NumberIsExact(id: GenId)
    ensures Number(id) as bv32 == id.raw
  {
  }

  lemma SameNumber(a: GenId, b: GenId)
    requires Number(a) == Number(b)
    ensures a == b
  {
    NumberIsExact(a);
    NumberIsExact(b);
  }

  predicate SortedIds(rs: seq<Record>) {
    forall i, j :: 0 <= i < j < |rs| ==> IdBefore(rs[i].id, rs[j].id)
  }

  lemma IdBeforeIsStrictAndTotal(a: GenId, b: GenId)
    ensures a == b || IdBefore(a, b) || IdBefore(b, a)
    ensures !(a == b && IdBefore(a, b)) && !(IdBefore(a, b) && IdBefore(b, a))
  {
    hide Number;
    if Number(a) == Number(b) {
      SameNumber(a, b);
    }
  }

  lemma IdBeforeIsTransitive(a: GenId, b: GenId, c: GenId)
    requires IdBefore(a, b) && IdBefore(b, c)
    ensures IdBefore(a, c)
  {
    hide Number;
  }

  /** f is what persistLocked writes for v. */
  ghost predicate IsImage(f: File, v: View) {
    && f.version == STATE_VERSION
    && f.activeNew == v.activeNew && f.previous == v.previous && f.isUnsafe == v.isUnsafe && f.offloads == v.offloads
    && SortedIds(f.generations)
    && (forall r :: r in f.generations <==> r.id in v.gens && r == RecordOf(r.id, v.gens[r.id]))
  }

  /** Puts one more record where its ID belongs. */
  method InsertRecord(rs: seq<Record>, r: Record) returns (out: seq<Record>)
    requires SortedIds(rs) && forall k :: 0 <= k < |rs| ==> rs[k].id != r.id
    ensures SortedIds(out)
    ensures forall x :: x in out <==> x in rs || x == r
  {
    hide IdBefore;
    var i := 0;
    while i < |rs| && IdBefore(rs[i].id, r.id)
      invariant 0 <= i <= |rs|
      invariant forall k :: 0 <= k < i ==> IdBefore(rs[k].id, r.id)
    {
      i := i + 1;
    }
    out := rs[..i] + [r] + rs[i..];
    assert rs == rs[..i] + rs[i..];
    if i < |rs| {
      IdBeforeIsStrictAndTotal(rs[i].id, r.id);
      forall k | i < k < |rs|
        ensures IdBefore(r.id, rs[k].id)
      {
        IdBeforeIsTransitive(r.id, rs[i].id, rs[k].id);
      }
    }
  }

  /** Collects the generation table's records in ID order, whatever order the table is
      walked in. */
  method BuildFile(v: View) returns (f: File)
    ensures IsImage(f, v)
  {
    var rs: seq<Record> := [];
    var todo := v.gens.Keys;
    while todo != {}
      invariant todo <= v.gens.Keys
      invariant SortedIds(rs)
      invariant forall r :: r in rs <==> r.id in v.gens && r.id !in todo && r == RecordOf(r.id, v.gens[r.id])
      decreases |todo|
    {
      var id :| id in todo;
      forall k | 0 <= k < |rs|
        ensures rs[k].id != id
      {
        assert rs[k] in rs;
      }
      rs := InsertRecord(rs, RecordOf(id, v.gens[id]));
      todo := todo - {id};
    }
    return File(STATE_VERSION, v.activeNew, v.previous, v.isUnsafe, v.offloads, rs);
  }

  lemma SortedAreDistinct(rs: seq<Record>)
    requires SortedIds(rs)
    ensures DistinctIds(rs)
  {
    hide IdBefore;
    forall i, j | 0 <= i < j < |rs|
      ensures rs[i].id != rs[j].id
    {
      IdBeforeIsStrictAndTotal(rs[i].id, rs[j].id);
    }
  }

  /** What prepareArtifactLocked admitted, the loader admits again. */
  lemma AdmittedGenIsLoadable(id: GenId, g: Gen, cfg: Config)
    requires ValidGen(id) && GenOk(g, cfg)
    ensures RecordOk(RecordOf(id, g), cfg)
    ensures Reloaded(RecordOf(id, g), cfg) == g
  {
  }

  lemma ImageById(f: File, v: View)
    requires IsImage(f, v)
    ensures ById(f.generations).Keys == v.gens.Keys
    ensures forall id :: id in v.gens ==> ById(f.generations)[id] == RecordOf(id, v.gens[id])
    ensures |f.generations| == |v.gens|
  {
    var rs := f.generations;
    SortedAreDistinct(rs);
    ByIdIsLookup(rs);
    forall id | id in v.gens
      ensures id in ById(rs) && ById(rs)[id] == RecordOf(id, v.gens[id])
    {
      var r := RecordOf(id, v.gens[id]);
      assert r in rs;
      var i :| 0 <= i < |rs| && rs[i] == r;
    }
    forall id | id in ById(rs)
      ensures id in v.gens
    {
      assert ById(rs)[id] in rs;
    }
    assert ById(rs).Keys == v.gens.Keys;
    assert |ById(rs)| == |ById(rs).Keys| && |v.gens| == |v.gens.Keys|;
  }

  lemma {:induction false} ReloadedGensLookup(rs: seq<Record>, cfg: Config)
    requires DistinctIds(rs) && forall i :: 0 <= i < |rs| ==> RecordOk(rs[i], cfg)
    ensures ReloadedGens(rs, cfg).Keys == ById(rs).Keys
    ensures forall i :: 0 <= i < |rs| ==>
              rs[i].id in ReloadedGens(rs, cfg) && ReloadedGens(rs, cfg)[rs[i].id] == Reloaded(rs[i], cfg)
  {
    hide RecordOk, Reloaded;
    if rs != [] {
      ReloadedGensLookup(rs[..|rs| - 1], cfg);
      forall i | 0 <= i < |rs|
        ensures rs[i].id in ReloadedGens(rs, cfg) && ReloadedGens(rs, cfg)[rs[i].id] == Reloaded(rs[i], cfg)
      {
        if i < |rs| - 1 {
          assert rs[i] == rs[..|rs| - 1][i];
          assert rs[i].id != rs[|rs| - 1].id;
        }
      }
    }
  }

  lemma ImageRecords(f: File, v: View, cfg: Config)
    requires IsImage(f, v) && GensOk(v.gens, cfg)
    ensures forall i :: 0 <= i < |f.generations| ==>
              && RecordOk(f.generations[i], cfg)
              && f.generations[i].id in v.gens
              && Reloaded(f.generations[i], cfg) == v.gens[f.generations[i].id]
    ensures DistinctIds(f.generations) && DistinctIdentities(f.generations)
  {
    hide RecordOk, Reloaded, GenOk, WithinBudgets;
    var rs := f.generations;
    SortedAreDistinct(rs);
    forall i | 0 <= i < |rs|
      ensures RecordOk(rs[i], cfg) && rs[i].id in v.gens && Reloaded(rs[i], cfg) == v.gens[rs[i].id]
    {
      assert rs[i] in rs;
      AdmittedGenIsLoadable(rs[i].id, v.gens[rs[i].id], cfg);
    }
    forall i, j | 0 <= i < j < |rs|
      ensures rs[i].identity != rs[j].identity
    {
      assert rs[i] in rs && rs[j] in rs;
      assert rs[i].id != rs[j].id;
    }
  }

  lemma ImageGens(f: File, v: View, cfg: Config)
    requires IsImage(f, v) && GensOk(v.gens, cfg)
    requires forall i :: 0 <= i < |f.generations| ==> RecordOk(f.generations[i], cfg)
    ensures ReloadedGens(f.generations, cfg) == v.gens
  {
    hide *;
    var got := ReloadedGens(f.generations, cfg);
    assert got.Keys == v.gens.Keys by {
      SortedImageIsDistinct(f, v);
      ReloadedGensLookup(f.generations, cfg);
      ImageById(f, v);
    }
    forall id | id in v.gens
      ensures got[id] == v.gens[id]
    {
      ImageGenAt(f, v, cfg, id);
    }
  }

  lemma SortedImageIsDistinct(f: File, v: View)
    requires IsImage(f, v)
    ensures DistinctIds(f.generations)
  {
    SortedAreDistinct(f.generations);
  }

  lemma ImageGenAt(f: File, v: View, cfg: Config, id: GenId)
    requires IsImage(f, v) && GensOk(v.gens, cfg) && id in v.gens
    requires forall i :: 0 <= i < |f.generations| ==> RecordOk(f.generations[i], cfg)
    ensures id in ReloadedGens(f.generations, cfg) && ReloadedGens(f.generations, cfg)[id] == v.gens[id]
  {
    var rs := f.generations;
    var r := RecordOf(id, v.gens[id]);
    assert r in rs;
    var i :| 0 <= i < |rs| && rs[i] == r;
    assert ValidGen(id) && GenOk(v.gens[id], cfg);
    hide *;
    assert Reloaded(rs[i], cfg) == v.gens[id] by {
      AdmittedGenIsLoadable(id, v.gens[id], cfg);
    }
    SortedImageIsDistinct(f, v);
    ReloadedGensLookup(rs, cfg);
  }

  /** Crash recovery, the pure half: the image of any admissible view passes every check
      of the loader on the same host, and reconstructs exactly that view with the scopes
      computed afresh. */
  lemma ImageReloads(f: File, v: View, cfg: Config)
    requires IsImage(f, v) && ViewOk(v, cfg)
    ensures Loadable(f, cfg)
    ensures ReloadedGens(f.generations, cfg) == v.gens
  {
    ImageRecords(f, v, cfg);
    ImageGens(f, v, cfg);
    ImageById(f, v);
    hide RecordOk, Reloaded, GenOk, WithinBudgets, ReloadedGens, ById;
    var rs := f.generations;
    if f.activeNew != NO_GEN {
      var r := RecordOf(v.activeNew, v.gens[v.activeNew]);
      assert r in rs;
      var i :| 0 <= i < |rs| && rs[i] == r;
    }
  }
}
