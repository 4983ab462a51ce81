/** The machine a controller process runs on: the nft program, the conntrack table and
    the state file. It outlives the process. */
module Hosts {
  import opened Wrappers
  import opened Selectors
  import opened Artifacts
  import opened Marks

  // ---------------------------------------------------------------- the kernel's rules

  /** One nft table: the queue rules of every live generation, and what an unowned
      inbound SYN is assigned. No table at all is the program without either. */
  datatype Program = Program(live: map<GenId, Scope>, assignee: GenId, neutral: bool)

  predicate Steers(p: Program) {
    exists id :: id in p.live && !p.live[id].Idle()
  }

  /** The original-direction tuple of a connection. */
  datatype Flow = Flow(tuple: nat, ipv4: bool, tcp: bool, dport: nat)

  /** A conntrack entry. `unreplied` is `ct state new`; `established` is the TCP state, and
      `remaining` what is left of the entry's timer. */
  datatype Conn = Conn(mark: bv32, unreplied: bool, established: bool, remaining: nat)

  type Table = map<Flow, Conn>

  predicate AdapterFlow(f: Flow, port: nat) {
    f.ipv4 && f.tcp && f.dport == port
  }

  predicate Assigns(p: Program) {
    p.assignee != NO_GEN || p.neutral
  }

  /** The bits the SYN rule assigns. */
  function AssignedBits(p: Program): bv32 {
    if p.assignee != NO_GEN then MarkBits(p.assignee.raw) else NAMESPACE
  }

  /** The SYN rule: only a mark whose reserved bits are all zero is changed. */
  function SynMark(p: Program, mark: bv32): bv32 {
    if Assigns(p) && Reserved(mark) == 0 then Assign(mark, AssignedBits(p)) else mark
  }

  function OwnerOf(mark: bv32): Option<GenId> {
    match ID(mark)
    case None => None
    case Some(id) => Some(GenId(id))
  }

  /** The queue rules: a packet of a flow reaches the engine id exactly when its mark names
      id, id is live in the program, and id's selector for the direction selects it. */
  predicate QueuesTo(p: Program, f: Flow, mark: bv32, outbound: bool, flags: bv8, id: GenId, port: nat) {
    && AdapterFlow(f, port)
    && id in p.live
    && Mark(id.raw).Some? && Reserved(mark) == Mark(id.raw).value
    && Selects(if outbound then p.live[id].outbound else p.live[id].inbound, flags)
  }

  /** Dispatch is unambiguous: whatever is queued is queued to the generation the mark
      names, so no packet can be queued to two. */
  lemma QueuedPacketNamesOneGeneration(p: Program, f: Flow, mark: bv32, outbound: bool, flags: bv8, id: GenId, port: nat)
    requires QueuesTo(p, f, mark, outbound, flags, id, port)
    ensures OwnerOf(mark) == Some(id)
    ensures forall other :: QueuesTo(p, f, mark, outbound, flags, other, port) ==> other == id
  {
    QueueRuleMatchesDecoder(mark, id.raw);
    forall other | QueuesTo(p, f, mark, outbound, flags, other, port)
      ensures other == id
    {
      QueueRuleMatchesDecoder(mark, other.raw);
    }
  }

  // ---------------------------------------------------------------- how marks evolve

  ghost predicate ProgramIdsOk(p: Program) {
    && (forall id :: id in p.live ==> ValidGen(id))
    && (p.assignee != NO_GEN ==> p.assignee in p.live)
  }

  lemma SynMarkFacts(p: Program, mark: bv32)
    requires ProgramIdsOk(p)
    ensures Low(SynMark(p, mark)) == Low(mark)
    ensures Reserved(mark) != 0 ==> SynMark(p, mark) == mark
    ensures SynMark(p, mark) != mark ==> Reserved(SynMark(p, mark)) != 0
    ensures SynMark(p, SynMark(p, mark)) == SynMark(p, mark)
  {
    hide Assign, MarkBits, Reserved, Low;
    if Assigns(p) && Reserved(mark) == 0 {
      if p.assignee != NO_GEN {
        assert ValidId(p.assignee.raw);
        hide ValidId;
        AssignKeepsLow(mark, p.assignee.raw);
        AssignSetsReserved(mark, p.assignee.raw);
      } else {
        AssignNeutral(mark);
      }
    }
  }

  lemma AssignNeutral(mark: bv32)
    ensures Low(Assign(mark, NAMESPACE)) == Low(mark)
    ensures Reserved(Assign(mark, NAMESPACE)) == NAMESPACE != 0
    ensures Assign(mark, NAMESPACE) == NeutralMark(mark)
  {
  }

  /** Under a program that assigns no generation, an unowned mark stays unowned or turns
      neutral; under the boundary program a SYN turns it neutral. */
  lemma NeutralProgramFacts(p: Program, mark: bv32)
    requires p.assignee == NO_GEN
    ensures SynMark(p, mark) == mark || SynMark(p, mark) == NeutralMark(mark)
    ensures p.neutral && Reserved(mark) == 0 ==> SynMark(p, mark) == NeutralMark(mark)
    ensures Reserved(NeutralMark(mark)) == NAMESPACE
  {
    AssignNeutral(mark);
  }

  /** One mark's legal life: the low bits never change, and the reserved bits change only
      from zero. */
  predicate MarkMay(a: bv32, b: bv32) {
    Low(a) == Low(b) && (Reserved(a) == Reserved(b) || Reserved(a) == 0)
  }

  /** b is a later state of the table a. `gone` collects the flows that have left; they do
      not return (tuple reuse is not modelled). */
  ghost predicate Evolves(a: Table, aGone: set<Flow>, b: Table, bGone: set<Flow>) {
    && aGone <= bGone
    && (forall f :: f in a ==> f in bGone || (f in b && MarkMay(a[f].mark, b[f].mark)))
    && (forall f :: f in b ==> f !in bGone)
  }

  /** One step of a mark's life while p is installed: nothing, the SYN rule, or the sweep. */
  predicate MarkStep(p: Program, a: bv32, b: bv32) {
    b == a || (Reserved(a) == 0 && (b == SynMark(p, a) || b == NeutralMark(a)))
  }

  /** b is the table one step after a, with p installed: marks take one step, and an entry
      that was not there before is owned by nobody or by the generation p assigns. */
  ghost predicate Steps(p: Program, a: Table, aGone: set<Flow>, b: Table, bGone: set<Flow>) {
    && aGone <= bGone
    && (forall f :: f in a ==> f in bGone || (f in b && MarkStep(p, a[f].mark, b[f].mark)))
    && (forall f :: f in b ==> f !in bGone)
    && (forall f :: f in b && f !in a ==> OwnerOf(b[f].mark) == None || OwnerOf(b[f].mark) == Some(p.assignee))
  }

  lemma MarkMayIsTransitive(a: bv32, b: bv32, c: bv32)
    requires MarkMay(a, b) && MarkMay(b, c)
    ensures MarkMay(a, c)
  {
  }

  lemma EvolvesIsTransitive(a: Table, aGone: set<Flow>, b: Table, bGone: set<Flow>, c: Table, cGone: set<Flow>)
    requires Evolves(a, aGone, b, bGone) && Evolves(b, bGone, c, cGone)
    ensures Evolves(a, aGone, c, cGone)
  {
    hide MarkMay;
    forall f | f in a && f !in cGone
      ensures f in c && MarkMay(a[f].mark, c[f].mark)
    {
      MarkMayIsTransitive(a[f].mark, b[f].mark, c[f].mark);
    }
  }

  lemma StepIsLegal(p: Program, a: bv32, b: bv32)
    requires ProgramIdsOk(p) && MarkStep(p, a, b)
    ensures MarkMay(a, b)
  {
    hide SynMark, ProgramIdsOk, Reserved, Low, NeutralMark;
    if b == SynMark(p, a) {
      SynMarkFacts(p, a);
    } else if b == NeutralMark(a) {
      NeutralIsOwnedByNobody(a);
    }
  }

  lemma StepsEvolve(p: Program, a: Table, aGone: set<Flow>, b: Table, bGone: set<Flow>)
    requires ProgramIdsOk(p) && Steps(p, a, aGone, b, bGone)
    ensures Evolves(a, aGone, b, bGone)
  {
    hide MarkStep, MarkMay, ProgramIdsOk, OwnerOf;
    forall f | f in a && f !in bGone
      ensures f in b && MarkMay(a[f].mark, b[f].mark)
    {
      StepIsLegal(p, a[f].mark, b[f].mark);
    }
  }

  lemma NoStep(p: Program, t: Table, gone: set<Flow>)
    requires t.Keys !! gone
    ensures Steps(p, t, gone, t, gone)
  {
  }

  // ---------------------------------------------------------------- traffic

  datatype Event =
    | FirstPacket(flow: Flow, mark: bv32, syn: bool)   // creates the entry
    | Retransmit(flow: Flow, syn: bool)                // another packet before any reply
    | Reply(flow: Flow)                                // the entry is no longer new
    | Timed(flow: Flow, established: bool, remaining: nat)   // the TCP state or the timer moves
    | Expires(flow: Flow)

  /** Entries start outside Geneva's namespace: other mark users keep to the low bits, or
      to foreign reserved bits that Geneva must leave alone. */
  predicate StartsUnowned(mark: bv32) {
    mark & NAMESPACE_MASK != NAMESPACE
  }

  /** The table after one packet or timer; an event that cannot happen changes nothing. */
  function Happen(p: Program, port: nat, t: Table, gone: set<Flow>, e: Event): Table {
    var f := e.flow;
    match e
    case FirstPacket(_, mark, syn) =>
      if f in t || f in gone || !StartsUnowned(mark) then t
      else t[f := Conn(if syn && AdapterFlow(f, port) then SynMark(p, mark) else mark, true, false, 0)]
    case Retransmit(_, syn) =>
      if f in t && t[f].unreplied && syn && AdapterFlow(f, port) then t[f := t[f].(mark := SynMark(p, t[f].mark))] else t
    case Reply(_) => if f in t then t[f := t[f].(unreplied := false)] else t
    case Timed(_, established, remaining) =>
      if f in t then t[f := t[f].(established := established, remaining := remaining)] else t
    case Expires(_) => t - {f}
  }

  lemma HappenSteps(p: Program, port: nat, t: Table, gone: set<Flow>, e: Event)
    requires ProgramIdsOk(p) && t.Keys !! gone
    ensures Steps(p, t, gone, Happen(p, port, t, gone, e), gone + (if e.Expires? then {e.flow} else {}))
  {
    var u := Happen(p, port, t, gone, e);
    if e.FirstPacket? && StartsUnowned(e.mark) {
      EntryOwner(p, e.mark);
    }
    hide SynMark, StartsUnowned, ProgramIdsOk, OwnerOf, Reserved, NeutralMark;
    if e.Retransmit? && e.flow in t {
      SynStep(p, t[e.flow].mark);
    }
    assert forall f :: f in t && f != e.flow ==> f in u && u[f] == t[f];
  }

  /** A new entry is owned by nobody or by the generation its SYN was assigned to. */
  lemma EntryOwner(p: Program, mark: bv32)
    requires ProgramIdsOk(p) && StartsUnowned(mark)
    ensures OwnerOf(mark) == None
    ensures OwnerOf(SynMark(p, mark)) == None || OwnerOf(SynMark(p, mark)) == Some(p.assignee)
  {
    if Assigns(p) && Reserved(mark) == 0 {
      if p.assignee != NO_GEN {
        SynMarkNamesAssignee(p, mark);
      } else {
        AssignNeutral(mark);
        NeutralIsOwnedByNobody(mark);
      }
    }
  }

  lemma AssigneeIsValid(p: Program)
    requires ProgramIdsOk(p) && p.assignee != NO_GEN
    ensures ValidId(p.assignee.raw)
  {
  }

  lemma SynMarkNamesAssignee(p: Program, mark: bv32)
    requires ProgramIdsOk(p) && p.assignee != NO_GEN && Reserved(mark) == 0
    ensures OwnerOf(SynMark(p, mark)) == Some(p.assignee)
  {
    AssigneeIsValid(p);
    AssignNamesOwner(mark, p.assignee.raw);
    hide ID, Assign, MarkBits, Reserved;
  }

  lemma SynStep(p: Program, mark: bv32)
    ensures MarkStep(p, mark, SynMark(p, mark))
  {
  }

  // ---------------------------------------------------------------- counting flows

  /** How a drain count tells idle connections: the configured age, and two of the kernel's
      timeouts. With any of them missing every connection counts. */
  datatype Liveness = Liveness(idleAfter: nat, established: nat, shortTimer: nat)

  const EVERY := Liveness(0, 0, 0)

  /** liveness.live: an established connection whose timer has run for the configured age no
      longer counts, unless the timer may be one of the short ones. */
  predicate CountsAsLive(l: Liveness, c: Conn) {
    || l.idleAfter == 0 || l.established == 0
    || !c.established
    || c.remaining >= l.established || c.remaining <= l.shortTimer
    || l.established - c.remaining < l.idleAfter
  }

  /** Some timer value makes a connection idle. */
  predicate Skips(l: Liveness) {
    0 < l.idleAfter && l.shortTimer + l.idleAfter < l.established
  }

  lemma SkipsMeans(l: Liveness)
    ensures Skips(l) <==> exists c: Conn :: !CountsAsLive(l, c)
  {
    if Skips(l) {
      assert !CountsAsLive(l, Conn(0, false, true, l.shortTimer + 1));
    }
  }

  /** A connection is left out of a drain count if and only if an age is configured and the
      kernel's timeouts are known, it is established, its timer can only be the long one, and
      that has run for the configured age. */
  lemma LeftOutExactlyWhen(l: Liveness, c: Conn)
    ensures !CountsAsLive(l, c) <==>
              && l.idleAfter > 0 && l.established > 0
              && c.established && l.shortTimer < c.remaining < l.established
              && l.established - c.remaining >= l.idleAfter
  {
  }

  /** The last packet set the timer to `timeout`, `age` ago. */
  predicate TimedSince(c: Conn, timeout: nat, age: nat) {
    c.remaining + age == timeout
  }

  /** A connection whose last packet set the timer to the established timeout counts until it
      has been idle for the configured age, and again when the timer is as short as the short
      ones; one whose timer is a short one always counts. */
  lemma CountedByAge(t: Table, port: nat, id: GenId, l: Liveness, f: Flow, timeout: nat, age: nat)
    requires f in t && AdapterFlow(f, port) && OwnerOf(t[f].mark) == Some(id) && TimedSince(t[f], timeout, age)
    requires l.idleAfter > 0 && l.established > 0
    ensures t[f].established && timeout == l.established ==>
              (f in CountedFlows(t, port, id, l) <==> age < l.idleAfter || timeout - age <= l.shortTimer)
    ensures !t[f].established || timeout <= l.shortTimer ==> f in CountedFlows(t, port, id, l)
  {
    LeftOutExactlyWhen(l, t[f]);
    hide OwnerOf, CountsAsLive;
  }

  /** So a drain that counts none has no connection with a packet younger than that age. */
  lemma ZeroCountMeansAllIdle(t: Table, port: nat, id: GenId, l: Liveness, f: Flow, timeout: nat, age: nat)
    requires |CountedFlows(t, port, id, l)| == 0
    requires f in t && AdapterFlow(f, port) && OwnerOf(t[f].mark) == Some(id) && TimedSince(t[f], timeout, age)
    requires !t[f].established || timeout == l.established || timeout <= l.shortTimer
    ensures 0 < l.idleAfter <= age && t[f].established && timeout == l.established
  {
    hide OwnerOf, CountsAsLive;
    assert f !in CountedFlows(t, port, id, l);
    LeftOutExactlyWhen(l, t[f]);
  }

  /** Counter.Count: the flows the counter reports for one generation. */
  function CountedFlows(t: Table, port: nat, id: GenId, l: Liveness): set<Flow> {
    set f | f in t && AdapterFlow(f, port) && OwnerOf(t[f].mark) == Some(id) && CountsAsLive(l, t[f])
  }

  /** Counter.Counts: one snapshot of every generation in the namespace, idle or not. */
  function NamespaceCounts(t: Table, port: nat): map<GenId, nat> {
    map id | id in Owners(t, port) :: |CountedFlows(t, port, id, EVERY)|
  }

  function Owners(t: Table, port: nat): set<GenId> {
    set f | f in t && AdapterFlow(f, port) && OwnerOf(t[f].mark).Some? :: OwnerOf(t[f].mark).value
  }

  function CountOf(counts: map<GenId, nat>, id: GenId): nat {
    if id in counts then counts[id] else 0
  }

  ghost predicate Carried(t: Table, port: nat, id: GenId) {
    exists f :: f in t && AdapterFlow(f, port) && OwnerOf(t[f].mark) == Some(id)
  }

  /** The namespace snapshot is authoritative: an ID it counts zero is carried by no flow. */
  lemma SnapshotIsAuthoritative(t: Table, port: nat, id: GenId)
    ensures CountOf(NamespaceCounts(t, port), id) == 0 <==> !Carried(t, port, id)
  {
    hide OwnerOf;
    if f :| f in t && AdapterFlow(f, port) && OwnerOf(t[f].mark) == Some(id) {
      assert id in Owners(t, port);
      assert f in CountedFlows(t, port, id, EVERY);
    }
    if id in Owners(t, port) {
      var f :| f in t && AdapterFlow(f, port) && OwnerOf(t[f].mark).Some? && OwnerOf(t[f].mark).value == id;
      assert f in CountedFlows(t, port, id, EVERY);
    }
  }

  /** And what it counts for an ID are the flows that carry it, all of them. */
  lemma SnapshotCountsFlows(t: Table, port: nat, id: GenId)
    ensures CountOf(NamespaceCounts(t, port), id) == |set f | f in t && AdapterFlow(f, port) && OwnerOf(t[f].mark) == Some(id)|
  {
    var owned := set f | f in t && AdapterFlow(f, port) && OwnerOf(t[f].mark) == Some(id);
    assert CountedFlows(t, port, id, EVERY) == owned;
    if owned != {} {
      var f :| f in owned;
      assert OwnerOf(t[f].mark).value in Owners(t, port);
    }
    hide OwnerOf;
  }

  lemma CountedAreValid(t: Table, port: nat)
    ensures forall id :: id in NamespaceCounts(t, port) ==> ValidGen(id)
  {
    forall id | id in NamespaceCounts(t, port)
      ensures ValidGen(id)
    {
      var f :| f in t && AdapterFlow(f, port) && OwnerOf(t[f].mark).Some? && OwnerOf(t[f].mark).value == id;
      OwnerImpliesRule(t[f].mark);
      hide ID;
    }
  }

  /** A drain count of zero means that no flow carries the number, whatever the table, exactly
      when no timer value makes a connection idle: when no idle age is configured, or one too
      long for the kernel's timeouts. */
  lemma ZeroDrainCountMeansUncarriedExactlyWhen(port: nat, id: GenId, l: Liveness)
    requires ValidGen(id)
    ensures (forall t: Table :: |CountedFlows(t, port, id, l)| == 0 ==> !Carried(t, port, id)) <==> !Skips(l)
  {
    if Skips(l) {
      var t := IdleOnly(port, id, l);
      assert |CountedFlows(t, port, id, l)| == 0 && Carried(t, port, id);
    } else {
      forall t: Table | |CountedFlows(t, port, id, l)| == 0
        ensures !Carried(t, port, id)
      {
        ZeroCountIsAuthoritative(t, port, id, l);
      }
    }
  }

  lemma ZeroCountIsAuthoritative(t: Table, port: nat, id: GenId, l: Liveness)
    requires !Skips(l) && |CountedFlows(t, port, id, l)| == 0
    ensures !Carried(t, port, id)
  {
    hide CountedFlows, Carried;
    if Carried(t, port, id) {
      CarriedIsCounted(t, port, id, l);
    }
  }

  lemma CarriedIsCounted(t: Table, port: nat, id: GenId, l: Liveness)
    requires !Skips(l) && Carried(t, port, id)
    ensures |CountedFlows(t, port, id, l)| > 0
  {
    hide OwnerOf, AdapterFlow;
    SkipsMeans(l);
    var f :| f in t && AdapterFlow(f, port) && OwnerOf(t[f].mark) == Some(id);
    assert f in CountedFlows(t, port, id, l);
  }

  /** A table whose only connection belongs to the generation and is idle. */
  lemma IdleOnly(port: nat, id: GenId, l: Liveness) returns (t: Table)
    requires ValidGen(id) && Skips(l)
    ensures |CountedFlows(t, port, id, l)| == 0 && Carried(t, port, id)
  {
    var f := Flow(0, true, true, port);
    t := map[f := Conn(MarkBits(id.raw), false, true, l.shortTimer + 1)];
    OwnedByRule(id);
    hide OwnerOf, MarkBits;
    assert CountedFlows(t, port, id, l) == {};
    assert f in t && AdapterFlow(f, port) && OwnerOf(t[f].mark) == Some(id);
  }

  lemma OwnedByRule(id: GenId)
    requires ValidGen(id)
    ensures OwnerOf(MarkBits(id.raw)) == Some(id)
  {
    AssignNamesOwner(0, id.raw);
    assert Assign(0, MarkBits(id.raw)) == MarkBits(id.raw);
    hide ID, MarkBits;
  }

  // ---------------------------------------------------------------- the record of a run

  /** Everything a packet's fate depends on at one moment. `serving` says that a controller
      runs and has removed whatever table its predecessor left. */
  datatype Moment = Moment(
    program: Program, engines: map<GenId, Dna>, disk: Disk, table: Table, gone: set<Flow>, serving: bool)

  /** A generation the program may queue to has a registered engine, the surviving state
      file holds the same DNA for it, and the program's scope for it is that DNA's. */
  ghost predicate Backed(id: GenId, scope: Scope, engines: map<GenId, Dna>, disk: Disk, cfg: Config) {
    && ValidGen(id)
    && id in engines
    && disk.Stored? && id in ById(disk.file.generations) && ById(disk.file.generations)[id].dna == engines[id]
    && ScopeFor(engines[id], cfg) == Some(scope)
  }

  /** Dispatch safety of one moment. */
  ghost predicate SafeFor(p: Program, engines: map<GenId, Dna>, disk: Disk, cfg: Config) {
    && (forall id :: id in p.live ==> Backed(id, p.live[id], engines, disk, cfg))
    && (p.assignee != NO_GEN ==> p.assignee in p.live)
  }

  ghost predicate SafeMoment(m: Moment, cfg: Config) {
    m.serving ==> SafeFor(m.program, m.engines, m.disk, cfg)
  }

  /** One step of the machine: what b's program allows the table to do. */
  ghost predicate MomentsStep(a: Moment, b: Moment) {
    ProgramIdsOk(b.program) && Steps(b.program, a.table, a.gone, b.table, b.gone)
  }

  ghost predicate MomentsEvolve(a: Moment, b: Moment) {
    Evolves(a.table, a.gone, b.table, b.gone)
  }

  /** Whatever was unowned at k has left or is neutral at m. */
  ghost predicate Cleared(trace: seq<Moment>, port: nat, k: nat, m: nat)
    requires k < |trace| && m < |trace|
  {
    forall f :: f in trace[k].table && f in trace[m].table && AdapterFlow(f, port) && Reserved(trace[k].table[f].mark) == 0 ==>
      Reserved(trace[m].table[f].mark) == NAMESPACE
  }

  /** A neutral boundary from moment k to moment m: no program in between assigned a
      generation, and whatever was unowned at k has left or is neutral at m. */
  ghost predicate Boundary(trace: seq<Moment>, port: nat, k: nat, m: nat) {
    k <= m < |trace| && (forall i :: k <= i <= m ==> trace[i].program.assignee == NO_GEN) && Cleared(trace, port, k, m)
  }

  lemma BoundaryStays(h: seq<Moment>, trace: seq<Moment>, port: nat, k: nat, m: nat)
    requires h <= trace && Boundary(h, port, k, m)
    ensures Boundary(trace, port, k, m)
  {
    hide Reserved, AdapterFlow;
  }

  /** A boundary that was reported, if any, began no earlier than h ends. */
  ghost predicate BoundarySince(h: seq<Moment>, trace: seq<Moment>, port: nat, b: Option<(nat, nat)>) {
    b.Some? ==> |h| <= b.value.0 + 1 && Boundary(trace, port, b.value.0, b.value.1)
  }

  lemma NoBoundary(h: seq<Moment>, trace: seq<Moment>, port: nat)
    ensures BoundarySince(h, trace, port, None)
  {
  }

  lemma BoundarySinceStays(earlier: seq<Moment>, h: seq<Moment>, mid: seq<Moment>, trace: seq<Moment>, port: nat, b: Option<(nat, nat)>)
    requires earlier <= h && mid <= trace && BoundarySince(h, mid, port, b)
    ensures BoundarySince(earlier, trace, port, b)
  {
    hide Boundary;
    if b.Some? {
      BoundaryStays(mid, trace, port, b.value.0, b.value.1);
    }
  }

  /** A watch over a run: since some moment, only these have been assigned to new SYNs, unless
      by one of the kept programs. */
  datatype Watch = Watch(since: nat, allowed: set<GenId>, kept: set<Program> := {})
  {
    predicate Allows(p: Program) {
      p.assignee in allowed || p in kept
    }
  }

  /** A file some persist put on disk (or may have), and the view it was made from. */
  datatype Written = Written(file: File, view: View)

  class Host {
    const cfg: Config
    var program: Program
    var table: Table
    var disk: Disk
    var gone: set<Flow>
    /** Every moment so far. */
    var trace: seq<Moment>
    ghost var written: set<Written>
    /** What was on disk when the record begins. */
    ghost const first: Disk

    constructor (cfg: Config, program: Program, table: Table, disk: Disk)
      requires ProgramIdsOk(program)
      ensures History()
      ensures this.cfg == cfg && this.disk == disk && this.program == program && this.table == table
      ensures first == disk && |trace| == 1 && written == {}
    {
      this.cfg := cfg;
      first := disk;
      this.program, this.table, this.disk := program, table, disk;
      gone, written := {}, {};
      trace := [Moment(program, map[], disk, table, {}, false)];
    }

    /** What holds of the whole history so far: every serving moment was safe, marks only
        ever took legal steps, everything ever persisted was the image of an admissible view,
        and what was on disk at any moment was there from the start, absent or such an image. */
    ghost predicate History()
      reads this
    {
      Current() && Past()
    }

    ghost predicate Past()
      reads this`trace, this`written
    {
      && |trace| > 0
      && (forall k :: 0 <= k < |trace| ==> SafeMoment(trace[k], cfg))
      && (forall k :: 0 <= k < |trace| ==> trace[k].table.Keys !! trace[k].gone)
      && (forall k :: 0 < k < |trace| ==> MomentsStep(trace[k - 1], trace[k]))
      && (forall w :: w in written ==> IsImage(w.file, w.view) && ViewOk(w.view, cfg))
      && (forall k :: 0 <= k < |trace| ==> Known(trace[k].disk))
      && ProgramIdsOk(trace[0].program)
    }

    ghost predicate Known(d: Disk)
      reads this`written
    {
      d == first || d.Absent? || (d.Stored? && exists v :: Written(d.file, v) in written)
    }

    ghost predicate Current()
      reads this
    {
      && |trace| > 0
      && trace[|trace| - 1].program == program && trace[|trace| - 1].disk == disk
      && trace[|trace| - 1].table == table && trace[|trace| - 1].gone == gone
      && table.Keys !! gone
      && ProgramIdsOk(program)
    }

    ghost predicate Watched(w: Watch)
      reads this`trace
    {
      w.since < |trace| && forall k :: w.since <= k < |trace| ==> w.Allows(trace[k].program)
    }

    /** Nothing but a new moment is noted, and only the watched generations are assigned. */
    method Note(engines: map<GenId, Dna>, serving: bool, ghost w: Watch)
      requires Past() && Watched(w) && w.Allows(program)
      requires Steps(program, trace[|trace| - 1].table, trace[|trace| - 1].gone, table, gone)
      requires table.Keys !! gone && ProgramIdsOk(program) && Known(disk)
      requires serving ==> SafeFor(program, engines, disk, cfg)
      modifies this`trace
      ensures History() && Watched(w)
      ensures trace == old(trace) + [Moment(program, engines, disk, table, gone, serving)]
    {
      var m := Moment(program, engines, disk, table, gone, serving);
      ghost var was := trace;
      trace := trace + [m];
      assert SafeMoment(m, cfg) && MomentsStep(was[|was| - 1], m) && Known(m.disk);
      hide *;
      MoreOfThePast(was, m);
      MoreIsWatched(was, m, w);
      NowCurrent(m);
    }

    lemma MoreOfThePast(was: seq<Moment>, m: Moment)
      requires |was| > 0 && trace == was + [m]
      requires forall k :: 0 <= k < |was| ==> SafeMoment(was[k], cfg) && was[k].table.Keys !! was[k].gone && Known(was[k].disk)
      requires forall k :: 0 < k < |was| ==> MomentsStep(was[k - 1], was[k])
      requires forall w :: w in written ==> IsImage(w.file, w.view) && ViewOk(w.view, cfg)
      requires ProgramIdsOk(was[0].program)
      requires SafeMoment(m, cfg) && m.table.Keys !! m.gone && MomentsStep(was[|was| - 1], m) && Known(m.disk)
      ensures Past()
    {
      hide SafeMoment, MomentsStep, IsImage, ViewOk, ProgramIdsOk, Known;
    }

    lemma MoreIsWatched(was: seq<Moment>, m: Moment, w: Watch)
      requires trace == was + [m] && w.Allows(m.program) && w.since < |was|
      requires forall k :: w.since <= k < |was| ==> w.Allows(was[k].program)
      ensures Watched(w)
    {
      hide Watch.Allows;
    }

    lemma NowCurrent(m: Moment)
      requires |trace| > 0 && trace[|trace| - 1] == m && table.Keys !! gone && ProgramIdsOk(program)
      requires m.program == program && m.disk == disk && m.table == table && m.gone == gone
      ensures Current()
    {
      hide ProgramIdsOk;
    }

    /** One packet or timer. */
    method Happens(e: Event, engines: map<GenId, Dna>, serving: bool, ghost w: Watch)
      requires History() && Watched(w) && (serving ==> SafeFor(program, engines, disk, cfg))
      modifies this`table, this`gone, this`trace
      ensures History() && Watched(w) && old(trace) <= trace
    {
      hide SafeFor, IsImage, ViewOk, ProgramIdsOk, Steps, SafeMoment, MomentsStep, Happen;
      HappenSteps(program, cfg.port, table, gone, e);
      StepsAreDisjoint(program, table, gone, Happen(program, cfg.port, table, gone, e), gone + (if e.Expires? then {e.flow} else {}));
      table := Happen(program, cfg.port, table, gone, e);
      gone := gone + (if e.Expires? then {e.flow} else {});
      Note(engines, serving, w);
    }

    /** Any number of packets and timers, in any order. */
    method Traffic(engines: map<GenId, Dna>, serving: bool, ghost w: Watch)
      requires History() && Watched(w) && (serving ==> SafeFor(program, engines, disk, cfg))
      modifies this`table, this`gone, this`trace
      ensures History() && Watched(w) && old(trace) <= trace
    {
      hide *;
      var n: nat := *;
      while n > 0
        invariant History() && Watched(w) && old(trace) <= trace
        decreases n
      {
        var e: Event := *;
        Happens(e, engines, serving, w);
        n := n - 1;
      }
    }

    /** The kernel commits an atomic table replacement. */
    method Replace(p: Program, engines: map<GenId, Dna>, serving: bool, ghost w: Watch)
      requires History() && ProgramIdsOk(p) && (serving ==> SafeFor(p, engines, disk, cfg))
      requires Watched(w) && p.assignee in w.allowed
      modifies this`program, this`trace
      ensures History() && Watched(w) && old(trace) <= trace
      ensures program == p
    {
      hide SafeFor, IsImage, ViewOk, ProgramIdsOk, Steps;
      NoStep(p, table, gone);
      program := p;
      Note(engines, serving, w);
    }

    /** A state file becomes the one that survives a crash. */
    method Save(f: File, ghost v: View, engines: map<GenId, Dna>, serving: bool, ghost w: Watch)
      requires History() && IsImage(f, v) && ViewOk(v, cfg)
      requires Watched(w) && (serving ==> SafeFor(program, engines, Stored(f), cfg))
      modifies this`disk, this`written, this`trace
      ensures History() && Watched(w) && old(trace) <= trace
      ensures disk == Stored(f) && written == old(written) + {Written(f, v)}
    {
      hide SafeFor, IsImage, ViewOk, ProgramIdsOk, Steps;
      NoStep(program, table, gone);
      disk := Stored(f);
      written := written + {Written(f, v)};
      Note(engines, serving, w);
    }

    /** The state file is renamed out of the way. */
    method Quarantine(engines: map<GenId, Dna>, serving: bool, ghost w: Watch)
      requires History() && Watched(w) && (serving ==> SafeFor(program, engines, Absent, cfg))
      modifies this`disk, this`trace
      ensures History() && Watched(w) && old(trace) <= trace
      ensures disk == Absent
    {
      hide SafeFor, IsImage, ViewOk, ProgramIdsOk, Steps;
      NoStep(program, table, gone);
      disk := Absent;
      Note(engines, serving, w);
    }

    /** The sweep's conntrack update of one entry; it fails on an entry that has left. The
        kernel overwrites the mark whatever it has become since the dump, so the caller must
        know that it is still unowned or already neutral. */
    method UpdateMark(f: Flow, mark: bv32, engines: map<GenId, Dna>, serving: bool, ghost w: Watch)
      returns (ok: bool)
      requires History() && Watched(w) && (serving ==> SafeFor(program, engines, disk, cfg))
      requires f in table ==> MarkStep(program, table[f].mark, mark)
      modifies this`table, this`trace
      ensures History() && Watched(w) && old(trace) <= trace
      ensures ok ==> f in old(table) && table == old(table)[f := old(table)[f].(mark := mark)]
      ensures !ok ==> table == old(table)
    {
      hide SafeFor, IsImage, ViewOk, ProgramIdsOk, MarkStep, OwnerOf;
      ok := *;
      if f !in table || !ok {
        return false;
      }
      ghost var before := table;
      table := table[f := table[f].(mark := mark)];
      assert Steps(program, before, gone, table, gone) by {
        forall g | g in before
          ensures g in table && MarkStep(program, before[g].mark, table[g].mark)
        {
          NoMarkStep(program, before[g].mark);
        }
      }
      Note(engines, serving, w);
      return true;
    }

    /** The controller dies at some moment since `from`, in the middle of whatever it was
        doing: what came later has not happened, and the machine is as it was. */
    method Crash(from: nat)
      requires History() && 0 < from <= |trace|
      modifies this`program, this`table, this`disk, this`gone, this`trace
      ensures History() && trace <= old(trace) && from <= |trace|
    {
      hide SafeFor, IsImage, ViewOk, ProgramIdsOk, SafeMoment, Steps;
      var k: nat := *;
      if k < from - 1 || |trace| <= k {
        return;
      }
      var m := trace[k];
      assert k > 0 ==> MomentsStep(trace[k - 1], trace[k]);
      ghost var was := trace;
      program, table, disk, gone := m.program, m.table, m.disk, m.gone;
      trace := trace[..k + 1];
      assert forall j :: 0 <= j < |trace| ==> trace[j] == was[j];
      assert forall w :: w in written ==> IsImage(w.file, w.view) && ViewOk(w.view, cfg);
      assert forall j :: 0 <= j < |trace| ==> Known(trace[j].disk);
      assert forall j :: 0 < j < |trace| ==> MomentsStep(trace[j - 1], trace[j]);
      assert Current();
    }

    // ------------------------------------------------------------ what a whole run shows

    lemma {:induction false} MomentsEvolveAcross(i: nat, j: nat)
      requires History() && i <= j < |trace|
      ensures MomentsEvolve(trace[i], trace[j])
      decreases j
    {
      hide SafeMoment, IsImage, ViewOk, ProgramIdsOk, Steps;
      if i == j {
        MomentIsItself(i);
      } else {
        MomentsEvolveAcross(i, j - 1);
        assert MomentsStep(trace[j - 1], trace[j]);
        StepsEvolve(trace[j].program, trace[j - 1].table, trace[j - 1].gone, trace[j].table, trace[j].gone);
        EvolvesIsTransitive(trace[i].table, trace[i].gone, trace[j - 1].table, trace[j - 1].gone, trace[j].table, trace[j].gone);
      }
    }

    lemma MomentIsItself(i: nat)
      requires History() && i < |trace|
      ensures MomentsEvolve(trace[i], trace[i])
    {
      var m := trace[i];
      forall f | f in m.table
        ensures MarkMay(m.table[f].mark, m.table[f].mark)
      {
        MarkMayIsReflexive(m.table[f].mark);
      }
    }

    /** Connection affinity over a whole run, crashes and restarts included: between any two
        moments at which a flow is in the table, its low 12 bits are the same, and its
        reserved 20 bits are the same unless they were still zero. */
    lemma AffinityOverRun(i: nat, j: nat, f: Flow)
      requires History() && i <= j < |trace|
      requires f in trace[i].table && f in trace[j].table
      ensures Low(trace[i].table[f].mark) == Low(trace[j].table[f].mark)
      ensures Reserved(trace[i].table[f].mark) != 0 ==>
                && trace[i].table[f].mark == trace[j].table[f].mark
                && OwnerOf(trace[i].table[f].mark) == OwnerOf(trace[j].table[f].mark)
    {
      MomentsEvolveAcross(i, j);
      var a, b := trace[i].table[f].mark, trace[j].table[f].mark;
      assert MarkMay(a, b) by {
        hide MarkMay;
        MomentsEvolveAcross(j, j);
        assert f !in trace[j].gone;
      }
      MarkIsReservedAndLow(a, b);
    }

    /** Generations get flows only while they are assigned: a flow that a generation owns
        was owned by it when the history began, or there was a moment, no later, at which
        the installed program assigned that generation to new SYNs. */
    lemma {:induction false} OwnershipWasAssigned(j: nat, f: Flow, id: GenId)
      requires History() && j < |trace| && f in trace[j].table && OwnerOf(trace[j].table[f].mark) == Some(id)
      ensures (f in trace[0].table && OwnerOf(trace[0].table[f].mark) == Some(id))
              || exists i :: 0 < i <= j && trace[i].program.assignee == id
      decreases j
    {
      hide SafeMoment, IsImage, ViewOk, ProgramIdsOk, OwnerOf, MarkStep;
      if j > 0 {
        assert MomentsStep(trace[j - 1], trace[j]);
        if f in trace[j - 1].table {
          OwnerStep(trace[j].program, trace[j - 1].table[f].mark, trace[j].table[f].mark);
          if trace[j].program.assignee != id {
            OwnershipWasAssigned(j - 1, f, id);
          }
        }
      }
    }

    /** The activation boundary. Whatever is installed after the boundary, a flow to the
        port that was unowned when it began is never, at any later moment of the run, owned
        by any generation. */
    lemma BoundaryHolds(k: nat, m: nat, j: nat, f: Flow)
      requires History() && Boundary(trace, cfg.port, k, m) && k <= j < |trace|
      requires f in trace[k].table && AdapterFlow(f, cfg.port) && Reserved(trace[k].table[f].mark) == 0
      requires f in trace[j].table
      ensures OwnerOf(trace[j].table[f].mark) == None
    {
      hide SafeMoment, IsImage, ViewOk, ProgramIdsOk, OwnerOf, MarkStep, Reserved;
      if j <= m {
        StaysUnowned(k, j, f);
        NeutralReserved(trace[k].table[f].mark);
        UnownedOrNeutral(trace[j].table[f].mark);
      } else {
        MomentsEvolveAcross(k, m);
        MomentsEvolveAcross(m, j);
        MomentsEvolveAcross(j, j);
        assert f in trace[m].table;
        UnownedOrNeutral(trace[m].table[f].mark);
        AffinityOverRun(m, j, f);
      }
    }

    /** While nothing is assigned an unowned mark stays as it is or turns neutral. */
    lemma {:induction false} StaysUnowned(k: nat, j: nat, f: Flow)
      requires History() && k <= j < |trace| && f in trace[k].table && f in trace[j].table
      requires forall i :: k <= i <= j ==> trace[i].program.assignee == NO_GEN
      requires Reserved(trace[k].table[f].mark) == 0
      ensures trace[j].table[f].mark == trace[k].table[f].mark
              || trace[j].table[f].mark == NeutralMark(trace[k].table[f].mark)
      decreases j
    {
      hide SafeMoment, IsImage, ViewOk, ProgramIdsOk, MarkStep, Reserved, NeutralMark;
      if k < j {
        assert MomentsStep(trace[j - 1], trace[j]);
        MomentsEvolveAcross(k, j - 1);
        assert f in trace[j - 1].table;
        StaysUnowned(k, j - 1, f);
        UnassignedStep(trace[j].program, trace[k].table[f].mark, trace[j - 1].table[f].mark, trace[j].table[f].mark);
      }
    }

    /** Once neutral (or gone), always neutral (or gone). */
    lemma NeutralIsForGood(d: nat, i: nat, j: nat, f: Flow)
      requires History() && d <= i <= j < |trace| && f in trace[d].table
      requires f in trace[i].table ==> Reserved(trace[i].table[f].mark) == NAMESPACE
      ensures f in trace[j].table ==> Reserved(trace[j].table[f].mark) == NAMESPACE
    {
      hide SafeMoment, MomentsStep, IsImage, ViewOk, ProgramIdsOk, OwnerOf, Reserved, Low, MarkMay;
      if f in trace[j].table {
        MomentsEvolveAcross(d, i);
        MomentsEvolveAcross(i, j);
        assert f in trace[i].table;
        assert NAMESPACE != 0;
        AffinityOverRun(i, j, f);
      }
    }

    /** What a sweep proves: if everything a dump showed unowned is neutral or gone by m,
        and nothing was assigned since k, then k to m is a boundary. */
    lemma SweepMakesBoundary(k: nat, d: nat, m: nat)
      requires History() && k <= d <= m < |trace|
      requires forall i :: k <= i <= m ==> trace[i].program.assignee == NO_GEN
      requires Cleared(trace, cfg.port, d, m)
      ensures Boundary(trace, cfg.port, k, m)
    {
      hide History, MarkMay, Reserved, NeutralMark, ProgramIdsOk;
      forall f | f in trace[k].table && f in trace[m].table && AdapterFlow(f, cfg.port) && Reserved(trace[k].table[f].mark) == 0
        ensures Reserved(trace[m].table[f].mark) == NAMESPACE
      {
        StillThere(k, d, m, f);
        StaysUnowned(k, d, f);
        NeutralReserved(trace[k].table[f].mark);
        if Reserved(trace[d].table[f].mark) != 0 {
          NeutralIsForGood(k, d, m, f);
        }
      }
    }

    lemma StillThere(k: nat, d: nat, m: nat, f: Flow)
      requires History() && k <= d <= m < |trace| && f in trace[k].table && f in trace[m].table
      ensures f in trace[d].table
    {
      hide SafeMoment, MomentsStep, IsImage, ViewOk, ProgramIdsOk, MarkMay;
      MomentsEvolveAcross(k, d);
      MomentsEvolveAcross(d, m);
    }

    /** A number no flow carries stays uncarried while no program assigns it. */
    lemma {:induction false} UncarriedStays(k: nat, m: nat, id: GenId)
      requires History() && k <= m < |trace| && !Carried(trace[k].table, cfg.port, id)
      requires forall i :: k < i <= m ==> trace[i].program.assignee != id
      ensures !Carried(trace[m].table, cfg.port, id)
      decreases m
    {
      hide SafeMoment, IsImage, ViewOk, ProgramIdsOk, OwnerOf, MarkStep, AdapterFlow, Known;
      if k < m {
        UncarriedStays(k, m - 1, id);
        assert MomentsStep(trace[m - 1], trace[m]);
        var a, b := trace[m - 1].table, trace[m].table;
        if f :| f in b && AdapterFlow(f, cfg.port) && OwnerOf(b[f].mark) == Some(id) {
          assert f in a;
          OwnerStep(trace[m].program, a[f].mark, b[f].mark);
          assert false;
        }
      }
    }

    /** Dispatch safety over a whole run: at every serving moment, a packet any queue rule
        hands to userspace names one generation, whose engine is registered and holds the
        DNA the surviving state file has for that generation. */
    lemma DispatchIsSafeOverRun(k: nat, f: Flow, outbound: bool, flags: bv8, id: GenId)
      requires History() && k < |trace| && trace[k].serving && f in trace[k].table
      requires QueuesTo(trace[k].program, f, trace[k].table[f].mark, outbound, flags, id, cfg.port)
      ensures OwnerOf(trace[k].table[f].mark) == Some(id)
      ensures id in trace[k].engines
      ensures trace[k].disk.Stored? && id in ById(trace[k].disk.file.generations)
      ensures ById(trace[k].disk.file.generations)[id].dna == trace[k].engines[id]
    {
      assert SafeMoment(trace[k], cfg);
      assert Backed(id, trace[k].program.live[id], trace[k].engines, trace[k].disk, cfg);
      QueuedPacketNamesOneGeneration(trace[k].program, f, trace[k].table[f].mark, outbound, flags, id, cfg.port);
    }

    /** No crash point leaves a state file of our own that the next start would set aside:
        whenever a controller dies, at any moment inside any operation, the loader accepts
        what is on disk, provided that it accepted what was there at the very first. */
    lemma EveryMomentIsReadable(k: nat)
      requires History() && k < |trace| && Readable(first, cfg)
      ensures Readable(trace[k].disk, cfg)
    {
      hide Loadable, SafeMoment, MomentsStep, IsImage, ViewOk, ProgramIdsOk;
      var d := trace[k].disk;
      assert Known(d);
      if d.Stored? && d != first {
        var v :| Written(d.file, v) in written;
        EverythingPersistedReloads(Written(d.file, v));
      }
    }

    lemma NowReadable()
      requires History()
      ensures Readable(first, cfg) ==> Readable(disk, cfg)
    {
      hide Readable, SafeMoment, MomentsStep, IsImage, ViewOk, ProgramIdsOk, Known;
      if Readable(first, cfg) {
        EveryMomentIsReadable(|trace| - 1);
      }
    }

    /** A flow keeps its owner as long as it stays. */
    lemma OwnerStays(i: nat, j: nat, f: Flow)
      requires History() && i <= j < |trace| && f in trace[i].table && f in trace[j].table
      requires OwnerOf(trace[i].table[f].mark).Some?
      ensures OwnerOf(trace[j].table[f].mark) == OwnerOf(trace[i].table[f].mark)
    {
      OwnedIsReserved(trace[i].table[f].mark);
      hide History, OwnerOf, Reserved, Low;
      AffinityOverRun(i, j, f);
    }

    /** Crash recovery over a whole run: whatever persist the crash interrupted, the file it
        leaves passes every check of the loader on the same host and reconstructs the view
        it was written for. */
    lemma EverythingPersistedReloads(w: Written)
      requires History() && w in written
      ensures Loadable(w.file, cfg)
      ensures ReloadedGens(w.file.generations, cfg) == w.view.gens
      ensures w.file.activeNew == w.view.activeNew && w.file.previous == w.view.previous
      ensures w.file.isUnsafe == w.view.isUnsafe && w.file.offloads == w.view.offloads
    {
      ImageReloads(w.file, w.view, cfg);
    }
  }

  lemma StepsAreDisjoint(p: Program, a: Table, aGone: set<Flow>, b: Table, bGone: set<Flow>)
    requires Steps(p, a, aGone, b, bGone)
    ensures b.Keys !! bGone
  {
  }

  lemma NoMarkStep(p: Program, mark: bv32)
    ensures MarkStep(p, mark, mark)
  {
  }

  lemma MarkMayIsReflexive(a: bv32)
    ensures MarkMay(a, a)
  {
  }

  /** If a step changes who owns a mark, the new owner is the assigned generation. */
  lemma OwnerStep(p: Program, a: bv32, b: bv32)
    requires ProgramIdsOk(p) && MarkStep(p, a, b)
    ensures OwnerOf(b) == OwnerOf(a) || OwnerOf(b) == None || OwnerOf(b) == Some(p.assignee)
  {
    hide ProgramIdsOk, ID;
    if b == NeutralMark(a) {
      NeutralIsOwnedByNobody(a);
    } else if b != a && p.assignee != NO_GEN {
      SynMarkNamesAssignee(p, a);
    } else if b != a {
      AssignNeutral(a);
      NeutralIsOwnedByNobody(a);
    }
  }

  /** Zero is nobody's number. */
  lemma NobodyCarriesZero(t: Table, port: nat)
    ensures !Carried(t, port, NO_GEN)
  {
    forall mark: bv32
      ensures OwnerOf(mark) != Some(NO_GEN)
    {
    }
    hide OwnerOf, AdapterFlow;
  }

  lemma OwnedIsReserved(mark: bv32)
    requires OwnerOf(mark).Some?
    ensures Reserved(mark) != 0
  {
  }

  lemma UnownedOrNeutral(mark: bv32)
    ensures Reserved(mark) == 0 || Reserved(mark) == NAMESPACE ==> OwnerOf(mark) == None
  {
  }

  lemma UnassignedStep(p: Program, start: bv32, a: bv32, b: bv32)
    requires p.assignee == NO_GEN && MarkStep(p, a, b)
    requires Reserved(start) == 0 && (a == start || a == NeutralMark(start))
    ensures b == start || b == NeutralMark(start)
  {
    NeutralReserved(start);
    NeutralProgramFacts(p, a);
    hide SynMark, Reserved, NeutralMark;
  }
}
