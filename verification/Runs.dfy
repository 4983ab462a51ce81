/** Whole runs: any number of controller processes one after the other on one machine, each
    started, driven by any sequence of adapter calls, integrity signals, packets and timers,
    and killed at any moment. A call that lets go of the mutex is pending until it takes it
    again, and any other may come in between. What History says holds throughout, so the
    theorems of the Host class hold of every reachable state; what Kept says holds of every
    process whenever the mutex is free. */
module Runs {
  import opened Wrappers
  import opened Artifacts
  import opened Hosts
  import opened Registries
  import opened Lifecycle
  import opened Allocation
  import opened Controllers

  type Counts = map<GenId, nat>

  /** An adapter call between two of its turns with the mutex. */
  datatype Pending =
    | ToDrain(id: GenId, identity: Identity)
    | DrainCounted(id: GenId, identity: Identity, n: nat)
    | ToCollect(id: GenId, identity: Identity)
    | CollectCounted(id: GenId, identity: Identity, n: nat)
    | ToRollBack(a: Artifact)                     // has seen no durability failure
    | ToSnapshot(a: Artifact)                      // the artifact was absent
    | RollbackCounted(a: Artifact, counts: Counts)

  /** When a pending call took its count, and how it told idle connections. */
  datatype Stamp = Stamp(k: nat, l: Liveness)

  /** The count a pending call has taken is that of the moment stamped. */
  ghost predicate Stands(p: Pending, t: Stamp, since: nat, trace: seq<Moment>, cfg: Config) {
    match p
    case DrainCounted(id, _, n) => since <= t.k && IsCount(n, id, t, trace, cfg)
    case CollectCounted(id, _, n) => since <= t.k && IsCount(n, id, t, trace, cfg)
    case RollbackCounted(_, counts) => since <= t.k < |trace| && counts == NamespaceCounts(trace[t.k].table, cfg.port)
    case _ => true
  }

  ghost predicate IsCount(n: nat, id: GenId, t: Stamp, trace: seq<Moment>, cfg: Config) {
    && t.k < |trace| && n == |CountedFlows(trace[t.k].table, cfg.port, id, t.l)|
    && (t.l.idleAfter == 0 || t.l.idleAfter == cfg.idleAfter)
  }

  ghost predicate AllStand(pending: seq<Pending>, at: seq<Stamp>, since: nat, trace: seq<Moment>, cfg: Config) {
    |at| == |pending| && forall i :: 0 <= i < |pending| ==> Stands(pending[i], at[i], since, trace, cfg)
  }

  lemma StillStand(pending: seq<Pending>, at: seq<Stamp>, since: nat, h: seq<Moment>, trace: seq<Moment>, cfg: Config)
    requires h <= trace && AllStand(pending, at, since, h, cfg)
    ensures AllStand(pending, at, since, trace, cfg)
  {
    hide CountedFlows, NamespaceCounts;
    forall i | 0 <= i < |pending|
      ensures Stands(pending[i], at[i], since, trace, cfg)
    {
      StillStands(pending[i], at[i], since, h, trace, cfg);
    }
  }

  lemma StillStands(p: Pending, t: Stamp, since: nat, h: seq<Moment>, trace: seq<Moment>, cfg: Config)
    requires h <= trace && Stands(p, t, since, h, cfg)
    ensures Stands(p, t, since, trace, cfg)
  {
    hide CountedFlows, NamespaceCounts;
  }

  /** Why a number may have been forgotten, or handed out, although flows carry it. */
  datatype Lapse =
    | IdleSkipped(id: GenId)          // collected on the strength of a count that leaves idle flows out
    | AssignedMeanwhile(id: GenId)    // collected, and some program had assigned it since the count
    | NoSnapshot(id: GenId)           // handed out before there was any snapshot of the namespace

  /** What a run has to answer for. From moment `since` on only entries have been assigned.
      `audited`: the reservations account for a namespace snapshot. `reused`: the numbers that
      were handed out while a flow carried them. `early`: a repair began while a finished
      reconciliation still had its flag up. */
  datatype Ledger = Ledger(since: nat, audited: bool, lapses: set<Lapse>, reused: set<GenId>, early: bool)

  ghost predicate Lapsed(lapses: set<Lapse>, id: GenId) {
    exists l :: l in lapses && l.id == id
  }

  /** The numbers taken off the list although flows may have carried them. */
  ghost function Forgotten(lapses: set<Lapse>): set<GenId> {
    set l | l in lapses && !l.NoSnapshot? :: l.id
  }

  /** Every number handed out while a flow carried it has lapsed. */
  ghost predicate Answered(g: Ledger) {
    forall id :: id in g.reused ==> Lapsed(g.lapses, id)
  }

  ghost predicate NeverIdle(lapses: set<Lapse>) {
    forall l :: l in lapses ==> !l.IdleSkipped?
  }

  ghost predicate NumbersKept(g: Ledger, trace: seq<Moment>, port: nat, listed: set<GenId>, reserved: set<GenId>) {
    && g.since < |trace|
    && NeverRegained(trace, port, g.since, listed + Forgotten(g.lapses))
    && (g.audited ==> Accounted(trace[|trace| - 1].table, port, listed + Forgotten(g.lapses), reserved))
    && Answered(g)
  }

  /** What holds of a process whenever the mutex is free. */
  ghost predicate Kept(c: Controller, pending: seq<Pending>, at: seq<Stamp>, g: Ledger)
    reads c, c.host, c.eng, c.faults
  {
    && c.Valid()
    && NumbersKept(g, c.host.trace, c.host.cfg.port, c.generations.Keys, c.reserved)
    && AllStand(pending, at, g.since, c.host.trace, c.host.cfg)
    && (c.faults.unattended ==> g.early)
    && (c.host.cfg.idleAfter == 0 ==> NeverIdle(g.lapses))
  }

  lemma KeptParts(c: Controller, pending: seq<Pending>, at: seq<Stamp>, g: Ledger)
    requires Kept(c, pending, at, g)
    ensures c.Valid() && (c.faults.unattended ==> g.early) && (c.host.cfg.idleAfter == 0 ==> NeverIdle(g.lapses))
    ensures NumbersKept(g, c.host.trace, c.host.cfg.port, c.generations.Keys, c.reserved)
    ensures AllStand(pending, at, g.since, c.host.trace, c.host.cfg)
    ensures c.Steady() && c.Settled() && c.host.History() && |c.host.trace| > 0
    ensures c.host.trace[|c.host.trace| - 1].table == c.host.table
    ensures c.generations.Keys == c.eng.byID.Keys
  {
    hide *;
    KeptMeans(c, pending, at, g);
    c.ValidParts();
    c.SteadyFacts();
    c.TableIsLast();
    c.Listed();
  }

  lemma KeptMeans(c: Controller, pending: seq<Pending>, at: seq<Stamp>, g: Ledger)
    requires Kept(c, pending, at, g)
    ensures c.Valid() && (c.faults.unattended ==> g.early) && (c.host.cfg.idleAfter == 0 ==> NeverIdle(g.lapses))
    ensures NumbersKept(g, c.host.trace, c.host.cfg.port, c.generations.Keys, c.reserved)
    ensures AllStand(pending, at, g.since, c.host.trace, c.host.cfg)
  {
    hide Controller.Valid, NumbersKept, AllStand;
  }

  lemma IsKept(c: Controller, pending: seq<Pending>, at: seq<Stamp>, g: Ledger)
    requires c.Valid() && (c.faults.unattended ==> g.early) && (c.host.cfg.idleAfter == 0 ==> NeverIdle(g.lapses))
    requires NumbersKept(g, c.host.trace, c.host.cfg.port, c.generations.Keys, c.reserved)
    requires AllStand(pending, at, g.since, c.host.trace, c.host.cfg)
    ensures Kept(c, pending, at, g)
  {
    hide Controller.Valid, NumbersKept, AllStand;
  }

  /** Whenever the mutex is free, a latched fault over an active generation has a
      reconciliation waiting for it or a durability failure standing, unless some repair of
      this process began while a finished reconciliation still had its flag up. */
  lemma FailsClosed(c: Controller, pending: seq<Pending>, at: seq<Stamp>, g: Ledger)
    requires Kept(c, pending, at, g) && !g.early
    ensures c.faults.latched && c.activeNew != NO_GEN ==> c.faults.waiting || c.persistFatal
  {
    hide *;
    KeptParts(c, pending, at, g);
    c.ValidParts();
    c.StandsIs();
    c.NowIs();
    RestFailsClosed(c.activeNew, c.eng.active, c.Stands(), c.faults.Now());
  }

  // ---------------------------------------------------------------- keeping the numbers

  /** A stretch in which nothing was taken off the list, nor any reservation changed. */
  lemma NumbersGoOn(host: Host, h: seq<Moment>, g: Ledger, before: set<GenId>, now: set<GenId>, reserved: set<GenId>)
    requires host.History() && NumbersKept(g, h, host.cfg.port, before, reserved)
    requires AssignedOnly(h, host.trace, now) && before <= now
    ensures NumbersKept(g, host.trace, host.cfg.port, now, reserved)
  {
    NumbersGoOff(host, h, g, before, now, reserved, now, {});
    assert g.lapses + {} == g.lapses;
  }

  /** A stretch after which `now` is listed. What has been taken off the list was carried by
      no flow at its end, or has lapsed. */
  lemma NumbersGoOff(host: Host, h: seq<Moment>, g: Ledger, before: set<GenId>, now: set<GenId>, reserved: set<GenId>,
                     steered: set<GenId>, lapses: set<Lapse>)
    requires host.History() && NumbersKept(g, h, host.cfg.port, before, reserved)
    requires AssignedOnly(h, host.trace, steered) && steered <= before + now
    requires forall id :: id in before - now ==>
               id in Forgotten(lapses) || !Carried(host.trace[|host.trace| - 1].table, host.cfg.port, id)
    ensures NumbersKept(g.(lapses := g.lapses + lapses), host.trace, host.cfg.port, now, reserved)
  {
    hide Host.History, NeverRegained, Accounted, Carried;
    MoreForgotten(g, lapses);
    var had, left := before + Forgotten(g.lapses), now + Forgotten(g.lapses + lapses);
    MoreListed(h, host.trace, steered, had + left);
    StillNeverRegained(host, h, g.since, had, left);
    if g.audited {
      StillAccounted(h, host.trace, host.cfg.port, g.since, had, left, reserved);
    }
  }

  lemma NeverIdleJoins(lapses: set<Lapse>, more: set<Lapse>)
    requires NeverIdle(lapses) && NeverIdle(more)
    ensures NeverIdle(lapses + more)
  {
  }

  lemma NothingLapsed(g: Ledger)
    requires g.lapses == {} && g.reused == {}
    ensures Answered(g) && NeverIdle(g.lapses) && Forgotten(g.lapses) == {}
  {
  }

  lemma MoreForgotten(g: Ledger, lapses: set<Lapse>)
    ensures Forgotten(g.lapses) <= Forgotten(g.lapses + lapses) && Forgotten(lapses) <= Forgotten(g.lapses + lapses)
    ensures Answered(g) ==> Answered(g.(lapses := g.lapses + lapses))
  {
    if Answered(g) {
      forall id | id in g.reused
        ensures Lapsed(g.lapses + lapses, id)
      {
        var l :| l in g.lapses && l.id == id;
        assert l in g.lapses + lapses;
      }
    }
  }

  /** A stretch in which the reservations were reconciled with a snapshot of moment k. */
  lemma NumbersAudited(host: Host, h: seq<Moment>, g: Ledger, before: set<GenId>, now: set<GenId>,
                       reserved: set<GenId>, k: nat)
    requires host.History() && NumbersKept(g, h, host.cfg.port, before, reserved)
    requires AssignedOnly(h, host.trace, now) && before <= now && g.since <= k < |host.trace|
    ensures NumbersKept(g.(audited := true), host.trace, host.cfg.port, now,
                        Reconciled(reserved, NamespaceCounts(host.trace[k].table, host.cfg.port), before))
  {
    hide Host.History, NeverRegained, NamespaceCounts;
    NumbersGoOn(host, h, g, before, now, reserved);
    var all := now + Forgotten(g.lapses);
    SnapshotAccounts(host.trace, host.cfg.port, g.since, k, all, reserved);
    FewerKnown(host.trace[|host.trace| - 1].table, host.cfg.port, before, all, reserved, NamespaceCounts(host.trace[k].table, host.cfg.port));
  }

  lemma FewerKnown(t: Table, port: nat, before: set<GenId>, now: set<GenId>, reserved: set<GenId>, counts: Counts)
    requires before <= now && Accounted(t, port, now, Reconciled(reserved, counts, now))
    ensures Accounted(t, port, now, Reconciled(reserved, counts, before))
  {
    hide Carried;
  }

  // ---------------------------------------------------------------- turns with the mutex

  /** Nothing goes back. */
  ghost predicate Onward(g: Ledger, g1: Ledger) {
    && g1.since == g.since && (g.audited ==> g1.audited) && g.lapses <= g1.lapses
    && g.reused <= g1.reused && (g.early ==> g1.early)
  }

  /** A turn after which the list and the reservations are as they were. */
  lemma TurnKept(c: Controller, pending: seq<Pending>, at: seq<Stamp>, g: Ledger, h: seq<Moment>, early: bool)
    requires c.Valid() && c.generations.Keys == c.eng.byID.Keys
    requires NumbersKept(g, h, c.host.cfg.port, c.generations.Keys, c.reserved)
    requires AllStand(pending, at, g.since, h, c.host.cfg)
    requires AssignedOnly(h, c.host.trace, c.generations.Keys)
    requires (c.faults.unattended ==> g.early || early) && (c.host.cfg.idleAfter == 0 ==> NeverIdle(g.lapses))
    ensures Kept(c, pending, at, g.(early := g.early || early))
  {
    hide *;
    c.ValidParts();
    c.SteadyFacts();
    AssignedOnlyMeans(h, c.host.trace, c.generations.Keys);
    NumbersGoOn(c.host, h, g, c.generations.Keys, c.generations.Keys, c.reserved);
    EarlyIsNoNumber(g, c.host.trace, c.host.cfg.port, c.generations.Keys, c.reserved, g.early || early);
    StillStand(pending, at, g.since, h, c.host.trace, c.host.cfg);
    IsKept(c, pending, at, g.(early := g.early || early));
  }

  lemma Sooner(c: Controller, pending: seq<Pending>, at: seq<Stamp>, g: Ledger, early: bool)
    requires Kept(c, pending, at, g)
    ensures Kept(c, pending, at, g.(early := g.early || early))
  {
    hide Controller.Valid, AllStand, NeverRegained, Accounted, NeverIdle;
  }

  lemma AssignedOnlyMeans(h: seq<Moment>, trace: seq<Moment>, listed: set<GenId>)
    requires AssignedOnly(h, trace, listed)
    ensures h <= trace
  {
  }

  lemma EarlyIsNoNumber(g: Ledger, trace: seq<Moment>, port: nat, listed: set<GenId>, reserved: set<GenId>, early: bool)
    requires NumbersKept(g, trace, port, listed, reserved)
    ensures NumbersKept(g.(early := early), trace, port, listed, reserved)
  {
    hide NeverRegained, Accounted;
  }

  lemma OnwardFacts(g: Ledger, early: bool, audited: bool, lapses: set<Lapse>, reused: set<GenId>)
    ensures Onward(g, g)
    ensures Onward(g, Ledger(g.since, g.audited || audited, g.lapses + lapses, g.reused + reused, g.early || early))
  {
  }

  /** Prepare. The number it hands out is carried by no flow unless that number has lapsed. */
  method Prepare(c: Controller, a: Artifact, pending: seq<Pending>, ghost at: seq<Stamp>, ghost g: Ledger)
    returns (ok: bool, id: GenId, ghost g1: Ledger)
    requires Kept(c, pending, at, g)
    modifies c, c.host, c.eng, c.faults
    ensures Kept(c, pending, at, g1) && Onward(g, g1)
    ensures old(c.host.trace) <= c.host.trace && old(c.eng.log) <= c.eng.log
    ensures ok && id !in old(c.generations) && !Lapsed(g1.lapses, id) ==> !Carried(c.host.table, c.host.cfg.port, id)
    ensures g1.reused ==
              g.reused + if ok && id !in old(c.generations) && Carried(c.host.table, c.host.cfg.port, id) then {id} else {}
    ensures g1.lapses == g.lapses + if ok && id !in old(c.generations) && !g1.audited then {NoSnapshot(id)} else {}
    ensures g.audited || (ok && old(c.faults.latched)) ==> g1.audited
    ensures g1.audited ==> g.audited || old(c.faults.latched)
    ensures ok ==> c.Holds(id, a) && (id in old(c.generations) ==> c.generations == old(c.generations))
    ensures ok && id !in old(c.generations) ==> IsLeastFree(id, old(c.generations).Keys + c.reserved)
    ensures !old(c.faults.latched) ==> c.reserved == old(c.reserved) && Stirs(old(c.faults.Now()), c.faults.Now())
    ensures !ok && !old(c.faults.latched) ==>
              || !ArtifactFits(a, c.host.cfg) || !ArtifactVerifies(a.metadata.Id(), a.payload, c.host.cfg)
              || !old(c.CanAdmit(a)) || old(c.failed) < c.failed
    ensures old(c.failed) <= c.failed
  {
    hide *;
    KeptParts(c, pending, at, g);
    ghost var h, keys, reserved, latched, port := c.host.trace, c.generations.Keys, c.reserved, c.faults.latched, c.host.cfg.port;
    ghost var k;
    ok, id, k := c.Prepare(a);
    c.ValidParts();
    c.SteadyFacts();
    c.TableIsLast();
    ghost var snap := latched && |h| <= k + 1 && k < |c.host.trace|
                      && c.reserved == Reconciled(reserved, NamespaceCounts(c.host.trace[k].table, port), keys);
    ghost var handed := ok && id !in keys;
    ghost var audited := g.audited || snap;
    MoreListed(h, c.host.trace, keys, c.generations.Keys);
    SinceIsPast(g, h, port, keys, reserved);
    if snap {
      NumbersAudited(c.host, h, g, keys, c.generations.Keys, reserved, k);
    } else {
      if latched {
        UnlessReconciled(reserved, c.reserved, keys, h, c.host.trace, port, k);
      }
      NumbersGoOn(c.host, h, g, keys, c.generations.Keys, reserved);
    }
    if handed {
      HandedOut(c, id, g, h, keys, reserved, latched, k);
    }
    ghost var reused: set<GenId> := if handed && Carried(c.host.table, port, id) then {id} else {};
    ghost var lapses: set<Lapse> := if handed && !audited then {NoSnapshot(id)} else {};
    g1 := g.(audited := audited, lapses := g.lapses + lapses, reused := g.reused + reused);
    HasLapsed(g.lapses, lapses, id);
    OnlySnapshots(lapses);
    if c.host.cfg.idleAfter == 0 {
      NeverIdleJoins(g.lapses, lapses);
    }
    LapsesKeep(g.(audited := audited), c.host.trace, port, c.generations.Keys, c.reserved, lapses, reused);
    OnwardFacts(g, false, snap, lapses, reused);
    StillStand(pending, at, g.since, h, c.host.trace, c.host.cfg);
    IsKept(c, pending, at, g1);
  }

  lemma SinceIsPast(g: Ledger, h: seq<Moment>, port: nat, listed: set<GenId>, reserved: set<GenId>)
    requires NumbersKept(g, h, port, listed, reserved)
    ensures g.since < |h| && Answered(g)
  {
    hide NeverRegained, Accounted;
  }

  lemma UnlessReconciled(before: set<GenId>, reserved: set<GenId>, listed: set<GenId>, h: seq<Moment>, trace: seq<Moment>, port: nat, k: nat)
    requires ReconciledAt(before, reserved, listed, h, trace, port, k)
    requires !(|h| <= k + 1 && k < |trace| && reserved == Reconciled(before, NamespaceCounts(trace[k].table, port), listed))
    ensures reserved == before
  {
  }

  /** Entering a handed-out number that was carried, once it has lapsed. */
  lemma LapsesKeep(g: Ledger, trace: seq<Moment>, port: nat, listed: set<GenId>, reserved: set<GenId>, lapses: set<Lapse>, reused: set<GenId>)
    requires NumbersKept(g, trace, port, listed, reserved)
    requires forall l :: l in lapses ==> l.NoSnapshot?
    requires forall id :: id in reused ==> Lapsed(g.lapses + lapses, id)
    ensures NumbersKept(g.(lapses := g.lapses + lapses, reused := g.reused + reused), trace, port, listed, reserved)
  {
    hide NeverRegained, Accounted;
    MoreForgotten(g, lapses);
    assert Forgotten(g.lapses + lapses) == Forgotten(g.lapses);
  }

  lemma OnlySnapshots(lapses: set<Lapse>)
    requires forall l :: l in lapses ==> l.NoSnapshot?
    ensures NeverIdle(lapses)
  {
  }

  lemma HasLapsed(before: set<Lapse>, lapses: set<Lapse>, id: GenId)
    ensures id in Forgotten(before) ==> Lapsed(before + lapses, id)
    ensures NoSnapshot(id) in lapses ==> Lapsed(before + lapses, id)
  {
    if id in Forgotten(before) {
      var l :| l in before && l.id == id;
      assert l in before + lapses;
    }
    if NoSnapshot(id) in lapses {
      assert NoSnapshot(id) in before + lapses;
    }
  }

  /** A number handed out after a snapshot, or while all others are accounted for, is carried
      by no flow or has been forgotten. */
  lemma HandedOut(c: Controller, id: GenId, g: Ledger, h: seq<Moment>, keys: set<GenId>, reserved: set<GenId>, latched: bool, k: nat)
    requires c.host.History() && c.host.trace[|c.host.trace| - 1].table == c.host.table && id != NO_GEN && id !in keys
    requires NumbersKept(g, h, c.host.cfg.port, keys, reserved) && AssignedOnly(h, c.host.trace, keys)
    requires latched ==> |h| <= k + 1 && k < |c.host.trace| && !Carried(c.host.trace[k].table, c.host.cfg.port, id)
    requires !latched ==> IsLeastFree(id, keys + reserved)
    ensures latched || g.audited ==> Carried(c.host.table, c.host.cfg.port, id) ==> id in Forgotten(g.lapses)
  {
    hide Host.History, NeverRegained, IsLeastFree, Carried, Forgotten;
    if latched {
      c.host.UncarriedStays(k, |c.host.trace| - 1, id);
    } else if g.audited && id !in Forgotten(g.lapses) {
      FreshUnlessForgotten(id, keys, Forgotten(g.lapses), reserved, h[|h| - 1].table, c.host.cfg.port);
      assert h[|h| - 1] == c.host.trace[|h| - 1];
      c.host.UncarriedStays(|h| - 1, |c.host.trace| - 1, id);
    }
  }

  /** The last turn of a collection. It lapses if it takes a number off the list on the
      strength of a count that leaves idle flows out, or of one taken while some program
      still assigned the number. */
  method FinishCollect(c: Controller, id: GenId, identity: Identity, n: nat, ghost t: Stamp,
                       pending: seq<Pending>, ghost at: seq<Stamp>, ghost g: Ledger)
    returns (outcome: Outcome, ghost g1: Ledger)
    requires Kept(c, pending, at, g) && IsCount(n, id, t, c.host.trace, c.host.cfg)
    modifies c, c.host, c.eng, c.faults
    ensures Kept(c, pending, at, g1) && Onward(g, g1)
    ensures old(c.host.trace) <= c.host.trace && old(c.eng.log) <= c.eng.log
    ensures g1 == g.(lapses := g1.lapses)
    ensures g1.lapses == g.lapses + (if id in old(c.generations) && id !in c.generations
                                     then LapsesOf(id, t, Controller.UnassignedSince(old(c.host.trace), id, t.k)) else {})
    ensures outcome == Done || outcome == NoAction || old(c.failed) < c.failed
    ensures outcome == NoAction <==> n != 0 || old(c.faults.latched) || id !in old(c.generations)
                                     || old(c.generations)[id].identity != identity || old(c.activeNew) == id
    ensures outcome == Done ==> c.generations == old(c.generations) - {id}
    ensures outcome == Done || outcome == NoAction ==> Disturbs(old(c.faults.Now()), c.faults.Now())
    ensures unchanged(c`reserved) && old(c.failed) <= c.failed
  {
    hide *;
    KeptParts(c, pending, at, g);
    CountStands(c, n, id, t);
    ghost var h, keys, reserved, gens := c.host.trace, c.generations.Keys, c.reserved, c.generations;
    outcome := c.CollectFinish(id, identity, n, t.l, t.k);
    c.ValidParts();
    c.SteadyFacts();
    c.TableIsLast();
    ghost var removed := id in keys && id !in c.generations;
    ghost var lapse: set<Lapse> := if removed then LapsesOf(id, t, Controller.UnassignedSince(h, id, t.k)) else {};
    g1 := g.(lapses := g.lapses + lapse);
    OnwardFacts(g, false, false, lapse, {});
    assert g.reused + {} == g.reused;
    LapsesMean(id, t, Controller.UnassignedSince(h, id, t.k), c.host.cfg);
    if c.host.cfg.idleAfter == 0 {
      NeverIdleJoins(g.lapses, lapse);
    }
    if removed {
      assert c.generations.Keys == keys - {id};
      NumbersGoOff(c.host, h, g, keys, keys - {id}, reserved, keys, lapse);
    } else {
      assert c.generations.Keys == keys;
      assert g.lapses + {} == g.lapses;
      NumbersGoOn(c.host, h, g, keys, keys, reserved);
    }
    StillStand(pending, at, g.since, h, c.host.trace, c.host.cfg);
    IsKept(c, pending, at, g1);
  }

  /** What a collection after a count, `unassigned` since then, has to answer for. */
  ghost function LapsesOf(id: GenId, t: Stamp, unassigned: bool): set<Lapse> {
    (if Skips(t.l) then {IdleSkipped(id)} else {}) + (if unassigned then {} else {AssignedMeanwhile(id)})
  }

  lemma LapsesMean(id: GenId, t: Stamp, unassigned: bool, cfg: Config)
    requires t.l.idleAfter == 0 || t.l.idleAfter == cfg.idleAfter
    ensures LapsesOf(id, t, unassigned) == {} <==> !Skips(t.l) && unassigned
    ensures (!Skips(t.l) && unassigned) || id in Forgotten(LapsesOf(id, t, unassigned))
    ensures cfg.idleAfter == 0 ==> NeverIdle(LapsesOf(id, t, unassigned))
  {
    if Skips(t.l) {
      assert IdleSkipped(id) in LapsesOf(id, t, unassigned);
    }
    if !unassigned {
      assert AssignedMeanwhile(id) in LapsesOf(id, t, unassigned);
    }
  }

  lemma CountStands(c: Controller, n: nat, id: GenId, t: Stamp)
    requires IsCount(n, id, t, c.host.trace, c.host.cfg)
    ensures c.Counted(id, n, t.l, t.k) && (t.l.idleAfter == 0 || t.l.idleAfter == c.host.cfg.idleAfter)
  {
    hide CountedFlows;
  }

  /** The last turn of a drain. */
  method FinishDrain(c: Controller, id: GenId, identity: Identity, n: nat, ghost t: Stamp,
                     pending: seq<Pending>, ghost at: seq<Stamp>, ghost g: Ledger) returns (remaining: Option<nat>)
    requires Kept(c, pending, at, g) && IsCount(n, id, t, c.host.trace, c.host.cfg)
    modifies c, c.host, c.eng, c.faults
    ensures Kept(c, pending, at, g) && old(c.failed) <= c.failed
    ensures unchanged(c`activeNew, c`reserved)
    ensures remaining.Some? ==> remaining.value == n
    ensures remaining == Some(0) ==>
              && Disturbs(old(c.faults.Now()), c.faults.Now()) && id in old(c.generations)
              && c.generations == WithPhase(old(c.generations), id, Drained)
    ensures remaining.None? ==>
              id !in old(c.generations) || old(c.generations)[id].identity != identity || old(c.activeNew) == id
              || (c.persistFatal && old(c.failed) < c.failed && c.generations == WithPhase(old(c.generations), id, Drained))
    ensures Stirs(old(c.faults.Now()), c.faults.Now())
    ensures old(c.host.trace) <= c.host.trace && old(c.eng.log) <= c.eng.log
  {
    hide *;
    KeptParts(c, pending, at, g);
    CountStands(c, n, id, t);
    ghost var h := c.host.trace;
    remaining := c.DrainFinish(id, identity, n, t.l, t.k);
    c.ValidListed();
    TurnKept(c, pending, at, g, h, false);
  }

  /** The last turn of a rollback with a snapshot. The number it gives an absent artifact was
      carried by no flow in the snapshot, and unless it has lapsed by none when the turn began. */
  method FinishRollback(c: Controller, a: Artifact, counts: Counts, ghost t: Stamp,
                        pending: seq<Pending>, ghost at: seq<Stamp>, ghost g: Ledger)
    returns (outcome: Outcome, ghost g1: Ledger)
    requires Kept(c, pending, at, g) && Stands(RollbackCounted(a, counts), t, g.since, c.host.trace, c.host.cfg)
    modifies c, c.host, c.eng, c.faults
    ensures Kept(c, pending, at, g1) && Onward(g, g1)
    ensures old(c.host.trace) <= c.host.trace && old(c.eng.log) <= c.eng.log
    ensures g1.lapses == g.lapses
    ensures g1.reused ==
              g.reused + HandedOutCarried(old(c.host.trace), c.host.cfg.port, old(c.generations).Keys, c.generations.Keys)
    ensures g1.early <==> g.early || old(c.faults.Now()).Finishing()
    ensures outcome == Done ==> !c.faults.latched && c.persistFatal == old(c.persistFatal) && c.Holds(c.activeNew, a)
    ensures old(c.failed) <= c.failed
    ensures old(Retained(c.generations, a)) && !old(c.faults.reconciling) && !old(c.remediation) ==>
              c.failed == old(c.failed) && c.faults.epoch == old(c.faults.epoch) ==> outcome == Done
  {
    hide *;
    KeptParts(c, pending, at, g);
    SnapshotStands(a, counts, t, g.since, c.host.trace, c.host.cfg);
    ghost var h, keys, reserved, port := c.host.trace, c.generations.Keys, c.reserved, c.host.cfg.port;
    ghost var early := c.faults.Now().Finishing();
    SinceIsPast(g, h, port, keys, reserved);
    ghost var boundary;
    RetainedIsHeld(c, a);
    outcome, boundary := c.RollbackFinish(a, counts, t.k);
    c.ValidParts();
    c.SteadyFacts();
    assert h[t.k] == c.host.trace[t.k];
    ghost var snap := c.reserved == Reconciled(reserved, counts, keys);
    if snap {
      NumbersAudited(c.host, h, g, keys, c.generations.Keys, reserved, t.k);
    } else {
      NumbersGoOn(c.host, h, g, keys, c.generations.Keys, reserved);
    }
    NewIsUncarried(g, h, port, keys, c.generations.Keys, reserved, t.k);
    ghost var reused := HandedOutCarried(h, port, keys, c.generations.Keys);
    g1 := Ledger(g.since, g.audited || snap, g.lapses, g.reused + reused, g.early || early);
    OnwardFacts(g, early, snap, {}, reused);
    assert g.lapses + {} == g.lapses;
    LapsesKeep(g.(audited := g.audited || snap), c.host.trace, port, c.generations.Keys, c.reserved, {}, reused);
    EarlyIsNoNumber(g.(audited := g.audited || snap, reused := g.reused + reused), c.host.trace, port, c.generations.Keys, c.reserved, g.early || early);
    StillStand(pending, at, g.since, h, c.host.trace, c.host.cfg);
    IsKept(c, pending, at, g1);
  }

  /** The numbers taken on the list since h that some flow carried then. */
  ghost function HandedOutCarried(h: seq<Moment>, port: nat, before: set<GenId>, now: set<GenId>): set<GenId> {
    set id | id in now && id !in before && |h| > 0 && Carried(h[|h| - 1].table, port, id)
  }

  lemma NewIsUncarried(g: Ledger, h: seq<Moment>, port: nat, before: set<GenId>, now: set<GenId>, reserved: set<GenId>, k: nat)
    requires NumbersKept(g, h, port, before, reserved) && g.since <= k < |h|
    requires forall id :: id in now && id !in before ==> !Carried(h[k].table, port, id)
    ensures forall id :: id in HandedOutCarried(h, port, before, now) ==> Lapsed(g.lapses, id)
  {
    hide Carried, NeverRegained, Accounted;
    forall id | id in HandedOutCarried(h, port, before, now)
      ensures Lapsed(g.lapses, id)
    {
      CarriedBefore(h, port, g.since, before + Forgotten(g.lapses), id, k);
    }
  }

  lemma CarriedBefore(trace: seq<Moment>, port: nat, since: nat, listed: set<GenId>, id: GenId, k: nat)
    requires NeverRegained(trace, port, since, listed) && since <= k < |trace|
    ensures Carried(trace[|trace| - 1].table, port, id) ==> id in listed || Carried(trace[k].table, port, id)
  {
    hide Carried;
  }

  lemma SnapshotStands(a: Artifact, counts: Counts, t: Stamp, since: nat, trace: seq<Moment>, cfg: Config)
    requires Stands(RollbackCounted(a, counts), t, since, trace, cfg)
    ensures since <= t.k < |trace| && counts == NamespaceCounts(trace[t.k].table, cfg.port)
  {
    hide NamespaceCounts;
  }

  /** The artifact is listed, and can be activated. */
  ghost predicate Retained(gens: Gens, a: Artifact) {
    exists id :: id in gens && gens[id].dna == a.payload && gens[id].metadata == a.metadata
                 && gens[id].identity == a.metadata.Id() && !gens[id].scope.Idle()
  }

  lemma RetainedIsHeld(c: Controller, a: Artifact)
    requires c.Settled()
    ensures Retained(c.generations, a) ==>
              ArtifactFits(a, c.host.cfg) && exists id :: c.Holds(id, a) && id in c.generations && !c.generations[id].scope.Idle()
  {
    hide Controller.Settled, ArtifactFits;
    if Retained(c.generations, a) {
      var id :| id in c.generations && c.generations[id].dna == a.payload && c.generations[id].metadata == a.metadata
                && c.generations[id].identity == a.metadata.Id() && !c.generations[id].scope.Idle();
      assert c.Holds(id, a);
      c.HeldFits(id, a);
    }
  }

  lemma StillRetained(gens: Gens, a: Artifact, id: GenId, phase: Phase)
    requires Retained(gens, a) && id in gens
    ensures Retained(WithPhase(gens, id, phase), a)
  {
    var i :| i in gens && gens[i].dna == a.payload && gens[i].metadata == a.metadata
             && gens[i].identity == a.metadata.Id() && !gens[i].scope.Idle();
    assert i in WithPhase(gens, id, phase);
  }

  /** The first turn of a rollback. `counting`: the artifact is absent. */
  method BeginRollback(c: Controller, a: Artifact, pending: seq<Pending>, ghost at: seq<Stamp>, ghost g: Ledger)
    returns (outcome: Outcome, counting: bool, ghost g1: Ledger)
    requires Kept(c, pending, at, g)
    modifies c, c.host, c.eng, c.faults
    ensures Kept(c, pending, at, g1) && Onward(g, g1)
    ensures old(c.host.trace) <= c.host.trace && old(c.eng.log) <= c.eng.log
    ensures g1 == g.(early := g.early || old(c.faults.Now()).Finishing())
    ensures outcome == Done ==> !c.faults.latched && c.persistFatal == old(c.persistFatal) && c.Holds(c.activeNew, a)
    ensures counting ==> outcome == NoAction
    ensures unchanged(c`reserved) && c.generations.Keys == old(c.generations).Keys
    ensures old(c.failed) <= c.failed
    ensures old(Retained(c.generations, a)) && !old(c.faults.reconciling) && (old(c.remediation) ==> old(c.faults.guard)) ==>
              c.failed == old(c.failed) && c.faults.epoch == old(c.faults.epoch) ==> outcome == Done
  {
    hide *;
    KeptParts(c, pending, at, g);
    ghost var h, early := c.host.trace, c.faults.Now().Finishing();
    RetainedIsHeld(c, a);
    ghost var boundary;
    outcome, counting, boundary := c.RollbackBegin(a);
    c.ValidListed();
    TurnKept(c, pending, at, g, h, early);
    g1 := g.(early := g.early || early);
    OnwardFacts(g, early, false, {}, {});
    assert g.lapses + {} == g.lapses && g.reused + {} == g.reused;
  }

  /** ActivateForNewConnections between other turns. */
  method Activate(c: Controller, a: Artifact, pending: seq<Pending>, ghost at: seq<Stamp>, ghost g: Ledger)
    returns (outcome: Outcome, ghost g1: Ledger)
    requires Kept(c, pending, at, g)
    modifies c, c.host, c.eng, c.faults
    ensures Kept(c, pending, at, g1) && Onward(g, g1)
    ensures g1 == g.(early := g.early || old(c.faults.Now()).Finishing())
    ensures old(c.host.trace) <= c.host.trace && old(c.eng.log) <= c.eng.log
    ensures unchanged(c`reserved) && c.generations.Keys == old(c.generations).Keys && old(c.failed) <= c.failed
    ensures outcome == Done ==>
              && c.Holds(c.activeNew, a) && (forall id :: old(c.Holds(id, a)) ==> id == c.activeNew)
              && c.host.program.assignee == c.activeNew
              && (!old(c.faults.latched) ==> Disturbs(old(c.faults.Now()), c.faults.Now()))
    ensures old(Retained(c.generations, a)) && !old(c.Holds(c.activeNew, a)) && !old(c.faults.latched) ==>
              c.failed == old(c.failed) && c.faults.epoch == old(c.faults.epoch) ==> outcome == Done
  {
    hide *;
    KeptParts(c, pending, at, g);
    ghost var h, early := c.host.trace, c.faults.Now().Finishing();
    RetainedIsHeld(c, a);
    c.PermittedIs();
    ghost var boundary;
    outcome, boundary := c.ActivateForNewConnections(a);
    c.ValidListed();
    if outcome == Done {
      ActivatedAssigns(c, c.activeNew);
    }
    TurnKept(c, pending, at, g, h, early);
    g1 := g.(early := g.early || early);
    OnwardFacts(g, early, false, {}, {});
    assert g.lapses + {} == g.lapses && g.reused + {} == g.reused;
  }

  lemma ActivatedAssigns(c: Controller, id: GenId)
    requires c.Activated(id)
    ensures c.host.program.assignee == id
  {
    hide Controller.DiskIsImage;
  }

  /** DeactivateForNewConnections between other turns. */
  method Deactivate(c: Controller, identity: Identity, pending: seq<Pending>, ghost at: seq<Stamp>, ghost g: Ledger)
    returns (outcome: Outcome)
    requires Kept(c, pending, at, g)
    modifies c, c.host, c.eng, c.faults
    ensures Kept(c, pending, at, g)
    ensures old(c.host.trace) <= c.host.trace && old(c.eng.log) <= c.eng.log
    ensures unchanged(c`reserved) && c.generations.Keys == old(c.generations).Keys && old(c.failed) <= c.failed
    ensures outcome == Done || outcome == NoAction || old(c.failed) < c.failed
    ensures outcome == NoAction ==>
              old(c.faults.latched) || old(c.activeNew) == NO_GEN || old(c.activeNew) !in old(c.generations)
              || old(c.generations)[old(c.activeNew)].identity != identity
    ensures outcome == Done ==>
              && c.activeNew == NO_GEN && old(c.activeNew) in old(c.generations)
              && c.generations == WithPhase(old(c.generations), old(c.activeNew), Draining)
              && Disturbs(old(c.faults.Now()), c.faults.Now())
  {
    hide *;
    KeptParts(c, pending, at, g);
    ghost var h := c.host.trace;
    outcome := c.DeactivateForNewConnections(identity);
    c.ValidListed();
    TurnKept(c, pending, at, g, h, false);
    SameLedger(g);
  }

  /** Calls that need the mutex only once and leave the list alone, the reconciliation's turn,
      and time passing. */
  method Act(c: Controller, pending: seq<Pending>, ghost at: seq<Stamp>, ghost g: Ledger) returns (ghost g1: Ledger)
    requires Kept(c, pending, at, g)
    modifies c, c.host, c.eng, c.faults
    ensures Kept(c, pending, at, g1) && Onward(g, g1)
    ensures old(c.host.trace) <= c.host.trace && old(c.eng.log) <= c.eng.log
    ensures g1 == g.(early := g.early || old(c.faults.Now()).Finishing())
  {
    hide *;
    KeptParts(c, pending, at, g);
    ghost var h, early := c.host.trace, c.faults.Now().Finishing();
    var kind: nat := *;
    var a: Artifact := *;
    var identity: Identity := *;
    if kind == 0 {
      var outcome;
      outcome, g1 := Activate(c, a, pending, at, g);
      return;
    } else if kind == 1 {
      var outcome := Deactivate(c, identity, pending, at, g);
      g1 := g.(early := g.early || early);
      OnwardFacts(g, early, false, {}, {});
      assert g.lapses + {} == g.lapses && g.reused + {} == g.reused;
      Sooner(c, pending, at, g, early);
      return;
    } else if kind == 2 {
      var ok := c.Close();
    } else if kind == 3 {
      var outcome := c.RollbackUnproven();
    } else if kind == 4 && c.faults.waiting {
      c.RunReconcile();
    } else {
      Pass(c);
    }
    c.ValidListed();
    TurnKept(c, pending, at, g, h, early);
    g1 := g.(early := g.early || early);
    OnwardFacts(g, early, false, {}, {});
    assert g.lapses + {} == g.lapses && g.reused + {} == g.reused;
  }

  /** Time passes with nobody holding the mutex. */
  method Pass(c: Controller)
    requires c.Valid()
    modifies c.faults, c.host`table, c.host`gone, c.host`trace
    ensures unchanged(c.faults`unattended)
    ensures c.Valid() && old(c.host.trace) <= c.host.trace && Disturbs(old(c.faults.Now()), c.faults.Now())
    ensures AssignedOnly(old(c.host.trace), c.host.trace, c.generations.Keys)
    ensures |c.host.trace| > 0 && c.host.trace[|c.host.trace| - 1].table == c.host.table
  {
    hide *;
    c.ValidParts();
    c.Listed();
    c.WatchFrom({});
    ghost var f, s, h := c.faults.Now(), c.Stands(), c.host.trace;
    ghost var w := Watch(|c.host.trace| - 1, {}, {c.host.program});
    c.Disturbance(w);
    KeptIsKept(f, s, c.faults.Now());
    c.StaysAtRest(f, s);
    c.OnlyListed(h, w, c.generations.Keys);
    c.TableIsLast();
    c.ValidFrom();
  }

  method Wait(c: Controller, pending: seq<Pending>, ghost at: seq<Stamp>, ghost g: Ledger)
    requires Kept(c, pending, at, g)
    modifies c.faults, c.host`table, c.host`gone, c.host`trace
    ensures unchanged(c.faults`unattended)
    ensures Kept(c, pending, at, g) && old(c.host.trace) <= c.host.trace && Disturbs(old(c.faults.Now()), c.faults.Now())
    ensures |c.host.trace| > 0 && c.host.trace[|c.host.trace| - 1].table == c.host.table && g.since < |c.host.trace|
  {
    hide *;
    KeptParts(c, pending, at, g);
    ghost var h := c.host.trace;
    Pass(c);
    c.ValidListed();
    TurnKept(c, pending, at, g, h, false);
    SameLedger(g);
    KeptParts(c, pending, at, g);
    SinceIsPast(g, c.host.trace, c.host.cfg.port, c.generations.Keys, c.reserved);
  }

  lemma SameLedger(g: Ledger)
    ensures g.(early := g.early || false) == g
  {
  }

  /** Counts the flows of one number, without the mutex. The kernel's timeouts are read anew
      each time, and without them every flow counts. */
  method CountFlows(c: Controller, id: GenId, pending: seq<Pending>, ghost at: seq<Stamp>, ghost g: Ledger)
    returns (n: nat, ghost t: Stamp)
    requires Kept(c, pending, at, g)
    modifies c.faults, c.host`table, c.host`gone, c.host`trace
    ensures unchanged(c.faults`unattended)
    ensures Kept(c, pending, at, g) && old(c.host.trace) <= c.host.trace && Disturbs(old(c.faults.Now()), c.faults.Now())
    ensures g.since <= t.k == |c.host.trace| - 1 && IsCount(n, id, t, c.host.trace, c.host.cfg)
  {
    hide *;
    Wait(c, pending, at, g);
    var readable: bool, established: nat, shortTimer: nat := *, *, *;
    var l := Liveness(if readable then c.host.cfg.idleAfter else 0, established, shortTimer);
    n := |CountedFlows(c.host.table, c.host.cfg.port, id, l)|;
    t := Stamp(|c.host.trace| - 1, l);
    IsACount(n, id, t, c.host.trace, c.host.cfg);
  }

  lemma IsACount(n: nat, id: GenId, t: Stamp, trace: seq<Moment>, cfg: Config)
    requires t.k < |trace| && n == |CountedFlows(trace[t.k].table, cfg.port, id, t.l)|
    requires t.l.idleAfter == 0 || t.l.idleAfter == cfg.idleAfter
    ensures IsCount(n, id, t, trace, cfg)
  {
    hide CountedFlows;
  }

  /** A snapshot of the namespace, without the mutex. */
  method Snapshot(c: Controller, a: Artifact, pending: seq<Pending>, ghost at: seq<Stamp>, ghost g: Ledger)
    returns (counts: Counts, ghost t: Stamp)
    requires Kept(c, pending, at, g)
    modifies c.faults, c.host`table, c.host`gone, c.host`trace
    ensures unchanged(c.faults`unattended)
    ensures Kept(c, pending, at, g) && old(c.host.trace) <= c.host.trace
    ensures Stands(RollbackCounted(a, counts), t, g.since, c.host.trace, c.host.cfg)
    ensures |old(c.host.trace)| <= t.k + 1
  {
    hide *;
    Wait(c, pending, at, g);
    counts := NamespaceCounts(c.host.table, c.host.cfg.port);
    t := Stamp(|c.host.trace| - 1, EVERY);
    IsASnapshot(a, counts, t, g.since, c.host.trace, c.host.cfg);
  }

  lemma IsASnapshot(a: Artifact, counts: Counts, t: Stamp, since: nat, trace: seq<Moment>, cfg: Config)
    requires since <= t.k < |trace| && counts == NamespaceCounts(trace[t.k].table, cfg.port)
    ensures Stands(RollbackCounted(a, counts), t, since, trace, cfg)
  {
  }

  // ---------------------------------------------------------------- any interleaving

  /** One pending call goes on. */
  method GoOn(c: Controller, p: Pending, ghost t: Stamp, rest: seq<Pending>, ghost at: seq<Stamp>, ghost g: Ledger)
    returns (q: Option<Pending>, ghost u: Stamp, ghost g1: Ledger)
    requires Kept(c, rest, at, g) && Stands(p, t, g.since, c.host.trace, c.host.cfg)
    modifies c, c.host, c.eng, c.faults
    ensures Kept(c, rest, at, g1) && Onward(g, g1)
    ensures old(c.host.trace) <= c.host.trace && old(c.eng.log) <= c.eng.log
    ensures q.Some? ==> Stands(q.value, u, g1.since, c.host.trace, c.host.cfg)
  {
    hide *;
    q, u, g1 := None, t, g;
    OnwardFacts(g, false, false, {}, {});
    match p
    case ToDrain(id, identity) =>
      var n;
      n, u := CountFlows(c, id, rest, at, g);
      q := Some(DrainCounted(id, identity, n));
      CountWaits(id, identity, n, u, g.since, c.host.trace, c.host.cfg);
    case DrainCounted(id, identity, n) =>
      CountStood(p, t, g.since, c.host.trace, c.host.cfg);
      var remaining := FinishDrain(c, id, identity, n, t, rest, at, g);
    case ToCollect(id, identity) =>
      var n;
      n, u := CountFlows(c, id, rest, at, g);
      q := Some(CollectCounted(id, identity, n));
      CountWaits(id, identity, n, u, g.since, c.host.trace, c.host.cfg);
    case CollectCounted(id, identity, n) =>
      CountStood(p, t, g.since, c.host.trace, c.host.cfg);
      var outcome;
      outcome, g1 := FinishCollect(c, id, identity, n, t, rest, at, g);
    case ToRollBack(a) =>
      var outcome, counting;
      outcome, counting, g1 := BeginRollback(c, a, rest, at, g);
      if counting {
        q := Some(ToSnapshot(a));
        FreelyStands(a, u, g1.since, c.host.trace, c.host.cfg);
      }
    case ToSnapshot(a) =>
      var counts;
      counts, u := Snapshot(c, a, rest, at, g);
      q := Some(RollbackCounted(a, counts));
    case RollbackCounted(a, counts) =>
      var outcome;
      outcome, g1 := FinishRollback(c, a, counts, t, rest, at, g);
  }

  lemma CountWaits(id: GenId, identity: Identity, n: nat, t: Stamp, since: nat, trace: seq<Moment>, cfg: Config)
    requires since <= t.k && IsCount(n, id, t, trace, cfg)
    ensures Stands(DrainCounted(id, identity, n), t, since, trace, cfg) && Stands(CollectCounted(id, identity, n), t, since, trace, cfg)
  {
    hide IsCount;
  }

  lemma CountStood(p: Pending, t: Stamp, since: nat, trace: seq<Moment>, cfg: Config)
    requires (p.DrainCounted? || p.CollectCounted?) && Stands(p, t, since, trace, cfg)
    ensures since <= t.k && IsCount(p.n, p.id, t, trace, cfg)
  {
    hide IsCount;
  }

  lemma FreelyStands(a: Artifact, t: Stamp, since: nat, trace: seq<Moment>, cfg: Config)
    ensures Stands(ToSnapshot(a), t, since, trace, cfg) && Stands(ToRollBack(a), t, since, trace, cfg)
    ensures forall id, identity :: Stands(ToDrain(id, identity), t, since, trace, cfg)
    ensures forall id, identity :: Stands(ToCollect(id, identity), t, since, trace, cfg)
  {
  }

  /** A new call that needs the mutex more than once. A rollback looks at the durability
      failure without the mutex, and so may anybody else have taken it before its next turn. */
  method Enter(c: Controller) returns (p: Option<Pending>)
    ensures p.Some? ==> p.value.ToDrain? || p.value.ToCollect? || p.value.ToRollBack?
    ensures p.Some? && p.value.ToRollBack? ==> !c.persistFatal
    ensures p.Some? && !p.value.ToRollBack? ==> p.value.id in c.generations && p.value.id != c.activeNew
  {
    p := None;
    var kind: nat := *;
    var id: GenId := *;
    var a: Artifact := *;
    if kind == 0 {
      if !c.persistFatal {
        p := Some(ToRollBack(a));
      }
    } else if id in c.generations && id != c.activeNew {
      if kind == 1 {
        p := Some(ToDrain(id, c.generations[id].identity));
      } else if !c.faults.latched {
        p := Some(ToCollect(id, c.generations[id].identity));
      }
    }
  }

  /** One turn of somebody, with the mutex or without. */
  method Turn(c: Controller, pending: seq<Pending>, ghost at: seq<Stamp>, ghost g: Ledger)
    returns (left: seq<Pending>, ghost at1: seq<Stamp>, ghost g1: Ledger)
    requires Kept(c, pending, at, g)
    modifies c, c.host, c.eng, c.faults
    ensures Kept(c, left, at1, g1) && Onward(g, g1)
    ensures old(c.host.trace) <= c.host.trace && old(c.eng.log) <= c.eng.log
  {
    hide *;
    left, at1, g1 := pending, at, g;
    OnwardFacts(g, false, false, {}, {});
    var kind: nat, i: nat := *, *;
    if kind == 0 {
      var a: Artifact := *;
      var ok, id;
      ok, id, g1 := Prepare(c, a, pending, at, g);
    } else if kind == 1 {
      var p := Enter(c);
      if p.Some? {
        left, at1 := pending + [p.value], at + [Stamp(0, EVERY)];
        Joined(c, pending, at, g, p.value, Stamp(0, EVERY));
      }
    } else if i < |pending| {
      var rest := pending[..i] + pending[i + 1..];
      ghost var among := Without(at, i);
      Taken(c, pending, at, g, i);
      var q;
      ghost var u;
      q, u, g1 := GoOn(c, pending[i], at[i], rest, among, g);
      left, at1 := rest, among;
      if q.Some? {
        left, at1 := rest + [q.value], among + [u];
        Added(c, rest, among, g1, q.value, u);
      }
    } else {
      g1 := Act(c, pending, at, g);
    }
  }

  ghost function Without(at: seq<Stamp>, i: nat): seq<Stamp> {
    if i < |at| then at[..i] + at[i + 1..] else at
  }

  lemma Taken(c: Controller, pending: seq<Pending>, at: seq<Stamp>, g: Ledger, i: nat)
    requires Kept(c, pending, at, g) && i < |pending|
    ensures i < |at| && Kept(c, pending[..i] + pending[i + 1..], Without(at, i), g)
    ensures Stands(pending[i], at[i], g.since, c.host.trace, c.host.cfg)
  {
    hide Controller.Valid, NumbersKept, Stands;
  }

  lemma Added(c: Controller, pending: seq<Pending>, at: seq<Stamp>, g: Ledger, p: Pending, t: Stamp)
    requires Kept(c, pending, at, g) && Stands(p, t, g.since, c.host.trace, c.host.cfg)
    ensures Kept(c, pending + [p], at + [t], g)
  {
    hide Controller.Valid, NumbersKept, Stands;
  }

  lemma Joined(c: Controller, pending: seq<Pending>, at: seq<Stamp>, g: Ledger, p: Pending, t: Stamp)
    requires Kept(c, pending, at, g) && (p.ToDrain? || p.ToCollect? || p.ToRollBack?)
    ensures Kept(c, pending + [p], at + [t], g)
  {
    Added(c, pending, at, g, p, t);
  }

  /** Any number of turns of anybody. */
  method Others(c: Controller, pending: seq<Pending>, ghost at: seq<Stamp>, ghost g: Ledger)
    returns (left: seq<Pending>, ghost at1: seq<Stamp>, ghost g1: Ledger)
    requires Kept(c, pending, at, g)
    modifies c, c.host, c.eng, c.faults
    ensures Kept(c, left, at1, g1) && Onward(g, g1)
    ensures old(c.host.trace) <= c.host.trace && old(c.eng.log) <= c.eng.log
  {
    hide *;
    left, at1, g1 := pending, at, g;
    OnwardFacts(g, false, false, {}, {});
    var n: nat := *;
    while n > 0
      invariant Kept(c, left, at1, g1) && Onward(g, g1)
      invariant old(c.host.trace) <= c.host.trace && old(c.eng.log) <= c.eng.log
      decreases n
    {
      ghost var g0 := g1;
      left, at1, g1 := Turn(c, left, at1, g1);
      OnwardOn(g, g0, g1);
      n := n - 1;
    }
  }

  lemma OnwardOn(g: Ledger, g1: Ledger, g2: Ledger)
    requires Onward(g, g1) && Onward(g1, g2)
    ensures Onward(g, g2)
  {
  }

  // ---------------------------------------------------------------- processes

  /** One controller process, from its start to its death at any moment, in the middle of a
      call or between two. It sets the state file aside only if the loader would not have
      accepted what was there when the record began. It hands a carried number out only after
      a lapse, and with no idle age configured never after one of the first kind. */
  method Process(host: Host) returns (quarantined: bool, ghost g: Ledger)
    requires host.History()
    modifies host
    ensures host.History() && old(host.trace) <= host.trace
    ensures Readable(host.first, host.cfg) ==> !quarantined
    ensures Answered(g)
    ensures host.cfg.idleAfter == 0 ==> NeverIdle(g.lapses)
  {
    hide *;
    host.NowReadable();
    ghost var h := host.trace;
    g := Ledger(0, false, {}, {}, false);
    NothingLapsed(g);
    var c := new Controller(host);
    c.SteadyFacts();
    c.NowIs();
    var from := |host.trace|;
    ghost var since, boundary, audit;
    var ok;
    ok, quarantined, boundary, since, audit := c.Start();
    c.SteadyFacts();
    var killed: bool := *;
    if !ok || killed {
      host.Crash(from);
      return;
    }
    g := Ledger(since, audit.Some?, {}, {}, false);
    Begun(c, g);
    g := Drive(c, g);
  }

  /** A process that has started is driven until it dies. */
  method Drive(c: Controller, ghost g: Ledger) returns (ghost g1: Ledger)
    requires Kept(c, [], [], g)
    modifies c, c.host, c.eng, c.faults
    ensures c.host.History() && old(c.host.trace) <= c.host.trace
    ensures Answered(g1)
    ensures c.host.cfg.idleAfter == 0 ==> NeverIdle(g1.lapses)
  {
    hide *;
    var pending: seq<Pending> := [];
    ghost var at: seq<Stamp> := [];
    g1 := g;
    KeptParts(c, pending, at, g1);
    SinceIsPast(g1, c.host.trace, c.host.cfg.port, c.generations.Keys, c.reserved);
    var turns: nat := *;
    while turns > 0
      invariant Kept(c, pending, at, g1) && old(c.host.trace) <= c.host.trace && c.host.History()
      invariant Answered(g1)
      invariant c.host.cfg.idleAfter == 0 ==> NeverIdle(g1.lapses)
      decreases turns
    {
      KeptParts(c, pending, at, g1);
      var from := |c.host.trace|;
      pending, at, g1 := Turn(c, pending, at, g1);
      KeptParts(c, pending, at, g1);
      SinceIsPast(g1, c.host.trace, c.host.cfg.port, c.generations.Keys, c.reserved);
      var killed: bool := *;
      if killed {
        c.host.Crash(from);
        return;
      }
      turns := turns - 1;
    }
  }

  lemma Begun(c: Controller, g: Ledger)
    requires c.Valid() && !c.faults.unattended && g.reused == {} && g.lapses == {}
    requires NeverRegained(c.host.trace, c.host.cfg.port, g.since, c.generations.Keys)
    requires g.audited ==> Accounted(c.host.table, c.host.cfg.port, c.generations.Keys, c.reserved)
    ensures Kept(c, [], [], g)
  {
    hide *;
    c.ValidParts();
    c.TableIsLast();
    NothingLapsed(g);
    NumbersBegin(g, c.host.trace, c.host.cfg.port, c.generations.Keys, c.reserved);
    NoneStand(g.since, c.host.trace, c.host.cfg);
    IsKept(c, [], [], g);
  }

  lemma NumbersBegin(g: Ledger, trace: seq<Moment>, port: nat, listed: set<GenId>, reserved: set<GenId>)
    requires |trace| > 0 && g.reused == {} && g.lapses == {} && NeverRegained(trace, port, g.since, listed)
    requires g.audited ==> Accounted(trace[|trace| - 1].table, port, listed, reserved)
    ensures NumbersKept(g, trace, port, listed, reserved)
  {
    NothingLapsed(g);
    hide NeverRegained, Accounted;
    assert listed + Forgotten(g.lapses) == listed;
  }

  lemma NoneStand(since: nat, trace: seq<Moment>, cfg: Config)
    ensures AllStand([], [], since, trace, cfg)
  {
  }

  /** Processes come and go; between two of them the kernel keeps whatever program the last
      one left, and packets keep coming. No process ever sets aside a file of ours, and the
      next one would not either. */
  method Run(host: Host) returns (quarantined: bool)
    requires host.History()
    modifies host
    ensures host.History() && old(host.trace) <= host.trace
    ensures Readable(host.first, host.cfg) ==> !quarantined && Readable(host.disk, host.cfg)
  {
    hide *;
    quarantined := false;
    host.NowReadable();
    var n: nat := *;
    while n > 0
      invariant host.History() && old(host.trace) <= host.trace
      invariant Readable(host.first, host.cfg) ==> !quarantined && Readable(host.disk, host.cfg)
      decreases n
    {
      Unattended(host);
      var aside;
      ghost var g;
      aside, g := Process(host);
      host.NowReadable();
      quarantined := quarantined || aside;
      n := n - 1;
    }
  }

  method Unattended(host: Host)
    requires host.History()
    modifies host`table, host`gone, host`trace
    ensures host.History() && old(host.trace) <= host.trace
  {
    hide SafeFor, IsImage, ViewOk, ProgramIdsOk, SafeMoment, MomentsStep;
    host.Traffic(map[], false, Watch(|host.trace| - 1, {}, {host.program}));
  }

  // ---------------------------------------------------------------- rolling back over a durability failure

  /** Rollback with anybody's turns in between. It looks at the durability failure before it
      takes the mutex and not again. So it is refused only for a failure it sees then; and
      when it succeeds it has lowered the latch, over a durability failure exactly when that
      one landed between the look and the last turn. */
  method RollBack(c: Controller, a: Artifact, pending: seq<Pending>, ghost at: seq<Stamp>, ghost g: Ledger)
    returns (refused: bool, outcome: Outcome, ghost landed: bool, left: seq<Pending>, ghost at1: seq<Stamp>, ghost g1: Ledger)
    requires Kept(c, pending, at, g)
    modifies c, c.host, c.eng, c.faults
    ensures Kept(c, left, at1, g1) && Onward(g, g1)
    ensures old(c.host.trace) <= c.host.trace && old(c.eng.log) <= c.eng.log
    ensures refused <==> old(c.persistFatal)
    ensures refused ==> outcome == NoAction && !landed
    ensures outcome == Done ==> !c.faults.latched && (c.persistFatal <==> landed)
  {
    hide *;
    landed, left, at1, g1 := false, pending, at, g;
    OnwardFacts(g, false, false, {}, {});
    refused := c.persistFatal;
    if refused {
      return refused, NoAction, landed, left, at1, g1;
    }
    left, at1, g1 := Others(c, left, at1, g1);
    landed := c.persistFatal;   // there was none at the look
    var counting;
    ghost var g0 := g1;
    outcome, counting, g1 := BeginRollback(c, a, left, at1, g1);
    OnwardOn(g, g0, g1);
    if !counting {
      return;
    }
    g0 := g1;
    left, at1, g1 := Others(c, left, at1, g1);
    OnwardOn(g, g0, g1);
    var counts;
    ghost var t, p;
    counts, t := Snapshot(c, a, left, at1, g1);
    g0 := g1;
    p := c.host.trace;
    ghost var since := g1.since;
    left, at1, g1 := Others(c, left, at1, g1);
    OnwardOn(g, g0, g1);
    StillStands(RollbackCounted(a, counts), t, since, p, c.host.trace, c.host.cfg);
    SameSince(g0, g1);
    landed := c.persistFatal;
    g0 := g1;
    outcome, g1 := FinishRollback(c, a, counts, t, left, at1, g1);
    OnwardOn(g, g0, g1);
  }

  /** The failing input of the one above, with anybody's turns before the rollback gets the
      mutex. `landed` says that a durability failure has landed by then, and `ready` that the
      artifact is still retained and no reconciliation is under way. Unless something is then
      refused or a signal arrives, the rollback ends well: the latch is down and the new
      generation active, over a failure that only a restart is to clear. `failed` and `epoch`
      are those of the moment it got the mutex. */
  method RollBackOver(c: Controller, a: Artifact, pending: seq<Pending>, ghost at: seq<Stamp>, ghost g: Ledger)
    returns (outcome: Outcome, ghost landed: bool, ghost ready: bool, ghost failed: nat, ghost epoch: nat,
             left: seq<Pending>, ghost at1: seq<Stamp>, ghost g1: Ledger)
    requires Kept(c, pending, at, g) && !c.persistFatal
    modifies c, c.host, c.eng, c.faults
    ensures Kept(c, left, at1, g1) && Onward(g, g1)
    ensures landed && ready && c.failed == failed && c.faults.epoch == epoch ==>
              outcome == Done && !c.faults.latched && c.persistFatal && c.Holds(c.activeNew, a)
  {
    hide *;
    left, at1, g1 := Others(c, pending, at, g);
    landed, ready, failed, epoch := c.persistFatal, Retained(c.generations, a) && !c.faults.reconciling, c.failed, c.faults.epoch;
    KeptParts(c, left, at1, g1);
    c.FatalShutsTheGate();
    var counting;
    ghost var g0 := g1;
    outcome, counting, g1 := BeginRollback(c, a, left, at1, g1);
    OnwardOn(g, g0, g1);
  }

  /** One such run to the end: between the look and the rollback's turn somebody completes a
      drain, and the state file cannot be written, as `broken` says. `failed` and `epoch` are
      those of the moment the rollback got the mutex. */
  method RollBackOverDrain(c: Controller, a: Artifact, drained: GenId, pending: seq<Pending>, ghost at: seq<Stamp>, ghost g: Ledger)
    returns (outcome: Outcome, broken: bool, ghost failed: nat, ghost epoch: nat, ghost g1: Ledger)
    requires Kept(c, pending, at, g) && !c.persistFatal && Retained(c.generations, a) && !c.faults.reconciling
    requires drained in c.generations && drained != c.activeNew
    modifies c, c.host, c.eng, c.faults
    ensures Kept(c, pending, at, g1) && Onward(g, g1)
    ensures broken ==> old(c.failed) < failed
    ensures broken && c.failed == failed && c.faults.epoch == epoch == old(c.faults.epoch) ==>
              outcome == Done && !c.faults.latched && c.persistFatal && c.Holds(c.activeNew, a)
  {
    hide *;
    KeptParts(c, pending, at, g);
    ghost var f := c.faults.Now();
    c.NowIs();
    var identity := c.generations[drained].identity;
    StillRetained(c.generations, a, drained, Drained);
    var n;
    ghost var t;
    n, t := CountFlows(c, drained, pending, at, g);
    ghost var f1 := c.faults.Now();
    DisturbsHeeds(f, f1);
    var remaining := FinishDrain(c, drained, identity, n, t, pending, at, g);
    broken, failed, epoch := remaining.None?, c.failed, c.faults.epoch;
    StirsIsTransitive(f, f1, c.faults.Now());
    StirsEpoch(f, c.faults.Now());
    StillDown(f, c.faults.Now());
    c.NowIs();
    KeptParts(c, pending, at, g);
    c.FatalShutsTheGate();
    var counting;
    outcome, counting, g1 := BeginRollback(c, a, pending, at, g);
  }

  lemma SameSince(g: Ledger, g1: Ledger)
    requires Onward(g, g1)
    ensures g1.since == g.since
  {
  }

  // ---------------------------------------------------------------- reusing a number

  /** Drains and collects a generation, if the counts say that it has no flows. */
  method DrainAndCollect(c: Controller, id: GenId, pending: seq<Pending>, ghost at: seq<Stamp>, ghost g: Ledger)
    returns (idle: bool, ghost g1: Ledger)
    requires Kept(c, pending, at, g) && id in c.generations && id != c.activeNew && !c.faults.latched
    modifies c, c.host, c.eng, c.faults
    ensures Kept(c, pending, at, g1) && old(c.host.trace) <= c.host.trace && old(c.failed) <= c.failed
    ensures unchanged(c`reserved)
    ensures idle && c.failed == old(c.failed) ==> Disturbs(old(c.faults.Now()), c.faults.Now())
    ensures idle && c.failed == old(c.failed) && c.faults.epoch == old(c.faults.epoch) ==>
              c.generations.Keys == old(c.generations).Keys - {id}
  {
    hide *;
    ghost var failed, f0, gens := c.failed, c.faults.Now(), c.generations;
    c.NowIs();
    var identity := c.generations[id].identity;
    PhaseKeepsIdentity(c.generations, id, Drained);
    var n;
    ghost var t;
    g1 := g;
    n, t := CountFlows(c, id, pending, at, g);
    idle := n == 0;
    if !idle {
      return;
    }
    ghost var f1 := c.faults.Now();
    var remaining := FinishDrain(c, id, identity, n, t, pending, at, g);
    ghost var f2, done := c.faults.Now(), remaining.Some?;
    n, t := CountFlows(c, id, pending, at, g);
    idle := n == 0;
    if !idle {
      return;
    }
    ghost var f3 := c.faults.Now();
    c.NowIs();
    var outcome;
    outcome, g1 := FinishCollect(c, id, identity, n, t, pending, at, g);
    c.NowIs();
    if c.failed == failed {
      DisturbsIsTransitive(f0, f1, f2);
      DisturbsIsTransitive(f0, f2, f3);
      DisturbsIsTransitive(f0, f3, c.faults.Now());
      DisturbsUnmoved(f0, f3);
      DisturbsUnmoved(f3, c.faults.Now());
      DisturbsUnmoved(f0, c.faults.Now());
    }
  }

  /** An ordinary prepare of an artifact that can be admitted hands out the least number not
      taken, unless something is refused or a signal arrives. */
  method HandOut(c: Controller, id: GenId, a: Artifact, pending: seq<Pending>, ghost at: seq<Stamp>, ghost g: Ledger)
    returns (ok: bool, got: GenId, ghost g1: Ledger)
    requires Kept(c, pending, at, g) && !c.faults.latched
    modifies c, c.host, c.eng, c.faults
    ensures Kept(c, pending, at, g1) && Onward(g, g1) && old(c.host.trace) <= c.host.trace
    ensures old(c.failed) <= c.failed && Stirs(old(c.faults.Now()), c.faults.Now())
    ensures old(Admissible(c, a)) && IsLeastFree(id, old(c.generations).Keys + old(c.reserved)) ==>
              c.failed == old(c.failed) && c.faults.epoch == old(c.faults.epoch) ==>
              && ok && got == id
              && (Carried(c.host.table, c.host.cfg.port, id) ==> id in g1.reused)
              && (!g.audited ==> NoSnapshot(id) in g1.lapses)
  {
    hide *;
    KeptParts(c, pending, at, g);
    ghost var used := c.generations.Keys + c.reserved;
    if Admissible(c, a) {
      AdmissibleMeans(c, a);
    }
    ok, got, g1 := Prepare(c, a, pending, at, g);
    if IsLeastFree(id, used) && IsLeastFree(got, used) {
      LeastFreeIsUnique(id, got, used);
    }
  }

  /** With an idle age configured, a number is handed out while a flow carries it, in every
      run like this one: a drain and a collection of a generation all of whose flows are idle,
      then an ordinary prepare. Unless something is refused, a signal arrives, the flow leaves
      or some flow is not idle after all, the artifact gets the number of the old one, and the
      flow still names it. */
  method ReuseNumber(c: Controller, id: GenId, a: Artifact, f: Flow, pending: seq<Pending>, ghost at: seq<Stamp>, ghost g: Ledger)
    returns (idle: bool, ok: bool, got: GenId, ghost admissible: bool, ghost g1: Ledger)
    requires Kept(c, pending, at, g)
    requires id in c.generations && id != c.activeNew && !c.faults.latched
    requires f in c.host.table && AdapterFlow(f, c.host.cfg.port) && OwnerOf(c.host.table[f].mark) == Some(id)
    requires IsLeastFree(id, (c.generations.Keys - {id}) + c.reserved)
    modifies c, c.host, c.eng, c.faults
    ensures Kept(c, pending, at, g1) && old(c.failed) <= c.failed
    ensures idle && admissible && c.failed == old(c.failed) && c.faults.epoch == old(c.faults.epoch) && f in c.host.table ==>
              ok && got == id && OwnerOf(c.host.table[f].mark) == Some(got) && got in g1.reused
  {
    hide *;
    KeptParts(c, pending, at, g);
    ghost var h, f0, keys, failed := c.host.trace, c.faults.Now(), c.generations.Keys, c.failed;
    c.NowIs();
    ok, got, admissible := false, NO_GEN, true;
    idle, g1 := DrainAndCollect(c, id, pending, at, g);
    c.NowIs();
    ghost var f1 := c.faults.Now();
    if idle && c.failed == failed {
      DisturbsUnmoved(f0, f1);
    }
    if !idle || c.faults.latched {
      return;
    }
    admissible := Admissible(c, a);
    ok, got, g1 := HandOut(c, id, a, pending, at, g1);
    c.NowIs();
    KeptParts(c, pending, at, g1);
    if f in c.host.table {
      FlowKeepsOwner(c.host, h, f, id);
    }
    if c.failed == failed && c.faults.epoch == f0.epoch {
      DisturbsHeeds(f0, f1);
      StirsEpoch(f0, f1);
      StirsEpoch(f1, c.faults.Now());
    }
  }

  /** A generation is counted, and then activated again; `arrived` says that a flow has come to
      it. `k` is the moment from which it was assigned, `epoch` that of the moment after the
      count. */
  method CountAndActivate(c: Controller, id: GenId, a: Artifact, f: Flow, pending: seq<Pending>, ghost at: seq<Stamp>, ghost g: Ledger)
    returns (n: nat, moved: bool, arrived: bool, ghost t: Stamp, ghost k: nat, ghost epoch: nat, ghost g1: Ledger)
    requires Kept(c, pending, at, g) && c.Holds(id, a) && Retained(c.generations, a)
    requires id != c.activeNew && !c.faults.latched
    modifies c, c.host, c.eng, c.faults
    ensures Kept(c, pending, at, g1) && Onward(g, g1) && old(c.failed) <= c.failed
    ensures unchanged(c`reserved) && c.generations.Keys == old(c.generations).Keys
    ensures n == 0 && c.failed == old(c.failed) && c.faults.epoch == epoch == old(c.faults.epoch) ==> moved
    ensures arrived ==>
              && n == 0 && moved && c.activeNew == id && c.Holds(id, a) && Disturbs(old(c.faults.Now()), c.faults.Now())
              && f in c.host.table && OwnerOf(c.host.table[f].mark) == Some(id)
              && IsCount(n, id, t, c.host.trace, c.host.cfg)
              && t.k <= k < |c.host.trace| && c.host.trace[k].program.assignee == id
  {
    hide *;
    KeptParts(c, pending, at, g);
    ghost var f0 := c.faults.Now();
    c.NowIs();
    c.HoldsMeans(id, a);
    c.OnlyHolder(Some(id), a);
    moved, arrived, g1 := false, false, g;
    OnwardFacts(g, false, false, {}, {});
    n, t := CountFlows(c, id, pending, at, g);
    k, epoch := t.k, c.faults.epoch;
    ghost var f1, h1 := c.faults.Now(), c.host.trace;
    c.NowIs();
    DisturbsUnmoved(f0, f1);
    if n != 0 || c.faults.latched {
      return;
    }
    assert c.Holds(id, a);
    CountWaits(id, a.metadata.Id(), n, t, g.since, h1, c.host.cfg);
    var outcome;
    outcome, g1 := Activate(c, a, pending, at, g);
    k := |c.host.trace| - 1;
    ghost var f2 := c.faults.Now();
    moved := outcome == Done;
    if !moved {
      return;
    }
    assert c.Holds(id, a);
    KeptParts(c, pending, at, g1);
    c.ProgramIsLast();
    DisturbsIsTransitive(f0, f1, f2);
    Wait(c, pending, at, g1);
    DisturbsIsTransitive(f0, f2, c.faults.Now());
    arrived := f in c.host.table && OwnerOf(c.host.table[f].mark) == Some(id);
    StillStands(DrainCounted(id, a.metadata.Id(), n), t, g.since, h1, c.host.trace, c.host.cfg);
    CountStood(DrainCounted(id, a.metadata.Id(), n), t, g.since, c.host.trace, c.host.cfg);
  }

  /** The active generation is deactivated, and then collected on the strength of a count that
      it was assigned after. */
  method DeactivateAndCollect(c: Controller, id: GenId, identity: Identity, ghost t: Stamp, ghost k: nat,
                              pending: seq<Pending>, ghost at: seq<Stamp>, ghost g: Ledger)
    returns (collected: bool, ghost g1: Ledger)
    requires Kept(c, pending, at, g) && id in c.generations && c.generations[id].identity == identity
    requires c.activeNew == id && !c.faults.latched && IsCount(0, id, t, c.host.trace, c.host.cfg)
    requires t.k <= k < |c.host.trace| && c.host.trace[k].program.assignee == id
    modifies c, c.host, c.eng, c.faults
    ensures Kept(c, pending, at, g1) && Onward(g, g1) && old(c.failed) <= c.failed && old(c.host.trace) <= c.host.trace
    ensures !collected ==> old(c.failed) < c.failed || old(c.faults.epoch) < c.faults.epoch
    ensures collected ==>
              && Disturbs(old(c.faults.Now()), c.faults.Now()) && c.generations.Keys == old(c.generations).Keys - {id}
              && unchanged(c`reserved) && AssignedMeanwhile(id) in g1.lapses
  {
    hide *;
    KeptParts(c, pending, at, g);
    OnwardFacts(g, false, false, {}, {});
    ghost var f0, h0 := c.faults.Now(), c.host.trace;
    c.NowIs();
    g1 := g;
    ListedIsSome(c, id);
    PhaseKeepsIdentity(c.generations, id, Draining);
    var outcome := Deactivate(c, identity, pending, at, g);
    collected := outcome == Done;
    if !collected {
      return;
    }
    ghost var f1, h1 := c.faults.Now(), c.host.trace;
    c.NowIs();
    DisturbsUnmoved(f0, f1);
    StillCounts(0, id, t, h0, h1, c.host.cfg);
    outcome, g1 := FinishCollect(c, id, identity, 0, t, pending, at, g);
    c.NowIs();
    collected := outcome == Done;
    if collected || outcome == NoAction {
      DisturbsIsTransitive(f0, f1, c.faults.Now());
      DisturbsUnmoved(f1, c.faults.Now());
    }
    AssignedLapses(id, t, h1, k, g1.lapses);
  }

  lemma StillCounts(n: nat, id: GenId, t: Stamp, h: seq<Moment>, trace: seq<Moment>, cfg: Config)
    requires h <= trace && IsCount(n, id, t, h, cfg)
    ensures IsCount(n, id, t, trace, cfg)
  {
    hide CountedFlows;
  }

  /** No idle age is needed where a generation is activated between the count and the rest of
      its collection: it is deactivated again before the collection goes on, and the flows
      it was given meanwhile are forgotten with it. `counted` says that the count was zero,
      `moved` that the activation went well, `arrived` that a flow came to the generation;
      `epoch` is that of the moment after the count. */
  method ReuseAssigned(c: Controller, id: GenId, a: Artifact, b: Artifact, f: Flow, pending: seq<Pending>, ghost at: seq<Stamp>, ghost g: Ledger)
    returns (counted: bool, moved: bool, arrived: bool, ok: bool, got: GenId, ghost admissible: bool, ghost epoch: nat, ghost g1: Ledger)
    requires Kept(c, pending, at, g) && c.Holds(id, a) && Retained(c.generations, a)
    requires id != c.activeNew && !c.faults.latched && AdapterFlow(f, c.host.cfg.port)
    requires IsLeastFree(id, (c.generations.Keys - {id}) + c.reserved)
    modifies c, c.host, c.eng, c.faults
    ensures Kept(c, pending, at, g1) && old(c.failed) <= c.failed
    ensures counted && c.failed == old(c.failed) && c.faults.epoch == epoch == old(c.faults.epoch) ==> moved
    ensures arrived && admissible && c.failed == old(c.failed) && c.faults.epoch == old(c.faults.epoch) && f in c.host.table ==>
              && ok && got == id && OwnerOf(c.host.table[f].mark) == Some(got) && got in g1.reused
              && AssignedMeanwhile(id) in g1.lapses
  {
    hide *;
    ghost var f0, failed, keys := c.faults.Now(), c.failed, c.generations.Keys;
    ok, got, admissible := false, NO_GEN, true;
    c.NowIs();
    var n;
    ghost var t, k;
    n, moved, arrived, t, k, epoch, g1 := CountAndActivate(c, id, a, f, pending, at, g);
    counted := n == 0;
    ghost var f1, h := c.faults.Now(), c.host.trace;
    c.NowIs();
    if arrived {
      DisturbsUnmoved(f0, f1);
    }
    if !arrived || c.faults.latched {
      return;
    }
    c.HoldsMeans(id, a);
    KeptParts(c, pending, at, g1);
    var collected;
    collected, g1 := DeactivateAndCollect(c, id, a.metadata.Id(), t, k, pending, at, g1);
    ghost var g2, f2 := g1, c.faults.Now();
    c.NowIs();
    if collected {
      DisturbsIsTransitive(f0, f1, f2);
      DisturbsUnmoved(f0, f2);
    }
    if !collected || c.faults.latched {
      return;
    }
    admissible := Admissible(c, b);
    ok, got, g1 := HandOut(c, id, b, pending, at, g1);
    c.NowIs();
    KeptParts(c, pending, at, g1);
    StirsEpoch(f2, c.faults.Now());
    NoneLost(g2, g1);
    if f in c.host.table {
      FlowKeepsOwner(c.host, h, f, id);
    }
  }

  lemma NoneLost(g: Ledger, g1: Ledger)
    requires Onward(g, g1)
    ensures g.lapses <= g1.lapses
  {
  }

  lemma ListedIsSome(c: Controller, id: GenId)
    requires c.Settled() && id in c.generations
    ensures id != NO_GEN
  {
    hide *;
    c.EntryFacts(id);
  }

  lemma AssignedLapses(id: GenId, t: Stamp, h: seq<Moment>, k: nat, lapses: set<Lapse>)
    requires t.k <= k < |h| && h[k].program.assignee == id
    ensures LapsesOf(id, t, Controller.UnassignedSince(h, id, t.k)) <= lapses ==> AssignedMeanwhile(id) in lapses
  {
    assert AssignedMeanwhile(id) in LapsesOf(id, t, false);
  }

  /** A rollback to a retained artifact takes no snapshot and lowers the latch. Where there
      has been none since the start, the next ordinary prepare hands out the least number that
      is not listed, whatever flows carry it. `recovered` says that the rollback went well,
      and `epoch` is that of the moment it had. */
  method ReuseUnaudited(c: Controller, a: Artifact, b: Artifact, id: GenId, f: Flow, pending: seq<Pending>, ghost at: seq<Stamp>, ghost g: Ledger)
    returns (recovered: bool, ok: bool, got: GenId, ghost admissible: bool, ghost epoch: nat, ghost g1: Ledger)
    requires Kept(c, pending, at, g) && Retained(c.generations, a)
    requires !c.faults.reconciling && (c.remediation ==> c.faults.guard)
    requires f in c.host.table && AdapterFlow(f, c.host.cfg.port) && OwnerOf(c.host.table[f].mark) == Some(id)
    requires IsLeastFree(id, c.generations.Keys + c.reserved)
    modifies c, c.host, c.eng, c.faults
    ensures Kept(c, pending, at, g1) && old(c.failed) <= c.failed
    ensures c.failed == old(c.failed) && epoch == old(c.faults.epoch) ==> recovered
    ensures recovered && admissible && c.failed == old(c.failed) && c.faults.epoch == epoch && f in c.host.table ==>
              && ok && got == id && OwnerOf(c.host.table[f].mark) == Some(got) && got in g1.reused
              && (!g.audited ==> NoSnapshot(id) in g1.lapses)
  {
    hide *;
    KeptParts(c, pending, at, g);
    ghost var h := c.host.trace;
    ok, got, admissible := false, NO_GEN, false;
    var outcome, counting;
    outcome, counting, g1 := BeginRollback(c, a, pending, at, g);
    epoch := c.faults.epoch;
    recovered := outcome == Done;
    if !recovered {
      return;
    }
    admissible := Admissible(c, b);
    ok, got, g1 := HandOut(c, id, b, pending, at, g1);
    KeptParts(c, pending, at, g1);
    if f in c.host.table {
      FlowKeepsOwner(c.host, h, f, id);
    }
  }

  lemma TakenAreValid(c: Controller, id: GenId)
    requires c.Settled()
    ensures forall u :: u in (c.generations.Keys - {id}) + c.reserved ==> ValidGen(u)
  {
    c.UsedAreValid();
    hide Controller.Settled, ValidGen;
  }

  /** A new controller is made and started on a machine. */
  method Begin(host: Host) returns (c: Controller, started: bool, ghost g: Ledger)
    requires host.History()
    modifies host
    ensures fresh(c) && c.host == host && host.History()
    ensures started ==> Kept(c, [], [], g) && g.lapses == {} && fresh(c.eng) && fresh(c.faults)
  {
    hide *;
    c := new Controller(host);
    c.NowIs();
    var quarantined;
    ghost var boundary, since, audit;
    started, quarantined, boundary, since, audit := c.Start();
    c.SteadyFacts();
    g := Ledger(since, audit.Some?, {}, {}, false);
    if started {
      Begun(c, g);
    }
  }

  /** Nothing but the generation itself keeps its number from being the next one. */
  method IsNextWithout(c: Controller, id: GenId) returns (yes: bool)
    requires c.Valid()
    ensures yes <==> IsLeastFree(id, (c.generations.Keys - {id}) + c.reserved)
  {
    hide *;
    c.ValidParts();
    TakenAreValid(c, id);
    var least := LeastFree((c.generations.Keys - {id}) + c.reserved);
    yes := least == id;
    if IsLeastFree(id, (c.generations.Keys - {id}) + c.reserved) {
      LeastFreeIsUnique(id, least, (c.generations.Keys - {id}) + c.reserved);
    }
  }

  /** ReuseNumber from nothing: a controller is made and started on a machine, and if the
      generation is there, not active, and its number the least one not taken otherwise, the
      run goes on as above. `failed` and `epoch` are those of the moment it has started. */
  method ReuseFromStart(host: Host, id: GenId, a: Artifact, f: Flow)
    returns (c: Controller, reached: bool, idle: bool, ok: bool, got: GenId, ghost admissible: bool, ghost failed: nat, ghost epoch: nat)
    requires host.History()
    modifies host
    ensures fresh(c) && c.host == host && host.History() && failed <= c.failed
    ensures reached && idle && admissible && c.failed == failed && c.faults.epoch == epoch && f in host.table ==>
              ok && got == id && OwnerOf(host.table[f].mark) == Some(got)
  {
    hide *;
    var started;
    ghost var g;
    c, started, g := Begin(host);
    reached, idle, ok, got, admissible, failed, epoch := false, false, false, NO_GEN, false, c.failed, c.faults.epoch;
    if !started || c.faults.latched || id !in c.generations || id == c.activeNew || f !in host.table
       || !AdapterFlow(f, host.cfg.port) || OwnerOf(host.table[f].mark) != Some(id) {
      return;
    }
    KeptParts(c, [], [], g);
    reached := IsNextWithout(c, id);
    if !reached {
      return;
    }
    idle, ok, got, admissible, g := ReuseNumber(c, id, a, f, [], [], g);
    KeptParts(c, [], [], g);
  }

  /** ReuseUnaudited from nothing: a controller is started whose audit of the namespace fails,
      as `blind` says; nothing is active, and the fault is latched. If the artifact is among
      what was reloaded, and some flow carries the least number that is not, the run goes on
      as above. */
  method ReuseAfterBlindStart(host: Host, kept: GenId, a: Artifact, b: Artifact, id: GenId, f: Flow)
    returns (c: Controller, reached: bool, recovered: bool, ok: bool, got: GenId, ghost blind: bool, ghost admissible: bool,
             ghost failed: nat, ghost started: nat, ghost epoch: nat)
    requires host.History()
    modifies host
    ensures fresh(c) && c.host == host && host.History() && failed <= c.failed
    ensures reached ==> blind
    ensures reached && c.failed == failed && epoch == started ==> recovered
    ensures recovered && admissible && c.failed == failed && c.faults.epoch == epoch && f in host.table ==>
              ok && got == id && OwnerOf(host.table[f].mark) == Some(got)
  {
    hide *;
    var up;
    ghost var g;
    c, up, g := Begin(host);
    reached, recovered, ok, got, admissible := false, false, false, NO_GEN, false;
    failed, started, epoch, blind := c.failed, c.faults.epoch, c.faults.epoch, up && !g.audited;
    if !up || c.faults.reconciling || (c.remediation && !c.faults.guard) || id in c.generations || f !in host.table
       || !AdapterFlow(f, host.cfg.port) || OwnerOf(host.table[f].mark) != Some(id)
       || kept !in c.generations || !c.Holds(kept, a) || c.generations[kept].scope.Idle() {
      return;
    }
    KeptParts(c, [], [], g);
    IsRetained(c, kept, a);
    reached := IsNextWithout(c, id);
    if !reached {
      return;
    }
    assert c.generations.Keys - {id} == c.generations.Keys;
    CarriedUnaudited(c, g, id, f);
    recovered, ok, got, admissible, epoch, g := ReuseUnaudited(c, a, b, id, f, [], [], g);
    KeptParts(c, [], [], g);
  }

  /** While nothing has lapsed, the least number not taken is carried by some flow only where
      there has been no snapshot. */
  lemma CarriedUnaudited(c: Controller, g: Ledger, id: GenId, f: Flow)
    requires Kept(c, [], [], g) && g.lapses == {}
    requires f in c.host.table && AdapterFlow(f, c.host.cfg.port) && OwnerOf(c.host.table[f].mark) == Some(id)
    requires IsLeastFree(id, c.generations.Keys + c.reserved)
    ensures !g.audited
  {
    hide *;
    KeptParts(c, [], [], g);
    var h := c.host.trace;
    OwnerCarries(c.host.table, c.host.cfg.port, id, f);
    if g.audited {
      NumbersAccounted(g, h, c.host.cfg.port, c.generations.Keys, c.reserved);
      FreshUnlessForgotten(id, c.generations.Keys, Forgotten(g.lapses), c.reserved, c.host.table, c.host.cfg.port);
    }
  }

  lemma NumbersAccounted(g: Ledger, trace: seq<Moment>, port: nat, listed: set<GenId>, reserved: set<GenId>)
    requires NumbersKept(g, trace, port, listed, reserved) && g.audited
    ensures |trace| > 0 && Accounted(trace[|trace| - 1].table, port, listed + Forgotten(g.lapses), reserved)
    ensures g.lapses == {} ==> Forgotten(g.lapses) == {}
  {
    hide NeverRegained, Accounted;
  }

  lemma OwnerCarries(t: Table, port: nat, id: GenId, f: Flow)
    requires f in t && AdapterFlow(f, port) && OwnerOf(t[f].mark) == Some(id)
    ensures Carried(t, port, id) && id != NO_GEN
  {
    hide AdapterFlow;
  }

  lemma IsRetained(c: Controller, id: GenId, a: Artifact)
    requires c.Holds(id, a) && id in c.generations && !c.generations[id].scope.Idle()
    ensures Retained(c.generations, a)
  {
  }

  /** The artifact fits and is not mapped yet, and there is room for it. */
  ghost predicate Admissible(c: Controller, a: Artifact)
    reads c`generations, c`reserved
  {
    && ArtifactFits(a, c.host.cfg) && ArtifactVerifies(a.metadata.Id(), a.payload, c.host.cfg)
    && c.CanAdmit(a) && !c.Mapped(a.metadata.Id())
  }

  lemma AdmissibleMeans(c: Controller, a: Artifact)
    requires Admissible(c, a)
    ensures ArtifactFits(a, c.host.cfg) && ArtifactVerifies(a.metadata.Id(), a.payload, c.host.cfg) && c.CanAdmit(a)
    ensures forall id :: id in c.generations ==> !c.Holds(id, a)
  {
    hide ArtifactFits, ArtifactVerifies, Controller.CanAdmit;
  }

  lemma FlowKeepsOwner(host: Host, h: seq<Moment>, f: Flow, id: GenId)
    requires host.History() && h <= host.trace && |h| > 0 && host.trace[|host.trace| - 1].table == host.table
    requires f in h[|h| - 1].table && OwnerOf(h[|h| - 1].table[f].mark) == Some(id) && AdapterFlow(f, host.cfg.port)
    requires f in host.table
    ensures OwnerOf(host.table[f].mark) == Some(id) && Carried(host.table, host.cfg.port, id)
  {
    hide Host.History, OwnerOf, AdapterFlow;
    assert h[|h| - 1] == host.trace[|h| - 1];
    host.OwnerStays(|h| - 1, |host.trace| - 1, f);
  }

  // ---------------------------------------------------------------- status

  /** What two looks at the lifecycle are compared by. */
  datatype Glance = Glance(activeNew: GenId, entries: map<GenId, (Identity, Phase)>)

  function Look(c: Controller): Glance
    reads c`activeNew, c`generations
  {
    Glance(c.activeNew, map id | id in c.generations :: (c.generations[id].identity, c.generations[id].phase))
  }

  /** One serving generation in a report: its identity, the engine whose counters are given,
      and how many connections it has. */
  datatype Activity = Activity(id: GenId, identity: Identity, engine: Engine, connections: nat)

  /** The lineages of a past edition of the registry. */
  ghost predicate PinnedAt(lineages: map<GenId, nat>, log: seq<Edition>, pin: nat) {
    && pin < |log| && lineages.Keys == log[pin].byID.Keys
    && forall id :: id in lineages ==> log[pin].byID[id].lineage == lineages[id]
  }

  /** An entry of a report speaks of one engine, which has been registered under the number
      at every moment since the pin, and of the identity and the DNA the table has for it. */
  ghost predicate Paired(e: Activity, gens: Gens, log: seq<Edition>, pin: nat) {
    && e.id in gens && gens[e.id].Live()
    && gens[e.id].identity == e.identity && gens[e.id].dna == e.engine.dna
    && forall k :: pin <= k < |log| ==> e.id in log[k].byID && log[k].byID[e.id] == e.engine
  }

  /** Status, with anybody's turns between its own. A report that comes out pairs every
      serving identity with one engine that stayed registered from the pin to the read, and
      with its connections at one moment inside the call. Only if the lifecycle looks different
      at one of the three looks, or the registry has moved on since the pin, none comes out. */
  method Status(c: Controller, pending: seq<Pending>, ghost at: seq<Stamp>, ghost g: Ledger)
    returns (report: Option<seq<Activity>>, left: seq<Pending>, ghost at1: seq<Stamp>, ghost g1: Ledger, ghost pin: nat, ghost k: nat,
             ghost looks: seq<Glance>)
    requires Kept(c, pending, at, g)
    modifies c, c.host, c.eng, c.faults
    ensures Kept(c, left, at1, g1) && Onward(g, g1)
    ensures old(c.host.trace) <= c.host.trace && old(c.eng.log) <= c.eng.log
    ensures |looks| == 3 && looks[2] == Look(c)
    ensures report.None? ==> looks[0] != looks[1] || looks[1] != looks[2] || pin + 1 < |c.eng.log|
    ensures |old(c.eng.log)| <= pin + 1 && pin < |c.eng.log|
    ensures |old(c.host.trace)| <= k + 1 && k < |c.host.trace|
    ensures report.Some? ==> forall e :: e in report.value ==>
              && Paired(e, c.generations, c.eng.log, pin)
              && e.connections == CountOf(NamespaceCounts(c.host.trace[k].table, c.host.cfg.port), e.id)
    ensures report.Some? ==> forall id :: id in c.generations && c.generations[id].Live() ==>
              exists e :: e in report.value && e.id == id
  {
    hide *;
    report := None;
    KeptParts(c, pending, at, g);
    var lineages := Lineages(c);
    pin := |c.eng.log| - 1;
    ghost var log := c.eng.log;
    left, at1, g1 := Others(c, pending, at, g);
    var before := Look(c);
    looks := [before];
    ghost var g0 := g1;
    left, at1, g1 := Others(c, left, at1, g1);
    OnwardOn(g, g0, g1);
    Wait(c, left, at1, g1);
    var counts := NamespaceCounts(c.host.table, c.host.cfg.port);
    k := |c.host.trace| - 1;
    ghost var t := c.host.table;
    g0 := g1;
    left, at1, g1 := Others(c, left, at1, g1);
    OnwardOn(g, g0, g1);
    var view := Look(c);
    looks := looks + [view, view];
    if before != view {
      return;
    }
    g0 := g1;
    left, at1, g1 := Others(c, left, at1, g1);
    OnwardOn(g, g0, g1);
    looks := looks[..2] + [Look(c)];
    if Look(c) != view {
      return;
    }
    KeptParts(c, left, at1, g1);
    StillPinned(lineages, log, c.eng.log, pin);
    report := ReadActivity(c, lineages, counts, pin);
  }

  lemma StillPinned(lineages: map<GenId, nat>, log: seq<Edition>, now: seq<Edition>, pin: nat)
    requires log <= now && PinnedAt(lineages, log, pin)
    ensures PinnedAt(lineages, now, pin)
  {
  }

  /** lineagesLocked. */
  method Lineages(c: Controller) returns (lineages: map<GenId, nat>)
    requires c.Settled()
    ensures |c.eng.log| > 0 && PinnedAt(lineages, c.eng.log, |c.eng.log| - 1)
    ensures lineages.Keys == c.generations.Keys
  {
    hide *;
    c.SettledParts();
    c.Listed();
    LogIsCurrent(c.eng);
    lineages := map id | id in c.generations && id in c.eng.byID :: c.eng.byID[id].lineage;
    IsPinned(lineages, c.eng);
  }

  lemma LogIsCurrent(eng: Registry)
    requires eng.Valid()
    ensures |eng.log| > 0 && eng.log[|eng.log| - 1] == Edition(eng.byID, eng.prepared)
  {
  }

  lemma IsPinned(lineages: map<GenId, nat>, eng: Registry)
    requires eng.Valid() && lineages.Keys == eng.byID.Keys && forall id :: id in lineages ==> lineages[id] == eng.byID[id].lineage
    ensures |eng.log| > 0 && PinnedAt(lineages, eng.log, |eng.log| - 1)
  {
    hide EnginesOk, RegistryMay;
  }

  /** While the registry is still at the edition pinned, the lineages are the engines'. */
  lemma PinnedNow(lineages: map<GenId, nat>, eng: Registry, pin: nat)
    requires eng.Valid() && PinnedAt(lineages, eng.log, pin)
    ensures pin + 1 < |eng.log| || forall id :: id in eng.byID ==> id in lineages && lineages[id] == eng.byID[id].lineage
  {
    LogIsCurrent(eng);
    hide Registry.Valid;
  }

  /** activityFor, once the two looks agree. */
  method ReadActivity(c: Controller, lineages: map<GenId, nat>, counts: Counts, ghost pin: nat)
    returns (report: Option<seq<Activity>>)
    requires c.Settled() && PinnedAt(lineages, c.eng.log, pin)
    ensures report.None? ==> pin + 1 < |c.eng.log|
    ensures report.Some? ==> forall e :: e in report.value ==>
              Paired(e, c.generations, c.eng.log, pin) && e.connections == CountOf(counts, e.id)
    ensures report.Some? ==> forall id :: id in c.generations && c.generations[id].Live() ==>
              exists e :: e in report.value && e.id == id
  {
    hide *;
    c.SettledParts();
    var es: seq<Activity> := [];
    var todo := c.generations.Keys;
    while todo != {}
      invariant todo <= c.generations.Keys
      invariant forall e :: e in es ==> Paired(e, c.generations, c.eng.log, pin) && e.connections == CountOf(counts, e.id)
      invariant forall id :: id in c.generations && id !in todo && c.generations[id].Live() ==> exists e :: e in es && e.id == id
      decreases |todo|
    {
      var id :| id in todo;
      c.EngineOf(id, c.generations);
      if c.generations[id].Live() {
        var engine := c.eng.byID[id];
        PinnedNow(lineages, c.eng, pin);
        if id !in lineages || lineages[id] != engine.lineage {
          return None;
        }
        var e := Activity(id, c.generations[id].identity, engine, CountOf(counts, id));
        IsPaired(e, c.generations, c.eng, lineages, pin);
        ghost var was := es;
        es := es + [e];
        assert e in es;
        assert forall x :: x in was ==> x in es;
      }
      todo := todo - {id};
    }
    report := Some(es);
  }

  lemma IsPaired(e: Activity, gens: Gens, eng: Registry, lineages: map<GenId, nat>, pin: nat)
    requires eng.Valid() && PinnedAt(lineages, eng.log, pin) && e.id in lineages && e.id in eng.byID
    requires eng.byID[e.id] == e.engine && lineages[e.id] == e.engine.lineage
    requires e.id in gens && gens[e.id].Live() && gens[e.id].identity == e.identity && gens[e.id].dna == e.engine.dna
    ensures Paired(e, gens, eng.log, pin)
  {
    LogIsCurrent(eng);
    hide Registry.Valid, Gen.Live;
    eng.SameLineageMeansNeverReplaced(pin, |eng.log| - 1, e.id, e.id);
  }
}
