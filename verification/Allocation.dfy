/** Which generation number the next artifact gets. */
module Allocation {
  import opened Artifacts
  import opened Hosts
  import opened Wrappers
  import Marks

  const FIRST := GenId(1)

  function Next(id: GenId): GenId {
    GenId(id.raw + 1)
  }

  /** The first number past the namespace, or one that has wrapped around. */
  predicate OutOfRange(id: GenId) {
    id == NO_GEN || Marks.MAX_ID < id.raw
  }

  lemma NextNumber(id: GenId)
    requires ValidGen(id)
    ensures Number(Next(id)) == Number(id) + 1
  {
  }

  /** Stepping over a valid number passes that number and nothing else. */
  lemma NextPasses(id: GenId, other: GenId)
    requires ValidGen(id)
    ensures IdBefore(other, Next(id)) <==> IdBefore(other, id) || other == id
  {
    hide Number, Next, ValidGen;
    NextNumber(id);
    if Number(other) == Number(id) {
      SameNumber(other, id);
    }
  }

  lemma ValidNumbers(id: GenId)
    ensures ValidGen(id) ==> 1 <= Number(id) <= 0xfff
  {
  }

  lemma OutOfRangeMeans(id: GenId)
    requires id != NO_GEN
    ensures OutOfRange(id) ==> 0xfff < Number(id)
    ensures !OutOfRange(id) ==> ValidGen(id)
  {
  }

  lemma NothingBeforeFirst(id: GenId)
    ensures ValidGen(id) ==> !IdBefore(id, FIRST)
    ensures ValidGen(FIRST)
  {
    ValidNumbers(id);
    assert Number(FIRST) == 1;
    hide Number;
  }

  predicate Sorted(ids: seq<GenId>) {
    forall i, j :: 0 <= i < j < |ids| ==> IdBefore(ids[i], ids[j])
  }

  /** The IDs in ascending order. */
  method SortIds(used: set<GenId>) returns (ids: seq<GenId>)
    ensures Sorted(ids) && forall id :: id in ids <==> id in used
  {
    hide IdBefore;
    ids := [];
    var todo := used;
    while todo != {}
      invariant todo <= used && Sorted(ids)
      invariant forall id :: id in ids <==> id in used && id !in todo
      decreases |todo|
    {
      var id :| id in todo;
      ids := InsertId(ids, id);
      todo := todo - {id};
    }
  }

  method InsertId(ids: seq<GenId>, id: GenId) returns (out: seq<GenId>)
    requires Sorted(ids) && id !in ids
    ensures Sorted(out)
    ensures forall x :: x in out <==> x in ids || x == id
  {
    hide IdBefore;
    var i := 0;
    while i < |ids| && IdBefore(ids[i], id)
      invariant 0 <= i <= |ids|
      invariant forall k :: 0 <= k < i ==> IdBefore(ids[k], id)
    {
      i := i + 1;
    }
    out := ids[..i] + [id] + ids[i..];
    assert ids == ids[..i] + ids[i..];
    if i < |ids| {
      IdBeforeIsStrictAndTotal(ids[i], id);
      forall k | i < k < |ids|
        ensures IdBefore(id, ids[k])
      {
        IdBeforeIsTransitive(id, ids[i], ids[k]);
      }
    }
  }

  /** Every valid number before the candidate is taken. */
  ghost predicate TakenBelow(candidate: GenId, used: set<GenId>) {
    forall id :: ValidGen(id) && IdBefore(id, candidate) ==> id in used
  }

  /** id is the least free one, or zero when there is none. */
  ghost predicate IsLeastFree(id: GenId, used: set<GenId>) {
    if id == NO_GEN then forall other :: ValidGen(other) ==> other in used
    else ValidGen(id) && id !in used && TakenBelow(id, used)
  }

  /** The scan has passed every number before i, and found no gap below the candidate. */
  ghost predicate Scanned(ids: seq<GenId>, i: nat, candidate: GenId, used: set<GenId>) {
    && i <= |ids| && candidate != NO_GEN
    && TakenBelow(candidate, used)
    && (forall k :: i <= k < |ids| ==> !IdBefore(ids[k], candidate))
    && (forall k :: 0 <= k < i ==> IdBefore(ids[k], candidate))
  }

  lemma ScanBegins(ids: seq<GenId>, used: set<GenId>)
    requires forall id :: id in ids <==> id in used
    requires forall u :: u in used ==> ValidGen(u)
    ensures Scanned(ids, 0, FIRST, used)
  {
    hide ValidGen, IdBefore;
    forall id | ValidGen(id)
      ensures !IdBefore(id, FIRST)
    {
      NothingBeforeFirst(id);
    }
  }

  lemma NextIsNotZero(id: GenId)
    requires ValidGen(id)
    ensures Next(id) != NO_GEN
  {
  }

  lemma ScanGoesOn(ids: seq<GenId>, i: nat, used: set<GenId>)
    requires Sorted(ids) && i < |ids| && ids[i] in used && ValidGen(ids[i]) && Scanned(ids, i, ids[i], used)
    ensures Scanned(ids, i + 1, Next(ids[i]), used)
  {
    hide ValidGen, IdBefore, Next;
    NextIsNotZero(ids[i]);
    forall id
      ensures IdBefore(id, Next(ids[i])) <==> IdBefore(id, ids[i]) || id == ids[i]
    {
      NextPasses(ids[i], id);
    }
    forall k | i < k < |ids|
      ensures !IdBefore(ids[k], Next(ids[i]))
    {
      assert IdBefore(ids[i], ids[k]);
      IdBeforeIsStrictAndTotal(ids[i], ids[k]);
    }
  }

  lemma LeastFreeIsUnique(a: GenId, b: GenId, used: set<GenId>)
    requires IsLeastFree(a, used) && IsLeastFree(b, used)
    ensures a == b
  {
    IdBeforeIsStrictAndTotal(a, b);
    hide IdBefore, ValidGen;
  }

  /** nextGenerationLocked: walks the sorted numbers until the first gap. */
  method LeastFree(used: set<GenId>) returns (id: GenId)
    requires forall u :: u in used ==> ValidGen(u)
    ensures IsLeastFree(id, used)
  {
    hide *;
    var ids := SortIds(used);
    ScanBegins(ids, used);
    var candidate := FIRST;
    var i := 0;
    while i < |ids|
      invariant i <= |ids| && Scanned(ids, i, candidate, used)
    {
      assert ids[i] in used;
      NeverPast(ids, i, candidate, used);
      if ids[i] == candidate {
        ScanGoesOn(ids, i, used);
        candidate := Next(candidate);
      } else if IdBefore(candidate, ids[i]) {
        break;
      } else {
        assert false;
      }
      i := i + 1;
    }
    if OutOfRange(candidate) {
      NothingFree(candidate, ids, i, used);
      return NO_GEN;
    }
    FirstGap(candidate, ids, i, used);
    return candidate;
  }

  /** The scan never has to pass a number that is neither the candidate nor after it. */
  lemma NeverPast(ids: seq<GenId>, i: nat, candidate: GenId, used: set<GenId>)
    requires Scanned(ids, i, candidate, used) && i < |ids|
    ensures candidate == ids[i] || IdBefore(candidate, ids[i])
  {
    hide ValidGen, IdBefore;
    IdBeforeIsStrictAndTotal(candidate, ids[i]);
  }

  lemma NothingFree(candidate: GenId, ids: seq<GenId>, i: nat, used: set<GenId>)
    requires Scanned(ids, i, candidate, used) && OutOfRange(candidate)
    ensures IsLeastFree(NO_GEN, used)
  {
    hide ValidGen, Number, OutOfRange;
    OutOfRangeMeans(candidate);
    forall other | ValidGen(other)
      ensures other in used
    {
      ValidNumbers(other);
    }
  }

  lemma FirstGap(candidate: GenId, ids: seq<GenId>, i: nat, used: set<GenId>)
    requires Sorted(ids) && forall id :: id in ids <==> id in used
    requires Scanned(ids, i, candidate, used) && !OutOfRange(candidate)
    requires i < |ids| ==> IdBefore(candidate, ids[i])
    ensures IsLeastFree(candidate, used)
  {
    hide ValidGen, IdBefore, OutOfRange;
    OutOfRangeMeans(candidate);
    forall k | 0 <= k < |ids|
      ensures ids[k] != candidate
    {
      if i < k {
        IdBeforeIsTransitive(candidate, ids[i], ids[k]);
      }
      IdBeforeIsStrictAndTotal(candidate, ids[k]);
    }
  }

  // ---------------------------------------------------------------- reservations

  /** What reconcileReservedGenerationsLocked makes of the reservations: a reservation the
      snapshot counts zero is dropped, and a flow of an unknown generation reserves its ID. */
  function Reconciled(reserved: set<GenId>, counts: map<GenId, nat>, known: set<GenId>): set<GenId> {
    (set id | id in reserved && CountOf(counts, id) != 0) + (set id | id in counts && counts[id] > 0 && id !in known)
  }

  method Reconcile(reserved: set<GenId>, counts: map<GenId, nat>, known: set<GenId>) returns (r: set<GenId>)
    ensures r == Reconciled(reserved, counts, known)
  {
    var kept := Dropping(reserved, id => CountOf(counts, id) == 0);
    var met := Dropping(counts.Keys, id => id !in counts || counts[id] == 0 || id in known);
    return kept + met;
  }

  /** Walks a set and drops what is to be dropped. */
  method Dropping<T(==)>(s: set<T>, dropped: T -> bool) returns (r: set<T>)
    ensures r == set x | x in s && !dropped(x)
  {
    r := s;
    var todo := s;
    while todo != {}
      invariant todo <= s
      invariant r == set x | x in s && (x in todo || !dropped(x))
      decreases |todo|
    {
      var x :| x in todo;
      if dropped(x) {
        r := r - {x};
      }
      todo := todo - {x};
    }
  }

  /** An ID handed out after reconciling with a namespace snapshot was carried by no flow in
      that snapshot, idle ones included. */
  lemma HandedOutIdIsUncarried(id: GenId, reserved: set<GenId>, known: set<GenId>, t: Table, port: nat)
    requires IsLeastFree(id, known + Reconciled(reserved, NamespaceCounts(t, port), known)) && id != NO_GEN
    ensures CountOf(NamespaceCounts(t, port), id) == 0 && !Carried(t, port, id)
  {
    SnapshotIsAuthoritative(t, port, id);
    hide ValidGen, IdBefore, Carried;
    FreeIsUncounted(id, reserved, NamespaceCounts(t, port), known);
  }

  lemma FreeIsUncounted(id: GenId, reserved: set<GenId>, counts: map<GenId, nat>, known: set<GenId>)
    requires id !in known + Reconciled(reserved, counts, known)
    ensures CountOf(counts, id) == 0
  {
  }

  // ---------------------------------------------------------------- numbers over a run

  /** Unlisted numbers gain no flows: one that some flow carries now has been carried at every
      moment since. */
  ghost predicate NeverRegained(trace: seq<Moment>, port: nat, since: nat, listed: set<GenId>) {
    && since < |trace|
    && forall id, k :: id !in listed && since <= k < |trace| && Carried(trace[|trace| - 1].table, port, id) ==>
         Carried(trace[k].table, port, id)
  }

  /** Every number some flow carries is listed or reserved. */
  ghost predicate Accounted(t: Table, port: nat, listed: set<GenId>, reserved: set<GenId>) {
    forall id :: Carried(t, port, id) ==> id in listed || id in reserved
  }

  /** From h on, nothing was assigned but what is listed. */
  ghost predicate AssignedOnly(h: seq<Moment>, trace: seq<Moment>, listed: set<GenId>) {
    h <= trace && forall k :: |h| <= k < |trace| ==> trace[k].program.assignee == NO_GEN || trace[k].program.assignee in listed
  }

  /** The reservations are those before, or have been reconciled with the snapshot of a moment
      k no earlier than h ends. */
  ghost predicate ReconciledAt(before: set<GenId>, reserved: set<GenId>, listed: set<GenId>,
                               h: seq<Moment>, trace: seq<Moment>, port: nat, k: nat) {
    || reserved == before
    || (|h| <= k + 1 && k < |trace| && reserved == Reconciled(before, NamespaceCounts(trace[k].table, port), listed))
  }

  lemma NotReconciled(before: set<GenId>, listed: set<GenId>, h: seq<Moment>, trace: seq<Moment>, port: nat, k: nat)
    ensures ReconciledAt(before, before, listed, h, trace, port, k)
  {
  }

  lemma IsReconciled(before: set<GenId>, reserved: set<GenId>, listed: set<GenId>, h: seq<Moment>, trace: seq<Moment>, port: nat, k: nat)
    requires |h| <= k + 1 && k < |trace| && reserved == Reconciled(before, NamespaceCounts(trace[k].table, port), listed)
    ensures ReconciledAt(before, reserved, listed, h, trace, port, k)
  {
  }

  lemma ReconciledStays(before: set<GenId>, reserved: set<GenId>, listed: set<GenId>,
                        earlier: seq<Moment>, h: seq<Moment>, mid: seq<Moment>, trace: seq<Moment>, port: nat, k: nat)
    requires earlier <= h && mid <= trace && ReconciledAt(before, reserved, listed, h, mid, port, k)
    ensures ReconciledAt(before, reserved, listed, earlier, trace, port, k)
  {
    hide NamespaceCounts, Reconciled;
  }

  /** From a single moment on, nothing can have been regained yet. */
  lemma NothingRegainedYet(h: seq<Moment>, port: nat, listed: set<GenId>)
    requires |h| > 0
    ensures NeverRegained(h, port, |h| - 1, listed)
  {
    hide Carried;
  }

  /** A collection at a count of zero leaves no flow behind, if the count leaves no idle flow
      out and no program has assigned the number since. */
  lemma CollectedIsUncarried(host: Host, id: GenId, k: nat, h: seq<Moment>, l: Liveness, others: set<GenId>)
    requires host.History() && k < |h| && h <= host.trace && !Skips(l)
    requires |CountedFlows(host.trace[k].table, host.cfg.port, id, l)| == 0
    requires forall i :: k <= i < |h| ==> host.trace[i].program.assignee != id
    requires AssignedOnly(h, host.trace, others) && id !in others && id != NO_GEN
    ensures !Carried(host.trace[|host.trace| - 1].table, host.cfg.port, id)
  {
    hide Host.History, Carried, CountedFlows, Skips;
    ZeroCountIsAuthoritative(host.trace[k].table, host.cfg.port, id, l);
    forall i | k < i <= |host.trace| - 1
      ensures host.trace[i].program.assignee != id
    {
    }
    host.UncarriedStays(k, |host.trace| - 1, id);
  }

  lemma NothingAssigned(h: seq<Moment>, listed: set<GenId>)
    ensures AssignedOnly(h, h, listed)
  {
  }

  lemma MoreListed(h: seq<Moment>, trace: seq<Moment>, listed: set<GenId>, more: set<GenId>)
    requires AssignedOnly(h, trace, listed) && listed <= more
    ensures AssignedOnly(h, trace, more)
  {
  }

  lemma AssignedOnlyJoins(h: seq<Moment>, mid: seq<Moment>, trace: seq<Moment>, listed: set<GenId>, more: set<GenId>)
    requires AssignedOnly(h, mid, listed) && AssignedOnly(mid, trace, more) && listed <= more
    ensures AssignedOnly(h, trace, more)
  {
    forall k | |h| <= k < |trace|
      ensures trace[k].program.assignee == NO_GEN || trace[k].program.assignee in more
    {
      if k < |mid| {
        assert trace[k] == mid[k];
      }
    }
  }

  /** A stretch of a run in which only listed numbers were assigned, and those taken off the
      list were carried by no flow at its end, lets no unlisted number gain flows. */
  lemma StillNeverRegained(host: Host, h: seq<Moment>, since: nat, before: set<GenId>, now: set<GenId>)
    requires host.History() && AssignedOnly(h, host.trace, before + now)
    requires NeverRegained(h, host.cfg.port, since, before)
    requires forall id :: id in before - now ==> !Carried(host.trace[|host.trace| - 1].table, host.cfg.port, id)
    ensures NeverRegained(host.trace, host.cfg.port, since, now)
  {
    hide Host.History, Carried;
    var last := |host.trace| - 1;
    forall id, k | id !in now && since <= k <= last && Carried(host.trace[last].table, host.cfg.port, id)
      ensures Carried(host.trace[k].table, host.cfg.port, id)
    {
      NobodyCarriesZero(host.trace[last].table, host.cfg.port);
      assert id in before ==> id in before - now;
      if k < |h| {
        if !Carried(host.trace[|h| - 1].table, host.cfg.port, id) {
          host.UncarriedStays(|h| - 1, last, id);
        }
        assert h[k] == host.trace[k] && h[|h| - 1] == host.trace[|h| - 1];
      } else if !Carried(host.trace[k].table, host.cfg.port, id) {
        host.UncarriedStays(k, last, id);
      }
    }
  }

  /** A namespace snapshot, however old, accounts for every number when it is reconciled. */
  lemma SnapshotAccounts(trace: seq<Moment>, port: nat, since: nat, k: nat, listed: set<GenId>, reserved: set<GenId>)
    requires NeverRegained(trace, port, since, listed) && since <= k < |trace|
    ensures Accounted(trace[|trace| - 1].table, port, listed, Reconciled(reserved, NamespaceCounts(trace[k].table, port), listed))
  {
    hide Carried, NamespaceCounts;
    forall id | Carried(trace[|trace| - 1].table, port, id) && id !in listed
      ensures id in Reconciled(reserved, NamespaceCounts(trace[k].table, port), listed)
    {
      SnapshotIsAuthoritative(trace[k].table, port, id);
    }
  }

  /** Numbers once accounted for stay accounted for. */
  lemma StillAccounted(h: seq<Moment>, trace: seq<Moment>, port: nat, since: nat, before: set<GenId>, now: set<GenId>, reserved: set<GenId>)
    requires h <= trace && since < |h| && NeverRegained(trace, port, since, now)
    requires Accounted(h[|h| - 1].table, port, before, reserved)
    requires forall id :: id in before - now ==> !Carried(trace[|trace| - 1].table, port, id)
    ensures Accounted(trace[|trace| - 1].table, port, now, reserved)
  {
    hide Carried;
    assert h[|h| - 1] == trace[|h| - 1];
    forall id | Carried(trace[|trace| - 1].table, port, id)
      ensures id in now || id in reserved
    {
      assert id in before ==> id in now || id in before - now;
      assert id !in now ==> Carried(trace[|h| - 1].table, port, id);
    }
  }

  /** Without a snapshot of its own an ordinary prepare relies on the reservations: while every
      carried number but the forgotten ones is accounted for, the number handed out is carried
      by no flow, or has been forgotten. */
  lemma FreshUnlessForgotten(id: GenId, listed: set<GenId>, forgotten: set<GenId>, reserved: set<GenId>, t: Table, port: nat)
    requires IsLeastFree(id, listed + reserved) && id != NO_GEN && Accounted(t, port, listed + forgotten, reserved)
    ensures Carried(t, port, id) ==> id in forgotten
  {
    hide Carried, ValidGen, IdBefore;
  }
}
