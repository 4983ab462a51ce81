/** The registry of immutable engines. */
module Registries {
  import opened Wrappers
  import opened Artifacts

  /** One immutable engine: its DNA and the lineage of its counters. */
  datatype Engine = Engine(dna: Dna, lineage: nat)

  type Engines = map<GenId, Engine>

  /** What a registry holds, and how many engines it has published in all. */
  datatype Edition = Edition(byID: Engines, prepared: nat)

  /** b may follow a: an ID's engine is the same one, or was published since. */
  ghost predicate RegistryMay(a: Edition, b: Edition) {
    && a.prepared <= b.prepared
    && forall id :: id in b.byID ==>
         (id in a.byID && b.byID[id] == a.byID[id]) || a.prepared < b.byID[id].lineage <= b.prepared
  }

  ghost predicate EnginesOk(byID: Engines, prepared: nat) {
    && (forall id :: id in byID ==> 0 < byID[id].lineage <= prepared)
    && (forall i, j :: i in byID && j in byID && byID[i].lineage == byID[j].lineage ==> i == j)
  }

  lemma RegistryMayIsTransitive(a: Edition, b: Edition, c: Edition)
    requires RegistryMay(a, b) && RegistryMay(b, c)
    ensures RegistryMay(a, c)
  {
  }

  class Registry {
    const library: Library
    var byID: Engines
    var active: GenId
    var swaps: nat
    var prepared: nat
    /** Every edition there has been. */
    ghost var log: seq<Edition>

    ghost predicate Valid()
      reads this`byID, this`prepared, this`log
    {
      && EnginesOk(byID, prepared)
      && |log| > 0 && log[|log| - 1] == Edition(byID, prepared)
      && (forall k :: 0 <= k < |log| ==> EnginesOk(log[k].byID, log[k].prepared))
      && (forall k :: 0 < k < |log| ==> RegistryMay(log[k - 1], log[k]))
    }

    constructor (library: Library)
      ensures Valid() && byID == map[] && active == NO_GEN && prepared == 0
      ensures this.library == library && log == [Edition(map[], 0)]
    {
      this.library := library;
      byID, active, swaps, prepared := map[], NO_GEN, 0, 0;
      log := [Edition(map[], 0)];
    }

    lemma {:induction false} EditionsFollow(i: nat, j: nat)
      requires Valid() && i <= j < |log|
      ensures RegistryMay(log[i], log[j])
      decreases j
    {
      if i < j {
        EditionsFollow(i, j - 1);
        RegistryMayIsTransitive(log[i], log[j - 1], log[j]);
      }
    }

    /** Lineages are for ever. If an engine's lineage is met again at any later time, under
        whatever number, then it is the same number, the same DNA and the same engine, and it
        was registered at every moment in between: it was never collected and prepared again,
        however often other numbers were. */
    lemma SameLineageMeansNeverReplaced(i: nat, j: nat, a: GenId, b: GenId)
      requires Valid() && i <= j < |log|
      requires a in log[i].byID && b in log[j].byID && log[i].byID[a].lineage == log[j].byID[b].lineage
      ensures a == b
      ensures forall k :: i <= k <= j ==> a in log[k].byID && log[k].byID[a] == log[i].byID[a]
    {
      EditionsFollow(i, j);
      assert EnginesOk(log[i].byID, log[i].prepared);
      forall k | i <= k <= j
        ensures a in log[k].byID && log[k].byID[a] == log[i].byID[a]
      {
        EditionsFollow(i, k);
        EditionsFollow(k, j);
        assert EnginesOk(log[k].byID, log[k].prepared);
      }
    }

    ghost method Note()
      requires |log| > 0 && EnginesOk(byID, prepared) && RegistryMay(log[|log| - 1], Edition(byID, prepared))
      requires forall k :: 0 <= k < |log| ==> EnginesOk(log[k].byID, log[k].prepared)
      requires forall k :: 0 < k < |log| ==> RegistryMay(log[k - 1], log[k])
      modifies this`log
      ensures Valid() && log == old(log) + [Edition(byID, prepared)]
    {
      hide EnginesOk, RegistryMay;
      log := log + [Edition(byID, prepared)];
    }

    /** Publishes dna as id. An ID already published keeps its engine: publishing the same
        DNA again is accepted without effect, different DNA is refused. */
    method Prepare(id: GenId, dna: Dna) returns (ok: bool)
      requires Valid()
      modifies this`byID, this`prepared, this`log
      ensures Valid() && old(log) <= log
      ensures ok <==> library.scopeOf(dna).Some? && (id in old(byID) ==> old(byID)[id].dna == dna)
      ensures !ok || id in old(byID) ==> byID == old(byID) && prepared == old(prepared) && log == old(log)
      ensures ok && id !in old(byID) ==> byID == old(byID)[id := Engine(dna, prepared)]
    {
      if library.scopeOf(dna).None? {
        return false;
      }
      if id in byID {
        return byID[id].dna == dna;
      }
      prepared := prepared + 1;
      byID := byID[id := Engine(dna, prepared)];
      Note();
      return true;
    }

    predicate VerifyGeneration(id: GenId, dna: Dna)
      reads this
    {
      id in byID && byID[id].dna == dna
    }

    method Activate(id: GenId) returns (ok: bool)
      modifies this`active, this`swaps
      ensures ok <==> id in byID
      ensures active == if ok then id else old(active)
      ensures swaps == old(swaps) + (if ok && old(active) != NO_GEN && old(active) != id then 1 else 0)
    {
      if id !in byID {
        return false;
      }
      if active != NO_GEN && active != id {
        swaps := swaps + 1;
      }
      active := id;
      return true;
    }

    method Deactivate()
      modifies this`active
      ensures active == NO_GEN
    {
      active := NO_GEN;
    }

    /** Forgets an engine that is not the active one. */
    method Remove(id: GenId) returns (ok: bool)
      requires Valid()
      modifies this`byID, this`log
      ensures Valid() && old(log) <= log
      ensures ok <==> active != id && id in old(byID)
      ensures byID == if ok then old(byID) - {id} else old(byID)
    {
      if active == id || id !in byID {
        return false;
      }
      byID := byID - {id};
      Note();
      return true;
    }
  }
}
