/** One bound NFQUEUE: deferred accepts collapse into batch messages, everything else is
    verdicted at once. The kernel's side is what the messages mean to it. */
module Queues {
  import opened Wrappers
  import Netlink

  type Bytes = seq<bv8>

  datatype Verdict = Accept | Drop | Replace(payload: Bytes)

  /** NFQNL_MSG_VERDICT_BATCH and NFQNL_MSG_VERDICT. Packet ids increase and do not wrap. */
  datatype Message = Batch(upTo: nat) | One(id: nat, verdict: Verdict)

  /** The kernel's view: packets delivered and not yet decided, and what was decided. */
  datatype Kernel = Kernel(outstanding: set<nat>, settled: map<nat, Verdict>)

  /** What leaves the box: a packet through the raw socket, or a verdict for a queued one. */
  datatype Event = Injected(payload: Bytes) | Sent(message: Message)

  /** A batch accepts every outstanding packet up to its id; a verdict decides its one. */
  function Apply(k: Kernel, m: Message): Kernel {
    match m
    case Batch(n) =>
      Kernel(set id | id in k.outstanding && id > n,
             map id | id in k.settled.Keys + k.outstanding && (id in k.settled || id <= n) ::
               if id in k.settled then k.settled[id] else Accept)
    case One(id, v) =>
      if id in k.outstanding then Kernel(k.outstanding - {id}, k.settled[id := v]) else k
  }

  ghost predicate KernelOk(k: Kernel) {
    k.outstanding !! k.settled.Keys
  }

  lemma ApplyKeepsOk(k: Kernel, m: Message)
    requires KernelOk(k)
    ensures KernelOk(Apply(k, m))
  {
  }

  /** No packet but these has been dropped since. */
  ghost predicate DropsOnly(k: Kernel, k2: Kernel, ids: set<nat>) {
    forall id :: id !in ids && Dropped(k2, id) ==> Dropped(k, id)
  }

  predicate Dropped(k: Kernel, id: nat) {
    id in k.settled && k.settled[id] == Drop
  }

  lemma NoneDropped(k: Kernel, ids: set<nat>)
    ensures DropsOnly(k, k, ids)
  {
  }

  lemma DropsMore(k: Kernel, k2: Kernel, ids: set<nat>)
    ensures DropsOnly(k, k2, {}) ==> DropsOnly(k, k2, ids)
  {
  }

  lemma DropsOnlyJoins(a: Kernel, b: Kernel, c: Kernel, id: nat)
    requires DropsOnly(a, b, {}) || DropsOnly(a, b, {id})
    requires DropsOnly(b, c, {}) || DropsOnly(b, c, {id})
    ensures DropsOnly(a, c, {id})
  {
  }

  lemma OnlyItself(k: Kernel, k2: Kernel, id: nat)
    requires DropsOnly(k, k2, {}) && !Dropped(k, id)
    ensures !Dropped(k2, id)
  {
  }

  lemma ApplyDropsOnly(k: Kernel, m: Message)
    ensures DropsOnly(k, Apply(k, m), if m.One? && m.verdict == Drop then {m.id} else {})
  {
  }

  /** Any successful batch on n settles every delivered packet up to n. */
  lemma BatchSettlesEverythingBelow(k: Kernel, n: nat, id: nat)
    requires (id in k.outstanding || id in k.settled) && id <= n
    ensures id in Apply(k, Batch(n)).settled
  {
  }

  class Queue {
    var pendingAccept: nat
    var hasPending: bool
    var kernel: Kernel
    var log: seq<Event>
    /** Sends that failed so far. */
    var failures: nat

    constructor ()
      ensures kernel == Kernel({}, map[]) && log == [] && failures == 0 && !hasPending
    {
      pendingAccept, hasPending := 0, false;
      kernel, log, failures := Kernel({}, map[]), [], 0;
    }

    /** Writes one message; a failed send reaches nobody. */
    method Send(m: Message) returns (ok: bool)
      modifies this`kernel, this`log, this`failures
      ensures ok ==> kernel == Apply(old(kernel), m) && log == old(log) + [Sent(m)] && failures == old(failures)
      ensures !ok ==> kernel == old(kernel) && log == old(log) && failures == old(failures) + 1
    {
      ok := *;
      if ok {
        kernel := Apply(kernel, m);
        log := log + [Sent(m)];
      } else {
        failures := failures + 1;
      }
    }

    /** accept: keeps the highest id, since a batch covers everything below it. */
    method Accept(id: nat)
      modifies this`pendingAccept, this`hasPending
      ensures hasPending
      ensures pendingAccept == if old(hasPending) && old(pendingAccept) >= id then old(pendingAccept) else id
    {
      if !hasPending || id > pendingAccept {
        pendingAccept := id;
      }
      hasPending := true;
    }

    /** flush. */
    method Flush() returns (ok: bool)
      modifies this`hasPending, this`kernel, this`log, this`failures
      ensures !hasPending
      ensures !old(hasPending) ==> ok && kernel == old(kernel) && log == old(log) && failures == old(failures)
      ensures old(hasPending) && ok ==>
                && kernel == Apply(old(kernel), Batch(pendingAccept))
                && log == old(log) + [Sent(Batch(pendingAccept))] && failures == old(failures)
      ensures !ok ==> old(hasPending) && kernel == old(kernel) && log == old(log) && failures == old(failures) + 1
    {
      if !hasPending {
        return true;
      }
      var id := pendingAccept;
      hasPending := false;
      ok := Send(Batch(id));
    }

    /** verdict: deferred accepts for earlier ids go first, or a batch would swallow this
        packet's id as well. If they cannot be sent, neither is the verdict. */
    method Verdict(id: nat, v: Verdict) returns (ok: bool)
      modifies this`hasPending, this`kernel, this`log, this`failures
      ensures !hasPending
      ensures ok ==>
                && kernel == Apply(if Flushes(old(hasPending), pendingAccept, id) then Apply(old(kernel), Batch(pendingAccept)) else old(kernel), One(id, v))
                && log == old(log) + (if Flushes(old(hasPending), pendingAccept, id) then [Sent(Batch(pendingAccept))] else []) + [Sent(One(id, v))]
                && failures == old(failures)
      ensures !ok ==>
                && failures == old(failures) + 1
                && ((kernel == old(kernel) && log == old(log))
                    || (Flushes(old(hasPending), pendingAccept, id) && kernel == Apply(old(kernel), Batch(pendingAccept))
                        && log == old(log) + [Sent(Batch(pendingAccept))]))
    {
      if hasPending && pendingAccept < id {
        ok := Flush();
        if !ok {
          return false;
        }
      }
      hasPending := false;
      ok := Send(One(id, v));
    }
  }

  predicate Flushes(hasPending: bool, pendingAccept: nat, id: nat) {
    hasPending && pendingAccept < id
  }

  // ---------------------------------------------------------------- one read, decided packet by packet

  /** What one read's packets were decided to be: the ids ascend. */
  datatype Decision = Decision(id: nat, verdict: Verdict)

  ghost predicate Ascending(ds: seq<Decision>) {
    forall i, j :: 0 <= i < j < |ds| ==> ds[i].id < ds[j].id
  }

  /** Maximal runs of accepts. */
  function AcceptRuns(ds: seq<Decision>): nat {
    if ds == [] then 0
    else
      var n := |ds| - 1;
      AcceptRuns(ds[..n]) + (if ds[n].verdict.Accept? && (n == 0 || !ds[n - 1].verdict.Accept?) then 1 else 0)
  }

  function Individuals(ds: seq<Decision>): nat {
    if ds == [] then 0
    else Individuals(ds[..|ds| - 1]) + (if ds[|ds| - 1].verdict.Accept? then 0 else 1)
  }

  function MessagesIn(log: seq<Event>): nat {
    if log == [] then 0 else MessagesIn(log[..|log| - 1]) + (if log[|log| - 1].Sent? then 1 else 0)
  }

  lemma {:induction false} MessagesConcat(a: seq<Event>, b: seq<Event>)
    ensures MessagesIn(a + b) == MessagesIn(a) + MessagesIn(b)
  {
    if b == [] {
      assert a + b == a;
    } else {
      MessagesConcat(a, b[..|b| - 1]);
      assert (a + b)[..|a + b| - 1] == a + b[..|b| - 1];
    }
  }

  lemma OneMessage(m: Message)
    ensures MessagesIn([Sent(m)]) == 1
  {
    assert [Sent(m)][..0] == [];
  }

  /** What a packet may end up with whatever sends fail: its own verdict, or an accept; and
      where replacements can also go through the raw socket, a drop of what they replace. */
  predicate FailsOpen(decided: Verdict, got: Verdict, rawSocket: bool) {
    got == decided || got == Accept || (rawSocket && decided.Replace? && got == Drop)
  }

  /** The state after i decisions: undecided packets are untouched and above everything
      pending; whatever is settled fails open; and if no send has failed, whatever is not
      settled waits for the pending batch. */
  ghost predicate Progress(ds: seq<Decision>, i: nat, k: Kernel, hasPending: bool, pendingAccept: nat, clean: bool, raw: bool) {
    && i <= |ds|
    && KernelOk(k)
    && (hasPending ==> i > 0 && pendingAccept <= ds[i - 1].id)
    && (forall j :: i <= j < |ds| ==> ds[j].id in k.outstanding)
    && (forall j :: 0 <= j < i ==> ds[j].id in k.outstanding || (ds[j].id in k.settled && FailsOpen(ds[j].verdict, k.settled[ds[j].id], raw)))
    && (clean ==> (hasPending <==> i > 0 && ds[i - 1].verdict.Accept?) && (hasPending ==> pendingAccept == ds[i - 1].id))
    && (clean ==> forall j :: 0 <= j < i ==> SettledOrPending(ds[j], k, hasPending))
  }

  predicate SettledOrPending(d: Decision, k: Kernel, hasPending: bool) {
    if d.id in k.settled then k.settled[d.id] == d.verdict
    else hasPending && d.verdict.Accept? && d.id in k.outstanding
  }

  lemma StillProgress(ds: seq<Decision>, i: nat, k: Kernel, hasPending: bool, pendingAccept: nat, clean: bool, raw: bool)
    requires Progress(ds, i, k, hasPending, pendingAccept, clean, raw)
    ensures Progress(ds, i, k, hasPending, pendingAccept, false, raw)
  {
  }

  lemma BeginProgress(ds: seq<Decision>, k: Kernel, raw: bool)
    requires KernelOk(k) && forall j :: 0 <= j < |ds| ==> ds[j].id in k.outstanding
    ensures Progress(ds, 0, k, false, 0, true, raw)
    ensures forall p: nat :: Progress(ds, 0, k, false, p, true, raw)
  {
  }

  lemma AcceptProgress(ds: seq<Decision>, i: nat, k: Kernel, hasPending: bool, pendingAccept: nat, clean: bool, raw: bool)
    requires Ascending(ds) && Progress(ds, i, k, hasPending, pendingAccept, clean, raw) && i < |ds| && ds[i].verdict.Accept?
    ensures Progress(ds, i + 1, k, true, ds[i].id, clean, raw)
    ensures hasPending ==> pendingAccept < ds[i].id
  {
    assert ds[i].id !in k.settled;
  }

  /** A batch leaves the packets not yet decided alone, and settles what was pending. */
  lemma BatchProgress(ds: seq<Decision>, i: nat, k: Kernel, pendingAccept: nat, clean: bool, raw: bool)
    requires Ascending(ds) && Progress(ds, i, k, true, pendingAccept, clean, raw)
    ensures i < |ds| ==> pendingAccept < ds[i].id
    ensures forall j :: i <= j < |ds| ==> ds[j].id in Apply(k, Batch(pendingAccept)).outstanding
    ensures KernelOk(Apply(k, Batch(pendingAccept)))
    ensures forall j :: 0 <= j < i ==>
              var k2 := Apply(k, Batch(pendingAccept));
              ds[j].id in k2.outstanding || (ds[j].id in k2.settled && FailsOpen(ds[j].verdict, k2.settled[ds[j].id], raw))
    ensures clean ==> forall j :: 0 <= j < i ==>
              var k2 := Apply(k, Batch(pendingAccept));
              ds[j].id in k2.settled && k2.settled[ds[j].id] == ds[j].verdict
  {
    var k2 := Apply(k, Batch(pendingAccept));
    forall j | 0 <= j < i
      ensures ds[j].id in k2.outstanding || (ds[j].id in k2.settled && FailsOpen(ds[j].verdict, k2.settled[ds[j].id], raw))
      ensures clean ==> ds[j].id in k2.settled && k2.settled[ds[j].id] == ds[j].verdict
    {
      assert clean ==> SettledOrPending(ds[j], k, true);
      assert j < i - 1 ==> ds[j].id < ds[i - 1].id;
    }
  }

  /** One read: its decisions, how many sends had failed and how many messages had been sent
      when it began, and whether replacements may also use the raw socket. */
  datatype Read = Read(ds: seq<Decision>, failures: nat, messages: nat, raw: bool)

  /** The read stands before decision i. */
  ghost predicate Reading(q: Queue, r: Read, i: nat)
    reads q
  {
    && Ascending(r.ds) && i <= |r.ds| && q.failures >= r.failures
    && Progress(r.ds, i, q.kernel, q.hasPending, q.pendingAccept, q.failures == r.failures, r.raw)
    && (q.failures == r.failures ==>
          MessagesIn(q.log) + (if q.hasPending then 1 else 0) == r.messages + Individuals(r.ds[..i]) + AcceptRuns(r.ds[..i]))
  }

  lemma ReadBegins(q: Queue, r: Read)
    requires Ascending(r.ds) && KernelOk(q.kernel) && !q.hasPending
    requires forall i :: 0 <= i < |r.ds| ==> r.ds[i].id in q.kernel.outstanding
    requires q.failures == r.failures && MessagesIn(q.log) == r.messages
    ensures Reading(q, r, 0)
  {
    BeginProgress(r.ds, q.kernel, r.raw);
  }

  /** An accept joins the batch. */
  method DeferAccept(q: Queue, ghost r: Read, ghost i: nat, id: nat)
    requires Reading(q, r, i) && i < |r.ds| && r.ds[i].verdict.Accept? && r.ds[i].id == id
    modifies q`pendingAccept, q`hasPending
    ensures Reading(q, r, i + 1)
  {
    AcceptProgress(r.ds, i, q.kernel, q.hasPending, q.pendingAccept, q.failures == r.failures, r.raw);
    assert r.ds[..i + 1][..i] == r.ds[..i];
    q.Accept(id);
  }

  /** Any other decision is sent at once, behind the accepts that were deferred before it. */
  method Settle(q: Queue, ghost r: Read, ghost i: nat, id: nat, v: Verdict) returns (ok: bool)
    requires Reading(q, r, i) && i < |r.ds| && !v.Accept? && r.ds[i] == Decision(id, v)
    modifies q`hasPending, q`kernel, q`log, q`failures
    ensures Reading(q, r, i + 1) && !q.hasPending
    ensures DropsOnly(old(q.kernel), q.kernel, if v == Drop then {id} else {})
    ensures ok ==> q.failures == old(q.failures)
    ensures ok ==> q.log == old(q.log) + (if old(q.hasPending) then [Sent(Batch(q.pendingAccept))] else []) + [Sent(One(id, v))]
    ensures !ok ==> q.failures > old(q.failures)
    ensures !ok ==> q.log == old(q.log) || (old(q.hasPending) && q.log == old(q.log) + [Sent(Batch(q.pendingAccept))])
  {
    hide Progress, KernelOk, DropsOnly;
    ghost var clean := q.failures == r.failures;
    ghost var k, pending, p, log := q.kernel, q.hasPending, q.pendingAccept, q.log;
    assert r.ds[..i + 1][..i] == r.ds[..i];
    ok := q.Verdict(id, v);
    SettleDropsOnly(k, pending, p, id, v);
    NoneDropped(k, if v == Drop then {id} else {});
    DropsMore(k, q.kernel, if v == Drop then {id} else {});
    StillProgress(r.ds, i, k, pending, p, clean, r.raw);
    VerdictProgress(r.ds, i, k, pending, p, q.kernel, ok, q.failures == r.failures, r.raw);
    MessagesConcat(log, [Sent(Batch(p))]);
    MessagesConcat(log + [Sent(Batch(p))], [Sent(One(id, v))]);
    MessagesConcat(log, [Sent(One(id, v))]);
    OneMessage(Batch(p));
    OneMessage(One(id, v));
    assert log + [] == log;
  }

  lemma SettleDropsOnly(k: Kernel, hasPending: bool, pendingAccept: nat, id: nat, v: Verdict)
    ensures var flushed := if Flushes(hasPending, pendingAccept, id) then Apply(k, Batch(pendingAccept)) else k;
            DropsOnly(k, flushed, {}) && DropsOnly(k, Apply(flushed, One(id, v)), if v == Drop then {id} else {})
  {
    ApplyDropsOnly(k, Batch(pendingAccept));
    ApplyDropsOnly(if Flushes(hasPending, pendingAccept, id) then Apply(k, Batch(pendingAccept)) else k, One(id, v));
    hide Apply;
  }

  /** The whole of a read at the granularity of decisions. */
  method ReadDecisions(q: Queue, ds: seq<Decision>, malformed: bool) returns (ok: bool)
    requires Ascending(ds) && KernelOk(q.kernel) && !q.hasPending
    requires forall i :: 0 <= i < |ds| ==> ds[i].id in q.kernel.outstanding
    modifies q
    ensures KernelOk(q.kernel)
    // whatever sends fail: nobody gets anything but its own verdict or an accept
    ensures forall i :: 0 <= i < |ds| && ds[i].id in q.kernel.settled ==> FailsOpen(ds[i].verdict, q.kernel.settled[ds[i].id], false)
    // with successful sends: everybody gets exactly its own, and nobody is left waiting,
    // unless the read ended in a malformed message behind a deferred accept
    ensures q.failures == old(q.failures) && !malformed ==>
              ok && !q.hasPending && forall i :: 0 <= i < |ds| ==> ds[i].id in q.kernel.settled && q.kernel.settled[ds[i].id] == ds[i].verdict
    ensures q.failures == old(q.failures) && malformed ==>
              !ok && (q.hasPending <==> |ds| > 0 && ds[|ds| - 1].verdict.Accept?)
    // one message per individual verdict and one per maximal run of accepts
    ensures q.failures == old(q.failures) && !malformed ==>
              MessagesIn(q.log) == MessagesIn(old(q.log)) + Individuals(ds) + AcceptRuns(ds)
  {
    ghost var r := Read(ds, q.failures, MessagesIn(q.log), false);
    ReadBegins(q, r);
    var i := 0;
    while i < |ds|
      invariant 0 <= i <= |ds| && Reading(q, r, i)
    {
      if ds[i].verdict.Accept? {
        DeferAccept(q, r, i, ds[i].id);
      } else {
        var sent := Settle(q, r, i, ds[i].id, ds[i].verdict);
      }
      i := i + 1;
    }
    assert ds[..i] == ds;
    if malformed {
      return false;
    }
    ok := Finish(q, r);
  }

  function DecisionsOf(ps: seq<Netlink.Packet>, decide: Netlink.Packet -> Verdict): seq<Decision> {
    seq(|ps|, i requires 0 <= i < |ps| => Decision(ps[i].id, decide(ps[i])))
  }

  /** queue.read on the bytes of one read: every packet found is decided in turn, and what was
      deferred is flushed unless the walk met a malformed message. Cancelled after `limit`
      messages, it decides their packets only, and flushes. */
  method ReadBuffer(q: Queue, b: Netlink.Buffer, limit: Option<nat>, decide: Netlink.Packet -> Verdict)
    returns (ds: seq<Decision>, ok: bool)
    requires limit != Some(0)
    requires Ascending(DecisionsOf(Netlink.Messages(b, None).packets, decide)) && KernelOk(q.kernel) && !q.hasPending
    requires forall p :: p in Netlink.Messages(b, None).packets ==> p.id in q.kernel.outstanding
    modifies q
    ensures KernelOk(q.kernel) && ds == DecisionsOf(Netlink.Messages(b, limit).packets, decide)
    ensures forall i :: 0 <= i < |ds| && ds[i].id in q.kernel.settled ==> FailsOpen(ds[i].verdict, q.kernel.settled[ds[i].id], false)
    ensures q.failures == old(q.failures) ==> (ok <==> Netlink.Messages(b, limit).complete)
    ensures q.failures == old(q.failures) && ok ==>
              !q.hasPending && forall i :: 0 <= i < |ds| ==> ds[i].id in q.kernel.settled && q.kernel.settled[ds[i].id] == ds[i].verdict
    ensures q.failures == old(q.failures) && !ok ==> (q.hasPending <==> |ds| > 0 && ds[|ds| - 1].verdict.Accept?)
  {
    var seen, walked := Netlink.ForEachPacket(b, limit);
    Netlink.FirstMessages(b, limit);
    ds := DecisionsOf(seen, decide);
    forall i | 0 <= i < |ds|
      ensures ds[i].id in q.kernel.outstanding
    {
      assert seen[i] == Netlink.Messages(b, None).packets[i];
    }
    assert forall i :: 0 <= i < |ds| ==> ds[i] == DecisionsOf(Netlink.Messages(b, None).packets, decide)[i];
    ok := ReadDecisions(q, ds, !walked);
  }

  /** The end of a read: what was deferred is flushed. */
  method Finish(q: Queue, ghost r: Read) returns (ok: bool)
    requires Reading(q, r, |r.ds|)
    modifies q`hasPending, q`kernel, q`log, q`failures
    ensures KernelOk(q.kernel) && !q.hasPending && q.failures >= r.failures
    ensures DropsOnly(old(q.kernel), q.kernel, {}) && old(q.log) <= q.log
    ensures q.failures >= old(q.failures)
    ensures q.failures == old(q.failures) ==>
              q.log == old(q.log) + (if old(q.hasPending) then [Sent(Batch(old(q.pendingAccept)))] else [])
    ensures forall i :: 0 <= i < |r.ds| && r.ds[i].id in q.kernel.settled ==> FailsOpen(r.ds[i].verdict, q.kernel.settled[r.ds[i].id], r.raw)
    ensures q.failures == r.failures ==>
              ok && forall i :: 0 <= i < |r.ds| ==> r.ds[i].id in q.kernel.settled && q.kernel.settled[r.ds[i].id] == r.ds[i].verdict
    ensures q.failures == r.failures ==> MessagesIn(q.log) == r.messages + Individuals(r.ds) + AcceptRuns(r.ds)
  {
    ghost var k, pending, p, log := q.kernel, q.hasPending, q.pendingAccept, q.log;
    assert r.ds[..|r.ds|] == r.ds;
    ok := q.Flush();
    ApplyDropsOnly(k, Batch(p));
    if pending {
      BatchProgress(r.ds, |r.ds|, k, p, q.failures == r.failures, r.raw);
      MessagesConcat(log, [Sent(Batch(p))]);
      OneMessage(Batch(p));
    }
    forall i | 0 <= i < |r.ds|
      ensures q.failures == r.failures ==> r.ds[i].id in q.kernel.settled && q.kernel.settled[r.ds[i].id] == r.ds[i].verdict
    {
      assert q.failures == r.failures && !pending ==> SettledOrPending(r.ds[i], k, pending);
    }
  }

  lemma VerdictProgress(ds: seq<Decision>, i: nat, k: Kernel, hasPending: bool, pendingAccept: nat, k2: Kernel, ok: bool, clean: bool, raw: bool)
    requires Ascending(ds) && i < |ds| && !ds[i].verdict.Accept?
    requires Progress(ds, i, k, hasPending, pendingAccept, clean, raw) && (clean ==> ok)
    requires var flushed := if Flushes(hasPending, pendingAccept, ds[i].id) then Apply(k, Batch(pendingAccept)) else k;
             if ok then k2 == Apply(flushed, One(ds[i].id, ds[i].verdict)) else k2 == k || k2 == flushed
    ensures hasPending ==> Flushes(hasPending, pendingAccept, ds[i].id)
    ensures Progress(ds, i + 1, k2, false, pendingAccept, clean, raw)
  {
    if hasPending {
      BatchProgress(ds, i, k, pendingAccept, clean, raw);
    }
    var flushed := if hasPending then Apply(k, Batch(pendingAccept)) else k;
    forall j | 0 <= j < i
      ensures ds[j].id != ds[i].id
      ensures clean ==> ds[j].id in flushed.settled && flushed.settled[ds[j].id] == ds[j].verdict
    {
      assert clean && !hasPending ==> SettledOrPending(ds[j], k, hasPending);
    }
  }

  // ---------------------------------------------------------------- after a verdict was refused

  lemma LateAcceptProgress(r: Read, i: nat, k: Kernel, p: nat)
    requires Ascending(r.ds) && i < |r.ds| && Progress(r.ds, i + 1, k, false, p, false, r.raw)
    ensures Progress(r.ds, i + 1, k, true, r.ds[i].id, false, r.raw)
  {
  }

  /** The packet whose verdict was refused joins the batch after all. */
  method AcceptInstead(q: Queue, ghost r: Read, ghost i: nat, id: nat)
    requires Reading(q, r, i + 1) && i < |r.ds| && r.ds[i].id == id && !q.hasPending && q.failures > r.failures
    modifies q`pendingAccept, q`hasPending
    ensures Reading(q, r, i + 1)
  {
    LateAcceptProgress(r, i, q.kernel, q.pendingAccept);
    q.Accept(id);
  }

  /** The packet whose replacement was refused is dropped, its replacement having gone out
      through the raw socket. */
  method DropInstead(q: Queue, ghost r: Read, ghost i: nat, id: nat) returns (ok: bool)
    requires Reading(q, r, i + 1) && i < |r.ds| && r.ds[i].id == id && !q.hasPending && q.failures > r.failures
    requires r.raw && r.ds[i].verdict.Replace?
    modifies q`hasPending, q`kernel, q`log, q`failures
    ensures Reading(q, r, i + 1) && !q.hasPending && q.failures >= old(q.failures)
    ensures DropsOnly(old(q.kernel), q.kernel, {id})
    ensures q.log == old(q.log) || q.log == old(q.log) + [Sent(One(id, Drop))]
  {
    ghost var k := q.kernel;
    ok := q.Verdict(id, Drop);
    ApplyDropsOnly(k, One(id, Drop));
    LateDropProgress(r, i, k, q.pendingAccept);
  }

  lemma LateDropProgress(r: Read, i: nat, k: Kernel, p: nat)
    requires Ascending(r.ds) && i < |r.ds| && Progress(r.ds, i + 1, k, false, p, false, r.raw)
    requires r.raw && r.ds[i].verdict.Replace?
    ensures Progress(r.ds, i + 1, Apply(k, One(r.ds[i].id, Drop)), false, p, false, r.raw)
  {
    var k2 := Apply(k, One(r.ds[i].id, Drop));
    forall j | 0 <= j < i + 1
      ensures r.ds[j].id in k2.outstanding || (r.ds[j].id in k2.settled && FailsOpen(r.ds[j].verdict, k2.settled[r.ds[j].id], r.raw))
    {
      assert j < i ==> r.ds[j].id != r.ds[i].id;
    }
  }
}
