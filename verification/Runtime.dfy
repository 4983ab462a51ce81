/** The verdict path: one packet through its generation's engine and back to the kernel. */
module Runtimes {
  import opened Wrappers
  import opened Queues
  import Marks

  datatype Direction = Outbound | Inbound

  /** One queued packet as the parser hands it over. */
  datatype Packet = Packet(id: nat, generationMark: bv32, payload: Bytes, truncated: bool)

  /** What the engine of the packet's generation makes of it; the strategy library decides. */
  datatype Answer = NoGeneration | Failed | Output(packets: seq<Bytes>)

  datatype Outcome = Unchanged | Dropped | Tampered | Expanded

  datatype Result = Result(outcome: Outcome, packets: seq<Bytes>)

  /** The engine's classification of what the strategy put out. */
  function Classify(raw: Bytes, out: seq<Bytes>): Result {
    if |out| == 0 then Result(Dropped, [])
    else if |out| == 1 then Result(if out[0] == raw then Unchanged else Tampered, out)
    else Result(Expanded, out)
  }

  /** The verdict a packet is due, by what its strategy put out: nothing drops it, itself
      leaves it alone, and otherwise the last packet put out replaces it; inbound, where there
      is no raw socket for the others, only a single packet does. */
  function Due(dir: Direction, raw: Bytes, out: seq<Bytes>): Verdict {
    if out == [] then Drop
    else if dir.Outbound? then (if out == [raw] then Accept else Replace(out[|out| - 1]))
    else if |out| == 1 && out[0] != raw then Replace(out[0])
    else Accept
  }

  /** What a packet is decided to be, before anything can fail. */
  function Decided(dir: Direction, p: Packet, answer: Answer): Verdict {
    if Marks.ID(p.generationMark).None? || p.truncated || |p.payload| == 0 || !answer.Output? then Accept
    else Due(dir, p.payload, answer.packets)
  }

  /** The verdict by the engine's classification. */
  function Wanted(dir: Direction, r: Result): Verdict {
    match dir
    case Outbound =>
      if r.outcome.Unchanged? then Accept
      else if |r.packets| == 0 then Drop
      else Replace(r.packets[|r.packets| - 1])
    case Inbound =>
      (match r.outcome
       case Unchanged => Accept
       case Dropped => Drop
       case Tampered => if |r.packets| == 0 then Accept else Replace(r.packets[0])
       case Expanded => Accept)
  }

  /** The classification says what the strategy put out, and keeps all of it. */
  lemma ClassifyMeans(raw: Bytes, out: seq<Bytes>)
    ensures Classify(raw, out).packets == out
    ensures Classify(raw, out).outcome == Dropped <==> out == []
    ensures Classify(raw, out).outcome == Unchanged <==> out == [raw]
    ensures Classify(raw, out).outcome == Tampered <==> |out| == 1 && out[0] != raw
    ensures Classify(raw, out).outcome == Expanded <==> |out| > 1
  {
  }

  lemma WantedIsDue(dir: Direction, raw: Bytes, out: seq<Bytes>)
    ensures Wanted(dir, Classify(raw, out)) == Due(dir, raw, out)
  {
  }

  /** Manipulation is decided on by the strategy alone, and always: a packet that its engine
      can handle is dropped if and only if the strategy put nothing out, and replaced if and
      only if it put something else out, inbound exactly one packet; any other packet is left
      alone. */
  lemma DecisionsFollowTheStrategy(p: Packet, answer: Answer)
    requires Marks.ID(p.generationMark).Some? && !p.truncated && p.payload != []
    ensures forall dir :: Decided(dir, p, answer) == Drop <==> answer == Output([])
    ensures Decided(Outbound, p, answer).Replace? <==> answer.Output? && answer.packets != [] && answer.packets != [p.payload]
    ensures Decided(Outbound, p, answer).Replace? ==>
              Decided(Outbound, p, answer).payload == answer.packets[|answer.packets| - 1]
    ensures forall x :: Decided(Inbound, p, answer) == Replace(x) <==> answer == Output([x]) && x != p.payload
  {
    hide Marks.ID;
  }

  lemma OthersAreLeftAlone(dir: Direction, p: Packet, answer: Answer)
    requires Marks.ID(p.generationMark).None? || p.truncated || p.payload == [] || !answer.Output?
    ensures Decided(dir, p, answer) == Accept
  {
  }

  /** What leaves the box for one packet while nothing fails: the packets its strategy put out
      before the last, in order, the accepts that were deferred before it, and its verdict. */
  ghost function Leaves(dir: Direction, p: Packet, answer: Answer, deferred: Option<nat>): seq<Event> {
    var v := Decided(dir, p, answer);
    if v.Accept? then []
    else
      (if dir.Outbound? && v.Replace? && answer.Output? && answer.packets != []
       then Injections(answer.packets[..|answer.packets| - 1]) else [])
      + Batched(deferred) + [Sent(One(p.id, v))]
  }

  /** What is deferred after some packets: the last one, if it was accepted. */
  ghost function Deferred(dir: Direction, ps: seq<Packet>, answers: seq<Answer>): Option<nat>
    requires |ps| == |answers|
  {
    var n := |ps| - 1;
    if ps != [] && Decided(dir, ps[n], answers[n]).Accept? then Some(ps[n].id) else None
  }

  /** What leaves the box for some packets, before the final flush. */
  ghost function Transcript(dir: Direction, ps: seq<Packet>, answers: seq<Answer>): seq<Event>
    requires |ps| == |answers|
  {
    if ps == [] then []
    else
      var n := |ps| - 1;
      Transcript(dir, ps[..n], answers[..n]) + Leaves(dir, ps[n], answers[n], Deferred(dir, ps[..n], answers[..n]))
  }

  lemma OneMoreLeaves(dir: Direction, ps: seq<Packet>, answers: seq<Answer>, i: nat)
    requires |ps| == |answers| && i < |ps|
    ensures Transcript(dir, ps[..i + 1], answers[..i + 1]) ==
            Transcript(dir, ps[..i], answers[..i]) + Leaves(dir, ps[i], answers[i], Deferred(dir, ps[..i], answers[..i]))
  {
    assert ps[..i + 1][..i] == ps[..i] && answers[..i + 1][..i] == answers[..i];
    hide Leaves, Deferred;
  }

  /** A batch for what is deferred. */
  ghost function Batched(deferred: Option<nat>): seq<Event> {
    if deferred.Some? then [Sent(Batch(deferred.value))] else []
  }

  datatype Totals = Totals(accepted: nat, dropped: nat, modified: nat)

  ghost function OneMore(t: Totals, v: Verdict): Totals {
    match v
    case Accept => t.(accepted := t.accepted + 1)
    case Drop => t.(dropped := t.dropped + 1)
    case Replace(_) => t.(modified := t.modified + 1)
  }

  ghost function Plus(a: Totals, b: Totals): Totals {
    Totals(a.accepted + b.accepted, a.dropped + b.dropped, a.modified + b.modified)
  }

  ghost function Tally(ds: seq<Decision>): Totals {
    if ds == [] then Totals(0, 0, 0) else OneMore(Tally(ds[..|ds| - 1]), ds[|ds| - 1].verdict)
  }

  function Injections(packets: seq<Bytes>): seq<Event> {
    if packets == [] then [] else Injections(packets[..|packets| - 1]) + [Injected(packets[|packets| - 1])]
  }

  lemma {:induction false} InjectionsAreNoMessages(log: seq<Event>, packets: seq<Bytes>)
    ensures MessagesIn(log + Injections(packets)) == MessagesIn(log)
  {
    if packets == [] {
      assert log + [] == log;
    } else {
      var n := |packets| - 1;
      InjectionsAreNoMessages(log, packets[..n]);
      assert log + Injections(packets) == log + Injections(packets[..n]) + [Injected(packets[n])];
      InjectionIsNoMessage(log + Injections(packets[..n]), packets[n]);
    }
  }

  lemma InjectionIsNoMessage(log: seq<Event>, p: Bytes)
    ensures MessagesIn(log + [Injected(p)]) == MessagesIn(log)
  {
    assert (log + [Injected(p)])[..|log|] == log;
  }

  /** One of the packets has gone out through the raw socket since the log was h. */
  ghost predicate Went(h: seq<Event>, log: seq<Event>, packets: seq<Bytes>) {
    h <= log && exists p :: p in packets && Injected(p) in log[|h|..]
  }

  lemma WentBefore(h: seq<Event>, mid: seq<Event>, now: seq<Event>, log: seq<Event>, packets: seq<Bytes>, all: seq<Bytes>)
    requires h <= mid && now <= log && Went(mid, now, packets) && forall p :: p in packets ==> p in all
    ensures Went(h, log, all)
  {
    var p :| p in packets && Injected(p) in now[|mid|..];
    var k :| |mid| <= k < |now| && now[k] == Injected(p);
    assert log[|h|..][k - |h|] == Injected(p);
  }

  /** No black hole: what became of a packet is a drop only if its strategy put nothing out,
      or something it put out has gone through the raw socket. */
  ghost predicate NoHole(k: Kernel, id: nat, answer: Answer, h: seq<Event>, log: seq<Event>) {
    Queues.Dropped(k, id) ==> answer.Output? && (answer.packets == [] || Went(h, log, answer.packets))
  }

  lemma NoHoleStays(k: Kernel, k2: Kernel, ids: set<nat>, id: nat, answer: Answer, h: seq<Event>, now: seq<Event>, log: seq<Event>)
    requires NoHole(k, id, answer, h, now) && DropsOnly(k, k2, ids) && id !in ids && now <= log
    ensures NoHole(k2, id, answer, h, log)
  {
    if Queues.Dropped(k2, id) && answer.packets != [] {
      WentBefore(h, h, now, log, answer.packets, answer.packets);
    }
  }

  ghost predicate Counted(v: Verdict, before: Totals, now: Totals) {
    now == OneMore(before, v)
  }

  /** The messages of one verdict. */
  ghost function VerdictEvents(id: nat, v: Verdict, hasPending: bool, pendingAccept: nat): seq<Event> {
    if v.Accept? then [] else (if hasPending then [Sent(Batch(pendingAccept))] else []) + [Sent(One(id, v))]
  }

  lemma NoHolesStay(ps: seq<Packet>, answers: seq<Answer>, i: nat, k: Kernel, k2: Kernel, ids: set<nat>,
                    h: seq<Event>, now: seq<Event>, log: seq<Event>)
    requires i <= |ps| == |answers| && DropsOnly(k, k2, ids) && now <= log
    requires forall j :: 0 <= j < i ==> ps[j].id !in ids && NoHole(k, ps[j].id, answers[j], h, now)
    ensures forall j :: 0 <= j < i ==> NoHole(k2, ps[j].id, answers[j], h, log)
  {
    forall j | 0 <= j < i
      ensures NoHole(k2, ps[j].id, answers[j], h, log)
    {
      NoHoleStays(k, k2, ids, ps[j].id, answers[j], h, now, log);
    }
  }

  lemma NoHoleSince(k: Kernel, id: nat, answer: Answer, h: seq<Event>, mid: seq<Event>, log: seq<Event>)
    requires h <= mid && NoHole(k, id, answer, mid, log)
    ensures NoHole(k, id, answer, h, log)
  {
    if Queues.Dropped(k, id) && answer.packets != [] {
      WentBefore(h, mid, log, log, answer.packets, answer.packets);
    }
  }

  lemma NothingYet(dir: Direction, ps: seq<Packet>, answers: seq<Answer>, ds: seq<Decision>, t: Totals)
    requires |ps| == |answers|
    ensures Transcript(dir, ps[..0], answers[..0]) == [] && Plus(t, Tally(ds[..0])) == t
  {
  }

  lemma OneMoreCounted(ds: seq<Decision>, i: nat, before: Totals, t: Totals, now: Totals)
    requires i < |ds| && t == Plus(before, Tally(ds[..i])) && Counted(ds[i].verdict, t, now)
    ensures now == Plus(before, Tally(ds[..i + 1]))
  {
    assert ds[..i + 1][..i] == ds[..i];
  }

  class Runtime {
    const q: Queue
    const dir: Direction
    var accepted: nat
    var dropped: nat
    var modified: nat
    var reinjected: nat
    var injectFails: nat
    var truncated: nat
    /** Calls of the controller's integrity callback. */
    var integrityFailures: nat

    constructor (q: Queue, dir: Direction)
      ensures this.q == q && this.dir == dir && Handled() == 0
      ensures reinjected == injectFails == truncated == integrityFailures == 0
    {
      this.q, this.dir := q, dir;
      accepted, dropped, modified, reinjected, injectFails, truncated, integrityFailures := 0, 0, 0, 0, 0, 0, 0;
    }

    /** The counters every handled packet shows up in exactly once. */
    function Handled(): nat
      reads this`accepted, this`dropped, this`modified
    {
      accepted + dropped + modified
    }

    function Counts(): Totals
      reads this`accepted, this`dropped, this`modified
    {
      Totals(accepted, dropped, modified)
    }

    /** One packet through the raw socket. */
    method Inject(p: Bytes, ghost r: Read, ghost i: nat) returns (ok: bool)
      requires Reading(q, r, i)
      modifies q`log, this`reinjected, this`injectFails
      ensures Reading(q, r, i)
      ensures ok ==> Went(old(q.log), q.log, [p])
      ensures ok ==> q.log == old(q.log) + [Injected(p)] && reinjected == old(reinjected) + 1 && injectFails == old(injectFails)
      ensures !ok ==> q.log == old(q.log) && reinjected == old(reinjected) && injectFails == old(injectFails) + 1
    {
      InjectionIsNoMessage(q.log, p);
      ok := *;
      if ok {
        q.log := q.log + [Injected(p)];
        reinjected := reinjected + 1;
        assert q.log[|old(q.log)|..][0] == Injected(p) && p in [p];
      } else {
        injectFails := injectFails + 1;
      }
    }

    method InjectExtras(extras: seq<Bytes>, ghost r: Read, ghost i: nat) returns (injected: nat)
      requires Reading(q, r, i)
      modifies q`log, this`reinjected, this`injectFails
      ensures Reading(q, r, i)
      ensures injected <= |extras|
      ensures reinjected == old(reinjected) + injected && injectFails == old(injectFails) + |extras| - injected
      ensures injected == |extras| ==> q.log == old(q.log) + Injections(extras)
      ensures old(q.log) <= q.log && (injected > 0 ==> Went(old(q.log), q.log, extras))
    {
      hide Reading, Went;
      injected := 0;
      var k := 0;
      while k < |extras|
        invariant 0 <= k <= |extras| && injected <= k && Reading(q, r, i)
        invariant reinjected == old(reinjected) + injected && injectFails == old(injectFails) + k - injected
        invariant injected == k ==> q.log == old(q.log) + Injections(extras[..k])
        invariant old(q.log) <= q.log && (injected > 0 ==> Went(old(q.log), q.log, extras))
      {
        ghost var log := q.log;
        var ok := Inject(extras[k], r, i);
        if ok {
          injected := injected + 1;
          WentBefore(old(q.log), log, q.log, q.log, [extras[k]], extras);
        }
        assert extras[..k + 1][..k] == extras[..k];
        k := k + 1;
      }
      assert extras[..k] == extras;
    }

    method Accept(id: nat, ghost r: Read, ghost i: nat)
      requires Reading(q, r, i) && i < |r.ds| && r.ds[i] == Decision(id, Queues.Accept)
      modifies q`pendingAccept, q`hasPending, this`accepted
      ensures Reading(q, r, i + 1) && accepted == old(accepted) + 1
    {
      DeferAccept(q, r, i, id);
      accepted := accepted + 1;
    }

    method Drop(id: nat, ghost r: Read, ghost i: nat)
      requires Reading(q, r, i) && i < |r.ds| && r.ds[i] == Decision(id, Queues.Drop)
      modifies q`hasPending, q`kernel, q`log, q`failures, this`dropped
      ensures Reading(q, r, i + 1) && dropped == old(dropped) + 1
      ensures DropsOnly(old(q.kernel), q.kernel, {id}) && old(q.log) <= q.log
      ensures q.failures >= old(q.failures)
      ensures q.failures == old(q.failures) ==>
                q.log == old(q.log) + (if old(q.hasPending) then [Sent(Batch(old(q.pendingAccept)))] else []) + [Sent(One(id, Queues.Drop))]
    {
      var ok := Settle(q, r, i, id, Queues.Drop);
      dropped := dropped + 1;
    }

    /** verdictOutbound. An original is dropped only if the strategy put nothing out, or
        something it put out went through the raw socket. */
    method VerdictOutbound(id: nat, res: Result, ghost r: Read, ghost i: nat)
      requires Reading(q, r, i) && i < |r.ds| && r.raw && r.ds[i] == Decision(id, Wanted(Outbound, res))
      modifies q, this`accepted, this`dropped, this`modified, this`reinjected, this`injectFails
      ensures Reading(q, r, i + 1)
      ensures Handled() == old(Handled()) + 1
      ensures DropsOnly(old(q.kernel), q.kernel, {id}) && old(q.log) <= q.log
      ensures Queues.Dropped(q.kernel, id) ==> |res.packets| == 0 || Went(old(q.log), q.log, res.packets)
      ensures dropped > old(dropped) ==> |res.packets| == 0 || reinjected > old(reinjected)
      ensures res.outcome == Unchanged ==> accepted == old(accepted) + 1 && reinjected == old(reinjected)
      ensures q.failures >= old(q.failures) && injectFails >= old(injectFails)
      ensures q.failures == old(q.failures) && injectFails == old(injectFails) ==>
                && Counted(Wanted(Outbound, res), old(Counts()), Counts())
                && reinjected == old(reinjected) + (if Wanted(Outbound, res).Replace? then |res.packets| - 1 else 0)
                && q.log == old(q.log)
                         + (if Wanted(Outbound, res).Replace? then Injections(res.packets[..|res.packets| - 1]) else [])
                         + VerdictEvents(id, Wanted(Outbound, res), old(q.hasPending), old(q.pendingAccept))
    {
      hide Reading, Went, DropsOnly, Injections;
      Undecided(q, r, i);
      NoneDropped(q.kernel, {id});
      if res.outcome == Unchanged {
        Accept(id, r, i);
      } else if |res.packets| == 0 {
        Drop(id, r, i);
      } else {
        SendReplacements(id, res.packets, r, i);
      }
    }

    /** Everything but the last replacement goes through the raw socket, in order; the last one
        replaces the packet. */
    method SendReplacements(id: nat, packets: seq<Bytes>, ghost r: Read, ghost i: nat)
      requires Reading(q, r, i) && i < |r.ds| && r.raw && |packets| > 0
      requires r.ds[i] == Decision(id, Replace(packets[|packets| - 1]))
      modifies q, this`accepted, this`dropped, this`modified, this`reinjected, this`injectFails
      ensures Reading(q, r, i + 1)
      ensures Handled() == old(Handled()) + 1
      ensures DropsOnly(old(q.kernel), q.kernel, {id}) && old(q.log) <= q.log
      ensures Queues.Dropped(q.kernel, id) ==> Went(old(q.log), q.log, packets)
      ensures dropped > old(dropped) ==> reinjected > old(reinjected)
      ensures q.failures >= old(q.failures) && injectFails >= old(injectFails)
      ensures q.failures == old(q.failures) && injectFails == old(injectFails) ==>
                && accepted == old(accepted) && dropped == old(dropped) && modified == old(modified) + 1
                && reinjected == old(reinjected) + |packets| - 1
                && q.log == old(q.log) + Injections(packets[..|packets| - 1])
                         + (if old(q.hasPending) then [Sent(Batch(old(q.pendingAccept)))] else [])
                         + [Sent(One(id, Replace(packets[|packets| - 1])))]
    {
      hide Reading, Went, DropsOnly, Injections;
      Undecided(q, r, i);
      ghost var k := q.kernel;
      NoneDropped(k, {id});
      var extras, last := packets[..|packets| - 1], packets[|packets| - 1];
      var injected := InjectExtras(extras, r, i);
      ghost var log := q.log;
      if injected > 0 {
        WentBefore(old(q.log), old(q.log), log, log, extras, packets);
      }
      var ok := Settle(q, r, i, id, Replace(last));
      DropsOnlyJoins(k, k, q.kernel, id);
      OnlyItself(k, q.kernel, id);
      if ok {
        modified := modified + 1;
        return;
      }
      if injected > 0 {
        WentBefore(old(q.log), old(q.log), log, q.log, packets, packets);
      }
      ghost var k1 := q.kernel;
      ReplaceRefused(id, packets, injected, r, i, old(q.log));
      DropsOnlyJoins(k, k1, q.kernel, id);
    }

    /** The replacement could not be sent as a verdict: it goes through the raw socket, and the
        original is accepted after all if nothing has gone that way. */
    method ReplaceRefused(id: nat, packets: seq<Bytes>, injected: nat, ghost r: Read, ghost i: nat, ghost h: seq<Event>)
      requires Reading(q, r, i + 1) && i < |r.ds| && r.raw && r.ds[i].id == id && r.ds[i].verdict.Replace?
      requires !q.hasPending && q.failures > r.failures && |packets| > 0 && !Queues.Dropped(q.kernel, id)
      requires h <= q.log && (injected > 0 ==> Went(h, q.log, packets))
      modifies q, this`accepted, this`dropped, this`reinjected, this`injectFails
      ensures Reading(q, r, i + 1) && q.failures > r.failures
      ensures Handled() == old(Handled()) + 1 && q.failures >= old(q.failures)
      ensures DropsOnly(old(q.kernel), q.kernel, {id}) && old(q.log) <= q.log
      ensures Queues.Dropped(q.kernel, id) ==> Went(h, q.log, packets)
      ensures dropped > old(dropped) ==> injected > 0 || reinjected > old(reinjected)
      ensures reinjected >= old(reinjected) && injectFails >= old(injectFails)
    {
      var last := packets[|packets| - 1];
      var reinjectedLast := Inject(last, r, i + 1);
      ghost var log := q.log;
      if reinjectedLast {
        WentBefore(h, old(q.log), log, log, [last], packets);
      } else if injected == 0 {
        AcceptInstead(q, r, i, id);
        accepted := accepted + 1;
        return;
      }
      var sent := DropInstead(q, r, i, id);
      WentBefore(h, h, log, q.log, packets, packets);
      dropped := dropped + 1;
    }

    /** verdictInbound: one packet in, one out, no raw socket. */
    method VerdictInbound(id: nat, res: Result, ghost r: Read, ghost i: nat)
      requires Reading(q, r, i) && i < |r.ds| && r.ds[i] == Decision(id, Wanted(Inbound, res))
      requires res.outcome.Tampered? ==> |res.packets| > 0
      modifies q, this`accepted, this`dropped, this`modified
      ensures Reading(q, r, i + 1)
      ensures Handled() == old(Handled()) + 1
      ensures DropsOnly(old(q.kernel), q.kernel, {id}) && old(q.log) <= q.log
      ensures Queues.Dropped(q.kernel, id) ==> res.outcome == Dropped
      ensures dropped > old(dropped) ==> res.outcome == Dropped
      ensures Wanted(Inbound, res) == Queues.Accept ==> accepted == old(accepted) + 1
      ensures q.failures >= old(q.failures)
      ensures q.failures == old(q.failures) ==> Counted(Wanted(Inbound, res), old(Counts()), Counts())
      ensures q.failures == old(q.failures) ==>
                q.log == old(q.log) + VerdictEvents(id, Wanted(Inbound, res), old(q.hasPending), old(q.pendingAccept))
    {
      match res.outcome {
        case Unchanged => Accept(id, r, i);
        case Dropped => Drop(id, r, i);
        case Tampered =>
          var ok := Settle(q, r, i, id, Replace(res.packets[0]));
          if ok {
            modified := modified + 1;
          } else {
            AcceptInstead(q, r, i, id);
            accepted := accepted + 1;
          }
        case Expanded => Accept(id, r, i);
      }
    }

    lemma Undecided(q: Queue, r: Read, i: nat)
      requires Reading(q, r, i) && i < |r.ds|
      ensures !Queues.Dropped(q.kernel, r.ds[i].id) && q.failures >= r.failures
    {
    }

    /** handle. */
    method Handle(p: Packet, answer: Answer, ghost r: Read, ghost i: nat)
      requires Reading(q, r, i) && i < |r.ds| && r.raw && r.ds[i] == Decision(p.id, Decided(dir, p, answer))
      modifies q, this
      ensures Reading(q, r, i + 1)
      // exact accounting
      ensures Handled() == old(Handled()) + 1
      // no black hole
      ensures dropped > old(dropped) ==> answer == Output([]) || reinjected > old(reinjected)
      ensures DropsOnly(old(q.kernel), q.kernel, {p.id}) && old(q.log) <= q.log
      ensures NoHole(q.kernel, p.id, answer, old(q.log), q.log)
      // anything but a strategy's own output leaves the packet alone
      ensures Decided(dir, p, answer) == Queues.Accept ==> accepted == old(accepted) + 1 && reinjected == old(reinjected)
      ensures integrityFailures == old(integrityFailures)
                + (if Marks.ID(p.generationMark).None? || (!p.truncated && p.payload != [] && answer == NoGeneration) then 1 else 0)
      ensures truncated == old(truncated) + (if Marks.ID(p.generationMark).Some? && p.truncated then 1 else 0)
      // and while nothing fails exactly this happens
      ensures q.failures >= old(q.failures) && injectFails >= old(injectFails)
      ensures q.failures == old(q.failures) && injectFails == old(injectFails) ==>
                && Counted(Decided(dir, p, answer), old(Counts()), Counts())
                && q.log == old(q.log)
                         + Leaves(dir, p, answer, if old(q.hasPending) then Some(old(q.pendingAccept)) else None)
    {
      hide Marks.ID;
      Undecided(q, r, i);
      if Marks.ID(p.generationMark).None? {
        Accept(p.id, r, i);
        integrityFailures := integrityFailures + 1;
        return;
      }
      if p.truncated {
        truncated := truncated + 1;
        Accept(p.id, r, i);
        return;
      }
      if |p.payload| == 0 {
        Accept(p.id, r, i);
        return;
      }
      if !answer.Output? {
        Accept(p.id, r, i);
        if answer.NoGeneration? {
          integrityFailures := integrityFailures + 1;
        }
        return;
      }
      Carry(p, answer.packets, r, i);
    }

    /** The end of handle: what the engine has put out is carried out. */
    method Carry(p: Packet, out: seq<Bytes>, ghost r: Read, ghost i: nat)
      requires Reading(q, r, i) && i < |r.ds| && r.raw && r.ds[i] == Decision(p.id, Due(dir, p.payload, out))
      modifies q, this`accepted, this`dropped, this`modified, this`reinjected, this`injectFails
      ensures Reading(q, r, i + 1)
      ensures Handled() == old(Handled()) + 1
      ensures dropped > old(dropped) ==> out == [] || reinjected > old(reinjected)
      ensures DropsOnly(old(q.kernel), q.kernel, {p.id}) && old(q.log) <= q.log
      ensures Queues.Dropped(q.kernel, p.id) ==> out == [] || Went(old(q.log), q.log, out)
      ensures Due(dir, p.payload, out) == Queues.Accept ==> accepted == old(accepted) + 1 && reinjected == old(reinjected)
      ensures q.failures >= old(q.failures) && injectFails >= old(injectFails)
      ensures q.failures == old(q.failures) && injectFails == old(injectFails) ==>
                && Counted(Due(dir, p.payload, out), old(Counts()), Counts())
                && q.log == old(q.log)
                         + (if dir.Outbound? && Due(dir, p.payload, out).Replace? then Injections(out[..|out| - 1]) else [])
                         + VerdictEvents(p.id, Due(dir, p.payload, out), old(q.hasPending), old(q.pendingAccept))
    {
      hide Reading, DropsOnly, Went, Injections, Counted, VerdictEvents, Handled, Counts;
      var res := Classify(p.payload, out);
      ClassifyMeans(p.payload, out);
      WantedIsDue(dir, p.payload, out);
      if dir.Outbound? {
        VerdictOutbound(p.id, res, r, i);
      } else {
        VerdictInbound(p.id, res, r, i);
      }
    }

    ghost function DecisionsOf(ps: seq<Packet>, answers: seq<Answer>): seq<Decision>
      requires |ps| == |answers|
    {
      seq(|ps|, i requires 0 <= i < |ps| => Decision(ps[i].id, Decided(dir, ps[i], answers[i])))
    }

    /** While no send has failed, what is pending is what the packets handled have deferred. */
    lemma DeferredIs(q: Queue, r: Read, i: nat, ps: seq<Packet>, answers: seq<Answer>)
      requires |ps| == |answers| && r.ds == DecisionsOf(ps, answers) && Reading(q, r, i)
      ensures q.failures == r.failures ==>
                (if q.hasPending then Some(q.pendingAccept) else None) == Deferred(dir, ps[..i], answers[..i])
    {
      hide Decided;
    }

    /** How far a read has come: i packets have been handled since the log was h. */
    ghost predicate Underway(ps: seq<Packet>, answers: seq<Answer>, r: Read, i: nat, h: seq<Event>, fails: nat, before: Totals)
      reads this, q
    {
      && |ps| == |answers| && r.ds == DecisionsOf(ps, answers) && r.raw && i <= |ps| && Reading(q, r, i)
      && h <= q.log && injectFails >= fails && Handled() == before.accepted + before.dropped + before.modified + i
      && (q.failures == r.failures && injectFails == fails ==>
            Counts() == Plus(before, Tally(r.ds[..i])) && q.log == h + Transcript(dir, ps[..i], answers[..i]))
      && (forall j :: 0 <= j < i ==> NoHole(q.kernel, ps[j].id, answers[j], h, q.log))
    }

    lemma UnderwayParts(ps: seq<Packet>, answers: seq<Answer>, r: Read, i: nat, h: seq<Event>, fails: nat, before: Totals)
      requires Underway(ps, answers, r, i, h, fails, before)
      ensures |ps| == |answers| && r.ds == DecisionsOf(ps, answers) && r.raw && i <= |ps| == |r.ds| && Reading(q, r, i)
      ensures h <= q.log && injectFails >= fails && Handled() == before.accepted + before.dropped + before.modified + i
      ensures q.failures >= r.failures
      ensures q.failures == r.failures && injectFails == fails ==>
                Counts() == Plus(before, Tally(r.ds[..i])) && q.log == h + Transcript(dir, ps[..i], answers[..i])
      ensures forall j :: 0 <= j < i ==> NoHole(q.kernel, ps[j].id, answers[j], h, q.log)
    {
      hide NoHole, Transcript, Tally, Plus, Decided;
    }

    lemma IsUnderway(ps: seq<Packet>, answers: seq<Answer>, r: Read, i: nat, h: seq<Event>, fails: nat, before: Totals)
      requires |ps| == |answers| && r.ds == DecisionsOf(ps, answers) && r.raw && i <= |ps| && Reading(q, r, i)
      requires h <= q.log && injectFails >= fails && Handled() == before.accepted + before.dropped + before.modified + i
      requires q.failures == r.failures && injectFails == fails ==>
                 Counts() == Plus(before, Tally(r.ds[..i])) && q.log == h + Transcript(dir, ps[..i], answers[..i])
      requires forall j :: 0 <= j < i ==> NoHole(q.kernel, ps[j].id, answers[j], h, q.log)
      ensures Underway(ps, answers, r, i, h, fails, before)
    {
      hide NoHole, Transcript, Tally, Plus, Decided, Reading;
    }

    lemma DecisionAt(ps: seq<Packet>, answers: seq<Answer>, i: nat)
      requires i < |ps| == |answers|
      ensures DecisionsOf(ps, answers)[i] == Decision(ps[i].id, Decided(dir, ps[i], answers[i]))
    {
      hide Decided;
    }

    /** The next packet of a read. */
    method HandleNext(ps: seq<Packet>, answers: seq<Answer>, i: nat, ghost r: Read, ghost h: seq<Event>, ghost fails: nat, ghost before: Totals)
      requires Underway(ps, answers, r, i, h, fails, before) && i < |ps|
      requires forall j :: 0 <= j < i ==> ps[j].id != ps[i].id
      modifies q, this
      ensures Underway(ps, answers, r, i + 1, h, fails, before)
    {
      hide *;
      UnderwayParts(ps, answers, r, i, h, fails, before);
      ghost var k, log, t, f, n := q.kernel, q.log, Counts(), q.failures, injectFails;
      DeferredIs(q, r, i, ps, answers);
      OneMoreLeaves(dir, ps, answers, i);
      DecisionAt(ps, answers, i);
      HandledIs();
      Handle(ps[i], answers[i], r, i);
      HandledIs();
      NoHolesStay(ps, answers, i, k, q.kernel, {ps[i].id}, h, log, q.log);
      NoHoleSince(q.kernel, ps[i].id, answers[i], h, log, q.log);
      if q.failures == r.failures && injectFails == fails {
        OneMoreCounted(r.ds, i, before, t, Counts());
      }
      IsUnderway(ps, answers, r, i + 1, h, fails, before);
    }

    lemma HandledIs()
      ensures Handled() == accepted + dropped + modified && Counts() == Totals(accepted, dropped, modified)
    {
    }

    /** One read of the queue, from the first packet to the final flush. */
    method Pump(ps: seq<Packet>, answers: seq<Answer>)
      requires |ps| == |answers| && KernelOk(q.kernel) && !q.hasPending
      requires forall i, j :: 0 <= i < j < |ps| ==> ps[i].id < ps[j].id
      requires forall i :: 0 <= i < |ps| ==> ps[i].id in q.kernel.outstanding
      modifies q, this
      ensures KernelOk(q.kernel) && !q.hasPending
      // every packet handled is accounted for exactly once
      ensures Handled() == old(Handled()) + |ps|
      // with successful sends every packet gets exactly what was decided for it
      ensures q.failures == old(q.failures) ==> forall i :: 0 <= i < |ps| ==>
                ps[i].id in q.kernel.settled && q.kernel.settled[ps[i].id] == Decided(dir, ps[i], answers[i])
      ensures q.failures == old(q.failures) ==>
                MessagesIn(q.log) == MessagesIn(old(q.log)) + Individuals(DecisionsOf(ps, answers)) + AcceptRuns(DecisionsOf(ps, answers))
      // and while nothing fails exactly this leaves the box, in this order, and is counted
      ensures q.failures >= old(q.failures) && injectFails >= old(injectFails)
      ensures q.failures == old(q.failures) && injectFails == old(injectFails) ==>
                && Counts() == Plus(old(Counts()), Tally(DecisionsOf(ps, answers)))
                && q.log == old(q.log) + Transcript(dir, ps, answers) + Batched(Deferred(dir, ps, answers))
      // and whatever sends fail, what is settled fails open
      ensures forall i :: 0 <= i < |ps| && ps[i].id in q.kernel.settled ==>
                FailsOpen(Decided(dir, ps[i], answers[i]), q.kernel.settled[ps[i].id], true)
      ensures forall i :: 0 <= i < |ps| && ps[i].id in q.kernel.settled && Decided(dir, ps[i], answers[i]) == Queues.Accept ==>
                q.kernel.settled[ps[i].id] == Queues.Accept
      // an original is dropped only where its strategy put nothing out, or something it put out has gone
      ensures forall i :: 0 <= i < |ps| ==> NoHole(q.kernel, ps[i].id, answers[i], old(q.log), q.log)
    {
      ghost var h, fails, before := q.log, injectFails, Counts();
      ghost var r := Read(DecisionsOf(ps, answers), q.failures, MessagesIn(q.log), true);
      BeginRead(ps, answers, r);
      hide *;
      HandledIs();
      var i := 0;
      while i < |ps|
        invariant 0 <= i <= |ps| && Underway(ps, answers, r, i, h, fails, before)
      {
        HandleNext(ps, answers, i, r, h, fails, before);
        i := i + 1;
      }
      UnderwayParts(ps, answers, r, i, h, fails, before);
      assert ps[..i] == ps && answers[..i] == answers && r.ds[..i] == r.ds;
      DeferredIs(q, r, i, ps, answers);
      HandledIs();
      ghost var k, log := q.kernel, q.log;
      var ok := Finish(q, r);
      NoHolesStay(ps, answers, |ps|, k, q.kernel, {}, h, log, q.log);
      BatchedIs(Deferred(dir, ps, answers));
      Outcomes(ps, answers, r.ds, q.kernel, q.failures == r.failures);
    }

    /** What the kernel holds for the decisions, it holds for the packets. */
    lemma Outcomes(ps: seq<Packet>, answers: seq<Answer>, ds: seq<Decision>, k: Kernel, clean: bool)
      requires |ps| == |answers| && ds == DecisionsOf(ps, answers)
      requires forall i :: 0 <= i < |ds| && ds[i].id in k.settled ==> FailsOpen(ds[i].verdict, k.settled[ds[i].id], true)
      requires clean ==> forall i :: 0 <= i < |ds| ==> ds[i].id in k.settled && k.settled[ds[i].id] == ds[i].verdict
      ensures clean ==> forall i :: 0 <= i < |ps| ==>
                ps[i].id in k.settled && k.settled[ps[i].id] == Decided(dir, ps[i], answers[i])
      ensures forall i :: 0 <= i < |ps| && ps[i].id in k.settled ==>
                FailsOpen(Decided(dir, ps[i], answers[i]), k.settled[ps[i].id], true)
      ensures forall i :: 0 <= i < |ps| && ps[i].id in k.settled && Decided(dir, ps[i], answers[i]) == Queues.Accept ==>
                k.settled[ps[i].id] == Queues.Accept
    {
      hide *;
      AcceptFailsOpen();
      assert |ds| == |ps| by {
        HowMany(ps, answers);
      }
      forall i | 0 <= i < |ps|
        ensures ds[i] == Decision(ps[i].id, Decided(dir, ps[i], answers[i]))
      {
        DecisionAt(ps, answers, i);
      }
      assert forall i :: 0 <= i < |ps| ==> ds[i].id == ps[i].id && ds[i].verdict == Decided(dir, ps[i], answers[i]);
    }

    lemma HowMany(ps: seq<Packet>, answers: seq<Answer>)
      requires |ps| == |answers|
      ensures |DecisionsOf(ps, answers)| == |ps|
    {
    }

    lemma BeginRead(ps: seq<Packet>, answers: seq<Answer>, r: Read)
      requires |ps| == |answers| && KernelOk(q.kernel) && !q.hasPending
      requires forall i, j :: 0 <= i < j < |ps| ==> ps[i].id < ps[j].id
      requires forall i :: 0 <= i < |ps| ==> ps[i].id in q.kernel.outstanding
      requires r == Read(DecisionsOf(ps, answers), q.failures, MessagesIn(q.log), true)
      ensures Underway(ps, answers, r, 0, q.log, injectFails, Counts())
    {
      hide Decided;
      ReadBegins(q, r);
      hide Reading;
      NothingYet(dir, ps, answers, r.ds, Counts());
      assert q.log + [] == q.log;
    }
  }

  lemma BatchedIs(deferred: Option<nat>)
    ensures Batched(deferred) == if deferred.Some? then [Sent(Batch(deferred.value))] else []
  {
  }

  lemma AcceptFailsOpen()
    ensures forall got :: FailsOpen(Queues.Accept, got, true) ==> got == Queues.Accept
  {
  }
}
