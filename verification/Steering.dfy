/** From a strategy to the rules the kernel has: what a live generation's rules queue is what
    its strategy asks for, and a strategy cannot tell that nothing else is queued. */
module Steering {
  import opened Wrappers
  import opened Selectors
  import opened ScopeDerivation
  import opened Artifacts
  import opened Hosts
  import Marks
  import Tcp

  /** The DNA parses to a strategy with these two forests, and its scope is theirs. */
  ghost predicate Derives(lib: Library, dna: Dna, outbound: seq<Tree>, inbound: seq<Tree>) {
    && lib.scopeOf(dna).Some?
    && IsSelectorOf(lib.scopeOf(dna).value.outbound, outbound)
    && IsSelectorOf(lib.scopeOf(dna).value.inbound, inbound)
  }

  /** What is queued, by the flags octet, of one flow in one direction. */
  ghost function Queued(p: Program, f: Flow, mark: bv32, outbound: bool, id: GenId, port: nat): bv8 -> bool {
    flags => QueuesTo(p, f, mark, outbound, flags, id, port)
  }

  lemma MarkedForLive(p: Program, f: Flow, mark: bv32, id: GenId, port: nat)
    requires id in p.live && OwnerOf(mark) == Some(id) && AdapterFlow(f, port)
    ensures forall outbound, flags ::
              QueuesTo(p, f, mark, outbound, flags, id, port) <==> Selects(if outbound then p.live[id].outbound else p.live[id].inbound, flags)
  {
    Marks.QueueRuleMatchesDecoder(mark, id.raw);
    hide Marks.ID, Marks.Mark, Marks.Reserved, Selects, AdapterFlow;
  }

  /** Of the flows a live generation owns, its rules queue outbound exactly what its strategy's
      outbound scope selects, and inbound exactly what its inbound scope selects, or everything
      where inbound traffic is observed and the strategy does anything at all. */
  lemma QueuedExactlyWhen(p: Program, engines: map<GenId, Dna>, disk: Disk, cfg: Config,
                          f: Flow, mark: bv32, id: GenId, flags: bv8, scope: Scope)
    requires SafeFor(p, engines, disk, cfg) && id in p.live && OwnerOf(mark) == Some(id) && AdapterFlow(f, cfg.port)
    ensures id in engines
    ensures cfg.library.scopeOf(engines[id]) == Some(scope) ==>
              && (QueuesTo(p, f, mark, true, flags, id, cfg.port) <==> Selects(scope.outbound, flags))
              && (QueuesTo(p, f, mark, false, flags, id, cfg.port) <==>
                    Selects(scope.inbound, flags) || (cfg.widenInbound && !(scope.outbound.Empty() && scope.inbound.Empty())))
  {
    assert Backed(id, p.live[id], engines, disk, cfg);
    MarkedForLive(p, f, mark, id, cfg.port);
    hide OwnerOf, QueuesTo, AdapterFlow, Selector.Empty;
  }

  /** At every moment of every run a live generation's strategy, whatever its state, and for
      any packets of any flow it owns, does the same under the installed rules as if every
      packet were queued. */
  lemma InstalledSteeringIsUnobservable<S>(
    host: Host, k: nat, f: Flow, id: GenId, outbound: bool, forests: (seq<Tree>, seq<Tree>),
    exotic: (Trigger, Packet) -> bool, act: (S, Packet) -> (S, seq<Packet>), st: S, ps: seq<Packet>)
    requires host.History() && k < |host.trace| && host.trace[k].serving
    requires f in host.trace[k].table && AdapterFlow(f, host.cfg.port) && OwnerOf(host.trace[k].table[f].mark) == Some(id)
    requires id in host.trace[k].program.live && id in host.trace[k].engines
    requires Derives(host.cfg.library, host.trace[k].engines[id], forests.0, forests.1)
    requires WellWrittenForest(if outbound then forests.0 else forests.1)
    ensures var queued := Queued(host.trace[k].program, f, host.trace[k].table[f].mark, outbound, id, host.cfg.port);
            var forest := if outbound then forests.0 else forests.1;
            SteerQueued(queued, forest, exotic, act, st, ps) == SteerAll(forest, exotic, act, st, ps)
  {
    var m := host.trace[k];
    var scope := host.cfg.library.scopeOf(m.engines[id]).value;
    var queued := Queued(m.program, f, m.table[f].mark, outbound, id, host.cfg.port);
    var forest, sel := if outbound then forests.0 else forests.1, if outbound then scope.outbound else scope.inbound;
    MomentIsSafe(host, k);
    forall flags: bv8 | Selects(sel, flags)
      ensures queued(flags)
    {
      QueuedExactlyWhen(m.program, m.engines, m.disk, host.cfg, f, m.table[f].mark, id, flags, scope);
    }
    hide Host.History, SafeFor, SteerQueued, SteerAll, Selects, QueuesTo, IsSelectorOf, OwnerOf;
    NarrowedSteeringIsUnobservable(queued, sel, forest, exotic, act, st, ps);
  }

  lemma MomentIsSafe(host: Host, k: nat)
    requires host.History() && k < |host.trace| && host.trace[k].serving
    ensures SafeFor(host.trace[k].program, host.trace[k].engines, host.trace[k].disk, host.cfg)
  {
    hide SafeFor, IsImage, ViewOk, ProgramIdsOk, MomentsStep;
    assert SafeMoment(host.trace[k], host.cfg);
  }

  /** And the rules queue nothing in vain: where inbound traffic is not observed, every trigger
      can be expressed and a packet has no NS bit, it is queued if and only if some trigger
      covers it. */
  lemma InstalledSteeringIsExact(
    p: Program, engines: map<GenId, Dna>, disk: Disk, cfg: Config, f: Flow, mark: bv32, id: GenId, outbound: bool,
    forests: (seq<Tree>, seq<Tree>), packet: Packet, exotic: (Trigger, Packet) -> bool)
    requires SafeFor(p, engines, disk, cfg) && id in p.live && OwnerOf(mark) == Some(id) && AdapterFlow(f, cfg.port)
    requires id in engines && Derives(cfg.library, engines[id], forests.0, forests.1) && !cfg.widenInbound && !packet.ns
    requires var forest := if outbound then forests.0 else forests.1;
             WellWrittenForest(forest) && forall tree :: tree in forest ==> Expressible(tree)
    ensures QueuesTo(p, f, mark, outbound, Tcp.Octet(packet.flags), id, cfg.port) <==>
              Touches(if outbound then forests.0 else forests.1, packet, exotic)
  {
    var scope := cfg.library.scopeOf(engines[id]).value;
    var forest, sel := if outbound then forests.0 else forests.1, if outbound then scope.outbound else scope.inbound;
    QueuedExactlyWhen(p, engines, disk, cfg, f, mark, id, Tcp.Octet(packet.flags), scope);
    hide SafeFor, Selects, QueuesTo, OwnerOf, Touches, Tcp.Octet, IsSelectorOf, Expressible;
    SelectorIsNeverTooWide(sel, forest, packet, exotic);
  }

  /** A generation takes an every-packet place if and only if its rules can queue anything
      but a SYN or a SYN-ACK. */
  lemma ResourceClassIsExact(scope: Scope, outbound: seq<Tree>, inbound: seq<Tree>)
    requires IsSelectorOf(scope.outbound, outbound) && IsSelectorOf(scope.inbound, inbound)
    ensures EveryPacket(scope) <==>
              exists flags: bv8 :: (Selects(scope.outbound, flags) || Selects(scope.inbound, flags)) && flags != 0x02 && flags != 0x12
  {
    SelectorIsDerived(scope.outbound, outbound);
    SelectorIsDerived(scope.inbound, inbound);
    EveryPacketExactlyWhen(scope);
  }
}
