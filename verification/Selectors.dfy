/** What one direction of a generation's steering queues, and what a queue rule for
    it matches. */
module Selectors {
  /** `tcp flags & mask == value`. */
  datatype FlagMatch = FlagMatch(mask: bv8, value: bv8)

  datatype Selector = Selector(any: bool, flags: seq<FlagMatch>)
  {
    predicate Empty() {
      !any && |flags| == 0
    }
  }

  const EVERYTHING := Selector(true, [])

  datatype Scope = Scope(outbound: Selector, inbound: Selector)
  {
    predicate Idle() {
      outbound.Empty() && inbound.Empty()
    }
  }

  predicate Matches(m: FlagMatch, flags: bv8) {
    flags & m.mask == m.value
  }

  /** The kernel's decision: one rule for `any`, otherwise one rule per flag match. */
  predicate Selects(sel: Selector, flags: bv8) {
    sel.any || exists m :: m in sel.flags && Matches(m, flags)
  }

  /** A selector that can only see the handshake: exact SYN and exact SYN-ACK. */
  predicate EstablishmentOnly(sel: Selector) {
    !sel.any && forall m :: m in sel.flags ==> m.mask == 0xff && (m.value == 0x02 || m.value == 0x12)
  }

  /** The every-packet resource class; everything else is handshake-scoped. */
  predicate EveryPacket(scope: Scope) {
    !EstablishmentOnly(scope.outbound) || !EstablishmentOnly(scope.inbound)
  }

  /** Handshake-scoped selectors queue nothing but SYN and SYN-ACK, so bulk data never
      reaches userspace; and any selector that queues more is every-packet. */
  lemma HandshakeScopedSeesOnlyHandshake(sel: Selector, flags: bv8)
    ensures EstablishmentOnly(sel) && Selects(sel, flags) ==> flags == 0x02 || flags == 0x12
  {
    if EstablishmentOnly(sel) && Selects(sel, flags) {
      var m :| m in sel.flags && Matches(m, flags);
      assert flags & 0xff == flags;
    }
  }

  /** How flag matches are derived: exact flags, or some that must be set. */
  predicate Derived(sel: Selector) {
    forall m :: m in sel.flags ==> m.mask == 0xff || m.mask == m.value
  }

  /** The resource class is exact: a generation is in the every-packet class if and only if
      one of its directions queues some packet other than a SYN or a SYN-ACK. */
  lemma EveryPacketExactlyWhen(scope: Scope)
    requires Derived(scope.outbound) && Derived(scope.inbound)
    ensures EveryPacket(scope) <==>
              exists flags: bv8 :: (Selects(scope.outbound, flags) || Selects(scope.inbound, flags)) && flags != 0x02 && flags != 0x12
  {
    SeesMoreExactlyWhen(scope.outbound);
    SeesMoreExactlyWhen(scope.inbound);
    hide EstablishmentOnly, Selects;
  }

  lemma SeesMoreExactlyWhen(sel: Selector)
    requires Derived(sel)
    ensures !EstablishmentOnly(sel) <==> exists flags: bv8 :: Selects(sel, flags) && flags != 0x02 && flags != 0x12
  {
    forall flags: bv8 | Selects(sel, flags) && flags != 0x02 && flags != 0x12
      ensures !EstablishmentOnly(sel)
    {
      HandshakeScopedSeesOnlyHandshake(sel, flags);
    }
    if sel.any {
      assert Selects(sel, 0);
    } else if m :| m in sel.flags && !(m.mask == 0xff && (m.value == 0x02 || m.value == 0x12)) {
      var seen: bv8 := if m.mask == 0xff then m.value else 0xff;
      assert Matches(m, seen) by {
        assert m.value & 0xff == m.value && 0xff & m.mask == m.mask;
      }
      assert Selects(sel, seen);
    }
  }
}
