/** The conntrack-mark namespace: 0x67GGGxxx, where GGG is the generation and the
    low 12 bits belong to other mark users. */
module Marks {
  import opened Wrappers

  const MASK: bv32 := 0xfffff000
  const NAMESPACE: bv32 := 0x67000000
  const NAMESPACE_MASK: bv32 := 0xff000000
  const MAX_ID: bv32 := 0x0fff

  predicate ValidId(id: bv32) {
    1 <= id <= MAX_ID
  }

  /** The bits a generation's flows carry, before the range check. */
  function MarkBits(id: bv32): bv32 {
    NAMESPACE | (id << 12)
  }

  function Mark(id: bv32): Option<bv32> {
    if id == 0 || id > MAX_ID then None else Some(MarkBits(id))
  }

  function ID(mark: bv32): Option<bv32> {
    if mark & NAMESPACE_MASK != NAMESPACE then None
    else
      var id := (mark >> 12) & MAX_ID;
      if id != 0 then Some(id) else None
  }

  function Reserved(mark: bv32): bv32 {
    mark & MASK
  }

  function Low(mark: bv32): bv32 {
    mark & !MASK
  }

  /** What `ct mark set (ct mark & ~MASK) | bits` leaves. */
  function Assign(mark: bv32, bits: bv32): bv32 {
    (mark & !MASK) | bits
  }

  function NeutralMark(mark: bv32): bv32 {
    (mark & !MASK) | NAMESPACE
  }

  /** Assigning a generation preserves the low bits. */
  lemma AssignKeepsLow(mark: bv32, id: bv32)
    requires ValidId(id)
    ensures Low(Assign(mark, MarkBits(id))) == Low(mark)
  {
  }

  lemma AssignSetsReserved(mark: bv32, id: bv32)
    requires ValidId(id)
    ensures Reserved(Assign(mark, MarkBits(id))) == MarkBits(id) != 0
  {
  }

  /** The owner read back from an assigned mark is exactly the assigned generation. */
  lemma AssignNamesOwner(mark: bv32, id: bv32)
    requires ValidId(id)
    ensures ID(Assign(mark, MarkBits(id))) == Some(id)
  {
  }

  lemma RuleBitsDecode(mark: bv32, id: bv32)
    requires mark & 0xfffff000 == (0x67000000 | (id << 12)) && id <= 0xfff
    ensures mark & 0xff000000 == 0x67000000 && (mark >> 12) & 0xfff == id
  {
  }

  lemma DecodedBitsRule(mark: bv32)
    requires mark & 0xff000000 == 0x67000000
    ensures mark & 0xfffff000 == (0x67000000 | (((mark >> 12) & 0xfff) << 12))
    ensures (mark >> 12) & 0xfff <= 0xfff
  {
  }

  lemma RuleImpliesOwner(mark: bv32, id: bv32)
    requires ValidId(id) && Reserved(mark) == MarkBits(id)
    ensures ID(mark) == Some(id)
  {
    RuleBitsDecode(mark, id);
  }

  lemma OwnerImpliesRule(mark: bv32)
    requires ID(mark).Some?
    ensures ValidId(ID(mark).value) && Reserved(mark) == MarkBits(ID(mark).value)
  {
    DecodedBitsRule(mark);
  }

  /** The kernel's queue rule (`ct mark & MASK == Mark(id)`) and the userspace
      decoder agree on every 32-bit mark. */
  lemma QueueRuleMatchesDecoder(mark: bv32, id: bv32)
    ensures Mark(id).Some? && Reserved(mark) == Mark(id).value <==> ID(mark) == Some(id)
  {
    hide ID, MarkBits, Reserved;
    if Mark(id).Some? && Reserved(mark) == Mark(id).value {
      RuleImpliesOwner(mark, id);
    }
    if ID(mark) == Some(id) {
      OwnerImpliesRule(mark);
    }
  }

  /** Neutral flows are owned (never assigned again) yet name no generation. */
  lemma NeutralIsOwnedByNobody(mark: bv32)
    ensures Low(NeutralMark(mark)) == Low(mark)
    ensures Reserved(NeutralMark(mark)) == NAMESPACE != 0
    ensures forall m: bv32 :: Reserved(m) == NAMESPACE ==> ID(m) == None
  {
  }

  lemma NeutralReserved(mark: bv32)
    ensures Reserved(NeutralMark(mark)) == NAMESPACE
  {
  }

  /** A mark is nothing but its reserved bits and its low bits. */
  lemma MarkIsReservedAndLow(a: bv32, b: bv32)
    ensures Reserved(a) == Reserved(b) && Low(a) == Low(b) <==> a == b
  {
    Recombine(a);
    Recombine(b);
    hide Reserved, Low;
  }

  lemma Recombine(a: bv32)
    ensures a == Reserved(a) | Low(a)
  {
  }
}
