/** The control flags of the TCP header, and the octet that carries them. */
module Tcp {
  /** RFC 9293, section 3.1, in the order of the header. */
  datatype Flags = Flags(cwr: bool, ece: bool, urg: bool, ack: bool, psh: bool, rst: bool, syn: bool, fin: bool)

  /** The octet, most significant bit first. */
  function Octet(f: Flags): bv8 {
    High(f) | Low(f)
  }

  function High(f: Flags): bv8 {
    Place(f.cwr, 7) | Place(f.ece, 6) | Place(f.urg, 5) | Place(f.ack, 4)
  }

  function Low(f: Flags): bv8 {
    Place(f.psh, 3) | Place(f.rst, 2) | Place(f.syn, 1) | Place(f.fin, 0)
  }

  function Place(on: bool, k: bv3): bv8 {
    if on then 1 << k else 0
  }

  /** The same octet as a number. */
  function Number(f: Flags): nat {
    Binary([f.cwr, f.ece, f.urg, f.ack, f.psh, f.rst, f.syn, f.fin])
  }

  function Binary(bits: seq<bool>): nat {
    if bits == [] then 0 else 2 * Binary(bits[..|bits| - 1]) + (if bits[|bits| - 1] then 1 else 0)
  }

  /** The flags an octet carries. */
  function Read(octet: bv8): Flags {
    Flags(Bit(octet, 7), Bit(octet, 6), Bit(octet, 5), Bit(octet, 4),
          Bit(octet, 3), Bit(octet, 2), Bit(octet, 1), Bit(octet, 0))
  }

  predicate Bit(octet: bv8, k: bv3) {
    (octet >> k) & 1 == 1
  }

  lemma OctetReads(f: Flags)
    ensures Read(Octet(f)) == f
  {
  }

  lemma EveryOctetIsRead(octet: bv8)
    ensures Octet(Read(octet)) == octet
  {
  }

  function Both(f: Flags, g: Flags): Flags {
    Flags(f.cwr || g.cwr, f.ece || g.ece, f.urg || g.urg, f.ack || g.ack,
          f.psh || g.psh, f.rst || g.rst, f.syn || g.syn, f.fin || g.fin)
  }

  lemma OctetOfBoth(f: Flags, g: Flags)
    ensures Octet(Both(f, g)) == Octet(f) | Octet(g)
  {
    HighOfBoth(f, g);
    LowOfBoth(f, g);
    Regroup(High(f), Low(f), High(g), Low(g));
    hide High, Low;
  }

  lemma HighOfBoth(f: Flags, g: Flags)
    ensures High(Both(f, g)) == High(f) | High(g)
  {
  }

  lemma LowOfBoth(f: Flags, g: Flags)
    ensures Low(Both(f, g)) == Low(f) | Low(g)
  {
  }

  lemma Regroup(a: bv8, b: bv8, c: bv8, d: bv8)
    ensures (a | c) | (b | d) == (a | b) | (c | d)
  {
  }

  /** Every flag of g is set in f as well. */
  predicate AtLeast(f: Flags, g: Flags) {
    && (g.cwr ==> f.cwr) && (g.ece ==> f.ece) && (g.urg ==> f.urg) && (g.ack ==> f.ack)
    && (g.psh ==> f.psh) && (g.rst ==> f.rst) && (g.syn ==> f.syn) && (g.fin ==> f.fin)
  }

  lemma MaskMeansAtLeast(f: Flags, g: Flags)
    ensures Octet(f) & Octet(g) == Octet(g) <==> AtLeast(f, g)
  {
  }
}
