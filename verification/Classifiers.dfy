/** The two classifiers of inbound TCP packets: the one in userspace, which reads the header
    octets, and the kernel's rule chain, which can only compare flags and the packet length. */
module Classifiers {
  import opened Netlink
  import Tcp

  datatype Event = RST | SYN | FIN | Data | AckOnly | Fragment | Undecodable

  /** Whether bit number k of an octet is set. */
  predicate Bit(x: Byte, k: nat) {
    k < 8 && Shifted(x, k) % 2 == 1
  }

  function Shifted(x: nat, k: nat): nat {
    if k == 0 then x else Shifted(x / 2, k - 1)
  }

  function Power(k: nat): (p: nat)
    ensures p > 0
  {
    if k == 0 then 1 else 2 * Power(k - 1)
  }

  const FIN_BIT := 0
  const SYN_BIT := 1
  const RST_BIT := 2
  const ACK_BIT := 4

  /** Header lengths and the length the packet is taken to have. */
  datatype Layout = Layout(ihl: nat, dataOff: nat, totalLen: nat, flags: Byte)

  datatype Header = Bad | Piece | Headers(layout: Layout)

  /** What the header octets say, in the order they are trusted. */
  function Read(raw: Buffer): Header {
    if |raw| < 20 || raw[0] / 16 != 4 then Bad
    else
      var ihl := raw[0] % 16 * 4;
      if ihl < 20 || |raw| < ihl || raw[9] != 6 then Bad
      else if raw[6] % 32 != 0 || raw[7] != 0 then Piece
      else
        var hi: int, lo: int := raw[2], raw[3];
        var claimed := hi * 256 + lo;
        var totalLen := if claimed == 0 || claimed > |raw| then |raw| else claimed;
        if |raw| - ihl < 20 then Bad
        else
          var dataOff := raw[ihl + 12] / 16 * 4;
          if dataOff < 20 || ihl + dataOff > totalLen then Bad
          else Headers(Layout(ihl, dataOff, totalLen, raw[ihl + 13]))
  }

  /** The userspace classifier. */
  function Classify(raw: Buffer): Event {
    match Read(raw)
    case Bad => Undecodable
    case Piece => Fragment
    case Headers(h) =>
      if Bit(h.flags, RST_BIT) then RST
      else if Bit(h.flags, SYN_BIT) then SYN
      else if Bit(h.flags, FIN_BIT) then FIN
      else if h.totalLen - h.ihl - h.dataOff > 0 then Data
      else AckOnly
  }

  const MIN_DATA_LENGTH := 80

  /** The kernel's chain: each rule returns, so the first match counts. */
  function KernelClassify(flags: Byte, length: nat): Event {
    if Bit(flags, RST_BIT) then RST
    else if Bit(flags, SYN_BIT) && !Bit(flags, ACK_BIT) then SYN
    else if Bit(flags, FIN_BIT) then FIN
    else if length > MIN_DATA_LENGTH then Data
    else AckOnly
  }

  /** The bits looked at are those of the named flags. */
  lemma BitsOf(h: Tcp.Flags)
    ensures Tcp.Number(h) < 256
    ensures Bit(Tcp.Number(h), FIN_BIT) == h.fin && Bit(Tcp.Number(h), SYN_BIT) == h.syn
    ensures Bit(Tcp.Number(h), RST_BIT) == h.rst && Bit(Tcp.Number(h), ACK_BIT) == h.ack
  {
    var bits := [h.cwr, h.ece, h.urg, h.ack, h.psh, h.rst, h.syn, h.fin];
    assert Power(8) == 256;
    BinaryFits(bits);
    BinaryReads(bits, FIN_BIT);
    BinaryReads(bits, SYN_BIT);
    BinaryReads(bits, RST_BIT);
    BinaryReads(bits, ACK_BIT);
    hide Power, Tcp.Binary, Shifted;
  }

  lemma {:induction false} BinaryFits(bits: seq<bool>)
    ensures Tcp.Binary(bits) < Power(|bits|)
  {
    if bits != [] {
      BinaryFits(bits[..|bits| - 1]);
    }
  }

  lemma {:induction false} BinaryReads(bits: seq<bool>, k: nat)
    requires k < |bits|
    ensures (Shifted(Tcp.Binary(bits), k) % 2 == 1) == bits[|bits| - 1 - k]
  {
    if k > 0 {
      var front := bits[..|bits| - 1];
      BinaryReads(front, k - 1);
      assert Tcp.Binary(bits) / 2 == Tcp.Binary(front);
    }
  }

  /** A packet as it is on the wire, with a header and options of these many words, some of the
      octets in between being of no interest here: `total` is the length the IP header claims,
      `nibble` the reserved bits beside the data offset. */
  datatype Wire = Wire(
    ihl: nat, tos: Byte, total: nat, id: Buffer, ttl: Byte, ipRest: Buffer,
    ports: Buffer, offset: nat, nibble: nat, flags: Tcp.Flags, tcpRest: Buffer, payload: Buffer)

  ghost predicate WireOk(w: Wire) {
    && 5 <= w.ihl < 16 && 5 <= w.offset < 16 && w.nibble < 16 && w.total < 0x1_0000
    && |w.id| == 2 && |w.ipRest| == 4 * w.ihl - 10 && |w.ports| == 12 && |w.tcpRest| == 4 * w.offset - 14
  }

  /** Version 4, no fragment, protocol 6. */
  ghost function IpHeader(w: Wire): Buffer
    requires WireOk(w)
  {
    [4 * 16 + w.ihl, w.tos] + BE16(w.total) + w.id + [0, 0, w.ttl, 6] + w.ipRest
  }

  ghost function TcpHeader(w: Wire): Buffer
    requires WireOk(w)
  {
    BitsOf(w.flags);
    w.ports + [w.offset * 16 + w.nibble, Tcp.Number(w.flags)] + w.tcpRest
  }

  ghost function Octets(w: Wire): Buffer
    requires WireOk(w)
  {
    IpHeader(w) + TcpHeader(w) + w.payload
  }

  /** How much of what arrived belongs to the packet: what the header claims, or everything if
      it claims nothing or more than arrived. */
  ghost function Extent(w: Wire): nat
    requires WireOk(w)
  {
    if w.total == 0 || w.total > |Octets(w)| then |Octets(w)| else w.total
  }

  /** Where the octets are that are looked at. */
  lemma OctetsOf(w: Wire)
    requires WireOk(w)
    ensures |Octets(w)| == 4 * w.ihl + 4 * w.offset + |w.payload| && Tcp.Number(w.flags) < 256
    ensures Octets(w)[0] == 64 + w.ihl && Octets(w)[6] == 0 && Octets(w)[7] == 0 && Octets(w)[9] == 6
    ensures Octets(w)[2] == w.total / 256 && Octets(w)[3] == w.total % 256
    ensures Octets(w)[4 * w.ihl + 12] == w.offset * 16 + w.nibble && Octets(w)[4 * w.ihl + 13] == Tcp.Number(w.flags)
  {
    BitsOf(w.flags);
    hide Tcp.Number;
    var raw, ip, tcp := Octets(w), IpHeader(w), TcpHeader(w);
    assert |ip| == 4 * w.ihl && |tcp| == 4 * w.offset;
    assert raw[..4 * w.ihl] == ip && raw[4 * w.ihl..4 * w.ihl + 4 * w.offset] == tcp;
    assert ip[2..4] == BE16(w.total);
    assert ip[2] == BE16(w.total)[0] && ip[3] == BE16(w.total)[1];
    assert tcp[12] == w.offset * 16 + w.nibble && tcp[13] == Tcp.Number(w.flags);
  }

  /** The header octets are read for what they are. */
  lemma WireReads(w: Wire)
    requires WireOk(w)
    ensures Tcp.Number(w.flags) < 256
    ensures 4 * w.ihl + 4 * w.offset <= Extent(w) ==>
              Read(Octets(w)) == Headers(Layout(4 * w.ihl, 4 * w.offset, Extent(w), Tcp.Number(w.flags)))
    ensures Extent(w) < 4 * w.ihl + 4 * w.offset ==> Read(Octets(w)) == Bad
  {
    OctetsOf(w);
    hide Tcp.Number, Octets;
  }

  /** What userspace makes of a packet, by its flags and payload: a reset before a SYN, a SYN
      before a FIN, and otherwise by whether any payload belongs to it. */
  lemma ClassifiedByFlags(w: Wire)
    requires WireOk(w) && 4 * w.ihl + 4 * w.offset <= Extent(w)
    ensures Classify(Octets(w)) ==
              if w.flags.rst then RST
              else if w.flags.syn then SYN
              else if w.flags.fin then FIN
              else if Extent(w) > 4 * w.ihl + 4 * w.offset then Data
              else AckOnly
  {
    WireReads(w);
    BitsOf(w.flags);
    hide Read, Bit, Octets, Extent, Tcp.Number;
  }

  /** On a packet whose headers can be read the two agree if and only if it is a reset, or a
      SYN without ACK, or no SYN but a FIN, or neither and it carries payload exactly when it
      is longer than 80 bytes. So a SYN-ACK never agrees, and neither does a short segment
      with data nor a long one without. */
  lemma ClassifiersAgreeExactlyWhen(raw: Buffer, length: nat, h: Tcp.Flags)
    requires Read(raw).Headers? && Read(raw).layout.flags == Tcp.Number(h)
    ensures var l := Read(raw).layout;
            Classify(raw) == KernelClassify(l.flags, length) <==>
              || h.rst
              || (h.syn && !h.ack)
              || (!h.syn && (h.fin || (l.totalLen > l.ihl + l.dataOff <==> length > 80)))
  {
    BitsOf(h);
    hide Bit, Read, Tcp.Number;
  }

  /** And every octet of flags is some flags'. */
  lemma EveryOctetIsSomeFlags(octet: Byte) returns (h: Tcp.Flags)
    ensures Tcp.Number(h) == octet
  {
    assert Power(8) == 256;
    var b := ToBinary(octet, 8);
    hide Tcp.Binary, Power;
    h := Tcp.Flags(b[0], b[1], b[2], b[3], b[4], b[5], b[6], b[7]);
    assert b == [b[0], b[1], b[2], b[3], b[4], b[5], b[6], b[7]];
  }

  lemma {:induction false} ToBinary(n: nat, k: nat) returns (bits: seq<bool>)
    requires n < Power(k)
    ensures |bits| == k && Tcp.Binary(bits) == n
  {
    if k == 0 {
      bits := [];
    } else {
      var front := ToBinary(n / 2, k - 1);
      bits := front + [n % 2 == 1];
      assert bits[..|bits| - 1] == front;
    }
  }

  const BUCKETS := 7

  function Bucket(e: Event): (b: nat)
    ensures b < BUCKETS
  {
    match e
    case RST => 0
    case SYN => 1
    case FIN => 2
    case Data => 3
    case AckOnly => 4
    case Fragment => 5
    case Undecodable => 6
  }

  /** No two events share a bucket. */
  lemma BucketsAreDistinct(d: Event, e: Event)
    ensures Bucket(d) == Bucket(e) <==> d == e
  {
  }

  function Sum(xs: seq<nat>): nat {
    if xs == [] then 0 else Sum(xs[..|xs| - 1]) + xs[|xs| - 1]
  }

  lemma {:induction false} SumOfOneMore(xs: seq<nat>, k: nat)
    requires k < |xs|
    ensures Sum(xs[k := xs[k] + 1]) == Sum(xs) + 1
  {
    var n := |xs| - 1;
    var ys := xs[k := xs[k] + 1];
    if k < n {
      assert ys[..n] == xs[..n][k := xs[..n][k] + 1];
      SumOfOneMore(xs[..n], k);
    } else {
      assert ys[..n] == xs[..n];
    }
  }

  class Observer {
    var counts: seq<nat>

    constructor ()
      ensures counts == seq(BUCKETS, i => 0)
    {
      counts := seq(BUCKETS, i => 0);
    }

    /** Every inbound packet lands in exactly one bucket, unreadable ones included. */
    method Observe(raw: Buffer, inbound: bool)
      requires |counts| == BUCKETS
      modifies this
      ensures |counts| == BUCKETS
      ensures Sum(counts) == Sum(old(counts)) + (if inbound then 1 else 0)
      ensures counts == if inbound then old(counts)[Bucket(Classify(raw)) := old(counts)[Bucket(Classify(raw))] + 1] else old(counts)
    {
      if !inbound {
        return;
      }
      var b := Bucket(Classify(raw));
      SumOfOneMore(counts, b);
      counts := counts[b := counts[b] + 1];
    }
  }
}
