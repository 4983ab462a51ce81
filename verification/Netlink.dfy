/** Reading queued packets out of one netlink read, and writing verdicts. */
module Netlink {
  import opened Wrappers

  type Byte = x: int | 0 <= x < 256
  type Buffer = seq<Byte>

  const MSG_HEADER := 16
  const NFGEN := 4
  const ATTR_HEADER := 4
  const SUBSYS_QUEUE := 3
  const MSG_PACKET := 0
  const PACKET_TYPE := SUBSYS_QUEUE * 256 + MSG_PACKET

  const NFQA_PACKET_HDR := 1
  const NFQA_VERDICT_HDR := 2
  const NFQA_MARK := 3
  const NFQA_PAYLOAD := 10
  const NFQA_CT := 11
  const NFQA_CAP_LEN := 13
  const CTA_MARK := 8

  // ---------------------------------------------------------------- numbers on the wire

  function LE16(x: nat): Buffer
    requires x < 0x1_0000
  {
    [x % 256, x / 256]
  }

  function BE16(x: nat): Buffer
    requires x < 0x1_0000
  {
    [x / 256, x % 256]
  }

  function LE32(x: nat): Buffer
    requires x < 0x1_0000_0000
  {
    LE16(x % 0x1_0000) + LE16(x / 0x1_0000)
  }

  function BE32(x: nat): Buffer
    requires x < 0x1_0000_0000
  {
    BE16(x / 0x1_0000) + BE16(x % 0x1_0000)
  }

  function GetLE16(b: Buffer): nat
    requires |b| >= 2
  {
    var lo: int, hi: int := b[0], b[1];
    lo + 256 * hi
  }

  function GetLE32(b: Buffer): nat
    requires |b| >= 4
  {
    GetLE16(b[..2]) + 0x1_0000 * GetLE16(b[2..4])
  }

  function GetBE32(b: Buffer): nat
    requires |b| >= 4
  {
    var b0: int, b1: int, b2: int, b3: int := b[0], b[1], b[2], b[3];
    (b0 * 256 + b1) * 0x1_0000 + b2 * 256 + b3
  }

  lemma LE16Reads(x: nat)
    requires x < 0x1_0000
    ensures |LE16(x)| == 2 && GetLE16(LE16(x)) == x
  {
  }

  lemma LE32Reads(x: nat)
    requires x < 0x1_0000_0000
    ensures |LE32(x)| == 4 && GetLE32(LE32(x)) == x
  {
    LE16Reads(x % 0x1_0000);
    LE16Reads(x / 0x1_0000);
    assert LE32(x)[..2] == LE16(x % 0x1_0000) && LE32(x)[2..4] == LE16(x / 0x1_0000);
  }

  lemma BE32Reads(x: nat)
    requires x < 0x1_0000_0000
    ensures |BE32(x)| == 4 && GetBE32(BE32(x)) == x
  {
  }

  /** nlmsgAlign: up to the next multiple of four. */
  function Align(n: nat): (r: nat)
    ensures n <= r < n + 4 && r % 4 == 0
  {
    (n + 3) / 4 * 4
  }

  function Min(a: nat, b: nat): nat {
    if a <= b then a else b
  }

  function Zeros(n: nat): Buffer {
    seq(n, i => 0)
  }

  // ---------------------------------------------------------------- attributes

  datatype Attr = Attr(kind: nat, data: Buffer)

  /** What the walkers do on arbitrary bytes: None for a length that does not fit. */
  function Walk(b: Buffer): Option<seq<Attr>> {
    if |b| < ATTR_HEADER then Some([])
    else
      var alen := GetLE16(b[0..2]);
      if alen < ATTR_HEADER || alen > |b| then None
      else
        match Walk(b[Min(Align(alen), |b|)..])
        case None => None
        case Some(rest) => Some([Attr(GetLE16(b[2..4]) % 0x4000, b[ATTR_HEADER..alen])] + rest)
  }

  ghost predicate Encodable(a: Attr) {
    a.kind < 0x4000 && ATTR_HEADER + |a.data| < 0x1_0000
  }

  /** One attribute; `bits` are the nested and byte-order bits a writer may set. */
  ghost function EncodeAttr(a: Attr, bits: nat): Buffer
    requires Encodable(a) && bits < 4
  {
    LE16(ATTR_HEADER + |a.data|) + LE16(a.kind + 0x4000 * bits) + a.data
  }

  function Padding(n: nat): Buffer {
    Zeros(Align(n) - n)
  }

  /** An attribute as some writer put it on the wire, with the bits it set in the type. */
  datatype Written = Written(attr: Attr, bits: nat)

  ghost predicate Writable(ws: seq<Written>) {
    forall i :: 0 <= i < |ws| ==> Encodable(ws[i].attr) && ws[i].bits < 4
  }

  /** The attributes without the bits. */
  ghost function Bare(ws: seq<Written>): seq<Attr> {
    if ws == [] then [] else [ws[0].attr] + Bare(ws[1..])
  }

  /** Every attribute padded to four bytes, the last one if the writer pads it. */
  ghost function EncodeAttrs(ws: seq<Written>, padLast: bool): Buffer
    requires Writable(ws)
  {
    if ws == [] then []
    else
      EncodeAttr(ws[0].attr, ws[0].bits)
      + (if |ws| > 1 || padLast then Padding(ATTR_HEADER + |ws[0].attr.data|) else [])
      + EncodeAttrs(ws[1..], padLast)
  }

  lemma EncodedAttrReads(a: Attr, bits: nat, rest: Buffer)
    requires Encodable(a) && bits < 4
    ensures var b := EncodeAttr(a, bits) + rest;
            && |EncodeAttr(a, bits)| == ATTR_HEADER + |a.data|
            && GetLE16(b[0..2]) == ATTR_HEADER + |a.data| && GetLE16(b[2..4]) % 0x4000 == a.kind
            && b[ATTR_HEADER..ATTR_HEADER + |a.data|] == a.data
  {
    var b := EncodeAttr(a, bits) + rest;
    LE16Reads(ATTR_HEADER + |a.data|);
    LE16Reads(a.kind + 0x4000 * bits);
    assert b[0..2] == LE16(ATTR_HEADER + |a.data|);
    assert b[2..4] == LE16(a.kind + 0x4000 * bits);
  }

  /** Where the walkers go from one encoded attribute. */
  lemma EncodedAttrsRead(ws: seq<Written>, padLast: bool)
    requires Writable(ws) && ws != []
    ensures var b := EncodeAttrs(ws, padLast); var a := ws[0].attr; var alen := ATTR_HEADER + |a.data|;
            && ATTR_HEADER <= alen <= |b| && GetLE16(b[0..2]) == alen && GetLE16(b[2..4]) % 0x4000 == a.kind
            && b[ATTR_HEADER..alen] == a.data
            && b[Min(Align(alen), |b|)..] == EncodeAttrs(ws[1..], padLast)
  {
    var a, tail := ws[0].attr, EncodeAttrs(ws[1..], padLast);
    var pad := if |ws| > 1 || padLast then Padding(ATTR_HEADER + |a.data|) else [];
    var b := EncodeAttrs(ws, padLast);
    assert b == EncodeAttr(a, ws[0].bits) + (pad + tail);
    EncodedAttrReads(a, ws[0].bits, pad + tail);
  }

  /** The attribute walk inverts the encoding, whatever bits the writer sets in each type, and
      padded or not at the end. */
  lemma {:induction false} WalkInverts(ws: seq<Written>, padLast: bool)
    requires Writable(ws)
    ensures Walk(EncodeAttrs(ws, padLast)) == Some(Bare(ws))
    decreases |ws|
  {
    if ws != [] {
      EncodedAttrsRead(ws, padLast);
      WalkInverts(ws[1..], padLast);
      hide EncodeAttrs;
      assert ws[0].attr == Attr(ws[0].attr.kind, ws[0].attr.data);
    }
  }

  // ---------------------------------------------------------------- one packet

  datatype Packet = Packet(id: nat, generationMark: nat, routingMark: nat, payload: Buffer, truncated: bool)

  /** What the parse has gathered so far. */
  datatype Gathered = Gathered(id: nat, generationMark: nat, routingMark: nat, payload: Buffer, capLen: nat)

  const NOTHING_YET := Gathered(0, 0, 0, [], 0)

  function Finished(g: Gathered): Packet {
    Packet(g.id, g.generationMark, g.routingMark, g.payload, g.capLen != 0 && g.capLen > |g.payload|)
  }

  /** conntrackMark: the first CTA_MARK of a nested list; the rest is not looked at. */
  function FirstMark(b: Buffer): Result<Option<nat>, string> {
    if |b| < ATTR_HEADER then Ok(None)
    else
      var alen := GetLE16(b[0..2]);
      if alen < ATTR_HEADER || alen > |b| then Err("malformed conntrack attribute")
      else if GetLE16(b[2..4]) % 0x4000 == CTA_MARK then
        if alen < ATTR_HEADER + 4 then Err("short CTA_MARK") else Ok(Some(GetBE32(b[4..8])))
      else FirstMark(b[Min(Align(alen), |b|)..])
  }

  function Step(g: Gathered, a: Attr): Option<Gathered> {
    if a.kind == NFQA_PACKET_HDR then
      if |a.data| < 4 then None else Some(g.(id := GetBE32(a.data[..4])))
    else if a.kind == NFQA_MARK then
      Some(if |a.data| >= 4 then g.(routingMark := GetBE32(a.data[..4])) else g)
    else if a.kind == NFQA_CT then
      match FirstMark(a.data)
      case Err(_) => None
      case Ok(None) => Some(g)
      case Ok(Some(mark)) => Some(g.(generationMark := mark))
    else if a.kind == NFQA_PAYLOAD then Some(g.(payload := a.data))
    else if a.kind == NFQA_CAP_LEN then
      Some(if |a.data| >= 4 then g.(capLen := GetBE32(a.data[..4])) else g)
    else Some(g)
  }

  function Steps(g: Gathered, attrs: seq<Attr>): Option<Gathered>
    decreases |attrs|
  {
    if attrs == [] then Some(g)
    else
      match Step(g, attrs[0])
      case None => None
      case Some(next) => Steps(next, attrs[1..])
  }

  /** What a packet message's body means. */
  function Meaning(body: Buffer): Option<Packet> {
    if |body| < NFGEN then None
    else
      match Walk(body[NFGEN..])
      case None => None
      case Some(attrs) =>
        match Steps(NOTHING_YET, attrs)
        case None => None
        case Some(g) => Some(Finished(g))
  }

  method ConntrackMark(b: Buffer) returns (r: Result<Option<nat>, string>)
    ensures r == FirstMark(b)
  {
    var rest := b;
    while |rest| >= ATTR_HEADER
      invariant FirstMark(rest) == FirstMark(b)
      decreases |rest|
    {
      var alen := GetLE16(rest[0..2]);
      if alen < ATTR_HEADER || alen > |rest| {
        return Err("malformed conntrack attribute");
      }
      if GetLE16(rest[2..4]) % 0x4000 == CTA_MARK {
        if alen < ATTR_HEADER + 4 {
          return Err("short CTA_MARK");
        }
        return Ok(Some(GetBE32(rest[ATTR_HEADER..ATTR_HEADER + 4])));
      }
      rest := rest[Min(Align(alen), |rest|)..];
    }
    return Ok(None);
  }

  /** parsePacket: one pass over the attributes, gathering as it goes. */
  method ParsePacket(body: Buffer) returns (p: Option<Packet>)
    ensures p == Meaning(body)
  {
    if |body| < NFGEN {
      return None;
    }
    var g := NOTHING_YET;
    var rest := body[NFGEN..];
    ghost var met: seq<Attr> := [];
    while |rest| >= ATTR_HEADER
      invariant Continues(g, rest) == Continues(NOTHING_YET, body[NFGEN..])
      decreases |rest|
    {
      var alen := GetLE16(rest[0..2]);
      var kind := GetLE16(rest[2..4]) % 0x4000;
      if alen < ATTR_HEADER || alen > |rest| {
        return None;
      }
      var data := rest[ATTR_HEADER..alen];
      ContinuesStep(g, rest);
      if kind == NFQA_PACKET_HDR {
        if |data| < 4 {
          return None;
        }
        g := g.(id := GetBE32(data[..4]));
      } else if kind == NFQA_MARK {
        if |data| >= 4 {
          g := g.(routingMark := GetBE32(data[..4]));
        }
      } else if kind == NFQA_CT {
        var mark := ConntrackMark(data);
        if mark.Err? {
          return None;
        }
        if mark.value.Some? {
          g := g.(generationMark := mark.value.value);
        }
      } else if kind == NFQA_PAYLOAD {
        g := g.(payload := data);
      } else if kind == NFQA_CAP_LEN {
        if |data| >= 4 {
          g := g.(capLen := GetBE32(data[..4]));
        }
      }
      rest := rest[Min(Align(alen), |rest|)..];
    }
    return Some(Finished(g));
  }

  /** What is still to come of a parse that has gathered g and has `rest` left. */
  ghost function Continues(g: Gathered, rest: Buffer): Option<Gathered> {
    match Walk(rest)
    case None => None
    case Some(attrs) => Steps(g, attrs)
  }

  lemma ContinuesStep(g: Gathered, rest: Buffer)
    requires |rest| >= ATTR_HEADER && ATTR_HEADER <= GetLE16(rest[0..2]) <= |rest|
    ensures var alen := GetLE16(rest[0..2]);
            var a := Attr(GetLE16(rest[2..4]) % 0x4000, rest[ATTR_HEADER..alen]);
            Continues(g, rest) == (match Step(g, a)
                                   case None => None
                                   case Some(next) => Continues(next, rest[Min(Align(alen), |rest|)..]))
  {
    var alen := GetLE16(rest[0..2]);
    var tail := rest[Min(Align(alen), |rest|)..];
    var a := Attr(GetLE16(rest[2..4]) % 0x4000, rest[ATTR_HEADER..alen]);
    hide Step;
    match Walk(tail) {
      case None =>
      case Some(attrs) =>
        assert Walk(rest) == Some([a] + attrs);
        assert ([a] + attrs)[0] == a && ([a] + attrs)[1..] == attrs;
    }
  }

  // ---------------------------------------------------------------- one read

  /** What one read means: the packets of its messages in order, and whether no message was
      malformed. */
  datatype Reading = Reading(packets: seq<Packet>, complete: bool)

  /** The messages of a buffer, or the first few of them. */
  function Messages(b: Buffer, limit: Option<nat>): Reading
    decreases |b|
  {
    if |b| < MSG_HEADER || limit == Some(0) then Reading([], true)
    else
      var len := GetLE32(b[0..4]);
      if len < MSG_HEADER || len > |b| then Reading([], false)
      else
        var rest := b[Min(Align(len), |b|)..];
        if GetLE16(b[4..6]) == PACKET_TYPE then
          match Meaning(b[MSG_HEADER..len])
          case None => Reading([], false)
          case Some(p) => var r := Messages(rest, Less(limit)); Reading([p] + r.packets, r.complete)
        else Messages(rest, Less(limit))
  }

  function Less(limit: Option<nat>): Option<nat> {
    if limit.Some? && limit.value > 0 then Some(limit.value - 1) else limit
  }

  /** Fewer messages are the first packets, and no more of them are malformed. */
  lemma FirstMessages(b: Buffer, limit: Option<nat>)
    ensures Messages(b, limit).packets <= Messages(b, None).packets
    ensures Messages(b, None).complete ==> Messages(b, limit).complete
    ensures !Messages(b, limit).complete ==> Messages(b, limit) == Messages(b, None)
    decreases |b|
  {
    hide Meaning;
    if |b| >= MSG_HEADER && limit != Some(0) {
      var len := GetLE32(b[0..4]);
      if MSG_HEADER <= len <= |b| {
        FirstMessages(b[Min(Align(len), |b|)..], Less(limit));
      }
    }
  }

  /** forEachPacket, with the callback's argument collected: all the packets in order, and
      false for a malformed message. The context is looked at after every message; `limit` is
      how many have been walked when it is found cancelled. */
  method ForEachPacket(b: Buffer, limit: Option<nat>) returns (seen: seq<Packet>, ok: bool)
    requires limit != Some(0)
    ensures seen == Messages(b, limit).packets && ok == Messages(b, limit).complete
  {
    seen := [];
    var rest, left := b, limit;
    while |rest| >= MSG_HEADER
      invariant left != Some(0)
      invariant Messages(b, limit).packets == seen + Messages(rest, left).packets
      invariant Messages(b, limit).complete == Messages(rest, left).complete
      decreases |rest|
    {
      var len := GetLE32(rest[0..4]);
      if len < MSG_HEADER || len > |rest| {
        return seen, false;
      }
      ghost var before := seen;
      var next := rest[Min(Align(len), |rest|)..];
      if GetLE16(rest[4..6]) == PACKET_TYPE {
        var p := ParsePacket(rest[MSG_HEADER..len]);
        if p.None? {
          return seen, false;
        }
        seen := seen + [p.value];
        assert before + ([p.value] + Messages(next, Less(left)).packets) == seen + Messages(next, Less(left)).packets;
      }
      rest, left := next, Less(left);
      if left == Some(0) {
        return seen, true;
      }
    }
    return seen, true;
  }

  // ---------------------------------------------------------------- the kernel's side

  // The kernel's own numbers: NFNL_SUBSYS_QUEUE is 3 and NFQNL_MSG_PACKET 0; of the queue's
  // attributes PACKET_HDR is 1, MARK 3, PAYLOAD 10, CT 11 and CAP_LEN 13; a conntrack MARK is 8.

  /** One message as the kernel writes it; `head` is what follows the type in the header,
      `gen` the nfgenmsg. */
  datatype Message =
    | PacketMessage(head: Buffer, gen: Buffer, attrs: seq<Written>, padLast: bool)
    | OtherMessage(kind: nat, head: Buffer, body: Buffer)

  ghost predicate Wellformed(m: Message) {
    match m
    case PacketMessage(head, gen, attrs, padLast) =>
      |head| == 10 && |gen| == 4 && Writable(attrs) && Steps(NOTHING_YET, Bare(attrs)).Some?
      && 20 + |EncodeAttrs(attrs, padLast)| < 0x1_0000_0000
    case OtherMessage(kind, head, body) =>
      |head| == 10 && kind < 0x1_0000 && kind != 0x300 && 16 + |body| < 0x1_0000_0000
  }

  ghost function Body(m: Message): Buffer
    requires Wellformed(m)
  {
    match m
    case PacketMessage(_, gen, attrs, padLast) => gen + EncodeAttrs(attrs, padLast)
    case OtherMessage(_, _, body) => body
  }

  ghost function Kind(m: Message): nat {
    match m
    case PacketMessage(_, _, _, _) => 0x300
    case OtherMessage(kind, _, _) => kind
  }

  ghost function EncodeMessage(m: Message): Buffer
    requires Wellformed(m)
  {
    LE32(MSG_HEADER + |Body(m)|) + LE16(Kind(m)) + m.head + Body(m)
  }

  ghost function EncodeMessages(ms: seq<Message>, padLast: bool): Buffer
    requires forall i :: 0 <= i < |ms| ==> Wellformed(ms[i])
  {
    if ms == [] then []
    else
      EncodeMessage(ms[0])
      + (if |ms| > 1 || padLast then Padding(MSG_HEADER + |Body(ms[0])|) else [])
      + EncodeMessages(ms[1..], padLast)
  }

  /** The packet a message carries, in the kernel's terms. */
  ghost function Carried(m: Message): seq<Packet>
    requires Wellformed(m)
  {
    match m
    case PacketMessage(_, _, attrs, _) => [Finished(Steps(NOTHING_YET, Bare(attrs)).value)]
    case OtherMessage(_, _, _) => []
  }

  ghost function AllCarried(ms: seq<Message>): seq<Packet>
    requires forall i :: 0 <= i < |ms| ==> Wellformed(ms[i])
  {
    if ms == [] then [] else Carried(ms[0]) + AllCarried(ms[1..])
  }

  function First<T>(s: seq<T>, limit: Option<nat>): seq<T> {
    if limit.Some? && limit.value < |s| then s[..limit.value] else s
  }

  lemma BodyMeans(m: Message)
    requires Wellformed(m) && m.PacketMessage?
    ensures Meaning(Body(m)) == Some(Carried(m)[0])
  {
    WalkInverts(m.attrs, m.padLast);
    assert Body(m)[NFGEN..] == EncodeAttrs(m.attrs, m.padLast);
  }

  lemma EncodedMessageReads(m: Message, rest: Buffer)
    requires Wellformed(m)
    ensures var b := EncodeMessage(m) + rest; var len := MSG_HEADER + |Body(m)|;
            && |EncodeMessage(m)| == len && (Kind(m) == PACKET_TYPE <==> m.PacketMessage?)
            && GetLE32(b[0..4]) == len && GetLE16(b[4..6]) == Kind(m) && b[MSG_HEADER..len] == Body(m)
  {
    var b, len := EncodeMessage(m) + rest, MSG_HEADER + |Body(m)|;
    LE32Reads(len);
    LE16Reads(Kind(m));
    assert b[0..4] == LE32(len);
    assert b[4..6] == LE16(Kind(m));
  }

  /** The walk inverts the wire format: whatever messages the kernel wrote, each padded to
      four bytes but perhaps not the last, each with its own last attribute padded or not and
      each attribute with its own flag bits, exactly their packets come out, in order. */
  lemma {:induction false} ReadInverts(ms: seq<Message>, padLast: bool, limit: Option<nat>)
    requires forall i :: 0 <= i < |ms| ==> Wellformed(ms[i])
    ensures Messages(EncodeMessages(ms, padLast), limit) == Reading(AllCarried(First(ms, limit)), true)
    decreases |ms|
  {
    hide Meaning, Wellformed, EncodeMessage;
    if ms != [] {
      var m, tail := ms[0], EncodeMessages(ms[1..], padLast);
      var pad := if |ms| > 1 || padLast then Padding(MSG_HEADER + |Body(m)|) else [];
      var b := EncodeMessages(ms, padLast);
      assert b == EncodeMessage(m) + (pad + tail);
      EncodedMessageReads(m, pad + tail);
      assert b[Min(Align(MSG_HEADER + |Body(m)|), |b|)..] == tail;
      ReadInverts(ms[1..], padLast, Less(limit));
      if limit != Some(0) {
        assert First(ms, limit)[0] == m && First(ms, limit)[1..] == First(ms[1..], Less(limit));
      }
      if m.PacketMessage? {
        BodyMeans(m);
      }
    }
  }

  // ---------------------------------------------------------------- whole packets

  /** How the kernel writes one packet: what it puts into the headers, the flag bits of each
      attribute, the nested conntrack attributes before and after the mark, which of the last
      attributes it pads, and the original length where it copies less than the packet. */
  datatype Style = Style(
    head: Buffer, gen: Buffer, headerRest: Buffer,
    headerBits: nat, markBits: nat, ctBits: nat, ctMarkBits: nat, payloadBits: nat, capBits: nat,
    before: seq<Written>, after: seq<Written>, padNested: bool, padLast: bool, capLen: Option<nat>)

  ghost predicate PacketOk(p: Packet) {
    p.id < 0x1_0000_0000 && p.generationMark < 0x1_0000_0000 && p.routingMark < 0x1_0000_0000
    && ATTR_HEADER + |p.payload| < 0x1_0000
  }

  /** The style can be written, and says that the packet was truncated exactly if it was. */
  ghost predicate StyleFits(p: Packet, s: Style) {
    && |s.head| == 10 && |s.gen| == 4 && ATTR_HEADER + 4 + |s.headerRest| < 0x1_0000
    && s.headerBits < 4 && s.markBits < 4 && s.ctBits < 4 && s.ctMarkBits < 4 && s.payloadBits < 4 && s.capBits < 4
    && Writable(s.before) && Writable(s.after)
    && (forall i :: 0 <= i < |s.before| ==> s.before[i].attr.kind != 8)
    && (s.capLen.Some? ==> 0 < s.capLen.value < 0x1_0000_0000)
    && (p.truncated <==> s.capLen.Some? && s.capLen.value > |p.payload|)
  }

  /** The nested conntrack list. */
  ghost function Nested(p: Packet, s: Style): seq<Written>
    requires PacketOk(p)
  {
    s.before + ([Written(Attr(8, BE32(p.generationMark)), s.ctMarkBits)] + s.after)
  }

  ghost predicate NestedFits(p: Packet, s: Style)
    requires PacketOk(p)
  {
    Writable(Nested(p, s)) && ATTR_HEADER + |EncodeAttrs(Nested(p, s), s.padNested)| < 0x1_0000
  }

  /** Header, routing mark, nested conntrack list, payload, and the original length. */
  ghost function Described(p: Packet, s: Style): seq<Written>
    requires PacketOk(p) && StyleFits(p, s) && NestedFits(p, s)
  {
    [Written(Attr(1, BE32(p.id) + s.headerRest), s.headerBits),
     Written(Attr(3, BE32(p.routingMark)), s.markBits),
     Written(Attr(11, EncodeAttrs(Nested(p, s), s.padNested)), s.ctBits),
     Written(Attr(10, p.payload), s.payloadBits)]
    + (if s.capLen.Some? then [Written(Attr(13, BE32(s.capLen.value)), s.capBits)] else [])
  }

  /** The first mark of a nested list is found behind whatever precedes it, with any bits. */
  lemma {:induction false} NestedMark(before: seq<Written>, mark: nat, bits: nat, after: seq<Written>, pad: bool)
    requires mark < 0x1_0000_0000 && bits < 4 && Writable(before) && Writable(after)
    requires forall i :: 0 <= i < |before| ==> before[i].attr.kind != 8
    ensures |BE32(mark)| == 4
    ensures var ws := before + ([Written(Attr(8, BE32(mark)), bits)] + after);
            Writable(ws) && FirstMark(EncodeAttrs(ws, pad)) == Ok(Some(mark))
    decreases |before|
  {
    BE32Reads(mark);
    var m := Written(Attr(8, BE32(mark)), bits);
    var ws := before + ([m] + after);
    assert Writable(ws);
    EncodedAttrsRead(ws, pad);
    var b := EncodeAttrs(ws, pad);
    if before == [] {
      assert ws[0] == m;
      assert b[4..8] == BE32(mark);
    } else {
      assert ws[0] == before[0] && ws[1..] == before[1..] + ([m] + after);
      NestedMark(before[1..], mark, bits, after, pad);
      hide EncodeAttrs;
    }
  }

  lemma BareSplits(ws: seq<Written>)
    requires ws != []
    ensures Bare(ws)[0] == ws[0].attr && Bare(ws)[1..] == Bare(ws[1..]) && Bare(ws) != []
  {
  }

  lemma OneStep(g: Gathered, ws: seq<Written>, next: Gathered)
    requires ws != [] && Step(g, ws[0].attr) == Some(next)
    ensures Steps(g, Bare(ws)) == Steps(next, Bare(ws[1..]))
  {
    hide Step;
    BareSplits(ws);
  }

  lemma StyledNested(p: Packet, s: Style)
    requires PacketOk(p) && StyleFits(p, s) && NestedFits(p, s)
    ensures FirstMark(EncodeAttrs(Nested(p, s), s.padNested)) == Ok(Some(p.generationMark))
  {
    NestedMark(s.before, p.generationMark, s.ctMarkBits, s.after, s.padNested);
    hide FirstMark, EncodeAttrs;
  }

  /** Id, both marks, payload and the truncation flag survive, in whatever style the packet is
      written. */
  lemma PacketRoundTrip(p: Packet, s: Style)
    requires PacketOk(p) && StyleFits(p, s) && NestedFits(p, s)
    ensures Steps(NOTHING_YET, Bare(Described(p, s))).Some?
    ensures Finished(Steps(NOTHING_YET, Bare(Described(p, s))).value) == p
  {
    BE32Reads(p.id);
    BE32Reads(p.routingMark);
    StyledNested(p, s);
    var ws := Described(p, s);
    var g1 := NOTHING_YET.(id := p.id);
    var g2 := g1.(routingMark := p.routingMark);
    var g3 := g2.(generationMark := p.generationMark);
    var g4 := g3.(payload := p.payload);
    hide FirstMark, BE32, GetBE32, EncodeAttrs, Steps, Bare, Nested;
    assert Step(NOTHING_YET, ws[0].attr) == Some(g1) by {
      assert (BE32(p.id) + s.headerRest)[..4] == BE32(p.id);
    }
    assert Step(g1, ws[1].attr) == Some(g2) by {
      assert BE32(p.routingMark)[..4] == BE32(p.routingMark);
    }
    assert Step(g2, ws[2].attr) == Some(g3);
    assert Step(g3, ws[3].attr) == Some(g4);
    FourSteps(NOTHING_YET, ws, g1, g2, g3, g4);
    LastStep(p, s, g4);
  }

  lemma LastStep(p: Packet, s: Style, g: Gathered)
    requires PacketOk(p) && StyleFits(p, s) && NestedFits(p, s) && g.capLen == 0
    requires Finished(g.(capLen := if s.capLen.Some? then s.capLen.value else 0)) == p
    ensures Steps(g, Bare(Described(p, s)[4..])).Some?
    ensures Finished(Steps(g, Bare(Described(p, s)[4..])).value) == p
  {
    var ws := Described(p, s);
    hide FirstMark, GetBE32, EncodeAttrs, Nested;
    if s.capLen.Some? {
      BE32Reads(s.capLen.value);
      hide BE32;
      assert BE32(s.capLen.value)[..4] == BE32(s.capLen.value);
      assert ws[4..] == [ws[4]] && ws[4..][1..] == [];
      assert Step(g, ws[4].attr) == Some(g.(capLen := s.capLen.value));
      OneStep(g, ws[4..], g.(capLen := s.capLen.value));
    } else {
      assert ws[4..] == [];
      assert g.(capLen := 0) == g;
    }
  }

  lemma FourSteps(g: Gathered, ws: seq<Written>, g1: Gathered, g2: Gathered, g3: Gathered, g4: Gathered)
    requires |ws| >= 4
    requires Step(g, ws[0].attr) == Some(g1) && Step(g1, ws[1].attr) == Some(g2)
    requires Step(g2, ws[2].attr) == Some(g3) && Step(g3, ws[3].attr) == Some(g4)
    ensures Steps(g, Bare(ws)) == Steps(g4, Bare(ws[4..]))
  {
    hide Step, Steps, Bare;
    assert ws[1..][1..] == ws[2..] && ws[2..][1..] == ws[3..] && ws[3..][1..] == ws[4..];
    OneStep(g, ws, g1);
    OneStep(g1, ws[1..], g2);
    OneStep(g2, ws[2..], g3);
    OneStep(g3, ws[3..], g4);
  }

  /** What the kernel puts into one read: packets, each in its own style, and messages of other
      kinds. */
  datatype Item = APacket(packet: Packet, style: Style) | Another(kind: nat, head: Buffer, body: Buffer)

  ghost predicate ItemOk(i: Item) {
    match i
    case APacket(p, s) =>
      && PacketOk(p) && StyleFits(p, s) && NestedFits(p, s) && Writable(Described(p, s))
      && 20 + |EncodeAttrs(Described(p, s), s.padLast)| < 0x1_0000_0000
    case Another(kind, head, body) =>
      |head| == 10 && kind < 0x1_0000 && kind != 0x300 && 16 + |body| < 0x1_0000_0000
  }

  ghost function ToMessage(i: Item): Message
    requires ItemOk(i)
  {
    match i
    case APacket(p, s) => PacketMessage(s.head, s.gen, Described(p, s), s.padLast)
    case Another(kind, head, body) => OtherMessage(kind, head, body)
  }

  ghost function ToMessages(items: seq<Item>): seq<Message>
    requires forall i :: 0 <= i < |items| ==> ItemOk(items[i])
  {
    if items == [] then [] else [ToMessage(items[0])] + ToMessages(items[1..])
  }

  ghost function PacketsOf(items: seq<Item>): seq<Packet> {
    if items == [] then []
    else (match items[0] case APacket(p, _) => [p] case Another(_, _, _) => []) + PacketsOf(items[1..])
  }

  lemma ItemCarries(i: Item)
    requires ItemOk(i)
    ensures Wellformed(ToMessage(i))
    ensures Carried(ToMessage(i)) == (match i case APacket(p, _) => [p] case Another(_, _, _) => [])
  {
    match i
    case APacket(p, s) =>
      PacketRoundTrip(p, s);
      hide Steps, EncodeAttrs, Bare, Described, PacketOk, NestedFits;
    case Another(_, _, _) =>
  }

  lemma {:induction false} ItemsCarry(items: seq<Item>)
    requires forall i :: 0 <= i < |items| ==> ItemOk(items[i])
    ensures forall i :: 0 <= i < |ToMessages(items)| ==> Wellformed(ToMessages(items)[i])
    ensures AllCarried(ToMessages(items)) == PacketsOf(items)
    decreases |items|
  {
    if items != [] {
      ItemCarries(items[0]);
      ItemsCarry(items[1..]);
      hide Wellformed, ItemOk, Carried, ToMessage;
      assert ToMessages(items)[1..] == ToMessages(items[1..]);
    }
  }

  /** The bytes of one read. */
  ghost function OnTheWire(items: seq<Item>, padLast: bool): Buffer
    requires forall i :: 0 <= i < |items| ==> ItemOk(items[i])
  {
    ItemsCarry(items);
    EncodeMessages(ToMessages(items), padLast)
  }

  /** From the kernel's packets to ours: for every list of packets, each written in any style
      and with any flag bits, padded or not at the end and mixed with other messages, one read
      yields exactly those packets in order; cancelled, it yields those of the messages walked
      until then. */
  method ReadPackets(b: Buffer, limit: Option<nat>, ghost items: seq<Item>, ghost padLast: bool) returns (seen: seq<Packet>, ok: bool)
    requires forall i :: 0 <= i < |items| ==> ItemOk(items[i])
    requires b == OnTheWire(items, padLast) && limit != Some(0)
    ensures ok && seen == PacketsOf(First(items, limit))
    ensures limit.None? ==> seen == PacketsOf(items)
  {
    ItemsCarry(items);
    ReadInverts(ToMessages(items), padLast, limit);
    FirstItems(items, limit);
    ItemsCarry(First(items, limit));
    FirstIsAll(items);
    hide *;
    seen, ok := ForEachPacket(b, limit);
  }

  lemma FirstIsAll(items: seq<Item>)
    ensures First(items, None) == items
  {
  }

  lemma {:induction false} FirstItems(items: seq<Item>, limit: Option<nat>)
    requires forall i :: 0 <= i < |items| ==> ItemOk(items[i])
    ensures forall i :: 0 <= i < |First(items, limit)| ==> ItemOk(First(items, limit)[i])
    ensures First(ToMessages(items), limit) == ToMessages(First(items, limit))
    decreases |items|
  {
    hide ItemOk, ToMessage;
    if items != [] && limit != Some(0) {
      FirstItems(items[1..], Less(limit));
      assert First(items, limit)[0] == items[0] && First(items, limit)[1..] == First(items[1..], Less(limit));
      assert ToMessages(items)[1..] == ToMessages(items[1..]);
      assert First(ToMessages(items), limit) == [ToMessage(items[0])] + First(ToMessages(items[1..]), Less(limit));
    } else if items != [] {
      assert First(items, limit) == [] && First(ToMessages(items), limit) == [];
    }
  }
}
