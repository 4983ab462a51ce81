/** Writing verdict messages into one buffer that is reused for every message. */
module Marshal {
  import opened Wrappers
  import opened Netlink

  const REQUEST := 1
  const VERSION := 0
  /** Netlink header, nfgenmsg and the verdict attribute. */
  const FIXED := 32

  /** What names a queue in the messages it sends. */
  datatype Sender = Sender(family: Byte, num: nat)

  datatype Verdict = Verdict(msgType: nat, id: nat, verdict: nat, replacement: Option<Buffer>)

  predicate Representable(s: Sender, v: Verdict) {
    s.num < 0x1_0000 && v.msgType < 256 && v.id < 0x1_0000_0000 && v.verdict < 0x1_0000_0000
  }

  function Total(v: Verdict): nat {
    FIXED + (match v.replacement case None => 0 case Some(r) => ATTR_HEADER + Align(|r|))
  }

  /** The header up to the verdict attribute. */
  function Head(s: Sender, v: Verdict): Buffer
    requires Representable(s, v)
  {
    LE32(Total(v) % 0x1_0000_0000) + LE16(SUBSYS_QUEUE * 256 + v.msgType) + LE16(REQUEST) + Zeros(8)
    + [s.family, VERSION] + BE16(s.num)
  }

  function VerdictAttr(v: Verdict): Buffer
    requires v.id < 0x1_0000_0000 && v.verdict < 0x1_0000_0000
  {
    LE16(ATTR_HEADER + 8) + LE16(NFQA_VERDICT_HDR) + (BE32(v.verdict) + BE32(v.id))
  }

  /** The replacement attribute; its length field has 16 bits, whatever the length is. */
  function ReplacementAttr(r: Buffer): Buffer {
    LE16((ATTR_HEADER + |r|) % 0x1_0000) + LE16(NFQA_PAYLOAD) + r + Zeros(Align(|r|) - |r|)
  }

  /** The message for one verdict: a function of the verdict and the queue alone. */
  function MessageFor(s: Sender, v: Verdict): Buffer
    requires Representable(s, v)
  {
    Head(s, v) + VerdictAttr(v) + (match v.replacement case None => [] case Some(r) => ReplacementAttr(r))
  }

  lemma MessageLength(s: Sender, v: Verdict)
    requires Representable(s, v)
    ensures |MessageFor(s, v)| == Total(v) && |Head(s, v)| == 20 && |VerdictAttr(v)| == 12
  {
  }

  // ---------------------------------------------------------------- the reused buffer

  class Marshaller {
    const sender: Sender
    var vbuf: array<Byte>

    constructor (sender: Sender, capacity: nat)
      ensures this.sender == sender && fresh(vbuf)
    {
      this.sender := sender;
      vbuf := new Byte[capacity](i => 0);
    }

    /** Writes bytes at off; nothing else changes. */
    method Put(off: nat, bytes: Buffer)
      requires off + |bytes| <= vbuf.Length
      modifies vbuf
      ensures vbuf[..off + |bytes|] == old(vbuf[..off]) + bytes
      ensures forall k :: off + |bytes| <= k < vbuf.Length ==> vbuf[k] == old(vbuf[k])
    {
      var i := 0;
      while i < |bytes|
        invariant 0 <= i <= |bytes|
        invariant forall k :: 0 <= k < i ==> vbuf[off + k] == bytes[k]
        invariant forall k :: 0 <= k < off || off + i <= k < vbuf.Length ==> vbuf[k] == old(vbuf[k])
      {
        vbuf[off + i] := bytes[i];
        i := i + 1;
      }
      forall k | 0 <= k < off + |bytes|
        ensures vbuf[k] == (old(vbuf[..off]) + bytes)[k]
      {
        assert k >= off ==> vbuf[off + (k - off)] == bytes[k - off];
      }
    }

    /** The header: sequence number and port id are cleared first, the rest is written over
        whatever an earlier message left. */
    method PutHead(v: Verdict)
      requires Representable(sender, v) && FIXED <= vbuf.Length
      modifies vbuf
      ensures vbuf[..MSG_HEADER + NFGEN] == Head(sender, v)
    {
      Put(8, Zeros(8));
      Put(0, LE32(Total(v) % 0x1_0000_0000));
      Put(4, LE16(SUBSYS_QUEUE * 256 + v.msgType));
      Put(6, LE16(REQUEST));
      assert vbuf[..16] == vbuf[..8] + Zeros(8);
      Put(16, [sender.family, VERSION]);
      Put(18, BE16(sender.num));
    }

    /** Header and verdict attribute. */
    method PutFixed(v: Verdict)
      requires Representable(sender, v) && FIXED <= vbuf.Length
      modifies vbuf
      ensures vbuf[..FIXED] == Head(sender, v) + VerdictAttr(v)
    {
      PutHead(v);
      hide Head;
      Put(20, LE16(ATTR_HEADER + 8));
      Put(22, LE16(NFQA_VERDICT_HDR));
      Put(24, BE32(v.verdict));
      Put(28, BE32(v.id));
    }

    /** The replacement attribute with its alignment tail, after the fixed part. */
    method PutReplacement(r: Buffer)
      requires FIXED + ATTR_HEADER + Align(|r|) <= vbuf.Length
      modifies vbuf
      ensures vbuf[..FIXED + ATTR_HEADER + Align(|r|)] == old(vbuf[..FIXED]) + ReplacementAttr(r)
    {
      hide Align, LE16, Zeros, ReplacementAttr;
      ReplacementParts(r);
      var length, kind, tail := LE16((ATTR_HEADER + |r|) % 0x1_0000), LE16(NFQA_PAYLOAD), Zeros(Align(|r|) - |r|);
      Put(FIXED, length);
      Put(FIXED + 2, kind);
      Put(FIXED + ATTR_HEADER, r);
      Put(FIXED + ATTR_HEADER + |r|, tail);
    }

    /** marshalVerdict. The bytes are those of MessageFor, whatever the buffer held before
        and however long it was. */
    method MarshalVerdict(v: Verdict) returns (b: Buffer)
      requires Representable(sender, v)
      modifies this`vbuf, vbuf
      ensures b == MessageFor(sender, v)
      ensures |b| <= vbuf.Length && vbuf[..|b|] == b
      ensures vbuf == old(vbuf) || fresh(vbuf)
      ensures old(vbuf.Length) >= |b| ==> vbuf == old(vbuf)
    {
      hide *;
      MessageLength(sender, v);
      MessageParts(sender, v);
      TotalIs(v);
      var total := Total(v);
      if vbuf.Length < total {
        vbuf := new Byte[total * 2](i => 0);
      }
      PutFixed(v);
      if v.replacement.Some? {
        PutReplacement(v.replacement.value);
      }
      b := vbuf[..total];
    }
  }

  lemma ReplacementParts(r: Buffer)
    ensures var length, kind, tail := LE16((ATTR_HEADER + |r|) % 0x1_0000), LE16(NFQA_PAYLOAD), Zeros(Align(|r|) - |r|);
            && |length| == 2 && |kind| == 2 && |tail| == Align(|r|) - |r|
            && ReplacementAttr(r) == length + kind + r + tail
  {
  }

  lemma TotalIs(v: Verdict)
    ensures Total(v) == if v.replacement.Some? then FIXED + ATTR_HEADER + Align(|v.replacement.value|) else FIXED
    ensures FIXED <= Total(v)
    ensures (v.replacement.Some? ==> |v.replacement.value| <= LONGEST) ==> Total(v) < 0x1_0000_0000
  {
  }

  lemma MessageParts(s: Sender, v: Verdict)
    requires Representable(s, v)
    ensures MessageFor(s, v) == Head(s, v) + VerdictAttr(v) + (if v.replacement.Some? then ReplacementAttr(v.replacement.value) else [])
    ensures |Head(s, v)| == MSG_HEADER + NFGEN
    ensures MessageFor(s, v)[MSG_HEADER + NFGEN..] == VerdictAttr(v) + (if v.replacement.Some? then ReplacementAttr(v.replacement.value) else [])
  {
    MessageLength(s, v);
    hide Head, VerdictAttr, ReplacementAttr;
  }

  // ---------------------------------------------------------------- reading a verdict back

  /** What the kernel reads out of a verdict message: its type, the queue it is for, and its
      attributes walked like any others. The numbers are the kernel's own: the queue subsystem
      is 3, a request has flag 1, NFNETLINK_V0 is 0, and of the attributes VERDICT_HDR is 2 and
      PAYLOAD 10. */
  function Decode(s: Sender, b: Buffer): Option<Verdict> {
    if |b| < 20 || GetLE32(b[0..4]) != |b| then None
    else if GetLE16(b[4..6]) / 256 != 3 || GetLE16(b[6..8]) != 1 then None
    else if b[16] != s.family || b[17] != 0 || b[18] as int * 256 + b[19] as int != s.num then None
    else
      match Walk(b[20..])
      case None => None
      case Some(attrs) =>
        if |attrs| == 0 || attrs[0].kind != 2 || |attrs[0].data| != 8 then None
        else
          var header := attrs[0].data;
          var v := Verdict(GetLE16(b[4..6]) % 256, GetBE32(header[4..8]), GetBE32(header[0..4]), None);
          if |attrs| == 1 then Some(v)
          else if |attrs| == 2 && attrs[1].kind == 10 then Some(v.(replacement := Some(attrs[1].data)))
          else None
  }

  const LONGEST := 65531

  lemma VerdictAttrIsEncoded(v: Verdict)
    requires v.id < 0x1_0000_0000 && v.verdict < 0x1_0000_0000
    ensures Encodable(Attr(NFQA_VERDICT_HDR, BE32(v.verdict) + BE32(v.id)))
    ensures VerdictAttr(v) == EncodeAttr(Attr(NFQA_VERDICT_HDR, BE32(v.verdict) + BE32(v.id)), 0)
  {
  }

  ghost function AttrsOf(v: Verdict): seq<Attr>
    requires v.id < 0x1_0000_0000 && v.verdict < 0x1_0000_0000
  {
    [Attr(NFQA_VERDICT_HDR, BE32(v.verdict) + BE32(v.id))]
    + (match v.replacement case None => [] case Some(r) => [Attr(NFQA_PAYLOAD, r)])
  }

  lemma ReplacementIsEncoded(r: Buffer)
    requires |r| <= LONGEST
    ensures Encodable(Attr(NFQA_PAYLOAD, r))
    ensures ReplacementAttr(r) == EncodeAttr(Attr(NFQA_PAYLOAD, r), 0) + Padding(ATTR_HEADER + |r|)
  {
    assert Padding(ATTR_HEADER + |r|) == Zeros(Align(|r|) - |r|);
  }

  /** Up to 65531 bytes the attributes walk back to exactly the header and the replacement. */
  lemma AttrsWalkBack(s: Sender, v: Verdict)
    requires Representable(s, v) && (v.replacement.Some? ==> |v.replacement.value| <= LONGEST)
    ensures Walk(MessageFor(s, v)[MSG_HEADER + NFGEN..]) == Some(AttrsOf(v))
  {
    MessageParts(s, v);
    VerdictAttrIsEncoded(v);
    BE32Reads(v.verdict);
    BE32Reads(v.id);
    AttrsAre(v);
    hide *;
    var h := Attr(NFQA_VERDICT_HDR, BE32(v.verdict) + BE32(v.id));
    if v.replacement.Some? {
      var a := Attr(NFQA_PAYLOAD, v.replacement.value);
      ReplacementIsEncoded(v.replacement.value);
      EncodeTwo(h, a);
      WalkTwo(h, a);
    } else {
      assert VerdictAttr(v) + [] == VerdictAttr(v);
      EncodeOne(h);
      WalkOne(h);
    }
  }

  lemma AttrsAre(v: Verdict)
    requires v.id < 0x1_0000_0000 && v.verdict < 0x1_0000_0000
    ensures var h := Attr(NFQA_VERDICT_HDR, BE32(v.verdict) + BE32(v.id));
            AttrsOf(v) == if v.replacement.Some? then [h, Attr(NFQA_PAYLOAD, v.replacement.value)] else [h]
  {
    hide BE32;
  }

  lemma WalkOne(h: Attr)
    requires Encodable(h)
    ensures Writable([Written(h, 0)]) && Walk(EncodeAttrs([Written(h, 0)], false)) == Some([h])
  {
    hide Walk, EncodeAttrs;
    WalkInverts([Written(h, 0)], false);
    assert Bare([Written(h, 0)]) == [h];
  }

  lemma WalkTwo(h: Attr, a: Attr)
    requires Encodable(h) && Encodable(a)
    ensures Writable([Written(h, 0), Written(a, 0)])
    ensures Walk(EncodeAttrs([Written(h, 0), Written(a, 0)], true)) == Some([h, a])
  {
    hide Walk, EncodeAttrs;
    WalkInverts([Written(h, 0), Written(a, 0)], true);
    assert [Written(h, 0), Written(a, 0)][1..] == [Written(a, 0)];
    assert Bare([Written(a, 0)]) == [a];
    assert Bare([Written(h, 0), Written(a, 0)]) == [h, a];
  }

  lemma EncodeOne(h: Attr)
    requires Encodable(h)
    ensures EncodeAttrs([Written(h, 0)], false) == EncodeAttr(h, 0)
  {
    assert [h][1..] == [];
  }

  lemma EncodeTwo(h: Attr, a: Attr)
    requires Encodable(h) && Encodable(a) && |h.data| == 8
    ensures EncodeAttrs([Written(h, 0), Written(a, 0)], true) == EncodeAttr(h, 0) + (EncodeAttr(a, 0) + Padding(ATTR_HEADER + |a.data|))
  {
    assert [h, a][1..] == [a] && [a][1..] == [];
    assert Padding(ATTR_HEADER + |h.data|) == [];
    assert EncodeAttrs([Written(a, 0)], true) == EncodeAttr(a, 0) + Padding(ATTR_HEADER + |a.data|) + [];
  }

  lemma HeadReads(s: Sender, v: Verdict)
    requires Representable(s, v)
    ensures var b := MessageFor(s, v);
            && |b| == Total(v) >= MSG_HEADER + NFGEN
            && GetLE32(b[0..4]) == Total(v) % 0x1_0000_0000
            && GetLE16(b[4..6]) == SUBSYS_QUEUE * 256 + v.msgType && GetLE16(b[6..8]) == REQUEST
            && b[16] == s.family && b[17] == VERSION && b[18] as int * 256 + b[19] as int == s.num
  {
    var b := MessageFor(s, v);
    MessageLength(s, v);
    LE32Reads(Total(v) % 0x1_0000_0000);
    LE16Reads(SUBSYS_QUEUE * 256 + v.msgType);
    assert b[0..4] == LE32(Total(v) % 0x1_0000_0000);
    assert b[4..6] == LE16(SUBSYS_QUEUE * 256 + v.msgType);
    assert b[6..8] == LE16(REQUEST);
    assert b[16..18] == [s.family, VERSION] && b[18..20] == BE16(s.num);
    assert b[16] == b[16..18][0] && b[17] == b[16..18][1] && b[18] == b[18..20][0] && b[19] == b[18..20][1];
    LE16Reads(REQUEST);
  }

  lemma VerdictReads(v: Verdict)
    requires v.id < 0x1_0000_0000 && v.verdict < 0x1_0000_0000
    ensures var d := AttrsOf(v)[0].data;
            |d| == 8 && GetBE32(d[0..4]) == v.verdict && GetBE32(d[4..8]) == v.id
  {
    BE32Reads(v.verdict);
    BE32Reads(v.id);
    var d := BE32(v.verdict) + BE32(v.id);
    assert d[0..4] == BE32(v.verdict) && d[4..8] == BE32(v.id);
  }

  /** Every verdict reads back exactly as it was sent if and only if its replacement fits the
      attribute's 16-bit length. */
  lemma VerdictRoundTripsExactlyWhenItFits(s: Sender, v: Verdict)
    requires Representable(s, v)
    ensures Decode(s, MessageFor(s, v)) == Some(v) <==> (v.replacement.Some? ==> |v.replacement.value| <= LONGEST)
  {
    hide *;
    if v.replacement.Some? && |v.replacement.value| > LONGEST {
      TooLongReadsShort(s, v);
    } else {
      FittingReadsBack(s, v);
    }
  }

  lemma FittingReadsBack(s: Sender, v: Verdict)
    requires Representable(s, v) && (v.replacement.Some? ==> |v.replacement.value| <= LONGEST)
    ensures Decode(s, MessageFor(s, v)) == Some(v)
  {
    hide *;
    HeadReads(s, v);
    TotalIs(v);
    RepresentableMeans(s, v);
    AttrsWalkBack(s, v);
    VerdictReads(v);
    AttrsAre(v);
    DecodeGathers(s, MessageFor(s, v), AttrsOf(v), v);
  }

  lemma RepresentableMeans(s: Sender, v: Verdict)
    requires Representable(s, v)
    ensures v.msgType < 256 && v.id < 0x1_0000_0000 && v.verdict < 0x1_0000_0000
  {
  }

  lemma DecodeGathers(s: Sender, b: Buffer, attrs: seq<Attr>, v: Verdict)
    requires |b| >= MSG_HEADER + NFGEN && GetLE32(b[0..4]) == |b| && v.msgType < 256
    requires GetLE16(b[6..8]) == REQUEST && b[16] == s.family && b[17] == VERSION && b[18] as int * 256 + b[19] as int == s.num
    requires GetLE16(b[4..6]) == SUBSYS_QUEUE * 256 + v.msgType && Walk(b[MSG_HEADER + NFGEN..]) == Some(attrs)
    requires |attrs| > 0 && attrs[0].kind == NFQA_VERDICT_HDR && |attrs[0].data| == 8
    requires GetBE32(attrs[0].data[0..4]) == v.verdict && GetBE32(attrs[0].data[4..8]) == v.id
    requires attrs[1..] == if v.replacement.Some? then [Attr(NFQA_PAYLOAD, v.replacement.value)] else []
    ensures Decode(s, b) == Some(v)
  {
    hide Walk, GetBE32, GetLE32, GetLE16;
    assert v.replacement.Some? ==> attrs[1] == attrs[1..][0];
  }

  /** Past the bound the length field wraps, so whatever is read back is shorter. */
  lemma TooLongReadsShort(s: Sender, v: Verdict)
    requires Representable(s, v) && v.replacement.Some? && |v.replacement.value| > LONGEST
    ensures Decode(s, MessageFor(s, v)) != Some(v)
  {
    var r := v.replacement.value;
    var h := Attr(NFQA_VERDICT_HDR, BE32(v.verdict) + BE32(v.id));
    MessageParts(s, v);
    VerdictAttrIsEncoded(v);
    BE32Reads(v.verdict);
    BE32Reads(v.id);
    EncodedAttrReads(h, 0, ReplacementAttr(r));
    ReplacementReads(r);
    var tail := MessageFor(s, v)[MSG_HEADER + NFGEN..];
    SecondIsShort(tail, ReplacementAttr(r));
    hide MessageFor, Walk, ReplacementAttr, GetBE32, GetLE32, GetLE16, VerdictAttr, EncodeAttr, BE32, Head;
  }

  lemma ReplacementReads(r: Buffer)
    ensures |ReplacementAttr(r)| >= ATTR_HEADER
    ensures GetLE16(ReplacementAttr(r)[0..2]) == (ATTR_HEADER + |r|) % 0x1_0000
  {
    LE16Reads((ATTR_HEADER + |r|) % 0x1_0000);
    assert ReplacementAttr(r)[0..2] == LE16((ATTR_HEADER + |r|) % 0x1_0000);
  }

  lemma SecondIsShort(tail: Buffer, rest: Buffer)
    requires |tail| >= 12 && GetLE16(tail[0..2]) == 12 && rest == tail[12..] && |rest| >= ATTR_HEADER
    ensures Walk(tail).Some? && |Walk(tail).value| >= 2 ==> |Walk(tail).value[1].data| == GetLE16(rest[0..2]) - ATTR_HEADER
  {
    assert Min(Align(12), |tail|) == 12;
    hide GetLE16;
    if Walk(rest).Some? {
      var alen := GetLE16(rest[0..2]);
      assert Walk(rest[Min(Align(alen), |rest|)..]).Some?;
    }
  }
}
