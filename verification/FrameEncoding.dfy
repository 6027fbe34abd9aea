/** Well-formed Ethernet/IPv4 frames, and the round trip through the parser. */
module FrameEncoding {
  import opened FlowTypes
  import opened Frames
  import opened Lists

  type Bytes = seq<byte>

  function Be16Of(v: uint16): (r: Bytes)
    ensures |r| == 2
  {
    [v / 256, v % 256]
  }

  function Be32Of(v: uint32): (r: Bytes)
    ensures |r| == 4
  {
    Be16Of(v / U16) + Be16Of(v % U16)
  }

  // ---------------------------------------------------------------- frames

  /** TCP: ports, 8 bytes, header length in words, the four bits after it, the rest. UDP: ports, the rest. ICMP: type,
      code, the rest. */
  datatype Segment =
    | Tcp(srcPort: uint16, dstPort: uint16, seqAck: Bytes, words: nat, reserved: nat, rest: Bytes)
    | Udp(srcPort: uint16, dstPort: uint16, rest: Bytes)
    | Icmp(icmpType: byte, code: byte, rest: Bytes)

  /** `words` is the header length, `total` the total length; `ident` is the five bytes from the
      identification to the time to live. */
  datatype Datagram = Datagram(words: nat, tos: byte, total: uint16, ident: Bytes, cksum: Bytes,
                               src: uint32, dst: uint32, options: Bytes, segment: Segment)

  /** `tags` are the control words of the stacked 802.1Q tags, outermost first. */
  datatype Ethernet = Ethernet(macs: Bytes, tags: seq<uint16>, ip: Datagram)

  predicate GoodSegment(s: Segment, len: int) {
    match s
    case Tcp(sp, dp, seqAck, words, reserved, _) =>
      |seqAck| == 8 && 5 <= words <= 15 && words * 4 <= len && reserved < 16
    case Udp(sp, dp, _) => UDP_HLEN <= len
    case Icmp(_, _, _) => true
  }

  predicate GoodDatagram(d: Datagram) {
    && 5 <= d.words <= 15 && d.words * 4 <= d.total
    && |d.ident| == 5 && |d.cksum| == 2 && |d.options| == d.words * 4 - 20
    && GoodSegment(d.segment, d.total - d.words * 4)
  }

  predicate GoodEthernet(e: Ethernet) {
    |e.macs| == 2 * ETH_ALEN && GoodDatagram(e.ip)
  }

  function Proto(s: Segment): nat {
    match s
    case Tcp(_, _, _, _, _, _) => TCP_PROTO
    case Udp(_, _, _) => UDP_PROTO
    case Icmp(_, _, _) => ICMP_PROTO
  }

  function SegmentBytes(s: Segment): Bytes
    requires GoodSegment(s, U16)
  {
    match s
    case Tcp(sp, dp, seqAck, words, reserved, rest) =>
      Be16Of(sp) + Be16Of(dp) + seqAck + [words * 16 + reserved] + rest
    case Udp(sp, dp, rest) => Be16Of(sp) + Be16Of(dp) + rest
    case Icmp(t, c, rest) => [t, c] + rest
  }

  /** The header before its options. */
  function FixedHeader(d: Datagram): (r: Bytes)
    requires GoodDatagram(d)
    ensures |r| == IP_HLEN
  {
    [0x40 + d.words, d.tos] + Be16Of(d.total) + d.ident + [Proto(d.segment)] + d.cksum + Be32Of(d.src) + Be32Of(d.dst)
  }

  function DatagramBytes(d: Datagram): Bytes
    requires GoodDatagram(d)
  {
    FixedHeader(d) + d.options + SegmentBytes(d.segment)
  }

  function TagBytes(tags: seq<uint16>): (r: Bytes)
    ensures |r| == 4 * |tags|
  {
    if tags == [] then [] else Be16Of(QINQ_ETYPE) + Be16Of(tags[0]) + TagBytes(tags[1..])
  }

  function Encode(e: Ethernet): Bytes
    requires GoodEthernet(e)
  {
    e.macs + TagBytes(e.tags) + Be16Of(IP_ETYPE) + DatagramBytes(e.ip)
  }

  // ---------------------------------------------------------------- what the parser should find

  /** The identifier of the innermost tag. */
  function Vlan(tags: seq<uint16>, outer: nat): nat {
    if tags == [] then outer else tags[|tags| - 1] % 0x1000
  }

  function KeyOf(e: Ethernet): Key {
    var s := e.ip.segment;
    Key(e.ip.src, e.ip.dst,
        match s case Tcp(sp, _, _, _, _, _) => sp case Udp(sp, _, _) => sp case Icmp(t, _, _) => t,
        match s case Tcp(_, dp, _, _, _, _) => dp case Udp(_, dp, _) => dp case Icmp(_, c, _) => c,
        Proto(s), Vlan(e.tags, NO_VLAN))
  }

  /** Where the transport header starts. */
  function SegmentStart(e: Ethernet): nat {
    2 * ETH_ALEN + 4 * |e.tags| + 2 + e.ip.words * 4
  }

  // ---------------------------------------------------------------- reading back

  /** Frame `f` holds `part` from byte `at` on. */
  ghost predicate Holds(f: Frame, at: nat, part: Bytes) {
    at + |part| <= |f.bytes| && f.bytes[at..at + |part|] == part
  }

  lemma HoldsByte(f: Frame, at: nat, part: Bytes, i: nat)
    requires Holds(f, at, part) && i < |part|
    ensures f.Byte(at + i) == part[i]
  {
    assert f.bytes[at..at + |part|][i] == f.bytes[at + i];
  }

  lemma HoldsSplit(f: Frame, at: nat, a: Bytes, b: Bytes)
    requires Holds(f, at, a + b)
    ensures Holds(f, at, a) && Holds(f, at + |a|, b)
  {
    var ab := a + b;
    assert f.bytes[at..at + |a|] == f.bytes[at..at + |ab|][..|a|] == a;
    assert f.bytes[at + |a|..at + |ab|] == f.bytes[at..at + |ab|][|a|..] == b;
  }

  lemma HoldsBe16(f: Frame, at: nat, v: uint16)
    requires Holds(f, at, Be16Of(v))
    ensures f.Be16(at) == v
  {
    HoldsByte(f, at, Be16Of(v), 0);
    HoldsByte(f, at, Be16Of(v), 1);
  }

  lemma HoldsBe32(f: Frame, at: nat, v: uint32)
    requires Holds(f, at, Be32Of(v))
    ensures f.Be32(at) == v
  {
    HoldsSplit(f, at, Be16Of(v / U16), Be16Of(v % U16));
    HoldsBe16(f, at, v / U16);
    HoldsBe16(f, at + 2, v % U16);
  }

  lemma ReadTwo(f: Frame, at: nat, v: uint16, w: uint16, rest: Bytes)
    requires Holds(f, at, Be16Of(v) + Be16Of(w) + rest)
    ensures f.Be16(at) == v && f.Be16(at + 2) == w && Holds(f, at + 4, rest)
  {
    HoldsSplit(f, at, Be16Of(v) + Be16Of(w), rest);
    HoldsSplit(f, at, Be16Of(v), Be16Of(w));
    HoldsBe16(f, at, v);
    HoldsBe16(f, at + 2, w);
  }

  lemma ReadTag(f: Frame, at: nat, tags: seq<uint16>)
    requires tags != []
    requires Holds(f, at, TagBytes(tags) + Be16Of(IP_ETYPE))
    ensures f.Be16(at) == QINQ_ETYPE && f.Be16(at + 2) == tags[0]
    ensures Holds(f, at + 4, TagBytes(tags[1..]) + Be16Of(IP_ETYPE))
  {
    Assoc(Be16Of(QINQ_ETYPE) + Be16Of(tags[0]), TagBytes(tags[1..]), Be16Of(IP_ETYPE));
    ReadTwo(f, at, QINQ_ETYPE, tags[0], TagBytes(tags[1..]) + Be16Of(IP_ETYPE));
  }

  lemma VlanOfRest(tags: seq<uint16>, outer: nat)
    requires tags != []
    ensures Vlan(tags[1..], tags[0] % 0x1000) == Vlan(tags, outer)
  {
  }

  /** Any number of tags is skipped, and the last one leaves its identifier. */
  lemma {:induction false} ParseTags(f: Frame, at: nat, tags: seq<uint16>, seen: Seen)
    requires Holds(f, at, TagBytes(tags) + Be16Of(IP_ETYPE))
    ensures ParseFrom(f, at, f.Be16(at), seen) ==
            ParseFrom(f, at + 4 * |tags|, IP_ETYPE, seen.(vlan := Vlan(tags, seen.vlan)))
    decreases |tags|
  {
    if tags == [] {
      assert TagBytes(tags) + Be16Of(IP_ETYPE) == Be16Of(IP_ETYPE);
      HoldsBe16(f, at, IP_ETYPE);
      assert seen.(vlan := seen.vlan) == seen;
    } else {
      ReadTag(f, at, tags);
      VlanOfRest(tags, seen.vlan);
      var next := seen.(vlan := tags[0] % 0x1000);
      ParseTags(f, at + 4, tags[1..], next);
      assert at + 4 + 4 * |tags[1..]| == at + 4 * |tags|;
    }
  }

  lemma ReadHeader(f: Frame, ip: nat, d: Datagram)
    requires GoodDatagram(d) && Holds(f, ip, FixedHeader(d))
    ensures IpHeaderLength(f, ip) == d.words * 4 && f.Be16(ip + 2) == d.total
    ensures f.Byte(ip + 9) == Proto(d.segment) && f.Be32(ip + 12) == d.src && f.Be32(ip + 16) == d.dst
  {
    var a := [0x40 + d.words, d.tos] + Be16Of(d.total) + d.ident + [Proto(d.segment)] + d.cksum;
    HoldsSplit(f, ip, a + Be32Of(d.src), Be32Of(d.dst));
    HoldsBe32(f, ip + 16, d.dst);
    HoldsSplit(f, ip, a, Be32Of(d.src));
    HoldsBe32(f, ip + 12, d.src);
    HoldsByte(f, ip, a, 0);
    HoldsByte(f, ip, a, 2);
    HoldsByte(f, ip, a, 3);
    HoldsByte(f, ip, a, 9);
  }

  /** The parser at the transport header. */
  function ParseEnd(f: Frame, at: nat, proto: nat, seen: Seen): Outcome {
    if at < f.caplen then ParseL4(f, at, proto, seen) else Ignored
  }

  lemma ParseDatagram(f: Frame, at: nat, ip: nat, d: Datagram, vlan: nat, end: nat, r: Outcome)
    requires GoodDatagram(d) && Holds(f, ip, FixedHeader(d)) && ip == at + 2 && end == ip + d.words * 4
    requires r == ParseFrom(f, at, IP_ETYPE, Seen(vlan, 0, 0, 0, 0))
    ensures r == ParseEnd(f, end, Proto(d.segment), Seen(vlan, d.src, d.dst, d.total, d.words * 4))
  {
    ReadHeader(f, ip, d);
    ParseHeader(f, at, vlan, d.words * 4, d.total, Proto(d.segment), d.src, d.dst, r);
  }

  /** The turn of the parser at an IP header with these fields. */
  lemma ParseHeader(f: Frame, at: nat, vlan: nat, hlen: nat, len: nat, proto: nat, src: nat, dst: nat, r: Outcome)
    requires r == ParseFrom(f, at, IP_ETYPE, Seen(vlan, 0, 0, 0, 0))
    requires IpHeaderLength(f, at + 2) == hlen && f.Be16(at + 4) == len && f.Byte(at + 11) == proto
    requires f.Be32(at + 14) == src && f.Be32(at + 18) == dst
    requires proto == TCP_PROTO || proto == UDP_PROTO || proto == ICMP_PROTO
    ensures r == if at + 2 + IP_HLEN >= f.caplen then Ignored
                 else if hlen < IP_MIN_HLEN || hlen > IP_MAX_HLEN || len < hlen then Malformed
                 else ParseEnd(f, at + 2 + hlen, proto, Seen(vlan, src, dst, len, hlen))
  {
  }

  lemma ReadTcp(f: Frame, at: nat, s: Segment)
    requires s.Tcp? && GoodSegment(s, U16) && Holds(f, at, SegmentBytes(s))
    ensures f.Be16(at) == s.srcPort && f.Be16(at + 2) == s.dstPort && f.Byte(at + 12) / 16 == s.words
  {
    var ports, words := Be16Of(s.srcPort) + Be16Of(s.dstPort), [s.words * 16 + s.reserved];
    HoldsSplit(f, at, ports + s.seqAck + words, s.rest);
    HoldsByte(f, at, ports + s.seqAck + words, 12);
    HoldsSplit(f, at, ports + s.seqAck, words);
    HoldsSplit(f, at, ports, s.seqAck);
    HoldsSplit(f, at, Be16Of(s.srcPort), Be16Of(s.dstPort));
    HoldsBe16(f, at, s.srcPort);
    HoldsBe16(f, at + 2, s.dstPort);
  }

  lemma ParseSegment(f: Frame, at: nat, d: Datagram, vlan: nat, e: Ethernet)
    requires GoodDatagram(d) && Holds(f, at, SegmentBytes(d.segment)) && e.ip == d && vlan == Vlan(e.tags, NO_VLAN)
    ensures ParseL4(f, at, Proto(d.segment), Seen(vlan, d.src, d.dst, d.total, d.words * 4)) == FlowPacket(KeyOf(e))
  {
    match d.segment
    case Tcp(sp, dp, seqAck, words, reserved, rest) =>
      ReadTcp(f, at, d.segment);
    case Udp(sp, dp, rest) =>
      HoldsSplit(f, at, Be16Of(sp) + Be16Of(dp), rest);
      HoldsSplit(f, at, Be16Of(sp), Be16Of(dp));
      HoldsBe16(f, at, sp);
      HoldsBe16(f, at + 2, dp);
    case Icmp(t, c, rest) =>
      HoldsByte(f, at, [t, c] + rest, 0);
      HoldsByte(f, at, [t, c] + rest, 1);
  }

  lemma HoldsFive(f: Frame, a: Bytes, b: Bytes, c: Bytes, d: Bytes, e: Bytes)
    requires f.bytes == a + b + (c + d + e)
    ensures Holds(f, |a|, b) && Holds(f, |a| + |b|, c) && Holds(f, |a| + |b| + |c| + |d|, e)
  {
    assert Holds(f, 0, a + b + (c + d + e));
    HoldsSplit(f, 0, a + b, c + d + e);
    HoldsSplit(f, 0, a, b);
    HoldsSplit(f, |a + b|, c + d, e);
    HoldsSplit(f, |a + b|, c, d);
  }

  /** Where the parts of `e` lie in the frame. */
  ghost predicate Laid(f: Frame, e: Ethernet)
    requires GoodDatagram(e.ip)
  {
    && Holds(f, 2 * ETH_ALEN, TagBytes(e.tags) + Be16Of(IP_ETYPE))
    && Holds(f, 2 * ETH_ALEN + 4 * |e.tags| + 2, FixedHeader(e.ip))
    && Holds(f, SegmentStart(e), SegmentBytes(e.ip.segment))
  }

  lemma Layout(f: Frame, e: Ethernet)
    requires GoodEthernet(e) && f.bytes == Encode(e)
    ensures Laid(f, e)
  {
    Assoc(e.macs, TagBytes(e.tags), Be16Of(IP_ETYPE));
    HoldsFive(f, e.macs, TagBytes(e.tags) + Be16Of(IP_ETYPE), FixedHeader(e.ip), e.ip.options,
              SegmentBytes(e.ip.segment));
  }

  lemma ParseHeaders(f: Frame, tags: seq<uint16>, at: nat, ip: nat, d: Datagram, end: nat)
    requires GoodDatagram(d) && Holds(f, 2 * ETH_ALEN, TagBytes(tags) + Be16Of(IP_ETYPE))
    requires Holds(f, ip, FixedHeader(d))
    requires at == 2 * ETH_ALEN + 4 * |tags| && ip == at + 2 && end == ip + d.words * 4
    ensures Parse(f)
            == ParseEnd(f, end, Proto(d.segment), Seen(Vlan(tags, NO_VLAN), d.src, d.dst, d.total, d.words * 4))
  {
    ParseStart(f, tags, at, Vlan(tags, NO_VLAN));
    ParseDatagram(f, at, ip, d, Vlan(tags, NO_VLAN), end, Parse(f));
  }

  lemma ParseStart(f: Frame, tags: seq<uint16>, at: nat, vlan: nat)
    requires Holds(f, 2 * ETH_ALEN, TagBytes(tags) + Be16Of(IP_ETYPE))
    requires at == 2 * ETH_ALEN + 4 * |tags| && vlan == Vlan(tags, NO_VLAN)
    ensures Parse(f) == ParseFrom(f, at, IP_ETYPE, Seen(vlan, 0, 0, 0, 0))
  {
    ParseTags(f, 2 * ETH_ALEN, tags, Seen(NO_VLAN, 0, 0, 0, 0));
  }

  /** Parsing undoes encoding, as soon as one byte of the transport header was captured. */
  lemma RoundTrip(f: Frame, e: Ethernet)
    requires GoodEthernet(e) && f.bytes == Encode(e)
    ensures Parse(f) == if SegmentStart(e) < f.caplen then FlowPacket(KeyOf(e)) else Ignored
  {
    Layout(f, e);
    var at := 2 * ETH_ALEN + 4 * |e.tags|;
    ParseHeaders(f, e.tags, at, at + 2, e.ip, SegmentStart(e));
    ParseSegment(f, SegmentStart(e), e.ip, Vlan(e.tags, NO_VLAN), e);
  }

  // ---------------------------------------------------------------- one IP header at most

  /** How many IP headers the loop consumes. */
  function IpHeaders(f: Frame, off: nat, proto: nat): nat
    decreases f.caplen - off
  {
    if off >= f.caplen then 0
    else if proto == QINQ_ETYPE then IpHeaders(f, off + 4, f.Be16(off + 4))
    else if proto == IP_ETYPE && off + 2 + IP_HLEN < f.caplen && IpHeaderLength(f, off + 2) >= IP_MIN_HLEN
    then 1 + IpHeaders(f, off + 2 + IpHeaderLength(f, off + 2), f.Byte(off + 11))
    else 0
  }

  /** On every input: after an IP header the cursor stands at a protocol number, which is no EtherType. */
  lemma {:induction false} OneIpHeader(f: Frame, off: nat, proto: nat)
    ensures IpHeaders(f, off, proto) <= 1
    decreases f.caplen - off
  {
    if off < f.caplen && proto == QINQ_ETYPE {
      OneIpHeader(f, off + 4, f.Be16(off + 4));
    }
  }
}
