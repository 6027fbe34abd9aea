/** What the parser answers on every input, read off the bytes of the frame. */
module FrameOutcome {
  import opened FlowTypes
  import opened Frames

  // ---------------------------------------------------------------- where things are in a frame

  /** The type word after `m` VLAN tags. */
  function TypeAt(m: nat): nat {
    2 * ETH_ALEN + 4 * m
  }

  /** Exactly `m` tags follow the MAC addresses, as far as the frame was captured. */
  ghost predicate Tagged(f: Frame, m: nat) {
    && (forall i :: 0 <= i < m ==> TypeAt(i) < f.caplen && f.Be16(TypeAt(i)) == QINQ_ETYPE)
    && (TypeAt(m) < f.caplen ==> f.Be16(TypeAt(m)) != QINQ_ETYPE)
  }

  lemma {:induction false} TagsFrom(f: Frame, i: nat) returns (m: nat)
    requires forall j :: 0 <= j < i ==> TypeAt(j) < f.caplen && f.Be16(TypeAt(j)) == QINQ_ETYPE
    ensures Tagged(f, m)
    decreases f.caplen - TypeAt(i)
  {
    if TypeAt(i) < f.caplen && f.Be16(TypeAt(i)) == QINQ_ETYPE {
      m := TagsFrom(f, i + 1);
    } else {
      m := i;
    }
  }

  /** Every frame has a number of tags, */
  lemma TagsExist(f: Frame) returns (m: nat)
    ensures Tagged(f, m)
  {
    m := TagsFrom(f, 0);
  }

  /** and no other. */
  lemma TagsAreUnique(f: Frame, m: nat, n: nat)
    requires Tagged(f, m) && Tagged(f, n)
    ensures m == n
  {
    assert m < n ==> TypeAt(m) < f.caplen && f.Be16(TypeAt(m)) == QINQ_ETYPE;
    assert n < m ==> TypeAt(n) < f.caplen && f.Be16(TypeAt(n)) == QINQ_ETYPE;
  }

  /** The identifier of the innermost tag. */
  function VlanOf(f: Frame, m: nat): nat {
    if m == 0 then NO_VLAN else f.Be16(TypeAt(m) - 2) % 0x1000
  }

  /** The type word was captured and is `t`. */
  predicate HasType(f: Frame, m: nat, t: nat) {
    TypeAt(m) < f.caplen && f.Be16(TypeAt(m)) == t
  }

  function IpAt(m: nat): nat {
    TypeAt(m) + 2
  }

  function IpTotal(f: Frame, m: nat): nat {
    f.Be16(IpAt(m) + 2)
  }

  function IpProto(f: Frame, m: nat): nat {
    f.Byte(IpAt(m) + 9)
  }

  /** More than an IP header without options was captured. */
  predicate HasIp(f: Frame, m: nat) {
    HasType(f, m, IP_ETYPE) && IpAt(m) + IP_HLEN < f.caplen
  }

  /** The lengths of the IP header are possible. */
  predicate GoodIp(f: Frame, m: nat) {
    IP_MIN_HLEN <= IpHeaderLength(f, IpAt(m)) <= IP_MAX_HLEN && IpHeaderLength(f, IpAt(m)) <= IpTotal(f, m)
  }

  function TransportAt(f: Frame, m: nat): nat {
    IpAt(m) + IpHeaderLength(f, IpAt(m))
  }

  /** A datagram with possible lengths carries protocol `p`, of which something was captured. */
  predicate Carries(f: Frame, m: nat, p: nat) {
    HasIp(f, m) && GoodIp(f, m) && TransportAt(f, m) < f.caplen && IpProto(f, m) == p
  }

  function Payload(f: Frame, m: nat): int {
    IpTotal(f, m) - IpHeaderLength(f, IpAt(m))
  }

  function TcpHeaderLength(f: Frame, m: nat): nat {
    f.Byte(TransportAt(f, m) + 12) / 16 * 4
  }

  predicate GoodTcp(f: Frame, m: nat) {
    TCP_MIN_HLEN <= TcpHeaderLength(f, m) <= TCP_MAX_HLEN && TcpHeaderLength(f, m) <= Payload(f, m)
  }

  predicate GoodUdp(f: Frame, m: nat) {
    UDP_HLEN <= Payload(f, m)
  }

  // ---------------------------------------------------------------- the outcome

  /** The frame is a flow packet: a good TCP, UDP or ICMP header in a good datagram, or the type word 1. */
  predicate IsFlow(f: Frame, m: nat) {
    || (Carries(f, m, TCP_PROTO) && GoodTcp(f, m))
    || (Carries(f, m, UDP_PROTO) && GoodUdp(f, m))
    || Carries(f, m, ICMP_PROTO)
    || HasType(f, m, ICMP_PROTO)
  }

  /** A length check fails; with a type word of 6 or 17 one always does. */
  predicate IsMalformed(f: Frame, m: nat) {
    || (HasIp(f, m) && !GoodIp(f, m))
    || (Carries(f, m, TCP_PROTO) && !GoodTcp(f, m))
    || (Carries(f, m, UDP_PROTO) && !GoodUdp(f, m))
    || HasType(f, m, TCP_PROTO) || HasType(f, m, UDP_PROTO)
  }

  /** The key of a flow packet; `k` is what the flow held. */
  function KeyAt(f: Frame, m: nat, k: Key): Key {
    if HasType(f, m, ICMP_PROTO)
    then Key(k.srcIp, k.dstIp, f.Byte(TypeAt(m)), f.Byte(TypeAt(m) + 1), ICMP_PROTO, VlanOf(f, m))
    else
      var at, ip := TransportAt(f, m), IpAt(m);
      if IpProto(f, m) == ICMP_PROTO
      then Key(f.Be32(ip + 12), f.Be32(ip + 16), f.Byte(at), f.Byte(at + 1), ICMP_PROTO, VlanOf(f, m))
      else Key(f.Be32(ip + 12), f.Be32(ip + 16), f.Be16(at), f.Be16(at + 2), IpProto(f, m), VlanOf(f, m))
  }

  lemma {:induction false} SkipTags(f: Frame, m: nat, i: nat, k: Key)
    requires Tagged(f, m) && i <= m
    ensures ParseInto(f, k) == ParseFrom(f, TypeAt(i), f.Be16(TypeAt(i)), Seen(VlanOf(f, i), k.srcIp, k.dstIp, 0, 0))
  {
    if i > 0 {
      SkipTags(f, m, i - 1, k);
      OneTag(f, i - 1, Seen(VlanOf(f, i - 1), k.srcIp, k.dstIp, 0, 0));
    }
  }

  lemma OneTag(f: Frame, i: nat, seen: Seen)
    requires HasType(f, i, QINQ_ETYPE)
    ensures ParseFrom(f, TypeAt(i), QINQ_ETYPE, seen) ==
      ParseFrom(f, TypeAt(i + 1), f.Be16(TypeAt(i + 1)), seen.(vlan := VlanOf(f, i + 1)))
  {
    assert TypeAt(i) + 4 == TypeAt(i + 1) && TypeAt(i + 1) - 2 == TypeAt(i) + 2;
  }

  /** What the transport header is read as. */
  function L4(f: Frame, m: nat, proto: nat): Outcome {
    ParseL4(f, TransportAt(f, m), proto,
            Seen(VlanOf(f, m), f.Be32(IpAt(m) + 12), f.Be32(IpAt(m) + 16), IpTotal(f, m),
                 IpHeaderLength(f, IpAt(m))))
  }

  lemma TransportIs(f: Frame, at: nat, proto: nat, seen: Seen)
    requires proto < 256
    ensures ParseFrom(f, at, proto, seen) ==
      if at < f.caplen && proto in {TCP_PROTO, UDP_PROTO, ICMP_PROTO} then ParseL4(f, at, proto, seen) else Ignored
  {
  }

  lemma DatagramIs(f: Frame, m: nat, seen: Seen)
    requires HasType(f, m, IP_ETYPE) && seen.vlan == VlanOf(f, m)
    ensures ParseFrom(f, TypeAt(m), IP_ETYPE, seen) ==
      if !HasIp(f, m) then Ignored
      else if !GoodIp(f, m) then Malformed
      else if TransportAt(f, m) < f.caplen && IpProto(f, m) in {TCP_PROTO, UDP_PROTO, ICMP_PROTO}
        then L4(f, m, IpProto(f, m))
      else Ignored
  {
    TransportIs(f, TransportAt(f, m), IpProto(f, m),
                Seen(VlanOf(f, m), f.Be32(IpAt(m) + 12), f.Be32(IpAt(m) + 16), IpTotal(f, m),
                     IpHeaderLength(f, IpAt(m))));
  }

  lemma RawIs(f: Frame, m: nat, t: nat, seen: Seen)
    requires HasType(f, m, t) && t in {TCP_PROTO, UDP_PROTO, ICMP_PROTO} && seen.ipLen == seen.ipHLen == 0
    ensures ParseFrom(f, TypeAt(m), t, seen) ==
      if t == ICMP_PROTO
      then FlowPacket(Key(seen.srcIp, seen.dstIp, f.Byte(TypeAt(m)), f.Byte(TypeAt(m) + 1), t, seen.vlan))
      else Malformed
  {
  }

  /** On every frame, whatever the flow held: the outcome is settled by the type word after the tags and the
      length fields of the headers. */
  lemma OutcomeIs(f: Frame, m: nat, k: Key)
    requires Tagged(f, m)
    ensures ParseInto(f, k) ==
      if IsFlow(f, m) then FlowPacket(KeyAt(f, m, k)) else if IsMalformed(f, m) then Malformed else Ignored
    ensures !(IsFlow(f, m) && IsMalformed(f, m))
  {
    var t, seen := f.Be16(TypeAt(m)), Seen(VlanOf(f, m), k.srcIp, k.dstIp, 0, 0);
    SkipTags(f, m, m, k);
    if HasType(f, m, IP_ETYPE) {
      DatagramIs(f, m, seen);
    } else if TypeAt(m) < f.caplen && t in {TCP_PROTO, UDP_PROTO, ICMP_PROTO} {
      RawIs(f, m, t, seen);
    } else {
      assert ParseFrom(f, TypeAt(m), t, seen) == Ignored;
    }
  }

  // ---------------------------------------------------------------- what follows

  /** A frame of any type but IP's, and the numbers the loop takes for transport protocols, is ignored. */
  lemma OtherTypesAreIgnored(f: Frame, m: nat)
    requires Tagged(f, m) && f.Be16(TypeAt(m)) !in {IP_ETYPE, ICMP_PROTO, TCP_PROTO, UDP_PROTO}
    ensures Parse(f) == Ignored
  {
    OutcomeIs(f, m, ZERO_KEY);
  }

  /** So is a good datagram of any other protocol. */
  lemma OtherProtocolsAreIgnored(f: Frame, m: nat)
    requires Tagged(f, m) && HasIp(f, m) && GoodIp(f, m)
    requires IpProto(f, m) !in {ICMP_PROTO, TCP_PROTO, UDP_PROTO}
    ensures Parse(f) == Ignored
  {
    OutcomeIs(f, m, ZERO_KEY);
  }

  /** Every flow is of TCP, UDP or ICMP, and its tag is the innermost one. */
  lemma FlowsAreTransport(f: Frame, k: Key)
    requires ParseInto(f, k).FlowPacket?
    ensures ParseInto(f, k).key.proto in {ICMP_PROTO, TCP_PROTO, UDP_PROTO}
    ensures forall m :: Tagged(f, m) ==> ParseInto(f, k).key.vlan == VlanOf(f, m)
  {
    var m := TagsExist(f);
    OutcomeIs(f, m, k);
    forall n: nat | Tagged(f, n)
      ensures ParseInto(f, k).key.vlan == VlanOf(f, n)
    {
      TagsAreUnique(f, m, n);
    }
  }
}
