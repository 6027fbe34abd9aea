/** The loop of `parsePacket`, and `processL4Flow`, writing into the flow of the scratch session. */
module FrameParser {
  import opened FlowTypes
  import opened Frames

  /** The fields of `IPFlow` that the parser writes. */
  class IPFlow {
    var sourceIp: nat
    var destinationIp: nat
    var sourcePort: nat
    var destinationPort: nat
    var transportProtocol: nat
    var vlanTag: nat
    var npack: nat
    var nbytes: nat

    /** The flow of a session that holds `k`. */
    constructor (k: Key)
      ensures CurrentKey() == k && npack == 0 && nbytes == 0
    {
      sourceIp, destinationIp, sourcePort, destinationPort := k.srcIp, k.dstIp, k.srcPort, k.dstPort;
      transportProtocol, vlanTag := k.proto, k.vlan;
      npack, nbytes := 0, 0;
    }

    function CurrentKey(): Key
      reads this
    {
      Key(sourceIp, destinationIp, sourcePort, destinationPort, transportProtocol, vlanTag)
    }
  }

  /** What the locals and the flow hold at the top of the loop. */
  ghost predicate Holding(flow: IPFlow, seen: Seen, ipLen: nat, ipHLen: nat)
    reads flow
  {
    seen == Seen(flow.vlanTag, flow.sourceIp, flow.destinationIp, ipLen, ipHLen)
  }

  /** `parsePacket` from the MAC addresses on, whatever the flow holds. The result says whether
      `insertFlow` is reached, or `count_pckts_malformed` is incremented; `headers` counts the IP headers
      the cursor passed. */
  method ParsePacket(f: Frame, flow: IPFlow) returns (r: Outcome, headers: nat)
    modifies flow
    ensures r == ParseInto(f, old(flow.CurrentKey())) && headers <= 1
    ensures old(flow.CurrentKey()) == ZERO_KEY ==> r == Parse(f)
    ensures r.FlowPacket? ==> flow.CurrentKey() == r.key && flow.npack == 1 && flow.nbytes == f.len
  {
    var ipLen: nat, ipHLen: nat := 0, 0;
    flow.vlanTag := NO_VLAN;
    var bp: nat := 2 * ETH_ALEN;
    var aux16: nat := f.Be16(bp);
    headers := 0;
    ghost var seen := Seen(NO_VLAN, flow.sourceIp, flow.destinationIp, 0, 0);
    ghost var held := old(flow.CurrentKey());
    while true
      invariant Holding(flow, seen, ipLen, ipHLen) && ParseInto(f, held) == ParseFrom(f, bp, aux16, seen)
      invariant headers <= 1 && (headers == 1 ==> aux16 < 256)
      decreases f.caplen - bp
    {
      if bp >= f.caplen {
        return Ignored, headers;
      }
      if aux16 == QINQ_ETYPE {
        bp := bp + 2;
        flow.vlanTag := f.Be16(bp) % 0x1000;
        bp := bp + 2;
        aux16 := f.Be16(bp);
        seen := seen.(vlan := flow.vlanTag);
      } else if aux16 == IP_ETYPE {
        bp := bp + 2;
        if bp + IP_HLEN >= f.caplen {
          return Ignored, headers;
        }
        flow.sourceIp := f.Be32(bp + 12);
        flow.destinationIp := f.Be32(bp + 16);
        aux16 := f.Byte(bp + 9);
        ipHLen := IpHeaderLength(f, bp);
        ipLen := f.Be16(bp + 2);
        if ipHLen < IP_MIN_HLEN || ipHLen > IP_MAX_HLEN || ipLen < ipHLen {
          return Malformed, headers;
        }
        bp := bp + ipHLen;
        headers := headers + 1;
        seen := Seen(flow.vlanTag, flow.sourceIp, flow.destinationIp, ipLen, ipHLen);
      } else if aux16 == UDP_PROTO || aux16 == TCP_PROTO || aux16 == ICMP_PROTO {
        flow.npack := 1;
        flow.nbytes := f.len;
        flow.transportProtocol := aux16;
        r := ProcessL4Flow(f, bp, flow, ipLen, ipHLen);
        return r, headers;
      } else {
        return Ignored, headers;
      }
    }
  }

  /** `processL4Flow` up to its call of `insertFlow`. */
  method ProcessL4Flow(f: Frame, bp: nat, flow: IPFlow, ipLen: nat, ipHLen: nat) returns (r: Outcome)
    requires flow.transportProtocol in {TCP_PROTO, UDP_PROTO, ICMP_PROTO}
    modifies flow`sourcePort, flow`destinationPort
    ensures r == ParseL4(f, bp, flow.transportProtocol,
                         Seen(flow.vlanTag, flow.sourceIp, flow.destinationIp, ipLen, ipHLen))
    ensures r.FlowPacket? ==> flow.CurrentKey() == r.key
  {
    if flow.transportProtocol == ICMP_PROTO {
      flow.sourcePort := f.Byte(bp);
      flow.destinationPort := f.Byte(bp + 1);
    } else {
      flow.sourcePort := f.Be16(bp);
      flow.destinationPort := f.Be16(bp + 2);
      if flow.transportProtocol == TCP_PROTO {
        var tcpHLen := f.Byte(bp + 12) / 16 * 4;
        if tcpHLen > ipLen - ipHLen || tcpHLen < TCP_MIN_HLEN || tcpHLen > TCP_MAX_HLEN {
          return Malformed;
        }
      } else if UDP_HLEN > ipLen - ipHLen {
        return Malformed;
      }
    }
    return FlowPacket(flow.CurrentKey());
  }
}
