/** `parsePacket` and the field extraction of `processL4Flow`, as a function of the captured bytes. */
module Frames {
  import opened FlowTypes

  type byte = b: int | 0 <= b < 256

  /** A captured frame: the `pcap_pkthdr` fields and the frame buffer, whose first `caplen` bytes
      were captured. */
  datatype Frame = Frame(sec: nat, usec: nat, caplen: nat, len: uint32, bytes: seq<byte>) {
    /** `last_packet_timestamp`, in microseconds. */
    function Ts(): nat {
      sec * US_IN_SEC + usec
    }

    function Second(): nat {
      Ts() / US_IN_SEC
    }

    /** A byte of the buffer; what lies beyond the buffer is not part of this model. */
    function Byte(i: nat): byte {
      if i < |bytes| then bytes[i] else 0
    }

    function Be16(i: nat): nat {
      Byte(i) * 256 + Byte(i + 1)
    }

    function Be32(i: nat): nat {
      Be16(i) * U16 + Be16(i + 2)
    }
  }

  const ETH_ALEN: nat := 6
  const QINQ_ETYPE: nat := 0x8100
  const IP_ETYPE: nat := 0x0800
  const ICMP_PROTO: nat := 1
  const TCP_PROTO: nat := 6
  const UDP_PROTO: nat := 17
  const IP_HLEN: nat := 20
  const IP_MIN_HLEN: nat := 20
  const IP_MAX_HLEN: nat := 60
  const TCP_MIN_HLEN: nat := 20
  const TCP_MAX_HLEN: nat := 60
  const UDP_HLEN: nat := 8
  const NO_VLAN: nat := 65535

  datatype Outcome = Ignored | Malformed | FlowPacket(key: Key)

  /** What the parser has gathered when it reaches the next header. */
  datatype Seen = Seen(vlan: nat, srcIp: nat, dstIp: nat, ipLen: nat, ipHLen: nat)

  /** What the parser makes of a frame, writing into a cleared flow. */
  function Parse(f: Frame): Outcome {
    ParseInto(f, ZERO_KEY)
  }

  /** The same, writing into a flow that holds `k`: the addresses of a frame whose EtherType is the number of
      a transport protocol are those of the flow, since no IP header was read. */
  function ParseInto(f: Frame, k: Key): Outcome {
    ParseFrom(f, 2 * ETH_ALEN, f.Be16(2 * ETH_ALEN), Seen(NO_VLAN, k.srcIp, k.dstIp, 0, 0))
  }

  /** One turn of the `while` loop per call: `off` is the cursor, `proto` the EtherType or, after an
      IP header, the protocol number. */
  function ParseFrom(f: Frame, off: nat, proto: nat, seen: Seen): Outcome
    decreases f.caplen - off
  {
    if off >= f.caplen then Ignored
    else if proto == QINQ_ETYPE then
      ParseFrom(f, off + 4, f.Be16(off + 4), seen.(vlan := f.Be16(off + 2) % 0x1000))
    else if proto == IP_ETYPE then
      var ip := off + 2;
      if ip + IP_HLEN >= f.caplen then Ignored
      else
        var ipHLen := IpHeaderLength(f, ip);
        var ipLen := f.Be16(ip + 2);
        if ipHLen < IP_MIN_HLEN || ipHLen > IP_MAX_HLEN || ipLen < ipHLen then Malformed
        else
          ParseFrom(f, ip + ipHLen, f.Byte(ip + 9),
                    Seen(seen.vlan, f.Be32(ip + 12), f.Be32(ip + 16), ipLen, ipHLen))
    else if proto == TCP_PROTO || proto == UDP_PROTO || proto == ICMP_PROTO then
      ParseL4(f, off, proto, seen)
    else Ignored
  }

  function IpHeaderLength(f: Frame, ip: nat): (n: nat) {
    (f.Byte(ip) % 16) * 4
  }

  /** `processL4Flow` up to its call of `insertFlow`. */
  function ParseL4(f: Frame, off: nat, proto: nat, seen: Seen): Outcome {
    if proto == ICMP_PROTO then
      FlowPacket(Key(seen.srcIp, seen.dstIp, f.Byte(off), f.Byte(off + 1), proto, seen.vlan))
    else
      var tcpHLen := (f.Byte(off + 12) / 16) * 4;
      if || (proto == TCP_PROTO
             && (tcpHLen > seen.ipLen - seen.ipHLen || tcpHLen < TCP_MIN_HLEN || tcpHLen > TCP_MAX_HLEN))
         || (proto == UDP_PROTO && UDP_HLEN > seen.ipLen - seen.ipHLen)
      then Malformed
      else FlowPacket(Key(seen.srcIp, seen.dstIp, f.Be16(off), f.Be16(off + 2), proto, seen.vlan))
  }
}
