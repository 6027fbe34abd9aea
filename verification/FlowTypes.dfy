/** The records of the flow monitor (flujos/include/IPflow.h) and its pure expressions. */
module FlowTypes {

  const US_IN_SEC: nat := 1000000
  const EXPIRATION_FLOW_TIME: nat := 90000000
  const MAX_FLOW_TABLE_SIZE: nat := 60000
  const ETH_HLEN: nat := 14
  const U16: nat := 0x1_0000
  const U32: nat := 0x1_0000_0000
  const U64: nat := 0x1_0000_0000_0000_0000
  /** `last_packet_timestamp` while `reset_flow_table` runs: the largest uint64_t. */
  const INFINITE_TIME: nat := U64 - 1

  type uint16 = x: nat | x < U16
  type uint32 = x: nat | x < U32

  /** 5-tuple plus VLAN identifier. */
  datatype Key = Key(srcIp: nat, dstIp: nat, srcPort: nat, dstPort: nat, proto: nat, vlan: nat)

  const ZERO_KEY := Key(0, 0, 0, 0, 0, 0)

  /** A packet that reached `insertFlow` and was counted in some flow. */
  datatype Packet = Packet(key: Key, ts: nat, len: uint32)

  /** The exported view of a flow: what `printTupleFileText` writes. */
  datatype Rec = Rec(key: Key, first: nat, last: nat, npack: nat, nbytes: nat)

  /** `compareTupleFlow`: 0 for the same flow, 1 otherwise. */
  function CompareTupleFlow(a: Key, b: Key): (r: int)
    ensures r == 0 <==> a == b
    ensures r == 0 || r == 1
  {
    if && a.srcIp == b.srcIp
       && a.dstIp == b.dstIp
       && a.srcPort == b.srcPort
       && a.dstPort == b.dstPort
       && a.proto == b.proto
       && a.vlan == b.vlan
    then 0 else 1
  }

  /** `getIndex`: the sum is taken in uint32_t arithmetic; the VLAN is not part of it. */
  function GetIndex(k: Key): (i: nat)
    ensures i < MAX_FLOW_TABLE_SIZE
  {
    (k.srcIp + k.dstIp + k.srcPort + k.dstPort + k.proto) % U32 % MAX_FLOW_TABLE_SIZE
  }

  /** Both directions of a connection are in one bucket, */
  lemma DirectionsShareBucket(k: Key)
    ensures GetIndex(Key(k.dstIp, k.srcIp, k.dstPort, k.srcPort, k.proto, k.vlan)) == GetIndex(k)
  {
  }

  /** and of two keys that differ by one in a port the second is in the next bucket, unless the sum wraps. */
  lemma NextPortNextBucket(k: Key)
    requires (k.srcIp + k.dstIp + k.srcPort + k.dstPort + k.proto) % U32 != U32 - 1
    ensures GetIndex(k.(srcPort := k.srcPort + 1)) == (GetIndex(k) + 1) % MAX_FLOW_TABLE_SIZE
  {
    var sum := k.srcIp + k.dstIp + k.srcPort + k.dstPort + k.proto;
    Successor(sum, U32);
    Successor(sum % U32, MAX_FLOW_TABLE_SIZE);
  }

  lemma Successor(a: nat, m: nat)
    requires m > 1
    ensures (a + 1) % m == (a % m + 1) % m
    ensures a % m != m - 1 ==> (a + 1) % m == a % m + 1
  {
    var q, r := a / m, a % m;
    assert a == q * m + r;
    if r < m - 1 {
      Remainder(a + 1, m, q, r + 1);
      Remainder(r + 1, m, 0, r + 1);
    } else {
      assert a + 1 == (q + 1) * m;
      Remainder(a + 1, m, q + 1, 0);
      Remainder(r + 1, m, 1, 0);
    }
  }

  lemma Remainder(a: nat, m: nat, q: nat, r: nat)
    requires m > 0 && a == q * m + r && r < m
    ensures a % m == r
  {
    var d := a / m - q;
    assert a == (q + d) * m + a % m;
    assert (q + d) * m == q * m + d * m;
    assert d * m == r - a % m;
    assert d > 0 ==> d * m >= m;
  }

  /** `last_packet_timestamp - lastpacket_timestamp` in uint64_t arithmetic. */
  function Elapsed(now: nat, last: nat): int {
    if last <= now then now - last else now - last + U64
  }
}
