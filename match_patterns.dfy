/** The match pattern of an objective and the pattern of its reverse direction. */
module MatchPatterns {
  import opened Wrappers

  /** Every field may be absent, which matches any value. */
  datatype MatchPattern = MatchPattern(
    srcMac: Option<string>,
    dstMac: Option<string>,
    macProto: Option<int>,
    ipProto: Option<int>,
    srcIp: Option<string>,
    dstIp: Option<string>,
    srcPort: Option<int>,
    dstPort: Option<int>,
    inPort: Option<int>)

  /**
   * The pattern the app builds for reverse traffic of a symmetric objective:
   * source and destination swapped at every layer, the protocols kept, and
   * no ingress port.
   */
  function ReversePattern(m: MatchPattern): (r: MatchPattern)
    ensures r.srcMac == m.dstMac && r.dstMac == m.srcMac
    ensures r.srcIp == m.dstIp && r.dstIp == m.srcIp
    ensures r.srcPort == m.dstPort && r.dstPort == m.srcPort
    ensures r.macProto == m.macProto && r.ipProto == m.ipProto
    ensures r.inPort.None?
  {
    MatchPattern(
      srcMac := m.dstMac, dstMac := m.srcMac,
      macProto := m.macProto, ipProto := m.ipProto,
      srcIp := m.dstIp, dstIp := m.srcIp,
      srcPort := m.dstPort, dstPort := m.srcPort,
      inPort := None)
  }

  /** Reversing twice restores every field except the ingress port. */
  lemma ReversePatternTwice(m: MatchPattern)
    ensures ReversePattern(ReversePattern(m)) == m.(inPort := None)
    ensures m.inPort.None? ==> ReversePattern(ReversePattern(m)) == m
  {
  }
}
