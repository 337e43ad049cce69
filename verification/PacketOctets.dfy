/** What the accessors of a packet read, octet by octet and with the protocols' own numbers (messages/Packet.hpp,
    Packet.cpp): Ethernet types and 802.1Q tags, the IPv4 header of RFC 791, UDP as protocol 17, TCP as protocol 6. */
module PacketOctets {
  import opened Wrappers
  import opened Packet

  /** Numbers of two octets and of four, high ones first. */
  function Short(b: seq<Octet>, at: nat): nat
    requires at + 2 <= |b|
  {
    256 * (b[at] as nat) + b[at + 1]
  }

  function Long(b: seq<Octet>, at: nat): nat
    requires at + 4 <= |b|
  {
    256 * (256 * (256 * (b[at] as nat) + b[at + 1]) + b[at + 2]) + b[at + 3]
  }

  // ---------- Behind the MAC header ----------

  /** The octets at 12 and on are k tags. */
  ghost predicate TagOctets(b: seq<Octet>, k: nat) {
    |b| >= 14 + 4 * k && forall i :: 0 <= i < k ==> b[12 + 4 * i] == 0x81 && b[13 + 4 * i] == 0x00
  }

  lemma {:induction false} TagsByOctets(b: seq<Octet>, k: nat, i: nat)
    requires TagOctets(b, k) && (k > 0 ==> |b| >= 24 + 4 * k) && i <= k
    requires Short(b, 12 + 4 * k) != 0x8100
    ensures Tags(b, 14 + 4 * i, U16(b, 12 + 4 * i)) == (Short(b, 12 + 4 * k), 14 + 4 * k)
    decreases k - i
  {
    if i < k {
      assert b[12 + 4 * i] == 0x81;
      TagsByOctets(b, k, i + 1);
    }
  }

  lemma {:induction false} TagsCutOff(b: seq<Octet>, k: nat, i: nat)
    requires TagOctets(b, k) && |b| < 24 + 4 * k && i < k
    ensures Tags(b, 14 + 4 * i, U16(b, 12 + 4 * i)).0 == 0xFFF2
    decreases k - i
  {
    assert b[12 + 4 * i] == 0x81;
    if i + 1 < k { TagsCutOff(b, k, i + 1); }
  }

  /** The type of an Ethernet frame is the number behind its tags; */
  lemma EthernetType(f: Frame, k: nat)
    requires f.macType == 1 && TagOctets(f.bytes, k) && (k > 0 ==> |f.bytes| >= 24 + 4 * k)
    requires Short(f.bytes, 12 + 4 * k) != 0x8100
    ensures MacLayer(f) == (Short(f.bytes, 12 + 4 * k), 14 + 4 * k)
  {
    TagsByOctets(f.bytes, k, 0);
  }

  /** l3_protocol shows it, and goes on to show it unless it announces IPv4: */
  lemma TypeIsShown(f: Frame, k: nat, calls: seq<Accessor>)
    requires f.macType == 1 && TagOctets(f.bytes, k) && (k > 0 ==> |f.bytes| >= 24 + 4 * k)
    requires Short(f.bytes, 12 + 4 * k) != 0x8100
    requires calls == [] || Short(f.bytes, 12 + 4 * k) != 0x0800
    ensures TypeSeen(f, calls) == Short(f.bytes, 12 + 4 * k)
  {
    EthernetType(f, k);
    TypeSeenIs(f, calls);
  }

  /** and a frame cut off in front of it is a runt. */
  lemma FrameIsRunt(f: Frame, k: nat, calls: seq<Accessor>)
    requires f.macType == 1
    requires |f.bytes| < 14 || (k > 0 && TagOctets(f.bytes, k) && |f.bytes| < 24 + 4 * k)
    ensures TypeSeen(f, calls) == 0xFFF2
  {
    if |f.bytes| >= 14 { TagsCutOff(f.bytes, k, 0); }
    TypeSeenIs(f, calls);
  }

  /** An IPv4 header begins at `at`: behind the MAC header of an Ethernet frame with k tags, or at once. */
  ghost predicate IpAt(f: Frame, k: nat, at: nat) {
    && |f.bytes| >= at + 20
    && ((f.macType == 2 && at == 0)
        || (f.macType == 1 && at == 14 + 4 * k && TagOctets(f.bytes, k)
            && f.bytes[at - 2] == 0x08 && f.bytes[at - 1] == 0x00))
  }

  // ---------- The IPv4 header ----------

  lemma HeaderLengths(octet: Octet)
    ensures var x: nat := octet; DecodeHlv(octet) == 4 * (x % 16) && DecodePayoff(octet) == 4 * (x / 16)
  {
    var x: nat := octet;
    assert x == 16 * (x / 16) + x % 16;
    LengthsDecode(x % 16, x / 16);
    LengthsDecode(x / 16, x % 16);
  }

  /** The four words or more of a header, as its first octet says; */
  function Behind(b: seq<Octet>, at: nat): nat
    requires at < |b|
  {
    at + 4 * (b[at] as nat % 16)
  }

  lemma LongIs(b: seq<Octet>, at: nat)
    requires at + 4 <= |b|
    ensures U32(b, at) == Long(b, at)
  {
  }

  lemma MacByOctets(f: Frame, k: nat, at: nat)
    requires IpAt(f, k, at)
    ensures MacLayer(f) == (0x0800, at)
  {
    if f.macType == 1 {
      assert Short(f.bytes, at - 2) == 0x0800;
      EthernetType(f, k);
    }
  }

  lemma IpBehindMac(f: Frame, at: nat)
    requires MacLayer(f) == (0x0800, at) && |f.bytes| >= at + 20
    ensures var b := f.bytes;
            IpOf(f) == Ip(Long(b, at + 12), Long(b, at + 16), b[at + 9], b[at + 1], b[at + 8],
                          if Behind(b, at) <= |b| then Some(Behind(b, at)) else None)
  {
    HeaderLengths(f.bytes[at]);
    LongIs(f.bytes, at + 12);
    LongIs(f.bytes, at + 16);
  }

  lemma IpByOctets(f: Frame, k: nat, at: nat)
    requires IpAt(f, k, at)
    ensures MacLayer(f) == (0x0800, at)
    ensures var b := f.bytes;
            IpOf(f) == Ip(Long(b, at + 12), Long(b, at + 16), b[at + 9], b[at + 1], b[at + 8],
                          if Behind(b, at) <= |b| then Some(Behind(b, at)) else None)
  {
    MacByOctets(f, k, at);
    IpBehindMac(f, at);
  }

  /** What is read of it, after any history. */
  lemma IpHeaderIsRead(f: Frame, k: nat, at: nat, calls: seq<Accessor>, a: Accessor)
    requires IpAt(f, k, at)
    ensures var b, r := f.bytes, Reading(After(f, calls + [a]), a);
            match a
            case IpHdr => r == Offset(Some(at))
            case SrcIp => r == Number(Long(b, at + 12))
            case DstIp => r == Number(Long(b, at + 16))
            case Protocol => r == Number(b[at + 9])
            case Tos => r == Field(Some(b[at + 1]))
            case Ttl => r == Field(Some(b[at + 8]))
            case L4Hdr => r == Offset(if Behind(b, at) <= |b| then Some(Behind(b, at)) else None)
            case _ => true
  {
    IpByOctets(f, k, at);
    if a != L3Protocol { Confluent(f, calls, a); }
  }

  // ---------- Ports and payload ----------

  lemma PortsByOctets(f: Frame, k: nat, at: nat, l4: nat)
    requires IpAt(f, k, at) && l4 == Behind(f.bytes, at) && l4 + 4 <= |f.bytes| && f.bytes[at + 9] in {6, 17}
    ensures var b := f.bytes;
            PortsOf(f) == PortPair(Short(b, l4), Short(b, l4 + 2),
                                   if b[at + 9] == 17 && l4 + 8 <= |b| then Some(l4 + 8) else None)
  {
    IpByOctets(f, k, at);
  }

  /** Flags, sequence and acknowledgement numbers, urgent pointer and window of a TCP header. */
  function FieldsAt(b: seq<Octet>, at: nat): TcpFields
    requires at + 20 <= |b|
  {
    TcpFields(b[at + 13], Long(b, at + 4), Long(b, at + 8), Short(b, at + 18), Short(b, at + 14))
  }

  lemma TcpByOctets(f: Frame, k: nat, at: nat, l4: nat)
    requires IpAt(f, k, at) && l4 == Behind(f.bytes, at) && l4 + 20 <= |f.bytes| && f.bytes[at + 9] == 6
    ensures var b := f.bytes;
            var data := l4 + 4 * (b[l4 + 12] as nat / 16);
            TcpOf(f) == Tcp(FieldsAt(b, l4), if data <= |b| then Some(data) else None)
  {
    IpByOctets(f, k, at);
    HeaderLengths(f.bytes[l4 + 12]);
  }

  lemma NoTcpByOctets(f: Frame, k: nat, at: nat)
    requires IpAt(f, k, at) && (f.bytes[at + 9] != 6 || Behind(f.bytes, at) + 20 > |f.bytes|)
    ensures !TcpOf(f).Tcp?
  {
    IpByOctets(f, k, at);
  }

  /** TCP, protocol 6, and UDP, protocol 17, begin with two ports. */
  lemma PortsAreRead(f: Frame, k: nat, at: nat, l4: nat, calls: seq<Accessor>, a: Accessor)
    requires IpAt(f, k, at) && l4 == Behind(f.bytes, at) && l4 + 4 <= |f.bytes| && f.bytes[at + 9] in {6, 17}
    ensures var b, r := f.bytes, Reading(After(f, calls + [a]), a);
            match a
            case SrcPort => r == Number(Short(b, l4))
            case DstPort => r == Number(Short(b, l4 + 2))
            case Key =>
              r == Flow(FlowKey(Long(b, at + 12), Long(b, at + 16), Short(b, l4), Short(b, l4 + 2), b[at + 9]))
            case _ => true
  {
    IpByOctets(f, k, at);
    PortsByOctets(f, k, at, l4);
    if a != L3Protocol { Confluent(f, calls, a); }
  }

  /** UDP's payload is eight octets on. */
  lemma UdpPayloadIsRead(f: Frame, k: nat, at: nat, l4: nat, calls: seq<Accessor>)
    requires IpAt(f, k, at) && l4 == Behind(f.bytes, at) && l4 + 4 <= |f.bytes| && f.bytes[at + 9] == 17
    ensures Reading(After(f, calls + [L4Payload]), L4Payload) ==
            Offset(if l4 + 8 <= |f.bytes| then Some(l4 + 8) else None)
    ensures Reading(After(f, calls + [TcpHeader]), TcpHeader) == Header(None)
  {
    PortsByOctets(f, k, at, l4);
    NoTcpByOctets(f, k, at);
    Confluent(f, calls, L4Payload);
    Confluent(f, calls, TcpHeader);
  }

  /** TCP's header is read whole, and its payload is behind its options. */
  lemma TcpIsRead(f: Frame, k: nat, at: nat, l4: nat, calls: seq<Accessor>)
    requires IpAt(f, k, at) && l4 == Behind(f.bytes, at) && l4 + 20 <= |f.bytes| && f.bytes[at + 9] == 6
    ensures var b := f.bytes;
            var data := l4 + 4 * (b[l4 + 12] as nat / 16);
            && Reading(After(f, calls + [L4Payload]), L4Payload) == Offset(if data <= |b| then Some(data) else None)
            && Reading(After(f, calls + [TcpHeader]), TcpHeader) ==
                 Header(Some(FieldsAt(b, l4)))
  {
    TcpByOctets(f, k, at, l4);
    Confluent(f, calls, L4Payload);
    Confluent(f, calls, TcpHeader);
  }

  /** Other protocols, and headers that do not fit, have neither ports nor payload. */
  lemma NothingIsRead(f: Frame, k: nat, at: nat, calls: seq<Accessor>, a: Accessor)
    requires IpAt(f, k, at) && (f.bytes[at + 9] !in {6, 17} || Behind(f.bytes, at) + 4 > |f.bytes|)
    ensures var r := Reading(After(f, calls + [a]), a);
            match a
            case SrcPort | DstPort => r == Number(0)
            case L4Payload => r == Offset(None)
            case TcpHeader => r == Header(None)
            case _ => true
  {
    IpByOctets(f, k, at);
    NoTcpByOctets(f, k, at);
    if a != L3Protocol { Confluent(f, calls, a); }
  }

  // ---------- Examples ----------

  /** The lowest header there is, behind no tag or behind one. */
  ghost predicate PlainIp(f: Frame, at: nat) {
    && f.macType == 1 && at in {14, 18} && |f.bytes| >= at + 20
    && (at == 18 ==> f.bytes[12] == 0x81 && f.bytes[13] == 0x00)
    && f.bytes[at - 2] == 0x08 && f.bytes[at - 1] == 0x00 && f.bytes[at] == 0x45
  }

  lemma PlainIpAt(f: Frame, at: nat) returns (k: nat)
    requires PlainIp(f, at)
    ensures IpAt(f, k, at) && Behind(f.bytes, at) == at + 20
  {
    k := if at == 14 then 0 else 1;
  }

  /** An answer of a name server, from UDP port 53. */
  lemma NameServerAnswer(f: Frame, at: nat, calls: seq<Accessor>)
    requires PlainIp(f, at) && f.bytes[at + 9] == 17 && |f.bytes| >= at + 28
    requires f.bytes[at + 20] == 0 && f.bytes[at + 21] == 53
    ensures Reading(After(f, calls + [SrcPort]), SrcPort) == Number(53)
    ensures Reading(After(f, calls + [L4Payload]), L4Payload) == Offset(Some(at + 28))
  {
    var k := PlainIpAt(f, at);
    PortsAreRead(f, k, at, at + 20, calls, SrcPort);
    UdpPayloadIsRead(f, k, at, at + 20, calls);
  }

  /** A request to a web server, to TCP port 80, without TCP options. */
  lemma WebRequest(f: Frame, at: nat, calls: seq<Accessor>)
    requires PlainIp(f, at) && f.bytes[at + 9] == 6 && |f.bytes| >= at + 40
    requires f.bytes[at + 22] == 0 && f.bytes[at + 23] == 80 && f.bytes[at + 32] == 0x50
    ensures Reading(After(f, calls + [DstPort]), DstPort) == Number(80)
    ensures Reading(After(f, calls + [L4Payload]), L4Payload) == Offset(Some(at + 40))
  {
    var k := PlainIpAt(f, at);
    var l4 := at + 20;
    PortsAreRead(f, k, at, l4, calls, DstPort);
    TcpIsRead(f, k, at, l4, calls);
    assert Short(f.bytes, l4 + 2) == 80;
  }
}
