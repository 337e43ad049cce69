/** Lazy header parsing (messages/Packet.hpp, Packet.cpp): four parsers that trigger one another fill a cache
    of fields and flags; whatever the order in which accessors run them, the answers are those of one eager parse. */
module Packet {
  import opened Wrappers
  import opened Bits

  type Octet = x: nat | x < 256

  const ETHERNET: int := 1
  const RAW_IP: int := 2
  const TYPE_IP4: nat := 0x0800
  const TYPE_1Q: nat := 0x8100
  const TYPE_RUNT_L2: nat := 0xFFF2
  const TYPE_RUNT_L3: nat := 0xFFF3
  const TYPE_RUNT_L4: nat := 0xFFF4
  const UDP: nat := 17
  const TCP: nat := 6

  // Header sizes
  const ETH: nat := 14
  const ETH1Q: nat := 4
  const IP4: nat := 20
  const PORTS: nat := 4
  const UDP_HEADER: nat := 8
  const TCP_HEADER: nat := 20

  /** What is captured; `junk` is what the never initialised packet type holds for other encapsulations. */
  datatype Frame = Frame(bytes: seq<Octet>, macType: int, junk: nat)

  function U16(b: seq<Octet>, at: nat): nat
    requires at + 2 <= |b|
  {
    0x100 * (b[at] as nat) + b[at + 1]
  }

  function U32(b: seq<Octet>, at: nat): nat
    requires at + 4 <= |b|
  {
    0x1_0000 * U16(b, at) + U16(b, at + 2)
  }

  /** Header length in bytes, from the low half of the first octet of an IPv4 header, */
  function DecodeHlv(hlv: Octet): nat { Shl(And(hlv, 0x0f), 2) }

  /** and from the high half of the data offset octet of a TCP header. */
  function DecodePayoff(payoff: Octet): nat { Shr(And(payoff, 0xf0), 2) }

  datatype FlowKey = FlowKey(srcIp: nat, dstIp: nat, srcPort: nat, dstPort: nat, proto: nat)

  datatype TcpFields = TcpFields(flags: nat, seqno: nat, ack: nat, urgent: nat, window: nat)

  /** The mutable part of a packet; fields are None as long as they were not assigned. */
  datatype Cache = Cache(
    mac: bool, ip: bool, ports: bool, l4: bool,
    pktType: nat, ipHdr: Option<nat>, l4Hdr: Option<nat>, payload: Option<nat>,
    key: FlowKey, tos: Option<nat>, ttl: Option<nat>, tcp: Option<TcpFields>)

  function Unparsed(f: Frame): Cache {
    Cache(false, false, false, false, f.junk, None, None, None, FlowKey(0, 0, 0, 0, 0), None, None, None)
  }

  // ---------- The lazy parsers ----------

  /** The loop over 802.1Q tags: the type found and the offset behind it. */
  function Tags(b: seq<Octet>, at: nat, kind: nat): (r: (nat, nat))
    requires at <= |b|
    ensures at <= r.1 <= |b| && r.0 != TYPE_1Q
    decreases |b| - at
  {
    if kind != TYPE_1Q then (kind, at)
    else if |b| - at < ETH then (TYPE_RUNT_L2, at)
    else Tags(b, at + ETH1Q, U16(b, at + 2))
  }

  /** No more layers to look for. */
  function Shortcut(c: Cache): Cache { c.(ip := true, ports := true, l4 := true) }

  function ParseMac(f: Frame, c: Cache): Cache {
    if c.mac then c
    else
      var c := c.(mac := true);
      if f.macType == ETHERNET && |f.bytes| < ETH then Shortcut(c.(pktType := TYPE_RUNT_L2))
      else
        var (kind, at) := if f.macType == ETHERNET then Tags(f.bytes, ETH, U16(f.bytes, 12))
                          else (if f.macType == RAW_IP then TYPE_IP4 else c.pktType, 0);
        var c := c.(pktType := kind);
        if kind == TYPE_IP4 then c.(ipHdr := Some(at)) else Shortcut(c)
  }

  function ReadIp(f: Frame, c: Cache): Cache
    requires InBounds(f, c)
  {
    if c.ipHdr.None? then c
    else
      var b, at := f.bytes, c.ipHdr.value;
      if |b| - at >= IP4 then
        var c := c.(key := c.key.(srcIp := U32(b, at + 12), dstIp := U32(b, at + 16), proto := b[at + 9]),
                    tos := Some(b[at + 1]), ttl := Some(b[at + 8]));
        if |b| - at >= DecodeHlv(b[at]) then c.(l4Hdr := Some(at + DecodeHlv(b[at]))) else c
      else
        c.(pktType := TYPE_RUNT_L3, ports := true, l4 := true)
  }

  function ParseIp(f: Frame, c: Cache): Cache
    requires InBounds(f, c)
  {
    if c.ip then c else ReadIp(f, ParseMac(f, c.(ip := true)))
  }

  lemma MacInBounds(f: Frame, c: Cache)
    requires InBounds(f, c)
    ensures InBounds(f, ParseMac(f, c))
  {
  }

  lemma ReadIpInBounds(f: Frame, c: Cache)
    requires InBounds(f, c)
    ensures InBounds(f, ReadIp(f, c))
  {
  }

  lemma ParseIpInBounds(f: Frame, c: Cache)
    requires InBounds(f, c)
    ensures InBounds(f, ParseIp(f, c))
  {
    if !c.ip {
      var d := c.(ip := true);
      MacInBounds(f, d);
      ReadIpInBounds(f, ParseMac(f, d));
    }
  }

  function ReadPorts(f: Frame, c: Cache): Cache
    requires InBounds(f, c)
  {
    if c.l4Hdr.None? || (c.key.proto != TCP && c.key.proto != UDP) then c
    else
      var b, at := f.bytes, c.l4Hdr.value;
      if |b| - at >= PORTS then
        var c := c.(key := c.key.(srcPort := U16(b, at), dstPort := U16(b, at + 2)));
        if c.key.proto == UDP && |b| - at >= UDP_HEADER then c.(payload := Some(at + UDP_HEADER)) else c
      else
        c.(pktType := TYPE_RUNT_L4, l4 := true)
  }

  function ParsePorts(f: Frame, c: Cache): Cache
    requires InBounds(f, c)
  {
    if c.ports then c
    else
      ParseIpInBounds(f, c.(ports := true));
      ReadPorts(f, ParseIp(f, c.(ports := true)))
  }

  function ReadTcp(f: Frame, c: Cache): Cache
    requires InBounds(f, c)
  {
    if c.l4Hdr.None? || c.key.proto != TCP then c
    else
      var b, at := f.bytes, c.l4Hdr.value;
      if |b| - at >= TCP_HEADER then
        var fields := TcpFields(b[at + 13], U32(b, at + 4), U32(b, at + 8), U16(b, at + 18), U16(b, at + 14));
        var c := c.(key := c.key.(srcPort := U16(b, at), dstPort := U16(b, at + 2)), tcp := Some(fields));
        var len := DecodePayoff(b[at + 12]);
        if |b| - at >= len then c.(payload := Some(at + len)) else c
      else
        c.(pktType := TYPE_RUNT_L4)
  }

  function ParseTcp(f: Frame, c: Cache): Cache
    requires InBounds(f, c)
  {
    if c.l4 then c
    else
      ParseIpInBounds(f, c.(l4 := true));
      ReadTcp(f, ParseIp(f, c.(l4 := true)))
  }

  /** Every header offset is inside the captured bytes, so no remaining size is negative. */
  ghost predicate InBounds(f: Frame, c: Cache) {
    && (c.ipHdr.Some? ==> c.ipHdr.value <= |f.bytes|)
    && (c.l4Hdr.Some? ==> c.l4Hdr.value <= |f.bytes|)
    && (c.payload.Some? ==> c.payload.value <= |f.bytes|)
  }

  // ---------- One eager parse ----------

  /** Ethertype, and the offset behind the MAC header. */
  function MacLayer(f: Frame): (r: (nat, nat))
    ensures r.1 <= |f.bytes|
  {
    if f.macType == RAW_IP then (TYPE_IP4, 0)
    else if f.macType != ETHERNET then (f.junk, 0)
    else if |f.bytes| < ETH then (TYPE_RUNT_L2, 0)
    else Tags(f.bytes, ETH, U16(f.bytes, 12))
  }

  /** l4: where the next header begins, if that is inside the captured bytes. */
  datatype IpLayer = NoIp | RuntIp | Ip(src: nat, dst: nat, proto: nat, tos: nat, ttl: nat, l4: Option<nat>)

  function IpOf(f: Frame): (r: IpLayer)
    ensures r.Ip? && r.l4.Some? ==> r.l4.value <= |f.bytes|
  {
    var (kind, at) := MacLayer(f);
    var b := f.bytes;
    if kind != TYPE_IP4 then NoIp
    else if |b| - at < IP4 then RuntIp
    else
      var next := at + DecodeHlv(b[at]);
      Ip(U32(b, at + 12), U32(b, at + 16), b[at + 9], b[at + 1], b[at + 8], if next <= |b| then Some(next) else None)
  }

  datatype PortsLayer = NoPorts | RuntPorts | PortPair(src: nat, dst: nat, udpPayload: Option<nat>)

  function PortsOf(f: Frame): (r: PortsLayer)
    ensures r.PortPair? && r.udpPayload.Some? ==> r.udpPayload.value <= |f.bytes|
  {
    var ip, b := IpOf(f), f.bytes;
    if !ip.Ip? || ip.l4.None? || (ip.proto != TCP && ip.proto != UDP) then NoPorts
    else
      var at := ip.l4.value;
      if |b| - at < PORTS then RuntPorts
      else PortPair(U16(b, at), U16(b, at + 2),
                    if ip.proto == UDP && |b| - at >= UDP_HEADER then Some(at + UDP_HEADER) else None)
  }

  datatype TcpLayer = NoTcp | RuntTcp | Tcp(fields: TcpFields, payload: Option<nat>)

  function TcpOf(f: Frame): (r: TcpLayer)
    ensures r.Tcp? && r.payload.Some? ==> r.payload.value <= |f.bytes|
  {
    var ip, b := IpOf(f), f.bytes;
    if !ip.Ip? || ip.l4.None? || ip.proto != TCP then NoTcp
    else
      var at := ip.l4.value;
      if |b| - at < TCP_HEADER then RuntTcp
      else
        var next := at + DecodePayoff(b[at + 12]);
        Tcp(TcpFields(b[at + 13], U32(b, at + 4), U32(b, at + 8), U16(b, at + 18), U16(b, at + 14)),
            if next <= |b| then Some(next) else None)
  }

  // ---------- The cache is what the flags say ----------

  function KeyOf(f: Frame, ip: bool, ports: bool): FlowKey {
    var layer, pair := IpOf(f), PortsOf(f);
    FlowKey(if ip && layer.Ip? then layer.src else 0, if ip && layer.Ip? then layer.dst else 0,
            if ports && pair.PortPair? then pair.src else 0, if ports && pair.PortPair? then pair.dst else 0,
            if ip && layer.Ip? then layer.proto else 0)
  }

  /** The only cache that goes with a set of flags. */
  function Canonical(f: Frame, mac: bool, ip: bool, ports: bool, l4: bool): Cache {
    var (kind, at) := MacLayer(f);
    var layer, pair, tcp := IpOf(f), PortsOf(f), TcpOf(f);
    Cache(mac, ip, ports, l4,
      if !mac then f.junk
      else if ip && layer.RuntIp? then TYPE_RUNT_L3
      else if (ports && pair.RuntPorts?) || (l4 && tcp.RuntTcp?) then TYPE_RUNT_L4
      else kind,
      if mac && !layer.NoIp? then Some(at) else None,
      if ip && layer.Ip? then layer.l4 else None,
      if ports && pair.PortPair? && pair.udpPayload.Some? then pair.udpPayload
      else if l4 && tcp.Tcp? then tcp.payload
      else None,
      KeyOf(f, ip, ports || (l4 && tcp.Tcp?)),
      if ip && layer.Ip? then Some(layer.tos) else None,
      if ip && layer.Ip? then Some(layer.ttl) else None,
      if l4 && tcp.Tcp? then Some(tcp.fields) else None)
  }

  /** Which flags go together. */
  ghost predicate Consistent(f: Frame, c: Cache) {
    && (c.ip ==> c.mac) && (c.ports ==> c.ip) && (c.l4 ==> c.ip)
    && (c.mac && IpOf(f).NoIp? ==> c.ip && c.ports && c.l4)
    && (c.ip && IpOf(f).RuntIp? ==> c.ports && c.l4)
    && (c.ports && PortsOf(f).RuntPorts? ==> c.l4)
  }

  ghost predicate Sound(f: Frame, c: Cache) {
    Consistent(f, c) && c == Canonical(f, c.mac, c.ip, c.ports, c.l4)
  }

  lemma SoundInBounds(f: Frame, c: Cache)
    requires Sound(f, c)
    ensures InBounds(f, c)
  {
  }

  lemma UnparsedIsSound(f: Frame)
    ensures Sound(f, Unparsed(f))
  {
  }

  lemma ParseMacSound(f: Frame, c: Cache)
    requires Sound(f, c)
    ensures Sound(f, ParseMac(f, c)) && ParseMac(f, c).mac
  {
  }

  lemma ParseIpSound(f: Frame, c: Cache)
    requires Sound(f, c)
    ensures Sound(f, ParseIp(f, c)) && ParseIp(f, c).ip
  {
  }

  /** Flags of later layers do not matter to earlier ones. */
  lemma MacIgnoresLater(f: Frame, c: Cache)
    ensures ParseMac(f, c.(ports := true)) == ParseMac(f, c).(ports := true)
    ensures ParseMac(f, c.(l4 := true)) == ParseMac(f, c).(l4 := true)
  {
  }

  lemma ReadIpIgnoresLater(f: Frame, c: Cache)
    requires InBounds(f, c)
    ensures ReadIp(f, c.(ports := true)) == ReadIp(f, c).(ports := true)
    ensures ReadIp(f, c.(l4 := true)) == ReadIp(f, c).(l4 := true)
  {
  }

  lemma IpIgnoresLater(f: Frame, c: Cache)
    requires InBounds(f, c)
    ensures ParseIp(f, c.(ports := true)) == ParseIp(f, c).(ports := true)
    ensures ParseIp(f, c.(l4 := true)) == ParseIp(f, c).(l4 := true)
  {
    if !c.ip {
      var d := c.(ip := true);
      MacInBounds(f, d);
      MacIgnoresLater(f, d);
      ReadIpIgnoresLater(f, ParseMac(f, d));
      assert c.(ports := true).(ip := true) == d.(ports := true) && c.(l4 := true).(ip := true) == d.(l4 := true);
    }
  }

  lemma ReadPortsSound(f: Frame, c: Cache)
    requires Sound(f, c) && c.ip && !c.ports
    ensures Sound(f, ReadPorts(f, c.(ports := true))) && ReadPorts(f, c.(ports := true)).ports
  {
  }

  lemma ParsePortsSound(f: Frame, c: Cache)
    requires Sound(f, c)
    ensures Sound(f, ParsePorts(f, c)) && ParsePorts(f, c).ports
  {
    if !c.ports {
      IpIgnoresLater(f, c);
      ParseIpSound(f, c);
      var d := ParseIp(f, c);
      if !d.ports { ReadPortsSound(f, d); }
    }
  }

  lemma ReadTcpSound(f: Frame, c: Cache)
    requires Sound(f, c) && c.ip && !c.l4
    ensures Sound(f, ReadTcp(f, c.(l4 := true))) && ReadTcp(f, c.(l4 := true)).l4
  {
  }

  lemma ParseTcpSound(f: Frame, c: Cache)
    requires Sound(f, c)
    ensures Sound(f, ParseTcp(f, c)) && ParseTcp(f, c).l4
  {
    if !c.l4 {
      IpIgnoresLater(f, c);
      ParseIpSound(f, c);
      var d := ParseIp(f, c);
      if !d.l4 { ReadTcpSound(f, d); }
    }
  }

  // ---------- Accessors ----------

  datatype Accessor = IpHdr | L4Hdr | L4Payload | SrcIp | DstIp | SrcPort | DstPort
                    | Protocol | Key | Tos | Ttl | TcpHeader | L3Protocol

  datatype Value = Offset(at: Option<nat>) | Number(n: nat) | Field(v: Option<nat>)
                 | Flow(key: FlowKey) | Header(tcp: Option<TcpFields>)

  /** The parsing an accessor triggers, */
  function Touch(f: Frame, c: Cache, a: Accessor): Cache
    requires Sound(f, c)
  {
    SoundInBounds(f, c);
    match a
    case IpHdr | L3Protocol => ParseMac(f, c)
    case L4Hdr | SrcIp | DstIp | Protocol | Tos | Ttl => ParseIp(f, c)
    case SrcPort | DstPort | Key => ParsePorts(f, c)
    case TcpHeader => ParseTcp(f, c)
    case L4Payload =>
      ParseIpInBounds(f, c);
      var c := ParseIp(f, c);
      if c.key.proto == TCP then ParseTcp(f, c) else ParsePorts(f, c)
  }

  /** and the field it then returns. */
  function Reading(c: Cache, a: Accessor): Value {
    match a
    case IpHdr => Offset(c.ipHdr)
    case L4Hdr => Offset(c.l4Hdr)
    case L4Payload => Offset(c.payload)
    case SrcIp => Number(c.key.srcIp)
    case DstIp => Number(c.key.dstIp)
    case SrcPort => Number(c.key.srcPort)
    case DstPort => Number(c.key.dstPort)
    case Protocol => Number(c.key.proto)
    case Key => Flow(c.key)
    case Tos => Field(c.tos)
    case Ttl => Field(c.ttl)
    case TcpHeader => Header(c.tcp)
    case L3Protocol => Number(c.pktType)
  }

  /** What the eager parse says. */
  function Eager(f: Frame, a: Accessor): Value {
    var ip, pair, tcp, key := IpOf(f), PortsOf(f), TcpOf(f), KeyOf(f, true, true);
    match a
    case IpHdr => Offset(if ip.NoIp? then None else Some(MacLayer(f).1))
    case L4Hdr => Offset(if ip.Ip? then ip.l4 else None)
    case L4Payload => Offset(if tcp.Tcp? then tcp.payload else if pair.PortPair? then pair.udpPayload else None)
    case SrcIp => Number(key.srcIp)
    case DstIp => Number(key.dstIp)
    case SrcPort => Number(key.srcPort)
    case DstPort => Number(key.dstPort)
    case Protocol => Number(key.proto)
    case Key => Flow(key)
    case Tos => Field(if ip.Ip? then Some(ip.tos) else None)
    case Ttl => Field(if ip.Ip? then Some(ip.ttl) else None)
    case TcpHeader => Header(if tcp.Tcp? then Some(tcp.fields) else None)
    case L3Protocol => Number(Canonical(f, true, true, true, true).pktType)
  }

  lemma TouchPayloadSound(f: Frame, c: Cache)
    requires Sound(f, c)
    ensures Sound(f, Touch(f, c, L4Payload))
  {
    ParseIpSound(f, c);
    ParseTcpSound(f, ParseIp(f, c));
    ParsePortsSound(f, ParseIp(f, c));
  }

  lemma TouchSound(f: Frame, c: Cache, a: Accessor)
    requires Sound(f, c)
    ensures Sound(f, Touch(f, c, a))
  {
    match a
    case IpHdr | L3Protocol => ParseMacSound(f, c);
    case L4Hdr | SrcIp | DstIp | Protocol | Tos | Ttl => ParseIpSound(f, c);
    case SrcPort | DstPort | Key => ParsePortsSound(f, c);
    case TcpHeader => ParseTcpSound(f, c);
    case L4Payload => TouchPayloadSound(f, c);
  }

  /** The cache after a history of accessor calls. */
  function After(f: Frame, calls: seq<Accessor>): (c: Cache)
    ensures Sound(f, c)
  {
    UnparsedIsSound(f);
    if calls == [] then Unparsed(f)
    else
      var before := After(f, calls[..|calls| - 1]);
      TouchSound(f, before, calls[|calls| - 1]);
      Touch(f, before, calls[|calls| - 1])
  }

  /** An accessor returns what the eager parse says, whatever was parsed before, */
  lemma AccessAgrees(f: Frame, c: Cache, a: Accessor)
    requires Sound(f, c)
    ensures Sound(f, Touch(f, c, a))
    ensures a != L3Protocol ==> Reading(Touch(f, c, a), a) == Eager(f, a)
  {
    TouchSound(f, c, a);
    match a {
      case IpHdr | L3Protocol => ParseMacSound(f, c);
      case L4Hdr | SrcIp | DstIp | Protocol | Tos | Ttl => ParseIpSound(f, c);
      case SrcPort | DstPort | Key => ParsePortsSound(f, c);
      case TcpHeader => ParseTcpSound(f, c);
      case L4Payload =>
        ParseIpSound(f, c);
        ParseTcpSound(f, ParseIp(f, c));
        ParsePortsSound(f, ParseIp(f, c));
    }
  }

  /** after any history of calls. */
  lemma Confluent(f: Frame, calls: seq<Accessor>, a: Accessor)
    requires a != L3Protocol
    ensures Reading(After(f, calls + [a]), a) == Eager(f, a)
  {
    assert (calls + [a])[..|calls|] == calls;
    AccessAgrees(f, After(f, calls), a);
  }

  ghost predicate AllParsed(c: Cache) { c.mac && c.ip && c.ports && c.l4 }

  /** Once all four parsers have run, the whole cache is the same whatever their order was. */
  lemma OneFinalState(f: Frame, calls: seq<Accessor>, others: seq<Accessor>)
    requires AllParsed(After(f, calls)) && AllParsed(After(f, others))
    ensures After(f, calls) == After(f, others) == Canonical(f, true, true, true, true)
  {
  }

  /** The type an l3_protocol call sees. */
  function TypeSeen(f: Frame, calls: seq<Accessor>): nat { After(f, calls + [L3Protocol]).pktType }

  lemma TypeSeenIs(f: Frame, calls: seq<Accessor>)
    ensures var c := After(f, calls);
            TypeSeen(f, calls) ==
            if c.ip && IpOf(f).RuntIp? then TYPE_RUNT_L3
            else if (c.ports && PortsOf(f).RuntPorts?) || (c.l4 && TcpOf(f).RuntTcp?) then TYPE_RUNT_L4
            else MacLayer(f).0
  {
    var c := After(f, calls);
    assert (calls + [L3Protocol])[..|calls|] == calls;
    assert After(f, calls + [L3Protocol]) == ParseMac(f, c);
    ParseMacSound(f, c);
  }

  ghost predicate Runt(f: Frame) { IpOf(f).RuntIp? || PortsOf(f).RuntPorts? || TcpOf(f).RuntTcp? }

  /** The packet type is not among the stable answers: it is overwritten when a later layer turns out to be
      cut off.  It depends on the history exactly for such runt packets. */
  lemma L3ProtocolStable(f: Frame)
    ensures (forall calls :: TypeSeen(f, calls) == MacLayer(f).0) <==> !Runt(f)
  {
    if Runt(f) {
      var a := if IpOf(f).RuntIp? then SrcIp else if PortsOf(f).RuntPorts? then SrcPort else TcpHeader;
      TypeSeenIs(f, [a]);
      ParsedBy(f, a);
      assert TypeSeen(f, [a]) != TYPE_IP4 == MacLayer(f).0;
    } else {
      forall calls ensures TypeSeen(f, calls) == MacLayer(f).0 { TypeSeenIs(f, calls); }
    }
  }

  /** An empty frame of raw IP is an IPv4 packet, and, once its header was looked for, a runt. */
  lemma RuntHasTwoTypes(f: Frame)
    requires f.macType == RAW_IP && f.bytes == []
    ensures TypeSeen(f, []) == 0x0800 && TypeSeen(f, [SrcIp]) == 0xFFF3
  {
    TypeSeenIs(f, []);
    TypeSeenIs(f, [SrcIp]);
    ParsedBy(f, SrcIp);
  }

  lemma ParsedBy(f: Frame, a: Accessor)
    requires a in {SrcIp, SrcPort, TcpHeader}
    ensures var c := After(f, [a]); c.mac && c.ip && (a == SrcPort ==> c.ports) && (a == TcpHeader ==> c.l4)
  {
    var c := After(f, []);
    assert [a][..0] == [];
    match a {
      case SrcIp => ParseIpSound(f, c);
      case SrcPort => ParsePortsSound(f, c);
      case TcpHeader => ParseTcpSound(f, c);
      case _ =>
    }
  }

  /** On any bytes the headers lie one behind the other inside the captured part. */
  lemma HeadersInBounds(f: Frame, calls: seq<Accessor>)
    ensures var c := After(f, calls);
            && (c.ipHdr.Some? ==> c.ipHdr.value <= |f.bytes|)
            && (c.l4Hdr.Some? ==>
                  && c.ipHdr.Some? && c.ipHdr.value + IP4 <= |f.bytes|
                  && c.ipHdr.value <= c.l4Hdr.value <= |f.bytes|)
            && (c.payload.Some? ==> c.l4Hdr.Some? && c.l4Hdr.value <= c.payload.value <= |f.bytes|)
            && (c.tcp.Some? ==> c.l4Hdr.Some? && c.l4Hdr.value + TCP_HEADER <= |f.bytes|)
  {
  }

  // ---------- Packets as they are sent ----------

  /** An IPv4 datagram (section 3.1 of RFC 791) with what it carries. */
  datatype Datagram = Datagram(tos: Octet, len: nat, fragId: nat, fragOff: nat, ttl: Octet, checksum: nat,
                               src: nat, dst: nat, options: seq<Octet>, segment: Segment)

  /** UDP (RFC 768) and TCP (section 3.1 of RFC 793). */
  datatype Segment =
    | UdpSegment(srcPort: nat, dstPort: nat, len: nat, checksum: nat, data: seq<Octet>)
    | TcpSegment(srcPort: nat, dstPort: nat, fields: TcpFields, reserved: nat, checksum: nat,
                 options: seq<Octet>, data: seq<Octet>)

  ghost predicate Sendable(d: Datagram) {
    && d.src < 0x1_0000_0000 && d.dst < 0x1_0000_0000
    && |d.options| % 4 == 0 && |d.options| <= 40 && InRange(d.segment)
  }

  ghost predicate InRange(s: Segment) {
    && s.srcPort < 0x1_0000 && s.dstPort < 0x1_0000
    && (s.TcpSegment? ==>
          var t := s.fields;
          && t.flags < 256 && t.seqno < 0x1_0000_0000 && t.ack < 0x1_0000_0000
          && t.urgent < 0x1_0000 && t.window < 0x1_0000
          && s.reserved < 16 && |s.options| % 4 == 0 && |s.options| <= 40)
  }

  function Put16(x: nat): (bs: seq<Octet>)
    ensures |bs| == 2 && (x < 0x1_0000 ==> U16(bs, 0) == x)
  {
    [x / 0x100 % 0x100, x % 0x100]
  }

  function Put32(x: nat): (bs: seq<Octet>)
    ensures |bs| == 4 && (x < 0x1_0000_0000 ==> U32(bs, 0) == x)
  {
    Put16(x / 0x1_0000) + Put16(x % 0x1_0000)
  }

  function SegmentHeader(s: Segment): (bs: seq<Octet>)
    requires s.TcpSegment? ==> |s.options| <= 40 && s.fields.flags < 256 && s.reserved < 16
  {
    match s
    case UdpSegment(src, dst, len, checksum, data) => Put16(src) + Put16(dst) + Put16(len) + Put16(checksum)
    case TcpSegment(src, dst, t, reserved, checksum, options, data) =>
      Put16(src) + Put16(dst) + Put32(t.seqno) + Put32(t.ack)
        + [(5 + |options| / 4) * 16 + reserved, t.flags]
        + Put16(t.window) + Put16(checksum) + Put16(t.urgent) + options
  }

  function DatagramHeader(d: Datagram): (bs: seq<Octet>)
    requires |d.options| <= 40
  {
    [4 * 16 + 5 + |d.options| / 4, d.tos] + Put16(d.len) + Put16(d.fragId) + Put16(d.fragOff)
      + [d.ttl, if d.segment.UdpSegment? then UDP else TCP] + Put16(d.checksum)
      + Put32(d.src) + Put32(d.dst) + d.options
  }

  function Encode(d: Datagram): seq<Octet>
    requires Sendable(d)
  {
    DatagramHeader(d) + (SegmentHeader(d.segment) + d.segment.data)
  }

  /** What follows the two MAC addresses: any number of 802.1Q tags, then the datagram. */
  function Tagged(tags: seq<nat>, datagram: seq<Octet>): seq<Octet> {
    if tags == [] then Put16(TYPE_IP4) + datagram
    else Put16(TYPE_1Q) + Put16(tags[0]) + Tagged(tags[1..], datagram)
  }

  lemma {:induction false} TagsAreSkipped(b: seq<Octet>, at: nat, tags: seq<nat>, datagram: seq<Octet>)
    requires at + 2 <= |b| && b[at..] == Tagged(tags, datagram) && |datagram| >= IP4
    ensures Tags(b, at + 2, U16(b, at)) == (TYPE_IP4, at + 2 + 4 * |tags|)
    ensures |b| == at + 2 + 4 * |tags| + |datagram| && b[at + 2 + 4 * |tags|..] == datagram
    decreases |tags|
  {
    U16Behind(b, at, Tagged(tags, datagram), 0);
    if tags != [] {
      var rest := Tagged(tags[1..], datagram);
      TaggedLength(tags[1..], datagram);
      assert Tagged(tags, datagram) == Put16(TYPE_1Q) + Put16(tags[0]) + rest;
      assert U16(Tagged(tags, datagram), 0) == TYPE_1Q;
      assert b[at + 4..] == b[at..][4..] == rest;
      TagsAreSkipped(b, at + 4, tags[1..], datagram);
    } else {
      assert b[at + 2..] == b[at..][2..] == datagram;
    }
  }

  lemma {:induction false} TaggedLength(tags: seq<nat>, datagram: seq<Octet>)
    ensures |Tagged(tags, datagram)| == 2 + 4 * |tags| + |datagram|
  {
    if tags != [] { TaggedLength(tags[1..], datagram); }
  }

  lemma U16Behind(b: seq<Octet>, at: nat, tail: seq<Octet>, k: nat)
    requires at <= |b| && b[at..] == tail && k + 2 <= |tail|
    ensures U16(b, at + k) == U16(tail, k)
  {
    assert b[at + k] == tail[k] && b[at + k + 1] == tail[k + 1];
  }

  lemma U32Behind(b: seq<Octet>, at: nat, tail: seq<Octet>, k: nat)
    requires at <= |b| && b[at..] == tail && k + 4 <= |tail|
    ensures U32(b, at + k) == U32(tail, k)
  {
    U16Behind(b, at, tail, k);
    U16Behind(b, at, tail, k + 2);
  }

  /** A header length of n words is read back from either half of its octet. */
  lemma LengthsDecode(n: nat, other: nat)
    requires n < 16 && other < 16
    ensures DecodeHlv(16 * other + n) == 4 * n && DecodePayoff(16 * n + other) == 4 * n
  {
    SixteenTimes(other);
    SixteenTimes(n);
    LowHalf(other, n);
    HighHalf(n, other);
    FourTimes(n);
  }

  lemma FourTimes(n: nat)
    ensures Shl(n, 2) == 4 * n && Shr(16 * n, 2) == 4 * n
  {
    assert Pow2(2) == 4;
    ShlIsProduct(n, 2);
    ShrIsQuotient(16 * n, 2);
  }

  lemma SixteenTimes(x: nat)
    ensures Shl(x, 4) == 16 * x
  {
    assert Pow2(4) == 16;
    ShlIsProduct(x, 4);
  }

  lemma LowHalf(high: nat, low: nat)
    requires low < 16
    ensures And(Shl(high, 4) + low, 0x0f) == low
  {
    assert Pow2(4) == 16;
    forall i: nat ensures Bit(And(Shl(high, 4) + low, 0x0f), i) == Bit(low, i) {
      BitOfAnd(Shl(high, 4) + low, 0x0f, i);
      BitOfSum(high, low, 4, i);
      BitOfMask(4, i);
      if i >= 4 { NoHighBits(low, 4, i); }
    }
    SameBits(And(Shl(high, 4) + low, 0x0f), low);
  }

  lemma HighHalf(high: nat, low: nat)
    requires high < 16 && low < 16
    ensures And(Shl(high, 4) + low, 0xf0) == Shl(high, 4)
  {
    assert Pow2(4) == 16;
    SixteenTimes(15);
    forall i: nat ensures Bit(And(Shl(high, 4) + low, 0xf0), i) == Bit(Shl(high, 4), i) {
      BitOfAnd(Shl(high, 4) + low, 0xf0, i);
      BitOfSum(high, low, 4, i);
      BitOfShl(15, 4, i);
      BitOfShl(high, 4, i);
      if i >= 4 {
        BitOfMask(4, i - 4);
        if i >= 8 { NoHighBits(high, 4, i - 4); }
      }
    }
    SameBits(And(Shl(high, 4) + low, 0xf0), Shl(high, 4));
  }

  // ---------- Round trip ----------

  function IpLength(d: Datagram): nat { IP4 + |d.options| }

  function SegmentLength(s: Segment): nat { if s.UdpSegment? then UDP_HEADER else TCP_HEADER + |s.options| }

  lemma HeaderFields(d: Datagram)
    requires Sendable(d)
    ensures var h := DatagramHeader(d);
            && |h| == IpLength(d) && h[0] == 16 * 4 + (5 + |d.options| / 4) && h[1] == d.tos && h[8] == d.ttl
            && h[9] == (if d.segment.UdpSegment? then UDP else TCP) && U32(h, 12) == d.src && U32(h, 16) == d.dst
  {
    var h := DatagramHeader(d);
    var front := [4 * 16 + 5 + |d.options| / 4, d.tos] + Put16(d.len) + Put16(d.fragId) + Put16(d.fragOff)
                 + [d.ttl, if d.segment.UdpSegment? then UDP else TCP] + Put16(d.checksum);
    assert h == front + Put32(d.src) + Put32(d.dst) + d.options && |front| == 12;
    assert h[12..] == Put32(d.src) + (Put32(d.dst) + d.options);
    assert h[16..] == Put32(d.dst) + d.options;
    U32Behind(h, 12, h[12..], 0);
    U32Behind(h, 16, h[16..], 0);
  }

  lemma PortFields(s: Segment)
    requires InRange(s)
    ensures var h := SegmentHeader(s);
            |h| == SegmentLength(s) && U16(h, 0) == s.srcPort && U16(h, 2) == s.dstPort
  {
    var h := SegmentHeader(s);
    assert h[0] == Put16(s.srcPort)[0] && h[1] == Put16(s.srcPort)[1];
    assert h[2] == Put16(s.dstPort)[0] && h[3] == Put16(s.dstPort)[1];
  }

  lemma TcpHeaderFields(s: Segment)
    requires s.TcpSegment? && InRange(s)
    ensures var h, t := SegmentHeader(s), s.fields;
            && |h| == SegmentLength(s) && h[12] == (5 + |s.options| / 4) * 16 + s.reserved
            && t == TcpFields(h[13], U32(h, 4), U32(h, 8), U16(h, 18), U16(h, 14))
  {
    var h, t := SegmentHeader(s), s.fields;
    var middle := [(5 + |s.options| / 4) * 16 + s.reserved, t.flags];
    var ports := Put16(s.srcPort) + Put16(s.dstPort);
    var numbers := ports + Put32(t.seqno) + Put32(t.ack);
    assert h == numbers + middle + Put16(t.window) + Put16(s.checksum) + Put16(t.urgent) + s.options;
    InTheMiddle(h, ports, Put32(t.seqno), h[8..]);
    InTheMiddle(h, ports + Put32(t.seqno), Put32(t.ack), h[12..]);
    InTheMiddle(h, numbers, middle, h[14..]);
    InTheMiddle(h, numbers + middle, Put16(t.window), h[16..]);
    InTheMiddle(h, numbers + middle + Put16(t.window) + Put16(s.checksum), Put16(t.urgent), h[20..]);
    assert h[12] == middle[0] && h[13] == middle[1];
  }

  lemma InTheMiddle(h: seq<Octet>, before: seq<Octet>, part: seq<Octet>, behind: seq<Octet>)
    requires h == before + part + behind
    ensures forall k :: 0 <= k < |part| ==> h[|before| + k] == part[k]
    ensures |part| == 2 ==> U16(h, |before|) == U16(part, 0)
    ensures |part| == 4 ==> U32(h, |before|) == U32(part, 0)
  {
    forall k | 0 <= k < |part| ensures h[|before| + k] == part[k] { }
    if |part| == 2 { assert h[|before|] == part[0] && h[|before| + 1] == part[1]; }
    if |part| == 4 {
      assert h[|before|] == part[0] && h[|before| + 1] == part[1];
      assert h[|before| + 2] == part[2] && h[|before| + 3] == part[3];
    }
  }

  lemma IpOfDatagram(f: Frame, at: nat, e: seq<Octet>)
    requires MacLayer(f) == (TYPE_IP4, at) && f.bytes[at..] == e && |e| >= IP4 && DecodeHlv(e[0]) <= |e|
    ensures IpOf(f) == Ip(U32(e, 12), U32(e, 16), e[9], e[1], e[8], Some(at + DecodeHlv(e[0])))
  {
    var b := f.bytes;
    assert b[at] == e[0] && b[at + 1] == e[1] && b[at + 8] == e[8] && b[at + 9] == e[9];
    U32Behind(b, at, e, 12);
    U32Behind(b, at, e, 16);
  }

  lemma EncodedFields(d: Datagram)
    requires Sendable(d)
    ensures var e, n := Encode(d), IpLength(d);
            && |e| >= n && DecodeHlv(e[0]) == n && e[1] == d.tos && e[8] == d.ttl
            && e[9] == (if d.segment.UdpSegment? then UDP else TCP) && U32(e, 12) == d.src && U32(e, 16) == d.dst
            && e[n..] == SegmentHeader(d.segment) + d.segment.data
  {
    var h, rest := DatagramHeader(d), SegmentHeader(d.segment) + d.segment.data;
    HeaderFields(d);
    LengthsDecode(5 + |d.options| / 4, 4);
    Prefixed(h, rest, 12);
    Prefixed(h, rest, 16);
  }

  /** Parsing gives back what was encoded, wherever the datagram begins. */
  lemma IpRoundTrip(f: Frame, d: Datagram, at: nat)
    requires Sendable(d) && MacLayer(f) == (TYPE_IP4, at) && f.bytes[at..] == Encode(d)
    ensures IpDecoded(f, d, at) && at + IpLength(d) <= |f.bytes|
    ensures f.bytes[at + IpLength(d)..] == SegmentHeader(d.segment) + d.segment.data
  {
    var e := Encode(d);
    EncodedFields(d);
    IpOfDatagram(f, at, e);
    assert f.bytes[at + IpLength(d)..] == e[IpLength(d)..];
  }

  lemma PortsRoundTrip(f: Frame, s: Segment, at: nat)
    requires IpOf(f).Ip? && IpOf(f).l4 == Some(at) && IpOf(f).proto == (if s.UdpSegment? then UDP else TCP)
    requires at + SegmentLength(s) <= |f.bytes| && U16(f.bytes, at) == s.srcPort && U16(f.bytes, at + 2) == s.dstPort
    ensures PortsOf(f) == PortPair(s.srcPort, s.dstPort, if s.UdpSegment? then Some(at + SegmentLength(s)) else None)
  {
  }

  lemma TcpRoundTrip(f: Frame, s: Segment, at: nat, tail: seq<Octet>)
    requires IpOf(f).Ip? && IpOf(f).l4 == Some(at) && IpOf(f).proto == TCP
    requires s.TcpSegment? && |s.options| <= 40 && |s.options| % 4 == 0 && s.reserved < 16
    requires f.bytes[at..] == tail && |tail| >= SegmentLength(s) && tail[12] == (5 + |s.options| / 4) * 16 + s.reserved
    requires s.fields == TcpFields(tail[13], U32(tail, 4), U32(tail, 8), U16(tail, 18), U16(tail, 14))
    ensures TcpOf(f) == Tcp(s.fields, Some(at + SegmentLength(s)))
  {
    var b := f.bytes;
    LengthsDecode(5 + |s.options| / 4, s.reserved);
    assert b[at + 12] == tail[12] && b[at + 13] == tail[13];
    U32Behind(b, at, tail, 4);
    U32Behind(b, at, tail, 8);
    U16Behind(b, at, tail, 14);
    U16Behind(b, at, tail, 18);
  }

  lemma Prefixed(h: seq<Octet>, data: seq<Octet>, k: nat)
    requires k + 2 <= |h|
    ensures U16(h + data, k) == U16(h, k) && (k + 4 <= |h| ==> U32(h + data, k) == U32(h, k))
  {
  }

  lemma PortsPart(f: Frame, s: Segment, at: nat)
    requires InRange(s) && IpOf(f).Ip? && IpOf(f).l4 == Some(at)
    requires IpOf(f).proto == (if s.UdpSegment? then UDP else TCP)
    requires f.bytes[at..] == SegmentHeader(s) + s.data
    ensures PortsOf(f) == PortPair(s.srcPort, s.dstPort, if s.UdpSegment? then Some(at + SegmentLength(s)) else None)
  {
    var h := SegmentHeader(s);
    PortFields(s);
    Prefixed(h, s.data, 0);
    Prefixed(h, s.data, 2);
    U16Behind(f.bytes, at, h + s.data, 0);
    U16Behind(f.bytes, at, h + s.data, 2);
    PortsRoundTrip(f, s, at);
  }

  lemma DataPart(b: seq<Octet>, s: Segment, at: nat)
    requires InRange(s) && at <= |b| && b[at..] == SegmentHeader(s) + s.data
    ensures at + SegmentLength(s) <= |b| && b[at + SegmentLength(s)..] == s.data
  {
    PortFields(s);
    assert b[at + SegmentLength(s)..] == b[at..][SegmentLength(s)..];
  }

  lemma SegmentRoundTrip(f: Frame, s: Segment, at: nat)
    requires InRange(s) && IpOf(f).Ip? && IpOf(f).l4 == Some(at)
    requires IpOf(f).proto == (if s.UdpSegment? then UDP else TCP)
    requires f.bytes[at..] == SegmentHeader(s) + s.data
    ensures SegmentDecoded(f, s, at)
  {
    PortsPart(f, s, at);
    DataPart(f.bytes, s, at);
    if s.TcpSegment? { TcpPart(f, s, at); }
  }

  lemma TcpPart(f: Frame, s: Segment, at: nat)
    requires IpOf(f).Ip? && IpOf(f).l4 == Some(at) && IpOf(f).proto == TCP
    requires s.TcpSegment? && InRange(s)
    requires f.bytes[at..] == SegmentHeader(s) + s.data
    ensures TcpOf(f) == Tcp(s.fields, Some(at + SegmentLength(s)))
  {
    var h := SegmentHeader(s);
    TcpHeaderFields(s);
    Prefixed(h, s.data, 4);
    Prefixed(h, s.data, 8);
    Prefixed(h, s.data, 14);
    Prefixed(h, s.data, 18);
    TcpRoundTrip(f, s, at, h + s.data);
  }

  /** The datagram, beginning at `at`, is decoded: its header, */
  ghost predicate IpDecoded(f: Frame, d: Datagram, at: nat) {
    var l4 := at + IpLength(d);
    && MacLayer(f) == (TYPE_IP4, at)
    && IpOf(f) == Ip(d.src, d.dst, if d.segment.UdpSegment? then UDP else TCP, d.tos, d.ttl, Some(l4))
  }

  /** and what it carries, from l4 on. */
  ghost predicate SegmentDecoded(f: Frame, s: Segment, l4: nat) {
    var data := l4 + SegmentLength(s);
    && PortsOf(f) == PortPair(s.srcPort, s.dstPort, if s.UdpSegment? then Some(data) else None)
    && TcpOf(f) == (if s.UdpSegment? then NoTcp else Tcp(s.fields, Some(data)))
    && data <= |f.bytes| && f.bytes[data..] == s.data
  }

  ghost predicate Decoded(f: Frame, d: Datagram, at: nat) {
    IpDecoded(f, d, at) && SegmentDecoded(f, d.segment, at + IpLength(d))
  }

  lemma RoundTripAt(f: Frame, d: Datagram, at: nat)
    requires Sendable(d) && MacLayer(f) == (TYPE_IP4, at) && f.bytes[at..] == Encode(d)
    ensures Decoded(f, d, at)
  {
    IpRoundTrip(f, d, at);
    SegmentRoundTrip(f, d.segment, at + IpLength(d));
  }

  /** What the accessors should return for it. */
  function Sent(d: Datagram, at: nat, a: Accessor): Value {
    var s, l4 := d.segment, at + IpLength(d);
    var data, proto := l4 + SegmentLength(s), if s.UdpSegment? then UDP else TCP;
    match a
    case IpHdr => Offset(Some(at))
    case L4Hdr => Offset(Some(l4))
    case L4Payload => Offset(Some(data))
    case SrcIp => Number(d.src)
    case DstIp => Number(d.dst)
    case SrcPort => Number(s.srcPort)
    case DstPort => Number(s.dstPort)
    case Protocol => Number(proto)
    case Key => Flow(FlowKey(d.src, d.dst, s.srcPort, s.dstPort, proto))
    case Tos => Field(Some(d.tos))
    case Ttl => Field(Some(d.ttl))
    case TcpHeader => Header(if s.TcpSegment? then Some(s.fields) else None)
    case L3Protocol => Number(TYPE_IP4)
  }

  lemma EagerIsSent(f: Frame, d: Datagram, at: nat, a: Accessor)
    requires Decoded(f, d, at)
    ensures Eager(f, a) == Sent(d, at, a)
  {
  }

  /** Then the accessors do so, whatever was called before. */
  lemma ReadsBack(f: Frame, d: Datagram, at: nat, calls: seq<Accessor>, a: Accessor)
    requires Decoded(f, d, at) && a != L3Protocol
    ensures Reading(After(f, calls + [a]), a) == Sent(d, at, a)
  {
    Confluent(f, calls, a);
    EagerIsSent(f, d, at, a);
  }

  lemma EncodeLength(d: Datagram)
    requires Sendable(d)
    ensures |Encode(d)| >= IP4
  {
    HeaderFields(d);
  }

  lemma MacRoundTrip(f: Frame, macs: seq<Octet>, tags: seq<nat>, datagram: seq<Octet>)
    requires |macs| == 12 && f.macType == ETHERNET && f.bytes == macs + Tagged(tags, datagram) && |datagram| >= IP4
    ensures var at := ETH + ETH1Q * |tags|;
            MacLayer(f) == (TYPE_IP4, at) && at <= |f.bytes| && f.bytes[at..] == datagram
  {
    assert f.bytes[12..] == Tagged(tags, datagram);
    TaggedLength(tags, datagram);
    TagsAreSkipped(f.bytes, 12, tags, datagram);
  }

  /** Ethernet with any number of 802.1Q tags. */
  lemma EthernetRoundTrip(f: Frame, macs: seq<Octet>, tags: seq<nat>, d: Datagram, at: nat)
    requires Sendable(d) && at == ETH + ETH1Q * |tags| && |macs| == 12 && f.macType == ETHERNET
    requires f.bytes == macs + Tagged(tags, Encode(d))
    ensures Decoded(f, d, at)
  {
    EncodeLength(d);
    MacRoundTrip(f, macs, tags, Encode(d));
    RoundTripAt(f, d, at);
  }

  /** A bare datagram. */
  lemma RawIpRoundTrip(f: Frame, d: Datagram)
    requires Sendable(d) && f.macType == RAW_IP && f.bytes == Encode(d)
    ensures Decoded(f, d, 0)
  {
    assert f.bytes[0..] == Encode(d);
    RoundTripAt(f, d, 0);
  }

  // ---------- The class ----------

  class Packet {
    const frame: Frame
    var macParsed: bool
    var ipParsed: bool
    var portsParsed: bool
    var l4Parsed: bool
    var pktType: nat
    var ipHdr: Option<nat>
    var l4Hdr: Option<nat>
    var payload: Option<nat>
    var key: FlowKey
    var tos: Option<nat>
    var ttl: Option<nat>
    var tcp: Option<TcpFields>

    ghost function View(): Cache
      reads this
    {
      Cache(macParsed, ipParsed, portsParsed, l4Parsed, pktType, ipHdr, l4Hdr, payload, key, tos, ttl, tcp)
    }

    ghost predicate Valid()
      reads this
    {
      Sound(frame, View())
    }

    constructor (bytes: seq<Octet>, macType: int)
      ensures Valid() && frame.bytes == bytes && frame.macType == macType && View() == Unparsed(frame)
    {
      var junk: nat :| junk >= 0;
      frame := Frame(bytes, macType, junk);
      macParsed, ipParsed, portsParsed, l4Parsed := false, false, false, false;
      pktType, ipHdr, l4Hdr, payload := junk, None, None, None;
      key, tos, ttl, tcp := FlowKey(0, 0, 0, 0, 0), None, None, None;
      new;
      UnparsedIsSound(frame);
    }

    method FillMac()
      modifies this
      ensures View() == ParseMac(frame, old(View()))
    {
      if macParsed { return; }
      macParsed := true;
      var at: nat := 0;
      if frame.macType == ETHERNET {
        if |frame.bytes| < ETH {
          pktType, ipParsed, portsParsed, l4Parsed := TYPE_RUNT_L2, true, true, true;
          return;
        }
        pktType := U16(frame.bytes, 12);
        at := ETH;
        while pktType == TYPE_1Q
          invariant at <= |frame.bytes|
          invariant Tags(frame.bytes, at, pktType) == Tags(frame.bytes, ETH, U16(frame.bytes, 12))
          invariant View() == old(View()).(mac := true, pktType := pktType)
          decreases |frame.bytes| - at
        {
          if |frame.bytes| - at < ETH {
            pktType, ipParsed, portsParsed, l4Parsed := TYPE_RUNT_L2, true, true, true;
            return;
          }
          pktType := U16(frame.bytes, at + 2);
          at := at + ETH1Q;
        }
      } else if frame.macType == RAW_IP {
        pktType := TYPE_IP4;
      }
      if pktType == TYPE_IP4 {
        ipHdr := Some(at);
      } else {
        ipParsed, portsParsed, l4Parsed := true, true, true;
      }
    }

    method FillIp()
      requires InBounds(frame, View())
      modifies this
      ensures View() == ParseIp(frame, old(View()))
    {
      if ipParsed { return; }
      ipParsed := true;
      MacInBounds(frame, View());
      FillMac();
      ReadIpHeader();
    }

    method ParseMacHeader()
      modifies this
      ensures View() == ParseMac(frame, old(View()))
      ensures old(Valid()) ==> Valid() && macParsed
    {
      if Valid() { ParseMacSound(frame, View()); }
      FillMac();
    }

    method ParseIpHeader()
      requires InBounds(frame, View())
      modifies this
      ensures View() == ParseIp(frame, old(View()))
      ensures old(Valid()) ==> Valid() && ipParsed
    {
      if Valid() { ParseIpSound(frame, View()); }
      FillIp();
    }

    method ReadIpHeader()
      requires InBounds(frame, View())
      modifies this
      ensures View() == ReadIp(frame, old(View()))
    {
      if ipHdr.Some? {
        var b, at := frame.bytes, ipHdr.value;
        if |b| - at >= IP4 {
          key := key.(srcIp := U32(b, at + 12));
          key := key.(dstIp := U32(b, at + 16));
          key := key.(proto := b[at + 9]);
          tos, ttl := Some(b[at + 1]), Some(b[at + 8]);
          var len := DecodeHlv(b[at]);
          if |b| - at >= len { l4Hdr := Some(at + len); }
        } else {
          pktType, portsParsed, l4Parsed := TYPE_RUNT_L3, true, true;
        }
      }
    }

    method FillPorts()
      requires InBounds(frame, View())
      modifies this
      ensures View() == ParsePorts(frame, old(View()))
    {
      if portsParsed { return; }
      portsParsed := true;
      ParseIpInBounds(frame, View());
      FillIp();
      ReadPortPair();
    }

    method ParsePortPair()
      requires InBounds(frame, View())
      modifies this
      ensures View() == ParsePorts(frame, old(View()))
      ensures old(Valid()) ==> Valid() && portsParsed
    {
      if Valid() { ParsePortsSound(frame, View()); }
      FillPorts();
    }

    method ReadPortPair()
      requires InBounds(frame, View())
      modifies this
      ensures View() == ReadPorts(frame, old(View()))
    {
      if l4Hdr.Some? && (key.proto == TCP || key.proto == UDP) {
        var b, at := frame.bytes, l4Hdr.value;
        if |b| - at >= PORTS {
          key := key.(srcPort := U16(b, at), dstPort := U16(b, at + 2));
          if key.proto == UDP && |b| - at >= UDP_HEADER { payload := Some(at + UDP_HEADER); }
        } else {
          pktType, l4Parsed := TYPE_RUNT_L4, true;
        }
      }
    }

    method FillTcp()
      requires InBounds(frame, View())
      modifies this
      ensures View() == ParseTcp(frame, old(View()))
    {
      if l4Parsed { return; }
      l4Parsed := true;
      ParseIpInBounds(frame, View());
      FillIp();
      ReadTcpHeader();
    }

    method ParseTcpHeader()
      requires InBounds(frame, View())
      modifies this
      ensures View() == ParseTcp(frame, old(View()))
      ensures old(Valid()) ==> Valid() && l4Parsed
    {
      if Valid() { ParseTcpSound(frame, View()); }
      FillTcp();
    }

    method ReadTcpHeader()
      requires InBounds(frame, View())
      modifies this
      ensures View() == ReadTcp(frame, old(View()))
    {
      if l4Hdr.Some? && key.proto == TCP {
        var b, at := frame.bytes, l4Hdr.value;
        if |b| - at >= TCP_HEADER {
          key := key.(srcPort := U16(b, at), dstPort := U16(b, at + 2));
          tcp := Some(TcpFields(b[at + 13], U32(b, at + 4), U32(b, at + 8), U16(b, at + 18), U16(b, at + 14)));
          var len := DecodePayoff(b[at + 12]);
          if |b| - at >= len { payload := Some(at + len); }
        } else {
          pktType := TYPE_RUNT_L4;
        }
      }
    }

    /** An accessor: the parsing it triggers, then the field. */
    method Access(a: Accessor) returns (v: Value)
      requires Valid()
      modifies this
      ensures Valid() && View() == Touch(frame, old(View()), a)
      ensures a != L3Protocol ==> v == Eager(frame, a)
      ensures v == Reading(View(), a)
    {
      AccessAgrees(frame, View(), a);
      SoundInBounds(frame, View());
      match a {
        case IpHdr | L3Protocol => ParseMacHeader();
        case L4Hdr | SrcIp | DstIp | Protocol | Tos | Ttl => ParseIpHeader();
        case SrcPort | DstPort | Key => ParsePortPair();
        case TcpHeader => ParseTcpHeader();
        case L4Payload =>
          ParseIpInBounds(frame, View());
          ParseIpHeader();
          if key.proto == TCP { ParseTcpHeader(); } else { ParsePortPair(); }
      }
      match a {
        case IpHdr => v := Offset(ipHdr);
        case L4Hdr => v := Offset(l4Hdr);
        case L4Payload => v := Offset(payload);
        case SrcIp => v := Number(key.srcIp);
        case DstIp => v := Number(key.dstIp);
        case SrcPort => v := Number(key.srcPort);
        case DstPort => v := Number(key.dstPort);
        case Protocol => v := Number(key.proto);
        case Key => v := Flow(key);
        case Tos => v := Field(tos);
        case Ttl => v := Field(ttl);
        case TcpHeader => v := Header(tcp);
        case L3Protocol => v := Number(pktType);
      }
    }
  }
}
