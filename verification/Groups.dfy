/**
 Security groups compiled to rules: what a compiled group's rules do on a packet
 is what the group says.
 */
module Groups {
  import opened Common
  import opened Bits
  import opened Nft
  import opened RuleStore

  datatype Protocol = ICMP | TCP | UDP | Other(name: string)

  datatype PortGroup = PortGroup(proto: Protocol, fromPort: int, toPort: int)

  datatype SecurityGroup = SecurityGroup(deny: bool, src: Prefix, dst: Prefix, oifname: Name, ports: seq<PortGroup>)

  const IPPROTO_ICMP: nat := 1
  const IPPROTO_TCP: nat := 6
  const IPPROTO_UDP: nat := 17
  const IPPROTO_ICMPV6: nat := 58

  /** Prefixes of the right size, an interface name the kernel accepts, and 16-bit ports. */
  predicate ValidGroup(sg: SecurityGroup) {
    && ValidPrefix(sg.src) && ValidPrefix(sg.dst) && |sg.oifname| < 16
    && forall i | 0 <= i < |sg.ports| :: 0 <= sg.ports[i].fromPort && sg.ports[i].toPort <= 65535
  }

  /** A source and a destination of different families: such a group is skipped. */
  predicate Mixed(sg: SecurityGroup) {
    sg.src.Prefix? && sg.dst.Prefix? && sg.src.fam != sg.dst.fam
  }

  /** Whether the group's rules go to the family's chains. */
  predicate Applies(sg: SecurityGroup, fam: Family) {
    || (sg.src.NoPrefix? && sg.dst.NoPrefix?)
    || (sg.src.Prefix? && sg.src.fam == fam)
    || (sg.dst.Prefix? && sg.dst.fam == fam)
  }

  function VerdictOf(sg: SecurityGroup): Verdict {
    if sg.deny then Drop else Accept
  }

  function TargetChain(sg: SecurityGroup, iif: Name): Chain {
    if sg.dst.Prefix? then Forward else if iif != [] then Inbound(iif) else Input
  }

  /** The parts of the key string that come before the ports. */
  function Signature(sg: SecurityGroup, iif: Name): seq<Part> {
    (if iif != [] then [IfPart(iif)] else [])
    + (if sg.src.Prefix? then [NetPart(sg.src)] else [])
    + (if sg.dst.Prefix? then [NetPart(sg.dst)] else [])
  }

  function ProtoName(p: Protocol): string {
    match p
    case ICMP => "icmp"
    case TCP => "tcp"
    case UDP => "udp"
    case Other(n) => n
  }

  function PortSigs(ports: seq<PortGroup>): seq<PortSig> {
    seq(|ports|, i requires 0 <= i < |ports| =>
      PortSig(ProtoName(ports[i].proto),
              if ports[i].proto == ICMP then None else Some((ports[i].fromPort, ports[i].toPort))))
  }

  /** The key does not depend on the verdict or the outgoing interface. */
  function SgKey(sg: SecurityGroup, iif: Name): Key {
    GroupKey(Signature(sg, iif), PortSigs(sg.ports))
  }

  // ----- compilation

  function Conditions(sg: SecurityGroup, iif: Name, fam: Family): seq<Expr> {
    (if iif != [] && sg.dst.Prefix? then IfExprs(IifName, iif) else [])
    + (if sg.src.Prefix? then AddrExprs(fam, IpHeaderOffsets(fam).src, sg.src) else [])
    + (if sg.oifname != [] then IfExprs(OifName, sg.oifname) else [])
    + (if sg.dst.Prefix? then AddrExprs(fam, IpHeaderOffsets(fam).dst, sg.dst) else [])
  }

  function IcmpExprs(v: Verdict): seq<Expr> {
    [Meta(L4Proto, 1), Cmp(1, Num(IPPROTO_ICMP, 8)), Give(v)]
  }

  /** Protocol and destination port side by side in registers 9 and 10, looked up together. */
  function PortExprs(fam: Family, name: SetName): seq<Expr> {
    [Payload(9, NetworkHeader, IpHeaderOffsets(fam).proto, 1),
     Payload(10, TransportHeader, 2, 2),
     LookupVerdict(9, name)]
  }

  /** One rule for the first ICMP port group, one for the first other one. */
  function PortRules(ports: seq<PortGroup>, pre: seq<Expr>, fam: Family, name: SetName, v: Verdict, icmpDone: bool,
                     mapDone: bool): seq<seq<Expr>>
    decreases |ports|
  {
    if ports == [] then []
    else if ports[0].proto == ICMP then
      (if icmpDone then [] else [pre + IcmpExprs(v)]) + PortRules(ports[1..], pre, fam, name, v, true, mapDone)
    else
      (if mapDone then [] else [pre + PortExprs(fam, name)]) + PortRules(ports[1..], pre, fam, name, v, icmpDone, true)
  }

  function GroupRules(sg: SecurityGroup, iif: Name, fam: Family): seq<seq<Expr>> {
    var pre := Conditions(sg, iif, fam);
    if !Applies(sg, fam) then []
    else if sg.ports == [] then [pre + [Give(VerdictOf(sg))]]
    else PortRules(sg.ports, pre, fam, PortMap(Signature(sg, iif)), VerdictOf(sg), false, false)
  }

  lemma {:induction false} OnePortGroup(rules: seq<seq<Expr>>, ports: seq<PortGroup>, pre: seq<Expr>, fam: Family,
                                        name: SetName, v: Verdict, icmpDone: bool, mapDone: bool)
    requires ports != []
    ensures rules + PortRules(ports, pre, fam, name, v, icmpDone, mapDone)
         == if ports[0].proto == ICMP
            then (if icmpDone then rules else rules + [pre + IcmpExprs(v)])
                 + PortRules(ports[1..], pre, fam, name, v, true, mapDone)
            else (if mapDone then rules else rules + [pre + PortExprs(fam, name)])
                 + PortRules(ports[1..], pre, fam, name, v, icmpDone, true)
  {
    var icmp := ports[0].proto == ICMP;
    var rest := PortRules(ports[1..], pre, fam, name, v, icmpDone || icmp, mapDone || !icmp);
    var own := if icmp then pre + IcmpExprs(v) else pre + PortExprs(fam, name);
    ConcatAssoc(rules, [own], rest);
    EmptyConcat(rest);
  }

  /** The loop over port groups, with its two run-once guards. */
  method CompilePorts(ports: seq<PortGroup>, pre: seq<Expr>, fam: Family, name: SetName, v: Verdict)
    returns (rules: seq<seq<Expr>>)
    ensures rules == PortRules(ports, pre, fam, name, v, false, false)
  {
    rules := [];
    var icmpDone, mapDone := false, false;
    for i := 0 to |ports|
      invariant PortRules(ports, pre, fam, name, v, false, false)
             == rules + PortRules(ports[i..], pre, fam, name, v, icmpDone, mapDone)
    {
      assert ports[i..][1..] == ports[i + 1..];
      OnePortGroup(rules, ports[i..], pre, fam, name, v, icmpDone, mapDone);
      if ports[i].proto == ICMP {
        if !icmpDone {
          rules := rules + [pre + IcmpExprs(v)];
          icmpDone := true;
        }
      } else if !mapDone {
        rules := rules + [pre + PortExprs(fam, name)];
        mapDone := true;
      }
    }
  }

  /** The number a protocol has in the port map; None where createPortVMapKeyData fails. */
  function ProtoNumber(p: Protocol): Option<nat> {
    match p
    case ICMP => Some(IPPROTO_ICMP)
    case TCP => Some(IPPROTO_TCP)
    case UDP => Some(IPPROTO_UDP)
    case Other(_) => None
  }

  /** createPortVMapKeyData: each field in four bytes, the port in network order and cut to 16 bits. */
  function PortKey(proto: nat, port: int): (b: Bits)
    ensures |b| == 64
  {
    KeyOf(Num(proto, 8), Num(port % 65536, 16))
  }

  function KeyOf(proto: Bits, port: Bits): (b: Bits)
    ensures |b| == |proto| + |port| + 40
  {
    proto + Zeros(24) + port + Zeros(16)
  }

  function AddRange(m: map<Bits, Verdict>, proto: nat, p: int, last: int, v: Verdict): map<Bits, Verdict>
    decreases last - p
  {
    if p > last then m else AddRange(m[PortKey(proto, p) := v], proto, p + 1, last, v)
  }

  function AddPorts(m: map<Bits, Verdict>, ports: seq<PortGroup>, v: Verdict): map<Bits, Verdict>
    decreases |ports|
  {
    if ports == [] then m
    else
      var pg := ports[0];
      var n := ProtoNumber(pg.proto);
      AddPorts(if pg.proto == ICMP || n.None? then m else AddRange(m, n.value, pg.fromPort, pg.toPort, v),
               ports[1..], v)
  }

  /** The loops that put a group's port ranges into its port map. */
  method FillPorts(m: map<Bits, Verdict>, ports: seq<PortGroup>, v: Verdict) returns (filled: map<Bits, Verdict>)
    ensures filled == AddPorts(m, ports, v)
  {
    filled := m;
    for i := 0 to |ports|
      invariant AddPorts(filled, ports[i..], v) == AddPorts(m, ports, v)
    {
      assert ports[i..][1..] == ports[i + 1..];
      var n := ProtoNumber(ports[i].proto);
      if ports[i].proto != ICMP && n.Some? {
        ghost var before := filled;
        var port := ports[i].fromPort;
        while port <= ports[i].toPort
          invariant AddRange(filled, n.value, port, ports[i].toPort, v)
                 == AddRange(before, n.value, ports[i].fromPort, ports[i].toPort, v)
        {
          filled := filled[PortKey(n.value, port) := v];
          port := port + 1;
        }
      }
    }
  }

  /** Whether the group binds its chain to a port map. */
  predicate NeedsMap(ports: seq<PortGroup>) {
    exists i | 0 <= i < |ports| :: ports[i].proto != ICMP
  }

  // ----- what a group says

  function HeaderProto(p: Packet): Bits
    requires ValidPacket(p)
  {
    var o := IpHeaderOffsets(p.fam).proto;
    p.network[8 * o..8 * (o + 1)]
  }

  predicate HasPort(p: Packet) {
    |p.transport| >= 32
  }

  function DestPort(p: Packet): nat
    requires HasPort(p)
  {
    Value(p.transport[16..32])
  }

  predicate PortMatches(pg: PortGroup, p: Packet)
    requires ValidPacket(p)
  {
    if pg.proto == ICMP then p.l4proto == IPPROTO_ICMP
    else
      && ProtoNumber(pg.proto).Some? && Value(HeaderProto(p)) == ProtoNumber(pg.proto).value
      && HasPort(p) && pg.fromPort <= DestPort(p) <= pg.toPort
  }

  predicate PortsMatch(ports: seq<PortGroup>, p: Packet)
    requires ValidPacket(p)
  {
    ports == [] || exists i | 0 <= i < |ports| :: PortMatches(ports[i], p)
  }

  /** The group's conditions other than the incoming interface. */
  predicate MatchesFrom(sg: SecurityGroup, p: Packet)
    requires ValidPacket(p)
  {
    && (sg.src.Prefix? ==> Contains(sg.src, SrcAddr(p)))
    && (sg.dst.Prefix? ==> Contains(sg.dst, DstAddr(p)))
    && (sg.oifname != [] ==> p.oifname == sg.oifname)
    && PortsMatch(sg.ports, p)
  }

  predicate Matches(sg: SecurityGroup, iif: Name, p: Packet)
    requires ValidPacket(p)
  {
    (iif != [] ==> p.iifname == iif) && MatchesFrom(sg, p)
  }

  // ----- port maps

  lemma {:induction false} PortKeyIff(proto: nat, port: int, proto': nat, port': int)
    requires proto < 256 && proto' < 256 && 0 <= port < 65536 && 0 <= port' < 65536
    ensures PortKey(proto, port) == PortKey(proto', port') <==> proto == proto' && port == port'
  {
    assert port % 65536 == port && port' % 65536 == port';
    ByteIff(proto, proto');
    PortIff(port, port');
    KeyParts(Num(proto, 8), Num(port, 16), Num(proto', 8), Num(port', 16));
  }

  lemma {:induction false} KeyParts(x: Bits, a: Bits, y: Bits, b: Bits)
    requires |x| == |y| && |a| == |b|
    ensures KeyOf(x, a) == KeyOf(y, b) <==> x == y && a == b
  {
    HeadsAndTails(x + Zeros(24) + a, Zeros(16), y + Zeros(24) + b, Zeros(16));
    HeadsAndTails(x + Zeros(24), a, y + Zeros(24), b);
    HeadsAndTails(x, Zeros(24), y, Zeros(24));
  }

  lemma {:induction false} PortIff(port: nat, port': nat)
    requires port < 65536 && port' < 65536
    ensures Num(port, 16) == Num(port', 16) <==> port == port'
  {
    PowSixteen();
    ValueOfNum(port, 16);
    ValueOfNum(port', 16);
  }

  lemma {:induction false} PowSixteen()
    ensures Pow2(16) == 65536
  {
    assert Pow2(4) == 16 && Pow2(8) == 256 && Pow2(12) == 4096;
  }

  /** A map after v has been put under a key or not. */
  ghost predicate Bound(m: map<Bits, Verdict>, m': map<Bits, Verdict>, key: Bits, bound: bool, v: Verdict) {
    && (key in m' <==> bound || key in m)
    && (key in m' ==> m'[key] == if bound then v else m[key])
  }

  /** Adding a range binds exactly the keys of its ports and leaves the others. */
  lemma {:induction false} RangeEntries(m: map<Bits, Verdict>, proto: nat, from: int, last: int, v: Verdict,
                                        proto': nat, port: int)
    requires proto < 256 && proto' < 256 && 0 <= from && last <= 65535 && 0 <= port < 65536
    ensures Bound(m, AddRange(m, proto, from, last, v), PortKey(proto', port),
                  proto == proto' && from <= port <= last, v)
    decreases last - from
  {
    if from <= last {
      PortKeyIff(proto, from, proto', port);
      RangeEntries(m[PortKey(proto, from) := v], proto, from + 1, last, v, proto', port);
    }
  }

  predicate PortListed(ports: seq<PortGroup>, proto: nat, port: int) {
    exists i | 0 <= i < |ports| ::
      ports[i].proto != ICMP && ProtoNumber(ports[i].proto) == Some(proto)
        && ports[i].fromPort <= port <= ports[i].toPort
  }

  /** A group's ports bind exactly the keys of the ports it lists and leave the others. */
  lemma {:induction false} PortEntries(m: map<Bits, Verdict>, ports: seq<PortGroup>, v: Verdict, proto: nat, port: int)
    requires forall i | 0 <= i < |ports| :: 0 <= ports[i].fromPort && ports[i].toPort <= 65535
    requires proto < 256 && 0 <= port < 65536
    ensures Bound(m, AddPorts(m, ports, v), PortKey(proto, port), PortListed(ports, proto, port), v)
    decreases |ports|
  {
    if ports != [] {
      var pg := ports[0];
      var n := ProtoNumber(pg.proto);
      var m1 := if pg.proto == ICMP || n.None? then m else AddRange(m, n.value, pg.fromPort, pg.toPort, v);
      if !(pg.proto == ICMP || n.None?) {
        RangeEntries(m, n.value, pg.fromPort, pg.toPort, v, proto, port);
      }
      PortEntries(m1, ports[1..], v, proto, port);
      ListedHead(ports, proto, port);
    }
  }

  lemma {:induction false} ListedHead(ports: seq<PortGroup>, proto: nat, port: int)
    requires ports != []
    ensures PortListed(ports, proto, port)
         <==> (ports[0].proto != ICMP && ProtoNumber(ports[0].proto) == Some(proto)
               && ports[0].fromPort <= port <= ports[0].toPort)
              || PortListed(ports[1..], proto, port)
  {
    if PortListed(ports[1..], proto, port) {
      var i :| 0 <= i < |ports[1..]| && ports[1..][i].proto != ICMP && ProtoNumber(ports[1..][i].proto) == Some(proto)
               && ports[1..][i].fromPort <= port <= ports[1..][i].toPort;
      assert ports[i + 1] == ports[1..][i];
    }
    if PortListed(ports, proto, port) {
      var i :| 0 <= i < |ports| && ports[i].proto != ICMP && ProtoNumber(ports[i].proto) == Some(proto)
               && ports[i].fromPort <= port <= ports[i].toPort;
      assert i > 0 ==> ports[1..][i - 1] == ports[i];
    }
  }
}
