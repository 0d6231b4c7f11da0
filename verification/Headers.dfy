/**
 Packets as the standards draw them: IP and transport headers printed field by
 field, and what the router decides in terms of those fields.
 */
module Headers {
  import opened Common
  import opened Bits
  import opened Nft
  import opened Groups
  import opened GroupVerdicts
  import opened Router
  import opened HookVerdicts
  import opened SharedMaps
  import IpLists
  import IpOrders

  /** The headers of section 3.1 of RFC 791 and of section 3 of RFC 8200, with whatever follows them. */
  datatype Header =
    | Header4(version: nat, ihl: nat, typeOfService: nat, totalLength: nat,
              identification: nat, flags: nat, fragmentOffset: nat,
              timeToLive: nat, protocol: nat, headerChecksum: nat,
              source: Bits, destination: Bits, options: Bits)
    | Header6(version: nat, trafficClass: nat, flowLabel: nat,
              payloadLength: nat, nextHeader: nat, hopLimit: nat,
              source: Bits, destination: Bits, extensions: Bits)

  function FamilyOf(h: Header): Family {
    if h.Header4? then V4 else V6
  }

  function ProtocolOf(h: Header): nat {
    match h
    case Header4(_, _, _, _, _, _, _, _, protocol, _, _, _, _) => protocol
    case Header6(_, _, _, _, nextHeader, _, _, _, _) => nextHeader
  }

  predicate ValidHeader(h: Header) {
    && ProtocolOf(h) < 256
    && |h.source| == (if h.Header4? then 32 else 128) && |h.destination| == |h.source|
  }

  /** The words of 32 bits before the addresses. */
  function Words(h: Header): seq<Bits> {
    match h
    case Header4(version, ihl, typeOfService, totalLength, identification, flags, fragmentOffset, timeToLive, protocol,
                 headerChecksum, _, _, _) =>
      [Num(version, 4) + Num(ihl, 4) + Num(typeOfService, 8) + Num(totalLength, 16),
       Num(identification, 16) + Num(flags, 3) + Num(fragmentOffset, 13),
       Num(timeToLive, 8) + Num(protocol, 8) + Num(headerChecksum, 16)]
    case Header6(version, trafficClass, flowLabel, payloadLength, nextHeader, hopLimit, _, _, _) =>
      [Num(version, 4) + Num(trafficClass, 8) + Num(flowLabel, 20),
       Num(payloadLength, 16) + Num(nextHeader, 8) + Num(hopLimit, 8)]
  }

  function Join(words: seq<Bits>): Bits {
    if words == [] then [] else words[0] + Join(words[1..])
  }

  function Print(h: Header): Bits {
    Join(Words(h)) + h.source + h.destination + if h.Header4? then h.options else h.extensions
  }

  /** TCP and UDP headers both start with their ports (section 3.1 of RFC 9293, RFC 768). */
  datatype Segment = Ports(sourcePort: nat, destinationPort: nat, rest: Bits) | Portless(bits: Bits)

  predicate ValidSegment(t: Segment) {
    match t
    case Ports(_, destinationPort, _) => destinationPort < 65536
    case Portless(bits) => |bits| < 32
  }

  function PrintSegment(t: Segment): Bits {
    match t
    case Ports(sourcePort, destinationPort, rest) => Num(sourcePort, 16) + Num(destinationPort, 16) + rest
    case Portless(bits) => bits
  }

  datatype Connection = Fresh | Established | Related | Invalid | Untracked

  /** The kernel's bit of a connection state. */
  function StateBit(c: Connection): nat {
    match c
    case Invalid => 1
    case Established => 2
    case Related => 4
    case Fresh => 8
    case Untracked => 64
  }

  /** A packet before it is printed; l4proto is the protocol the kernel found behind all headers. */
  datatype Frame = Frame(header: Header, segment: Segment, iifname: Name, oifname: Name, l4proto: nat,
                         connection: Connection)

  predicate ValidFrame(f: Frame) {
    && ValidHeader(f.header) && ValidSegment(f.segment)
    && |f.iifname| < 16 && |f.oifname| < 16 && f.l4proto < 256
  }

  function PacketOf(f: Frame): Packet {
    Packet(FamilyOf(f.header), Print(f.header), PrintSegment(f.segment), f.iifname, f.oifname, f.l4proto,
           Num(StateBit(f.connection), 32))
  }

  // ----- what the router reads is what was printed

  lemma {:induction false} JoinTwo(a: Bits, b: Bits)
    ensures Join([a, b]) == a + b
  {
    assert [a, b][1..] == [b] && [b][1..] == [];
    assert Join([b]) == b + Join([]);
    ConcatEmpty(b);
  }

  lemma {:induction false} JoinThree(a: Bits, b: Bits, c: Bits)
    ensures Join([a, b, c]) == a + b + c
  {
    assert [a, b, c][1..] == [b, c];
    JoinTwo(b, c);
    ConcatAssoc(a, b, c);
  }

  /** Two addresses after a head. */
  lemma {:induction false} Addresses(head: Bits, a: Bits, b: Bits, rest: Bits)
    ensures var all := head + a + b + rest;
            && all[|head|..|head| + |a|] == a && all[|head| + |a|..|head| + |a| + |b|] == b
            && all[..|head|] == head
  {
  }

  /** A field in the middle of a head. */
  lemma {:induction false} Field(head: Bits, a: Bits, b: Bits, c: Bits, all: Bits)
    requires head == a + b + c && |head| <= |all| && all[..|head|] == head
    ensures all[|a|..|a| + |b|] == b
  {
    assert head[|a|..|a| + |b|] == b;
    assert all[|a|..|a| + |b|] == all[..|head|][|a|..|a| + |b|];
  }

  lemma {:induction false} Reads4(h: Header)
    requires ValidHeader(h) && h.Header4?
    ensures var bits := Print(h);
            && |bits| >= 160 && bits[96..128] == h.source && bits[128..160] == h.destination
            && bits[72..80] == Num(h.protocol, 8)
  {
    var w := Words(h);
    JoinThree(w[0], w[1], w[2]);
    var head := w[0] + w[1] + w[2];
    Addresses(head, h.source, h.destination, h.options);
    var before, after := w[0] + w[1] + Num(h.timeToLive, 8), Num(h.headerChecksum, 16);
    assert head == before + Num(h.protocol, 8) + after;
    Field(head, before, Num(h.protocol, 8), after, Print(h));
  }

  lemma {:induction false} Reads6(h: Header)
    requires ValidHeader(h) && h.Header6?
    ensures var bits := Print(h);
            && |bits| >= 320 && bits[64..192] == h.source && bits[192..320] == h.destination
            && bits[48..56] == Num(h.nextHeader, 8)
  {
    var w := Words(h);
    JoinTwo(w[0], w[1]);
    var head := w[0] + w[1];
    Addresses(head, h.source, h.destination, h.extensions);
    var before, after := w[0] + Num(h.payloadLength, 16), Num(h.hopLimit, 8);
    assert head == before + Num(h.nextHeader, 8) + after;
    Field(head, before, Num(h.nextHeader, 8), after, Print(h));
  }

  lemma {:induction false} ReadsPorts(t: Segment)
    requires ValidSegment(t)
    ensures |PrintSegment(t)| >= 32 <==> t.Ports?
    ensures t.Ports? ==> Value(PrintSegment(t)[16..32]) == t.destinationPort
  {
    if t.Ports? {
      PowSixteen();
      ValueOfNum(t.destinationPort, 16);
      assert PrintSegment(t)[16..32] == Num(t.destinationPort, 16);
    }
  }

  /** The fields the rules read at fixed offsets are the source, the destination, the protocol and the port. */
  lemma {:induction false} FieldsRead(f: Frame)
    requires ValidFrame(f)
    ensures var p := PacketOf(f);
            && ValidPacket(p)
            && SrcAddr(p) == f.header.source && DstAddr(p) == f.header.destination
            && Value(HeaderProto(p)) == ProtocolOf(f.header)
            && (HasPort(p) <==> f.segment.Ports?)
            && (HasPort(p) ==> DestPort(p) == f.segment.destinationPort)
  {
    PowEight();
    ValueOfNum(ProtocolOf(f.header), 8);
    ReadsPorts(f.segment);
    if f.header.Header4? {
      Reads4(f.header);
    } else {
      Reads6(f.header);
    }
  }

  // ----- what a group says of a frame

  /** The address is of the network's family and agrees with it in the network's leading bits. */
  predicate InNetwork(net: Prefix, fam: Family, addr: Bits)
    requires net.Prefix?
  {
    net.fam == fam && net.bits <= |net.addr| == |addr| && forall i | 0 <= i < net.bits :: addr[i] == net.addr[i]
  }

  predicate WantsPort(pg: PortGroup, t: Segment) {
    t.Ports? && pg.fromPort <= t.destinationPort <= pg.toPort
  }

  /** The protocol numbers are those of the Assigned Internet Protocol Numbers registry. */
  predicate Wants(pg: PortGroup, f: Frame) {
    match pg.proto
    case ICMP => f.l4proto == 1
    case TCP => ProtocolOf(f.header) == 6 && WantsPort(pg, f.segment)
    case UDP => ProtocolOf(f.header) == 17 && WantsPort(pg, f.segment)
    case Other(_) => false
  }

  /** What a group says of a frame, apart from the interface the frame came in by. */
  predicate Selects(sg: SecurityGroup, f: Frame) {
    && (sg.src.Prefix? ==> InNetwork(sg.src, FamilyOf(f.header), f.header.source))
    && (sg.dst.Prefix? ==> InNetwork(sg.dst, FamilyOf(f.header), f.header.destination))
    && (sg.oifname == [] || sg.oifname == f.oifname)
    && (sg.ports == [] || exists i | 0 <= i < |sg.ports| :: Wants(sg.ports[i], f))
  }

  lemma {:induction false} ContainsIff(net: Prefix, fam: Family, addr: Bits)
    requires net.Prefix? && ValidPrefix(net) && |addr| == if fam == V4 then 32 else 128
    ensures Contains(net, addr) <==> InNetwork(net, fam, addr)
  {
    if InNetwork(net, fam, addr) {
      assert addr[..net.bits] == net.addr[..net.bits];
    }
    if Contains(net, addr) {
      forall i | 0 <= i < net.bits ensures addr[i] == net.addr[i] {
        assert addr[..net.bits][i] == net.addr[..net.bits][i];
      }
    }
  }

  lemma {:induction false} WantsIff(pg: PortGroup, f: Frame)
    requires ValidFrame(f) && ValidPacket(PacketOf(f))
    ensures PortMatches(pg, PacketOf(f)) <==> Wants(pg, f)
  {
    FieldsRead(f);
  }

  lemma {:induction false} SelectsIff(sg: SecurityGroup, f: Frame)
    requires ValidFrame(f) && ValidGroup(sg) && ValidPacket(PacketOf(f))
    ensures MatchesFrom(sg, PacketOf(f)) <==> Selects(sg, f)
  {
    FieldsRead(f);
    if sg.src.Prefix? {
      ContainsIff(sg.src, FamilyOf(f.header), f.header.source);
    }
    if sg.dst.Prefix? {
      ContainsIff(sg.dst, FamilyOf(f.header), f.header.destination);
    }
    PortsWanted(sg.ports, f);
  }

  lemma {:induction false} PortsWanted(ports: seq<PortGroup>, f: Frame)
    requires ValidFrame(f) && ValidPacket(PacketOf(f))
    ensures PortsMatch(ports, PacketOf(f)) <==> ports == [] || exists i | 0 <= i < |ports| :: Wants(ports[i], f)
  {
    forall i | 0 <= i < |ports| ensures PortMatches(ports[i], PacketOf(f)) <==> Wants(ports[i], f) {
      WantsIff(ports[i], f);
    }
  }

  /** The compiled address tests on a printed frame: whether its source, or its destination, is in the network. */
  lemma {:induction false} AddressTests(net: Prefix, f: Frame, sets: Sets, regs: Bits)
    requires ValidFrame(f) && |regs| == REG_BITS && net.Prefix? && ValidPrefix(net) && net.fam == FamilyOf(f.header)
    ensures ValidPacket(PacketOf(f))
    ensures var p, o := PacketOf(f), IpHeaderOffsets(FamilyOf(f.header));
            && Tests(AddrExprs(p.fam, o.src, net), p, sets, regs, InNetwork(net, p.fam, f.header.source))
            && Tests(AddrExprs(p.fam, o.dst, net), p, sets, regs, InNetwork(net, p.fam, f.header.destination))
  {
    var p, o := PacketOf(f), IpHeaderOffsets(FamilyOf(f.header));
    FieldsRead(f);
    EvalAddr(o.src, net, p, sets, regs);
    EvalAddr(o.dst, net, p, sets, regs);
    ContainsIff(net, p.fam, f.header.source);
    ContainsIff(net, p.fam, f.header.destination);
  }

  /** All the leading conditions of a group on a printed frame. */
  lemma {:induction false} ConditionTests(sg: SecurityGroup, iif: Name, f: Frame, sets: Sets, regs: Bits)
    requires ValidFrame(f) && |regs| == REG_BITS && ValidGroup(sg) && !Mixed(sg) && Applies(sg, FamilyOf(f.header))
    requires |iif| < 16
    ensures ValidPacket(PacketOf(f))
    ensures var fam, h := FamilyOf(f.header), f.header;
            Tests(Conditions(sg, iif, fam), PacketOf(f), sets, regs,
                  && (iif == [] || sg.dst.NoPrefix? || f.iifname == iif)
                  && (sg.src.Prefix? ==> InNetwork(sg.src, fam, h.source))
                  && (sg.oifname == [] || f.oifname == sg.oifname)
                  && (sg.dst.Prefix? ==> InNetwork(sg.dst, fam, h.destination)))
  {
    FieldsRead(f);
    TestsConditions(sg, iif, PacketOf(f), sets, regs);
    if sg.src.Prefix? {
      ContainsIff(sg.src, FamilyOf(f.header), f.header.source);
    }
    if sg.dst.Prefix? {
      ContainsIff(sg.dst, FamilyOf(f.header), f.header.destination);
    }
  }

  /** The rules of a group on a printed frame: the group's verdict exactly if it selects the frame. */
  lemma {:induction false} GroupDecides(sg: SecurityGroup, iif: Name, f: Frame, sets: Sets)
    requires ValidFrame(f) && ValidGroup(sg) && !Mixed(sg) && |iif| < 16
    requires var name := PortMap(Signature(sg, iif));
             NeedsMap(sg.ports) && Applies(sg, FamilyOf(f.header)) ==>
               name in sets.vmaps && sets.vmaps[name] == OwnMap(sg)
    ensures ValidPacket(PacketOf(f))
    ensures EvalChain(GroupRules(sg, iif, FamilyOf(f.header)), PacketOf(f), sets)
         == if (iif == [] || sg.dst.NoPrefix? || f.iifname == iif) && Selects(sg, f)
            then Some(if sg.deny then Drop else Accept) else None
  {
    FieldsRead(f);
    SelectsIff(sg, f);
    GroupVerdict(sg, iif, PacketOf(f), sets);
  }

  // ----- what the router says of a frame

  /** The verdict of the first group of a hook that selects a frame: a forwarded one, or one for the router itself. */
  function FirstSelecting(sgs: seq<SecurityGroup>, iif: Name, f: Frame, forward: bool): Option<Verdict>
    decreases |sgs|
  {
    if sgs == [] then None
    else if sgs[0].dst.Prefix? == forward && (iif == [] || f.iifname == iif) && Selects(sgs[0], f) then
      Some(if sgs[0].deny then Drop else Accept)
    else FirstSelecting(sgs[1..], iif, f, forward)
  }

  function StateVerdict(c: Connection): Option<Verdict> {
    match c
    case Invalid => Some(Drop)
    case Established => Some(Accept)
    case Related => Some(Accept)
    case Fresh => None
    case Untracked => None
  }

  lemma {:induction false} SelectingIsMatching(sgs: seq<SecurityGroup>, iif: Name, f: Frame, forward: bool)
    requires ValidFrame(f) && ValidPacket(PacketOf(f)) && forall i | 0 <= i < |sgs| :: ValidGroup(sgs[i])
    ensures FirstMatching(sgs, iif, PacketOf(f), forward) == FirstSelecting(sgs, iif, f, forward)
    decreases |sgs|
  {
    if sgs != [] {
      SelectsIff(sgs[0], f);
      SelectingIsMatching(sgs[1..], iif, f, forward);
    }
  }

  lemma {:induction false} StateIs(c: Connection, f: Frame)
    requires f.connection == c
    ensures CtVerdict(PacketOf(f)) == StateVerdict(c)
  {
    BitIff(StateBit(c), 1);
    BitIff(StateBit(c), 2);
    BitIff(StateBit(c), 4);
  }

  lemma {:induction false} BitIff(v: nat, w: nat)
    requires v <= 64 && w <= 64
    ensures Num(v, 32) == Num(w, 32) <==> v == w
  {
    PowAtLeast();
    ValueOfNum(v, 32);
    ValueOfNum(w, 32);
  }

  lemma {:induction false} PowAtLeast()
    ensures Pow2(32) > 64
  {
    PowSixteen();
    PowGrows(16, 32);
  }

  lemma {:induction false} PowGrows(m: nat, n: nat)
    requires m <= n
    ensures Pow2(m) <= Pow2(n)
    decreases n
  {
    if m < n {
      PowGrows(m, n - 1);
    }
  }

  lemma {:induction false} DistinctCompatible(sgs: seq<SecurityGroup>, iif: Name)
    requires DistinctMaps(sgs, iif) && (iif == LO ==> forall i | 0 <= i < |sgs| :: sgs[i].dst.Prefix?)
    ensures Compatible(sgs, iif)
  {
    forall i, k | 0 <= i < k < |sgs| ensures !Conflict(sgs[i], sgs[k], iif) {
      if Conflict(sgs[i], sgs[k], iif) {
        assert NeedsMap(sgs[i].ports) && NeedsMap(sgs[k].ports);
      }
    }
  }

  /**
   Groups that share no port map, configured on a new router: a forwarded frame gets
   the verdict of the first group with a destination network that selects it, and
   otherwise that of its connection.
   */
  lemma {:induction false} ForwardedFrame(sgs: seq<SecurityGroup>, iif: Name, f: Frame)
    requires ValidFrame(f) && |iif| < 16 && forall i | 0 <= i < |sgs| :: ValidGroup(sgs[i])
    requires DistinctMaps(sgs, iif) && (iif == LO ==> forall i | 0 <= i < |sgs| :: sgs[i].dst.Prefix?)
    ensures ValidPacket(PacketOf(f))
    ensures ForwardVerdict(SetSecurityGroups(NewRouter(), sgs, iif).router, PacketOf(f))
         == First(FirstSelecting(sgs, iif, f, true), StateVerdict(f.connection))
  {
    FieldsRead(f);
    DistinctCompatible(sgs, iif);
    RefusedFromClash(sgs, iif);
    ForwardFirstMatch(sgs, iif, PacketOf(f));
    DistinctNeverLeak(sgs, 0, iif, PacketOf(f), true);
    assert sgs[0..] == sgs;
    SelectingIsMatching(sgs, iif, f, true);
    StateIs(f.connection, f);
  }

  /** A frame for the router itself: its connection, then loopback, then the groups without a destination network. */
  lemma {:induction false} OwnFrame(sgs: seq<SecurityGroup>, iif: Name, f: Frame)
    requires ValidFrame(f) && |iif| < 16 && forall i | 0 <= i < |sgs| :: ValidGroup(sgs[i])
    requires DistinctMaps(sgs, iif) && (iif == LO ==> forall i | 0 <= i < |sgs| :: sgs[i].dst.Prefix?)
    ensures ValidPacket(PacketOf(f))
    ensures InputVerdict(SetSecurityGroups(NewRouter(), sgs, iif).router, PacketOf(f))
         == First(StateVerdict(f.connection),
                  if f.iifname == LO then Some(Accept) else FirstSelecting(sgs, iif, f, false))
  {
    FieldsRead(f);
    DistinctCompatible(sgs, iif);
    RefusedFromClash(sgs, iif);
    InputFirstMatch(sgs, iif, PacketOf(f));
    DistinctNeverLeak(sgs, 0, iif, PacketOf(f), false);
    assert sgs[0..] == sgs;
    SelectingIsMatching(sgs, iif, f, false);
    StateIs(f.connection, f);
  }

  // ----- the address lists

  /** After any commands, a frame that did not come by loopback is dropped exactly by its source address. */
  lemma {:induction false} ListedFrame(commands: seq<IpLists.Command>, f: Frame)
    requires forall c | c in commands :: IpLists.Proper(c, IpLists.BaseSpecs())
    requires ValidFrame(f) && f.iifname != LO
    ensures ValidPacket(PacketOf(f))
    ensures var st := IpLists.Execute(IpLists.State(NewRouter().store, map[], []), commands);
            var sets, fam, source := IpLists.Current(st), FamilyOf(f.header), f.header.source;
            IpLists.PreroutingVerdict(st, PacketOf(f))
            == if source in IpLists.Get(sets, IpLists.Deny, fam)
                  || (source !in IpLists.Get(sets, IpLists.Allow, fam)
                      && (IpLists.Get(sets, IpLists.Allow, V4) != {} || IpLists.Get(sets, IpLists.Allow, V6) != {}))
               then Some(Drop) else None
  {
    FieldsRead(f);
    IpLists.ListsDecide(commands, PacketOf(f));
  }

  /** Some command adds the address to the list. */
  ghost predicate Adds(commands: seq<IpLists.Command>, w: IpLists.Which, addr: IpLists.Addr) {
    exists i | 0 <= i < |commands| :: commands[i].Add? && commands[i].w == w && addr in commands[i].ips
  }

  lemma {:induction false} AddsHold(st: IpLists.State, commands: seq<IpLists.Command>, w: IpLists.Which,
                                    addr: IpLists.Addr)
    requires forall c | c in commands :: !c.Del?
    ensures addr.bits in IpLists.Get(IpLists.Current(IpLists.Execute(st, commands)), w, addr.fam)
       <==> addr.bits in IpLists.Get(IpLists.Current(st), w, addr.fam) || Adds(commands, w, addr)
    decreases |commands|
  {
    if commands != [] {
      var c := commands[0];
      AddsHold(IpLists.Execute1(st, c), commands[1..], w, addr);
      IpLists.CurrentAfter(st, c, w, addr.fam);
      assert c.Add? && addr.bits in IpLists.Elems(c.ips, addr.fam) ==> addr in c.ips by {
        if c.Add? && addr.bits in IpLists.Elems(c.ips, addr.fam) {
          var a :| a in c.ips && a.fam == addr.fam && a.bits == addr.bits;
          assert a == addr;
        }
      }
      AddsStep(commands, w, addr);
    }
  }

  lemma {:induction false} AddsStep(commands: seq<IpLists.Command>, w: IpLists.Which, addr: IpLists.Addr)
    requires commands != []
    ensures var c := commands[0];
            Adds(commands, w, addr) <==> (c.Add? && c.w == w && addr in c.ips) || Adds(commands[1..], w, addr)
  {
    var rest := commands[1..];
    if i :| 0 <= i < |rest| && rest[i].Add? && rest[i].w == w && addr in rest[i].ips {
      assert commands[i + 1] == rest[i];
    }
    if i :| 0 < i < |commands| && commands[i].Add? && commands[i].w == w && addr in commands[i].ips {
      assert rest[i - 1] == commands[i];
    }
  }

  /**
   Where nothing is deleted: a frame that did not come by loopback is dropped exactly
   if its source was added to the deny list, or if something was added to the allow
   list and its source was not.
   */
  lemma {:induction false} AddedFrame(commands: seq<IpLists.Command>, f: Frame)
    requires forall c | c in commands :: IpLists.Proper(c, IpLists.BaseSpecs()) && !c.Del?
    requires ValidFrame(f) && f.iifname != LO
    ensures ValidPacket(PacketOf(f))
    ensures var source := IpLists.Addr(FamilyOf(f.header), f.header.source);
            var st := IpLists.Execute(IpLists.State(NewRouter().store, map[], []), commands);
            IpLists.PreroutingVerdict(st, PacketOf(f))
            == if Adds(commands, IpLists.Deny, source)
                  || (!Adds(commands, IpLists.Allow, source) && exists a :: Adds(commands, IpLists.Allow, a))
               then Some(Drop) else None
  {
    var start := IpLists.State(NewRouter().store, map[], []);
    var sets := IpLists.Current(IpLists.Execute(start, commands));
    ListedFrame(commands, f);
    assert IpLists.Current(start) == map[];
    forall a: IpLists.Addr, w: IpLists.Which ensures a.bits in IpLists.Get(sets, w, a.fam) <==> Adds(commands, w, a) {
      AddsHold(start, commands, w, a);
    }
    SomeAdded(sets, commands);
  }

  lemma {:induction false} SomeAdded(sets: IpLists.Members, commands: seq<IpLists.Command>)
    requires forall a: IpLists.Addr ::
               a.bits in IpLists.Get(sets, IpLists.Allow, a.fam) <==> Adds(commands, IpLists.Allow, a)
    ensures (exists a :: Adds(commands, IpLists.Allow, a))
       <==> IpLists.Get(sets, IpLists.Allow, V4) != {} || IpLists.Get(sets, IpLists.Allow, V6) != {}
  {
    if a :| Adds(commands, IpLists.Allow, a) {
      assert a.fam == V4 || a.fam == V6;
      assert a.bits in IpLists.Get(sets, IpLists.Allow, a.fam);
    }
    if b :| b in IpLists.Get(sets, IpLists.Allow, V4) {
      assert IpLists.Addr(V4, b).bits == b;
      assert Adds(commands, IpLists.Allow, IpLists.Addr(V4, b));
    }
    if b :| b in IpLists.Get(sets, IpLists.Allow, V6) {
      assert IpLists.Addr(V6, b).bits == b;
      assert Adds(commands, IpLists.Allow, IpLists.Addr(V6, b));
    }
  }

  /** One that came by loopback is decided by its source address and the order in which the lists came into force. */
  lemma {:induction false} LoopbackFrame(commands: seq<IpLists.Command>, f: Frame)
    requires forall c | c in commands :: IpLists.Proper(c, IpLists.BaseSpecs())
    requires ValidFrame(f) && f.iifname == LO
    ensures ValidPacket(PacketOf(f))
    ensures var start := IpLists.State(NewRouter().store, map[], []);
            var st := IpLists.Execute(start, commands);
            IpLists.PreroutingVerdict(st, PacketOf(f))
            == IpOrders.LoopbackVerdict(
                 IpOrders.OrderAfter(start, IpOrders.Nobody, commands),
                 f.header.source in IpLists.Get(IpLists.Current(st), IpLists.Deny, FamilyOf(f.header)))
  {
    FieldsRead(f);
    IpOrders.LoopbackDecides(commands, PacketOf(f));
  }
}
