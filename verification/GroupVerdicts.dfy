/** Evaluating a compiled group on a packet gives the group's verdict exactly when the group matches. */
module GroupVerdicts {
  import opened Common
  import opened Bits
  import opened Nft
  import opened Groups

  lemma {:induction false} EvalIcmp(v: Verdict, p: Packet, sets: Sets, regs: Bits)
    requires ValidPacket(p) && |regs| == REG_BITS
    ensures EvalAll(IcmpExprs(v), p, sets, regs) == if p.l4proto == IPPROTO_ICMP then Hit(v) else Break
  {
    var es := IcmpExprs(v);
    var have := Num(p.l4proto, 8);
    var r1 := PutReg(regs, 1, have);
    LoadPut(regs, 1, have);
    assert Eval(es[0], p, sets, regs) == Continue(r1);
    ByteIff(p.l4proto, IPPROTO_ICMP);
    assert es[1..] == [es[1], es[2]];
    assert es[1..][1..] == [es[2]];
    if p.l4proto == IPPROTO_ICMP {
      assert Eval(es[1], p, sets, r1) == Continue(r1);
      EvalTwo(es[1], es[2], p, sets, r1);
    } else {
      assert Eval(es[1], p, sets, r1) == Break;
    }
  }

  /** Words stored in adjacent registers are read back as one key. */
  lemma {:induction false} LoadBoth(regs: Bits, a: Bits, b: Bits)
    requires |regs| == REG_BITS && |a| == 8 && |b| == 16
    ensures Load(PutReg(PutReg(regs, 9, a), 10, b), 9, 64) == KeyOf(a, b)
  {
    var r1 := PutReg(regs, 9, a);
    var r2 := PutReg(r1, 10, b);
    assert r2[..64] == r1[..64];
    assert r1[32..64] == a + Zeros(24);
    assert r2[64..96] == b + Zeros(16);
    assert r2[32..96] == r2[32..64] + r2[64..96];
    assert r2[32..64] == r2[..64][32..];
    assert a + Zeros(24) + (b + Zeros(16)) == KeyOf(a, b);
  }

  predicate InPortMap(m: map<Bits, Verdict>, p: Packet)
    requires ValidPacket(p)
  {
    HasPort(p) && KeyOf(HeaderProto(p), p.transport[16..32]) in m
  }

  lemma {:induction false} EvalPort(name: SetName, p: Packet, sets: Sets, regs: Bits)
    requires ValidPacket(p) && |regs| == REG_BITS && name.PortMap? && name in sets.vmaps
    ensures EvalAll(PortExprs(p.fam, name), p, sets, regs)
         == if InPortMap(sets.vmaps[name], p) then Hit(sets.vmaps[name][KeyOf(HeaderProto(p), p.transport[16..32])])
            else Break
  {
    var es := PortExprs(p.fam, name);
    var a := HeaderProto(p);
    var r1 := PutReg(regs, 9, a);
    assert Eval(es[0], p, sets, regs) == Continue(r1);
    assert es[1..] == [es[1], es[2]];
    if HasPort(p) {
      var b := p.transport[16..32];
      var r2 := PutReg(r1, 10, b);
      assert Eval(es[1], p, sets, r1) == Continue(r2);
      EvalThree(es[0], es[1], es[2], p, sets, regs);
      LoadBoth(regs, a, b);
    } else {
      assert Eval(es[1], p, sets, r1) == Break;
    }
  }

  // ----- the conditions

  predicate ConditionsHold(sg: SecurityGroup, iif: Name, p: Packet)
    requires ValidPacket(p)
  {
    && (iif != [] && sg.dst.Prefix? ==> p.iifname == iif)
    && (sg.src.Prefix? ==> Contains(sg.src, SrcAddr(p)))
    && (sg.oifname != [] ==> p.oifname == sg.oifname)
    && (sg.dst.Prefix? ==> Contains(sg.dst, DstAddr(p)))
  }

  /** From the given registers the expressions go on exactly when b, and otherwise break off the rule. */
  predicate Tests(es: seq<Expr>, p: Packet, sets: Sets, regs: Bits, b: bool)
    requires ValidPacket(p) && |regs| == REG_BITS
  {
    var s := EvalAll(es, p, sets, regs);
    if b then s.Continue? else s == Break
  }

  lemma {:induction false} TestsConcat(a: seq<Expr>, b: seq<Expr>, p: Packet, sets: Sets, regs: Bits, x: bool, y: bool)
    requires ValidPacket(p) && |regs| == REG_BITS && Tests(a, p, sets, regs, x)
    requires x ==> Tests(b, p, sets, EvalAll(a, p, sets, regs).regs, y)
    ensures Tests(a + b, p, sets, regs, x && y)
  {
    EvalConcat(a, b, p, sets, regs);
  }

  function IfBlock(present: bool, key: MetaKey, ifname: Name): seq<Expr> {
    if present then IfExprs(key, ifname) else []
  }

  function AddrBlock(fam: Family, offset: nat, net: Prefix): seq<Expr> {
    if net.Prefix? then AddrExprs(fam, offset, net) else []
  }

  lemma {:induction false} TestsIfBlock(present: bool, key: MetaKey, ifname: Name, p: Packet, sets: Sets, regs: Bits)
    requires ValidPacket(p) && |regs| == REG_BITS && key != L4Proto && |ifname| < 16
    ensures Tests(IfBlock(present, key, ifname), p, sets, regs, present ==> IfNameOf(key, p) == ifname)
  {
    EvalIf(key, ifname, p, sets, regs);
  }

  lemma {:induction false} TestsAddrBlock(offset: nat, net: Prefix, p: Packet, sets: Sets, regs: Bits)
    requires ValidPacket(p) && |regs| == REG_BITS && ValidPrefix(net) && (net.Prefix? ==> net.fam == p.fam)
    requires 8 * (offset + IpHeaderOffsets(p.fam).addrLen) <= |p.network|
    ensures Tests(AddrBlock(p.fam, offset, net), p, sets, regs,
                  net.Prefix? ==> Contains(net, p.network[8 * offset..8 * (offset + IpHeaderOffsets(p.fam).addrLen)]))
  {
    if net.Prefix? {
      EvalAddr(offset, net, p, sets, regs);
    }
  }

  lemma {:induction false} TestsSource(sg: SecurityGroup, iif: Name, p: Packet, sets: Sets, regs: Bits)
    requires ValidPacket(p) && |regs| == REG_BITS && ValidGroup(sg) && !Mixed(sg) && Applies(sg, p.fam) && |iif| < 16
    ensures var present := iif != [] && sg.dst.Prefix?;
            Tests(IfBlock(present, IifName, iif) + AddrBlock(p.fam, IpHeaderOffsets(p.fam).src, sg.src), p, sets, regs,
                  (present ==> p.iifname == iif) && (sg.src.Prefix? ==> Contains(sg.src, SrcAddr(p))))
  {
    var present := iif != [] && sg.dst.Prefix?;
    var o := IpHeaderOffsets(p.fam);
    var a, b := IfBlock(present, IifName, iif), AddrBlock(p.fam, o.src, sg.src);
    var x := present ==> p.iifname == iif;
    TestsIfBlock(present, IifName, iif, p, sets, regs);
    if x {
      TestsAddrBlock(o.src, sg.src, p, sets, EvalAll(a, p, sets, regs).regs);
    }
    TestsConcat(a, b, p, sets, regs, x, sg.src.Prefix? ==> Contains(sg.src, SrcAddr(p)));
  }

  lemma {:induction false} TestsDestination(sg: SecurityGroup, p: Packet, sets: Sets, regs: Bits)
    requires ValidPacket(p) && |regs| == REG_BITS && ValidGroup(sg) && !Mixed(sg) && Applies(sg, p.fam)
    ensures Tests(IfBlock(sg.oifname != [], OifName, sg.oifname)
                  + AddrBlock(p.fam, IpHeaderOffsets(p.fam).dst, sg.dst), p, sets, regs,
                  (sg.oifname != [] ==> p.oifname == sg.oifname) && (sg.dst.Prefix? ==> Contains(sg.dst, DstAddr(p))))
  {
    var o := IpHeaderOffsets(p.fam);
    var a, b := IfBlock(sg.oifname != [], OifName, sg.oifname), AddrBlock(p.fam, o.dst, sg.dst);
    var x := sg.oifname != [] ==> p.oifname == sg.oifname;
    TestsIfBlock(sg.oifname != [], OifName, sg.oifname, p, sets, regs);
    if x {
      TestsAddrBlock(o.dst, sg.dst, p, sets, EvalAll(a, p, sets, regs).regs);
    }
    TestsConcat(a, b, p, sets, regs, x, sg.dst.Prefix? ==> Contains(sg.dst, DstAddr(p)));
  }

  lemma {:induction false} ConditionBlocks(sg: SecurityGroup, iif: Name, fam: Family)
    ensures var o := IpHeaderOffsets(fam);
            Conditions(sg, iif, fam)
            == (IfBlock(iif != [] && sg.dst.Prefix?, IifName, iif) + AddrBlock(fam, o.src, sg.src))
             + (IfBlock(sg.oifname != [], OifName, sg.oifname) + AddrBlock(fam, o.dst, sg.dst))
  {
  }

  /** The conditions go on exactly when they hold. */
  lemma {:induction false} TestsConditions(sg: SecurityGroup, iif: Name, p: Packet, sets: Sets, regs: Bits)
    requires ValidPacket(p) && |regs| == REG_BITS && ValidGroup(sg) && !Mixed(sg) && Applies(sg, p.fam) && |iif| < 16
    ensures Tests(Conditions(sg, iif, p.fam), p, sets, regs, ConditionsHold(sg, iif, p))
  {
    var o := IpHeaderOffsets(p.fam);
    var present := iif != [] && sg.dst.Prefix?;
    var a := IfBlock(present, IifName, iif) + AddrBlock(p.fam, o.src, sg.src);
    var b := IfBlock(sg.oifname != [], OifName, sg.oifname) + AddrBlock(p.fam, o.dst, sg.dst);
    var x := (present ==> p.iifname == iif) && (sg.src.Prefix? ==> Contains(sg.src, SrcAddr(p)));
    var y := (sg.oifname != [] ==> p.oifname == sg.oifname) && (sg.dst.Prefix? ==> Contains(sg.dst, DstAddr(p)));
    TestsSource(sg, iif, p, sets, regs);
    if x {
      TestsDestination(sg, p, sets, EvalAll(a, p, sets, regs).regs);
    }
    TestsConcat(a, b, p, sets, regs, x, y);
    ConditionBlocks(sg, iif, p.fam);
    assert ConditionsHold(sg, iif, p) == (x && y);
  }

  // ----- whole rules

  lemma {:induction false} RuleAfter(pre: seq<Expr>, tail: seq<Expr>, p: Packet, sets: Sets, holds: bool, hit: Step)
    requires ValidPacket(p) && Tests(pre, p, sets, Zeros(REG_BITS), holds)
    requires hit == Break || hit.Hit?
    requires forall regs: Bits | |regs| == REG_BITS :: EvalAll(tail, p, sets, regs) == hit
    ensures EvalRule(pre + tail, p, sets) == if holds && hit.Hit? then Some(hit.v) else None
  {
    EvalConcat(pre, tail, p, sets, Zeros(REG_BITS));
  }

  lemma {:induction false} IcmpRule(pre: seq<Expr>, v: Verdict, p: Packet, sets: Sets, holds: bool)
    requires ValidPacket(p) && Tests(pre, p, sets, Zeros(REG_BITS), holds)
    ensures EvalRule(pre + IcmpExprs(v), p, sets) == if holds && p.l4proto == IPPROTO_ICMP then Some(v) else None
  {
    var hit := if p.l4proto == IPPROTO_ICMP then Hit(v) else Break;
    forall regs: Bits | |regs| == REG_BITS ensures EvalAll(IcmpExprs(v), p, sets, regs) == hit {
      EvalIcmp(v, p, sets, regs);
    }
    RuleAfter(pre, IcmpExprs(v), p, sets, holds, hit);
  }

  /** What a port map says of a packet. */
  function MapSays(m: map<Bits, Verdict>, p: Packet): Option<Verdict>
    requires ValidPacket(p)
  {
    if InPortMap(m, p) then Some(m[KeyOf(HeaderProto(p), p.transport[16..32])]) else None
  }

  lemma {:induction false} PortRule(pre: seq<Expr>, name: SetName, p: Packet, sets: Sets, holds: bool)
    requires ValidPacket(p) && Tests(pre, p, sets, Zeros(REG_BITS), holds)
    requires name.PortMap? && name in sets.vmaps
    ensures EvalRule(pre + PortExprs(p.fam, name), p, sets) == if holds then MapSays(sets.vmaps[name], p) else None
  {
    var said := MapSays(sets.vmaps[name], p);
    var hit := if said.Some? then Hit(said.value) else Break;
    forall regs: Bits | |regs| == REG_BITS ensures EvalAll(PortExprs(p.fam, name), p, sets, regs) == hit {
      EvalPort(name, p, sets, regs);
    }
    RuleAfter(pre, PortExprs(p.fam, name), p, sets, holds, hit);
  }

  predicate HasIcmp(ports: seq<PortGroup>) {
    exists i | 0 <= i < |ports| :: ports[i].proto == ICMP
  }

  lemma {:induction false} HeadOf(ports: seq<PortGroup>)
    requires ports != []
    ensures HasIcmp(ports) <==> ports[0].proto == ICMP || HasIcmp(ports[1..])
    ensures NeedsMap(ports) <==> ports[0].proto != ICMP || NeedsMap(ports[1..])
  {
    if HasIcmp(ports[1..]) {
      var i :| 0 <= i < |ports[1..]| && ports[1..][i].proto == ICMP;
      assert ports[i + 1].proto == ICMP;
    }
    if NeedsMap(ports[1..]) {
      var i :| 0 <= i < |ports[1..]| && ports[1..][i].proto != ICMP;
      assert ports[i + 1].proto != ICMP;
    }
    assert forall i | 0 < i < |ports| :: ports[i] == ports[1..][i - 1];
  }

  lemma {:induction false} OneRule(rule: seq<Expr>, rest: seq<seq<Expr>>, p: Packet, sets: Sets)
    requires ValidPacket(p)
    ensures EvalChain([rule] + rest, p, sets)
         == (if EvalRule(rule, p, sets).Some? then EvalRule(rule, p, sets) else EvalChain(rest, p, sets))
  {
    assert ([rule] + rest)[1..] == rest;
  }

  /** The verdict of the ICMP rule and that of the port map, in the order of the port groups they were made for. */
  function PortsSay(ports: seq<PortGroup>, icmp: Option<Verdict>, mapped: Option<Verdict>): Option<Verdict> {
    if ports == [] then None
    else
      var a := if HasIcmp(ports) then icmp else None;
      var b := if NeedsMap(ports) then mapped else None;
      if ports[0].proto == ICMP then First(a, b) else First(b, a)
  }

  function First(a: Option<Verdict>, b: Option<Verdict>): Option<Verdict> {
    if a.Some? then a else b
  }

  function IcmpSays(v: Verdict, p: Packet): Option<Verdict> {
    if p.l4proto == IPPROTO_ICMP then Some(v) else None
  }

  /** The rules for the port groups, with the two run-once guards in any state and any port map. */
  lemma {:induction false} EvalPortRules(ports: seq<PortGroup>, pre: seq<Expr>, name: SetName, v: Verdict,
                                         icmpDone: bool, mapDone: bool, p: Packet, sets: Sets, holds: bool)
    requires ValidPacket(p) && Tests(pre, p, sets, Zeros(REG_BITS), holds)
    requires name.PortMap? && (NeedsMap(ports) && !mapDone ==> name in sets.vmaps)
    ensures EvalChain(PortRules(ports, pre, p.fam, name, v, icmpDone, mapDone), p, sets)
         == PortsSay(ports, if holds && !icmpDone then IcmpSays(v, p) else None,
                     if holds && !mapDone && name in sets.vmaps then MapSays(sets.vmaps[name], p) else None)
    decreases |ports|
  {
    if ports != [] {
      HeadOf(ports);
      if ports[0].proto == ICMP {
        EvalPortRules(ports[1..], pre, name, v, true, mapDone, p, sets, holds);
        var rest := PortRules(ports[1..], pre, p.fam, name, v, true, mapDone);
        IcmpRule(pre, v, p, sets, holds);
        OneRule(pre + IcmpExprs(v), rest, p, sets);
        EmptyConcat(rest);
      } else {
        EvalPortRules(ports[1..], pre, name, v, icmpDone, true, p, sets, holds);
        var rest := PortRules(ports[1..], pre, p.fam, name, v, icmpDone, true);
        if !mapDone {
          PortRule(pre, name, p, sets, holds);
        }
        OneRule(pre + PortExprs(p.fam, name), rest, p, sets);
        EmptyConcat(rest);
      }
    }
  }

  /** The port map of a group, built on an empty map. */
  function OwnMap(sg: SecurityGroup): map<Bits, Verdict> {
    AddPorts(map[], sg.ports, VerdictOf(sg))
  }

  /** A map to which a group has added its ports says its verdict of the ports it lists, and else what it said. */
  lemma {:induction false} AddedSays(m: map<Bits, Verdict>, sg: SecurityGroup, p: Packet)
    requires ValidPacket(p) && ValidGroup(sg)
    ensures MapSays(AddPorts(m, sg.ports, VerdictOf(sg)), p)
         == if Lists(sg, p) then Some(VerdictOf(sg)) else MapSays(m, p)
  {
    if HasPort(p) {
      var a, b := HeaderProto(p), p.transport[16..32];
      PortKeyOf(a, b);
      PortEntries(m, sg.ports, VerdictOf(sg), Value(a), Value(b));
    }
  }

  /** The group lists the packet's protocol and destination port. */
  predicate Lists(sg: SecurityGroup, p: Packet)
    requires ValidPacket(p)
  {
    HasPort(p) && PortListed(sg.ports, Value(HeaderProto(p)), DestPort(p))
  }

  lemma {:induction false} PortKeyOf(a: Bits, b: Bits)
    requires |a| == 8 && |b| == 16
    ensures Value(a) < 256 && Value(b) < 65536 && PortKey(Value(a), Value(b)) == KeyOf(a, b)
  {
    ValueBound(a);
    ValueBound(b);
    PowSixteen();
    PowEight();
    NumOfValue(a);
    NumOfValue(b);
    PortKeyIs(Value(a), Value(b), a, b);
  }

  lemma {:induction false} PortKeyIs(proto: nat, port: nat, a: Bits, b: Bits)
    requires port < 65536 && Num(proto, 8) == a && Num(port, 16) == b
    ensures PortKey(proto, port) == KeyOf(a, b)
  {
    assert port % 65536 == port;
  }

  lemma {:induction false} PowEight()
    ensures Pow2(8) == 256
  {
    assert Pow2(4) == 16;
  }

  lemma {:induction false} ValueBound(b: Bits)
    ensures Value(b) < Pow2(|b|)
    decreases |b|
  {
    if b != [] {
      ValueBound(b[..|b| - 1]);
    }
  }

  lemma {:induction false} ListsNeedsMap(sg: SecurityGroup, p: Packet)
    requires ValidPacket(p) && Lists(sg, p)
    ensures NeedsMap(sg.ports)
  {
  }

  lemma {:induction false} PortsMatchParts(sg: SecurityGroup, p: Packet)
    requires ValidPacket(p) && ValidGroup(sg) && sg.ports != []
    ensures PortsMatch(sg.ports, p) <==> (HasIcmp(sg.ports) && p.l4proto == IPPROTO_ICMP) || Lists(sg, p)
  {
    var ports := sg.ports;
    if PortsMatch(ports, p) {
      var i :| 0 <= i < |ports| && PortMatches(ports[i], p);
      assert ports[i].proto == ICMP ==> HasIcmp(ports);
      assert ports[i].proto != ICMP ==> Lists(sg, p);
    }
    if HasIcmp(ports) && p.l4proto == IPPROTO_ICMP {
      var i :| 0 <= i < |ports| && ports[i].proto == ICMP;
      assert PortMatches(ports[i], p);
    }
    if Lists(sg, p) {
      var proto, port := Value(HeaderProto(p)), DestPort(p);
      var i :| 0 <= i < |ports| && ports[i].proto != ICMP && ProtoNumber(ports[i].proto) == Some(proto)
               && ports[i].fromPort <= port <= ports[i].toPort;
      assert PortMatches(ports[i], p);
    }
  }

  /** The part of a group that its rules test: rules in a chain of the interface do not test the interface again. */
  predicate RulesMatch(sg: SecurityGroup, iif: Name, p: Packet)
    requires ValidPacket(p)
  {
    (iif != [] && sg.dst.Prefix? ==> p.iifname == iif) && MatchesFrom(sg, p)
  }

  lemma {:induction false} OtherFamily(sg: SecurityGroup, p: Packet)
    requires ValidPacket(p) && ValidGroup(sg) && !Mixed(sg) && !Applies(sg, p.fam)
    ensures !MatchesFrom(sg, p)
  {
  }

  /** What a group says of a packet of which its port map says mapped. */
  function GroupSays(sg: SecurityGroup, iif: Name, p: Packet, mapped: Option<Verdict>): Option<Verdict>
    requires ValidPacket(p)
  {
    if !Applies(sg, p.fam) || !ConditionsHold(sg, iif, p) then None
    else if sg.ports == [] then Some(VerdictOf(sg))
    else PortsSay(sg.ports, IcmpSays(VerdictOf(sg), p), mapped)
  }

  /** The rules of a group, with whatever its port map holds: its conditions, then the ICMP rule and the port map. */
  lemma {:induction false} GroupEvaluates(sg: SecurityGroup, iif: Name, p: Packet, sets: Sets, m: map<Bits, Verdict>)
    requires ValidPacket(p) && ValidGroup(sg) && !Mixed(sg) && |iif| < 16
    requires var name := PortMap(Signature(sg, iif));
             NeedsMap(sg.ports) && Applies(sg, p.fam) ==> name in sets.vmaps && sets.vmaps[name] == m
    ensures EvalChain(GroupRules(sg, iif, p.fam), p, sets) == GroupSays(sg, iif, p, MapSays(m, p))
  {
    if Applies(sg, p.fam) {
      var pre, v, holds := Conditions(sg, iif, p.fam), VerdictOf(sg), ConditionsHold(sg, iif, p);
      TestsConditions(sg, iif, p, sets, Zeros(REG_BITS));
      if sg.ports == [] {
        GiveRule(pre, v, p, sets, holds);
        OneRule(pre + [Give(v)], [], p, sets);
        assert [pre + [Give(v)]] + [] == [pre + [Give(v)]];
      } else {
        EvalPortRules(sg.ports, pre, PortMap(Signature(sg, iif)), v, false, false, p, sets, holds);
      }
    }
  }

  /** With only its own ports in its map a group says its verdict exactly of the packets it matches. */
  lemma {:induction false} OwnSays(sg: SecurityGroup, iif: Name, p: Packet)
    requires ValidPacket(p) && ValidGroup(sg) && !Mixed(sg)
    ensures GroupSays(sg, iif, p, if Lists(sg, p) then Some(VerdictOf(sg)) else None)
         == if RulesMatch(sg, iif, p) then Some(VerdictOf(sg)) else None
  {
    if !Applies(sg, p.fam) {
      OtherFamily(sg, p);
    } else if sg.ports != [] {
      PortsMatchParts(sg, p);
      if Lists(sg, p) {
        ListsNeedsMap(sg, p);
      }
    }
  }

  /** The rules of a group give its verdict exactly on the packets it matches, and otherwise none. */
  lemma {:induction false} GroupVerdict(sg: SecurityGroup, iif: Name, p: Packet, sets: Sets)
    requires ValidPacket(p) && ValidGroup(sg) && !Mixed(sg) && |iif| < 16
    requires var name := PortMap(Signature(sg, iif));
             NeedsMap(sg.ports) && Applies(sg, p.fam) ==> name in sets.vmaps && sets.vmaps[name] == OwnMap(sg)
    ensures EvalChain(GroupRules(sg, iif, p.fam), p, sets)
         == if RulesMatch(sg, iif, p) then Some(VerdictOf(sg)) else None
  {
    GroupEvaluates(sg, iif, p, sets, OwnMap(sg));
    AddedSays(map[], sg, p);
    OwnSays(sg, iif, p);
  }

  lemma {:induction false} GiveRule(pre: seq<Expr>, v: Verdict, p: Packet, sets: Sets, holds: bool)
    requires ValidPacket(p) && Tests(pre, p, sets, Zeros(REG_BITS), holds)
    ensures EvalRule(pre + [Give(v)], p, sets) == if holds then Some(v) else None
  {
    forall regs: Bits | |regs| == REG_BITS ensures EvalAll([Give(v)], p, sets, regs) == Hit(v) {
      EvalGive(v, p, sets, regs);
    }
    RuleAfter(pre, [Give(v)], p, sets, holds, Hit(v));
  }

  lemma {:induction false} EvalGive(v: Verdict, p: Packet, sets: Sets, regs: Bits)
    requires ValidPacket(p) && |regs| == REG_BITS
    ensures EvalAll([Give(v)], p, sets, regs) == Hit(v)
  {
  }

  /** An ICMP port group tests for protocol 1 in both families, so its rules say nothing of any ICMPv6 packet. */
  lemma {:induction false} IcmpMissesIcmp6(sg: SecurityGroup, iif: Name, p: Packet, sets: Sets)
    requires ValidPacket(p) && ValidGroup(sg) && !Mixed(sg) && |iif| < 16 && p.l4proto == IPPROTO_ICMPV6
    requires sg.ports != [] && forall i | 0 <= i < |sg.ports| :: sg.ports[i].proto == ICMP
    ensures EvalChain(GroupRules(sg, iif, p.fam), p, sets) == None
  {
    GroupEvaluates(sg, iif, p, sets, map[]);
  }
}
