/** The verdict of the router's input and forward hooks once groups are applied. */
module HookVerdicts {
  import opened Common
  import opened Bits
  import opened Nft
  import opened RuleStore
  import opened RuleCounts
  import opened Groups
  import opened GroupVerdicts
  import opened Router
  import opened FirstMatch

  // ----- what groups leave in the verdict maps

  predicate UsesMap(sg: SecurityGroup, iif: Name, fam: Family, name: SetName) {
    !Mixed(sg) && Applies(sg, fam) && NeedsMap(sg.ports) && name == PortMap(Signature(sg, iif))
  }

  lemma {:induction false} VmapSet(r: Router, fam: Family, name: SetName, m: map<Bits, Verdict>, fam': Family,
                                   name': SetName)
    ensures Vmap(WithVmap(r, fam, name, m), fam', name')
         == if fam == fam' && name == name' then m else Vmap(r, fam', name')
    ensures name' in Table(WithVmap(r, fam, name, m), fam').vmaps
       <==> (fam == fam' && name == name') || name' in Table(r, fam').vmaps
  {
  }

  lemma {:induction false} PortsSet(r: Router, sg: SecurityGroup, iif: Name, fam: Family, fam': Family, name: SetName)
    requires !Mixed(sg)
    ensures var r' := WithPorts(r, sg, iif, fam);
            && Vmap(r', fam', name)
               == (if fam == fam' && UsesMap(sg, iif, fam, name)
                   then AddPorts(Vmap(r, fam', name), sg.ports, VerdictOf(sg)) else Vmap(r, fam', name))
            && (name in Table(r', fam').vmaps
                <==> name in Table(r, fam').vmaps || (fam == fam' && UsesMap(sg, iif, fam, name)))
  {
    var own := PortMap(Signature(sg, iif));
    VmapSet(r, fam, own, AddPorts(Vmap(r, fam, own), sg.ports, VerdictOf(sg)), fam', name);
  }

  lemma {:induction false} JumpSet(r: Router, iif: Name, fam: Family, name: SetName)
    requires |iif| < 16
    ensures var r' := WithJump(r, iif);
            && Vmap(r', fam, name)
               == (if name == InboundIfNames then Vmap(r, fam, name)[Padded(iif, 16) := Jump(Inbound(iif))]
                   else Vmap(r, fam, name))
            && (name in Table(r', fam).vmaps <==> name in Table(r, fam).vmaps || name == InboundIfNames)
  {
    var m4 := Vmap(r, V4, InboundIfNames)[Padded(iif, 16) := Jump(Inbound(iif))];
    var r1 := WithVmap(r, V4, InboundIfNames, m4);
    VmapSet(r, V4, InboundIfNames, m4, fam, name);
    VmapSet(r, V4, InboundIfNames, m4, V6, InboundIfNames);
    VmapSet(r1, V6, InboundIfNames, Vmap(r1, V6, InboundIfNames)[Padded(iif, 16) := Jump(Inbound(iif))], fam, name);
    assert fam == V4 || fam == V6;
  }

  predicate Jumps(sg: SecurityGroup, iif: Name) {
    !Mixed(sg) && iif != [] && sg.dst.NoPrefix?
  }

  /** A group fills its own port map, the interface map when it is an inbound group, and no other. */
  lemma {:induction false} ApplyTables(r: Router, sg: SecurityGroup, iif: Name, fam: Family, name: SetName)
    requires |iif| < 16
    ensures var r' := ApplyGroup(r, sg, iif);
            && Vmap(r', fam, name)
               == (if UsesMap(sg, iif, fam, name) then AddPorts(Vmap(r, fam, name), sg.ports, VerdictOf(sg))
                   else if Jumps(sg, iif) && name == InboundIfNames
                        then Vmap(r, fam, name)[Padded(iif, 16) := Jump(Inbound(iif))]
                   else Vmap(r, fam, name))
            && (name in Table(r', fam).vmaps
                <==> name in Table(r, fam).vmaps || UsesMap(sg, iif, fam, name)
                     || (Jumps(sg, iif) && name == InboundIfNames))
  {
    if !Mixed(sg) {
      var r1 := WithInbound(r, sg, iif);
      var r2 := WithPorts(r1, sg, iif, V4);
      ApplyOnlyTables(r, sg, iif);
      InboundSet(r, sg, iif, fam, name);
      PortsSet(r1, sg, iif, V4, fam, name);
      PortsSet(r2, sg, iif, V6, fam, name);
      SameTables(ApplyGroup(r, sg, iif), WithPorts(r2, sg, iif, V6), fam, name);
      assert fam == V4 || fam == V6;
    }
  }

  function WithInbound(r: Router, sg: SecurityGroup, iif: Name): Router
    requires |iif| < 16
  {
    if iif != [] && sg.dst.NoPrefix? then WithJump(r, iif) else r
  }

  lemma {:induction false} InboundSet(r: Router, sg: SecurityGroup, iif: Name, fam: Family, name: SetName)
    requires |iif| < 16 && !Mixed(sg)
    ensures var r' := WithInbound(r, sg, iif);
            && Vmap(r', fam, name)
               == (if Jumps(sg, iif) && name == InboundIfNames
                   then Vmap(r, fam, name)[Padded(iif, 16) := Jump(Inbound(iif))] else Vmap(r, fam, name))
            && (name in Table(r', fam).vmaps
                <==> name in Table(r, fam).vmaps || (Jumps(sg, iif) && name == InboundIfNames))
  {
    JumpSet(r, iif, fam, name);
  }

  lemma {:induction false} ApplyOnlyTables(r: Router, sg: SecurityGroup, iif: Name)
    requires |iif| < 16 && !Mixed(sg)
    ensures ApplyGroup(r, sg, iif).tables
         == WithPorts(WithPorts(WithInbound(r, sg, iif), sg, iif, V4), sg, iif, V6).tables
  {
  }

  lemma {:induction false} SameTables(a: Router, b: Router, fam: Family, name: SetName)
    requires a.tables == b.tables
    ensures Vmap(a, fam, name) == Vmap(b, fam, name) && Table(a, fam) == Table(b, fam)
  {
  }

  lemma {:induction false} MapKept(r: Router, sgs: seq<SecurityGroup>, iif: Name, fam: Family, name: SetName)
    requires |iif| < 16 && name != InboundIfNames
    requires forall sg | sg in sgs :: !UsesMap(sg, iif, fam, name)
    ensures var r' := ApplyAll(r, sgs, iif);
            Vmap(r', fam, name) == Vmap(r, fam, name) && (name in Table(r', fam).vmaps <==> name in Table(r, fam).vmaps)
    decreases |sgs|
  {
    if sgs != [] {
      assert !UsesMap(sgs[0], iif, fam, name);
      ApplyTables(r, sgs[0], iif, fam, name);
      MapKept(ApplyGroup(r, sgs[0], iif), sgs[1..], iif, fam, name);
    }
  }

  /** What the groups that use a port map leave in it, one after the other. */
  function SharedFrom(m: map<Bits, Verdict>, sgs: seq<SecurityGroup>, iif: Name, fam: Family,
                      name: SetName): map<Bits, Verdict>
    decreases |sgs|
  {
    if sgs == [] then m
    else SharedFrom(if UsesMap(sgs[0], iif, fam, name) then AddPorts(m, sgs[0].ports, VerdictOf(sgs[0])) else m,
                    sgs[1..], iif, fam, name)
  }

  predicate SomeUse(sgs: seq<SecurityGroup>, iif: Name, fam: Family, name: SetName) {
    exists i | 0 <= i < |sgs| :: UsesMap(sgs[i], iif, fam, name)
  }

  /** At the end every port map holds what all the groups that share it have put there. */
  lemma {:induction false} MapBuilt(r: Router, sgs: seq<SecurityGroup>, iif: Name, fam: Family, name: SetName)
    requires |iif| < 16 && name.PortMap?
    ensures var r' := ApplyAll(r, sgs, iif);
            && Vmap(r', fam, name) == SharedFrom(Vmap(r, fam, name), sgs, iif, fam, name)
            && (SomeUse(sgs, iif, fam, name) || name in Table(r, fam).vmaps ==> name in Table(r', fam).vmaps)
    decreases |sgs|
  {
    if sgs != [] {
      ApplyTables(r, sgs[0], iif, fam, name);
      MapBuilt(ApplyGroup(r, sgs[0], iif), sgs[1..], iif, fam, name);
      if SomeUse(sgs, iif, fam, name) && !UsesMap(sgs[0], iif, fam, name) {
        var i :| 0 <= i < |sgs| && UsesMap(sgs[i], iif, fam, name);
        assert sgs[1..][i - 1] == sgs[i];
      }
    }
  }

  /** The verdict of the last group that shares the map and lists the port. */
  function LastLister(sgs: seq<SecurityGroup>, iif: Name, fam: Family, name: SetName, proto: nat, port: int)
    : Option<Verdict>
    decreases |sgs|
  {
    if sgs == [] then None
    else
      var lists := UsesMap(sgs[0], iif, fam, name) && PortListed(sgs[0].ports, proto, port);
      First(LastLister(sgs[1..], iif, fam, name, proto, port), if lists then Some(VerdictOf(sgs[0])) else None)
  }

  /** The verdict of the last group that shares the map and lists the packet's port. */
  function LastListing(sgs: seq<SecurityGroup>, iif: Name, p: Packet, name: SetName): Option<Verdict>
    requires ValidPacket(p)
  {
    if HasPort(p) then LastLister(sgs, iif, p.fam, name, Value(HeaderProto(p)), DestPort(p)) else None
  }

  /** A shared map has under a port's key what the last group that lists the port has put there. */
  lemma {:induction false} SharedEntry(m: map<Bits, Verdict>, sgs: seq<SecurityGroup>, iif: Name, fam: Family,
                                       name: SetName, proto: nat, port: int)
    requires proto < 256 && 0 <= port < 65536 && forall i | 0 <= i < |sgs| :: ValidGroup(sgs[i])
    ensures var m', key, v := SharedFrom(m, sgs, iif, fam, name), PortKey(proto, port),
                              LastLister(sgs, iif, fam, name, proto, port);
            && (key in m' <==> v.Some? || key in m)
            && (key in m' ==> m'[key] == if v.Some? then v.value else m[key])
    decreases |sgs|
  {
    if sgs != [] {
      var sg := sgs[0];
      var m1 := if UsesMap(sg, iif, fam, name) then AddPorts(m, sg.ports, VerdictOf(sg)) else m;
      PortEntries(m, sg.ports, VerdictOf(sg), proto, port);
      SharedEntry(m1, sgs[1..], iif, fam, name, proto, port);
    }
  }

  /** So a shared map says of a packet what the last group that lists its port says. */
  lemma {:induction false} SharedSays(m: map<Bits, Verdict>, sgs: seq<SecurityGroup>, iif: Name, p: Packet,
                                      name: SetName)
    requires ValidPacket(p) && forall i | 0 <= i < |sgs| :: ValidGroup(sgs[i])
    ensures MapSays(SharedFrom(m, sgs, iif, p.fam, name), p) == First(LastListing(sgs, iif, p, name), MapSays(m, p))
  {
    if HasPort(p) {
      var a, b := HeaderProto(p), p.transport[16..32];
      PortKeyOf(a, b);
      SharedEntry(m, sgs, iif, p.fam, name, Value(a), Value(b));
    }
  }

  predicate SomeJumps(sgs: seq<SecurityGroup>, iif: Name) {
    exists i | 0 <= i < |sgs| :: Jumps(sgs[i], iif)
  }

  lemma {:induction false} IfMapBuilt(r: Router, sgs: seq<SecurityGroup>, iif: Name, fam: Family)
    requires |iif| < 16 && InboundIfNames in Table(r, fam).vmaps
    ensures var r' := ApplyAll(r, sgs, iif);
            && InboundIfNames in Table(r', fam).vmaps
            && Vmap(r', fam, InboundIfNames) == IfMapAfter(Vmap(r, fam, InboundIfNames), iif, SomeJumps(sgs, iif))
    decreases |sgs|
  {
    if sgs != [] {
      var r1 := ApplyGroup(r, sgs[0], iif);
      IfMapStep(r, r1, sgs[0], iif, fam);
      IfMapBuilt(r1, sgs[1..], iif, fam);
      FirstJumps(sgs, iif);
    }
  }

  /** The interface map once a group has jumped from the interface, or none has. */
  function IfMapAfter(m: map<Bits, Verdict>, iif: Name, jumped: bool): map<Bits, Verdict>
    requires |iif| < 16
  {
    if jumped then m[Padded(iif, 16) := Jump(Inbound(iif))] else m
  }

  lemma {:induction false} IfMapStep(r: Router, r1: Router, sg: SecurityGroup, iif: Name, fam: Family)
    requires |iif| < 16 && InboundIfNames in Table(r, fam).vmaps && r1 == ApplyGroup(r, sg, iif)
    ensures InboundIfNames in Table(r1, fam).vmaps
    ensures Vmap(r1, fam, InboundIfNames) == IfMapAfter(Vmap(r, fam, InboundIfNames), iif, Jumps(sg, iif))
  {
    ApplyTables(r, sg, iif, fam, InboundIfNames);
  }

  lemma {:induction false} FirstJumps(sgs: seq<SecurityGroup>, iif: Name)
    requires sgs != []
    ensures SomeJumps(sgs, iif) <==> Jumps(sgs[0], iif) || SomeJumps(sgs[1..], iif)
  {
    if SomeJumps(sgs[1..], iif) {
      var i :| 0 <= i < |sgs[1..]| && Jumps(sgs[1..][i], iif);
      assert Jumps(sgs[i + 1], iif);
    }
    if SomeJumps(sgs, iif) && !Jumps(sgs[0], iif) {
      var i :| 0 <= i < |sgs| && Jumps(sgs[i], iif);
      assert Jumps(sgs[1..][i - 1], iif);
    }
  }

  // ----- the first group that says something

  /** Whether the group's rules are evaluated for the packet. */
  predicate Heard(sg: SecurityGroup, iif: Name, p: Packet, forward: bool) {
    !Mixed(sg) && sg.dst.Prefix? == forward && (iif != [] ==> p.iifname == iif)
  }

  /**
   The first group of a hook that says something: its conditions hold, and it has no
   ports, or lists ICMP for an ICMP packet, or its map says something; the map's
   verdict is that of the last group, of all of them, that shares it and lists the port.
   */
  function FirstSaying(all: seq<SecurityGroup>, sgs: seq<SecurityGroup>, iif: Name, p: Packet,
                       forward: bool): Option<Verdict>
    requires ValidPacket(p)
    decreases |sgs|
  {
    if sgs == [] then None
    else
      var sg := sgs[0];
      var mapped := LastListing(all, iif, p, PortMap(Signature(sg, iif)));
      First(if Heard(sg, iif, p, forward) then GroupSays(sg, iif, p, mapped) else None,
            FirstSaying(all, sgs[1..], iif, p, forward))
  }

  /** The group's port map, where it has one, says what the last listing group says. */
  predicate MapReady(all: seq<SecurityGroup>, sg: SecurityGroup, iif: Name, p: Packet, sets: Sets)
    requires ValidPacket(p)
  {
    var name := PortMap(Signature(sg, iif));
    !Mixed(sg) && NeedsMap(sg.ports) && Applies(sg, p.fam)
    ==> name in sets.vmaps && MapSays(sets.vmaps[name], p) == LastListing(all, iif, p, name)
  }

  lemma {:induction false} GroupReady(all: seq<SecurityGroup>, sg: SecurityGroup, iif: Name, p: Packet, sets: Sets)
    requires ValidPacket(p) && |iif| < 16 && ValidGroup(sg) && !Mixed(sg) && MapReady(all, sg, iif, p, sets)
    ensures EvalChain(GroupRules(sg, iif, p.fam), p, sets)
         == GroupSays(sg, iif, p, LastListing(all, iif, p, PortMap(Signature(sg, iif))))
  {
    var name := PortMap(Signature(sg, iif));
    GroupEvaluates(sg, iif, p, sets, if name in sets.vmaps then sets.vmaps[name] else map[]);
  }

  lemma {:induction false} GroupsSayFirst(all: seq<SecurityGroup>, sgs: seq<SecurityGroup>, iif: Name, chain: Chain,
                                          p: Packet,
                                          sets: Sets, forward: bool)
    requires ValidPacket(p) && |iif| < 16
    requires chain == if forward then Forward else if iif != [] then Inbound(iif) else Input
    requires !forward && iif != [] ==> p.iifname == iif
    requires forall i | 0 <= i < |sgs| :: ValidGroup(sgs[i]) && MapReady(all, sgs[i], iif, p, sets)
    ensures EvalGroups(sgs, iif, chain, p, sets) == FirstSaying(all, sgs, iif, p, forward)
    decreases |sgs|
  {
    if sgs != [] {
      var sg := sgs[0];
      assert ValidGroup(sg) && MapReady(all, sg, iif, p, sets);
      GroupsSayFirst(all, sgs[1..], iif, chain, p, sets, forward);
      if !Mixed(sg) && chain == TargetChain(sg, iif) {
        GroupReady(all, sg, iif, p, sets);
      }
    }
  }

  lemma {:induction false} OtherChain(sgs: seq<SecurityGroup>, iif: Name, chain: Chain, p: Packet, sets: Sets)
    requires ValidPacket(p) && forall i | 0 <= i < |sgs| :: chain != TargetChain(sgs[i], iif)
    ensures EvalGroups(sgs, iif, chain, p, sets) == None
    decreases |sgs|
  {
    if sgs != [] {
      OtherChain(sgs[1..], iif, chain, p, sets);
    }
  }

  /** A packet from another interface, or without inbound groups, matches no group that names an interface. */
  lemma {:induction false} NoInbound(all: seq<SecurityGroup>, sgs: seq<SecurityGroup>, iif: Name, p: Packet)
    requires ValidPacket(p) && iif != [] && (p.iifname != iif || !SomeJumps(sgs, iif))
    ensures FirstSaying(all, sgs, iif, p, false) == None
    decreases |sgs|
  {
    if sgs != [] {
      assert forall i | 0 < i < |sgs| :: sgs[i] == sgs[1..][i - 1];
      if SomeJumps(sgs[1..], iif) {
        var i :| 0 <= i < |sgs[1..]| && Jumps(sgs[1..][i], iif);
        assert Jumps(sgs[i + 1], iif);
      }
      assert p.iifname == iif ==> !Jumps(sgs[0], iif);
      NoInbound(all, sgs[1..], iif, p);
    }
  }

  // ----- hooks

  /** A jump's verdict is that of the chain it leads to. */
  function AfterJump(v: Option<Verdict>, kernel: seq<Rule>, p: Packet, sets: Sets): Option<Verdict>
    requires ValidPacket(p)
  {
    if v.Some? && v.value.Jump? then EvalChain(ChainExprs(kernel, p.fam, v.value.chain), p, sets) else v
  }

  /** A base chain: a jump evaluates the target chain and comes back when that gives no verdict. */
  function EvalHook(rules: seq<seq<Expr>>, kernel: seq<Rule>, p: Packet, sets: Sets): Option<Verdict>
    requires ValidPacket(p)
    decreases |rules|
  {
    if rules == [] then None
    else First(AfterJump(EvalRule(rules[0], p, sets), kernel, p, sets), EvalHook(rules[1..], kernel, p, sets))
  }

  function InputVerdict(r: Router, p: Packet): Option<Verdict>
    requires ValidPacket(p)
  {
    EvalHook(ChainExprs(r.store.kernel, p.fam, Input), r.store.kernel, p, Table(r, p.fam))
  }

  function ForwardVerdict(r: Router, p: Packet): Option<Verdict>
    requires ValidPacket(p)
  {
    EvalHook(ChainExprs(r.store.kernel, p.fam, Forward), r.store.kernel, p, Table(r, p.fam))
  }

  /** The connection-state map's verdict. */
  function CtVerdict(p: Packet): Option<Verdict> {
    if p.ctstate in CtMap() then Some(CtMap()[p.ctstate]) else None
  }

  lemma {:induction false} HookHead(rule: seq<Expr>, rest: seq<seq<Expr>>, kernel: seq<Rule>, p: Packet, sets: Sets)
    requires ValidPacket(p)
    ensures EvalHook([rule] + rest, kernel, p, sets)
         == First(AfterJump(EvalRule(rule, p, sets), kernel, p, sets), EvalHook(rest, kernel, p, sets))
  {
    assert ([rule] + rest)[1..] == rest;
  }

  predicate NoJump(v: Option<Verdict>) {
    v.None? || !v.value.Jump?
  }

  /** Rules whose first verdict is no jump, followed by others. */
  lemma {:induction false} HookConcat(a: seq<seq<Expr>>, b: seq<seq<Expr>>, kernel: seq<Rule>, p: Packet, sets: Sets)
    requires ValidPacket(p) && NoJump(EvalChain(a, p, sets))
    ensures EvalHook(a + b, kernel, p, sets) == First(EvalChain(a, p, sets), EvalHook(b, kernel, p, sets))
    decreases |a|
  {
    if a == [] {
      assert a + b == b;
    } else {
      assert (a + b)[1..] == a[1..] + b;
      if EvalRule(a[0], p, sets).None? {
        HookConcat(a[1..], b, kernel, p, sets);
      }
    }
  }

  lemma {:induction false} EvalLookup(load: Expr, have: Bits, name: SetName, p: Packet, sets: Sets)
    requires ValidPacket(p) && |have| == KeyBits(p.fam, name) && |have| <= 128 && name in sets.vmaps
    requires Eval(load, p, sets, Zeros(REG_BITS)) == Write(Zeros(REG_BITS), 1, have)
    ensures EvalRule([load, LookupVerdict(1, name)], p, sets)
         == if have in sets.vmaps[name] then Some(sets.vmaps[name][have]) else None
  {
    LoadPut(Zeros(REG_BITS), 1, have);
    EvalTwo(load, LookupVerdict(1, name), p, sets, Zeros(REG_BITS));
  }

  lemma {:induction false} CtRule(p: Packet, sets: Sets)
    requires ValidPacket(p) && CtStates in sets.vmaps && sets.vmaps[CtStates] == CtMap()
    ensures EvalRule(CT_RULE, p, sets) == CtVerdict(p)
  {
    EvalLookup(CtState(1), p.ctstate, CtStates, p, sets);
  }

  lemma {:induction false} IfRule(p: Packet, sets: Sets)
    requires ValidPacket(p) && InboundIfNames in sets.vmaps
    ensures var m := sets.vmaps[InboundIfNames];
            EvalRule(IF_RULE, p, sets) == if Padded(p.iifname, 16) in m then Some(m[Padded(p.iifname, 16)]) else None
  {
    EvalLookup(Meta(IifName, 1), Padded(p.iifname, 16), InboundIfNames, p, sets);
  }

  lemma {:induction false} PaddedIff(a: Name, b: Name)
    requires |a| < 16 && |b| < 16
    ensures Padded(a, 16) == Padded(b, 16) <==> a == b
  {
    NameCompare(a, b, 16);
    NameCompare(b, b, 16);
  }

  // ----- main results

  lemma {:induction false} NewReady()
    ensures Ready(NewRouter())
  {
    var r := NewRouter();
    NewCounts();
    NewKernel();
    forall fam: Family
      ensures ForwardShape(r.store.kernel, fam, CtId(fam)) && NextHandle(r.store, fam) > 3
      ensures [CT_RULE, IF_RULE] <= ChainExprs(r.store.kernel, fam, Input)
    {
      NewChains(fam);
    }
  }

  lemma {:induction false} NewKernel()
    ensures var k := NewRouter().store.kernel;
            && |k| == 6
            && (forall i | 0 <= i < 6 :: k[i].Id() == RuleId(if i < 3 then V4 else V6, if i < 3 then i + 1 else i - 2))
            && (forall i | 0 <= i < 6 :: IsBaseExprs(k[i].spec.exprs) && k[i].Id() in BaseIds())
  {
  }

  lemma {:induction false} NewCounts()
    ensures RuleCounts.Inv(NewRouter().store, BaseIds())
  {
    var st := NewRouter().store;
    var k := st.kernel;
    NewKernel();
    NewUnique();
    forall b | b in BaseIds() ensures b in Ids(k) {
      BaseInstalled(b);
    }
    forall r | r in k ensures r.handle < NextHandle(st, r.spec.fam) && r.Id() in BaseIds() {
      var i :| 0 <= i < 6 && k[i] == r;
    }
  }

  lemma {:induction false} BaseInstalled(b: Id)
    requires b in BaseIds()
    ensures b in Ids(NewRouter().store.kernel)
  {
    var k := NewRouter().store.kernel;
    NewKernel();
    var i := if b.fam == V4 then b.handle - 1 else b.handle + 2;
    assert k[i] in k && k[i].Id() == b;
  }

  lemma {:induction false} NewUnique()
    ensures Unique(NewRouter().store.kernel)
  {
    NewKernel();
  }

  lemma {:induction false} NewChains(fam: Family)
    ensures var k := NewRouter().store.kernel;
            && ForwardShape(k, fam, CtId(fam))
            && ExprsBefore(k, CtId(fam), fam, Forward) == []
            && ChainExprs(k, fam, Input) == [CT_RULE, IF_RULE]
            && forall iif: Name :: ChainExprs(k, fam, Inbound(iif)) == []
  {
    var k := NewRouter().store.kernel;
    var a, b := BaseRules(V4), BaseRules(V6);
    assert k == a + b;
    BaseChains(V4, fam, Input);
    BaseChains(V6, fam, Input);
    ChainExprsConcat(a, b, fam, Input);
    CtIndex(fam);
    forall iif: Name ensures ChainExprs(k, fam, Inbound(iif)) == [] {
      BaseChains(V4, fam, Inbound(iif));
      BaseChains(V6, fam, Inbound(iif));
      ChainExprsConcat(a, b, fam, Inbound(iif));
    }
  }

  lemma {:induction false} BaseChains(fam: Family, fam': Family, chain: Chain)
    ensures ChainExprs(BaseRules(fam), fam', chain)
         == if fam != fam' then []
            else if chain == Input then [CT_RULE, IF_RULE] else if chain == Forward then [CT_RULE] else []
  {
    var rules := BaseRules(fam);
    ChainExprsConcat([rules[0]], [rules[1], rules[2]], fam', chain);
    ChainExprsConcat([rules[1]], [rules[2]], fam', chain);
    ChainExprsOne(rules[0], fam', chain);
    ChainExprsOne(rules[1], fam', chain);
    ChainExprsOne(rules[2], fam', chain);
    assert rules == [rules[0]] + [rules[1], rules[2]] && [rules[1], rules[2]] == [rules[1]] + [rules[2]];
  }

  lemma {:induction false} CtIndex(fam: Family)
    ensures var k := NewRouter().store.kernel;
            ForwardShape(k, fam, CtId(fam)) && ExprsBefore(k, CtId(fam), fam, Forward) == []
  {
    OnlyForward(NewRouter().store.kernel, fam, if fam == V4 then 2 else 5);
  }

  lemma {:induction false} OnlyForward(k: seq<Rule>, fam: Family, i: nat)
    requires i < |k| && k[i] == Rule(RuleSpec(fam, Forward, CT_RULE), 3)
    requires forall j | 0 <= j < |k| && j != i :: k[j].Id() != CtId(fam)
    requires forall j | 0 <= j < |k| && j != i :: !(k[j].spec.fam == fam && k[j].spec.chain == Forward)
    ensures ForwardShape(k, fam, CtId(fam)) && ExprsBefore(k, CtId(fam), fam, Forward) == []
  {
    IndexIs(k, CtId(fam), i);
    ChainExprsNone(k[..i], fam, Forward);
    assert k[i..] == [k[i]] + k[i + 1..];
    ChainExprsConcat([k[i]], k[i + 1..], fam, Forward);
    ChainExprsOne(k[i], fam, Forward);
    ChainExprsNone(k[i + 1..], fam, Forward);
  }

  lemma {:induction false} IndexIs(kernel: seq<Rule>, id: Id, i: nat)
    requires i < |kernel| && kernel[i].Id() == id && forall j | 0 <= j < i :: kernel[j].Id() != id
    ensures IndexOf(kernel, id) == i
    decreases i
  {
    if i > 0 {
      IndexIs(kernel[1..], id, i - 1);
    }
  }

  lemma {:induction false} ChainExprsNone(kernel: seq<Rule>, fam: Family, chain: Chain)
    requires forall i | 0 <= i < |kernel| :: !(kernel[i].spec.fam == fam && kernel[i].spec.chain == chain)
    ensures ChainExprs(kernel, fam, chain) == []
    decreases |kernel|
  {
    if kernel != [] {
      ChainExprsNone(kernel[1..], fam, chain);
    }
  }

  /** The groups, the interface and the packet the theorems speak about. */
  ghost predicate Given(sgs: seq<SecurityGroup>, iif: Name, p: Packet) {
    ValidPacket(p) && |iif| < 16 && forall i | 0 <= i < |sgs| :: ValidGroup(sgs[i])
  }

  /** The interface map after groups for iif. */
  function IfMap(sgs: seq<SecurityGroup>, iif: Name): map<Bits, Verdict>
    requires |iif| < 16
  {
    var base := map[Padded(LO, 16) := Accept];
    if SomeJumps(sgs, iif) then base[Padded(iif, 16) := Jump(Inbound(iif))] else base
  }

  /** Once groups are applied the maps hold what the groups put there. */
  lemma {:induction false} FinalMaps(sgs: seq<SecurityGroup>, iif: Name, p: Packet)
    requires Given(sgs, iif, p)
    ensures var sets := Table(ApplyAll(NewRouter(), sgs, iif), p.fam);
            && (forall i | 0 <= i < |sgs| :: MapReady(sgs, sgs[i], iif, p, sets))
            && CtStates in sets.vmaps && sets.vmaps[CtStates] == CtMap()
            && InboundIfNames in sets.vmaps && sets.vmaps[InboundIfNames] == IfMap(sgs, iif)
  {
    var r := NewRouter();
    var sets := Table(ApplyAll(r, sgs, iif), p.fam);
    assert Table(r, p.fam) == BaseSets();
    forall i | 0 <= i < |sgs| ensures MapReady(sgs, sgs[i], iif, p, sets) {
      FinalMap(sgs, i, iif, p);
    }
    MapKept(r, sgs, iif, p.fam, CtStates);
    IfMapBuilt(r, sgs, iif, p.fam);
  }

  lemma {:induction false} FinalMap(sgs: seq<SecurityGroup>, i: nat, iif: Name, p: Packet)
    requires Given(sgs, iif, p) && i < |sgs|
    ensures MapReady(sgs, sgs[i], iif, p, Table(ApplyAll(NewRouter(), sgs, iif), p.fam))
  {
    if !Mixed(sgs[i]) && NeedsMap(sgs[i].ports) && Applies(sgs[i], p.fam) {
      var name := PortMap(Signature(sgs[i], iif));
      assert UsesMap(sgs[i], iif, p.fam, name) && SomeUse(sgs, iif, p.fam, name);
      assert Table(NewRouter(), p.fam) == BaseSets();
      MapBuilt(NewRouter(), sgs, iif, p.fam, name);
      SharedSays(map[], sgs, iif, p, name);
    }
  }

  /** On a new router, evaluating the rules groups added to a chain evaluates the groups in order. */
  lemma {:induction false} AddedEvaluates(sgs: seq<SecurityGroup>, iif: Name, chain: Chain, p: Packet, sets: Sets)
    requires ValidPacket(p) && |iif| < 16 && (chain == Forward || chain == Input || chain == Inbound(iif))
    ensures var r := ApplyAll(NewRouter(), sgs, iif);
            Ready(r) && EvalChain(Added(r, p.fam, chain), p, sets) == EvalGroups(sgs, iif, chain, p, sets)
  {
    NewReady();
    NewAdded(p.fam, chain, iif);
    AddedFrom(NewRouter(), sgs, iif, chain, p, sets);
  }

  lemma {:induction false} NewAdded(fam: Family, chain: Chain, iif: Name)
    requires chain == Forward || chain == Input || chain == Inbound(iif)
    ensures Added(NewRouter(), fam, chain) == []
  {
    NewChains(fam);
  }

  lemma {:induction false} AddedFrom(r: Router, sgs: seq<SecurityGroup>, iif: Name, chain: Chain, p: Packet, sets: Sets)
    requires Ready(r) && Added(r, p.fam, chain) == []
    requires ValidPacket(p) && |iif| < 16 && (chain == Forward || chain == Input || chain == Inbound(iif))
    ensures var r' := ApplyAll(r, sgs, iif);
            Ready(r') && EvalChain(Added(r', p.fam, chain), p, sets) == EvalGroups(sgs, iif, chain, p, sets)
  {
    SetReady(r, sgs, iif);
    ChainsAreGroups(r, sgs, iif, chain, p, sets);
  }

  lemma {:induction false} ListerNoJump(sgs: seq<SecurityGroup>, iif: Name, fam: Family, name: SetName, proto: nat,
                                        port: int)
    ensures NoJump(LastLister(sgs, iif, fam, name, proto, port))
    decreases |sgs|
  {
    if sgs != [] {
      ListerNoJump(sgs[1..], iif, fam, name, proto, port);
    }
  }

  lemma {:induction false} FirstNoJump(all: seq<SecurityGroup>, sgs: seq<SecurityGroup>, iif: Name, p: Packet,
                                       forward: bool)
    requires ValidPacket(p)
    ensures NoJump(FirstSaying(all, sgs, iif, p, forward))
    decreases |sgs|
  {
    if sgs != [] {
      if HasPort(p) {
        ListerNoJump(all, iif, p.fam, PortMap(Signature(sgs[0], iif)), Value(HeaderProto(p)), DestPort(p));
      }
      FirstNoJump(all, sgs[1..], iif, p, forward);
    }
  }

  lemma {:induction false} ForwardParts(r: Router, fam: Family)
    requires Ready(r)
    ensures ChainExprs(r.store.kernel, fam, Forward) == Added(r, fam, Forward) + [CT_RULE]
  {
    BeforeAndFrom(r.store.kernel, CtId(fam), fam, Forward);
    assert ForwardShape(r.store.kernel, fam, CtId(fam));
  }

  lemma {:induction false} CtNoJump(p: Packet)
    ensures NoJump(CtVerdict(p))
  {
  }

  /** A chain of rules followed by one more, none of them jumping. */
  lemma {:induction false} HookThenOne(rules: seq<seq<Expr>>, last: seq<Expr>, k: seq<Rule>, p: Packet, sets: Sets,
                                       a: Option<Verdict>, b: Option<Verdict>)
    requires ValidPacket(p)
    requires EvalChain(rules, p, sets) == a && EvalRule(last, p, sets) == b && NoJump(a) && NoJump(b)
    ensures EvalHook(rules + [last], k, p, sets) == First(a, b)
  {
    HookConcat(rules, [last], k, p, sets);
    HookHead(last, [], k, p, sets);
    assert [last] + [] == [last];
  }

  /** Two rules, the second of which may jump, followed by a chain that does not. */
  lemma {:induction false} HookOneTwo(one: seq<Expr>, two: seq<Expr>, rest: seq<seq<Expr>>, k: seq<Rule>, p: Packet,
                                      sets: Sets,
                   a: Option<Verdict>, b: Option<Verdict>, c: Option<Verdict>)
    requires ValidPacket(p)
    requires EvalRule(one, p, sets) == a && EvalRule(two, p, sets) == b && EvalChain(rest, p, sets) == c && NoJump(a)
             && NoJump(c)
    ensures EvalHook([one, two] + rest, k, p, sets) == First(a, First(AfterJump(b, k, p, sets), c))
  {
    HookHead(one, [two] + rest, k, p, sets);
    HookHead(two, rest, k, p, sets);
    HookConcat(rest, [], k, p, sets);
    assert [one, two] + rest == [one] + ([two] + rest);
    assert rest + [] == rest;
  }

  /**
   Forwarded packets once groups are applied: the first group with a destination
   network that says something, and only then the connection state.
   */
  lemma {:induction false} AllForward(sgs: seq<SecurityGroup>, iif: Name, p: Packet)
    requires Given(sgs, iif, p)
    ensures ForwardVerdict(ApplyAll(NewRouter(), sgs, iif), p)
         == First(FirstSaying(sgs, sgs, iif, p, true), CtVerdict(p))
  {
    var r := ApplyAll(NewRouter(), sgs, iif);
    FinalMaps(sgs, iif, p);
    AddedEvaluates(sgs, iif, Forward, p, Table(r, p.fam));
    ForwardCore(r, sgs, iif, p, Table(r, p.fam));
  }

  lemma {:induction false} ForwardCore(r: Router, sgs: seq<SecurityGroup>, iif: Name, p: Packet, sets: Sets)
    requires Given(sgs, iif, p) && Ready(r) && sets == Table(r, p.fam)
    requires forall i | 0 <= i < |sgs| :: MapReady(sgs, sgs[i], iif, p, sets)
    requires CtStates in sets.vmaps && sets.vmaps[CtStates] == CtMap()
    requires EvalChain(Added(r, p.fam, Forward), p, sets) == EvalGroups(sgs, iif, Forward, p, sets)
    ensures ForwardVerdict(r, p) == First(FirstSaying(sgs, sgs, iif, p, true), CtVerdict(p))
  {
    var said := FirstSaying(sgs, sgs, iif, p, true);
    GroupsSayFirst(sgs, sgs, iif, Forward, p, sets, true);
    FirstNoJump(sgs, sgs, iif, p, true);
    ForwardParts(r, p.fam);
    CtRule(p, sets);
    CtNoJump(p);
    HookThenOne(Added(r, p.fam, Forward), CT_RULE, r.store.kernel, p, sets, said, CtVerdict(p));
  }

  /** The entry of the interface map for a packet: jump for the interface of the groups, accept loopback. */
  function IfVerdict(sgs: seq<SecurityGroup>, iif: Name, p: Packet): Option<Verdict> {
    if SomeJumps(sgs, iif) && p.iifname == iif then Some(Jump(Inbound(iif)))
    else if p.iifname == LO then Some(Accept)
    else None
  }

  lemma {:induction false} IfRuleVerdict(sgs: seq<SecurityGroup>, iif: Name, p: Packet, sets: Sets)
    requires ValidPacket(p) && |iif| < 16 && InboundIfNames in sets.vmaps
             && sets.vmaps[InboundIfNames] == IfMap(sgs, iif)
    ensures EvalRule(IF_RULE, p, sets) == IfVerdict(sgs, iif, p)
  {
    IfRule(p, sets);
    PaddedIff(p.iifname, LO);
    PaddedIff(p.iifname, iif);
  }

  /** Loopback packets are accepted unless groups without a destination network name the loopback interface. */
  predicate LoopbackAccepted(sgs: seq<SecurityGroup>, iif: Name, p: Packet) {
    p.iifname == LO && !(SomeJumps(sgs, iif) && iif == LO)
  }

  /**
   Packets for the router itself once groups are applied: the connection state, then
   acceptance of loopback, then the first group without a destination network that
   says something.
   */
  lemma {:induction false} AllInput(sgs: seq<SecurityGroup>, iif: Name, p: Packet)
    requires Given(sgs, iif, p)
    ensures InputVerdict(ApplyAll(NewRouter(), sgs, iif), p)
         == First(CtVerdict(p),
                  if LoopbackAccepted(sgs, iif, p) then Some(Accept) else FirstSaying(sgs, sgs, iif, p, false))
  {
    var r := ApplyAll(NewRouter(), sgs, iif);
    FinalMaps(sgs, iif, p);
    AddedEvaluates(sgs, iif, Input, p, Table(r, p.fam));
    AddedEvaluates(sgs, iif, Inbound(iif), p, Table(r, p.fam));
    InputCore(r, sgs, iif, p, Table(r, p.fam));
  }

  lemma {:induction false} InputCore(r: Router, sgs: seq<SecurityGroup>, iif: Name, p: Packet, sets: Sets)
    requires Given(sgs, iif, p) && Ready(r) && sets == Table(r, p.fam)
    requires forall i | 0 <= i < |sgs| :: MapReady(sgs, sgs[i], iif, p, sets)
    requires CtStates in sets.vmaps && sets.vmaps[CtStates] == CtMap()
    requires InboundIfNames in sets.vmaps && sets.vmaps[InboundIfNames] == IfMap(sgs, iif)
    requires EvalChain(Added(r, p.fam, Input), p, sets) == EvalGroups(sgs, iif, Input, p, sets)
    requires EvalChain(Added(r, p.fam, Inbound(iif)), p, sets) == EvalGroups(sgs, iif, Inbound(iif), p, sets)
    ensures InputVerdict(r, p)
         == First(CtVerdict(p),
                  if LoopbackAccepted(sgs, iif, p) then Some(Accept) else FirstSaying(sgs, sgs, iif, p, false))
  {
    var inChain, entry := EvalGroups(sgs, iif, Input, p, sets), IfVerdict(sgs, iif, p);
    InChain(sgs, iif, p, sets);
    InputParts(r, p.fam);
    CtRule(p, sets);
    CtNoJump(p);
    IfRuleVerdict(sgs, iif, p, sets);
    HookOneTwo(CT_RULE, IF_RULE, Added(r, p.fam, Input), r.store.kernel, p, sets, CtVerdict(p), entry, inChain);
    AfterEntry(r, sgs, iif, p, sets);
  }

  /** What follows the connection state: the interface map, the chain it leads to, and the input chain's own groups. */
  lemma {:induction false} AfterEntry(r: Router, sgs: seq<SecurityGroup>, iif: Name, p: Packet, sets: Sets)
    requires Given(sgs, iif, p) && forall i | 0 <= i < |sgs| :: MapReady(sgs, sgs[i], iif, p, sets)
    requires EvalChain(Added(r, p.fam, Inbound(iif)), p, sets) == EvalGroups(sgs, iif, Inbound(iif), p, sets)
    ensures First(AfterJump(IfVerdict(sgs, iif, p), r.store.kernel, p, sets), EvalGroups(sgs, iif, Input, p, sets))
         == if LoopbackAccepted(sgs, iif, p) then Some(Accept) else FirstSaying(sgs, sgs, iif, p, false)
  {
    InChain(sgs, iif, p, sets);
    if iif != [] && p.iifname == iif && SomeJumps(sgs, iif) {
      GroupsSayFirst(sgs, sgs, iif, Inbound(iif), p, sets, false);
    } else if iif != [] {
      NoInbound(sgs, sgs, iif, p);
    }
  }

  /** The groups of the input chain itself: all inbound groups when no interface is named, none otherwise. */
  lemma {:induction false} InChain(sgs: seq<SecurityGroup>, iif: Name, p: Packet, sets: Sets)
    requires Given(sgs, iif, p) && forall i | 0 <= i < |sgs| :: MapReady(sgs, sgs[i], iif, p, sets)
    ensures EvalGroups(sgs, iif, Input, p, sets) == if iif == [] then FirstSaying(sgs, sgs, iif, p, false) else None
    ensures NoJump(EvalGroups(sgs, iif, Input, p, sets))
    ensures iif == [] ==> !SomeJumps(sgs, iif)
  {
    FirstNoJump(sgs, sgs, iif, p, false);
    if iif == [] {
      GroupsSayFirst(sgs, sgs, iif, Input, p, sets, false);
    } else {
      OtherChain(sgs, iif, Input, p, sets);
    }
  }
}
