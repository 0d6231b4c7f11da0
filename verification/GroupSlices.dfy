/**
 The rules of a group in memory. All are appended to one slice of conditions; where
 that has room left, they share its array and the last one overwrites the others.
 */
module GroupSlices {
  import opened Common
  import opened Bits
  import opened Nft
  import opened RuleStore
  import opened RuleCounts
  import opened Groups
  import opened GroupVerdicts
  import opened Router

  /** A slice starts at its array's first element; the array's length is its capacity. */
  datatype Slice = Slice(mem: array<Expr>, len: nat)

  ghost predicate Sound(s: Slice) {
    s.len <= s.mem.Length
  }

  ghost function Contents(s: Slice): seq<Expr>
    requires Sound(s)
    reads s.mem
  {
    s.mem[..s.len]
  }

  /** The capacity of a short slice that must grow: doubled, or what is needed. */
  function Grown(cap: nat, needed: nat): nat {
    if needed > 2 * cap then needed else 2 * cap
  }

  /** append: in place where there is room, else in a new array. */
  method Append(s: Slice, xs: seq<Expr>) returns (r: Slice)
    requires Sound(s)
    modifies s.mem
    ensures Sound(r) && r.len == s.len + |xs| && Contents(r) == old(Contents(s)) + xs
    ensures if r.len <= s.mem.Length then r.mem == s.mem
            else fresh(r.mem) && r.mem.Length == Grown(s.mem.Length, r.len) && s.mem[..] == old(s.mem[..])
  {
    var n := s.len + |xs|;
    var mem := s.mem;
    if n > s.mem.Length {
      mem := Moved(s, Grown(s.mem.Length, n));
    }
    PutAll(mem, s.len, xs);
    r := Slice(mem, n);
  }

  /** A new array that starts with the elements of the slice. */
  method Moved(s: Slice, cap: nat) returns (mem: array<Expr>)
    requires Sound(s) && s.len <= cap
    ensures fresh(mem) && mem.Length == cap && mem[..s.len] == Contents(s)
  {
    mem := new Expr[cap];
    for i := 0 to s.len
      invariant mem[..i] == s.mem[..i]
    {
      mem[i] := s.mem[i];
    }
  }

  method PutAll(mem: array<Expr>, at: nat, xs: seq<Expr>)
    requires at + |xs| <= mem.Length
    modifies mem
    ensures mem[..at + |xs|] == old(mem[..at]) + xs
  {
    for i := 0 to |xs|
      invariant mem[..at + i] == old(mem[..at]) + xs[..i]
    {
      mem[at + i] := xs[i];
    }
    assert xs[..|xs|] == xs;
  }

  /** Whether both kinds of rule are appended to a slice with room for either. */
  predicate Overlaid(ports: seq<PortGroup>, room: int) {
    HasIcmp(ports) && NeedsMap(ports) && room >= 3
  }

  /** What the slices of the rules hold in the end: their own rules, or the last rule each. */
  function InMemory(rules: seq<seq<Expr>>, overlaid: bool): seq<seq<Expr>> {
    if overlaid && rules != [] then seq(|rules|, _ => rules[|rules| - 1]) else rules
  }

  ghost predicate Holding(slices: seq<Slice>, rules: seq<seq<Expr>>)
    reads set s | s in slices :: s.mem
  {
    && |slices| == |rules|
    && forall i | 0 <= i < |slices| :: Sound(slices[i]) && Contents(slices[i]) == rules[i]
  }

  /** The slices made so far for the rules done: all in the array of the conditions, or each in one of its own. */
  ghost predicate Made(slices: seq<Slice>, pre: Slice, done: seq<seq<Expr>>)
    reads pre.mem, set s | s in slices :: s.mem
  {
    var room := pre.mem.Length - pre.len >= 3;
    && Sound(pre) && Holding(slices, InMemory(done, room))
    && forall s | s in slices :: if room then s.mem == pre.mem && s.len == pre.len + 3 else s.mem != pre.mem
  }

  method AddRule(slices: seq<Slice>, pre: Slice, tail: seq<Expr>, ghost done: seq<seq<Expr>>) returns (r: Slice)
    requires Made(slices, pre, done) && |tail| == 3
    modifies pre.mem
    ensures Sound(pre) && Contents(pre) == old(Contents(pre)) && (r.mem == pre.mem || fresh(r.mem))
    ensures Made(slices + [r], pre, done + [Contents(pre) + tail])
  {
    r := Append(pre, tail);
    ghost var rule := old(Contents(pre)) + tail;
    assert Contents(pre) == old(Contents(pre)) by {
      assert r.mem == pre.mem ==> Contents(pre) == Contents(r)[..pre.len];
    }
    forall i | 0 <= i < |slices| + 1
      ensures var s := (slices + [r])[i];
              Sound(s) && Contents(s) == InMemory(done + [rule], pre.mem.Length - pre.len >= 3)[i]
    {
      if i < |slices| {
        assert slices[i] in slices;
        assert pre.mem.Length - pre.len < 3 ==> Contents(slices[i]) == old(Contents(slices[i]));
      }
    }
  }

  /** The loop over port groups as it appends to one slice of conditions. */
  method CompilePorts(ports: seq<PortGroup>, pre: Slice, fam: Family, name: SetName, v: Verdict)
    returns (slices: seq<Slice>)
    requires Sound(pre)
    modifies pre.mem
    ensures Sound(pre) && Contents(pre) == old(Contents(pre))
    ensures Holding(slices, InMemory(PortRules(ports, Contents(pre), fam, name, v, false, false),
                                     pre.mem.Length - pre.len >= 3))
  {
    slices := [];
    var icmpDone, mapDone := false, false;
    ghost var conditions, done := Contents(pre), [];
    for i := 0 to |ports|
      invariant Contents(pre) == conditions && Made(slices, pre, done)
      invariant forall s | s in slices :: s.mem == pre.mem || fresh(s.mem)
      invariant PortRules(ports, conditions, fam, name, v, false, false)
             == done + PortRules(ports[i..], conditions, fam, name, v, icmpDone, mapDone)
    {
      assert ports[i..][1..] == ports[i + 1..];
      OnePortGroup(done, ports[i..], conditions, fam, name, v, icmpDone, mapDone);
      var tail := if ports[i].proto == ICMP then IcmpExprs(v) else PortExprs(fam, name);
      if !(if ports[i].proto == ICMP then icmpDone else mapDone) {
        var r := AddRule(slices, pre, tail, done);
        slices, done := slices + [r], done + [conditions + tail];
      }
      icmpDone, mapDone := icmpDone || ports[i].proto == ICMP, mapDone || ports[i].proto != ICMP;
    }
    ConcatEmpty(done);
  }

  // ----- which groups are affected

  /** The rules of the port groups, with either guard already set. */
  lemma {:induction false} OneKindLeft(ports: seq<PortGroup>, pre: seq<Expr>, fam: Family, name: SetName, v: Verdict)
    ensures PortRules(ports, pre, fam, name, v, true, true) == []
    ensures PortRules(ports, pre, fam, name, v, true, false)
         == if NeedsMap(ports) then [pre + PortExprs(fam, name)] else []
    ensures PortRules(ports, pre, fam, name, v, false, true) == if HasIcmp(ports) then [pre + IcmpExprs(v)] else []
    decreases |ports|
  {
    if ports != [] {
      OneKindLeft(ports[1..], pre, fam, name, v);
      KindsHead(ports);
    }
  }

  lemma {:induction false} KindsHead(ports: seq<PortGroup>)
    requires ports != []
    ensures HasIcmp(ports) <==> ports[0].proto == ICMP || HasIcmp(ports[1..])
    ensures NeedsMap(ports) <==> ports[0].proto != ICMP || NeedsMap(ports[1..])
  {
    assert forall i | 0 < i < |ports| :: ports[i] == ports[1..][i - 1];
    assert forall i | 0 <= i < |ports| - 1 :: ports[1..][i] == ports[i + 1];
  }

  /** The rule of the other kind than the first, which comes last. */
  function LastRule(ports: seq<PortGroup>, pre: seq<Expr>, fam: Family, name: SetName, v: Verdict): seq<Expr>
    requires ports != []
  {
    pre + if ports[0].proto == ICMP then PortExprs(fam, name) else IcmpExprs(v)
  }

  lemma {:induction false} BothKinds(ports: seq<PortGroup>, pre: seq<Expr>, fam: Family, name: SetName, v: Verdict)
    requires ports != []
    ensures var rules := PortRules(ports, pre, fam, name, v, false, false);
            if HasIcmp(ports) && NeedsMap(ports)
            then |rules| == 2 && rules[1] == LastRule(ports, pre, fam, name, v) && rules[0] != rules[1]
            else |rules| == 1
  {
    OneKindLeft(ports[1..], pre, fam, name, v);
    KindsHead(ports);
    assert (pre + IcmpExprs(v))[|pre|] != (pre + PortExprs(fam, name))[|pre|];
  }

  /** The slices hold the rules that were appended exactly if they are not overlaid. */
  lemma {:induction false} HeldIff(ports: seq<PortGroup>, pre: seq<Expr>, fam: Family, name: SetName, v: Verdict,
                                   room: int)
    ensures var rules := PortRules(ports, pre, fam, name, v, false, false);
            InMemory(rules, room >= 3) == rules <==> !Overlaid(ports, room)
  {
    if ports != [] {
      BothKinds(ports, pre, fam, name, v);
    }
  }

  /** The length and capacity of a slice once n elements are appended. */
  function Extended(size: (nat, nat), n: nat): (nat, nat) {
    (size.0 + n, if size.0 + n <= size.1 then size.1 else Grown(size.1, size.0 + n))
  }

  /** The room that the conditions of a group leave. */
  function Room(sg: SecurityGroup, iif: Name): int {
    var a := Extended((0, 0), if iif != [] && sg.dst.Prefix? then 2 else 0);
    var b := Extended(a, if sg.src.Prefix? then 3 else 0);
    var c := Extended(b, if sg.oifname != [] then 2 else 0);
    var d := Extended(c, if sg.dst.Prefix? then 3 else 0);
    d.1 - d.0
  }

  /** Conditions on source, outgoing interface and destination only, and ports of both kinds. */
  predicate Overwritten(sg: SecurityGroup, iif: Name) {
    iif == [] && sg.src.Prefix? && sg.oifname != [] && sg.dst.Prefix? && HasIcmp(sg.ports) && NeedsMap(sg.ports)
  }

  lemma {:induction false} OverwrittenIff(sg: SecurityGroup, iif: Name)
    ensures Overlaid(sg.ports, Room(sg, iif)) <==> Overwritten(sg, iif)
  {
  }

  method CompileConditions(sg: SecurityGroup, iif: Name, fam: Family) returns (pre: Slice)
    ensures Sound(pre) && fresh(pre.mem) && Contents(pre) == Conditions(sg, iif, fam)
    ensures pre.mem.Length - pre.len == Room(sg, iif)
  {
    var o := IpHeaderOffsets(fam);
    BlockSizes(sg, iif, fam);
    pre := AppendFour(IfBlock(iif != [] && sg.dst.Prefix?, IifName, iif), AddrBlock(fam, o.src, sg.src),
                      IfBlock(sg.oifname != [], OifName, sg.oifname), AddrBlock(fam, o.dst, sg.dst));
  }

  lemma {:induction false} BlockSizes(sg: SecurityGroup, iif: Name, fam: Family)
    ensures |IfBlock(iif != [] && sg.dst.Prefix?, IifName, iif)| == if iif != [] && sg.dst.Prefix? then 2 else 0
    ensures |AddrBlock(fam, IpHeaderOffsets(fam).src, sg.src)| == if sg.src.Prefix? then 3 else 0
    ensures |IfBlock(sg.oifname != [], OifName, sg.oifname)| == if sg.oifname != [] then 2 else 0
    ensures |AddrBlock(fam, IpHeaderOffsets(fam).dst, sg.dst)| == if sg.dst.Prefix? then 3 else 0
  {
  }

  /** The blocks of conditions, appended in turn to an empty slice. */
  method AppendFour(a: seq<Expr>, b: seq<Expr>, c: seq<Expr>, d: seq<Expr>) returns (pre: Slice)
    ensures Sound(pre) && fresh(pre.mem) && Contents(pre) == a + b + c + d
    ensures Size(pre) == Extended(Extended(Extended(Extended((0, 0), |a|), |b|), |c|), |d|)
  {
    var mem := new Expr[0];
    var start := Slice(mem, 0);
    EmptyConcat(a);
    var one := AppendBlock(start, a, [], (0, 0));
    var two := AppendBlock(one, b, a, Size(one));
    var three := AppendBlock(two, c, a + b, Size(two));
    pre := AppendBlock(three, d, a + b + c, Size(three));
  }

  ghost function Size(s: Slice): (nat, nat) {
    (s.len, s.mem.Length)
  }

  method AppendBlock(s: Slice, xs: seq<Expr>, ghost before: seq<Expr>, ghost size: (nat, nat)) returns (r: Slice)
    requires Sound(s) && Contents(s) == before && Size(s) == size
    modifies s.mem
    ensures Sound(r) && Contents(r) == before + xs && Size(r) == Extended(size, |xs|)
    ensures r.mem == s.mem || fresh(r.mem)
  {
    r := Append(s, xs);
  }

  /**
   The rules of a group as they stand in memory when they are saved: those of
   GroupRules, except that a group of the overwritten shape has its last rule twice.
   */
  method CompileGroup(sg: SecurityGroup, iif: Name, fam: Family) returns (slices: seq<Slice>)
    requires Applies(sg, fam)
    ensures Holding(slices, InMemory(GroupRules(sg, iif, fam), Overwritten(sg, iif)))
    ensures InMemory(GroupRules(sg, iif, fam), Overwritten(sg, iif)) == GroupRules(sg, iif, fam)
       <==> !Overwritten(sg, iif)
  {
    var pre := CompileConditions(sg, iif, fam);
    ghost var conditions := Contents(pre);
    var name, v := PortMap(Signature(sg, iif)), VerdictOf(sg);
    OverwrittenIff(sg, iif);
    if sg.ports == [] {
      var r := Append(pre, [Give(v)]);
      slices := [r];
    } else {
      slices := CompilePorts(sg.ports, pre, fam, name, v);
      BothKinds(sg.ports, conditions, fam, name, v);
      HeldIff(sg.ports, conditions, fam, name, v, Room(sg, iif));
    }
  }

  // ----- what becomes of an overwritten group

  /** It loses the rule of its first port group: its ICMP rule, or its port map. */
  lemma {:induction false} OverwrittenSays(sg: SecurityGroup, p: Packet, sets: Sets, m: map<Bits, Verdict>)
    requires ValidPacket(p) && ValidGroup(sg) && !Mixed(sg) && Overwritten(sg, []) && Applies(sg, p.fam)
    requires var name := PortMap(Signature(sg, [])); name in sets.vmaps && sets.vmaps[name] == m
    ensures EvalChain(InMemory(GroupRules(sg, [], p.fam), true), p, sets)
         == if !ConditionsHold(sg, [], p) then None
            else if sg.ports[0].proto == ICMP then MapSays(m, p)
            else IcmpSays(VerdictOf(sg), p)
  {
    var pre, name, v := Conditions(sg, [], p.fam), PortMap(Signature(sg, [])), VerdictOf(sg);
    var holds := ConditionsHold(sg, [], p);
    var last := LastRule(sg.ports, pre, p.fam, name, v);
    BothKinds(sg.ports, pre, p.fam, name, v);
    assert InMemory(GroupRules(sg, [], p.fam), true) == [last] + [last];
    TestsConditions(sg, [], p, sets, Zeros(REG_BITS));
    PortRule(pre, name, p, sets, holds);
    IcmpRule(pre, v, p, sets, holds);
    OneRule(last, [last], p, sets);
    OneRule(last, [], p, sets);
    ConcatEmpty([last]);
  }

  /** And the rule store then holds a rule that no count accounts for. */
  lemma {:induction false} OverwrittenBreaksCounts(st: Store, base: set<Id>, key: Key, sg: SecurityGroup, fam: Family,
                                                   at: Where)
    requires RuleCounts.Inv(st, base) && Overwritten(sg, []) && Applies(sg, fam)
    requires var specs := SpecsOf(InMemory(GroupRules(sg, [], fam), true), fam, TargetChain(sg, []));
             && AvoidsBase(st, base, specs) && forall s | s in specs :: Find(st.kernel, s).None?
    ensures var specs := SpecsOf(InMemory(GroupRules(sg, [], fam), true), fam, TargetChain(sg, []));
            Save(st, key, specs, at).Some? && !RuleCounts.Inv(Save(st, key, specs, at).value, base)
  {
    var rules, chain := InMemory(GroupRules(sg, [], fam), true), TargetChain(sg, []);
    var specs := SpecsOf(rules, fam, chain);
    BothKinds(sg.ports, Conditions(sg, [], fam), fam, PortMap(Signature(sg, [])), VerdictOf(sg));
    assert rules[1..] == [rules[0]];
    assert specs[1..] == SpecsOf(rules[1..], fam, chain) && specs[0] in specs[1..];
    assert Find(st.kernel, specs[0]).None?;
    SaveKeepsIff(st, base, key, specs, at);
  }
}
