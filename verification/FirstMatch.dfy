/** A chain with the rules of security groups decides as the first of its groups that decides. */
module FirstMatch {
  import opened Common
  import opened Bits
  import opened Nft
  import opened RuleStore
  import opened RuleCounts
  import opened Groups
  import opened GroupVerdicts
  import opened Router

  // ----- the rules of a group are proper: terminated, distinct, none of them a base rule

  function BaseIds(): set<Id> {
    {RuleId(V4, 1), RuleId(V4, 2), RuleId(V4, 3), RuleId(V6, 1), RuleId(V6, 2), RuleId(V6, 3)}
  }

  predicate IsBaseExprs(es: seq<Expr>) {
    es == CT_RULE || es == IF_RULE
  }

  lemma {:induction false} PlainConcat(a: seq<Expr>, b: seq<Expr>)
    requires (forall e | e in a :: !Terminal(e)) && forall e | e in b :: !Terminal(e)
    ensures forall e | e in a + b :: !Terminal(e)
  {
  }

  lemma {:induction false} ConditionsPlain(sg: SecurityGroup, iif: Name, fam: Family)
    ensures forall e | e in Conditions(sg, iif, fam) :: !Terminal(e)
  {
    var a := if iif != [] && sg.dst.Prefix? then IfExprs(IifName, iif) else [];
    var b := if sg.src.Prefix? then AddrExprs(fam, IpHeaderOffsets(fam).src, sg.src) else [];
    var c := if sg.oifname != [] then IfExprs(OifName, sg.oifname) else [];
    var d := if sg.dst.Prefix? then AddrExprs(fam, IpHeaderOffsets(fam).dst, sg.dst) else [];
    PlainConcat(a, b);
    PlainConcat(a + b, c);
    PlainConcat(a + b + c, d);
  }

  lemma {:induction false} TailTerminated(pre: seq<Expr>, mid: seq<Expr>, last: Expr)
    requires (forall e | e in pre :: !Terminal(e)) && (forall e | e in mid :: !Terminal(e)) && Terminal(last)
    ensures Terminated(pre + (mid + [last]))
  {
    var es := pre + (mid + [last]);
    forall i | 0 <= i < |es| - 1 ensures !Terminal(es[i]) {
      assert es[i] == if i < |pre| then pre[i] else mid[i - |pre|];
      assert i < |pre| ==> pre[i] in pre;
      assert i >= |pre| ==> mid[i - |pre|] in mid;
    }
    assert es[|es| - 1] == last;
  }

  /** The three kinds of rule a group compiles to. */
  predicate GroupShaped(es: seq<Expr>) {
    es != [] && (es[|es| - 1].Give? || (es[|es| - 1].LookupVerdict? && es[|es| - 1].name.PortMap?))
  }

  lemma {:induction false} ShapedNotBase(es: seq<Expr>)
    requires GroupShaped(es)
    ensures !IsBaseExprs(es)
  {
  }

  ghost predicate ProperRule(es: seq<Expr>) {
    Terminated(es) && GroupShaped(es)
  }

  lemma {:induction false} IcmpProper(pre: seq<Expr>, v: Verdict)
    requires forall e | e in pre :: !Terminal(e)
    ensures ProperRule(pre + IcmpExprs(v))
  {
    var mid := [Meta(L4Proto, 1), Cmp(1, Num(IPPROTO_ICMP, 8))];
    TailTerminated(pre, mid, Give(v));
    assert mid + [Give(v)] == IcmpExprs(v);
  }

  lemma {:induction false} PortProper(pre: seq<Expr>, fam: Family, name: SetName)
    requires (forall e | e in pre :: !Terminal(e)) && name.PortMap?
    ensures ProperRule(pre + PortExprs(fam, name))
  {
    var all := PortExprs(fam, name);
    TailTerminated(pre, all[..2], all[2]);
    assert all[..2] + [all[2]] == all;
  }

  lemma {:induction false} GiveProper(pre: seq<Expr>, v: Verdict)
    requires forall e | e in pre :: !Terminal(e)
    ensures ProperRule(pre + [Give(v)])
  {
    TailTerminated(pre, [], Give(v));
    assert [] + [Give(v)] == [Give(v)];
  }

  ghost predicate NoRepeats(rules: seq<seq<Expr>>) {
    forall i, j | 0 <= i < j < |rules| :: rules[i] != rules[j]
  }

  lemma {:induction false} NoRepeatsCons(head: seq<Expr>, rest: seq<seq<Expr>>)
    requires NoRepeats(rest) && head !in rest
    ensures NoRepeats([head] + rest)
  {
    var all := [head] + rest;
    assert forall i | 0 < i < |all| :: all[i] == rest[i - 1] && all[i] in rest;
  }

  /** The rules still to come once the guards are in the given state. */
  predicate ToCome(es: seq<Expr>, pre: seq<Expr>, fam: Family, name: SetName, v: Verdict, icmpDone: bool,
                   mapDone: bool) {
    (es == pre + IcmpExprs(v) && !icmpDone) || (es == pre + PortExprs(fam, name) && !mapDone)
  }

  lemma {:induction false} PortRulesProper(ports: seq<PortGroup>, pre: seq<Expr>, fam: Family, name: SetName,
                                           v: Verdict, icmpDone: bool, mapDone: bool)
    ensures var rules := PortRules(ports, pre, fam, name, v, icmpDone, mapDone);
            && (forall es | es in rules :: ToCome(es, pre, fam, name, v, icmpDone, mapDone))
            && NoRepeats(rules)
    decreases |ports|
  {
    if ports != [] {
      RulesDiffer(pre, fam, name, v);
      var icmp, other := icmpDone || ports[0].proto == ICMP, mapDone || ports[0].proto != ICMP;
      PortRulesProper(ports[1..], pre, fam, name, v, icmp, other);
      var rest := PortRules(ports[1..], pre, fam, name, v, icmp, other);
      var head := if ports[0].proto == ICMP then pre + IcmpExprs(v) else pre + PortExprs(fam, name);
      forall es | es in rest ensures es != head && ToCome(es, pre, fam, name, v, icmpDone, mapDone) {
        assert ToCome(es, pre, fam, name, v, icmp, other);
      }
      NoRepeatsCons(head, rest);
      var rules := PortRules(ports, pre, fam, name, v, icmpDone, mapDone);
      assert rules == rest || (rules == [head] + rest && ToCome(head, pre, fam, name, v, icmpDone, mapDone));
    }
  }

  lemma {:induction false} RulesDiffer(pre: seq<Expr>, fam: Family, name: SetName, v: Verdict)
    ensures pre + IcmpExprs(v) != pre + PortExprs(fam, name)
  {
    var a, b := pre + IcmpExprs(v), pre + PortExprs(fam, name);
    assert a[|pre| + 2] == Give(v) && b[|pre| + 2] == LookupVerdict(9, name);
  }

  lemma {:induction false} GroupRulesProper(sg: SecurityGroup, iif: Name, fam: Family)
    ensures var rules := GroupRules(sg, iif, fam);
            && (forall es | es in rules :: ProperRule(es))
            && NoRepeats(rules)
  {
    var pre := Conditions(sg, iif, fam);
    ConditionsPlain(sg, iif, fam);
    GiveProper(pre, VerdictOf(sg));
    IcmpProper(pre, VerdictOf(sg));
    PortProper(pre, fam, PortMap(Signature(sg, iif)));
    PortRulesProper(sg.ports, pre, fam, PortMap(Signature(sg, iif)), VerdictOf(sg), false, false);
    forall es | es in GroupRules(sg, iif, fam) ensures ProperRule(es) {
      assert sg.ports != [] ==> ToCome(es, pre, fam, PortMap(Signature(sg, iif)), VerdictOf(sg), false, false);
    }
  }

  lemma {:induction false} SpecsOfFacts(rules: seq<seq<Expr>>, fam: Family, chain: Chain)
    ensures var specs := SpecsOf(rules, fam, chain);
            |specs| == |rules| && forall i | 0 <= i < |rules| :: specs[i] == RuleSpec(fam, chain, rules[i])
    decreases |rules|
  {
    if rules != [] {
      SpecsOfFacts(rules[1..], fam, chain);
    }
  }

  lemma {:induction false} FamilyProper(sg: SecurityGroup, iif: Name, fam: Family)
    ensures var specs := SpecsOf(GroupRules(sg, iif, fam), fam, TargetChain(sg, iif));
            && Distinct(specs)
            && forall s | s in specs :: s.fam == fam && s.chain == TargetChain(sg, iif) && ProperRule(s.exprs)
  {
    var rules := GroupRules(sg, iif, fam);
    var specs := SpecsOf(rules, fam, TargetChain(sg, iif));
    SpecsOfFacts(rules, fam, TargetChain(sg, iif));
    GroupRulesProper(sg, iif, fam);
    forall s | s in specs ensures s.fam == fam && s.chain == TargetChain(sg, iif) && ProperRule(s.exprs) {
      var i :| 0 <= i < |specs| && specs[i] == s;
      assert rules[i] in rules;
    }
  }

  /** A group's batch: distinct rules of one chain, each with its verdict at the end and none of them a base rule. */
  lemma {:induction false} GroupSpecsProper(sg: SecurityGroup, iif: Name)
    ensures Distinct(GroupSpecs(sg, iif))
    ensures forall s | s in GroupSpecs(sg, iif) :: s.chain == TargetChain(sg, iif) && ProperRule(s.exprs)
  {
    var chain := TargetChain(sg, iif);
    var a, b := SpecsOf(GroupRules(sg, iif, V4), V4, chain), SpecsOf(GroupRules(sg, iif, V6), V6, chain);
    FamilyProper(sg, iif, V4);
    FamilyProper(sg, iif, V6);
    DistinctConcat(a, b);
    forall s: RuleSpec | s in a + b ensures s.chain == chain && ProperRule(s.exprs) {
      InEither(a, b, s);
    }
  }

  lemma {:induction false} BatchConcat(a: seq<RuleSpec>, b: seq<RuleSpec>, fam: Family, chain: Chain)
    ensures BatchExprs(a + b, fam, chain) == BatchExprs(a, fam, chain) + BatchExprs(b, fam, chain)
    decreases |a|
  {
    if a == [] {
      assert a + b == b;
    } else {
      assert (a + b)[1..] == a[1..] + b;
      BatchConcat(a[1..], b, fam, chain);
    }
  }

  lemma {:induction false} BatchOfSpecs(rules: seq<seq<Expr>>, fam: Family, chain: Chain, fam': Family, chain': Chain)
    ensures BatchExprs(SpecsOf(rules, fam, chain), fam', chain') == if fam == fam' && chain == chain' then rules else []
    decreases |rules|
  {
    if rules != [] {
      BatchOfSpecs(rules[1..], fam, chain, fam', chain');
      var rest := SpecsOf(rules[1..], fam, chain);
      assert ([RuleSpec(fam, chain, rules[0])] + rest)[1..] == rest;
      assert rules == [rules[0]] + rules[1..];
    }
  }

  lemma {:induction false} GroupBatch(sg: SecurityGroup, iif: Name, fam: Family, chain: Chain)
    ensures BatchExprs(GroupSpecs(sg, iif), fam, chain)
         == if chain == TargetChain(sg, iif) then GroupRules(sg, iif, fam) else []
  {
    var c := TargetChain(sg, iif);
    BatchConcat(SpecsOf(GroupRules(sg, iif, V4), V4, c), SpecsOf(GroupRules(sg, iif, V6), V6, c), fam, chain);
    BatchOfSpecs(GroupRules(sg, iif, V4), V4, c, fam, chain);
    BatchOfSpecs(GroupRules(sg, iif, V6), V6, c, fam, chain);
    assert fam == V4 || fam == V6;
  }

  // ----- what every group keeps

  function CtId(fam: Family): Id {
    RuleId(fam, 3)
  }

  /** The state between groups. */
  ghost predicate Ready(r: Router) {
    && RuleCounts.Inv(r.store, BaseIds())
    && (forall x | x in r.store.kernel && x.Id() in BaseIds() :: IsBaseExprs(x.spec.exprs))
    && r.ctHandles == map[V4 := 3, V6 := 3]
    && (forall fam: Family :: ForwardShape(r.store.kernel, fam, CtId(fam)) && NextHandle(r.store, fam) > 3)
    && (forall fam: Family :: [CT_RULE, IF_RULE] <= ChainExprs(r.store.kernel, fam, Input))
  }

  /** The rules that groups have added to a chain. */
  function Added(r: Router, fam: Family, chain: Chain): seq<seq<Expr>> {
    match chain
    case Forward => ExprsBefore(r.store.kernel, CtId(fam), fam, Forward)
    case Input =>
      var all := ChainExprs(r.store.kernel, fam, Input);
      if |all| >= 2 then all[2..] else []
    case _ => ChainExprs(r.store.kernel, fam, chain)
  }

  lemma {:induction false} AddedForward(r: Router, fam: Family, es: seq<Expr>)
    requires Ready(r) && es in ChainExprs(r.store.kernel, fam, Forward)
    ensures es in Added(r, fam, Forward) || es == CT_RULE
  {
    BeforeAndFrom(r.store.kernel, CtId(fam), fam, Forward);
    assert ForwardShape(r.store.kernel, fam, CtId(fam));
  }

  lemma {:induction false} InputParts(r: Router, fam: Family)
    requires Ready(r)
    ensures ChainExprs(r.store.kernel, fam, Input) == [CT_RULE, IF_RULE] + Added(r, fam, Input)
  {
    PrefixAndRest([CT_RULE, IF_RULE], ChainExprs(r.store.kernel, fam, Input));
  }

  lemma {:induction false} AddedOrBase(r: Router, fam: Family, chain: Chain, es: seq<Expr>)
    requires Ready(r) && es in ChainExprs(r.store.kernel, fam, chain)
    ensures es in Added(r, fam, chain) || IsBaseExprs(es)
  {
    if chain == Forward {
      AddedForward(r, fam, es);
    } else if chain == Input {
      InputParts(r, fam);
      InEither([CT_RULE, IF_RULE], Added(r, fam, Input), es);
      BaseOf(CT_RULE, IF_RULE, es);
    }
  }

  lemma {:induction false} BaseOf(ct: seq<Expr>, ifs: seq<Expr>, es: seq<Expr>)
    ensures es in [ct, ifs] <==> es == ct || es == ifs
  {
  }

  /** A rule found installed was added by a group. */
  lemma {:induction false} FoundAdded(r: Router, sg: SecurityGroup, iif: Name, s: RuleSpec)
    requires Ready(r) && s in GroupSpecs(sg, iif) && Find(r.store.kernel, s).Some?
    ensures s.exprs in Added(r, s.fam, s.chain)
  {
    FoundIff(r.store.kernel, s);
    GroupSpecsProper(sg, iif);
    ShapedNotBase(s.exprs);
    AddedOrBase(r, s.fam, s.chain, s.exprs);
  }

  lemma {:induction false} SavesProperly(r: Router, sg: SecurityGroup, iif: Name)
    requires Ready(r)
    ensures AvoidsBase(r.store, BaseIds(), GroupSpecs(sg, iif))
    ensures NoFreshDuplicates(r.store.kernel, GroupSpecs(sg, iif))
  {
    GroupSpecsProper(sg, iif);
    DistinctIsEnough(r.store.kernel, GroupSpecs(sg, iif));
    forall x | x in r.store.kernel && x.Id() in BaseIds() ensures x.spec !in GroupSpecs(sg, iif) {
      if x.spec in GroupSpecs(sg, iif) {
        ShapedNotBase(x.spec.exprs);
      }
    }
  }

  /** ApplyGroup's store is a successful save. */
  lemma {:induction false} ApplySaves(r: Router, sg: SecurityGroup, iif: Name)
    requires Ready(r) && !Mixed(sg) && |iif| < 16
    ensures var r' := ApplyGroup(r, sg, iif);
            && Save(r.store, SgKey(sg, iif), GroupSpecs(sg, iif), Position(r, sg)) == Some(r'.store)
            && r'.store.kernel == Install(r.store, r.store.kernel, GroupSpecs(sg, iif), Position(r, sg)).kernel
            && r'.store.next == Install(r.store, r.store.kernel, GroupSpecs(sg, iif), Position(r, sg)).next
            && RuleCounts.Inv(r'.store, BaseIds()) && r'.ctHandles == r.ctHandles
  {
    var key, specs, at := SgKey(sg, iif), GroupSpecs(sg, iif), Position(r, sg);
    SavesProperly(r, sg, iif);
    SaveKeeps(r.store, BaseIds(), key, specs, at);
    var st1, refs, rules := SaveResult(r.store, BaseIds(), key, specs, at);
    ApplyStore(r, sg, iif, Save(r.store, key, specs, at).value);
  }

  /** Binding interfaces and ports leaves the store alone. */
  lemma {:induction false} ApplyStore(r: Router, sg: SecurityGroup, iif: Name, saved: Store)
    requires !Mixed(sg) && |iif| < 16
    requires Save(r.store, SgKey(sg, iif), GroupSpecs(sg, iif), Position(r, sg)) == Some(saved)
    ensures ApplyGroup(r, sg, iif).store == saved && ApplyGroup(r, sg, iif).ctHandles == r.ctHandles
  {
    var r1 := if iif != [] && sg.dst.NoPrefix? then WithJump(r, iif) else r;
    assert r1.store == r.store && r1.ctHandles == r.ctHandles;
    PortsStore(r1, sg, iif, V4);
    var r2 := WithPorts(r1, sg, iif, V4);
    PortsStore(r2, sg, iif, V6);
    SavedStore(r, WithPorts(r2, sg, iif, V6), sg, iif, saved);
  }

  lemma {:induction false} PortsStore(r: Router, sg: SecurityGroup, iif: Name, fam: Family)
    ensures WithPorts(r, sg, iif, fam).store == r.store && WithPorts(r, sg, iif, fam).ctHandles == r.ctHandles
  {
  }

  lemma {:induction false} SavedStore(r: Router, bound: Router, sg: SecurityGroup, iif: Name, saved: Store)
    requires bound.store == r.store && bound.ctHandles == r.ctHandles
    requires Save(r.store, SgKey(sg, iif), GroupSpecs(sg, iif), Position(r, sg)) == Some(saved)
    ensures Save(bound.store, SgKey(sg, iif), GroupSpecs(sg, iif), Position(bound, sg)) == Some(saved)
  {
  }

  lemma {:induction false} PositionFits(r: Router, sg: SecurityGroup, iif: Name, fam: Family, chain: Chain)
    requires Ready(r)
    ensures forall s | s in GroupSpecs(sg, iif) && s.chain == Forward :: BeforeCt(Position(r, sg), CtId(fam))
    ensures chain != Forward ==> Position(r, sg) == Append || forall s | s in GroupSpecs(sg, iif) :: s.chain != chain
  {
    GroupSpecsProper(sg, iif);
    if sg.dst.Prefix? {
      CtPosition(r, fam);
    } else {
      assert TargetChain(sg, iif) != Forward;
    }
  }

  lemma {:induction false} CtPosition(r: Router, fam: Family)
    requires r.ctHandles == map[V4 := 3, V6 := 3]
    ensures BeforeCt(Before(r.ctHandles), CtId(fam))
  {
  }

  /** A group adds, to its target chain, those of its rules that are not there yet. */
  lemma {:induction false} ApplyAdds(r: Router, sg: SecurityGroup, iif: Name, fam: Family, chain: Chain)
    requires Ready(r) && !Mixed(sg) && |iif| < 16
    ensures var r' := ApplyGroup(r, sg, iif);
            && Added(r', fam, chain)
               == Added(r, fam, chain) + FreshExprs(GroupSpecs(sg, iif), r.store.kernel, fam, chain)
            && (chain == Input ==> [CT_RULE, IF_RULE] <= ChainExprs(r'.store.kernel, fam, Input))
            && (chain == Forward ==> ForwardShape(r'.store.kernel, fam, CtId(fam)) && NextHandle(r'.store, fam) > 3)
  {
    var r' := ApplyGroup(r, sg, iif);
    ApplySaves(r, sg, iif);
    PositionFits(r, sg, iif, fam, chain);
    if chain == Forward {
      assert ForwardShape(r.store.kernel, fam, CtId(fam));
      ForwardAdds(r, r', GroupSpecs(sg, iif), Position(r, sg), fam);
    } else {
      AppendAdds(r, r', GroupSpecs(sg, iif), Position(r, sg), fam, chain);
    }
  }

  lemma {:induction false} ForwardAdds(r: Router, r': Router, specs: seq<RuleSpec>, at: Where, fam: Family)
    requires ForwardShape(r.store.kernel, fam, CtId(fam)) && NextHandle(r.store, fam) > 3
    requires forall s | s in specs && s.chain == Forward :: BeforeCt(at, CtId(fam))
    requires var st := Install(r.store, r.store.kernel, specs, at);
             r'.store.kernel == st.kernel && r'.store.next == st.next
    ensures Added(r', fam, Forward) == Added(r, fam, Forward) + FreshExprs(specs, r.store.kernel, fam, Forward)
    ensures ForwardShape(r'.store.kernel, fam, CtId(fam)) && NextHandle(r'.store, fam) > 3
  {
    InstallForward(r.store, r.store.kernel, specs, at, fam, CtId(fam));
  }

  lemma {:induction false} AppendAdds(r: Router, r': Router, specs: seq<RuleSpec>, at: Where, fam: Family, chain: Chain)
    requires Ready(r) && chain != Forward && (at == Append || forall s | s in specs :: s.chain != chain)
    requires r'.store.kernel == Install(r.store, r.store.kernel, specs, at).kernel
    ensures Added(r', fam, chain) == Added(r, fam, chain) + FreshExprs(specs, r.store.kernel, fam, chain)
    ensures chain == Input ==> [CT_RULE, IF_RULE] <= ChainExprs(r'.store.kernel, fam, Input)
  {
    InstallAppended(r.store, r.store.kernel, specs, at, fam, chain);
    if chain == Input {
      InputParts(r, fam);
      InputTail(Added(r, fam, Input), FreshExprs(specs, r.store.kernel, fam, Input));
    }
  }

  lemma {:induction false} InputTail(a: seq<seq<Expr>>, b: seq<seq<Expr>>)
    ensures var all := [CT_RULE, IF_RULE] + a + b; [CT_RULE, IF_RULE] <= all && all[2..] == a + b
  {
  }

  lemma {:induction false} ApplyReady(r: Router, sg: SecurityGroup, iif: Name)
    requires Ready(r) && |iif| < 16
    ensures Ready(ApplyGroup(r, sg, iif))
  {
    if !Mixed(sg) {
      var r' := ApplyGroup(r, sg, iif);
      ApplySaves(r, sg, iif);
      forall fam: Family
        ensures ForwardShape(r'.store.kernel, fam, CtId(fam)) && NextHandle(r'.store, fam) > 3
        ensures [CT_RULE, IF_RULE] <= ChainExprs(r'.store.kernel, fam, Input)
      {
        ApplyAdds(r, sg, iif, fam, Forward);
        ApplyAdds(r, sg, iif, fam, Input);
      }
      BaseUnchanged(r, sg, iif);
    }
  }

  lemma {:induction false} BaseUnchanged(r: Router, sg: SecurityGroup, iif: Name)
    requires Ready(r) && !Mixed(sg) && |iif| < 16
    ensures forall x | x in ApplyGroup(r, sg, iif).store.kernel && x.Id() in BaseIds() :: IsBaseExprs(x.spec.exprs)
  {
    ApplySaves(r, sg, iif);
    var r' := ApplyGroup(r, sg, iif);
    InstallFacts(r.store, r.store.kernel, GroupSpecs(sg, iif), Position(r, sg), {});
    forall x | x in r'.store.kernel && x.Id() in BaseIds() ensures IsBaseExprs(x.spec.exprs) {
      assert x.Id() in Ids(r.store.kernel);
      var y :| y in r.store.kernel && y.Id() == x.Id();
      SameId(r'.store.kernel, x, y);
    }
  }

  /** What a group contributes to a chain. */
  function Contribution(sg: SecurityGroup, iif: Name, chain: Chain, p: Packet, sets: Sets): Option<Verdict>
    requires ValidPacket(p)
  {
    if !Mixed(sg) && chain == TargetChain(sg, iif) then EvalChain(GroupRules(sg, iif, p.fam), p, sets) else None
  }

  /** Evaluating a chain after a group is added: what was there first, then the group. */
  lemma {:induction false} ApplyEvaluates(r: Router, sg: SecurityGroup, iif: Name, chain: Chain, p: Packet, sets: Sets)
    requires Ready(r) && |iif| < 16 && ValidPacket(p)
    ensures EvalChain(Added(ApplyGroup(r, sg, iif), p.fam, chain), p, sets)
         == First(EvalChain(Added(r, p.fam, chain), p, sets), Contribution(sg, iif, chain, p, sets))
  {
    if !Mixed(sg) {
      var specs := GroupSpecs(sg, iif);
      var have := Added(r, p.fam, chain);
      ApplyAdds(r, sg, iif, p.fam, chain);
      forall s | s in specs && s.fam == p.fam && s.chain == chain && Find(r.store.kernel, s).Some?
        ensures s.exprs in have
      {
        FoundAdded(r, sg, iif, s);
      }
      SharedRules(have, specs, r.store.kernel, p.fam, chain, p, sets);
      GroupBatch(sg, iif, p.fam, chain);
      ChainConcat(have, BatchExprs(specs, p.fam, chain), p, sets);
    }
  }

  /** The groups of a chain, one after the other. */
  function EvalGroups(sgs: seq<SecurityGroup>, iif: Name, chain: Chain, p: Packet, sets: Sets): Option<Verdict>
    requires ValidPacket(p)
    decreases |sgs|
  {
    if sgs == [] then None
    else First(Contribution(sgs[0], iif, chain, p, sets), EvalGroups(sgs[1..], iif, chain, p, sets))
  }

  lemma {:induction false} SetReady(r: Router, sgs: seq<SecurityGroup>, iif: Name)
    requires Ready(r) && |iif| < 16
    ensures Ready(ApplyAll(r, sgs, iif))
    decreases |sgs|
  {
    if sgs != [] {
      ApplyReady(r, sgs[0], iif);
      SetReady(ApplyGroup(r, sgs[0], iif), sgs[1..], iif);
    }
  }

  lemma {:induction false} FirstAssoc(a: Option<Verdict>, b: Option<Verdict>, c: Option<Verdict>)
    ensures First(First(a, b), c) == First(a, First(b, c))
  {
  }

  lemma {:induction false} ChainsAreGroups(r: Router, sgs: seq<SecurityGroup>, iif: Name, chain: Chain, p: Packet,
                                           sets: Sets)
    requires Ready(r) && |iif| < 16 && ValidPacket(p)
    ensures EvalChain(Added(ApplyAll(r, sgs, iif), p.fam, chain), p, sets)
         == First(EvalChain(Added(r, p.fam, chain), p, sets), EvalGroups(sgs, iif, chain, p, sets))
    decreases |sgs|
  {
    if sgs != [] {
      var r1 := ApplyGroup(r, sgs[0], iif);
      ApplyReady(r, sgs[0], iif);
      ApplyEvaluates(r, sgs[0], iif, chain, p, sets);
      ChainsAreGroups(r1, sgs[1..], iif, chain, p, sets);
      FirstAssoc(EvalChain(Added(r, p.fam, chain), p, sets), Contribution(sgs[0], iif, chain, p, sets),
                 EvalGroups(sgs[1..], iif, chain, p, sets));
    }
  }
}
