/**
 The router: its base chains and maps, what a security group adds to them, and
 where the rules of a group end up among those of other groups.
 */
module Router {
  import opened Common
  import opened Bits
  import opened Nft
  import opened RuleStore
  import opened RuleCounts
  import opened Groups
  import opened GroupVerdicts

  datatype Router = Router(store: Store, tables: map<Family, Sets>, ctHandles: map<Family, nat>)

  const LO: Name := [108, 111]

  // ----- a new router

  const CT_RULE: seq<Expr> := [CtState(1), LookupVerdict(1, CtStates)]
  const IF_RULE: seq<Expr> := [Meta(IifName, 1), LookupVerdict(1, InboundIfNames)]

  function BaseRules(fam: Family): seq<Rule> {
    [Rule(RuleSpec(fam, Input, CT_RULE), 1), Rule(RuleSpec(fam, Input, IF_RULE), 2),
     Rule(RuleSpec(fam, Forward, CT_RULE), 3)]
  }

  /** The connection states of the ctstate map, as 32-bit masks: invalid 1, established 2, related 4. */
  function CtMap(): map<Bits, Verdict> {
    map[Num(1, 32) := Drop, Num(2, 32) := Accept, Num(4, 32) := Accept]
  }

  function BaseSets(): Sets {
    Sets(map[DenyList := {}, AllowList := {}],
         map[CtStates := CtMap(), InboundIfNames := map[Padded(LO, 16) := Accept]])
  }

  function NewRouter(): Router {
    Router(Store(BaseRules(V4) + BaseRules(V6), map[V4 := 4, V6 := 4], map[], map[]),
           map[V4 := BaseSets(), V6 := BaseSets()], map[V4 := 3, V6 := 3])
  }

  function Table(r: Router, fam: Family): Sets {
    if fam in r.tables then r.tables[fam] else BaseSets()
  }

  // ----- SetSecurityGroups

  function WithVmap(r: Router, fam: Family, name: SetName, m: map<Bits, Verdict>): Router {
    var t := Table(r, fam);
    r.(tables := r.tables[fam := t.(vmaps := t.vmaps[name := m])])
  }

  function Vmap(r: Router, fam: Family, name: SetName): map<Bits, Verdict> {
    if name in Table(r, fam).vmaps then Table(r, fam).vmaps[name] else map[]
  }

  /** getInboundChain: packets of the interface jump to its own chain. */
  function WithJump(r: Router, iif: Name): Router
    requires |iif| < 16
  {
    var r1 := WithVmap(r, V4, InboundIfNames, Vmap(r, V4, InboundIfNames)[Padded(iif, 16) := Jump(Inbound(iif))]);
    WithVmap(r1, V6, InboundIfNames, Vmap(r1, V6, InboundIfNames)[Padded(iif, 16) := Jump(Inbound(iif))])
  }

  function WithPorts(r: Router, sg: SecurityGroup, iif: Name, fam: Family): Router {
    if Applies(sg, fam) && NeedsMap(sg.ports) then
      var name := PortMap(Signature(sg, iif));
      WithVmap(r, fam, name, AddPorts(Vmap(r, fam, name), sg.ports, VerdictOf(sg)))
    else r
  }

  function SpecsOf(rules: seq<seq<Expr>>, fam: Family, chain: Chain): seq<RuleSpec> {
    if rules == [] then [] else [RuleSpec(fam, chain, rules[0])] + SpecsOf(rules[1..], fam, chain)
  }

  function GroupSpecs(sg: SecurityGroup, iif: Name): seq<RuleSpec> {
    SpecsOf(GroupRules(sg, iif, V4), V4, TargetChain(sg, iif))
      + SpecsOf(GroupRules(sg, iif, V6), V6, TargetChain(sg, iif))
  }

  function Position(r: Router, sg: SecurityGroup): Where {
    if sg.dst.Prefix? then Before(r.ctHandles) else Append
  }

  /**
   One pass of the loop over groups whose batch the kernel takes. A save finds every
   rule it has installed (FirstMatch.ApplySaves), so None leaves the store alone.
   */
  function ApplyGroup(r: Router, sg: SecurityGroup, iif: Name): Router
    requires |iif| < 16
  {
    if Mixed(sg) then r
    else
      var r1 := if iif != [] && sg.dst.NoPrefix? then WithJump(r, iif) else r;
      var r2 := WithPorts(WithPorts(r1, sg, iif, V4), sg, iif, V6);
      match Save(r2.store, SgKey(sg, iif), GroupSpecs(sg, iif), Position(r2, sg))
      case Some(store) => r2.(store := store)
      case None => r2
  }

  /** All groups, one after the other. */
  function ApplyAll(r: Router, sgs: seq<SecurityGroup>, iif: Name): Router
    requires |iif| < 16
    decreases |sgs|
  {
    if sgs == [] then r else ApplyAll(ApplyGroup(r, sgs[0], iif), sgs[1..], iif)
  }

  // ----- the kernel's refusals

  /** Whether some key of a map would get another verdict. */
  predicate Replaces(m: map<Bits, Verdict>, m': map<Bits, Verdict>) {
    exists k | k in m :: k in m' && m'[k] != m[k]
  }

  predicate JumpRefused(r: Router, iif: Name)
    requires |iif| < 16
  {
    var r' := WithJump(r, iif);
    || Replaces(Vmap(r, V4, InboundIfNames), Vmap(r', V4, InboundIfNames))
    || Replaces(Vmap(r, V6, InboundIfNames), Vmap(r', V6, InboundIfNames))
  }

  predicate PortsRefused(r: Router, sg: SecurityGroup, iif: Name, fam: Family) {
    var m := Vmap(r, fam, PortMap(Signature(sg, iif)));
    Applies(sg, fam) && NeedsMap(sg.ports) && Replaces(m, AddPorts(m, sg.ports, VerdictOf(sg)))
  }

  /** The kernel refuses a batch, as a whole, that adds a key which has another verdict. */
  predicate Refused(r: Router, sg: SecurityGroup, iif: Name)
    requires |iif| < 16
  {
    && !Mixed(sg)
    && (|| (iif != [] && sg.dst.NoPrefix? && JumpRefused(r, iif))
        || PortsRefused(r, sg, iif, V4) || PortsRefused(r, sg, iif, V6))
  }

  /** The router, and whether no error is returned. */
  datatype Configured = Configured(router: Router, ok: bool)

  /** A refused flush ends the loop with its error; the groups before it stay. */
  function SetSecurityGroups(r: Router, sgs: seq<SecurityGroup>, iif: Name): Configured
    requires |iif| < 16
    decreases |sgs|
  {
    if sgs == [] then Configured(r, true)
    else if Refused(r, sgs[0], iif) then Configured(r, false)
    else SetSecurityGroups(ApplyGroup(r, sgs[0], iif), sgs[1..], iif)
  }

  // ----- chains

  /** The expressions of a chain's rules, in order. */
  function ChainExprs(kernel: seq<Rule>, fam: Family, chain: Chain): seq<seq<Expr>> {
    if kernel == [] then []
    else (if kernel[0].spec.fam == fam && kernel[0].spec.chain == chain then [kernel[0].spec.exprs] else [])
         + ChainExprs(kernel[1..], fam, chain)
  }

  /** Those located before the rule with the id. */
  function ExprsBefore(kernel: seq<Rule>, id: Id, fam: Family, chain: Chain): seq<seq<Expr>> {
    ChainExprs(kernel[..IndexOf(kernel, id)], fam, chain)
  }

  function ExprsFrom(kernel: seq<Rule>, id: Id, fam: Family, chain: Chain): seq<seq<Expr>> {
    ChainExprs(kernel[IndexOf(kernel, id)..], fam, chain)
  }

  lemma {:induction false} ChainExprsConcat(a: seq<Rule>, b: seq<Rule>, fam: Family, chain: Chain)
    ensures ChainExprs(a + b, fam, chain) == ChainExprs(a, fam, chain) + ChainExprs(b, fam, chain)
    decreases |a|
  {
    if a == [] {
      assert a + b == b;
    } else {
      ConcatTail(a, b);
      ChainExprsConcat(a[1..], b, fam, chain);
      var own := if a[0].spec.fam == fam && a[0].spec.chain == chain then [a[0].spec.exprs] else [];
      ConcatAssoc(own, ChainExprs(a[1..], fam, chain), ChainExprs(b, fam, chain));
    }
  }

  lemma {:induction false} ChainExprsOne(r: Rule, fam: Family, chain: Chain)
    ensures ChainExprs([r], fam, chain) == if r.spec.fam == fam && r.spec.chain == chain then [r.spec.exprs] else []
  {
    assert ChainExprs([r][1..], fam, chain) == [];
  }

  lemma {:induction false} BeforeAndFrom(kernel: seq<Rule>, id: Id, fam: Family, chain: Chain)
    ensures ChainExprs(kernel, fam, chain) == ExprsBefore(kernel, id, fam, chain) + ExprsFrom(kernel, id, fam, chain)
  {
    var i := IndexOf(kernel, id);
    assert kernel == kernel[..i] + kernel[i..];
    ChainExprsConcat(kernel[..i], kernel[i..], fam, chain);
  }

  lemma {:induction false} FoundIff(kernel: seq<Rule>, spec: RuleSpec)
    ensures Find(kernel, spec).Some? <==> spec.exprs in ChainExprs(kernel, spec.fam, spec.chain)
    decreases |kernel|
  {
    if kernel != [] {
      FoundIff(kernel[1..], spec);
    }
  }

  /** Inserting a rule at n inserts its expressions among those of its chain and leaves the other chains alone. */
  lemma {:induction false} InsertedExprs(kernel: seq<Rule>, r: Rule, n: nat, fam: Family, chain: Chain)
    requires n <= |kernel|
    ensures ChainExprs(kernel[..n] + [r] + kernel[n..], fam, chain)
         == ChainExprs(kernel[..n], fam, chain)
          + (if r.spec.fam == fam && r.spec.chain == chain then [r.spec.exprs] else [])
          + ChainExprs(kernel[n..], fam, chain)
    ensures ChainExprs(kernel, fam, chain) == ChainExprs(kernel[..n], fam, chain) + ChainExprs(kernel[n..], fam, chain)
  {
    ChainExprsConcat(kernel[..n] + [r], kernel[n..], fam, chain);
    ChainExprsConcat(kernel[..n], [r], fam, chain);
    ChainExprsOne(r, fam, chain);
    ChainExprsConcat(kernel[..n], kernel[n..], fam, chain);
    assert kernel == kernel[..n] + kernel[n..];
  }

  lemma {:induction false} PlacedElsewhere(kernel: seq<Rule>, r: Rule, at: Where, fam: Family, chain: Chain)
    requires !(r.spec.fam == fam && r.spec.chain == chain)
    ensures ChainExprs(Placed(kernel, r, at), fam, chain) == ChainExprs(kernel, fam, chain)
  {
    PlacedFacts(kernel, r, at);
    var n :| 0 <= n <= |kernel| && Placed(kernel, r, at) == kernel[..n] + [r] + kernel[n..];
    InsertedExprs(kernel, r, n, fam, chain);
  }

  lemma {:induction false} PlacedAtEnd(kernel: seq<Rule>, r: Rule, fam: Family, chain: Chain)
    requires r.spec.fam == fam && r.spec.chain == chain
    ensures ChainExprs(Placed(kernel, r, Append), fam, chain) == ChainExprs(kernel, fam, chain) + [r.spec.exprs]
  {
    ChainExprsConcat(kernel, [r], fam, chain);
    ChainExprsOne(r, fam, chain);
  }

  lemma {:induction false} IndexAfterInsert(kernel: seq<Rule>, r: Rule, n: nat, id: Id)
    requires n <= |kernel| && r.Id() != id
    ensures IndexOf(kernel[..n] + [r] + kernel[n..], id)
         == IndexOf(kernel, id) + if n <= IndexOf(kernel, id) then 1 else 0
    decreases |kernel|
  {
    var k := kernel[..n] + [r] + kernel[n..];
    if n == 0 {
      assert k[1..] == kernel;
    } else if kernel[0].Id() == id {
      assert k[0] == kernel[0];
    } else {
      IndexAfterInsert(kernel[1..], r, n - 1, id);
      assert k[0] == kernel[0];
      assert k[1..] == kernel[1..][..n - 1] + [r] + kernel[1..][n - 1..];
    }
  }

  /** The forward chain ends with the connection-state rule. */
  ghost predicate ForwardShape(kernel: seq<Rule>, fam: Family, id: Id) {
    IndexOf(kernel, id) < |kernel| && ExprsFrom(kernel, id, fam, Forward) == [CT_RULE]
  }

  /** A rule placed before the connection-state rule of a family, seen from a family. */
  lemma {:induction false} InsertedForward(kernel: seq<Rule>, r: Rule, n: nat, fam: Family, id: Id)
    requires ForwardShape(kernel, fam, id) && n <= |kernel| && r.Id() != id
    requires r.spec.fam == fam && r.spec.chain == Forward ==> n == IndexOf(kernel, id)
    ensures var k := kernel[..n] + [r] + kernel[n..];
            && ForwardShape(k, fam, id)
            && ExprsBefore(k, id, fam, Forward)
               == ExprsBefore(kernel, id, fam, Forward)
                + if r.spec.fam == fam && r.spec.chain == Forward then [r.spec.exprs] else []
  {
    if n <= IndexOf(kernel, id) {
      InsertedBefore(kernel, r, n, fam, id);
    } else {
      InsertedAfter(kernel, r, n, fam, id);
    }
  }

  lemma {:induction false} InsertedBefore(kernel: seq<Rule>, r: Rule, n: nat, fam: Family, id: Id)
    requires n <= IndexOf(kernel, id) < |kernel| && r.Id() != id
    requires r.spec.fam == fam && r.spec.chain == Forward ==> n == IndexOf(kernel, id)
    ensures var k := kernel[..n] + [r] + kernel[n..];
            && IndexOf(k, id) < |k| && ExprsFrom(k, id, fam, Forward) == ExprsFrom(kernel, id, fam, Forward)
            && ExprsBefore(k, id, fam, Forward)
               == ExprsBefore(kernel, id, fam, Forward)
                + if r.spec.fam == fam && r.spec.chain == Forward then [r.spec.exprs] else []
  {
    var k := kernel[..n] + [r] + kernel[n..];
    var i := IndexOf(kernel, id);
    IndexAfterInsert(kernel, r, n, id);
    var before := kernel[..i];
    SplitAfterInsert(kernel, r, n, i);
    InsertedExprs(before, r, n, fam, Forward);
    var x, y := ChainExprs(before[..n], fam, Forward), ChainExprs(before[n..], fam, Forward);
    if r.spec.fam == fam && r.spec.chain == Forward {
      assert before[n..] == [] && y == [];
      assert x + [r.spec.exprs] + y == x + y + [r.spec.exprs];
    } else {
      assert x + [] + y == x + y == x + y + [];
    }
  }

  lemma {:induction false} SplitAfterInsert(kernel: seq<Rule>, r: Rule, n: nat, i: nat)
    requires n <= i <= |kernel|
    ensures var k := kernel[..n] + [r] + kernel[n..];
            k[..i + 1] == kernel[..i][..n] + [r] + kernel[..i][n..] && k[i + 1..] == kernel[i..]
  {
  }

  lemma {:induction false} InsertedAfter(kernel: seq<Rule>, r: Rule, n: nat, fam: Family, id: Id)
    requires IndexOf(kernel, id) < n <= |kernel| && r.Id() != id
    requires !(r.spec.fam == fam && r.spec.chain == Forward)
    ensures var k := kernel[..n] + [r] + kernel[n..];
            && IndexOf(k, id) < |k| && ExprsFrom(k, id, fam, Forward) == ExprsFrom(kernel, id, fam, Forward)
            && ExprsBefore(k, id, fam, Forward) == ExprsBefore(kernel, id, fam, Forward)
  {
    var k, i := kernel[..n] + [r] + kernel[n..], IndexOf(kernel, id);
    IndexAfterInsert(kernel, r, n, id);
    InsertedLater(kernel, r, n, i);
    TailUnmoved(kernel[i..], k[i..], r, n - i, fam);
  }

  lemma {:induction false} TailUnmoved(tail: seq<Rule>, k: seq<Rule>, r: Rule, n: nat, fam: Family)
    requires n <= |tail| && k == tail[..n] + [r] + tail[n..] && !(r.spec.fam == fam && r.spec.chain == Forward)
    ensures ChainExprs(k, fam, Forward) == ChainExprs(tail, fam, Forward)
  {
    InsertedExprs(tail, r, n, fam, Forward);
  }

  lemma {:induction false} PlacedForward(kernel: seq<Rule>, r: Rule, at: Where, fam: Family, id: Id)
    requires ForwardShape(kernel, fam, id) && r.Id() != id
    requires r.spec.chain == Forward ==> at.Before? && r.spec.fam in at.handles
    requires r.spec.chain == Forward && r.spec.fam == fam ==> id == RuleId(fam, at.handles[fam])
    ensures ForwardShape(Placed(kernel, r, at), fam, id)
    ensures ExprsBefore(Placed(kernel, r, at), id, fam, Forward)
         == ExprsBefore(kernel, id, fam, Forward)
          + if r.spec.fam == fam && r.spec.chain == Forward then [r.spec.exprs] else []
  {
    var n;
    if r.spec.chain == Forward {
      n := IndexOf(kernel, RuleId(r.spec.fam, at.handles[r.spec.fam]));
    } else {
      PlacedFacts(kernel, r, at);
      n :| 0 <= n <= |kernel| && Placed(kernel, r, at) == kernel[..n] + [r] + kernel[n..];
    }
    InsertedForward(kernel, r, n, fam, id);
  }

  // ----- installing a batch

  /** The rules of a batch for a chain, in order, and those of them that are not committed yet. */
  function BatchExprs(specs: seq<RuleSpec>, fam: Family, chain: Chain): seq<seq<Expr>> {
    if specs == [] then []
    else (if specs[0].fam == fam && specs[0].chain == chain then [specs[0].exprs] else [])
         + BatchExprs(specs[1..], fam, chain)
  }

  function FreshExprs(specs: seq<RuleSpec>, committed: seq<Rule>, fam: Family, chain: Chain): seq<seq<Expr>> {
    if specs == [] then []
    else (if specs[0].fam == fam && specs[0].chain == chain && Find(committed, specs[0]).None? then [specs[0].exprs]
          else [])
         + FreshExprs(specs[1..], committed, fam, chain)
  }

  /** Placement before the connection-state rules, one of which is id. */
  predicate BeforeCt(at: Where, id: Id) {
    at.Before? && V4 in at.handles && V6 in at.handles && id.fam in at.handles && at.handles[id.fam] == id.handle
  }

  lemma {:induction false} InstallForward(st: Store, committed: seq<Rule>, specs: seq<RuleSpec>, at: Where, fam: Family,
                                          id: Id)
    requires ForwardShape(st.kernel, fam, id) && id.fam == fam && id.handle < NextHandle(st, fam)
    requires forall s | s in specs && s.chain == Forward :: BeforeCt(at, id)
    ensures ForwardShape(Install(st, committed, specs, at).kernel, fam, id)
    ensures ExprsBefore(Install(st, committed, specs, at).kernel, id, fam, Forward)
         == ExprsBefore(st.kernel, id, fam, Forward) + FreshExprs(specs, committed, fam, Forward)
    ensures NextHandle(Install(st, committed, specs, at), fam) > id.handle
    decreases |specs|
  {
    if specs == [] {
      assert FreshExprs([], committed, fam, Forward) == [];
    } else {
      var st' := InstallOne(st, committed, specs[0], at);
      InstallOneForward(st, committed, specs[0], at, fam, id);
      InstallForward(st', committed, specs[1..], at, fam, id);
      FreshHead(specs, committed, fam, Forward);
      var mine := FreshExprs([specs[0]], committed, fam, Forward);
      ConcatAssoc(ExprsBefore(st.kernel, id, fam, Forward), mine, FreshExprs(specs[1..], committed, fam, Forward));
    }
  }

  lemma {:induction false} FreshOne(spec: RuleSpec, committed: seq<Rule>, fam: Family, chain: Chain)
    ensures FreshExprs([spec], committed, fam, chain)
         == if Find(committed, spec).None? && spec.fam == fam && spec.chain == chain then [spec.exprs] else []
  {
    assert FreshExprs([spec][1..], committed, fam, chain) == [];
  }

  lemma {:induction false} InstallOneForward(st: Store, committed: seq<Rule>, spec: RuleSpec, at: Where, fam: Family,
                                             id: Id)
    requires ForwardShape(st.kernel, fam, id) && id.fam == fam && id.handle < NextHandle(st, fam)
    requires spec.chain == Forward ==> BeforeCt(at, id)
    ensures var st' := InstallOne(st, committed, spec, at);
            && ForwardShape(st'.kernel, fam, id)
            && ExprsBefore(st'.kernel, id, fam, Forward)
               == ExprsBefore(st.kernel, id, fam, Forward) + FreshExprs([spec], committed, fam, Forward)
            && NextHandle(st', fam) > id.handle
  {
    FreshOne(spec, committed, fam, Forward);
    if Find(committed, spec).None? {
      PlacedForward(st.kernel, Rule(spec, NextHandle(st, spec.fam)), at, fam, id);
    }
  }

  /** A batch for another chain, or for this one when appended. */
  lemma {:induction false} InstallAppended(st: Store, committed: seq<Rule>, specs: seq<RuleSpec>, at: Where,
                                           fam: Family, chain: Chain)
    requires at == Append || forall s | s in specs :: s.chain != chain
    ensures ChainExprs(Install(st, committed, specs, at).kernel, fam, chain)
         == ChainExprs(st.kernel, fam, chain) + FreshExprs(specs, committed, fam, chain)
    decreases |specs|
  {
    if specs != [] {
      var st' := InstallOne(st, committed, specs[0], at);
      InstallAppended(st', committed, specs[1..], at, fam, chain);
      InstallOneAppended(st, committed, specs[0], at, fam, chain);
      var mine := FreshExprs([specs[0]], committed, fam, chain);
      FreshHead(specs, committed, fam, chain);
      ConcatAssoc(ChainExprs(st.kernel, fam, chain), mine, FreshExprs(specs[1..], committed, fam, chain));
    }
  }

  lemma {:induction false} FreshHead(specs: seq<RuleSpec>, committed: seq<Rule>, fam: Family, chain: Chain)
    requires specs != []
    ensures FreshExprs(specs, committed, fam, chain)
         == FreshExprs([specs[0]], committed, fam, chain) + FreshExprs(specs[1..], committed, fam, chain)
  {
    assert FreshExprs([specs[0]][1..], committed, fam, chain) == [];
  }

  lemma {:induction false} InstallOneAppended(st: Store, committed: seq<Rule>, spec: RuleSpec, at: Where, fam: Family,
                                              chain: Chain)
    requires at == Append || spec.chain != chain
    ensures ChainExprs(InstallOne(st, committed, spec, at).kernel, fam, chain)
         == ChainExprs(st.kernel, fam, chain) + FreshExprs([spec], committed, fam, chain)
  {
    var r := Rule(spec, NextHandle(st, spec.fam));
    assert FreshExprs([spec][1..], committed, fam, chain) == [];
    if spec.fam == fam && spec.chain == chain {
      PlacedAtEnd(st.kernel, r, fam, chain);
    } else {
      PlacedElsewhere(st.kernel, r, at, fam, chain);
    }
  }

  // ----- leaving out a rule that is already there changes no verdict

  lemma {:induction false} SilentChain(rules: seq<seq<Expr>>, p: Packet, sets: Sets, e: seq<Expr>)
    requires ValidPacket(p) && EvalChain(rules, p, sets).None? && e in rules
    ensures EvalRule(e, p, sets).None?
    decreases |rules|
  {
    if e != rules[0] {
      SilentChain(rules[1..], p, sets, e);
    }
  }

  lemma {:induction false} DropSilent(specs: seq<RuleSpec>, committed: seq<Rule>, fam: Family, chain: Chain, p: Packet,
                                      sets: Sets)
    requires ValidPacket(p)
    requires forall s | s in specs && s.fam == fam && s.chain == chain && Find(committed, s).Some? ::
               EvalRule(s.exprs, p, sets).None?
    ensures EvalChain(FreshExprs(specs, committed, fam, chain), p, sets)
         == EvalChain(BatchExprs(specs, fam, chain), p, sets)
    decreases |specs|
  {
    if specs != [] {
      var s := specs[0];
      DropSilent(specs[1..], committed, fam, chain, p, sets);
      OneRule(s.exprs, FreshExprs(specs[1..], committed, fam, chain), p, sets);
      OneRule(s.exprs, BatchExprs(specs[1..], fam, chain), p, sets);
      assert [] + FreshExprs(specs[1..], committed, fam, chain) == FreshExprs(specs[1..], committed, fam, chain);
      assert [] + BatchExprs(specs[1..], fam, chain) == BatchExprs(specs[1..], fam, chain);
      assert s in specs;
    }
  }

  /** Appending only the rules not yet in the chain evaluates like appending all of them. */
  lemma {:induction false} SharedRules(have: seq<seq<Expr>>, specs: seq<RuleSpec>, committed: seq<Rule>, fam: Family,
                                       chain: Chain, p: Packet, sets: Sets)
    requires ValidPacket(p)
    requires forall s | s in specs && s.fam == fam && s.chain == chain && Find(committed, s).Some? :: s.exprs in have
    ensures EvalChain(have + FreshExprs(specs, committed, fam, chain), p, sets)
         == EvalChain(have + BatchExprs(specs, fam, chain), p, sets)
  {
    ChainConcat(have, FreshExprs(specs, committed, fam, chain), p, sets);
    ChainConcat(have, BatchExprs(specs, fam, chain), p, sets);
    if EvalChain(have, p, sets).None? {
      forall s | s in specs && s.fam == fam && s.chain == chain && Find(committed, s).Some?
        ensures EvalRule(s.exprs, p, sets).None?
      {
        SilentChain(have, p, sets, s.exprs);
      }
      DropSilent(specs, committed, fam, chain, p, sets);
    }
  }
}
