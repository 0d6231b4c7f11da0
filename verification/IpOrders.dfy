/**
 The order of the deny and allow rules: the list that came into force first has
 its rules first, which decides what becomes of loopback packets.
 */
module IpOrders {
  import opened Common
  import opened Nft
  import opened RuleStore
  import opened Router
  import opened GroupVerdicts
  import opened IpLists
  import FirstMatch
  import RuleCounts

  /** The lists in force, in the order in which they came into force. */
  datatype Order = Nobody | Only(w: Which) | Then(first: Which)

  function Other(w: Which): Which {
    if w == Deny then Allow else Deny
  }

  predicate Has(o: Order, w: Which) {
    o.Then? || o == Only(w)
  }

  /** The order after a command that leaves the sets as they are now. */
  function NextOrder(o: Order, sets: Members): Order {
    var deny, allow := !IsEmpty(sets, Deny), !IsEmpty(sets, Allow);
    if !deny && !allow then Nobody
    else if deny && allow then Then(if o.Only? then o.w else if o.Then? then o.first else Deny)
    else Only(if deny then Deny else Allow)
  }

  ghost function OrderAfter(st: State, o: Order, commands: seq<Command>): Order
    decreases |commands|
  {
    if commands == [] then o
    else
      var st' := Execute1(st, commands[0]);
      OrderAfter(st', NextOrder(o, Current(st')), commands[1..])
  }

  function RulesOf(o: Order, fam: Family): seq<seq<Expr>> {
    match o
    case Nobody => []
    case Only(w) => FamilyRules(w, fam)
    case Then(w) => FamilyRules(w, fam) + FamilyRules(Other(w), fam)
  }

  ghost predicate Follows(st: State, o: Order) {
    && (forall w: Which :: Has(o, w) <==> !IsEmpty(Current(st), w))
    && forall fam: Family :: ChainExprs(st.store.kernel, fam, Prerouting) == RulesOf(o, fam)
  }

  // ----- saving

  /** A batch none of whose rules is installed is appended whole. */
  lemma {:induction false} AllFresh(specs: seq<RuleSpec>, committed: seq<Rule>, fam: Family, chain: Chain)
    requires forall s | s in specs && s.fam == fam && s.chain == chain :: Find(committed, s).None?
    ensures FreshExprs(specs, committed, fam, chain) == BatchExprs(specs, fam, chain)
    decreases |specs|
  {
    if specs != [] {
      AllFresh(specs[1..], committed, fam, chain);
    }
  }

  lemma {:induction false} NoneInChain(specs: seq<RuleSpec>, committed: seq<Rule>, fam: Family, chain: Chain)
    requires forall s | s in specs :: s.chain != chain
    ensures FreshExprs(specs, committed, fam, chain) == []
    decreases |specs|
  {
    if specs != [] {
      NoneInChain(specs[1..], committed, fam, chain);
    }
  }

  lemma {:induction false} ListBatch(w: Which, fam: Family)
    ensures BatchExprs(ListSpecs(w), fam, Prerouting) == FamilyRules(w, fam)
  {
    FirstMatch.BatchConcat(SpecsOf(FamilyRules(w, V4), V4, Prerouting), SpecsOf(FamilyRules(w, V6), V6, Prerouting),
                           fam, Prerouting);
    FirstMatch.BatchOfSpecs(FamilyRules(w, V4), V4, Prerouting, fam, Prerouting);
    FirstMatch.BatchOfSpecs(FamilyRules(w, V6), V6, Prerouting, fam, Prerouting);
    assert FamilyRules(w, fam) + [] == FamilyRules(w, fam) == [] + FamilyRules(w, fam);
    assert fam == V4 || fam == V6;
  }

  /** The rules of the two lists differ. */
  lemma {:induction false} RulesDiffer(w: Which, fam: Family, es: seq<Expr>)
    requires es in FamilyRules(w, fam)
    ensures es !in FamilyRules(Other(w), fam)
  {
    var deny, allow := SourceRule(fam, DenyList, false), SourceRule(fam, AllowList, true);
    assert deny[1] != allow[1];
    assert LoopbackRule()[0] == Meta(IifName, 1) && deny[0] != Meta(IifName, 1);
  }

  /** A list that comes into force has its rules appended. */
  lemma {:induction false} ListAppended(st: State, base: set<Id>, baseSpecs: set<RuleSpec>, w: Which, fam: Family)
    requires Inv(st, base, baseSpecs) && IsEmpty(Current(st), w)
    ensures ChainExprs(Install(st.store, st.store.kernel, ListSpecs(w), Append).kernel, fam, Prerouting)
         == ChainExprs(st.store.kernel, fam, Prerouting) + FamilyRules(w, fam)
  {
    var kernel, specs := st.store.kernel, ListSpecs(w);
    ListSpecsProper(w);
    forall s | s in specs && s.fam == fam && s.chain == Prerouting ensures Find(kernel, s).None? {
      assert s == RuleSpec(fam, Prerouting, s.exprs);
      if Find(kernel, s).Some? {
        FoundIff(kernel, s);
        var x := InstalledFromList(st, base, baseSpecs, fam, s.exprs);
        RulesDiffer(w, fam, s.exprs);
      }
    }
    InstallAppended(st.store, kernel, specs, Append, fam, Prerouting);
    AllFresh(specs, kernel, fam, Prerouting);
    ListBatch(w, fam);
  }

  // ----- deleting

  function Leftover(rules: seq<seq<Expr>>, gone: seq<seq<Expr>>): seq<seq<Expr>> {
    if rules == [] then []
    else (if rules[0] in gone then [] else [rules[0]]) + Leftover(rules[1..], gone)
  }

  lemma {:induction false} LeftoverConcat(a: seq<seq<Expr>>, b: seq<seq<Expr>>, gone: seq<seq<Expr>>)
    ensures Leftover(a + b, gone) == Leftover(a, gone) + Leftover(b, gone)
    decreases |a|
  {
    if a == [] {
      assert a + b == b;
    } else {
      assert (a + b)[1..] == a[1..] + b;
      LeftoverConcat(a[1..], b, gone);
    }
  }

  lemma {:induction false} LeftoverAll(a: seq<seq<Expr>>, gone: seq<seq<Expr>>)
    ensures (forall e | e in a :: e !in gone) ==> Leftover(a, gone) == a
    ensures (forall e | e in a :: e in gone) ==> Leftover(a, gone) == []
    decreases |a|
  {
    if a != [] {
      LeftoverAll(a[1..], gone);
      assert a == [a[0]] + a[1..];
    }
  }

  /** Of a chain, the rules that are kept are those whose expressions are not gone. */
  lemma {:induction false} RestrictChain(kernel: seq<Rule>, keep: set<Id>, fam: Family, chain: Chain,
                                         gone: seq<seq<Expr>>)
    requires forall r | r in kernel && r.spec.fam == fam && r.spec.chain == chain ::
               r.Id() in keep <==> r.spec.exprs !in gone
    ensures ChainExprs(RuleCounts.Restrict(kernel, keep), fam, chain) == Leftover(ChainExprs(kernel, fam, chain), gone)
    decreases |kernel|
  {
    if kernel != [] {
      var r, rest := kernel[0], RuleCounts.Restrict(kernel[1..], keep);
      RestrictChain(kernel[1..], keep, fam, chain, gone);
      assert ([r] + rest)[1..] == rest;
      var mine := if r.spec.fam == fam && r.spec.chain == chain then [r.spec.exprs] else [];
      LeftoverConcat(mine, ChainExprs(kernel[1..], fam, chain), gone);
      assert mine != [] ==> mine[1..] == [];
    }
  }

  /** A prerouting rule stays after a delete exactly if it is not a rule of the deleted list. */
  lemma {:induction false} StaysIff(st: State, base: set<Id>, baseSpecs: set<RuleSpec>, key: Key, gone: seq<seq<Expr>>,
                                    r: Rule, fam: Family)
    requires Inv(st, base, baseSpecs) && key in st.store.ruleMap
    requires gone == RulesUnder(key, fam)
    requires r in st.store.kernel && r.spec.fam == fam && r.spec.chain == Prerouting
    ensures r.Id() in base || AllUses(st.store.ruleMap - {key}, r.Id()) > 0 <==> r.spec.exprs !in gone
  {
    assert r.Id() !in base;
    if r.spec.exprs in gone {
      UnusedWhenGone(st, base, baseSpecs, key, r);
    } else {
      UsedElsewhere(st, base, baseSpecs, key, r);
    }
  }

  /** The rules of the list that a key stands for. */
  function RulesUnder(key: Key, fam: Family): seq<seq<Expr>> {
    if key == ListKey(Deny) then FamilyRules(Deny, fam)
    else if key == ListKey(Allow) then FamilyRules(Allow, fam)
    else []
  }

  lemma {:induction false} UnusedWhenGone(st: State, base: set<Id>, baseSpecs: set<RuleSpec>, key: Key, r: Rule)
    requires Inv(st, base, baseSpecs) && r in st.store.kernel && r.spec.chain == Prerouting
    requires r.spec.exprs in RulesUnder(key, r.spec.fam)
    ensures AllUses(st.store.ruleMap - {key}, r.Id()) == 0
  {
    var rest := st.store.ruleMap - {key};
    RuleCounts.AllUsesPositive(rest, r.Id());
    forall k, x: Rule | k in rest && x in rest[k] ensures x.Id() != r.Id() {
      if x.Id() == r.Id() {
        var w := UsedBy(st, base, baseSpecs, k, x, r);
        RulesDiffer(w, r.spec.fam, r.spec.exprs);
      }
    }
  }

  lemma {:induction false} UsedElsewhere(st: State, base: set<Id>, baseSpecs: set<RuleSpec>, key: Key, r: Rule)
    requires Inv(st, base, baseSpecs) && r in st.store.kernel && r.spec.chain == Prerouting && r.Id() !in base
    requires r.spec.exprs !in RulesUnder(key, r.spec.fam)
    ensures AllUses(st.store.ruleMap - {key}, r.Id()) > 0
  {
    var k, x := SomeUser(st, base, baseSpecs, r);
    var w := UsedBy(st, base, baseSpecs, k, x, r);
    var rest := st.store.ruleMap - {key};
    assert k in rest && x in rest[k];
    RuleCounts.AllUsesPositive(rest, r.Id());
  }

  lemma {:induction false} SomeUser(st: State, base: set<Id>, baseSpecs: set<RuleSpec>, r: Rule)
    returns (k: Key, x: Rule)
    requires Inv(st, base, baseSpecs) && r in st.store.kernel && r.Id() !in base
    ensures k in st.store.ruleMap && x in st.store.ruleMap[k] && x.Id() == r.Id()
  {
    var m := st.store.ruleMap;
    assert RefCount(st.store.ruleRef, r.Id()) == AllUses(m, r.Id()) + Uses([], r.Id());
    RuleCounts.AllUsesPositive(m, r.Id());
    k, x :| k in m && x in m[k] && x.Id() == r.Id();
  }

  /** A prerouting rule is used under the key of the list it belongs to. */
  lemma {:induction false} UsedBy(st: State, base: set<Id>, baseSpecs: set<RuleSpec>, k: Key, x: Rule, r: Rule)
    returns (w: Which)
    requires Inv(st, base, baseSpecs) && r in st.store.kernel && r.spec.chain == Prerouting
    requires k in st.store.ruleMap && x in st.store.ruleMap[k] && x.Id() == r.Id()
    ensures k == ListKey(w) && r.spec.exprs in FamilyRules(w, r.spec.fam)
  {
    var m := st.store.ruleMap;
    RuleCounts.SameId(st.store.kernel, r, x);
    assert IsListKey(k);
    w := if k == ListKey(Deny) then Deny else Allow;
    var i :| 0 <= i < |m[k]| && m[k][i] == x;
    assert ListSpecs(w)[i] == r.spec;
    ListSpecsProper(w);
    assert r.spec == RuleSpec(r.spec.fam, Prerouting, r.spec.exprs);
  }

  lemma {:induction false} DeleteChain(st: State, base: set<Id>, baseSpecs: set<RuleSpec>, key: Key, fam: Family,
                                       gone: seq<seq<Expr>>)
    requires Inv(st, base, baseSpecs) && key in st.store.ruleMap
    requires gone == RulesUnder(key, fam)
    ensures Delete(st.store, key).Some?
    ensures ChainExprs(Delete(st.store, key).value.kernel, fam, Prerouting)
         == Leftover(ChainExprs(st.store.kernel, fam, Prerouting), gone)
  {
    RuleCounts.DeleteKeeps(st.store, base, key);
    var kernel, st' := st.store.kernel, Delete(st.store, key).value;
    var keep :| st'.kernel == RuleCounts.Restrict(kernel, keep);
    RuleCounts.InRestrict(kernel, keep);
    forall r | r in kernel && r.spec.fam == fam && r.spec.chain == Prerouting
      ensures r.Id() in keep <==> r.spec.exprs !in gone
    {
      assert r in st'.kernel <==> r.Id() in keep;
      StaysIff(st, base, baseSpecs, key, gone, r, fam);
    }
    RestrictChain(kernel, keep, fam, Prerouting, gone);
  }

  /** What is left of the ordered rules when a list's rules are gone. */
  lemma {:induction false} LeftoverRules(o: Order, x: Which, fam: Family)
    requires Has(o, x)
    ensures Leftover(RulesOf(o, fam), FamilyRules(x, fam)) == RulesOf(if o.Then? then Only(Other(x)) else Nobody, fam)
  {
    var mine, others := FamilyRules(x, fam), FamilyRules(Other(x), fam);
    forall e | e in others ensures e !in mine {
      RulesDiffer(Other(x), fam, e);
    }
    LeftoverAll(mine, mine);
    LeftoverAll(others, mine);
    EmptyConcat(others);
    ConcatEmpty(others);
    if o.Then? && o.first == x {
      LeftoverConcat(mine, others, mine);
    } else if o.Then? {
      LeftoverConcat(others, mine, mine);
    }
  }

  // ----- every command

  lemma {:induction false} AddFollows(st: State, base: set<Id>, baseSpecs: set<RuleSpec>, o: Order, x: Which,
                                      ips: seq<Addr>)
    requires Inv(st, base, baseSpecs) && Follows(st, o) && ips != []
    ensures var st' := Execute1(st, Add(x, ips)); Follows(st', NextOrder(o, Current(st')))
  {
    var st' := Execute1(st, Add(x, ips));
    AddChanges(st, x, ips);
    if ListKey(x) !in st.store.ruleMap {
      AddInstalls(st, base, baseSpecs, x, ips);
      ListEnters(st, st', base, baseSpecs, o, x);
    } else {
      assert st'.store == st.store;
      ListStays(st, st', o);
    }
  }

  lemma {:induction false} ListStays(st: State, st': State, o: Order)
    requires Follows(st, o) && st'.store.kernel == st.store.kernel
    requires forall w: Which :: IsEmpty(Current(st'), w) == IsEmpty(Current(st), w)
    ensures Follows(st', NextOrder(o, Current(st')))
  {
    Unmoved(o, Current(st'));
  }

  lemma {:induction false} ListEnters(st: State, st': State, base: set<Id>, baseSpecs: set<RuleSpec>, o: Order,
                                      x: Which)
    requires Inv(st, base, baseSpecs) && Follows(st, o) && IsEmpty(Current(st), x)
    requires st'.store.kernel == Install(st.store, st.store.kernel, ListSpecs(x), Append).kernel
    requires !IsEmpty(Current(st'), x)
    requires forall w: Which | w != x :: IsEmpty(Current(st'), w) == IsEmpty(Current(st), w)
    ensures Follows(st', NextOrder(o, Current(st')))
  {
    forall fam: Family ensures ChainExprs(st'.store.kernel, fam, Prerouting) == RulesOf(o, fam) + FamilyRules(x, fam) {
      ListAppended(st, base, baseSpecs, x, fam);
    }
    Entered(o, x, Current(st'));
  }

  lemma {:induction false} AddInstalls(st: State, base: set<Id>, baseSpecs: set<RuleSpec>, x: Which, ips: seq<Addr>)
    requires Inv(st, base, baseSpecs) && ips != [] && ListKey(x) !in st.store.ruleMap
    ensures Execute1(st, Add(x, ips)).store.kernel == Install(st.store, st.store.kernel, ListSpecs(x), Append).kernel
  {
    var store', rules := SaveList(st.store, base, baseSpecs, x);
    ListSpecsProper(x);
    var st1, refs, rs := RuleCounts.SaveResult(st.store, base, ListKey(x), ListSpecs(x), Append);
  }

  lemma {:induction false} Entered(o: Order, x: Which, sets: Members)
    requires !Has(o, x) && forall w: Which :: !IsEmpty(sets, w) <==> w == x || Has(o, w)
    ensures forall fam: Family :: RulesOf(NextOrder(o, sets), fam) == RulesOf(o, fam) + FamilyRules(x, fam)
    ensures forall w: Which :: Has(NextOrder(o, sets), w) <==> !IsEmpty(sets, w)
  {
    var o' := NextOrder(o, sets);
    assert o == Nobody || o == Only(Other(x));
    assert o' == if o == Nobody then Only(x) else Then(Other(x));
    forall fam: Family ensures RulesOf(o', fam) == RulesOf(o, fam) + FamilyRules(x, fam) {
      RulesEntered(o, o', x, fam);
    }
  }

  lemma {:induction false} RulesEntered(o: Order, o': Order, x: Which, fam: Family)
    requires if o == Nobody then o' == Only(x) else o == Only(Other(x)) && o' == Then(Other(x))
    ensures RulesOf(o', fam) == RulesOf(o, fam) + FamilyRules(x, fam)
  {
    EmptyConcat(FamilyRules(x, fam));
    assert Other(Other(x)) == x;
  }

  lemma {:induction false} Unmoved(o: Order, sets: Members)
    requires forall w: Which :: !IsEmpty(sets, w) <==> Has(o, w)
    ensures NextOrder(o, sets) == o
  {
    assert !IsEmpty(sets, Deny) <==> Has(o, Deny);
    assert !IsEmpty(sets, Allow) <==> Has(o, Allow);
    assert o.Only? ==> o.w == Deny || o.w == Allow;
  }

  lemma {:induction false} DelFollows(st: State, base: set<Id>, baseSpecs: set<RuleSpec>, o: Order, x: Which,
                                      ips: seq<Addr>)
    requires Inv(st, base, baseSpecs) && Follows(st, o)
    ensures var st' := Execute1(st, Del(x, ips)); Follows(st', NextOrder(o, Current(st')))
  {
    var st' := Execute1(st, Del(x, ips));
    if Rejected(st, x, ips) {
      assert Current(st') == st.committed;
      assert forall w: Which :: !IsEmpty(st.committed, w) <==> ListKey(w) in st.store.ruleMap;
      Unmoved(o, Current(st'));
      return;
    }
    DelChanges(st, x, ips);
    assert st'.committed == Current(st');
    if IsEmpty(Current(st'), x) && ListKey(x) in st.store.ruleMap {
      KeysDiffer();
      forall fam: Family
        ensures ChainExprs(st'.store.kernel, fam, Prerouting) == Leftover(RulesOf(o, fam), FamilyRules(x, fam))
      {
        DeleteChain(st, base, baseSpecs, ListKey(x), fam, FamilyRules(x, fam));
      }
      Left(o, x, Current(st'));
    } else {
      assert forall w: Which :: !IsEmpty(Current(st'), w) <==> Has(o, w);
      Unmoved(o, Current(st'));
    }
  }

  lemma {:induction false} Left(o: Order, x: Which, sets: Members)
    requires Has(o, x) && forall w: Which :: !IsEmpty(sets, w) <==> w != x && Has(o, w)
    ensures forall fam: Family :: RulesOf(NextOrder(o, sets), fam) == Leftover(RulesOf(o, fam), FamilyRules(x, fam))
    ensures forall w: Which :: Has(NextOrder(o, sets), w) <==> !IsEmpty(sets, w)
  {
    forall fam: Family ensures RulesOf(NextOrder(o, sets), fam) == Leftover(RulesOf(o, fam), FamilyRules(x, fam)) {
      LeftoverRules(o, x, fam);
    }
  }

  lemma {:induction false} SaveOtherFollows(st: State, base: set<Id>, baseSpecs: set<RuleSpec>, o: Order, key: Key,
                                            specs: seq<RuleSpec>, at: Where)
    requires Inv(st, base, baseSpecs) && Follows(st, o) && Proper(SaveOther(key, specs, at), baseSpecs)
    ensures var st' := Execute1(st, SaveOther(key, specs, at)); Follows(st', NextOrder(o, Current(st')))
  {
    FlushKeeps(st);
    var st1, refs, rs := RuleCounts.SaveResult(st.store, base, key, specs, at);
    forall fam: Family
      ensures ChainExprs(st1.kernel, fam, Prerouting) == ChainExprs(st.store.kernel, fam, Prerouting)
    {
      InstallAppended(st.store, st.store.kernel, specs, at, fam, Prerouting);
      NoneInChain(specs, st.store.kernel, fam, Prerouting);
    }
    Unmoved(o, Current(st));
  }

  lemma {:induction false} DeleteOtherFollows(st: State, base: set<Id>, baseSpecs: set<RuleSpec>, o: Order, key: Key)
    requires Inv(st, base, baseSpecs) && Follows(st, o) && !IsListKey(key)
    ensures var st' := Execute1(st, DeleteOther(key)); Follows(st', NextOrder(o, Current(st')))
  {
    FlushKeeps(st);
    if key in st.store.ruleMap {
      forall fam: Family
        ensures ChainExprs(Delete(st.store, key).value.kernel, fam, Prerouting)
             == ChainExprs(st.store.kernel, fam, Prerouting)
      {
        DeleteChain(st, base, baseSpecs, key, fam, []);
        LeftoverAll(ChainExprs(st.store.kernel, fam, Prerouting), []);
      }
      RuleCounts.DeleteKeeps(st.store, base, key);
    }
    Unmoved(o, Current(st));
  }

  lemma {:induction false} StepFollows(st: State, base: set<Id>, baseSpecs: set<RuleSpec>, o: Order, c: Command)
    requires Inv(st, base, baseSpecs) && Follows(st, o) && Proper(c, baseSpecs)
    ensures var st' := Execute1(st, c); Follows(st', NextOrder(o, Current(st')))
  {
    match c {
      case Add(w, ips) => if ips != [] { AddFollows(st, base, baseSpecs, o, w, ips); } else { Unmoved(o, Current(st)); }
      case Del(w, ips) => DelFollows(st, base, baseSpecs, o, w, ips);
      case SaveOther(key, specs, at) => SaveOtherFollows(st, base, baseSpecs, o, key, specs, at);
      case DeleteOther(key) => DeleteOtherFollows(st, base, baseSpecs, o, key);
    }
  }

  lemma {:induction false} RunFollows(st: State, base: set<Id>, baseSpecs: set<RuleSpec>, o: Order,
                                      commands: seq<Command>)
    requires Inv(st, base, baseSpecs) && Follows(st, o) && forall c | c in commands :: Proper(c, baseSpecs)
    ensures Follows(Execute(st, commands), OrderAfter(st, o, commands))
    decreases |commands|
  {
    if commands != [] {
      assert Proper(commands[0], baseSpecs);
      var st' := Execute1(st, commands[0]);
      StepFollows(st, base, baseSpecs, o, commands[0]);
      ExecuteKeeps(st, base, baseSpecs, [commands[0]]);
      assert Execute(st, [commands[0]]) == st';
      RunFollows(st', base, baseSpecs, NextOrder(o, Current(st')), commands[1..]);
    }
  }

  // ----- loopback packets

  /** The verdict on a loopback packet. */
  function LoopbackVerdict(o: Order, denied: bool): Option<Verdict> {
    if denied && (o == Only(Deny) || o == Then(Deny)) then Some(Drop)
    else if Has(o, Allow) then Some(Accept)
    else None
  }

  lemma {:induction false} OrderedVerdict(o: Order, p: Packet, sets: Sets)
    requires ValidPacket(p) && p.iifname == LO && DenyList in sets.sets && AllowList in sets.sets
    ensures EvalChain(RulesOf(o, p.fam), p, sets) == LoopbackVerdict(o, SrcAddr(p) in sets.sets[DenyList])
  {
    var deny, allow := SourceRule(p.fam, DenyList, false), SourceRule(p.fam, AllowList, true);
    EvalLoopback(p, sets);
    EvalSource(Deny, false, p, sets);
    AcceptsFirst([allow], p, sets);
    AcceptsFirst([allow, deny], p, sets);
    assert FamilyRules(Allow, p.fam) == [LoopbackRule()] + [allow];
    assert FamilyRules(Allow, p.fam) + FamilyRules(Deny, p.fam) == [LoopbackRule()] + [allow, deny];
    assert FamilyRules(Deny, p.fam) + FamilyRules(Allow, p.fam) == [deny] + FamilyRules(Allow, p.fam);
    OneRule(deny, [], p, sets);
    OneRule(deny, FamilyRules(Allow, p.fam), p, sets);
    assert [deny] + [] == [deny];
  }

  lemma {:induction false} AcceptsFirst(rest: seq<seq<Expr>>, p: Packet, sets: Sets)
    requires ValidPacket(p) && p.iifname == LO
    ensures EvalChain([LoopbackRule()] + rest, p, sets) == Some(Accept)
  {
    EvalLoopback(p, sets);
    OneRule(LoopbackRule(), rest, p, sets);
  }

  /**
   After any commands, a loopback packet is dropped exactly if its source is denied
   and the deny list came into force before the allow list or alone; otherwise it is
   accepted at once while the allow list is in force.
   */
  lemma {:induction false} LoopbackDecides(commands: seq<Command>, p: Packet)
    requires forall c | c in commands :: Proper(c, BaseSpecs())
    requires ValidPacket(p) && p.iifname == LO
    ensures var start := State(NewRouter().store, map[], []);
            var st := Execute(start, commands);
            PreroutingVerdict(st, p)
            == LoopbackVerdict(OrderAfter(start, Nobody, commands), SrcAddr(p) in Get(Current(st), Deny, p.fam))
  {
    var start := State(NewRouter().store, map[], []);
    NewInv();
    NewFollows();
    RunFollows(start, FirstMatch.BaseIds(), BaseSpecs(), Nobody, commands);
    var st := Execute(start, commands);
    OrderedVerdict(OrderAfter(start, Nobody, commands), p, ListTables(st, p.fam));
  }

  lemma {:induction false} NewFollows()
    ensures Follows(State(NewRouter().store, map[], []), Nobody)
  {
    NewInv();
    EmptyFollows(State(NewRouter().store, map[], []), FirstMatch.BaseIds(), BaseSpecs());
  }

  lemma {:induction false} EmptyFollows(st: State, base: set<Id>, baseSpecs: set<RuleSpec>)
    requires Inv(st, base, baseSpecs) && Current(st) == map[]
    ensures Follows(st, Nobody)
  {
    forall fam: Family ensures ChainExprs(st.store.kernel, fam, Prerouting) == [] {
      NothingInstalled(st, base, baseSpecs, fam);
    }
  }

  lemma {:induction false} NothingInstalled(st: State, base: set<Id>, baseSpecs: set<RuleSpec>, fam: Family)
    requires Inv(st, base, baseSpecs) && Current(st) == map[]
    ensures ChainExprs(st.store.kernel, fam, Prerouting) == []
  {
    if ChainExprs(st.store.kernel, fam, Prerouting) != [] {
      var w := InstalledFromList(st, base, baseSpecs, fam, ChainExprs(st.store.kernel, fam, Prerouting)[0]);
    }
  }
}
