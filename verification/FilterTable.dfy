/** saveFilterRules and DeleteFilter as the loops they are, over the router's mutable maps. */
module FilterTable {
  import opened Common
  import opened Nft
  import opened RuleStore

  ghost predicate AllTerminated(kernel: seq<Rule>) {
    forall r | r in kernel :: Terminated(r.spec.exprs)
  }

  lemma {:induction false} ChainRulesIn(kernel: seq<Rule>, fam: Family, chain: Chain)
    ensures forall r | r in ChainRules(kernel, fam, chain) :: r in kernel && r.spec.fam == fam && r.spec.chain == chain
    decreases |kernel|
  {
    if kernel != [] {
      ChainRulesIn(kernel[1..], fam, chain);
    }
  }

  class PacketFilterRouter {
    /** The committed kernel rules. */
    var kernel: seq<Rule>
    var next: map<Family, nat>
    var ruleMap: map<Key, seq<Rule>>
    var ruleRef: map<Id, int>

    ghost function View(): Store
      reads this
    {
      Store(kernel, next, ruleMap, ruleRef)
    }

    constructor (st: Store)
      ensures View() == st
    {
      kernel, next, ruleMap, ruleRef := st.kernel, st.next, st.ruleMap, st.ruleRef;
    }

    /** Looks a rule up among the committed rules of its chain. */
    method Lookup(spec: RuleSpec) returns (r: Option<Rule>)
      requires AllTerminated(kernel) && Terminated(spec.exprs)
      ensures r == Find(kernel, spec)
    {
      var list := ChainRules(kernel, spec.fam, spec.chain);
      ChainRulesIn(kernel, spec.fam, spec.chain);
      var found := FindRuleInList(spec, list);
      FindInChain(kernel, spec);
      r := found.value;
    }

    /** Queues the rules that are not committed yet and flushes them together. */
    method AddMissing(specs: seq<RuleSpec>, at: Where)
      requires AllTerminated(kernel) && forall s | s in specs :: Terminated(s.exprs)
      modifies this
      ensures View() == Install(old(View()), old(kernel), specs, at)
    {
      var st := Store(kernel, next, ruleMap, ruleRef);
      for i := 0 to |specs|
        invariant View() == old(View())
        invariant Install(old(View()), kernel, specs, at) == Install(st, kernel, specs[i..], at)
      {
        var found := Lookup(specs[i]);
        assert specs[i..][1..] == specs[i + 1..];
        if found.None? {
          var fam := specs[i].fam;
          var h := NextHandle(st, fam);
          st := st.(kernel := Placed(st.kernel, Rule(specs[i], h), at), next := st.next[fam := h + 1]);
        }
      }
      kernel, next, ruleMap, ruleRef := st.kernel, st.next, st.ruleMap, st.ruleRef;
    }

    /** Finds each rule's handle and counts the use; false when a rule is missing. */
    method CountUses(specs: seq<RuleSpec>) returns (rules: seq<Rule>, ok: bool)
      requires AllTerminated(kernel) && forall s | s in specs :: Terminated(s.exprs)
      modifies this`ruleRef
      ensures ok <==> Attach(old(ruleRef), kernel, specs).Some?
      ensures ok ==> Attach(old(ruleRef), kernel, specs) == Some((ruleRef, rules))
    {
      rules, ok := [], true;
      ghost var all := Attach(ruleRef, kernel, specs);
      assert specs[0..] == specs && (all.Some? ==> [] + all.value.1 == all.value.1);
      for i := 0 to |specs|
        invariant match Attach(ruleRef, kernel, specs[i..])
                  case None => Attach(old(ruleRef), kernel, specs).None?
                  case Some((refs, rest)) => Attach(old(ruleRef), kernel, specs) == Some((refs, rules + rest))
      {
        var found := Lookup(specs[i]);
        assert specs[i..][1..] == specs[i + 1..];
        if found.None? {
          return rules, false;
        }
        var id := found.value.Id();
        ghost var after := Attach(ruleRef, kernel, specs[i..]);
        ghost var before := rules;
        ruleRef := ruleRef[id := RefCount(ruleRef, id) + 1];
        rules := rules + [found.value];
        assert after.Some? ==> after.value.1 == [found.value] + after.value.1[1..]
                               && before + after.value.1 == rules + after.value.1[1..];
      }
      assert rules + [] == rules;
    }

    method SaveFilterRules(key: Key, specs: seq<RuleSpec>, at: Where) returns (ok: bool)
      requires AllTerminated(kernel) && forall s | s in specs :: Terminated(s.exprs)
      modifies this
      ensures ok <==> Save(old(View()), key, specs, at).Some?
      ensures ok ==> View() == Save(old(View()), key, specs, at).value
    {
      AddMissing(specs, at);
      assert AllTerminated(kernel) by {
        StillTerminated(old(View()), old(kernel), specs, at);
      }
      ok := true;
      if |specs| > 0 {
        var rules;
        rules, ok := CountUses(specs);
        if ok {
          ruleMap := ruleMap[key := (if key in ruleMap then ruleMap[key] else []) + rules];
        }
      }
    }

    method DeleteFilter(key: Key) returns (ok: bool)
      modifies this
      ensures ok <==> key in old(ruleMap)
      ensures if ok then Delete(old(View()), key) == Some(View()) else View() == old(View())
    {
      if key !in ruleMap {
        return false;
      }
      var rules := ruleMap[key];
      for i := 0 to |rules|
        invariant Release(old(View()), rules) == Release(View(), rules[i..])
        invariant ruleMap == old(ruleMap)
      {
        var id := rules[i].Id();
        ghost var before := View();
        assert rules[i..][1..] == rules[i + 1..];
        var count := if id in ruleRef then ruleRef[id] else 0;
        if count == 1 {
          kernel := Removed(kernel, id);
          ruleRef := ruleRef - {id};
        } else {
          ruleRef := ruleRef[id := count - 1];
        }
        assert View() == ReleaseOne(before, rules[i]);
      }
      ruleMap := ruleMap - {key};
      ok := true;
    }
  }

  lemma {:induction false} StillTerminated(st: Store, committed: seq<Rule>, specs: seq<RuleSpec>, at: Where)
    requires AllTerminated(st.kernel) && forall s | s in specs :: Terminated(s.exprs)
    ensures AllTerminated(Install(st, committed, specs, at).kernel)
    decreases |specs|
  {
    if specs != [] {
      var h := NextHandle(st, specs[0].fam);
      var k := Placed(st.kernel, Rule(specs[0], h), at);
      assert forall r | r in k :: r in st.kernel || r.spec == specs[0];
      StillTerminated(if Find(committed, specs[0]).Some? then st
                      else st.(kernel := k, next := st.next[specs[0].fam := h + 1]),
                      committed, specs[1..], at);
    }
  }
}
