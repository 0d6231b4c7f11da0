/**
 The router's reference-counted rule store: filters are saved under keys, equal
 rules are shared, and a rule stays installed while some filter uses it.
 */
module RuleStore {
  import opened Common
  import opened Nft

  /** A rule as built: where it goes and what it evaluates. */
  datatype RuleSpec = RuleSpec(fam: Family, chain: Chain, exprs: seq<Expr>)

  /** A rule as installed; handles are unique within a table, and there is one table a family. */
  datatype Rule = Rule(spec: RuleSpec, handle: nat) {
    function Id(): Id {
      RuleId(spec.fam, handle)
    }
  }

  datatype Id = RuleId(fam: Family, handle: nat)

  datatype PortSig = PortSig(proto: string, ports: Option<(int, int)>)

  datatype Key = Named(name: string) | GroupKey(signature: seq<Part>, ports: seq<PortSig>)

  datatype Store = Store(
    kernel: seq<Rule>,
    next: map<Family, nat>,
    ruleMap: map<Key, seq<Rule>>,
    ruleRef: map<Id, int>)

  /** Where new rules go: appended to their chain, or inserted before the rule with the family's handle. */
  datatype Where = Append | Before(handles: map<Family, nat>)

  // ----- matching rules

  /** Expressions that end a rule with a verdict. */
  predicate Terminal(e: Expr) {
    e.Give? || e.LookupVerdict? || e.DestNat? || e.Masquerade?
  }

  /** The only verdict-bearing expression is the last one. */
  predicate Terminated(es: seq<Expr>) {
    es != [] && Terminal(es[|es| - 1]) && forall i | 0 <= i < |es| - 1 :: !Terminal(es[i])
  }

  /** checkRuleMatch compares the candidate's expressions with the rule's, indexing the rule's without a check. */
  method CheckRuleMatch(rule: seq<Expr>, candidate: seq<Expr>) returns (r: Outcome<bool>)
    ensures r == Ok(true) <==> candidate <= rule
    ensures r == Panic <==> rule < candidate
    ensures r != Error
  {
    for i := 0 to |candidate|
      invariant i <= |rule| && candidate[..i] == rule[..i]
    {
      if i >= |rule| {
        assert rule == candidate[..i];
        return Panic;
      }
      if candidate[i] != rule[i] {
        assert !(rule <= candidate) && !(candidate <= rule);
        return Ok(false);
      }
    }
    assert candidate[..|candidate|] == candidate;
    r := Ok(true);
  }

  /** Of two terminated lists neither is a proper prefix of the other. */
  lemma {:induction false} PrefixFree(a: seq<Expr>, b: seq<Expr>)
    requires Terminated(a) && Terminated(b)
    ensures a <= b <==> a == b
    ensures !(a < b)
  {
    if a <= b {
      assert b[|a| - 1] == a[|a| - 1];
    }
  }

  predicate InChain(r: Rule, spec: RuleSpec) {
    r.spec.fam == spec.fam && r.spec.chain == spec.chain
  }

  /** GetRules. */
  function ChainRules(kernel: seq<Rule>, fam: Family, chain: Chain): seq<Rule> {
    if kernel == [] then []
    else
      var rest := ChainRules(kernel[1..], fam, chain);
      if kernel[0].spec.fam == fam && kernel[0].spec.chain == chain then [kernel[0]] + rest else rest
  }

  /** The first installed rule equal to spec. */
  function Find(kernel: seq<Rule>, spec: RuleSpec): (r: Option<Rule>)
    ensures r.Some? ==> r.value in kernel && r.value.spec == spec
    ensures r.None? ==> forall x | x in kernel :: x.spec != spec
  {
    if kernel == [] then None
    else if kernel[0].spec == spec then Some(kernel[0])
    else Find(kernel[1..], spec)
  }

  lemma {:induction false} FindInChain(kernel: seq<Rule>, spec: RuleSpec)
    ensures Find(ChainRules(kernel, spec.fam, spec.chain), spec) == Find(kernel, spec)
    decreases |kernel|
  {
    if kernel != [] {
      FindInChain(kernel[1..], spec);
      var rest := ChainRules(kernel[1..], spec.fam, spec.chain);
      if kernel[0].spec.fam == spec.fam && kernel[0].spec.chain == spec.chain {
        assert ([kernel[0]] + rest)[1..] == rest;
      }
    }
  }

  /** findRuleInList on terminated rules: no index is out of range and only an equal rule is found. */
  method FindRuleInList(spec: RuleSpec, list: seq<Rule>) returns (r: Outcome<Option<Rule>>)
    requires Terminated(spec.exprs)
    requires forall x | x in list :: Terminated(x.spec.exprs) && InChain(x, spec)
    ensures r == Ok(Find(list, spec))
  {
    for i := 0 to |list|
      invariant Find(list, spec) == Find(list[i..], spec)
    {
      var m := CheckRuleMatch(spec.exprs, list[i].spec.exprs);
      PrefixFree(list[i].spec.exprs, spec.exprs);
      PrefixFree(spec.exprs, list[i].spec.exprs);
      if m == Ok(true) {
        assert list[i].spec == spec;
        return Ok(Some(list[i]));
      }
      assert list[i..][1..] == list[i + 1..];
    }
    r := Ok(None);
  }

  // ----- installing and removing

  function NextHandle(st: Store, fam: Family): nat {
    if fam in st.next then st.next[fam] else 1
  }

  /** The position of the rule with an id, or |kernel|. */
  function IndexOf(kernel: seq<Rule>, id: Id): (i: nat)
    ensures i <= |kernel|
  {
    if kernel == [] || kernel[0].Id() == id then 0 else 1 + IndexOf(kernel[1..], id)
  }

  function Placed(kernel: seq<Rule>, r: Rule, at: Where): seq<Rule> {
    match at
    case Append => kernel + [r]
    case Before(handles) =>
      if r.spec.fam in handles then
        var i := IndexOf(kernel, RuleId(r.spec.fam, handles[r.spec.fam]));
        kernel[..i] + [r] + kernel[i..]
      else [r] + kernel
  }

  function InstallOne(st: Store, committed: seq<Rule>, spec: RuleSpec, at: Where): Store {
    var h := NextHandle(st, spec.fam);
    if Find(committed, spec).Some? then st
    else st.(kernel := Placed(st.kernel, Rule(spec, h), at), next := st.next[spec.fam := h + 1])
  }

  /** Adds the rules not among those committed before the batch; the additions are flushed together. */
  function Install(st: Store, committed: seq<Rule>, specs: seq<RuleSpec>, at: Where): Store
    decreases |specs|
  {
    if specs == [] then st else Install(InstallOne(st, committed, specs[0], at), committed, specs[1..], at)
  }

  function RefCount(refs: map<Id, int>, id: Id): int {
    if id in refs then refs[id] else 0
  }

  /** Looks up the handle of every rule and counts the use. */
  function Attach(refs: map<Id, int>, kernel: seq<Rule>, specs: seq<RuleSpec>): Option<(map<Id, int>, seq<Rule>)>
    decreases |specs|
  {
    if specs == [] then Some((refs, []))
    else match Find(kernel, specs[0])
      case None => None
      case Some(r) =>
        match Attach(refs[r.Id() := RefCount(refs, r.Id()) + 1], kernel, specs[1..])
        case None => None
        case Some((refs', rules)) => Some((refs', [r] + rules))
  }

  function SavedUnder(m: map<Key, seq<Rule>>, key: Key): seq<Rule> {
    if key in m then m[key] else []
  }

  /** saveFilterRules. */
  function Save(st: Store, key: Key, specs: seq<RuleSpec>, at: Where): Option<Store> {
    var st1 := Install(st, st.kernel, specs, at);
    match Attach(st1.ruleRef, st1.kernel, specs)
    case None => None
    case Some((refs, rules)) =>
      if specs == [] then Some(st1)
      else Some(st1.(ruleRef := refs, ruleMap := st1.ruleMap[key := SavedUnder(st1.ruleMap, key) + rules]))
  }

  function Removed(kernel: seq<Rule>, id: Id): seq<Rule> {
    if kernel == [] then []
    else if kernel[0].Id() == id then Removed(kernel[1..], id)
    else [kernel[0]] + Removed(kernel[1..], id)
  }

  /** One pass of DeleteFilter's loop: the last use removes the rule. */
  function ReleaseOne(st: Store, r: Rule): Store {
    var id := r.Id();
    if RefCount(st.ruleRef, id) == 1 then
      st.(kernel := Removed(st.kernel, id), ruleRef := st.ruleRef - {id})
    else st.(ruleRef := st.ruleRef[id := RefCount(st.ruleRef, id) - 1])
  }

  function Release(st: Store, rules: seq<Rule>): Store
    decreases |rules|
  {
    if rules == [] then st else Release(ReleaseOne(st, rules[0]), rules[1..])
  }

  /** DeleteFilter; None is the error for an unknown key. */
  function Delete(st: Store, key: Key): Option<Store> {
    if key !in st.ruleMap then None
    else
      var st1 := Release(st, st.ruleMap[key]);
      Some(st1.(ruleMap := st1.ruleMap - {key}))
  }

  // ----- counting uses

  function Uses(rules: seq<Rule>, id: Id): nat {
    if rules == [] then 0 else (if rules[0].Id() == id then 1 else 0) + Uses(rules[1..], id)
  }

  /** How often a rule occurs across all saved filters. */
  ghost function AllUses(m: map<Key, seq<Rule>>, id: Id): nat
    decreases |m|
  {
    if m == map[] then 0
    else
      var k :| k in m;
      Uses(m[k], id) + AllUses(m - {k}, id)
  }

  lemma {:induction false} UsesConcat(a: seq<Rule>, b: seq<Rule>, id: Id)
    ensures Uses(a + b, id) == Uses(a, id) + Uses(b, id)
    decreases |a|
  {
    if a == [] {
      assert a + b == b;
    } else {
      assert (a + b)[1..] == a[1..] + b;
      UsesConcat(a[1..], b, id);
    }
  }

  lemma {:induction false} UsesPositive(rules: seq<Rule>, id: Id)
    ensures Uses(rules, id) > 0 <==> exists r | r in rules :: r.Id() == id
    decreases |rules|
  {
    if rules != [] {
      UsesPositive(rules[1..], id);
      assert rules == [rules[0]] + rules[1..];
    }
  }

  lemma {:induction false} AllUsesWithout(m: map<Key, seq<Rule>>, key: Key, id: Id)
    requires key in m
    ensures AllUses(m, id) == Uses(m[key], id) + AllUses(m - {key}, id)
    decreases |m|
  {
    var k :| k in m && AllUses(m, id) == Uses(m[k], id) + AllUses(m - {k}, id);
    if k != key {
      AllUsesWithout(m - {k}, key, id);
      assert (m - {k}) - {key} == (m - {key}) - {k};
      AllUsesWithout(m - {key}, k, id);
    }
  }

  lemma {:induction false} AllUsesUpdate(m: map<Key, seq<Rule>>, key: Key, rules: seq<Rule>, id: Id)
    ensures AllUses(m[key := SavedUnder(m, key) + rules], id) == AllUses(m, id) + Uses(rules, id)
  {
    var m' := m[key := SavedUnder(m, key) + rules];
    AllUsesWithout(m', key, id);
    UsesConcat(SavedUnder(m, key), rules, id);
    assert m' - {key} == m - {key};
    if key in m {
      AllUsesWithout(m, key, id);
    } else {
      assert m - {key} == m;
    }
  }
}
