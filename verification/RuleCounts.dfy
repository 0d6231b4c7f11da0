/** What every save and delete of a filter keeps: counts equal uses, and used rules are installed. */
module RuleCounts {
  import opened Common
  import opened Nft
  import opened RuleStore

  ghost function Ids(kernel: seq<Rule>): set<Id> {
    set r | r in kernel :: r.Id()
  }

  /** The installed rules with an id in keep, in order. */
  function Restrict(kernel: seq<Rule>, keep: set<Id>): seq<Rule> {
    if kernel == [] then []
    else if kernel[0].Id() in keep then [kernel[0]] + Restrict(kernel[1..], keep)
    else Restrict(kernel[1..], keep)
  }

  lemma {:induction false} InRestrict(kernel: seq<Rule>, keep: set<Id>)
    ensures forall r :: r in Restrict(kernel, keep) <==> r in kernel && r.Id() in keep
    decreases |kernel|
  {
    if kernel != [] {
      InRestrict(kernel[1..], keep);
      assert kernel == [kernel[0]] + kernel[1..];
    }
  }

  lemma {:induction false} RestrictSame(kernel: seq<Rule>, keep: set<Id>)
    requires Ids(kernel) <= keep
    ensures Restrict(kernel, keep) == kernel
    decreases |kernel|
  {
    if kernel != [] {
      assert kernel[0].Id() in Ids(kernel);
      assert Ids(kernel[1..]) <= Ids(kernel);
      RestrictSame(kernel[1..], keep);
    }
  }

  lemma {:induction false} RestrictTwice(kernel: seq<Rule>, a: set<Id>, b: set<Id>)
    ensures Restrict(Restrict(kernel, a), b) == Restrict(kernel, a * b)
    decreases |kernel|
  {
    if kernel != [] {
      RestrictTwice(kernel[1..], a, b);
      var rest := Restrict(kernel[1..], a);
      assert ([kernel[0]] + rest)[1..] == rest;
    }
  }

  lemma {:induction false} RestrictConcat(a: seq<Rule>, b: seq<Rule>, keep: set<Id>)
    ensures Restrict(a + b, keep) == Restrict(a, keep) + Restrict(b, keep)
    decreases |a|
  {
    if a == [] {
      assert a + b == b;
    } else {
      assert (a + b)[1..] == a[1..] + b;
      RestrictConcat(a[1..], b, keep);
    }
  }

  lemma {:induction false} RemovedIsRestrict(kernel: seq<Rule>, id: Id, keep: set<Id>)
    requires Ids(kernel) <= keep
    ensures Removed(kernel, id) == Restrict(kernel, keep - {id})
    decreases |kernel|
  {
    if kernel != [] {
      assert kernel[0].Id() in Ids(kernel);
      assert Ids(kernel[1..]) <= Ids(kernel);
      RemovedIsRestrict(kernel[1..], id, keep);
    }
  }

  // ----- the invariant

  ghost predicate Unique(kernel: seq<Rule>) {
    forall i, j | 0 <= i < j < |kernel| :: kernel[i].Id() != kernel[j].Id()
  }

  /** Handles not yet given out are free. */
  ghost predicate HandlesFree(st: Store) {
    forall r | r in st.kernel :: r.handle < NextHandle(st, r.spec.fam)
  }

  /** Every count is the number of uses, in the saved filters and in those being handled. */
  ghost predicate Counted(refs: map<Id, int>, m: map<Key, seq<Rule>>, pending: seq<Rule>) {
    && (forall id {:trigger RefCount(refs, id)} :: RefCount(refs, id) == AllUses(m, id) + Uses(pending, id))
    && (forall id | id in refs :: refs[id] > 0)
  }

  /** Every saved rule is installed. */
  ghost predicate SavedInstalled(m: map<Key, seq<Rule>>, kernel: seq<Rule>) {
    forall k, r | k in m && r in m[k] :: r in kernel
  }

  ghost predicate AllIn(rules: seq<Rule>, kernel: seq<Rule>) {
    forall r | r in rules :: r in kernel
  }

  /** The rules of the router's own base chains, which no filter uses. */
  ghost predicate BaseKept(base: set<Id>, st: Store) {
    base <= Ids(st.kernel) && forall id | id in base :: RefCount(st.ruleRef, id) == 0
  }

  /** Every installed rule is a base rule or used. */
  ghost predicate Backed(base: set<Id>, st: Store) {
    forall r | r in st.kernel :: r.Id() in base || RefCount(st.ruleRef, r.Id()) > 0
  }

  ghost predicate Consistent(st: Store, base: set<Id>, pending: seq<Rule>) {
    && Unique(st.kernel)
    && HandlesFree(st)
    && Counted(st.ruleRef, st.ruleMap, pending)
    && SavedInstalled(st.ruleMap, st.kernel)
    && AllIn(pending, st.kernel)
    && BaseKept(base, st)
  }

  ghost predicate Inv(st: Store, base: set<Id>) {
    Consistent(st, base, []) && Backed(base, st)
  }

  lemma {:induction false} SameId(kernel: seq<Rule>, a: Rule, b: Rule)
    requires Unique(kernel) && a in kernel && b in kernel && a.Id() == b.Id()
    ensures a == b
  {
    var i :| 0 <= i < |kernel| && kernel[i] == a;
    var j :| 0 <= j < |kernel| && kernel[j] == b;
    assert i == j;
  }

  lemma {:induction false} AllUsesPositive(m: map<Key, seq<Rule>>, id: Id)
    ensures AllUses(m, id) > 0 <==> exists k, r :: k in m && r in m[k] && r.Id() == id
    decreases |m|
  {
    if m != map[] {
      var key :| key in m && AllUses(m, id) == Uses(m[key], id) + AllUses(m - {key}, id);
      AllUsesPositive(m - {key}, id);
      UsesPositive(m[key], id);
      if k, r :| k in m && r in m[k] && r.Id() == id {
        assert k == key || (k in m - {key} && r in (m - {key})[k]);
      }
    }
  }

  // ----- deleting

  lemma {:induction false} RestrictUnique(kernel: seq<Rule>, keep: set<Id>)
    requires Unique(kernel)
    ensures Unique(Restrict(kernel, keep))
    decreases |kernel|
  {
    if kernel != [] {
      InRestrict(kernel[1..], keep);
      RestrictUnique(kernel[1..], keep);
      var rest := Restrict(kernel[1..], keep);
      forall i | 0 <= i < |rest| ensures rest[i].Id() != kernel[0].Id() {
        assert rest[i] in kernel[1..];
        var j :| 0 <= j < |kernel[1..]| && kernel[1..][j] == rest[i];
        assert kernel[j + 1] == rest[i];
      }
    }
  }

  lemma {:induction false} RemovedFacts(kernel: seq<Rule>, id: Id)
    requires Unique(kernel)
    ensures Unique(Removed(kernel, id))
    ensures forall r :: r in Removed(kernel, id) <==> r in kernel && r.Id() != id
  {
    RemovedIsRestrict(kernel, id, Ids(kernel));
    RestrictUnique(kernel, Ids(kernel) - {id});
    InRestrict(kernel, Ids(kernel) - {id});
    forall r | r in kernel ensures r.Id() in Ids(kernel) {
    }
  }

  lemma {:induction false} ReleaseCounts(st: Store, base: set<Id>, r: Rule, rest: seq<Rule>)
    requires Consistent(st, base, [r] + rest)
    ensures Counted(ReleaseOne(st, r).ruleRef, st.ruleMap, rest)
    ensures forall id ::
              RefCount(ReleaseOne(st, r).ruleRef, id) == RefCount(st.ruleRef, id) - (if id == r.Id() then 1 else 0)
  {
    var st' := ReleaseOne(st, r);
    assert ([r] + rest)[1..] == rest;
    assert RefCount(st.ruleRef, r.Id()) == AllUses(st.ruleMap, r.Id()) + Uses([r] + rest, r.Id());
    forall id
      ensures RefCount(st'.ruleRef, id) == AllUses(st.ruleMap, id) + Uses(rest, id)
      ensures RefCount(st'.ruleRef, id) == RefCount(st.ruleRef, id) - (if id == r.Id() then 1 else 0)
    {
      assert RefCount(st.ruleRef, id) == AllUses(st.ruleMap, id) + Uses([r] + rest, id);
    }
  }

  lemma {:induction false} LastUse(st: Store, base: set<Id>, r: Rule, rest: seq<Rule>)
    requires Consistent(st, base, [r] + rest) && Backed(base, st) && RefCount(st.ruleRef, r.Id()) == 1
    ensures Consistent(ReleaseOne(st, r), base, rest) && Backed(base, ReleaseOne(st, r))
    ensures exists keep :: ReleaseOne(st, r).kernel == Restrict(st.kernel, keep)
  {
    var st' := ReleaseOne(st, r);
    var id := r.Id();
    ReleaseCounts(st, base, r, rest);
    assert r in [r] + rest && forall x | x in rest :: x in [r] + rest;
    RemovedFacts(st.kernel, id);
    RemovedIsRestrict(st.kernel, id, Ids(st.kernel));
    AllUsesPositive(st.ruleMap, id);
    UsesPositive(rest, id);
    assert RefCount(st'.ruleRef, id) == 0;
    assert id !in base;
    BaseStays(st, st', base, id);
  }

  /** Releasing one use keeps everything consistent; the rule goes when that was its last use. */
  lemma {:induction false} ReleaseOneKeeps(st: Store, base: set<Id>, r: Rule, rest: seq<Rule>)
    requires Consistent(st, base, [r] + rest) && Backed(base, st)
    ensures Consistent(ReleaseOne(st, r), base, rest) && Backed(base, ReleaseOne(st, r))
    ensures exists keep :: ReleaseOne(st, r).kernel == Restrict(st.kernel, keep)
  {
    if RefCount(st.ruleRef, r.Id()) == 1 {
      LastUse(st, base, r, rest);
    } else {
      ReleaseCounts(st, base, r, rest);
      assert forall x | x in rest :: x in [r] + rest;
      RestrictSame(st.kernel, Ids(st.kernel));
    }
  }

  lemma {:induction false} BaseStays(st: Store, st': Store, base: set<Id>, id: Id)
    requires base <= Ids(st.kernel) && id !in base
    requires forall r :: r in st'.kernel <==> r in st.kernel && r.Id() != id
    ensures base <= Ids(st'.kernel)
  {
    forall b | b in base ensures b in Ids(st'.kernel) {
      var r :| r in st.kernel && r.Id() == b;
      assert r in st'.kernel;
    }
  }

  lemma {:induction false} ReleaseKeeps(st: Store, base: set<Id>, rules: seq<Rule>)
    requires Consistent(st, base, rules) && Backed(base, st)
    ensures Inv(Release(st, rules), base)
    ensures Release(st, rules).ruleMap == st.ruleMap && Release(st, rules).next == st.next
    ensures exists keep :: Release(st, rules).kernel == Restrict(st.kernel, keep)
    decreases |rules|
  {
    if rules == [] {
      RestrictSame(st.kernel, Ids(st.kernel));
    } else {
      assert rules == [rules[0]] + rules[1..];
      ReleaseOneKeeps(st, base, rules[0], rules[1..]);
      var st' := ReleaseOne(st, rules[0]);
      ReleaseKeeps(st', base, rules[1..]);
      var a :| st'.kernel == Restrict(st.kernel, a);
      var b :| Release(st, rules).kernel == Restrict(st'.kernel, b);
      RestrictTwice(st.kernel, a, b);
    }
  }

  lemma {:induction false} ReleaseMap(st: Store, rules: seq<Rule>, m: map<Key, seq<Rule>>)
    ensures Release(st.(ruleMap := m), rules) == Release(st, rules).(ruleMap := m)
    decreases |rules|
  {
    if rules != [] {
      ReleaseMap(ReleaseOne(st, rules[0]), rules[1..], m);
    }
  }

  lemma {:induction false} TakenOut(st: Store, base: set<Id>, key: Key)
    requires Inv(st, base) && key in st.ruleMap
    ensures Consistent(st.(ruleMap := st.ruleMap - {key}), base, st.ruleMap[key])
  {
    var m := st.ruleMap - {key};
    forall id
      ensures RefCount(st.ruleRef, id) == AllUses(m, id) + Uses(st.ruleMap[key], id)
    {
      AllUsesWithout(st.ruleMap, key, id);
      assert RefCount(st.ruleRef, id) == AllUses(st.ruleMap, id) + Uses([], id);
    }
  }

  /** Deleting a filter keeps counts equal to uses and removes exactly the rules no other filter uses. */
  lemma {:induction false} DeleteKeeps(st: Store, base: set<Id>, key: Key)
    requires Inv(st, base) && key in st.ruleMap
    ensures Delete(st, key).Some? && Inv(Delete(st, key).value, base)
    ensures var st' := Delete(st, key).value;
            && st'.ruleMap == st.ruleMap - {key}
            && (exists keep :: st'.kernel == Restrict(st.kernel, keep))
            && forall r | r in st.kernel ::
                 r in st'.kernel <==> r.Id() in base || AllUses(st.ruleMap - {key}, r.Id()) > 0
  {
    var m := st.ruleMap - {key};
    var st0 := st.(ruleMap := m);
    var rules := st.ruleMap[key];
    TakenOut(st, base, key);
    ReleaseKeeps(st0, base, rules);
    ReleaseMap(st, rules, m);
    ReleaseMap(st, rules, st.ruleMap);
    assert st.(ruleMap := st.ruleMap) == st;
    var st' := Release(st0, rules);
    assert Delete(st, key) == Some(st');
    var keep :| st'.kernel == Restrict(st.kernel, keep);
    InRestrict(st.kernel, keep);
    forall r | r in st.kernel
      ensures r in st'.kernel <==> r.Id() in base || AllUses(m, r.Id()) > 0
    {
      AllUsesPositive(m, r.Id());
      assert RefCount(st'.ruleRef, r.Id()) == AllUses(m, r.Id()) + Uses([], r.Id());
      if AllUses(m, r.Id()) > 0 {
        var k: Key, x: Rule :| k in m && x in m[k] && x.Id() == r.Id();
        assert x in st'.kernel;
        SameId(st.kernel, r, x);
      }
      if r.Id() in base {
        var x :| x in st'.kernel && x.Id() == r.Id();
        SameId(st.kernel, r, x);
      }
    }
  }

  // ----- saving

  /** No rule that is new to the kernel occurs twice in the batch. */
  ghost predicate NoFreshDuplicates(committed: seq<Rule>, specs: seq<RuleSpec>)
    decreases |specs|
  {
    specs != [] ==>
      && NoFreshDuplicates(committed, specs[1..])
      && (Find(committed, specs[0]).None? ==> specs[0] !in specs[1..])
  }

  lemma {:induction false} PlacedFacts(kernel: seq<Rule>, r: Rule, at: Where)
    ensures forall x :: x in Placed(kernel, r, at) <==> x in kernel || x == r
    ensures |Placed(kernel, r, at)| == |kernel| + 1
    ensures exists i | 0 <= i <= |kernel| :: Placed(kernel, r, at) == kernel[..i] + [r] + kernel[i..]
  {
    match at
    case Append =>
      assert kernel[..|kernel|] + [r] + kernel[|kernel|..] == kernel + [r];
    case Before(handles) =>
      if r.spec.fam in handles {
        var i := IndexOf(kernel, RuleId(r.spec.fam, handles[r.spec.fam]));
        assert Placed(kernel, r, at) == kernel[..i] + [r] + kernel[i..];
        assert kernel == kernel[..i] + kernel[i..];
      } else {
        assert kernel[..0] + [r] + kernel[0..] == [r] + kernel;
      }
  }

  lemma {:induction false} InsertedUnique(kernel: seq<Rule>, r: Rule, n: nat)
    requires Unique(kernel) && n <= |kernel|
    requires forall i | 0 <= i < |kernel| :: kernel[i].Id() != r.Id()
    ensures Unique(kernel[..n] + [r] + kernel[n..])
  {
    var k := kernel[..n] + [r] + kernel[n..];
    assert forall i | 0 <= i < n :: k[i] == kernel[i];
    assert forall i | n < i < |k| :: k[i] == kernel[i - 1];
  }

  lemma {:induction false} PlacedUnique(kernel: seq<Rule>, r: Rule, at: Where)
    requires Unique(kernel) && r.Id() !in Ids(kernel)
    ensures Unique(Placed(kernel, r, at))
  {
    PlacedFacts(kernel, r, at);
    var n :| 0 <= n <= |kernel| && Placed(kernel, r, at) == kernel[..n] + [r] + kernel[n..];
    forall i | 0 <= i < |kernel| ensures kernel[i].Id() != r.Id() {
      assert kernel[i] in kernel;
    }
    InsertedUnique(kernel, r, n);
  }

  lemma {:induction false} PlacedRestrict(kernel: seq<Rule>, r: Rule, at: Where, keep: set<Id>)
    requires r.Id() !in keep
    ensures Restrict(Placed(kernel, r, at), keep) == Restrict(kernel, keep)
  {
    PlacedFacts(kernel, r, at);
    var n :| 0 <= n <= |kernel| && Placed(kernel, r, at) == kernel[..n] + [r] + kernel[n..];
    RestrictConcat(kernel[..n] + [r], kernel[n..], keep);
    RestrictConcat(kernel[..n], [r], keep);
    RestrictConcat(kernel[..n], kernel[n..], keep);
    assert kernel == kernel[..n] + kernel[n..];
    assert Restrict([r], keep) == Restrict([r][1..], keep) == [];
  }

  lemma {:induction false} InstallOneFacts(st: Store, committed: seq<Rule>, spec: RuleSpec, at: Where, keep: set<Id>)
    requires Unique(st.kernel) && HandlesFree(st)
    requires forall id | id in keep :: id.handle < NextHandle(st, id.fam)
    ensures var st' := InstallOne(st, committed, spec, at);
            && Unique(st'.kernel) && HandlesFree(st')
            && (forall id | id in keep :: id.handle < NextHandle(st', id.fam))
            && Restrict(st'.kernel, keep) == Restrict(st.kernel, keep)
            && st'.ruleMap == st.ruleMap && st'.ruleRef == st.ruleRef
            && (forall x | x in st.kernel :: x in st'.kernel)
            && forall x | x in st'.kernel && x !in st.kernel :: x.spec == spec && Find(committed, spec).None?
  {
    if Find(committed, spec).None? {
      var r := Rule(spec, NextHandle(st, spec.fam));
      PlacedFacts(st.kernel, r, at);
      assert r.Id() !in Ids(st.kernel);
      PlacedUnique(st.kernel, r, at);
      PlacedRestrict(st.kernel, r, at, keep);
    }
  }

  /** Installing keeps the old rules in order and adds rules of the batch only. */
  lemma {:induction false} InstallFacts(st: Store, committed: seq<Rule>, specs: seq<RuleSpec>, at: Where, keep: set<Id>)
    requires Unique(st.kernel) && HandlesFree(st)
    requires forall id | id in keep :: id.handle < NextHandle(st, id.fam)
    ensures var st' := Install(st, committed, specs, at);
            && Unique(st'.kernel) && HandlesFree(st')
            && Restrict(st'.kernel, keep) == Restrict(st.kernel, keep)
            && st'.ruleMap == st.ruleMap && st'.ruleRef == st.ruleRef
            && (forall x | x in st.kernel :: x in st'.kernel)
            && forall x | x in st'.kernel && x !in st.kernel :: x.spec in specs && Find(committed, x.spec).None?
    decreases |specs|
  {
    if specs != [] {
      InstallOneFacts(st, committed, specs[0], at, keep);
      InstallFacts(InstallOne(st, committed, specs[0], at), committed, specs[1..], at, keep);
    }
  }

  /** Every rule of the batch ends up installed. */
  lemma {:induction false} InstallComplete(st: Store, committed: seq<Rule>, specs: seq<RuleSpec>, at: Where)
    requires Unique(st.kernel) && HandlesFree(st) && AllIn(committed, st.kernel)
    ensures forall spec | spec in specs :: Find(Install(st, committed, specs, at).kernel, spec).Some?
    decreases |specs|
  {
    if specs != [] {
      var st' := InstallOne(st, committed, specs[0], at);
      InstallOneFacts(st, committed, specs[0], at, {});
      InstallComplete(st', committed, specs[1..], at);
      InstallFacts(st', committed, specs[1..], at, {});
      if Find(committed, specs[0]).None? {
        PlacedFacts(st.kernel, Rule(specs[0], NextHandle(st, specs[0].fam)), at);
      }
      assert exists x :: x in st'.kernel && x.spec == specs[0];
    }
  }

  ghost predicate OnlyOne(kernel: seq<Rule>, spec: RuleSpec) {
    forall x, y | x in kernel && y in kernel && x.spec == spec && y.spec == spec :: x == y
  }

  /** A rule new to the kernel is installed once. */
  lemma {:induction false} InstallOnce(st: Store, committed: seq<Rule>, specs: seq<RuleSpec>, at: Where, spec: RuleSpec)
    requires Unique(st.kernel) && HandlesFree(st)
    requires NoFreshDuplicates(committed, specs) && Find(committed, spec).None?
    requires OnlyOne(st.kernel, spec) && (spec in specs ==> Find(st.kernel, spec).None?)
    ensures OnlyOne(Install(st, committed, specs, at).kernel, spec)
    decreases |specs|
  {
    if specs != [] {
      var st' := InstallOne(st, committed, specs[0], at);
      InstallOneFacts(st, committed, specs[0], at, {});
      if Find(committed, specs[0]).None? {
        PlacedFacts(st.kernel, Rule(specs[0], NextHandle(st, specs[0].fam)), at);
      }
      InstallOnce(st', committed, specs[1..], at, spec);
    }
  }

  /** Attaching finds every rule and adds one use of it. */
  lemma {:induction false} AttachFacts(refs: map<Id, int>, kernel: seq<Rule>, specs: seq<RuleSpec>)
    requires forall spec | spec in specs :: Find(kernel, spec).Some?
    requires forall id | id in refs :: refs[id] > 0
    ensures var r := Attach(refs, kernel, specs);
            && r.Some?
            && (forall id {:trigger RefCount(r.value.0, id)} ::
                 RefCount(r.value.0, id) == RefCount(refs, id) + Uses(r.value.1, id))
            && (forall id | id in r.value.0 :: r.value.0[id] > 0)
            && |r.value.1| == |specs|
            && forall i | 0 <= i < |specs| :: Find(kernel, specs[i]) == Some(r.value.1[i])
    decreases |specs|
  {
    if specs != [] {
      var x := Find(kernel, specs[0]).value;
      var refs1 := refs[x.Id() := RefCount(refs, x.Id()) + 1];
      AttachFacts(refs1, kernel, specs[1..]);
      var (refs', rules) := Attach(refs1, kernel, specs[1..]).value;
      assert ([x] + rules)[1..] == rules;
      forall id ensures RefCount(refs', id) == RefCount(refs, id) + Uses([x] + rules, id) {
        assert RefCount(refs', id) == RefCount(refs1, id) + Uses(rules, id);
      }
    }
  }

  /** What Save computes, when nothing is missing. */
  lemma {:induction false} SaveResult(st: Store, base: set<Id>, key: Key, specs: seq<RuleSpec>, at: Where)
    returns (st1: Store, refs: map<Id, int>, rules: seq<Rule>)
    requires Inv(st, base)
    ensures st1 == Install(st, st.kernel, specs, at)
    ensures Attach(st.ruleRef, st1.kernel, specs) == Some((refs, rules))
    ensures Save(st, key, specs, at)
         == Some(if specs == [] then st
                 else st1.(ruleRef := refs, ruleMap := st.ruleMap[key := SavedUnder(st.ruleMap, key) + rules]))
    ensures AllIn(rules, st1.kernel)
    ensures |rules| == |specs| && forall i | 0 <= i < |specs| :: Find(st1.kernel, specs[i]) == Some(rules[i])
    ensures forall id {:trigger RefCount(refs, id)} :: RefCount(refs, id) == RefCount(st.ruleRef, id) + Uses(rules, id)
    ensures forall id | id in refs :: refs[id] > 0
    ensures Unique(st1.kernel) && HandlesFree(st1)
    ensures st1.ruleMap == st.ruleMap && st1.ruleRef == st.ruleRef && AllIn(st.kernel, st1.kernel)
  {
    st1 := Install(st, st.kernel, specs, at);
    InstallFacts(st, st.kernel, specs, at, {});
    InstallComplete(st, st.kernel, specs, at);
    AttachFacts(st.ruleRef, st1.kernel, specs);
    var r := Attach(st.ruleRef, st1.kernel, specs).value;
    refs, rules := r.0, r.1;
  }

  lemma {:induction false} SaveCounts(st: Store, base: set<Id>, key: Key, refs: map<Id, int>, rules: seq<Rule>)
    requires Inv(st, base)
    requires forall id {:trigger RefCount(refs, id)} :: RefCount(refs, id) == RefCount(st.ruleRef, id) + Uses(rules, id)
    requires forall id | id in refs :: refs[id] > 0
    ensures Counted(refs, st.ruleMap[key := SavedUnder(st.ruleMap, key) + rules], [])
  {
    var m := st.ruleMap[key := SavedUnder(st.ruleMap, key) + rules];
    forall id ensures RefCount(refs, id) == AllUses(m, id) + Uses([], id) {
      AllUsesUpdate(st.ruleMap, key, rules, id);
      assert RefCount(st.ruleRef, id) == AllUses(st.ruleMap, id) + Uses([], id);
    }
  }

  /** A batch never reuses a rule of the router's base chains. */
  ghost predicate AvoidsBase(st: Store, base: set<Id>, specs: seq<RuleSpec>) {
    forall r | r in st.kernel && r.Id() in base :: r.spec !in specs
  }

  lemma {:induction false} BaseUncounted(st: Store, base: set<Id>, specs: seq<RuleSpec>, st1: Store, rules: seq<Rule>,
                                         id: Id)
    requires Inv(st, base) && AvoidsBase(st, base, specs) && id in base
    requires Unique(st1.kernel) && AllIn(st.kernel, st1.kernel) && AllIn(rules, st1.kernel)
    requires |rules| == |specs| && forall i | 0 <= i < |specs| :: Find(st1.kernel, specs[i]) == Some(rules[i])
    ensures Uses(rules, id) == 0
  {
    UsesPositive(rules, id);
    var x :| x in st.kernel && x.Id() == id;
    forall r | r in rules ensures r.Id() != id {
      var i :| 0 <= i < |rules| && rules[i] == r;
      assert r.spec == specs[i] && x.spec !in specs;
      if r.Id() == x.Id() {
        SameId(st1.kernel, r, x);
      }
    }
  }

  lemma {:induction false} NewRuleUsed(st: Store, specs: seq<RuleSpec>, at: Where, st1: Store, rules: seq<Rule>,
                                       r: Rule)
    requires Unique(st.kernel) && HandlesFree(st) && NoFreshDuplicates(st.kernel, specs)
    requires st1 == Install(st, st.kernel, specs, at) && r in st1.kernel && r !in st.kernel
    requires |rules| == |specs| && forall i | 0 <= i < |specs| :: Find(st1.kernel, specs[i]) == Some(rules[i])
    ensures Uses(rules, r.Id()) > 0
  {
    InstallFacts(st, st.kernel, specs, at, {});
    InstallOnce(st, st.kernel, specs, at, r.spec);
    var i :| 0 <= i < |specs| && specs[i] == r.spec;
    assert rules[i] == r;
    assert rules[i] in rules;
    UsesPositive(rules, r.Id());
  }

  /** Saving a batch keeps counts equal to uses and every used rule installed. */
  lemma {:induction false} SaveKeeps(st: Store, base: set<Id>, key: Key, specs: seq<RuleSpec>, at: Where)
    requires Inv(st, base) && AvoidsBase(st, base, specs) && NoFreshDuplicates(st.kernel, specs)
    ensures Save(st, key, specs, at).Some? && Inv(Save(st, key, specs, at).value, base)
    ensures forall spec | spec in specs :: Find(Save(st, key, specs, at).value.kernel, spec).Some?
  {
    var st1, refs, rules := SaveResult(st, base, key, specs, at);
    var st' := Save(st, key, specs, at).value;
    if specs != [] {
      SaveCounts(st, base, key, refs, rules);
      forall id | id in base ensures RefCount(refs, id) == 0 {
        BaseUncounted(st, base, specs, st1, rules, id);
      }
      forall b | b in base ensures b in Ids(st1.kernel) {
        var x :| x in st.kernel && x.Id() == b;
        assert x in st1.kernel;
      }
      forall r | r in st1.kernel ensures r.Id() in base || RefCount(refs, r.Id()) > 0 {
        if r !in st.kernel {
          NewRuleUsed(st, specs, at, st1, rules, r);
          assert RefCount(st.ruleRef, r.Id()) == AllUses(st.ruleMap, r.Id()) + Uses([], r.Id());
        }
      }
      forall spec | spec in specs ensures Find(st1.kernel, spec).Some? {
        var i :| 0 <= i < |specs| && specs[i] == spec;
      }
    }
  }

  // ----- saving and deleting are inverse

  /** Counts are determined by the saved filters. */
  lemma {:induction false} CountsDetermined(a: map<Id, int>, b: map<Id, int>, m: map<Key, seq<Rule>>)
    requires Counted(a, m, []) && Counted(b, m, [])
    ensures a == b
  {
    forall id ensures RefCount(a, id) == RefCount(b, id) {
      assert RefCount(a, id) == AllUses(m, id) + Uses([], id);
      assert RefCount(b, id) == AllUses(m, id) + Uses([], id);
    }
    forall id ensures id in a <==> id in b {
      assert id in a ==> RefCount(a, id) > 0;
      assert id in b ==> RefCount(b, id) > 0;
    }
    forall id | id in a ensures a[id] == b[id] {
      assert RefCount(a, id) == a[id] && RefCount(b, id) == b[id];
    }
  }

  lemma {:induction false} RestrictEqual(kernel: seq<Rule>, a: set<Id>, b: set<Id>)
    requires forall r | r in kernel :: r.Id() in a <==> r.Id() in b
    ensures Restrict(kernel, a) == Restrict(kernel, b)
    decreases |kernel|
  {
    if kernel != [] {
      RestrictEqual(kernel[1..], a, b);
    }
  }

  /** Deleting a filter just saved under a fresh key restores rules, counts and filters; only handles have moved on. */
  lemma {:induction false} DeleteUndoesSave(st: Store, base: set<Id>, key: Key, specs: seq<RuleSpec>, at: Where)
    requires Inv(st, base) && AvoidsBase(st, base, specs) && NoFreshDuplicates(st.kernel, specs)
    requires key !in st.ruleMap && specs != []
    ensures Save(st, key, specs, at).Some?
    ensures Delete(Save(st, key, specs, at).value, key).Some?
    ensures var st2 := Delete(Save(st, key, specs, at).value, key).value;
            st2.(next := st.next) == st
  {
    SaveKeeps(st, base, key, specs, at);
    var saved := SavedFacts(st, base, key, specs, at);
    DeleteKeeps(saved, base, key);
    var st2 := Delete(saved, key).value;
    assert saved.ruleMap - {key} == st.ruleMap;
    CountsDetermined(st2.ruleRef, st.ruleRef, st.ruleMap);
    KernelRestored(st, base, specs, at, saved, st2);
  }

  lemma {:induction false} SavedFacts(st: Store, base: set<Id>, key: Key, specs: seq<RuleSpec>, at: Where)
    returns (saved: Store)
    requires Inv(st, base) && key !in st.ruleMap && specs != []
    ensures Save(st, key, specs, at) == Some(saved) && Unique(saved.kernel)
    ensures saved.kernel == Install(st, st.kernel, specs, at).kernel && AllIn(st.kernel, saved.kernel)
    ensures key in saved.ruleMap && saved.ruleMap - {key} == st.ruleMap
  {
    var st1, refs, rules := SaveResult(st, base, key, specs, at);
    saved := Save(st, key, specs, at).value;
  }

  lemma {:induction false} KernelRestored(st: Store, base: set<Id>, specs: seq<RuleSpec>, at: Where, saved: Store,
                                          st2: Store)
    requires Inv(st, base) && Unique(saved.kernel)
    requires saved.kernel == Install(st, st.kernel, specs, at).kernel && AllIn(st.kernel, saved.kernel)
    requires exists keep :: st2.kernel == Restrict(saved.kernel, keep)
    requires forall r | r in saved.kernel :: r in st2.kernel <==> r.Id() in base || AllUses(st.ruleMap, r.Id()) > 0
    ensures st2.kernel == st.kernel
  {
    var keep :| st2.kernel == Restrict(saved.kernel, keep);
    var before := Ids(st.kernel);
    InRestrict(saved.kernel, keep);
    forall r | r in saved.kernel ensures r.Id() in keep <==> r.Id() in before {
      assert r in st2.kernel <==> r.Id() in keep;
      if r.Id() in before {
        var x :| x in st.kernel && x.Id() == r.Id();
        SameId(saved.kernel, r, x);
        assert RefCount(st.ruleRef, x.Id()) == AllUses(st.ruleMap, x.Id()) + Uses([], x.Id());
      } else {
        NotOldUnused(st, base, r.Id());
      }
    }
    RestrictEqual(saved.kernel, keep, before);
    InstallFacts(st, st.kernel, specs, at, before);
    RestrictSame(st.kernel, before);
  }

  lemma {:induction false} NotOldUnused(st: Store, base: set<Id>, id: Id)
    requires Inv(st, base) && id !in Ids(st.kernel)
    ensures id !in base && AllUses(st.ruleMap, id) == 0
  {
    AllUsesPositive(st.ruleMap, id);
    forall k, r | k in st.ruleMap && r in st.ruleMap[k] ensures r.Id() != id {
      assert r in st.kernel;
      assert r.Id() in Ids(st.kernel);
    }
  }

  // ----- a batch that repeats a new rule

  function Copies(kernel: seq<Rule>, spec: RuleSpec): nat {
    if kernel == [] then 0 else (if kernel[0].spec == spec then 1 else 0) + Copies(kernel[1..], spec)
  }

  function Times(specs: seq<RuleSpec>, spec: RuleSpec): nat {
    if specs == [] then 0 else (if specs[0] == spec then 1 else 0) + Times(specs[1..], spec)
  }

  lemma {:induction false} CopiesConcat(a: seq<Rule>, b: seq<Rule>, spec: RuleSpec)
    ensures Copies(a + b, spec) == Copies(a, spec) + Copies(b, spec)
    decreases |a|
  {
    if a == [] {
      assert a + b == b;
    } else {
      assert (a + b)[1..] == a[1..] + b;
      CopiesConcat(a[1..], b, spec);
    }
  }

  lemma {:induction false} CopiesPlaced(kernel: seq<Rule>, r: Rule, at: Where, spec: RuleSpec)
    ensures Copies(Placed(kernel, r, at), spec) == Copies(kernel, spec) + if r.spec == spec then 1 else 0
  {
    PlacedFacts(kernel, r, at);
    var n :| 0 <= n <= |kernel| && Placed(kernel, r, at) == kernel[..n] + [r] + kernel[n..];
    CopiesConcat(kernel[..n] + [r], kernel[n..], spec);
    CopiesConcat(kernel[..n], [r], spec);
    CopiesConcat(kernel[..n], kernel[n..], spec);
    assert kernel == kernel[..n] + kernel[n..];
    assert Copies([r][1..], spec) == 0;
  }

  lemma {:induction false} InstalledCopies(st: Store, committed: seq<Rule>, specs: seq<RuleSpec>, at: Where,
                                           spec: RuleSpec)
    requires Find(committed, spec).None?
    ensures Copies(Install(st, committed, specs, at).kernel, spec) == Copies(st.kernel, spec) + Times(specs, spec)
    decreases |specs|
  {
    if specs != [] {
      if Find(committed, specs[0]).None? {
        CopiesPlaced(st.kernel, Rule(specs[0], NextHandle(st, specs[0].fam)), at, spec);
      }
      InstalledCopies(InstallOne(st, committed, specs[0], at), committed, specs[1..], at, spec);
    }
  }

  lemma {:induction false} TimesPositive(specs: seq<RuleSpec>, spec: RuleSpec)
    requires spec in specs
    ensures Times(specs, spec) > 0
    decreases |specs|
  {
    if specs[0] != spec {
      TimesPositive(specs[1..], spec);
    }
  }

  lemma {:induction false} DuplicateTwice(committed: seq<Rule>, specs: seq<RuleSpec>) returns (spec: RuleSpec)
    requires !NoFreshDuplicates(committed, specs)
    ensures Find(committed, spec).None? && Times(specs, spec) >= 2
    decreases |specs|
  {
    if !NoFreshDuplicates(committed, specs[1..]) {
      spec := DuplicateTwice(committed, specs[1..]);
    } else {
      spec := specs[0];
      TimesPositive(specs[1..], spec);
    }
  }

  /** With two copies of a rule, one of them is not the one found. */
  lemma {:induction false} SecondCopy(kernel: seq<Rule>, spec: RuleSpec) returns (r: Rule)
    requires Copies(kernel, spec) >= 2 && Unique(kernel)
    ensures r in kernel && r.spec == spec && Find(kernel, spec).Some? && r.Id() != Find(kernel, spec).value.Id()
    decreases |kernel|
  {
    if kernel[0].spec == spec {
      var i := SomeCopy(kernel[1..], spec);
      r := kernel[1..][i];
      assert kernel[i + 1] == r;
    } else {
      r := SecondCopy(kernel[1..], spec);
    }
  }

  lemma {:induction false} SomeCopy(kernel: seq<Rule>, spec: RuleSpec) returns (i: nat)
    requires Copies(kernel, spec) >= 1
    ensures i < |kernel| && kernel[i].spec == spec
    decreases |kernel|
  {
    if kernel[0].spec == spec {
      i := 0;
    } else {
      var j := SomeCopy(kernel[1..], spec);
      i := j + 1;
    }
  }

  /** Saving keeps the invariant exactly when the batch repeats no rule that is new to the kernel. */
  lemma {:induction false} SaveKeepsIff(st: Store, base: set<Id>, key: Key, specs: seq<RuleSpec>, at: Where)
    requires Inv(st, base) && AvoidsBase(st, base, specs)
    ensures Save(st, key, specs, at).Some?
    ensures Inv(Save(st, key, specs, at).value, base) <==> NoFreshDuplicates(st.kernel, specs)
  {
    var st1, refs, rules := SaveResult(st, base, key, specs, at);
    if NoFreshDuplicates(st.kernel, specs) {
      SaveKeeps(st, base, key, specs, at);
    } else {
      var spec := DuplicateTwice(st.kernel, specs);
      InstalledCopies(st, st.kernel, specs, at, spec);
      var r := SecondCopy(st1.kernel, spec);
      OrphanUnused(st, base, specs, at, st1, rules, r);
      assert r in Save(st, key, specs, at).value.kernel;
    }
  }

  /** The copy that is not found is installed, but nothing counts it. */
  lemma {:induction false} OrphanUnused(st: Store, base: set<Id>, specs: seq<RuleSpec>, at: Where, st1: Store,
                                        rules: seq<Rule>, r: Rule)
    requires Inv(st, base) && st1 == Install(st, st.kernel, specs, at)
    requires Unique(st1.kernel) && AllIn(st.kernel, st1.kernel) && AllIn(rules, st1.kernel)
    requires |rules| == |specs| && forall i | 0 <= i < |specs| :: Find(st1.kernel, specs[i]) == Some(rules[i])
    requires r in st1.kernel && Find(st.kernel, r.spec).None?
    requires Find(st1.kernel, r.spec).Some? && Find(st1.kernel, r.spec).value.Id() != r.Id()
    ensures RefCount(st.ruleRef, r.Id()) + Uses(rules, r.Id()) == 0 && r.Id() !in base
  {
    UsesPositive(rules, r.Id());
    forall x | x in rules ensures x.Id() != r.Id() {
      var i :| 0 <= i < |rules| && rules[i] == x;
      assert Find(st1.kernel, x.spec) == Some(x);
      if x.Id() == r.Id() {
        SameId(st1.kernel, x, r);
      }
    }
    forall x | x in st.kernel ensures x.Id() != r.Id() {
      assert x.spec != r.spec;
      if x.Id() == r.Id() {
        SameId(st1.kernel, x, r);
      }
    }
    NotOldUnused(st, base, r.Id());
    assert RefCount(st.ruleRef, r.Id()) == AllUses(st.ruleMap, r.Id()) + Uses([], r.Id());
  }

  // ----- whole runs

  datatype Command = SaveFilter(key: Key, specs: seq<RuleSpec>, at: Where) | DeleteFilter(key: Key)

  /** Runs commands; one that returns an error changes nothing. */
  function Execute(st: Store, commands: seq<Command>): Store
    decreases |commands|
  {
    if commands == [] then st
    else
      var r := match commands[0]
               case SaveFilter(key, specs, at) => Save(st, key, specs, at)
               case DeleteFilter(key) => Delete(st, key);
      Execute(if r.Some? then r.value else st, commands[1..])
  }

  ghost predicate Distinct(specs: seq<RuleSpec>) {
    forall i, j | 0 <= i < j < |specs| :: specs[i] != specs[j]
  }

  lemma {:induction false} DistinctConcat(a: seq<RuleSpec>, b: seq<RuleSpec>)
    requires Distinct(a) && Distinct(b)
    requires (forall s | s in a :: s.fam == V4) && (forall s | s in b :: s.fam == V6)
    ensures Distinct(a + b)
  {
    var all := a + b;
    assert forall i | 0 <= i < |a| :: all[i] == a[i] && a[i] in a;
    assert forall i | |a| <= i < |all| :: all[i] == b[i - |a|] && b[i - |a|] in b;
  }

  lemma {:induction false} DistinctIsEnough(committed: seq<Rule>, specs: seq<RuleSpec>)
    requires Distinct(specs)
    ensures NoFreshDuplicates(committed, specs)
    decreases |specs|
  {
    if specs != [] {
      DistinctIsEnough(committed, specs[1..]);
    }
  }

  /** A command as the router issues it: distinct rules, none of them a base rule. */
  ghost predicate Proper(c: Command, baseSpecs: set<RuleSpec>) {
    c.SaveFilter? ==> Distinct(c.specs) && forall s | s in c.specs :: s !in baseSpecs
  }

  ghost predicate BaseIs(st: Store, base: set<Id>, baseSpecs: set<RuleSpec>) {
    forall r | r in st.kernel && r.Id() in base :: r.spec in baseSpecs
  }

  /**
   After any sequence of saves and deletes, each rule's count is its number of
   occurrences across the saved filters, and a rule is installed exactly when it
   is a base rule or that count is positive.
   */
  lemma {:induction false} CountsExact(st: Store, base: set<Id>, baseSpecs: set<RuleSpec>, commands: seq<Command>)
    requires Inv(st, base) && BaseIs(st, base, baseSpecs)
    requires forall c | c in commands :: Proper(c, baseSpecs)
    ensures Inv(Execute(st, commands), base) && BaseIs(Execute(st, commands), base, baseSpecs)
    decreases |commands|
  {
    if commands != [] {
      var c := commands[0];
      assert Proper(c, baseSpecs);
      match c {
        case SaveFilter(key, specs, at) =>
          DistinctIsEnough(st.kernel, specs);
          SaveKeeps(st, base, key, specs, at);
          var st', refs, rules := SaveResult(st, base, key, specs, at);
          forall r | r in st'.kernel && r.Id() in base ensures r.spec in baseSpecs {
            var x :| x in st.kernel && x.Id() == r.Id();
            SameId(st'.kernel, r, x);
          }
          CountsExact(Save(st, key, specs, at).value, base, baseSpecs, commands[1..]);
        case DeleteFilter(key) =>
          if key in st.ruleMap {
            DeleteKeeps(st, base, key);
            var keep :| Delete(st, key).value.kernel == Restrict(st.kernel, keep);
            InRestrict(st.kernel, keep);
            CountsExact(Delete(st, key).value, base, baseSpecs, commands[1..]);
          } else {
            CountsExact(st, base, baseSpecs, commands[1..]);
          }
      }
    }
  }
}
