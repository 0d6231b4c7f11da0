/**
 The deny and allow lists: two sets of addresses and the prerouting rules that
 consult them, installed while a list is not empty.
 */
module IpLists {
  import opened Common
  import opened Bits
  import opened Nft
  import opened RuleStore
  import opened RuleCounts
  import opened Router
  import opened GroupVerdicts
  import FirstMatch
  import HookVerdicts

  datatype Which = Deny | Allow

  datatype Addr = Addr(fam: Family, bits: Bits)

  /** The four kernel sets: each list has one a family. */
  type Members = map<(Which, Family), set<Bits>>

  function Get(m: Members, w: Which, fam: Family): set<Bits> {
    if (w, fam) in m then m[(w, fam)] else {}
  }

  datatype SetOp = Insert(w: Which, fam: Family, elems: set<Bits>) | Remove(w: Which, fam: Family, elems: set<Bits>)

  function ApplyOp(m: Members, op: SetOp): Members {
    match op
    case Insert(w, fam, elems) => m[(w, fam) := Get(m, w, fam) + elems]
    case Remove(w, fam, elems) => m[(w, fam) := Get(m, w, fam) - elems]
  }

  function ApplyOps(m: Members, ops: seq<SetOp>): Members
    decreases |ops|
  {
    if ops == [] then m else ApplyOps(ApplyOp(m, ops[0]), ops[1..])
  }

  /** The rule store, the committed sets and the set operations queued but not flushed yet. */
  datatype State = State(store: Store, committed: Members, pending: seq<SetOp>)

  /** The sets once the queue is flushed. */
  function Current(st: State): Members {
    ApplyOps(st.committed, st.pending)
  }

  function Flush(st: State): State {
    st.(committed := Current(st), pending := [])
  }

  function Queue(st: State, ops: seq<SetOp>): State {
    st.(pending := st.pending + ops)
  }

  // ----- the rules

  function ListSet(w: Which): SetName {
    if w == Deny then DenyList else AllowList
  }

  function ListKey(w: Which): Key {
    Named(if w == Deny then "ip_denylist" else "ip_allowlist")
  }

  /** Drop when the source address is in the set, or when it is not. */
  function SourceRule(fam: Family, name: SetName, invert: bool): seq<Expr> {
    var o := IpHeaderOffsets(fam);
    [Payload(1, NetworkHeader, o.src, o.addrLen), Lookup(1, name, invert), Give(Drop)]
  }

  function LoopbackRule(): seq<Expr> {
    IfExprs(IifName, LO) + [Give(Accept)]
  }

  function FamilyRules(w: Which, fam: Family): seq<seq<Expr>> {
    match w
    case Deny => [SourceRule(fam, DenyList, false)]
    case Allow => [LoopbackRule(), SourceRule(fam, AllowList, true)]
  }

  function ListSpecs(w: Which): seq<RuleSpec> {
    SpecsOf(FamilyRules(w, V4), V4, Prerouting) + SpecsOf(FamilyRules(w, V6), V6, Prerouting)
  }

  // ----- the operations

  function Elems(ips: seq<Addr>, fam: Family): set<Bits> {
    set a | a in ips && a.fam == fam :: a.bits
  }

  /** createIPSetElements: the addresses of a mixed list, by family. */
  method CreateIpSetElements(ips: seq<Addr>) returns (four: set<Bits>, six: set<Bits>)
    ensures four == Elems(ips, V4) && six == Elems(ips, V6)
  {
    four, six := {}, {};
    for i := 0 to |ips|
      invariant four == Elems(ips[..i], V4) && six == Elems(ips[..i], V6)
    {
      assert ips[..i + 1] == ips[..i] + [ips[i]];
      assert forall a :: a in ips[..i + 1] <==> a in ips[..i] || a == ips[i];
      if ips[i].fam == V4 {
        four := four + {ips[i].bits};
      } else {
        six := six + {ips[i].bits};
      }
    }
    assert ips[..|ips|] == ips;
  }

  function InsertOps(w: Which, ips: seq<Addr>): seq<SetOp> {
    [Insert(w, V4, Elems(ips, V4)), Insert(w, V6, Elems(ips, V6))]
  }

  function RemoveOps(w: Which, ips: seq<Addr>): seq<SetOp> {
    [Remove(w, V4, Elems(ips, V4)), Remove(w, V6, Elems(ips, V6))]
  }

  /** AddIPsToDenyList, AddIPsToAllowList: only the first addition saves rules, and so flushes. */
  function AddIps(st: State, w: Which, ips: seq<Addr>): State {
    if ips == [] then st
    else
      var st1 := Queue(st, InsertOps(w, ips));
      if ListKey(w) in st1.store.ruleMap then st1
      else match Save(st1.store, ListKey(w), ListSpecs(w), Append)
        case Some(store) => Flush(st1.(store := store))
        case None => Flush(st1)
  }

  predicate IsEmpty(m: Members, w: Which) {
    Get(m, w, V4) == {} && Get(m, w, V6) == {}
  }

  /** A batch that deletes an element that is not there, or twice, is rejected as a whole. */
  ghost predicate Rejected(st: State, w: Which, ips: seq<Addr>) {
    || (exists i, j | 0 <= i < j < |ips| :: ips[i] == ips[j])
    || (exists i | 0 <= i < |ips| :: ips[i].bits !in Get(Current(st), w, ips[i].fam))
  }

  /**
   DeleteIPsFromDenyList, DeleteIPsFromAllowList: a list left empty loses its
   rules. A rejected flush returns its error and drops what was queued.
   */
  ghost function DeleteIps(st: State, w: Which, ips: seq<Addr>): State {
    if Rejected(st, w, ips) then st.(pending := []) else
    var st1 := Flush(Queue(st, RemoveOps(w, ips)));
    if !IsEmpty(st1.committed, w) then st1
    else match Delete(st1.store, ListKey(w))
      case Some(store) => st1.(store := store)
      case None => st1
  }

  datatype Command =
    | Add(w: Which, ips: seq<Addr>)
    | Del(w: Which, ips: seq<Addr>)
    | SaveOther(key: Key, specs: seq<RuleSpec>, at: Where)
    | DeleteOther(key: Key)

  ghost function Execute1(st: State, c: Command): State {
    match c
    case Add(w, ips) => AddIps(st, w, ips)
    case Del(w, ips) => DeleteIps(st, w, ips)
    case SaveOther(key, specs, at) =>
      (match Save(st.store, key, specs, at)
       case Some(store) => Flush(st.(store := store))
       case None => Flush(st))
    case DeleteOther(key) =>
      (match Delete(st.store, key)
       case Some(store) => Flush(st.(store := store))
       case None => st)
  }

  predicate IsListKey(k: Key) {
    k == ListKey(Deny) || k == ListKey(Allow)
  }

  /** Commands as the router issues them: other filters use other keys and chains. */
  ghost predicate Proper(c: Command, baseSpecs: set<RuleSpec>) {
    match c
    case SaveOther(key, specs, _) =>
      !IsListKey(key) && Distinct(specs) && forall s | s in specs :: s.chain != Prerouting && s !in baseSpecs
    case DeleteOther(key) => !IsListKey(key)
    case _ => true
  }

  // ----- what a list holds

  lemma {:induction false} OpsConcat(m: Members, a: seq<SetOp>, b: seq<SetOp>)
    ensures ApplyOps(m, a + b) == ApplyOps(ApplyOps(m, a), b)
    decreases |a|
  {
    if a == [] {
      assert a + b == b;
    } else {
      assert (a + b)[1..] == a[1..] + b;
      OpsConcat(ApplyOp(m, a[0]), a[1..], b);
    }
  }

  lemma {:induction false} TwoOps(m: Members, a: SetOp, b: SetOp)
    ensures ApplyOps(m, [a, b]) == ApplyOp(ApplyOp(m, a), b)
  {
    assert [a, b][1..] == [b] && [b][1..] == [];
    assert ApplyOps(ApplyOp(ApplyOp(m, a), b), []) == ApplyOp(ApplyOp(m, a), b);
  }

  lemma {:induction false} FlushKeeps(st: State)
    ensures Current(Flush(st)) == Current(st)
  {
  }

  lemma {:induction false} AddCurrent(st: State, w: Which, ips: seq<Addr>)
    ensures Current(AddIps(st, w, ips)) == if ips == [] then Current(st) else ApplyOps(Current(st), InsertOps(w, ips))
  {
    OpsConcat(st.committed, st.pending, InsertOps(w, ips));
    FlushKeeps(Queue(st, InsertOps(w, ips)));
  }

  lemma {:induction false} DelCurrent(st: State, w: Which, ips: seq<Addr>)
    requires !Rejected(st, w, ips)
    ensures Current(DeleteIps(st, w, ips)) == ApplyOps(Current(st), RemoveOps(w, ips))
  {
    OpsConcat(st.committed, st.pending, RemoveOps(w, ips));
    FlushKeeps(Queue(st, RemoveOps(w, ips)));
  }

  lemma {:induction false} GetInserted(m: Members, x: Which, ips: seq<Addr>, w: Which, fam: Family)
    ensures Get(ApplyOps(m, InsertOps(x, ips)), w, fam) == Get(m, w, fam) + if x == w then Elems(ips, fam) else {}
  {
    TwoOps(m, Insert(x, V4, Elems(ips, V4)), Insert(x, V6, Elems(ips, V6)));
    assert fam == V4 || fam == V6;
  }

  lemma {:induction false} GetRemoved(m: Members, x: Which, ips: seq<Addr>, w: Which, fam: Family)
    ensures Get(ApplyOps(m, RemoveOps(x, ips)), w, fam) == Get(m, w, fam) - if x == w then Elems(ips, fam) else {}
  {
    TwoOps(m, Remove(x, V4, Elems(ips, V4)), Remove(x, V6, Elems(ips, V6)));
    assert fam == V4 || fam == V6;
  }

  /** What a command adds to a set and takes from it. */
  function Added1(c: Command, w: Which, fam: Family): set<Bits> {
    if c.Add? && c.w == w then Elems(c.ips, fam) else {}
  }

  function Taken1(c: Command, w: Which, fam: Family): set<Bits> {
    if c.Del? && c.w == w then Elems(c.ips, fam) else {}
  }

  /** A command's effect on the sets, once flushed; a rejected deletion drops what was queued before it. */
  lemma {:induction false} CurrentAfter(st: State, c: Command, w: Which, fam: Family)
    ensures Get(Current(Execute1(st, c)), w, fam)
         == if c.Del? && Rejected(st, c.w, c.ips) then Get(st.committed, w, fam)
            else Get(Current(st), w, fam) + Added1(c, w, fam) - Taken1(c, w, fam)
  {
    match c
    case Add(x, ips) =>
      AddCurrent(st, x, ips);
      GetInserted(Current(st), x, ips, w, fam);
      assert ips == [] ==> Elems(ips, fam) == {};
    case Del(x, ips) =>
      if !Rejected(st, x, ips) {
        DelCurrent(st, x, ips);
        GetRemoved(Current(st), x, ips, w, fam);
      }
    case _ =>
      FlushKeeps(st);
  }

  // ----- the list rules are proper batches

  lemma {:induction false} ListSpecsProper(w: Which)
    ensures Distinct(ListSpecs(w)) && ListSpecs(w) != []
    ensures forall s | s in ListSpecs(w) :: s.chain == Prerouting && Terminated(s.exprs)
    ensures forall fam: Family, es: seq<Expr> ::
              RuleSpec(fam, Prerouting, es) in ListSpecs(w) <==> es in FamilyRules(w, fam)
  {
    var a, b := SpecsOf(FamilyRules(w, V4), V4, Prerouting), SpecsOf(FamilyRules(w, V6), V6, Prerouting);
    FamilySpecs(w, V4);
    FamilySpecs(w, V6);
    DistinctConcat(a, b);
    forall fam: Family, es: seq<Expr>
      ensures RuleSpec(fam, Prerouting, es) in a + b <==> es in FamilyRules(w, fam)
    {
      InEither(a, b, RuleSpec(fam, Prerouting, es));
    }
    forall s: RuleSpec | s in a + b ensures s.chain == Prerouting && Terminated(s.exprs) {
      InEither(a, b, s);
    }
  }

  lemma {:induction false} FamilySpecs(w: Which, fam: Family)
    ensures var specs := SpecsOf(FamilyRules(w, fam), fam, Prerouting);
            && Distinct(specs) && specs != []
            && (forall s | s in specs :: s.fam == fam && s.chain == Prerouting && Terminated(s.exprs))
            && forall f: Family, es: seq<Expr> ::
                 RuleSpec(f, Prerouting, es) in specs <==> f == fam && es in FamilyRules(w, fam)
  {
    var rules := FamilyRules(w, fam);
    LoopbackDiffers(fam);
    assert Terminated(SourceRule(fam, ListSet(w), w == Allow));
    if w == Deny {
      assert rules[1..] == [];
      assert SpecsOf(rules[1..], fam, Prerouting) == [];
    } else {
      assert rules[1..] == [rules[1]] && rules[1..][1..] == [];
      assert SpecsOf(rules[1..][1..], fam, Prerouting) == [];
      assert SpecsOf(rules[1..], fam, Prerouting) == [RuleSpec(fam, Prerouting, rules[1])];
    }
  }

  lemma {:induction false} LoopbackDiffers(fam: Family)
    ensures Terminated(LoopbackRule()) && LoopbackRule() != SourceRule(fam, AllowList, true)
  {
    assert LoopbackRule()[0] == Meta(IifName, 1);
    assert LoopbackRule()[2] == Give(Accept);
  }

  // ----- what every command keeps

  /** The saved rules of a filter, as built. */
  ghost predicate Saves(rules: seq<Rule>, specs: seq<RuleSpec>) {
    |rules| == |specs| && forall i | 0 <= i < |rules| :: rules[i].spec == specs[i]
  }

  ghost predicate NoPrerouting(rules: seq<Rule>) {
    forall r | r in rules :: r.spec.chain != Prerouting
  }

  /** A list's rules are saved exactly while the list is not empty, and nothing else is in the prerouting chain. */
  ghost predicate InStep(m: map<Key, seq<Rule>>, sets: Members) {
    && (forall w: Which :: ListKey(w) in m <==> !IsEmpty(sets, w))
    && (forall w: Which | ListKey(w) in m :: Saves(m[ListKey(w)], ListSpecs(w)))
    && (forall k | k in m && !IsListKey(k) :: NoPrerouting(m[k]))
  }

  ghost predicate Sound(st: Store, base: set<Id>, baseSpecs: set<RuleSpec>) {
    RuleCounts.Inv(st, base) && BaseIs(st, base, baseSpecs) && forall s | s in baseSpecs :: s.chain != Prerouting
  }

  ghost predicate Inv(st: State, base: set<Id>, baseSpecs: set<RuleSpec>) {
    && Sound(st.store, base, baseSpecs)
    && InStep(st.store.ruleMap, Current(st))
    && InStep(st.store.ruleMap, st.committed)
  }

  lemma {:induction false} KeysDiffer()
    ensures ListKey(Deny) != ListKey(Allow)
  {
    assert "ip_denylist"[3] != "ip_allowlist"[3];
  }

  /** Adding to a list, whose rules are saved if they were not. */
  lemma {:induction false} StepAdd(m: map<Key, seq<Rule>>, m': map<Key, seq<Rule>>, sets: Members, sets': Members,
                                   x: Which, rules: seq<Rule>)
    requires InStep(m, sets) && !IsEmpty(sets', x)
             && (forall w: Which | w != x :: IsEmpty(sets', w) == IsEmpty(sets, w))
    requires if ListKey(x) in m then m' == m else m' == m[ListKey(x) := rules] && Saves(rules, ListSpecs(x))
    ensures InStep(m', sets')
  {
    KeysDiffer();
  }

  /** Deleting from a list, whose rules are deleted when it becomes empty. */
  lemma {:induction false} StepDel(m: map<Key, seq<Rule>>, m': map<Key, seq<Rule>>, sets: Members, sets': Members,
                                   x: Which)
    requires InStep(m, sets) && (forall w: Which | w != x :: IsEmpty(sets', w) == IsEmpty(sets, w))
    requires IsEmpty(sets, x) ==> IsEmpty(sets', x)
    requires m' == if IsEmpty(sets', x) then m - {ListKey(x)} else m
    ensures InStep(m', sets')
  {
    KeysDiffer();
  }

  /** Saving or deleting another filter. */
  lemma {:induction false} StepOther(m: map<Key, seq<Rule>>, m': map<Key, seq<Rule>>, sets: Members, key: Key)
    requires InStep(m, sets) && !IsListKey(key)
    requires m' == m - {key} || exists rules :: NoPrerouting(rules) && m' == m[key := rules]
    ensures InStep(m', sets)
  {
  }

  lemma {:induction false} BaseIsKept(st: Store, st': Store, base: set<Id>, baseSpecs: set<RuleSpec>)
    requires BaseIs(st, base, baseSpecs) && base <= Ids(st.kernel) && Unique(st'.kernel) && AllIn(st.kernel, st'.kernel)
    ensures BaseIs(st', base, baseSpecs)
  {
    forall r | r in st'.kernel && r.Id() in base ensures r.spec in baseSpecs {
      var x :| x in st.kernel && x.Id() == r.Id();
      SameId(st'.kernel, r, x);
    }
  }

  /** A proper save: consistent, and the filter gains exactly the batch. */
  lemma {:induction false} SaveEffect(st: Store, base: set<Id>, baseSpecs: set<RuleSpec>, key: Key,
                                      specs: seq<RuleSpec>, at: Where) returns (st': Store, rules: seq<Rule>)
    requires RuleCounts.Inv(st, base) && BaseIs(st, base, baseSpecs)
    requires Distinct(specs) && specs != [] && forall s | s in specs :: s !in baseSpecs
    ensures Save(st, key, specs, at) == Some(st') && RuleCounts.Inv(st', base) && BaseIs(st', base, baseSpecs)
    ensures st'.ruleMap == st.ruleMap[key := SavedUnder(st.ruleMap, key) + rules] && Saves(rules, specs)
  {
    DistinctIsEnough(st.kernel, specs);
    SaveKeeps(st, base, key, specs, at);
    var st1, refs, rs := SaveResult(st, base, key, specs, at);
    st', rules := Save(st, key, specs, at).value, rs;
    BaseIsKept(st, st', base, baseSpecs);
  }

  lemma {:induction false} DeleteEffect(st: Store, base: set<Id>, baseSpecs: set<RuleSpec>, key: Key)
    returns (st': Store)
    requires RuleCounts.Inv(st, base) && BaseIs(st, base, baseSpecs) && key in st.ruleMap
    ensures Delete(st, key) == Some(st') && RuleCounts.Inv(st', base) && BaseIs(st', base, baseSpecs)
    ensures st'.ruleMap == st.ruleMap - {key}
  {
    DeleteKeeps(st, base, key);
    st' := Delete(st, key).value;
    var keep :| st'.kernel == Restrict(st.kernel, keep);
    InRestrict(st.kernel, keep);
  }

  lemma {:induction false} AddChanges(st: State, x: Which, ips: seq<Addr>)
    requires ips != []
    ensures var sets' := Current(Execute1(st, Add(x, ips)));
            !IsEmpty(sets', x) && forall w: Which | w != x :: IsEmpty(sets', w) == IsEmpty(Current(st), w)
  {
    forall w: Which
      ensures Get(Current(Execute1(st, Add(x, ips))), w, V4) == Get(Current(st), w, V4) + Added1(Add(x, ips), w, V4)
      ensures Get(Current(Execute1(st, Add(x, ips))), w, V6) == Get(Current(st), w, V6) + Added1(Add(x, ips), w, V6)
    {
      CurrentAfter(st, Add(x, ips), w, V4);
      CurrentAfter(st, Add(x, ips), w, V6);
    }
    assert ips[0].bits in Elems(ips, ips[0].fam);
    assert ips[0].fam == V4 || ips[0].fam == V6;
  }

  lemma {:induction false} AddKeeps(st: State, base: set<Id>, baseSpecs: set<RuleSpec>, x: Which, ips: seq<Addr>)
    requires Inv(st, base, baseSpecs) && ips != []
    ensures Inv(Execute1(st, Add(x, ips)), base, baseSpecs)
  {
    var st' := Execute1(st, Add(x, ips));
    AddChanges(st, x, ips);
    if ListKey(x) in st.store.ruleMap {
      assert st'.committed == st.committed;
      StepAdd(st.store.ruleMap, st'.store.ruleMap, Current(st), Current(st'), x, []);
    } else {
      var store', rules := SaveList(st.store, base, baseSpecs, x);
      assert st'.committed == Current(st');
      StepAdd(st.store.ruleMap, store'.ruleMap, Current(st), Current(st'), x, rules);
    }
  }

  lemma {:induction false} SaveList(st: Store, base: set<Id>, baseSpecs: set<RuleSpec>, x: Which)
    returns (st': Store, rules: seq<Rule>)
    requires Sound(st, base, baseSpecs) && ListKey(x) !in st.ruleMap
    ensures Save(st, ListKey(x), ListSpecs(x), Append) == Some(st') && Sound(st', base, baseSpecs)
    ensures st'.ruleMap == st.ruleMap[ListKey(x) := rules] && Saves(rules, ListSpecs(x))
  {
    ListSpecsProper(x);
    st', rules := SaveEffect(st, base, baseSpecs, ListKey(x), ListSpecs(x), Append);
    assert [] + rules == rules;
  }

  lemma {:induction false} DelChanges(st: State, x: Which, ips: seq<Addr>)
    requires !Rejected(st, x, ips)
    ensures var sets' := Current(Execute1(st, Del(x, ips)));
            && (IsEmpty(Current(st), x) ==> IsEmpty(sets', x))
            && forall w: Which | w != x :: IsEmpty(sets', w) == IsEmpty(Current(st), w)
    ensures Flush(Queue(st, RemoveOps(x, ips))).committed == Current(Execute1(st, Del(x, ips)))
  {
    forall w: Which
      ensures Get(Current(Execute1(st, Del(x, ips))), w, V4) == Get(Current(st), w, V4) - Taken1(Del(x, ips), w, V4)
      ensures Get(Current(Execute1(st, Del(x, ips))), w, V6) == Get(Current(st), w, V6) - Taken1(Del(x, ips), w, V6)
    {
      CurrentAfter(st, Del(x, ips), w, V4);
      CurrentAfter(st, Del(x, ips), w, V6);
    }
    DelCurrent(st, x, ips);
    OpsConcat(st.committed, st.pending, RemoveOps(x, ips));
  }

  lemma {:induction false} DelKeeps(st: State, base: set<Id>, baseSpecs: set<RuleSpec>, x: Which, ips: seq<Addr>)
    requires Inv(st, base, baseSpecs)
    ensures Inv(Execute1(st, Del(x, ips)), base, baseSpecs)
  {
    var st' := Execute1(st, Del(x, ips));
    if Rejected(st, x, ips) {
      assert Current(st') == st.committed;
      return;
    }
    DelChanges(st, x, ips);
    assert st'.committed == Current(st');
    if IsEmpty(Current(st'), x) && ListKey(x) in st.store.ruleMap {
      var store' := DeleteEffect(st.store, base, baseSpecs, ListKey(x));
      StepDel(st.store.ruleMap, store'.ruleMap, Current(st), Current(st'), x);
    } else {
      assert IsEmpty(Current(st'), x) ==> st.store.ruleMap - {ListKey(x)} == st.store.ruleMap;
      StepDel(st.store.ruleMap, st.store.ruleMap, Current(st), Current(st'), x);
    }
  }

  lemma {:induction false} SaveOtherKeeps(st: State, base: set<Id>, baseSpecs: set<RuleSpec>, key: Key,
                                          specs: seq<RuleSpec>, at: Where)
    requires Inv(st, base, baseSpecs) && Proper(SaveOther(key, specs, at), baseSpecs)
    ensures Inv(Execute1(st, SaveOther(key, specs, at)), base, baseSpecs)
  {
    FlushKeeps(st);
    if specs == [] {
      assert Save(st.store, key, specs, at) == Some(st.store);
    } else {
      var store', rules := SaveEffect(st.store, base, baseSpecs, key, specs, at);
      var all := SavedUnder(st.store.ruleMap, key) + rules;
      forall r | r in all ensures r.spec.chain != Prerouting {
        if r in rules {
          var i :| 0 <= i < |rules| && rules[i] == r;
          assert specs[i] in specs;
        }
      }
      assert NoPrerouting(all);
      StepOther(st.store.ruleMap, store'.ruleMap, Current(st), key);
    }
  }

  lemma {:induction false} DeleteOtherKeeps(st: State, base: set<Id>, baseSpecs: set<RuleSpec>, key: Key)
    requires Inv(st, base, baseSpecs) && !IsListKey(key)
    ensures Inv(Execute1(st, DeleteOther(key)), base, baseSpecs)
  {
    FlushKeeps(st);
    if key in st.store.ruleMap {
      var store' := DeleteEffect(st.store, base, baseSpecs, key);
      StepOther(st.store.ruleMap, store'.ruleMap, Current(st), key);
    }
  }

  ghost function Execute(st: State, commands: seq<Command>): State
    decreases |commands|
  {
    if commands == [] then st else Execute(Execute1(st, commands[0]), commands[1..])
  }

  lemma {:induction false} ExecuteKeeps(st: State, base: set<Id>, baseSpecs: set<RuleSpec>, commands: seq<Command>)
    requires Inv(st, base, baseSpecs) && forall c | c in commands :: Proper(c, baseSpecs)
    ensures Inv(Execute(st, commands), base, baseSpecs)
    decreases |commands|
  {
    if commands != [] {
      var c := commands[0];
      assert Proper(c, baseSpecs);
      match c {
        case Add(w, ips) => if ips != [] { AddKeeps(st, base, baseSpecs, w, ips); }
        case Del(w, ips) => DelKeeps(st, base, baseSpecs, w, ips);
        case SaveOther(key, specs, at) => SaveOtherKeeps(st, base, baseSpecs, key, specs, at);
        case DeleteOther(key) => DeleteOtherKeeps(st, base, baseSpecs, key);
      }
      ExecuteKeeps(Execute1(st, c), base, baseSpecs, commands[1..]);
    }
  }

  // ----- evaluating the prerouting chain

  function ListTables(st: State, fam: Family): Sets {
    Sets(map[DenyList := Get(Current(st), Deny, fam), AllowList := Get(Current(st), Allow, fam)], map[])
  }

  function PreroutingVerdict(st: State, p: Packet): Option<Verdict>
    requires ValidPacket(p)
  {
    EvalChain(ChainExprs(st.store.kernel, p.fam, Prerouting), p, ListTables(st, p.fam))
  }

  lemma {:induction false} EvalSource(w: Which, invert: bool, p: Packet, sets: Sets)
    requires ValidPacket(p) && ListSet(w) in sets.sets
    ensures EvalRule(SourceRule(p.fam, ListSet(w), invert), p, sets)
         == if (SrcAddr(p) in sets.sets[ListSet(w)]) != invert then Some(Drop) else None
  {
    var regs, es := Zeros(REG_BITS), SourceRule(p.fam, ListSet(w), invert);
    var r1 := PutReg(regs, 1, SrcAddr(p));
    LoadPut(regs, 1, SrcAddr(p));
    assert Eval(es[0], p, sets, regs) == Continue(r1);
    assert es[1..] == [es[1], es[2]];
    if (SrcAddr(p) in sets.sets[ListSet(w)]) != invert {
      assert Eval(es[1], p, sets, r1) == Continue(r1);
      EvalTwo(es[1], es[2], p, sets, r1);
    } else {
      assert Eval(es[1], p, sets, r1) == Break;
      assert EvalAll(es[1..], p, sets, r1) == Break;
    }
  }

  lemma {:induction false} EvalLoopback(p: Packet, sets: Sets)
    requires ValidPacket(p)
    ensures EvalRule(LoopbackRule(), p, sets) == if p.iifname == LO then Some(Accept) else None
  {
    EvalIf(IifName, LO, p, sets, Zeros(REG_BITS));
    GiveRule(IfExprs(IifName, LO), Accept, p, sets, p.iifname == LO);
  }

  lemma {:induction false} DropsIff(rules: seq<seq<Expr>>, p: Packet, sets: Sets)
    requires ValidPacket(p) && forall e | e in rules :: EvalRule(e, p, sets) in {None, Some(Drop)}
    ensures EvalChain(rules, p, sets) in {None, Some(Drop)}
    ensures EvalChain(rules, p, sets) == Some(Drop) <==> exists e | e in rules :: EvalRule(e, p, sets) == Some(Drop)
    decreases |rules|
  {
    if rules != [] {
      DropsIff(rules[1..], p, sets);
      assert rules == [rules[0]] + rules[1..];
    }
  }

  lemma {:induction false} InChainIff(kernel: seq<Rule>, fam: Family, chain: Chain, es: seq<Expr>)
    ensures es in ChainExprs(kernel, fam, chain) <==> exists r | r in kernel :: r.spec == RuleSpec(fam, chain, es)
  {
    FoundIff(kernel, RuleSpec(fam, chain, es));
  }

  /** An installed prerouting rule belongs to a saved list. */
  lemma {:induction false} FromList(st: State, base: set<Id>, baseSpecs: set<RuleSpec>, r: Rule) returns (w: Which)
    requires Inv(st, base, baseSpecs) && r in st.store.kernel && r.spec.chain == Prerouting
    ensures ListKey(w) in st.store.ruleMap && r.spec in ListSpecs(w)
  {
    var m := st.store.ruleMap;
    assert r.Id() !in base;
    assert RefCount(st.store.ruleRef, r.Id()) == AllUses(m, r.Id()) + Uses([], r.Id());
    AllUsesPositive(m, r.Id());
    var k: Key, x: Rule :| k in m && x in m[k] && x.Id() == r.Id();
    SameId(st.store.kernel, r, x);
    assert IsListKey(k);
    w := if k == ListKey(Deny) then Deny else Allow;
    var i :| 0 <= i < |m[k]| && m[k][i] == x;
    assert ListSpecs(w)[i] == r.spec;
  }

  lemma {:induction false} InstalledFromList(st: State, base: set<Id>, baseSpecs: set<RuleSpec>, fam: Family,
                                             es: seq<Expr>) returns (w: Which)
    requires Inv(st, base, baseSpecs) && es in ChainExprs(st.store.kernel, fam, Prerouting)
    ensures !IsEmpty(Current(st), w) && es in FamilyRules(w, fam)
  {
    var spec := RuleSpec(fam, Prerouting, es);
    InChainIff(st.store.kernel, fam, Prerouting, es);
    var r :| r in st.store.kernel && r.spec == spec;
    w := FromList(st, base, baseSpecs, r);
    ListSpecsProper(w);
  }

  lemma {:induction false} ListIsInstalled(st: State, base: set<Id>, baseSpecs: set<RuleSpec>, fam: Family,
                                           es: seq<Expr>, w: Which)
    requires Inv(st, base, baseSpecs) && !IsEmpty(Current(st), w) && es in FamilyRules(w, fam)
    ensures es in ChainExprs(st.store.kernel, fam, Prerouting)
  {
    var spec := RuleSpec(fam, Prerouting, es);
    InChainIff(st.store.kernel, fam, Prerouting, es);
    ListSpecsProper(w);
    var rules := st.store.ruleMap[ListKey(w)];
    var i :| 0 <= i < |ListSpecs(w)| && ListSpecs(w)[i] == spec;
    assert rules[i] in rules && rules[i].spec == spec;
  }

  /** The prerouting chain holds exactly the rules of the lists that are not empty. */
  lemma {:induction false} PreroutingRules(st: State, base: set<Id>, baseSpecs: set<RuleSpec>, fam: Family,
                                           es: seq<Expr>)
    requires Inv(st, base, baseSpecs)
    ensures es in ChainExprs(st.store.kernel, fam, Prerouting)
       <==> exists w: Which :: !IsEmpty(Current(st), w) && es in FamilyRules(w, fam)
  {
    if es in ChainExprs(st.store.kernel, fam, Prerouting) {
      var w := InstalledFromList(st, base, baseSpecs, fam, es);
    }
    if w: Which :| !IsEmpty(Current(st), w) && es in FamilyRules(w, fam) {
      ListIsInstalled(st, base, baseSpecs, fam, es, w);
    }
  }

  /** A non-loopback packet is dropped exactly when its source is denied, or the allow list is in force without it. */
  predicate ToDrop(sets: Members, p: Packet)
    requires ValidPacket(p)
  {
    SrcAddr(p) in Get(sets, Deny, p.fam) || (!IsEmpty(sets, Allow) && SrcAddr(p) !in Get(sets, Allow, p.fam))
  }

  lemma {:induction false} ListVerdict(st: State, base: set<Id>, baseSpecs: set<RuleSpec>, p: Packet)
    requires Inv(st, base, baseSpecs) && ValidPacket(p) && p.iifname != LO
    ensures PreroutingVerdict(st, p) == if ToDrop(Current(st), p) then Some(Drop) else None
  {
    var rules := ChainExprs(st.store.kernel, p.fam, Prerouting);
    ChainContents(st, base, baseSpecs, p.fam);
    RulesVerdict(rules, p, ListTables(st, p.fam), Current(st));
  }

  /** The rules of the chain are those in force. */
  ghost predicate InForceOnly(rules: seq<seq<Expr>>, fam: Family, sets: Members) {
    && (SourceRule(fam, DenyList, false) in rules <==> !IsEmpty(sets, Deny))
    && (SourceRule(fam, AllowList, true) in rules <==> !IsEmpty(sets, Allow))
    && forall e | e in rules ::
         e in {SourceRule(fam, DenyList, false), SourceRule(fam, AllowList, true), LoopbackRule()}
  }

  lemma {:induction false} OnlyListRules(st: State, base: set<Id>, baseSpecs: set<RuleSpec>, fam: Family, e: seq<Expr>)
    requires Inv(st, base, baseSpecs) && e in ChainExprs(st.store.kernel, fam, Prerouting)
    ensures e in {SourceRule(fam, DenyList, false), SourceRule(fam, AllowList, true), LoopbackRule()}
  {
    var w := InstalledFromList(st, base, baseSpecs, fam, e);
  }

  lemma {:induction false} ChainContents(st: State, base: set<Id>, baseSpecs: set<RuleSpec>, fam: Family)
    requires Inv(st, base, baseSpecs)
    ensures InForceOnly(ChainExprs(st.store.kernel, fam, Prerouting), fam, Current(st))
  {
    PreroutingRules(st, base, baseSpecs, fam, SourceRule(fam, DenyList, false));
    PreroutingRules(st, base, baseSpecs, fam, SourceRule(fam, AllowList, true));
    forall e | e in ChainExprs(st.store.kernel, fam, Prerouting)
      ensures e in {SourceRule(fam, DenyList, false), SourceRule(fam, AllowList, true), LoopbackRule()}
    {
      OnlyListRules(st, base, baseSpecs, fam, e);
    }
    InForce(fam, Current(st));
  }

  lemma {:induction false} RulesVerdict(rules: seq<seq<Expr>>, p: Packet, sets: Sets, members: Members)
    requires ValidPacket(p) && p.iifname != LO && InForceOnly(rules, p.fam, members)
    requires sets.sets == map[DenyList := Get(members, Deny, p.fam), AllowList := Get(members, Allow, p.fam)]
    ensures EvalChain(rules, p, sets) == if ToDrop(members, p) then Some(Drop) else None
  {
    EvalLoopback(p, sets);
    EvalSource(Deny, false, p, sets);
    EvalSource(Allow, true, p, sets);
    assert p.fam == V4 || p.fam == V6;
    DropsIff(rules, p, sets);
  }

  lemma {:induction false} InForce(fam: Family, sets: Members)
    ensures (exists w: Which :: !IsEmpty(sets, w) && SourceRule(fam, DenyList, false) in FamilyRules(w, fam))
       <==> !IsEmpty(sets, Deny)
    ensures (exists w: Which :: !IsEmpty(sets, w) && SourceRule(fam, AllowList, true) in FamilyRules(w, fam))
       <==> !IsEmpty(sets, Allow)
  {
    var deny, allow := SourceRule(fam, DenyList, false), SourceRule(fam, AllowList, true);
    assert deny[1] != allow[1];
    LoopbackDiffers(fam);
    assert LoopbackRule()[0] != deny[0];
    assert deny in FamilyRules(Deny, fam) && deny !in FamilyRules(Allow, fam);
    assert allow in FamilyRules(Allow, fam) && allow !in FamilyRules(Deny, fam);
  }

  // ----- main result

  function BaseSpecs(): set<RuleSpec> {
    {RuleSpec(V4, Input, CT_RULE), RuleSpec(V4, Input, IF_RULE), RuleSpec(V4, Forward, CT_RULE),
     RuleSpec(V6, Input, CT_RULE), RuleSpec(V6, Input, IF_RULE), RuleSpec(V6, Forward, CT_RULE)}
  }

  lemma {:induction false} NewInv()
    ensures Inv(State(NewRouter().store, map[], []), FirstMatch.BaseIds(), BaseSpecs())
  {
    NewSound();
    var st := State(NewRouter().store, map[], []);
    assert Current(st) == map[];
    assert forall w: Which :: IsEmpty(map[], w);
  }

  lemma {:induction false} NewSound()
    ensures Sound(NewRouter().store, FirstMatch.BaseIds(), BaseSpecs())
  {
    HookVerdicts.NewCounts();
    NewBase();
    SoundFrom(NewRouter().store, FirstMatch.BaseIds());
  }

  lemma {:induction false} SoundFrom(st: Store, base: set<Id>)
    requires RuleCounts.Inv(st, base) && forall r | r in st.kernel :: r.spec in BaseSpecs()
    ensures Sound(st, base, BaseSpecs())
  {
    assert forall s | s in BaseSpecs() :: s.chain != Prerouting;
  }

  lemma {:induction false} NewBase()
    ensures forall r | r in NewRouter().store.kernel :: r.spec in BaseSpecs()
  {
    var k := NewRouter().store.kernel;
    var a, b := BaseRules(V4), BaseRules(V6);
    assert forall r | r in k :: r in a || r in b;
    assert forall r | r in a :: r == a[0] || r == a[1] || r == a[2];
    assert forall r | r in b :: r == b[0] || r == b[1] || r == b[2];
  }

  /**
   After any sequence of additions to the lists, deletions from them, and saves
   and deletes of other filters: a list's rules are installed exactly while its
   combined IPv4 and IPv6 set is not empty, and a non-loopback packet survives
   prerouting exactly when its source is not denied and the allow list is empty
   or holds it, in whatever order the lists came into force.
   */
  lemma {:induction false} ListsDecide(commands: seq<Command>, p: Packet)
    requires forall c | c in commands :: Proper(c, BaseSpecs())
    requires ValidPacket(p) && p.iifname != LO
    ensures var st := Execute(State(NewRouter().store, map[], []), commands);
            && (forall w: Which :: ListKey(w) in st.store.ruleMap <==> !IsEmpty(Current(st), w))
            && PreroutingVerdict(st, p) == if ToDrop(Current(st), p) then Some(Drop) else None
  {
    NewInv();
    ExecuteKeeps(State(NewRouter().store, map[], []), FirstMatch.BaseIds(), BaseSpecs(), commands);
    ListVerdict(Execute(State(NewRouter().store, map[], []), commands), FirstMatch.BaseIds(), BaseSpecs(), p);
  }
}
