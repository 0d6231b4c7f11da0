/**
 Parse inverts printing: by induction over nested documents, with the stacks
 below the current container kept general.
 */
module JsonRebuild {
  import opened Common
  import opened JsonStream
  import opened JsonDocuments
  import Decimal

  lemma {:induction false} RunConcat(m: Machine, a: seq<Token>, b: seq<Token>)
    ensures Run(m, a + b) == match Run(m, a)
                             case Ok(m') => Run(m', b)
                             case Error => Error
                             case Panic => Panic
    decreases |a|
  {
    if a == [] {
      assert a + b == b;
    } else {
      ConcatTail(a, b);
      match Step(m, a[0])
      case Ok(m') => RunConcat(m', a[1..], b);
      case Error =>
      case Panic =>
    }
  }

  /** The key path is as deep as the unmarshaller stack, or one deeper just after a name. */
  predicate Aligned(m: Machine) {
    |m.keyPath| == |m.umStack| + if m.prevType == EtKey then 1 else 0
  }

  /** Aligned before the first token and after each of them. */
  ghost predicate AlwaysAligned(m: Machine, tokens: seq<Token>)
    decreases |tokens|
  {
    Aligned(m) && (tokens != [] && Step(m, tokens[0]).Ok? ==> AlwaysAligned(Step(m, tokens[0]).value, tokens[1..]))
  }

  lemma {:induction false} AlignedConcat(m: Machine, a: seq<Token>, m': Machine, b: seq<Token>)
    requires AlwaysAligned(m, a) && Run(m, a) == Ok(m') && AlwaysAligned(m', b)
    ensures AlwaysAligned(m, a + b)
    decreases |a|
  {
    if a == [] {
      assert a + b == b;
    } else {
      ConcatTail(a, b);
      AlignedConcat(Step(m, a[0]).value, a[1..], m', b);
    }
  }

  lemma {:induction false} AlignedOne(m: Machine, token: Token)
    requires Aligned(m) && (Step(m, token).Ok? ==> Aligned(Step(m, token).value))
    ensures AlwaysAligned(m, [token])
  {
    assert [token][1..] == [];
  }

  /** Store growth that touches no old map except the one at loc. */
  ghost predicate Grown(st: Store, st': Store, loc: int) {
    |st| <= |st'| && forall i | 0 <= i < |st| && i != loc :: st'[i] == st[i]
  }

  /** The container on top of the stack is top, and every stacked container has its key. */
  ghost predicate Inside(m: Machine, top: Node) {
    |m.umStack| == |m.keyPath| > 0 && m.umStack[|m.umStack| - 1] == top
  }

  ghost predicate InObject(m: Machine, loc: nat) {
    Inside(m, MapRef(loc)) && loc < |m.store|
  }

  predicate ExpectsName(t: ElementType) {
    t == EtObject || t == EtValue || t == EtUnknown
  }

  ghost predicate InArray(m: Machine, items: seq<Node>) {
    Inside(m, Slice(items)) && m.lastArrayIndex == |items| - 1 && (m.prevType == EtArray || m.prevType == EtArrayValue)
  }

  ghost predicate AfterName(m: Machine, loc: nat, key: string) {
    && |m.keyPath| == |m.umStack| + 1 >= 2
    && m.umStack[|m.umStack| - 1] == MapRef(loc) && loc < |m.store|
    && m.keyPath[|m.keyPath| - 1] == key
    && m.prevType == EtKey
  }

  /** What a value leaves behind when stored under key in the map at loc. */
  ghost predicate StoredMember(m: Machine, m': Machine, loc: nat, key: string, v: Json) {
    && |m.keyPath| >= 2
    && m'.keyPath == m.keyPath[..|m.keyPath| - 1] && m'.umStack == m.umStack
    && Grown(m.store, m'.store, loc) && loc < |m.store|
    && m'.store[loc].Keys == m.store[loc].Keys + {key}
    && (forall k | k in m.store[loc] && k != key :: m'.store[loc][k] == m.store[loc][k])
    && Represents(m'.store, |m.store|, |m'.store|, m'.store[loc][key], Meaning(v))
    && m'.prevType == (if !IsContainer(v) then EtValue else if AtName(key) then EtArrayValue else EtUnknown)
    && m'.events == m.events + Visit(m.keyPath[1..|m.keyPath| - 1], key, v, EtValue)
  }

  ghost predicate StoredElem(m: Machine, m': Machine, items: seq<Node>, v: Json) {
    && m.umStack != [] && m.keyPath != []
    && m'.keyPath == m.keyPath
    && |m'.umStack| == |m.umStack|
    && m'.umStack[..|m.umStack| - 1] == m.umStack[..|m.umStack| - 1]
    && Grown(m.store, m'.store, -1)
    && m'.umStack[|m.umStack| - 1].Slice?
    && var items' := m'.umStack[|m.umStack| - 1].items;
    && |items'| == |items| + 1 && items'[..|items|] == items
    && InArray(m', items')
    && Represents(m'.store, |m.store|, |m'.store|, items'[|items|], Meaning(v))
    && m'.events == m.events + Visit(m.keyPath[1..], IndexKey(|items|), v, EtArrayValue)
  }

  ghost predicate FilledObject(m: Machine, m': Machine, loc: nat, acc: map<string, Value>, ms: Members) {
    && m'.keyPath == m.keyPath && m'.umStack == m.umStack && m.keyPath != []
    && Grown(m.store, m'.store, loc) && loc < |m.store|
    && RepresentsFields(m'.store, loc + 1, |m'.store|, m'.store[loc], Bind(acc, ms))
    && m'.events == m.events + VisitMembers(m.keyPath[1..], ms)
  }

  ghost predicate FilledArray(m: Machine, m': Machine, lo: nat, items: seq<Node>, acc: seq<Value>, es: Elems) {
    && m.umStack != [] && m.keyPath != []
    && m'.keyPath == m.keyPath && |m'.umStack| == |m.umStack|
    && m'.umStack[..|m.umStack| - 1] == m.umStack[..|m.umStack| - 1]
    && Grown(m.store, m'.store, -1)
    && m'.umStack[|m.umStack| - 1].Slice?
    && RepresentsElems(m'.store, lo, |m'.store|, m'.umStack[|m.umStack| - 1].items, acc + ElemMeanings(es))
    && m'.events == m.events + VisitElems(m.keyPath[1..], |items|, es)
  }

  /** The effect of the token that opens container j under key in the map at loc. */
  ghost predicate OpenedMember(m: Machine, m': Machine, loc: nat, key: string, j: Json)
    requires IsContainer(j)
  {
    && |m.keyPath| >= 2 && loc < |m.store|
    && m'.keyPath == m.keyPath
    && m'.umStack == m.umStack + [if j.JObj? then MapRef(|m.store|) else Slice([])]
    && Grown(m.store, m'.store, loc)
    && |m'.store| == |m.store| + (if j.JObj? then 1 else 0)
    && (j.JObj? ==> m'.store[|m.store|] == map[])
    && m'.store[loc] == m.store[loc][key := if j.JObj? then MapRef(|m.store|) else Slice([])]
    && m'.prevType == ContainerType(j) && m'.lastArrayIndex == -1
    && m'.events == m.events + [Unmarshal(m.keyPath[1..|m.keyPath| - 1], key, ContainerType(j), None)]
  }

  ghost predicate OpenedElem(m: Machine, m': Machine, items: seq<Node>, j: Json)
    requires IsContainer(j)
  {
    var node := if j.JObj? then MapRef(|m.store|) else Slice([]);
    && m.umStack != [] && m.keyPath != []
    && m'.keyPath == m.keyPath + [IndexKey(|items|)]
    && m'.umStack == m.umStack[|m.umStack| - 1 := Slice(items + [node])] + [node]
    && m'.store == m.store + (if j.JObj? then [map[]] else [])
    && m'.prevType == ContainerType(j) && m'.lastArrayIndex == -1
    && m'.events == m.events + [Unmarshal(m.keyPath[1..], IndexKey(|items|), ContainerType(j), None)]
  }

  /** The effect of the token that closes the container on top, held under key by the map at loc. */
  ghost predicate ClosedMember(m: Machine, m': Machine, loc: nat, key: string) {
    && |m.keyPath| >= 2 && |m.umStack| >= 2 && loc < |m.store|
    && var top := m.umStack[|m.umStack| - 1];
    && m'.keyPath == m.keyPath[..|m.keyPath| - 1] && m'.umStack == m.umStack[..|m.umStack| - 1]
    && m'.store == (if top.Slice? then m.store[loc := m.store[loc][key := top]] else m.store)
    && m'.prevType == (if AtName(key) then EtArrayValue else EtUnknown)
    && m'.events == m.events + [Finalize(m.keyPath[1..|m.keyPath| - 1], key)]
  }

  ghost predicate ClosedElem(m: Machine, m': Machine, items: seq<Node>) {
    && |m.keyPath| >= 2 && |m.umStack| >= 2 && items != []
    && var top := m.umStack[|m.umStack| - 1];
    && var items' := if top.Slice? then items[|items| - 1 := top] else items;
    && m'.keyPath == m.keyPath[..|m.keyPath| - 1]
    && m'.umStack == m.umStack[..|m.umStack| - 1][|m.umStack| - 2 := Slice(items')]
    && m'.store == m.store
    && m'.prevType == EtArrayValue && m'.lastArrayIndex == |items| - 1
    && m'.events == m.events + [Finalize(m.keyPath[1..|m.keyPath| - 1], IndexKey(|items| - 1))]
  }

  // ----- single steps

  lemma {:induction false} NameStep(m: Machine, loc: nat, name: string) returns (m': Machine)
    requires InObject(m, loc) && ExpectsName(m.prevType)
    ensures Step(m, Lit(Str(name))) == Ok(m')
    ensures AfterName(m', loc, name)
    ensures m'.keyPath == m.keyPath + [name] && m'.umStack == m.umStack
    ensures m'.store == m.store && m'.events == m.events
  {
    m' := Step(m, Lit(Str(name))).value;
  }

  function OpenToken(j: Json): Token {
    if j.JObj? then ObjOpen else ArrOpen
  }

  function CloseToken(j: Json): Token {
    if j.JObj? then ObjClose else ArrClose
  }

  lemma {:induction false} MemberOpen(m: Machine, loc: nat, key: string, j: Json) returns (m': Machine)
    requires AfterName(m, loc, key) && IsContainer(j)
    ensures Step(m, OpenToken(j)) == Ok(m') && OpenedMember(m, m', loc, key, j)
  {
    assert m.umStack[|m.umStack| - 1 := MapRef(loc)] == m.umStack;
    m' := Step(m, OpenToken(j)).value;
  }

  lemma {:induction false} ElemOpen(m: Machine, items: seq<Node>, j: Json) returns (m': Machine)
    requires InArray(m, items) && IsContainer(j)
    ensures Step(m, OpenToken(j)) == Ok(m') && OpenedElem(m, m', items, j)
  {
    var kp := m.keyPath + [IndexKey(|items|)];
    assert kp[1..|kp| - 1] == m.keyPath[1..];
    m' := Step(m, OpenToken(j)).value;
  }

  lemma {:induction false} MemberClose(m: Machine, loc: nat, key: string, j: Json) returns (m': Machine)
    requires |m.keyPath| == |m.umStack| >= 2
    requires m.keyPath[|m.keyPath| - 1] == key
    requires m.umStack[|m.umStack| - 2] == MapRef(loc) && loc < |m.store| && key in m.store[loc]
    requires !m.umStack[|m.umStack| - 1].Leaf?
    ensures Step(m, CloseToken(j)) == Ok(m') && ClosedMember(m, m', loc, key)
  {
    var u := |m.umStack| - 1;
    assert m.umStack[..u][u - 1 := MapRef(loc)] == m.umStack[..u];
    m' := Step(m, CloseToken(j)).value;
  }

  lemma {:induction false} ElemClose(m: Machine, items: seq<Node>, j: Json) returns (m': Machine)
    requires |m.keyPath| == |m.umStack| >= 2 && items != []
    requires m.keyPath[|m.keyPath| - 1] == IndexKey(|items| - 1)
    requires m.umStack[|m.umStack| - 2] == Slice(items)
    requires !m.umStack[|m.umStack| - 1].Leaf?
    ensures Step(m, CloseToken(j)) == Ok(m') && ClosedElem(m, m', items)
  {
    var key := IndexKey(|items| - 1);
    assert key[1..] == Decimal.Print(|items| - 1);
    Decimal.AtoiPrint(|items| - 1);
    m' := Step(m, CloseToken(j)).value;
  }

  // ----- containers as values

  /** A filled map and everything it refers to represents its object. */
  lemma {:induction false} ObjectValue(st: Store, loc: nat, fields: map<string, Value>)
    requires loc < |st| && RepresentsFields(st, loc + 1, |st|, st[loc], fields)
    ensures Represents(st, loc, |st|, MapRef(loc), VObj(fields))
  {
    forall k | k in fields
      ensures Represents(st, loc, |st|, st[loc][k], fields[k])
    {
      RepresentsFrame(st, loc + 1, |st|, st, loc, |st|, st[loc][k], fields[k]);
    }
  }

  lemma {:induction false} ArrayValue(st: Store, lo: nat, items: seq<Node>, elems: seq<Value>)
    requires lo <= |st| && RepresentsElems(st, lo, |st|, items, elems)
    ensures Represents(st, lo, |st|, Slice(items), VArr(elems))
  {
  }

  // ----- assembling a container from its opening, its body and its closing

  lemma {:induction false} Enclosed<T>(before: seq<T>, open: T, body: seq<T>, close: T)
    ensures before + [open] + body + [close] == before + ([open] + body + [close])
  {
    ConcatAssoc(before, [open], body);
    ConcatAssoc(before, [open] + body, [close]);
  }

  lemma {:induction false} MemberPaths(path: seq<string>, key: string)
    requires |path| >= 2 && path[|path| - 1] == key
    ensures path[1..|path| - 1] + [key] == path[1..]
  {
  }

  lemma {:induction false} MemberObject(m: Machine, m1: Machine, m2: Machine, m3: Machine, loc: nat, key: string,
                                        j: Json)
    requires AfterName(m, loc, key) && j.JObj?
    requires OpenedMember(m, m1, loc, key, j)
    requires FilledObject(m1, m2, |m.store|, map[], j.members)
    requires ClosedMember(m2, m3, loc, key)
    ensures StoredMember(m, m3, loc, key, j)
  {
    MemberObjectEvents(m, m1, m2, m3, loc, key, j);
    assert m3.store == m2.store && m2.store[loc] == m1.store[loc];
    ObjectValue(m2.store, |m.store|, Bind(map[], j.members));
  }

  lemma {:induction false} MemberObjectEvents(m: Machine, m1: Machine, m2: Machine, m3: Machine, loc: nat, key: string,
                                              j: Json)
    requires AfterName(m, loc, key) && j.JObj?
    requires OpenedMember(m, m1, loc, key, j)
    requires FilledObject(m1, m2, |m.store|, map[], j.members)
    requires ClosedMember(m2, m3, loc, key)
    ensures m3.keyPath == m.keyPath[..|m.keyPath| - 1] && m3.umStack == m.umStack
    ensures m2.umStack[|m2.umStack| - 1] == MapRef(|m.store|)
    ensures m3.events == m.events + Visit(m.keyPath[1..|m.keyPath| - 1], key, j, EtValue)
  {
    MemberPaths(m.keyPath, key);
    var path := m.keyPath[1..|m.keyPath| - 1];
    Enclosed(m.events, Unmarshal(path, key, EtObject, None), VisitMembers(path + [key], j.members),
             Finalize(path, key));
  }

  lemma {:induction false} MemberArray(m: Machine, m1: Machine, m2: Machine, m3: Machine, loc: nat, key: string,
                                       j: Json)
    requires AfterName(m, loc, key) && j.JArr?
    requires OpenedMember(m, m1, loc, key, j)
    requires FilledArray(m1, m2, |m.store|, [], [], j.elems)
    requires ClosedMember(m2, m3, loc, key)
    ensures StoredMember(m, m3, loc, key, j)
  {
    MemberArrayStored(m, m1, m2, m3, loc, key, j);
    MemberArrayEvents(m, m1, m2, m3, loc, key, j);
  }

  lemma {:induction false} MemberArrayEvents(m: Machine, m1: Machine, m2: Machine, m3: Machine, loc: nat, key: string,
                                             j: Json)
    requires AfterName(m, loc, key) && j.JArr?
    requires OpenedMember(m, m1, loc, key, j)
    requires FilledArray(m1, m2, |m.store|, [], [], j.elems)
    requires ClosedMember(m2, m3, loc, key)
    ensures m3.keyPath == m.keyPath[..|m.keyPath| - 1] && m3.umStack == m.umStack
    ensures m3.events == m.events + Visit(m.keyPath[1..|m.keyPath| - 1], key, j, EtValue)
  {
    MemberPaths(m.keyPath, key);
    var path := m.keyPath[1..|m.keyPath| - 1];
    Enclosed(m.events, Unmarshal(path, key, EtArray, None), VisitElems(path + [key], 0, j.elems), Finalize(path, key));
  }

  lemma {:induction false} MemberArrayStored(m: Machine, m1: Machine, m2: Machine, m3: Machine, loc: nat, key: string,
                                             j: Json)
    requires AfterName(m, loc, key) && j.JArr?
    requires OpenedMember(m, m1, loc, key, j)
    requires FilledArray(m1, m2, |m.store|, [], [], j.elems)
    requires ClosedMember(m2, m3, loc, key)
    ensures Grown(m.store, m3.store, loc) && m3.store[loc] == m.store[loc][key := m2.umStack[|m2.umStack| - 1]]
    ensures Represents(m3.store, |m.store|, |m3.store|, m3.store[loc][key], Meaning(j))
  {
    assert m2.store[loc] == m1.store[loc];
    var top := m2.umStack[|m2.umStack| - 1];
    assert [] + ElemMeanings(j.elems) == ElemMeanings(j.elems);
    ArrayValue(m2.store, |m.store|, top.items, ElemMeanings(j.elems));
    RepresentsFrame(m2.store, |m.store|, |m2.store|, m3.store, |m.store|, |m3.store|, top, Meaning(j));
  }

  lemma {:induction false} ElemObject(m: Machine, m1: Machine, m2: Machine, m3: Machine, items: seq<Node>, j: Json)
    requires InArray(m, items) && j.JObj?
    requires OpenedElem(m, m1, items, j)
    requires FilledObject(m1, m2, |m.store|, map[], j.members)
    requires ClosedElem(m2, m3, items + [MapRef(|m.store|)])
    ensures StoredElem(m, m3, items, j)
  {
    ObjectValue(m2.store, |m.store|, Bind(map[], j.members));
    ElemPaths(m, m1, items);
    var path, key := m.keyPath[1..], IndexKey(|items|);
    Enclosed(m.events, Unmarshal(path, key, EtObject, None), VisitMembers(path + [key], j.members),
             Finalize(path, key));
  }

  lemma {:induction false} ElemArray(m: Machine, m1: Machine, m2: Machine, m3: Machine, items: seq<Node>, j: Json)
    requires InArray(m, items) && j.JArr?
    requires OpenedElem(m, m1, items, j)
    requires FilledArray(m1, m2, |m.store|, [], [], j.elems)
    requires ClosedElem(m2, m3, items + [Slice([])])
    ensures StoredElem(m, m3, items, j)
  {
    ElemArrayEvents(m, m1, m2, m3, items, j);
    ElemArrayStack(m, m1, m2, m3, items, j);
    EmptyConcat(ElemMeanings(j.elems));
    ArrayValue(m2.store, |m.store|, m2.umStack[|m2.umStack| - 1].items, ElemMeanings(j.elems));
  }

  lemma {:induction false} ElemArrayEvents(m: Machine, m1: Machine, m2: Machine, m3: Machine, items: seq<Node>, j: Json)
    requires j.JArr? && OpenedElem(m, m1, items, j)
    requires FilledArray(m1, m2, |m.store|, [], [], j.elems)
    requires ClosedElem(m2, m3, items + [Slice([])])
    ensures m3.keyPath == m.keyPath
    ensures m3.events == m.events + Visit(m.keyPath[1..], IndexKey(|items|), j, EtArrayValue)
  {
    ElemPaths(m, m1, items);
    var path, key := m.keyPath[1..], IndexKey(|items|);
    Enclosed(m.events, Unmarshal(path, key, EtArray, None), VisitElems(path + [key], 0, j.elems), Finalize(path, key));
  }

  lemma {:induction false} ElemArrayStack(m: Machine, m1: Machine, m2: Machine, m3: Machine, items: seq<Node>, j: Json)
    requires InArray(m, items) && j.JArr? && OpenedElem(m, m1, items, j)
    requires FilledArray(m1, m2, |m.store|, [], [], j.elems)
    requires ClosedElem(m2, m3, items + [Slice([])])
    ensures var u := |m.umStack| - 1;
            && |m3.umStack| == |m.umStack| && m3.umStack[..u] == m.umStack[..u]
            && m3.umStack[u] == Slice(items + [m2.umStack[|m2.umStack| - 1]])
  {
    var u, top := |m.umStack| - 1, m2.umStack[|m2.umStack| - 1];
    assert m1.umStack[..u] == m.umStack[..u] && |m1.umStack| == u + 2;
    assert m3.umStack[..u] == m2.umStack[..u] == m1.umStack[..u];
    assert (items + [Slice([])])[|items| := top] == items + [top];
  }

  lemma {:induction false} ElemPaths(m: Machine, m1: Machine, items: seq<Node>)
    requires m.keyPath != [] && m1.keyPath == m.keyPath + [IndexKey(|items|)]
    ensures m1.keyPath[1..|m1.keyPath| - 1] == m.keyPath[1..]
    ensures m1.keyPath[..|m1.keyPath| - 1] == m.keyPath
    ensures m1.keyPath[1..] == m.keyPath[1..] + [IndexKey(|items|)]
  {
  }

  lemma {:induction false} NextMember(m: Machine, m1: Machine, m2: Machine, m3: Machine, loc: nat,
                                      acc: map<string, Value>, ms: Members)
    requires ms.Member? && m.keyPath != []
    requires m1.keyPath == m.keyPath + [ms.name] && m1.umStack == m.umStack
    requires m1.store == m.store && m1.events == m.events
    requires StoredMember(m1, m2, loc, ms.name, ms.value)
    requires FilledObject(m2, m3, loc, acc[ms.name := Meaning(ms.value)], ms.rest)
    ensures FilledObject(m, m3, loc, acc, ms)
  {
    assert m1.keyPath[..|m1.keyPath| - 1] == m.keyPath;
    assert m1.keyPath[1..|m1.keyPath| - 1] == m.keyPath[1..];
  }

  lemma {:induction false} NextElem(m: Machine, m1: Machine, m2: Machine, lo: nat, items: seq<Node>, acc: seq<Value>,
                                    es: Elems)
    requires es.Elem?
    requires StoredElem(m, m1, items, es.value)
    requires FilledArray(m1, m2, lo, m1.umStack[|m.umStack| - 1].items, acc + [Meaning(es.value)], es.rest)
    ensures FilledArray(m, m2, lo, items, acc, es)
  {
    assert acc + [Meaning(es.value)] + ElemMeanings(es.rest) == acc + ElemMeanings(es);
  }

  // ----- the induction

  predicate Clean(j: Json) {
    Nulls(j) == 0 && AtSafe(j)
  }

  lemma {:induction false} RunOne(m: Machine, token: Token)
    ensures Run(m, [token]) == Step(m, token)
  {
    match Step(m, token)
    case Ok(m') => assert Run(m', [token][1..]) == Ok(m');
    case Error =>
    case Panic =>
  }

  lemma {:induction false} AlignedCons(m: Machine, token: Token, m': Machine, rest: seq<Token>)
    requires Aligned(m) && Step(m, token) == Ok(m') && AlwaysAligned(m', rest)
    ensures AlwaysAligned(m, [token] + rest)
  {
    assert ([token] + rest)[1..] == rest;
  }

  lemma {:induction false} Bracketed(m: Machine, m1: Machine, m2: Machine, m3: Machine, open: Token, body: seq<Token>,
                                     close: Token)
    requires Step(m, open) == Ok(m1) && Run(m1, body) == Ok(m2) && Step(m2, close) == Ok(m3)
    requires Aligned(m) && AlwaysAligned(m1, body) && Aligned(m2) && Aligned(m3)
    ensures Run(m, [open] + body + [close]) == Ok(m3)
    ensures AlwaysAligned(m, [open] + body + [close])
  {
    AlignedOne(m2, close);
    AlignedConcat(m1, body, m2, [close]);
    AlignedCons(m, open, m1, body + [close]);
    ConcatAssoc([open], body, [close]);
    RunOne(m, open);
    RunOne(m2, close);
    RunConcat(m, [open], body + [close]);
    RunConcat(m1, body, [close]);
  }

  lemma {:induction false} MemberLeaf(m: Machine, loc: nat, key: string, v: Scalar) returns (m': Machine)
    requires AfterName(m, loc, key)
    ensures Run(m, Tokens(JLit(v))) == Ok(m') && StoredMember(m, m', loc, key, JLit(v))
    ensures AlwaysAligned(m, Tokens(JLit(v)))
  {
    RunOne(m, Lit(v));
    assert m.umStack[|m.umStack| - 1 := MapRef(loc)] == m.umStack;
    m' := Step(m, Lit(v)).value;
    AlignedOne(m, Lit(v));
  }

  lemma {:induction false} ElemLeaf(m: Machine, items: seq<Node>, v: Scalar) returns (m': Machine)
    requires InArray(m, items)
    ensures Run(m, Tokens(JLit(v))) == Ok(m') && StoredElem(m, m', items, JLit(v))
    ensures AlwaysAligned(m, Tokens(JLit(v)))
  {
    RunOne(m, Lit(v));
    m' := Step(m, Lit(v)).value;
    assert m'.umStack[|m.umStack| - 1] == Slice(items + [Leaf(v)]);
    AlignedOne(m, Lit(v));
  }

  /** A value after a name ends up bound to that name in the enclosing map. */
  lemma {:induction false} MemberValue(m: Machine, loc: nat, key: string, j: Json) returns (m': Machine)
    requires AfterName(m, loc, key) && Clean(j)
    ensures Run(m, Tokens(j)) == Ok(m') && StoredMember(m, m', loc, key, j)
    ensures AlwaysAligned(m, Tokens(j))
    decreases j, 1
  {
    match j
    case JLit(v) => m' := MemberLeaf(m, loc, key, v);
    case JObj(ms) => m' := MemberIsObject(m, loc, key, j);
    case JArr(es) => m' := MemberIsArray(m, loc, key, j);
  }

  lemma {:induction false} MemberIsObject(m: Machine, loc: nat, key: string, j: Json) returns (m': Machine)
    requires AfterName(m, loc, key) && Clean(j) && j.JObj?
    ensures Run(m, Tokens(j)) == Ok(m') && StoredMember(m, m', loc, key, j)
    ensures AlwaysAligned(m, Tokens(j))
    decreases j, 0
  {
    var m1 := MemberOpen(m, loc, key, j);
    var m2 := FillObject(m1, |m.store|, map[], j.members);
    m' := MemberClose(m2, loc, key, j);
    Bracketed(m, m1, m2, m', ObjOpen, MemberTokens(j.members), ObjClose);
    MemberObject(m, m1, m2, m', loc, key, j);
  }

  lemma {:induction false} MemberIsArray(m: Machine, loc: nat, key: string, j: Json) returns (m': Machine)
    requires AfterName(m, loc, key) && Clean(j) && j.JArr?
    ensures Run(m, Tokens(j)) == Ok(m') && StoredMember(m, m', loc, key, j)
    ensures AlwaysAligned(m, Tokens(j))
    decreases j, 0
  {
    var m1 := MemberOpen(m, loc, key, j);
    var m2 := FillArray(m1, |m.store|, [], [], j.elems);
    assert m2.umStack[|m2.umStack| - 2] == m2.umStack[..|m2.umStack| - 1][|m2.umStack| - 2];
    m' := MemberClose(m2, loc, key, j);
    MemberArrayRun(m, m1, m2, m', loc, key, j);
    MemberArray(m, m1, m2, m', loc, key, j);
  }

  lemma {:induction false} MemberArrayRun(m: Machine, m1: Machine, m2: Machine, m3: Machine, loc: nat, key: string,
                                          j: Json)
    requires AfterName(m, loc, key) && j.JArr? && Step(m, ArrOpen) == Ok(m1) && OpenedMember(m, m1, loc, key, j)
    requires Run(m1, ElemTokens(j.elems)) == Ok(m2) && AlwaysAligned(m1, ElemTokens(j.elems))
    requires FilledArray(m1, m2, |m.store|, [], [], j.elems) && Aligned(m2)
    requires Step(m2, ArrClose) == Ok(m3) && ClosedMember(m2, m3, loc, key)
    ensures Run(m, Tokens(j)) == Ok(m3) && AlwaysAligned(m, Tokens(j))
  {
    Bracketed(m, m1, m2, m3, ArrOpen, ElemTokens(j.elems), ArrClose);
  }

  /** Running an object's members adds their bindings to the map on top. */
  lemma {:induction false} FillObject(m: Machine, loc: nat, acc: map<string, Value>, ms: Members) returns (m': Machine)
    requires InObject(m, loc) && m.prevType != EtKey && (ms.Member? ==> ExpectsName(m.prevType))
    requires MemberNulls(ms) == 0 && MembersAtSafe(ms)
    requires RepresentsFields(m.store, loc + 1, |m.store|, m.store[loc], acc)
    ensures Run(m, MemberTokens(ms)) == Ok(m') && FilledObject(m, m', loc, acc, ms)
    ensures AlwaysAligned(m, MemberTokens(ms)) && m'.prevType != EtKey
    decreases ms
  {
    match ms
    case NoMember => m' := m;
    case Member(n, v, rest) =>
      var m1 := NameStep(m, loc, n);
      var m2 := MemberValue(m1, loc, n, v);
      BindRepresented(m, m2, loc, acc, n, v);
      m' := FillObject(m2, loc, acc[n := Meaning(v)], rest);
      NextMember(m, m1, m2, m', loc, acc, ms);
      Named(m, m1, m2, m', Lit(Str(n)), Tokens(v), MemberTokens(rest));
  }

  lemma {:induction false} Named(m: Machine, m1: Machine, m2: Machine, m3: Machine, name: Token, value: seq<Token>,
                                 rest: seq<Token>)
    requires Step(m, name) == Ok(m1) && Run(m1, value) == Ok(m2) && Run(m2, rest) == Ok(m3)
    requires Aligned(m) && AlwaysAligned(m1, value) && AlwaysAligned(m2, rest)
    ensures Run(m, [name] + value + rest) == Ok(m3)
    ensures AlwaysAligned(m, [name] + value + rest)
  {
    AlignedConcat(m1, value, m2, rest);
    AlignedCons(m, name, m1, value + rest);
    ConcatAssoc([name], value, rest);
    RunOne(m, name);
    RunConcat(m, [name], value + rest);
    RunConcat(m1, value, rest);
  }

  lemma {:induction false} BindRepresented(m: Machine, m2: Machine, loc: nat, acc: map<string, Value>, n: string,
                                           v: Json)
    requires loc < |m.store| && Grown(m.store, m2.store, loc)
    requires RepresentsFields(m.store, loc + 1, |m.store|, m.store[loc], acc)
    requires m2.store[loc].Keys == m.store[loc].Keys + {n}
    requires forall k | k in m.store[loc] && k != n :: m2.store[loc][k] == m.store[loc][k]
    requires Represents(m2.store, |m.store|, |m2.store|, m2.store[loc][n], Meaning(v))
    ensures RepresentsFields(m2.store, loc + 1, |m2.store|, m2.store[loc], acc[n := Meaning(v)])
  {
    var acc' := acc[n := Meaning(v)];
    forall k | k in acc'
      ensures Represents(m2.store, loc + 1, |m2.store|, m2.store[loc][k], acc'[k])
    {
      if k == n {
        RepresentsFrame(m2.store, |m.store|, |m2.store|, m2.store, loc + 1, |m2.store|, m2.store[loc][k], acc'[k]);
      } else {
        RepresentsFrame(m.store, loc + 1, |m.store|, m2.store, loc + 1, |m2.store|, m.store[loc][k], acc[k]);
      }
    }
  }

  /** A value in an array is appended to the slice on top. */
  lemma {:induction false} ElemValue(m: Machine, items: seq<Node>, j: Json) returns (m': Machine)
    requires InArray(m, items) && Clean(j)
    ensures Run(m, Tokens(j)) == Ok(m') && StoredElem(m, m', items, j)
    ensures AlwaysAligned(m, Tokens(j))
    decreases j, 1
  {
    match j
    case JLit(v) => m' := ElemLeaf(m, items, v);
    case JObj(ms) => m' := ElemIsObject(m, items, j);
    case JArr(es) => m' := ElemIsArray(m, items, j);
  }

  lemma {:induction false} ElemIsObject(m: Machine, items: seq<Node>, j: Json) returns (m': Machine)
    requires InArray(m, items) && Clean(j) && j.JObj?
    ensures Run(m, Tokens(j)) == Ok(m') && StoredElem(m, m', items, j)
    ensures AlwaysAligned(m, Tokens(j))
    decreases j, 0
  {
    var m1 := ElemOpen(m, items, j);
    var m2 := FillObject(m1, |m.store|, map[], j.members);
    m' := ElemClose(m2, items + [MapRef(|m.store|)], j);
    ElemObjectRun(m, m1, m2, m', items, j);
    ElemObject(m, m1, m2, m', items, j);
  }

  lemma {:induction false} ElemObjectRun(m: Machine, m1: Machine, m2: Machine, m3: Machine, items: seq<Node>, j: Json)
    requires InArray(m, items) && j.JObj? && Step(m, ObjOpen) == Ok(m1) && OpenedElem(m, m1, items, j)
    requires Run(m1, MemberTokens(j.members)) == Ok(m2) && AlwaysAligned(m1, MemberTokens(j.members))
    requires FilledObject(m1, m2, |m.store|, map[], j.members) && Aligned(m2)
    requires Step(m2, ObjClose) == Ok(m3) && ClosedElem(m2, m3, items + [MapRef(|m.store|)])
    ensures Run(m, Tokens(j)) == Ok(m3) && AlwaysAligned(m, Tokens(j))
  {
    Bracketed(m, m1, m2, m3, ObjOpen, MemberTokens(j.members), ObjClose);
  }

  lemma {:induction false} ElemIsArray(m: Machine, items: seq<Node>, j: Json) returns (m': Machine)
    requires InArray(m, items) && Clean(j) && j.JArr?
    ensures Run(m, Tokens(j)) == Ok(m') && StoredElem(m, m', items, j)
    ensures AlwaysAligned(m, Tokens(j))
    decreases j, 0
  {
    var m1 := ElemOpen(m, items, j);
    var m2 := FillArray(m1, |m.store|, [], [], j.elems);
    assert m2.umStack[|m2.umStack| - 2] == m2.umStack[..|m2.umStack| - 1][|m2.umStack| - 2];
    m' := ElemClose(m2, items + [Slice([])], j);
    Bracketed(m, m1, m2, m', ArrOpen, ElemTokens(j.elems), ArrClose);
    ElemArray(m, m1, m2, m', items, j);
  }

  lemma {:induction false} FillArray(m: Machine, lo: nat, items: seq<Node>, acc: seq<Value>, es: Elems)
    returns (m': Machine)
    requires InArray(m, items) && lo <= |m.store|
    requires ElemNulls(es) == 0 && ElemsAtSafe(es)
    requires RepresentsElems(m.store, lo, |m.store|, items, acc)
    ensures Run(m, ElemTokens(es)) == Ok(m') && FilledArray(m, m', lo, items, acc, es)
    ensures AlwaysAligned(m, ElemTokens(es)) && m'.prevType != EtKey
    decreases es
  {
    match es
    case NoElem =>
      m' := m;
      assert acc + [] == acc;
    case Elem(v, rest) =>
      var m1 := ElemValue(m, items, v);
      var items' := m1.umStack[|m.umStack| - 1].items;
      ElemsExtended(m, m1, lo, items, items', acc, v);
      m' := FillArray(m1, lo, items', acc + [Meaning(v)], rest);
      NextElem(m, m1, m', lo, items, acc, es);
      RunConcat(m, Tokens(v), ElemTokens(rest));
      AlignedConcat(m, Tokens(v), m1, ElemTokens(rest));
  }

  lemma {:induction false} ElemsExtended(m: Machine, m1: Machine, lo: nat, items: seq<Node>, items': seq<Node>,
                                         acc: seq<Value>, v: Json)
    requires lo <= |m.store| && Grown(m.store, m1.store, -1)
    requires RepresentsElems(m.store, lo, |m.store|, items, acc)
    requires |items'| == |items| + 1 && items'[..|items|] == items
    requires Represents(m1.store, |m.store|, |m1.store|, items'[|items|], Meaning(v))
    ensures RepresentsElems(m1.store, lo, |m1.store|, items', acc + [Meaning(v)])
  {
    var acc' := acc + [Meaning(v)];
    forall i | 0 <= i < |acc'|
      ensures Represents(m1.store, lo, |m1.store|, items'[i], acc'[i])
    {
      if i == |acc| {
        RepresentsFrame(m1.store, |m.store|, |m1.store|, m1.store, lo, |m1.store|, items'[i], acc'[i]);
      } else {
        assert items'[i] == items'[..|items|][i];
        RepresentsFrame(m.store, lo, |m.store|, m1.store, lo, |m1.store|, items[i], acc[i]);
      }
    }
  }
}
