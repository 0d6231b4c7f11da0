/**
 What Parse computes on the token stream of a document: it rebuilds the document
 exactly when the document has no null and no container under a '@' name that
 another member follows, and fails otherwise.
 */
module JsonTheorems {
  import opened Common
  import opened JsonStream
  import opened JsonDocuments
  import opened JsonRebuild

  /** An empty root container of the document's own kind. */
  predicate EmptyRoot(store: Store, root: Node, j: Json) {
    match j
    case JObj(_) => root.MapRef? && root.loc < |store| && store[root.loc] == map[]
    case JArr(_) => root == Slice([])
    case _ => false
  }

  /** The calls a custom unmarshaller at the root receives. */
  function RootVisit(j: Json): seq<Event> {
    match j
    case JObj(ms) => VisitMembers([], ms)
    case JArr(es) => VisitElems([], 0, es)
    case _ => []
  }

  function Body(j: Json): seq<Token> {
    match j
    case JObj(ms) => MemberTokens(ms)
    case JArr(es) => ElemTokens(es)
    case _ => []
  }

  /** The first map a rebuilt document may use. */
  function FirstLoc(store: Store, root: Node): nat {
    if root.MapRef? then root.loc else |store|
  }

  ghost predicate Rebuilt(store: Store, root: Node, j: Json, m: Machine) {
    && m.keyPath == [] && m.umStack == []
    && Grown(store, m.store, if root.MapRef? then root.loc else -1)
    && m.current.Some? && FirstLoc(store, root) <= |m.store|
    && Represents(m.store, FirstLoc(store, root), |m.store|, m.current.value, Meaning(j))
    && (root.MapRef? ==> m.current.value == root)
    && m.events == RootVisit(j)
  }

  lemma {:induction false} RootClose(m: Machine, close: Token) returns (m': Machine)
    requires |m.keyPath| == 1 && |m.umStack| == 1 && m.keyPath[0] == ""
    requires close == ObjClose || close == ArrClose
    ensures Step(m, close) == Ok(m')
    ensures m' == m.(keyPath := [], umStack := [], current := Some(m.umStack[0]), lastArrayIndex := -1,
                     prevType := EtUnknown)
  {
    m' := Step(m, close).value;
  }

  /** On a clean document the token loop ends with both stacks empty and the document rebuilt. */
  lemma {:induction false} RunRebuilds(store: Store, root: Node, j: Json) returns (m': Machine)
    requires IsContainer(j) && Clean(j) && EmptyRoot(store, root, j)
    ensures Run(Initial(store, root, ContainerType(j)), Body(j) + [CloseToken(j)]) == Ok(m')
    ensures AlwaysAligned(Initial(store, root, ContainerType(j)), Body(j) + [CloseToken(j)])
    ensures Rebuilt(store, root, j, m')
  {
    var m := Initial(store, root, ContainerType(j));
    assert m.keyPath[1..] == [];
    var m1;
    match j {
      case JObj(ms) =>
        m1 := FillObject(m, root.loc, map[], ms);
        ObjectValue(m1.store, root.loc, Bind(map[], ms));
      case JArr(es) =>
        m1 := FillArray(m, |store|, [], [], es);
        assert [] + ElemMeanings(es) == ElemMeanings(es);
        ArrayValue(m1.store, |store|, m1.umStack[0].items, ElemMeanings(es));
    }
    assert [] + RootVisit(j) == RootVisit(j) == m1.events;
    m' := RootClose(m1, CloseToken(j));
    RunOne(m1, CloseToken(j));
    RunConcat(m, Body(j), [CloseToken(j)]);
    AlignedOne(m1, CloseToken(j));
    AlignedConcat(m, Body(j), m1, [CloseToken(j)]);
  }

  // ----- null: every null pops a container that is still open

  function Delta(t: Token): int {
    match t
    case ObjOpen => 1
    case ArrOpen => 1
    case Lit(_) => 0
    case _ => -1
  }

  function Deltas(tokens: seq<Token>): int {
    if tokens == [] then 0 else Delta(tokens[0]) + Deltas(tokens[1..])
  }

  lemma {:induction false} DeltasConcat(a: seq<Token>, b: seq<Token>)
    ensures Deltas(a + b) == Deltas(a) + Deltas(b)
    decreases |a|
  {
    if a == [] {
      assert a + b == b;
    } else {
      assert (a + b)[1..] == a[1..] + b;
      DeltasConcat(a[1..], b);
    }
  }

  lemma {:induction false} StepHeight(m: Machine, t: Token)
    requires Step(m, t).Ok?
    ensures |Step(m, t).value.umStack| == |m.umStack| + Delta(t)
  {
    var lastKey, curr := m.keyPath[|m.keyPath| - 1], m.umStack[|m.umStack| - 1];
    match TypeFromToken(m.prevType, t)
    case Some(EtKey) =>
    case Some(EtUnknown) => CloseHeight(m, lastKey, curr);
    case Some(EtObject) => OpenHeight(m, EtObject, lastKey, curr);
    case Some(EtArray) => OpenHeight(m, EtArray, lastKey, curr);
    case Some(_) =>
  }

  lemma {:induction false} CloseHeight(m: Machine, lastKey: string, curr: Node)
    requires m.keyPath != [] && m.umStack != [] && StepClose(m, lastKey, curr).Ok?
    ensures |StepClose(m, lastKey, curr).value.umStack| == |m.umStack| - 1
  {
  }

  lemma {:induction false} OpenHeight(m: Machine, et: ElementType, lastKey: string, curr: Node)
    requires m.keyPath != [] && m.umStack != [] && StepOpen(m, et, lastKey, curr).Ok?
    ensures |StepOpen(m, et, lastKey, curr).value.umStack| == |m.umStack| + 1
  {
  }

  /** The unmarshaller stack grows by one per opening and shrinks by one per closing and per null. */
  lemma {:induction false} RunHeight(m: Machine, tokens: seq<Token>)
    requires Run(m, tokens).Ok?
    ensures |Run(m, tokens).value.umStack| == |m.umStack| + Deltas(tokens)
    decreases |tokens|
  {
    if tokens != [] {
      StepHeight(m, tokens[0]);
      RunHeight(Step(m, tokens[0]).value, tokens[1..]);
    }
  }

  lemma {:induction false} DocumentDeltas(j: Json)
    ensures Deltas(Tokens(j)) + Nulls(j) == 0
    decreases j
  {
    match j
    case JLit(v) => assert Deltas([Lit(v)][1..]) == 0;
    case JNull => assert Deltas([Null][1..]) == 0;
    case JObj(ms) =>
      MemberDeltas(ms);
      BracketDeltas(ObjOpen, MemberTokens(ms), ObjClose);
    case JArr(es) =>
      ElemDeltas(es);
      BracketDeltas(ArrOpen, ElemTokens(es), ArrClose);
  }

  lemma {:induction false} BracketDeltas(open: Token, body: seq<Token>, close: Token)
    ensures Deltas(body + [close]) == Deltas(body) + Delta(close)
    ensures Deltas([open] + body + [close]) == Delta(open) + Deltas(body) + Delta(close)
  {
    DeltasConcat(body, [close]);
    assert Deltas([close][1..]) == 0;
    assert ([open] + body + [close])[1..] == body + [close];
  }

  lemma {:induction false} MemberDeltas(ms: Members)
    ensures Deltas(MemberTokens(ms)) + MemberNulls(ms) == 0
    decreases ms
  {
    match ms
    case NoMember =>
    case Member(n, v, rest) =>
      DocumentDeltas(v);
      MemberDeltas(rest);
      DeltasConcat([Lit(Str(n))] + Tokens(v), MemberTokens(rest));
      DeltasConcat([Lit(Str(n))], Tokens(v));
      assert Deltas([Lit(Str(n))][1..]) == 0;
  }

  lemma {:induction false} ElemDeltas(es: Elems)
    ensures Deltas(ElemTokens(es)) + ElemNulls(es) == 0
    decreases es
  {
    match es
    case NoElem =>
    case Elem(v, rest) =>
      DocumentDeltas(v);
      ElemDeltas(rest);
      DeltasConcat(Tokens(v), ElemTokens(rest));
  }

  /** A container document with a null is never parsed to the end, whatever the root. */
  lemma {:induction false} NullFails(store: Store, root: Node, j: Json)
    requires IsContainer(j) && Nulls(j) > 0
    ensures !Run(Initial(store, root, ContainerType(j)), Body(j) + [CloseToken(j)]).Ok?
  {
    var m := Initial(store, root, ContainerType(j));
    if Run(m, Body(j) + [CloseToken(j)]).Ok? {
      RunHeight(m, Body(j) + [CloseToken(j)]);
      BracketDeltas(OpenToken(j), Body(j), CloseToken(j));
      if j.JObj? { MemberDeltas(j.members); } else { ElemDeltas(j.elems); }
      assert false;
    }
  }

  // ----- '@' names: the member after a container under such a name is taken for an array value

  lemma {:induction false} FailedPrefix(m: Machine, a: seq<Token>, b: seq<Token>)
    requires !Run(m, a).Ok?
    ensures !Run(m, a + b).Ok?
  {
    RunConcat(m, a, b);
  }

  lemma {:induction false} ErrorPrefix(m: Machine, a: seq<Token>, b: seq<Token>)
    requires Run(m, a) == Error
    ensures Run(m, a + b) == Error
  {
    RunConcat(m, a, b);
  }

  lemma {:induction false} ErrorSuffix(m: Machine, a: seq<Token>, m': Machine, b: seq<Token>)
    requires Run(m, a) == Ok(m') && Run(m', b) == Error
    ensures Run(m, a + b) == Error
  {
    RunConcat(m, a, b);
  }

  /** A name read in array-value position is rejected by the enclosing map. */
  lemma {:induction false} NameTakenForValue(m: Machine, loc: nat, name: string, rest: seq<Token>)
    requires InObject(m, loc) && m.prevType == EtArrayValue
    ensures Run(m, [Lit(Str(name))] + rest) == Error
  {
    RunOne(m, Lit(Str(name)));
    ErrorPrefix(m, [Lit(Str(name))], rest);
  }

  lemma {:induction false} NameTaken(m: Machine, loc: nat, ms: Members)
    requires InObject(m, loc) && m.prevType == EtArrayValue && ms.Member?
    ensures Run(m, MemberTokens(ms)) == Error
  {
    var rest := Tokens(ms.value) + MemberTokens(ms.rest);
    NameTakenForValue(m, loc, ms.name, rest);
    ConcatAssoc([Lit(Str(ms.name))], Tokens(ms.value), MemberTokens(ms.rest));
  }

  lemma {:induction false} UnsafeMemberValue(m: Machine, loc: nat, key: string, j: Json)
    requires AfterName(m, loc, key) && Nulls(j) == 0 && !AtSafe(j)
    ensures Run(m, Tokens(j)) == Error
    decreases j
  {
    var m1 := MemberOpen(m, loc, key, j);
    UnsafeBody(m, m1, j);
  }

  lemma {:induction false} UnsafeElemValue(m: Machine, items: seq<Node>, j: Json)
    requires InArray(m, items) && Nulls(j) == 0 && !AtSafe(j)
    ensures Run(m, Tokens(j)) == Error
    decreases j
  {
    var m1 := ElemOpen(m, items, j);
    UnsafeBody(m, m1, j);
  }

  lemma {:induction false} UnsafeBody(m: Machine, m1: Machine, j: Json)
    requires IsContainer(j) && Step(m, OpenToken(j)) == Ok(m1)
    requires match j
             case JObj(_) => |m1.store| > 0 && InObject(m1, |m1.store| - 1) && m1.prevType == EtObject
             case JArr(_) => InArray(m1, [])
             case _ => false
    requires Nulls(j) == 0 && !AtSafe(j)
    ensures Run(m, Tokens(j)) == Error
    decreases j, 0
  {
    match j {
      case JObj(ms) => UnsafeMembers(m1, |m1.store| - 1, ms);
      case JArr(es) => UnsafeElems(m1, [], es);
    }
    RunOne(m, OpenToken(j));
    ErrorSuffix(m, [OpenToken(j)], m1, Body(j));
    ErrorPrefix(m, [OpenToken(j)] + Body(j), [CloseToken(j)]);
  }

  lemma {:induction false} UnsafeMembers(m: Machine, loc: nat, ms: Members)
    requires InObject(m, loc) && (ms.Member? ==> ExpectsName(m.prevType))
    requires MemberNulls(ms) == 0 && !MembersAtSafe(ms)
    ensures Run(m, MemberTokens(ms)) == Error
    decreases ms
  {
    var Member(n, v, rest) := ms;
    var name := Lit(Str(n));
    var m1 := NameStep(m, loc, n);
    RunOne(m, name);
    if !AtSafe(v) {
      UnsafeMemberValue(m1, loc, n, v);
      ErrorSuffix(m, [name], m1, Tokens(v));
      ErrorPrefix(m, [name] + Tokens(v), MemberTokens(rest));
    } else {
      var m2 := MemberValue(m1, loc, n, v);
      if AtName(n) && IsContainer(v) && rest.Member? {
        NameTaken(m2, loc, rest);
      } else {
        UnsafeMembers(m2, loc, rest);
      }
      RunConcat(m, [name], Tokens(v));
      ErrorSuffix(m, [name] + Tokens(v), m2, MemberTokens(rest));
    }
  }

  lemma {:induction false} UnsafeElems(m: Machine, items: seq<Node>, es: Elems)
    requires InArray(m, items) && ElemNulls(es) == 0 && !ElemsAtSafe(es)
    ensures Run(m, ElemTokens(es)) == Error
    decreases es
  {
    var Elem(v, rest) := es;
    if !AtSafe(v) {
      UnsafeElemValue(m, items, v);
      ErrorPrefix(m, Tokens(v), ElemTokens(rest));
    } else {
      var m1 := ElemValue(m, items, v);
      UnsafeElems(m1, m1.umStack[|m1.umStack| - 1].items, rest);
      ErrorSuffix(m, Tokens(v), m1, ElemTokens(rest));
    }
  }

  lemma {:induction false} UnsafeFails(store: Store, root: Node, j: Json)
    requires IsContainer(j) && EmptyRoot(store, root, j) && Nulls(j) == 0 && !AtSafe(j)
    ensures Run(Initial(store, root, ContainerType(j)), Body(j) + [CloseToken(j)]) == Error
  {
    var m := Initial(store, root, ContainerType(j));
    match j {
      case JObj(ms) => UnsafeMembers(m, root.loc, ms);
      case JArr(es) => UnsafeElems(m, [], es);
    }
    ErrorPrefix(m, Body(j), [CloseToken(j)]);
  }

  // ----- main results

  /** Parse is the token loop on what follows the first token. */
  lemma {:induction false} ParseRuns(store: Store, root: Node, j: Json, more: seq<Token>)
    requires IsContainer(j)
    ensures var r := Run(Initial(store, root, ContainerType(j)), Body(j) + [CloseToken(j)] + more);
            var p := ParseSpec(store, root, Tokens(j) + more);
            (p.Ok? <==> r.Ok?) && (p == Error <==> r == Error) && (p == Panic <==> r == Panic)
  {
    assert (Tokens(j) + more)[1..] == Body(j) + [CloseToken(j)] + more;
  }

  /** With the stacks empty any further token is out of range. */
  lemma {:induction false} NothingMayFollow(m: Machine, more: seq<Token>)
    requires m.umStack == []
    ensures if more == [] then Run(m, more) == Ok(m) else Run(m, more) == Panic
  {
  }

  lemma {:induction false} CleanParses(store: Store, root: Node, j: Json, more: seq<Token>)
    requires EmptyRoot(store, root, j) && Clean(j)
    ensures ParseSpec(store, root, Tokens(j) + more).Ok? <==> more == []
  {
    var m' := RunRebuilds(store, root, j);
    assert m'.umStack == [];
    ParseRuns(store, root, j, more);
    RunConcat(Initial(store, root, ContainerType(j)), Body(j) + [CloseToken(j)], more);
    NothingMayFollow(m', more);
  }

  lemma {:induction false} UncleanFails(store: Store, root: Node, j: Json, more: seq<Token>)
    requires EmptyRoot(store, root, j) && !Clean(j)
    ensures !ParseSpec(store, root, Tokens(j) + more).Ok?
  {
    ParseRuns(store, root, j, more);
    if Nulls(j) > 0 { NullFails(store, root, j); } else { UnsafeFails(store, root, j); }
    FailedPrefix(Initial(store, root, ContainerType(j)), Body(j) + [CloseToken(j)], more);
  }

  /**
   Parse on a document followed by any further tokens: it succeeds exactly when
   the document is clean and nothing follows.
   */
  lemma {:induction false} ParseSucceedsIff(store: Store, root: Node, j: Json, more: seq<Token>)
    requires EmptyRoot(store, root, j)
    ensures ParseSpec(store, root, Tokens(j) + more).Ok? <==> Clean(j) && more == []
  {
    if Clean(j) {
      CleanParses(store, root, j, more);
    } else {
      UncleanFails(store, root, j, more);
    }
  }

  /**
   How a document without nulls is refused: with an error exactly for a container
   under an `@` name that another member follows, and else, when it is followed by
   further tokens, with a panic.
   */
  lemma {:induction false} RefusedHow(store: Store, root: Node, j: Json, more: seq<Token>)
    requires EmptyRoot(store, root, j) && Nulls(j) == 0
    ensures ParseSpec(store, root, Tokens(j) + more) == Error <==> !AtSafe(j)
    ensures ParseSpec(store, root, Tokens(j) + more) == Panic <==> AtSafe(j) && more != []
  {
    ParseRuns(store, root, j, more);
    var m, all := Initial(store, root, ContainerType(j)), Body(j) + [CloseToken(j)];
    if AtSafe(j) {
      var m' := RunRebuilds(store, root, j);
      assert m'.umStack == [];
      RunConcat(m, all, more);
      NothingMayFollow(m', more);
    } else {
      UnsafeFails(store, root, j);
      ErrorPrefix(m, all, more);
    }
  }

  /** Parse rebuilds exactly the document, making the calls of its depth-first traversal. */
  lemma {:induction false} ParseRebuilds(store: Store, root: Node, j: Json)
    requires EmptyRoot(store, root, j) && Clean(j)
    ensures ParseSpec(store, root, Tokens(j)).Ok?
    ensures var r := ParseSpec(store, root, Tokens(j)).value;
            && Grown(store, r.store, if root.MapRef? then root.loc else -1)
            && r.root.Some? && FirstLoc(store, root) <= |r.store|
            && Represents(r.store, FirstLoc(store, root), |r.store|, r.root.value, Meaning(j))
            && (root.MapRef? ==> r.root.value == root)
            && r.events == RootVisit(j)
    ensures AlwaysAligned(Initial(store, root, ContainerType(j)), Tokens(j)[1..])
  {
    assert Tokens(j)[1..] == Body(j) + [CloseToken(j)];
    var m' := RunRebuilds(store, root, j);
  }

  /** A member after a container named "@x" makes the parse fail; the same container in last place does not. */
  lemma {:induction false} AtNameWitness(store: Store, loc: nat)
    requires loc < |store| && store[loc] == map[]
    ensures var inner := JObj(NoMember);
            var last := JObj(Member("a", inner, Member("@x", inner, NoMember)));
            var first := JObj(Member("@x", inner, Member("a", inner, NoMember)));
            && !ParseSpec(store, MapRef(loc), Tokens(first)).Ok?
            && ParseSpec(store, MapRef(loc), Tokens(last)).Ok?
  {
    var inner := JObj(NoMember);
    var last := JObj(Member("a", inner, Member("@x", inner, NoMember)));
    var first := JObj(Member("@x", inner, Member("a", inner, NoMember)));
    assert Nulls(inner) == 0 && MemberNulls(Member("@x", inner, NoMember)) == 0;
    ParseSucceedsIff(store, MapRef(loc), first, []);
    ParseSucceedsIff(store, MapRef(loc), last, []);
    assert Tokens(first) + [] == Tokens(first) && Tokens(last) + [] == Tokens(last);
  }

  lemma {:induction false} RunCons(m: Machine, t: Token, m': Machine, rest: seq<Token>)
    requires Step(m, t) == Ok(m')
    ensures Run(m, [t] + rest) == Run(m', rest)
  {
    assert ([t] + rest)[1..] == rest;
  }

  /** A null among the members, after clean ones none of which is a container under an `@` name. */
  predicate NullMember(ms: Members) {
    match ms
    case NoMember => false
    case Member(n, v, rest) => v == JNull || (Clean(v) && !(AtName(n) && IsContainer(v)) && NullMember(rest))
  }

  predicate NullElem(es: Elems) {
    match es
    case NoElem => false
    case Elem(v, rest) => v == JNull || (Clean(v) && NullElem(rest))
  }

  /** The root itself holds a null, and what comes before it is clean. */
  predicate RootNull(j: Json) {
    match j
    case JObj(ms) => NullMember(ms)
    case JArr(es) => NullElem(es)
    case _ => false
  }

  lemma {:induction false} NullMemberPanics(m: Machine, loc: nat, ms: Members, tail: seq<Token>)
    requires InObject(m, loc) && |m.umStack| == 1 && ExpectsName(m.prevType) && NullMember(ms) && tail != []
    ensures Run(m, MemberTokens(ms) + tail) == Panic
    decreases ms
  {
    var name, v, rest := Lit(Str(ms.name)), ms.value, MemberTokens(ms.rest) + tail;
    var m1 := NameStep(m, loc, ms.name);
    ConcatAssoc([name] + Tokens(v), MemberTokens(ms.rest), tail);
    ConcatAssoc([name], Tokens(v), rest);
    RunCons(m, name, m1, Tokens(v) + rest);
    if v == JNull {
      var m2 := Step(m1, Null).value;
      RunCons(m1, Null, m2, rest);
      NothingMayFollow(m2, rest);
    } else {
      var m2 := MemberValue(m1, loc, ms.name, v);
      RunConcat(m1, Tokens(v), rest);
      NullMemberPanics(m2, loc, ms.rest, tail);
    }
  }

  lemma {:induction false} NullElemPanics(m: Machine, items: seq<Node>, es: Elems, tail: seq<Token>)
    requires InArray(m, items) && |m.umStack| == 1 && NullElem(es) && tail != []
    ensures Run(m, ElemTokens(es) + tail) == Panic
    decreases es
  {
    var v, rest := es.value, ElemTokens(es.rest) + tail;
    ConcatAssoc(Tokens(v), ElemTokens(es.rest), tail);
    if v == JNull {
      var m2 := Step(m, Null).value;
      RunCons(m, Null, m2, rest);
      NothingMayFollow(m2, rest);
    } else {
      var m2 := ElemValue(m, items, v);
      RunConcat(m, Tokens(v), rest);
      NullElemPanics(m2, m2.umStack[0].items, es.rest, tail);
    }
  }

  /** A null that the root itself holds closes the root too early, so that the next token is out of range. */
  lemma {:induction false} RootNullPanics(store: Store, root: Node, j: Json, more: seq<Token>)
    requires EmptyRoot(store, root, j) && RootNull(j)
    ensures ParseSpec(store, root, Tokens(j) + more) == Panic
  {
    var m, tail := Initial(store, root, ContainerType(j)), [CloseToken(j)] + more;
    ParseRuns(store, root, j, more);
    ConcatAssoc(Body(j), [CloseToken(j)], more);
    match j
    case JObj(ms) => NullMemberPanics(m, root.loc, ms, tail);
    case JArr(es) => NullElemPanics(m, [], es, tail);
  }

  /** A null in an object in an array under a name: the array is finalized under a key that its parent does not have. */
  lemma {:induction false} NullFinalizes(store: Store, loc: nat)
    requires loc < |store| && store[loc] == map[]
    ensures var j := JObj(Member("a", JArr(Elem(JObj(Member("b", JNull, NoMember)), NoElem)), NoMember));
            ParseSpec(store, MapRef(loc), Tokens(j)) == Error
  {
    var inner := JObj(Member("b", JNull, NoMember));
    var arr := JArr(Elem(inner, NoElem));
    var m := Initial(store, MapRef(loc), EtObject);
    var m1 := NameStep(m, loc, "a");
    var m2 := MemberOpen(m1, loc, "a", arr);
    var t3 := [ObjOpen] + ([Lit(Str("b"))] + ([Null] + [ObjClose, ArrClose, ObjClose]));
    var t2 := [ArrOpen] + t3;
    NullTokens(inner, arr, t2);
    RunCons(m, Lit(Str("a")), m1, t2);
    RunCons(m1, ArrOpen, m2, t3);
    NullInElement(m2, loc);
  }

  lemma {:induction false} NullInElement(m2: Machine, loc: nat)
    requires |m2.umStack| == 2 && m2.umStack[0] == MapRef(loc) && loc < |m2.store| && InArray(m2, [])
    requires "@0" !in m2.store[loc]
    ensures Run(m2, [ObjOpen] + ([Lit(Str("b"))] + ([Null] + [ObjClose, ArrClose, ObjClose]))) == Error
  {
    var m3 := ElemOpen(m2, [], JObj(Member("b", JNull, NoMember)));
    var m4 := NameStep(m3, |m2.store|, "b");
    var m5 := Step(m4, Null).value;
    EarlyClose(m2, m3, m4, m5, loc);
    var t6 := [ObjClose, ArrClose, ObjClose];
    var t5 := [Null] + t6;
    RunCons(m2, ObjOpen, m3, [Lit(Str("b"))] + t5);
    RunCons(m3, Lit(Str("b")), m4, t5);
    RunCons(m4, Null, m5, t6);
  }

  lemma {:induction false} NullTokens(inner: Json, arr: Json, rest: seq<Token>)
    requires inner == JObj(Member("b", JNull, NoMember)) && arr == JArr(Elem(inner, NoElem))
    requires rest == [ArrOpen, ObjOpen, Lit(Str("b")), Null, ObjClose, ArrClose, ObjClose]
    ensures Tokens(JObj(Member("a", arr, NoMember))) == [ObjOpen] + ([Lit(Str("a"))] + rest)
  {
    assert Tokens(inner) == [ObjOpen, Lit(Str("b")), Null, ObjClose];
    assert Tokens(arr) == [ArrOpen] + Tokens(inner) + [ArrClose];
  }

  lemma {:induction false} EarlyClose(m2: Machine, m3: Machine, m4: Machine, m5: Machine, loc: nat)
    requires |m2.umStack| == 2 && m2.umStack[0] == MapRef(loc) && loc < |m2.store| && InArray(m2, [])
    requires OpenedElem(m2, m3, [], JObj(Member("b", JNull, NoMember)))
    requires m4.keyPath == m3.keyPath + ["b"] && m4.umStack == m3.umStack && m4.store == m3.store
             && m4.prevType == EtKey
    requires "@0" !in m3.store[loc]
    ensures Step(m4, Null).Ok?
    ensures m5 == Step(m4, Null).value ==> Step(m5, ObjClose) == Error
  {
    assert Decimal.Print(0) == "0";
    assert IndexKey(0) == "@0";
  }

  // ----- nesting of the calls

  /** Replays calls against a stack of open containers; None when a Finalize does not match. */
  function Replay(open: seq<(seq<string>, string)>, events: seq<Event>): Option<seq<(seq<string>, string)>>
    decreases |events|
  {
    if events == [] then Some(open)
    else match events[0]
      case Unmarshal(path, key, et, _) =>
        Replay(if et == EtObject || et == EtArray then open + [(path, key)] else open, events[1..])
      case Finalize(path, key) =>
        if open == [] || open[|open| - 1] != (path, key) then None
        else Replay(open[..|open| - 1], events[1..])
  }

  lemma {:induction false} ReplayBracket(open: seq<(seq<string>, string)>, path: seq<string>, key: string,
                                         et: ElementType, body: seq<Event>, rest: seq<Event>)
    requires et == EtObject || et == EtArray
    requires forall r :: Replay(open + [(path, key)], body + r) == Replay(open + [(path, key)], r)
    ensures Replay(open, [Unmarshal(path, key, et, None)] + body + [Finalize(path, key)] + rest) == Replay(open, rest)
  {
    var all := [Unmarshal(path, key, et, None)] + body + [Finalize(path, key)] + rest;
    var tail := [Finalize(path, key)] + rest;
    assert all[1..] == body + tail;
    assert Replay(open + [(path, key)], body + tail) == Replay(open + [(path, key)], tail);
    assert (open + [(path, key)])[..|open|] == open;
    assert tail[1..] == rest;
  }

  lemma {:induction false} VisitNested(open: seq<(seq<string>, string)>, path: seq<string>, key: string, j: Json,
                                       leaf: ElementType, rest: seq<Event>)
    requires leaf == EtValue || leaf == EtArrayValue
    ensures Replay(open, Visit(path, key, j, leaf) + rest) == Replay(open, rest)
    decreases j
  {
    match j
    case JLit(v) => assert (Visit(path, key, j, leaf) + rest)[1..] == rest;
    case JNull => assert Visit(path, key, j, leaf) + rest == rest;
    case JObj(ms) =>
      forall r
        ensures Replay(open + [(path, key)], VisitMembers(path + [key], ms) + r) == Replay(open + [(path, key)], r)
      {
        VisitMembersNested(open + [(path, key)], path + [key], ms, r);
      }
      ReplayBracket(open, path, key, EtObject, VisitMembers(path + [key], ms), rest);
    case JArr(es) =>
      forall r
        ensures Replay(open + [(path, key)], VisitElems(path + [key], 0, es) + r) == Replay(open + [(path, key)], r)
      {
        VisitElemsNested(open + [(path, key)], path + [key], 0, es, r);
      }
      ReplayBracket(open, path, key, EtArray, VisitElems(path + [key], 0, es), rest);
  }

  lemma {:induction false} VisitMembersNested(open: seq<(seq<string>, string)>, path: seq<string>, ms: Members,
                                              rest: seq<Event>)
    ensures Replay(open, VisitMembers(path, ms) + rest) == Replay(open, rest)
    decreases ms
  {
    match ms
    case NoMember => assert VisitMembers(path, ms) + rest == rest;
    case Member(n, v, more) =>
      assert VisitMembers(path, ms) + rest == Visit(path, n, v, EtValue) + (VisitMembers(path, more) + rest);
      VisitNested(open, path, n, v, EtValue, VisitMembers(path, more) + rest);
      VisitMembersNested(open, path, more, rest);
  }

  lemma {:induction false} VisitElemsNested(open: seq<(seq<string>, string)>, path: seq<string>, i: nat, es: Elems,
                                            rest: seq<Event>)
    ensures Replay(open, VisitElems(path, i, es) + rest) == Replay(open, rest)
    decreases es
  {
    match es
    case NoElem => assert VisitElems(path, i, es) + rest == rest;
    case Elem(v, more) =>
      assert VisitElems(path, i, es) + rest
          == Visit(path, IndexKey(i), v, EtArrayValue) + (VisitElems(path, i + 1, more) + rest);
      VisitNested(open, path, IndexKey(i), v, EtArrayValue, VisitElems(path, i + 1, more) + rest);
      VisitElemsNested(open, path, i + 1, more, rest);
  }

  /** Every Finalize matches the innermost open container, and all are closed at the end. */
  lemma {:induction false} CallsNested(j: Json)
    requires IsContainer(j)
    ensures Replay([], RootVisit(j)) == Some([])
  {
    assert RootVisit(j) + [] == RootVisit(j);
    match j
    case JObj(ms) => VisitMembersNested([], [], ms, []);
    case JArr(es) => VisitElemsNested([], [], 0, es, []);
  }
}
