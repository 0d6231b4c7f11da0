/**
 JSON documents, their token streams, their meaning and their depth-first
 traversal, and what it means for a Go value to represent a document.
 */
module JsonDocuments {
  import opened Common
  import opened JsonStream

  datatype Json =
    | JLit(v: Scalar)
    | JNull
    | JObj(members: Members)
    | JArr(elems: Elems)

  datatype Members = NoMember | Member(name: string, value: Json, rest: Members)

  datatype Elems = NoElem | Elem(value: Json, rest: Elems)

  // ----- printing

  function Tokens(j: Json): seq<Token> {
    match j
    case JLit(v) => [Lit(v)]
    case JNull => [Null]
    case JObj(ms) => [ObjOpen] + MemberTokens(ms) + [ObjClose]
    case JArr(es) => [ArrOpen] + ElemTokens(es) + [ArrClose]
  }

  function MemberTokens(ms: Members): seq<Token> {
    match ms
    case NoMember => []
    case Member(n, v, rest) => [Lit(Str(n))] + Tokens(v) + MemberTokens(rest)
  }

  function ElemTokens(es: Elems): seq<Token> {
    match es
    case NoElem => []
    case Elem(v, rest) => Tokens(v) + ElemTokens(rest)
  }

  predicate IsContainer(j: Json) {
    j.JObj? || j.JArr?
  }

  // ----- meaning: the last binding of a repeated name wins

  datatype Value = VLit(v: Scalar) | VNull | VObj(fields: map<string, Value>) | VArr(elems: seq<Value>)

  function Meaning(j: Json): Value {
    match j
    case JLit(v) => VLit(v)
    case JNull => VNull
    case JObj(ms) => VObj(Bind(map[], ms))
    case JArr(es) => VArr(ElemMeanings(es))
  }

  /** The bindings acc overridden by the members, left to right. */
  function Bind(acc: map<string, Value>, ms: Members): map<string, Value>
    decreases ms
  {
    match ms
    case NoMember => acc
    case Member(n, v, rest) => Bind(acc[n := Meaning(v)], rest)
  }

  function ElemMeanings(es: Elems): seq<Value> {
    match es
    case NoElem => []
    case Elem(v, rest) => [Meaning(v)] + ElemMeanings(rest)
  }

  // ----- what the code can handle

  function Nulls(j: Json): nat {
    match j
    case JLit(_) => 0
    case JNull => 1
    case JObj(ms) => MemberNulls(ms)
    case JArr(es) => ElemNulls(es)
  }

  function MemberNulls(ms: Members): nat {
    match ms
    case NoMember => 0
    case Member(_, v, rest) => Nulls(v) + MemberNulls(rest)
  }

  function ElemNulls(es: Elems): nat {
    match es
    case NoElem => 0
    case Elem(v, rest) => Nulls(v) + ElemNulls(rest)
  }

  predicate AtName(n: string) {
    |n| > 0 && n[0] == '@'
  }

  /** No container sits under a name starting with '@' while another member follows it. */
  predicate AtSafe(j: Json) {
    match j
    case JLit(_) => true
    case JNull => true
    case JObj(ms) => MembersAtSafe(ms)
    case JArr(es) => ElemsAtSafe(es)
  }

  predicate MembersAtSafe(ms: Members) {
    match ms
    case NoMember => true
    case Member(n, v, rest) =>
      AtSafe(v) && (AtName(n) && IsContainer(v) ==> rest.NoMember?) && MembersAtSafe(rest)
  }

  predicate ElemsAtSafe(es: Elems) {
    match es
    case NoElem => true
    case Elem(v, rest) => AtSafe(v) && ElemsAtSafe(rest)
  }

  // ----- depth-first traversal with absolute paths

  function ContainerType(j: Json): ElementType
    requires IsContainer(j)
  {
    if j.JObj? then EtObject else EtArray
  }

  /** The calls for a value stored under key in the container at path. */
  function Visit(path: seq<string>, key: string, j: Json, leafType: ElementType): seq<Event>
    decreases j
  {
    match j
    case JLit(v) => [Unmarshal(path, key, leafType, Some(v))]
    case JNull => []
    case JObj(ms) =>
      [Unmarshal(path, key, EtObject, None)] + VisitMembers(path + [key], ms) + [Finalize(path, key)]
    case JArr(es) =>
      [Unmarshal(path, key, EtArray, None)] + VisitElems(path + [key], 0, es) + [Finalize(path, key)]
  }

  function VisitMembers(path: seq<string>, ms: Members): seq<Event>
    decreases ms
  {
    match ms
    case NoMember => []
    case Member(n, v, rest) => Visit(path, n, v, EtValue) + VisitMembers(path, rest)
  }

  function VisitElems(path: seq<string>, i: nat, es: Elems): seq<Event>
    decreases es
  {
    match es
    case NoElem => []
    case Elem(v, rest) => Visit(path, IndexKey(i), v, EtArrayValue) + VisitElems(path, i + 1, rest)
  }

  // ----- representation in the store

  /** Node represents v, using only maps located in lo..hi. */
  ghost predicate Represents(st: Store, lo: nat, hi: nat, node: Node, v: Value)
    requires hi <= |st|
    decreases v
  {
    match v
    case VLit(s) => node == Leaf(s)
    case VNull => false
    case VObj(fields) =>
      && node.MapRef? && lo <= node.loc < hi
      && st[node.loc].Keys == fields.Keys
      && forall k | k in fields :: Represents(st, lo, hi, st[node.loc][k], fields[k])
    case VArr(elems) =>
      && node.Slice? && |node.items| == |elems|
      && forall i | 0 <= i < |elems| :: Represents(st, lo, hi, node.items[i], elems[i])
  }

  ghost predicate RepresentsFields(st: Store, lo: nat, hi: nat, nodes: map<string, Node>, fields: map<string, Value>)
    requires hi <= |st|
  {
    nodes.Keys == fields.Keys && forall k | k in fields :: Represents(st, lo, hi, nodes[k], fields[k])
  }

  ghost predicate RepresentsElems(st: Store, lo: nat, hi: nat, items: seq<Node>, elems: seq<Value>)
    requires hi <= |st|
  {
    |items| == |elems| && forall i | 0 <= i < |elems| :: Represents(st, lo, hi, items[i], elems[i])
  }

  /** A representation survives changes outside its range, and a wider range. */
  lemma {:induction false} RepresentsFrame(st: Store, lo: nat, hi: nat, st': Store, lo': nat, hi': nat, node: Node,
                                           v: Value)
    requires lo' <= lo && hi <= hi' && hi <= |st| && hi' <= |st'|
    requires forall i | lo <= i < hi :: st[i] == st'[i]
    requires Represents(st, lo, hi, node, v)
    ensures Represents(st', lo', hi', node, v)
    decreases v
  {
    match v
    case VLit(_) =>
    case VObj(fields) =>
      forall k | k in fields
        ensures Represents(st', lo', hi', st'[node.loc][k], fields[k])
      {
        RepresentsFrame(st, lo, hi, st', lo', hi', st[node.loc][k], fields[k]);
      }
    case VArr(elems) =>
      forall i | 0 <= i < |elems|
        ensures Represents(st', lo', hi', node.items[i], elems[i])
      {
        RepresentsFrame(st, lo, hi, st', lo', hi', node.items[i], elems[i]);
      }
  }

  /** A Go value represents at most one document value. */
  lemma {:induction false} RepresentsUnique(st: Store, lo: nat, hi: nat, node: Node, v: Value, w: Value)
    requires hi <= |st|
    requires Represents(st, lo, hi, node, v) && Represents(st, lo, hi, node, w)
    ensures v == w
    decreases v
  {
    match v
    case VLit(_) =>
    case VObj(fields) =>
      forall k | k in fields
        ensures fields[k] == w.fields[k]
      {
        RepresentsUnique(st, lo, hi, st[node.loc][k], fields[k], w.fields[k]);
      }
      assert fields == w.fields;
    case VArr(elems) =>
      forall i | 0 <= i < |elems|
        ensures elems[i] == w.elems[i]
      {
        RepresentsUnique(st, lo, hi, node.items[i], elems[i], w.elems[i]);
      }
      assert elems == w.elems;
  }
}
