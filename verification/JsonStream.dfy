/**
 The streaming JSON unmarshaller: a token machine with a key-path stack and an
 unmarshaller stack that rebuilds nested Go maps and slices. Go maps are
 references, so they live in an explicit store and are denoted by their
 location; slices are values.
 */
module JsonStream {
  import opened Common
  import Decimal

  datatype Scalar = Str(s: string) | Num(r: real) | Bool(b: bool)

  /** What encoding/json's Decoder.Token returns. */
  datatype Token = ObjOpen | ObjClose | ArrOpen | ArrClose | Lit(v: Scalar) | Null

  datatype ElementType = EtUnknown | EtObject | EtArray | EtKey | EtValue | EtArrayValue

  /** A Go value held in a container; MapRef and Slice are also unmarshallers. */
  datatype Node = Leaf(v: Scalar) | MapRef(loc: nat) | Slice(items: seq<Node>)

  type Store = seq<map<string, Node>>

  /** A call made on an unmarshaller. */
  datatype Event =
    | Unmarshal(path: seq<string>, key: string, et: ElementType, v: Option<Scalar>)
    | Finalize(path: seq<string>, key: string)

  datatype Machine = Machine(
    store: Store,
    keyPath: seq<string>,
    umStack: seq<Node>,
    prevType: ElementType,
    lastArrayIndex: int,
    current: Option<Node>,
    events: seq<Event>)

  datatype Unmarshalled = Unmarshalled(store: Store, next: Node, self: Node)

  datatype Finalized = Finalized(store: Store, self: Node)

  function TypeFromToken(prev: ElementType, token: Token): Option<ElementType> {
    match token
    case ObjOpen => Some(EtObject)
    case ArrOpen => Some(EtArray)
    case ObjClose => Some(EtUnknown)
    case ArrClose => Some(EtUnknown)
    case Lit(v) =>
      (match prev
       case EtKey => Some(EtValue)
       case EtValue => Some(EtKey)
       case EtArray => Some(EtArrayValue)
       case EtArrayValue => Some(EtArrayValue)
       case _ => if v.Str? then Some(EtKey) else None)
    case Null => Some(EtUnknown)
  }

  // ----- map.go

  function MapUnmarshal(st: Store, loc: nat, key: string, et: ElementType, v: Option<Scalar>): Outcome<Unmarshalled>
    requires loc < |st|
  {
    match et
    case EtObject =>
      var child := MapRef(|st|);
      Ok(Unmarshalled(st[loc := st[loc][key := child]] + [map[]], child, MapRef(loc)))
    case EtArray =>
      Ok(Unmarshalled(st[loc := st[loc][key := Slice([])]], Slice([]), MapRef(loc)))
    case EtValue =>
      if v.None? then Error
      else Ok(Unmarshalled(st[loc := st[loc][key := Leaf(v.value)]], MapRef(loc), MapRef(loc)))
    case _ => Error
  }

  function MapFinalize(st: Store, loc: nat, key: string, node: Node): Outcome<Finalized>
    requires loc < |st|
  {
    if node.Slice? then
      if key !in st[loc] then Error
      else Ok(Finalized(st[loc := st[loc][key := node]], MapRef(loc)))
    else Ok(Finalized(st, MapRef(loc)))
  }

  // ----- array.go

  function ArrayUnmarshal(st: Store, items: seq<Node>, et: ElementType, v: Option<Scalar>): Outcome<Unmarshalled> {
    match et
    case EtObject =>
      var child := MapRef(|st|);
      Ok(Unmarshalled(st + [map[]], child, Slice(items + [child])))
    case EtArray => Ok(Unmarshalled(st, Slice([]), Slice(items + [Slice([])])))
    case EtKey => Error
    case EtUnknown => Error
    case _ =>
      if v.None? then Error
      else Ok(Unmarshalled(st, Slice(items), Slice(items + [Leaf(v.value)])))
  }

  function ArrayFinalize(st: Store, items: seq<Node>, key: string, node: Node): Outcome<Finalized> {
    if node.Slice? then
      if key == "" then Panic
      else match Decimal.Atoi(key[1..])
        case None => Error
        case Some(i) =>
          if 0 <= i < |items| then Ok(Finalized(st, Slice(items[i := node]))) else Panic
    else Ok(Finalized(st, Slice(items)))
  }

  // ----- dispatch through the Unmarshaller interface

  function NodeUnmarshal(st: Store, self: Node, key: string, et: ElementType, v: Option<Scalar>)
    : Outcome<Unmarshalled>
  {
    match self
    case MapRef(loc) => if loc < |st| then MapUnmarshal(st, loc, key, et, v) else Panic
    case Slice(items) => ArrayUnmarshal(st, items, et, v)
    case Leaf(_) => Panic
  }

  function NodeFinalize(st: Store, self: Node, key: string, node: Node): Outcome<Finalized> {
    match self
    case MapRef(loc) => if loc < |st| then MapFinalize(st, loc, key, node) else Panic
    case Slice(items) => ArrayFinalize(st, items, key, node)
    case Leaf(_) => Panic
  }

  // ----- the machine

  /** The implicit key of an array element. */
  function IndexKey(i: int): string {
    "@" + Decimal.Print(i)
  }

  function StepKey(m: Machine, token: Token, curr: Node): Outcome<Machine> {
    if token.Lit? && token.v.Str? then
      Ok(m.(keyPath := m.keyPath + [token.v.s], lastArrayIndex := -1, prevType := EtKey, current := Some(curr)))
    else Panic
  }

  function StepClose(m: Machine, lastKey: string, curr: Node): Outcome<Machine>
    requires m.keyPath != [] && m.umStack != []
  {
    var k, u := |m.keyPath| - 1, |m.umStack| - 1;
    var popped := m.(umStack := m.umStack[..u], keyPath := m.keyPath[..k], current := Some(curr));
    var atArray := |lastKey| > 0 && lastKey[0] == '@';
    var index := if atArray then AtoiOrZero(lastKey[1..]) else -1;
    var next := popped.(lastArrayIndex := index, prevType := if atArray then EtArrayValue else EtUnknown);
    if u == 0 then Ok(next)
    else if k < 1 then Panic
    else match NodeFinalize(m.store, m.umStack[u - 1], lastKey, curr)
      case Ok(f) =>
        Ok(next.(store := f.store, umStack := popped.umStack[u - 1 := f.self],
                 events := m.events + [Finalize(m.keyPath[1..k], lastKey)]))
      case Error => Error
      case Panic => Panic
  }

  function AtoiOrZero(s: string): int {
    match Decimal.Atoi(s)
    case Some(i) => i
    case None => 0
  }

  /** A child opened under the key on top of the key path. */
  function OpenAt(m: Machine, et: ElementType, key: string, curr: Node): Outcome<Machine>
    requires m.keyPath != [] && m.umStack != []
  {
    var k, u := |m.keyPath| - 1, |m.umStack| - 1;
    if k < 1 then Panic
    else match NodeUnmarshal(m.store, curr, key, et, None)
      case Ok(r) =>
        Ok(m.(store := r.store, umStack := m.umStack[u := r.self] + [r.next],
              prevType := et, lastArrayIndex := -1, current := Some(curr),
              events := m.events + [Unmarshal(m.keyPath[1..k], key, et, None)]))
      case Error => Error
      case Panic => Panic
  }

  /** An element of an array has no key of its own and gets an implicit one. */
  function StepOpen(m: Machine, et: ElementType, lastKey: string, curr: Node): Outcome<Machine>
    requires m.keyPath != [] && m.umStack != []
  {
    if |m.umStack| == |m.keyPath| then
      var key := IndexKey(m.lastArrayIndex + 1);
      OpenAt(m.(keyPath := m.keyPath + [key]), et, key, curr)
    else OpenAt(m, et, lastKey, curr)
  }

  function StepValue(m: Machine, token: Token, lastKey: string, curr: Node): Outcome<Machine>
    requires m.keyPath != [] && m.umStack != [] && token.Lit?
  {
    var k, u := |m.keyPath| - 1, |m.umStack| - 1;
    if k < 1 then Panic
    else match NodeUnmarshal(m.store, curr, lastKey, EtValue, Some(token.v))
      case Ok(r) =>
        Ok(m.(store := r.store, keyPath := m.keyPath[..k], umStack := m.umStack[u := r.self],
              prevType := EtValue, lastArrayIndex := -1, current := Some(curr),
              events := m.events + [Unmarshal(m.keyPath[1..k], lastKey, EtValue, Some(token.v))]))
      case Error => Error
      case Panic => Panic
  }

  function StepArrayValue(m: Machine, token: Token, curr: Node): Outcome<Machine>
    requires m.keyPath != [] && m.umStack != [] && token.Lit?
  {
    var u := |m.umStack| - 1;
    var key := IndexKey(m.lastArrayIndex + 1);
    match NodeUnmarshal(m.store, curr, key, EtArrayValue, Some(token.v))
    case Ok(r) =>
      Ok(m.(store := r.store, umStack := m.umStack[u := r.self],
            prevType := EtArrayValue, lastArrayIndex := m.lastArrayIndex + 1, current := Some(curr),
            events := m.events + [Unmarshal(m.keyPath[1..], key, EtArrayValue, Some(token.v))]))
    case Error => Error
    case Panic => Panic
  }

  /** One pass of Parse's token loop. */
  function Step(m: Machine, token: Token): Outcome<Machine> {
    if m.keyPath == [] || m.umStack == [] then Panic
    else
      var lastKey := m.keyPath[|m.keyPath| - 1];
      var curr := m.umStack[|m.umStack| - 1];
      match TypeFromToken(m.prevType, token)
      case None => Error
      case Some(EtKey) => StepKey(m, token, curr)
      case Some(EtUnknown) => StepClose(m, lastKey, curr)
      case Some(EtObject) => StepOpen(m, EtObject, lastKey, curr)
      case Some(EtArray) => StepOpen(m, EtArray, lastKey, curr)
      case Some(EtValue) => StepValue(m, token, lastKey, curr)
      case Some(EtArrayValue) => StepArrayValue(m, token, curr)
  }

  function Run(m: Machine, tokens: seq<Token>): Outcome<Machine>
    decreases |tokens|
  {
    if tokens == [] then Ok(m)
    else match Step(m, tokens[0])
      case Ok(m') => Run(m', tokens[1..])
      case Error => Error
      case Panic => Panic
  }

  function Initial(store: Store, root: Node, first: ElementType): Machine {
    Machine(store, [""], [root], first, -1, None, [])
  }

  datatype Parsed = Parsed(store: Store, root: Option<Node>, events: seq<Event>)

  /** The value Parse computes: None is the nil unmarshaller returned when only one token was read. */
  function ParseSpec(store: Store, root: Node, tokens: seq<Token>): Outcome<Parsed> {
    if tokens == [] then Ok(Parsed(store, Some(root), []))
    else match TypeFromToken(EtUnknown, tokens[0])
      case None => Error
      case Some(first) =>
        match Run(Initial(store, root, first), tokens[1..])
        case Ok(m) => Ok(Parsed(m.store, m.current, m.events))
        case Error => Error
        case Panic => Panic
  }
}
