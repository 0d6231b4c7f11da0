/** The parser's loop with the variables it updates, proved against the token machine and the documents. */
module JsonParser {
  import opened Common
  import opened JsonStream
  import opened JsonDocuments
  import opened JsonRebuild
  import opened JsonTheorems

  /** The variables of the parser's loop. */
  class ParserState {
    var store: Store
    var keyPath: seq<string>
    var umStack: seq<Node>
    var prevType: ElementType
    var lastArrayIndex: int
    var current: Option<Node>
    var events: seq<Event>

    ghost function View(): Machine
      reads this
    {
      Machine(store, keyPath, umStack, prevType, lastArrayIndex, current, events)
    }

    constructor (store: Store, root: Node, first: ElementType)
      ensures View() == Initial(store, root, first)
    {
      this.store, keyPath, umStack := store, [""], [root];
      prevType, lastArrayIndex, current, events := first, -1, None, [];
    }

    /** A closing token or a null: the container on top is popped and finalized in its parent. */
    method Pop(lastKey: string, curr: Node) returns (end: Outcome<()>)
      requires keyPath != [] && umStack != []
      modifies this
      ensures match StepClose(old(View()), lastKey, curr)
              case Ok(m) => end.Ok? && View() == m
              case Error => end.Error?
              case Panic => end.Panic?
    {
      var k, u := |keyPath| - 1, |umStack| - 1;
      var path := keyPath[..k];
      umStack, keyPath := umStack[..u], path;
      if u > 0 {
        if k < 1 {
          return Panic;
        }
        match NodeFinalize(store, umStack[u - 1], lastKey, curr)
        case Error => return Error;
        case Panic => return Panic;
        case Ok(f) =>
          store, umStack := f.store, umStack[u - 1 := f.self];
          events := events + [Finalize(path[1..], lastKey)];
      }
      current := Some(curr);
      Resume(lastKey);
      end := Ok(());
    }

    /** A key that starts with '@' is taken for an array index to go on from. */
    method Resume(lastKey: string)
      modifies this
      ensures var atArray := |lastKey| > 0 && lastKey[0] == '@';
              View() == old(View()).(lastArrayIndex := if atArray then AtoiOrZero(lastKey[1..]) else -1,
                                     prevType := if atArray then EtArrayValue else EtUnknown)
    {
      prevType, lastArrayIndex := EtUnknown, -1;
      if |lastKey| > 0 && lastKey[0] == '@' {
        lastArrayIndex := AtoiOrZero(lastKey[1..]);
        prevType := EtArrayValue;
      }
    }

    /** An opening token: the container on top makes a child, which is pushed; an array element gets an implicit key. */
    method Push(et: ElementType, lastKey: string, curr: Node) returns (end: Outcome<()>)
      requires keyPath != [] && umStack != []
      modifies this
      ensures match StepOpen(old(View()), et, lastKey, curr)
              case Ok(m) => end.Ok? && View() == m
              case Error => end.Error?
              case Panic => end.Panic?
    {
      if |umStack| == |keyPath| {
        var key := IndexKey(lastArrayIndex + 1);
        keyPath := keyPath + [key];
        end := PushChild(et, key, curr);
      } else {
        end := PushChild(et, lastKey, curr);
      }
    }

    method PushChild(et: ElementType, key: string, curr: Node) returns (end: Outcome<()>)
      requires keyPath != [] && umStack != []
      modifies this
      ensures match OpenAt(old(View()), et, key, curr)
              case Ok(m) => end.Ok? && View() == m
              case Error => end.Error?
              case Panic => end.Panic?
    {
      var k, u := |keyPath| - 1, |umStack| - 1;
      if k < 1 {
        return Panic;
      }
      match NodeUnmarshal(store, curr, key, et, None)
      case Error => return Error;
      case Panic => return Panic;
      case Ok(r) =>
        store, umStack := r.store, umStack[u := r.self] + [r.next];
        events := events + [Unmarshal(keyPath[1..k], key, et, None)];
        lastArrayIndex, prevType, current := -1, et, Some(curr);
        end := Ok(());
    }

    /** A literal that is a member's value or an element. */
    method Leaf(et: ElementType, v: Scalar, lastKey: string, curr: Node) returns (end: Outcome<()>)
      requires keyPath != [] && umStack != []
      requires et == EtValue || et == EtArrayValue
      modifies this
      ensures match if et == EtValue then StepValue(old(View()), Lit(v), lastKey, curr)
                    else StepArrayValue(old(View()), Lit(v), curr)
              case Ok(m) => end.Ok? && View() == m
              case Error => end.Error?
              case Panic => end.Panic?
    {
      var key, path, k, u := lastKey, keyPath[1..], |keyPath| - 1, |umStack| - 1;
      if et == EtArrayValue {
        lastArrayIndex := lastArrayIndex + 1;
        key := IndexKey(lastArrayIndex);
      } else if k < 1 {
        return Panic;
      } else {
        path := keyPath[1..k];
        keyPath := keyPath[..k];
        lastArrayIndex := -1;
      }
      match NodeUnmarshal(store, curr, key, et, Some(v))
      case Error => return Error;
      case Panic => return Panic;
      case Ok(r) =>
        store, umStack := r.store, umStack[u := r.self];
        events := events + [Unmarshal(path, key, et, Some(v))];
        prevType, current := et, Some(curr);
        end := Ok(());
    }

    /** One pass of the loop. */
    method Consume(token: Token) returns (end: Outcome<()>)
      modifies this
      ensures match Step(old(View()), token)
              case Ok(m) => end.Ok? && View() == m
              case Error => end.Error?
              case Panic => end.Panic?
    {
      if keyPath == [] || umStack == [] {
        return Panic;
      }
      var lastKey := keyPath[|keyPath| - 1];
      var et := TypeFromToken(prevType, token);
      if et.None? {
        return Error;
      }
      var curr := umStack[|umStack| - 1];
      match et.value
      case EtKey =>
        if !token.Lit? || !token.v.Str? {
          return Panic;
        }
        keyPath, lastArrayIndex, prevType, current := keyPath + [token.v.s], -1, EtKey, Some(curr);
        end := Ok(());
      case EtUnknown => end := Pop(lastKey, curr);
      case EtObject => end := Push(EtObject, lastKey, curr);
      case EtArray => end := Push(EtArray, lastKey, curr);
      case _ => end := Leaf(et.value, token.v, lastKey, curr);
    }
  }

  /** What Parse promises of a document's tokens, followed by any others. */
  ghost predicate Promised(store: Store, root: Node, j: Json, more: seq<Token>, r: Outcome<Parsed>) {
    && (r.Ok? <==> Clean(j) && more == [])
    && (r.Ok? ==>
          && r.value.root.Some? && FirstLoc(store, root) <= |r.value.store|
          && Represents(r.value.store, FirstLoc(store, root), |r.value.store|, r.value.root.value, Meaning(j))
          && r.value.events == RootVisit(j))
  }

  lemma {:induction false} ParsePromises(store: Store, root: Node, j: Json, more: seq<Token>)
    requires EmptyRoot(store, root, j)
    ensures Promised(store, root, j, more, ParseSpec(store, root, Tokens(j) + more))
  {
    ParseSucceedsIff(store, root, j, more);
    if Clean(j) && more == [] {
      assert Tokens(j) + more == Tokens(j);
      ParseRebuilds(store, root, j);
    }
  }

  /**
   Parse. On the tokens of a document, with others after it or not, it succeeds
   exactly where it can, with the document rebuilt and the calls of its traversal made.
   Nothing at all is the root as it was; a token alone, which is never written to the
   root, is no root at all, or refused if it is a number or a bool.
   */
  method Parse(store: Store, root: Node, tokens: seq<Token>) returns (r: Outcome<Parsed>)
    ensures r == ParseSpec(store, root, tokens)
    ensures tokens == [] ==> r == Ok(Parsed(store, Some(root), []))
    ensures |tokens| == 1 ==>
              r == if tokens[0].Lit? && !tokens[0].v.Str? then Error else Ok(Parsed(store, None, []))
    ensures forall j, more | EmptyRoot(store, root, j) && tokens == Tokens(j) + more ::
              Promised(store, root, j, more, r)
  {
    r := RunTokens(store, root, tokens);
    assert |tokens| == 1 ==> tokens[1..] == [];
    forall j, more | EmptyRoot(store, root, j) && tokens == Tokens(j) + more ensures Promised(store, root, j, more, r) {
      ParsePromises(store, root, j, more);
    }
  }

  /** The token loop. */
  method RunTokens(store: Store, root: Node, tokens: seq<Token>) returns (r: Outcome<Parsed>)
    ensures r == ParseSpec(store, root, tokens)
  {
    if tokens == [] {
      return Ok(Parsed(store, Some(root), []));
    }
    var first := TypeFromToken(EtUnknown, tokens[0]);
    if first.None? {
      return Error;
    }
    var p := new ParserState(store, root, first.value);
    var i := 1;
    while i < |tokens|
      invariant 1 <= i <= |tokens|
      invariant Run(Initial(store, root, first.value), tokens[1..]) == Run(p.View(), tokens[i..])
    {
      assert tokens[i..][1..] == tokens[i + 1..];
      var end := p.Consume(tokens[i]);
      if !end.Ok? {
        return if end.Error? then Error else Panic;
      }
      i := i + 1;
    }
    r := Ok(Parsed(p.store, p.current, p.events));
  }
}
