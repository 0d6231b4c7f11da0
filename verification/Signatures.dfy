/**
 What a signature covers, in terms of the message itself: a change to any one signed
 part is noticed, as is a payload or a token of somebody else's.
 */
module Signatures {
  import opened Common
  import opened Text
  import opened AuthTokens

  /** The hash tells any two texts apart under the key. */
  ghost predicate Injective(c: Crypto, key: seq<Byte>) {
    forall x, y :: c.hash(key, x) == c.hash(key, y) ==> x == y
  }

  /** The two messages agree on what a key stands for: the body, a request's URL, or a header. */
  predicate Agree(m: Message, m': Message, key: string) {
    if key == "body" then m.body == m'.body
    else if key == "url" && m.Request? && m'.Request? then m.uri == m'.uri
    else m.header(key) == m'.header(key)
  }

  predicate SameKind(m: Message, m': Message) {
    m.Request? == m'.Request?
  }

  lemma {:induction false} AgreeIff(m: Message, m': Message, key: string)
    requires SameKind(m, m')
    ensures Agree(m, m', key) <==> ValueOf(m, key) == ValueOf(m', key)
  {
  }

  /** Where the messages agree on every key they are gathered alike. */
  lemma {:induction false} GatherSame(m: Message, m': Message, keys: seq<string>)
    requires SameKind(m, m') && forall k | k in keys :: Agree(m, m', k)
    ensures Gather(m, keys) == Gather(m', keys)
    decreases |keys|
  {
    if keys != [] {
      AgreeIff(m, m', keys[0]);
      GatherSame(m, m', keys[1..]);
    }
  }

  /** How much longer one message's data is, where they differ in one key only. */
  lemma {:induction false} GatherLength(m: Message, m': Message, keys: seq<string>, key: string)
    requires SameKind(m, m') && forall k | k in keys && k != key :: Agree(m, m', k)
    ensures var d := |ValueOf(m', key)| - |ValueOf(m, key)|;
            var n := |Gather(m', keys)| - |Gather(m, keys)|;
            && (key !in keys ==> n == 0)
            && (key in keys ==> (d > 0 ==> n >= d) && (d < 0 ==> n <= d) && (d == 0 ==> n == 0))
    decreases |keys|
  {
    if keys != [] {
      AgreeIff(m, m', keys[0]);
      GatherLength(m, m', keys[1..], key);
    }
  }

  /** Messages that differ in one of the keys are gathered differently, however often it is listed. */
  lemma {:induction false} GatherDiffers(m: Message, m': Message, keys: seq<string>, key: string)
    requires SameKind(m, m') && key in keys && !Agree(m, m', key)
    requires forall k | k in keys && k != key :: Agree(m, m', k)
    ensures Gather(m, keys) != Gather(m', keys)
    decreases |keys|
  {
    AgreeIff(m, m', key);
    GatherLength(m, m', keys, key);
    AgreeIff(m, m', keys[0]);
    var a, b := ValueOf(m, keys[0]), ValueOf(m', keys[0]);
    if keys[0] == key {
      if Gather(m, keys) == Gather(m', keys) {
        SameHeads(a, Gather(m, keys[1..]), b, Gather(m', keys[1..]));
      }
    } else {
      GatherDiffers(m, m', keys[1..], key);
      if Gather(m, keys) == Gather(m', keys) {
        SameHeads(a, Gather(m, keys[1..]), b, Gather(m', keys[1..]));
      }
    }
  }

  lemma {:induction false} SameHeads(a: string, x: string, b: string, y: string)
    requires |a| == |b| && a + x == b + y
    ensures a == b && x == y
  {
    assert (a + x)[..|a|] == a && (b + y)[..|b|] == b;
    assert (a + x)[|a|..] == x && (b + y)[|b|..] == y;
  }

  /**
   A signed message that was changed in at most one of the signed keys is accepted
   exactly if it was not changed there.
   */
  lemma {:induction false} ChangeNoticed(a: Auth, t: Token, keys: seq<string>, m: Message, m': Message, key: string)
    requires |t.hashKey| == 32 && Injective(a.crypto, t.hashKey) && NoKeyHolds(keys, '~')
    requires SameKind(m, m') && key in keys && forall k | k in keys && k != key :: Agree(m, m', k)
    ensures Sign(a, t, keys, m).Some?
    ensures Validates(a, Sign(a, t, keys, m).value, m') <==> Agree(m, m', key)
  {
    ValidatesIff(a, t, keys, m, m');
    CutWhole(keys);
    if Agree(m, m', key) {
      GatherSame(m, m', keys);
    } else {
      GatherDiffers(m, m', keys, key);
    }
  }

  /** A signature of the body covers the body, one of the URL a request's URL, and one of another key that header. */
  lemma {:induction false} OneKeySigned(a: Auth, t: Token, key: string, m: Message, m': Message)
    requires |t.hashKey| == 32 && Injective(a.crypto, t.hashKey) && '~' !in key && SameKind(m, m')
    ensures Sign(a, t, [key], m).Some?
    ensures Validates(a, Sign(a, t, [key], m).value, m')
       <==> if key == "body" then m'.body == m.body
            else if key == "url" && m.Request? then m'.Request? && m'.uri == m.uri
            else m'.header(key) == m.header(key)
  {
    assert forall k | k in [key] :: k == key;
    ChangeNoticed(a, t, [key], m, m', key);
  }

  /** What a key stands for. */
  function Part(m: Message, key: string): string {
    match m
    case Request(uri, body, header) => if key == "url" then uri else if key == "body" then body else header(key)
    case Response(body, header) => if key == "body" then body else header(key)
  }

  function Joined(m: Message, keys: seq<string>): string {
    if keys == [] then "" else Joined(m, keys[..|keys| - 1]) + Part(m, keys[|keys| - 1])
  }

  lemma {:induction false} GatherMore(m: Message, keys: seq<string>, key: string)
    ensures Gather(m, keys + [key]) == Gather(m, keys) + Part(m, key)
    decreases |keys|
  {
    if keys == [] {
      assert (keys + [key])[1..] == [];
      ConcatEmpty(Part(m, key));
      EmptyConcat(Part(m, key));
    } else {
      assert (keys + [key])[1..] == keys[1..] + [key];
      GatherMore(m, keys[1..], key);
      ConcatAssoc(ValueOf(m, keys[0]), Gather(m, keys[1..]), Part(m, key));
    }
  }

  lemma {:induction false} GatherJoins(m: Message, keys: seq<string>)
    ensures Gather(m, keys) == Joined(m, keys)
    decreases |keys|
  {
    if keys != [] {
      var n := |keys| - 1;
      GatherJoins(m, keys[..n]);
      GatherMore(m, keys[..n], keys[n]);
      assert keys == keys[..n] + [keys[n]];
    }
  }

  /** A message is accepted, whatever changed, exactly if its signed parts, joined, are the signed ones joined. */
  lemma {:induction false} SignedExactly(a: Auth, t: Token, keys: seq<string>, m: Message, m': Message)
    requires |t.hashKey| == 32 && Injective(a.crypto, t.hashKey) && NoKeyHolds(keys, '~')
    ensures Sign(a, t, keys, m).Some?
    ensures Validates(a, Sign(a, t, keys, m).value, m') <==> Joined(m, keys) == Joined(m', keys)
  {
    ValidatesIff(a, t, keys, m, m');
    CutWhole(keys);
    GatherJoins(m, keys);
    GatherJoins(m', keys);
  }

  /** What a token's checksum lets a sealed body decrypt to is the payload that was encrypted, and nothing else. */
  lemma {:induction false} PayloadCovered(a: Auth, t: Token, nonce: nat, payload: string, body: string)
    requires |t.hashKey| == 32 && Injective(a.crypto, t.hashKey)
    ensures EncryptPayload(a, t, nonce, payload).Some?
    ensures DecryptPayload(a, EncryptPayload(a, t, nonce, payload).value.0, body)
         == if a.crypto.unseal(body) == Some(payload) then Some(payload) else None
  {
    var got := a.crypto.unseal(body);
    if got.Some? {
      HexRoundTrip(a.crypto.hash(t.hashKey, payload));
      HexRoundTrip(a.crypto.hash(t.hashKey, got.value));
    }
  }

  /** A token printed under another token key is refused by server and client alike. */
  lemma {:induction false} ForeignRefused(a: Auth, b: Auth, t: Token, client: Token, nonce: nat)
    requires Lawful(a.crypto) && b.crypto == a.crypto && b.authenticated && b.tokenKey != a.tokenKey
    ensures FromRequest(a, GetToken(b, t, nonce, true).value) == None
    ensures FromResponse(a, client, GetToken(b, t, nonce, false).value) == None
  {
    var y, z := t.transportDataChecksum, t.payloadChecksum;
    HexRoundTrip(t.hashKey);
    SplitFour(b.tokenKey, HexEncode(t.hashKey), y, z);
    assert a.crypto.decrypt(GetToken(b, t, nonce, true).value) == Some(PrintRequest(b, t));
    SplitThree(b.tokenKey, y, z);
    assert a.crypto.decrypt(GetToken(b, t, nonce, false).value) == Some(PrintResponse(b, t));
  }

  /** Without a hash key of 32 bytes nothing is signed, validated, encrypted or decrypted. */
  lemma {:induction false} KeylessRefused(a: Auth, t: Token, keys: seq<string>, m: Message, nonce: nat, text: string)
    requires |t.hashKey| != 32
    ensures Sign(a, t, keys, m) == None && !Validates(a, t, m)
    ensures EncryptPayload(a, t, nonce, text) == None && DecryptPayload(a, t, text) == None
  {
  }

  /** On two token objects: the server accepts the request it got exactly if the one signed key was left alone. */
  method RunChanged(a: Auth, hashKey: seq<Byte>, keys: seq<string>, sent: Message, got: Message, key: string,
                    nonce: nat)
    returns (ok: bool)
    requires Lawful(a.crypto) && a.authenticated && |hashKey| == 32 && '|' !in a.tokenKey
    requires Injective(a.crypto, hashKey) && CleanKeys(keys) && sent.Request? && got.Request?
    requires key in keys && forall k | k in keys && k != key :: Agree(sent, got, k)
    ensures ok <==> Agree(sent, got, key)
  {
    var client := new AuthToken(a, true, hashKey);
    var server := new AuthToken(a, false, []);
    ChangeNoticed(a, client.View(), keys, sent, got, key);
    ok := client.SignTransportData(keys, sent);
    SignedBarFree(a, Token(hashKey, "", ""), keys, sent);
    RequestTokenIff(a, client.View(), nonce);
    var wire := client.GetEncryptedToken(nonce);
    ok := server.SetEncryptedToken(wire.value);
    ok := server.ValidateTransportData(got);
  }

  lemma {:induction false} SignedBarFree(a: Auth, t: Token, keys: seq<string>, m: Message)
    requires |t.hashKey| == 32 && '|' !in a.tokenKey && CleanKeys(keys) && t.payloadChecksum == ""
    ensures Sign(a, t, keys, m).Some? && BarFree(a, Sign(a, t, keys, m).value)
  {
    HexRoundTrip(a.crypto.hash(t.hashKey, Gather(m, keys)));
    KeyListBars(keys);
  }
}
