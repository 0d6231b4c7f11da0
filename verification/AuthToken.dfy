/**
 The auth token exchange: a client signs and encrypts a request, the server
 recovers the token, validates and decrypts, and replies in the same way. The
 cipher and the hash are parameters; the cipher's decryption inverts it.
 */
module AuthTokens {
  import opened Common
  import opened Text

  /** What both parties share; a number is the cipher's nonce, and seal the cipher with its base64 and JSON wrapping. */
  datatype Crypto = Crypto(
    encrypt: (nat, string) -> string,
    decrypt: string -> Option<string>,
    seal: (nat, string) -> string,
    unseal: string -> Option<string>,
    hash: (seq<Byte>, string) -> seq<Byte>)

  ghost predicate Lawful(c: Crypto) {
    && (forall n, m :: c.decrypt(c.encrypt(n, m)) == Some(m))
    && (forall n, m :: c.unseal(c.seal(n, m)) == Some(m))
  }

  datatype Auth = Auth(crypto: Crypto, tokenKey: string, authenticated: bool)

  datatype Token = Token(hashKey: seq<Byte>, transportDataChecksum: string, payloadChecksum: string)

  datatype Message =
    | Request(uri: string, body: string, header: string -> string)
    | Response(body: string, header: string -> string)

  // ----- signing

  /** What a signed key stands for; only a request has a URL. */
  function ValueOf(m: Message, key: string): string {
    if key == "body" then m.body
    else if m.Request? && key == "url" then m.uri
    else m.header(key)
  }

  function Gather(m: Message, keys: seq<string>): string {
    if keys == [] then "" else ValueOf(m, keys[0]) + Gather(m, keys[1..])
  }

  function KeyList(keys: seq<string>): string {
    if keys == [] then "" else keys[0] + "~" + KeyList(keys[1..])
  }

  /** The hex form of the keyed hash; None where the hash rejects its key. */
  function Checksum(c: Crypto, hashKey: seq<Byte>, data: string): Option<string> {
    if |hashKey| != 32 then None else Some(HexEncode(c.hash(hashKey, data)))
  }

  function Sign(a: Auth, t: Token, keys: seq<string>, m: Message): Option<Token> {
    match Checksum(a.crypto, t.hashKey, Gather(m, keys))
    case None => None
    case Some(sum) => Some(t.(transportDataChecksum := KeyList(keys) + sum))
  }

  predicate Validates(a: Auth, t: Token, m: Message) {
    var parts := Split(t.transportDataChecksum, '~');
    Checksum(a.crypto, t.hashKey, Gather(m, parts[..|parts| - 1])) == Some(parts[|parts| - 1])
  }

  // ----- payloads

  function EncryptPayload(a: Auth, t: Token, nonce: nat, payload: string): Option<(Token, string)> {
    match Checksum(a.crypto, t.hashKey, payload)
    case None => None
    case Some(sum) => Some((t.(payloadChecksum := sum), a.crypto.seal(nonce, payload)))
  }

  function DecryptPayload(a: Auth, t: Token, body: string): Option<string> {
    match a.crypto.unseal(body)
    case None => None
    case Some(payload) =>
      if Checksum(a.crypto, t.hashKey, payload) == Some(t.payloadChecksum) then Some(payload) else None
  }

  // ----- the token on the wire

  function PrintRequest(a: Auth, t: Token): string {
    a.tokenKey + "|" + (HexEncode(t.hashKey) + "|" + (t.transportDataChecksum + "|" + t.payloadChecksum))
  }

  function PrintResponse(a: Auth, t: Token): string {
    a.tokenKey + "|" + (t.transportDataChecksum + "|" + t.payloadChecksum)
  }

  /** GetEncryptedToken; the server's token omits the hash key. */
  function GetToken(a: Auth, t: Token, nonce: nat, byClient: bool): Option<string> {
    if a.authenticated then Some(a.crypto.encrypt(nonce, if byClient then PrintRequest(a, t) else PrintResponse(a, t)))
    else None
  }

  /** The server's SetEncryptedToken. */
  function FromRequest(a: Auth, encrypted: string): Option<Token> {
    match a.crypto.decrypt(encrypted)
    case None => None
    case Some(text) =>
      var parts := Split(text, '|');
      if |parts| != 4 || parts[0] != a.tokenKey then None
      else match HexDecode(parts[1])
        case None => None
        case Some(key) => Some(Token(key, parts[2], parts[3]))
  }

  /** The client's SetEncryptedToken. */
  function FromResponse(a: Auth, t: Token, encrypted: string): Option<Token> {
    match a.crypto.decrypt(encrypted)
    case None => None
    case Some(text) =>
      var parts := Split(text, '|');
      if |parts| != 3 || parts[0] != a.tokenKey then None
      else Some(t.(transportDataChecksum := parts[1], payloadChecksum := parts[2]))
  }

  // ----- the tokens as objects

  lemma {:induction false} NextKey(keys: seq<string>, i: nat, done: string)
    requires i < |keys|
    ensures done + keys[i] + "~" + KeyList(keys[i + 1..]) == done + KeyList(keys[i..])
  {
    assert keys[i..][1..] == keys[i + 1..];
    ConcatAssoc(done, keys[i], "~");
    ConcatAssoc(done, keys[i] + "~", KeyList(keys[i + 1..]));
  }

  lemma {:induction false} NextValue(m: Message, keys: seq<string>, i: nat, done: string)
    requires i < |keys|
    ensures done + ValueOf(m, keys[i]) + Gather(m, keys[i + 1..]) == done + Gather(m, keys[i..])
  {
    assert keys[i..][1..] == keys[i + 1..];
    ConcatAssoc(done, ValueOf(m, keys[i]), Gather(m, keys[i + 1..]));
  }

  class AuthToken {
    const auth: Auth
    const byClient: bool
    var hashKey: seq<Byte>
    var transportDataChecksum: string
    var payloadChecksum: string

    ghost function View(): Token
      reads this
    {
      Token(hashKey, transportDataChecksum, payloadChecksum)
    }

    /** A client token gets a fresh random key; a server token starts without one. */
    constructor (auth: Auth, byClient: bool, key: seq<Byte>)
      ensures this.auth == auth && this.byClient == byClient && View() == Token(if byClient then key else [], "", "")
    {
      this.auth, this.byClient := auth, byClient;
      hashKey := if byClient then key else [];
      transportDataChecksum, payloadChecksum := "", "";
    }

    /** A refused token leaves the checksums; a bad hex key leaves the bytes before the error as the hash key. */
    method SetEncryptedToken(encrypted: string) returns (ok: bool)
      modifies this
      ensures var r := if byClient then FromResponse(auth, old(View()), encrypted) else FromRequest(auth, encrypted);
              if ok then r == Some(View())
              else r == None && View() == old(View()).(hashKey := KeyLeft(encrypted, old(hashKey)))
    {
      var text := auth.crypto.decrypt(encrypted);
      if text.None? {
        return false;
      }
      var parts := Split(text.value, '|');
      if |parts| != (if byClient then 3 else 4) || parts[0] != auth.tokenKey {
        return false;
      }
      if !byClient {
        hashKey := HexPrefix(parts[1]);
        if HexDecode(parts[1]).None? {
          return false;
        }
      }
      transportDataChecksum := parts[|parts| - 2];
      payloadChecksum := parts[|parts| - 1];
      ok := true;
    }

    /** The hash key that a refused token leaves behind. */
    ghost function KeyLeft(encrypted: string, key: seq<Byte>): seq<Byte> {
      var text := auth.crypto.decrypt(encrypted);
      if byClient || text.None? then key
      else
        var parts := Split(text.value, '|');
        if |parts| != 4 || parts[0] != auth.tokenKey then key else HexPrefix(parts[1])
    }

    method GetEncryptedToken(nonce: nat) returns (wire: Option<string>)
      ensures wire == GetToken(auth, View(), nonce, byClient)
    {
      if !auth.authenticated {
        return None;
      }
      var text := auth.tokenKey + "|";
      if byClient {
        text := text + (HexEncode(hashKey) + "|" + (transportDataChecksum + "|" + payloadChecksum));
      } else {
        text := text + (transportDataChecksum + "|" + payloadChecksum);
      }
      wire := Some(auth.crypto.encrypt(nonce, text));
    }

    method Encrypt(payload: string, nonce: nat) returns (body: Option<string>)
      modifies this`payloadChecksum
      ensures var r := EncryptPayload(auth, old(View()), nonce, payload);
              if body.None? then r == None && View() == old(View()) else r == Some((View(), body.value))
    {
      var sum := Checksum(auth.crypto, hashKey, payload);
      if sum.None? {
        return None;
      }
      payloadChecksum := sum.value;
      body := Some(auth.crypto.seal(nonce, payload));
    }

    method Decrypt(body: string) returns (payload: Option<string>)
      ensures payload == DecryptPayload(auth, View(), body)
    {
      payload := auth.crypto.unseal(body);
      if payload.Some? && Checksum(auth.crypto, hashKey, payload.value) != Some(payloadChecksum) {
        payload := None;
      }
    }

    method SignTransportData(keys: seq<string>, m: Message) returns (ok: bool)
      modifies this`transportDataChecksum
      ensures var r := if m.Request? == byClient then Sign(auth, old(View()), keys, m) else None;
              if ok then r == Some(View()) else r == None && View() == old(View())
    {
      if m.Request? != byClient {
        return false;
      }
      var checksum, data := "", "";
      for i := 0 to |keys|
        invariant View() == old(View())
        invariant checksum + KeyList(keys[i..]) == KeyList(keys)
        invariant data + Gather(m, keys[i..]) == Gather(m, keys)
      {
        NextKey(keys, i, checksum);
        NextValue(m, keys, i, data);
        checksum := checksum + keys[i] + "~";
        if keys[i] == "body" {
          data := data + m.body;
        } else if byClient && keys[i] == "url" {
          data := data + m.uri;
        } else {
          data := data + m.header(keys[i]);
        }
      }
      ConcatEmpty(checksum);
      ConcatEmpty(data);
      var sum := Checksum(auth.crypto, hashKey, data);
      ok := sum.Some?;
      if ok {
        transportDataChecksum := checksum + sum.value;
      }
    }

    method ValidateTransportData(m: Message) returns (ok: bool)
      ensures ok == (m.Response? == byClient && Validates(auth, View(), m))
    {
      if m.Response? != byClient {
        return false;
      }
      var parts := Split(transportDataChecksum, '~');
      var keys, data := parts[..|parts| - 1], "";
      for i := 0 to |keys|
        invariant data + Gather(m, keys[i..]) == Gather(m, keys)
      {
        NextValue(m, keys, i, data);
        if keys[i] == "body" {
          data := data + m.body;
        } else if !byClient && keys[i] == "url" {
          data := data + m.uri;
        } else {
          data := data + m.header(keys[i]);
        }
      }
      ConcatEmpty(data);
      ok := Checksum(auth.crypto, hashKey, data) == Some(parts[|parts| - 1]);
    }
  }

  // ----- the printed token is parsed back exactly when it holds no stray separator

  lemma {:induction false} CountBar(a: string, rest: string)
    ensures Count(a + "|" + rest, '|') == Count(a, '|') + 1 + Count(rest, '|')
  {
    CountConcat(a + "|", rest, '|');
    CountConcat(a, "|", '|');
    assert Count("|", '|') == 1 + Count("|"[1..], '|');
  }

  /** No field holds a separator. */
  predicate BarFree(a: Auth, t: Token) {
    '|' !in a.tokenKey && '|' !in t.transportDataChecksum && '|' !in t.payloadChecksum
  }

  /** Joined fields split back into themselves exactly when no field holds the separator. */
  lemma {:induction false} SplitTwo(a: string, b: string)
    ensures if '|' in a || '|' in b then |Split(a + "|" + b, '|')| > 2 else Split(a + "|" + b, '|') == [a, b]
  {
    SplitCount(a + "|" + b, '|');
    CountBar(a, b);
    CountZero(a, '|');
    CountZero(b, '|');
    if '|' !in a && '|' !in b {
      SplitHead(a, b, '|');
      SplitWhole(b, '|');
    }
  }

  lemma {:induction false} SplitMore(a: string, rest: string)
    ensures if '|' in a then |Split(a + "|" + rest, '|')| > 1 + |Split(rest, '|')|
            else Split(a + "|" + rest, '|') == [a] + Split(rest, '|')
  {
    SplitCount(a + "|" + rest, '|');
    SplitCount(rest, '|');
    CountBar(a, rest);
    CountZero(a, '|');
    if '|' !in a {
      SplitHead(a, rest, '|');
    }
  }

  lemma {:induction false} SplitThree(a: string, b: string, c: string)
    ensures var parts := Split(a + "|" + (b + "|" + c), '|');
            if '|' in a || '|' in b || '|' in c then |parts| > 3 else parts == [a, b, c]
  {
    SplitTwo(b, c);
    SplitMore(a, b + "|" + c);
    assert [a] + [b, c] == [a, b, c];
  }

  lemma {:induction false} Flatten<T>(a: T, b: T, c: T, d: T)
    ensures [a] + ([b] + [c, d]) == [a, b, c, d]
  {
  }

  lemma {:induction false} SplitFour(a: string, b: string, c: string, d: string)
    requires '|' !in b
    ensures var parts := Split(a + "|" + (b + "|" + (c + "|" + d)), '|');
            if '|' in a || '|' in c || '|' in d then |parts| > 4 else parts == [a, b, c, d]
  {
    var y := c + "|" + d;
    var x := b + "|" + y;
    SplitTwo(c, d);
    SplitMore(b, y);
    SplitMore(a, x);
    assert Split(x, '|') == [b] + Split(y, '|');
    Flatten(a, b, c, d);
  }

  /** The server accepts an authenticated client's token exactly when none of its fields holds '|', and recovers it. */
  lemma {:induction false} RequestTokenIff(a: Auth, t: Token, nonce: nat)
    requires Lawful(a.crypto)
    ensures GetToken(a, t, nonce, true).Some? <==> a.authenticated
    ensures a.authenticated ==>
              FromRequest(a, GetToken(a, t, nonce, true).value) == if BarFree(a, t) then Some(t) else None
  {
    if a.authenticated {
      HexRoundTrip(t.hashKey);
      SplitFour(a.tokenKey, HexEncode(t.hashKey), t.transportDataChecksum, t.payloadChecksum);
      assert a.crypto.decrypt(GetToken(a, t, nonce, true).value) == Some(PrintRequest(a, t));
    }
  }

  /** The client accepts a server's token exactly when none of its fields holds '|', and takes over both checksums. */
  lemma {:induction false} ResponseTokenIff(a: Auth, client: Token, t: Token, nonce: nat)
    requires Lawful(a.crypto)
    ensures GetToken(a, t, nonce, false).Some? <==> a.authenticated
    ensures a.authenticated ==>
              FromResponse(a, client, GetToken(a, t, nonce, false).value)
              == if BarFree(a, t) then Some(t.(hashKey := client.hashKey)) else None
  {
    if a.authenticated {
      SplitThree(a.tokenKey, t.transportDataChecksum, t.payloadChecksum);
      assert a.crypto.decrypt(GetToken(a, t, nonce, false).value) == Some(PrintResponse(a, t));
    }
  }

  // ----- the signed keys are recovered exactly when none holds '~'

  predicate NoKeyHolds(keys: seq<string>, c: char) {
    forall i | 0 <= i < |keys| :: c !in keys[i]
  }

  function KeyTildes(keys: seq<string>): nat {
    if keys == [] then 0 else Count(keys[0], '~') + KeyTildes(keys[1..])
  }

  lemma {:induction false} KeyTildesZero(keys: seq<string>)
    ensures KeyTildes(keys) == 0 <==> NoKeyHolds(keys, '~')
    decreases |keys|
  {
    if keys != [] {
      KeyTildesZero(keys[1..]);
      CountZero(keys[0], '~');
      assert forall i | 0 < i < |keys| :: keys[i] == keys[1..][i - 1];
      if NoKeyHolds(keys[1..], '~') && '~' !in keys[0] {
        assert NoKeyHolds(keys, '~');
      }
      assert NoKeyHolds(keys, '~') ==> NoKeyHolds(keys[1..], '~') && '~' !in keys[0];
    }
  }

  /** The keys cut at every '~' they hold, as the validator reads them. */
  function Cut(keys: seq<string>): seq<string> {
    if keys == [] then [] else Split(keys[0], '~') + Cut(keys[1..])
  }

  lemma {:induction false} CutCount(keys: seq<string>)
    ensures |Cut(keys)| == |keys| + KeyTildes(keys)
    decreases |keys|
  {
    if keys != [] {
      SplitCount(keys[0], '~');
      CutCount(keys[1..]);
    }
  }

  lemma {:induction false} CutWhole(keys: seq<string>)
    requires NoKeyHolds(keys, '~')
    ensures Cut(keys) == keys
    decreases |keys|
  {
    if keys != [] {
      SplitWhole(keys[0], '~');
      CutWhole(keys[1..]);
      assert keys == [keys[0]] + keys[1..];
    }
  }

  lemma {:induction false} SplitKeys(keys: seq<string>, sum: string)
    requires '~' !in sum
    ensures Split(KeyList(keys) + sum, '~') == Cut(keys) + [sum]
    decreases |keys|
  {
    if keys == [] {
      EmptyConcat(sum);
      EmptyConcat([sum]);
      SplitWhole(sum, '~');
    } else {
      var first, rest := keys[0], KeyList(keys[1..]);
      SplitKeys(keys[1..], sum);
      ConcatAssoc(first + "~", rest, sum);
      SplitConcat(first, rest + sum, '~');
      ConcatAssoc(Split(first, '~'), Cut(keys[1..]), [sum]);
    }
  }

  /** The keys the validator reads out of a signature are the signed ones exactly when no key holds '~'. */
  lemma {:induction false} KeysRecoveredIff(keys: seq<string>, sum: string)
    requires '~' !in sum
    ensures var parts := Split(KeyList(keys) + sum, '~');
            parts[..|parts| - 1] == Cut(keys) && (Cut(keys) == keys <==> NoKeyHolds(keys, '~'))
  {
    SplitKeys(keys, sum);
    DropLast(Cut(keys), sum);
    CutCount(keys);
    KeyTildesZero(keys);
    if NoKeyHolds(keys, '~') {
      CutWhole(keys);
    }
  }

  lemma {:induction false} KeyListBars(keys: seq<string>)
    ensures '|' !in KeyList(keys) <==> NoKeyHolds(keys, '|')
    decreases |keys|
  {
    if keys != [] {
      KeyListBars(keys[1..]);
      assert forall i | 0 < i < |keys| :: keys[i] == keys[1..][i - 1];
      var a, b := keys[0], KeyList(keys[1..]);
      assert KeyList(keys) == a + "~" + b;
      assert '|' in KeyList(keys) <==> '|' in a || '|' in b;
      assert NoKeyHolds(keys, '|') <==> '|' !in a && NoKeyHolds(keys[1..], '|') by {
        if NoKeyHolds(keys[1..], '|') && '|' !in a {
          assert NoKeyHolds(keys, '|');
        }
      }
    }
  }

  // ----- the exchange

  /** Validation accepts a message exactly when its values for the keys, as read back, hash like the signed ones. */
  lemma {:induction false} ValidatesIff(a: Auth, t: Token, keys: seq<string>, m: Message, m': Message)
    requires |t.hashKey| == 32
    ensures Sign(a, t, keys, m).Some?
    ensures Validates(a, Sign(a, t, keys, m).value, m')
       <==> a.crypto.hash(t.hashKey, Gather(m', Cut(keys))) == a.crypto.hash(t.hashKey, Gather(m, keys))
  {
    var signed, seen := a.crypto.hash(t.hashKey, Gather(m, keys)), a.crypto.hash(t.hashKey, Gather(m', Cut(keys)));
    HexRoundTrip(signed);
    HexRoundTrip(seen);
    SplitKeys(keys, HexEncode(signed));
    DropLast(Cut(keys), HexEncode(signed));
  }

  /** A party's turn: encrypt the payload, sign the message, hand over the token and the body. */
  datatype Sent = Sent(token: Token, wire: string, body: string)

  function Send(a: Auth, t: Token, byClient: bool, keys: seq<string>, m: Message, payload: string, n1: nat,
                n2: nat): Option<Sent> {
    match EncryptPayload(a, t, n1, payload)
    case None => None
    case Some((t1, body)) =>
      match Sign(a, t1, keys, m)
      case None => None
      case Some(t2) =>
        match GetToken(a, t2, n2, byClient)
        case None => None
        case Some(wire) => Some(Sent(t2, wire, body))
  }

  predicate CleanKeys(keys: seq<string>) {
    NoKeyHolds(keys, '|') && NoKeyHolds(keys, '~')
  }

  /** A sent token: no stray separator, validating its message, and carrying the payload's checksum. */
  lemma {:induction false} SendFacts(a: Auth, t: Token, byClient: bool, keys: seq<string>, m: Message, payload: string,
                                     n1: nat, n2: nat) returns (s: Sent)
    requires Lawful(a.crypto) && a.authenticated && |t.hashKey| == 32 && CleanKeys(keys) && '|' !in a.tokenKey
    ensures Send(a, t, byClient, keys, m, payload, n1, n2) == Some(s)
    ensures BarFree(a, s.token) && s.token.hashKey == t.hashKey
    ensures GetToken(a, s.token, n2, byClient) == Some(s.wire)
    ensures Validates(a, s.token, m) && DecryptPayload(a, s.token, s.body) == Some(payload)
  {
    var (t1, body) := EncryptPayload(a, t, n1, payload).value;
    ValidatesIff(a, t1, keys, m, m);
    CutWhole(keys);
    var t2 := Sign(a, t1, keys, m).value;
    var digest, sum := a.crypto.hash(t.hashKey, Gather(m, keys)), a.crypto.hash(t.hashKey, payload);
    HexRoundTrip(digest);
    HexRoundTrip(sum);
    KeyListBars(keys);
    assert t2.transportDataChecksum == KeyList(keys) + HexEncode(digest);
    s := Sent(t2, GetToken(a, t2, n2, byClient).value, body);
  }

  /**
   A whole exchange: the server recovers the client's token, accepts the request
   and reads its payload; the client accepts the reply and reads the reply's payload.
   */
  lemma {:induction false} Exchange(a: Auth, client: Token, keys: seq<string>, request: Message, payload: string,
                 replyKeys: seq<string>, reply: Message, replyPayload: string, n1: nat, n2: nat, n3: nat, n4: nat)
    requires Lawful(a.crypto) && a.authenticated && |client.hashKey| == 32 && '|' !in a.tokenKey
    requires CleanKeys(keys) && CleanKeys(replyKeys)
    ensures var sent := Send(a, client, true, keys, request, payload, n1, n2);
            && sent.Some?
            && var server := FromRequest(a, sent.value.wire);
            && server == Some(sent.value.token) && server.value.hashKey == client.hashKey
            && Validates(a, server.value, request)
            && DecryptPayload(a, server.value, sent.value.body) == Some(payload)
            && var back := Send(a, server.value, false, replyKeys, reply, replyPayload, n3, n4);
            && back.Some?
            && var got := FromResponse(a, sent.value.token, back.value.wire);
            && got == Some(back.value.token)
            && Validates(a, got.value, reply)
            && DecryptPayload(a, got.value, back.value.body) == Some(replyPayload)
  {
    var sent := SendFacts(a, client, true, keys, request, payload, n1, n2);
    RequestTokenIff(a, sent.token, n2);
    var back := SendFacts(a, sent.token, false, replyKeys, reply, replyPayload, n3, n4);
    ResponseTokenIff(a, sent.token, back.token, n4);
  }

  /** The exchange on two token objects: a client's, and a server's that starts empty. */
  method RunExchange(a: Auth, key: seq<Byte>, keys: seq<string>, request: Message, payload: string,
                     replyKeys: seq<string>, reply: Message, replyPayload: string, n1: nat, n2: nat, n3: nat, n4: nat)
    returns (got: Option<string>, gotReply: Option<string>)
    requires Lawful(a.crypto) && a.authenticated && |key| == 32 && '|' !in a.tokenKey
    requires CleanKeys(keys) && CleanKeys(replyKeys) && request.Request? && reply.Response?
    ensures got == Some(payload) && gotReply == Some(replyPayload)
  {
    var client := new AuthToken(a, true, key);
    var server := new AuthToken(a, false, []);
    Exchange(a, client.View(), keys, request, payload, replyKeys, reply, replyPayload, n1, n2, n3, n4);

    var body := client.Encrypt(payload, n1);
    var ok := client.SignTransportData(keys, request);
    var wire := client.GetEncryptedToken(n2);
    ok := server.SetEncryptedToken(wire.value);
    ok := server.ValidateTransportData(request);
    assert ok;
    got := server.Decrypt(body.value);

    body := server.Encrypt(replyPayload, n3);
    ok := server.SignTransportData(replyKeys, reply);
    wire := server.GetEncryptedToken(n4);
    ok := client.SetEncryptedToken(wire.value);
    ok := client.ValidateTransportData(reply);
    assert ok;
    gotReply := client.Decrypt(body.value);
  }
}
