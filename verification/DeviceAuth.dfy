/**
 The device authorization header (core/crates/gem_auth/src/device_signature.rs): dot-joined fields
 in Base64, with hex key, digest and signature. Strings are their UTF-8 bytes. SHA-256 and Ed25519
 are parameters that satisfy the sign/verify law.
 */
module DeviceAuth {
  import opened Common
  import opened Text
  import Utf8
  import Base64
  import Hex

  type Str = seq<byte>

  const DOT: byte := 0x2e
  const GEM_AUTH_SCHEME: Str := [0x47, 0x65, 0x6d, 0x20]

  datatype Crypto = Crypto(
    sha256: seq<byte> -> seq<byte>,
    publicKey: seq<byte> -> seq<byte>,
    sign: (seq<byte>, seq<byte>) -> seq<byte>,
    verify: (seq<byte>, seq<byte>, seq<byte>) -> bool)

  ghost predicate Lawful(c: Crypto) {
    && (forall seed :: |c.publicKey(seed)| == 32)
    && (forall seed, m :: |c.sign(seed, m)| == 64)
    && (forall seed, m | |seed| == 32 :: c.verify(c.publicKey(seed), m, c.sign(seed, m)))
  }

  // ---------------------------------------------------------------- pieces

  function Dotted(a: Str, b: Str): Str {
    a + [DOT] + b
  }

  /** A number as `to_string` prints it, in bytes. */
  function Digits(n: nat): (s: Str)
    ensures s != [] && forall i | 0 <= i < |s| :: 0x30 <= s[i] <= 0x39
  {
    var text := Decimal(n);
    seq(|text|, i requires 0 <= i < |text| => text[i] as byte)
  }

  /** `splitn(n, '.')`. */
  function SplitN(s: Str, n: nat): seq<Str> {
    if n == 0 then []
    else if n == 1 then [s]
    else match CutFirst(s, DOT)
      case None => [s]
      case Some((a, b)) => [a] + SplitN(b, n - 1)
  }

  function BodyHash(c: Crypto, body: seq<byte>): Str {
    Hex.Encode(c.sha256(body))
  }

  /** `device_auth_message`. */
  function Message(timestamp: Str, verb: Str, path: Str, wallet: Str, hash: Str): Str {
    Dotted(timestamp, Dotted(verb, Dotted(path, Dotted(wallet, hash))))
  }

  function Fields(key: Str, timestamp: Str, wallet: Str, hash: Str, signature: Str): Str {
    Dotted(key, Dotted(timestamp, Dotted(wallet, Dotted(hash, signature))))
  }

  // ---------------------------------------------------------------- building and parsing

  /** The fields of a header before encoding. */
  function BuildFields(c: Crypto, seed: seq<byte>, verb: Str, path: Str, wallet: Str, body: seq<byte>, time: nat): Str {
    var hash := BodyHash(c, body);
    var message := Message(Digits(time), verb, path, wallet, hash);
    Fields(Hex.Encode(c.publicKey(seed)), Digits(time), wallet, hash, Hex.Encode(c.sign(seed, message)))
  }

  /** `build_device_auth_header`: refuses a private key that is not 32 bytes. */
  function Build(c: Crypto, seed: seq<byte>, verb: Str, path: Str, wallet: Str, body: seq<byte>, time: nat)
    : Option<Str>
  {
    if |seed| != 32 then None
    else Some(GEM_AUTH_SCHEME + Base64.Encode(BuildFields(c, seed, verb, path, wallet, body, time)))
  }

  datatype Payload = Payload(
    deviceId: Str,
    timestamp: Str,
    wallet: Option<Str>,
    bodyHash: Str,
    signature: seq<byte>)

  function PayloadOf(parts: seq<Str>): Option<Payload>
    requires |parts| == 5
  {
    match Hex.Decode(parts[4])
    case None => None
    case Some(signature) =>
      Some(Payload(parts[0], parts[1], if parts[2] == [] then None else Some(parts[2]), parts[3], signature))
  }

  /** `parse_device_auth`. */
  function Parse(header: Str): Option<Payload> {
    if !(GEM_AUTH_SCHEME <= header) then None else
    match Base64.Decode(header[|GEM_AUTH_SCHEME|..])
    case None => None
    case Some(payload) =>
      if !Utf8.Valid(payload) then None else
      var parts := SplitN(payload, 5);
      if |parts| != 5 then None else PayloadOf(parts)
  }

  function WalletText(p: Payload): Str {
    if p.wallet.Some? then p.wallet.value else []
  }

  /** The message that verification rebuilds from a payload. */
  function Rebuilt(p: Payload, verb: Str, path: Str): Str {
    Message(p.timestamp, verb, path, WalletText(p), p.bodyHash)
  }

  function VerifySignature(c: Crypto, keyHex: Str, message: Str, signature: seq<byte>): bool {
    match Hex.Decode(keyHex)
    case None => false
    case Some(key) => |key| == 32 && |signature| == 64 && c.verify(key, message, signature)
  }

  /** `verify_device_auth`. */
  function Verify(c: Crypto, header: Str, verb: Str, path: Str, body: seq<byte>): bool {
    match Parse(header)
    case None => false
    case Some(p) =>
      p.bodyHash == BodyHash(c, body) && VerifySignature(c, p.deviceId, Rebuilt(p, verb, path), p.signature)
  }

  // ---------------------------------------------------------------- splitting

  lemma {:induction false} CutDotted(a: Str, b: Str)
    requires Lacks(a, DOT)
    ensures CutFirst(Dotted(a, b), DOT) == Some((a, b))
  {
    CutFirstAt(a, DOT, b);
  }

  lemma {:induction false} SplitStep(s: Str, n: nat, a: Str, b: Str, parts: seq<Str>)
    requires Lacks(a, DOT) && n >= 2 && s == Dotted(a, b) && SplitN(b, n - 1) == parts
    ensures SplitN(s, n) == [a] + parts
  {
    CutDotted(a, b);
  }

  lemma {:induction false} SplitTwo(d: Str, e: Str)
    requires Lacks(d, DOT)
    ensures SplitN(Dotted(d, e), 2) == [d, e]
  {
    SplitStep(Dotted(d, e), 2, d, e, [e]);
  }

  lemma {:induction false} SplitThree(c: Str, d: Str, e: Str)
    requires Lacks(c, DOT) && Lacks(d, DOT)
    ensures SplitN(Dotted(c, Dotted(d, e)), 3) == [c, d, e]
  {
    SplitTwo(d, e);
    SplitStep(Dotted(c, Dotted(d, e)), 3, c, Dotted(d, e), [d, e]);
  }

  lemma {:induction false} SplitFour(b: Str, c: Str, d: Str, e: Str)
    requires Lacks(b, DOT) && Lacks(c, DOT) && Lacks(d, DOT)
    ensures SplitN(Dotted(b, Dotted(c, Dotted(d, e))), 4) == [b, c, d, e]
  {
    SplitThree(c, d, e);
    SplitStep(Dotted(b, Dotted(c, Dotted(d, e))), 4, b, Dotted(c, Dotted(d, e)), [c, d, e]);
  }

  /** Four dot-free fields and any fifth split back into the five. */
  lemma {:induction false} SplitFields(s: Str, a: Str, b: Str, c: Str, d: Str, e: Str)
    requires Lacks(a, DOT) && Lacks(b, DOT) && Lacks(c, DOT) && Lacks(d, DOT)
    requires s == Fields(a, b, c, d, e)
    ensures SplitN(s, 5) == [a, b, c, d, e]
  {
    SplitFour(b, c, d, e);
    SplitStep(s, 5, a, Dotted(b, Dotted(c, Dotted(d, e))), [b, c, d, e]);
  }

  function DotCount(s: Str): nat {
    multiset(s)[DOT]
  }

  lemma {:induction false} DotCountDotted(a: Str, b: Str)
    ensures DotCount(Dotted(a, b)) == DotCount(a) + 1 + DotCount(b)
  {
  }

  lemma {:induction false} LacksIsNoDots(s: Str)
    ensures Lacks(s, DOT) <==> DotCount(s) == 0
  {
  }

  lemma {:induction false} CutTakesOneDot(s: Str)
    requires DotCount(s) >= 1
    ensures CutFirst(s, DOT).Some? && DotCount(CutFirst(s, DOT).value.1) == DotCount(s) - 1
  {
    CutFirstSplits(s, DOT);
    LacksIsNoDots(s);
    var (a, b) := CutFirst(s, DOT).value;
    LacksIsNoDots(a);
    assert s == Dotted(a, b);
    DotCountDotted(a, b);
  }

  /** Splitting keeps all but n - 1 of the dots in the last part. */
  lemma {:induction false} LastPartDots(s: Str, n: nat)
    requires n >= 1 && DotCount(s) >= n - 1
    ensures |SplitN(s, n)| == n
    ensures DotCount(SplitN(s, n)[n - 1]) == DotCount(s) - (n - 1)
    decreases n
  {
    if n > 1 {
      CutTakesOneDot(s);
      var (a, b) := CutFirst(s, DOT).value;
      LastPartDots(b, n - 1);
      assert SplitN(s, n) == [a] + SplitN(b, n - 1);
    }
  }

  /** Every part but the last is a dot-free string. */
  lemma {:induction false} PartsAreStrings(s: Str, n: nat)
    requires n >= 1 && Utf8.Valid(s)
    ensures forall i | 0 <= i < |SplitN(s, n)| :: Utf8.Valid(SplitN(s, n)[i])
    ensures forall i | 0 <= i < |SplitN(s, n)| && i < n - 1 :: Lacks(SplitN(s, n)[i], DOT)
    decreases n
  {
    if n > 1 {
      CutFirstSplits(s, DOT);
      if CutFirst(s, DOT).Some? {
        var (a, b) := CutFirst(s, DOT).value;
        Utf8.ValidCutAtAscii(a, DOT, b);
        PartsAreStrings(b, n - 1);
      }
    }
  }

  // ---------------------------------------------------------------- the header round trip

  lemma {:induction false} HexLacksDot(bs: seq<byte>)
    ensures Lacks(Hex.Encode(bs), DOT) && Utf8.Ascii(Hex.Encode(bs))
  {
  }

  lemma {:induction false} DigitsLackDot(n: nat)
    ensures Lacks(Digits(n), DOT) && Utf8.Ascii(Digits(n))
  {
  }

  lemma {:induction false} DottedValid(a: Str, b: Str)
    requires Utf8.Valid(a) && Utf8.Valid(b)
    ensures Utf8.Valid(Dotted(a, b))
  {
    assert Utf8.Ascii([DOT]);
    Utf8.AsciiValid([DOT]);
    Utf8.ValidConcat(a, [DOT]);
    Utf8.ValidConcat(a + [DOT], b);
  }

  lemma {:induction false} FieldsValid(a: Str, b: Str, c: Str, d: Str, e: Str)
    requires Utf8.Valid(a) && Utf8.Valid(b) && Utf8.Valid(c) && Utf8.Valid(d) && Utf8.Valid(e)
    ensures Utf8.Valid(Fields(a, b, c, d, e))
  {
    DottedValid(d, e);
    DottedValid(c, Dotted(d, e));
    DottedValid(b, Dotted(c, Dotted(d, e)));
    DottedValid(a, Dotted(b, Dotted(c, Dotted(d, e))));
  }

  lemma {:induction false} BuildFieldsValid(
    c: Crypto, seed: seq<byte>, verb: Str, path: Str, wallet: Str, body: seq<byte>, time: nat)
    requires Utf8.Valid(wallet)
    ensures Utf8.Valid(BuildFields(c, seed, verb, path, wallet, body, time))
  {
    var hash := BodyHash(c, body);
    var signature := Hex.Encode(c.sign(seed, Message(Digits(time), verb, path, wallet, hash)));
    HexLacksDot(c.publicKey(seed));
    HexLacksDot(c.sha256(body));
    HexLacksDot(c.sign(seed, Message(Digits(time), verb, path, wallet, hash)));
    DigitsLackDot(time);
    Utf8.AsciiValid(Hex.Encode(c.publicKey(seed)));
    Utf8.AsciiValid(Digits(time));
    Utf8.AsciiValid(hash);
    Utf8.AsciiValid(signature);
    FieldsValid(Hex.Encode(c.publicKey(seed)), Digits(time), wallet, hash, signature);
  }

  /** Reading a header is reading its fields. */
  lemma {:induction false} ParseEncoded(payload: Str)
    requires Utf8.Valid(payload)
    ensures Parse(GEM_AUTH_SCHEME + Base64.Encode(payload))
         == if |SplitN(payload, 5)| == 5 then PayloadOf(SplitN(payload, 5)) else None
  {
    Base64.RoundTrip(payload);
    var header := GEM_AUTH_SCHEME + Base64.Encode(payload);
    assert header[|GEM_AUTH_SCHEME|..] == Base64.Encode(payload);
  }

  /** What a header built from these arguments says. */
  function Expected(c: Crypto, seed: seq<byte>, verb: Str, path: Str, wallet: Str, body: seq<byte>, time: nat)
    : Payload
  {
    var hash := BodyHash(c, body);
    Payload(Hex.Encode(c.publicKey(seed)), Digits(time), if wallet == [] then None else Some(wallet), hash,
            c.sign(seed, Message(Digits(time), verb, path, wallet, hash)))
  }

  lemma {:induction false} PayloadRoundTrip(
    key: seq<byte>, timestamp: Str, wallet: Str, digest: seq<byte>, signature: seq<byte>)
    requires Lacks(timestamp, DOT) && Lacks(wallet, DOT)
    ensures var fields := Fields(Hex.Encode(key), timestamp, wallet, Hex.Encode(digest), Hex.Encode(signature));
            var parts := SplitN(fields, 5);
            && |parts| == 5
            && PayloadOf(parts) == Some(Payload(Hex.Encode(key), timestamp,
                 if wallet == [] then None else Some(wallet), Hex.Encode(digest), signature))
  {
    HexLacksDot(key);
    HexLacksDot(digest);
    var hash, last := Hex.Encode(digest), Hex.Encode(signature);
    SplitFields(Fields(Hex.Encode(key), timestamp, wallet, hash, last), Hex.Encode(key), timestamp, wallet, hash, last);
    Hex.RoundTrip(signature);
  }

  lemma {:induction false} DottedWalletFields(
    key: seq<byte>, timestamp: Str, wallet: Str, digest: seq<byte>, signature: seq<byte>)
    requires Lacks(timestamp, DOT) && !Lacks(wallet, DOT)
    ensures var fields := Fields(Hex.Encode(key), timestamp, wallet, Hex.Encode(digest), Hex.Encode(signature));
            var parts := SplitN(fields, 5);
            |parts| == 5 && PayloadOf(parts).None?
  {
    var hash, last := Hex.Encode(digest), Hex.Encode(signature);
    var payload := Fields(Hex.Encode(key), timestamp, wallet, hash, last);
    DotCountDotted(hash, last);
    DotCountDotted(wallet, Dotted(hash, last));
    DotCountDotted(timestamp, Dotted(wallet, Dotted(hash, last)));
    DotCountDotted(Hex.Encode(key), Dotted(timestamp, Dotted(wallet, Dotted(hash, last))));
    LacksIsNoDots(wallet);
    assert DotCount(payload) >= 5;
    LastPartDots(payload, 5);
    var fifth := SplitN(payload, 5)[4];
    LacksIsNoDots(fifth);
    var i :| 0 <= i < |fifth| && fifth[i] == DOT;
    Hex.RejectDot(fifth, i);
  }

  /**
   Parsing a built header gives back its key, timestamp, wallet id, body hash and signature exactly
   when the wallet id has no dot; with a dot the header does not parse at all.
   */
  lemma {:induction false} HeaderRoundTrip(
    c: Crypto, seed: seq<byte>, verb: Str, path: Str, wallet: Str, body: seq<byte>, time: nat)
    requires |seed| == 32 && Utf8.Valid(wallet)
    ensures Parse(Build(c, seed, verb, path, wallet, body, time).value)
         == if Lacks(wallet, DOT) then Some(Expected(c, seed, verb, path, wallet, body, time)) else None
  {
    var payload := BuildFields(c, seed, verb, path, wallet, body, time);
    var signature := c.sign(seed, Message(Digits(time), verb, path, wallet, BodyHash(c, body)));
    BuildFieldsValid(c, seed, verb, path, wallet, body, time);
    ParseEncoded(payload);
    DigitsLackDot(time);
    if Lacks(wallet, DOT) {
      PayloadRoundTrip(c.publicKey(seed), Digits(time), wallet, c.sha256(body), signature);
    } else {
      DottedWalletFields(c.publicKey(seed), Digits(time), wallet, c.sha256(body), signature);
    }
  }

  /** A built header verifies for its own request exactly when the wallet id has no dot. */
  lemma {:induction false} BuiltHeaderVerifies(
    c: Crypto, seed: seq<byte>, verb: Str, path: Str, wallet: Str, body: seq<byte>, time: nat)
    requires Lawful(c) && |seed| == 32 && Utf8.Valid(wallet)
    ensures Verify(c, Build(c, seed, verb, path, wallet, body, time).value, verb, path, body) <==> Lacks(wallet, DOT)
  {
    HeaderRoundTrip(c, seed, verb, path, wallet, body, time);
    Hex.RoundTrip(c.publicKey(seed));
  }

  // ---------------------------------------------------------------- what a signature binds

  lemma {:induction false} DottedAssoc(a: Str, b: Str, c: Str)
    ensures Dotted(a, Dotted(b, c)) == Dotted(Dotted(a, b), c)
  {
  }

  lemma {:induction false} CutLastDotted(a: Str, b: Str)
    requires Lacks(b, DOT)
    ensures CutLast(Dotted(a, b), DOT) == Some((a, b))
  {
    CutLastAt(a, DOT, b);
  }

  lemma {:induction false} SameFirst(a: Str, b: Str, a': Str, b': Str)
    requires Lacks(a, DOT) && Lacks(a', DOT) && Dotted(a, b) == Dotted(a', b')
    ensures a == a' && b == b'
  {
    CutDotted(a, b);
    CutDotted(a', b');
  }

  lemma {:induction false} SameLast(a: Str, b: Str, a': Str, b': Str)
    requires Lacks(b, DOT) && Lacks(b', DOT) && Dotted(a, b) == Dotted(a', b')
    ensures a == a' && b == b'
  {
    CutLastDotted(a, b);
    CutLastDotted(a', b');
  }

  /** The message determines all five parts, whatever dots the path holds. */
  lemma {:induction false} MessageInjective(
    t: Str, v: Str, p: Str, w: Str, h: Str,
    t': Str, v': Str, p': Str, w': Str, h': Str)
    requires Lacks(t, DOT) && Lacks(v, DOT) && Lacks(w, DOT) && Lacks(h, DOT)
    requires Lacks(t', DOT) && Lacks(v', DOT) && Lacks(w', DOT) && Lacks(h', DOT)
    requires Message(t, v, p, w, h) == Message(t', v', p', w', h')
    ensures t == t' && v == v' && p == p' && w == w' && h == h'
  {
    var pw, pw' := Dotted(p, Dotted(w, h)), Dotted(p', Dotted(w', h'));
    SameFirst(t, Dotted(v, pw), t', Dotted(v', pw'));
    SameFirst(v, pw, v', pw');
    DottedAssoc(p, w, h);
    DottedAssoc(p', w', h');
    SameLast(Dotted(p, w), h, Dotted(p', w'), h');
    SameLast(p, w, p', w');
  }

  /** The restriction matters: a dotted verb or wallet id can be shifted into the path. */
  lemma {:induction false} DottedPartsShift(t: Str, v: Str, x: Str, p: Str, w: Str, h: Str)
    ensures Message(t, Dotted(v, x), p, w, h) == Message(t, v, Dotted(x, p), w, h)
    ensures Message(t, v, p, Dotted(x, w), h) == Message(t, v, Dotted(p, x), w, h)
  {
  }

  /** Every field verification puts in the message is a dot-free string. */
  lemma {:induction false} ParsedFieldsDotFree(header: Str)
    requires Parse(header).Some?
    ensures var p := Parse(header).value;
            && Lacks(p.timestamp, DOT) && Lacks(WalletText(p), DOT) && Lacks(p.bodyHash, DOT)
            && Utf8.Valid(p.timestamp) && Utf8.Valid(WalletText(p)) && Utf8.Valid(p.bodyHash)
  {
    var payload := Base64.Decode(header[|GEM_AUTH_SCHEME|..]).value;
    PartsAreStrings(payload, 5);
    var parts := SplitN(payload, 5);
    assert Lacks(parts[1], DOT) && Lacks(parts[2], DOT) && Lacks(parts[3], DOT);
    assert Utf8.Valid(parts[1]) && Utf8.Valid(parts[2]) && Utf8.Valid(parts[3]);
  }

  /**
   If two parsed headers, for two requests with dot-free verbs, rebuild the same signed message, the
   requests and the signed fields are the same: one signature speaks for one request.
   */
  lemma {:induction false} SignedMessageBinds(header: Str, header': Str, verb: Str, verb': Str, path: Str, path': Str)
    requires Parse(header).Some? && Parse(header').Some?
    requires Lacks(verb, DOT) && Lacks(verb', DOT)
    requires Rebuilt(Parse(header).value, verb, path) == Rebuilt(Parse(header').value, verb', path')
    ensures verb == verb' && path == path'
    ensures var p, p' := Parse(header).value, Parse(header').value;
            p.timestamp == p'.timestamp && WalletText(p) == WalletText(p') && p.bodyHash == p'.bodyHash
  {
    ParsedFieldsDotFree(header);
    ParsedFieldsDotFree(header');
    var p, p' := Parse(header).value, Parse(header').value;
    MessageInjective(p.timestamp, verb, path, WalletText(p), p.bodyHash,
                     p'.timestamp, verb', path', WalletText(p'), p'.bodyHash);
  }

  // ---------------------------------------------------------------- what is accepted

  /** Five byte strings with dots between, spelled out. */
  function Join5(a: Str, b: Str, c: Str, d: Str, e: Str): Str {
    a + [0x2e] + b + [0x2e] + c + [0x2e] + d + [0x2e] + e
  }

  lemma {:induction false} DottedIsJoin(a: Str, b: Str, c: Str, d: Str, e: Str)
    ensures Fields(a, b, c, d, e) == Join5(a, b, c, d, e) == Message(a, b, c, d, e)
  {
    var de, cde := Dotted(d, e), Dotted(c, Dotted(d, e));
    assert cde == c + [0x2e] + d + [0x2e] + e;
    assert Dotted(b, cde) == b + [0x2e] + c + [0x2e] + d + [0x2e] + e;
  }

  /**
   The header is the scheme and the Base64 of key, time, wallet id, the hash of this body and a
   signature, joined by dots, and the key's signature is good for this request's message.
   */
  ghost predicate Genuine(
    c: Crypto, header: Str, verb: Str, path: Str, body: seq<byte>,
    key: Str, time: Str, wallet: Str, signatureText: Str)
  {
    var hash := Hex.Encode(c.sha256(body));
    var payload := Join5(key, time, wallet, hash, signatureText);
    && Lacks(key, 0x2e) && Lacks(time, 0x2e) && Lacks(wallet, 0x2e)
    && Utf8.Valid(payload)
    && header == [0x47, 0x65, 0x6d, 0x20] + Base64.Encode(payload)
    && Hex.Decode(key).Some? && |Hex.Decode(key).value| == 32
    && Hex.Decode(signatureText).Some? && |Hex.Decode(signatureText).value| == 64
    && c.verify(Hex.Decode(key).value, Join5(time, verb, path, wallet, hash), Hex.Decode(signatureText).value)
  }

  lemma {:induction false} TwoParts(s: Str, parts: seq<Str>)
    requires parts == SplitN(s, 2) && |parts| == 2
    ensures s == Dotted(parts[0], parts[1]) && Lacks(parts[0], DOT)
  {
    CutFirstSplits(s, DOT);
  }

  lemma {:induction false} MoreParts(s: Str, n: nat, parts: seq<Str>) returns (rest: Str)
    requires n > 2 && parts == SplitN(s, n) && |parts| == n
    ensures s == Dotted(parts[0], rest) && Lacks(parts[0], DOT) && SplitN(rest, n - 1) == parts[1..]
  {
    CutFirstSplits(s, DOT);
    var (a, b) := CutFirst(s, DOT).value;
    rest := b;
    assert SplitN(s, n) == [a] + SplitN(b, n - 1);
  }

  lemma {:induction false} ThreeParts(s: Str, parts: seq<Str>)
    requires parts == SplitN(s, 3) && |parts| == 3
    ensures s == Dotted(parts[0], Dotted(parts[1], parts[2])) && Lacks(parts[0], DOT) && Lacks(parts[1], DOT)
  {
    var rest := MoreParts(s, 3, parts);
    TwoParts(rest, parts[1..]);
  }

  /** A string that splits in five is its parts joined again, the first four without dots. */
  lemma {:induction false} FiveParts(s: Str, parts: seq<Str>)
    requires parts == SplitN(s, 5) && |parts| == 5
    ensures s == Join5(parts[0], parts[1], parts[2], parts[3], parts[4])
    ensures Lacks(parts[0], DOT) && Lacks(parts[1], DOT) && Lacks(parts[2], DOT) && Lacks(parts[3], DOT)
  {
    var s1 := MoreParts(s, 5, parts);
    var tail := parts[1..];
    var s2 := MoreParts(s1, 4, tail);
    ThreeParts(s2, tail[1..]);
    DottedIsJoin(parts[0], parts[1], parts[2], parts[3], parts[4]);
  }

  lemma {:induction false} AcceptedIsGenuine(
    c: Crypto, header: Str, verb: Str, path: Str, body: seq<byte>)
    returns (key: Str, time: Str, wallet: Str, signatureText: Str)
    requires Verify(c, header, verb, path, body)
    ensures Genuine(c, header, verb, path, body, key, time, wallet, signatureText)
  {
    var text := header[|GEM_AUTH_SCHEME|..];
    var payload := Base64.Decode(text).value;
    var parts := SplitN(payload, 5);
    Base64.Canonical(text);
    FiveParts(payload, parts);
    key, time, wallet, signatureText := parts[0], parts[1], parts[2], parts[4];
    SchemeFirst(header, text);
    DottedIsJoin(time, verb, path, wallet, parts[3]);
  }

  lemma {:induction false} SchemeFirst(header: Str, text: Str)
    requires GEM_AUTH_SCHEME <= header && text == header[|GEM_AUTH_SCHEME|..]
    ensures header == [0x47, 0x65, 0x6d, 0x20] + text
  {
  }

  lemma {:induction false} GenuineIsAccepted(
    c: Crypto, header: Str, verb: Str, path: Str, body: seq<byte>, key: Str, time: Str, wallet: Str, signatureText: Str)
    requires Genuine(c, header, verb, path, body, key, time, wallet, signatureText)
    ensures Verify(c, header, verb, path, body)
  {
    var hash := Hex.Encode(c.sha256(body));
    var payload := Join5(key, time, wallet, hash, signatureText);
    HexLacksDot(c.sha256(body));
    DottedIsJoin(key, time, wallet, hash, signatureText);
    DottedIsJoin(time, verb, path, wallet, hash);
    SplitFields(payload, key, time, wallet, hash, signatureText);
    ParseEncoded(payload);
  }

  /** A header is accepted for a request exactly when it is genuine for it. */
  lemma {:induction false} VerifyExactly(c: Crypto, header: Str, verb: Str, path: Str, body: seq<byte>)
    ensures Verify(c, header, verb, path, body) <==>
      exists key, time, wallet, signatureText ::
        Genuine(c, header, verb, path, body, key, time, wallet, signatureText)
  {
    if Verify(c, header, verb, path, body) {
      var key, time, wallet, signatureText := AcceptedIsGenuine(c, header, verb, path, body);
    }
    if key, time, wallet, signatureText :| Genuine(c, header, verb, path, body, key, time, wallet, signatureText) {
      GenuineIsAccepted(c, header, verb, path, body, key, time, wallet, signatureText);
    }
  }

  /** One header is good for bodies of one hash only, and the signature is good for each accepted request. */
  lemma {:induction false} AcceptedBinds(
    c: Crypto, header: Str, verb: Str, path: Str, body: seq<byte>, verb': Str, path': Str, body': seq<byte>)
    requires Verify(c, header, verb, path, body) && Verify(c, header, verb', path', body')
    ensures c.sha256(body) == c.sha256(body')
    ensures exists k, time, wallet, signature ::
      && c.verify(k, Join5(time, verb, path, wallet, Hex.Encode(c.sha256(body))), signature)
      && c.verify(k, Join5(time, verb', path', wallet, Hex.Encode(c.sha256(body'))), signature)
  {
    var p := Parse(header).value;
    Hex.RoundTrip(c.sha256(body));
    Hex.RoundTrip(c.sha256(body'));
    DottedIsJoin(p.timestamp, verb, path, WalletText(p), p.bodyHash);
    DottedIsJoin(p.timestamp, verb', path', WalletText(p), p.bodyHash);
  }

  /** A header is built from a 32-byte key exactly as spelled out here. */
  lemma {:induction false} BuiltInFull(
    c: Crypto, seed: seq<byte>, verb: Str, path: Str, wallet: Str, body: seq<byte>, time: nat)
    ensures Build(c, seed, verb, path, wallet, body, time) ==
      var hash := Hex.Encode(c.sha256(body));
      var signature := c.sign(seed, Join5(Digits(time), verb, path, wallet, hash));
      if |seed| == 32 then
        Some([0x47, 0x65, 0x6d, 0x20]
             + Base64.Encode(Join5(Hex.Encode(c.publicKey(seed)), Digits(time), wallet, hash, Hex.Encode(signature))))
      else None
  {
    var hash := Hex.Encode(c.sha256(body));
    DottedIsJoin(Digits(time), verb, path, wallet, hash);
    var signature := c.sign(seed, Join5(Digits(time), verb, path, wallet, hash));
    DottedIsJoin(Hex.Encode(c.publicKey(seed)), Digits(time), wallet, hash, Hex.Encode(signature));
  }
}
