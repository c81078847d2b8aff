/** What the TLS probe reads from a server: the group of a ServerHello, its version and suite,
    and the curve of a TLS 1.2 key exchange. */
module TlsServerHello {
  import opened Bytes
  import Hello = TlsClientHello

  type Extension = Hello.Extension

  const SERVER_HELLO: byte := 2
  const SERVER_KEY_EXCHANGE: byte := 12
  const NAMED_CURVE: byte := 3

  const HRR_RANDOM: bytes := [
    0xcf, 0x21, 0xad, 0x74, 0xe5, 0x9a, 0x61, 0x11, 0xbe, 0x1d, 0x8c, 0x02, 0x1e, 0x65, 0xb8, 0x91,
    0xc2, 0xa2, 0x11, 0x16, 0x7a, 0xbb, 0x8c, 0x5e, 0x07, 0x9e, 0x09, 0xe2, 0xc8, 0xa8, 0x33, 0x9c
  ]

  datatype TlsError =
    | MalformedServerHello
    | TruncatedServerHello
    | TruncatedExtensions
    | TruncatedExtension
    | MalformedKeyShare
    | TruncatedCipher
    | TruncatedHandshake

  datatype Selection = Selection(group: Option<uint16>, isRetryRequest: bool)

  datatype Choice = Choice(version: uint16, suite: uint16)

  // ---------------------------------------------------------------- reading

  function GroupRead(body: bytes, position: nat, end: nat): Result<Option<uint16>, TlsError>
    requires end <= |body|
    decreases end - position
  {
    if position + 4 <= end then
      var kind, length := ReadU16(body, position), ReadU16(body, position + 2) as int;
      if position + 4 + length > end then Err(TruncatedExtension)
      else if kind == Hello.KEY_SHARE then
        if length < 2 then Err(MalformedKeyShare) else Ok(Some(ReadU16(body, position + 4)))
      else GroupRead(body, position + 4 + length, end)
    else
      Ok(None)
  }

  function WithRetry(group: Result<Option<uint16>, TlsError>, isRetryRequest: bool): Result<Selection, TlsError> {
    match group
    case Err(e) => Err(e)
    case Ok(g) => Ok(Selection(g, isRetryRequest))
  }

  function SelectionRead(payload: bytes): Result<Selection, TlsError> {
    if |payload| < 4 || payload[0] != SERVER_HELLO then Err(MalformedServerHello) else
    var body := payload[4..];
    if |body| < 38 then Err(TruncatedServerHello) else
    var position := 35 + body[34] as int + 3;
    if position + 2 > |body| then Err(TruncatedExtensions) else
    var declared := position + 2 + ReadU16(body, position) as int;
    var end := if declared < |body| then declared else |body|;
    WithRetry(GroupRead(body, position + 2, end), body[2..34] == HRR_RANDOM)
  }

  function ChoiceRead(payload: bytes): Result<Choice, TlsError> {
    if |payload| < 4 || payload[0] != SERVER_HELLO then Err(MalformedServerHello) else
    var body := payload[4..];
    if |body| < 38 then Err(TruncatedServerHello) else
    var position := 35 + body[34] as int;
    if position + 2 > |body| then Err(TruncatedCipher) else
    Ok(Choice(ReadU16(body, 0), ReadU16(body, position)))
  }

  function CurveRead(payload: bytes, position: nat): Result<Option<uint16>, TlsError>
    decreases |payload| - position
  {
    if position + 4 <= |payload| then
      var end := position + 4 + ReadU24(payload, position + 1);
      if end > |payload| then Err(TruncatedHandshake)
      else if payload[position] == SERVER_KEY_EXCHANGE && end - position >= 7
          && payload[position + 4] == NAMED_CURVE then
        Ok(Some(ReadU16(payload, position + 5)))
      else CurveRead(payload, end)
    else
      Ok(None)
  }

  // ------------------------------------------------------------- round trip

  datatype ServerHello = ServerHello(version: uint16, random: bytes, session: bytes, suite: uint16, compression: byte,
      extensions: seq<Extension>)

  ghost predicate ValidHello(h: ServerHello) {
    && |h.random| == 32 && |h.session| < 256
    && (forall i :: 0 <= i < |h.extensions| ==> |h.extensions[i].body| < 0x1_0000)
    && |Hello.EncodeExtensions(h.extensions)| < 0x1_0000
  }

  ghost function EncodeBody(h: ServerHello): bytes
    requires ValidHello(h)
  {
    var extensions := Hello.EncodeExtensions(h.extensions);
    U16(h.version) + h.random + [|h.session|] + h.session + U16(h.suite) + [h.compression]
    + U16(|extensions|) + extensions
  }

  /** What the first key share says: no group, a group, or a share too short to hold one. */
  function FirstShare(es: seq<Extension>): Result<Option<uint16>, TlsError> {
    if es == [] then Ok(None)
    else if es[0].kind != 51 then FirstShare(es[1..])
    else if |es[0].body| < 2 then Err(MalformedKeyShare)
    else Ok(Some(ReadU16(es[0].body, 0)))
  }

  lemma ExtensionFields(body: bytes, p: nat, e: Extension, rest: bytes)
    requires |e.body| < 0x1_0000 && At(body, p, Hello.EncodeExtension(e.kind, e.body) + rest)
    ensures p + 4 + |e.body| <= |body| && At(body, p + 4 + |e.body|, rest)
    ensures ReadU16(body, p) == e.kind && ReadU16(body, p + 2) == |e.body|
    ensures |e.body| >= 2 ==> ReadU16(body, p + 4) == ReadU16(e.body, 0)
  {
    AtSplit(body, p, Hello.EncodeExtension(e.kind, e.body), rest);
    Hello.TaggedFields(body, p, e.kind, e.body);
    assert At(body, p + 4, e.body);
    if |e.body| >= 2 {
      AtByte(body, p + 4, e.body, 0);
      AtByte(body, p + 4, e.body, 1);
    }
  }

  lemma {:induction false} GroupRoundTrip(body: bytes, p: nat, es: seq<Extension>)
    requires forall i :: 0 <= i < |es| ==> |es[i].body| < 0x1_0000
    requires At(body, p, Hello.EncodeExtensions(es))
    ensures GroupRead(body, p, p + |Hello.EncodeExtensions(es)|) == FirstShare(es)
    decreases es
  {
    hide At, ReadU16;
    if es != [] {
      ExtensionFields(body, p, es[0], Hello.EncodeExtensions(es[1..]));
      if es[0].kind != Hello.KEY_SHARE {
        GroupRoundTrip(body, p + 4 + |es[0].body|, es[1..]);
      }
    }
  }

  lemma BodyFields(h: ServerHello, body: bytes)
    requires ValidHello(h) && At(body, 0, EncodeBody(h))
    ensures var p := 38 + |h.session|;
            var extensions := Hello.EncodeExtensions(h.extensions);
            && p + 2 + |extensions| <= |body| && At(body, p + 2, extensions)
            && ReadU16(body, 0) == h.version && body[2..34] == h.random && body[34] == |h.session|
            && ReadU16(body, p - 3) == h.suite && ReadU16(body, p) == |extensions|
  {
    hide ReadU16;
    var extensions := Hello.EncodeExtensions(h.extensions);
    var a := U16(h.version) + h.random;
    var b := a + [|h.session|] + h.session;
    var c := b + U16(h.suite) + [h.compression];
    AtSplit(body, 0, c + U16(|extensions|), extensions);
    AtSplit(body, 0, c, U16(|extensions|));
    AtSplit(body, 0, b + U16(h.suite), [h.compression]);
    AtSplit(body, 0, b, U16(h.suite));
    AtSplit(body, 0, a + [|h.session|], h.session);
    AtSplit(body, 0, a, [|h.session|]);
    AtSplit(body, 0, U16(h.version), h.random);
    AtU16(body, 0, h.version);
    AtU16(body, 35 + |h.session|, h.suite);
    AtU16(body, 38 + |h.session|, |extensions|);
    AtByte(body, 34, [|h.session|], 0);
  }

  /** Any ServerHello behind any handshake header, with anything after it: the group of its first
      key share, whether it is a HelloRetryRequest, and the version and suite it chose. */
  lemma ServerHelloRoundTrip(h: ServerHello, length: bytes, trailing: bytes, payload: bytes)
    requires ValidHello(h) && |length| == 3
    requires payload == [2] + length + (EncodeBody(h) + trailing)
    ensures SelectionRead(payload) == WithRetry(FirstShare(h.extensions), h.random == HRR_RANDOM)
    ensures ChoiceRead(payload) == Ok(Choice(h.version, h.suite))
  {
    hide ReadU16, GroupRead, FirstShare, EncodeBody;
    var body := EncodeBody(h) + trailing;
    assert payload[4..] == body;
    assert At(body, 0, EncodeBody(h));
    BodyFields(h, body);
    GroupRoundTrip(body, 40 + |h.session|, h.extensions);
  }

  /** The shorter read never fails on bytes the longer one accepts. */
  lemma ChoiceWhereSelection(payload: bytes)
    requires SelectionRead(payload).Ok?
    ensures ChoiceRead(payload).Ok?
  {
  }

  // ------------------------------------------------------- TLS 1.2 handshake

  datatype Handshake = Handshake(kind: byte, body: bytes)

  function EncodeHandshakes(ms: seq<Handshake>): bytes
    requires forall i :: 0 <= i < |ms| ==> |ms[i].body| < 0x100_0000
  {
    if ms == [] then [] else [ms[0].kind] + U24(|ms[0].body|) + ms[0].body + EncodeHandshakes(ms[1..])
  }

  predicate NamesCurve(m: Handshake) {
    m.kind == 12 && |m.body| >= 3 && m.body[0] == 3
  }

  function FirstCurve(ms: seq<Handshake>): Option<uint16> {
    if ms == [] then None
    else if NamesCurve(ms[0]) then Some(ReadU16(ms[0].body, 1))
    else FirstCurve(ms[1..])
  }

  lemma HandshakeFields(payload: bytes, p: nat, m: Handshake)
    requires |m.body| < 0x100_0000 && At(payload, p, [m.kind] + U24(|m.body|) + m.body)
    ensures p + 4 + |m.body| <= |payload|
    ensures payload[p] == m.kind && ReadU24(payload, p + 1) == |m.body| && At(payload, p + 4, m.body)
  {
    AtSplit(payload, p, [m.kind] + U24(|m.body|), m.body);
    AtSplit(payload, p, [m.kind], U24(|m.body|));
    AtByte(payload, p, [m.kind], 0);
    AtU24(payload, p + 1, |m.body|);
  }

  /** Over any whole messages, followed by too little to be another, the curve is the one of the
      first key exchange that names a curve. */
  lemma {:induction false} CurveRoundTrip(payload: bytes, p: nat, ms: seq<Handshake>)
    requires forall i :: 0 <= i < |ms| ==> |ms[i].body| < 0x100_0000
    requires At(payload, p, EncodeHandshakes(ms)) && |payload| < p + |EncodeHandshakes(ms)| + 4
    ensures CurveRead(payload, p) == Ok(FirstCurve(ms))
    decreases ms
  {
    hide ReadU24;
    if ms != [] {
      var m := ms[0];
      AtSplit(payload, p, [m.kind] + U24(|m.body|) + m.body, EncodeHandshakes(ms[1..]));
      HandshakeFields(payload, p, m);
      if |m.body| >= 3 {
        AtByte(payload, p + 4, m.body, 0);
        AtByte(payload, p + 4, m.body, 1);
        AtByte(payload, p + 4, m.body, 2);
      }
      if !NamesCurve(m) {
        CurveRoundTrip(payload, p + 4 + |m.body|, ms[1..]);
      }
    }
  }

  // ----------------------------------------------------- what is not whole

  /** The random that marks a HelloRetryRequest, in words. */
  lemma RetryRandom()
    ensures HRR_RANDOM == U32(0xcf21ad74) + U32(0xe59a6111) + U32(0xbe1d8c02) + U32(0x1e65b891)
                          + U32(0xc2a21116) + U32(0x7abb8c5e) + U32(0x079e09e2) + U32(0xc8a8339c)
  {
    hide U32;
    Word(0xcf21ad74, 0xcf, 0x21, 0xad, 0x74);
    Word(0xe59a6111, 0xe5, 0x9a, 0x61, 0x11);
    Word(0xbe1d8c02, 0xbe, 0x1d, 0x8c, 0x02);
    Word(0x1e65b891, 0x1e, 0x65, 0xb8, 0x91);
    Word(0xc2a21116, 0xc2, 0xa2, 0x11, 0x16);
    Word(0x7abb8c5e, 0x7a, 0xbb, 0x8c, 0x5e);
    Word(0x079e09e2, 0x07, 0x9e, 0x09, 0xe2);
    Word(0xc8a8339c, 0xc8, 0xa8, 0x33, 0x9c);
  }

  lemma Word(n: nat, a: byte, b: byte, c: byte, d: byte)
    requires n == a as int * 0x100_0000 + b as int * 0x1_0000 + c as int * 0x100 + d as int
    ensures U32(n) == [a, b, c, d]
  {
    assert n / 0x1_0000 == a as int * 0x100 + b as int && n % 0x1_0000 == c as int * 0x100 + d as int;
  }

  /** A ServerHello is refused for not being one, for a header that is not whole, and for what does not follow its
      session id: two bytes of suite for the choice, five of suite, compression and length for the group. */
  lemma ServerHelloRefused(payload: bytes)
    ensures |payload| < 4 || payload[0] != 2 ==>
              SelectionRead(payload) == Err(MalformedServerHello) && ChoiceRead(payload) == Err(MalformedServerHello)
    ensures |payload| >= 4 && payload[0] == 2 && |payload| < 42 ==>
              SelectionRead(payload) == Err(TruncatedServerHello) && ChoiceRead(payload) == Err(TruncatedServerHello)
    ensures |payload| >= 42 && payload[0] == 2 ==>
              && (|payload| < 44 + payload[38] as int ==> SelectionRead(payload) == Err(TruncatedExtensions))
              && (|payload| < 41 + payload[38] as int ==> ChoiceRead(payload) == Err(TruncatedCipher))
              && (|payload| >= 41 + payload[38] as int ==> ChoiceRead(payload).Ok?)
  {
    hide GroupRead, ReadU16;
  }

  /** Behind any extensions that are no key shares: the end or fewer than 4 bytes before it mean no group, and an
      extension past the end is truncated, whatever its type. */
  lemma {:induction false} ExtensionsEnd(body: bytes, p: nat, es: seq<Extension>, end: nat)
    requires forall i :: 0 <= i < |es| ==> |es[i].body| < 0x1_0000 && es[i].kind != 51
    requires At(body, p, Hello.EncodeExtensions(es)) && p + |Hello.EncodeExtensions(es)| <= end <= |body|
    ensures var q := p + |Hello.EncodeExtensions(es)|;
            && (q + 4 > end ==> GroupRead(body, p, end) == Ok(None))
            && (q + 4 <= end && q + 4 + body[q + 2] as int * 256 + body[q + 3] as int > end ==>
                  GroupRead(body, p, end) == Err(TruncatedExtension))
    decreases es
  {
    hide At, Hello.EncodeExtensions, ReadU16;
    if es == [] {
      GroupEnd(body, p, end);
    } else {
      Hello.ExtensionFirst(body, p, es);
      ExtensionsEnd(body, p + 4 + |es[0].body|, es[1..], end);
    }
  }

  lemma GroupEnd(body: bytes, p: nat, end: nat)
    requires end <= |body|
    ensures |Hello.EncodeExtensions([])| == 0
    ensures p + 4 > end ==> GroupRead(body, p, end) == Ok(None)
    ensures p + 4 <= end && p + 4 + body[p + 2] as int * 256 + body[p + 3] as int > end ==>
              GroupRead(body, p, end) == Err(TruncatedExtension)
  {
  }

  /** Behind any messages that name no curve, one longer than what is left is truncated, and fewer than 4 bytes are not
      one. */
  lemma {:induction false} MessagesEnd(payload: bytes, p: nat, ms: seq<Handshake>)
    requires forall i :: 0 <= i < |ms| ==> |ms[i].body| < 0x100_0000 && !NamesCurve(ms[i])
    requires At(payload, p, EncodeHandshakes(ms))
    ensures var q := p + |EncodeHandshakes(ms)|;
            && (q + 4 > |payload| ==> CurveRead(payload, p) == Ok(None))
            && (q + 4 <= |payload| && q + 4 + ReadU24(payload, q + 1) > |payload| ==>
                  CurveRead(payload, p) == Err(TruncatedHandshake))
    decreases ms
  {
    hide ReadU24;
    if ms != [] {
      var m := ms[0];
      var first := [m.kind] + U24(|m.body|) + m.body;
      AtSplit(payload, p, first, EncodeHandshakes(ms[1..]));
      HandshakeFields(payload, p, m);
      if |m.body| >= 3 {
        AtByte(payload, p + 4, m.body, 0);
      }
      MessagesEnd(payload, p + 4 + |m.body|, ms[1..]);
    }
  }

  // ------------------------------------------------------------------- loops

  method SelectedGroup(payload: bytes) returns (r: Result<Selection, TlsError>)
    ensures r == SelectionRead(payload)
  {
    if |payload| < 4 || payload[0] != SERVER_HELLO {
      return Err(MalformedServerHello);
    }
    var body := payload[4..];
    if |body| < 38 {
      return Err(TruncatedServerHello);
    }
    var isRetryRequest := body[2..34] == HRR_RANDOM;
    var position := 35 + body[34] as int + 3;
    if position + 2 > |body| {
      return Err(TruncatedExtensions);
    }
    var size := ReadU16(body, position) as int;
    position := position + 2;
    var end := if position + size < |body| then position + size else |body|;
    while position + 4 <= end
      invariant 0 <= position
      invariant SelectionRead(payload) == WithRetry(GroupRead(body, position, end), isRetryRequest)
      decreases end - position
    {
      var kind, length := ReadU16(body, position), ReadU16(body, position + 2) as int;
      position := position + 4;
      if position + length > end {
        return Err(TruncatedExtension);
      }
      if kind == Hello.KEY_SHARE {
        if length < 2 {
          return Err(MalformedKeyShare);
        }
        return Ok(Selection(Some(ReadU16(body, position)), isRetryRequest));
      }
      position := position + length;
    }
    return Ok(Selection(None, isRetryRequest));
  }

  method Tls12NamedCurve(payload: bytes) returns (r: Result<Option<uint16>, TlsError>)
    ensures r == CurveRead(payload, 0)
  {
    var position := 0;
    while position + 4 <= |payload|
      invariant 0 <= position
      invariant CurveRead(payload, 0) == CurveRead(payload, position)
      decreases |payload| - position
    {
      var kind, length := payload[position], ReadU24(payload, position + 1);
      if |payload| - position - 4 < length {
        return Err(TruncatedHandshake);
      }
      var body := payload[position + 4..position + 4 + length];
      if kind == SERVER_KEY_EXCHANGE && |body| >= 3 && body[0] == NAMED_CURVE {
        return Ok(Some(ReadU16(body, 1)));
      }
      position := position + 4 + length;
    }
    return Ok(None);
  }
}
