/** The ClientHello messages the TLS probe writes, and a reader of the format to hold them to. */
module TlsClientHello {
  import opened Bytes

  const SERVER_NAME: uint16 := 0
  const SUPPORTED_GROUPS: uint16 := 10
  const POINT_FORMATS: uint16 := 11
  const SIGNATURES: uint16 := 13
  const SUPPORTED_VERSIONS: uint16 := 43
  const KEY_SHARE: uint16 := 51

  type Random = r: bytes | |r| == 32 witness seq(32, _ => 0)

  datatype Extension = Extension(kind: uint16, body: bytes)

  datatype Share = Share(group: uint16, key: bytes)

  /** What a ClientHello says, apart from its lengths. */
  datatype Hello = Hello(recordVersion: uint16, random: bytes, session: bytes, suites: seq<uint16>,
      extensions: seq<Extension>)

  // ---------------------------------------------------------------- writing

  function EncodeExtension(kind: uint16, body: bytes): bytes
    requires |body| < 0x1_0000
  {
    U16(kind) + U16(|body|) + body
  }

  function U16s(codes: seq<uint16>): (r: bytes)
    ensures |r| == 2 * |codes|
  {
    if codes == [] then [] else U16(codes[0]) + U16s(codes[1..])
  }

  ghost predicate SharesFit(shares: seq<Share>) {
    forall i :: 0 <= i < |shares| ==> |shares[i].key| < 0x1_0000
  }

  function ShareBytes(shares: seq<Share>): bytes
    requires SharesFit(shares)
  {
    if shares == [] then [] else
      U16(shares[0].group) + U16(|shares[0].key|) + shares[0].key + ShareBytes(shares[1..])
  }

  function ServerNameBody(name: bytes): bytes
    requires |name| + 3 < 0x1_0000
  {
    U16(|name| + 3) + [0] + U16(|name|) + name
  }

  function GroupsBody(codes: seq<uint16>): bytes
    requires 2 * |codes| < 0x1_0000
  {
    U16(2 * |codes|) + U16s(codes)
  }

  function SharesBody(shares: seq<Share>): bytes
    requires SharesFit(shares) && |ShareBytes(shares)| < 0x1_0000
  {
    U16(|ShareBytes(shares)|) + ShareBytes(shares)
  }

  function Record(version: uint16, body: bytes): bytes
    requires 4 + |body| < 0x1_0000
  {
    var handshake := [1] + U24(|body|) + body;
    [0x16] + U16(version) + U16(|handshake|) + handshake
  }

  const TLS13_SUITES: seq<uint16> := [0x1301, 0x1302, 0x1303]
  const TLS12_SUITES: seq<uint16> := [0xc02f, 0xc02b, 0xc013, 0xc014]

  function ClientHello(name: bytes, codes: seq<uint16>, tls13: bool, shares: seq<Share>, random: Random,
                       session: Random): bytes
    requires SharesFit(shares)
    requires (if tls13 then 123 + |ShareBytes(shares)| else 112) + |name| + 2 * |codes| < 0x1_0000
  {
    var common := EncodeExtension(0, ServerNameBody(name)) + EncodeExtension(10, GroupsBody(codes))
                  + EncodeExtension(13, U16(6) + (U16(0x0403) + U16(0x0804) + U16(0x0401)));
    var extensions := if tls13 then common + EncodeExtension(43, [2] + U16(0x0304))
        + EncodeExtension(51, SharesBody(shares))
                      else common;
    var body := U16(0x0303) + random + [32] + session
                + U16(if tls13 then 6 else 8)
                + (if tls13 then U16(0x1301) + U16(0x1302) + U16(0x1303)
                   else U16(0xc02f) + U16(0xc02b) + U16(0xc013) + U16(0xc014))
                + [1, 0] + U16(|extensions|) + extensions;
    Record(0x0301, body)
  }

  function LegacyClientHello(name: bytes, recordVersion: uint16, codes: seq<uint16>, random: Random): bytes
    requires 92 + |name| + 2 * |codes| < 0x1_0000
  {
    var curves: seq<uint16> := [0x001D, 0x0017, 0x0018, 0x0019];
    var extensions := EncodeExtension(0, ServerNameBody(name)) + EncodeExtension(10, GroupsBody(curves))
                      + EncodeExtension(11, [1, 0])
                      + EncodeExtension(13, U16(12)
                          + (U16(0x0401) + U16(0x0501) + U16(0x0601) + U16(0x0403) + U16(0x0201) + U16(0x0202)));
    var body := U16(0x0303) + random + [0]
                + U16(2 * |codes|) + U16s(codes)
                + [1, 0] + U16(|extensions|) + extensions;
    Record(recordVersion, body)
  }

  // ---------------------------------------------------------------- reading

  function U16sRead(data: bytes, p: nat, end: nat): Option<seq<uint16>>
    requires end <= |data|
    decreases end - p
  {
    if p == end then Some([])
    else if p + 2 > end then None
    else
      match U16sRead(data, p + 2, end)
      case None => None
      case Some(rest) => Some([ReadU16(data, p)] + rest)
  }

  function ExtensionsRead(data: bytes, p: nat, end: nat): Option<seq<Extension>>
    requires end <= |data|
    decreases end - p
  {
    if p == end then Some([])
    else if p + 4 > end then None
    else
      var next := p + 4 + ReadU16(data, p + 2) as int;
      if next > end then None else
      match ExtensionsRead(data, next, end)
      case None => None
      case Some(rest) => Some([Extension(ReadU16(data, p), data[p + 4..next])] + rest)
  }

  function SharesRead(data: bytes, p: nat, end: nat): Option<seq<Share>>
    requires end <= |data|
    decreases end - p
  {
    if p == end then Some([])
    else if p + 4 > end then None
    else
      var next := p + 4 + ReadU16(data, p + 2) as int;
      if next > end then None else
      match SharesRead(data, next, end)
      case None => None
      case Some(rest) => Some([Share(ReadU16(data, p), data[p + 4..next])] + rest)
  }

  /** Accepts a record only if every length in it is exactly the length of what it announces. */
  function HelloRead(data: bytes): Option<Hello> {
    if |data| < 44 || data[0] != 0x16 || ReadU16(data, 3) as int != |data| - 5 then None
    else if data[5] != 1 || ReadU24(data, 6) != |data| - 9 || ReadU16(data, 9) != 0x0303 then None
    else
      var p := 44 + data[43] as int;
      if p + 2 > |data| then None else
      var q := p + 2 + ReadU16(data, p) as int;
      if q + 4 > |data| || data[q] != 1 || data[q + 1] != 0
          || ReadU16(data, q + 2) as int != |data| - q - 4 then None else
      match U16sRead(data, p + 2, q)
      case None => None
      case Some(suites) =>
        match ExtensionsRead(data, q + 4, |data|)
        case None => None
        case Some(extensions) =>
          Some(Hello(ReadU16(data, 1), data[11..43], data[44..p], suites, extensions))
  }

  function BodyOf(extensions: seq<Extension>, kind: uint16): Option<bytes> {
    if extensions == [] then None
    else if extensions[0].kind == kind then Some(extensions[0].body)
    else BodyOf(extensions[1..], kind)
  }

  function GroupsIn(h: Hello): Option<seq<uint16>> {
    match BodyOf(h.extensions, SUPPORTED_GROUPS)
    case None => None
    case Some(body) =>
      if |body| < 2 || ReadU16(body, 0) as int != |body| - 2 then None else U16sRead(body, 2, |body|)
  }

  function SharesIn(h: Hello): Option<seq<Share>> {
    match BodyOf(h.extensions, KEY_SHARE)
    case None => None
    case Some(body) =>
      if |body| < 2 || ReadU16(body, 0) as int != |body| - 2 then None else SharesRead(body, 2, |body|)
  }

  function ServerNameIn(h: Hello): Option<bytes> {
    match BodyOf(h.extensions, SERVER_NAME)
    case None => None
    case Some(body) =>
      if |body| < 5 || ReadU16(body, 0) as int != |body| - 2 || body[2] != 0
          || ReadU16(body, 3) as int != |body| - 5 then None
      else Some(body[5..])
  }

  // ------------------------------------------------------------- round trip

  function EncodeExtensions(es: seq<Extension>): bytes
    requires forall i :: 0 <= i < |es| ==> |es[i].body| < 0x1_0000
  {
    if es == [] then [] else EncodeExtension(es[0].kind, es[0].body) + EncodeExtensions(es[1..])
  }

  function EncodeHello(h: Hello): bytes
    requires |h.random| == 32 && |h.session| < 256 && 2 * |h.suites| < 0x1_0000
    requires forall i :: 0 <= i < |h.extensions| ==> |h.extensions[i].body| < 0x1_0000
    requires 45 + |h.session| + 2 * |h.suites| + |EncodeExtensions(h.extensions)| < 0x1_0000
  {
    var extensions := EncodeExtensions(h.extensions);
    Record(h.recordVersion,
           U16(0x0303) + h.random + [|h.session|] + h.session + U16(2 * |h.suites|) + U16s(h.suites)
           + [1, 0] + U16(|extensions|) + extensions)
  }

  lemma {:induction false} U16sRoundTrip(data: bytes, p: nat, codes: seq<uint16>)
    requires At(data, p, U16s(codes))
    ensures U16sRead(data, p, p + 2 * |codes|) == Some(codes)
    decreases codes
  {
    if codes != [] {
      AtSplit(data, p, U16(codes[0]), U16s(codes[1..]));
      AtU16(data, p, codes[0]);
      U16sRoundTrip(data, p + 2, codes[1..]);
      assert codes == [codes[0]] + codes[1..];
    }
  }

  lemma TaggedFields(data: bytes, p: nat, kind: uint16, body: bytes)
    requires |body| < 0x1_0000 && At(data, p, U16(kind) + U16(|body|) + body)
    ensures p + 4 + |body| <= |data|
    ensures ReadU16(data, p) == kind && ReadU16(data, p + 2) == |body| && data[p + 4..p + 4 + |body|] == body
  {
    AtSplit(data, p, U16(kind) + U16(|body|), body);
    AtSplit(data, p, U16(kind), U16(|body|));
    AtU16(data, p, kind);
    AtU16(data, p + 2, |body|);
  }

  lemma {:induction false} ExtensionsRoundTrip(data: bytes, p: nat, es: seq<Extension>)
    requires forall i :: 0 <= i < |es| ==> |es[i].body| < 0x1_0000
    requires At(data, p, EncodeExtensions(es))
    ensures ExtensionsRead(data, p, p + |EncodeExtensions(es)|) == Some(es)
    decreases es
  {
    if es != [] {
      ExtensionFirst(data, p, es);
      hide At, ReadU16, EncodeExtensions;
      var next := p + 4 + |es[0].body|;
      ExtensionsRoundTrip(data, next, es[1..]);
      assert ExtensionsRead(data, p, p + |EncodeExtensions(es)|)
             == Some([Extension(es[0].kind, data[p + 4..next])] + es[1..]);
      assert es == [es[0]] + es[1..];
    }
  }

  lemma ExtensionFirst(data: bytes, p: nat, es: seq<Extension>)
    requires es != [] && forall i :: 0 <= i < |es| ==> |es[i].body| < 0x1_0000
    requires At(data, p, EncodeExtensions(es))
    ensures p + |EncodeExtensions(es)| <= |data|
            && |EncodeExtensions(es)| == 4 + |es[0].body| + |EncodeExtensions(es[1..])|
    ensures At(data, p + 4 + |es[0].body|, EncodeExtensions(es[1..]))
    ensures ReadU16(data, p) == es[0].kind && ReadU16(data, p + 2) == |es[0].body|
    ensures data[p + 4..p + 4 + |es[0].body|] == es[0].body
  {
    AtBound(data, p, EncodeExtensions(es));
    AtSplit(data, p, EncodeExtension(es[0].kind, es[0].body), EncodeExtensions(es[1..]));
    TaggedFields(data, p, es[0].kind, es[0].body);
  }

  lemma {:induction false} SharesRoundTrip(data: bytes, p: nat, shares: seq<Share>)
    requires SharesFit(shares) && At(data, p, ShareBytes(shares))
    ensures SharesRead(data, p, p + |ShareBytes(shares)|) == Some(shares)
    decreases shares
  {
    if shares != [] {
      ShareFirst(data, p, shares);
      hide At, ReadU16, ShareBytes, SharesFit;
      var next := p + 4 + |shares[0].key|;
      SharesRoundTrip(data, next, shares[1..]);
      assert SharesRead(data, p, p + |ShareBytes(shares)|)
             == Some([Share(shares[0].group, data[p + 4..next])] + shares[1..]);
      assert shares == [shares[0]] + shares[1..];
    }
  }

  lemma ShareFirst(data: bytes, p: nat, shares: seq<Share>)
    requires shares != [] && SharesFit(shares) && At(data, p, ShareBytes(shares))
    ensures SharesFit(shares[1..])
    ensures p + |ShareBytes(shares)| <= |data|
            && |ShareBytes(shares)| == 4 + |shares[0].key| + |ShareBytes(shares[1..])|
    ensures At(data, p + 4 + |shares[0].key|, ShareBytes(shares[1..]))
    ensures ReadU16(data, p) == shares[0].group && ReadU16(data, p + 2) == |shares[0].key|
    ensures data[p + 4..p + 4 + |shares[0].key|] == shares[0].key
  {
    var first := U16(shares[0].group) + U16(|shares[0].key|) + shares[0].key;
    AtBound(data, p, ShareBytes(shares));
    AtSplit(data, p, first, ShareBytes(shares[1..]));
    TaggedFields(data, p, shares[0].group, shares[0].key);
  }

  lemma RecordFields(version: uint16, body: bytes, data: bytes)
    requires 4 + |body| < 0x1_0000 && data == Record(version, body)
    ensures |data| == 9 + |body| && data[0] == 0x16 && data[5] == 1
    ensures ReadU16(data, 1) == version && ReadU16(data, 3) as int == |data| - 5 && ReadU24(data, 6) == |data| - 9
    ensures At(data, 9, body)
  {
    var length := 4 + |body|;
    var handshake := [1] + U24(|body|) + body;
    AtWhole(data);
    AtSplit(data, 0, [0x16] + U16(version) + U16(length), handshake);
    AtSplit(data, 0, [0x16] + U16(version), U16(length));
    AtSplit(data, 0, [0x16], U16(version));
    AtU16(data, 1, version);
    AtU16(data, 3, length);
    AtSplit(data, 5, [1] + U24(|body|), body);
    AtSplit(data, 5, [1], U24(|body|));
    AtByte(data, 5, [1], 0);
    AtU24(data, 6, |body|);
  }

  lemma BodyFields(data: bytes, random: bytes, session: bytes, suites: bytes, extensions: bytes)
    requires |random| == 32 && |session| < 256 && |suites| < 0x1_0000 && |extensions| < 0x1_0000
    requires At(data, 9, U16(0x0303) + random + [|session|] + session + U16(|suites|) + suites
                         + [1, 0] + U16(|extensions|) + extensions)
    ensures var p := 44 + |session|;
            var q := p + 2 + |suites|;
            && q + 4 + |extensions| <= |data|
            && ReadU16(data, 9) == 0x0303 && data[11..43] == random && data[43] == |session| && data[44..p] == session
            && ReadU16(data, p) == |suites| && At(data, p + 2, suites)
            && data[q] == 1 && data[q + 1] == 0 && ReadU16(data, q + 2) == |extensions| && At(data, q + 4, extensions)
  {
    hide ReadU16;
    var a := U16(0x0303) + random;
    var b := a + [|session|] + session;
    var c := b + U16(|suites|) + suites;
    AtSplit(data, 9, c + [1, 0] + U16(|extensions|), extensions);
    AtSplit(data, 9, c + [1, 0], U16(|extensions|));
    AtSplit(data, 9, c, [1, 0]);
    AtSplit(data, 9, b + U16(|suites|), suites);
    AtSplit(data, 9, b, U16(|suites|));
    AtSplit(data, 9, a + [|session|], session);
    AtSplit(data, 9, a, [|session|]);
    AtSplit(data, 9, U16(0x0303), random);
    AtU16(data, 9, 0x0303);
    AtU16(data, 44 + |session|, |suites|);
    AtU16(data, 48 + |session| + |suites|, |extensions|);
    AtByte(data, 43, [|session|], 0);
    AtByte(data, 46 + |session| + |suites|, [1, 0], 0);
    AtByte(data, 46 + |session| + |suites|, [1, 0], 1);
  }

  /** Every length written is the length of what it announces, and everything comes back. */
  lemma HelloRoundTrip(h: Hello, data: bytes)
    requires |h.random| == 32 && |h.session| < 256 && 2 * |h.suites| < 0x1_0000
    requires forall i :: 0 <= i < |h.extensions| ==> |h.extensions[i].body| < 0x1_0000
    requires 45 + |h.session| + 2 * |h.suites| + |EncodeExtensions(h.extensions)| < 0x1_0000
    requires data == EncodeHello(h)
    ensures HelloRead(data) == Some(h)
  {
    hide Record, EncodeExtensions, U16s, U16sRead, ExtensionsRead, ReadU16, ReadU24;
    var extensions, suites := EncodeExtensions(h.extensions), U16s(h.suites);
    var body := U16(0x0303) + h.random + [|h.session|] + h.session + U16(|suites|) + suites
                + [1, 0] + U16(|extensions|) + extensions;
    assert |body| == 41 + |h.session| + |suites| + |extensions|;
    RecordFields(h.recordVersion, body, data);
    BodyFields(data, h.random, h.session, suites, extensions);
    U16sRoundTrip(data, 46 + |h.session|, h.suites);
    ExtensionsRoundTrip(data, 50 + |h.session| + |suites|, h.extensions);
  }

  // ----------------------------------------------------- the two builders

  function OfferOf(name: bytes, codes: seq<uint16>, tls13: bool, shares: seq<Share>, random: Random,
                   session: Random): Hello
    requires SharesFit(shares)
    requires (if tls13 then 123 + |ShareBytes(shares)| else 112) + |name| + 2 * |codes| < 0x1_0000
  {
    var common := [Extension(SERVER_NAME, ServerNameBody(name)), Extension(SUPPORTED_GROUPS, GroupsBody(codes)),
                   Extension(SIGNATURES, U16(6) + (U16(0x0403) + U16(0x0804) + U16(0x0401)))];
    Hello(0x0301, random, session, if tls13 then TLS13_SUITES else TLS12_SUITES,
          if tls13 then common + [Extension(SUPPORTED_VERSIONS, [2] + U16(0x0304)),
              Extension(KEY_SHARE, SharesBody(shares))]
          else common)
  }

  function LegacyOfferOf(name: bytes, recordVersion: uint16, codes: seq<uint16>, random: Random): Hello
    requires 92 + |name| + 2 * |codes| < 0x1_0000
  {
    Hello(recordVersion, random, [], codes,
          [Extension(SERVER_NAME, ServerNameBody(name)),
           Extension(SUPPORTED_GROUPS, GroupsBody([0x001D, 0x0017, 0x0018, 0x0019])),
           Extension(POINT_FORMATS, [1, 0]),
           Extension(SIGNATURES, U16(12) + (U16(0x0401) + U16(0x0501) + U16(0x0601) + U16(0x0403) + U16(0x0201)
               + U16(0x0202)))])
  }

  lemma ThreeExtensions(a: Extension, b: Extension, c: Extension)
    requires |a.body| < 0x1_0000 && |b.body| < 0x1_0000 && |c.body| < 0x1_0000
    ensures EncodeExtensions([a, b, c])
         == EncodeExtension(a.kind, a.body) + EncodeExtension(b.kind, b.body) + EncodeExtension(c.kind, c.body)
  {
    hide EncodeExtension;
    var abc, bc, only := [a, b, c], [b, c], [c];
    assert abc[1..] == bc && bc[1..] == only && only[1..] == [];
    assert EncodeExtensions(only) == EncodeExtension(c.kind, c.body);
    assert EncodeExtensions(bc) == EncodeExtension(b.kind, b.body) + EncodeExtensions(only);
    assert EncodeExtensions(abc) == EncodeExtension(a.kind, a.body) + EncodeExtensions(bc);
  }

  lemma {:induction false} EncodeExtensionsAppend(es: seq<Extension>, e: Extension)
    requires forall i :: 0 <= i < |es| ==> |es[i].body| < 0x1_0000
    requires |e.body| < 0x1_0000
    ensures EncodeExtensions(es + [e]) == EncodeExtensions(es) + EncodeExtension(e.kind, e.body)
  {
    hide EncodeExtension;
    if es == [] {
      assert es + [e] == [e] && [e][1..] == [];
    } else {
      EncodeExtensionsAppend(es[1..], e);
      assert (es + [e])[1..] == es[1..] + [e];
    }
  }

  lemma SuitesWritten()
    ensures U16s(TLS13_SUITES) == U16(0x1301) + U16(0x1302) + U16(0x1303)
    ensures U16s(TLS12_SUITES) == U16(0xc02f) + U16(0xc02b) + U16(0xc013) + U16(0xc014)
  {
    var s, t := TLS13_SUITES, TLS12_SUITES;
    assert s[1..] == [0x1302, 0x1303] && s[1..][1..] == [0x1303] && s[1..][1..][1..] == [];
    assert t[1..] == [0xc02b, 0xc013, 0xc014] && t[1..][1..] == [0xc013, 0xc014] && t[1..][1..][1..] == [0xc014]
        && t[1..][1..][1..][1..] == [];
  }

  lemma OfferWritten(name: bytes, codes: seq<uint16>, tls13: bool, shares: seq<Share>, random: Random, session: Random)
    requires SharesFit(shares)
    requires (if tls13 then 123 + |ShareBytes(shares)| else 112) + |name| + 2 * |codes| < 0x1_0000
    ensures var h := OfferOf(name, codes, tls13, shares, random, session);
            && (forall i :: 0 <= i < |h.extensions| ==> |h.extensions[i].body| < 0x1_0000)
            && 45 + |h.session| + 2 * |h.suites| + |EncodeExtensions(h.extensions)| < 0x1_0000
            && ClientHello(name, codes, tls13, shares, random, session) == EncodeHello(h)
  {
    hide Record, EncodeExtensions;
    var h := OfferOf(name, codes, tls13, shares, random, session);
    var es := h.extensions;
    ThreeExtensions(es[0], es[1], es[2]);
    assert es[..3] == [es[0], es[1], es[2]];
    if tls13 {
      EncodeExtensionsAppend(es[..3], es[3]);
      EncodeExtensionsAppend(es[..4], es[4]);
      assert es[..4] == es[..3] + [es[3]] && es == es[..4] + [es[4]];
    } else {
      assert es == es[..3];
    }
    SuitesWritten();
  }

  lemma LegacyOfferWritten(name: bytes, recordVersion: uint16, codes: seq<uint16>, random: Random)
    requires 92 + |name| + 2 * |codes| < 0x1_0000
    ensures var h := LegacyOfferOf(name, recordVersion, codes, random);
            && (forall i :: 0 <= i < |h.extensions| ==> |h.extensions[i].body| < 0x1_0000)
            && 45 + |h.session| + 2 * |h.suites| + |EncodeExtensions(h.extensions)| < 0x1_0000
            && LegacyClientHello(name, recordVersion, codes, random) == EncodeHello(h)
  {
    hide Record, EncodeExtensions;
    var h := LegacyOfferOf(name, recordVersion, codes, random);
    var es := h.extensions;
    ThreeExtensions(es[0], es[1], es[2]);
    assert es[..3] == [es[0], es[1], es[2]];
    EncodeExtensionsAppend(es[..3], es[3]);
    assert es == es[..3] + [es[3]];
    assert U16(0x0303) + random + [0] + [] == U16(0x0303) + random + [0];
  }

  lemma GroupsRoundTrip(codes: seq<uint16>)
    requires 2 * |codes| < 0x1_0000
    ensures var body := GroupsBody(codes);
            |body| >= 2 && ReadU16(body, 0) as int == |body| - 2 && U16sRead(body, 2, |body|) == Some(codes)
  {
    AtWhole(GroupsBody(codes));
    AtSplit(GroupsBody(codes), 0, U16(2 * |codes|), U16s(codes));
    AtU16(GroupsBody(codes), 0, 2 * |codes|);
    U16sRoundTrip(GroupsBody(codes), 2, codes);
  }

  lemma SharesBodyRoundTrip(shares: seq<Share>)
    requires SharesFit(shares) && |ShareBytes(shares)| < 0x1_0000
    ensures var body := SharesBody(shares);
            |body| >= 2 && ReadU16(body, 0) as int == |body| - 2 && SharesRead(body, 2, |body|) == Some(shares)
  {
    hide SharesRead, ReadU16;
    var size := |ShareBytes(shares)|;
    AtWhole(SharesBody(shares));
    AtSplit(SharesBody(shares), 0, U16(size), ShareBytes(shares));
    AtU16(SharesBody(shares), 0, size);
    SharesRoundTrip(SharesBody(shares), 2, shares);
  }

  lemma ServerNameRoundTrip(name: bytes)
    requires |name| + 3 < 0x1_0000
    ensures var body := ServerNameBody(name);
            && |body| >= 5 && ReadU16(body, 0) as int == |body| - 2 && body[2] == 0
            && ReadU16(body, 3) as int == |body| - 5 && body[5..] == name
  {
  }

  /** A hello that offers this name and these groups, key shares and suites. */
  ghost predicate Offers(r: Option<Hello>, recordVersion: uint16, name: bytes, groups: seq<uint16>,
                         shares: Option<seq<Share>>,
                         suites: seq<uint16>, random: bytes, session: bytes) {
    && r.Some? && ServerNameIn(r.value) == Some(name) && GroupsIn(r.value) == Some(groups)
        && SharesIn(r.value) == shares
    && r.value.suites == suites && r.value.random == random && r.value.session == session
        && r.value.recordVersion == recordVersion
  }

  /** Reading back what a capability probe sends gives exactly the hello it means, with no extension more or less,
      and so the name, the groups, the key shares and the suites it was asked to offer. */
  lemma ClientHelloRoundTrip(name: bytes, codes: seq<uint16>, tls13: bool, shares: seq<Share>, random: Random,
                             session: Random)
    requires SharesFit(shares)
    requires (if tls13 then 123 + |ShareBytes(shares)| else 112) + |name| + 2 * |codes| < 0x1_0000
    ensures HelloRead(ClientHello(name, codes, tls13, shares, random, session))
         == Some(OfferOf(name, codes, tls13, shares, random, session))
    ensures Offers(HelloRead(ClientHello(name, codes, tls13, shares, random, session)), 0x0301, name, codes,
                   if tls13 then Some(shares) else None, if tls13 then TLS13_SUITES else TLS12_SUITES, random, session)
  {
    hide HelloRead, ClientHello, EncodeHello, GroupsBody, SharesBody, ServerNameBody, U16sRead, SharesRead,
         EncodeExtensions, ReadU16;
    var h := OfferOf(name, codes, tls13, shares, random, session);
    OfferWritten(name, codes, tls13, shares, random, session);
    HelloRoundTrip(h, EncodeHello(h));
    GroupsRoundTrip(codes);
    ServerNameRoundTrip(name);
    var es := h.extensions;
    assert BodyOf(es, SERVER_NAME) == Some(es[0].body);
    assert BodyOf(es, SUPPORTED_GROUPS) == BodyOf(es[1..], SUPPORTED_GROUPS) == Some(es[1].body);
    ShareFound(es);
    if tls13 {
      SharesBodyRoundTrip(shares);
    }
  }

  lemma ShareFound(es: seq<Extension>)
    requires |es| == 3 || |es| == 5
    requires forall i :: 0 <= i < |es| ==> (es[i].kind == KEY_SHARE <==> i == 4)
    ensures BodyOf(es, KEY_SHARE) == if |es| == 5 then Some(es[4].body) else None
  {
    assert BodyOf(es, KEY_SHARE) == BodyOf(es[1..], KEY_SHARE) == BodyOf(es[1..][1..], KEY_SHARE)
        == BodyOf(es[1..][1..][1..], KEY_SHARE);
    if |es| == 5 {
      var tail := es[1..][1..][1..];
      assert tail == [es[3], es[4]] && tail[1..] == [es[4]];
      assert BodyOf(tail, KEY_SHARE) == BodyOf(tail[1..], KEY_SHARE) == Some(es[4].body);
    } else {
      assert es[1..][1..][1..] == [];
    }
  }

  lemma LegacyClientHelloRoundTrip(name: bytes, recordVersion: uint16, codes: seq<uint16>, random: Random)
    requires 92 + |name| + 2 * |codes| < 0x1_0000
    ensures HelloRead(LegacyClientHello(name, recordVersion, codes, random))
         == Some(LegacyOfferOf(name, recordVersion, codes, random))
    ensures Offers(HelloRead(LegacyClientHello(name, recordVersion, codes, random)), recordVersion, name,
                   [0x001D, 0x0017, 0x0018, 0x0019], None, codes, random, [])
  {
    hide HelloRead, LegacyClientHello, EncodeHello, GroupsBody, ServerNameBody, U16sRead, SharesRead, EncodeExtensions,
         ReadU16;
    var h := LegacyOfferOf(name, recordVersion, codes, random);
    LegacyOfferWritten(name, recordVersion, codes, random);
    HelloRoundTrip(h, EncodeHello(h));
    GroupsRoundTrip([0x001D, 0x0017, 0x0018, 0x0019]);
    ServerNameRoundTrip(name);
    var es := h.extensions;
    assert BodyOf(es, SERVER_NAME) == Some(es[0].body);
    assert BodyOf(es, SUPPORTED_GROUPS) == BodyOf(es[1..], SUPPORTED_GROUPS) == Some(es[1].body);
    assert BodyOf(es, KEY_SHARE) == BodyOf(es[1..], KEY_SHARE) == BodyOf(es[1..][1..], KEY_SHARE)
        == BodyOf(es[1..][1..][1..], KEY_SHARE) == BodyOf(es[1..][1..][1..][1..], KEY_SHARE) == None;
  }

  /** What is the same in every hello, byte by byte: the suites of either version, three signature schemes, and version
      1.3 alone in supported_versions. */
  lemma FixedParts(name: bytes, codes: seq<uint16>, tls13: bool, shares: seq<Share>, random: Random, session: Random,
                   h: Hello)
    requires SharesFit(shares)
    requires (if tls13 then 123 + |ShareBytes(shares)| else 112) + |name| + 2 * |codes| < 0x1_0000
    requires h == OfferOf(name, codes, tls13, shares, random, session)
    ensures h.suites == (if tls13 then [0x1301, 0x1302, 0x1303] else [0xc02f, 0xc02b, 0xc013, 0xc014])
    ensures |h.extensions| == (if tls13 then 5 else 3) && h.extensions[0].kind == 0 && h.extensions[1].kind == 10
    ensures h.extensions[2] == Extension(13, [0, 6, 4, 3, 8, 4, 4, 1])
    ensures tls13 ==> h.extensions[3] == Extension(43, [2, 3, 4]) && h.extensions[4].kind == 51
  {
    hide SharesBody, ServerNameBody, GroupsBody;
  }

  /** And in every legacy one: four curves, uncompressed points and six signature schemes. */
  lemma LegacyFixedParts(name: bytes, recordVersion: uint16, codes: seq<uint16>, random: Random, h: Hello)
    requires 92 + |name| + 2 * |codes| < 0x1_0000 && h == LegacyOfferOf(name, recordVersion, codes, random)
    ensures |h.extensions| == 4 && h.extensions[0].kind == 0
    ensures h.extensions[1] == Extension(10, [0, 8, 0, 29, 0, 23, 0, 24, 0, 25])
    ensures h.extensions[2] == Extension(11, [1, 0])
    ensures h.extensions[3] == Extension(13, [0, 12, 4, 1, 5, 1, 6, 1, 4, 3, 2, 1, 2, 2])
  {
    hide ServerNameBody, GroupsBody;
    LegacyCurves();
    LegacySchemes();
  }

  lemma LegacyCurves()
    ensures GroupsBody([0x001D, 0x0017, 0x0018, 0x0019]) == [0, 8, 0, 29, 0, 23, 0, 24, 0, 25]
  {
    var four: seq<uint16> := [0x001D, 0x0017, 0x0018, 0x0019];
    var three, two, one := four[1..], four[2..], four[3..];
    assert three[1..] == two && two[1..] == one && one[1..] == [];
    assert U16s(one) == [0, 25] && U16s(two) == [0, 24, 0, 25] && U16s(three) == [0, 23, 0, 24, 0, 25];
  }

  lemma LegacySchemes()
    ensures U16(12) + (U16(0x0401) + U16(0x0501) + U16(0x0601) + U16(0x0403) + U16(0x0201) + U16(0x0202))
         == [0, 12, 4, 1, 5, 1, 6, 1, 4, 3, 2, 1, 2, 2]
  {
  }

  /** A hello on the wire, byte by byte outside its variable parts: a handshake record, a ClientHello of version 0x0303,
      and no compression. */
  lemma HelloBytes(h: Hello, data: bytes)
    requires |h.random| == 32 && |h.session| < 256 && 2 * |h.suites| < 0x1_0000
    requires forall i :: 0 <= i < |h.extensions| ==> |h.extensions[i].body| < 0x1_0000
    requires 45 + |h.session| + 2 * |h.suites| + |EncodeExtensions(h.extensions)| < 0x1_0000
    requires data == EncodeHello(h)
    ensures var q := 46 + |h.session| + 2 * |h.suites|;
            && |data| == q + 4 + |EncodeExtensions(h.extensions)|
            && data[0] == 22 && data[5] == 1 && data[9] == 3 && data[10] == 3 && data[q] == 1 && data[q + 1] == 0
            && data[1] as int * 256 + data[2] as int == h.recordVersion as int
            && data[3] as int * 256 + data[4] as int == |data| - 5
            && data[11..43] == h.random && data[43] == |h.session|
  {
    hide Record, EncodeExtensions, U16s, ReadU24;
    var extensions, suites := EncodeExtensions(h.extensions), U16s(h.suites);
    var body := U16(0x0303) + h.random + [|h.session|] + h.session + U16(|suites|) + suites
                + [1, 0] + U16(|extensions|) + extensions;
    assert |body| == 41 + |h.session| + |suites| + |extensions|;
    RecordFields(h.recordVersion, body, data);
    BodyFields(data, h.random, h.session, suites, extensions);
    assert ReadU16(data, 9) == 0x0303;
  }

  /** The server name: a list of one name, of type 0. */
  lemma ServerNameBytes(name: bytes, body: bytes)
    requires |name| + 3 < 0x1_0000 && body == ServerNameBody(name)
    ensures |body| == 5 + |name| && body[2] == 0 && body[5..] == name
    ensures body[0] as int * 256 + body[1] as int == 3 + |name| && body[3] as int * 256 + body[4] as int == |name|
  {
  }
}
