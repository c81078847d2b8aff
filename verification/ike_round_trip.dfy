/** Reading what was written: transforms, proposal, payload chain and header. */
module IkeRoundTrip {
  import opened Bytes
  import opened IkeNames
  import opened IkeCodec

  // ------------------------------------------------------------- transforms

  function FoldTransforms(o: Obs, ts: seq<Transform>): Obs
    decreases ts
  {
    if ts == [] then o
    else FoldTransforms(ApplyTransform(o, ts[0].kind, ts[0].id, AttributesOf(ts[0])), ts[1..])
  }

  lemma TransformHeader(blob: bytes, p: nat, last: bool, t: Transform)
    requires At(blob, p, EncodeTransform(last, t))
    ensures p + 8 + |AttributesOf(t)| <= |blob|
    ensures blob[p] == (if last then 0 else 3) && ReadU16(blob, p + 2) == 8 + |AttributesOf(t)|
    ensures blob[p + 4] == t.kind && ReadU16(blob, p + 6) == t.id
    ensures blob[p + 8..p + 8 + |AttributesOf(t)|] == AttributesOf(t)
  {
    var a := AttributesOf(t);
    var mark: byte := if last then 0 else 3;
    var whole := EncodeTransform(last, t);
    assert whole == [mark, 0] + (U16(8 + |a|) + ([t.kind, 0] + (U16(t.id) + a)));
    AtSplit(blob, p, [mark, 0], U16(8 + |a|) + ([t.kind, 0] + (U16(t.id) + a)));
    AtSplit(blob, p + 2, U16(8 + |a|), [t.kind, 0] + (U16(t.id) + a));
    AtSplit(blob, p + 4, [t.kind, 0], U16(t.id) + a);
    AtSplit(blob, p + 6, U16(t.id), a);
    AtByte(blob, p, [mark, 0], 0);
    AtByte(blob, p + 4, [t.kind, 0], 0);
    AtU16(blob, p + 2, 8 + |a|);
    AtU16(blob, p + 6, t.id);
  }

  lemma {:induction false} TransformsRoundTrip(blob: bytes, p: nat, ts: seq<Transform>, o: Obs, limit: nat, seen: nat)
    requires At(blob, p, EncodeTransforms(ts))
    requires limit == seen + |ts|
    ensures TransformsRead(blob, limit, o, p, seen) == Reading(FoldTransforms(o, ts), None)
    decreases ts
  {
    hide At, ReadU16, EncodeTransform, AttributesOf, ApplyTransform;
    if ts != [] {
      var first, rest := ts[0], ts[1..];
      var a := AttributesOf(first);
      AtSplit(blob, p, EncodeTransform(rest == [], first), EncodeTransforms(rest));
      TransformHeader(blob, p, rest == [], first);
      TransformSize(rest == [], first);
      TransformStep(blob, limit, o, p, seen, first);
      if rest != [] {
        hide TransformsRead;
        TransformsRoundTrip(blob, p + 8 + |a|, rest, ApplyTransform(o, first.kind, first.id, a), limit, seen + 1);
      }
    }
  }

  lemma TransformSize(last: bool, t: Transform)
    ensures |EncodeTransform(last, t)| == 8 + |AttributesOf(t)|
  {
  }

  /** Reading one transform, and going on unless it is marked as the last. */
  lemma TransformStep(blob: bytes, limit: nat, o: Obs, p: nat, seen: nat, t: Transform)
    requires p + 8 + |AttributesOf(t)| <= |blob| && seen < limit
    requires ReadU16(blob, p + 2) == 8 + |AttributesOf(t)| && blob[p + 4] == t.kind && ReadU16(blob, p + 6) == t.id
    requires blob[p + 8..p + 8 + |AttributesOf(t)|] == AttributesOf(t)
    ensures TransformsRead(blob, limit, o, p, seen)
         == var o' := ApplyTransform(o, t.kind, t.id, AttributesOf(t));
            if blob[p] == 0 then Reading(o', None)
            else TransformsRead(blob, limit, o', p + 8 + |AttributesOf(t)|, seen + 1)
  {
    hide ReadU16, AttributesOf, ApplyTransform;
  }

  /** `i` is where a kind of transform stands for the last time. */
  ghost predicate LastOfKind(ts: seq<Transform>, kind: byte, i: int) {
    0 <= i < |ts| && ts[i].kind == kind && forall j :: i < j < |ts| ==> ts[j].kind != kind
  }

  /** `i` is the last encryption transform that carries a key length. */
  ghost predicate LastKeyed(ts: seq<Transform>, i: int) {
    && 0 <= i < |ts| && ts[i].kind == ENCR && Keyed(ts[i])
    && forall j :: i < j < |ts| ==> ts[j].kind != ENCR || !Keyed(ts[j])
  }

  function NameFor(kind: byte, id: uint16): string {
    if kind == ENCR then EncryptionName(id)
    else if kind == PRF then PrfName(id)
    else if kind == INTEG then IntegrityName(id)
    else GroupName(id)
  }

  /** What one field holds when the last transform of its kind decides it. */
  ghost predicate Decides(ts: seq<Transform>, kind: byte, before: Option<string>, after: Option<string>) {
    && (forall i :: LastOfKind(ts, kind, i) ==> after == Some(NameFor(kind, ts[i].id)))
    && ((forall i :: 0 <= i < |ts| ==> ts[i].kind != kind) ==> after == before)
  }

  /** `after` is `before` with the last transform of every kind in `ts` written into it. */
  ghost predicate Chosen(before: Obs, ts: seq<Transform>, after: Obs) {
    && Decides(ts, ENCR, before.encryption, after.encryption)
    && Decides(ts, PRF, before.prf, after.prf)
    && Decides(ts, INTEG, before.integrity, after.integrity)
    && Decides(ts, DH, before.dhGroup, after.dhGroup)
    && (forall i :: LastKeyed(ts, i) ==> after.keyBits == Some(ts[i].keyBits.value))
    && ((forall i :: 0 <= i < |ts| ==> ts[i].kind != ENCR || !Keyed(ts[i])) ==> after.keyBits == before.keyBits)
    && after == before.(encryption := after.encryption, keyBits := after.keyBits, prf := after.prf,
                        integrity := after.integrity, dhGroup := after.dhGroup)
  }

  lemma DecidesStep(ts: seq<Transform>, kind: byte, before: Option<string>, mid: Option<string>, after: Option<string>)
    requires ts != []
    requires mid == if ts[0].kind == kind then Some(NameFor(kind, ts[0].id)) else before
    requires Decides(ts[1..], kind, mid, after)
    ensures Decides(ts, kind, before, after)
  {
    forall i | LastOfKind(ts, kind, i) ensures after == Some(NameFor(kind, ts[i].id)) {
      if i > 0 {
        assert LastOfKind(ts[1..], kind, i - 1);
      } else {
        assert forall j :: 0 <= j < |ts[1..]| ==> ts[1..][j].kind != kind;
      }
    }
  }

  lemma ApplyOwn(o: Obs, t: Transform)
    ensures var r := ApplyTransform(o, t.kind, t.id, AttributesOf(t));
            && r.keyBits == (if t.kind == ENCR && Keyed(t) then Some(t.keyBits.value) else o.keyBits)
  {
    if Keyed(t) {
      AtWhole(AttributesOf(t));
      AtSplit(AttributesOf(t), 0, U16(0x8000 + KEY_LENGTH), U16(t.keyBits.value));
      AtU16(AttributesOf(t), 0, 0x8000 + KEY_LENGTH);
      AtU16(AttributesOf(t), 2, t.keyBits.value);
    }
  }

  lemma AppliedFields(o: Obs, t: Transform, mid: Obs)
    requires mid == ApplyTransform(o, t.kind, t.id, AttributesOf(t))
    ensures mid.encryption == if t.kind == ENCR then Some(NameFor(ENCR, t.id)) else o.encryption
    ensures mid.prf == if t.kind == PRF then Some(NameFor(PRF, t.id)) else o.prf
    ensures mid.integrity == if t.kind == INTEG then Some(NameFor(INTEG, t.id)) else o.integrity
    ensures mid.dhGroup == if t.kind == DH then Some(NameFor(DH, t.id)) else o.dhGroup
    ensures mid == o.(encryption := mid.encryption, keyBits := mid.keyBits, prf := mid.prf, integrity := mid.integrity,
            dhGroup := mid.dhGroup)
  {
    hide EncryptionName, PrfName, IntegrityName, GroupName, AttributesOf, ReadU16;
  }

  /** Reading the transforms in order leaves exactly the last one of each kind. */
  lemma {:induction false} FoldKeepsTheLast(o: Obs, ts: seq<Transform>)
    ensures Chosen(o, ts, FoldTransforms(o, ts))
    decreases ts
  {
    if ts != [] {
      var t, rest := ts[0], ts[1..];
      var mid := ApplyTransform(o, t.kind, t.id, AttributesOf(t));
      var after := FoldTransforms(mid, rest);
      ApplyOwn(o, t);
      FoldKeepsTheLast(mid, rest);
      AppliedFields(o, t, mid);
      hide ApplyTransform, NameFor, AttributesOf, Decides;
      DecidesStep(ts, ENCR, o.encryption, mid.encryption, after.encryption);
      DecidesStep(ts, PRF, o.prf, mid.prf, after.prf);
      DecidesStep(ts, INTEG, o.integrity, mid.integrity, after.integrity);
      DecidesStep(ts, DH, o.dhGroup, mid.dhGroup, after.dhGroup);
      forall i | LastKeyed(ts, i) ensures after.keyBits == Some(ts[i].keyBits.value) {
        if i > 0 {
          assert LastKeyed(rest, i - 1);
        } else {
          assert forall j :: 0 <= j < |rest| ==> rest[j] == ts[j + 1];
        }
      }
    }
  }

  // --------------------------------------------------------------- proposal

  /** The proposal length of an SA payload's body is neither shorter than its header nor longer than the body. */
  predicate LengthValid(body: bytes) {
    8 <= |body| && 8 <= ReadU16(body, 2) as int <= |body|
  }

  /** The SPI fits into the proposal. */
  predicate SpiValid(body: bytes) {
    LengthValid(body) && 8 + body[6] as int <= ReadU16(body, 2) as int
  }

  /** The bytes between the SPI and the end of the proposal. */
  function Region(body: bytes): bytes
    requires SpiValid(body)
  {
    body[8 + body[6] as int..ReadU16(body, 2)]
  }

  /** Two SA payloads, of any sizes and with SPIs of any sizes, give the same observation and the same error when their
      lengths are alike valid or not and, where valid, they have the same count and the same bytes between SPI and
      proposal length: nothing else is read, not the SPI, the other header bytes or what follows. */
  lemma ProposalContainment(a: bytes, b: bytes, o: Obs)
    requires |a| >= 8 && |b| >= 8
    requires LengthValid(a) <==> LengthValid(b)
    requires SpiValid(a) <==> SpiValid(b)
    requires SpiValid(a) ==> a[7] == b[7] && Region(a) == Region(b)
    ensures ProposalsRead(a, o) == ProposalsRead(b, o)
  {
    hide TransformsRead, ReadU16;
  }

  /** A written proposal, whatever the SPI and whatever follows, is read as its transform bytes. */
  lemma ProposalWritten(spi: bytes, count: byte, region: bytes, trailing: bytes, o: Obs)
    requires |spi| < 256 && 8 + |spi| + |region| < 0x1_0000
    ensures ProposalsRead(ProposalAround(spi, count, region) + trailing, o)
         == TransformsRead(region, count, o, 0, 0)
  {
    var length := 8 + |spi| + |region|;
    var body := ProposalAround(spi, count, region) + trailing;
    assert body == [0, 0] + (U16(length) + ([1, 1, |spi|, count] + (spi + (region + trailing))));
    AtWhole(body);
    AtSplit(body, 0, [0, 0], U16(length) + ([1, 1, |spi|, count] + (spi + (region + trailing))));
    AtSplit(body, 2, U16(length), [1, 1, |spi|, count] + (spi + (region + trailing)));
    AtU16(body, 2, length);
    assert body[8 + |spi|..length] == region;
  }

  lemma ProposalRoundTrip(spi: bytes, ts: seq<Transform>, trailing: bytes, o: Obs)
    requires |spi| < 256 && |ts| < 256
    ensures ProposalsRead(EncodeProposal(spi, ts) + trailing, o) == Reading(FoldTransforms(o, ts), None)
  {
    TransformsFit(ts);
    ProposalWritten(spi, |ts|, EncodeTransforms(ts), trailing, o);
    AtWhole(EncodeTransforms(ts));
    TransformsRoundTrip(EncodeTransforms(ts), 0, ts, o, |ts|, 0);
  }

  // ---------------------------------------------------------- payload chain

  function FoldPayloads(o: Obs, ps: seq<Payload>): Reading
    decreases ps
  {
    if ps == [] then Reading(o, None) else
    var r := PayloadRead(ps[0], o);
    if r.error.Some? then r else FoldPayloads(r.obs, ps[1..])
  }

  lemma PayloadHeader(data: bytes, p: nat, next: byte, body: bytes)
    requires 4 + |body| < 0x1_0000 && At(data, p, EncodePayload(next, body))
    ensures p + 4 + |body| <= |data|
    ensures data[p] == next && ReadU16(data, p + 2) == 4 + |body| && data[p + 4..p + 4 + |body|] == body
  {
    assert EncodePayload(next, body) == [next, 0] + (U16(4 + |body|) + body);
    AtSplit(data, p, [next, 0], U16(4 + |body|) + body);
    AtSplit(data, p + 2, U16(4 + |body|), body);
    AtByte(data, p, [next, 0], 0);
    AtU16(data, p + 2, 4 + |body|);
  }

  lemma {:induction false} ChainRoundTrip(data: bytes, p: nat, ps: seq<Payload>, o: Obs)
    requires forall i :: 0 <= i < |ps| ==> 4 + |ps[i].body| < 0x1_0000 && ps[i].kind != 0
    requires At(data, p, EncodeChain(ps))
    ensures PayloadsRead(data, o, FirstKind(ps), p) == FoldPayloads(o, ps)
    decreases ps
  {
    if ps != [] {
      var next := FirstKind(ps[1..]);
      AtSplit(data, p, EncodePayload(next, ps[0].body), EncodeChain(ps[1..]));
      PayloadHeader(data, p, next, ps[0].body);
      assert Payload(ps[0].kind, ps[0].body) == ps[0];
      var r := PayloadRead(ps[0], o);
      if r.error.None? {
        ChainRoundTrip(data, p + 4 + |ps[0].body|, ps[1..], r.obs);
      }
    }
  }

  /** Payloads the probe has no use for leave the observation alone. */
  lemma {:induction false} ForeignPayloads(o: Obs, ps: seq<Payload>)
    requires forall i :: 0 <= i < |ps| ==> ps[i].kind != SA && ps[i].kind != NOTIFY
    ensures FoldPayloads(o, ps) == Reading(o, None)
  {
    if ps != [] {
      ForeignPayloads(o, ps[1..]);
    }
  }

  // ----------------------------------------------------------------- header

  lemma HeaderFields(spi: bytes, first: byte, length: nat, body: bytes)
    requires |spi| == 8 && length < 0x1_0000_0000
    ensures var data := Header(spi, first, length) + body;
            && |data| == 28 + |body| && data[..8] == spi
            && data[16] == first && data[17] == 0x20
            && ReadU32(data, 24) == length
            && At(data, 28, body)
  {
    var data := Header(spi, first, length) + body;
    var tail := U32(length) + body;
    assert data == (spi + ZEROS + [first, 0x20, 34, 0x08] + U32(0)) + tail;
    AtWhole(data);
    AtSplit(data, 0, spi + ZEROS + [first, 0x20, 34, 0x08] + U32(0), tail);
    AtSplit(data, 24, U32(length), body);
    AtU32(data, 24, length);
  }

  /** The length field of a request is its length, and it leads with the initiator's SPI. */
  lemma RequestFrame(spi: bytes, cookie: Option<bytes>, body: bytes)
    requires |spi| == 8
    requires cookie.Some? ==> |cookie.value| + 8 < 0x1_0000
    requires 28 + (if cookie.Some? then 8 + |cookie.value| else 0) + |body| < 0x1_0000_0000
    ensures var data := IkeSaInit(spi, cookie, body);
            && data[..8] == spi
            && ReadU32(data, 24) == |data| == 28 + (if cookie.Some? then 8 + |cookie.value| else 0) + |body|
            && At(data, |data| - |body|, body)
  {
    match cookie {
      case None => HeaderFields(spi, SA, 28 + |body|, body);
      case Some(c) =>
        var body' := CookiePayload(c) + body;
        HeaderFields(spi, NOTIFY, 28 + |body'|, body');
        AtSplit(IkeSaInit(spi, cookie, body), 28, CookiePayload(c), body);
    }
  }

  /** A packet of any well-formed payload chain reads as the fold of its payloads. */
  lemma PacketRoundTrip(spi: bytes, length: nat, ps: seq<Payload>, o: Obs)
    requires |spi| == 8 && length < 0x1_0000_0000
    requires forall i :: 0 <= i < |ps| ==> 4 + |ps[i].body| < 0x1_0000 && ps[i].kind != 0
    ensures ResponseRead(Header(spi, FirstKind(ps), length) + EncodeChain(ps), o)
         == FoldPayloads(o.(versionMajor := Some(2)), ps)
  {
    hide PayloadRead;
    var body := EncodeChain(ps);
    HeaderFields(spi, FirstKind(ps), length, body);
    ChainRoundTrip(Header(spi, FirstKind(ps), length) + body, 28, ps, o.(versionMajor := Some(2)));
  }

  lemma ProposalPayload(proposalSpi: bytes, ts: seq<Transform>, o: Obs)
    requires |proposalSpi| < 256 && |ts| < 256
    ensures 4 + |EncodeProposal(proposalSpi, ts)| < 0x1_0000
    ensures PayloadRead(Payload(SA, EncodeProposal(proposalSpi, ts)), o) == Reading(FoldTransforms(o, ts), None)
  {
    TransformsFit(ts);
    var proposal := EncodeProposal(proposalSpi, ts);
    assert proposal + [] == proposal;
    ProposalRoundTrip(proposalSpi, ts, [], o);
  }

  /** Four levels down and back: the packet around any proposal, with any further payloads
      behind it, reads as exactly the last transform of every kind. */
  lemma IkeRoundTrip(spi: bytes, proposalSpi: bytes, ts: seq<Transform>, ps: seq<Payload>, o: Obs, r: Reading)
    requires |spi| == 8 && |proposalSpi| < 256 && |ts| < 256
    requires ps != [] && ps[0] == Payload(SA, EncodeProposal(proposalSpi, ts))
    requires forall i :: 0 <= i < |ps| ==> 4 + |ps[i].body| < 0x1_0000
    requires forall i :: 1 <= i < |ps| ==> ps[i].kind !in {0, SA, NOTIFY}
    requires 28 + |EncodeChain(ps)| < 0x1_0000_0000
    requires r == ResponseRead(IkeSaInit(spi, None, EncodeChain(ps)), o)
    ensures r.error.None? && Chosen(o.(versionMajor := Some(2)), ts, r.obs)
  {
    hide PayloadRead, Chosen, ResponseRead, EncodeProposal, FoldTransforms;
    var o' := o.(versionMajor := Some(2));
    ProposalPayload(proposalSpi, ts, o');
    PacketRoundTrip(spi, 28 + |EncodeChain(ps)|, ps, o);
    ForeignPayloads(FoldTransforms(o', ts), ps[1..]);
    FoldKeepsTheLast(o', ts);
  }

  // ----------------------------------------------------------------- cookie

  function WithCookie(o: Obs, c: bytes): Obs {
    if o.cookie.Some? then o else o.(cookie := Some(c))
  }

  lemma {:induction false} TransformsIgnoreCookie(blob: bytes, limit: nat, o: Obs, p: nat, seen: nat, c: Option<bytes>)
    ensures var r := TransformsRead(blob, limit, o, p, seen);
            && TransformsRead(blob, limit, o.(cookie := c), p, seen) == r.(obs := r.obs.(cookie := c))
            && r.obs.cookie == o.cookie
    decreases |blob| - p
  {
    if p + 8 <= |blob| && seen < limit && 8 <= ReadU16(blob, p + 2) as int <= |blob| - p && blob[p] != 0 {
      var length := ReadU16(blob, p + 2);
      var kind, id, attributes := blob[p + 4], ReadU16(blob, p + 6), blob[p + 8..p + length];
      assert ApplyTransform(o.(cookie := c), kind, id, attributes)
          == ApplyTransform(o, kind, id, attributes).(cookie := c);
      TransformsIgnoreCookie(blob, limit, ApplyTransform(o, kind, id, attributes), p + length, seen + 1, c);
    }
  }

  lemma PayloadCarriesCookie(p: Payload, o: Obs, c: bytes)
    ensures var r := PayloadRead(p, o);
            PayloadRead(p, WithCookie(o, c)) == r.(obs := WithCookie(r.obs, c))
  {
    if p.kind == SA && |p.body| >= 8 {
      var length := ReadU16(p.body, 2);
      var start := 8 + p.body[6] as int;
      if 8 <= length <= |p.body| && start <= length {
        TransformsIgnoreCookie(p.body[start..length], p.body[7], o, 0, 0, Some(c));
      }
    }
  }

  lemma {:induction false} PayloadsCarryCookie(data: bytes, p: nat, o: Obs, next: byte, c: bytes)
    ensures var r := PayloadsRead(data, o, next, p);
            PayloadsRead(data, WithCookie(o, c), next, p) == r.(obs := WithCookie(r.obs, c))
    decreases |data| - p
  {
    if p + 4 <= |data| && next != 0 && 4 <= ReadU16(data, p + 2) as int <= |data| - p {
      var length := ReadU16(data, p + 2);
      var payload := Payload(next, data[p + 4..p + length]);
      PayloadCarriesCookie(payload, o, c);
      var r := PayloadRead(payload, o);
      if r.error.None? {
        PayloadsCarryCookie(data, p + length, r.obs, data[p], c);
      }
    }
  }

  /** Reading looks at nothing before where it starts. */
  lemma {:induction false} PayloadsShift(d1: bytes, p1: nat, d2: bytes, p2: nat, o: Obs, next: byte)
    requires p2 <= |d2| && At(d1, p1, d2[p2..]) && p1 + |d2| - p2 == |d1|
    ensures PayloadsRead(d1, o, next, p1) == PayloadsRead(d2, o, next, p2)
    decreases |d2| - p2
  {
    hide PayloadRead;
    if p2 + 4 <= |d2| && next != 0 {
      var t := d2[p2..];
      AtByte(d1, p1, t, 0);
      AtByte(d1, p1, t, 2);
      AtByte(d1, p1, t, 3);
      var length := ReadU16(d2, p2 + 2);
      assert ReadU16(d1, p1 + 2) == length;
      if 4 <= length && p2 + length <= |d2| {
        AtSlice(d1, p1, t, 4, length);
        assert t[4..length] == d2[p2 + 4..p2 + length];
        var payload := Payload(next, d2[p2 + 4..p2 + length]);
        assert payload == Payload(next, d1[p1 + 4..p1 + length]);
        var r := PayloadRead(payload, o);
        AtSlice(d1, p1, t, length, |t|);
        assert t[length..] == d2[p2 + length..];
        if r.error.None? {
          PayloadsShift(d1, p1 + length, d2, p2 + length, r.obs, d2[p2]);
        }
      }
    }
  }

  /** Putting a cookie in front changes nothing but the cookie, whatever the body is. */
  lemma CookieLeads(spi: bytes, c: bytes, body: bytes, o: Obs)
    requires |spi| == 8 && |c| + 8 < 0x1_0000 && 36 + |c| + |body| < 0x1_0000_0000
    requires o.cookie.None?
    ensures var plain := ResponseRead(IkeSaInit(spi, None, body), o);
            ResponseRead(IkeSaInit(spi, Some(c), body), o) == plain.(obs := WithCookie(plain.obs, c))
  {
    var d1, d2 := IkeSaInit(spi, Some(c), body), IkeSaInit(spi, None, body);
    var body' := CookiePayload(c) + body;
    var o' := o.(versionMajor := Some(2));
    HeaderFields(spi, NOTIFY, 28 + |body'|, body');
    HeaderFields(spi, SA, 28 + |body|, body);
    CookieFirst(d1, c, body, o');
    assert d2[28..] == body;
    hide PayloadsRead, At, CookiePayload, IkeSaInit, Header, ReadU16, ReadU32;
    PayloadsCarryCookie(d2, 28, o', SA, c);
    PayloadsShift(d1, 36 + |c|, d2, 28, WithCookie(o', c), SA);
  }

  /** Reading on from a cookie payload. */
  lemma CookieFirst(data: bytes, c: bytes, body: bytes, o: Obs)
    requires |c| + 8 < 0x1_0000 && At(data, 28, CookiePayload(c) + body) && |data| == 36 + |c| + |body|
    requires o.cookie.None?
    ensures data[36 + |c|..] == body
    ensures PayloadsRead(data, o, NOTIFY, 28) == PayloadsRead(data, WithCookie(o, c), SA, 36 + |c|)
  {
    hide At, CookiePayload, U16, EncodePayload, PayloadRead, PayloadsRead, WithCookie;
    CookieShape(c);
    AtSplit(data, 28, CookiePayload(c), body);
    AtEnd(data, 36 + |c|, body);
    NotifiedCookie(c, o);
    PayloadStep(data, 28, NOTIFY, SA, [0, 0] + U16(COOKIE) + c, o, WithCookie(o, c));
  }

  lemma AtEnd(data: bytes, p: nat, chunk: bytes)
    requires At(data, p, chunk) && |data| == p + |chunk|
    ensures data[p..] == chunk
  {
  }

  /** Reading one payload and going on. */
  lemma PayloadStep(data: bytes, p: nat, kind: byte, next: byte, body: bytes, o: Obs, o': Obs)
    requires 4 + |body| < 0x1_0000 && At(data, p, EncodePayload(next, body)) && kind != 0
    requires PayloadRead(Payload(kind, body), o) == Reading(o', None)
    ensures PayloadsRead(data, o, kind, p) == PayloadsRead(data, o', next, p + 4 + |body|)
  {
    hide At, EncodePayload, PayloadRead, ReadU16;
    PayloadHeader(data, p, next, body);
  }

  lemma CookieShape(c: bytes)
    requires |c| + 8 < 0x1_0000
    ensures |CookiePayload(c)| == 8 + |c| && |[0, 0] + U16(COOKIE) + c| == 4 + |c|
    ensures CookiePayload(c) == EncodePayload(SA, [0, 0] + U16(COOKIE) + c)
  {
  }

  lemma NotifiedCookie(c: bytes, o: Obs)
    requires o.cookie.None?
    ensures PayloadRead(Payload(NOTIFY, [0, 0] + U16(COOKIE) + c), o) == Reading(WithCookie(o, c), None)
  {
    var inner := [0, 0] + U16(COOKIE) + c;
    AtWhole(inner);
    assert inner == [0, 0] + (U16(COOKIE) + c);
    AtSplit(inner, 0, [0, 0], U16(COOKIE) + c);
    AtSplit(inner, 2, U16(COOKIE), c);
    AtU16(inner, 2, COOKIE);
    assert inner[4..] == c;
  }
}
