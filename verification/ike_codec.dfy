/** The IKE_SA_INIT packet, written and read: transforms inside a proposal inside an SA payload
    inside a payload chain behind a fixed header. */
module IkeCodec {
  import opened Bytes
  import opened IkeNames

  const ENCR: byte := 1
  const PRF: byte := 2
  const INTEG: byte := 3
  const DH: byte := 4

  const SA: byte := 33
  const NOTIFY: byte := 41
  const KEY_LENGTH: uint16 := 14
  const INVALID_KE_PAYLOAD: uint16 := 17
  const COOKIE: uint16 := 16390

  datatype Transform = Transform(kind: byte, id: uint16, keyBits: Option<uint16>)

  datatype Payload = Payload(kind: byte, body: bytes)

  datatype Malformation =
    | TruncatedHeader
    | MalformedPayload
    | MalformedProposal
    | MalformedProposalSpi
    | MalformedTransform
    | TruncatedSaPayload

  /** What one exchange observed, as a value. */
  datatype Obs = Obs(
    responded: bool,
    versionMajor: Option<nat>,
    encryption: Option<string>,
    keyBits: Option<nat>,
    prf: Option<string>,
    integrity: Option<string>,
    dhGroup: Option<string>,
    notifyErrors: seq<string>,
    cookie: Option<bytes>,
    notTestable: Option<string>
  )

  const NOTHING := Obs(false, None, None, None, None, None, None, [], None, None)

  /** Reading updates the observation as it goes and keeps what it had when it fails. */
  datatype Reading = Reading(obs: Obs, error: Option<Malformation>)

  // ---------------------------------------------------------------- writing

  function Attribute(attrType: uint16, value: uint16): bytes
    requires attrType < 0x8000
  {
    U16(0x8000 + attrType) + U16(value)
  }

  predicate Keyed(t: Transform) {
    t.keyBits.Some? && t.keyBits.value != 0
  }

  function AttributesOf(t: Transform): bytes {
    if Keyed(t) then Attribute(KEY_LENGTH, t.keyBits.value) else []
  }

  function EncodeTransform(last: bool, t: Transform): bytes {
    var body := AttributesOf(t);
    [if last then 0 else 3, 0] + U16(8 + |body|) + [t.kind, 0] + U16(t.id) + body
  }

  function EncodeTransforms(ts: seq<Transform>): bytes {
    if ts == [] then [] else EncodeTransform(|ts| == 1, ts[0]) + EncodeTransforms(ts[1..])
  }

  lemma {:induction false} TransformsFit(ts: seq<Transform>)
    ensures 8 * |ts| <= |EncodeTransforms(ts)| <= 12 * |ts|
  {
    if ts != [] {
      TransformsFit(ts[1..]);
    }
  }

  /** A proposal whose transforms are the bytes `region`, well formed or not. */
  function ProposalAround(spi: bytes, count: byte, region: bytes): bytes
    requires |spi| < 256 && 8 + |spi| + |region| < 0x1_0000
  {
    [0, 0] + U16(8 + |spi| + |region|) + [1, 1, |spi|, count] + spi + region
  }

  function EncodeProposal(spi: bytes, ts: seq<Transform>): bytes
    requires |spi| < 256 && |ts| < 256
  {
    TransformsFit(ts);
    ProposalAround(spi, |ts|, EncodeTransforms(ts))
  }

  function EncodePayload(next: byte, body: bytes): bytes
    requires 4 + |body| < 0x1_0000
  {
    [next, 0] + U16(4 + |body|) + body
  }

  function FirstKind(ps: seq<Payload>): byte {
    if ps == [] then 0 else ps[0].kind
  }

  /** Each payload names the kind of the one after it; the last names none. */
  function EncodeChain(ps: seq<Payload>): bytes
    requires forall i :: 0 <= i < |ps| ==> 4 + |ps[i].body| < 0x1_0000
  {
    if ps == [] then [] else
      EncodePayload(FirstKind(ps[1..]), ps[0].body) + EncodeChain(ps[1..])
  }

  const ZEROS: bytes := [0, 0, 0, 0, 0, 0, 0, 0]

  function Header(spi: bytes, first: byte, length: nat): bytes
    requires length < 0x1_0000_0000
  {
    spi + ZEROS + [first, 0x20, 34, 0x08] + U32(0) + U32(length)
  }

  /** A COOKIE notify that hands over to an SA payload. */
  function CookiePayload(cookie: bytes): bytes
    requires |cookie| + 8 < 0x1_0000
  {
    EncodePayload(SA, [0, 0] + U16(COOKIE) + cookie)
  }

  function IkeSaInit(spi: bytes, cookie: Option<bytes>, body: bytes): bytes
    requires cookie.Some? ==> |cookie.value| + 8 < 0x1_0000
    requires 28 + (if cookie.Some? then 8 + |cookie.value| else 0) + |body| < 0x1_0000_0000
  {
    match cookie
    case None => Header(spi, SA, 28 + |body|) + body
    case Some(c) => var body' := CookiePayload(c) + body; Header(spi, NOTIFY, 28 + |body'|) + body'
  }

  // ---------------------------------------------------------------- reading

  function ApplyTransform(o: Obs, kind: byte, id: uint16, attributes: bytes): Obs {
    if kind == ENCR then
      var o := o.(encryption := Some(EncryptionName(id)));
      if |attributes| >= 4 && ReadU16(attributes, 0) % 0x8000 == KEY_LENGTH then
        o.(keyBits := Some(ReadU16(attributes, 2)))
      else
        o
    else if kind == PRF then o.(prf := Some(PrfName(id)))
    else if kind == INTEG then o.(integrity := Some(IntegrityName(id)))
    else if kind == DH then o.(dhGroup := Some(GroupName(id)))
    else o
  }

  function TransformsRead(blob: bytes, limit: nat, o: Obs, position: nat, seen: nat): Reading
    decreases |blob| - position
  {
    if position + 8 <= |blob| && seen < limit then
      var length := ReadU16(blob, position + 2);
      if length < 8 || position + length > |blob| then Reading(o, Some(MalformedTransform)) else
      var o' := ApplyTransform(o, blob[position + 4], ReadU16(blob, position + 6),
                               blob[position + 8..position + length]);
      if blob[position] == 0 then Reading(o', None) else
      TransformsRead(blob, limit, o', position + length, seen + 1)
    else
      Reading(o, None)
  }

  function ProposalsRead(body: bytes, o: Obs): Reading {
    if 8 <= |body| then
      var length := ReadU16(body, 2);
      var start := 8 + body[6] as int;
      if length < 8 || length > |body| then Reading(o, Some(MalformedProposal))
      else if start > length then Reading(o, Some(MalformedProposalSpi))
      else TransformsRead(body[start..length], body[7], o, 0, 0)
    else if body != [] then
      Reading(o, Some(TruncatedSaPayload))
    else
      Reading(o, None)
  }

  function NotifyRead(body: bytes, o: Obs): Obs
    requires |body| >= 4
  {
    var kind := ReadU16(body, 2);
    if kind == COOKIE then
      o.(cookie := Some(body[4..]))
    else if kind < 16384 then
      if kind == INVALID_KE_PAYLOAD && |body| >= 6 then
        var name := GroupName(ReadU16(body, 4));
        o.(dhGroup := Some(name), notifyErrors := o.notifyErrors + [INVALID_KE_PREFIX + name])
      else
        o.(notifyErrors := o.notifyErrors + [NotifyName(kind)])
    else
      o
  }

  function PayloadRead(p: Payload, o: Obs): Reading {
    if p.kind == SA then ProposalsRead(p.body, o)
    else if p.kind == NOTIFY && |p.body| >= 4 then Reading(NotifyRead(p.body, o), None)
    else Reading(o, None)
  }

  function PayloadsRead(data: bytes, o: Obs, next: byte, position: nat): Reading
    decreases |data| - position
  {
    if position + 4 <= |data| && next != 0 then
      var length := ReadU16(data, position + 2);
      if length < 4 || position + length > |data| then Reading(o, Some(MalformedPayload)) else
      var r := PayloadRead(Payload(next, data[position + 4..position + length]), o);
      if r.error.Some? then r else
      PayloadsRead(data, r.obs, data[position], position + length)
    else
      Reading(o, None)
  }

  function ResponseRead(data: bytes, o: Obs): Reading {
    if |data| < 28 then Reading(o, Some(TruncatedHeader)) else
    PayloadsRead(data, o.(versionMajor := Some(data[17] as int / 16)), data[16], 28)
  }
}
