/** One IKE probe as a run of exchanges against any responder: the cookie retry and the
    retry in the group the responder asked for. */
module IkeProbe {
  import opened Bytes
  import opened IkeNames
  import opened IkeCodec
  import opened IkeRoundTrip

  type Spi = s: bytes | |s| == 8 witness ZEROS
  type Body = b: bytes | |b| < 0x1_0000
  type Cookie = c: bytes | |c| + 8 < 0x1_0000
  type KeyValue = k: bytes | |k| <= 512
  type Nonce = n: bytes | |n| == 32 witness ZEROS + ZEROS + ZEROS + ZEROS

  const NON_ESP_MARKER: bytes := [0, 0, 0, 0]

  const OFFERED: seq<Transform> := [
    Transform(ENCR, 20, Some(256)), Transform(ENCR, 20, Some(128)), Transform(ENCR, 12, Some(256)),
    Transform(ENCR, 12, Some(128)), Transform(ENCR, 3, None),
    Transform(PRF, 7, None), Transform(PRF, 6, None), Transform(PRF, 5, None), Transform(PRF, 2, None),
    Transform(INTEG, 14, None), Transform(INTEG, 13, None), Transform(INTEG, 12, None),
    Transform(INTEG, 2, None), Transform(INTEG, 0, None),
    Transform(DH, 20, None), Transform(DH, 19, None), Transform(DH, 15, None),
    Transform(DH, 16, None), Transform(DH, 14, None), Transform(DH, 2, None)
  ]

  /** What comes back from one exchange: the answer to the first or to the repeated datagram,
      nothing, or a socket error after some datagrams went out. */
  datatype AnyReply = Silence | Datagram(data: bytes, repeated: bool) | Fault(sent: nat)

  type Reply = r: AnyReply | (r.Datagram? ==> |r.data| < 0x1_0000) && (r.Fault? ==> r.sent <= 2)
    witness Silence

  datatype Exchange = Exchange(spi: Spi, group: uint16, cookie: Option<Cookie>, body: Body, packet: bytes, reply: Reply)

  /** The responder sees everything so far; the probe's own random values are arbitrary. */
  datatype World = World(
    respond: (seq<Exchange>, bytes) -> Reply,
    spi: nat -> Spi,
    keyValue: (nat, uint16) -> KeyValue,
    nonce: nat -> Nonce
  )

  function Offer(): (r: bytes)
    ensures |r| <= 8 + 12 * |OFFERED|
  {
    TransformsFit(OFFERED);
    EncodeProposal([], OFFERED)
  }

  function SaInitBody(group: uint16, keyValue: KeyValue, nonce: Nonce): Body {
    EncodePayload(34, Offer()) + EncodePayload(40, U16(group) + U16(0) + keyValue) + EncodePayload(0, nonce)
  }

  function OnWire(port: nat, packet: bytes): bytes {
    if port == 4500 then NON_ESP_MARKER + packet else packet
  }

  function OffWire(port: nat, data: bytes): bytes {
    if port == 4500 && NON_ESP_MARKER <= data then data[4..] else data
  }

  function Sent(r: Reply): nat {
    match r
    case Silence => 2
    case Datagram(_, repeated) => if repeated then 2 else 1
    case Fault(sent) => sent
  }

  predicate Echoes(port: nat, e: Exchange) {
    e.reply.Datagram? && e.spi <= OffWire(port, e.reply.data)
  }

  /** What the reply to one exchange says by itself. */
  function Answer(port: nat, e: Exchange): Reading {
    if Echoes(port, e) then
      var r := ResponseRead(OffWire(port, e.reply.data), NOTHING.(responded := true));
      if r.error.Some? then r.(obs := r.obs.(notTestable := Some("ike_probe_failed"))) else r
    else
      Reading(NOTHING.(notTestable := Some(
        match e.reply
        case Silence => "no_ike_response"
        case Datagram(_, _) => "spi_mismatch"
        case Fault(_) => "ike_probe_failed")), None)
  }

  /** The answer can be acted on: it is ours and it parsed. */
  predicate Usable(port: nat, e: Exchange) {
    Echoes(port, e) && Answer(port, e).error.None?
  }

  function FirstInvalidKe(notes: seq<string>): Option<string> {
    if notes == [] then None
    else if INVALID_KE_PREFIX <= notes[0] then Some(notes[0])
    else FirstInvalidKe(notes[1..])
  }

  /** The group the first INVALID_KE note names, when the table knows it. */
  function WantedGroup(notes: seq<string>): Option<uint16> {
    match FirstInvalidKe(notes)
    case None => None
    case Some(note) =>
      match AfterColon(note)
      case None => None
      case Some(name) => CodeOf(DH_GROUP_NAMES, name)
  }

  function Measure(retry: bool, cookie: Option<Cookie>): nat {
    (if retry then 2 else 0) + (if cookie.None? then 1 else 0)
  }

  const COOKIE_ANSWERED := "COOKIE_CHALLENGE_ANSWERED"

  datatype Run = Run(obs: Obs, log: seq<Exchange>)

  function FirstExchange(w: World, port: nat, group: uint16, cookie: Option<Cookie>, spi: Option<Spi>,
                         body: Option<Body>, log: seq<Exchange>): Exchange {
    var spi := if spi.Some? then spi.value else w.spi(|log|);
    var body := if body.Some? then body.value else SaInitBody(group, w.keyValue(|log|, group), w.nonce(|log|));
    var packet := OnWire(port, IkeSaInit(spi, cookie, body));
    Exchange(spi, group, cookie, body, packet, w.respond(log, packet))
  }

  function Probe(w: World, port: nat, group: uint16, retry: bool, cookie: Option<Cookie>, spi: Option<Spi>,
                 body: Option<Body>, log: seq<Exchange>): Run
    decreases Measure(retry, cookie)
  {
    var e := FirstExchange(w, port, group, cookie, spi, body, log);
    var log := log + [e];
    var o := Answer(port, e).obs;
    if !Usable(port, e) then Run(o, log) else
    AnswerCookieFits(port, e);
    if o.cookie.Some? && cookie.None? then
      var challenged := Probe(w, port, group, retry, o.cookie, Some(e.spi), Some(e.body), log);
      if challenged.obs.responded then
        challenged.(obs := challenged.obs.(notifyErrors := [COOKIE_ANSWERED] + challenged.obs.notifyErrors))
      else
        RetryInGroup(w, port, group, retry, cookie, o, challenged.log)
    else
      RetryInGroup(w, port, group, retry, cookie, o, log)
  }

  function RetryInGroup(w: World, port: nat, group: uint16, retry: bool, ghost cookie: Option<Cookie>, o: Obs,
                        log: seq<Exchange>): Run
    decreases Measure(retry, cookie), 0
  {
    var wanted := WantedGroup(o.notifyErrors);
    if retry && wanted.Some? && wanted.value != group then
      var second := Probe(w, port, wanted.value, false, None, None, None, log);
      if second.obs.responded && second.obs.encryption.Some? then
        second.(obs := second.obs.(notifyErrors := o.notifyErrors + second.obs.notifyErrors))
      else
        Run(o, second.log)
    else
      Run(o, log)
  }

  // ------------------------------------------------- what parsing guarantees

  /** Notes are group names behind the prefix or plain notify numbers, the version is read from
      the header and a cookie is shorter than what carried it. */
  ghost predicate Parsed(o: Obs, size: nat) {
    && o.responded
    && (o.cookie.Some? ==> |o.cookie.value| + 36 <= size)
    && (forall i :: 0 <= i < |o.notifyErrors| ==> ProperNote(o.notifyErrors[i]))
  }

  ghost predicate ProperNote(note: string) {
    (exists g: uint16 :: note == INVALID_KE_PREFIX + GroupName(g)) || (exists k: uint16 :: note == NotifyName(k))
  }

  lemma PayloadParsed(p: Payload, o: Obs, size: nat)
    requires Parsed(o, size) && |p.body| + 32 <= size
    ensures Parsed(PayloadRead(p, o).obs, size)
  {
    if p.kind == SA && |p.body| >= 8 {
      var length := ReadU16(p.body, 2);
      var start := 8 + p.body[6] as int;
      if 8 <= length <= |p.body| && start <= length {
        TransformsParsed(p.body[start..length], p.body[7], o, 0, 0, size);
      }
    }
  }

  lemma {:induction false} TransformsParsed(blob: bytes, limit: nat, o: Obs, p: nat, seen: nat, size: nat)
    requires Parsed(o, size)
    ensures Parsed(TransformsRead(blob, limit, o, p, seen).obs, size)
    decreases |blob| - p
  {
    if p + 8 <= |blob| && seen < limit && 8 <= ReadU16(blob, p + 2) as int <= |blob| - p && blob[p] != 0 {
      var length := ReadU16(blob, p + 2);
      TransformsParsed(blob, limit, ApplyTransform(o, blob[p + 4], ReadU16(blob, p + 6), blob[p + 8..p + length]),
                       p + length, seen + 1, size);
    }
  }

  lemma {:induction false} PayloadsParsed(data: bytes, o: Obs, next: byte, p: nat)
    requires Parsed(o, |data|) && p >= 28
    ensures Parsed(PayloadsRead(data, o, next, p).obs, |data|)
    decreases |data| - p
  {
    hide PayloadRead;
    if p + 4 <= |data| && next != 0 && 4 <= ReadU16(data, p + 2) as int <= |data| - p {
      var length := ReadU16(data, p + 2);
      var payload := Payload(next, data[p + 4..p + length]);
      PayloadParsed(payload, o, |data|);
      PayloadsParsed(data, PayloadRead(payload, o).obs, data[p], p + length);
    }
  }

  lemma AnswerParsed(port: nat, e: Exchange)
    requires Echoes(port, e)
    ensures Parsed(Answer(port, e).obs, |OffWire(port, e.reply.data)|)
  {
    var data := OffWire(port, e.reply.data);
    if |data| >= 28 {
      PayloadsParsed(data, NOTHING.(responded := true, versionMajor := Some(data[17] as int / 16)), data[16], 28);
    }
  }

  lemma AnswerCookieFits(port: nat, e: Exchange)
    ensures Answer(port, e).obs.cookie.Some? ==> |Answer(port, e).obs.cookie.value| + 8 < 0x1_0000
  {
    if Echoes(port, e) {
      AnswerParsed(port, e);
    }
  }

  /** The retry asks for exactly the group the first INVALID_KE note was made from. */
  lemma {:induction false} WantedIsNamed(notes: seq<string>)
    requires forall i :: 0 <= i < |notes| ==> ProperNote(notes[i])
    requires WantedGroup(notes).Some?
    ensures FirstInvalidKe(notes) == Some(INVALID_KE_PREFIX + GroupName(WantedGroup(notes).value))
  {
    if INVALID_KE_PREFIX <= notes[0] {
      assert ProperNote(notes[0]);
      forall k: uint16 ensures !(INVALID_KE_PREFIX <= NotifyName(k)) {
        assert NotifyName(k)[0] != INVALID_KE_PREFIX[0];
      }
      var g: uint16 :| notes[0] == INVALID_KE_PREFIX + GroupName(g);
      AfterColonSkips("INVALID_KE_PAYLOAD", GroupName(g));
      assert INVALID_KE_PREFIX == "INVALID_KE_PAYLOAD" + ":";
      CodeInvertsName(g);
    } else {
      WantedIsNamed(notes[1..]);
    }
  }
}
