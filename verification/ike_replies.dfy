/** What a responder's bytes mean, case by case: names, transforms, notifications, and every way of being malformed. */
module IkeReplies {
  import opened Bytes
  import opened IkeNames
  import opened IkeCodec
  import opened IkeRoundTrip
  import opened IkeProbe

  // -------------------------------------------------------------------- names

  function Value(digits: string): nat
    requires forall i :: 0 <= i < |digits| ==> '0' <= digits[i] <= '9'
  {
    if digits == "" then 0 else 10 * Value(digits[..|digits| - 1]) + (digits[|digits| - 1] - '0') as nat
  }

  /** A number is written in its decimal digits, without a zero in front. */
  lemma {:induction false} DecimalIsValue(n: nat)
    ensures Decimal(n) != "" && forall i :: 0 <= i < |Decimal(n)| ==> '0' <= Decimal(n)[i] <= '9'
    ensures Value(Decimal(n)) == n && (n > 0 ==> Decimal(n)[0] != '0')
  {
    if n >= 10 {
      DecimalIsValue(n / 10);
      var digits := Decimal(n / 10);
      assert Decimal(n)[..|Decimal(n)| - 1] == digits;
    } else {
      assert Decimal(n)[..0] == "";
    }
  }

  /** A known code is named by the first entry for it, an unknown one by its number behind the prefix. */
  lemma {:induction false} NamedByTable(table: Table, prefix: string, id: uint16)
    ensures forall i :: 0 <= i < |table| && table[i].0 == id && (forall j :: 0 <= j < i ==> table[j].0 != id) ==>
              NameIn(table, prefix, id) == table[i].1
    ensures (forall i :: 0 <= i < |table| ==> table[i].0 != id) ==> NameIn(table, prefix, id) == prefix + Decimal(id)
  {
    if table != [] && table[0].0 != id {
      NamedByTable(table[1..], prefix, id);
    }
  }

  /** One entry of each registry, and what each calls a code it does not know. */
  lemma RegistryNames(id: uint16)
    requires id > 40
    ensures EncryptionName(20) == "ENCR_AES_GCM_16" && EncryptionName(id) == "ENCR_" + Decimal(id)
    ensures PrfName(7) == "PRF_HMAC_SHA2_512" && PrfName(id) == "PRF_" + Decimal(id)
    ensures IntegrityName(14) == "AUTH_HMAC_SHA2_512_256" && IntegrityName(id) == "INTEG_" + Decimal(id)
    ensures GroupName(20) == "ECP_384" && GroupName(id) == "GROUP_" + Decimal(id)
  {
    hide NameIn, Decimal;
    NamedByTable(ENCRYPTION_NAMES, "ENCR_", 20);
    NamedByTable(ENCRYPTION_NAMES, "ENCR_", id);
    assert ENCRYPTION_NAMES[11] == (20, "ENCR_AES_GCM_16");
    NamedByTable(PRF_NAMES, "PRF_", 7);
    NamedByTable(PRF_NAMES, "PRF_", id);
    assert PRF_NAMES[5] == (7, "PRF_HMAC_SHA2_512");
    NamedByTable(INTEGRITY_NAMES, "INTEG_", 14);
    NamedByTable(INTEGRITY_NAMES, "INTEG_", id);
    assert INTEGRITY_NAMES[6] == (14, "AUTH_HMAC_SHA2_512_256");
    NamedByTable(DH_GROUP_NAMES, "GROUP_", 20);
    NamedByTable(DH_GROUP_NAMES, "GROUP_", id);
    assert DH_GROUP_NAMES[9] == (20, "ECP_384");
  }

  // --------------------------------------------------------------- transforms

  /** What one transform says, whatever its attributes: the name of its kind, and for encryption the value of a first
      attribute that is a key length, in either form. */
  lemma TransformApplied(o: Obs, kind: byte, id: uint16, a: bytes, r: Obs)
    requires r == ApplyTransform(o, kind, id, a)
    ensures r == o.(encryption := r.encryption, keyBits := r.keyBits, prf := r.prf, integrity := r.integrity,
            dhGroup := r.dhGroup)
    ensures r.encryption == if kind == 1 then Some(EncryptionName(id)) else o.encryption
    ensures r.prf == if kind == 2 then Some(PrfName(id)) else o.prf
    ensures r.integrity == if kind == 3 then Some(IntegrityName(id)) else o.integrity
    ensures r.dhGroup == if kind == 4 then Some(GroupName(id)) else o.dhGroup
    ensures r.keyBits == if kind == 1 && |a| >= 4 && (a[0] == 0 || a[0] == 128) && a[1] == 14
                         then Some(a[2] as int * 256 + a[3] as int) else o.keyBits
  {
    hide EncryptionName, PrfName, IntegrityName, GroupName;
  }

  /** A transform as it may stand on the wire: any mark, of which 0 alone ends the list, and any attributes. */
  datatype Wire = Wire(mark: byte, kind: byte, id: uint16, attributes: bytes)

  ghost predicate Fits(ts: seq<Wire>) {
    forall i :: 0 <= i < |ts| ==> 8 + |ts[i].attributes| < 0x1_0000
  }

  function EncodeWire(t: Wire): bytes
    requires 8 + |t.attributes| < 0x1_0000
  {
    [t.mark, 0] + (U16(8 + |t.attributes|) + ([t.kind, 0] + (U16(t.id) + t.attributes)))
  }

  function EncodeWires(ts: seq<Wire>): bytes
    requires Fits(ts)
  {
    if ts == [] then [] else EncodeWire(ts[0]) + EncodeWires(ts[1..])
  }

  function Applied(o: Obs, ts: seq<Wire>): Obs
    decreases ts
  {
    if ts == [] then o else Applied(ApplyTransform(o, ts[0].kind, ts[0].id, ts[0].attributes), ts[1..])
  }

  lemma WireFields(blob: bytes, p: nat, t: Wire, rest: bytes)
    requires 8 + |t.attributes| < 0x1_0000 && At(blob, p, EncodeWire(t) + rest)
    ensures p + 8 + |t.attributes| <= |blob| && At(blob, p + 8 + |t.attributes|, rest)
    ensures blob[p] == t.mark && ReadU16(blob, p + 2) == 8 + |t.attributes|
    ensures blob[p + 4] == t.kind && ReadU16(blob, p + 6) == t.id
    ensures blob[p + 8..p + 8 + |t.attributes|] == t.attributes
  {
    var a := t.attributes;
    AtSplit(blob, p, EncodeWire(t), rest);
    AtSplit(blob, p, [t.mark, 0], U16(8 + |a|) + ([t.kind, 0] + (U16(t.id) + a)));
    AtSplit(blob, p + 2, U16(8 + |a|), [t.kind, 0] + (U16(t.id) + a));
    AtSplit(blob, p + 4, [t.kind, 0], U16(t.id) + a);
    AtSplit(blob, p + 6, U16(t.id), a);
    AtByte(blob, p, [t.mark, 0], 0);
    AtByte(blob, p + 4, [t.kind, 0], 0);
    AtU16(blob, p + 2, 8 + |a|);
    AtU16(blob, p + 6, t.id);
  }

  /** Transforms that are not marked last, as many as the limit allows, are all applied, and reading goes on behind
      them. */
  lemma {:induction false} TransformsBefore(blob: bytes, p: nat, ts: seq<Wire>, rest: bytes, o: Obs, limit: nat,
                                            seen: nat)
    requires Fits(ts) && At(blob, p, EncodeWires(ts) + rest) && seen + |ts| <= limit
    requires forall i :: 0 <= i < |ts| ==> ts[i].mark != 0
    ensures p + |EncodeWires(ts)| <= |blob|
    ensures TransformsRead(blob, limit, o, p, seen)
         == TransformsRead(blob, limit, Applied(o, ts), p + |EncodeWires(ts)|, seen + |ts|)
    decreases ts
  {
    hide At, ReadU16, ApplyTransform, EncodeWire;
    if ts != [] {
      var t := ts[0];
      assert EncodeWires(ts) + rest == EncodeWire(t) + (EncodeWires(ts[1..]) + rest);
      WireFields(blob, p, t, EncodeWires(ts[1..]) + rest);
      WireSize(t);
      TransformsBefore(blob, p + 8 + |t.attributes|, ts[1..], rest, ApplyTransform(o, t.kind, t.id, t.attributes),
          limit, seen + 1);
    } else {
      AtSplit(blob, p, [], rest);
      AtBound(blob, p, []);
    }
  }

  lemma WireSize(t: Wire)
    requires 8 + |t.attributes| < 0x1_0000
    ensures |EncodeWire(t)| == 8 + |t.attributes|
  {
  }

  /** Behind any transforms that are not marked last, the limit ends the list, and so do fewer than 8 bytes; a length
      below 8 or past the end is malformed, with what was read before it kept. */
  lemma TransformsEnd(blob: bytes, ts: seq<Wire>, rest: bytes, o: Obs, limit: nat, r: Reading)
    requires Fits(ts) && |ts| <= limit && forall i :: 0 <= i < |ts| ==> ts[i].mark != 0
    requires blob == EncodeWires(ts) + rest && r == TransformsRead(blob, limit, o, 0, 0)
    ensures |ts| == limit || |rest| < 8 ==> r == Reading(Applied(o, ts), None)
    ensures |ts| < limit && |rest| >= 8 && !(8 <= rest[2] as int * 256 + rest[3] as int <= |rest|) ==>
              r == Reading(Applied(o, ts), Some(MalformedTransform))
  {
    hide At, ApplyTransform, EncodeWire, EncodeWires, Applied;
    var p := |EncodeWires(ts)|;
    AtWhole(blob);
    TransformsBefore(blob, 0, ts, rest, o, limit, 0);
    if |rest| >= 8 {
      AtSplit(blob, 0, EncodeWires(ts), rest);
      AtByte(blob, p, rest, 2);
      AtByte(blob, p, rest, 3);
    }
  }

  /** One that is marked last ends the list, whatever the limit was and whatever follows. */
  lemma TransformsMarked(blob: bytes, ts: seq<Wire>, last: Wire, rest: bytes, o: Obs, limit: nat)
    requires Fits(ts) && |ts| < limit && forall i :: 0 <= i < |ts| ==> ts[i].mark != 0
    requires 8 + |last.attributes| < 0x1_0000 && last.mark == 0
    requires blob == EncodeWires(ts) + (EncodeWire(last) + rest)
    ensures TransformsRead(blob, limit, o, 0, 0)
         == Reading(ApplyTransform(Applied(o, ts), last.kind, last.id, last.attributes), None)
  {
    hide At, ApplyTransform, EncodeWire, EncodeWires, Applied, ReadU16, TransformsRead;
    var more := EncodeWire(last) + rest;
    AtWhole(blob);
    TransformsBefore(blob, 0, ts, more, o, limit, 0);
    AtSplit(blob, 0, EncodeWires(ts), more);
    WireFields(blob, |EncodeWires(ts)|, last, rest);
    LastRead(blob, |EncodeWires(ts)|, last, Applied(o, ts), limit, |ts|);
  }

  lemma LastRead(blob: bytes, p: nat, t: Wire, o: Obs, limit: nat, seen: nat)
    requires p + 8 + |t.attributes| <= |blob| && seen < limit && t.mark == 0
    requires blob[p] == t.mark && ReadU16(blob, p + 2) == 8 + |t.attributes|
    requires blob[p + 4] == t.kind && ReadU16(blob, p + 6) == t.id
    requires blob[p + 8..p + 8 + |t.attributes|] == t.attributes
    ensures TransformsRead(blob, limit, o, p, seen) == Reading(ApplyTransform(o, t.kind, t.id, t.attributes), None)
  {
    hide ApplyTransform, ReadU16;
  }

  // ---------------------------------------------------------------- proposals

  /** An SA payload without bytes says nothing, one too short for a proposal is truncated, and a proposal is
      malformed if its length is below 8 or past the end, or does not hold its SPI. */
  lemma ProposalRefused(body: bytes, o: Obs)
    ensures |body| == 0 ==> ProposalsRead(body, o) == Reading(o, None)
    ensures 0 < |body| < 8 ==> ProposalsRead(body, o) == Reading(o, Some(TruncatedSaPayload))
    ensures |body| >= 8 ==>
              var length := body[2] as int * 256 + body[3] as int;
              && (!(8 <= length <= |body|) ==> ProposalsRead(body, o) == Reading(o, Some(MalformedProposal)))
              && (8 <= length <= |body| && 8 + body[6] as int > length ==>
                    ProposalsRead(body, o) == Reading(o, Some(MalformedProposalSpi)))
  {
    hide TransformsRead;
  }

  // ------------------------------------------------------------ notifications

  /** A notification's body: protocol and SPI size, which are not looked at, its type, and its data. */
  function Notify(protocol: byte, spiSize: byte, kind: uint16, data: bytes): Payload {
    Payload(41, [protocol, spiSize] + U16(kind) + data)
  }

  lemma NotifyFields(protocol: byte, spiSize: byte, kind: uint16, data: bytes)
    ensures var body := Notify(protocol, spiSize, kind, data).body;
            && |body| == 4 + |data| && ReadU16(body, 2) == kind && body[4..] == data
            && (|data| >= 2 ==> ReadU16(body, 4) as int == data[0] as int * 256 + data[1] as int)
  {
    var body := [protocol, spiSize] + U16(kind) + data;
    AtWhole(body);
    assert body == [protocol, spiSize] + (U16(kind) + data);
    AtSplit(body, 0, [protocol, spiSize], U16(kind) + data);
    AtSplit(body, 2, U16(kind), data);
    AtU16(body, 2, kind);
    assert body[4..] == data;
    if |data| >= 2 {
      assert body[4] == data[0] && body[5] == data[1];
    }
  }

  /** What a notification of an error is noted as. */
  function NoteOf(kind: uint16, data: bytes): string {
    if kind == 17 && |data| >= 2 then "INVALID_KE_PAYLOAD:" + GroupName(data[0] as int * 256 + data[1] as int)
    else "NOTIFY_" + Decimal(kind)
  }

  /** Every notification: an error is noted, by its group if it asks for one and else by its number; a COOKIE is kept;
      the other status types change nothing. */
  lemma NotifyMeans(protocol: byte, spiSize: byte, kind: uint16, data: bytes, o: Obs, r: Reading)
    requires r == PayloadRead(Notify(protocol, spiSize, kind, data), o)
    ensures r.error.None?
    ensures kind < 16384 && (kind != 17 || |data| < 2) ==>
              r.obs == o.(notifyErrors := o.notifyErrors + ["NOTIFY_" + Decimal(kind)])
    ensures kind == 17 && |data| >= 2 ==>
              var name := GroupName(data[0] as int * 256 + data[1] as int);
              r.obs == o.(dhGroup := Some(name), notifyErrors := o.notifyErrors + ["INVALID_KE_PAYLOAD:" + name])
    ensures kind == 16390 ==> r.obs == o.(cookie := Some(data))
    ensures kind >= 16384 && kind != 16390 ==> r.obs == o
  {
    hide GroupName, Decimal, ReadU16;
    NotifyFields(protocol, spiSize, kind, data);
  }

  datatype Notice = Notice(protocol: byte, spiSize: byte, kind: uint16, data: bytes)

  function Notices(ns: seq<Notice>): seq<Payload> {
    seq(|ns|, i requires 0 <= i < |ns| => Notify(ns[i].protocol, ns[i].spiSize, ns[i].kind, ns[i].data))
  }

  /** Any number of error notifications are all noted, in order, and none stops the reading. */
  lemma {:induction false} NoticesInOrder(ns: seq<Notice>, o: Obs, r: Reading)
    requires forall i :: 0 <= i < |ns| ==> ns[i].kind < 16384
    requires r == FoldPayloads(o, Notices(ns))
    ensures r.error.None? && |r.obs.notifyErrors| == |o.notifyErrors| + |ns| && o.notifyErrors <= r.obs.notifyErrors
    ensures forall i :: 0 <= i < |ns| ==> r.obs.notifyErrors[|o.notifyErrors| + i] == NoteOf(ns[i].kind, ns[i].data)
    ensures r.obs == o.(notifyErrors := r.obs.notifyErrors, dhGroup := r.obs.dhGroup)
  {
    hide Notify, PayloadRead, NoteOf;
    if ns != [] {
      var n, ps := ns[0], Notices(ns);
      var first := PayloadRead(ps[0], o);
      NoticeNoted(n, o, first);
      assert ps[1..] == Notices(ns[1..]);
      NoticesInOrder(ns[1..], first.obs, r);
    }
  }

  lemma NoticeNoted(n: Notice, o: Obs, r: Reading)
    requires n.kind < 16384 && r == PayloadRead(Notify(n.protocol, n.spiSize, n.kind, n.data), o)
    ensures r.error.None? && r.obs.notifyErrors == o.notifyErrors + [NoteOf(n.kind, n.data)]
    ensures r.obs == o.(notifyErrors := r.obs.notifyErrors, dhGroup := r.obs.dhGroup)
  {
    hide Notify, PayloadRead, GroupName, Decimal;
    NotifyMeans(n.protocol, n.spiSize, n.kind, n.data, o, r);
  }

  // ----------------------------------------------------------------- payloads

  /** Payload by payload: an SA payload is read as a proposal, a notification with a type as such, and all others, the
      shorter notifications among them, are passed over. */
  lemma PayloadMeans(p: Payload, o: Obs)
    ensures p.kind == 33 ==> PayloadRead(p, o) == ProposalsRead(p.body, o)
    ensures p.kind != 33 && (p.kind != 41 || |p.body| < 4) ==> PayloadRead(p, o) == Reading(o, None)
  {
    hide ProposalsRead;
  }

  /** The first payload that is malformed ends the reading, with all that was read before it and in it. */
  lemma {:induction false} MalformedEnds(o: Obs, ps: seq<Payload>, bad: Payload, more: seq<Payload>)
    requires FoldPayloads(o, ps).error.None? && PayloadRead(bad, FoldPayloads(o, ps).obs).error.Some?
    ensures FoldPayloads(o, ps + [bad] + more) == PayloadRead(bad, FoldPayloads(o, ps).obs)
    decreases ps
  {
    hide PayloadRead;
    var all := ps + [bad] + more;
    if ps != [] {
      assert all[0] == ps[0] && all[1..] == ps[1..] + [bad] + more;
      MalformedEnds(PayloadRead(ps[0], o).obs, ps[1..], bad, more);
    } else {
      assert all[0] == bad;
    }
  }

  /** Where a payload should begin: nothing more is read when none was announced or fewer than 4 bytes are left, and a
      length below 4 or past the end is malformed. */
  lemma PayloadsEnd(data: bytes, o: Obs, next: byte, p: nat)
    ensures next == 0 || |data| < p + 4 ==> PayloadsRead(data, o, next, p) == Reading(o, None)
    ensures next != 0 && p + 4 <= |data| ==>
              var length := data[p + 2] as int * 256 + data[p + 3] as int;
              !(4 <= length && p + length <= |data|) ==>
                PayloadsRead(data, o, next, p) == Reading(o, Some(MalformedPayload))
  {
    hide PayloadRead;
  }

  /** The same behind any whole payloads: `next` is the kind announced for what is not there or not well formed. */
  lemma {:induction false} PayloadsBefore(data: bytes, p: nat, ps: seq<Payload>, next: byte, rest: bytes, o: Obs)
    requires forall i :: 0 <= i < |ps| ==> 4 + |ps[i].body| < 0x1_0000 && ps[i].kind != 0
    requires ps != [] && FoldPayloads(o, ps).error.None?
    requires At(data, p, EncodeOpen(ps, next) + rest)
    ensures PayloadsRead(data, o, ps[0].kind, p)
         == PayloadsRead(data, FoldPayloads(o, ps).obs, next, p + |EncodeOpen(ps, next)|)
    decreases ps
  {
    hide PayloadRead, At, EncodePayload;
    var after := if |ps| == 1 then next else ps[1].kind;
    var tail := EncodeOpen(ps[1..], next);
    assert EncodeOpen(ps, next) + rest == EncodePayload(after, ps[0].body) + (tail + rest);
    AtSplit(data, p, EncodePayload(after, ps[0].body), tail + rest);
    assert Payload(ps[0].kind, ps[0].body) == ps[0];
    var r := PayloadRead(ps[0], o);
    PayloadStep(data, p, ps[0].kind, after, ps[0].body, o, r.obs);
    PayloadSize(after, ps[0].body);
    if |ps| > 1 {
      PayloadsBefore(data, p + 4 + |ps[0].body|, ps[1..], next, rest, r.obs);
    } else {
      assert ps[1..] == [] && tail == [];
    }
  }

  lemma PayloadSize(next: byte, body: bytes)
    requires 4 + |body| < 0x1_0000
    ensures |EncodePayload(next, body)| == 4 + |body|
  {
  }

  /** Payloads of which the last announces `next`. */
  function EncodeOpen(ps: seq<Payload>, next: byte): bytes
    requires forall i :: 0 <= i < |ps| ==> 4 + |ps[i].body| < 0x1_0000
  {
    if ps == [] then []
    else EncodePayload(if |ps| == 1 then next else ps[1].kind, ps[0].body) + EncodeOpen(ps[1..], next)
  }

  // ------------------------------------------------------------------ replies

  /** A response shorter than its header says nothing; any other has the version of its header's upper four bits, and
      its payloads are read from byte 28 on, the first under the kind in byte 16. */
  lemma ResponseHeader(data: bytes, o: Obs)
    ensures |data| < 28 ==> ResponseRead(data, o) == Reading(o, Some(TruncatedHeader))
    ensures |data| >= 28 ==> forall v :: 16 * v <= data[17] as int < 16 * v + 16 ==>
              ResponseRead(data, o) == PayloadsRead(data, o.(versionMajor := Some(v)), data[16], 28)
  {
    hide PayloadsRead;
  }

  /** On port 4500, and there only, a packet goes out behind four zero bytes, which are taken off a reply that has
      them. */
  lemma NonEspMarker(port: nat, packet: bytes)
    ensures port == 4500 ==>
              OnWire(port, packet) == [0, 0, 0, 0] + packet && OffWire(port, [0, 0, 0, 0] + packet) == packet
    ensures port != 4500 ==> OnWire(port, packet) == packet && OffWire(port, packet) == packet
    ensures port == 4500 && !([0, 0, 0, 0] <= packet) ==> OffWire(port, packet) == packet
  {
    assert ([0, 0, 0, 0] + packet)[4..] == packet;
  }

  /** What is reported of an exchange: why there is no answer, in the words of the program; or what the answer says, in
      part and with a reason if it is malformed. */
  lemma AnswerMeans(port: nat, e: Exchange, o: Obs)
    requires o == Answer(port, e).obs
    ensures e.reply.Silence? ==> o == NOTHING.(notTestable := Some("no_ike_response"))
    ensures e.reply.Fault? ==> o == NOTHING.(notTestable := Some("ike_probe_failed"))
    ensures e.reply.Datagram? ==>
              var data := OffWire(port, e.reply.data);
              if !(e.spi <= data) then o == NOTHING.(notTestable := Some("spi_mismatch"))
              else
                var r := ResponseRead(data, NOTHING.(responded := true));
                if r.error.None? then o == r.obs else o == r.obs.(notTestable := Some("ike_probe_failed"))
  {
    hide ResponseRead, OffWire;
  }

  /** Datagrams sent for one exchange: one if the first is answered, two if only the repeated one is or none is, and as
      many as went out before a fault. */
  lemma DatagramsSent(r: Reply)
    ensures r.Silence? || (r.Datagram? && r.repeated) ==> Sent(r) == 2
    ensures r.Datagram? && !r.repeated ==> Sent(r) == 1
    ensures r.Fault? ==> Sent(r) == r.sent
  {
  }

  // ----------------------------------------------------------------- requests

  /** The header of a request, byte by byte. */
  lemma RequestHeader(spi: bytes, cookie: Option<bytes>, body: bytes, data: bytes)
    requires |spi| == 8 && (cookie.Some? ==> |cookie.value| + 8 < 0x1_0000)
    requires 28 + (if cookie.Some? then 8 + |cookie.value| else 0) + |body| < 0x1_0000_0000
    requires data == IkeSaInit(spi, cookie, body)
    ensures |data| >= 28 && data[..8] == spi && data[8..16] == [0, 0, 0, 0, 0, 0, 0, 0]
    ensures data[16] == if cookie.Some? then 41 else 33
    ensures data[17] == 0x20 && data[18] == 34 && data[19] == 0x08 && data[20..24] == [0, 0, 0, 0]
  {
    hide Header, CookiePayload;
    match cookie {
      case None =>
        HeaderBytes(spi, 33, 28 + |body|, body);
      case Some(c) =>
        CookieShape(c);
        HeaderBytes(spi, 41, 28 + |CookiePayload(c) + body|, CookiePayload(c) + body);
    }
  }

  lemma HeaderBytes(spi: bytes, first: byte, length: nat, rest: bytes)
    requires |spi| == 8 && length < 0x1_0000_0000
    ensures var data := Header(spi, first, length) + rest;
            && |data| >= 28 && data[..8] == spi && data[8..16] == [0, 0, 0, 0, 0, 0, 0, 0] && data[16] == first
            && data[17] == 0x20 && data[18] == 34 && data[19] == 0x08 && data[20..24] == [0, 0, 0, 0]
  {
    hide U32;
    ZeroWord();
    var head := spi + ZEROS + [first, 0x20, 34, 0x08] + U32(0);
    assert Header(spi, first, length) + rest == head + (U32(length) + rest);
    assert head[..8] == spi && head[8..16] == ZEROS && head[20..24] == U32(0);
  }

  lemma ZeroWord()
    ensures U32(0) == [0, 0, 0, 0]
  {
  }

  /** What a request carries behind its header: an SA payload with the offer, a KE payload with the group and its value,
      and a nonce. */
  lemma RequestBody(group: uint16, keyValue: KeyValue, nonce: Nonce, ps: seq<Payload>)
    requires ps == [Payload(33, Offer()), Payload(34, U16(group) + [0, 0] + keyValue), Payload(40, nonce)]
    ensures 4 + |Offer()| < 0x1_0000 && SaInitBody(group, keyValue, nonce) == EncodeChain(ps)
  {
    hide EncodePayload, Offer;
    assert ps[1..] == [ps[1], ps[2]] && ps[1..][1..] == [ps[2]] && ps[1..][1..][1..] == [];
    assert EncodeChain(ps[1..][1..]) == EncodePayload(0, nonce) + [] == EncodePayload(0, nonce);
    assert U16(0) == [0, 0];
  }

  /** A written proposal's header: the only one, number 1, for IKE, with its SPI and as many transforms as it has. */
  lemma ProposalBytes(spi: bytes, ts: seq<Transform>, body: bytes)
    requires |spi| < 256 && |ts| < 256 && body == EncodeProposal(spi, ts)
    ensures |body| == 8 + |spi| + |EncodeTransforms(ts)|
    ensures body[0] == 0 && body[1] == 0 && body[2] as int * 256 + body[3] as int == |body|
    ensures body[4] == 1 && body[5] == 1 && body[6] == |spi| && body[7] == |ts| && body[8..8 + |spi|] == spi
  {
    TransformsFit(ts);
    hide EncodeTransforms;
  }

  /** A written transform's attribute: the key length in the short form, left out when there is none or it is 0. */
  lemma AttributeBytes(t: Transform)
    ensures t.keyBits.None? || t.keyBits == Some(0) ==> AttributesOf(t) == []
    ensures t.keyBits.Some? && t.keyBits.value != 0 ==>
              AttributesOf(t) == [128, 14, t.keyBits.value / 256, t.keyBits.value % 256]
  {
  }

  /** A cookie leads a request as a COOKIE notification that announces an SA payload. */
  lemma CookieBytes(spi: bytes, cookie: bytes, body: bytes)
    requires |spi| == 8 && |cookie| + 8 < 0x1_0000 && 36 + |cookie| + |body| < 0x1_0000_0000
    ensures var data := IkeSaInit(spi, Some(cookie), body);
            data[28..36] == [33, 0] + U16(8 + |cookie|) + [0, 0, 64, 6] && data[36..36 + |cookie|] == cookie
  {
    var inner := [0, 0] + U16(COOKIE) + cookie;
    var payload, data := CookiePayload(cookie), IkeSaInit(spi, Some(cookie), body);
    CookieShape(cookie);
    hide CookiePayload, EncodePayload, IkeSaInit, Header;
    RequestCookie(spi, cookie, body);
    assert data[28..36] == (payload + body)[..8] == payload[..8];
    assert data[36..36 + |cookie|] == (payload + body)[8..8 + |cookie|] == payload[8..];
    CookiePayloadBytes(cookie);
  }

  lemma RequestCookie(spi: bytes, cookie: bytes, body: bytes)
    requires |spi| == 8 && |cookie| + 8 < 0x1_0000 && 36 + |cookie| + |body| < 0x1_0000_0000
    ensures |CookiePayload(cookie)| == 8 + |cookie|
    ensures IkeSaInit(spi, Some(cookie), body)[28..] == CookiePayload(cookie) + body
  {
    hide CookiePayload, Header;
    CookieShape(cookie);
    var rest := CookiePayload(cookie) + body;
    HeaderFields(spi, NOTIFY, 28 + |rest|, rest);
    AtEnd(IkeSaInit(spi, Some(cookie), body), 28, rest);
  }

  lemma CookiePayloadBytes(cookie: bytes)
    requires |cookie| + 8 < 0x1_0000
    ensures CookiePayload(cookie) == [33, 0] + U16(8 + |cookie|) + [0, 0, 64, 6] + cookie
  {
    assert U16(COOKIE) == [64, 6];
  }
}
