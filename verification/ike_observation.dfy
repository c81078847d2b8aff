/** The probe as it runs: an observation that parsing updates in place, a proposal that is
    assembled and patched, and a probe that calls itself for its retries. */
module IkeObservations {
  import opened Bytes
  import opened IkeNames
  import opened IkeCodec
  import opened IkeProbe
  import opened IkeRoundTrip

  class IkeObservation {
    var responded: bool
    var versionMajor: Option<nat>
    var encryption: Option<string>
    var keyBits: Option<nat>
    var prf: Option<string>
    var integrity: Option<string>
    var dhGroup: Option<string>
    var notifyErrors: seq<string>
    var cookie: Option<bytes>
    var notTestable: Option<string>

    function Value(): Obs
      reads this
    {
      Obs(responded, versionMajor, encryption, keyBits, prf, integrity, dhGroup, notifyErrors, cookie, notTestable)
    }

    constructor ()
      ensures Value() == NOTHING
    {
      responded, versionMajor, encryption, keyBits := false, None, None, None;
      prf, integrity, dhGroup, notifyErrors, cookie, notTestable := None, None, None, [], None, None;
    }
  }

  // ---------------------------------------------------------------- writing

  function OfferedTransforms(encryption: seq<(uint16, Option<uint16>)>, prf: seq<uint16>, integrity: seq<uint16>,
                             dh: seq<uint16>): seq<Transform> {
    seq(|encryption|, i requires 0 <= i < |encryption| => Transform(ENCR, encryption[i].0, encryption[i].1))
    + seq(|prf|, i requires 0 <= i < |prf| => Transform(PRF, prf[i], None))
    + seq(|integrity|, i requires 0 <= i < |integrity| => Transform(INTEG, integrity[i], None))
    + seq(|dh|, i requires 0 <= i < |dh| => Transform(DH, dh[i], None))
  }

  function Unmarked(ts: seq<Transform>): seq<bytes> {
    seq(|ts|, i requires 0 <= i < |ts| => EncodeTransform(false, ts[i]))
  }

  lemma MarkedTransform(t: Transform)
    ensures [0] + EncodeTransform(false, t)[1..] == EncodeTransform(true, t)
  {
  }

  lemma UnmarkedSnoc(ts: seq<Transform>, i: nat)
    requires i < |ts|
    ensures Unmarked(ts[..i + 1]) == Unmarked(ts[..i]) + [EncodeTransform(false, ts[i])]
  {
  }

  /** Clearing the first byte of the last transform is all that marks the list as ended. */
  lemma {:induction false} PatchedIsMarked(ts: seq<Transform>)
    requires ts != []
    ensures var chunks := Unmarked(ts);
            var last := |ts| - 1;
            Concat(chunks[last := [0] + chunks[last][1..]]) == EncodeTransforms(ts)
  {
    var chunks, last := Unmarked(ts), |ts| - 1;
    var patched := chunks[last := [0] + chunks[last][1..]];
    hide EncodeTransform;
    if |ts| == 1 {
      MarkedTransform(ts[0]);
      assert patched == [EncodeTransform(true, ts[0])];
      assert patched[1..] == [] && ts[1..] == [];
      assert Concat(patched) == patched[0] + Concat([]) == EncodeTransform(true, ts[0]);
    } else {
      var rest := Unmarked(ts[1..]);
      assert patched[1..] == rest[last - 1 := [0] + rest[last - 1][1..]];
      PatchedIsMarked(ts[1..]);
      assert patched[0] == EncodeTransform(false, ts[0]);
    }
  }

  lemma OfferedAt(encryption: seq<(uint16, Option<uint16>)>, prf: seq<uint16>, integrity: seq<uint16>, dh: seq<uint16>)
    ensures var ts := OfferedTransforms(encryption, prf, integrity, dh);
            && |ts| == |encryption| + |prf| + |integrity| + |dh|
            && (forall i :: 0 <= i < |encryption| ==> ts[i] == Transform(ENCR, encryption[i].0, encryption[i].1))
            && (forall i :: 0 <= i < |prf| ==> ts[|encryption| + i] == Transform(PRF, prf[i], None))
            && (forall i :: 0 <= i < |integrity| ==>
                ts[|encryption| + |prf| + i] == Transform(INTEG, integrity[i], None))
            && (forall i :: 0 <= i < |dh| ==> ts[|encryption| + |prf| + |integrity| + i] == Transform(DH, dh[i], None))
  {
  }

  method BuildProposal(encryption: seq<(uint16, Option<uint16>)>, prf: seq<uint16>, integrity: seq<uint16>,
                       dh: seq<uint16>) returns (r: bytes)
    requires 0 < |encryption| + |prf| + |integrity| + |dh| < 256
    ensures r == EncodeProposal([], OfferedTransforms(encryption, prf, integrity, dh))
  {
    hide EncodeTransform, OfferedTransforms;
    ghost var ts := OfferedTransforms(encryption, prf, integrity, dh);
    OfferedAt(encryption, prf, integrity, dh);
    var transforms: seq<bytes> := [];
    for i := 0 to |encryption|
      invariant transforms == Unmarked(ts[..i])
    {
      UnmarkedSnoc(ts, i);
      transforms := transforms + [EncodeTransform(false, Transform(ENCR, encryption[i].0, encryption[i].1))];
    }
    ghost var done := |encryption|;
    for i := 0 to |prf|
      invariant transforms == Unmarked(ts[..done + i])
    {
      UnmarkedSnoc(ts, done + i);
      transforms := transforms + [EncodeTransform(false, Transform(PRF, prf[i], None))];
    }
    done := done + |prf|;
    for i := 0 to |integrity|
      invariant transforms == Unmarked(ts[..done + i])
    {
      UnmarkedSnoc(ts, done + i);
      transforms := transforms + [EncodeTransform(false, Transform(INTEG, integrity[i], None))];
    }
    done := done + |integrity|;
    for i := 0 to |dh|
      invariant transforms == Unmarked(ts[..done + i])
    {
      UnmarkedSnoc(ts, done + i);
      transforms := transforms + [EncodeTransform(false, Transform(DH, dh[i], None))];
    }
    assert ts[..done + |dh|] == ts;
    r := SealProposal(ts, transforms);
  }

  /** The proposal every probe sends. */
  method OfferedProposal() returns (r: bytes)
    ensures r == Offer()
  {
    var encryption: seq<(uint16, Option<uint16>)> := [(20, Some(256)), (20, Some(128)), (12, Some(256)),
        (12, Some(128)), (3, None)];
    var prf: seq<uint16> := [7, 6, 5, 2];
    var integrity: seq<uint16> := [14, 13, 12, 2, 0];
    var dh: seq<uint16> := [20, 19, 15, 16, 14, 2];
    r := BuildProposal(encryption, prf, integrity, dh);
    assert OfferedTransforms(encryption, prf, integrity, dh) == OFFERED;
  }

  /** Marks the last transform and puts the proposal header in front. */
  method SealProposal(ghost ts: seq<Transform>, transforms: seq<bytes>) returns (r: bytes)
    requires 0 < |ts| < 256 && transforms == Unmarked(ts)
    ensures r == EncodeProposal([], ts)
  {
    var last := |transforms| - 1;
    var tail := transforms[last];
    PatchedIsMarked(ts);
    TransformsFit(ts);
    var blob := Concat(transforms[last := [0] + tail[1..]]);
    assert blob == EncodeTransforms(ts);
    hide Concat, EncodeTransforms, Unmarked, EncodeTransform;
    r := [0, 0] + U16(8 + |blob|) + [1, 1, 0, |transforms|] + blob;
    assert r == [0, 0] + U16(8 + |blob|) + [1, 1, 0, |transforms|] + [] + blob;
  }

  // ---------------------------------------------------------------- reading

  method ParseTransforms(blob: bytes, observation: IkeObservation, limit: nat) returns (error: Option<Malformation>)
    modifies observation
    ensures Reading(observation.Value(), error) == TransformsRead(blob, limit, old(observation.Value()), 0, 0)
  {
    var position, seen := 0, 0;
    while position + 8 <= |blob| && seen < limit
      invariant TransformsRead(blob, limit, old(observation.Value()), 0, 0)
             == TransformsRead(blob, limit, observation.Value(), position, seen)
      decreases |blob| - position
    {
      seen := seen + 1;
      var last, length := blob[position], ReadU16(blob, position + 2);
      var kind, id := blob[position + 4], ReadU16(blob, position + 6);
      if length < 8 || position + length > |blob| {
        return Some(MalformedTransform);
      }
      var attributes := blob[position + 8..position + length];
      if kind == ENCR {
        observation.encryption := Some(EncryptionName(id));
        if |attributes| >= 4 {
          var attrType, value := ReadU16(attributes, 0), ReadU16(attributes, 2);
          if attrType % 0x8000 == KEY_LENGTH {
            observation.keyBits := Some(value);
          }
        }
      } else if kind == PRF {
        observation.prf := Some(PrfName(id));
      } else if kind == INTEG {
        observation.integrity := Some(IntegrityName(id));
      } else if kind == DH {
        observation.dhGroup := Some(GroupName(id));
      }
      position := position + length;
      if last == 0 {
        return None;
      }
    }
    return None;
  }

  method ParseProposals(body: bytes, observation: IkeObservation) returns (error: Option<Malformation>)
    modifies observation
    ensures Reading(observation.Value(), error) == ProposalsRead(body, old(observation.Value()))
  {
    if 8 <= |body| {
      var length := ReadU16(body, 2);
      var spiSize, count := body[6], body[7];
      if length < 8 || length > |body| {
        return Some(MalformedProposal);
      }
      var start := 8 + spiSize as int;
      if start > length {
        return Some(MalformedProposalSpi);
      }
      error := ParseTransforms(body[start..length], observation, count);
      return;
    }
    if body != [] {
      return Some(TruncatedSaPayload);
    }
    return None;
  }

  method ParseResponse(data: bytes, observation: IkeObservation) returns (error: Option<Malformation>)
    modifies observation
    ensures Reading(observation.Value(), error) == ResponseRead(data, old(observation.Value()))
  {
    if |data| < 28 {
      return Some(TruncatedHeader);
    }
    observation.versionMajor := Some(data[17] / 16);
    var next, position := data[16], 28;
    while position + 4 <= |data| && next != 0
      invariant ResponseRead(data, old(observation.Value()))
             == PayloadsRead(data, observation.Value(), next, position)
      decreases |data| - position
    {
      var this_ := next;
      next := data[position];
      var length := ReadU16(data, position + 2);
      if length < 4 || position + length > |data| {
        return Some(MalformedPayload);
      }
      var body := data[position + 4..position + length];
      ghost var payload, before := Payload(this_, body), observation.Value();
      if this_ == SA {
        error := ParseProposals(body, observation);
        if error.Some? {
          return;
        }
      } else if this_ == NOTIFY && |body| >= 4 {
        ParseNotify(body, observation);
      }
      assert PayloadRead(payload, before) == Reading(observation.Value(), None);
      position := position + length;
    }
    return None;
  }

  method ParseNotify(body: bytes, observation: IkeObservation)
    requires |body| >= 4
    modifies observation
    ensures observation.Value() == NotifyRead(body, old(observation.Value()))
  {
    var kind := ReadU16(body, 2);
    if kind == COOKIE {
      observation.cookie := Some(body[4..]);
    } else if kind < 16384 {
      if kind == INVALID_KE_PAYLOAD && |body| >= 6 {
        var name := GroupName(ReadU16(body, 4));
        observation.dhGroup := Some(name);
        observation.notifyErrors := observation.notifyErrors + [INVALID_KE_PREFIX + name];
      } else {
        observation.notifyErrors := observation.notifyErrors + [NotifyName(kind)];
      }
    }
  }

  // ---------------------------------------------------------------- probing

  /** What has crossed the network so far, against one responder. */
  class Network {
    const world: World
    const port: nat
    var log: seq<Exchange>

    constructor (world: World, port: nat)
      ensures this.world == world && this.port == port && log == []
    {
      this.world, this.port, log := world, port, [];
    }

    method Send(spi: Spi, group: uint16, cookie: Option<Cookie>, body: Body, packet: bytes) returns (reply: Reply)
      modifies this
      ensures reply == world.respond(old(log), packet)
      ensures log == old(log) + [Exchange(spi, group, cookie, body, packet, reply)]
    {
      reply := world.respond(log, packet);
      log := log + [Exchange(spi, group, cookie, body, packet, reply)];
    }
  }

  /** One exchange and what its reply says; `usable` when a retry may act on it. */
  method Ask(net: Network, group: uint16, cookie: Option<Cookie>, spi: Option<Spi>, body: Option<Body>)
    returns (observation: IkeObservation, usable: bool, e: Exchange)
    modifies net
    ensures fresh(observation)
    ensures e == FirstExchange(net.world, net.port, group, cookie, spi, body, old(net.log))
    ensures net.log == old(net.log) + [e]
    ensures observation.Value() == Answer(net.port, e).obs && usable == Usable(net.port, e)
  {
    hide ResponseRead, IkeSaInit;
    observation := new IkeObservation();
    var now := |net.log|;
    var mySpi := if spi.Some? then spi.value else net.world.spi(now);
    var myBody := if body.Some? then body.value
                  else SaInitBody(group, net.world.keyValue(now, group), net.world.nonce(now));
    var packet := OnWire(net.port, IkeSaInit(mySpi, cookie, myBody));
    var reply := net.Send(mySpi, group, cookie, myBody, packet);
    e := Exchange(mySpi, group, cookie, myBody, packet, reply);
    usable := false;
    match reply {
      case Silence =>
        observation.notTestable := Some("no_ike_response");
      case Fault(_) =>
        observation.notTestable := Some("ike_probe_failed");
      case Datagram(raw, _) =>
        var data := OffWire(net.port, raw);
        if !(mySpi <= data) {
          observation.notTestable := Some("spi_mismatch");
          return;
        }
        observation.responded := true;
        assert observation.Value() == NOTHING.(responded := true);
        var error := ParseResponse(data, observation);
        if error.Some? {
          observation.notTestable := Some("ike_probe_failed");
        } else {
          usable := true;
        }
    }
  }

  method ProbeIke(net: Network, group: uint16, retry: bool, cookie: Option<Cookie>, spi: Option<Spi>,
                  body: Option<Body>) returns (observation: IkeObservation)
    modifies net
    ensures fresh(observation)
    ensures Run(observation.Value(), net.log)
         == Probe(net.world, net.port, group, retry, cookie, spi, body, old(net.log))
    decreases Measure(retry, cookie), 1
  {
    hide ResponseRead, IkeSaInit, Answer, Usable, FirstExchange, RetryInGroup;
    var usable, e;
    observation, usable, e := Ask(net, group, cookie, spi, body);
    if !usable {
      return;
    }
    AnswerCookieFits(net.port, e);
    if observation.cookie.Some? && cookie.None? {
      var withCookie := ProbeIke(net, group, retry, observation.cookie, Some(e.spi), Some(e.body));
      if withCookie.responded {
        withCookie.notifyErrors := [COOKIE_ANSWERED] + withCookie.notifyErrors;
        return withCookie;
      }
    }
    observation := AskInGroup(net, group, retry, cookie, observation);
  }

  method AskInGroup(net: Network, group: uint16, retry: bool, ghost cookie: Option<Cookie>, observation: IkeObservation)
    returns (r: IkeObservation)
    modifies net
    ensures r == observation || fresh(r)
    ensures Run(r.Value(), net.log)
         == RetryInGroup(net.world, net.port, group, retry, cookie, old(observation.Value()), old(net.log))
    decreases Measure(retry, cookie), 0
  {
    hide Probe, FirstInvalidKe, AfterColon, CodeOf;
    var wanted := FirstInvalidKe(observation.notifyErrors);
    if wanted.Some? && retry {
      var name := AfterColon(wanted.value);
      var code := if name.Some? then CodeOf(DH_GROUP_NAMES, name.value) else None;
      if code.Some? && code.value != group {
        var second := ProbeIke(net, code.value, false, None, None, None);
        if second.responded && second.encryption.Some? {
          second.notifyErrors := observation.notifyErrors + second.notifyErrors;
          return second;
        }
      }
    }
    return observation;
  }
}
