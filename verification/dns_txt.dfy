/** DNS names and TXT answers: what is written, what the reader makes of any bytes, and the
    loops that read them. */
module DnsTxt {
  import opened Bytes

  datatype DnsError =
    | IdMismatch
    | NotAResponse
    | Rcode(code: nat)
    | TruncatedName

  const TXT: uint16 := 16
  const COMPRESSED: byte := 0xC0

  /** A name on the wire: labels, then the root or a pointer to the rest of the name. */
  datatype WireName = Plain(labels: seq<bytes>) | Compressed(labels: seq<bytes>, high: byte, low: byte)

  datatype Question = Question(name: WireName, kind: uint16, class_: uint16)

  datatype Record =
    | TxtRecord(name: WireName, class_: uint16, ttl: nat, strings: seq<bytes>)
    | OtherRecord(name: WireName, kind: uint16, class_: uint16, ttl: nat, rdata: bytes)

  datatype Message = Message(id: uint16, flags: uint16, questions: seq<Question>, answers: seq<Record>, counts: bytes)

  // ---------------------------------------------------------------- writing

  ghost predicate Short(labels: seq<bytes>, bound: nat) {
    forall i :: 0 <= i < |labels| ==> |labels[i]| < bound
  }

  function LabelBytes(labels: seq<bytes>): bytes
    requires Short(labels, 256)
  {
    if labels == [] then []
    else LabelChunk(labels[0]) + LabelBytes(labels[1..])
  }

  /** A label behind its length; an empty one is left out. */
  function LabelChunk(text: bytes): bytes
    requires |text| < 256
  {
    if text == [] then [] else [|text|] + text
  }

  function EncodeName(labels: seq<bytes>): bytes
    requires Short(labels, 256)
  {
    LabelBytes(labels) + [0]
  }

  ghost predicate ValidName(name: WireName) {
    Short(name.labels, COMPRESSED) && (name.Compressed? ==> name.high >= COMPRESSED)
  }

  ghost function EncodeWire(name: WireName): bytes
    requires ValidName(name)
  {
    match name
    case Plain(labels) => EncodeName(labels)
    case Compressed(labels, high, low) => LabelBytes(labels) + [high, low]
  }

  function EncodeStrings(strings: seq<bytes>): bytes
    requires forall i :: 0 <= i < |strings| ==> |strings[i]| < 256
  {
    if strings == [] then [] else [|strings[0]|] + strings[0] + EncodeStrings(strings[1..])
  }

  ghost predicate ValidRecord(r: Record) {
    && ValidName(r.name) && r.ttl < 0x1_0000_0000
    && match r
       case TxtRecord(_, _, _, strings) =>
         (forall i :: 0 <= i < |strings| ==> |strings[i]| < 256) && |EncodeStrings(strings)| < 0x1_0000
       case OtherRecord(_, kind, _, _, rdata) => kind != 16 && |rdata| < 0x1_0000
  }

  ghost function KindOf(r: Record): uint16 {
    if r.TxtRecord? then 16 else r.kind
  }

  ghost function Rdata(r: Record): bytes
    requires ValidRecord(r)
  {
    match r
    case TxtRecord(_, _, _, strings) => EncodeStrings(strings)
    case OtherRecord(_, _, _, _, rdata) => rdata
  }

  ghost function RecordHead(r: Record): bytes
    requires ValidRecord(r)
  {
    U16(KindOf(r)) + U16(r.class_) + U32(r.ttl) + U16(|Rdata(r)|)
  }

  ghost function EncodeRecords(rs: seq<Record>): bytes
    requires forall i :: 0 <= i < |rs| ==> ValidRecord(rs[i])
  {
    if rs == [] then [] else
      assert ValidRecord(rs[0]);
      EncodeWire(rs[0].name) + (RecordHead(rs[0]) + (Rdata(rs[0]) + EncodeRecords(rs[1..])))
  }

  ghost function EncodeQuestions(qs: seq<Question>): bytes
    requires forall i :: 0 <= i < |qs| ==> ValidName(qs[i].name)
  {
    if qs == [] then [] else
      EncodeWire(qs[0].name) + (U16(qs[0].kind) + U16(qs[0].class_) + EncodeQuestions(qs[1..]))
  }

  ghost predicate ValidMessage(m: Message) {
    && |m.questions| < 0x1_0000 && |m.answers| < 0x1_0000 && |m.counts| == 4
    && (forall i :: 0 <= i < |m.questions| ==> ValidName(m.questions[i].name))
    && (forall i :: 0 <= i < |m.answers| ==> ValidRecord(m.answers[i]))
  }

  ghost function EncodeMessage(m: Message): bytes
    requires ValidMessage(m)
  {
    U16(m.id) + (U16(m.flags) + (U16(|m.questions|) + (U16(|m.answers|) + (m.counts
      + (EncodeQuestions(m.questions) + EncodeRecords(m.answers))))))
  }

  /** What a message says in TXT: the strings of every TXT answer joined, in order. */
  function TextsOf(rs: seq<Record>): seq<bytes> {
    if rs == [] then []
    else (if rs[0].TxtRecord? then [Concat(rs[0].strings)] else []) + TextsOf(rs[1..])
  }

  // ---------------------------------------------------------------- reading

  function NameEnd(data: bytes, position: nat): (r: Result<nat, DnsError>)
    ensures r.Ok? ==> position < r.value
    decreases |data| - position
  {
    if position < |data| then
      var length := data[position];
      if length == 0 then Ok(position + 1)
      else if length >= COMPRESSED then Ok(position + 2)
      else NameEnd(data, position + 1 + length as int)
    else
      Err(TruncatedName)
  }

  function Clip(data: bytes, from: nat, to: nat): bytes {
    if from >= |data| || from >= to then [] else if to <= |data| then data[from..to] else data[from..]
  }

  function TextRead(body: bytes, offset: nat): bytes
    decreases |body| - offset
  {
    if offset < |body| then
      var next := offset + 1 + body[offset] as int;
      Clip(body, offset + 1, next) + TextRead(body, next)
    else
      []
  }

  function QuestionsEnd(data: bytes, count: nat, position: nat): Result<nat, DnsError> {
    if count == 0 then Ok(position) else
    match NameEnd(data, position)
    case Err(e) => Err(e)
    case Ok(p) => QuestionsEnd(data, count - 1, p + 4)
  }

  /** The answer so far in front of what reading on gives. */
  function Prepend(records: seq<bytes>, rest: Result<seq<bytes>, DnsError>): Result<seq<bytes>, DnsError> {
    match rest
    case Err(e) => Err(e)
    case Ok(more) => Ok(records + more)
  }

  lemma PrependNothing(rest: Result<seq<bytes>, DnsError>)
    ensures Prepend([], rest) == rest
  {
    if rest.Ok? {
      assert [] + rest.value == rest.value;
    }
  }

  lemma PrependTo(records: seq<bytes>, more: seq<bytes>)
    ensures Prepend(records, Ok(more)) == Ok(records + more)
  {
  }

  lemma PrependSnoc(records: seq<bytes>, text: bytes, rest: Result<seq<bytes>, DnsError>)
    ensures Prepend(records, Prepend([text], rest)) == Prepend(records + [text], rest)
  {
    if rest.Ok? {
      assert records + ([text] + rest.value) == records + [text] + rest.value;
    }
  }

  function AnswersRead(data: bytes, count: nat, position: nat): Result<seq<bytes>, DnsError> {
    if count == 0 then Ok([]) else
    match NameEnd(data, position)
    case Err(e) => Err(e)
    case Ok(p) =>
      if p + 10 > |data| then Ok([]) else
      var end := p + 10 + ReadU16(data, p + 8) as int;
      Prepend(if ReadU16(data, p) == TXT then [TextRead(Clip(data, p + 10, end), 0)] else [],
              AnswersRead(data, count - 1, end))
  }

  function TxtRead(data: bytes, expectedId: uint16): Result<seq<bytes>, DnsError> {
    if |data| < 12 || ReadU16(data, 0) != expectedId then Err(IdMismatch) else
    var flags := ReadU16(data, 2);
    if flags < 0x8000 then Err(NotAResponse)
    else if flags % 16 !in {0, 3} then Err(Rcode(flags % 16))
    else
      match QuestionsEnd(data, ReadU16(data, 4), 12)
      case Err(e) => Err(e)
      case Ok(p) => AnswersRead(data, ReadU16(data, 6), p)
  }

  // ------------------------------------------------------------- round trip

  /** The end found for a written name is its end exactly when no label is long enough to read
      as a pointer; otherwise the reader stops short. */
  lemma {:induction false} LabelsSkipped(data: bytes, p: nat, labels: seq<bytes>)
    requires Short(labels, 256) && At(data, p, LabelBytes(labels))
    ensures Short(labels, COMPRESSED) ==> NameEnd(data, p) == NameEnd(data, p + |LabelBytes(labels)|)
    ensures !Short(labels, COMPRESSED) ==> NameEnd(data, p).Ok? && NameEnd(data, p).value < p + |LabelBytes(labels)|
    decreases labels
  {
    hide At, LabelBytes, NameEnd, Short;
    if labels == [] {
      NoLabels();
    } else {
      ShortSplit(labels);
      LabelSkipped(data, p, labels);
      LabelsSkipped(data, p + LabelSize(labels[0]), labels[1..]);
    }
  }

  function LabelSize(text: bytes): nat {
    if text == [] then 0 else 1 + |text|
  }

  lemma NoLabels()
    ensures Short([], COMPRESSED) && LabelBytes([]) == []
  {
  }

  lemma ShortSplit(labels: seq<bytes>)
    requires labels != []
    ensures Short(labels, COMPRESSED) <==> |labels[0]| < COMPRESSED && Short(labels[1..], COMPRESSED)
  {
    if |labels[0]| < COMPRESSED && Short(labels[1..], COMPRESSED) {
      forall i | 0 <= i < |labels| ensures |labels[i]| < COMPRESSED {
        assert i > 0 ==> labels[i] == labels[1..][i - 1];
      }
    }
  }

  /** The first label is stepped over, or taken for a pointer; an empty one leaves no byte. */
  lemma LabelSkipped(data: bytes, p: nat, labels: seq<bytes>)
    requires labels != [] && Short(labels, 256) && At(data, p, LabelBytes(labels))
    ensures Short(labels[1..], 256) && At(data, p + LabelSize(labels[0]), LabelBytes(labels[1..]))
    ensures |LabelBytes(labels)| == LabelSize(labels[0]) + |LabelBytes(labels[1..])|
    ensures |labels[0]| < COMPRESSED ==> NameEnd(data, p) == NameEnd(data, p + LabelSize(labels[0]))
    ensures |labels[0]| >= COMPRESSED ==> NameEnd(data, p) == Ok(p + 2)
  {
    var first, rest := LabelChunk(labels[0]), LabelBytes(labels[1..]);
    assert |first| == LabelSize(labels[0]) && LabelBytes(labels) == first + rest;
    AtSplit(data, p, first, rest);
    hide LabelBytes, Short;
    ChunkSkipped(data, p, labels[0]);
  }

  lemma ChunkSkipped(data: bytes, p: nat, text: bytes)
    requires |text| < 256 && At(data, p, LabelChunk(text))
    ensures |text| < COMPRESSED ==> NameEnd(data, p) == NameEnd(data, p + LabelSize(text))
    ensures |text| >= COMPRESSED ==> NameEnd(data, p) == Ok(p + 2)
  {
    hide NameEnd;
    if text != [] {
      AtByte(data, p, LabelChunk(text), 0);
      NameStep(data, p);
    }
  }

  lemma NameStep(data: bytes, p: nat)
    requires p < |data| && data[p] != 0
    ensures NameEnd(data, p) == if data[p] >= COMPRESSED then Ok(p + 2) else NameEnd(data, p + 1 + data[p] as int)
  {
  }

  lemma NameSkipped(data: bytes, p: nat, labels: seq<bytes>)
    requires Short(labels, 256) && At(data, p, EncodeName(labels))
    ensures NameEnd(data, p) == Ok(p + |EncodeName(labels)|) <==> Short(labels, COMPRESSED)
  {
    hide At, LabelBytes, NameEnd, Short;
    var end := p + |LabelBytes(labels)|;
    AtSplit(data, p, LabelBytes(labels), [0]);
    AtBound(data, end, [0]);
    AtByte(data, end, [0], 0);
    NameStops(data, end);
    LabelsSkipped(data, p, labels);
  }

  lemma NameStops(data: bytes, p: nat)
    requires p < |data| && data[p] == 0
    ensures NameEnd(data, p) == Ok(p + 1)
  {
  }

  lemma WireSkipped(data: bytes, p: nat, name: WireName)
    requires ValidName(name) && At(data, p, EncodeWire(name))
    ensures NameEnd(data, p) == Ok(p + |EncodeWire(name)|)
  {
    match name {
      case Plain(labels) => NameSkipped(data, p, labels);
      case Compressed(labels, high, low) =>
        AtSplit(data, p, LabelBytes(labels), [high, low]);
        AtByte(data, p + |LabelBytes(labels)|, [high, low], 0);
        LabelsSkipped(data, p, labels);
    }
  }

  lemma StringClipped(body: bytes, p: nat, s: bytes)
    requires |s| < 256 && At(body, p, [|s|] + s)
    ensures body[p] == |s| && Clip(body, p + 1, p + 1 + |s|) == s
  {
    AtByte(body, p, [|s|] + s, 0);
    AtSlice(body, p, [|s|] + s, 1, 1 + |s|);
    if p + 1 == |body| {
      assert s == [];
    }
  }

  lemma {:induction false} StringsJoin(body: bytes, p: nat, strings: seq<bytes>)
    requires forall i :: 0 <= i < |strings| ==> |strings[i]| < 256
    requires At(body, p, EncodeStrings(strings)) && p + |EncodeStrings(strings)| == |body|
    ensures TextRead(body, p) == Concat(strings)
    decreases strings
  {
    hide Clip, At, EncodeStrings;
    if strings == [] {
      assert EncodeStrings(strings) == [] by { NoStrings(); }
    } else {
      hide TextRead;
      var rest, next := strings[1..], p + 1 + |strings[0]|;
      StringFirst(body, p, strings);
      StringsJoin(body, next, rest);
      assert Concat(strings) == strings[0] + Concat(rest);
    }
  }

  lemma NoStrings()
    ensures EncodeStrings([]) == []
  {
  }

  lemma StringFirst(body: bytes, p: nat, strings: seq<bytes>)
    requires strings != [] && forall i :: 0 <= i < |strings| ==> |strings[i]| < 256
    requires At(body, p, EncodeStrings(strings))
    ensures At(body, p + 1 + |strings[0]|, EncodeStrings(strings[1..]))
    ensures |EncodeStrings(strings)| == 1 + |strings[0]| + |EncodeStrings(strings[1..])|
    ensures TextRead(body, p) == strings[0] + TextRead(body, p + 1 + |strings[0]|)
  {
    hide Clip, At;
    var first := [|strings[0]|] + strings[0];
    AtSplit(body, p, first, EncodeStrings(strings[1..]));
    StringClipped(body, p, strings[0]);
  }

  lemma {:induction false} QuestionsSkipped(data: bytes, p: nat, qs: seq<Question>)
    requires forall i :: 0 <= i < |qs| ==> ValidName(qs[i].name)
    requires At(data, p, EncodeQuestions(qs))
    ensures QuestionsEnd(data, |qs|, p) == Ok(p + |EncodeQuestions(qs)|)
    decreases qs
  {
    hide EncodeWire, NameEnd;
    if qs != [] {
      var name, rest := EncodeWire(qs[0].name), EncodeQuestions(qs[1..]);
      AtSplit(data, p, name, U16(qs[0].kind) + U16(qs[0].class_) + rest);
      AtSplit(data, p + |name|, U16(qs[0].kind) + U16(qs[0].class_), rest);
      WireSkipped(data, p, qs[0].name);
      QuestionsSkipped(data, p + |name| + 4, qs[1..]);
    }
  }

  lemma RecordFields(data: bytes, p: nat, r: Record)
    requires ValidRecord(r) && At(data, p, RecordHead(r))
    ensures ReadU16(data, p) == KindOf(r) && ReadU16(data, p + 8) == |Rdata(r)|
  {
    var size := U16(|Rdata(r)|);
    assert RecordHead(r) == U16(KindOf(r)) + (U16(r.class_) + (U32(r.ttl) + size));
    AtSplit(data, p, U16(KindOf(r)), U16(r.class_) + (U32(r.ttl) + size));
    AtSplit(data, p + 2, U16(r.class_), U32(r.ttl) + size);
    AtSplit(data, p + 4, U32(r.ttl), size);
    AtU16(data, p, KindOf(r));
    AtU16(data, p + 8, |Rdata(r)|);
  }

  lemma RdataRead(r: Record, data: bytes, p: nat)
    requires ValidRecord(r) && At(data, p, Rdata(r))
    ensures Clip(data, p, p + |Rdata(r)|) == Rdata(r)
    ensures r.TxtRecord? ==> TextRead(Rdata(r), 0) == Concat(r.strings)
  {
    if r.TxtRecord? {
      AtWhole(Rdata(r));
      StringsJoin(Rdata(r), 0, r.strings);
    }
  }

  lemma RecordSplit(data: bytes, p: nat, r: Record, rest: bytes)
    requires ValidRecord(r) && At(data, p, EncodeWire(r.name) + (RecordHead(r) + (Rdata(r) + rest)))
    ensures var q := p + |EncodeWire(r.name)|;
            && NameEnd(data, p) == Ok(q) && q + 10 <= |data|
            && ReadU16(data, q) == KindOf(r) && ReadU16(data, q + 8) == |Rdata(r)|
            && At(data, q + 10, Rdata(r)) && At(data, q + 10 + |Rdata(r)|, rest)
  {
    hide EncodeWire, NameEnd, Rdata;
    var name := EncodeWire(r.name);
    AtSplit(data, p, name, RecordHead(r) + (Rdata(r) + rest));
    AtSplit(data, p + |name|, RecordHead(r), Rdata(r) + rest);
    AtSplit(data, p + |name| + 10, Rdata(r), rest);
    WireSkipped(data, p, r.name);
    RecordFields(data, p + |name|, r);
  }

  lemma {:induction false} RecordsRoundTrip(data: bytes, p: nat, rs: seq<Record>)
    requires forall i :: 0 <= i < |rs| ==> ValidRecord(rs[i])
    requires At(data, p, EncodeRecords(rs))
    ensures AnswersRead(data, |rs|, p) == Ok(TextsOf(rs))
    decreases rs
  {
    hide EncodeWire, NameEnd, Rdata, TextRead, At, Clip, RecordHead, Prepend;
    if rs != [] {
      var r := rs[0];
      assert ValidRecord(r);
      var name, rdata, rest := EncodeWire(r.name), Rdata(r), EncodeRecords(rs[1..]);
      RecordSplit(data, p, r, rest);
      RecordsRoundTrip(data, p + |name| + 10 + |rdata|, rs[1..]);
      RdataRead(r, data, p + |name| + 10);
      PrependTo(if r.TxtRecord? then [Concat(r.strings)] else [], TextsOf(rs[1..]));
    }
  }

  /** Any message, whatever follows it, is refused for its id, its direction or its response code,
      in that order, and otherwise gives back exactly its TXT values. */
  lemma TxtRoundTrip(m: Message, trailing: bytes, expectedId: uint16)
    requires ValidMessage(m)
    ensures TxtRead(EncodeMessage(m) + trailing, expectedId)
              == if m.id != expectedId then Err(IdMismatch)
                 else if m.flags < 0x8000 then Err(NotAResponse)
                 else if m.flags % 16 !in {0, 3} then Err(Rcode(m.flags % 16))
                 else Ok(TextsOf(m.answers))
  {
    hide AnswersRead, QuestionsEnd, EncodeRecords, EncodeQuestions, At, ReadU16, EncodeMessage;
    var data := EncodeMessage(m) + trailing;
    var qs := EncodeQuestions(m.questions);
    MessageFields(m, trailing, data);
    QuestionsSkipped(data, 12, m.questions);
    RecordsRoundTrip(data, 12 + |qs|, m.answers);
  }

  lemma MessageFields(m: Message, trailing: bytes, data: bytes)
    requires ValidMessage(m) && data == EncodeMessage(m) + trailing
    ensures |data| >= 12 && ReadU16(data, 0) == m.id && ReadU16(data, 2) == m.flags
    ensures ReadU16(data, 4) == |m.questions| && ReadU16(data, 6) == |m.answers|
    ensures At(data, 12, EncodeQuestions(m.questions))
    ensures At(data, 12 + |EncodeQuestions(m.questions)|, EncodeRecords(m.answers))
  {
    hide EncodeRecords, EncodeQuestions, ReadU16;
    var qs, rs := EncodeQuestions(m.questions), EncodeRecords(m.answers);
    assert At(data, 0, EncodeMessage(m)) && |data| >= 12;
    hide At;
    var tail := m.counts + (qs + rs);
    AtSplit(data, 0, U16(m.id), U16(m.flags) + (U16(|m.questions|) + (U16(|m.answers|) + tail)));
    AtSplit(data, 2, U16(m.flags), U16(|m.questions|) + (U16(|m.answers|) + tail));
    AtSplit(data, 4, U16(|m.questions|), U16(|m.answers|) + tail);
    AtSplit(data, 6, U16(|m.answers|), tail);
    AtSplit(data, 8, m.counts, qs + rs);
    AtSplit(data, 12, qs, rs);
    AtU16(data, 0, m.id);
    AtU16(data, 2, m.flags);
    AtU16(data, 4, |m.questions|);
    AtU16(data, 6, |m.answers|);
  }

  // ----------------------------------------------------- what is not whole

  /** A name that ends with the datagram, and so in no root and no pointer, is truncated. */
  lemma {:induction false} NameCutShort(data: bytes, p: nat, labels: seq<bytes>)
    requires Short(labels, 0xC0) && p <= |data| && data[p..] == LabelBytes(labels)
    ensures NameEnd(data, p) == Err(TruncatedName)
    decreases labels
  {
    hide LabelBytes, NameEnd, Short;
    ShortIsShorter(labels);
    assert At(data, p, LabelBytes(labels));
    LabelsSkipped(data, p, labels);
    NameNowhere(data, p + |LabelBytes(labels)|);
  }

  lemma ShortIsShorter(labels: seq<bytes>)
    requires Short(labels, 0xC0)
    ensures Short(labels, 256)
  {
  }

  lemma NameNowhere(data: bytes, p: nat)
    requires p >= |data|
    ensures NameEnd(data, p) == Err(TruncatedName)
  {
  }

  /** A datagram is refused for being shorter than a header or for its first two bytes not being the id asked with, then
      for not being a response, then for its response code, whatever follows. */
  lemma HeaderRefused(data: bytes, id: uint16)
    ensures |data| < 12 || data[0] as int * 256 + data[1] as int != id as int ==> TxtRead(data, id) == Err(IdMismatch)
    ensures |data| >= 12 && data[0] as int * 256 + data[1] as int == id as int ==>
              && (data[2] < 0x80 ==> TxtRead(data, id) == Err(NotAResponse))
              && (data[2] >= 0x80 && data[3] % 16 != 0 && data[3] % 16 != 3 ==>
                    TxtRead(data, id) == Err(Rcode(data[3] % 16)))
  {
    hide QuestionsEnd, AnswersRead;
  }

  /** Behind any whole records, the values so far stand in front of what is made of the rest. */
  lemma {:induction false} RecordsBefore(data: bytes, p: nat, rs: seq<Record>, more: nat)
    requires forall i :: 0 <= i < |rs| ==> ValidRecord(rs[i])
    requires At(data, p, EncodeRecords(rs))
    ensures AnswersRead(data, |rs| + more, p)
         == Prepend(TextsOf(rs), AnswersRead(data, more, p + |EncodeRecords(rs)|))
    decreases rs
  {
    hide EncodeWire, NameEnd, Rdata, TextRead, At, Clip, RecordHead, Prepend;
    var rest := AnswersRead(data, more, p + |EncodeRecords(rs)|);
    if rs == [] {
      PrependNothing(rest);
    } else {
      var r := rs[0];
      assert ValidRecord(r);
      RecordSplit(data, p, r, EncodeRecords(rs[1..]));
      HeadSize(r);
      RecordsBefore(data, p + |EncodeWire(r.name)| + 10 + |Rdata(r)|, rs[1..], more);
      RdataRead(r, data, p + |EncodeWire(r.name)| + 10);
      PrependTwice(if r.TxtRecord? then [Concat(r.strings)] else [], TextsOf(rs[1..]), rest);
    }
  }

  lemma HeadSize(r: Record)
    requires ValidRecord(r)
    ensures |RecordHead(r)| == 10
  {
  }

  lemma PrependTwice(a: seq<bytes>, b: seq<bytes>, rest: Result<seq<bytes>, DnsError>)
    ensures Prepend(a, Prepend(b, rest)) == Prepend(a + b, rest)
  {
    if rest.Ok? {
      assert a + (b + rest.value) == a + b + rest.value;
    }
  }

  /** Where a record should begin: a name that cannot be stepped over is an error, fewer than 10 bytes behind it end the
      answer, and a record longer than what is left is read as far as it goes. */
  lemma RecordCutShort(data: bytes, count: nat, p: nat, name: WireName)
    requires count > 0
    ensures NameEnd(data, p).Err? ==> AnswersRead(data, count, p) == Err(NameEnd(data, p).error)
    ensures NameEnd(data, p).Ok? && NameEnd(data, p).value + 10 > |data| ==> AnswersRead(data, count, p) == Ok([])
    ensures NameEnd(data, p).Ok? && NameEnd(data, p).value + 10 <= |data| ==>
              var q := NameEnd(data, p).value;
              var length := data[q + 8] as int * 256 + data[q + 9] as int;
              data[q] == 0 && data[q + 1] == 16 && q + 10 + length >= |data| && count == 1 && length > 0
                  && q + 10 < |data| ==>
                AnswersRead(data, count, p) == Ok([TextRead(data[q + 10..], 0)])
  {
    hide NameEnd, TextRead;
    if NameEnd(data, p).Ok? && NameEnd(data, p).value + 10 <= |data| && count == 1 {
      var q := NameEnd(data, p).value;
      var end := q + 10 + ReadU16(data, q + 8) as int;
      assert end >= |data| && end > q + 10 && q + 10 < |data| ==> Clip(data, q + 10, end) == data[q + 10..];
      assert AnswersRead(data, 0, end) == Ok([]);
      var text := [TextRead(Clip(data, q + 10, end), 0)];
      PrependTo(text, []);
      assert text + [] == text;
      assert data[q] == 0 && data[q + 1] == 16 ==> ReadU16(data, q) == TXT;
    }
  }

  /** Strings of which the last declares more than there is: the text is what there is. */
  lemma {:induction false} StringsCutShort(body: bytes, p: nat, strings: seq<bytes>, declared: byte, part: bytes)
    requires forall i :: 0 <= i < |strings| ==> |strings[i]| < 256
    requires At(body, p, EncodeStrings(strings) + ([declared] + part)) && |part| <= declared as int
    requires p + |EncodeStrings(strings)| + 1 + |part| == |body|
    ensures TextRead(body, p) == Concat(strings) + part
    decreases strings
  {
    hide Clip, EncodeStrings, TextRead, At;
    var tail := [declared] + part;
    AtSplit(body, p, EncodeStrings(strings), tail);
    if strings == [] {
      NoStrings();
      PartRead(body, p, declared, part);
    } else {
      StringFirst(body, p, strings);
      var next := p + 1 + |strings[0]|;
      AtJoin(body, next, EncodeStrings(strings[1..]), tail);
      StringsCutShort(body, next, strings[1..], declared, part);
      assert Concat(strings) == strings[0] + Concat(strings[1..]);
    }
  }

  lemma AtJoin(data: bytes, p: nat, a: bytes, b: bytes)
    requires At(data, p, a) && At(data, p + |a|, b)
    ensures At(data, p, a + b)
  {
    assert data[p..p + |a + b|] == data[p..p + |a|] + data[p + |a|..p + |a| + |b|];
  }

  lemma PartRead(body: bytes, p: nat, declared: byte, part: bytes)
    requires At(body, p, [declared] + part) && |part| <= declared as int && p + 1 + |part| == |body|
    ensures TextRead(body, p) == part
  {
    AtByte(body, p, [declared] + part, 0);
    AtSplit(body, p, [declared], part);
    AtBound(body, p + 1, part);
    hide At;
    assert body[p + 1..] == body[p + 1..p + 1 + |part|] == part;
    assert TextRead(body, p + 1 + declared as int) == [];
  }

  // ------------------------------------------------------------ containment

  function TotalSize(texts: seq<bytes>): nat {
    if texts == [] then 0 else |texts[0]| + TotalSize(texts[1..])
  }

  lemma {:induction false} TextWithinBody(body: bytes, offset: nat)
    ensures |TextRead(body, offset)| <= if offset < |body| then |body| - offset else 0
    decreases |body| - offset
  {
    hide Clip;
    if offset < |body| {
      var next := offset + 1 + body[offset] as int;
      TextWithinBody(body, next);
      ClipFits(body, offset + 1, next);
    }
  }

  lemma ClipFits(data: bytes, from: nat, to: nat)
    requires from <= to && from <= |data|
    ensures |Clip(data, from, to)| <= to - from && |Clip(data, from, to)| <= |data| - from
  {
  }

  lemma {:induction false} AnswersWithinData(data: bytes, count: nat, p: nat)
    ensures var r := AnswersRead(data, count, p);
            r.Ok? ==> |r.value| <= count && TotalSize(r.value) <= if p < |data| then |data| - p else 0
    decreases count
  {
    hide NameEnd, TextRead, Clip;
    if count > 0 && NameEnd(data, p).Ok? && NameEnd(data, p).value + 10 <= |data| {
      var q := NameEnd(data, p).value;
      var end := q + 10 + ReadU16(data, q + 8) as int;
      AnswersWithinData(data, count - 1, end);
      TextWithinBody(Clip(data, q + 10, end), 0);
      ClipFits(data, q + 10, end);
      var r := AnswersRead(data, count, p);
      PrependNothing(AnswersRead(data, count - 1, end));
      if r.Ok? && ReadU16(data, q) == TXT {
        assert r.value[1..] == AnswersRead(data, count - 1, end).value;
      }
    }
  }

  lemma {:induction false} QuestionsAdvance(data: bytes, count: nat, p: nat)
    ensures var r := QuestionsEnd(data, count, p); r.Ok? ==> p <= r.value
    decreases count
  {
    if count > 0 && NameEnd(data, p).Ok? {
      QuestionsAdvance(data, count - 1, NameEnd(data, p).value + 4);
    }
  }

  /** Whatever lengths a datagram declares, the text it yields is no longer than what follows
      its header. */
  lemma TextsWithinDatagram(data: bytes, expectedId: uint16)
    ensures var r := TxtRead(data, expectedId); r.Ok? ==> TotalSize(r.value) <= |data| - 12
  {
    if TxtRead(data, expectedId).Ok? {
      QuestionsAdvance(data, ReadU16(data, 4), 12);
      AnswersWithinData(data, ReadU16(data, 6), QuestionsEnd(data, ReadU16(data, 4), 12).value);
    }
  }

  // ------------------------------------------------------------------ loops

  method SkipName(data: bytes, start: nat) returns (r: Result<nat, DnsError>)
    ensures r == NameEnd(data, start)
  {
    var position := start;
    while position < |data|
      invariant NameEnd(data, start) == NameEnd(data, position)
      decreases |data| - position
    {
      var length := data[position];
      if length == 0 {
        return Ok(position + 1);
      }
      if length >= COMPRESSED {
        return Ok(position + 2);
      }
      position := position + 1 + length as int;
    }
    return Err(TruncatedName);
  }

  method JoinStrings(body: bytes) returns (text: bytes)
    ensures text == TextRead(body, 0)
  {
    hide Clip, Concat;
    ConcatNothing();
    var chunks: seq<bytes>, offset: nat := [], 0;
    while offset < |body|
      invariant Concat(chunks) + TextRead(body, offset) == TextRead(body, 0)
      decreases |body| - offset
    {
      var size := body[offset] as int;
      var chunk := Clip(body, offset + 1, offset + 1 + size);
      ConcatSnoc(chunks, chunk);
      chunks := chunks + [chunk];
      offset := offset + 1 + size;
    }
    text := Concat(chunks);
  }

  method ParseTxt(data: bytes, expectedId: uint16) returns (r: Result<seq<bytes>, DnsError>)
    ensures r == TxtRead(data, expectedId)
  {
    if |data| < 12 || ReadU16(data, 0) != expectedId {
      return Err(IdMismatch);
    }
    var flags, questions, answers := ReadU16(data, 2), ReadU16(data, 4), ReadU16(data, 6);
    if flags < 0x8000 {
      return Err(NotAResponse);
    }
    if flags % 16 != 0 && flags % 16 != 3 {
      return Err(Rcode(flags % 16));
    }
    hide QuestionsEnd, AnswersRead, ReadU16;
    var first := SkipQuestions(data, questions as nat, 12);
    if first.Err? {
      return Err(first.error);
    }
    r := ParseAnswers(data, answers as nat, first.value);
  }

  method SkipQuestions(data: bytes, questions: nat, start: nat) returns (r: Result<nat, DnsError>)
    ensures r == QuestionsEnd(data, questions, start)
  {
    hide NameEnd;
    var position := start;
    for i := 0 to questions
      invariant QuestionsEnd(data, questions, start) == QuestionsEnd(data, questions - i, position)
    {
      var end := SkipName(data, position);
      if end.Err? {
        return Err(end.error);
      }
      position := end.value + 4;
    }
    return Ok(position);
  }

  method ParseAnswers(data: bytes, answers: nat, first: nat) returns (r: Result<seq<bytes>, DnsError>)
    ensures r == AnswersRead(data, answers, first)
  {
    hide NameEnd, Clip, ReadU16, TextRead;
    var position: nat, records: seq<bytes> := first, [];
    PrependNothing(AnswersRead(data, answers, first));
    for i := 0 to answers
      invariant AnswersRead(data, answers, first) == Prepend(records, AnswersRead(data, answers - i, position))
    {
      var end := SkipName(data, position);
      if end.Err? {
        return Err(end.error);
      }
      position := end.value;
      if position + 10 > |data| {
        assert records + [] == records;
        return Ok(records);
      }
      var kind, length := ReadU16(data, position), ReadU16(data, position + 8) as int;
      position := position + 10;
      var body := Clip(data, position, position + length);
      position := position + length;
      if kind == TXT {
        var text := JoinStrings(body);
        PrependSnoc(records, text, AnswersRead(data, answers - i - 1, position));
        records := records + [text];
      } else {
        PrependNothing(AnswersRead(data, answers - i - 1, position));
      }
    }
    assert records + [] == records;
    return Ok(records);
  }
}
