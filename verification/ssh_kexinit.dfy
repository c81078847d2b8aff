/** The SSH binary packet and the ten name-lists of a KEXINIT inside it. */
module SshKexinit {
  import opened Bytes

  const DISCONNECT: byte := 1
  const KEXINIT: byte := 20
  const MAX_PACKET := 65536

  const FIELDS: seq<string> := [
    "kex_algorithms", "server_host_key_algorithms",
    "encryption_client_to_server", "encryption_server_to_client",
    "mac_client_to_server", "mac_server_to_client",
    "compression_client_to_server", "compression_server_to_client",
    "languages_client_to_server", "languages_server_to_client"
  ]

  datatype Reason = NoReason | Text(text: bytes) | Code(code: nat)

  datatype SshError =
    | Disconnected(reason: Reason)
    | NotKexinit(first: Option<byte>)
    | TruncatedLength
    | OverrunsPayload
    | IncompleteRead
    | ImplausibleLength(length: nat)
    | PaddingExceedsPacket

  // -------------------------------------------------------------- name-lists

  type Name = string

  ghost predicate LegalName(name: Name) {
    name != [] && forall i :: 0 <= i < |name| ==> name[i] != ',' && name[i] as int < 128
  }

  function Join(names: seq<Name>): string {
    if names == [] then []
    else if |names| == 1 then names[0]
    else names[0] + "," + Join(names[1..])
  }

  function Split(s: string): (r: seq<Name>)
    ensures r != []
  {
    if s == [] then [[]]
    else
      var rest := Split(s[1..]);
      if s[0] == ',' then [[]] + rest else [[s[0]] + rest[0]] + rest[1..]
  }

  function NonEmpty(names: seq<Name>): seq<Name> {
    if names == [] then []
    else (if names[0] != [] then [names[0]] else []) + NonEmpty(names[1..])
  }

  function Ascii(s: string): bytes
    requires forall i :: 0 <= i < |s| ==> s[i] as int < 128
  {
    seq(|s|, i requires 0 <= i < |s| => s[i] as int)
  }

  /** Bytes outside ASCII decode to the replacement character. */
  function DecodeAscii(b: bytes): string {
    seq(|b|, i requires 0 <= i < |b| => if b[i] < 128 then b[i] as char else '\U{FFFD}')
  }

  lemma {:induction false} SplitFirst(a: Name, rest: string)
    requires ',' !in a
    ensures Split(a + "," + rest) == [a] + Split(rest)
  {
    var s := a + "," + rest;
    if a == [] {
      assert s[1..] == rest;
    } else {
      assert s[1..] == a[1..] + "," + rest;
      assert a[0] in a && a == [a[0]] + a[1..];
      SplitFirst(a[1..], rest);
    }
  }

  lemma {:induction false} SplitPlain(a: Name)
    requires ',' !in a
    ensures Split(a) == [a]
  {
    if a != [] {
      assert a[0] in a && a == [a[0]] + a[1..];
      SplitPlain(a[1..]);
    }
  }

  lemma {:induction false} NonEmptyAppend(a: seq<Name>, b: seq<Name>)
    ensures NonEmpty(a + b) == NonEmpty(a) + NonEmpty(b)
  {
    if a == [] {
      assert a + b == b;
    } else {
      var rest, whole := a[1..], a + b;
      NonEmptyFirst(a);
      NonEmptyFirst(whole);
      hide NonEmpty;
      NonEmptyAppend(rest, b);
      assert whole[1..] == rest + b;
    }
  }

  lemma NonEmptyFirst(names: seq<Name>)
    requires names != []
    ensures NonEmpty(names) == if names[0] == [] then NonEmpty(names[1..]) else [names[0]] + NonEmpty(names[1..])
  {
  }

  /** Splitting what was joined gives the names back. */
  lemma {:induction false} SplitInvertsJoin(names: seq<Name>)
    requires forall i :: 0 <= i < |names| ==> names[i] != [] && ',' !in names[i]
    ensures NonEmpty(Split(Join(names))) == names
  {
    if names == [] {
      assert NonEmpty([[]]) == [];
    } else if |names| == 1 {
      SplitPlain(names[0]);
      assert NonEmpty(names) == names;
    } else {
      SplitFirst(names[0], Join(names[1..]));
      SplitInvertsJoin(names[1..]);
      NonEmptyAppend([names[0]], Split(Join(names[1..])));
      assert NonEmpty([names[0]]) == [names[0]];
      assert names == [names[0]] + names[1..];
    }
  }

  lemma {:induction false} SplitIsCommaFree(s: string)
    ensures forall i :: 0 <= i < |Split(s)| ==> ',' !in Split(s)[i]
  {
    if s != [] {
      SplitIsCommaFree(s[1..]);
    }
  }

  lemma {:induction false} NonEmptyKeeps(names: seq<Name>)
    ensures forall i :: 0 <= i < |NonEmpty(names)| ==> NonEmpty(names)[i] != [] && NonEmpty(names)[i] in names
  {
    if names != [] {
      NonEmptyKeeps(names[1..]);
    }
  }

  /** Whatever the text, the names read from it are nonempty, free of commas, and the same when joined and read
      again. */
  lemma NamesAreCanonical(s: string)
    ensures var names := NonEmpty(Split(s));
            && (forall i :: 0 <= i < |names| ==> names[i] != [] && ',' !in names[i])
            && NonEmpty(Split(Join(names))) == names
  {
    SplitIsCommaFree(s);
    NonEmptyKeeps(Split(s));
    SplitInvertsJoin(NonEmpty(Split(s)));
  }

  // ----------------------------------------------------------------- payload

  ghost predicate LegalList(names: seq<Name>) {
    && (forall i :: 0 <= i < |names| ==> LegalName(names[i]))
    && |Join(names)| < 0x1_0000_0000
  }

  lemma {:induction false} JoinIsAscii(names: seq<Name>)
    requires forall i :: 0 <= i < |names| ==> LegalName(names[i])
    ensures forall i :: 0 <= i < |Join(names)| ==> Join(names)[i] as int < 128
  {
    if |names| == 1 {
      assert LegalName(names[0]);
    } else if names != [] {
      assert LegalName(names[0]);
      JoinIsAscii(names[1..]);
    }
  }

  ghost function EncodeList(names: seq<Name>): bytes
    requires LegalList(names)
  {
    JoinIsAscii(names);
    U32(|Join(names)|) + Ascii(Join(names))
  }

  ghost function EncodeLists(lists: seq<seq<Name>>): bytes
    requires forall i :: 0 <= i < |lists| ==> LegalList(lists[i])
  {
    if lists == [] then [] else
      assert LegalList(lists[0]);
      EncodeList(lists[0]) + EncodeLists(lists[1..])
  }

  ghost function EncodeKexinit(cookie: bytes, lists: seq<seq<Name>>, trailing: bytes): bytes
    requires |cookie| == 16 && forall i :: 0 <= i < |lists| ==> LegalList(lists[i])
  {
    [20] + (cookie + (EncodeLists(lists) + trailing))
  }

  /** The UTF-8 encoding of one blank character: ASCII controls and space, and the Unicode blanks. None of them starts
      or ends another character's encoding, so they can be told apart before decoding. */
  predicate Blank(c: bytes) {
    || (|c| == 1 && (c[0] == 32 || 9 <= c[0] <= 13 || 28 <= c[0] <= 31))
    || c == [0xC2, 0x85] || c == [0xC2, 0xA0] || c == [0xE1, 0x9A, 0x80] || c == [0xE2, 0x81, 0x9F]
        || c == [0xE3, 0x80, 0x80]
    || (|c| == 3 && c[..2] == [0xE2, 0x80] && (0x80 <= c[2] <= 0x8A || c[2] in {0xA8, 0xA9, 0xAF}))
  }

  /** The size of the blank at the start, or 0. */
  function LeadingBlank(b: bytes): (n: nat)
    ensures n <= |b| && (n > 0 ==> Blank(b[..n]))
  {
    if |b| >= 1 && Blank(b[..1]) then 1
    else if |b| >= 2 && Blank(b[..2]) then 2
    else if |b| >= 3 && Blank(b[..3]) then 3
    else 0
  }

  /** The size of the blank at the end, or 0. */
  function TrailingBlank(b: bytes): (n: nat)
    ensures n <= |b| && (n > 0 ==> Blank(b[|b| - n..]))
  {
    if |b| >= 1 && Blank(b[|b| - 1..]) then 1
    else if |b| >= 2 && Blank(b[|b| - 2..]) then 2
    else if |b| >= 3 && Blank(b[|b| - 3..]) then 3
    else 0
  }

  function Strip(b: bytes): bytes
    decreases |b|
  {
    if LeadingBlank(b) > 0 then Strip(b[LeadingBlank(b)..])
    else if TrailingBlank(b) > 0 then Strip(b[..|b| - TrailingBlank(b)])
    else b
  }

  ghost predicate AllBlank(chunks: seq<bytes>) {
    forall i :: 0 <= i < |chunks| ==> Blank(chunks[i])
  }

  /** `b` is `text` between blanks. */
  ghost predicate Padded(b: bytes, text: bytes) {
    exists before, after :: AllBlank(before) && AllBlank(after) && b == Concat(before) + text + Concat(after)
  }

  lemma PaddedBefore(blank: bytes, b: bytes, text: bytes)
    requires Blank(blank) && Padded(b, text)
    ensures Padded(blank + b, text)
  {
    hide Blank;
    var before, after :| AllBlank(before) && AllBlank(after) && b == Concat(before) + text + Concat(after);
    var longer := [blank] + before;
    assert longer[1..] == before && Concat(longer) == blank + Concat(before);
    assert AllBlank(longer) && blank + b == Concat(longer) + text + Concat(after);
  }

  lemma PaddedAfter(b: bytes, blank: bytes, text: bytes)
    requires Blank(blank) && Padded(b, text)
    ensures Padded(b + blank, text)
  {
    hide Blank, Concat;
    var before, after :| AllBlank(before) && AllBlank(after) && b == Concat(before) + text + Concat(after);
    ConcatSnoc(after, blank);
    assert AllBlank(after + [blank]) && b + blank == Concat(before) + text + Concat(after + [blank]);
  }

  /** The encoding of a character in UTF-8, up to three bytes. */
  function Utf8(point: nat): bytes
    requires point < 0x1_0000
  {
    if point < 0x80 then [point]
    else if point < 0x800 then [0xC0 + point / 64, 0x80 + point % 64]
    else [0xE0 + point / 4096, 0x80 + point / 64 % 64, 0x80 + point % 64]
  }

  /** The blank characters: tab to carriage return, the four separators, space, and the blanks of Unicode. */
  predicate BlankPoint(point: nat) {
    || 0x09 <= point <= 0x0D || 0x1C <= point <= 0x20 || point == 0x85 || point == 0xA0 || point == 0x1680
    || 0x2000 <= point <= 0x200A || point == 0x2028 || point == 0x2029 || point == 0x202F || point == 0x205F
    || point == 0x3000
  }

  /** What is stripped as a blank is the encoding of one. */
  lemma BlankMeans(c: bytes)
    ensures Blank(c) <==> exists point: nat :: point < 0x1_0000 && BlankPoint(point) && Utf8(point) == c
  {
    if Blank(c) {
      BlankDecoded(c);
    }
    if point: nat :| point < 0x1_0000 && BlankPoint(point) && Utf8(point) == c {
      BlankEncoded(point);
    }
  }

  lemma BlankDecoded(c: bytes)
    requires Blank(c)
    ensures exists point: nat :: point < 0x1_0000 && BlankPoint(point) && Utf8(point) == c
  {
    var point: nat :=
      if |c| == 1 then c[0] as nat
      else if |c| == 2 then (c[0] as int - 0xC0) * 64 + c[1] as int - 0x80
      else (c[0] as int - 0xE0) * 4096 + (c[1] as int - 0x80) * 64 + c[2] as int - 0x80;
    assert |c| == 3 ==> c == [c[0], c[1], c[2]];
    assert |c| == 1 ==> c == [c[0]];
    assert |c| == 3 && c[..2] == [0xE2, 0x80] ==> c[0] == 0xE2 && c[1] == 0x80;
    assert BlankPoint(point) && Utf8(point) == c;
  }

  lemma BlankEncoded(point: nat)
    requires point < 0x1_0000 && BlankPoint(point)
    ensures Blank(Utf8(point))
  {
  }

  /** No blank is overlooked at the start. */
  lemma NoBlankAtStart(b: bytes, k: nat)
    requires 0 < k <= |b| && LeadingBlank(b) == 0
    ensures !Blank(b[..k])
  {
    hide Blank;
    if k > 3 {
      BlankSize(b[..k]);
    } else {
      assert k == 1 || k == 2 || k == 3;
    }
  }

  /** Nor at the end. */
  lemma NoBlankAtEnd(b: bytes, k: nat)
    requires 0 < k <= |b| && TrailingBlank(b) == 0
    ensures !Blank(b[|b| - k..])
  {
    hide Blank;
    if k > 3 {
      BlankSize(b[|b| - k..]);
    } else {
      assert k == 1 || k == 2 || k == 3;
    }
  }

  lemma BlankSize(c: bytes)
    ensures Blank(c) ==> 1 <= |c| <= 3
  {
  }

  /** Stripping takes blanks off both ends, nothing else, and leaves none there. */
  lemma {:induction false} StripsEnds(b: bytes)
    ensures Padded(b, Strip(b)) && LeadingBlank(Strip(b)) == TrailingBlank(Strip(b)) == 0
    decreases |b|
  {
    hide Blank, LeadingBlank, TrailingBlank, Padded;
    var n, m := LeadingBlank(b), TrailingBlank(b);
    if n > 0 {
      StripsEnds(b[n..]);
      PaddedBefore(b[..n], b[n..], Strip(b));
      assert b == b[..n] + b[n..];
    } else if m > 0 {
      var k := |b| - m;
      StripsEnds(b[..k]);
      PaddedAfter(b[..k], b[k..], Strip(b));
      assert b == b[..k] + b[k..];
    } else {
      PaddedByNothing(b);
    }
  }

  lemma PaddedByNothing(b: bytes)
    ensures Padded(b, b)
  {
    var none: seq<bytes> := [];
    assert AllBlank(none) && b == Concat(none) + b + Concat(none);
  }

  function DisconnectReason(payload: bytes): Reason {
    if |payload| < 9 then NoReason else
    var end := 9 + ReadU32(payload, 5);
    var text := Strip(if end <= |payload| then payload[9..end] else payload[9..]);
    if text != [] then Text(text) else Code(ReadU32(payload, 1))
  }

  function ListsRead(payload: bytes, count: nat, position: nat): Result<seq<seq<Name>>, SshError> {
    if count == 0 then Ok([])
    else if position + 4 > |payload| then Err(TruncatedLength)
    else
      var length := ReadU32(payload, position);
      if length > |payload| - position - 4 then Err(OverrunsPayload) else
      var names := NonEmpty(Split(DecodeAscii(payload[position + 4..position + 4 + length])));
      After([names], ListsRead(payload, count - 1, position + 4 + length))
  }

  function After(lists: seq<seq<Name>>, rest: Result<seq<seq<Name>>, SshError>): Result<seq<seq<Name>>, SshError> {
    match rest
    case Err(e) => Err(e)
    case Ok(more) => Ok(lists + more)
  }

  function NameListsRead(payload: bytes): Result<seq<seq<Name>>, SshError> {
    if payload != [] && payload[0] == DISCONNECT then Err(Disconnected(DisconnectReason(payload)))
    else if payload == [] then Err(NotKexinit(None))
    else if payload[0] != KEXINIT then Err(NotKexinit(Some(payload[0])))
    else ListsRead(payload, |FIELDS|, 17)
  }

  lemma ListRoundTrip(payload: bytes, p: nat, names: seq<Name>)
    requires LegalList(names) && At(payload, p, EncodeList(names))
    ensures ReadU32(payload, p) == |Join(names)| == |EncodeList(names)| - 4
    ensures NonEmpty(Split(DecodeAscii(payload[p + 4..p + |EncodeList(names)|]))) == names
  {
    JoinIsAscii(names);
    var raw := Ascii(Join(names));
    AtSplit(payload, p, U32(|raw|), raw);
    AtU32(payload, p, |raw|);
    assert payload[p + 4..p + 4 + |raw|] == raw;
    assert DecodeAscii(raw) == Join(names);
    forall i | 0 <= i < |names| ensures names[i] != [] && ',' !in names[i] {
      assert LegalName(names[i]);
    }
    SplitInvertsJoin(names);
  }

  lemma {:induction false} ListsRoundTrip(payload: bytes, p: nat, lists: seq<seq<Name>>)
    requires forall i :: 0 <= i < |lists| ==> LegalList(lists[i])
    requires At(payload, p, EncodeLists(lists))
    ensures ListsRead(payload, |lists|, p) == Ok(lists)
    decreases lists
  {
    hide At, EncodeList, Split, NonEmpty, DecodeAscii, LegalList;
    if lists != [] {
      assert LegalList(lists[0]);
      AtSplit(payload, p, EncodeList(lists[0]), EncodeLists(lists[1..]));
      AtBound(payload, p, EncodeList(lists[0]));
      ListRoundTrip(payload, p, lists[0]);
      ListsRoundTrip(payload, p + |EncodeList(lists[0])|, lists[1..]);
      assert lists == [lists[0]] + lists[1..];
    }
  }

  lemma KexinitRoundTrip(cookie: bytes, lists: seq<seq<Name>>, trailing: bytes)
    requires |cookie| == 16 && |lists| == |FIELDS| && forall i :: 0 <= i < |lists| ==> LegalList(lists[i])
    ensures NameListsRead(EncodeKexinit(cookie, lists, trailing)) == Ok(lists)
  {
    hide ListsRead, EncodeLists, LegalList;
    var payload := EncodeKexinit(cookie, lists, trailing);
    AtWhole(payload);
    AtSplit(payload, 0, [20], cookie + (EncodeLists(lists) + trailing));
    AtSplit(payload, 1, cookie, EncodeLists(lists) + trailing);
    AtSplit(payload, 17, EncodeLists(lists), trailing);
    ListsRoundTrip(payload, 17, lists);
  }

  ghost function EncodeDisconnect(code: nat, text: bytes, trailing: bytes): bytes
    requires code < 0x1_0000_0000 && |text| < 0x1_0000_0000
  {
    [1] + U32(code) + U32(|text|) + text + trailing
  }

  lemma DisconnectFields(code: nat, text: bytes, trailing: bytes, payload: bytes)
    requires code < 0x1_0000_0000 && |text| < 0x1_0000_0000
    requires payload == EncodeDisconnect(code, text, trailing)
    ensures 9 + |text| <= |payload| && payload[0] == DISCONNECT
    ensures ReadU32(payload, 1) == code && ReadU32(payload, 5) == |text| && payload[9..9 + |text|] == text
  {
    var head := [1] + U32(code) + U32(|text|) + text;
    AtWhole(payload);
    AtSplit(payload, 0, head, trailing);
    AtSplit(payload, 0, [1] + U32(code) + U32(|text|), text);
    AtSplit(payload, 0, [1] + U32(code), U32(|text|));
    AtSplit(payload, 0, [1], U32(code));
    AtU32(payload, 1, code);
    AtU32(payload, 5, |text|);
  }

  lemma ReasonRead(code: nat, text: bytes, payload: bytes)
    requires 9 + |text| <= |payload| && payload[0] == DISCONNECT
    requires ReadU32(payload, 1) == code && ReadU32(payload, 5) == |text| && payload[9..9 + |text|] == text
    ensures DisconnectReason(payload) == if Strip(text) != [] then Text(Strip(text)) else Code(code)
  {
    hide Strip, ReadU32;
  }

  /** A DISCONNECT packet is reported with the text it carries, or with its code when the text
      is blank. */
  lemma DisconnectRoundTrip(code: nat, text: bytes, trailing: bytes, payload: bytes)
    requires code < 0x1_0000_0000 && |text| < 0x1_0000_0000
    requires payload == EncodeDisconnect(code, text, trailing)
    ensures NameListsRead(payload)
         == Err(Disconnected(if Strip(text) != [] then Text(Strip(text)) else Code(code)))
  {
    hide Strip, ListsRead, EncodeDisconnect, ReadU32, DisconnectReason;
    DisconnectFields(code, text, trailing, payload);
    ReasonRead(code, text, payload);
  }

  // ----------------------------------------------------- what is not whole

  /** Items put together again, with the empty ones. */
  function Rejoined(items: seq<Name>): string
    requires items != []
  {
    if |items| == 1 then items[0] else items[0] + "," + Rejoined(items[1..])
  }

  /** Splitting is undone by joining with commas, and no item holds one; so it is the only split there is. */
  lemma {:induction false} SplitMeans(s: string)
    ensures Split(s) != [] && Rejoined(Split(s)) == s && forall i :: 0 <= i < |Split(s)| ==> ',' !in Split(s)[i]
  {
    SplitIsCommaFree(s);
    if s != [] {
      SplitMeans(s[1..]);
      var rest, items := Split(s[1..]), Split(s);
      if s[0] == ',' {
        assert items == [[]] + rest && items[1..] == rest;
        assert Rejoined(items) == [] + "," + Rejoined(rest);
        assert s == "," + s[1..];
      } else {
        assert items[1..] == rest[1..];
        assert Rejoined(items) == [s[0]] + Rejoined(rest);
      }
    }
  }

  /** Of the items, in order, those that are not empty. */
  lemma {:induction false} NonEmptyMeans(items: seq<Name>, x: Name)
    ensures x in NonEmpty(items) <==> x in items && x != []
    ensures multiset(NonEmpty(items))[x] == if x == [] then 0 else multiset(items)[x]
  {
    if items != [] {
      NonEmptyMeans(items[1..], x);
      assert items == [items[0]] + items[1..];
    }
  }

  /** A byte of ASCII is its character, and any other the replacement character. */
  lemma DecodedByByte(b: bytes, i: nat)
    requires i < |b|
    ensures |DecodeAscii(b)| == |b|
    ensures b[i] < 128 ==> DecodeAscii(b)[i] as int == b[i] as int
    ensures b[i] >= 128 ==> DecodeAscii(b)[i] == '\U{FFFD}'
  {
  }

  /** A payload is refused for being empty or of another type than 1 or 20, and a short disconnect has no reason. */
  lemma PayloadRefused(payload: bytes)
    ensures |payload| == 0 ==> NameListsRead(payload) == Err(NotKexinit(None))
    ensures |payload| > 0 && payload[0] != 1 && payload[0] != 20 ==>
              NameListsRead(payload) == Err(NotKexinit(Some(payload[0])))
    ensures 0 < |payload| < 9 && payload[0] == 1 ==> NameListsRead(payload) == Err(Disconnected(NoReason))
  {
    hide ListsRead;
  }

  /** A description longer than the packet is read as far as the packet goes. */
  lemma DescriptionCutShort(payload: bytes)
    requires |payload| >= 9 && 9 + ReadU32(payload, 5) >= |payload|
    ensures DisconnectReason(payload)
         == if Strip(payload[9..]) != [] then Text(Strip(payload[9..])) else Code(ReadU32(payload, 1))
  {
    hide Strip, ReadU32;
    if 9 + ReadU32(payload, 5) == |payload| {
      assert payload[9..|payload|] == payload[9..];
    }
  }

  /** Behind any whole lists, they stand in front of what is made of the rest. */
  lemma {:induction false} ListsBefore(payload: bytes, p: nat, lists: seq<seq<Name>>, more: nat)
    requires forall i :: 0 <= i < |lists| ==> LegalList(lists[i])
    requires At(payload, p, EncodeLists(lists))
    ensures ListsRead(payload, |lists| + more, p)
         == After(lists, ListsRead(payload, more, p + |EncodeLists(lists)|))
    decreases lists
  {
    hide EncodeList, At, Split, NonEmpty, DecodeAscii, ReadU32, LegalList, After;
    var rest := ListsRead(payload, more, p + |EncodeLists(lists)|);
    if lists == [] {
      AfterNothing(rest);
    } else {
      var size := |EncodeList(lists[0])|;
      assert LegalList(lists[0]);
      AtSplit(payload, p, EncodeList(lists[0]), EncodeLists(lists[1..]));
      AtBound(payload, p, EncodeList(lists[0]));
      ListRoundTrip(payload, p, lists[0]);
      ListsBefore(payload, p + size, lists[1..], more);
      AfterTwice([lists[0]], lists[1..], rest);
      assert lists == [lists[0]] + lists[1..];
    }
  }

  lemma AfterTwice(a: seq<seq<Name>>, b: seq<seq<Name>>, rest: Result<seq<seq<Name>>, SshError>)
    ensures After(a, After(b, rest)) == After(a + b, rest)
  {
    if rest.Ok? {
      assert a + (b + rest.value) == a + b + rest.value;
    }
  }

  /** Where a list should begin: fewer than 4 bytes hold no length, and a length may not reach past the payload. */
  lemma ListCutShort(payload: bytes, count: nat, p: nat)
    requires count > 0
    ensures p + 4 > |payload| ==> ListsRead(payload, count, p) == Err(TruncatedLength)
    ensures p + 4 <= |payload| && p + 4 + ReadU32(payload, p) > |payload| ==>
              ListsRead(payload, count, p) == Err(OverrunsPayload)
  {
    hide ReadU32, Split, NonEmpty, DecodeAscii;
  }

  // ------------------------------------------------------------------ packet

  function Frame(payload: bytes, padding: bytes): bytes
    requires |padding| < 256 && 1 + |payload| + |padding| < 0x1_0000_0000
  {
    U32(1 + |payload| + |padding|) + ([|padding|] + (payload + padding))
  }

  datatype Read<+T> = Read(result: Result<T, SshError>, rest: bytes)

  /** The payload of the next packet of a stream, and what is left of the stream. */
  function PacketRead(stream: bytes): Read<bytes> {
    if |stream| < 5 then Read(Err(IncompleteRead), []) else
    var length := ReadU32(stream, 0);
    var padding := stream[4] as int;
    if !(1 <= length <= MAX_PACKET) then Read(Err(ImplausibleLength(length)), stream[5..])
    else if length - padding - 1 < 0 then Read(Err(PaddingExceedsPacket), stream[5..])
    else if |stream| - 5 < length - 1 then Read(Err(IncompleteRead), [])
    else Read(Ok(stream[5..][..length - padding - 1]), stream[4 + length..])
  }

  /** Any payload under any padding comes back, and the stream is left at the byte after the
      packet, exactly when the packet is within the limit. */
  lemma PacketRoundTrip(payload: bytes, padding: bytes, rest: bytes)
    requires |padding| < 256 && 1 + |payload| + |padding| < 0x1_0000_0000
    ensures var length := 1 + |payload| + |padding|;
            var r := PacketRead(Frame(payload, padding) + rest);
            if length <= MAX_PACKET then r == Read(Ok(payload), rest)
            else r.result == Err(ImplausibleLength(length))
  {
    var length := 1 + |payload| + |padding|;
    var stream := Frame(payload, padding) + rest;
    assert At(stream, 0, Frame(payload, padding));
    AtSplit(stream, 0, U32(length), [|padding|] + (payload + padding));
    AtU32(stream, 0, length);
    AtSplit(stream, 4, [|padding|], payload + padding);
    AtSplit(stream, 5, payload, padding);
    AtByte(stream, 4, [|padding|], 0);
    assert stream[5..][..|payload|] == stream[5..5 + |payload|];
    assert stream[4 + length..] == rest;
  }

  /** Every packet that is read takes exactly its length field and the bytes that announces. */
  lemma PacketConsumes(stream: bytes)
    ensures var r := PacketRead(stream);
            r.result.Ok? ==>
              && stream[..4 + ReadU32(stream, 0)] + r.rest == stream
              && |r.result.value| + 1 + stream[4] as int == ReadU32(stream, 0)
  {
  }

  /** A packet is refused, in this order, for a header that is not whole, a length of 0 or over 65536, more padding
      than packet, and a body that is not whole; the header is consumed by then, and with a body that is not whole
      the rest. */
  lemma PacketRefused(stream: bytes)
    ensures |stream| < 5 ==> PacketRead(stream) == Read(Err(IncompleteRead), [])
    ensures |stream| >= 5 ==>
              var length := ReadU32(stream, 0);
              var r := PacketRead(stream);
              && (length == 0 || length > 65536 ==> r == Read(Err(ImplausibleLength(length)), stream[5..]))
              && (0 < length <= 65536 && stream[4] as int + 1 > length ==>
                  r == Read(Err(PaddingExceedsPacket), stream[5..]))
              && (0 < length <= 65536 && stream[4] as int + 1 <= length && 4 + length > |stream| ==>
                    r == Read(Err(IncompleteRead), []))
  {
    hide ReadU32;
  }

  function KexinitRead(stream: bytes): Result<seq<seq<Name>>, SshError> {
    match PacketRead(stream).result
    case Err(e) => Err(e)
    case Ok(payload) => NameListsRead(payload)
  }

  /** All ten lists, through the payload and the packet and back. */
  lemma SshRoundTrip(cookie: bytes, lists: seq<seq<Name>>, trailing: bytes, padding: bytes, rest: bytes)
    requires |cookie| == 16 && |lists| == |FIELDS| && forall i :: 0 <= i < |lists| ==> LegalList(lists[i])
    requires |padding| < 256 && 1 + |EncodeKexinit(cookie, lists, trailing)| + |padding| <= MAX_PACKET
    ensures KexinitRead(Frame(EncodeKexinit(cookie, lists, trailing), padding) + rest) == Ok(lists)
    ensures PacketRead(Frame(EncodeKexinit(cookie, lists, trailing), padding) + rest).rest == rest
  {
    hide NameListsRead, EncodeKexinit, PacketRead, LegalList;
    KexinitRoundTrip(cookie, lists, trailing);
    PacketRoundTrip(EncodeKexinit(cookie, lists, trailing), padding, rest);
  }

  // ------------------------------------------------------------------- loops

  class Reader {
    var pending: bytes

    constructor (stream: bytes)
      ensures pending == stream
    {
      pending := stream;
    }

    method ReadExactly(n: nat) returns (r: Result<bytes, SshError>)
      modifies this
      ensures if n <= |old(pending)| then r == Ok(old(pending)[..n]) && pending == old(pending)[n..]
              else r == Err(IncompleteRead) && pending == []
    {
      if n > |pending| {
        pending := [];
        return Err(IncompleteRead);
      }
      r := Ok(pending[..n]);
      pending := pending[n..];
    }

    method ReadPacket() returns (r: Result<bytes, SshError>)
      modifies this
      ensures Read(r, pending) == PacketRead(old(pending))
    {
      hide ReadU32;
      var header := ReadExactly(5);
      if header.Err? {
        return Err(header.error);
      }
      HeaderPrefix(old(pending));
      var packetLength, paddingLength := ReadU32(header.value, 0), header.value[4] as int;
      if !(1 <= packetLength <= MAX_PACKET) {
        return Err(ImplausibleLength(packetLength));
      }
      var payloadLength := packetLength - paddingLength - 1;
      if payloadLength < 0 {
        return Err(PaddingExceedsPacket);
      }
      var body := ReadExactly(packetLength - 1);
      if body.Err? {
        return Err(body.error);
      }
      BodyPrefix(old(pending), packetLength, payloadLength);
      return Ok(body.value[..payloadLength]);
    }
  }

  lemma HeaderPrefix(stream: bytes)
    requires |stream| >= 5
    ensures ReadU32(stream[..5], 0) == ReadU32(stream, 0) && stream[..5][4] == stream[4]
  {
  }

  lemma BodyPrefix(stream: bytes, length: nat, size: nat)
    requires 1 <= length && 4 + length <= |stream| && size < length
    ensures stream[5..][length - 1..] == stream[4 + length..]
    ensures stream[5..][..length - 1][..size] == stream[5..][..size]
  {
  }

  lemma FieldsDistinct()
    ensures forall i, j :: 0 <= i < j < |FIELDS| ==> FIELDS[i] != FIELDS[j]
  {
  }

  lemma AfterSnoc(lists: seq<seq<Name>>, names: seq<Name>, rest: Result<seq<seq<Name>>, SshError>)
    ensures After(lists, After([names], rest)) == After(lists + [names], rest)
  {
    if rest.Ok? {
      assert lists + ([names] + rest.value) == lists + [names] + rest.value;
    }
  }

  lemma AfterNothing(rest: Result<seq<seq<Name>>, SshError>)
    ensures After([], rest) == rest
  {
    if rest.Ok? {
      assert [] + rest.value == rest.value;
    }
  }

  /** The lists under the names of their fields. */
  method NameLists(payload: bytes) returns (r: Result<map<string, seq<Name>>, SshError>)
    ensures match NameListsRead(payload)
            case Err(e) => r == Err(e)
            case Ok(lists) =>
              && r.Ok? && |lists| == |FIELDS|
              && r.value.Keys == (set i | 0 <= i < |FIELDS| :: FIELDS[i])
              && forall i :: 0 <= i < |FIELDS| ==> r.value[FIELDS[i]] == lists[i]
  {
    hide Split, NonEmpty, DecodeAscii, After;
    if payload != [] && payload[0] == DISCONNECT {
      return Err(Disconnected(DisconnectReason(payload)));
    }
    if payload == [] {
      return Err(NotKexinit(None));
    }
    if payload[0] != KEXINIT {
      return Err(NotKexinit(Some(payload[0])));
    }
    FieldsDistinct();
    var position: nat := 17;
    var result: map<string, seq<Name>> := map[];
    ghost var lists: seq<seq<Name>> := [];
    AfterNothing(ListsRead(payload, |FIELDS|, 17));
    for k := 0 to |FIELDS|
      invariant ListsRead(payload, |FIELDS|, 17) == After(lists, ListsRead(payload, |FIELDS| - k, position))
      invariant |lists| == k && result.Keys == (set i | 0 <= i < k :: FIELDS[i])
      invariant forall i :: 0 <= i < k ==> result[FIELDS[i]] == lists[i]
    {
      AfterErr(lists, TruncatedLength);
      AfterErr(lists, OverrunsPayload);
      if position + 4 > |payload| {
        return Err(TruncatedLength);
      }
      var length := ReadU32(payload, position);
      position := position + 4;
      if length > |payload| - position {
        return Err(OverrunsPayload);
      }
      var raw := DecodeAscii(payload[position..position + length]);
      position := position + length;
      var names := NonEmpty(Split(raw));
      AfterSnoc(lists, names, ListsRead(payload, |FIELDS| - k - 1, position));
      lists := lists + [names];
      result := result[FIELDS[k] := names];
    }
    AfterAll(lists);
    return Ok(result);
  }

  lemma AfterErr(lists: seq<seq<Name>>, e: SshError)
    ensures After(lists, Err(e)) == Err(e)
  {
  }

  lemma AfterAll(lists: seq<seq<Name>>)
    ensures After(lists, Ok([])) == Ok(lists)
  {
    assert lists + [] == lists;
  }
}
