# PQScan: a model of its wire codecs, probes, scoring and scheduling

PQScan measures how ready an estate is for post-quantum cryptography. It writes and reads its own wire formats, retries
its own probes, scores what it finds and schedules the scan. This project models those parts in Dafny and proves what
they promise for every input, every responder and every interleaving.

`dafny verify dfyconfig.toml` checks everything. The modules:

- `Bytes`, `Sets`: big-endian numbers, what stands where in a buffer, sizes of sets.
- `IkeNames`, `IkeCodec`, `IkeRoundTrip`: the IKEv2 tables, builders and readers (RFC 7296, sections 2.6, 3.1 to 3.3.2
  and 3.10), and that reading undoes building through transforms, proposal, payload chain and header. `IkeReplies`: what
  every part of a response means, and every way it can be malformed, spelled out by its bytes.
- `IkeProbe`, `IkeRuns`, `IkeObservations`: one probe as a run of exchanges against an arbitrary responder, what every
  run keeps, and the reader and the probe as they work on an observation that they change in place.
- `DnsTxt` (RFC 1035, section 4.1), `SshKexinit` (RFC 4253, sections 6, 7.1 and 11.1), `TlsClientHello` and
  `TlsServerHello` (RFC 8446, sections 4.1.2, 4.1.3, 4.2.7 and 4.2.8): the other formats, round trips and loops.
- `RateLimit`: the slots granted to any arrivals. `Batch`: the concurrent scan as interleaved steps, and the shared
  certificate inventory.
- `ScoringModel`: what every verdict is, for any weight table and rule profile. `ScoringTable`: what every piece of
  evidence costs, written a second time without the functions of the first. `ScoringLaws`, `ScoringOrder`,
  `ReadinessBand`: explanations that add up, order, repeatability and bands. `Scorer`: the scorer as it works, updating
  a finding in place, proved to write exactly those verdicts. `IndependentScores`: the second scorer, and where the two
  agree. `ShippedWeights`: the shipped numbers meet the conditions.
- `Advice`, `Remediation`: remedies matched, merged by action and ordered, on values and on the shared action objects.

Scoring is proved for every weight table that is ordered by severity, with an arbitrary nondecreasing scale for each
criticality. A verdict is a value; `HostFinding.View()` is the verdict that a finding holds.

What the code does against what is said of it:

- Only the verdicts of scoring are stable. `Scorer` appends some findings without looking whether they are there, so
  scoring twice lists them twice (`ScoringOrder.FindingsRepeat` says exactly when).
- `pqc_scan/rules/scoring.yaml:56-57` and `pqc_scan/scoring.py:320` say that a suite without encryption reaches the cap
  on its own. It does not at low criticality: a suite with nothing else against it scores 70 of 100
  (`ShippedWeights.NoEncryptionAlone`). A suite reaches the cap whatever else holds exactly when its own points and those
  of the best key exchange, scaled, do (`ScoringOrder.SuiteReachesCap`); the shipped tables also count a null or export
  suite as unapproved and as not AES-GCM, which is what takes it there (`ShippedWeights.ShippedNoEncryption`).
- A classical endpoint that offers nothing post-quantum and has no authentication score meets no limit and falls to band
  0 (`ReadinessBand.ShippedBand`).
- A batch with a semaphore of zero, which the command line does not refuse, never starts (`Batch.ZeroConcurrencyStalls`);
  with any other it always finishes.
- `_skip_name` steps over exactly what `_encode_name` wrote if and only if no label is 192 bytes or longer; DNS allows 63
  (`DnsTxt.NameSkipped`).
- The two scorers part, and `IndependentScores` states by how much. For the session: the first alone counts accepted
  suites and the lack of encryption, the second alone a missing version (`ConfidentialityGap`;
  `ShippedWeights.VersionWitness`). For a chain: the first alone counts hashes that only the profile rejects, such as
  SHA-3 (`HashGapExact`; `ShippedWeights.Sha3Witness`), and a key whose kind or size the second does not know; the second
  alone counts a failure once for each time it is listed, and caps each informational note on its own
  (`AuthenticationGap`). Where these amounts are the same the scores are.
- The second scorer gives a number even when no certificate was collected and has no path of its own for obsolete or
  refused TLS; the comparison leaves these out, and for a lone certificate asks that the facts list the failure the first
  scorer notes for it.

## Model

| member | source | states |
|---|---|---|
| IkeNames.CodeInvertsName | pqc_scan/ike_probe.py:336-338 | Looking a group up by the name it was reported under finds that group, and finds nothing for names made up for unknown groups |
| IkeReplies.DecimalIsValue | pqc_scan/ike_probe.py:196 | A code is written in its decimal digits |
| IkeReplies.NamedByTable | pqc_scan/ike_probe.py:195-206 | A known code has the name of the first entry for it, any other its number behind the registry's prefix |
| IkeReplies.RegistryNames | pqc_scan/ike_probe.py:32-53 | One name of each registry, and what each calls a code it does not know |
| IkeCodec.TransformsFit | pqc_scan/ike_probe.py:120-122 | Every encoded transform takes 8 to 12 bytes, so a proposal of up to 255 fits its length field |
| IkeRoundTrip.TransformsRoundTrip | pqc_scan/ike_probe.py:120-209 | For every list of transforms, reading their encoding applies each of them in order and stops at the one marked last |
| IkeRoundTrip.FoldKeepsTheLast | pqc_scan/ike_probe.py:195-206 | What is left is the last transform of each kind; key bits come from the last encryption transform that carries a key length |
| IkeReplies.TransformApplied | pqc_scan/ike_probe.py:195-206 | What one transform sets, whatever its attributes: the name of its kind, and for encryption the value of a first attribute that is a key length in either form |
| IkeReplies.TransformsBefore | pqc_scan/ike_probe.py:186-209 | Any transforms not marked last, with any attributes, are all applied, and reading goes on behind them |
| IkeReplies.TransformsEnd | pqc_scan/ike_probe.py:189-193 | Behind them the limit or fewer than 8 bytes end the list, and a bad length is malformed with what came before kept |
| IkeReplies.TransformsMarked | pqc_scan/ike_probe.py:208-209 | One marked last ends it, whatever the limit and whatever follows |
| IkeReplies.ProposalRefused | pqc_scan/ike_probe.py:223-236 | The three errors of an SA payload and its empty case, by its bytes |
| IkeRoundTrip.ProposalContainment | pqc_scan/ike_probe.py:212-236 | Two SA payloads of any sizes, with SPIs of any sizes, that agree on length validity, count and the bytes between SPI and proposal length give the same observation and error |
| IkeRoundTrip.ProposalWritten | pqc_scan/ike_probe.py:212-236 | A written proposal, whatever its SPI, its transform bytes and what follows, is read as those transform bytes |
| IkeRoundTrip.ProposalRoundTrip | pqc_scan/ike_probe.py:125-140 | A built proposal, under any SPI and with anything after it, reads as its own transforms |
| IkeRoundTrip.ChainRoundTrip | pqc_scan/ike_probe.py:239-264 | A chain of payloads of any kinds is read payload by payload, each under the kind the one before announced |
| IkeRoundTrip.ForeignPayloads | pqc_scan/ike_probe.py:245-264 | Payloads of other kinds change nothing |
| IkeReplies.PayloadMeans | pqc_scan/ike_probe.py:251-253 | SA payloads are read as proposals, notifications with a type as such, all others passed over |
| IkeReplies.NotifyMeans | pqc_scan/ike_probe.py:253-263 | Every notification: an error is noted by number, or by group if it asks for one; a cookie is kept; other status types change nothing |
| IkeReplies.NoticesInOrder | pqc_scan/ike_probe.py:245-264 | Any chain of error notifications is noted one for one, in order |
| IkeReplies.MalformedEnds | pqc_scan/ike_probe.py:245-264 | The first malformed payload ends the reading with all that was read before it |
| IkeReplies.PayloadsBefore | pqc_scan/ike_probe.py:245-264 | Behind any whole payloads, reading goes on under the kind the last announced |
| IkeReplies.PayloadsEnd | pqc_scan/ike_probe.py:245-249 | There nothing announced or fewer than 4 bytes end it, and a bad length is malformed |
| IkeReplies.ResponseHeader | pqc_scan/ike_probe.py:239-244 | A response shorter than 28 bytes is refused; any other has the version of its header's upper four bits |
| IkeRoundTrip.PacketRoundTrip | pqc_scan/ike_probe.py:161-183 | A header in front of any chain is read past exactly: version 2, and then the chain |
| IkeRoundTrip.IkeRoundTrip | pqc_scan/ike_probe.py:115-264 | Through all four levels, with any SPI, any transforms and any further payloads, reading gives the last transform of each kind |
| IkeRoundTrip.RequestFrame | pqc_scan/ike_probe.py:161-183 | A request is as long as its length field says, starts with its SPI, and holds its body after the optional cookie payload |
| IkeReplies.RequestHeader | pqc_scan/ike_probe.py:175-182 | The header of a request, byte by byte |
| IkeReplies.RequestBody | pqc_scan/ike_probe.py:147-158 | A request carries the offer, the group with its key value, and a nonce, in this chain |
| IkeReplies.ProposalBytes | pqc_scan/ike_probe.py:139-140 | The header of a written proposal, byte by byte |
| IkeReplies.AttributeBytes | pqc_scan/ike_probe.py:115-122 | A key length in the short form, or nothing when there is none or it is 0 |
| IkeReplies.CookieBytes | pqc_scan/ike_probe.py:169-174 | The cookie payload in front of a request, byte by byte |
| IkeReplies.NonEspMarker | pqc_scan/ike_probe.py:282-309 | Four zero bytes in front on port 4500 and there only, taken off a reply that has them |
| IkeRoundTrip.CookieLeads | pqc_scan/ike_probe.py:161-183 | Putting a cookie in front of any body, well formed or not, changes nothing in what is read but the cookie |
| IkeProbe.AnswerParsed | pqc_scan/ike_probe.py:239-264 | Whatever bytes come back, notes are well formed and a cookie is short enough to send again |
| IkeReplies.AnswerMeans | pqc_scan/ike_probe.py:297-346 | What is reported of one exchange: the reason for no answer, or the answer, in part and with a reason if malformed |
| IkeReplies.DatagramsSent | pqc_scan/ike_probe.py:292-307 | One datagram if the first is answered, two if only the repeated one is or none is |
| IkeProbe.WantedIsNamed | pqc_scan/ike_probe.py:329-338 | The group a retry asks for is the one that the first INVALID_KE note was made from |
| IkeRuns.RunSound | pqc_scan/ike_probe.py:267-349 | A run, begun afresh or to answer a challenge, makes at most one exchange more than 2 for a retry left and 1 for no cookie yet, makes every retry that an answer calls for and no other, and reports the answer that no other replaces |
| IkeRuns.AnyResponder | pqc_scan/ike_probe.py:267-349 | Against any responder: one to four exchanges, at most eight datagrams; every retry justified by an answer, and every retry an answer calls for made, in a fresh request unless it answers a challenge; the observation is the last answer of the trail in which each replaces the one before, an answered group retry with an encryption among them, with exactly the notes along it; responded set exactly if that answer echoed its own SPI |
| IkeRuns.TrailIsUnique | pqc_scan/ike_probe.py:325-343 | There is one such trail, so the log determines what is reported |
| IkeRuns.GroupRetryFollowed | pqc_scan/ike_probe.py:333-343 | A gateway that names another group and answers in it with an encryption is reported by that answer, behind the notes of the first |
| IkeRuns.CookieRetryRepeatsTheRequest | pqc_scan/ike_probe.py:317-324 | A cookie retry carries the same SPI and the identical body behind the cookie, and reads as the first request but for the cookie |
| IkeRuns.BoundIsMet | pqc_scan/ike_probe.py:317-343 | The bound is exact: one responder draws out four exchanges and eight datagrams, the group retry being challenged again |
| IkeObservations.BuildProposal | pqc_scan/ike_probe.py:125-140 | Filling a list and clearing the first byte of its last entry gives the encoding of the offered transforms |
| IkeObservations.OfferedProposal | pqc_scan/ike_probe.py:58-61 | With the shipped offer, it builds the proposal that every request of a run carries |
| IkeObservations.PatchedIsMarked | pqc_scan/ike_probe.py:135-138 | Clearing the first byte of the last transform is all that marks the list as ended |
| IkeObservations.ParseTransforms | pqc_scan/ike_probe.py:186-209 | The loop leaves the observation, and the error, that the reader specifies, partial writes included |
| IkeObservations.ParseProposals | pqc_scan/ike_probe.py:212-236 | The same for the SA payload and its three errors |
| IkeObservations.ParseResponse | pqc_scan/ike_probe.py:239-264 | The same for the whole response, on every byte string |
| IkeObservations.ParseNotify | pqc_scan/ike_probe.py:253-263 | The same for one notify payload |
| IkeObservations.Ask | pqc_scan/ike_probe.py:278-315 | One exchange over the network is logged, and its observation is that exchange's answer |
| IkeObservations.ProbeIke | pqc_scan/ike_probe.py:267-349 | The recursive probe over changing observations makes exactly the run that the run properties are about |
| DnsTxt.LabelsSkipped | pqc_scan/domain_probe.py:61-76 | Labels are stepped over exactly when none is long enough to look like a pointer; otherwise the reader stops short |
| DnsTxt.NameSkipped | pqc_scan/domain_probe.py:61-76 | The end found for an encoded name at any offset is its end if and only if every label is under 192 bytes |
| DnsTxt.WireSkipped | pqc_scan/domain_probe.py:67-76 | The same for a name that ends in a compression pointer |
| DnsTxt.NameCutShort | pqc_scan/domain_probe.py:69-76 | A name that ends with the datagram is truncated |
| DnsTxt.StringsJoin | pqc_scan/domain_probe.py:101-107 | The strings of a TXT value come back joined |
| DnsTxt.RecordsRoundTrip | pqc_scan/domain_probe.py:90-108 | Any answer records, TXT or not, give exactly the TXT values in order |
| DnsTxt.TxtRoundTrip | pqc_scan/domain_probe.py:79-108 | Any message, with anything after it, is refused for its id, direction or response code, in that order, and otherwise gives exactly its TXT values |
| DnsTxt.HeaderRefused | pqc_scan/domain_probe.py:80-86 | The three refusals of a header, in order, by its bytes |
| DnsTxt.RecordsBefore | pqc_scan/domain_probe.py:91-108 | Behind any whole records, their values stand in front of what is made of the rest |
| DnsTxt.RecordCutShort | pqc_scan/domain_probe.py:91-98 | There a bad name is an error, fewer than 10 bytes end the answer, and a record past the end is read as far as it goes |
| DnsTxt.StringsCutShort | pqc_scan/domain_probe.py:102-107 | Strings of which the last declares more than there is give what there is |
| DnsTxt.AnswersWithinData | pqc_scan/domain_probe.py:90-107 | At most as many values as announced, and no more bytes than stand from there on |
| DnsTxt.TextsWithinDatagram | pqc_scan/domain_probe.py:79-108 | Whatever lengths a datagram declares, the text returned is at most its length less 12 |
| DnsTxt.SkipName | pqc_scan/domain_probe.py:67-76 | The loop finds the end that the name properties are about, or fails as they do |
| DnsTxt.JoinStrings | pqc_scan/domain_probe.py:102-107 | The loop joins the length-prefixed strings, clipped at the end of the record |
| DnsTxt.ParseTxt | pqc_scan/domain_probe.py:79-108 | The loops return what the round trip is about, on every byte string |
| SshKexinit.SplitInvertsJoin | pqc_scan/ssh_probe.py:100-102 | Splitting the comma-joined text of any nonempty comma-free names and dropping empty items gives the names back |
| SshKexinit.NamesAreCanonical | pqc_scan/ssh_probe.py:100-102 | Whatever the text, the names read from it are nonempty and comma-free, and the same when joined and read again |
| SshKexinit.SplitMeans | pqc_scan/ssh_probe.py:102 | Splitting is undone by joining with commas and leaves no comma, so it is the only split |
| SshKexinit.NonEmptyMeans | pqc_scan/ssh_probe.py:102 | Of the items, those that are not empty, as often as they stand there |
| SshKexinit.DecodedByByte | pqc_scan/ssh_probe.py:100 | A byte of ASCII is its character, any other the replacement character |
| SshKexinit.BlankMeans | pqc_scan/ssh_probe.py:75 | A blank is the UTF-8 encoding of one of the blank characters, and no other |
| SshKexinit.StripsEnds | pqc_scan/ssh_probe.py:75 | Stripping takes blanks, ASCII and Unicode, off both ends of a description, nothing else, and leaves none there |
| SshKexinit.NoBlankAtStart | pqc_scan/ssh_probe.py:75 | No blank is overlooked at the start of a description |
| SshKexinit.NoBlankAtEnd | pqc_scan/ssh_probe.py:75 | Nor at its end |
| SshKexinit.KexinitRoundTrip | pqc_scan/ssh_probe.py:80-103 | All ten lists come back, and trailing payload is ignored |
| SshKexinit.PayloadRefused | pqc_scan/ssh_probe.py:72-90 | Empty payloads, other types and short disconnects, by their bytes |
| SshKexinit.DescriptionCutShort | pqc_scan/ssh_probe.py:74-77 | A description longer than the packet is read as far as the packet goes |
| SshKexinit.ListsBefore | pqc_scan/ssh_probe.py:93-102 | Behind any whole lists, they stand in front of what is made of the rest |
| SshKexinit.ListCutShort | pqc_scan/ssh_probe.py:94-99 | There the two errors of a list |
| SshKexinit.DisconnectRoundTrip | pqc_scan/ssh_probe.py:70-77 | A disconnect gives its stripped description, or its code when that is blank, whatever follows |
| SshKexinit.PacketRoundTrip | pqc_scan/ssh_probe.py:117-128 | Any payload under any padding comes back, with the stream left after the packet, exactly when the packet is within the limit |
| SshKexinit.PacketConsumes | pqc_scan/ssh_probe.py:117-128 | A packet that is read takes exactly 4 bytes and what its length field says |
| SshKexinit.PacketRefused | pqc_scan/ssh_probe.py:119-127 | The refusals of a packet, in order, and what each leaves of the stream |
| SshKexinit.SshRoundTrip | pqc_scan/ssh_probe.py:80-128 | A framed KEXINIT under any padding gives all ten lists and leaves the rest of the stream |
| SshKexinit.Reader.ReadExactly | pqc_scan/ssh_probe.py:119-127 | Takes exactly that many bytes, or fails when there are fewer |
| SshKexinit.Reader.ReadPacket | pqc_scan/ssh_probe.py:117-128 | Reads the packet that the framing properties are about and leaves the rest of the stream |
| SshKexinit.NameLists | pqc_scan/ssh_probe.py:80-103 | The loop files each list under its own field's name, or fails as the reader does |
| TlsClientHello.HelloRoundTrip | pqc_scan/tls_probe.py:78-112 | A reader that accepts only exact lengths at every level reads back any hello |
| TlsClientHello.OfferWritten | pqc_scan/tls_probe.py:82-112 | What the builder concatenates is the encoding of one hello with the extensions it means to send |
| TlsClientHello.LegacyOfferWritten | pqc_scan/tls_probe.py:345-365 | The same for the legacy builder |
| TlsClientHello.ClientHelloRoundTrip | pqc_scan/tls_probe.py:78-112 | Any arguments within the 16-bit lengths are read back as exactly the hello meant, no extension more or less: name, groups, key shares and suites, with every length consistent |
| TlsClientHello.LegacyClientHelloRoundTrip | pqc_scan/tls_probe.py:345-365 | The same for the legacy form, for every hello it can pack: its suites and its fixed curves |
| TlsClientHello.HelloBytes | pqc_scan/tls_probe.py:106-112 | A hello on the wire, byte by byte outside its variable parts |
| TlsClientHello.ServerNameBytes | pqc_scan/tls_probe.py:90 | The server name, byte by byte |
| TlsClientHello.FixedParts | pqc_scan/tls_probe.py:89-109 | The suites, signature schemes and versions of every hello, by their bytes |
| TlsClientHello.LegacyFixedParts | pqc_scan/tls_probe.py:349-357 | The curves, points and signature schemes of every legacy hello, by their bytes |
| TlsServerHello.GroupRoundTrip | pqc_scan/tls_probe.py:141-151 | Over any extension list, the group is that of the first key share, or none |
| TlsServerHello.ServerHelloRoundTrip | pqc_scan/tls_probe.py:123-151 | Any ServerHello gives its first key share's group, whether it is a HelloRetryRequest, and its version and suite |
| TlsServerHello.ChoiceWhereSelection | pqc_scan/tls_probe.py:368-380 | Reading version and suite never fails where reading the group succeeds |
| TlsServerHello.CurveRoundTrip | pqc_scan/tls_probe.py:154-165 | Over any whole handshake messages, the curve is that of the first key exchange that names one |
| TlsServerHello.ServerHelloRefused | pqc_scan/tls_probe.py:123-137 | The refusals of both readers of a ServerHello, by its bytes |
| TlsServerHello.ExtensionsEnd | pqc_scan/tls_probe.py:141-151 | Behind any extensions that are no key shares: none, or one past the end |
| TlsServerHello.MessagesEnd | pqc_scan/tls_probe.py:156-165 | Behind any messages that name no curve: none, or one past the end |
| TlsServerHello.RetryRandom | pqc_scan/tls_probe.py:36 | The random that marks a HelloRetryRequest, in words |
| TlsServerHello.SelectedGroup | pqc_scan/tls_probe.py:123-151 | The loop returns the selection that the round trip is about, on every byte string |
| TlsServerHello.Tls12NamedCurve | pqc_scan/tls_probe.py:154-165 | The loop returns the curve that the round trip is about, on every byte string |
| RateLimit.SlotIsGreatest | pqc_scan/collectors.py:26-33 | Slot k is the greatest over j up to k of arrival j and k - j intervals |
| RateLimit.SlotsApart | pqc_scan/collectors.py:26-33 | Slots are at least an interval apart for each step between them |
| RateLimit.RateBound | pqc_scan/collectors.py:26-33 | Any stretch of time holds at most its length times the rate, and one more |
| RateLimit.SlotsEarliest | pqc_scan/collectors.py:26-33 | No schedule that waits for arrivals and keeps the spacing grants any slot earlier |
| RateLimit.RateLimiter.GetLock | pqc_scan/collectors.py:21-24 | One lock for each host, the same one every time, shared with no other host |
| RateLimit.RateLimiter.WaitForSlot | pqc_scan/collectors.py:26-35 | The slot granted extends the schedule that the slot properties are about; a rate of zero grants at once |
| Batch.StepKeepsInv | pqc_scan/cli.py:382-413 | Every step of every task keeps the semaphore, the host locks, the findings and the inventory exact |
| Batch.NoDeadlock | pqc_scan/cli.py:382-384 | Some task can always step until all have left, although tasks hold the semaphore while they wait for a host |
| Batch.ZeroConcurrencyStalls | pqc_scan/cli.py:372-383 | With a semaphore of zero nothing ever starts |
| Batch.StepDescends | pqc_scan/cli.py:382-413 | Every step brings the end closer |
| Batch.EveryStateSafe | pqc_scan/cli.py:371-414 | In every state of every run: at most `concurrency` tasks inside, no two on one host, findings and inventory exact; and no run is longer than the work there is |
| Batch.EveryTargetReported | pqc_scan/cli.py:412-414 | A run that can go no further has exactly one finding for each target, whichever probes failed |
| Batch.CertificateStore.EnterCertificate | pqc_scan/probes.py:115-120 | The stored certificate, new or shared, names the endpoint once; no other entry changes |
| Batch.CertificateStore.EnterChain | pqc_scan/probes.py:107-121 | Every certificate that parses is entered in order, and a malformed one is passed over |
| Batch.ParsedMeans | pqc_scan/probes.py:109-121 | What parses, in order, a malformed certificate leaving nothing |
| Batch.EnterMeans | pqc_scan/probes.py:115-120 | The endpoint is named last under the certificate if it was not named there, and nothing else changes |
| Batch.ProbeMayEnd | pqc_scan/cli.py:386-411 | A probe may succeed or fail whatever it was served |
| Batch.EnterAllLists | pqc_scan/probes.py:115-121 | The inventory then lists exactly what it did and this endpoint under each certificate served, without repeats |
| Batch.ReentryChangesNothing | pqc_scan/probes.py:116-120 | Probing an endpoint again changes nothing |
| ScoringTable.SeverityIsPlace | pqc_scan/scoring.py:16-22 | The five classes from the mildest to the most severe |
| ScoringTable.ByService | pqc_scan/scoring.py:297-305 | Each service is scored by its own rules |
| ScoringTable.TlsConfidentialityTable | pqc_scan/scoring.py:367-421 | Score, readiness and status of a TLS endpoint on each of the four paths, by weights and evidence |
| ScoringTable.GroupAlone | pqc_scan/scoring.py:403 | An endpoint with nothing else against it scores the weight of its group's class, for each of the five |
| ScoringTable.BreachesCost | pqc_scan/scoring.py:306-350 | What the session and the accepted suites cost, item by item |
| ScoringTable.ExceedsMeans | pqc_scan/scoring.py:357-361 | An unused capability is a class earlier in the order of strength, in which retirement comes before review |
| ScoringTable.TlsFindings | pqc_scan/scoring.py:351-377 | The findings of a session, by name, and when the capability is noted |
| ScoringTable.TlsAuthenticationTable | pqc_scan/scoring.py:423-553 | Score, failures and chain class of a TLS endpoint on each path, by weights and evidence |
| ScoringTable.SignatureCost | pqc_scan/scoring.py:464-480 | A chain's signatures cost the weight of the most severe class in it |
| ScoringTable.KnownMeans | pqc_scan/scoring.py:459-462 | A chain is its certificates in the inventory, in order |
| ScoringTable.KeyFindingNames | pqc_scan/scoring.py:523-546 | The findings about the leaf's key, by name |
| ScoringTable.SshConfidentialityTable | pqc_scan/scoring.py:77-126 | An SSH endpoint by the least severe key exchange it offers: score, status and readiness |
| ScoringTable.SshWithoutKeyExchange | pqc_scan/scoring.py:77-99 | Without one it is scored as the worst |
| ScoringTable.SshAuthenticationTable | pqc_scan/scoring.py:104-117 | And by the most severe host key it offers |
| ScoringTable.IpsecTable | pqc_scan/scoring.py:147-198 | An IPsec gateway by the class of its group, cipher and integrity, and by its failures |
| ScoringTable.IpsecReadinessMeans | pqc_scan/scoring.py:172-179 | The three cases of a group's name |
| ScoringTable.DomainTable | pqc_scan/scoring.py:203-223 | A domain by the number of its failures, and never for confidentiality |
| ScoringTable.UpperMeans | pqc_scan/scoring.py:172 | Upper-casing a group's name changes its small letters and nothing else |
| ScoringTable.TlsConfidentialityExplained | pqc_scan/scoring.py:364-421 | Every line of the explanation on each path, with its points, in order |
| ScoringTable.TlsAuthenticationExplained | pqc_scan/scoring.py:423-553 | The same for authentication |
| ScoringTable.SshExplained | pqc_scan/scoring.py:77-120 | The same for SSH |
| ScoringTable.SshFindingsNamed | pqc_scan/scoring.py:24-42 | The findings of unapproved algorithms, which name them |
| ScoringTable.OffendersMeans | pqc_scan/scoring.py:31-36 | The unapproved algorithms of a list, by name, in order |
| ScoringTable.ListedMeans | pqc_scan/scoring.py:41 | How names are listed |
| ScoringTable.IpsecExplained | pqc_scan/scoring.py:154-201 | The same for IPsec |
| ScoringTable.DomainExplained | pqc_scan/scoring.py:215-226 | The same for a domain |
| ScoringLaws.ExplanationAddsUp | pqc_scan/scoring.py:44-226 | On every path of every service the listed points sum to the subtotal and the score is its capped scaling; in a TLS chain, exactly if the informational notes fit under their cap |
| ScoringLaws.TwoNotesFit | pqc_scan/scoring.py:519-550 | They fit whenever twice one note is within the cap |
| ScoringLaws.ScoresWithinCaps | pqc_scan/scoring.py:291-553 | Both scores lie between 0 and their caps |
| ScoringOrder.WeakerConfidentiality | pqc_scan/scoring.py:306-421 | A worse group, longer-lived data, higher criticality or more accepted suites never lower the TLS confidentiality score |
| ScoringOrder.SuiteReachesCap | pqc_scan/scoring.py:313-321 | A suite reaches the cap at a criticality, under every profile and whatever else is found, if and only if its own points and those of the best key exchange, scaled, do |
| ScoringOrder.NoEncryptionReachesCap | pqc_scan/scoring.py:319-321 | A suite without encryption reaches it at every criticality if and only if it does at the lowest |
| ScoringOrder.WorstIsGreatest | pqc_scan/scoring.py:448-477 | The class charged for a chain is the most severe in it |
| ScoringOrder.LongerChainNoBetter | pqc_scan/scoring.py:459-507 | One more certificate on a chain of two or more lowers neither the authentication score nor the chain's class |
| ScoringOrder.MoreFailuresInChain | pqc_scan/scoring.py:509-514 | More validation failures, in any order, never lower the authentication score of a chain |
| ScoringOrder.MoreFailuresNoBetter | pqc_scan/scoring.py:104-226 | More validation failures never lower the authentication score, whatever the service |
| ScoringOrder.HigherCriticalityNoBetter | pqc_scan/scoring.py:291-305 | The same evidence at a higher criticality scores no better on either side, whatever the service |
| ScoringOrder.ChainOrderIrrelevant | pqc_scan/scoring.py:448-553 | The order of the certificates behind the leaf changes nothing at all |
| ScoringOrder.BestIsLeast | pqc_scan/scoring.py:65-69 | The key exchange scored is the least severe one offered |
| ScoringOrder.WorstOfferedIsGreatest | pqc_scan/scoring.py:71-75 | The host key scored is the most severe one offered |
| ScoringOrder.MoreUnapprovedNoBetter | pqc_scan/scoring.py:24-126 | One more unapproved algorithm, anywhere in any SSH role, lowers neither score |
| ScoringOrder.ScoringTwice | pqc_scan/scoring.py:291-553 | Scoring again changes no score, readiness, status, failure, chain class or explanation, although the first run writes failures and statuses that the second reads |
| ScoringOrder.FindingsRepeat | pqc_scan/scoring.py:351-377 | The findings grow by exactly what is appended unguarded, and stay the same if and only if that is nothing |
| ReadinessBand.BandOf | pqc_scan/scoring.py:257-276 | The band is the greatest level whose conditions hold, or 0 when none do |
| ReadinessBand.BandUnique | pqc_scan/scoring.py:257-276 | Nothing else is |
| ReadinessBand.BandTable | pqc_scan/scoring.py:243-276 | 0 for any disqualifying failure or a disqualifying obsolete protocol; otherwise none without a readiness; otherwise the greatest level whose conditions, spelled out, are met |
| ReadinessBand.BandAlone | pqc_scan/scoring.py:243-246 | Without levels or a score nothing changes, and nothing but the band ever does |
| ReadinessBand.LowerScoresNoLowerBand | pqc_scan/scoring.py:264-271 | Lower scores never lower the band, whatever the levels are |
| ReadinessBand.UnmeasuredIsUnrated | pqc_scan/scoring.py:228-256 | For a fresh finding of any service, no confidentiality score means no readiness and no band; a scored one lacks either exactly if the profile leaves its group without a readiness |
| ReadinessBand.MeasuredIsRated | pqc_scan/scoring.py:240-256 | With a readiness for every class, no score, no readiness and no band are one and the same |
| ReadinessBand.BandedTwice | pqc_scan/scoring.py:228-276 | Scoring and banding a second time changes no verdict and no band |
| ReadinessBand.ShippedBand | pqc_scan/rules/scoring.yaml:154-190 | The shipped levels as a table over readiness, capability and scores |
| ReadinessBand.ShippedDisqualifies | pqc_scan/rules/scoring.yaml:155-163 | Each of the seven failures, and an obsolete protocol, forces band 0, and nothing else does |
| ReadinessBand.PostQuantumNotBelowClassical | pqc_scan/rules/scoring.yaml:164-177 | Under the shipped levels a post-quantum endpoint is never rated below a classical one with the same failures, and above it unless disqualified |
| Scorer.Scorer.UnapprovedOffered | pqc_scan/scoring.py:24-42 | Charges each unapproved algorithm of the roles, up to the cap, and labels the finding with their names |
| Scorer.Scorer.BestOf | pqc_scan/scoring.py:65-69 | The loop finds the least severe class, or none |
| Scorer.Scorer.WorstOf | pqc_scan/scoring.py:71-75 | The loop finds the most severe class, or none |
| Scorer.Scorer.ScoreSsh | pqc_scan/scoring.py:44-126 | Updates the finding to the SSH verdict that the laws are about, and nothing else of it |
| Scorer.Scorer.ScoreIpsec | pqc_scan/scoring.py:128-201 | The same for IPsec |
| Scorer.Scorer.ScoreDomain | pqc_scan/scoring.py:203-226 | The same for a domain |
| Scorer.Scorer.ProtocolBreaches | pqc_scan/scoring.py:306-350 | Collects every breach of a TLS control with its points, in order |
| Scorer.Scorer.NameBreaches | pqc_scan/scoring.py:351-353 | Adds each breach to the findings unless it is there |
| Scorer.Scorer.WalkChain | pqc_scan/scoring.py:448-477 | One pass finds the chain's weakest signature, its hashes and the worst class behind the leaf, passing over unknown certificates |
| Scorer.Scorer.ChargeChain | pqc_scan/scoring.py:478-550 | The points, lines and findings of a chain and its leaf |
| Scorer.Scorer.ScoreTlsConfidentiality | pqc_scan/scoring.py:306-421 | Updates the finding to the TLS confidentiality verdict, and nothing else of it |
| Scorer.Scorer.ScoreTlsAuthentication | pqc_scan/scoring.py:423-553 | The same for TLS authentication |
| Scorer.Scorer.CalculateScores | pqc_scan/scoring.py:291-553 | Updates a finding of any service to exactly the verdict that the laws are about |
| Scorer.Scorer.AssignReadinessBand | pqc_scan/scoring.py:228-276 | The loop over the levels sets exactly the band the band properties are about, or leaves the finding as it is |
| IndependentScores.IndependentConfidentiality | pqc_scan/verify.py:292-321 | The second scorer's conditional additions come to its specified score |
| IndependentScores.IndependentAuthentication | pqc_scan/verify.py:323-381 | The same for authentication |
| IndependentScores.ConfidentialityGap | pqc_scan/verify.py:296-320 | The first scorer's subtotal with the points for a missing version is the second's with those for accepted suites and the lack of encryption |
| IndependentScores.ConfidentialityAgrees | pqc_scan/verify.py:292-321 | Whichever charges less alone is not above the other, so the scores agree where they charge the same alone; without a group neither scores |
| IndependentScores.HashGapExact | pqc_scan/verify.py:334-338 | The second never charges more for hashes, and charges the same exactly if nothing is rejected that it does not know or that costs what it charges instead |
| IndependentScores.SecondHashes | pqc_scan/verify.py:334-338 | The hashes the second scorer knows, by name, and what it makes of them |
| IndependentScores.AuthenticationGap | pqc_scan/verify.py:323-380 | The subtotals differ exactly by what each charges alone: hashes and keys the second does not know, repeated failures and two notes capped one by one |
| IndependentScores.DistinctAtMost | pqc_scan/scoring.py:509-510 | Distinct failures are as many as the listed ones exactly if none is listed twice |
| IndependentScores.NotesGapZero | pqc_scan/verify.py:353-362 | The notes cost the same exactly if they do not both apply, or both fit, or count for nothing |
| IndependentScores.AuthenticationAgrees | pqc_scan/verify.py:323-381 | Whichever charges less alone is not above the other, so the scores agree where they charge the same alone |
| IndependentScores.ScorersAgree | pqc_scan/verify.py:278-381 | The two return the same pair for every TLS finding with a known group and version and two or more known certificates in the domain named |
| ShippedWeights.Ordered | pqc_scan/rules/scoring.yaml:19-132 | The shipped weights are ordered by severity and two notes fit under their cap |
| ShippedWeights.ShippedExplanationAddsUp | pqc_scan/rules/scoring.yaml:111-123 | With them, every explanation of every service adds up |
| ShippedWeights.ShippedSuiteReachesCap | pqc_scan/rules/scoring.yaml:48-58 | With them, a suite reaches the cap exactly where the criticality leaves 100 of its own points |
| ShippedWeights.ShippedNoEncryption | pqc_scan/rules/scoring.yaml:48-58 | A null or export suite does at every criticality exactly where the lowest leaves 100 of its 160 points, or 170 on the shorter AES keys |
| ShippedWeights.NoEncryptionAlone | pqc_scan/rules/scoring.yaml:55-58 | On its own, the lack of encryption does not: at low criticality such an endpoint scores 70 |
| ShippedWeights.VersionWitness | pqc_scan/verify.py:303-305 | An endpoint without a version on which the second scorer gives 10 and the first 0 |
| ShippedWeights.Sha3Witness | pqc_scan/verify.py:334-338 | A chain over SHA-3 on which the first scorer gives 20 and the second 0 |
| Advice.MatchIsLongest | pqc_scan/remediation.py:48-53 | A finding gets the remedy of the one longest key that begins it, whatever the order of the table, and none exactly when no key does |
| Advice.SortIsStable | pqc_scan/remediation.py:26-29 | Actions that rank alike keep their order |
| Advice.ItemsForAdvise | pqc_scan/remediation.py:56-87 | An endpoint is advised an action, under its own name, exactly if it could be assessed and its readiness or a finding of it has that remedy |
| Advice.AdviceIsConserved | pqc_scan/remediation.py:90-106 | The estate's advice names exactly the (action, endpoint) pairs that the findings do |
| Advice.ConsolidatedIsOrdered | pqc_scan/remediation.py:104-106 | Each action once, its hosts sorted without repeats and never empty, the whole sorted |
| Advice.AdviceInOrder | pqc_scan/remediation.py:26-29 | The more urgent first, then what helps more hosts, then the easier in the order of efforts; hosts in the order of their characters |
| Advice.LessMeans | pqc_scan/remediation.py:105 | The order of two names |
| Advice.EffortMeans | pqc_scan/remediation.py:14 | The order of two efforts |
| Advice.ItemsAreMade | pqc_scan/remediation.py:69-85 | Each action is its remedy field by field, for one host, triggered by the first finding with its text |
| Advice.FirstAdviceStands | pqc_scan/remediation.py:99-103 | Each action keeps the priority, effort, reason and trigger it first came with |
| Remediation.FindMatch | pqc_scan/remediation.py:48-53 | The loop over the keys, longest first, finds that remedy |
| Remediation.ActionsFor | pqc_scan/remediation.py:56-87 | The actions made for an endpoint are those the advice properties are about, as new objects |
| Remediation.MergeActions | pqc_scan/remediation.py:98-103 | Merging grows the hosts of the action objects already known and takes the others over |
| Remediation.Consolidate | pqc_scan/remediation.py:90-106 | The whole is the consolidated advice, as new objects |

## Left out

- Sockets, timeouts and asyncio itself: a responder, a stream and a clock are arbitrary inputs; the scan is a state machine over the steps of its tasks, not its coroutines.
- The wait after a granted slot: the rate bound is on the slots granted, not on when tasks wake up.
- Random bytes and key values: arbitrary inputs of the right size; the SPI and nonces of one run may even repeat.
- IDNA and UTF-8: names are given as labels or bytes, and text values and SSH descriptions as undecoded bytes, whose blanks are told by their encoding; SSH lists are decoded as ASCII, other bytes becoming the replacement character.
- The YAML files and classification tables: any function into the five classes and any ordered weights; the shipped weights and levels are written out, the shipped tables are not.
- Cipher names: a suite is what its name contains, as flags; which names the shipped tokens match is not modelled.
- Floating point: the scaled, cut score is any nondecreasing function for each criticality, so the exact shipped scores are not stated; the rate limiter counts in reals, where the program's clock and interval are floats.
- The wording of explanations and chain reasons, and the names of bands: lines and findings carry fixed labels, so the classes and lists that some lines name, and the number of suites that the label of accepted suites ends in, are not modelled.
- The group classification of an unknown negotiated group in the capability comparison is any class the table gives the name `unknown`.
- Errors of the IKE probe other than malformed packets: a socket error is one outcome of an exchange, without its text.
- IndependentScores.ScorersAgree: the text of dates and keys is not parsed; facts carry the key's algorithm, where it is RSA or ECDSA, its size, and the expiry as a time.
- Remediation.ActionsFor: the label of an endpoint is given, not built from its host, port and service.
- Upper case: the name of an IPsec group is upper-cased in ASCII, which decides the two prefixes looked for.
- Batch.EveryTargetReported: the content of a finding is only whether its probe failed; the outer time budget and cancellation are not modelled.
- RateLimit.RateLimiter.WaitForSlot: the lock around the slot computation is not modelled, as one call is one step.
- TLS handshakes, X.509 parsing, OpenSSL, discovery, DKIM, HSTS and MTA-STS, the self-test, the sample checks and all rendering: foreign code, I/O or presentation.
