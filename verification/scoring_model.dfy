/** What the scorer works on, and what each of its verdicts is. */
module ScoringModel {
  import opened Bytes

  datatype Classification = APPROVED | TRANSITIONAL | REVIEW | NOT_APPROVED_AFTER_2030 | NOT_APPROVED

  function Severity(c: Classification): nat {
    match c
    case APPROVED => 0
    case TRANSITIONAL => 1
    case REVIEW => 2
    case NOT_APPROVED_AFTER_2030 => 3
    case NOT_APPROVED => 4
  }

  datatype Criticality = Low | Medium | High

  datatype Service = Tls | Ssh | Ipsec | Domain

  datatype Readiness = Unknown | ClassicalOnly | HybridTransitional | PurePqApproved

  datatype PqStatus = Supported | NotSupported | NotDeterminable

  // ----------------------------------------------------------------- weights

  datatype ByClass = ByClass(approved: nat, transitional: nat, review: nat, after2030: nat, notApproved: nat) {
    function Of(c: Classification): nat {
      match c
      case APPROVED => approved
      case TRANSITIONAL => transitional
      case REVIEW => review
      case NOT_APPROVED_AFTER_2030 => after2030
      case NOT_APPROVED => notApproved
    }

    ghost predicate Ordered() {
      approved <= transitional <= review <= after2030 <= notApproved
    }
  }

  /** Points scaled for a criticality and cut to a whole number. */
  type Scale = (Criticality, nat) -> nat

  datatype ConfWeights = ConfWeights(
    cap: nat, keyExchange: ByClass, noPqGroup: nat, from5To10: nat, over10: nat,
    versionNotApproved: nat, notAesGcm: nat, symmetricAfter2030: nat, symmetricNotApproved: nat,
    noEncryption: nat, unapprovedAccepted: nat, noForwardSecrecy: nat,
    offered: nat, offeredCap: Option<nat>, scale: Scale)

  datatype AuthWeights = AuthWeights(
    cap: nat, signature: ByClass, hashNotApproved: nat, hashAfter2030: nat,
    failure: nat, failureCap: nat, obsolete: nat, notAfter2028: nat, notAfter2030: nat,
    belowMinimum: nat, belowPreferred: nat, curveViolation: nat, informationalCap: nat,
    offered: nat, offeredCap: Option<nat>, scale: Scale)

  ghost predicate ValidScale(scale: Scale) {
    && (forall c, x: nat, y: nat :: x <= y ==> scale(c, x) <= scale(c, y))
    && (forall x: nat {:trigger scale(Low, x)} {:trigger scale(Medium, x)} {:trigger scale(High, x)} ::
          scale(Low, x) <= scale(Medium, x) <= scale(High, x))
  }

  ghost predicate ValidConf(w: ConfWeights) {
    w.keyExchange.Ordered() && w.from5To10 <= w.over10 && ValidScale(w.scale)
  }

  ghost predicate ValidAuth(w: AuthWeights) {
    w.signature.Ordered() && w.hashAfter2030 <= w.hashNotApproved && ValidScale(w.scale)
  }

  // ----------------------------------------------------------------- profile

  datatype KeyRule = KeyRule(minimum: nat, preferred: Option<nat>, preferredCurve: Option<string>)

  /** The rule profile; classification tables are any functions into the five classes. */
  datatype Profile = Profile(
    approvedVersions: set<string>,
    classifyGroup: string -> Classification,
    classifySignature: string -> Classification,
    readiness: Classification -> Readiness,
    approvedHashes: set<string>, hashesUntil2030: set<string>, failedHashes: set<string>,
    keyRules: map<string, KeyRule>, curveRules: map<string, set<string>>,
    started: int, complete: int)

  // ---------------------------------------------------------------- evidence

  /** A cipher suite by what its name contains. */
  datatype Suite = Suite(name: string, gcm: bool, after2030: bool, notApproved: bool, noEncryption: bool,
      ephemeral: bool, staticRsa: bool)

  datatype Algorithm = Algorithm(name: string, class_: Classification)

  datatype Certificate = Certificate(
    signature: string, class_: Classification, hash: Option<string>, notAfter: Option<int>,
    keyAlgorithm: string, keySize: Option<nat>, keyCurve: Option<string>, selfSigned: bool)

  type Certificates = map<string, Certificate>

  /** The part of a finding that scoring only reads. */
  datatype Evidence = Evidence(
    service: Service, criticality: Criticality, lifetime: int, level: string,
    tlsVersion: Option<string>, suite: Option<Suite>, accepted: seq<Suite>,
    group: Option<string>, bestGroup: Option<string>, offersPq: bool,
    obsolete: bool, fingerprints: seq<string>, untestable: bool,
    keyExchange: seq<Algorithm>, signature: seq<Algorithm>, cipher: seq<Algorithm>, mac: seq<Algorithm>)

  datatype Line = Line(item: string, points: nat)

  datatype Explanation = Unexplained | NotMeasured | AtCap | Breakdown(lines: seq<Line>, subtotal: nat)

  /** The part of a finding that scoring writes. */
  datatype Verdict = Verdict(
    conf: Option<nat>, auth: Option<nat>, readiness: Readiness, pqStatus: PqStatus,
    failures: seq<string>, ruleFindings: seq<string>, chainClass: Option<Classification>,
    exceedsDefault: bool, band: Option<nat>, confWhy: Explanation, authWhy: Explanation)

  const NO_TLS := "no_tls_offered"
  const SELF_SIGNED := "self_signed"
  const INCOMPLETE_CHAIN := "incomplete_chain"
  const SSH_VERSION := "ssh_version_not_approved"
  const IKE_VERSION := "ike_version_not_approved"
  const NO_INTEGRITY := "ipsec_no_integrity_without_aead"
  const NOT_AES_GCM := "ipsec_encryption_not_aes_gcm (ISM-1771)"

  // ----------------------------------------------------------------- helpers

  function Min(a: nat, b: nat): nat {
    if a <= b then a else b
  }

  function When(condition: bool, item: string, points: nat): seq<Line> {
    if condition then [Line(item, points)] else []
  }

  function If(condition: bool, points: nat): nat {
    if condition then points else 0
  }

  function Sum(lines: seq<Line>): nat {
    if lines == [] then 0 else lines[0].points + Sum(lines[1..])
  }

  function Capped(cap: nat, scale: Scale, criticality: Criticality, subtotal: nat): nat {
    Min(cap, scale(criticality, subtotal))
  }

  function Labels(lines: seq<Line>): seq<string> {
    seq(|lines|, i requires 0 <= i < |lines| => lines[i].item)
  }

  /** `names` appended one by one where they are not yet present. */
  function AddMissing(present: seq<string>, names: seq<string>): seq<string>
    decreases names
  {
    if names == [] then present
    else AddMissing(if names[0] in present then present else present + [names[0]], names[1..])
  }

  // ---------------------------------------------------- TLS confidentiality

  function WeakAccepted(e: Evidence): bool {
    exists i :: 0 <= i < |e.accepted| && (e.accepted[i].notApproved || e.accepted[i].noEncryption)
  }

  function StaticRsaAccepted(e: Evidence): bool {
    exists i :: 0 <= i < |e.accepted| && e.accepted[i].staticRsa
  }

  predicate VersionBreach(p: Profile, e: Evidence) {
    e.tlsVersion.Some? && e.tlsVersion.value !in p.approvedVersions
  }

  predicate NoForwardSecrecy(e: Evidence) {
    e.suite.Some? && e.tlsVersion != Some("TLSv1.3") && !e.suite.value.ephemeral
  }

  /** Every breach of a TLS control, with its points. */
  function ProtocolLines(w: ConfWeights, p: Profile, e: Evidence): seq<Line> {
    NegotiatedLines(w, p, e)
    + When(WeakAccepted(e), "unapproved_cipher_accepted (ISM-0471)", w.unapprovedAccepted)
    + When(StaticRsaAccepted(e), "static_rsa_key_transport_accepted (ISM-1372, ISM-1453)", w.noForwardSecrecy)
  }

  function NegotiatedLines(w: ConfWeights, p: Profile, e: Evidence): seq<Line> {
    When(VersionBreach(p, e), "tls_version_not_approved (ISM-1139)", w.versionNotApproved)
    + When(e.suite.Some? && !e.suite.value.gcm, "cipher_not_aes_gcm (ISM-1369)", w.notAesGcm)
    + When(e.suite.Some? && e.suite.value.after2030, "symmetric_not_approved_after_2030", w.symmetricAfter2030)
    + When(e.suite.Some? && e.suite.value.notApproved, "symmetric_not_approved", w.symmetricNotApproved)
    + When(e.suite.Some? && e.suite.value.noEncryption, "no_encryption (ISM-0469, ISM-1369)", w.noEncryption)
    + When(NoForwardSecrecy(e), "no_forward_secrecy (ISM-1372, ISM-1453)", w.noForwardSecrecy)
  }

  function NegotiatedPenalty(w: ConfWeights, p: Profile, e: Evidence): nat {
    If(VersionBreach(p, e), w.versionNotApproved)
    + If(e.suite.Some? && !e.suite.value.gcm, w.notAesGcm)
    + If(e.suite.Some? && e.suite.value.after2030, w.symmetricAfter2030)
    + If(e.suite.Some? && e.suite.value.notApproved, w.symmetricNotApproved)
    + If(NoForwardSecrecy(e), w.noForwardSecrecy)
  }

  /** What the second scorer does not look at. */
  function UnseenPenalty(w: ConfWeights, e: Evidence): nat {
    If(e.suite.Some? && e.suite.value.noEncryption, w.noEncryption)
    + If(WeakAccepted(e), w.unapprovedAccepted)
    + If(StaticRsaAccepted(e), w.noForwardSecrecy)
  }

  function LifetimePoints(w: ConfWeights, lifetime: int): nat {
    if lifetime > 10 then w.over10 else if lifetime >= 5 then w.from5To10 else 0
  }

  function LifetimeLines(w: ConfWeights, lifetime: int): seq<Line> {
    When(lifetime > 10, "data_lifetime > 10y", w.over10)
    + When(5 <= lifetime <= 10, "data_lifetime > 5y", w.from5To10)
  }

  function TlsSubtotal(w: ConfWeights, p: Profile, e: Evidence, group: string, status: PqStatus): nat {
    w.keyExchange.Of(p.classifyGroup(group)) + If(status == NotSupported, w.noPqGroup)
    + LifetimePoints(w, e.lifetime) + NegotiatedPenalty(w, p, e) + UnseenPenalty(w, e)
  }

  function TlsLines(w: ConfWeights, p: Profile, e: Evidence, group: string, status: PqStatus): seq<Line> {
    [Line("key exchange", w.keyExchange.Of(p.classifyGroup(group)))]
    + ProtocolLines(w, p, e)
    + When(status == NotSupported, "pq_state not_supported", w.noPqGroup)
    + LifetimeLines(w, e.lifetime)
  }

  function ObsoleteSubtotal(w: ConfWeights, p: Profile, e: Evidence): nat {
    w.noPqGroup + w.keyExchange.notApproved + NegotiatedPenalty(w, p, e) + UnseenPenalty(w, e)
  }

  function ObsoleteLines(w: ConfWeights, p: Profile, e: Evidence): seq<Line> {
    [Line("key exchange", w.keyExchange.notApproved), Line("pq_state not_supported", w.noPqGroup)]
    + ProtocolLines(w, p, e)
  }

  function GroupRank(c: Classification): nat {
    match c
    case APPROVED => 0
    case TRANSITIONAL => 1
    case NOT_APPROVED_AFTER_2030 => 2
    case REVIEW => 3
    case NOT_APPROVED => 4
  }

  /** The endpoint would take a stronger group than the one it negotiates. */
  predicate Exceeds(p: Profile, e: Evidence) {
    && e.bestGroup.Some? && e.bestGroup != e.group
    && GroupRank(p.classifyGroup(e.bestGroup.value)) < GroupRank(p.classifyGroup(GroupName(e)))
  }

  function GroupName(e: Evidence): string {
    if e.group.Some? then e.group.value else "unknown"
  }

  function ScoreTlsConf(w: ConfWeights, p: Profile, e: Evidence, v: Verdict): Verdict {
    var v := v.(ruleFindings := AddMissing(v.ruleFindings, Labels(ProtocolLines(w, p, e))));
    var v := if Exceeds(p, e) then
               v.(exceedsDefault := true, ruleFindings := v.ruleFindings + ["capability_exceeds_default_negotiation"])
             else v;
    if NO_TLS in v.failures then
      v.(conf := Some(w.cap), pqStatus := NotSupported, readiness := ClassicalOnly, confWhy := AtCap,
         ruleFindings := v.ruleFindings + ["no_tls_offered (ISM-1139)"])
    else if e.obsolete then
      var subtotal := ObsoleteSubtotal(w, p, e);
      v.(conf := Some(Capped(w.cap, w.scale, e.criticality, subtotal)), pqStatus := NotSupported,
         readiness := ClassicalOnly, confWhy := Breakdown(ObsoleteLines(w, p, e), subtotal))
    else if e.group.None? || v.pqStatus == NotDeterminable then
      v.(conf := None, readiness := Unknown, confWhy := NotMeasured)
    else
      var subtotal := TlsSubtotal(w, p, e, e.group.value, v.pqStatus);
      v.(conf := Some(Capped(w.cap, w.scale, e.criticality, subtotal)),
         readiness := p.readiness(p.classifyGroup(e.group.value)),
         confWhy := Breakdown(TlsLines(w, p, e, e.group.value, v.pqStatus), subtotal))
  }

  // ----------------------------------------------------- TLS authentication

  /** The certificates of a chain that are in the inventory, in order. */
  function Known(certs: Certificates, fingerprints: seq<string>): seq<Certificate> {
    if fingerprints == [] then []
    else (if fingerprints[0] in certs then [certs[fingerprints[0]]] else []) + Known(certs, fingerprints[1..])
  }

  /** The worst signature class of the chain, at least as bad as `floor`. */
  function Worst(chain: seq<Certificate>, floor: Classification): Classification {
    if chain == [] then floor
    else Worst(chain[1..], if Severity(chain[0].class_) > Severity(floor) then chain[0].class_ else floor)
  }

  predicate HasHash(chain: seq<Certificate>, hashes: set<string>) {
    exists i :: 0 <= i < |chain| && chain[i].hash.Some? && chain[i].hash.value in hashes
  }

  function SignaturePoints(w: AuthWeights, chain: seq<Certificate>): nat {
    If(chain != [], w.signature.Of(Worst(chain, APPROVED)))
  }

  function HashPoints(w: AuthWeights, p: Profile, chain: seq<Certificate>): nat {
    if HasHash(chain, p.failedHashes) then w.hashNotApproved
    else If(HasHash(chain, p.hashesUntil2030), w.hashAfter2030)
  }

  function HashLines(w: AuthWeights, p: Profile, chain: seq<Certificate>): seq<Line> {
    if HasHash(chain, p.failedHashes) then [Line("worst hash in chain: NOT_APPROVED", w.hashNotApproved)]
    else if HasHash(chain, p.hashesUntil2030) then
      [Line("worst hash in chain: NOT_APPROVED_AFTER_2030", w.hashAfter2030)]
    else When(HasHash(chain, p.approvedHashes), "worst hash in chain: APPROVED", 0)
  }

  function Leaf(certs: Certificates, e: Evidence): Option<Certificate> {
    if e.fingerprints != [] && e.fingerprints[0] in certs then Some(certs[e.fingerprints[0]]) else None
  }

  function ExpiryPoints(w: AuthWeights, p: Profile, leaf: Option<Certificate>): nat {
    if leaf.None? || leaf.value.notAfter.None? then 0
    else if leaf.value.notAfter.value > p.complete then w.notAfter2030
    else if leaf.value.notAfter.value > p.started then w.notAfter2028
    else 0
  }

  function ExpiryLines(w: AuthWeights, p: Profile, leaf: Option<Certificate>): seq<Line> {
    if leaf.None? || leaf.value.notAfter.None? then []
    else if leaf.value.notAfter.value > p.complete then [Line("notAfter > 2030", w.notAfter2030)]
    else When(leaf.value.notAfter.value > p.started, "notAfter > 2028", w.notAfter2028)
  }

  function DistinctCount(names: seq<string>): nat {
    |set n | n in names|
  }

  function FailurePoints(w: AuthWeights, failures: seq<string>): nat {
    Min(w.failureCap, DistinctCount(failures) * w.failure)
  }

  function RuleOf(p: Profile, leaf: Option<Certificate>): Option<KeyRule> {
    if leaf.Some? && leaf.value.keyAlgorithm in p.keyRules then Some(p.keyRules[leaf.value.keyAlgorithm]) else None
  }

  predicate BelowMinimum(p: Profile, leaf: Option<Certificate>) {
    var rule := RuleOf(p, leaf);
    rule.Some? && leaf.value.keySize.Some? && leaf.value.keySize.value < rule.value.minimum
  }

  predicate BelowPreferred(p: Profile, leaf: Option<Certificate>) {
    var rule := RuleOf(p, leaf);
    && rule.Some? && leaf.value.keySize.Some? && !BelowMinimum(p, leaf)
    && rule.value.preferred.Some? && leaf.value.keySize.value < rule.value.preferred.value
  }

  predicate CurveNotPreferred(p: Profile, leaf: Option<Certificate>) {
    var rule := RuleOf(p, leaf);
    && rule.Some? && rule.value.preferredCurve.Some? && leaf.value.keyCurve.Some?
    && leaf.value.keyCurve != rule.value.preferredCurve
  }

  predicate CurveViolation(p: Profile, e: Evidence, leaf: Option<Certificate>) {
    && e.level in p.curveRules && leaf.Some? && leaf.value.keyCurve.Some?
    && leaf.value.keyCurve.value !in p.curveRules[e.level]
  }

  function InformationalPoints(w: AuthWeights, p: Profile, leaf: Option<Certificate>): nat {
    If(BelowPreferred(p, leaf), w.belowPreferred) + If(CurveNotPreferred(p, leaf), w.belowPreferred)
  }

  function MandatoryPoints(w: AuthWeights, p: Profile, e: Evidence, chain: seq<Certificate>, leaf: Option<Certificate>,
                           failures: seq<string>): nat {
    SignaturePoints(w, chain) + HashPoints(w, p, chain) + ExpiryPoints(w, p, leaf) + FailurePoints(w, failures)
    + If(BelowMinimum(p, leaf), w.belowMinimum) + If(CurveViolation(p, e, leaf), w.curveViolation)
  }

  function ChainSubtotal(w: AuthWeights, p: Profile, e: Evidence, chain: seq<Certificate>, leaf: Option<Certificate>,
                         failures: seq<string>): nat {
    MandatoryPoints(w, p, e, chain, leaf, failures) + Min(InformationalPoints(w, p, leaf), w.informationalCap)
  }

  function ChainLines(w: AuthWeights, p: Profile, e: Evidence, chain: seq<Certificate>, leaf: Option<Certificate>,
                      failures: seq<string>): seq<Line> {
    When(chain != [], "weakest signature in chain", w.signature.Of(Worst(chain, APPROVED)))
    + HashLines(w, p, chain)
    + ExpiryLines(w, p, leaf)
    + When(FailurePoints(w, failures) > 0, "validation failures", FailurePoints(w, failures))
    + When(BelowMinimum(p, leaf), "key_size_below_minimum (ISM-0472/0474/0475/0476)", w.belowMinimum)
    + When(BelowPreferred(p, leaf), "key_size_below_preferred (informational)", w.belowPreferred)
    + When(CurveNotPreferred(p, leaf), "curve_below_preferred (informational)", w.belowPreferred)
    + When(CurveViolation(p, e, leaf), "classification_curve_violation (ISM-1761/1762/1763/1764)", w.curveViolation)
  }

  function KeyFindings(p: Profile, e: Evidence, leaf: Option<Certificate>): seq<string> {
    (if BelowMinimum(p, leaf) then ["key_size_below_minimum (ISM-0472/0474/0475/0476)"] else [])
    + (if BelowPreferred(p, leaf) then ["key_size_below_preferred (informational)"] else [])
    + (if CurveNotPreferred(p, leaf) then ["curve_below_preferred (informational)"] else [])
    + (if CurveViolation(p, e, leaf) then ["classification_curve_violation (ISM-1761/1762/1763/1764)"] else [])
  }

  /** A lone certificate is noted as self-signed or as an incomplete chain. */
  function ChainFailures(certs: Certificates, e: Evidence, failures: seq<string>): seq<string> {
    if |e.fingerprints| != 1 then failures
    else
      var leaf := Leaf(certs, e);
      AddMissing(failures, [if leaf.Some? && leaf.value.selfSigned then SELF_SIGNED else INCOMPLETE_CHAIN])
  }

  function ScoreTlsAuth(w: AuthWeights, p: Profile, certs: Certificates, e: Evidence, v: Verdict): Verdict {
    if e.obsolete then
      v.(chainClass := Some(REVIEW), auth := Some(Capped(w.cap, w.scale, e.criticality, w.obsolete)),
         authWhy := Breakdown([Line("obsolete_tls review penalty", w.obsolete)], w.obsolete))
    else if e.fingerprints == [] then
      v.(chainClass := None, auth := None, authWhy := NotMeasured)
    else
      var failures := ChainFailures(certs, e, v.failures);
      var chain := Known(certs, e.fingerprints);
      var leaf := Leaf(certs, e);
      var subtotal := ChainSubtotal(w, p, e, chain, leaf, failures);
      v.(failures := failures,
         chainClass := Some(if |e.fingerprints| == 1 then REVIEW
                            else Worst(Known(certs, e.fingerprints[1..]), APPROVED)),
         ruleFindings := v.ruleFindings + KeyFindings(p, e, leaf),
         auth := Some(Capped(w.cap, w.scale, e.criticality, subtotal)),
         authWhy := Breakdown(ChainLines(w, p, e, chain, leaf, failures), subtotal))
  }

  // --------------------------------------------------------------------- SSH

  function Best(entries: seq<Algorithm>): Option<Classification> {
    if entries == [] then None
    else
      match Best(entries[1..])
      case None => Some(entries[0].class_)
      case Some(c) => Some(if Severity(entries[0].class_) <= Severity(c) then entries[0].class_ else c)
  }

  function WorstOffered(entries: seq<Algorithm>): Option<Classification> {
    if entries == [] then None
    else
      match WorstOffered(entries[1..])
      case None => Some(entries[0].class_)
      case Some(c) => Some(if Severity(entries[0].class_) >= Severity(c) then entries[0].class_ else c)
  }

  /** The names of the unapproved algorithms, in order. */
  function OffenderNames(entries: seq<Algorithm>): seq<string> {
    if entries == [] then []
    else (if entries[0].class_ == NOT_APPROVED then [entries[0].name] else []) + OffenderNames(entries[1..])
  }

  function Offenders(entries: seq<Algorithm>): nat {
    |OffenderNames(entries)|
  }

  function Listed(names: seq<string>): string {
    if names == [] then ""
    else if |names| == 1 then names[0]
    else names[0] + ", " + Listed(names[1..])
  }

  /** Points for offering unapproved algorithms: per algorithm, up to the cap if there is one. */
  function OfferedPoints(per: nat, cap: Option<nat>, count: nat): nat {
    if cap.Some? then Min(count * per, cap.value) else count * per
  }

  const OFFERED := "unapproved_algorithm_offered (ISM-0471): "

  function OfferedLabel(entries: seq<Algorithm>): string {
    OFFERED + Listed(OffenderNames(entries))
  }

  function ClassPoints(weights: ByClass, c: Option<Classification>): nat {
    if c.Some? then weights.Of(c.value) else weights.notApproved
  }

  predicate PostQuantum(c: Option<Classification>) {
    c == Some(APPROVED) || c == Some(TRANSITIONAL)
  }

  function SshConfOffered(w: ConfWeights, e: Evidence): nat {
    OfferedPoints(w.offered, w.offeredCap, Offenders(e.keyExchange + e.cipher + e.mac))
  }

  function SshConfLabel(e: Evidence): string {
    OfferedLabel(e.keyExchange + e.cipher + e.mac)
  }

  function SshAuthLabel(e: Evidence): string {
    OfferedLabel(e.signature)
  }

  function SshAuthOffered(w: AuthWeights, e: Evidence): nat {
    OfferedPoints(w.offered, w.offeredCap, Offenders(e.signature))
  }

  function SshConfSubtotal(w: ConfWeights, e: Evidence): nat {
    ClassPoints(w.keyExchange, Best(e.keyExchange)) + If(!PostQuantum(Best(e.keyExchange)), w.noPqGroup)
    + LifetimePoints(w, e.lifetime) + SshConfOffered(w, e)
  }

  function SshConfLines(w: ConfWeights, e: Evidence): seq<Line> {
    [Line("best key exchange offered", ClassPoints(w.keyExchange, Best(e.keyExchange)))]
    + When(!PostQuantum(Best(e.keyExchange)), "no post-quantum key exchange offered", w.noPqGroup)
    + LifetimeLines(w, e.lifetime)
    + When(SshConfOffered(w, e) > 0, SshConfLabel(e), SshConfOffered(w, e))
  }

  function SshAuthSubtotal(w: AuthWeights, e: Evidence, failures: seq<string>): nat {
    ClassPoints(w.signature, WorstOffered(e.signature)) + SshAuthOffered(w, e)
    + If(SSH_VERSION in failures, w.failure)
  }

  function SshAuthLines(w: AuthWeights, e: Evidence, failures: seq<string>): seq<Line> {
    [Line("weakest host key offered", ClassPoints(w.signature, WorstOffered(e.signature)))]
    + When(SshAuthOffered(w, e) > 0, SshAuthLabel(e), SshAuthOffered(w, e))
    + When(SSH_VERSION in failures, "ssh_version_not_approved (ISM-1506)", w.failure)
  }

  function ScoreSsh(cw: ConfWeights, aw: AuthWeights, e: Evidence, v: Verdict): Verdict {
    if e.keyExchange == [] && e.signature == [] then
      v.(readiness := Unknown, confWhy := NotMeasured, authWhy := NotMeasured)
    else
      var best := Best(e.keyExchange);
      v.(conf := Some(Capped(cw.cap, cw.scale, e.criticality, SshConfSubtotal(cw, e))),
         confWhy := Breakdown(SshConfLines(cw, e), SshConfSubtotal(cw, e)),
         auth := Some(Capped(aw.cap, aw.scale, e.criticality, SshAuthSubtotal(aw, e, v.failures))),
         authWhy := Breakdown(SshAuthLines(aw, e, v.failures), SshAuthSubtotal(aw, e, v.failures)),
         pqStatus := if PostQuantum(best) then Supported else NotSupported,
         readiness := if best == Some(APPROVED) then PurePqApproved
                      else if best == Some(TRANSITIONAL) then HybridTransitional
                      else ClassicalOnly,
         ruleFindings := v.ruleFindings
           + (if SshConfOffered(cw, e) > 0 then [SshConfLabel(e)] else [])
           + (if SshAuthOffered(aw, e) > 0 then [SshAuthLabel(e)] else []))
  }

  // ------------------------------------------------------------------- IPsec

  function One(entries: seq<Algorithm>): Option<Classification> {
    if entries == [] then None else Some(entries[0].class_)
  }

  /** Read off the group's name and not its class, as the table may prefer a group for other reasons than resisting a
      quantum computer. */
  function IpsecReadiness(e: Evidence): Readiness {
    if Upper(GroupName(e)) == "ML_KEM_1024" then PurePqApproved
    else if "ML_KEM" <= Upper(GroupName(e)) then HybridTransitional
    else ClassicalOnly
  }

  function Upper(s: string): string {
    seq(|s|, i requires 0 <= i < |s| => if 'a' <= s[i] <= 'z' then s[i] - 'a' + 'A' else s[i])
  }

  predicate IpsecCipherBreach(e: Evidence) {
    One(e.cipher) == Some(NOT_APPROVED) || One(e.cipher) == Some(NOT_APPROVED_AFTER_2030)
  }

  function IpsecConfSubtotal(w: ConfWeights, e: Evidence, ruleFindings: seq<string>): nat {
    ClassPoints(w.keyExchange, One(e.keyExchange))
    + If(IpsecCipherBreach(e), w.symmetricNotApproved)
    + If(NOT_AES_GCM in ruleFindings, w.notAesGcm)
    + If(IpsecReadiness(e) == ClassicalOnly, w.noPqGroup)
  }

  function IpsecConfLines(w: ConfWeights, e: Evidence, ruleFindings: seq<string>): seq<Line> {
    [Line("IKE D-H group (ISM-0999)", ClassPoints(w.keyExchange, One(e.keyExchange)))]
    + When(IpsecCipherBreach(e), "encryption (ISM-1771)", w.symmetricNotApproved)
    + When(NOT_AES_GCM in ruleFindings, "encryption is not AES-GCM (ISM-1771)", w.notAesGcm)
    + When(IpsecReadiness(e) == ClassicalOnly, "no post-quantum key exchange", w.noPqGroup)
  }

  function IpsecAuthSubtotal(w: AuthWeights, e: Evidence, failures: seq<string>): nat {
    ClassPoints(w.signature, One(e.mac))
    + If(IKE_VERSION in failures, w.failure) + If(NO_INTEGRITY in failures, w.failure)
  }

  function IpsecAuthLines(w: AuthWeights, e: Evidence, failures: seq<string>): seq<Line> {
    [Line("integrity (ISM-0998)", ClassPoints(w.signature, One(e.mac)))]
    + When(IKE_VERSION in failures, IKE_VERSION, w.failure)
    + When(NO_INTEGRITY in failures, NO_INTEGRITY, w.failure)
  }

  function ScoreIpsec(cw: ConfWeights, aw: AuthWeights, e: Evidence, v: Verdict): Verdict {
    if e.keyExchange == [] then
      v.(readiness := Unknown, confWhy := NotMeasured, authWhy := NotMeasured)
    else
      v.(conf := Some(Capped(cw.cap, cw.scale, e.criticality, IpsecConfSubtotal(cw, e, v.ruleFindings))),
         confWhy := Breakdown(IpsecConfLines(cw, e, v.ruleFindings), IpsecConfSubtotal(cw, e, v.ruleFindings)),
         auth := Some(Capped(aw.cap, aw.scale, e.criticality, IpsecAuthSubtotal(aw, e, v.failures))),
         authWhy := Breakdown(IpsecAuthLines(aw, e, v.failures), IpsecAuthSubtotal(aw, e, v.failures)),
         readiness := IpsecReadiness(e),
         pqStatus := if IpsecReadiness(e) == ClassicalOnly then NotSupported else Supported)
  }

  // ------------------------------------------------------------------ domain

  function FailureLines(points: nat, failures: seq<string>): seq<Line> {
    seq(|failures|, i requires 0 <= i < |failures| => Line(failures[i], points))
  }

  function DomainLines(w: AuthWeights, failures: seq<string>): seq<Line> {
    if failures == [] then [Line("all observed controls met", 0)] else FailureLines(w.failure, failures)
  }

  function ScoreDomain(w: AuthWeights, e: Evidence, v: Verdict): Verdict {
    var v := v.(conf := None, readiness := Unknown);
    if e.untestable then v.(authWhy := NotMeasured) else
    var subtotal := |v.failures| * w.failure;
    v.(auth := Some(Capped(w.cap, w.scale, e.criticality, subtotal)),
       authWhy := Breakdown(DomainLines(w, v.failures), subtotal))
  }

  /** The whole scorer. */
  function Score(cw: ConfWeights, aw: AuthWeights, p: Profile, certs: Certificates, e: Evidence, v: Verdict): Verdict {
    match e.service
    case Ssh => ScoreSsh(cw, aw, e, v)
    case Ipsec => ScoreIpsec(cw, aw, e, v)
    case Domain => ScoreDomain(aw, e, v)
    case Tls => ScoreTlsAuth(aw, p, certs, e, ScoreTlsConf(cw, p, e, v))
  }
}
