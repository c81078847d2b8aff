/** What every piece of evidence costs, spelled out: the rules the verdicts are held to, written without the
    functions that compute them. */
module ScoringTable {
  import opened Bytes
  import opened ScoringModel
  import opened ScoringLaws
  import opened ScoringOrder

  // ------------------------------------------------------------------- terms

  function Weight(weights: ByClass, c: Classification): nat {
    match c
    case APPROVED => weights.approved
    case TRANSITIONAL => weights.transitional
    case REVIEW => weights.review
    case NOT_APPROVED_AFTER_2030 => weights.after2030
    case NOT_APPROVED => weights.notApproved
  }

  /** The classes from the mildest to the most severe. */
  const CLASSES := [APPROVED, TRANSITIONAL, REVIEW, NOT_APPROVED_AFTER_2030, NOT_APPROVED]

  /** `a` is no more severe than `b`. */
  ghost predicate NoMoreSevere(a: Classification, b: Classification) {
    exists i, j :: 0 <= i <= j < 5 && CLASSES[i] == a && CLASSES[j] == b
  }

  lemma SeverityIsPlace(a: Classification, b: Classification)
    ensures NoMoreSevere(a, b) <==> Severity(a) <= Severity(b)
  {
    PlaceOf(a);
    PlaceOf(b);
    if NoMoreSevere(a, b) {
      var i, j :| 0 <= i <= j < 5 && CLASSES[i] == a && CLASSES[j] == b;
    }
  }

  lemma PlaceOf(c: Classification)
    ensures 0 <= Severity(c) < 5 && CLASSES[Severity(c)] == c
    ensures forall i :: 0 <= i < 5 && CLASSES[i] == c ==> i == Severity(c)
  {
  }

  /** The score is these points, scaled for the criticality and cut at the cap. */
  predicate Scores(score: Option<nat>, cap: nat, scale: Scale, c: Criticality, points: nat) {
    score == Some(if scale(c, points) < cap then scale(c, points) else cap)
  }

  function LifetimeWeight(w: ConfWeights, years: int): nat {
    if years >= 11 then w.over10 else if years >= 5 then w.from5To10 else 0
  }

  // ---------------------------------------------------- TLS confidentiality

  function SuiteWeight(w: ConfWeights, e: Evidence, s: Suite): nat {
    (if s.gcm then 0 else w.notAesGcm) + (if s.after2030 then w.symmetricAfter2030 else 0)
    + (if s.notApproved then w.symmetricNotApproved else 0) + (if s.noEncryption then w.noEncryption else 0)
    + (if s.ephemeral || e.tlsVersion == Some("TLSv1.3") then 0 else w.noForwardSecrecy)
  }

  /** What the session and the accepted suites cost beside the key exchange. */
  function BreachWeight(w: ConfWeights, p: Profile, e: Evidence): nat {
    var version :=
      match e.tlsVersion
      case None => 0
      case Some(t) => if t in p.approvedVersions then 0 else w.versionNotApproved;
    var suite := match e.suite case None => 0 case Some(s) => SuiteWeight(w, e, s);
    version + suite
    + (if exists s :: s in e.accepted && (s.notApproved || s.noEncryption) then w.unapprovedAccepted else 0)
    + (if exists s :: s in e.accepted && s.staticRsa then w.noForwardSecrecy else 0)
  }

  lemma BreachesCost(w: ConfWeights, p: Profile, e: Evidence)
    ensures NegotiatedPenalty(w, p, e) + UnseenPenalty(w, e) == BreachWeight(w, p, e)
  {
    AcceptedMeans(e);
    hide WeakAccepted, StaticRsaAccepted;
  }

  lemma AcceptedMeans(e: Evidence)
    ensures WeakAccepted(e) <==> exists s :: s in e.accepted && (s.notApproved || s.noEncryption)
    ensures StaticRsaAccepted(e) <==> exists s :: s in e.accepted && s.staticRsa
  {
  }

  /** The confidentiality of a TLS endpoint, path by path. */
  lemma TlsConfidentialityTable(w: ConfWeights, p: Profile, e: Evidence, v: Verdict, r: Verdict)
    requires r == ScoreTlsConf(w, p, e, v)
    ensures "no_tls_offered" in v.failures ==>
              r.conf == Some(w.cap) && r.readiness == ClassicalOnly && r.pqStatus == NotSupported
    ensures "no_tls_offered" !in v.failures && e.obsolete ==>
              && Scores(r.conf, w.cap, w.scale, e.criticality, w.keyExchange.notApproved + w.noPqGroup
                  + BreachWeight(w, p, e))
              && r.readiness == ClassicalOnly && r.pqStatus == NotSupported
    ensures "no_tls_offered" !in v.failures && !e.obsolete && (e.group.None? || v.pqStatus == NotDeterminable) ==>
              r.conf == None && r.readiness == Unknown && r.pqStatus == v.pqStatus
    ensures "no_tls_offered" !in v.failures && !e.obsolete && e.group.Some? && v.pqStatus != NotDeterminable ==>
              var class_ := p.classifyGroup(e.group.value);
              && Scores(r.conf, w.cap, w.scale, e.criticality,
                        Weight(w.keyExchange, class_) + (if v.pqStatus == NotSupported then w.noPqGroup else 0)
                        + LifetimeWeight(w, e.lifetime) + BreachWeight(w, p, e))
              && r.readiness == p.readiness(class_) && r.pqStatus == v.pqStatus
  {
    hide NegotiatedPenalty, UnseenPenalty, ProtocolLines, TlsLines, ObsoleteLines, AddMissing, Exceeds, Labels,
         BreachWeight;
    BreachesCost(w, p, e);
  }

  /** An endpoint with nothing against it but its group scores the weight of that group's class. */
  lemma GroupAlone(w: ConfWeights, p: Profile, c: Criticality, group: string, v: Verdict, e: Evidence,
                   conf: Option<nat>)
    requires "TLSv1.3" in p.approvedVersions && v.failures == [] && v.pqStatus == Supported
    requires e == Strongest(Suite("AES-256-GCM", true, false, false, false, true, false), c).(group := Some(group))
    requires conf == ScoreTlsConf(w, p, e, v).conf
    ensures p.classifyGroup(group) == APPROVED ==> Scores(conf, w.cap, w.scale, c, w.keyExchange.approved)
    ensures p.classifyGroup(group) == TRANSITIONAL ==> Scores(conf, w.cap, w.scale, c, w.keyExchange.transitional)
    ensures p.classifyGroup(group) == REVIEW ==> Scores(conf, w.cap, w.scale, c, w.keyExchange.review)
    ensures p.classifyGroup(group) == NOT_APPROVED_AFTER_2030 ==>
            Scores(conf, w.cap, w.scale, c, w.keyExchange.after2030)
    ensures p.classifyGroup(group) == NOT_APPROVED ==> Scores(conf, w.cap, w.scale, c, w.keyExchange.notApproved)
  {
    hide ScoreTlsConf;
    TlsConfidentialityTable(w, p, e, v, ScoreTlsConf(w, p, e, v));
  }

  /** The findings of a session, by name, in order, and those of the suites it would accept. */
  function BreachNames(p: Profile, e: Evidence): seq<string> {
    SessionNames(p, e)
    + (if exists s :: s in e.accepted && (s.notApproved || s.noEncryption)
       then ["unapproved_cipher_accepted (ISM-0471)"] else [])
    + (if exists s :: s in e.accepted && s.staticRsa
       then ["static_rsa_key_transport_accepted (ISM-1372, ISM-1453)"] else [])
  }

  function SessionNames(p: Profile, e: Evidence): seq<string> {
    var suite := e.suite;
    (if e.tlsVersion.Some? && e.tlsVersion.value !in p.approvedVersions
     then ["tls_version_not_approved (ISM-1139)"] else [])
    + (if suite.Some? && !suite.value.gcm then ["cipher_not_aes_gcm (ISM-1369)"] else [])
    + (if suite.Some? && suite.value.after2030 then ["symmetric_not_approved_after_2030"] else [])
    + (if suite.Some? && suite.value.notApproved then ["symmetric_not_approved"] else [])
    + (if suite.Some? && suite.value.noEncryption then ["no_encryption (ISM-0469, ISM-1369)"] else [])
    + (if suite.Some? && !suite.value.ephemeral && e.tlsVersion != Some("TLSv1.3")
       then ["no_forward_secrecy (ISM-1372, ISM-1453)"] else [])
  }

  lemma LabelsNext(lines: seq<Line>, names: seq<string>, condition: bool, item: string, points: nat)
    requires Labels(lines) == names
    ensures Labels(lines + When(condition, item, points)) == names + if condition then [item] else []
  {
  }

  lemma BreachLabels(w: ConfWeights, p: Profile, e: Evidence)
    ensures Labels(ProtocolLines(w, p, e)) == BreachNames(p, e)
  {
    AcceptedMeans(e);
    SessionLabels(w, p, e);
    hide When, Labels, WeakAccepted, StaticRsaAccepted, NegotiatedLines, SessionNames;
    var weak, staticRsa := WeakAccepted(e), StaticRsaAccepted(e);
    var accepted := When(weak, "unapproved_cipher_accepted (ISM-0471)", w.unapprovedAccepted);
    LabelsNext(NegotiatedLines(w, p, e), SessionNames(p, e), weak,
               "unapproved_cipher_accepted (ISM-0471)", w.unapprovedAccepted);
    LabelsNext(NegotiatedLines(w, p, e) + accepted,
               SessionNames(p, e) + (if weak then ["unapproved_cipher_accepted (ISM-0471)"] else []), staticRsa,
               "static_rsa_key_transport_accepted (ISM-1372, ISM-1453)", w.noForwardSecrecy);
  }

  lemma SessionLabels(w: ConfWeights, p: Profile, e: Evidence)
    ensures Labels(NegotiatedLines(w, p, e)) == SessionNames(p, e)
  {
    var s, version := e.suite, e.tlsVersion.Some? && e.tlsVersion.value !in p.approvedVersions;
    var secret := s.Some? && !s.value.ephemeral && e.tlsVersion != Some("TLSv1.3");
    assert VersionBreach(p, e) == version && NoForwardSecrecy(e) == secret;
    hide When, Labels, VersionBreach, NoForwardSecrecy;
    var c := When(version, "tls_version_not_approved (ISM-1139)", w.versionNotApproved)
             + When(s.Some? && !s.value.gcm, "cipher_not_aes_gcm (ISM-1369)", w.notAesGcm)
             + When(s.Some? && s.value.after2030, "symmetric_not_approved_after_2030", w.symmetricAfter2030);
    FirstLabels(w, version, s, c);
    OtherLabels(w, s, c, secret);
  }

  lemma FirstLabels(w: ConfWeights, version: bool, s: Option<Suite>, c: seq<Line>)
    requires c == When(version, "tls_version_not_approved (ISM-1139)", w.versionNotApproved)
                  + When(s.Some? && !s.value.gcm, "cipher_not_aes_gcm (ISM-1369)", w.notAesGcm)
                  + When(s.Some? && s.value.after2030, "symmetric_not_approved_after_2030", w.symmetricAfter2030)
    ensures Labels(c) == (if version then ["tls_version_not_approved (ISM-1139)"] else [])
                         + (if s.Some? && !s.value.gcm then ["cipher_not_aes_gcm (ISM-1369)"] else [])
                         + (if s.Some? && s.value.after2030 then ["symmetric_not_approved_after_2030"] else [])
  {
    hide When, Labels;
    LabelsWhen(version, "tls_version_not_approved (ISM-1139)", w.versionNotApproved);
    var a := When(version, "tls_version_not_approved (ISM-1139)", w.versionNotApproved);
    var b := a + When(s.Some? && !s.value.gcm, "cipher_not_aes_gcm (ISM-1369)", w.notAesGcm);
    LabelsNext(a, Labels(a), s.Some? && !s.value.gcm, "cipher_not_aes_gcm (ISM-1369)", w.notAesGcm);
    LabelsNext(b, Labels(b), s.Some? && s.value.after2030, "symmetric_not_approved_after_2030", w.symmetricAfter2030);
  }

  lemma OtherLabels(w: ConfWeights, s: Option<Suite>, c: seq<Line>, secret: bool)
    ensures Labels(c + When(s.Some? && s.value.notApproved, "symmetric_not_approved", w.symmetricNotApproved)
                     + When(s.Some? && s.value.noEncryption, "no_encryption (ISM-0469, ISM-1369)", w.noEncryption)
                     + When(secret, "no_forward_secrecy (ISM-1372, ISM-1453)", w.noForwardSecrecy))
         == Labels(c) + (if s.Some? && s.value.notApproved then ["symmetric_not_approved"] else [])
            + (if s.Some? && s.value.noEncryption then ["no_encryption (ISM-0469, ISM-1369)"] else [])
            + (if secret then ["no_forward_secrecy (ISM-1372, ISM-1453)"] else [])
  {
    hide When, Labels;
    var d := c + When(s.Some? && s.value.notApproved, "symmetric_not_approved", w.symmetricNotApproved);
    var f := d + When(s.Some? && s.value.noEncryption, "no_encryption (ISM-0469, ISM-1369)", w.noEncryption);
    LabelsNext(c, Labels(c), s.Some? && s.value.notApproved, "symmetric_not_approved", w.symmetricNotApproved);
    LabelsNext(d, Labels(d), s.Some? && s.value.noEncryption, "no_encryption (ISM-0469, ISM-1369)", w.noEncryption);
    LabelsNext(f, Labels(f), secret, "no_forward_secrecy (ISM-1372, ISM-1453)", w.noForwardSecrecy);
  }

  lemma LabelsWhen(condition: bool, item: string, points: nat)
    ensures Labels(When(condition, item, points)) == if condition then [item] else []
  {
  }

  /** The order in which a stronger group counts as stronger; unlike severity, it has review behind retirement. */
  const STRENGTH := [APPROVED, TRANSITIONAL, NOT_APPROVED_AFTER_2030, REVIEW, NOT_APPROVED]

  /** The endpoint would take a group of a class earlier in that order than the one it negotiates. */
  ghost predicate Stronger(p: Profile, e: Evidence) {
    && e.bestGroup.Some? && e.bestGroup != e.group
    && exists i, j :: 0 <= i < j < 5 && STRENGTH[i] == p.classifyGroup(e.bestGroup.value)
                      && STRENGTH[j] == p.classifyGroup(if e.group.Some? then e.group.value else "unknown")
  }

  lemma ExceedsMeans(p: Profile, e: Evidence)
    ensures Exceeds(p, e) <==> Stronger(p, e)
  {
    forall c ensures 0 <= GroupRank(c) < 5 && STRENGTH[GroupRank(c)] == c {
    }
    forall i | 0 <= i < 5 ensures GroupRank(STRENGTH[i]) == i {
    }
  }

  /** What a TLS finding lists after its confidentiality is scored: the breaches not listed yet, then the unused
      capability, then plaintext. */
  lemma TlsFindings(w: ConfWeights, p: Profile, e: Evidence, v: Verdict, r: Verdict)
    requires r == ScoreTlsConf(w, p, e, v)
    ensures r.ruleFindings == AddMissing(v.ruleFindings, BreachNames(p, e))
                              + (if Stronger(p, e) then ["capability_exceeds_default_negotiation"] else [])
                              + (if "no_tls_offered" in v.failures then ["no_tls_offered (ISM-1139)"] else [])
    ensures r.exceedsDefault <==> v.exceedsDefault || Stronger(p, e)
  {
    hide ProtocolLines, BreachNames, AddMissing, Labels, TlsLines, TlsSubtotal, ObsoleteLines, ObsoleteSubtotal,
         Exceeds,
         Stronger, Capped;
    BreachLabels(w, p, e);
    ExceedsMeans(p, e);
  }

  // ----------------------------------------------------- TLS authentication

  /** The signatures of a chain cost the weight of the most severe class in it. */
  lemma SignatureCost(w: AuthWeights, chain: seq<Certificate>, k: Classification)
    requires exists c :: c in chain && c.class_ == k
    requires forall c :: c in chain ==> NoMoreSevere(c.class_, k)
    ensures Worst(chain, APPROVED) == k && SignaturePoints(w, chain) == Weight(w.signature, k)
  {
    WorstIsGreatest(chain, APPROVED);
    var worst := Worst(chain, APPROVED);
    forall c | c in chain ensures Severity(c.class_) <= Severity(k) {
      SeverityIsPlace(c.class_, k);
    }
    SeverityInjective(worst, k);
  }

  /** A chain of the certificates known, its leaf, what it is noted as, and what it costs besides its signatures. */
  function HashWeight(w: AuthWeights, p: Profile, chain: seq<Certificate>): nat {
    if exists c :: c in chain && c.hash.Some? && c.hash.value in p.failedHashes then w.hashNotApproved
    else if exists c :: c in chain && c.hash.Some? && c.hash.value in p.hashesUntil2030 then w.hashAfter2030
    else 0
  }

  function ExpiryWeight(w: AuthWeights, p: Profile, leaf: Option<Certificate>): nat {
    match leaf
    case None => 0
    case Some(c) =>
      match c.notAfter
      case None => 0
      case Some(t) => if t > p.complete then w.notAfter2030 else if t > p.started then w.notAfter2028 else 0
  }

  function FailureWeight(w: AuthWeights, failures: seq<string>): nat {
    var points := |set f | f in failures| * w.failure;
    if points < w.failureCap then points else w.failureCap
  }

  function KeyWeight(w: AuthWeights, p: Profile, e: Evidence, leaf: Option<Certificate>): nat {
    match leaf
    case None => 0
    case Some(c) =>
      var notes :=
        if c.keyAlgorithm !in p.keyRules then 0
        else
          var rule := p.keyRules[c.keyAlgorithm];
          (if c.keySize.Some? && c.keySize.value >= rule.minimum && rule.preferred.Some?
              && c.keySize.value < rule.preferred.value
           then w.belowPreferred else 0)
          + (if c.keyCurve.Some? && rule.preferredCurve.Some? && c.keyCurve.value != rule.preferredCurve.value
             then w.belowPreferred else 0);
      (if c.keyAlgorithm in p.keyRules && c.keySize.Some? && c.keySize.value < p.keyRules[c.keyAlgorithm].minimum
       then w.belowMinimum else 0)
      + (if notes < w.informationalCap then notes else w.informationalCap)
      + (if e.level in p.curveRules && c.keyCurve.Some?
          && c.keyCurve.value !in p.curveRules[e.level] then w.curveViolation else 0)
  }

  lemma ChainCost(w: AuthWeights, p: Profile, e: Evidence, chain: seq<Certificate>, leaf: Option<Certificate>,
                  failures: seq<string>)
    ensures ChainSubtotal(w, p, e, chain, leaf, failures)
         == SignaturePoints(w, chain) + HashWeight(w, p, chain) + ExpiryWeight(w, p, leaf) + FailureWeight(w, failures)
            + KeyWeight(w, p, e, leaf)
  {
    HashMeans(w, p, chain);
    hide SignaturePoints, HashPoints, HashWeight, HasHash;
  }

  lemma HashMeans(w: AuthWeights, p: Profile, chain: seq<Certificate>)
    ensures HashPoints(w, p, chain) == HashWeight(w, p, chain)
  {
    HashNamed(chain, p.failedHashes);
    HashNamed(chain, p.hashesUntil2030);
  }

  lemma HashNamed(chain: seq<Certificate>, hashes: set<string>)
    ensures HasHash(chain, hashes) <==> exists c :: c in chain && c.hash.Some? && c.hash.value in hashes
  {
    if c :| c in chain && c.hash.Some? && c.hash.value in hashes {
      var i :| 0 <= i < |chain| && chain[i] == c;
    }
  }

  /** The failures of a finding with a lone certificate. */
  function LoneFailures(certs: Certificates, e: Evidence, failures: seq<string>): seq<string> {
    if |e.fingerprints| != 1 then failures
    else
      var fingerprint := e.fingerprints[0];
      var failure := if fingerprint in certs && certs[fingerprint].selfSigned then "self_signed"
                     else "incomplete_chain";
      if failure in failures then failures else failures + [failure]
  }

  lemma LoneMeans(certs: Certificates, e: Evidence, failures: seq<string>)
    ensures ChainFailures(certs, e, failures) == LoneFailures(certs, e, failures)
  {
    if |e.fingerprints| == 1 {
      var one := ChainNotes(certs, e);
      assert one[1..] == [];
      assert ChainFailures(certs, e, failures) == AddMissing(failures, one);
      assert AddMissing(failures, one) == if one[0] in failures then failures else failures + [one[0]];
    }
  }

  /** The authentication of a TLS endpoint, path by path. */
  lemma TlsAuthenticationTable(w: AuthWeights, p: Profile, certs: Certificates, e: Evidence, v: Verdict, r: Verdict)
    requires r == ScoreTlsAuth(w, p, certs, e, v)
    ensures e.obsolete ==> Scores(r.auth, w.cap, w.scale, e.criticality, w.obsolete) && r.chainClass == Some(REVIEW)
    ensures !e.obsolete && e.fingerprints == [] ==> r.auth == None && r.chainClass == None
    ensures e.obsolete || e.fingerprints == [] ==> r.failures == v.failures
    ensures !e.obsolete && e.fingerprints != [] ==>
              var chain := Known(certs, e.fingerprints);
              var leaf := if e.fingerprints[0] in certs then Some(certs[e.fingerprints[0]]) else None;
              && r.failures == LoneFailures(certs, e, v.failures)
              && Scores(r.auth, w.cap, w.scale, e.criticality,
                        SignaturePoints(w, chain) + HashWeight(w, p, chain) + ExpiryWeight(w, p, leaf)
                        + FailureWeight(w, r.failures) + KeyWeight(w, p, e, leaf))
              && r.chainClass == Some(if |e.fingerprints|
                  == 1 then REVIEW else Worst(Known(certs, e.fingerprints[1..]), APPROVED))
  {
    hide ChainSubtotal, ChainLines, KeyFindings, Known, Worst, SignaturePoints, HashWeight, ExpiryWeight, FailureWeight,
         KeyWeight,
         LoneFailures, ChainFailures;
    LoneMeans(certs, e, v.failures);
    if !e.obsolete && e.fingerprints != [] {
      ChainCost(w, p, e, Known(certs, e.fingerprints), Leaf(certs, e), LoneFailures(certs, e, v.failures));
    }
  }

  /** A chain without a known certificate, and one of known certificates, as they are. */
  lemma {:induction false} KnownMeans(certs: Certificates, fingerprints: seq<string>)
    ensures (forall f :: f in fingerprints ==> f !in certs) ==> Known(certs, fingerprints) == []
    ensures (forall f :: f in fingerprints ==> f in certs) ==>
              && |Known(certs, fingerprints)| == |fingerprints|
              && forall i :: 0 <= i < |fingerprints| ==> Known(certs, fingerprints)[i] == certs[fingerprints[i]]
  {
    if fingerprints != [] {
      KnownMeans(certs, fingerprints[1..]);
      assert forall f :: f in fingerprints[1..] ==> f in fingerprints;
    }
  }

  /** What the leaf's key adds to the findings, by name. */
  lemma KeyFindingNames(w: AuthWeights, p: Profile, certs: Certificates, e: Evidence, v: Verdict, c: Certificate)
    requires !e.obsolete && e.fingerprints != [] && e.fingerprints[0] in certs && c == certs[e.fingerprints[0]]
    requires c.keyAlgorithm in p.keyRules
    ensures var rule := p.keyRules[c.keyAlgorithm];
            ScoreTlsAuth(w, p, certs, e, v).ruleFindings == v.ruleFindings
              + (if c.keySize.Some? && c.keySize.value < rule.minimum
                 then ["key_size_below_minimum (ISM-0472/0474/0475/0476)"] else [])
              + (if c.keySize.Some? && c.keySize.value >= rule.minimum && rule.preferred.Some?
                    && c.keySize.value < rule.preferred.value
                 then ["key_size_below_preferred (informational)"] else [])
              + (if c.keyCurve.Some? && rule.preferredCurve.Some? && c.keyCurve.value != rule.preferredCurve.value
                 then ["curve_below_preferred (informational)"] else [])
              + (if e.level in p.curveRules && c.keyCurve.Some? && c.keyCurve.value !in p.curveRules[e.level]
                 then ["classification_curve_violation (ISM-1761/1762/1763/1764)"] else [])
  {
    hide ChainSubtotal, ChainLines, Known, Worst, ChainFailures, Capped;
  }

  // --------------------------------------------------------------------- SSH

  /** How many algorithms of a list are unapproved. */
  function Unapproved(entries: seq<Algorithm>): nat {
    if entries == [] then 0
    else Unapproved(entries[1..]) + match entries[0].class_ case NOT_APPROVED => 1 case _ => 0
  }

  lemma {:induction false} UnapprovedCounted(entries: seq<Algorithm>)
    ensures Offenders(entries) == Unapproved(entries)
  {
    if entries != [] {
      UnapprovedCounted(entries[1..]);
    }
  }

  function OfferedWeight(per: nat, cap: Option<nat>, count: nat): nat {
    match cap
    case None => per * count
    case Some(most) => if per * count < most then per * count else most
  }

  lemma OfferedMeans(per: nat, cap: Option<nat>, count: nat)
    ensures OfferedPoints(per, cap, count) == OfferedWeight(per, cap, count)
  {
  }

  /** An SSH endpoint by the least severe key exchange it offers, `k`. */
  lemma SshConfidentialityTable(cw: ConfWeights, aw: AuthWeights, e: Evidence, v: Verdict, k: Classification,
                                r: Verdict)
    requires r == ScoreSsh(cw, aw, e, v)
    requires exists x :: x in e.keyExchange && x.class_ == k
    requires forall x :: x in e.keyExchange ==> NoMoreSevere(k, x.class_)
    ensures Scores(r.conf, cw.cap, cw.scale, e.criticality,
                   Weight(cw.keyExchange, k) + (if k == APPROVED || k == TRANSITIONAL then 0 else cw.noPqGroup)
                   + LifetimeWeight(cw, e.lifetime)
                   + OfferedWeight(cw.offered, cw.offeredCap, Unapproved(e.keyExchange + e.cipher + e.mac)))
    ensures r.pqStatus == if k == APPROVED || k == TRANSITIONAL then Supported else NotSupported
    ensures r.readiness == if k == APPROVED then PurePqApproved else if k
            == TRANSITIONAL then HybridTransitional else ClassicalOnly
  {
    hide SshConfLines, SshAuthLines, SshAuthSubtotal, SshAuthOffered, OfferedPoints, OfferedWeight, Offenders,
         Unapproved, Best;
    BestIsLeast(e.keyExchange);
    var best := Best(e.keyExchange);
    forall x | x in e.keyExchange ensures Severity(k) <= Severity(x.class_) {
      SeverityIsPlace(k, x.class_);
    }
    SeverityInjective(best.value, k);
    UnapprovedCounted(e.keyExchange + e.cipher + e.mac);
    OfferedMeans(cw.offered, cw.offeredCap, Unapproved(e.keyExchange + e.cipher + e.mac));
  }

  /** One that offers host keys and no key exchange is scored as the worst. */
  lemma SshWithoutKeyExchange(cw: ConfWeights, aw: AuthWeights, e: Evidence, v: Verdict, r: Verdict)
    requires r == ScoreSsh(cw, aw, e, v) && e.keyExchange == [] && e.signature != []
    ensures Scores(r.conf, cw.cap, cw.scale, e.criticality,
                   cw.keyExchange.notApproved + cw.noPqGroup + LifetimeWeight(cw, e.lifetime)
                   + OfferedWeight(cw.offered, cw.offeredCap, Unapproved(e.cipher + e.mac)))
    ensures r.pqStatus == NotSupported && r.readiness == ClassicalOnly
  {
    hide SshConfLines, SshAuthLines, SshAuthSubtotal, SshAuthOffered, OfferedPoints, OfferedWeight, Offenders,
         Unapproved;
    assert e.keyExchange + e.cipher + e.mac == e.cipher + e.mac;
    UnapprovedCounted(e.cipher + e.mac);
    OfferedMeans(cw.offered, cw.offeredCap, Unapproved(e.cipher + e.mac));
  }

  /** And its authentication by the most severe host key it offers, `k`, or as the worst without any. */
  lemma SshAuthenticationTable(cw: ConfWeights, aw: AuthWeights, e: Evidence, v: Verdict, k: Classification, r: Verdict)
    requires r == ScoreSsh(cw, aw, e, v) && (e.keyExchange != [] || e.signature != [])
    requires if e.signature == [] then k == NOT_APPROVED else exists x :: x in e.signature && x.class_ == k
    requires forall x :: x in e.signature ==> NoMoreSevere(x.class_, k)
    ensures Scores(r.auth, aw.cap, aw.scale, e.criticality,
                   Weight(aw.signature, k) + OfferedWeight(aw.offered, aw.offeredCap, Unapproved(e.signature))
                   + if "ssh_version_not_approved" in v.failures then aw.failure else 0)
    ensures r.failures == v.failures
  {
    hide SshConfLines, SshAuthLines, SshConfSubtotal, SshConfOffered, OfferedPoints, OfferedWeight, Offenders,
         Unapproved,
         WorstOffered, Best;
    WorstOfferedIsGreatest(e.signature);
    if e.signature != [] {
      forall x | x in e.signature ensures Severity(x.class_) <= Severity(k) {
        SeverityIsPlace(x.class_, k);
      }
      SeverityInjective(WorstOffered(e.signature).value, k);
    }
    UnapprovedCounted(e.signature);
    OfferedMeans(aw.offered, aw.offeredCap, Unapproved(e.signature));
  }

  lemma SshSilent(cw: ConfWeights, aw: AuthWeights, e: Evidence, v: Verdict)
    requires e.keyExchange == [] && e.signature == []
    ensures var r := ScoreSsh(cw, aw, e, v); r.conf == v.conf && r.auth == v.auth && r.readiness == Unknown
  {
  }

  // ---------------------------------------------------------- IPsec, domain

  /** Of an IPsec gateway only an ML-KEM group is post-quantum, in either case of letters, and only ML_KEM_1024 pure. */
  lemma IpsecReadinessMeans(e: Evidence, name: string)
    requires name == Upper(if e.group.Some? then e.group.value else "unknown")
    ensures name == "ML_KEM_1024" ==> IpsecReadiness(e) == PurePqApproved
    ensures "ML_KEM" <= name && name != "ML_KEM_1024" ==> IpsecReadiness(e) == HybridTransitional
    ensures !("ML_KEM" <= name) ==> IpsecReadiness(e) == ClassicalOnly
  {
    assert "ML_KEM" <= "ML_KEM_1024";
  }

  const SMALL := "abcdefghijklmnopqrstuvwxyz"
  const LARGE := "ABCDEFGHIJKLMNOPQRSTUVWXYZ"

  /** Upper-casing changes the small letters and nothing else. */
  lemma UpperMeans(s: string, i: nat)
    requires i < |s|
    ensures |Upper(s)| == |s|
    ensures forall k :: 0 <= k < 26 && s[i] == SMALL[k] ==> Upper(s)[i] == LARGE[k]
    ensures s[i] !in SMALL ==> Upper(s)[i] == s[i]
  {
    if 'a' <= s[i] <= 'z' {
      assert SMALL[(s[i] - 'a') as nat] == s[i];
    }
  }

  /** An IPsec gateway by the class of its group, its cipher and its integrity. */
  lemma IpsecTable(cw: ConfWeights, aw: AuthWeights, e: Evidence, v: Verdict, r: Verdict)
    requires r == ScoreIpsec(cw, aw, e, v) && e.keyExchange != []
    ensures var classical := !("ML_KEM" <= Upper(if e.group.Some? then e.group.value else "unknown"));
            && Scores(r.conf, cw.cap, cw.scale, e.criticality,
                      Weight(cw.keyExchange, e.keyExchange[0].class_)
                      + (if e.cipher != [] && (e.cipher[0].class_ == NOT_APPROVED
                          || e.cipher[0].class_ == NOT_APPROVED_AFTER_2030)
                         then cw.symmetricNotApproved else 0)
                      + (if "ipsec_encryption_not_aes_gcm (ISM-1771)" in v.ruleFindings then cw.notAesGcm else 0)
                      + (if classical then cw.noPqGroup else 0))
            && r.pqStatus == (if classical then NotSupported else Supported)
    ensures Scores(r.auth, aw.cap, aw.scale, e.criticality,
                   (if e.mac == [] then aw.signature.notApproved else Weight(aw.signature, e.mac[0].class_))
                   + (if "ike_version_not_approved" in v.failures then aw.failure else 0)
                   + (if "ipsec_no_integrity_without_aead" in v.failures then aw.failure else 0))
    ensures r.readiness == IpsecReadiness(e) && r.failures == v.failures && r.ruleFindings == v.ruleFindings
  {
    hide IpsecConfLines, IpsecAuthLines, IpsecReadiness;
    IpsecReadinessMeans(e, Upper(if e.group.Some? then e.group.value else "unknown"));
  }

  lemma IpsecSilent(cw: ConfWeights, aw: AuthWeights, e: Evidence, v: Verdict)
    requires e.keyExchange == []
    ensures var r := ScoreIpsec(cw, aw, e, v); r.conf == v.conf && r.auth == v.auth && r.readiness == Unknown
  {
  }

  /** A domain is never scored for confidentiality, and for authentication by every failure listed, if it could be
      looked up. */
  lemma DomainTable(w: AuthWeights, e: Evidence, v: Verdict, r: Verdict)
    requires r == ScoreDomain(w, e, v)
    ensures r.conf == None && r.readiness == Unknown
    ensures e.untestable ==> r.auth == v.auth
    ensures !e.untestable ==> Scores(r.auth, w.cap, w.scale, e.criticality, |v.failures| * w.failure)
  {
    hide DomainLines;
  }

  // ----------------------------------------------------------- explanations

  /** A line of an explanation, where its condition holds. */
  function Entry(condition: bool, item: string, points: nat): seq<Line> {
    if condition then [Line(item, points)] else []
  }

  lemma WhenIsEntry(condition: bool, item: string, points: nat)
    ensures When(condition, item, points) == Entry(condition, item, points)
  {
  }

  /** The lines of a session's breaches, and of the suites it would accept, in order, each with its points. */
  function BreachEntries(w: ConfWeights, p: Profile, e: Evidence): seq<Line> {
    SessionEntries(w, p, e)
    + Entry(exists s :: s in e.accepted && (s.notApproved || s.noEncryption), "unapproved_cipher_accepted (ISM-0471)",
            w.unapprovedAccepted)
    + Entry(exists s :: s in e.accepted && s.staticRsa, "static_rsa_key_transport_accepted (ISM-1372, ISM-1453)",
            w.noForwardSecrecy)
  }

  function SessionEntries(w: ConfWeights, p: Profile, e: Evidence): seq<Line> {
    var s := e.suite;
    Entry(e.tlsVersion.Some? && e.tlsVersion.value !in p.approvedVersions, "tls_version_not_approved (ISM-1139)",
          w.versionNotApproved)
    + Entry(s.Some? && !s.value.gcm, "cipher_not_aes_gcm (ISM-1369)", w.notAesGcm)
    + Entry(s.Some? && s.value.after2030, "symmetric_not_approved_after_2030", w.symmetricAfter2030)
    + Entry(s.Some? && s.value.notApproved, "symmetric_not_approved", w.symmetricNotApproved)
    + Entry(s.Some? && s.value.noEncryption, "no_encryption (ISM-0469, ISM-1369)", w.noEncryption)
    + Entry(s.Some? && !s.value.ephemeral && e.tlsVersion != Some("TLSv1.3"), "no_forward_secrecy (ISM-1372, ISM-1453)",
            w.noForwardSecrecy)
  }

  lemma SessionEntered(w: ConfWeights, p: Profile, e: Evidence)
    ensures NegotiatedLines(w, p, e) == SessionEntries(w, p, e)
  {
    var s, version := e.suite, e.tlsVersion.Some? && e.tlsVersion.value !in p.approvedVersions;
    var secret := s.Some? && !s.value.ephemeral && e.tlsVersion != Some("TLSv1.3");
    assert VersionBreach(p, e) == version && NoForwardSecrecy(e) == secret;
    hide When, Entry, VersionBreach, NoForwardSecrecy;
    WhenIsEntry(version, "tls_version_not_approved (ISM-1139)", w.versionNotApproved);
    WhenIsEntry(s.Some? && !s.value.gcm, "cipher_not_aes_gcm (ISM-1369)", w.notAesGcm);
    WhenIsEntry(s.Some? && s.value.after2030, "symmetric_not_approved_after_2030", w.symmetricAfter2030);
    WhenIsEntry(s.Some? && s.value.notApproved, "symmetric_not_approved", w.symmetricNotApproved);
    WhenIsEntry(s.Some? && s.value.noEncryption, "no_encryption (ISM-0469, ISM-1369)", w.noEncryption);
    WhenIsEntry(secret, "no_forward_secrecy (ISM-1372, ISM-1453)", w.noForwardSecrecy);
  }

  lemma BreachesEntered(w: ConfWeights, p: Profile, e: Evidence)
    ensures ProtocolLines(w, p, e) == BreachEntries(w, p, e)
  {
    AcceptedMeans(e);
    SessionEntered(w, p, e);
    hide When, Entry, WeakAccepted, StaticRsaAccepted, NegotiatedLines, SessionEntries;
    WhenIsEntry(WeakAccepted(e), "unapproved_cipher_accepted (ISM-0471)", w.unapprovedAccepted);
    WhenIsEntry(StaticRsaAccepted(e), "static_rsa_key_transport_accepted (ISM-1372, ISM-1453)", w.noForwardSecrecy);
  }

  function LifetimeEntries(w: ConfWeights, years: int): seq<Line> {
    Entry(years >= 11, "data_lifetime > 10y", w.over10)
        + Entry(years >= 5 && years < 11, "data_lifetime > 5y", w.from5To10)
  }

  lemma LifetimeEntered(w: ConfWeights, years: int)
    ensures LifetimeLines(w, years) == LifetimeEntries(w, years)
  {
  }

  /** What is said of a TLS endpoint's confidentiality, path by path: the cap alone, no measurement, or every line. */
  lemma TlsConfidentialityExplained(w: ConfWeights, p: Profile, e: Evidence, v: Verdict, r: Verdict)
    requires r == ScoreTlsConf(w, p, e, v)
    ensures "no_tls_offered" in v.failures ==> r.confWhy == AtCap
    ensures "no_tls_offered" !in v.failures && e.obsolete ==>
              && r.confWhy.Breakdown?
              && r.confWhy.lines == [Line("key exchange", w.keyExchange.notApproved)]
                                    + [Line("pq_state not_supported", w.noPqGroup)] + BreachEntries(w, p, e)
    ensures "no_tls_offered" !in v.failures && !e.obsolete && (e.group.None? || v.pqStatus == NotDeterminable) ==>
              r.confWhy == NotMeasured
    ensures "no_tls_offered" !in v.failures && !e.obsolete && e.group.Some? && v.pqStatus != NotDeterminable ==>
              && r.confWhy.Breakdown?
              && r.confWhy.lines == [Line("key exchange", Weight(w.keyExchange, p.classifyGroup(e.group.value)))]
                                    + BreachEntries(w, p, e)
                                    + Entry(v.pqStatus == NotSupported, "pq_state not_supported", w.noPqGroup)
                                    + LifetimeEntries(w, e.lifetime)
  {
    hide ProtocolLines, TlsSubtotal, ObsoleteSubtotal, AddMissing, Exceeds, Labels, BreachEntries, LifetimeLines,
         LifetimeEntries, Capped;
    BreachesEntered(w, p, e);
    LifetimeEntered(w, e.lifetime);
  }

  /** And of a chain's authentication: signature, hash, expiry, failures, key. */
  function ChainEntries(w: AuthWeights, p: Profile, e: Evidence, chain: seq<Certificate>, leaf: Option<Certificate>,
                        failures: seq<string>): seq<Line> {
    Entry(chain != [], "weakest signature in chain", SignaturePoints(w, chain))
    + HashEntries(w, p, chain)
    + ExpiryEntries(w, p, leaf)
    + Entry(FailureWeight(w, failures) > 0, "validation failures", FailureWeight(w, failures))
    + KeyEntries(w, p, e, leaf)
  }

  function HashEntries(w: AuthWeights, p: Profile, chain: seq<Certificate>): seq<Line> {
    if exists c :: c in chain && c.hash.Some? && c.hash.value in p.failedHashes then
      [Line("worst hash in chain: NOT_APPROVED", w.hashNotApproved)]
    else if exists c :: c in chain && c.hash.Some? && c.hash.value in p.hashesUntil2030 then
      [Line("worst hash in chain: NOT_APPROVED_AFTER_2030", w.hashAfter2030)]
    else if exists c :: c in chain && c.hash.Some? && c.hash.value in p.approvedHashes then
      [Line("worst hash in chain: APPROVED", 0)]
    else []
  }

  lemma HashEntered(w: AuthWeights, p: Profile, chain: seq<Certificate>)
    ensures HashLines(w, p, chain) == HashEntries(w, p, chain)
  {
    HashNamed(chain, p.failedHashes);
    HashNamed(chain, p.hashesUntil2030);
    HashNamed(chain, p.approvedHashes);
    hide HasHash;
  }

  function ExpiryEntries(w: AuthWeights, p: Profile, leaf: Option<Certificate>): seq<Line> {
    match leaf
    case None => []
    case Some(c) =>
      match c.notAfter
      case None => []
      case Some(t) =>
        if t > p.complete then [Line("notAfter > 2030", w.notAfter2030)]
        else if t > p.started then [Line("notAfter > 2028", w.notAfter2028)]
        else []
  }

  function KeyEntries(w: AuthWeights, p: Profile, e: Evidence, leaf: Option<Certificate>): seq<Line> {
    match leaf
    case None => []
    case Some(c) =>
      (if c.keyAlgorithm !in p.keyRules then []
       else
         var rule := p.keyRules[c.keyAlgorithm];
         Entry(c.keySize.Some? && c.keySize.value < rule.minimum, "key_size_below_minimum (ISM-0472/0474/0475/0476)",
               w.belowMinimum)
         + Entry(c.keySize.Some? && c.keySize.value >= rule.minimum && rule.preferred.Some?
                 && c.keySize.value < rule.preferred.value,
                 "key_size_below_preferred (informational)", w.belowPreferred)
         + Entry(c.keyCurve.Some? && rule.preferredCurve.Some? && c.keyCurve.value != rule.preferredCurve.value,
                 "curve_below_preferred (informational)", w.belowPreferred))
      + Entry(e.level in p.curveRules && c.keyCurve.Some? && c.keyCurve.value !in p.curveRules[e.level],
              "classification_curve_violation (ISM-1761/1762/1763/1764)", w.curveViolation)
  }

  lemma KeyEntered(w: AuthWeights, p: Profile, e: Evidence, leaf: Option<Certificate>)
    ensures When(BelowMinimum(p, leaf), "key_size_below_minimum (ISM-0472/0474/0475/0476)", w.belowMinimum)
            + When(BelowPreferred(p, leaf), "key_size_below_preferred (informational)", w.belowPreferred)
            + When(CurveNotPreferred(p, leaf), "curve_below_preferred (informational)", w.belowPreferred)
            + When(CurveViolation(p, e, leaf), "classification_curve_violation (ISM-1761/1762/1763/1764)",
                w.curveViolation)
         == KeyEntries(w, p, e, leaf)
  {
    var a, b, c, d := BelowMinimum(p, leaf), BelowPreferred(p, leaf), CurveNotPreferred(p, leaf),
        CurveViolation(p, e, leaf);
    WhenIsEntry(a, "key_size_below_minimum (ISM-0472/0474/0475/0476)", w.belowMinimum);
    WhenIsEntry(b, "key_size_below_preferred (informational)", w.belowPreferred);
    WhenIsEntry(c, "curve_below_preferred (informational)", w.belowPreferred);
    WhenIsEntry(d, "classification_curve_violation (ISM-1761/1762/1763/1764)", w.curveViolation);
    if leaf.None? || leaf.value.keyAlgorithm !in p.keyRules {
      assert !a && !b && !c;
      WhenNot("key_size_below_minimum (ISM-0472/0474/0475/0476)", w.belowMinimum);
      WhenNot("key_size_below_preferred (informational)", w.belowPreferred);
      WhenNot("curve_below_preferred (informational)", w.belowPreferred);
      if leaf.None? {
        WhenNot("classification_curve_violation (ISM-1761/1762/1763/1764)", w.curveViolation);
      }
    }
    hide When, Entry;
  }

  lemma ChainEntered(w: AuthWeights, p: Profile, e: Evidence, chain: seq<Certificate>, leaf: Option<Certificate>,
                     failures: seq<string>)
    ensures ChainLines(w, p, e, chain, leaf, failures) == ChainEntries(w, p, e, chain, leaf, failures)
  {
    HashEntered(w, p, chain);
    KeyEntered(w, p, e, leaf);
    ExpiryEntered(w, p, leaf);
    FailuresCost(w, failures);
    WhenIsEntry(chain != [], "weakest signature in chain", w.signature.Of(Worst(chain, APPROVED)));
    WhenIsEntry(FailurePoints(w, failures) > 0, "validation failures", FailurePoints(w, failures));
    SignatureEntered(w, chain);
    hide When, Entry, HashLines, HashEntries, ExpiryLines, ExpiryEntries, KeyEntries, FailurePoints, FailureWeight,
         BelowMinimum,
         BelowPreferred, CurveNotPreferred, CurveViolation, Worst, SignaturePoints;
  }

  lemma SignatureEntered(w: AuthWeights, chain: seq<Certificate>)
    ensures Entry(chain != [], "weakest signature in chain", w.signature.Of(Worst(chain, APPROVED)))
         == Entry(chain != [], "weakest signature in chain", SignaturePoints(w, chain))
  {
  }

  lemma ExpiryEntered(w: AuthWeights, p: Profile, leaf: Option<Certificate>)
    ensures ExpiryLines(w, p, leaf) == ExpiryEntries(w, p, leaf)
  {
  }

  lemma FailuresCost(w: AuthWeights, failures: seq<string>)
    ensures FailurePoints(w, failures) == FailureWeight(w, failures)
  {
  }

  lemma TlsAuthenticationExplained(w: AuthWeights, p: Profile, certs: Certificates, e: Evidence, v: Verdict, r: Verdict)
    requires r == ScoreTlsAuth(w, p, certs, e, v)
    ensures e.obsolete ==> r.authWhy == Breakdown([Line("obsolete_tls review penalty", w.obsolete)], w.obsolete)
    ensures !e.obsolete && e.fingerprints == [] ==> r.authWhy == NotMeasured
    ensures !e.obsolete && e.fingerprints != [] ==>
              var leaf := if e.fingerprints[0] in certs then Some(certs[e.fingerprints[0]]) else None;
              && r.authWhy.Breakdown?
              && r.authWhy.lines == ChainEntries(w, p, e, Known(certs, e.fingerprints), leaf, r.failures)
  {
    hide ChainSubtotal, ChainLines, ChainEntries, KeyFindings, Known, Worst, ChainFailures, Capped;
    if !e.obsolete && e.fingerprints != [] {
      ChainEntered(w, p, e, Known(certs, e.fingerprints), Leaf(certs, e), ChainFailures(certs, e, v.failures));
    }
  }

  /** The text that lists names. */
  lemma ListedMeans(first: string, rest: seq<string>)
    ensures Listed([]) == "" && Listed([first]) == first
    ensures rest != [] ==> Listed([first] + rest) == first + ", " + Listed(rest)
  {
    var all := [first] + rest;
    assert all[1..] == rest;
  }

  /** The unapproved algorithms of a list, by name, in order. */
  lemma OffendersMeans(a: seq<Algorithm>, name: string, c: Classification)
    ensures OffenderNames([]) == []
    ensures OffenderNames(a + [Algorithm(name, c)])
            == OffenderNames(a) + match c case NOT_APPROVED => [name] case _ => []
  {
    var one := [Algorithm(name, c)];
    assert one[1..] == [];
    OffenderNamesAppend(a, one);
  }

  /** What an SSH endpoint's finding says: the lines of both scores, with `best` and `worst` the classes they name,
      and the two findings of unapproved algorithms by name. */
  lemma SshExplained(cw: ConfWeights, aw: AuthWeights, e: Evidence, v: Verdict, r: Verdict)
    requires r == ScoreSsh(cw, aw, e, v) && (e.keyExchange != [] || e.signature != [])
    ensures var best, all := Best(e.keyExchange), e.keyExchange + e.cipher + e.mac;
            var offered := OfferedWeight(cw.offered, cw.offeredCap, Unapproved(all));
            var label_ := "unapproved_algorithm_offered (ISM-0471): " + Listed(OffenderNames(all));
            && r.confWhy.Breakdown?
            && r.confWhy.lines
               == [Line("best key exchange offered",
                   if best.Some? then Weight(cw.keyExchange, best.value) else cw.keyExchange.notApproved)]
                  + Entry(best != Some(APPROVED)
                      && best != Some(TRANSITIONAL), "no post-quantum key exchange offered", cw.noPqGroup)
                  + LifetimeEntries(cw, e.lifetime) + Entry(offered > 0, label_, offered)
    ensures var worst := WorstOffered(e.signature);
            var offered := OfferedWeight(aw.offered, aw.offeredCap, Unapproved(e.signature));
            var label_ := "unapproved_algorithm_offered (ISM-0471): " + Listed(OffenderNames(e.signature));
            && r.authWhy.Breakdown?
            && r.authWhy.lines
               == [Line("weakest host key offered",
                   if worst.Some? then Weight(aw.signature, worst.value) else aw.signature.notApproved)]
                  + Entry(offered > 0, label_, offered)
                  + Entry("ssh_version_not_approved" in v.failures, "ssh_version_not_approved (ISM-1506)", aw.failure)
  {
    var all := e.keyExchange + e.cipher + e.mac;
    UnapprovedCounted(all);
    UnapprovedCounted(e.signature);
    OfferedMeans(cw.offered, cw.offeredCap, Offenders(all));
    OfferedMeans(aw.offered, aw.offeredCap, Offenders(e.signature));
    LifetimeEntered(cw, e.lifetime);
    SshLinesEntered(cw, aw, e, v.failures);
    hide SshConfSubtotal, SshAuthSubtotal, Capped, Best, WorstOffered, Offenders, OffenderNames, Unapproved,
         OfferedPoints,
         OfferedWeight, LifetimeLines, LifetimeEntries, When, Entry, Listed, SshConfLines, SshAuthLines;
  }

  lemma SshLinesEntered(cw: ConfWeights, aw: AuthWeights, e: Evidence, failures: seq<string>)
    ensures SshConfLines(cw, e)
         == [Line("best key exchange offered", ClassPoints(cw.keyExchange, Best(e.keyExchange)))]
            + Entry(!PostQuantum(Best(e.keyExchange)), "no post-quantum key exchange offered", cw.noPqGroup)
            + LifetimeLines(cw, e.lifetime) + Entry(SshConfOffered(cw, e) > 0, SshConfLabel(e), SshConfOffered(cw, e))
    ensures SshAuthLines(aw, e, failures)
         == [Line("weakest host key offered", ClassPoints(aw.signature, WorstOffered(e.signature)))]
            + Entry(SshAuthOffered(aw, e) > 0, SshAuthLabel(e), SshAuthOffered(aw, e))
            + Entry("ssh_version_not_approved" in failures, "ssh_version_not_approved (ISM-1506)", aw.failure)
  {
    hide When, Entry, SshConfOffered, SshAuthOffered, SshConfLabel, SshAuthLabel, LifetimeLines, Best, WorstOffered;
    WhenIsEntry(!PostQuantum(Best(e.keyExchange)), "no post-quantum key exchange offered", cw.noPqGroup);
    WhenIsEntry(SshConfOffered(cw, e) > 0, SshConfLabel(e), SshConfOffered(cw, e));
    WhenIsEntry(SshAuthOffered(aw, e) > 0, SshAuthLabel(e), SshAuthOffered(aw, e));
    WhenIsEntry(SSH_VERSION in failures, "ssh_version_not_approved (ISM-1506)", aw.failure);
  }

  lemma SshFindingsNamed(cw: ConfWeights, aw: AuthWeights, e: Evidence, v: Verdict, r: Verdict)
    requires r == ScoreSsh(cw, aw, e, v) && (e.keyExchange != [] || e.signature != [])
    ensures var all := e.keyExchange + e.cipher + e.mac;
            r.ruleFindings == v.ruleFindings
              + (if OfferedWeight(cw.offered, cw.offeredCap, Unapproved(all)) > 0
                 then ["unapproved_algorithm_offered (ISM-0471): " + Listed(OffenderNames(all))] else [])
              + (if OfferedWeight(aw.offered, aw.offeredCap, Unapproved(e.signature)) > 0
                 then ["unapproved_algorithm_offered (ISM-0471): " + Listed(OffenderNames(e.signature))] else [])
  {
    var all := e.keyExchange + e.cipher + e.mac;
    UnapprovedCounted(all);
    UnapprovedCounted(e.signature);
    OfferedMeans(cw.offered, cw.offeredCap, Offenders(all));
    OfferedMeans(aw.offered, aw.offeredCap, Offenders(e.signature));
    SshFindings(cw, aw, e, v);
    hide ScoreSsh, Offenders, OffenderNames, Unapproved, OfferedPoints, OfferedWeight, Listed;
  }

  /** What an IPsec gateway's finding says. */
  lemma IpsecExplained(cw: ConfWeights, aw: AuthWeights, e: Evidence, v: Verdict, r: Verdict)
    requires r == ScoreIpsec(cw, aw, e, v) && e.keyExchange != []
    ensures r.confWhy.Breakdown? && r.authWhy.Breakdown?
    ensures r.confWhy.lines
         == [Line("IKE D-H group (ISM-0999)", Weight(cw.keyExchange, e.keyExchange[0].class_))]
            + Entry(e.cipher != [] && (e.cipher[0].class_ == NOT_APPROVED
                || e.cipher[0].class_ == NOT_APPROVED_AFTER_2030),
                    "encryption (ISM-1771)", cw.symmetricNotApproved)
            + Entry("ipsec_encryption_not_aes_gcm (ISM-1771)" in v.ruleFindings,
                    "encryption is not AES-GCM (ISM-1771)", cw.notAesGcm)
            + Entry(r.readiness == ClassicalOnly, "no post-quantum key exchange", cw.noPqGroup)
    ensures r.authWhy.lines
         == [Line("integrity (ISM-0998)", if e.mac
             == [] then aw.signature.notApproved else Weight(aw.signature, e.mac[0].class_))]
            + Entry("ike_version_not_approved" in v.failures, "ike_version_not_approved", aw.failure)
            + Entry("ipsec_no_integrity_without_aead" in v.failures, "ipsec_no_integrity_without_aead", aw.failure)
  {
    IpsecConfEntered(cw, e, v.ruleFindings);
    IpsecAuthEntered(aw, e, v.failures);
    hide IpsecConfLines, IpsecAuthLines, IpsecReadiness, When, Entry, Capped, IpsecConfSubtotal, IpsecAuthSubtotal;
  }

  lemma IpsecConfEntered(w: ConfWeights, e: Evidence, ruleFindings: seq<string>)
    ensures IpsecConfLines(w, e, ruleFindings)
         == [Line("IKE D-H group (ISM-0999)", ClassPoints(w.keyExchange, One(e.keyExchange)))]
            + Entry(IpsecCipherBreach(e), "encryption (ISM-1771)", w.symmetricNotApproved)
            + Entry("ipsec_encryption_not_aes_gcm (ISM-1771)" in ruleFindings,
                    "encryption is not AES-GCM (ISM-1771)", w.notAesGcm)
            + Entry(IpsecReadiness(e) == ClassicalOnly, "no post-quantum key exchange", w.noPqGroup)
  {
    hide When, Entry, IpsecReadiness, IpsecCipherBreach;
    WhenIsEntry(IpsecCipherBreach(e), "encryption (ISM-1771)", w.symmetricNotApproved);
    WhenIsEntry(NOT_AES_GCM in ruleFindings, "encryption is not AES-GCM (ISM-1771)", w.notAesGcm);
    WhenIsEntry(IpsecReadiness(e) == ClassicalOnly, "no post-quantum key exchange", w.noPqGroup);
  }

  lemma IpsecAuthEntered(w: AuthWeights, e: Evidence, failures: seq<string>)
    ensures IpsecAuthLines(w, e, failures)
         == [Line("integrity (ISM-0998)", ClassPoints(w.signature, One(e.mac)))]
            + Entry("ike_version_not_approved" in failures, "ike_version_not_approved", w.failure)
            + Entry("ipsec_no_integrity_without_aead" in failures, "ipsec_no_integrity_without_aead", w.failure)
  {
    hide When, Entry;
    WhenIsEntry(IKE_VERSION in failures, IKE_VERSION, w.failure);
    WhenIsEntry(NO_INTEGRITY in failures, NO_INTEGRITY, w.failure);
  }

  /** What a domain's finding says: a line for each failure, or one that all is well. */
  lemma DomainExplained(w: AuthWeights, e: Evidence, v: Verdict, r: Verdict)
    requires r == ScoreDomain(w, e, v)
    ensures e.untestable ==> r.authWhy == NotMeasured
    ensures !e.untestable && v.failures == [] ==> r.authWhy == Breakdown([Line("all observed controls met", 0)], 0)
    ensures !e.untestable && v.failures != [] ==>
              && r.authWhy.Breakdown? && |r.authWhy.lines| == |v.failures|
              && forall i :: 0 <= i < |v.failures| ==> r.authWhy.lines[i] == Line(v.failures[i], w.failure)
  {
  }

  /** Each service is scored by its own rules, TLS on both sides. */
  lemma ByService(cw: ConfWeights, aw: AuthWeights, p: Profile, certs: Certificates, e: Evidence, v: Verdict,
                  r: Verdict)
    requires r == Score(cw, aw, p, certs, e, v)
    ensures e.service == Ssh ==> r == ScoreSsh(cw, aw, e, v)
    ensures e.service == Ipsec ==> r == ScoreIpsec(cw, aw, e, v)
    ensures e.service == Domain ==> r == ScoreDomain(aw, e, v)
    ensures e.service == Tls ==> r == ScoreTlsAuth(aw, p, certs, e, ScoreTlsConf(cw, p, e, v))
  {
    hide ScoreSsh, ScoreIpsec, ScoreDomain, ScoreTlsAuth, ScoreTlsConf;
  }
}
