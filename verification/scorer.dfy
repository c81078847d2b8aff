/** The scorer as it works: it updates a finding in place, adding points and lines as it goes. */
module Scorer {
  import opened Bytes
  import opened ScoringModel
  import opened ScoringLaws
  import opened ScoringOrder
  import opened ReadinessBand
  import Spec = ScoringModel

  /** One endpoint's finding: the evidence of its probe, and the verdicts scoring writes. */
  class HostFinding {
    const evidence: Evidence
    var confidentialityScore: Option<nat>
    var authenticationScore: Option<nat>
    var pqReadiness: Readiness
    var pqStatus: PqStatus
    var validationFailures: seq<string>
    var ruleFindings: seq<string>
    var chainClassification: Option<Classification>
    var capabilityExceedsDefault: bool
    var readinessBand: Option<nat>
    var confidentialityExplanation: Explanation
    var authenticationExplanation: Explanation

    ghost function View(): Verdict
      reads this
    {
      Verdict(confidentialityScore, authenticationScore, pqReadiness, pqStatus, validationFailures, ruleFindings,
              chainClassification, capabilityExceedsDefault, readinessBand,
              confidentialityExplanation, authenticationExplanation)
    }

    constructor (evidence: Evidence, status: PqStatus, failures: seq<string>, ruleFindings: seq<string>)
      ensures this.evidence == evidence
      ensures View() == Verdict(None, None, Unknown, status, failures, ruleFindings, None, false, None, Unexplained,
              Unexplained)
    {
      this.evidence := evidence;
      confidentialityScore, authenticationScore, pqReadiness, pqStatus := None, None, Unknown, status;
      validationFailures, this.ruleFindings := failures, ruleFindings;
      chainClassification, capabilityExceedsDefault, readinessBand := None, false, None;
      confidentialityExplanation, authenticationExplanation := Unexplained, Unexplained;
    }
  }

  // ------------------------------------------------------------- appending

  lemma {:induction false} KnownAppend(certs: Certificates, a: seq<string>, b: seq<string>)
    ensures Known(certs, a + b) == Known(certs, a) + Known(certs, b)
  {
    if a == [] {
      assert a + b == b;
    } else {
      assert (a + b)[0] == a[0] && (a + b)[1..] == a[1..] + b;
      KnownAppend(certs, a[1..], b);
      var first := if a[0] in certs then [certs[a[0]]] else [];
      assert first + (Known(certs, a[1..]) + Known(certs, b)) == first + Known(certs, a[1..]) + Known(certs, b);
    }
  }

  /** The chain up to and including position `i`. */
  lemma KnownNext(certs: Certificates, fingerprints: seq<string>, from: nat, i: nat)
    requires from <= i < |fingerprints|
    ensures Known(certs, fingerprints[from..i + 1])
         == Known(certs, fingerprints[from..i]) + (if fingerprints[i] in certs then [certs[fingerprints[i]]] else [])
  {
    var last := [fingerprints[i]];
    assert fingerprints[from..i + 1] == fingerprints[from..i] + last;
    KnownAppend(certs, fingerprints[from..i], last);
    assert last[1..] == [];
  }

  lemma {:induction false} WorstNext(chain: seq<Certificate>, c: Certificate, floor: Classification)
    ensures Worst(chain + [c], floor)
         == if Severity(c.class_) > Severity(Worst(chain, floor)) then c.class_ else Worst(chain, floor)
    decreases chain
  {
    var last := [c];
    if chain == [] {
      assert chain + last == last && last[1..] == [];
    } else {
      assert (chain + last)[1..] == chain[1..] + last;
      WorstNext(chain[1..], c, if Severity(chain[0].class_) > Severity(floor) then chain[0].class_ else floor);
    }
  }

  /** The entries of several roles, one role after the other. */
  function Flat(e: Evidence, roles: seq<Role>): seq<Algorithm> {
    if roles == [] then [] else Entries(e, roles[0]) + Flat(e, roles[1..])
  }

  lemma {:induction false} FlatNext(e: Evidence, roles: seq<Role>, role: Role)
    ensures Flat(e, roles + [role]) == Flat(e, roles) + Entries(e, role)
  {
    var last := [role];
    if roles == [] {
      assert roles + last == last && last[1..] == [];
    } else {
      assert (roles + last)[1..] == roles[1..] + last;
      FlatNext(e, roles[1..], role);
    }
  }

  lemma OffendersNext(entries: seq<Algorithm>, i: nat)
    requires i < |entries|
    ensures OffenderNames(entries[..i + 1])
         == OffenderNames(entries[..i]) + if entries[i].class_ == NOT_APPROVED then [entries[i].name] else []
  {
    var last := [entries[i]];
    assert entries[..i + 1] == entries[..i] + last;
    OffenderNamesAppend(entries[..i], last);
    assert last[1..] == [];
  }

  lemma {:induction false} AddMissingNext(present: seq<string>, names: seq<string>, name: string)
    ensures AddMissing(present, names + [name])
         == var before := AddMissing(present, names); if name in before then before else before + [name]
    decreases names
  {
    var last := [name];
    if names == [] {
      assert names + last == last && last[1..] == [];
    } else {
      assert (names + last)[1..] == names[1..] + last;
      AddMissingNext(if names[0] in present then present else present + [names[0]], names[1..], name);
    }
  }

  // ----------------------------------------------------------------- scorer

  class Scorer {
    const conf: ConfWeights
    const auth: AuthWeights
    const profile: Profile
    const bands: BandModel

    constructor (conf: ConfWeights, auth: AuthWeights, profile: Profile, bands: BandModel)
      ensures this.conf == conf && this.auth == auth && this.profile == profile && this.bands == bands
    {
      this.conf, this.auth, this.profile, this.bands := conf, auth, profile, bands;
    }

    /** The points of one item, and its line, where its condition holds. */
    method Charge(score: nat, lines: seq<Line>, condition: bool, item: string, points: nat)
      returns (score': nat, lines': seq<Line>)
      ensures score' == score + If(condition, points)
      ensures lines' == lines + When(condition, item, points)
    {
      score', lines' := score, lines;
      if condition {
        score' := score + points;
        lines' := lines + [Line(item, points)];
      }
    }

    method UnapprovedOffered(e: Evidence, roles: seq<Role>, per: nat, cap: Option<nat>)
      returns (total: nat, labels: seq<string>)
      ensures total == OfferedPoints(per, cap, Offenders(Flat(e, roles)))
      ensures labels == if Offenders(Flat(e, roles)) > 0 then [OfferedLabel(Flat(e, roles))] else []
      ensures labels == [] ==> total == 0
    {
      var offenders: seq<string> := [];
      for r := 0 to |roles|
        invariant offenders == OffenderNames(Flat(e, roles[..r]))
      {
        var entries := Entries(e, roles[r]);
        var before := offenders;
        for i := 0 to |entries|
          invariant offenders == before + OffenderNames(entries[..i])
        {
          OffendersNext(entries, i);
          if entries[i].class_ == NOT_APPROVED {
            offenders := offenders + [entries[i].name];
          }
        }
        assert entries[..|entries|] == entries;
        assert roles[..r + 1] == roles[..r] + [roles[r]];
        FlatNext(e, roles[..r], roles[r]);
        OffenderNamesAppend(Flat(e, roles[..r]), entries);
      }
      assert roles[..|roles|] == roles;
      if offenders == [] {
        return 0, [];
      }
      total := |offenders| * per;
      if cap.Some? && cap.value < total {
        total := cap.value;
      }
      labels := [OFFERED + Listed(offenders)];
    }

    method BestOf(entries: seq<Algorithm>) returns (best: Option<Classification>)
      ensures best == Best(entries)
    {
      best := None;
      for i := 0 to |entries|
        invariant best.None? <==> i == 0
        invariant best.Some? ==>
                    && (forall x :: x in entries[..i] ==> Severity(best.value) <= Severity(x.class_))
                    && exists x :: x in entries[..i] && x.class_ == best.value
      {
        assert entries[..i + 1] == entries[..i] + [entries[i]];
        assert entries[i] in entries[..i + 1];
        if best.None? || Severity(entries[i].class_) < Severity(best.value) {
          best := Some(entries[i].class_);
        }
      }
      assert entries[..|entries|] == entries;
      BestIsLeast(entries);
      if best.Some? {
        SeverityInjective(best.value, Best(entries).value);
      }
    }

    method WorstOf(entries: seq<Algorithm>) returns (worst: Option<Classification>)
      ensures worst == WorstOffered(entries)
    {
      worst := None;
      for i := 0 to |entries|
        invariant worst.None? <==> i == 0
        invariant worst.Some? ==>
                    && (forall x :: x in entries[..i] ==> Severity(worst.value) >= Severity(x.class_))
                    && exists x :: x in entries[..i] && x.class_ == worst.value
      {
        assert entries[..i + 1] == entries[..i] + [entries[i]];
        assert entries[i] in entries[..i + 1];
        if worst.None? || Severity(entries[i].class_) > Severity(worst.value) {
          worst := Some(entries[i].class_);
        }
      }
      assert entries[..|entries|] == entries;
      WorstOfferedIsGreatest(entries);
      if worst.Some? {
        SeverityInjective(worst.value, WorstOffered(entries).value);
      }
    }

    method ChargeLifetime(score: nat, lines: seq<Line>, lifetime: int) returns (score': nat, lines': seq<Line>)
      ensures score' == score + LifetimePoints(conf, lifetime)
      ensures lines' == lines + LifetimeLines(conf, lifetime)
    {
      score', lines' := score, lines;
      if lifetime > 10 {
        score', lines' := Charge(score, lines, true, "data_lifetime > 10y", conf.over10);
      } else if lifetime >= 5 {
        score', lines' := Charge(score, lines, true, "data_lifetime > 5y", conf.from5To10);
      }
    }

    // ------------------------------------------------------------------- SSH

    method ScoreSsh(finding: HostFinding)
      modifies finding
      ensures finding.View() == Spec.ScoreSsh(conf, auth, finding.evidence, old(finding.View()))
    {
      var e := finding.evidence;
      if e.keyExchange == [] && e.signature == [] {
        finding.confidentialityExplanation := NotMeasured;
        finding.authenticationExplanation := NotMeasured;
        finding.pqReadiness := Unknown;
        return;
      }
      var best := ScoreSshConfidentiality(finding);
      ScoreSshAuthentication(finding);
      finding.pqReadiness := if best == Some(APPROVED) then PurePqApproved
                             else if best == Some(TRANSITIONAL) then HybridTransitional
                             else ClassicalOnly;
    }

    method ScoreSshConfidentiality(finding: HostFinding) returns (best: Option<Classification>)
      modifies finding
      ensures best == Best(finding.evidence.keyExchange)
      ensures var e, v := finding.evidence, old(finding.View());
              finding.View() == v.(
                conf := Some(Capped(conf.cap, conf.scale, e.criticality, SshConfSubtotal(conf, e))),
                confWhy := Breakdown(SshConfLines(conf, e), SshConfSubtotal(conf, e)),
                pqStatus := if PostQuantum(best) then Supported else NotSupported,
                ruleFindings := v.ruleFindings + if SshConfOffered(conf, e) > 0 then [SshConfLabel(e)] else [])
    {
      hide Best, SshConfLines, SshConfSubtotal, SshConfOffered;
      var e := finding.evidence;
      best := BestOf(e.keyExchange);
      var classical := best != Some(APPROVED) && best != Some(TRANSITIONAL);
      finding.pqStatus := if classical then NotSupported else Supported;
      var score, lines, labels := ChargeSshConfidentiality(e, best, classical);
      finding.ruleFindings := finding.ruleFindings + labels;
      finding.confidentialityScore := Some(Min(conf.cap, conf.scale(e.criticality, score)));
      finding.confidentialityExplanation := Breakdown(lines, score);
    }

    method ChargeSshConfidentiality(e: Evidence, best: Option<Classification>, classical: bool)
      returns (score: nat, lines: seq<Line>, labels: seq<string>)
      requires best == Best(e.keyExchange) && classical == !PostQuantum(best)
      ensures score == SshConfSubtotal(conf, e) && lines == SshConfLines(conf, e)
      ensures labels == if SshConfOffered(conf, e) > 0 then [SshConfLabel(e)] else []
    {
      hide Best, Offenders, When, LifetimePoints, LifetimeLines, OfferedPoints;
      score := if best.Some? then conf.keyExchange.Of(best.value) else conf.keyExchange.notApproved;
      lines := [Line("best key exchange offered", score)];
      score, lines := Charge(score, lines, classical, "no post-quantum key exchange offered", conf.noPqGroup);
      score, lines := ChargeLifetime(score, lines, e.lifetime);
      ConfRoles(e);
      var penalty;
      penalty, labels := UnapprovedOffered(e, [Role.KeyExchange, Role.Cipher, Role.Mac], conf.offered, conf.offeredCap);
      if penalty > 0 {
        score, lines := Charge(score, lines, true, labels[0], penalty);
      } else {
        WhenNot(SshConfLabel(e), penalty);
      }
      labels := if penalty > 0 then labels else [];
    }

    lemma ConfRoles(e: Evidence)
      ensures Flat(e, [Role.KeyExchange, Role.Cipher, Role.Mac]) == e.keyExchange + e.cipher + e.mac
    {
      FlatNext(e, [], Role.KeyExchange);
      FlatNext(e, [Role.KeyExchange], Role.Cipher);
      FlatNext(e, [Role.KeyExchange, Role.Cipher], Role.Mac);
      assert [] + [Role.KeyExchange] == [Role.KeyExchange];
      assert [Role.KeyExchange] + [Role.Cipher] == [Role.KeyExchange, Role.Cipher];
      assert [Role.KeyExchange, Role.Cipher] + [Role.Mac] == [Role.KeyExchange, Role.Cipher, Role.Mac];
    }

    method ScoreSshAuthentication(finding: HostFinding)
      modifies finding
      ensures var e, v := finding.evidence, old(finding.View());
              finding.View() == v.(
                auth := Some(Capped(auth.cap, auth.scale, e.criticality, SshAuthSubtotal(auth, e, v.failures))),
                authWhy := Breakdown(SshAuthLines(auth, e, v.failures), SshAuthSubtotal(auth, e, v.failures)),
                ruleFindings := v.ruleFindings + if SshAuthOffered(auth, e) > 0 then [SshAuthLabel(e)] else [])
    {
      hide WorstOffered, Offenders, When, OfferedPoints;
      var e := finding.evidence;
      var worst := WorstOf(e.signature);
      var score := if worst.Some? then auth.signature.Of(worst.value) else auth.signature.notApproved;
      var lines := [Line("weakest host key offered", score)];
      var roles := [Role.Signature];
      assert roles[1..] == [] && Flat(e, roles) == e.signature;
      var penalty, labels := UnapprovedOffered(e, roles, auth.offered, auth.offeredCap);
      if penalty > 0 {
        score, lines := Charge(score, lines, true, labels[0], penalty);
      } else {
        WhenNot(SshAuthLabel(e), penalty);
      }
      if penalty > 0 {
        finding.ruleFindings := finding.ruleFindings + labels;
      }
      score, lines := Charge(score, lines, SSH_VERSION in finding.validationFailures,
                             "ssh_version_not_approved (ISM-1506)", auth.failure);
      finding.authenticationScore := Some(Min(auth.cap, auth.scale(e.criticality, score)));
      finding.authenticationExplanation := Breakdown(lines, score);
      assert lines == SshAuthLines(auth, e, finding.validationFailures);
    }

    // ----------------------------------------------------------------- IPsec

    method ScoreIpsec(finding: HostFinding)
      modifies finding
      ensures finding.View() == Spec.ScoreIpsec(conf, auth, finding.evidence, old(finding.View()))
    {
      var e := finding.evidence;
      if e.keyExchange == [] {
        finding.confidentialityExplanation := NotMeasured;
        finding.authenticationExplanation := NotMeasured;
        finding.pqReadiness := Unknown;
        return;
      }
      hide IpsecAuthLines, IpsecAuthSubtotal, IpsecConfLines, IpsecConfSubtotal, IpsecReadiness, Capped;
      ScoreIpsecConfidentiality(finding);
      ScoreIpsecAuthentication(finding);
    }

    method ScoreIpsecConfidentiality(finding: HostFinding)
      requires finding.evidence.keyExchange != []
      modifies finding
      ensures var e, v := finding.evidence, old(finding.View());
              finding.View() == v.(
                conf := Some(Capped(conf.cap, conf.scale, e.criticality, IpsecConfSubtotal(conf, e, v.ruleFindings))),
                confWhy := Breakdown(IpsecConfLines(conf, e, v.ruleFindings),
                    IpsecConfSubtotal(conf, e, v.ruleFindings)),
                readiness := IpsecReadiness(e),
                pqStatus := if IpsecReadiness(e) == ClassicalOnly then NotSupported else Supported)
    {
      hide IpsecReadiness, IpsecConfLines, IpsecConfSubtotal;
      var e := finding.evidence;
      GradeIpsec(finding);
      var score, lines := ChargeIpsec(e, NOT_AES_GCM in finding.ruleFindings, finding.pqStatus == NotSupported,
                                      finding.ruleFindings);
      finding.confidentialityScore := Some(Min(conf.cap, conf.scale(e.criticality, score)));
      finding.confidentialityExplanation := Breakdown(lines, score);
    }

    method ChargeIpsec(e: Evidence, notGcm: bool, classical: bool, ghost ruleFindings: seq<string>)
      returns (score: nat, lines: seq<Line>)
      requires e.keyExchange != [] && notGcm == (NOT_AES_GCM in ruleFindings)
               && classical == (IpsecReadiness(e) == ClassicalOnly)
      ensures score == IpsecConfSubtotal(conf, e, ruleFindings) && lines == IpsecConfLines(conf, e, ruleFindings)
    {
      hide When, IpsecReadiness;
      score := conf.keyExchange.Of(e.keyExchange[0].class_);
      lines := [Line("IKE D-H group (ISM-0999)", score)];
      var weak := e.cipher != []
                  && (e.cipher[0].class_ == NOT_APPROVED || e.cipher[0].class_ == NOT_APPROVED_AFTER_2030);
      score, lines := Charge(score, lines, weak, "encryption (ISM-1771)", conf.symmetricNotApproved);
      score, lines := Charge(score, lines, notGcm, "encryption is not AES-GCM (ISM-1771)", conf.notAesGcm);
      score, lines := Charge(score, lines, classical, "no post-quantum key exchange", conf.noPqGroup);
    }

    method GradeIpsec(finding: HostFinding)
      modifies finding
      ensures var e, v := finding.evidence, old(finding.View());
              finding.View() == v.(readiness := IpsecReadiness(e),
                                   pqStatus := if IpsecReadiness(e) == ClassicalOnly then NotSupported else Supported)
    {
      var name := Upper(if finding.evidence.group.Some? then finding.evidence.group.value else "unknown");
      if name == "ML_KEM_1024" {
        finding.pqReadiness := PurePqApproved;
      } else if "ML_KEM" <= name {
        finding.pqReadiness := HybridTransitional;
      } else {
        finding.pqReadiness := ClassicalOnly;
      }
      finding.pqStatus := if finding.pqReadiness == ClassicalOnly then NotSupported else Supported;
    }

    method ScoreIpsecAuthentication(finding: HostFinding)
      modifies finding
      ensures var e, v := finding.evidence, old(finding.View());
              finding.View() == v.(
                auth := Some(Capped(auth.cap, auth.scale, e.criticality, IpsecAuthSubtotal(auth, e, v.failures))),
                authWhy := Breakdown(IpsecAuthLines(auth, e, v.failures), IpsecAuthSubtotal(auth, e, v.failures)))
    {
      var e := finding.evidence;
      var score := if e.mac != [] then auth.signature.Of(e.mac[0].class_) else auth.signature.notApproved;
      var lines := [Line("integrity (ISM-0998)", score)];
      score, lines := Charge(score, lines, IKE_VERSION in finding.validationFailures, IKE_VERSION, auth.failure);
      score, lines := Charge(score, lines, NO_INTEGRITY in finding.validationFailures, NO_INTEGRITY, auth.failure);
      finding.authenticationScore := Some(Min(auth.cap, auth.scale(e.criticality, score)));
      finding.authenticationExplanation := Breakdown(lines, score);
      assert lines == IpsecAuthLines(auth, e, finding.validationFailures);
    }

    // ---------------------------------------------------------------- domain

    method ScoreDomain(finding: HostFinding)
      modifies finding
      ensures finding.View() == Spec.ScoreDomain(auth, finding.evidence, old(finding.View()))
    {
      var e := finding.evidence;
      finding.confidentialityScore := None;
      finding.pqReadiness := Unknown;
      if e.untestable {
        finding.authenticationExplanation := NotMeasured;
        return;
      }
      var breaches := finding.validationFailures;
      var score := |breaches| * auth.failure;
      var lines := [];
      for i := 0 to |breaches|
        invariant lines == FailureLines(auth.failure, breaches[..i])
      {
        lines := lines + [Line(breaches[i], auth.failure)];
      }
      assert breaches[..|breaches|] == breaches;
      if lines == [] {
        lines := [Line("all observed controls met", 0)];
      }
      finding.authenticationScore := Some(Min(auth.cap, auth.scale(e.criticality, score)));
      finding.authenticationExplanation := Breakdown(lines, score);
    }

    // ------------------------------------------------------------------- TLS

    method Note(lines: seq<Line>, condition: bool, item: string, points: nat) returns (lines': seq<Line>)
      ensures lines' == lines + When(condition, item, points)
    {
      lines' := lines;
      if condition {
        lines' := lines + [Line(item, points)];
      }
    }

    method AcceptedBreaches(e: Evidence) returns (weak: bool, staticRsa: bool)
      ensures weak == WeakAccepted(e) && staticRsa == StaticRsaAccepted(e)
    {
      weak, staticRsa := false, false;
      for n := 0 to |e.accepted|
        invariant weak <==> exists i :: 0 <= i < n && (e.accepted[i].notApproved || e.accepted[i].noEncryption)
        invariant staticRsa <==> exists i :: 0 <= i < n && e.accepted[i].staticRsa
      {
        weak := weak || e.accepted[n].notApproved || e.accepted[n].noEncryption;
        staticRsa := staticRsa || e.accepted[n].staticRsa;
      }
    }

    method ProtocolBreaches(e: Evidence) returns (breaches: seq<Line>)
      ensures breaches == ProtocolLines(conf, profile, e)
    {
      hide When, NegotiatedLines;
      var weak, staticRsa := AcceptedBreaches(e);
      breaches := NegotiatedBreaches(e);
      breaches := Note(breaches, weak, "unapproved_cipher_accepted (ISM-0471)", conf.unapprovedAccepted);
      breaches := Note(breaches, staticRsa, "static_rsa_key_transport_accepted (ISM-1372, ISM-1453)",
          conf.noForwardSecrecy);
    }

    method NegotiatedBreaches(e: Evidence) returns (breaches: seq<Line>)
      ensures breaches == NegotiatedLines(conf, profile, e)
    {
      hide When;
      var suite := e.suite;
      var version := e.tlsVersion.Some? && e.tlsVersion.value !in profile.approvedVersions;
      breaches := Note([], version, "tls_version_not_approved (ISM-1139)", conf.versionNotApproved);
      assert breaches == When(version, "tls_version_not_approved (ISM-1139)", conf.versionNotApproved);
      breaches := Note(breaches, suite.Some? && !suite.value.gcm, "cipher_not_aes_gcm (ISM-1369)", conf.notAesGcm);
      breaches := Note(breaches, suite.Some? && suite.value.after2030, "symmetric_not_approved_after_2030",
          conf.symmetricAfter2030);
      breaches := Note(breaches, suite.Some? && suite.value.notApproved, "symmetric_not_approved",
          conf.symmetricNotApproved);
      breaches := Note(breaches, suite.Some? && suite.value.noEncryption, "no_encryption (ISM-0469, ISM-1369)",
          conf.noEncryption);
      breaches := Note(breaches, suite.Some? && e.tlsVersion != Some("TLSv1.3") && !suite.value.ephemeral,
                       "no_forward_secrecy (ISM-1372, ISM-1453)", conf.noForwardSecrecy);
    }

    method NameBreaches(finding: HostFinding, breaches: seq<Line>)
      modifies finding
      ensures finding.View() == old(finding.View()).(ruleFindings := AddMissing(old(finding.ruleFindings),
              Labels(breaches)))
    {
      ghost var labels := Labels(breaches);
      ghost var v := finding.View();
      for i := 0 to |breaches|
        invariant finding.View() == v.(ruleFindings := AddMissing(v.ruleFindings, labels[..i]))
      {
        assert labels[..i + 1] == labels[..i] + [labels[i]];
        AddMissingNext(v.ruleFindings, labels[..i], labels[i]);
        if breaches[i].item !in finding.ruleFindings {
          finding.ruleFindings := finding.ruleFindings + [breaches[i].item];
        }
      }
      assert labels[..|breaches|] == labels;
    }

    method Penalty(breaches: seq<Line>) returns (total: nat)
      ensures total == Sum(breaches)
    {
      total := 0;
      for i := 0 to |breaches|
        invariant total == Sum(breaches[..i])
      {
        var last := [breaches[i]];
        assert breaches[..i + 1] == breaches[..i] + last;
        SumAppend(breaches[..i], last);
        assert last[1..] == [];
        total := total + breaches[i].points;
      }
      assert breaches[..|breaches|] == breaches;
    }

    method NoteCapability(finding: HostFinding)
      modifies finding
      ensures var v := old(finding.View());
              finding.View() == if Exceeds(profile, finding.evidence)
                then v.(exceedsDefault := true,
                        ruleFindings := v.ruleFindings + ["capability_exceeds_default_negotiation"])
                else v
    {
      var e := finding.evidence;
      if e.bestGroup.Some? && e.bestGroup != e.group {
        var best := GroupRank(profile.classifyGroup(e.bestGroup.value));
        var current := GroupRank(profile.classifyGroup(GroupName(e)));
        if best < current {
          finding.capabilityExceedsDefault := true;
          finding.ruleFindings := finding.ruleFindings + ["capability_exceeds_default_negotiation"];
        }
      }
    }

    method ScoreTlsConfidentiality(finding: HostFinding)
      modifies finding
      ensures finding.View() == ScoreTlsConf(conf, profile, finding.evidence, old(finding.View()))
    {
      hide ProtocolLines, Exceeds, AddMissing, Labels, TlsLines, TlsSubtotal, ObsoleteLines, ObsoleteSubtotal;
      var e := finding.evidence;
      var breaches := ProtocolBreaches(e);
      NameBreaches(finding, breaches);
      NoteCapability(finding);
      var penalty := Penalty(breaches);
      if NO_TLS in finding.validationFailures {
        finding.confidentialityScore := Some(conf.cap);
        finding.pqStatus := NotSupported;
        finding.pqReadiness := ClassicalOnly;
        finding.confidentialityExplanation := AtCap;
        finding.ruleFindings := finding.ruleFindings + ["no_tls_offered (ISM-1139)"];
      } else if e.obsolete {
        var score, lines := ObsoleteCharges(e, breaches, penalty);
        finding.confidentialityScore := Some(Min(conf.cap, conf.scale(e.criticality, score)));
        finding.pqStatus := NotSupported;
        finding.pqReadiness := ClassicalOnly;
        finding.confidentialityExplanation := Breakdown(lines, score);
      } else if e.group.None? || finding.pqStatus == NotDeterminable {
        finding.confidentialityScore := None;
        finding.pqReadiness := Unknown;
        finding.confidentialityExplanation := NotMeasured;
      } else {
        finding.pqReadiness := profile.readiness(profile.classifyGroup(e.group.value));
        var score, lines := TlsCharges(e, e.group.value, finding.pqStatus, breaches, penalty);
        finding.confidentialityScore := Some(Min(conf.cap, conf.scale(e.criticality, score)));
        finding.confidentialityExplanation := Breakdown(lines, score);
      }
    }

    method ObsoleteCharges(e: Evidence, breaches: seq<Line>, penalty: nat) returns (score: nat, lines: seq<Line>)
      requires breaches == ProtocolLines(conf, profile, e) && penalty == Sum(breaches)
      ensures score == ObsoleteSubtotal(conf, profile, e) && lines == ObsoleteLines(conf, profile, e)
    {
      hide ProtocolLines, NegotiatedPenalty, UnseenPenalty;
      ProtocolSum(conf, profile, e);
      score := conf.noPqGroup + conf.keyExchange.notApproved + penalty;
      lines := [Line("key exchange", conf.keyExchange.notApproved), Line("pq_state not_supported", conf.noPqGroup)]
          + breaches;
    }

    method TlsCharges(e: Evidence, group: string, status: PqStatus, breaches: seq<Line>, penalty: nat)
      returns (score: nat, lines: seq<Line>)
      requires breaches == ProtocolLines(conf, profile, e) && penalty == Sum(breaches)
      ensures score == TlsSubtotal(conf, profile, e, group, status)
              && lines == TlsLines(conf, profile, e, group, status)
    {
      hide ProtocolLines, NegotiatedPenalty, UnseenPenalty, When, LifetimePoints, LifetimeLines;
      ProtocolSum(conf, profile, e);
      score := conf.keyExchange.Of(profile.classifyGroup(group));
      lines := [Line("key exchange", score)] + breaches;
      score, lines := Charge(score, lines, status == NotSupported, "pq_state not_supported", conf.noPqGroup);
      score, lines := ChargeLifetime(score, lines, e.lifetime);
      score := score + penalty;
    }

    /** One pass over the chain: its weakest signature, its hashes and the worst class behind the leaf. */
    method WalkChain(certs: Certificates, fingerprints: seq<string>)
      returns (seen: bool, weakest: Classification, hashes: seq<string>, behindLeaf: Classification)
      ensures var chain := Known(certs, fingerprints);
              && (seen <==> chain != []) && weakest == Worst(chain, APPROVED)
              && (forall names :: HasHash(chain, names) <==> exists i :: 0 <= i < |hashes| && hashes[i] in names)
      ensures |fingerprints| > 1 ==> behindLeaf == Worst(Known(certs, fingerprints[1..]), APPROVED)
    {
      seen, weakest, hashes, behindLeaf := false, APPROVED, [], APPROVED;
      for i := 0 to |fingerprints|
        invariant seen <==> Known(certs, fingerprints[..i]) != []
        invariant weakest == Worst(Known(certs, fingerprints[..i]), APPROVED)
        invariant behindLeaf == if i > 1 then Worst(Known(certs, fingerprints[1..i]), APPROVED) else APPROVED
        invariant hashes == Hashes(Known(certs, fingerprints[..i]))
      {
        KnownNext(certs, fingerprints, 0, i);
        assert fingerprints[0..i] == fingerprints[..i] && fingerprints[0..i + 1] == fingerprints[..i + 1];
        if i > 0 {
          KnownNext(certs, fingerprints, 1, i);
        }
        if fingerprints[i] in certs {
          var cert := certs[fingerprints[i]];
          WorstNext(Known(certs, fingerprints[..i]), cert, APPROVED);
          HashesNext(Known(certs, fingerprints[..i]), cert);
          if i > 0 {
            WorstNext(Known(certs, fingerprints[1..i]), cert, APPROVED);
          }
          if !seen || Severity(cert.class_) > Severity(weakest) {
            seen, weakest := true, cert.class_;
          }
          if cert.hash.Some? {
            hashes := hashes + [cert.hash.value];
          }
          if i > 0 && |fingerprints| > 1 && Severity(cert.class_) > Severity(behindLeaf) {
            behindLeaf := cert.class_;
          }
        } else {
          assert Known(certs, fingerprints[..i + 1]) == Known(certs, fingerprints[..i]);
          assert i > 0 ==> Known(certs, fingerprints[1..i + 1]) == Known(certs, fingerprints[1..i]);
        }
      }
      assert fingerprints[..|fingerprints|] == fingerprints;
      assert |fingerprints| > 1 ==> fingerprints[1..|fingerprints|] == fingerprints[1..];
      forall names ensures HasHash(Known(certs, fingerprints), names)
          <==> exists i :: 0 <= i < |hashes| && hashes[i] in names {
        HashesOf(Known(certs, fingerprints), names);
      }
    }

    method ChargeHash(score: nat, lines: seq<Line>, ghost chain: seq<Certificate>, hashes: seq<string>)
      returns (score': nat, lines': seq<Line>)
      requires forall names :: HasHash(chain, names) <==> exists i :: 0 <= i < |hashes| && hashes[i] in names
      ensures score' == score + HashPoints(auth, profile, chain) && lines' == lines + HashLines(auth, profile, chain)
    {
      score', lines' := score, lines;
      if exists i :: 0 <= i < |hashes| && hashes[i] in profile.failedHashes {
        score', lines' := Charge(score, lines, true, "worst hash in chain: NOT_APPROVED", auth.hashNotApproved);
      } else if exists i :: 0 <= i < |hashes| && hashes[i] in profile.hashesUntil2030 {
        score', lines' := Charge(score, lines, true, "worst hash in chain: NOT_APPROVED_AFTER_2030",
            auth.hashAfter2030);
      } else if exists i :: 0 <= i < |hashes| && hashes[i] in profile.approvedHashes {
        score', lines' := Charge(score, lines, true, "worst hash in chain: APPROVED", 0);
      }
    }

    method ChargeExpiry(score: nat, lines: seq<Line>, leaf: Option<Certificate>)
      returns (score': nat, lines': seq<Line>)
      ensures score' == score + ExpiryPoints(auth, profile, leaf) && lines' == lines + ExpiryLines(auth, profile, leaf)
    {
      score', lines' := score, lines;
      if leaf.Some? && leaf.value.notAfter.Some? {
        if leaf.value.notAfter.value > profile.complete {
          score', lines' := Charge(score, lines, true, "notAfter > 2030", auth.notAfter2030);
        } else if leaf.value.notAfter.value > profile.started {
          score', lines' := Charge(score, lines, true, "notAfter > 2028", auth.notAfter2028);
        }
      }
    }

    /** What is found about the leaf's key; a preference is noted, and only counted up to a cap. */
    method JudgeKey(e: Evidence, leaf: Option<Certificate>)
      returns (belowMinimum: bool, belowPreferred: bool, curveNotPreferred: bool, curveViolation: bool)
      ensures belowMinimum == BelowMinimum(profile, leaf) && belowPreferred == BelowPreferred(profile, leaf)
      ensures curveNotPreferred == CurveNotPreferred(profile, leaf)
              && curveViolation == CurveViolation(profile, e, leaf)
    {
      belowMinimum, belowPreferred, curveNotPreferred := false, false, false;
      if leaf.Some? && leaf.value.keyAlgorithm in profile.keyRules {
        var key, rule := leaf.value, profile.keyRules[leaf.value.keyAlgorithm];
        if key.keySize.Some? && key.keySize.value < rule.minimum {
          belowMinimum := true;
        } else if key.keySize.Some? && rule.preferred.Some? && key.keySize.value < rule.preferred.value {
          belowPreferred := true;
        }
        curveNotPreferred := rule.preferredCurve.Some? && key.keyCurve.Some? && key.keyCurve != rule.preferredCurve;
      }
      curveViolation := e.level in profile.curveRules && leaf.Some? && leaf.value.keyCurve.Some?
                        && leaf.value.keyCurve.value !in profile.curveRules[e.level];
    }

    method ChargeKey(score: nat, lines: seq<Line>, e: Evidence, leaf: Option<Certificate>)
      returns (score': nat, lines': seq<Line>, notes: nat, names: seq<string>)
      ensures score' == score + If(BelowMinimum(profile, leaf), auth.belowMinimum)
              + If(CurveViolation(profile, e, leaf), auth.curveViolation)
      ensures lines' == lines
                + When(BelowMinimum(profile, leaf), "key_size_below_minimum (ISM-0472/0474/0475/0476)",
                    auth.belowMinimum)
                + When(BelowPreferred(profile, leaf), "key_size_below_preferred (informational)", auth.belowPreferred)
                + When(CurveNotPreferred(profile, leaf), "curve_below_preferred (informational)", auth.belowPreferred)
                + When(CurveViolation(profile, e, leaf), "classification_curve_violation (ISM-1761/1762/1763/1764)",
                    auth.curveViolation)
      ensures notes == InformationalPoints(auth, profile, leaf) && names == KeyFindings(profile, e, leaf)
    {
      var belowMinimum, belowPreferred, curveNotPreferred, curveViolation := JudgeKey(e, leaf);
      hide BelowMinimum, BelowPreferred, CurveNotPreferred, CurveViolation, When;
      score', lines' := Charge(score, lines, belowMinimum, "key_size_below_minimum (ISM-0472/0474/0475/0476)",
          auth.belowMinimum);
      notes, lines' := Charge(0, lines', belowPreferred, "key_size_below_preferred (informational)",
          auth.belowPreferred);
      notes, lines' := Charge(notes, lines', curveNotPreferred, "curve_below_preferred (informational)",
          auth.belowPreferred);
      score', lines' := Charge(score', lines', curveViolation,
          "classification_curve_violation (ISM-1761/1762/1763/1764)", auth.curveViolation);
      names := NameKeyFindings(e, leaf, belowMinimum, belowPreferred, curveNotPreferred, curveViolation);
    }

    method NameKeyFindings(e: Evidence, leaf: Option<Certificate>, belowMinimum: bool, belowPreferred: bool,
                           curveNotPreferred: bool,
                           curveViolation: bool) returns (names: seq<string>)
      requires belowMinimum == BelowMinimum(profile, leaf) && belowPreferred == BelowPreferred(profile, leaf)
      requires curveNotPreferred == CurveNotPreferred(profile, leaf)
               && curveViolation == CurveViolation(profile, e, leaf)
      ensures names == KeyFindings(profile, e, leaf)
    {
      hide BelowMinimum, BelowPreferred, CurveNotPreferred, CurveViolation;
      names := AddName([], belowMinimum, "key_size_below_minimum (ISM-0472/0474/0475/0476)");
      names := AddName(names, belowPreferred, "key_size_below_preferred (informational)");
      names := AddName(names, curveNotPreferred, "curve_below_preferred (informational)");
      names := AddName(names, curveViolation, "classification_curve_violation (ISM-1761/1762/1763/1764)");
    }

    method AddName(names: seq<string>, condition: bool, name: string) returns (names': seq<string>)
      ensures names' == names + if condition then [name] else []
    {
      names' := if condition then names + [name] else names;
    }

    method ChargeSignatures(certs: Certificates, fingerprints: seq<string>, leaf: Option<Certificate>)
      returns (score: nat, lines: seq<Line>, behindLeaf: Classification)
      ensures var chain := Known(certs, fingerprints);
              && score == SignaturePoints(auth, chain) + HashPoints(auth, profile, chain)
                  + ExpiryPoints(auth, profile, leaf)
              && lines == When(chain != [], "weakest signature in chain", auth.signature.Of(Worst(chain, APPROVED)))
                          + HashLines(auth, profile, chain) + ExpiryLines(auth, profile, leaf)
      ensures |fingerprints| > 1 ==> behindLeaf == Worst(Known(certs, fingerprints[1..]), APPROVED)
    {
      hide When, HashPoints, HashLines, ExpiryPoints, ExpiryLines, Known, Worst, HasHash;
      ghost var chain := Known(certs, fingerprints);
      var seen, weakest, hashes;
      seen, weakest, hashes, behindLeaf := WalkChain(certs, fingerprints);
      score, lines := Charge(0, [], seen, "weakest signature in chain", auth.signature.Of(weakest));
      assert lines == When(seen, "weakest signature in chain", auth.signature.Of(weakest));
      score, lines := ChargeHash(score, lines, chain, hashes);
      score, lines := ChargeExpiry(score, lines, leaf);
    }

    method ChargeChain(certs: Certificates, e: Evidence, leaf: Option<Certificate>, failures: seq<string>)
      returns (score: nat, lines: seq<Line>, names: seq<string>, behindLeaf: Classification)
      requires e.fingerprints != [] && leaf == Leaf(certs, e)
      ensures var chain := Known(certs, e.fingerprints);
              && score == ChainSubtotal(auth, profile, e, chain, leaf, failures)
              && lines == ChainLines(auth, profile, e, chain, leaf, failures)
      ensures names == KeyFindings(profile, e, leaf)
      ensures |e.fingerprints| > 1 ==> behindLeaf == Worst(Known(certs, e.fingerprints[1..]), APPROVED)
    {
      hide When, HashPoints, HashLines, ExpiryPoints, ExpiryLines, BelowMinimum, BelowPreferred, CurveNotPreferred,
           CurveViolation,
           KeyFindings, InformationalPoints, Known, Worst, HasHash, Leaf, SignaturePoints;
      score, lines, behindLeaf := ChargeSignatures(certs, e.fingerprints, leaf);
      var penalty := |set n | n in failures| * auth.failure;
      var capped := if penalty < auth.failureCap then penalty else auth.failureCap;
      score, lines := Charge(score, lines, capped > 0, "validation failures", capped);
      assert capped == FailurePoints(auth, failures);
      hide FailurePoints;
      var notes;
      score, lines, notes, names := ChargeKey(score, lines, e, leaf);
      score := score + Min(notes, auth.informationalCap);
    }

    method NoteLoneCertificate(finding: HostFinding, certs: Certificates)
      modifies finding
      ensures var e, v := finding.evidence, old(finding.View());
              finding.View() == if |e.fingerprints| == 1
                then v.(failures := ChainFailures(certs, e, v.failures), chainClass := Some(REVIEW))
                else v
    {
      var e := finding.evidence;
      if |e.fingerprints| == 1 {
        var leaf := Leaf(certs, e);
        var name := if leaf.Some? && leaf.value.selfSigned then SELF_SIGNED else INCOMPLETE_CHAIN;
        var one := [name];
        assert one[1..] == [];
        assert ChainFailures(certs, e, finding.validationFailures) == AddMissing(finding.validationFailures, one);
        assert AddMissing(finding.validationFailures, one)
            == if name in finding.validationFailures then finding.validationFailures
               else finding.validationFailures + [name];
        if name !in finding.validationFailures {
          finding.validationFailures := finding.validationFailures + one;
        }
        finding.chainClassification := Some(REVIEW);
      }
    }

    method ScoreTlsAuthentication(finding: HostFinding, certs: Certificates)
      modifies finding
      ensures finding.View() == ScoreTlsAuth(auth, profile, certs, finding.evidence, old(finding.View()))
    {
      hide ChainSubtotal, ChainLines, KeyFindings, Known, Worst, Leaf;
      var e := finding.evidence;
      if e.obsolete {
        finding.chainClassification := Some(REVIEW);
        finding.authenticationScore := Some(Min(auth.cap, auth.scale(e.criticality, auth.obsolete)));
        finding.authenticationExplanation := Breakdown([Line("obsolete_tls review penalty", auth.obsolete)],
            auth.obsolete);
        return;
      }
      if e.fingerprints == [] {
        finding.chainClassification := None;
        finding.authenticationScore := None;
        finding.authenticationExplanation := NotMeasured;
        return;
      }
      NoteLoneCertificate(finding, certs);
      assert |e.fingerprints| != 1 ==>
               finding.validationFailures == ChainFailures(certs, e, finding.validationFailures);
      hide ChainFailures;
      var score, lines, names, behindLeaf := ChargeChain(certs, e, Leaf(certs, e), finding.validationFailures);
      if |e.fingerprints| > 1 {
        finding.chainClassification := Some(behindLeaf);
      }
      finding.ruleFindings := finding.ruleFindings + names;
      finding.authenticationScore := Some(Min(auth.cap, auth.scale(e.criticality, score)));
      finding.authenticationExplanation := Breakdown(lines, score);
    }

    // ------------------------------------------------------------- the whole

    method CalculateScores(finding: HostFinding, certs: Certificates)
      modifies finding
      ensures finding.View() == Score(conf, auth, profile, certs, finding.evidence, old(finding.View()))
    {
      hide ScoreTlsConf, ScoreTlsAuth, Spec.ScoreSsh, Spec.ScoreIpsec, Spec.ScoreDomain;
      match finding.evidence.service {
        case Ssh => ScoreSsh(finding);
        case Ipsec => ScoreIpsec(finding);
        case Domain => ScoreDomain(finding);
        case Tls =>
          ScoreTlsConfidentiality(finding);
          ScoreTlsAuthentication(finding, certs);
      }
    }

    method AssignReadinessBand(finding: HostFinding)
      modifies finding
      ensures finding.View() == Banded(bands, finding.evidence, old(finding.View()))
    {
      var e := finding.evidence;
      ghost var v := finding.View();
      if bands.levels == map[] || finding.confidentialityScore.None? {
        return;
      }
      if (exists i :: 0 <= i < |finding.validationFailures| && finding.validationFailures[i] in bands.disqualifiers)
         || (bands.disqualifyObsolete && e.obsolete) {
        finding.readinessBand := Some(0);
        return;
      }
      if finding.pqReadiness == Unknown {
        return;
      }
      var band := FindBand(finding);
      finding.readinessBand := Some(band);
    }

    method FindBand(finding: HostFinding) returns (band: nat)
      requires finding.confidentialityScore.Some?
      ensures band == BandOf(bands, finding.evidence, finding.View())
    {
      hide Meets, BandOf;
      var order := SortedDown(bands.levels.Keys);
      for i := 0 to |order|
        invariant forall j :: 0 <= j < i ==> !Meets(bands.levels[order[j]], finding.evidence, finding.View())
      {
        assert order[i] in order;
        var met := MeetsLevel(finding, bands.levels[order[i]]);
        if met {
          FirstMetIsBand(finding.evidence, finding.View(), order, i);
          return order[i];
        }
      }
      NoneMetIsZero(finding.evidence, finding.View(), order);
      return 0;
    }

    method MeetsLevel(finding: HostFinding, rules: Rules) returns (met: bool)
      requires finding.confidentialityScore.Some?
      ensures met == Meets(rules, finding.evidence, finding.View())
    {
      if rules.readiness != {} && finding.pqReadiness !in rules.readiness {
        return false;
      }
      if rules.needsPq && !finding.evidence.offersPq {
        return false;
      }
      if rules.maxConf.Some? && finding.confidentialityScore.value > rules.maxConf.value {
        return false;
      }
      if rules.maxAuth.Some?
         && (finding.authenticationScore.None? || finding.authenticationScore.value > rules.maxAuth.value) {
        return false;
      }
      return true;
    }

    lemma FirstMetIsBand(e: Evidence, v: Verdict, order: seq<nat>, i: nat)
      requires order == SortedDown(bands.levels.Keys) && i < |order|
      requires forall j :: 0 <= j < i ==> !Meets(bands.levels[order[j]], e, v)
      requires Meets(bands.levels[order[i]], e, v)
      ensures BandOf(bands, e, v) == order[i]
    {
    }

    lemma NoneMetIsZero(e: Evidence, v: Verdict, order: seq<nat>)
      requires order == SortedDown(bands.levels.Keys)
      requires forall j :: 0 <= j < |order| ==> order[j] in bands.levels && !Meets(bands.levels[order[j]], e, v)
      ensures BandOf(bands, e, v) == 0
    {
    }
  }

  /** The hashes of a chain, in order. */
  function Hashes(chain: seq<Certificate>): seq<string> {
    if chain == [] then []
    else (if chain[0].hash.Some? then [chain[0].hash.value] else []) + Hashes(chain[1..])
  }

  lemma {:induction false} HashesNext(chain: seq<Certificate>, c: Certificate)
    ensures Hashes(chain + [c]) == Hashes(chain) + if c.hash.Some? then [c.hash.value] else []
  {
    var last := [c];
    if chain == [] {
      assert chain + last == last && last[1..] == [];
    } else {
      assert (chain + last)[1..] == chain[1..] + last;
      HashesNext(chain[1..], c);
    }
  }

  lemma {:induction false} HashesOf(chain: seq<Certificate>, names: set<string>)
    ensures HasHash(chain, names) <==> exists i :: 0 <= i < |Hashes(chain)| && Hashes(chain)[i] in names
  {
    if chain != [] {
      HashesOf(chain[1..], names);
      var rest := chain[1..];
      var head := if chain[0].hash.Some? then [chain[0].hash.value] else [];
      assert Hashes(chain) == head + Hashes(rest);
      if HasHash(chain, names) {
        var i :| 0 <= i < |chain| && chain[i].hash.Some? && chain[i].hash.value in names;
        if i == 0 {
          assert Hashes(chain)[0] in names;
        } else {
          assert rest[i - 1] == chain[i];
          var j :| 0 <= j < |Hashes(rest)| && Hashes(rest)[j] in names;
          assert Hashes(chain)[|head| + j] in names;
        }
      }
      if exists j :: 0 <= j < |Hashes(chain)| && Hashes(chain)[j] in names {
        var j :| 0 <= j < |Hashes(chain)| && Hashes(chain)[j] in names;
        if j < |head| {
          assert chain[0].hash.value in names;
        } else {
          assert Hashes(rest)[j - |head|] in names;
          var i :| 0 <= i < |rest| && rest[i].hash.Some? && rest[i].hash.value in names;
          assert chain[i + 1] == rest[i];
        }
      }
    }
  }
}
