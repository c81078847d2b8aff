/** What the scores promise: explanations that add up, order, indifference and repeatability. */
module ScoringLaws {
  import opened Bytes
  import opened ScoringModel

  // ------------------------------------------------- the explanation adds up

  lemma {:induction false} SumAppend(a: seq<Line>, b: seq<Line>)
    ensures Sum(a + b) == Sum(a) + Sum(b)
  {
    if a == [] {
      assert a + b == b;
    } else {
      SumAppend(a[1..], b);
      assert (a + b)[1..] == a[1..] + b;
    }
  }

  lemma SumWhen(condition: bool, item: string, points: nat)
    ensures Sum(When(condition, item, points)) == If(condition, points)
  {
  }

  lemma WhenNot(item: string, points: nat)
    ensures When(false, item, points) == []
  {
  }

  lemma SumThree(a: seq<Line>, b: seq<Line>, c: seq<Line>)
    ensures Sum(a + b + c) == Sum(a) + Sum(b) + Sum(c)
  {
    SumAppend(a, b);
    SumAppend(a + b, c);
  }

  lemma SumFour(a: seq<Line>, b: seq<Line>, c: seq<Line>, d: seq<Line>)
    ensures Sum(a + b + c + d) == Sum(a) + Sum(b) + Sum(c) + Sum(d)
  {
    SumThree(a, b, c);
    SumAppend(a + b + c, d);
  }

  lemma SumOne(item: string, points: nat)
    ensures Sum([Line(item, points)]) == points
  {
  }

  lemma ProtocolSum(w: ConfWeights, p: Profile, e: Evidence)
    ensures Sum(ProtocolLines(w, p, e)) == NegotiatedPenalty(w, p, e) + UnseenPenalty(w, e)
  {
    hide When, If, Sum, WeakAccepted, StaticRsaAccepted, NoForwardSecrecy, VersionBreach;
    var a := When(VersionBreach(p, e), "tls_version_not_approved (ISM-1139)", w.versionNotApproved);
    var b := When(e.suite.Some? && !e.suite.value.gcm, "cipher_not_aes_gcm (ISM-1369)", w.notAesGcm);
    var c := When(e.suite.Some? && e.suite.value.after2030, "symmetric_not_approved_after_2030", w.symmetricAfter2030);
    var d := When(e.suite.Some? && e.suite.value.notApproved, "symmetric_not_approved", w.symmetricNotApproved);
    var n := When(e.suite.Some? && e.suite.value.noEncryption, "no_encryption (ISM-0469, ISM-1369)", w.noEncryption);
    var f := When(NoForwardSecrecy(e), "no_forward_secrecy (ISM-1372, ISM-1453)", w.noForwardSecrecy);
    var g := When(WeakAccepted(e), "unapproved_cipher_accepted (ISM-0471)", w.unapprovedAccepted);
    var h := When(StaticRsaAccepted(e), "static_rsa_key_transport_accepted (ISM-1372, ISM-1453)", w.noForwardSecrecy);
    SumFour(a, b, c, d);
    SumAppend(a + b + c + d, n);
    SumAppend(a + b + c + d + n, f);
    SumAppend(a + b + c + d + n + f, g);
    SumAppend(a + b + c + d + n + f + g, h);
    SumWhen(VersionBreach(p, e), "tls_version_not_approved (ISM-1139)", w.versionNotApproved);
    SumWhen(e.suite.Some? && !e.suite.value.gcm, "cipher_not_aes_gcm (ISM-1369)", w.notAesGcm);
    SumWhen(e.suite.Some? && e.suite.value.after2030, "symmetric_not_approved_after_2030", w.symmetricAfter2030);
    SumWhen(e.suite.Some? && e.suite.value.notApproved, "symmetric_not_approved", w.symmetricNotApproved);
    SumWhen(e.suite.Some? && e.suite.value.noEncryption, "no_encryption (ISM-0469, ISM-1369)", w.noEncryption);
    SumWhen(NoForwardSecrecy(e), "no_forward_secrecy (ISM-1372, ISM-1453)", w.noForwardSecrecy);
    SumWhen(WeakAccepted(e), "unapproved_cipher_accepted (ISM-0471)", w.unapprovedAccepted);
    SumWhen(StaticRsaAccepted(e), "static_rsa_key_transport_accepted (ISM-1372, ISM-1453)", w.noForwardSecrecy);
  }

  lemma LifetimeSum(w: ConfWeights, lifetime: int)
    ensures Sum(LifetimeLines(w, lifetime)) == LifetimePoints(w, lifetime)
  {
  }

  lemma TlsSum(w: ConfWeights, p: Profile, e: Evidence, group: string, status: PqStatus)
    ensures Sum(TlsLines(w, p, e, group, status)) == TlsSubtotal(w, p, e, group, status)
  {
    hide ProtocolLines, LifetimeLines, LifetimePoints, NegotiatedPenalty, UnseenPenalty;
    var points := w.keyExchange.Of(p.classifyGroup(group));
    SumFour([Line("key exchange", points)], ProtocolLines(w, p, e),
            When(status == NotSupported, "pq_state not_supported", w.noPqGroup), LifetimeLines(w, e.lifetime));
    SumOne("key exchange", points);
    ProtocolSum(w, p, e);
    LifetimeSum(w, e.lifetime);
    SumWhen(status == NotSupported, "pq_state not_supported", w.noPqGroup);
  }

  lemma ObsoleteSum(w: ConfWeights, p: Profile, e: Evidence)
    ensures Sum(ObsoleteLines(w, p, e)) == ObsoleteSubtotal(w, p, e)
  {
    hide ProtocolLines, NegotiatedPenalty, UnseenPenalty;
    var two := [Line("key exchange", w.keyExchange.notApproved), Line("pq_state not_supported", w.noPqGroup)];
    SumAppend(two, ProtocolLines(w, p, e));
    ProtocolSum(w, p, e);
    assert two[1..] == [Line("pq_state not_supported", w.noPqGroup)];
    SumOne("pq_state not_supported", w.noPqGroup);
  }

  lemma ChainSum(w: AuthWeights, p: Profile, e: Evidence, chain: seq<Certificate>, leaf: Option<Certificate>,
                 failures: seq<string>)
    ensures Sum(ChainLines(w, p, e, chain, leaf, failures))
         == MandatoryPoints(w, p, e, chain, leaf, failures) + InformationalPoints(w, p, leaf)
  {
    hide When, If, Sum, FailurePoints, BelowMinimum, BelowPreferred, CurveNotPreferred, CurveViolation, HasHash, Worst;
    var a := When(chain != [], "weakest signature in chain", w.signature.Of(Worst(chain, APPROVED)));
    var b := HashLines(w, p, chain);
    var c := ExpiryLines(w, p, leaf);
    var d := When(FailurePoints(w, failures) > 0, "validation failures", FailurePoints(w, failures));
    var f := When(BelowMinimum(p, leaf), "key_size_below_minimum (ISM-0472/0474/0475/0476)", w.belowMinimum);
    var g := When(BelowPreferred(p, leaf), "key_size_below_preferred (informational)", w.belowPreferred);
    var h := When(CurveNotPreferred(p, leaf), "curve_below_preferred (informational)", w.belowPreferred);
    var i := When(CurveViolation(p, e, leaf), "classification_curve_violation (ISM-1761/1762/1763/1764)",
        w.curveViolation);
    SumFour(a, b, c, d);
    SumAppend(a + b + c + d, f);
    SumAppend(a + b + c + d + f, g);
    SumAppend(a + b + c + d + f + g, h);
    SumAppend(a + b + c + d + f + g + h, i);
    HashSum(w, p, chain);
    ExpirySum(w, p, leaf);
    SumWhen(chain != [], "weakest signature in chain", w.signature.Of(Worst(chain, APPROVED)));
    SumWhenPositive("validation failures", FailurePoints(w, failures));
    SumWhen(BelowMinimum(p, leaf), "key_size_below_minimum (ISM-0472/0474/0475/0476)", w.belowMinimum);
    SumWhen(BelowPreferred(p, leaf), "key_size_below_preferred (informational)", w.belowPreferred);
    SumWhen(CurveNotPreferred(p, leaf), "curve_below_preferred (informational)", w.belowPreferred);
    SumWhen(CurveViolation(p, e, leaf), "classification_curve_violation (ISM-1761/1762/1763/1764)", w.curveViolation);
  }

  lemma SumWhenPositive(item: string, points: nat)
    ensures Sum(When(points > 0, item, points)) == points
  {
  }

  lemma HashSum(w: AuthWeights, p: Profile, chain: seq<Certificate>)
    ensures Sum(HashLines(w, p, chain)) == HashPoints(w, p, chain)
  {
  }

  lemma ExpirySum(w: AuthWeights, p: Profile, leaf: Option<Certificate>)
    ensures Sum(ExpiryLines(w, p, leaf)) == ExpiryPoints(w, p, leaf)
  {
  }

  lemma SshConfSum(w: ConfWeights, e: Evidence)
    ensures Sum(SshConfLines(w, e)) == SshConfSubtotal(w, e)
  {
    hide LifetimeLines, LifetimePoints, SshConfOffered, SshConfLabel, Best;
    var points := ClassPoints(w.keyExchange, Best(e.keyExchange));
    SumFour([Line("best key exchange offered", points)],
            When(!PostQuantum(Best(e.keyExchange)), "no post-quantum key exchange offered", w.noPqGroup),
            LifetimeLines(w, e.lifetime), When(SshConfOffered(w, e) > 0, SshConfLabel(e), SshConfOffered(w, e)));
    SumOne("best key exchange offered", points);
    LifetimeSum(w, e.lifetime);
    SumWhenPositive(SshConfLabel(e), SshConfOffered(w, e));
  }

  lemma SshAuthSum(w: AuthWeights, e: Evidence, failures: seq<string>)
    ensures Sum(SshAuthLines(w, e, failures)) == SshAuthSubtotal(w, e, failures)
  {
    hide SshAuthOffered, SshAuthLabel, WorstOffered;
    var points := ClassPoints(w.signature, WorstOffered(e.signature));
    SumThree([Line("weakest host key offered", points)],
        When(SshAuthOffered(w, e) > 0, SshAuthLabel(e), SshAuthOffered(w, e)),
             When(SSH_VERSION in failures, "ssh_version_not_approved (ISM-1506)", w.failure));
    SumOne("weakest host key offered", points);
    SumWhenPositive(SshAuthLabel(e), SshAuthOffered(w, e));
  }

  lemma IpsecConfSum(w: ConfWeights, e: Evidence, ruleFindings: seq<string>)
    ensures Sum(IpsecConfLines(w, e, ruleFindings)) == IpsecConfSubtotal(w, e, ruleFindings)
  {
    hide IpsecReadiness, IpsecCipherBreach;
    var points := ClassPoints(w.keyExchange, One(e.keyExchange));
    SumFour([Line("IKE D-H group (ISM-0999)", points)],
            When(IpsecCipherBreach(e), "encryption (ISM-1771)", w.symmetricNotApproved),
            When(NOT_AES_GCM in ruleFindings, "encryption is not AES-GCM (ISM-1771)", w.notAesGcm),
            When(IpsecReadiness(e) == ClassicalOnly, "no post-quantum key exchange", w.noPqGroup));
    SumOne("IKE D-H group (ISM-0999)", points);
  }

  lemma IpsecAuthSum(w: AuthWeights, e: Evidence, failures: seq<string>)
    ensures Sum(IpsecAuthLines(w, e, failures)) == IpsecAuthSubtotal(w, e, failures)
  {
    var points := ClassPoints(w.signature, One(e.mac));
    SumThree([Line("integrity (ISM-0998)", points)], When(IKE_VERSION in failures, IKE_VERSION, w.failure),
             When(NO_INTEGRITY in failures, NO_INTEGRITY, w.failure));
    SumOne("integrity (ISM-0998)", points);
  }

  lemma {:induction false} FailureSum(points: nat, failures: seq<string>)
    ensures Sum(FailureLines(points, failures)) == |failures| * points
  {
    if failures != [] {
      FailureSum(points, failures[1..]);
      assert FailureLines(points, failures)[1..] == FailureLines(points, failures[1..]);
    }
  }

  /** Nothing scored and explained beforehand. */
  ghost predicate Fresh(v: Verdict) {
    && v.conf.None? && v.auth.None? && v.readiness == Unknown && v.band.None?
    && v.confWhy == Unexplained && v.authWhy == Unexplained
  }

  /** A breakdown whose lines sum to its subtotal, of which the score is the capped scaling. */
  ghost predicate Accounts(why: Explanation, cap: nat, scale: Scale, criticality: Criticality, score: Option<nat>) {
    match why
    case Unexplained => score.None?
    case NotMeasured => score.None?
    case AtCap => score == Some(cap)
    case Breakdown(lines, subtotal) =>
      Sum(lines) == subtotal && score == Some(Capped(cap, scale, criticality, subtotal))
  }

  /** A TLS chain is assessed, not skipped for an obsolete protocol or for want of certificates. */
  predicate ChainAssessed(e: Evidence) {
    e.service == Tls && !e.obsolete && e.fingerprints != []
  }

  /** On every path of every service the listed points are the score. In a TLS chain the informational notes are
      listed in full and counted up to their cap, so there the list adds up exactly when they fit. */
  lemma ExplanationAddsUp(cw: ConfWeights, aw: AuthWeights, p: Profile, certs: Certificates, e: Evidence, v: Verdict,
                          r: Verdict)
    requires Fresh(v) && r == Score(cw, aw, p, certs, e, v)
    ensures Accounts(r.confWhy, cw.cap, cw.scale, e.criticality, r.conf)
    ensures Accounts(r.authWhy, aw.cap, aw.scale, e.criticality, r.auth)
       <==> (ChainAssessed(e) ==> InformationalPoints(aw, p, Leaf(certs, e)) <= aw.informationalCap)
  {
    hide Sum, TlsLines, TlsSubtotal, ObsoleteLines, ObsoleteSubtotal, ChainLines, MandatoryPoints, InformationalPoints,
         SshConfLines, SshConfSubtotal, SshAuthLines, SshAuthSubtotal, IpsecConfLines, IpsecConfSubtotal,
         IpsecAuthLines, IpsecAuthSubtotal,
         ProtocolLines, Exceeds, AddMissing, Known, KeyFindings, Capped, FailureLines;
    match e.service {
      case Ssh =>
        hide ScoreTlsConf, ScoreTlsAuth;
        SshConfSum(cw, e);
        SshAuthSum(aw, e, v.failures);
      case Ipsec =>
        hide ScoreTlsConf, ScoreTlsAuth;
        IpsecConfSum(cw, e, v.ruleFindings);
        IpsecAuthSum(aw, e, v.failures);
      case Domain =>
        hide ScoreTlsConf, ScoreTlsAuth;
        SumOne("all observed controls met", 0);
        FailureSum(aw.failure, v.failures);
      case Tls =>
        hide ScoreTlsConf, ScoreTlsAuth;
        TlsConfAccounts(cw, p, e, v);
        TlsAuthAccounts(aw, p, certs, e, ScoreTlsConf(cw, p, e, v));
    }
  }

  lemma TlsConfAccounts(w: ConfWeights, p: Profile, e: Evidence, v: Verdict)
    requires Fresh(v)
    ensures var c := ScoreTlsConf(w, p, e, v);
            Accounts(c.confWhy, w.cap, w.scale, e.criticality, c.conf) && c.auth == v.auth && c.authWhy == v.authWhy
  {
    hide Sum, TlsLines, TlsSubtotal, ObsoleteLines, ObsoleteSubtotal, ProtocolLines, Exceeds, AddMissing, Labels,
         Capped;
    if e.group.Some? {
      TlsSum(w, p, e, e.group.value, v.pqStatus);
    }
    ObsoleteSum(w, p, e);
  }

  lemma TlsAuthAccounts(w: AuthWeights, p: Profile, certs: Certificates, e: Evidence, c: Verdict)
    requires e.service == Tls
    ensures var r := ScoreTlsAuth(w, p, certs, e, c);
            && r.conf == c.conf && r.confWhy == c.confWhy
            && (Accounts(r.authWhy, w.cap, w.scale, e.criticality, r.auth)
                <==> (ChainAssessed(e) ==> InformationalPoints(w, p, Leaf(certs, e)) <= w.informationalCap))
  {
    hide Sum, ChainLines, MandatoryPoints, InformationalPoints, Known, KeyFindings, Capped, ChainFailures, Leaf;
    SumOne("obsolete_tls review penalty", w.obsolete);
    ChainSum(w, p, e, Known(certs, e.fingerprints), Leaf(certs, e), ChainFailures(certs, e, c.failures));
  }

  /** With the informational cap at least twice the weight of one note, the list always adds up. */
  lemma TwoNotesFit(w: AuthWeights, p: Profile, leaf: Option<Certificate>)
    requires 2 * w.belowPreferred <= w.informationalCap
    ensures InformationalPoints(w, p, leaf) <= w.informationalCap
  {
  }

  /** Scores stay within their caps. */
  lemma ScoresWithinCaps(cw: ConfWeights, aw: AuthWeights, p: Profile, certs: Certificates, e: Evidence, v: Verdict,
                         r: Verdict)
    requires Fresh(v) && r == Score(cw, aw, p, certs, e, v)
    ensures r.conf.Some? ==> r.conf.value <= cw.cap
    ensures r.auth.Some? ==> r.auth.value <= aw.cap
  {
    match e.service
    case Tls =>
      TlsConfWithin(cw, p, e, v);
      TlsAuthWithin(aw, p, certs, e, ScoreTlsConf(cw, p, e, v));
      hide ScoreTlsConf, ScoreTlsAuth;
    case Ssh =>
      hide SshConfLines, SshConfSubtotal, SshAuthLines, SshAuthSubtotal, Best, SshConfOffered, SshAuthOffered;
    case Ipsec =>
      hide IpsecConfLines, IpsecConfSubtotal, IpsecAuthLines, IpsecAuthSubtotal;
    case Domain =>
      hide DomainLines;
  }

  lemma TlsConfWithin(w: ConfWeights, p: Profile, e: Evidence, v: Verdict)
    requires Fresh(v)
    ensures var c := ScoreTlsConf(w, p, e, v); (c.conf.Some? ==> c.conf.value <= w.cap) && c.auth.None?
  {
    hide TlsLines, TlsSubtotal, ObsoleteLines, ObsoleteSubtotal, ProtocolLines, Exceeds, AddMissing, Labels;
  }

  lemma TlsAuthWithin(w: AuthWeights, p: Profile, certs: Certificates, e: Evidence, c: Verdict)
    requires c.auth.None?
    ensures var r := ScoreTlsAuth(w, p, certs, e, c); r.conf == c.conf && (r.auth.Some? ==> r.auth.value <= w.cap)
  {
    hide ChainLines, ChainSubtotal, Known, KeyFindings, ChainFailures, Leaf, Worst;
  }
}
