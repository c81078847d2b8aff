/** Weaker evidence never scores better, the order of a chain does not matter, and scoring twice
    is scoring once. */
module ScoringOrder {
  import opened Bytes
  import opened Sets
  import opened ScoringModel
  import opened ScoringLaws

  function CriticalityRank(c: Criticality): nat {
    match c
    case Low => 0
    case Medium => 1
    case High => 2
  }

  /** No score, or a score that is at most the other one. */
  predicate NotAbove(a: Option<nat>, b: Option<nat>) {
    a.Some? ==> b.Some? && a.value <= b.value
  }

  lemma CappedOrder(cap: nat, scale: Scale, c1: Criticality, c2: Criticality, x: nat, y: nat)
    requires ValidScale(scale) && x <= y && CriticalityRank(c1) <= CriticalityRank(c2)
    ensures Capped(cap, scale, c1, x) <= Capped(cap, scale, c2, y)
  {
  }

  lemma ByClassOrder(weights: ByClass, a: Classification, b: Classification)
    requires weights.Ordered() && Severity(a) <= Severity(b)
    ensures weights.Of(a) <= weights.Of(b)
  {
  }

  // ---------------------------------------------------- TLS confidentiality

  /** `b` is `a` with a worse group, longer-lived data, higher criticality or more suites accepted. */
  ghost predicate NoStronger(p: Profile, a: Evidence, b: Evidence) {
    && b == a.(criticality := b.criticality, lifetime := b.lifetime, group := b.group, accepted := b.accepted)
    && CriticalityRank(a.criticality) <= CriticalityRank(b.criticality)
    && a.lifetime <= b.lifetime
    && (a.group.Some? <==> b.group.Some?)
    && (a.group.Some? ==> Severity(p.classifyGroup(a.group.value)) <= Severity(p.classifyGroup(b.group.value)))
    && (forall i :: 0 <= i < |a.accepted| ==> a.accepted[i] in b.accepted)
  }

  lemma AcceptedOrder(a: Evidence, b: Evidence)
    requires forall i :: 0 <= i < |a.accepted| ==> a.accepted[i] in b.accepted
    ensures WeakAccepted(a) ==> WeakAccepted(b)
    ensures StaticRsaAccepted(a) ==> StaticRsaAccepted(b)
  {
  }

  lemma WeakerConfidentiality(w: ConfWeights, p: Profile, a: Evidence, b: Evidence, v: Verdict)
    requires ValidConf(w) && NoStronger(p, a, b)
    ensures NotAbove(ScoreTlsConf(w, p, a, v).conf, ScoreTlsConf(w, p, b, v).conf)
    ensures ScoreTlsConf(w, p, a, v).conf.Some? <==> ScoreTlsConf(w, p, b, v).conf.Some?
  {
    hide ProtocolLines, TlsLines, ObsoleteLines, Capped, AddMissing, Exceeds, WeakAccepted, StaticRsaAccepted,
         VersionBreach;
    AcceptedOrder(a, b);
    assert UnseenPenalty(w, a) <= UnseenPenalty(w, b);
    assert VersionBreach(p, a) == VersionBreach(p, b) by { VersionOnly(p, a, b); }
    assert NegotiatedPenalty(w, p, a) == NegotiatedPenalty(w, p, b);
    CappedOrder(w.cap, w.scale, a.criticality, b.criticality, ObsoleteSubtotal(w, p, a), ObsoleteSubtotal(w, p, b));
    if a.group.Some? {
      ByClassOrder(w.keyExchange, p.classifyGroup(a.group.value), p.classifyGroup(b.group.value));
      var x := TlsSubtotal(w, p, a, a.group.value, v.pqStatus);
      var y := TlsSubtotal(w, p, b, b.group.value, v.pqStatus);
      assert LifetimePoints(w, a.lifetime) <= LifetimePoints(w, b.lifetime);
      CappedOrder(w.cap, w.scale, a.criticality, b.criticality, x, y);
    }
  }

  lemma VersionOnly(p: Profile, a: Evidence, b: Evidence)
    requires a.tlsVersion == b.tlsVersion
    ensures VersionBreach(p, a) == VersionBreach(p, b)
  {
  }

  /** What a suite costs by what its name contains, forward secrecy aside. */
  function SuitePoints(w: ConfWeights, s: Suite): nat {
    If(!s.gcm, w.notAesGcm) + If(s.after2030, w.symmetricAfter2030) + If(s.notApproved, w.symmetricNotApproved)
    + If(s.noEncryption, w.noEncryption)
  }

  /** Negotiating this suite at this criticality scores the cap whenever there is a score at all. */
  ghost predicate AlwaysAtCap(w: ConfWeights, s: Suite, c: Criticality) {
    forall p: Profile, e: Evidence, v: Verdict :: e.suite == Some(s) && e.criticality == c ==>
      var conf := ScoreTlsConf(w, p, e, v).conf; conf.None? || conf == Some(w.cap)
  }

  /** A suite reaches the cap, whatever else is true of the endpoint, exactly when its own points and those of the best
      key exchange do, scaled for the criticality. */
  lemma SuiteReachesCap(w: ConfWeights, s: Suite, c: Criticality)
    requires ValidConf(w)
    ensures AlwaysAtCap(w, s, c) <==> w.scale(c, w.keyExchange.approved + SuitePoints(w, s)) >= w.cap
  {
    hide ScoreTlsConf, SuitePoints, Capped;
    if w.scale(c, w.keyExchange.approved + SuitePoints(w, s)) >= w.cap {
      forall p: Profile, e: Evidence, v: Verdict | e.suite == Some(s) && e.criticality == c
        ensures var conf := ScoreTlsConf(w, p, e, v).conf; conf.None? || conf == Some(w.cap)
      {
        AtCap(w, s, p, e, v);
      }
    }
    if AlwaysAtCap(w, s, c) {
      var e, v := Strongest(s, c), NOT_SCORED;
      StrongestScore(w, s, c);
      var conf := ScoreTlsConf(w, STRONGEST, e, v).conf;
      assert conf.None? || conf == Some(w.cap);
      CappedAtCap(w, c, w.keyExchange.approved + SuitePoints(w, s));
    }
  }

  /** A suite without encryption reaches the cap at every criticality exactly when it does at the lowest. */
  lemma NoEncryptionReachesCap(w: ConfWeights, s: Suite)
    requires ValidConf(w) && s.noEncryption
    ensures (forall c :: AlwaysAtCap(w, s, c)) <==> w.scale(Low, w.keyExchange.approved + SuitePoints(w, s)) >= w.cap
  {
    hide AlwaysAtCap, SuitePoints;
    var points := w.keyExchange.approved + SuitePoints(w, s);
    assert w.scale(Low, points) <= w.scale(Medium, points) <= w.scale(High, points);
    forall c ensures AlwaysAtCap(w, s, c) <==> w.scale(c, points) >= w.cap {
      SuiteReachesCap(w, s, c);
    }
    if w.scale(Low, points) >= w.cap {
      assert forall c :: AlwaysAtCap(w, s, c) by {
        forall c ensures AlwaysAtCap(w, s, c) {
          assert c == Low || c == Medium || c == High;
        }
      }
    } else {
      assert !AlwaysAtCap(w, s, Low);
    }
  }

  lemma AtCap(w: ConfWeights, s: Suite, p: Profile, e: Evidence, v: Verdict)
    requires ValidConf(w) && e.suite == Some(s)
    requires w.scale(e.criticality, w.keyExchange.approved + SuitePoints(w, s)) >= w.cap
    ensures var conf := ScoreTlsConf(w, p, e, v).conf; conf.None? || conf == Some(w.cap)
  {
    hide ProtocolLines, TlsLines, ObsoleteLines, AddMissing, Exceeds, WeakAccepted, StaticRsaAccepted, VersionBreach,
         NoForwardSecrecy, LifetimePoints, Capped, Labels;
    var least := w.keyExchange.approved + SuitePoints(w, s);
    assert NegotiatedPenalty(w, p, e) + UnseenPenalty(w, e) >= SuitePoints(w, s);
    AtLeastCap(w, e.criticality, least, ObsoleteSubtotal(w, p, e));
    if e.group.Some? {
      ByClassOrder(w.keyExchange, APPROVED, p.classifyGroup(e.group.value));
      AtLeastCap(w, e.criticality, least, TlsSubtotal(w, p, e, e.group.value, v.pqStatus));
    }
  }

  lemma AtLeastCap(w: ConfWeights, c: Criticality, least: nat, subtotal: nat)
    requires ValidConf(w) && w.scale(c, least) >= w.cap && least <= subtotal
    ensures Capped(w.cap, w.scale, c, subtotal) == w.cap
  {
  }

  lemma CappedAtCap(w: ConfWeights, c: Criticality, subtotal: nat)
    ensures Capped(w.cap, w.scale, c, subtotal) == w.cap <==> w.scale(c, subtotal) >= w.cap
  {
  }

  /** A profile under which every group is approved, TLS 1.3 alone is and nothing else is looked at. */
  const STRONGEST := Profile({"TLSv1.3"}, _ => APPROVED, _ => APPROVED, _ => PurePqApproved, {}, {}, {}, map[], map[],
      0, 0)

  const NOT_SCORED := Verdict(None, None, Unknown, Supported, [], [], None, false, None, Unexplained, Unexplained)

  /** An endpoint with nothing against it but its suite. */
  function Strongest(s: Suite, c: Criticality): Evidence {
    Evidence(Tls, c, 0, "OS", Some("TLSv1.3"), Some(s), [], Some("MLKEM1024"), None, true, false, [], false, [], [],
        [], [])
  }

  lemma StrongestScore(w: ConfWeights, s: Suite, c: Criticality)
    ensures ScoreTlsConf(w, STRONGEST, Strongest(s, c), NOT_SCORED).conf
         == Some(Capped(w.cap, w.scale, c, w.keyExchange.approved + SuitePoints(w, s)))
  {
    hide ProtocolLines, TlsLines, AddMissing, Exceeds, Capped, Labels;
  }

  // ----------------------------------------------------- TLS authentication

  lemma {:induction false} KnownMembers(certs: Certificates, fingerprints: seq<string>, c: Certificate)
    ensures c in Known(certs, fingerprints) <==> exists f :: f in fingerprints && f in certs && certs[f] == c
  {
    if fingerprints != [] {
      KnownMembers(certs, fingerprints[1..], c);
      assert fingerprints == [fingerprints[0]] + fingerprints[1..];
    }
  }

  /** The worst class is the greatest of the floor and what is in the chain. */
  lemma {:induction false} WorstIsGreatest(chain: seq<Certificate>, floor: Classification)
    ensures var worst := Worst(chain, floor);
            && Severity(worst) >= Severity(floor)
            && (forall c :: c in chain ==> Severity(worst) >= Severity(c.class_))
            && (worst == floor || exists c :: c in chain && c.class_ == worst)
    decreases chain
  {
    if chain != [] {
      var floor' := if Severity(chain[0].class_) > Severity(floor) then chain[0].class_ else floor;
      WorstIsGreatest(chain[1..], floor');
      assert chain == [chain[0]] + chain[1..];
      var worst := Worst(chain, floor);
      if worst == floor' && floor' != floor {
        assert chain[0] in chain && chain[0].class_ == worst;
      } else if worst != floor' {
        var c :| c in chain[1..] && c.class_ == worst;
        assert c in chain;
      }
    }
  }

  lemma WorstOrder(a: seq<Certificate>, b: seq<Certificate>)
    requires forall c :: c in a ==> c in b
    ensures Severity(Worst(a, APPROVED)) <= Severity(Worst(b, APPROVED))
  {
    WorstIsGreatest(a, APPROVED);
    WorstIsGreatest(b, APPROVED);
  }

  lemma SeverityInjective(a: Classification, b: Classification)
    requires Severity(a) == Severity(b)
    ensures a == b
  {
  }

  /** Everything in `a` is in `b`: its signatures and hashes cost no more. */
  lemma ChainOrder(w: AuthWeights, p: Profile, a: seq<Certificate>, b: seq<Certificate>)
    requires ValidAuth(w) && forall c :: c in a ==> c in b
    ensures SignaturePoints(w, a) <= SignaturePoints(w, b)
    ensures HashPoints(w, p, a) <= HashPoints(w, p, b)
  {
    WorstOrder(a, b);
    if a != [] {
      assert a[0] in b;
      ByClassOrder(w.signature, Worst(a, APPROVED), Worst(b, APPROVED));
    }
    HasHashOrder(a, b, p.failedHashes);
    HasHashOrder(a, b, p.hashesUntil2030);
  }

  lemma HasHashOrder(a: seq<Certificate>, b: seq<Certificate>, hashes: set<string>)
    requires forall c :: c in a ==> c in b
    ensures HasHash(a, hashes) ==> HasHash(b, hashes)
  {
    if i :| 0 <= i < |a| && a[i].hash.Some? && a[i].hash.value in hashes {
      assert a[i] in b;
    }
  }

  /** One more certificate on a chain of two or more never lowers the authentication score, nor
      the chain's class. */
  lemma LongerChainNoBetter(w: AuthWeights, p: Profile, certs: Certificates, a: Evidence, b: Evidence,
                            fingerprint: string, v: Verdict)
    requires ValidAuth(w) && |a.fingerprints| >= 2
    requires b == a.(fingerprints := a.fingerprints + [fingerprint])
    ensures var r, s := ScoreTlsAuth(w, p, certs, a, v), ScoreTlsAuth(w, p, certs, b, v);
            NotAbove(r.auth, s.auth) && Severity(r.chainClass.value) <= Severity(s.chainClass.value)
  {
    hide ChainLines, KeyFindings, BelowMinimum, BelowPreferred, CurveNotPreferred, CurveViolation, ExpiryPoints,
         FailurePoints, Worst, Known, Capped,
         SignaturePoints, HashPoints;
    if !a.obsolete {
      var x, y := Known(certs, a.fingerprints), Known(certs, b.fingerprints);
      var tailX, tailY := Known(certs, a.fingerprints[1..]), Known(certs, b.fingerprints[1..]);
      KnownOrder(certs, a.fingerprints, b.fingerprints);
      assert b.fingerprints[1..] == a.fingerprints[1..] + [fingerprint];
      KnownOrder(certs, a.fingerprints[1..], b.fingerprints[1..]);
      ChainOrder(w, p, x, y);
      WorstOrder(tailX, tailY);
      var leaf := Leaf(certs, a);
      assert leaf == Leaf(certs, b);
      assert CurveViolation(p, a, leaf) == CurveViolation(p, b, leaf) by { CurveLevelOnly(p, a, b, leaf); }
      CappedOrder(w.cap, w.scale, a.criticality, a.criticality,
                  ChainSubtotal(w, p, a, x, leaf, v.failures), ChainSubtotal(w, p, b, y, leaf, v.failures));
    }
  }

  lemma CurveLevelOnly(p: Profile, a: Evidence, b: Evidence, leaf: Option<Certificate>)
    requires a.level == b.level
    ensures CurveViolation(p, a, leaf) == CurveViolation(p, b, leaf)
  {
  }

  lemma KnownOrder(certs: Certificates, a: seq<string>, b: seq<string>)
    requires forall f :: f in a ==> f in b
    ensures forall c :: c in Known(certs, a) ==> c in Known(certs, b)
  {
    forall c | c in Known(certs, a) ensures c in Known(certs, b) {
      KnownMembers(certs, a, c);
      KnownMembers(certs, b, c);
    }
  }

  /** Every failure of `a` is in `b`, and `b` lists no fewer. */
  ghost predicate NoFewer(a: seq<string>, b: seq<string>) {
    |a| <= |b| && forall f :: f in a ==> f in b
  }

  /** More validation failures, in any order, never lower the authentication score of a chain. */
  lemma MoreFailuresInChain(w: AuthWeights, p: Profile, certs: Certificates, e: Evidence, v: Verdict, more: Verdict)
    requires ValidAuth(w) && NoFewer(v.failures, more.failures) && v.auth.None?
    ensures NotAbove(ScoreTlsAuth(w, p, certs, e, v).auth, ScoreTlsAuth(w, p, certs, e, more).auth)
  {
    hide ChainLines, KeyFindings, BelowMinimum, BelowPreferred, CurveNotPreferred, CurveViolation, ExpiryPoints, Worst,
         Known, Capped,
         SignaturePoints, HashPoints, FailurePoints, ChainFailures;
    if !e.obsolete && e.fingerprints != [] {
      var x, y := ChainFailures(certs, e, v.failures), ChainFailures(certs, e, more.failures);
      var chain, leaf := Known(certs, e.fingerprints), Leaf(certs, e);
      forall f | f in x ensures f in y {
        ChainFailuresMembers(certs, e, v.failures, f);
        ChainFailuresMembers(certs, e, more.failures, f);
      }
      FailureOrder(w, x, y);
      CappedOrder(w.cap, w.scale, e.criticality, e.criticality,
                  ChainSubtotal(w, p, e, chain, leaf, x), ChainSubtotal(w, p, e, chain, leaf, y));
    }
  }

  /** More validation failures never lower the authentication score, whatever the service. */
  lemma MoreFailuresNoBetter(cw: ConfWeights, aw: AuthWeights, p: Profile, certs: Certificates, e: Evidence, v: Verdict,
                             more: Verdict)
    requires ValidAuth(aw) && Fresh(v) && more == v.(failures := more.failures) && NoFewer(v.failures, more.failures)
    ensures NotAbove(Score(cw, aw, p, certs, e, v).auth, Score(cw, aw, p, certs, e, more).auth)
  {
    hide Capped;
    match e.service
    case Tls =>
      hide ScoreTlsConf, ScoreTlsAuth;
      ConfKeepsFailures(cw, p, e, v);
      ConfKeepsFailures(cw, p, e, more);
      MoreFailuresInChain(aw, p, certs, e, ScoreTlsConf(cw, p, e, v), ScoreTlsConf(cw, p, e, more));
    case Ssh =>
      hide SshConfLines, SshConfSubtotal, SshAuthLines, SshAuthSubtotal, SshAuthOffered, SshConfOffered, Best;
      MoreFailuresCost(aw, e, v.failures, more.failures);
      CappedOrder(aw.cap, aw.scale, e.criticality, e.criticality, SshAuthSubtotal(aw, e, v.failures),
          SshAuthSubtotal(aw, e, more.failures));
    case Ipsec =>
      hide IpsecConfLines, IpsecConfSubtotal, IpsecAuthLines, IpsecAuthSubtotal, IpsecReadiness;
      MoreFailuresCost(aw, e, v.failures, more.failures);
      CappedOrder(aw.cap, aw.scale, e.criticality, e.criticality, IpsecAuthSubtotal(aw, e, v.failures),
          IpsecAuthSubtotal(aw, e, more.failures));
    case Domain =>
      hide DomainLines;
      Scaled(|v.failures|, |more.failures|, aw.failure);
      CappedOrder(aw.cap, aw.scale, e.criticality, e.criticality, |v.failures| * aw.failure,
          |more.failures| * aw.failure);
  }

  lemma MoreFailuresCost(w: AuthWeights, e: Evidence, a: seq<string>, b: seq<string>)
    requires NoFewer(a, b)
    ensures SshAuthSubtotal(w, e, a) <= SshAuthSubtotal(w, e, b)
    ensures IpsecAuthSubtotal(w, e, a) <= IpsecAuthSubtotal(w, e, b)
  {
    hide ClassPoints, SshAuthOffered;
  }

  /** The same evidence at a higher criticality scores no better on either side, whatever the service. */
  lemma HigherCriticalityNoBetter(cw: ConfWeights, aw: AuthWeights, p: Profile, certs: Certificates, a: Evidence,
                                  b: Evidence, v: Verdict)
    requires ValidConf(cw) && ValidAuth(aw)
    requires b == a.(criticality := b.criticality) && CriticalityRank(a.criticality) <= CriticalityRank(b.criticality)
    ensures var r, s := Score(cw, aw, p, certs, a, v), Score(cw, aw, p, certs, b, v);
            NotAbove(r.conf, s.conf) && NotAbove(r.auth, s.auth)
  {
    hide Capped;
    match a.service
    case Tls =>
      hide ScoreTlsConf, ScoreTlsAuth;
      WeakerConfidentiality(cw, p, a, b, v);
      AuthKeepsConf(aw, p, certs, a, ScoreTlsConf(cw, p, a, v));
      AuthKeepsConf(aw, p, certs, b, ScoreTlsConf(cw, p, b, v));
      ConfKeepsFailures(cw, p, a, v);
      ConfKeepsFailures(cw, p, b, v);
      ChainAtCriticality(aw, p, certs, a, b, ScoreTlsConf(cw, p, a, v), ScoreTlsConf(cw, p, b, v));
    case Ssh =>
      hide SshConfLines, SshAuthLines, SshConfSubtotal, SshAuthSubtotal, Best;
      SameCostAtCriticality(cw, aw, a, b, v);
      CappedOrder(cw.cap, cw.scale, a.criticality, b.criticality, SshConfSubtotal(cw, a), SshConfSubtotal(cw, b));
      CappedOrder(aw.cap, aw.scale, a.criticality, b.criticality, SshAuthSubtotal(aw, a, v.failures),
          SshAuthSubtotal(aw, b, v.failures));
    case Ipsec =>
      hide IpsecConfLines, IpsecAuthLines, IpsecConfSubtotal, IpsecAuthSubtotal, IpsecReadiness;
      SameCostAtCriticality(cw, aw, a, b, v);
      CappedOrder(cw.cap, cw.scale, a.criticality, b.criticality,
                  IpsecConfSubtotal(cw, a, v.ruleFindings), IpsecConfSubtotal(cw, b, v.ruleFindings));
      CappedOrder(aw.cap, aw.scale, a.criticality, b.criticality, IpsecAuthSubtotal(aw, a, v.failures),
          IpsecAuthSubtotal(aw, b, v.failures));
    case Domain =>
      hide DomainLines;
      CappedOrder(aw.cap, aw.scale, a.criticality, b.criticality, |v.failures| * aw.failure, |v.failures| * aw.failure);
  }

  lemma SameCostAtCriticality(cw: ConfWeights, aw: AuthWeights, a: Evidence, b: Evidence, v: Verdict)
    requires b == a.(criticality := b.criticality)
    ensures SshConfSubtotal(cw, a) == SshConfSubtotal(cw, b)
    ensures SshAuthSubtotal(aw, a, v.failures) == SshAuthSubtotal(aw, b, v.failures)
    ensures IpsecConfSubtotal(cw, a, v.ruleFindings) == IpsecConfSubtotal(cw, b, v.ruleFindings)
    ensures IpsecAuthSubtotal(aw, a, v.failures) == IpsecAuthSubtotal(aw, b, v.failures)
  {
    hide ClassPoints, OfferedPoints, Best, WorstOffered, LifetimePoints;
  }

  lemma ChainAtCriticality(w: AuthWeights, p: Profile, certs: Certificates, a: Evidence, b: Evidence, v: Verdict,
                           v': Verdict)
    requires ValidAuth(w) && v.failures == v'.failures
    requires b == a.(criticality := b.criticality) && CriticalityRank(a.criticality) <= CriticalityRank(b.criticality)
    ensures NotAbove(ScoreTlsAuth(w, p, certs, a, v).auth, ScoreTlsAuth(w, p, certs, b, v').auth)
  {
    hide Capped, ChainLines, KeyFindings, Known, Worst, HasHash, FailurePoints, BelowMinimum, BelowPreferred,
         CurveNotPreferred, ExpiryPoints;
    if a.obsolete {
      CappedOrder(w.cap, w.scale, a.criticality, b.criticality, w.obsolete, w.obsolete);
    } else if a.fingerprints != [] {
      var chain, leaf, failures := Known(certs, a.fingerprints), Leaf(certs, a), ChainFailures(certs, a, v.failures);
      assert failures == ChainFailures(certs, b, v.failures);
      CappedOrder(w.cap, w.scale, a.criticality, b.criticality,
                  ChainSubtotal(w, p, a, chain, leaf, failures), ChainSubtotal(w, p, b, chain, leaf, failures));
    }
  }

  /** What a lone certificate is noted as, or nothing. */
  function ChainNotes(certs: Certificates, e: Evidence): seq<string> {
    var leaf := Leaf(certs, e);
    if |e.fingerprints| != 1 then []
    else if leaf.Some? && leaf.value.selfSigned then [SELF_SIGNED]
    else [INCOMPLETE_CHAIN]
  }

  lemma ChainFailuresMembers(certs: Certificates, e: Evidence, failures: seq<string>, f: string)
    ensures f in ChainFailures(certs, e, failures) <==> f in failures || f in ChainNotes(certs, e)
  {
    AddMissingMembers(failures, ChainNotes(certs, e), f);
  }

  lemma FailureOrder(w: AuthWeights, a: seq<string>, b: seq<string>)
    requires forall f :: f in a ==> f in b
    ensures FailurePoints(w, a) <= FailurePoints(w, b)
  {
    SubsetNoLarger(set f | f in a, set f | f in b);
    Scaled(DistinctCount(a), DistinctCount(b), w.failure);
  }

  lemma Scaled(a: nat, b: nat, points: nat)
    requires a <= b
    ensures a * points <= b * points
  {
  }

  /** The order of the certificates behind the leaf changes nothing at all. */
  lemma ChainOrderIrrelevant(w: AuthWeights, p: Profile, certs: Certificates, a: Evidence, b: Evidence, v: Verdict)
    requires a.fingerprints != [] && b == a.(fingerprints := b.fingerprints)
    requires b.fingerprints != [] && b.fingerprints[0] == a.fingerprints[0]
    requires multiset(a.fingerprints[1..]) == multiset(b.fingerprints[1..])
    ensures ScoreTlsAuth(w, p, certs, a, v) == ScoreTlsAuth(w, p, certs, b, v)
  {
    hide KeyFindings, ChainLines, ChainSubtotal, Worst, Known, Capped;
    var x, y := a.fingerprints[1..], b.fingerprints[1..];
    assert |x| == |multiset(x)| == |multiset(y)| == |y|;
    forall f ensures f in x <==> f in y {
      assert f in x <==> f in multiset(x);
    }
    assert a.fingerprints == [a.fingerprints[0]] + x && b.fingerprints == [b.fingerprints[0]] + y;
    SameMembers(p, certs, a.fingerprints, b.fingerprints);
    SameMembers(p, certs, x, y);
    var leaf, failures := Leaf(certs, a), ChainFailures(certs, a, v.failures);
    assert leaf == Leaf(certs, b);
    assert failures == ChainFailures(certs, b, v.failures);
    KeyFindingsLevelOnly(p, a, b, leaf);
    SameChain(w, p, a, b, Known(certs, a.fingerprints), Known(certs, b.fingerprints), leaf, failures);
  }

  /** Chains that agree on what is looked for in them cost the same and are explained alike. */
  lemma SameChain(w: AuthWeights, p: Profile, a: Evidence, b: Evidence, x: seq<Certificate>, y: seq<Certificate>,
                  leaf: Option<Certificate>, failures: seq<string>)
    requires a.level == b.level && (x == [] <==> y == []) && Worst(x, APPROVED) == Worst(y, APPROVED)
    requires forall hashes :: HasHash(x, hashes) == HasHash(y, hashes)
    ensures ChainSubtotal(w, p, a, x, leaf, failures) == ChainSubtotal(w, p, b, y, leaf, failures)
    ensures ChainLines(w, p, a, x, leaf, failures) == ChainLines(w, p, b, y, leaf, failures)
  {
    hide BelowMinimum, BelowPreferred, CurveNotPreferred, CurveViolation, ExpiryPoints, ExpiryLines, Worst, HasHash,
         FailurePoints, When, InformationalPoints;
    CurveLevelOnly(p, a, b, leaf);
    assert HashPoints(w, p, x) == HashPoints(w, p, y);
    assert HashLines(w, p, x) == HashLines(w, p, y);
    assert SignaturePoints(w, x) == SignaturePoints(w, y);
  }

  lemma KeyFindingsLevelOnly(p: Profile, a: Evidence, b: Evidence, leaf: Option<Certificate>)
    requires a.level == b.level
    ensures KeyFindings(p, a, leaf) == KeyFindings(p, b, leaf)
  {
  }

  lemma SameMembers(p: Profile, certs: Certificates, a: seq<string>, b: seq<string>)
    requires forall f :: f in a <==> f in b
    ensures var x, y := Known(certs, a), Known(certs, b);
            && (x == [] <==> y == []) && Worst(x, APPROVED) == Worst(y, APPROVED)
            && forall hashes :: HasHash(x, hashes) == HasHash(y, hashes)
  {
    var x, y := Known(certs, a), Known(certs, b);
    KnownOrder(certs, a, b);
    KnownOrder(certs, b, a);
    if x != [] {
      assert x[0] in y;
    }
    if y != [] {
      assert y[0] in x;
    }
    WorstOrder(x, y);
    WorstOrder(y, x);
    SeverityInjective(Worst(x, APPROVED), Worst(y, APPROVED));
    forall hashes ensures HasHash(x, hashes) == HasHash(y, hashes) {
      HasHashOrder(x, y, hashes);
      HasHashOrder(y, x, hashes);
    }
  }

  // --------------------------------------------------------------------- SSH

  datatype Role = KeyExchange | Signature | Cipher | Mac

  function Insert(entries: seq<Algorithm>, i: nat, name: string): seq<Algorithm>
    requires i <= |entries|
  {
    entries[..i] + [Algorithm(name, NOT_APPROVED)] + entries[i..]
  }

  function Entries(e: Evidence, role: Role): seq<Algorithm> {
    match role
    case KeyExchange => e.keyExchange
    case Signature => e.signature
    case Cipher => e.cipher
    case Mac => e.mac
  }

  function WithEntries(e: Evidence, role: Role, entries: seq<Algorithm>): Evidence {
    match role
    case KeyExchange => e.(keyExchange := entries)
    case Signature => e.(signature := entries)
    case Cipher => e.(cipher := entries)
    case Mac => e.(mac := entries)
  }

  lemma {:induction false} OffenderNamesAppend(a: seq<Algorithm>, b: seq<Algorithm>)
    ensures OffenderNames(a + b) == OffenderNames(a) + OffenderNames(b)
  {
    if a == [] {
      assert a + b == b;
    } else {
      assert (a + b)[0] == a[0] && (a + b)[1..] == a[1..] + b;
      OffenderNamesAppend(a[1..], b);
      var first := if a[0].class_ == NOT_APPROVED then [a[0].name] else [];
      assert first + (OffenderNames(a[1..]) + OffenderNames(b)) == first + OffenderNames(a[1..]) + OffenderNames(b);
    }
  }

  lemma OffendersAppend(a: seq<Algorithm>, b: seq<Algorithm>)
    ensures Offenders(a + b) == Offenders(a) + Offenders(b)
  {
    OffenderNamesAppend(a, b);
  }

  lemma OffendersInsert(entries: seq<Algorithm>, i: nat, name: string)
    requires i <= |entries|
    ensures Offenders(Insert(entries, i, name)) == Offenders(entries) + 1
  {
    var bad := [Algorithm(name, NOT_APPROVED)];
    assert bad[1..] == [] && OffenderNames(bad) == [name] + OffenderNames([]);
    assert Offenders(bad) == 1;
    assert entries == entries[..i] + entries[i..];
    OffendersAppend(entries[..i], bad);
    OffendersAppend(entries[..i] + bad, entries[i..]);
    OffendersAppend(entries[..i], entries[i..]);
  }

  lemma {:induction false} BestIsLeast(entries: seq<Algorithm>)
    ensures entries == [] <==> Best(entries).None?
    ensures entries != [] ==>
              && (forall x :: x in entries ==> Severity(Best(entries).value) <= Severity(x.class_))
              && (exists x :: x in entries && x.class_ == Best(entries).value)
  {
    if entries != [] {
      BestIsLeast(entries[1..]);
      assert entries == [entries[0]] + entries[1..];
      assert entries[0] in entries;
    }
  }

  lemma {:induction false} WorstOfferedIsGreatest(entries: seq<Algorithm>)
    ensures entries == [] <==> WorstOffered(entries).None?
    ensures entries != [] ==>
              && (forall x :: x in entries ==> Severity(WorstOffered(entries).value) >= Severity(x.class_))
              && (exists x :: x in entries && x.class_ == WorstOffered(entries).value)
  {
    if entries != [] {
      WorstOfferedIsGreatest(entries[1..]);
      assert entries == [entries[0]] + entries[1..];
      assert entries[0] in entries;
    }
  }

  lemma InsertMembers(entries: seq<Algorithm>, i: nat, name: string, x: Algorithm)
    requires i <= |entries|
    ensures x in Insert(entries, i, name) <==> x in entries || x == Algorithm(name, NOT_APPROVED)
  {
  }

  /** The best of a list does not change when the worst class is added to it. */
  lemma BestAfterInsert(entries: seq<Algorithm>, i: nat, name: string)
    requires i <= |entries|
    ensures Best(Insert(entries, i, name)) == if entries == [] then Some(NOT_APPROVED) else Best(entries)
  {
    var more := Insert(entries, i, name);
    BestIsLeast(entries);
    BestIsLeast(more);
    forall x ensures x in more <==> x in entries || x == Algorithm(name, NOT_APPROVED) {
      InsertMembers(entries, i, name, x);
    }
    if entries != [] {
      SeverityInjective(Best(more).value, Best(entries).value);
    } else {
      assert more == [Algorithm(name, NOT_APPROVED)];
    }
  }

  lemma WorstAfterInsert(entries: seq<Algorithm>, i: nat, name: string)
    requires i <= |entries|
    ensures WorstOffered(Insert(entries, i, name)) == Some(NOT_APPROVED)
  {
    var more := Insert(entries, i, name);
    WorstOfferedIsGreatest(more);
    InsertMembers(entries, i, name, Algorithm(name, NOT_APPROVED));
    SeverityInjective(WorstOffered(more).value, NOT_APPROVED);
  }

  lemma OfferedOrder(per: nat, cap: Option<nat>, a: nat, b: nat)
    requires a <= b
    ensures OfferedPoints(per, cap, a) <= OfferedPoints(per, cap, b)
  {
  }

  /** One more unapproved algorithm, anywhere in any role, never lowers either SSH score. */
  lemma MoreUnapprovedNoBetter(cw: ConfWeights, aw: AuthWeights, e: Evidence, role: Role, i: nat, name: string,
                               v: Verdict, b: Evidence)
    requires ValidConf(cw) && ValidAuth(aw) && Fresh(v)
    requires i <= |Entries(e, role)| && b == WithEntries(e, role, Insert(Entries(e, role), i, name))
    ensures NotAbove(ScoreSsh(cw, aw, e, v).conf, ScoreSsh(cw, aw, b, v).conf)
    ensures NotAbove(ScoreSsh(cw, aw, e, v).auth, ScoreSsh(cw, aw, b, v).auth)
  {
    hide SshConfLines, SshAuthLines, Capped, Best, WorstOffered, Offenders, LifetimePoints, OfferedPoints;
    if e.keyExchange != [] || e.signature != [] {
      SshSubtotalsOrder(cw, aw, e, role, i, name, v.failures, b);
      CappedOrder(cw.cap, cw.scale, e.criticality, e.criticality, SshConfSubtotal(cw, e), SshConfSubtotal(cw, b));
      CappedOrder(aw.cap, aw.scale, e.criticality, e.criticality, SshAuthSubtotal(aw, e, v.failures),
          SshAuthSubtotal(aw, b, v.failures));
    }
  }

  lemma SshSubtotalsOrder(cw: ConfWeights, aw: AuthWeights, e: Evidence, role: Role, i: nat, name: string,
                          failures: seq<string>, b: Evidence)
    requires ValidConf(cw) && ValidAuth(aw)
    requires i <= |Entries(e, role)| && b == WithEntries(e, role, Insert(Entries(e, role), i, name))
    ensures SshConfSubtotal(cw, e) <= SshConfSubtotal(cw, b)
    ensures SshAuthSubtotal(aw, e, failures) <= SshAuthSubtotal(aw, b, failures)
    ensures b.keyExchange != [] || b.signature != [] || (e.keyExchange == [] && e.signature == [])
  {
    hide Best, WorstOffered, Offenders, LifetimePoints, OfferedPoints, Insert;
    OffendersInsert(Entries(e, role), i, name);
    ConfOffenders(e);
    ConfOffenders(b);
    OfferedOrder(cw.offered, cw.offeredCap, Offenders(e.keyExchange + e.cipher + e.mac),
        Offenders(b.keyExchange + b.cipher + b.mac));
    OfferedOrder(aw.offered, aw.offeredCap, Offenders(e.signature), Offenders(b.signature));
    if role == KeyExchange {
      BestAfterInsert(e.keyExchange, i, name);
      BestIsLeast(e.keyExchange);
      InsertNonEmpty(e.keyExchange, i, name);
    } else if role == Signature {
      WorstAfterInsert(e.signature, i, name);
      InsertNonEmpty(e.signature, i, name);
      if e.signature != [] {
        WorstOfferedIsGreatest(e.signature);
        ByClassOrder(aw.signature, WorstOffered(e.signature).value, NOT_APPROVED);
      } else {
        WorstOfferedIsGreatest(e.signature);
      }
    }
  }

  lemma InsertNonEmpty(entries: seq<Algorithm>, i: nat, name: string)
    requires i <= |entries|
    ensures Insert(entries, i, name) != []
  {
  }

  lemma ConfOffenders(e: Evidence)
    ensures Offenders(e.keyExchange + e.cipher + e.mac)
         == Offenders(e.keyExchange) + Offenders(e.cipher) + Offenders(e.mac)
  {
    OffendersAppend(e.keyExchange + e.cipher, e.mac);
    OffendersAppend(e.keyExchange, e.cipher);
  }

  // ------------------------------------------------------------- idempotence

  lemma {:induction false} AddMissingMembers(present: seq<string>, names: seq<string>, n: string)
    ensures n in AddMissing(present, names) <==> n in present || n in names
    decreases names
  {
    if names != [] {
      var next := if names[0] in present then present else present + [names[0]];
      AddMissingMembers(next, names[1..], n);
      assert names == [names[0]] + names[1..];
    }
  }

  /** Adding what is already there adds nothing. */
  lemma AddMissingTwice(present: seq<string>, name: string)
    ensures AddMissing(AddMissing(present, [name]), [name]) == AddMissing(present, [name])
  {
  }

  /** All of a verdict but the list of findings. */
  ghost predicate SameVerdict(a: Verdict, b: Verdict) {
    a == b.(ruleFindings := a.ruleFindings)
  }

  lemma TlsConfTwice(w: ConfWeights, p: Profile, e: Evidence, v: Verdict, r: Verdict)
    requires r.pqStatus == ScoreTlsConf(w, p, e, v).pqStatus
             && r.exceedsDefault == ScoreTlsConf(w, p, e, v).exceedsDefault
    requires NO_TLS in r.failures <==> NO_TLS in v.failures
    ensures var c, d := ScoreTlsConf(w, p, e, v), ScoreTlsConf(w, p, e, r);
            && d.conf == c.conf && d.readiness == c.readiness && d.pqStatus == c.pqStatus && d.confWhy == c.confWhy
            && d.exceedsDefault == c.exceedsDefault
            && d == r.(conf := d.conf, readiness := d.readiness, pqStatus := d.pqStatus, confWhy := d.confWhy,
                       exceedsDefault := d.exceedsDefault, ruleFindings := d.ruleFindings)
  {
    hide TlsLines, TlsSubtotal, ObsoleteLines, ObsoleteSubtotal, Capped, ProtocolLines, AddMissing, Labels, Exceeds;
  }

  lemma ChainFailuresTwice(certs: Certificates, e: Evidence, failures: seq<string>)
    ensures ChainFailures(certs, e, ChainFailures(certs, e, failures)) == ChainFailures(certs, e, failures)
    ensures NO_TLS in ChainFailures(certs, e, failures) <==> NO_TLS in failures
  {
    ChainFailuresMembers(certs, e, failures, NO_TLS);
    if |e.fingerprints| == 1 {
      AddMissingTwice(failures, ChainNotes(certs, e)[0]);
    }
  }

  lemma TlsAuthTwice(w: AuthWeights, p: Profile, certs: Certificates, e: Evidence, c: Verdict, d: Verdict)
    requires d.(ruleFindings := c.ruleFindings) == ScoreTlsAuth(w, p, certs, e, c).(ruleFindings := c.ruleFindings)
    ensures SameVerdict(ScoreTlsAuth(w, p, certs, e, d), d)
  {
    hide ChainLines, ChainSubtotal, Capped, Known, Worst, KeyFindings, Leaf, ChainFailures;
    ChainFailuresTwice(certs, e, c.failures);
  }

  lemma AuthKeepsConf(w: AuthWeights, p: Profile, certs: Certificates, e: Evidence, v: Verdict)
    ensures var s := ScoreTlsAuth(w, p, certs, e, v);
            s.band == v.band && s.conf == v.conf && s.readiness == v.readiness
  {
    hide ChainLines, ChainSubtotal, Known, Worst, KeyFindings, Leaf, ChainFailures, Capped;
  }

  lemma TlsTwice(cw: ConfWeights, aw: AuthWeights, p: Profile, certs: Certificates, e: Evidence, v: Verdict, r: Verdict)
    requires e.service == Tls && r == Score(cw, aw, p, certs, e, v)
    ensures SameVerdict(Score(cw, aw, p, certs, e, r), r)
  {
    hide ChainLines, ChainSubtotal, Capped, Known, Worst, KeyFindings, Leaf, ChainFailures, ScoreTlsConf;
    var c := ScoreTlsConf(cw, p, e, v);
    ChainFailuresTwice(certs, e, c.failures);
    ConfKeepsFailures(cw, p, e, v);
    TlsConfTwice(cw, p, e, v, r);
    TlsAuthTwice(aw, p, certs, e, c, ScoreTlsConf(cw, p, e, r));
  }

  lemma ConfKeepsFailures(w: ConfWeights, p: Profile, e: Evidence, v: Verdict)
    ensures var c := ScoreTlsConf(w, p, e, v);
            c.failures == v.failures && c.auth == v.auth && c.authWhy == v.authWhy && c.chainClass == v.chainClass
                && c.band == v.band
  {
    hide TlsLines, TlsSubtotal, ObsoleteLines, ObsoleteSubtotal, Capped, ProtocolLines, AddMissing, Labels, Exceeds;
  }

  /** An IPsec finding scored twice: nothing it reads is written. */
  lemma IpsecTwice(cw: ConfWeights, aw: AuthWeights, e: Evidence, v: Verdict, r: Verdict)
    requires r == ScoreIpsec(cw, aw, e, v)
    ensures SameVerdict(ScoreIpsec(cw, aw, e, r), r)
  {
    hide IpsecConfLines, IpsecConfSubtotal, IpsecAuthLines, IpsecAuthSubtotal, Capped, IpsecReadiness;
  }

  lemma SshTwice(cw: ConfWeights, aw: AuthWeights, e: Evidence, v: Verdict, r: Verdict)
    requires r == ScoreSsh(cw, aw, e, v)
    ensures SameVerdict(ScoreSsh(cw, aw, e, r), r)
  {
  }

  /** Scoring a scored finding again leaves every verdict and explanation as it is; only the list of
      findings may grow. */
  lemma ScoringTwice(cw: ConfWeights, aw: AuthWeights, p: Profile, certs: Certificates, e: Evidence, v: Verdict,
                     r: Verdict)
    requires r == Score(cw, aw, p, certs, e, v)
    ensures SameVerdict(Score(cw, aw, p, certs, e, r), r)
  {
    match e.service
    case Tls => TlsTwice(cw, aw, p, certs, e, v, r);
    case Ssh => SshTwice(cw, aw, e, v, r);
    case Ipsec => IpsecTwice(cw, aw, e, v, r);
    case Domain =>
      hide DomainLines, Capped;
  }

  /** What a scoring run appends to the findings without looking whether it is there. */
  function Unguarded(cw: ConfWeights, aw: AuthWeights, p: Profile, certs: Certificates, e: Evidence,
                     v: Verdict): seq<string> {
    match e.service
    case Tls => UnguardedConf(p, e, v) + UnguardedAuth(p, certs, e)
    case Ssh => UnguardedSsh(cw, aw, e)
    case Ipsec => []
    case Domain => []
  }

  function UnguardedSsh(cw: ConfWeights, aw: AuthWeights, e: Evidence): seq<string> {
    if e.keyExchange == [] && e.signature == [] then []
    else (if SshConfOffered(cw, e) > 0 then [SshConfLabel(e)] else [])
         + (if SshAuthOffered(aw, e) > 0 then [SshAuthLabel(e)] else [])
  }

  function UnguardedConf(p: Profile, e: Evidence, v: Verdict): seq<string> {
    (if Exceeds(p, e) then ["capability_exceeds_default_negotiation"] else [])
    + (if NO_TLS in v.failures then ["no_tls_offered (ISM-1139)"] else [])
  }

  function UnguardedAuth(p: Profile, certs: Certificates, e: Evidence): seq<string> {
    if e.obsolete || e.fingerprints == [] then [] else KeyFindings(p, e, Leaf(certs, e))
  }

  lemma {:induction false} AddMissingNothing(present: seq<string>, names: seq<string>)
    requires forall n :: n in names ==> n in present
    ensures AddMissing(present, names) == present
    decreases names
  {
    if names != [] {
      assert names == [names[0]] + names[1..];
      AddMissingNothing(present, names[1..]);
    }
  }

  lemma ConfFindings(w: ConfWeights, p: Profile, e: Evidence, v: Verdict)
    ensures ScoreTlsConf(w, p, e, v).ruleFindings
         == AddMissing(v.ruleFindings, Labels(ProtocolLines(w, p, e))) + UnguardedConf(p, e, v)
  {
    hide TlsLines, TlsSubtotal, ObsoleteLines, ObsoleteSubtotal, Capped, ProtocolLines, AddMissing, Labels, Exceeds;
  }

  lemma AuthFindings(w: AuthWeights, p: Profile, certs: Certificates, e: Evidence, v: Verdict)
    ensures ScoreTlsAuth(w, p, certs, e, v).ruleFindings == v.ruleFindings + UnguardedAuth(p, certs, e)
  {
  }

  /** Unlike the verdicts, the findings are not stable: scoring again appends a second time everything that is
      appended without a look, and so leaves them as they are exactly when there is nothing of the kind. */
  lemma FindingsRepeat(cw: ConfWeights, aw: AuthWeights, p: Profile, certs: Certificates, e: Evidence, v: Verdict,
                       r: Verdict)
    requires r == Score(cw, aw, p, certs, e, v)
    ensures Score(cw, aw, p, certs, e, r).ruleFindings == r.ruleFindings + Unguarded(cw, aw, p, certs, e, v)
    ensures Score(cw, aw, p, certs, e, r).ruleFindings == r.ruleFindings <==> Unguarded(cw, aw, p, certs, e, v) == []
  {
    match e.service
    case Tls =>
      hide Score, Unguarded;
      TlsFindingsRepeat(cw, aw, p, certs, e, v, r);
    case Ssh =>
      hide ScoreSsh, UnguardedSsh;
      SshFindings(cw, aw, e, v);
      SshFindings(cw, aw, e, r);
    case Ipsec =>
      hide ScoreIpsec;
      IpsecFindings(cw, aw, e, v);
      IpsecFindings(cw, aw, e, r);
    case Domain =>
      hide DomainLines, Capped;
  }

  lemma SshFindings(cw: ConfWeights, aw: AuthWeights, e: Evidence, v: Verdict)
    ensures ScoreSsh(cw, aw, e, v).ruleFindings == v.ruleFindings + UnguardedSsh(cw, aw, e)
  {
    hide SshConfLines, SshConfSubtotal, SshAuthLines, SshAuthSubtotal, Capped, Best, SshConfOffered, SshAuthOffered;
  }

  lemma IpsecFindings(cw: ConfWeights, aw: AuthWeights, e: Evidence, v: Verdict)
    ensures ScoreIpsec(cw, aw, e, v).ruleFindings == v.ruleFindings
  {
    hide IpsecConfLines, IpsecConfSubtotal, IpsecAuthLines, IpsecAuthSubtotal, Capped, IpsecReadiness;
  }

  lemma TlsFindingsRepeat(cw: ConfWeights, aw: AuthWeights, p: Profile, certs: Certificates, e: Evidence, v: Verdict,
                          r: Verdict)
    requires e.service == Tls && r == Score(cw, aw, p, certs, e, v)
    ensures Score(cw, aw, p, certs, e, r).ruleFindings == r.ruleFindings + Unguarded(cw, aw, p, certs, e, v)
  {
    hide ScoreTlsConf, ScoreTlsAuth, ProtocolLines, Labels, AddMissing, Exceeds, KeyFindings, Leaf;
    var c, labels := ScoreTlsConf(cw, p, e, v), Labels(ProtocolLines(cw, p, e));
    ConfFindings(cw, p, e, v);
    AuthFindings(aw, p, certs, e, c);
    FailuresKept(cw, aw, p, certs, e, v);
    forall n | n in labels ensures n in r.ruleFindings {
      AddMissingMembers(v.ruleFindings, labels, n);
    }
    AddMissingNothing(r.ruleFindings, labels);
    ConfFindings(cw, p, e, r);
    AuthFindings(aw, p, certs, e, ScoreTlsConf(cw, p, e, r));
  }

  lemma FailuresKept(cw: ConfWeights, aw: AuthWeights, p: Profile, certs: Certificates, e: Evidence, v: Verdict)
    requires e.service == Tls
    ensures NO_TLS in Score(cw, aw, p, certs, e, v).failures <==> NO_TLS in v.failures
  {
    hide ScoreTlsConf, ChainLines, ChainSubtotal, Capped, Known, Worst, KeyFindings, Leaf, ChainFailures;
    ConfKeepsFailures(cw, p, e, v);
    ChainFailuresTwice(certs, e, v.failures);
  }
}
