/** The shipped weight table meets the conditions the laws of scoring ask for. The scale stays abstract:
    the program multiplies in floating point. */
module ShippedWeights {
  import opened Bytes
  import opened ScoringModel
  import opened ScoringLaws
  import opened ScoringOrder
  import opened IndependentScores

  function Confidentiality(scale: Scale): ConfWeights {
    ConfWeights(
      cap := 100, keyExchange := ByClass(0, 20, 50, 80, 100), noPqGroup := 20, from5To10 := 10, over10 := 20,
      versionNotApproved := 10, notAesGcm := 20, symmetricAfter2030 := 10, symmetricNotApproved := 40,
      noEncryption := 100, unapprovedAccepted := 35, noForwardSecrecy := 40,
      offered := 15, offeredCap := Some(45), scale := scale)
  }

  function Authentication(scale: Scale): AuthWeights {
    AuthWeights(
      cap := 100, signature := ByClass(0, 20, 30, 50, 100), hashNotApproved := 20, hashAfter2030 := 10,
      failure := 20, failureCap := 60, obsolete := 40, notAfter2028 := 10, notAfter2030 := 20,
      belowMinimum := 40, belowPreferred := 5, curveViolation := 30, informationalCap := 10,
      offered := 15, offeredCap := Some(45), scale := scale)
  }

  lemma Ordered(scale: Scale)
    requires ValidScale(scale)
    ensures ValidConf(Confidentiality(scale)) && ValidAuth(Authentication(scale))
    ensures 2 * Authentication(scale).belowPreferred <= Authentication(scale).informationalCap
  {
  }

  /** With the shipped weights every explanation adds up, on every path of every service. */
  lemma ShippedExplanationAddsUp(scale: Scale, p: Profile, certs: Certificates, e: Evidence, v: Verdict, r: Verdict)
    requires Fresh(v) && r == Score(Confidentiality(scale), Authentication(scale), p, certs, e, v)
    ensures Accounts(r.confWhy, 100, scale, e.criticality, r.conf)
            && Accounts(r.authWhy, 100, scale, e.criticality, r.auth)
  {
    ExplanationAddsUp(Confidentiality(scale), Authentication(scale), p, certs, e, v, r);
    TwoNotesFit(Authentication(scale), p, Leaf(certs, e));
  }

  /** With the shipped weights, a suite reaches the cap exactly where the criticality leaves 100 of its own points. */
  lemma ShippedSuiteReachesCap(scale: Scale, s: Suite, c: Criticality)
    requires ValidScale(scale)
    ensures AlwaysAtCap(Confidentiality(scale), s, c) <==> scale(c, SuitePoints(Confidentiality(scale), s)) >= 100
  {
    SuiteReachesCap(Confidentiality(scale), s, c);
  }

  /** A null or export suite counts as unapproved and as not AES-GCM too: 160 points, and 170 on AES-128 or AES-192.
      It reaches the cap at every criticality exactly where the lowest leaves 100 of them. */
  lemma ShippedNoEncryption(scale: Scale, s: Suite)
    requires ValidScale(scale) && s.noEncryption && s.notApproved && !s.gcm
    ensures (forall c :: AlwaysAtCap(Confidentiality(scale), s, c))
        <==> scale(Low, if s.after2030 then 170 else 160) >= 100
  {
    hide AlwaysAtCap;
    NoEncryptionReachesCap(Confidentiality(scale), s);
  }

  /** Without encryption and with nothing else against it, the cap is not reached on that account alone: at low
      criticality, which leaves 70 of 100 points, such an endpoint scores 70. */
  lemma NoEncryptionAlone(scale: Scale)
    requires ValidScale(scale) && scale(Low, 100) == 70
    ensures ScoreTlsConf(Confidentiality(scale), STRONGEST, Strongest(UNENCRYPTED, Low), NOT_SCORED).conf == Some(70)
    ensures !AlwaysAtCap(Confidentiality(scale), UNENCRYPTED, Low)
  {
    StrongestScore(Confidentiality(scale), UNENCRYPTED, Low);
    ShippedSuiteReachesCap(scale, UNENCRYPTED, Low);
  }

  const UNENCRYPTED := Suite("a suite without encryption", true, false, false, true, true, false)

  // --------------------------------------------- where the two scorers part

  /** What another client reports of an endpoint with two certificates signed over SHA-3. */
  function FactsOf(e: Evidence): Facts {
    Facts(e.criticality, e.lifetime, e.level, e.group, true, e.tlsVersion, e.suite,
          "ML-DSA-87", ["ML-DSA-87"], "sha3-256", ["sha3-256"], [], None, None, None, None)
  }

  /** Without a version the first scorer has nothing to charge and the second charges 10: at medium criticality, where
      points count as they are, 0 against 10. */
  lemma VersionWitness(scale: Scale, e: Evidence)
    requires scale(Medium, 0) == 0 && scale(Medium, 10) == 10
    requires e == Strongest(UNENCRYPTED, Medium).(tlsVersion := None, suite := None)
    ensures SameSession(e, NOT_SCORED, FactsOf(e))
    ensures ScoreTlsConf(Confidentiality(scale), STRONGEST, e, NOT_SCORED).conf == Some(0)
    ensures IndependentScores.Confidentiality(Confidentiality(scale), STRONGEST, FactsOf(e)) == Some(10)
  {
    hide ProtocolLines, TlsLines, AddMissing, Exceeds, Labels;
    assert TlsSubtotal(Confidentiality(scale), STRONGEST, e, e.group.value, NOT_SCORED.pqStatus) == 0;
  }

  const SHA3_CERTIFICATE := Certificate("ML-DSA-87", APPROVED, Some("sha3-256"), None, "ML-DSA", None, None, false)

  const SHA3_PROFILE := STRONGEST.(
    approvedHashes := {"sha384", "sha512"}, hashesUntil2030 := {"sha224", "sha256"},
    failedHashes := {"sha1", "md5", "sha3-256", "sha3-384", "sha3-512", "shake128", "shake256"})

  /** A chain signed over SHA-3 costs 20 points with the first scorer, whose profile rejects it, and nothing with the
      second: at medium criticality, where points count as they are, 20 against 0. */
  lemma Sha3Witness(scale: Scale, certs: Certificates, e: Evidence)
    requires scale(Medium, 0) == 0 && scale(Medium, 20) == 20
    requires certs == map["leaf" := SHA3_CERTIFICATE, "root" := SHA3_CERTIFICATE]
    requires e == Strongest(UNENCRYPTED, Medium).(fingerprints := ["leaf", "root"])
    ensures HashTables(SHA3_PROFILE) && SameChainSeen(SHA3_PROFILE, certs, e, FactsOf(e))
    ensures ScoreTlsAuth(Authentication(scale), SHA3_PROFILE, certs, e, NOT_SCORED).auth == Some(20)
    ensures IndependentScores.Authentication(Authentication(scale), SHA3_PROFILE, FactsOf(e)) == 0
  {
    var w, chain := Authentication(scale), [SHA3_CERTIFICATE, SHA3_CERTIFICATE];
    Sha3Chain(certs, e.fingerprints);
    Sha3Seen(certs, e);
    Sha3Cost(w, e);
    assert DistinctCount([]) == 0;
    AuthenticationGap(w, SHA3_PROFILE, certs, e, FactsOf(e), []);
    hide ChainLines, KeyFindings, ChainSubtotal, AuthenticationPoints, Known, SameChainSeen;
  }

  lemma Sha3Chain(certs: Certificates, fingerprints: seq<string>)
    requires certs == map["leaf" := SHA3_CERTIFICATE, "root" := SHA3_CERTIFICATE] && fingerprints == ["leaf", "root"]
    ensures Known(certs, fingerprints) == [SHA3_CERTIFICATE, SHA3_CERTIFICATE]
  {
    assert fingerprints[1..] == ["root"] && fingerprints[1..][1..] == [];
    assert Known(certs, fingerprints[1..]) == [SHA3_CERTIFICATE] + Known(certs, []);
  }

  lemma Sha3Seen(certs: Certificates, e: Evidence)
    requires certs == map["leaf" := SHA3_CERTIFICATE, "root" := SHA3_CERTIFICATE] && e.fingerprints == ["leaf", "root"]
    ensures SameChainSeen(SHA3_PROFILE, certs, e, FactsOf(e))
  {
    Sha3Chain(certs, e.fingerprints);
    var chain := [SHA3_CERTIFICATE, SHA3_CERTIFICATE];
    assert ["ML-DSA-87"] + ["ML-DSA-87"] == SignatureNames(chain);
    assert ["sha3-256"] + ["sha3-256"] == HashNames(chain);
  }

  lemma Sha3Cost(w: AuthWeights, e: Evidence)
    requires w.signature.approved == 0 && e.level == "OS"
    ensures var chain := [SHA3_CERTIFICATE, SHA3_CERTIFICATE];
            && ChainSubtotal(w, SHA3_PROFILE, e, chain, Some(SHA3_CERTIFICATE), []) == w.hashNotApproved
            && HashGap(w, SHA3_PROFILE, chain) == w.hashNotApproved
  {
    var chain := [SHA3_CERTIFICATE, SHA3_CERTIFICATE];
    assert chain[1..] == [SHA3_CERTIFICATE] && chain[1..][1..] == [];
    assert Worst(chain, APPROVED) == Worst(chain[1..], APPROVED) == APPROVED;
    assert chain[0].hash.value in SHA3_PROFILE.failedHashes;
    assert DistinctCount([]) == 0 by { assert (set n: string | n in []) == {}; }
  }
}
