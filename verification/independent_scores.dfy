/** The second scorer, written apart from the first, and where the two agree. */
module IndependentScores {
  import opened Bytes
  import opened ScoringModel
  import opened ScoringLaws
  import opened ScoringOrder

  /** What another TLS client saw of the endpoint, with what is known about the target. */
  datatype Facts = Facts(
    criticality: Criticality, lifetime: int, level: string,
    group: Option<string>, pqOffered: bool, tlsVersion: Option<string>, suite: Option<Suite>,
    leafSignature: string, signatures: seq<string>, leafHash: string, hashes: seq<string>,
    failures: seq<string>, keyAlgorithm: Option<string>, bits: Option<nat>, curve: Option<string>,
    notAfter: Option<int>)

  const BROKEN_HASHES := {"sha1", "md5"}
  const HASHES_UNTIL_2030 := {"sha224", "sha256"}

  /** The keys it knows by name. */
  const KEYS_SEEN := {"RSA", "ECDSA"}

  // -------------------------------------------------------------- what it adds

  function ConfidentialityPoints(w: ConfWeights, p: Profile, f: Facts, group: string): nat {
    w.keyExchange.Of(p.classifyGroup(group))
    + If(!f.pqOffered, w.noPqGroup)
    + If(f.tlsVersion.None? || f.tlsVersion.value !in p.approvedVersions, w.versionNotApproved)
    + If(f.suite.Some? && !f.suite.value.gcm, w.notAesGcm)
    + If(f.suite.Some? && f.suite.value.after2030, w.symmetricAfter2030)
    + If(f.suite.Some? && f.suite.value.notApproved, w.symmetricNotApproved)
    + If(f.tlsVersion != Some("TLSv1.3") && f.suite.Some? && !f.suite.value.ephemeral, w.noForwardSecrecy)
    + LifetimePoints(w, f.lifetime)
  }

  function Confidentiality(w: ConfWeights, p: Profile, f: Facts): Option<nat> {
    if f.group.None? then None
    else Some(Capped(w.cap, w.scale, f.criticality, ConfidentialityPoints(w, p, f, f.group.value)))
  }

  function Weakest(p: Profile, signatures: seq<string>, floor: Classification): Classification
    decreases signatures
  {
    if signatures == [] then floor
    else
      var class_ := p.classifySignature(signatures[0]);
      Weakest(p, signatures[1..], if Severity(class_) > Severity(floor) then class_ else floor)
  }

  function AllHashes(f: Facts): seq<string> {
    [f.leafHash] + f.hashes
  }

  predicate Names(hashes: seq<string>, names: set<string>) {
    exists i :: 0 <= i < |hashes| && hashes[i] in names
  }

  function HashCost(w: AuthWeights, f: Facts): nat {
    if Names(AllHashes(f), BROKEN_HASHES) then w.hashNotApproved
    else If(Names(AllHashes(f), HASHES_UNTIL_2030), w.hashAfter2030)
  }

  function KeyCost(w: AuthWeights, p: Profile, f: Facts): nat {
    if f.keyAlgorithm.None? || f.bits.None? || f.keyAlgorithm.value !in p.keyRules then 0
    else
      var rule := p.keyRules[f.keyAlgorithm.value];
      (if f.bits.value < rule.minimum then w.belowMinimum
       else If(rule.preferred.Some? && f.bits.value < rule.preferred.value, Min(w.belowPreferred, w.informationalCap)))
      + If(rule.preferredCurve.Some? && f.curve.Some? && f.curve != rule.preferredCurve,
           Min(w.belowPreferred, w.informationalCap))
  }

  function ExpiryCost(w: AuthWeights, p: Profile, f: Facts): nat {
    if f.notAfter.None? then 0
    else if f.notAfter.value > p.complete then w.notAfter2030
    else If(f.notAfter.value > p.started, w.notAfter2028)
  }

  function AuthenticationPoints(w: AuthWeights, p: Profile, f: Facts): nat {
    w.signature.Of(Weakest(p, [f.leafSignature] + f.signatures, APPROVED))
    + HashCost(w, f)
    + Min(w.failureCap, |f.failures| * w.failure)
    + KeyCost(w, p, f)
    + If(f.level in p.curveRules && f.curve.Some? && f.curve.value !in p.curveRules[f.level], w.curveViolation)
    + ExpiryCost(w, p, f)
  }

  function Authentication(w: AuthWeights, p: Profile, f: Facts): nat {
    Capped(w.cap, w.scale, f.criticality, AuthenticationPoints(w, p, f))
  }

  // ----------------------------------------------------------- as it works

  method WeakestOf(p: Profile, signatures: seq<string>) returns (weakest: Classification)
    ensures weakest == Weakest(p, signatures, APPROVED)
  {
    weakest := APPROVED;
    for i := 0 to |signatures|
      invariant Weakest(p, signatures[i..], weakest) == Weakest(p, signatures, APPROVED)
    {
      var class_ := p.classifySignature(signatures[i]);
      assert signatures[i..][1..] == signatures[i + 1..];
      if Severity(class_) > Severity(weakest) {
        weakest := class_;
      }
    }
  }

  method IndependentConfidentiality(w: ConfWeights, p: Profile, f: Facts) returns (confidentiality: Option<nat>)
    ensures confidentiality == Confidentiality(w, p, f)
  {
    if f.group.None? {
      return None;
    }
    var base := w.keyExchange.Of(p.classifyGroup(f.group.value));
    if !f.pqOffered {
      base := base + w.noPqGroup;
    }
    if f.tlsVersion.None? || f.tlsVersion.value !in p.approvedVersions {
      base := base + w.versionNotApproved;
    }
    assert base == w.keyExchange.Of(p.classifyGroup(f.group.value)) + If(!f.pqOffered, w.noPqGroup)
                   + If(f.tlsVersion.None? || f.tlsVersion.value !in p.approvedVersions, w.versionNotApproved);
    base := ChargeSuite(base, w, f);
    if f.lifetime > 10 {
      base := base + w.over10;
    } else if f.lifetime >= 5 {
      base := base + w.from5To10;
    }
    confidentiality := Some(Min(w.cap, w.scale(f.criticality, base)));
  }

  method ChargeSuite(points: nat, w: ConfWeights, f: Facts) returns (base: nat)
    ensures base == points
                    + If(f.suite.Some? && !f.suite.value.gcm, w.notAesGcm)
                    + If(f.suite.Some? && f.suite.value.after2030, w.symmetricAfter2030)
                    + If(f.suite.Some? && f.suite.value.notApproved, w.symmetricNotApproved)
                    + If(f.tlsVersion != Some("TLSv1.3") && f.suite.Some? && !f.suite.value.ephemeral,
                         w.noForwardSecrecy)
  {
    base := points;
    if f.suite.Some? && !f.suite.value.gcm {
      base := base + w.notAesGcm;
    }
    if f.suite.Some? && f.suite.value.after2030 {
      base := base + w.symmetricAfter2030;
    }
    if f.suite.Some? && f.suite.value.notApproved {
      base := base + w.symmetricNotApproved;
    }
    if f.tlsVersion != Some("TLSv1.3") && f.suite.Some? && !f.suite.value.ephemeral {
      base := base + w.noForwardSecrecy;
    }
  }

  method IndependentAuthentication(w: AuthWeights, p: Profile, f: Facts) returns (authentication: nat)
    ensures authentication == Authentication(w, p, f)
  {
    var weakest := WeakestOf(p, [f.leafSignature] + f.signatures);
    hide Weakest, HashCost, KeyCost, ExpiryCost, Names;
    authentication := w.signature.Of(weakest);
    authentication := ChargeHashes(authentication, w, f);
    authentication := authentication + Min(w.failureCap, |f.failures| * w.failure);
    authentication := ChargeKeySize(authentication, w, p, f);
    if f.level in p.curveRules && f.curve.Some? && f.curve.value !in p.curveRules[f.level] {
      authentication := authentication + w.curveViolation;
    }
    authentication := ChargeValidity(authentication, w, p, f);
    authentication := Min(w.cap, w.scale(f.criticality, authentication));
  }

  method ChargeHashes(points: nat, w: AuthWeights, f: Facts) returns (authentication: nat)
    ensures authentication == points + HashCost(w, f)
  {
    authentication := points;
    var hashes := [f.leafHash] + f.hashes;
    if exists i :: 0 <= i < |hashes| && hashes[i] in BROKEN_HASHES {
      authentication := authentication + w.hashNotApproved;
    } else if exists i :: 0 <= i < |hashes| && hashes[i] in HASHES_UNTIL_2030 {
      authentication := authentication + w.hashAfter2030;
    }
  }

  method ChargeKeySize(points: nat, w: AuthWeights, p: Profile, f: Facts) returns (authentication: nat)
    ensures authentication == points + KeyCost(w, p, f)
  {
    authentication := points;
    if f.keyAlgorithm.Some? && f.bits.Some? && f.keyAlgorithm.value in p.keyRules {
      var rule := p.keyRules[f.keyAlgorithm.value];
      if f.bits.value < rule.minimum {
        authentication := authentication + w.belowMinimum;
      } else if rule.preferred.Some? && f.bits.value < rule.preferred.value {
        authentication := authentication + Min(w.belowPreferred, w.informationalCap);
      }
      if rule.preferredCurve.Some? && f.curve.Some? && f.curve != rule.preferredCurve {
        authentication := authentication + Min(w.belowPreferred, w.informationalCap);
      }
    }
  }

  method ChargeValidity(points: nat, w: AuthWeights, p: Profile, f: Facts) returns (authentication: nat)
    ensures authentication == points + ExpiryCost(w, p, f)
  {
    authentication := points;
    if f.notAfter.Some? {
      if f.notAfter.value > p.complete {
        authentication := authentication + w.notAfter2030;
      } else if f.notAfter.value > p.started {
        authentication := authentication + w.notAfter2028;
      }
    }
  }

  // ------------------------------------------------- the same endpoint, seen twice

  function SignatureNames(chain: seq<Certificate>): seq<string> {
    seq(|chain|, i requires 0 <= i < |chain| => chain[i].signature)
  }

  /** An absent hash is written as the empty name. */
  function HashNames(chain: seq<Certificate>): seq<string> {
    seq(|chain|, i requires 0 <= i < |chain| => if chain[i].hash.Some? then chain[i].hash.value else "")
  }

  /** `f` says of the session what the finding says. */
  ghost predicate SameSession(e: Evidence, v: Verdict, f: Facts) {
    && f.criticality == e.criticality && f.lifetime == e.lifetime && f.level == e.level
    && f.group == e.group && f.tlsVersion == e.tlsVersion && f.suite == e.suite
    && v.pqStatus != NotDeterminable && (v.pqStatus == NotSupported <==> !f.pqOffered)
  }

  /** `f` says of the chain what the inventory says, every certificate of it known and classified by the profile. */
  ghost predicate SameChainSeen(p: Profile, certs: Certificates, e: Evidence, f: Facts) {
    && e.fingerprints != [] && (forall i :: 0 <= i < |e.fingerprints| ==> e.fingerprints[i] in certs)
    && var chain := Known(certs, e.fingerprints);
    && (forall i :: 0 <= i < |chain| ==> chain[i].class_ == p.classifySignature(chain[i].signature))
    && [f.leafSignature] + f.signatures == SignatureNames(chain)
    && [f.leafHash] + f.hashes == HashNames(chain)
    && var leaf := certs[e.fingerprints[0]];
    && f.keyAlgorithm == (if leaf.keyAlgorithm in KEYS_SEEN then Some(leaf.keyAlgorithm) else None)
        && f.bits == leaf.keySize
    && f.curve == leaf.keyCurve && f.notAfter == leaf.notAfter
  }

  /** The two tell the same hashes of this chain apart: no SHA-3, which only the profile rejects. */
  ghost predicate SameHashes(p: Profile, chain: seq<Certificate>) {
    forall i :: 0 <= i < |chain| ==>
      match chain[i].hash
      case None => "" !in p.failedHashes && "" !in p.hashesUntil2030
      case Some(h) =>
        && (h in p.failedHashes <==> h in BROKEN_HASHES)
        && (h in p.hashesUntil2030 <==> h in HASHES_UNTIL_2030)
  }

  // ------------------------------------------------------------ confidentiality

  /** What the second scorer charges over the first when no version is known: it takes that for an unapproved one. */
  function VersionGap(w: ConfWeights, e: Evidence): nat {
    If(e.tlsVersion.None?, w.versionNotApproved)
  }

  /** The first scorer also counts the accepted suites and the lack of any encryption, the second a missing version. */
  lemma ConfidentialityGap(w: ConfWeights, p: Profile, e: Evidence, v: Verdict, f: Facts)
    requires SameSession(e, v, f) && e.group.Some?
    ensures TlsSubtotal(w, p, e, e.group.value, v.pqStatus) + VersionGap(w, e)
         == ConfidentialityPoints(w, p, f, e.group.value) + UnseenPenalty(w, e)
  {
    hide UnseenPenalty, LifetimePoints;
  }

  /** Without a group neither gives a confidentiality score. With one, the scorer that counts more on its own account
      is not below the other, so they agree wherever the two accounts are the same, as where both are empty. */
  lemma ConfidentialityAgrees(w: ConfWeights, p: Profile, e: Evidence, v: Verdict, f: Facts, a: Option<nat>,
                              b: Option<nat>)
    requires ValidConf(w) && SameSession(e, v, f)
    requires !e.obsolete && NO_TLS !in v.failures
    requires a == ScoreTlsConf(w, p, e, v).conf && b == Confidentiality(w, p, f)
    ensures e.group.None? ==> a == b == None
    ensures VersionGap(w, e) <= UnseenPenalty(w, e) ==> NotAbove(b, a)
    ensures UnseenPenalty(w, e) <= VersionGap(w, e) ==> NotAbove(a, b)
    ensures UnseenPenalty(w, e) == VersionGap(w, e) ==> a == b
  {
    hide TlsSubtotal, ConfidentialityPoints, UnseenPenalty, ProtocolLines, TlsLines, AddMissing, Labels, Exceeds,
         Capped, ObsoleteLines, ObsoleteSubtotal;
    if e.group.Some? {
      var x, y := TlsSubtotal(w, p, e, e.group.value, v.pqStatus), ConfidentialityPoints(w, p, f, e.group.value);
      ConfidentialityGap(w, p, e, v, f);
      CappedBothWays(w.cap, w.scale, e.criticality, x, y);
    }
  }

  lemma CappedBothWays(cap: nat, scale: Scale, c: Criticality, x: nat, y: nat)
    requires ValidScale(scale)
    ensures x <= y ==> Capped(cap, scale, c, x) <= Capped(cap, scale, c, y)
    ensures y <= x ==> Capped(cap, scale, c, y) <= Capped(cap, scale, c, x)
  {
  }

  // ------------------------------------------------------------- authentication

  /** Which hashes the second scorer knows, and what it makes of them. */
  lemma SecondHashes(w: AuthWeights, f: Facts)
    ensures var all := [f.leafHash] + f.hashes;
            HashCost(w, f) == if "sha1" in all || "md5" in all then w.hashNotApproved
                              else if "sha224" in all || "sha256" in all then w.hashAfter2030 else 0
  {
    NamesAre(AllHashes(f), "sha1", "md5");
    NamesAre(AllHashes(f), "sha224", "sha256");
  }

  lemma NamesAre(hashes: seq<string>, a: string, b: string)
    ensures Names(hashes, {a, b}) <==> a in hashes || b in hashes
  {
    if a in hashes {
      var i :| 0 <= i < |hashes| && hashes[i] == a;
    }
    if b in hashes {
      var i :| 0 <= i < |hashes| && hashes[i] == b;
    }
  }

  lemma {:induction false} KnownAll(certs: Certificates, fingerprints: seq<string>)
    requires forall i :: 0 <= i < |fingerprints| ==> fingerprints[i] in certs
    ensures |Known(certs, fingerprints)| == |fingerprints|
    ensures fingerprints != [] ==> Known(certs, fingerprints)[0] == certs[fingerprints[0]]
  {
    if fingerprints != [] {
      KnownAll(certs, fingerprints[1..]);
    }
  }

  lemma {:induction false} WeakestIsWorst(p: Profile, chain: seq<Certificate>, floor: Classification)
    requires forall i :: 0 <= i < |chain| ==> chain[i].class_ == p.classifySignature(chain[i].signature)
    ensures Weakest(p, SignatureNames(chain), floor) == Worst(chain, floor)
    decreases chain
  {
    if chain != [] {
      assert SignatureNames(chain)[1..] == SignatureNames(chain[1..]);
      WeakestIsWorst(p, chain[1..], if Severity(chain[0].class_) > Severity(floor) then chain[0].class_ else floor);
    }
  }

  /** What a chain's hashes cost under these two tiers. */
  function TierPoints(w: AuthWeights, chain: seq<Certificate>, failed: set<string>, until2030: set<string>): nat {
    if HasHash(chain, failed) then w.hashNotApproved else If(HasHash(chain, until2030), w.hashAfter2030)
  }

  /** What the first scorer charges over the second, which has its own two lists, for the same hashes. */
  function HashGap(w: AuthWeights, p: Profile, chain: seq<Certificate>): int {
    TierPoints(w, chain, p.failedHashes, p.hashesUntil2030) - TierPoints(w, chain, BROKEN_HASHES, HASHES_UNTIL_2030)
  }

  lemma HashesSeen(w: AuthWeights, p: Profile, chain: seq<Certificate>, f: Facts)
    requires AllHashes(f) == HashNames(chain)
    ensures HashPoints(w, p, chain) == HashCost(w, f) + HashGap(w, p, chain)
  {
    hide HasHash, Names;
    NamesSeen(chain, BROKEN_HASHES);
    NamesSeen(chain, HASHES_UNTIL_2030);
  }

  lemma NamesSeen(chain: seq<Certificate>, a: set<string>)
    requires "" !in a
    ensures Names(HashNames(chain), a) <==> HasHash(chain, a)
  {
    var names := HashNames(chain);
    if Names(names, a) {
      var i :| 0 <= i < |names| && names[i] in a;
      assert chain[i].hash.Some?;
    }
    if HasHash(chain, a) {
      var i :| 0 <= i < |chain| && chain[i].hash.Some? && chain[i].hash.value in a;
      assert names[i] in a;
    }
  }

  /** The profile rejects what the second scorer calls broken, perhaps more, and agrees on the middle tier. */
  ghost predicate HashTables(p: Profile) {
    BROKEN_HASHES <= p.failedHashes && p.hashesUntil2030 == HASHES_UNTIL_2030
  }

  /** A hash in this chain that only the profile rejects, as it does SHA-3, with none that both do. */
  predicate RejectedUnseen(p: Profile, chain: seq<Certificate>) {
    HasHash(chain, p.failedHashes) && !HasHash(chain, BROKEN_HASHES)
  }

  /** Under such tables the second scorer never charges more for the hashes, and charges the same exactly when nothing
      is rejected that it does not know, or when that costs what it charges instead. */
  lemma HashGapExact(w: AuthWeights, p: Profile, chain: seq<Certificate>)
    requires ValidAuth(w) && HashTables(p)
    ensures HashGap(w, p, chain) >= 0
    ensures HashGap(w, p, chain) == 0
       <==> !RejectedUnseen(p, chain) || w.hashNotApproved == If(HasHash(chain, HASHES_UNTIL_2030), w.hashAfter2030)
  {
    hide ValidScale;
    HasHashMore(chain, BROKEN_HASHES, p.failedHashes);
  }

  lemma HasHashMore(chain: seq<Certificate>, a: set<string>, b: set<string>)
    requires a <= b
    ensures HasHash(chain, a) ==> HasHash(chain, b)
  {
  }

  lemma SameHashesNoGap(w: AuthWeights, p: Profile, chain: seq<Certificate>)
    requires SameHashes(p, chain)
    ensures HashGap(w, p, chain) == 0
  {
  }

  /** The second scorer looks at the leaf's key at all. */
  predicate KeySeen(leaf: Option<Certificate>) {
    leaf.Some? && leaf.value.keyAlgorithm in KEYS_SEEN && leaf.value.keySize.Some?
  }

  /** What the first scorer charges for a key that the second does not look at, as it does not know its kind or size. */
  function UnseenKey(w: AuthWeights, p: Profile, leaf: Option<Certificate>): nat {
    if KeySeen(leaf) then 0
    else If(BelowMinimum(p, leaf), w.belowMinimum) + Min(InformationalPoints(w, p, leaf), w.informationalCap)
  }

  /** Both notes apply to the leaf's key, and both scorers see it. */
  predicate TwoNotes(p: Profile, leaf: Option<Certificate>) {
    KeySeen(leaf) && BelowPreferred(p, leaf) && CurveNotPreferred(p, leaf)
  }

  /** What the second scorer charges over the first for two notes, each capped on its own. */
  function NotesGap(w: AuthWeights, p: Profile, leaf: Option<Certificate>): nat {
    if !TwoNotes(p, leaf) then 0
    else 2 * Min(w.belowPreferred, w.informationalCap) - Min(2 * w.belowPreferred, w.informationalCap)
  }

  lemma {:induction false} DistinctAtMost(names: seq<string>)
    ensures DistinctCount(names) <= |names|
    ensures DistinctCount(names) == |names| <==> AllDistinct(names)
  {
    if names == [] {
      assert (set n | n in names) == {};
    } else {
      var rest := names[1..];
      DistinctAtMost(rest);
      DistinctFirst(names);
      OneMoreName(names);
    }
  }

  ghost predicate AllDistinct(names: seq<string>) {
    forall i, j :: 0 <= i < j < |names| ==> names[i] != names[j]
  }

  lemma DistinctFirst(names: seq<string>)
    requires names != []
    ensures AllDistinct(names) <==> names[0] !in names[1..] && AllDistinct(names[1..])
  {
  }

  lemma OneMoreName(names: seq<string>)
    requires names != []
    ensures DistinctCount(names) == DistinctCount(names[1..]) + if names[0] in names[1..] then 0 else 1
  {
    var all, others := set n | n in names, set n | n in names[1..];
    assert names == [names[0]] + names[1..];
    assert all == others + {names[0]};
  }

  /** What it charges over the first for failures listed more than once. */
  function RepeatsGap(w: AuthWeights, failures: seq<string>): int {
    Min(w.failureCap, |failures| * w.failure) - FailurePoints(w, failures)
  }

  lemma RepeatsGapNonNegative(w: AuthWeights, failures: seq<string>)
    ensures RepeatsGap(w, failures) >= 0
    ensures AllDistinct(failures) ==> RepeatsGap(w, failures) == 0
  {
    DistinctAtMost(failures);
    Scaled(DistinctCount(failures), |failures|, w.failure);
  }

  lemma NotesGapZero(w: AuthWeights, p: Profile, leaf: Option<Certificate>)
    ensures NotesGap(w, p, leaf) == 0
       <==> !TwoNotes(p, leaf) || 2 * w.belowPreferred <= w.informationalCap || w.informationalCap == 0
  {
  }

  lemma KeysAgree(w: AuthWeights, p: Profile, certs: Certificates, e: Evidence, f: Facts)
    requires SameChainSeen(p, certs, e, f)
    ensures KeyCost(w, p, f) + UnseenKey(w, p, Leaf(certs, e))
         == If(BelowMinimum(p, Leaf(certs, e)), w.belowMinimum)
            + Min(InformationalPoints(w, p, Leaf(certs, e)), w.informationalCap) + NotesGap(w, p, Leaf(certs, e))
  {
  }

  /** What only the first scorer charges for a chain: hashes that only the profile rejects, and a key the second does
      not look at. */
  function FirstAlone(w: AuthWeights, p: Profile, certs: Certificates, e: Evidence): int {
    HashGap(w, p, Known(certs, e.fingerprints)) + UnseenKey(w, p, Leaf(certs, e))
  }

  /** What only the second charges: repeated failures, and the second of two notes over their cap. */
  function SecondAlone(w: AuthWeights, p: Profile, certs: Certificates, e: Evidence, failures: seq<string>): int {
    RepeatsGap(w, failures) + NotesGap(w, p, Leaf(certs, e))
  }

  /** On the same endpoint the two subtotals differ by exactly what each charges alone. */
  lemma AuthenticationGap(w: AuthWeights, p: Profile, certs: Certificates, e: Evidence, f: Facts, failures: seq<string>)
    requires SameChainSeen(p, certs, e, f) && f.level == e.level && f.failures == failures
    ensures AuthenticationPoints(w, p, f) + FirstAlone(w, p, certs, e)
         == ChainSubtotal(w, p, e, Known(certs, e.fingerprints), Leaf(certs, e), failures)
            + SecondAlone(w, p, certs, e, failures)
  {
    hide Weakest, HashCost, HashPoints, KeyCost, NotesGap, InformationalPoints, BelowMinimum, FailurePoints, Known,
         Worst,
         HashGap, UnseenKey;
    var chain := Known(certs, e.fingerprints);
    KnownAll(certs, e.fingerprints);
    WeakestIsWorst(p, chain, APPROVED);
    HashesSeen(w, p, chain, f);
    KeysAgree(w, p, certs, e, f);
  }

  /** For every chain of known certificates that is not obsolete, with the failure of a lone one among the facts: the
      scorer that charges more alone is not below the other, so they agree wherever they charge the same alone. */
  lemma AuthenticationAgrees(w: AuthWeights, p: Profile, certs: Certificates, e: Evidence, v: Verdict, f: Facts,
                             a: Option<nat>, b: nat)
    requires ValidAuth(w) && !e.obsolete && f.criticality == e.criticality && f.level == e.level
    requires SameChainSeen(p, certs, e, f) && f.failures == ChainFailures(certs, e, v.failures)
    requires a == ScoreTlsAuth(w, p, certs, e, v).auth && b == Authentication(w, p, f)
    ensures FirstAlone(w, p, certs, e) <= SecondAlone(w, p, certs, e, f.failures) ==> NotAbove(a, Some(b))
    ensures SecondAlone(w, p, certs, e, f.failures) <= FirstAlone(w, p, certs, e) ==> NotAbove(Some(b), a)
    ensures FirstAlone(w, p, certs, e) == SecondAlone(w, p, certs, e, f.failures) ==> a == Some(b)
  {
    hide ChainSubtotal, AuthenticationPoints, Known, Worst, Capped, ChainFailures, ChainLines, KeyFindings, FirstAlone,
         SecondAlone, Leaf;
    var x := ChainSubtotal(w, p, e, Known(certs, e.fingerprints), Leaf(certs, e), f.failures);
    AuthenticationGap(w, p, certs, e, f, f.failures);
    CappedBothWays(w.cap, w.scale, e.criticality, x, AuthenticationPoints(w, p, f));
  }

  /** The two scorers return the same pair for every TLS finding of two or more known certificates, distinct
      failures and a known group and version, with no accepted-suite list, no suite without encryption and
      weights under which two notes fit their cap. */
  lemma ScorersAgree(cw: ConfWeights, aw: AuthWeights, p: Profile, certs: Certificates, e: Evidence, v: Verdict,
                     f: Facts, r: Verdict)
    requires ValidConf(cw) && ValidAuth(aw) && 2 * aw.belowPreferred <= aw.informationalCap
    requires e.service == Tls && !e.obsolete && NO_TLS !in v.failures && |e.fingerprints| >= 2
    requires SameSession(e, v, f) && e.group.Some? && e.tlsVersion.Some?
    requires e.accepted == [] && (e.suite.Some? ==> !e.suite.value.noEncryption)
    requires SameChainSeen(p, certs, e, f) && SameHashes(p, Known(certs, e.fingerprints)) && KeySeen(Leaf(certs, e))
    requires f.failures == v.failures && AllDistinct(v.failures)
    requires r == Score(cw, aw, p, certs, e, v)
    ensures r.conf == Confidentiality(cw, p, f) && r.auth == Some(Authentication(aw, p, f))
  {
    hide ScoreTlsConf, ScoreTlsAuth, Confidentiality, Authentication, SameChainSeen, SameHashes, RepeatsGap, NotesGap,
         Known;
    var c := ScoreTlsConf(cw, p, e, v);
    ConfKeepsFailures(cw, p, e, v);
    ConfidentialityAgrees(cw, p, e, v, f, c.conf, Confidentiality(cw, p, f));
    AuthenticationAgrees(aw, p, certs, e, c, f, ScoreTlsAuth(aw, p, certs, e, c).auth, Authentication(aw, p, f));
    RepeatsGapNonNegative(aw, f.failures);
    SameHashesNoGap(aw, p, Known(certs, e.fingerprints));
    NotesGapZero(aw, p, Leaf(certs, e));
    AuthKeepsConf(aw, p, certs, e, c);
  }
}
