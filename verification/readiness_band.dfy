/** The readiness band: the greatest level whose conditions an endpoint meets. */
module ReadinessBand {
  import opened Bytes
  import opened ScoringModel
  import opened ScoringLaws
  import opened ScoringOrder

  /** What a level asks for; an empty set of readiness values asks for none in particular. */
  datatype Rules = Rules(readiness: set<Readiness>, needsPq: bool, maxConf: Option<nat>, maxAuth: Option<nat>)

  datatype BandModel = BandModel(levels: map<nat, Rules>, disqualifiers: set<string>, disqualifyObsolete: bool)

  predicate Within(score: Option<nat>, limit: Option<nat>) {
    limit.Some? ==> score.Some? && score.value <= limit.value
  }

  predicate Meets(rules: Rules, e: Evidence, v: Verdict) {
    && (rules.readiness != {} ==> v.readiness in rules.readiness)
    && (rules.needsPq ==> e.offersPq)
    && Within(v.conf, rules.maxConf) && Within(v.auth, rules.maxAuth)
  }

  predicate Disqualified(m: BandModel, e: Evidence, v: Verdict) {
    || (exists i :: 0 <= i < |v.failures| && v.failures[i] in m.disqualifiers)
    || (m.disqualifyObsolete && e.obsolete)
  }

  // ------------------------------------------------------ the levels in order

  ghost predicate Descending(order: seq<nat>) {
    forall i, j :: 0 <= i < j < |order| ==> order[i] > order[j]
  }

  lemma {:induction false} HasGreatest(keys: set<nat>)
    requires keys != {}
    ensures exists k :: Tops(keys, k)
  {
    var x :| x in keys;
    var rest := keys - {x};
    if rest == {} {
      assert Tops(keys, x) by { assert forall j :: j in keys ==> j == x || j in rest; }
    } else {
      HasGreatest(rest);
      var y :| Tops(rest, y);
      assert Tops(keys, if x > y then x else y) by { assert forall j :: j in keys ==> j == x || j in rest; }
    }
  }

  ghost predicate Tops(keys: set<nat>, k: nat) {
    k in keys && forall j :: j in keys ==> j <= k
  }

  function Greatest(keys: set<nat>): (k: nat)
    requires keys != {}
    ensures k in keys && forall j :: j in keys ==> j <= k
  {
    HasGreatest(keys);
    assert exists k :: k in keys && forall j :: j in keys ==> j <= k by { var k :| Tops(keys, k); }
    var k: nat :| k in keys && forall j :: j in keys ==> j <= k;
    k
  }

  /** The keys from the greatest down. */
  function SortedDown(keys: set<nat>): (order: seq<nat>)
    ensures Descending(order)
    ensures forall k :: k in order <==> k in keys
    decreases |keys|
  {
    if keys == {} then []
    else
      var k := Greatest(keys);
      var rest := SortedDown(keys - {k});
      assert forall j :: j in rest ==> j < k;
      [k] + rest
  }

  // -------------------------------------------------------------------- band

  /** `band` is the greatest level that is met, or 0 when none is. */
  ghost predicate IsBand(m: BandModel, e: Evidence, v: Verdict, band: nat) {
    && (forall k :: k in m.levels && Meets(m.levels[k], e, v) ==> k <= band)
    && ((band in m.levels && Meets(m.levels[band], e, v))
        || (band == 0 && forall k :: k in m.levels ==> !Meets(m.levels[k], e, v)))
  }

  function BandOf(m: BandModel, e: Evidence, v: Verdict): (band: nat)
    ensures IsBand(m, e, v, band)
  {
    var met := set k | k in m.levels && Meets(m.levels[k], e, v);
    assert forall k :: k in m.levels && Meets(m.levels[k], e, v) ==> k in met;
    if met == {} then 0 else Greatest(met)
  }

  /** Nothing else is the band. */
  lemma BandUnique(m: BandModel, e: Evidence, v: Verdict, band: nat)
    requires IsBand(m, e, v, band)
    ensures band == BandOf(m, e, v)
  {
  }

  /** A verdict with its band: none without a confidentiality score or a readiness, 0 when disqualified. */
  function Banded(m: BandModel, e: Evidence, v: Verdict): Verdict {
    if m.levels == map[] || v.conf.None? then v
    else if Disqualified(m, e, v) then v.(band := Some(0))
    else if v.readiness == Unknown then v
    else v.(band := Some(BandOf(m, e, v)))
  }

  // -------------------------------------------------------------- properties

  /** What a level asks for, condition by condition; a limit is not met without a score. */
  predicate Qualifies(rules: Rules, e: Evidence, v: Verdict) {
    && (rules.readiness == {} || v.readiness in rules.readiness)
    && (!rules.needsPq || e.offersPq)
    && (match rules.maxConf case None => true case Some(most) => v.conf.Some? && v.conf.value <= most)
    && (match rules.maxAuth case None => true case Some(most) => v.auth.Some? && v.auth.value <= most)
  }

  /** The band of a scored endpoint: 0 if any of its failures disqualifies or it is obsolete where that does; otherwise
      none without a readiness; otherwise the greatest level it qualifies for, or 0 when it qualifies for none. */
  lemma BandTable(m: BandModel, e: Evidence, v: Verdict)
    requires m.levels != map[] && v.conf.Some?
    ensures var struck := (exists f :: f in v.failures && f in m.disqualifiers) || (m.disqualifyObsolete && e.obsolete);
            var r := Banded(m, e, v);
            && (struck ==> r.band == Some(0))
            && (!struck && v.readiness == Unknown ==> r.band == v.band)
            && (!struck && v.readiness != Unknown ==>
                  && r.band.Some?
                  && (forall k :: k in m.levels && Qualifies(m.levels[k], e, v) ==> k <= r.band.value)
                  && (r.band.value == 0 || (r.band.value in m.levels && Qualifies(m.levels[r.band.value], e, v))))
  {
    DisqualifiedMeans(m, e, v);
    forall k | k in m.levels ensures Qualifies(m.levels[k], e, v) <==> Meets(m.levels[k], e, v) {
    }
    hide Disqualified, Qualifies, Meets;
  }

  lemma DisqualifiedMeans(m: BandModel, e: Evidence, v: Verdict)
    ensures Disqualified(m, e, v)
       <==> (exists f :: f in v.failures && f in m.disqualifiers) || (m.disqualifyObsolete && e.obsolete)
  {
    if f :| f in v.failures && f in m.disqualifiers {
      var i :| 0 <= i < |v.failures| && v.failures[i] == f;
    }
  }

  /** Without levels or without a score nothing changes, and nothing but the band ever does. */
  lemma BandAlone(m: BandModel, e: Evidence, v: Verdict)
    ensures m.levels == map[] || v.conf.None? ==> Banded(m, e, v) == v
    ensures Banded(m, e, v).(band := v.band) == v
  {
  }

  /** `b` does not score worse than `a`; a missing authentication score meets no limit. */
  predicate NoWorse(b: Verdict, a: Verdict) {
    && (a.conf.Some? ==> b.conf.Some? && b.conf.value <= a.conf.value)
    && (a.auth.Some? ==> b.auth.Some? && b.auth.value <= a.auth.value)
  }

  /** Lower scores never lower the band, whatever the levels are. */
  lemma LowerScoresNoLowerBand(m: BandModel, e: Evidence, a: Verdict, b: Verdict)
    requires a.conf.Some? && NoWorse(b, a) && a.readiness == b.readiness && a.failures == b.failures && a.band == b.band
    ensures var x, y := Banded(m, e, a).band, Banded(m, e, b).band;
            (x.Some? <==> y.Some?) && (x.Some? ==> y.value >= x.value)
  {
    forall k | k in m.levels && Meets(m.levels[k], e, a) ensures Meets(m.levels[k], e, b) {
    }
  }

  /** The profile gives every class that can be met a readiness. */
  ghost predicate ReadinessTotal(p: Profile) {
    forall c :: p.readiness(c) != Unknown
  }

  /** Where a score stands without a readiness: a measured group the profile gives none. */
  predicate UngradedGroup(p: Profile, e: Evidence, v: Verdict) {
    && e.service == Tls && NO_TLS !in v.failures && !e.obsolete
    && e.group.Some? && v.pqStatus != NotDeterminable && p.readiness(p.classifyGroup(e.group.value)) == Unknown
  }

  /** What is not measured has no score, no readiness and no band, in every service: of a fresh finding each
      says the same, exactly unless the profile leaves the group it negotiated without a readiness. */
  lemma UnmeasuredIsUnrated(m: BandModel, cw: ConfWeights, aw: AuthWeights, p: Profile, certs: Certificates,
                            e: Evidence, v: Verdict, s: Verdict, r: Verdict)
    requires Fresh(v) && m.levels != map[]
    requires s == Score(cw, aw, p, certs, e, v) && r == Banded(m, e, s)
    ensures r.conf.None? ==> r.readiness == Unknown && r.band.None?
    ensures r.conf.Some? ==> (r.readiness == Unknown <==> UngradedGroup(p, e, v))
    ensures r.conf.Some? ==> (r.band.None? <==> UngradedGroup(p, e, v) && !Disqualified(m, e, s))
  {
    hide Disqualified, BandOf, UngradedGroup, Score;
    ScoreRates(cw, aw, p, certs, e, v, s);
  }

  lemma ScoreRates(cw: ConfWeights, aw: AuthWeights, p: Profile, certs: Certificates, e: Evidence, v: Verdict,
                   s: Verdict)
    requires Fresh(v) && s == Score(cw, aw, p, certs, e, v)
    ensures s.band.None? && (s.conf.None? ==> s.readiness == Unknown)
    ensures s.conf.Some? ==> (s.readiness == Unknown <==> UngradedGroup(p, e, v))
  {
    match e.service
    case Tls =>
      TlsConfRates(cw, p, e, v);
      AuthKeepsConf(aw, p, certs, e, ScoreTlsConf(cw, p, e, v));
      hide ScoreTlsConf, ScoreTlsAuth;
    case Ssh =>
      hide SshConfLines, SshConfSubtotal, SshAuthLines, SshAuthSubtotal, Best, SshConfOffered, SshAuthOffered, Capped;
    case Ipsec =>
      hide IpsecConfLines, IpsecConfSubtotal, IpsecAuthLines, IpsecAuthSubtotal, Capped;
    case Domain =>
      hide DomainLines, Capped;
  }

  lemma TlsConfRates(w: ConfWeights, p: Profile, e: Evidence, v: Verdict)
    requires Fresh(v) && e.service == Tls
    ensures var s := ScoreTlsConf(w, p, e, v);
            && s.band.None? && (s.conf.None? ==> s.readiness == Unknown)
            && (s.conf.Some? ==> (s.readiness == Unknown <==> UngradedGroup(p, e, v)))
  {
    hide TlsLines, TlsSubtotal, ObsoleteLines, ObsoleteSubtotal, Capped, ProtocolLines, AddMissing, Labels, Exceeds;
  }

  /** With a readiness for every class, the three are one. */
  lemma MeasuredIsRated(m: BandModel, cw: ConfWeights, aw: AuthWeights, p: Profile, certs: Certificates,
                        e: Evidence, v: Verdict, s: Verdict, r: Verdict)
    requires Fresh(v) && m.levels != map[] && ReadinessTotal(p)
    requires s == Score(cw, aw, p, certs, e, v) && r == Banded(m, e, s)
    ensures r.conf.None? <==> r.readiness == Unknown
    ensures r.conf.None? <==> r.band.None?
  {
    UnmeasuredIsUnrated(m, cw, aw, p, certs, e, v, s, r);
  }

  /** A band already there is neither read nor written by scoring. */
  lemma ScoreKeepsBand(cw: ConfWeights, aw: AuthWeights, p: Profile, certs: Certificates, e: Evidence, v: Verdict,
                       band: Option<nat>)
    ensures Score(cw, aw, p, certs, e, v.(band := band)) == Score(cw, aw, p, certs, e, v).(band := band)
  {
    match e.service
    case Tls =>
      ConfKeepsBand(cw, p, e, v, band);
      AuthKeepsBand(aw, p, certs, e, ScoreTlsConf(cw, p, e, v), band);
      hide ScoreTlsConf, ScoreTlsAuth;
    case Ssh =>
      hide SshConfLines, SshConfSubtotal, SshAuthLines, SshAuthSubtotal, Best, SshConfOffered, SshAuthOffered, Capped;
    case Ipsec =>
      hide IpsecConfLines, IpsecConfSubtotal, IpsecAuthLines, IpsecAuthSubtotal, Capped;
    case Domain =>
      hide DomainLines, Capped;
  }

  lemma ConfKeepsBand(w: ConfWeights, p: Profile, e: Evidence, v: Verdict, band: Option<nat>)
    ensures ScoreTlsConf(w, p, e, v.(band := band)) == ScoreTlsConf(w, p, e, v).(band := band)
  {
    hide TlsLines, TlsSubtotal, ObsoleteLines, ObsoleteSubtotal, Capped, ProtocolLines, AddMissing, Labels, Exceeds;
  }

  lemma AuthKeepsBand(w: AuthWeights, p: Profile, certs: Certificates, e: Evidence, v: Verdict, band: Option<nat>)
    ensures ScoreTlsAuth(w, p, certs, e, v.(band := band)) == ScoreTlsAuth(w, p, certs, e, v).(band := band)
  {
  }

  /** Scoring and banding a second time changes no score, readiness, status, failure, class, explanation or band. */
  lemma BandedTwice(m: BandModel, cw: ConfWeights, aw: AuthWeights, p: Profile, certs: Certificates,
                    e: Evidence, v: Verdict, s: Verdict, r: Verdict, again: Verdict)
    requires s == Score(cw, aw, p, certs, e, v) && r == Banded(m, e, s)
    requires again == Banded(m, e, Score(cw, aw, p, certs, e, r))
    ensures SameVerdict(again, r)
  {
    hide Score, Disqualified, BandOf;
    ScoringTwice(cw, aw, p, certs, e, v, s);
    ScoreKeepsBand(cw, aw, p, certs, e, s, r.band);
    var t := Score(cw, aw, p, certs, e, r);
    assert r == s.(band := r.band);
    assert t == Score(cw, aw, p, certs, e, s).(band := r.band);
    FindingsDoNotBand(m, e, t, r);
    BandDoesNotBand(m, e, s, r.band);
  }

  lemma FindingsDoNotBand(m: BandModel, e: Evidence, a: Verdict, b: Verdict)
    requires SameVerdict(a, b)
    ensures Disqualified(m, e, a) == Disqualified(m, e, b) && BandOf(m, e, a) == BandOf(m, e, b)
  {
  }

  lemma BandDoesNotBand(m: BandModel, e: Evidence, v: Verdict, band: Option<nat>)
    ensures Disqualified(m, e, v) == Disqualified(m, e, v.(band := band))
            && BandOf(m, e, v) == BandOf(m, e, v.(band := band))
  {
  }

  // ---------------------------------------------------------- the shipped one

  const NONE := Rules({}, false, None, None)

  const SHIPPED := BandModel(
    map[5 := NONE.(readiness := {PurePqApproved}),
        4 := NONE.(readiness := {HybridTransitional}),
        3 := NONE.(readiness := {ClassicalOnly}, needsPq := true),
        2 := NONE.(maxConf := Some(75), maxAuth := Some(75)),
        1 := NONE.(maxConf := Some(100), maxAuth := Some(100)),
        0 := NONE],
    {"no_tls_offered", "null_or_export_cipher", "broken_stream_cipher", "obsolete_cipher", "weak_dh_parameters",
     "ike_version_not_approved", "ipsec_no_integrity_without_aead"},
    true)

  /** The shipped levels as a table. A classical endpoint that offers nothing post-quantum and has no
      authentication score falls to 0, as no limit is met without a score. */
  lemma ShippedBand(e: Evidence, v: Verdict, band: nat)
    requires band == BandOf(SHIPPED, e, v) && v.conf.Some? && v.readiness != Unknown
    ensures v.readiness == PurePqApproved ==> band == 5
    ensures v.readiness == HybridTransitional ==> band == 4
    ensures v.readiness == ClassicalOnly && e.offersPq ==> band == 3
    ensures v.readiness == ClassicalOnly && !e.offersPq ==>
              band == if v.conf.value <= 75 && v.auth.Some? && v.auth.value <= 75 then 2
                      else if v.conf.value <= 100 && v.auth.Some? && v.auth.value <= 100 then 1
                      else 0
  {
    var levels := SHIPPED.levels;
    assert levels.Keys == {0, 1, 2, 3, 4, 5};
    assert Meets(levels[0], e, v);
    assert Meets(levels[5], e, v) == (v.readiness == PurePqApproved);
    assert Meets(levels[4], e, v) == (v.readiness == HybridTransitional);
    assert Meets(levels[3], e, v) == (v.readiness == ClassicalOnly && e.offersPq);
  }

  /** The failures that the shipped model disqualifies for. */
  const STRUCK := {"no_tls_offered", "null_or_export_cipher", "broken_stream_cipher", "obsolete_cipher",
                   "weak_dh_parameters", "ike_version_not_approved", "ipsec_no_integrity_without_aead"}

  /** Under the shipped model, any of these failures and any obsolete endpoint is rated 0, and no other is unless by its
      level. */
  lemma ShippedDisqualifies(e: Evidence, v: Verdict)
    requires v.conf.Some?
    ensures (exists f :: f in v.failures && f in STRUCK) || e.obsolete ==> Banded(SHIPPED, e, v).band == Some(0)
    ensures !(exists f :: f in v.failures && f in STRUCK) && !e.obsolete && v.readiness != Unknown ==>
              Banded(SHIPPED, e, v).band == Some(BandOf(SHIPPED, e, v))
  {
    assert SHIPPED.disqualifiers == STRUCK && 0 in SHIPPED.levels;
    BandTable(SHIPPED, e, v);
  }

  /** A post-quantum key exchange is never rated below a classical one with the same failures, and above it unless both
      are struck out. */
  lemma PostQuantumNotBelowClassical(a: Evidence, b: Evidence, v: Verdict, w: Verdict)
    requires v.conf.Some? && w.conf.Some? && v.failures == w.failures && a.obsolete == b.obsolete
    requires v.readiness == PurePqApproved || v.readiness == HybridTransitional
    requires w.readiness == ClassicalOnly
    ensures Banded(SHIPPED, a, v).band.Some? && Banded(SHIPPED, b, w).band.Some?
    ensures Banded(SHIPPED, a, v).band.value >= Banded(SHIPPED, b, w).band.value
    ensures !(exists f :: f in v.failures && f in STRUCK) && !a.obsolete ==>
              Banded(SHIPPED, a, v).band.value > Banded(SHIPPED, b, w).band.value
  {
    hide Disqualified, BandOf, Banded;
    ShippedDisqualifies(a, v);
    ShippedDisqualifies(b, w);
    ShippedBand(a, v, BandOf(SHIPPED, a, v));
    ShippedBand(b, w, BandOf(SHIPPED, b, w));
  }
}
