/** What every run of the IKE probe keeps, whatever the responder answers. */
module IkeRuns {
  import opened Bytes
  import opened IkeNames
  import opened IkeCodec
  import opened IkeRoundTrip
  import opened IkeProbe

  /** `b` repeats `a` with the cookie `a` was answered with, and with nothing else changed. */
  ghost predicate CookieRetry(port: nat, a: Exchange, b: Exchange) {
    && Usable(port, a) && a.cookie.None? && b.cookie.Some?
    && Answer(port, a).obs.cookie == Some(b.cookie.value)
    && b.spi == a.spi && b.body == a.body && b.group == a.group
  }

  /** `b` starts afresh in the group that the answer to `a` named first. */
  ghost predicate GroupRetry(port: nat, a: Exchange, b: Exchange) {
    && Usable(port, a) && b.cookie.None? && b.group != a.group
    && FirstInvalidKe(Answer(port, a).obs.notifyErrors) == Some(INVALID_KE_PREFIX + GroupName(b.group))
  }

  /** Why exchange `i` was made, in a run whose first exchange is `n`. */
  ghost predicate Linked(port: nat, log: seq<Exchange>, n: nat, i: int)
    requires n < i < |log|
  {
    || CookieRetry(port, log[i - 1], log[i])
    || GroupRetry(port, log[i - 1], log[i])
    || (i - 2 >= n && CookieRetry(port, log[i - 2], log[i - 1]) && !Echoes(port, log[i - 1])
        && GroupRetry(port, log[i - 2], log[i]))
  }

  /** Exchange `k` was challenged, and its challenge answered to the responder's content. */
  ghost predicate AnsweredChallenge(port: nat, log: seq<Exchange>, k: nat) {
    k + 1 < |log| && CookieRetry(port, log[k], log[k + 1]) && Echoes(port, log[k + 1])
  }

  /** A request made at `m` brought an encryption, over an answered challenge if there was one. */
  ghost predicate Gives(port: nat, log: seq<Exchange>, m: nat)
    requires m < |log|
  {
    var t := if AnsweredChallenge(port, log, m) then m + 1 else m;
    Echoes(port, log[t]) && Answer(port, log[t]).obs.encryption.Some?
  }

  /** The answer to `b` takes the place of the answer to `a`: as the answer to its challenge or, failing one, as the
      answer in the group it asked for, if that brought an encryption. */
  ghost predicate Replaces(port: nat, log: seq<Exchange>, a: nat, b: nat) {
    && a < b < |log|
    && if AnsweredChallenge(port, log, a) then b == a + 1 else GroupRetry(port, log[a], log[b]) && Gives(port, log, b)
  }

  /** The exchanges from `n` on, each replacing the one before, as far as there is one that does. */
  ghost predicate Trail(port: nat, log: seq<Exchange>, n: nat, trail: seq<nat>) {
    && trail != [] && trail[0] == n && (forall i :: 0 <= i < |trail| ==> trail[i] < |log|)
    && (forall i :: 0 < i < |trail| ==> Replaces(port, log, trail[i - 1], trail[i]))
    && (forall i, b :: 0 <= i < |trail| && Replaces(port, log, trail[i], b) ==> i + 1 < |trail| && trail[i + 1] == b)
  }

  /** There is but one such trail. */
  lemma TrailIsUnique(port: nat, log: seq<Exchange>, n: nat, s: seq<nat>, t: seq<nat>)
    requires Trail(port, log, n, s) && Trail(port, log, n, t)
    ensures s == t
  {
    hide Replaces;
    SameSteps(port, log, n, s, t);
    SameSteps(port, log, n, t, s);
  }

  lemma SameSteps(port: nat, log: seq<Exchange>, n: nat, s: seq<nat>, t: seq<nat>)
    requires Trail(port, log, n, s) && Trail(port, log, n, t)
    ensures |s| <= |t| && forall i :: 0 <= i < |s| ==> s[i] == t[i]
  {
    hide Replaces;
    for k := 1 to |s|
      invariant k <= |t| && forall i :: 0 <= i < k ==> s[i] == t[i]
    {
      assert Replaces(port, log, s[k - 1], s[k]);
    }
  }

  /** The notes along a trail: one for each answered challenge, in place of what the challenge itself said, and all
      those of an exchange that was asked for another group, before those of the last. */
  ghost function NotesAlong(port: nat, log: seq<Exchange>, trail: seq<nat>): seq<string>
    requires trail != [] && forall i :: 0 <= i < |trail| ==> trail[i] < |log|
  {
    var own := Answer(port, log[trail[0]]).obs.notifyErrors;
    if |trail| == 1 then own
    else (if log[trail[1]].cookie.Some? then ["COOKIE_CHALLENGE_ANSWERED"] else own) + NotesAlong(port, log, trail[1..])
  }

  /** The observation is the answer to the last exchange of the trail, with the notes along the trail. */
  ghost predicate Reports(port: nat, log: seq<Exchange>, n: nat, trail: seq<nat>, o: Obs) {
    && Trail(port, log, n, trail)
    && o == Answer(port, log[trail[|trail| - 1]]).obs.(notifyErrors := NotesAlong(port, log, trail))
  }

  lemma ReportsAlone(port: nat, log: seq<Exchange>, n: nat)
    requires n < |log| && forall b :: !Replaces(port, log, n, b)
    ensures Reports(port, log, n, [n], Answer(port, log[n]).obs)
  {
    hide Replaces, Answer;
  }

  /** What a later exchange reports, with the note or the notes of the one it replaces in front. */
  lemma ReportsBefore(port: nat, log: seq<Exchange>, n: nat, m: nat, trail: seq<nat>, o: Obs)
    requires n < |log| && Reports(port, log, m, trail, o) && Replaces(port, log, n, m)
    requires forall b :: Replaces(port, log, n, b) ==> b == m
    ensures var own := Answer(port, log[n]).obs.notifyErrors;
            var notes := if log[m].cookie.Some? then ["COOKIE_CHALLENGE_ANSWERED"] else own;
            Reports(port, log, n, [n] + trail, o.(notifyErrors := notes + o.notifyErrors))
  {
    hide Answer, Replaces;
    var longer := [n] + trail;
    assert longer[1..] == trail;
    forall i, b: nat | 0 <= i < |longer| && Replaces(port, log, longer[i], b)
      ensures i + 1 < |longer| && longer[i + 1] == b
    {
      if i > 0 {
        assert longer[i] == trail[i - 1];
      }
    }
    forall i | 0 < i < |longer| ensures Replaces(port, log, longer[i - 1], longer[i]) {
      if i > 1 {
        assert longer[i] == trail[i - 1] && longer[i - 1] == trail[i - 2];
      }
    }
    assert Trail(port, log, n, longer);
  }

  /** Where nothing may be retried, a report tells whether what was asked gave anything. */
  lemma ReportGives(port: nat, log: seq<Exchange>, m: nat, trail: seq<nat>, o: Obs)
    requires m < |log| && Reports(port, log, m, trail, o)
    requires forall i :: m < i < |log| ==> log[i].cookie.Some?
    ensures Gives(port, log, m) <==> o.responded && o.encryption.Some?
  {
    hide Answer, Echoes;
    SettledTrail(port, log, m, trail);
    var t := if AnsweredChallenge(port, log, m) then m + 1 else m;
    AnswerResponded(port, log[t]);
  }

  lemma SettledTrail(port: nat, log: seq<Exchange>, m: nat, trail: seq<nat>)
    requires m < |log| && Trail(port, log, m, trail) && forall i :: m < i < |log| ==> log[i].cookie.Some?
    ensures trail == if AnsweredChallenge(port, log, m) then [m, m + 1] else [m]
  {
    hide Answer, Echoes, Usable, Gives;
    if AnsweredChallenge(port, log, m) {
      assert Replaces(port, log, m, m + 1);
      NothingReplaces(port, log, m, m + 1);
      TrailIsUnique(port, log, m, trail, [m, m + 1]);
    } else {
      NothingReplaces(port, log, m, m);
      TrailIsUnique(port, log, m, trail, [m]);
    }
  }

  /** With cookies in all that follows, nothing asks in another group. */
  lemma NothingReplaces(port: nat, log: seq<Exchange>, m: nat, k: nat)
    requires forall i :: m < i < |log| ==> log[i].cookie.Some?
    requires m <= k < |log| && !AnsweredChallenge(port, log, k)
    ensures forall b :: !Replaces(port, log, k, b)
  {
    hide Answer, Echoes, Usable, Gives;
  }

  /** Every exchange sends the packet built from its own SPI, cookie and body, and draws these anew unless it answers a
      challenge. */
  ghost predicate WellSent(w: World, port: nat, log: seq<Exchange>, i: int)
    requires 0 <= i < |log|
  {
    var e := log[i];
    && e.packet == OnWire(port, IkeSaInit(e.spi, e.cookie, e.body)) && e.reply == w.respond(log[..i], e.packet)
    && (e.cookie.None? ==> e.spi == w.spi(i) && e.body == SaInitBody(e.group, w.keyValue(i, e.group), w.nonce(i)))
  }

  /** Exchange `k` was told to ask in the group `code`. */
  ghost predicate ToldGroup(port: nat, e: Exchange, code: uint16) {
    Usable(port, e) && WantedGroup(Answer(port, e).obs.notifyErrors) == Some(code) && code != e.group
  }

  /** The exchange carried no cookie and was told to. */
  ghost predicate AsksForCookie(port: nat, e: Exchange) {
    Usable(port, e) && Answer(port, e).obs.cookie.Some? && e.cookie.None?
  }

  /** Every first challenge was taken up. */
  ghost predicate ChallengesTaken(port: nat, log: seq<Exchange>, n: nat) {
    forall k :: n <= k < |log| && AsksForCookie(port, log[k]) ==>
      k + 1 < |log| && CookieRetry(port, log[k], log[k + 1])
  }

  /** Every exchange in the group first asked in, unless replaced by the answer to its challenge, was followed by one in
      the group it was told. */
  ghost predicate GroupsTaken(port: nat, log: seq<Exchange>, n: nat) {
    forall k, code :: n <= k < |log| && log[k].group == log[n].group && !AnsweredChallenge(port, log, k)
                      && ToldGroup(port, log[k], code) ==>
      exists m :: k < m < |log| && log[m].group == code && GroupRetry(port, log[k], log[m])
  }

  ghost predicate Sound(w: World, port: nat, n: nat, retry: bool, r: Run) {
    && n < |r.log|
    && (forall i :: n < i < |r.log| ==> Linked(port, r.log, n, i))
    && (forall i :: n <= i < |r.log| ==> WellSent(w, port, r.log, i))
    && ChallengesTaken(port, r.log, n)
    && (if retry then GroupsTaken(port, r.log, n) else forall i :: n < i < |r.log| ==> r.log[i].cookie.Some?)
    && (exists trail :: Reports(port, r.log, n, trail, r.obs))
    && (!r.obs.responded ==> |r.log| == n + 1 && !Echoes(port, r.log[n]))
  }

  lemma AnswerResponded(port: nat, e: Exchange)
    ensures Answer(port, e).obs.responded <==> Echoes(port, e)
  {
    if Echoes(port, e) {
      AnswerParsed(port, e);
    }
  }

  /** A later part of a run, seen from where the whole run began. */
  lemma Extend(w: World, port: nat, n: nat, m: nat, retry: bool, before: seq<Exchange>, r: Run)
    requires n < m == |before| && before <= r.log
    requires Sound(w, port, m, retry, r)
    requires forall i :: n < i < m ==> Linked(port, before, n, i)
    requires forall i :: n <= i < m ==> WellSent(w, port, before, i)
    requires Linked(port, r.log, n, m)
    ensures forall i :: n < i < |r.log| ==> Linked(port, r.log, n, i)
    ensures forall i :: n <= i < |r.log| ==> WellSent(w, port, r.log, i)
  {
    hide CookieRetry, GroupRetry, Reports, Echoes, ChallengesTaken, GroupsTaken;
    forall i | n < i < |r.log| ensures Linked(port, r.log, n, i) {
      if i > m {
        assert Linked(port, r.log, m, i);
      } else if i < m {
        assert Linked(port, before, n, i);
        assert r.log[i] == before[i] && r.log[i - 1] == before[i - 1];
        if i - 2 >= n {
          assert r.log[i - 2] == before[i - 2];
        }
      }
    }
    forall i | n <= i < |r.log| ensures WellSent(w, port, r.log, i) {
      if i < m {
        assert WellSent(w, port, before, i);
        assert r.log[..i] == before[..i];
      }
    }
  }

  /** A run makes a link at a time: at most one exchange more than its measure, each a cookie retry of the last or a
      group retry of the one that asked, every retry that is due and allowed made, and the one answer reported that
      no other replaces. A run is begun afresh or to answer a challenge. */
  lemma RunSound(w: World, port: nat, group: uint16, retry: bool, cookie: Option<Cookie>, spi: Option<Spi>,
                 body: Option<Body>, log: seq<Exchange>)
    requires cookie.None? ==> spi.None? && body.None?
    ensures var r := Probe(w, port, group, retry, cookie, spi, body, log);
            && log + [FirstExchange(w, port, group, cookie, spi, body, log)] <= r.log
            && |r.log| <= |log| + 1 + Measure(retry, cookie)
            && Sound(w, port, |log|, retry, r)
    decreases Measure(retry, cookie)
  {
    hide ResponseRead, IkeSaInit, Answer, Echoes, WellSent, CookieRetry, GroupRetry, Sound, Usable;
    var n := |log|;
    var e := FirstExchange(w, port, group, cookie, spi, body, log);
    var log1 := log + [e];
    var o := Answer(port, e).obs;
    var r := Probe(w, port, group, retry, cookie, spi, body, log);
    FirstSent(w, port, group, cookie, spi, body, log);
    if !Usable(port, e) {
      AloneSound(w, port, n, retry, r);
    } else {
      AnswerCookieFits(port, e);
      if o.cookie.Some? && cookie.None? {
        var c := Probe(w, port, group, retry, o.cookie, Some(e.spi), Some(e.body), log1);
        RunSound(w, port, group, retry, o.cookie, Some(e.spi), Some(e.body), log1);
        CookieLink(w, port, group, e, o.cookie.value, log1);
        assert CookieRetry(port, c.log[n], c.log[n + 1]);
        if c.obs.responded {
          ChallengedSound(w, port, n, retry, log1, c, r);
        } else {
          LinkedFirst(w, port, n, retry, log1, c);
          GroupSound(w, port, group, retry, cookie, n, e, c.log);
        }
      } else {
        GroupSound(w, port, group, retry, cookie, n, e, log1);
      }
    }
  }

  /** An exchange that cannot be acted on is a run of its own. */
  lemma AloneSound(w: World, port: nat, n: nat, retry: bool, r: Run)
    requires |r.log| == n + 1 && r.obs == Answer(port, r.log[n]).obs && !Usable(port, r.log[n])
    requires WellSent(w, port, r.log, n)
    ensures Sound(w, port, n, retry, r)
  {
    hide Answer, Echoes, WellSent, Usable;
    AnswerResponded(port, r.log[n]);
    ReportsAlone(port, r.log, n);
  }

  lemma FirstSent(w: World, port: nat, group: uint16, cookie: Option<Cookie>, spi: Option<Spi>, body: Option<Body>,
                  log: seq<Exchange>)
    requires cookie.None? ==> spi.None? && body.None?
    ensures WellSent(w, port, log + [FirstExchange(w, port, group, cookie, spi, body, log)], |log|)
  {
    hide IkeSaInit, SaInitBody;
    assert (log + [FirstExchange(w, port, group, cookie, spi, body, log)])[..|log|] == log;
  }

  lemma CookieLink(w: World, port: nat, group: uint16, e: Exchange, cookie: Cookie, log: seq<Exchange>)
    requires Usable(port, e) && e.cookie.None? && e.group == group && Answer(port, e).obs.cookie == Some(cookie)
    ensures CookieRetry(port, e, FirstExchange(w, port, group, Some(cookie), Some(e.spi), Some(e.body), log))
  {
    hide IkeSaInit, Answer, Usable;
  }

  /** An unanswered challenge leaves a log of two. */
  lemma LinkedFirst(w: World, port: nat, n: nat, retry: bool, log: seq<Exchange>, c: Run)
    requires |log| == n + 1 && log <= c.log && Sound(w, port, n + 1, retry, c) && !c.obs.responded
    requires WellSent(w, port, log, n)
    ensures |c.log| == n + 2 && !Echoes(port, c.log[n + 1])
    ensures forall i :: n <= i < |c.log| ==> WellSent(w, port, c.log, i)
  {
    hide Linked, Reports, Echoes, ChallengesTaken, GroupsTaken;
    assert c.log[..n] == log[..n] && c.log[n] == log[n];
  }

  /** A run over an answered challenge. */
  lemma ChallengedSound(w: World, port: nat, n: nat, retry: bool, log: seq<Exchange>, c: Run, r: Run)
    requires |log| == n + 1 && log <= c.log && Sound(w, port, n + 1, retry, c) && c.obs.responded
    requires WellSent(w, port, log, n) && CookieRetry(port, c.log[n], c.log[n + 1])
    requires r == c.(obs := c.obs.(notifyErrors := ["COOKIE_CHALLENGE_ANSWERED"] + c.obs.notifyErrors))
    ensures Sound(w, port, n, retry, r)
  {
    hide WellSent, Answer, Reports, Echoes, Usable, GroupRetry, WantedGroup;
    Extend(w, port, n, n + 1, retry, log, c);
    var trail :| Reports(port, c.log, n + 1, trail, c.obs);
    ReportsEchoes(port, c.log, n + 1, trail, c.obs);
    assert AnsweredChallenge(port, c.log, n) && c.log[n + 1].cookie.Some?;
    assert Replaces(port, c.log, n, n + 1);
    ReportsBefore(port, c.log, n, n + 1, trail, c.obs);
    assert c.log[n].group == c.log[n + 1].group;
  }

  lemma ReportsEchoes(port: nat, log: seq<Exchange>, n: nat, trail: seq<nat>, o: Obs)
    requires Reports(port, log, n, trail, o) && o.responded
    ensures n < |log| && Echoes(port, log[n])
  {
    hide Answer, Echoes;
    AnswerResponded(port, log[n]);
    if |trail| > 1 {
      assert Replaces(port, log, trail[0], trail[1]);
    }
  }

  /** The exchange after `log` is linked to `e`, directly or over an unanswered cookie retry. */
  lemma GroupLink(w: World, port: nat, n: nat, e: Exchange, log: seq<Exchange>, wanted: uint16, after: seq<Exchange>)
    requires n < |log| <= n + 2 && log[n] == e
    requires |log| == n + 2 ==> CookieRetry(port, e, log[n + 1]) && !Echoes(port, log[n + 1])
    requires ToldGroup(port, e, wanted)
    requires log + [FirstExchange(w, port, wanted, None, None, None, log)] <= after
    ensures Linked(port, after, n, |log|) && GroupRetry(port, e, after[|log|])
    ensures after[|log|].cookie.None? && after[|log|].group == wanted
    ensures |log| == n + 2 ==> Linked(port, log, n, n + 1)
  {
    hide ResponseRead, IkeSaInit, FirstInvalidKe, WantedGroup;
    AnswerParsed(port, e);
    WantedIsNamed(Answer(port, e).obs.notifyErrors);
    assert after[|log|] == FirstExchange(w, port, wanted, None, None, None, log);
    assert GroupRetry(port, e, after[|log|]);
    assert after[n] == log[n] && after[|log| - 1] == log[|log| - 1];
  }

  /** `log` is a usable first exchange, and perhaps a cookie retry of it that was not answered. */
  ghost predicate Begun(port: nat, n: nat, log: seq<Exchange>) {
    && n < |log| <= n + 2 && Usable(port, log[n])
    && (|log| == n + 2 ==> CookieRetry(port, log[n], log[n + 1]) && !Echoes(port, log[n + 1]))
    && (Answer(port, log[n]).obs.cookie.Some? && log[n].cookie.None? ==> |log| == n + 2)
  }

  lemma GroupSound(w: World, port: nat, group: uint16, retry: bool, cookie: Option<Cookie>, n: nat, e: Exchange,
                   log: seq<Exchange>)
    requires Begun(port, n, log) && log[n] == e && e.group == group && e.cookie == cookie
    requires forall i :: n <= i < |log| ==> WellSent(w, port, log, i)
    ensures var r := RetryInGroup(w, port, group, retry, cookie, Answer(port, e).obs, log);
            && log <= r.log && |r.log| <= n + 1 + Measure(retry, cookie)
            && Sound(w, port, n, retry, r)
    decreases Measure(retry, cookie), 0
  {
    hide ResponseRead, IkeSaInit, Answer, WantedGroup, Probe, FirstExchange, GroupRetry, WellSent, Sound, Echoes,
         Usable;
    var o := Answer(port, e).obs;
    var r := RetryInGroup(w, port, group, retry, cookie, o, log);
    var wanted := WantedGroup(o.notifyErrors);
    if retry && wanted.Some? && wanted.value != group {
      var s := Probe(w, port, wanted.value, false, None, None, None, log);
      RunSound(w, port, wanted.value, false, None, None, None, log);
      GroupLink(w, port, n, e, log, wanted.value, s.log);
      RetriedSound(w, port, n, log, wanted.value, s, r);
    } else {
      SettledSound(w, port, n, retry, r);
    }
  }

  /** Nothing more to retry. */
  lemma SettledSound(w: World, port: nat, n: nat, retry: bool, r: Run)
    requires Begun(port, n, r.log) && r.obs == Answer(port, r.log[n]).obs
    requires forall i :: n <= i < |r.log| ==> WellSent(w, port, r.log, i)
    requires retry ==> forall code :: !ToldGroup(port, r.log[n], code)
    ensures Sound(w, port, n, retry, r)
  {
    hide WellSent, Answer, Echoes, WantedGroup;
    AnswerResponded(port, r.log[n]);
    ReportsAlone(port, r.log, n);
  }

  /** What a run with a group retry reports: the answer in the new group if that brought an encryption, else its own. */
  lemma RetriedSound(w: World, port: nat, n: nat, log: seq<Exchange>, code: uint16, s: Run, r: Run)
    requires Begun(port, n, log) && ToldGroup(port, log[n], code) && log <= s.log
    requires forall i :: n <= i < |log| ==> WellSent(w, port, log, i)
    requires Sound(w, port, |log|, false, s)
    requires GroupRetry(port, log[n], s.log[|log|]) && s.log[|log|].group == code && Linked(port, s.log, n, |log|)
    requires |log| == n + 2 ==> Linked(port, log, n, n + 1)
    requires r.log == s.log
    requires var own := Answer(port, log[n]).obs;
             r.obs == if s.obs.responded && s.obs.encryption.Some?
                      then s.obs.(notifyErrors := own.notifyErrors + s.obs.notifyErrors) else own
    ensures Sound(w, port, n, true, r)
  {
    hide WellSent, Answer, Echoes, WantedGroup, Reports, Gives, Linked;
    var m := |log|;
    Extend(w, port, n, m, false, log, s);
    AnswerResponded(port, log[n]);
    var trail :| Reports(port, s.log, m, trail, s.obs);
    ReportGives(port, s.log, m, trail, s.obs);
    NotChallenged(port, n, log, s.log);
    forall b: nat | Replaces(port, s.log, n, b) ensures b == m {
      assert GroupRetry(port, s.log[n], s.log[b]);
    }
    if Gives(port, s.log, m) {
      assert Replaces(port, s.log, n, m);
      ReportsBefore(port, s.log, n, m, trail, s.obs);
    } else {
      ReportsAlone(port, s.log, n);
    }
    RetriesTaken(port, n, log, code, s.log);
  }

  lemma RetriesTaken(port: nat, n: nat, log: seq<Exchange>, code: uint16, after: seq<Exchange>)
    requires Begun(port, n, log) && ToldGroup(port, log[n], code) && log <= after && |log| < |after|
    requires GroupRetry(port, log[n], after[|log|]) && after[|log|].group == code
    requires ChallengesTaken(port, after, |log|)
    requires forall i :: |log| < i < |after| ==> after[i].cookie.Some?
    requires forall i :: |log| < i < |after| ==> Linked(port, after, |log|, i)
    ensures ChallengesTaken(port, after, n) && GroupsTaken(port, after, n)
  {
    hide Answer, Echoes, WantedGroup;
    var m := |log|;
    forall i | m <= i < |after| ensures after[i].group == code {
      SameGroup(port, m, after, i);
    }
    forall k | n <= k < m ensures after[k] == log[k] {
    }
  }

  lemma {:induction false} SameGroup(port: nat, m: nat, log: seq<Exchange>, i: nat)
    requires m <= i < |log| && forall k :: m < k < |log| ==> log[k].cookie.Some? && Linked(port, log, m, k)
    ensures log[i].group == log[m].group
    decreases i
  {
    hide Answer, Echoes, Usable;
    if i > m {
      SameGroup(port, m, log, i - 1);
      assert Linked(port, log, m, i);
    }
  }

  /** A challenge that was not answered stays so, and a request in another group is no answer to one. */
  lemma NotChallenged(port: nat, n: nat, log: seq<Exchange>, after: seq<Exchange>)
    requires n < |log| <= n + 2 && log <= after
    requires |log| == n + 2 ==> !Echoes(port, log[n + 1])
    requires |log| == n + 1 && |after| > n + 1 ==> after[n + 1].cookie.None?
    ensures !AnsweredChallenge(port, after, n)
  {
    hide Echoes;
  }

  // ------------------------------------------------------- one whole probe

  function Datagrams(log: seq<Exchange>): nat {
    if log == [] then 0 else Datagrams(log[..|log| - 1]) + Sent(log[|log| - 1].reply)
  }

  lemma {:induction false} TwoEach(log: seq<Exchange>)
    ensures Datagrams(log) <= 2 * |log|
  {
    if log != [] {
      TwoEach(log[..|log| - 1]);
    }
  }

  /** The run of one probe in the given group, from nothing. */
  function WholeRun(w: World, port: nat, group: uint16): Run {
    Probe(w, port, group, true, None, None, None, [])
  }

  /** Against any responder: at most four exchanges and eight datagrams; every retry justified by an answer and sent
      as it should be, and every retry that an answer justifies made; and the verdict is the answer that no other
      replaces, with exactly the notes along the trail to it, responsive only if that answer echoed the SPI of its
      exchange. */
  lemma AnyResponder(w: World, port: nat, group: uint16)
    ensures var r := WholeRun(w, port, group);
            && 1 <= |r.log| <= 4 && Datagrams(r.log) <= 8
            && r.log[0].group == group && r.log[0].cookie.None?
            && (forall i :: 0 < i < |r.log| ==> Linked(port, r.log, 0, i))
            && (forall i :: 0 <= i < |r.log| ==> WellSent(w, port, r.log, i))
            && ChallengesTaken(port, r.log, 0) && GroupsTaken(port, r.log, 0)
            && (exists trail :: Reports(port, r.log, 0, trail, r.obs)
                                && (r.obs.responded <==> Echoes(port, r.log[trail[|trail| - 1]])))
  {
    hide Probe, Linked, WellSent, Answer, Echoes, Reports, ChallengesTaken, GroupsTaken;
    var r := WholeRun(w, port, group);
    RunSound(w, port, group, true, None, None, None, []);
    var first := FirstExchange(w, port, group, None, None, None, []);
    assert [] + [first] == [first] <= r.log;
    assert r.log[0] == first;
    TwoEach(r.log);
    var trail :| Reports(port, r.log, 0, trail, r.obs);
    ReportsResponded(port, r.log, trail, r.obs);
  }

  lemma ReportsResponded(port: nat, log: seq<Exchange>, trail: seq<nat>, o: Obs)
    requires Reports(port, log, 0, trail, o)
    ensures o.responded <==> Echoes(port, log[trail[|trail| - 1]])
  {
    hide Answer, Echoes;
    AnswerResponded(port, log[trail[|trail| - 1]]);
  }

  /** A gateway that names another known group, and answers in it with an encryption: two exchanges, and the second
      answer behind the notes of the first. */
  lemma GroupRetryFollowed(w: World, port: nat, group: uint16, code: uint16, a: Exchange, b: Exchange)
    requires a == FirstExchange(w, port, group, None, None, None, []) && Usable(port, a)
    requires b == FirstExchange(w, port, code, None, None, None, [a]) && Usable(port, b)
    requires Answer(port, a).obs.cookie.None? && Answer(port, b).obs.cookie.None?
    requires WantedGroup(Answer(port, a).obs.notifyErrors) == Some(code) && code != group
    requires Answer(port, b).obs.encryption.Some?
    ensures var notes := Answer(port, a).obs.notifyErrors + Answer(port, b).obs.notifyErrors;
            WholeRun(w, port, group) == Run(Answer(port, b).obs.(notifyErrors := notes), [a, b])
  {
    hide Answer, Echoes, WantedGroup, FirstExchange;
    assert [] + [a] == [a] && [a] + [b] == [a, b];
    AnswerResponded(port, b);
    assert Probe(w, port, code, false, None, None, None, [a]) == Run(Answer(port, b).obs, [a, b]);
  }

  /** A cookie retry is the first request over again with the cookie payload put in front, and reads
      as that request but for the cookie. */
  lemma CookieRetryRepeatsTheRequest(port: nat, a: Exchange, b: Exchange, o: Obs)
    requires CookieRetry(port, a, b) && o.cookie.None?
    ensures At(IkeSaInit(b.spi, b.cookie, b.body), 36 + |b.cookie.value|, a.body)
    ensures var plain := ResponseRead(IkeSaInit(a.spi, a.cookie, a.body), o);
            && ResponseRead(IkeSaInit(b.spi, b.cookie, b.body), o).error == plain.error
            && ResponseRead(IkeSaInit(b.spi, b.cookie, b.body), o).obs == WithCookie(plain.obs, b.cookie.value)
  {
    hide ResponseRead;
    RequestFrame(b.spi, b.cookie, b.body);
    CookieLeads(a.spi, b.cookie.value, a.body, o);
  }

  // ------------------------------------------------------ the bound is met

  function NotifyBody(kind: uint16, rest: bytes): bytes {
    [0, 0] + U16(kind) + rest
  }

  function NotifyPacket(kind: uint16, rest: bytes): Reply
    requires |rest| <= 16
  {
    Datagram(Header(ZEROS, NOTIFY, 0) + EncodePayload(0, NotifyBody(kind, rest)), true)
  }

  lemma NotifyFields(kind: uint16, rest: bytes)
    ensures var body := NotifyBody(kind, rest);
            |body| == 4 + |rest| && ReadU16(body, 2) == kind && body[4..] == rest
  {
    AtWhole(NotifyBody(kind, rest));
    assert NotifyBody(kind, rest) == [0, 0] + (U16(kind) + rest);
    AtSplit(NotifyBody(kind, rest), 0, [0, 0], U16(kind) + rest);
    AtSplit(NotifyBody(kind, rest), 2, U16(kind), rest);
    AtU16(NotifyBody(kind, rest), 2, kind);
  }

  lemma NotifyAnswered(e: Exchange, kind: uint16, rest: bytes)
    requires |rest| <= 16 && e.spi == ZEROS && e.reply == NotifyPacket(kind, rest)
    ensures Usable(500, e)
    ensures Answer(500, e).obs
         == NotifyRead(NotifyBody(kind, rest), NOTHING.(responded := true, versionMajor := Some(2)))
  {
    hide ResponseRead, NotifyRead;
    var body := NotifyBody(kind, rest);
    var ps := [Payload(NOTIFY, body)];
    NotifyFields(kind, rest);
    assert ps[1..] == [] && EncodeChain(ps[1..]) == [];
    assert EncodeChain(ps) == EncodePayload(0, body) + [] == EncodePayload(0, body);
    HeaderFields(ZEROS, NOTIFY, 0, EncodeChain(ps));
    PacketRoundTrip(ZEROS, 0, ps, NOTHING.(responded := true));
    assert e.reply.data[..8] == ZEROS;
  }

  /** Every reply comes only to the repeated datagram: a cookie challenge, then a request for
      another group, by turns. */
  function Stubborn(log: seq<Exchange>, packet: bytes): Reply {
    if |log| % 2 == 0 then NotifyPacket(COOKIE, [7]) else NotifyPacket(INVALID_KE_PAYLOAD, U16(20))
  }

  const STUBBORN := World(Stubborn, (_: nat) => ZEROS, (_: nat, _: uint16) => [],
                           (_: nat) => ZEROS + ZEROS + ZEROS + ZEROS)

  lemma Challenged(e: Exchange)
    requires e.spi == ZEROS && e.reply == NotifyPacket(COOKIE, [7])
    ensures Usable(500, e) && Answer(500, e).obs
            == NOTHING.(responded := true, versionMajor := Some(2), cookie := Some([7]))
  {
    NotifyAnswered(e, COOKIE, [7]);
    NotifyFields(COOKIE, [7]);
  }

  lemma GroupTwentyIsKnown()
    ensures CodeOf(DH_GROUP_NAMES, GroupName(20)) == Some(20)
  {
    hide CodeOf, Lookup, GroupName;
    CodeInvertsName(20);
    InTable(DH_GROUP_NAMES, 9);
    assert DH_GROUP_NAMES[9].0 == 20;
  }

  lemma AskedForGroup(e: Exchange)
    requires e.spi == ZEROS && e.reply == NotifyPacket(INVALID_KE_PAYLOAD, U16(20))
    ensures Usable(500, e) && Answer(500, e).obs.cookie.None? && Answer(500, e).obs.responded
    ensures WantedGroup(Answer(500, e).obs.notifyErrors) == Some(20)
  {
    hide Answer, CodeOf, GroupName;
    NotifyAnswered(e, INVALID_KE_PAYLOAD, U16(20));
    NotifyFields(INVALID_KE_PAYLOAD, U16(20));
    var body := NotifyBody(INVALID_KE_PAYLOAD, U16(20));
    assert body[4] == U16(20)[0] && body[5] == U16(20)[1];
    var notes := Answer(500, e).obs.notifyErrors;
    assert notes == [INVALID_KE_PREFIX + GroupName(20)];
    AfterColonSkips("INVALID_KE_PAYLOAD", GroupName(20));
    assert INVALID_KE_PREFIX == "INVALID_KE_PAYLOAD" + ":";
    GroupTwentyIsKnown();
  }

  lemma StubbornLast(log: seq<Exchange>, cookie: Cookie, body: Body)
    requires |log| == 3
    ensures var r := Probe(STUBBORN, 500, 20, false, Some(cookie), Some(ZEROS), Some(body), log);
            && |r.log| == 4 && log <= r.log && r.obs.responded && Sent(r.log[3].reply) == 2
  {
    hide IkeSaInit, WantedGroup;
    AskedForGroup(FirstExchange(STUBBORN, 500, 20, Some(cookie), Some(ZEROS), Some(body), log));
  }

  /** A challenged first request: the log of the whole is that of the retry with the cookie. */
  lemma ChallengeStep(w: World, port: nat, group: uint16, retry: bool, c: Cookie, log: seq<Exchange>)
    requires var e := FirstExchange(w, port, group, None, None, None, log);
             Usable(port, e) && Answer(port, e).obs.cookie == Some(c)
    ensures var e := FirstExchange(w, port, group, None, None, None, log);
            var r := Probe(w, port, group, retry, None, None, None, log);
            var challenged := Probe(w, port, group, retry, Some(c), Some(e.spi), Some(e.body), log + [e]);
            challenged.obs.responded ==> r.log == challenged.log && r.obs.responded
  {
    hide Answer, Usable, FirstExchange, RetryInGroup;
  }

  lemma StubbornThird(log: seq<Exchange>)
    requires |log| == 2
    ensures var r := Probe(STUBBORN, 500, 20, false, None, None, None, log);
            && |r.log| == 4 && log <= r.log && r.obs.responded
            && Sent(r.log[2].reply) == Sent(r.log[3].reply) == 2
  {
    hide IkeSaInit, Answer, Usable, Probe;
    var e := FirstExchange(STUBBORN, 500, 20, None, None, None, log);
    Challenged(e);
    assert Sent(e.reply) == 2;
    ChallengeStep(STUBBORN, 500, 20, false, [7], log);
    StubbornLast(log + [e], [7], e.body);
  }

  lemma StubbornSecond(log: seq<Exchange>, cookie: Cookie, body: Body)
    requires |log| == 1
    ensures var r := Probe(STUBBORN, 500, 14, true, Some(cookie), Some(ZEROS), Some(body), log);
            && |r.log| == 4 && log <= r.log && r.obs.responded
            && Sent(r.log[1].reply) == Sent(r.log[2].reply) == Sent(r.log[3].reply) == 2
  {
    hide IkeSaInit, WantedGroup;
    var e := FirstExchange(STUBBORN, 500, 14, Some(cookie), Some(ZEROS), Some(body), log);
    AskedForGroup(e);
    StubbornThird(log + [e]);
    assert (log + [e])[1] == e;
  }

  /** The bound is exact: one responder draws out four exchanges and eight datagrams. */
  lemma BoundIsMet()
    ensures |WholeRun(STUBBORN, 500, 14).log| == 4 && Datagrams(WholeRun(STUBBORN, 500, 14).log) == 8
  {
    hide Probe, Datagrams;
    StubbornFirst(WholeRun(STUBBORN, 500, 14));
    TwiceFour(WholeRun(STUBBORN, 500, 14).log);
  }

  lemma StubbornFirst(r: Run)
    requires r == WholeRun(STUBBORN, 500, 14)
    ensures |r.log| == 4 && forall i :: 0 <= i < 4 ==> Sent(r.log[i].reply) == 2
  {
    hide IkeSaInit, Answer, Usable, Probe, SaInitBody, OnWire;
    var e := FirstExchange(STUBBORN, 500, 14, None, None, None, []);
    Challenged(e);
    assert Sent(e.reply) == 2;
    hide NotifyPacket, Stubborn, Sent, FirstExchange;
    ChallengeStep(STUBBORN, 500, 14, true, [7], []);
    StubbornSecond([e], [7], e.body);
    assert [] + [e] == [e] <= r.log;
    assert r.log[0] == e;
  }

  lemma TwiceFour(log: seq<Exchange>)
    requires |log| == 4 && forall i :: 0 <= i < 4 ==> Sent(log[i].reply) == 2
    ensures Datagrams(log) == 8
  {
    hide Sent;
    var three, two := log[..3], log[..2];
    var one := log[..1];
    assert three[..2] == two && two[..1] == one && one[..0] == [];
    assert Datagrams(one) == 2;
    assert Datagrams(two) == 4;
    assert Datagrams(three) == 6;
  }
}
