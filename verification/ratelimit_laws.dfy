/** Whole runs of the limiter: eviction is never seen, and the allowance is what it says. */
module RateLimitLaws {
  import opened RateLimit

  // ---------------------------------------------------------------- refilling

  lemma {:induction false} RefillAdds(l: Limits, a: real, b: real)
    ensures Refill(l, a) + Refill(l, b) == Refill(l, a + b)
  {
  }

  lemma {:induction false} RefillGrows(l: Limits, a: real)
    requires Sound(l) && a >= 0.0
    ensures Refill(l, a) >= 0.0
  {
  }

  /** A minute's refill is a whole bucket. */
  lemma {:induction false} MinuteFills(l: Limits, span: real)
    requires Sound(l) && span >= MINUTE
    ensures Refill(l, span) >= l.burst
  {
  }

  predicate InBounds(l: Limits, b: Bucket, now: real) {
    0.0 <= b.tokens <= l.burst && b.last <= now
  }

  ghost predicate AllInBounds(l: Limits, buckets: Buckets, now: real) {
    forall k | k in buckets :: InBounds(l, buckets[k], now)
  }

  lemma {:induction false} LevelInBounds(l: Limits, buckets: Buckets, key: string, now: real)
    requires Sound(l) && (key in buckets ==> InBounds(l, buckets[key], now))
    ensures 0.0 <= Level(l, buckets, key, now) <= l.burst
  {
    if key in buckets {
      RefillGrows(l, now - buckets[key].last);
    }
  }

  /** Time adds at most its refill to a level, and never takes from it. */
  lemma {:induction false} LevelLater(l: Limits, buckets: Buckets, key: string, now: real, later: real)
    requires Sound(l) && now <= later && (key in buckets ==> InBounds(l, buckets[key], now))
    ensures Level(l, buckets, key, now) <= Level(l, buckets, key, later)
         <= Level(l, buckets, key, now) + Refill(l, later - now)
  {
    RefillGrows(l, later - now);
    if key in buckets {
      RefillAdds(l, now - buckets[key].last, later - now);
    }
  }

  /** Writing a level down and refilling from there loses nothing. */
  lemma {:induction false} LevelWrittenDown(l: Limits, buckets: Buckets, key: string, now: real, later: real)
    requires Sound(l) && now <= later && (key in buckets ==> InBounds(l, buckets[key], now))
    ensures Min(l.burst, Level(l, buckets, key, now) + Refill(l, later - now)) == Level(l, buckets, key, later)
  {
    RefillGrows(l, later - now);
    if key in buckets {
      RefillAdds(l, now - buckets[key].last, later - now);
    }
  }

  // ---------------------------------------------------------------- eviction

  /** A client without a bucket has a full one, were it kept. */
  predicate Full(l: Limits, b: Bucket, now: real) {
    b.tokens + Refill(l, now - b.last) >= l.burst
  }

  predicate SameBucket(l: Limits, evicting: Buckets, ideal: Buckets, k: string, now: real) {
    if k in evicting then k in ideal && evicting[k] == ideal[k] else k in ideal ==> Full(l, ideal[k], now)
  }

  /** The two limiters agree about every client from now on. */
  ghost predicate Agree(l: Limits, evicting: Buckets, ideal: Buckets, now: real) {
    forall k :: SameBucket(l, evicting, ideal, k, now)
  }

  lemma {:induction false} FullStays(l: Limits, b: Bucket, now: real, later: real)
    requires Sound(l) && now <= later && Full(l, b, now)
    ensures Full(l, b, later)
  {
  }

  lemma {:induction false} IdleIsFull(l: Limits, b: Bucket, now: real)
    requires Sound(l) && InBounds(l, b, now) && now - b.last > IDLE_EVICTION
    ensures Full(l, b, now)
  {
    MinuteFills(l, now - b.last);
  }

  lemma {:induction false} AgreeLater(l: Limits, evicting: Buckets, ideal: Buckets, now: real, later: real)
    requires Sound(l) && now <= later && Agree(l, evicting, ideal, now)
    ensures Agree(l, evicting, ideal, later)
  {
    forall k
      ensures SameBucket(l, evicting, ideal, k, later)
    {
      assert SameBucket(l, evicting, ideal, k, now);
      if k !in evicting && k in ideal {
        FullStays(l, ideal[k], now, later);
      }
    }
  }

  lemma {:induction false} AgreeSwept(l: Limits, kept: Kept, ideal: Buckets, now: real)
    requires Sound(l) && Agree(l, kept.buckets, ideal, now) && AllInBounds(l, ideal, now)
    ensures Agree(l, Swept(kept, now).buckets, ideal, now)
  {
    forall k
      ensures SameBucket(l, Swept(kept, now).buckets, ideal, k, now)
    {
      assert SameBucket(l, kept.buckets, ideal, k, now);
      if k in kept.buckets && k !in Swept(kept, now).buckets {
        IdleIsFull(l, ideal[k], now);
      }
    }
  }

  lemma {:induction false} AgreeOnLevel(l: Limits, evicting: Buckets, ideal: Buckets, key: string, now: real)
    requires Agree(l, evicting, ideal, now)
    ensures Level(l, evicting, key, now) == Level(l, ideal, key, now)
  {
    assert SameBucket(l, evicting, ideal, key, now);
  }

  lemma {:induction false} AgreeCharged(l: Limits, evicting: Buckets, ideal: Buckets, key: string, now: real)
    requires Agree(l, evicting, ideal, now)
    ensures Agree(l, Charged(l, evicting, key, now), Charged(l, ideal, key, now), now)
  {
    AgreeOnLevel(l, evicting, ideal, key, now);
    forall k
      ensures SameBucket(l, Charged(l, evicting, key, now), Charged(l, ideal, key, now), k, now)
    {
      assert SameBucket(l, evicting, ideal, k, now);
    }
  }

  lemma {:induction false} ChargedInBounds(l: Limits, buckets: Buckets, key: string, now: real)
    requires Sound(l) && AllInBounds(l, buckets, now)
    ensures AllInBounds(l, Charged(l, buckets, key, now), now)
  {
    LevelInBounds(l, buckets, key, now);
  }

  lemma {:induction false} Later(l: Limits, buckets: Buckets, now: real, later: real)
    requires now <= later && AllInBounds(l, buckets, now)
    ensures AllInBounds(l, buckets, later)
  {
  }

  lemma {:induction false} OneLess(calls: seq<Call>, n: nat)
    requires 0 < n <= |calls|
    ensures calls[..n][..n - 1] == calls[..n - 1] && calls[..n][n - 1] == calls[n - 1]
  {
  }

  lemma {:induction false} IdealInBounds(l: Limits, calls: seq<Call>, n: nat, now: real)
    requires Sound(l) && InTime(calls) && n <= |calls| && (n > 0 ==> calls[n - 1].at <= now)
    ensures AllInBounds(l, Ideal(l, calls[..n]), now)
  {
    if n > 0 {
      OneLess(calls, n);
      IdealInBounds(l, calls, n - 1, calls[n - 1].at);
      ChargedInBounds(l, Ideal(l, calls[..n - 1]), calls[n - 1].key, calls[n - 1].at);
      Later(l, Ideal(l, calls[..n]), calls[n - 1].at, now);
    }
  }

  lemma {:induction false} RunsAgree(l: Limits, calls: seq<Call>, n: nat, now: real)
    requires Sound(l) && InTime(calls) && n <= |calls| && (n > 0 ==> calls[n - 1].at <= now)
    ensures Agree(l, Run(l, calls[..n]).buckets, Ideal(l, calls[..n]), now)
  {
    if n > 0 {
      var call := calls[n - 1];
      OneLess(calls, n);
      RunsAgree(l, calls, n - 1, call.at);
      IdealInBounds(l, calls, n - 1, call.at);
      AgreeSwept(l, Run(l, calls[..n - 1]), Ideal(l, calls[..n - 1]), call.at);
      AgreeCharged(l, Swept(Run(l, calls[..n - 1]), call.at).buckets, Ideal(l, calls[..n - 1]), call.key, call.at);
      AgreeLater(l, Run(l, calls[..n]).buckets, Ideal(l, calls[..n]), call.at, now);
    }
  }

  /** Eviction cannot be seen: over any run in time, every answer, with its wait, is the one
      a limiter that never evicts would have given. */
  lemma {:induction false} EvictionIsUnseen(l: Limits, calls: seq<Call>, n: nat)
    requires Sound(l) && InTime(calls) && n < |calls|
    ensures Answered(l, calls, n) == AnswerTo(l, LevelAt(l, calls, n))
  {
    var now := calls[n].at;
    RunsAgree(l, calls, n, now);
    IdealInBounds(l, calls, n, now);
    AgreeSwept(l, Run(l, calls[..n]), Ideal(l, calls[..n]), now);
    AgreeOnLevel(l, Swept(Run(l, calls[..n]), now).buckets, Ideal(l, calls[..n]), calls[n].key, now);
  }

  // ---------------------------------------------------------------- one client at a time

  /** The calls of one client. */
  function Only(calls: seq<Call>, key: string): seq<Call> {
    if calls == [] then []
    else Only(calls[..|calls| - 1], key) + if calls[|calls| - 1].key == key then [calls[|calls| - 1]] else []
  }

  lemma {:induction false} IdealOfOnly(l: Limits, calls: seq<Call>, key: string)
    ensures var all, own := Ideal(l, calls), Ideal(l, Only(calls, key));
            (key in all <==> key in own) && (key in all ==> all[key] == own[key])
  {
    if calls != [] {
      var init, last := calls[..|calls| - 1], calls[|calls| - 1];
      IdealOfOnly(l, init, key);
      if last.key == key {
        var own := Only(calls, key);
        assert own[..|own| - 1] == Only(init, key);
      } else {
        assert Only(calls, key) == Only(init, key);
      }
    }
  }

  /** No client's calls change another's answers: an answer is that of the client's own calls alone. */
  lemma {:induction false} AnswersAreOnesOwn(l: Limits, calls: seq<Call>, n: nat)
    requires Sound(l) && InTime(calls) && n < |calls|
    ensures Answered(l, calls, n) == AnswerTo(l, Level(l, Ideal(l, Only(calls[..n], calls[n].key)), calls[n].key, calls[n].at))
  {
    EvictionIsUnseen(l, calls, n);
    IdealOfOnly(l, calls[..n], calls[n].key);
  }

  // ---------------------------------------------------------------- the allowance

  /** How many of a client's calls from the `i`-th up to the `j`-th were allowed. */
  function AllowedIn(l: Limits, calls: seq<Call>, key: string, i: nat, j: nat): nat
    requires Sound(l) && i <= j <= |calls|
    decreases j
  {
    if i == j then 0
    else AllowedIn(l, calls, key, i, j - 1)
         + if calls[j - 1].key == key && Answered(l, calls, j - 1) == Allowed then 1 else 0
  }

  /** What a call spends: a token if it is the client's and allowed. */
  lemma {:induction false} CallSpends(l: Limits, calls: seq<Call>, key: string, n: nat)
    requires Sound(l) && InTime(calls) && n < |calls|
    ensures Level(l, Ideal(l, calls[..n + 1]), key, calls[n].at)
         == Level(l, Ideal(l, calls[..n]), key, calls[n].at)
            - if calls[n].key == key && Answered(l, calls, n) == Allowed then 1.0 else 0.0
  {
    var now, before := calls[n].at, Ideal(l, calls[..n]);
    OneLess(calls, n + 1);
    EvictionIsUnseen(l, calls, n);
    IdealInBounds(l, calls, n, now);
    LevelInBounds(l, before, calls[n].key, now);
    assert Refill(l, now - now) == 0.0;
  }

  lemma {:induction false} TokensAndCalls(l: Limits, calls: seq<Call>, key: string, i: nat, j: nat)
    requires Sound(l) && InTime(calls) && i < j <= |calls|
    ensures AllowedIn(l, calls, key, i, j) as real + Level(l, Ideal(l, calls[..j]), key, calls[j - 1].at)
         <= l.burst + Refill(l, calls[j - 1].at - calls[i].at)
    decreases j
  {
    var now, before := calls[j - 1].at, Ideal(l, calls[..j - 1]);
    CallSpends(l, calls, key, j - 1);
    IdealInBounds(l, calls, j - 1, now);
    if i == j - 1 {
      LevelInBounds(l, before, key, now);
      assert Refill(l, now - now) == 0.0;
    } else {
      TokensAndCalls(l, calls, key, i, j - 1);
      LevelUpToCall(l, calls, key, i, j - 1);
    }
  }

  /** Up to the `j`-th call, what a level gains is at most the refill since the call before it. */
  lemma {:induction false} LevelUpToCall(l: Limits, calls: seq<Call>, key: string, i: nat, j: nat)
    requires Sound(l) && InTime(calls) && i < j < |calls|
    ensures Level(l, Ideal(l, calls[..j]), key, calls[j].at) - Refill(l, calls[j].at - calls[i].at)
         <= Level(l, Ideal(l, calls[..j]), key, calls[j - 1].at) - Refill(l, calls[j - 1].at - calls[i].at)
  {
    var now, then_ := calls[j].at, calls[j - 1].at;
    IdealInBounds(l, calls, j, then_);
    LevelLater(l, Ideal(l, calls[..j]), key, then_, now);
    RefillAdds(l, then_ - calls[i].at, now - then_);
  }

  /** A client is allowed at most a burst and the refill of the span, over any span of a run. */
  lemma {:induction false} AllowanceHolds(l: Limits, calls: seq<Call>, key: string, i: nat, j: nat)
    requires Sound(l) && InTime(calls) && i < j <= |calls|
    ensures AllowedIn(l, calls, key, i, j) as real <= l.burst + Refill(l, calls[j - 1].at - calls[i].at)
  {
    TokensAndCalls(l, calls, key, i, j);
    IdealInBounds(l, calls, j, calls[j - 1].at);
    LevelInBounds(l, Ideal(l, calls[..j]), key, calls[j - 1].at);
  }

  // ---------------------------------------------------------------- waiting

  lemma {:induction false} CeilIsLeast(x: real, s: int)
    ensures x <= s as real <==> Ceil(x) <= s
  {
  }

  lemma {:induction false} QuotientAtMost(x: real, s: real, rate: real)
    requires rate > 0.0
    ensures x / rate <= s <==> x <= s * rate
  {
  }

  /** The wait is the least whole number of seconds whose refill brings a token. */
  lemma {:induction false} WaitIsLeast(l: Limits, level: real, s: int)
    requires Sound(l) && level < 1.0
    ensures AnswerTo(l, level).wait <= s <==> level + Refill(l, s as real) >= 1.0
  {
    CeilIsLeast((1.0 - level) / l.rate, s);
    QuotientAtMost(1.0 - level, s as real, l.rate);
  }

  /** None of the client's calls from the `i`-th up to the `j`-th was allowed. */
  lemma {:induction false} NothingSpent(l: Limits, calls: seq<Call>, key: string, i: nat, j: nat, later: real)
    requires Sound(l) && InTime(calls) && i <= j <= |calls| && AllowedIn(l, calls, key, i, j) == 0
    requires i > 0 && calls[i - 1].at <= later && (j > i ==> calls[j - 1].at <= later)
    ensures Level(l, Ideal(l, calls[..j]), key, later) == Level(l, Ideal(l, calls[..i]), key, later)
    decreases j
  {
    if i < j {
      var now := calls[j - 1].at;
      NothingSpent(l, calls, key, i, j - 1, later);
      OneLess(calls, j);
      IdealInBounds(l, calls, j - 1, now);
      UnspentCall(l, calls, key, j - 1, later);
    }
  }

  /** A call that was another's, or was denied, leaves a client what it had. */
  lemma {:induction false} UnspentCall(l: Limits, calls: seq<Call>, key: string, n: nat, later: real)
    requires Sound(l) && InTime(calls) && n < |calls| && calls[n].at <= later
    requires calls[n].key != key || Answered(l, calls, n) != Allowed
    ensures Level(l, Ideal(l, calls[..n + 1]), key, later) == Level(l, Ideal(l, calls[..n]), key, later)
  {
    OneLess(calls, n + 1);
    if calls[n].key == key {
      EvictionIsUnseen(l, calls, n);
      IdealInBounds(l, calls, n, calls[n].at);
      LevelWrittenDown(l, Ideal(l, calls[..n]), key, calls[n].at, later);
    }
  }

  /** A denied client has, when it is back, what it had and the refill since. */
  lemma {:induction false} LevelOnReturn(l: Limits, calls: seq<Call>, n: nat, m: nat)
    requires Sound(l) && InTime(calls) && n < m < |calls| && calls[m].key == calls[n].key
    requires Answered(l, calls, n).Denied? && AllowedIn(l, calls, calls[n].key, n + 1, m) == 0
    ensures LevelAt(l, calls, m) == Min(l.burst, LevelAt(l, calls, n) + Refill(l, calls[m].at - calls[n].at))
  {
    var key, then_, now := calls[n].key, calls[n].at, calls[m].at;
    assert Level(l, Ideal(l, calls[..m]), key, now) == Level(l, Ideal(l, calls[..n]), key, now) by {
      NothingSpent(l, calls, key, n + 1, m, now);
      UnspentCall(l, calls, key, n, now);
    }
    assert Min(l.burst, LevelAt(l, calls, n) + Refill(l, now - then_)) == Level(l, Ideal(l, calls[..n]), key, now) by {
      IdealInBounds(l, calls, n, then_);
      LevelWrittenDown(l, Ideal(l, calls[..n]), key, then_, now);
    }
  }

  lemma {:induction false} RefillOrdered(l: Limits, a: real, b: real)
    requires Sound(l) && a <= b
    ensures Refill(l, a) <= Refill(l, b)
  {
  }

  lemma {:induction false} WaitedFor(l: Limits, level: real, wait: int, span: real)
    requires Sound(l) && AnswerTo(l, level) == Denied(wait)
    ensures span >= wait as real ==> level + Refill(l, span) >= 1.0
    ensures span <= (wait - 1) as real ==> level + Refill(l, span) < 1.0
  {
    WaitIsLeast(l, level, wait);
    WaitIsLeast(l, level, wait - 1);
    if span >= wait as real {
      RefillOrdered(l, wait as real, span);
    } else if span <= (wait - 1) as real {
      RefillOrdered(l, span, (wait - 1) as real);
    }
  }

  /** A client told to wait that comes back no sooner, with none of its calls allowed in
      between, is admitted; and coming back a whole second or more too soon, it is not. */
  lemma {:induction false} WaitingIsEnough(l: Limits, calls: seq<Call>, n: nat, m: nat, wait: int)
    requires Sound(l) && InTime(calls) && n < m < |calls| && calls[m].key == calls[n].key
    requires Answered(l, calls, n) == Denied(wait) && AllowedIn(l, calls, calls[n].key, n + 1, m) == 0
    ensures calls[m].at - calls[n].at >= wait as real ==> Answered(l, calls, m) == Allowed
    ensures calls[m].at - calls[n].at <= (wait - 1) as real ==> Answered(l, calls, m).Denied?
  {
    EvictionIsUnseen(l, calls, n);
    EvictionIsUnseen(l, calls, m);
    LevelOnReturn(l, calls, n, m);
    WaitedFor(l, LevelAt(l, calls, n), wait, calls[m].at - calls[n].at);
  }

  // ---------------------------------------------------------------- a burst

  /** Calls of one client, all at one instant. */
  ghost predicate AtOnce(calls: seq<Call>, key: string, now: real) {
    forall i | 0 <= i < |calls| :: calls[i] == Call(key, now)
  }

  lemma {:induction false} BurstLevel(n: nat, calls: seq<Call>, key: string, now: real, k: nat)
    requires n >= 1 && AtOnce(calls, key, now) && k <= |calls|
    ensures Level(PerMinute(n), Ideal(PerMinute(n), calls[..k]), key, now) == if k <= n then (n - k) as real else 0.0
  {
    var l := PerMinute(n);
    if k > 0 {
      OneLess(calls, k);
      BurstLevel(n, calls, key, now, k - 1);
      assert calls[k - 1] == Call(key, now);
      assert Refill(l, 0.0) == 0.0;
    }
  }

  /** With n calls a minute allowed, the first n of a client's calls at one instant are, and the
      next are not; those are told to wait the least whole number of seconds w that brings one
      call back, n of them coming back in sixty seconds. */
  lemma {:induction false} BurstIsAllowed(n: nat, calls: seq<Call>, key: string, now: real, k: nat, w: int)
    requires n >= 1 && AtOnce(calls, key, now) && k < |calls|
    ensures k < n ==> Answered(PerMinute(n), calls, k) == Allowed
    ensures k >= n ==> Answered(PerMinute(n), calls, k).Denied?
                       && (Answered(PerMinute(n), calls, k).wait <= w <==> w * n >= 60)
  {
    var l := PerMinute(n);
    assert InTime(calls);
    EvictionIsUnseen(l, calls, k);
    BurstLevel(n, calls, key, now, k);
    assert calls[k] == Call(key, now);
    if k >= n {
      WaitIsLeast(l, 0.0, w);
      RefillOf(n, w);
    }
  }

  lemma {:induction false} RefillOf(n: nat, w: int)
    requires n >= 1
    ensures Refill(PerMinute(n), w as real) >= 1.0 <==> w * n >= 60
  {
    assert w as real * (n as real / 60.0) * 60.0 == (w * n) as real;
  }
}
