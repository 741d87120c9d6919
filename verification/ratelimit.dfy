/** The per-client token bucket, with the eviction that keeps it from growing
    (internal/httpapi/ratelimit.go). Times are seconds since the zero instant. */
module RateLimit {

  datatype Bucket = Bucket(tokens: real, last: real)

  type Buckets = map<string, Bucket>

  /** What a call is told: whether it may go on, and if not, after how many seconds. */
  datatype Answer = Allowed | Denied(wait: int)

  const IDLE_EVICTION := 600.0
  const MINUTE := 60.0

  /** Tokens a second, and how many a bucket holds. */
  datatype Limits = Limits(rate: real, burst: real)

  function PerMinute(n: nat): (l: Limits)
    requires n >= 1
    ensures Sound(l)
  {
    Limits(n as real / 60.0, n as real)
  }

  /** A bucket fills in a minute, and holds a token or more. */
  predicate Sound(l: Limits) {
    l.burst >= 1.0 && l.burst == 60.0 * l.rate
  }

  function Min(a: real, b: real): real {
    if a <= b then a else b
  }

  function Refill(l: Limits, span: real): real {
    span * l.rate
  }

  function Ceil(x: real): int {
    -((-x).Floor)
  }

  /** The tokens a client has at a time; a client without a bucket has a full one. */
  function Level(l: Limits, buckets: Buckets, key: string, now: real): real {
    if key in buckets then Min(l.burst, buckets[key].tokens + Refill(l, now - buckets[key].last)) else l.burst
  }

  function AnswerTo(l: Limits, level: real): Answer
    requires Sound(l)
  {
    if level < 1.0 then Denied(Ceil((1.0 - level) / l.rate)) else Allowed
  }

  function Left(level: real): real {
    if level < 1.0 then level else level - 1.0
  }

  /** The buckets after a call, none evicted. */
  function Charged(l: Limits, buckets: Buckets, key: string, now: real): Buckets {
    buckets[key := Bucket(Left(Level(l, buckets, key, now)), now)]
  }

  function Fresh(buckets: Buckets, now: real): Buckets {
    map k | k in buckets && !(now - buckets[k].last > IDLE_EVICTION) :: buckets[k]
  }

  /** What a limiter keeps: its buckets, and when it last swept them. */
  datatype Kept = Kept(buckets: Buckets, sweptAt: real)

  function Swept(kept: Kept, now: real): Kept {
    if now - kept.sweptAt < MINUTE then kept else Kept(Fresh(kept.buckets, now), now)
  }

  function Served(l: Limits, kept: Kept, key: string, now: real): Kept {
    var swept := Swept(kept, now);
    swept.(buckets := Charged(l, swept.buckets, key, now))
  }

  class RateLimiter {
    const limits: Limits
    var buckets: Buckets
    var sweepAt: real

    constructor (perMinute: nat)
      requires perMinute >= 1
      ensures limits == PerMinute(perMinute) && Standing() == Kept(map[], 0.0)
    {
      limits := PerMinute(perMinute);
      buckets := map[];
      sweepAt := 0.0;
    }

    function Standing(): Kept
      reads this
    {
      Kept(buckets, sweepAt)
    }

    /** Drops idle buckets, at most once a minute. */
    method Sweep(now: real)
      modifies this
      ensures Standing() == Swept(old(Standing()), now)
      ensures forall k :: k in buckets <==>
                k in old(buckets) && (now - old(sweepAt) < 60.0 || now - old(buckets)[k].last <= 600.0)
    {
      if now - sweepAt < MINUTE {
        return;
      }
      sweepAt := now;
      var rest := buckets.Keys;
      while rest != {}
        invariant rest <= buckets.Keys <= old(buckets).Keys && sweepAt == now
        invariant forall k | k in old(buckets) ::
                    k in buckets <==> k in rest || !(now - old(buckets)[k].last > IDLE_EVICTION)
        invariant forall k | k in buckets :: buckets[k] == old(buckets)[k]
        decreases |rest|
      {
        var key :| key in rest;
        if now - buckets[key].last > IDLE_EVICTION {
          buckets := buckets - {key};
        }
        rest := rest - {key};
      }
    }

    /** Whether a client may proceed, and if not, how long to wait. */
    method Allow(key: string, now: real) returns (answer: Answer)
      requires Sound(limits)
      modifies this
      ensures Standing() == Served(limits, old(Standing()), key, now)
      ensures answer == AnswerTo(limits, Level(limits, Swept(old(Standing()), now).buckets, key, now))
    {
      Sweep(now);
      var b := if key in buckets then buckets[key] else Bucket(limits.burst, now);
      var tokens := Min(limits.burst, b.tokens + Refill(limits, now - b.last));
      assert tokens == Level(limits, buckets, key, now) by {
        assert Refill(limits, 0.0) == 0.0;
      }
      if tokens < 1.0 {
        buckets := buckets[key := Bucket(tokens, now)];
        return Denied(Ceil((1.0 - tokens) / limits.rate));
      }
      buckets := buckets[key := Bucket(tokens - 1.0, now)];
      return Allowed;
    }
  }

  // ---------------------------------------------------------------- whole runs

  datatype Call = Call(key: string, at: real)

  /** The clock never goes back. */
  ghost predicate InTime(calls: seq<Call>) {
    forall i, j | 0 <= i < j < |calls| :: calls[i].at <= calls[j].at
  }

  /** What the limiter keeps after some calls. */
  function Run(l: Limits, calls: seq<Call>): Kept {
    if calls == [] then Kept(map[], 0.0)
    else Served(l, Run(l, calls[..|calls| - 1]), calls[|calls| - 1].key, calls[|calls| - 1].at)
  }

  /** The answer to the `n`-th call. */
  function Answered(l: Limits, calls: seq<Call>, n: nat): Answer
    requires Sound(l) && n < |calls|
  {
    AnswerTo(l, Level(l, Swept(Run(l, calls[..n]), calls[n].at).buckets, calls[n].key, calls[n].at))
  }

  /** The same limiter, were it never to evict a bucket. */
  function Ideal(l: Limits, calls: seq<Call>): Buckets {
    if calls == [] then map[]
    else Charged(l, Ideal(l, calls[..|calls| - 1]), calls[|calls| - 1].key, calls[|calls| - 1].at)
  }

  /** What a client has, ideally, when its `n`-th call comes. */
  function LevelAt(l: Limits, calls: seq<Call>, n: nat): real
    requires n < |calls|
  {
    Level(l, Ideal(l, calls[..n]), calls[n].key, calls[n].at)
  }

  method Serve(perMinute: nat, calls: seq<Call>) returns (answers: seq<Answer>)
    requires perMinute >= 1
    ensures |answers| == |calls|
    ensures forall n | 0 <= n < |calls| :: answers[n] == Answered(PerMinute(perMinute), calls, n)
  {
    var limiter := new RateLimiter(perMinute);
    answers := [];
    for n := 0 to |calls|
      invariant fresh(limiter) && limiter.limits == PerMinute(perMinute) && |answers| == n
      invariant limiter.Standing() == Run(limiter.limits, calls[..n])
      invariant forall i | 0 <= i < n :: answers[i] == Answered(limiter.limits, calls, i)
    {
      assert calls[..n + 1][..n] == calls[..n];
      var answer := limiter.Allow(calls[n].key, calls[n].at);
      answers := answers + [answer];
    }
    assert calls[..|calls|] == calls;
  }
}
