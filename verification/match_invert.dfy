/** Finding the pair of serve probabilities behind a match probability. */
module MatchInversion {
  import opened Match
  import opened MatchOrders

  const MIN_SERVE := 0.01
  const MAX_SERVE := 0.99
  const INVERT_STEPS: nat := 60

  function Min(a: real, b: real): real {
    if a <= b then a else b
  }

  function Max(a: real, b: real): real {
    if a <= b then b else a
  }

  function Clamp(v: real, lo: real, hi: real): real {
    Max(lo, Min(hi, v))
  }

  function Spread(anchor: real): real {
    Min(anchor - MIN_SERVE, MAX_SERVE - anchor)
  }

  function Halved(width: real, steps: nat): real {
    if steps == 0 then width else Halved(width, steps - 1) / 2.0
  }

  function TwoToThe(n: nat): (p: real)
    ensures p >= 1.0
  {
    if n == 0 then 1.0 else 2.0 * TwoToThe(n - 1)
  }

  /** Halving n times divides by 2^n. */
  lemma {:induction false} HalvedIs(width: real, n: nat)
    ensures Halved(width, n) == width / TwoToThe(n)
  {
    if n > 0 {
      HalvedIs(width, n - 1);
      HalfOfQuotient(width, TwoToThe(n - 1));
    }
  }

  lemma {:induction false} HalfOfQuotient(x: real, p: real)
    requires p > 0.0
    ensures x / p / 2.0 == x / (2.0 * p)
  {
  }

  /** The match A plays, as a function of the split either side of the anchor. */
  ghost function MatchBySplit(anchor: real, f: Format): real -> real {
    x => MatchChance(anchor + x, anchor - x, f)
  }

  ghost function MatchAt(anchor: real, x: real, f: Format): real {
    MatchBySplit(anchor, f)(x)
  }

  /** The anchor is brought to the nearest serve in bounds, and the splits are all those that
      leave both serves in bounds. */
  lemma {:induction false} SplitsInBounds(anchor: real, x: real)
    ensures var c := Clamp(anchor, MIN_SERVE, MAX_SERVE);
            && (0.01 <= anchor <= 0.99 ==> c == anchor) && (anchor < 0.01 ==> c == 0.01) && (anchor > 0.99 ==> c == 0.99)
            && (-Spread(c) <= x <= Spread(c) <==> 0.01 <= c + x <= 0.99 && 0.01 <= c - x <= 0.99)
  {
  }

  lemma {:induction false} MatchAtIs(anchor: real, x: real, pA: real, pB: real, f: Format)
    requires pA == anchor + x && pB == anchor - x
    ensures MatchAt(anchor, x, f) == MatchChance(pA, pB, f)
  {
  }

  ghost predicate Anchored(anchor: real) {
    MIN_SERVE <= anchor <= MAX_SERVE
  }

  /** A wider split is a strictly better match for A. */
  lemma {:induction false} SplitsInOrder(anchor: real, x: real, y: real, f: Format)
    requires Anchored(anchor) && -Spread(anchor) <= x < y <= Spread(anchor)
    ensures MatchAt(anchor, x, f) < MatchAt(anchor, y, f)
  {
    var xA, xB, yA, yB := anchor + x, anchor - x, anchor + y, anchor - y;
    MatchAtIs(anchor, x, xA, xB, f);
    MatchAtIs(anchor, y, yA, yB, f);
    BetterServeWinsMore(xA, xB, yA, yB, f);
  }

  /** What the bisection keeps: each end is either where it started or on its own
      side of the target. */
  ghost predicate Brackets(lo: real, hi: real, target: real, anchor: real, f: Format) {
    var spread := Spread(anchor);
    && -spread <= lo <= hi <= spread
    && (lo == -spread || MatchAt(anchor, lo, f) < target)
    && (hi == spread || target <= MatchAt(anchor, hi, f))
  }

  /** The chain's match rung for one split. */
  method SolveSplit(anchor: real, x: real, f: Format) returns (matchA: real)
    ensures matchA == MatchAt(anchor, x, f)
  {
    var pA, pB := anchor + x, anchor - x;
    var chain := Solve(pA, pB, f);
    MatchAtIs(anchor, x, pA, pB, f);
    matchA := chain.match_.a;
  }

  method Invert(target: real, anchor: real, f: Format)
    returns (pA: real, pB: real, achieved: real, ghost lo: real, ghost hi: real)
    ensures var c := Clamp(anchor, 0.01, 0.99);
            && pA + pB == 2.0 * c
            && 0.01 <= pA <= 0.99 && 0.01 <= pB <= 0.99
            && achieved == MatchAt(c, pA - c, f)
            && Brackets(lo, hi, target, c, f)
            && hi - lo == 2.0 * Spread(c) / TwoToThe(60)
            && pA - c == (lo + hi) / 2.0
  {
    var c := Clamp(anchor, MIN_SERVE, MAX_SERVE);
    var spread := Spread(c);
    var low, high := -spread, spread;
    for i := 0 to INVERT_STEPS
      invariant Brackets(low, high, target, c, f)
      invariant high - low == Halved(2.0 * spread, i)
    {
      var mid := (low + high) / 2.0;
      var matchA := SolveSplit(c, mid, f);
      if matchA < target {
        low := mid;
      } else {
        high := mid;
      }
    }
    HalvedIs(2.0 * spread, INVERT_STEPS);
    var d := (low + high) / 2.0;
    pA, pB := c + d, c - d;
    achieved := SolveSplit(c, d, f);
    lo, hi := low, high;
  }

  /** What a final bracket means, for every target. Between the two widest splits
      it straddles the target, and any split that hits the target is inside it;
      outside them it has closed on the end nearest the target. */
  lemma {:induction false} BracketMeaning(lo: real, hi: real, target: real, anchor: real, f: Format)
    requires Anchored(anchor) && Brackets(lo, hi, target, anchor, f)
    ensures var spread := Spread(anchor);
            && (target <= MatchAt(anchor, -spread, f) ==> lo == -spread)
            && (MatchAt(anchor, spread, f) < target ==> hi == spread)
            && (MatchAt(anchor, -spread, f) < target <= MatchAt(anchor, spread, f) ==>
                  MatchAt(anchor, lo, f) < target <= MatchAt(anchor, hi, f))
    ensures forall x | -Spread(anchor) <= x <= Spread(anchor) && MatchAt(anchor, x, f) == target :: lo <= x <= hi
  {
    var spread := Spread(anchor);
    if -spread < lo {
      SplitsInOrder(anchor, -spread, lo, f);
    }
    if hi < spread {
      SplitsInOrder(anchor, hi, spread, f);
    }
    forall x | -spread <= x <= spread && MatchAt(anchor, x, f) == target
      ensures lo <= x <= hi
    {
      if x < lo {
        SplitsInOrder(anchor, x, lo, f);
      } else if hi < x {
        SplitsInOrder(anchor, hi, x, f);
      }
    }
  }

  /** A target out of reach is answered by the end nearest to it, short of it by the spread
      over 2^60; one within reach lies between the matches of the splits that far either
      side of the answer. */
  lemma {:induction false} OutOfReach(lo: real, hi: real, target: real, anchor: real, f: Format)
    requires Anchored(anchor) && Brackets(lo, hi, target, anchor, f)
    requires hi - lo == 2.0 * Spread(anchor) / TwoToThe(INVERT_STEPS)
    ensures var spread, answer := Spread(anchor), (lo + hi) / 2.0;
            && (target <= MatchAt(anchor, -spread, f) ==> answer == -spread + spread / TwoToThe(INVERT_STEPS))
            && (MatchAt(anchor, spread, f) < target ==> answer == spread - spread / TwoToThe(INVERT_STEPS))
            && (MatchAt(anchor, -spread, f) < target <= MatchAt(anchor, spread, f) ==>
                  MatchAt(anchor, answer - spread / TwoToThe(INVERT_STEPS), f) < target
                    <= MatchAt(anchor, answer + spread / TwoToThe(INVERT_STEPS), f))
  {
    var spread, answer := Spread(anchor), (lo + hi) / 2.0;
    BracketMeaning(lo, hi, target, anchor, f);
    HalfOfDouble(spread, TwoToThe(INVERT_STEPS));
    assert lo == answer - spread / TwoToThe(INVERT_STEPS) && hi == answer + spread / TwoToThe(INVERT_STEPS);
  }

  lemma {:induction false} HalfOfDouble(x: real, p: real)
    requires p > 0.0
    ensures 2.0 * x / p / 2.0 == x / p
  {
  }

  /** At most one split hits a target: the answer is the split, not a split. */
  lemma {:induction false} OneSplitPerTarget(anchor: real, x: real, y: real, f: Format)
    requires Anchored(anchor) && -Spread(anchor) <= x <= Spread(anchor) && -Spread(anchor) <= y <= Spread(anchor)
    requires MatchAt(anchor, x, f) == MatchAt(anchor, y, f)
    ensures x == y
  {
    if x < y {
      SplitsInOrder(anchor, x, y, f);
    } else if y < x {
      SplitsInOrder(anchor, y, x, f);
    }
  }
}
