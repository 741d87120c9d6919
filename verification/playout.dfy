/** A contest whose every unit (point, game or set) is played to the end of a
    fixed schedule, whether or not it is already decided.

    The scoring code of the chain stops at the first terminal score and writes
    each rung differently: closed forms for a game and a match, backward-filled
    tables for a tiebreak and a set. Each is shown elsewhere to be an instance of
    `Playout`, so the laws of the chain are proved once, here, by induction over
    the units left to play. */
module Playouts {

  /** The chance-weighted mean of two values. */
  function Mix(p: real, win: real, lose: real): real {
    p * win + (1.0 - p) * lose
  }

  ghost predicate Chance(p: real) {
    0.0 <= p <= 1.0
  }

  ghost predicate Chances(s: seq<real>) {
    forall i | 0 <= i < |s| :: Chance(s[i])
  }

  /** Pointwise order. */
  ghost predicate Below(s: seq<real>, t: seq<real>) {
    |s| == |t| && forall i | 0 <= i < |s| :: s[i] <= t[i]
  }

  ghost predicate Ascending(s: seq<real>) {
    forall i | 0 <= i < |s| - 1 :: s[i] <= s[i + 1]
  }

  /** A's value after `n` units of which A won `a`: `order[i]` is the chance A
      wins unit i, and `end[k]` the value of finishing the schedule with k wins. */
  ghost function Playout(order: seq<real>, end: seq<real>, n: nat, a: nat): real
    requires |end| == |order| + 1 && a <= n <= |order|
    decreases |order| - n
  {
    if n == |order| then end[a]
    else Mix(order[n], Playout(order, end, n + 1, a + 1), Playout(order, end, n + 1, a))
  }

  lemma {:induction false} NonNegativeProduct(x: real, y: real)
    requires 0.0 <= x && 0.0 <= y
    ensures 0.0 <= x * y
  {
  }

  lemma {:induction false} MixBelow(p: real, win: real, lose: real, p': real, win': real, lose': real)
    requires Chance(p) && p <= p' && win <= win' && lose <= lose' <= win'
    ensures Mix(p, win, lose) <= Mix(p', win', lose')
  {
    var q := 1.0 - p;
    NonNegativeProduct(p, win' - win);
    NonNegativeProduct(q, lose' - lose);
    NonNegativeProduct(p' - p, win' - lose');
    assert p * (win' - win) + q * (lose' - lose) + (p' - p) * (win' - lose')
        == Mix(p', win', lose') - Mix(p, win, lose);
  }

  lemma {:induction false} MixChance(p: real, win: real, lose: real)
    requires Chance(p) && Chance(win) && Chance(lose)
    ensures Chance(Mix(p, win, lose))
  {
    var q := 1.0 - p;
    NonNegativeProduct(p, win);
    NonNegativeProduct(q, lose);
    NonNegativeProduct(p, 1.0 - win);
    NonNegativeProduct(q, 1.0 - lose);
    assert p * (1.0 - win) + q * (1.0 - lose) == 1.0 - Mix(p, win, lose);
    assert p * win + q * lose == Mix(p, win, lose);
  }

  /** A contest between chances is a chance. */
  lemma {:induction false} PlayoutChance(order: seq<real>, end: seq<real>, n: nat, a: nat)
    requires |end| == |order| + 1 && a <= n <= |order|
    requires Chances(order) && Chances(end)
    ensures Chance(Playout(order, end, n, a))
    decreases |order| - n
  {
    if n < |order| {
      PlayoutChance(order, end, n + 1, a + 1);
      PlayoutChance(order, end, n + 1, a);
      MixChance(order[n], Playout(order, end, n + 1, a + 1), Playout(order, end, n + 1, a));
    }
  }

  /** One more win already in hand is never worse, if the end values ascend. */
  lemma {:induction false} PlayoutAscends(order: seq<real>, end: seq<real>, n: nat, a: nat)
    requires |end| == |order| + 1 && a + 1 <= n <= |order|
    requires Chances(order) && Ascending(end)
    ensures Playout(order, end, n, a) <= Playout(order, end, n, a + 1)
    decreases |order| - n
  {
    if n < |order| {
      PlayoutAscends(order, end, n + 1, a + 1);
      PlayoutAscends(order, end, n + 1, a);
      MixBelow(order[n], Playout(order, end, n + 1, a + 1), Playout(order, end, n + 1, a),
               order[n], Playout(order, end, n + 1, a + 2), Playout(order, end, n + 1, a + 1));
    }
  }

  /** Raising any unit's chance, or any end value, never lowers the result. */
  lemma {:induction false} PlayoutMonotone(order: seq<real>, end: seq<real>,
                                           order': seq<real>, end': seq<real>, n: nat, a: nat)
    requires |end| == |order| + 1 && a <= n <= |order|
    requires Chances(order) && Chances(order') && Ascending(end')
    requires Below(order, order') && Below(end, end')
    ensures Playout(order, end, n, a) <= Playout(order', end', n, a)
    decreases |order| - n
  {
    if n < |order| {
      PlayoutMonotone(order, end, order', end', n + 1, a + 1);
      PlayoutMonotone(order, end, order', end', n + 1, a);
      PlayoutAscends(order', end', n + 1, a);
      MixBelow(order[n], Playout(order, end, n + 1, a + 1), Playout(order, end, n + 1, a),
               order'[n], Playout(order', end', n + 1, a + 1), Playout(order', end', n + 1, a));
    }
  }

  /** `order'` is `order` with each consecutive pair of units played in either order. */
  ghost predicate PairsExchanged(order: seq<real>, order': seq<real>) {
    && |order| == |order'| && |order| % 2 == 0
    && forall k {:trigger order[2 * k]} | 0 <= 2 * k < |order| - 1 ::
         || (order'[2 * k] == order[2 * k] && order'[2 * k + 1] == order[2 * k + 1])
         || (order'[2 * k] == order[2 * k + 1] && order'[2 * k + 1] == order[2 * k])
  }

  /** Two units of a playout, taken together, do not care which came first. */
  lemma {:induction false} PairValue(p: real, q: real, two: real, one: real, none: real)
    ensures Mix(p, Mix(q, two, one), Mix(q, one, none)) == Mix(q, Mix(p, two, one), Mix(p, one, none))
  {
  }

  /** The exchange argument: exchanging units inside pairs changes no result. */
  lemma {:induction false} PlayoutExchange(order: seq<real>, order': seq<real>, end: seq<real>, k: nat, a: nat)
    requires PairsExchanged(order, order') && |end| == |order| + 1
    requires a <= 2 * k <= |order|
    ensures Playout(order, end, 2 * k, a) == Playout(order', end, 2 * k, a)
    decreases |order| - 2 * k
  {
    if 2 * k < |order| {
      PlayoutExchange(order, order', end, k + 1, a + 2);
      PlayoutExchange(order, order', end, k + 1, a + 1);
      PlayoutExchange(order, order', end, k + 1, a);
      PairValue(order[2 * k], order[2 * k + 1], Playout(order, end, 2 * k + 2, a + 2),
                Playout(order, end, 2 * k + 2, a + 1), Playout(order, end, 2 * k + 2, a));
    }
  }

  /** The other side's view: its chance of each unit, and its value of each end. */
  ghost predicate Mirrored(s: seq<real>, t: seq<real>) {
    |s| == |t| && forall i | 0 <= i < |s| :: t[i] == 1.0 - s[i]
  }

  ghost predicate EndMirrored(end: seq<real>, end': seq<real>) {
    |end| == |end'| && forall i | 0 <= i < |end| :: end'[|end| - 1 - i] == 1.0 - end[i]
  }

  /** The two sides' values of one contest sum to one. */
  lemma {:induction false} PlayoutMirror(order: seq<real>, end: seq<real>,
                                         order': seq<real>, end': seq<real>, n: nat, a: nat)
    requires |end| == |order| + 1 && a <= n <= |order|
    requires Mirrored(order, order') && EndMirrored(end, end')
    ensures Playout(order, end, n, a) + Playout(order', end', n, n - a) == 1.0
    decreases |order| - n
  {
    if n < |order| {
      PlayoutMirror(order, end, order', end', n + 1, a + 1);
      PlayoutMirror(order, end, order', end', n + 1, a);
      MixMirror(order[n], Playout(order, end, n + 1, a + 1), Playout(order, end, n + 1, a));
    }
  }

  lemma {:induction false} MixMirror(p: real, win: real, lose: real)
    ensures Mix(p, win, lose) + Mix(1.0 - p, 1.0 - lose, 1.0 - win) == 1.0
  {
  }

  ghost function Flipped(s: seq<real>): seq<real> {
    seq(|s|, i requires 0 <= i < |s| => 1.0 - s[i])
  }

  /** If exchanging pairs turns one side's schedule into the other's seen from
      across the net, then the two sides' values sum to one. */
  lemma {:induction false} PlayoutSwap(order: seq<real>, end: seq<real>, other: seq<real>, otherEnd: seq<real>)
    requires |end| == |order| + 1 && PairsExchanged(order, Flipped(other)) && EndMirrored(otherEnd, end)
    ensures Playout(order, end, 0, 0) + Playout(other, otherEnd, 0, 0) == 1.0
  {
    PlayoutMirror(other, otherEnd, Flipped(other), end, 0, 0);
    PlayoutExchange(order, Flipped(other), end, 0, 0);
  }

  /** Once every reachable end has the same value, the rest of the schedule is idle. */
  lemma {:induction false} PlayoutDecided(order: seq<real>, end: seq<real>, n: nat, a: nat, v: real)
    requires |end| == |order| + 1 && a <= n <= |order|
    requires forall i | a <= i <= a + |order| - n :: end[i] == v
    ensures Playout(order, end, n, a) == v
    decreases |order| - n
  {
    if n < |order| {
      PlayoutDecided(order, end, n + 1, a + 1, v);
      PlayoutDecided(order, end, n + 1, a, v);
    }
  }

  ghost predicate Interior(s: seq<real>) {
    forall i | 0 <= i < |s| :: 0.0 < s[i] < 1.0
  }

  lemma {:induction false} PositiveProduct(x: real, y: real)
    requires 0.0 < x && 0.0 < y
    ensures 0.0 < x * y
  {
  }

  lemma {:induction false} MixGap(p: real, q: real, two: real, one: real, none: real, high: real, low: real)
    requires q == 1.0 - p && high == two - one && low == one - none
    ensures Mix(p, two, one) - Mix(p, one, none) == p * high + q * low
  {
  }

  lemma {:induction false} MixStrictInValues(p: real, two: real, one: real, none: real)
    requires 0.0 < p < 1.0 && none <= one <= two && none < two
    ensures Mix(p, one, none) < Mix(p, two, one)
  {
    var q, high, low := 1.0 - p, two - one, one - none;
    MixGap(p, q, two, one, none, high, low);
    NonNegativeProduct(p, high);
    NonNegativeProduct(q, low);
    if 0.0 < low {
      PositiveProduct(q, low);
    } else {
      PositiveProduct(p, high);
    }
  }

  lemma {:induction false} MixSlope(p: real, p': real, win: real, lose: real, step: real, gap: real)
    requires step == p' - p && gap == win - lose
    ensures Mix(p', win, lose) - Mix(p, win, lose) == step * gap
  {
  }

  lemma {:induction false} MixStrictInChance(p: real, win: real, lose: real, p': real, win': real, lose': real)
    requires Chance(p) && p < p' && win <= win' && lose <= lose' < win'
    ensures Mix(p, win, lose) < Mix(p', win', lose')
  {
    var step, gap := p' - p, win' - lose';
    MixBelow(p, win, lose, p, win', lose');
    MixSlope(p, p', win', lose', step, gap);
    PositiveProduct(step, gap);
  }

  /** With no unit certain, one more win in hand is strictly better unless the
      outcome is already settled. */
  lemma {:induction false} PlayoutAscendsStrictly(order: seq<real>, end: seq<real>, n: nat, a: nat)
    requires |end| == |order| + 1 && a + 1 <= n <= |order|
    requires Interior(order) && Ascending(end)
    requires end[a] < end[a + 1 + |order| - n]
    ensures Playout(order, end, n, a) < Playout(order, end, n, a + 1)
    decreases |order| - n
  {
    if n < |order| {
      PlayoutAscends(order, end, n + 1, a);
      PlayoutAscends(order, end, n + 1, a + 1);
      AscendingAcross(end, a + 1, a + |order| - n);
      if end[a] < end[a + |order| - n] {
        PlayoutAscendsStrictly(order, end, n + 1, a);
      } else {
        PlayoutAscendsStrictly(order, end, n + 1, a + 1);
      }
      MixStrictInValues(order[n], Playout(order, end, n + 1, a + 2),
                        Playout(order, end, n + 1, a + 1), Playout(order, end, n + 1, a));
    }
  }

  lemma {:induction false} AscendingAcross(end: seq<real>, i: nat, j: nat)
    requires Ascending(end) && i <= j < |end|
    ensures end[i] <= end[j]
    decreases j - i
  {
    if i < j {
      AscendingAcross(end, i + 1, j);
    }
  }

  /** A strictly better chance in the first unit strictly raises the result. */
  lemma {:induction false} PlayoutStrict(order: seq<real>, order': seq<real>, end: seq<real>, end': seq<real>)
    requires |end| == |order| + 1 && |order| > 0
    requires Chances(order) && Interior(order') && Below(order, order') && order[0] < order'[0]
    requires Ascending(end') && Below(end, end') && end'[0] < end'[|order|]
    ensures Playout(order, end, 0, 0) < Playout(order', end', 0, 0)
  {
    PlayoutMonotone(order, end, order', end', 1, 1);
    PlayoutMonotone(order, end, order', end', 1, 0);
    PlayoutAscendsStrictly(order', end', 1, 0);
    MixStrictInChance(order[0], Playout(order, end, 1, 1), Playout(order, end, 1, 0),
                      order'[0], Playout(order', end', 1, 1), Playout(order', end', 1, 0));
  }

  /** With no unit certain and the best end worth something, neither is the whole. */
  lemma {:induction false} PlayoutPositive(order: seq<real>, end: seq<real>, n: nat, a: nat)
    requires |end| == |order| + 1 && a <= n <= |order|
    requires Interior(order) && Chances(end) && 0.0 < end[a + |order| - n]
    ensures 0.0 < Playout(order, end, n, a)
    decreases |order| - n
  {
    if n < |order| {
      var p, q := order[n], 1.0 - order[n];
      PlayoutPositive(order, end, n + 1, a + 1);
      PlayoutChance(order, end, n + 1, a);
      PositiveProduct(p, Playout(order, end, n + 1, a + 1));
      NonNegativeProduct(q, Playout(order, end, n + 1, a));
    }
  }
}
