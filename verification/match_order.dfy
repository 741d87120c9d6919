/** Order and range: every rung is a chance, a better point never makes a worse
    rung, and between certainties it makes a strictly better one. Also, exactly
    when the value of six all is the value its own next pair implies. */
module MatchOrders {
  import opened Playouts
  import opened Match
  import opened MatchLaws

  // ------------------------------------------------------------------------ game

  ghost function GameDeuce(p: real): real {
    TwoPointRace(p, 1.0 - p)
  }

  lemma {:induction false} GameAsPlayout(p: real)
    ensures Game(p) == Playout(GameOrder(p), GameEnd(GameDeuce(p)), 0, 0)
  {
    GameIsPointByPoint(p);
    GameFromIsPlayout(p, GameDeuce(p), 0, 0);
  }

  lemma {:induction false} GameChance(p: real)
    requires Chance(p)
    ensures Chance(Game(p))
  {
    GameAsPlayout(p);
    RaceChance(p, 1.0 - p);
    PlayoutChance(GameOrder(p), GameEnd(GameDeuce(p)), 0, 0);
  }

  lemma {:induction false} GameMonotone(p: real, p': real)
    requires Chance(p) && Chance(p') && p <= p'
    ensures Game(p) <= Game(p')
  {
    GameAsPlayout(p);
    GameAsPlayout(p');
    RaceChance(p', 1.0 - p');
    RaceMonotone(p, 1.0 - p, p', 1.0 - p');
    PlayoutMonotone(GameOrder(p), GameEnd(GameDeuce(p)), GameOrder(p'), GameEnd(GameDeuce(p')), 0, 0);
  }

  lemma {:induction false} GameStrictInside(p: real, p': real)
    requires 0.0 <= p < p' < 1.0
    ensures Game(p) < Game(p')
  {
    GameAsPlayout(p);
    GameAsPlayout(p');
    RaceChance(p', 1.0 - p');
    RaceMonotone(p, 1.0 - p, p', 1.0 - p');
    PlayoutStrict(GameOrder(p), GameOrder(p'), GameEnd(GameDeuce(p)), GameEnd(GameDeuce(p')));
  }

  /** More points won on serve is strictly more games held. */
  lemma {:induction false} GameStrict(p: real, p': real)
    requires Chance(p) && Chance(p') && p < p'
    ensures Game(p) < Game(p')
  {
    var middle := (p + p') / 2.0;
    GameStrictInside(p, middle);
    GameMonotone(middle, p');
  }

  /** A server who wins every point, or none, holds accordingly. */
  lemma {:induction false} GameAtEnds(p: real)
    requires p == 0.0 || p == 1.0
    ensures Game(p) == p
  {
  }

  lemma {:induction false} GamePositive(p: real)
    requires 0.0 < p < 1.0
    ensures 0.0 < Game(p)
  {
    GameAsPlayout(p);
    RaceChance(p, 1.0 - p);
    PlayoutPositive(GameOrder(p), GameEnd(GameDeuce(p)), 0, 0);
  }

  lemma {:induction false} GameInterior(p: real)
    requires 0.0 < p < 1.0
    ensures 0.0 < Game(p) < 1.0
  {
    GamePositive(p);
    var above := (p + 1.0) / 2.0;
    GameStrictInside(p, above);
    GameChance(above);
  }

  /** The hold determines the serve it came from, and is certain only with it. */
  lemma {:induction false} HoldDeterminesServe(pA: real, pB: real)
    requires Chance(pA) && Chance(pB)
    ensures Game(pA) == Game(pB) <==> pA == pB
  {
    if pA < pB {
      GameStrict(pA, pB);
    } else if pB < pA {
      GameStrict(pB, pA);
    }
  }

  lemma {:induction false} CertainHold(p: real)
    requires Chance(p)
    ensures Game(p) == 0.0 || Game(p) == 1.0 <==> p == 0.0 || p == 1.0
  {
    if p == 0.0 || p == 1.0 {
      GameAtEnds(p);
    } else {
      GameInterior(p);
    }
  }

  // -------------------------------------------------------------------- tiebreak

  lemma {:induction false} SixAllMonotone(ownA: real, ownB: real, ownA': real, ownB': real)
    requires Chance(ownA) && Chance(ownB) && Chance(ownA') && Chance(ownB')
    requires ownA <= ownA' && ownB' <= ownB
    ensures SixAll(ownA, ownB) <= SixAll(ownA', ownB')
  {
    ProductsInOrder(ownA, 1.0 - ownB, ownA', 1.0 - ownB');
    ProductsInOrder(1.0 - ownA', ownB', 1.0 - ownA, ownB);
    RaceMonotone(ownA * (1.0 - ownB), (1.0 - ownA) * ownB, ownA' * (1.0 - ownB'), (1.0 - ownA') * ownB');
  }

  lemma {:induction false} ProductsInOrder(x: real, y: real, x': real, y': real)
    requires 0.0 <= x <= x' && 0.0 <= y <= y'
    ensures 0.0 <= x * y <= x' * y'
  {
  }

  lemma {:induction false} SixAllRange(ownA: real, ownB: real)
    ensures Chance(SixAll(ownA, ownB))
  {
    RaceChance(ownA * (1.0 - ownB), (1.0 - ownA) * ownB);
  }

  lemma {:induction false} TiebreakChanceRange(pA: real, pB: real)
    requires Chance(pA) && Chance(pB)
    ensures Chance(TiebreakChance(pA, pB))
  {
    SixAllRange(pA, pB);
    TiebreakFromIsPlayout(pA, pB, SixAll(pA, pB), 0, 0);
    PlayoutChance(TiebreakOrder(pA, pB), TiebreakEnd(SixAll(pA, pB)), 0, 0);
  }

  lemma {:induction false} TiebreakMonotone(pA: real, pB: real, pA': real, pB': real)
    requires Chance(pA) && Chance(pB) && Chance(pA') && Chance(pB') && pA <= pA' && pB' <= pB
    ensures TiebreakChance(pA, pB) <= TiebreakChance(pA', pB')
  {
    SixAllRange(pA', pB');
    SixAllMonotone(pA, pB, pA', pB');
    TiebreakFromIsPlayout(pA, pB, SixAll(pA, pB), 0, 0);
    TiebreakFromIsPlayout(pA', pB', SixAll(pA', pB'), 0, 0);
    PlayoutMonotone(TiebreakOrder(pA, pB), TiebreakEnd(SixAll(pA, pB)),
                    TiebreakOrder(pA', pB'), TiebreakEnd(SixAll(pA', pB')), 0, 0);
  }

  // ------------------------------------------------------------------------- set

  ghost function SixGamesAll(pA: real, pB: real, advantage: bool): real {
    if advantage then SixAll(Game(pA), Game(pB)) else TiebreakChance(pA, pB)
  }

  lemma {:induction false} SixGamesAllRange(pA: real, pB: real, advantage: bool)
    requires Chance(pA) && Chance(pB)
    ensures Chance(SixGamesAll(pA, pB, advantage))
  {
    if advantage {
      SixAllRange(Game(pA), Game(pB));
    } else {
      TiebreakChanceRange(pA, pB);
    }
  }

  lemma {:induction false} SixGamesAllMonotone(pA: real, pB: real, pA': real, pB': real, advantage: bool)
    requires Chance(pA) && Chance(pB) && Chance(pA') && Chance(pB') && pA <= pA' && pB' <= pB
    ensures SixGamesAll(pA, pB, advantage) <= SixGamesAll(pA', pB', advantage)
  {
    GameChance(pA);
    GameChance(pB);
    GameChance(pA');
    GameChance(pB');
    GameMonotone(pA, pA');
    GameMonotone(pB', pB);
    if advantage {
      SixAllMonotone(Game(pA), Game(pB), Game(pA'), Game(pB'));
    } else {
      TiebreakMonotone(pA, pB, pA', pB');
    }
  }

  lemma {:induction false} FiveAllRange(holdA: real, holdB: real, six: real)
    requires Chance(holdA) && Chance(holdB) && Chance(six)
    ensures Chance(FiveAll(holdA, holdB, six))
  {
    MixChance(1.0 - holdB, 1.0, six);
    MixChance(1.0 - holdB, six, 0.0);
    MixChance(holdA, Mix(1.0 - holdB, 1.0, six), Mix(1.0 - holdB, six, 0.0));
  }

  lemma {:induction false} FiveAllMonotone(holdA: real, holdB: real, six: real, holdA': real, holdB': real, six': real)
    requires Chance(holdA) && Chance(holdB) && Chance(six) && Chance(holdA') && Chance(holdB') && Chance(six')
    requires holdA <= holdA' && holdB' <= holdB && six <= six'
    ensures FiveAll(holdA, holdB, six) <= FiveAll(holdA', holdB', six')
  {
    MixBelow(1.0 - holdB, 1.0, six, 1.0 - holdB', 1.0, six');
    MixBelow(1.0 - holdB, six, 0.0, 1.0 - holdB', six', 0.0);
    MixBelow(1.0 - holdB', six', 0.0, 1.0 - holdB', 1.0, six');
    MixBelow(holdA, Mix(1.0 - holdB, 1.0, six), Mix(1.0 - holdB, six, 0.0),
             holdA', Mix(1.0 - holdB', 1.0, six'), Mix(1.0 - holdB', six', 0.0));
  }

  lemma {:induction false} SetRange(holdA: real, holdB: real, six: real)
    requires Chance(holdA) && Chance(holdB) && Chance(six)
    ensures Chance(SetFrom(holdA, holdB, six, 0, 0))
  {
    FiveAllRange(holdA, holdB, six);
    SetFromIsPlayout(holdA, holdB, six, 0, 0);
    PlayoutChance(SetOrder(holdA, holdB), SetEnd(FiveAll(holdA, holdB, six)), 0, 0);
  }

  lemma {:induction false} SetChanceRange(pA: real, pB: real, advantage: bool)
    requires Chance(pA) && Chance(pB)
    ensures Chance(SetChance(pA, pB, advantage))
  {
    GameChance(pA);
    GameChance(pB);
    SixGamesAllRange(pA, pB, advantage);
    SetRange(Game(pA), Game(pB), SixGamesAll(pA, pB, advantage));
  }

  lemma {:induction false} SetSchedules(holdA: real, holdB: real, holdA': real, holdB': real)
    requires Chance(holdA) && Chance(holdB) && Chance(holdA') && Chance(holdB')
    requires holdA <= holdA' && holdB' <= holdB
    ensures Chances(SetOrder(holdA, holdB)) && Chances(SetOrder(holdA', holdB'))
    ensures Below(SetOrder(holdA, holdB), SetOrder(holdA', holdB'))
  {
  }

  lemma {:induction false} SetEnds(fiveAll: real, fiveAll': real)
    requires Chance(fiveAll) && Chance(fiveAll') && fiveAll <= fiveAll'
    ensures Ascending(SetEnd(fiveAll')) && Below(SetEnd(fiveAll), SetEnd(fiveAll'))
  {
  }

  lemma {:induction false} SetMonotone(holdA: real, holdB: real, six: real, holdA': real, holdB': real, six': real)
    requires Chance(holdA) && Chance(holdB) && Chance(six) && Chance(holdA') && Chance(holdB') && Chance(six')
    requires holdA <= holdA' && holdB' <= holdB && six <= six'
    ensures SetFrom(holdA, holdB, six, 0, 0) <= SetFrom(holdA', holdB', six', 0, 0)
  {
    FiveAllRange(holdA, holdB, six);
    FiveAllRange(holdA', holdB', six');
    FiveAllMonotone(holdA, holdB, six, holdA', holdB', six');
    SetSchedules(holdA, holdB, holdA', holdB');
    SetEnds(FiveAll(holdA, holdB, six), FiveAll(holdA', holdB', six'));
    SetFromIsPlayout(holdA, holdB, six, 0, 0);
    SetFromIsPlayout(holdA', holdB', six', 0, 0);
    PlayoutMonotone(SetOrder(holdA, holdB), SetEnd(FiveAll(holdA, holdB, six)),
                    SetOrder(holdA', holdB'), SetEnd(FiveAll(holdA', holdB', six')), 0, 0);
  }

  lemma {:induction false} SetStrict(holdA: real, holdB: real, six: real, holdA': real, holdB': real, six': real)
    requires Chance(holdA) && Chance(holdB) && Chance(six) && Chance(six')
    requires 0.0 < holdA' < 1.0 && 0.0 < holdB' < 1.0
    requires holdA < holdA' && holdB' <= holdB && six <= six'
    ensures SetFrom(holdA, holdB, six, 0, 0) < SetFrom(holdA', holdB', six', 0, 0)
  {
    FiveAllRange(holdA, holdB, six);
    FiveAllRange(holdA', holdB', six');
    FiveAllMonotone(holdA, holdB, six, holdA', holdB', six');
    SetSchedules(holdA, holdB, holdA', holdB');
    SetEnds(FiveAll(holdA, holdB, six), FiveAll(holdA', holdB', six'));
    SetFromIsPlayout(holdA, holdB, six, 0, 0);
    SetFromIsPlayout(holdA', holdB', six', 0, 0);
    PlayoutStrict(SetOrder(holdA, holdB), SetOrder(holdA', holdB'),
                  SetEnd(FiveAll(holdA, holdB, six)), SetEnd(FiveAll(holdA', holdB', six')));
  }

  lemma {:induction false} SetInterior(holdA: real, holdB: real, six: real)
    requires 0.0 < holdA < 1.0 && 0.0 < holdB < 1.0 && Chance(six)
    ensures 0.0 < SetFrom(holdA, holdB, six, 0, 0) < 1.0
  {
    var other := 1.0 - six;
    SetPositive(holdA, holdB, six);
    SetPositive(holdB, holdA, other);
    SetMirror(holdA, holdB, six, other);
  }

  lemma {:induction false} SetPositive(holdA: real, holdB: real, six: real)
    requires 0.0 < holdA < 1.0 && 0.0 < holdB < 1.0 && Chance(six)
    ensures 0.0 < SetFrom(holdA, holdB, six, 0, 0)
  {
    FiveAllRange(holdA, holdB, six);
    SetFromIsPlayout(holdA, holdB, six, 0, 0);
    PlayoutPositive(SetOrder(holdA, holdB), SetEnd(FiveAll(holdA, holdB, six)), 0, 0);
  }

  // ----------------------------------------------------------------------- match

  lemma {:induction false} MatchAsPlayout(set_: real, decider: real, f: Format)
    ensures MatchFromSets(set_, decider, f.Sets())
         == Playout(MatchOrder(set_, Need(f)), MatchEnd(decider, Need(f)), 0, 0)
  {
    MatchIsSetBySet(set_, decider, f);
    MatchFromIsPlayout(set_, decider, Need(f), 0, 0);
  }

  lemma {:induction false} MatchRange(s: real, d: real, f: Format)
    requires Chance(s) && Chance(d)
    ensures Chance(MatchFromSets(s, d, f.Sets()))
  {
    MatchAsPlayout(s, d, f);
    PlayoutChance(MatchOrder(s, Need(f)), MatchEnd(d, Need(f)), 0, 0);
  }

  lemma {:induction false} MatchMonotone(s: real, d: real, s': real, d': real, f: Format)
    requires Chance(s) && Chance(d) && Chance(s') && Chance(d') && s <= s' && d <= d'
    ensures MatchFromSets(s, d, f.Sets()) <= MatchFromSets(s', d', f.Sets())
  {
    MatchAsPlayout(s, d, f);
    MatchAsPlayout(s', d', f);
    PlayoutMonotone(MatchOrder(s, Need(f)), MatchEnd(d, Need(f)), MatchOrder(s', Need(f)), MatchEnd(d', Need(f)), 0, 0);
  }

  lemma {:induction false} MatchStrict(s: real, d: real, s': real, d': real, f: Format)
    requires Chance(s) && Chance(d) && 0.0 < s' < 1.0 && Chance(d') && s < s' && d <= d'
    ensures MatchFromSets(s, d, f.Sets()) < MatchFromSets(s', d', f.Sets())
  {
    MatchAsPlayout(s, d, f);
    MatchAsPlayout(s', d', f);
    PlayoutStrict(MatchOrder(s, Need(f)), MatchOrder(s', Need(f)), MatchEnd(d, Need(f)), MatchEnd(d', Need(f)));
  }

  /** Every rung of the chain is a chance. */
  lemma {:induction false} EveryRungIsAChance(pA: real, pB: real, f: Format)
    requires Chance(pA) && Chance(pB)
    ensures Chance(Game(pA)) && Chance(SetChance(pA, pB, false)) && Chance(MatchChance(pA, pB, f))
  {
    GameChance(pA);
    SetChanceRange(pA, pB, false);
    SetChanceRange(pA, pB, f.finalSetAdvantage);
    MatchRange(SetChance(pA, pB, false), SetChance(pA, pB, f.finalSetAdvantage), f);
  }

  lemma {:induction false} SetChanceMonotone(pA: real, pB: real, pA': real, pB': real, advantage: bool)
    requires Chance(pA) && Chance(pB) && Chance(pA') && Chance(pB') && pA <= pA' && pB' <= pB
    ensures SetChance(pA, pB, advantage) <= SetChance(pA', pB', advantage)
  {
    GameChance(pA);
    GameChance(pB);
    GameChance(pA');
    GameChance(pB');
    GameMonotone(pA, pA');
    GameMonotone(pB', pB);
    SixGamesAllRange(pA, pB, advantage);
    SixGamesAllRange(pA', pB', advantage);
    SixGamesAllMonotone(pA, pB, pA', pB', advantage);
    SetMonotone(Game(pA), Game(pB), SixGamesAll(pA, pB, advantage),
                Game(pA'), Game(pB'), SixGamesAll(pA', pB', advantage));
  }

  /** A better serve, or a worse opponent's, never lowers the match, on the whole
      closed square, certain servers included. */
  lemma {:induction false} BetterPointsNeverLoseMatches(pA: real, pB: real, pA': real, pB': real, f: Format)
    requires Chance(pA) && Chance(pB) && Chance(pA') && Chance(pB') && pA <= pA' && pB' <= pB
    ensures MatchChance(pA, pB, f) <= MatchChance(pA', pB', f)
  {
    SetChanceRange(pA, pB, false);
    SetChanceRange(pA, pB, f.finalSetAdvantage);
    SetChanceRange(pA', pB', false);
    SetChanceRange(pA', pB', f.finalSetAdvantage);
    SetChanceMonotone(pA, pB, pA', pB', false);
    SetChanceMonotone(pA, pB, pA', pB', f.finalSetAdvantage);
    MatchMonotone(SetChance(pA, pB, false), SetChance(pA, pB, f.finalSetAdvantage),
                  SetChance(pA', pB', false), SetChance(pA', pB', f.finalSetAdvantage), f);
  }

  lemma {:induction false} SetChanceStrict(pA: real, pB: real, pA': real, pB': real)
    requires Chance(pA) && Chance(pB) && 0.0 < pA' < 1.0 && 0.0 < pB' < 1.0 && pA < pA' && pB' <= pB
    ensures SetChance(pA, pB, false) < SetChance(pA', pB', false)
    ensures 0.0 < SetChance(pA', pB', false) < 1.0
  {
    GameChance(pA);
    GameChance(pB);
    GameInterior(pA');
    GameInterior(pB');
    GameStrict(pA, pA');
    GameMonotone(pB', pB);
    SixGamesAllRange(pA, pB, false);
    SixGamesAllRange(pA', pB', false);
    SixGamesAllMonotone(pA, pB, pA', pB', false);
    SetStrict(Game(pA), Game(pB), SixGamesAll(pA, pB, false), Game(pA'), Game(pB'), SixGamesAll(pA', pB', false));
    SetInterior(Game(pA'), Game(pB'), SixGamesAll(pA', pB', false));
  }

  /** Between certainties, a better serve is a strictly better match. */
  lemma {:induction false} BetterServeWinsMore(pA: real, pB: real, pA': real, pB': real, f: Format)
    requires Chance(pA) && Chance(pB) && 0.0 < pA' < 1.0 && 0.0 < pB' < 1.0 && pA < pA' && pB' <= pB
    ensures MatchChance(pA, pB, f) < MatchChance(pA', pB', f)
  {
    SetChanceRange(pA, pB, false);
    SetChanceRange(pA, pB, f.finalSetAdvantage);
    SetChanceRange(pA', pB', f.finalSetAdvantage);
    SetChanceStrict(pA, pB, pA', pB');
    SetChanceMonotone(pA, pB, pA', pB', f.finalSetAdvantage);
    MatchStrict(SetChance(pA, pB, false), SetChance(pA, pB, f.finalSetAdvantage),
                SetChance(pA', pB', false), SetChance(pA', pB', f.finalSetAdvantage), f);
  }

  // ------------------------------------------------ six all against its own next pair

  /** What two more units, one served by each side, make of a value of six all. */
  ghost function NextPair(winBoth: real, loseBoth: real, level: real): real {
    winBoth + (1.0 - winBoth - loseBoth) * level
  }

  lemma {:induction false} NonZeroProduct(x: real, y: real)
    requires x != 0.0 && y != 0.0
    ensures x * y != 0.0
  {
  }

  lemma {:induction false} UnbalancedRace(x: real, y: real, v: real)
    requires 0.0 < x && 0.0 < y && v * (Square(x) + Square(y)) == Square(x) && v * (x + y) == x
    ensures x == y
  {
    assert v * (Square(x) + Square(y)) * (x + y) == Square(x) * (x + y);
    assert v * (x + y) * (Square(x) + Square(y)) == x * (Square(x) + Square(y));
    assert x * y * (x - y) == 0.0;
    NonZeroProduct(x, y);
    if x != y {
      NonZeroProduct(x * y, x - y);
    }
  }

  /** A race over pair products is the value its own next pair implies exactly
      when it is dead or even. */
  lemma {:induction false} RacePairs(x: real, y: real)
    requires 0.0 <= x && 0.0 <= y
    ensures TwoPointRace(x, y) == NextPair(x, y, TwoPointRace(x, y)) <==> x == 0.0 || y == 0.0 || x == y
  {
    var v := TwoPointRace(x, y);
    RaceTimesTotal(x, y);
    SquareSign(x);
    SquareSign(y);
    assert v == NextPair(x, y, v) <==> v * (x + y) == x;
    if x == 0.0 || y == 0.0 {
      RaceUnopposed(x);
      RaceUnopposed(y);
      RaceMirror(x, y);
    } else if x == y {
      RaceMirror(x, y);
    } else if v * (x + y) == x {
      UnbalancedRace(x, y, v);
    }
  }

  /** The value of six all is the one its own next pair implies, each side
      winning its own unit with the given chance. */
  ghost predicate SixAllConsistent(ownA: real, ownB: real) {
    SixAll(ownA, ownB) == NextPair(ownA * (1.0 - ownB), (1.0 - ownA) * ownB, SixAll(ownA, ownB))
  }

  lemma {:induction false} PairProducts(ownA: real, ownB: real)
    requires Chance(ownA) && Chance(ownB)
    ensures 0.0 <= ownA * (1.0 - ownB) && 0.0 <= (1.0 - ownA) * ownB
    ensures ownA * (1.0 - ownB) == 0.0 <==> ownA == 0.0 || ownB == 1.0
    ensures (1.0 - ownA) * ownB == 0.0 <==> ownA == 1.0 || ownB == 0.0
    ensures ownA * (1.0 - ownB) == (1.0 - ownA) * ownB <==> ownA == ownB
  {
    var notA, notB := 1.0 - ownA, 1.0 - ownB;
    ProductSign(ownA, notB);
    ProductSign(notA, ownB);
    assert ownA * notB - notA * ownB == ownA - ownB;
  }

  lemma {:induction false} ProductSign(x: real, y: real)
    requires 0.0 <= x && 0.0 <= y
    ensures 0.0 <= x * y
    ensures x * y == 0.0 <==> x == 0.0 || y == 0.0
  {
  }

  /** Six all in a tiebreak is scored as if the pair products were the chances of
      single points. That agrees with playing the next pair exactly when the two
      serves are equal or one of them is certain. */
  lemma {:induction false} TiebreakSixAllIsConsistentIff(pA: real, pB: real)
    requires Chance(pA) && Chance(pB)
    ensures SixAllConsistent(pA, pB) <==> pA == pB || pA == 0.0 || pA == 1.0 || pB == 0.0 || pB == 1.0
  {
    PairProducts(pA, pB);
    RacePairs(pA * (1.0 - pB), (1.0 - pA) * pB);
  }

  /** The same for an advantage set, still in terms of the serves. */
  lemma {:induction false} AdvantageSixAllIsConsistentIff(pA: real, pB: real)
    requires Chance(pA) && Chance(pB)
    ensures SixAllConsistent(Game(pA), Game(pB)) <==> pA == pB || pA == 0.0 || pA == 1.0 || pB == 0.0 || pB == 1.0
  {
    GameChance(pA);
    GameChance(pB);
    CertainHold(pA);
    CertainHold(pB);
    HoldDeterminesServe(pA, pB);
    TiebreakSixAllIsConsistentIff(Game(pA), Game(pB));
  }

  /** A concrete pair at which it fails: 0.7 against 0.6 at six all. */
  lemma {:induction false} SixAllIsNotConsistentEverywhere()
    ensures !SixAllConsistent(0.7, 0.6)
  {
  }
}
