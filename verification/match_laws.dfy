/** The laws of the chain: each rung is a playout, serving first is worth nothing,
    every rung is a chance, and a better point never makes a worse match. */
module MatchLaws {
  import opened Playouts
  import opened Match

  // ------------------------------------------------------- every rung a playout

  ghost function GameOrder(p: real): seq<real> {
    [p, p, p, p, p, p]
  }

  ghost function GameEnd(deuce: real): seq<real> {
    [0.0, 0.0, 0.0, deuce, 1.0, 1.0, 1.0]
  }

  /** A game stopped at four points is six points played out. */
  lemma {:induction false} GameFromIsPlayout(p: real, deuce: real, a: nat, b: nat)
    requires a <= 4 && b <= 4 && a + b <= 6
    ensures GameFrom(p, deuce, a, b) == Playout(GameOrder(p), GameEnd(deuce), a + b, a)
    decreases 8 - a - b
  {
    if a == 4 {
      PlayoutDecided(GameOrder(p), GameEnd(deuce), a + b, a, 1.0);
    } else if b == 4 {
      PlayoutDecided(GameOrder(p), GameEnd(deuce), a + b, a, 0.0);
    } else if a != 3 || b != 3 {
      GameFromIsPlayout(p, deuce, a + 1, b);
      GameFromIsPlayout(p, deuce, a, b + 1);
    }
  }

  ghost function TiebreakOrder(pA: real, pB: real): seq<real> {
    seq(12, n => if n >= 0 && ServerIsA(n) then pA else 1.0 - pB)
  }

  ghost function TiebreakEnd(sixAll: real): seq<real> {
    [0.0, 0.0, 0.0, 0.0, 0.0, 0.0, sixAll, 1.0, 1.0, 1.0, 1.0, 1.0, 1.0]
  }

  /** A tiebreak stopped at seven points is twelve points played out. */
  lemma {:induction false} TiebreakFromIsPlayout(pA: real, pB: real, sixAll: real, a: nat, b: nat)
    requires a <= 7 && b <= 7 && a + b <= 12
    ensures TiebreakFrom(pA, pB, sixAll, a, b) == Playout(TiebreakOrder(pA, pB), TiebreakEnd(sixAll), a + b, a)
    decreases 14 - a - b
  {
    if a == 7 {
      PlayoutDecided(TiebreakOrder(pA, pB), TiebreakEnd(sixAll), a + b, a, 1.0);
    } else if b == 7 {
      PlayoutDecided(TiebreakOrder(pA, pB), TiebreakEnd(sixAll), a + b, a, 0.0);
    } else if a != 6 || b != 6 {
      TiebreakFromIsPlayout(pA, pB, sixAll, a + 1, b);
      TiebreakFromIsPlayout(pA, pB, sixAll, a, b + 1);
    }
  }

  ghost function SetOrder(holdA: real, holdB: real): seq<real> {
    seq(10, n => if n % 2 == 1 then 1.0 - holdB else holdA)
  }

  /** The value of five games all: two more games, or six all. */
  ghost function FiveAll(holdA: real, holdB: real, sixAll: real): real {
    Mix(holdA, Mix(1.0 - holdB, 1.0, sixAll), Mix(1.0 - holdB, sixAll, 0.0))
  }

  ghost function SetEnd(fiveAll: real): seq<real> {
    [0.0, 0.0, 0.0, 0.0, 0.0, fiveAll, 1.0, 1.0, 1.0, 1.0, 1.0]
  }

  /** A set stopped at six games two clear is ten games played out, five all apart. */
  lemma {:induction false} SetFromIsPlayout(holdA: real, holdB: real, sixAll: real, a: nat, b: nat)
    requires a <= 6 && b <= 6 && a + b <= 10
    ensures SetFrom(holdA, holdB, sixAll, a, b)
         == Playout(SetOrder(holdA, holdB), SetEnd(FiveAll(holdA, holdB, sixAll)), a + b, a)
    decreases 14 - a - b
  {
    var order, end := SetOrder(holdA, holdB), SetEnd(FiveAll(holdA, holdB, sixAll));
    if a == 6 {
      PlayoutDecided(order, end, a + b, a, 1.0);
    } else if b == 6 {
      PlayoutDecided(order, end, a + b, a, 0.0);
    } else if a == 5 && b == 5 {
      FiveAllUnfolds(holdA, holdB, sixAll);
    } else {
      SetFromIsPlayout(holdA, holdB, sixAll, a + 1, b);
      SetFromIsPlayout(holdA, holdB, sixAll, a, b + 1);
    }
  }

  lemma {:induction false} FiveAllUnfolds(holdA: real, holdB: real, sixAll: real)
    ensures SetFrom(holdA, holdB, sixAll, 5, 5) == FiveAll(holdA, holdB, sixAll)
  {
  }

  // ------------------------------------------------------------ the closed forms

  lemma {:induction false} MixOf(p: real, q: real, win: real, lose: real)
    requires q == 1.0 - p
    ensures Mix(p, win, lose) == p * win + q * lose
  {
  }

  // The scores on the way to deuce, as polynomials in p, q and the value of deuce.

  lemma {:induction false} Game30(p: real, q: real, d: real)
    requires q == 1.0 - p
    ensures GameFrom(p, d, 3, 0) == p * (1.0 + q + q * q) + q * q * q * d
  {
  }

  lemma {:induction false} Game21(p: real, q: real, d: real)
    requires q == 1.0 - p
    ensures GameFrom(p, d, 2, 1) == p * p * (1.0 + 2.0 * q) + 3.0 * p * q * q * d
  {
  }

  lemma {:induction false} Game12(p: real, q: real, d: real)
    requires q == 1.0 - p
    ensures GameFrom(p, d, 1, 2) == p * p * p + 3.0 * p * p * q * d
  {
  }

  lemma {:induction false} Game03(p: real, q: real, d: real)
    requires q == 1.0 - p
    ensures GameFrom(p, d, 0, 3) == p * p * p * d
  {
  }

  /** Three points at once: the four scores they lead to, weighted. */
  ghost function ThreePoints(p: real, q: real, w: real, x: real, y: real, z: real): real {
    p * p * p * w + 3.0 * p * p * q * x + 3.0 * p * q * q * y + q * q * q * z
  }

  lemma {:induction false} ThreePointsAlgebra(p: real, q: real, w: real, x: real, y: real, z: real)
    requires q == 1.0 - p
    ensures Mix(p, Mix(p, Mix(p, w, x), Mix(p, x, y)), Mix(p, Mix(p, x, y), Mix(p, y, z)))
         == ThreePoints(p, q, w, x, y, z)
  {
  }

  lemma {:induction false} FirstThreePoints(p: real, q: real, d: real)
    requires q == 1.0 - p
    ensures GameFrom(p, d, 0, 0)
         == ThreePoints(p, q, GameFrom(p, d, 3, 0), GameFrom(p, d, 2, 1), GameFrom(p, d, 1, 2), GameFrom(p, d, 0, 3))
  {
    ThreePointsAlgebra(p, q, GameFrom(p, d, 3, 0), GameFrom(p, d, 2, 1), GameFrom(p, d, 1, 2), GameFrom(p, d, 0, 3));
  }

  lemma {:induction false} GameAlgebra(p: real, q: real, d: real)
    ensures ThreePoints(p, q, p * (1.0 + q + q * q) + q * q * q * d,
                        p * p * (1.0 + 2.0 * q) + 3.0 * p * q * q * d,
                        p * p * p + 3.0 * p * p * q * d, p * p * p * d)
         == GameWithDeuce(p, q, d)
  {
  }

  lemma {:induction false} GamePolynomial(p: real, q: real, d: real)
    requires q == 1.0 - p
    ensures GameFrom(p, d, 0, 0) == GameWithDeuce(p, q, d)
  {
    Game30(p, q, d);
    Game21(p, q, d);
    Game12(p, q, d);
    Game03(p, q, d);
    FirstThreePoints(p, q, d);
    GameAlgebra(p, q, d);
  }

  /** The closed form is the point-by-point game, with the race as its deuce. */
  lemma {:induction false} GameIsPointByPoint(p: real)
    ensures Game(p) == GameFrom(p, TwoPointRace(p, 1.0 - p), 0, 0)
  {
    GamePolynomial(p, 1.0 - p, TwoPointRace(p, 1.0 - p));
  }

  // -------------------------------------------------------------------- the race

  lemma {:induction false} PositiveSquare(x: real)
    requires 0.0 < x
    ensures 0.0 < Square(x)
  {
    PositiveValue(x, x, Square(x));
  }

  lemma {:induction false} PositiveValue(x: real, y: real, product: real)
    requires 0.0 < x && 0.0 < y && product == x * y
    ensures 0.0 < product
  {
  }

  lemma {:induction false} SquareSign(x: real)
    ensures if x == 0.0 then Square(x) == 0.0 else 0.0 < Square(x)
  {
    if 0.0 < x {
      PositiveSquare(x);
    } else if x < 0.0 {
      PositiveSquare(-x);
      assert Square(-x) == Square(x);
    }
  }

  /** The race times its total is the favourable part, empty race included. */
  lemma {:induction false} RaceTimesTotal(x: real, y: real)
    ensures TwoPointRace(x, y) * (Square(x) + Square(y)) == Square(x)
  {
  }

  /** Deuce settles itself two points later: won, lost, or deuce again. */
  lemma {:induction false} DeuceEquation(p: real, q: real)
    requires q == 1.0 - p
    ensures TwoPointRace(p, q) == p * p + 2.0 * p * q * TwoPointRace(p, q)
  {
  }

  lemma {:induction false} Shares(a: real, b: real)
    requires a + b != 0.0
    ensures a / (a + b) + b / (a + b) == 1.0
  {
  }

  lemma {:induction false} RaceMirror(x: real, y: real)
    ensures TwoPointRace(x, y) + TwoPointRace(y, x) == 1.0
  {
  }

  lemma {:induction false} FractionNonNegative(a: real, b: real)
    requires 0.0 <= a && 0.0 < b
    ensures 0.0 <= a / b
  {
  }

  lemma {:induction false} RaceNonNegative(x: real, y: real)
    ensures 0.0 <= TwoPointRace(x, y)
  {
    SquareSign(x);
    SquareSign(y);
    if Square(x) + Square(y) != 0.0 {
      FractionNonNegative(Square(x), Square(x) + Square(y));
    }
  }

  lemma {:induction false} RaceChance(x: real, y: real)
    ensures Chance(TwoPointRace(x, y))
  {
    RaceNonNegative(x, y);
    RaceNonNegative(y, x);
    RaceMirror(x, y);
  }

  lemma {:induction false} SquaresInOrder(u: real, v: real)
    requires 0.0 <= u <= v
    ensures Square(u) <= Square(v)
  {
  }

  /** For squares a, b, c, d with a*d <= c*b, the share a of a+b is at most c of c+d. */
  lemma {:induction false} SharesInOrder(a: real, b: real, c: real, d: real)
    requires 0.0 < a + b && 0.0 < c + d && a * d <= c * b
    ensures a / (a + b) <= c / (c + d)
  {
  }

  lemma {:induction false} CrossSquares(x: real, y: real, x': real, y': real)
    requires 0.0 <= x <= x' && 0.0 <= y' <= y
    ensures Square(x) * Square(y') <= Square(x') * Square(y)
  {
    CrossProducts(x, y, x', y');
    SquaresInOrder(x * y', x' * y);
    SquareOfProduct(x, y');
    SquareOfProduct(x', y);
  }

  lemma {:induction false} SquareOfProduct(u: real, v: real)
    ensures Square(u * v) == Square(u) * Square(v)
  {
  }

  lemma {:induction false} CrossProducts(x: real, y: real, x': real, y': real)
    requires 0.0 <= x <= x' && 0.0 <= y' <= y
    ensures 0.0 <= x * y' <= x' * y
  {
  }

  /** Better at both ends of the pair never lowers the race, dead races included. */
  lemma {:induction false} RaceMonotone(x: real, y: real, x': real, y': real)
    requires 0.0 <= x <= x' && 0.0 <= y' <= y
    ensures TwoPointRace(x, y) <= TwoPointRace(x', y')
  {
    SquareSign(x);
    SquareSign(y);
    SquareSign(x');
    SquareSign(y');
    if x == 0.0 && y == 0.0 {
      RaceUnopposed(x');
    } else if x' == 0.0 && y' == 0.0 {
      RaceUnopposed(y);
      RaceMirror(y, 0.0);
    } else {
      CrossSquares(x, y, x', y');
      SharesInOrder(Square(x), Square(y), Square(x'), Square(y'));
    }
  }

  lemma {:induction false} RaceUnopposed(x: real)
    ensures TwoPointRace(x, 0.0) == if x == 0.0 then 0.5 else 1.0
  {
    SquareSign(x);
    SquareSign(0.0);
    if x != 0.0 {
      WholeShare(Square(x), Square(0.0));
    }
  }

  lemma {:induction false} WholeShare(a: real, b: real)
    requires a != 0.0 && b == 0.0
    ensures a / (a + b) == 1.0
  {
  }

  // -------------------------------------------------------------- the match rung

  lemma {:induction false} Sets3At00(s: real, l: real, d: real)
    requires l == 1.0 - s
    ensures MatchFrom(s, d, 2, 0, 0) == BestOfThree(s, l, d)
  {
  }

  lemma {:induction false} Sets5At10(s: real, l: real, d: real)
    requires l == 1.0 - s
    ensures MatchFrom(s, d, 3, 1, 0) == s * s + 2.0 * s * s * l + 3.0 * s * l * l * d
  {
  }

  lemma {:induction false} Sets5At01(s: real, l: real, d: real)
    requires l == 1.0 - s
    ensures MatchFrom(s, d, 3, 0, 1) == s * s * s + 3.0 * s * s * l * d
  {
  }

  lemma {:induction false} Sets5Algebra(s: real, l: real, d: real)
    ensures s * (s * s + 2.0 * s * s * l + 3.0 * s * l * l * d) + l * (s * s * s + 3.0 * s * s * l * d)
         == BestOfFive(s, l, d)
  {
  }

  lemma {:induction false} Sets5At00(s: real, l: real, d: real)
    requires l == 1.0 - s
    ensures MatchFrom(s, d, 3, 0, 0) == BestOfFive(s, l, d)
  {
    Sets5At10(s, l, d);
    Sets5At01(s, l, d);
    MixOf(s, l, s * s + 2.0 * s * s * l + 3.0 * s * l * l * d, s * s * s + 3.0 * s * s * l * d);
    Sets5Algebra(s, l, d);
  }

  ghost function Need(f: Format): nat
    ensures Need(f) == 2 || Need(f) == 3
  {
    if f.Sets() == 5 then 3 else 2
  }

  /** The closed form of a match is the set-by-set match, best of three or of five. */
  lemma {:induction false} MatchIsSetBySet(set_: real, decider: real, f: Format)
    ensures MatchFromSets(set_, decider, f.Sets()) == MatchFrom(set_, decider, Need(f), 0, 0)
  {
    if f.Sets() == 5 {
      Sets5At00(set_, 1.0 - set_, decider);
    } else {
      Sets3At00(set_, 1.0 - set_, decider);
    }
  }

  /** What is played under a format: three sets win a best of five, two any other match; the
      decider alone is an advantage set where the format has one. */
  lemma {:induction false} FormatDecides(pA: real, pB: real, f: Format)
    ensures f.bestOf == 5 ==>
              MatchChance(pA, pB, f) == MatchFrom(SetChance(pA, pB, false), SetChance(pA, pB, f.finalSetAdvantage), 3, 0, 0)
    ensures f.bestOf != 5 ==>
              MatchChance(pA, pB, f) == MatchFrom(SetChance(pA, pB, false), SetChance(pA, pB, f.finalSetAdvantage), 2, 0, 0)
  {
    MatchIsSetBySet(SetChance(pA, pB, false), SetChance(pA, pB, f.finalSetAdvantage), f);
  }

  /** Six games all is a tiebreak in a set, and a lead of two games in an advantage set. */
  lemma {:induction false} SixAllByKind(pA: real, pB: real)
    ensures var holdA, holdB := Game(pA), Game(pB);
            && SetChance(pA, pB, true) == SetFrom(holdA, holdB, SixAll(holdA, holdB), 0, 0)
            && SetChance(pA, pB, false) == SetFrom(holdA, holdB, TiebreakFrom(pA, pB, SixAll(pA, pB), 0, 0), 0, 0)
  {
  }

  ghost function MatchOrder(set_: real, need: nat): seq<real>
    requires need == 2 || need == 3
  {
    if need == 3 then [set_, set_, set_, set_] else [set_, set_]
  }

  ghost function MatchEnd(decider: real, need: nat): seq<real>
    requires need == 2 || need == 3
    ensures |MatchEnd(decider, need)| == 2 * need - 1
  {
    if need == 3 then [0.0, 0.0, decider, 1.0, 1.0] else [0.0, decider, 1.0]
  }

  /** A match stopped when decided is its first two or four sets played out. */
  lemma {:induction false} MatchFromIsPlayout(set_: real, decider: real, need: nat, a: nat, b: nat)
    requires (need == 2 || need == 3) && a <= need && b <= need && a + b <= 2 * need - 2
    ensures MatchFrom(set_, decider, need, a, b)
         == Playout(MatchOrder(set_, need), MatchEnd(decider, need), a + b, a)
    decreases 2 * need - a - b
  {
    var order, end := MatchOrder(set_, need), MatchEnd(decider, need);
    if a == need {
      PlayoutDecided(order, end, a + b, a, 1.0);
    } else if b == need {
      PlayoutDecided(order, end, a + b, a, 0.0);
    } else if a + b < 2 * need - 2 {
      MatchFromIsPlayout(set_, decider, need, a + 1, b);
      MatchFromIsPlayout(set_, decider, need, a, b + 1);
    }
  }

  // ------------------------------------------------ serving first is worth nothing

  lemma {:induction false} SixAllMirror(ownA: real, ownB: real)
    ensures SixAll(ownA, ownB) + SixAll(ownB, ownA) == 1.0
  {
  }

  lemma {:induction false} TiebreakOrdersExchange(pA: real, pB: real)
    ensures PairsExchanged(TiebreakOrder(pA, pB), Flipped(TiebreakOrder(pB, pA)))
  {
  }

  /** A's chance is the same whoever serves the first point. */
  lemma {:induction false} TiebreakMirror(pA: real, pB: real)
    ensures TiebreakChance(pA, pB) + TiebreakChance(pB, pA) == 1.0
  {
    SixAllMirror(pA, pB);
    TiebreakMirrorFrom(pA, pB, SixAll(pA, pB), SixAll(pB, pA));
  }

  lemma {:induction false} TiebreakIsPlayout(pA: real, pB: real, sixAll: real)
    ensures TiebreakFrom(pA, pB, sixAll, 0, 0) == Playout(TiebreakOrder(pA, pB), TiebreakEnd(sixAll), 0, 0)
  {
    TiebreakFromIsPlayout(pA, pB, sixAll, 0, 0);
  }

  lemma {:induction false} TiebreakMirrorFrom(pA: real, pB: real, sixA: real, sixB: real)
    requires sixA + sixB == 1.0
    ensures TiebreakFrom(pA, pB, sixA, 0, 0) + TiebreakFrom(pB, pA, sixB, 0, 0) == 1.0
  {
    TiebreakIsPlayout(pA, pB, sixA);
    TiebreakIsPlayout(pB, pA, sixB);
    TiebreakOrdersExchange(pA, pB);
    PlayoutSwap(TiebreakOrder(pA, pB), TiebreakEnd(sixA), TiebreakOrder(pB, pA), TiebreakEnd(sixB));
  }

  /** Five games all, as a polynomial: A takes both, or they split and play on. */
  lemma {:induction false} FiveAllExpands(a: real, b: real, s: real)
    ensures FiveAll(a, b, s) == a * (1.0 - b) + (a * b + (1.0 - a) * (1.0 - b)) * s
  {
  }

  lemma {:induction false} FiveAllMirror(holdA: real, holdB: real, sixA: real)
    ensures FiveAll(holdA, holdB, sixA) + FiveAll(holdB, holdA, 1.0 - sixA) == 1.0
  {
    FiveAllExpands(holdA, holdB, sixA);
    FiveAllExpands(holdB, holdA, 1.0 - sixA);
  }

  lemma {:induction false} SetOrdersExchange(holdA: real, holdB: real)
    ensures PairsExchanged(SetOrder(holdA, holdB), Flipped(SetOrder(holdB, holdA)))
  {
  }

  lemma {:induction false} SetMirror(holdA: real, holdB: real, sixA: real, sixB: real)
    requires sixB == 1.0 - sixA
    ensures SetFrom(holdA, holdB, sixA, 0, 0) + SetFrom(holdB, holdA, sixB, 0, 0) == 1.0
  {
    FiveAllMirror(holdA, holdB, sixA);
    SetFromIsPlayout(holdA, holdB, sixA, 0, 0);
    SetFromIsPlayout(holdB, holdA, sixB, 0, 0);
    SetOrdersExchange(holdA, holdB);
    SetEndsMirrored(FiveAll(holdA, holdB, sixA), FiveAll(holdB, holdA, sixB));
    PlayoutSwap(SetOrder(holdA, holdB), SetEnd(FiveAll(holdA, holdB, sixA)),
                SetOrder(holdB, holdA), SetEnd(FiveAll(holdB, holdA, sixB)));
  }

  lemma {:induction false} SetEndsMirrored(fiveA: real, fiveB: real)
    requires fiveA + fiveB == 1.0
    ensures EndMirrored(SetEnd(fiveB), SetEnd(fiveA))
  {
  }

  lemma {:induction false} SetChanceMirror(pA: real, pB: real, advantage: bool)
    ensures SetChance(pA, pB, advantage) + SetChance(pB, pA, advantage) == 1.0
  {
    if advantage {
      SixAllMirror(Game(pA), Game(pB));
      SetMirror(Game(pA), Game(pB), SixAll(Game(pA), Game(pB)), SixAll(Game(pB), Game(pA)));
    } else {
      TiebreakMirror(pA, pB);
      SetMirror(Game(pA), Game(pB), TiebreakChance(pA, pB), TiebreakChance(pB, pA));
    }
  }

  lemma {:induction false} MatchMirror(s: real, d: real, s': real, d': real, f: Format)
    requires s + s' == 1.0 && d + d' == 1.0
    ensures MatchFromSets(s, d, f.Sets()) + MatchFromSets(s', d', f.Sets()) == 1.0
  {
  }

  /** Swapping the players mirrors the match, whatever the format: serving the
      first point of every set is worth nothing. No bound on the inputs is needed. */
  lemma {:induction false} ServeOrderDoesNotMatter(pA: real, pB: real, f: Format)
    ensures MatchChance(pA, pB, f) + MatchChance(pB, pA, f) == 1.0
  {
    SetChanceMirror(pA, pB, false);
    SetChanceMirror(pA, pB, f.finalSetAdvantage);
    MatchMirror(SetChance(pA, pB, false), SetChance(pA, pB, f.finalSetAdvantage),
                SetChance(pB, pA, false), SetChance(pB, pA, f.finalSetAdvantage), f);
  }
}
