/** The chain from a serve probability to a match probability, and its inverse. */
module Match {
  import opened Playouts

  datatype Format = Format(bestOf: int, finalSetAdvantage: bool) {
    function Sets(): int {
      if bestOf == 5 then 5 else 3
    }
  }

  datatype Pair = Pair(a: real, b: real)

  datatype Chain = Chain(point: Pair, hold: Pair, set_: Pair, match_: Pair)

  // ---------------------------------------------------------------- the rungs

  function Square(x: real): real {
    x * x
  }

  /** The chance of a two-point lead, given each side's chance of taking both of
      a pair. The arguments are squared whatever they are. */
  function TwoPointRace(winBoth: real, loseBoth: real): real {
    var total := Square(winBoth) + Square(loseBoth);
    if total == 0.0 then 0.5 else Square(winBoth) / total
  }

  /** 4-0, 4-1 and 4-2, then the 3-3 paths that reach deuce. */
  function GameWithDeuce(p: real, q: real, deuce: real): real {
    var straight := p * p * p * p * (1.0 + 4.0 * q + 10.0 * q * q);
    var toDeuce := 20.0 * p * p * p * q * q * q;
    straight + toDeuce * deuce
  }

  function Game(p: real): real {
    GameWithDeuce(p, 1.0 - p, TwoPointRace(p, 1.0 - p))
  }

  /** Who serves point n of a tiebreak: A one, then B two, then A two, and so on. */
  predicate ServerIsA(n: nat) {
    n % 4 == 0 || n % 4 == 3
  }

  /** The value of six all, points or games: a race over pairs of units, one
      served by each side, from each side's chance of winning its own. */
  function SixAll(ownA: real, ownB: real): real {
    TwoPointRace(ownA * (1.0 - ownB), (1.0 - ownA) * ownB)
  }

  /** 2-0, and 2-1 where the third set is the decider. */
  function BestOfThree(set_: real, lose: real, decider: real): real {
    set_ * set_ + 2.0 * set_ * lose * decider
  }

  /** 3-0, 3-1, and 3-2 where the fifth set is the decider. */
  function BestOfFive(set_: real, lose: real, decider: real): real {
    set_ * set_ * set_ + 3.0 * set_ * set_ * set_ * lose + 6.0 * set_ * set_ * lose * lose * decider
  }

  function MatchFromSets(set_: real, decider: real, bestOf: int): real {
    if bestOf == 5 then BestOfFive(set_, 1.0 - set_, decider) else BestOfThree(set_, 1.0 - set_, decider)
  }

  // --------------------------------------------- the recursions, score by score

  /** A's chance of the game from a points to b, `deuce` being its chance at 3-3. */
  ghost function GameFrom(p: real, deuce: real, a: nat, b: nat): real
    requires a <= 4 && b <= 4 && a + b <= 7
    decreases 8 - a - b
  {
    if a == 4 then 1.0
    else if b == 4 then 0.0
    else if a == 3 && b == 3 then deuce
    else Mix(p, GameFrom(p, deuce, a + 1, b), GameFrom(p, deuce, a, b + 1))
  }

  /** A's chance of the tiebreak from a points to b, A having served the first. */
  ghost function TiebreakFrom(pA: real, pB: real, sixAll: real, a: nat, b: nat): real
    requires a <= 7 && b <= 7 && a + b <= 13
    decreases 14 - a - b
  {
    if a == 7 then 1.0
    else if b == 7 then 0.0
    else if a == 6 && b == 6 then sixAll
    else Mix(if ServerIsA(a + b) then pA else 1.0 - pB,
             TiebreakFrom(pA, pB, sixAll, a + 1, b), TiebreakFrom(pA, pB, sixAll, a, b + 1))
  }

  /** A's chance of the set from a games to b, A having served the first. */
  ghost function SetFrom(holdA: real, holdB: real, sixAll: real, a: nat, b: nat): real
    requires a <= 7 && b <= 7 && a + b <= 13
    decreases 14 - a - b
  {
    if a == 6 && b <= 4 then 1.0
    else if b == 6 && a <= 4 then 0.0
    else if a == 7 then 1.0
    else if b == 7 then 0.0
    else if a == 6 && b == 6 then sixAll
    else Mix(if (a + b) % 2 == 1 then 1.0 - holdB else holdA,
             SetFrom(holdA, holdB, sixAll, a + 1, b), SetFrom(holdA, holdB, sixAll, a, b + 1))
  }

  /** A's chance of the match from a sets to b, `need` sets winning it, where
      `decider` is its chance of a deciding set. */
  ghost function MatchFrom(set_: real, decider: real, need: nat, a: nat, b: nat): real
    requires a <= need && b <= need && 0 < need && a + b < 2 * need
    decreases 2 * need - a - b
  {
    if a == need then 1.0
    else if b == need then 0.0
    else if a == need - 1 && b == need - 1 then decider
    else Mix(set_, MatchFrom(set_, decider, need, a + 1, b), MatchFrom(set_, decider, need, a, b + 1))
  }

  ghost function TiebreakChance(pA: real, pB: real): real {
    TiebreakFrom(pA, pB, SixAll(pA, pB), 0, 0)
  }

  ghost function SetChance(pA: real, pB: real, advantage: bool): real {
    SetFrom(Game(pA), Game(pB), if advantage then SixAll(Game(pA), Game(pB)) else TiebreakChance(pA, pB), 0, 0)
  }

  ghost function MatchChance(pA: real, pB: real, f: Format): real {
    MatchFromSets(SetChance(pA, pB, false), SetChance(pA, pB, f.finalSetAdvantage), f.Sets())
  }

  // ------------------------------------------------- the backward-filled tables

  /** The `value` closure over a tiebreak's table: terminal scores, or a cell. */
  function TiebreakCell(win: array2<real>, a: nat, b: nat): real
    requires win.Length0 == 7 && win.Length1 == 7 && a <= 7 && b <= 7 && a + b <= 13
    reads win
  {
    if a == 7 then 1.0 else if b == 7 then 0.0 else win[a, b]
  }

  ghost predicate TiebreakHolds(win: array2<real>, pA: real, pB: real, sixAll: real, a: nat, b: nat)
    requires win.Length0 == 7 && win.Length1 == 7 && a <= 6 && b <= 6
    reads win
  {
    win[a, b] == TiebreakFrom(pA, pB, sixAll, a, b)
  }

  /** Every score of more than n points is filled, and those of n points with A below `rows`. */
  ghost predicate TiebreakFilled(win: array2<real>, pA: real, pB: real, sixAll: real, n: nat, rows: nat)
    requires win.Length0 == 7 && win.Length1 == 7
    reads win
  {
    forall i, j | 0 <= i <= 6 && 0 <= j <= 6 && i + j >= n && (i + j > n || i < rows) ::
      TiebreakHolds(win, pA, pB, sixAll, i, j)
  }

  /** The table of a tiebreak, given the value of six points all. */
  method TiebreakTable(pA: real, pB: real, sixAll: real) returns (r: real)
    ensures r == TiebreakFrom(pA, pB, sixAll, 0, 0)
  {
    var win := new real[7, 7];
    for n := 13 downto 0
      invariant TiebreakFilled(win, pA, pB, sixAll, n, 7)
    {
      for a := 0 to 7
        invariant TiebreakFilled(win, pA, pB, sixAll, n, a)
      {
        var b := n - a;
        if b < 0 || b > 6 {
          continue;
        }
        var here := sixAll;
        if a < 6 || b < 6 {
          var p := 1.0 - pB;
          if ServerIsA(a + b) {
            p := pA;
          }
          assert a < 6 ==> TiebreakHolds(win, pA, pB, sixAll, a + 1, b);
          assert b < 6 ==> TiebreakHolds(win, pA, pB, sixAll, a, b + 1);
          here := Mix(p, TiebreakCell(win, a + 1, b), TiebreakCell(win, a, b + 1));
        }
        assert here == TiebreakFrom(pA, pB, sixAll, a, b);
        label Before:
        win[a, b] := here;
        forall i, j | 0 <= i <= 6 && 0 <= j <= 6 && i + j >= n && (i + j > n || i < a + 1)
          ensures TiebreakHolds(win, pA, pB, sixAll, i, j)
        {
          if i != a || j != b {
            assert old@Before(TiebreakHolds(win, pA, pB, sixAll, i, j));
          }
        }
      }
    }
    assert TiebreakHolds(win, pA, pB, sixAll, 0, 0);
    r := win[0, 0];
  }

  method Tiebreak(pA: real, pB: real) returns (r: real)
    ensures r == TiebreakChance(pA, pB)
  {
    r := TiebreakTable(pA, pB, SixAll(pA, pB));
  }

  /** The `value` closure over a set's table. */
  function SetCell(win: array2<real>, a: nat, b: nat): real
    requires win.Length0 == 7 && win.Length1 == 7 && a <= 7 && b <= 7 && a + b <= 13
    reads win
  {
    if a == 6 && b <= 4 then 1.0
    else if b == 6 && a <= 4 then 0.0
    else if a == 7 then 1.0
    else if b == 7 then 0.0
    else win[a, b]
  }

  predicate Decided(a: nat, b: nat) {
    (a == 6 && b <= 4) || (b == 6 && a <= 4)
  }

  ghost predicate SetHolds(win: array2<real>, holdA: real, holdB: real, sixAll: real, a: nat, b: nat)
    requires win.Length0 == 7 && win.Length1 == 7 && a <= 6 && b <= 6
    reads win
  {
    !Decided(a, b) ==> win[a, b] == SetFrom(holdA, holdB, sixAll, a, b)
  }

  ghost predicate SetFilled(win: array2<real>, holdA: real, holdB: real, sixAll: real, n: nat, rows: nat)
    requires win.Length0 == 7 && win.Length1 == 7
    reads win
  {
    forall i, j | 0 <= i <= 6 && 0 <= j <= 6 && i + j >= n && (i + j > n || i < rows) ::
      SetHolds(win, holdA, holdB, sixAll, i, j)
  }

  /** The table of a set, given each side's hold and the value of six games all. */
  method SetTable(holdA: real, holdB: real, atSixAll: real) returns (r: real)
    ensures r == SetFrom(holdA, holdB, atSixAll, 0, 0)
  {
    var win := new real[7, 7];
    for n := 13 downto 0
      invariant SetFilled(win, holdA, holdB, atSixAll, n, 7)
    {
      for a := 0 to 7
        invariant SetFilled(win, holdA, holdB, atSixAll, n, a)
      {
        var b := n - a;
        if b < 0 || b > 6 || Decided(a, b) {
          continue;
        }
        var here := atSixAll;
        if a < 6 || b < 6 {
          var p := holdA;
          if (a + b) % 2 == 1 {
            p := 1.0 - holdB;
          }
          assert a < 6 ==> SetHolds(win, holdA, holdB, atSixAll, a + 1, b);
          assert b < 6 ==> SetHolds(win, holdA, holdB, atSixAll, a, b + 1);
          here := Mix(p, SetCell(win, a + 1, b), SetCell(win, a, b + 1));
        }
        assert here == SetFrom(holdA, holdB, atSixAll, a, b);
        label Before:
        win[a, b] := here;
        forall i, j | 0 <= i <= 6 && 0 <= j <= 6 && i + j >= n && (i + j > n || i < a + 1)
          ensures SetHolds(win, holdA, holdB, atSixAll, i, j)
        {
          if i != a || j != b {
            assert old@Before(SetHolds(win, holdA, holdB, atSixAll, i, j));
          }
        }
      }
    }
    assert SetHolds(win, holdA, holdB, atSixAll, 0, 0);
    r := SetCell(win, 0, 0);
  }

  method Set(pA: real, pB: real, advantage: bool) returns (r: real)
    ensures r == SetChance(pA, pB, advantage)
  {
    var holdA, holdB := Game(pA), Game(pB);
    var atSixAll := Tiebreak(pA, pB);
    if advantage {
      atSixAll := SixAll(holdA, holdB);
    }
    r := SetTable(holdA, holdB, atSixAll);
  }

  method Solve(pA: real, pB: real, f: Format) returns (c: Chain)
    ensures c.point == Pair(pA, pB) && c.hold == Pair(Game(pA), Game(pB))
    ensures c.set_.a == SetChance(pA, pB, false) && c.set_.a + c.set_.b == 1.0
    ensures c.match_.a == MatchChance(pA, pB, f) && c.match_.a + c.match_.b == 1.0
  {
    var holdA, holdB := Game(pA), Game(pB);
    var setA := Set(pA, pB, false);
    var decider := setA;
    if f.finalSetAdvantage {
      decider := Set(pA, pB, true);
    }
    var matchA := MatchFromSets(setA, decider, f.Sets());
    c := Chain(Pair(pA, pB), Pair(holdA, holdB), Pair(setA, 1.0 - setA), Pair(matchA, 1.0 - matchA));
  }
}
