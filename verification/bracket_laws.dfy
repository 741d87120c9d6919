/** A draw rebuilds exactly when its matches are those of a tournament, and then into
    the one line that plays them. */
module BracketLaws {
  import opened BracketLines
  import opened Brackets
  import opened Collections

  function PairsOf(ms: seq<BracketMatch>): (pairs: seq<Pairing>)
    ensures |pairs| == |ms| && forall i | 0 <= i < |ms| :: pairs[i] == (ms[i].winner, ms[i].loser)
  {
    seq(|ms|, i requires 0 <= i < |ms| => (ms[i].winner, ms[i].loser))
  }

  /** The matches round by round, in no order within a round. */
  ghost function RoundsOf(matches: seq<BracketMatch>): seq<multiset<Pairing>> {
    seq(|Order(matches)|, d requires 0 <= d < |Order(matches)| => multiset(PairsOf(InRound(matches, Order(matches)[d]))))
  }

  /** The line plays exactly these matches: each once, in its own round. */
  ghost predicate PlaysMatches(line: Line, matches: seq<BracketMatch>) {
    Seeded(line) && Plays(line, RoundsOf(matches))
  }

  /** A player takes part in a match. */
  predicate Plays1(m: BracketMatch, p: int) {
    m.winner == p || m.loser == p
  }

  /** What makes a record a knockout: nobody plays themself, nobody plays two matches
      of one round, and a loser never appears in a later round. */
  ghost predicate Knockout(matches: seq<BracketMatch>) {
    && (forall m | m in matches :: m.winner != m.loser)
    && (forall m, m', p | m in matches && m' in matches && m != m' && m.roundIdx == m'.roundIdx && Plays1(m, p) :: !Plays1(m', p))
    && (forall m, m' | m in matches && m' in matches && m.roundIdx < m'.roundIdx :: !Plays1(m', m.loser))
  }

  // ------------------------------------------------------------------ counting

  function SumRounds(matches: seq<BracketMatch>, order: seq<int>): nat {
    if order == [] then 0 else |InRound(matches, order[0])| + SumRounds(matches, order[1..])
  }

  lemma {:induction false} SumGrows(matches: seq<BracketMatch>, order: seq<int>)
    requires matches != [] && forall i, j | 0 <= i < j < |order| :: order[i] != order[j]
    ensures var n := |matches| - 1;
            SumRounds(matches, order) == SumRounds(matches[..n], order) + (if matches[n].roundIdx in order then 1 else 0)
  {
    if order != [] {
      SumGrows(matches, order[1..]);
    }
  }

  lemma {:induction false} SumOfAll(matches: seq<BracketMatch>, order: seq<int>)
    requires forall i, j | 0 <= i < j < |order| :: order[i] != order[j]
    requires forall m | m in matches :: m.roundIdx in order
    ensures SumRounds(matches, order) == |matches|
  {
    if matches == [] {
      SumOfNone(order);
    } else {
      SumGrows(matches, order);
      SumOfAll(matches[..|matches| - 1], order);
    }
  }

  lemma {:induction false} SumOfNone(order: seq<int>)
    ensures SumRounds([], order) == 0
  {
    if order != [] {
      SumOfNone(order[1..]);
    }
  }

  lemma {:induction false} EveryMatchCounted(matches: seq<BracketMatch>)
    ensures SumRounds(matches, Order(matches)) == |matches|
  {
    OrderIs(matches);
    SumOfAll(matches, Order(matches));
  }

  lemma {:induction false} SumOfFull(matches: seq<BracketMatch>, order: seq<int>)
    requires forall i | 0 <= i < |order| :: |InRound(matches, order[i])| == Pow2(|order| - 1 - i)
    ensures SumRounds(matches, order) == Pow2(|order|) - 1
  {
    if order != [] {
      SumOfFull(matches, order[1..]);
    }
  }

  lemma {:induction false} UpperRoundsFull(matches: seq<BracketMatch>, order: seq<int>)
    requires order != [] && SizesFit(matches, order)
    ensures SumRounds(matches, order[1..]) == Pow2(|order| - 1) - 1
  {
    SumOfFull(matches, order[1..]);
  }

  /** With every round above the first full, the total fixes the first round's size. */
  lemma {:induction false} TotalOfRounds(matches: seq<BracketMatch>)
    requires matches != [] && SizesFit(matches, Order(matches))
    ensures Order(matches) != []
    ensures |matches| + 1 == |InRound(matches, Order(matches)[0])| + Pow2(|Order(matches)| - 1)
  {
    RoundsNonEmpty(matches);
    EveryMatchCounted(matches);
    UpperRoundsFull(matches, Order(matches));
  }

  // ------------------------------------------------------------------ soundness

  /** Nobody here has lost by the end of round d. */
  ghost predicate Unbeaten(matches: seq<BracketMatch>, d: nat, ps: seq<int>)
    requires d < |Order(matches)|
  {
    forall i, m | 0 <= i < |ps| && m in matches && m.roundIdx <= Order(matches)[d] :: m.loser != ps[i]
  }

  ghost predicate Distinct(ps: seq<int>) {
    forall i, j | 0 <= i < j < |ps| :: ps[i] != ps[j]
  }

  lemma {:induction false} WonByIs(matches: seq<BracketMatch>, d: nat, p: int)
    requires d < |Order(matches)| && p in WonBy(matches, Order(matches))[d]
    ensures var m := WonBy(matches, Order(matches))[d][p];
            m in matches && m.roundIdx == Order(matches)[d] && m.winner == p && m in InRound(matches, Order(matches)[d])
  {
    var ms := InRound(matches, Order(matches)[d]);
    WonInIs(ms);
    InRoundMembers(matches, Order(matches)[d]);
  }

  lemma {:induction false} WonByNamed(matches: seq<BracketMatch>)
    ensures WinnersNamed(WonBy(matches, Order(matches)))
  {
    forall d, p | 0 <= d < |Order(matches)| && p in WonBy(matches, Order(matches))[d]
      ensures WonBy(matches, Order(matches))[d][p].winner == p
    {
      WonByIs(matches, d, p);
    }
  }

  /** The level below unbeaten, distinct players is seeded: their opponents are new. */
  lemma {:induction false} BelowIsSeeded(matches: seq<BracketMatch>, d: nat, ps: seq<int>)
    requires Knockout(matches) && d < |Order(matches)| && Distinct(ps) && Unbeaten(matches, d, ps)
    ensures Seeded(Below(WonBy(matches, Order(matches))[d], ps))
    ensures |Below(WonBy(matches, Order(matches))[d], ps)| == 2 * |ps|
    ensures Survivors(Below(WonBy(matches, Order(matches))[d], ps)) == ps
  {
    var w := WonBy(matches, Order(matches))[d];
    var line := Below(w, ps);
    BelowSeats(w, ps);
    SeededMeans(line);
    forall i, j | 0 <= i < j < |line| && line[i].Some? && line[j].Some?
      ensures line[i] != line[j]
    {
      SeatsDiffer(matches, d, ps, i, j);
    }
  }

  lemma {:induction false} SeatsDiffer(matches: seq<BracketMatch>, d: nat, ps: seq<int>, i: nat, j: nat)
    requires Knockout(matches) && d < |Order(matches)| && Distinct(ps) && Unbeaten(matches, d, ps)
    requires var line := Below(WonBy(matches, Order(matches))[d], ps); i < j < |line| && line[i].Some? && line[j].Some?
    ensures var line := Below(WonBy(matches, Order(matches))[d], ps); line[i] != line[j]
  {
    var w := WonBy(matches, Order(matches))[d];
    BelowSize(w, ps);
    var a, b := i / 2, j / 2;
    BelowAt(w, ps, a);
    BelowAt(w, ps, b);
    if i % 2 == 1 {
      assert i == 2 * a + 1;
      WonByIs(matches, d, ps[a]);
      if j % 2 == 1 {
        assert j == 2 * b + 1;
        WonByIs(matches, d, ps[b]);
        assert ps[a] != ps[b];
        assert Plays1(w[ps[a]], w[ps[a]].loser) && w[ps[a]] != w[ps[b]];
      }
    } else if j % 2 == 1 {
      assert j == 2 * b + 1;
      WonByIs(matches, d, ps[b]);
    } else {
      assert i == 2 * a && j == 2 * b;
    }
  }

  /** The matches won by distinct players, if as many as the round has, are the round. */
  lemma {:induction false} RoundIsUsedUp(matches: seq<BracketMatch>, d: nat, ps: seq<int>)
    requires Knockout(matches) && d < |Order(matches)| && Distinct(ps) && Unbeaten(matches, d, ps)
    requires var line := Below(WonBy(matches, Order(matches))[d], ps);
             |line| % 2 == 0 ==> |RoundPairs(line)| == |InRound(matches, Order(matches)[d])|
    ensures var line := Below(WonBy(matches, Order(matches))[d], ps);
            |line| % 2 == 0 && multiset(RoundPairs(line)) == RoundsOf(matches)[d]
  {
    var w := WonBy(matches, Order(matches))[d];
    var line, ms := Below(w, ps), InRound(matches, Order(matches)[d]);
    BelowIsSeeded(matches, d, ps);
    PairsByPosition(line);
    forall x | x in RoundPairs(line)
      ensures x in PairsOf(ms)
    {
      var i :| 0 <= i < |line| / 2 && line[2 * i] == Some(x.0) && line[2 * i + 1] == Some(x.1);
      BelowAt(w, ps, i);
      WonByIs(matches, d, ps[i]);
      var k :| 0 <= k < |ms| && ms[k] == w[ps[i]];
      assert PairsOf(ms)[k] == x;
    }
    PairsDistinct(line);
    DistinctAndAllAreTheSame(RoundPairs(line), PairsOf(ms));
  }

  lemma {:induction false} PairsDistinct(line: Line)
    requires |line| % 2 == 0 && Seeded(line)
    ensures forall i, j | 0 <= i < j < |RoundPairs(line)| :: RoundPairs(line)[i] != RoundPairs(line)[j]
  {
    if line != [] {
      var rest := line[2..];
      SeededMeans(line);
      assert Seeded(rest) by {
        SeededMeans(rest);
        forall i, j | 0 <= i < j < |rest| && rest[i].Some? && rest[j].Some?
          ensures rest[i] != rest[j]
        {
          assert rest[i] == line[i + 2] && rest[j] == line[j + 2];
        }
        forall i | 0 <= i < |rest| && i % 2 == 0
          ensures rest[i].Some?
        {
          assert rest[i] == line[i + 2];
        }
      }
      PairsDistinct(rest);
      PairsByPosition(rest);
      forall x | x in RoundPairs(rest)
        ensures Some(x.0) != line[0]
      {
        var i :| 0 <= i < |rest| / 2 && rest[2 * i] == Some(x.0) && rest[2 * i + 1] == Some(x.1);
        assert rest[2 * i] == line[2 * i + 2];
      }
    }
  }

  /** The players left after round d: distinct, unbeaten, as many as there should be,
      and going on to play the later rounds. */
  ghost predicate Level(matches: seq<BracketMatch>, d: nat, ps: seq<int>)
    requires d < |Order(matches)|
  {
    && Distinct(ps) && Unbeaten(matches, d, ps) && |ps| == Pow2(|Order(matches)| - 1 - d)
    && Seeded(Somes(ps)) && Plays(Somes(ps), RoundsOf(matches)[d + 1..])
  }

  /** Going down one round above the first: everyone left had won it, so the level
      below is full, distinct and unbeaten in the rounds below. */
  lemma {:induction false} DescendOne(matches: seq<BracketMatch>, d: nat, ps: seq<int>) returns (next: seq<int>)
    requires Knockout(matches) && 0 < d < |Order(matches)| && SizesFit(matches, Order(matches))
    requires Level(matches, d, ps) && Under(WonBy(matches, Order(matches)), d, ps).Some?
    ensures Level(matches, d - 1, next)
    ensures Under(WonBy(matches, Order(matches)), d, ps) == Under(WonBy(matches, Order(matches)), d - 1, next)
  {
    var won := WonBy(matches, Order(matches));
    var line := Below(won[d], ps);
    WonByNamed(matches);
    UnderNeedsWinners(won, d, ps);
    UnderHigherRound(won, d, ps);
    BelowIsSeeded(matches, d, ps);
    next := Players(line);
    assert Somes(next) == line;
    PlayersDistinct(line);
    NextUnbeaten(matches, d, ps, next);
    SeededPairsCount(line);
    SomesHaveNoEmpties(next);
    RoundIsUsedUp(matches, d, ps);
    assert RoundsOf(matches)[d..][1..] == RoundsOf(matches)[d + 1..];
    PlaysMeans(line, RoundsOf(matches)[d..]);
  }

  lemma {:induction false} PlayersDistinct(line: Line)
    requires Seeded(line) && forall i | 0 <= i < |line| :: line[i].Some?
    ensures Distinct(Players(line))
  {
  }

  lemma {:induction false} NextUnbeaten(matches: seq<BracketMatch>, d: nat, ps: seq<int>, next: seq<int>)
    requires Knockout(matches) && 0 < d < |Order(matches)| && Unbeaten(matches, d, ps)
    requires Somes(next) == Below(WonBy(matches, Order(matches))[d], ps)
    ensures Unbeaten(matches, d - 1, next)
  {
    var w := WonBy(matches, Order(matches))[d];
    OrderIs(matches);
    BelowSize(w, ps);
    forall i, m | 0 <= i < |next| && m in matches && m.roundIdx <= Order(matches)[d - 1]
      ensures m.loser != next[i]
    {
      var a := i / 2;
      BelowAt(w, ps, a);
      assert Somes(next)[i] == Some(next[i]);
      if i % 2 == 0 {
        assert i == 2 * a;
      } else {
        assert i == 2 * a + 1;
        WonByIs(matches, d, ps[a]);
        assert Plays1(w[ps[a]], next[i]) && m.roundIdx < w[ps[a]].roundIdx;
      }
    }
  }

  /** With one more player on the line than matches, its pairs are as many as the
      first round's matches. */
  lemma {:induction false} FirstRoundCount(matches: seq<BracketMatch>, line: Line, width: nat)
    requires matches != [] && SizesFit(matches, Order(matches)) && Order(matches) != []
    requires width == Pow2(|Order(matches)| - 1) && |line| == 2 * width && |line| - Empties(line) == |matches| + 1
    requires Seeded(line)
    ensures |RoundPairs(line)| == |InRound(matches, Order(matches)[0])|
  {
    TotalOfRounds(matches);
    SeededPairsCount(line);
    assert |line| / 2 == width;
  }

  /** Going down the first round: its matches are exactly the pairs of the line, the
      count leaving no match over. */
  lemma {:induction false} DescendLast(matches: seq<BracketMatch>, ps: seq<int>, line: Line)
    requires Knockout(matches) && matches != [] && SizesFit(matches, Order(matches)) && Order(matches) != []
    requires Distinct(ps) && Unbeaten(matches, 0, ps) && |ps| == Pow2(|Order(matches)| - 1)
    requires Plays(Somes(ps), RoundsOf(matches)[1..])
    requires line == Below(WonBy(matches, Order(matches))[0], ps) && |line| - Empties(line) == |matches| + 1
    ensures PlaysMatches(line, matches)
  {
    BelowIsSeeded(matches, 0, ps);
    FirstRoundCount(matches, line, |ps|);
    RoundIsUsedUp(matches, 0, ps);
    PlaysMeans(line, RoundsOf(matches));
  }

  lemma {:induction false} DescendAll(matches: seq<BracketMatch>, d: nat, ps: seq<int>, line: Line)
    requires Knockout(matches) && matches != [] && d < |Order(matches)| && SizesFit(matches, Order(matches))
    requires Level(matches, d, ps)
    requires Under(WonBy(matches, Order(matches)), d, ps) == Some(line) && |line| - Empties(line) == |matches| + 1
    ensures PlaysMatches(line, matches)
    decreases d
  {
    if d == 0 {
      WonByNamed(matches);
      UnderFirstRound(WonBy(matches, Order(matches)), ps);
      DescendLast(matches, ps, line);
    } else {
      var next := DescendOne(matches, d, ps);
      DescendAll(matches, d - 1, next, line);
    }
  }

  lemma {:induction false} ChampionUnbeaten(matches: seq<BracketMatch>)
    requires Knockout(matches) && matches != []
    ensures Order(matches) != [] && Unbeaten(matches, |Order(matches)| - 1, [Champion(matches)])
  {
    RoundsNonEmpty(matches);
    OrderIs(matches);
    var top := |Order(matches)| - 1;
    InRoundMembers(matches, Order(matches)[top]);
    var final := InRound(matches, Order(matches)[top])[0];
    assert final in InRound(matches, Order(matches)[top]);
    assert Plays1(final, final.winner);
    forall m | m in matches && m.roundIdx <= Order(matches)[top]
      ensures m.loser != final.winner
    {
      if m.loser == final.winner {
        assert Plays1(m, final.winner);
      }
    }
  }

  /** Soundness: what a knockout record rebuilds into plays exactly its matches. */
  lemma {:induction false} RebuiltLinePlaysTheMatches(matches: seq<BracketMatch>, line: Line)
    requires Knockout(matches) && Rebuild(matches) == Ok(line)
    ensures PlaysMatches(line, matches)
  {
    RebuiltLeaves(matches, line);
    ChampionUnbeaten(matches);
    LevelOfOne(matches, Champion(matches));
    UnderOne(WonBy(matches, Order(matches)), |Order(matches)| - 1, Champion(matches));
    DescendAll(matches, |Order(matches)| - 1, [Champion(matches)], line);
  }

  /** What a rebuild that succeeds has found. */
  lemma {:induction false} RebuiltLeaves(matches: seq<BracketMatch>, line: Line)
    requires Rebuild(matches) == Ok(line)
    ensures matches != [] && Order(matches) != [] && SizesFit(matches, Order(matches))
    ensures Leaves(WonBy(matches, Order(matches)), |Order(matches)| - 1, Champion(matches)) == Some(line)
    ensures |line| - Empties(line) == |matches| + 1
  {
    RebuiltIsUnder(matches, line);
    LineUnderFinds(WonBy(matches, Order(matches)), |Order(matches)| - 1, Champion(matches), |matches|, line);
  }

  lemma {:induction false} LineUnderFinds(won: seq<map<int, BracketMatch>>, top: nat, champion: int, total: nat, line: Line)
    requires |won| == top + 1 && LineUnder(won, champion, total) == Some(line)
    ensures Leaves(won, top, champion) == Some(line) && |line| - Empties(line) == total + 1
  {
    WalkoversAreEmpties(won, top, champion);
  }

  lemma {:induction false} UnderOne(won: seq<map<int, BracketMatch>>, depth: nat, p: int)
    requires depth < |won| && Leaves(won, depth, p).Some?
    ensures Under(won, depth, [p]) == Leaves(won, depth, p)
  {
    assert [p][1..] == [];
    assert Leaves(won, depth, p).value + [] == Leaves(won, depth, p).value;
  }

  lemma {:induction false} LevelOfOne(matches: seq<BracketMatch>, p: int)
    requires Order(matches) != [] && Unbeaten(matches, |Order(matches)| - 1, [p])
    ensures Level(matches, |Order(matches)| - 1, [p])
  {
    assert RoundsOf(matches)[|Order(matches)|..] == [];
    SeededMeans(Somes([p]));
    PlaysMeans(Somes([p]), []);
  }

  // ---------------------------------------------------------------- completeness

  lemma {:induction false} InMultiset<T>(u: seq<T>, v: seq<T>, x: T)
    requires multiset(u) == multiset(v) && x in u
    ensures x in v
  {
    assert x in multiset(u);
  }

  /** A line's match is in the winners table. */
  lemma {:induction false} SeatedWinnerKnown(ms: seq<BracketMatch>, line: Line, i: nat)
    requires |line| % 2 == 0 && multiset(PairsOf(ms)) == multiset(RoundPairs(line)) && i < |line| / 2
    requires line[2 * i].Some? && line[2 * i + 1].Some?
    ensures line[2 * i].value in WonIn(ms)
  {
    var x := (line[2 * i].value, line[2 * i + 1].value);
    MatchAtSeat(line, i);
    InMultiset(RoundPairs(line), PairsOf(ms), x);
    var k :| 0 <= k < |ms| && PairsOf(ms)[k] == x;
    WinnerInTable(ms, ms[k]);
  }

  /** What the winners table says of a player on the line is the match beside them. */
  lemma {:induction false} KnownWinnerSeated(ms: seq<BracketMatch>, line: Line, i: nat, p: int)
    requires |line| % 2 == 0 && Seeded(line) && multiset(PairsOf(ms)) == multiset(RoundPairs(line)) && i < |line| / 2
    requires line[2 * i] == Some(p) && p in WonIn(ms)
    ensures line[2 * i + 1] == Some(WonIn(ms)[p].loser)
  {
    var k := TableEntry(ms, p);
    var x := PairsOf(ms)[k];
    InMultiset(PairsOf(ms), RoundPairs(line), x);
    var j := SeatOf(line, x);
    SameSeat(line, i, j);
  }

  lemma {:induction false} SameSeat(line: Line, i: nat, j: nat)
    requires |line| % 2 == 0 && Seeded(line) && i < |line| / 2 && j < |line| / 2
    requires line[2 * i] == line[2 * j]
    ensures i == j
  {
  }

  /** The winners table of a round gives a seeded line's opponents back. */
  lemma {:induction false} SeatGivenBack(ms: seq<BracketMatch>, line: Line, i: nat, p: int)
    requires |line| % 2 == 0 && Seeded(line) && multiset(PairsOf(ms)) == multiset(RoundPairs(line)) && i < |line| / 2
    requires line[2 * i] == Some(p)
    ensures line[2 * i + 1] == if p in WonIn(ms) then Some(WonIn(ms)[p].loser) else None
  {
    if p in WonIn(ms) {
      KnownWinnerSeated(ms, line, i, p);
    } else if line[2 * i + 1].Some? {
      SeatedWinnerKnown(ms, line, i);
    }
  }

  lemma {:induction false} SeatsGivenBack(ms: seq<BracketMatch>, line: Line, ps: seq<int>, i: nat)
    requires |line| % 2 == 0 && Seeded(line) && multiset(PairsOf(ms)) == multiset(RoundPairs(line)) && i < |line| / 2
    requires |ps| == |line| / 2 && line[2 * i] == Some(ps[i])
    ensures |Below(WonIn(ms), ps)| == |line|
    ensures Below(WonIn(ms), ps)[2 * i] == line[2 * i] && Below(WonIn(ms), ps)[2 * i + 1] == line[2 * i + 1]
  {
    BelowAt(WonIn(ms), ps, i);
    SeatGivenBack(ms, line, i, ps[i]);
  }

  lemma {:induction false} LevelGivenBack(ms: seq<BracketMatch>, line: Line)
    requires |line| % 2 == 0 && Seeded(line) && multiset(PairsOf(ms)) == multiset(RoundPairs(line))
    ensures Below(WonIn(ms), Survivors(line)) == line
  {
    var ps := Survivors(line);
    BelowSize(WonIn(ms), ps);
    forall i | 0 <= i < |line|
      ensures Below(WonIn(ms), ps)[i] == line[i]
    {
      var k := i / 2;
      SurvivorsAre(line);
      SeatsGivenBack(ms, line, ps, k);
      assert i == 2 * k || i == 2 * k + 1;
    }
  }

  /** The line before round d: the opening line, or the players the opening line is under. */
  ghost predicate Rising(matches: seq<BracketMatch>, d: nat, current: Line, line: Line)
    requires d < |Order(matches)|
  {
    && Seeded(current) && Plays(current, RoundsOf(matches)[d..])
    && (d == 0 ==> current == line)
    && (d > 0 ==>
          && (forall i | 0 <= i < |current| :: current[i].Some?)
          && Under(WonBy(matches, Order(matches)), d - 1, Players(current)) == Some(line))
  }

  lemma {:induction false} AscendUnder(matches: seq<BracketMatch>, d: nat, current: Line, ps: seq<int>)
    requires 0 < d < |Order(matches)|
    requires forall i | 0 <= i < |current| :: current[i].Some?
    requires Below(WonBy(matches, Order(matches))[d], ps) == current
    ensures Under(WonBy(matches, Order(matches)), d, ps) == Under(WonBy(matches, Order(matches)), d - 1, Players(current))
  {
    var won := WonBy(matches, Order(matches));
    forall i | 0 <= i < |ps|
      ensures ps[i] in won[d]
    {
      BelowAt(won[d], ps, i);
      assert current[2 * i + 1].Some?;
    }
    WonByNamed(matches);
    UnderHigherRound(won, d, ps);
  }

  lemma {:induction false} AscendOne(matches: seq<BracketMatch>, d: nat, current: Line, line: Line)
    requires d < |Order(matches)| && Rising(matches, d, current, line)
    ensures |current| % 2 == 0 && Under(WonBy(matches, Order(matches)), d, Survivors(current)) == Some(line)
    ensures d + 1 < |Order(matches)| ==> Rising(matches, d + 1, Somes(Survivors(current)), line)
  {
    var won, ms := WonBy(matches, Order(matches)), InRound(matches, Order(matches)[d]);
    PlaysMeans(current, RoundsOf(matches)[d..]);
    var ps := Survivors(current);
    LevelGivenBack(ms, current);
    if d == 0 {
      WonByNamed(matches);
      UnderFirstRound(won, ps);
    } else {
      AscendUnder(matches, d, current, ps);
    }
    if d + 1 < |Order(matches)| {
      RisesOn(matches, d, current, line);
    }
  }

  lemma {:induction false} RisesOn(matches: seq<BracketMatch>, d: nat, current: Line, line: Line)
    requires d + 1 < |Order(matches)| && |current| % 2 == 0
    requires Seeded(current) && Plays(current, RoundsOf(matches)[d..])
    requires Under(WonBy(matches, Order(matches)), d, Survivors(current)) == Some(line)
    ensures Rising(matches, d + 1, Somes(Survivors(current)), line)
  {
    PlaysMeans(current, RoundsOf(matches)[d..]);
    SurvivorsSeeded(current);
    assert RoundsOf(matches)[d..][1..] == RoundsOf(matches)[d + 1..];
    assert Players(Somes(Survivors(current))) == Survivors(current);
  }

  lemma {:induction false} RoundSize(matches: seq<BracketMatch>, d: nat, current: Line, line: Line)
    requires d < |Order(matches)| && Rising(matches, d, current, line)
    ensures |current| == 2 * Pow2(|Order(matches)| - 1 - d)
    ensures |InRound(matches, Order(matches)[d])| + Empties(current) == Pow2(|Order(matches)| - 1 - d)
    ensures d > 0 ==> Empties(current) == 0
  {
    PlaysSize(current, RoundsOf(matches)[d..]);
    PlaysMeans(current, RoundsOf(matches)[d..]);
    SeededPairsCount(current);
    SameSizes(PairsOf(InRound(matches, Order(matches)[d])), RoundPairs(current));
    if d > 0 {
      SomesHaveNoEmpties(Players(current));
      assert Somes(Players(current)) == current;
    }
  }

  lemma {:induction false} SameSizes<T>(u: seq<T>, v: seq<T>)
    requires multiset(u) == multiset(v)
    ensures |u| == |v|
  {
    assert |multiset(u)| == |multiset(v)|;
  }

  ghost predicate RoundFits(matches: seq<BracketMatch>, i: nat)
    requires i < |Order(matches)|
  {
    var n, want := |InRound(matches, Order(matches)[i])|, Pow2(|Order(matches)| - 1 - i);
    n <= want && (i > 0 ==> n == want)
  }

  lemma {:induction false} RisesAtOpening(matches: seq<BracketMatch>, line: Line)
    requires Order(matches) != [] && PlaysMatches(line, matches)
    ensures Rising(matches, 0, line, line)
  {
  }

  /** Every round of a played line is reached. */
  lemma {:induction false} RisesTo(matches: seq<BracketMatch>, d: nat, line: Line) returns (current: Line)
    requires d < |Order(matches)| && PlaysMatches(line, matches)
    ensures Rising(matches, d, current, line)
  {
    if d == 0 {
      RisesAtOpening(matches, line);
      current := line;
    } else {
      var before := RisesTo(matches, d - 1, line);
      AscendOne(matches, d - 1, before, line);
      current := Somes(Survivors(before));
    }
  }

  lemma {:induction false} SizesOfPlayed(matches: seq<BracketMatch>, line: Line)
    requires PlaysMatches(line, matches)
    ensures SizesFit(matches, Order(matches))
  {
    forall i | 0 <= i < |Order(matches)|
      ensures RoundFits(matches, i)
    {
      var current := RisesTo(matches, i, line);
      RoundSize(matches, i, current, line);
    }
    AllRoundsFit(matches);
  }

  lemma {:induction false} AllRoundsFit(matches: seq<BracketMatch>)
    requires forall i | 0 <= i < |Order(matches)| :: RoundFits(matches, i)
    ensures SizesFit(matches, Order(matches))
  {
    var order := Order(matches);
    forall i | 0 <= i < |order|
      ensures |InRound(matches, order[i])| <= Pow2(|order| - 1 - i)
      ensures i > 0 ==> |InRound(matches, order[i])| == Pow2(|order| - 1 - i)
    {
      assert RoundFits(matches, i);
    }
  }

  lemma {:induction false} LeavesOfPlayed(matches: seq<BracketMatch>, line: Line)
    requires matches != [] && PlaysMatches(line, matches)
    ensures Order(matches) != []
    ensures Leaves(WonBy(matches, Order(matches)), |Order(matches)| - 1, Champion(matches)) == Some(line)
  {
    RoundsNonEmpty(matches);
    var top := |Order(matches)| - 1;
    var current := RisesTo(matches, top, line);
    AscendOne(matches, top, current, line);
    RoundSize(matches, top, current, line);
    TopOfTheLine(matches, top, current, line);
  }

  lemma {:induction false} OpeningSize(matches: seq<BracketMatch>, line: Line)
    requires Order(matches) != [] && PlaysMatches(line, matches)
    ensures |line| == 2 * Pow2(|Order(matches)| - 1)
    ensures |InRound(matches, Order(matches)[0])| + Empties(line) == Pow2(|Order(matches)| - 1)
  {
    RisesAtOpening(matches, line);
    RoundSize(matches, 0, line, line);
  }

  /** The count the rebuild checks: as many players on the line as matches, and one. */
  lemma {:induction false} LineCounts(matches: seq<BracketMatch>, line: Line)
    requires matches != [] && PlaysMatches(line, matches) && SizesFit(matches, Order(matches))
    ensures |line| - Empties(line) == |matches| + 1
  {
    TotalOfRounds(matches);
    OpeningSize(matches, line);
  }

  lemma {:induction false} TopOfTheLine(matches: seq<BracketMatch>, d: nat, current: Line, line: Line)
    requires matches != [] && d + 1 == |Order(matches)| && Rising(matches, d, current, line)
    requires |current| % 2 == 0 && Under(WonBy(matches, Order(matches)), d, Survivors(current)) == Some(line)
    requires |current| == 2
    ensures Leaves(WonBy(matches, Order(matches)), d, Champion(matches)) == Some(line)
  {
    RoundsNonEmpty(matches);
    PlaysMeans(current, RoundsOf(matches)[d..]);
    var ms := InRound(matches, Order(matches)[d]);
    var x := PairsOf(ms)[0];
    InMultiset(PairsOf(ms), RoundPairs(current), x);
    PairsByPosition(current);
    var i :| 0 <= i < |current| / 2 && current[2 * i] == Some(x.0);
    var ps := Survivors(current);
    assert ps == [Champion(matches)] && ps[1..] == [];
    var leaves := Leaves(WonBy(matches, Order(matches)), d, Champion(matches));
    assert leaves.Some? && leaves.value + [] == leaves.value;
  }

  lemma {:induction false} LineUnderIs(won: seq<map<int, BracketMatch>>, champion: int, total: nat, line: Line)
    requires won != [] && Leaves(won, |won| - 1, champion) == Some(line) && |line| - Empties(line) == total + 1
    ensures LineUnder(won, champion, total) == Some(line)
  {
    WalkoversAreEmpties(won, |won| - 1, champion);
  }

  lemma {:induction false} RebuildIs(matches: seq<BracketMatch>, line: Line)
    requires matches != [] && SizesFit(matches, Order(matches)) && Order(matches) != []
    requires LineUnder(WonBy(matches, Order(matches)), Champion(matches), |matches|) == Some(line)
    ensures Rebuild(matches) == Ok(line)
  {
  }

  /** Completeness: the matches of any line, in any order, rebuild into that line. */
  lemma {:induction false} PlayedLineIsRebuilt(matches: seq<BracketMatch>, line: Line)
    requires matches != [] && PlaysMatches(line, matches)
    ensures Rebuild(matches) == Ok(line)
  {
    RoundsNonEmpty(matches);
    SizesOfPlayed(matches, line);
    LeavesOfPlayed(matches, line);
    LineCounts(matches, line);
    LineUnderIs(WonBy(matches, Order(matches)), Champion(matches), |matches|, line);
    RebuildIs(matches, line);
  }

  /** A knockout record rebuilds into a line exactly when playing that line forward
      plays its matches; so there is at most one such line, and it is found. */
  lemma {:induction false} RebuiltIffPlayed(matches: seq<BracketMatch>, line: Line)
    requires Knockout(matches) && matches != []
    ensures Rebuild(matches) == Ok(line) <==> PlaysMatches(line, matches)
  {
    if Rebuild(matches) == Ok(line) {
      RebuiltLinePlaysTheMatches(matches, line);
    }
    if PlaysMatches(line, matches) {
      PlayedLineIsRebuilt(matches, line);
    }
  }

  lemma {:induction false} LeavesLeadWithWinner(won: seq<map<int, BracketMatch>>, depth: nat, winner: int)
    requires depth < |won| && WinnersNamed(won) && Leaves(won, depth, winner).Some?
    ensures Leaves(won, depth, winner).value != [] && Leaves(won, depth, winner).value[0] == Some(winner)
    decreases depth
  {
    if winner in won[depth] && depth > 0 {
      LeavesLeadWithWinner(won, depth - 1, won[depth][winner].winner);
    }
  }

  /** The bracket of a knockout record: a power of two, the champion on its first
      line, a bye for each empty line and an entrant for each of the others. */
  lemma {:induction false} BracketShape(matches: seq<BracketMatch>, players: map<int, Entrant>, line: Line)
    requires Knockout(matches) && Rebuild(matches) == Ok(line)
    ensures var b := BracketOn(matches, line, players);
            && b.Size() == Pow2(|b.rounds|)
            && line[0] == Some(b.champion)
            && b.byes == Empties(line) && b.Entered() == |matches| + 1
  {
    RebuiltLinePlaysTheMatches(matches, line);
    PlaysSize(line, RoundsOf(matches));
    RebuiltLeads(matches, line);
  }

  lemma {:induction false} RebuiltLeads(matches: seq<BracketMatch>, line: Line)
    requires Rebuild(matches) == Ok(line)
    ensures line != [] && line[0] == Some(Champion(matches)) && |line| - Empties(line) == |matches| + 1
  {
    RoundsNonEmpty(matches);
    WonByNamed(matches);
    RebuiltIsUnder(matches, line);
    LineUnderLeads(WonBy(matches, Order(matches)), Champion(matches), |matches|, line);
  }

  lemma {:induction false} RebuiltIsUnder(matches: seq<BracketMatch>, line: Line)
    requires Rebuild(matches) == Ok(line)
    ensures matches != [] && Order(matches) != [] && SizesFit(matches, Order(matches))
    ensures LineUnder(WonBy(matches, Order(matches)), Champion(matches), |matches|) == Some(line)
  {
  }

  lemma {:induction false} LineUnderLeads(won: seq<map<int, BracketMatch>>, champion: int, total: nat, line: Line)
    requires won != [] && WinnersNamed(won) && LineUnder(won, champion, total) == Some(line)
    ensures line != [] && line[0] == Some(champion) && |line| - Empties(line) == total + 1
  {
    LeavesLeadWithWinner(won, |won| - 1, champion);
    WalkoversAreEmpties(won, |won| - 1, champion);
  }

  // ------------------------------------------------------------------ what is reported

  /** Each round is named after one of its own matches. */
  lemma {:induction false} NamesAreOfTheirRounds(matches: seq<BracketMatch>, line: Line, players: map<int, Entrant>, i: nat)
    requires Rebuild(matches) == Ok(line) && i < |Order(matches)|
    ensures |BracketOn(matches, line, players).rounds| == |Order(matches)|
    ensures exists m :: m in matches && m.roundIdx == Order(matches)[i] && m.round == BracketOn(matches, line, players).rounds[i]
  {
    RoundsNonEmpty(matches);
    var m := InRound(matches, Order(matches)[i])[0];
    InRoundMembers(matches, Order(matches)[i]);
    assert m in InRound(matches, Order(matches)[i]);
  }

  /** On every line stands the player the line names, and the zero entrant where it names nobody
      or nobody known. */
  lemma {:induction false} EntrantsAreOfTheirLines(matches: seq<BracketMatch>, line: Line, players: map<int, Entrant>, i: nat)
    requires Rebuild(matches) == Ok(line) && i < |line|
    ensures var e := BracketOn(matches, line, players).entrants;
            && |e| == |line|
            && (line[i].Some? && line[i].value in players ==> e[i] == players[line[i].value])
            && (line[i].None? || line[i].value !in players ==> e[i] == Entrant(0, "", "", 0))
  {
    RebuiltLeads(matches, line);
  }

  /** The champion won a match of the last round, and stands on the first line. */
  lemma {:induction false} ChampionWonTheFinal(matches: seq<BracketMatch>, line: Line, players: map<int, Entrant>)
    requires Rebuild(matches) == Ok(line)
    ensures var champion := BracketOn(matches, line, players).champion;
            && line != [] && line[0] == Some(champion)
            && exists m :: m in matches && m.winner == champion && forall m' | m' in matches :: m'.roundIdx <= m.roundIdx
  {
    RebuiltLeads(matches, line);
    RoundsNonEmpty(matches);
    OrderIs(matches);
    var order := Order(matches);
    var m := InRound(matches, order[|order| - 1])[0];
    InRoundMembers(matches, order[|order| - 1]);
    assert m in InRound(matches, order[|order| - 1]);
    forall m' | m' in matches
      ensures m'.roundIdx <= m.roundIdx
    {
      assert m'.roundIdx in order;
      var j :| 0 <= j < |order| && order[j] == m'.roundIdx;
      assert j < |order| - 1 ==> order[j] < order[|order| - 1];
    }
  }

  /** How many matches of a record are of a round. */
  function MatchesIn(matches: seq<BracketMatch>, idx: int): nat {
    if matches == [] then 0 else MatchesIn(matches[1..], idx) + if matches[0].roundIdx == idx then 1 else 0
  }

  lemma {:induction false} InRoundCounts(matches: seq<BracketMatch>, idx: int)
    ensures |InRound(matches, idx)| == MatchesIn(matches, idx)
  {
    if matches != [] {
      var n := |matches| - 1;
      InRoundCounts(matches[..n], idx);
      MatchesInLast(matches, idx);
    }
  }

  lemma {:induction false} MatchesInLast(matches: seq<BracketMatch>, idx: int)
    requires matches != []
    ensures var n := |matches| - 1;
            MatchesIn(matches, idx) == MatchesIn(matches[..n], idx) + if matches[n].roundIdx == idx then 1 else 0
  {
    var n := |matches| - 1;
    if n > 0 {
      MatchesInLast(matches[1..], idx);
      assert matches[1..][..n - 1] == matches[..n][1..];
    }
  }

  /** A round, counted from the last, that a full tree has no room for or that leaves it short;
      only the first round may be short. */
  predicate Misfit(matches: seq<BracketMatch>, order: seq<int>, i: nat)
    requires i < |order|
  {
    var n, want := MatchesIn(matches, order[i]), Pow2(|order| - 1 - i);
    n > want || (i > 0 && n < want)
  }

  lemma {:induction false} FitsUnlessMisfit(matches: seq<BracketMatch>, order: seq<int>)
    ensures SizesFit(matches, order) <==> forall i: nat | i < |order| :: !Misfit(matches, order, i)
  {
    forall i: nat | i < |order|
      ensures |InRound(matches, order[i])| == MatchesIn(matches, order[i])
    {
      InRoundCounts(matches, order[i]);
    }
    if forall i: nat | i < |order| :: !Misfit(matches, order, i) {
      forall i | 0 <= i < |order|
        ensures var n, want := |InRound(matches, order[i])|, Pow2(|order| - 1 - i); n <= want && (i > 0 ==> n == want)
      {
        assert !Misfit(matches, order, i);
      }
    }
  }

  /** Which records are refused for what: one without matches for that, one with a round that does
      not fit for that; every other that does not rebuild is left for the broken tree. */
  lemma {:induction false} RefusedFor(matches: seq<BracketMatch>)
    ensures Rebuild(matches) == Err(NoMatches) <==> matches == []
    ensures Rebuild(matches) == Err(NotPowerOfTwo)
       <==> matches != [] && exists i: nat :: i < |Order(matches)| && Misfit(matches, Order(matches), i)
  {
    FitsUnlessMisfit(matches, Order(matches));
    RoundsNonEmpty(matches);
  }
}
