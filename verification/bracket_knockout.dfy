/** The records a line can play are knockouts, and a rebuilt line need not play a record
    that is none. */
module KnockoutRecords {
  import opened BracketLaws
  import opened BracketLines
  import opened Brackets
  import opened Collections

  // ------------------------------------------------------------ what playing a line implies

  /** Whoever plays in a later round is on the line from the start. */
  lemma {:induction false} OnTheLine(line: Line, rounds: seq<multiset<Pairing>>, k: nat, x: Pairing)
    requires Seeded(line) && Plays(line, rounds) && k < |rounds| && x in rounds[k]
    ensures Some(x.0) in line && Some(x.1) in line
    decreases k
  {
    PlaysMeans(line, rounds);
    if k == 0 {
      var i := SeatOf(line, x);
    } else {
      var next := Somes(Survivors(line));
      SurvivorsSeeded(line);
      OnTheLine(next, rounds[1..], k - 1, x);
      SurvivorOnTheLine(line, x.0);
      SurvivorOnTheLine(line, x.1);
    }
  }

  lemma {:induction false} SurvivorOnTheLine(line: Line, p: int)
    requires |line| % 2 == 0 && Seeded(line) && Some(p) in Somes(Survivors(line))
    ensures exists j :: 0 <= j < |line| && j % 2 == 0 && line[j] == Some(p)
    ensures Some(p) in line
  {
  }

  /** A loser stands on an odd position, and only even positions play on. */
  lemma {:induction false} LoserIsOut(line: Line, rounds: seq<multiset<Pairing>>, d: nat, k: nat, x: Pairing, y: Pairing)
    requires Seeded(line) && Plays(line, rounds) && d < k < |rounds| && x in rounds[d] && y in rounds[k]
    ensures y.0 != x.1 && y.1 != x.1
    decreases d
  {
    PlaysMeans(line, rounds);
    var next := Somes(Survivors(line));
    SurvivorsSeeded(line);
    if d > 0 {
      LoserIsOut(next, rounds[1..], d - 1, k - 1, x, y);
    } else {
      OnTheLine(next, rounds[1..], k - 1, y);
      LoserDoesNotSurvive(line, x, y.0);
      LoserDoesNotSurvive(line, x, y.1);
    }
  }

  lemma {:induction false} LoserDoesNotSurvive(line: Line, x: Pairing, p: int)
    requires |line| % 2 == 0 && Seeded(line) && x in RoundPairs(line) && Some(p) in Somes(Survivors(line))
    ensures p != x.1
  {
    SurvivorOnTheLine(line, p);
    var i := SeatOf(line, x);
    SeededMeans(line);
  }

  /** In one round nobody meets themself, two matches of a player are one match, and no
      match is played twice. */
  lemma {:induction false} OneMatchEach(line: Line, rounds: seq<multiset<Pairing>>, d: nat, x: Pairing, y: Pairing)
    requires Seeded(line) && Plays(line, rounds) && d < |rounds| && x in rounds[d] && y in rounds[d]
    ensures x.0 != x.1
    ensures x.0 == y.0 || x.0 == y.1 || x.1 == y.0 || x.1 == y.1 ==> x == y
    ensures rounds[d][x] <= 1
    decreases d
  {
    PlaysMeans(line, rounds);
    if d > 0 {
      SurvivorsSeeded(line);
      OneMatchEach(Somes(Survivors(line)), rounds[1..], d - 1, x, y);
    } else {
      OneSeatEach(line, x, y);
      PairsDistinct(line);
      DistinctCounts(RoundPairs(line));
    }
  }

  lemma {:induction false} OneSeatEach(line: Line, x: Pairing, y: Pairing)
    requires |line| % 2 == 0 && Seeded(line) && x in RoundPairs(line) && y in RoundPairs(line)
    ensures x.0 != x.1
    ensures x.0 == y.0 || x.0 == y.1 || x.1 == y.0 || x.1 == y.1 ==> x == y
  {
    SeededMeans(line);
    var i := SeatOf(line, x);
    var j := SeatOf(line, y);
  }

  // ------------------------------------------------------------ from rounds to records

  lemma {:induction false} RoundOf(matches: seq<BracketMatch>, m: BracketMatch) returns (d: nat)
    requires m in matches
    ensures d < |Order(matches)| && Order(matches)[d] == m.roundIdx && m in InRound(matches, Order(matches)[d])
    ensures (m.winner, m.loser) in RoundsOf(matches)[d]
  {
    OrderIs(matches);
    assert m.roundIdx in Order(matches);
    d :| 0 <= d < |Order(matches)| && Order(matches)[d] == m.roundIdx;
    var ms := InRound(matches, Order(matches)[d]);
    InRoundMembers(matches, Order(matches)[d]);
    assert m in ms;
    var k :| 0 <= k < |ms| && ms[k] == m;
    assert PairsOf(ms)[k] == (m.winner, m.loser);
    assert (m.winner, m.loser) in PairsOf(ms);
  }

  lemma {:induction false} SamePairTwice(ms: seq<BracketMatch>, m: BracketMatch, m': BracketMatch)
    requires m in ms && m' in ms && m != m' && m.winner == m'.winner && m.loser == m'.loser
    ensures multiset(PairsOf(ms))[(m.winner, m.loser)] > 1
  {
    var i: nat :| i < |ms| && ms[i] == m;
    var j: nat :| j < |ms| && ms[j] == m';
    assert PairsOf(ms)[i] == PairsOf(ms)[j] == (m.winner, m.loser);
    if multiset(PairsOf(ms))[(m.winner, m.loser)] <= 1 {
      OnceOnly(PairsOf(ms), if i < j then i else j, if i < j then j else i);
    }
  }

  lemma {:induction false} OneMatchARound(matches: seq<BracketMatch>, line: Line, m: BracketMatch, m': BracketMatch, p: int)
    requires PlaysMatches(line, matches) && m in matches && m' in matches && m != m'
    requires m.roundIdx == m'.roundIdx && Plays1(m, p)
    ensures !Plays1(m', p)
  {
    var d := RoundOf(matches, m);
    var d' := RoundOf(matches, m');
    OrderIs(matches);
    assert d == d';
    OneMatchEach(line, RoundsOf(matches), d, (m.winner, m.loser), (m'.winner, m'.loser));
    if Plays1(m', p) {
      SamePairTwice(InRound(matches, Order(matches)[d]), m, m');
    }
  }

  lemma {:induction false} LosersAreOut(matches: seq<BracketMatch>, line: Line, m: BracketMatch, m': BracketMatch)
    requires PlaysMatches(line, matches) && m in matches && m' in matches && m.roundIdx < m'.roundIdx
    ensures !Plays1(m', m.loser)
  {
    var d := RoundOf(matches, m);
    var k := RoundOf(matches, m');
    OrderIs(matches);
    assert d < k;
    LoserIsOut(line, RoundsOf(matches), d, k, (m.winner, m.loser), (m'.winner, m'.loser));
  }

  /** The matches of a line are a knockout. */
  lemma {:induction false} PlayedIsKnockout(matches: seq<BracketMatch>, line: Line)
    requires PlaysMatches(line, matches)
    ensures Knockout(matches)
  {
    forall m | m in matches
      ensures m.winner != m.loser
    {
      var d := RoundOf(matches, m);
      OneMatchEach(line, RoundsOf(matches), d, (m.winner, m.loser), (m.winner, m.loser));
    }
    forall m, m', p | m in matches && m' in matches && m != m' && m.roundIdx == m'.roundIdx && Plays1(m, p)
      ensures !Plays1(m', p)
    {
      OneMatchARound(matches, line, m, m', p);
    }
    forall m, m' | m in matches && m' in matches && m.roundIdx < m'.roundIdx
      ensures !Plays1(m', m.loser)
    {
      LosersAreOut(matches, line, m, m');
    }
  }

  /** A line plays a record exactly when the record is a knockout and is rebuilt into that
      line; so there is at most one such line, and it is found. */
  lemma {:induction false} PlayedIffKnockoutRebuilt(matches: seq<BracketMatch>, line: Line)
    requires matches != []
    ensures PlaysMatches(line, matches) <==> Knockout(matches) && Rebuild(matches) == Ok(line)
  {
    if PlaysMatches(line, matches) {
      PlayedIsKnockout(matches, line);
    }
    if Knockout(matches) {
      RebuiltIffPlayed(matches, line);
    }
  }

  // ------------------------------------------------------------ a record that is no knockout

  const FINAL := BracketMatch("F", 1, 1, 2)
  const OPENER := BracketMatch("SF", 0, 1, 3)
  const UPSET := BracketMatch("SF", 0, 2, 1)

  lemma {:induction false} UpsetRounds()
    ensures var ms := [FINAL, OPENER, UPSET];
            Order(ms) == [0, 1] && InRound(ms, 0) == [OPENER, UPSET] && InRound(ms, 1) == [FINAL]
  {
    var one, two, ms := [FINAL], [FINAL, OPENER], [FINAL, OPENER, UPSET];
    assert one[..0] == [] && two[..1] == one && ms[..2] == two;
    assert Indices(one) == [1];
    assert Indices(two) == [1, 0];
    assert Indices(ms) == [1, 0];
    assert [1, 0][1..] == [0] && [0][1..] == [];
    assert InRound(one[..0], 1) == [] && InRound(one[..0], 0) == [];
    assert InRound(one, 0) == [] && InRound(one, 1) == [FINAL];
    assert InRound(two, 0) == [OPENER] && InRound(two, 1) == [FINAL];
  }

  lemma {:induction false} UpsetWinners()
    ensures WonIn([OPENER, UPSET]) == map[1 := OPENER, 2 := UPSET] && WonIn([FINAL]) == map[1 := FINAL]
  {
    assert [OPENER, UPSET][..1] == [OPENER] && [OPENER][..0] == [] && [FINAL][..0] == [];
    assert WonIn([OPENER]) == map[1 := OPENER];
  }

  /** The champion plays two matches of the first round, and loses one of them: the record
      is accepted all the same, and its line, with the champion on it twice, does not play it. */
  lemma {:induction false} NoKnockoutIsAcceptedToo()
    ensures var ms, line := [FINAL, OPENER, UPSET], [Some(1), Some(3), Some(2), Some(1)];
            Rebuild(ms) == Ok(line) && !Knockout(ms) && !PlaysMatches(line, ms)
  {
    var ms, line := [FINAL, OPENER, UPSET], [Some(1), Some(3), Some(2), Some(1)];
    UpsetRounds();
    var first := map[1 := OPENER, 2 := UPSET];
    UpsetWinners();
    assert WonBy(ms, [0, 1]) == [first, map[1 := FINAL]];
    var won := [first, map[1 := FINAL]];
    assert Leaves(won, 0, 1) == Some([Some(1), Some(3)]) && Leaves(won, 0, 2) == Some([Some(2), Some(1)]);
    assert Leaves(won, 1, 1) == Some([Some(1), Some(3)] + [Some(2), Some(1)]);
    assert [Some(1), Some(3)] + [Some(2), Some(1)] == line;
    assert Walkovers(won, 1, 1) == 0;
    assert !Knockout(ms) by {
      assert OPENER in ms && UPSET in ms && Plays1(OPENER, 1) && Plays1(UPSET, 1);
    }
    PlayedIffKnockoutRebuilt(ms, line);
  }
}
