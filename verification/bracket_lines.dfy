/** A draw as one line of entrants, and the rounds that playing the line forward plays.

    Position 2i meets 2i+1 and the winner lands at i. A rebuilt line puts every
    winner on the even position, so the line after a round is its even positions,
    and a whole tournament with its results is just the line it opened with. */
module BracketLines {
  import opened Brackets
  import opened Collections

  type Line = seq<Option<int>>

  type Pairing = (int, int)

  function Somes(ids: seq<int>): (line: Line)
    ensures |line| == |ids| && forall i | 0 <= i < |ids| :: line[i] == Some(ids[i])
  {
    seq(|ids|, i requires 0 <= i < |ids| => Some(ids[i]))
  }

  /** Every first-of-pair is a player, and nobody is on the line twice. */
  ghost predicate IsSeeded(line: Line) {
    && (forall i | 0 <= i < |line| && i % 2 == 0 :: line[i].Some?)
    && (forall i, j | 0 <= i < j < |line| && line[i].Some? && line[j].Some? :: line[i] != line[j])
  }

  ghost function SeededTest(): Line -> bool {
    line => IsSeeded(line)
  }

  /** `IsSeeded` by way of a function value, so that a proof opens it only by asking
      (`SeededMeans`); its quantifiers are costly where they are not needed. */
  ghost predicate Seeded(line: Line) {
    SeededTest()(line)
  }

  lemma {:induction false} SeededMeans(line: Line)
    ensures Seeded(line) <==> IsSeeded(line)
  {
  }

  /** Who is left after a round: the even positions. */
  function Survivors(line: Line): (next: seq<int>)
    requires |line| % 2 == 0
    ensures |next| == |line| / 2
  {
    seq(|line| / 2, i requires 0 <= i < |line| / 2 => if line[2 * i].Some? then line[2 * i].value else 0)
  }

  /** The matches a round of the line is: winner against loser, byes left out. */
  function RoundPairs(line: Line): seq<Pairing>
    requires |line| % 2 == 0
  {
    if line == [] then []
    else (if line[0].Some? && line[1].Some? then [(line[0].value, line[1].value)] else []) + RoundPairs(line[2..])
  }

  /** Playing the line forward plays exactly these rounds, and leaves one player. */
  ghost predicate Plays(line: Line, rounds: seq<multiset<Pairing>>)
    decreases |rounds|, 2
  {
    PlaysTest(rounds)(line)
  }

  /** As with `SeededTest`: a proof opens one round by asking (`PlaysMeans`). */
  ghost function PlaysTest(rounds: seq<multiset<Pairing>>): Line -> bool
    decreases |rounds|, 1
  {
    line => PlaysOn(line, rounds)
  }

  ghost predicate PlaysOn(line: Line, rounds: seq<multiset<Pairing>>)
    decreases |rounds|, 0
  {
    if rounds == [] then |line| == 1
    else
      && |line| % 2 == 0 && multiset(RoundPairs(line)) == rounds[0]
      && Plays(Somes(Survivors(line)), rounds[1..])
  }

  lemma {:induction false} PlaysMeans(line: Line, rounds: seq<multiset<Pairing>>)
    ensures Plays(line, rounds) <==>
              if rounds == [] then |line| == 1
              else
                && |line| % 2 == 0 && multiset(RoundPairs(line)) == rounds[0]
                && Plays(Somes(Survivors(line)), rounds[1..])
  {
    assert Plays(line, rounds) <==> PlaysOn(line, rounds);
  }

  lemma {:induction false} SurvivorsAre(line: Line)
    requires |line| % 2 == 0 && Seeded(line)
    ensures forall i | 0 <= i < |line| / 2 :: line[2 * i] == Some(Survivors(line)[i])
  {
  }

  lemma {:induction false} SurvivorsSeeded(line: Line)
    requires |line| % 2 == 0 && Seeded(line)
    ensures Seeded(Somes(Survivors(line)))
  {
  }

  lemma {:induction false} PlaysSize(line: Line, rounds: seq<multiset<Pairing>>)
    requires Plays(line, rounds)
    ensures |line| == Pow2(|rounds|)
    decreases |rounds|
  {
    PlaysMeans(line, rounds);
    if rounds != [] {
      PlaysSize(Somes(Survivors(line)), rounds[1..]);
    }
  }

  function Empties(line: Line): nat {
    if line == [] then 0 else (if line[0].None? then 1 else 0) + Empties(line[1..])
  }

  lemma {:induction false} EmptiesAppend(a: Line, b: Line)
    ensures Empties(a + b) == Empties(a) + Empties(b)
  {
    if a == [] {
      assert a + b == b;
    } else {
      assert (a + b)[1..] == a[1..] + b;
      EmptiesAppend(a[1..], b);
    }
  }

  lemma {:induction false} PairsByPosition(line: Line)
    requires |line| % 2 == 0
    ensures forall x: Pairing :: x in RoundPairs(line) <==>
              exists i :: 0 <= i < |line| / 2 && line[2 * i] == Some(x.0) && line[2 * i + 1] == Some(x.1)
  {
    if line != [] {
      var rest := line[2..];
      PairsByPosition(rest);
      forall x: Pairing
        ensures x in RoundPairs(line) <==>
              exists i :: 0 <= i < |line| / 2 && line[2 * i] == Some(x.0) && line[2 * i + 1] == Some(x.1)
      {
        if x in RoundPairs(rest) {
          var i :| 0 <= i < |rest| / 2 && rest[2 * i] == Some(x.0) && rest[2 * i + 1] == Some(x.1);
          assert line[2 * (i + 1)] == Some(x.0) && line[2 * (i + 1) + 1] == Some(x.1);
        }
        if i :| 0 <= i < |line| / 2 && line[2 * i] == Some(x.0) && line[2 * i + 1] == Some(x.1) {
          if i > 0 {
            assert rest[2 * (i - 1)] == Some(x.0) && rest[2 * (i - 1) + 1] == Some(x.1);
          }
        }
        if line[0] == Some(x.0) && line[1] == Some(x.1) {
          assert line[2 * 0] == Some(x.0) && line[2 * 0 + 1] == Some(x.1);
        }
      }
    }
  }

  /** The pair of positions a match of a round sits at. */
  lemma {:induction false} SeatOf(line: Line, x: Pairing) returns (i: nat)
    requires |line| % 2 == 0 && x in RoundPairs(line)
    ensures i < |line| / 2 && line[2 * i] == Some(x.0) && line[2 * i + 1] == Some(x.1)
  {
    PairsByPosition(line);
    i :| 0 <= i < |line| / 2 && line[2 * i] == Some(x.0) && line[2 * i + 1] == Some(x.1);
  }

  lemma {:induction false} MatchAtSeat(line: Line, i: nat)
    requires |line| % 2 == 0 && i < |line| / 2 && line[2 * i].Some? && line[2 * i + 1].Some?
    ensures (line[2 * i].value, line[2 * i + 1].value) in RoundPairs(line)
  {
    PairsByPosition(line);
  }

  /** A round has a match for every pair of lines but the walkovers. */
  lemma {:induction false} SeededPairsCount(line: Line)
    requires |line| % 2 == 0 && Seeded(line)
    ensures |RoundPairs(line)| + Empties(line) == |line| / 2
  {
    if line != [] {
      SeededMeans(line);
      SeededMeans(line[2..]);
      assert Empties(line) == (if line[0].None? then 1 else 0) + (if line[1].None? then 1 else 0) + Empties(line[2..]);
      SeededPairsCount(line[2..]);
    }
  }

  lemma {:induction false} SomesHaveNoEmpties(ids: seq<int>)
    ensures Empties(Somes(ids)) == 0
  {
    if ids != [] {
      assert Somes(ids)[1..] == Somes(ids[1..]);
      SomesHaveNoEmpties(ids[1..]);
    }
  }

  /** Distinct elements of a sequence, as many as it has, are its elements. */
  lemma {:induction false} DistinctAndAllAreTheSame(u: seq<Pairing>, v: seq<Pairing>)
    requires forall i, j | 0 <= i < j < |u| :: u[i] != u[j]
    requires forall x | x in u :: x in v
    requires |u| == |v|
    ensures multiset(u) == multiset(v)
  {
    DistinctCounts(u);
    forall x
      ensures multiset(u)[x] <= multiset(v)[x]
    {
      if x in multiset(u) {
        assert x in u && x in v && x in multiset(v);
      }
    }
    assert multiset(u) <= multiset(v);
    assert |multiset(v) - multiset(u)| == 0;
    assert multiset(v) == multiset(u) + (multiset(v) - multiset(u));
  }

  // ------------------------------------------------------- a round, level by level

  /** The line below a level: each player with whoever it beat, or an empty line. */
  function Below(w: map<int, BracketMatch>, ps: seq<int>): Line {
    if ps == [] then []
    else [Some(ps[0]), if ps[0] in w then Some(w[ps[0]].loser) else None] + Below(w, ps[1..])
  }

  lemma {:induction false} BelowSize(w: map<int, BracketMatch>, ps: seq<int>)
    ensures |Below(w, ps)| == 2 * |ps|
  {
    if ps != [] {
      BelowSize(w, ps[1..]);
    }
  }

  lemma {:induction false} BelowAt(w: map<int, BracketMatch>, ps: seq<int>, i: nat)
    requires i < |ps|
    ensures |Below(w, ps)| == 2 * |ps|
    ensures Below(w, ps)[2 * i] == Some(ps[i])
    ensures Below(w, ps)[2 * i + 1] == if ps[i] in w then Some(w[ps[i]].loser) else None
  {
    BelowSize(w, ps);
    BelowSize(w, ps[1..]);
    if i > 0 {
      BelowAt(w, ps[1..], i - 1);
      assert Below(w, ps)[2..] == Below(w, ps[1..]);
      assert Below(w, ps)[2 * i] == Below(w, ps)[2..][2 * (i - 1)];
      assert Below(w, ps)[2 * i + 1] == Below(w, ps)[2..][2 * (i - 1) + 1];
    }
  }

  lemma {:induction false} BelowSeats(w: map<int, BracketMatch>, ps: seq<int>)
    ensures |Below(w, ps)| == 2 * |ps|
    ensures forall i | 0 <= i < |Below(w, ps)| && i % 2 == 0 :: Below(w, ps)[i] == Some(ps[i / 2])
    ensures forall i | 0 <= i < |Below(w, ps)| && i % 2 == 1 ::
              Below(w, ps)[i] == if ps[i / 2] in w then Some(w[ps[i / 2]].loser) else None
  {
    if ps != [] {
      BelowSeats(w, ps[1..]);
    }
  }

  /** The leaves under several players side by side. */
  function Under(won: seq<map<int, BracketMatch>>, depth: nat, ps: seq<int>): Option<Line>
    requires depth < |won|
  {
    if ps == [] then Some([])
    else
      var first, rest := Leaves(won, depth, ps[0]), Under(won, depth, ps[1..]);
      if first.Some? && rest.Some? then Some(first.value + rest.value) else None
  }

  ghost predicate WinnersNamed(won: seq<map<int, BracketMatch>>) {
    forall d, p | 0 <= d < |won| && p in won[d] :: won[d][p].winner == p
  }

  lemma {:induction false} UnderFirstRound(won: seq<map<int, BracketMatch>>, ps: seq<int>)
    requires won != [] && WinnersNamed(won)
    ensures Under(won, 0, ps) == Some(Below(won[0], ps))
  {
    if ps != [] {
      UnderFirstRound(won, ps[1..]);
    }
  }

  /** The players on a line with nobody missing. */
  function Players(line: Line): (ids: seq<int>)
    requires forall i | 0 <= i < |line| :: line[i].Some?
    ensures |ids| == |line| && forall i | 0 <= i < |line| :: line[i] == Some(ids[i])
  {
    seq(|line|, i requires 0 <= i < |line| => line[i].value)
  }

  ghost predicate AllWon(w: map<int, BracketMatch>, ps: seq<int>) {
    forall i | 0 <= i < |ps| :: ps[i] in w
  }

  lemma {:induction false} BelowUnfolds(w: map<int, BracketMatch>, ps: seq<int>)
    requires ps != [] && ps[0] in w
    ensures Below(w, ps) == [Some(ps[0]), Some(w[ps[0]].loser)] + Below(w, ps[1..])
  {
  }

  lemma {:induction false} BelowFull(w: map<int, BracketMatch>, ps: seq<int>)
    requires AllWon(w, ps)
    ensures forall i | 0 <= i < |Below(w, ps)| :: Below(w, ps)[i].Some?
  {
    if ps != [] {
      BelowFull(w, ps[1..]);
    }
  }

  lemma {:induction false} UnderNeedsWinners(won: seq<map<int, BracketMatch>>, depth: nat, ps: seq<int>)
    requires 0 < depth < |won| && Under(won, depth, ps).Some?
    ensures AllWon(won[depth], ps)
  {
    if ps != [] {
      UnderNeedsWinners(won, depth, ps[1..]);
    }
  }

  lemma {:induction false} PlayersBelow(w: map<int, BracketMatch>, ps: seq<int>)
    requires ps != [] && AllWon(w, ps) && w[ps[0]].winner == ps[0]
    ensures AllWon(w, ps[1..])
    ensures (forall i | 0 <= i < |Below(w, ps)| :: Below(w, ps)[i].Some?)
    ensures (forall i | 0 <= i < |Below(w, ps[1..])| :: Below(w, ps[1..])[i].Some?)
    ensures Players(Below(w, ps)) == [w[ps[0]].winner, w[ps[0]].loser] + Players(Below(w, ps[1..]))
  {
    BelowFull(w, ps);
    BelowFull(w, ps[1..]);
    BelowUnfolds(w, ps);
  }

  /** Above the first round, the leaves under a level are those under the one below it. */
  lemma {:induction false} UnderHigherRound(won: seq<map<int, BracketMatch>>, depth: nat, ps: seq<int>)
    requires 0 < depth < |won| && WinnersNamed(won) && AllWon(won[depth], ps)
    ensures forall i | 0 <= i < |Below(won[depth], ps)| :: Below(won[depth], ps)[i].Some?
    ensures Under(won, depth, ps) == Under(won, depth - 1, Players(Below(won[depth], ps)))
  {
    if ps != [] {
      var m := won[depth][ps[0]];
      PlayersBelow(won[depth], ps);
      UnderHigherRound(won, depth, ps[1..]);
      UnderTwo(won, depth - 1, m.winner, m.loser, Players(Below(won[depth], ps[1..])));
    }
  }

  lemma {:induction false} UnderTwo(won: seq<map<int, BracketMatch>>, depth: nat, a: int, b: int, rest: seq<int>)
    requires depth < |won|
    ensures Under(won, depth, [a, b] + rest) ==
      if Leaves(won, depth, a).Some? && Leaves(won, depth, b).Some? && Under(won, depth, rest).Some?
      then Some(Leaves(won, depth, a).value + Leaves(won, depth, b).value + Under(won, depth, rest).value) else None
  {
    assert ([a, b] + rest)[1..] == [b] + rest && ([b] + rest)[1..] == rest;
    assert Under(won, depth, [b] + rest) ==
      if Leaves(won, depth, b).Some? && Under(won, depth, rest).Some?
      then Some(Leaves(won, depth, b).value + Under(won, depth, rest).value) else None;
    if Leaves(won, depth, a).Some? && Leaves(won, depth, b).Some? && Under(won, depth, rest).Some? {
      var x, y, z := Leaves(won, depth, a).value, Leaves(won, depth, b).value, Under(won, depth, rest).value;
      assert x + (y + z) == x + y + z;
    }
  }

  /** Walkovers counted on the way down are the line's empty lines. */
  lemma {:induction false} WalkoversAreEmpties(won: seq<map<int, BracketMatch>>, depth: nat, winner: int)
    requires depth < |won| && Leaves(won, depth, winner).Some?
    ensures Walkovers(won, depth, winner) == Empties(Leaves(won, depth, winner).value)
    decreases depth
  {
    if winner in won[depth] && depth > 0 {
      var m := won[depth][winner];
      WalkoversAreEmpties(won, depth - 1, m.winner);
      WalkoversAreEmpties(won, depth - 1, m.loser);
      EmptiesAppend(Leaves(won, depth - 1, m.winner).value, Leaves(won, depth - 1, m.loser).value);
    } else if winner in won[depth] {
      EmptiesOfPair(Some(won[depth][winner].winner), Some(won[depth][winner].loser));
    } else {
      EmptiesOfPair(Some(winner), None);
    }
  }

  lemma {:induction false} EmptiesOfPair(a: Option<int>, b: Option<int>)
    ensures Empties([a, b]) == (if a.None? then 1 else 0) + (if b.None? then 1 else 0)
  {
    assert [a, b][1..] == [b] && [b][1..] == [];
    assert Empties([b]) == (if b.None? then 1 else 0) + Empties([]);
  }
}
