/** A rebuilt bracket is one the simulation can play. */
module RebuiltDraws {
  import opened BracketLaws
  import opened BracketLines
  import opened Brackets
  import DrawOdds

  ghost predicate PlaysIn(matches: seq<BracketMatch>, p: int) {
    exists m :: m in matches && Plays1(m, p)
  }

  /** The players of every match are known, under their own ids, and zero is nobody's. */
  ghost predicate Known(matches: seq<BracketMatch>, players: map<int, Entrant>) {
    forall p | PlaysIn(matches, p) :: p in players && players[p].playerId == p && p != 0
  }

  ghost predicate AllPlay(matches: seq<BracketMatch>, line: Line) {
    forall i | 0 <= i < |line| && line[i].Some? :: PlaysIn(matches, line[i].value)
  }

  /** The walk only ever writes down players of matches. */
  lemma {:induction false} LeavesPlay(matches: seq<BracketMatch>, depth: nat, winner: int)
    requires depth < |Order(matches)| && PlaysIn(matches, winner)
    requires Leaves(WonBy(matches, Order(matches)), depth, winner).Some?
    ensures AllPlay(matches, Leaves(WonBy(matches, Order(matches)), depth, winner).value)
    decreases depth
  {
    var won := WonBy(matches, Order(matches));
    if winner in won[depth] {
      var m: BracketMatch := won[depth][winner];
      WonByIs(matches, depth, winner);
      assert Plays1(m, m.winner) && Plays1(m, m.loser);
      if depth > 0 {
        LeavesPlay(matches, depth - 1, m.winner);
        LeavesPlay(matches, depth - 1, m.loser);
      }
    }
  }

  lemma {:induction false} ChampionPlays(matches: seq<BracketMatch>)
    requires matches != []
    ensures Order(matches) != [] && PlaysIn(matches, Champion(matches))
  {
    RoundsNonEmpty(matches);
    var final := Order(matches)[|Order(matches)| - 1];
    InRoundMembers(matches, final);
    assert InRound(matches, final)[0] in InRound(matches, final);
    assert Plays1(InRound(matches, final)[0], Champion(matches));
  }

  /** Every player on a rebuilt line plays a match. */
  lemma {:induction false} RebuiltPlay(matches: seq<BracketMatch>, line: Line)
    requires Rebuild(matches) == Ok(line)
    ensures AllPlay(matches, line)
  {
    RebuiltLeaves(matches, line);
    ChampionPlays(matches);
    LeavesPlay(matches, |Order(matches)| - 1, Champion(matches));
  }

  lemma {:induction false} FirstOfPairKnown(matches: seq<BracketMatch>, players: map<int, Entrant>, line: Line, i: nat)
    requires Knockout(matches) && Rebuild(matches) == Ok(line) && Known(matches, players) && 2 * i < |line|
    ensures !DrawOdds.Bye(EntrantsOn(line, players)[2 * i])
  {
    RebuiltLinePlaysTheMatches(matches, line);
    SeededMeans(line);
    RebuiltPlay(matches, line);
    assert line[2 * i].Some? && PlaysIn(matches, line[2 * i].value);
  }

  /** What a knockout record of known players rebuilds into, the simulation can play. */
  lemma {:induction false} RebuiltIsDrawn(matches: seq<BracketMatch>, players: map<int, Entrant>, line: Line)
    requires Knockout(matches) && Rebuild(matches) == Ok(line) && Known(matches, players)
    ensures matches != [] && DrawOdds.Drawn(BracketOn(matches, line, players))
  {
    var b := BracketOn(matches, line, players);
    RoundsNonEmpty(matches);
    BracketShape(matches, players, line);
    forall i | 0 <= i < b.Size() / 2 && 2 * i + 1 < b.Size()
      ensures !(DrawOdds.Bye(b.entrants[2 * i]) && DrawOdds.Bye(b.entrants[2 * i + 1]))
    {
      FirstOfPairKnown(matches, players, line, i);
    }
  }
}
