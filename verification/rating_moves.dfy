/** What one result does to the ratings, from the curves and the ratings before it. */
module RatingMoves {
  import opened Collections
  import opened Lexical
  import opened RatingEngine

  /** How far one side moves: its K, read from its own matches before the result, by the weight,
      by how much of a surprise the result was. */
  ghost function Move(c: Curves, mover: State, winner: State, loser: State, weight: real): real {
    c.k(mover.matches) * weight * (1.0 - c.expected(winner.elo, loser.elo))
  }

  /** What a key holds before its first result. */
  ghost function Before(m: Ratings, k: Key): State {
    if k in m then m[k] else State(1500.0, 0)
  }

  ghost predicate Beaten(c: Curves, m: Ratings, after: Ratings, w: Key, l: Key, weight: real) {
    && w in after && l in after
    && after[w].elo == Before(m, w).elo + Move(c, Before(m, w), Before(m, w), Before(m, l), weight)
    && after[l].elo == Before(m, l).elo - Move(c, Before(m, l), Before(m, w), Before(m, l), weight)
    && after[w].matches == Before(m, w).matches + 1
    && after[l].matches == Before(m, l).matches + 1
  }

  lemma {:induction false} Steps(c: Curves, winner: State, loser: State, weight: real)
    ensures NewElos(c, winner, loser, weight).0 == winner.elo + Move(c, winner, winner, loser, weight)
    ensures NewElos(c, winner, loser, weight).1 == loser.elo - Move(c, loser, winner, loser, weight)
  {
  }

  /** One result in one series: the winner rises by its own K, the loser falls by its own, both
      have a match more, and nobody else is touched. */
  lemma {:induction false} RateMoves(c: Curves, m: Ratings, w: Key, l: Key, weight: real)
    requires w != l
    ensures Beaten(c, m, Rate(c, m, w, l, weight), w, l, weight)
    ensures forall k | k != w && k != l ::
              && (k in Rate(c, m, w, l, weight) <==> k in m)
              && (k in m ==> Rate(c, m, w, l, weight)[k] == m[k])
  {
    Steps(c, Before(m, w), Before(m, l), weight);
  }

  /** A whole result moves the overall series and, where the surface is known, that surface's,
      each from where it stood before the result, and no other key. */
  lemma {:induction false} RatedMoves(c: Curves, m: Ratings, r: Outcome)
    requires r.winner != r.loser && r.surface != Some(Overall)
    ensures Beaten(c, m, Rated(c, m, r), Key(r.winner, Overall), Key(r.loser, Overall), c.weight(r.match_))
    ensures r.surface.Some? ==>
              Beaten(c, m, Rated(c, m, r), Key(r.winner, r.surface.value), Key(r.loser, r.surface.value), c.weight(r.match_))
    ensures forall k: Key | (k.player != r.winner && k.player != r.loser)
                       || (k.series != Overall && r.surface != Some(k.series)) ::
              && (k in Rated(c, m, r) <==> k in m)
              && (k in m ==> Rated(c, m, r)[k] == m[k])
  {
    var weight := c.weight(r.match_);
    var w, l := Key(r.winner, Overall), Key(r.loser, Overall);
    RateMoves(c, m, w, l, weight);
    if r.surface.Some? {
      RateMoves(c, Rate(c, m, w, l, weight), Key(r.winner, r.surface.value), Key(r.loser, r.surface.value), weight);
    }
  }

  /** The engine after a result it takes: the same, on the ratings it had. */
  lemma {:induction false} AddMoves(c: Curves, e: Replay, r: Outcome)
    requires r.winner != r.loser && r.surface != Some(Overall)
    ensures Beaten(c, e.series, e.Add(c, r).series, Key(r.winner, Overall), Key(r.loser, Overall), c.weight(r.match_))
    ensures r.surface.Some? ==>
              Beaten(c, e.series, e.Add(c, r).series, Key(r.winner, r.surface.value), Key(r.loser, r.surface.value),
                     c.weight(r.match_))
  {
    RatedMoves(c, e.At(WeekOf(r.playedOn)).series, r);
  }

  /** A result of a player against itself: one entry, which falls as a loser and counts twice. */
  lemma {:induction false} RateSelf(c: Curves, m: Ratings, k: Key, weight: real)
    ensures k in Rate(c, m, k, k, weight)
    ensures Rate(c, m, k, k, weight)[k].elo
         == Before(m, k).elo - Move(c, Before(m, k), Before(m, k), Before(m, k), weight)
    ensures Rate(c, m, k, k, weight)[k].matches == Before(m, k).matches + 2
  {
    Steps(c, Before(m, k), Before(m, k), weight);
  }

  /** A prediction is what the overall ratings say of the winner before the result, with the
      matches behind each side. */
  lemma {:induction false} PredictedBefore(c: Curves, m: Ratings, r: Outcome)
    ensures var p, w, l := Predict(c, m, r), Before(m, Key(r.winner, Overall)), Before(m, Key(r.loser, Overall));
            && p.winner == r.winner && p.loser == r.loser && p.playedOn == r.playedOn && p.tier == r.match_.tier
            && p.winnerExpected == c.expected(w.elo, l.elo)
            && p.winnerPlayed == w.matches && p.loserPlayed == l.matches
  {
  }

  function NameOf(s: Series): string {
    match s
    case Carpet => "carpet"
    case Clay => "clay"
    case Grass => "grass"
    case Hard => "hard"
    case Overall => "overall"
  }

  lemma {:induction false} NamesInOrder(a: Series, b: Series)
    ensures AtMost(NameOf(a), NameOf(b)) <==> Rank(a) <= Rank(b)
  {
    var x, y := NameOf(a), NameOf(b);
    if a == b {
      AtMostEither(x, x);
    } else if x[0] == y[0] {
      assert "carpet"[1..][0] == 'a' && "clay"[1..][0] == 'l';
    }
  }

  /** The rows of a week are ordered by player and, within a player, by the name of the series. */
  lemma {:induction false} KeysByPlayerThenName(a: Key, b: Key)
    ensures KeyAtMost(a, b)
       <==> a.player < b.player || (a.player == b.player && AtMost(NameOf(a.series), NameOf(b.series)))
  {
    NamesInOrder(a.series, b.series);
  }
}
