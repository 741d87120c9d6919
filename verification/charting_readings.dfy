/** What the rules of the lookup come to: the window, which event is nearer, what a surname is,
    and which charted player is which. */
module ChartingReadings {
  import opened Charting
  import opened ChartingLookup
  import opened Text

  /** An event's window is a week before its start and three weeks after it, ends included. Among
      the events in whose window a date falls, those that had begun are nearer than those that had
      not; of two that had begun the later is nearer, and of two that had not the earlier. */
  lemma {:induction false} NearerMeans(charted: int, start: int, other: int)
    ensures InWindow(charted, start) <==> -7 * 24 * 3600 <= charted - start <= 21 * 24 * 3600
    ensures InWindow(charted, start) && InWindow(charted, other) ==>
              && (start <= charted < other ==> Distance(charted, start) < Distance(charted, other))
              && (start <= charted && other <= charted ==>
                    (Distance(charted, start) < Distance(charted, other) <==> other < start))
              && (charted < start && charted < other ==>
                    (Distance(charted, start) < Distance(charted, other) <==> start < other))
  {
  }

  lemma {:induction false} WithoutParticlesHas(words: seq<string>, w: string)
    ensures w in WithoutParticles(words) <==> w in words && w !in PARTICLES
  {
    if words != [] {
      var n := |words| - 1;
      WithoutParticlesHas(words[..n], w);
      assert words == words[..n] + [words[n]];
    }
  }

  /** A name's surnames: its only word; or of the words after the first each that is no particle,
      and all of them run together; or the one particle that is all there is. */
  lemma {:induction false} SurnamesAre(normalise: Normaliser, full: string, w: string)
    ensures var words := Fields(normalise(full));
            && (|words| < 2 ==> (w in Surnames(normalise, full) <==> w in words))
            && (|words| >= 2 ==> (w in Surnames(normalise, full) <==>
                  || (w in words[1..] && w !in PARTICLES)
                  || w == Concat(words[1..])))
  {
    var words := Fields(normalise(full));
    if |words| >= 2 {
      WithoutParticlesHas(words[1..], w);
      if |words| == 2 {
        assert words[1..] == [words[1]];
        assert Concat(words[1..]) == words[1] + Concat(words[1..][1..]) == words[1];
        WithoutParticlesHas(words[1..], words[1]);
      }
    }
  }

  /** Two names are one person's when they are spelt alike, spaces aside, and otherwise only when
      they share a surname and begin alike or share a given name. */
  lemma {:induction false} SamePersonWhen(normalise: Normaliser, a: string, b: string)
    requires normalise(a) != "" && normalise(b) != ""
    ensures SamePerson(normalise, a, b) <==>
              || WithoutSpaces(normalise(a)) == WithoutSpaces(normalise(b))
              || (SharesSurname(normalise, a, b)
                  && (normalise(a)[0] == normalise(b)[0] || SharesGivenName(normalise(a), normalise(b))))
  {
  }

  /** The charted players are named after the row's: each is the person the answer says. */
  lemma {:induction false} WhoIsWho(normalise: Normaliser, m: Charted, c: Candidate)
    requires BothPlay(normalise, m, c)
    ensures var r := ResolutionOf(normalise, m, c);
            && r.matchId == c.matchId
            && ((r.player1Id == c.winnerId && r.player2Id == c.loserId && SamePerson(normalise, m.player1, c.winner))
                || (r.player1Id == c.loserId && r.player2Id == c.winnerId
                    && SamePerson(normalise, m.player1, c.loser) && SamePerson(normalise, m.player2, c.winner)))
  {
  }
}
