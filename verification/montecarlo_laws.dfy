/** What is conserved however the numbers fall (internal/simulate/montecarlo.go). */
module DrawOddsLaws {
  import opened Brackets
  import opened DrawOdds

  // ---------------------------------------------------------------- one run

  lemma {:induction false} BlockIsRange(e: nat, r: nat)
    ensures BlockOf(e, r) * Pow2(r) <= e < (BlockOf(e, r) + 1) * Pow2(r)
  {
    if r > 0 {
      BlockIsRange(e, r - 1);
      Doubled(BlockOf(e, r - 1), Pow2(r - 1));
    }
  }

  lemma {:induction false} Doubled(k: nat, p: nat)
    ensures (k / 2) * (2 * p) <= k * p && (k + 1) * p <= (k / 2 + 1) * (2 * p)
  {
    assert (k / 2) * (2 * p) == (2 * (k / 2)) * p;
    assert (k / 2 + 1) * (2 * p) == (2 * (k / 2) + 2) * p;
    Scaled(2 * (k / 2), k, p);
    Scaled(k + 1, 2 * (k / 2) + 2, p);
  }

  lemma {:induction false} Scaled(a: nat, b: nat, p: nat)
    requires a <= b
    ensures a * p <= b * p
  {
  }

  lemma {:induction false} BlockFits(e: nat, rounds: nat, r: nat)
    requires e < Pow2(rounds) && r <= rounds
    ensures BlockOf(e, r) < Pow2(rounds - r)
  {
    if r > 0 {
      BlockFits(e, rounds, r - 1);
    }
  }

  /** In every run each block of 2^r lines has exactly one line that won its first r rounds:
      the one at the block's own place in the field. */
  lemma {:induction false} OneWinnerPerBlock(wins: Decider, rounds: nat, from: nat, r: nat, e: nat)
    requires r <= rounds && e < Pow2(rounds)
    ensures BlockOf(e, r) < Pow2(rounds - r)
    ensures e in Standing(wins, rounds, from, r) <==> Standing(wins, rounds, from, r)[BlockOf(e, r)] == e
  {
    var field := Standing(wins, rounds, from, r);
    StandingInBlocks(wins, rounds, from, r);
    BlockFits(e, rounds, r);
    if e in field {
      var i :| 0 <= i < |field| && field[i] == e;
      assert BlockOf(field[i], r) == i;
    }
  }

  /** Whoever is in the field after a round was in it before. */
  lemma {:induction false} SurvivorsWereThere(wins: Decider, rounds: nat, from: nat, r: nat, e: nat)
    requires r < rounds && e in Standing(wins, rounds, from, r + 1)
    ensures e in Standing(wins, rounds, from, r)
  {
    var before := Standing(wins, rounds, from, r);
    StandingNext(wins, rounds, from, r);
    var next := Round(wins, from + Spent(rounds, r), before);
    var i :| 0 <= i < |next| && next[i] == e;
    RoundAt(wins, from + Spent(rounds, r), before, i);
  }

  /** A worker's k-th run starts where the one before it stopped: each uses a number a match. */
  lemma {:induction false} StartIs(rounds: nat, k: nat)
    ensures Start(rounds, k) == k * (Pow2(rounds) - 1)
  {
    if k > 0 {
      StartIs(rounds, k - 1);
      SpentIs(rounds, rounds);
      OneMoreTime(k, Pow2(rounds) - 1);
    }
  }

  /** A match between two lines goes to the first when its number is below that line's odds
      against the other, in the first line's row. */
  lemma {:induction false} PairDecided(wins: Decider, n: nat, a: nat, c: nat)
    requires a < wins.size && c < wins.size && |wins.odds| == Cell(wins.size, 0, wins.size)
    ensures 0 <= a * wins.size + c < |wins.odds|
    ensures Winner(wins, n, a, c) == if wins.streams(wins.worker, n) < wins.odds[a * wins.size + c] then a else c
  {
    CellFits(a, c, wins.size, wins.size);
    CellIsFlat(a, c, wins.size);
  }

  lemma {:induction false} PlaceDecided(wins: Decider, rounds: nat, from: nat, r: nat, i: nat)
    requires r < rounds && i < Pow2(rounds - (r + 1))
    ensures 2 * i + 1 < Pow2(rounds - r)
    ensures var field := Standing(wins, rounds, from, r);
            && field[2 * i] < Pow2(rounds) && field[2 * i + 1] < Pow2(rounds)
            && (r == 0 ==> field[2 * i] == 2 * i && field[2 * i + 1] == 2 * i + 1)
            && Standing(wins, rounds, from, r + 1)[i]
               == Winner(wins, from + Spent(rounds, r) + i, field[2 * i], field[2 * i + 1])
  {
    StandingNext(wins, rounds, from, r);
    StandingInBlocks(wins, rounds, from, r);
    RoundAt(wins, from + Spent(rounds, r), Standing(wins, rounds, from, r), i);
    if r == 0 {
      LineAt(Pow2(rounds), 2 * i);
      LineAt(Pow2(rounds), 2 * i + 1);
    }
  }

  /** Every match of every run, from the numbers drawn and the odds in their rows: a run whose
      numbers start at `from` starts with every line on its own place, and match i of round r,
      between the lines on places 2i and 2i+1, goes to the first of them when the match's own
      number is below that line's odds against the other. */
  lemma {:induction false} MatchDecided(wins: Decider, rounds: nat, from: nat, r: nat, i: nat)
    requires r < rounds && i < Pow2(rounds - (r + 1))
    requires wins.size == Pow2(rounds) && |wins.odds| == Cell(wins.size, 0, wins.size)
    ensures 2 * i + 1 < Pow2(rounds - r) <= wins.size
    ensures var field, n := Standing(wins, rounds, from, r), from + wins.size - Pow2(rounds - r) + i;
            var a, c := field[2 * i], field[2 * i + 1];
            && (r == 0 ==> a == 2 * i && c == 2 * i + 1)
            && 0 <= a * wins.size + c < |wins.odds|
            && Standing(wins, rounds, from, r + 1)[i]
               == if wins.streams(wins.worker, n) < wins.odds[a * wins.size + c] then a else c
  {
    PlaceDecided(wins, rounds, from, r, i);
    SpentIs(rounds, r);
    var field := Standing(wins, rounds, from, r);
    PairDecided(wins, from + Spent(rounds, r) + i, field[2 * i], field[2 * i + 1]);
  }

  // ---------------------------------------------------------------- byes

  ghost predicate UnitStreams(streams: Streams) {
    forall w: nat, n: nat :: 0.0 <= Draw(streams, w, n) < 1.0
  }

  /** A worker deciding by a draw's own odds, on numbers from zero up to but not one. */
  ghost predicate Deciding(wins: Decider, b: Bracket, win: WinFunc) {
    IsOdds(wins.odds, b, win) && wins.size == b.Size() && UnitStreams(wins.streams)
  }

  lemma {:induction false} ByeLoses(b: Bracket, win: WinFunc, wins: Decider, n: nat, a: nat, c: nat)
    requires Deciding(wins, b, win) && a < b.Size() && c < b.Size()
    requires Bye(b.entrants[a]) != Bye(b.entrants[c])
    ensures !Bye(b.entrants[Winner(wins, n, a, c)])
  {
    CellFits(a, c, b.Size(), b.Size());
    assert wins.odds[Cell(a, c, b.Size())] == OddsOf(b, win, a, c);
    assert 0.0 <= Draw(wins.streams, wins.worker, n) < 1.0;
  }

  lemma {:induction false} OpeningWinner(b: Bracket, win: WinFunc, wins: Decider, from: nat, e: nat)
    requires Drawn(b) && Deciding(wins, b, win)
    requires e in Standing(wins, |b.rounds|, from, 1)
    ensures e < b.Size() && !Bye(b.entrants[e])
  {
    var rounds := |b.rounds|;
    var field := Standing(wins, rounds, from, 1);
    var i :| 0 <= i < |field| && field[i] == e;
    StandingNext(wins, rounds, from, 0);
    RoundAt(wins, from, Lines(Pow2(rounds)), i);
    LineAt(Pow2(rounds), 2 * i);
    LineAt(Pow2(rounds), 2 * i + 1);
    assert !(Bye(b.entrants[2 * i]) && Bye(b.entrants[2 * i + 1]));
    if Bye(b.entrants[2 * i]) || Bye(b.entrants[2 * i + 1]) {
      ByeLoses(b, win, wins, from + i, 2 * i, 2 * i + 1);
    }
  }

  /** A bye never wins a round of any run. */
  lemma {:induction false} ByesNeverWin(b: Bracket, win: WinFunc, wins: Decider, from: nat, e: nat, r: nat)
    requires Drawn(b) && Deciding(wins, b, win) && e < b.Size() && Bye(b.entrants[e]) && r < |b.rounds|
    ensures Scored(wins, |b.rounds|, from, e, r) == 0
  {
    if e in Standing(wins, |b.rounds|, from, r + 1) {
      if r == 0 {
        OpeningWinner(b, win, wins, from, e);
      } else {
        SurvivorsWereThere(wins, |b.rounds|, from, r, e);
        ByesNeverWin(b, win, wins, from, e, r - 1);
      }
    }
  }

  lemma {:induction false} ByesCountNothing(b: Bracket, win: WinFunc, wins: Decider, runs: nat, e: nat, r: nat)
    requires Drawn(b) && Deciding(wins, b, win) && e < b.Size() && Bye(b.entrants[e]) && r < |b.rounds|
    ensures Count(wins, |b.rounds|, runs, e, r) == 0
  {
    if runs > 0 {
      ByesCountNothing(b, win, wins, runs - 1, e, r);
      ByesNeverWin(b, win, wins, Start(|b.rounds|, runs - 1), e, r);
    }
  }

  ghost predicate AllDeciding(batches: seq<Batch>, b: Bracket, win: WinFunc) {
    forall i | 0 <= i < |batches| :: Deciding(batches[i].wins, b, win)
  }

  lemma {:induction false} ByesTotalNothing(b: Bracket, win: WinFunc, batches: seq<Batch>, e: nat, r: nat)
    requires Drawn(b) && AllDeciding(batches, b, win) && e < b.Size() && Bye(b.entrants[e]) && r < |b.rounds|
    ensures TotalWins(batches, |b.rounds|, e, r) == 0
  {
    if batches != [] {
      var init, last := batches[..|batches| - 1], batches[|batches| - 1];
      assert forall i | 0 <= i < |init| :: init[i] == batches[i];
      ByesTotalNothing(b, win, init, e, r);
      ByesCountNothing(b, win, last.wins, last.share, e, r);
    }
  }

  // ---------------------------------------------------------------- counting winners

  /** How many of the lines below `n` are in a field. */
  function Members(field: seq<nat>, n: nat): nat {
    if n == 0 then 0 else Members(field, n - 1) + if n - 1 in field then 1 else 0
  }

  lemma {:induction false} MembersOneMore(field: seq<nat>, e: nat, n: nat)
    requires e !in field
    ensures Members(field + [e], n) == Members(field, n) + if e < n then 1 else 0
  {
    if n > 0 {
      MembersOneMore(field, e, n - 1);
      assert n - 1 in field + [e] <==> n - 1 in field || n - 1 == e;
    }
  }

  lemma {:induction false} MembersNone(n: nat)
    ensures Members([], n) == 0
  {
    if n > 0 {
      MembersNone(n - 1);
    }
  }

  lemma {:induction false} FieldHasItsLength(field: seq<nat>, size: nat, r: nat)
    requires InBlocks(field, size, r)
    ensures Members(field, size) == |field|
  {
    if field == [] {
      MembersNone(size);
    } else {
      var init, last := field[..|field| - 1], field[|field| - 1];
      FieldHasItsLength(init, size, r);
      NotYetAWinner(field, size, r, |field| - 1);
      MembersOneMore(init, last, size);
      assert field == init + [last];
    }
  }

  function SumCounts(wins: Decider, rounds: nat, runs: nat, r: nat, n: nat): nat
    requires r < rounds
  {
    if n == 0 then 0 else SumCounts(wins, rounds, runs, r, n - 1) + Count(wins, rounds, runs, n - 1, r)
  }

  lemma {:induction false} SumCountsOneRun(wins: Decider, rounds: nat, runs: nat, r: nat, n: nat)
    requires r < rounds && runs > 0
    ensures SumCounts(wins, rounds, runs, r, n)
         == SumCounts(wins, rounds, runs - 1, r, n) + Members(Standing(wins, rounds, Start(rounds, runs - 1), r + 1), n)
  {
    if n > 0 {
      SumCountsOneRun(wins, rounds, runs, r, n - 1);
    }
  }

  lemma {:induction false} SumCountsNone(wins: Decider, rounds: nat, r: nat, n: nat)
    requires r < rounds
    ensures SumCounts(wins, rounds, 0, r, n) == 0
  {
    if n > 0 {
      SumCountsNone(wins, rounds, r, n - 1);
    }
  }

  /** Each run has as many winners of a round as the round has matches. */
  lemma {:induction false} WinnersPerRound(wins: Decider, rounds: nat, runs: nat, r: nat)
    requires r < rounds
    ensures SumCounts(wins, rounds, runs, r, Pow2(rounds)) == runs * Pow2(rounds - (r + 1))
  {
    if runs == 0 {
      SumCountsNone(wins, rounds, r, Pow2(rounds));
    } else {
      var from := Start(rounds, runs - 1);
      WinnersPerRound(wins, rounds, runs - 1, r);
      SumCountsOneRun(wins, rounds, runs, r, Pow2(rounds));
      StandingInBlocks(wins, rounds, from, r + 1);
      FieldHasItsLength(Standing(wins, rounds, from, r + 1), Pow2(rounds), r + 1);
      OneMoreTime(runs, Pow2(rounds - (r + 1)));
    }
  }

  lemma {:induction false} OneMoreTime(k: nat, p: int)
    requires k > 0
    ensures k * p == (k - 1) * p + p
  {
  }

  function SumWins(batches: seq<Batch>, rounds: nat, r: nat, n: nat): nat
    requires r < rounds
  {
    if n == 0 then 0 else SumWins(batches, rounds, r, n - 1) + TotalWins(batches, rounds, n - 1, r)
  }

  lemma {:induction false} SumWinsOneMore(batches: seq<Batch>, batch: Batch, rounds: nat, r: nat, n: nat)
    requires r < rounds
    ensures SumWins(batches + [batch], rounds, r, n)
         == SumWins(batches, rounds, r, n) + SumCounts(batch.wins, rounds, batch.share, r, n)
  {
    if n > 0 {
      SumWinsOneMore(batches, batch, rounds, r, n - 1);
      assert (batches + [batch])[..|batches|] == batches;
    }
  }

  lemma {:induction false} SumWinsNone(rounds: nat, r: nat, n: nat)
    requires r < rounds
    ensures SumWins([], rounds, r, n) == 0
  {
    if n > 0 {
      SumWinsNone(rounds, r, n - 1);
    }
  }

  /** Over all the workers: one winner for each match of a round, in every run. */
  lemma {:induction false} WinsPerRound(batches: seq<Batch>, rounds: nat, r: nat)
    requires r < rounds
    ensures SumWins(batches, rounds, r, Pow2(rounds)) == TotalShares(batches) * Pow2(rounds - (r + 1))
  {
    if batches == [] {
      SumWinsNone(rounds, r, Pow2(rounds));
    } else {
      var init, last := batches[..|batches| - 1], batches[|batches| - 1];
      WinsPerRound(init, rounds, r);
      SumWinsOneMore(init, last, rounds, r, Pow2(rounds));
      WinnersPerRound(last.wins, rounds, last.share, r);
      assert batches == init + [last];
      Together(TotalShares(init), last.share, Pow2(rounds - (r + 1)));
    }
  }

  lemma {:induction false} Together(a: nat, b: nat, p: nat)
    ensures a * p + b * p == (a + b) * p
  {
  }

  // ---------------------------------------------------------------- shares

  function Sum(shares: seq<nat>, n: nat): nat
    requires n <= |shares|
  {
    if n == 0 then 0 else Sum(shares, n - 1) + shares[n - 1]
  }

  lemma {:induction false} BatchesSum(odds: seq<real>, streams: Streams, size: nat, shares: seq<nat>, n: nat)
    requires n <= |shares|
    ensures TotalShares(Batches(odds, streams, size, shares, n)) == Sum(shares, n)
  {
    if n > 0 {
      BatchesSum(odds, streams, size, shares, n - 1);
      var bs := Batches(odds, streams, size, shares, n);
      assert bs[..n - 1] == Batches(odds, streams, size, shares, n - 1);
    }
  }

  lemma {:induction false} SharesAt(runs: nat, workers: nat, n: nat, w: nat)
    requires workers > 0 && w < n
    ensures Shares(runs, workers, n)[w] == Share(runs, workers, w)
  {
    if w < n - 1 {
      SharesAt(runs, workers, n - 1, w);
    }
  }

  lemma {:induction false} SharesSumTo(runs: nat, workers: nat, n: nat, k: nat)
    requires workers > 0 && k <= n <= workers
    ensures Sum(Shares(runs, workers, n), k) == k * (runs / workers) + if k < runs % workers then k else runs % workers
  {
    if k > 0 {
      SharesSumTo(runs, workers, n, k - 1);
      SharesAt(runs, workers, n, k - 1);
      OneMoreTime(k, runs / workers);
    }
  }

  lemma {:induction false} Division(runs: nat, workers: nat)
    requires workers > 0
    ensures workers * (runs / workers) + runs % workers == runs
  {
  }

  /** The workers' shares are the runs, all of them and no more. */
  lemma {:induction false} SharesAreTheRuns(odds: seq<real>, streams: Streams, size: nat, runs: nat, procs: nat)
    requires procs > 0 && runs > 0
    ensures TotalShares(AllBatches(odds, streams, size, runs, procs)) == runs
  {
    var workers := Workers(procs, runs);
    BatchesSum(odds, streams, size, Shares(runs, workers, workers), workers);
    SharesSumTo(runs, workers, workers, workers);
    Division(runs, workers);
  }

  // ---------------------------------------------------------------- the result

  function ReachedIn(row: Odds, r: nat): real {
    if r < |row.reached| then row.reached[r] else 0.0
  }

  /** The chances of winning round `r`, added up over the rows. */
  function SumReached(odds: seq<Odds>, r: nat): real {
    if odds == [] then 0.0 else SumReached(odds[..|odds| - 1], r) + ReachedIn(odds[|odds| - 1], r)
  }

  function SumTitles(odds: seq<Odds>): real {
    if odds == [] then 0.0 else SumTitles(odds[..|odds| - 1]) + odds[|odds| - 1].title
  }

  lemma {:induction false} ReachedAt(batches: seq<Batch>, rounds: nat, runs: nat, e: nat, n: nat, r: nat)
    requires runs > 0 && r < n <= rounds
    ensures ReachedTo(batches, rounds, runs, e, n)[r] == TotalWins(batches, rounds, e, r) as real / runs as real
  {
    if r < n - 1 {
      ReachedAt(batches, rounds, runs, e, n - 1, r);
    }
  }

  /** Every row is of a real entrant, its title the last of its rounds. */
  ghost predicate RowFits(row: Odds, rounds: nat) {
    |row.reached| == rounds > 0 && row.title == row.reached[rounds - 1] && !Bye(row.entrant)
  }

  lemma {:induction false} RowsFit(b: Bracket, batches: seq<Batch>, runs: nat, n: nat)
    requires runs > 0 && n <= b.Size() && b.rounds != []
    ensures forall i | 0 <= i < |Rows(b, batches, runs, n)| :: RowFits(Rows(b, batches, runs, n)[i], |b.rounds|)
  {
    if n > 0 {
      RowsFit(b, batches, runs, n - 1);
    }
  }

  function Divider(z: int): int -> real
    requires z > 0
  {
    x => x as real / z as real
  }

  /** A quotient by way of a function value, so that adding rows up divides only by asking. */
  function Fraction(x: nat, z: nat): real
    requires z > 0
  {
    Divider(z)(x)
  }

  lemma {:induction false} SameDivisor(x: nat, y: nat, z: nat)
    requires z > 0
    ensures Fraction(x, z) + Fraction(y, z) == Fraction(x + y, z)
  {
  }

  lemma {:induction false} NoneOf(z: nat)
    requires z > 0
    ensures Fraction(0, z) == 0.0
  {
  }

  /** What the line after `n` rows adds to their sum: its share of the wins, nothing for a bye. */
  lemma {:induction false} RowAdds(b: Bracket, win: WinFunc, batches: seq<Batch>, runs: nat, r: nat, n: nat)
    requires Drawn(b) && AllDeciding(batches, b, win) && runs > 0 && n < b.Size() && r < |b.rounds|
    ensures SumReached(Rows(b, batches, runs, n + 1), r)
         == SumReached(Rows(b, batches, runs, n), r) + Fraction(TotalWins(batches, |b.rounds|, n, r), runs)
  {
    if Bye(b.entrants[n]) {
      ByesTotalNothing(b, win, batches, n, r);
      NoneOf(runs);
    } else {
      var rows := Rows(b, batches, runs, n + 1);
      assert rows[..|rows| - 1] == Rows(b, batches, runs, n);
      ReachedAt(batches, |b.rounds|, runs, n, |b.rounds|, r);
    }
  }

  lemma {:induction false} FractionNext(batches: seq<Batch>, rounds: nat, r: nat, n: nat, runs: nat)
    requires r < rounds && runs > 0
    ensures Fraction(SumWins(batches, rounds, r, n + 1), runs)
         == Fraction(SumWins(batches, rounds, r, n), runs) + Fraction(TotalWins(batches, rounds, n, r), runs)
  {
    SameDivisor(SumWins(batches, rounds, r, n), TotalWins(batches, rounds, n, r), runs);
  }

  lemma {:induction false} RowsSum(b: Bracket, win: WinFunc, batches: seq<Batch>, runs: nat, r: nat, n: nat)
    requires Drawn(b) && AllDeciding(batches, b, win) && runs > 0 && n <= b.Size() && r < |b.rounds|
    ensures SumReached(Rows(b, batches, runs, n), r) == Fraction(SumWins(batches, |b.rounds|, r, n), runs)
  {
    if n == 0 {
      NoneOf(runs);
    } else {
      var k := n - 1;
      assert k + 1 == n;
      RowsSum(b, win, batches, runs, r, k);
      RowsSumNext(b, win, batches, runs, r, k);
    }
  }

  lemma {:induction false} RowsSumNext(b: Bracket, win: WinFunc, batches: seq<Batch>, runs: nat, r: nat, n: nat)
    requires Drawn(b) && AllDeciding(batches, b, win) && runs > 0 && n < b.Size() && r < |b.rounds|
    requires SumReached(Rows(b, batches, runs, n), r) == Fraction(SumWins(batches, |b.rounds|, r, n), runs)
    ensures SumReached(Rows(b, batches, runs, n + 1), r) == Fraction(SumWins(batches, |b.rounds|, r, n + 1), runs)
  {
    RowAdds(b, win, batches, runs, r, n);
    FractionNext(batches, |b.rounds|, r, n, runs);
  }

  lemma {:induction false} BatchesDecide(b: Bracket, win: WinFunc, odds: seq<real>, streams: Streams, shares: seq<nat>, n: nat)
    requires IsOdds(odds, b, win) && UnitStreams(streams) && n <= |shares|
    ensures AllDeciding(Batches(odds, streams, b.Size(), shares, n), b, win)
  {
    if n > 0 {
      BatchesDecide(b, win, odds, streams, shares, n - 1);
    }
  }

  lemma {:induction false} WholeNumber(k: nat, p: nat)
    requires k > 0
    ensures Fraction(k * p, k) == p as real
  {
  }

  /** Conservation: over the entrants, the chances of winning round r sum to the number of
      that round's matches, whatever the odds, the numbers drawn, and the split over workers. */
  lemma {:induction false} ReachedSumsToMatches(b: Bracket, win: WinFunc, odds: seq<real>, streams: Streams, runs: nat, procs: nat, r: nat)
    requires Drawn(b) && IsOdds(odds, b, win) && UnitStreams(streams) && runs > 0 && procs > 0 && r < |b.rounds|
    ensures var rows := Rows(b, AllBatches(odds, streams, b.Size(), runs, procs), runs, b.Size());
            && (forall i | 0 <= i < |rows| :: RowFits(rows[i], |b.rounds|))
            && SumReached(rows, r) == Pow2(|b.rounds| - (r + 1)) as real
  {
    var workers := Workers(procs, runs);
    var batches := AllBatches(odds, streams, b.Size(), runs, procs);
    BatchesDecide(b, win, odds, streams, Shares(runs, workers, workers), workers);
    RowsFit(b, batches, runs, b.Size());
    RowsSum(b, win, batches, runs, r, b.Size());
    WinsPerRound(batches, |b.rounds|, r);
    SharesAreTheRuns(odds, streams, b.Size(), runs, procs);
    WholeNumber(runs, Pow2(|b.rounds| - (r + 1)));
  }

  lemma {:induction false} TitlesAreLast(rows: seq<Odds>, rounds: nat)
    requires rounds > 0 && forall i | 0 <= i < |rows| :: RowFits(rows[i], rounds)
    ensures SumTitles(rows) == SumReached(rows, rounds - 1)
  {
    if rows != [] {
      assert forall i | 0 <= i < |rows| - 1 :: rows[..|rows| - 1][i] == rows[i];
      TitlesAreLast(rows[..|rows| - 1], rounds);
    }
  }

  /** Somebody wins the event: over the entrants the titles sum to one. */
  lemma {:induction false} TitlesSumToOne(b: Bracket, win: WinFunc, odds: seq<real>, streams: Streams, runs: nat, procs: nat)
    requires Drawn(b) && IsOdds(odds, b, win) && UnitStreams(streams) && runs > 0 && procs > 0
    ensures SumTitles(Rows(b, AllBatches(odds, streams, b.Size(), runs, procs), runs, b.Size())) == 1.0
  {
    ReachedSumsToMatches(b, win, odds, streams, runs, procs, |b.rounds| - 1);
    TitlesAreLast(Rows(b, AllBatches(odds, streams, b.Size(), runs, procs), runs, b.Size()), |b.rounds|);
  }

  // ---------------------------------------------------------------- each row

  lemma {:induction false} ScoredFalls(wins: Decider, rounds: nat, from: nat, e: nat, r: nat)
    requires r + 1 < rounds
    ensures Scored(wins, rounds, from, e, r + 1) <= Scored(wins, rounds, from, e, r)
  {
    ScoredIs(wins, rounds, from, e, r);
    ScoredIs(wins, rounds, from, e, r + 1);
    if e in Standing(wins, rounds, from, r + 2) {
      SurvivorsWereThere(wins, rounds, from, r + 1, e);
    }
  }

  lemma {:induction false} CountFalls(wins: Decider, rounds: nat, runs: nat, e: nat, r: nat)
    requires r + 1 < rounds
    ensures Count(wins, rounds, runs, e, r + 1) <= Count(wins, rounds, runs, e, r) <= runs
  {
    if runs > 0 {
      CountFalls(wins, rounds, runs - 1, e, r);
      ScoredFalls(wins, rounds, Start(rounds, runs - 1), e, r);
    }
  }

  lemma {:induction false} CountAtMost(wins: Decider, rounds: nat, runs: nat, e: nat, r: nat)
    requires r < rounds
    ensures Count(wins, rounds, runs, e, r) <= runs
  {
    if runs > 0 {
      CountAtMost(wins, rounds, runs - 1, e, r);
    }
  }

  lemma {:induction false} TotalFalls(batches: seq<Batch>, rounds: nat, e: nat, r: nat)
    requires r < rounds
    ensures TotalWins(batches, rounds, e, r) <= TotalShares(batches)
    ensures r + 1 < rounds ==> TotalWins(batches, rounds, e, r + 1) <= TotalWins(batches, rounds, e, r)
  {
    if batches != [] {
      var last := batches[|batches| - 1];
      TotalFalls(batches[..|batches| - 1], rounds, e, r);
      CountAtMost(last.wins, rounds, last.share, e, r);
      if r + 1 < rounds {
        CountFalls(last.wins, rounds, last.share, e, r);
      }
    }
  }

  lemma {:induction false} Ordered(x: nat, y: nat, z: nat)
    requires z > 0 && x <= y
    ensures 0.0 <= x as real / z as real <= y as real / z as real
    ensures y <= z ==> y as real / z as real <= 1.0
  {
  }

  /** An entrant is never likelier to win a round than the one before it, and every chance is one. */
  lemma {:induction false} ReachedNeverRises(odds: seq<real>, streams: Streams, rounds: nat, runs: nat, procs: nat, e: nat, r: nat)
    requires runs > 0 && procs > 0 && r < rounds
    ensures var reached := Reached(AllBatches(odds, streams, Pow2(rounds), runs, procs), rounds, runs, e);
            && 0.0 <= reached[r] <= 1.0
            && (r + 1 < rounds ==> reached[r + 1] <= reached[r])
  {
    var batches := AllBatches(odds, streams, Pow2(rounds), runs, procs);
    SharesAreTheRuns(odds, streams, Pow2(rounds), runs, procs);
    TotalFalls(batches, rounds, e, r);
    ReachedAt(batches, rounds, runs, e, rounds, r);
    Ordered(TotalWins(batches, rounds, e, r), TotalWins(batches, rounds, e, r), runs);
    if r + 1 < rounds {
      ReachedAt(batches, rounds, runs, e, rounds, r + 1);
      Ordered(TotalWins(batches, rounds, e, r + 1), TotalWins(batches, rounds, e, r), runs);
    }
  }

  /** How many of the first `n` lines are players'. */
  function Players(b: Bracket, n: nat): nat
    requires n <= b.Size()
  {
    if n == 0 then 0 else Players(b, n - 1) + if b.entrants[n - 1].playerId != 0 then 1 else 0
  }

  /** A row for each player, in the order of the lines, and each with its own line's figures: of
      all the runs, the share in which the line won each round, and the title the last of them. */
  lemma {:induction false} RowOfLine(b: Bracket, batches: seq<Batch>, runs: nat, n: nat, e: nat)
    requires runs > 0 && e < n <= b.Size() && b.rounds != [] && b.entrants[e].playerId != 0
    ensures |Rows(b, batches, runs, n)| == Players(b, n) && Players(b, e) < Players(b, n)
    ensures var row := Rows(b, batches, runs, n)[Players(b, e)];
            && row.entrant == b.entrants[e]
            && |row.reached| == |b.rounds| && row.title == row.reached[|b.rounds| - 1]
            && forall r | 0 <= r < |b.rounds| ::
                 row.reached[r] == TotalWins(batches, |b.rounds|, e, r) as real / runs as real
  {
    if e < n - 1 {
      RowOfLine(b, batches, runs, n - 1, e);
    } else {
      RowsCount(b, batches, runs, e);
      forall r | 0 <= r < |b.rounds|
        ensures Reached(batches, |b.rounds|, runs, e)[r] == TotalWins(batches, |b.rounds|, e, r) as real / runs as real
      {
        ReachedAt(batches, |b.rounds|, runs, e, |b.rounds|, r);
      }
    }
  }

  lemma {:induction false} RowsCount(b: Bracket, batches: seq<Batch>, runs: nat, n: nat)
    requires runs > 0 && n <= b.Size() && b.rounds != []
    ensures |Rows(b, batches, runs, n)| == Players(b, n)
  {
    if n > 0 {
      RowsCount(b, batches, runs, n - 1);
    }
  }

  // ---------------------------------------------------------------- a final between two

  /** How many of a worker's first `n` numbers lie below `p`. */
  function Below(streams: Streams, w: nat, n: nat, p: real): nat {
    if n == 0 then 0 else Below(streams, w, n - 1, p) + if streams(w, n - 1) < p then 1 else 0
  }

  /** The same over the first `n` of some workers, each drawing a number for each of its runs. */
  function BelowOf(streams: Streams, runs: nat, workers: nat, n: nat, p: real): nat
    requires workers > 0
  {
    if n == 0 then 0
    else BelowOf(streams, runs, workers, n - 1, p)
         + Below(streams, n - 1, runs / workers + (if n - 1 < runs % workers then 1 else 0), p)
  }

  lemma {:induction false} FinalWins(wins: Decider, runs: nat)
    requires wins.size == 2 && |wins.odds| == Cell(2, 0, 2)
    ensures |wins.odds| == 4 && Count(wins, 1, runs, 0, 0) == Below(wins.streams, wins.worker, runs, wins.odds[1])
  {
    CellIsFlat(2, 0, 2);
    assert Pow2(1) == 2;
    if runs > 0 {
      FinalWins(wins, runs - 1);
      StartIs(1, runs - 1);
      MatchDecided(wins, 1, runs - 1, 0, 0);
      ScoredIs(wins, 1, runs - 1, 0, 0);
      assert |Standing(wins, 1, runs - 1, 1)| == 1;
    }
  }

  lemma {:induction false} FinalsWon(odds: seq<real>, streams: Streams, runs: nat, workers: nat, n: nat)
    requires workers > 0 && n <= workers && |odds| == Cell(2, 0, 2)
    ensures |odds| == 4
    ensures TotalWins(Batches(odds, streams, 2, Shares(runs, workers, workers), n), 1, 0, 0)
         == BelowOf(streams, runs, workers, n, odds[1])
  {
    CellIsFlat(2, 0, 2);
    if n > 0 {
      var shares := Shares(runs, workers, workers);
      var bs := Batches(odds, streams, 2, shares, n);
      FinalsWon(odds, streams, runs, workers, n - 1);
      assert bs[..n - 1] == Batches(odds, streams, 2, shares, n - 1);
      SharesAt(runs, workers, workers, n - 1);
      FinalWins(bs[n - 1].wins, shares[n - 1]);
    }
  }

  /** A draw of two players: the first line's title is the share of the numbers drawn, one for
      each run, that lie below its chance of beating the second. */
  lemma {:induction false} TwoPlayerTitle(b: Bracket, win: WinFunc, odds: seq<real>, streams: Streams, runs: nat, procs: nat)
    requires b.Size() == 2 && |b.rounds| == 1 && b.entrants[0].playerId != 0 && b.entrants[1].playerId != 0
    requires IsOdds(odds, b, win) && runs > 0 && procs > 0
    ensures var rows := Rows(b, AllBatches(odds, streams, 2, runs, procs), runs, 2);
            var workers := if procs > runs then runs else procs;
            && |rows| == 2 && rows[0].entrant == b.entrants[0] && rows[1].entrant == b.entrants[1]
            && rows[0].title
               == BelowOf(streams, runs, workers, workers, win(b.entrants[0], b.entrants[1])) as real / runs as real
  {
    var batches, workers := AllBatches(odds, streams, 2, runs, procs), if procs > runs then runs else procs;
    RowOfLine(b, batches, runs, 2, 0);
    RowOfLine(b, batches, runs, 2, 1);
    PairingsAsked(odds, b, win, 0, 1);
    FinalsWon(odds, streams, runs, workers, workers);
    assert Players(b, 0) == 0 && Players(b, 1) == 1 && Players(b, 2) == 2;
  }
}
