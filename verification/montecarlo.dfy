/** Playing a rebuilt draw to its end, many times (internal/simulate/montecarlo.go). */
module DrawOdds {
  import opened Brackets

  type WinFunc = (Entrant, Entrant) -> real

  predicate Bye(e: Entrant) {
    e.playerId == 0
  }

  /** A draw the simulation can play: a full tree, with a player in every first-round pair. */
  ghost predicate Drawn(b: Bracket) {
    && b.rounds != [] && b.Size() == Pow2(|b.rounds|)
    && forall i | 0 <= i < b.Size() / 2 && 2 * i + 1 < b.Size() :: !(Bye(b.entrants[2 * i]) && Bye(b.entrants[2 * i + 1]))
  }

  // ---------------------------------------------------------------- a table in one slice

  /** Where row `i`, column `j` of a table with rows of `n` is kept: at `i * n + j`. */
  function Cell(i: nat, j: nat, n: nat): (at: nat)
    ensures at >= j
  {
    if i == 0 then j else n + Cell(i - 1, j, n)
  }

  lemma {:induction false} CellIsFlat(i: nat, j: nat, n: nat)
    ensures Cell(i, j, n) == i * n + j
  {
    if i > 0 {
      CellIsFlat(i - 1, j, n);
    }
  }

  lemma {:induction false} CellFits(i: nat, j: nat, n: nat, rows: nat)
    requires i < rows && j < n
    ensures Cell(i, j, n) < Cell(rows, 0, n)
  {
    if i > 0 {
      CellFits(i - 1, j, n, rows - 1);
    }
  }

  lemma {:induction false} CellsDiffer(i: nat, j: nat, x: nat, y: nat, n: nat)
    requires j < n && y < n && Cell(i, j, n) == Cell(x, y, n)
    ensures i == x && j == y
  {
    if i > 0 && x > 0 {
      CellsDiffer(i - 1, j, x - 1, y, n);
    }
  }

  // ---------------------------------------------------------------- the odds of a pairing

  /** What is stored for a pairing, the lower line first. */
  function Chance(b: Bracket, win: WinFunc, i: nat, j: nat): real
    requires i < j < b.Size()
  {
    if Bye(b.entrants[i]) then 0.0
    else if Bye(b.entrants[j]) then 1.0
    else win(b.entrants[i], b.entrants[j])
  }

  function OddsOf(b: Bracket, win: WinFunc, i: nat, j: nat): real
    requires i < b.Size() && j < b.Size()
  {
    if i < j then Chance(b, win, i, j) else if j < i then 1.0 - Chance(b, win, j, i) else 0.0
  }

  ghost predicate Holds(p: array<real>, b: Bracket, win: WinFunc, i: nat, j: nat)
    requires i < b.Size() && j < b.Size()
    reads p
  {
    Cell(i, j, b.Size()) < p.Length && p[Cell(i, j, b.Size())] == OddsOf(b, win, i, j)
  }

  /** Writes a pairing and its mirror, and nothing else. */
  method StorePair(p: array<real>, b: Bracket, win: WinFunc, i: nat, j: nat)
    requires i < j < b.Size() && p.Length == Cell(b.Size(), 0, b.Size())
    modifies p
    ensures Holds(p, b, win, i, j) && Holds(p, b, win, j, i)
    ensures !Bye(b.entrants[i]) && !Bye(b.entrants[j]) ==>
              && p[Cell(i, j, b.Size())] == win(b.entrants[i], b.entrants[j])
              && p[Cell(j, i, b.Size())] == 1.0 - win(b.entrants[i], b.entrants[j])
    ensures forall x, y | 0 <= x < b.Size() && 0 <= y < b.Size() && {x, y} != {i, j} && old(Holds(p, b, win, x, y)) ::
              Holds(p, b, win, x, y)
  {
    var size := b.Size();
    var v := 1.0;
    if Bye(b.entrants[i]) {
      v := 0.0;
    } else if Bye(b.entrants[j]) {
    } else {
      v := win(b.entrants[i], b.entrants[j]);
    }
    CellFits(i, j, size, size);
    CellFits(j, i, size, size);
    p[Cell(i, j, size)] := v;
    p[Cell(j, i, size)] := 1.0 - v;
    if Cell(i, j, size) == Cell(j, i, size) {
      CellsDiffer(i, j, j, i, size);
    }
    forall x, y | 0 <= x < size && 0 <= y < size && {x, y} != {i, j} && old(Holds(p, b, win, x, y))
      ensures Holds(p, b, win, x, y)
    {
      assert x in {x, y} && y in {x, y};
      if Cell(x, y, size) == Cell(i, j, size) {
        CellsDiffer(x, y, i, j, size);
      }
      if Cell(x, y, size) == Cell(j, i, size) {
        CellsDiffer(x, y, j, i, size);
      }
    }
  }

  /** The pairing odds of a draw, as they are kept. */
  ghost predicate IsOdds(odds: seq<real>, b: Bracket, win: WinFunc) {
    && |odds| == Cell(b.Size(), 0, b.Size())
    && forall i, j | 0 <= i < b.Size() && 0 <= j < b.Size() && Cell(i, j, b.Size()) < |odds| ::
         odds[Cell(i, j, b.Size())] == OddsOf(b, win, i, j)
  }

  /** For two players the callback is asked once, the lower line first, and its answer is kept
      in the lower line's row; the other has one minus it. Byes lose, and it is not asked. */
  lemma {:induction false} PairingsAsked(odds: seq<real>, b: Bracket, win: WinFunc, i: nat, j: nat)
    requires IsOdds(odds, b, win) && i < j < b.Size()
    ensures var n, e, f := b.Size(), b.entrants[i], b.entrants[j];
            && 0 <= i * n + j < |odds| && 0 <= j * n + i < |odds|
            && odds[i * n + j] + odds[j * n + i] == 1.0
            && (e.playerId != 0 && f.playerId != 0 ==> odds[i * n + j] == win(e, f))
            && (e.playerId == 0 ==> odds[i * n + j] == 0.0)
            && (e.playerId != 0 && f.playerId == 0 ==> odds[i * n + j] == 1.0)
  {
    var n := b.Size();
    CellFits(i, j, n, n);
    CellFits(j, i, n, n);
    CellIsFlat(i, j, n);
    CellIsFlat(j, i, n);
    assert odds[Cell(i, j, n)] == OddsOf(b, win, i, j);
    assert odds[Cell(j, i, n)] == OddsOf(b, win, j, i);
  }

  lemma {:induction false} HeldAreOdds(p: array<real>, b: Bracket, win: WinFunc)
    requires p.Length == Cell(b.Size(), 0, b.Size())
    requires forall i, j | 0 <= i < b.Size() && 0 <= j < b.Size() :: Holds(p, b, win, i, j)
    ensures IsOdds(p[..], b, win)
  {
    forall i, j | 0 <= i < b.Size() && 0 <= j < b.Size() && Cell(i, j, b.Size()) < p.Length
      ensures p[..][Cell(i, j, b.Size())] == OddsOf(b, win, i, j)
    {
      assert Holds(p, b, win, i, j);
    }
  }

  /** Every pairing, asked for once and mirrored. */
  method NewPairOdds(b: Bracket, win: WinFunc) returns (p: array<real>)
    ensures fresh(p) && p.Length == Cell(b.Size(), 0, b.Size())
    ensures IsOdds(p[..], b, win)
  {
    var size := b.Size();
    p := new real[Cell(size, 0, size)](_ => 0.0);
    forall i | 0 <= i < size
      ensures Holds(p, b, win, i, i)
    {
      CellFits(i, i, size, size);
    }
    for i := 0 to size
      invariant forall x | 0 <= x < size :: Holds(p, b, win, x, x)
      invariant forall x, y | 0 <= x < i && x < y < size :: Holds(p, b, win, x, y) && Holds(p, b, win, y, x)
    {
      for j := i + 1 to size
        invariant forall x | 0 <= x < size :: Holds(p, b, win, x, x)
        invariant forall x, y | 0 <= x < i && x < y < size :: Holds(p, b, win, x, y) && Holds(p, b, win, y, x)
        invariant forall y | i < y < j :: Holds(p, b, win, i, y) && Holds(p, b, win, y, i)
      {
        StorePair(p, b, win, i, j);
      }
    }
    HeldAreOdds(p, b, win);
  }

  // ---------------------------------------------------------------- one run

  /** The numbers a simulation draws: the `n`-th of worker `w`. */
  type Streams = (int, int) -> real

  function Draw(streams: Streams, w: nat, n: nat): real {
    streams(w, n)
  }

  /** What decides a worker's matches: the odds as they are kept, and the worker's numbers. */
  datatype Decider = Decider(odds: seq<real>, streams: Streams, worker: nat, size: nat) {
    /** Whether line `a` beats line `c` when the `n`-th number decides it. */
    predicate Beats(n: nat, a: nat, c: nat) {
      Cell(a, c, size) < |odds| && Draw(streams, worker, n) < odds[Cell(a, c, size)]
    }
  }

  function Winner(wins: Decider, n: nat, a: nat, c: nat): nat {
    if wins.Beats(n, a, c) then a else c
  }

  /** The first `n` matches of a round: positions 2i and 2i+1 meet, and the winner lands at i. */
  function Matches(wins: Decider, from: nat, field: seq<nat>, n: nat): (next: seq<nat>)
    requires n <= |field| / 2
    ensures |next| == n
  {
    if n == 0 then []
    else Matches(wins, from, field, n - 1) + [Winner(wins, from + n - 1, field[2 * n - 2], field[2 * n - 1])]
  }

  function Round(wins: Decider, from: nat, field: seq<nat>): (next: seq<nat>)
    ensures |next| == |field| / 2
  {
    Matches(wins, from, field, |field| / 2)
  }

  lemma {:induction false} MatchesAt(wins: Decider, from: nat, field: seq<nat>, n: nat, i: nat)
    requires i < n <= |field| / 2
    ensures Matches(wins, from, field, n)[i] == Winner(wins, from + i, field[2 * i], field[2 * i + 1])
  {
    if i < n - 1 {
      MatchesAt(wins, from, field, n - 1, i);
    }
  }

  /** At position i of the next field, the winner between positions 2i and 2i+1. */
  lemma {:induction false} RoundAt(wins: Decider, from: nat, field: seq<nat>, i: nat)
    requires i < |field| / 2
    ensures Round(wins, from, field)[i] == Winner(wins, from + i, field[2 * i], field[2 * i + 1])
  {
    MatchesAt(wins, from, field, |field| / 2, i);
  }

  /** How many numbers the first `r` rounds use: one for each match. */
  function Spent(rounds: nat, r: nat): nat
    requires r <= rounds
  {
    if r == 0 then 0 else Spent(rounds, r - 1) + Pow2(rounds - r)
  }

  lemma {:induction false} SpentIs(rounds: nat, r: nat)
    requires r <= rounds
    ensures Spent(rounds, r) + Pow2(rounds - r) == Pow2(rounds)
  {
    if r > 0 {
      SpentIs(rounds, r - 1);
    }
  }

  function Lines(n: nat): (field: seq<nat>)
    ensures |field| == n
  {
    if n == 0 then [] else Lines(n - 1) + [n - 1]
  }

  /** The lines still standing after `r` rounds of a run whose numbers start at `from`. */
  function Standing(wins: Decider, rounds: nat, from: nat, r: nat): (field: seq<nat>)
    requires r <= rounds
    ensures |field| == Pow2(rounds - r)
  {
    if r == 0 then Lines(Pow2(rounds))
    else Round(wins, from + Spent(rounds, r - 1), Standing(wins, rounds, from, r - 1))
  }

  function Scored(wins: Decider, rounds: nat, from: nat, e: nat, r: nat): nat
    requires r < rounds
  {
    if e in Standing(wins, rounds, from, r + 1) then 1 else 0
  }

  /** A worker's own numbers, each used once. */
  class Stream {
    const streams: Streams
    const worker: nat
    var used: nat

    constructor (streams: Streams, worker: nat)
      ensures this.streams == streams && this.worker == worker && used == 0
    {
      this.streams := streams;
      this.worker := worker;
      used := 0;
    }

    method Float64() returns (u: real)
      modifies this
      ensures u == Draw(streams, worker, old(used)) && used == old(used) + 1
    {
      u := Draw(streams, worker, used);
      used := used + 1;
    }
  }

  /** Which block of 2^r lines a line is in: its index, halved with each round. */
  function BlockOf(e: nat, r: nat): nat {
    if r == 0 then e else BlockOf(e, r - 1) / 2
  }

  /** A field `r` rounds in: at position i, a line from the i-th block of 2^r lines. */
  ghost predicate InBlocks(field: seq<nat>, size: nat, r: nat) {
    forall i | 0 <= i < |field| :: field[i] < size && BlockOf(field[i], r) == i
  }

  /** One match, in place: the winner is written where its pair's index halves to. */
  method PlayMatch(odds: array<real>, size: nat, rng: Stream, field: array<nat>, i: nat) returns (winner: nat)
    requires 2 * i + 1 < field.Length && field[2 * i] < size && field[2 * i + 1] < size
    requires odds.Length == Cell(size, 0, size)
    modifies rng, field
    ensures winner == Winner(Decider(odds[..], rng.streams, rng.worker, size), old(rng.used), old(field[2 * i]), old(field[2 * i + 1]))
    ensures rng.used == old(rng.used) + 1
    ensures field[i] == winner && forall k | 0 <= k < field.Length && k != i :: field[k] == old(field[k])
  {
    var a, c := field[2 * i], field[2 * i + 1];
    winner := c;
    var u := rng.Float64();
    CellFits(a, c, size, size);
    if u < odds[Cell(a, c, size)] {
      winner := a;
    }
    field[i] := winner;
  }

  /** What a round adds to the tally: one in its own column for each of `winners`. */
  ghost predicate Added(tally: seq<nat>, before: seq<nat>, size: nat, rounds: nat, r: nat, winners: seq<nat>)
    requires r < rounds && |tally| == |before| == Cell(size, 0, rounds)
  {
    forall e, q | 0 <= e < size && 0 <= q < rounds && Cell(e, q, rounds) < |tally| ::
      tally[Cell(e, q, rounds)] == before[Cell(e, q, rounds)] + if q == r && e in winners then 1 else 0
  }

  lemma {:induction false} AddedOneMore(tally: seq<nat>, before: seq<nat>, size: nat, rounds: nat, r: nat, winners: seq<nat>, w: nat)
    requires r < rounds && |tally| == |before| == Cell(size, 0, rounds)
    requires Added(tally, before, size, rounds, r, winners) && w !in winners && w < size
    ensures Cell(w, r, rounds) < |tally|
    ensures Added(tally[Cell(w, r, rounds) := tally[Cell(w, r, rounds)] + 1], before, size, rounds, r, winners + [w])
  {
    CellFits(w, r, rounds, size);
    var after := tally[Cell(w, r, rounds) := tally[Cell(w, r, rounds)] + 1];
    forall e, q | 0 <= e < size && 0 <= q < rounds && Cell(e, q, rounds) < |tally|
      ensures after[Cell(e, q, rounds)] == before[Cell(e, q, rounds)] + if q == r && e in winners + [w] then 1 else 0
    {
      if Cell(e, q, rounds) == Cell(w, r, rounds) {
        CellsDiffer(e, q, w, r, rounds);
      }
    }
  }

  /** The winner of a pair of blocks is from the block they make together. */
  lemma {:induction false} RoundInBlocks(wins: Decider, from: nat, field: seq<nat>, size: nat, r: nat)
    requires InBlocks(field, size, r)
    ensures InBlocks(Round(wins, from, field), size, r + 1)
  {
    var next := Round(wins, from, field);
    forall i | 0 <= i < |next|
      ensures next[i] < size && BlockOf(next[i], r + 1) == i
    {
      RoundAt(wins, from, field, i);
    }
  }

  /** So it is nobody who won before it in the round. */
  lemma {:induction false} NotYetAWinner(winners: seq<nat>, size: nat, r: nat, i: nat)
    requires i < |winners| && InBlocks(winners, size, r)
    ensures winners[i] !in winners[..i]
  {
  }

  /** Adds one to a winner's cell for round `r`. */
  method Score(tally: array<nat>, winner: nat, size: nat, rounds: nat, r: nat, ghost before: seq<nat>, ghost winners: seq<nat>)
    requires r < rounds && winner < size && tally.Length == |before| == Cell(size, 0, rounds)
    requires Added(tally[..], before, size, rounds, r, winners) && winner !in winners
    modifies tally
    ensures Added(tally[..], before, size, rounds, r, winners + [winner])
  {
    AddedOneMore(tally[..], before, size, rounds, r, winners, winner);
    tally[Cell(winner, r, rounds)] := tally[Cell(winner, r, rounds)] + 1;
  }

  lemma {:induction false} OneMoreWinner(wins: Decider, now: nat, start: seq<nat>, size: nat, r: nat, i: nat)
    requires InBlocks(start, size, r) && i < |start| / 2
    ensures var next := Round(wins, now, start);
            && next[i] == Winner(wins, now + i, start[2 * i], start[2 * i + 1])
            && next[i] !in next[..i] && next[i] < size && next[..i + 1] == next[..i] + [next[i]]
  {
    RoundAt(wins, now, start, i);
    RoundInBlocks(wins, now, start, size, r);
    NotYetAWinner(Round(wins, now, start), size, r + 1, i);
  }

  /** A round in place. Each pair is read before its winner overwrites a lower position. */
  method PlayRound(odds: array<real>, size: nat, rng: Stream, field: array<nat>, tally: array<nat>,
                   alive: nat, r: nat, rounds: nat)
    requires r < rounds && alive % 2 == 0 && alive <= field.Length && tally != field
    requires odds.Length == Cell(size, 0, size) && tally.Length == Cell(size, 0, rounds)
    requires InBlocks(field[..alive], size, r)
    modifies rng, field, tally
    ensures rng.used == old(rng.used) + alive / 2
    ensures field[..alive / 2] == Round(Decider(odds[..], rng.streams, rng.worker, size), old(rng.used), old(field[..alive]))
    ensures Added(tally[..], old(tally[..]), size, rounds, r, field[..alive / 2])
  {
    ghost var wins, start, now := Decider(odds[..], rng.streams, rng.worker, size), field[..alive], rng.used;
    ghost var next, before := Round(wins, now, start), tally[..];
    for i := 0 to alive / 2
      invariant rng.used == now + i
      invariant forall k | 0 <= k < i :: field[k] == next[k]
      invariant forall k | i <= k < alive :: field[k] == start[k]
      invariant Added(tally[..], before, size, rounds, r, next[..i])
    {
      OneMoreWinner(wins, now, start, size, r, i);
      assert field[2 * i] == start[2 * i] < size && field[2 * i + 1] == start[2 * i + 1] < size;
      var winner := PlayMatch(odds, size, rng, field, i);
      Score(tally, winner, size, rounds, r, before, next[..i]);
    }
    assert next[..alive / 2] == next;
    assert field[..alive / 2] == next;
  }

  // ---------------------------------------------------------------- many runs

  /** A tally after some runs: in each cell, how often that line won that round. */
  ghost predicate Tallied(tally: seq<nat>, wins: Decider, rounds: nat, runs: nat)
    requires |tally| == Cell(Pow2(rounds), 0, rounds)
  {
    forall e, r | 0 <= e < Pow2(rounds) && 0 <= r < rounds && Cell(e, r, rounds) < |tally| ::
      tally[Cell(e, r, rounds)] == Count(wins, rounds, runs, e, r)
  }

  /** Where in its stream a worker's `k`-th run starts. */
  function Start(rounds: nat, k: nat): nat {
    if k == 0 then 0 else Start(rounds, k - 1) + Spent(rounds, rounds)
  }

  /** In how many of a worker's first runs line `e` wins round `r`. */
  function Count(wins: Decider, rounds: nat, runs: nat, e: nat, r: nat): nat
    requires r < rounds
  {
    if runs == 0 then 0
    else Count(wins, rounds, runs - 1, e, r) + Scored(wins, rounds, Start(rounds, runs - 1), e, r)
  }

  /** Partway through a run: the first `r` rounds are in the tally. */
  ghost predicate Scoring(tally: seq<nat>, before: seq<nat>, wins: Decider, rounds: nat, from: nat, r: nat)
    requires r <= rounds && |tally| == |before| == Cell(Pow2(rounds), 0, rounds)
  {
    forall e, q | 0 <= e < Pow2(rounds) && 0 <= q < rounds && Cell(e, q, rounds) < |tally| ::
      tally[Cell(e, q, rounds)] == before[Cell(e, q, rounds)] + if q < r then Scored(wins, rounds, from, e, q) else 0
  }

  lemma {:induction false} LineAt(n: nat, i: nat)
    requires i < n
    ensures Lines(n)[i] == i
  {
    if i < n - 1 {
      LineAt(n - 1, i);
    }
  }

  lemma {:induction false} StandingInBlocks(wins: Decider, rounds: nat, from: nat, r: nat)
    requires r <= rounds
    ensures InBlocks(Standing(wins, rounds, from, r), Pow2(rounds), r)
  {
    if r == 0 {
      forall i | 0 <= i < Pow2(rounds)
        ensures Lines(Pow2(rounds))[i] == i
      {
        LineAt(Pow2(rounds), i);
      }
    } else {
      StandingInBlocks(wins, rounds, from, r - 1);
      RoundInBlocks(wins, from + Spent(rounds, r - 1), Standing(wins, rounds, from, r - 1), Pow2(rounds), r - 1);
    }
  }

  lemma {:induction false} StandingNext(wins: Decider, rounds: nat, from: nat, r: nat)
    requires r < rounds
    ensures Standing(wins, rounds, from, r + 1) == Round(wins, from + Spent(rounds, r), Standing(wins, rounds, from, r))
    ensures Spent(rounds, r + 1) == Spent(rounds, r) + Pow2(rounds - (r + 1))
    ensures Pow2(rounds - r) == 2 * Pow2(rounds - (r + 1))
  {
  }

  /** A run underway: `r` rounds of it are played, in the field and in the tally. */
  ghost predicate Underway(used: nat, field: seq<nat>, tally: seq<nat>, before: seq<nat>, wins: Decider, rounds: nat,
                           from: nat, r: nat)
    requires r <= rounds && |tally| == |before| == Cell(Pow2(rounds), 0, rounds)
  {
    && used == from + Spent(rounds, r)
    && field == Standing(wins, rounds, from, r)
    && Scoring(tally, before, wins, rounds, from, r)
  }

  lemma {:induction false} ScoringNext(tally: seq<nat>, mid: seq<nat>, before: seq<nat>, wins: Decider, rounds: nat,
                                       from: nat, r: nat)
    requires r < rounds && |tally| == |mid| == |before| == Cell(Pow2(rounds), 0, rounds)
    requires Scoring(mid, before, wins, rounds, from, r)
    requires Added(tally, mid, Pow2(rounds), rounds, r, Standing(wins, rounds, from, r + 1))
    ensures Scoring(tally, before, wins, rounds, from, r + 1)
  {
    forall e, q | 0 <= e < Pow2(rounds) && 0 <= q < rounds && Cell(e, q, rounds) < |tally|
      ensures tally[Cell(e, q, rounds)]
           == before[Cell(e, q, rounds)] + if q < r + 1 then Scored(wins, rounds, from, e, q) else 0
    {
      ScoredIs(wins, rounds, from, e, q);
    }
  }

  lemma {:induction false} ScoredIs(wins: Decider, rounds: nat, from: nat, e: nat, r: nat)
    requires r < rounds
    ensures Scored(wins, rounds, from, e, r) == if e in Standing(wins, rounds, from, r + 1) then 1 else 0
  {
  }

  lemma {:induction false} UnderwayNext(used: nat, field: seq<nat>, mid: seq<nat>, tally: seq<nat>, before: seq<nat>,
                                        wins: Decider, rounds: nat, from: nat, r: nat)
    requires r < rounds && |tally| == |mid| == |before| == Cell(Pow2(rounds), 0, rounds)
    requires Underway(used, field, mid, before, wins, rounds, from, r)
    requires Added(tally, mid, Pow2(rounds), rounds, r, Round(wins, used, field))
    ensures Underway(used + |field| / 2, Round(wins, used, field), tally, before, wins, rounds, from, r + 1)
  {
    StandingNext(wins, rounds, from, r);
    ScoringNext(tally, mid, before, wins, rounds, from, r);
  }

  lemma {:induction false} UnderwayField(used: nat, field: seq<nat>, tally: seq<nat>, before: seq<nat>, wins: Decider, rounds: nat, from: nat, r: nat)
    requires r < rounds && |tally| == |before| == Cell(Pow2(rounds), 0, rounds)
    requires Underway(used, field, tally, before, wins, rounds, from, r)
    ensures InBlocks(field, Pow2(rounds), r) && |field| % 2 == 0
  {
    StandingInBlocks(wins, rounds, from, r);
    StandingNext(wins, rounds, from, r);
  }

  /** Round `r` of a run that started at `from`, in place. */
  method PlayNext(odds: array<real>, rng: Stream, field: array<nat>, tally: array<nat>, alive: nat, r: nat, rounds: nat,
                  ghost wins: Decider, ghost from: nat, ghost before: seq<nat>)
    requires r < rounds && field != tally && alive <= field.Length
    requires odds.Length == Cell(Pow2(rounds), 0, Pow2(rounds)) && tally.Length == |before| == Cell(Pow2(rounds), 0, rounds)
    requires wins == Decider(odds[..], rng.streams, rng.worker, Pow2(rounds))
    requires Underway(rng.used, field[..alive], tally[..], before, wins, rounds, from, r)
    modifies rng, field, tally
    ensures Underway(rng.used, field[..alive / 2], tally[..], before, wins, rounds, from, r + 1)
  {
    ghost var mid, used, start := tally[..], rng.used, field[..alive];
    UnderwayField(used, start, mid, before, wins, rounds, from, r);
    PlayRound(odds, Pow2(rounds), rng, field, tally, alive, r, rounds);
    UnderwayNext(used, start, mid, tally[..], before, wins, rounds, from, r);
  }

  method Reset(field: array<nat>, rounds: nat)
    requires field.Length == Pow2(rounds)
    modifies field
    ensures field[..] == Lines(Pow2(rounds))
  {
    for i := 0 to field.Length
      invariant field[..i] == Lines(i)
    {
      field[i] := i;
      assert field[..i + 1] == field[..i] + [i];
    }
    assert field[..field.Length] == field[..];
  }

  /** One run of the whole draw, in place. */
  method PlayOnce(odds: array<real>, rng: Stream, field: array<nat>, tally: array<nat>, rounds: nat)
    requires field != tally && field.Length == Pow2(rounds)
    requires odds.Length == Cell(Pow2(rounds), 0, Pow2(rounds)) && tally.Length == Cell(Pow2(rounds), 0, rounds)
    modifies rng, field, tally
    ensures rng.used == old(rng.used) + Spent(rounds, rounds)
    ensures Scoring(tally[..], old(tally[..]), Decider(odds[..], rng.streams, rng.worker, Pow2(rounds)), rounds, old(rng.used), rounds)
  {
    ghost var wins, from, before := Decider(odds[..], rng.streams, rng.worker, Pow2(rounds)), rng.used, tally[..];
    Reset(field, rounds);
    var alive := field.Length;
    assert field[..alive] == field[..];
    for r := 0 to rounds
      invariant 0 <= alive <= field.Length && wins == Decider(odds[..], rng.streams, rng.worker, Pow2(rounds))
      invariant Underway(rng.used, field[..alive], tally[..], before, wins, rounds, from, r)
    {
      PlayNext(odds, rng, field, tally, alive, r, rounds, wins, from, before);
      alive := alive / 2;
    }
  }

  /** A worker underway: so many runs played and tallied, one after another on its stream. */
  ghost predicate Working(used: nat, tally: seq<nat>, wins: Decider, rounds: nat, runs: nat)
    requires |tally| == Cell(Pow2(rounds), 0, rounds)
  {
    used == Start(rounds, runs) && Tallied(tally, wins, rounds, runs)
  }

  lemma {:induction false} WorkingOn(used: nat, tally: seq<nat>, before: seq<nat>, wins: Decider, rounds: nat, runs: nat)
    requires |tally| == |before| == Cell(Pow2(rounds), 0, rounds)
    requires Working(used, before, wins, rounds, runs) && Scoring(tally, before, wins, rounds, used, rounds)
    ensures Working(used + Spent(rounds, rounds), tally, wins, rounds, runs + 1)
  {
  }

  /** One worker: its own stream, its share of the runs. */
  method Work(odds: array<real>, streams: Streams, w: nat, rounds: nat, share: nat) returns (tally: array<nat>)
    requires odds.Length == Cell(Pow2(rounds), 0, Pow2(rounds))
    ensures fresh(tally) && tally.Length == Cell(Pow2(rounds), 0, rounds)
    ensures Tallied(tally[..], Decider(odds[..], streams, w, Pow2(rounds)), rounds, share)
  {
    var rng := new Stream(streams, w);
    tally := new nat[Cell(Pow2(rounds), 0, rounds)](_ => 0);
    var field := new nat[Pow2(rounds)](_ => 0);
    ghost var wins := Decider(odds[..], streams, w, Pow2(rounds));
    assert Working(0, tally[..], wins, rounds, 0);
    for i := 0 to share
      invariant fresh(rng) && fresh(tally) && fresh(field) && rng.streams == streams && rng.worker == w
      invariant Working(rng.used, tally[..], wins, rounds, i)
    {
      ghost var used, before := rng.used, tally[..];
      PlayOnce(odds, rng, field, tally, rounds);
      WorkingOn(used, tally[..], before, wins, rounds, i);
    }
  }

  /** Which runs a worker plays, and how they are decided. */
  datatype Batch = Batch(wins: Decider, share: nat)

  function TotalWins(batches: seq<Batch>, rounds: nat, e: nat, r: nat): nat
    requires r < rounds
  {
    if batches == [] then 0
    else
      var last := batches[|batches| - 1];
      TotalWins(batches[..|batches| - 1], rounds, e, r) + Count(last.wins, rounds, last.share, e, r)
  }

  function TotalShares(batches: seq<Batch>): nat {
    if batches == [] then 0 else TotalShares(batches[..|batches| - 1]) + batches[|batches| - 1].share
  }

  /** How many of `runs` the worker `w` of `workers` plays. */
  function Share(runs: nat, workers: nat, w: nat): nat
    requires workers > 0
  {
    runs / workers + if w < runs % workers then 1 else 0
  }

  /** The shares of the first `n` workers. */
  function Shares(runs: nat, workers: nat, n: nat): (shares: seq<nat>)
    requires workers > 0
    ensures |shares| == n
  {
    if n == 0 then [] else Shares(runs, workers, n - 1) + [Share(runs, workers, n - 1)]
  }

  method SplitRuns(runs: nat, workers: nat) returns (shares: seq<nat>)
    requires workers > 0
    ensures shares == Shares(runs, workers, workers)
  {
    shares := [];
    for w := 0 to workers
      invariant shares == Shares(runs, workers, w)
    {
      var share := runs / workers;
      if w < runs % workers {
        share := share + 1;
      }
      shares := shares + [share];
    }
  }

  /** The first `n` workers of a simulation, each with its share and on a stream of its own. */
  function Batches(odds: seq<real>, streams: Streams, size: nat, shares: seq<nat>, n: nat): (bs: seq<Batch>)
    requires n <= |shares|
    ensures |bs| == n
  {
    if n == 0 then []
    else Batches(odds, streams, size, shares, n - 1) + [Batch(Decider(odds, streams, n - 1, size), shares[n - 1])]
  }

  ghost predicate Totalled(total: seq<nat>, batches: seq<Batch>, rounds: nat)
    requires |total| == Cell(Pow2(rounds), 0, rounds)
  {
    forall e, r | 0 <= e < Pow2(rounds) && 0 <= r < rounds && Cell(e, r, rounds) < |total| ::
      total[Cell(e, r, rounds)] == TotalWins(batches, rounds, e, r)
  }

  /** Adds one worker's counts to the total. */
  method AddTally(total: array<nat>, tally: array<nat>, ghost batches: seq<Batch>, ghost batch: Batch, rounds: nat)
    requires total != tally && total.Length == tally.Length == Cell(Pow2(rounds), 0, rounds)
    requires Totalled(total[..], batches, rounds) && Tallied(tally[..], batch.wins, rounds, batch.share)
    modifies total
    ensures Totalled(total[..], batches + [batch], rounds)
  {
    ghost var before := total[..];
    for i := 0 to total.Length
      invariant forall k | 0 <= k < i :: total[k] == before[k] + tally[k]
      invariant forall k | i <= k < total.Length :: total[k] == before[k]
    {
      total[i] := total[i] + tally[i];
    }
    assert (batches + [batch])[..|batches|] == batches;
  }

  /** What a simulation says about one entrant. */
  datatype Odds = Odds(entrant: Entrant, title: real, reached: seq<real>)

  datatype DrawResult = DrawResult(odds: seq<Odds>, runs: int, champion: int)

  /** The share of the runs in which a line won each of the first `n` rounds. */
  function ReachedTo(batches: seq<Batch>, rounds: nat, runs: nat, e: nat, n: nat): (r: seq<real>)
    requires runs > 0 && n <= rounds
    ensures |r| == n
  {
    if n == 0 then []
    else ReachedTo(batches, rounds, runs, e, n - 1) + [TotalWins(batches, rounds, e, n - 1) as real / runs as real]
  }

  function Reached(batches: seq<Batch>, rounds: nat, runs: nat, e: nat): (r: seq<real>)
    requires runs > 0
    ensures |r| == rounds
  {
    ReachedTo(batches, rounds, runs, e, rounds)
  }

  /** The rows of the first `n` lines, byes left out. */
  function Rows(b: Bracket, batches: seq<Batch>, runs: nat, n: nat): seq<Odds>
    requires runs > 0 && n <= b.Size() && b.rounds != []
  {
    if n == 0 then []
    else
      var rest, rounds := Rows(b, batches, runs, n - 1), |b.rounds|;
      var reached := Reached(batches, rounds, runs, n - 1);
      if Bye(b.entrants[n - 1]) then rest
      else rest + [Odds(b.entrants[n - 1], reached[rounds - 1], reached)]
  }

  const DEFAULT_RUNS := 10000

  /** The runs a simulation is of: a request for none is a request for the default. */
  function Runs(runs: int): (n: nat)
    ensures n > 0
  {
    if runs < 1 then DEFAULT_RUNS else runs
  }

  function Workers(procs: nat, runs: nat): nat {
    if procs > runs then runs else procs
  }

  /** The whole simulation: no more workers than runs. */
  function AllBatches(odds: seq<real>, streams: Streams, size: nat, runs: nat, procs: nat): seq<Batch>
    requires procs > 0 && runs > 0
  {
    var workers := Workers(procs, runs);
    Batches(odds, streams, size, Shares(runs, workers, workers), workers)
  }

  method SumTallies(p: array<real>, streams: Streams, rounds: nat, shares: seq<nat>) returns (total: array<nat>)
    requires p.Length == Cell(Pow2(rounds), 0, Pow2(rounds))
    ensures fresh(total) && total.Length == Cell(Pow2(rounds), 0, rounds)
    ensures Totalled(total[..], Batches(p[..], streams, Pow2(rounds), shares, |shares|), rounds)
  {
    total := new nat[Cell(Pow2(rounds), 0, rounds)](_ => 0);
    ghost var odds := p[..];
    for w := 0 to |shares|
      invariant fresh(total) && p[..] == odds
      invariant Totalled(total[..], Batches(odds, streams, Pow2(rounds), shares, w), rounds)
    {
      var tally := Work(p, streams, w, rounds, shares[w]);
      AddTally(total, tally, Batches(odds, streams, Pow2(rounds), shares, w),
               Batch(Decider(odds, streams, w, Pow2(rounds)), shares[w]), rounds);
    }
  }

  method WriteReached(total: array<nat>, ghost batches: seq<Batch>, rounds: nat, runs: nat, e: nat) returns (reached: seq<real>)
    requires runs > 0 && e < Pow2(rounds)
    requires total.Length == Cell(Pow2(rounds), 0, rounds) && Totalled(total[..], batches, rounds)
    ensures reached == Reached(batches, rounds, runs, e)
  {
    reached := [];
    for r := 0 to rounds
      invariant reached == ReachedTo(batches, rounds, runs, e, r)
    {
      CellFits(e, r, rounds, Pow2(rounds));
      assert total[..][Cell(e, r, rounds)] == TotalWins(batches, rounds, e, r);
      reached := reached + [total[Cell(e, r, rounds)] as real / runs as real];
    }
  }

  method WriteRows(b: Bracket, total: array<nat>, ghost batches: seq<Batch>, runs: nat) returns (odds: seq<Odds>)
    requires runs > 0 && b.rounds != [] && b.Size() == Pow2(|b.rounds|)
    requires total.Length == Cell(b.Size(), 0, |b.rounds|) && Totalled(total[..], batches, |b.rounds|)
    ensures odds == Rows(b, batches, runs, b.Size())
  {
    odds := [];
    for i := 0 to b.Size()
      invariant odds == Rows(b, batches, runs, i)
    {
      if !Bye(b.entrants[i]) {
        var reached := WriteReached(total, batches, |b.rounds|, runs, i);
        odds := odds + [Odds(b.entrants[i], reached[|b.rounds| - 1], reached)];
      }
    }
  }

  /** Plays a draw out many times, its runs split over workers whose streams are their own. */
  method RunDraw(b: Bracket, win: WinFunc, runs: int, streams: Streams, procs: nat) returns (result: DrawResult)
    requires procs > 0 && (b.Size() < 2 || b.rounds == [] || b.Size() == Pow2(|b.rounds|))
    ensures result.runs == (if runs < 1 then 10000 else runs) && result.champion == b.champion
    ensures b.Size() < 2 || b.rounds == [] ==> result.odds == []
    ensures b.Size() >= 2 && b.rounds != [] ==>
              exists odds :: IsOdds(odds, b, win)
                          && result.odds == Rows(b, AllBatches(odds, streams, b.Size(), Runs(runs), procs), Runs(runs), b.Size())
  {
    var n := Runs(runs);
    if b.Size() < 2 || |b.rounds| == 0 {
      return DrawResult([], n, b.champion);
    }
    var p := NewPairOdds(b, win);
    var workers := procs;
    if workers > n {
      workers := n;
    }
    ghost var odds := p[..];
    var shares := SplitRuns(n, workers);
    var total := SumTallies(p, streams, |b.rounds|, shares);
    ghost var batches := AllBatches(odds, streams, b.Size(), n, procs);
    var rows := WriteRows(b, total, batches, n);
    assert IsOdds(odds, b, win);
    return DrawResult(rows, n, b.champion);
  }
}
