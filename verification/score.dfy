/** A tennis score: its sets, how the match ended, and how both are printed
    (internal/score/score.go). */
module Scores {
  import opened Decimal
  import opened Text

  datatype Result<T> = Ok(value: T) | Malformed

  datatype Outcome = Complete | Retired | Walkover | Defaulted | Abandoned | Unknown

  /** One set, always from the match winner's side. */
  datatype Set = Set(gamesWinner: int, gamesLoser: int, tiebreakWinner: int, tiebreakLoser: int, superTiebreak: bool) {
    predicate HasTiebreak() {
      tiebreakWinner > 0 || tiebreakLoser > 0
    }

    function Games(): string {
      Itoa(gamesWinner) + "-" + Itoa(gamesLoser)
    }

    function Print(): string {
      if superTiebreak then "[" + Itoa(tiebreakWinner) + "-" + Itoa(tiebreakLoser) + "]"
      else if !HasTiebreak() then Games()
      else if tiebreakWinner == ImpliedTiebreakWinner(tiebreakLoser) then Games() + "(" + Itoa(tiebreakLoser) + ")"
      else Games() + "(" + Itoa(tiebreakWinner) + "-" + Itoa(tiebreakLoser) + ")"
    }
  }

  datatype Score = Score(sets: seq<Set>, outcome: Outcome, raw: string) {
    function Print(): string {
      Join(Prints(sets) + Suffix(outcome), " ")
    }
  }

  const MAX_GAMES := 99

  /** What a tiebreak's winner must have, given its loser's points: first to seven, win by two. */
  function ImpliedTiebreakWinner(loser: int): int {
    if loser + 2 > 7 then loser + 2 else 7
  }

  function Prints(sets: seq<Set>): (r: seq<string>)
    ensures |r| == |sets|
  {
    seq(|sets|, i requires 0 <= i < |sets| => sets[i].Print())
  }

  /** The status word printed after the sets, if the outcome has one. */
  function Suffix(outcome: Outcome): seq<string> {
    match outcome
    case Retired => ["RET"]
    case Walkover => ["W/O"]
    case Defaulted => ["DEF"]
    case Unknown => ["UNK"]
    case Complete | Abandoned => []
  }

  /** Printing a score, a part at a time. */
  method PrintScore(score: Score) returns (line: string)
    ensures line == score.Print()
  {
    var parts: seq<string> := [];
    for i := 0 to |score.sets|
      invariant parts == Prints(score.sets[..i])
    {
      assert Prints(score.sets[..i + 1]) == Prints(score.sets[..i]) + [score.sets[i].Print()];
      parts := parts + [score.sets[i].Print()];
    }
    assert score.sets[..|score.sets|] == score.sets;
    if Suffix(score.outcome) != [] {
      parts := parts + Suffix(score.outcome);
    }
    assert Suffix(score.outcome) == [] ==> parts + Suffix(score.outcome) == parts;
    line := Join(parts, " ");
  }

  /** A set as the parser can produce one. */
  predicate Readable(s: Set) {
    if s.superTiebreak then
      && s.gamesWinner == 0 && s.gamesLoser == 0
      && 0 <= s.tiebreakWinner <= MAX_GAMES && 0 <= s.tiebreakLoser <= MAX_GAMES
    else
      && 0 <= s.gamesWinner <= MAX_GAMES && 0 <= s.gamesLoser <= MAX_GAMES
      && 0 <= s.tiebreakLoser <= MAX_GAMES
      && (0 <= s.tiebreakWinner <= MAX_GAMES || s.tiebreakWinner == ImpliedTiebreakWinner(s.tiebreakLoser))
  }

  ghost predicate AllReadable(sets: seq<Set>) {
    forall i | 0 <= i < |sets| :: Readable(sets[i])
  }
}
