/** Rebuilding a draw, downward from its final, out of an unordered list of matches. */
module Brackets {
  import opened Collections
  import opened Sorting

  datatype BracketMatch = BracketMatch(round: string, roundIdx: int, winner: int, loser: int)

  /** The zero entrant is a bye. */
  datatype Entrant = Entrant(playerId: int, slug: string, name: string, seed: int)

  const BYE := Entrant(0, "", "", 0)

  datatype Bracket = Bracket(entrants: seq<Entrant>, byes: int, rounds: seq<string>, champion: int) {
    function Size(): nat {
      |entrants|
    }

    function Entered(): int {
      |entrants| - byes
    }
  }

  datatype Error = NoMatches | NotPowerOfTwo | BrokenTree

  datatype Result<+T> = Ok(value: T) | Err(error: Error)

  /** A missing player is the zero entrant, as a missing map key is. */
  function Lookup(players: map<int, Entrant>, id: int): Entrant {
    if id in players then players[id] else BYE
  }

  function Pow2(n: nat): nat {
    if n == 0 then 1 else 2 * Pow2(n - 1)
  }

  // --------------------------------------------------------------- grouping rounds

  function InRound(matches: seq<BracketMatch>, idx: int): seq<BracketMatch> {
    if matches == [] then []
    else
      var n := |matches| - 1;
      InRound(matches[..n], idx) + (if matches[n].roundIdx == idx then [matches[n]] else [])
  }

  /** Each round index once, as first met. */
  function Indices(matches: seq<BracketMatch>): seq<int> {
    if matches == [] then []
    else
      var n := |matches| - 1;
      var before := Indices(matches[..n]);
      if matches[n].roundIdx in before then before else before + [matches[n].roundIdx]
  }

  const Earlier: (int, int) -> bool := (a, b) => a <= b

  /** The rounds in the order they were played. */
  function Order(matches: seq<BracketMatch>): seq<int> {
    Sort(Indices(matches), Earlier)
  }

  /** Who won in a round, by winner; a later match of the same winner replaces an earlier. */
  function WonIn(matches: seq<BracketMatch>): map<int, BracketMatch> {
    if matches == [] then map[]
    else
      var n := |matches| - 1;
      WonIn(matches[..n])[matches[n].winner := matches[n]]
  }

  lemma {:induction false} IndicesAre(matches: seq<BracketMatch>)
    ensures forall idx :: idx in Indices(matches) <==> exists m :: m in matches && m.roundIdx == idx
    ensures forall i, j | 0 <= i < j < |Indices(matches)| :: Indices(matches)[i] != Indices(matches)[j]
  {
    if matches != [] {
      var n := |matches| - 1;
      IndicesAre(matches[..n]);
      assert matches == matches[..n] + [matches[n]];
      forall idx
        ensures idx in Indices(matches) <==> exists m :: m in matches && m.roundIdx == idx
      {
        if idx == matches[n].roundIdx {
          assert matches[n] in matches;
        }
      }
    }
  }

  lemma {:induction false} InRoundMembers(matches: seq<BracketMatch>, idx: int)
    ensures forall m :: m in InRound(matches, idx) <==> m in matches && m.roundIdx == idx
  {
    if matches != [] {
      var n := |matches| - 1;
      InRoundMembers(matches[..n], idx);
      assert matches == matches[..n] + [matches[n]];
    }
  }

  lemma {:induction false} WonInIs(matches: seq<BracketMatch>)
    ensures forall p | p in WonIn(matches) :: WonIn(matches)[p] in matches && WonIn(matches)[p].winner == p
    ensures forall m | m in matches :: m.winner in WonIn(matches)
  {
    if matches != [] {
      var n := |matches| - 1;
      WonInIs(matches[..n]);
      assert matches == matches[..n] + [matches[n]];
    }
  }

  lemma {:induction false} WinnerInTable(matches: seq<BracketMatch>, m: BracketMatch)
    requires m in matches
    ensures m.winner in WonIn(matches)
  {
    var n := |matches| - 1;
    if m != matches[n] {
      assert m in matches[..n];
      WinnerInTable(matches[..n], m);
    }
  }

  lemma {:induction false} TableEntry(matches: seq<BracketMatch>, p: int) returns (k: nat)
    requires p in WonIn(matches)
    ensures k < |matches| && matches[k] == WonIn(matches)[p] && matches[k].winner == p
  {
    WonInIs(matches);
    k :| 0 <= k < |matches| && matches[k] == WonIn(matches)[p];
  }

  // -------------------------------------------------------------------- the walk

  /** The leaves under the match `winner` won in round `depth`, left to right; None
      where nobody won a match that was played above. `won[d]` is the round at depth d. */
  function Leaves(won: seq<map<int, BracketMatch>>, depth: nat, winner: int): Option<seq<Option<int>>>
    requires depth < |won|
  {
    if winner !in won[depth] then
      if depth == 0 then Some([Some(winner), None]) else None
    else
      var m := won[depth][winner];
      if depth == 0 then Some([Some(m.winner), Some(m.loser)])
      else
        var top, bottom := Leaves(won, depth - 1, m.winner), Leaves(won, depth - 1, m.loser);
        if top.Some? && bottom.Some? then Some(top.value + bottom.value) else None
  }

  /** First-round lines without a match. */
  function Walkovers(won: seq<map<int, BracketMatch>>, depth: nat, winner: int): nat
    requires depth < |won|
  {
    if winner !in won[depth] then
      if depth == 0 then 1 else 0
    else if depth == 0 then 0
    else Walkovers(won, depth - 1, won[depth][winner].winner) + Walkovers(won, depth - 1, won[depth][winner].loser)
  }

  /** The entrants on a line, an empty line being the zero entrant. */
  function EntrantsOn(line: seq<Option<int>>, players: map<int, Entrant>): seq<Entrant> {
    seq(|line|, i requires 0 <= i < |line| => if line[i].None? then BYE else Lookup(players, line[i].value))
  }

  /** What the walk closes over and appends to. */
  class Walker {
    const won: seq<map<int, BracketMatch>>
    const players: map<int, Entrant>
    var entrants: seq<Entrant>
    var byes: nat

    constructor (won: seq<map<int, BracketMatch>>, players: map<int, Entrant>)
      ensures this.won == won && this.players == players && entrants == [] && byes == 0
    {
      this.won := won;
      this.players := players;
      entrants := [];
      byes := 0;
    }

    method Walk(depth: nat, winner: int) returns (ok: bool)
      requires depth < |won|
      modifies this
      ensures ok == Leaves(won, depth, winner).Some?
      ensures ok ==> entrants == old(entrants) + EntrantsOn(Leaves(won, depth, winner).value, players)
      ensures ok ==> byes == old(byes) + Walkovers(won, depth, winner)
      decreases depth
    {
      var found := winner in won[depth];
      if !found && depth == 0 {
        entrants := entrants + [Lookup(players, winner), BYE];
        byes := byes + 1;
        return true;
      }
      if !found {
        return false;
      }
      var m := won[depth][winner];
      if depth == 0 {
        entrants := entrants + [Lookup(players, m.winner), Lookup(players, m.loser)];
        return true;
      }
      ok := Walk(depth - 1, m.winner);
      if !ok {
        return false;
      }
      ok := Walk(depth - 1, m.loser);
      if ok {
        EntrantsAppend(Leaves(won, depth - 1, m.winner).value, Leaves(won, depth - 1, m.loser).value, players);
      }
    }
  }

  lemma {:induction false} EntrantsAppend(a: seq<Option<int>>, b: seq<Option<int>>, players: map<int, Entrant>)
    ensures EntrantsOn(a + b, players) == EntrantsOn(a, players) + EntrantsOn(b, players)
  {
  }

  // -------------------------------------------------------------------- the build

  function RoundNames(matches: seq<BracketMatch>, order: seq<int>): seq<string>
    requires forall i | 0 <= i < |order| :: InRound(matches, order[i]) != []
  {
    seq(|order|, i requires 0 <= i < |order| => InRound(matches, order[i])[0].round)
  }

  /** Every round above the first is full; the first may be short. */
  predicate SizesFit(matches: seq<BracketMatch>, order: seq<int>) {
    forall i | 0 <= i < |order| ::
      var n, want := |InRound(matches, order[i])|, Pow2(|order| - 1 - i);
      n <= want && (i > 0 ==> n == want)
  }

  function WonBy(matches: seq<BracketMatch>, order: seq<int>): seq<map<int, BracketMatch>> {
    seq(|order|, d requires 0 <= d < |order| => WonIn(InRound(matches, order[d])))
  }

  lemma {:induction false} OrderIs(matches: seq<BracketMatch>)
    ensures forall idx :: idx in Order(matches) <==> exists m :: m in matches && m.roundIdx == idx
    ensures forall i, j | 0 <= i < j < |Order(matches)| :: Order(matches)[i] < Order(matches)[j]
  {
    var ix := Indices(matches);
    IndicesAre(matches);
    SortElements(ix, Earlier);
    SameMembers(ix, Order(matches));
    SortSorted(ix, Earlier);
    forall i, j | 0 <= i < j < |Order(matches)|
      ensures Order(matches)[i] < Order(matches)[j]
    {
      DistinctCounts(ix);
      if Order(matches)[i] == Order(matches)[j] {
        OnceOnly(Order(matches), i, j);
      }
    }
  }

  lemma {:induction false} RoundsNonEmpty(matches: seq<BracketMatch>)
    ensures forall i | 0 <= i < |Order(matches)| :: InRound(matches, Order(matches)[i]) != []
    ensures matches != [] ==> Order(matches) != []
  {
    OrderIs(matches);
    forall i | 0 <= i < |Order(matches)|
      ensures InRound(matches, Order(matches)[i]) != []
    {
      var idx := Order(matches)[i];
      assert idx in Order(matches);
      var m :| m in matches && m.roundIdx == idx;
      InRoundMembers(matches, idx);
      assert m in InRound(matches, idx);
    }
    if matches != [] {
      assert matches[0].roundIdx in Order(matches);
    }
  }

  /** The winner of the final. */
  function Champion(matches: seq<BracketMatch>): int
    requires matches != []
  {
    RoundsNonEmpty(matches);
    InRound(matches, Order(matches)[|Order(matches)| - 1])[0].winner
  }

  /** The line a draw is rebuilt into, or why it is not. */
  function Rebuild(matches: seq<BracketMatch>): Result<seq<Option<int>>> {
    if matches == [] then Err(NoMatches)
    else
      RoundsNonEmpty(matches);
      var order := Order(matches);
      if !SizesFit(matches, order) then Err(NotPowerOfTwo)
      else
        match LineUnder(WonBy(matches, order), Champion(matches), |matches|)
        case None => Err(BrokenTree)
        case Some(line) => Ok(line)
  }

  function BracketOn(matches: seq<BracketMatch>, line: seq<Option<int>>, players: map<int, Entrant>): Bracket
    requires matches != []
  {
    RoundsNonEmpty(matches);
    Bracket(EntrantsOn(line, players), |line| - (|matches| + 1), RoundNames(matches, Order(matches)), Champion(matches))
  }

  method BuildBracket(matches: seq<BracketMatch>, players: map<int, Entrant>) returns (r: Result<Bracket>)
    ensures match Rebuild(matches)
            case Err(e) => r == Err(e)
            case Ok(line) => r == Ok(BracketOn(matches, line, players))
  {
    if |matches| == 0 {
      return Err(NoMatches);
    }
    var byRound, order := RoundsInOrder(matches);
    var fits, rounds := CheckRounds(matches, byRound, order);
    if !fits {
      return Err(NotPowerOfTwo);
    }
    var won := CollectWinners(matches, byRound, order);
    var final := byRound[order[|order| - 1]][0];
    var drawn := WalkDown(won, players, final.winner, |matches|);
    r := if drawn.None? then Err(BrokenTree)
         else Ok(Bracket(drawn.value.0, drawn.value.1, rounds, final.winner));
  }

  /** The line under a champion, if the walk reaches exactly one more entrant than matches. */
  function LineUnder(won: seq<map<int, BracketMatch>>, champion: int, total: nat): Option<seq<Option<int>>>
    requires won != []
  {
    var leaves := Leaves(won, |won| - 1, champion);
    if leaves.None? || |leaves.value| - Walkovers(won, |won| - 1, champion) != total + 1 then None else leaves
  }

  method WalkDown(won: seq<map<int, BracketMatch>>, players: map<int, Entrant>, champion: int, total: nat)
    returns (drawn: Option<(seq<Entrant>, int)>)
    requires won != []
    ensures match LineUnder(won, champion, total)
            case None => drawn == None
            case Some(line) => drawn == Some((EntrantsOn(line, players), |line| - (total + 1)))
  {
    var walker := new Walker(won, players);
    var ok := walker.Walk(|won| - 1, champion);
    if !ok {
      return None;
    }
    assert walker.entrants == EntrantsOn(Leaves(won, |won| - 1, champion).value, players);
    if |walker.entrants| - walker.byes != total + 1 {
      return None;
    }
    drawn := Some((walker.entrants, walker.byes));
  }

  ghost predicate Grouped(matches: seq<BracketMatch>, byRound: map<int, seq<BracketMatch>>, order: seq<int>) {
    forall idx | idx in order :: idx in byRound && byRound[idx] == InRound(matches, idx) && byRound[idx] != []
  }

  /** The matches by round, and the rounds that were met in the order they are played. */
  method RoundsInOrder(matches: seq<BracketMatch>) returns (byRound: map<int, seq<BracketMatch>>, order: seq<int>)
    requires matches != []
    ensures order != [] && order == Order(matches) && WonBy(matches, order) != []
    ensures Grouped(matches, byRound, order)
    ensures var last := order[|order| - 1];
            last in byRound && byRound[last] != [] && byRound[last][0].winner == Champion(matches)
  {
    var rounds, met := GroupByRound(matches);
    byRound, order := rounds, Sort(met, Earlier);
    GroupedInOrder(matches, byRound, order);
  }

  lemma {:induction false} GroupedInOrder(matches: seq<BracketMatch>, byRound: map<int, seq<BracketMatch>>, order: seq<int>)
    requires matches != [] && order == Order(matches) && byRound.Keys == (set idx | idx in Indices(matches))
    requires forall idx | idx in byRound :: byRound[idx] == InRound(matches, idx)
    ensures order != [] && Grouped(matches, byRound, order) && WonBy(matches, order) != []
    ensures var last := order[|order| - 1];
            last in byRound && byRound[last] != [] && byRound[last][0].winner == Champion(matches)
  {
    RoundsNonEmpty(matches);
    SameRounds(matches);
    forall idx | idx in order
      ensures idx in byRound && byRound[idx] == InRound(matches, idx) && byRound[idx] != []
    {
      var i :| 0 <= i < |order| && order[i] == idx;
      assert idx in byRound.Keys;
    }
    assert order[|order| - 1] in order;
  }

  lemma {:induction false} SameRounds(matches: seq<BracketMatch>)
    ensures forall idx :: idx in Order(matches) <==> idx in Indices(matches)
  {
    SortElements(Indices(matches), Earlier);
    SameMembers(Indices(matches), Order(matches));
  }

  /** The sizes a tree of this depth needs, and the rounds' names. */
  method CheckRounds(ghost matches: seq<BracketMatch>, byRound: map<int, seq<BracketMatch>>, order: seq<int>)
    returns (fits: bool, rounds: seq<string>)
    requires order != [] && Grouped(matches, byRound, order)
    ensures fits == SizesFit(matches, order)
    ensures forall i | 0 <= i < |order| :: InRound(matches, order[i]) != []
    ensures fits ==> rounds == RoundNames(matches, order)
  {
    rounds := [];
    var want := Pow2(|order| - 1);
    for i := 0 to |order|
      invariant i < |order| ==> want == Pow2(|order| - 1 - i)
      invariant |rounds| == i && forall j | 0 <= j < i :: rounds[j] == InRound(matches, order[j])[0].round
      invariant forall j | 0 <= j < i ::
        |InRound(matches, order[j])| <= Pow2(|order| - 1 - j) && (j > 0 ==> |InRound(matches, order[j])| == Pow2(|order| - 1 - j))
    {
      assert order[i] in order;
      var n := |byRound[order[i]]|;
      if n > want || (i > 0 && n != want) {
        return false, [];
      }
      rounds := rounds + [byRound[order[i]][0].round];
      want := want / 2;
    }
    fits := true;
  }

  method CollectWinners(ghost matches: seq<BracketMatch>, byRound: map<int, seq<BracketMatch>>, order: seq<int>)
    returns (won: seq<map<int, BracketMatch>>)
    requires Grouped(matches, byRound, order)
    ensures won == WonBy(matches, order)
  {
    won := [];
    for d := 0 to |order|
      invariant won == WonBy(matches, order)[..d]
    {
      assert order[d] in order;
      var ms := byRound[order[d]];
      var winners: map<int, BracketMatch> := map[];
      for i := 0 to |ms|
        invariant winners == WonIn(ms[..i])
      {
        assert ms[..i + 1][..i] == ms[..i];
        winners := winners[ms[i].winner := ms[i]];
      }
      assert ms[..|ms|] == ms;
      won := won + [winners];
    }
  }

  method GroupByRound(matches: seq<BracketMatch>) returns (byRound: map<int, seq<BracketMatch>>, order: seq<int>)
    ensures order == Indices(matches) && byRound.Keys == (set idx | idx in order)
    ensures forall idx | idx in byRound :: byRound[idx] == InRound(matches, idx)
  {
    byRound, order := map[], [];
    for i := 0 to |matches|
      invariant order == Indices(matches[..i]) && byRound.Keys == (set idx | idx in order)
      invariant forall idx | idx in byRound :: byRound[idx] == InRound(matches[..i], idx)
    {
      var m := matches[i];
      assert matches[..i + 1][..i] == matches[..i];
      if m.roundIdx !in byRound {
        NoneInRound(matches[..i], m.roundIdx);
        order := order + [m.roundIdx];
        byRound := byRound[m.roundIdx := []];
      }
      byRound := byRound[m.roundIdx := byRound[m.roundIdx] + [m]];
    }
    assert matches[..|matches|] == matches;
  }

  lemma {:induction false} NoneInRound(matches: seq<BracketMatch>, idx: int)
    requires idx !in Indices(matches)
    ensures InRound(matches, idx) == []
  {
    if matches != [] {
      NoneInRound(matches[..|matches| - 1], idx);
    }
  }
}
