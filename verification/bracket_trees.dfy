/** Any tournament tree, whichever half its winners come from, is rebuilt from its
    matches into the same tree with every winner's half first. */
module BracketTrees {
  import opened BracketLaws
  import opened BracketLines
  import opened Brackets
  import opened Collections

  /** A first-round match or walkover, or two halves whose winners met. */
  datatype Tree =
    | Opening(a: int, b: int, aWon: bool)
    | Walkover(p: int)
    | Meeting(left: Tree, right: Tree, leftWon: bool)

  function Winner(t: Tree): int {
    match t
    case Opening(a, b, aWon) => if aWon then a else b
    case Walkover(p) => p
    case Meeting(left, right, leftWon) => if leftWon then Winner(left) else Winner(right)
  }

  /** Every leaf at the same depth: k rounds in all. */
  predicate Full(t: Tree, k: nat) {
    match t
    case Opening(_, _, _) => k == 1
    case Walkover(_) => k == 1
    case Meeting(left, right, _) => k > 1 && Full(left, k - 1) && Full(right, k - 1)
  }

  /** The leaves, each winner's half first. */
  function WinnersFirst(t: Tree): Line {
    match t
    case Opening(a, b, aWon) => if aWon then [Some(a), Some(b)] else [Some(b), Some(a)]
    case Walkover(p) => [Some(p), None]
    case Meeting(left, right, leftWon) =>
      if leftWon then WinnersFirst(left) + WinnersFirst(right) else WinnersFirst(right) + WinnersFirst(left)
  }

  function Together(r: seq<multiset<Pairing>>, s: seq<multiset<Pairing>>): seq<multiset<Pairing>>
    requires |r| == |s|
  {
    seq(|r|, i requires 0 <= i < |r| => r[i] + s[i])
  }

  /** The matches of a tree, by round. */
  function Rounds(t: Tree, k: nat): (r: seq<multiset<Pairing>>)
    requires Full(t, k)
    ensures |r| == k
  {
    match t
    case Opening(a, b, aWon) => [if aWon then multiset{(a, b)} else multiset{(b, a)}]
    case Walkover(p) => [multiset{}]
    case Meeting(left, right, leftWon) =>
      Together(Rounds(left, k - 1), Rounds(right, k - 1))
      + [if leftWon then multiset{(Winner(left), Winner(right))} else multiset{(Winner(right), Winner(left))}]
  }

  lemma {:induction false} PairsAppend(a: Line, b: Line)
    requires |a| % 2 == 0 && |b| % 2 == 0
    ensures RoundPairs(a + b) == RoundPairs(a) + RoundPairs(b)
  {
    if a == [] {
      assert a + b == b;
    } else {
      PairsAppend(a[2..], b);
      assert (a + b)[2..] == a[2..] + b;
      assert (a + b)[0] == a[0] && (a + b)[1] == a[1];
    }
  }

  lemma {:induction false} SurvivorsAppend(a: Line, b: Line)
    requires |a| % 2 == 0 && |b| % 2 == 0
    ensures Somes(Survivors(a + b)) == Somes(Survivors(a)) + Somes(Survivors(b))
  {
  }

  lemma {:induction false} SideBySideRound(a: Line, b: Line, x: int, y: int)
    requires |a| % 2 == 0 && |b| % 2 == 0
    requires a != [] && a[0] == Some(x) && b != [] && b[0] == Some(y)
    ensures multiset(RoundPairs(a + b)) == multiset(RoundPairs(a)) + multiset(RoundPairs(b))
    ensures Somes(Survivors(a + b)) == Somes(Survivors(a)) + Somes(Survivors(b))
    ensures Survivors(a) != [] && Survivors(a)[0] == x && Survivors(b) != [] && Survivors(b)[0] == y
  {
    PairsAppend(a, b);
    SurvivorsAppend(a, b);
  }

  lemma {:induction false} TogetherSplits(r: seq<multiset<Pairing>>, s: seq<multiset<Pairing>>, last: multiset<Pairing>)
    requires |r| == |s| && r != []
    ensures (Together(r, s) + [last])[0] == r[0] + s[0]
    ensures (Together(r, s) + [last])[1..] == Together(r[1..], s[1..]) + [last]
  {
  }

  /** Two lines played side by side, then their first players against each other. */
  lemma {:induction false} PlaySideBySide(a: Line, b: Line, r: seq<multiset<Pairing>>, s: seq<multiset<Pairing>>, x: int, y: int)
    requires Plays(a, r) && Plays(b, s) && |r| == |s|
    requires a != [] && a[0] == Some(x) && b != [] && b[0] == Some(y)
    ensures Plays(a + b, Together(r, s) + [multiset{(x, y)}])
    decreases |r|
  {
    PlaysMeans(a, r);
    PlaysMeans(b, s);
    if r == [] {
      assert a + b == [Some(x), Some(y)];
      FinalPlayed(x, y);
      assert Together(r, s) + [multiset{(x, y)}] == [multiset{(x, y)}];
    } else {
      SideBySideRound(a, b, x, y);
      PlaySideBySide(Somes(Survivors(a)), Somes(Survivors(b)), r[1..], s[1..], x, y);
      TogetherSplits(r, s, multiset{(x, y)});
      PlaysMeans(a + b, Together(r, s) + [multiset{(x, y)}]);
    }
  }

  lemma {:induction false} FinalPlayed(x: int, y: int)
    ensures Plays([Some(x), Some(y)], [multiset{(x, y)}])
  {
    assert RoundPairs([Some(x), Some(y)]) == [(x, y)] + RoundPairs([Some(x), Some(y)][2..]);
    OneRound([Some(x), Some(y)], [multiset{(x, y)}]);
  }

  lemma {:induction false} WinnerLeads(t: Tree, k: nat)
    requires Full(t, k)
    ensures |WinnersFirst(t)| == Pow2(k) && |WinnersFirst(t)| % 2 == 0 && WinnersFirst(t) != []
    ensures WinnersFirst(t)[0] == Some(Winner(t))
  {
    match t
    case Meeting(left, right, _) =>
      WinnerLeads(left, k - 1);
      WinnerLeads(right, k - 1);
    case _ => assert Pow2(1) == 2 * Pow2(0);
  }

  lemma {:induction false} TogetherCommutes(r: seq<multiset<Pairing>>, s: seq<multiset<Pairing>>)
    requires |r| == |s|
    ensures Together(r, s) == Together(s, r)
  {
    forall i | 0 <= i < |r|
      ensures Together(r, s)[i] == Together(s, r)[i]
    {
      assert r[i] + s[i] == s[i] + r[i];
    }
  }

  /** The winners-first line of a tree plays the tree's own matches, round by round. */
  lemma {:induction false} TreePlays(t: Tree, k: nat)
    requires Full(t, k)
    ensures Plays(WinnersFirst(t), Rounds(t, k))
  {
    match t
    case Opening(a, b, aWon) => OneRound(WinnersFirst(t), Rounds(t, k));
    case Walkover(p) => OneRound(WinnersFirst(t), Rounds(t, k));
    case Meeting(left, right, leftWon) =>
      WinnerLeads(left, k - 1);
      WinnerLeads(right, k - 1);
      var first, second := if leftWon then left else right, if leftWon then right else left;
      TreePlays(first, k - 1);
      TreePlays(second, k - 1);
      PlaySideBySide(WinnersFirst(first), WinnersFirst(second), Rounds(first, k - 1), Rounds(second, k - 1),
                     Winner(first), Winner(second));
      TogetherCommutes(Rounds(left, k - 1), Rounds(right, k - 1));
  }

  lemma {:induction false} OneRound(line: Line, rounds: seq<multiset<Pairing>>)
    requires |line| == 2 && line[0].Some? && |rounds| == 1
    requires rounds[0] == if line[1].Some? then multiset{(line[0].value, line[1].value)} else multiset{}
    ensures Plays(line, rounds)
  {
    assert RoundPairs(line[2..]) == [];
    assert rounds[1..] == [];
    PlaysMeans(line, rounds);
    PlaysMeans(Somes(Survivors(line)), []);
  }

  /** Whatever the tree and whatever order its matches come in, the draw rebuilt from
      them is that tree with each winner's half first. */
  lemma {:induction false} AnyTreeIsRebuilt(t: Tree, k: nat, matches: seq<BracketMatch>)
    requires Full(t, k) && Seeded(WinnersFirst(t)) && matches != []
    requires RoundsOf(matches) == Rounds(t, k)
    ensures Rebuild(matches) == Ok(WinnersFirst(t))
  {
    TreePlays(t, k);
    PlayedLineIsRebuilt(matches, WinnersFirst(t));
  }
}
