/** Looking a charted match up in the index, against reading every row
    (internal/charting/resolve.go). */
module ChartingLookup {
  import opened Charting
  import opened Collections
  import opened Sorting
  import opened Text

  // ---------------------------------------------------------------- what a lookup is for

  /** A surname of each charted player is one of each of the row's, either way round. */
  ghost predicate SharesPair(normalise: Normaliser, m: Charted, c: Candidate) {
    exists s1, s2, a, b ::
      && s1 in Surnames(normalise, m.player1) && s2 in Surnames(normalise, m.player2)
      && a in Surnames(normalise, c.winner) && b in Surnames(normalise, c.loser) && SamePair(s1, s2, a, b)
  }

  /** Rounds agree, spaces aside; a round of nothing but spaces is any round. */
  predicate RoundFits(round: string, c: Candidate) {
    TrimSpace(round) == "" || TrimSpace(round) == TrimSpace(c.round)
  }

  /** What a row must be for a lookup to find it, read on its own. */
  ghost predicate Matches(normalise: Normaliser, m: Charted, round: string, c: Candidate) {
    InWindow(m.playedOn, c.playedOn) && RoundFits(round, c) && BothPlay(normalise, m, c) && SharesPair(normalise, m, c)
  }

  /** Folded names have no bar in them. */
  ghost predicate Tidy(normalise: Normaliser) {
    forall s: string, w :: w in Surnames(normalise, s) ==> '|' !in w
  }

  ghost predicate DistinctRows(cands: seq<Candidate>) {
    forall i, j | 0 <= i < j < |cands| :: cands[i].matchId != cands[j].matchId
  }

  // ---------------------------------------------------------------- candidates

  lemma {:induction false} UnderPairIff(normalise: Normaliser, round: string, s1: string, s2: string, c: Candidate)
    requires Tidy(normalise) && '|' !in s1 && '|' !in s2
    ensures KeptUnder(normalise, c, KeyOf(round, s1, s2)) <==>
            RoundFits(round, c) && exists a, b :: a in Surnames(normalise, c.winner) && b in Surnames(normalise, c.loser)
                                               && SamePair(s1, s2, a, b)
  {
    var k := KeyOf(round, s1, s2);
    assert TrimSpace("") == "";
    if KeptUnder(normalise, c, k) {
      var a, b :| a in Surnames(normalise, c.winner) && b in Surnames(normalise, c.loser)
               && (k == KeyOf(c.round, a, b) || k == KeyOf("", a, b));
      KeysAgreeIff(round, s1, s2, c.round, a, b);
      KeysAgreeIff(round, s1, s2, "", a, b);
    }
    if a, b :| a in Surnames(normalise, c.winner) && b in Surnames(normalise, c.loser) && SamePair(s1, s2, a, b) {
      KeysAgreeIff(round, s1, s2, c.round, a, b);
      KeysAgreeIff(round, s1, s2, "", a, b);
    }
  }

  /** What the lookup has covered after the first `i` surnames of one player, and `j` of the other's with the next. */
  ghost predicate PairCovered(normalise: Normaliser, m: Charted, i: nat, j: nat, round: string, c: Candidate) {
    var us, vs := Surnames(normalise, m.player1), Surnames(normalise, m.player2);
    exists x: nat, y: nat :: x < |us| && y < |vs| && (x < i || (x == i && y < j)) && KeptUnder(normalise, c, KeyOf(round, us[x], vs[y]))
  }

  ghost predicate Wanted(normalise: Normaliser, m: Charted, c: Candidate) {
    InWindow(m.playedOn, c.playedOn) && BothPlay(normalise, m, c)
  }

  /** The rows found so far, once each, and their ids. */
  ghost predicate Finding(normalise: Normaliser, cands: seq<Candidate>, m: Charted, round: string, i: nat, j: nat,
                          found: seq<Candidate>, seen: set<int>) {
    && DistinctRows(found)
    && (forall c :: c in found <==> c in cands && Wanted(normalise, m, c) && PairCovered(normalise, m, i, j, round, c))
    && (forall id :: id in seen <==> exists k :: 0 <= k < |found| && found[k].matchId == id)
  }

  /** Reading one key's rows, with `n` of them read. */
  ghost predicate Reading(normalise: Normaliser, m: Charted, rows: seq<Candidate>, n: nat, before: seq<Candidate>,
                          found: seq<Candidate>, seen: set<int>)
    requires n <= |rows|
  {
    && DistinctRows(found)
    && (forall c :: c in found <==> c in before || (c in rows[..n] && Wanted(normalise, m, c)))
    && (forall id :: id in seen <==> exists k :: 0 <= k < |found| && found[k].matchId == id)
  }

  lemma {:induction false} SameIdSameRow(cands: seq<Candidate>, c: Candidate, d: Candidate)
    requires DistinctRows(cands) && c in cands && d in cands && c.matchId == d.matchId
    ensures c == d
  {
  }

  lemma {:induction false} FoundOneMore(normalise: Normaliser, cands: seq<Candidate>, m: Charted, rows: seq<Candidate>, n: nat,
                                       before: seq<Candidate>, found: seq<Candidate>, seen: set<int>)
    requires DistinctRows(cands) && n < |rows| && Reading(normalise, m, rows, n, before, found, seen)
    requires (forall c | c in rows :: c in cands) && (forall c | c in found :: c in cands)
    ensures var c := rows[n];
            if c.matchId in seen || !Wanted(normalise, m, c) then Reading(normalise, m, rows, n + 1, before, found, seen)
            else Reading(normalise, m, rows, n + 1, before, found + [c], seen + {c.matchId})
  {
    var c := rows[n];
    assert rows[..n + 1] == rows[..n] + [c];
    if c.matchId in seen {
      var k :| 0 <= k < |found| && found[k].matchId == c.matchId;
      assert found[k] in found && c in rows;
      SameIdSameRow(cands, found[k], c);
    } else if Wanted(normalise, m, c) {
      SeenOneMore(found, seen, c);
    }
  }

  lemma {:induction false} SeenOneMore(found: seq<Candidate>, seen: set<int>, c: Candidate)
    requires forall id :: id in seen <==> exists k :: 0 <= k < |found| && found[k].matchId == id
    ensures forall id :: id in seen + {c.matchId} <==> exists k :: 0 <= k < |found + [c]| && (found + [c])[k].matchId == id
  {
    var more := found + [c];
    forall id
      ensures id in seen + {c.matchId} <==> exists k :: 0 <= k < |more| && more[k].matchId == id
    {
      if id in seen {
        var k :| 0 <= k < |found| && found[k].matchId == id;
        assert more[k].matchId == id;
      }
      if id == c.matchId {
        assert more[|found|].matchId == id;
      }
    }
  }

  /** Adds the rows under one key that are wanted and not yet found. */
  method ReadKey(normalise: Normaliser, ghost cands: seq<Candidate>, m: Charted, rows: seq<Candidate>,
                 before: seq<Candidate>, seenBefore: set<int>)
    returns (found: seq<Candidate>, seen: set<int>)
    requires DistinctRows(cands) && Reading(normalise, m, rows, 0, before, before, seenBefore)
    requires (forall c | c in rows :: c in cands) && (forall c | c in before :: c in cands)
    ensures Reading(normalise, m, rows, |rows|, before, found, seen)
  {
    found, seen := before, seenBefore;
    for n := 0 to |rows|
      invariant Reading(normalise, m, rows, n, before, found, seen)
    {
      var c := rows[n];
      FoundOneMore(normalise, cands, m, rows, n, before, found, seen);
      if c.matchId !in seen && InWindow(m.playedOn, c.playedOn) && BothPlay(normalise, m, c) {
        found, seen := found + [c], seen + {c.matchId};
      }
    }
  }

  lemma {:induction false} PairNext(normalise: Normaliser, m: Charted, i: nat, j: nat, round: string, c: Candidate)
    requires i < |Surnames(normalise, m.player1)| && j < |Surnames(normalise, m.player2)|
    ensures PairCovered(normalise, m, i, j + 1, round, c) <==>
            PairCovered(normalise, m, i, j, round, c)
            || KeptUnder(normalise, c, KeyOf(round, Surnames(normalise, m.player1)[i], Surnames(normalise, m.player2)[j]))
  {
  }

  lemma {:induction false} FindingNext(normalise: Normaliser, cands: seq<Candidate>, byKey: Index_, m: Charted, round: string, i: nat, j: nat,
                                      before: seq<Candidate>, seenBefore: set<int>, found: seq<Candidate>, seen: set<int>)
    requires Indexes(normalise, cands, byKey)
    requires i < |Surnames(normalise, m.player1)| && j < |Surnames(normalise, m.player2)|
    requires Finding(normalise, cands, m, round, i, j, before, seenBefore)
    requires var rows := Under(byKey, KeyOf(round, Surnames(normalise, m.player1)[i], Surnames(normalise, m.player2)[j]));
             Reading(normalise, m, rows, |rows|, before, found, seen)
    ensures Finding(normalise, cands, m, round, i, j + 1, found, seen)
  {
    var k := KeyOf(round, Surnames(normalise, m.player1)[i], Surnames(normalise, m.player2)[j]);
    assert Under(byKey, k)[..|Under(byKey, k)|] == Under(byKey, k);
    forall c
      ensures c in found <==> c in cands && Wanted(normalise, m, c) && PairCovered(normalise, m, i, j + 1, round, c)
    {
      PairNext(normalise, m, i, j, round, c);
      assert c in Under(byKey, k) <==> c in cands && KeptUnder(normalise, c, k);
    }
  }

  lemma {:induction false} FindingRow(normalise: Normaliser, cands: seq<Candidate>, m: Charted, round: string, i: nat, found: seq<Candidate>, seen: set<int>)
    requires Finding(normalise, cands, m, round, i, |Surnames(normalise, m.player2)|, found, seen)
    ensures Finding(normalise, cands, m, round, i + 1, 0, found, seen)
  {
  }

  lemma {:induction false} CoveredMeans(normalise: Normaliser, m: Charted, round: string, c: Candidate)
    requires Tidy(normalise)
    ensures PairCovered(normalise, m, |Surnames(normalise, m.player1)|, 0, round, c) <==>
            RoundFits(round, c) && SharesPair(normalise, m, c)
  {
    var us, vs := Surnames(normalise, m.player1), Surnames(normalise, m.player2);
    if PairCovered(normalise, m, |us|, 0, round, c) {
      var x: nat, y: nat :| x < |us| && y < |vs| && (x < |us| || (x == |us| && y < 0)) && KeptUnder(normalise, c, KeyOf(round, us[x], vs[y]));
      assert us[x] in us && vs[y] in vs;
      UnderPairIff(normalise, round, us[x], vs[y], c);
    }
    if RoundFits(round, c) && SharesPair(normalise, m, c) {
      var s1, s2, a, b :| s1 in us && s2 in vs && a in Surnames(normalise, c.winner) && b in Surnames(normalise, c.loser)
                       && SamePair(s1, s2, a, b);
      var x: nat :| x < |us| && us[x] == s1;
      var y: nat :| y < |vs| && vs[y] == s2;
      UnderPairIff(normalise, round, s1, s2, c);
      assert x < |us| && KeptUnder(normalise, c, KeyOf(round, us[x], vs[y]));
    }
  }

  /** What a lookup finds: the rows a reading of every row would, once each. */
  ghost predicate IsFound(normalise: Normaliser, cands: seq<Candidate>, m: Charted, round: string, found: seq<Candidate>) {
    DistinctRows(found) && forall c :: c in found <==> c in cands && Matches(normalise, m, round, c)
  }

  lemma {:induction false} FindingIsFound(normalise: Normaliser, cands: seq<Candidate>, m: Charted, round: string, found: seq<Candidate>, seen: set<int>)
    requires Tidy(normalise) && Finding(normalise, cands, m, round, |Surnames(normalise, m.player1)|, 0, found, seen)
    ensures IsFound(normalise, cands, m, round, found)
  {
    forall c
      ensures c in found <==> c in cands && Matches(normalise, m, round, c)
    {
      CoveredMeans(normalise, m, round, c);
    }
  }

  /** Every row in the window with these two players, in the round or in any. */
  method Candidates(normalise: Normaliser, ghost cands: seq<Candidate>, byKey: Index_, m: Charted, round: string)
    returns (found: seq<Candidate>)
    requires Tidy(normalise) && DistinctRows(cands) && Indexes(normalise, cands, byKey)
    ensures IsFound(normalise, cands, m, round, found)
  {
    found := [];
    var seen: set<int> := {};
    var us, vs := Surnames(normalise, m.player1), Surnames(normalise, m.player2);
    for i := 0 to |us|
      invariant Finding(normalise, cands, m, round, i, 0, found, seen)
    {
      for j := 0 to |vs|
        invariant Finding(normalise, cands, m, round, i, j, found, seen)
      {
        ghost var before, seenBefore := found, seen;
        var rows := Under(byKey, KeyOf(round, us[i], vs[j]));
        assert forall c | c in rows :: c in cands;
        found, seen := ReadKey(normalise, cands, m, rows, found, seen);
        FindingNext(normalise, cands, byKey, m, round, i, j, before, seenBefore, found, seen);
      }
      FindingRow(normalise, cands, m, round, i, found, seen);
    }
    FindingIsFound(normalise, cands, m, round, found, seen);
  }

  // ---------------------------------------------------------------- resolving

  ghost predicate NoneIn(normalise: Normaliser, cands: seq<Candidate>, m: Charted, round: string) {
    forall c | c in cands :: !Matches(normalise, m, round, c)
  }

  /** The round asked about: the charted one, or any where it finds nothing. */
  ghost function Asked(normalise: Normaliser, cands: seq<Candidate>, m: Charted): string {
    if NoneIn(normalise, cands, m, m.round) then "" else m.round
  }

  /** The one row that is strictly the nearest of those a lookup is for. */
  ghost predicate IsNearest(normalise: Normaliser, cands: seq<Candidate>, m: Charted, c: Candidate) {
    && c in cands && Matches(normalise, m, Asked(normalise, cands, m), c)
    && forall d | d in cands && d != c && Matches(normalise, m, Asked(normalise, cands, m), d) ::
         Distance(m.playedOn, c.playedOn) < Distance(m.playedOn, d.playedOn)
  }

  function ResolutionOf(normalise: Normaliser, m: Charted, c: Candidate): Resolution {
    if SamePerson(normalise, m.player1, c.winner) then Resolution(c.matchId, c.winnerId, c.loserId)
    else Resolution(c.matchId, c.loserId, c.winnerId)
  }

  /** The right answer: the nearest row; none; or none that is strictly nearest. */
  ghost predicate IsAnswer(normalise: Normaliser, cands: seq<Candidate>, m: Charted, answer: Answer) {
    match answer
    case Found(r) => exists c :: IsNearest(normalise, cands, m, c) && r == ResolutionOf(normalise, m, c)
    case NoRow => NoneIn(normalise, cands, m, m.round) && NoneIn(normalise, cands, m, "")
    case MoreThanOne => !NoneIn(normalise, cands, m, Asked(normalise, cands, m)) && forall c :: !IsNearest(normalise, cands, m, c)
  }

  predicate NoFurther(m: Charted, a: Candidate, b: Candidate) {
    Distance(m.playedOn, a.playedOn) <= Distance(m.playedOn, b.playedOn)
  }

  /** The nearest first. */
  ghost predicate ByDistance(m: Charted, found: seq<Candidate>, ordered: seq<Candidate>) {
    && multiset(found) == multiset(ordered)
    && forall i, j | 0 <= i < j < |ordered| :: NoFurther(m, ordered[i], ordered[j])
  }

  lemma {:induction false} SortedByDistance(m: Charted, found: seq<Candidate>)
    ensures ByDistance(m, found, Sort(found, (a, b) => NoFurther(m, a, b)))
  {
    var leq := (a, b) => NoFurther(m, a, b);
    assert TotalPreorder(leq);
    SortSorted(found, leq);
    SortElements(found, leq);
    var ordered := Sort(found, leq);
    forall i, j | 0 <= i < j < |ordered|
      ensures NoFurther(m, ordered[i], ordered[j])
    {
      assert leq(ordered[i], ordered[j]);
    }
  }

  lemma {:induction false} FirstIsNearest(normalise: Normaliser, cands: seq<Candidate>, m: Charted, found: seq<Candidate>, ordered: seq<Candidate>)
    requires IsFound(normalise, cands, m, Asked(normalise, cands, m), found) && ByDistance(m, found, ordered) && |ordered| > 1
    requires Distance(m.playedOn, ordered[0].playedOn) != Distance(m.playedOn, ordered[1].playedOn)
    ensures IsNearest(normalise, cands, m, ordered[0])
  {
    SameMembers(found, ordered);
    assert ordered[0] in ordered;
    forall d | d in cands && d != ordered[0] && Matches(normalise, m, Asked(normalise, cands, m), d)
      ensures Distance(m.playedOn, ordered[0].playedOn) < Distance(m.playedOn, d.playedOn)
    {
      assert d in ordered;
      var k :| 0 <= k < |ordered| && ordered[k] == d;
      assert NoFurther(m, ordered[0], ordered[1]);
      assert k > 1 ==> NoFurther(m, ordered[1], ordered[k]);
    }
  }

  lemma {:induction false} TiedIsNotNearest(normalise: Normaliser, cands: seq<Candidate>, m: Charted, found: seq<Candidate>, ordered: seq<Candidate>,
                                           c: Candidate)
    requires DistinctRows(cands)
    requires IsFound(normalise, cands, m, Asked(normalise, cands, m), found) && ByDistance(m, found, ordered) && |ordered| > 1
    requires Distance(m.playedOn, ordered[0].playedOn) == Distance(m.playedOn, ordered[1].playedOn)
    ensures !IsNearest(normalise, cands, m, c)
  {
    SameMembers(found, ordered);
    assert ordered[0] in ordered && ordered[1] in ordered;
    FirstTwoDiffer(found, ordered);
    if c in ordered {
      var k :| 0 <= k < |ordered| && ordered[k] == c;
      var other := if k == 0 then ordered[1] else ordered[0];
      assert k > 0 ==> NoFurther(m, ordered[0], ordered[k]);
      assert k > 1 ==> NoFurther(m, ordered[1], ordered[k]);
      assert other in found && Distance(m.playedOn, other.playedOn) <= Distance(m.playedOn, c.playedOn);
      if other == c {
        assert NoFurther(m, ordered[0], ordered[1]) && ordered[1] in found && ordered[1] != c;
      }
    }
  }

  lemma {:induction false} FirstTwoDiffer(found: seq<Candidate>, ordered: seq<Candidate>)
    requires DistinctRows(found) && multiset(found) == multiset(ordered) && |ordered| > 1
    ensures ordered[0] != ordered[1]
  {
    forall i, j | 0 <= i < j < |found|
      ensures IdBelow(found[i], found[j]) || IdBelow(found[j], found[i])
    {
      assert found[i].matchId != found[j].matchId;
    }
    DecidedOnce(found, IdBelow, ordered[0]);
    OnceOnly(ordered, 0, 1);
  }

  predicate IdBelow(a: Candidate, b: Candidate) {
    a.matchId < b.matchId
  }

  lemma {:induction false} OnlyIsNearest(normalise: Normaliser, cands: seq<Candidate>, m: Charted, found: seq<Candidate>)
    requires IsFound(normalise, cands, m, Asked(normalise, cands, m), found) && |found| == 1
    ensures IsNearest(normalise, cands, m, found[0])
  {
  }

  lemma {:induction false} FoundNone(normalise: Normaliser, cands: seq<Candidate>, m: Charted, round: string, found: seq<Candidate>)
    requires IsFound(normalise, cands, m, round, found)
    ensures found == [] <==> NoneIn(normalise, cands, m, round)
  {
    if found != [] {
      assert found[0] in found;
    }
  }

  method Settle(normalise: Normaliser, ghost cands: seq<Candidate>, m: Charted, found: seq<Candidate>) returns (answer: Answer)
    requires DistinctRows(cands) && found != [] && IsFound(normalise, cands, m, Asked(normalise, cands, m), found)
    ensures IsAnswer(normalise, cands, m, answer)
  {
    FoundNone(normalise, cands, m, Asked(normalise, cands, m), found);
    if |found| == 1 {
      OnlyIsNearest(normalise, cands, m, found);
      return Found(ResolutionOf(normalise, m, found[0]));
    }
    var ordered := Sort(found, (a, b) => NoFurther(m, a, b));
    SortedByDistance(m, found);
    SameMembers(found, ordered);
    if Distance(m.playedOn, ordered[0].playedOn) == Distance(m.playedOn, ordered[1].playedOn) {
      forall c
        ensures !IsNearest(normalise, cands, m, c)
      {
        TiedIsNotNearest(normalise, cands, m, found, ordered, c);
      }
      return MoreThanOne;
    }
    FirstIsNearest(normalise, cands, m, found, ordered);
    return Found(ResolutionOf(normalise, m, ordered[0]));
  }

  /** Finds the one row a charted match is, asking for its round first and then for any. */
  method Resolve(normalise: Normaliser, ghost cands: seq<Candidate>, byKey: Index_, m: Charted) returns (answer: Answer)
    requires Tidy(normalise) && DistinctRows(cands) && Indexes(normalise, cands, byKey)
    ensures IsAnswer(normalise, cands, m, answer)
  {
    var found := Candidates(normalise, cands, byKey, m, m.round);
    FoundNone(normalise, cands, m, m.round, found);
    if |found| == 0 && m.round != "" {
      found := Candidates(normalise, cands, byKey, m, "");
    }
    if |found| == 0 {
      FoundNone(normalise, cands, m, "", found);
      return NoRow;
    }
    answer := Settle(normalise, cands, m, found);
  }

  // ---------------------------------------------------------------- what follows

  lemma {:induction false} OneNearest(normalise: Normaliser, cands: seq<Candidate>, m: Charted, c: Candidate, d: Candidate)
    requires IsNearest(normalise, cands, m, c) && IsNearest(normalise, cands, m, d)
    ensures c == d
  {
  }

  /** Which kind of answer is right depends on the rows alone. */
  lemma {:induction false} AnswerKind(normalise: Normaliser, cands: seq<Candidate>, m: Charted, a: Answer)
    requires IsAnswer(normalise, cands, m, a)
    ensures a.Found? <==> exists c :: IsNearest(normalise, cands, m, c)
    ensures a.NoRow? <==> NoneIn(normalise, cands, m, m.round) && NoneIn(normalise, cands, m, "")
  {
  }

  /** A lookup has one right answer, and it is the same in whatever order the rows were read. */
  lemma {:induction false} AnswersAgree(normalise: Normaliser, cands: seq<Candidate>, others: seq<Candidate>, m: Charted, a: Answer, b: Answer)
    requires multiset(cands) == multiset(others)
    requires IsAnswer(normalise, cands, m, a) && IsAnswer(normalise, others, m, b)
    ensures a == b
  {
    SameMembers(cands, others);
    SameRowsSameNearest(normalise, cands, others, m);
    AnswerKind(normalise, cands, m, a);
    AnswerKind(normalise, others, m, b);
    if a.Found? {
      var c :| IsNearest(normalise, cands, m, c) && a.resolution == ResolutionOf(normalise, m, c);
      var d :| IsNearest(normalise, others, m, d) && b.resolution == ResolutionOf(normalise, m, d);
      OneNearest(normalise, cands, m, c, d);
    }
  }

  lemma {:induction false} SameRowsSameNearest(normalise: Normaliser, cands: seq<Candidate>, others: seq<Candidate>, m: Charted)
    requires forall c :: c in cands <==> c in others
    ensures forall round :: NoneIn(normalise, cands, m, round) <==> NoneIn(normalise, others, m, round)
    ensures Asked(normalise, cands, m) == Asked(normalise, others, m)
    ensures forall c :: IsNearest(normalise, cands, m, c) <==> IsNearest(normalise, others, m, c)
  {
  }

  lemma {:induction false} OneSurname(last: string)
    ensures WithoutParticles([last]) == if last in PARTICLES then [] else [last]
  {
  }

  lemma {:induction false} TwoWords(normalise: Normaliser, full: string, first: string, last: string)
    requires IsWord(first) && IsWord(last) && normalise(full) == first + " " + last
    ensures Surnames(normalise, full) == [last]
  {
    FieldsOfJoin([first, last]);
    assert Join([first, last], " ") == first + " " + Join([last], " ") by {
      assert [first, last][1..] == [last];
    }
    assert Fields(normalise(full)) == [first, last];
    assert [first, last][1..] == [last];
    OneSurname(last);
  }

  lemma {:induction false} WithoutSpacesAppend(a: string, b: string)
    ensures WithoutSpaces(a + b) == WithoutSpaces(a) + WithoutSpaces(b)
  {
    if a == [] {
      assert a + b == b;
    } else {
      assert (a + b)[1..] == a[1..] + b;
      WithoutSpacesAppend(a[1..], b);
    }
  }

  lemma {:induction false} WordHasNoSpaces(w: string)
    requires forall i | 0 <= i < |w| :: !IsSpace(w[i])
    ensures WithoutSpaces(w) == w
  {
    if w != [] {
      WordHasNoSpaces(w[1..]);
      assert w == [w[0]] + w[1..];
    }
  }

  lemma {:induction false} SpaceDropped(s: string)
    ensures WithoutSpaces([' '] + s) == WithoutSpaces(s)
  {
  }

  lemma {:induction false} Unspaced(full: string, first: string, last: string)
    requires IsWord(first) && IsWord(last) && full == first + " " + last
    ensures WithoutSpaces(full) == first + last
  {
    assert full == first + ([' '] + last);
    WithoutSpacesAppend(first, [' '] + last);
    SpaceDropped(last);
    WordHasNoSpaces(first);
    WordHasNoSpaces(last);
  }

  /** The index misses a row that a reading of every row by its players alone would find:
      names of two words that agree only with the space out, as "ab c" and "a bc" do,
      have no surname to be kept under. */
  lemma {:induction false} SpacesAloneAreNotFound(normalise: Normaliser, m: Charted, c: Candidate, f: string, l: string, g: string, k: string)
    requires IsWord(f) && IsWord(l) && IsWord(g) && IsWord(k) && f + l == g + k && l != k
    requires normalise(m.player1) == f + " " + l && normalise(c.winner) == g + " " + k
    requires m.player2 == c.loser && k !in Surnames(normalise, m.player2)
    ensures BothPlay(normalise, m, c) && !SharesPair(normalise, m, c)
  {
    TwoWords(normalise, m.player1, f, l);
    TwoWords(normalise, c.winner, g, k);
    Unspaced(normalise(m.player1), f, l);
    Unspaced(normalise(c.winner), g, k);
    NoPair(normalise, m, c, l, k);
  }

  lemma {:induction false} NoPair(normalise: Normaliser, m: Charted, c: Candidate, l: string, k: string)
    requires Surnames(normalise, m.player1) == [l] && Surnames(normalise, c.winner) == [k] && l != k
    requires k !in Surnames(normalise, m.player2)
    ensures !SharesPair(normalise, m, c)
  {
  }
}
