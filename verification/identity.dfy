/** Finding one person under several ids (internal/identity/identity.go). */
module Identity {
  import opened Collections
  import opened Lexical
  import opened Sorting
  import opened Text

  datatype Date = Date(year: int, month: int, day: int)

  datatype Player = Player(id: int, sourceId: string, fullName: string, country: string, birthDate: Option<Date>,
                           birthYear: Option<int>, matches: int, matchOnly: bool) {
    predicate Numeric() {
      sourceId != "" && forall i | 0 <= i < |sourceId| :: IsDigit(sourceId[i])
    }

    /** Known from match rows alone. */
    predicate Stub() {
      !Numeric() || matchOnly
    }

    /** The exact year where there is one, else the derived one; 0 is unknown. */
    function Year(): int {
      if birthDate.Some? then birthDate.value.year else if birthYear.Some? then birthYear.value else 0
    }
  }

  const AUTO_LINK := 0.90
  const REVIEW_FLOOR := 0.50

  /** A proposed link: the duplicate is to be folded into the canonical row. */
  datatype Link = Link(canonical: Player, duplicate: Player, confidence: real) {
    predicate Auto() {
      confidence >= AUTO_LINK
    }
  }

  // ---------------------------------------------------------------- the key of a name

  /** The words of a name, commas as spaces, folded by `normalise`. */
  function Words(normalise: string -> string, fullName: string): seq<string> {
    Fields(normalise(WithoutCommas(fullName)))
  }

  function WithoutCommas(s: string): string {
    if s == [] then [] else [if s[0] == ',' then ' ' else s[0]] + WithoutCommas(s[1..])
  }

  function KeyOf(normalise: string -> string, fullName: string): string {
    Join(Sort(Words(normalise, fullName), AtMost), " ")
  }

  ghost predicate SortedBut(s: seq<string>, n: nat, j: nat)
    requires j < n <= |s|
  {
    && (forall x, y | 0 <= x < y < n && x != j && y != j :: AtMost(s[x], s[y]))
    && (forall y | j < y < n :: AtMost(s[j], s[y]))
  }

  ghost predicate SortedTo(s: seq<string>, n: nat) {
    forall x, y | 0 <= x < y < n && y < |s| :: AtMost(s[x], s[y])
  }

  /** An insertion partway: what was given, with the `n`-th sunk as far as `j`. */
  ghost predicate Sinking(s: seq<string>, given: seq<string>, n: nat, j: nat) {
    j < n <= |s| && multiset(s) == multiset(given) && SortedBut(s, n, j)
  }

  lemma {:induction false} SwapDown(s: seq<string>, given: seq<string>, n: nat, j: nat)
    requires 0 < j && Sinking(s, given, n, j) && TotalOrder(AtMost) && !AtMost(s[j - 1], s[j])
    ensures Sinking(s[j := s[j - 1]][j - 1 := s[j]], given, n, j - 1)
  {
  }

  /** Insertion sort, in place. */
  method InsertionSort(parts: array<string>)
    modifies parts
    ensures parts[..] == Sort(old(parts[..]), AtMost)
  {
    ghost var given := parts[..];
    StringsAreOrdered();
    var i := 1;
    while i < parts.Length
      invariant 1 <= i && (i <= parts.Length || parts.Length == 0)
      invariant multiset(parts[..]) == multiset(given) && SortedTo(parts[..], i)
    {
      var j := i;
      StartsToSink(parts[..], given, i);
      while j > 0 && !AtMost(parts[j - 1], parts[j])
        invariant 0 <= j <= i < parts.Length && Sinking(parts[..], given, i + 1, j)
      {
        ghost var before := parts[..];
        SwapDown(before, given, i + 1, j);
        parts[j], parts[j - 1] := parts[j - 1], parts[j];
        assert parts[..] == before[j := before[j - 1]][j - 1 := before[j]];
        j := j - 1;
      }
      SettledAt(parts[..], i + 1, j);
      i := i + 1;
    }
    SortSorted(given, AtMost);
    SortElements(given, AtMost);
    SortedUnique(parts[..], Sort(given, AtMost), AtMost);
  }

  lemma {:induction false} StartsToSink(s: seq<string>, given: seq<string>, i: nat)
    requires i < |s| && multiset(s) == multiset(given) && SortedTo(s, i)
    ensures Sinking(s, given, i + 1, i)
  {
  }

  lemma {:induction false} SettledAt(s: seq<string>, n: nat, j: nat)
    requires j < n <= |s| && SortedBut(s, n, j) && TotalOrder(AtMost) && (j > 0 ==> AtMost(s[j - 1], s[j]))
    ensures SortedTo(s, n)
  {
  }

  /** The name candidates are grouped by. */
  method Key(normalise: string -> string, fullName: string) returns (key: string)
    ensures key == KeyOf(normalise, fullName)
  {
    var words := Words(normalise, fullName);
    if |words| == 0 {
      return "";
    }
    var parts := new string[|words|](i requires 0 <= i < |words| => words[i]);
    assert parts[..] == words;
    InsertionSort(parts);
    key := Join(parts[..], " ");
  }

  lemma {:induction false} FieldsAreWords(s: string)
    ensures AllWords(Fields(s))
    decreases |s|
  {
    var t := SkipSpaces(s);
    if t != [] {
      WordLengthIsWord(t);
      FieldsAreWords(t[WordLength(t)..]);
    }
  }

  lemma {:induction false} WordLengthIsWord(s: string)
    ensures forall i | 0 <= i < WordLength(s) :: !IsSpace(s[i])
  {
    if s != [] && !IsSpace(s[0]) {
      WordLengthIsWord(s[1..]);
      forall i | 0 < i < WordLength(s)
        ensures !IsSpace(s[i])
      {
        assert s[1..][i - 1] == s[i];
      }
    }
  }

  lemma {:induction false} SortedWords(ws: seq<string>)
    requires AllWords(ws)
    ensures AllWords(Sort(ws, AtMost)) && Fields(Join(Sort(ws, AtMost), " ")) == Sort(ws, AtMost)
  {
    SortElements(ws, AtMost);
    SameMembers(ws, Sort(ws, AtMost));
    forall i | 0 <= i < |ws|
      ensures IsWord(Sort(ws, AtMost)[i])
    {
      assert Sort(ws, AtMost)[i] in ws;
    }
    FieldsOfJoin(Sort(ws, AtMost));
  }

  /** Two names share a key exactly when they have the same words, as often, in any order. */
  lemma {:induction false} KeysAgreeIff(normalise: string -> string, a: string, b: string)
    ensures KeyOf(normalise, a) == KeyOf(normalise, b)
       <==> multiset(Words(normalise, a)) == multiset(Words(normalise, b))
  {
    var u, v := Words(normalise, a), Words(normalise, b);
    FieldsAreWords(normalise(WithoutCommas(a)));
    FieldsAreWords(normalise(WithoutCommas(b)));
    SortedWords(u);
    SortedWords(v);
    SortElements(u, AtMost);
    SortElements(v, AtMost);
    if multiset(u) == multiset(v) {
      StringsAreOrdered();
      SortSorted(u, AtMost);
      SortSorted(v, AtMost);
      SortedUnique(Sort(u, AtMost), Sort(v, AtMost), AtMost);
    }
  }

  // ---------------------------------------------------------------- scoring a pair

  predicate SameCountry(a: Player, b: Player) {
    a.country != "" && b.country != "" && a.country == b.country
  }

  predicate OtherCountry(a: Player, b: Player) {
    a.country != "" && b.country != "" && a.country != b.country
  }

  function Gap(a: Player, b: Player): int {
    if a.Year() < b.Year() then b.Year() - a.Year() else a.Year() - b.Year()
  }

  function ScoreByYear(a: Player, b: Player): real {
    if a.birthYear.Some? && b.birthYear.Some? && a.birthYear == b.birthYear then 0.90
    else if a.birthDate.None? && b.birthDate.None? then 0.0
    else if Gap(a, b) == 0 then 0.90
    else if Gap(a, b) == 1 then 0.70
    else 0.0
  }

  /** How sure a pair that shares a key is one person. */
  function Score(a: Player, b: Player): real {
    if a.birthDate.Some? && b.birthDate.Some? then
      if a.birthDate != b.birthDate then 0.0 else if OtherCountry(a, b) then 0.70 else 1.00
    else if SameCountry(a, b) && a.Year() != 0 && b.Year() != 0 then ScoreByYear(a, b)
    else if SameCountry(a, b) then 0.60
    else 0.40
  }

  /** Which side is which does not matter. */
  lemma {:induction false} ScoreIsSymmetric(a: Player, b: Player)
    ensures Score(a, b) == Score(b, a)
  {
  }

  /** Exactly what merges without asking: the same date of birth, countries not at odds; or,
      short of two dates, the same country and birth years known on both sides that agree. */
  lemma {:induction false} AutoMeans(a: Player, b: Player)
    ensures Score(a, b) >= AUTO_LINK <==>
            if a.birthDate.Some? && b.birthDate.Some? then a.birthDate == b.birthDate && !OtherCountry(a, b)
            else SameCountry(a, b) && a.Year() != 0 && b.Year() != 0
                 && ((a.birthYear.Some? && a.birthYear == b.birthYear)
                     || (a.Year() == b.Year() && (a.birthDate.Some? || b.birthDate.Some?)))
  {
  }

  /** The year a player is known to be born in, by date or, for want of one, derived. */
  predicate BornIn(p: Player, year: int) {
    year != 0 && (p.birthDate.Some? ==> p.birthDate.value.year == year) && (p.birthDate.None? ==> p.birthYear == Some(year))
  }

  /** What every pair that shares a key scores. Two dates decide: nothing where they differ, and
      otherwise all unless the countries differ. Short of two dates a pair of one country goes by
      the years of birth: sure where both derived years agree or where, with one date, the years
      agree; in doubt where that date is one year off; nothing where they differ more, or where
      derived years alone differ; and 0.60 where a year is unknown. The rest is 0.40. */
  lemma {:induction false} ScoreCases(a: Player, b: Player, y: int, z: int)
    ensures a.birthDate.Some? && b.birthDate.Some? ==>
              Score(a, b) == if a.birthDate != b.birthDate then 0.0
                             else if a.country != "" && b.country != "" && a.country != b.country then 0.70 else 1.00
    ensures a.birthDate.None? || b.birthDate.None? ==>
              && (a.country == "" || a.country != b.country ==> Score(a, b) == 0.40)
              && (a.country != "" && a.country == b.country ==>
                    && ((forall v :: !BornIn(a, v)) || (forall v :: !BornIn(b, v)) ==> Score(a, b) == 0.60)
                    && (BornIn(a, y) && BornIn(b, z) ==>
                          Score(a, b) == if a.birthYear.Some? && a.birthYear == b.birthYear then 0.90
                                         else if a.birthDate.None? && b.birthDate.None? then 0.0
                                         else if y == z then 0.90 else if y == z + 1 || z == y + 1 then 0.70 else 0.0))
    ensures Score(a, b) >= REVIEW_FLOOR <==> Score(a, b) in {0.60, 0.70, 0.90, 1.00}
  {
    assert a.Year() != 0 ==> BornIn(a, a.Year());
    assert b.Year() != 0 ==> BornIn(b, b.Year());
  }

  /** Who is known from match rows alone: whoever has an id that is not all digits, and whoever no
      player table carries. */
  lemma {:induction false} StubMeans(p: Player)
    ensures p.Stub() <==> p.sourceId == "" || p.matchOnly || exists i :: 0 <= i < |p.sourceId| && !('0' <= p.sourceId[i] <= '9')
  {
  }

  /** A comma in a name stands for a space, and nothing else does. */
  lemma {:induction false} CommasAreSpaces(s: string, i: nat)
    requires i < |s|
    ensures |WithoutCommas(s)| == |s| && WithoutCommas(s)[i] == if s[i] == ',' then ' ' else s[i]
  {
    if i > 0 {
      CommasAreSpaces(s[1..], i - 1);
    } else if |s| > 1 {
      CommasAreSpaces(s[1..], 0);
    }
  }

  // ---------------------------------------------------------------- the best candidates

  ghost predicate IsBest(candidates: seq<Player>, dup: Player, n: nat, best: nat) {
    best < n <= |candidates| && forall i | 0 <= i < n :: Score(candidates[i], dup) <= Score(candidates[best], dup)
  }

  ghost predicate IsSecond(candidates: seq<Player>, dup: Player, n: nat, best: nat, second: nat) {
    && second < n <= |candidates| && second != best && best < n
    && forall i | 0 <= i < n && i != best :: Score(candidates[i], dup) <= Score(candidates[second], dup)
  }

  /** The highest scoring candidate and the next, where there are so many. */
  method BestTwo(candidates: seq<Player>, dup: Player) returns (best: Option<nat>, second: Option<nat>)
    ensures best.None? <==> candidates == []
    ensures second.None? <==> |candidates| < 2
    ensures best.Some? ==> IsBest(candidates, dup, |candidates|, best.value)
    ensures second.Some? ==> best.Some? && IsSecond(candidates, dup, |candidates|, best.value, second.value)
  {
    best, second := None, None;
    var bestScore, secondScore := -1.0, -1.0;
    for i := 0 to |candidates|
      invariant best.None? <==> i == 0
      invariant second.None? <==> i < 2
      invariant best.Some? ==> IsBest(candidates, dup, i, best.value) && bestScore == Score(candidates[best.value], dup)
      invariant second.Some? ==> best.Some? && IsSecond(candidates, dup, i, best.value, second.value)
                                 && secondScore == Score(candidates[second.value], dup)
      invariant best.None? ==> bestScore == -1.0
      invariant second.None? ==> secondScore == -1.0
    {
      var s := Score(candidates[i], dup);
      if s > bestScore {
        second, secondScore := best, bestScore;
        best, bestScore := Some(i), s;
      } else if s > secondScore {
        second, secondScore := Some(i), s;
      }
    }
  }
}
