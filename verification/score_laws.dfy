/** What the score parser and printer promise of each other. */
module ScoreLaws {
  import opened Decimal
  import opened ScoreParser
  import opened Scores
  import opened Text

  // ---------------------------------------------------------------- numbers and sets

  lemma {:induction false} RunOfDigits(ds: string, tail: string)
    requires AllDigits(ds) && (tail == [] || !IsDigit(tail[0]))
    ensures DigitRun(ds + tail, 0) == |ds|
  {
    if ds == [] {
      assert ds + tail == tail;
    } else {
      assert (ds + tail)[1..] == ds[1..] + tail;
      RunOfDigits(ds[1..], tail);
    }
  }

  lemma {:induction false} ReadDigitsOf(number: string, tail: string)
    requires AllDigits(number) && number != [] && Number(number) <= MAX_GAMES && (tail == [] || !IsDigit(tail[0]))
    ensures ReadInt(number + tail, 0) == Got(Number(number), tail)
  {
    RunOfDigits(number, tail);
    assert (number + tail)[..|number|] == number && (number + tail)[|number|..] == tail;
    ReadIntMeans(number + tail, 0);
  }

  /** A printed number reads back, up to the first thing that is not a digit. */
  lemma {:induction false} ReadPrintedInt(n: int, tail: string)
    requires 0 <= n <= MAX_GAMES && (tail == [] || !IsDigit(tail[0]))
    ensures ReadInt(Itoa(n) + tail, 0) == Got(n, tail)
  {
    NumberOfDigits(n);
    ReadDigitsOf(Digits(n), tail);
  }

  lemma {:induction false} ReadWrittenGames(text: string, w: int, second: string, l: int, tail: string, cap: nat)
    requires 0 <= w <= MAX_GAMES && 0 <= l <= MAX_GAMES
    requires ReadInt(text, cap) == Got(w, ['-'] + second) && ReadInt(second, cap) == Got(l, tail)
    ensures ReadSet(text, cap)
         == if At(tail, '(') then ReadTiebreak(tail[1..], cap, w, l) else Got(Set(w, l, 0, 0, false), tail)
  {
  }

  lemma {:induction false} ReadPrintedGames(s: Set, tail: string)
    requires Readable(s) && !s.superTiebreak && (tail == [] || !IsDigit(tail[0]))
    ensures ReadSet(s.Games() + tail, 0)
         == if At(tail, '(') then ReadTiebreak(tail[1..], 0, s.gamesWinner, s.gamesLoser)
            else Got(Set(s.gamesWinner, s.gamesLoser, 0, 0, false), tail)
  {
    var (w, l) := (s.gamesWinner, s.gamesLoser);
    var after := ['-'] + (Itoa(l) + tail);
    assert Itoa(w) + "-" + Itoa(l) + tail == Itoa(w) + after;
    ReadPrintedInt(w, after);
    ReadPrintedInt(l, tail);
    ReadWrittenGames(Itoa(w) + after, w, Itoa(l) + tail, l, tail, 0);
  }

  lemma {:induction false} ReadShortTiebreak(w: int, l: int, points: int, tail: string)
    requires 0 <= w <= MAX_GAMES && 0 <= l <= MAX_GAMES && 0 <= points <= MAX_GAMES
    ensures ReadTiebreak(Itoa(points) + ")" + tail, 0, w, l)
         == Got(Set(w, l, ImpliedTiebreakWinner(points), points, false), tail)
  {
    assert Itoa(points) + ")" + tail == Itoa(points) + (")" + tail);
    ReadPrintedInt(points, ")" + tail);
    assert (")" + tail)[1..] == tail;
  }

  lemma {:induction false} ReadLongTiebreak(w: int, l: int, first: int, second: int, tail: string)
    requires 0 <= w <= MAX_GAMES && 0 <= l <= MAX_GAMES
    requires 0 <= first <= MAX_GAMES && 0 <= second <= MAX_GAMES
    ensures ReadTiebreak(Itoa(first) + "-" + Itoa(second) + ")" + tail, 0, w, l)
         == Got(Set(w, l, first, second, false), tail)
  {
    var after := "-" + (Itoa(second) + (")" + tail));
    assert Itoa(first) + "-" + Itoa(second) + ")" + tail == Itoa(first) + after;
    ReadPrintedInt(first, after);
    assert after[1..] == Itoa(second) + (")" + tail);
    ReadPrintedInt(second, ")" + tail);
    assert (")" + tail)[1..] == tail;
  }

  /** A printed set reads back as itself, before the end or a hyphen. */
  lemma {:induction false} ReadPrintedSet(s: Set, tail: string)
    requires Readable(s) && !s.superTiebreak && (tail == [] || tail[0] == '-')
    ensures ReadSet(s.Print() + tail, 0) == Got(s, tail)
  {
    var (w, l, p) := (s.gamesWinner, s.gamesLoser, s.tiebreakLoser);
    if !s.HasTiebreak() {
      ReadPrintedGames(s, tail);
      assert s == Set(w, l, 0, 0, false);
    } else if s.tiebreakWinner == ImpliedTiebreakWinner(p) {
      ReadShortTiebreak(w, l, p, tail);
      ReadInBrackets(s, Itoa(p), tail);
    } else {
      ReadLongTiebreak(w, l, s.tiebreakWinner, p, tail);
      ReadInBrackets(s, Itoa(s.tiebreakWinner) + "-" + Itoa(p), tail);
    }
  }

  lemma {:induction false} ReadInBrackets(s: Set, points: string, tail: string)
    requires Readable(s) && !s.superTiebreak && s.Print() == s.Games() + "(" + points + ")"
    requires ReadTiebreak(points + ")" + tail, 0, s.gamesWinner, s.gamesLoser) == Got(s, tail)
    ensures ReadSet(s.Print() + tail, 0) == Got(s, tail)
  {
    var rest := ['('] + (points + ")" + tail);
    Bracketed(s.Games(), points, tail);
    ReadPrintedGames(s, rest);
    assert rest[1..] == points + ")" + tail;
  }

  lemma {:induction false} Bracketed(games: string, points: string, tail: string)
    ensures games + "(" + points + ")" + tail == games + (['('] + (points + ")" + tail))
  {
  }

  lemma {:induction false} ReadWrittenSuper(token: string, w: int, second: string, l: int)
    requires ReadInt(TrimSuffix(TrimPrefix(token, "["), "]"), 0) == Got(w, ['-'] + second)
    requires ReadInt(second, 0) == Got(l, "")
    ensures ReadSuperTiebreak(token) == Ok(Set(0, 0, w, l, true))
  {
  }

  lemma {:induction false} ReadPair(w: int, l: int)
    requires 0 <= w <= MAX_GAMES && 0 <= l <= MAX_GAMES
    ensures ReadInt(Itoa(w) + "-" + Itoa(l), 0) == Got(w, ['-'] + (Itoa(l) + ""))
    ensures ReadInt(Itoa(l) + "", 0) == Got(l, "")
  {
    var after := ['-'] + (Itoa(l) + "");
    assert Itoa(w) + "-" + Itoa(l) == Itoa(w) + after;
    ReadPrintedInt(w, after);
    ReadPrintedInt(l, "");
  }

  lemma {:induction false} ReadPrintedSuper(s: Set)
    requires Readable(s) && s.superTiebreak
    ensures ReadSuperTiebreak(s.Print()) == Ok(s)
  {
    InBrackets(s.Print(), Itoa(s.tiebreakWinner) + "-" + Itoa(s.tiebreakLoser));
    ReadPair(s.tiebreakWinner, s.tiebreakLoser);
    ReadWrittenSuper(s.Print(), s.tiebreakWinner, Itoa(s.tiebreakLoser) + "", s.tiebreakLoser);
  }

  lemma {:induction false} InBrackets(token: string, body: string)
    requires token == "[" + body + "]"
    ensures TrimSuffix(TrimPrefix(token, "["), "]") == body
  {
  }

  lemma {:induction false} ReadsLast(text: string, cap: nat, s: Set)
    requires ReadSet(text, cap) == Got(s, "")
    ensures ReadSets(text, cap) == Ok([s])
  {
  }

  lemma {:induction false} ReadsPastHyphen(text: string, cap: nat, s: Set, rest: string)
    requires ReadSet(text, cap) == Got(s, ['-'] + rest)
    ensures ReadSets(text, cap) == Led(s, ReadSets(rest, cap))
  {
  }

  lemma {:induction false} ReadsOntoDigit(text: string, cap: nat, s: Set, rest: string)
    requires ReadSet(text, cap) == Got(s, rest) && rest != [] && IsDigit(rest[0])
    ensures ReadSets(text, cap) == Led(s, ReadSets(rest, cap))
  {
  }

  // ---------------------------------------------------------------- run together

  lemma {:induction false} PrintsTail(sets: seq<Set>)
    requires sets != []
    ensures Prints(sets)[0] == sets[0].Print() && Prints(sets)[1..] == Prints(sets[1..])
  {
    forall i | 0 <= i < |sets| - 1
      ensures Prints(sets)[1..][i] == Prints(sets[1..])[i]
    {
      assert sets[1..][i] == sets[i + 1];
    }
  }

  lemma {:induction false} SetThenJoined(first: Set, joined: string)
    requires Readable(first) && !first.superTiebreak
    ensures ReadSets(first.Print() + "-" + joined, 0) == Led(first, ReadSets(joined, 0))
  {
    var tail := ['-'] + joined;
    ReadPrintedSet(first, tail);
    ReadsPastHyphen(first.Print() + tail, 0, first, joined);
    assert first.Print() + "-" + joined == first.Print() + tail;
  }

  /** Printed sets joined by hyphens scan back to exactly those sets. */
  lemma {:induction false} HyphenJoinedSetsReadBack(sets: seq<Set>)
    requires sets != [] && AllReadable(sets) && forall i | 0 <= i < |sets| :: !sets[i].superTiebreak
    ensures ReadSets(Join(Prints(sets), "-"), 0) == Ok(sets)
  {
    PrintsTail(sets);
    var first := sets[0];
    if |sets| == 1 {
      ReadPrintedSet(first, "");
      assert first.Print() + "" == first.Print();
      ReadsLast(first.Print(), 0, first);
      assert sets == [first];
    } else {
      var rest := sets[1..];
      assert forall i | 0 <= i < |rest| :: rest[i] == sets[i + 1];
      HyphenJoinedSetsReadBack(rest);
      SetThenJoined(first, Join(Prints(rest), "-"));
      assert sets == [first] + rest;
    }
  }

  /** A set of single-digit games and no tiebreak. */
  predicate Plain(s: Set) {
    0 <= s.gamesWinner < 10 && 0 <= s.gamesLoser < 10 && s == Set(s.gamesWinner, s.gamesLoser, 0, 0, false)
  }

  ghost predicate AllPlain(sets: seq<Set>) {
    forall i | 0 <= i < |sets| :: Plain(sets[i])
  }

  lemma {:induction false} PlainTail(sets: seq<Set>)
    requires sets != [] && AllPlain(sets)
    ensures Plain(sets[0]) && AllPlain(sets[1..])
    ensures Concat(Prints(sets)) == sets[0].Print() + Concat(Prints(sets[1..]))
  {
    PrintsTail(sets);
    assert forall i | 0 <= i < |sets[1..]| :: sets[1..][i] == sets[i + 1];
  }

  lemma {:induction false} PlainPrint(s: Set)
    requires Plain(s)
    ensures s.Print() == [DigitChar(s.gamesWinner), '-', DigitChar(s.gamesLoser)]
  {
  }

  lemma {:induction false} ReadOneDigit(d: nat, tail: string)
    requires d < 10
    ensures ReadInt([DigitChar(d)] + tail, 1) == Got(d, tail)
  {
    var s := [DigitChar(d)] + tail;
    assert s[..1] == [DigitChar(d)] && s[1..] == tail;
    NumberOfDigits(d);
    ReadIntMeans(s, 1);
  }

  lemma {:induction false} ReadPlain(s: Set, tail: string)
    requires Plain(s) && (tail == [] || IsDigit(tail[0]))
    ensures ReadSet(s.Print() + tail, 1) == Got(s, tail)
  {
    PlainPrint(s);
    var after := "-" + ([DigitChar(s.gamesLoser)] + tail);
    assert s.Print() + tail == [DigitChar(s.gamesWinner)] + after;
    ReadSetMeans(s.Print() + tail, 1);
    ReadOneDigit(s.gamesWinner, after);
    assert after[1..] == [DigitChar(s.gamesLoser)] + tail;
    ReadOneDigit(s.gamesLoser, tail);
  }

  lemma {:induction false} TogetherStartsWithDigit(sets: seq<Set>)
    requires sets != [] && AllPlain(sets)
    ensures Concat(Prints(sets)) != [] && IsDigit(Concat(Prints(sets))[0])
  {
  }

  /** Read a digit at a time, sets run together come apart where they were put together. */
  lemma {:induction false} SingleDigitsReadBack(sets: seq<Set>)
    requires sets != [] && AllPlain(sets)
    ensures ReadSets(Concat(Prints(sets)), 1) == Ok(sets)
  {
    PlainTail(sets);
    var first, rest := sets[0], sets[1..];
    assert sets == [first] + rest;
    var tail := Concat(Prints(rest));
    if rest == [] {
      assert tail == "" && sets == [first];
      ReadPlain(first, tail);
      ReadsLast(first.Print() + tail, 1, first);
    } else {
      TogetherStartsWithDigit(rest);
      ReadPlain(first, tail);
      ReadsOntoDigit(first.Print() + tail, 1, first, tail);
      SingleDigitsReadBack(rest);
    }
  }

  lemma {:induction false} TwoDigits(d: nat, e: nat)
    requires d < 10 && e < 10
    ensures Number([DigitChar(d), DigitChar(e)]) == 10 * d + e
  {
    var ds := [DigitChar(d), DigitChar(e)];
    assert ds[..1] == [DigitChar(d)] && ds[..1][..0] == [];
    assert Number(ds) == Number(ds[..1]) * 10 + e;
    assert Number(ds[..1]) == d;
  }

  lemma {:induction false} Swallowed(number: string, l: nat, next: Set, tail: string)
    requires l < 10 && Plain(next)
    ensures number + ['-', DigitChar(l)] + (next.Print() + tail)
         == number + (['-'] + ([DigitChar(l), DigitChar(next.gamesWinner)] + (['-', DigitChar(next.gamesLoser)] + tail)))
  {
  }

  /** The games of a greedy reading: the second number swallows the next set's first digit. */
  lemma {:induction false} GreedySwallows(number: string, w: int, l: nat, next: Set, tail: string)
    requires l < 10 && Plain(next)
    requires AllDigits(number) && number != [] && Number(number) == w && 0 <= w <= MAX_GAMES
    ensures ReadSet(number + ['-', DigitChar(l)] + (next.Print() + tail), 0)
         == Got(Set(w, 10 * l + next.gamesWinner, 0, 0, false), ['-', DigitChar(next.gamesLoser)] + tail)
  {
    var left := ['-', DigitChar(next.gamesLoser)] + tail;
    var pair := [DigitChar(l), DigitChar(next.gamesWinner)];
    Swallowed(number, l, next, tail);
    ReadDigitsOf(number, ['-'] + (pair + left));
    TwoDigits(l, next.gamesWinner);
    ReadDigitsOf(pair, left);
    ReadWrittenGames(number + (['-'] + (pair + left)), w, pair + left, 10 * l + next.gamesWinner, left, 0);
  }

  lemma {:induction false} GreedyLast(number: string, w: int, l: nat)
    requires l < 10 && AllDigits(number) && number != [] && Number(number) == w && 0 <= w <= MAX_GAMES
    ensures ReadSets(number + ['-', DigitChar(l)], 0) == Ok([Set(w, l, 0, 0, false)])
  {
    var after := ['-', DigitChar(l)];
    ReadDigitsOf(number, after);
    ReadSetMeans(number + after, 0);
    assert after[1..] == Itoa(l) + "";
    ReadPrintedInt(l, "");
    ReadsLast(number + after, 0, Set(w, l, 0, 0, false));
  }

  /** What a greedy reading of `count` sets behind a lone digit comes to. */
  predicate PairedOff(r: Result<seq<Set>>, count: nat) {
    if count % 2 == 1 then r.Ok? && |r.value| == (count + 1) / 2 else r == Malformed
  }

  lemma {:induction false} GreedyPastTwo(text: string, s: Set, d: nat, rest: string, count: nat)
    requires d < 10 && ReadSet(text, 0) == Got(s, ['-', DigitChar(d)] + rest)
    requires PairedOff(ReadSets([DigitChar(d)] + rest, 0), count)
    ensures PairedOff(ReadSets(text, 0), count + 2)
  {
    assert ['-', DigitChar(d)] + rest == ['-'] + ([DigitChar(d)] + rest);
    ReadsPastHyphen(text, 0, s, [DigitChar(d)] + rest);
  }

  lemma {:induction false} LoneDigit(d: nat)
    requires d < 10
    ensures ReadSets([DigitChar(d)], 0) == Malformed
  {
  }

  lemma {:induction false} GreedyOne(d: nat, s: Set)
    requires d < 10 && Plain(s)
    ensures PairedOff(ReadSets([DigitChar(d)] + (s.Print() + ""), 0), 1)
  {
    var number := [DigitChar(d), DigitChar(s.gamesWinner)];
    DigitThenSet(d, s, "");
    TwoDigits(d, s.gamesWinner);
    GreedyLast(number, 10 * d + s.gamesWinner, s.gamesLoser);
    assert number + ['-', DigitChar(s.gamesLoser)] + "" == number + ['-', DigitChar(s.gamesLoser)];
  }

  lemma {:induction false} DigitSwallows(d: nat, s: Set, next: Set, tail: string)
    requires d < 10 && Plain(s) && Plain(next)
    ensures ReadSet([DigitChar(d), DigitChar(s.gamesWinner)] + ['-', DigitChar(s.gamesLoser)] + (next.Print() + tail), 0)
         == Got(Set(10 * d + s.gamesWinner, 10 * s.gamesLoser + next.gamesWinner, 0, 0, false),
                ['-', DigitChar(next.gamesLoser)] + tail)
  {
    TwoDigits(d, s.gamesWinner);
    GreedySwallows([DigitChar(d), DigitChar(s.gamesWinner)], 10 * d + s.gamesWinner, s.gamesLoser, next, tail);
  }

  lemma {:induction false} GreedyTwo(d: nat, s: Set, next: Set, tail: string, count: nat)
    requires d < 10 && Plain(s) && Plain(next)
    requires PairedOff(ReadSets([DigitChar(next.gamesLoser)] + tail, 0), count)
    ensures PairedOff(ReadSets([DigitChar(d)] + (s.Print() + (next.Print() + tail)), 0), count + 2)
  {
    DigitThenSet(d, s, next.Print() + tail);
    DigitSwallows(d, s, next, tail);
    GreedyPastTwo([DigitChar(d)] + (s.Print() + (next.Print() + tail)),
                  Set(10 * d + s.gamesWinner, 10 * s.gamesLoser + next.gamesWinner, 0, 0, false),
                  next.gamesLoser, tail, count);
  }

  /** Greedy reading when one lone digit is left in front of the sets: it pairs the sets off. */
  lemma {:induction false} GreedyAfterDigit(d: nat, sets: seq<Set>)
    requires d < 10 && AllPlain(sets)
    ensures PairedOff(ReadSets([DigitChar(d)] + Concat(Prints(sets)), 0), |sets|)
    decreases |sets|
  {
    if sets == [] {
      assert [DigitChar(d)] + Concat(Prints(sets)) == [DigitChar(d)];
      LoneDigit(d);
    } else {
      PlainTail(sets);
      if |sets| == 1 {
        assert Concat(Prints(sets[1..])) == "";
        GreedyOne(d, sets[0]);
      } else {
        PlainTail(sets[1..]);
        GreedyAfterDigit(sets[1].gamesLoser, sets[1..][1..]);
        GreedyTwo(d, sets[0], sets[1], Concat(Prints(sets[1..][1..])), |sets| - 2);
      }
    }
  }

  lemma {:induction false} DigitThenSet(d: nat, s: Set, tail: string)
    requires d < 10 && Plain(s)
    ensures [DigitChar(d)] + (s.Print() + tail)
         == [DigitChar(d), DigitChar(s.gamesWinner)] + ['-', DigitChar(s.gamesLoser)] + tail
  {
  }

  lemma {:induction false} SetSwallows(s: Set, next: Set, tail: string)
    requires Plain(s) && Plain(next)
    ensures ReadSet(s.Print() + (next.Print() + tail), 0)
         == Got(Set(s.gamesWinner, 10 * s.gamesLoser + next.gamesWinner, 0, 0, false),
                ['-', DigitChar(next.gamesLoser)] + tail)
  {
    var number := [DigitChar(s.gamesWinner)];
    PlainPrint(s);
    NumberOfDigits(s.gamesWinner);
    assert s.Print() + (next.Print() + tail) == number + ['-', DigitChar(s.gamesLoser)] + (next.Print() + tail);
    GreedySwallows(number, s.gamesWinner, s.gamesLoser, next, tail);
  }

  lemma {:induction false} GreedyFirstTwo(s: Set, next: Set, tail: string, count: nat)
    requires Plain(s) && Plain(next)
    requires PairedOff(ReadSets([DigitChar(next.gamesLoser)] + tail, 0), count)
    ensures PairedOff(ReadSets(s.Print() + (next.Print() + tail), 0), count + 2)
  {
    SetSwallows(s, next, tail);
    GreedyPastTwo(s.Print() + (next.Print() + tail), Set(s.gamesWinner, 10 * s.gamesLoser + next.gamesWinner, 0, 0, false),
                  next.gamesLoser, tail, count);
  }

  /** Greedy reading of sets run together: an odd number of them is accepted, as about half as many. */
  lemma {:induction false} GreedyTogether(sets: seq<Set>)
    requires |sets| > 1 && AllPlain(sets)
    ensures PairedOff(ReadSets(Concat(Prints(sets)), 0), |sets|)
  {
    PlainTail(sets);
    PlainTail(sets[1..]);
    var rest := sets[1..][1..];
    GreedyAfterDigit(sets[1].gamesLoser, rest);
    GreedyFirstTwo(sets[0], sets[1], Concat(Prints(rest)), |rest|);
  }

  lemma {:induction false} TogetherIsAToken(sets: seq<Set>)
    requires sets != [] && AllPlain(sets)
    ensures var t := Concat(Prints(sets)); !HasPrefix(t, "[") && !HasSuffix(t, "-")
  {
    TogetherStartsWithDigit(sets);
    TogetherEndsWithDigit(sets);
  }

  lemma {:induction false} TogetherEndsWithDigit(sets: seq<Set>)
    requires sets != [] && AllPlain(sets)
    ensures var t := Concat(Prints(sets)); t != [] && IsDigit(t[|t| - 1])
  {
    PlainTail(sets);
    PlainPrint(sets[0]);
    if |sets| > 1 {
      TogetherEndsWithDigit(sets[1..]);
    }
  }

  /** Plain sets run together with nothing between them are told apart exactly when
      there is one or an even number of them: the greedy reading accepts any odd number,
      as fewer sets than were written. */
  lemma {:induction false} RunTogetherReadBackIff(sets: seq<Set>)
    requires sets != [] && AllPlain(sets)
    ensures ReadToken(Concat(Prints(sets))) == Ok(sets) <==> |sets| == 1 || |sets| % 2 == 0
    ensures |sets| % 2 == 1 ==> ReadToken(Concat(Prints(sets))).Ok?
  {
    var t := Concat(Prints(sets));
    TogetherIsAToken(sets);
    SingleDigitsReadBack(sets);
    if |sets| == 1 {
      PlainTail(sets);
      ReadPrintedSet(sets[0], "");
      assert t == sets[0].Print() + "";
      ReadsLast(t, 0, sets[0]);
      assert sets == [sets[0]];
    } else {
      GreedyTogether(sets);
    }
  }
}
