/** What written lines are read as, spelled out: the written forms of a set, and the words and
    marks that say how a match ended. */
module ScoreReadings {
  import opened Decimal
  import opened ScoreLaws
  import opened ScoreParser
  import opened ScoreRoundTrip
  import opened Scores
  import opened Text

  predicate Plausible(n: int) {
    0 <= n <= 99
  }

  // ---------------------------------------------------------------- the forms of a set

  lemma {:induction false} StartsWithNumber(n: nat, rest: string)
    requires Plausible(n)
    ensures var token := Itoa(n) + rest; token != [] && IsDigit(token[0]) && !HasPrefix(token, "[")
  {
  }

  lemma {:induction false} ReadsAsOne(token: string, s: Set)
    requires ReadSet(token, 0) == Got(s, "") && token != [] && IsDigit(token[0]) && !HasSuffix(token, "-")
    ensures ReadToken(token) == Ok([s])
  {
    ReadsLast(token, 0, s);
  }

  /** Games alone: the winner's first, and no tiebreak. */
  lemma {:induction false} GamesAsWritten(a: int, b: int)
    requires Plausible(a) && Plausible(b)
    ensures ReadToken(Itoa(a) + "-" + Itoa(b)) == Ok([Set(a, b, 0, 0, false)])
  {
    var s := Set(a, b, 0, 0, false);
    PrintReadsBack(s);
    assert s.Print() == Itoa(a) + "-" + Itoa(b);
  }

  lemma {:induction false} BracketedToken(games: string, points: string)
    ensures var token := games + "(" + points + ")";
            && token == games + (['('] + (points + ")" + ""))
            && !HasSuffix(token, "-") && (games != [] ==> token != [] && token[0] == games[0])
  {
    Bracketed(games, points, "");
  }

  lemma {:induction false} BracketsAsWritten(a: int, b: int, points: string, s: Set)
    requires Plausible(a) && Plausible(b) && ReadTiebreak(points + ")" + "", 0, a, b) == Got(s, "")
    ensures ReadToken(Itoa(a) + "-" + Itoa(b) + "(" + points + ")") == Ok([s])
  {
    var games := Set(a, b, 0, 0, false);
    var tail := ['('] + (points + ")" + "");
    ReadPrintedGames(games, tail);
    assert tail[1..] == points + ")" + "";
    BracketedToken(games.Games(), points);
    ReadsAsOne(games.Games() + tail, s);
  }

  /** A tiebreak with both sides' points, whatever they are: the winner's first. */
  lemma {:induction false} TiebreakAsWritten(a: int, b: int, c: int, d: int)
    requires Plausible(a) && Plausible(b) && Plausible(c) && Plausible(d)
    ensures ReadToken(Itoa(a) + "-" + Itoa(b) + "(" + (Itoa(c) + "-" + Itoa(d)) + ")") == Ok([Set(a, b, c, d, false)])
  {
    ReadLongTiebreak(a, b, c, d, "");
    BracketsAsWritten(a, b, Itoa(c) + "-" + Itoa(d), Set(a, b, c, d, false));
  }

  lemma {:induction false} FirstToSeven(p: int)
    ensures var w := ImpliedTiebreakWinner(p); w >= 7 && w >= p + 2 && (w == 7 || w == p + 2)
  {
  }

  /** A tiebreak with the loser's points alone: its winner had seven or, where that is not two
      clear, two more than the loser. */
  lemma {:induction false} ShortTiebreakAsWritten(a: int, b: int, p: int) returns (w: int)
    requires Plausible(a) && Plausible(b) && Plausible(p)
    ensures ReadToken(Itoa(a) + "-" + Itoa(b) + "(" + Itoa(p) + ")") == Ok([Set(a, b, w, p, false)])
    ensures w >= 7 && w >= p + 2 && (w == 7 || w == p + 2)
  {
    w := ImpliedTiebreakWinner(p);
    FirstToSeven(p);
    ReadShortTiebreak(a, b, p, "");
    BracketsAsWritten(a, b, Itoa(p), Set(a, b, w, p, false));
  }

  /** The same of the commonest set. */
  lemma {:induction false} SevenSix(p: int) returns (w: int)
    requires Plausible(p)
    ensures ReadToken("7-6(" + Itoa(p) + ")") == Ok([Set(7, 6, w, p, false)])
    ensures w >= 7 && w >= p + 2 && (w == 7 || w == p + 2)
  {
    w := ShortTiebreakAsWritten(7, 6, p);
    SevenSixIs();
  }

  lemma {:induction false} SevenSixIs()
    ensures Itoa(7) + "-" + Itoa(6) + "(" == "7-6("
  {
    assert Itoa(7) == "7" && Itoa(6) == "6";
  }

  /** A match tiebreak: points and no games. */
  lemma {:induction false} MatchTiebreakAsWritten(c: int, d: int)
    requires Plausible(c) && Plausible(d)
    ensures ReadToken("[" + Itoa(c) + "-" + Itoa(d) + "]") == Ok([Set(0, 0, c, d, true)])
  {
    PrintReadsBack(Set(0, 0, c, d, true));
  }

  /** A set split by a stray space is put together, and so is a tiebreak split from its games. */
  lemma {:induction false} SplitSetsAreJoined(a: int, b: int, p: int)
    requires Plausible(a) && Plausible(b) && Plausible(p)
    ensures Heal([Itoa(a) + "-", Itoa(b)], []) == [Itoa(a) + "-" + Itoa(b)]
    ensures Heal([Itoa(a) + "-" + Itoa(b), "(" + Itoa(p) + ")"], []) == [Itoa(a) + "-" + Itoa(b) + ("(" + Itoa(p) + ")")]
  {
    var games, points := Itoa(a) + "-" + Itoa(b), "(" + Itoa(p) + ")";
    StartsWithNumber(a, "-");
    assert Heal([], [Itoa(a) + "-" + Itoa(b)]) == [Itoa(a) + "-" + Itoa(b)];
    assert [Itoa(a) + "-", Itoa(b)][2..] == [];
    assert IsDigit(Itoa(b)[|Itoa(b)| - 1]) && games[|games| - 1] == Itoa(b)[|Itoa(b)| - 1];
    assert games == Itoa(a) + ("-" + Itoa(b));
    StartsWithNumber(a, "-" + Itoa(b));
    assert [games, points][1..] == [points] && [points][1..] == [];
    assert Heal([points], [games]) == Heal([], [games + points]);
  }

  // ---------------------------------------------------------------- how a match ended

  lemma {:induction false} LineCharacters(ts: seq<string>, word: string, c: char)
    requires AllClean(ts) && c in Join(ts + [word], " ") && c !in word
    ensures c == ' ' || TokenChar(c)
  {
    JoinedCharacter(ts + [word], c);
    if c != ' ' {
      var i :| 0 <= i < |ts + [word]| && c in (ts + [word])[i];
      assert i < |ts| && Clean(ts[i]);
    }
  }

  /** A letter that is in no part of a line, small or capital, is not in the line made small. */
  lemma {:induction false} LetterMissing(ts: seq<string>, word: string, c: char)
    requires AllClean(ts) && 'a' <= c <= 'z' && c !in Lower(word)
    ensures c !in Lower(Join(ts + [word], " "))
  {
    var line := Join(ts + [word], " ");
    forall k | 0 <= k < |line|
      ensures LowerChar(line[k]) != c
    {
      if line[k] in word {
        var j :| 0 <= j < |word| && word[j] == line[k];
        assert Lower(word)[j] == LowerChar(word[j]);
      } else {
        LineCharacters(ts, word, line[k]);
      }
    }
  }

  lemma {:induction false} NoProse(text: string, c: char)
    requires 'p' !in Lower(text) && 'i' !in Lower(text) && c in "abandoned" && c !in Lower(text)
    ensures Stripped(text, PROSE) == (text, false)
  {
    NotFoundWithout(Lower(text), "played and", 'p');
    NotFoundWithout(Lower(text), "unfinished", 'i');
    NotFoundWithout(Lower(text), "abandoned", c);
    assert PROSE[..2] == ["played and", "unfinished"] && PROSE[..2][..1] == ["played and"] && PROSE[..2][..1][..0] == [];
    assert Stripped(text, PROSE[..2][..1]) == (text, false);
    assert Stripped(text, PROSE[..2]) == (text, false);
  }

  /** A line of printed sets and one more word, none of whose letters begin a prose ending. */
  lemma {:induction false} LineWithWord(ts: seq<string>, word: string, c: char)
    requires AllClean(ts) && IsWord(word)
    requires 'p' !in Lower(word) && 'i' !in Lower(word) && c in "abandoned" && c !in Lower(word)
    ensures Normalise(Join(ts + [word], " "))
         == var (kept, outcome) := Sift(ts + [word], Complete); (HealSpacing(Join(kept, " ")), outcome)
  {
    var line := Join(ts + [word], " ");
    PartsAreWords(ts, Complete);
    assert AllWords(ts + [word]);
    JoinIsTrimmed(ts + [word]);
    LetterMissing(ts, word, 'p');
    LetterMissing(ts, word, 'i');
    LetterMissing(ts, word, c);
    NoProse(line, c);
    FieldsOfJoin(ts + [word]);
  }

  /** The words that say how a match ended, and the mark of a set nobody knows. */
  predicate Says(word: string, outcome: Outcome) {
    || (word in ["W/O", "WO"] && outcome == Walkover)
    || (word == "RET" && outcome == Retired)
    || (word == "DEF" && outcome == Defaulted)
    || (word == "ABD" && outcome == Abandoned)
    || (word in ["UNK", "?-?"] && outcome == Unknown)
  }

  /** What a word needs to be taken for an outcome after sets. */
  predicate Taken(word: string, outcome: Outcome) {
    && IsWord(word) && 'p' !in Lower(word) && 'i' !in Lower(word) && ('a' !in Lower(word) || 'o' !in Lower(word))
    && (MarkerOf(Upper(TrimStops(word))) == Marker(outcome)
        || (MarkerOf(Upper(TrimStops(word))) == NoMarker && '?' in word && outcome == Unknown))
  }

  lemma {:induction false} PlainWord(word: string, upper: string, lower: string)
    requires |word| == |upper| == |lower| > 0 && !IsStop(word[0]) && !IsStop(word[|word| - 1])
    requires forall i | 0 <= i < |word| :: UpperChar(word[i]) == upper[i] && LowerChar(word[i]) == lower[i]
    ensures TrimStops(word) == word && Upper(word) == upper && Lower(word) == lower
  {
  }

  lemma {:induction false} PlainWordIsTaken(word: string, upper: string, lower: string, outcome: Outcome)
    requires |word| == |upper| == |lower| > 0 && !IsStop(word[0]) && !IsStop(word[|word| - 1])
    requires forall i | 0 <= i < |word| ::
               UpperChar(word[i]) == upper[i] && LowerChar(word[i]) == lower[i] && !IsSpace(word[i])
    requires 'p' !in lower && 'i' !in lower && ('a' !in lower || 'o' !in lower)
    requires MarkerOf(upper) == Marker(outcome) || (MarkerOf(upper) == NoMarker && '?' in word && outcome == Unknown)
    ensures Taken(word, outcome)
  {
    PlainWord(word, upper, lower);
  }

  lemma {:induction false} ForfeitIsTaken(word: string, outcome: Outcome)
    requires Says(word, outcome) && word in ["W/O", "WO", "RET"]
    ensures Taken(word, outcome)
  {
    if word == "W/O" {
      PlainWordIsTaken("W/O", "W/O", "w/o", Walkover);
    } else if word == "WO" {
      PlainWordIsTaken("WO", "WO", "wo", Walkover);
    } else {
      PlainWordIsTaken("RET", "RET", "ret", Retired);
    }
  }

  lemma {:induction false} BreakIsTaken(word: string, outcome: Outcome)
    requires Says(word, outcome) && word in ["DEF", "ABD"]
    ensures Taken(word, outcome)
  {
    if word == "DEF" {
      PlainWordIsTaken("DEF", "DEF", "def", Defaulted);
    } else {
      PlainWordIsTaken("ABD", "ABD", "abd", Abandoned);
    }
  }

  lemma {:induction false} DoubtIsTaken(word: string, outcome: Outcome)
    requires Says(word, outcome) && word in ["UNK", "?-?"]
    ensures Taken(word, outcome)
  {
    if word == "UNK" {
      PlainWordIsTaken("UNK", "UNK", "unk", Unknown);
    } else {
      PlainWordIsTaken("?-?", "?-?", "?-?", Unknown);
    }
  }

  /** The same letters, small or capital. */
  predicate Spells(core: string, upper: string) {
    |core| == |upper| && forall i | 0 <= i < |core| ::
      core[i] == upper[i] || ('A' <= upper[i] <= 'Z' && core[i] as int == upper[i] as int + 32)
  }

  lemma {:induction false} StopsComeOff(core: string)
    requires core != [] && !IsStop(core[0]) && !IsStop(core[|core| - 1])
    ensures TrimStops(core) == core && TrimStops(core + ".") == core && TrimStops(core + ",") == core
  {
    assert (core + ".")[..|core|] == core && (core + ",")[..|core|] == core;
  }

  predicate Capital(upper: string) {
    upper != [] && !IsStop(upper[0]) && !IsStop(upper[|upper| - 1])
    && forall i | 0 <= i < |upper| :: !('a' <= upper[i] <= 'z')
  }

  lemma {:induction false} SpeltIsPlain(core: string, upper: string)
    requires Capital(upper) && Spells(core, upper)
    ensures core != [] && !IsStop(core[0]) && !IsStop(core[|core| - 1]) && Upper(core) == upper
  {
    forall i | 0 <= i < |core|
      ensures UpperChar(core[i]) == upper[i]
    {
    }
  }

  lemma {:induction false} WordsAreCapital(upper: string, outcome: Outcome)
    requires Says(upper, outcome) && upper != "?-?"
    ensures Capital(upper) && MarkerOf(upper) == Marker(outcome)
  {
  }

  /** A status word is known in small letters or capitals, with or without a full stop or comma. */
  lemma {:induction false} WordsHoweverWritten(core: string, upper: string, outcome: Outcome)
    requires Says(upper, outcome) && upper != "?-?" && Spells(core, upper)
    ensures MarkerOf(Upper(TrimStops(core))) == Marker(outcome)
    ensures MarkerOf(Upper(TrimStops(core + "."))) == Marker(outcome)
    ensures MarkerOf(Upper(TrimStops(core + ","))) == Marker(outcome)
  {
    WordsAreCapital(upper, outcome);
    SpeltIsPlain(core, upper);
    StopsComeOff(core);
  }

  lemma {:induction false} WordIsSifted(ts: seq<string>, word: string, outcome: Outcome)
    requires AllClean(ts) && Taken(word, outcome)
    ensures Sift(ts + [word], Complete) == (ts, outcome)
  {
    SiftKeepsClean(ts, Complete);
    assert (ts + [word])[..|ts|] == ts;
  }

  /** A line of sets and such a word is those sets and that outcome. */
  lemma {:induction false} WordSaysOutcome(sets: seq<Set>, word: string, outcome: Outcome)
    requires AllReadable(sets) && Says(word, outcome)
    ensures var line := Join(Prints(sets) + [word], " ");
            ReadScore(line) == Ok(Score(sets, outcome, line))
  {
    var ts := Prints(sets);
    PrintsAreClean(sets);
    if word in ["W/O", "WO", "RET"] {
      ForfeitIsTaken(word, outcome);
    } else if word in ["DEF", "ABD"] {
      BreakIsTaken(word, outcome);
    } else {
      DoubtIsTaken(word, outcome);
    }
    WordIsSifted(ts, word, outcome);
    LineWithWord(ts, word, if 'a' in Lower(word) then 'o' else 'a');
    ReadsTheSets(sets, outcome, Join(ts + [word], " "));
  }

  lemma {:induction false} ReadsTheSets(sets: seq<Set>, outcome: Outcome, line: string)
    requires AllReadable(sets) && outcome != Complete
    requires Normalise(line) == (HealSpacing(Join(Prints(sets), " ")), outcome)
    ensures ReadScore(line) == Ok(Score(sets, outcome, line))
  {
    var ts := Prints(sets);
    PrintsAreClean(sets);
    PartsAreWords(ts, Complete);
    FieldsOfJoin(ts);
    HealKeepsClean(ts, []);
    assert [] + ts == ts;
    ReadPrintedTokens(sets, |ts|);
    assert ts[..|ts|] == ts && sets[..|ts|] == sets;
    if ts != [] {
      JoinEnds(ts);
    }
  }

  /** Sets alone are a completed match; no sets and no word say nothing. */
  lemma {:induction false} SetsAlone(sets: seq<Set>)
    requires AllReadable(sets)
    ensures var line := Join(Prints(sets), " ");
            ReadScore(line) == Ok(Score(sets, if sets == [] then Unknown else Complete, line))
  {
    PrintThenRead(Score(sets, Complete, ""));
    assert Prints(sets) + [] == Prints(sets);
  }

  // ---------------------------------------------------------------- prose endings

  lemma {:induction false} FieldsOfLine(ts: seq<string>)
    requires AllWords(ts) && ts != []
    ensures Fields(Join(ts, " ") + " ") == ts
  {
    var line := Join(ts, " ") + " ";
    assert Fields(" ") == [] by {
      FieldsAfterSpace(" ");
    }
    if |ts| == 1 {
      FieldsOfWord(ts[0], " ");
      assert ts == [ts[0]];
    } else {
      assert forall i | 0 <= i < |ts[1..]| :: ts[1..][i] == ts[i + 1];
      FieldsOfLine(ts[1..]);
      var rest := " " + (Join(ts[1..], " ") + " ");
      assert line == ts[0] + rest;
      FieldsOfWord(ts[0], rest);
      FieldsAfterSpace(rest);
      assert rest[1..] == Join(ts[1..], " ") + " ";
      assert ts == [ts[0]] + ts[1..];
    }
  }

  lemma {:induction false} TrimmedAtBothEnds(s: string)
    requires s != [] && !IsSpace(s[0]) && !IsSpace(s[|s| - 1])
    ensures TrimSpace(s) == s
  {
  }

  /** What stands before the prose: printed sets and a space, with none of these letters in it. */
  ghost predicate Before(head: string) {
    forall i | 0 <= i < |head| :: head[i] == ' ' || TokenChar(head[i])
  }

  lemma {:induction false} NotBefore(head: string, w: string)
    requires Before(head) && w != [] && 'a' <= w[0] <= 'z'
    ensures Index(Lower(head), w) == -1
  {
    forall k | 0 <= k < |head|
      ensures Lower(head)[k] != w[0]
    {
    }
    NotFoundWithout(Lower(head), w, w[0]);
  }

  lemma {:induction false} FoundStarts(s: string, w: string, j: nat)
    requires w != [] && FoundAt(s, w, j)
    ensures s[j] == w[0]
  {
    assert s[j..j + |w|][0] == s[j];
  }

  lemma {:induction false} FirstAfter(head: string, prose: string, w: string)
    requires Before(head) && w != [] && 'a' <= w[0] <= 'z' && HasPrefix(Lower(prose), w)
    ensures Index(Lower(head + prose), w) == |head|
  {
    var low := Lower(head + prose);
    assert FoundAt(low, w, |head|) by {
      forall i | 0 <= i < |w|
        ensures low[|head|..|head| + |w|][i] == w[i]
      {
        assert Lower(prose)[i] == w[i];
        assert low[|head| + i] == LowerChar(prose[i]);
      }
      assert low[|head|..|head| + |w|] == w;
    }
    forall k | 0 <= k < |head|
      ensures low[k] != w[0]
    {
      assert low[k] == LowerChar(head[k]);
    }
    forall j: nat | FoundAt(low, w, j)
      ensures |head| <= j
    {
      FoundStarts(low, w, j);
    }
  }

  lemma {:induction false} NowhereIn(head: string, prose: string, w: string, c: char)
    requires Before(head) && 'a' <= c <= 'z' && c in w && c !in Lower(prose)
    ensures Index(Lower(head + prose), w) == -1
  {
    var low := Lower(head + prose);
    forall k | 0 <= k < |low|
      ensures low[k] != c
    {
      if k < |head| {
        assert low[k] == LowerChar(head[k]);
      } else {
        assert low[k] == Lower(prose)[k - |head|];
      }
    }
    NotFoundWithout(low, w, c);
  }

  /** Prose that says a match was not finished. */
  predicate Unfinished(prose: string) {
    || HasPrefix(Lower(prose), "played and")
    || (HasPrefix(Lower(prose), "unfinished") && 'p' !in Lower(prose))
    || (HasPrefix(Lower(prose), "abandoned") && 'p' !in Lower(prose) && 'i' !in Lower(prose))
  }

  lemma {:induction false} ProseIsStripped(head: string, prose: string)
    requires Before(head) && Unfinished(prose)
    ensures Stripped(head + prose, ["played and", "unfinished", "abandoned"]) == (head, true)
  {
    var text := head + prose;
    assert text[..|head|] == head;
    NotBefore(head, "unfinished");
    NotBefore(head, "abandoned");
    assert Stripped(text, []) == (text, false);
    assert ["played and"][..0] == [] && ["played and", "unfinished"][..1] == ["played and"]
           && ["played and", "unfinished", "abandoned"][..2] == ["played and", "unfinished"];
    if HasPrefix(Lower(prose), "played and") {
      FirstAfter(head, prose, "played and");
      assert Stripped(text, ["played and"]) == (head, true);
      assert Stripped(text, ["played and", "unfinished"]) == (head, true);
    } else {
      NowhereIn(head, prose, "played and", 'p');
      assert Stripped(text, ["played and"]) == (text, false);
      if HasPrefix(Lower(prose), "unfinished") {
        FirstAfter(head, prose, "unfinished");
        assert Stripped(text, ["played and", "unfinished"]) == (head, true);
      } else {
        NowhereIn(head, prose, "unfinished", 'i');
        FirstAfter(head, prose, "abandoned");
        assert Stripped(text, ["played and", "unfinished"]) == (text, false);
      }
    }
  }

  /** Sets followed by such prose, to the end of the line, are those sets of an abandoned match. */
  lemma {:induction false} ProseSaysAbandoned(sets: seq<Set>, prose: string)
    requires AllReadable(sets) && sets != [] && Unfinished(prose) && !IsSpace(prose[|prose| - 1])
    ensures var line := Join(Prints(sets), " ") + " " + prose;
            ReadScore(line) == Ok(Score(sets, Abandoned, line))
  {
    var ts := Prints(sets);
    var head := Join(ts, " ") + " ";
    var line := head + prose;
    PrintsAreClean(sets);
    PartsAreWords(ts, Complete);
    JoinEnds(ts);
    TrimmedAtBothEnds(line);
    forall i | 0 <= i < |head|
      ensures head[i] == ' ' || TokenChar(head[i])
    {
      if i < |head| - 1 {
        JoinedCharacter(ts, head[i]);
        if head[i] != ' ' {
          var k :| 0 <= k < |ts| && head[i] in ts[k];
          assert Clean(ts[k]);
        }
      }
    }
    ProseIsStripped(head, prose);
    FieldsOfLine(ts);
    SiftKeepsClean(ts, Abandoned);
    ReadsTheSets(sets, Abandoned, line);
  }

  // ---------------------------------------------------------------- nothing left unread

  /** A token that gives no set: it does not start as one, or is cut off. */
  predicate GivesNoSet(token: string) {
    token == "" || (token[0] != '[' && (!IsDigit(token[0]) || '-' !in token || token[|token| - 1] == '-'))
  }

  lemma {:induction false} TokenNotes(sets: seq<Set>, skipped: bool, token: string)
    requires WithToken(sets, skipped, token).Ok? && (skipped || GivesNoSet(token))
    ensures WithToken(sets, skipped, token).value.1
  {
    if LooksLikeSet(token) && !skipped {
      assert HasSuffix(token, "-");
    }
  }

  /** By way of a function value, so that a proof over many tokens reads one only by asking. */
  function NotedTest(): seq<string> -> bool {
    tokens => ReadTokens(tokens).Ok? ==> ReadTokens(tokens).value.1
  }

  lemma {:induction false} LastNoted(tokens: seq<string>)
    requires tokens != [] && (NotedTest()(tokens[..|tokens| - 1]) || GivesNoSet(tokens[|tokens| - 1]))
    ensures NotedTest()(tokens)
  {
    var before := ReadTokens(tokens[..|tokens| - 1]);
    if ReadTokens(tokens).Ok? {
      TokenNotes(before.value.0, before.value.1, tokens[|tokens| - 1]);
    }
  }

  lemma {:induction false} UnreadIsNoted(tokens: seq<string>, k: nat)
    requires k < |tokens| && GivesNoSet(tokens[k])
    ensures NotedTest()(tokens)
  {
    if k < |tokens| - 1 {
      UnreadIsNoted(tokens[..|tokens| - 1], k);
    }
    LastNoted(tokens);
  }

  /** A match is called completed only when every token of its line gave a set. */
  lemma {:induction false} CompletedIsAllRead(raw: string, k: nat)
    requires ReadScore(raw).Ok? && ReadScore(raw).value.outcome == Complete
    requires k < |Fields(Normalise(raw).0)|
    ensures !GivesNoSet(Fields(Normalise(raw).0)[k]) && Normalise(raw).1 == Complete
  {
    if GivesNoSet(Fields(Normalise(raw).0)[k]) {
      UnreadIsNoted(Fields(Normalise(raw).0), k);
    }
  }
}
