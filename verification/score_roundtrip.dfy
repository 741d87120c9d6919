/** Printing a parsed score and parsing it again. */
module ScoreRoundTrip {
  import opened ScoreLaws
  import opened ScoreParser
  import opened Scores
  import opened Text

  // ---------------------------------------------------------------- tokens a printer makes

  predicate TokenChar(c: char) {
    IsDigit(c) || c in "-()[]"
  }

  predicate Tokenlike(t: string) {
    forall i | 0 <= i < |t| :: TokenChar(t[i])
  }

  /** A token no repair touches: score characters, starting as a set does, not cut off. */
  predicate Clean(t: string) {
    t != [] && Tokenlike(t) && (IsDigit(t[0]) || t[0] == '[') && t[|t| - 1] != '-'
  }

  ghost predicate AllClean(ts: seq<string>) {
    forall i | 0 <= i < |ts| :: Clean(ts[i])
  }

  /** A printed set is a clean token that looks like a set. */
  lemma {:induction false} PrintIsClean(s: Set)
    requires Readable(s)
    ensures Clean(s.Print()) && LooksLikeSet(s.Print())
  {
  }

  /** A printed set reads back as one set, itself. */
  lemma {:induction false} PrintReadsBack(s: Set)
    requires Readable(s)
    ensures ReadToken(s.Print()) == Ok([s])
  {
    PrintIsClean(s);
    if s.superTiebreak {
      ReadPrintedSuper(s);
    } else {
      ReadPrintedSet(s, "");
      assert s.Print() + "" == s.Print();
      ReadsLast(s.Print(), 0, s);
      StartsWithDigit(s);
    }
  }

  lemma {:induction false} StartsWithDigit(s: Set)
    requires !s.superTiebreak && s.gamesWinner >= 0
    ensures s.Print() != [] && IsDigit(s.Print()[0])
  {
  }

  // ---------------------------------------------------------------- nothing to repair

  lemma {:induction false} CleanIsNoMarker(t: string)
    requires Clean(t)
    ensures IsWord(t) && MarkerOf(Upper(TrimStops(t))) == NoMarker && '?' !in t
    ensures !HasSuffix(t, "-") && !HasPrefix(t, "(")
  {
    assert TokenChar(t[0]) && TokenChar(t[|t| - 1]);
    assert TrimStops(t) == t;
    assert Upper(t)[0] == t[0];
    assert forall i | 0 <= i < |t| :: TokenChar(t[i]) && t[i] != '?' && !IsSpace(t[i]);
  }

  lemma {:induction false} SiftKeepsClean(ts: seq<string>, outcome: Outcome)
    requires AllClean(ts)
    ensures Sift(ts, outcome) == (ts, outcome)
  {
    if ts != [] {
      var init := ts[..|ts| - 1];
      assert forall i | 0 <= i < |init| :: init[i] == ts[i];
      SiftKeepsClean(init, outcome);
      CleanIsNoMarker(ts[|ts| - 1]);
      assert ts == init + [ts[|ts| - 1]];
    }
  }

  /** What the status word at the end of a printed line is read as. */
  function Named(outcome: Outcome): Outcome {
    if outcome == Abandoned then Complete else outcome
  }

  lemma {:induction false} SuffixIsMarker(outcome: Outcome)
    requires Suffix(outcome) != []
    ensures IsWord(Suffix(outcome)[0])
    ensures MarkerOf(Upper(TrimStops(Suffix(outcome)[0]))) == Marker(outcome)
  {
    assert Upper("RET") == "RET" && Upper("W/O") == "W/O" && Upper("DEF") == "DEF" && Upper("UNK") == "UNK";
  }

  lemma {:induction false} SiftPrinted(ts: seq<string>, outcome: Outcome)
    requires AllClean(ts)
    ensures Sift(ts + Suffix(outcome), Complete) == (ts, Named(outcome))
  {
    SiftKeepsClean(ts, Complete);
    if Suffix(outcome) == [] {
      assert ts + Suffix(outcome) == ts;
    } else {
      SuffixIsMarker(outcome);
      assert (ts + Suffix(outcome))[..|ts|] == ts;
    }
  }

  lemma {:induction false} HealKeepsClean(ts: seq<string>, out: seq<string>)
    requires AllClean(ts)
    ensures Heal(ts, out) == out + ts
  {
    if ts == [] {
      assert out + ts == out;
    } else {
      assert Clean(ts[0]);
      CleanIsNoMarker(ts[0]);
      assert forall i | 0 <= i < |ts[1..]| :: ts[1..][i] == ts[i + 1];
      HealKeepsClean(ts[1..], out + [ts[0]]);
      assert out + [ts[0]] + ts[1..] == out + ts;
    }
  }

  lemma {:induction false} ConcatFirstTwo(fields: seq<string>)
    requires |fields| > 1
    ensures Concat(fields) == (fields[0] + fields[1]) + Concat(fields[2..])
  {
  }

  lemma {:induction false} ConcatRelast(out: seq<string>, more: string)
    requires out != []
    ensures Concat(out[|out| - 1 := out[|out| - 1] + more]) == Concat(out) + more
  {
    var init, last := out[..|out| - 1], out[|out| - 1];
    ConcatOne(init, last);
    ConcatOne(init, last + more);
    assert out == init + [last] && out[|out| - 1 := last + more] == init + [last + more];
  }

  /** Healing only rejoins: not a character of the fields is lost, added or moved. */
  lemma {:induction false} HealKeepsEveryCharacter(fields: seq<string>, out: seq<string>)
    ensures Concat(Heal(fields, out)) == Concat(out) + Concat(fields)
    decreases |fields|
  {
    if fields == [] {
      assert Concat(out) + "" == Concat(out);
    } else {
      if HasSuffix(fields[0], "-") && |fields| > 1 {
        ConcatFirstTwo(fields);
        HealKeepsEveryCharacter(fields[2..], out + [fields[0] + fields[1]]);
        ConcatOne(out, fields[0] + fields[1]);
      } else if HasPrefix(fields[0], "(") && out != [] {
        HealKeepsEveryCharacter(fields[1..], out[|out| - 1 := out[|out| - 1] + fields[0]]);
        ConcatRelast(out, fields[0]);
      } else {
        HealKeepsEveryCharacter(fields[1..], out + [fields[0]]);
        ConcatOne(out, fields[0]);
      }
    }
  }

  // ---------------------------------------------------------------- the printed line

  lemma {:induction false} PartsAreWords(ts: seq<string>, outcome: Outcome)
    requires AllClean(ts)
    ensures AllWords(ts) && AllWords(ts + Suffix(outcome))
  {
    forall i | 0 <= i < |ts|
      ensures IsWord(ts[i])
    {
      CleanIsNoMarker(ts[i]);
    }
    if Suffix(outcome) != [] {
      SuffixIsMarker(outcome);
    }
  }

  /** No character of a printed line can start, end or sit in a prose suffix. */
  predicate Wordless(c: char) {
    LowerChar(c) != 'a' && LowerChar(c) != 'i'
  }

  lemma {:induction false} PartIsWordless(ts: seq<string>, outcome: Outcome, i: nat, c: char)
    requires AllClean(ts) && i < |ts + Suffix(outcome)| && c in (ts + Suffix(outcome))[i]
    ensures Wordless(c)
  {
  }

  lemma {:induction false} LineIsWordless(ts: seq<string>, outcome: Outcome)
    requires AllClean(ts)
    ensures var line := Lower(Join(ts + Suffix(outcome), " ")); 'a' !in line && 'i' !in line
  {
    var line := Join(ts + Suffix(outcome), " ");
    forall k | 0 <= k < |line|
      ensures Wordless(line[k])
    {
      JoinedCharacter(ts + Suffix(outcome), line[k]);
      if line[k] != ' ' {
        var i :| 0 <= i < |ts + Suffix(outcome)| && line[k] in (ts + Suffix(outcome))[i];
        PartIsWordless(ts, outcome, i, line[k]);
      }
    }
  }

  lemma {:induction false} NothingToStrip(text: string)
    requires 'a' !in Lower(text) && 'i' !in Lower(text)
    ensures Stripped(text, PROSE) == (text, false)
  {
    NotFoundWithout(Lower(text), "played and", 'a');
    NotFoundWithout(Lower(text), "unfinished", 'i');
    NotFoundWithout(Lower(text), "abandoned", 'a');
    assert PROSE[..2] == ["played and", "unfinished"] && PROSE[..2][..1] == ["played and"] && PROSE[..2][..1][..0] == [];
    assert Stripped(text, PROSE[..2][..1]) == (text, false);
    assert Stripped(text, PROSE[..2]) == (text, false);
  }

  /** A line of clean tokens and a status word is read as those tokens and that outcome. */
  lemma {:induction false} NormalisePrinted(ts: seq<string>, outcome: Outcome)
    requires AllClean(ts)
    ensures Normalise(Join(ts + Suffix(outcome), " ")) == (Join(ts, " "), Named(outcome))
  {
    var line := Join(ts + Suffix(outcome), " ");
    PartsAreWords(ts, outcome);
    JoinIsTrimmed(ts + Suffix(outcome));
    LineIsWordless(ts, outcome);
    NothingToStrip(line);
    FieldsOfJoin(ts + Suffix(outcome));
    SiftPrinted(ts, outcome);
    FieldsOfJoin(ts);
    HealKeepsClean(ts, []);
    assert [] + ts == ts;
  }

  // ---------------------------------------------------------------- round trips

  lemma {:induction false} TakePrinted(tokens: seq<string>, i: nat, sets: seq<Set>, s: Set)
    requires i < |tokens| && tokens[i] == s.Print() && Readable(s)
    requires ReadTokens(tokens[..i]) == Ok((sets, false))
    ensures ReadTokens(tokens[..i + 1]) == Ok((sets + [s], false))
  {
    PrintIsClean(s);
    PrintReadsBack(s);
    ReadOneMore(tokens, i, sets, false);
  }

  lemma {:induction false} PrintedAt(sets: seq<Set>, k: nat)
    requires k < |sets| && AllReadable(sets)
    ensures Prints(sets)[k] == sets[k].Print() && Readable(sets[k])
  {
  }

  lemma {:induction false} ReadPrintedTokens(sets: seq<Set>, n: nat)
    requires n <= |sets| && AllReadable(sets)
    ensures ReadTokens(Prints(sets)[..n]) == Ok((sets[..n], false))
  {
    if n == 0 {
      assert Prints(sets)[..0] == [] && sets[..0] == [];
    } else {
      var k := n - 1;
      assert k + 1 == n && sets[..n] == sets[..k] + [sets[k]];
      ReadPrintedTokens(sets, k);
      PrintedAt(sets, k);
      TakePrinted(Prints(sets), k, sets[..k], sets[k]);
    }
  }

  lemma {:induction false} PrintsAreClean(sets: seq<Set>)
    requires AllReadable(sets)
    ensures AllClean(Prints(sets))
  {
    forall i | 0 <= i < |sets|
      ensures Clean(Prints(sets)[i])
    {
      PrintIsClean(sets[i]);
    }
  }

  /** Reading a printed score gives its sets back, and its outcome when that was printed. */
  lemma {:induction false} PrintThenRead(score: Score)
    requires AllReadable(score.sets)
    ensures ReadScore(score.Print())
         == Ok(Score(score.sets, Settled(Named(score.outcome), score.sets == []), score.Print()))
  {
    var ts := Prints(score.sets);
    PrintsAreClean(score.sets);
    NormalisePrinted(ts, score.outcome);
    PartsAreWords(ts, score.outcome);
    FieldsOfJoin(ts);
    ReadPrintedTokens(score.sets, |ts|);
    assert ts[..|ts|] == ts && score.sets[..|ts|] == score.sets;
    if ts != [] {
      JoinEnds(ts);
    }
  }

  lemma {:induction false} ReadSetsAreReadable(text: string, cap: nat)
    requires ReadSets(text, cap).Ok?
    ensures ReadSets(text, cap).value != [] && AllReadable(ReadSets(text, cap).value)
    decreases |text|
  {
    var one := ReadSet(text, cap);
    if one.rest != [] {
      var next := if At(one.rest, '-') then one.rest[1..] else one.rest;
      ReadSetsAreReadable(next, cap);
      LedAreReadable(one.value, ReadSets(next, cap));
    }
  }

  lemma {:induction false} LedAreReadable(first: Set, others: Result<seq<Set>>)
    requires Readable(first) && others.Ok? && AllReadable(others.value)
    ensures Led(first, others).value != [] && AllReadable(Led(first, others).value)
  {
    forall i | 0 <= i < |[first] + others.value|
      ensures Readable(([first] + others.value)[i])
    {
      if i > 0 {
        assert ([first] + others.value)[i] == others.value[i - 1];
      }
    }
  }

  lemma {:induction false} TokenSetsAreReadable(token: string)
    requires ReadToken(token).Ok?
    ensures AllReadable(ReadToken(token).value)
  {
    if !HasPrefix(token, "[") && !HasSuffix(token, "-") {
      if ReadSets(token, 0).Ok? {
        ReadSetsAreReadable(token, 0);
      } else {
        ReadSetsAreReadable(token, 1);
      }
    }
  }

  lemma {:induction false} TokensAreReadable(tokens: seq<string>)
    requires ReadTokens(tokens).Ok?
    ensures AllReadable(ReadTokens(tokens).value.0)
  {
    if tokens != [] {
      TokensAreReadable(tokens[..|tokens| - 1]);
      if LooksLikeSet(tokens[|tokens| - 1]) {
        TokenSetsAreReadable(tokens[|tokens| - 1]);
      }
    }
  }

  /** What is accepted can always be printed; a completed match has at least one set. */
  lemma {:induction false} AcceptedScores(raw: string)
    requires ReadScore(raw).Ok?
    ensures var s := ReadScore(raw).value;
            AllReadable(s.sets) && s.raw == raw && (s.outcome == Complete ==> s.sets != [])
  {
    var normalised := Normalise(raw);
    if normalised.0 != "" {
      TokensAreReadable(Fields(normalised.0));
    }
  }

  /** The round trip: for every line the parser accepts, parsing the printed score gives
      the same sets, and the same outcome unless that was Abandoned, which is not printed. */
  lemma {:induction false} ParsePrintParse(raw: string)
    requires ReadScore(raw).Ok?
    ensures var s := ReadScore(raw).value;
            && ReadScore(s.Print()).Ok?
            && ReadScore(s.Print()).value.sets == s.sets
            && (ReadScore(s.Print()).value.outcome == s.outcome <==> s.outcome != Abandoned)
  {
    AcceptedScores(raw);
    PrintThenRead(ReadScore(raw).value);
  }

  /** Printing settles: once through the parser, a score prints the same way again. */
  lemma {:induction false} PrintingSettles(raw: string, score: Score, again: Score)
    requires ReadScore(raw) == Ok(score) && score.outcome != Abandoned
    requires ReadScore(score.Print()) == Ok(again)
    ensures again.Print() == score.Print()
  {
    AcceptedScores(raw);
    PrintThenRead(score);
  }
}
