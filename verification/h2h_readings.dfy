/** Every figure of a comparison, counted off the meetings it was built from. */
module HeadToHeadReadings {
  import opened Collections
  import opened HeadToHeads

  /** Something added up over meetings. */
  function Sum(rows: seq<Row>, part: Row -> int): int {
    if rows == [] then 0
    else var n := |rows| - 1; Sum(rows[..n], part) + part(rows[n])
  }

  /** How many of the meetings a test picks. */
  function Count(picks: Row -> bool): Row -> int {
    (r: Row) => if picks(r) then 1 else 0
  }

  // ---------------------------------------------------------------- the cut

  predicate OfCategory(r: Row, category: string) {
    match r.level
    case "D" => category == "team"
    case "G" => category == "slam"
    case "M" => category == "masters"
    case "PM" => category == "masters"
    case "1000" => category == "masters"
    case "F" => category == "finals"
    case "O" => category == "olympics"
    case _ => category == r.tier
  }

  /** What a filter asks for: the meetings that meet each of its conditions it has. */
  predicate Asked(f: Filter, r: Row) {
    && (f.level.None? || OfCategory(r, f.level.value))
    && (f.round.None? || (f.round == Some("Q") && r.qualifying)
        || (f.round != Some("Q") && f.round == Some(r.round) && !r.qualifying))
    && (f.bestOf.None? || f.bestOf == Some(r.bestOf))
    && (f.surface.None? || f.surface == r.surface)
    && (f.deciders ==> r.decidingSet == Some(true))
    && (f.tiebreaks ==> r.tiebreaksWinner.Some? && r.tiebreaksLoser.Some?
                        && r.tiebreaksWinner.value + r.tiebreaksLoser.value != 0)
    && (f.from.None? || f.from.value <= r.season) && (f.to.None? || r.season <= f.to.value)
  }

  function AskedTest(): (Filter, Row) -> bool {
    (f: Filter, r: Row) => Asked(f, r)
  }

  /** `Asked` by way of a function value, so that a count opens the filter only by asking. */
  predicate Wanted(f: Filter, r: Row) {
    AskedTest()(f, r)
  }

  /** A meeting is kept exactly when the filter asks for it. */
  lemma {:induction false} KeepsTheWanted(f: Filter, r: Row)
    ensures Keep(f, r) <==> Wanted(f, r)
  {
  }

  // ---------------------------------------------------------------- the record

  function KeptBy(f: Filter): Row -> bool {
    (r: Row) => Wanted(f, r)
  }

  /** Won by the player asked for second; any other winner counts for the first. */
  function WonBySecond(f: Filter, second: int): Row -> bool {
    (r: Row) => Wanted(f, r) && r.winner == second
  }

  function WonByFirst(f: Filter, second: int): Row -> bool {
    (r: Row) => Wanted(f, r) && r.winner != second
  }

  function Unfinished(f: Filter): Row -> bool {
    (r: Row) => Wanted(f, r) && r.incomplete
  }

  lemma {:induction false} RecordIsCounted(second: int, rows: seq<Row>, f: Filter)
    ensures var record := Built(second, rows, f).record;
            && record.matches == Sum(rows, Count(KeptBy(f)))
            && record.wins.first == Sum(rows, Count(WonByFirst(f, second)))
            && record.wins.second == Sum(rows, Count(WonBySecond(f, second)))
            && record.incomplete == Sum(rows, Count(Unfinished(f)))
  {
    if rows != [] {
      KeepsTheWanted(f, rows[|rows| - 1]);
      RecordIsCounted(second, rows[..|rows| - 1], f);
    }
  }

  // ---------------------------------------------------------------- how close it was

  predicate Decided(r: Row) {
    r.decidingSet.Some?
  }

  predicate WentTheDistance(r: Row) {
    r.decidingSet.Some? && r.decidingSet.value
  }

  function DecidersToFirst(second: int): Row -> bool {
    (r: Row) => WentTheDistance(r) && r.winner != second
  }

  function DecidersToSecond(second: int): Row -> bool {
    (r: Row) => WentTheDistance(r) && r.winner == second
  }

  predicate TiebreaksKnown(r: Row) {
    r.tiebreaksWinner.Some? && r.tiebreaksLoser.Some?
  }

  function TiebreaksIn(r: Row): int {
    if TiebreaksKnown(r) then r.tiebreaksWinner.value + r.tiebreaksLoser.value else 0
  }

  /** The tiebreaks of a meeting that went to one of the two: the winner's own to the winner. */
  function TiebreaksToFirst(second: int): Row -> int {
    (r: Row) =>
      if !TiebreaksKnown(r) then 0 else if r.winner != second then r.tiebreaksWinner.value else r.tiebreaksLoser.value
  }

  function TiebreaksToSecond(second: int): Row -> int {
    (r: Row) =>
      if !TiebreaksKnown(r) then 0 else if r.winner == second then r.tiebreaksWinner.value else r.tiebreaksLoser.value
  }

  ghost predicate ClosenessIs(c: Closeness, rows: seq<Row>, second: int) {
    && c.scored == Sum(rows, Count(Decided))
    && c.deciders.matches == Sum(rows, Count(WentTheDistance))
    && c.deciders.wins.first == Sum(rows, Count(DecidersToFirst(second)))
    && c.deciders.wins.second == Sum(rows, Count(DecidersToSecond(second)))
    && c.tiebreaks.matches == Sum(rows, TiebreaksIn)
    && c.tiebreaks.wins.first == Sum(rows, TiebreaksToFirst(second))
    && c.tiebreaks.wins.second == Sum(rows, TiebreaksToSecond(second))
  }

  /** What one meeting adds. */
  lemma {:induction false} CloserAdds(c: Closeness, r: Row, second: int)
    ensures var after := Closer(c, r, Side(second, r));
            && after.scored == c.scored + Count(Decided)(r)
            && after.deciders.matches == c.deciders.matches + Count(WentTheDistance)(r)
            && after.deciders.wins.first == c.deciders.wins.first + Count(DecidersToFirst(second))(r)
            && after.deciders.wins.second == c.deciders.wins.second + Count(DecidersToSecond(second))(r)
    ensures var after := Closer(c, r, Side(second, r)).tiebreaks;
            && after.matches == c.tiebreaks.matches + TiebreaksIn(r)
            && after.wins.first == c.tiebreaks.wins.first + TiebreaksToFirst(second)(r)
            && after.wins.second == c.tiebreaks.wins.second + TiebreaksToSecond(second)(r)
  {
    assert r.decidingSet == Some(true) <==> WentTheDistance(r);
    assert Count(Decided)(r) == if Decided(r) then 1 else 0;
    assert Count(WentTheDistance)(r) == if WentTheDistance(r) then 1 else 0;
    assert DecidersToFirst(second)(r) <==> WentTheDistance(r) && r.winner != second;
    assert DecidersToSecond(second)(r) <==> WentTheDistance(r) && r.winner == second;
  }

  lemma {:induction false} ClosenessOneMore(c: Closeness, rows: seq<Row>, second: int)
    requires rows != [] && ClosenessIs(c, rows[..|rows| - 1], second)
    ensures ClosenessIs(Closer(c, rows[|rows| - 1], Side(second, rows[|rows| - 1])), rows, second)
  {
    CloserAdds(c, rows[|rows| - 1], second);
  }

  /** How close the meetings were, over all of them whatever the filter. */
  lemma {:induction false} ClosenessIsCounted(second: int, rows: seq<Row>, f: Filter)
    ensures ClosenessIs(Built(second, rows, f).closeness, rows, second)
  {
    if rows != [] {
      var init := rows[..|rows| - 1];
      ClosenessIsCounted(second, init, f);
      ClosenessOneMore(Built(second, init, f).closeness, rows, second);
    }
  }

  // ---------------------------------------------------------------- serve

  function LineA(r: Row): Line {
    r.a
  }

  function LineB(r: Row): Line {
    r.b
  }

  function HasLine(f: Filter, line: Row -> Line): Row -> bool {
    (r: Row) => Wanted(f, r) && line(r).servePoints.Some?
  }

  /** A figure of the serve lines of the meetings kept that have one; a missing figure is nothing. */
  function FigureOf(f: Filter, line: Row -> Line, figure: Line -> Option<int>): Row -> int {
    (r: Row) =>
      if Wanted(f, r) && line(r).servePoints.Some? && figure(line(r)).Some? then figure(line(r)).value else 0
  }

  ghost predicate TotalsAre(t: Totals, rows: seq<Row>, f: Filter, line: Row -> Line) {
    && t.matches == Sum(rows, Count(HasLine(f, line)))
    && t.aces == Sum(rows, FigureOf(f, line, (l: Line) => l.aces))
    && t.doubleFaults == Sum(rows, FigureOf(f, line, (l: Line) => l.doubleFaults))
    && t.servePoints == Sum(rows, FigureOf(f, line, (l: Line) => l.servePoints))
    && t.firstIn == Sum(rows, FigureOf(f, line, (l: Line) => l.firstIn))
    && t.firstWon == Sum(rows, FigureOf(f, line, (l: Line) => l.firstWon))
    && t.secondWon == Sum(rows, FigureOf(f, line, (l: Line) => l.secondWon))
    && t.bpSaved == Sum(rows, FigureOf(f, line, (l: Line) => l.bpSaved))
    && t.bpFaced == Sum(rows, FigureOf(f, line, (l: Line) => l.bpFaced))
  }

  lemma {:induction false} TotalsOneMore(t: Totals, rows: seq<Row>, f: Filter, line: Row -> Line)
    requires rows != [] && TotalsAre(t, rows[..|rows| - 1], f, line)
    ensures TotalsAre(if Keep(f, rows[|rows| - 1]) then Plus(t, line(rows[|rows| - 1])) else t, rows, f, line)
  {
    KeepsTheWanted(f, rows[|rows| - 1]);
  }

  /** Each side's serve totals are its own lines', figure by figure. */
  lemma {:induction false} ServeIsCounted(second: int, rows: seq<Row>, f: Filter)
    ensures TotalsAre(Built(second, rows, f).serve.0, rows, f, LineA)
    ensures TotalsAre(Built(second, rows, f).serve.1, rows, f, LineB)
  {
    if rows != [] {
      var init := rows[..|rows| - 1];
      ServeIsCounted(second, init, f);
      TotalsOneMore(Built(second, init, f).serve.0, rows, f, LineA);
      TotalsOneMore(Built(second, init, f).serve.1, rows, f, LineB);
    }
  }

  // ---------------------------------------------------------------- splits

  function MatchesUnder(splits: seq<Split>, name: string): int {
    if splits == [] then 0 else (if splits[0].name == name then splits[0].matches else 0) + MatchesUnder(splits[1..], name)
  }

  function WinsUnder(splits: seq<Split>, name: string, ofSecond: bool): int {
    if splits == [] then 0
    else (if splits[0].name != name then 0 else if ofSecond then splits[0].wins.second else splits[0].wins.first)
         + WinsUnder(splits[1..], name, ofSecond)
  }

  ghost predicate Distinct(splits: seq<Split>) {
    forall i, j | 0 <= i < j < |splits| :: splits[i].name != splits[j].name
  }

  predicate Under(splits: seq<Split>, name: string) {
    exists i :: 0 <= i < |splits| && splits[i].name == name
  }

  lemma {:induction false} WithSplitUnder(splits: seq<Split>, name: string, side: nat, other: string)
    requires Distinct(splits) && side <= 1
    ensures var after := WithSplit(splits, name, side);
            && Distinct(after) && (Under(after, other) <==> other == name || Under(splits, other))
            && MatchesUnder(after, other) == MatchesUnder(splits, other) + (if other == name then 1 else 0)
            && WinsUnder(after, other, false) == WinsUnder(splits, other, false) + (if other == name && side == 0 then 1 else 0)
            && WinsUnder(after, other, true) == WinsUnder(splits, other, true) + (if other == name && side == 1 then 1 else 0)
  {
    var after := WithSplit(splits, name, side);
    if splits == [] {
      assert after[1..] == [];
      assert after[0].name == name;
    } else if splits[0].name == name {
      assert after[1..] == splits[1..];
      NoneUnder(splits[1..], name);
      forall i | 0 <= i < |splits|
        ensures after[i].name == splits[i].name
      {
      }
    } else {
      assert Distinct(splits[1..]);
      WithSplitUnder(splits[1..], name, side, other);
      WithSplitUnder(splits[1..], name, side, splits[0].name);
      var rest := WithSplit(splits[1..], name, side);
      assert after == [splits[0]] + rest && after[1..] == rest;
      UnderFirst(after, other);
      UnderFirst(splits, other);
      assert !Under(splits[1..], splits[0].name);
      forall i, j | 0 <= i < j < |after|
        ensures after[i].name != after[j].name
      {
        assert after[j] == rest[j - 1];
      }
    }
  }

  lemma {:induction false} NoneUnder(splits: seq<Split>, name: string)
    requires forall i | 0 <= i < |splits| :: splits[i].name != name
    ensures MatchesUnder(splits, name) == 0 && WinsUnder(splits, name, false) == 0 && WinsUnder(splits, name, true) == 0
  {
    if splits != [] {
      NoneUnder(splits[1..], name);
    }
  }

  lemma {:induction false} UnderFirst(splits: seq<Split>, name: string)
    requires splits != []
    ensures Under(splits, name) <==> splits[0].name == name || Under(splits[1..], name)
  {
    if i :| 0 <= i < |splits| && splits[i].name == name {
      assert i > 0 ==> splits[1..][i - 1].name == name;
    }
    if i :| 0 <= i < |splits[1..]| && splits[1..][i].name == name {
      assert splits[i + 1].name == name;
    }
  }

  function NamedSurface(f: Filter, name: string): Row -> bool {
    (r: Row) => Wanted(f, r) && (if r.surface.Some? then r.surface.value == name else name == "unknown")
  }

  function NamedTier(f: Filter, name: string): Row -> bool {
    (r: Row) => Wanted(f, r) && r.tier == name
  }

  function AndFirst(picks: Row -> bool, second: int): Row -> bool {
    (r: Row) => picks(r) && r.winner != second
  }

  function AndSecond(picks: Row -> bool, second: int): Row -> bool {
    (r: Row) => picks(r) && r.winner == second
  }

  /** The split of a name: there when a meeting is picked for it, once, with the meetings picked
      and each side's wins among them. */
  ghost predicate SplitIs(splits: seq<Split>, name: string, rows: seq<Row>, second: int, picks: Row -> bool) {
    && Distinct(splits) && (Under(splits, name) <==> exists i :: 0 <= i < |rows| && picks(rows[i]))
    && MatchesUnder(splits, name) == Sum(rows, Count(picks))
    && WinsUnder(splits, name, false) == Sum(rows, Count(AndFirst(picks, second)))
    && WinsUnder(splits, name, true) == Sum(rows, Count(AndSecond(picks, second)))
  }

  lemma {:induction false} PicksLast(rows: seq<Row>, picks: Row -> bool)
    requires rows != []
    ensures var n := |rows| - 1;
            (exists i :: 0 <= i < |rows| && picks(rows[i])) <==> picks(rows[n]) || exists i :: 0 <= i < n && picks(rows[..n][i])
  {
    var n := |rows| - 1;
    if i :| 0 <= i < |rows| && picks(rows[i]) {
      assert i < n ==> picks(rows[..n][i]);
    }
    if i :| 0 <= i < n && picks(rows[..n][i]) {
      assert picks(rows[i]);
    }
  }

  lemma {:induction false} SplitOneMore(splits: seq<Split>, name: string, rows: seq<Row>, second: int, picks: Row -> bool,
                                        met: string, kept: bool)
    requires rows != [] && SplitIs(splits, name, rows[..|rows| - 1], second, picks)
    requires picks(rows[|rows| - 1]) <==> kept && met == name
    ensures SplitIs(if kept then WithSplit(splits, met, Side(second, rows[|rows| - 1])) else splits, name, rows, second, picks)
  {
    PicksLast(rows, picks);
    WithSplitUnder(splits, met, Side(second, rows[|rows| - 1]), name);
  }

  lemma {:induction false} NoSplits(name: string, second: int, picks: Row -> bool)
    ensures SplitIs([], name, [], second, picks)
  {
  }

  /** Every split, by surface and by tier, is the meetings kept that have its name. */
  lemma {:induction false} SplitsAreCounted(second: int, rows: seq<Row>, f: Filter, name: string)
    ensures SplitIs(Built(second, rows, f).surfaces, name, rows, second, NamedSurface(f, name))
    ensures SplitIs(Built(second, rows, f).tiers, name, rows, second, NamedTier(f, name))
  {
    if rows == [] {
      NoSplits(name, second, NamedSurface(f, name));
      NoSplits(name, second, NamedTier(f, name));
    } else {
      var init, r := rows[..|rows| - 1], rows[|rows| - 1];
      KeepsTheWanted(f, r);
      SplitsAreCounted(second, init, f, name);
      SplitOneMore(Built(second, init, f).surfaces, name, rows, second, NamedSurface(f, name), SurfaceOf(r), Keep(f, r));
      SplitOneMore(Built(second, init, f).tiers, name, rows, second, NamedTier(f, name), r.tier, Keep(f, r));
    }
  }

  // ---------------------------------------------------------------- meetings

  function KeptOf(rows: seq<Row>, f: Filter): seq<Row> {
    if rows == [] then []
    else var n := |rows| - 1; KeptOf(rows[..n], f) + if Wanted(f, rows[n]) then [rows[n]] else []
  }

  /** A meeting as it is passed on: who won it, and its tiebreaks in the order of the players. */
  ghost predicate MeetingSays(m: Meeting, r: Row, second: int) {
    && m.row == r && m.winnerIndex == (if r.winner == second then 1 else 0)
    && (!TiebreaksKnown(r) ==> m.tiebreaks == None)
    && (TiebreaksKnown(r) && r.winner == second ==> m.tiebreaks == Some(Pair(r.tiebreaksLoser.value, r.tiebreaksWinner.value)))
    && (TiebreaksKnown(r) && r.winner != second ==> m.tiebreaks == Some(Pair(r.tiebreaksWinner.value, r.tiebreaksLoser.value)))
  }

  ghost predicate Passed(h: HeadToHead, kept: seq<Row>, second: int) {
    && |h.meetings| == |kept|
    && (forall i | 0 <= i < |kept| :: MeetingSays(h.meetings[i], kept[i], second))
    && TiersAre(h.meetingTiers, kept) && LastOf(h.lastSeason, kept)
  }

  ghost predicate TiersAre(tiers: set<string>, kept: seq<Row>) {
    forall tier :: tier in tiers <==> exists i :: 0 <= i < |kept| && kept[i].tier == tier
  }

  /** The greatest season among the meetings, or zero where none is greater. */
  ghost predicate LastOf(last: int, kept: seq<Row>) {
    && 0 <= last && (forall i | 0 <= i < |kept| :: kept[i].season <= last)
    && (last == 0 || exists i :: 0 <= i < |kept| && kept[i].season == last)
  }

  lemma {:induction false} TiersOneMore(tiers: set<string>, kept: seq<Row>, r: Row)
    requires TiersAre(tiers, kept)
    ensures TiersAre(tiers + {r.tier}, kept + [r])
  {
    var all := kept + [r];
    assert all[|kept|] == r;
    forall tier
      ensures tier in tiers + {r.tier} <==> exists i :: 0 <= i < |all| && all[i].tier == tier
    {
      if i :| 0 <= i < |kept| && kept[i].tier == tier {
        assert all[i].tier == tier;
      }
      if i :| 0 <= i < |all| && all[i].tier == tier {
        assert i < |kept| ==> kept[i].tier == tier;
      }
    }
  }

  lemma {:induction false} LastOneMore(last: int, kept: seq<Row>, r: Row)
    requires LastOf(last, kept)
    ensures LastOf(if r.season > last then r.season else last, kept + [r])
  {
    var all := kept + [r];
    assert all[|kept|] == r;
    if i :| 0 <= i < |kept| && kept[i].season == last {
      assert all[i].season == last;
    }
  }

  lemma {:induction false} ScoredPasses(h: HeadToHead, kept: seq<Row>, second: int, r: Row)
    requires Passed(h, kept, second)
    ensures Passed(Met(h, r, Side(second, r)), kept + [r], second)
  {
    TiersOneMore(h.meetingTiers, kept, r);
    LastOneMore(h.lastSeason, kept, r);
  }

  /** The meetings kept, in order, with their tiers and the last of their seasons. */
  lemma {:induction false} MeetingsAreKept(second: int, rows: seq<Row>, f: Filter)
    ensures Passed(Built(second, rows, f), KeptOf(rows, f), second)
  {
    if rows != [] {
      var n := |rows| - 1;
      KeepsTheWanted(f, rows[n]);
      MeetingsAreKept(second, rows[..n], f);
      if Keep(f, rows[n]) {
        ScoredPasses(Built(second, rows[..n], f), KeptOf(rows[..n], f), second, rows[n]);
      } else {
        assert KeptOf(rows, f) == KeptOf(rows[..n], f);
      }
    }
  }
}
