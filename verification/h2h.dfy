/** A comparison of two players, built meeting by meeting (internal/httpapi/h2h.go). */
module HeadToHeads {
  import opened Collections

  /** A serve line as a meeting's row carries it, any part of which may be missing. */
  datatype Line = Line(aces: Option<int>, doubleFaults: Option<int>, servePoints: Option<int>, firstIn: Option<int>,
                       firstWon: Option<int>, secondWon: Option<int>, bpSaved: Option<int>, bpFaced: Option<int>)

  /** A meeting; `a` and `b` are the lines of the players in the order asked for, and `rest`
      what is passed on as it stands. */
  datatype Row = Row(winner: int, season: int, tier: string, level: string, round: string, qualifying: bool, bestOf: int,
                     surface: Option<string>, decidingSet: Option<bool>, tiebreaksWinner: Option<int>,
                     tiebreaksLoser: Option<int>, incomplete: bool, a: Line, b: Line, rest: string)

  datatype Filter = Filter(level: Option<string>, round: Option<string>, bestOf: Option<int>, surface: Option<string>,
                           deciders: bool, tiebreaks: bool, from: Option<int>, to: Option<int>)

  /** Two figures, in the order the players were asked for. */
  datatype Pair = Pair(first: int, second: int) {
    function At(side: nat, n: int): Pair {
      if side == 0 then Pair(first + n, second) else Pair(first, second + n)
    }

    function Mirror(): Pair {
      Pair(second, first)
    }
  }

  datatype Record = Record(matches: int, wins: Pair, incomplete: int)

  datatype Split = Split(name: string, matches: int, wins: Pair)

  datatype Totals = Totals(matches: int, aces: int, doubleFaults: int, servePoints: int, firstIn: int, firstWon: int,
                           secondWon: int, bpSaved: int, bpFaced: int)

  datatype Meeting = Meeting(row: Row, winnerIndex: nat, tiebreaks: Option<Pair>)

  datatype Closeness = Closeness(scored: int, deciders: Record, tiebreaks: Split)

  datatype HeadToHead = HeadToHead(record: Record, surfaces: seq<Split>, tiers: seq<Split>, serve: (Totals, Totals),
                                   meetings: seq<Meeting>, meetingTiers: set<string>, lastSeason: int, closeness: Closeness)

  // ---------------------------------------------------------------- the cut

  function CategoryOf(level: string, tier: string): string {
    if level == "D" then "team"
    else if level == "G" then "slam"
    else if level in ["M", "PM", "1000"] then "masters"
    else if level == "F" then "finals"
    else if level == "O" then "olympics"
    else tier
  }

  predicate Keep(f: Filter, r: Row) {
    && (f.level.Some? ==> CategoryOf(r.level, r.tier) == f.level.value)
    && (f.round.Some? ==> if f.round.value == "Q" then r.qualifying else r.round == f.round.value && !r.qualifying)
    && (f.bestOf.Some? ==> r.bestOf == f.bestOf.value)
    && (f.surface.Some? ==> r.surface == f.surface)
    && (f.deciders ==> r.decidingSet == Some(true))
    && (f.tiebreaks ==> r.tiebreaksWinner.Some? && r.tiebreaksLoser.Some?
                        && r.tiebreaksWinner.value + r.tiebreaksLoser.value != 0)
    && (f.from.Some? ==> r.season >= f.from.value)
    && (f.to.Some? ==> r.season <= f.to.value)
  }

  // ---------------------------------------------------------------- one meeting

  function Side(second: int, r: Row): nat {
    if r.winner == second then 1 else 0
  }

  function Figure(x: Option<int>): int {
    if x.Some? then x.value else 0
  }

  /** A line without serve points is no line. */
  function Plus(t: Totals, l: Line): Totals {
    if l.servePoints.None? then t
    else Totals(t.matches + 1, t.aces + Figure(l.aces), t.doubleFaults + Figure(l.doubleFaults),
                t.servePoints + l.servePoints.value, t.firstIn + Figure(l.firstIn), t.firstWon + Figure(l.firstWon),
                t.secondWon + Figure(l.secondWon), t.bpSaved + Figure(l.bpSaved), t.bpFaced + Figure(l.bpFaced))
  }

  /** One more meeting under a name, the names in the order they are first met. */
  function WithSplit(splits: seq<Split>, name: string, side: nat): seq<Split> {
    if splits == [] then [Split(name, 1, Pair(0, 0).At(side, 1))]
    else if splits[0].name == name then
      [Split(name, splits[0].matches + 1, splits[0].wins.At(side, 1))] + splits[1..]
    else [splits[0]] + WithSplit(splits[1..], name, side)
  }

  function Tiebreaks(r: Row, side: nat): Option<Pair> {
    if r.tiebreaksWinner.Some? && r.tiebreaksLoser.Some? then
      Some(if side == 0 then Pair(r.tiebreaksWinner.value, r.tiebreaksLoser.value)
           else Pair(r.tiebreaksLoser.value, r.tiebreaksWinner.value))
    else None
  }

  function SurfaceOf(r: Row): string {
    if r.surface.Some? then r.surface.value else "unknown"
  }

  function Closer(c: Closeness, r: Row, side: nat): Closeness {
    var scored := if r.decidingSet.Some? then c.scored + 1 else c.scored;
    var deciders :=
      if r.decidingSet == Some(true) then Record(c.deciders.matches + 1, c.deciders.wins.At(side, 1), c.deciders.incomplete)
      else c.deciders;
    var tiebreaks := match Tiebreaks(r, side)
                     case None => c.tiebreaks
                     case Some(won) =>
                       Split(c.tiebreaks.name, c.tiebreaks.matches + won.first + won.second,
                             Pair(c.tiebreaks.wins.first + won.first, c.tiebreaks.wins.second + won.second));
    Closeness(scored, deciders, tiebreaks)
  }

  /** A meeting inside the cut, but for the splits. */
  function Scored(h: HeadToHead, r: Row, side: nat): HeadToHead {
    h.(record := Record(h.record.matches + 1, h.record.wins.At(side, 1), h.record.incomplete + if r.incomplete then 1 else 0),
       serve := (Plus(h.serve.0, r.a), Plus(h.serve.1, r.b)),
       meetings := h.meetings + [Meeting(r, side, Tiebreaks(r, side))],
       meetingTiers := h.meetingTiers + {r.tier},
       lastSeason := if r.season > h.lastSeason then r.season else h.lastSeason)
  }

  function Met(h: HeadToHead, r: Row, side: nat): HeadToHead {
    Scored(h, r, side).(surfaces := WithSplit(h.surfaces, SurfaceOf(r), side), tiers := WithSplit(h.tiers, r.tier, side))
  }

  const NO_TOTALS := Totals(0, 0, 0, 0, 0, 0, 0, 0, 0)

  const NOTHING := HeadToHead(Record(0, Pair(0, 0), 0), [], [], (NO_TOTALS, NO_TOTALS), [], {}, 0,
                              Closeness(0, Record(0, Pair(0, 0), 0), Split("tiebreaks", 0, Pair(0, 0))))

  /** One more meeting. The closeness is over every meeting, whatever the cut; the rest over
      those inside it. */
  function Next(h: HeadToHead, r: Row, side: nat, f: Filter): HeadToHead {
    (if Keep(f, r) then Met(h, r, side) else h).(closeness := Closer(h.closeness, r, side))
  }

  function Built(second: int, rows: seq<Row>, f: Filter): HeadToHead {
    if rows == [] then NOTHING
    else Next(Built(second, rows[..|rows| - 1], f), rows[|rows| - 1], Side(second, rows[|rows| - 1]), f)
  }

  // ---------------------------------------------------------------- building in place

  /** The splits kept as a map, with the order their names were met in. */
  class Splits {
    var into: map<string, Split>
    var order: seq<string>

    constructor ()
      ensures Valid() && Listed() == []
    {
      into, order := map[], [];
    }

    predicate Valid()
      reads this
    {
      && (forall i | 0 <= i < |order| :: order[i] in into && into[order[i]].name == order[i])
      && (forall name | name in into :: name in order)
      && (forall i, j | 0 <= i < j < |order| :: order[i] != order[j])
    }

    function Listed(): seq<Split>
      requires Valid()
      reads this
    {
      SplitsOf(into, order)
    }

    method AddSplit(name: string, side: nat)
      requires Valid()
      modifies this
      ensures Valid() && Listed() == WithSplit(old(Listed()), name, side)
    {
      AddedIsListed(into, order, name, side);
      if name !in into {
        order := order + [name];
      }
      into := into[name := Counted(into, name, side)];
    }

    method CollectSplits() returns (out: seq<Split>)
      requires Valid()
      ensures out == Listed()
    {
      out := [];
      for i := 0 to |order|
        invariant out == SplitsOf(into, order[..i])
      {
        assert order[..i + 1][..i] == order[..i];
        SplitsOfAppend(into, order[..i], order[i]);
        assert order[..i + 1] == order[..i] + [order[i]];
        out := out + [into[order[i]]];
      }
      assert order[..|order|] == order;
    }
  }

  function SplitsOf(into: map<string, Split>, order: seq<string>): seq<Split>
    requires forall i | 0 <= i < |order| :: order[i] in into
  {
    if order == [] then [] else [into[order[0]]] + SplitsOf(into, order[1..])
  }

  lemma {:induction false} SplitsOfAppend(into: map<string, Split>, order: seq<string>, name: string)
    requires (forall i | 0 <= i < |order| :: order[i] in into) && name in into
    ensures SplitsOf(into, order + [name]) == SplitsOf(into, order) + [into[name]]
  {
    if order != [] {
      assert (order + [name])[1..] == order[1..] + [name];
      SplitsOfAppend(into, order[1..], name);
    }
  }

  lemma {:induction false} SplitsOfElsewhere(into: map<string, Split>, order: seq<string>, name: string, split: Split)
    requires (forall i | 0 <= i < |order| :: order[i] in into && order[i] != name)
    ensures SplitsOf(into[name := split], order) == SplitsOf(into, order)
  {
    if order != [] {
      SplitsOfElsewhere(into, order[1..], name, split);
    }
  }

  function Counted(into: map<string, Split>, name: string, side: nat): Split {
    var split := if name in into then into[name] else Split(name, 0, Pair(0, 0));
    split.(matches := split.matches + 1, wins := split.wins.At(side, 1))
  }

  lemma {:induction false} AddedIsListed(into: map<string, Split>, order: seq<string>, name: string, side: nat)
    requires forall i | 0 <= i < |order| :: order[i] in into && into[order[i]].name == order[i]
    requires forall i, j | 0 <= i < j < |order| :: order[i] != order[j]
    requires name in into ==> name in order
    ensures var into2 := into[name := Counted(into, name, side)];
            SplitsOf(into2, if name in into then order else order + [name]) == WithSplit(SplitsOf(into, order), name, side)
    decreases |order|
  {
    var into2 := into[name := Counted(into, name, side)];
    if order == [] {
      assert [name][1..] == [];
      assert order + [name] == [name];
    } else if order[0] == name {
      SplitsOfElsewhere(into, order[1..], name, Counted(into, name, side));
    } else {
      AddedIsListed(into, order[1..], name, side);
      assert (order + [name])[1..] == order[1..] + [name];
    }
  }

  method SumCloseness(second: int, rows: seq<Row>, ghost f: Filter) returns (c: Closeness)
    ensures c == Built(second, rows, f).closeness
  {
    c := NOTHING.closeness;
    for i := 0 to |rows|
      invariant c == Built(second, rows[..i], f).closeness
    {
      assert rows[..i + 1][..i] == rows[..i];
      c := Closer(c, rows[i], Side(second, rows[i]));
    }
    assert rows[..|rows|] == rows;
  }

  /** The comparison partway, its splits still in their maps. */
  ghost predicate Building(second: int, rows: seq<Row>, f: Filter, h: HeadToHead, surfaces: seq<Split>, tiers: seq<Split>) {
    h.(surfaces := surfaces, tiers := tiers) == Built(second, rows, f).(closeness := h.closeness)
  }

  lemma {:induction false} BuildingNext(second: int, rows: seq<Row>, f: Filter, h: HeadToHead, surfaces: seq<Split>, tiers: seq<Split>, r: Row)
    requires Building(second, rows, f, h, surfaces, tiers)
    ensures if Keep(f, r) then
              Building(second, rows + [r], f, Scored(h, r, Side(second, r)), WithSplit(surfaces, SurfaceOf(r), Side(second, r)),
                       WithSplit(tiers, r.tier, Side(second, r)))
            else Building(second, rows + [r], f, h, surfaces, tiers)
  {
  }

  method BuildHeadToHead(second: int, rows: seq<Row>, f: Filter) returns (h: HeadToHead)
    ensures h == Built(second, rows, f)
  {
    var closeness := SumCloseness(second, rows, f);
    h := NOTHING.(closeness := closeness);
    var surfaces := new Splits();
    var tiers := new Splits();
    for i := 0 to |rows|
      invariant fresh(surfaces) && fresh(tiers) && surfaces != tiers && surfaces.Valid() && tiers.Valid()
      invariant h.closeness == closeness && Building(second, rows[..i], f, h, surfaces.Listed(), tiers.Listed())
    {
      BuildingNext(second, rows[..i], f, h, surfaces.Listed(), tiers.Listed(), rows[i]);
      assert rows[..i + 1] == rows[..i] + [rows[i]];
      if Keep(f, rows[i]) {
        var side := Side(second, rows[i]);
        h := Scored(h, rows[i], side);
        surfaces.AddSplit(SurfaceOf(rows[i]), side);
        tiers.AddSplit(rows[i].tier, side);
      }
    }
    assert rows[..|rows|] == rows;
    var surfaceSplits := surfaces.CollectSplits();
    var tierSplits := tiers.CollectSplits();
    h := h.(surfaces := surfaceSplits, tiers := tierSplits);
  }

  // ---------------------------------------------------------------- from the other end

  function MirrorSplit(s: Split): Split {
    s.(wins := s.wins.Mirror())
  }

  function MirrorSplits(splits: seq<Split>): seq<Split> {
    if splits == [] then [] else [MirrorSplit(splits[0])] + MirrorSplits(splits[1..])
  }

  function MirrorRow(r: Row): Row {
    r.(a := r.b, b := r.a)
  }

  function MirrorRows(rows: seq<Row>): (r: seq<Row>)
    ensures |r| == |rows|
  {
    if rows == [] then [] else MirrorRows(rows[..|rows| - 1]) + [MirrorRow(rows[|rows| - 1])]
  }

  function MirrorMeeting(m: Meeting): Meeting {
    Meeting(MirrorRow(m.row), if m.winnerIndex == 0 then 1 else 0,
            if m.tiebreaks.Some? then Some(m.tiebreaks.value.Mirror()) else None)
  }

  function MirrorMeetings(ms: seq<Meeting>): seq<Meeting> {
    if ms == [] then [] else MirrorMeetings(ms[..|ms| - 1]) + [MirrorMeeting(ms[|ms| - 1])]
  }

  function MirrorRecord(r: Record): Record {
    r.(wins := r.wins.Mirror())
  }

  /** Every paired figure the other way round, and nothing else changed. */
  function MirrorOf(h: HeadToHead): HeadToHead {
    HeadToHead(MirrorRecord(h.record), MirrorSplits(h.surfaces), MirrorSplits(h.tiers), (h.serve.1, h.serve.0),
               MirrorMeetings(h.meetings), h.meetingTiers, h.lastSeason,
               Closeness(h.closeness.scored, MirrorRecord(h.closeness.deciders), MirrorSplit(h.closeness.tiebreaks)))
  }

  lemma {:induction false} SplitMirrors(splits: seq<Split>, name: string, side: nat)
    requires side <= 1
    ensures WithSplit(MirrorSplits(splits), name, 1 - side) == MirrorSplits(WithSplit(splits, name, side))
  {
    if splits == [] {
      assert MirrorSplits(WithSplit(splits, name, side)) == [MirrorSplit(WithSplit(splits, name, side)[0])];
    } else if splits[0].name == name {
      assert WithSplit(splits, name, side)[1..] == splits[1..];
      assert MirrorSplits(splits)[1..] == MirrorSplits(splits[1..]);
    } else {
      SplitMirrors(splits[1..], name, side);
      assert WithSplit(splits, name, side)[1..] == WithSplit(splits[1..], name, side);
      assert MirrorSplits(splits)[1..] == MirrorSplits(splits[1..]);
    }
  }

  lemma {:induction false} MetMirrors(h: HeadToHead, r: Row, side: nat)
    requires side <= 1
    ensures Met(MirrorOf(h), MirrorRow(r), 1 - side) == MirrorOf(Met(h, r, side))
  {
    SplitMirrors(h.surfaces, SurfaceOf(r), side);
    SplitMirrors(h.tiers, r.tier, side);
    var ms := h.meetings + [Meeting(r, side, Tiebreaks(r, side))];
    assert ms[..|ms| - 1] == h.meetings;
  }

  lemma {:induction false} CloserMirrors(h: HeadToHead, r: Row, side: nat)
    requires side <= 1
    ensures Closer(MirrorOf(h).closeness, MirrorRow(r), 1 - side)
         == MirrorOf(h.(closeness := Closer(h.closeness, r, side))).closeness
  {
  }

  lemma {:induction false} NextMirrors(h: HeadToHead, r: Row, side: nat, f: Filter)
    requires side <= 1
    ensures Next(MirrorOf(h), MirrorRow(r), 1 - side, f) == MirrorOf(Next(h, r, side, f))
  {
    MetMirrors(h, r, side);
    CloserMirrors(h, r, side);
  }

  /** The two ends agree: asked for the other way round, with the serve lines the other way
      round, the comparison is the mirror image, under any cut, provided every meeting was
      won by one of the two. */
  lemma {:induction false} OtherEndIsTheMirror(first: int, second: int, rows: seq<Row>, f: Filter)
    requires first != second && forall i | 0 <= i < |rows| :: rows[i].winner == first || rows[i].winner == second
    ensures Built(first, MirrorRows(rows), f) == MirrorOf(Built(second, rows, f))
  {
    if rows != [] {
      var init, r := rows[..|rows| - 1], rows[|rows| - 1];
      assert forall i | 0 <= i < |init| :: init[i] == rows[i];
      OtherEndIsTheMirror(first, second, init, f);
      assert MirrorRows(rows)[..|rows| - 1] == MirrorRows(init);
      NextMirrors(Built(second, init, f), r, Side(second, r), f);
    }
  }

  // ---------------------------------------------------------------- splits

  function SplitMatches(splits: seq<Split>): int {
    if splits == [] then 0 else splits[0].matches + SplitMatches(splits[1..])
  }

  function SplitWins(splits: seq<Split>): Pair {
    if splits == [] then Pair(0, 0)
    else
      var rest := SplitWins(splits[1..]);
      Pair(splits[0].wins.first + rest.first, splits[0].wins.second + rest.second)
  }

  lemma {:induction false} OneMoreSplit(splits: seq<Split>, name: string, side: nat)
    ensures SplitMatches(WithSplit(splits, name, side)) == SplitMatches(splits) + 1
    ensures SplitWins(WithSplit(splits, name, side)) == SplitWins(splits).At(side, 1)
  {
    if splits != [] && splits[0].name != name {
      OneMoreSplit(splits[1..], name, side);
      assert WithSplit(splits, name, side)[1..] == WithSplit(splits[1..], name, side);
    } else if splits != [] {
      assert WithSplit(splits, name, side)[1..] == splits[1..];
    }
  }

  /** The surfaces and the tiers each add up to the record: in matches, and in each side's wins. */
  lemma {:induction false} SplitsAddUp(second: int, rows: seq<Row>, f: Filter)
    ensures var h := Built(second, rows, f);
            && SplitMatches(h.surfaces) == SplitMatches(h.tiers) == h.record.matches == |h.meetings|
            && SplitWins(h.surfaces) == h.record.wins && SplitWins(h.tiers) == h.record.wins
            && h.record.wins.first + h.record.wins.second == h.record.matches
  {
    if rows != [] {
      var init, r := rows[..|rows| - 1], rows[|rows| - 1];
      SplitsAddUp(second, init, f);
      var h := Built(second, init, f);
      OneMoreSplit(h.surfaces, SurfaceOf(r), Side(second, r));
      OneMoreSplit(h.tiers, r.tier, Side(second, r));
    }
  }
}
