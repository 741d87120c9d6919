/** The sparse log stands in for the dense history: whole runs of the rating engine. */
module RatingLaws {
  import opened Collections
  import opened RatingEngine

  /** Results whose weeks never go back, from the year 1 on: the runs the engine accepts. */
  ghost predicate Accepted(rs: seq<Outcome>) {
    && (forall i | 0 <= i < |rs| :: 0 <= Week(rs[i]))
    && (forall i, j | 0 <= i < j < |rs| :: Week(rs[i]) <= Week(rs[j]))
  }

  function Week(r: Outcome): int {
    WeekOf(r.playedOn)
  }

  ghost function Run(c: Curves, rs: seq<Outcome>): Replay {
    if rs == [] then START else Run(c, rs[..|rs| - 1]).Add(c, rs[|rs| - 1])
  }

  /** Everything a finished run writes. */
  ghost function Log(c: Curves, rs: seq<Outcome>): seq<Snapshot> {
    Run(c, rs).Closed().log
  }

  // ---------------------------------------------------------------- the dense history

  function Dense(c: Curves, rs: seq<Outcome>): Ratings {
    if rs == [] then map[] else Rated(c, Dense(c, rs[..|rs| - 1]), rs[|rs| - 1])
  }

  /** The results up to the end of a week. */
  function UpTo(rs: seq<Outcome>, w: int): seq<Outcome> {
    if rs == [] then []
    else UpTo(rs[..|rs| - 1], w) + if Week(rs[|rs| - 1]) <= w then [rs[|rs| - 1]] else []
  }

  function Held(m: Ratings, k: Key): Option<State> {
    if k in m then Some(m[k]) else None
  }

  /** A series at the end of a week, replayed densely; none while it is unrated. */
  function AsOf(c: Curves, rs: seq<Outcome>, k: Key, w: int): Option<State> {
    Held(Dense(c, UpTo(rs, w)), k)
  }

  /** The last row of a series at or before a week: how the log is read. */
  function Lookup(log: seq<Snapshot>, k: Key, w: int): Option<State> {
    if log == [] then None
    else
      var last := log[|log| - 1];
      if last.key == k && last.asOf <= w then Some(last.state) else Lookup(log[..|log| - 1], k, w)
  }

  // ---------------------------------------------------------------- reading the log

  lemma {:induction false} LookupPastRows(log: seq<Snapshot>, keys: seq<Key>, m: Ratings, week: int, k: Key, w: int)
    ensures Lookup(log + RowsOf(keys, m, week), k, w)
         == if week <= w && k in keys then Some(Worth(m, k)) else Lookup(log, k, w)
  {
    if keys == [] {
      assert log + [] == log;
    } else {
      var init, last := keys[..|keys| - 1], keys[|keys| - 1];
      var row := Snapshot(last, week, Worth(m, last));
      LookupPastRows(log, init, m, week, k, w);
      LookupPastRow(log + RowsOf(init, m, week), row, k, w);
      RowsOfLast(keys, m, week);
      assert log + (RowsOf(init, m, week) + [row]) == log + RowsOf(init, m, week) + [row];
      assert k in keys <==> k in init || k == last;
    }
  }

  lemma {:induction false} RowsOfLast(keys: seq<Key>, m: Ratings, week: int)
    requires keys != []
    ensures var init, last := keys[..|keys| - 1], keys[|keys| - 1];
            RowsOf(keys, m, week) == RowsOf(init, m, week) + [Snapshot(last, week, Worth(m, last))]
  {
  }

  lemma {:induction false} LookupPastRow(log: seq<Snapshot>, row: Snapshot, k: Key, w: int)
    ensures Lookup(log + [row], k, w) == if row.key == k && row.asOf <= w then Some(row.state) else Lookup(log, k, w)
  {
    assert (log + [row])[..|log|] == log;
  }

  /** Closing a week writes what its series are worth, and nothing earlier reads differently. */
  lemma {:induction false} LookupClosed(e: Replay, k: Key, w: int)
    ensures Lookup(e.Closed().log, k, w)
         == if e.week <= w && k in e.touched then Some(Worth(e.series, k)) else Lookup(e.log, k, w)
  {
    InOrderMembers(e.touched);
    LookupPastRows(e.log, InOrder(e.touched), e.series, e.week, k, w);
  }

  lemma {:induction false} LookupBeyond(log: seq<Snapshot>, k: Key, w: int, v: int)
    requires forall i | 0 <= i < |log| :: log[i].asOf <= w
    requires w <= v
    ensures Lookup(log, k, w) == Lookup(log, k, v)
  {
    if log != [] {
      LookupBeyond(log[..|log| - 1], k, w, v);
    }
  }

  // ---------------------------------------------------------------- what a week leaves alone

  lemma {:induction false} AcceptedInit(rs: seq<Outcome>)
    requires Accepted(rs) && rs != []
    ensures Accepted(rs[..|rs| - 1])
    ensures forall i | 0 <= i < |rs| :: Week(rs[i]) <= Week(rs[|rs| - 1])
    ensures |rs| > 1 ==> Week(rs[..|rs| - 1][|rs| - 2]) <= Week(rs[|rs| - 1])
  {
  }

  lemma {:induction false} RatedHas(c: Curves, m: Ratings, r: Outcome, k: Key)
    ensures k in Rated(c, m, r) <==> k in m || Names(r, k)
  {
  }

  lemma {:induction false} RatedElsewhere(c: Curves, m: Ratings, r: Outcome, k: Key)
    requires !Names(r, k)
    ensures Held(Rated(c, m, r), k) == Held(m, k)
  {
  }

  lemma {:induction false} UpToAll(rs: seq<Outcome>, w: int)
    requires forall i | 0 <= i < |rs| :: Week(rs[i]) <= w
    ensures UpTo(rs, w) == rs
  {
    if rs != [] {
      UpToAll(rs[..|rs| - 1], w);
    }
  }

  ghost predicate PlayedIn(rs: seq<Outcome>, k: Key, w: int) {
    exists i :: 0 <= i < |rs| && Week(rs[i]) == w && Names(rs[i], k)
  }

  lemma {:induction false} PlayedOneMore(rs: seq<Outcome>, k: Key, w: int)
    requires rs != []
    ensures PlayedIn(rs, k, w) <==>
            PlayedIn(rs[..|rs| - 1], k, w) || (Week(rs[|rs| - 1]) == w && Names(rs[|rs| - 1], k))
  {
  }

  lemma {:induction false} UnplayedLast(c: Curves, rs: seq<Outcome>, w: int, k: Key)
    requires rs != [] && Week(rs[|rs| - 1]) == w && !Names(rs[|rs| - 1], k)
    ensures Held(Dense(c, rs), k) == Held(Dense(c, rs[..|rs| - 1]), k)
    ensures UpTo(rs, w - 1) == UpTo(rs[..|rs| - 1], w - 1)
  {
    RatedElsewhere(c, Dense(c, rs[..|rs| - 1]), rs[|rs| - 1], k);
  }

  /** A series nobody moved in the last week stands where the week before left it. */
  lemma {:induction false} UnplayedStands(c: Curves, rs: seq<Outcome>, w: int, k: Key)
    requires Accepted(rs) && (forall i | 0 <= i < |rs| :: Week(rs[i]) <= w) && !PlayedIn(rs, k, w)
    ensures Held(Dense(c, rs), k) == AsOf(c, rs, k, w - 1)
  {
    if rs != [] {
      AcceptedInit(rs);
      PlayedOneMore(rs, k, w);
      if Week(rs[|rs| - 1]) == w {
        UnplayedStands(c, rs[..|rs| - 1], w, k);
        UnplayedLast(c, rs, w, k);
      } else {
        UpToAll(rs, w - 1);
      }
    }
  }

  // ---------------------------------------------------------------- the invariant of a run

  ghost predicate ReadsBack(c: Curves, rs: seq<Outcome>, log: seq<Snapshot>, k: Key, w: int) {
    Lookup(log, k, w) == AsOf(c, rs, k, w)
  }

  /** Where the run stands, apart from what its log reads. */
  ghost predicate Stands(c: Curves, rs: seq<Outcome>, e: Replay) {
    && e.series == Dense(c, rs)
    && 0 <= e.week && (forall i | 0 <= i < |rs| :: Week(rs[i]) <= e.week)
    && (forall k | k in e.touched :: k in e.series)
    && (forall k :: k in e.touched <==> PlayedIn(rs, k, e.week))
    && (forall i | 0 <= i < |e.log| :: e.log[i].asOf < e.week)
  }

  lemma {:induction false} OpenedStands(c: Curves, rs: seq<Outcome>, e: Replay, week: int)
    requires Stands(c, rs, e) && e.week <= week
    ensures Stands(c, rs, e.At(week))
  {
  }

  lemma {:induction false} AddStands(c: Curves, rs: seq<Outcome>, e: Replay, r: Outcome)
    requires Stands(c, rs, e) && e.week == Week(r)
    ensures Stands(c, rs + [r], e.(series := Rated(c, e.series, r), touched := e.touched + Named(r)))
  {
    var all := rs + [r];
    assert all[..|all| - 1] == rs;
    NamedMeans(r);
    forall k | k in e.touched + Named(r)
      ensures k in Rated(c, e.series, r)
    {
      RatedHas(c, e.series, r, k);
    }
    forall k
      ensures k in e.touched + Named(r) <==> PlayedIn(all, k, e.week)
    {
      PlayedOneMore(all, k, e.week);
    }
  }

  lemma {:induction false} NextStands(c: Curves, rs: seq<Outcome>, e: Replay, r: Outcome)
    requires Stands(c, rs, e) && e.week <= Week(r)
    ensures Stands(c, rs + [r], e.Add(c, r)) && e.Add(c, r).week == Week(r)
  {
    OpenedStands(c, rs, e, Week(r));
    AddStands(c, rs, e.At(Week(r)), r);
  }

  lemma {:induction false} RunStands(c: Curves, rs: seq<Outcome>)
    requires Accepted(rs)
    ensures Stands(c, rs, Run(c, rs)) && (rs != [] ==> Run(c, rs).week == Week(rs[|rs| - 1]))
  {
    if rs != [] {
      var init := rs[..|rs| - 1];
      AcceptedInit(rs);
      RunStands(c, init);
      StandsOnward(c, rs, Run(c, init));
    }
  }

  lemma {:induction false} StandsOnward(c: Curves, rs: seq<Outcome>, e: Replay)
    requires rs != [] && Accepted(rs) && Stands(c, rs[..|rs| - 1], e)
    requires if |rs| == 1 then e == START else e.week == Week(rs[|rs| - 2])
    ensures Stands(c, rs, e.Add(c, rs[|rs| - 1])) && e.Add(c, rs[|rs| - 1]).week == Week(rs[|rs| - 1])
  {
    var init, last := rs[..|rs| - 1], rs[|rs| - 1];
    NotPastNext(rs, e);
    NextStands(c, init, e, last);
    assert init + [last] == rs;
  }

  lemma {:induction false} NotPastNext(rs: seq<Outcome>, e: Replay)
    requires rs != [] && Accepted(rs)
    requires if |rs| == 1 then e == START else e.week == Week(rs[|rs| - 2])
    ensures e.week <= Week(rs[|rs| - 1])
  {
  }

  lemma {:induction false} RunWeeks(c: Curves, rs: seq<Outcome>)
    requires Accepted(rs)
    ensures 0 <= Run(c, rs).week && forall i | 0 <= i < |rs| :: Week(rs[i]) <= Run(c, rs).week
    ensures Run(c, rs).week == if rs == [] then 0 else Week(rs[|rs| - 1])
  {
    RunStands(c, rs);
  }

  lemma {:induction false} ClosedReadsMoved(c: Curves, rs: seq<Outcome>, e: Replay, k: Key, w: int)
    requires Stands(c, rs, e) && e.week <= w && k in e.touched
    ensures ReadsBack(c, rs, e.Closed().log, k, w)
  {
    LookupClosed(e, k, w);
    UpToAll(rs, w);
  }

  lemma {:induction false} UnmovedFacts(c: Curves, rs: seq<Outcome>, e: Replay, k: Key, w: int)
    requires Accepted(rs) && Stands(c, rs, e) && e.week <= w && k !in e.touched
    ensures Held(Dense(c, rs), k) == AsOf(c, rs, k, e.week - 1) && UpTo(rs, w) == rs
    ensures Lookup(e.log, k, e.week - 1) == Lookup(e.log, k, w)
  {
    UnplayedStands(c, rs, e.week, k);
    UpToAll(rs, w);
    LookupBeyond(e.log, k, e.week - 1, w);
  }

  lemma {:induction false} ClosedReadsUnmoved(c: Curves, rs: seq<Outcome>, e: Replay, k: Key, w: int)
    requires Held(Dense(c, rs), k) == AsOf(c, rs, k, e.week - 1) && UpTo(rs, w) == rs
    requires Lookup(e.log, k, e.week - 1) == Lookup(e.log, k, w)
    requires k !in e.touched && ReadsBack(c, rs, e.log, k, e.week - 1)
    ensures ReadsBack(c, rs, e.Closed().log, k, w)
  {
    LookupClosed(e, k, w);
  }

  /** Once the open week is closed, the log reads as the dense history, if it did before it. */
  lemma {:induction false} ClosedReadsBack(c: Curves, rs: seq<Outcome>, e: Replay, k: Key, w: int)
    requires Accepted(rs) && Stands(c, rs, e)
    requires ReadsBack(c, rs, e.log, k, if w < e.week then w else e.week - 1)
    ensures ReadsBack(c, rs, e.Closed().log, k, w)
  {
    if w < e.week {
      LookupClosed(e, k, w);
    } else if k in e.touched {
      ClosedReadsMoved(c, rs, e, k, w);
    } else {
      UnmovedFacts(c, rs, e, k, w);
      ClosedReadsUnmoved(c, rs, e, k, w);
    }
  }

  /** Results of the open week or later are not in any week closed. */
  lemma {:induction false} ReadsBackBefore(c: Curves, rs: seq<Outcome>, log: seq<Snapshot>, k: Key, w: int)
    requires rs != [] && w < Week(rs[|rs| - 1])
    ensures ReadsBack(c, rs, log, k, w) <==> ReadsBack(c, rs[..|rs| - 1], log, k, w)
  {
    assert UpTo(rs, w) == UpTo(rs[..|rs| - 1], w);
  }

  lemma {:induction false} RunReadsBack(c: Curves, rs: seq<Outcome>, k: Key, w: int)
    requires Accepted(rs) && w < Run(c, rs).week
    ensures ReadsBack(c, rs, Run(c, rs).log, k, w)
  {
    RunStands(c, rs);
    if rs != [] {
      var init := rs[..|rs| - 1];
      AcceptedInit(rs);
      RunStands(c, init);
      var before := Run(c, init);
      ReadsBackBefore(c, rs, Run(c, rs).log, k, w);
      RunReadsBack(c, init, k, if w < before.week then w else before.week - 1);
      ClosedReadsBack(c, init, before, k, w);
    }
  }

  lemma {:induction false} LogIsClosed(c: Curves, rs: seq<Outcome>, e: Replay)
    requires e == Run(c, rs)
    ensures Log(c, rs) == e.Closed().log
  {
  }

  lemma {:induction false} LogReadsBack(c: Curves, rs: seq<Outcome>, e: Replay, k: Key, w: int)
    requires Accepted(rs) && e == Run(c, rs) && Stands(c, rs, e)
    ensures ReadsBack(c, rs, Log(c, rs), k, w)
  {
    RunReadsBack(c, rs, k, if w < e.week then w else e.week - 1);
    ClosedReadsBack(c, rs, e, k, w);
    LogIsClosed(c, rs, e);
  }

  /** The sparse log refines the dense history: for any run in order, closed at the end,
      the last row of a series at or before a week is what replaying every result up to
      that week gives, and there is no such row exactly when the series is unrated by then. */
  lemma {:induction false} SparseLogIsDense(c: Curves, rs: seq<Outcome>, k: Key, w: int)
    requires Accepted(rs)
    ensures Lookup(Log(c, rs), k, w) == AsOf(c, rs, k, w)
  {
    RunStands(c, rs);
    LogReadsBack(c, rs, Run(c, rs), k, w);
  }

  // ---------------------------------------------------------------- order and rows of the log

  /** Row order: by week, then player, then the name of the series. */
  predicate Before(a: Snapshot, b: Snapshot) {
    a.asOf < b.asOf || (a.asOf == b.asOf && a.key != b.key && KeyAtMost(a.key, b.key))
  }

  ghost predicate Increasing(log: seq<Snapshot>) {
    forall i, j | 0 <= i < j < |log| :: Before(log[i], log[j])
  }

  lemma {:induction false} OnceEach(keys: set<Key>, s: seq<Key>)
    requires multiset(s) == multiset(keys)
    ensures forall i, j | 0 <= i < j < |s| :: s[i] != s[j]
  {
    forall i, j | 0 <= i < j < |s|
      ensures s[i] != s[j]
    {
      assert s == s[..j] + s[j..] && s[i] in s[..j] && s[j] in s[j..];
      assert multiset(s) == multiset(s[..j]) + multiset(s[j..]);
      assert multiset(s)[s[i]] <= 1;
    }
  }

  lemma {:induction false} RowsIncrease(e: Replay)
    ensures Increasing(e.Rows())
  {
    KeysAreOrdered();
    InOrderMembers(e.touched);
    OnceEach(e.touched, InOrder(e.touched));
  }

  lemma {:induction false} ClosedIncreases(e: Replay)
    requires Increasing(e.log) && forall i | 0 <= i < |e.log| :: e.log[i].asOf < e.week
    ensures Increasing(e.Closed().log)
  {
    RowsIncrease(e);
  }

  lemma {:induction false} RunIncreases(c: Curves, rs: seq<Outcome>)
    requires Accepted(rs)
    ensures Increasing(Run(c, rs).log)
  {
    if rs != [] {
      AcceptedInit(rs);
      RunIncreases(c, rs[..|rs| - 1]);
      RunStands(c, rs[..|rs| - 1]);
      ClosedIncreases(Run(c, rs[..|rs| - 1]));
    }
  }

  /** The log of a run is strictly increasing in week, player and series name. */
  lemma {:induction false} LogIncreases(c: Curves, rs: seq<Outcome>)
    requires Accepted(rs)
    ensures Increasing(Log(c, rs))
  {
    RunIncreases(c, rs);
    RunStands(c, rs);
    ClosedIncreases(Run(c, rs));
  }

  ghost predicate HasRow(log: seq<Snapshot>, k: Key, w: int) {
    exists i :: 0 <= i < |log| && log[i].key == k && log[i].asOf == w
  }

  lemma {:induction false} RowsHave(e: Replay, k: Key, w: int)
    ensures HasRow(e.Rows(), k, w) <==> k in e.touched && w == e.week
  {
    InOrderMembers(e.touched);
    var keys := InOrder(e.touched);
    if k in e.touched && w == e.week {
      var i :| 0 <= i < |keys| && keys[i] == k;
      assert e.Rows()[i] == Snapshot(k, w, Worth(e.series, k));
    }
    if HasRow(e.Rows(), k, w) {
      var i :| 0 <= i < |e.Rows()| && e.Rows()[i].key == k && e.Rows()[i].asOf == w;
      assert keys[i] == k;
    }
  }

  lemma {:induction false} HasRowEither(a: seq<Snapshot>, b: seq<Snapshot>, k: Key, w: int)
    ensures HasRow(a + b, k, w) <==> HasRow(a, k, w) || HasRow(b, k, w)
  {
    if HasRow(a, k, w) {
      var i :| 0 <= i < |a| && a[i].key == k && a[i].asOf == w;
      assert (a + b)[i] == a[i];
    }
    if HasRow(b, k, w) {
      var i :| 0 <= i < |b| && b[i].key == k && b[i].asOf == w;
      assert (a + b)[|a| + i] == b[i];
    }
  }

  lemma {:induction false} RunHasRows(c: Curves, rs: seq<Outcome>, k: Key, w: int)
    requires Accepted(rs)
    ensures HasRow(Run(c, rs).log, k, w) <==> w < Run(c, rs).week && PlayedIn(rs, k, w)
  {
    RunStands(c, rs);
    if rs != [] {
      var init := rs[..|rs| - 1];
      AcceptedInit(rs);
      RunStands(c, init);
      RunHasRows(c, init, k, w);
      PlayedOneMore(rs, k, w);
      var before := Run(c, init);
      RowsHave(before, k, w);
      HasRowEither(before.log, before.Rows(), k, w);
      if w > before.week {
        assert !PlayedIn(init, k, w);
      }
    }
  }

  /** One row per series per week it moved: a series has a row for a week exactly when
      some result of that week names it (and, the log increasing, it has only the one). */
  lemma {:induction false} RowsAreWeeksPlayed(c: Curves, rs: seq<Outcome>, k: Key, w: int)
    requires Accepted(rs)
    ensures HasRow(Log(c, rs), k, w) <==> PlayedIn(rs, k, w)
  {
    var e := Run(c, rs);
    RunStands(c, rs);
    RunHasRows(c, rs, k, w);
    RowsHave(e, k, w);
    HasRowEither(e.log, e.Rows(), k, w);
    if w > e.week {
      assert !PlayedIn(rs, k, w);
    }
  }

  // ---------------------------------------------------------------- counting matches

  /** How many sides of a result in a series are a player's. */
  function Sides(r: Outcome, k: Key): nat {
    (if r.winner == k.player then 1 else 0) + (if r.loser == k.player then 1 else 0)
  }

  /** What a result counts for a series: overall by every match, a surface by its own. */
  function Counted(r: Outcome, k: Key): nat {
    (if k.series == Overall then Sides(r, k) else 0) + (if r.surface == Some(k.series) then Sides(r, k) else 0)
  }

  function Appearances(rs: seq<Outcome>, k: Key): nat {
    if rs == [] then 0 else Appearances(rs[..|rs| - 1], k) + Counted(rs[|rs| - 1], k)
  }

  function MatchesOf(m: Ratings, k: Key): nat {
    if k in m then m[k].matches else 0
  }

  lemma {:induction false} RateCounts(c: Curves, m: Ratings, r: Outcome, s: Series, weight: real, k: Key)
    ensures MatchesOf(Rate(c, m, Key(r.winner, s), Key(r.loser, s), weight), k)
         == MatchesOf(m, k) + if k.series == s then Sides(r, k) else 0
  {
  }

  lemma {:induction false} RatedCounts(c: Curves, m: Ratings, r: Outcome, k: Key)
    ensures MatchesOf(Rated(c, m, r), k) == MatchesOf(m, k) + Counted(r, k)
  {
    var weight := c.weight(r.match_);
    RateCounts(c, m, r, Overall, weight, k);
    if r.surface.Some? {
      var overall := Rate(c, m, Key(r.winner, Overall), Key(r.loser, Overall), weight);
      RateCounts(c, overall, r, r.surface.value, weight, k);
    }
  }

  lemma {:induction false} DenseCounts(c: Curves, rs: seq<Outcome>, k: Key)
    ensures MatchesOf(Dense(c, rs), k) == Appearances(rs, k)
  {
    if rs != [] {
      DenseCounts(c, rs[..|rs| - 1], k);
      RatedCounts(c, Dense(c, rs[..|rs| - 1]), rs[|rs| - 1], k);
    }
  }

  /** The matches on the row read at a week are the results that counted for the series by then. */
  lemma {:induction false} LogCountsMatches(c: Curves, rs: seq<Outcome>, k: Key, w: int)
    requires Accepted(rs) && Lookup(Log(c, rs), k, w).Some?
    ensures Lookup(Log(c, rs), k, w).value.matches == Appearances(UpTo(rs, w), k)
  {
    SparseLogIsDense(c, rs, k, w);
    DenseCounts(c, UpTo(rs, w), k);
  }

  // ---------------------------------------------------------------- a whole run of the engine

  lemma {:induction false} LogGrows(c: Curves, rs: seq<Outcome>, n: nat)
    requires n <= |rs|
    ensures Run(c, rs[..n]).log <= Run(c, rs).log
    decreases |rs|
  {
    if n < |rs| {
      LogGrows(c, rs[..|rs| - 1], n);
      assert rs[..|rs| - 1][..n] == rs[..n];
    } else {
      assert rs[..n] == rs;
    }
  }

  lemma {:induction false} OpenedIsWritten(c: Curves, rs: seq<Outcome>, i: nat)
    requires i < |rs|
    ensures Run(c, rs[..i]).At(Week(rs[i])).log <= Log(c, rs)
  {
    assert rs[..i + 1][..i] == rs[..i];
    LogGrows(c, rs, i + 1);
  }

  /** The run goes on exactly while the weeks do not go back. */
  lemma {:induction false} GoesOn(c: Curves, rs: seq<Outcome>, i: nat)
    requires i < |rs| && Accepted(rs[..i])
    ensures Run(c, rs[..i]).week <= Week(rs[i]) ==> Accepted(rs[..i + 1])
    ensures Week(rs[i]) < Run(c, rs[..i]).week ==> !Accepted(rs)
  {
    RunWeeks(c, rs[..i]);
    NextAccepted(rs, i, Run(c, rs[..i]).week);
  }

  lemma {:induction false} NextAccepted(rs: seq<Outcome>, i: nat, week: int)
    requires i < |rs| && Accepted(rs[..i]) && 0 <= week && (forall j | 0 <= j < i :: Week(rs[..i][j]) <= week)
    requires week == if i == 0 then 0 else Week(rs[..i][i - 1])
    ensures week <= Week(rs[i]) ==> Accepted(rs[..i + 1])
    ensures Week(rs[i]) < week ==> !Accepted(rs)
  {
  }

  lemma {:induction false} RunOneMore(c: Curves, rs: seq<Outcome>, i: nat)
    requires i < |rs|
    ensures Run(c, rs[..i + 1]) == Run(c, rs[..i]).Add(c, rs[i])
    ensures Predictions(c, rs[..i + 1]) == Predictions(c, rs[..i]) + [Predict(c, Dense(c, rs[..i]), rs[i])]
  {
    assert rs[..i + 1][..i] == rs[..i];
  }

  /** What the engine predicted, had it been asked: each from the results before it. */
  ghost function Predictions(c: Curves, rs: seq<Outcome>): seq<Prediction> {
    if rs == [] then []
    else Predictions(c, rs[..|rs| - 1]) + [Predict(c, Dense(c, rs[..|rs| - 1]), rs[|rs| - 1])]
  }

  /** An engine that has taken the first `i` results, every row accepted so far. */
  ghost predicate Midway(e: Engine, c: Curves, rs: seq<Outcome>, i: nat)
    requires i <= |rs|
    reads e
  {
    && e.Valid() && e.curves == c && e.calls == |e.log|
    && e.Standing() == Run(c, rs[..i]) && Accepted(rs[..i])
    && e.predictions == if e.predicting then Predictions(c, rs[..i]) else []
  }

  /** One more result: on failure the results were out of order, or a row was refused. */
  method Take(e: Engine, ghost c: Curves, rs: seq<Outcome>, i: nat) returns (ok: bool)
    requires i < |rs| && Midway(e, c, rs, i)
    modifies e
    ensures e.Valid()
    ensures ok ==> Midway(e, c, rs, i + 1)
    ensures !ok && Accepted(rs) ==> e.log <= Log(c, rs) && e.calls > |e.log|
  {
    GoesOn(c, rs, i);
    RunStands(c, rs[..i]);
    RunOneMore(c, rs, i);
    OpenedIsWritten(c, rs, i);
    ok := e.Add(rs[i]);
  }

  /** Rates everything and closes. It succeeds only for results in order, with every row
      accepted, and the rows are then the log; in order, it fails only on a refused row,
      and what was written by then is a prefix of the log. */
  method ReplayAll(c: Curves, accepts: (nat, Snapshot) -> bool, predicting: bool, rs: seq<Outcome>)
    returns (e: Engine, ok: bool)
    ensures e.Valid() && fresh(e)
    ensures ok ==> Accepted(rs) && e.log == Log(c, rs) && e.calls == |e.log|
    ensures ok && predicting ==> e.predictions == Predictions(c, rs)
    ensures !ok && Accepted(rs) ==> e.log <= Log(c, rs) && e.calls > |e.log|
  {
    e := new Engine(c, accepts, predicting);
    for i := 0 to |rs|
      invariant fresh(e) && Midway(e, c, rs, i)
    {
      ok := Take(e, c, rs, i);
      if !ok {
        return;
      }
    }
    assert rs[..|rs|] == rs;
    ok := e.Close();
  }

  // ---------------------------------------------------------------- days within a week

  /** Two meetings in one week, on its first day and its second. */
  function Early(m: Match): Outcome {
    Outcome(1, 2, 0, None, m)
  }

  function Later(m: Match): Outcome {
    Outcome(2, 1, DAY, None, m)
  }

  lemma {:induction false} OneWeek(m: Match)
    ensures Week(Early(m)) == 0 && Week(Later(m)) == 0
    ensures Accepted([Early(m), Later(m)]) && Accepted([Later(m), Early(m)])
  {
  }

  /** What two rated players come to in one series, and nobody else. */
  function Two(w: Key, l: Key, won: real, lost: real, matches: nat): Ratings {
    map[w := State(won, matches), l := State(lost, matches)]
  }

  /** How far a result moves two players who have played as many matches as each other. */
  function Step(c: Curves, matches: nat, won: real, lost: real, weight: real): real {
    c.k(matches) * weight * (1.0 - c.expected(won, lost))
  }

  lemma {:induction false} MovesTwo(c: Curves, w: Key, l: Key, won: real, lost: real, matches: nat, weight: real)
    requires w != l
    ensures var step := Step(c, matches, won, lost, weight);
            Rate(c, Two(w, l, won, lost, matches), w, l, weight) == Two(w, l, won + step, lost - step, matches + 1)
  {
    var m := Two(w, l, won, lost, matches);
    var step := Step(c, matches, won, lost, weight);
    assert m[w] == State(won, matches) && m[l] == State(lost, matches);
    var (rise, fall) := NewElos(c, m[w], m[l], weight);
    assert rise == won + step && fall == lost - step;
    assert Opened(Opened(m, w), l) == m;
    assert Moved(c, m, w, l, weight) == Two(w, l, rise, fall, matches + 1);
  }

  lemma {:induction false} OpensTwo(w: Key, l: Key)
    requires w != l
    ensures Opened(Opened(map[], w), l) == Two(w, l, BASE, BASE, 0) == Opened(Opened(Two(w, l, BASE, BASE, 0), w), l)
  {
  }

  lemma {:induction false} SwapTwo(w: Key, l: Key, won: real, lost: real, matches: nat)
    requires w != l
    ensures Two(w, l, won, lost, matches) == Two(l, w, lost, won, matches)
  {
  }

  /** The steps of two players who have not met and beat each other in turn. */
  lemma {:induction false} TurnAbout(c: Curves, a: Outcome, b: Outcome, weight: real)
    requires a.winner == b.loser && a.loser == b.winner && a.winner != a.loser && a.surface == b.surface == None
    requires c.weight(a.match_) == c.weight(b.match_) == weight
    ensures var first, second := FirstStep(c, weight), SecondStep(c, weight);
            Dense(c, [a, b]) == Two(Key(b.winner, Overall), Key(b.loser, Overall),
                                    BASE - first + second, BASE + first - second, 2)
  {
    var first := FirstStep(c, weight);
    var w, l := Key(a.winner, Overall), Key(a.loser, Overall);
    assert [a, b][..1] == [a] && [a][..0] == [];
    OpensTwo(w, l);
    MovesTwo(c, w, l, BASE, BASE, 0, weight);
    assert Dense(c, [a]) == Rate(c, Dense(c, []), w, l, weight);
    SwapTwo(w, l, BASE + first, BASE - first, 1);
    MovesTwo(c, l, w, BASE - first, BASE + first, 1, weight);
  }

  function FirstStep(c: Curves, weight: real): real {
    Step(c, 0, BASE, BASE, weight)
  }

  function SecondStep(c: Curves, weight: real): real {
    var first := FirstStep(c, weight);
    Step(c, 1, BASE - first, BASE + first, weight)
  }

  /** The engine takes the results of a week in any order of days, and ends the same whichever
      it is only where the second step undoes the first. */
  lemma {:induction false} DaysMayGoBack(c: Curves, m: Match)
    ensures Accepted([Later(m), Early(m)])
    ensures Run(c, [Later(m), Early(m)]).series == Run(c, [Early(m), Later(m)]).series
       <==> FirstStep(c, c.weight(m)) == SecondStep(c, c.weight(m))
  {
    OneWeek(m);
    RunStands(c, [Later(m), Early(m)]);
    RunStands(c, [Early(m), Later(m)]);
    EitherOrder(c, m);
  }

  lemma {:induction false} EitherOrder(c: Curves, m: Match)
    ensures Dense(c, [Later(m), Early(m)]) == Dense(c, [Early(m), Later(m)])
       <==> FirstStep(c, c.weight(m)) == SecondStep(c, c.weight(m))
  {
    TurnAbout(c, Later(m), Early(m), c.weight(m));
    TurnAbout(c, Early(m), Later(m), c.weight(m));
    var first, second := FirstStep(c, c.weight(m)), SecondStep(c, c.weight(m));
    SwapTwo(Key(2, Overall), Key(1, Overall), BASE - first + second, BASE + first - second, 2);
    TwoDiffer(Key(1, Overall), Key(2, Overall), BASE + first - second, BASE - first + second, 2);
  }

  lemma {:induction false} TwoDiffer(w: Key, l: Key, won: real, lost: real, matches: nat)
    requires w != l
    ensures Two(w, l, won, lost, matches) == Two(w, l, lost, won, matches) <==> won == lost
  {
    assert Two(w, l, won, lost, matches)[w].elo == won;
    assert Two(w, l, lost, won, matches)[w].elo == lost;
  }

  /** With steps of 32 and a favourite who is given three chances in four, it does not. */
  lemma {:induction false} DayOrderMatters(m: Match)
    ensures var c := Curves((a, b) => if a == b then 0.5 else if a > b then 0.75 else 0.25, _ => 32.0, _ => 1.0);
            Accepted([Later(m), Early(m)])
            && Run(c, [Later(m), Early(m)]).series != Run(c, [Early(m), Later(m)]).series
  {
    var c := Curves((a, b) => if a == b then 0.5 else if a > b then 0.75 else 0.25, _ => 32.0, _ => 1.0);
    DaysMayGoBack(c, m);
    assert FirstStep(c, 1.0) == 16.0 && SecondStep(c, 1.0) == 24.0;
  }
}
