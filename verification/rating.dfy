/** The rating replay (internal/rating/engine.go): every result moves some series, and
    each series that moved in a week is written once, when the week is over. */
module RatingEngine {
  import opened Collections
  import opened Sorting

  datatype Series = Carpet | Clay | Grass | Hard | Overall

  /** What a match was, as far as its weight goes. */
  datatype Match = Match(tier: string, level: string, isFinal: bool, isQualifying: bool)

  /** One decided match; `playedOn` counts seconds from the start of the year 1. */
  datatype Outcome = Outcome(winner: int, loser: int, playedOn: int, surface: Option<Series>, match_: Match)

  datatype Key = Key(player: int, series: Series)

  datatype State = State(elo: real, matches: nat)

  /** A row of the log: what a series was worth at the end of a week. */
  datatype Snapshot = Snapshot(key: Key, asOf: int, state: State)

  datatype Prediction = Prediction(winner: int, loser: int, playedOn: int, tier: string,
                                   winnerExpected: real, winnerPlayed: nat, loserPlayed: nat)

  /** The curves the engine is run with: what a rating gap promises, how far a result
      moves a player by the matches behind him, and what a match weighs. */
  datatype Curves = Curves(expected: (real, real) -> real, k: nat -> real, weight: Match -> real)

  const BASE := 1500.0
  const DAY := 86400

  /** Sunday is 0; day 0, the first of January of the year 1, was a Monday. */
  function Weekday(day: int): int {
    (day + 1) % 7
  }

  function MondayOf(t: int): int {
    var day := t / DAY;
    day - (Weekday(day) + 6) % 7
  }

  function MondayFinder(): int -> int {
    t => MondayOf(t)
  }

  /** The week of an instant: `MondayOf` by way of a function value, so that a proof about
      a run meets the calendar only by asking (`WeekOfIsMonday`). */
  function WeekOf(t: int): int {
    MondayFinder()(t)
  }

  /** A week is named by its Monday, and holds the seven days from there. */
  lemma {:induction false} WeekOfIsMonday(t: int)
    ensures Weekday(WeekOf(t)) == 1 && WeekOf(t) * DAY <= t < (WeekOf(t) + 7) * DAY
  {
  }

  // ---------------------------------------------------------------- one result

  type Ratings = map<Key, State>

  function Opened(m: Ratings, k: Key): (r: Ratings)
    ensures k in r
  {
    if k in m then m else m[k := State(BASE, 0)]
  }

  function Update(c: Curves, winner: real, loser: real, kWinner: real, kLoser: real): (real, real) {
    var surprise := 1.0 - c.expected(winner, loser);
    (winner + kWinner * surprise, loser - kLoser * surprise)
  }

  /** K is read from the matches each side had before this one. */
  function NewElos(c: Curves, winner: State, loser: State, weight: real): (real, real) {
    Update(c, winner.elo, loser.elo, c.k(winner.matches) * weight, c.k(loser.matches) * weight)
  }

  /** Both sides of one result in one series. Where winner and loser are the same player
      they are the same entry, and the steps fall on it in this order. */
  function Moved(c: Curves, m: Ratings, w: Key, l: Key, weight: real): Ratings
    requires w in m && l in m
  {
    var (won, lost) := NewElos(c, m[w], m[l], weight);
    var m1 := m[w := m[w].(elo := won)];
    var m2 := m1[l := m1[l].(elo := lost)];
    var m3 := m2[w := m2[w].(matches := m2[w].matches + 1)];
    m3[l := m3[l].(matches := m3[l].matches + 1)]
  }

  function Rate(c: Curves, m: Ratings, w: Key, l: Key, weight: real): Ratings {
    Moved(c, Opened(Opened(m, w), l), w, l, weight)
  }

  /** The series a result moves. */
  function Named(r: Outcome): set<Key> {
    {Key(r.winner, Overall), Key(r.loser, Overall)}
    + (if r.surface.Some? then {Key(r.winner, r.surface.value), Key(r.loser, r.surface.value)} else {})
  }

  predicate Names(r: Outcome, k: Key) {
    && (k.player == r.winner || k.player == r.loser)
    && (k.series == Overall || r.surface == Some(k.series))
  }

  lemma {:induction false} NamedMeans(r: Outcome)
    ensures forall k :: k in Named(r) <==> Names(r, k)
  {
  }

  function Rated(c: Curves, m: Ratings, r: Outcome): Ratings {
    var overall := Rate(c, m, Key(r.winner, Overall), Key(r.loser, Overall), c.weight(r.match_));
    if r.surface.None? then overall
    else Rate(c, overall, Key(r.winner, r.surface.value), Key(r.loser, r.surface.value), c.weight(r.match_))
  }

  function Predict(c: Curves, m: Ratings, r: Outcome): Prediction {
    var w, l := Key(r.winner, Overall), Key(r.loser, Overall);
    var m0 := Opened(Opened(m, w), l);
    Prediction(r.winner, r.loser, r.playedOn, r.match_.tier,
               c.expected(m0[w].elo, m0[l].elo), m0[w].matches, m0[l].matches)
  }

  // ---------------------------------------------------------------- the rows of a week

  function Rank(s: Series): nat {
    match s
    case Carpet => 0
    case Clay => 1
    case Grass => 2
    case Hard => 3
    case Overall => 4
  }

  predicate KeyAtMost(a: Key, b: Key) {
    a.player < b.player || (a.player == b.player && Rank(a.series) <= Rank(b.series))
  }

  lemma {:induction false} KeysAreOrdered()
    ensures TotalOrder(KeyAtMost)
  {
  }

  ghost predicate IsListing(s: seq<Key>, keys: set<Key>) {
    Sorted(s, KeyAtMost) && multiset(s) == multiset(keys)
  }

  lemma {:induction false} ListingExists(keys: set<Key>)
    ensures exists s :: IsListing(s, keys)
  {
    var s := Listed(keys);
    KeysAreOrdered();
    SortSorted(s, KeyAtMost);
    SortElements(s, KeyAtMost);
    assert IsListing(Sort(s, KeyAtMost), keys);
  }

  lemma {:induction false} Listed(keys: set<Key>) returns (s: seq<Key>)
    ensures multiset(s) == multiset(keys)
  {
    s := [];
    var rest := keys;
    while rest != {}
      invariant rest <= keys && multiset(s) == multiset(keys - rest)
    {
      var k :| k in rest;
      assert keys - (rest - {k}) == (keys - rest) + {k};
      s, rest := s + [k], rest - {k};
    }
    assert keys - rest == keys;
  }

  /** The keys by player, then by the name of the series. */
  ghost function InOrder(keys: set<Key>): (s: seq<Key>)
    ensures IsListing(s, keys)
  {
    ListingExists(keys);
    var s :| IsListing(s, keys);
    s
  }

  /** What a series is worth, rated or not. */
  function Worth(m: Ratings, k: Key): State {
    if k in m then m[k] else State(BASE, 0)
  }

  function RowsOf(keys: seq<Key>, m: Ratings, week: int): (rows: seq<Snapshot>)
    ensures |rows| == |keys|
  {
    seq(|keys|, i requires 0 <= i < |keys| => Snapshot(keys[i], week, Worth(m, keys[i])))
  }

  // ---------------------------------------------------------------- the replay

  /** Where a replay stands: the ratings, the series moved this week, and the rows written. */
  datatype Replay = Replay(series: Ratings, touched: set<Key>, week: int, log: seq<Snapshot>) {
    ghost function Rows(): seq<Snapshot> {
      RowsOf(InOrder(touched), series, week)
    }

    /** With the open week written. */
    ghost function Closed(): Replay {
      Replay(series, {}, week, log + Rows())
    }

    ghost function At(newWeek: int): Replay {
      if newWeek > week then Closed().(week := newWeek) else this
    }

    ghost function Add(c: Curves, r: Outcome): Replay {
      var e := At(WeekOf(r.playedOn));
      e.(series := Rated(c, e.series, r), touched := e.touched + Named(r))
    }
  }

  lemma {:induction false} InOrderMembers(keys: set<Key>)
    ensures multiset(InOrder(keys)) == multiset(keys)
    ensures forall k :: k in InOrder(keys) <==> k in keys
  {
    forall k
      ensures k in InOrder(keys) <==> k in keys
    {
      assert k in InOrder(keys) <==> k in multiset(InOrder(keys));
    }
  }

  const START := Replay(map[], {}, 0, [])

  /** The engine as it replays in place. `accepts` says which calls of the row callback succeed. */
  class Engine {
    const curves: Curves
    const accepts: (nat, Snapshot) -> bool
    const predicting: bool
    var series: Ratings
    var touched: set<Key>
    var week: int
    var snapshots: nat
    var calls: nat
    var log: seq<Snapshot>
    var predictions: seq<Prediction>

    constructor (curves: Curves, accepts: (nat, Snapshot) -> bool, predicting: bool)
      ensures this.curves == curves && this.accepts == accepts && this.predicting == predicting
      ensures Valid() && Standing() == START && predictions == [] && calls == 0
    {
      this.curves := curves;
      this.accepts := accepts;
      this.predicting := predicting;
      series, touched, week := map[], {}, 0;
      snapshots, calls, log, predictions := 0, 0, [], [];
    }

    ghost predicate Valid()
      reads this
    {
      touched <= series.Keys && snapshots == |log| <= calls
    }

    ghost function Standing(): Replay
      reads this
    {
      Replay(series, touched, week, log)
    }

    method StateOf(k: Key) returns (state: State)
      modifies this`series
      ensures series == Opened(old(series), k) && state == series[k]
    {
      if k !in series {
        series := series[k := State(BASE, 0)];
      }
      state := series[k];
    }

    method RateMatch(w: Key, l: Key, weight: real)
      modifies this`series, this`touched
      ensures series == Rate(curves, old(series), w, l, weight)
      ensures touched == old(touched) + {w, l} && old(series).Keys + {w, l} <= series.Keys
    {
      var winner := StateOf(w);
      var loser := StateOf(l);
      assert series == Opened(Opened(old(series), w), l) && winner == series[w];
      var (won, lost) := NewElos(curves, winner, loser, weight);
      series := series[w := series[w].(elo := won)];
      series := series[l := series[l].(elo := lost)];
      series := series[w := series[w].(matches := series[w].matches + 1)];
      series := series[l := series[l].(matches := series[l].matches + 1)];
      touched := touched + {w};
      touched := touched + {l};
    }

    /** The keys moved this week, sorted. */
    method SortedKeys() returns (keys: seq<Key>)
      ensures keys == InOrder(touched)
    {
      keys := [];
      var rest := touched;
      while rest != {}
        invariant rest <= touched && multiset(keys) == multiset(touched - rest)
        decreases |rest|
      {
        var k :| k in rest;
        assert touched - (rest - {k}) == (touched - rest) + {k};
        keys, rest := keys + [k], rest - {k};
      }
      assert touched - rest == touched;
      SortedEither(keys, touched);
      keys := Sort(keys, KeyAtMost);
    }

    /** Hands the rows of some keys to the callback, one at a time, up to a refusal. */
    method Emit(keys: seq<Key>) returns (ok: bool)
      requires Valid() && forall i | 0 <= i < |keys| :: keys[i] in series
      modifies this`snapshots, this`calls, this`log
      ensures Valid()
      ensures ok ==> log == old(log) + RowsOf(keys, series, week) && calls - |log| == old(calls - |log|)
      ensures !ok ==> log <= old(log) + RowsOf(keys, series, week) && calls - |log| > old(calls - |log|)
    {
      ghost var before, rows := log, RowsOf(keys, series, week);
      for i := 0 to |keys|
        invariant snapshots == |log| <= calls && calls - |log| == old(calls - |log|)
        invariant log == before + rows[..i]
      {
        var row := Snapshot(keys[i], week, series[keys[i]]);
        calls := calls + 1;
        if !accepts(calls - 1, row) {
          PrefixOfLog(before, rows, i);
          return false;
        }
        assert rows[..i + 1] == rows[..i] + [row];
        log, snapshots := log + [row], snapshots + 1;
      }
      assert rows[..|keys|] == rows;
      return true;
    }

    /** Writes the week's rows in order; a refused row leaves the week open. */
    method Flush() returns (ok: bool)
      requires Valid()
      modifies this`snapshots, this`calls, this`log, this`touched
      ensures Valid()
      ensures ok ==> Standing() == old(Standing().Closed())
      ensures ok ==> calls - |log| == old(calls - |log|)
      ensures !ok ==> touched == old(touched) && log <= old(Standing().Closed().log) && calls - |log| > old(calls - |log|)
    {
      var keys := SortedKeys();
      InOrderMembers(touched);
      ok := Emit(keys);
      if ok {
        touched := {};
      }
    }

    /** What the overall series says before a result is rated. */
    method MakePrediction(r: Outcome) returns (p: Prediction)
      modifies this`series
      ensures p == Predict(curves, old(series), r)
      ensures series == Opened(Opened(old(series), Key(r.winner, Overall)), Key(r.loser, Overall))
    {
      var w := StateOf(Key(r.winner, Overall));
      var l := StateOf(Key(r.loser, Overall));
      p := Prediction(r.winner, r.loser, r.playedOn, r.match_.tier, curves.expected(w.elo, l.elo), w.matches, l.matches);
    }

    /** Opens the week of a result, closing the one before it. */
    method OpenWeek(opening: int) returns (ok: bool)
      requires Valid() && week <= opening
      modifies this`snapshots, this`calls, this`log, this`touched, this`week
      ensures Valid()
      ensures ok ==> Standing() == old(Standing().At(opening)) && calls - |log| == old(calls - |log|)
      ensures !ok ==> log <= old(Standing().At(opening)).log && calls - |log| > old(calls - |log|)
    {
      ok := true;
      if opening > week {
        ok := Flush();
        if ok {
          week := opening;
        }
      }
    }

    /** Both series a result moves. */
    method RateBoth(r: Outcome)
      modifies this`series, this`touched
      ensures series == Rated(curves, old(series), r) && touched == old(touched) + Named(r)
      ensures old(series).Keys + Named(r) <= series.Keys
    {
      var weight := curves.weight(r.match_);
      RateMatch(Key(r.winner, Overall), Key(r.loser, Overall), weight);
      if r.surface.Some? {
        RateMatch(Key(r.winner, r.surface.value), Key(r.loser, r.surface.value), weight);
      }
    }

    /** Predicts a result if asked to, then rates it. */
    method RateResult(r: Outcome)
      modifies this`series, this`touched, this`predictions
      ensures series == Rated(curves, old(series), r) && touched == old(touched) + Named(r)
      ensures old(series).Keys + Named(r) <= series.Keys
      ensures predictions == old(predictions) + if predicting then [Predict(curves, old(series), r)] else []
    {
      ghost var before := series;
      if predicting {
        var p := MakePrediction(r);
        predictions := predictions + [p];
        RatedAfterOpening(curves, before, r);
      }
      RateBoth(r);
    }

    /** Rates one result, closing the week before it if it opens a new one. */
    method Add(r: Outcome) returns (ok: bool)
      requires Valid()
      modifies this
      ensures Valid()
      ensures ok ==> old(week) <= WeekOf(r.playedOn) && Standing() == old(Standing().Add(curves, r))
      ensures ok ==> calls - |log| == old(calls - |log|)
      ensures predictions == old(predictions) + if ok && predicting then [Predict(curves, old(series), r)] else []
      ensures WeekOf(r.playedOn) < old(week) ==> !ok && Standing() == old(Standing()) && calls == old(calls)
      ensures !ok && old(week) <= WeekOf(r.playedOn) ==>
                calls - |log| > old(calls - |log|) && log <= old(Standing().At(WeekOf(r.playedOn))).log
    {
      if WeekOf(r.playedOn) < week {
        return false;
      }
      ok := OpenWeek(WeekOf(r.playedOn));
      if !ok {
        return;
      }
      RateResult(r);
    }

    method Close() returns (ok: bool)
      requires Valid()
      modifies this`snapshots, this`calls, this`log, this`touched
      ensures Valid()
      ensures ok ==> Standing() == old(Standing().Closed())
      ensures ok ==> calls - |log| == old(calls - |log|)
      ensures !ok ==> log <= old(Standing().Closed().log) && calls - |log| > old(calls - |log|)
    {
      ok := Flush();
    }

    /** A player's current rating in one series. */
    method Rating(k: Key) returns (elo: real, matches: nat)
      ensures State(elo, matches) == Worth(series, k)
    {
      if k !in series {
        return BASE, 0;
      }
      return series[k].elo, series[k].matches;
    }
  }

  lemma {:induction false} SortedEither(listed: seq<Key>, keys: set<Key>)
    requires multiset(listed) == multiset(keys)
    ensures Sort(listed, KeyAtMost) == InOrder(keys)
  {
    KeysAreOrdered();
    SortSorted(listed, KeyAtMost);
    SortElements(listed, KeyAtMost);
    SortedUnique(Sort(listed, KeyAtMost), InOrder(keys), KeyAtMost);
  }

  lemma {:induction false} PrefixOfLog(log: seq<Snapshot>, rows: seq<Snapshot>, n: nat)
    requires n <= |rows|
    ensures log + rows[..n] <= log + rows
  {
  }

  /** Looking the players up first, as a prediction does, leaves them rated no different. */
  lemma {:induction false} RatedAfterOpening(c: Curves, m: Ratings, r: Outcome)
    ensures Rated(c, Opened(Opened(m, Key(r.winner, Overall)), Key(r.loser, Overall)), r) == Rated(c, m, r)
  {
  }
}
