/** Resolving the rows into events (internal/events/events.go). */
module EventResolving {
  import opened Collections
  import opened Decimal
  import opened Events
  import opened Lexical
  import opened Sorting
  import opened Text

  /** One run of editions. */
  datatype Event = Event(tour: string, key: string, name: string, ordinal: int, firstSeason: int, lastSeason: int,
                         editions: seq<Edition>)

  /** How an event is named: pinned by the overrides file, or from its editions. */
  datatype Naming = Naming(pinned: (string, string) -> string, display: (seq<Edition>, int) -> string)

  function NameOf(naming: Naming, tour: string, key: string, editions: seq<Edition>, ordinal: int): string {
    if naming.pinned(tour, key) != "" then naming.pinned(tour, key) else naming.display(editions, ordinal)
  }

  // ---------------------------------------------------------------- reading a key back

  /** The parts of a text between separators. */
  function Split(s: string, c: char): seq<string>
    decreases |s|
  {
    if c !in s then [s]
    else
      var i := Index(s, [c]);
      FoundFirst(s, c);
      [s[..i]] + Split(s[i + 1..], c)
  }

  lemma {:induction false} FoundFirst(s: string, c: char)
    requires c in s
    ensures var i := Index(s, [c]); 0 <= i < |s| && s[i] == c && c !in s[..i]
  {
    var j: nat :| j < |s| && s[j] == c;
    assert s[j..j + 1] == [c] && FoundAt(s, [c], j);
    var i := Index(s, [c]);
    assert s[i..i + 1] == [c];
    forall k | 0 <= k < i
      ensures s[k] != c
    {
      if s[k] == c {
        assert s[k..k + 1] == [c] && FoundAt(s, [c], k);
      }
    }
  }

  /** A number as the library reads one: digits, with or without a sign. */
  function Atoi(s: string): Option<int> {
    var unsigned := if s != [] && (s[0] == '+' || s[0] == '-') then s[1..] else s;
    if unsigned == [] || !AllDigits(unsigned) then None
    else
      var n: int := Decimal.Number(unsigned);
      Some(if s[0] == '-' then -n else n)
  }

  function OrdinalOf(key: string): int {
    var parts := Split(key, ':');
    if parts[0] != "name" || |parts| < 4 then 0
    else
      match Atoi(parts[3])
      case None => 0
      case Some(n) => n
  }

  lemma {:induction false} SplitAt(w: string, c: char, rest: string)
    requires c !in w
    ensures Split(w + [c] + rest, c) == [w] + Split(rest, c)
  {
    var s := w + [c] + rest;
    assert s[|w|] == c;
    FoundFirst(s, c);
    var i := Index(s, [c]);
    assert i == |w|;
    assert s[..|w|] == w && s[|w| + 1..] == rest;
  }

  lemma {:induction false} NamePrefix(tier: string, rest: string)
    requires ':' !in tier
    ensures Split("name" + [':'] + (tier + [':'] + rest), ':') == ["name", tier] + Split(rest, ':')
  {
    SplitAt("name", ':', tier + [':'] + rest);
    SplitAt(tier, ':', rest);
  }

  lemma {:induction false} KeyReads(tier: string, norm: string, tail: string)
    ensures "name:" + tier + ":" + norm + tail == "name" + [':'] + (tier + [':'] + (norm + tail))
  {
  }

  lemma {:induction false} NumberedTail(norm: string, ordinal: nat)
    requires ':' !in norm
    ensures Split(norm + (":" + Itoa(ordinal)), ':') == [norm, Itoa(ordinal)]
  {
    assert norm + (":" + Itoa(ordinal)) == norm + [':'] + Itoa(ordinal);
    SplitAt(norm, ':', Itoa(ordinal));
    assert AllDigits(Digits(ordinal));
    assert ':' !in Itoa(ordinal);
  }

  lemma {:induction false} NameKeyParts(tier: string, norm: string, ordinal: int)
    requires ':' !in tier && ':' !in norm
    ensures Split(NameKey(tier, norm, ordinal), ':') == ["name", tier, norm] + if ordinal > 1 then [Itoa(ordinal)] else []
  {
    var tail := if ordinal > 1 then ":" + Itoa(ordinal) else "";
    KeyReads(tier, norm, tail);
    NamePrefix(tier, norm + tail);
    if ordinal > 1 {
      NumberedTail(norm, ordinal);
    } else {
      assert norm + tail == norm;
    }
  }

  lemma {:induction false} ItoaThenAtoi(n: nat)
    ensures Atoi(Itoa(n)) == Some(n as int)
  {
    var s := Digits(n);
    assert IsDigit(s[0]);
    NumberOfDigits(n);
  }

  /** A name's key reads back as its ordinal, the first of a name as zero. */
  lemma {:induction false} OrdinalReadsBack(tier: string, norm: string, ordinal: int)
    requires ':' !in tier && ':' !in norm
    ensures OrdinalOf(NameKey(tier, norm, ordinal)) == if ordinal > 1 then ordinal else 0
  {
    NameKeyParts(tier, norm, ordinal);
    if ordinal > 1 {
      ItoaThenAtoi(ordinal);
    }
  }

  /** Two names, or two of one name, never share a key. */
  lemma {:induction false} NameKeysDiffer(tier: string, norm: string, ordinal: int, tier2: string, norm2: string, ordinal2: int)
    requires ':' !in tier && ':' !in norm && ':' !in tier2 && ':' !in norm2 && ordinal >= 1 && ordinal2 >= 1
    requires NameKey(tier, norm, ordinal) == NameKey(tier2, norm2, ordinal2)
    ensures tier == tier2 && norm == norm2 && ordinal == ordinal2
  {
    NameKeyParts(tier, norm, ordinal);
    NameKeyParts(tier2, norm2, ordinal2);
    var parts, parts2 := Split(NameKey(tier, norm, ordinal), ':'), Split(NameKey(tier2, norm2, ordinal2), ':');
    assert parts[1] == parts2[1] && parts[2] == parts2[2];
    OrdinalReadsBack(tier, norm, ordinal);
    OrdinalReadsBack(tier2, norm2, ordinal2);
  }

  // ---------------------------------------------------------------- what a resolution is

  /** Season, then calendar, then id. */
  predicate EditionBefore(a: Edition, b: Edition) {
    || a.row.season < b.row.season
    || (a.row.season == b.row.season
        && (a.row.startDate < b.row.startDate || (a.row.startDate == b.row.startDate && a.row.id < b.row.id)))
  }

  predicate EventBefore(a: Event, b: Event) {
    Less(a.tour, b.tour) || (a.tour == b.tour && Less(a.key, b.key))
  }

  ghost predicate IsEdition(rules: Rules, s: set<Row>, tour: string, key: string, x: Edition) {
    x.row in s && x.row.tour == tour && IsPlace(rules, s, x.row, Place(key, x.link))
  }

  /** An event among all the rows: exactly the rows placed on it, in order. */
  ghost predicate IsEvent(rules: Rules, naming: Naming, s: set<Row>, ev: Event) {
    && ev.editions != [] && Increasing(ev.editions, EditionBefore)
    && (forall x :: x in ev.editions <==> IsEdition(rules, s, ev.tour, ev.key, x))
    && ev.firstSeason == ev.editions[0].row.season && ev.lastSeason == ev.editions[|ev.editions| - 1].row.season
    && ev.ordinal == OrdinalOf(ev.key)
    && ev.name == NameOf(naming, ev.tour, ev.key, ev.editions, ev.ordinal)
  }

  ghost predicate Holds(ev: Event, r: Row) {
    exists x :: x in ev.editions && x.row == r
  }

  /** The events of a set of rows: each one an event, in order, and every row on one of them. */
  ghost predicate IsResolution(rules: Rules, naming: Naming, s: set<Row>, events: seq<Event>) {
    && Increasing(events, EventBefore)
    && (forall i | 0 <= i < |events| :: IsEvent(rules, naming, s, events[i]))
    && (forall r | r in s :: exists i :: 0 <= i < |events| && Holds(events[i], r))
  }

  lemma {:induction false} EditionsOrdered()
    ensures Asymmetric(EditionBefore)
  {
  }

  lemma {:induction false} EventsOrdered()
    ensures Asymmetric(EventBefore)
  {
    forall a, b
      ensures !(EventBefore(a, b) && EventBefore(b, a))
    {
      if EventBefore(a, b) && EventBefore(b, a) {
        LessOneWay(a.tour, b.tour);
        LessOneWay(a.key, b.key);
      }
    }
  }

  lemma {:induction false} LessOneWay(a: string, b: string)
    ensures !(Less(a, b) && Less(b, a))
  {
    if AtMost(a, b) && AtMost(b, a) {
      AtMostBoth(a, b);
    }
  }

  /** An event is settled by its tour and key. */
  lemma {:induction false} SameKeySameEvent(rules: Rules, naming: Naming, s: set<Row>, a: Event, b: Event)
    requires IsEvent(rules, naming, s, a) && IsEvent(rules, naming, s, b) && a.tour == b.tour && a.key == b.key
    ensures a == b
  {
    EditionsOrdered();
    IncreasingUnique(a.editions, b.editions, EditionBefore);
  }

  lemma {:induction false} SharedRowSameEvent(rules: Rules, naming: Naming, s: set<Row>, a: Event, b: Event, r: Row)
    requires IsEvent(rules, naming, s, a) && IsEvent(rules, naming, s, b) && Holds(a, r) && Holds(b, r)
    ensures a == b
  {
    var x :| x in a.editions && x.row == r;
    var y :| y in b.editions && y.row == r;
    OnePlace(rules, s, r, Place(a.key, x.link), Place(b.key, y.link));
    SameKeySameEvent(rules, naming, s, a, b);
  }

  lemma {:induction false} EventIsThere(rules: Rules, naming: Naming, s: set<Row>, events: seq<Event>, ev: Event)
    requires IsResolution(rules, naming, s, events) && IsEvent(rules, naming, s, ev)
    ensures ev in events
  {
    var x := ev.editions[0];
    assert x in ev.editions;
    assert IsEdition(rules, s, ev.tour, ev.key, x);
    var i :| 0 <= i < |events| && Holds(events[i], x.row);
    SharedRowSameEvent(rules, naming, s, ev, events[i], x.row);
  }

  /** A set of rows has only the one resolution. */
  lemma {:induction false} OneResolution(rules: Rules, naming: Naming, s: set<Row>, events: seq<Event>, others: seq<Event>)
    requires IsResolution(rules, naming, s, events) && IsResolution(rules, naming, s, others)
    ensures events == others
  {
    EventsOrdered();
    forall ev
      ensures ev in events <==> ev in others
    {
      if ev in events {
        EventIsThere(rules, naming, s, others, ev);
      }
      if ev in others {
        EventIsThere(rules, naming, s, events, ev);
      }
    }
    IncreasingUnique(events, others, EventBefore);
  }

  // ---------------------------------------------------------------- placing the rows

  datatype Placed = Placed(row: Row, place: Place)

  datatype NameIn = NameIn(tour: string, tier: string, norm: string)

  function NameOfRow(rules: Rules, r: Row): NameIn {
    NameIn(r.tour, r.tier, rules.normalise(r.name))
  }

  function NamedOf(rules: Rules, rows: seq<Row>, n: nat): seq<Row>
    requires n <= |rows|
  {
    if n == 0 then [] else NamedOf(rules, rows, n - 1) + if ClaimOf(rules, rows[n - 1]) == Named then [rows[n - 1]] else []
  }

  lemma {:induction false} NamedAre(rules: Rules, rows: seq<Row>, n: nat, r: Row)
    requires n <= |rows|
    ensures r in NamedOf(rules, rows, n) <==> r in rows[..n] && ClaimOf(rules, r) == Named
  {
    if n > 0 {
      NamedAre(rules, rows, n - 1, r);
      assert rows[..n] == rows[..n - 1] + [rows[n - 1]];
    }
  }

  lemma {:induction false} NamedDistinct(rules: Rules, rows: seq<Row>, n: nat)
    requires n <= |rows| && DistinctIds(rows)
    ensures DistinctIds(NamedOf(rules, rows, n))
  {
    if n > 0 {
      var before := NamedOf(rules, rows, n - 1);
      NamedDistinct(rules, rows, n - 1);
      forall i | 0 <= i < |before|
        ensures before[i].id != rows[n - 1].id
      {
        NamedAre(rules, rows, n - 1, before[i]);
        var x :| 0 <= x < n - 1 && rows[x] == before[i];
      }
    }
  }

  /** The numbers noted under a name by the first `n` rows. */
  function NumbersTo(rules: Rules, rows: seq<Row>, n: nat, t: NameIn): set<string>
    requires n <= |rows|
  {
    if n == 0 then {}
    else
      NumbersTo(rules, rows, n - 1, t)
      + match ClaimOf(rules, rows[n - 1])
        case Held(number, _) => if NameOfRow(rules, rows[n - 1]) == t then {NumberKey(number)} else {}
        case _ => {}
  }

  lemma {:induction false} NumbersToHas(rules: Rules, rows: seq<Row>, n: nat, t: NameIn, k: string)
    requires n <= |rows|
    ensures k in NumbersTo(rules, rows, n, t) <==>
            exists i :: 0 <= i < n && ClaimOf(rules, rows[i]).Held? && NameOfRow(rules, rows[i]) == t
                     && NumberKey(ClaimOf(rules, rows[i]).number) == k
  {
    if n > 0 {
      NumbersToHas(rules, rows, n - 1, t, k);
    }
  }

  lemma {:induction false} NumbersAre(rules: Rules, rows: seq<Row>, r: Row)
    ensures NumbersTo(rules, rows, |rows|, NameOfRow(rules, r))
         == Numbers(rules, RowSet(rows), r.tour, r.tier, rules.normalise(r.name))
  {
    var t := NameOfRow(rules, r);
    var numbers := Numbers(rules, RowSet(rows), r.tour, r.tier, rules.normalise(r.name));
    forall k
      ensures k in NumbersTo(rules, rows, |rows|, t) <==> k in numbers
    {
      NumbersToHas(rules, rows, |rows|, t, k);
      if k in NumbersTo(rules, rows, |rows|, t) {
        var i :| 0 <= i < |rows| && ClaimOf(rules, rows[i]).Held? && NameOfRow(rules, rows[i]) == t
              && NumberKey(ClaimOf(rules, rows[i]).number) == k;
        assert rows[i] in RowSet(rows);
      }
    }
    assert NumbersTo(rules, rows, |rows|, t) == numbers;
  }

  /** The rows placed so far: each under its own id, on its place among all of them. */
  ghost predicate Right(rules: Rules, s: set<Row>, placed: map<int, Placed>) {
    forall id | id in placed :: placed[id].row in s && placed[id].row.id == id && IsPlace(rules, s, placed[id].row, placed[id].place)
  }

  ghost predicate Noted(rules: Rules, rows: seq<Row>, n: nat, under: map<NameIn, set<string>>)
    requires n <= |rows|
  {
    forall t :: NumbersTo(rules, rows, n, t) == if t in under then under[t] else {}
  }

  function Note(under: map<NameIn, set<string>>, t: NameIn, key: string): map<NameIn, set<string>> {
    under[t := (if t in under then under[t] else {}) + {key}]
  }

  lemma {:induction false} NotedHeld(rules: Rules, rows: seq<Row>, n: nat, under: map<NameIn, set<string>>)
    requires n < |rows| && Noted(rules, rows, n, under) && ClaimOf(rules, rows[n]).Held?
    ensures Noted(rules, rows, n + 1, Note(under, NameOfRow(rules, rows[n]), NumberKey(ClaimOf(rules, rows[n]).number)))
  {
  }

  lemma {:induction false} NotedOther(rules: Rules, rows: seq<Row>, n: nat, under: map<NameIn, set<string>>)
    requires n < |rows| && Noted(rules, rows, n, under) && !ClaimOf(rules, rows[n]).Held?
    ensures Noted(rules, rows, n + 1, under)
  {
  }

  /** The rows of the first `n` that pass a claim are placed. */
  ghost predicate HasAll(rules: Rules, rows: seq<Row>, n: nat, placed: map<int, Placed>)
    requires n <= |rows|
  {
    forall i | 0 <= i < n && ClaimOf(rules, rows[i]) != Named :: rows[i].id in placed && placed[rows[i].id].row == rows[i]
  }

  lemma {:induction false} PlacedOneMore(rules: Rules, s: set<Row>, placed: map<int, Placed>, r: Row, p: Place)
    requires Right(rules, s, placed) && r in s && IsPlace(rules, s, r, p)
    ensures Right(rules, s, placed[r.id := Placed(r, p)])
  {
  }

  lemma {:induction false} HasOneMore(rules: Rules, rows: seq<Row>, n: nat, placed: map<int, Placed>, p: Place)
    requires DistinctIds(rows) && n < |rows| && HasAll(rules, rows, n, placed)
    ensures HasAll(rules, rows, n + 1, placed[rows[n].id := Placed(rows[n], p)])
  {
  }

  /** Numbered events and team ties first; the rest wait on the name rule. */
  method Sift(rules: Rules, rows: seq<Row>) returns (placed: map<int, Placed>, under: map<NameIn, set<string>>, named: seq<Row>)
    requires DistinctIds(rows)
    ensures Right(rules, RowSet(rows), placed) && HasAll(rules, rows, |rows|, placed)
    ensures Noted(rules, rows, |rows|, under) && named == NamedOf(rules, rows, |rows|)
  {
    placed, under, named := map[], map[], [];
    for i := 0 to |rows|
      invariant Right(rules, RowSet(rows), placed) && HasAll(rules, rows, i, placed)
      invariant Noted(rules, rows, i, under) && named == NamedOf(rules, rows, i)
    {
      var r := rows[i];
      assert r in RowSet(rows);
      match ClaimOf(rules, r) {
        case Team(c) =>
          NotedOther(rules, rows, i, under);
          HasOneMore(rules, rows, i, placed, Place(TeamKey(c), ByTeam));
          PlacedOneMore(rules, RowSet(rows), placed, r, Place(TeamKey(c), ByTeam));
          placed := placed[r.id := Placed(r, Place(TeamKey(c), ByTeam))];
        case Held(n, link) =>
          NotedHeld(rules, rows, i, under);
          HasOneMore(rules, rows, i, placed, Place(NumberKey(n), link));
          PlacedOneMore(rules, RowSet(rows), placed, r, Place(NumberKey(n), link));
          placed := placed[r.id := Placed(r, Place(NumberKey(n), link))];
          under := Note(under, NameOfRow(rules, r), NumberKey(n));
        case Named =>
          NotedOther(rules, rows, i, under);
          named := named + [r];
      }
    }
  }

  /** Where the name rule puts a row, its ordinal and the numbers of its name known. */
  method PlaceByName(rules: Rules, ghost s: set<Row>, r: Row, ordinal: int, candidates: set<string>) returns (p: Place)
    requires ClaimOf(rules, r) == Named && ordinal == Ordinal(rules, s, r)
    requires candidates == Numbers(rules, s, r.tour, r.tier, rules.normalise(r.name))
    ensures IsPlace(rules, s, r, p)
  {
    if ordinal > 1 {
      return Place(NameKey(r.tier, rules.normalise(r.name), ordinal), ByName);
    }
    if |candidates| == 1 {
      var k :| k in candidates;
      SingleMember(candidates, k);
      return Place(k, Bridged);
    }
    return Place(NameKey(r.tier, rules.normalise(r.name), 1), ByName);
  }

  lemma {:induction false} NamedAndAll(rules: Rules, rows: seq<Row>)
    ensures forall r :: r in NamedOf(rules, rows, |rows|) <==> r in RowSet(rows) && ClaimOf(rules, r) == Named
  {
    assert rows[..|rows|] == rows;
    forall r
      ensures r in NamedOf(rules, rows, |rows|) <==> r in RowSet(rows) && ClaimOf(rules, r) == Named
    {
      NamedAre(rules, rows, |rows|, r);
    }
  }

  /** Every row has its place, and nothing else has one. */
  ghost predicate AllPlaced(rules: Rules, rows: seq<Row>, placed: map<int, Placed>) {
    && Right(rules, RowSet(rows), placed)
    && forall i | 0 <= i < |rows| :: rows[i].id in placed && placed[rows[i].id].row == rows[i]
  }

  /** As far as the first `m` waiting rows: the rest were placed before. */
  ghost predicate NamedPlaced(rules: Rules, rows: seq<Row>, named: seq<Row>, m: nat, placed: map<int, Placed>)
    requires m <= |named|
  {
    && Right(rules, RowSet(rows), placed) && HasAll(rules, rows, |rows|, placed)
    && forall i | 0 <= i < m :: named[i].id in placed && placed[named[i].id].row == named[i]
  }

  lemma {:induction false} NamedPlacedOneMore(rules: Rules, rows: seq<Row>, named: seq<Row>, m: nat, placed: map<int, Placed>, p: Place)
    requires DistinctIds(rows) && DistinctIds(named) && m < |named| && NamedPlaced(rules, rows, named, m, placed)
    requires forall r :: r in named <==> r in RowSet(rows) && ClaimOf(rules, r) == Named
    requires IsPlace(rules, RowSet(rows), named[m], p)
    ensures NamedPlaced(rules, rows, named, m + 1, placed[named[m].id := Placed(named[m], p)])
  {
  }

  lemma {:induction false} EveryRowPlaced(rules: Rules, rows: seq<Row>, named: seq<Row>, placed: map<int, Placed>)
    requires NamedPlaced(rules, rows, named, |named|, placed)
    requires forall r :: r in named <==> r in RowSet(rows) && ClaimOf(rules, r) == Named
    ensures AllPlaced(rules, rows, placed)
  {
  }

  method PlaceNamed(rules: Rules, rows: seq<Row>, named: seq<Row>, ordinals: array<int>, under: map<NameIn, set<string>>,
                    held: map<int, Placed>)
    returns (placed: map<int, Placed>)
    requires DistinctIds(rows) && DistinctIds(named) && ordinals.Length == |named|
    requires forall r :: r in named <==> r in RowSet(rows) && ClaimOf(rules, r) == Named
    requires forall i | 0 <= i < |named| :: ordinals[i] == Ordinal(rules, RowSet(rows), named[i])
    requires Noted(rules, rows, |rows|, under) && NamedPlaced(rules, rows, named, 0, held)
    ensures NamedPlaced(rules, rows, named, |named|, placed)
  {
    placed := held;
    for i := 0 to |named|
      invariant NamedPlaced(rules, rows, named, i, placed)
    {
      var r := named[i];
      assert r in named;
      var t := NameOfRow(rules, r);
      var candidates := if t in under then under[t] else {};
      assert NumbersTo(rules, rows, |rows|, t) == candidates;
      NumbersAre(rules, rows, r);
      var p := PlaceByName(rules, RowSet(rows), r, ordinals[i], candidates);
      NamedPlacedOneMore(rules, rows, named, i, placed, p);
      placed := placed[r.id := Placed(r, p)];
    }
  }

  method PlaceAll(rules: Rules, rows: seq<Row>) returns (placed: map<int, Placed>)
    requires DistinctIds(rows)
    ensures AllPlaced(rules, rows, placed)
  {
    var held: map<int, Placed>, under: map<NameIn, set<string>>, named: seq<Row> := Sift(rules, rows);
    NamedDistinct(rules, rows, |rows|);
    NamedAndAll(rules, rows);
    var ordinals := OrdinalsWithinSeason(rules, named, RowSet(rows));
    placed := PlaceNamed(rules, rows, named, ordinals, under, held);
    EveryRowPlaced(rules, rows, named, placed);
  }

  // ---------------------------------------------------------------- gathering the events

  datatype EventKey = EventKey(tour: string, key: string)

  function KeyFor(p: Placed): EventKey {
    EventKey(p.row.tour, p.place.key)
  }

  function EditionFor(p: Placed): Edition {
    Edition(p.row, p.place.link)
  }

  /** What has been gathered from the ids done: each event's editions, no id twice. */
  ghost predicate Gathered(placed: map<int, Placed>, done: set<int>, byEvent: map<EventKey, seq<Edition>>) {
    && (forall k | k in byEvent :: byEvent[k] != [] && forall i, j | 0 <= i < j < |byEvent[k]| :: byEvent[k][i].row.id != byEvent[k][j].row.id)
    && (forall k, x | k in byEvent && x in byEvent[k] :: InEvent(placed, done, k, x))
    && (forall id | id in done && id in placed :: KeyFor(placed[id]) in byEvent && EditionFor(placed[id]) in byEvent[KeyFor(placed[id])])
  }

  ghost predicate InEvent(placed: map<int, Placed>, done: set<int>, k: EventKey, x: Edition) {
    x.row.id in done && x.row.id in placed && x == EditionFor(placed[x.row.id]) && k == KeyFor(placed[x.row.id])
  }

  function FiledUnder(byEvent: map<EventKey, seq<Edition>>, k: EventKey, x: Edition): map<EventKey, seq<Edition>> {
    byEvent[k := (if k in byEvent then byEvent[k] else []) + [x]]
  }

  lemma {:induction false} GatheredOneMore(placed: map<int, Placed>, done: set<int>, byEvent: map<EventKey, seq<Edition>>, id: int)
    requires Gathered(placed, done, byEvent) && id in placed && id !in done && placed[id].row.id == id
    ensures Gathered(placed, done + {id}, FiledUnder(byEvent, KeyFor(placed[id]), EditionFor(placed[id])))
  {
    var key, edition := KeyFor(placed[id]), EditionFor(placed[id]);
    var after := FiledUnder(byEvent, key, edition);
    forall k, x | k in after && x in after[k]
      ensures InEvent(placed, done + {id}, k, x)
    {
      if k in byEvent && x in byEvent[k] {
        assert InEvent(placed, done, k, x);
      }
    }
    if key in byEvent {
      forall i | 0 <= i < |byEvent[key]|
        ensures byEvent[key][i].row.id != id
      {
        assert byEvent[key][i] in byEvent[key];
        assert InEvent(placed, done, key, byEvent[key][i]);
      }
    }
    forall other | other in done + {id} && other in placed
      ensures KeyFor(placed[other]) in after && EditionFor(placed[other]) in after[KeyFor(placed[other])]
    {
      if other != id {
        assert EditionFor(placed[other]) in byEvent[KeyFor(placed[other])];
      }
    }
  }

  /** How many of the rows done were placed by a link. */
  ghost function Linked(placed: map<int, Placed>, done: set<int>, link: Link): set<int> {
    set id | id in done && id in placed && placed[id].place.link == link
  }

  /** The counts by link that the run reports. */
  datatype Counts = Counts(byOverride: nat, byNumber: nat, bridged: nat, byName: nat, byTeam: nat) {
    function Sum(): nat {
      byOverride + byNumber + bridged + byName + byTeam
    }

    function With(link: Link): Counts {
      match link
      case ByOverride => this.(byOverride := byOverride + 1)
      case ByNumber => this.(byNumber := byNumber + 1)
      case Bridged => this.(bridged := bridged + 1)
      case ByName => this.(byName := byName + 1)
      case ByTeam => this.(byTeam := byTeam + 1)
    }
  }

  function CountOf(counts: Counts, link: Link): nat {
    match link
    case ByOverride => counts.byOverride
    case ByNumber => counts.byNumber
    case Bridged => counts.bridged
    case ByName => counts.byName
    case ByTeam => counts.byTeam
  }

  /** The counts of some ids, one after another. */
  function CountsOver(placed: map<int, Placed>, order: seq<int>): Counts {
    if order == [] then Counts(0, 0, 0, 0, 0)
    else
      var before, last := CountsOver(placed, order[..|order| - 1]), order[|order| - 1];
      if last in placed then before.With(placed[last].place.link) else before
  }

  /** Ids in an order, none twice. */
  ghost predicate Lists(order: seq<int>, ids: set<int>) {
    (forall id :: id in ids <==> id in order) && forall i, j | 0 <= i < j < |order| :: order[i] != order[j]
  }

  /** The counts of the rows placed, taken in whatever order. */
  ghost predicate Counted(placed: map<int, Placed>, counts: Counts) {
    exists order :: Lists(order, placed.Keys) && counts == CountsOver(placed, order)
  }

  lemma {:induction false} ListsInit(order: seq<int>, ids: set<int>)
    requires order != [] && Lists(order, ids)
    ensures Lists(order[..|order| - 1], ids - {order[|order| - 1]}) && order[|order| - 1] in ids
  {
    var last := order[|order| - 1];
    forall id
      ensures id in ids - {last} <==> id in order[..|order| - 1]
    {
      if id in ids && id != last {
        var i :| 0 <= i < |order| && order[i] == id;
        assert order[..|order| - 1][i] == id;
      }
    }
  }

  lemma {:induction false} ListsOneMore(order: seq<int>, ids: set<int>, id: int)
    requires Lists(order, ids) && id !in ids
    ensures Lists(order + [id], ids + {id})
  {
  }

  lemma {:induction false} ListsLength(order: seq<int>, ids: set<int>)
    requires Lists(order, ids)
    ensures |order| == |ids|
  {
    if order == [] {
      assert forall id :: id in ids <==> id in order;
      assert ids == {};
    } else {
      ListsInit(order, ids);
      ListsLength(order[..|order| - 1], ids - {order[|order| - 1]});
    }
  }

  lemma {:induction false} LinkedAfter(placed: map<int, Placed>, ids: set<int>, id: int, link: Link)
    requires id in placed && id in ids
    ensures |Linked(placed, ids, link)| == |Linked(placed, ids - {id}, link)| + if placed[id].place.link == link then 1 else 0
  {
    if placed[id].place.link == link {
      assert Linked(placed, ids, link) == Linked(placed, ids - {id}, link) + {id};
    } else {
      assert Linked(placed, ids, link) == Linked(placed, ids - {id}, link);
    }
  }

  lemma {:induction false} CountsOverLink(placed: map<int, Placed>, order: seq<int>, ids: set<int>, link: Link)
    requires Lists(order, ids) && ids <= placed.Keys
    ensures CountOf(CountsOver(placed, order), link) == |Linked(placed, ids, link)|
  {
    if order == [] {
      assert forall id :: id in ids <==> id in order;
      assert Linked(placed, ids, link) == {};
    } else {
      var last := order[|order| - 1];
      ListsInit(order, ids);
      CountsOverLink(placed, order[..|order| - 1], ids - {last}, link);
      LinkedAfter(placed, ids, last, link);
    }
  }

  /** Each count is the number of rows its link placed. */
  lemma {:induction false} CountIsLinked(placed: map<int, Placed>, counts: Counts, link: Link)
    requires Counted(placed, counts)
    ensures CountOf(counts, link) == |Linked(placed, placed.Keys, link)|
  {
    var order :| Lists(order, placed.Keys) && counts == CountsOver(placed, order);
    CountsOverLink(placed, order, placed.Keys, link);
  }

  lemma {:induction false} CountsOverSum(placed: map<int, Placed>, order: seq<int>)
    requires forall i | 0 <= i < |order| :: order[i] in placed
    ensures CountsOver(placed, order).Sum() == |order|
  {
    if order != [] {
      CountsOverSum(placed, order[..|order| - 1]);
    }
  }

  /** What some ids, one after another, gather into. */
  function EventsOver(placed: map<int, Placed>, order: seq<int>): map<EventKey, seq<Edition>> {
    if order == [] then map[]
    else
      var before, last := EventsOver(placed, order[..|order| - 1]), order[|order| - 1];
      if last in placed then FiledUnder(before, KeyFor(placed[last]), EditionFor(placed[last])) else before
  }

  lemma {:induction false} EventsOverGather(placed: map<int, Placed>, order: seq<int>, ids: set<int>)
    requires Lists(order, ids) && ids <= placed.Keys && forall id | id in placed :: placed[id].row.id == id
    ensures Gathered(placed, ids, EventsOver(placed, order))
  {
    if order == [] {
      assert forall id :: id in ids <==> id in order;
    } else {
      var init, last := order[..|order| - 1], order[|order| - 1];
      ListsInit(order, ids);
      EventsOverGather(placed, init, ids - {last});
      GatheredOneMore(placed, ids - {last}, EventsOver(placed, init), last);
      assert (ids - {last}) + {last} == ids;
    }
  }

  /** The ids of a map, in whatever order it gives them. */
  method ListIds(ids: set<int>) returns (order: seq<int>)
    ensures Lists(order, ids)
  {
    order := [];
    var rest, listed: set<int> := ids, {};
    while rest != {}
      invariant listed == ids - rest && rest <= ids
      invariant Lists(order, listed)
      decreases |rest|
    {
      var id := AnyOf(rest);
      ListsOneMore(order, listed, id);
      order, listed, rest := order + [id], listed + {id}, rest - {id};
    }
    assert listed == ids;
  }

  /** Gathers the placed rows. */
  method Gather(placed: map<int, Placed>) returns (byEvent: map<EventKey, seq<Edition>>, counts: Counts)
    requires forall id | id in placed :: placed[id].row.id == id
    ensures Gathered(placed, placed.Keys, byEvent) && Counted(placed, counts)
  {
    var order := ListIds(placed.Keys);
    byEvent, counts := map[], Counts(0, 0, 0, 0, 0);
    for i := 0 to |order|
      invariant byEvent == EventsOver(placed, order[..i]) && counts == CountsOver(placed, order[..i])
    {
      assert order[..i + 1][..i] == order[..i];
      assert order[i] in order;
      var p := placed[order[i]];
      byEvent := FiledUnder(byEvent, KeyFor(p), EditionFor(p));
      counts := counts.With(p.place.link);
    }
    assert order[..|order|] == order;
    EventsOverGather(placed, order, placed.Keys);
  }

  // ---------------------------------------------------------------- the events in order

  predicate NoLaterEdition(a: Edition, b: Edition) {
    !EditionBefore(b, a)
  }

  predicate NoLaterEvent(a: Event, b: Event) {
    !EventBefore(b, a)
  }

  lemma {:induction false} EditionsPreordered()
    ensures TotalPreorder(NoLaterEdition)
  {
  }

  lemma {:induction false} EventsPreordered()
    ensures TotalPreorder(NoLaterEvent)
  {
    EventsOrdered();
    forall a, b, c | NoLaterEvent(a, b) && NoLaterEvent(b, c)
      ensures NoLaterEvent(a, c)
    {
      LessThrough(a.tour, b.tour, c.tour);
      LessThrough(a.key, b.key, c.key);
      LessOneWay(a.tour, b.tour);
      LessOneWay(b.tour, c.tour);
    }
  }

  /** Among strings, not later is no earlier or the same. */
  lemma {:induction false} LessThrough(a: string, b: string, c: string)
    ensures Less(a, b) || Less(b, a) || a == b
    ensures !Less(b, a) && !Less(c, b) ==> !Less(c, a) && (a == c ==> b == a)
  {
    AtMostEither(a, b);
    AtMostEither(b, c);
    if AtMost(a, b) && AtMost(b, c) {
      AtMostThrough(a, b, c);
      if AtMost(c, a) {
        AtMostBoth(a, c);
        AtMostBoth(a, b);
      }
    }
  }

  lemma {:induction false} EditionsDecided(editions: seq<Edition>)
    requires forall i, j | 0 <= i < j < |editions| :: editions[i].row.id != editions[j].row.id
    ensures Decided(editions, EditionBefore)
  {
  }

  /** The event of a key, from the editions gathered under it. */
  function EventFrom(naming: Naming, k: EventKey, gathered: seq<Edition>): Event
    requires gathered != []
  {
    SortElements(gathered, NoLaterEdition);
    SameMembers(gathered, Sort(gathered, NoLaterEdition));
    var editions := Sort(gathered, NoLaterEdition);
    var ordinal := OrdinalOf(k.key);
    Event(k.tour, k.key, NameOf(naming, k.tour, k.key, editions, ordinal), ordinal,
          editions[0].row.season, editions[|editions| - 1].row.season, editions)
  }

  lemma {:induction false} PlacedEdition(rules: Rules, rows: seq<Row>, placed: map<int, Placed>, k: EventKey, x: Edition)
    requires AllPlaced(rules, rows, placed)
    ensures InEvent(placed, placed.Keys, k, x) <==> IsEdition(rules, RowSet(rows), k.tour, k.key, x)
  {
  }

  lemma {:induction false} EventFromIsEvent(rules: Rules, naming: Naming, rows: seq<Row>, placed: map<int, Placed>,
                                           byEvent: map<EventKey, seq<Edition>>, k: EventKey)
    requires AllPlaced(rules, rows, placed) && Gathered(placed, placed.Keys, byEvent) && k in byEvent
    ensures IsEvent(rules, naming, RowSet(rows), EventFrom(naming, k, byEvent[k]))
  {
    EditionsPreordered();
    EditionsOrdered();
    EditionsDecided(byEvent[k]);
    SortIncreases(byEvent[k], NoLaterEdition, EditionBefore);
    forall x
      ensures x in byEvent[k] <==> IsEdition(rules, RowSet(rows), k.tour, k.key, x)
    {
      PlacedEdition(rules, rows, placed, k, x);
      if x in byEvent[k] {
        assert InEvent(placed, placed.Keys, k, x);
      }
    }
  }

  /** The events of the keys done, one for each. */
  ghost predicate Built(naming: Naming, byEvent: map<EventKey, seq<Edition>>, done: set<EventKey>, events: seq<Event>)
    requires forall k | k in byEvent :: byEvent[k] != []
  {
    && (forall i | 0 <= i < |events| ::
          var k := EventKey(events[i].tour, events[i].key);
          k in done && k in byEvent && events[i] == EventFrom(naming, k, byEvent[k]))
    && (forall k | k in done && k in byEvent :: EventFrom(naming, k, byEvent[k]) in events)
    && (forall i, j | 0 <= i < j < |events| :: events[i].tour != events[j].tour || events[i].key != events[j].key)
  }

  method Build(naming: Naming, byEvent: map<EventKey, seq<Edition>>) returns (events: seq<Event>)
    requires forall k | k in byEvent :: byEvent[k] != []
    ensures Built(naming, byEvent, byEvent.Keys, events)
  {
    events := [];
    var rest := byEvent.Keys;
    while rest != {}
      invariant rest <= byEvent.Keys && Built(naming, byEvent, byEvent.Keys - rest, events)
      decreases |rest|
    {
      var k :| k in rest;
      BuiltOneMore(naming, byEvent, byEvent.Keys - rest, events, k);
      assert byEvent.Keys - (rest - {k}) == (byEvent.Keys - rest) + {k};
      events := events + [EventFrom(naming, k, byEvent[k])];
      rest := rest - {k};
    }
    assert byEvent.Keys - rest == byEvent.Keys;
  }

  lemma {:induction false} BuiltOneMore(naming: Naming, byEvent: map<EventKey, seq<Edition>>, done: set<EventKey>, events: seq<Event>, k: EventKey)
    requires forall q | q in byEvent :: byEvent[q] != []
    requires Built(naming, byEvent, done, events) && k in byEvent && k !in done
    ensures Built(naming, byEvent, done + {k}, events + [EventFrom(naming, k, byEvent[k])])
  {
  }

  lemma {:induction false} BuiltResolves(rules: Rules, naming: Naming, rows: seq<Row>, placed: map<int, Placed>,
                                        byEvent: map<EventKey, seq<Edition>>, events: seq<Event>)
    requires AllPlaced(rules, rows, placed) && Gathered(placed, placed.Keys, byEvent)
    requires Built(naming, byEvent, byEvent.Keys, events)
    ensures IsResolution(rules, naming, RowSet(rows), Sort(events, NoLaterEvent))
  {
    EventsOrdered();
    EventsPreordered();
    forall i, j | 0 <= i < j < |events|
      ensures EventBefore(events[i], events[j]) || EventBefore(events[j], events[i])
    {
      LessThrough(events[i].tour, events[j].tour, events[j].tour);
      LessThrough(events[i].key, events[j].key, events[j].key);
    }
    SortIncreases(events, NoLaterEvent, EventBefore);
    var sorted := Sort(events, NoLaterEvent);
    forall i | 0 <= i < |sorted|
      ensures IsEvent(rules, naming, RowSet(rows), sorted[i])
    {
      assert sorted[i] in sorted;
      EventFromIsEvent(rules, naming, rows, placed, byEvent, EventKey(sorted[i].tour, sorted[i].key));
    }
    forall r | r in RowSet(rows)
      ensures exists i :: 0 <= i < |sorted| && Holds(sorted[i], r)
    {
      RowIsHeld(rules, naming, rows, placed, byEvent, events, r);
      var ev :| ev in events && Holds(ev, r);
      assert ev in sorted;
    }
  }

  lemma {:induction false} RowIsHeld(rules: Rules, naming: Naming, rows: seq<Row>, placed: map<int, Placed>,
                                    byEvent: map<EventKey, seq<Edition>>, events: seq<Event>, r: Row)
    requires AllPlaced(rules, rows, placed) && Gathered(placed, placed.Keys, byEvent)
    requires Built(naming, byEvent, byEvent.Keys, events) && r in RowSet(rows)
    ensures exists ev :: ev in events && Holds(ev, r)
  {
    var i: nat :| i < |rows| && rows[i] == r;
    var p := placed[r.id];
    var k, x := KeyFor(p), EditionFor(p);
    assert x in byEvent[k];
    SortElements(byEvent[k], NoLaterEdition);
    SameMembers(byEvent[k], Sort(byEvent[k], NoLaterEdition));
    var ev := EventFrom(naming, k, byEvent[k]);
    assert ev in events && x in ev.editions && x.row == r;
  }

  datatype Resolution = Resolution(events: seq<Event>, counts: Counts)

  /** Derives the events from every tournaments row. */
  method Resolve(rules: Rules, naming: Naming, rows: seq<Row>) returns (r: Resolution, ghost placed: map<int, Placed>)
    requires DistinctIds(rows)
    ensures IsResolution(rules, naming, RowSet(rows), r.events)
    ensures AllPlaced(rules, rows, placed) && Counted(placed, r.counts)
  {
    var all := PlaceAll(rules, rows);
    placed := all;
    var byEvent: map<EventKey, seq<Edition>>, counts: Counts := Gather(all);
    var events := Build(naming, byEvent);
    BuiltResolves(rules, naming, rows, all, byEvent, events);
    r := Resolution(Sort(events, NoLaterEvent), counts);
  }

  // ---------------------------------------------------------------- what follows

  /** The events are a function of the set of rows: any two resolutions of the same rows, in
      whatever order they were read, are one. */
  lemma {:induction false} OrderOfRowsDoesNotMatter(rules: Rules, naming: Naming, rows: seq<Row>, others: seq<Row>, a: seq<Event>, b: seq<Event>)
    requires multiset(rows) == multiset(others)
    requires IsResolution(rules, naming, RowSet(rows), a) && IsResolution(rules, naming, RowSet(others), b)
    ensures a == b
  {
    SameMembers(rows, others);
    assert RowSet(rows) == RowSet(others);
    OneResolution(rules, naming, RowSet(rows), a, b);
  }

  /** Every row lands on exactly one event, under one link. */
  lemma {:induction false} OneEventPerRow(rules: Rules, naming: Naming, s: set<Row>, events: seq<Event>, i: nat, j: nat, x: Edition, y: Edition)
    requires IsResolution(rules, naming, s, events) && i < |events| && j < |events|
    requires x in events[i].editions && y in events[j].editions && x.row == y.row
    ensures i == j && x == y
  {
    assert Holds(events[i], x.row) && Holds(events[j], x.row);
    SharedRowSameEvent(rules, naming, s, events[i], events[j], x.row);
    OnePlace(rules, s, x.row, Place(events[i].key, x.link), Place(events[j].key, y.link));
    EventsOrdered();
    IncreasingOnce(events, EventBefore, i, j);
  }

  /** The counts by link are of all the rows. */
  lemma {:induction false} CountsAreOfAllRows(rules: Rules, rows: seq<Row>, placed: map<int, Placed>, counts: Counts)
    requires DistinctIds(rows) && AllPlaced(rules, rows, placed) && Counted(placed, counts)
    ensures counts.Sum() == |rows|
  {
    CountsAreOfKeys(placed, counts);
    KeysAreRows(rules, rows, placed);
  }

  lemma {:induction false} CountsAreOfKeys(placed: map<int, Placed>, counts: Counts)
    requires Counted(placed, counts)
    ensures counts.Sum() == |placed.Keys|
  {
    var order :| Lists(order, placed.Keys) && counts == CountsOver(placed, order);
    assert forall i | 0 <= i < |order| :: order[i] in order;
    CountsOverSum(placed, order);
    ListsLength(order, placed.Keys);
  }

  lemma {:induction false} KeysAreRows(rules: Rules, rows: seq<Row>, placed: map<int, Placed>)
    requires DistinctIds(rows) && AllPlaced(rules, rows, placed)
    ensures |placed.Keys| == |rows|
  {
    IdsOf(rows, |rows|);
    forall id
      ensures id in placed.Keys <==> id in Ids(rows, |rows|)
    {
      IdsHave(rows, |rows|, id);
      if id in placed {
        var i: nat :| i < |rows| && rows[i] == placed[id].row;
      }
    }
    assert placed.Keys == Ids(rows, |rows|);
  }

  function Ids(rows: seq<Row>, n: nat): set<int>
    requires n <= |rows|
  {
    if n == 0 then {} else Ids(rows, n - 1) + {rows[n - 1].id}
  }

  lemma {:induction false} IdsHave(rows: seq<Row>, n: nat, id: int)
    requires n <= |rows|
    ensures id in Ids(rows, n) <==> exists i :: 0 <= i < n && rows[i].id == id
  {
    if n > 0 {
      IdsHave(rows, n - 1, id);
    }
  }

  lemma {:induction false} IdsOf(rows: seq<Row>, n: nat)
    requires DistinctIds(rows) && n <= |rows|
    ensures |Ids(rows, n)| == n
  {
    if n > 0 {
      IdsOf(rows, n - 1);
      IdsHave(rows, n - 1, rows[n - 1].id);
    }
  }

  /** Folded names and tiers have no colon in them. */
  ghost predicate Tidy(rules: Rules, s: set<Row>) {
    forall r | r in s :: ':' !in rules.normalise(r.name) && ':' !in r.tier
  }

  /** An earlier row of a group has a lower ordinal. */
  lemma {:induction false} EarlierIsLower(rules: Rules, s: set<Row>, a: Row, b: Row)
    requires a in s && b in s && ClaimOf(rules, a) == Named && GroupOf(rules, a) == GroupOf(rules, b) && Earlier(a, b)
    ensures Ordinal(rules, s, a) < Ordinal(rules, s, b)
  {
    forall q | q in Ahead(rules, s, a)
      ensures q in Ahead(rules, s, b)
    {
      EarlierOneWay(q, a);
      EarlierOneWay(a, b);
      EarlierThrough(q, a, b);
      EarlierIsTotal(q, b);
      SameIdNoFurther(q, a, b);
    }
    EarlierOneWay(a, b);
    assert a !in Ahead(rules, s, a);
    Grows(Ahead(rules, s, a), Ahead(rules, s, b), a);
  }

  lemma {:induction false} SameIdNoFurther(q: Row, a: Row, b: Row)
    requires Earlier(q, a) && Earlier(a, b)
    ensures Earlier(q, b)
  {
    if Less(q.sourceId, a.sourceId) && Less(a.sourceId, b.sourceId) {
      AtMostThrough(q.sourceId, a.sourceId, b.sourceId);
      if q.sourceId == b.sourceId {
        AtMostBoth(q.sourceId, a.sourceId);
      }
    }
  }

  lemma {:induction false} Grows<T>(a: set<T>, b: set<T>, x: T)
    requires a <= b && x in b && x !in a
    ensures |a| < |b|
  {
    assert a <= b - {x};
    Within(a, b - {x});
  }

  /** What the key of an event joined by name starts with. */
  predicate NameKeyed(key: string) {
    HasPrefix(key, "name:")
  }

  /** Only the name rule puts a row under a key of that kind. */
  lemma {:induction false} NameKeyedIsNamed(rules: Rules, s: set<Row>, r: Row, p: Place)
    requires IsPlace(rules, s, r, p) && NameKeyed(p.key)
    ensures ClaimOf(rules, r) == Named && p.link == ByName
    ensures p.key == NameKey(r.tier, rules.normalise(r.name), Ordinal(rules, s, r))
  {
    assert p.key[0] == 'n' && p.key[1] == 'a';
    var numbers := Numbers(rules, s, r.tour, r.tier, rules.normalise(r.name));
    forall k | k in numbers
      ensures !NameKeyed(k)
    {
      assert k[1] == 'u';
    }
    assert numbers == {p.key} ==> p.key in numbers;
  }

  /** An event joined by name has at most one edition in a season. */
  lemma {:induction false} OneEditionPerSeason(rules: Rules, naming: Naming, s: set<Row>, ev: Event, x: Edition, y: Edition)
    requires Tidy(rules, s) && IsEvent(rules, naming, s, ev) && x in ev.editions && y in ev.editions
    requires forall r, q | r in s && q in s && r.id == q.id :: r == q
    requires NameKeyed(ev.key) && x.row.season == y.row.season
    ensures x == y
  {
    var m, n := Ordinal(rules, s, x.row), Ordinal(rules, s, y.row);
    assert IsEdition(rules, s, ev.tour, ev.key, x) && IsEdition(rules, s, ev.tour, ev.key, y);
    NameKeyedIsNamed(rules, s, x.row, Place(ev.key, x.link));
    NameKeyedIsNamed(rules, s, y.row, Place(ev.key, y.link));
    NameKeysDiffer(x.row.tier, rules.normalise(x.row.name), m, y.row.tier, rules.normalise(y.row.name), n);
    EarlierIsTotal(x.row, y.row);
    if Earlier(x.row, y.row) {
      EarlierIsLower(rules, s, x.row, y.row);
    } else if Earlier(y.row, x.row) {
      EarlierIsLower(rules, s, y.row, x.row);
    }
  }

  /** Ordinals run from one, without a gap: a group in calendar order has 1, 2, 3, ... */
  lemma {:induction false} OrdinalsRunFromOne(rules: Rules, rows: seq<Row>, g: Group, k: nat)
    requires DistinctIds(rows)
    requires var named := NamedOf(rules, rows, |rows|); k < |Sort(Slots(rules, named, g, |named|), NoLater)|
    ensures var named := NamedOf(rules, rows, |rows|);
            var ordered := Sort(Slots(rules, named, g, |named|), NoLater);
            && InCalendarOrder(rules, named, g, ordered)
            && Ordinal(rules, RowSet(rows), ordered[k].row) == k + 1
  {
    var named := NamedOf(rules, rows, |rows|);
    NamedDistinct(rules, rows, |rows|);
    NamedAndAll(rules, rows);
    SortedSlots(rules, named, g);
    OrdinalIsPosition(rules, named, RowSet(rows), g, Sort(Slots(rules, named, g, |named|), NoLater), k);
  }
}
