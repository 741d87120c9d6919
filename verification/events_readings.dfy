/** The rule for a row, and what is said of an event, read off the rows alone. */
module EventReadings {
  import opened Collections
  import opened Decimal
  import opened Events
  import opened EventResolving
  import opened Lexical
  import opened Sorting

  /** The number a row is held under: the override's, where there is one, and otherwise its own;
      a team tie has neither. */
  function NumberOf(rules: Rules, r: Row): Option<string> {
    if r.level == "D" then None
    else
      match rules.target(r, rules.rawKey(r))
      case Some(to) => Some(to)
      case None => if rules.rawKey(r).Number? then Some(rules.rawKey(r).value) else None
  }

  predicate WaitsOnName(rules: Rules, r: Row) {
    r.level != "D" && NumberOf(rules, r).None?
  }

  predicate SameName(rules: Rules, q: Row, r: Row) {
    q.tour == r.tour && q.tier == r.tier && rules.normalise(q.name) == rules.normalise(r.name)
  }

  /** The rows of a row's name and season that wait on their name and were played before it, of two
      on one day the one whose source id, and then whose id, is lower. */
  ghost function PlayedBefore(rules: Rules, s: set<Row>, r: Row): set<Row> {
    set q | q in s && WaitsOnName(rules, q) && SameName(rules, q, r) && q.season == r.season
            && (q.startDate < r.startDate
                || (q.startDate == r.startDate
                    && (Less(q.sourceId, r.sourceId) || (q.sourceId == r.sourceId && q.id < r.id))))
  }

  ghost predicate Carries(rules: Rules, s: set<Row>, r: Row, number: string) {
    exists q :: q in s && SameName(rules, q, r) && NumberOf(rules, q) == Some(number)
  }

  /** Exactly one number has an edition of the row's name. */
  ghost predicate OnlyCarrier(rules: Rules, s: set<Row>, r: Row, number: string) {
    Carries(rules, s, r, number) && forall n | Carries(rules, s, r, n) :: n == number
  }

  lemma {:induction false} ClaimIs(rules: Rules, r: Row)
    ensures ClaimOf(rules, r).Named? <==> WaitsOnName(rules, r)
    ensures ClaimOf(rules, r).Held? <==> NumberOf(rules, r).Some?
    ensures ClaimOf(rules, r).Held? ==> NumberOf(rules, r) == Some(ClaimOf(rules, r).number)
  {
  }

  lemma {:induction false} AheadIs(rules: Rules, s: set<Row>, r: Row)
    ensures Ahead(rules, s, r) == PlayedBefore(rules, s, r)
  {
    forall q
      ensures q in Ahead(rules, s, r) <==> q in PlayedBefore(rules, s, r)
    {
      ClaimIs(rules, q);
    }
  }

  lemma {:induction false} NumbersAreCarriers(rules: Rules, s: set<Row>, r: Row, key: string)
    ensures key in Numbers(rules, s, r.tour, r.tier, rules.normalise(r.name))
       <==> exists n :: Carries(rules, s, r, n) && key == "number:" + n
  {
    if key in Numbers(rules, s, r.tour, r.tier, rules.normalise(r.name)) {
      var q :| q in s && ClaimOf(rules, q).Held? && SameName(rules, q, r) && key == NumberKey(ClaimOf(rules, q).number);
      ClaimIs(rules, q);
      assert Carries(rules, s, r, ClaimOf(rules, q).number);
    }
    if n :| Carries(rules, s, r, n) && key == "number:" + n {
      var q :| q in s && SameName(rules, q, r) && NumberOf(rules, q) == Some(n);
      ClaimIs(rules, q);
    }
  }

  lemma {:induction false} SameNumber(n: string, m: string)
    requires "number:" + n == "number:" + m
    ensures n == m
  {
    assert ("number:" + n)[7..] == n && ("number:" + m)[7..] == m;
  }

  lemma {:induction false} OneNumber(rules: Rules, s: set<Row>, r: Row, number: string)
    ensures OnlyCarrier(rules, s, r, number)
       <==> Numbers(rules, s, r.tour, r.tier, rules.normalise(r.name)) == {"number:" + number}
  {
    var numbers := Numbers(rules, s, r.tour, r.tier, rules.normalise(r.name));
    NumbersAreCarriers(rules, s, r, "number:" + number);
    if numbers == {"number:" + number} {
      forall n | Carries(rules, s, r, n)
        ensures n == number
      {
        NumbersAreCarriers(rules, s, r, "number:" + n);
        SameNumber(n, number);
      }
      var n :| Carries(rules, s, r, n) && "number:" + number == "number:" + n;
      SameNumber(n, number);
    }
    if OnlyCarrier(rules, s, r, number) {
      forall key
        ensures key in numbers <==> key == "number:" + number
      {
        NumbersAreCarriers(rules, s, r, key);
      }
    }
  }

  /** A row that is no name's: a team tie goes to its competition, any other row with an override
      to the override's number whatever its own, and one with a number of its own to that. */
  lemma {:induction false} PlacedByItself(rules: Rules, s: set<Row>, r: Row, p: Place)
    requires IsPlace(rules, s, r, p) && !WaitsOnName(rules, r)
    ensures r.level == "D" ==> p == Place("team:" + rules.competition(r.name), ByTeam)
    ensures r.level != "D" && rules.target(r, rules.rawKey(r)).Some? ==>
              p == Place("number:" + rules.target(r, rules.rawKey(r)).value, ByOverride)
    ensures r.level != "D" && rules.target(r, rules.rawKey(r)).None? ==>
              rules.rawKey(r).Number? && p == Place("number:" + rules.rawKey(r).value, ByNumber)
  {
  }

  /** A row that waits on its name: the second and later of a name in a season have runs of their
      own, numbered in calendar order; the first joins the one number that carries the name, if
      exactly one does, and the name's bare run otherwise. */
  lemma {:induction false} PlacedByName(rules: Rules, s: set<Row>, r: Row, p: Place)
    requires IsPlace(rules, s, r, p) && WaitsOnName(rules, r)
    ensures var before, name := |PlayedBefore(rules, s, r)|, "name:" + r.tier + ":" + rules.normalise(r.name);
            && (before > 0 ==> p == Place(name + (":" + Itoa(before + 1)), ByName))
            && (before == 0 ==>
                  && (forall n | OnlyCarrier(rules, s, r, n) :: p == Place("number:" + n, Bridged))
                  && ((forall n :: !OnlyCarrier(rules, s, r, n)) ==> p == Place(name, ByName)))
  {
    ClaimIs(rules, r);
    AheadIs(rules, s, r);
    var numbers := Numbers(rules, s, r.tour, r.tier, rules.normalise(r.name));
    forall n | OnlyCarrier(rules, s, r, n)
      ensures numbers == {"number:" + n}
    {
      OneNumber(rules, s, r, n);
    }
    if numbers == {p.key} {
      NumbersAreCarriers(rules, s, r, p.key);
      var n :| Carries(rules, s, r, n) && p.key == "number:" + n;
      OneNumber(rules, s, r, n);
    }
    var name := "name:" + r.tier + ":" + rules.normalise(r.name);
    assert name + "" == name;
  }

  /** What is said of an event: its editions by season, start and id, its first and last seasons
      the least and greatest of theirs, and its name the pinned one where there is one. */
  lemma {:induction false} EventSays(rules: Rules, naming: Naming, s: set<Row>, ev: Event)
    requires IsEvent(rules, naming, s, ev)
    ensures forall x | x in ev.editions :: ev.firstSeason <= x.row.season <= ev.lastSeason
    ensures exists x, y :: x in ev.editions && y in ev.editions && x.row.season == ev.firstSeason && y.row.season == ev.lastSeason
    ensures forall i, j | 0 <= i < j < |ev.editions| ::
              var q, r := ev.editions[i].row, ev.editions[j].row;
              || q.season < r.season
              || (q.season == r.season && (q.startDate < r.startDate || (q.startDate == r.startDate && q.id < r.id)))
    ensures ev.name == if naming.pinned(ev.tour, ev.key) != "" then naming.pinned(ev.tour, ev.key)
                       else naming.display(ev.editions, ev.ordinal)
  {
    var n := |ev.editions| - 1;
    forall i, j | 0 <= i < j <= n
      ensures EditionBefore(ev.editions[i], ev.editions[j])
    {
    }
    forall x | x in ev.editions
      ensures ev.firstSeason <= x.row.season <= ev.lastSeason
    {
      var i :| 0 <= i <= n && ev.editions[i] == x;
      assert i > 0 ==> EditionBefore(ev.editions[0], ev.editions[i]);
      assert i < n ==> EditionBefore(ev.editions[i], ev.editions[n]);
    }
    assert ev.editions[0] in ev.editions && ev.editions[n] in ev.editions;
  }

  /** The events come by tour and, within a tour, by key. */
  lemma {:induction false} EventsByTourThenKey(rules: Rules, naming: Naming, s: set<Row>, events: seq<Event>, i: nat, j: nat)
    requires IsResolution(rules, naming, s, events) && i < j < |events|
    ensures Less(events[i].tour, events[j].tour)
         || (events[i].tour == events[j].tour && Less(events[i].key, events[j].key))
  {
    assert EventBefore(events[i], events[j]);
  }

  /** Each figure of the report counts the rows its own link placed. */
  lemma {:induction false} CountsSay(placed: map<int, Placed>, counts: Counts)
    requires EventResolving.Counted(placed, counts)
    ensures counts.byOverride == |set id | id in placed && placed[id].place.link == ByOverride|
    ensures counts.byNumber == |set id | id in placed && placed[id].place.link == ByNumber|
    ensures counts.bridged == |set id | id in placed && placed[id].place.link == Bridged|
    ensures counts.byName == |set id | id in placed && placed[id].place.link == ByName|
    ensures counts.byTeam == |set id | id in placed && placed[id].place.link == ByTeam|
  {
    forall link: Link
      ensures CountOf(counts, link) == |set id | id in placed && placed[id].place.link == link|
    {
      CountIsLinked(placed, counts, link);
      assert Linked(placed, placed.Keys, link) == set id | id in placed && placed[id].place.link == link;
    }
    assert CountOf(counts, ByOverride) == counts.byOverride && CountOf(counts, ByNumber) == counts.byNumber;
    assert CountOf(counts, Bridged) == counts.bridged && CountOf(counts, ByName) == counts.byName;
    assert CountOf(counts, ByTeam) == counts.byTeam;
  }
}
