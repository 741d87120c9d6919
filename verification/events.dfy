/** What an event is across seasons: the tournaments rows, keyed and numbered
    (internal/events/events.go). */
module Events {
  import opened Collections
  import opened Decimal
  import opened Lexical
  import opened Sorting

  datatype Row = Row(id: int, tour: string, sourceId: string, name: string, level: string, tier: string,
                     season: int, startDate: int)

  /** The part of a source id that could identify the event. */
  datatype Raw = NoKey | Number(value: string) | Code(value: string)

  datatype Link = ByOverride | ByNumber | Bridged | ByName | ByTeam

  datatype Edition = Edition(row: Row, link: Link)

  /** What the rows are read with: the name folding and id patterns, and the overrides file. */
  datatype Rules = Rules(normalise: string -> string, competition: string -> string, rawKey: Row -> Raw,
                         target: (Row, Raw) -> Option<string>)

  function NumberKey(n: string): string {
    "number:" + n
  }

  function TeamKey(competition: string): string {
    "team:" + competition
  }

  /** The key of a run joined by name: the first of a name in a season bare, the others numbered. */
  function NameKey(tier: string, norm: string, ordinal: int): string {
    "name:" + tier + ":" + norm + if ordinal > 1 then ":" + Itoa(ordinal) else ""
  }

  /** What the rule says of a row on its own: a team tie, a numbered event, or a name to be placed. */
  datatype Claim = Team(competition: string) | Held(number: string, link: Link) | Named

  function ClaimOf(rules: Rules, r: Row): Claim {
    if r.level == "D" then Team(rules.competition(r.name))
    else
      var raw := rules.rawKey(r);
      match rules.target(r, raw)
      case Some(to) => Held(to, ByOverride)
      case None => if raw.Number? then Held(raw.value, ByNumber) else Named
  }

  // ---------------------------------------------------------------- ordinals

  /** The rows that share a name, tour, tier and season. */
  datatype Group = Group(tour: string, tier: string, norm: string, season: int)

  function GroupOf(rules: Rules, r: Row): Group {
    Group(r.tour, r.tier, rules.normalise(r.name), r.season)
  }

  /** Calendar order, the source id between two of one day. */
  predicate Earlier(a: Row, b: Row) {
    || a.startDate < b.startDate
    || (a.startDate == b.startDate
        && (Less(a.sourceId, b.sourceId) || (a.sourceId == b.sourceId && a.id < b.id)))
  }

  /** The named rows of a row's group that come before it. */
  ghost function Ahead(rules: Rules, s: set<Row>, r: Row): set<Row> {
    set q | q in s && ClaimOf(rules, q) == Named && GroupOf(rules, q) == GroupOf(rules, r) && Earlier(q, r)
  }

  ghost function Ordinal(rules: Rules, s: set<Row>, r: Row): int {
    |Ahead(rules, s, r)| + 1
  }

  // ---------------------------------------------------------------- placing a row

  /** The numbered events with an edition of a name, in a tour and tier. */
  ghost function Numbers(rules: Rules, s: set<Row>, tour: string, tier: string, norm: string): set<string> {
    set r | r in s && ClaimOf(rules, r).Held? && r.tour == tour && r.tier == tier && rules.normalise(r.name) == norm ::
      NumberKey(ClaimOf(rules, r).number)
  }

  datatype Place = Place(key: string, link: Link)

  /** Where a row goes among all the rows: the first of a name is bridged to a numbered event
      when exactly one carries the name. */
  ghost predicate IsPlace(rules: Rules, s: set<Row>, r: Row, p: Place) {
    match ClaimOf(rules, r)
    case Team(c) => p == Place(TeamKey(c), ByTeam)
    case Held(n, link) => p == Place(NumberKey(n), link)
    case Named =>
      var norm, ordinal := rules.normalise(r.name), Ordinal(rules, s, r);
      var numbers := Numbers(rules, s, r.tour, r.tier, norm);
      if ordinal > 1 then p == Place(NameKey(r.tier, norm, ordinal), ByName)
      else if |numbers| == 1 then numbers == {p.key} && p.link == Bridged
      else p == Place(NameKey(r.tier, norm, 1), ByName)
  }

  lemma {:induction false} SingleMember<T>(s: set<T>, x: T)
    requires |s| == 1 && x in s
    ensures s == {x}
  {
    assert |s - {x}| == |s| - 1;
    assert s - {x} == {};
  }

  /** A row has only the one place. */
  lemma {:induction false} OnePlace(rules: Rules, s: set<Row>, r: Row, p: Place, q: Place)
    requires IsPlace(rules, s, r, p) && IsPlace(rules, s, r, q)
    ensures p == q
  {
  }

  // ---------------------------------------------------------------- numbering

  ghost predicate DistinctIds(rows: seq<Row>) {
    forall i, j | 0 <= i < j < |rows| :: rows[i].id != rows[j].id
  }

  function RowSet(rows: seq<Row>): set<Row> {
    set r | r in rows
  }

  /** A row and where it stands among the rows waiting on the name rule. */
  datatype Slot = Slot(row: Row, at: nat)

  predicate SlotBefore(a: Slot, b: Slot) {
    Earlier(a.row, b.row)
  }

  predicate NoLater(a: Slot, b: Slot) {
    !SlotBefore(b, a)
  }

  /** The first `n` rows of a group, with their positions. */
  function Slots(rules: Rules, named: seq<Row>, g: Group, n: nat): seq<Slot>
    requires n <= |named|
  {
    if n == 0 then []
    else Slots(rules, named, g, n - 1) + if GroupOf(rules, named[n - 1]) == g then [Slot(named[n - 1], n - 1)] else []
  }

  lemma {:induction false} SlotsAre(rules: Rules, named: seq<Row>, g: Group, n: nat, x: Slot)
    requires n <= |named|
    ensures x in Slots(rules, named, g, n) <==> x.at < n && x.row == named[x.at] && GroupOf(rules, x.row) == g
  {
    if n > 0 {
      SlotsAre(rules, named, g, n - 1, x);
    }
  }

  lemma {:induction false} SlotsRise(rules: Rules, named: seq<Row>, g: Group, n: nat)
    requires n <= |named|
    ensures forall i, j | 0 <= i < j < |Slots(rules, named, g, n)| :: Slots(rules, named, g, n)[i].at < Slots(rules, named, g, n)[j].at
  {
    if n > 0 {
      var before := Slots(rules, named, g, n - 1);
      SlotsRise(rules, named, g, n - 1);
      forall i | 0 <= i < |before|
        ensures before[i].at < n - 1
      {
        SlotsAre(rules, named, g, n - 1, before[i]);
      }
    }
  }

  ghost predicate Grouped(rules: Rules, named: seq<Row>, n: nat, byGroup: map<Group, seq<Slot>>)
    requires n <= |named|
  {
    forall g :: Slots(rules, named, g, n) == if g in byGroup then byGroup[g] else []
  }

  function Filed(byGroup: map<Group, seq<Slot>>, g: Group, x: Slot): map<Group, seq<Slot>> {
    byGroup[g := (if g in byGroup then byGroup[g] else []) + [x]]
  }

  lemma {:induction false} GroupedOneMore(rules: Rules, named: seq<Row>, n: nat, byGroup: map<Group, seq<Slot>>)
    requires n < |named| && Grouped(rules, named, n, byGroup)
    ensures Grouped(rules, named, n + 1, Filed(byGroup, GroupOf(rules, named[n]), Slot(named[n], n)))
  {
  }

  lemma {:induction false} EarlierIsTotal(a: Row, b: Row)
    ensures Earlier(a, b) || Earlier(b, a) || a.id == b.id
  {
    AtMostEither(a.sourceId, b.sourceId);
  }

  lemma {:induction false} EarlierThrough(a: Row, b: Row, c: Row)
    requires !Earlier(b, a) && !Earlier(c, b)
    ensures !Earlier(c, a)
  {
    AtMostEither(a.sourceId, b.sourceId);
    AtMostEither(b.sourceId, c.sourceId);
    if Less(c.sourceId, a.sourceId) {
      if AtMost(a.sourceId, b.sourceId) && AtMost(b.sourceId, c.sourceId) {
        AtMostThrough(a.sourceId, b.sourceId, c.sourceId);
        AtMostBoth(a.sourceId, c.sourceId);
      }
    }
  }

  lemma {:induction false} SlotsOrdered()
    ensures TotalPreorder(NoLater) && Asymmetric(SlotBefore)
  {
    forall a: Slot, b: Slot
      ensures !(SlotBefore(a, b) && SlotBefore(b, a))
    {
      EarlierOneWay(a.row, b.row);
    }
    forall a, b, c | NoLater(a, b) && NoLater(b, c)
      ensures NoLater(a, c)
    {
      EarlierThrough(a.row, b.row, c.row);
    }
  }

  lemma {:induction false} EarlierOneWay(a: Row, b: Row)
    ensures !(Earlier(a, b) && Earlier(b, a))
  {
    if AtMost(a.sourceId, b.sourceId) && AtMost(b.sourceId, a.sourceId) {
      AtMostBoth(a.sourceId, b.sourceId);
    }
  }

  /** A whole group in calendar order: the k-th of it has k - 1 rows ahead. */
  ghost predicate InCalendarOrder(rules: Rules, named: seq<Row>, g: Group, ordered: seq<Slot>) {
    && (forall x :: x in ordered <==> x.at < |named| && x.row == named[x.at] && GroupOf(rules, x.row) == g)
    && Increasing(ordered, SlotBefore)
  }

  lemma {:induction false} SortedSlots(rules: Rules, named: seq<Row>, g: Group)
    requires DistinctIds(named)
    ensures InCalendarOrder(rules, named, g, Sort(Slots(rules, named, g, |named|), NoLater))
  {
    var slots := Slots(rules, named, g, |named|);
    SlotsOrdered();
    SlotsRise(rules, named, g, |named|);
    forall i, j | 0 <= i < j < |slots|
      ensures SlotBefore(slots[i], slots[j]) || SlotBefore(slots[j], slots[i])
    {
      SlotsAre(rules, named, g, |named|, slots[i]);
      SlotsAre(rules, named, g, |named|, slots[j]);
      EarlierIsTotal(slots[i].row, slots[j].row);
      DifferentIds(named, slots[i].at, slots[j].at);
    }
    SortIncreases(slots, NoLater, SlotBefore);
    forall x
      ensures x in Sort(slots, NoLater) <==> x.at < |named| && x.row == named[x.at] && GroupOf(rules, x.row) == g
    {
      SlotsAre(rules, named, g, |named|, x);
    }
  }

  lemma {:induction false} DifferentIds(rows: seq<Row>, i: nat, j: nat)
    requires DistinctIds(rows) && i < |rows| && j < |rows| && i != j
    ensures rows[i].id != rows[j].id
  {
  }

  ghost function FirstRows(ordered: seq<Slot>, k: nat): set<Row>
    requires k <= |ordered|
  {
    if k == 0 then {} else FirstRows(ordered, k - 1) + {ordered[k - 1].row}
  }

  lemma {:induction false} FirstRowsHave(ordered: seq<Slot>, k: nat, r: Row)
    requires k <= |ordered|
    ensures r in FirstRows(ordered, k) <==> exists i :: 0 <= i < k && ordered[i].row == r
  {
    if k > 0 {
      FirstRowsHave(ordered, k - 1, r);
    }
  }

  lemma {:induction false} FirstRowsCount(ordered: seq<Slot>, k: nat)
    requires k <= |ordered| && forall i, j | 0 <= i < j < |ordered| :: ordered[i].row != ordered[j].row
    ensures |FirstRows(ordered, k)| == k
  {
    if k > 0 {
      FirstRowsCount(ordered, k - 1);
      FirstRowsHave(ordered, k - 1, ordered[k - 1].row);
    }
  }

  /** The place of a row in its group, in calendar order, is its ordinal. */
  lemma {:induction false} OrdinalIsPosition(rules: Rules, named: seq<Row>, s: set<Row>, g: Group, ordered: seq<Slot>, k: nat)
    requires forall r :: r in named <==> r in s && ClaimOf(rules, r) == Named
    requires InCalendarOrder(rules, named, g, ordered) && k < |ordered|
    ensures ordered[k].row in s && Ordinal(rules, s, ordered[k].row) == k + 1
  {
    var r := ordered[k].row;
    forall i, j | 0 <= i < j < |ordered|
      ensures ordered[i].row != ordered[j].row
    {
      EarlierOneWay(ordered[i].row, ordered[j].row);
    }
    FirstRowsCount(ordered, k);
    assert ordered[k] in ordered;
    forall q
      ensures q in Ahead(rules, s, r) <==> q in FirstRows(ordered, k)
    {
      AheadIsEarlierInLine(rules, named, s, g, ordered, k, q);
      FirstRowsHave(ordered, k, q);
    }
    assert Ahead(rules, s, r) == FirstRows(ordered, k);
  }

  lemma {:induction false} AheadIsEarlierInLine(rules: Rules, named: seq<Row>, s: set<Row>, g: Group, ordered: seq<Slot>, k: nat, q: Row)
    requires forall r :: r in named <==> r in s && ClaimOf(rules, r) == Named
    requires InCalendarOrder(rules, named, g, ordered) && k < |ordered|
    ensures q in Ahead(rules, s, ordered[k].row) <==> exists i :: 0 <= i < k && ordered[i].row == q
  {
    assert ordered[k] in ordered;
    if q in Ahead(rules, s, ordered[k].row) {
      var at: nat :| at < |named| && named[at] == q;
      assert Slot(q, at) in ordered;
      var i :| 0 <= i < |ordered| && ordered[i] == Slot(q, at);
      if i >= k {
        EarlierOneWay(q, ordered[k].row);
      }
    }
    if i :| 0 <= i < k && ordered[i].row == q {
      assert ordered[i] in ordered;
    }
  }

  /** Numbers the rows that share a name, tour, tier and season in the order they were played. */
  method OrdinalsWithinSeason(rules: Rules, named: seq<Row>, ghost s: set<Row>) returns (ordinals: array<int>)
    requires DistinctIds(named) && forall r :: r in named <==> r in s && ClaimOf(rules, r) == Named
    ensures fresh(ordinals) && ordinals.Length == |named|
    ensures forall i | 0 <= i < |named| :: ordinals[i] == Ordinal(rules, s, named[i])
  {
    var byGroup: map<Group, seq<Slot>> := map[];
    for i := 0 to |named|
      invariant Grouped(rules, named, i, byGroup)
    {
      GroupedOneMore(rules, named, i, byGroup);
      byGroup := Filed(byGroup, GroupOf(rules, named[i]), Slot(named[i], i));
    }
    ordinals := new int[|named|](_ => 0);
    var rest := byGroup.Keys;
    while rest != {}
      invariant rest <= byGroup.Keys && fresh(ordinals)
      invariant forall i | 0 <= i < |named| && GroupOf(rules, named[i]) in byGroup.Keys - rest ::
                  ordinals[i] == Ordinal(rules, s, named[i])
      decreases |rest|
    {
      var g :| g in rest;
      assert Slots(rules, named, g, |named|) == byGroup[g];
      SortedSlots(rules, named, g);
      NumberGroup(rules, named, s, g, Sort(byGroup[g], NoLater), ordinals);
      rest := rest - {g};
    }
    forall i | 0 <= i < |named|
      ensures GroupOf(rules, named[i]) in byGroup.Keys
    {
      SlotsAre(rules, named, GroupOf(rules, named[i]), |named|, Slot(named[i], i));
    }
  }

  method NumberGroup(rules: Rules, named: seq<Row>, ghost s: set<Row>, ghost g: Group, ordered: seq<Slot>, ordinals: array<int>)
    requires forall r :: r in named <==> r in s && ClaimOf(rules, r) == Named
    requires InCalendarOrder(rules, named, g, ordered) && ordinals.Length == |named|
    modifies ordinals
    ensures forall i | 0 <= i < |named| && GroupOf(rules, named[i]) == g :: ordinals[i] == Ordinal(rules, s, named[i])
    ensures forall i | 0 <= i < |named| && GroupOf(rules, named[i]) != g :: ordinals[i] == old(ordinals[i])
  {
    for k := 0 to |ordered|
      invariant forall j | 0 <= j < k :: ordered[j].at < |named| && ordinals[ordered[j].at] == j + 1
      invariant forall i | 0 <= i < |named| && GroupOf(rules, named[i]) != g :: ordinals[i] == old(ordinals[i])
    {
      assert ordered[k] in ordered;
      forall j | 0 <= j < k
        ensures ordered[j].at != ordered[k].at
      {
        EarlierOneWay(ordered[j].row, ordered[k].row);
        assert ordered[j] in ordered;
      }
      ordinals[ordered[k].at] := k + 1;
    }
    forall i | 0 <= i < |named| && GroupOf(rules, named[i]) == g
      ensures ordinals[i] == Ordinal(rules, s, named[i])
    {
      assert Slot(named[i], i) in ordered;
      var k: nat :| k < |ordered| && ordered[k] == Slot(named[i], i);
      OrdinalIsPosition(rules, named, s, g, ordered, k);
    }
  }
}
