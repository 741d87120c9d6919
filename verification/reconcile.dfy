/** The merge plan among the players of one tour (internal/identity/identity.go). */
module Reconciling {
  import opened Collections
  import opened Identity
  import opened Sorting

  ghost predicate DistinctIds(ps: seq<Player>) {
    forall i, j | 0 <= i < j < |ps| :: ps[i].id != ps[j].id
  }

  // ---------------------------------------------------------------- two ids of one source

  /** The longer career first, the lower id between equals. */
  predicate Longer(p: Player, q: Player) {
    p.matches > q.matches || (p.matches == q.matches && p.id < q.id)
  }

  predicate SameDay(p: Player, q: Player) {
    p.birthDate.Some? && p.birthDate == q.birthDate
  }

  /** Nobody born the same day has the longer career; a row without a date leads itself. */
  ghost predicate Leads(anchored: seq<Player>, p: Player) {
    forall q | q in anchored && SameDay(p, q) && q != p :: Longer(p, q)
  }

  /** Who leads a day: whoever has more matches than every other row of it or, of those with as
      many, the lowest id. */
  lemma {:induction false} LeadsMeans(anchored: seq<Player>, p: Player)
    ensures Leads(anchored, p) <==>
              p.birthDate.None? || forall q | q in anchored && q.birthDate == p.birthDate && q != p ::
                                     p.matches > q.matches || (p.matches == q.matches && p.id < q.id)
  {
  }

  /** A backed row folded into the longest career of its day. */
  ghost predicate IsFold(anchored: seq<Player>, m: Link) {
    && m.duplicate in anchored && m.canonical in anchored && SameDay(m.canonical, m.duplicate)
    && Leads(anchored, m.canonical) && !Leads(anchored, m.duplicate)
    && m.confidence == Score(m.canonical, m.duplicate)
  }

  ghost predicate Folds(links: seq<Link>, p: Player) {
    exists i :: 0 <= i < |links| && links[i].duplicate == p
  }

  ghost predicate OnceEach(links: seq<Link>) {
    forall i, j | 0 <= i < j < |links| :: links[i].duplicate.id != links[j].duplicate.id
  }

  lemma {:induction false} FoldsEither(a: seq<Link>, b: seq<Link>, p: Player)
    ensures Folds(a + b, p) <==> Folds(a, p) || Folds(b, p)
  {
    if Folds(a, p) {
      var i :| 0 <= i < |a| && a[i].duplicate == p;
      assert (a + b)[i].duplicate == p;
    }
    if Folds(b, p) {
      var i :| 0 <= i < |b| && b[i].duplicate == p;
      assert (a + b)[|a| + i].duplicate == p;
    }
  }

  lemma {:induction false} SameIdSameRow(ps: seq<Player>, p: Player, q: Player)
    requires DistinctIds(ps) && p in ps && q in ps && p.id == q.id
    ensures p == q
  {
  }

  /** The players among the first `n` born on a day. */
  function OnDay(anchored: seq<Player>, day: Date, n: nat): seq<Player>
    requires n <= |anchored|
  {
    if n == 0 then []
    else OnDay(anchored, day, n - 1) + if anchored[n - 1].birthDate == Some(day) then [anchored[n - 1]] else []
  }

  lemma {:induction false} OnDayMembers(anchored: seq<Player>, day: Date, n: nat, p: Player)
    requires n <= |anchored|
    ensures p in OnDay(anchored, day, n) <==> p in anchored[..n] && p.birthDate == Some(day)
  {
    if n > 0 {
      OnDayMembers(anchored, day, n - 1, p);
      assert anchored[..n] == anchored[..n - 1] + [anchored[n - 1]];
    }
  }

  lemma {:induction false} OnDayDistinct(anchored: seq<Player>, day: Date, n: nat)
    requires n <= |anchored| && DistinctIds(anchored)
    ensures DistinctIds(OnDay(anchored, day, n))
  {
    if n > 0 {
      var before := OnDay(anchored, day, n - 1);
      OnDayDistinct(anchored, day, n - 1);
      forall i | 0 <= i < |before|
        ensures before[i].id != anchored[n - 1].id
      {
        OnDayMembers(anchored, day, n - 1, before[i]);
        var x :| 0 <= x < n - 1 && anchored[x] == before[i];
      }
    }
  }

  /** The dated rows among the first `n`, by day of birth. */
  ghost predicate Grouped(anchored: seq<Player>, n: nat, byDay: map<Date, seq<Player>>)
    requires n <= |anchored|
  {
    forall d :: OnDay(anchored, d, n) == if d in byDay then byDay[d] else []
  }

  function Filed(byDay: map<Date, seq<Player>>, day: Date, p: Player): map<Date, seq<Player>> {
    byDay[day := (if day in byDay then byDay[day] else []) + [p]]
  }

  lemma {:induction false} GroupedOneMore(anchored: seq<Player>, n: nat, byDay: map<Date, seq<Player>>)
    requires n < |anchored| && Grouped(anchored, n, byDay)
    ensures Grouped(anchored, n + 1,
                    if anchored[n].birthDate.None? then byDay else Filed(byDay, anchored[n].birthDate.value, anchored[n]))
  {
  }

  ghost predicate NoneEmpty(byDay: map<Date, seq<Player>>) {
    forall d | d in byDay :: byDay[d] != []
  }

  lemma {:induction false} FiledNoneEmpty(byDay: map<Date, seq<Player>>, day: Date, p: Player)
    requires NoneEmpty(byDay)
    ensures NoneEmpty(Filed(byDay, day, p))
  {
  }

  /** Groups the dated rows by day of birth. */
  method GroupByDay(anchored: seq<Player>) returns (byDay: map<Date, seq<Player>>)
    ensures Grouped(anchored, |anchored|, byDay) && NoneEmpty(byDay)
  {
    byDay := map[];
    for i := 0 to |anchored|
      invariant Grouped(anchored, i, byDay) && NoneEmpty(byDay)
    {
      GroupedOneMore(anchored, i, byDay);
      if anchored[i].birthDate.Some? {
        FiledNoneEmpty(byDay, anchored[i].birthDate.value, anchored[i]);
        byDay := Filed(byDay, anchored[i].birthDate.value, anchored[i]);
      }
    }
  }

  predicate NoShorter(p: Player, q: Player) {
    !Longer(q, p)
  }

  /** The whole of a day: its rows, longest career first. */
  ghost predicate IsDay(anchored: seq<Player>, day: Date, ordered: seq<Player>) {
    && ordered != [] && Increasing(ordered, Longer)
    && (forall p :: p in ordered <==> p in anchored && p.birthDate == Some(day))
  }

  lemma {:induction false} SortedIsDay(anchored: seq<Player>, day: Date)
    requires DistinctIds(anchored) && OnDay(anchored, day, |anchored|) != []
    ensures IsDay(anchored, day, Sort(OnDay(anchored, day, |anchored|), NoShorter))
  {
    var ps := OnDay(anchored, day, |anchored|);
    OnDayDistinct(anchored, day, |anchored|);
    SortIncreases(ps, NoShorter, Longer);
    forall p
      ensures p in ps <==> p in anchored && p.birthDate == Some(day)
    {
      OnDayMembers(anchored, day, |anchored|, p);
      assert anchored[..|anchored|] == anchored;
    }
  }

  lemma {:induction false} FirstLeads(anchored: seq<Player>, day: Date, ordered: seq<Player>)
    requires IsDay(anchored, day, ordered)
    ensures Leads(anchored, ordered[0])
    ensures forall i | 0 < i < |ordered| :: !Leads(anchored, ordered[i])
  {
  }

  /** Part of a day: every row after the first, up to the `n`-th, folded into the first. */
  ghost predicate DayFolded(anchored: seq<Player>, ordered: seq<Player>, n: nat, links: seq<Link>)
    requires 0 < n <= |ordered|
  {
    && |links| == n - 1
    && forall i | 0 <= i < n - 1 :: links[i].duplicate == ordered[i + 1] && IsFold(anchored, links[i])
  }

  /** The ids of the rows from the second up to the `n`-th. */
  function Followers(ordered: seq<Player>, n: nat): set<int>
    requires n <= |ordered|
  {
    if n <= 1 then {} else Followers(ordered, n - 1) + {ordered[n - 1].id}
  }

  /** One more follower of a day: its link to the first row, always worth proposing. */
  lemma {:induction false} FoldOneMore(anchored: seq<Player>, day: Date, ordered: seq<Player>, n: nat, links: seq<Link>)
    requires IsDay(anchored, day, ordered) && 0 < n < |ordered| && DayFolded(anchored, ordered, n, links)
    ensures Score(ordered[0], ordered[n]) >= REVIEW_FLOOR
    ensures DayFolded(anchored, ordered, n + 1, links + [Link(ordered[0], ordered[n], Score(ordered[0], ordered[n]))])
  {
  }

  method FoldDay(anchored: seq<Player>, ghost day: Date, ordered: seq<Player>) returns (links: seq<Link>, dropped: set<int>)
    requires IsDay(anchored, day, ordered)
    ensures DayFolded(anchored, ordered, |ordered|, links) && dropped == Followers(ordered, |ordered|)
  {
    links, dropped := [], {};
    for n := 1 to |ordered|
      invariant DayFolded(anchored, ordered, n, links) && dropped == Followers(ordered, n)
    {
      FoldOneMore(anchored, day, ordered, n, links);
      var confidence := Score(ordered[0], ordered[n]);
      if confidence >= REVIEW_FLOOR {
        links, dropped := links + [Link(ordered[0], ordered[n], confidence)], dropped + {ordered[n].id};
      }
    }
  }

  lemma {:induction false} FollowersAre(ordered: seq<Player>, n: nat, id: int)
    requires n <= |ordered|
    ensures id in Followers(ordered, n) <==> exists i :: 0 < i < n && ordered[i].id == id
  {
    if n > 1 {
      FollowersAre(ordered, n - 1, id);
    }
  }

  /** The days done so far: exactly their followers are folded away, once each. */
  ghost predicate DaysFolded(anchored: seq<Player>, done: set<Date>, folded: seq<Link>, dropped: set<int>) {
    && (forall p | p in anchored ::
          p.id in dropped <==> p.birthDate.Some? && p.birthDate.value in done && !Leads(anchored, p))
    && (forall i | 0 <= i < |folded| :: IsFold(anchored, folded[i]) && folded[i].duplicate.birthDate.value in done)
    && (forall p | p in anchored && p.birthDate.Some? && p.birthDate.value in done && !Leads(anchored, p) :: Folds(folded, p))
    && OnceEach(folded)
  }

  lemma {:induction false} FollowersApart(anchored: seq<Player>, day: Date, ordered: seq<Player>, i: nat, j: nat)
    requires DistinctIds(anchored) && IsDay(anchored, day, ordered) && i < j < |ordered|
    ensures ordered[i].id != ordered[j].id
  {
  }

  lemma {:induction false} DayLinks(anchored: seq<Player>, day: Date, ordered: seq<Player>, links: seq<Link>)
    requires DistinctIds(anchored) && IsDay(anchored, day, ordered) && DayFolded(anchored, ordered, |ordered|, links)
    ensures OnceEach(links)
    ensures forall i | 0 <= i < |links| :: IsFold(anchored, links[i]) && links[i].duplicate.birthDate == Some(day)
    ensures forall p | p in ordered && p != ordered[0] :: Folds(links, p)
  {
    forall i | 0 <= i < |links|
      ensures links[i].duplicate.birthDate == Some(day)
    {
      assert ordered[i + 1] in ordered;
    }
    forall i, j | 0 <= i < j < |links|
      ensures links[i].duplicate.id != links[j].duplicate.id
    {
      FollowersApart(anchored, day, ordered, i + 1, j + 1);
    }
    forall p | p in ordered && p != ordered[0]
      ensures Folds(links, p)
    {
      var x :| 0 <= x < |ordered| && ordered[x] == p;
      assert links[x - 1].duplicate == p;
    }
  }

  /** Among the backed rows, a day's followers are exactly the rows of that day that do not lead it. */
  lemma {:induction false} FollowersDoNotLead(anchored: seq<Player>, day: Date, ordered: seq<Player>, p: Player)
    requires DistinctIds(anchored) && IsDay(anchored, day, ordered) && p in anchored
    ensures p.id in Followers(ordered, |ordered|) <==> p.birthDate == Some(day) && !Leads(anchored, p)
  {
    FirstLeads(anchored, day, ordered);
    FollowersAre(ordered, |ordered|, p.id);
    if p.id in Followers(ordered, |ordered|) {
      var i :| 0 < i < |ordered| && ordered[i].id == p.id;
      assert ordered[i] in ordered;
      SameIdSameRow(anchored, p, ordered[i]);
    } else if p.birthDate == Some(day) {
      var i :| 0 <= i < |ordered| && ordered[i] == p;
    }
  }

  lemma {:induction false} DayDropped(anchored: seq<Player>, done: set<Date>, folded: seq<Link>, dropped: set<int>, day: Date, ordered: seq<Player>,
                                     p: Player)
    requires DistinctIds(anchored) && DaysFolded(anchored, done, folded, dropped) && p in anchored
    requires IsDay(anchored, day, ordered)
    ensures p.id in dropped + Followers(ordered, |ordered|) <==>
            p.birthDate.Some? && p.birthDate.value in done + {day} && !Leads(anchored, p)
  {
    FollowersDoNotLead(anchored, day, ordered, p);
  }

  lemma {:induction false} DayOnce(anchored: seq<Player>, done: set<Date>, folded: seq<Link>, dropped: set<int>, day: Date, links: seq<Link>)
    requires DistinctIds(anchored) && DaysFolded(anchored, done, folded, dropped) && day !in done && OnceEach(links)
    requires forall i | 0 <= i < |links| :: IsFold(anchored, links[i]) && links[i].duplicate.birthDate == Some(day)
    ensures OnceEach(folded + links)
  {
    forall i, j | 0 <= i < |folded| && 0 <= j < |links|
      ensures folded[i].duplicate.id != links[j].duplicate.id
    {
      if folded[i].duplicate.id == links[j].duplicate.id {
        SameIdSameRow(anchored, folded[i].duplicate, links[j].duplicate);
      }
    }
  }

  lemma {:induction false} DayDone(anchored: seq<Player>, done: set<Date>, folded: seq<Link>, dropped: set<int>,
                                  day: Date, ordered: seq<Player>, links: seq<Link>)
    requires DistinctIds(anchored) && DaysFolded(anchored, done, folded, dropped) && day !in done
    requires IsDay(anchored, day, ordered) && DayFolded(anchored, ordered, |ordered|, links)
    ensures DaysFolded(anchored, done + {day}, folded + links, dropped + Followers(ordered, |ordered|))
  {
    FirstLeads(anchored, day, ordered);
    DayLinks(anchored, day, ordered, links);
    DayOnce(anchored, done, folded, dropped, day, links);
    forall p | p in anchored
      ensures p.id in dropped + Followers(ordered, |ordered|) <==>
              p.birthDate.Some? && p.birthDate.value in done + {day} && !Leads(anchored, p)
    {
      DayDropped(anchored, done, folded, dropped, day, ordered, p);
    }
    forall p | p in anchored && p.birthDate.Some? && p.birthDate.value in done + {day} && !Leads(anchored, p)
      ensures Folds(folded + links, p)
    {
      FoldsEither(folded, links, p);
      if p.birthDate == Some(day) {
        assert p in ordered;
      }
    }
  }

  /** Folds the source's own duplicates; what remains is every row that leads its day. */
  method FoldSameSource(anchored: seq<Player>) returns (folded: seq<Link>, remaining: seq<Player>)
    requires DistinctIds(anchored)
    ensures forall i | 0 <= i < |folded| :: IsFold(anchored, folded[i])
    ensures forall p | p in anchored && !Leads(anchored, p) :: Folds(folded, p)
    ensures OnceEach(folded)
    ensures forall p :: p in remaining <==> p in anchored && Leads(anchored, p)
    ensures DistinctIds(remaining)
  {
    var byDay := GroupByDay(anchored);
    var rest: set<Date>, dropped: set<int> := byDay.Keys, {};
    folded := [];
    while rest != {}
      invariant rest <= byDay.Keys && DaysFolded(anchored, byDay.Keys - rest, folded, dropped)
      decreases |rest|
    {
      var day :| day in rest;
      assert OnDay(anchored, day, |anchored|) == byDay[day];
      SortedIsDay(anchored, day);
      var ordered := Sort(byDay[day], NoShorter);
      var links: seq<Link>, gone: set<int> := FoldDay(anchored, day, ordered);
      DayDone(anchored, byDay.Keys - rest, folded, dropped, day, ordered, links);
      OneFewerLeft(byDay.Keys, rest, day);
      folded, dropped, rest := folded + links, dropped + gone, rest - {day};
    }
    FollowersAreDated(anchored, byDay);
    assert byDay.Keys - {} == byDay.Keys;
    remaining := Kept(anchored, dropped, |anchored|);
    KeptDistinct(anchored, dropped, |anchored|);
    KeptLead(anchored, byDay.Keys, folded, dropped);
  }

  lemma {:induction false} FollowersAreDated(anchored: seq<Player>, byDay: map<Date, seq<Player>>)
    requires Grouped(anchored, |anchored|, byDay)
    ensures forall p | p in anchored && !Leads(anchored, p) :: p.birthDate.Some? && p.birthDate.value in byDay
  {
    forall p | p in anchored && !Leads(anchored, p)
      ensures p.birthDate.Some? && p.birthDate.value in byDay
    {
      OnDayMembers(anchored, p.birthDate.value, |anchored|, p);
      assert anchored[..|anchored|] == anchored;
    }
  }

  /** The rows not dropped, in order. */
  function Kept(anchored: seq<Player>, dropped: set<int>, n: nat): seq<Player>
    requires n <= |anchored|
  {
    if n == 0 then []
    else Kept(anchored, dropped, n - 1) + if anchored[n - 1].id in dropped then [] else [anchored[n - 1]]
  }

  lemma {:induction false} KeptMembers(anchored: seq<Player>, dropped: set<int>, n: nat, p: Player)
    requires n <= |anchored|
    ensures p in Kept(anchored, dropped, n) <==> p in anchored[..n] && p.id !in dropped
  {
    if n > 0 {
      KeptMembers(anchored, dropped, n - 1, p);
      assert anchored[..n] == anchored[..n - 1] + [anchored[n - 1]];
    }
  }

  lemma {:induction false} KeptDistinct(anchored: seq<Player>, dropped: set<int>, n: nat)
    requires n <= |anchored| && DistinctIds(anchored)
    ensures DistinctIds(Kept(anchored, dropped, n))
  {
    if n > 0 {
      var before := Kept(anchored, dropped, n - 1);
      KeptDistinct(anchored, dropped, n - 1);
      forall i | 0 <= i < |before|
        ensures before[i].id != anchored[n - 1].id
      {
        KeptMembers(anchored, dropped, n - 1, before[i]);
        var x :| 0 <= x < n - 1 && anchored[x] == before[i];
      }
    }
  }

  lemma {:induction false} KeptLead(anchored: seq<Player>, days: set<Date>, folded: seq<Link>, dropped: set<int>)
    requires DaysFolded(anchored, days, folded, dropped)
    requires forall p | p in anchored && !Leads(anchored, p) :: p.birthDate.Some? && p.birthDate.value in days
    ensures forall p :: p in Kept(anchored, dropped, |anchored|) <==> p in anchored && Leads(anchored, p)
  {
    assert anchored[..|anchored|] == anchored;
    forall p
      ensures p in Kept(anchored, dropped, |anchored|) <==> p in anchored && Leads(anchored, p)
    {
      KeptMembers(anchored, dropped, |anchored|, p);
    }
  }
}
