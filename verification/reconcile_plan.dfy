/** The whole plan: stubs onto the best of the rows that remain, group by group. */
module ReconcilePlan {
  import opened Collections
  import opened Identity
  import opened Reconciling

  // ---------------------------------------------------------------- one stub

  /** The link of a stub: to a best candidate, worth proposing, and sent to review where another does as well. */
  ghost predicate IsStubLink(candidates: seq<Player>, m: Link) {
    && m.canonical in candidates && Score(m.canonical, m.duplicate) >= REVIEW_FLOOR
    && (forall c | c in candidates :: Score(c, m.duplicate) <= Score(m.canonical, m.duplicate))
    && m.confidence == if Tied(candidates, m) then REVIEW_FLOOR else Score(m.canonical, m.duplicate)
  }

  ghost predicate Tied(candidates: seq<Player>, m: Link) {
    exists c :: c in candidates && c != m.canonical && Score(c, m.duplicate) >= Score(m.canonical, m.duplicate)
  }

  ghost predicate Matched(candidates: seq<Player>, dup: Player) {
    exists c :: c in candidates && Score(c, dup) >= REVIEW_FLOOR
  }

  lemma {:induction false} TiedMeans(candidates: seq<Player>, m: Link, best: nat, second: Option<nat>)
    requires DistinctIds(candidates) && best < |candidates| && m.canonical == candidates[best]
    requires second.None? <==> |candidates| < 2
    requires second.Some? ==> IsSecond(candidates, m.duplicate, |candidates|, best, second.value)
    ensures Tied(candidates, m) <==> second.Some? && Score(candidates[second.value], m.duplicate) >= Score(m.canonical, m.duplicate)
  {
  }

  lemma {:induction false} BestOfAll(candidates: seq<Player>, dup: Player, best: nat)
    requires IsBest(candidates, dup, |candidates|, best)
    ensures forall c | c in candidates :: Score(c, dup) <= Score(candidates[best], dup)
    ensures Matched(candidates, dup) <==> Score(candidates[best], dup) >= REVIEW_FLOOR
  {
  }

  method LinkStub(candidates: seq<Player>, dup: Player) returns (link: Option<Link>)
    requires DistinctIds(candidates)
    ensures link.Some? <==> Matched(candidates, dup)
    ensures link.Some? ==> link.value.duplicate == dup && IsStubLink(candidates, link.value)
  {
    var best: Option<nat>, second: Option<nat> := BestTwo(candidates, dup);
    if best.None? {
      return None;
    }
    var canonical := candidates[best.value];
    BestOfAll(candidates, dup, best.value);
    var confidence := Score(canonical, dup);
    if confidence < REVIEW_FLOOR {
      return None;
    }
    TiedMeans(candidates, Link(canonical, dup, confidence), best.value, second);
    if second.Some? && Score(candidates[second.value], dup) >= confidence {
      assert Tied(candidates, Link(canonical, dup, REVIEW_FLOOR)) by {
        TiedMeans(candidates, Link(canonical, dup, REVIEW_FLOOR), best.value, second);
      }
      return Some(Link(canonical, dup, REVIEW_FLOOR));
    }
    return Some(Link(canonical, dup, confidence));
  }

  /** How sure a stub's link is said to be: as sure as it scores, unless another candidate scores as
      well, when it is 0.50, which is not enough to merge unasked; nothing below that is proposed. */
  lemma {:induction false} StubLinkSays(candidates: seq<Player>, m: Link)
    requires IsStubLink(candidates, m)
    ensures (exists c :: c in candidates && c != m.canonical && Score(c, m.duplicate) >= Score(m.canonical, m.duplicate))
            ==> m.confidence == 0.50
    ensures (forall c | c in candidates && c != m.canonical :: Score(c, m.duplicate) < Score(m.canonical, m.duplicate))
            ==> m.confidence == Score(m.canonical, m.duplicate)
    ensures m.confidence >= 0.50 && (m.Auto() <==> m.confidence >= 0.90)
  {
  }

  // ---------------------------------------------------------------- one group

  function Backed(group: seq<Player>, n: nat): seq<Player>
    requires n <= |group|
  {
    if n == 0 then [] else Backed(group, n - 1) + if group[n - 1].Stub() then [] else [group[n - 1]]
  }

  function Stubs(group: seq<Player>, n: nat): seq<Player>
    requires n <= |group|
  {
    if n == 0 then [] else Stubs(group, n - 1) + if group[n - 1].Stub() then [group[n - 1]] else []
  }

  lemma {:induction false} SplitMembers(group: seq<Player>, n: nat, p: Player)
    requires n <= |group|
    ensures p in Backed(group, n) <==> p in group[..n] && !p.Stub()
    ensures p in Stubs(group, n) <==> p in group[..n] && p.Stub()
  {
    if n > 0 {
      SplitMembers(group, n - 1, p);
      assert group[..n] == group[..n - 1] + [group[n - 1]];
    }
  }

  lemma {:induction false} SplitDistinct(group: seq<Player>, n: nat)
    requires n <= |group| && DistinctIds(group)
    ensures DistinctIds(Backed(group, n)) && DistinctIds(Stubs(group, n))
  {
    if n > 0 {
      SplitDistinct(group, n - 1);
      var backed, stubs := Backed(group, n - 1), Stubs(group, n - 1);
      forall i | 0 <= i < |backed|
        ensures backed[i].id != group[n - 1].id
      {
        EarlierDiffers(group, n, backed[i]);
      }
      forall i | 0 <= i < |stubs|
        ensures stubs[i].id != group[n - 1].id
      {
        EarlierDiffers(group, n, stubs[i]);
      }
    }
  }

  lemma {:induction false} EarlierDiffers(group: seq<Player>, n: nat, p: Player)
    requires 0 < n <= |group| && DistinctIds(group) && (p in Backed(group, n - 1) || p in Stubs(group, n - 1))
    ensures p.id != group[n - 1].id
  {
    SplitMembers(group, n - 1, p);
    var x :| 0 <= x < n - 1 && group[x] == p;
  }

  /** The rows of a group a stub may be folded into: backed, and leading their day. */
  ghost predicate Candidate(group: seq<Player>, c: Player) {
    c in group && !c.Stub() && Leads(Backed(group, |group|), c)
  }

  ghost predicate Candidates(group: seq<Player>, cs: seq<Player>) {
    DistinctIds(cs) && forall c :: c in cs <==> Candidate(group, c)
  }

  /** What the plan says of a row: a stub is folded if some candidate is worth proposing, a
      backed row if it does not lead its day. */
  ghost predicate ToBeFolded(group: seq<Player>, p: Player) {
    if p.Stub() then exists c :: Candidate(group, c) && Score(c, p) >= REVIEW_FLOOR
    else !Leads(Backed(group, |group|), p)
  }

  ghost predicate Contested(group: seq<Player>, m: Link) {
    exists c :: Candidate(group, c) && c != m.canonical && Score(c, m.duplicate) >= Score(m.canonical, m.duplicate)
  }

  /** A link of a group's plan. A stub goes to a best candidate, and to review where another
      does as well; a backed row goes to the longest career of its day. */
  ghost predicate IsLink(group: seq<Player>, m: Link) {
    && m.duplicate in group && Candidate(group, m.canonical)
    && if !m.duplicate.Stub() then IsFold(Backed(group, |group|), m)
       else
         && Score(m.canonical, m.duplicate) >= REVIEW_FLOOR
         && (forall c | Candidate(group, c) :: Score(c, m.duplicate) <= Score(m.canonical, m.duplicate))
         && m.confidence == if Contested(group, m) then REVIEW_FLOOR else Score(m.canonical, m.duplicate)
  }

  /** The plan of a group. */
  ghost predicate IsPlan(group: seq<Player>, links: seq<Link>) {
    && OnceEach(links)
    && (forall i | 0 <= i < |links| :: IsLink(group, links[i]))
    && (forall p | p in group :: Folds(links, p) <==> ToBeFolded(group, p))
  }

  lemma {:induction false} StubLinkIsLink(group: seq<Player>, cs: seq<Player>, m: Link)
    requires Candidates(group, cs) && m.duplicate in group && m.duplicate.Stub() && IsStubLink(cs, m)
    ensures IsLink(group, m)
  {
  }

  lemma {:induction false} MatchedMeans(group: seq<Player>, cs: seq<Player>, p: Player)
    requires Candidates(group, cs) && p.Stub()
    ensures Matched(cs, p) <==> ToBeFolded(group, p)
  {
  }

  /** The links of the first `n` stubs. */
  ghost predicate StubsLinked(cs: seq<Player>, stubs: seq<Player>, n: nat, links: seq<Link>)
    requires n <= |stubs|
  {
    && (forall i | 0 <= i < |links| :: links[i].duplicate in stubs[..n] && IsStubLink(cs, links[i]))
    && (forall i | 0 <= i < n :: Folds(links, stubs[i]) <==> Matched(cs, stubs[i]))
    && OnceEach(links)
  }

  lemma {:induction false} StubsLinkedOneMore(cs: seq<Player>, stubs: seq<Player>, n: nat, links: seq<Link>, link: Option<Link>)
    requires n < |stubs| && DistinctIds(stubs) && StubsLinked(cs, stubs, n, links)
    requires link.Some? <==> Matched(cs, stubs[n])
    requires link.Some? ==> link.value.duplicate == stubs[n] && IsStubLink(cs, link.value)
    ensures StubsLinked(cs, stubs, n + 1, links + if link.Some? then [link.value] else [])
  {
    var new_ := if link.Some? then [link.value] else [];
    assert stubs[..n + 1] == stubs[..n] + [stubs[n]];
    forall i | 0 <= i < |links|
      ensures links[i].duplicate.id != stubs[n].id
    {
      var x :| 0 <= x < n && stubs[..n][x] == links[i].duplicate;
      assert stubs[x].id != stubs[n].id;
    }
    forall i | 0 <= i < n + 1
      ensures Folds(links + new_, stubs[i]) <==> Matched(cs, stubs[i])
    {
      FoldsEither(links, new_, stubs[i]);
      if i < n {
        assert stubs[i].id != stubs[n].id;
        assert !Folds(new_, stubs[i]);
      } else if link.Some? {
        assert new_[0].duplicate == stubs[n];
      }
    }
  }

  method LinkStubs(cs: seq<Player>, stubs: seq<Player>) returns (links: seq<Link>)
    requires DistinctIds(cs) && DistinctIds(stubs)
    ensures StubsLinked(cs, stubs, |stubs|, links)
  {
    links := [];
    for n := 0 to |stubs|
      invariant StubsLinked(cs, stubs, n, links)
    {
      var link := LinkStub(cs, stubs[n]);
      StubsLinkedOneMore(cs, stubs, n, links, link);
      links := links + if link.Some? then [link.value] else [];
    }
  }

  /** Stubs and the source's own duplicates together, the stubs first. */
  lemma {:induction false} TogetherAPlan(group: seq<Player>, cs: seq<Player>, links: seq<Link>, folded: seq<Link>)
    requires DistinctIds(group) && Candidates(group, cs)
    requires StubsLinked(cs, Stubs(group, |group|), |Stubs(group, |group|)|, links)
    requires forall i | 0 <= i < |folded| :: IsFold(Backed(group, |group|), folded[i])
    requires forall p | p in Backed(group, |group|) && !Leads(Backed(group, |group|), p) :: Folds(folded, p)
    requires OnceEach(folded)
    ensures IsPlan(group, links + folded)
  {
    var stubs := Stubs(group, |group|);
    assert stubs[..|stubs|] == stubs && group[..|group|] == group;
    forall i | 0 <= i < |links|
      ensures IsLink(group, links[i]) && links[i].duplicate.Stub()
    {
      SplitMembers(group, |group|, links[i].duplicate);
      StubLinkIsLink(group, cs, links[i]);
    }
    forall i | 0 <= i < |folded|
      ensures IsLink(group, folded[i]) && !folded[i].duplicate.Stub()
    {
      SplitMembers(group, |group|, folded[i].duplicate);
      SplitMembers(group, |group|, folded[i].canonical);
    }
    forall i, j | 0 <= i < |links| && 0 <= j < |folded|
      ensures links[i].duplicate.id != folded[j].duplicate.id
    {
      if links[i].duplicate.id == folded[j].duplicate.id {
        SameIdSameRow(group, links[i].duplicate, folded[j].duplicate);
      }
    }
    OnceTogether(links, folded);
    forall p | p in group
      ensures Folds(links + folded, p) <==> ToBeFolded(group, p)
    {
      PlanFor(group, cs, links, folded, p);
    }
  }

  lemma {:induction false} OnceTogether(links: seq<Link>, folded: seq<Link>)
    requires OnceEach(links) && OnceEach(folded)
    requires forall i, j | 0 <= i < |links| && 0 <= j < |folded| :: links[i].duplicate.id != folded[j].duplicate.id
    ensures OnceEach(links + folded)
  {
  }

  lemma {:induction false} PlanFor(group: seq<Player>, cs: seq<Player>, links: seq<Link>, folded: seq<Link>, p: Player)
    requires p in group && Candidates(group, cs)
    requires StubsLinked(cs, Stubs(group, |group|), |Stubs(group, |group|)|, links)
    requires forall i | 0 <= i < |links| :: links[i].duplicate.Stub()
    requires forall i | 0 <= i < |folded| :: IsFold(Backed(group, |group|), folded[i]) && !folded[i].duplicate.Stub()
    requires forall q | q in Backed(group, |group|) && !Leads(Backed(group, |group|), q) :: Folds(folded, q)
    ensures Folds(links + folded, p) <==> ToBeFolded(group, p)
  {
    var stubs := Stubs(group, |group|);
    FoldsEither(links, folded, p);
    SplitMembers(group, |group|, p);
    assert group[..|group|] == group;
    if p.Stub() {
      var x :| 0 <= x < |stubs| && stubs[x] == p;
      MatchedMeans(group, cs, p);
    }
  }

  /** The plan of one group of namesakes. */
  method ReconcileGroup(group: seq<Player>) returns (links: seq<Link>)
    requires DistinctIds(group)
    ensures IsPlan(group, links)
  {
    var anchored, stubs: seq<Player> := [], [];
    for i := 0 to |group|
      invariant anchored == Backed(group, i) && stubs == Stubs(group, i)
    {
      if group[i].Stub() {
        stubs := stubs + [group[i]];
      } else {
        anchored := anchored + [group[i]];
      }
    }
    SplitDistinct(group, |group|);
    var folded: seq<Link>, remaining: seq<Player> := FoldSameSource(anchored);
    RemainingAreCandidates(group, remaining);
    links := [];
    if |remaining| > 0 {
      links := LinkStubs(remaining, stubs);
    } else {
      NoneToLink(remaining, stubs);
    }
    TogetherAPlan(group, remaining, links, folded);
    links := links + folded;
  }

  lemma {:induction false} NoneToLink(cs: seq<Player>, stubs: seq<Player>)
    requires cs == []
    ensures StubsLinked(cs, stubs, |stubs|, [])
  {
  }

  lemma {:induction false} RemainingAreCandidates(group: seq<Player>, remaining: seq<Player>)
    requires DistinctIds(remaining)
    requires forall p :: p in remaining <==> p in Backed(group, |group|) && Leads(Backed(group, |group|), p)
    ensures Candidates(group, remaining)
  {
    assert group[..|group|] == group;
    forall c
      ensures c in remaining <==> Candidate(group, c)
    {
      SplitMembers(group, |group|, c);
    }
  }

  // ---------------------------------------------------------------- what a plan promises

  /** Each row is folded at most once, and no row that others are folded into is folded itself. */
  ghost predicate StarForest(links: seq<Link>) {
    && OnceEach(links)
    && forall i, j | 0 <= i < |links| && 0 <= j < |links| :: links[i].canonical.id != links[j].duplicate.id
  }

  lemma {:induction false} PlanIsStarForest(group: seq<Player>, links: seq<Link>)
    requires DistinctIds(group) && IsPlan(group, links)
    ensures StarForest(links)
  {
  }

  /** A stub is merged unasked only into the one candidate that beats every other. */
  lemma {:induction false} AutoIsStrictlyBest(group: seq<Player>, m: Link, c: Player)
    requires IsLink(group, m) && m.Auto() && m.duplicate.Stub()
    requires Candidate(group, c) && c != m.canonical
    ensures Score(c, m.duplicate) < Score(m.canonical, m.duplicate) == m.confidence
  {
  }

  // ---------------------------------------------------------------- every group

  /** The players among the first `n` with a key. */
  function Group(normalise: string -> string, players: seq<Player>, key: string, n: nat): seq<Player>
    requires n <= |players|
  {
    if n == 0 then []
    else Group(normalise, players, key, n - 1)
         + if KeyOf(normalise, players[n - 1].fullName) == key then [players[n - 1]] else []
  }

  lemma {:induction false} GroupMembers(normalise: string -> string, players: seq<Player>, key: string, n: nat, p: Player)
    requires n <= |players|
    ensures p in Group(normalise, players, key, n) <==> p in players[..n] && KeyOf(normalise, p.fullName) == key
  {
    if n > 0 {
      GroupMembers(normalise, players, key, n - 1, p);
      assert players[..n] == players[..n - 1] + [players[n - 1]];
    }
  }

  lemma {:induction false} GroupDistinct(normalise: string -> string, players: seq<Player>, key: string, n: nat)
    requires n <= |players| && DistinctIds(players)
    ensures DistinctIds(Group(normalise, players, key, n))
  {
    if n > 0 {
      var before := Group(normalise, players, key, n - 1);
      GroupDistinct(normalise, players, key, n - 1);
      forall i | 0 <= i < |before|
        ensures before[i].id != players[n - 1].id
      {
        GroupMembers(normalise, players, key, n - 1, before[i]);
        var x :| 0 <= x < n - 1 && players[x] == before[i];
      }
    }
  }

  ghost predicate ByKey(normalise: string -> string, players: seq<Player>, n: nat, groups: map<string, seq<Player>>)
    requires n <= |players|
  {
    && "" !in groups
    && forall key | key != "" :: Group(normalise, players, key, n) == if key in groups then groups[key] else []
  }

  lemma {:induction false} ByKeyOneMore(normalise: string -> string, players: seq<Player>, n: nat, groups: map<string, seq<Player>>)
    requires n < |players| && ByKey(normalise, players, n, groups)
    ensures var k := KeyOf(normalise, players[n].fullName);
            ByKey(normalise, players, n + 1,
                  if k == "" then groups
                  else groups[k := (if k in groups then groups[k] else []) + [players[n]]])
  {
  }

  method GroupByKey(normalise: string -> string, players: seq<Player>) returns (groups: map<string, seq<Player>>)
    ensures ByKey(normalise, players, |players|, groups)
  {
    groups := map[];
    for i := 0 to |players|
      invariant ByKey(normalise, players, i, groups)
    {
      ByKeyOneMore(normalise, players, i, groups);
      var k := Key(normalise, players[i].fullName);
      if k != "" {
        groups := groups[k := (if k in groups then groups[k] else []) + [players[i]]];
      }
    }
  }

  /** The players who share a player's key. */
  function Namesakes(normalise: string -> string, players: seq<Player>, p: Player): seq<Player> {
    Group(normalise, players, KeyOf(normalise, p.fullName), |players|)
  }

  ghost predicate LinkFits(normalise: string -> string, players: seq<Player>, m: Link) {
    && m.duplicate in players && m.canonical in players
    && KeyOf(normalise, m.canonical.fullName) == KeyOf(normalise, m.duplicate.fullName)
    && IsLink(Namesakes(normalise, players, m.duplicate), m)
  }

  /** The plan of the keys done so far. */
  ghost predicate Planned(normalise: string -> string, players: seq<Player>, keys: set<string>, links: seq<Link>) {
    && StarForest(links)
    && (forall i | 0 <= i < |links| ::
          LinkFits(normalise, players, links[i]) && KeyOf(normalise, links[i].duplicate.fullName) in keys)
    && (forall p | p in players && KeyOf(normalise, p.fullName) in keys ::
          Folds(links, p) <==> ToBeFolded(Namesakes(normalise, players, p), p))
  }

  lemma {:induction false} KeyPlan(normalise: string -> string, players: seq<Player>, key: string, more: seq<Link>)
    requires DistinctIds(players) && IsPlan(Group(normalise, players, key, |players|), more)
    ensures StarForest(more)
    ensures forall i | 0 <= i < |more| ::
              LinkFits(normalise, players, more[i]) && KeyOf(normalise, more[i].duplicate.fullName) == key
    ensures forall p | p in players && KeyOf(normalise, p.fullName) == key ::
              Folds(more, p) <==> ToBeFolded(Namesakes(normalise, players, p), p)
  {
    var group := Group(normalise, players, key, |players|);
    GroupDistinct(normalise, players, key, |players|);
    PlanIsStarForest(group, more);
    assert players[..|players|] == players;
    forall i | 0 <= i < |more|
      ensures LinkFits(normalise, players, more[i]) && KeyOf(normalise, more[i].duplicate.fullName) == key
    {
      assert IsLink(group, more[i]);
      GroupMembers(normalise, players, key, |players|, more[i].duplicate);
      GroupMembers(normalise, players, key, |players|, more[i].canonical);
    }
    forall p | p in players && KeyOf(normalise, p.fullName) == key
      ensures Folds(more, p) <==> ToBeFolded(Namesakes(normalise, players, p), p)
    {
      GroupMembers(normalise, players, key, |players|, p);
    }
  }

  lemma {:induction false} KeysApart(normalise: string -> string, players: seq<Player>, p: Player, q: Player)
    requires DistinctIds(players) && p in players && q in players
    requires KeyOf(normalise, p.fullName) != KeyOf(normalise, q.fullName)
    ensures p.id != q.id
  {
  }

  lemma {:induction false} ForestsApart(normalise: string -> string, players: seq<Player>, keys: set<string>, links: seq<Link>,
                                       key: string, more: seq<Link>)
    requires DistinctIds(players) && key !in keys && StarForest(links) && StarForest(more)
    requires forall i | 0 <= i < |links| ::
               LinkFits(normalise, players, links[i]) && KeyOf(normalise, links[i].duplicate.fullName) in keys
    requires forall i | 0 <= i < |more| ::
               LinkFits(normalise, players, more[i]) && KeyOf(normalise, more[i].duplicate.fullName) == key
    ensures StarForest(links + more)
  {
    forall i, j | 0 <= i < |links| && 0 <= j < |more|
      ensures links[i].duplicate.id != more[j].duplicate.id
      ensures links[i].canonical.id != more[j].duplicate.id && more[j].canonical.id != links[i].duplicate.id
    {
      KeysApart(normalise, players, links[i].duplicate, more[j].duplicate);
      KeysApart(normalise, players, links[i].canonical, more[j].duplicate);
      KeysApart(normalise, players, links[i].duplicate, more[j].canonical);
    }
  }

  lemma {:induction false} FoldsNotOf(normalise: string -> string, players: seq<Player>, links: seq<Link>, p: Player)
    requires forall i | 0 <= i < |links| :: KeyOf(normalise, links[i].duplicate.fullName) != KeyOf(normalise, p.fullName)
    ensures !Folds(links, p)
  {
  }

  lemma {:induction false} PlannedOneMore(normalise: string -> string, players: seq<Player>, keys: set<string>, links: seq<Link>,
                                         key: string, more: seq<Link>)
    requires DistinctIds(players) && Planned(normalise, players, keys, links) && key !in keys
    requires IsPlan(Group(normalise, players, key, |players|), more)
    ensures Planned(normalise, players, keys + {key}, links + more)
  {
    KeyPlan(normalise, players, key, more);
    ForestsApart(normalise, players, keys, links, key, more);
    forall p | p in players && KeyOf(normalise, p.fullName) in keys + {key}
      ensures Folds(links + more, p) <==> ToBeFolded(Namesakes(normalise, players, p), p)
    {
      FoldsEither(links, more, p);
      if KeyOf(normalise, p.fullName) == key {
        FoldsNotOf(normalise, players, links, p);
      } else {
        FoldsNotOf(normalise, players, more, p);
      }
    }
  }

  /** Nobody without a namesake is folded. */
  lemma {:induction false} AloneIsAPlan(group: seq<Player>)
    requires |group| < 2
    ensures IsPlan(group, [])
  {
    assert group[..|group|] == group;
    forall p | p in group
      ensures !ToBeFolded(group, p)
    {
      forall q | q in Backed(group, |group|)
        ensures q == p
      {
        SplitMembers(group, |group|, q);
      }
    }
  }

  /** The merge plan of a tour. It is a star forest; each link is the one its group calls
      for; and a player is folded exactly when his group calls for it. */
  method Reconcile(normalise: string -> string, players: seq<Player>) returns (links: seq<Link>)
    requires DistinctIds(players)
    ensures StarForest(links)
    ensures forall i | 0 <= i < |links| :: LinkFits(normalise, players, links[i])
    ensures forall p | p in players && KeyOf(normalise, p.fullName) != "" ::
              Folds(links, p) <==> ToBeFolded(Namesakes(normalise, players, p), p)
    ensures forall p | p in players && KeyOf(normalise, p.fullName) == "" :: !Folds(links, p)
  {
    var groups := GroupByKey(normalise, players);
    var rest: set<string> := groups.Keys;
    links := [];
    while rest != {}
      invariant rest <= groups.Keys && Planned(normalise, players, groups.Keys - rest, links)
      decreases |rest|
    {
      var key :| key in rest;
      OneFewerLeft(groups.Keys, rest, key);
      assert groups[key] == Group(normalise, players, key, |players|);
      var more: seq<Link> := [];
      if |groups[key]| >= 2 {
        GroupDistinct(normalise, players, key, |players|);
        more := ReconcileGroup(groups[key]);
      } else {
        AloneIsAPlan(groups[key]);
      }
      PlannedOneMore(normalise, players, groups.Keys - rest, links, key, more);
      links := links + more;
      rest := rest - {key};
    }
    AllKeysPlanned(normalise, players, groups, links);
  }

  lemma {:induction false} AllKeysPlanned(normalise: string -> string, players: seq<Player>, groups: map<string, seq<Player>>, links: seq<Link>)
    requires ByKey(normalise, players, |players|, groups) && Planned(normalise, players, groups.Keys, links)
    ensures forall p | p in players && KeyOf(normalise, p.fullName) != "" ::
              Folds(links, p) <==> ToBeFolded(Namesakes(normalise, players, p), p)
    ensures forall p | p in players && KeyOf(normalise, p.fullName) == "" :: !Folds(links, p)
  {
  }

  // ---------------------------------------------------------------- merging

  /** Who owns each player's matches, by id. */
  type Owners = map<int, int>

  /** One merge: everything the duplicate owns passes to the canonical row. */
  function Merged(owners: Owners, m: Link): Owners {
    map id | id in owners :: if owners[id] == m.duplicate.id then m.canonical.id else owners[id]
  }

  function MergedAll(owners: Owners, links: seq<Link>): Owners {
    if links == [] then owners else Merged(MergedAll(owners, links[..|links| - 1]), links[|links| - 1])
  }

  ghost predicate Home(links: seq<Link>, id: int, owner: int) {
    (forall i | 0 <= i < |links| && links[i].duplicate.id == id :: owner == links[i].canonical.id)
    && ((forall i | 0 <= i < |links| :: links[i].duplicate.id != id) ==> owner == id)
  }

  lemma {:induction false} ForestInit(links: seq<Link>)
    requires links != [] && StarForest(links)
    ensures StarForest(links[..|links| - 1])
  {
  }

  /** Merged in the order given, everybody's matches end with the row his own link names. */
  lemma {:induction false} MergedIsHome(owners: Owners, links: seq<Link>, id: int)
    requires StarForest(links) && id in owners && owners[id] == id
    ensures id in MergedAll(owners, links) && Home(links, id, MergedAll(owners, links)[id])
  {
    if links != [] {
      var init, last := links[..|links| - 1], links[|links| - 1];
      ForestInit(links);
      MergedIsHome(owners, init, id);
      var before := MergedAll(owners, init)[id];
      assert forall i | 0 <= i < |init| :: init[i] == links[i];
      if exists i :: 0 <= i < |init| && init[i].duplicate.id == id {
        var i :| 0 <= i < |init| && init[i].duplicate.id == id;
        assert before == links[i].canonical.id != last.duplicate.id;
      }
    }
  }

  lemma {:induction false} SameLinksSameHome(links: seq<Link>, others: seq<Link>, id: int, owner: int, other: int)
    requires multiset(links) == multiset(others)
    requires Home(links, id, owner) && Home(others, id, other)
    ensures owner == other
  {
    if i: nat :| i < |links| && links[i].duplicate.id == id {
      assert links[i] in multiset(links);
      assert links[i] in others;
    } else {
      forall j | 0 <= j < |others|
        ensures others[j].duplicate.id != id
      {
        assert others[j] in multiset(others);
      }
    }
  }

  /** The links may be merged in any order: nothing is stranded, and everything ends the same. */
  lemma {:induction false} MergeOrderDoesNotMatter(owners: Owners, links: seq<Link>, others: seq<Link>, id: int)
    requires StarForest(links) && StarForest(others) && multiset(links) == multiset(others)
    requires id in owners && owners[id] == id
    ensures id in MergedAll(owners, links) && id in MergedAll(owners, others)
    ensures MergedAll(owners, links)[id] == MergedAll(owners, others)[id]
  {
    MergedIsHome(owners, links, id);
    MergedIsHome(owners, others, id);
    SameLinksSameHome(links, others, id, MergedAll(owners, links)[id], MergedAll(owners, others)[id]);
  }
}
