/** The slugs events are given, and keep (internal/events/store.go). */
module EventSlugs {
  import opened Collections
  import opened Decimal
  import opened Lexical
  import opened Sorting
  import opened Text

  datatype EventKey = EventKey(tour: string, key: string)

  /** What the store needs of an event to name it. */
  datatype Entry = Entry(tour: string, key: string, name: string, lastSeason: int, editions: nat, slug: string) {
    function Id(): EventKey {
      EventKey(tour, key)
    }
  }

  // ---------------------------------------------------------------- minting

  /** The name's slug, or the key's where the name has none, with the tour unless it is there. */
  function BaseOf(slugify: string -> string, e: Entry): string {
    var base := if slugify(e.name) == "" then slugify(e.key) else slugify(e.name);
    if Index("-" + base + "-", "-" + e.tour + "-") >= 0 then base else base + "-" + e.tour
  }

  /** The `n`-th slug tried: the base, then the base with 2, 3, and so on. */
  function Tried(base: string, n: nat): string {
    if n <= 1 then base else base + "-" + Itoa(n)
  }

  lemma {:induction false} TailsDiffer(base: string, s: string, t: string)
    requires s != t
    ensures base + "-" + s != base + "-" + t && base != base + "-" + t
  {
    assert (base + "-" + s)[|base| + 1..] == s && (base + "-" + t)[|base| + 1..] == t;
    assert |base + "-" + t| > |base|;
  }

  lemma {:induction false} NumeralsDiffer(m: nat, n: nat)
    requires m != n
    ensures Itoa(m) != Itoa(n)
  {
    NumberOfDigits(m);
    NumberOfDigits(n);
  }

  lemma {:induction false} TriesDiffer(base: string, m: nat, n: nat)
    requires 1 <= m < n
    ensures Tried(base, m) != Tried(base, n)
  {
    NumeralsDiffer(m, n);
    TailsDiffer(base, Itoa(m), Itoa(n));
  }

  /** Every try so far was taken, and they were all different. */
  ghost predicate AllTaken(base: string, taken: set<string>, n: nat) {
    forall i | 1 <= i < n :: Tried(base, i) in taken
  }

  ghost function Tries(base: string, n: nat): set<string> {
    if n <= 1 then {} else Tries(base, n - 1) + {Tried(base, n - 1)}
  }

  lemma {:induction false} TriesAre(base: string, n: nat, s: string)
    ensures s in Tries(base, n) <==> exists i :: 1 <= i < n && Tried(base, i) == s
  {
    if n > 1 {
      TriesAre(base, n - 1, s);
    }
  }

  lemma {:induction false} TriesCount(base: string, n: nat)
    requires n >= 1
    ensures |Tries(base, n)| == n - 1
  {
    if n > 1 {
      TriesCount(base, n - 1);
      TriesAre(base, n - 1, Tried(base, n - 1));
      forall i | 1 <= i < n - 1
        ensures Tried(base, i) != Tried(base, n - 1)
      {
        TriesDiffer(base, i, n - 1);
      }
    }
  }

  /** No more tries than there are slugs taken, and one. */
  lemma {:induction false} TriesRunOut(base: string, taken: set<string>, n: nat)
    requires n >= 1 && AllTaken(base, taken, n)
    ensures n - 1 <= |taken|
  {
    TriesCount(base, n);
    forall s | s in Tries(base, n)
      ensures s in taken
    {
      TriesAre(base, n, s);
    }
    Within(Tries(base, n), taken);
  }

  /** A slug is the first try that is free. */
  ghost predicate IsMinted(base: string, taken: set<string>, slug: string) {
    slug !in taken && exists n: nat :: n >= 1 && slug == Tried(base, n) && AllTaken(base, taken, n)
  }

  /** A slug of an event's: its base, or the base with a number. */
  ghost predicate IsTry(base: string, slug: string) {
    exists n: nat :: n >= 1 && slug == Tried(base, n)
  }

  method Mint(slugify: string -> string, e: Entry, taken: set<string>) returns (slug: string)
    ensures IsMinted(BaseOf(slugify, e), taken, slug)
  {
    var base := slugify(e.name);
    if base == "" {
      base := slugify(e.key);
    }
    if Index("-" + base + "-", "-" + e.tour + "-") < 0 {
      base := base + "-" + e.tour;
    }
    slug := base;
    var n := 1;
    while slug in taken
      invariant n >= 1 && slug == Tried(base, n) && AllTaken(base, taken, n)
      decreases |taken| + 1 - n
    {
      n := n + 1;
      slug := base + "-" + Itoa(n);
      TriesRunOut(base, taken, n);
    }
  }

  // ---------------------------------------------------------------- naming the new events

  datatype Fresh = Fresh(entry: Entry, at: nat)

  /** Most recent first, then the longer run, then by key. */
  predicate Precedes(a: Fresh, b: Fresh) {
    || a.entry.lastSeason > b.entry.lastSeason
    || (a.entry.lastSeason == b.entry.lastSeason
        && (a.entry.editions > b.entry.editions
            || (a.entry.editions == b.entry.editions && Less(a.entry.key, b.entry.key))))
  }

  predicate NotAfter(a: Fresh, b: Fresh) {
    !Precedes(b, a)
  }

  type Slugs = map<EventKey, string>

  ghost predicate NoneShared(slugs: Slugs) {
    forall k, q | k in slugs && q in slugs && k != q :: slugs[k] != slugs[q]
  }

  ghost predicate DistinctEvents(events: seq<Entry>) {
    forall i, j | 0 <= i < j < |events| :: events[i].Id() != events[j].Id()
  }

  /** The first `n` events that have no slug yet. */
  function FreshOf(events: seq<Entry>, existing: Slugs, n: nat): seq<Fresh>
    requires n <= |events|
  {
    if n == 0 then []
    else FreshOf(events, existing, n - 1) + if events[n - 1].Id() in existing then [] else [Fresh(events[n - 1], n - 1)]
  }

  lemma {:induction false} FreshAre(events: seq<Entry>, existing: Slugs, n: nat, x: Fresh)
    requires n <= |events|
    ensures x in FreshOf(events, existing, n) <==> x.at < n && x.entry == events[x.at] && x.entry.Id() !in existing
  {
    if n > 0 {
      FreshAre(events, existing, n - 1, x);
    }
  }

  lemma {:induction false} FreshRise(events: seq<Entry>, existing: Slugs, n: nat)
    requires n <= |events|
    ensures forall i, j | 0 <= i < j < |FreshOf(events, existing, n)| ::
              FreshOf(events, existing, n)[i].at < FreshOf(events, existing, n)[j].at
  {
    if n > 0 {
      var before := FreshOf(events, existing, n - 1);
      FreshRise(events, existing, n - 1);
      forall i | 0 <= i < |before|
        ensures before[i].at < n - 1
      {
        FreshAre(events, existing, n - 1, before[i]);
      }
    }
  }

  /** The new events in the order they are named: each position once. */
  ghost predicate IsOrder(events: seq<Entry>, existing: Slugs, order: seq<Fresh>) {
    && (forall x :: x in order <==> x.at < |events| && x.entry == events[x.at] && x.entry.Id() !in existing)
    && (forall i, j | 0 <= i < j < |order| :: order[i].at != order[j].at)
  }

  predicate LowerAt(a: Fresh, b: Fresh) {
    a.at < b.at
  }

  lemma {:induction false} SortedIsOrder(events: seq<Entry>, existing: Slugs)
    ensures IsOrder(events, existing, Sort(FreshOf(events, existing, |events|), NotAfter))
  {
    var fresh_ := FreshOf(events, existing, |events|);
    var order := Sort(fresh_, NotAfter);
    SortElements(fresh_, NotAfter);
    SameMembers(fresh_, order);
    FreshRise(events, existing, |events|);
    forall x
      ensures x in order <==> x.at < |events| && x.entry == events[x.at] && x.entry.Id() !in existing
    {
      FreshAre(events, existing, |events|, x);
    }
    forall i, j | 0 <= i < j < |order|
      ensures order[i].at != order[j].at
    {
      assert Decided(fresh_, LowerAt);
      DecidedOnce(fresh_, LowerAt, order[i]);
      OnceOnly(order, i, j);
      assert order[i] in order && order[j] in order;
    }
  }

  /** The events named so far: the rest of each is as it was, no slug is shared or already out,
      and all that are out are taken. */
  ghost predicate Naming(slugify: string -> string, given: seq<Entry>, now: seq<Entry>, existing: Slugs, order: seq<Fresh>, n: nat, taken: set<string>)
    requires n <= |order|
  {
    && |now| == |given|
    && (forall i | 0 <= i < |given| :: now[i] == given[i].(slug := now[i].slug))
    && (forall i | 0 <= i < |given| && given[i].Id() in existing :: now[i].slug == existing[given[i].Id()])
    && (forall k | k in existing :: existing[k] in taken)
    && (forall m | 0 <= m < n && order[m].at < |now| :: now[order[m].at].slug in taken && now[order[m].at].slug !in existing.Values)
    && (forall m | 0 <= m < n && order[m].at < |now| :: IsTry(BaseOf(slugify, order[m].entry), now[order[m].at].slug))
    && (forall l, m | 0 <= l < m < n && order[l].at < |now| && order[m].at < |now| :: now[order[l].at].slug != now[order[m].at].slug)
  }

  /** Every slug out is kept, and the new ones differ from those and from each other. */
  ghost predicate Assigned(slugify: string -> string, given: seq<Entry>, now: seq<Entry>, existing: Slugs) {
    && |now| == |given|
    && (forall i | 0 <= i < |given| :: now[i] == given[i].(slug := now[i].slug))
    && (forall i | 0 <= i < |given| && given[i].Id() in existing :: now[i].slug == existing[given[i].Id()])
    && (forall i | 0 <= i < |given| && given[i].Id() !in existing ::
          now[i].slug !in existing.Values && IsTry(BaseOf(slugify, given[i]), now[i].slug))
    && (forall i, j | 0 <= i < j < |given| && given[i].Id() !in existing && given[j].Id() !in existing :: now[i].slug != now[j].slug)
  }

  lemma {:induction false} NamedOneMore(slugify: string -> string, given: seq<Entry>, now: seq<Entry>, existing: Slugs, order: seq<Fresh>, n: nat,
                                       taken: set<string>, slug: string)
    requires IsOrder(given, existing, order) && n < |order| && Naming(slugify, given, now, existing, order, n, taken)
    requires slug !in taken && IsTry(BaseOf(slugify, order[n].entry), slug)
    ensures order[n].at < |given|
    ensures Naming(slugify, given, now[order[n].at := now[order[n].at].(slug := slug)], existing, order, n + 1, taken + {slug})
  {
    assert order[n] in order;
    var at := order[n].at;
    var after := now[at := now[at].(slug := slug)];
    forall m | 0 <= m < n + 1 && order[m].at < |after|
      ensures after[order[m].at].slug == if m == n then slug else now[order[m].at].slug
    {
      assert m < n ==> order[m].at != at;
    }
    assert slug !in existing.Values;
  }

  /** The slugs out of reach when the `m`-th of an order is named: those there were, and those
      named before it. */
  function TakenBy(now: seq<Entry>, existing: Slugs, order: seq<Fresh>, m: nat): set<string>
    requires m <= |order|
  {
    if m == 0 then existing.Values
    else TakenBy(now, existing, order, m - 1)
         + if order[m - 1].at < |now| then {now[order[m - 1].at].slug} else {}
  }

  ghost predicate MintedAt(slugify: string -> string, now: seq<Entry>, existing: Slugs, order: seq<Fresh>, m: nat) {
    m < |order| && order[m].at < |now|
    && IsMinted(BaseOf(slugify, order[m].entry), TakenBy(now, existing, order, m), now[order[m].at].slug)
  }

  /** Each of the first `n` of an order got the first of its tries that was then free. */
  ghost predicate InTurn(slugify: string -> string, now: seq<Entry>, existing: Slugs, order: seq<Fresh>, n: nat) {
    forall m | 0 <= m < n :: MintedAt(slugify, now, existing, order, m)
  }

  /** Only the slug at one position differs. */
  ghost predicate OnlyAt(now: seq<Entry>, after: seq<Entry>, at: nat) {
    |after| == |now| && forall i | 0 <= i < |now| && i != at :: after[i] == now[i]
  }

  lemma {:induction false} TakenBefore(given: seq<Entry>, now: seq<Entry>, after: seq<Entry>, existing: Slugs, order: seq<Fresh>,
                                       n: nat, m: nat)
    requires IsOrder(given, existing, order) && m <= n < |order| && OnlyAt(now, after, order[n].at)
    ensures TakenBy(after, existing, order, m) == TakenBy(now, existing, order, m)
  {
    if m > 0 {
      TakenBefore(given, now, after, existing, order, n, m - 1);
      assert order[m - 1].at != order[n].at;
    }
  }

  lemma {:induction false} StillMinted(slugify: string -> string, given: seq<Entry>, now: seq<Entry>, after: seq<Entry>, existing: Slugs,
                                      order: seq<Fresh>, n: nat, m: nat)
    requires IsOrder(given, existing, order) && m < n < |order| && OnlyAt(now, after, order[n].at)
    requires MintedAt(slugify, now, existing, order, m)
    ensures MintedAt(slugify, after, existing, order, m)
  {
    TakenBefore(given, now, after, existing, order, n, m);
    assert order[m].at != order[n].at;
    assert after[order[m].at] == now[order[m].at];
  }

  lemma {:induction false} NowMinted(slugify: string -> string, given: seq<Entry>, now: seq<Entry>, after: seq<Entry>, existing: Slugs,
                                    order: seq<Fresh>, n: nat)
    requires IsOrder(given, existing, order) && n < |order| && order[n].at < |now| && OnlyAt(now, after, order[n].at)
    requires IsMinted(BaseOf(slugify, order[n].entry), TakenBy(now, existing, order, n), after[order[n].at].slug)
    ensures MintedAt(slugify, after, existing, order, n)
    ensures TakenBy(after, existing, order, n + 1) == TakenBy(now, existing, order, n) + {after[order[n].at].slug}
  {
    TakenBefore(given, now, after, existing, order, n, n);
  }

  /** The naming partway: what is named, what is taken, and each named in its turn. */
  ghost predicate IsNamingInTurn(slugify: string -> string, given: seq<Entry>, now: seq<Entry>, existing: Slugs, order: seq<Fresh>,
                                 n: nat, taken: set<string>) {
    && n <= |order| && IsOrder(given, existing, order) && Naming(slugify, given, now, existing, order, n, taken)
    && InTurn(slugify, now, existing, order, n) && taken == TakenBy(now, existing, order, n)
  }

  ghost function NamingTest(slugify: string -> string, given: seq<Entry>, existing: Slugs, order: seq<Fresh>):
    (seq<Entry>, nat, set<string>) -> bool
  {
    (now: seq<Entry>, n: nat, taken: set<string>) => IsNamingInTurn(slugify, given, now, existing, order, n, taken)
  }

  /** `IsNamingInTurn` by way of a function value, so that the loop opens it only by asking (`NamingMeans`). */
  ghost predicate NamingInTurn(slugify: string -> string, given: seq<Entry>, now: seq<Entry>, existing: Slugs, order: seq<Fresh>,
                               n: nat, taken: set<string>) {
    NamingTest(slugify, given, existing, order)(now, n, taken)
  }

  lemma {:induction false} NamingMeans(slugify: string -> string, given: seq<Entry>, now: seq<Entry>, existing: Slugs, order: seq<Fresh>,
                                      n: nat, taken: set<string>)
    ensures NamingInTurn(slugify, given, now, existing, order, n, taken)
       <==> IsNamingInTurn(slugify, given, now, existing, order, n, taken)
  {
  }

  lemma {:induction false} NextFits(slugify: string -> string, given: seq<Entry>, now: seq<Entry>, existing: Slugs, order: seq<Fresh>,
                                   n: nat, taken: set<string>)
    requires NamingInTurn(slugify, given, now, existing, order, n, taken) && n < |order|
    ensures order[n].at < |now|
  {
    NamingMeans(slugify, given, now, existing, order, n, taken);
    assert order[n] in order;
  }

  lemma {:induction false} InTurnOneMore(slugify: string -> string, given: seq<Entry>, now: seq<Entry>, after: seq<Entry>, existing: Slugs,
                                        order: seq<Fresh>, n: nat)
    requires IsOrder(given, existing, order) && n < |order| && order[n].at < |now| && OnlyAt(now, after, order[n].at)
    requires InTurn(slugify, now, existing, order, n)
    requires IsMinted(BaseOf(slugify, order[n].entry), TakenBy(now, existing, order, n), after[order[n].at].slug)
    ensures InTurn(slugify, after, existing, order, n + 1)
    ensures TakenBy(after, existing, order, n + 1) == TakenBy(now, existing, order, n) + {after[order[n].at].slug}
  {
    NowMinted(slugify, given, now, after, existing, order, n);
    forall m | 0 <= m < n
      ensures MintedAt(slugify, after, existing, order, m)
    {
      StillMinted(slugify, given, now, after, existing, order, n, m);
    }
  }

  lemma {:induction false} IsNamingOneMore(slugify: string -> string, given: seq<Entry>, now: seq<Entry>, after: seq<Entry>, existing: Slugs,
                                          order: seq<Fresh>, n: nat, taken: set<string>, slug: string)
    requires n < |order| && IsNamingInTurn(slugify, given, now, existing, order, n, taken)
    requires IsMinted(BaseOf(slugify, order[n].entry), taken, slug)
    requires order[n].at < |now| && after == now[order[n].at := now[order[n].at].(slug := slug)]
    ensures IsNamingInTurn(slugify, given, after, existing, order, n + 1, taken + {slug})
  {
    assert Naming(slugify, given, after, existing, order, n + 1, taken + {slug}) by {
      NamedOneMore(slugify, given, now, existing, order, n, taken, slug);
    }
    assert InTurn(slugify, after, existing, order, n + 1) && taken + {slug} == TakenBy(after, existing, order, n + 1) by {
      OnlyOneDiffers(now, after, order[n].at, slug);
      InTurnOneMore(slugify, given, now, after, existing, order, n);
    }
  }

  lemma {:induction false} OnlyOneDiffers(now: seq<Entry>, after: seq<Entry>, at: nat, slug: string)
    requires at < |now| && after == now[at := now[at].(slug := slug)]
    ensures OnlyAt(now, after, at) && after[at].slug == slug
  {
  }

  lemma {:induction false} NamingOneMore(slugify: string -> string, given: seq<Entry>, now: seq<Entry>, after: seq<Entry>, existing: Slugs,
                                        order: seq<Fresh>, n: nat, taken: set<string>, slug: string)
    requires n < |order| && NamingInTurn(slugify, given, now, existing, order, n, taken)
    requires IsMinted(BaseOf(slugify, order[n].entry), taken, slug)
    requires order[n].at < |now| && after == now[order[n].at := now[order[n].at].(slug := slug)]
    ensures NamingInTurn(slugify, given, after, existing, order, n + 1, taken + {slug})
  {
    NamingMeans(slugify, given, now, existing, order, n, taken);
    NamingMeans(slugify, given, after, existing, order, n + 1, taken + {slug});
    IsNamingOneMore(slugify, given, now, after, existing, order, n, taken, slug);
  }

  lemma {:induction false} AllNamed(slugify: string -> string, given: seq<Entry>, now: seq<Entry>, existing: Slugs, order: seq<Fresh>, taken: set<string>)
    requires IsOrder(given, existing, order) && Naming(slugify, given, now, existing, order, |order|, taken)
    ensures Assigned(slugify, given, now, existing)
  {
    forall i | 0 <= i < |given| && given[i].Id() !in existing
      ensures now[i].slug !in existing.Values && IsTry(BaseOf(slugify, given[i]), now[i].slug)
    {
      var m := SeatOf(given, existing, order, i);
    }
    forall i, j | 0 <= i < j < |given| && given[i].Id() !in existing && given[j].Id() !in existing
      ensures now[i].slug != now[j].slug
    {
      var l := SeatOf(given, existing, order, i);
      var m := SeatOf(given, existing, order, j);
      if l < m {
        assert now[order[l].at].slug != now[order[m].at].slug;
      } else {
        assert now[order[m].at].slug != now[order[l].at].slug;
      }
    }
  }

  lemma {:induction false} SeatOf(given: seq<Entry>, existing: Slugs, order: seq<Fresh>, i: nat) returns (m: nat)
    requires IsOrder(given, existing, order) && i < |given| && given[i].Id() !in existing
    ensures m < |order| && order[m].at == i
  {
    assert Fresh(given[i], i) in order;
    m :| m < |order| && order[m] == Fresh(given[i], i);
  }

  /** The events as they stand when those with a slug have it again. */
  ghost predicate Restored(given: seq<Entry>, now: seq<Entry>, existing: Slugs, n: nat)
    requires n <= |given|
  {
    && |now| == |given|
    && (forall i | 0 <= i < |given| ::
          now[i] == if i < n && given[i].Id() in existing then given[i].(slug := existing[given[i].Id()]) else given[i])
  }

  method KeepSlugs(existing: Slugs, events: array<Entry>) returns (waiting: seq<Fresh>)
    modifies events
    ensures Restored(old(events[..]), events[..], existing, events.Length)
    ensures waiting == FreshOf(old(events[..]), existing, events.Length)
  {
    ghost var given := events[..];
    waiting := [];
    for i := 0 to events.Length
      invariant Restored(given, events[..], existing, i) && waiting == FreshOf(given, existing, i)
    {
      assert events[..][i] == given[i];
      if events[i].Id() in existing {
        events[i] := events[i].(slug := existing[events[i].Id()]);
      } else {
        waiting := waiting + [Fresh(events[i], i)];
      }
    }
  }

  lemma {:induction false} NamingStarts(slugify: string -> string, given: seq<Entry>, now: seq<Entry>, existing: Slugs, order: seq<Fresh>)
    requires Restored(given, now, existing, |given|) && IsOrder(given, existing, order)
    ensures NamingInTurn(slugify, given, now, existing, order, 0, existing.Values)
  {
    NamingMeans(slugify, given, now, existing, order, 0, existing.Values);
  }

  lemma {:induction false} NamingBegins(slugify: string -> string, given: seq<Entry>, now: seq<Entry>, existing: Slugs)
    requires Restored(given, now, existing, |given|)
    ensures NamingInTurn(slugify, given, now, existing, Sort(FreshOf(given, existing, |given|), NotAfter), 0, existing.Values)
  {
    SortedIsOrder(given, existing);
    NamingStarts(slugify, given, now, existing, Sort(FreshOf(given, existing, |given|), NotAfter));
  }

  lemma {:induction false} NamingEnds(slugify: string -> string, given: seq<Entry>, now: seq<Entry>, existing: Slugs, order: seq<Fresh>, taken: set<string>)
    requires NamingInTurn(slugify, given, now, existing, order, |order|, taken)
    ensures Assigned(slugify, given, now, existing) && InTurn(slugify, now, existing, order, |order|)
  {
    NamingMeans(slugify, given, now, existing, order, |order|, taken);
    AllNamed(slugify, given, now, existing, order, taken);
  }

  /** Gives every event its slug, in place: the one it has, or a new one. */
  method AssignSlugs(slugify: string -> string, existing: Slugs, events: array<Entry>) returns (created: nat)
    modifies events
    ensures Assigned(slugify, old(events[..]), events[..], existing)
    ensures var order := Sort(FreshOf(old(events[..]), existing, events.Length), NotAfter);
            created == |order| && InTurn(slugify, events[..], existing, order, |order|)
  {
    ghost var given := events[..];
    var taken := existing.Values;
    var waiting := KeepSlugs(existing, events);
    var order := Sort(waiting, NotAfter);
    NamingBegins(slugify, given, events[..], existing);
    created := 0;
    for n := 0 to |order|
      invariant created == n && NamingInTurn(slugify, given, events[..], existing, order, n, taken)
    {
      var slug := Mint(slugify, order[n].entry, taken);
      ghost var now := events[..];
      NextFits(slugify, given, now, existing, order, n, taken);
      events[order[n].at] := events[order[n].at].(slug := slug);
      NamingOneMore(slugify, given, now, events[..], existing, order, n, taken, slug);
      taken := taken + {slug};
      created := created + 1;
    }
    NamingEnds(slugify, given, events[..], existing, order, taken);
  }

  // ---------------------------------------------------------------- what follows

  /** No two events share a slug, if none did. */
  lemma {:induction false} SlugsStayDistinct(slugify: string -> string, given: seq<Entry>, now: seq<Entry>, existing: Slugs, i: nat, j: nat)
    requires Assigned(slugify, given, now, existing) && NoneShared(existing) && DistinctEvents(given) && i < j < |given|
    ensures now[i].slug != now[j].slug
  {
  }

  /** The slugs as the next run will find them. */
  function Recorded(now: seq<Entry>, n: nat): Slugs
    requires n <= |now|
  {
    if n == 0 then map[] else Recorded(now, n - 1)[now[n - 1].Id() := now[n - 1].slug]
  }

  lemma {:induction false} RecordedHas(now: seq<Entry>, n: nat, i: nat)
    requires DistinctEvents(now) && i < n <= |now|
    ensures now[i].Id() in Recorded(now, n) && Recorded(now, n)[now[i].Id()] == now[i].slug
  {
    if i < n - 1 {
      RecordedHas(now, n - 1, i);
      assert now[i].Id() != now[n - 1].Id();
    }
  }

  lemma {:induction false} NoneFresh(events: seq<Entry>, existing: Slugs, n: nat)
    requires n <= |events| && forall i | 0 <= i < n :: events[i].Id() in existing
    ensures FreshOf(events, existing, n) == []
  {
    if n > 0 {
      NoneFresh(events, existing, n - 1);
    }
  }

  /** Run again on what it wrote, it mints nothing and changes no slug. */
  lemma {:induction false} AssigningAgainChangesNothing(slugify: string -> string, given: seq<Entry>, now: seq<Entry>, existing: Slugs, again: seq<Entry>)
    requires DistinctEvents(given) && Assigned(slugify, given, now, existing)
    requires Assigned(slugify, given, again, Recorded(now, |now|))
    ensures again == now && FreshOf(given, Recorded(now, |now|), |given|) == []
  {
    forall i, j | 0 <= i < j < |now|
      ensures now[i].Id() != now[j].Id()
    {
      assert given[i].Id() != given[j].Id();
    }
    forall i | 0 <= i < |now|
      ensures given[i].Id() in Recorded(now, |now|) && again[i] == now[i]
    {
      RecordedHas(now, |now|, i);
    }
    NoneFresh(given, Recorded(now, |now|), |given|);
  }

  // ---------------------------------------------------------------- what a slug looks like

  /** A new slug is of the event's name, or of its key where the name makes none, and carries the
      tour as a word of its own: there already, or put at the end. */
  lemma {:induction false} BaseCarriesTour(slugify: string -> string, e: Entry)
    ensures var stem := if slugify(e.name) != "" then slugify(e.name) else slugify(e.key);
            && (BaseOf(slugify, e) == stem || BaseOf(slugify, e) == stem + "-" + e.tour)
            && ((exists i :: FoundAt("-" + stem + "-", "-" + e.tour + "-", i)) ==> BaseOf(slugify, e) == stem)
    ensures exists i :: FoundAt("-" + BaseOf(slugify, e) + "-", "-" + e.tour + "-", i)
  {
    var stem := if slugify(e.name) != "" then slugify(e.name) else slugify(e.key);
    var at := Index("-" + stem + "-", "-" + e.tour + "-");
    if at >= 0 {
      assert FoundAt("-" + BaseOf(slugify, e) + "-", "-" + e.tour + "-", at);
    } else {
      TourAtEnd(stem, e.tour);
    }
  }

  lemma {:induction false} TourAtEnd(stem: string, tour: string)
    ensures FoundAt("-" + (stem + "-" + tour) + "-", "-" + tour + "-", |stem| + 1)
  {
    var s, w := "-" + (stem + "-" + tour) + "-", "-" + tour + "-";
    assert s == ("-" + stem) + w;
    assert s[|stem| + 1..|stem| + 1 + |w|] == w;
  }

  /** The base where it is free, and otherwise the base with the least number from two that is. */
  lemma {:induction false} MintedSays(base: string, taken: set<string>, slug: string)
    requires IsMinted(base, taken, slug)
    ensures slug !in taken && (base !in taken ==> slug == base)
    ensures base in taken ==>
              exists n: nat :: n >= 2 && slug == base + "-" + Itoa(n) && forall m | 2 <= m < n :: base + "-" + Itoa(m) in taken
  {
    var n: nat :| n >= 1 && slug == Tried(base, n) && AllTaken(base, taken, n);
    if n > 1 {
      assert Tried(base, 1) in taken;
      forall m | 2 <= m < n
        ensures base + "-" + Itoa(m) in taken
      {
        assert Tried(base, m) in taken;
      }
    }
  }

  lemma {:induction false} PrecedesThrough(a: Fresh, b: Fresh, c: Fresh)
    requires NotAfter(a, b) && NotAfter(b, c)
    ensures NotAfter(a, c)
  {
    AtMostEither(b.entry.key, a.entry.key);
    AtMostEither(c.entry.key, b.entry.key);
    AtMostEither(c.entry.key, a.entry.key);
    if Precedes(c, a) {
      if AtMost(c.entry.key, b.entry.key) && AtMost(b.entry.key, a.entry.key) {
        AtMostThrough(c.entry.key, b.entry.key, a.entry.key);
      }
      if AtMost(a.entry.key, b.entry.key) && AtMost(b.entry.key, c.entry.key) {
        AtMostThrough(a.entry.key, b.entry.key, c.entry.key);
        if AtMost(c.entry.key, a.entry.key) {
          AtMostBoth(a.entry.key, c.entry.key);
        }
      }
    }
  }

  lemma {:induction false} NotAfterEither(a: Fresh, b: Fresh)
    ensures NotAfter(a, b) || NotAfter(b, a)
  {
    if AtMost(a.entry.key, b.entry.key) && AtMost(b.entry.key, a.entry.key) {
      AtMostBoth(a.entry.key, b.entry.key);
    }
  }

  lemma {:induction false} FreshAreOrdered()
    ensures TotalPreorder(NotAfter)
  {
    forall a, b
      ensures NotAfter(a, b) || NotAfter(b, a)
    {
      NotAfterEither(a, b);
    }
    forall a, b, c | NotAfter(a, b) && NotAfter(b, c)
      ensures NotAfter(a, c)
    {
      PrecedesThrough(a, b, c);
    }
  }

  /** Of two new events the one named first is the more recent; of two as recent, the one with
      more editions; of two alike in both, the one whose key is not the greater. */
  lemma {:induction false} NamedBefore(events: seq<Entry>, existing: Slugs, i: nat, j: nat)
    requires var order := Sort(FreshOf(events, existing, |events|), NotAfter); i < j < |order|
    ensures var order := Sort(FreshOf(events, existing, |events|), NotAfter);
            var a, b := order[i].entry, order[j].entry;
            || a.lastSeason > b.lastSeason
            || (a.lastSeason == b.lastSeason
                && (a.editions > b.editions || (a.editions == b.editions && AtMost(a.key, b.key))))
  {
    FreshAreOrdered();
    SortSorted(FreshOf(events, existing, |events|), NotAfter);
    var order := Sort(FreshOf(events, existing, |events|), NotAfter);
    assert NotAfter(order[i], order[j]);
    AtMostEither(order[i].entry.key, order[j].entry.key);
  }
}
