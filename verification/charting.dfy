/** Finding the row of matches a charted match is (internal/charting/resolve.go). */
module Charting {
  import opened Lexical
  import opened Text

  /** A row of matches; dates are in seconds. */
  datatype Candidate = Candidate(matchId: int, winnerId: int, loserId: int, winner: string, loser: string,
                                 round: string, playedOn: int)

  datatype Charted = Charted(player1: string, player2: string, round: string, playedOn: int)

  datatype Resolution = Resolution(matchId: int, player1Id: int, player2Id: int)

  datatype Answer = Found(resolution: Resolution) | NoRow | MoreThanOne

  const DAY := 86400
  const BEFORE := 7 * DAY
  const AFTER := 21 * DAY

  type Normaliser = string -> string

  // ---------------------------------------------------------------- names

  const PARTICLES: set<string> := {"de", "del", "della", "der", "den", "di", "da", "do", "dos", "du", "van", "von",
                                   "la", "le", "el", "al", "y", "e", "jr", "sr", "ii", "iii"}

  function WithoutParticles(words: seq<string>): seq<string> {
    if words == [] then []
    else WithoutParticles(words[..|words| - 1])
         + if words[|words| - 1] in PARTICLES then [] else [words[|words| - 1]]
  }

  /** Every word of a name but the first, particles aside, and all of them run together. */
  function Surnames(normalise: Normaliser, full: string): seq<string> {
    var words := Fields(normalise(full));
    if |words| <= 1 then words
    else
      var rest := words[1..];
      var out := WithoutParticles(rest) + if |rest| > 1 then [Concat(rest)] else [];
      if out == [] then rest else out
  }

  predicate SharesGivenName(a: string, b: string) {
    var wa, wb := Fields(a), Fields(b);
    wa != [] && wb != [] && (wa[0] in wb || wb[0] in wa)
  }

  function WithoutSpaces(s: string): string {
    if s == [] then [] else (if s[0] == ' ' then [] else [s[0]]) + WithoutSpaces(s[1..])
  }

  predicate SharesSurname(normalise: Normaliser, charted: string, stored: string) {
    exists x :: x in Surnames(normalise, charted) && x in Surnames(normalise, stored)
  }

  /** The whole name, with or without its spaces; or a surname in common and the same
      initial or a given name in common. */
  predicate SamePerson(normalise: Normaliser, charted: string, stored: string) {
    var a, b := normalise(charted), normalise(stored);
    if a == b || WithoutSpaces(a) == WithoutSpaces(b) then true
    else if a == "" || b == "" || (a[0] != b[0] && !SharesGivenName(a, b)) then false
    else SharesSurname(normalise, charted, stored)
  }

  predicate BothPlay(normalise: Normaliser, m: Charted, c: Candidate) {
    || (SamePerson(normalise, m.player1, c.winner) && SamePerson(normalise, m.player2, c.loser))
    || (SamePerson(normalise, m.player1, c.loser) && SamePerson(normalise, m.player2, c.winner))
  }

  // ---------------------------------------------------------------- dates

  predicate InWindow(charted: int, eventStart: int) {
    eventStart - BEFORE <= charted <= eventStart + AFTER
  }

  /** How far a date is from an event's start, a date before it counted as further. */
  function Distance(charted: int, eventStart: int): int {
    if charted < eventStart then eventStart - charted + AFTER else charted - eventStart
  }

  // ---------------------------------------------------------------- keys

  function KeyOf(round: string, a: string, b: string): string {
    if Less(b, a) then TrimSpace(round) + "|" + b + "|" + a else TrimSpace(round) + "|" + a + "|" + b
  }

  lemma {:induction false} LastBar(x: string, b: string, y: string, c: string)
    requires x + "|" + b == y + "|" + c && '|' !in b && '|' !in c
    ensures x == y && b == c
  {
    var s := x + "|" + b;
    assert s[|x|] == '|' && s[|y|] == '|';
    assert s[..|x|] == x && s[..|y|] == y && s[|x| + 1..] == b && s[|y| + 1..] == c;
  }

  /** The same two names, whichever way round. */
  predicate SamePair(a: string, b: string, x: string, y: string) {
    (a == x && b == y) || (a == y && b == x)
  }

  /** Keys agree exactly when the rounds do, spaces aside, and the two names do, in either order. */
  lemma {:induction false} KeysAgreeIff(round: string, a: string, b: string, other: string, x: string, y: string)
    requires '|' !in a && '|' !in b && '|' !in x && '|' !in y
    ensures KeyOf(round, a, b) == KeyOf(other, x, y) <==> TrimSpace(round) == TrimSpace(other) && SamePair(a, b, x, y)
  {
    var (lo, hi) := if Less(b, a) then (b, a) else (a, b);
    var (lo2, hi2) := if Less(y, x) then (y, x) else (x, y);
    if KeyOf(round, a, b) == KeyOf(other, x, y) {
      LastBar(TrimSpace(round) + "|" + lo, hi, TrimSpace(other) + "|" + lo2, hi2);
      LastBar(TrimSpace(round), lo, TrimSpace(other), lo2);
    }
    if SamePair(a, b, x, y) {
      AtMostEither(a, b);
      if AtMost(a, b) && AtMost(b, a) {
        AtMostBoth(a, b);
      }
    }
  }

  // ---------------------------------------------------------------- the index

  type Index_ = map<string, seq<Candidate>>

  /** A row is kept under each pair of its players' surnames, by its round and by none. */
  ghost predicate KeptUnder(normalise: Normaliser, c: Candidate, k: string) {
    exists a, b :: a in Surnames(normalise, c.winner) && b in Surnames(normalise, c.loser)
                && (k == KeyOf(c.round, a, b) || k == KeyOf("", a, b))
  }

  function Under(byKey: Index_, k: string): seq<Candidate> {
    if k in byKey then byKey[k] else []
  }

  function Added(byKey: Index_, k: string, c: Candidate): Index_ {
    byKey[k := Under(byKey, k) + [c]]
  }

  ghost predicate Indexes(normalise: Normaliser, cands: seq<Candidate>, byKey: Index_) {
    forall k, c :: c in Under(byKey, k) <==> c in cands && KeptUnder(normalise, c, k)
  }

  /** What a row has been kept under when the first `i` surnames of one player have been paired
      with the other's, and the `i`-th with the first `j` of them. */
  ghost predicate KeptSoFar(normalise: Normaliser, c: Candidate, i: nat, j: nat, k: string) {
    var ws, ls := Surnames(normalise, c.winner), Surnames(normalise, c.loser);
    exists x: nat, y: nat :: x < |ws| && y < |ls| && (x < i || (x == i && y < j))
                          && (k == KeyOf(c.round, ws[x], ls[y]) || k == KeyOf("", ws[x], ls[y]))
  }

  /** The index partway through a row. */
  ghost predicate Indexing(normalise: Normaliser, before: Index_, c: Candidate, i: nat, j: nat, byKey: Index_) {
    forall k, d :: d in Under(byKey, k) <==> d in Under(before, k) || (d == c && KeptSoFar(normalise, c, i, j, k))
  }

  lemma {:induction false} IndexingNext(normalise: Normaliser, before: Index_, c: Candidate, i: nat, j: nat, byKey: Index_)
    requires i < |Surnames(normalise, c.winner)| && j < |Surnames(normalise, c.loser)|
    requires Indexing(normalise, before, c, i, j, byKey)
    ensures var a, b := Surnames(normalise, c.winner)[i], Surnames(normalise, c.loser)[j];
            Indexing(normalise, before, c, i, j + 1, Added(Added(byKey, KeyOf(c.round, a, b), c), KeyOf("", a, b), c))
  {
    var a, b := Surnames(normalise, c.winner)[i], Surnames(normalise, c.loser)[j];
    var after := Added(Added(byKey, KeyOf(c.round, a, b), c), KeyOf("", a, b), c);
    forall k, d
      ensures d in Under(after, k) <==> d in Under(before, k) || (d == c && KeptSoFar(normalise, c, i, j + 1, k))
    {
      assert d in Under(byKey, k) <==> d in Under(before, k) || (d == c && KeptSoFar(normalise, c, i, j, k));
      KeptNext(normalise, c, i, j, k);
    }
  }

  lemma {:induction false} KeptNext(normalise: Normaliser, c: Candidate, i: nat, j: nat, k: string)
    requires i < |Surnames(normalise, c.winner)| && j < |Surnames(normalise, c.loser)|
    ensures var a, b := Surnames(normalise, c.winner)[i], Surnames(normalise, c.loser)[j];
            KeptSoFar(normalise, c, i, j + 1, k) <==>
            KeptSoFar(normalise, c, i, j, k) || k == KeyOf(c.round, a, b) || k == KeyOf("", a, b)
  {
  }

  lemma {:induction false} KeptAll(normalise: Normaliser, c: Candidate, k: string)
    ensures KeptSoFar(normalise, c, |Surnames(normalise, c.winner)|, 0, k) <==> KeptUnder(normalise, c, k)
  {
  }

  /** Keeps one row under all its keys. */
  method IndexRow(normalise: Normaliser, before: Index_, c: Candidate) returns (byKey: Index_)
    ensures Indexing(normalise, before, c, |Surnames(normalise, c.winner)|, 0, byKey)
  {
    byKey := before;
    var ws, ls := Surnames(normalise, c.winner), Surnames(normalise, c.loser);
    for i := 0 to |ws|
      invariant Indexing(normalise, before, c, i, 0, byKey)
    {
      for j := 0 to |ls|
        invariant Indexing(normalise, before, c, i, j, byKey)
      {
        IndexingNext(normalise, before, c, i, j, byKey);
        byKey := Added(Added(byKey, KeyOf(c.round, ws[i], ls[j]), c), KeyOf("", ws[i], ls[j]), c);
      }
      RowFinished(normalise, before, c, i, byKey);
    }
  }

  lemma {:induction false} RowFinished(normalise: Normaliser, before: Index_, c: Candidate, i: nat, byKey: Index_)
    requires Indexing(normalise, before, c, i, |Surnames(normalise, c.loser)|, byKey)
    ensures Indexing(normalise, before, c, i + 1, 0, byKey)
  {
  }

  lemma {:induction false} IndexedOneMore(normalise: Normaliser, cands: seq<Candidate>, before: Index_, c: Candidate, byKey: Index_)
    requires Indexes(normalise, cands, before)
    requires Indexing(normalise, before, c, |Surnames(normalise, c.winner)|, 0, byKey)
    ensures Indexes(normalise, cands + [c], byKey)
  {
    forall k, d
      ensures d in Under(byKey, k) <==> d in cands + [c] && KeptUnder(normalise, d, k)
    {
      assert d in Under(before, k) <==> d in cands && KeptUnder(normalise, d, k);
      KeptAll(normalise, c, k);
    }
  }

  method NewIndex(normalise: Normaliser, cands: seq<Candidate>) returns (byKey: Index_)
    ensures Indexes(normalise, cands, byKey)
  {
    byKey := map[];
    for n := 0 to |cands|
      invariant Indexes(normalise, cands[..n], byKey)
    {
      var before := byKey;
      byKey := IndexRow(normalise, before, cands[n]);
      IndexedOneMore(normalise, cands[..n], before, cands[n], byKey);
      assert cands[..n + 1] == cands[..n] + [cands[n]];
    }
    assert cands[..|cands|] == cands;
  }
}
