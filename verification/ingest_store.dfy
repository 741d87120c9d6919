/** The counting inside one batch: rows that share a natural key collapse into one
    match, and every row is one or the other. */
module IngestStore {
  import opened Collections

  datatype MatchKey = MatchKey(tournamentId: int, matchNum: int, qualifying: bool, lowPlayerId: int, highPlayerId: int)

  /** The pair is stored low id first. */
  function NewMatchKey(tournamentId: int, matchNum: int, qualifying: bool, a: int, b: int): MatchKey {
    if a > b then MatchKey(tournamentId, matchNum, qualifying, b, a) else MatchKey(tournamentId, matchNum, qualifying, a, b)
  }

  /** A correction that swaps winner and loser is the same match, and nothing else is. */
  lemma {:induction false} SameMatchKey(t: int, m: int, q: bool, a: int, b: int, t': int, m': int, q': bool, a': int, b': int)
    ensures NewMatchKey(t, m, q, a, b) == NewMatchKey(t', m', q', a', b')
       <==> t == t' && m == m' && q == q' && multiset{a, b} == multiset{a', b'}
  {
  }

  datatype BatchRow = BatchRow(tourney: string, matchNum: int, qualifying: bool, winner: string, loser: string)

  function KeyOfRow(r: BatchRow, players: map<string, int>, tournaments: map<string, int>): Option<MatchKey> {
    if r.tourney in tournaments && r.winner in players && r.loser in players
    then Some(NewMatchKey(tournaments[r.tourney], r.matchNum, r.qualifying, players[r.winner], players[r.loser]))
    else None
  }

  /** The id kept for each key: that of its last row. */
  function IdsOf(keys: seq<MatchKey>, answers: seq<int>): map<MatchKey, int>
    requires |keys| == |answers|
  {
    if keys == [] then map[]
    else
      var n := |keys| - 1;
      IdsOf(keys[..n], answers[..n])[keys[n] := answers[n]]
  }

  /** Rows whose key an earlier row of the batch already had. */
  function Repeats(keys: seq<MatchKey>): nat {
    if keys == [] then 0
    else
      var n := |keys| - 1;
      Repeats(keys[..n]) + (if keys[n] in keys[..n] then 1 else 0)
  }

  /** Every row is a match or collapsed into one, and each match keeps the id its
      last row was answered with. */
  lemma {:induction false} MatchesAndCollapsedAreRows(keys: seq<MatchKey>, answers: seq<int>)
    requires |keys| == |answers|
    ensures IdsOf(keys, answers).Keys == (set key | key in keys)
    ensures |IdsOf(keys, answers)| + Repeats(keys) == |keys|
    ensures forall i | 0 <= i < |keys| && keys[i] !in keys[i + 1..] :: IdsOf(keys, answers)[keys[i]] == answers[i]
  {
    if keys != [] {
      var n := |keys| - 1;
      MatchesAndCollapsedAreRows(keys[..n], answers[..n]);
      assert keys == keys[..n] + [keys[n]];
      forall i | 0 <= i < |keys| && keys[i] !in keys[i + 1..]
        ensures IdsOf(keys, answers)[keys[i]] == answers[i]
      {
        if i < n {
          assert keys[i + 1..] == keys[..n][i + 1..] + [keys[n]];
          assert keys[i] == keys[..n][i] && keys[..n][i] !in keys[..n][i + 1..];
        }
      }
    }
  }

  lemma {:induction false} IdsHave(keys: seq<MatchKey>, answers: seq<int>, key: MatchKey)
    requires |keys| == |answers|
    ensures key in IdsOf(keys, answers) <==> key in keys
  {
    if keys != [] {
      var n := |keys| - 1;
      IdsHave(keys[..n], answers[..n], key);
      assert keys == keys[..n] + [keys[n]];
    }
  }

  /** One more answer read: its key may have been met before. */
  lemma {:induction false} OneMoreAnswer(keys: seq<MatchKey>, given: seq<int>, key: MatchKey, answer: int)
    requires |keys| == |given|
    ensures IdsOf(keys + [key], given + [answer]) == IdsOf(keys, given)[key := answer]
    ensures Repeats(keys + [key]) == Repeats(keys) + if key in IdsOf(keys, given) then 1 else 0
  {
    assert (keys + [key])[..|keys|] == keys && (given + [answer])[..|given|] == given;
    IdsHave(keys, given, key);
  }

  ghost predicate Queues(rows: seq<BatchRow>, players: map<string, int>, tournaments: map<string, int>, keys: seq<MatchKey>) {
    |keys| == |rows| && forall i | 0 <= i < |rows| :: KeyOfRow(rows[i], players, tournaments) == Some(keys[i])
  }

  ghost predicate Answered(answers: seq<Option<int>>, given: seq<int>) {
    |given| == |answers| && forall i | 0 <= i < |answers| :: answers[i] == Some(given[i])
  }

  method QueueKeys(rows: seq<BatchRow>, players: map<string, int>, tournaments: map<string, int>) returns (keys: Option<seq<MatchKey>>)
    ensures keys.None? <==> exists i | 0 <= i < |rows| :: KeyOfRow(rows[i], players, tournaments).None?
    ensures keys.Some? ==> Queues(rows, players, tournaments, keys.value)
  {
    var queued := [];
    for i := 0 to |rows|
      invariant Queues(rows[..i], players, tournaments, queued)
    {
      var key := KeyOfRow(rows[i], players, tournaments);
      if key.None? {
        return None;
      }
      queued := queued + [key.value];
    }
    assert rows[..|rows|] == rows;
    keys := Some(queued);
  }

  /** The answers of a batch, and whether closing its results succeeds. */
  method ReadAnswers(keys: seq<MatchKey>, answers: seq<Option<int>>, closes: bool)
    returns (ids: Option<map<MatchKey, int>>, collapsed: nat, ghost given: seq<int>)
    requires |answers| == |keys|
    ensures ids.None? <==> !closes || exists i | 0 <= i < |answers| :: answers[i].None?
    ensures ids.Some? ==> Answered(answers, given) && ids.value == IdsOf(keys, given) && collapsed == Repeats(keys)
  {
    var written: map<MatchKey, int> := map[];
    given, collapsed := [], 0;
    for i := 0 to |keys|
      invariant Answered(answers[..i], given)
      invariant written == IdsOf(keys[..i], given) && collapsed == Repeats(keys[..i])
    {
      if answers[i].None? {
        return None, 0, [];
      }
      OneMoreAnswer(keys[..i], given, keys[i], answers[i].value);
      assert keys[..i + 1] == keys[..i] + [keys[i]];
      if keys[i] in written {
        collapsed := collapsed + 1;
      }
      written := written[keys[i] := answers[i].value];
      given := given + [answers[i].value];
    }
    assert keys[..|keys|] == keys && answers[..|keys|] == answers;
    if !closes {
      return None, 0, [];
    }
    ids := Some(written);
  }

  /** `upsertMatches`: queue every row, then read the answers back in the order they
      were queued. A row naming an unwritten tournament or player, an answer that is an
      error, or results that fail to close, fails the whole batch; a batch of no rows is
      never sent. */
  method UpsertMatches(rows: seq<BatchRow>, players: map<string, int>, tournaments: map<string, int>,
                       answers: seq<Option<int>>, closes: bool)
    returns (ids: Option<map<MatchKey, int>>, collapsed: nat, ghost keys: seq<MatchKey>, ghost given: seq<int>)
    requires |answers| == |rows|
    ensures ids.None? <==>
              || (rows != [] && !closes)
              || exists i | 0 <= i < |rows| :: KeyOfRow(rows[i], players, tournaments).None? || answers[i].None?
    ensures ids.Some? ==>
              && Queues(rows, players, tournaments, keys) && Answered(answers, given)
              && ids.value == IdsOf(keys, given) && collapsed == Repeats(keys)
              && |ids.value| + collapsed == |rows|
  {
    var queued := QueueKeys(rows, players, tournaments);
    if queued.None? {
      return None, 0, [], [];
    }
    keys := queued.value;
    if |queued.value| == 0 {
      return Some(map[]), 0, keys, [];
    }
    ids, collapsed, given := ReadAnswers(queued.value, answers, closes);
    if ids.Some? {
      MatchesAndCollapsedAreRows(keys, given);
    }
  }
}
