/** Numbers invented for rows without one: probed past those already taken, wrapping
    round a fixed range. */
module IngestReader {
  import opened Collections

  const SYNTHETIC_BASE := 1000
  const SYNTHETIC_RANGE := 31000

  predicate InRange(n: int) {
    SYNTHETIC_BASE <= n < SYNTHETIC_BASE + SYNTHETIC_RANGE
  }

  function NextProbe(n: int): int {
    if n + 1 >= SYNTHETIC_BASE + SYNTHETIC_RANGE then SYNTHETIC_BASE else n + 1
  }

  /** The k-th number tried from `start`. */
  function Probe(start: int, k: nat): int {
    if k == 0 then start else NextProbe(Probe(start, k - 1))
  }

  ghost predicate FirstFree(start: int, used: set<int>, n: int, tries: nat) {
    n == Probe(start, tries) && n !in used && forall i | 0 <= i < tries :: Probe(start, i) in used
  }

  /** How many probes from n to reach `free`, both in range. */
  function Distance(n: int, free: int): nat
    requires InRange(free) && SYNTHETIC_BASE <= n
  {
    if n <= free then free - n
    else if InRange(n) then free - n + SYNTHETIC_RANGE
    else SYNTHETIC_RANGE + 1
  }

  /** The first n numbers of the range. */
  function FirstNumbers(n: nat): (r: set<int>)
    ensures |r| == n && forall i :: i in r <==> SYNTHETIC_BASE <= i < SYNTHETIC_BASE + n
  {
    if n == 0 then {} else FirstNumbers(n - 1) + {SYNTHETIC_BASE + n - 1}
  }

  /** Fewer taken than there are numbers leaves one free. */
  lemma {:induction false} SomeFree(used: set<int>) returns (free: int)
    requires |used| < SYNTHETIC_RANGE
    ensures InRange(free) && free !in used
  {
    var all := FirstNumbers(SYNTHETIC_RANGE);
    if all <= used {
      Within(all, used);
    }
    free :| free in all && free !in used;
  }

  type Synthetic = map<string, set<int>>

  function UsedIn(synthetic: Synthetic, tourney: string): set<int> {
    if tourney in synthetic then synthetic[tourney] else {}
  }

  class Reader {
    var synthetic: Synthetic

    constructor ()
      ensures forall t :: UsedIn(synthetic, t) == {}
    {
      synthetic := map[];
    }

    method UniqueSynthetic(tourney: string, matchNum: int) returns (n: int, ghost tries: nat)
      requires SYNTHETIC_BASE <= matchNum && |UsedIn(synthetic, tourney)| < SYNTHETIC_RANGE
      modifies this
      ensures SYNTHETIC_BASE <= n && FirstFree(matchNum, UsedIn(old(synthetic), tourney), n, tries)
      ensures n == matchNum || 1000 <= n < 32000
      ensures UsedIn(synthetic, tourney) == UsedIn(old(synthetic), tourney) + {n}
      ensures forall t | t != tourney :: UsedIn(synthetic, t) == UsedIn(old(synthetic), t)
    {
      var used := {};
      if tourney in synthetic {
        used := synthetic[tourney];
      } else {
        synthetic := synthetic[tourney := used];
      }
      ghost var free := SomeFree(used);
      n := matchNum;
      tries := 0;
      while n in used
        invariant SYNTHETIC_BASE <= n && n == Probe(matchNum, tries) && (n == matchNum || InRange(n))
        invariant forall i | 0 <= i < tries :: Probe(matchNum, i) in used
        decreases Distance(n, free)
      {
        n := n + 1;
        if n >= SYNTHETIC_BASE + SYNTHETIC_RANGE {
          n := SYNTHETIC_BASE;
        }
        tries := tries + 1;
      }
      synthetic := synthetic[tourney := used + {n}];
    }

    /** Every row of a file in file order. The numbers of one tournament never repeat
        among those invented, nor meet one the source gave. */
    method NumberFile(rows: seq<(string, int)>) returns (nums: seq<int>)
      requires forall t :: UsedIn(synthetic, t) == {}
      requires forall t :: Invented(rows, t) <= SYNTHETIC_RANGE
      modifies this
      ensures |nums| == |rows|
      ensures forall i | 0 <= i < |rows| && rows[i].1 < SYNTHETIC_BASE :: nums[i] == rows[i].1
      ensures forall i | 0 <= i < |rows| && rows[i].1 >= SYNTHETIC_BASE :: nums[i] >= SYNTHETIC_BASE
      ensures forall i, j | 0 <= i < j < |rows| && rows[i].0 == rows[j].0
                && rows[i].1 >= SYNTHETIC_BASE && rows[j].1 >= SYNTHETIC_BASE :: nums[i] != nums[j]
    {
      nums := [];
      for k := 0 to |rows|
        invariant NumberedTo(rows, k, nums, synthetic)
      {
        var (tourney, num) := rows[k];
        InventedGrows(rows, k, tourney);
        InventedStep(rows, k, tourney);
        ghost var before := synthetic;
        if num >= SYNTHETIC_BASE {
          ghost var tries;
          num, tries := UniqueSynthetic(tourney, num);
        }
        NumberedNext(rows, k, nums, before, synthetic, num);
        nums := nums + [num];
      }
      assert rows[..|rows|] == rows;
    }
  }

  /** The first `k` rows numbered, and the numbers their tournaments have used. */
  ghost predicate NumberedTo(rows: seq<(string, int)>, k: nat, nums: seq<int>, synthetic: Synthetic) {
    && k == |nums| <= |rows|
    && (forall i | 0 <= i < k && rows[i].1 < SYNTHETIC_BASE :: nums[i] == rows[i].1)
    && (forall i | 0 <= i < k && rows[i].1 >= SYNTHETIC_BASE ::
          nums[i] >= SYNTHETIC_BASE && nums[i] in UsedIn(synthetic, rows[i].0))
    && (forall t :: |UsedIn(synthetic, t)| <= Invented(rows[..k], t))
    && (forall i, j | 0 <= i < j < k && rows[i].0 == rows[j].0
          && rows[i].1 >= SYNTHETIC_BASE && rows[j].1 >= SYNTHETIC_BASE :: nums[i] != nums[j])
  }

  lemma {:induction false} NumberedNext(rows: seq<(string, int)>, k: nat, nums: seq<int>, before: Synthetic, after: Synthetic, num: int)
    requires k < |rows| && NumberedTo(rows, k, nums, before)
    requires var (tourney, given) := rows[k];
             if given < SYNTHETIC_BASE then num == given && after == before
             else num >= SYNTHETIC_BASE && num !in UsedIn(before, tourney)
                  && UsedIn(after, tourney) == UsedIn(before, tourney) + {num}
                  && forall t | t != tourney :: UsedIn(after, t) == UsedIn(before, t)
    ensures NumberedTo(rows, k + 1, nums + [num], after)
  {
    forall t
      ensures |UsedIn(after, t)| <= Invented(rows[..k + 1], t)
    {
      InventedStep(rows, k, t);
    }
    forall i | 0 <= i < k + 1 && rows[i].1 >= SYNTHETIC_BASE
      ensures (nums + [num])[i] in UsedIn(after, rows[i].0)
    {
    }
  }

  /** Rows of one tournament whose number is in the invented space. */
  function Invented(rows: seq<(string, int)>, tourney: string): nat {
    if rows == [] then 0
    else
      var last := rows[|rows| - 1];
      Invented(rows[..|rows| - 1], tourney) + (if last.0 == tourney && last.1 >= SYNTHETIC_BASE then 1 else 0)
  }

  lemma {:induction false} InventedStep(rows: seq<(string, int)>, k: nat, tourney: string)
    requires k < |rows|
    ensures Invented(rows[..k + 1], tourney)
         == Invented(rows[..k], tourney) + (if rows[k].0 == tourney && rows[k].1 >= SYNTHETIC_BASE then 1 else 0)
  {
    assert rows[..k + 1][..k] == rows[..k];
  }

  lemma {:induction false} InventedGrows(rows: seq<(string, int)>, k: nat, tourney: string)
    requires k < |rows|
    ensures Invented(rows[..k + 1], tourney) <= Invented(rows, tourney)
    decreases |rows|
  {
    if k + 1 < |rows| {
      var most := rows[..|rows| - 1];
      assert most[..k + 1] == rows[..k + 1];
      InventedGrows(most, k, tourney);
    } else {
      assert rows[..k + 1] == rows;
    }
  }
}
