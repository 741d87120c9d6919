/** The tolerant score parser (internal/score/parse.go): a function on texts saying what
    is read, and the scanner that moves through a token in place and reads it. */
module ScoreParser {
  import opened Decimal
  import opened Scores
  import opened Text

  // ---------------------------------------------------------------- one token

  /** What reading from the front of a text gives: a value and the text left over. */
  datatype Read<T> = Got(value: T, rest: string) | Bad

  /** How many digits a number may take from the front of `s`; a cap of zero is no cap. */
  function DigitRun(s: string, cap: nat): (k: nat)
    ensures k <= |s| && AllDigits(s[..k])
    ensures k == 0 <==> s == [] || !IsDigit(s[0])
  {
    if s == [] || !IsDigit(s[0]) then 0
    else if cap == 1 then 1
    else 1 + DigitRun(s[1..], if cap == 0 then 0 else cap - 1)
  }

  function ReadDigits(s: string, cap: nat): (r: Read<int>)
    ensures r.Got? ==> 0 <= r.value <= MAX_GAMES && |r.rest| < |s|
  {
    var k := DigitRun(s, cap);
    if k == 0 || Number(s[..k]) > MAX_GAMES then Bad else Got(Number(s[..k]), s[k..])
  }

  function IntReader(cap: nat): string -> Read<int> {
    s => ReadDigits(s, cap)
  }

  /** `ReadDigits` by way of a function value, so that a proof about a whole set opens
      the reading of a number only by asking (`ReadIntMeans`). */
  function ReadInt(s: string, cap: nat): (r: Read<int>)
    ensures r.Got? ==> 0 <= r.value <= MAX_GAMES && |r.rest| < |s|
  {
    IntReader(cap)(s)
  }

  lemma {:induction false} ReadIntMeans(s: string, cap: nat)
    ensures ReadInt(s, cap) == ReadDigits(s, cap)
  {
  }

  predicate At(s: string, c: char) {
    s != [] && s[0] == c
  }

  /** "6-4", "7-6(5)" or "7-6(8-6)". */
  function ReadGames(s: string, cap: nat): (r: Read<Set>)
    ensures r.Got? ==> Readable(r.value) && !r.value.superTiebreak && |r.rest| < |s|
  {
    match ReadInt(s, cap)
    case Bad => Bad
    case Got(w, s1) =>
      if !At(s1, '-') then Bad else
      match ReadInt(s1[1..], cap)
      case Bad => Bad
      case Got(l, s2) => if At(s2, '(') then ReadTiebreak(s2[1..], cap, w, l) else Got(Set(w, l, 0, 0, false), s2)
  }

  function SetReader(cap: nat): string -> Read<Set> {
    s => ReadGames(s, cap)
  }

  /** As with `ReadInt`: a proof opens the reading of one set by asking (`ReadSetMeans`). */
  function ReadSet(s: string, cap: nat): (r: Read<Set>)
    ensures r.Got? ==> Readable(r.value) && !r.value.superTiebreak && |r.rest| < |s|
  {
    SetReader(cap)(s)
  }

  lemma {:induction false} ReadSetMeans(s: string, cap: nat)
    ensures ReadSet(s, cap) == ReadGames(s, cap)
  {
  }

  function ReadTiebreak(s: string, cap: nat, w: int, l: int): (r: Read<Set>)
    requires 0 <= w <= MAX_GAMES && 0 <= l <= MAX_GAMES
    ensures r.Got? ==> Readable(r.value) && !r.value.superTiebreak && |r.rest| < |s|
  {
    match ReadInt(s, cap)
    case Bad => Bad
    case Got(first, s1) =>
      if At(s1, '-') then
        match ReadInt(s1[1..], cap)
        case Bad => Bad
        case Got(second, s2) => Closed(Set(w, l, first, second, false), s2)
      else Closed(Set(w, l, ImpliedTiebreakWinner(first), first, false), s1)
  }

  function Closed(value: Set, s: string): Read<Set> {
    if At(s, ')') then Got(value, s[1..]) else Bad
  }

  /** All the sets of a token: a hyphen between two, or nothing but the next one's digit. */
  function ReadSets(s: string, cap: nat): Result<seq<Set>>
    decreases |s|
  {
    match ReadSet(s, cap)
    case Bad => Malformed
    case Got(first, rest) =>
      if rest == [] then Ok([first])
      else if At(rest, '-') then Led(first, ReadSets(rest[1..], cap))
      else if IsDigit(rest[0]) then Led(first, ReadSets(rest, cap))
      else Malformed
  }

  function Led(first: Set, others: Result<seq<Set>>): Result<seq<Set>> {
    if others.Ok? then Ok([first] + others.value) else Malformed
  }

  /** "[10-7]", the closing bracket optional. */
  function ReadSuperTiebreak(token: string): Result<Set> {
    match ReadInt(TrimSuffix(TrimPrefix(token, "["), "]"), 0)
    case Bad => Malformed
    case Got(w, s1) =>
      if !At(s1, '-') then Malformed else
      match ReadInt(s1[1..], 0)
      case Bad => Malformed
      case Got(l, s2) => if s2 == [] then Ok(Set(0, 0, w, l, true)) else Malformed
  }

  /** One token: read greedily, and if that fails again with single-digit games. */
  function ReadToken(token: string): Result<seq<Set>> {
    if HasPrefix(token, "[") then
      match ReadSuperTiebreak(token)
      case Malformed => Malformed
      case Ok(s) => Ok([s])
    else if HasSuffix(token, "-") then Ok([])
    else if ReadSets(token, 0).Ok? then ReadSets(token, 0)
    else ReadSets(token, 1)
  }

  // ---------------------------------------------------------------- the scanner

  class Scanner {
    const src: string
    const maxDigits: nat
    var pos: nat

    constructor (src: string, maxDigits: nat)
      ensures this.src == src && this.maxDigits == maxDigits && pos == 0
    {
      this.src := src;
      this.maxDigits := maxDigits;
      pos := 0;
    }

    predicate Valid()
      reads this
    {
      pos <= |src|
    }

    function Rest(): string
      requires Valid()
      reads this
    {
      src[pos..]
    }

    function Done(): (r: bool)
      requires Valid()
      reads this
      ensures r <==> Rest() == []
    {
      pos >= |src|
    }

    function AtDigit(): (r: bool)
      requires Valid()
      reads this
      ensures r <==> Rest() != [] && IsDigit(Rest()[0])
    {
      !Done() && IsDigit(src[pos])
    }

    /** Steps over `c` if it comes next. */
    method Accept(c: char) returns (ok: bool)
      requires Valid()
      modifies this
      ensures Valid() && ok == At(old(Rest()), c)
      ensures Rest() == if ok then old(Rest())[1..] else old(Rest())
    {
      ok := !Done() && src[pos] == c;
      if ok {
        pos := pos + 1;
      }
    }

    /** Moves past the digits a number may take from here. */
    method SkipDigits()
      requires Valid()
      modifies this
      ensures Valid() && pos == old(pos) + DigitRun(old(Rest()), maxDigits)
    {
      var start := pos;
      ghost var run := DigitRun(Rest(), maxDigits);
      while AtDigit() && !(maxDigits > 0 && pos - start >= maxDigits)
        invariant Valid() && start <= pos && (maxDigits > 0 ==> pos - start <= maxDigits)
        invariant maxDigits == 0 ==> run == pos - start + DigitRun(Rest(), 0)
        invariant maxDigits > pos - start ==> run == pos - start + DigitRun(Rest(), maxDigits - (pos - start))
        invariant 0 < maxDigits == pos - start ==> run == pos - start
        decreases |src| - pos
      {
        assert Rest()[1..] == src[pos + 1..];
        pos := pos + 1;
      }
    }

    method Int() returns (r: Result<int>)
      requires Valid()
      modifies this
      ensures Valid() && old(pos) <= pos
      ensures match ReadInt(old(Rest()), maxDigits)
              case Bad => r == Malformed
              case Got(n, rest) => r == Ok(n) && Rest() == rest && old(pos) < pos
    {
      var start := pos;
      ReadIntMeans(Rest(), maxDigits);
      SkipDigits();
      if start == pos {
        return Malformed;
      }
      var digits, n := src[start..pos], 0;
      assert digits == src[start..][..pos - start];
      for i := 0 to |digits|
        invariant n == Number(digits[..i])
      {
        assert digits[..i + 1][..i] == digits[..i];
        n := n * 10 + DigitValue(digits[i]);
      }
      assert digits[..|digits|] == digits;
      if n > MAX_GAMES {
        return Malformed;
      }
      return Ok(n);
    }

    method ReadOne() returns (r: Result<Set>)
      requires Valid()
      modifies this
      ensures Valid() && old(pos) <= pos
      ensures match ReadSet(old(Rest()), maxDigits)
              case Bad => r == Malformed
              case Got(s, rest) => r == Ok(s) && Rest() == rest && old(pos) < pos
    {
      ReadSetMeans(Rest(), maxDigits);
      var w := Int();
      if w.Malformed? { return Malformed; }
      var hyphen := Accept('-');
      if !hyphen { return Malformed; }
      var l := Int();
      if l.Malformed? { return Malformed; }
      var opening := Accept('(');
      if !opening {
        return Ok(Set(w.value, l.value, 0, 0, false));
      }
      r := Tiebreak(w.value, l.value);
    }

    method Tiebreak(w: int, l: int) returns (r: Result<Set>)
      requires Valid() && 0 <= w <= MAX_GAMES && 0 <= l <= MAX_GAMES
      modifies this
      ensures Valid() && old(pos) <= pos
      ensures match ReadTiebreak(old(Rest()), maxDigits, w, l)
              case Bad => r == Malformed
              case Got(s, rest) => r == Ok(s) && Rest() == rest && old(pos) < pos
    {
      var first := Int();
      if first.Malformed? { return Malformed; }
      var found := Set(w, l, ImpliedTiebreakWinner(first.value), first.value, false);
      var hyphen := Accept('-');
      if hyphen {
        var second := Int();
        if second.Malformed? { return Malformed; }
        found := Set(w, l, first.value, second.value, false);
      }
      var closing := Accept(')');
      if !closing { return Malformed; }
      return Ok(found);
    }
  }

  /** The sets already read in front of what is still to be read. */
  function Ahead(sets: seq<Set>, others: Result<seq<Set>>): Result<seq<Set>> {
    if others.Ok? then Ok(sets + others.value) else Malformed
  }

  lemma {:induction false} AheadOfLed(sets: seq<Set>, first: Set, others: Result<seq<Set>>)
    ensures Ahead(sets, Led(first, others)) == Ahead(sets + [first], others)
  {
    if others.Ok? {
      assert sets + ([first] + others.value) == (sets + [first]) + others.value;
    }
  }

  method ScanSets(token: string, maxDigits: nat) returns (r: Result<seq<Set>>)
    ensures r == ReadSets(token, maxDigits)
  {
    var p := new Scanner(token, maxDigits);
    var sets: seq<Set> := [];
    assert token[0..] == token;
    ghost var whole := ReadSets(token, maxDigits);
    assert Ahead([], whole) == whole by {
      assert whole.Ok? ==> [] + whole.value == whole.value;
    }
    while true
      invariant fresh(p) && p.Valid() && p.src == token && p.maxDigits == maxDigits
      invariant whole == Ahead(sets, ReadSets(p.Rest(), maxDigits))
      decreases |p.src| - p.pos
    {
      ghost var here := p.Rest();
      var one := p.ReadOne();
      if one.Malformed? {
        return Malformed;
      }
      ghost var rest := p.Rest();
      AheadOfLed(sets, one.value, ReadSets(rest, maxDigits));
      if p.Done() {
        return Ok(sets + [one.value]);
      }
      AheadOfLed(sets, one.value, ReadSets(rest[1..], maxDigits));
      sets := sets + [one.value];
      var hyphen := p.Accept('-');
      if !hyphen && !p.AtDigit() {
        return Malformed;
      }
    }
  }

  method ParseSuperTiebreak(token: string) returns (r: Result<Set>)
    ensures r == ReadSuperTiebreak(token)
  {
    var p := new Scanner(TrimSuffix(TrimPrefix(token, "["), "]"), 0);
    var w := p.Int();
    if w.Malformed? { return Malformed; }
    var hyphen := p.Accept('-');
    if !hyphen { return Malformed; }
    var l := p.Int();
    if l.Malformed? || !p.Done() { return Malformed; }
    return Ok(Set(0, 0, w.value, l.value, true));
  }

  method ParseToken(token: string) returns (r: Result<seq<Set>>)
    ensures r == ReadToken(token)
  {
    if HasPrefix(token, "[") {
      var one := ParseSuperTiebreak(token);
      return if one.Ok? then Ok([one.value]) else Malformed;
    }
    if HasSuffix(token, "-") {
      return Ok([]);
    }
    r := ScanSets(token, 0);
    if r.Malformed? {
      r := ScanSets(token, 1);
    }
  }

  // ---------------------------------------------------------------- the line

  const PROSE := ["played and", "unfinished", "abandoned"]

  /** The text up to the first of the prose words in it, and whether there was one. */
  function Stripped(text: string, words: seq<string>): (string, bool) {
    if words == [] then (text, false)
    else
      var (kept, found) := Stripped(text, words[..|words| - 1]);
      var i := Index(Lower(kept), words[|words| - 1]);
      if i >= 0 then (kept[..i], true) else (kept, found)
  }

  datatype Marker = NoMarker | Marker(outcome: Outcome)

  function MarkerOf(upper: string): Marker {
    if upper == "W/O" || upper == "WO" then Marker(Walkover)
    else if upper == "RET" then Marker(Retired)
    else if upper == "DEF" then Marker(Defaulted)
    else if upper == "ABD" then Marker(Abandoned)
    else if upper == "UNK" then Marker(Unknown)
    else NoMarker
  }

  /** The fields kept as games, and the outcome the others name. */
  function Sift(fields: seq<string>, outcome: Outcome): (seq<string>, Outcome) {
    if fields == [] then ([], outcome)
    else
      var (kept, before) := Sift(fields[..|fields| - 1], outcome);
      var field := fields[|fields| - 1];
      match MarkerOf(Upper(TrimStops(field)))
      case Marker(o) => (kept, o)
      case NoMarker =>
        if '?' in field then (kept, if before == Complete then Unknown else before)
        else (kept + [field], before)
  }

  /** Rejoins sets split by a stray space, onto those already out. */
  function Heal(fields: seq<string>, out: seq<string>): seq<string>
    decreases |fields|
  {
    if fields == [] then out
    else if HasSuffix(fields[0], "-") && |fields| > 1 then Heal(fields[2..], out + [fields[0] + fields[1]])
    else if HasPrefix(fields[0], "(") && out != [] then
      Heal(fields[1..], out[|out| - 1 := out[|out| - 1] + fields[0]])
    else Heal(fields[1..], out + [fields[0]])
  }

  function HealSpacing(text: string): string {
    Join(Heal(Fields(text), []), " ")
  }

  function Normalise(raw: string): (string, Outcome) {
    var (prose, found) := Stripped(TrimSpace(raw), PROSE);
    var (kept, outcome) := Sift(Fields(prose), if found then Abandoned else Complete);
    (HealSpacing(Join(kept, " ")), outcome)
  }

  predicate LooksLikeSet(token: string) {
    token != [] && (token[0] == '[' || (IsDigit(token[0]) && '-' in token))
  }

  /** The sets of all the tokens, and whether any token gave none. */
  function ReadTokens(tokens: seq<string>): Result<(seq<Set>, bool)> {
    if tokens == [] then Ok(([], false))
    else
      match ReadTokens(tokens[..|tokens| - 1])
      case Malformed => Malformed
      case Ok((sets, skipped)) => WithToken(sets, skipped, tokens[|tokens| - 1])
  }

  function WithToken(sets: seq<Set>, skipped: bool, token: string): Result<(seq<Set>, bool)> {
    if !LooksLikeSet(token) then Ok((sets, true))
    else
      match ReadToken(token)
      case Malformed => Malformed
      case Ok(more) => Ok((sets + more, skipped || more == []))
  }

  /** What a raw score line is read as. */
  function ReadScore(raw: string): Result<Score> {
    ReadNormalised(Normalise(raw), raw)
  }

  function ReadNormalised(normalised: (string, Outcome), raw: string): Result<Score> {
    if normalised.0 == "" then Ok(Score([], Settled(normalised.1, true), raw))
    else
      match ReadTokens(Fields(normalised.0))
      case Malformed => Malformed
      case Ok((sets, skipped)) => Ok(Score(sets, Settled(normalised.1, skipped || sets == []), raw))
  }

  /** A line that left something unread does not say the match was completed. */
  function Settled(outcome: Outcome, unread: bool): Outcome {
    if outcome == Complete && unread then Unknown else outcome
  }

  method HealFields(fields: seq<string>) returns (out: seq<string>)
    ensures out == Heal(fields, [])
  {
    out := [];
    var i := 0;
    while i < |fields|
      invariant 0 <= i <= |fields|
      invariant Heal(fields, []) == Heal(fields[i..], out)
    {
      assert fields[i..][1..] == fields[i + 1..];
      if HasSuffix(fields[i], "-") && i + 1 < |fields| {
        assert fields[i..][2..] == fields[i + 2..];
        out := out + [fields[i] + fields[i + 1]];
        i := i + 2;
      } else if HasPrefix(fields[i], "(") && |out| > 0 {
        out := out[|out| - 1 := out[|out| - 1] + fields[i]];
        i := i + 1;
      } else {
        out := out + [fields[i]];
        i := i + 1;
      }
    }
  }

  method StripProse(text: string) returns (prose: string, found: bool)
    ensures (prose, found) == Stripped(text, PROSE)
  {
    prose, found := text, false;
    for n := 0 to |PROSE|
      invariant (prose, found) == Stripped(text, PROSE[..n])
    {
      assert PROSE[..n + 1][..n] == PROSE[..n];
      var i := Index(Lower(prose), PROSE[n]);
      if i >= 0 {
        found := true;
        prose := prose[..i];
      }
    }
    assert PROSE[..|PROSE|] == PROSE;
  }

  method NormaliseText(raw: string) returns (text: string, outcome: Outcome)
    ensures (text, outcome) == Normalise(raw)
  {
    var prose: string, found: bool := StripProse(TrimSpace(raw));
    outcome := if found then Abandoned else Complete;
    var fields: seq<string>, kept: seq<string> := Fields(prose), [];
    ghost var named := outcome;
    for i := 0 to |fields|
      invariant (kept, outcome) == Sift(fields[..i], named)
    {
      assert fields[..i + 1][..i] == fields[..i];
      var marker := MarkerOf(Upper(TrimStops(fields[i])));
      if marker.Marker? {
        outcome := marker.outcome;
      } else if '?' in fields[i] {
        outcome := if outcome == Complete then Unknown else outcome;
      } else {
        kept := kept + [fields[i]];
      }
    }
    assert fields[..|fields|] == fields;
    var healed := HealFields(Fields(Join(kept, " ")));
    text := Join(healed, " ");
  }

  method TakeToken(sets: seq<Set>, skipped: bool, token: string) returns (r: Result<(seq<Set>, bool)>)
    ensures r == WithToken(sets, skipped, token)
  {
    if !LooksLikeSet(token) {
      return Ok((sets, true));
    }
    var more := ParseToken(token);
    if more.Malformed? {
      return Malformed;
    }
    return Ok((sets + more.value, skipped || more.value == []));
  }

  lemma {:induction false} ReadOneMore(tokens: seq<string>, i: nat, sets: seq<Set>, skipped: bool)
    requires i < |tokens| && ReadTokens(tokens[..i]) == Ok((sets, skipped))
    ensures ReadTokens(tokens[..i + 1]) == WithToken(sets, skipped, tokens[i])
  {
    assert tokens[..i + 1][..i] == tokens[..i];
  }

  method ParseTokens(tokens: seq<string>) returns (r: Result<(seq<Set>, bool)>)
    ensures r == ReadTokens(tokens)
  {
    r := Ok(([], false));
    for i := 0 to |tokens|
      invariant r.Ok? && ReadTokens(tokens[..i]) == r
    {
      ReadOneMore(tokens, i, r.value.0, r.value.1);
      r := TakeToken(r.value.0, r.value.1, tokens[i]);
      if r.Malformed? {
        MalformedStays(tokens, i + 1);
        return;
      }
    }
    assert tokens[..|tokens|] == tokens;
  }

  method Parse(raw: string) returns (r: Result<Score>)
    ensures r == ReadScore(raw)
  {
    var text: string, outcome: Outcome := NormaliseText(raw);
    if text == "" {
      return Ok(Score([], Settled(outcome, true), raw));
    }
    var all := ParseTokens(Fields(text));
    if all.Malformed? {
      return Malformed;
    }
    return Ok(Score(all.value.0, Settled(outcome, all.value.1 || all.value.0 == []), raw));
  }

  /** One unreadable token makes the whole line unreadable. */
  lemma {:induction false} MalformedStays(tokens: seq<string>, n: nat)
    requires n <= |tokens| && ReadTokens(tokens[..n]) == Malformed
    ensures ReadTokens(tokens) == Malformed
    decreases |tokens| - n
  {
    if n == |tokens| {
      assert tokens[..n] == tokens;
    } else {
      assert tokens[..n + 1][..n] == tokens[..n];
      MalformedStays(tokens, n + 1);
    }
  }
}
