/** The string operations the score parser leans on, over sequences of characters. */
module Text {

  predicate IsSpace(c: char) {
    || '\t' <= c <= '\r' || c == ' ' || c == '\U{0085}' || c == '\U{00A0}' || c == '\U{1680}'
    || '\U{2000}' <= c <= '\U{200A}' || c == '\U{2028}' || c == '\U{2029}' || c == '\U{202F}'
    || c == '\U{205F}' || c == '\U{3000}'
  }

  predicate IsDigit(c: char) {
    '0' <= c <= '9'
  }

  /** A nonempty run of characters none of which is a space. */
  predicate IsWord(w: string) {
    w != [] && forall i | 0 <= i < |w| :: !IsSpace(w[i])
  }

  predicate AllWords(ws: seq<string>) {
    forall i | 0 <= i < |ws| :: IsWord(ws[i])
  }

  function SkipSpaces(s: string): (r: string)
    ensures |r| <= |s| && (r != [] ==> !IsSpace(r[0]))
  {
    if s != [] && IsSpace(s[0]) then SkipSpaces(s[1..]) else s
  }

  function WordLength(s: string): (k: nat)
    ensures k <= |s| && (s != [] && !IsSpace(s[0]) ==> k > 0)
  {
    if s != [] && !IsSpace(s[0]) then 1 + WordLength(s[1..]) else 0
  }

  /** The words of a text, in order. */
  function Fields(s: string): seq<string>
    decreases |s|
  {
    var t := SkipSpaces(s);
    if t == [] then [] else [t[..WordLength(t)]] + Fields(t[WordLength(t)..])
  }

  function Join(parts: seq<string>, sep: string): string {
    if parts == [] then "" else if |parts| == 1 then parts[0] else parts[0] + sep + Join(parts[1..], sep)
  }

  function Concat(parts: seq<string>): string {
    if parts == [] then "" else parts[0] + Concat(parts[1..])
  }

  function DropSpacesAtEnd(s: string): string {
    if s != [] && IsSpace(s[|s| - 1]) then DropSpacesAtEnd(s[..|s| - 1]) else s
  }

  function TrimSpace(s: string): string {
    DropSpacesAtEnd(SkipSpaces(s))
  }

  predicate IsStop(c: char) {
    c == '.' || c == ','
  }

  /** Without the full stops and commas at either end. */
  function TrimStops(s: string): string {
    if s != [] && IsStop(s[0]) then TrimStops(s[1..])
    else if s != [] && IsStop(s[|s| - 1]) then TrimStops(s[..|s| - 1])
    else s
  }

  function LowerChar(c: char): char {
    if 'A' <= c <= 'Z' then c - 'A' + 'a' else c
  }

  function UpperChar(c: char): char {
    if 'a' <= c <= 'z' then c - 'a' + 'A' else c
  }

  function Lower(s: string): string {
    seq(|s|, i requires 0 <= i < |s| => LowerChar(s[i]))
  }

  function Upper(s: string): string {
    seq(|s|, i requires 0 <= i < |s| => UpperChar(s[i]))
  }

  predicate HasPrefix(s: string, p: string) {
    p <= s
  }

  predicate HasSuffix(s: string, p: string) {
    |p| <= |s| && s[|s| - |p|..] == p
  }

  function TrimPrefix(s: string, p: string): string {
    if HasPrefix(s, p) then s[|p|..] else s
  }

  function TrimSuffix(s: string, p: string): string {
    if HasSuffix(s, p) then s[..|s| - |p|] else s
  }

  predicate FoundAt(s: string, w: string, i: nat) {
    i + |w| <= |s| && s[i..i + |w|] == w
  }

  /** Where a word first occurs, or -1. */
  function Index(s: string, w: string): (i: int)
    ensures i == -1 || (0 <= i && FoundAt(s, w, i))
    ensures forall j: nat :: FoundAt(s, w, j) ==> 0 <= i <= j
  {
    IndexFrom(s, w, 0)
  }

  function IndexFrom(s: string, w: string, from: nat): (i: int)
    requires from <= |s|
    ensures i == -1 || (from <= i && FoundAt(s, w, i))
    ensures forall j: nat :: from <= j && FoundAt(s, w, j) ==> 0 <= i <= j
    decreases |s| - from
  {
    if FoundAt(s, w, from) then from else if from == |s| then -1 else IndexFrom(s, w, from + 1)
  }

  // ---------------------------------------------------------------- laws

  lemma {:induction false} WordThenSpace(w: string, rest: string)
    requires forall i | 0 <= i < |w| :: !IsSpace(w[i])
    requires rest == [] || IsSpace(rest[0])
    ensures WordLength(w + rest) == |w|
  {
    if w == [] {
      assert w + rest == rest;
    } else {
      assert (w + rest)[1..] == w[1..] + rest;
      WordThenSpace(w[1..], rest);
    }
  }

  lemma {:induction false} FieldsAfterSpace(s: string)
    requires s != [] && IsSpace(s[0])
    ensures Fields(s) == Fields(s[1..])
  {
  }

  lemma {:induction false} FieldsOfWord(w: string, rest: string)
    requires IsWord(w) && (rest == [] || IsSpace(rest[0]))
    ensures Fields(w + rest) == [w] + Fields(rest)
  {
    WordThenSpace(w, rest);
    assert SkipSpaces(w + rest) == w + rest by {
      assert (w + rest)[0] == w[0];
    }
    assert (w + rest)[..|w|] == w && (w + rest)[|w|..] == rest;
  }

  /** Splitting undoes joining, for words. */
  lemma {:induction false} FieldsOfJoin(ws: seq<string>)
    requires AllWords(ws)
    ensures Fields(Join(ws, " ")) == ws
  {
    if |ws| == 1 {
      FieldsOfWord(ws[0], "");
      assert ws[0] + "" == ws[0];
      assert ws == [ws[0]];
    } else if |ws| > 1 {
      assert forall i | 0 <= i < |ws[1..]| :: ws[1..][i] == ws[i + 1];
      FieldsOfJoin(ws[1..]);
      var rest := " " + Join(ws[1..], " ");
      FieldsOfWord(ws[0], rest);
      FieldsAfterSpace(rest);
      assert rest[1..] == Join(ws[1..], " ");
      assert ws[0] + " " + Join(ws[1..], " ") == ws[0] + rest;
      assert ws == [ws[0]] + ws[1..];
    }
  }

  /** A joined line of words has nothing to trim. */
  lemma {:induction false} JoinIsTrimmed(ws: seq<string>)
    requires AllWords(ws)
    ensures TrimSpace(Join(ws, " ")) == Join(ws, " ")
  {
    if ws != [] {
      JoinEnds(ws);
    }
  }

  lemma {:induction false} JoinEnds(ws: seq<string>)
    requires AllWords(ws) && ws != []
    ensures var s := Join(ws, " "); s != [] && !IsSpace(s[0]) && !IsSpace(s[|s| - 1])
  {
    assert IsWord(ws[0]);
    if |ws| > 1 {
      assert forall i | 0 <= i < |ws[1..]| :: ws[1..][i] == ws[i + 1];
      JoinEnds(ws[1..]);
    }
  }

  /** Every character of a joined line comes from a part or from the separator. */
  lemma {:induction false} JoinedCharacter(ws: seq<string>, c: char)
    requires c in Join(ws, " ")
    ensures c == ' ' || exists i :: 0 <= i < |ws| && c in ws[i]
  {
    if |ws| == 1 {
      assert c in ws[0];
    } else if |ws| > 1 && c !in ws[0] && c != ' ' {
      assert c in Join(ws[1..], " ");
      JoinedCharacter(ws[1..], c);
      var i :| 0 <= i < |ws[1..]| && c in ws[1..][i];
      assert c in ws[i + 1];
    }
  }

  /** A text without one of a word's characters does not hold the word. */
  lemma {:induction false} NotFoundWithout(s: string, w: string, c: char)
    requires c in w && c !in s
    ensures Index(s, w) == -1
  {
  }

  lemma {:induction false} ConcatOne(parts: seq<string>, last: string)
    ensures Concat(parts + [last]) == Concat(parts) + last
  {
    if parts == [] {
      assert parts + [last] == [last];
      assert Concat([last]) == last + Concat([last][1..]);
    } else {
      ConcatOne(parts[1..], last);
      assert (parts + [last])[1..] == parts[1..] + [last];
    }
  }
}

/** The order strings sort in. */
module Lexical {
  import opened Sorting

  /** Character by character, a proper prefix first. */
  predicate AtMost(a: string, b: string) {
    a == [] || (b != [] && (a[0] < b[0] || (a[0] == b[0] && AtMost(a[1..], b[1..]))))
  }

  lemma {:induction false} AtMostEither(a: string, b: string)
    ensures AtMost(a, b) || AtMost(b, a)
  {
    if a != [] && b != [] && a[0] == b[0] {
      AtMostEither(a[1..], b[1..]);
    }
  }

  lemma {:induction false} AtMostBoth(a: string, b: string)
    requires AtMost(a, b) && AtMost(b, a)
    ensures a == b
  {
    if a != [] && b != [] {
      AtMostBoth(a[1..], b[1..]);
      assert a == [a[0]] + a[1..] && b == [b[0]] + b[1..];
    }
  }

  lemma {:induction false} AtMostThrough(a: string, b: string, c: string)
    requires AtMost(a, b) && AtMost(b, c)
    ensures AtMost(a, c)
  {
    if a != [] && a[0] == b[0] && b[0] == c[0] {
      AtMostThrough(a[1..], b[1..], c[1..]);
    }
  }

  lemma {:induction false} StringsAreOrdered()
    ensures TotalOrder(AtMost)
  {
    forall a, b
      ensures AtMost(a, b) || AtMost(b, a)
    {
      AtMostEither(a, b);
    }
    forall a, b | AtMost(a, b) && AtMost(b, a)
      ensures a == b
    {
      AtMostBoth(a, b);
    }
    forall a, b, c | AtMost(a, b) && AtMost(b, c)
      ensures AtMost(a, c)
    {
      AtMostThrough(a, b, c);
    }
  }

  predicate Less(a: string, b: string) {
    AtMost(a, b) && a != b
  }
}

/** Numbers written in base ten. */
module Decimal {
  import opened Text

  function DigitChar(d: nat): (c: char)
    requires d < 10
    ensures IsDigit(c) && DigitValue(c) == d
  {
    ('0' as int + d) as char
  }

  function DigitValue(c: char): (d: nat)
    requires IsDigit(c)
    ensures d < 10
  {
    c as int - '0' as int
  }

  predicate AllDigits(s: string) {
    forall i | 0 <= i < |s| :: IsDigit(s[i])
  }

  function Digits(n: nat): (s: string)
    ensures s != [] && AllDigits(s)
  {
    if n < 10 then [DigitChar(n)] else Digits(n / 10) + [DigitChar(n % 10)]
  }

  function Itoa(n: int): string {
    if n < 0 then "-" + Digits(-n) else Digits(n)
  }

  function Number(s: string): nat
    requires AllDigits(s)
  {
    if s == [] then 0 else Number(s[..|s| - 1]) * 10 + DigitValue(s[|s| - 1])
  }

  /** Reading back what was written. */
  lemma {:induction false} NumberOfDigits(n: nat)
    ensures Number(Digits(n)) == n
  {
    if n < 10 {
      assert Digits(n)[..0] == [];
    } else {
      NumberOfDigits(n / 10);
      assert Digits(n)[..|Digits(n)| - 1] == Digits(n / 10);
    }
  }
}
