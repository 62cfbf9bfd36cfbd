/**
 * The parts of Python's `str` that the core relies on, written out over
 * `seq<char>`: `isspace`/`strip`, `splitlines`, `startswith`/`endswith`,
 * the `in` test for substrings, `join`, `replace`, ASCII `lower` and the
 * decimal rendering of an `int` inside an f-string.
 */
module Strings {
  import opened Wrappers

  /** `c.isspace()`: the characters of bidirectional class WS, B or S and of category Zs. */
  predicate IsSpace(c: char) {
    ('\t' <= c <= '\r') || ('\U{1C}' <= c <= '\U{1F}') || c == ' '
    || c == '\U{85}' || c == '\U{A0}' || c == '\U{1680}' || ('\U{2000}' <= c <= '\U{200A}')
    || c == '\U{2028}' || c == '\U{2029}' || c == '\U{202F}' || c == '\U{205F}' || c == '\U{3000}'
  }

  /** The characters at which `str.splitlines()` ends a line (`\r\n` counts as one boundary). */
  predicate IsLineBreak(c: char) {
    ('\n' <= c <= '\r') || ('\U{1C}' <= c <= '\U{1E}') || c == '\U{85}' || c == '\U{2028}' || c == '\U{2029}'
  }

  predicate NoLineBreak(s: string) {
    forall i :: 0 <= i < |s| ==> !IsLineBreak(s[i])
  }

  predicate StartsWith(s: string, prefix: string) {
    |prefix| <= |s| && s[..|prefix|] == prefix
  }

  predicate EndsWith(s: string, suffix: string) {
    |suffix| <= |s| && s[|s| - |suffix|..] == suffix
  }

  /** `t` occurs in `s` at position `i`. */
  predicate OccursAt(s: string, t: string, i: int) {
    0 <= i && i + |t| <= |s| && s[i..i + |t|] == t
  }

  /** Python's `t in s` for strings. */
  function Contains(s: string, t: string): (r: bool)
    ensures r <==> exists i :: OccursAt(s, t, i)
    decreases |s|
  {
    if StartsWith(s, t) then
      assert OccursAt(s, t, 0);
      true
    else if s == [] then
      assert forall i :: !OccursAt(s, t, i);
      false
    else
      OccursShifted(s, t);
      Contains(s[1..], t)
  }

  /** The occurrences in the tail of `s` are those in `s` after its first position. */
  lemma OccursShifted(s: string, t: string)
    requires s != [] && !OccursAt(s, t, 0)
    ensures (exists i :: OccursAt(s[1..], t, i)) <==> (exists i :: OccursAt(s, t, i))
  {
    forall i | OccursAt(s[1..], t, i) ensures OccursAt(s, t, i + 1) {
      assert s[1..][i..i + |t|] == s[i + 1..i + 1 + |t|];
    }
    forall i | OccursAt(s, t, i) ensures i > 0 && OccursAt(s[1..], t, i - 1) {
      assert s[1..][i - 1..i - 1 + |t|] == s[i..i + |t|];
    }
  }

  /** The leftmost position in `[i, n)` at which `p` holds: the scan of `re.search`. */
  function FirstFrom(n: nat, i: nat, p: nat -> bool): (r: Option<nat>)
    requires i <= n
    ensures r.Some? ==> i <= r.value < n && p(r.value)
    ensures r.Some? ==> forall j :: i <= j < r.value ==> !p(j)
    ensures r.None? ==> forall j :: i <= j < n ==> !p(j)
    decreases n - i
  {
    if i == n then None
    else if p(i) then Some(i)
    else FirstFrom(n, i + 1, p)
  }

  /** Neither end of `s` is whitespace. */
  predicate Trimmed(s: string) {
    s == [] || (!IsSpace(s[0]) && !IsSpace(s[|s| - 1]))
  }

  /** Where `s.strip()` starts keeping characters: after the leading whitespace. */
  function StripStart(s: string): (a: nat)
    ensures a <= |s|
  {
    RunEnd(s, 0, IsSpace)
  }

  /** Where `s.strip()` stops keeping characters: before the trailing whitespace, and never before it starts. */
  function StripEnd(s: string): (b: nat)
    ensures StripStart(s) <= b <= |s|
  {
    var a := StripStart(s);
    var b := RunStart(s, |s|, IsSpace);
    if b < a then a else b
  }

  /** `s.strip()`. */
  function Strip(s: string): (r: string)
    ensures |r| <= |s|
  {
    s[StripStart(s)..StripEnd(s)]
  }

  /** What `strip` drops on either side is whitespace. */
  lemma StripDropsSpaces(s: string)
    ensures forall i :: 0 <= i < StripStart(s) ==> IsSpace(s[i])
    ensures forall i :: StripEnd(s) <= i < |s| ==> IsSpace(s[i])
  {
  }

  /** `strip` leaves whitespace at neither end. */
  lemma StripTrimmed(s: string)
    ensures Trimmed(Strip(s))
  {
    var a := StripStart(s);
    var b := RunStart(s, |s|, IsSpace);
    if a < b {
      assert Strip(s) == s[a..b];
      assert s[a] == Strip(s)[0] && s[b - 1] == Strip(s)[|Strip(s)| - 1];
    } else {
      assert Strip(s) == [];
    }
  }

  /** A character missing from `s` is missing from every slice of it. */
  lemma NotInSlice(s: string, c: char, i: nat, j: nat)
    requires i <= j <= |s| && c !in s
    ensures c !in s[i..j]
  {
    forall k | 0 <= k < j - i ensures s[i..j][k] != c {
      assert s[i..j][k] == s[i + k];
    }
  }

  /** A string without whitespace at either end is its own strip. */
  lemma StripOfStripped(s: string)
    requires Trimmed(s)
    ensures Strip(s) == s
  {
    if s != [] {
      assert StripStart(s) == 0;
      assert RunStart(s, |s|, IsSpace) == |s|;
    }
  }

  /** Stripping twice is stripping once. */
  lemma StripIdempotent(s: string)
    ensures Strip(Strip(s)) == Strip(s)
  {
    StripTrimmed(s);
    StripOfStripped(Strip(s));
  }

  /** The index of the first line boundary at or after `i`, or `|s|`. */
  function BreakIndex(s: string, i: nat): (j: nat)
    requires i <= |s|
    ensures i <= j <= |s|
    ensures forall k :: i <= k < j ==> !IsLineBreak(s[k])
    ensures j < |s| ==> IsLineBreak(s[j])
    decreases |s| - i
  {
    if i == |s| || IsLineBreak(s[i]) then i else BreakIndex(s, i + 1)
  }

  /** The end of the longest run of characters satisfying `p` from `i`. */
  function RunEnd(s: string, i: nat, p: char -> bool): (e: nat)
    requires i <= |s|
    ensures i <= e <= |s|
    ensures forall k :: i <= k < e ==> p(s[k])
    ensures e < |s| ==> !p(s[e])
    decreases |s| - i
  {
    if i < |s| && p(s[i]) then RunEnd(s, i + 1, p) else i
  }

  /** The start of the longest run of characters satisfying `p` that ends at `j`. */
  function RunStart(s: string, j: nat, p: char -> bool): (b: nat)
    requires j <= |s|
    ensures b <= j
    ensures forall k :: b <= k < j ==> p(s[k])
    ensures b > 0 ==> !p(s[b - 1])
    decreases j
  {
    if j > 0 && p(s[j - 1]) then RunStart(s, j - 1, p) else j
  }

  /** `s.splitlines()`: the lines without their boundaries; no empty line after a final boundary. */
  function Lines(s: string): (r: seq<string>)
    ensures forall k :: 0 <= k < |r| ==> NoLineBreak(r[k])
    ensures s == [] <==> r == []
    decreases |s|
  {
    if s == [] then []
    else
      var j := BreakIndex(s, 0);
      if j == |s| then [s]
      else
        var w := if s[j] == '\r' && j + 1 < |s| && s[j + 1] == '\n' then 2 else 1;
        [s[..j]] + Lines(s[j + w..])
  }

  /** A non-empty text without boundaries is one line. */
  lemma SingleLine(s: string)
    requires s != [] && NoLineBreak(s)
    ensures Lines(s) == [s]
  {
    assert BreakIndex(s, 0) == |s|;
  }

  /** `s.split(c)`: the pieces between the occurrences of `c`, empty ones included. */
  function SplitOn(s: string, c: char): (r: seq<string>)
    ensures |r| >= 1
    ensures forall k :: 0 <= k < |r| ==> c !in r[k]
    decreases |s|
  {
    var k := RunEnd(s, 0, (x: char) => x != c);
    if k == |s| then [s] else [s[..k]] + SplitOn(s[k + 1..], c)
  }

  /** Joining the pieces with the separator gives the text back. */
  lemma {:induction false} SplitOnJoin(s: string, c: char)
    ensures Join(SplitOn(s, c), [c]) == s
    decreases |s|
  {
    var k := RunEnd(s, 0, (x: char) => x != c);
    if k < |s| {
      var rest := SplitOn(s[k + 1..], c);
      SplitOnJoin(s[k + 1..], c);
      var parts := [s[..k]] + rest;
      assert SplitOn(s, c) == parts;
      assert parts[1..] == rest;
      assert Join(parts, [c]) == s[..k] + [c] + Join(rest, [c]);
      assert s[k] == c;
      assert s == s[..k] + [c] + s[k + 1..];
    }
  }

  /** Two separator-free pieces around one separator split back into those two pieces. */
  lemma SplitOnPair(a: string, b: string, c: char)
    requires c !in a && c !in b
    ensures SplitOn(a + [c] + b, c) == [a, b]
  {
    var s := a + [c] + b;
    var k := RunEnd(s, 0, (x: char) => x != c);
    assert s[|a|] == c;
    assert k == |a|;
    assert s[..k] == a && s[k + 1..] == b;
  }

  /** A text without the separator is one piece. */
  lemma SplitOnNone(s: string, c: char)
    requires c !in s
    ensures SplitOn(s, c) == [s]
  {
  }

  /** `re.split("[…]+", s)` for the character class `isSep`: maximal runs of separators cut `s`. */
  function SplitRuns(s: string, isSep: char -> bool): (r: seq<string>)
    ensures |r| >= 1
    ensures forall k, i :: 0 <= k < |r| && 0 <= i < |r[k]| ==> !isSep(r[k][i])
    decreases |s|
  {
    var k := RunEnd(s, 0, (x: char) => !isSep(x));
    if k == |s| then [s]
    else
      var e := RunEnd(s, k, isSep);
      [s[..k]] + SplitRuns(s[e..], isSep)
  }

  /** `sep.join(parts)`. */
  function Join(parts: seq<string>, sep: string): (r: string)
    ensures |parts| == 1 ==> r == parts[0]
    decreases |parts|
  {
    if |parts| == 0 then ""
    else if |parts| == 1 then parts[0]
    else parts[0] + sep + Join(parts[1..], sep)
  }

  /** `"".join(parts)`. */
  function Concat(parts: seq<string>): (r: string)
    ensures r == [] <==> forall k :: 0 <= k < |parts| ==> parts[k] == []
    decreases |parts|
  {
    if parts == [] then "" else parts[0] + Concat(parts[1..])
  }

  /** `s.replace(c, with)` for a one-character pattern. */
  function ReplaceChar(s: string, c: char, with: string): (r: string)
    ensures c !in with ==> c !in r
    ensures c !in s ==> r == s
    decreases |s|
  {
    if s == [] then ""
    else (if s[0] == c then with else [s[0]]) + ReplaceChar(s[1..], c, with)
  }

  /** Replacement works character by character: one `c` becomes `with`, any other character stays. */
  lemma ReplaceCharOne(x: char, c: char, with: string)
    ensures ReplaceChar([x], c, with) == if x == c then with else [x]
  {
    assert [x][1..] == [];
  }

  /** Replacement distributes over concatenation, so every occurrence is replaced and nothing else changes. */
  lemma {:induction false} ReplaceCharAppend(a: string, b: string, c: char, with: string)
    ensures ReplaceChar(a + b, c, with) == ReplaceChar(a, c, with) + ReplaceChar(b, c, with)
    decreases |a|
  {
    if a != [] {
      var head := if a[0] == c then with else [a[0]];
      assert (a + b)[0] == a[0];
      assert (a + b)[1..] == a[1..] + b;
      assert ReplaceChar(a + b, c, with) == head + ReplaceChar(a[1..] + b, c, with);
      assert ReplaceChar(a, c, with) == head + ReplaceChar(a[1..], c, with);
      ReplaceCharAppend(a[1..], b, c, with);
    } else {
      assert a + b == b;
    }
  }

  /** A joined list starts with its first part. */
  lemma JoinStartsWithFirst(parts: seq<string>, sep: string)
    requires parts != []
    ensures StartsWith(Join(parts, sep), parts[0])
  {
    if |parts| > 1 {
      var r := Join(parts, sep);
      assert r == parts[0] + (sep + Join(parts[1..], sep));
      assert r[..|parts[0]|] == parts[0];
    }
  }

  /** `str(n)` for an `int`. */
  function IntToString(n: int): (r: string)
    ensures r != []
    ensures n >= 0 ==> r == NatToString(n)
  {
    if n < 0 then "-" + NatToString(-n) else NatToString(n)
  }

  /** `s.lower()` on ASCII letters; other characters are kept. */
  function LowerAscii(s: string): (r: string)
    ensures |r| == |s|
    ensures forall i :: 0 <= i < |s| ==> !('A' <= r[i] <= 'Z')
  {
    seq(|s|, i requires 0 <= i < |s| => if 'A' <= s[i] <= 'Z' then (s[i] as int + 32) as char else s[i])
  }

  predicate IsDigit(c: char) {
    '0' <= c <= '9'
  }

  /** The decimal text of `n`, as an f-string renders a non-negative `int`. */
  function NatToString(n: nat): (r: string)
    ensures r != [] && forall i :: 0 <= i < |r| ==> IsDigit(r[i])
    ensures n > 0 ==> r[0] != '0'
  {
    if n < 10 then [('0' as int + n) as char]
    else NatToString(n / 10) + [('0' as int + n % 10) as char]
  }

  /** The number a string of decimal digits denotes. */
  function DecimalValue(s: string): nat
    requires forall i :: 0 <= i < |s| ==> IsDigit(s[i])
  {
    if s == [] then 0
    else
      var last := s[|s| - 1];
      assert IsDigit(last);
      10 * DecimalValue(s[..|s| - 1]) + (last as int - '0' as int)
  }

  /** Reading back the rendered text gives the number again. */
  lemma {:induction false} NatToStringRoundTrip(n: nat)
    ensures DecimalValue(NatToString(n)) == n
  {
    if n >= 10 {
      NatToStringRoundTrip(n / 10);
      var s := NatToString(n);
      assert s[..|s| - 1] == NatToString(n / 10);
    }
  }
}
