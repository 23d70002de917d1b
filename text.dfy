/**
 * The few string operations of Python's `str` that the quiz service relies on:
 * `lower()`, `strip()`, `split()` with no separator, and the substring test `sub in s`.
 * Strings are sequences of Unicode scalar values, as Python's `str` is a sequence of code points.
 */
module Text {

  /** Python's `str.isspace()` for one character: the characters `strip()` and `split()` treat as whitespace. */
  predicate IsSpace(c: char) {
    var n := c as int;
    || n == 0x20
    || 0x09 <= n <= 0x0D
    || 0x1C <= n <= 0x1F
    || n == 0x85 || n == 0xA0 || n == 0x1680
    || 0x2000 <= n <= 0x200A
    || n == 0x2028 || n == 0x2029 || n == 0x202F || n == 0x205F || n == 0x3000
  }

  predicate AllSpace(s: string) {
    forall i :: 0 <= i < |s| ==> IsSpace(s[i])
  }

  /** Lower-casing of one character (ASCII letters only). */
  function LowerChar(c: char): (d: char)
    ensures 'A' <= c <= 'Z' ==> 'a' <= d <= 'z' && d as int == c as int + 32
    ensures !('A' <= c <= 'Z') ==> d == c
  {
    if 'A' <= c <= 'Z' then (c as int + 32) as char else c
  }

  /** `s.lower()`, character by character. */
  function Lower(s: string): (r: string)
    ensures |r| == |s|
    ensures forall i :: 0 <= i < |s| ==> r[i] == LowerChar(s[i])
  {
    if s == [] then [] else [LowerChar(s[0])] + Lower(s[1..])
  }

  /** Lower-casing twice is lower-casing once. */
  lemma LowerIdempotent(s: string)
    ensures Lower(Lower(s)) == Lower(s)
  {
    var l := Lower(s);
    assert forall i :: 0 <= i < |l| ==> Lower(l)[i] == l[i];
  }

  /** The number of whitespace characters `s` starts with. */
  function LeadingSpaces(s: string): (n: nat)
    ensures n <= |s|
    ensures forall i :: 0 <= i < n ==> IsSpace(s[i])
    ensures n < |s| ==> !IsSpace(s[n])
  {
    if s != [] && IsSpace(s[0]) then 1 + LeadingSpaces(s[1..]) else 0
  }

  /** The number of whitespace characters `s` ends with. */
  function TrailingSpaces(s: string): (n: nat)
    ensures n <= |s|
    ensures forall i :: |s| - n <= i < |s| ==> IsSpace(s[i])
    ensures n < |s| ==> !IsSpace(s[|s| - n - 1])
  {
    if s != [] && IsSpace(s[|s| - 1]) then 1 + TrailingSpaces(s[..|s| - 1]) else 0
  }

  /** `s.strip()`: leading whitespace dropped, then trailing whitespace. What is left is the
      part of `s` right after its leading whitespace, is followed only by whitespace, and
      neither starts nor ends with whitespace. */
  function Strip(s: string): (r: string)
    ensures OccursAt(s, r, LeadingSpaces(s))
    ensures AllSpace(s[LeadingSpaces(s) + |r|..])
    ensures r != [] ==> !IsSpace(r[0]) && !IsSpace(r[|r| - 1])
  {
    var t := s[LeadingSpaces(s)..];
    t[..|t| - TrailingSpaces(t)]
  }

  /** `s.strip() == ""` holds exactly when every character of `s` is whitespace (the empty string included). */
  lemma StripEmptyIff(s: string)
    ensures Strip(s) == [] <==> AllSpace(s)
  {
  }

  /** Python's `sub in s`: `sub` occurs in `s` at some position. */
  predicate Contains(s: string, sub: string)
    decreases |s|
  {
    if |sub| > |s| then false
    else if s[..|sub|] == sub then true
    else Contains(s[1..], sub)
  }

  /** `sub` occurs in `s` starting at position `i`. */
  predicate OccursAt(s: string, sub: string, i: int) {
    0 <= i && i + |sub| <= |s| && s[i..i + |sub|] == sub
  }

  /** `sub in s` holds exactly when `sub` occurs at some position of `s`. */
  lemma ContainsIff(s: string, sub: string)
    ensures Contains(s, sub) <==> exists i :: OccursAt(s, sub, i)
  {
    if Contains(s, sub) {
      ContainsWitness(s, sub);
    }
    if exists i :: OccursAt(s, sub, i) {
      var i :| OccursAt(s, sub, i);
      ContainsAt(s, sub, i);
    }
  }

  /** When `sub in s` holds there is a position where `sub` occurs. */
  lemma {:induction false} ContainsWitness(s: string, sub: string)
    requires Contains(s, sub)
    ensures exists i :: OccursAt(s, sub, i)
    decreases |s|
  {
    if s[..|sub|] == sub {
      assert OccursAt(s, sub, 0);
    } else {
      ContainsWitness(s[1..], sub);
      var i :| OccursAt(s[1..], sub, i);
      assert s[1..][i..i + |sub|] == s[i + 1..i + 1 + |sub|];
      assert OccursAt(s, sub, i + 1);
    }
  }

  /** An occurrence at position `i` makes `sub in s` true. */
  lemma {:induction false} ContainsAt(s: string, sub: string, i: nat)
    requires i + |sub| <= |s| && s[i..i + |sub|] == sub
    ensures Contains(s, sub)
    decreases i
  {
    if i > 0 && s[..|sub|] != sub {
      assert s[1..][i - 1..i - 1 + |sub|] == s[i..i + |sub|];
      ContainsAt(s[1..], sub, i - 1);
    }
  }

  /** A string that is `prefix + sub + suffix` contains `sub`. */
  lemma ContainsInfix(prefix: string, sub: string, suffix: string)
    ensures Contains(prefix + sub + suffix, sub)
  {
    var s := prefix + sub + suffix;
    assert s[|prefix|..|prefix| + |sub|] == sub;
    ContainsAt(s, sub, |prefix|);
  }

  predicate NoSpace(w: string) {
    forall i :: 0 <= i < |w| ==> !IsSpace(w[i])
  }

  /** `s.split()`: the maximal runs of non-whitespace characters, in order. */
  function Words(s: string): (ws: seq<string>)
    ensures forall k :: 0 <= k < |ws| ==> ws[k] != [] && NoSpace(ws[k])
  {
    WordsFrom(s, [])
  }

  /** Splitting the rest `s` while the word `current` is being read. */
  function WordsFrom(s: string, current: string): (ws: seq<string>)
    requires NoSpace(current)
    ensures forall k :: 0 <= k < |ws| ==> ws[k] != [] && NoSpace(ws[k])
    decreases |s|
  {
    if s == [] then
      (if current == [] then [] else [current])
    else if IsSpace(s[0]) then
      (if current == [] then WordsFrom(s[1..], []) else [current] + WordsFrom(s[1..], []))
    else
      WordsFrom(s[1..], current + [s[0]])
  }
}
