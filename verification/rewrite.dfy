/** Single-character replacement as the two back ends spell it:
    Python's `str.replace(a, b)` rewrites every occurrence, JavaScript's
    `String.prototype.replace(a, b)` with a string pattern only the first. */
module Rewrite {
  import opened Ascii

  /** Python `s.replace(from, to)` for one-character arguments. */
  function ReplaceAll(s: string, from: char, to: char): (r: string)
    ensures |r| == |s|
    ensures forall i :: 0 <= i < |s| ==> r[i] == (if s[i] == from then to else s[i])
  {
    if s == [] then [] else [if s[0] == from then to else s[0]] + ReplaceAll(s[1..], from, to)
  }

  /** After replacing every `from` by a different character none is left. */
  lemma ReplaceAllRemoves(s: string, from: char, to: char)
    requires from != to
    ensures from !in ReplaceAll(s, from, to)
  {
  }

  /** Replacing every occurrence a second time changes nothing. */
  lemma ReplaceAllIdempotent(s: string, from: char, to: char)
    ensures ReplaceAll(ReplaceAll(s, from, to), from, to) == ReplaceAll(s, from, to)
  {
  }

  /** JavaScript `s.replace(from, to)` for a one-character string pattern:
      only the first occurrence is rewritten. */
  function ReplaceFirst(s: string, from: char, to: char): (r: string)
    ensures |r| == |s|
    ensures from !in s ==> r == s
    ensures from in s ==> r[IndexOf(s, from)] == to
    ensures from in s ==> forall k :: 0 <= k < |s| && k != IndexOf(s, from) ==> r[k] == s[k]
  {
    if s == [] then []
    else if s[0] == from then [to] + s[1..]
    else [s[0]] + ReplaceFirst(s[1..], from, to)
  }

  /** The first replacement removes exactly one occurrence when there is one. */
  lemma {:induction false} ReplaceFirstCount(s: string, from: char, to: char)
    requires from != to
    ensures Count(ReplaceFirst(s, from, to), from) == if from in s then Count(s, from) - 1 else Count(s, from)
    decreases |s|
  {
    if s != [] && s[0] != from {
      ReplaceFirstCount(s[1..], from, to);
      assert s == [s[0]] + s[1..];
      assert (from in s) == (from in s[1..]);
      var r := ReplaceFirst(s, from, to);
      assert r[1..] == ReplaceFirst(s[1..], from, to);
    } else if s != [] {
      var r := ReplaceFirst(s, from, to);
      assert r[1..] == s[1..];
    }
  }

  /** The first and last characters are kept, or are the one rewritten. */
  lemma ReplaceFirstEnds(s: string, from: char, to: char)
    ensures var r := ReplaceFirst(s, from, to);
      |r| > 0 ==> (r[0] == s[0] || r[0] == to) && (r[|r| - 1] == s[|s| - 1] || r[|r| - 1] == to)
  {
    var r := ReplaceFirst(s, from, to);
    if |r| > 0 && from in s {
      var i := IndexOf(s, from);
      assert 0 != i ==> r[0] == s[0];
      assert |s| - 1 != i ==> r[|r| - 1] == s[|s| - 1];
    }
  }
}
