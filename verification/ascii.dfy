/** Character classes and string predicates used by the validators and the
    search filters. Whitespace, case and digits follow ASCII only. */
module Ascii {

  /** Whitespace removed by `trim` / `strip` and matched by `\s`. */
  predicate IsSpace(c: char)
  {
    c == ' ' || c == '\t' || c == '\n' || c == '\r' || c == '\U{000B}' || c == '\U{000C}'
  }

  /** `\d` */
  predicate IsDigit(c: char)
  {
    '0' <= c <= '9'
  }

  /** `[a-zA-Z]` */
  predicate IsLetter(c: char)
  {
    'a' <= c <= 'z' || 'A' <= c <= 'Z'
  }

  /** A string made only of whitespace (the empty string included). */
  predicate IsBlank(s: string)
  {
    forall i :: 0 <= i < |s| ==> IsSpace(s[i])
  }

  /** `/\d/.test(s)` */
  predicate ContainsDigit(s: string)
  {
    exists i :: 0 <= i < |s| && IsDigit(s[i])
  }

  /** `/^\d+$/.test(s)` */
  predicate AllDigits(s: string)
  {
    |s| > 0 && forall i :: 0 <= i < |s| ==> IsDigit(s[i])
  }

  /** `/^[a-zA-Z ]+$/.test(s)` */
  predicate LettersAndSpaces(s: string)
  {
    |s| > 0 && forall i :: 0 <= i < |s| ==> IsLetter(s[i]) || s[i] == ' '
  }

  /** Removes leading whitespace. */
  function TrimStart(s: string): (r: string)
    ensures |r| <= |s| && r == s[|s| - |r|..]
    ensures |r| > 0 ==> !IsSpace(r[0])
    ensures forall i :: 0 <= i < |s| - |r| ==> IsSpace(s[i])
  {
    if |s| > 0 && IsSpace(s[0]) then TrimStart(s[1..]) else s
  }

  /** Removes trailing whitespace. */
  function TrimEnd(s: string): (r: string)
    ensures |r| <= |s| && r == s[..|r|]
    ensures |r| > 0 ==> !IsSpace(r[|r| - 1])
    ensures forall i :: |r| <= i < |s| ==> IsSpace(s[i])
  {
    if |s| > 0 && IsSpace(s[|s| - 1]) then TrimEnd(s[..|s| - 1]) else s
  }

  /** `s.trim()` in JavaScript, `s.strip()` in Python: `s` without its
      leading and trailing whitespace; empty exactly for a blank `s`. Where
      the result sits inside `s` is stated by `TrimIsInfix`. */
  function Trim(s: string): (r: string)
    ensures |r| <= |s|
    ensures |r| > 0 ==> !IsSpace(r[0]) && !IsSpace(r[|r| - 1])
    ensures r == [] <==> IsBlank(s)
  {
    TrimBlank(s);
    TrimEnd(TrimStart(s))
  }

  /** What `TrimStart` drops is blank. */
  lemma TrimStartDropsBlank(s: string)
    ensures IsBlank(s[..|s| - |TrimStart(s)|])
  {
    var head := s[..|s| - |TrimStart(s)|];
    forall i | 0 <= i < |head| ensures IsSpace(head[i]) {
      assert head[i] == s[i];
    }
  }

  /** What `TrimEnd` drops is blank. */
  lemma TrimEndDropsBlank(s: string)
    ensures IsBlank(s[|TrimEnd(s)|..])
  {
    var tail := s[|TrimEnd(s)|..];
    forall i | 0 <= i < |tail| ensures IsSpace(tail[i]) {
      assert tail[i] == s[|TrimEnd(s)| + i];
    }
  }

  /** Only a blank string trims to nothing. */
  lemma TrimBlank(s: string)
    ensures TrimEnd(TrimStart(s)) == [] <==> IsBlank(s)
  {
    var left := TrimStart(s);
    var a := |s| - |left|;
    if TrimEnd(left) == [] {
      TrimStartDropsBlank(s);
      TrimEndDropsBlank(left);
      forall i | 0 <= i < |s| ensures IsSpace(s[i]) {
        assert s[i] == s[..a][i];
      }
    }
  }

  /** `r` sits in `s` at `a`, with only whitespace around it. */
  predicate BlankAround(s: string, r: string, a: nat)
  {
    a + |r| <= |s| && r == s[a..a + |r|] && IsBlank(s[..a]) && IsBlank(s[a + |r|..])
  }

  /** A blank-free core cut from a suffix that follows a blank prefix
      has only whitespace around it in the whole string. */
  lemma BlankAroundSuffix(s: string, left: string, r: string)
    requires |left| <= |s| && left == s[|s| - |left|..] && IsBlank(s[..|s| - |left|])
    requires |r| <= |left| && r == left[..|r|] && IsBlank(left[|r|..])
    ensures BlankAround(s, r, |s| - |left|)
  {
    var a := |s| - |left|;
    assert s[a..a + |r|] == r;
    assert s[a + |r|..] == left[|r|..];
  }

  /** The trimmed text is the infix of `s` between a blank prefix and a
      blank suffix. */
  lemma TrimIsInfix(s: string)
    ensures exists a: nat :: BlankAround(s, Trim(s), a)
  {
    var left := TrimStart(s);
    var r := TrimEnd(left);
    TrimStartDropsBlank(s);
    TrimEndDropsBlank(left);
    BlankAroundSuffix(s, left, r);
    assert BlankAround(s, Trim(s), |s| - |left|);
  }

  /** A string with no whitespace at either end is its own trim. */
  lemma TrimOfUntrimmed(s: string)
    requires |s| > 0 ==> !IsSpace(s[0]) && !IsSpace(s[|s| - 1])
    ensures Trim(s) == s
  {
    TrimIsInfix(s);
    var a: nat :| BlankAround(s, Trim(s), a);
  }

  /** Trimming an already trimmed string changes nothing. */
  lemma {:induction false} TrimIdempotent(s: string)
    ensures Trim(Trim(s)) == Trim(s)
  {
    var t := Trim(s);
    if |t| > 0 {
      assert !IsSpace(t[0]);
      assert TrimStart(t) == t;
      assert !IsSpace(t[|t| - 1]);
      assert TrimEnd(t) == t;
    }
  }

  /** `c.toLowerCase()` restricted to ASCII. */
  function Lower(c: char): (r: char)
    ensures IsLetter(c) ==> IsLetter(r) && !('A' <= r <= 'Z')
    ensures !('A' <= c <= 'Z') ==> r == c
  {
    if 'A' <= c <= 'Z' then (c as int + 32) as char else c
  }

  /** `s.toLowerCase()` restricted to ASCII. */
  function LowerCase(s: string): (r: string)
    ensures |r| == |s|
    ensures forall i :: 0 <= i < |s| ==> r[i] == Lower(s[i])
  {
    if s == [] then [] else [Lower(s[0])] + LowerCase(s[1..])
  }

  /** Lower-casing works character by character, so it distributes over
      concatenation. */
  lemma LowerCaseConcat(a: string, b: string)
    ensures LowerCase(a + b) == LowerCase(a) + LowerCase(b)
  {
    var l := LowerCase(a + b);
    var r := LowerCase(a) + LowerCase(b);
    forall i | 0 <= i < |l| ensures l[i] == r[i] {
      if i < |a| {
        assert (a + b)[i] == a[i];
      } else {
        assert (a + b)[i] == b[i - |a|];
      }
    }
  }

  /** Lower-casing twice is lower-casing once. */
  lemma LowerCaseIdempotent(s: string)
    ensures LowerCase(LowerCase(s)) == LowerCase(s)
  {
  }

  /** `needle` occurs in `hay` starting at position `i`. */
  predicate OccursAt(hay: string, needle: string, i: nat)
  {
    i + |needle| <= |hay| && hay[i..i + |needle|] == needle
  }

  /** `hay.includes(needle)`: some position of `hay` starts an occurrence. */
  predicate Contains(hay: string, needle: string)
  {
    exists i: nat | i <= |hay| :: OccursAt(hay, needle, i)
  }

  /** Every string contains the empty string. */
  lemma ContainsEmpty(hay: string)
    ensures Contains(hay, "")
  {
    assert OccursAt(hay, "", 0);
  }

  /** A string contains every one of its suffixes. */
  lemma ContainsSuffix(prefix: string, s: string)
    ensures Contains(prefix + s, s)
  {
    assert (prefix + s)[|prefix|..|prefix| + |s|] == s;
    assert OccursAt(prefix + s, s, |prefix|);
  }

  /** A string contains every one of its prefixes. */
  lemma ContainsPrefix(s: string, suffix: string)
    ensures Contains(s + suffix, s)
  {
    assert (s + suffix)[0..|s|] == s;
    assert OccursAt(s + suffix, s, 0);
  }

  /** What occurs in an occurrence occurs in the whole. */
  lemma ContainsTransitive(a: string, b: string, c: string)
    requires Contains(a, b) && Contains(b, c)
    ensures Contains(a, c)
  {
    var i: nat :| i <= |a| && OccursAt(a, b, i);
    var j: nat :| j <= |b| && OccursAt(b, c, j);
    forall k | 0 <= k < |c| ensures a[i + j + k] == c[k] {
      assert a[i..i + |b|][j + k] == b[j + k];
      assert b[j..j + |c|][k] == c[k];
    }
    assert a[i + j..i + j + |c|] == c;
    assert OccursAt(a, c, i + j);
  }

  /** `/\S+@\S+\.\S+/.test(s)`: a run of non-space characters around an `@`
      that is later followed, inside the same run, by a `.` with at least one
      non-space character on every side. */
  predicate LooksLikeEmail(s: string)
  {
    exists at, dot | 0 <= at < |s| && 0 <= dot < |s| :: EmailAt(s, at, dot)
  }

  /** The `@` of a `/\S+@\S+\.\S+/` match sits at `at` and its `.` at `dot`. */
  predicate EmailAt(s: string, at: int, dot: int)
  {
    && 1 <= at && at + 1 < dot && dot + 1 < |s|
    && !IsSpace(s[at - 1]) && s[at] == '@'
    && NoSpaceBetween(s, at, dot)
    && s[dot] == '.' && !IsSpace(s[dot + 1])
  }

  /** Every character strictly between positions `lo` and `hi` is non-space. */
  predicate NoSpaceBetween(s: string, lo: int, hi: int)
    requires 0 <= lo && hi <= |s|
  {
    forall k :: lo < k < hi ==> !IsSpace(s[k])
  }

  /** Number of occurrences of `c` in `s`. */
  function Count(s: string, c: char): (n: nat)
    ensures n <= |s|
    ensures n == 0 <==> c !in s
  {
    if s == [] then 0 else (if s[0] == c then 1 else 0) + Count(s[1..], c)
  }

  /** Position of the first occurrence of `c` in `s`. */
  function IndexOf(s: string, c: char): (i: nat)
    requires c in s
    ensures i < |s| && s[i] == c
    ensures c !in s[..i]
  {
    if s[0] == c then 0 else 1 + IndexOf(s[1..], c)
  }
}
