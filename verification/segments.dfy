/** `s.split(sep)` and its inverse, joining with the separator, as used for
    the `J-12345678` RIF and `0414-1234567` phone fields. */
module Segments {
  import opened Ascii

  /** Occurrences in a concatenation add up. */
  lemma {:induction false} CountConcat(a: string, b: string, c: char)
    ensures Count(a + b, c) == Count(a, c) + Count(b, c)
    decreases |a|
  {
    if a != [] {
      assert (a + b)[1..] == a[1..] + b;
      CountConcat(a[1..], b, c);
    } else {
      assert a + b == b;
    }
  }

  /** `s.split(sep)`: the maximal separator-free pieces of `s`, in order. */
  function Split(s: string, sep: char): (parts: seq<string>)
    ensures |parts| == Count(s, sep) + 1
    ensures forall i :: 0 <= i < |parts| ==> sep !in parts[i]
    decreases |s|
  {
    if sep !in s then [s]
    else
      var i := IndexOf(s, sep);
      assert s == s[..i] + [sep] + s[i + 1..];
      CountConcat(s[..i] + [sep], s[i + 1..], sep);
      CountConcat(s[..i], [sep], sep);
      [s[..i]] + Split(s[i + 1..], sep)
  }

  /** `parts.join(sep)`. */
  function Join(parts: seq<string>, sep: char): string
  {
    if |parts| == 0 then ""
    else if |parts| == 1 then parts[0]
    else parts[0] + [sep] + Join(parts[1..], sep)
  }

  /** Joining the pieces of a split with the same separator restores the text. */
  lemma {:induction false} JoinSplit(s: string, sep: char)
    ensures Join(Split(s, sep), sep) == s
    decreases |s|
  {
    if sep in s {
      var i := IndexOf(s, sep);
      JoinSplit(s[i + 1..], sep);
      assert s == s[..i] + [sep] + s[i + 1..];
    }
  }

  /** `${head}${sep}${tail}`: the template literal used to store a split field. */
  function Compose(head: string, sep: char, tail: string): (r: string)
    ensures |r| == |head| + 1 + |tail|
    ensures r[|head|] == sep && r[..|head|] == head && r[|head| + 1..] == tail
  {
    head + [sep] + tail
  }

  /** A field holding the separator exactly once is restored by composing
      the first two pieces of its split; with two or more separators it is
      not, since the pieces after the second are dropped. */
  lemma ComposeFirstTwo(s: string, sep: char)
    requires sep in s
    ensures |Split(s, sep)| >= 2
    ensures Compose(Split(s, sep)[0], sep, Split(s, sep)[1]) == s <==> Count(s, sep) == 1
  {
    var parts := Split(s, sep);
    var r := Compose(parts[0], sep, parts[1]);
    CountConcat(parts[0] + [sep], parts[1], sep);
    CountConcat(parts[0], [sep], sep);
    assert Count(r, sep) == 1;
    if Count(s, sep) == 1 {
      JoinSplit(s, sep);
      assert |parts| == 2;
    }
  }

  /** The first piece of a split is a prefix of the text, followed by the
      separator when it is not the whole text. */
  lemma SplitHead(s: string, sep: char)
    ensures Split(s, sep)[0] <= s
    ensures |Split(s, sep)[0]| < |s| ==> s[|Split(s, sep)[0]|] == sep
  {
    if sep in s {
      var i := IndexOf(s, sep);
      assert Split(s, sep)[0] == s[..i];
    }
  }

  /** Composing the first two pieces gives the text up to its second
      separator: a prefix of the text, followed by the separator when it is
      shorter. So everything after the second separator is what is lost. */
  lemma FirstTwoPrefix(s: string, sep: char)
    requires sep in s
    ensures |Split(s, sep)| >= 2
    ensures var c := Compose(Split(s, sep)[0], sep, Split(s, sep)[1]);
      c <= s && (|c| < |s| ==> s[|c|] == sep)
  {
    ComposeFirstTwo(s, sep);
    var i := IndexOf(s, sep);
    var t := s[i + 1..];
    assert Split(s, sep) == [s[..i]] + Split(t, sep);
    SplitHead(t, sep);
    ComposePrefix(s, i, sep, Split(t, sep)[0]);
  }

  /** Composing the text before a separator with a prefix of the text after
      it that stops at a separator or at the end gives a prefix of the text
      that stops the same way. */
  lemma ComposePrefix(s: string, i: nat, sep: char, h: string)
    requires i < |s| && s[i] == sep
    requires h <= s[i + 1..] && (|h| < |s| - i - 1 ==> s[i + 1 + |h|] == sep)
    ensures var c := Compose(s[..i], sep, h);
      c <= s && (|c| < |s| ==> s[|c|] == sep)
  {
    var c := Compose(s[..i], sep, h);
    forall k | 0 <= k < |c| ensures c[k] == s[k] {
      if k > i {
        assert c[k] == h[k - i - 1] == s[i + 1..][k - i - 1];
      }
    }
  }

  /** Splitting a composed field gives back its two halves when neither
      holds the separator. */
  lemma SplitCompose(head: string, sep: char, tail: string)
    requires sep !in head && sep !in tail
    ensures Split(Compose(head, sep, tail), sep) == [head, tail]
  {
    var s := Compose(head, sep, tail);
    var i := IndexOf(s, sep);
    assert s[i + 1..] == tail;
  }
}
