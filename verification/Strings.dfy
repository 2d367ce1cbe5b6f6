/** Splitting text at a separator. */
module Strings {
  import opened Options

  /** The first position of `c`, or the length of the text. */
  function IndexOf(s: string, c: char): (i: nat)
    ensures i <= |s| && c !in s[..i]
    ensures i < |s| ==> s[i] == c
  {
    if s == [] || s[0] == c then 0
    else
      var i := IndexOf(s[1..], c);
      assert s[..i + 1] == [s[0]] + s[1..][..i];
      i + 1
  }

  /** Two pieces around the first separator; no second piece without one. */
  function Cut(s: string, c: char): (string, Option<string>) {
    var i := IndexOf(s, c);
    if i < |s| then (s[..i], Some(s[i + 1..])) else (s, None)
  }

  function Split(s: string, c: char): (parts: seq<string>)
    ensures |parts| > 0
    ensures forall i :: 0 <= i < |parts| ==> c !in parts[i]
    decreases |s|
  {
    var i := IndexOf(s, c);
    if i < |s| then [s[..i]] + Split(s[i + 1..], c) else [s]
  }

  lemma {:induction false} IndexOfFirst(a: string, c: char, b: string)
    requires c !in a
    ensures IndexOf(a + [c] + b, c) == |a|
    ensures (a + [c] + b)[..|a|] == a && (a + [c] + b)[|a| + 1..] == b
  {
    if a != [] {
      assert (a + [c] + b)[1..] == a[1..] + [c] + b;
      IndexOfFirst(a[1..], c, b);
    }
  }
}
