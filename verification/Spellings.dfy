/** When two spellings are the same codec name: blanks around them and the case of ASCII letters do not count. */
module Spellings {
  import opened Codec

  /** The code points that Unicode calls white space. */
  const SPACES := {
    0x09, 0x0A, 0x0B, 0x0C, 0x0D, 0x20, 0x85, 0xA0, 0x1680,
    0x2000, 0x2001, 0x2002, 0x2003, 0x2004, 0x2005, 0x2006, 0x2007, 0x2008, 0x2009, 0x200A,
    0x2028, 0x2029, 0x202F, 0x205F, 0x3000}

  lemma SpacesAre(c: char)
    ensures IsSpace(c) <==> c as int in SPACES
  {
  }

  predicate Blank(s: string) {
    forall i :: 0 <= i < |s| ==> IsSpace(s[i])
  }

  /** The text neither starts nor ends with white space. */
  predicate Tight(s: string) {
    s != [] ==> !IsSpace(s[0]) && !IsSpace(s[|s| - 1])
  }

  /** The characters are the same, or one letter in both cases. */
  predicate SameLetter(a: char, b: char) {
    || a == b
    || ('a' <= a <= 'z' && a as int - b as int == 32)
    || ('a' <= b <= 'z' && b as int - a as int == 32)
  }

  predicate SameLetters(x: string, y: string) {
    |x| == |y| && forall i :: 0 <= i < |x| ==> SameLetter(x[i], y[i])
  }

  lemma LoweredIff(x: string, y: string)
    ensures ToLower(x) == ToLower(y) <==> SameLetters(x, y)
  {
    assert forall a, b :: Lower(a) == Lower(b) <==> SameLetter(a, b);
    if ToLower(x) == ToLower(y) {
      forall i | 0 <= i < |x|
        ensures SameLetter(x[i], y[i])
      {
        assert ToLower(x)[i] == Lower(x[i]) && ToLower(y)[i] == Lower(y[i]);
      }
    }
  }

  lemma {:induction false} TrimLeftIs(pre: string, x: string)
    requires Blank(pre) && (x != [] ==> !IsSpace(x[0]))
    ensures TrimLeft(pre + x) == x
    decreases |pre|
  {
    if pre == [] {
      assert pre + x == x;
    } else {
      assert (pre + x)[1..] == pre[1..] + x;
      TrimLeftIs(pre[1..], x);
    }
  }

  lemma {:induction false} TrimRightIs(x: string, post: string)
    requires Blank(post) && (x != [] ==> !IsSpace(x[|x| - 1]))
    ensures TrimRight(x + post) == x
    decreases |post|
  {
    if post == [] {
      assert x + post == x;
    } else {
      assert (x + post)[..|x + post| - 1] == x + post[..|post| - 1];
      TrimRightIs(x, post[..|post| - 1]);
    }
  }

  lemma TrimIs(pre: string, x: string, post: string)
    requires Blank(pre) && Tight(x) && Blank(post)
    ensures Trim(pre + x + post) == x
  {
    if x == [] {
      TrimLeftIs(pre + post, []);
      assert pre + x + post == pre + post + [];
    } else {
      TrimLeftIs(pre, x + post);
      assert pre + x + post == pre + (x + post);
      TrimRightIs(x, post);
    }
  }

  /** Two spellings are equal iff what stands between the blanks differs at most in case. */
  lemma EqualIff(pre: string, x: string, post: string, pre': string, y: string, post': string)
    requires Blank(pre) && Tight(x) && Blank(post) && Blank(pre') && Tight(y) && Blank(post')
    ensures Equal(pre + x + post, pre' + y + post') <==> SameLetters(x, y)
  {
    TrimIs(pre, x, post);
    TrimIs(pre', y, post');
    LoweredIff(x, y);
  }

  /** Every text is of that form. */
  lemma {:induction false} Splits(s: string) returns (pre: string, x: string, post: string)
    ensures Blank(pre) && Tight(x) && Blank(post) && s == pre + x + post
    decreases |s|
  {
    if s == [] {
      pre, x, post := [], [], [];
    } else if IsSpace(s[0]) {
      pre, x, post := Splits(s[1..]);
      assert s == ([s[0]] + pre) + x + post;
      pre := [s[0]] + pre;
    } else if IsSpace(s[|s| - 1]) {
      pre, x, post := Splits(s[..|s| - 1]);
      assert s == pre + x + (post + [s[|s| - 1]]);
      post := post + [s[|s| - 1]];
    } else {
      pre, x, post := [], s, [];
    }
  }
}
