/** Character substitution on strings, as `str::replace` does it when the
    pattern and the replacement are both one character long. */
module Strings {

  /** `s` with every `from` replaced by `to`; all other characters are kept. */
  function Replace(s: string, from: char, to: char): (r: string)
    ensures |r| == |s|
    ensures from != to ==> from !in r
  {
    if s == [] then []
    else [if s[0] == from then to else s[0]] + Replace(s[1..], from, to)
  }

  /** Replace works position by position. */
  lemma {:induction false} ReplaceAt(s: string, from: char, to: char, i: nat)
    requires i < |s|
    ensures Replace(s, from, to)[i] == if s[i] == from then to else s[i]
  {
    if i > 0 {
      ReplaceAt(s[1..], from, to, i - 1);
    }
  }

  /** A string without `from` is left alone. */
  lemma {:induction false} ReplaceAbsent(s: string, from: char, to: char)
    requires from !in s
    ensures Replace(s, from, to) == s
  {
    if s != [] {
      ReplaceAbsent(s[1..], from, to);
    }
  }

  /** Replacing twice is replacing once. */
  lemma {:induction false} ReplaceIdempotent(s: string, from: char, to: char)
    ensures Replace(Replace(s, from, to), from, to) == Replace(s, from, to)
  {
    if from != to {
      ReplaceAbsent(Replace(s, from, to), from, to);
    } else if s != [] {
      ReplaceIdempotent(s[1..], from, to);
    }
  }

  /** Rewriting `x` to `y` and then `y` back to `x` restores any string that did
      not already contain `y`. */
  lemma {:induction false} ReplaceUndone(s: string, x: char, y: char)
    requires y !in s
    ensures Replace(Replace(s, x, y), y, x) == s
  {
    if s != [] {
      ReplaceUndone(s[1..], x, y);
      assert Replace(s, x, y)[1..] == Replace(s[1..], x, y);
    }
  }

  /** Replace is determined position by position: any string that agrees with
      the substitution at every position is its result. */
  lemma ReplaceSpelled(s: string, from: char, to: char, t: string)
    requires |t| == |s|
    requires forall i :: 0 <= i < |s| ==> t[i] == if s[i] == from then to else s[i]
    ensures Replace(s, from, to) == t
  {
    forall i | 0 <= i < |s| ensures Replace(s, from, to)[i] == t[i] {
      ReplaceAt(s, from, to, i);
    }
  }
}
