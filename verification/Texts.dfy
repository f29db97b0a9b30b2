/** Where one text lies in another. */
module Texts {

  /** From the `j`-th element on, `t` is the same as what is in `s` at `i`. */
  predicate Same<T(==)>(s: seq<T>, i: nat, t: seq<T>, j: nat)
    requires i + |t| <= |s| && j <= |t|
    decreases |t| - j
  {
    j == |t| || (s[i + j] == t[j] && Same(s, i, t, j + 1))
  }

  lemma {:induction false} SameIsSlice<T>(s: seq<T>, i: nat, t: seq<T>, j: nat)
    requires i + |t| <= |s| && j <= |t|
    ensures Same(s, i, t, j) <==> s[i + j..i + |t|] == t[j..]
    decreases |t| - j
  {
    if j < |t| {
      SameIsSlice(s, i, t, j + 1);
      assert s[i + j..i + |t|] == [s[i + j]] + s[i + j + 1..i + |t|];
      assert t[j..] == [t[j]] + t[j + 1..];
    }
  }

  /** `t` lies in `s` at `i`. */
  predicate Has(s: string, i: nat, t: string) {
    i + |t| <= |s| && Same(s, i, t, 0)
  }

  lemma HasIsSlice(s: string, i: nat, t: string)
    ensures Has(s, i, t) <==> i + |t| <= |s| && s[i..i + |t|] == t
  {
    if i + |t| <= |s| {
      SameIsSlice(s, i, t, 0);
      assert t[0..] == t;
    }
  }

  lemma HasParts(s: string, i: nat, a: string, b: string)
    requires Has(s, i, a + b)
    ensures Has(s, i, a) && Has(s, i + |a|, b)
  {
    HasIsSlice(s, i, a + b);
    HasIsSlice(s, i, a);
    HasIsSlice(s, i + |a|, b);
    assert s[i..i + |a|] == (a + b)[..|a|] == a;
    assert s[i + |a|..i + |a| + |b|] == (a + b)[|a|..] == b;
  }

  lemma HasThree(s: string, i: nat, a: string, b: string, c: string)
    requires Has(s, i, a + b + c)
    ensures Has(s, i, a) && Has(s, i + |a|, b) && Has(s, i + |a| + |b|, c)
  {
    HasParts(s, i, a + b, c);
    HasParts(s, i, a, b);
  }

  lemma HasChar(s: string, i: nat, t: string, k: nat)
    requires Has(s, i, t) && k < |t|
    ensures i + k < |s| && s[i + k] == t[k]
  {
    HasIsSlice(s, i, t);
    assert s[i + k] == s[i..i + |t|][k];
  }

  predicate CharAt(s: string, i: nat, c: char) {
    i < |s| && s[i] == c
  }

  /** Something between two single characters. */
  lemma HasBetween(s: string, i: nat, open_: string, t: string, close: string)
    requires |open_| == 1 && |close| == 1 && Has(s, i, open_ + t + close)
    ensures CharAt(s, i, open_[0]) && Has(s, i + 1, t) && CharAt(s, i + 1 + |t|, close[0])
    ensures |open_ + t + close| == |t| + 2
  {
    HasThree(s, i, open_, t, close);
    HasChar(s, i, open_, 0);
    HasChar(s, i + 1 + |t|, close, 0);
  }
}
