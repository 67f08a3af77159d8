/** How many elements of a sequence pass a test. */
module Counting {

  function Count<T>(s: seq<T>, p: T -> bool): nat {
    if s == [] then 0 else Count(s[..|s| - 1], p) + (if p(s[|s| - 1]) then 1 else 0)
  }

  lemma {:induction false} CountConcat<T>(s: seq<T>, t: seq<T>, p: T -> bool)
    ensures Count(s + t, p) == Count(s, p) + Count(t, p)
  {
    if t == [] {
      assert s + t == s;
    } else {
      CountConcat(s, t[..|t| - 1], p);
      assert (s + t)[..|s + t| - 1] == s + t[..|t| - 1];
    }
  }

  lemma CountSnoc<T>(s: seq<T>, x: T, p: T -> bool)
    ensures Count(s + [x], p) == Count(s, p) + (if p(x) then 1 else 0)
  {
    assert (s + [x])[..|s|] == s;
  }

  lemma CountSplit<T>(s: seq<T>, k: nat, p: T -> bool)
    requires k <= |s|
    ensures Count(s, p) == Count(s[..k], p) + Count(s[k..], p)
  {
    assert s == s[..k] + s[k..];
    CountConcat(s[..k], s[k..], p);
  }

  lemma CountMiddle<T>(before: seq<T>, x: T, after: seq<T>, p: T -> bool)
    ensures Count(before + [x] + after, p) == Count(before + after, p) + (if p(x) then 1 else 0)
  {
    CountConcat(before + [x], after, p);
    CountConcat(before, [x], p);
    CountConcat(before, after, p);
    assert [x][..0] == [];
  }

  lemma SplitAt<T>(s: seq<T>, x: T) returns (before: seq<T>, after: seq<T>)
    requires x in s
    ensures s == before + [x] + after
    ensures multiset(before + after) == multiset(s) - multiset{x}
  {
    var j :| 0 <= j < |s| && s[j] == x;
    before, after := s[..j], s[j + 1..];
    assert s == before + [x] + after;
  }

  /** Counting does not depend on the order of the elements. */
  lemma {:induction false} CountPermuted<T>(s: seq<T>, t: seq<T>, p: T -> bool)
    requires multiset(s) == multiset(t)
    ensures Count(s, p) == Count(t, p)
    decreases |s|
  {
    if s == [] {
      assert |multiset(t)| == 0;
    } else {
      var x, rest := s[|s| - 1], s[..|s| - 1];
      assert s == rest + [x];
      assert x in multiset(t);
      var before, after := SplitAt(t, x);
      CountPermuted(rest, before + after, p);
      CountMiddle(before, x, after, p);
    }
  }

  lemma {:induction false} CountMonotone<T>(s: seq<T>, p: T -> bool, q: T -> bool)
    requires forall i | 0 <= i < |s| :: p(s[i]) ==> q(s[i])
    ensures Count(s, p) <= Count(s, q)
  {
    if s != [] {
      CountMonotone(s[..|s| - 1], p, q);
    }
  }

  lemma {:induction false} CountExtremes<T>(s: seq<T>, p: T -> bool)
    ensures Count(s, p) <= |s|
    ensures (forall i | 0 <= i < |s| :: p(s[i])) ==> Count(s, p) == |s|
    ensures (forall i | 0 <= i < |s| :: !p(s[i])) ==> Count(s, p) == 0
  {
    if s != [] {
      CountExtremes(s[..|s| - 1], p);
    }
  }
}
