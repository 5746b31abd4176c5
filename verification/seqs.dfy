/** Order-preserving sequence helpers: the `Array.prototype.filter` and
    `.filter(...).length` idioms the screens and contexts are built from. */
module Seqs {

  /** `sub` can be obtained from `s` by deleting elements, keeping order. */
  predicate IsSubsequence<T(==)>(sub: seq<T>, s: seq<T>)
    decreases |s|
  {
    if |sub| == 0 then true
    else if |s| == 0 then false
    else if sub[0] == s[0] then IsSubsequence(sub[1..], s[1..])
    else IsSubsequence(sub, s[1..])
  }

  /** `Array.prototype.filter`: the elements of `s` satisfying `p`, in order. */
  function Filter<T(==,!new)>(p: T -> bool, s: seq<T>): (r: seq<T>)
    ensures |r| <= |s|
    ensures forall x :: x in r <==> x in s && p(x)
  {
    if |s| == 0 then []
    else if p(s[0]) then [s[0]] + Filter(p, s[1..])
    else Filter(p, s[1..])
  }

  /** `s.filter(p).length`. */
  function Count<T(==,!new)>(p: T -> bool, s: seq<T>): (n: nat)
    ensures n <= |s|
    ensures n == |Positions(p, s)|
  {
    FilterLength(p, s);
    |Filter(p, s)|
  }

  /** The filter keeps one element per satisfying position, so equal
      elements are kept as often as they occur. */
  lemma FilterLength<T(!new)>(p: T -> bool, s: seq<T>)
    ensures |Filter(p, s)| == |Positions(p, s)|
  {
    PrefixCount(p, s, |s|);
    assert s[..|s|] == s;
  }

  /** A subsequence of `s` made of satisfying elements has at most one
      element per satisfying position. */
  lemma {:induction false} SubsequenceCountBound<T(!new)>(p: T -> bool, r: seq<T>, s: seq<T>)
    requires IsSubsequence(r, s)
    requires forall x :: x in r ==> p(x)
    ensures |r| <= |Filter(p, s)|
    decreases |s|
  {
    if |r| > 0 {
      if r[0] == s[0] {
        assert forall x :: x in r[1..] ==> x in r;
        SubsequenceCountBound(p, r[1..], s[1..]);
      } else {
        SubsequenceCountBound(p, r, s[1..]);
      }
    }
  }

  /** The filter is the only subsequence of satisfying elements that keeps
      one element per satisfying position: membership, order and length fix
      its result. */
  lemma {:induction false} FilterUnique<T(!new)>(p: T -> bool, r: seq<T>, s: seq<T>)
    requires IsSubsequence(r, s)
    requires forall x :: x in r ==> p(x)
    requires |r| == |Filter(p, s)|
    ensures r == Filter(p, s)
    decreases |s|
  {
    if |s| > 0 {
      if |r| > 0 && r[0] == s[0] {
        assert forall x :: x in r[1..] ==> x in r;
        assert p(r[0]);
        FilterUnique(p, r[1..], s[1..]);
        assert r == [r[0]] + r[1..];
      } else if |r| > 0 {
        SubsequenceCountBound(p, r, s[1..]);
        FilterUnique(p, r, s[1..]);
      } else {
        assert !p(s[0]);
        FilterUnique(p, r, s[1..]);
      }
    }
  }

  /** The positions of `s` whose element satisfies `p`. */
  function Positions<T>(p: T -> bool, s: seq<T>): set<int> {
    set i | 0 <= i < |s| && p(s[i])
  }

  /** A prefix's filter keeps one element per satisfying position. */
  lemma {:induction false} PrefixCount<T(!new)>(p: T -> bool, s: seq<T>, hi: nat)
    requires hi <= |s|
    ensures |Filter(p, s[..hi])| == |set i | 0 <= i < hi && p(s[i])|
  {
    if hi > 0 {
      PrefixCount(p, s, hi - 1);
      assert s[..hi] == s[..hi - 1] + [s[hi - 1]];
      FilterAppend(p, s[..hi - 1], [s[hi - 1]]);
      assert Filter(p, [s[hi - 1]]) == if p(s[hi - 1]) then [s[hi - 1]] else [] by {
        assert [s[hi - 1]][1..] == [];
      }
      IndexSetStep(p, s, hi);
    }
  }

  /** One more position adds itself to the satisfying positions when it
      satisfies `p`. */
  lemma IndexSetStep<T(!new)>(p: T -> bool, s: seq<T>, hi: nat)
    requires 0 < hi <= |s|
    ensures |set i | 0 <= i < hi && p(s[i])|
            == |set i | 0 <= i < hi - 1 && p(s[i])| + (if p(s[hi - 1]) then 1 else 0)
  {
    var a := set i | 0 <= i < hi - 1 && p(s[i]);
    var b := set i | 0 <= i < hi && p(s[i]);
    if p(s[hi - 1]) {
      assert b == a + {hi - 1};
    } else {
      assert b == a;
    }
  }

  /** The filter keeps exactly the elements that satisfy `p`, in their order. */
  lemma {:induction false} FilterIsSubsequence<T(!new)>(p: T -> bool, s: seq<T>)
    ensures IsSubsequence(Filter(p, s), s)
  {
    if |s| > 0 {
      FilterIsSubsequence(p, s[1..]);
      if !p(s[0]) {
        var r := Filter(p, s[1..]);
        SubsequenceOfTail(r, s);
      }
    }
  }

  lemma {:induction false} SubsequenceOfTail<T>(sub: seq<T>, s: seq<T>)
    requires |s| > 0
    requires IsSubsequence(sub, s[1..])
    ensures IsSubsequence(sub, s)
    decreases |s|, |sub|
  {
    if |sub| > 0 && sub[0] == s[0] {
      // sub[1..] is a subsequence of s[1..] since sub is.
      SubsequenceDropHead(sub, s[1..]);
    }
  }

  lemma {:induction false} SubsequenceDropHead<T>(sub: seq<T>, s: seq<T>)
    requires |sub| > 0
    requires IsSubsequence(sub, s)
    ensures IsSubsequence(sub[1..], s)
    decreases |s|, |sub|
  {
    if |s| > 0 {
      if sub[0] == s[0] {
        if |sub| > 1 {
          SubsequenceOfTail(sub[1..], s);
        }
      } else {
        SubsequenceDropHead(sub, s[1..]);
        if |sub| > 1 {
          SubsequenceOfTail(sub[1..], s);
        }
      }
    }
  }

  /** Filtering by an always-true predicate changes nothing. */
  lemma {:induction false} FilterAll<T(!new)>(p: T -> bool, s: seq<T>)
    requires forall x :: x in s ==> p(x)
    ensures Filter(p, s) == s
  {
    if |s| > 0 {
      assert forall x :: x in s[1..] ==> x in s;
      FilterAll(p, s[1..]);
    }
  }

  /** Two predicates that agree on every element filter alike. */
  lemma {:induction false} FilterAgree<T(!new)>(p: T -> bool, q: T -> bool, s: seq<T>)
    requires forall x :: x in s ==> p(x) == q(x)
    ensures Filter(p, s) == Filter(q, s)
  {
    if |s| > 0 {
      assert forall x :: x in s[1..] ==> x in s;
      FilterAgree(p, q, s[1..]);
    }
  }

  /** Filters distribute over concatenation. */
  lemma {:induction false} FilterAppend<T(!new)>(p: T -> bool, a: seq<T>, b: seq<T>)
    ensures Filter(p, a + b) == Filter(p, a) + Filter(p, b)
  {
    if |a| == 0 {
      assert a + b == b;
    } else {
      assert (a + b)[1..] == a[1..] + b;
      FilterAppend(p, a[1..], b);
    }
  }

  /** Elements are counted once for each position that satisfies `p`. */
  lemma {:induction false} CountSplit<T(!new)>(p: T -> bool, q: T -> bool, s: seq<T>)
    requires forall x :: p(x) ==> !q(x)
    ensures Count(p, s) + Count(q, s) == Count(x => p(x) || q(x), s)
  {
    if |s| > 0 {
      CountSplit(p, q, s[1..]);
    }
  }

  /** Everything in a subsequence is in the sequence. */
  lemma {:induction false} SubsequenceElements<T>(sub: seq<T>, s: seq<T>)
    requires IsSubsequence(sub, s)
    ensures forall x :: x in sub ==> x in s
    decreases |s|
  {
    if |sub| > 0 {
      if sub[0] == s[0] {
        SubsequenceElements(sub[1..], s[1..]);
        assert forall x :: x in sub ==> x == sub[0] || x in sub[1..];
      } else {
        SubsequenceElements(sub, s[1..]);
      }
    }
  }
}
