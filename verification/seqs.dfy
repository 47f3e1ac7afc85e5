/** `Array.prototype.filter` over immutable sequences, and the facts about it
    that the event store and the week grid rely on. */
module Seqs {

  /** The elements of `s` satisfying `p`, in their original order. */
  function Filter<T>(s: seq<T>, p: T -> bool): (r: seq<T>)
    ensures |r| <= |s|
    ensures forall i :: 0 <= i < |r| ==> r[i] in s && p(r[i])
    ensures forall i :: 0 <= i < |s| && p(s[i]) ==> s[i] in r
    decreases |s|
  {
    if |s| == 0 then []
    else (if p(s[0]) then [s[0]] else []) + Filter(s[1..], p)
  }

  /** Filtering commutes with concatenation: relative order is kept. */
  lemma {:induction false} FilterConcat<T>(a: seq<T>, b: seq<T>, p: T -> bool)
    ensures Filter(a + b, p) == Filter(a, p) + Filter(b, p)
    decreases |a|
  {
    if |a| == 0 {
      assert a + b == b;
    } else {
      assert (a + b)[0] == a[0];
      assert (a + b)[1..] == a[1..] + b;
      FilterConcat(a[1..], b, p);
    }
  }

  /** Filtering a sequence whose every element passes leaves it unchanged. */
  lemma {:induction false} FilterKeepsAll<T>(s: seq<T>, p: T -> bool)
    requires forall i :: 0 <= i < |s| ==> p(s[i])
    ensures Filter(s, p) == s
    decreases |s|
  {
    if |s| > 0 {
      FilterKeepsAll(s[1..], p);
    }
  }

  /** Filtering twice by the same predicate equals filtering once. */
  lemma FilterIdempotent<T>(s: seq<T>, p: T -> bool)
    ensures Filter(Filter(s, p), p) == Filter(s, p)
  {
    var r := Filter(s, p);
    forall i | 0 <= i < |r| ensures p(r[i]) {
      assert r[i] in r;
    }
    FilterKeepsAll(r, p);
  }

  /** Two predicates that split `all` into disjoint halves split every filtered
      sequence: the two results together hold exactly the elements `all` keeps. */
  lemma {:induction false} FilterPartition<T>(s: seq<T>, all: T -> bool, yes: T -> bool, no: T -> bool)
    requires forall i :: 0 <= i < |s| ==> (yes(s[i]) ==> all(s[i]) && !no(s[i]))
    requires forall i :: 0 <= i < |s| ==> (no(s[i]) ==> all(s[i]))
    requires forall i :: 0 <= i < |s| ==> (all(s[i]) ==> yes(s[i]) || no(s[i]))
    ensures multiset(Filter(s, yes)) + multiset(Filter(s, no)) == multiset(Filter(s, all))
    ensures |Filter(s, yes)| + |Filter(s, no)| == |Filter(s, all)|
    decreases |s|
  {
    if |s| > 0 {
      FilterPartition(s[1..], all, yes, no);
    }
  }
}
