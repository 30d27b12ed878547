/**
 * LINQ's Enumerable.Distinct over a finite sequence: it enumerates the source
 * once, remembers what it has yielded, and yields each element the first time
 * it meets it, so the output keeps first occurrences in source order.
 */
module Enumerable {

  predicate NoDuplicates<T(==)>(s: seq<T>) {
    forall i, j :: 0 <= i < j < |s| ==> s[i] != s[j]
  }

  /** The part of Distinct still to come once the elements of `seen` have been yielded. */
  function DistinctFrom<T(==)>(s: seq<T>, seen: set<T>): (r: seq<T>)
    ensures NoDuplicates(r)
    ensures forall k :: 0 <= k < |r| ==> r[k] in s && r[k] !in seen
    ensures forall k :: 0 <= k < |s| && s[k] !in seen ==> s[k] in r
    decreases |s|
  {
    if s == [] then []
    else if s[0] in seen then DistinctFrom(s[1..], seen)
    else [s[0]] + DistinctFrom(s[1..], seen + {s[0]})
  }

  /** Enumerable.Distinct: every element of `s` exactly once. */
  function Distinct<T(==)>(s: seq<T>): (r: seq<T>)
    ensures NoDuplicates(r)
    ensures forall k :: 0 <= k < |r| ==> r[k] in s
    ensures forall k :: 0 <= k < |s| ==> s[k] in r
  {
    DistinctFrom(s, {})
  }

  lemma {:induction false} DistinctFromSnoc<T>(s: seq<T>, x: T, seen: set<T>)
    ensures DistinctFrom(s + [x], seen)
         == if x in s || x in seen then DistinctFrom(s, seen) else DistinctFrom(s, seen) + [x]
    decreases |s|
  {
    if s != [] {
      var tail := s[1..];
      assert (s + [x])[0] == s[0] && (s + [x])[1..] == tail + [x];
      assert x in s <==> x == s[0] || x in tail;
      if s[0] in seen {
        assert DistinctFrom(s + [x], seen) == DistinctFrom(tail + [x], seen);
        DistinctFromSnoc(tail, x, seen);
      } else {
        var seen' := seen + {s[0]};
        var rest := DistinctFrom(tail, seen');
        assert DistinctFrom(s, seen) == [s[0]] + rest;
        assert DistinctFrom(s + [x], seen) == [s[0]] + DistinctFrom(tail + [x], seen');
        DistinctFromSnoc(tail, x, seen');
        assert [s[0]] + (rest + [x]) == [s[0]] + rest + [x];
      }
    }
  }

  /**
   * Distinct is order-preserving and streaming: one more source element adds
   * one output element at the end exactly when it has not been seen before.
   */
  lemma DistinctSnoc<T>(s: seq<T>, x: T)
    ensures Distinct(s + [x]) == if x in s then Distinct(s) else Distinct(s) + [x]
  {
    DistinctFromSnoc(s, x, {});
  }

  /** Distinct of a sequence followed by three more elements, by DistinctSnoc three times. */
  lemma DistinctAppendThree<T>(s: seq<T>, a: T, b: T, c: T)
    ensures Distinct(s + [a, b, c]) ==
      Distinct(s)
      + (if a in s then [] else [a])
      + (if b in s + [a] then [] else [b])
      + (if c in s + [a, b] then [] else [c])
  {
    DistinctSnoc(s, a);
    DistinctSnoc(s + [a], b);
    assert s + [a] + [b] == s + [a, b];
    DistinctSnoc(s + [a, b], c);
    assert s + [a, b] + [c] == s + [a, b, c];
  }

  lemma {:induction false} DistinctFromOfUnique<T>(s: seq<T>, seen: set<T>)
    requires NoDuplicates(s)
    requires forall k :: 0 <= k < |s| ==> s[k] !in seen
    ensures DistinctFrom(s, seen) == s
    decreases |s|
  {
    if s != [] {
      assert s[0] !in s[1..];
      DistinctFromOfUnique(s[1..], seen + {s[0]});
      assert [s[0]] + s[1..] == s;
    }
  }

  /** A sequence without duplicates passes through Distinct unchanged. */
  lemma DistinctOfUnique<T>(s: seq<T>)
    requires NoDuplicates(s)
    ensures Distinct(s) == s
  {
    DistinctFromOfUnique(s, {});
  }

  /** Distinct is idempotent. */
  lemma DistinctIdempotent<T>(s: seq<T>)
    ensures Distinct(Distinct(s)) == Distinct(s)
  {
    DistinctOfUnique(Distinct(s));
  }
}
