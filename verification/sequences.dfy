/** Generic list operations the catalog controller relies on: `Array.prototype.find`
    and `Array.prototype.filter`, and the order-preserving subsequence relation that
    characterises a filter. */
module Sequences {

  datatype Option<+T> = None | Some(value: T)

  /** Index of the first element satisfying `matches`: the element `find` returns. */
  function FindIndex<T>(s: seq<T>, matches: T -> bool): (r: Option<nat>)
    ensures r.Some? ==> r.value < |s| && matches(s[r.value])
    ensures r.Some? ==> forall j :: 0 <= j < r.value ==> !matches(s[j])
    ensures r.None? <==> forall j :: 0 <= j < |s| ==> !matches(s[j])
  {
    if s == [] then None
    else if matches(s[0]) then Some(0)
    else match FindIndex(s[1..], matches)
      case None => None
      case Some(i) => Some(i + 1)
  }

  /** `r` can be obtained from `s` by deleting elements, keeping the order of the rest. */
  predicate IsSubsequence<T(==)>(r: seq<T>, s: seq<T>)
    decreases |s|
  {
    r == [] || (s != [] && ((r[0] == s[0] && IsSubsequence(r[1..], s[1..])) || IsSubsequence(r, s[1..])))
  }

  /** The elements of `s` that `keep` accepts, in their original order. */
  function Filter<T(==, !new)>(s: seq<T>, keep: T -> bool): (r: seq<T>)
    ensures IsSubsequence(r, s)
    ensures forall x :: x in r <==> x in s && keep(x)
    ensures forall x :: multiset(r)[x] == if keep(x) then multiset(s)[x] else 0
  {
    if s == [] then []
    else
      var rest := Filter(s[1..], keep);
      assert s == [s[0]] + s[1..];
      if keep(s[0]) then [s[0]] + rest else rest
  }

  lemma {:induction false} SubsequenceMultiset<T>(r: seq<T>, s: seq<T>)
    requires IsSubsequence(r, s)
    ensures multiset(r) <= multiset(s)
    decreases |s|
  {
    if r != [] {
      assert s == [s[0]] + s[1..];
      if r[0] == s[0] && IsSubsequence(r[1..], s[1..]) {
        SubsequenceMultiset(r[1..], s[1..]);
        assert r == [r[0]] + r[1..];
      } else {
        SubsequenceMultiset(r, s[1..]);
      }
    }
  }

  /** The contract of `Filter` pins its result down: any order-preserving subsequence
      of `s` that holds every accepted element as often as `s` does, and nothing else,
      is the filter. */
  lemma {:induction false} FilterIsUnique<T(!new)>(s: seq<T>, keep: T -> bool, r: seq<T>)
    requires IsSubsequence(r, s)
    requires forall x :: multiset(r)[x] == if keep(x) then multiset(s)[x] else 0
    ensures r == Filter(s, keep)
    decreases |s|
  {
    if s != [] {
      var a, t := s[0], s[1..];
      assert s == [a] + t;
      if keep(a) {
        assert multiset(r)[a] == multiset(t)[a] + 1;
        if r != [] && r[0] == a && IsSubsequence(r[1..], t) {
          assert r == [a] + r[1..];
          forall x ensures multiset(r[1..])[x] == if keep(x) then multiset(t)[x] else 0 {
            assert multiset(r)[x] == multiset(r[1..])[x] + (if x == a then 1 else 0);
          }
          FilterIsUnique(t, keep, r[1..]);
        } else {
          assert IsSubsequence(r, t);
          SubsequenceMultiset(r, t);
          assert false;
        }
      } else {
        assert multiset(r)[a] == 0;
        assert IsSubsequence(r, t) by {
          if r != [] { assert r[0] in multiset(r); }
        }
        forall x ensures multiset(r)[x] == if keep(x) then multiset(t)[x] else 0 {
          if keep(x) { assert x != a; }
        }
        FilterIsUnique(t, keep, r);
      }
    }
  }
}
