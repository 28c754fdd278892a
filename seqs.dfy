/** Array.prototype.filter on immutable sequences, and the ordered
    sub-sequence relation it establishes. */
module Seqs {

  /** `r` is obtained from `s` by deleting some elements, the rest kept in
      their original order. */
  ghost predicate IsSubsequence<T>(r: seq<T>, s: seq<T>)
    decreases |s|
  {
    if |r| == 0 then true
    else if |s| == 0 then false
    else if r[0] == s[0] then IsSubsequence(r[1..], s[1..])
    else IsSubsequence(r, s[1..])
  }

  /** Every sequence is a sub-sequence of itself. */
  lemma {:induction false} SubsequenceReflexive<T>(s: seq<T>)
    ensures IsSubsequence(s, s)
    decreases |s|
  {
    if |s| > 0 {
      SubsequenceReflexive(s[1..]);
    }
  }

  /** `s.filter(keep)`: exactly the elements of `s` that satisfy `keep`,
      in the order they have in `s`. */
  function Filter<T>(s: seq<T>, keep: T -> bool): (r: seq<T>)
    ensures |r| <= |s|
    ensures forall k :: 0 <= k < |r| ==> keep(r[k]) && r[k] in s
    ensures forall k :: 0 <= k < |s| && keep(s[k]) ==> s[k] in r
    ensures IsSubsequence(r, s)
    decreases |s|
  {
    if |s| == 0 then []
    else
      var rest := Filter(s[1..], keep);
      if keep(s[0]) then [s[0]] + rest else rest
  }

  /** A filter that keeps every element changes nothing. */
  lemma {:induction false} FilterKeepsAll<T>(s: seq<T>, keep: T -> bool)
    requires forall k :: 0 <= k < |s| ==> keep(s[k])
    ensures Filter(s, keep) == s
    decreases |s|
  {
    if |s| > 0 {
      FilterKeepsAll(s[1..], keep);
      assert [s[0]] + s[1..] == s;
    }
  }

  /** A filter that rejects exactly the element at position `i` removes that
      one element and keeps the others in order. */
  lemma {:induction false} FilterDropsOne<T>(s: seq<T>, keep: T -> bool, i: int)
    requires 0 <= i < |s| && !keep(s[i])
    requires forall k :: 0 <= k < |s| && k != i ==> keep(s[k])
    ensures Filter(s, keep) == s[..i] + s[i + 1..]
    ensures |Filter(s, keep)| == |s| - 1
    decreases |s|
  {
    if i == 0 {
      FilterKeepsAll(s[1..], keep);
    } else {
      FilterDropsOne(s[1..], keep, i - 1);
      assert [s[0]] + (s[1..][..i - 1] + s[1..][i..]) == s[..i] + s[i + 1..];
    }
  }

  /** Filtering four elements of which only the first and the last are
      kept. */
  lemma FilterFirstAndLastOfFour<T>(s: seq<T>, keep: T -> bool)
    requires |s| == 4 && keep(s[0]) && !keep(s[1]) && !keep(s[2]) && keep(s[3])
    ensures Filter(s, keep) == [s[0], s[3]]
  {
    assert Filter(s[3..], keep) == [s[3]] + Filter(s[4..], keep);
    assert Filter(s[2..], keep) == Filter(s[2..][1..], keep);
    assert s[2..][1..] == s[3..];
    assert Filter(s[1..], keep) == Filter(s[1..][1..], keep);
    assert s[1..][1..] == s[2..];
  }

  /** Filtering a sequence extended by one element filters the old part
      and then keeps or drops the new element on its own. */
  lemma {:induction false} FilterAppendOne<T>(s: seq<T>, x: T, keep: T -> bool)
    ensures Filter(s + [x], keep) == Filter(s, keep) + (if keep(x) then [x] else [])
    decreases |s|
  {
    if |s| == 0 {
      assert s + [x] == [x];
    } else {
      assert (s + [x])[1..] == s[1..] + [x];
      FilterAppendOne(s[1..], x, keep);
    }
  }

  /** A filter keeps every copy of each passing value and no copy of any
      other: it fixes the multiplicities, not only which values appear. */
  lemma {:induction false} FilterCountsCopies<T>(s: seq<T>, keep: T -> bool)
    ensures multiset(Filter(s, keep)) <= multiset(s)
    ensures forall x :: multiset(Filter(s, keep))[x] == if keep(x) then multiset(s)[x] else 0
    decreases |s|
  {
    if |s| > 0 {
      var rest := Filter(s[1..], keep);
      FilterCountsCopies(s[1..], keep);
      assert s == [s[0]] + s[1..];
      var head := if keep(s[0]) then [s[0]] else [];
      assert Filter(s, keep) == head + rest;
      assert multiset(s) == multiset{s[0]} + multiset(s[1..]);
      assert multiset(Filter(s, keep)) == multiset(head) + multiset(rest);
    }
  }

  /** Appending `x` adds its position to the passing positions exactly
      when `x` passes. */
  lemma PassingOfAppend<T>(init: seq<T>, x: T, keep: T -> bool)
    ensures (set k | 0 <= k < |init + [x]| && keep((init + [x])[k]))
         == (set k | 0 <= k < |init| && keep(init[k])) + (if keep(x) then {|init|} else {})
  {
    var s := init + [x];
    var before := set k | 0 <= k < |init| && keep(init[k]);
    var last: set<int> := if keep(x) then {|init|} else {};
    forall k | 0 <= k < |s| && keep(s[k]) ensures k in before + last {
      if k < |init| {
        assert s[k] == init[k];
      }
    }
    forall k | k in before + last ensures 0 <= k < |s| && keep(s[k]) {
      if k < |init| {
        assert s[k] == init[k];
      }
    }
  }

  /** The length of a filter is the number of positions whose element
      passes. */
  lemma {:induction false} FilterLengthCountsPassing<T>(s: seq<T>, keep: T -> bool)
    ensures |Filter(s, keep)| == |set k | 0 <= k < |s| && keep(s[k])|
    decreases |s|
  {
    if |s| > 0 {
      var init, x := s[..|s| - 1], s[|s| - 1];
      FilterLengthCountsPassing(init, keep);
      assert init + [x] == s;
      FilterAppendOne(init, x, keep);
      PassingOfAppend(init, x, keep);
      var before := set k | 0 <= k < |init| && keep(init[k]);
      assert |init| !in before;
    }
  }

  /** The same count for any set described by its members, so that a caller
      can name the passing positions in its own terms. */
  lemma FilterLengthCountsMembers<T>(s: seq<T>, keep: T -> bool, passing: set<int>)
    requires forall k :: k in passing <==> 0 <= k < |s| && keep(s[k])
    ensures |Filter(s, keep)| == |passing|
  {
    FilterLengthCountsPassing(s, keep);
    assert passing == set k | 0 <= k < |s| && keep(s[k]);
  }

  /** A filter keeps the whole sequence exactly when every element passes. */
  lemma {:induction false} FilterKeepsLengthIff<T>(s: seq<T>, keep: T -> bool)
    ensures |Filter(s, keep)| == |s| <==> forall k :: 0 <= k < |s| ==> keep(s[k])
    decreases |s|
  {
    if |s| > 0 {
      FilterKeepsLengthIff(s[1..], keep);
      if |Filter(s, keep)| == |s| {
        assert keep(s[0]);
        forall k | 0 <= k < |s|
          ensures keep(s[k])
        {
          if k > 0 {
            assert s[k] == s[1..][k - 1];
          }
        }
      } else if forall k :: 0 <= k < |s| ==> keep(s[k]) {
        FilterKeepsAll(s, keep);
      }
    }
  }
}
