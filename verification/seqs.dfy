/**
 * `Array.prototype.filter` and `Array.prototype.pop` on a freshly filtered
 * array, the two array operations the reducer and the selectors are built from.
 */
module Seqs {
  import opened Results

  /** The elements of `s` that satisfy `p`, in their original order. */
  function Filter<T>(s: seq<T>, p: T -> bool): (r: seq<T>)
    ensures |r| <= |s|
  {
    if s == [] then []
    else (if p(s[0]) then [s[0]] else []) + Filter(s[1..], p)
  }

  /** The filter keeps exactly the elements that pass. */
  lemma {:induction false} FilterMembers<T>(s: seq<T>, p: T -> bool)
    ensures forall i :: 0 <= i < |Filter(s, p)| ==> Filter(s, p)[i] in s && p(Filter(s, p)[i])
    ensures forall i :: 0 <= i < |s| && p(s[i]) ==> s[i] in Filter(s, p)
  {
    if s != [] {
      FilterMembers(s[1..], p);
      var head := if p(s[0]) then [s[0]] else [];
      var r := Filter(s, p);
      assert r == head + Filter(s[1..], p);
      forall i | 0 <= i < |r| ensures r[i] in s && p(r[i]) {
        if i >= |head| {
          assert r[i] == Filter(s[1..], p)[i - |head|];
        }
      }
      forall i | 0 <= i < |s| && p(s[i]) ensures s[i] in r {
        if i > 0 {
          assert s[i] == s[1..][i - 1];
        }
      }
    }
  }

  /** The opposite test. */
  function Not<T>(p: T -> bool): T -> bool
  {
    x => !p(x)
  }

  /** `pop()` on a fresh array: its last element, or `undefined` (`None`) when it is empty. */
  function Last<T>(s: seq<T>): Option<T>
  {
    if s == [] then None else Some(s[|s| - 1])
  }

  /** Filtering a single element keeps it exactly when it passes. */
  lemma FilterSingleton<T>(x: T, p: T -> bool)
    ensures Filter([x], p) == if p(x) then [x] else []
  {
    assert [x][1..] == [];
  }

  /** Filtering distributes over concatenation. */
  lemma {:induction false} FilterAppend<T>(a: seq<T>, b: seq<T>, p: T -> bool)
    ensures Filter(a + b, p) == Filter(a, p) + Filter(b, p)
  {
    if a != [] {
      assert (a + b)[0] == a[0] && (a + b)[1..] == a[1..] + b;
      FilterAppend(a[1..], b, p);
      var head := if p(a[0]) then [a[0]] else [];
      assert Filter(a + b, p) == head + Filter(a[1..] + b, p);
    } else {
      assert a + b == b;
    }
  }

  /** Of two elements that never both pass, the one put in front of a
      filtered tail cannot change where the other ends up. */
  lemma FilterPrependSwap<T>(x: T, e: T, tail: seq<T>, rest: seq<T>, p: T -> bool)
    requires !(p(x) && p(e))
    requires Filter(tail, p) == (if p(e) then [e] else []) + Filter(rest, p)
    ensures Filter([x] + tail, p) == (if p(e) then [e] else []) + Filter([x] + rest, p)
  {
    FilterCons(x, tail, p);
    FilterCons(x, rest, p);
    var eh := if p(e) then [e] else [];
    var xh := if p(x) then [x] else [];
    var w := Filter(rest, p);
    assert xh == [] || eh == [];
    assert xh + (eh + w) == eh + (xh + w);
  }

  /** Filtering a sequence with one more element in front. */
  lemma FilterCons<T>(x: T, s: seq<T>, p: T -> bool)
    ensures Filter([x] + s, p) == (if p(x) then [x] else []) + Filter(s, p)
  {
    assert ([x] + s)[0] == x && ([x] + s)[1..] == s;
  }

  /** Two filters can be applied in either order. */
  lemma {:induction false} FilterCommute<T>(s: seq<T>, p: T -> bool, q: T -> bool)
    ensures Filter(Filter(s, p), q) == Filter(Filter(s, q), p)
  {
    if s != [] {
      var x := s[0];
      FilterCommute(s[1..], p, q);
      var hp := if p(x) then [x] else [];
      var hq := if q(x) then [x] else [];
      var both := if p(x) && q(x) then [x] else [];
      FilterAppend(hp, Filter(s[1..], p), q);
      FilterAppend(hq, Filter(s[1..], q), p);
      assert Filter(hp, q) == both by {
        if p(x) {
          FilterSingleton(x, q);
        }
      }
      assert Filter(hq, p) == both by {
        if q(x) {
          FilterSingleton(x, p);
        }
      }
    }
  }

  /** Filtering with the same test twice is filtering once. */
  lemma {:induction false} FilterIdempotent<T>(s: seq<T>, p: T -> bool)
    ensures Filter(Filter(s, p), p) == Filter(s, p)
  {
    if s != [] {
      FilterIdempotent(s[1..], p);
      var head := if p(s[0]) then [s[0]] else [];
      FilterAppend(head, Filter(s[1..], p), p);
    }
  }

  /** When every element passes the test, filtering returns the sequence itself. */
  lemma {:induction false} FilterKeepsAll<T>(s: seq<T>, p: T -> bool)
    requires forall i :: 0 <= i < |s| ==> p(s[i])
    ensures Filter(s, p) == s
  {
    if s != [] {
      FilterKeepsAll(s[1..], p);
    }
  }

  /** A test and its complement partition the sequence: what the filter drops
      is exactly what the opposite filter keeps. */
  lemma {:induction false} FilterPartition<T>(s: seq<T>, p: T -> bool)
    ensures multiset(Filter(s, p)) + multiset(Filter(s, Not(p))) == multiset(s)
  {
    if s != [] {
      var rest := s[1..];
      FilterPartition(rest, p);
      assert s == [s[0]] + rest;
      var yes, no := Filter(rest, p), Filter(rest, Not(p));
      if p(s[0]) {
        assert Filter(s, p) == [s[0]] + yes;
        assert Filter(s, Not(p)) == no;
        assert multiset([s[0]] + yes) == multiset{s[0]} + multiset(yes);
      } else {
        assert Filter(s, p) == yes;
        assert Filter(s, Not(p)) == [s[0]] + no;
        assert multiset([s[0]] + no) == multiset{s[0]} + multiset(no);
      }
      assert multiset(s) == multiset{s[0]} + multiset(rest);
    }
  }

  /** Filtering respects permutation: two arrangements of the same elements
      keep the same elements. */
  lemma {:induction false} FilterOfPermutation<T>(a: seq<T>, b: seq<T>, p: T -> bool)
    requires multiset(a) == multiset(b)
    ensures multiset(Filter(a, p)) == multiset(Filter(b, p))
    decreases |a|
  {
    if a == [] {
      assert |multiset(b)| == 0;
    } else {
      var x := a[0];
      assert x in multiset(b);
      var i :| 0 <= i < |b| && b[i] == x;
      var before, after := b[..i], b[i + 1..];
      assert b == before + ([x] + after);
      PermutationWithout(a, before, after);
      FilterOfPermutation(a[1..], before + after, p);
      FilterAround(before, x, after, p);
      FilterCons(x, a[1..], p);
      MultisetRearrange(if p(x) then [x] else [], Filter(a[1..], p), Filter(before, p), Filter(after, p));
    }
  }

  lemma PermutationWithout<T>(a: seq<T>, before: seq<T>, after: seq<T>)
    requires a != [] && multiset(a) == multiset(before + ([a[0]] + after))
    ensures multiset(a[1..]) == multiset(before + after)
  {
    assert a == [a[0]] + a[1..];
    assert multiset(a[1..]) == multiset(a) - multiset{a[0]};
  }

  /** A property every element of a sequence has, every rearrangement of it has too. */
  lemma AllOfPermutation<T>(a: seq<T>, b: seq<T>, p: T -> bool)
    requires multiset(a) == multiset(b)
    requires forall i :: 0 <= i < |b| ==> p(b[i])
    ensures forall i :: 0 <= i < |a| ==> p(a[i])
  {
    forall i | 0 <= i < |a| ensures p(a[i]) {
      assert a[i] in multiset(b);
      var j :| 0 <= j < |b| && b[j] == a[i];
    }
  }

  lemma MultisetRearrange<T>(mid: seq<T>, rest: seq<T>, before: seq<T>, after: seq<T>)
    requires multiset(rest) == multiset(before + after)
    ensures multiset(mid + rest) == multiset(before + (mid + after))
  {
  }

  /** Filtering a sequence around one of its elements. */
  lemma FilterAround<T>(before: seq<T>, x: T, after: seq<T>, p: T -> bool)
    ensures Filter(before + ([x] + after), p) == Filter(before, p) + ((if p(x) then [x] else []) + Filter(after, p))
    ensures Filter(before + after, p) == Filter(before, p) + Filter(after, p)
  {
    FilterCons(x, after, p);
    FilterAppend(before, [x] + after, p);
    FilterAppend(before, after, p);
  }

  /** Filtering one element further along a prefix. */
  lemma FilterPrefixStep<T>(s: seq<T>, i: nat, p: T -> bool)
    requires i < |s|
    ensures Filter(s[..i + 1], p) == Filter(s[..i], p) + (if p(s[i]) then [s[i]] else [])
  {
    assert s[..i + 1] == s[..i] + [s[i]];
    FilterAppend(s[..i], [s[i]], p);
    FilterSingleton(s[i], p);
  }

  /** The last element kept by a filter is the last element of the sequence that
      passes the test; when none passes, there is no last element. */
  lemma LastOfFilter<T>(s: seq<T>, p: T -> bool)
    ensures Last(Filter(s, p)).None? <==> forall i :: 0 <= i < |s| ==> !p(s[i])
    ensures Last(Filter(s, p)).Some? ==>
      exists i :: 0 <= i < |s| && s[i] == Last(Filter(s, p)).value && p(s[i]) &&
        forall j :: i < j < |s| ==> !p(s[j])
  {
    var r := Filter(s, p);
    FilterMembers(s, p);
    if r != [] {
      assert r[0] in s && p(r[0]);
      var i :| 0 <= i < |s| && s[i] == r[0];
      LastOfFilterWitness(s, p);
    }
  }

  /** The inductive half of `LastOfFilter`: a witness for the last kept element. */
  lemma {:induction false} LastOfFilterWitness<T>(s: seq<T>, p: T -> bool)
    requires Filter(s, p) != []
    ensures exists i :: 0 <= i < |s| && s[i] == Last(Filter(s, p)).value && p(s[i]) &&
                        forall j :: i < j < |s| ==> !p(s[j])
  {
    var rest := Filter(s[1..], p);
    FilterMembers(s[1..], p);
    if rest == [] {
      assert p(s[0]) && Filter(s, p) == [s[0]];
      forall j | 0 < j < |s| ensures !p(s[j]) {
        assert s[1..][j - 1] == s[j];
      }
      assert Last(Filter(s, p)).value == s[0];
    } else {
      LastOfFilterWitness(s[1..], p);
      var i :| 0 <= i < |s[1..]| && s[1..][i] == Last(rest).value && p(s[1..][i]) &&
        forall j :: i < j < |s[1..]| ==> !p(s[1..][j]);
      assert Last(Filter(s, p)) == Last(rest);
      forall j | i + 1 < j < |s| ensures !p(s[j]) {
        assert s[1..][j - 1] == s[j];
      }
      assert s[i + 1] == s[1..][i];
    }
  }
}
