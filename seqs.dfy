/** The array operations the application uses on its lists, on values:
    `Array.prototype.filter`, `find` and `some`. */
module Seqs {
  import opened Types

  /** `s.filter(p)`: the elements satisfying p, in their original order. */
  function Filter<T>(s: seq<T>, p: T -> bool): (r: seq<T>)
    ensures |r| <= |s|
    ensures forall i :: 0 <= i < |r| ==> p(r[i])
  {
    if s == [] then [] else (if p(s[0]) then [s[0]] else []) + Filter(s[1..], p)
  }

  /** Filter drops elements and never adds any. */
  lemma {:induction false} FilterSubMultiset<T>(s: seq<T>, p: T -> bool)
    ensures multiset(Filter(s, p)) <= multiset(s)
  {
    if s != [] {
      FilterSubMultiset(s[1..], p);
      var h := if p(s[0]) then [s[0]] else [];
      assert multiset(Filter(s, p)) == multiset(h) + multiset(Filter(s[1..], p));
      assert s == [s[0]] + s[1..];
      assert multiset(s) == multiset([s[0]]) + multiset(s[1..]);
    }
  }

  /** Every element that passes survives Filter. */
  lemma {:induction false} FilterKeeps<T>(s: seq<T>, p: T -> bool, i: int)
    requires 0 <= i < |s| && p(s[i])
    ensures s[i] in Filter(s, p)
  {
    if i > 0 {
      assert s[i] == s[1..][i - 1];
      FilterKeeps(s[1..], p, i - 1);
    }
  }

  /** Filtering a concatenation filters each part. */
  lemma {:induction false} FilterAppend<T>(a: seq<T>, b: seq<T>, p: T -> bool)
    ensures Filter(a + b, p) == Filter(a, p) + Filter(b, p)
  {
    if a != [] {
      assert (a + b)[0] == a[0] && (a + b)[1..] == a[1..] + b;
      FilterAppend(a[1..], b, p);
      var h := if p(a[0]) then [a[0]] else [];
      calc {
        Filter(a + b, p);
        h + Filter(a[1..] + b, p);
        h + (Filter(a[1..], p) + Filter(b, p));
        (h + Filter(a[1..], p)) + Filter(b, p);
      }
    } else {
      assert a + b == b;
    }
  }

  /** Filtering out an element shortens the sequence. */
  lemma {:induction false} FilterDrops<T>(s: seq<T>, p: T -> bool, i: int)
    requires 0 <= i < |s| && !p(s[i])
    ensures |Filter(s, p)| < |s|
  {
    if i > 0 {
      assert s[i] == s[1..][i - 1];
      FilterDrops(s[1..], p, i - 1);
    }
  }

  /** An element is in the filtered sequence exactly when it is in s and passes. */
  lemma {:induction false} FilterMember<T>(s: seq<T>, p: T -> bool, x: T)
    ensures x in Filter(s, p) <==> x in s && p(x)
  {
    if s != [] {
      FilterMember(s[1..], p, x);
      assert s == [s[0]] + s[1..];
    }
  }

  /** Filtering keeps a sequence whose every element passes. */
  lemma {:induction false} FilterKeepsAll<T>(s: seq<T>, p: T -> bool)
    requires forall i :: 0 <= i < |s| ==> p(s[i])
    ensures Filter(s, p) == s
  {
    if s != [] {
      FilterKeepsAll(s[1..], p);
    }
  }

  /** Both predicates at once. */
  function Both<T>(p: T -> bool, q: T -> bool): T -> bool
  {
    (x: T) => p(x) && q(x)
  }

  /** Filtering twice is filtering once by both predicates. */
  lemma {:induction false} FilterCompose<T>(s: seq<T>, p: T -> bool, q: T -> bool)
    ensures Filter(Filter(s, p), q) == Filter(s, Both(p, q))
  {
    if s != [] {
      FilterCompose(s[1..], p, q);
      var h := if p(s[0]) then [s[0]] else [];
      FilterAppend(h, Filter(s[1..], p), q);
    }
  }

  /** Predicates that agree on every element filter alike. */
  lemma {:induction false} FilterAgree<T>(s: seq<T>, p: T -> bool, q: T -> bool)
    requires forall i :: 0 <= i < |s| ==> p(s[i]) == q(s[i])
    ensures Filter(s, p) == Filter(s, q)
  {
    if s != [] {
      FilterAgree(s[1..], p, q);
    }
  }

  /** idx lists, in increasing order, exactly the indices of s whose elements pass p, and
      r holds the elements at those indices, in that order. */
  ghost predicate SelectsAt<T>(r: seq<T>, s: seq<T>, p: T -> bool, idx: seq<int>)
  {
    && |idx| == |r|
    && (forall i :: 0 <= i < |idx| ==> 0 <= idx[i] < |s| && r[i] == s[idx[i]] && p(s[idx[i]]))
    && (forall i, j :: 0 <= i < j < |idx| ==> idx[i] < idx[j])
    && (forall k :: 0 <= k < |s| && p(s[k]) ==> k in idx)
  }

  /** r is the elements of s that pass p, each once per occurrence, in their order in s. */
  ghost predicate Selection<T>(r: seq<T>, s: seq<T>, p: T -> bool)
  {
    exists idx :: SelectsAt(r, s, p, idx)
  }

  /** The indices Filter keeps. */
  lemma {:induction false} FilterIndices<T>(s: seq<T>, p: T -> bool) returns (idx: seq<int>)
    ensures SelectsAt(Filter(s, p), s, p, idx)
    decreases |s|
  {
    if s == [] {
      idx := [];
    } else {
      var n := |s| - 1;
      var init := s[..n];
      var prefix := FilterIndices(init, p);
      FilterSnoc(s, p);
      idx := if p(s[n]) then prefix + [n] else prefix;
      SnocIndices(s, p, Filter(init, p), prefix, idx);
    }
  }

  /** Filtering peels off the last element. */
  lemma FilterSnoc<T>(s: seq<T>, p: T -> bool)
    requires s != []
    ensures Filter(s, p) == Filter(s[..|s| - 1], p) + (if p(s[|s| - 1]) then [s[|s| - 1]] else [])
  {
    var x := s[|s| - 1];
    FilterAppend(s[..|s| - 1], [x], p);
    assert s[..|s| - 1] + [x] == s;
    assert Filter([x], p) == (if p(x) then [x] else []) + Filter([x][1..], p);
  }

  /** Extending the selection of all but the last element by the last one, when it passes. */
  lemma SnocIndices<T>(s: seq<T>, p: T -> bool, g: seq<T>, prefix: seq<int>, idx: seq<int>)
    requires s != [] && SelectsAt(g, s[..|s| - 1], p, prefix)
    requires idx == if p(s[|s| - 1]) then prefix + [|s| - 1] else prefix
    ensures SelectsAt(g + (if p(s[|s| - 1]) then [s[|s| - 1]] else []), s, p, idx)
  {
    var n := |s| - 1;
    forall i | 0 <= i < |prefix| ensures prefix[i] < n && s[prefix[i]] == s[..n][prefix[i]] {
    }
    forall k | 0 <= k < n && p(s[k]) ensures k in prefix {
      assert s[..n][k] == s[k];
    }
  }

  /** Filter returns exactly the passing elements, in their original order. */
  lemma FilterSelection<T>(s: seq<T>, p: T -> bool)
    ensures Selection(Filter(s, p), s, p)
  {
    var idx := FilterIndices(s, p);
  }

  /** Filter changes nothing when nothing fails the test. */
  lemma FilterNoneDropped<T>(s: seq<T>, p: T -> bool)
    ensures (forall i :: 0 <= i < |s| ==> p(s[i])) ==> Filter(s, p) == s
  {
    if forall i :: 0 <= i < |s| ==> p(s[i]) {
      FilterKeepsAll(s, p);
    }
  }

  /** R holds of every pair of elements in sequence order. */
  ghost predicate Pairwise<T>(s: seq<T>, R: (T, T) -> bool)
  {
    forall i, j :: 0 <= i < j < |s| ==> R(s[i], s[j])
  }

  /** Filtering keeps a pairwise property: the survivors keep their relative order. */
  lemma {:induction false} FilterPairwise<T>(s: seq<T>, p: T -> bool, R: (T, T) -> bool)
    requires Pairwise(s, R)
    ensures Pairwise(Filter(s, p), R)
  {
    if s != [] {
      var f := Filter(s[1..], p);
      FilterPairwise(s[1..], p, R);
      if p(s[0]) {
        FilterSubMultiset(s[1..], p);
        forall j | 0 <= j < |f| ensures R(s[0], f[j]) {
          assert f[j] in multiset(s[1..]);
          var k :| 0 <= k < |s[1..]| && s[1..][k] == f[j];
          assert s[k + 1] == f[j];
        }
        assert Filter(s, p) == [s[0]] + f;
      }
    }
  }

  /** `s.some(p)`. */
  predicate Any<T>(s: seq<T>, p: T -> bool)
  {
    exists i :: 0 <= i < |s| && p(s[i])
  }

  /** `s.findIndex(p)`: the first index whose element passes, or -1. */
  function FindIndex<T>(s: seq<T>, p: T -> bool): (r: int)
    ensures -1 <= r < |s|
    ensures r == -1 <==> forall i :: 0 <= i < |s| ==> !p(s[i])
    ensures r >= 0 ==> p(s[r]) && forall i :: 0 <= i < r ==> !p(s[i])
  {
    if s == [] then -1
    else if p(s[0]) then 0
    else
      var k := FindIndex(s[1..], p);
      if k == -1 then -1 else k + 1
  }

  /** Find returns the element at the first index that passes. */
  lemma FindFirst<T>(s: seq<T>, p: T -> bool, k: int)
    requires 0 <= k < |s| && p(s[k]) && forall j :: 0 <= j < k ==> !p(s[j])
    ensures FindIndex(s, p) == k
  {
  }

  /** `s.find(p)`: the first element that passes, or undefined. */
  function Find<T>(s: seq<T>, p: T -> bool): (r: Option<T>)
    ensures r.None? <==> forall i :: 0 <= i < |s| ==> !p(s[i])
    ensures r.Some? ==> p(r.value)
    ensures r.Some? ==>
      exists i :: 0 <= i < |s| && s[i] == r.value && (forall j :: 0 <= j < i ==> !p(s[j]))
  {
    var k := FindIndex(s, p);
    if k == -1 then None else Some(s[k])
  }
}
