/** `Array.prototype.sort(compareFn)`, which ECMAScript 2019 (section 22.1.3.27 of ECMA-262,
    10th edition) requires to be stable. For a comparator that is a total preorder every
    stable sort produces the same arrangement, so the model fixes one: insertion sort,
    which scans each new element leftwards past the larger ones. Sort is the function on
    sequences; SortInPlace runs the same algorithm on an array and is proved equal to it. */
module StableSort {
  import opened Seqs

  /** cmp orders its arguments consistently: negative one way is positive the other way,
      and "not after" is transitive. */
  ghost predicate TotalPreorder<T(!new)>(cmp: (T, T) -> int)
  {
    && (forall a, b :: cmp(a, b) < 0 <==> cmp(b, a) > 0)
    && (forall a, b, c :: cmp(a, b) <= 0 && cmp(b, c) <= 0 ==> cmp(a, c) <= 0)
  }

  /** No element is ordered after a later one. */
  ghost predicate Sorted<T>(s: seq<T>, cmp: (T, T) -> int)
  {
    forall i, j :: 0 <= i < j < |s| ==> cmp(s[i], s[j]) <= 0
  }

  /** The elements that compare equal to y. */
  function TiedWith<T>(cmp: (T, T) -> int, y: T): T -> bool
  {
    e => cmp(e, y) == 0
  }

  /** Inserts x into s, moving it left past every element that compares greater than it. */
  function Insert<T>(s: seq<T>, x: T, cmp: (T, T) -> int): (r: seq<T>)
    ensures |r| == |s| + 1
  {
    if s == [] then [x]
    else if cmp(s[|s| - 1], x) > 0 then Insert(s[..|s| - 1], x, cmp) + [s[|s| - 1]]
    else s + [x]
  }

  /** Insertion sort, left to right. */
  function Sort<T>(s: seq<T>, cmp: (T, T) -> int): (r: seq<T>)
    ensures |r| == |s|
  {
    if s == [] then [] else Insert(Sort(s[..|s| - 1], cmp), s[|s| - 1], cmp)
  }

  /** Insert adds exactly x. */
  lemma {:induction false} InsertPermutes<T>(s: seq<T>, x: T, cmp: (T, T) -> int)
    ensures multiset(Insert(s, x, cmp)) == multiset(s) + multiset{x}
  {
    if s != [] && cmp(s[|s| - 1], x) > 0 {
      InsertPermutes(s[..|s| - 1], x, cmp);
      assert s == s[..|s| - 1] + [s[|s| - 1]];
    }
  }

  /** Sort permutes its input. */
  lemma {:induction false} SortPermutes<T>(s: seq<T>, cmp: (T, T) -> int)
    ensures multiset(Sort(s, cmp)) == multiset(s)
  {
    if s != [] {
      SortPermutes(s[..|s| - 1], cmp);
      InsertPermutes(Sort(s[..|s| - 1], cmp), s[|s| - 1], cmp);
      assert s == s[..|s| - 1] + [s[|s| - 1]];
    }
  }

  /** Appending an element that no earlier element is after keeps a sequence sorted. */
  lemma SortedSnoc<T>(s: seq<T>, x: T, cmp: (T, T) -> int)
    requires Sorted(s, cmp)
    requires forall i :: 0 <= i < |s| ==> cmp(s[i], x) <= 0
    ensures Sorted(s + [x], cmp)
  {
  }

  /** Insertion only adds x, so a bound on s and x bounds the result. */
  lemma InsertBounded<T>(s: seq<T>, x: T, cmp: (T, T) -> int, top: T)
    requires forall i :: 0 <= i < |s| ==> cmp(s[i], top) <= 0
    requires cmp(x, top) <= 0
    ensures forall i :: 0 <= i < |s| + 1 ==> cmp(Insert(s, x, cmp)[i], top) <= 0
  {
    var t := Insert(s, x, cmp);
    InsertPermutes(s, x, cmp);
    forall i | 0 <= i < |t| ensures cmp(t[i], top) <= 0 {
      assert t[i] in multiset(t);
      if t[i] != x {
        assert t[i] in multiset(s);
        var k :| 0 <= k < |s| && s[k] == t[i];
      }
    }
  }

  /** Inserting into a sorted sequence keeps it sorted. */
  lemma {:induction false} InsertSorted<T(!new)>(s: seq<T>, x: T, cmp: (T, T) -> int)
    requires TotalPreorder(cmp) && Sorted(s, cmp)
    ensures Sorted(Insert(s, x, cmp), cmp)
  {
    if s == [] {
    } else {
      var init, last := s[..|s| - 1], s[|s| - 1];
      assert s == init + [last];
      if cmp(last, x) > 0 {
        InsertSorted(init, x, cmp);
        InsertBounded(init, x, cmp, last);
        SortedSnoc(Insert(init, x, cmp), last, cmp);
      } else {
        forall i | 0 <= i < |s| ensures cmp(s[i], x) <= 0 {
          if i < |s| - 1 {
            assert cmp(s[i], last) <= 0;
          }
        }
        SortedSnoc(s, x, cmp);
      }
    }
  }

  /** Sort produces a sorted sequence. */
  lemma {:induction false} SortSorted<T(!new)>(s: seq<T>, cmp: (T, T) -> int)
    requires TotalPreorder(cmp)
    ensures Sorted(Sort(s, cmp), cmp)
  {
    if s != [] {
      SortSorted(s[..|s| - 1], cmp);
      InsertSorted(Sort(s[..|s| - 1], cmp), s[|s| - 1], cmp);
    }
  }

  /** Two elements tied with the same y are tied with each other. */
  lemma TiedTogether<T(!new)>(cmp: (T, T) -> int, a: T, b: T, y: T)
    requires TotalPreorder(cmp) && cmp(a, y) == 0 && cmp(b, y) == 0
    ensures cmp(a, b) == 0
  {
    assert cmp(y, b) == 0 && cmp(y, a) == 0;
  }

  /** Inserting x keeps the relative order of every class of tied elements, with x last in its class. */
  lemma {:induction false} InsertStable<T(!new)>(s: seq<T>, x: T, cmp: (T, T) -> int, y: T)
    requires TotalPreorder(cmp)
    ensures Filter(Insert(s, x, cmp), TiedWith(cmp, y)) == Filter(s + [x], TiedWith(cmp, y))
  {
    var p := TiedWith(cmp, y);
    if s != [] && cmp(s[|s| - 1], x) > 0 {
      var init, last := s[..|s| - 1], s[|s| - 1];
      InsertStable(init, x, cmp, y);
      DisjointTies(cmp, x, last, y);
      var ins := Insert(init, x, cmp);
      assert Insert(s, x, cmp) == ins + [last];
      assert init + [last] == s;
      FilterAppend(ins, [last], p);
      FilterAppend(init, [x], p);
      FilterAppend(init, [last], p);
      FilterAppend(s, [x], p);
      SwapEmpty(Filter(init, p), Filter([x], p), Filter([last], p));
    }
  }

  /** Two pieces of which one is empty can trade places. */
  lemma SwapEmpty<T>(a: seq<T>, b: seq<T>, c: seq<T>)
    requires b == [] || c == []
    ensures a + b + c == a + c + b
  {
  }

  /** When last is strictly after x, at most one of the two is tied with y. */
  lemma DisjointTies<T(!new)>(cmp: (T, T) -> int, x: T, last: T, y: T)
    requires TotalPreorder(cmp) && cmp(last, x) > 0
    ensures Filter([x], TiedWith(cmp, y)) == [] || Filter([last], TiedWith(cmp, y)) == []
  {
    if cmp(last, y) == 0 && cmp(x, y) == 0 {
      TiedTogether(cmp, last, x, y);
    }
  }

  /** Sort is stable: among elements that compare equal, the input order survives. */
  lemma {:induction false} SortStable<T(!new)>(s: seq<T>, cmp: (T, T) -> int, y: T)
    requires TotalPreorder(cmp)
    ensures Filter(Sort(s, cmp), TiedWith(cmp, y)) == Filter(s, TiedWith(cmp, y))
  {
    if s != [] {
      var init, last := s[..|s| - 1], s[|s| - 1];
      var p := TiedWith(cmp, y);
      calc {
        Filter(Sort(s, cmp), p);
        Filter(Insert(Sort(init, cmp), last, cmp), p);
        { InsertStable(Sort(init, cmp), last, cmp, y); }
        Filter(Sort(init, cmp) + [last], p);
        { FilterAppend(Sort(init, cmp), [last], p); }
        Filter(Sort(init, cmp), p) + Filter([last], p);
        { SortStable(init, cmp, y); }
        Filter(init, p) + Filter([last], p);
        { FilterAppend(init, [last], p); assert init + [last] == s; }
        Filter(s, p);
      }
    }
  }

  /** The in-place insertion sort that `result.sort(compareFn)` stands for. */
  method SortInPlace<T>(a: array<T>, cmp: (T, T) -> int)
    modifies a
    ensures a[..] == Sort(old(a[..]), cmp)
  {
    ghost var input := a[..];
    var i := 0;
    while i < a.Length
      invariant 0 <= i <= a.Length
      invariant a[..i] == Sort(input[..i], cmp)
      invariant forall k :: i <= k < a.Length ==> a[k] == input[k]
    {
      InsertIntoPrefix(a, i, cmp);
      SortSnoc(input, i, cmp);
      i := i + 1;
    }
    assert a[..] == a[..a.Length];
    assert input == input[..a.Length];
  }

  /** Moves a[i] left into the prefix a[..i], shifting the greater elements one place right. */
  method InsertIntoPrefix<T>(a: array<T>, i: int, cmp: (T, T) -> int)
    requires 0 <= i < a.Length
    modifies a
    ensures a[..i + 1] == Insert(old(a[..i]), old(a[i]), cmp)
    ensures forall k :: i < k < a.Length ==> a[k] == old(a[k])
  {
    ghost var sorted := a[..i];
    var x := a[i];
    var j := ShiftGreater(a, i, x, cmp);
    a[j] := x;
    InsertAt(sorted, j, x, cmp);
    ShiftedIsSplice(a[..i + 1], sorted, j, x);
  }

  /** Shifts the elements of a[..i] greater than x, at the end of the prefix, one place
      right, and returns the hole they leave. */
  method ShiftGreater<T>(a: array<T>, i: int, x: T, cmp: (T, T) -> int) returns (j: int)
    requires 0 <= i < a.Length
    modifies a
    ensures 0 <= j <= i
    ensures forall k :: 0 <= k < j ==> a[k] == old(a[k])
    ensures forall k :: j < k <= i ==> a[k] == old(a[k - 1])
    ensures forall k :: i < k < a.Length ==> a[k] == old(a[k])
    ensures forall k :: j <= k < i ==> cmp(old(a[k]), x) > 0
    ensures j == 0 || cmp(old(a[j - 1]), x) <= 0
  {
    j := i;
    while j > 0 && cmp(a[j - 1], x) > 0
      invariant 0 <= j <= i
      invariant forall k :: 0 <= k < j ==> a[k] == old(a[k])
      invariant forall k :: j < k <= i ==> a[k] == old(a[k - 1])
      invariant forall k :: i < k < a.Length ==> a[k] == old(a[k])
      invariant forall k :: j <= k < i ==> cmp(old(a[k]), x) > 0
    {
      a[j] := a[j - 1];
      j := j - 1;
    }
  }

  /** A prefix of sorted, then x, then the rest of sorted shifted one place right. */
  lemma ShiftedIsSplice<T>(s: seq<T>, sorted: seq<T>, j: int, x: T)
    requires |s| == |sorted| + 1 && 0 <= j <= |sorted| && s[j] == x
    requires forall k :: 0 <= k < j ==> s[k] == sorted[k]
    requires forall k :: j < k < |s| ==> s[k] == sorted[k - 1]
    ensures s == sorted[..j] + [x] + sorted[j..]
  {
    var t := sorted[..j] + [x] + sorted[j..];
    forall k | 0 <= k < |s| ensures s[k] == t[k] {
      if k < j {
        assert t[k] == sorted[k];
      } else if k > j {
        assert t[k] == sorted[k - 1];
      }
    }
  }

  /** x goes right after the last element not greater than it: past every greater one
      at the end of s, and no further. */
  lemma {:induction false} InsertAt<T>(s: seq<T>, j: int, x: T, cmp: (T, T) -> int)
    requires 0 <= j <= |s| && (j == 0 || cmp(s[j - 1], x) <= 0)
    requires forall k :: j <= k < |s| ==> cmp(s[k], x) > 0
    ensures Insert(s, x, cmp) == s[..j] + [x] + s[j..]
    decreases |s|
  {
    if j == |s| {
      assert s[..j] == s && s[j..] == [];
    } else {
      var init, last := s[..|s| - 1], s[|s| - 1];
      assert Insert(s, x, cmp) == Insert(init, x, cmp) + [last] by {
        assert cmp(last, x) > 0;
      }
      assert forall k :: j <= k < |init| ==> cmp(init[k], x) > 0 by {
        forall k | j <= k < |init| ensures cmp(init[k], x) > 0 {
          assert init[k] == s[k];
        }
      }
      assert j == 0 || init[j - 1] == s[j - 1];
      InsertAt(init, j, x, cmp);
      assert init[..j] == s[..j];
      assert s[j..] == init[j..] + [last];
    }
  }

  /** Sorting one more element of the input inserts it into the sorted prefix. */
  lemma SortSnoc<T>(input: seq<T>, i: int, cmp: (T, T) -> int)
    requires 0 <= i < |input|
    ensures Sort(input[..i + 1], cmp) == Insert(Sort(input[..i], cmp), input[i], cmp)
  {
    assert input[..i + 1][..i] == input[..i];
  }
}
