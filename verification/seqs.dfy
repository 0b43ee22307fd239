/**
 * Sequence operations the auction relies on: list-comprehension filtering,
 * Python's stable `sorted(..., key=...)` (as an insertion sort that places an
 * element after every element with an equal key), and the merge of two runs
 * that are already sorted.
 */
module SeqUtil {

  /** `[x for x in s if keep(x)]` */
  function Filter<T>(s: seq<T>, keep: T -> bool): (r: seq<T>)
    ensures |r| <= |s|
    ensures forall i :: 0 <= i < |r| ==> keep(r[i])
  {
    if s == [] then []
    else (if keep(s[0]) then [s[0]] else []) + Filter(s[1..], keep)
  }

  /** The filter keeps exactly the qualifying elements: nothing new, nothing qualifying lost. */
  lemma {:induction false} FilterMembers<T>(s: seq<T>, keep: T -> bool)
    ensures forall i :: 0 <= i < |Filter(s, keep)| ==> Filter(s, keep)[i] in s
    ensures forall i :: 0 <= i < |s| && keep(s[i]) ==> s[i] in Filter(s, keep)
  {
    if s != [] {
      var t := s[1..];
      FilterMembers(t, keep);
      var head: seq<T> := if keep(s[0]) then [s[0]] else [];
      var r := Filter(s, keep);
      assert r == head + Filter(t, keep);
      forall i | 0 <= i < |r| ensures r[i] in s {
        if i < |head| {
          assert r[i] == s[0];
        } else {
          assert r[i] == Filter(t, keep)[i - |head|];
        }
      }
      forall i | 0 <= i < |s| && keep(s[i]) ensures s[i] in r {
        if i > 0 {
          assert s[i] == t[i - 1];
        }
      }
    }
  }

  /** The filter keeps each qualifying element as often as it occurs and drops every other one. */
  lemma {:induction false} FilterCounts<T>(s: seq<T>, keep: T -> bool)
    ensures forall x :: multiset(Filter(s, keep))[x] == if keep(x) then multiset(s)[x] else 0
  {
    if s != [] {
      FilterCounts(s[1..], keep);
      var head := if keep(s[0]) then [s[0]] else [];
      assert s == [s[0]] + s[1..];
      assert Filter(s, keep) == head + Filter(s[1..], keep);
      assert multiset(s) == multiset([s[0]]) + multiset(s[1..]);
      assert multiset(Filter(s, keep)) == multiset(head) + multiset(Filter(s[1..], keep));
    }
  }

  /** Filtering a concatenation filters each part and keeps them in order. */
  lemma {:induction false} FilterAppend<T>(a: seq<T>, b: seq<T>, keep: T -> bool)
    ensures Filter(a + b, keep) == Filter(a, keep) + Filter(b, keep)
  {
    if a != [] {
      var head: seq<T> := if keep(a[0]) then [a[0]] else [];
      assert (a + b)[0] == a[0] && (a + b)[1..] == a[1..] + b;
      FilterAppend(a[1..], b, keep);
      assert Filter(a + b, keep) == head + (Filter(a[1..], keep) + Filter(b, keep));
      assert Filter(a, keep) == head + Filter(a[1..], keep);
    } else {
      assert a + b == b;
    }
  }

  /** Nothing is kept when no element qualifies. */
  lemma {:induction false} FilterNone<T>(s: seq<T>, keep: T -> bool)
    requires forall i :: 0 <= i < |s| ==> !keep(s[i])
    ensures Filter(s, keep) == []
  {
    if s != [] {
      FilterNone(s[1..], keep);
    }
  }

  /** `s` is in non-decreasing order of `key`. */
  predicate SortedBy<T>(s: seq<T>, key: T -> real)
  {
    forall i, j :: 0 <= i < j < |s| ==> key(s[i]) <= key(s[j])
  }

  /** Every element of a sorted sequence has a key no larger than its last element's. */
  lemma SortedLastIsMax<T>(s: seq<T>, key: T -> real, x: T)
    requires SortedBy(s, key) && x in s
    ensures key(x) <= key(s[|s| - 1])
  {
    var i :| 0 <= i < |s| && s[i] == x;
    if i < |s| - 1 {
      assert key(s[i]) <= key(s[|s| - 1]);
    }
  }

  /** Inserts `e` into `t` right after the last element whose key is not larger than e's. */
  function InsertBy<T>(t: seq<T>, e: T, key: T -> real): (r: seq<T>)
    ensures |r| == |t| + 1
    ensures multiset(r) == multiset(t) + multiset{e}
  {
    if t == [] then [e]
    else if key(e) < key(t[|t| - 1]) then
      assert t == t[..|t| - 1] + [t[|t| - 1]];
      InsertBy(t[..|t| - 1], e, key) + [t[|t| - 1]]
    else t + [e]
  }

  /**
   * Python's `sorted(s, key=key)`: stable, so elements with equal keys keep
   * their original relative order.
   */
  function StableSortBy<T>(s: seq<T>, key: T -> real): (r: seq<T>)
    ensures |r| == |s|
  {
    if s == [] then []
    else InsertBy(StableSortBy(s[..|s| - 1], key), s[|s| - 1], key)
  }

  /** Sorting only reorders: the result is a permutation of the input. */
  lemma {:induction false} StableSortPermutes<T>(s: seq<T>, key: T -> real)
    ensures multiset(StableSortBy(s, key)) == multiset(s)
  {
    if s != [] {
      var s', last := s[..|s| - 1], s[|s| - 1];
      assert s == s' + [last];
      StableSortPermutes(s', key);
    }
  }

  /** A sorted sequence stays sorted when an element with a key at least all of its keys is appended. */
  lemma SortedSnoc<T>(s: seq<T>, x: T, key: T -> real)
    requires SortedBy(s, key)
    requires forall y :: y in s ==> key(y) <= key(x)
    ensures SortedBy(s + [x], key)
  {
    var sx := s + [x];
    forall i, j | 0 <= i < j < |sx| ensures key(sx[i]) <= key(sx[j]) {
      if j == |s| {
        assert sx[i] in s;
      } else {
        assert sx[i] == s[i] && sx[j] == s[j];
      }
    }
  }

  /** Insertion keeps a sequence sorted. */
  lemma {:induction false} InsertBySorted<T>(t: seq<T>, e: T, key: T -> real)
    requires SortedBy(t, key)
    ensures SortedBy(InsertBy(t, e, key), key)
  {
    if t == [] {
    } else if key(e) < key(t[|t| - 1]) {
      var t', last := t[..|t| - 1], t[|t| - 1];
      assert SortedBy(t', key);
      InsertBySorted(t', e, key);
      var r' := InsertBy(t', e, key);
      forall x | x in r' ensures key(x) <= key(last) {
        assert x in multiset(r');
        if x != e {
          assert x in multiset(t');
          SortedLastIsMax(t, key, x);
        }
      }
      SortedSnoc(r', last, key);
    } else {
      forall x | x in t ensures key(x) <= key(e) {
        SortedLastIsMax(t, key, x);
      }
      SortedSnoc(t, e, key);
    }
  }

  /** The result of `sorted` is in order. */
  lemma {:induction false} StableSortSorted<T>(s: seq<T>, key: T -> real)
    ensures SortedBy(StableSortBy(s, key), key)
  {
    if s != [] {
      StableSortSorted(s[..|s| - 1], key);
      InsertBySorted(StableSortBy(s[..|s| - 1], key), s[|s| - 1], key);
    }
  }

  /** Sorting an already sorted sequence leaves it as it is. */
  lemma {:induction false} SortOfSortedIsIdentity<T>(s: seq<T>, key: T -> real)
    requires SortedBy(s, key)
    ensures StableSortBy(s, key) == s
  {
    if s != [] {
      var s', last := s[..|s| - 1], s[|s| - 1];
      assert SortedBy(s', key);
      SortOfSortedIsIdentity(s', key);
      assert s == s' + [last];
      if s' != [] {
        assert key(s'[|s'| - 1]) <= key(last);
      }
      assert InsertBy(s', last, key) == s' + [last];
    }
  }

  /**
   * Merge of two sorted runs, built from the back; on equal keys the element
   * of `b` goes last, so elements of `a` precede equal-keyed elements of `b`.
   */
  function MergeBy<T>(a: seq<T>, b: seq<T>, key: T -> real): (r: seq<T>)
    ensures |r| == |a| + |b|
    ensures multiset(r) == multiset(a) + multiset(b)
    decreases |a| + |b|
  {
    if a == [] then b
    else if b == [] then a
    else if key(b[|b| - 1]) < key(a[|a| - 1]) then
      assert a == a[..|a| - 1] + [a[|a| - 1]];
      MergeBy(a[..|a| - 1], b, key) + [a[|a| - 1]]
    else
      assert b == b[..|b| - 1] + [b[|b| - 1]];
      MergeBy(a, b[..|b| - 1], key) + [b[|b| - 1]]
  }

  /** The merge of runs whose keys are all at most `k` ends with a key at most `k`. */
  lemma MergeEndsBelow<T>(a: seq<T>, b: seq<T>, key: T -> real, k: real)
    requires forall x :: x in a ==> key(x) <= k
    requires forall x :: x in b ==> key(x) <= k
    ensures var m := MergeBy(a, b, key); m == [] || key(m[|m| - 1]) <= k
  {
    var m := MergeBy(a, b, key);
    if m != [] {
      var z := m[|m| - 1];
      assert z in multiset(m);
      assert z in a || z in b;
    }
  }

  /** Appending a new maximum to the second run is one stable insertion into the merge. */
  lemma {:induction false} InsertIntoMerge<T>(a: seq<T>, b: seq<T>, e: T, key: T -> real)
    requires SortedBy(a, key) && SortedBy(b, key)
    requires forall x :: x in b ==> key(x) <= key(e)
    ensures InsertBy(MergeBy(a, b, key), e, key) == MergeBy(a, b + [e], key)
    decreases |a|, 2
  {
    var be := b + [e];
    assert be[..|be| - 1] == b;
    if a == [] {
      if b != [] {
        assert b[|b| - 1] in b;
      }
    } else if key(e) < key(a[|a| - 1]) {
      InsertBeforeLast(a, b, e, key);
    } else {
      forall x | x in a ensures key(x) <= key(e) {
        SortedLastIsMax(a, key, x);
      }
      MergeEndsBelow(a, b, key, key(e));
    }
  }

  /** The case of `InsertIntoMerge` where `e` sorts before the last element of `a`. */
  lemma {:induction false} InsertBeforeLast<T>(a: seq<T>, b: seq<T>, e: T, key: T -> real)
    requires SortedBy(a, key) && SortedBy(b, key)
    requires forall x :: x in b ==> key(x) <= key(e)
    requires a != [] && key(e) < key(a[|a| - 1])
    ensures InsertBy(MergeBy(a, b, key), e, key) == MergeBy(a, b + [e], key)
    decreases |a|, 1
  {
    var a', last := a[..|a| - 1], a[|a| - 1];
    assert SortedBy(a', key);
    InsertIntoMerge(a', b, e, key);
    MergeTakesLastOfFirst(a, b + [e], key);
    if b != [] {
      assert b[|b| - 1] in b;
      MergeTakesLastOfFirst(a, b, key);
    } else {
      assert a == a' + [last];
    }
    InsertBeforeSnoc(MergeBy(a', b, key), last, e, key);
  }

  /** The merge ends with the last element of `a` when that one has the larger key. */
  lemma MergeTakesLastOfFirst<T>(a: seq<T>, b: seq<T>, key: T -> real)
    requires a != [] && b != [] && key(b[|b| - 1]) < key(a[|a| - 1])
    ensures MergeBy(a, b, key) == MergeBy(a[..|a| - 1], b, key) + [a[|a| - 1]]
  {
  }

  /** Inserting before a larger last element inserts into the rest. */
  lemma InsertBeforeSnoc<T>(t: seq<T>, x: T, e: T, key: T -> real)
    requires key(e) < key(x)
    ensures InsertBy(t + [x], e, key) == InsertBy(t, e, key) + [x]
  {
    var tx := t + [x];
    assert tx[..|tx| - 1] == t;
  }

  /** Sorting one more element is one more stable insertion. */
  lemma SortSnoc<T>(s: seq<T>, e: T, key: T -> real)
    ensures StableSortBy(s + [e], key) == InsertBy(StableSortBy(s, key), e, key)
  {
    var t := s + [e];
    assert t[..|t| - 1] == s;
  }

  /**
   * `sorted(a + b, key)` of two runs that are each sorted is their merge, in
   * which an element of `a` comes before every element of `b` with the same key.
   */
  lemma {:induction false} SortOfRunsIsMerge<T>(a: seq<T>, b: seq<T>, key: T -> real)
    requires SortedBy(a, key) && SortedBy(b, key)
    ensures StableSortBy(a + b, key) == MergeBy(a, b, key)
    decreases |b|
  {
    if b == [] {
      assert a + b == a;
      SortOfSortedIsIdentity(a, key);
    } else {
      var b', e := b[..|b| - 1], b[|b| - 1];
      assert SortedBy(b', key);
      forall x | x in b' ensures key(x) <= key(e) {
        SortedLastIsMax(b, key, x);
      }
      assert a + b == (a + b') + [e];
      assert b' + [e] == b;
      SortSnoc(a + b', e, key);
      SortOfRunsIsMerge(a, b', key);
      InsertIntoMerge(a, b', e, key);
    }
  }

  /** No element outside `side` precedes an element of `side` with the same key. */
  predicate SideFirstOnTies<T>(r: seq<T>, key: T -> real, side: T -> bool)
  {
    forall i, j :: 0 <= i < j < |r| && !side(r[i]) && side(r[j]) ==> key(r[i]) < key(r[j])
  }

  lemma SideFirstOnTiesSnoc<T>(r: seq<T>, x: T, key: T -> real, side: T -> bool)
    requires SideFirstOnTies(r, key, side)
    requires side(x) ==> forall i :: 0 <= i < |r| && !side(r[i]) ==> key(r[i]) < key(x)
    ensures SideFirstOnTies(r + [x], key, side)
  {
    var rx := r + [x];
    forall i, j | 0 <= i < j < |rx| && !side(rx[i]) && side(rx[j]) ensures key(rx[i]) < key(rx[j]) {
      if j < |r| {
        assert rx[i] == r[i] && rx[j] == r[j];
      }
    }
  }

  /**
   * In the merge of a run of `side` elements with a run of non-`side`
   * elements, a non-`side` element never precedes a `side` element of the same key.
   */
  lemma {:induction false} MergeKeepsFirstRunFirst<T>(a: seq<T>, b: seq<T>, key: T -> real, side: T -> bool)
    requires SortedBy(a, key) && SortedBy(b, key)
    requires forall x :: x in a ==> side(x)
    requires forall x :: x in b ==> !side(x)
    ensures SideFirstOnTies(MergeBy(a, b, key), key, side)
    decreases |a| + |b|
  {
    if a != [] && b != [] {
      var a', b' := a[..|a| - 1], b[..|b| - 1];
      if key(b[|b| - 1]) < key(a[|a| - 1]) {
        assert SortedBy(a', key);
        assert forall x :: x in a' ==> x in a;
        MergeKeepsFirstRunFirst(a', b, key, side);
        var r' := MergeBy(a', b, key);
        forall i | 0 <= i < |r'| && !side(r'[i]) ensures key(r'[i]) < key(a[|a| - 1]) {
          assert r'[i] in multiset(r');
          assert r'[i] !in a';
          SortedLastIsMax(b, key, r'[i]);
        }
        SideFirstOnTiesSnoc(r', a[|a| - 1], key, side);
      } else {
        assert SortedBy(b', key);
        assert forall x :: x in b' ==> x in b;
        MergeKeepsFirstRunFirst(a, b', key, side);
        assert b[|b| - 1] in b;
        SideFirstOnTiesSnoc(MergeBy(a, b', key), b[|b| - 1], key, side);
      }
    }
  }

  /** `sum(s)` */
  function Sum(s: seq<real>): real
  {
    if s == [] then 0.0 else s[0] + Sum(s[1..])
  }

  /** Appending one value adds it to the sum. */
  lemma {:induction false} SumSnoc(s: seq<real>, v: real)
    ensures Sum(s + [v]) == Sum(s) + v
  {
    if s != [] {
      assert (s + [v])[1..] == s[1..] + [v];
      SumSnoc(s[1..], v);
    }
  }
}
