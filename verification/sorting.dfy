/**
 * `std::sort` with a user comparator, as it runs on the four-element vectors of this core.
 *
 * The C++ standard leaves the order of equivalent elements unspecified. For ranges this short
 * libstdc++ runs a plain insertion sort, which moves each element left past the elements it is
 * strictly `less` than and so keeps equivalent elements in input order; that is the order modelled
 * here. The clients state their properties for any sorted arrangement where it matters.
 */
module Sorting {

  /** What `std::sort` demands of its comparator: a strict weak ordering. */
  ghost predicate StrictWeakOrder<T(!new)>(less: (T, T) -> bool)
  {
    (forall a :: !less(a, a)) &&
    (forall a, b, c :: less(a, b) && less(b, c) ==> less(a, c)) &&
    (forall a, b, c :: less(a, c) ==> less(a, b) || less(b, c))
  }

  /** No later element is `less` than an earlier one. */
  ghost predicate Sorted<T>(s: seq<T>, less: (T, T) -> bool)
  {
    forall i, j :: 0 <= i < j < |s| ==> !less(s[j], s[i])
  }

  /** Any two elements at different positions are comparable: there are no ties. */
  ghost predicate NoTies<T>(s: seq<T>, less: (T, T) -> bool)
  {
    forall i, j :: 0 <= i < |s| && 0 <= j < |s| && i != j ==> less(s[i], s[j]) || less(s[j], s[i])
  }

  /** One step of insertion sort: `p` moves left past every trailing element it is `less` than. */
  function Insert<T(!new)>(p: T, s: seq<T>, less: (T, T) -> bool): (r: seq<T>)
    ensures |r| == |s| + 1
    decreases |s|
  {
    if s == [] then [p]
    else
      var init, last := s[..|s| - 1], s[|s| - 1];
      assert s == init + [last];
      if less(p, last) then Insert(p, init, less) + [last] else s + [p]
  }

  /** Insertion sort of the whole sequence, element by element from the left. */
  function Sort<T(!new)>(s: seq<T>, less: (T, T) -> bool): (r: seq<T>)
    ensures |r| == |s|
    decreases |s|
  {
    if s == [] then []
    else Insert(s[|s| - 1], Sort(s[..|s| - 1], less), less)
  }

  /** Inserting adds exactly the one element. */
  lemma {:induction false} InsertPermutes<T(!new)>(p: T, s: seq<T>, less: (T, T) -> bool)
    ensures multiset(Insert(p, s, less)) == multiset(s) + multiset{p}
    decreases |s|
  {
    if s != [] {
      var init, last := s[..|s| - 1], s[|s| - 1];
      assert s == init + [last];
      InsertPermutes(p, init, less);
    }
  }

  /** Sorting rearranges the elements and neither loses nor duplicates any. */
  lemma {:induction false} SortPermutes<T(!new)>(s: seq<T>, less: (T, T) -> bool)
    ensures multiset(Sort(s, less)) == multiset(s)
    decreases |s|
  {
    if s != [] {
      var init, last := s[..|s| - 1], s[|s| - 1];
      assert s == init + [last];
      SortPermutes(init, less);
      InsertPermutes(last, Sort(init, less), less);
    }
  }

  /** Inserting an element that is `less` than `last` into elements not above `last` keeps them so. */
  lemma {:induction false} InsertBelow<T(!new)>(p: T, s: seq<T>, last: T, less: (T, T) -> bool)
    requires StrictWeakOrder(less) && less(p, last)
    requires forall k :: 0 <= k < |s| ==> !less(last, s[k])
    ensures forall i :: 0 <= i < |Insert(p, s, less)| ==> !less(last, Insert(p, s, less)[i])
    decreases |s|
  {
    assert less(p, last) && less(last, p) ==> less(p, p);
    if s != [] {
      var init, l := s[..|s| - 1], s[|s| - 1];
      assert s == init + [l];
      if less(p, l) {
        InsertBelow(p, init, last, less);
        var front := Insert(p, init, less);
        assert Insert(p, s, less) == front + [l];
      } else {
        assert Insert(p, s, less) == s + [p];
      }
    }
  }

  /** Inserting into a sorted sequence keeps it sorted. */
  lemma {:induction false} InsertSorted<T(!new)>(p: T, s: seq<T>, less: (T, T) -> bool)
    requires StrictWeakOrder(less) && Sorted(s, less)
    ensures Sorted(Insert(p, s, less), less)
    decreases |s|
  {
    if s != [] {
      var init, last := s[..|s| - 1], s[|s| - 1];
      assert s == init + [last];
      var r := Insert(p, s, less);
      if less(p, last) {
        var front := Insert(p, init, less);
        assert r == front + [last];
        InsertSorted(p, init, less);
        assert forall k :: 0 <= k < |init| ==> init[k] == s[k];
        InsertBelow(p, init, last, less);
        forall i, j | 0 <= i < j < |r| ensures !less(r[j], r[i]) {
          if j < |front| {
            assert r[i] == front[i] && r[j] == front[j];
          } else {
            assert r[i] == front[i] && r[j] == last;
          }
        }
      } else {
        assert r == s + [p];
      }
    }
  }

  /** Insertion sort yields a sorted sequence when the comparator is a strict weak ordering. */
  lemma {:induction false} SortSorted<T(!new)>(s: seq<T>, less: (T, T) -> bool)
    requires StrictWeakOrder(less)
    ensures Sorted(Sort(s, less), less)
    decreases |s|
  {
    if s != [] {
      var init, last := s[..|s| - 1], s[|s| - 1];
      SortSorted(init, less);
      InsertSorted(last, Sort(init, less), less);
    }
  }

  /** Inserting keeps a tie-free sequence tie-free. */
  lemma {:induction false} InsertNoTies<T(!new)>(p: T, s: seq<T>, less: (T, T) -> bool)
    requires NoTies(s + [p], less)
    ensures NoTies(Insert(p, s, less), less)
    decreases |s|
  {
    if s != [] {
      var init, last := s[..|s| - 1], s[|s| - 1];
      assert s == init + [last];
      if less(p, last) {
        var front := Insert(p, init, less);
        forall i, j | 0 <= i < |init + [p]| && 0 <= j < |init + [p]| && i != j
          ensures less((init + [p])[i], (init + [p])[j]) || less((init + [p])[j], (init + [p])[i])
        {
          var i', j' := if i < |init| then i else |s|, if j < |init| then j else |s|;
          assert (init + [p])[i] == (s + [p])[i'] && (init + [p])[j] == (s + [p])[j'];
        }
        InsertNoTies(p, init, less);
        InsertPermutes(p, init, less);
        forall i | 0 <= i < |front| ensures less(front[i], last) || less(last, front[i]) {
          assert front[i] in multiset(init) + multiset{p};
          if front[i] == p {
            assert (s + [p])[|s|] == p && (s + [p])[|s| - 1] == last;
          } else {
            assert front[i] in multiset(init);
            var k :| 0 <= k < |init| && init[k] == front[i];
            assert (s + [p])[k] == front[i] && (s + [p])[|s| - 1] == last;
          }
        }
        var r := front + [last];
        assert Insert(p, s, less) == r;
        forall i, j | 0 <= i < |r| && 0 <= j < |r| && i != j
          ensures less(r[i], r[j]) || less(r[j], r[i])
        {
          if i < |front| && j < |front| {
            assert r[i] == front[i] && r[j] == front[j];
          }
        }
      }
    }
  }

  /** Sorting keeps a tie-free sequence tie-free. */
  lemma {:induction false} SortNoTies<T(!new)>(s: seq<T>, less: (T, T) -> bool)
    requires NoTies(s, less)
    ensures NoTies(Sort(s, less), less)
    decreases |s|
  {
    if s != [] {
      var init, last := s[..|s| - 1], s[|s| - 1];
      assert s == init + [last];
      var sorted := Sort(init, less);
      assert NoTies(init, less) by {
        forall i, j | 0 <= i < |init| && 0 <= j < |init| && i != j
          ensures less(init[i], init[j]) || less(init[j], init[i])
        {
          assert init[i] == s[i] && init[j] == s[j];
        }
      }
      SortNoTies(init, less);
      SortPermutes(init, less);
      forall i, j | 0 <= i < |sorted + [last]| && 0 <= j < |sorted + [last]| && i != j
        ensures less((sorted + [last])[i], (sorted + [last])[j]) || less((sorted + [last])[j], (sorted + [last])[i])
      {
        if i == |sorted| || j == |sorted| {
          var k := if i == |sorted| then j else i;
          assert sorted[k] in multiset(init);
          var m :| 0 <= m < |init| && init[m] == sorted[k];
          assert s[m] == sorted[k] && s[|s| - 1] == last;
        }
      }
      InsertNoTies(last, sorted, less);
    }
  }

  /** `std::swap` of two elements of a vector. */
  function Swap<T>(s: seq<T>, i: nat, j: nat): (r: seq<T>)
    requires i < j < |s|
    ensures multiset(r) == multiset(s)
  {
    s[i := s[j]][j := s[i]]
  }

  /** Moving the second element of four to the back keeps the multiset. */
  lemma PairsToCorners<T>(s: seq<T>)
    requires |s| == 4
    ensures multiset([s[0], s[2], s[3], s[1]]) == multiset(s)
  {
    assert [s[0], s[2], s[3], s[1]] == Swap(Swap(s, 1, 2), 2, 3);
  }

  /** Dropping the head of a sequence drops one copy of it from the multiset. */
  lemma MultisetTail<T>(s: seq<T>)
    requires s != []
    ensures multiset(s[1..]) == multiset(s) - multiset{s[0]}
  {
    assert s == [s[0]] + s[1..];
  }

  /** Dropping the head of a sorted sequence leaves it sorted. */
  lemma SortedTail<T>(s: seq<T>, less: (T, T) -> bool)
    requires s != [] && Sorted(s, less)
    ensures Sorted(s[1..], less)
  {
    forall i, j | 0 <= i < j < |s| - 1 ensures !less(s[1..][j], s[1..][i]) {
      assert s[1..][i] == s[i + 1] && s[1..][j] == s[j + 1];
    }
  }

  /** Dropping the head of a sequence without ties leaves it without ties. */
  lemma NoTiesTail<T>(s: seq<T>, less: (T, T) -> bool)
    requires s != [] && NoTies(s, less)
    ensures NoTies(s[1..], less)
  {
    forall i, j | 0 <= i < |s| - 1 && 0 <= j < |s| - 1 && i != j
      ensures less(s[1..][i], s[1..][j]) || less(s[1..][j], s[1..][i])
    {
      assert s[1..][i] == s[i + 1] && s[1..][j] == s[j + 1];
    }
  }

  /** Two sorted arrangements of the same elements, the first without ties, start alike. */
  lemma SortedHeadsEqual<T(!new)>(s: seq<T>, t: seq<T>, less: (T, T) -> bool)
    requires StrictWeakOrder(less)
    requires s != [] && multiset(s) == multiset(t)
    requires Sorted(s, less) && NoTies(s, less) && Sorted(t, less)
    ensures t != [] && s[0] == t[0]
  {
    assert t[0] in multiset(s);
    var k :| 0 <= k < |s| && s[k] == t[0];
    assert s[0] in multiset(t);
    var m :| 0 <= m < |t| && t[m] == s[0];
    assert !less(t[m], t[0]) && !less(s[k], s[0]);
  }

  /**
   * A sorted arrangement without ties is the only sorted arrangement of its elements: any other
   * sorted sequence with the same multiset is equal to it.
   */
  lemma {:induction false} SortedUnique<T(!new)>(s: seq<T>, t: seq<T>, less: (T, T) -> bool)
    requires StrictWeakOrder(less)
    requires multiset(s) == multiset(t)
    requires Sorted(s, less) && NoTies(s, less) && Sorted(t, less)
    ensures s == t
    decreases |s|
  {
    assert |s| == |multiset(s)| == |multiset(t)| == |t|;
    if s != [] {
      SortedHeadsEqual(s, t, less);
      MultisetTail(s);
      MultisetTail(t);
      SortedTail(s, less);
      SortedTail(t, less);
      NoTiesTail(s, less);
      SortedUnique(s[1..], t[1..], less);
      forall i | 1 <= i < |s| ensures s[i] == t[i] {
        assert s[i] == s[1..][i - 1] && t[i] == t[1..][i - 1];
      }
    }
  }
}
