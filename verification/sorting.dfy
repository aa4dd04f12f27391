/** Ordering helpers. Python's `list.sort` is a stable sort; every sort in
    the source (notes by (pitch, tick), output events by tuple, holes by
    coordinate) is modelled by one stable insertion sort over a total
    preorder. Deduplicated ascending tick lists (`sorted(set(...))`) are
    built by insertion into a strictly ascending sequence. */
module Sorting {

  ghost predicate TotalPreorder<T(!new)>(le: (T, T) -> bool) {
    && (forall a, b :: le(a, b) || le(b, a))
    && (forall a, b, c :: le(a, b) && le(b, c) ==> le(a, c))
  }

  predicate SortedBy<T>(s: seq<T>, le: (T, T) -> bool) {
    forall i, j :: 0 <= i < j < |s| ==> le(s[i], s[j])
  }

  /** An element no element is above may be appended. */
  lemma {:induction false} SortedSnoc<T>(s: seq<T>, x: T, le: (T, T) -> bool)
    requires SortedBy(s, le) && forall i :: 0 <= i < |s| ==> le(s[i], x)
    ensures SortedBy(s + [x], le)
  {
    forall i, j | 0 <= i < j < |s| + 1
      ensures le((s + [x])[i], (s + [x])[j])
    {
      if j < |s| {
        assert (s + [x])[i] == s[i] && (s + [x])[j] == s[j];
      } else {
        assert (s + [x])[i] == s[i] && (s + [x])[j] == x;
      }
    }
  }

  /** When `x` goes before the last element of `s`, everything inserted
      in front of that element is below it. */
  lemma {:induction false} BelowLast<T(!new)>(s: seq<T>, x: T, le: (T, T) -> bool, ins: seq<T>)
    requires TotalPreorder(le) && SortedBy(s, le) && |s| > 0 && !le(s[|s| - 1], x)
    requires multiset(ins) == multiset(s[..|s| - 1]) + multiset{x}
    ensures forall i :: 0 <= i < |ins| ==> le(ins[i], s[|s| - 1])
  {
    var init := s[..|s| - 1];
    forall i | 0 <= i < |ins|
      ensures le(ins[i], s[|s| - 1])
    {
      assert ins[i] in multiset(ins);
      if ins[i] != x {
        assert ins[i] in multiset(init);
        var k :| 0 <= k < |init| && init[k] == ins[i];
        assert s[k] == ins[i];
      }
    }
  }

  /** Inserts `x` after every element it is not below (so equal keys keep
      their arrival order). */
  function Insert<T(!new)>(s: seq<T>, x: T, le: (T, T) -> bool): (r: seq<T>)
    requires TotalPreorder(le) && SortedBy(s, le)
    ensures SortedBy(r, le)
    ensures multiset(r) == multiset(s) + multiset{x}
    ensures |r| == |s| + 1
    decreases |s|
  {
    if |s| == 0 || le(s[|s| - 1], x) then
      SortedSnoc(s, x, le);
      s + [x]
    else
      var init, last := s[..|s| - 1], s[|s| - 1];
      assert s == init + [last];
      assert SortedBy(init, le);
      var ins := Insert(init, x, le);
      BelowLast(s, x, le, ins);
      SortedSnoc(ins, last, le);
      ins + [last]
  }

  function Sort<T(!new)>(s: seq<T>, le: (T, T) -> bool): (r: seq<T>)
    requires TotalPreorder(le)
    ensures SortedBy(r, le)
    ensures multiset(r) == multiset(s)
    ensures |r| == |s|
    decreases |s|
  {
    if |s| == 0 then []
    else
      assert s == s[..|s| - 1] + [s[|s| - 1]];
      Insert(Sort(s[..|s| - 1], le), s[|s| - 1], le)
  }

  /** The elements of `s` whose key equals the key of `x`, in their order in `s`. */
  function SameKey<T>(s: seq<T>, x: T, le: (T, T) -> bool): (r: seq<T>)
    decreases |s|
  {
    if |s| == 0 then []
    else
      var last := s[|s| - 1];
      SameKey(s[..|s| - 1], x, le) + (if le(last, x) && le(x, last) then [last] else [])
  }

  lemma {:induction false} SameKeySnoc<T>(s: seq<T>, y: T, x: T, le: (T, T) -> bool)
    ensures SameKey(s + [y], x, le) == SameKey(s, x, le) + (if le(y, x) && le(x, y) then [y] else [])
  {
    assert (s + [y])[..|s|] == s;
  }

  /** Inserting `y` adds it behind the elements whose key equals its own
      and leaves every other key's elements in order. */
  lemma {:induction false} InsertStable<T(!new)>(s: seq<T>, y: T, x: T, le: (T, T) -> bool)
    requires TotalPreorder(le) && SortedBy(s, le)
    ensures SameKey(Insert(s, y, le), x, le) == SameKey(s, x, le) + (if le(y, x) && le(x, y) then [y] else [])
    decreases |s|
  {
    if |s| == 0 || le(s[|s| - 1], y) {
      SameKeySnoc(s, y, x, le);
    } else {
      var init, last := s[..|s| - 1], s[|s| - 1];
      assert s == init + [last];
      assert SortedBy(init, le);
      var ins := Insert(init, y, le);
      assert Insert(s, y, le) == ins + [last];
      InsertStable(init, y, x, le);
      SameKeySnoc(ins, last, x, le);
      SameKeySnoc(init, last, x, le);
      OneKeyBetween(last, y, x, le);
    }
  }

  /** `y` and `last` cannot both have the key of `x` when `y` is below `last`. */
  lemma {:induction false} OneKeyBetween<T(!new)>(last: T, y: T, x: T, le: (T, T) -> bool)
    requires TotalPreorder(le) && !le(last, y)
    ensures !(le(y, x) && le(x, y)) || !(le(last, x) && le(x, last))
  {
  }

  /** `Sort` is stable: the elements of any one key come out in the order
      they went in. */
  lemma {:induction false} SortStable<T(!new)>(s: seq<T>, x: T, le: (T, T) -> bool)
    requires TotalPreorder(le)
    ensures SameKey(Sort(s, le), x, le) == SameKey(s, x, le)
    decreases |s|
  {
    if |s| > 0 {
      var init, last := s[..|s| - 1], s[|s| - 1];
      SortStable(init, x, le);
      InsertStable(Sort(init, le), last, x, le);
    }
  }

  /** Sorting an already sorted sequence changes nothing. */
  lemma {:induction false} SortOfSorted<T(!new)>(s: seq<T>, le: (T, T) -> bool)
    requires TotalPreorder(le) && SortedBy(s, le)
    ensures Sort(s, le) == s
    decreases |s|
  {
    if |s| > 0 {
      var init := s[..|s| - 1];
      assert SortedBy(init, le);
      SortOfSorted(init, le);
      assert s == init + [s[|s| - 1]];
    }
  }

  predicate StrictlyAscending(s: seq<int>) {
    forall i, j :: 0 <= i < j < |s| ==> s[i] < s[j]
  }

  /** An element below everything may be put in front. */
  lemma {:induction false} AscendingCons(x: int, s: seq<int>)
    requires StrictlyAscending(s) && forall y :: y in s ==> x < y
    ensures StrictlyAscending([x] + s)
  {
    forall i, j | 0 <= i < j < |s| + 1
      ensures ([x] + s)[i] < ([x] + s)[j]
    {
      assert ([x] + s)[j] == s[j - 1];
      assert s[j - 1] in s;
      if i > 0 {
        assert ([x] + s)[i] == s[i - 1];
      }
    }
  }

  /** Adds `x` to a strictly ascending sequence unless it is already there. */
  function InsertUnique(s: seq<int>, x: int): (r: seq<int>)
    requires StrictlyAscending(s)
    ensures StrictlyAscending(r)
    ensures forall y :: y in r <==> y in s || y == x
    decreases |s|
  {
    if |s| == 0 || x < s[0] then
      assert forall y :: y in s ==> x < y by {
        forall y | y in s
          ensures x < y
        {
          var k :| 0 <= k < |s| && s[k] == y;
          assert s[0] <= s[k];
        }
      }
      AscendingCons(x, s);
      [x] + s
    else if x == s[0] then s
    else
      var ins := InsertUnique(s[1..], x);
      assert forall y :: y in ins ==> s[0] < y by {
        forall y | y in ins
          ensures s[0] < y
        {
          if y != x {
            var k :| 0 <= k < |s[1..]| && s[1..][k] == y;
            assert s[k + 1] == y;
          }
        }
      }
      AscendingCons(s[0], ins);
      assert s == [s[0]] + s[1..];
      [s[0]] + ins
  }

  /** `sorted(set(s))`: the distinct elements of `s`, ascending. */
  function SortedSet(s: seq<int>): (r: seq<int>)
    ensures StrictlyAscending(r)
    ensures forall y :: y in r <==> y in s
    decreases |s|
  {
    if |s| == 0 then []
    else
      assert s == s[..|s| - 1] + [s[|s| - 1]];
      InsertUnique(SortedSet(s[..|s| - 1]), s[|s| - 1])
  }
}
