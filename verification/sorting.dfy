/**
 * Array.prototype.sort with a comparator, as the game uses it: a stable sort (ECMAScript 2019
 * and later) by a strict weak order `lt`, where `lt(a, b)` holds exactly when the comparator
 * returns a negative number for (a, b). The sort is given as a function so that the callers'
 * contracts can name its result; its meaning is pinned down by `SortedBy`, the multiset of its
 * elements and `StableSort`'s preservation of every class of tied elements.
 */
module Sorting {

  /** `lt` is irreflexive, transitive, and being tied (neither is less) is transitive too. */
  ghost predicate StrictWeakOrder<T(!new)>(lt: (T, T) -> bool)
  {
    && (forall x :: !lt(x, x))
    && (forall x, y, z :: lt(x, y) && lt(y, z) ==> lt(x, z))
    && (forall x, y, z :: lt(x, z) ==> lt(x, y) || lt(y, z))
  }

  predicate Tied<T>(lt: (T, T) -> bool, a: T, b: T)
  {
    !lt(a, b) && !lt(b, a)
  }

  /** No later element is strictly less than an earlier one. */
  ghost predicate SortedBy<T>(s: seq<T>, lt: (T, T) -> bool)
  {
    forall i, j :: 0 <= i < j < |s| ==> !lt(s[j], s[i])
  }

  /** The elements of `s` tied with `a`, in their order in `s`. */
  function TiesWith<T>(s: seq<T>, lt: (T, T) -> bool, a: T): (r: seq<T>)
    ensures |r| <= |s|
    ensures forall x :: x in r ==> x in s && Tied(lt, x, a)
  {
    if |s| == 0 then []
    else (if Tied(lt, s[0], a) then [s[0]] else []) + TiesWith(s[1..], lt, a)
  }

  lemma {:induction false} TiesWithAppend<T>(s: seq<T>, t: seq<T>, lt: (T, T) -> bool, a: T)
    ensures TiesWith(s + t, lt, a) == TiesWith(s, lt, a) + TiesWith(t, lt, a)
  {
    if |s| == 0 {
      assert s + t == t;
    } else {
      assert (s + t)[1..] == s[1..] + t;
      TiesWithAppend(s[1..], t, lt, a);
    }
  }

  /**
   * Insert `x` into sorted `s` after every element it is not less than: the position a stable
   * sort gives an element that comes after all of `s`.
   */
  function Insert<T>(x: T, s: seq<T>, lt: (T, T) -> bool): (r: seq<T>)
    ensures |r| == |s| + 1
    ensures multiset(r) == multiset(s) + multiset{x}
  {
    if |s| == 0 then [x]
    else if lt(x, s[0]) then [x] + s
    else
      assert s == [s[0]] + s[1..];
      [s[0]] + Insert(x, s[1..], lt)
  }

  /** Stable sort: insert each element, front to back, into the sorted prefix before it. */
  function StableSort<T>(s: seq<T>, lt: (T, T) -> bool): (r: seq<T>)
    ensures |r| == |s|
    ensures multiset(r) == multiset(s)
  {
    if |s| == 0 then []
    else
      assert s == s[..|s| - 1] + [s[|s| - 1]];
      Insert(s[|s| - 1], StableSort(s[..|s| - 1], lt), lt)
  }

  /** In a sorted list whose head is above `x`, every element is above `x`. */
  lemma AllAbove<T(!new)>(x: T, s: seq<T>, lt: (T, T) -> bool)
    requires StrictWeakOrder(lt) && SortedBy(s, lt) && |s| > 0 && lt(x, s[0])
    ensures forall j :: 0 <= j < |s| ==> lt(x, s[j])
  {
    forall j | 0 < j < |s|
      ensures lt(x, s[j])
    {
      assert !lt(s[j], s[0]);
    }
  }

  lemma {:induction false} InsertSorted<T(!new)>(x: T, s: seq<T>, lt: (T, T) -> bool)
    requires StrictWeakOrder(lt) && SortedBy(s, lt)
    ensures SortedBy(Insert(x, s, lt), lt)
  {
    if |s| == 0 {
    } else if lt(x, s[0]) {
      AllAbove(x, s, lt);
    } else {
      var rest := Insert(x, s[1..], lt);
      InsertSorted(x, s[1..], lt);
      var r := [s[0]] + rest;
      forall i, j | 0 <= i < j < |r|
        ensures !lt(r[j], r[i])
      {
        if i == 0 {
          assert r[j] in multiset(rest);
          assert r[j] == x || r[j] in s[1..];
        }
      }
    }
  }

  /** The sort's output is sorted. */
  lemma {:induction false} StableSortSorted<T(!new)>(s: seq<T>, lt: (T, T) -> bool)
    requires StrictWeakOrder(lt)
    ensures SortedBy(StableSort(s, lt), lt)
  {
    if |s| > 0 {
      StableSortSorted(s[..|s| - 1], lt);
      InsertSorted(s[|s| - 1], StableSort(s[..|s| - 1], lt), lt);
    }
  }

  /** Inserting `x` puts it after every element already tied with it. */
  lemma {:induction false} InsertTies<T(!new)>(x: T, s: seq<T>, lt: (T, T) -> bool, a: T)
    requires StrictWeakOrder(lt) && SortedBy(s, lt)
    ensures TiesWith(Insert(x, s, lt), lt, a) == TiesWith(s, lt, a) + TiesWith([x], lt, a)
  {
    if |s| == 0 {
    } else if lt(x, s[0]) {
      InsertTiesFront(x, s, lt, a);
    } else {
      SortedTail(s, lt);
      InsertTies(x, s[1..], lt, a);
      InsertTiesBehind(x, s, lt, a);
    }
  }

  /** When `x` goes behind the head, its ties come out as they do in the tail. */
  lemma InsertTiesBehind<T>(x: T, s: seq<T>, lt: (T, T) -> bool, a: T)
    requires |s| > 0 && !lt(x, s[0])
    requires TiesWith(Insert(x, s[1..], lt), lt, a) == TiesWith(s[1..], lt, a) + TiesWith([x], lt, a)
    ensures TiesWith(Insert(x, s, lt), lt, a) == TiesWith(s, lt, a) + TiesWith([x], lt, a)
  {
    var t := s[1..];
    var it := Insert(x, t, lt);
    var r := Insert(x, s, lt);
    assert r[0] == s[0] && r[1..] == it;
    var h := if Tied(lt, s[0], a) then [s[0]] else [];
    assert TiesWith(r, lt, a) == h + TiesWith(it, lt, a);
    assert TiesWith(s, lt, a) == h + TiesWith(t, lt, a);
    ConcatAssoc(h, TiesWith(t, lt, a), TiesWith([x], lt, a));
  }

  lemma ConcatAssoc<T>(a: seq<T>, b: seq<T>, c: seq<T>)
    ensures a + (b + c) == (a + b) + c
  {
  }

  lemma SortedTail<T>(s: seq<T>, lt: (T, T) -> bool)
    requires SortedBy(s, lt) && |s| > 0
    ensures SortedBy(s[1..], lt)
  {
  }

  lemma InsertTiesFront<T(!new)>(x: T, s: seq<T>, lt: (T, T) -> bool, a: T)
    requires StrictWeakOrder(lt) && SortedBy(s, lt) && |s| > 0 && lt(x, s[0])
    ensures TiesWith([x] + s, lt, a) == TiesWith(s, lt, a) + TiesWith([x], lt, a)
  {
    TiesWithAppend([x], s, lt, a);
    if Tied(lt, x, a) {
      AllAbove(x, s, lt);
      NoneTied(s, lt, a, x);
    }
  }

  /** No element above `x` is tied with something `x` is tied with. */
  lemma {:induction false} NoneTied<T(!new)>(s: seq<T>, lt: (T, T) -> bool, a: T, x: T)
    requires StrictWeakOrder(lt) && Tied(lt, x, a)
    requires forall j :: 0 <= j < |s| ==> lt(x, s[j])
    ensures TiesWith(s, lt, a) == []
  {
    if |s| > 0 {
      assert lt(x, s[0]);
      assert !Tied(lt, s[0], a);
      NoneTied(s[1..], lt, a, x);
    }
  }

  /** Stability: every class of tied elements keeps its relative order. */
  lemma {:induction false} StableSortStable<T(!new)>(s: seq<T>, lt: (T, T) -> bool, a: T)
    requires StrictWeakOrder(lt)
    ensures TiesWith(StableSort(s, lt), lt, a) == TiesWith(s, lt, a)
  {
    if |s| > 0 {
      var init := s[..|s| - 1];
      var last := s[|s| - 1];
      SplitLast(s);
      StableSortStable(init, lt, a);
      StableSortSorted(init, lt);
      InsertTies(last, StableSort(init, lt), lt, a);
      TiesWithAppend(init, [last], lt, a);
    }
  }

  /** The number of elements satisfying `p` is the same before and after sorting. */
  function Count<T>(s: seq<T>, p: T -> bool): (n: nat)
    ensures n <= |s|
  {
    if |s| == 0 then 0 else (if p(s[0]) then 1 else 0) + Count(s[1..], p)
  }

  lemma {:induction false} InsertCount<T>(x: T, s: seq<T>, lt: (T, T) -> bool, p: T -> bool)
    ensures Count(Insert(x, s, lt), p) == Count(s, p) + (if p(x) then 1 else 0)
  {
    if |s| > 0 && !lt(x, s[0]) {
      InsertCount(x, s[1..], lt, p);
      assert Insert(x, s, lt)[1..] == Insert(x, s[1..], lt);
    } else if |s| > 0 {
      assert Insert(x, s, lt)[1..] == s;
    }
  }

  /** Sorting neither adds nor drops an element satisfying `p`. */
  lemma {:induction false} StableSortCount<T>(s: seq<T>, lt: (T, T) -> bool, p: T -> bool)
    ensures Count(StableSort(s, lt), p) == Count(s, p)
  {
    if |s| > 0 {
      var init, last := s[..|s| - 1], s[|s| - 1];
      SplitLast(s);
      var sorted := StableSort(init, lt);
      assert StableSort(s, lt) == Insert(last, sorted, lt);
      StableSortCount(init, lt, p);
      InsertCount(last, sorted, lt, p);
      CountSplit(init, [last], p);
      assert Count([last], p) == (if p(last) then 1 else 0);
    }
  }

  lemma SplitLast<T>(s: seq<T>)
    requires |s| > 0
    ensures s == s[..|s| - 1] + [s[|s| - 1]]
  {
  }

  lemma {:induction false} CountSplit<T>(s: seq<T>, t: seq<T>, p: T -> bool)
    ensures Count(s + t, p) == Count(s, p) + Count(t, p)
  {
    if |s| == 0 {
      assert s + t == t;
    } else {
      assert (s + t)[1..] == s[1..] + t;
      CountSplit(s[1..], t, p);
    }
  }

  // ---------------------------------------------------------------- string order

  /** String.prototype.localeCompare taken as code-point lexicographic order. */
  predicate StrLt(a: string, b: string)
  {
    if |a| == 0 then |b| > 0
    else if |b| == 0 then false
    else a[0] < b[0] || (a[0] == b[0] && StrLt(a[1..], b[1..]))
  }

  lemma {:induction false} StrLtIrreflexive(a: string)
    ensures !StrLt(a, a)
  {
    if |a| > 0 { StrLtIrreflexive(a[1..]); }
  }

  lemma {:induction false} StrLtTransitive(a: string, b: string, c: string)
    requires StrLt(a, b) && StrLt(b, c)
    ensures StrLt(a, c)
  {
    if |a| > 0 && |b| > 0 && |c| > 0 && a[0] == b[0] == c[0] {
      StrLtTransitive(a[1..], b[1..], c[1..]);
    }
  }

  /** Two different strings are always ordered one way or the other. */
  lemma {:induction false} StrLtTotal(a: string, b: string)
    ensures StrLt(a, b) || StrLt(b, a) || a == b
  {
    if |a| > 0 && |b| > 0 && a[0] == b[0] {
      StrLtTotal(a[1..], b[1..]);
      if a[1..] == b[1..] {
        assert a == [a[0]] + a[1..] && b == [b[0]] + b[1..];
      }
    }
  }
}
