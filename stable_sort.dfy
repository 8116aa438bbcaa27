/**
 * `Array.prototype.toSorted`: a stable sort under a comparator. The comparator is
 * given as `le(a, b)`, "a may come before b" (`cmp(a, b) <= 0`).
 */
module StableSort {

  /** `le` is total and transitive, the requirement on a consistent comparator. */
  ghost predicate TotalPreorder<T(!new)>(le: (T, T) -> bool) {
    (forall a, b :: le(a, b) || le(b, a)) &&
    (forall a, b, c :: le(a, b) && le(b, c) ==> le(a, c))
  }

  predicate Sorted<T>(s: seq<T>, le: (T, T) -> bool) {
    forall i, j :: 0 <= i < j < |s| ==> le(s[i], s[j])
  }

  /** `x` goes before the first element it may precede; earlier elements are kept ahead of it. */
  function Insert<T>(x: T, s: seq<T>, le: (T, T) -> bool): seq<T>
    decreases |s|
  {
    if s == [] || le(x, s[0]) then [x] + s else [s[0]] + Insert(x, s[1..], le)
  }

  /** Insertion sort, taking the elements from the back so that equal elements keep their order. */
  function Sort<T>(s: seq<T>, le: (T, T) -> bool): seq<T>
    decreases |s|
  {
    if s == [] then [] else Insert(s[0], Sort(s[1..], le), le)
  }

  lemma {:induction false} InsertPermutes<T>(x: T, s: seq<T>, le: (T, T) -> bool)
    ensures multiset(Insert(x, s, le)) == multiset{x} + multiset(s)
    decreases |s|
  {
    if s != [] && !le(x, s[0]) {
      InsertPermutes(x, s[1..], le);
      assert s == [s[0]] + s[1..];
    }
  }

  /** The sorted list is a rearrangement of the input. */
  lemma {:induction false} SortPermutes<T>(s: seq<T>, le: (T, T) -> bool)
    ensures multiset(Sort(s, le)) == multiset(s)
    decreases |s|
  {
    if s != [] {
      SortPermutes(s[1..], le);
      InsertPermutes(s[0], Sort(s[1..], le), le);
      assert s == [s[0]] + s[1..];
    }
  }

  lemma {:induction false} InsertSorted<T(!new)>(x: T, s: seq<T>, le: (T, T) -> bool)
    requires TotalPreorder(le) && Sorted(s, le)
    ensures Sorted(Insert(x, s, le), le)
    decreases |s|
  {
    if s == [] || le(x, s[0]) {
      forall y | y in s ensures le(x, y) {
        HeadPrecedes(s, y, le);
      }
      ConsSorted(x, s, le);
    } else {
      var rest := Insert(x, s[1..], le);
      SortedTail(s, le);
      InsertSorted(x, s[1..], le);
      InsertMembers(x, s[1..], le);
      forall y | y in rest ensures le(s[0], y) {
        if y != x {
          HeadPrecedes(s, y, le);
        }
      }
      ConsSorted(s[0], rest, le);
    }
  }

  /** Every element of `Insert(x, s)` is `x` or an element of `s`. */
  lemma {:induction false} InsertMembers<T>(x: T, s: seq<T>, le: (T, T) -> bool)
    ensures forall y :: y in Insert(x, s, le) ==> y == x || y in s
    decreases |s|
  {
    if s != [] && !le(x, s[0]) {
      InsertMembers(x, s[1..], le);
    }
  }

  /** A sorted list's first element may precede each element (under a total preorder, itself too). */
  lemma HeadPrecedes<T(!new)>(s: seq<T>, y: T, le: (T, T) -> bool)
    requires TotalPreorder(le) && Sorted(s, le) && s != [] && y in s
    ensures le(s[0], y)
  {
    var k :| 0 <= k < |s| && s[k] == y;
    if k == 0 {
      assert le(y, y) || le(y, y);
    }
  }

  lemma SortedTail<T>(s: seq<T>, le: (T, T) -> bool)
    requires Sorted(s, le) && s != []
    ensures Sorted(s[1..], le)
  {
    forall i, j | 0 <= i < j < |s[1..]| ensures le(s[1..][i], s[1..][j]) {
      assert s[1..][i] == s[i + 1] && s[1..][j] == s[j + 1];
    }
  }

  /** An element that may precede every element of a sorted list can go in front of it. */
  lemma ConsSorted<T>(a: T, t: seq<T>, le: (T, T) -> bool)
    requires Sorted(t, le) && forall y :: y in t ==> le(a, y)
    ensures Sorted([a] + t, le)
  {
    var r := [a] + t;
    forall i, j | 0 <= i < j < |r| ensures le(r[i], r[j]) {
      assert r[j] == t[j - 1];
      if i > 0 {
        assert r[i] == t[i - 1];
      } else {
        assert t[j - 1] in t;
      }
    }
  }

  /** Under a consistent comparator the output is ordered. */
  lemma {:induction false} SortSorted<T(!new)>(s: seq<T>, le: (T, T) -> bool)
    requires TotalPreorder(le)
    ensures Sorted(Sort(s, le), le)
    decreases |s|
  {
    if s != [] {
      SortSorted(s[1..], le);
      InsertSorted(s[0], Sort(s[1..], le), le);
    }
  }

  /** The elements of `s` that compare equal to `v`, in their order. */
  function Ties<T>(s: seq<T>, v: T, le: (T, T) -> bool): seq<T>
    decreases |s|
  {
    if s == [] then []
    else (if le(s[0], v) && le(v, s[0]) then [s[0]] else []) + Ties(s[1..], v, le)
  }

  lemma {:induction false} InsertTies<T(!new)>(x: T, s: seq<T>, v: T, le: (T, T) -> bool)
    requires TotalPreorder(le)
    ensures Ties(Insert(x, s, le), v, le) ==
      (if le(x, v) && le(v, x) then [x] + Ties(s, v, le) else Ties(s, v, le))
    decreases |s|
  {
    if s == [] || le(x, s[0]) {
      assert ([x] + s)[1..] == s;
    } else {
      InsertTies(x, s[1..], v, le);
      assert ([s[0]] + Insert(x, s[1..], le))[1..] == Insert(x, s[1..], le);
      if le(x, v) && le(v, x) {
        // s[0] is strictly after x, so it cannot tie with v
        assert !(le(s[0], v) && le(v, s[0]));
      }
    }
  }

  /** Stability: elements that compare equal come out in their input order. */
  lemma {:induction false} SortStable<T(!new)>(s: seq<T>, v: T, le: (T, T) -> bool)
    requires TotalPreorder(le)
    ensures Ties(Sort(s, le), v, le) == Ties(s, v, le)
    decreases |s|
  {
    if s != [] {
      SortStable(s[1..], v, le);
      InsertTies(s[0], Sort(s[1..], le), v, le);
    }
  }
}
