/** Subsequences, and `Array.prototype.filter` with the element's position passed to the callback. */
module Seqs {
  import opened Wrappers


  /** `a` is obtained from `b` by leaving out elements, keeping the order of the rest. */
  predicate IsSubseq<T(==)>(a: seq<T>, b: seq<T>)
    decreases |b|
  {
    if a == [] then true
    else if b == [] then false
    else (a[0] == b[0] && IsSubseq(a[1..], b[1..])) || IsSubseq(a, b[1..])
  }

  /** A prefix one longer is the prefix and the next element. */
  lemma TakeSnoc<T>(s: seq<T>, i: nat)
    requires i < |s|
    ensures s[..i + 1] == s[..i] + [s[i]]
  {
  }

  lemma {:induction false} SubseqReflexive<T>(a: seq<T>)
    ensures IsSubseq(a, a)
    decreases |a|
  {
    if a != [] {
      SubseqReflexive(a[1..]);
    }
  }

  lemma {:induction false} SubseqTransitive<T>(a: seq<T>, b: seq<T>, c: seq<T>)
    requires IsSubseq(a, b) && IsSubseq(b, c)
    ensures IsSubseq(a, c)
    decreases |c|
  {
    if a != [] && c != [] {
      if b[0] == c[0] && IsSubseq(b[1..], c[1..]) {
        if a[0] == b[0] && IsSubseq(a[1..], b[1..]) {
          SubseqTransitive(a[1..], b[1..], c[1..]);
        } else {
          SubseqTransitive(a, b[1..], c[1..]);
        }
      } else {
        SubseqTransitive(a, b, c[1..]);
      }
    }
  }

  /** A subsequence is never longer and only holds elements of the longer sequence. */
  lemma {:induction false} SubseqElements<T>(a: seq<T>, b: seq<T>)
    requires IsSubseq(a, b)
    ensures |a| <= |b|
    ensures multiset(a) <= multiset(b)
    decreases |b|
  {
    if a != [] {
      if a[0] == b[0] && IsSubseq(a[1..], b[1..]) {
        SubseqElements(a[1..], b[1..]);
        assert a == [a[0]] + a[1..] && b == [b[0]] + b[1..];
      } else {
        SubseqElements(a, b[1..]);
        assert b == [b[0]] + b[1..];
      }
    }
  }

  /**
   * `s.filter((x, i) => keep(x, i))` on a list whose first element sits at position
   * `start`: the elements for which `keep` holds, in their order.
   */
  function FilterIndexed<T>(s: seq<T>, keep: (T, nat) -> bool, start: nat): seq<T>
    decreases |s|
  {
    if s == [] then []
    else (if keep(s[0], start) then [s[0]] else []) + FilterIndexed(s[1..], keep, start + 1)
  }

  /** `s.filter(...)` with positions counted from 0. */
  function Filtered<T>(s: seq<T>, keep: (T, nat) -> bool): seq<T> {
    FilterIndexed(s, keep, 0)
  }

  lemma {:induction false} FilterIndexedIsSubseq<T>(s: seq<T>, keep: (T, nat) -> bool, start: nat)
    ensures IsSubseq(FilterIndexed(s, keep, start), s)
    decreases |s|
  {
    if s != [] {
      var rest := FilterIndexed(s[1..], keep, start + 1);
      FilterIndexedIsSubseq(s[1..], keep, start + 1);
      if keep(s[0], start) {
        assert ([s[0]] + rest)[1..] == rest;
      } else {
        assert [] + rest == rest;
        if rest != [] {
          assert IsSubseq(rest, s[1..]);
        }
      }
    }
  }

  /** Every element the filter keeps sits in the list at a position `keep` accepts. */
  lemma {:induction false} FilterIndexedKept<T>(s: seq<T>, keep: (T, nat) -> bool, start: nat, x: T)
    requires x in FilterIndexed(s, keep, start)
    ensures exists i :: 0 <= i < |s| && s[i] == x && keep(x, start + i)
    decreases |s|
  {
    if x in FilterIndexed(s[1..], keep, start + 1) {
      FilterIndexedKept(s[1..], keep, start + 1, x);
      var i :| 0 <= i < |s[1..]| && s[1..][i] == x && keep(x, start + 1 + i);
      assert s[i + 1] == x;
    } else {
      assert s[0] == x && keep(x, start + 0);
    }
  }

  /** Every element at a position `keep` accepts is kept. */
  lemma {:induction false} FilterIndexedKeeps<T>(s: seq<T>, keep: (T, nat) -> bool, start: nat, i: nat)
    requires i < |s| && keep(s[i], start + i)
    ensures s[i] in FilterIndexed(s, keep, start)
    decreases |s|
  {
    if i > 0 {
      assert s[1..][i - 1] == s[i];
      FilterIndexedKeeps(s[1..], keep, start + 1, i - 1);
    }
  }

  /**
   * Filtering with `keep` and with its negation splits the list: every element goes
   * to exactly one of the two outputs.
   */
  lemma {:induction false} FilterPartition<T>(s: seq<T>, keep: (T, nat) -> bool, drop: (T, nat) -> bool, start: nat)
    requires forall x, i :: drop(x, i) == !keep(x, i)
    ensures multiset(FilterIndexed(s, keep, start)) + multiset(FilterIndexed(s, drop, start)) == multiset(s)
    ensures |FilterIndexed(s, keep, start)| + |FilterIndexed(s, drop, start)| == |s|
    decreases |s|
  {
    if s != [] {
      FilterPartition(s[1..], keep, drop, start + 1);
      assert drop(s[0], start) == !keep(s[0], start);
      PartitionStep(s, keep(s[0], start), FilterIndexed(s[1..], keep, start + 1), FilterIndexed(s[1..], drop, start + 1),
        FilterIndexed(s, keep, start), FilterIndexed(s, drop, start));
    }
  }

  /** Putting the front element into exactly one of two partitions of the tail partitions the list. */
  lemma PartitionStep<T>(s: seq<T>, k: bool, a: seq<T>, b: seq<T>, fa: seq<T>, fb: seq<T>)
    requires s != [] && multiset(a) + multiset(b) == multiset(s[1..]) && |a| + |b| == |s| - 1
    requires fa == (if k then [s[0]] else []) + a && fb == (if k then [] else [s[0]]) + b
    ensures multiset(fa) + multiset(fb) == multiset(s) && |fa| + |fb| == |s|
  {
    assert s == [s[0]] + s[1..];
  }

  /** A filter that keeps every element returns the list itself. */
  lemma {:induction false} FilterAll<T>(s: seq<T>, keep: (T, nat) -> bool, start: nat)
    requires forall x, i :: keep(x, i)
    ensures FilterIndexed(s, keep, start) == s
    decreases |s|
  {
    if s != [] {
      FilterAll(s[1..], keep, start + 1);
    }
  }

  /** A filter that keeps no element returns the empty list. */
  lemma {:induction false} FilterNone<T>(s: seq<T>, keep: (T, nat) -> bool, start: nat)
    requires forall x, i :: !keep(x, i)
    ensures FilterIndexed(s, keep, start) == []
    decreases |s|
  {
    if s != [] {
      FilterNone(s[1..], keep, start + 1);
    }
  }

  // ---------------------------------------------------------------------------
  // Lists of [name, flag] pairs, as the editors' menus keep them
  // ---------------------------------------------------------------------------

  /** `flags[i] = [flags[i][0], !flags[i][1]]`. */
  function ToggleAt<T>(flags: seq<(T, bool)>, i: nat): (r: seq<(T, bool)>)
    requires i < |flags|
    ensures |r| == |flags| && r[i] == (flags[i].0, !flags[i].1)
    ensures forall j :: 0 <= j < |flags| && j != i ==> r[j] == flags[j]
  {
    flags[i := (flags[i].0, !flags[i].1)]
  }

  /** `flags.filter((c) => c[1]).map((k) => k[0])`. */
  function Chosen<T>(flags: seq<(T, bool)>): seq<T>
    decreases |flags|
  {
    if flags == [] then [] else (if flags[0].1 then [flags[0].0] else []) + Chosen(flags[1..])
  }

  lemma {:induction false} ChosenMembers<T>(flags: seq<(T, bool)>, x: T)
    ensures x in Chosen(flags) <==> (x, true) in flags
    decreases |flags|
  {
    if flags != [] {
      ChosenMembers(flags[1..], x);
      assert (x, true) in flags <==> flags[0] == (x, true) || (x, true) in flags[1..];
    }
  }

  /** The chosen names keep the order of the flag list: a subsequence of its names. */
  lemma {:induction false} ChosenIsSubseq<T>(flags: seq<(T, bool)>)
    ensures IsSubseq(Chosen(flags), Names(flags))
    decreases |flags|
  {
    if flags != [] {
      ChosenIsSubseq(flags[1..]);
      assert Names(flags)[1..] == Names(flags[1..]);
      if !flags[0].1 && Chosen(flags[1..]) != [] {
        assert Chosen(flags) == Chosen(flags[1..]);
      }
    }
  }

  function Names<T>(flags: seq<(T, bool)>): (ns: seq<T>)
    ensures |ns| == |flags| && forall i :: 0 <= i < |flags| ==> ns[i] == flags[i].0
  {
    seq(|flags|, i requires 0 <= i < |flags| => flags[i].0)
  }

  /**
   * With distinct names, toggling entry `i` adds or removes exactly its name from the
   * chosen list and keeps every other name where it was.
   */
  lemma ToggleChosen<T>(flags: seq<(T, bool)>, i: nat, x: T)
    requires i < |flags|
    requires forall a, b :: 0 <= a < b < |flags| ==> flags[a].0 != flags[b].0
    ensures x in Chosen(ToggleAt(flags, i)) <==>
      if x == flags[i].0 then !flags[i].1 else x in Chosen(flags)
  {
    var r := ToggleAt(flags, i);
    ChosenMembers(flags, x);
    ChosenMembers(r, x);
    if x == flags[i].0 {
      if (x, true) in r {
        var j :| 0 <= j < |r| && r[j] == (x, true);
        assert j == i || r[j] == flags[j];
      }
      if !flags[i].1 {
        assert r[i] == (x, true);
      }
      if (x, true) in flags {
        var j :| 0 <= j < |flags| && flags[j] == (x, true);
        assert j == i;
      }
    } else {
      if (x, true) in r {
        var j :| 0 <= j < |r| && r[j] == (x, true);
        assert flags[j] == (x, true);
      }
      if (x, true) in flags {
        var j :| 0 <= j < |flags| && flags[j] == (x, true);
        assert r[j] == (x, true);
      }
    }
  }

  // ---------------------------------------------------------------------------
  // Iterator adaptors: `filter_map` and `flat_map`
  // ---------------------------------------------------------------------------

  /** `s.into_iter().filter_map(f)`: the values `f` produces, in input order. */
  function FilterMap<A, B>(s: seq<A>, f: A -> Option<B>): seq<B>
    decreases |s|
  {
    if s == [] then [] else (if f(s[0]).Some? then [f(s[0]).value] else []) + FilterMap(s[1..], f)
  }

  /** `filter_map` works element by element: it distributes over concatenation. */
  lemma {:induction false} FilterMapAppend<A, B>(a: seq<A>, b: seq<A>, f: A -> Option<B>)
    ensures FilterMap(a + b, f) == FilterMap(a, f) + FilterMap(b, f)
    decreases |a|
  {
    if a != [] {
      assert (a + b)[0] == a[0] && (a + b)[1..] == a[1..] + b;
      FilterMapAppend(a[1..], b, f);
      var h := if f(a[0]).Some? then [f(a[0]).value] else [];
      assert h + (FilterMap(a[1..], f) + FilterMap(b, f)) == (h + FilterMap(a[1..], f)) + FilterMap(b, f);
    } else {
      assert a + b == b;
    }
  }

  /** At most one output per input; exactly one per input when `f` never declines. */
  lemma {:induction false} FilterMapLength<A, B>(s: seq<A>, f: A -> Option<B>)
    ensures |FilterMap(s, f)| <= |s|
    ensures (forall i :: 0 <= i < |s| ==> f(s[i]).Some?) ==> |FilterMap(s, f)| == |s|
    decreases |s|
  {
    if s != [] {
      FilterMapLength(s[1..], f);
      assert forall i :: 1 <= i < |s| ==> s[1..][i - 1] == s[i];
    }
  }

  /** Every output is what `f` gives for some input, and every value `f` gives is output. */
  lemma {:induction false} FilterMapMember<A, B>(s: seq<A>, f: A -> Option<B>, y: B)
    ensures y in FilterMap(s, f) <==> exists i :: 0 <= i < |s| && f(s[i]) == Some(y)
    decreases |s|
  {
    if s != [] {
      FilterMapMember(s[1..], f, y);
      if exists i :: 0 <= i < |s| && f(s[i]) == Some(y) {
        var i :| 0 <= i < |s| && f(s[i]) == Some(y);
        if i > 0 {
          assert s[1..][i - 1] == s[i];
        }
      }
      if exists i :: 0 <= i < |s[1..]| && f(s[1..][i]) == Some(y) {
        var i :| 0 <= i < |s[1..]| && f(s[1..][i]) == Some(y);
        assert s[i + 1] == s[1..][i];
      }
    }
  }

  /**
   * The positions, counted from `start`, of the inputs for which `f` gives a value, in
   * input order: where each output of `filter_map` comes from.
   */
  function Origins<A, B>(s: seq<A>, f: A -> Option<B>, start: nat): seq<nat>
    decreases |s|
  {
    if s == [] then [] else (if f(s[0]).Some? then [start] else []) + Origins(s[1..], f, start + 1)
  }

  /** Every origin is a position of the list, and the origins strictly increase. */
  lemma {:induction false} OriginsIncrease<A, B>(s: seq<A>, f: A -> Option<B>, start: nat)
    ensures forall j :: 0 <= j < |Origins(s, f, start)| ==> start <= Origins(s, f, start)[j] < start + |s|
    ensures forall j, k :: 0 <= j < k < |Origins(s, f, start)| ==> Origins(s, f, start)[j] < Origins(s, f, start)[k]
    decreases |s|
  {
    if s != [] {
      var h: seq<nat> := if f(s[0]).Some? then [start] else [];
      var rest := Origins(s[1..], f, start + 1);
      OriginsIncrease(s[1..], f, start + 1);
      var o := h + rest;
      forall j | 0 <= j < |o| ensures start <= o[j] < start + |s| {
        if j >= |h| { assert o[j] == rest[j - |h|]; }
      }
      forall j, k | 0 <= j < k < |o| ensures o[j] < o[k] {
        if j >= |h| { assert o[j] == rest[j - |h|]; }
        assert o[k] == rest[k - |h|];
      }
    }
  }

  /** A position is an origin exactly when `f` gives a value for the input there. */
  lemma {:induction false} OriginsMembers<A, B>(s: seq<A>, f: A -> Option<B>, start: nat, i: nat)
    requires i < |s|
    ensures start + i in Origins(s, f, start) <==> f(s[i]).Some?
    decreases |s|
  {
    var h: seq<nat> := if f(s[0]).Some? then [start] else [];
    var rest := Origins(s[1..], f, start + 1);
    OriginsIncrease(s[1..], f, start + 1);
    if i == 0 {
      assert start !in rest;
    } else {
      assert s[1..][i - 1] == s[i];
      OriginsMembers(s[1..], f, start + 1, i - 1);
      assert start + i !in h;
    }
  }

  /** Output `j` of `filter_map` is the value `f` gives for the input at origin `j`. */
  lemma {:induction false} FilterMapOrigins<A, B>(s: seq<A>, f: A -> Option<B>, start: nat)
    ensures |FilterMap(s, f)| == |Origins(s, f, start)|
    ensures forall j :: 0 <= j < |Origins(s, f, start)| ==>
      var p := Origins(s, f, start)[j] - start; 0 <= p < |s| && f(s[p]) == Some(FilterMap(s, f)[j])
    decreases |s|
  {
    if s != [] {
      var h: seq<nat> := if f(s[0]).Some? then [start] else [];
      var hv := if f(s[0]).Some? then [f(s[0]).value] else [];
      var rest := Origins(s[1..], f, start + 1);
      var vs := FilterMap(s[1..], f);
      FilterMapOrigins(s[1..], f, start + 1);
      var o := h + rest;
      var out := hv + vs;
      forall j | 0 <= j < |o| ensures var p := o[j] - start; 0 <= p < |s| && f(s[p]) == Some(out[j]) {
        if j >= |h| {
          assert o[j] == rest[j - |h|] && out[j] == vs[j - |h|];
          assert s[1..][o[j] - start - 1] == s[o[j] - start];
        }
      }
    }
  }

  /** `s.into_iter().flat_map(f)`: the outputs of `f` for each input, one after the other. */
  function FlatMap<A, B>(s: seq<A>, f: A -> seq<B>): seq<B>
    decreases |s|
  {
    if s == [] then [] else f(s[0]) + FlatMap(s[1..], f)
  }

  lemma {:induction false} FlatMapAppend<A, B>(a: seq<A>, b: seq<A>, f: A -> seq<B>)
    ensures FlatMap(a + b, f) == FlatMap(a, f) + FlatMap(b, f)
    decreases |a|
  {
    if a != [] {
      assert (a + b)[0] == a[0] && (a + b)[1..] == a[1..] + b;
      FlatMapAppend(a[1..], b, f);
      assert f(a[0]) + (FlatMap(a[1..], f) + FlatMap(b, f)) == (f(a[0]) + FlatMap(a[1..], f)) + FlatMap(b, f);
    } else {
      assert a + b == b;
    }
  }
}

