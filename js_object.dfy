/**
 * A JavaScript object used as a dictionary (`Record<string, V>`): a list of
 * key/value entries in enumeration order. `Object.keys`, `Object.values`,
 * `Object.entries` and `for ... in` all walk the entries in that order; assigning
 * to a present key keeps its place, assigning to a new key appends it, and `delete`
 * takes the entry out. (Integer-like keys, which JavaScript enumerates first, do
 * not occur among the uuids, playlist ids and field names used here.)
 */
module JsObject {
  import opened Wrappers
  import opened Seqs

  type Rec<K, V> = seq<(K, V)>

  function Keys<K, V>(r: Rec<K, V>): (ks: seq<K>)
    ensures |ks| == |r|
    ensures forall i :: 0 <= i < |r| ==> ks[i] == r[i].0
  {
    seq(|r|, i requires 0 <= i < |r| => r[i].0)
  }

  function Values<K, V>(r: Rec<K, V>): (vs: seq<V>)
    ensures |vs| == |r|
    ensures forall i :: 0 <= i < |r| ==> vs[i] == r[i].1
  {
    seq(|r|, i requires 0 <= i < |r| => r[i].1)
  }

  /** No key occurs twice: the shape every JavaScript object has. */
  ghost predicate DistinctKeys<K, V>(r: Rec<K, V>) {
    forall i, j :: 0 <= i < j < |r| ==> r[i].0 != r[j].0
  }

  /** `r[k]`, with `None` for `undefined`. */
  function Get<K(==, !new), V>(r: Rec<K, V>, k: K): (v: Option<V>)
    ensures v.Some? <==> k in Keys(r)
    ensures v.Some? ==> (k, v.value) in r
  {
    if r == [] then None
    else if r[0].0 == k then Some(r[0].1)
    else
      var v := Get(r[1..], k);
      assert Keys(r) == [r[0].0] + Keys(r[1..]);
      v
  }

  /** With distinct keys, the entry at position `i` is what `Get` finds for its key. */
  lemma {:induction false} GetAt<K(!new), V>(r: Rec<K, V>, i: nat)
    requires DistinctKeys(r) && i < |r|
    ensures Get(r, r[i].0) == Some(r[i].1)
  {
    if i > 0 {
      assert r[1..][i - 1] == r[i];
      GetAt(r[1..], i - 1);
    }
  }

  /**
   * `r[k] = v`: a present key keeps its place and gets the new value, a new key goes
   * to the end.
   */
  function Put<K(==, !new), V>(r: Rec<K, V>, k: K, v: V): (r': Rec<K, V>)
    ensures Get(r', k) == Some(v)
    ensures forall k' :: k' != k ==> Get(r', k') == Get(r, k')
    ensures Keys(r') == if k in Keys(r) then Keys(r) else Keys(r) + [k]
    ensures DistinctKeys(r) ==> DistinctKeys(r')
    decreases |r|
  {
    if r == [] then [(k, v)]
    else if r[0].0 == k then
      PutFront(r, k, v);
      [(k, v)] + r[1..]
    else
      var rest := Put(r[1..], k, v);
      PutStepGet(r, k, v, rest);
      PutKeys(r, k, rest);
      [r[0]] + rest
  }

  /** After `r[k0] = v`, the keys are the old keys and `k0`. */
  lemma PutKeyIn<K(!new), V>(r: Rec<K, V>, k0: K, v: V, k: K)
    ensures k in Keys(Put(r, k0, v)) <==> k in Keys(r) || k == k0
  {
    if k0 !in Keys(r) {
      assert Keys(Put(r, k0, v)) == Keys(r) + [k0];
    }
  }

  /** The step of `Put` that finds the key in front. */
  lemma PutFront<K(!new), V>(r: Rec<K, V>, k: K, v: V)
    requires r != [] && r[0].0 == k
    ensures var r' := [(k, v)] + r[1..];
      Get(r', k) == Some(v) && (forall k' :: k' != k ==> Get(r', k') == Get(r, k')) &&
      Keys(r') == Keys(r) && k in Keys(r) && (DistinctKeys(r) ==> DistinctKeys(r'))
  {
    assert r == [r[0]] + r[1..];
    KeysCons((k, v), r[1..]);
    KeysCons(r[0], r[1..]);
    GetCons((k, v), r[1..]);
    GetCons(r[0], r[1..]);
  }

  /** Lookups after the step of `Put` that passes the front entry by. */
  lemma PutStepGet<K(!new), V>(r: Rec<K, V>, k: K, v: V, rest: Rec<K, V>)
    requires r != [] && r[0].0 != k
    requires Get(rest, k) == Some(v)
    requires forall k' :: k' != k ==> Get(rest, k') == Get(r[1..], k')
    ensures Get([r[0]] + rest, k) == Some(v)
    ensures forall k' :: k' != k ==> Get([r[0]] + rest, k') == Get(r, k')
  {
    GetCons(r[0], rest);
    GetCons(r[0], r[1..]);
    assert r == [r[0]] + r[1..];
  }

  /** Looking a key up in a list with one more entry in front. */
  lemma GetCons<K(!new), V>(e: (K, V), rest: Rec<K, V>)
    ensures forall k :: Get([e] + rest, k) == if e.0 == k then Some(e.1) else Get(rest, k)
  {
    assert ([e] + rest)[1..] == rest;
  }

  lemma PutKeys<K(!new), V>(r: Rec<K, V>, k: K, rest: Rec<K, V>)
    requires r != [] && r[0].0 != k
    requires Keys(rest) == if k in Keys(r[1..]) then Keys(r[1..]) else Keys(r[1..]) + [k]
    requires DistinctKeys(r[1..]) ==> DistinctKeys(rest)
    ensures Keys([r[0]] + rest) == if k in Keys(r) then Keys(r) else Keys(r) + [k]
    ensures DistinctKeys(r) ==> DistinctKeys([r[0]] + rest)
  {
    PutKeysOrder(r, k, rest);
    if DistinctKeys(r) {
      DistinctTail(r);
      HeadNotInTail(r);
      ConsDistinct(r[0], rest);
    }
  }

  lemma PutKeysOrder<K(!new), V>(r: Rec<K, V>, k: K, rest: Rec<K, V>)
    requires r != [] && r[0].0 != k
    requires Keys(rest) == if k in Keys(r[1..]) then Keys(r[1..]) else Keys(r[1..]) + [k]
    ensures Keys([r[0]] + rest) == if k in Keys(r) then Keys(r) else Keys(r) + [k]
  {
    assert r == [r[0]] + r[1..];
    KeysCons(r[0], r[1..]);
    KeysCons(r[0], rest);
    assert k in Keys(r) <==> k in Keys(r[1..]);
    if k !in Keys(r[1..]) {
      AppendAssoc([r[0].0], Keys(r[1..]), [k]);
    }
  }

  lemma AppendAssoc<T>(a: seq<T>, b: seq<T>, c: seq<T>)
    ensures a + (b + c) == (a + b) + c
  {
  }

  lemma KeysCons<K, V>(e: (K, V), t: Rec<K, V>)
    ensures Keys([e] + t) == [e.0] + Keys(t)
  {
  }

  lemma HeadNotInTail<K, V>(r: Rec<K, V>)
    requires r != [] && DistinctKeys(r)
    ensures r[0].0 !in Keys(r[1..])
  {
    forall j | 0 <= j < |r[1..]| ensures Keys(r[1..])[j] != r[0].0 {
      assert r[1..][j] == r[j + 1];
    }
  }

  lemma DistinctTail<K, V>(r: Rec<K, V>)
    requires r != [] && DistinctKeys(r)
    ensures DistinctKeys(r[1..])
  {
    forall i, j | 0 <= i < j < |r[1..]| ensures r[1..][i].0 != r[1..][j].0 {
      assert r[1..][i] == r[i + 1] && r[1..][j] == r[j + 1];
    }
  }

  /** A list built as the front entry followed by the tail updated at `i - 1` is the list updated at `i`. */
  lemma ConsUpdate<T>(s: seq<T>, i: nat, e: T, whole: seq<T>, tail: seq<T>)
    requires 0 < i < |s|
    requires whole == [s[0]] + tail && tail == s[1..][i - 1 := e]
    ensures whole == s[i := e]
  {
  }

  lemma ConsDistinct<K, V>(e: (K, V), rest: Rec<K, V>)
    requires DistinctKeys(rest) && e.0 !in Keys(rest)
    ensures DistinctKeys([e] + rest)
  {
    var r' := [e] + rest;
    forall i, j | 0 <= i < j < |r'| ensures r'[i].0 != r'[j].0 {
      assert r'[j] == rest[j - 1];
      if i > 0 {
        assert r'[i] == rest[i - 1];
      } else {
        assert Keys(rest)[j - 1] == rest[j - 1].0;
      }
    }
  }

  /** Assigning to a new key appends one entry. */
  lemma {:induction false} PutAbsent<K(!new), V>(r: Rec<K, V>, k: K, v: V)
    requires k !in Keys(r)
    ensures Put(r, k, v) == r + [(k, v)]
    decreases |r|
  {
    if r != [] {
      KeysCons(r[0], r[1..]);
      assert r == [r[0]] + r[1..];
      PutUnfoldPass(r, k, v);
      PutAbsent(r[1..], k, v);
      ConsSnoc(r, (k, v), Put(r, k, v), Put(r[1..], k, v));
    }
  }

  /** A list built as the front entry followed by the tail with `x` appended is the list with `x` appended. */
  lemma ConsSnoc<T>(s: seq<T>, x: T, whole: seq<T>, tail: seq<T>)
    requires s != [] && whole == [s[0]] + tail && tail == s[1..] + [x]
    ensures whole == s + [x]
  {
    assert [s[0]] + (s[1..] + [x]) == s + [x];
  }

  /** With distinct keys, assigning to the key at position `i` replaces that entry in place. */
  lemma {:induction false} PutPresent<K(!new), V>(r: Rec<K, V>, i: nat, v: V)
    requires DistinctKeys(r) && i < |r|
    ensures Put(r, r[i].0, v) == r[i := (r[i].0, v)]
    decreases |r|
  {
    var k := r[i].0;
    if i == 0 {
      PutUnfoldFront(r, k, v);
    } else {
      assert r[1..][i - 1] == r[i];
      assert r[0].0 != r[i].0;
      DistinctTail(r);
      PutPresent(r[1..], i - 1, v);
      PutPresentStep(r, i, k, v);
    }
  }

  /** The step of `PutPresent` past a front entry with another key. */
  lemma PutPresentStep<K(!new), V>(r: Rec<K, V>, i: nat, k: K, v: V)
    requires 0 < i < |r| && r[0].0 != k
    requires Put(r[1..], k, v) == r[1..][i - 1 := (k, v)]
    ensures Put(r, k, v) == r[i := (k, v)]
  {
    PutUnfoldPass(r, k, v);
    ConsUpdate(r, i, (k, v), Put(r, k, v), Put(r[1..], k, v));
  }

  /** `Put` on a list whose front entry has the key. */
  lemma PutUnfoldFront<K(!new), V>(r: Rec<K, V>, k: K, v: V)
    requires r != [] && r[0].0 == k
    ensures Put(r, k, v) == r[0 := (k, v)]
  {
    assert [(k, v)] + r[1..] == r[0 := (k, v)];
  }

  /** `Put` on a list whose front entry has another key. */
  lemma PutUnfoldPass<K(!new), V>(r: Rec<K, V>, k: K, v: V)
    requires r != [] && r[0].0 != k
    ensures Put(r, k, v) == [r[0]] + Put(r[1..], k, v)
  {
  }

  /** `r` without the entries for `k`, the others in their order. */
  function Remove<K(==, !new), V>(r: Rec<K, V>, k: K): (r': Rec<K, V>)
    ensures Get(r', k) == None
    ensures forall k' :: k' != k ==> Get(r', k') == Get(r, k')
    ensures |r'| <= |r|
    ensures DistinctKeys(r) ==> DistinctKeys(r')
    ensures k !in Keys(r) ==> r' == r
    ensures IsSubseq(r', r)
    decreases |r|
  {
    if r == [] then []
    else
      var rest := Remove(r[1..], k);
      if r[0].0 == k then
        RemoveFront(r, k, rest);
        rest
      else
        RemovePass(r, k, rest);
        RemovePassDistinct(r, k, rest);
        [r[0]] + rest
  }

  /** The step of `Remove` that drops the front entry. */
  lemma RemoveFront<K(!new), V>(r: Rec<K, V>, k: K, rest: Rec<K, V>)
    requires r != [] && r[0].0 == k
    requires Get(rest, k) == None
    requires forall k' :: k' != k ==> Get(rest, k') == Get(r[1..], k')
    requires |rest| <= |r[1..]| && IsSubseq(rest, r[1..])
    requires DistinctKeys(r[1..]) ==> DistinctKeys(rest)
    ensures forall k' :: k' != k ==> Get(rest, k') == Get(r, k')
    ensures k in Keys(r) && IsSubseq(rest, r)
    ensures DistinctKeys(r) ==> DistinctKeys(rest)
  {
    GetCons(r[0], r[1..]);
    assert r == [r[0]] + r[1..];
    assert Keys(r)[0] == k;
    if DistinctKeys(r) {
      DistinctTail(r);
    }
  }

  /** Lookups and order after the step of `Remove` that keeps the front entry. */
  lemma RemovePass<K(!new), V>(r: Rec<K, V>, k: K, rest: Rec<K, V>)
    requires r != [] && r[0].0 != k
    requires Get(rest, k) == None
    requires forall k' :: k' != k ==> Get(rest, k') == Get(r[1..], k')
    requires IsSubseq(rest, r[1..])
    requires k !in Keys(r[1..]) ==> rest == r[1..]
    ensures Get([r[0]] + rest, k) == None
    ensures forall k' :: k' != k ==> Get([r[0]] + rest, k') == Get(r, k')
    ensures IsSubseq([r[0]] + rest, r)
    ensures k !in Keys(r) ==> [r[0]] + rest == r
  {
    RemovePassGet(r, k, rest);
    RemovePassOrder(r, k, rest);
  }

  lemma RemovePassGet<K(!new), V>(r: Rec<K, V>, k: K, rest: Rec<K, V>)
    requires r != [] && r[0].0 != k
    requires Get(rest, k) == None
    requires forall k' :: k' != k ==> Get(rest, k') == Get(r[1..], k')
    ensures Get([r[0]] + rest, k) == None
    ensures forall k' :: k' != k ==> Get([r[0]] + rest, k') == Get(r, k')
  {
    GetCons(r[0], rest);
    GetCons(r[0], r[1..]);
    assert r == [r[0]] + r[1..];
  }

  lemma RemovePassOrder<K(!new), V>(r: Rec<K, V>, k: K, rest: Rec<K, V>)
    requires r != [] && r[0].0 != k
    requires IsSubseq(rest, r[1..])
    requires k !in Keys(r[1..]) ==> rest == r[1..]
    ensures IsSubseq([r[0]] + rest, r)
    ensures k !in Keys(r) ==> [r[0]] + rest == r
  {
    assert r == [r[0]] + r[1..];
    assert ([r[0]] + rest)[1..] == rest;
    KeysCons(r[0], r[1..]);
  }

  /** Distinct keys after the step of `Remove` that keeps the front entry. */
  lemma RemovePassDistinct<K(!new), V>(r: Rec<K, V>, k: K, rest: Rec<K, V>)
    requires r != [] && r[0].0 != k
    requires forall k' :: k' != k ==> Get(rest, k') == Get(r[1..], k')
    requires DistinctKeys(r[1..]) ==> DistinctKeys(rest)
    ensures DistinctKeys(r) ==> DistinctKeys([r[0]] + rest)
  {
    if DistinctKeys(r) {
      DistinctTail(r);
      HeadNotInTail(r);
      assert Get(r[1..], r[0].0) == None;
      ConsDistinct(r[0], rest);
    }
  }


  /** Removing from a longer list: the last entry is kept exactly when its key is not the one removed. */
  lemma {:induction false} RemoveSnoc<K(!new), V>(r: Rec<K, V>, e: (K, V), k: K)
    ensures Remove(r + [e], k) == Remove(r, k) + (if e.0 == k then [] else [e])
    decreases |r|
  {
    if r == [] {
      assert [e][1..] == [];
    } else {
      assert (r + [e])[0] == r[0] && (r + [e])[1..] == r[1..] + [e];
      RemoveSnoc(r[1..], e, k);
      var tail := if e.0 == k then [] else [e];
      if r[0].0 != k {
        assert [r[0]] + (Remove(r[1..], k) + tail) == ([r[0]] + Remove(r[1..], k)) + tail;
      }
    }
  }
}
