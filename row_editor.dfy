/**
 * The editors of one pipeline row: the check row's isolated key set and its
 * duration text, the sort row's key list, the random-select count, and the row
 * menu (regex, exclude and reverse flags, delete with renumbering).
 */
module RowEditor {
  import opened Wrappers
  import opened JsRuntime
  import opened JsObject
  import opened Catalog
  import opened FiorModel
  import opened Seqs

  // ---------------------------------------------------------------------------
  // Check row: the isolated key set
  // ---------------------------------------------------------------------------

  /** The result of a click on a key: the new `cols`, and whether the shown value is cleared. */
  datatype KeyClick = KeyClick(cols: CheckCols, clearValue: bool)

  /** Every flag is off: `Object.values(newCols).every((v) => !v)`. */
  predicate AllOff(flags: Rec<Key, bool>) {
    forall i :: 0 <= i < |flags| ==> !flags[i].1
  }

  /** Every key of `ks` mapped to `false`, in order: what `ks.forEach((k) => (newCols[k] = false))` builds. */
  function Cleared(ks: seq<Key>): (r: Rec<Key, bool>)
    ensures Keys(r) == ks && AllOff(r)
  {
    seq(|ks|, i requires 0 <= i < |ks| => (ks[i], false))
  }

  /** The first click on a key: every key of its kind, off, then that key on. */
  function Start(k: Key): Rec<Key, bool> {
    Put(Cleared(KeysOfKind(KindOf(k))), k, true)
  }

  /** A click on key `k` of a set of the same kind: flip `k`, and reset when none is left on. */
  function Flip(flags: Rec<Key, bool>, k: Key): KeyClick {
    var v := Get(flags, k) != Some(true);
    var next := Put(flags, k, v);
    KeyClick(if AllOff(next) then Unset else Flags(next), k == Duration && !v)
  }

  /** What a click on key `k` makes of the check row's `cols`. */
  function NextCols(cols: CheckCols, k: Key): KeyClick {
    match cols
    case Unset => KeyClick(Flags(Start(k)), false)
    case Listed(_) =>
      // `Object.keys` of an array names no key, so no kind ever matches
      KeyClick(cols, false)
    case Flags(flags) =>
      if flags == [] || KindOf(k) != KindOf(flags[0].0) then KeyClick(cols, false)
      else Flip(flags, k)
  }

  /** Every key of the set has the kind of its first key. */
  predicate OneKind(flags: Rec<Key, bool>)
    requires flags != []
  {
    forall i :: 0 <= i < |flags| ==> KindOf(flags[i].0) == KindOf(flags[0].0)
  }

  /** The invariant of a check row's `cols`: undefined, or a non-empty set of one kind with a key on. */
  ghost predicate Isolated(cols: CheckCols) {
    cols.Unset? ||
    (cols.Flags? && cols.flags != [] && DistinctKeys(cols.flags) && OneKind(cols.flags) && !AllOff(cols.flags))
  }

  /** The position of `k` among the keys of its own kind. */
  lemma KindPosition(k: Key) returns (j: nat)
    ensures j < |KeysOfKind(KindOf(k))| && KeysOfKind(KindOf(k))[j] == k
    ensures DistinctKeys(Cleared(KeysOfKind(KindOf(k))))
    ensures forall i :: 0 <= i < |KeysOfKind(KindOf(k))| ==> KindOf(KeysOfKind(KindOf(k))[i]) == KindOf(KeysOfKind(KindOf(k))[0])
  {
    var ks := KeysOfKind(KindOf(k));
    j := IndexOf(ks, k);
    ClearedDistinct(ks);
    SameKind(ks, KindOf(k));
  }

  lemma IndexOf(ks: seq<Key>, k: Key) returns (j: nat)
    requires k in ks
    ensures j < |ks| && ks[j] == k
  {
    j :| 0 <= j < |ks| && ks[j] == k;
  }

  lemma ClearedDistinct(ks: seq<Key>)
    requires forall a, b :: 0 <= a < b < |ks| ==> ks[a] != ks[b]
    ensures DistinctKeys(Cleared(ks))
  {
    var c := Cleared(ks);
    forall a, b | 0 <= a < b < |c| ensures c[a].0 != c[b].0 {
      assert c[a].0 == ks[a] && c[b].0 == ks[b];
    }
  }

  lemma SameKind(ks: seq<Key>, kind: Kind)
    requires forall k :: k in ks <==> KindOf(k) == kind
    ensures forall i :: 0 <= i < |ks| ==> KindOf(ks[i]) == KindOf(ks[0])
  {
    forall i | 0 <= i < |ks| ensures KindOf(ks[i]) == KindOf(ks[0]) {
      assert ks[i] in ks && ks[0] in ks;
    }
  }

  /**
   * From undefined, a click on `k` gives exactly the keys of `k`'s kind, in catalogue
   * order, with only `k` on.
   */
  lemma FromUnset(k: Key)
    ensures NextCols(Unset, k).cols.Flags?
    ensures Keys(NextCols(Unset, k).cols.flags) == KeysOfKind(KindOf(k))
    ensures forall i :: 0 <= i < |NextCols(Unset, k).cols.flags| ==>
      (NextCols(Unset, k).cols.flags[i].1 <==> NextCols(Unset, k).cols.flags[i].0 == k)
  {
    var j := KindPosition(k);
    ClickOnCleared(KeysOfKind(KindOf(k)), j, k);
  }

  /** Turning on the key at position `j` of an all-off list built from distinct keys. */
  lemma ClickOnCleared(ks: seq<Key>, j: nat, k: Key)
    requires j < |ks| && ks[j] == k && DistinctKeys(Cleared(ks))
    ensures Keys(Put(Cleared(ks), k, true)) == ks
    ensures forall i :: 0 <= i < |Put(Cleared(ks), k, true)| ==>
      (Put(Cleared(ks), k, true)[i].1 <==> Put(Cleared(ks), k, true)[i].0 == k)
  {
    var c := Cleared(ks);
    PutPresent(c, j, true);
    var r := Put(c, k, true);
    forall i | 0 <= i < |r| ensures r[i].1 <==> r[i].0 == k {
      if i != j {
        assert r[i] == c[i];
        assert c[i].0 != c[j].0;
      }
    }
  }

  lemma OneKindUpdate(flags: Rec<Key, bool>, j: nat, e: (Key, bool))
    requires flags != [] && OneKind(flags) && j < |flags| && KindOf(e.0) == KindOf(flags[0].0)
    ensures OneKind(flags[j := e])
  {
    var next := flags[j := e];
    forall i | 0 <= i < |next| ensures KindOf(next[i].0) == KindOf(next[0].0) {
      if i != j { assert next[i] == flags[i]; }
      if j != 0 { assert next[0] == flags[0]; }
    }
  }

  lemma OneKindAppend(flags: Rec<Key, bool>, e: (Key, bool))
    requires flags != [] && OneKind(flags) && KindOf(e.0) == KindOf(flags[0].0)
    ensures OneKind(flags + [e])
  {
    var next := flags + [e];
    forall i | 0 <= i < |next| ensures KindOf(next[i].0) == KindOf(next[0].0) {
      if i < |flags| { assert next[i] == flags[i]; }
    }
  }

  /** A click on a key of the set's kind keeps the invariant. */
  lemma FlipKeepsIsolated(flags: Rec<Key, bool>, k: Key)
    requires flags != [] && DistinctKeys(flags) && OneKind(flags) && KindOf(k) == KindOf(flags[0].0)
    ensures Isolated(Flip(flags, k).cols)
  {
    var v := Get(flags, k) != Some(true);
    if k in Keys(flags) {
      var j :| 0 <= j < |flags| && flags[j].0 == k;
      PutPresent(flags, j, v);
      OneKindUpdate(flags, j, (k, v));
    } else {
      PutAbsent(flags, k, v);
      OneKindAppend(flags, (k, v));
    }
  }

  /** Every click keeps the invariant. */
  lemma NextColsKeepsIsolated(cols: CheckCols, k: Key)
    requires Isolated(cols)
    ensures Isolated(NextCols(cols, k).cols)
  {
    match cols
    case Unset =>
      StartKeepsIsolated(k);
    case Flags(flags) =>
      if flags != [] && KindOf(k) == KindOf(flags[0].0) {
        FlipKeepsIsolated(flags, k);
      }
  }

  /** The first click on a key gives a set that meets the invariant. */
  lemma StartKeepsIsolated(k: Key)
    ensures Isolated(Flags(Start(k)))
  {
    var ks := KeysOfKind(KindOf(k));
    var j := KindPosition(k);
    ClickOnCleared(ks, j, k);
    StartIsolated(ks, j, Start(k));
  }

  /** A start set holding one kind's keys, with the key at `j` on, meets the invariant. */
  lemma StartIsolated(ks: seq<Key>, j: nat, r: Rec<Key, bool>)
    requires j < |ks| && Keys(r) == ks && DistinctKeys(Cleared(ks))
    requires forall i :: 0 <= i < |ks| ==> KindOf(ks[i]) == KindOf(ks[0])
    requires forall i :: 0 <= i < |r| ==> (r[i].1 <==> r[i].0 == ks[j])
    ensures Isolated(Flags(r))
  {
    assert Keys(r)[j] == ks[j];
    assert r[j].1;
    assert OneKind(r) by {
      forall i | 0 <= i < |r| ensures KindOf(r[i].0) == KindOf(r[0].0) {
        assert Keys(r)[i] == ks[i] && Keys(r)[0] == ks[0];
      }
    }
    assert DistinctKeys(r) by {
      forall a, b | 0 <= a < b < |r| ensures r[a].0 != r[b].0 {
        assert Cleared(ks)[a].0 == ks[a] && Cleared(ks)[b].0 == ks[b];
      }
    }
  }

  /** Only turning the duration key off clears the shown value. */
  lemma ClearsOnDurationOff(cols: CheckCols, k: Key)
    ensures NextCols(cols, k).clearValue ==> k == Duration && cols.Flags? && Get(cols.flags, Duration) == Some(true)
  {
  }

  /** Turning off the last key that is on resets `cols` to undefined. */
  lemma LastOffResets(flags: Rec<Key, bool>, j: nat)
    requires DistinctKeys(flags) && j < |flags|
    requires forall i :: 0 <= i < |flags| ==> (flags[i].1 <==> i == j)
    ensures Flip(flags, flags[j].0).cols == Unset
  {
    GetAt(flags, j);
    PutPresent(flags, j, false);
    var next := flags[j := (flags[j].0, false)];
    assert AllOff(next) by {
      forall i | 0 <= i < |next| ensures !next[i].1 {
        if i != j { assert next[i] == flags[i]; }
      }
    }
  }

  /** The check row editor: the predicate's `cols` and the value the editor shows. */
  class CheckRowEditor {
    var cols: CheckCols
    var shownValue: string

    constructor(cols: CheckCols, value: string)
      ensures this.cols == cols && shownValue == value
    {
      this.cols := cols;
      shownValue := value;
    }

    /** `colChange(k)`: the first click builds the key set, later clicks flip a key. */
    method ColChange(k: Key)
      modifies this
      ensures cols == NextCols(old(cols), k).cols
      ensures shownValue == if NextCols(old(cols), k).clearValue then "" else old(shownValue)
    {
      match cols
      case Unset =>
        var newCols := StartCols(k);
        UnsetClick(k);
        cols := Flags(newCols);
      case Listed(_) =>
        NoClick(cols, k);
      case Flags(flags) =>
        if !(flags != [] && KindOf(k) == KindOf(flags[0].0)) {
          NoClick(cols, k);
        } else {
          var v := Get(flags, k) != Some(true);
          var newCols := Put(flags, k, v);
          FlipParts(flags, k, v, newCols);
          if k == Duration && !v {
            shownValue := "";
          }
          cols := if AllOff(newCols) then Unset else Flags(newCols);
        }
    }
  }

  /** The first click builds the start set and keeps the shown value. */
  lemma UnsetClick(k: Key)
    ensures NextCols(Unset, k) == KeyClick(Flags(Start(k)), false)
  {
  }

  /** A click on a key list, or on a key of another kind, changes nothing. */
  lemma NoClick(cols: CheckCols, k: Key)
    requires cols.Listed? || (cols.Flags? && (cols.flags == [] || KindOf(k) != KindOf(cols.flags[0].0)))
    ensures NextCols(cols, k) == KeyClick(cols, false)
  {
  }

  /** A click on a key of the set's kind, with the flipped value and the new set named. */
  lemma FlipParts(flags: Rec<Key, bool>, k: Key, v: bool, newCols: Rec<Key, bool>)
    requires flags != [] && KindOf(k) == KindOf(flags[0].0)
    requires v == (Get(flags, k) != Some(true)) && newCols == Put(flags, k, v)
    ensures NextCols(Flags(flags), k) == KeyClick(if AllOff(newCols) then Unset else Flags(newCols), k == Duration && !v)
  {
  }

  lemma ClearedStep(ks: seq<Key>, i: nat)
    requires i < |ks| && forall a, b :: 0 <= a < b < |ks| ==> ks[a] != ks[b]
    ensures Put(Cleared(ks[..i]), ks[i], false) == Cleared(ks[..i + 1])
  {
    var c := Cleared(ks[..i]);
    assert ks[i] !in Keys(c) by {
      forall a | 0 <= a < i ensures Keys(c)[a] != ks[i] {
        assert Keys(c)[a] == ks[a];
      }
    }
    PutAbsent(c, ks[i], false);
    ClearedSnoc(ks, i);
  }

  lemma ClearedSnoc(ks: seq<Key>, i: nat)
    requires i < |ks|
    ensures Cleared(ks[..i]) + [(ks[i], false)] == Cleared(ks[..i + 1])
  {
    var c := Cleared(ks[..i]);
    var d := Cleared(ks[..i + 1]);
    assert |d| == i + 1;
    forall a | 0 <= a <= i ensures d[a] == (c + [(ks[i], false)])[a] {
      assert d[a] == (ks[a], false);
      if a < i { assert c[a] == (ks[a], false); }
    }
  }

  /** The first click's `forEach` over the keys of `k`'s kind, then `newCols[k] = true`. */
  method StartCols(k: Key) returns (newCols: Rec<Key, bool>)
    ensures newCols == Start(k)
  {
    var ks := KeysOfKind(KindOf(k));
    newCols := [];
    for i := 0 to |ks|
      invariant newCols == Cleared(ks[..i])
    {
      ClearedStep(ks, i);
      newCols := Put(newCols, ks[i], false);
    }
    assert ks[..|ks|] == ks;
    newCols := Put(newCols, k, true);
  }

  // ---------------------------------------------------------------------------
  // Check row: the duration value as text
  // ---------------------------------------------------------------------------

  /** What the time field shows for a check value: `value.slice(2, -1).replace(/\D+/g, ":")`. */
  function TimeText(value: string): string {
    ReplaceNonDigitRuns(Slice(value, 2, -1), ":")
  }

  /** `parts[i]` in string concatenation: `"undefined"` past the end. */
  function Part(parts: seq<string>, i: nat): string {
    if i < |parts| then parts[i] else "undefined"
  }

  /** The check value the time field writes: `"PT" + parts[0] + "H" + parts[1] + "M" + parts[2] + "S"`. */
  function DurationValue(nv: string): string {
    var parts := Split(nv, ':');
    "PT" + Part(parts, 0) + "H" + Part(parts, 1) + "M" + Part(parts, 2) + "S"
  }

  lemma {:induction false} SplitDigits(a: string, rest: string)
    requires AllDigits(a)
    ensures Split(a + [':'] + rest, ':') == [a] + Split(rest, ':')
    ensures Split(a, ':') == [a]
    decreases |a|
  {
    if a != [] {
      assert (a + [':'] + rest)[1..] == a[1..] + [':'] + rest;
      SplitDigits(a[1..], rest);
      assert [a[0]] + a[1..] == a;
    } else {
      assert ([] + [':'] + rest)[1..] == rest;
    }
  }

  lemma {:induction false} ReplaceKeepsDigits(d: string, rest: string, rep: string)
    requires AllDigits(d)
    ensures ReplaceNonDigitRuns(d + rest, rep) == d + ReplaceNonDigitRuns(rest, rep)
    decreases |d|
  {
    if d != [] {
      assert IsDigit(d[0]);
      ConsRegroup(d, rest);
      ReplaceDigitFront(d[0], d[1..] + rest, rep);
      ReplaceKeepsDigits(d[1..], rest, rep);
      ConsRegroup(d, ReplaceNonDigitRuns(rest, rep));
    } else {
      assert d + rest == rest;
    }
  }

  /** A digit in front is copied. */
  lemma ReplaceDigitFront(c: char, t: string, rep: string)
    requires IsDigit(c)
    ensures ReplaceNonDigitRuns([c] + t, rep) == [c] + ReplaceNonDigitRuns(t, rep)
  {
    assert ([c] + t)[1..] == t;
  }

  lemma ConsRegroup<T>(d: seq<T>, x: seq<T>)
    requires d != []
    ensures d + x == [d[0]] + (d[1..] + x)
  {
    assert d == [d[0]] + d[1..];
  }

  lemma ReplaceOneLetter(c: char, rest: string, rep: string)
    requires !IsDigit(c) && (rest == [] || IsDigit(rest[0]))
    ensures ReplaceNonDigitRuns([c] + rest, rep) == rep + ReplaceNonDigitRuns(rest, rep)
  {
    assert ([c] + rest)[1..] == rest;
    assert SkipNonDigits(rest) == rest;
  }

  /** The parts of `h:m:s` are `h`, `m` and `s`. */
  lemma SplitTime(h: string, m: string, s: string)
    requires AllDigits(h) && AllDigits(m) && AllDigits(s)
    ensures Split(h + ":" + m + ":" + s, ':') == [h, m, s]
  {
    SplitDigits(h, m + ":" + s);
    assert h + ":" + m + ":" + s == h + [':'] + (m + ":" + s);
    SplitDigits(m, s);
    assert m + ":" + s == m + [':'] + s;
    SplitDigits(s, "");
  }

  lemma ReplaceMinutes(m: string, s: string)
    requires AllDigits(m) && AllDigits(s)
    ensures ReplaceNonDigitRuns(m + (['M'] + s), ":") == m + (":" + s)
  {
    ReplaceKeepsDigits(s, "", ":");
    assert s + "" == s;
    ReplaceOneLetter('M', s, ":");
    ReplaceKeepsDigits(m, ['M'] + s, ":");
  }

  lemma ReplaceParts(h: string, m: string, s: string)
    requires AllDigits(h) && AllDigits(m) && AllDigits(s) && m != []
    ensures ReplaceNonDigitRuns(h + (['H'] + (m + (['M'] + s))), ":") == h + (":" + (m + (":" + s)))
  {
    var t2 := m + (['M'] + s);
    ReplaceMinutes(m, s);
    assert t2[0] == m[0];
    ReplaceOneLetter('H', t2, ":");
    ReplaceKeepsDigits(h, ['H'] + t2, ":");
  }

  lemma Regroup(h: string, m: string, s: string)
    ensures h + "H" + m + "M" + s == h + (['H'] + (m + (['M'] + s)))
    ensures h + ":" + m + ":" + s == h + (":" + (m + (":" + s)))
  {
  }

  /** The text between `PT` and `S` of a written value reads back with `:` between the parts. */
  lemma ReplaceTime(h: string, m: string, s: string)
    requires AllDigits(h) && AllDigits(m) && AllDigits(s) && m != []
    ensures ReplaceNonDigitRuns(h + "H" + m + "M" + s, ":") == h + ":" + m + ":" + s
  {
    Regroup(h, m, s);
    ReplaceParts(h, m, s);
  }

  /**
   * For digit-only `h`, `m`, `s` with `m` non-empty, the value written for `h:m:s`
   * reads back as `h:m:s`.
   */
  lemma DurationRoundTrip(h: string, m: string, s: string)
    requires AllDigits(h) && AllDigits(m) && AllDigits(s) && m != []
    ensures TimeText(DurationValue(h + ":" + m + ":" + s)) == h + ":" + m + ":" + s
  {
    SplitTime(h, m, s);
    var mid := h + "H" + m + "M" + s;
    var value := DurationValue(h + ":" + m + ":" + s);
    assert value == "PT" + mid + "S";
    assert Slice(value, 2, -1) == mid by {
      assert value[2..|value| - 1] == mid;
    }
    ReplaceTime(h, m, s);
  }

  // ---------------------------------------------------------------------------
  // Sort row: the key list
  // ---------------------------------------------------------------------------

  predicate NoDuplicates<T(==)>(s: seq<T>) {
    forall i, j :: 0 <= i < j < |s| ==> s[i] != s[j]
  }

  /** The catalogue keys, in catalogue order, that are in `cols` (`member`) or not in it. */
  function CatalogueKeys(cols: seq<Key>, member: bool): (ks: seq<Key>)
    ensures NoDuplicates(ks) && IsSubseq(ks, AllKeys())
    ensures forall k :: k in ks <==> (k in cols) == member
  {
    KeysIn(AllKeys(), cols, member)
  }

  function KeysIn(s: seq<Key>, cols: seq<Key>, member: bool): (ks: seq<Key>)
    ensures forall k :: k in ks <==> k in s && (k in cols) == member
    ensures NoDuplicates(s) ==> NoDuplicates(ks)
    ensures IsSubseq(ks, s)
    decreases |s|
  {
    if s == [] then []
    else
      var rest := KeysIn(s[1..], cols, member);
      assert NoDuplicates(s) ==> s[0] !in s[1..];
      if (s[0] in cols) == member then
        assert ([s[0]] + rest)[1..] == rest;
        [s[0]] + rest
      else rest
  }

  /** The keys the "+" menu offers: `PlItemKeys.filter((k) => !cols.includes(k))`. */
  function Offered(cols: seq<Key>): (ks: seq<Key>)
    ensures forall k :: k in ks <==> k !in cols
  {
    CatalogueKeys(cols, false)
  }

  /** The sort row editor; `cols` is both the editor's list and `sort.cols`, one array. */
  class SortRowEditor {
    var cols: seq<Key>

    /** `PlItemKeys.filter((k) => sort.cols?.includes(k) ?? false)`. */
    constructor(sortCols: Option<seq<Key>>)
      ensures forall k :: k in cols <==> sortCols.Some? && k in sortCols.value
      ensures NoDuplicates(cols) && IsSubseq(cols, AllKeys())
    {
      cols := CatalogueKeys(if sortCols.Some? then sortCols.value else [], true);
    }

    /** A menu item's click: `cols.push(k)`, for a key the menu offers. */
    method Add(k: Key)
      requires k in Offered(cols)
      modifies this
      ensures cols == old(cols) + [k]
      ensures NoDuplicates(old(cols)) ==> NoDuplicates(cols)
    {
      cols := cols + [k];
    }

    /** A tag's close button: `cols.splice(i, 1)`. */
    method Close(i: nat)
      requires i < |cols|
      modifies this
      ensures cols == old(cols)[..i] + old(cols)[i + 1..]
      ensures NoDuplicates(old(cols)) ==> NoDuplicates(cols) && old(cols)[i] !in cols
    {
      CloseKeepsOthers(cols, i);
      cols := cols[..i] + cols[i + 1..];
    }
  }

  /** Closing tag `i` of a duplicate-free list removes its key and keeps every other key. */
  lemma CloseKeepsOthers(cols: seq<Key>, i: nat)
    requires i < |cols|
    ensures NoDuplicates(cols) ==> NoDuplicates(cols[..i] + cols[i + 1..]) && cols[i] !in cols[..i] + cols[i + 1..]
    ensures forall k :: k in cols && k != cols[i] ==> k in cols[..i] + cols[i + 1..]
  {
    var r := cols[..i] + cols[i + 1..];
    forall k | k in cols && k != cols[i] ensures k in r {
      var j :| 0 <= j < |cols| && cols[j] == k;
      if j < i { assert r[j] == k; } else { assert r[j - 1] == k; }
    }
    if NoDuplicates(cols) {
      forall a, b | 0 <= a < b < |r| ensures r[a] != r[b] {
        var a' := if a < i then a else a + 1;
        var b' := if b < i then b else b + 1;
        assert r[a] == cols[a'] && r[b] == cols[b'];
      }
      forall j | 0 <= j < |r| ensures r[j] != cols[i] {
        var j' := if j < i then j else j + 1;
        assert r[j] == cols[j'];
      }
    }
  }

  // ---------------------------------------------------------------------------
  // Search row: the column menu
  // ---------------------------------------------------------------------------

  /** The search row editor: one [key, selected] pair per catalogue key, and `search.cols`. */
  class SearchRowEditor {
    var flags: seq<(Key, bool)>
    /** `search.cols`, undefined until the first click. */
    var cols: Option<seq<Key>>

    /** `PlItemKeys.map((k) => [k, search.cols?.includes(k) ?? false])`; `search.cols` is left as it is. */
    constructor(searchCols: Option<seq<Key>>)
      ensures Names(flags) == AllKeys()
      ensures forall i :: 0 <= i < |flags| ==> (flags[i].1 <==> searchCols.Some? && flags[i].0 in searchCols.value)
      ensures cols == searchCols
    {
      var ks := AllKeys();
      flags := seq(|ks|, i requires 0 <= i < |ks| => (ks[i], searchCols.Some? && ks[i] in searchCols.value));
      cols := searchCols;
    }

    /** `colChange(i)`: flip entry `i` and write the selected keys, in catalogue order, to `search.cols`. */
    method ColChange(i: nat)
      requires i < |flags|
      modifies this
      ensures flags == ToggleAt(old(flags), i)
      ensures cols == Some(Chosen(flags))
    {
      flags := ToggleAt(flags, i);
      cols := Some(Chosen(flags));
    }
  }

  // ---------------------------------------------------------------------------
  // Random-select row: the count field
  // ---------------------------------------------------------------------------

  /** The count a number-field edit stores: `parseInt(v === "" ? "0" : v)`, or nothing for `NaN`. */
  function CountUpdate(text: string): Option<int> {
    ParseInt(if text == "" then "0" else text)
  }

  /** An empty field stores 0, digits store their value, and text without digits stores nothing. */
  lemma CountUpdateCases(text: string)
    ensures text == "" ==> CountUpdate(text) == Some(0)
    ensures AllDigits(text) && text != "" && !(|text| >= 2 && text[0] == '0' && (text[1] == 'x' || text[1] == 'X')) ==>
      CountUpdate(text) == Some(DecimalValue(text))
    ensures text != "" && !IsStrWhiteSpace(text[0]) && !IsDigit(text[0]) && text[0] != '-' && text[0] != '+' ==>
      CountUpdate(text) == None
  {
    if text == "" {
      ParseIntOfNatToString(0);
      assert NatToString(0) == "0";
    }
    if AllDigits(text) && text != "" && !(|text| >= 2 && text[0] == '0' && (text[1] == 'x' || text[1] == 'X')) {
      assert text + "" == text;
      ParseIntOfDigits(text, "");
    }
    if text != "" && !IsStrWhiteSpace(text[0]) && !IsDigit(text[0]) && text[0] != '-' && text[0] != '+' {
      ParseIntNoDigits(text);
    }
  }

  /** The random-select row editor: the stored `selectCount` and the text the field shows. */
  class RandomSelectEditor {
    var selectCount: int
    var countText: string

    constructor(selectCount: int)
      ensures this.selectCount == selectCount && countText == IntToString(selectCount)
    {
      this.selectCount := selectCount;
      countText := IntToString(selectCount);
    }

    /** `onValueChange`: a `NaN` parse leaves both alone. */
    method CountChange(text: string)
      modifies this
      ensures CountUpdate(text).None? ==> selectCount == old(selectCount) && countText == old(countText)
      ensures CountUpdate(text).Some? ==> selectCount == CountUpdate(text).value && countText == text
    {
      var n := ParseInt(if text == "" then "0" else text);
      if n.None? { return; }
      selectCount := n.value;
      countText := text;
    }
  }

  // ---------------------------------------------------------------------------
  // The row menu
  // ---------------------------------------------------------------------------

  /** The "Regex" item: `rowItem.filter.regex = !rowItem.filter.regex`. */
  function FlipRegex(row: Row): Row
    requires row.op.FilterOp? && row.op.filter.Search?
  {
    row.(op := row.op.(filter := row.op.filter.(regex := !row.op.filter.regex)))
  }

  /** The "Exclude" item: `rowItem.not = !rowItem.not`. */
  function FlipNot(row: Row): Row
    requires row.op.FilterOp?
  {
    row.(op := row.op.(not := !row.op.not))
  }

  /** The "Reverse" item: `rowItem.rev = !rowItem.rev`. */
  function FlipRev(row: Row): Row
    requires row.op.OrderOp?
  {
    row.(op := row.op.(rev := !row.op.rev))
  }

  /** The row `rid` of column `c` replaced by `row`. */
  function WithRow(columns: Rec<string, Column>, c: string, col: Column, rid: string, row: Row): Rec<string, Column> {
    Put(columns, c, col.(rows := Put(col.rows, rid, row)))
  }

  /**
   * A menu flag flips one boolean of one row: every other field of the row, every other
   * row and every other column stay as they were.
   */
  lemma FlipsChangeOneField(columns: Rec<string, Column>, c: string, col: Column, rid: string, row: Row)
    requires Get(columns, c) == Some(col) && Get(col.rows, rid) == Some(row)
    ensures row.op.FilterOp? && row.op.filter.Search? ==>
      var r := FlipRegex(row);
      r.op.filter.regex == !row.op.filter.regex &&
      r.op.filter.cols == row.op.filter.cols && r.op.filter.search == row.op.filter.search &&
      r.op.not == row.op.not && r.index == row.index
    ensures row.op.FilterOp? ==>
      FlipNot(row).op.not == !row.op.not && FlipNot(row).op.filter == row.op.filter && FlipNot(row).index == row.index
    ensures row.op.OrderOp? ==>
      FlipRev(row).op.rev == !row.op.rev && FlipRev(row).op.order == row.op.order && FlipRev(row).index == row.index
    ensures forall r: Row, c' :: c' != c ==> Get(WithRow(columns, c, col, rid, r), c') == Get(columns, c')
    ensures forall r: Row, rid' :: rid' != rid ==>
      Get(Get(WithRow(columns, c, col, rid, r), c).value.rows, rid') == Get(col.rows, rid')
    ensures forall r: Row ::
      (Keys(WithRow(columns, c, col, rid, r)) == Keys(columns) &&
       Keys(Get(WithRow(columns, c, col, rid, r), c).value.rows) == Keys(col.rows))
  {
  }

  // ---------------------------------------------------------------------------
  // The row menu as written: the component's own `rowItem`
  // ---------------------------------------------------------------------------

  /** The menu items that flip a flag. */
  datatype MenuItem = RegexItem | ExcludeItem | ReverseItem

  /** The item is on this row's menu: "Regex" for a search filter, "Exclude" for any filter, "Reverse" for an order. */
  predicate OnMenu(row: Row, item: MenuItem) {
    match item
    case RegexItem => row.op.FilterOp? && row.op.filter.Search?
    case ExcludeItem => row.op.FilterOp?
    case ReverseItem => row.op.OrderOp?
  }

  /** A click that flips the field on the row it is given. */
  function ApplyItem(row: Row, item: MenuItem): Row
    requires OnMenu(row, item)
  {
    match item
    case RegexItem => FlipRegex(row)
    case ExcludeItem => FlipNot(row)
    case ReverseItem => FlipRev(row)
  }

  /**
   * EditorRow's `rowItem` state: at first the document's own row object; after a click,
   * the shallow copy `{ ...rowItem }` that `reloadRow` keeps, with its own `not` (or `rev`)
   * and `index`, sharing the filter (or order) object with the document.
   */
  datatype RowState = Shared | Copied(flag: bool, index: int)

  /** The `not` of a filter, the `rev` of an order. */
  function OpFlag(op: Op): bool {
    if op.FilterOp? then op.not else op.rev
  }

  function WithFlag(op: Op, b: bool): Op {
    if op.FilterOp? then op.(not := b) else op.(rev := b)
  }

  /** The row `rowItem` stands for: the document's row, with the copy's own fields once there is a copy. */
  function SeenRow(row: Row, st: RowState): Row {
    match st
    case Shared => row
    case Copied(flag, index) => Row(WithFlag(row.op, flag), index)
  }

  /**
   * A click as written: flip the field on `rowItem`, store `rowItem` as the document's
   * row, keep a copy of it as the new state. Given the document's row before the click.
   */
  function MenuClick(row: Row, st: RowState, item: MenuItem): (Row, RowState)
    requires OnMenu(row, item)
  {
    var r := ApplyItem(SeenRow(row, st), item);
    (r, Copied(OpFlag(r.op), r.index))
  }

  /** The state agrees with the document's row: it is that row, or a copy holding the row's own flag and index. */
  predicate InSync(row: Row, st: RowState) {
    st.Shared? || (st.flag == OpFlag(row.op) && st.index == row.index)
  }

  /**
   * While nothing else has changed the document's row, a click as written is the
   * click on the document's row, and the copy it keeps is in sync with what it wrote.
   */
  lemma MenuClickInSync(row: Row, st: RowState, item: MenuItem)
    requires OnMenu(row, item) && InSync(row, st)
    ensures MenuClick(row, st, item).0 == ApplyItem(row, item)
    ensures InSync(MenuClick(row, st, item).0, MenuClick(row, st, item).1)
  {
    assert SeenRow(row, st) == row by {
      if st.Copied? {
        assert WithFlag(row.op, OpFlag(row.op)) == row.op;
      }
    }
  }

  /**
   * Once there is a copy, a click writes back the copy's own `index` and flag, whatever
   * the document's row holds by then: "Exclude" and "Reverse" store the negation of the
   * copy's flag, "Regex" stores it unchanged.
   */
  lemma MenuClickWritesCopy(row: Row, st: RowState, item: MenuItem)
    requires OnMenu(row, item) && st.Copied?
    ensures MenuClick(row, st, item).0.index == st.index
    ensures item != RegexItem ==> OpFlag(MenuClick(row, st, item).0.op) == !st.flag
    ensures item == RegexItem ==> OpFlag(MenuClick(row, st, item).0.op) == st.flag
  {
  }

  lemma RemoveFirstOfThree<V>(a: string, x: V, b: string, y: V, c: string, z: V)
    requires a != b && a != c
    ensures Remove([(a, x), (b, y), (c, z)], a) == [(b, y), (c, z)]
  {
    assert [(a, x), (b, y), (c, z)][1..] == [(b, y), (c, z)];
    assert [(b, y), (c, z)][1..] == [(c, z)];
    assert [(c, z)][1..] == [];
  }

  lemma PutLastOfTwo<V>(b: string, y: V, c: string, z: V, z': V)
    requires b != c
    ensures Put([(b, y), (c, z)], c, z') == [(b, y), (c, z')]
  {
    assert [(b, y), (c, z)][1..] == [(c, z)];
  }

  lemma PutLastOfThree<V>(a: string, x: V, b: string, y: V, c: string, z: V, z': V)
    requires a != c && b != c
    ensures Put([(a, x), (b, y), (c, z)], c, z') == [(a, x), (b, y), (c, z')]
  {
    assert [(a, x), (b, y), (c, z)][1..] == [(b, y), (c, z)];
    PutLastOfTwo(b, y, c, z, z');
  }

  /**
   * The stale copy brings a deleted index back. Rows a, b, c have index 0, 1, 2; "Exclude"
   * on c; "Delete..." on a renumbers b to 0 and c to 1; "Exclude" on c again stores the
   * copy's index 2, so with two rows left a "+Filter" row (index = number of rows) gets 2 as
   * well. The click on the document's own row keeps index 1.
   */
  lemma StaleIndexReturns(op: Op)
    requires op.FilterOp?
    ensures var rows0 := [("a", Row(op, 0)), ("b", Row(op, 1)), ("c", Row(op, 2))];
      var m1 := MenuClick(Row(op, 2), Shared, ExcludeItem);
      var rows1 := Put(rows0, "c", m1.0);
      var rows2 := Renumbered(Remove(rows1, "a"), RowWithIndex);
      rows2 == [("b", Row(op, 0)), ("c", Row(m1.0.op, 1))] &&
      MenuClick(Row(m1.0.op, 1), m1.1, ExcludeItem).0.index == 2 &&
      ApplyItem(Row(m1.0.op, 1), ExcludeItem).index == 1 &&
      !InSync(Row(m1.0.op, 1), m1.1)
  {
    var rows0 := [("a", Row(op, 0)), ("b", Row(op, 1)), ("c", Row(op, 2))];
    var m1 := MenuClick(Row(op, 2), Shared, ExcludeItem);
    PutLastOfThree("a", Row(op, 0), "b", Row(op, 1), "c", Row(op, 2), m1.0);
    RemoveFirstOfThree("a", Row(op, 0), "b", Row(op, 1), "c", m1.0);
  }

  /** EditorRow's flag items on row `rid` of column `c` of `doc`, with their `rowItem` state. */
  class RowMenu {
    const doc: Document
    const c: string
    const rid: string
    var state: RowState

    /** `useState(items.columns[column].rows[row])`: the state starts as the document's own row. */
    constructor(doc: Document, c: string, rid: string)
      ensures this.doc == doc && this.c == c && this.rid == rid && state == Shared
    {
      this.doc := doc;
      this.c := c;
      this.rid := rid;
      state := Shared;
    }

    /** A click on "Regex", "Exclude" or "Reverse", then `reloadRow`, as written. */
    method Click(item: MenuItem)
      requires Get(doc.columns, c).Some? && Get(Get(doc.columns, c).value.rows, rid).Some?
      requires OnMenu(Get(Get(doc.columns, c).value.rows, rid).value, item)
      modifies this, doc
      ensures var col := Get(old(doc.columns), c).value;
        var m := MenuClick(Get(col.rows, rid).value, old(state), item);
        doc.columns == WithRow(old(doc.columns), c, col, rid, m.0) && state == m.1
    {
      var col := Get(doc.columns, c).value;
      var r := ApplyItem(SeenRow(Get(col.rows, rid).value, state), item);
      doc.columns := WithRow(doc.columns, c, col, rid, r);
      state := Copied(OpFlag(r.op), r.index);
    }
  }

  /** `Object.values(r).forEach((v, i) => (v.index = i))`, for rows and for columns alike. */
  method Renumber<V>(r0: Rec<string, V>, withIndex: (V, nat) -> V) returns (r: Rec<string, V>)
    ensures r == Renumbered(r0, withIndex)
  {
    r := r0;
    for i := 0 to |r|
      invariant |r| == |r0|
      invariant forall j :: 0 <= j < i ==> r[j] == (r0[j].0, withIndex(r0[j].1, j))
      invariant forall j :: i <= j < |r| ==> r[j] == r0[j]
    {
      r := r[i := (r[i].0, withIndex(r[i].1, i))];
    }
  }

  /** `delete rows[row]` followed by the renumbering of the column's rows. */
  method DeleteAndRenumber(doc: Document, c: string, rid: string)
    requires Get(doc.columns, c).Some?
    modifies doc
    ensures var col := Get(old(doc.columns), c).value;
      doc.columns == Put(old(doc.columns), c, col.(rows := Renumbered(Remove(col.rows, rid), RowWithIndex)))
  {
    var col := Get(doc.columns, c).value;
    var rows := Renumber(Remove(col.rows, rid), RowWithIndex);
    doc.columns := Put(doc.columns, c, col.(rows := rows));
  }

  /**
   * After a delete with renumbering the column holds every other row, in its order,
   * with `index` values 0 to n-1 and nothing else changed.
   */
  lemma RenumberedRows(rows: Rec<string, Row>, rid: string)
    requires DistinctKeys(rows)
    ensures var r := Renumbered(Remove(rows, rid), RowWithIndex);
      Get(r, rid) == None &&
      (forall k :: k != rid && k in Keys(rows) ==> k in Keys(r)) &&
      IsSubseq(Keys(r), Keys(rows)) &&
      (forall i :: 0 <= i < |r| ==> r[i].1.index == i) &&
      (forall k :: k != rid && k in Keys(rows) ==> Get(r, k).value.op == Get(rows, k).value.op)
  {
    var rem := Remove(rows, rid);
    var r := Renumbered(rem, RowWithIndex);
    RenumberedKeys(rem, RowWithIndex);
    KeysOfSubseq(rem, rows);
    forall k | k != rid && k in Keys(rows) ensures k in Keys(r) && Get(r, k).value.op == Get(rows, k).value.op {
      RenumberedRowAt(rows, rid, k);
    }
  }

  /** One remaining row after the delete: present, with its operation unchanged. */
  lemma RenumberedRowAt(rows: Rec<string, Row>, rid: string, k: string)
    requires DistinctKeys(rows) && k != rid && k in Keys(rows)
    ensures var r := Renumbered(Remove(rows, rid), RowWithIndex);
      k in Keys(r) && Get(r, k).value.op == Get(rows, k).value.op
  {
    var rem := Remove(rows, rid);
    assert Get(rem, k) == Get(rows, k);
    var i := RenumberedAt(rem, RowWithIndex, k);
  }

  lemma {:induction false} KeysOfSubseq<K, V>(a: Rec<K, V>, b: Rec<K, V>)
    requires IsSubseq(a, b)
    ensures IsSubseq(Keys(a), Keys(b))
    decreases |b|
  {
    if a != [] && b != [] {
      assert Keys(a)[1..] == Keys(a[1..]) && Keys(b)[1..] == Keys(b[1..]);
      if a[0] == b[0] && IsSubseq(a[1..], b[1..]) {
        KeysOfSubseq(a[1..], b[1..]);
      } else {
        KeysOfSubseq(a, b[1..]);
      }
    }
  }
}
