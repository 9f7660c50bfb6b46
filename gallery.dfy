/**
 * The list operations the galleries share: `Array.prototype.filter`,
 * `Array.from(new Set(xs))`, the "same id closes, another id opens"
 * toggle of a single selection, marking the items equal to a selection, and
 * the first-four truncation of a tag list with its "+k more" badge.
 */
module Gallery {
  import opened Wrappers

  // ----- filter -----

  /** `s.filter(p)`: the elements that pass, in their order. */
  function Filter<T>(s: seq<T>, p: T -> bool): (r: seq<T>)
    ensures |r| <= |s|
    ensures forall i :: 0 <= i < |r| ==> p(r[i]) && r[i] in s
    ensures forall i :: 0 <= i < |s| && p(s[i]) ==> s[i] in r
  {
    if |s| == 0 then []
    else if p(s[0]) then [s[0]] + Filter(s[1..], p)
    else Filter(s[1..], p)
  }

  /** `a` is `b` with some elements left out, the rest in their order. */
  predicate IsSubsequence<T(==)>(a: seq<T>, b: seq<T>)
    decreases |b|
  {
    |a| == 0 || (|b| > 0 && ((a[0] == b[0] && IsSubsequence(a[1..], b[1..])) || IsSubsequence(a, b[1..])))
  }

  lemma {:induction false} FilterSubsequence<T>(s: seq<T>, p: T -> bool)
    ensures IsSubsequence(Filter(s, p), s)
  {
    if |s| > 0 {
      FilterSubsequence(s[1..], p);
      if p(s[0]) {
        assert Filter(s, p)[1..] == Filter(s[1..], p);
      }
    }
  }

  /** Every element of `s` keeps its number of occurrences when it passes, and has none when it does not. */
  lemma {:induction false} FilterCount<T>(s: seq<T>, p: T -> bool, x: T)
    ensures multiset(Filter(s, p))[x] == if p(x) then multiset(s)[x] else 0
  {
    if |s| > 0 {
      FilterCount(s[1..], p, x);
      assert s == [s[0]] + s[1..];
      assert multiset(s) == multiset{s[0]} + multiset(s[1..]);
      if p(s[0]) {
        assert multiset(Filter(s, p)) == multiset{s[0]} + multiset(Filter(s[1..], p));
      }
    }
  }

  /** A list whose elements all pass is returned unchanged. */
  lemma {:induction false} FilterAll<T>(s: seq<T>, p: T -> bool)
    requires forall i :: 0 <= i < |s| ==> p(s[i])
    ensures Filter(s, p) == s
  {
    if |s| > 0 {
      FilterAll(s[1..], p);
    }
  }

  /** A list none of whose elements passes filters to nothing. */
  lemma {:induction false} FilterNone<T>(s: seq<T>, p: T -> bool)
    requires forall i :: 0 <= i < |s| ==> !p(s[i])
    ensures Filter(s, p) == []
  {
    if |s| > 0 {
      FilterNone(s[1..], p);
    }
  }

  /** Filtering twice by the same test filters once. */
  lemma FilterIdempotent<T>(s: seq<T>, p: T -> bool)
    ensures Filter(Filter(s, p), p) == Filter(s, p)
  {
    var r := Filter(s, p);
    assert forall i :: 0 <= i < |r| ==> r[i] in r;
    FilterAll(r, p);
  }

  // ----- distinct values in first-occurrence order -----

  predicate Distinct<T(==)>(s: seq<T>) {
    forall i, j :: 0 <= i < j < |s| ==> s[i] != s[j]
  }

  /** The position of the first occurrence of `x` in `s`, or `|s|` when there is none: `indexOf`. */
  function FirstIndex<T(==)>(s: seq<T>, x: T): (k: nat)
    ensures k <= |s| && (k < |s| <==> x in s)
    ensures k < |s| ==> s[k] == x
    ensures forall j :: 0 <= j < k ==> s[j] != x
  {
    if |s| == 0 then 0
    else if s[0] == x then 0
    else 1 + FirstIndex(s[1..], x)
  }

  /**
   * `Array.from(new Set(s))`: a Set keeps the order in which values were
   * first inserted, so each value appears once, where it first occurs.
   */
  function Dedup<T(==)>(s: seq<T>): seq<T> {
    if |s| == 0 then []
    else
      var r := Dedup(s[..|s| - 1]);
      if s[|s| - 1] in r then r else r + [s[|s| - 1]]
  }

  /** No value twice, and exactly the values of the list. */
  lemma {:induction false} DedupSpec<T>(s: seq<T>)
    ensures Distinct(Dedup(s))
    ensures forall i :: 0 <= i < |Dedup(s)| ==> Dedup(s)[i] in s
    ensures forall i :: 0 <= i < |s| ==> s[i] in Dedup(s)
  {
    if |s| > 0 {
      var init := s[..|s| - 1];
      DedupSpec(init);
      assert s == init + [s[|s| - 1]];
    }
  }

  /** An item occurring in a prefix is first found at the same position in the whole list. */
  lemma FirstIndexOfPrefix<T>(s: seq<T>, n: nat, x: T)
    requires n <= |s| && x in s[..n]
    ensures FirstIndex(s, x) == FirstIndex(s[..n], x)
  {
    var k := FirstIndex(s[..n], x);
    assert s[..n][k] == s[k];
    forall j | 0 <= j < k
      ensures s[j] != x
    {
      assert s[..n][j] == s[j];
    }
    FirstIndexIs(s, x, k);
  }

  /** A position holding `x` with no `x` before it is the first index of `x`. */
  lemma FirstIndexIs<T>(s: seq<T>, x: T, k: nat)
    requires k < |s| && s[k] == x
    requires forall j :: 0 <= j < k ==> s[j] != x
    ensures FirstIndex(s, x) == k
  {
  }

  /** The values of `Dedup(s)` are ordered by where they first occur in `s`. */
  lemma {:induction false} DedupOrder<T>(s: seq<T>)
    ensures forall i, j :: 0 <= i < j < |Dedup(s)| ==> FirstIndex(s, Dedup(s)[i]) < FirstIndex(s, Dedup(s)[j])
  {
    if |s| > 0 {
      var init, last := s[..|s| - 1], s[|s| - 1];
      var r0 := Dedup(init);
      DedupOrder(init);
      DedupSpec(init);
      assert s[..|s| - 1] == init;
      forall y | y in r0
        ensures FirstIndex(s, y) == FirstIndex(init, y) < |s| - 1
      {
        FirstIndexOfPrefix(s, |s| - 1, y);
      }
      if last !in r0 {
        assert FirstIndex(s, last) == |s| - 1;
      }
    }
  }

  // ----- a gallery's category filter and category buttons -----

  /** `s.map(key)`. */
  function Keys<T, K>(s: seq<T>, key: T -> K): (ks: seq<K>)
    ensures |ks| == |s| && forall i :: 0 <= i < |s| ==> ks[i] == key(s[i])
  {
    seq(|s|, i requires 0 <= i < |s| => key(s[i]))
  }

  /** `selected ? s.filter(x => key(x) === selected) : s`. */
  function Select<T, K(==)>(s: seq<T>, key: T -> K, selected: Option<K>): seq<T> {
    match selected
    case None => s
    case Some(k) => Filter(s, (x: T) => key(x) == k)
  }

  /**
   * No selection shows the whole list in order. A selection shows an
   * order-preserving part of the list holding every item with that key, as
   * often as the list does, and nothing else. Filtering the shown items again
   * changes nothing.
   */
  lemma SelectSpec<T, K>(s: seq<T>, key: T -> K, selected: Option<K>)
    ensures selected.None? ==> Select(s, key, selected) == s
    ensures IsSubsequence(Select(s, key, selected), s)
    ensures selected.Some? ==> forall i :: 0 <= i < |Select(s, key, selected)| ==>
      key(Select(s, key, selected)[i]) == selected.value
    ensures selected.Some? ==>
      forall x :: multiset(Select(s, key, selected))[x] == (if key(x) == selected.value then multiset(s)[x] else 0)
    ensures Select(Select(s, key, selected), key, selected) == Select(s, key, selected)
  {
    match selected
    case None =>
      SelfSubsequence(s);
    case Some(k) =>
      var p := (x: T) => key(x) == k;
      FilterSubsequence(s, p);
      FilterIdempotent(s, p);
      forall x: T
        ensures multiset(Select(s, key, selected))[x] == if key(x) == k then multiset(s)[x] else 0
      {
        FilterCount(s, p, x);
      }
  }

  lemma {:induction false} SelfSubsequence<T>(s: seq<T>)
    ensures IsSubsequence(s, s)
  {
    if |s| > 0 {
      SelfSubsequence(s[1..]);
    }
  }

  /** `Array.from(new Set(s.map(key)))`: the category buttons. */
  function DistinctKeys<T, K(==)>(s: seq<T>, key: T -> K): seq<K> {
    Dedup(Keys(s, key))
  }

  /**
   * The category buttons: no key twice, exactly the keys some item has,
   * ordered by the first item that has each.
   */
  lemma DistinctKeysSpec<T, K>(s: seq<T>, key: T -> K)
    ensures Distinct(DistinctKeys(s, key))
    ensures forall k :: k in DistinctKeys(s, key) <==> exists i :: 0 <= i < |s| && key(s[i]) == k
    ensures forall i, j :: 0 <= i < j < |DistinctKeys(s, key)| ==>
      FirstIndex(Keys(s, key), DistinctKeys(s, key)[i]) < FirstIndex(Keys(s, key), DistinctKeys(s, key)[j])
  {
    var ks := Keys(s, key);
    DedupSpec(ks);
    forall k | k in DistinctKeys(s, key)
      ensures exists i :: 0 <= i < |s| && key(s[i]) == k
    {
      var i := FirstIndex(ks, k);
      assert key(s[i]) == k;
    }
    DedupOrder(ks);
  }

  // ----- a single selection -----

  /** A click on item `id`: closes it when it is the selected one, selects it otherwise. */
  function Toggle(current: Option<string>, id: string): (next: Option<string>)
    ensures next.None? <==> current == Some(id)
    ensures next.Some? ==> next.value == id
  {
    if current == Some(id) then None else Some(id)
  }

  /** Clicking the same item twice from nothing selected, or from it selected, returns to the start. */
  lemma ToggleTwice(current: Option<string>, id: string)
    ensures current == None || current == Some(id) ==> Toggle(Toggle(current, id), id) == current
    ensures current.Some? && current != Some(id) ==> Toggle(Toggle(current, id), id) == None
  {
  }

  /** The positions of the items equal to the selection: those marked active, expanded or hovered. */
  function Positions<T(==)>(s: seq<T>, x: T): (r: set<nat>)
    ensures forall i :: i in r ==> i < |s|
    ensures forall i :: 0 <= i < |s| ==> (i in r <==> s[i] == x)
  {
    set i: nat | i < |s| && s[i] == x
  }

  /** With distinct items at most one is marked, and exactly one when the selection is an item. */
  lemma DistinctPositions<T>(s: seq<T>, x: T)
    requires Distinct(s)
    ensures |Positions(s, x)| <= 1
    ensures x in s ==> |Positions(s, x)| == 1
  {
    var r := Positions(s, x);
    if i :| i in r {
      assert r == {i};
    } else {
      assert r == {};
    }
  }

  /** A selection that is no item marks nothing. */
  lemma NoPositions<T>(s: seq<T>, x: T)
    requires x !in s
    ensures Positions(s, x) == {}
  {
  }

  // ----- tag truncation -----

  /** How many tags a card shows. */
  const MaxTags := 4

  /** `s.slice(0, 4)`: the longest prefix of at most four tags. */
  function Shown<T>(s: seq<T>): (r: seq<T>)
    ensures |r| <= MaxTags && r <= s
    ensures |r| == MaxTags || r == s
  {
    if |s| <= MaxTags then s else s[..MaxTags]
  }

  /** The `+k more` badge: `Some(k)` when the list is longer than four. */
  function More<T>(s: seq<T>): (k: Option<nat>)
    ensures k.Some? <==> |s| > MaxTags
  {
    if |s| > MaxTags then Some(|s| - MaxTags) else None
  }

  /** The shown tags and the badge account for every tag: nothing is lost or counted twice. */
  lemma TagsAccount<T>(s: seq<T>)
    ensures Shown(s) + s[|Shown(s)|..] == s
    ensures More(s).None? ==> Shown(s) == s
    ensures More(s).Some? ==> |Shown(s)| == MaxTags && |Shown(s)| + More(s).value == |s| && More(s).value > 0
  {
  }
}
