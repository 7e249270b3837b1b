/**
 * The key-ordering rule shared by src/readthedocs_assistant/config.py and
 * src/readthedocs_assistant/io.py.  The YAML dumper sorts a mapping's items by
 * the position of their key in a fixed priority list; when some key is not in
 * the list, `list.index` raises `ValueError` and the mapping is handed to
 * PyYAML's default representer instead.  Everything here is parameterised by
 * the priority list, so both files instantiate the same definitions.
 */
module KeyOrder {
  import opened Wrappers

  /** One `(key, value)` pair of `dict.items()`. */
  type Item<V> = (string, V)

  /** How the dumper represents one mapping. */
  datatype Representation<V> =
    | Ordered(items: seq<Item<V>>)   // the custom order, passed to `represent_dict` as a list of pairs
    | DefaultOrder                   // `ValueError` was caught: PyYAML's own representer is used

  /** `keys.index(k)`: the position of the first occurrence of `k`. */
  function Rank(keys: seq<string>, k: string): (i: nat)
    requires k in keys
    ensures i < |keys| && keys[i] == k
    ensures forall j :: 0 <= j < i ==> keys[j] != k
  {
    if keys[0] == k then 0 else 1 + Rank(keys[1..], k)
  }

  /** The sort key of one item: its key's position, or `None` where Python raises `ValueError`. */
  function SortKey<V>(keys: seq<string>, item: Item<V>): (r: Option<nat>)
    ensures r.None? <==> item.0 !in keys
    ensures r.Some? ==> r.value < |keys| && keys[r.value] == item.0
    ensures r.Some? ==> forall j :: 0 <= j < r.value ==> keys[j] != item.0
  {
    if item.0 in keys then Some(Rank(keys, item.0)) else None
  }

  /** Every item has a sort key. */
  predicate Ranked<V>(keys: seq<string>, items: seq<Item<V>>) {
    forall i :: 0 <= i < |items| ==> items[i].0 in keys
  }

  /** Items appear in strictly increasing priority position. */
  predicate Ascending<V>(keys: seq<string>, items: seq<Item<V>>)
    requires Ranked(keys, items)
  {
    forall i, j :: 0 <= i < j < |items| ==> Rank(keys, items[i].0) < Rank(keys, items[j].0)
  }

  /** No key occurs twice, as in the items of a dictionary. */
  predicate DistinctKeys<V>(items: seq<Item<V>>) {
    forall i, j :: 0 <= i < j < |items| ==> items[i].0 != items[j].0
  }

  /** A priority list without repetitions. */
  predicate NoDuplicates(keys: seq<string>) {
    forall i, j :: 0 <= i < j < |keys| ==> keys[i] != keys[j]
  }

  /** Inserts `x` before the first item that does not rank strictly below it. */
  function Insert<V>(keys: seq<string>, x: Item<V>, s: seq<Item<V>>): (r: seq<Item<V>>)
    requires x.0 in keys && Ranked(keys, s)
    ensures multiset(r) == multiset(s) + multiset{x}
    ensures Ranked(keys, r)
    decreases |s|
  {
    if |s| == 0 then [x]
    else if Rank(keys, x.0) <= Rank(keys, s[0].0) then [x] + s
    else
      assert s == [s[0]] + s[1..];
      [s[0]] + Insert(keys, x, s[1..])
  }

  /** `sorted(items, key=...)` once every item has a key. */
  function Sort<V>(keys: seq<string>, items: seq<Item<V>>): (r: seq<Item<V>>)
    requires Ranked(keys, items)
    ensures multiset(r) == multiset(items)
    ensures Ranked(keys, r)
    decreases |items|
  {
    if |items| == 0 then []
    else
      assert items == [items[0]] + items[1..];
      Insert(keys, items[0], Sort(keys, items[1..]))
  }

  /** Distinct keys have distinct ranks. */
  lemma RankInjective(keys: seq<string>, a: string, b: string)
    requires a in keys && b in keys && a != b
    ensures Rank(keys, a) != Rank(keys, b)
  {
    assert keys[Rank(keys, a)] != keys[Rank(keys, b)];
  }

  /** An item ranked below every item of an ascending sequence can go in front of it. */
  lemma PrependAscending<V>(keys: seq<string>, y: Item<V>, t: seq<Item<V>>)
    requires y.0 in keys && Ranked(keys, t) && Ascending(keys, t)
    requires forall j :: 0 <= j < |t| ==> Rank(keys, y.0) < Rank(keys, t[j].0)
    ensures Ranked(keys, [y] + t) && Ascending(keys, [y] + t)
  {
    var r := [y] + t;
    forall i, j | 0 <= i < j < |r|
      ensures Rank(keys, r[i].0) < Rank(keys, r[j].0)
    {
      assert r[j] == t[j - 1];
      if i > 0 {
        assert r[i] == t[i - 1];
      }
    }
  }

  /** Every item of `Insert(keys, x, s)` is `x` or an item of `s`. */
  lemma InsertMembers<V>(keys: seq<string>, x: Item<V>, s: seq<Item<V>>, j: int)
    requires x.0 in keys && Ranked(keys, s)
    requires 0 <= j < |Insert(keys, x, s)|
    ensures Insert(keys, x, s)[j] == x || exists m :: 0 <= m < |s| && s[m] == Insert(keys, x, s)[j]
  {
    var r := Insert(keys, x, s);
    assert r[j] in multiset(r);
    if r[j] != x {
      assert r[j] in multiset(s);
    }
  }

  /** Inserting an item with a fresh key into an ascending sequence keeps it ascending. */
  lemma {:induction false} InsertAscending<V>(keys: seq<string>, x: Item<V>, s: seq<Item<V>>)
    requires x.0 in keys && Ranked(keys, s) && Ascending(keys, s)
    requires forall i :: 0 <= i < |s| ==> s[i].0 != x.0
    ensures Ascending(keys, Insert(keys, x, s))
    decreases |s|
  {
    if |s| == 0 {
    } else if Rank(keys, x.0) <= Rank(keys, s[0].0) {
      RankInjective(keys, x.0, s[0].0);
      PrependAscending(keys, x, s);
    } else {
      var tail := Insert(keys, x, s[1..]);
      InsertAscending(keys, x, s[1..]);
      forall j | 0 <= j < |tail|
        ensures Rank(keys, s[0].0) < Rank(keys, tail[j].0)
      {
        InsertMembers(keys, x, s[1..], j);
        if tail[j] != x {
          var m :| 0 <= m < |s[1..]| && s[1..][m] == tail[j];
          assert s[m + 1] == tail[j];
        }
      }
      PrependAscending(keys, s[0], tail);
    }
  }

  /** Sorting the items of a dictionary puts them in strictly ascending priority order. */
  lemma {:induction false} SortAscending<V>(keys: seq<string>, items: seq<Item<V>>)
    requires Ranked(keys, items) && DistinctKeys(items)
    ensures Ascending(keys, Sort(keys, items))
    decreases |items|
  {
    if |items| > 0 {
      var rest := Sort(keys, items[1..]);
      SortAscending(keys, items[1..]);
      forall j | 0 <= j < |rest|
        ensures rest[j].0 != items[0].0
      {
        assert rest[j] in multiset(items[1..]);
        var m :| 0 <= m < |items[1..]| && items[1..][m] == rest[j];
        assert items[m + 1] == rest[j];
      }
      InsertAscending(keys, items[0], rest);
    }
  }

  /** `represent_dict_custom_order`: sort by priority, or fall back when a key has no priority. */
  function RepresentDict<V>(keys: seq<string>, items: seq<Item<V>>): (r: Representation<V>)
    ensures r.DefaultOrder? <==> exists i :: 0 <= i < |items| && items[i].0 !in keys
    ensures r.Ordered? ==> multiset(r.items) == multiset(items)
    ensures r.Ordered? && DistinctKeys(items) ==> Ranked(keys, r.items) && Ascending(keys, r.items)
  {
    if !Ranked(keys, items) then DefaultOrder
    else if DistinctKeys(items) then
      SortAscending(keys, items);
      Ordered(Sort(keys, items))
    else Ordered(Sort(keys, items))
  }

  lemma HeadIsMember<T>(s: seq<T>)
    ensures |s| > 0 ==> s[0] in s
  {
  }

  /** In an ascending sequence the head does not recur in the tail. */
  lemma AscendingTail<V>(keys: seq<string>, a: seq<Item<V>>, y: Item<V>)
    requires Ranked(keys, a) && Ascending(keys, a) && |a| > 0
    ensures y in a[1..] <==> y in a && y != a[0]
  {
    assert a == [a[0]] + a[1..];
    if y in a[1..] {
      var i :| 0 <= i < |a[1..]| && a[1..][i] == y;
      assert a[i + 1] == y;
    }
  }

  /** Two ascending sequences holding the same items start with the same item. */
  lemma AscendingSameHead<V>(keys: seq<string>, a: seq<Item<V>>, b: seq<Item<V>>)
    requires Ranked(keys, a) && Ascending(keys, a)
    requires Ranked(keys, b) && Ascending(keys, b)
    requires forall y :: y in a <==> y in b
    requires |a| > 0
    ensures |b| > 0 && a[0] == b[0]
  {
    assert a[0] in a;
    var k :| 0 <= k < |b| && b[k] == a[0];
    assert b[0] in b;
    var m :| 0 <= m < |a| && a[m] == b[0];
  }

  /** Two ascending sequences holding the same items are the same sequence. */
  lemma {:induction false} AscendingUnique<V>(keys: seq<string>, a: seq<Item<V>>, b: seq<Item<V>>)
    requires Ranked(keys, a) && Ascending(keys, a)
    requires Ranked(keys, b) && Ascending(keys, b)
    requires forall y :: y in a <==> y in b
    ensures a == b
    decreases |a|
  {
    if |a| > 0 {
      AscendingSameHead(keys, a, b);
      forall y
        ensures y in a[1..] <==> y in b[1..]
      {
        AscendingTail(keys, a, y);
        AscendingTail(keys, b, y);
      }
      AscendingUnique(keys, a[1..], b[1..]);
      assert a == [a[0]] + a[1..] && b == [b[0]] + b[1..];
    } else {
      HeadIsMember(b);
    }
  }

  /**
   * The reference order: walk the priority list and emit each key the mapping
   * holds, at its first occurrence in the list.
   */
  function PriorityWalk<V(==)>(keys: seq<string>, m: map<string, V>): (r: seq<Item<V>>)
    ensures forall i :: 0 <= i < |r| ==> r[i].0 in keys && r[i].0 in m && m[r[i].0] == r[i].1
    decreases |keys|
  {
    if |keys| == 0 then []
    else
      var rest := PriorityWalk(keys[1..], m - {keys[0]});
      if keys[0] in m then [(keys[0], m[keys[0]])] + rest else rest
  }

  /** The walk emits every entry whose key is listed. */
  lemma {:induction false} PriorityWalkComplete<V>(keys: seq<string>, m: map<string, V>)
    ensures forall k :: k in m && k in keys ==> (k, m[k]) in PriorityWalk(keys, m)
    decreases |keys|
  {
    if |keys| > 0 {
      PriorityWalkComplete(keys[1..], m - {keys[0]});
      forall k | k in m && k in keys && k != keys[0]
        ensures k in keys[1..] && k in m - {keys[0]}
      {
        var i :| 0 <= i < |keys| && keys[i] == k;
        assert keys[1..][i - 1] == k;
      }
    }
  }

  /** The walk emits its entries in strictly increasing priority position. */
  lemma {:induction false} PriorityWalkAscending<V>(keys: seq<string>, m: map<string, V>)
    ensures Ranked(keys, PriorityWalk(keys, m)) && Ascending(keys, PriorityWalk(keys, m))
    decreases |keys|
  {
    if |keys| > 0 {
      var rest := PriorityWalk(keys[1..], m - {keys[0]});
      PriorityWalkAscending(keys[1..], m - {keys[0]});
      forall i | 0 <= i < |rest|
        ensures rest[i].0 in keys && Rank(keys, rest[i].0) == 1 + Rank(keys[1..], rest[i].0)
      {
        assert rest[i].0 != keys[0];
      }
      assert Ranked(keys, rest) && Ascending(keys, rest);
      if keys[0] in m {
        PrependAscending(keys, (keys[0], m[keys[0]]), rest);
      }
    }
  }

  /** `items` lists exactly the entries of `m`, each once, as `dict.items()` does. */
  predicate Enumerates<V(==)>(items: seq<Item<V>>, m: map<string, V>) {
    && DistinctKeys(items)
    && (forall i :: 0 <= i < |items| ==> items[i].0 in m && m[items[i].0] == items[i].1)
    && (forall k :: k in m ==> exists i :: 0 <= i < |items| && items[i].0 == k)
  }

  /**
   * Whatever order a dictionary's items come in, the custom representer emits
   * exactly the priority walk over its keys, or falls back when a key has no
   * priority: the emitted order depends on the mapping alone.
   */
  lemma RepresentDictIsPriorityWalk<V>(keys: seq<string>, items: seq<Item<V>>, m: map<string, V>)
    requires Enumerates(items, m)
    ensures (forall k :: k in m ==> k in keys) ==> RepresentDict(keys, items) == Ordered(PriorityWalk(keys, m))
    ensures (exists k :: k in m && k !in keys) ==> RepresentDict(keys, items) == DefaultOrder
  {
    if forall k :: k in m ==> k in keys {
      var sorted := Sort(keys, items);
      var walk := PriorityWalk(keys, m);
      SortAscending(keys, items);
      PriorityWalkComplete(keys, m);
      PriorityWalkAscending(keys, m);
      forall y
        ensures y in sorted <==> y in walk
      {
        assert y in sorted <==> y in multiset(items);
        if y in items {
          var i :| 0 <= i < |items| && items[i] == y;
        }
        if y in walk {
          var i :| 0 <= i < |items| && items[i].0 == y.0;
        }
      }
      AscendingUnique(keys, sorted, walk);
    } else {
      var k :| k in m && k !in keys;
      var i :| 0 <= i < |items| && items[i].0 == k;
    }
  }

  /** Representing an already ordered sequence of items again leaves it as it is. */
  lemma RepresentDictIdempotent<V>(keys: seq<string>, items: seq<Item<V>>)
    requires DistinctKeys(items)
    requires RepresentDict(keys, items).Ordered?
    ensures RepresentDict(keys, RepresentDict(keys, items).items) == RepresentDict(keys, items)
  {
    var once := RepresentDict(keys, items).items;
    forall i, j | 0 <= i < j < |once|
      ensures once[i].0 != once[j].0
    {
      assert Rank(keys, once[i].0) < Rank(keys, once[j].0);
    }
    SortAscending(keys, once);
    var twice := Sort(keys, once);
    forall y
      ensures y in twice <==> y in once
    {
      assert y in twice <==> y in multiset(once);
    }
    AscendingUnique(keys, twice, once);
  }

  /** With no repetitions in the priority list, each listed key is emitted at its own position. */
  lemma RankOfListedKey(keys: seq<string>, i: int)
    requires NoDuplicates(keys)
    requires 0 <= i < |keys|
    ensures Rank(keys, keys[i]) == i
  {
  }

  /** Any ascending arrangement of a dictionary's items is the one the representer emits. */
  lemma RepresentDictByExample<V>(keys: seq<string>, items: seq<Item<V>>, expected: seq<Item<V>>)
    requires DistinctKeys(items) && Ranked(keys, items)
    requires Ranked(keys, expected) && Ascending(keys, expected)
    requires forall y :: y in items <==> y in expected
    ensures RepresentDict(keys, items) == Ordered(expected)
  {
    var sorted := Sort(keys, items);
    SortAscending(keys, items);
    forall y
      ensures y in sorted <==> y in expected
    {
      assert y in sorted <==> y in multiset(items);
    }
    AscendingUnique(keys, sorted, expected);
  }

  /** Ascending order follows from ascending neighbours. */
  lemma {:induction false} AscendingFromNeighbours<V>(keys: seq<string>, items: seq<Item<V>>)
    requires Ranked(keys, items)
    requires forall i :: 0 < i < |items| ==> Rank(keys, items[i - 1].0) < Rank(keys, items[i].0)
    ensures Ascending(keys, items)
    decreases |items|
  {
    if |items| > 1 {
      var tail := items[1..];
      assert forall i :: 0 < i < |tail| ==> tail[i - 1] == items[i] && tail[i] == items[i + 1];
      AscendingFromNeighbours(keys, tail);
      assert Rank(keys, items[0].0) < Rank(keys, tail[0].0);
      assert items == [items[0]] + tail;
      PrependAscending(keys, items[0], tail);
    }
  }

  /** Items whose keys sit at increasing positions of a list without repetitions are ascending. */
  lemma AscendingAtPositions<V>(keys: seq<string>, items: seq<Item<V>>, positions: seq<int>)
    requires NoDuplicates(keys)
    requires |positions| == |items|
    requires forall i :: 0 <= i < |items| ==> 0 <= positions[i] < |keys| && keys[positions[i]] == items[i].0
    requires forall i :: 0 < i < |items| ==> positions[i - 1] < positions[i]
    ensures Ranked(keys, items) && Ascending(keys, items)
  {
    forall i | 0 <= i < |items|
      ensures items[i].0 in keys && Rank(keys, items[i].0) == positions[i]
    {
      RankOfListedKey(keys, positions[i]);
    }
    AscendingFromNeighbours(keys, items);
  }
}
