/**
 * Grouping rows by a key into a `Map` (or an object) of arrays, the way the
 * routes do it with a loop or a `reduce`: each row is pushed onto the list
 * of its key, and a key is added the first time one of its rows is seen, so
 * the keys keep the order of first appearance.
 */
module Grouping {

  /** The keys of the rows, each once, in order of first appearance. */
  function Keys<R, K(==)>(rows: seq<R>, key: R -> K): (ks: seq<K>)
    ensures forall i, j | 0 <= i < j < |ks| :: ks[i] != ks[j]
  {
    if |rows| == 0 then []
    else
      var init := Keys(rows[..|rows| - 1], key);
      var k := key(rows[|rows| - 1]);
      init + (if k in init then [] else [k])
  }

  /** The keys are exactly the keys of the rows. */
  lemma {:induction false} KeysMembers<R, K>(rows: seq<R>, key: R -> K, k: K)
    ensures k in Keys(rows, key) <==> exists i | 0 <= i < |rows| :: key(rows[i]) == k
    decreases |rows|
  {
    if |rows| > 0 {
      var init := rows[..|rows| - 1];
      KeysMembers(init, key, k);
      assert forall i | 0 <= i < |init| :: init[i] == rows[i];
    }
  }

  /** Keys are listed in order of first appearance: the keys of a prefix of the rows are a prefix of the keys. */
  lemma {:induction false} KeysInFirstSeenOrder<R, K>(rows: seq<R>, key: R -> K, n: nat)
    requires n <= |rows|
    ensures |Keys(rows[..n], key)| <= |Keys(rows, key)|
    ensures Keys(rows[..n], key) == Keys(rows, key)[..|Keys(rows[..n], key)|]
    decreases |rows|
  {
    if n < |rows| {
      var init := rows[..|rows| - 1];
      assert rows[..n] == init[..n];
      KeysInFirstSeenOrder(init, key, n);
    } else {
      assert rows[..n] == rows;
    }
  }

  /** The projections of one key's rows, in the order the rows came. */
  function Group<R, K(==), V>(rows: seq<R>, key: R -> K, proj: R -> V, k: K): (g: seq<V>)
    ensures |g| <= |rows|
  {
    if |rows| == 0 then []
    else
      var last := rows[|rows| - 1];
      Group(rows[..|rows| - 1], key, proj, k) + (if key(last) == k then [proj(last)] else [])
  }

  /** A row's projection is in the list of its key. */
  lemma {:induction false} GroupHasRow<R, K, V>(rows: seq<R>, key: R -> K, proj: R -> V, i: nat)
    requires i < |rows|
    ensures proj(rows[i]) in Group(rows, key, proj, key(rows[i]))
    decreases |rows|
  {
    var init := rows[..|rows| - 1];
    if i < |rows| - 1 {
      assert init[i] == rows[i];
      GroupHasRow(init, key, proj, i);
    }
  }

  /** A key's list holds exactly the projections of the rows with that key. */
  lemma {:induction false} GroupMembers<R, K, V>(rows: seq<R>, key: R -> K, proj: R -> V, k: K, v: V)
    ensures v in Group(rows, key, proj, k) <==> exists i | 0 <= i < |rows| :: key(rows[i]) == k && proj(rows[i]) == v
    decreases |rows|
  {
    if |rows| > 0 {
      var init := rows[..|rows| - 1];
      GroupMembers(init, key, proj, k, v);
      assert forall i | 0 <= i < |init| :: init[i] == rows[i];
    }
  }

  /** Rows keep their order within a list: the list built from a prefix of the rows is a prefix of the list. */
  lemma {:induction false} GroupInRowOrder<R, K, V>(rows: seq<R>, key: R -> K, proj: R -> V, k: K, n: nat)
    requires n <= |rows|
    ensures |Group(rows[..n], key, proj, k)| <= |Group(rows, key, proj, k)|
    ensures Group(rows[..n], key, proj, k) == Group(rows, key, proj, k)[..|Group(rows[..n], key, proj, k)|]
    decreases |rows|
  {
    if n < |rows| {
      var init := rows[..|rows| - 1];
      assert rows[..n] == init[..n];
      GroupInRowOrder(init, key, proj, k, n);
    } else {
      assert rows[..n] == rows;
    }
  }

  /** Every key's list is non-empty, and any other key's is empty. */
  lemma {:induction false} GroupNonEmptyIffKey<R, K, V>(rows: seq<R>, key: R -> K, proj: R -> V, k: K)
    ensures |Group(rows, key, proj, k)| > 0 <==> k in Keys(rows, key)
    decreases |rows|
  {
    if |rows| > 0 {
      GroupNonEmptyIffKey(rows[..|rows| - 1], key, proj, k);
    }
  }

  /** The lists as the map ends up holding them. */
  function Groups<R, K(==,!new), V>(rows: seq<R>, key: R -> K, proj: R -> V): (m: map<K, seq<V>>)
    ensures forall k :: k in m <==> k in Keys(rows, key)
    ensures forall k | k in m :: |m[k]| > 0
  {
    KeysHaveRows(rows, key, proj);
    map k | k in Keys(rows, key) :: Group(rows, key, proj, k)
  }

  lemma KeysHaveRows<R, K, V>(rows: seq<R>, key: R -> K, proj: R -> V)
    ensures forall k | k in Keys(rows, key) :: |Group(rows, key, proj, k)| > 0
  {
    forall k | k in Keys(rows, key) ensures |Group(rows, key, proj, k)| > 0 {
      GroupNonEmptyIffKey(rows, key, proj, k);
    }
  }

  /**
   * The grouping loop: look the row's key up, start an empty list when the
   * key is new, push the row's projection, store the list back.
   */
  method GroupBy<R, K(==,!new), V>(rows: seq<R>, key: R -> K, proj: R -> V) returns (keys: seq<K>, groups: map<K, seq<V>>)
    ensures keys == Keys(rows, key)
    ensures groups == Groups(rows, key, proj)
  {
    keys := [];
    groups := map[];
    for i := 0 to |rows|
      invariant keys == Keys(rows[..i], key)
      invariant forall k :: k in groups <==> k in keys
      invariant forall k | k in groups :: groups[k] == Group(rows[..i], key, proj, k)
    {
      var r := rows[i];
      var k := key(r);
      assert rows[..i + 1][..i] == rows[..i];
      GroupNonEmptyIffKey(rows[..i], key, proj, k);
      var list := if k in groups then groups[k] else [];
      list := list + [proj(r)];
      if k !in groups {
        keys := keys + [k];
      }
      groups := groups[k := list];
    }
    assert rows[..|rows|] == rows;
    SameGroups(rows, key, proj, groups);
  }

  lemma SameGroups<R, K(!new), V>(rows: seq<R>, key: R -> K, proj: R -> V, groups: map<K, seq<V>>)
    requires forall k :: k in groups <==> k in Keys(rows, key)
    requires forall k | k in groups :: groups[k] == Group(rows, key, proj, k)
    ensures groups == Groups(rows, key, proj)
  {
  }

  /** The sum of the list sizes of the given keys. */
  function SizeSum<R, K(==), V>(ks: seq<K>, rows: seq<R>, key: R -> K, proj: R -> V): nat
  {
    if |ks| == 0 then 0 else SizeSum(ks[..|ks| - 1], rows, key, proj) + |Group(rows, key, proj, ks[|ks| - 1])|
  }

  /** One more row adds one to the sizes exactly when its key is among the counted ones. */
  lemma {:induction false} SizeSumStep<R, K, V>(ks: seq<K>, rows: seq<R>, key: R -> K, proj: R -> V, r: R)
    requires forall i, j | 0 <= i < j < |ks| :: ks[i] != ks[j]
    ensures SizeSum(ks, rows + [r], key, proj) == SizeSum(ks, rows, key, proj) + (if key(r) in ks then 1 else 0)
    decreases |ks|
  {
    if |ks| > 0 {
      var init := ks[..|ks| - 1];
      SizeSumStep(init, rows, key, proj, r);
      assert (rows + [r])[..|rows|] == rows;
      assert key(r) in ks <==> key(r) in init || key(r) == ks[|ks| - 1];
      if key(r) == ks[|ks| - 1] {
        assert key(r) !in init;
      }
    }
  }

  lemma SizeSumNewKey<R, K, V>(ks: seq<K>, rows: seq<R>, key: R -> K, proj: R -> V, k: K)
    ensures SizeSum(ks + [k], rows, key, proj) == SizeSum(ks, rows, key, proj) + |Group(rows, key, proj, k)|
  {
    assert (ks + [k])[..|ks|] == ks;
  }

  /** The lists hold every row exactly once: their sizes add up to the number of rows. */
  lemma {:induction false} GroupsPartitionRows<R, K, V>(rows: seq<R>, key: R -> K, proj: R -> V)
    ensures SizeSum(Keys(rows, key), rows, key, proj) == |rows|
    decreases |rows|
  {
    if |rows| > 0 {
      var init := rows[..|rows| - 1];
      var r := rows[|rows| - 1];
      var ks := Keys(init, key);
      assert rows == init + [r];
      GroupsPartitionRows(init, key, proj);
      SizeSumStep(ks, init, key, proj, r);
      if key(r) !in ks {
        assert Keys(rows, key) == ks + [key(r)];
        SizeSumNewKey(ks, rows, key, proj, key(r));
        GroupNonEmptyIffKey(init, key, proj, key(r));
        assert Group(rows, key, proj, key(r)) == Group(init, key, proj, key(r)) + [proj(r)];
      } else {
        assert Keys(rows, key) == ks;
      }
    }
  }
}
