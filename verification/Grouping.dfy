/** The `defaultdict(list)` idiom: one pass over a list, appending each item to the bucket of its key.
    Items without a key are skipped. Python dictionaries iterate in insertion order, so the keys are
    also returned in order of first appearance. */
module Grouping {
  import opened Wrappers

  /** The items of `xs` whose key is `k`, in order. */
  function Bucket<K(==, !new), T>(xs: seq<T>, key: T -> Option<K>, k: K): (b: seq<T>)
    ensures forall x :: x in b ==> x in xs && key(x) == Some(k)
  {
    if xs == [] then []
    else if key(xs[0]) == Some(k) then [xs[0]] + Bucket(xs[1..], key, k)
    else Bucket(xs[1..], key, k)
  }

  lemma {:induction false} BucketAppend<K(!new), T>(xs: seq<T>, ys: seq<T>, key: T -> Option<K>, k: K)
    ensures Bucket(xs + ys, key, k) == Bucket(xs, key, k) + Bucket(ys, key, k)
  {
    if xs == [] {
      assert xs + ys == ys;
    } else {
      assert (xs + ys)[1..] == xs[1..] + ys;
      BucketAppend(xs[1..], ys, key, k);
    }
  }

  lemma {:induction false} BucketMember<K(!new), T>(xs: seq<T>, key: T -> Option<K>, k: K, i: nat)
    requires i < |xs| && key(xs[i]) == Some(k)
    ensures xs[i] in Bucket(xs, key, k)
  {
    if i > 0 {
      BucketMember(xs[1..], key, k, i - 1);
    }
  }

  lemma BucketSnoc<K(!new), T>(xs: seq<T>, x: T, key: T -> Option<K>, k: K)
    ensures Bucket(xs + [x], key, k) == Bucket(xs, key, k) + (if key(x) == Some(k) then [x] else [])
  {
    BucketAppend(xs, [x], key, k);
    assert [x][1..] == [];
  }

  /** The places of a list with one key. */
  ghost function Places<K(!new), T>(xs: seq<T>, key: T -> Option<K>, k: K): set<int> {
    set i | 0 <= i < |xs| && key(xs[i]) == Some(k)
  }

  lemma PlacesSnoc<K(!new), T>(xs: seq<T>, x: T, key: T -> Option<K>, k: K)
    ensures |Places(xs + [x], key, k)| == |Places(xs, key, k)| + if key(x) == Some(k) then 1 else 0
  {
    assert Places(xs + [x], key, k) == Places(xs, key, k) + if key(x) == Some(k) then {|xs|} else {};
  }

  /** A bucket holds as many items as there are places with its key. */
  lemma {:induction false} BucketSize<K(!new), T>(xs: seq<T>, key: T -> Option<K>, k: K)
    ensures |Bucket(xs, key, k)| == |Places(xs, key, k)|
  {
    if xs == [] {
      assert Places(xs, key, k) == {};
    } else {
      var init, last := xs[..|xs| - 1], xs[|xs| - 1];
      BucketSize(init, key, k);
      assert xs == init + [last];
      BucketSnoc(init, last, key, k);
      PlacesSnoc(init, last, key, k);
      hide Bucket, Places;
    }
  }

  predicate Distinct<K(==, !new)>(ks: seq<K>) {
    forall i, j :: 0 <= i < j < |ks| ==> ks[i] != ks[j]
  }

  /** `groups` is the grouping of `xs`: one bucket for each key that occurs, holding exactly the
      items with that key. */
  ghost predicate IsGrouping<K(!new), T>(xs: seq<T>, key: T -> Option<K>, order: seq<K>, groups: map<K, seq<T>>) {
    && Distinct(order)
    && (forall k :: k in order <==> k in groups)
    && (forall k :: k in groups ==> groups[k] == Bucket(xs, key, k) != [])
    && (forall i :: 0 <= i < |xs| && key(xs[i]).Some? ==> key(xs[i]).value in groups)
  }

  /** The keys of `xs`, each at its first appearance. */
  function KeysInOrder<K(==), T>(xs: seq<T>, key: T -> Option<K>): seq<K> {
    if xs == [] then
      []
    else
      var ks, last := KeysInOrder(xs[..|xs| - 1], key), key(xs[|xs| - 1]);
      if last.None? || last.value in ks then ks else ks + [last.value]
  }

  lemma KeysSnoc<K, T>(xs: seq<T>, x: T, key: T -> Option<K>)
    ensures var ks := KeysInOrder(xs, key);
      KeysInOrder(xs + [x], key) == if key(x).None? || key(x).value in ks then ks else ks + [key(x).value]
  {
    assert (xs + [x])[..|xs|] == xs;
  }

  lemma {:induction false} KeysAre<K, T>(xs: seq<T>, key: T -> Option<K>, k: K)
    ensures k in KeysInOrder(xs, key) <==> exists i :: 0 <= i < |xs| && key(xs[i]) == Some(k)
  {
    if xs != [] {
      var init := xs[..|xs| - 1];
      KeysAre(init, key, k);
      assert forall i :: 0 <= i < |init| ==> xs[i] == init[i];
    }
  }

  /** The buckets of the items seen so far, once `x` is added to its own. */
  ghost predicate Extends<K(!new), T>(xs: seq<T>, x: T, key: T -> Option<K>) {
    forall c :: Bucket(xs + [x], key, c) == Bucket(xs, key, c) + if key(x) == Some(c) then [x] else []
  }

  lemma BucketsExtend<K(!new), T>(xs: seq<T>, x: T, key: T -> Option<K>)
    ensures Extends(xs, x, key)
  {
    forall c ensures Bucket(xs + [x], key, c) == Bucket(xs, key, c) + if key(x) == Some(c) then [x] else [] {
      BucketSnoc(xs, x, key, c);
    }
  }

  method GroupBy<K(==, !new), T>(xs: seq<T>, key: T -> Option<K>) returns (order: seq<K>, groups: map<K, seq<T>>)
    ensures IsGrouping(xs, key, order, groups)
    ensures order == KeysInOrder(xs, key)
  {
    hide KeysInOrder, Bucket;
    order, groups := [], map[];
    NoKeys(xs[..0], key);
    for i := 0 to |xs|
      invariant IsGrouping(xs[..i], key, order, groups)
      invariant order == KeysInOrder(xs[..i], key)
    {
      assert xs[..i + 1] == xs[..i] + [xs[i]];
      KeysSnoc(xs[..i], xs[i], key);
      order, groups := AddItem(xs[..i], xs[i], key, order, groups);
    }
    assert xs[..|xs|] == xs;
  }

  lemma NoKeys<K, T>(xs: seq<T>, key: T -> Option<K>)
    requires xs == []
    ensures KeysInOrder(xs, key) == []
  {}

  /** `groups[key].append(item)`, the bucket being made when missing. */
  method AddItem<K(==, !new), T>(ghost xs: seq<T>, x: T, key: T -> Option<K>, order: seq<K>, groups: map<K, seq<T>>)
    returns (order': seq<K>, groups': map<K, seq<T>>)
    requires IsGrouping(xs, key, order, groups)
    ensures IsGrouping(xs + [x], key, order', groups')
    ensures order' == if key(x).None? || key(x).value in order then order else order + [key(x).value]
  {
    hide Bucket;
    BucketsExtend(xs, x, key);
    order', groups' := order, groups;
    var k := key(x);
    if k.Some? {
      if k.value in groups {
        groups' := groups[k.value := groups[k.value] + [x]];
      } else {
        NoBucket(xs, key, k.value, groups);
        groups' := groups[k.value := [x]];
        order' := order + [k.value];
      }
    }
  }

  lemma {:induction false} NoBucket<K(!new), T>(xs: seq<T>, key: T -> Option<K>, k: K, groups: map<K, seq<T>>)
    requires forall i :: 0 <= i < |xs| && key(xs[i]).Some? ==> key(xs[i]).value in groups
    requires k !in groups
    ensures Bucket(xs, key, k) == []
  {
    if xs != [] {
      NoBucket(xs[1..], key, k, groups);
    }
  }
}
