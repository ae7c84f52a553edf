/**
 * Grouping a sequence by a key, the way a `reduce` into a keyed accumulator
 * followed by `Object.values` does: one group per distinct key, in the order
 * the keys first appear, each holding its elements in their original order.
 */
module Grouping {

  /** The distinct keys of xs, in order of first appearance. */
  function Keys<T(!new), K(==,!new)>(xs: seq<T>, key: T -> K): (r: seq<K>)
    ensures forall k :: k in r <==> exists x :: x in xs && key(x) == k
    ensures forall a, b :: 0 <= a < b < |r| ==> r[a] != r[b]
  {
    if |xs| == 0 then []
    else
      var init := xs[..|xs| - 1];
      var ks := Keys(init, key);
      assert forall x :: x in xs <==> x in init || x == xs[|xs| - 1];
      if key(xs[|xs| - 1]) in ks then ks else ks + [key(xs[|xs| - 1])]
  }

  /** The elements of xs with key k, in order. */
  function Members<T(!new), K(==)>(xs: seq<T>, key: T -> K, k: K): (r: seq<T>)
    ensures |r| <= |xs|
    ensures forall n :: 0 <= n < |r| ==> key(r[n]) == k
    ensures forall x :: x in r <==> x in xs && key(x) == k
  {
    if |xs| == 0 then []
    else
      var init := xs[..|xs| - 1];
      assert forall x :: x in xs <==> x in init || x == xs[|xs| - 1];
      Members(init, key, k) + (if key(xs[|xs| - 1]) == k then [xs[|xs| - 1]] else [])
  }

  /** The sum of w over xs. */
  function SumBy<T>(xs: seq<T>, w: T -> int): int
  {
    if |xs| == 0 then 0 else SumBy(xs[..|xs| - 1], w) + w(xs[|xs| - 1])
  }

  /** The sum of the group sums of the keys ks. */
  function SumOver<T(!new), K(==)>(ks: seq<K>, xs: seq<T>, key: T -> K, w: T -> int): int
  {
    if |ks| == 0 then 0 else SumOver(ks[..|ks| - 1], xs, key, w) + SumBy(Members(xs, key, ks[|ks| - 1]), w)
  }

  /** One more element lands in exactly its own key's group. */
  lemma MembersSnoc<T(!new), K>(xs: seq<T>, key: T -> K, x: T, k: K)
    ensures Members(xs + [x], key, k) == Members(xs, key, k) + (if key(x) == k then [x] else [])
  {
    assert (xs + [x])[..|xs|] == xs;
  }

  /** A key no element has has no group members. */
  lemma MembersOfAbsentKey<T(!new), K>(xs: seq<T>, key: T -> K, k: K)
    requires forall x :: x in xs ==> key(x) != k
    ensures Members(xs, key, k) == []
  {
  }

  /** One more element adds its weight to the group sums of ks exactly when its key is among ks. */
  lemma {:induction false} SumOverSnoc<T(!new), K>(ks: seq<K>, xs: seq<T>, key: T -> K, w: T -> int, x: T)
    requires forall a, b :: 0 <= a < b < |ks| ==> ks[a] != ks[b]
    ensures SumOver(ks, xs + [x], key, w) == SumOver(ks, xs, key, w) + (if key(x) in ks then w(x) else 0)
  {
    if |ks| > 0 {
      var init := ks[..|ks| - 1];
      var k := ks[|ks| - 1];
      SumOverSnoc(init, xs, key, w, x);
      MembersSnoc(xs, key, x, k);
      var m := Members(xs, key, k);
      if key(x) == k {
        assert (m + [x])[..|m|] == m;
        assert key(x) !in init;
      } else {
        assert m + [] == m;
      }
      assert key(x) in ks <==> key(x) in init || key(x) == k;
    }
  }

  /** A key met for the first time is appended to the keys. */
  lemma NewKeyAppended<T(!new), K(!new)>(init: seq<T>, key: T -> K, x: T)
    requires key(x) !in Keys(init, key)
    ensures Keys(init + [x], key) == Keys(init, key) + [key(x)]
  {
    assert (init + [x])[..|init|] == init;
  }

  /** A key met for the first time opens a group holding just that element. */
  lemma NewKeyGroup<T(!new), K(!new)>(init: seq<T>, key: T -> K, w: T -> int, x: T)
    requires key(x) !in Keys(init, key)
    ensures SumOver(Keys(init, key) + [key(x)], init + [x], key, w)
         == SumOver(Keys(init, key), init + [x], key, w) + w(x)
  {
    var ks := Keys(init, key);
    var k := key(x);
    assert (ks + [k])[..|ks|] == ks;
    MembersSnoc(init, key, x, k);
    MembersOfAbsentKey(init, key, k);
    assert Members(init + [x], key, k) == [x];
    assert [x][..0] == [];
    assert SumBy([x], w) == w(x);
    assert SumOver(ks + [k], init + [x], key, w)
        == SumOver(ks, init + [x], key, w) + SumBy(Members(init + [x], key, k), w);
  }

  /** The group sums add up to the sum over the whole sequence: grouping loses and repeats nothing. */
  lemma {:induction false} PartitionSum<T(!new), K(!new)>(xs: seq<T>, key: T -> K, w: T -> int)
    ensures SumOver(Keys(xs, key), xs, key, w) == SumBy(xs, w)
  {
    if |xs| > 0 {
      var init := xs[..|xs| - 1];
      var x := xs[|xs| - 1];
      assert init + [x] == xs;
      var ks := Keys(init, key);
      PartitionSum(init, key, w);
      SumOverSnoc(ks, init, key, w, x);
      if key(x) !in ks {
        NewKeyAppended(init, key, x);
        NewKeyGroup(init, key, w, x);
      }
    }
  }

  /**
   * What one more element does to a group: it is appended to its own key's
   * group, adding its weight; the group's first element stays unless the
   * group was empty.
   */
  lemma SnocGroup<T(!new), K>(xs: seq<T>, key: T -> K, w: T -> int, x: T, k: K)
    ensures var m := Members(xs, key, k);
      var m' := Members(xs + [x], key, k);
      && m' == (if key(x) == k then m + [x] else m)
      && SumBy(m', w) == SumBy(m, w) + (if key(x) == k then w(x) else 0)
      && (m' != [] ==> m'[0] == if m != [] then m[0] else x)
  {
    MembersSnoc(xs, key, x, k);
    var m := Members(xs, key, k);
    if key(x) == k {
      assert (m + [x])[..|m|] == m;
    } else {
      assert m + [] == m;
    }
  }

  /**
   * Groups listed in key order, each carrying its key's group sum: their
   * sums add up to the group sums of the keys.
   */
  lemma {:induction false} SumOfGroups<T(!new), K, G>(ks: seq<K>, xs: seq<T>, key: T -> K, w: T -> int,
                                                      gs: seq<G>, total: G -> int)
    requires |gs| == |ks|
    requires forall n :: 0 <= n < |gs| ==> total(gs[n]) == SumBy(Members(xs, key, ks[n]), w)
    ensures SumBy(gs, total) == SumOver(ks, xs, key, w)
  {
    if |ks| > 0 {
      var n := |ks| - 1;
      SumOfGroups(ks[..n], xs, key, w, gs[..n], total);
    }
  }

  /** One more element adds its key at the end when the key is new, and changes no key otherwise. */
  lemma KeysSnoc<T(!new), K(!new)>(xs: seq<T>, key: T -> K, x: T)
    ensures Keys(xs + [x], key) == if key(x) in Keys(xs, key) then Keys(xs, key) else Keys(xs, key) + [key(x)]
    ensures key(x) !in Keys(xs, key) ==> Members(xs, key, key(x)) == []
  {
    assert (xs + [x])[..|xs|] == xs;
    if key(x) !in Keys(xs, key) {
      MembersOfAbsentKey(xs, key, key(x));
    }
  }

  /** A key has a non-empty group exactly when it is one of the keys. */
  lemma KeysHaveMembers<T(!new), K(!new)>(xs: seq<T>, key: T -> K, k: K)
    ensures k in Keys(xs, key) <==> Members(xs, key, k) != []
  {
    if k in Keys(xs, key) {
      var x :| x in xs && key(x) == k;
      assert x in Members(xs, key, k);
    } else {
      MembersOfAbsentKey(xs, key, k);
    }
  }

  /** The prefix one longer is the prefix with the next element appended. */
  lemma PrefixSnoc<T>(xs: seq<T>, i: nat)
    requires i < |xs|
    ensures xs[..i + 1] == xs[..i] + [xs[i]]
  {
  }
}
