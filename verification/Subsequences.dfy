/** In-order, duplicate-free selections from a sequence. */
module Subsequences {

  ghost predicate Places<T>(xs: seq<T>, ys: seq<T>, places: seq<nat>) {
    && |places| == |xs|
    && (forall i | 0 <= i < |places| :: places[i] < |ys| && xs[i] == ys[places[i]])
    && (forall i, j | 0 <= i < j < |places| :: places[i] < places[j])
  }

  /** xs is what is left of ys when some elements are struck out. */
  ghost predicate Subsequence<T>(xs: seq<T>, ys: seq<T>) {
    exists places: seq<nat> :: Places(xs, ys, places)
  }

  lemma SubsequenceSelf<T>(xs: seq<T>)
    ensures Subsequence(xs, xs)
  {
    assert Places(xs, xs, seq(|xs|, i requires 0 <= i < |xs| => i));
  }

  lemma SubsequenceTransitive<T>(xs: seq<T>, ys: seq<T>, zs: seq<T>)
    requires Subsequence(xs, ys) && Subsequence(ys, zs)
    ensures Subsequence(xs, zs)
  {
    var f: seq<nat> :| Places(xs, ys, f);
    var g: seq<nat> :| Places(ys, zs, g);
    assert Places(xs, zs, seq(|xs|, i requires 0 <= i < |xs| => g[f[i]]));
  }

  lemma SubsequenceAppend<T>(xs: seq<T>, ys: seq<T>, z: T)
    requires Subsequence(xs, ys)
    ensures Subsequence(xs, ys + [z]) && Subsequence(xs + [z], ys + [z])
  {
    var f: seq<nat> :| Places(xs, ys, f);
    assert Places(xs, ys + [z], f);
    assert Places(xs + [z], ys + [z], f + [|ys|]);
  }

  lemma SubsequenceAfter<T>(before: seq<T>, xs: seq<T>, ys: seq<T>)
    requires Subsequence(xs, ys)
    ensures Subsequence(before + xs, before + ys)
  {
    var f: seq<nat> :| Places(xs, ys, f);
    var n := |before|;
    assert Places(before + xs, before + ys,
      seq(n + |xs|, i requires 0 <= i < n + |xs| => if i < n then i else n + f[i - n]));
  }

  lemma SubsequenceSkip<T>(first: T, xs: seq<T>, ys: seq<T>)
    requires Subsequence(xs, ys)
    ensures Subsequence(xs, [first] + ys)
  {
    var f: seq<nat> :| Places(xs, ys, f);
    assert Places(xs, [first] + ys, seq(|f|, i requires 0 <= i < |f| => f[i] + 1));
  }

  lemma SubsequencePrefix<T>(xs: seq<T>, more: seq<T>, ys: seq<T>)
    requires Subsequence(xs + more, ys)
    ensures Subsequence(xs, ys)
  {
    var f: seq<nat> :| Places(xs + more, ys, f);
    forall i | 0 <= i < |xs| ensures xs[i] == ys[f[i]] {
      assert (xs + more)[i] == xs[i];
    }
    assert Places(xs, ys, f[..|xs|]);
  }

  lemma {:induction false} PlacesSpread<T>(xs: seq<T>, ys: seq<T>, places: seq<nat>, i: nat, j: nat)
    requires Places(xs, ys, places) && i <= j < |places|
    ensures places[j] - places[i] >= j - i
    decreases j
  {
    if i == j {
    } else {
      PlacesSpread(xs, ys, places, i, j - 1);
    }
  }

  lemma SubsequenceLength<T>(xs: seq<T>, ys: seq<T>)
    requires Subsequence(xs, ys)
    ensures |xs| <= |ys|
  {
    var f: seq<nat> :| Places(xs, ys, f);
    if xs != [] {
      PlacesSpread(xs, ys, f, 0, |xs| - 1);
    }
  }

  /** Striking out nothing leaves everything. */
  lemma SubsequenceFull<T>(xs: seq<T>, ys: seq<T>)
    requires Subsequence(xs, ys) && |xs| == |ys|
    ensures xs == ys
  {
    var f: seq<nat> :| Places(xs, ys, f);
    forall i | 0 <= i < |xs| ensures xs[i] == ys[i] {
      PlacesSpread(xs, ys, f, 0, i);
      PlacesSpread(xs, ys, f, i, |xs| - 1);
    }
  }
}
