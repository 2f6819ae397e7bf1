/** Keyed tables written by several writers, each working through its own slice of a list of
    entries in order. The content of a table is explained entry by entry, without the schedule. */
module LastWriter {

  /** One writer putting all entries in order. */
  function PutAll<K, V>(m: map<K, V>, es: seq<(K, V)>): map<K, V> {
    if es == [] then m
    else PutAll(m, es[..|es| - 1])[es[|es| - 1].0 := es[|es| - 1].1]
  }

  /** Entry i is the last one with its key among the entries lo..hi. */
  ghost predicate IsLast<K, V>(es: seq<(K, V)>, lo: nat, hi: nat, i: nat) {
    lo <= i < hi <= |es| && forall j :: i < j < hi ==> es[j].0 != es[i].0
  }

  ghost predicate Slices<K, V>(es: seq<(K, V)>, lo: seq<nat>, hi: seq<nat>) {
    |lo| == |hi| && forall t :: 0 <= t < |lo| ==> lo[t] <= hi[t] <= |es|
  }

  /** Entry i belongs to the part lo[t]..hi[t] of writer t. */
  ghost predicate InSlice(lo: seq<nat>, hi: seq<nat>, t: nat, i: nat) {
    t < |lo| == |hi| && lo[t] <= i < hi[t]
  }

  /** Writer t's last entry for k among those it has written is what the table holds under k. */
  ghost predicate ExplainedBy<K, V>(m: map<K, V>, es: seq<(K, V)>, lo: seq<nat>, hi: seq<nat>, k: K, t: nat, i: nat)
    requires k in m
  {
    t < |lo| == |hi| && IsLast(es, lo[t], hi[t], i) && es[i].0 == k && m[k] == es[i].1
  }

  /** The table after writer t has put its entries lo[t]..hi[t], for every t, in some interleaving. */
  ghost predicate Explained<K(!new), V>(m: map<K, V>, es: seq<(K, V)>, lo: seq<nat>, hi: seq<nat>) {
    && Slices(es, lo, hi)
    && (forall t: nat, i: nat :: InSlice(lo, hi, t, i) ==> es[i].0 in m)
    && (forall k :: k in m ==> exists t: nat, i: nat :: ExplainedBy(m, es, lo, hi, k, t, i))
  }

  lemma ExplainedAtStart<K(!new), V>(es: seq<(K, V)>, lo: seq<nat>)
    requires Slices(es, lo, lo)
    ensures Explained(map[], es, lo, lo)
  {}

  /** Any writer may take the next step. */
  lemma ExplainedStep<K(!new), V>(m: map<K, V>, es: seq<(K, V)>, lo: seq<nat>, hi: seq<nat>, w: nat)
    requires Explained(m, es, lo, hi) && w < |hi| && hi[w] < |es|
    ensures Explained(m[es[hi[w]].0 := es[hi[w]].1], es, lo, hi[w := hi[w] + 1])
  {
    var n := hi[w];
    var m', hi' := m[es[n].0 := es[n].1], hi[w := n + 1];
    assert forall t: nat, i: nat :: InSlice(lo, hi', t, i) ==> InSlice(lo, hi, t, i) || i == n;
    forall k | k in m' ensures exists t: nat, i: nat :: ExplainedBy(m', es, lo, hi', k, t, i) {
      if k == es[n].0 {
        assert ExplainedBy(m', es, lo, hi', k, w, n);
      } else {
        var t: nat, i: nat :| ExplainedBy(m, es, lo, hi, k, t, i);
        assert ExplainedBy(m', es, lo, hi', k, t, i);
      }
    }
  }

  lemma {:induction false} PutAllExplained<K(!new), V>(es: seq<(K, V)>, n: nat)
    requires n <= |es|
    ensures Explained(PutAll(map[], es[..n]), es, [0], [n])
  {
    if n == 0 {
      ExplainedAtStart(es, [0]);
    } else {
      PutAllExplained(es, n - 1);
      ExplainedStep(PutAll(map[], es[..n - 1]), es, [0], [n - 1], 0);
      assert es[..n][..n - 1] == es[..n - 1];
      assert [n - 1][0 := n] == [n];
    }
  }

  /** The single writer leaves, under each key, its last entry. */
  lemma PutAllHoldsLast<K(!new), V>(es: seq<(K, V)>, i: nat)
    requires IsLast(es, 0, |es|, i)
    ensures var m := PutAll(map[], es); es[i].0 in m && m[es[i].0] == es[i].1
  {
    PutAllExplained(es, |es|);
    assert es[..|es|] == es;
    var m, k := PutAll(map[], es), es[i].0;
    assert InSlice([0], [|es|], 0, i);
    var t: nat, j: nat :| ExplainedBy(m, es, [0], [|es|], k, t, j);
  }

  lemma {:induction false} LastExists<K, V>(es: seq<(K, V)>, lo: nat, hi: nat, j: nat) returns (i: nat)
    requires lo <= j < hi <= |es|
    ensures IsLast(es, lo, hi, i) && es[i].0 == es[j].0
    decreases hi - j
  {
    if later :| j < later < hi && es[later].0 == es[j].0 {
      i := LastExists(es, lo, hi, later);
    } else {
      i := j;
    }
  }

  /** The caller's condition: no writer's last entry for a key differs from the overall last one. */
  ghost predicate RaceFree<K, V>(es: seq<(K, V)>, lo: seq<nat>, hi: seq<nat>) {
    forall t: nat, i: nat, j: nat :: LastOfWriter(es, lo, hi, t, i) && IsLast(es, 0, |es|, j)
      ==> (es[i].0 == es[j].0 ==> es[i].1 == es[j].1)
  }

  ghost predicate LastOfWriter<K, V>(es: seq<(K, V)>, lo: seq<nat>, hi: seq<nat>, t: nat, i: nat) {
    t < |lo| == |hi| && IsLast(es, lo[t], hi[t], i)
  }

  ghost predicate Covered(lo: seq<nat>, hi: seq<nat>, i: nat) {
    exists t: nat :: InSlice(lo, hi, t, i)
  }

  ghost predicate Covers(lo: seq<nat>, hi: seq<nat>, n: nat) {
    forall i: nat :: i < n ==> Covered(lo, hi, i)
  }

  /** Without races every interleaving ends in the single writer's table. */
  lemma RaceFreeAgrees<K(!new), V>(m: map<K, V>, es: seq<(K, V)>, lo: seq<nat>, hi: seq<nat>)
    requires Explained(m, es, lo, hi) && Covers(lo, hi, |es|) && RaceFree(es, lo, hi)
    ensures m == PutAll(map[], es)
  {
    var s := PutAll(map[], es);
    KeysAgree(m, es, lo, hi);
    forall k | k in m ensures m[k] == s[k] {
      var t: nat, i: nat :| ExplainedBy(m, es, lo, hi, k, t, i);
      var j := LastExists(es, 0, |es|, i);
      PutAllHoldsLast(es, j);
      assert LastOfWriter(es, lo, hi, t, i);
    }
  }

  lemma KeysAgree<K(!new), V>(m: map<K, V>, es: seq<(K, V)>, lo: seq<nat>, hi: seq<nat>)
    requires Explained(m, es, lo, hi) && Covers(lo, hi, |es|)
    ensures m.Keys == PutAll(map[], es).Keys
  {
    var s := PutAll(map[], es);
    PutAllExplained(es, |es|);
    assert es[..|es|] == es;
    forall k | k in m.Keys ensures k in s.Keys {
      var t: nat, i: nat :| ExplainedBy(m, es, lo, hi, k, t, i);
      assert InSlice([0], [|es|], 0, i);
    }
    forall k | k in s.Keys ensures k in m.Keys {
      var t: nat, i: nat :| ExplainedBy(s, es, [0], [|es|], k, t, i);
      assert Covered(lo, hi, i);
    }
  }

  /** With all keys distinct there are no races. */
  lemma DistinctKeysRaceFree<K, V>(es: seq<(K, V)>, lo: seq<nat>, hi: seq<nat>)
    requires forall i, j :: 0 <= i < j < |es| ==> es[i].0 != es[j].0
    ensures RaceFree(es, lo, hi)
  {
    forall t: nat, i: nat, j: nat | LastOfWriter(es, lo, hi, t, i) && IsLast(es, 0, |es|, j)
      ensures es[i].0 == es[j].0 ==> i == j
    {}
  }

  /** Whoever puts a slice last decides the keys of that slice. */
  lemma {:induction false} LastSliceDecides<K, V>(m: map<K, V>, es: seq<(K, V)>, i: nat)
    requires IsLast(es, 0, |es|, i)
    ensures var m' := PutAll(m, es); es[i].0 in m' && m'[es[i].0] == es[i].1
  {
    var n := |es| - 1;
    if i < n {
      assert IsLast(es[..n], 0, n, i);
      LastSliceDecides(m, es[..n], i);
    }
  }
}
