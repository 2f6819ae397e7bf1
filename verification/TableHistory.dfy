/** What the two tables hold after a sequence of inserts, and what a user's partition then shows. */
module TableHistory {
  import opened Store
  import opened Cassandra
  import opened LastWriter

  function IdEntries(os: seq<Order>): (es: seq<(string, Order)>)
    ensures |es| == |os| && forall i :: 0 <= i < |os| ==> es[i] == (os[i].orderId, os[i])
  {
    seq(|os|, i requires 0 <= i < |os| => (os[i].orderId, os[i]))
  }

  function PairEntries(os: seq<Order>): (es: seq<(Pair, UserRow)>)
    ensures |es| == |os| && forall i :: 0 <= i < |os| ==> es[i] == (PairOf(os[i]), RowOf(os[i]))
  {
    seq(|os|, i requires 0 <= i < |os| => (PairOf(os[i]), RowOf(os[i])))
  }

  /** Sequential inserting is putting the two lists of entries. */
  lemma {:induction false} InsertAllPuts(t: Tables, os: seq<Order>)
    ensures InsertAll(t, os).byId == PutAll(t.byId, IdEntries(os))
    ensures InsertAll(t, os).byUser == PutAll(t.byUser, PairEntries(os))
  {
    if os != [] {
      var n := |os| - 1;
      InsertAllPuts(t, os[..n]);
      assert IdEntries(os)[..n] == IdEntries(os[..n]);
      assert PairEntries(os)[..n] == PairEntries(os[..n]);
    }
  }

  /** Order i is the last one with its (user, created_at) pair. */
  ghost predicate LastOfPair(os: seq<Order>, i: nat) {
    i < |os| && forall j :: i < j < |os| ==> PairOf(os[j]) != PairOf(os[i])
  }

  function Pairs(os: seq<Order>): set<Pair> {
    set i | 0 <= i < |os| :: PairOf(os[i])
  }

  /** Whatever repeats, the user table holds for each pair the last order inserted with it,
      and one row per distinct pair. */
  lemma UserTableHoldsLast(os: seq<Order>)
    ensures var byUser := InsertAll(EMPTY, os).byUser;
            && byUser.Keys == Pairs(os)
            && |byUser| == |Pairs(os)|
            && forall i: nat :: LastOfPair(os, i) ==> PairOf(os[i]) in byUser && byUser[PairOf(os[i])] == RowOf(os[i])
  {
    var es, byUser := PairEntries(os), InsertAll(EMPTY, os).byUser;
    InsertAllPuts(EMPTY, os);
    forall i: nat | LastOfPair(os, i) ensures PairOf(os[i]) in byUser && byUser[PairOf(os[i])] == RowOf(os[i]) {
      assert IsLast(es, 0, |es|, i);
      PutAllHoldsLast(es, i);
    }
    UserTableKeys(EMPTY, os);
  }

  lemma {:induction false} UserTableKeys(t: Tables, os: seq<Order>)
    ensures InsertAll(t, os).byUser.Keys == t.byUser.Keys + Pairs(os)
  {
    if os != [] {
      var n := |os| - 1;
      UserTableKeys(t, os[..n]);
      assert Pairs(os) == Pairs(os[..n]) + {PairOf(os[n])} by {
        assert forall i :: 0 <= i < n ==> os[..n][i] == os[i];
      }
    }
  }

  // ----- find_by_secondary_key against a plain scan -----

  /** The stored part of the user's orders, in insertion order. */
  function PlainScan(os: seq<Order>, user: string): seq<Order> {
    if os == [] then []
    else
      var o := os[|os| - 1];
      PlainScan(os[..|os| - 1], user) + (if o.userId == user then [Stored(o)] else [])
  }

  ghost predicate NoRepeat(os: seq<Order>, user: string) {
    forall i, j :: 0 <= i < j < |os| && os[i].userId == user && os[j].userId == user
      ==> os[i].createdAt != os[j].createdAt
  }

  ghost predicate DistinctTimes(s: seq<Order>) {
    forall i, j :: 0 <= i < j < |s| ==> s[i].createdAt != s[j].createdAt
  }

  lemma {:induction false} PlainScanMembers(os: seq<Order>, user: string, o: Order)
    ensures o in PlainScan(os, user) <==> exists i :: 0 <= i < |os| && os[i].userId == user && Stored(os[i]) == o
  {
    if os != [] {
      var n := |os| - 1;
      PlainScanMembers(os[..n], user, o);
      if i :| 0 <= i < |os| && os[i].userId == user && Stored(os[i]) == o {
        assert i < n ==> os[..n][i] == os[i];
      }
    }
  }

  ghost predicate HasTime(s: seq<Order>, time: string) {
    exists a :: 0 <= a < |s| && s[a].createdAt == time
  }

  ghost predicate UserHasTime(os: seq<Order>, user: string, time: string) {
    exists i :: 0 <= i < |os| && os[i].userId == user && os[i].createdAt == time
  }

  lemma PlainScanHasTime(os: seq<Order>, user: string, time: string)
    ensures HasTime(PlainScan(os, user), time) <==> UserHasTime(os, user, time)
  {
    var s := PlainScan(os, user);
    if HasTime(s, time) {
      var a :| 0 <= a < |s| && s[a].createdAt == time;
      PlainScanMembers(os, user, s[a]);
    }
    if UserHasTime(os, user, time) {
      var i :| 0 <= i < |os| && os[i].userId == user && os[i].createdAt == time;
      PlainScanMembers(os, user, Stored(os[i]));
    }
  }

  lemma AppendTimes(s: seq<Order>, o: Order)
    ensures DistinctTimes(s + [o]) <==> DistinctTimes(s) && !HasTime(s, o.createdAt)
  {
    var t := s + [o];
    assert forall a :: 0 <= a < |s| ==> t[a] == s[a];
    assert t[|s|] == o;
  }

  lemma AppendRepeat(os: seq<Order>, user: string)
    requires os != []
    ensures var n := |os| - 1;
            NoRepeat(os, user) <==>
            NoRepeat(os[..n], user) && (os[n].userId == user ==> !UserHasTime(os[..n], user, os[n].createdAt))
  {
    assert forall i :: 0 <= i < |os| - 1 ==> os[..|os| - 1][i] == os[i];
  }

  lemma {:induction false} PlainScanTimes(os: seq<Order>, user: string)
    ensures DistinctTimes(PlainScan(os, user)) <==> NoRepeat(os, user)
  {
    if os != [] {
      var n := |os| - 1;
      PlainScanTimes(os[..n], user);
      AppendRepeat(os, user);
      AppendTimes(PlainScan(os[..n], user), Stored(os[n]));
      PlainScanHasTime(os[..n], user, os[n].createdAt);
      assert PlainScan(os[..n], user) + [] == PlainScan(os[..n], user);
    }
  }

  lemma {:induction false} DistinctTimesCount(s: seq<Order>, o: Order)
    requires DistinctTimes(s)
    ensures multiset(s)[o] <= 1
  {
    if s != [] {
      var n := |s| - 1;
      DistinctTimesCount(s[..n], o);
      assert s == s[..n] + [s[n]];
      assert o in s[..n] ==> o != s[n];
    }
  }

  /** Distinct creation times survive rearranging. */
  lemma DistinctTimesPermuted(a: seq<Order>, b: seq<Order>)
    requires DistinctTimes(a) && multiset(a) == multiset(b)
    ensures DistinctTimes(b)
  {
    forall i, j | 0 <= i < j < |b| ensures b[i].createdAt != b[j].createdAt {
      assert b[i] in multiset(a) && b[j] in multiset(a);
      DistinctTimesCount(a, b[i]);
      TwoPositions(b, i, j);
    }
  }

  lemma TwoPositions(s: seq<Order>, i: nat, j: nat)
    requires i < j < |s|
    ensures s[i] == s[j] ==> multiset(s)[s[i]] >= 2
  {
    assert s == s[..i] + [s[i]] + s[i + 1..j] + [s[j]] + s[j + 1..];
  }

  lemma SameMembersSameMultiset(a: seq<Order>, b: seq<Order>)
    requires DistinctTimes(a) && DistinctTimes(b) && forall o :: o in a <==> o in b
    ensures multiset(a) == multiset(b)
  {
    forall o ensures multiset(a)[o] == multiset(b)[o] {
      DistinctTimesCount(a, o);
      DistinctTimesCount(b, o);
      assert o in multiset(a) <==> o in a;
      assert o in multiset(b) <==> o in b;
    }
  }

  lemma NewestFirstDistinct(rows: seq<Order>)
    requires NewestFirst(rows)
    ensures DistinctTimes(rows)
  {
    forall i, j | 0 <= i < j < |rows| ensures rows[i].createdAt != rows[j].createdAt {
      Lexicographic.Trichotomy(rows[i].createdAt, rows[i].createdAt);
    }
  }

  /** Without repeats, a partition shows exactly the orders inserted for its user. */
  lemma PartitionMembers(os: seq<Order>, rows: seq<Order>, user: string, o: Order)
    requires IsPartitionScan(rows, InsertAll(EMPTY, os).byUser, user) && NoRepeat(os, user)
    ensures o in rows <==> o in PlainScan(os, user)
  {
    var byUser := InsertAll(EMPTY, os).byUser;
    UserTableHoldsLast(os);
    PlainScanMembers(os, user, o);
    if o in rows {
      var i: nat :| i < |os| && PairOf(os[i]) == (user, o.createdAt);
      assert LastOfPair(os, i);
      assert o == Decode(RowOf(os[i])) == Stored(os[i]);
    }
    if i: nat :| i < |os| && os[i].userId == user && Stored(os[i]) == o {
      assert LastOfPair(os, i);
      assert PairOf(os[i]) in byUser;
      var k :| 0 <= k < |rows| && rows[k].createdAt == o.createdAt;
      assert rows[k] == Decode(RowOf(os[i])) == o;
    }
  }

  /** find_by_secondary_key returns what a scan of all inserted orders would, exactly when no two of
      the user's orders share their creation time. */
  lemma SecondaryKeyAgreesIff(os: seq<Order>, rows: seq<Order>, user: string)
    requires IsPartitionScan(rows, InsertAll(EMPTY, os).byUser, user)
    ensures multiset(rows) == multiset(PlainScan(os, user)) <==> NoRepeat(os, user)
  {
    NewestFirstDistinct(rows);
    PlainScanTimes(os, user);
    if NoRepeat(os, user) {
      forall o ensures o in rows <==> o in PlainScan(os, user) {
        PartitionMembers(os, rows, user, o);
      }
      SameMembersSameMultiset(rows, PlainScan(os, user));
    } else if multiset(rows) == multiset(PlainScan(os, user)) {
      DistinctTimesPermuted(rows, PlainScan(os, user));
    }
  }

  /** Two orders of one user at one time: the partition shows only the later one. */
  lemma RepeatedTimeLosesOrder(o: Order, p: Order, rows: seq<Order>)
    requires o.userId == p.userId && o.createdAt == p.createdAt
    requires IsPartitionScan(rows, InsertAll(EMPTY, [o, p]).byUser, o.userId)
    ensures rows == [Stored(p)] && PlainScan([o, p], o.userId) == [Stored(o), Stored(p)]
  {
    TwoInserted(o, p);
    OneRow(rows, InsertAll(EMPTY, [o, p]).byUser, p);
  }

  lemma TwoInserted(o: Order, p: Order)
    requires PairOf(o) == PairOf(p)
    ensures InsertAll(EMPTY, [o, p]).byUser == map[PairOf(p) := RowOf(p)]
    ensures PlainScan([o, p], o.userId) == [Stored(o), Stored(p)]
  {
    var os := [o, p];
    assert os[..1] == [o] && [o][..0] == [];
    assert InsertAll(EMPTY, [o]) == Insert(EMPTY, o);
    assert InsertAll(EMPTY, os) == Insert(Insert(EMPTY, o), p);
    assert PlainScan([o], o.userId) == [] + [Stored(o)] == [Stored(o)];
    assert PlainScan(os, o.userId) == [Stored(o)] + [Stored(p)];
  }

  lemma OneRow(rows: seq<Order>, byUser: map<Pair, UserRow>, p: Order)
    requires byUser == map[PairOf(p) := RowOf(p)] && IsPartitionScan(rows, byUser, p.userId)
    ensures rows == [Stored(p)]
  {
    NewestFirstDistinct(rows);
    forall i | 0 <= i < |rows| ensures rows[i] == Stored(p) {
      assert (p.userId, rows[i].createdAt) in byUser;
    }
    assert PairOf(p) in byUser;
    DistinctTimesCount(rows, Stored(p));
    CountSame(rows, Stored(p));
  }

  lemma {:induction false} CountSame(rows: seq<Order>, o: Order)
    requires forall i :: 0 <= i < |rows| ==> rows[i] == o
    ensures multiset(rows)[o] == |rows|
  {
    if rows != [] {
      var n := |rows| - 1;
      CountSame(rows[..n], o);
      assert rows == rows[..n] + [rows[n]];
    }
  }
}
