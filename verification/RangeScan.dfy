/** The range-scan experiment: a user's partition filtered by date on the client side, against a range
    scan of the server over all rows. */
module RangeScan {
  import opened Store
  import opened Cassandra
  import opened TableHistory
  import opened Lexicographic
  import opened Latency
  import IsoTimestamp

  predicate Within(time: string, start: string, end: string) {
    AtMost(start, time) && AtMost(time, end)
  }

  /** The client-side filter. */
  function Filter(rows: seq<Order>, start: string, end: string): seq<Order> {
    if rows == [] then []
    else
      var o := rows[|rows| - 1];
      Filter(rows[..|rows| - 1], start, end) + (if Within(o.createdAt, start, end) then [o] else [])
  }

  /** What a scan of all rows may return: the inserted orders within the range, oldest first. Orders
      with equal creation times may come in any order. */
  ghost predicate IsRangeScan(scan: seq<Order>, os: seq<Order>, start: string, end: string) {
    multiset(scan) == multiset(Filter(os, start, end)) && OldestFirst(scan)
  }

  ghost predicate OldestFirst(s: seq<Order>) {
    forall i, j :: 0 <= i < j < |s| ==> AtMost(s[i].createdAt, s[j].createdAt)
  }

  function Reverse(s: seq<Order>): (r: seq<Order>)
    ensures |r| == |s| && forall i :: 0 <= i < |s| ==> r[i] == s[|s| - 1 - i]
  {
    if s == [] then [] else [s[|s| - 1]] + Reverse(s[..|s| - 1])
  }

  lemma {:induction false} FilterMembers(rows: seq<Order>, start: string, end: string, o: Order)
    ensures o in Filter(rows, start, end) <==> o in rows && Within(o.createdAt, start, end)
  {
    if rows != [] {
      var n := |rows| - 1;
      FilterMembers(rows[..n], start, end, o);
      assert rows == rows[..n] + [rows[n]];
    }
  }

  lemma {:induction false} FilterNewestFirst(rows: seq<Order>, start: string, end: string)
    requires NewestFirst(rows)
    ensures NewestFirst(Filter(rows, start, end))
  {
    if rows != [] {
      var n, kept := |rows| - 1, Filter(rows[..|rows| - 1], start, end);
      FilterNewestFirst(rows[..n], start, end);
      forall i | 0 <= i < |kept| ensures Less(rows[n].createdAt, kept[i].createdAt) {
        FilterMembers(rows[..n], start, end, kept[i]);
      }
    }
  }

  lemma FilterHasTime(os: seq<Order>, user: string, start: string, end: string, time: string)
    ensures UserHasTime(Filter(os, start, end), user, time) <==> UserHasTime(os, user, time) && Within(time, start, end)
  {
    var kept := Filter(os, start, end);
    if UserHasTime(kept, user, time) {
      var i :| 0 <= i < |kept| && kept[i].userId == user && kept[i].createdAt == time;
      FilterMembers(os, start, end, kept[i]);
    }
    if UserHasTime(os, user, time) && Within(time, start, end) {
      var i :| 0 <= i < |os| && os[i].userId == user && os[i].createdAt == time;
      FilterMembers(os, start, end, os[i]);
    }
  }

  lemma {:induction false} FilterNoRepeat(os: seq<Order>, user: string, start: string, end: string)
    requires NoRepeat(os, user)
    ensures NoRepeat(Filter(os, start, end), user)
  {
    if os != [] {
      var n := |os| - 1;
      AppendRepeat(os, user);
      FilterNoRepeat(os[..n], user, start, end);
      FilterHasTime(os[..n], user, start, end, os[n].createdAt);
      var kept := Filter(os[..n], start, end);
      AppendRepeat(kept + [os[n]], user);
      assert (kept + [os[n]])[..|kept|] == kept;
    }
  }

  lemma {:induction false} NoRepeatCount(os: seq<Order>, user: string, o: Order)
    requires NoRepeat(os, user) && o.userId == user
    ensures multiset(os)[o] <= 1
  {
    if os != [] {
      var n := |os| - 1;
      AppendRepeat(os, user);
      NoRepeatCount(os[..n], user, o);
      assert os == os[..n] + [os[n]];
      assert o in os[..n] ==> o != os[n];
    }
  }

  lemma NoRepeatPermuted(a: seq<Order>, b: seq<Order>, user: string)
    requires NoRepeat(a, user) && multiset(a) == multiset(b)
    ensures NoRepeat(b, user)
  {
    forall i, j | 0 <= i < j < |b| && b[i].userId == user && b[j].userId == user
      ensures b[i].createdAt != b[j].createdAt
    {
      assert b[i] in multiset(a) && b[j] in multiset(a);
      NoRepeatCount(a, user, b[i]);
      TwoPositions(b, i, j);
    }
  }

  lemma {:induction false} UserPartOldestFirst(scan: seq<Order>, user: string)
    requires OldestFirst(scan)
    ensures OldestFirst(PlainScan(scan, user))
  {
    if scan != [] {
      var n, before := |scan| - 1, PlainScan(scan[..|scan| - 1], user);
      UserPartOldestFirst(scan[..n], user);
      forall i | 0 <= i < |before| ensures AtMost(before[i].createdAt, scan[n].createdAt) {
        PlainScanMembers(scan[..n], user, before[i]);
      }
    }
  }

  lemma ReverseNewestFirst(s: seq<Order>)
    requires OldestFirst(s) && DistinctTimes(s)
    ensures NewestFirst(Reverse(s))
  {
    var r, n := Reverse(s), |s|;
    forall i, j | 0 <= i < j < |r| ensures Less(r[j].createdAt, r[i].createdAt) {
      assert AtMost(s[n - 1 - j].createdAt, s[n - 1 - i].createdAt);
    }
  }

  lemma ReverseMembers(s: seq<Order>)
    ensures forall o :: o in Reverse(s) <==> o in s
  {
    forall o | o in s ensures o in Reverse(s) {
      var i :| 0 <= i < |s| && s[i] == o;
      assert Reverse(s)[|s| - 1 - i] == o;
    }
  }

  lemma SameAnswerMembers(os: seq<Order>, part: seq<Order>, scan: seq<Order>, user: string,
                          start: string, end: string, o: Order)
    requires NoRepeat(os, user) && IsPartitionScan(part, InsertAll(EMPTY, os).byUser, user)
    requires IsRangeScan(scan, os, start, end)
    ensures o in Filter(part, start, end) <==> o in PlainScan(scan, user)
  {
    FilterMembers(part, start, end, o);
    PartitionMembers(os, part, user, o);
    PlainScanMembers(os, user, o);
    PlainScanMembers(scan, user, o);
    if i :| 0 <= i < |os| && os[i].userId == user && Stored(os[i]) == o && Within(o.createdAt, start, end) {
      FilterMembers(os, start, end, os[i]);
      assert os[i] in multiset(scan);
    }
    if i :| 0 <= i < |scan| && scan[i].userId == user && Stored(scan[i]) == o {
      assert scan[i] in multiset(Filter(os, start, end));
      FilterMembers(os, start, end, scan[i]);
    }
  }

  /** Filtering the user's partition gives exactly what any global range scan gives for that user,
      newest first instead of oldest first. */
  lemma PartitionFilterIsRangeScan(os: seq<Order>, part: seq<Order>, scan: seq<Order>, user: string,
                                   start: string, end: string)
    requires NoRepeat(os, user) && IsPartitionScan(part, InsertAll(EMPTY, os).byUser, user)
    requires IsRangeScan(scan, os, start, end)
    ensures Filter(part, start, end) == Reverse(PlainScan(scan, user))
  {
    FilterNewestFirst(part, start, end);
    FilterNoRepeat(os, user, start, end);
    NoRepeatPermuted(Filter(os, start, end), scan, user);
    PlainScanTimes(scan, user);
    UserPartOldestFirst(scan, user);
    ReverseNewestFirst(PlainScan(scan, user));
    ReverseMembers(PlainScan(scan, user));
    forall o ensures o in Filter(part, start, end) <==> o in PlainScan(scan, user) {
      SameAnswerMembers(os, part, scan, user, start, end, o);
    }
    NewestFirstUnique(Filter(part, start, end), Reverse(PlainScan(scan, user)));
  }

  ghost predicate RewriteAgrees(os: seq<Order>, part: seq<Order>, user: string) {
    forall scan, start, end :: IsRangeScan(scan, os, start, end) ==>
      Filter(part, start, end) == Reverse(PlainScan(scan, user))
  }

  /** The rewrite is right for every range exactly when the user has no two orders at one time. */
  lemma RewriteAgreesIff(os: seq<Order>, part: seq<Order>, user: string)
    requires IsPartitionScan(part, InsertAll(EMPTY, os).byUser, user)
    ensures RewriteAgrees(os, part, user) <==> NoRepeat(os, user)
  {
    if NoRepeat(os, user) {
      forall scan, start, end | IsRangeScan(scan, os, start, end)
        ensures Filter(part, start, end) == Reverse(PlainScan(scan, user))
      {
        PartitionFilterIsRangeScan(os, part, scan, user, start, end);
      }
    } else {
      var i, j :| 0 <= i < j < |os| && os[i].userId == user && os[j].userId == user
                  && os[i].createdAt == os[j].createdAt;
      RepeatLost(os, part, user, i, j);
    }
  }

  lemma RepeatLost(os: seq<Order>, part: seq<Order>, user: string, i: nat, j: nat)
    requires IsPartitionScan(part, InsertAll(EMPTY, os).byUser, user)
    requires i < j < |os| && os[i].userId == user && os[j].userId == user && os[i].createdAt == os[j].createdAt
    ensures !RewriteAgrees(os, part, user)
  {
    var time := os[i].createdAt;
    var scan := Filter(os, time, time);
    InstantIsRangeScan(os, time);
    InstantRepeats(os, user, i, j);
    PlainScanTimes(scan, user);
    FilterNewestFirst(part, time, time);
    NewestFirstDistinct(Filter(part, time, time));
    if RewriteAgrees(os, part, user) {
      ReverseTimes(PlainScan(scan, user));
    }
  }

  /** Two orders of one user at one time: the partition shows the later one, the range scan both. */
  lemma RepeatedTimeDisagrees(o: Order, p: Order, part: seq<Order>)
    requires o.userId == p.userId && o.createdAt == p.createdAt
    requires IsPartitionScan(part, InsertAll(EMPTY, [o, p]).byUser, o.userId)
    ensures var time := o.createdAt;
            && IsRangeScan([o, p], [o, p], time, time) && PlainScan([o, p], o.userId) == [Stored(o), Stored(p)]
            && Filter(part, time, time) == [Stored(p)]
  {
    RepeatedTimeLosesOrder(o, p, part);
    FilterAtInstant([o, p], o.createdAt);
    FilterAtInstant([Stored(p)], o.createdAt);
  }

  lemma FilterAtInstant(rows: seq<Order>, time: string)
    requires forall i :: 0 <= i < |rows| ==> rows[i].createdAt == time
    ensures Filter(rows, time, time) == rows && OldestFirst(rows)
  {
    FilterOfOneTime(rows, time, time, time);
  }

  lemma ReverseTimes(s: seq<Order>)
    requires DistinctTimes(Reverse(s))
    ensures DistinctTimes(s)
  {
    forall i, j | 0 <= i < j < |s| ensures s[i].createdAt != s[j].createdAt {
      assert Reverse(s)[|s| - 1 - j].createdAt != Reverse(s)[|s| - 1 - i].createdAt;
    }
  }

  lemma InstantIsRangeScan(os: seq<Order>, time: string)
    ensures IsRangeScan(Filter(os, time, time), os, time, time)
  {
    var scan := Filter(os, time, time);
    forall k | 0 <= k < |scan| ensures scan[k].createdAt == time {
      FilterMembers(os, time, time, scan[k]);
      Trichotomy(time, scan[k].createdAt);
    }
  }

  lemma {:induction false} InstantRepeats(os: seq<Order>, user: string, i: nat, j: nat)
    requires i < j < |os| && os[i].userId == user && os[j].userId == user && os[i].createdAt == os[j].createdAt
    ensures !NoRepeat(Filter(os, os[i].createdAt, os[i].createdAt), user)
  {
    var n, time := |os| - 1, os[i].createdAt;
    var kept := Filter(os[..n], time, time);
    AppendRepeat(kept + [os[n]], user);
    assert (kept + [os[n]])[..|kept|] == kept;
    if j == n {
      assert UserHasTime(os[..n], user, time) by {
        assert os[..n][i].createdAt == time;
      }
      FilterHasTime(os[..n], user, time, time, time);
    } else {
      InstantRepeats(os[..n], user, i, j);
      assert os[..n][i] == os[i];
      assert kept + [] == kept;
    }
  }

  /** For timestamps as the generator prints them, the string range is the range of epochs. */
  lemma WithinIsEpochRange(e: nat, start: nat, end: nat)
    requires e < IsoTimestamp.YEAR_10000 && start < IsoTimestamp.YEAR_10000 && end < IsoTimestamp.YEAR_10000
    ensures Within(IsoTimestamp.EpochToIso(e), IsoTimestamp.EpochToIso(start), IsoTimestamp.EpochToIso(end))
            <==> start <= e <= end
  {
    IsoTimestamp.IsoOrder(start, e);
    IsoTimestamp.IsoOrder(e, end);
  }

  // ----- rows read by the columns of the other table -----

  /** Read that way, rows with one description, as the generator gives all of them, pass the date filter
      all together or not at all: it compares the description with the dates. */
  lemma MisreadAllOrNothing(got: seq<Order>, rows: seq<UserRow>, text: string, start: string, end: string)
    requires AllMisread(got, rows) && forall i :: 0 <= i < |rows| ==> rows[i].description == text
    ensures Filter(got, start, end) == if Within(text, start, end) then got else []
  {
    forall i | 0 <= i < |got| ensures got[i].createdAt == text {
      assert rows[i].description == text;
    }
    FilterOfOneTime(got, text, start, end);
  }

  lemma {:induction false} FilterOfOneTime(rows: seq<Order>, time: string, start: string, end: string)
    requires forall i :: 0 <= i < |rows| ==> rows[i].createdAt == time
    ensures Filter(rows, start, end) == if Within(time, start, end) then rows else []
  {
    if rows != [] {
      var n := |rows| - 1;
      FilterOfOneTime(rows[..n], time, start, end);
      assert rows == rows[..n] + [rows[n]];
    }
  }

  /** The filter keeps everything exactly when all rows are within the range. */
  lemma {:induction false} KeepsAllIff(rows: seq<Order>, start: string, end: string)
    ensures |Filter(rows, start, end)| <= |rows|
    ensures |Filter(rows, start, end)| == |rows| <==>
            forall i :: 0 <= i < |rows| ==> Within(rows[i].createdAt, start, end)
  {
    if rows != [] {
      KeepsAllIff(rows[..|rows| - 1], start, end);
    }
  }

  /** It keeps nothing exactly when none is. */
  lemma KeepsNoneIff(rows: seq<Order>, start: string, end: string)
    ensures Filter(rows, start, end) == [] <==>
            forall i :: 0 <= i < |rows| ==> !Within(rows[i].createdAt, start, end)
  {
    var kept := Filter(rows, start, end);
    if kept != [] {
      FilterMembers(rows, start, end, kept[0]);
    } else {
      forall i | 0 <= i < |rows| ensures !Within(rows[i].createdAt, start, end) {
        FilterMembers(rows, start, end, rows[i]);
      }
    }
  }

  /** For rows with one description, the misread filter keeps the right number exactly when every row is
      within the range just if the description is. */
  lemma MisreadCountIff(got: seq<Order>, rows: seq<UserRow>, text: string, start: string, end: string)
    requires AllMisread(got, rows) && forall i :: 0 <= i < |rows| ==> rows[i].description == text
    ensures |Filter(got, start, end)| == |Filter(DecodeAll(rows), start, end)| <==>
            forall i :: 0 <= i < |rows| ==> (Within(rows[i].createdAt, start, end) <==> Within(text, start, end))
  {
    MisreadAllOrNothing(got, rows, text, start, end);
    var decoded := DecodeAll(rows);
    KeepsAllIff(decoded, start, end);
    KeepsNoneIff(decoded, start, end);
    assert forall i :: 0 <= i < |rows| ==> decoded[i].createdAt == rows[i].createdAt;
  }

  /** A text that starts above the digits, as the generator's description does, is in no range that ends
      with a time. */
  lemma LateText(text: string, start: string, e: nat)
    requires text != "" && text[0] > '9'
    ensures !Within(text, start, IsoTimestamp.EpochToIso(e))
  {
    IsoTimestamp.StartsWithDigit(e);
  }

  /** So such a query counts no rows, which is right only for a user without rows in the range. */
  lemma LateTextCountsNothing(got: seq<Order>, rows: seq<UserRow>, text: string, start: string, e: nat)
    requires AllMisread(got, rows) && forall i :: 0 <= i < |rows| ==> rows[i].description == text
    requires text != "" && text[0] > '9'
    ensures var end := IsoTimestamp.EpochToIso(e);
            && Filter(got, start, end) == []
            && (Filter(DecodeAll(rows), start, end) == [] <==>
                forall i :: 0 <= i < |rows| ==> !Within(rows[i].createdAt, start, end))
  {
    var end := IsoTimestamp.EpochToIso(e);
    LateText(text, start, e);
    MisreadAllOrNothing(got, rows, text, start, end);
    KeepsNoneIff(DecodeAll(rows), start, end);
    assert forall i :: 0 <= i < |rows| ==> DecodeAll(rows)[i].createdAt == rows[i].createdAt;
  }

  // ----- the query loop -----

  datatype Query = Query(user: string, start: string, end: string)

  /** The keys of orders_by_user that a query asks for. */
  function Asked(byUser: map<Pair, UserRow>, q: Query): set<Pair> {
    set k | k in byUser && k.0 == q.user && Within(k.1, q.start, q.end)
  }

  function TotalAsked(byUser: map<Pair, UserRow>, queries: seq<Query>): nat {
    if queries == [] then 0
    else TotalAsked(byUser, queries[..|queries| - 1]) + |Asked(byUser, queries[|queries| - 1])|
  }

  function Keys(rows: seq<Order>, user: string): set<Pair> {
    set i | 0 <= i < |rows| :: (user, rows[i].createdAt)
  }

  lemma {:induction false} KeysCount(rows: seq<Order>, user: string)
    requires DistinctTimes(rows)
    ensures |Keys(rows, user)| == |rows|
  {
    if rows != [] {
      var n := |rows| - 1;
      KeysCount(rows[..n], user);
      var key := (user, rows[n].createdAt);
      assert key !in Keys(rows[..n], user);
      assert Keys(rows, user) == Keys(rows[..n], user) + {key} by {
        assert forall i :: 0 <= i < n ==> rows[..n][i] == rows[i];
      }
    }
  }

  /** The filtered partition has one row per key asked for. */
  lemma FilterCount(part: seq<Order>, byUser: map<Pair, UserRow>, q: Query)
    requires IsPartitionScan(part, byUser, q.user)
    ensures |Filter(part, q.start, q.end)| == |Asked(byUser, q)|
  {
    var rows := Filter(part, q.start, q.end);
    FilterNewestFirst(part, q.start, q.end);
    NewestFirstDistinct(rows);
    KeysCount(rows, q.user);
    forall k ensures k in Keys(rows, q.user) <==> k in Asked(byUser, q) {
      if k in Keys(rows, q.user) {
        var i :| 0 <= i < |rows| && k == (q.user, rows[i].createdAt);
        FilterMembers(part, q.start, q.end, rows[i]);
      }
      if k in Asked(byUser, q) {
        var i :| 0 <= i < |part| && part[i].createdAt == k.1;
        FilterMembers(part, q.start, q.end, part[i]);
        var j :| 0 <= j < |rows| && rows[j] == part[i];
      }
    }
    assert Keys(rows, q.user) == Asked(byUser, q);
  }

  /** The total counts the pairs of a query and a stored key of its user within its range. */
  lemma {:induction false} TotalAskedCounts(byUser: map<Pair, UserRow>, queries: seq<Query>)
    ensures TotalAsked(byUser, queries) == |AskedPairs(byUser, queries)|
  {
    if queries != [] {
      var n := |queries| - 1;
      TotalAskedCounts(byUser, queries[..n]);
      var before, last := AskedPairs(byUser, queries[..n]), Tagged(n, Asked(byUser, queries[n]));
      TaggedSize(n, Asked(byUser, queries[n]));
      forall i, k ensures (i, k) in AskedPairs(byUser, queries) <==> (i, k) in before + last {
        assert i < n ==> (0 <= i ==> queries[..n][i] == queries[i]);
      }
      assert AskedPairs(byUser, queries) == before + last;
      assert before !! last;
    }
  }

  /** Query i asks for the stored key k. */
  function AskedPairs(byUser: map<Pair, UserRow>, queries: seq<Query>): set<(int, Pair)> {
    set i, k | 0 <= i < |queries| && k in byUser && k.0 == queries[i].user
               && AtMost(queries[i].start, k.1) && AtMost(k.1, queries[i].end) :: (i, k)
  }

  function Tagged(n: nat, keys: set<Pair>): set<(int, Pair)> { set k | k in keys :: (n, k) }

  lemma {:induction false} TaggedSize(n: nat, keys: set<Pair>)
    ensures |Tagged(n, keys)| == |keys|
    decreases |keys|
  {
    if keys != {} {
      var k :| k in keys;
      TaggedSize(n, keys - {k});
      assert Tagged(n, keys) == Tagged(n, keys - {k}) + {(n, k)};
    } else {
      assert Tagged(n, keys) == {};
    }
  }

  /** The keys of orders_by_user whose description is taken for a time in the range. */
  function Confused(byUser: map<Pair, UserRow>, q: Query): set<Pair> {
    set k | k in byUser && k.0 == q.user && Within(byUser[k].description, q.start, q.end)
  }

  function TotalConfused(byUser: map<Pair, UserRow>, queries: seq<Query>): nat {
    if queries == [] then 0
    else TotalConfused(byUser, queries[..|queries| - 1]) + |Confused(byUser, queries[|queries| - 1])|
  }

  function ConfusedKeys(rows: seq<UserRow>, q: Query): set<Pair> {
    set i | 0 <= i < |rows| && Within(rows[i].description, q.start, q.end) :: (q.user, rows[i].createdAt)
  }

  lemma {:induction false} MisreadCount(got: seq<Order>, rows: seq<UserRow>, q: Query)
    requires AllMisread(got, rows) && DistinctTimes(DecodeAll(rows))
    ensures |Filter(got, q.start, q.end)| == |ConfusedKeys(rows, q)|
  {
    if rows != [] {
      var n := |rows| - 1;
      DistinctPrefix(rows);
      MisreadCount(got[..n], rows[..n], q);
      OneMoreConfused(rows, q);
      assert got[n].createdAt == rows[n].description;
    }
  }

  lemma DistinctPrefix(rows: seq<UserRow>)
    requires rows != [] && DistinctTimes(DecodeAll(rows))
    ensures DistinctTimes(DecodeAll(rows[..|rows| - 1]))
    ensures forall i :: 0 <= i < |rows| - 1 ==> rows[i].createdAt != rows[|rows| - 1].createdAt
  {
    var all, fewer := DecodeAll(rows), DecodeAll(rows[..|rows| - 1]);
    assert forall i :: 0 <= i < |fewer| ==> fewer[i] == all[i];
    assert forall i :: 0 <= i < |rows| ==> all[i].createdAt == rows[i].createdAt;
  }

  lemma OneMoreConfused(rows: seq<UserRow>, q: Query)
    requires rows != []
    requires forall i :: 0 <= i < |rows| - 1 ==> rows[i].createdAt != rows[|rows| - 1].createdAt
    ensures |ConfusedKeys(rows, q)| == |ConfusedKeys(rows[..|rows| - 1], q)|
            + (if Within(rows[|rows| - 1].description, q.start, q.end) then 1 else 0)
  {
    var n := |rows| - 1;
    var before, key := ConfusedKeys(rows[..n], q), (q.user, rows[n].createdAt);
    assert forall i :: 0 <= i < n ==> rows[..n][i] == rows[i];
    assert key !in before;
    assert ConfusedKeys(rows, q)
        == before + (if Within(rows[n].description, q.start, q.end) then {key} else {});
  }

  lemma ConfusedOfPartition(rows: seq<UserRow>, byUser: map<Pair, UserRow>, q: Query)
    requires IsPartitionScan(DecodeAll(rows), byUser, q.user) && OfTable(rows, byUser, q.user)
    ensures ConfusedKeys(rows, q) == Confused(byUser, q) && DistinctTimes(DecodeAll(rows))
  {
    NewestFirstDistinct(DecodeAll(rows));
    forall k | k in Confused(byUser, q) ensures k in ConfusedKeys(rows, q) {
      var i :| 0 <= i < |rows| && DecodeAll(rows)[i].createdAt == k.1;
      assert rows[i] == byUser[k];
    }
  }

  /** Descriptions that start above the digits: no query that ends with a time counts anything. */
  lemma {:induction false} ConfusedIsZero(byUser: map<Pair, UserRow>, queries: seq<Query>, ends: seq<nat>)
    requires forall k :: k in byUser ==> byUser[k].description != "" && byUser[k].description[0] > '9'
    requires |ends| == |queries|
    requires forall i :: 0 <= i < |queries| ==> queries[i].end == IsoTimestamp.EpochToIso(ends[i])
    ensures TotalConfused(byUser, queries) == 0
  {
    if queries != [] {
      var n := |queries| - 1;
      ConfusedIsZero(byUser, queries[..n], ends[..n]);
      forall k | k in byUser ensures !Within(byUser[k].description, queries[n].start, queries[n].end) {
        LateText(byUser[k].description, queries[n].start, ends[n]);
      }
      assert Confused(byUser, queries[n]) == {};
    }
  }

  /** Where the rows of a query come from: the user's partition, decoded as its statement says or read
      by the columns of the other table; or the range scans of another database. */
  datatype Answers =
    | Decoded
    | ByPosition(misread: nat -> (real, int, string))
    | RangeScans(scans: seq<seq<Order>>)

  function TotalLength(scans: seq<seq<Order>>): nat {
    if scans == [] then 0 else TotalLength(scans[..|scans| - 1]) + |scans[|scans| - 1]|
  }

  /** The rows that a window counts. */
  function WindowTotal(byUser: map<Pair, UserRow>, queries: seq<Query>, answers: Answers, n: nat): nat
    requires n <= |queries| && (answers.RangeScans? ==> n <= |answers.scans|)
  {
    match answers
    case Decoded => TotalAsked(byUser, queries[..n])
    case ByPosition(_) => TotalConfused(byUser, queries[..n])
    case RangeScans(scans) => TotalLength(scans[..n])
  }

  class Experiment5 {
    const client: CassandraClient

    constructor (client: CassandraClient)
      ensures this.client == client
    {
      this.client := client;
    }

    method FilterPartition(userOrders: seq<Order>, startDate: string, endDate: string) returns (rows: seq<Order>)
      ensures rows == Filter(userOrders, startDate, endDate)
    {
      rows := [];
      for i := 0 to |userOrders|
        invariant rows == Filter(userOrders[..i], startDate, endDate)
      {
        var o := userOrders[i];
        assert userOrders[..i + 1][..i] == userOrders[..i];
        if AtMost(startDate, o.createdAt) && AtMost(o.createdAt, endDate) {
          rows := rows + [o];
        }
      }
      assert userOrders[..|userOrders|] == userOrders;
    }

    /** The rows of one query. */
    method Answer(q: Query, i: nat, answers: Answers) returns (rows: seq<Order>)
      requires WellKeyed(client.Contents()) && (answers.RangeScans? ==> i < |answers.scans|)
      ensures answers.Decoded? ==> |rows| == |Asked(client.ordersByUser, q)|
      ensures answers.ByPosition? ==> |rows| == |Confused(client.ordersByUser, q)|
      ensures answers.RangeScans? ==> rows == answers.scans[i]
    {
      match answers
      case Decoded =>
        var userOrders := client.FindBySecondaryKey(q.user);
        rows := FilterPartition(userOrders, q.start, q.end);
        FilterCount(userOrders, client.ordersByUser, q);
      case ByPosition(misread) =>
        var userOrders, stored := client.FindByPosition(q.user, misread);
        rows := FilterPartition(userOrders, q.start, q.end);
        ConfusedOfPartition(stored, client.ordersByUser, q);
        MisreadCount(userOrders, stored, q);
      case RangeScans(scans) =>
        rows := scans[i];
    }

    /** One window: the total is what the queries count, and the recorder gets one latency per query
        between the start and the stop of its timer. */
    method RunWindow(queries: seq<Query>, answers: Answers, durations: seq<nat>, start: uint64, end: uint64,
                     recorder: LatencyRecorder)
      returns (totalRowsReturned: nat)
      requires |durations| == |queries| && WellKeyed(client.Contents())
      requires answers.RangeScans? ==> |answers.scans| == |queries|
      modifies recorder
      ensures totalRowsReturned == WindowTotal(client.ordersByUser, queries, answers, |queries|)
      ensures recorder.latenciesUs == old(recorder.latenciesUs) + durations
      ensures recorder.startNs == start && recorder.endNs == end
    {
      recorder.StartTimer(start);
      totalRowsReturned := 0;
      for q := 0 to |queries|
        invariant totalRowsReturned == WindowTotal(client.ordersByUser, queries, answers, q)
        invariant recorder.latenciesUs == old(recorder.latenciesUs) + durations[..q] && recorder.startNs == start
      {
        var rows := Answer(queries[q], q, answers);
        WindowGrows(client.ordersByUser, queries, answers, q);
        recorder.Record(durations[q]);
        totalRowsReturned := totalRowsReturned + |rows|;
      }
      assert durations[..|durations|] == durations;
      recorder.StopTimer(end);
    }
  }

  lemma WindowGrows(byUser: map<Pair, UserRow>, queries: seq<Query>, answers: Answers, n: nat)
    requires n < |queries| && (answers.RangeScans? ==> n < |answers.scans|)
    ensures WindowTotal(byUser, queries, answers, n + 1) == WindowTotal(byUser, queries, answers, n) +
            match answers
            case Decoded => |Asked(byUser, queries[n])|
            case ByPosition(_) => |Confused(byUser, queries[n])|
            case RangeScans(scans) => |scans[n]|
  {
    assert queries[..n + 1][..n] == queries[..n];
    if answers.RangeScans? {
      assert answers.scans[..n + 1][..n] == answers.scans[..n];
    }
  }
}
