/** The concurrent insert run: every worker inserts its slice of the dataset, and each insert is two
    separate writes, so the state between the two writes of any number of workers is observable. */
module ConcurrentInsert {
  import opened Store
  import opened Cassandra
  import opened LastWriter
  import opened TableHistory

  // ----- slices -----

  /** The rows to insert and the number of workers. */
  datatype Plan = Plan(orders: seq<Order>, threads: nat) {
    predicate Valid() { threads >= 1 }

    function Total(): nat { |orders| }

    function RowsPerThread(): nat
      requires Valid()
    {
      Total() / threads
    }

    function Start(t: nat): nat
      requires Valid()
    {
      t * RowsPerThread()
    }

    function End(t: nat): nat
      requires Valid()
    {
      if t + 1 == threads then Total() else Start(t) + RowsPerThread()
    }

    function Starts(): (s: seq<nat>)
      requires Valid()
      ensures |s| == threads && forall t :: 0 <= t < threads ==> s[t] == Start(t)
    {
      seq(threads, t requires 0 <= t < threads => Start(t))
    }

    function Ends(): (s: seq<nat>)
      requires Valid()
      ensures |s| == threads && forall t :: 0 <= t < threads ==> s[t] == End(t)
    {
      seq(threads, t requires 0 <= t < threads => End(t))
    }
  }

  lemma SlicesAbut(p: Plan, t: nat)
    requires p.Valid()
    ensures p.Start(t + 1) == p.Start(t) + p.RowsPerThread()
    ensures t + 1 < p.threads ==> p.End(t) == p.Start(t + 1)
  {}

  lemma {:induction false} StartsGrow(p: Plan, t: nat, u: nat)
    requires p.Valid() && t <= u
    ensures p.Start(t) <= p.Start(u)
    decreases u
  {
    if t < u {
      StartsGrow(p, t, u - 1);
      SlicesAbut(p, u - 1);
    }
  }

  lemma LastStartFits(p: Plan)
    requires p.Valid()
    ensures p.Start(p.threads) <= p.Total()
  {}

  lemma SliceBounds(p: Plan, t: nat)
    requires p.Valid() && t < p.threads
    ensures p.Start(t) <= p.End(t) <= p.Total()
    ensures p.RowsPerThread() <= p.End(t) - p.Start(t)
  {
    LastStartFits(p);
    StartsGrow(p, t + 1, p.threads);
    SlicesAbut(p, t);
  }

  lemma SlicesDisjoint(p: Plan, t: nat, u: nat)
    requires p.Valid() && t < u < p.threads
    ensures p.End(t) <= p.Start(u)
  {
    SlicesAbut(p, t);
    StartsGrow(p, t + 1, u);
  }

  lemma {:induction false} OwnerBelow(p: Plan, i: nat, t: nat) returns (owner: nat)
    requires p.Valid() && t < p.threads && i < p.End(t)
    ensures owner <= t && p.Start(owner) <= i < p.End(owner)
    decreases t
  {
    if p.Start(t) <= i {
      owner := t;
    } else {
      assert t > 0;
      SlicesAbut(p, t - 1);
      owner := OwnerBelow(p, i, t - 1);
    }
  }

  /** The slices are a partition of the rows, whatever the remainder of the division. */
  lemma SlicesPartition(p: Plan)
    requires p.Valid()
    ensures Covers(p.Starts(), p.Ends(), p.Total())
    ensures forall t: nat, u: nat, i: nat ::
              InSlice(p.Starts(), p.Ends(), t, i) && InSlice(p.Starts(), p.Ends(), u, i) ==> t == u
  {
    forall i: nat | i < p.Total() ensures Covered(p.Starts(), p.Ends(), i) {
      var t := OwnerBelow(p, i, p.threads - 1);
      assert InSlice(p.Starts(), p.Ends(), t, i);
    }
    forall t: nat, u: nat, i: nat | InSlice(p.Starts(), p.Ends(), t, i) && InSlice(p.Starts(), p.Ends(), u, i)
      ensures t == u
    {
      if t < u {
        SlicesDisjoint(p, t, u);
      } else if u < t {
        SlicesDisjoint(p, u, t);
      }
    }
  }

  /** Where the slice of worker t lies, in terms of the row count and the number of workers. */
  lemma SliceOfWorker(p: Plan, t: nat)
    requires p.Valid() && t < p.threads
    ensures p.Start(t) == t * (|p.orders| / p.threads)
    ensures p.End(t) == if t + 1 == p.threads then |p.orders| else (t + 1) * (|p.orders| / p.threads)
  {
    SlicesAbut(p, t);
  }

  // ----- the transition system -----

  /** cursor[t] is the loop variable of worker t; pending[t] says it is between its two writes.
      The log of completed rows is a history variable, not part of the program. */
  datatype State = State(tables: Tables, cursor: seq<nat>, pending: seq<bool>, recorded: seq<seq<nat>>, log: seq<nat>)

  function Init(p: Plan): State
    requires p.Valid()
  {
    State(EMPTY, p.Starts(), seq(p.threads, _ => false), seq(p.threads, _ => []), [])
  }

  ghost predicate Shape(p: Plan, s: State) {
    && p.Valid()
    && |s.cursor| == |s.pending| == |s.recorded| == p.threads
    && forall t :: 0 <= t < p.threads ==>
         p.Start(t) <= s.cursor[t] <= p.End(t) <= p.Total() && (s.pending[t] ==> s.cursor[t] < p.End(t))
  }

  predicate Enabled(p: Plan, s: State, t: nat)
    requires p.Valid() && |s.cursor| == p.threads
  {
    t < p.threads && s.cursor[t] < p.End(t)
  }

  /** One write of worker t; the second write of a row also records its latency and advances. */
  function Step(p: Plan, s: State, t: nat, us: nat): State
    requires p.Valid() && |s.cursor| == |s.pending| == |s.recorded| == p.threads && Enabled(p, s, t)
    requires s.cursor[t] < p.Total()
  {
    var i := s.cursor[t];
    if !s.pending[t] then
      s.(tables := WriteById(s.tables, p.orders[i]), pending := s.pending[t := true])
    else
      s.(tables := WriteByUser(s.tables, p.orders[i]), pending := s.pending[t := false],
         cursor := s.cursor[t := i + 1], recorded := s.recorded[t := s.recorded[t] + [us]], log := s.log + [i])
  }

  /** A schedule names, step by step, the worker to run and the latency it measures. */
  type Schedule = seq<(nat, nat)>

  ghost predicate Steps(p: Plan, s: State, schedule: Schedule, s': State)
    requires Shape(p, s)
    decreases |schedule|
  {
    if schedule == [] then s == s'
    else
      && Enabled(p, s, schedule[0].0)
      && Shape(p, Step(p, s, schedule[0].0, schedule[0].1))
      && Steps(p, Step(p, s, schedule[0].0, schedule[0].1), schedule[1..], s')
  }

  ghost predicate Complete(p: Plan, s: State)
    requires Shape(p, s)
  {
    forall t :: 0 <= t < p.threads ==> s.cursor[t] == p.End(t)
  }

  lemma InitShape(p: Plan)
    requires p.Valid()
    ensures Shape(p, Init(p))
  {
    forall t | 0 <= t < p.threads ensures p.Start(t) <= p.End(t) <= p.Total() {
      SliceBounds(p, t);
    }
  }

  // ----- what every step keeps -----

  /** One past the last row of worker t whose first write is done. */
  function Reserved(s: State): (r: seq<nat>)
    requires |s.cursor| == |s.pending|
    ensures |r| == |s.cursor|
    ensures forall t :: 0 <= t < |r| ==> r[t] == s.cursor[t] + (if s.pending[t] then 1 else 0)
  {
    seq(|s.cursor|, t requires 0 <= t < |s.cursor| => s.cursor[t] + (if s.pending[t] then 1 else 0))
  }

  ghost predicate Done(p: Plan, s: State, i: nat)
    requires Shape(p, s)
  {
    Covered(p.Starts(), s.cursor, i)
  }

  ghost predicate LogIsDone(p: Plan, s: State)
    requires Shape(p, s)
  {
    && (forall i: nat :: i in s.log <==> Done(p, s, i))
    && (forall a, b :: 0 <= a < b < |s.log| ==> s.log[a] != s.log[b])
  }

  ghost predicate Inv(p: Plan, s: State) {
    && Shape(p, s)
    && Explained(s.tables.byId, IdEntries(p.orders), p.Starts(), Reserved(s))
    && Explained(s.tables.byUser, PairEntries(p.orders), p.Starts(), s.cursor)
    && LogIsDone(p, s)
    && (forall t :: 0 <= t < p.threads ==> |s.recorded[t]| == s.cursor[t] - p.Start(t))
  }

  lemma InitInv(p: Plan)
    requires p.Valid()
    ensures Inv(p, Init(p))
  {
    InitShape(p);
    var s := Init(p);
    assert Reserved(s) == p.Starts();
    ExplainedAtStart(IdEntries(p.orders), p.Starts());
    ExplainedAtStart(PairEntries(p.orders), p.Starts());
  }

  lemma FirstWriteKeepsInv(p: Plan, s: State, t: nat, us: nat)
    requires Inv(p, s) && Enabled(p, s, t) && !s.pending[t]
    ensures Inv(p, Step(p, s, t, us))
  {
    var s' := Step(p, s, t, us);
    ExplainedStep(s.tables.byId, IdEntries(p.orders), p.Starts(), Reserved(s), t);
    assert Reserved(s') == Reserved(s)[t := Reserved(s)[t] + 1];
    assert LogIsDone(p, s') by {
      assert forall i: nat :: Done(p, s', i) <==> Done(p, s, i);
    }
  }

  lemma SecondWriteKeepsInv(p: Plan, s: State, t: nat, us: nat)
    requires Inv(p, s) && Enabled(p, s, t) && s.pending[t]
    ensures Inv(p, Step(p, s, t, us))
  {
    var s' := Step(p, s, t, us);
    ExplainedStep(s.tables.byUser, PairEntries(p.orders), p.Starts(), s.cursor, t);
    assert Reserved(s') == Reserved(s);
    LogGrows(p, s, t, us);
  }

  lemma LogGrows(p: Plan, s: State, t: nat, us: nat)
    requires Shape(p, s) && LogIsDone(p, s) && Enabled(p, s, t) && s.pending[t]
    ensures LogIsDone(p, Step(p, s, t, us))
  {
    var s', n := Step(p, s, t, us), s.cursor[t];
    forall i: nat ensures Done(p, s', i) <==> Done(p, s, i) || i == n {
      if Done(p, s, i) {
        var u: nat :| InSlice(p.Starts(), s.cursor, u, i);
        assert InSlice(p.Starts(), s'.cursor, u, i);
      }
      if i == n {
        assert InSlice(p.Starts(), s'.cursor, t, i);
      }
      if Done(p, s', i) {
        var u: nat :| InSlice(p.Starts(), s'.cursor, u, i);
        assert i != n ==> InSlice(p.Starts(), s.cursor, u, i);
      }
    }
    NextIsNew(p, s, t);
  }

  /** The row under a worker's cursor has not been completed by anyone. */
  lemma NextIsNew(p: Plan, s: State, t: nat)
    requires Shape(p, s) && Enabled(p, s, t)
    ensures !Done(p, s, s.cursor[t])
  {
    if Done(p, s, s.cursor[t]) {
      var u: nat :| InSlice(p.Starts(), s.cursor, u, s.cursor[t]);
      SlicesPartition(p);
      assert InSlice(p.Starts(), p.Ends(), u, s.cursor[t]);
      assert InSlice(p.Starts(), p.Ends(), t, s.cursor[t]);
    }
  }

  lemma StepKeepsInv(p: Plan, s: State, t: nat, us: nat)
    requires Inv(p, s) && Enabled(p, s, t)
    ensures Inv(p, Step(p, s, t, us))
  {
    if s.pending[t] {
      SecondWriteKeepsInv(p, s, t, us);
    } else {
      FirstWriteKeepsInv(p, s, t, us);
    }
  }

  /** Every reachable state of every interleaving satisfies the invariant. */
  lemma {:induction false} StepsKeepInv(p: Plan, s: State, schedule: Schedule, s': State)
    requires Inv(p, s) && Steps(p, s, schedule, s')
    ensures Inv(p, s')
    decreases |schedule|
  {
    if schedule != [] {
      StepKeepsInv(p, s, schedule[0].0, schedule[0].1);
      StepsKeepInv(p, Step(p, s, schedule[0].0, schedule[0].1), schedule[1..], s');
    }
  }

  ghost predicate Reachable(p: Plan, s: State)
    requires p.Valid()
  {
    InitShape(p);
    exists schedule: Schedule :: Steps(p, Init(p), schedule, s)
  }

  /** At any time worker t has written the rows from t * (rows / workers) up to its cursor, one latency
      each; at the join these are rows / workers of them, and all the rest for the last worker. */
  lemma RowsOfWorker(p: Plan, s: State, t: nat)
    requires Inv(p, s) && t < p.threads
    ensures s.cursor[t] == t * (|p.orders| / p.threads) + |s.recorded[t]|
    ensures forall i: nat :: t * (|p.orders| / p.threads) <= i < s.cursor[t] ==> i in s.log
    ensures Complete(p, s) ==>
              |s.recorded[t]| == |p.orders| / p.threads + (if t + 1 < p.threads then 0 else |p.orders| % p.threads)
  {
    SliceOfWorker(p, t);
    forall i: nat | p.Start(t) <= i < s.cursor[t] ensures i in s.log {
      assert InSlice(p.Starts(), s.cursor, t, i);
    }
    NextMultiple(t, |p.orders| / p.threads);
    if t + 1 == p.threads {
      Remainder(|p.orders|, p.threads, t);
    }
  }

  lemma Remainder(n: nat, k: nat, t: nat)
    requires t + 1 == k
    ensures n - t * (n / k) == n / k + n % k
  {
    NextMultiple(t, n / k);
    assert n == k * (n / k) + n % k;
  }

  lemma NextMultiple(t: nat, n: nat)
    ensures (t + 1) * n == t * n + n
  {}

  lemma ReachableInv(p: Plan, s: State)
    requires p.Valid() && Reachable(p, s)
    ensures Inv(p, s)
  {
    InitShape(p);
    InitInv(p);
    var schedule: Schedule :| Steps(p, Init(p), schedule, s);
    StepsKeepInv(p, Init(p), schedule, s);
  }

  // ----- agreement of the two tables -----

  /** Worker t is between the two writes of the order with this id. */
  ghost predicate InFlight(p: Plan, s: State, t: nat, id: string)
    requires Shape(p, s)
  {
    t < p.threads && s.pending[t] && p.orders[s.cursor[t]].orderId == id
  }

  /** The order under this id is also in orders_by_user. */
  ghost predicate Indexed(t: Tables, id: string)
    requires id in t.byId
  {
    PairOf(t.byId[id]) in t.byUser && t.byUser[PairOf(t.byId[id])] == RowOf(t.byId[id])
  }

  lemma IdTableHolds(p: Plan, s: State, id: string) returns (t: nat, i: nat)
    requires Inv(p, s) && id in s.tables.byId
    ensures InSlice(p.Starts(), Reserved(s), t, i) && p.orders[i].orderId == id && s.tables.byId[id] == p.orders[i]
  {
    var es := IdEntries(p.orders);
    t, i :| ExplainedBy(s.tables.byId, es, p.Starts(), Reserved(s), id, t, i);
  }

  lemma UserTableHolds(p: Plan, s: State, k: Pair) returns (t: nat, i: nat)
    requires Inv(p, s) && k in s.tables.byUser
    ensures InSlice(p.Starts(), s.cursor, t, i) && PairOf(p.orders[i]) == k && s.tables.byUser[k] == RowOf(p.orders[i])
  {
    var es := PairEntries(p.orders);
    t, i :| ExplainedBy(s.tables.byUser, es, p.Starts(), s.cursor, k, t, i);
  }

  /** Every row of orders_by_user has its matching row in orders_by_id, in every reachable state. */
  lemma UserRowsMatched(p: Plan, s: State, k: Pair)
    requires Inv(p, s) && DistinctIds(p.orders) && k in s.tables.byUser
    ensures var id := s.tables.byUser[k].orderId;
            id in s.tables.byId && PairOf(s.tables.byId[id]) == k && RowOf(s.tables.byId[id]) == s.tables.byUser[k]
  {
    var t, i := UserTableHolds(p, s, k);
    var id := p.orders[i].orderId;
    assert InSlice(p.Starts(), Reserved(s), t, i);
    assert IdEntries(p.orders)[i].0 in s.tables.byId;
    var u, j := IdTableHolds(p, s, id);
    assert i == j;
  }

  /** The rows present only in orders_by_id are exactly those in flight. */
  lemma UnmatchedAreInFlight(p: Plan, s: State, id: string)
    requires Inv(p, s) && DistinctIds(p.orders) && DistinctPairs(p.orders) && id in s.tables.byId
    ensures !Indexed(s.tables, id) <==> exists t: nat :: InFlight(p, s, t, id)
  {
    var t, i := IdTableHolds(p, s, id);
    if i < s.cursor[t] {
      assert InSlice(p.Starts(), s.cursor, t, i);
      assert PairEntries(p.orders)[i].0 in s.tables.byUser;
      var u, j := UserTableHolds(p, s, PairOf(p.orders[i]));
      assert i == j;
      assert Indexed(s.tables, id);
      if u': nat :| InFlight(p, s, u', id) {
        assert s.cursor[u'] == i;
        NextIsNew(p, s, u');
        assert Done(p, s, i);
      }
    } else {
      assert InFlight(p, s, t, id);
      if PairOf(p.orders[i]) in s.tables.byUser {
        var u, j := UserTableHolds(p, s, PairOf(p.orders[i]));
        assert i == j;
        NextIsNew(p, s, t);
        assert Done(p, s, i);
      }
    }
  }

  /** An in-flight order belongs to one worker, so at most one row per worker is unmatched. */
  lemma InFlightOwner(p: Plan, s: State, t: nat, u: nat, id: string)
    requires Inv(p, s) && DistinctIds(p.orders) && InFlight(p, s, t, id) && InFlight(p, s, u, id)
    ensures t == u
  {
    assert s.cursor[t] == s.cursor[u];
    SlicesPartition(p);
    assert InSlice(p.Starts(), p.Ends(), t, s.cursor[t]);
    assert InSlice(p.Starts(), p.Ends(), u, s.cursor[t]);
  }

  /** At the join the two tables hold the same orders. */
  lemma JoinInSync(p: Plan, s: State)
    requires Inv(p, s) && DistinctIds(p.orders) && DistinctPairs(p.orders) && Complete(p, s)
    ensures InSync(s.tables)
  {
    forall k | k in s.tables.byUser
      ensures s.tables.byUser[k].orderId in s.tables.byId
              && RowOf(s.tables.byId[s.tables.byUser[k].orderId]) == s.tables.byUser[k]
    {
      UserRowsMatched(p, s, k);
    }
    forall id | id in s.tables.byId
      ensures Indexed(s.tables, id)
    {
      UnmatchedAreInFlight(p, s, id);
    }
  }

  /** The index in every reachable state of every interleaving: each row of orders_by_user has its
      order in orders_by_id, and the orders without a row there are those in flight, one per worker. */
  lemma ReachableAgreement(p: Plan, s: State)
    requires p.Valid() && Reachable(p, s) && DistinctIds(p.orders) && DistinctPairs(p.orders)
    ensures Shape(p, s)
    ensures forall k :: k in s.tables.byUser ==>
              var id := s.tables.byUser[k].orderId;
              id in s.tables.byId && PairOf(s.tables.byId[id]) == k && RowOf(s.tables.byId[id]) == s.tables.byUser[k]
    ensures forall id :: id in s.tables.byId ==> (!Indexed(s.tables, id) <==> exists t: nat :: InFlight(p, s, t, id))
    ensures forall t: nat, u: nat, id :: InFlight(p, s, t, id) && InFlight(p, s, u, id) ==> t == u
  {
    ReachableInv(p, s);
    forall k | k in s.tables.byUser
      ensures var id := s.tables.byUser[k].orderId;
              id in s.tables.byId && PairOf(s.tables.byId[id]) == k && RowOf(s.tables.byId[id]) == s.tables.byUser[k]
    {
      UserRowsMatched(p, s, k);
    }
    forall id | id in s.tables.byId
      ensures !Indexed(s.tables, id) <==> exists t: nat :: InFlight(p, s, t, id)
    {
      UnmatchedAreInFlight(p, s, id);
    }
    forall t: nat, u: nat, id | InFlight(p, s, t, id) && InFlight(p, s, u, id) ensures t == u {
      InFlightOwner(p, s, t, u, id);
    }
  }

  // ----- termination and the work done -----

  function PendingCount(pending: seq<bool>): nat {
    if pending == [] then 0 else (if pending[0] then 1 else 0) + PendingCount(pending[1..])
  }

  lemma {:induction false} PendingUpdate(pending: seq<bool>, t: nat)
    requires t < |pending|
    ensures PendingCount(pending[t := true]) == PendingCount(pending[t := false]) + 1
    ensures pending[t := pending[t]] == pending
  {
    if t > 0 {
      PendingUpdate(pending[1..], t - 1);
      assert pending[t := true][1..] == pending[1..][t - 1 := true];
      assert pending[t := false][1..] == pending[1..][t - 1 := false];
    } else {
      assert pending[0 := true][1..] == pending[1..] == pending[0 := false][1..];
    }
  }

  lemma {:induction false} NonePending(pending: seq<bool>)
    requires forall t :: 0 <= t < |pending| ==> !pending[t]
    ensures PendingCount(pending) == 0
  {
    if pending != [] {
      NonePending(pending[1..]);
    }
  }

  /** Writes performed so far. */
  function Writes(s: State): nat { 2 * |s.log| + PendingCount(s.pending) }

  lemma StepIsOneWrite(p: Plan, s: State, t: nat, us: nat)
    requires Shape(p, s) && Enabled(p, s, t)
    ensures Writes(Step(p, s, t, us)) == Writes(s) + 1
  {
    PendingUpdate(s.pending, t);
  }

  lemma {:induction false} StepsCountWrites(p: Plan, s: State, schedule: Schedule, s': State)
    requires Shape(p, s) && Steps(p, s, schedule, s')
    ensures Shape(p, s') && Writes(s') == Writes(s) + |schedule|
    decreases |schedule|
  {
    if schedule != [] {
      StepIsOneWrite(p, s, schedule[0].0, schedule[0].1);
      StepsCountWrites(p, Step(p, s, schedule[0].0, schedule[0].1), schedule[1..], s');
    }
  }

  lemma {:induction false} CountBelow(log: seq<nat>, n: nat)
    requires forall i: nat :: i in log <==> i < n
    requires forall a, b :: 0 <= a < b < |log| ==> log[a] != log[b]
    ensures |log| == n
  {
    assert log == [] || log[0] in log;
    if n > 0 {
      assert n - 1 in log;
      var a :| 0 <= a < |log| && log[a] == n - 1;
      var rest := log[..a] + log[a + 1..];
      forall i: nat ensures i in rest <==> i < n - 1 {
        if i in log && i != n - 1 {
          var b :| 0 <= b < |log| && log[b] == i;
          assert rest[if b < a then b else b - 1] == i;
        }
        if i in rest {
          var b :| 0 <= b < |rest| && rest[b] == i;
          assert log[if b < a then b else b + 1] == i;
        }
      }
      CountBelow(rest, n - 1);
    }
  }

  lemma {:induction false} CountSome(log: seq<nat>, n: nat)
    requires forall i: nat :: i in log ==> i < n
    requires forall a, b :: 0 <= a < b < |log| ==> log[a] != log[b]
    ensures |log| <= n && (|log| == n ==> forall i: nat :: i < n ==> i in log)
  {
    assert log == [] || log[0] in log;
    if n == 0 {
    } else if a :| 0 <= a < |log| && log[a] == n - 1 {
      var rest := log[..a] + log[a + 1..];
      forall i: nat | i in rest ensures i in log && i < n - 1 {
        var b :| 0 <= b < |rest| && rest[b] == i;
        assert log[if b < a then b else b + 1] == i;
      }
      CountSome(rest, n - 1);
      assert forall i: nat :: i in rest ==> i in log;
    } else {
      CountSome(log, n - 1);
    }
  }

  /** Every complete run inserts each row index exactly once. */
  lemma EachRowOnce(p: Plan, s: State)
    requires Inv(p, s) && Complete(p, s)
    ensures |s.log| == p.Total()
    ensures forall i: nat :: i in s.log <==> i < p.Total()
    ensures forall a, b :: 0 <= a < b < |s.log| ==> s.log[a] != s.log[b]
  {
    assert s.cursor == p.Ends();
    SlicesPartition(p);
    forall i: nat ensures i in s.log <==> i < p.Total() {
      if i < p.Total() {
        assert Covered(p.Starts(), p.Ends(), i);
      }
      if Done(p, s, i) {
        var t: nat :| InSlice(p.Starts(), s.cursor, t, i);
      }
    }
    CountBelow(s.log, p.Total());
  }

  /** A run of any length is at most two writes per row; it is complete exactly when it has made
      them all, and until then some worker can go on. So every schedule terminates, without deadlock. */
  lemma RunsTerminate(p: Plan, schedule: Schedule, s: State)
    requires p.Valid() && Shape(p, Init(p)) && Steps(p, Init(p), schedule, s)
    ensures Shape(p, s) && |schedule| <= 2 * p.Total()
    ensures Complete(p, s) <==> |schedule| == 2 * p.Total()
    ensures Complete(p, s) <==> !exists t: nat :: Enabled(p, s, t)
  {
    InitInv(p);
    StepsKeepInv(p, Init(p), schedule, s);
    StepsCountWrites(p, Init(p), schedule, s);
    NonePending(Init(p).pending);
    WritesBounded(p, s);
    if !Complete(p, s) {
      var t: nat :| t < p.threads && s.cursor[t] != p.End(t);
      assert Enabled(p, s, t);
    }
  }

  lemma WritesBounded(p: Plan, s: State)
    requires Inv(p, s)
    ensures Writes(s) <= 2 * p.Total()
    ensures Complete(p, s) <==> Writes(s) == 2 * p.Total()
  {
    if Complete(p, s) {
      EachRowOnce(p, s);
      NonePending(s.pending);
    } else {
      var t: nat :| t < p.threads && s.cursor[t] != p.End(t);
      Unfinished(p, s, t);
    }
  }

  /** rows are those of the log and those in flight at the first k workers. */
  ghost predicate LogAndFlight(s: State, k: nat, rows: seq<nat>)
    requires k <= |s.pending| == |s.cursor|
  {
    && (forall i: nat :: i in rows <==> i in s.log || exists u: nat :: u < k && s.pending[u] && s.cursor[u] == i)
    && forall a, b :: 0 <= a < b < |rows| ==> rows[a] != rows[b]
  }

  /** The rows in flight, added to the log, are still distinct rows. */
  lemma {:induction false} InFlightRows(p: Plan, s: State, k: nat) returns (rows: seq<nat>)
    requires Inv(p, s) && k <= p.threads
    ensures |rows| == |s.log| + PendingCount(s.pending[..k]) && LogAndFlight(s, k, rows)
    decreases k
  {
    if k == 0 {
      rows := s.log;
    } else {
      rows := InFlightRows(p, s, k - 1);
      PendingSnoc(s.pending, k - 1);
      if s.pending[k - 1] {
        CursorsDiffer(p, s, k - 1);
        NextIsNew(p, s, k - 1);
        OneMoreInFlight(s, k - 1, rows);
        rows := rows + [s.cursor[k - 1]];
      }
    }
  }

  lemma OneMoreInFlight(s: State, k: nat, rows: seq<nat>)
    requires k < |s.pending| == |s.cursor| && LogAndFlight(s, k, rows) && s.pending[k]
    requires s.cursor[k] !in s.log && forall u: nat :: u < k && s.pending[u] ==> s.cursor[u] != s.cursor[k]
    ensures LogAndFlight(s, k + 1, rows + [s.cursor[k]])
  {
    assert s.cursor[k] !in rows;
  }

  lemma CursorsDiffer(p: Plan, s: State, t: nat)
    requires Shape(p, s) && t < p.threads && Enabled(p, s, t)
    ensures forall u: nat :: u < p.threads && u != t && Enabled(p, s, u) ==> s.cursor[u] != s.cursor[t]
  {
    SlicesPartition(p);
    forall u: nat | u < p.threads && u != t && Enabled(p, s, u) ensures s.cursor[u] != s.cursor[t] {
      assert InSlice(p.Starts(), p.Ends(), u, s.cursor[u]) && InSlice(p.Starts(), p.Ends(), t, s.cursor[t]);
    }
  }

  lemma {:induction false} PendingSnoc(pending: seq<bool>, k: nat)
    requires k < |pending|
    ensures PendingCount(pending[..k + 1]) == PendingCount(pending[..k]) + (if pending[k] then 1 else 0)
  {
    if k > 0 {
      PendingSnoc(pending[1..], k - 1);
      assert pending[..k + 1][1..] == pending[1..][..k];
      assert pending[..k][1..] == pending[1..][..k - 1];
    } else {
      assert pending[..1][1..] == [];
    }
  }

  /** With a row still to complete, fewer than all writes have been made. */
  lemma Unfinished(p: Plan, s: State, t: nat)
    requires Inv(p, s) && t < p.threads && s.cursor[t] < p.End(t)
    ensures Writes(s) < 2 * p.Total()
  {
    var rows := InFlightRows(p, s, p.threads);
    assert s.pending[..p.threads] == s.pending;
    forall i: nat | i in rows ensures i < p.Total() {
      if Done(p, s, i) {
        var u: nat :| InSlice(p.Starts(), s.cursor, u, i);
      }
    }
    CountSome(rows, p.Total());
    NextIsNew(p, s, t);
    LogShort(p, s, t);
  }

  lemma LogShort(p: Plan, s: State, t: nat)
    requires Inv(p, s) && t < p.threads && s.cursor[t] < p.End(t)
    ensures |s.log| < p.Total()
  {
    forall i: nat | i in s.log ensures i < p.Total() {
      var u: nat :| InSlice(p.Starts(), s.cursor, u, i);
    }
    CountSome(s.log, p.Total());
    NextIsNew(p, s, t);
  }

  // ----- the final store -----

  /** The store of the sequential insert loop over the same rows. */
  function Sequential(p: Plan): Tables { InsertAll(EMPTY, p.orders) }

  ghost predicate NoRaces(p: Plan)
    requires p.Valid()
  {
    && RaceFree(IdEntries(p.orders), p.Starts(), p.Ends())
    && RaceFree(PairEntries(p.orders), p.Starts(), p.Ends())
  }

  /** Distinct ids and distinct pairs exclude races. */
  lemma DistinctOrdersNoRaces(p: Plan)
    requires p.Valid() && DistinctIds(p.orders) && DistinctPairs(p.orders)
    ensures NoRaces(p)
  {
    DistinctKeysRaceFree(IdEntries(p.orders), p.Starts(), p.Ends());
    DistinctKeysRaceFree(PairEntries(p.orders), p.Starts(), p.Ends());
  }

  lemma CompleteStore(p: Plan, s: State)
    requires Inv(p, s) && Complete(p, s) && NoRaces(p)
    ensures s.tables == Sequential(p)
  {
    assert s.cursor == p.Ends() && Reserved(s) == p.Ends();
    SlicesPartition(p);
    RaceFreeAgrees(s.tables.byId, IdEntries(p.orders), p.Starts(), p.Ends());
    RaceFreeAgrees(s.tables.byUser, PairEntries(p.orders), p.Starts(), p.Ends());
    InsertAllPuts(EMPTY, p.orders);
  }

  /** Every complete schedule ends in the store of the sequential loop. */
  ghost predicate ScheduleIndependent(p: Plan)
    requires p.Valid() && Shape(p, Init(p))
  {
    forall schedule: Schedule, s: State ::
      Steps(p, Init(p), schedule, s) ==> Shape(p, s) && (Complete(p, s) ==> s.tables == Sequential(p))
  }

  /** Exactly the absence of races makes the outcome independent of the schedule. */
  lemma ScheduleIndependentIff(p: Plan)
    requires p.Valid()
    ensures Shape(p, Init(p)) && (ScheduleIndependent(p) <==> NoRaces(p))
  {
    InitInv(p);
    forall schedule: Schedule, s: State | Steps(p, Init(p), schedule, s)
      ensures Shape(p, s) && (Complete(p, s) && NoRaces(p) ==> s.tables == Sequential(p))
    {
      StepsKeepInv(p, Init(p), schedule, s);
      if Complete(p, s) && NoRaces(p) {
        CompleteStore(p, s);
      }
    }
    if ScheduleIndependent(p) {
      forall t: nat | t < p.threads
        ensures SliceAgrees(IdEntries(p.orders), p.Start(t), p.End(t))
                && SliceAgrees(PairEntries(p.orders), p.Start(t), p.End(t))
      {
        IndependentSliceAgrees(p, t);
      }
      SlicesAgreeNoRaces(p);
    }
  }

  /** The last entries of one slice agree with the overall last entries. */
  ghost predicate SliceAgrees<K, V>(es: seq<(K, V)>, lo: nat, hi: nat) {
    forall i: nat, j: nat :: IsLast(es, lo, hi, i) && IsLast(es, 0, |es|, j)
      ==> (es[i].0 == es[j].0 ==> es[i].1 == es[j].1)
  }

  lemma SlicesAgreeNoRaces(p: Plan)
    requires p.Valid()
    requires forall t: nat :: t < p.threads ==>
               SliceAgrees(IdEntries(p.orders), p.Start(t), p.End(t))
               && SliceAgrees(PairEntries(p.orders), p.Start(t), p.End(t))
    ensures NoRaces(p)
  {}

  // The other direction runs worker t after everybody else.

  /** The lists of entries in the slice lo..hi. */
  function SliceTables(p: Plan, t: Tables, lo: nat, hi: nat): Tables
    requires lo <= hi <= p.Total()
  {
    Tables(PutAll(t.byId, IdEntries(p.orders)[lo..hi]), PutAll(t.byUser, PairEntries(p.orders)[lo..hi]))
  }

  /** Worker t can complete its next row, whatever the others are doing. */
  lemma FinishRow(p: Plan, s: State, t: nat) returns (schedule: Schedule, s': State)
    requires Inv(p, s) && Enabled(p, s, t) && !s.pending[t]
    ensures Steps(p, s, schedule, s') && Inv(p, s')
    ensures s'.cursor == s.cursor[t := s.cursor[t] + 1] && s'.pending == s.pending
    ensures s'.tables == Insert(s.tables, p.orders[s.cursor[t]])
  {
    StepKeepsInv(p, s, t, 0);
    var s1 := Step(p, s, t, 0);
    StepKeepsInv(p, s1, t, 0);
    s' := Step(p, s1, t, 0);
    schedule := [(t, 0), (t, 0)];
    assert schedule[1..] == [(t, 0)] && schedule[1..][1..] == [];
    assert Steps(p, s', [], s');
    assert Steps(p, s1, schedule[1..], s');
    assert s'.pending == s.pending;
  }

  lemma {:induction false} StepsJoin(p: Plan, s: State, a: Schedule, s1: State, b: Schedule, s2: State)
    requires Shape(p, s) && Steps(p, s, a, s1) && Shape(p, s1) && Steps(p, s1, b, s2)
    ensures Steps(p, s, a + b, s2)
    decreases |a|
  {
    if a == [] {
      assert a + b == b;
    } else {
      StepsJoin(p, Step(p, s, a[0].0, a[0].1), a[1..], s1, b, s2);
      assert (a + b)[1..] == a[1..] + b;
    }
  }

  lemma SliceGrows(p: Plan, t: Tables, lo: nat, i: nat)
    requires lo <= i < p.Total()
    ensures SliceTables(p, t, lo, i + 1) == Insert(SliceTables(p, t, lo, i), p.orders[i])
  {
    var es, fs := IdEntries(p.orders)[lo..i + 1], PairEntries(p.orders)[lo..i + 1];
    assert es[..|es| - 1] == IdEntries(p.orders)[lo..i];
    assert fs[..|fs| - 1] == PairEntries(p.orders)[lo..i];
  }

  /** The schedule runs worker t through its next n rows, from s to s'. */
  ghost predicate Advances(p: Plan, s: State, t: nat, n: nat, schedule: Schedule, s': State)
    requires Shape(p, s) && t < p.threads && s.cursor[t] + n <= p.End(t)
  {
    && Steps(p, s, schedule, s') && Inv(p, s')
    && s'.cursor == s.cursor[t := s.cursor[t] + n] && s'.pending == s.pending
    && s'.tables == SliceTables(p, s.tables, s.cursor[t], s.cursor[t] + n)
  }

  lemma AdvanceOnce(p: Plan, s: State, t: nat, n: nat, first: Schedule, s1: State)
    returns (schedule: Schedule, s2: State)
    requires Shape(p, s) && t < p.threads && !s.pending[t] && s.cursor[t] + n < p.End(t)
    requires Advances(p, s, t, n, first, s1)
    ensures Advances(p, s, t, n + 1, schedule, s2)
  {
    var last;
    last, s2 := FinishRow(p, s1, t);
    schedule := first + last;
    StepsJoin(p, s, first, s1, last, s2);
    OneMoreRow(p, s, s1, s2, t, n);
  }

  /** Worker t can complete its next n rows in one go. */
  lemma {:induction false} FinishRows(p: Plan, s: State, t: nat, n: nat) returns (schedule: Schedule, s': State)
    requires Inv(p, s) && t < p.threads && !s.pending[t] && s.cursor[t] + n <= p.End(t)
    ensures Advances(p, s, t, n, schedule, s')
    decreases n
  {
    if n == 0 {
      schedule, s' := [], s;
      EmptySlice(p, s.tables, s.cursor[t]);
    } else {
      var first, s1 := FinishRows(p, s, t, n - 1);
      schedule, s' := AdvanceOnce(p, s, t, n - 1, first, s1);
    }
  }

  lemma OneMoreRow(p: Plan, s: State, s1: State, s2: State, t: nat, n: nat)
    requires t < |s.cursor| && s.cursor[t] + n < p.Total()
    requires s1.cursor == s.cursor[t := s.cursor[t] + n] && s2.cursor == s1.cursor[t := s1.cursor[t] + 1]
    requires s1.tables == SliceTables(p, s.tables, s.cursor[t], s.cursor[t] + n)
    requires s2.tables == Insert(s1.tables, p.orders[s1.cursor[t]])
    ensures s2.cursor == s.cursor[t := s.cursor[t] + n + 1]
    ensures s2.tables == SliceTables(p, s.tables, s.cursor[t], s.cursor[t] + n + 1)
  {
    SliceGrows(p, s.tables, s.cursor[t], s.cursor[t] + n);
  }

  lemma EmptySlice(p: Plan, t: Tables, i: nat)
    requires i <= p.Total()
    ensures SliceTables(p, t, i, i) == t
  {}

  /** Everybody but worker t can finish first. */
  lemma {:induction false} FinishOthers(p: Plan, t: nat, k: nat) returns (schedule: Schedule, s: State)
    requires p.Valid() && t < p.threads && k <= p.threads && Inv(p, Init(p))
    ensures Steps(p, Init(p), schedule, s) && Inv(p, s)
    ensures s.pending == Init(p).pending && s.cursor[t] == p.Start(t)
    ensures forall u :: 0 <= u < k && u != t ==> s.cursor[u] == p.End(u)
    decreases k
  {
    if k == 0 {
      schedule, s := [], Init(p);
    } else {
      schedule, s := FinishOthers(p, t, k - 1);
      var u := k - 1;
      if u != t {
        var more, s' := FinishRows(p, s, u, p.End(u) - s.cursor[u]);
        StepsJoin(p, Init(p), schedule, s, more, s');
        schedule, s := schedule + more, s';
      }
    }
  }

  /** Everybody but worker t has finished, and worker t has not begun. */
  ghost predicate OnlyLeft(p: Plan, s: State, t: nat)
    requires Shape(p, s)
  {
    && t < p.threads && !s.pending[t] && s.cursor[t] == p.Start(t)
    && forall u :: 0 <= u < p.threads && u != t ==> s.cursor[u] == p.End(u)
  }

  lemma OthersFirst(p: Plan, t: nat) returns (schedule: Schedule, s: State)
    requires p.Valid() && t < p.threads && Inv(p, Init(p))
    ensures Steps(p, Init(p), schedule, s) && Inv(p, s) && OnlyLeft(p, s, t)
  {
    schedule, s := FinishOthers(p, t, p.threads);
  }

  lemma ThenLast(p: Plan, s: State, t: nat) returns (schedule: Schedule, s': State)
    requires Inv(p, s) && OnlyLeft(p, s, t)
    ensures Steps(p, s, schedule, s') && Shape(p, s') && Complete(p, s')
    ensures p.Start(t) <= p.End(t) <= p.Total() && s'.tables == SliceTables(p, s.tables, p.Start(t), p.End(t))
  {
    schedule, s' := FinishRows(p, s, t, p.End(t) - p.Start(t));
  }

  /** A complete run in which worker t writes its whole slice last. */
  lemma RunLast(p: Plan, t: nat) returns (schedule: Schedule, before: Tables, s: State)
    requires p.Valid() && t < p.threads && Inv(p, Init(p))
    ensures Steps(p, Init(p), schedule, s) && Shape(p, s) && Complete(p, s)
    ensures p.Start(t) <= p.End(t) <= p.Total() && s.tables == SliceTables(p, before, p.Start(t), p.End(t))
  {
    var first, s1 := OthersFirst(p, t);
    var last, s2 := ThenLast(p, s1, t);
    StepsJoin(p, Init(p), first, s1, last, s2);
    schedule, before, s := first + last, s1.tables, s2;
  }

  lemma IndependentSliceAgrees(p: Plan, t: nat)
    requires p.Valid() && t < p.threads && Inv(p, Init(p)) && ScheduleIndependent(p)
    ensures SliceAgrees(IdEntries(p.orders), p.Start(t), p.End(t))
    ensures SliceAgrees(PairEntries(p.orders), p.Start(t), p.End(t))
  {
    var schedule, before, s := RunLast(p, t);
    assert s.tables == Sequential(p);
    InsertAllPuts(EMPTY, p.orders);
    SliceDecides(before.byId, IdEntries(p.orders), p.Start(t), p.End(t));
    SliceDecides(before.byUser, PairEntries(p.orders), p.Start(t), p.End(t));
  }

  lemma SliceDecides<K(!new), V>(m: map<K, V>, es: seq<(K, V)>, lo: nat, hi: nat)
    requires lo <= hi <= |es| && PutAll(m, es[lo..hi]) == PutAll(map[], es)
    ensures SliceAgrees(es, lo, hi)
  {
    forall i: nat, j: nat | IsLast(es, lo, hi, i) && IsLast(es, 0, |es|, j)
      ensures es[i].0 == es[j].0 ==> es[i].1 == es[j].1
    {
      var slice := es[lo..hi];
      assert IsLast(slice, 0, |slice|, i - lo) by {
        assert forall x :: i - lo < x < |slice| ==> slice[x] == es[x + lo];
      }
      LastSliceDecides(m, slice, i - lo);
      PutAllHoldsLast(es, j);
    }
  }

  /** Every schedule that makes all its writes inserts each row exactly once and, for distinct orders,
      ends with both tables in agreement and in the store of the sequential loop. */
  lemma ConcurrentRun(p: Plan, schedule: Schedule, s: State)
    requires p.Valid() && Shape(p, Init(p)) && Steps(p, Init(p), schedule, s) && |schedule| == 2 * p.Total()
    ensures |s.log| == p.Total() && forall i: nat :: i in s.log <==> i < p.Total()
    ensures DistinctIds(p.orders) && DistinctPairs(p.orders) ==> s.tables == Sequential(p) && InSync(s.tables)
  {
    InitInv(p);
    StepsKeepInv(p, Init(p), schedule, s);
    RunsTerminate(p, schedule, s);
    EachRowOnce(p, s);
    if DistinctIds(p.orders) && DistinctPairs(p.orders) {
      DistinctOrdersNoRaces(p);
      CompleteStore(p, s);
      JoinInSync(p, s);
    }
  }
}
