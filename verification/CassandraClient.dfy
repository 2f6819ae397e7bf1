/** Orders and the two keyed tables that store them. */
module Store {
  datatype Order = Order(orderId: string, userId: string, productId: string, status: string,
                         amount: real, quantity: int, description: string,
                         createdAt: string, updatedAt: string)

  /** The eight columns of orders_by_user. */
  datatype UserRow = UserRow(userId: string, createdAt: string, orderId: string, productId: string,
                             status: string, amount: real, quantity: int, description: string)

  type Pair = (string, string)

  datatype Tables = Tables(byId: map<string, Order>, byUser: map<Pair, UserRow>)

  const EMPTY := Tables(map[], map[])

  function PairOf(o: Order): Pair { (o.userId, o.createdAt) }

  function RowOf(o: Order): UserRow {
    UserRow(o.userId, o.createdAt, o.orderId, o.productId, o.status, o.amount, o.quantity, o.description)
  }

  /** A row of orders_by_user read back by the columns of its statement; updated_at is not stored there.
      The program reads these rows by the columns of the other table instead: ReadByPosition. */
  function Decode(r: UserRow): Order {
    Order(r.orderId, r.userId, r.productId, r.status, r.amount, r.quantity, r.description, r.createdAt, "")
  }

  /** A row of orders_by_user read by the columns of orders_by_id. Three columns are then read at a type
      they do not have, which gives an arbitrary amount, quantity and description. */
  function ReadByPosition(r: UserRow, amount: real, quantity: int, description: string): Order {
    Order(r.userId, r.createdAt, r.orderId, r.productId, amount, quantity, description, r.description, "")
  }

  /** The columns of the two tables, in the order of their statements. */
  const ID_COLUMNS := ["order_id", "user_id", "product_id", "status", "amount", "quantity", "description",
                       "created_at", "updated_at"]
  const USER_COLUMNS := ["user_id", "created_at", "order_id", "product_id", "status", "amount", "quantity",
                         "description"]

  datatype Cell = TextCell(text: string) | DoubleCell(x: real) | IntCell(n: int) | NoCell

  /** The field of an order that goes by the name of a column. */
  function FieldOf(o: Order, column: string): Cell {
    if column == "order_id" then TextCell(o.orderId)
    else if column == "user_id" then TextCell(o.userId)
    else if column == "product_id" then TextCell(o.productId)
    else if column == "status" then TextCell(o.status)
    else if column == "amount" then DoubleCell(o.amount)
    else if column == "quantity" then IntCell(o.quantity)
    else if column == "description" then TextCell(o.description)
    else if column == "created_at" then TextCell(o.createdAt)
    else if column == "updated_at" then TextCell(o.updatedAt)
    else NoCell
  }

  function StoredIn(r: UserRow, column: string): Cell {
    if column == "user_id" then TextCell(r.userId)
    else if column == "created_at" then TextCell(r.createdAt)
    else if column == "order_id" then TextCell(r.orderId)
    else if column == "product_id" then TextCell(r.productId)
    else if column == "status" then TextCell(r.status)
    else if column == "amount" then DoubleCell(r.amount)
    else if column == "quantity" then IntCell(r.quantity)
    else if column == "description" then TextCell(r.description)
    else NoCell
  }

  /** Writing and reading by the columns of the statement keeps every column in its field. */
  lemma ColumnsKept(o: Order, r: UserRow, k: nat)
    requires k < 8
    ensures StoredIn(RowOf(o), USER_COLUMNS[k]) == FieldOf(o, USER_COLUMNS[k]) != NoCell
    ensures FieldOf(Decode(r), USER_COLUMNS[k]) == StoredIn(r, USER_COLUMNS[k])
  {}

  /** Reading by position puts column k of orders_by_user into the field named by column k of
      orders_by_id; the columns 4 to 6 have other types there, and column 8 does not exist. */
  lemma ColumnsShifted(r: UserRow, amount: real, quantity: int, description: string, k: nat)
    requires k < 8
    ensures var got := ReadByPosition(r, amount, quantity, description);
            && (k < 4 || k == 7 ==> FieldOf(got, ID_COLUMNS[k]) == StoredIn(r, USER_COLUMNS[k]))
            && FieldOf(got, ID_COLUMNS[4]) == DoubleCell(amount) && StoredIn(r, USER_COLUMNS[4]).TextCell?
            && FieldOf(got, ID_COLUMNS[5]) == IntCell(quantity) && StoredIn(r, USER_COLUMNS[5]).DoubleCell?
            && FieldOf(got, ID_COLUMNS[6]) == TextCell(description) && StoredIn(r, USER_COLUMNS[6]).IntCell?
            && FieldOf(got, ID_COLUMNS[8]) == TextCell("")
  {}

  function DecodeAll(rows: seq<UserRow>): (os: seq<Order>)
    ensures |os| == |rows| && forall i :: 0 <= i < |rows| ==> os[i] == Decode(rows[i])
  {
    seq(|rows|, i requires 0 <= i < |rows| => Decode(rows[i]))
  }

  function RowsOf(os: seq<Order>): (rows: seq<UserRow>)
    ensures |rows| == |os| && forall i :: 0 <= i < |os| ==> rows[i] == RowOf(os[i])
  {
    seq(|os|, i requires 0 <= i < |os| => RowOf(os[i]))
  }

  /** Each order is a row of orders_by_user read by the columns of orders_by_id. */
  ghost predicate AllMisread(got: seq<Order>, rows: seq<UserRow>) {
    && |got| == |rows|
    && forall i :: 0 <= i < |got| ==>
         got[i] == ReadByPosition(rows[i], got[i].amount, got[i].quantity, got[i].description)
  }

  function ReadAllByPosition(rows: seq<UserRow>, misread: nat -> (real, int, string)): (got: seq<Order>)
    ensures |got| == |rows|
    ensures forall i :: 0 <= i < |rows| ==>
              got[i] == ReadByPosition(rows[i], misread(i).0, misread(i).1, misread(i).2)
    ensures AllMisread(got, rows)
  {
    seq(|rows|, i requires 0 <= i < |rows| =>
      ReadByPosition(rows[i], misread(i).0, misread(i).1, misread(i).2))
  }

  /** Reading by position can give the stored order exactly when six of its texts are the same. */
  lemma ReadByPositionIff(r: UserRow)
    ensures (exists amount, quantity, text :: ReadByPosition(r, amount, quantity, text) == Decode(r)) <==>
            r.userId == r.orderId == r.productId == r.status && r.createdAt == r.userId == r.description
  {
    if r.userId == r.orderId == r.productId == r.status && r.createdAt == r.userId == r.description {
      assert ReadByPosition(r, r.amount, r.quantity, r.description) == Decode(r);
    }
  }

  /** The part of an order that orders_by_user stores. */
  function Stored(o: Order): Order { o.(updatedAt := "") }

  function WriteById(t: Tables, o: Order): Tables { t.(byId := t.byId[o.orderId := o]) }

  function WriteByUser(t: Tables, o: Order): Tables { t.(byUser := t.byUser[PairOf(o) := RowOf(o)]) }

  function Insert(t: Tables, o: Order): Tables { WriteByUser(WriteById(t, o), o) }

  function InsertAll(t: Tables, os: seq<Order>): Tables {
    if os == [] then t else Insert(InsertAll(t, os[..|os| - 1]), os[|os| - 1])
  }

  function Delete(t: Tables, id: string): Tables { t.(byId := t.byId - {id}) }

  ghost predicate WellKeyed(t: Tables) {
    && (forall id :: id in t.byId ==> t.byId[id].orderId == id)
    && (forall k :: k in t.byUser ==> (t.byUser[k].userId, t.byUser[k].createdAt) == k)
  }

  lemma {:induction false} InsertAllWellKeyed(t: Tables, os: seq<Order>)
    requires WellKeyed(t)
    ensures WellKeyed(InsertAll(t, os))
  {
    if os != [] {
      InsertAllWellKeyed(t, os[..|os| - 1]);
    }
  }

  ghost predicate DistinctIds(os: seq<Order>) {
    forall i, j :: 0 <= i < j < |os| ==> os[i].orderId != os[j].orderId
  }

  ghost predicate DistinctPairs(os: seq<Order>) {
    forall i, j :: 0 <= i < j < |os| ==> PairOf(os[i]) != PairOf(os[j])
  }
}

/** The client: each operation is one or two statements against the tables. */
module Cassandra {
  import opened Store
  import opened Lexicographic

  /** How one statement ends. A failed one may or may not have taken effect. */
  datatype Write = Acknowledged | FailedUnapplied | FailedApplied {
    predicate Applied() { !FailedUnapplied? }
  }

  /** insert_one as the tables see it: the exception of the first write skips the second. */
  function Attempt(t: Tables, o: Order, first: Write, second: Write): Tables {
    var t1 := if first.Applied() then WriteById(t, o) else t;
    if first.Acknowledged? && second.Applied() then WriteByUser(t1, o) else t1
  }

  /** clear_table as the tables see it: the exception of the first truncation skips the second. */
  function Truncate(t: Tables, first: Write, second: Write): Tables {
    var t1 := if first.Applied() then t.(byId := map[]) else t;
    if first.Acknowledged? && second.Applied() then t1.(byUser := map[]) else t1
  }

  /** What a lookup of a missing order returns: a default-constructed one. */
  const NO_ORDER := Order("", "", "", "", 0.0, 0, "", "", "")

  // ----- reading one partition -----

  ghost predicate NewestFirst(rows: seq<Order>) {
    forall i, j :: 0 <= i < j < |rows| ==> Less(rows[j].createdAt, rows[i].createdAt)
  }

  /** rows is the partition of the user in clustering order. */
  ghost predicate IsPartitionScan(rows: seq<Order>, byUser: map<Pair, UserRow>, user: string) {
    && NewestFirst(rows)
    && (forall i :: 0 <= i < |rows| ==>
          (user, rows[i].createdAt) in byUser && rows[i] == Decode(byUser[(user, rows[i].createdAt)]))
    && (forall k :: k in byUser && k.0 == user ==> exists i :: 0 <= i < |rows| && rows[i].createdAt == k.1)
  }

  /** rows are the newest rows of the user's partition; left has the clustering keys of the others. */
  ghost predicate ScanSoFar(rows: seq<Order>, left: set<string>, byUser: map<Pair, UserRow>, user: string) {
    Served(rows, left, byUser, user) && NoneMissing(rows, left, byUser, user)
  }

  ghost predicate Served(rows: seq<Order>, left: set<string>, byUser: map<Pair, UserRow>, user: string) {
    && NewestFirst(rows)
    && (forall c :: c in left ==> (user, c) in byUser)
    && (forall i, c :: 0 <= i < |rows| && c in left ==> Less(c, rows[i].createdAt))
    && (forall i :: 0 <= i < |rows| ==>
          (user, rows[i].createdAt) in byUser && rows[i] == Decode(byUser[(user, rows[i].createdAt)]))
  }

  ghost predicate NoneMissing(rows: seq<Order>, left: set<string>, byUser: map<Pair, UserRow>, user: string) {
    forall k :: k in byUser && k.0 == user ==>
      k.1 in left || exists i :: 0 <= i < |rows| && rows[i].createdAt == k.1
  }

  lemma ServeNext(rows: seq<Order>, left: set<string>, byUser: map<Pair, UserRow>, user: string, row: Order)
    requires Served(rows, left, byUser, user) && row.createdAt in left
    requires forall c :: c in left && c != row.createdAt ==> Less(c, row.createdAt)
    requires (user, row.createdAt) in byUser && row == Decode(byUser[(user, row.createdAt)])
    ensures Served(rows + [row], left - {row.createdAt}, byUser, user)
  {}

  lemma MissNone(rows: seq<Order>, left: set<string>, byUser: map<Pair, UserRow>, user: string, row: Order)
    requires NoneMissing(rows, left, byUser, user)
    ensures NoneMissing(rows + [row], left - {row.createdAt}, byUser, user)
  {
    var more := rows + [row];
    assert more[|rows|] == row;
    forall k | k in byUser && k.0 == user && k.1 !in left - {row.createdAt}
      ensures exists i :: 0 <= i < |more| && more[i].createdAt == k.1
    {
      if k.1 != row.createdAt {
        var i :| 0 <= i < |rows| && rows[i].createdAt == k.1;
        assert more[i].createdAt == k.1;
      }
    }
  }

  /** The rows are rows of the user's partition. */
  ghost predicate OfTable(rows: seq<UserRow>, byUser: map<Pair, UserRow>, user: string) {
    forall i :: 0 <= i < |rows| ==>
      (user, rows[i].createdAt) in byUser && rows[i] == byUser[(user, rows[i].createdAt)]
  }

  lemma RowsOfPartition(rows: seq<Order>, byUser: map<Pair, UserRow>, user: string)
    requires IsPartitionScan(rows, byUser, user)
    ensures DecodeAll(RowsOf(rows)) == rows && OfTable(RowsOf(rows), byUser, user)
  {}

  class CassandraClient {
    var ordersById: map<string, Order>
    var ordersByUser: map<Pair, UserRow>

    function Contents(): Tables
      reads this
    {
      Tables(ordersById, ordersByUser)
    }

    constructor ()
      ensures Contents() == EMPTY
    {
      ordersById, ordersByUser := map[], map[];
    }

    /** The first block of insert_one. */
    method ExecuteInsertById(order: Order, outcome: Write) returns (ok: bool)
      modifies this`ordersById
      ensures ok == outcome.Acknowledged?
      ensures Contents() == if outcome.Applied() then WriteById(old(Contents()), order) else old(Contents())
    {
      if outcome.Applied() {
        ordersById := ordersById[order.orderId := order];
      }
      ok := outcome.Acknowledged?;
    }

    /** The second block of insert_one. */
    method ExecuteInsertByUser(order: Order, outcome: Write) returns (ok: bool)
      modifies this`ordersByUser
      ensures ok == outcome.Acknowledged?
      ensures Contents() == if outcome.Applied() then WriteByUser(old(Contents()), order) else old(Contents())
    {
      if outcome.Applied() {
        ordersByUser := ordersByUser[(order.userId, order.createdAt) :=
          UserRow(order.userId, order.createdAt, order.orderId, order.productId,
                  order.status, order.amount, order.quantity, order.description)];
      }
      ok := outcome.Acknowledged?;
    }

    method InsertOne(order: Order, first: Write, second: Write) returns (ok: bool)
      modifies this
      ensures ok == (first.Acknowledged? && second.Acknowledged?)
      ensures Contents() == Attempt(old(Contents()), order, first, second)
      ensures ok ==> Contents() == Insert(old(Contents()), order)
    {
      ok := ExecuteInsertById(order, first);
      if ok {
        ok := ExecuteInsertByUser(order, second);
      }
    }

    /** Stops at the first failing insert; the orders before it stay inserted. */
    method InsertBatch(orders: seq<Order>, outcomes: seq<(Write, Write)>) returns (ok: bool, done: nat)
      requires |outcomes| == |orders|
      modifies this
      ensures done <= |orders| && (ok <==> done == |orders|)
      ensures forall i :: 0 <= i < done ==> outcomes[i] == (Acknowledged, Acknowledged)
      ensures ok ==> Contents() == InsertAll(old(Contents()), orders)
      ensures !ok ==> outcomes[done] != (Acknowledged, Acknowledged)
                      && Contents() == Attempt(InsertAll(old(Contents()), orders[..done]), orders[done],
                                               outcomes[done].0, outcomes[done].1)
    {
      for i := 0 to |orders|
        invariant Contents() == InsertAll(old(Contents()), orders[..i])
        invariant forall k :: 0 <= k < i ==> outcomes[k] == (Acknowledged, Acknowledged)
      {
        assert orders[..i + 1][..i] == orders[..i];
        var inserted := InsertOne(orders[i], outcomes[i].0, outcomes[i].1);
        if !inserted {
          return false, i;
        }
      }
      assert orders[..|orders|] == orders;
      return true, |orders|;
    }

    method DeleteByPrimaryKey(orderId: string, outcome: Write) returns (ok: bool)
      modifies this`ordersById
      ensures ok == outcome.Acknowledged?
      ensures Contents() == if outcome.Applied() then Delete(old(Contents()), orderId) else old(Contents())
    {
      if outcome.Applied() {
        ordersById := ordersById - {orderId};
      }
      ok := outcome.Acknowledged?;
    }

    method FindByPrimaryKey(orderId: string) returns (order: Order)
      ensures orderId in ordersById ==> order == ordersById[orderId]
      ensures orderId !in ordersById ==> order == NO_ORDER
    {
      order := NO_ORDER;
      if orderId in ordersById {
        order := ordersById[orderId];
      }
    }

    method FindBySecondaryKey(userId: string) returns (orders: seq<Order>)
      requires WellKeyed(Contents())
      ensures IsPartitionScan(orders, ordersByUser, userId)
    {
      orders := [];
      var left := set k | k in ordersByUser && k.0 == userId :: k.1;
      while left != {}
        invariant ScanSoFar(orders, left, ordersByUser, userId)
        decreases |left|
      {
        var newest := Newest(left);
        var row := Decode(ordersByUser[(userId, newest)]);
        ServeNext(orders, left, ordersByUser, userId, row);
        MissNone(orders, left, ordersByUser, userId, row);
        orders := orders + [row];
        left := left - {newest};
      }
    }

    /** The rows of the same partition, read as the program reads them: by the columns of orders_by_id,
        with arbitrary values where a column has another type. */
    method FindByPosition(userId: string, misread: nat -> (real, int, string))
      returns (orders: seq<Order>, ghost rows: seq<UserRow>)
      requires WellKeyed(Contents())
      ensures IsPartitionScan(DecodeAll(rows), ordersByUser, userId) && OfTable(rows, ordersByUser, userId)
      ensures AllMisread(orders, rows)
    {
      var decoded := FindBySecondaryKey(userId);
      RowsOfPartition(decoded, ordersByUser, userId);
      rows := RowsOf(decoded);
      orders := ReadAllByPosition(RowsOf(decoded), misread);
    }

    method ClearTable(first: Write, second: Write) returns (ok: bool)
      modifies this
      ensures ok == (first.Acknowledged? && second.Acknowledged?)
      ensures Contents() == Truncate(old(Contents()), first, second)
      ensures ok ==> Contents() == EMPTY
    {
      if first.Applied() {
        ordersById := map[];
      }
      ok := first.Acknowledged?;
      if ok {
        if second.Applied() {
          ordersByUser := map[];
        }
        ok := second.Acknowledged?;
      }
    }
  }

  /** The clustering key that is served next. */
  method Newest(keys: set<string>) returns (newest: string)
    requires keys != {}
    ensures newest in keys && forall c :: c in keys && c != newest ==> Less(c, newest)
  {
    newest :| newest in keys;
    var rest := keys - {newest};
    while rest != {}
      invariant rest <= keys && newest in keys
      invariant forall c :: c in keys && c !in rest && c != newest ==> Less(c, newest)
      decreases |rest|
    {
      var c :| c in rest;
      Trichotomy(c, newest);
      if Less(newest, c) {
        forall d | d in keys && d !in rest && d != newest ensures Less(d, c) {
          Transitive(d, newest, c);
        }
        newest := c;
      }
      rest := rest - {c};
    }
  }

  lemma NewestIsHead(a: seq<Order>, b: seq<Order>)
    requires NewestFirst(a) && NewestFirst(b) && a != []
    requires forall o :: o in a <==> o in b
    ensures b != [] && a[0] == b[0]
  {
    assert a[0] in b;
    assert b[0] in a;
    if a[0] != b[0] {
      Trichotomy(a[0].createdAt, b[0].createdAt);
    }
  }

  /** A clustering order is determined by the rows it holds. */
  lemma {:induction false} NewestFirstUnique(a: seq<Order>, b: seq<Order>)
    requires NewestFirst(a) && NewestFirst(b)
    requires forall o :: o in a <==> o in b
    ensures a == b
  {
    assert b == [] || b[0] in b;
    if a != [] {
      NewestIsHead(a, b);
      forall o ensures o in a[1..] <==> o in b[1..] {
        TailMembers(a, o);
        TailMembers(b, o);
      }
      NewestFirstUnique(a[1..], b[1..]);
      assert a == [a[0]] + a[1..] && b == [b[0]] + b[1..];
    }
  }

  lemma TailMembers(a: seq<Order>, o: Order)
    requires NewestFirst(a) && a != []
    ensures o in a[1..] <==> o in a && o != a[0]
  {
    Trichotomy(a[0].createdAt, a[0].createdAt);
  }

  /** Reading a partition has one possible answer. */
  lemma PartitionScanUnique(a: seq<Order>, b: seq<Order>, byUser: map<Pair, UserRow>, user: string)
    requires IsPartitionScan(a, byUser, user) && IsPartitionScan(b, byUser, user)
    ensures a == b
  {
    ScanMembers(a, b, byUser, user);
    ScanMembers(b, a, byUser, user);
    NewestFirstUnique(a, b);
  }

  lemma ScanMembers(a: seq<Order>, b: seq<Order>, byUser: map<Pair, UserRow>, user: string)
    requires IsPartitionScan(a, byUser, user) && IsPartitionScan(b, byUser, user)
    ensures forall o :: o in a ==> o in b
  {
    forall o | o in a ensures o in b {
      var i :| 0 <= i < |a| && a[i] == o;
      assert (user, o.createdAt) in byUser;
      var j :| 0 <= j < |b| && b[j].createdAt == o.createdAt;
      assert b[j] == o;
    }
  }

  // ----- retries -----

  /** Any number of failing attempts at one order. */
  function Attempts(t: Tables, o: Order, tries: seq<(Write, Write)>): Tables {
    if tries == [] then t
    else
      var n := |tries| - 1;
      Attempt(Attempts(t, o, tries[..n]), o, tries[n].0, tries[n].1)
  }

  /** A retry that succeeds ends where a single success would have, whatever the failures left behind. */
  lemma {:induction false} RetryConverges(t: Tables, o: Order, tries: seq<(Write, Write)>)
    ensures Insert(Attempts(t, o, tries), o) == Insert(t, o)
  {
    if tries != [] {
      var n := |tries| - 1;
      RetryConverges(t, o, tries[..n]);
      AttemptOverwritten(Attempts(t, o, tries[..n]), o, tries[n].0, tries[n].1);
    }
  }

  lemma AttemptOverwritten(t: Tables, o: Order, first: Write, second: Write)
    ensures Insert(Attempt(t, o, first, second), o) == Insert(t, o)
  {
    assert t.byId[o.orderId := o][o.orderId := o] == t.byId[o.orderId := o];
    assert t.byUser[PairOf(o) := RowOf(o)][PairOf(o) := RowOf(o)] == t.byUser[PairOf(o) := RowOf(o)];
  }

  // ----- clearing -----

  /** A failed clear_table can be repeated: after any failure a success leaves both tables empty. */
  lemma ClearIsRepeatable(t: Tables, first: Write, second: Write)
    ensures Truncate(Truncate(t, first, second), Acknowledged, Acknowledged) == EMPTY
  {}

  /** One clear_table, however it ends, keeps the tables in step exactly when orders_by_user had no rows,
      or neither truncation took effect, or both did. */
  lemma ClearKeepsSyncIff(t: Tables, first: Write, second: Write)
    requires InSync(t)
    ensures InSync(Truncate(t, first, second)) <==>
            t.byUser == map[] || first.FailedUnapplied? || (first.Acknowledged? && second.Applied())
  {
    var t' := Truncate(t, first, second);
    if first.Applied() && !(first.Acknowledged? && second.Applied()) && t.byUser != map[] {
      assert t.byUser.Keys != {};
      var k :| k in t.byUser;
      assert t'.byUser[k].orderId !in t'.byId;
    } else if first.Applied() && t.byUser == map[] {
      assert t'.byUser == map[];
    }
  }

  /** A clear whose second truncation fails: the order is gone by id and still listed for its user. */
  lemma HalfClearedOutOfStep(o: Order)
    ensures InSync(Insert(EMPTY, o))
    ensures var t := Truncate(Insert(EMPTY, o), Acknowledged, FailedUnapplied);
            t.byId == map[] && PairOf(o) in t.byUser && !InSync(t)
  {
    var t := Truncate(Insert(EMPTY, o), Acknowledged, FailedUnapplied);
    assert t.byUser[PairOf(o)].orderId !in t.byId;
  }

  // ----- histories with deletes, clears and failures -----

  datatype Operation =
    | InsertOp(order: Order, first: Write, second: Write)
    | DeleteOp(orderId: string, outcome: Write)
    | ClearOp(first: Write, second: Write)
  {
    /** What the operation did to one order, as far as its statements took effect. */
    predicate AddsById(o: Order) { InsertOp? && order == o && first.Applied() }

    predicate AddsByUser(o: Order) { InsertOp? && order == o && first.Acknowledged? && second.Applied() }

    predicate RemovesById(o: Order) {
      (DeleteOp? && orderId == o.orderId && outcome.Applied()) || (ClearOp? && first.Applied())
    }

    predicate EmptiesByUser() { ClearOp? && first.Acknowledged? && second.Applied() }
  }

  function Apply(t: Tables, op: Operation): Tables {
    match op
    case InsertOp(o, first, second) => Attempt(t, o, first, second)
    case DeleteOp(id, outcome) => if outcome.Applied() then Delete(t, id) else t
    case ClearOp(first, second) => Truncate(t, first, second)
  }

  function Replay(h: seq<Operation>): Tables {
    if h == [] then EMPTY else Apply(Replay(h[..|h| - 1]), h[|h| - 1])
  }

  /** A first write of the order took effect and nothing removed the order since. */
  ghost predicate Held(h: seq<Operation>, o: Order) {
    h != [] && (h[|h| - 1].AddsById(o) || (!h[|h| - 1].RemovesById(o) && Held(h[..|h| - 1], o)))
  }

  /** A second write of the order took effect since orders_by_user was last emptied. */
  ghost predicate Listed(h: seq<Operation>, o: Order) {
    h != [] && (h[|h| - 1].AddsByUser(o) || (!h[|h| - 1].EmptiesByUser() && Listed(h[..|h| - 1], o)))
  }

  /** A delete or the first truncation of a clear removed the order, and no first write of it followed. */
  ghost predicate Removed(h: seq<Operation>, o: Order) {
    h != [] && (h[|h| - 1].RemovesById(o) || (!h[|h| - 1].AddsById(o) && Removed(h[..|h| - 1], o)))
  }

  /** Deleted by id since it was last written, and still listed for its user. */
  ghost predicate Deleted(h: seq<Operation>, o: Order) { Listed(h, o) && Removed(h, o) }

  /** Stored by id, but no second write of it took effect. */
  ghost predicate HalfInserted(h: seq<Operation>, o: Order) { Held(h, o) && !Listed(h, o) }

  /** Two different orders, with different ids and (user, created_at) pairs. */
  predicate Apart(o: Order, p: Order) { o.orderId != p.orderId && PairOf(o) != PairOf(p) }

  ghost predicate Known(h: seq<Operation>, o: Order) { Held(h, o) || Listed(h, o) }

  /** The order is apart from all other orders the tables still know. */
  ghost predicate NewTo(h: seq<Operation>, o: Order) {
    forall p :: Known(h, p) ==> p == o || Apart(p, o)
  }

  /** Every insert brings a new order; the same order may be inserted again, as a retry does. */
  ghost predicate Fresh(h: seq<Operation>) {
    h == [] || (Fresh(h[..|h| - 1]) && (h[|h| - 1].InsertOp? ==> NewTo(h[..|h| - 1], h[|h| - 1].order)))
  }

  /** Every row of orders_by_user has its order in orders_by_id, and the other way round. */
  ghost predicate InSync(t: Tables) {
    && (forall k :: k in t.byUser ==>
          t.byUser[k].orderId in t.byId && RowOf(t.byId[t.byUser[k].orderId]) == t.byUser[k])
    && (forall id :: id in t.byId ==>
          PairOf(t.byId[id]) in t.byUser && t.byUser[PairOf(t.byId[id])] == RowOf(t.byId[id]))
  }

  ghost predicate StoredAs(t: Tables, o: Order) { o.orderId in t.byId && t.byId[o.orderId] == o }

  ghost predicate ListedAs(t: Tables, o: Order) { PairOf(o) in t.byUser && t.byUser[PairOf(o)] == RowOf(o) }

  /** orders_by_id holds exactly the orders held. */
  ghost predicate HoldsHeld(h: seq<Operation>) {
    && (forall o :: StoredAs(Replay(h), o) <==> Held(h, o))
    && IdsKeyed(Replay(h))
  }

  ghost predicate IdsKeyed(t: Tables) {
    forall id :: id in t.byId ==> t.byId[id].orderId == id
  }

  /** orders_by_user is exactly the index of the orders listed. */
  ghost predicate IndexesListed(h: seq<Operation>) {
    && (forall o :: Listed(h, o) ==> ListedAs(Replay(h), o))
    && forall k :: k in Replay(h).byUser ==> exists o :: Listed(h, o) && PairOf(o) == k
  }

  ghost predicate KnownApart(h: seq<Operation>) {
    forall o, p :: Known(h, o) && Known(h, p) && o != p ==> Apart(o, p)
  }

  lemma {:induction false} KnownSame(h: seq<Operation>, o: Order, p: Order)
    requires KnownApart(h) && Known(h, o) && Known(h, p) && !Apart(o, p)
    ensures o == p
  {}

  lemma {:induction false} KnownStayApart(h: seq<Operation>)
    requires Fresh(h)
    ensures KnownApart(h)
  {
    if h != [] {
      var before, op := h[..|h| - 1], h[|h| - 1];
      KnownStayApart(before);
      forall o, p | Known(h, o) && Known(h, p) && o != p ensures Apart(o, p) {
        KnownStep(h, o);
        KnownStep(h, p);
      }
    }
  }

  lemma {:induction false} KnownStep(h: seq<Operation>, o: Order)
    requires h != [] && Known(h, o)
    ensures Known(h[..|h| - 1], o) || (h[|h| - 1].InsertOp? && h[|h| - 1].order == o)
  {}

  lemma {:induction false} TablesOfHistory(h: seq<Operation>)
    requires Fresh(h)
    ensures HoldsHeld(h) && IndexesListed(h)
  {
    if h != [] {
      TablesOfHistory(h[..|h| - 1]);
      HeldStep(h);
      ListedStep(h);
    }
  }

  lemma {:induction false} HeldStep(h: seq<Operation>)
    requires Fresh(h) && h != [] && HoldsHeld(h[..|h| - 1])
    ensures HoldsHeld(h)
  {
    forall o ensures StoredAs(Replay(h), o) <==> Held(h, o) {
      StoredStep(Replay(h[..|h| - 1]), h, o);
    }
    IdsStep(Replay(h[..|h| - 1]), h[|h| - 1]);
  }

  lemma {:induction false} IdsStep(t: Tables, op: Operation)
    requires IdsKeyed(t)
    ensures IdsKeyed(Apply(t, op))
  {}

  lemma {:induction false} StoredStep(t: Tables, h: seq<Operation>, o: Order)
    requires Fresh(h) && h != [] && t == Replay(h[..|h| - 1]) && (StoredAs(t, o) <==> Held(h[..|h| - 1], o))
    ensures StoredAs(Apply(t, h[|h| - 1]), o) <==> Held(h, o)
  {
    var before, op := h[..|h| - 1], h[|h| - 1];
    if op.InsertOp? && Held(before, o) {
      assert Known(before, o);
    }
  }

  lemma {:induction false} ListedStep(h: seq<Operation>)
    requires Fresh(h) && h != [] && IndexesListed(h[..|h| - 1])
    ensures IndexesListed(h)
  {
    var before, op := h[..|h| - 1], h[|h| - 1];
    forall o | Listed(h, o) ensures ListedAs(Replay(h), o) {
      ListedOneStep(h, o);
    }
    forall k | k in Replay(h).byUser ensures exists o :: Listed(h, o) && PairOf(o) == k {
      RowRemains(Replay(before), op, k);
      if op.InsertOp? && op.AddsByUser(op.order) && PairOf(op.order) == k {
        assert Listed(h, op.order);
      } else {
        var o :| Listed(before, o) && PairOf(o) == k;
        assert Listed(h, o);
      }
    }
  }

  lemma {:induction false} RowRemains(t: Tables, op: Operation, k: Pair)
    requires k in Apply(t, op).byUser
    ensures (op.InsertOp? && op.AddsByUser(op.order) && PairOf(op.order) == k)
            || (k in t.byUser && !op.EmptiesByUser())
  {}

  lemma {:induction false} ListedOneStep(h: seq<Operation>, o: Order)
    requires Fresh(h) && h != [] && Listed(h, o)
    requires Listed(h[..|h| - 1], o) ==> ListedAs(Replay(h[..|h| - 1]), o)
    ensures ListedAs(Replay(h), o)
  {
    var before, op := h[..|h| - 1], h[|h| - 1];
    if op.InsertOp? && Listed(before, o) {
      assert Known(before, o);
    }
  }

  lemma {:induction false} ListedUnlessRemoved(h: seq<Operation>, o: Order)
    ensures Listed(h, o) ==> (Held(h, o) <==> !Removed(h, o))
  {
    if h != [] {
      ListedUnlessRemoved(h[..|h| - 1], o);
    }
  }

  /** orders_by_user lists exactly the orders of orders_by_id, without those whose second write never
      took effect and with those deleted since; whatever failed, and however often it was retried. */
  lemma {:induction false} UserTableKeepsDeleted(h: seq<Operation>)
    requires Fresh(h)
    ensures var t := Replay(h);
            && (forall o :: ListedAs(t, o) && Known(h, o) <==> Deleted(h, o) || (StoredAs(t, o) && !HalfInserted(h, o)))
            && (forall o :: Deleted(h, o) ==> !StoredAs(t, o))
            && (forall o :: HalfInserted(h, o) ==> StoredAs(t, o))
            && (forall k :: k in t.byUser ==> exists o :: Known(h, o) && ListedAs(t, o) && PairOf(o) == k)
  {
    var t := Replay(h);
    TablesOfHistory(h);
    KnownStayApart(h);
    forall o ensures ListedAs(t, o) && Known(h, o) <==> Deleted(h, o) || (StoredAs(t, o) && !HalfInserted(h, o))
             ensures Deleted(h, o) ==> !StoredAs(t, o)
    {
      ListedUnlessRemoved(h, o);
      ListedIff(h, o);
    }
    forall k | k in t.byUser ensures exists o :: Known(h, o) && ListedAs(t, o) && PairOf(o) == k {
      var o :| Listed(h, o) && PairOf(o) == k;
      assert Known(h, o) && ListedAs(t, o);
    }
  }

  lemma {:induction false} ListedIff(h: seq<Operation>, o: Order)
    requires IndexesListed(h) && KnownApart(h)
    ensures Listed(h, o) <==> ListedAs(Replay(h), o) && Known(h, o)
  {
    if ListedAs(Replay(h), o) && Known(h, o) {
      var p :| Listed(h, p) && PairOf(p) == PairOf(o);
      KnownSame(h, o, p);
    }
  }

  /** The two tables hold the same orders exactly when no order was deleted and none half inserted. */
  lemma {:induction false} InSyncIff(h: seq<Operation>)
    requires Fresh(h)
    ensures InSync(Replay(h)) <==> forall o :: !Deleted(h, o) && !HalfInserted(h, o)
  {
    TablesOfHistory(h);
    KnownStayApart(h);
    if forall o :: !Deleted(h, o) && !HalfInserted(h, o) {
      forall o ensures Held(h, o) <==> Listed(h, o) {
        ListedUnlessRemoved(h, o);
        assert !Deleted(h, o) && !HalfInserted(h, o);
      }
      HeldIsListed(h);
    } else {
      var o :| Deleted(h, o) || HalfInserted(h, o);
      ListedUnlessRemoved(h, o);
      if HalfInserted(h, o) {
        HalfInsertedOutOfStep(h, o);
      } else {
        DeletedOutOfStep(h, o);
      }
    }
  }

  lemma {:induction false} HeldIsListed(h: seq<Operation>)
    requires HoldsHeld(h) && IndexesListed(h) && forall o :: Held(h, o) <==> Listed(h, o)
    ensures InSync(Replay(h))
  {
    var t := Replay(h);
    forall k | k in t.byUser
      ensures t.byUser[k].orderId in t.byId && RowOf(t.byId[t.byUser[k].orderId]) == t.byUser[k]
    {
      var o :| Listed(h, o) && PairOf(o) == k;
      assert ListedAs(t, o) && StoredAs(t, o);
    }
    forall id | id in t.byId
      ensures PairOf(t.byId[id]) in t.byUser && t.byUser[PairOf(t.byId[id])] == RowOf(t.byId[id])
    {
      assert StoredAs(t, t.byId[id]);
      assert ListedAs(t, t.byId[id]);
    }
  }

  lemma {:induction false} HalfInsertedOutOfStep(h: seq<Operation>, o: Order)
    requires HoldsHeld(h) && IndexesListed(h) && KnownApart(h) && HalfInserted(h, o)
    ensures !InSync(Replay(h))
  {
    ListedIff(h, o);
    NotListed(Replay(h), o);
  }

  lemma {:induction false} DeletedOutOfStep(h: seq<Operation>, o: Order)
    requires HoldsHeld(h) && IndexesListed(h) && KnownApart(h) && Listed(h, o) && !Held(h, o)
    ensures !InSync(Replay(h))
  {
    if InSync(Replay(h)) {
      var q := SameRow(Replay(h), o);
      KnownSame(h, o, q);
    }
  }

  lemma {:induction false} NotListed(t: Tables, o: Order)
    requires StoredAs(t, o) && !ListedAs(t, o)
    ensures !InSync(t)
  {}

  lemma {:induction false} SameRow(t: Tables, o: Order) returns (q: Order)
    requires InSync(t) && IdsKeyed(t) && ListedAs(t, o)
    ensures StoredAs(t, q) && q.orderId == o.orderId
  {
    q := t.byId[t.byUser[PairOf(o)].orderId];
  }

  ghost predicate AllAcknowledged(h: seq<Operation>) {
    forall i :: 0 <= i < |h| ==>
      match h[i]
      case InsertOp(_, first, second) => first.Acknowledged? && second.Acknowledged?
      case DeleteOp(_, outcome) => outcome.Acknowledged?
      case ClearOp(first, second) => first.Acknowledged? && second.Acknowledged?
  }

  lemma {:induction false} NothingHalfInserted(h: seq<Operation>, o: Order)
    requires AllAcknowledged(h)
    ensures !HalfInserted(h, o)
  {
    if h != [] {
      NothingHalfInserted(h[..|h| - 1], o);
    }
  }

  /** Without failures the tables hold the same orders exactly when nothing was deleted since the last
      clear: delete_by_primary_key leaves the row of orders_by_user behind. */
  lemma {:induction false} InSyncIffNothingDeleted(h: seq<Operation>)
    requires Fresh(h) && AllAcknowledged(h)
    ensures InSync(Replay(h)) <==> forall o :: !Deleted(h, o)
  {
    InSyncIff(h);
    forall o ensures !HalfInserted(h, o) {
      NothingHalfInserted(h, o);
    }
  }

  /** One insert and its delete: the order is gone by id and still listed for its user. */
  lemma {:induction false} DeletedOrderStillListed(o: Order)
    ensures var h := [InsertOp(o, Acknowledged, Acknowledged), DeleteOp(o.orderId, Acknowledged)];
            && Fresh(h) && Deleted(h, o)
            && o.orderId !in Replay(h).byId && PairOf(o) in Replay(h).byUser && !InSync(Replay(h))
  {
    var h := [InsertOp(o, Acknowledged, Acknowledged), DeleteOp(o.orderId, Acknowledged)];
    assert h[..1] == [InsertOp(o, Acknowledged, Acknowledged)] && h[..1][..0] == [];
    assert Replay(h[..1]) == Insert(EMPTY, o);
    assert Replay(h) == Delete(Insert(EMPTY, o), o.orderId);
    assert Replay(h).byUser[PairOf(o)] == RowOf(o);
  }

  /** One insert whose second write fails: the order is found by id and not listed for its user. */
  lemma HalfInsertedNotListed(o: Order)
    ensures var h := [InsertOp(o, Acknowledged, FailedUnapplied)];
            && Fresh(h) && HalfInserted(h, o)
            && o.orderId in Replay(h).byId && PairOf(o) !in Replay(h).byUser && !InSync(Replay(h))
  {
    var h := [InsertOp(o, Acknowledged, FailedUnapplied)];
    assert h[..0] == [] && !Listed(h, o) && Held(h, o);
    assert NewTo([], o);
    assert Replay(h) == Attempt(EMPTY, o, Acknowledged, FailedUnapplied) == WriteById(EMPTY, o);
    assert StoredAs(Replay(h), o) && !ListedAs(Replay(h), o);
    NotListed(Replay(h), o);
  }
}
