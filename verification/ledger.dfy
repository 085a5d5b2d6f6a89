/**
 The `refunds` ledger and the `orders` it refers to (src/core/repositories/refund_repository.py).

 The ledger is the sequence of recorded rows in commit order. `Refund.id` and `Refund.createdAt`
 are what the database stamps; neither has to agree with commit order.
 */
module RefundLedger {
  import opened Options
  import opened Counting
  import Money

  datatype Order = Order(userId: string, cents: int, currency: string)

  datatype Refund = Refund(
    id: nat, requestId: string, orderId: string, cents: int, currency: string, createdAt: int)

  /** The arguments of the `execute_refund` tool. */
  datatype RefundArgs = RefundArgs(requestId: string, orderId: string, amount: real, currency: string)

  /** The result of the `execute_refund` tool: `executed`, or `already_executed`. */
  datatype Receipt = Receipt(executed: bool, refund: Refund)

  predicate Recorded(ledger: seq<Refund>, requestId: string) {
    exists i | 0 <= i < |ledger| :: ledger[i].requestId == requestId
  }

  /** The unique constraint on `request_id`. */
  ghost predicate UniqueRequestIds(ledger: seq<Refund>) {
    forall i, j | 0 <= i < j < |ledger| :: ledger[i].requestId != ledger[j].requestId
  }

  function Lookup(ledger: seq<Refund>, requestId: string): (r: Refund)
    requires Recorded(ledger, requestId)
    ensures r in ledger && r.requestId == requestId
  {
    if ledger[0].requestId == requestId then ledger[0] else Lookup(ledger[1..], requestId)
  }

  function NewRow(args: RefundArgs, id: nat, now: int): Refund {
    Refund(id, args.requestId, args.orderId, Money.Cents(args.amount), args.currency, now)
  }

  /** INSERT ... ON CONFLICT (request_id) DO NOTHING. */
  function AfterRecord(ledger: seq<Refund>, args: RefundArgs, id: nat, now: int): seq<Refund> {
    if Recorded(ledger, args.requestId) then ledger else ledger + [NewRow(args, id, now)]
  }

  /** What the insert and the read after it answer. */
  function ReceiptOf(ledger: seq<Refund>, args: RefundArgs, id: nat, now: int): (r: Receipt)
    ensures r.refund in AfterRecord(ledger, args, id, now) && r.refund.requestId == args.requestId
  {
    if Recorded(ledger, args.requestId) then Receipt(false, Lookup(ledger, args.requestId))
    else Receipt(true, NewRow(args, id, now))
  }

  /** Under the unique constraint a membership fact identifies the row. */
  lemma LookupUnique(ledger: seq<Refund>, x: Refund, y: Refund)
    requires UniqueRequestIds(ledger) && x in ledger && y in ledger && x.requestId == y.requestId
    ensures x == y
  {
    var i :| 0 <= i < |ledger| && ledger[i] == x;
    var j :| 0 <= j < |ledger| && ledger[j] == y;
    assert !(i < j) && !(j < i);
  }

  // ----- The refunds table behind the tool -----

  class RefundsTable {
    var rows: seq<Refund>
    var nextId: nat

    ghost predicate Valid()
      reads this
    {
      && UniqueRequestIds(rows)
      && forall i | 0 <= i < |rows| :: rows[i].id < nextId
    }

    constructor ()
      ensures Valid() && rows == []
    {
      rows, nextId := [], 0;
    }

    /** A replay writes nothing and answers the stored row, whatever its arguments say. */
    method RecordRefund(args: RefundArgs, now: int) returns (refund: Refund, created: bool)
      requires Valid()
      modifies this
      ensures Valid()
      ensures created <==> !Recorded(old(rows), args.requestId)
      ensures !created ==> rows == old(rows)
      ensures created ==> rows == old(rows) + [refund] && refund == NewRow(args, old(nextId), now)
      ensures created ==>
                && refund.requestId == args.requestId && refund.orderId == args.orderId
                && refund.cents == Money.Cents(args.amount) && refund.currency == args.currency
                && refund.createdAt == now
      ensures refund in rows && refund.requestId == args.requestId
      ensures rows == AfterRecord(old(rows), args, old(nextId), now)
      ensures Receipt(created, refund) == ReceiptOf(old(rows), args, old(nextId), now)
    {
      // ON CONFLICT DO NOTHING still takes a value from the id sequence.
      var id := nextId;
      nextId := nextId + 1;
      created := !Recorded(rows, args.requestId);
      if created {
        rows := rows + [NewRow(args, id, now)];
      }
      assert created ==> rows[|rows| - 1] == NewRow(args, id, now);
      refund := Lookup(rows, args.requestId);
      if created {
        LookupUnique(rows, refund, NewRow(args, id, now));
      }
    }
  }

  /** Replaying any request, with any arguments, answers the row that the first call recorded. */
  lemma ReplayAnswersTheRecordedRow(ledger: seq<Refund>, first: RefundArgs, replay: RefundArgs,
                                    id: nat, now: int, id': nat, now': int)
    requires UniqueRequestIds(ledger) && first.requestId == replay.requestId
    ensures var after := AfterRecord(ledger, first, id, now);
            && AfterRecord(after, replay, id', now') == after
            && ReceiptOf(after, replay, id', now')
               == Receipt(false, ReceiptOf(ledger, first, id, now).refund)
  {
    var after := AfterRecord(ledger, first, id, now);
    if !Recorded(ledger, first.requestId) {
      assert after[|ledger|] == NewRow(first, id, now);
    }
    assert Recorded(after, replay.requestId);
    LookupUnique(after, Lookup(after, replay.requestId), ReceiptOf(ledger, first, id, now).refund);
  }

  // ----- Refund history -----

  /** The join through `orders`, restricted to one user. */
  predicate OnUsersOrder(orders: map<string, Order>, userId: string, x: Refund) {
    x.orderId in orders && orders[x.orderId].userId == userId
  }

  function UsersRefunds(ledger: seq<Refund>, orders: map<string, Order>, userId: string): seq<Refund> {
    if ledger == [] then []
    else (if OnUsersOrder(orders, userId, ledger[0]) then [ledger[0]] else [])
         + UsersRefunds(ledger[1..], orders, userId)
  }

  predicate NewerFirst(x: Refund, y: Refund) {
    x.createdAt > y.createdAt || (x.createdAt == y.createdAt && x.id >= y.id)
  }

  function InsertNewestFirst(x: Refund, s: seq<Refund>): seq<Refund> {
    if s == [] || NewerFirst(x, s[0]) then [x] + s else [s[0]] + InsertNewestFirst(x, s[1..])
  }

  /** ORDER BY created_at DESC, id DESC. */
  function NewestFirst(s: seq<Refund>): seq<Refund> {
    if s == [] then [] else InsertNewestFirst(s[0], NewestFirst(s[1..]))
  }

  function ListRefundsForUser(ledger: seq<Refund>, orders: map<string, Order>, userId: string, limit: nat)
    : seq<Refund>
  {
    var all := NewestFirst(UsersRefunds(ledger, orders, userId));
    if |all| <= limit then all else all[..limit]
  }

  function CountRefundsForUser(ledger: seq<Refund>, orders: map<string, Order>, userId: string): nat {
    |UsersRefunds(ledger, orders, userId)|
  }

  lemma {:induction false} InsertKeepsRows(x: Refund, s: seq<Refund>)
    ensures multiset(InsertNewestFirst(x, s)) == multiset(s) + multiset{x}
    ensures |InsertNewestFirst(x, s)| == |s| + 1
  {
    if s == [] || NewerFirst(x, s[0]) {
    } else {
      InsertKeepsRows(x, s[1..]);
      assert s == [s[0]] + s[1..];
    }
  }

  lemma {:induction false} InsertKeepsSorted(x: Refund, s: seq<Refund>)
    requires forall i, j | 0 <= i < j < |s| :: NewerFirst(s[i], s[j])
    ensures var t := InsertNewestFirst(x, s);
            forall i, j | 0 <= i < j < |t| :: NewerFirst(t[i], t[j])
  {
    if s == [] || NewerFirst(x, s[0]) {
    } else {
      InsertKeepsSorted(x, s[1..]);
      InsertKeepsRows(x, s[1..]);
      var u := InsertNewestFirst(x, s[1..]);
      forall j | 0 <= j < |u| ensures NewerFirst(s[0], u[j]) {
        assert u[j] in multiset(u);
        assert u[j] == x || u[j] in s[1..];
      }
    }
  }

  /** The ordering used for the listing is a newest-first permutation of the rows. */
  lemma {:induction false} NewestFirstSorts(s: seq<Refund>)
    ensures var t := NewestFirst(s);
            && multiset(t) == multiset(s) && |t| == |s|
            && forall i, j | 0 <= i < j < |t| :: NewerFirst(t[i], t[j])
  {
    if s != [] {
      NewestFirstSorts(s[1..]);
      InsertKeepsRows(s[0], NewestFirst(s[1..]));
      InsertKeepsSorted(s[0], NewestFirst(s[1..]));
      assert s == [s[0]] + s[1..];
    }
  }

  lemma {:induction false} UsersRefundsConcat(a: seq<Refund>, b: seq<Refund>, orders: map<string, Order>,
                                              userId: string)
    ensures UsersRefunds(a + b, orders, userId) == UsersRefunds(a, orders, userId) + UsersRefunds(b, orders, userId)
  {
    if a == [] {
      assert a + b == b;
    } else {
      assert (a + b)[1..] == a[1..] + b;
      UsersRefundsConcat(a[1..], b, orders, userId);
    }
  }

  lemma {:induction false} CountPositions(ledger: seq<Refund>, orders: map<string, Order>, userId: string)
    ensures CountRefundsForUser(ledger, orders, userId)
            == |Positions(ledger, (x: Refund) => OnUsersOrder(orders, userId, x))|
  {
    var p := (x: Refund) => OnUsersOrder(orders, userId, x);
    if ledger == [] {
      NoPositions(p);
    } else {
      var init, x := ledger[..|ledger| - 1], ledger[|ledger| - 1];
      CountPositions(init, orders, userId);
      assert ledger == init + [x];
      UsersRefundsConcat(init, [x], orders, userId);
      PositionsSnoc(ledger, p);
    }
  }

  /** The count is the number of ledger rows on orders that exist and belong to the user. */
  lemma CountIsUsersRows(ledger: seq<Refund>, orders: map<string, Order>, userId: string)
    ensures CountRefundsForUser(ledger, orders, userId)
            == |set i: nat | i < |ledger| && ledger[i].orderId in orders
                             && orders[ledger[i].orderId].userId == userId|
  {
    CountPositions(ledger, orders, userId);
    assert (set i: nat | i < |ledger| && ledger[i].orderId in orders && orders[ledger[i].orderId].userId == userId)
        == Positions(ledger, (x: Refund) => OnUsersOrder(orders, userId, x));
  }

  lemma {:induction false} UsersRowsAre(ledger: seq<Refund>, orders: map<string, Order>, userId: string, x: Refund)
    ensures multiset(UsersRefunds(ledger, orders, userId))[x]
            == if x.orderId in orders && orders[x.orderId].userId == userId then multiset(ledger)[x] else 0
  {
    if ledger != [] {
      assert ledger == [ledger[0]] + ledger[1..];
      UsersRowsAre(ledger[1..], orders, userId, x);
    }
  }

  /**
   A listing, whatever its limit: the user's rows are the listed ones and some unlisted ones, each as often as in
   the ledger and nobody else's; the listed ones are newest first, none of the unlisted ones is newer, and there
   are unlisted ones only where the limit is used up.
   */
  lemma ListingIs(ledger: seq<Refund>, orders: map<string, Order>, userId: string, limit: nat)
    returns (unlisted: seq<Refund>)
    ensures var listed := ListRefundsForUser(ledger, orders, userId, limit);
            && (forall x :: multiset(listed + unlisted)[x] ==
                  if x.orderId in orders && orders[x.orderId].userId == userId then multiset(ledger)[x] else 0)
            && |listed| <= limit && (unlisted != [] ==> |listed| == limit)
            && (forall i, j | 0 <= i < j < |listed| ::
                  listed[i].createdAt > listed[j].createdAt
                  || (listed[i].createdAt == listed[j].createdAt && listed[i].id >= listed[j].id))
            && (forall i, j | 0 <= i < |listed| && 0 <= j < |unlisted| ::
                  listed[i].createdAt > unlisted[j].createdAt
                  || (listed[i].createdAt == unlisted[j].createdAt && listed[i].id >= unlisted[j].id))
  {
    var rows := UsersRefunds(ledger, orders, userId);
    var all, listed := NewestFirst(rows), ListRefundsForUser(ledger, orders, userId, limit);
    NewestFirstSorts(rows);
    unlisted := all[|listed|..];
    assert listed + unlisted == all;
    forall x ensures multiset(listed + unlisted)[x] ==
        if x.orderId in orders && orders[x.orderId].userId == userId then multiset(ledger)[x] else 0 {
      UsersRowsAre(ledger, orders, userId, x);
    }
    PartsAreNewestFirst(all, listed, unlisted);
  }

  lemma PartsAreNewestFirst(all: seq<Refund>, first: seq<Refund>, second: seq<Refund>)
    requires all == first + second && forall i, j | 0 <= i < j < |all| :: NewerFirst(all[i], all[j])
    ensures forall i, j | 0 <= i < j < |first| :: NewerFirst(first[i], first[j])
    ensures forall i, j | 0 <= i < |first| && 0 <= j < |second| :: NewerFirst(first[i], second[j])
  {
    forall i, j | 0 <= i < j < |first| ensures NewerFirst(first[i], first[j]) {
      assert first[i] == all[i] && first[j] == all[j];
    }
    forall i, j | 0 <= i < |first| && 0 <= j < |second| ensures NewerFirst(first[i], second[j]) {
      assert first[i] == all[i] && second[j] == all[|first| + j];
    }
  }

  // ----- Totals per order -----

  /** What the order has been refunded, in cents. */
  function OrderTotal(ledger: seq<Refund>, orderId: string): int {
    if ledger == [] then 0
    else OrderTotal(ledger[..|ledger| - 1], orderId)
         + (var x := ledger[|ledger| - 1]; if x.orderId == orderId then x.cents else 0)
  }

  /** The same without the row of one request. */
  function OrderTotalExcept(ledger: seq<Refund>, orderId: string, requestId: string): int {
    if ledger == [] then 0
    else OrderTotalExcept(ledger[..|ledger| - 1], orderId, requestId)
         + (var x := ledger[|ledger| - 1];
            if x.orderId == orderId && x.requestId != requestId then x.cents else 0)
  }

  lemma {:induction false} TotalOfUnrecorded(ledger: seq<Refund>, orderId: string, requestId: string)
    requires !Recorded(ledger, requestId)
    ensures OrderTotalExcept(ledger, orderId, requestId) == OrderTotal(ledger, orderId)
  {
    if ledger != [] {
      var init := ledger[..|ledger| - 1];
      forall i | 0 <= i < |init| ensures init[i].requestId != requestId {
        assert ledger[i] == init[i];
      }
      TotalOfUnrecorded(init, orderId, requestId);
    }
  }

  lemma {:induction false} TotalNonNegative(ledger: seq<Refund>, orderId: string, requestId: string)
    requires forall i | 0 <= i < |ledger| :: ledger[i].cents >= 0
    ensures OrderTotal(ledger, orderId) >= 0
    ensures OrderTotalExcept(ledger, orderId, requestId) >= 0
  {
    if ledger != [] {
      TotalNonNegative(ledger[..|ledger| - 1], orderId, requestId);
    }
  }

  lemma {:induction false} TotalConcat(a: seq<Refund>, b: seq<Refund>, orderId: string, requestId: string)
    ensures OrderTotal(a + b, orderId) == OrderTotal(a, orderId) + OrderTotal(b, orderId)
    ensures OrderTotalExcept(a + b, orderId, requestId)
            == OrderTotalExcept(a, orderId, requestId) + OrderTotalExcept(b, orderId, requestId)
  {
    if b == [] {
      assert a + b == a;
    } else {
      TotalConcat(a, b[..|b| - 1], orderId, requestId);
      assert (a + b)[..|a + b| - 1] == a + b[..|b| - 1];
    }
  }

  /** The totals are sums: of all rows on the order, and of those with another request. */
  lemma TotalsAddUp(a: seq<Refund>, b: seq<Refund>, x: Refund, orderId: string, requestId: string)
    ensures OrderTotal([], orderId) == 0 == OrderTotalExcept([], orderId, requestId)
    ensures OrderTotal([x], orderId) == if x.orderId == orderId then x.cents else 0
    ensures OrderTotalExcept([x], orderId, requestId)
            == if x.orderId == orderId && x.requestId != requestId then x.cents else 0
    ensures OrderTotal(a + b, orderId) == OrderTotal(a, orderId) + OrderTotal(b, orderId)
    ensures OrderTotalExcept(a + b, orderId, requestId)
            == OrderTotalExcept(a, orderId, requestId) + OrderTotalExcept(b, orderId, requestId)
  {
    TotalConcat(a, b, orderId, requestId);
    assert [x][..0] == [];
  }

  lemma TotalAfterAppend(ledger: seq<Refund>, x: Refund, orderId: string)
    ensures OrderTotal(ledger + [x], orderId)
            == OrderTotal(ledger, orderId) + (if x.orderId == orderId then x.cents else 0)
  {
    assert (ledger + [x])[..|ledger|] == ledger;
  }
}
