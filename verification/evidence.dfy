/**
 The deterministic evidence check of a refund claim (src/core/services/evidence_check.py), and the
 read tools that feed it (src/mcp_server/mcp_server.py, src/worker/evidence.py).

 The tools return amounts as floats. A two-digit amount is taken to survive that trip, so it is the
 exact real `FromCents(cents)`, which the check rounds back.
 */
module Evidence {
  import opened Options
  import opened RefundLedger
  import opened Money

  datatype RefundClaim = RefundClaim(
    requestId: string, userId: string, orderId: string, amount: real, currency: string)

  datatype OrderResult = NotFound | Found(userId: string, amount: real, currency: string)

  datatype Listed = Listed(requestId: string, orderId: string, amount: real, currency: string)

  datatype History = History(count: nat, refunds: seq<Listed>)

  datatype Limits = Limits(ratesToUsd: map<string, real>, thresholdUsd: real)

  datatype Failure =
    | OrderMissing
    | NotTheOwner
    | CurrencyMismatch
    | HistoryIncomplete(listed: nat, count: nat)
    | RefundInOtherCurrency(currency: string)
    | ExceedsRemaining(amount: int, remaining: int)
    | NoRate
    | OverThreshold(amountUsd: int, threshold: int)

  datatype EvidenceCheck = EvidenceCheck(
    failures: seq<Failure>, alreadyRefunded: Option<int>, amountUsd: Option<int>)
  {
    predicate Passed() { failures == [] }
  }

  // ----- What the check is meant to establish -----

  /** A listed refund that counts against the claim: on its order, and not its own. */
  predicate Counts(claim: RefundClaim, x: Listed) {
    x.orderId == claim.orderId && x.requestId != claim.requestId
  }

  function CountedTotal(claim: RefundClaim, refunds: seq<Listed>): int {
    if refunds == [] then 0
    else CountedTotal(claim, refunds[..|refunds| - 1])
         + (var x := refunds[|refunds| - 1]; if Counts(claim, x) then Cents(x.amount) else 0)
  }

  predicate Complete(history: History) {
    history.count <= |history.refunds|
  }

  predicate OneCurrency(claim: RefundClaim, currency: string, refunds: seq<Listed>) {
    forall i | 0 <= i < |refunds| :: Counts(claim, refunds[i]) ==> refunds[i].currency == currency
  }

  function Remaining(orderAmount: real, alreadyRefunded: int): int {
    if Cents(orderAmount) - alreadyRefunded > 0 then Cents(orderAmount) - alreadyRefunded else 0
  }

  function AmountUsd(claim: RefundClaim, rate: real): int {
    Converted(claim.amount, rate)
  }

  /** The rule on what is left of the order: a complete, comparable history and room for the claim. */
  predicate FitsTheOrder(claim: RefundClaim, order: OrderResult, history: History)
    requires order.Found?
  {
    && Complete(history)
    && OneCurrency(claim, order.currency, history.refunds)
    && Cents(claim.amount) <= Remaining(order.amount, CountedTotal(claim, history.refunds))
  }

  /** The rule on the human-review limit. */
  predicate UnderTheLimit(claim: RefundClaim, limits: Limits) {
    && claim.currency in limits.ratesToUsd
    && AmountUsd(claim, limits.ratesToUsd[claim.currency]) <= Cents(limits.thresholdUsd)
  }

  /** The documented rules, as one condition. */
  predicate Passes(claim: RefundClaim, order: OrderResult, history: History, limits: Limits) {
    && order.Found?
    && order.userId == claim.userId
    && order.currency == claim.currency
    && FitsTheOrder(claim, order, history)
    && UnderTheLimit(claim, limits)
  }

  // ----- What each rule reports -----

  function FirstOtherCurrency(claim: RefundClaim, currency: string, refunds: seq<Listed>): (c: string)
    requires !OneCurrency(claim, currency, refunds)
    ensures c != currency
  {
    var init := refunds[..|refunds| - 1];
    if OneCurrency(claim, currency, init) then refunds[|refunds| - 1].currency
    else FirstOtherCurrency(claim, currency, init)
  }

  function OwnerFailures(claim: RefundClaim, order: OrderResult): seq<Failure>
    requires order.Found?
  {
    if order.userId != claim.userId then [NotTheOwner] else []
  }

  function HistoryFailures(claim: RefundClaim, currency: string, history: History): seq<Failure> {
    if !Complete(history) then [HistoryIncomplete(|history.refunds|, history.count)]
    else if !OneCurrency(claim, currency, history.refunds) then
      [RefundInOtherCurrency(FirstOtherCurrency(claim, currency, history.refunds))]
    else []
  }

  function RoomFailures(claim: RefundClaim, order: OrderResult, history: History): seq<Failure>
    requires order.Found?
  {
    var remaining := Remaining(order.amount, CountedTotal(claim, history.refunds));
    if order.currency != claim.currency then [CurrencyMismatch]
    else if HistoryFailures(claim, order.currency, history) != [] then
      HistoryFailures(claim, order.currency, history)
    else if Cents(claim.amount) > remaining then [ExceedsRemaining(Cents(claim.amount), remaining)]
    else []
  }

  function LimitFailures(claim: RefundClaim, limits: Limits): seq<Failure> {
    if claim.currency !in limits.ratesToUsd then [NoRate]
    else
      var usd := AmountUsd(claim, limits.ratesToUsd[claim.currency]);
      if usd > Cents(limits.thresholdUsd) then [OverThreshold(usd, Cents(limits.thresholdUsd))] else []
  }

  function Failures(claim: RefundClaim, order: OrderResult, history: History, limits: Limits): seq<Failure> {
    if order.NotFound? then [OrderMissing]
    else OwnerFailures(claim, order) + RoomFailures(claim, order, history) + LimitFailures(claim, limits)
  }

  /** The reports are empty exactly when the documented rules hold. */
  lemma NoFailureIffPasses(claim: RefundClaim, order: OrderResult, history: History, limits: Limits)
    ensures Failures(claim, order, history, limits) == [] <==> Passes(claim, order, history, limits)
  {
    if order.Found? {
      var owner, room, limit :=
        OwnerFailures(claim, order), RoomFailures(claim, order, history), LimitFailures(claim, limits);
      assert |owner + room + limit| == |owner| + |room| + |limit|;
    }
  }

  /** The refund that is reported: the first one counted that is in another currency. */
  lemma {:induction false} FirstOtherCurrencyIs(claim: RefundClaim, currency: string, refunds: seq<Listed>)
    returns (i: nat)
    requires !OneCurrency(claim, currency, refunds)
    ensures i < |refunds| && FirstOtherCurrency(claim, currency, refunds) == refunds[i].currency != currency
    ensures refunds[i].orderId == claim.orderId && refunds[i].requestId != claim.requestId
    ensures forall j | 0 <= j < i && refunds[j].orderId == claim.orderId && refunds[j].requestId != claim.requestId ::
              refunds[j].currency == currency
  {
    var init := refunds[..|refunds| - 1];
    if OneCurrency(claim, currency, init) {
      i := |init|;
      forall j | 0 <= j < i && Counts(claim, refunds[j]) ensures refunds[j].currency == currency {
        assert init[j] == refunds[j];
      }
    } else {
      i := FirstOtherCurrencyIs(claim, currency, init);
      forall j | 0 <= j < i && Counts(claim, refunds[j]) ensures refunds[j].currency == currency {
        assert init[j] == refunds[j];
      }
    }
  }

  /** Where a failure stands in the report. */
  function Rank(f: Failure): nat {
    match f
    case OrderMissing => 0
    case NotTheOwner => 1
    case NoRate => 3
    case OverThreshold(_, _) => 3
    case _ => 2
  }

  /** Which rule about the order and its history is reported, with its figures. */
  lemma RoomFailuresAre(claim: RefundClaim, order: OrderResult, history: History)
    requires order.Found?
    ensures var f := RoomFailures(claim, order, history);
            var left := Cents(order.amount) - CountedTotal(claim, history.refunds);
            var mixed := exists i :: 0 <= i < |history.refunds| && history.refunds[i].orderId == claim.orderId
                           && history.refunds[i].requestId != claim.requestId
                           && history.refunds[i].currency != order.currency;
            f == if order.currency != claim.currency then [CurrencyMismatch]
                 else if history.count > |history.refunds| then
                   [HistoryIncomplete(|history.refunds|, history.count)]
                 else if mixed then [RefundInOtherCurrency(FirstOtherCurrency(claim, order.currency, history.refunds))]
                 else if Cents(claim.amount) > (if left > 0 then left else 0) then
                   [ExceedsRemaining(Cents(claim.amount), if left > 0 then left else 0)]
                 else []
  {
    OneCurrencyMeans(claim, order.currency, history.refunds);
  }

  lemma OneCurrencyMeans(claim: RefundClaim, currency: string, refunds: seq<Listed>)
    ensures OneCurrency(claim, currency, refunds) <==>
            !exists i :: 0 <= i < |refunds| && refunds[i].orderId == claim.orderId
                         && refunds[i].requestId != claim.requestId && refunds[i].currency != currency
  {
  }

  /** Which rule about the human-review limit is reported, with its figures. */
  lemma LimitFailuresAre(claim: RefundClaim, limits: Limits)
    ensures LimitFailures(claim, limits) ==
            if claim.currency !in limits.ratesToUsd then [NoRate]
            else
              var usd := Converted(claim.amount, limits.ratesToUsd[claim.currency]);
              if usd > Cents(limits.thresholdUsd) then [OverThreshold(usd, Cents(limits.thresholdUsd))] else []
  {
  }

  /** The report: a missing order alone; else the owner, then the order and its history, then the limit. */
  lemma FailuresAre(claim: RefundClaim, order: OrderResult, history: History, limits: Limits)
    ensures order.NotFound? ==> Failures(claim, order, history, limits) == [OrderMissing]
    ensures order.Found? ==>
              Failures(claim, order, history, limits)
              == (if order.userId != claim.userId then [NotTheOwner] else [])
                 + RoomFailures(claim, order, history) + LimitFailures(claim, limits)
    ensures var f := Failures(claim, order, history, limits);
            forall i, j | 0 <= i < j < |f| :: Rank(f[i]) < Rank(f[j])
  {
    if order.Found? {
      RoomFailuresAre(claim, order, history);
      LimitFailuresAre(claim, limits);
      var owner, room, limit :=
        OwnerFailures(claim, order), RoomFailures(claim, order, history), LimitFailures(claim, limits);
      assert forall i | 0 <= i < |room| :: Rank(room[i]) == 2;
      assert forall i | 0 <= i < |limit| :: Rank(limit[i]) == 3;
    }
  }

  // ----- The check as the code performs it -----

  /** The first refund in another currency decides, wherever the list ends. */
  lemma {:induction false} FirstOtherCurrencyOfPrefix(claim: RefundClaim, currency: string,
                                                      refunds: seq<Listed>, n: nat)
    requires n <= |refunds| && !OneCurrency(claim, currency, refunds[..n])
    ensures !OneCurrency(claim, currency, refunds)
    ensures FirstOtherCurrency(claim, currency, refunds)
            == FirstOtherCurrency(claim, currency, refunds[..n])
  {
    var i :| 0 <= i < n && Counts(claim, refunds[..n][i]) && refunds[..n][i].currency != currency;
    assert refunds[i] == refunds[..n][i];
    if n == |refunds| {
      assert refunds[..n] == refunds;
    } else {
      var init := refunds[..|refunds| - 1];
      assert init[..n] == refunds[..n];
      FirstOtherCurrencyOfPrefix(claim, currency, init, n);
    }
  }

  /** Total already refunded on the claim's order, or the reason why it can't be trusted. */
  method PreviousRefunds(claim: RefundClaim, orderCurrency: string, history: History)
    returns (total: Option<int>, failures: seq<Failure>)
    ensures total.Some? <==> Complete(history) && OneCurrency(claim, orderCurrency, history.refunds)
    ensures total.Some? ==> total.value == CountedTotal(claim, history.refunds)
    ensures failures == HistoryFailures(claim, orderCurrency, history)
  {
    var refunds := history.refunds;
    if history.count > |refunds| {
      return None, [HistoryIncomplete(|refunds|, history.count)];
    }
    var sum := 0;
    for i := 0 to |refunds|
      invariant sum == CountedTotal(claim, refunds[..i])
      invariant OneCurrency(claim, orderCurrency, refunds[..i])
    {
      assert refunds[..i + 1][..i] == refunds[..i];
      var refund := refunds[i];
      if refund.orderId != claim.orderId || refund.requestId == claim.requestId {
        continue;
      }
      if refund.currency != orderCurrency {
        assert refunds[..i + 1][i] == refund;
        FirstOtherCurrencyOfPrefix(claim, orderCurrency, refunds, i + 1);
        return None, [RefundInOtherCurrency(refund.currency)];
      }
      sum := sum + Cents(refund.amount);
    }
    assert refunds[..|refunds|] == refunds;
    return Some(sum), [];
  }

  method CheckRefundEvidence(claim: RefundClaim, order: OrderResult, history: History, limits: Limits)
    returns (check: EvidenceCheck)
    ensures check.Passed() <==> Passes(claim, order, history, limits)
    ensures check.failures == Failures(claim, order, history, limits)
    ensures check.alreadyRefunded ==
            if order.Found? && order.currency == claim.currency
               && HistoryFailures(claim, order.currency, history) == []
            then Some(CountedTotal(claim, history.refunds)) else None
    ensures check.amountUsd ==
            if order.Found? && claim.currency in limits.ratesToUsd
            then Some(Converted(claim.amount, limits.ratesToUsd[claim.currency])) else None
  {
    NoFailureIffPasses(claim, order, history, limits);
    if order.NotFound? {
      return EvidenceCheck([OrderMissing], None, None);
    }
    var failures := [];
    var amount := Cents(claim.amount);
    if order.userId != claim.userId {
      failures := failures + [NotTheOwner];
    }
    assert failures == OwnerFailures(claim, order);
    var alreadyRefunded := None;
    if claim.currency != order.currency {
      failures := failures + [CurrencyMismatch];
    } else {
      var historyFailures;
      alreadyRefunded, historyFailures := PreviousRefunds(claim, order.currency, history);
      failures := failures + historyFailures;
      if alreadyRefunded.Some? {
        var remaining := Remaining(order.amount, alreadyRefunded.value);
        if amount > remaining {
          failures := failures + [ExceedsRemaining(amount, remaining)];
        }
      }
    }
    assert failures == OwnerFailures(claim, order) + RoomFailures(claim, order, history);
    var amountUsd := None;
    if claim.currency !in limits.ratesToUsd {
      failures := failures + [NoRate];
    } else {
      var usd := AmountUsd(claim, limits.ratesToUsd[claim.currency]);
      var threshold := Cents(limits.thresholdUsd);
      amountUsd := Some(usd);
      if usd > threshold {
        failures := failures + [OverThreshold(usd, threshold)];
      }
    }
    return EvidenceCheck(failures, alreadyRefunded, amountUsd);
  }

  // ----- The verdict as a function of the history -----

  lemma {:induction false} CountedTotalConcat(claim: RefundClaim, a: seq<Listed>, b: seq<Listed>)
    ensures CountedTotal(claim, a + b) == CountedTotal(claim, a) + CountedTotal(claim, b)
  {
    if b == [] {
      assert a + b == a;
    } else {
      var init := b[..|b| - 1];
      CountedTotalConcat(claim, a, init);
      assert (a + b)[..|a + b| - 1] == a + init;
    }
  }

  /** The counted total is the sum, to the cent, of what is listed on the order under other requests. */
  lemma CountedTotalAddsUp(claim: RefundClaim, a: seq<Listed>, b: seq<Listed>, x: Listed)
    ensures CountedTotal(claim, []) == 0
    ensures CountedTotal(claim, [x])
            == if x.orderId == claim.orderId && x.requestId != claim.requestId then Cents(x.amount) else 0
    ensures CountedTotal(claim, a + b) == CountedTotal(claim, a) + CountedTotal(claim, b)
  {
    CountedTotalConcat(claim, a, b);
    assert [x][..0] == [];
  }

  /** Taking one entry out takes out its share. */
  lemma CountedTotalWithout(claim: RefundClaim, refunds: seq<Listed>, i: nat)
    requires i < |refunds|
    ensures CountedTotal(claim, refunds)
            == CountedTotal(claim, refunds[..i] + refunds[i + 1..]) + CountedTotal(claim, [refunds[i]])
  {
    var before, x, after := refunds[..i], refunds[i], refunds[i + 1..];
    assert refunds == before + [x] + after;
    CountedTotalConcat(claim, before + [x], after);
    CountedTotalConcat(claim, before, [x]);
    CountedTotalConcat(claim, before, after);
  }

  lemma MultisetWithout<T>(s: seq<T>, i: nat)
    requires i < |s|
    ensures multiset(s[..i] + s[i + 1..]) == multiset(s) - multiset{s[i]}
  {
    assert s == s[..i] + [s[i]] + s[i + 1..];
  }

  lemma {:induction false} CountedTotalPermuted(claim: RefundClaim, a: seq<Listed>, b: seq<Listed>)
    requires multiset(a) == multiset(b)
    ensures CountedTotal(claim, a) == CountedTotal(claim, b)
    decreases |a|
  {
    if a == [] {
      assert |multiset(b)| == 0;
    } else {
      var i := IndexIn(a[0], b);
      var a', b' := a[1..], b[..i] + b[i + 1..];
      assert a == [a[0]] + a';
      MultisetWithout(b, i);
      assert multiset(a') == multiset(a) - multiset{a[0]};
      CountedTotalPermuted(claim, a', b');
      CountedTotalConcat(claim, [a[0]], a');
      CountedTotalWithout(claim, b, i);
    }
  }

  lemma IndexIn<T>(x: T, s: seq<T>) returns (i: nat)
    requires x in multiset(s)
    ensures i < |s| && s[i] == x
  {
    i :| i < |s| && s[i] == x;
  }

  /** The order in which the history is listed never changes the verdict. */
  lemma VerdictIgnoresHistoryOrder(claim: RefundClaim, order: OrderResult, count: nat,
                                   a: seq<Listed>, b: seq<Listed>, limits: Limits)
    requires multiset(a) == multiset(b)
    ensures Passes(claim, order, History(count, a), limits)
            <==> Passes(claim, order, History(count, b), limits)
  {
    CountedTotalPermuted(claim, a, b);
    assert |a| == |multiset(a)| == |multiset(b)| == |b|;
    if order.Found? {
      OneCurrencyPermuted(claim, order.currency, a, b);
      OneCurrencyPermuted(claim, order.currency, b, a);
    }
  }

  lemma OneCurrencyPermuted(claim: RefundClaim, currency: string, a: seq<Listed>, b: seq<Listed>)
    requires multiset(a) == multiset(b)
    ensures OneCurrency(claim, currency, a) ==> OneCurrency(claim, currency, b)
  {
    forall i | 0 <= i < |b| ensures b[i] in a {
      assert b[i] in multiset(b);
      assert b[i] in multiset(a);
    }
  }

  /** One more refund in a complete history can turn a pass into a failure, never the reverse. */
  lemma MoreRefundsNeverHelp(claim: RefundClaim, order: OrderResult, refunds: seq<Listed>,
                             extra: Listed, at: nat, limits: Limits)
    requires at <= |refunds| && extra.amount >= 0.0
    requires Passes(claim, order,
                    History(|refunds| + 1, refunds[..at] + [extra] + refunds[at..]), limits)
    ensures Passes(claim, order, History(|refunds|, refunds), limits)
  {
    var before, after := refunds[..at], refunds[at..];
    var more := before + [extra] + after;
    assert refunds == before + after;
    CountedTotalConcat(claim, before, after);
    CountedTotalConcat(claim, before + [extra], after);
    CountedTotalConcat(claim, before, [extra]);
    assert [extra][..0] == [];
    forall i | 0 <= i < |refunds| && Counts(claim, refunds[i])
      ensures refunds[i].currency == order.currency
    {
      assert refunds[i] == more[if i < at then i else i + 1];
    }
  }

  /** What a passed check says about the exact, unrounded amount of the claim. */
  lemma PassedClaimIsUnderTheLimit(claim: RefundClaim, order: OrderResult, history: History, limits: Limits)
    requires Passes(claim, order, history, limits)
    requires claim.amount >= 0.0 && limits.ratesToUsd[claim.currency] > 0.0
    ensures var rate := limits.ratesToUsd[claim.currency];
            claim.amount * rate < FromCents(Cents(limits.thresholdUsd)) + 0.005 + 0.005 * rate
  {
    var rate, limit := limits.ratesToUsd[claim.currency], Cents(limits.thresholdUsd);
    assert AmountUsd(claim, rate) <= limit;
    ConvertedWithinLimit(claim.amount, rate, limit);
  }

  // ----- The read tools, and what the check means for the ledger -----

  function GetOrder(orders: map<string, Order>, orderId: string): OrderResult {
    if orderId in orders then
      Found(orders[orderId].userId, FromCents(orders[orderId].cents), orders[orderId].currency)
    else NotFound
  }

  function Listing(rows: seq<Refund>): (l: seq<Listed>)
    ensures |l| == |rows|
    ensures forall i | 0 <= i < |rows| ::
      l[i] == Listed(rows[i].requestId, rows[i].orderId, FromCents(rows[i].cents), rows[i].currency)
  {
    if rows == [] then []
    else
      var x := rows[|rows| - 1];
      Listing(rows[..|rows| - 1])
      + [Listed(x.requestId, x.orderId, FromCents(x.cents), x.currency)]
  }

  /** The count and the list are taken from one snapshot of the ledger. */
  function GetRefundHistory(ledger: seq<Refund>, orders: map<string, Order>, userId: string, limit: nat)
    : History
  {
    History(CountRefundsForUser(ledger, orders, userId),
            Listing(ListRefundsForUser(ledger, orders, userId, limit)))
  }

  /**
   What `get_refund_history` answers: how many rows of the ledger are on the user's orders, and the newest of them
   with their fields, as many as the limit allows; `unlisted` are the others.
   */
  lemma HistoryIs(ledger: seq<Refund>, orders: map<string, Order>, userId: string, limit: nat)
    returns (listed: seq<Refund>, unlisted: seq<Refund>)
    ensures var history := GetRefundHistory(ledger, orders, userId, limit);
            && history.count == |set i: nat | i < |ledger| && ledger[i].orderId in orders
                                              && orders[ledger[i].orderId].userId == userId|
            && history.count == |listed| + |unlisted| && |history.refunds| == |listed| <= limit
            && (forall i | 0 <= i < |listed| ::
                  && history.refunds[i].requestId == listed[i].requestId
                  && history.refunds[i].orderId == listed[i].orderId
                  && history.refunds[i].amount == listed[i].cents as real / 100.0
                  && history.refunds[i].currency == listed[i].currency)
    ensures forall x :: multiset(listed + unlisted)[x] ==
              if x.orderId in orders && orders[x.orderId].userId == userId then multiset(ledger)[x] else 0
    ensures unlisted != [] ==> |listed| == limit
    ensures forall i, j | 0 <= i < |listed| && 0 <= j < |unlisted| ::
              listed[i].createdAt > unlisted[j].createdAt
              || (listed[i].createdAt == unlisted[j].createdAt && listed[i].id >= unlisted[j].id)
  {
    listed := ListRefundsForUser(ledger, orders, userId, limit);
    unlisted := ListingIs(ledger, orders, userId, limit);
    CountIsUsersRows(ledger, orders, userId);
    NewestFirstSorts(UsersRefunds(ledger, orders, userId));
    SameRows(ledger, orders, userId, listed, unlisted);
  }

  lemma SameRows(ledger: seq<Refund>, orders: map<string, Order>, userId: string,
                 listed: seq<Refund>, unlisted: seq<Refund>)
    requires forall x :: multiset(listed + unlisted)[x] ==
               if x.orderId in orders && orders[x.orderId].userId == userId then multiset(ledger)[x] else 0
    ensures |listed| + |unlisted| == CountRefundsForUser(ledger, orders, userId)
  {
    var rows := UsersRefunds(ledger, orders, userId);
    forall x ensures multiset(listed + unlisted)[x] == multiset(rows)[x] {
      UsersRowsAre(ledger, orders, userId, x);
    }
    assert multiset(listed + unlisted) == multiset(rows);
    assert |listed + unlisted| == |multiset(listed + unlisted)| == |multiset(rows)| == |rows|;
  }

  lemma {:induction false} ListingTotal(claim: RefundClaim, rows: seq<Refund>)
    ensures CountedTotal(claim, Listing(rows)) == OrderTotalExcept(rows, claim.orderId, claim.requestId)
  {
    if rows != [] {
      var init, x := rows[..|rows| - 1], rows[|rows| - 1];
      ListingTotal(claim, init);
      CentsIdempotent(x.cents);
      assert Listing(rows)[..|rows| - 1] == Listing(init);
    }
  }

  lemma {:induction false} InsertTotal(x: Refund, s: seq<Refund>, orderId: string, requestId: string)
    ensures OrderTotalExcept(InsertNewestFirst(x, s), orderId, requestId)
            == OrderTotalExcept([x], orderId, requestId) + OrderTotalExcept(s, orderId, requestId)
  {
    if s == [] || NewerFirst(x, s[0]) {
      TotalConcat([x], s, orderId, requestId);
    } else {
      InsertTotal(x, s[1..], orderId, requestId);
      TotalConcat([s[0]], InsertNewestFirst(x, s[1..]), orderId, requestId);
      TotalConcat([s[0]], s[1..], orderId, requestId);
      assert s == [s[0]] + s[1..];
    }
  }

  lemma {:induction false} NewestFirstTotal(s: seq<Refund>, orderId: string, requestId: string)
    ensures OrderTotalExcept(NewestFirst(s), orderId, requestId)
            == OrderTotalExcept(s, orderId, requestId)
  {
    if s != [] {
      NewestFirstTotal(s[1..], orderId, requestId);
      InsertTotal(s[0], NewestFirst(s[1..]), orderId, requestId);
      TotalConcat([s[0]], s[1..], orderId, requestId);
      assert s == [s[0]] + s[1..];
    }
  }

  /** The join keeps every row of an order that belongs to the user. */
  lemma {:induction false} UsersRefundsTotal(ledger: seq<Refund>, orders: map<string, Order>,
                                             userId: string, orderId: string, requestId: string)
    requires orderId in orders && orders[orderId].userId == userId
    ensures OrderTotalExcept(UsersRefunds(ledger, orders, userId), orderId, requestId)
            == OrderTotalExcept(ledger, orderId, requestId)
  {
    if ledger != [] {
      var x, rest := ledger[0], ledger[1..];
      UsersRefundsTotal(rest, orders, userId, orderId, requestId);
      assert ledger == [x] + rest;
      TotalConcat([x], rest, orderId, requestId);
      var kept := if OnUsersOrder(orders, userId, x) then [x] else [];
      TotalConcat(kept, UsersRefunds(rest, orders, userId), orderId, requestId);
    }
  }

  /**
   When the history is complete, the total that the check computes is the ledger's own: the sum over
   every row on the claim's order except this request's, whatever the ordering and the list limit.
   */
  lemma HistoryTotalIsLedgerTotal(claim: RefundClaim, ledger: seq<Refund>, orders: map<string, Order>,
                                  limit: nat)
    requires claim.orderId in orders && orders[claim.orderId].userId == claim.userId
    requires Complete(GetRefundHistory(ledger, orders, claim.userId, limit))
    ensures CountedTotal(claim, GetRefundHistory(ledger, orders, claim.userId, limit).refunds)
            == OrderTotalExcept(ledger, claim.orderId, claim.requestId)
  {
    var rows := UsersRefunds(ledger, orders, claim.userId);
    NewestFirstSorts(rows);
    var listed := ListRefundsForUser(ledger, orders, claim.userId, limit);
    assert listed == NewestFirst(rows);
    ListingTotal(claim, listed);
    NewestFirstTotal(rows, claim.orderId, claim.requestId);
    UsersRefundsTotal(ledger, orders, claim.userId, claim.orderId, claim.requestId);
  }

  /** The history is complete exactly when the user has no more refunds than the list may hold. */
  lemma CompleteIffWithinLimit(ledger: seq<Refund>, orders: map<string, Order>, userId: string, limit: nat)
    ensures Complete(GetRefundHistory(ledger, orders, userId, limit))
            <==> CountRefundsForUser(ledger, orders, userId) <= limit
  {
    NewestFirstSorts(UsersRefunds(ledger, orders, userId));
  }

  /** In a complete listing, what holds of the counted refunds holds of the ledger's rows on the order. */
  lemma OneCurrencyOnTheLedger(claim: RefundClaim, currency: string, ledger: seq<Refund>, orders: map<string, Order>,
                               limit: nat)
    requires claim.orderId in orders && orders[claim.orderId].userId == claim.userId
    requires Complete(GetRefundHistory(ledger, orders, claim.userId, limit))
    ensures OneCurrency(claim, currency, GetRefundHistory(ledger, orders, claim.userId, limit).refunds) <==>
            forall i | 0 <= i < |ledger| && ledger[i].orderId == claim.orderId
                       && ledger[i].requestId != claim.requestId :: ledger[i].currency == currency
  {
    var listed := ListRefundsForUser(ledger, orders, claim.userId, limit);
    var entries := Listing(listed);
    ListedIffUsers(ledger, orders, claim.userId, limit);
    if OneCurrency(claim, currency, entries) {
      forall i | 0 <= i < |ledger| && ledger[i].orderId == claim.orderId && ledger[i].requestId != claim.requestId
        ensures ledger[i].currency == currency
      {
        assert ledger[i] in listed;
        var j :| 0 <= j < |listed| && listed[j] == ledger[i];
        assert Counts(claim, entries[j]);
      }
    } else {
      var j :| 0 <= j < |entries| && Counts(claim, entries[j]) && entries[j].currency != currency;
      assert listed[j] in ledger;
    }
  }

  lemma ListedIffUsers(ledger: seq<Refund>, orders: map<string, Order>, userId: string, limit: nat)
    requires Complete(GetRefundHistory(ledger, orders, userId, limit))
    ensures forall x :: x in ListRefundsForUser(ledger, orders, userId, limit) <==>
                          x in ledger && x.orderId in orders && orders[x.orderId].userId == userId
  {
    var rows, listed := UsersRefunds(ledger, orders, userId), ListRefundsForUser(ledger, orders, userId, limit);
    NewestFirstSorts(rows);
    assert listed == NewestFirst(rows);
    forall x ensures x in listed <==> x in ledger && x.orderId in orders && orders[x.orderId].userId == userId {
      UsersRowsAre(ledger, orders, userId, x);
      assert x in listed <==> x in multiset(listed);
      assert x in ledger <==> x in multiset(ledger);
    }
  }

  lemma LimitOnFigures(claim: RefundClaim, limits: Limits)
    ensures UnderTheLimit(claim, limits) <==>
            && claim.currency in limits.ratesToUsd
            && Converted(claim.amount, limits.ratesToUsd[claim.currency]) <= Cents(limits.thresholdUsd)
  {
  }

  lemma RoomOnTheLedger(claim: RefundClaim, ledger: seq<Refund>, orders: map<string, Order>, limit: nat)
    requires claim.orderId in orders && orders[claim.orderId].userId == claim.userId
    requires orders[claim.orderId].currency == claim.currency
    ensures FitsTheOrder(claim, GetOrder(orders, claim.orderId),
                         GetRefundHistory(ledger, orders, claim.userId, limit)) <==>
            && |set i: nat | i < |ledger| && ledger[i].orderId in orders
                             && orders[ledger[i].orderId].userId == claim.userId| <= limit
            && (forall i | 0 <= i < |ledger| && ledger[i].orderId == claim.orderId
                           && ledger[i].requestId != claim.requestId :: ledger[i].currency == claim.currency)
            && (var left := orders[claim.orderId].cents - OrderTotalExcept(ledger, claim.orderId, claim.requestId);
                Cents(claim.amount) <= if left > 0 then left else 0)
  {
    CompleteIffWithinLimit(ledger, orders, claim.userId, limit);
    CountIsUsersRows(ledger, orders, claim.userId);
    CentsIdempotent(orders[claim.orderId].cents);
    if Complete(GetRefundHistory(ledger, orders, claim.userId, limit)) {
      HistoryTotalIsLedgerTotal(claim, ledger, orders, limit);
      OneCurrencyOnTheLedger(claim, claim.currency, ledger, orders, limit);
    }
  }

  /**
   The whole check, on the ledger and in figures: a claim passes if and only if its order exists, belongs to the
   claiming user and has the claim's currency; the user has no more refunds than can be listed; every other
   request's refund on the order is in that currency; the amount is no more than they leave of the order; and
   there is a rate at which it stays within the human-review limit.
   */
  lemma PassesExactlyWhen(claim: RefundClaim, ledger: seq<Refund>, orders: map<string, Order>, limit: nat,
                          limits: Limits)
    ensures Passes(claim, GetOrder(orders, claim.orderId),
                   GetRefundHistory(ledger, orders, claim.userId, limit), limits) <==>
            && claim.orderId in orders
            && orders[claim.orderId].userId == claim.userId
            && orders[claim.orderId].currency == claim.currency
            && |set i: nat | i < |ledger| && ledger[i].orderId in orders
                             && orders[ledger[i].orderId].userId == claim.userId| <= limit
            && (forall i | 0 <= i < |ledger| && ledger[i].orderId == claim.orderId
                           && ledger[i].requestId != claim.requestId :: ledger[i].currency == claim.currency)
            && (var left := orders[claim.orderId].cents - OrderTotalExcept(ledger, claim.orderId, claim.requestId);
                Cents(claim.amount) <= if left > 0 then left else 0)
            && claim.currency in limits.ratesToUsd
            && Converted(claim.amount, limits.ratesToUsd[claim.currency]) <= Cents(limits.thresholdUsd)
  {
    var order, history := GetOrder(orders, claim.orderId), GetRefundHistory(ledger, orders, claim.userId, limit);
    LimitOnFigures(claim, limits);
    if claim.orderId in orders && orders[claim.orderId].userId == claim.userId
       && orders[claim.orderId].currency == claim.currency {
      RoomOnTheLedger(claim, ledger, orders, limit);
      assert Passes(claim, order, history, limits)
          <==> FitsTheOrder(claim, order, history) && UnderTheLimit(claim, limits);
    }
  }

  /** A claim of a whole number of cents that fits its order and whose exact value fits the limit passes. */
  lemma FittingClaimPasses(claim: RefundClaim, c: nat, rate: real, ledger: seq<Refund>, orders: map<string, Order>,
                           limit: nat, limits: Limits)
    requires claim.amount == c as real / 100.0
    requires claim.orderId in orders && orders[claim.orderId].userId == claim.userId
    requires orders[claim.orderId].currency == claim.currency
    requires |set i: nat | i < |ledger| && ledger[i].orderId in orders
                           && orders[ledger[i].orderId].userId == claim.userId| <= limit
    requires forall i | 0 <= i < |ledger| && ledger[i].orderId == claim.orderId
                        && ledger[i].requestId != claim.requestId :: ledger[i].currency == claim.currency
    requires c + OrderTotalExcept(ledger, claim.orderId, claim.requestId) <= orders[claim.orderId].cents
    requires claim.currency in limits.ratesToUsd && limits.ratesToUsd[claim.currency] == rate
    requires claim.amount * rate <= limits.thresholdUsd
    ensures Passes(claim, GetOrder(orders, claim.orderId),
                   GetRefundHistory(ledger, orders, claim.userId, limit), limits)
  {
    ExactValueWithin(claim.amount, c, rate, limits.thresholdUsd);
    RoomAndLimit(claim, ledger, orders, limit, limits);
  }

  lemma RoomAndLimit(claim: RefundClaim, ledger: seq<Refund>, orders: map<string, Order>, limit: nat, limits: Limits)
    requires claim.orderId in orders && orders[claim.orderId].userId == claim.userId
    requires orders[claim.orderId].currency == claim.currency && claim.currency in limits.ratesToUsd
    requires |set i: nat | i < |ledger| && ledger[i].orderId in orders
                           && orders[ledger[i].orderId].userId == claim.userId| <= limit
    requires forall i | 0 <= i < |ledger| && ledger[i].orderId == claim.orderId
                        && ledger[i].requestId != claim.requestId :: ledger[i].currency == claim.currency
    requires 0 <= Cents(claim.amount)
             <= orders[claim.orderId].cents - OrderTotalExcept(ledger, claim.orderId, claim.requestId)
    requires Converted(claim.amount, limits.ratesToUsd[claim.currency]) <= Cents(limits.thresholdUsd)
    ensures Passes(claim, GetOrder(orders, claim.orderId),
                   GetRefundHistory(ledger, orders, claim.userId, limit), limits)
  {
    LimitOnFigures(claim, limits);
    RoomOnTheLedger(claim, ledger, orders, limit);
  }

  /** A passed check, read against the ledger it was computed from. */
  lemma PassedCheckFitsTheLedger(claim: RefundClaim, ledger: seq<Refund>, orders: map<string, Order>,
                                 limit: nat, limits: Limits)
    requires Passes(claim, GetOrder(orders, claim.orderId),
                    GetRefundHistory(ledger, orders, claim.userId, limit), limits)
    ensures claim.orderId in orders
    ensures orders[claim.orderId].userId == claim.userId
    ensures orders[claim.orderId].currency == claim.currency
    ensures var left := orders[claim.orderId].cents
                        - OrderTotalExcept(ledger, claim.orderId, claim.requestId);
            Cents(claim.amount) <= if left > 0 then left else 0
  {
    HistoryTotalIsLedgerTotal(claim, ledger, orders, limit);
    CentsIdempotent(orders[claim.orderId].cents);
  }
}
