/** The dispatch loop of the market maker's sendTxFromList: the guards each order meets, in list
    order, and the counters and sums it reports. Every network answer the loop waits for is an
    input, one per order: the gas price, the fresh token balance fetched when the cached one is
    not positive, and whether the trade succeeded. */
module Dispatcher {
  import opened Utils
  import opened Fleet

  /** What the network tells the dispatcher while it handles one order. */
  datatype Feed = Feed(gasPriceGwei: real, fetchedTokenBalance: Num, isSuccess: bool)

  /** Why an order was skipped, or that it was handed to the wallet. */
  datatype Fate = GasTooHigh | BalanceTooLow | NoOperationType | Submitted

  /** The token balance the SELL guard compares with: the cached one when positive, otherwise the
      fetched one, NaN counting as 0. */
  function SellGuardBalance(w: Wallet, fetched: Num): (g: real)
    ensures w.tokenBalance > 0.0 ==> g == w.tokenBalance
    ensures w.tokenBalance <= 0.0 && fetched.NaN? ==> g == 0.0
    ensures g != 0.0 ==> g == w.tokenBalance || fetched == Finite(g)
  {
    if w.tokenBalance > 0.0 then w.tokenBalance
    else match fetched
      case Finite(v) => v
      case NaN => 0.0
  }

  /** The guards of one order, in the order the loop applies them. */
  function FateOf(order: TxOrder, w: Wallet, f: Feed, gasPriceLimitGwei: real): (fate: Fate)
    ensures fate == GasTooHigh <==> f.gasPriceGwei > gasPriceLimitGwei
    ensures fate == NoOperationType <==>
              f.gasPriceGwei <= gasPriceLimitGwei && order.txType != BUY && order.txType != SELL
    ensures fate == Submitted <==>
              && f.gasPriceGwei <= gasPriceLimitGwei
              && ((order.txType == BUY && order.amount < w.balance)
                  || (order.txType == SELL && order.amount < SellGuardBalance(w, f.fetchedTokenBalance)))
  {
    if f.gasPriceGwei > gasPriceLimitGwei then GasTooHigh
    else if order.txType == BUY then (if w.balance <= order.amount then BalanceTooLow else Submitted)
    else if order.txType == SELL then
      (if SellGuardBalance(w, f.fetchedTokenBalance) <= order.amount then BalanceTooLow else Submitted)
    else NoOperationType
  }

  /** The guards with the SELL comparison as evidently intended: a SELL is skipped only when the
      wallet holds fewer tokens than the order sells, so an order for the whole balance goes
      through. The BUY comparison keeps its strictness, which leaves ETH for the fee. */
  function IntendedFateOf(order: TxOrder, w: Wallet, f: Feed, gasPriceLimitGwei: real): (fate: Fate)
    ensures fate != FateOf(order, w, f, gasPriceLimitGwei) ==>
              && order.txType == SELL && order.amount == SellGuardBalance(w, f.fetchedTokenBalance)
              && fate == Submitted && FateOf(order, w, f, gasPriceLimitGwei) == BalanceTooLow
  {
    if f.gasPriceGwei > gasPriceLimitGwei then GasTooHigh
    else if order.txType == BUY then (if w.balance <= order.amount then BalanceTooLow else Submitted)
    else if order.txType == SELL then
      (if SellGuardBalance(w, f.fetchedTokenBalance) < order.amount then BalanceTooLow else Submitted)
    else NoOperationType
  }

  /** With the intended guard, an order that sells a wallet's whole token balance is handed to
      the wallet exactly when the gas price is within the limit; the guard as written never
      hands it over. */
  lemma WholeBalanceSell(order: TxOrder, w: Wallet, f: Feed, gasPriceLimitGwei: real)
    requires order.txType == SELL && order.amount == SellGuardBalance(w, f.fetchedTokenBalance)
    ensures IntendedFateOf(order, w, f, gasPriceLimitGwei) == Submitted <==> f.gasPriceGwei <= gasPriceLimitGwei
    ensures FateOf(order, w, f, gasPriceLimitGwei) != Submitted
  {
  }

  /** A wallet caching 5 tokens, told to sell those 5 at an acceptable gas price: the guard as
      written skips the order, the intended one submits it. */
  lemma WholeBalanceSellExample()
    ensures FateOf(TxOrder(0, 5.0, SELL), Wallet("w", 1.0, 5.0), Feed(1.0, Finite(5.0), true), 10.0) == BalanceTooLow
    ensures IntendedFateOf(TxOrder(0, 5.0, SELL), Wallet("w", 1.0, 5.0), Feed(1.0, Finite(5.0), true), 10.0) == Submitted
  {
  }

  /** The counters and sums the dispatcher reports, with the positions of the orders it handed to
      a wallet (submitted) and of those that succeeded. */
  datatype Tally = Tally(
    successBuyCount: nat, successSellCount: nat, buyAmount: nat, sellAmount: nat,
    totalEthSum: real, totalTokenSum: real,
    submitted: seq<nat>, succeeded: seq<nat>)

  const EmptyTally := Tally(0, 0, 0, 0, 0.0, 0.0, [], [])

  predicate FeedsFor(fleet: seq<Wallet>, orders: seq<TxOrder>, feeds: seq<Feed>)
  {
    ValidOrders(fleet, orders) && |feeds| == |orders|
  }

  /** The answers to the first n orders of a list whose length is known only once it is built. */
  function FeedList(feed: nat -> Feed, n: nat): (feeds: seq<Feed>)
    ensures |feeds| == n && forall k :: 0 <= k < n ==> feeds[k] == feed(k)
  {
    if n == 0 then [] else FeedList(feed, n - 1) + [feed(n - 1)]
  }

  /** The wallet after the guards of one order ran: a SELL that passed the gas check from a wallet
      whose cached token balance is not positive called getTokenBalance, which stores the fetched
      balance in the wallet. A real-valued record cannot hold NaN; on a NaN answer the wallet
      keeps its cached balance, which the next SELL guard treats as NaN would be treated (both
      fail the positive test and lead to a new fetch). */
  function FetchedInto(w: Wallet, order: TxOrder, f: Feed, limit: real): (w': Wallet)
    ensures w'.address == w.address && w'.balance == w.balance
    ensures w.tokenBalance > 0.0 ==> w' == w
    ensures w' != w ==> order.txType == SELL && f.gasPriceGwei <= limit && f.fetchedTokenBalance == Finite(w'.tokenBalance)
    ensures order.txType == SELL && f.gasPriceGwei <= limit && w.tokenBalance <= 0.0 && f.fetchedTokenBalance.Finite? ==>
              w'.tokenBalance == f.fetchedTokenBalance.value
  {
    if f.gasPriceGwei <= limit && order.txType == SELL && w.tokenBalance <= 0.0 then
      match f.fetchedTokenBalance
      case Finite(v) => w.(tokenBalance := v)
      case NaN => w
    else w
  }

  /** The fleet as the dispatch loop finds it before order n: each earlier order may have stored
      a fetched token balance in its own wallet, and in no other. */
  function FleetAt(fleet: seq<Wallet>, orders: seq<TxOrder>, feeds: seq<Feed>, limit: real, n: nat): (r: seq<Wallet>)
    requires FeedsFor(fleet, orders, feeds) && n <= |orders|
    ensures |r| == |fleet|
  {
    if n == 0 then fleet
    else
      var before := FleetAt(fleet, orders, feeds, limit, n - 1);
      var ix := orders[n - 1].walletIx;
      before[ix := FetchedInto(before[ix], orders[n - 1], feeds[n - 1], limit)]
  }

  /** The loop changes no address and no ETH balance, and no positive cached token balance; a
      wallet no order before n names is as it was. */
  lemma {:induction false} FleetAtKeeps(fleet: seq<Wallet>, orders: seq<TxOrder>, feeds: seq<Feed>, limit: real, n: nat)
    requires FeedsFor(fleet, orders, feeds) && n <= |orders|
    ensures var r := FleetAt(fleet, orders, feeds, limit, n);
      forall i :: 0 <= i < |fleet| ==>
        && r[i].address == fleet[i].address && r[i].balance == fleet[i].balance
        && (fleet[i].tokenBalance > 0.0 ==> r[i] == fleet[i])
        && ((forall k :: 0 <= k < n ==> orders[k].walletIx != i) ==> r[i] == fleet[i])
    decreases n
  {
    if n > 0 {
      FleetAtKeeps(fleet, orders, feeds, limit, n - 1);
    }
  }

  /** The fate of order k, met with its wallet as the loop finds it. */
  function FateAt(fleet: seq<Wallet>, orders: seq<TxOrder>, feeds: seq<Feed>, limit: real, k: nat): Fate
    requires FeedsFor(fleet, orders, feeds) && k < |orders|
  {
    FateOf(orders[k], FleetAt(fleet, orders, feeds, limit, k)[orders[k].walletIx], feeds[k], limit)
  }

  /** The tally after handling order k, the order o, which met the given fate. An order that
      passed the gas check counts as an attempt of its kind; one that passed every guard is
      submitted; a submitted order that succeeded adds its amount to the sum of its kind. */
  function Step(t: Tally, o: TxOrder, fate: Fate, isSuccess: bool, k: nat): Tally
  {
    var attempt := fate == BalanceTooLow || fate == Submitted;
    var sub := fate == Submitted;
    var win := sub && isSuccess;
    var isBuy := o.txType == BUY;
    Tally(
      successBuyCount := t.successBuyCount + (if win && isBuy then 1 else 0),
      successSellCount := t.successSellCount + (if win && !isBuy then 1 else 0),
      buyAmount := t.buyAmount + (if attempt && isBuy then 1 else 0),
      sellAmount := t.sellAmount + (if attempt && !isBuy then 1 else 0),
      totalEthSum := t.totalEthSum + (if win && isBuy then o.amount else 0.0),
      totalTokenSum := t.totalTokenSum + (if win && !isBuy then o.amount else 0.0),
      submitted := if sub then t.submitted + [k] else t.submitted,
      succeeded := if win then t.succeeded + [k] else t.succeeded)
  }

  /** The fates of the first n orders, each met with its wallet as the loop finds it. */
  function Fates(fleet: seq<Wallet>, orders: seq<TxOrder>, feeds: seq<Feed>, limit: real, n: nat): (fates: seq<Fate>)
    requires FeedsFor(fleet, orders, feeds) && n <= |orders|
    ensures |fates| == n
  {
    if n == 0 then [] else Fates(fleet, orders, feeds, limit, n - 1) + [FateAt(fleet, orders, feeds, limit, n - 1)]
  }

  lemma {:induction false} FatesAt(fleet: seq<Wallet>, orders: seq<TxOrder>, feeds: seq<Feed>, limit: real, n: nat)
    requires FeedsFor(fleet, orders, feeds) && n <= |orders|
    ensures forall k :: 0 <= k < n ==> Fates(fleet, orders, feeds, limit, n)[k] == FateAt(fleet, orders, feeds, limit, k)
    decreases n
  {
    if n > 0 {
      FatesAt(fleet, orders, feeds, limit, n - 1);
    }
  }

  /** The tally after the first n orders, each handled once, in list order, order k having met
      fates[k]. */
  function Tallied(orders: seq<TxOrder>, fates: seq<Fate>, feeds: seq<Feed>, n: nat): Tally
    requires n <= |orders| && n <= |fates| && n <= |feeds|
  {
    if n == 0 then EmptyTally
    else Step(Tallied(orders, fates, feeds, n - 1), orders[n - 1], fates[n - 1], feeds[n - 1].isSuccess, n - 1)
  }

  /** The tally of the dispatch loop after its first n orders. */
  function Dispatch(fleet: seq<Wallet>, orders: seq<TxOrder>, feeds: seq<Feed>, limit: real, n: nat): Tally
    requires FeedsFor(fleet, orders, feeds) && n <= |orders|
  {
    Tallied(orders, Fates(fleet, orders, feeds, limit, |orders|), feeds, n)
  }

  /** Handling one more order adds its step, with the fate it met. */
  lemma DispatchStep(fleet: seq<Wallet>, orders: seq<TxOrder>, feeds: seq<Feed>, limit: real, n: nat)
    requires FeedsFor(fleet, orders, feeds) && n < |orders|
    ensures Dispatch(fleet, orders, feeds, limit, n + 1)
         == Step(Dispatch(fleet, orders, feeds, limit, n), orders[n], FateAt(fleet, orders, feeds, limit, n), feeds[n].isSuccess, n)
  {
    FatesAt(fleet, orders, feeds, limit, |orders|);
  }

  /** How many of the first n orders of type txType passed the gas check. */
  function GasPassed(orders: seq<TxOrder>, feeds: seq<Feed>, limit: real, txType: string, n: nat): nat
    requires |feeds| == |orders| && n <= |orders|
  {
    if n == 0 then 0
    else
      var passed := feeds[n - 1].gasPriceGwei <= limit && orders[n - 1].txType == txType;
      GasPassed(orders, feeds, limit, txType, n - 1) + (if passed then 1 else 0)
  }

  /** The amounts of the orders at positions ps whose type is txType. */
  function AmountOf(orders: seq<TxOrder>, ps: seq<nat>, txType: string): real
  {
    if ps == [] then 0.0
    else
      var p := ps[|ps| - 1];
      AmountOf(orders, ps[..|ps| - 1], txType)
        + (if p < |orders| && orders[p].txType == txType then orders[p].amount else 0.0)
  }

  /** The number of orders at positions ps whose type is txType. */
  function CountOf(orders: seq<TxOrder>, ps: seq<nat>, txType: string): nat
  {
    if ps == [] then 0
    else
      var p := ps[|ps| - 1];
      CountOf(orders, ps[..|ps| - 1], txType) + (if p < |orders| && orders[p].txType == txType then 1 else 0)
  }

  predicate Increasing(ps: seq<nat>)
  {
    forall j, k :: 0 <= j < k < |ps| ==> ps[j] < ps[k]
  }

  /** Which orders a tally records as submitted: exactly those whose fate was Submitted. */
  lemma {:induction false} TalliedSubmitted(orders: seq<TxOrder>, fates: seq<Fate>, feeds: seq<Feed>, n: nat)
    requires n <= |orders| && n <= |fates| && n <= |feeds|
    ensures forall k: nat :: k in Tallied(orders, fates, feeds, n).submitted <==> k < n && fates[k] == Submitted
    decreases n
  {
    if n > 0 {
      TalliedSubmitted(orders, fates, feeds, n - 1);
    }
  }

  /** Which orders a tally records as successful: the submitted ones whose trade succeeded. */
  lemma {:induction false} TalliedSucceeded(orders: seq<TxOrder>, fates: seq<Fate>, feeds: seq<Feed>, n: nat)
    requires n <= |orders| && n <= |fates| && n <= |feeds|
    ensures forall k: nat :: k in Tallied(orders, fates, feeds, n).succeeded <==>
              k < n && fates[k] == Submitted && feeds[k].isSuccess
    decreases n
  {
    if n > 0 {
      TalliedSucceeded(orders, fates, feeds, n - 1);
    }
  }

  /** Which orders the dispatch loop hands to a wallet: exactly those that pass every guard. */
  lemma DispatchSubmitted(fleet: seq<Wallet>, orders: seq<TxOrder>, feeds: seq<Feed>, limit: real, n: nat)
    requires FeedsFor(fleet, orders, feeds) && n <= |orders|
    ensures forall k: nat :: k in Dispatch(fleet, orders, feeds, limit, n).submitted <==>
              k < n && FateAt(fleet, orders, feeds, limit, k) == Submitted
  {
    TalliedSubmitted(orders, Fates(fleet, orders, feeds, limit, |orders|), feeds, n);
    FatesAt(fleet, orders, feeds, limit, |orders|);
  }

  /** The orders reported as successful are exactly the submitted ones whose trade succeeded. */
  lemma DispatchSucceeded(fleet: seq<Wallet>, orders: seq<TxOrder>, feeds: seq<Feed>, limit: real, n: nat)
    requires FeedsFor(fleet, orders, feeds) && n <= |orders|
    ensures forall k: nat :: k in Dispatch(fleet, orders, feeds, limit, n).succeeded <==>
              k < n && FateAt(fleet, orders, feeds, limit, k) == Submitted && feeds[k].isSuccess
  {
    TalliedSucceeded(orders, Fates(fleet, orders, feeds, limit, |orders|), feeds, n);
    FatesAt(fleet, orders, feeds, limit, |orders|);
  }

  /** Each order is handled at most once and in list order: both position lists increase. */
  lemma {:induction false} TalliedInOrder(orders: seq<TxOrder>, fates: seq<Fate>, feeds: seq<Feed>, n: nat)
    requires n <= |orders| && n <= |fates| && n <= |feeds|
    ensures var t := Tallied(orders, fates, feeds, n);
      Increasing(t.submitted) && Increasing(t.succeeded)
      && (forall k :: k in t.submitted ==> k < n) && (forall k :: k in t.succeeded ==> k < n)
    decreases n
  {
    if n > 0 {
      TalliedInOrder(orders, fates, feeds, n - 1);
      var t := Tallied(orders, fates, feeds, n - 1);
      IncreasingAppend(t.submitted, n - 1);
      IncreasingAppend(t.succeeded, n - 1);
    }
  }

  /** buyAmount and sellAmount count the orders of each kind that passed the gas check, whether or
      not the balance guard then let them through. */
  lemma {:induction false} DispatchAttempts(fleet: seq<Wallet>, orders: seq<TxOrder>, feeds: seq<Feed>, limit: real, n: nat)
    requires FeedsFor(fleet, orders, feeds) && n <= |orders|
    ensures var t := Dispatch(fleet, orders, feeds, limit, n);
      && t.buyAmount == GasPassed(orders, feeds, limit, BUY, n)
      && t.sellAmount == GasPassed(orders, feeds, limit, SELL, n)
      && t.buyAmount + t.sellAmount <= n
    decreases n
  {
    if n > 0 {
      DispatchAttempts(fleet, orders, feeds, limit, n - 1);
      DispatchStep(fleet, orders, feeds, limit, n - 1);
    }
  }

  lemma IncreasingAppend(ps: seq<nat>, k: nat)
    requires Increasing(ps) && forall j :: j in ps ==> j < k
    ensures Increasing(ps + [k])
  {
    forall i, j | 0 <= i < j < |ps| + 1
      ensures (ps + [k])[i] < (ps + [k])[j]
    {
      if j == |ps| {
        assert ps[i] in ps;
      }
    }
  }

  lemma AppendPosition(orders: seq<TxOrder>, ps: seq<nat>, k: nat, txType: string)
    requires k < |orders|
    ensures AmountOf(orders, ps + [k], txType)
      == AmountOf(orders, ps, txType) + (if orders[k].txType == txType then orders[k].amount else 0.0)
    ensures CountOf(orders, ps + [k], txType) == CountOf(orders, ps, txType) + (if orders[k].txType == txType then 1 else 0)
  {
    assert (ps + [k])[..|ps|] == ps;
  }

  /** The success counters and sums of t are the counts and amounts of its successful orders of
      each kind, and no success counter exceeds its attempt counter. */
  predicate SuccessesCounted(orders: seq<TxOrder>, t: Tally)
  {
    && t.successBuyCount == CountOf(orders, t.succeeded, BUY)
    && t.successSellCount == CountOf(orders, t.succeeded, SELL)
    && t.totalEthSum == AmountOf(orders, t.succeeded, BUY)
    && t.totalTokenSum == AmountOf(orders, t.succeeded, SELL)
    && t.successBuyCount <= t.buyAmount && t.successSellCount <= t.sellAmount
  }

  /** One step of the fold keeps the success counters counted. */
  lemma StepCountsSuccesses(orders: seq<TxOrder>, t: Tally, fate: Fate, isSuccess: bool, k: nat)
    requires k < |orders| && SuccessesCounted(orders, t)
    requires fate == Submitted ==> orders[k].txType == BUY || orders[k].txType == SELL
    ensures SuccessesCounted(orders, Step(t, orders[k], fate, isSuccess, k))
  {
    var t' := Step(t, orders[k], fate, isSuccess, k);
    if fate == Submitted && isSuccess {
      assert t'.succeeded == t.succeeded + [k];
      AppendPosition(orders, t.succeeded, k, BUY);
      AppendPosition(orders, t.succeeded, k, SELL);
      if orders[k].txType == BUY {
        assert t'.successBuyCount == t.successBuyCount + 1 && t'.buyAmount == t.buyAmount + 1;
        assert t'.totalEthSum == t.totalEthSum + orders[k].amount;
        assert t'.successSellCount == t.successSellCount && t'.totalTokenSum == t.totalTokenSum;
      } else {
        assert orders[k].txType == SELL;
        assert t'.successSellCount == t.successSellCount + 1 && t'.sellAmount == t.sellAmount + 1;
        assert t'.totalTokenSum == t.totalTokenSum + orders[k].amount;
        assert t'.successBuyCount == t.successBuyCount && t'.totalEthSum == t.totalEthSum;
      }
    } else {
      assert t'.succeeded == t.succeeded;
    }
  }

  /** The success counters and sums are counted in any tally whose submitted orders are BUYs or
      SELLs. */
  lemma {:induction false} TalliedSuccesses(orders: seq<TxOrder>, fates: seq<Fate>, feeds: seq<Feed>, n: nat)
    requires n <= |orders| && n <= |fates| && n <= |feeds|
    requires forall k :: 0 <= k < n && fates[k] == Submitted ==> orders[k].txType == BUY || orders[k].txType == SELL
    ensures SuccessesCounted(orders, Tallied(orders, fates, feeds, n))
    decreases n
  {
    if n > 0 {
      TalliedSuccesses(orders, fates, feeds, n - 1);
      StepCountsSuccesses(orders, Tallied(orders, fates, feeds, n - 1), fates[n - 1], feeds[n - 1].isSuccess, n - 1);
    }
  }

  /** The dispatch loop's success counters and sums are the counts and amounts of its successful
      orders of each kind, and no success counter exceeds its attempt counter. */
  lemma DispatchSuccesses(fleet: seq<Wallet>, orders: seq<TxOrder>, feeds: seq<Feed>, limit: real, n: nat)
    requires FeedsFor(fleet, orders, feeds) && n <= |orders|
    ensures var t := Dispatch(fleet, orders, feeds, limit, n);
      && t.successBuyCount == CountOf(orders, t.succeeded, BUY)
      && t.successSellCount == CountOf(orders, t.succeeded, SELL)
      && t.totalEthSum == AmountOf(orders, t.succeeded, BUY)
      && t.totalTokenSum == AmountOf(orders, t.succeeded, SELL)
      && t.successBuyCount <= t.buyAmount && t.successSellCount <= t.sellAmount
  {
    FatesAt(fleet, orders, feeds, limit, |orders|);
    TalliedSuccesses(orders, Fates(fleet, orders, feeds, limit, |orders|), feeds, n);
  }

  /** An order the guards reject is never handed to a wallet; in particular an order for a
      wallet's whole cached balance (BUY) or whole positive cached token balance (SELL). */
  lemma FullBalanceNeverSubmitted(fleet: seq<Wallet>, orders: seq<TxOrder>, feeds: seq<Feed>, limit: real, k: nat)
    requires FeedsFor(fleet, orders, feeds) && k < |orders|
    requires var o, w := orders[k], fleet[orders[k].walletIx];
      || (o.txType == BUY && o.amount >= w.balance)
      || (o.txType == SELL && w.tokenBalance > 0.0 && o.amount >= w.tokenBalance)
    ensures k !in Dispatch(fleet, orders, feeds, limit, |orders|).submitted
  {
    DispatchSubmitted(fleet, orders, feeds, limit, |orders|);
    FleetAtKeeps(fleet, orders, feeds, limit, k);
  }
}
