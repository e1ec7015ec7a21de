/** The rules by which the market maker's order builders pick wallets and size orders: a walk over
    fleet positions in a given visiting order, the orders a rule makes for the wallets it takes,
    the primary walk that stops once the amounts reach a target, and the noise walk that stops
    after a requested number of orders. */
module Orders {
  import opened Wrappers
  import opened Utils
  import opened Fleet

  /** round(balance - leaveOnFee, 3): what buyFromAll and buyAmountSol spend from a wallet. */
  function BuyAmount(w: Wallet, leaveOnFee: real): real
  {
    Round(w.balance - leaveOnFee, 3)
  }

  /** Leaving more than half a thousandth on the wallet keeps the rounded amount strictly below
      the balance, so the dispatcher's BUY guard lets the order through. */
  lemma BuyAmountBelowBalance(w: Wallet, leaveOnFee: real)
    requires leaveOnFee > 0.0005
    ensures BuyAmount(w, leaveOnFee) < w.balance
  {
    var x := w.balance - leaveOnFee;
    var r := Round(x, 3);
    assert Pow10(3) == 1000.0;
    assert (r - x) * 1000.0 <= 0.5;
  }

  /** Which wallets a walk takes and what it orders for them. */
  datatype Rule =
    | PrimarySell             // sellAmountInPercents: more than 10 tokens, the whole token balance
    | PrimaryBuy(leaveOnFee: real) // buyAmountSol: fewer than 20 tokens, round(balance - leaveOnFee, 3)
    | NoiseBuy                // sellAmountInPercents noise: at most 100 tokens and some ETH, the whole balance
    | NoiseSell               // buyAmountSol noise: at least 20 tokens, round(tokenBalance, 3)

  predicate Takes(rule: Rule, w: Wallet)
  {
    match rule
    case PrimarySell => w.tokenBalance > 10.0
    case PrimaryBuy(_) => w.tokenBalance < 20.0
    case NoiseBuy => w.tokenBalance <= 100.0 && w.balance > 0.0
    case NoiseSell => w.tokenBalance >= 20.0
  }

  function OrderFor(rule: Rule, ix: nat, w: Wallet): TxOrder
  {
    match rule
    case PrimarySell => TxOrder(ix, w.tokenBalance, SELL)
    case PrimaryBuy(leaveOnFee) => TxOrder(ix, BuyAmount(w, leaveOnFee), BUY)
    case NoiseBuy => TxOrder(ix, w.balance, BUY)
    case NoiseSell => TxOrder(ix, Round(w.tokenBalance, 3), SELL)
  }

  /** The positions 0, 1, ..., n - 1. */
  function Up(n: nat): (visit: seq<nat>)
    ensures |visit| == n && forall s :: 0 <= s < n ==> visit[s] == s
  {
    if n == 0 then [] else Up(n - 1) + [n - 1]
  }

  /** The positions n - 1, n - 2, ..., 0. */
  function Down(n: nat): (visit: seq<nat>)
    ensures |visit| == n && forall s :: 0 <= s < n ==> visit[s] == n - 1 - s
  {
    if n == 0 then [] else [n - 1] + Down(n - 1)
  }

  /** The orders rule makes for the wallets at the positions visit, in visiting order. */
  function OrdersFor(fleet: seq<Wallet>, rule: Rule, visit: seq<nat>): seq<TxOrder>
    requires InRange(fleet, visit)
  {
    if visit == [] then []
    else
      var i := visit[|visit| - 1];
      OrdersFor(fleet, rule, visit[..|visit| - 1])
        + (if Takes(rule, fleet[i]) then [OrderFor(rule, i, fleet[i])] else [])
  }

  /** Each order is the rule's order for a visited wallet the rule takes, and each visited wallet
      the rule takes has its order in the list: the list is the visited wallets, filtered. */
  lemma {:induction false} OrdersForFacts(fleet: seq<Wallet>, rule: Rule, visit: seq<nat>)
    requires InRange(fleet, visit)
    ensures var orders := OrdersFor(fleet, rule, visit);
      && |orders| <= |visit|
      && (forall k :: 0 <= k < |orders| ==>
            var i := orders[k].walletIx;
            i in visit && i < |fleet| && Takes(rule, fleet[i]) && orders[k] == OrderFor(rule, i, fleet[i]))
      && (forall s :: 0 <= s < |visit| && Takes(rule, fleet[visit[s]]) ==>
            OrderFor(rule, visit[s], fleet[visit[s]]) in orders)
  {
    if visit != [] {
      var init, i := visit[..|visit| - 1], visit[|visit| - 1];
      OrdersForFacts(fleet, rule, init);
      var before := OrdersFor(fleet, rule, init);
      var orders := OrdersFor(fleet, rule, visit);
      assert visit == init + [i];
      forall k | 0 <= k < |orders|
        ensures var j := orders[k].walletIx;
          j in visit && j < |fleet| && Takes(rule, fleet[j]) && orders[k] == OrderFor(rule, j, fleet[j])
      {
        if k < |before| {
          assert orders[k] == before[k];
        }
      }
      forall s | 0 <= s < |visit| && Takes(rule, fleet[visit[s]])
        ensures OrderFor(rule, visit[s], fleet[visit[s]]) in orders
      {
        if s < |init| {
          assert visit[s] == init[s];
        }
      }
    }
  }

  /** The walk splits over a concatenation of visiting orders. */
  lemma {:induction false} OrdersForAppend(fleet: seq<Wallet>, rule: Rule, a: seq<nat>, b: seq<nat>)
    requires InRange(fleet, a) && InRange(fleet, b)
    ensures InRange(fleet, a + b)
    ensures OrdersFor(fleet, rule, a + b) == OrdersFor(fleet, rule, a) + OrdersFor(fleet, rule, b)
    decreases |b|
  {
    if b == [] {
      assert a + b == a;
    } else {
      var init := b[..|b| - 1];
      assert (a + b)[..|a + b| - 1] == a + init;
      OrdersForAppend(fleet, rule, a, init);
    }
  }

  /** One more visited position adds that wallet's order when the rule takes it. */
  lemma OrdersForStep(fleet: seq<Wallet>, rule: Rule, visit: seq<nat>, s: nat)
    requires InRange(fleet, visit) && s < |visit|
    ensures OrdersFor(fleet, rule, visit[..s + 1]) == OrdersFor(fleet, rule, visit[..s])
      + (if Takes(rule, fleet[visit[s]]) then [OrderFor(rule, visit[s], fleet[visit[s]])] else [])
  {
    assert visit[..s + 1][..s] == visit[..s];
  }

  /** The orders of a walk refer to fleet positions. */
  lemma OrdersValid(fleet: seq<Wallet>, rule: Rule, visit: seq<nat>)
    requires InRange(fleet, visit)
    ensures ValidOrders(fleet, OrdersFor(fleet, rule, visit))
  {
    OrdersForFacts(fleet, rule, visit);
  }

  /** The walk over a prefix of visit is a prefix of the walk over visit. */
  lemma OrdersForPrefix(fleet: seq<Wallet>, rule: Rule, visit: seq<nat>, s: nat)
    requires InRange(fleet, visit) && s <= |visit|
    ensures var whole, part := OrdersFor(fleet, rule, visit), OrdersFor(fleet, rule, visit[..s]);
      |part| <= |whole| && part == whole[..|part|]
  {
    assert visit[..s] + visit[s..] == visit;
    OrdersForAppend(fleet, rule, visit[..s], visit[s..]);
  }

  // ---------------------------------------------------------------------------------------
  // The primary walk: stop as soon as the amounts ordered reach the target

  /** The amount ordered for the first j visited positions. */
  function Ordered(fleet: seq<Wallet>, rule: Rule, visit: seq<nat>, j: nat): real
    requires InRange(fleet, visit) && j <= |visit|
  {
    AmountTotal(OrdersFor(fleet, rule, visit[..j]))
  }

  /** How many positions, from m on, the walk visits before it stops: the first c at which the
      amount ordered reaches target, or the end of visit. */
  function Consumed(fleet: seq<Wallet>, rule: Rule, visit: seq<nat>, target: real, m: nat): (c: nat)
    requires InRange(fleet, visit) && m <= |visit|
    ensures m <= c <= |visit|
    ensures c < |visit| ==> Ordered(fleet, rule, visit, c) >= target
    ensures forall j :: m <= j < c ==> Ordered(fleet, rule, visit, j) < target
    decreases |visit| - m
  {
    if m == |visit| || Ordered(fleet, rule, visit, m) >= target then m
    else Consumed(fleet, rule, visit, target, m + 1)
  }

  /** One more step of a primary walk that has not stopped before s and has not reached its
      target at s: it does not stop at s either, and the walk over one more position adds that
      wallet's order when the rule takes it. */
  lemma PrimaryAdvance(fleet: seq<Wallet>, rule: Rule, visit: seq<nat>, target: real, s: nat)
    requires InRange(fleet, visit) && s < |visit|
    requires s <= Consumed(fleet, rule, visit, target, 0)
    requires Ordered(fleet, rule, visit, s) < target
    ensures s + 1 <= Consumed(fleet, rule, visit, target, 0)
    ensures var i := visit[s];
      && OrdersFor(fleet, rule, visit[..s + 1]) == OrdersFor(fleet, rule, visit[..s])
           + (if Takes(rule, fleet[i]) then [OrderFor(rule, i, fleet[i])] else [])
      && AmountTotal(OrdersFor(fleet, rule, visit[..s + 1])) == AmountTotal(OrdersFor(fleet, rule, visit[..s]))
           + (if Takes(rule, fleet[i]) then OrderFor(rule, i, fleet[i]).amount else 0.0)
  {
    OrdersForStep(fleet, rule, visit, s);
    var i := visit[s];
    if Takes(rule, fleet[i]) {
      AmountTotalSnoc(OrdersFor(fleet, rule, visit[..s]), OrderFor(rule, i, fleet[i]));
    } else {
      assert OrdersFor(fleet, rule, visit[..s + 1]) == OrdersFor(fleet, rule, visit[..s]);
    }
  }

  /** A primary walk that has not stopped before s and checks the target before position s stops
      exactly at s when the target is reached there or no position is left. */
  lemma PrimaryDone(fleet: seq<Wallet>, rule: Rule, visit: seq<nat>, target: real, s: nat)
    requires InRange(fleet, visit) && s <= |visit|
    requires s <= Consumed(fleet, rule, visit, target, 0)
    requires s == |visit| || Ordered(fleet, rule, visit, s) >= target
    ensures Consumed(fleet, rule, visit, target, 0) == s
  {
  }

  /** The orders of the primary walk. */
  function Primary(fleet: seq<Wallet>, rule: Rule, visit: seq<nat>, target: real): seq<TxOrder>
    requires InRange(fleet, visit)
  {
    OrdersFor(fleet, rule, visit[..Consumed(fleet, rule, visit, target, 0)])
  }

  /** Dropping the last order of a walk gives the walk over a shorter prefix of visit. */
  lemma {:induction false} LastOrderSplit(fleet: seq<Wallet>, rule: Rule, visit: seq<nat>, c: nat)
    requires InRange(fleet, visit) && c <= |visit|
    requires |OrdersFor(fleet, rule, visit[..c])| > 0
    ensures var orders := OrdersFor(fleet, rule, visit[..c]);
      exists j :: 0 <= j < c && OrdersFor(fleet, rule, visit[..j]) == orders[..|orders| - 1]
    decreases c
  {
    var s := c - 1;
    OrdersForStep(fleet, rule, visit, s);
    var now, before := OrdersFor(fleet, rule, visit[..c]), OrdersFor(fleet, rule, visit[..s]);
    if Takes(rule, fleet[visit[s]]) {
      assert now[..|now| - 1] == before;
    } else {
      LastOrderSplit(fleet, rule, visit, s);
    }
  }

  /** The primary walk stops once the target is reached: either its orders add up to target or it
      visited every position, and the orders before its last one add up to less than target. */
  lemma PrimaryStops(fleet: seq<Wallet>, rule: Rule, visit: seq<nat>, target: real)
    requires InRange(fleet, visit)
    ensures var orders := Primary(fleet, rule, visit, target);
      && (AmountTotal(orders) >= target || Consumed(fleet, rule, visit, target, 0) == |visit|)
      && (|orders| > 0 ==> AmountTotal(orders[..|orders| - 1]) < target)
  {
    var c := Consumed(fleet, rule, visit, target, 0);
    var orders := Primary(fleet, rule, visit, target);
    if |orders| > 0 {
      LastOrderSplit(fleet, rule, visit, c);
      var j :| 0 <= j < c && OrdersFor(fleet, rule, visit[..j]) == orders[..|orders| - 1];
      assert Ordered(fleet, rule, visit, j) < target;
    }
  }

  // ---------------------------------------------------------------------------------------
  // The noise walk: the first requested orders of a walk

  /** The first m entries of s, or all of s when it is shorter. */
  function Take<T>(s: seq<T>, m: nat): (r: seq<T>)
    ensures |r| == if m <= |s| then m else |s|
    ensures r == s[..|r|]
  {
    if m <= |s| then s[..m] else s
  }

  /** A prefix of s that is either m long or all of s is what Take keeps of s. */
  lemma TakePrefix<T>(s: seq<T>, part: seq<T>, m: nat)
    requires |part| <= |s| && part == s[..|part|] && |part| <= m
    requires |part| == m || |part| == |s|
    ensures Take(s, m) == part
  {
  }

  /** max(round(pct * n / 100, 0), 1): how many noise orders a builder asks for. */
  function NoiseCount(pct: int, n: nat): (count: nat)
    ensures count >= 1
    ensures count as real == if Round((pct * n) as real / 100.0, 0) >= 1.0 then Round((pct * n) as real / 100.0, 0) else 1.0
  {
    var r := Round((pct * n) as real / 100.0, 0);
    assert Pow10(0) == 1.0;
    if r >= 1.0 then r.Floor else 1
  }

  /** The error the noise loop of buyAmountSol throws when it reads past the sorted wallets. */
  const UNDEFINED_TOKEN_BALANCE: string := "TypeError: Cannot read properties of undefined (reading 'tokenBalance')"

  /** The noise loop of buyAmountSol as written: it reads the first sorted wallet, steps its index
      down to -1 and reads there, which throws; it only gets through when nothing was requested
      or the single order requested came from the first wallet. */
  function NoiseSellsAsWritten(fleet: seq<Wallet>, sorted: seq<nat>, requested: nat): (r: Result<seq<TxOrder>, string>)
    requires InRange(fleet, sorted)
    ensures r.Ok? ==> requested <= 1 && |r.value| == requested
    ensures r.Err? ==> r.error == UNDEFINED_TOKEN_BALANCE
  {
    if requested == 0 then Ok([])
    else if |sorted| == 0 then Err(UNDEFINED_TOKEN_BALANCE)
    else if requested == 1 && Takes(NoiseSell, fleet[sorted[0]]) then Ok([OrderFor(NoiseSell, sorted[0], fleet[sorted[0]])])
    else Err(UNDEFINED_TOKEN_BALANCE)
  }

  /** Where the loop as written gets through, it picks what the intended walk picks, the first
      requested orders of the walk over the sorted wallets; from two requested orders on it
      always throws. */
  lemma NoiseSellsAsWrittenAgrees(fleet: seq<Wallet>, sorted: seq<nat>, requested: nat)
    requires InRange(fleet, sorted)
    ensures var r := NoiseSellsAsWritten(fleet, sorted, requested);
      && (r.Ok? ==> r.value == Take(OrdersFor(fleet, NoiseSell, sorted), requested))
      && (requested >= 2 ==> r == Err(UNDEFINED_TOKEN_BALANCE))
  {
    var r := NoiseSellsAsWritten(fleet, sorted, requested);
    if r.Ok? && requested == 1 {
      OrdersForPrefix(fleet, NoiseSell, sorted, 1);
      assert sorted[..1][..0] == [];
    }
  }

  /** Two wallets holding 50 and 60 tokens, sorted by ETH balance: the intended walk picks two
      noise SELLs, the loop as written throws. */
  lemma NoiseSellsCounterexample()
    ensures var fleet := [Wallet("a", 1.0, 50.0), Wallet("b", 2.0, 60.0)];
      && SortBy(fleet, ByBalance, true) == [0, 1]
      && NoiseSellsAsWritten(fleet, [0, 1], 2) == Err(UNDEFINED_TOKEN_BALANCE)
      && Take(OrdersFor(fleet, NoiseSell, [0, 1]), 2)
         == [TxOrder(0, Round(50.0, 3), SELL), TxOrder(1, Round(60.0, 3), SELL)]
  {
    var fleet := [Wallet("a", 1.0, 50.0), Wallet("b", 2.0, 60.0)];
    assert SortPrefix(fleet, ByBalance, true, 1) == [0];
    assert Insert(fleet, ByBalance, true, [0], 1) == [0, 1];
    assert [0, 1][..1] == [0];
    assert [0, 1][..1][..0] == [];
  }
}
