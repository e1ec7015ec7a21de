/** The wallet fleet the market maker trades with: cached wallet records, trade orders that refer
    to a wallet by its position in the fleet (the TypeScript code keeps a reference to the same
    object), fleet totals, and the sort helpers the order builders use. */
module Fleet {

  /** The cached state of one wallet: its public key and the last balances fetched for it. */
  datatype Wallet = Wallet(address: string, balance: real, tokenBalance: real)

  /** Balances as a wallet's getBalance / getTokenBalance pair refreshes them. */
  datatype Funds = Funds(balance: real, tokenBalance: real)

  const BUY: string := "BUY"
  const SELL: string := "SELL"

  /** A trade order: the wallet (by fleet position), the amount and "BUY", "SELL" or anything else. */
  datatype TxOrder = TxOrder(walletIx: nat, amount: real, txType: string)

  predicate ValidOrders(fleet: seq<Wallet>, orders: seq<TxOrder>)
  {
    forall k :: 0 <= k < |orders| ==> orders[k].walletIx < |fleet|
  }

  /** The cached ETH balances of the fleet, summed from the front. */
  function BalanceSum(fleet: seq<Wallet>): real
  {
    if fleet == [] then 0.0 else BalanceSum(fleet[..|fleet| - 1]) + fleet[|fleet| - 1].balance
  }

  /** The cached token balances of the fleet, summed from the front. */
  function TokenSum(fleet: seq<Wallet>): real
  {
    if fleet == [] then 0.0 else TokenSum(fleet[..|fleet| - 1]) + fleet[|fleet| - 1].tokenBalance
  }

  /** The amounts of a list of orders, summed from the front. */
  function AmountTotal(orders: seq<TxOrder>): real
  {
    if orders == [] then 0.0 else AmountTotal(orders[..|orders| - 1]) + orders[|orders| - 1].amount
  }

  /** Both fleet sums split over a concatenation. */
  lemma {:induction false} FleetSumsAppend(a: seq<Wallet>, b: seq<Wallet>)
    ensures BalanceSum(a + b) == BalanceSum(a) + BalanceSum(b)
    ensures TokenSum(a + b) == TokenSum(a) + TokenSum(b)
    decreases |b|
  {
    if b == [] {
      assert a + b == a;
    } else {
      assert (a + b)[..|a + b| - 1] == a + b[..|b| - 1];
      FleetSumsAppend(a, b[..|b| - 1]);
    }
  }

  /** The order total over one more order. */
  lemma AmountTotalSnoc(orders: seq<TxOrder>, o: TxOrder)
    ensures AmountTotal(orders + [o]) == AmountTotal(orders) + o.amount
  {
    assert (orders + [o])[..|orders|] == orders;
  }

  /** Both fleet sums over one more wallet. */
  lemma FleetSumsSnoc(a: seq<Wallet>, w: Wallet)
    ensures BalanceSum(a + [w]) == BalanceSum(a) + w.balance
    ensures TokenSum(a + [w]) == TokenSum(a) + w.tokenBalance
  {
    assert (a + [w])[..|a|] == a;
  }

  // ---------------------------------------------------------------------------------------
  // sortWalletsByTokenBalance / sortWalletsByBalance, as a permutation of fleet positions

  datatype SortKey = ByTokenBalance | ByBalance

  function Key(w: Wallet, key: SortKey): real
  {
    match key
    case ByTokenBalance => w.tokenBalance
    case ByBalance => w.balance
  }

  /** a may come before b: ascending when asc holds, descending otherwise. */
  predicate InOrder(a: real, b: real, asc: bool)
  {
    if asc then a <= b else a >= b
  }

  predicate Distinct(p: seq<nat>)
  {
    forall j, k :: 0 <= j < k < |p| ==> p[j] != p[k]
  }

  predicate InRange(fleet: seq<Wallet>, p: seq<nat>)
  {
    forall k :: 0 <= k < |p| ==> p[k] < |fleet|
  }

  /** p lists fleet positions whose wallets are ordered by key. */
  predicate SortedBy(fleet: seq<Wallet>, p: seq<nat>, key: SortKey, asc: bool)
  {
    && InRange(fleet, p)
    && (forall j, k :: 0 <= j < k < |p| ==> InOrder(Key(fleet[p[j]], key), Key(fleet[p[k]], key), asc))
  }

  /** Places i after the last entry it may follow. */
  function Insert(fleet: seq<Wallet>, key: SortKey, asc: bool, p: seq<nat>, i: nat): (r: seq<nat>)
    requires InRange(fleet, p) && i < |fleet|
    ensures |r| == |p| + 1 && InRange(fleet, r)
    ensures forall x :: x in r <==> x in p || x == i
    decreases |p|
  {
    if p == [] then [i]
    else
      var init, last := p[..|p| - 1], p[|p| - 1];
      assert p == init + [last];
      if InOrder(Key(fleet[last], key), Key(fleet[i], key), asc) then p + [i]
      else Insert(fleet, key, asc, init, i) + [last]
  }

  lemma {:induction false} InsertDistinct(fleet: seq<Wallet>, key: SortKey, asc: bool, p: seq<nat>, i: nat)
    requires InRange(fleet, p) && i < |fleet|
    requires Distinct(p) && i !in p
    ensures Distinct(Insert(fleet, key, asc, p, i))
    decreases |p|
  {
    if p != [] {
      var init, last := p[..|p| - 1], p[|p| - 1];
      assert p == init + [last];
      assert last !in init by {
        forall j | 0 <= j < |init|
          ensures init[j] != last
        {
          assert init[j] == p[j];
        }
      }
      if !InOrder(Key(fleet[last], key), Key(fleet[i], key), asc) {
        InsertDistinct(fleet, key, asc, init, i);
        var r := Insert(fleet, key, asc, init, i);
        assert Insert(fleet, key, asc, p, i) == r + [last];
        forall j, k | 0 <= j < k < |r| + 1
          ensures (r + [last])[j] != (r + [last])[k]
        {
          if k == |r| {
            assert r[j] in r;
          }
        }
      }
    }
  }

  /** Every entry of a sorted list may precede its last entry. */
  lemma AllPrecedeLast(fleet: seq<Wallet>, key: SortKey, asc: bool, p: seq<nat>, x: nat)
    requires SortedBy(fleet, p, key, asc) && |p| > 0 && x in p[..|p| - 1]
    ensures x < |fleet| && InOrder(Key(fleet[x], key), Key(fleet[p[|p| - 1]], key), asc)
  {
    var j :| 0 <= j < |p| - 1 && p[..|p| - 1][j] == x;
    assert p[j] == x;
  }

  /** A sorted list stays sorted when an entry every member may precede is appended. */
  lemma AppendSorted(fleet: seq<Wallet>, key: SortKey, asc: bool, r: seq<nat>, last: nat)
    requires SortedBy(fleet, r, key, asc) && last < |fleet|
    requires forall x | x in r :: x < |fleet| && InOrder(Key(fleet[x], key), Key(fleet[last], key), asc)
    ensures SortedBy(fleet, r + [last], key, asc)
  {
    var q := r + [last];
    forall j, k | 0 <= j < k < |q|
      ensures InOrder(Key(fleet[q[j]], key), Key(fleet[q[k]], key), asc)
    {
      if k == |r| {
        assert q[j] == r[j] && r[j] in r;
      } else {
        assert q[j] == r[j] && q[k] == r[k];
      }
    }
  }

  lemma {:induction false} InsertSorted(fleet: seq<Wallet>, key: SortKey, asc: bool, p: seq<nat>, i: nat)
    requires SortedBy(fleet, p, key, asc) && i < |fleet|
    ensures SortedBy(fleet, Insert(fleet, key, asc, p, i), key, asc)
    decreases |p|
  {
    if p != [] {
      var init, last := p[..|p| - 1], p[|p| - 1];
      assert p == init + [last];
      if !InOrder(Key(fleet[last], key), Key(fleet[i], key), asc) {
        InsertSorted(fleet, key, asc, init, i);
        var r := Insert(fleet, key, asc, init, i);
        forall x | x in r
          ensures InOrder(Key(fleet[x], key), Key(fleet[last], key), asc)
        {
          if x != i {
            AllPrecedeLast(fleet, key, asc, p, x);
          }
        }
        AppendSorted(fleet, key, asc, r, last);
      }
    }
  }

  /** The first n fleet positions, sorted. */
  function SortPrefix(fleet: seq<Wallet>, key: SortKey, asc: bool, n: nat): (r: seq<nat>)
    requires n <= |fleet|
    ensures |r| == n && Distinct(r) && SortedBy(fleet, r, key, asc)
    ensures forall x: int :: x in r <==> 0 <= x < n
  {
    if n == 0 then []
    else
      var p := SortPrefix(fleet, key, asc, n - 1);
      InsertDistinct(fleet, key, asc, p, n - 1);
      InsertSorted(fleet, key, asc, p, n - 1);
      Insert(fleet, key, asc, p, n - 1)
  }

  /** The fleet's positions ordered by key, ascending when asc holds and descending otherwise:
      every position exactly once. */
  function SortBy(fleet: seq<Wallet>, key: SortKey, asc: bool): (order: seq<nat>)
    ensures |order| == |fleet| && Distinct(order)
    ensures forall x: int :: x in order <==> 0 <= x < |fleet|
    ensures SortedBy(fleet, order, key, asc)
  {
    SortPrefix(fleet, key, asc, |fleet|)
  }

  function ExampleFleet(a: string): seq<Wallet>
  {
    [Wallet(a, 0.0, 100.0), Wallet(a, 0.0, 50.0), Wallet(a, 0.0, 200.0), Wallet(a, 0.0, 150.0)]
  }

  /** The token balances 100, 50, 200, 150 come out as 200, 150, 100, 50 by default. */
  lemma SortDescendingExample(a: string)
    ensures SortBy(ExampleFleet(a), ByTokenBalance, false) == [2, 3, 0, 1]
  {
    var fleet, k := ExampleFleet(a), ByTokenBalance;
    assert SortPrefix(fleet, k, false, 1) == [0];
    assert SortPrefix(fleet, k, false, 2) == [0, 1];
    assert Insert(fleet, k, false, [], 2) == [2];
    assert Insert(fleet, k, false, [0], 2) == [2, 0];
    assert SortPrefix(fleet, k, false, 3) == [2, 0, 1];
    assert Insert(fleet, k, false, [2], 3) == [2, 3];
    assert Insert(fleet, k, false, [2, 0], 3) == [2, 3, 0];
    assert [2, 0, 1][..2] == [2, 0];
    assert Insert(fleet, k, false, [2, 0, 1], 3) == [2, 3, 0, 1];
  }

  /** ... and as 50, 100, 150, 200 when ascending. */
  lemma SortAscendingExample(a: string)
    ensures SortBy(ExampleFleet(a), ByTokenBalance, true) == [1, 0, 3, 2]
  {
    var fleet, k := ExampleFleet(a), ByTokenBalance;
    assert SortPrefix(fleet, k, true, 1) == [0];
    assert Insert(fleet, k, true, [], 1) == [1];
    assert SortPrefix(fleet, k, true, 2) == [1, 0];
    assert SortPrefix(fleet, k, true, 3) == [1, 0, 2];
    assert Insert(fleet, k, true, [1, 0], 3) == [1, 0, 3];
  }
}
