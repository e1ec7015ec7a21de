/** The market maker: a fleet of cached wallet records, the order builders that turn a request
    into a list of trade orders over the fleet, and sendTxFromList, which dispatches a list and
    then refreshes the wallets it used. Network answers (gas prices, balances, trade results),
    random draws and the key file's contents are inputs. */
module MarketMaker {
  import opened Wrappers
  import opened Utils
  import opened Fleet
  import opened Orders
  import opened Dispatcher
  import KeyFile
  import Sandbox

  /** The configuration fields the modelled operations read. */
  datatype Config = Config(
    simulation: bool,
    gasPriceLimitGwei: real,
    leaveOnFee: real,
    minRandomTxAmountInPercents: int,
    maxRandomTxAmountInPercents: int,
    minSellingAmountUSDC: real,
    maxSellingAmountUSDC: real,
    totalSellingLimitPercents: real)

  // ---------------------------------------------------------------------------------------
  // uniqueWallets: the wallets of a list of orders, one per address

  /** The addresses of the wallets at positions ps. */
  function Addresses(fleet: seq<Wallet>, ps: seq<nat>): set<string>
    requires InRange(fleet, ps)
  {
    set j | 0 <= j < |ps| :: fleet[ps[j]].address
  }

  /** The addresses of the wallets of the first n orders. */
  function OrderAddresses(fleet: seq<Wallet>, orders: seq<TxOrder>, n: nat): set<string>
    requires ValidOrders(fleet, orders) && n <= |orders|
  {
    set k | 0 <= k < n :: fleet[orders[k].walletIx].address
  }

  /** uniqueWallets after the first n orders: the wallet of each order whose address no earlier
      order had, in order. */
  function Dedup(fleet: seq<Wallet>, orders: seq<TxOrder>, n: nat): (unique: seq<nat>)
    requires ValidOrders(fleet, orders) && n <= |orders|
    ensures InRange(fleet, unique)
  {
    if n == 0 then []
    else
      var u := Dedup(fleet, orders, n - 1);
      var w := orders[n - 1].walletIx;
      if fleet[w].address in Addresses(fleet, u) then u else u + [w]
  }

  /** Two fleets with the same addresses position by position have the same unique wallets. */
  lemma {:induction false} DedupSameAddresses(a: seq<Wallet>, b: seq<Wallet>, orders: seq<TxOrder>, n: nat)
    requires ValidOrders(a, orders) && n <= |orders| && |a| == |b|
    requires forall i :: 0 <= i < |a| ==> a[i].address == b[i].address
    ensures Dedup(a, orders, n) == Dedup(b, orders, n)
    decreases n
  {
    assert ValidOrders(b, orders);
    if n > 0 {
      DedupSameAddresses(a, b, orders, n - 1);
      AddressesSame(a, b, Dedup(a, orders, n - 1));
    }
  }

  lemma AddressesSame(a: seq<Wallet>, b: seq<Wallet>, ps: seq<nat>)
    requires InRange(a, ps) && |a| == |b|
    requires forall i :: 0 <= i < |a| ==> a[i].address == b[i].address
    ensures InRange(b, ps) && Addresses(a, ps) == Addresses(b, ps)
  {
    assert InRange(b, ps);
    forall x | x in Addresses(a, ps) ensures x in Addresses(b, ps) {
      var j :| 0 <= j < |ps| && a[ps[j]].address == x;
      assert b[ps[j]].address == x;
    }
    forall x | x in Addresses(b, ps) ensures x in Addresses(a, ps) {
      var j :| 0 <= j < |ps| && b[ps[j]].address == x;
      assert a[ps[j]].address == x;
    }
  }

  lemma AddressesAppend(fleet: seq<Wallet>, ps: seq<nat>, w: nat)
    requires InRange(fleet, ps) && w < |fleet|
    ensures InRange(fleet, ps + [w])
    ensures Addresses(fleet, ps + [w]) == Addresses(fleet, ps) + {fleet[w].address}
  {
    var q := ps + [w];
    forall a | a in Addresses(fleet, q)
      ensures a in Addresses(fleet, ps) + {fleet[w].address}
    {
      var j :| 0 <= j < |q| && fleet[q[j]].address == a;
      if j < |ps| {
        assert fleet[ps[j]].address == a;
      }
    }
    forall a | a in Addresses(fleet, ps)
      ensures a in Addresses(fleet, q)
    {
      var j :| 0 <= j < |ps| && fleet[ps[j]].address == a;
      assert q[j] == ps[j];
    }
    assert q[|ps|] == w;
  }

  /** The unique wallets have pairwise distinct addresses, cover the address of every order, and
      there is one as soon as there is an order. */
  lemma {:induction false} DedupCovers(fleet: seq<Wallet>, orders: seq<TxOrder>, n: nat)
    requires ValidOrders(fleet, orders) && n <= |orders|
    ensures var u := Dedup(fleet, orders, n);
      && (forall a, b :: 0 <= a < b < |u| ==> fleet[u[a]].address != fleet[u[b]].address)
      && Addresses(fleet, u) == OrderAddresses(fleet, orders, n)
      && (|u| > 0 <==> n > 0)
    decreases n
  {
    if n > 0 {
      DedupCovers(fleet, orders, n - 1);
      var u := Dedup(fleet, orders, n - 1);
      var w := orders[n - 1].walletIx;
      assert OrderAddresses(fleet, orders, n) == OrderAddresses(fleet, orders, n - 1) + {fleet[w].address};
      AddressesAppend(fleet, u, w);
      if fleet[w].address !in Addresses(fleet, u) {
        var q := u + [w];
        forall a, b | 0 <= a < b < |q|
          ensures fleet[q[a]].address != fleet[q[b]].address
        {
          if b == |u| {
            assert fleet[u[a]].address in Addresses(fleet, u);
          }
        }
      }
    }
  }

  /** Each unique wallet is the wallet of the first order with its address. */
  lemma {:induction false} DedupFirst(fleet: seq<Wallet>, orders: seq<TxOrder>, n: nat)
    requires ValidOrders(fleet, orders) && n <= |orders|
    ensures var u := Dedup(fleet, orders, n);
      forall j :: 0 <= j < |u| ==> exists k :: (0 <= k < n && orders[k].walletIx == u[j]
        && forall i :: 0 <= i < k ==> fleet[orders[i].walletIx].address != fleet[u[j]].address)
    decreases n
  {
    if n > 0 {
      DedupFirst(fleet, orders, n - 1);
      DedupCovers(fleet, orders, n - 1);
      var u := Dedup(fleet, orders, n - 1);
      var w := orders[n - 1].walletIx;
      if fleet[w].address !in Addresses(fleet, u) {
        var q := u + [w];
        forall i | 0 <= i < n - 1
          ensures fleet[orders[i].walletIx].address != fleet[w].address
        {
          assert fleet[orders[i].walletIx].address in OrderAddresses(fleet, orders, n - 1);
        }
        forall j | 0 <= j < |q|
          ensures exists k :: (0 <= k < n && orders[k].walletIx == q[j]
            && forall i :: 0 <= i < k ==> fleet[orders[i].walletIx].address != fleet[q[j]].address)
        {
          if j == |u| {
            assert orders[n - 1].walletIx == q[j];
          } else {
            assert q[j] == u[j];
          }
        }
      }
    }
  }

  // ---------------------------------------------------------------------------------------
  // Refreshing and reconciling the fleet

  /** A wallet after getBalance and getTokenBalance stored the balances f. */
  function Refresh(w: Wallet, f: Funds): Wallet
  {
    w.(balance := f.balance, tokenBalance := f.tokenBalance)
  }

  /** The fleet after the wallets at positions ps were refreshed in turn, refreshed[i] being what
      the network returns for the wallet at position i: exactly those wallets take fresh
      balances, and no address changes. */
  function Refreshed(fleet: seq<Wallet>, ps: seq<nat>, refreshed: seq<Funds>): (r: seq<Wallet>)
    requires InRange(fleet, ps) && |refreshed| == |fleet|
    ensures |r| == |fleet|
    ensures forall i :: 0 <= i < |fleet| ==> r[i] == if i in ps then Refresh(fleet[i], refreshed[i]) else fleet[i]
  {
    if ps == [] then fleet
    else
      var init, i := ps[..|ps| - 1], ps[|ps| - 1];
      assert ps == init + [i];
      var r := Refreshed(fleet, init, refreshed);
      r[i := Refresh(r[i], refreshed[i])]
  }

  /** What refreshing one wallet in getAllBalance comes to: both balances, or only the ETH
      balance when the token balance fetch threw, or nothing when the ETH balance fetch threw. */
  datatype Fetch = Fetched(funds: Funds) | TokenFetchFailed(balance: real) | BalanceFetchFailed

  function Apply(w: Wallet, f: Fetch): Wallet
  {
    match f
    case Fetched(funds) => Refresh(w, funds)
    case TokenFetchFailed(balance) => w.(balance := balance)
    case BalanceFetchFailed => w
  }

  /** The fleet after getAllBalance: each wallet updated by its own fetch. */
  function ApplyAll(fleet: seq<Wallet>, fetches: seq<Fetch>): (r: seq<Wallet>)
    requires |fetches| == |fleet|
    ensures |r| == |fleet|
    ensures forall i :: 0 <= i < |fleet| ==> r[i] == Apply(fleet[i], fetches[i])
  {
    if fleet == [] then []
    else
      var n := |fleet| - 1;
      ApplyAll(fleet[..n], fetches[..n]) + [Apply(fleet[n], fetches[n])]
  }

  /** The ETH balances getAllBalance adds up: those of the wallets whose both fetches succeeded. */
  function CountedBalance(fetches: seq<Fetch>): real
  {
    if fetches == [] then 0.0
    else
      var f := fetches[|fetches| - 1];
      CountedBalance(fetches[..|fetches| - 1]) + (if f.Fetched? then f.funds.balance else 0.0)
  }

  /** The token balances getAllBalance adds up. */
  function CountedTokens(fetches: seq<Fetch>): real
  {
    if fetches == [] then 0.0
    else
      var f := fetches[|fetches| - 1];
      CountedTokens(fetches[..|fetches| - 1]) + (if f.Fetched? then f.funds.tokenBalance else 0.0)
  }

  /** When every fetch succeeds, getAllBalance's totals are the sums over the refreshed fleet. */
  lemma {:induction false} AllFetchedTotals(fleet: seq<Wallet>, fetches: seq<Fetch>)
    requires |fetches| == |fleet|
    requires forall k :: 0 <= k < |fetches| ==> fetches[k].Fetched?
    ensures CountedBalance(fetches) == BalanceSum(ApplyAll(fleet, fetches))
    ensures CountedTokens(fetches) == TokenSum(ApplyAll(fleet, fetches))
    decreases |fleet|
  {
    if fleet != [] {
      var n := |fleet| - 1;
      AllFetchedTotals(fleet[..n], fetches[..n]);
      var r := ApplyAll(fleet, fetches);
      assert r[..n] == ApplyAll(fleet[..n], fetches[..n]);
    }
  }

  /** The wallets createWalletsFromFile builds for a list of private keys, in order, up to the
      first key whose wallet fails to initialise: the try block around the loop ends there. */
  function Loaded(keys: seq<string>, init: string -> Result<Wallet, string>): seq<Wallet>
  {
    if keys == [] then []
    else match init(keys[0])
      case Err(_) => []
      case Ok(w) => [w] + Loaded(keys[1..], init)
  }

  /** One wallet per key, the i-th built from the i-th key, as far as the first key whose
      initialisation fails; every key before it initialised, and nothing from it on is loaded. */
  lemma {:induction false} LoadedKeys(keys: seq<string>, init: string -> Result<Wallet, string>)
    ensures var ws := Loaded(keys, init);
      && |ws| <= |keys|
      && (forall i :: 0 <= i < |ws| ==> init(keys[i]) == Ok(ws[i]))
      && (|ws| < |keys| ==> init(keys[|ws|]).Err?)
    decreases |keys|
  {
    if keys != [] && init(keys[0]).Ok? {
      LoadedKeys(keys[1..], init);
      var ws := Loaded(keys, init);
      assert ws == [init(keys[0]).value] + Loaded(keys[1..], init);
      forall i | 0 <= i < |ws|
        ensures init(keys[i]) == Ok(ws[i])
      {
        if i > 0 {
          assert keys[i] == keys[1..][i - 1];
        }
      }
    }
  }

  /** The wallets built from the keys before the first failing one, in key order, are what
      Loaded gives. */
  lemma {:induction false} LoadedExactly(keys: seq<string>, init: string -> Result<Wallet, string>, ws: seq<Wallet>)
    requires |ws| <= |keys|
    requires forall i :: 0 <= i < |ws| ==> init(keys[i]) == Ok(ws[i])
    requires |ws| < |keys| ==> init(keys[|ws|]).Err?
    ensures Loaded(keys, init) == ws
    decreases |keys|
  {
    if ws != [] {
      var rest := ws[1..];
      forall i | 0 <= i < |rest|
        ensures init(keys[1..][i]) == Ok(rest[i])
      {
        assert keys[1..][i] == keys[i + 1] && rest[i] == ws[i + 1];
      }
      LoadedExactly(keys[1..], init, rest);
      assert ws == [ws[0]] + rest;
    }
  }

  /** A permutation of two lists of orders that refer to fleet positions refers to fleet
      positions only. */
  lemma PermutedValid(fleet: seq<Wallet>, primary: seq<TxOrder>, noise: seq<TxOrder>, txOrders: seq<TxOrder>)
    requires ValidOrders(fleet, primary) && ValidOrders(fleet, noise)
    requires multiset(txOrders) == multiset(primary + noise)
    ensures ValidOrders(fleet, txOrders)
  {
    forall k | 0 <= k < |txOrders|
      ensures txOrders[k].walletIx < |fleet|
    {
      assert txOrders[k] in multiset(primary + noise);
      assert txOrders[k] in primary + noise;
    }
  }

  /** The orders of a primary walk, and a prefix of any walk, refer to fleet positions. */
  lemma WalksValid(fleet: seq<Wallet>, rule: Rule, visit: seq<nat>, target: real, noiseRule: Rule, sorted: seq<nat>, m: nat)
    requires InRange(fleet, visit) && InRange(fleet, sorted)
    ensures ValidOrders(fleet, Primary(fleet, rule, visit, target))
    ensures ValidOrders(fleet, Take(OrdersFor(fleet, noiseRule, sorted), m))
  {
    OrdersValid(fleet, rule, visit[..Consumed(fleet, rule, visit, target, 0)]);
    OrdersValid(fleet, noiseRule, sorted);
  }

  // ---------------------------------------------------------------------------------------
  // startSlowSelling: cutting the fleet's token balances into random chunks

  /** round(convert(usdc) / tokenPrice, 0): a chunk bound in whole tokens. */
  function TokensFor(usdc: real, convert: real -> real, tokenPrice: real): real
    requires tokenPrice != 0.0
  {
    Round(convert(usdc) / tokenPrice, 0)
  }

  /** The chunks cut so far: chunk k sells the k-th draw between lo and hi from the wallet at
      sorted position visits[k]; positions never go back; spent[k] is what the earlier chunks of
      the same wallet took; each chunk was cut while that wallet's remaining balance was above lo
      and while the chunks before it added up to less than target. Stated chunk by chunk from
      the back; SlowSellsChunks states it for all chunks at once. */
  ghost predicate SlowSells(fleet: seq<Wallet>, sorted: seq<nat>, lo: real, hi: real, target: real, draw: nat -> real,
                            orders: seq<TxOrder>, visits: seq<nat>, spent: seq<real>)
    requires InRange(fleet, sorted)
    requires forall k: nat :: 0.0 <= draw(k) < 1.0
    decreases |orders|
  {
    && |visits| == |orders| && |spent| == |orders|
    && (|orders| == 0 || (
          var k := |orders| - 1;
          && SlowSells(fleet, sorted, lo, hi, target, draw, orders[..k], visits[..k], spent[..k])
          && visits[k] < |sorted|
          && (k == 0 || visits[k - 1] <= visits[k])
          && orders[k] == TxOrder(sorted[visits[k]], GetRandomDecimalInRange(lo, hi, draw(k)), SELL)
          && spent[k] == (if k == 0 || visits[k - 1] != visits[k] then 0.0 else spent[k - 1] + orders[k - 1].amount)
          && fleet[sorted[visits[k]]].tokenBalance - spent[k] > lo
          && AmountTotal(orders[..k]) < target))
  }

  /** Every chunk of a SlowSells run sells a draw from a wallet of the sorted list, and the
      positions never go back. */
  lemma {:induction false} SlowSellsChunks(fleet: seq<Wallet>, sorted: seq<nat>, lo: real, hi: real, target: real,
                                           draw: nat -> real, orders: seq<TxOrder>, visits: seq<nat>, spent: seq<real>)
    requires InRange(fleet, sorted)
    requires forall k: nat :: 0.0 <= draw(k) < 1.0
    requires SlowSells(fleet, sorted, lo, hi, target, draw, orders, visits, spent)
    ensures |visits| == |orders| && |spent| == |orders|
    ensures forall k :: 0 <= k < |orders| ==> visits[k] < |sorted|
    ensures forall k :: 0 <= k < |orders| ==>
              orders[k] == TxOrder(sorted[visits[k]], GetRandomDecimalInRange(lo, hi, draw(k)), SELL)
    ensures forall j, k :: 0 <= j < k < |orders| ==> visits[j] <= visits[k]
    decreases |orders|
  {
    if |orders| > 0 {
      var k := |orders| - 1;
      SlowSellsChunks(fleet, sorted, lo, hi, target, draw, orders[..k], visits[..k], spent[..k]);
      assert forall j :: 0 <= j < k ==> orders[..k][j] == orders[j] && visits[..k][j] == visits[j];
    }
  }

  /** In a SlowSells run, spent[k] is what the earlier chunks of the same wallet took. */
  lemma {:induction false} SlowSellsSpent(fleet: seq<Wallet>, sorted: seq<nat>, lo: real, hi: real, target: real,
                                          draw: nat -> real, orders: seq<TxOrder>, visits: seq<nat>, spent: seq<real>)
    requires InRange(fleet, sorted)
    requires forall k: nat :: 0.0 <= draw(k) < 1.0
    requires SlowSells(fleet, sorted, lo, hi, target, draw, orders, visits, spent)
    ensures |visits| == |orders| && |spent| == |orders|
    ensures forall k :: 0 <= k < |orders| ==>
              spent[k] == if k == 0 || visits[k - 1] != visits[k] then 0.0 else spent[k - 1] + orders[k - 1].amount
    decreases |orders|
  {
    if |orders| > 0 {
      var k := |orders| - 1;
      var o, v, s := orders[..k], visits[..k], spent[..k];
      SlowSellsSpent(fleet, sorted, lo, hi, target, draw, o, v, s);
      forall j | 0 <= j < k
        ensures spent[j] == if j == 0 || visits[j - 1] != visits[j] then 0.0 else spent[j - 1] + orders[j - 1].amount
      {
        assert s[j] == spent[j] && v[j] == visits[j];
        assert s[j] == if j == 0 || v[j - 1] != v[j] then 0.0 else s[j - 1] + o[j - 1].amount;
        if j > 0 {
          assert s[j - 1] == spent[j - 1] && v[j - 1] == visits[j - 1] && o[j - 1] == orders[j - 1];
        }
      }
    }
  }

  /** Every chunk of a SlowSells run was cut while its wallet kept more than lo after the
      earlier chunks of that wallet. */
  lemma {:induction false} SlowSellsBalances(fleet: seq<Wallet>, sorted: seq<nat>, lo: real, hi: real, target: real,
                                             draw: nat -> real, orders: seq<TxOrder>, visits: seq<nat>, spent: seq<real>)
    requires InRange(fleet, sorted)
    requires forall k: nat :: 0.0 <= draw(k) < 1.0
    requires SlowSells(fleet, sorted, lo, hi, target, draw, orders, visits, spent)
    ensures |visits| == |orders| && |spent| == |orders|
    ensures forall k :: 0 <= k < |orders| ==> visits[k] < |sorted| && fleet[sorted[visits[k]]].tokenBalance - spent[k] > lo
    decreases |orders|
  {
    if |orders| > 0 {
      var k := |orders| - 1;
      SlowSellsBalances(fleet, sorted, lo, hi, target, draw, orders[..k], visits[..k], spent[..k]);
      assert forall j :: 0 <= j < k ==> visits[..k][j] == visits[j] && spent[..k][j] == spent[j];
    }
  }

  /** Every chunk of a SlowSells run was cut while the chunks before it totalled less than
      target. */
  lemma {:induction false} SlowSellsBelowTarget(fleet: seq<Wallet>, sorted: seq<nat>, lo: real, hi: real, target: real,
                                                draw: nat -> real, orders: seq<TxOrder>, visits: seq<nat>, spent: seq<real>)
    requires InRange(fleet, sorted)
    requires forall k: nat :: 0.0 <= draw(k) < 1.0
    requires SlowSells(fleet, sorted, lo, hi, target, draw, orders, visits, spent)
    ensures forall k :: 0 <= k < |orders| ==> AmountTotal(orders[..k]) < target
    decreases |orders|
  {
    if |orders| > 0 {
      var k := |orders| - 1;
      SlowSellsBelowTarget(fleet, sorted, lo, hi, target, draw, orders[..k], visits[..k], spent[..k]);
      assert forall j :: 0 <= j < k ==> orders[..k][..j] == orders[..j];
    }
  }

  /** The chunks of a SlowSells run all name wallets of the fleet. */
  lemma SlowSellsValid(fleet: seq<Wallet>, sorted: seq<nat>, lo: real, hi: real, target: real,
                       draw: nat -> real, orders: seq<TxOrder>, visits: seq<nat>, spent: seq<real>)
    requires InRange(fleet, sorted)
    requires forall k: nat :: 0.0 <= draw(k) < 1.0
    requires SlowSells(fleet, sorted, lo, hi, target, draw, orders, visits, spent)
    ensures ValidOrders(fleet, orders)
  {
    SlowSellsChunks(fleet, sorted, lo, hi, target, draw, orders, visits, spent);
  }

  /** Partway through the chunks of the wallet at sorted position i, which has balance left:
      a SlowSells run whose last chunk, if any, comes from a position up to i, with balance what
      the wallet kept after the chunks already cut from it. */
  ghost predicate Cutting(fleet: seq<Wallet>, sorted: seq<nat>, lo: real, hi: real, target: real, draw: nat -> real,
                          orders: seq<TxOrder>, visits: seq<nat>, spent: seq<real>, i: nat, balance: real)
    requires InRange(fleet, sorted) && i < |sorted|
    requires forall k: nat :: 0.0 <= draw(k) < 1.0
  {
    && |visits| == |orders| && |spent| == |orders|
    && SlowSells(fleet, sorted, lo, hi, target, draw, orders, visits, spent)
    && (|orders| == 0 || visits[|orders| - 1] <= i)
    && balance == fleet[sorted[i]].tokenBalance - Taken(orders, visits, spent, i)
  }

  /** One more chunk, of the next draw, from the wallet at sorted position i, at or after the
      last position visited, while that wallet keeps more than lo and the chunks so far total
      less than target. */
  lemma SlowSellsSnoc(fleet: seq<Wallet>, sorted: seq<nat>, lo: real, hi: real, target: real, draw: nat -> real,
                      orders: seq<TxOrder>, visits: seq<nat>, spent: seq<real>, i: nat)
    requires InRange(fleet, sorted) && i < |sorted|
    requires forall k: nat :: 0.0 <= draw(k) < 1.0
    requires SlowSells(fleet, sorted, lo, hi, target, draw, orders, visits, spent)
    requires |orders| == 0 || visits[|orders| - 1] <= i
    requires fleet[sorted[i]].tokenBalance - Taken(orders, visits, spent, i) > lo
    requires AmountTotal(orders) < target
    ensures SlowSells(fleet, sorted, lo, hi, target, draw,
                      orders + [TxOrder(sorted[i], GetRandomDecimalInRange(lo, hi, draw(|orders|)), SELL)],
                      visits + [i], spent + [Taken(orders, visits, spent, i)])
  {
    var o := TxOrder(sorted[i], GetRandomDecimalInRange(lo, hi, draw(|orders|)), SELL);
    var cur := Taken(orders, visits, spent, i);
    assert (orders + [o])[..|orders|] == orders;
    assert (visits + [i])[..|orders|] == visits;
    assert (spent + [cur])[..|orders|] == spent;
  }

  /** Cutting one more chunk keeps Cutting, with the chunk taken off the balance, and adds it to
      the total. */
  lemma CuttingSnoc(fleet: seq<Wallet>, sorted: seq<nat>, lo: real, hi: real, target: real, draw: nat -> real,
                    orders: seq<TxOrder>, visits: seq<nat>, spent: seq<real>, i: nat, balance: real)
    requires InRange(fleet, sorted) && i < |sorted|
    requires forall k: nat :: 0.0 <= draw(k) < 1.0
    requires Cutting(fleet, sorted, lo, hi, target, draw, orders, visits, spent, i, balance)
    requires balance > lo && AmountTotal(orders) < target
    ensures Cutting(fleet, sorted, lo, hi, target, draw,
                    orders + [TxOrder(sorted[i], GetRandomDecimalInRange(lo, hi, draw(|orders|)), SELL)],
                    visits + [i], spent + [Taken(orders, visits, spent, i)], i,
                    balance - GetRandomDecimalInRange(lo, hi, draw(|orders|)))
    ensures AmountTotal(orders + [TxOrder(sorted[i], GetRandomDecimalInRange(lo, hi, draw(|orders|)), SELL)])
            == AmountTotal(orders) + GetRandomDecimalInRange(lo, hi, draw(|orders|))
  {
    var r := GetRandomDecimalInRange(lo, hi, draw(|orders|));
    var o := TxOrder(sorted[i], r, SELL);
    var cur := Taken(orders, visits, spent, i);
    SlowSellsSnoc(fleet, sorted, lo, hi, target, draw, orders, visits, spent, i);
    AmountTotalSnoc(orders, o);
    assert Taken(orders + [o], visits + [i], spent + [cur], i) == cur + r;
  }

  /** What earlier chunks have taken from the wallet at sorted position i, when it is the last
      one visited. */
  ghost function Taken(orders: seq<TxOrder>, visits: seq<nat>, spent: seq<real>, i: nat): real
    requires |visits| == |orders| && |spent| == |orders|
  {
    if |orders| == 0 || visits[|orders| - 1] != i then 0.0 else spent[|orders| - 1] + orders[|orders| - 1].amount
  }

  /** The tokens all chunks together cut from the wallet at sorted position i. */
  ghost function CutFrom(orders: seq<TxOrder>, visits: seq<nat>, i: nat): real
    requires |visits| == |orders|
    decreases |orders|
  {
    if |orders| == 0 then 0.0
    else CutFrom(orders[..|orders| - 1], visits[..|orders| - 1], i)
         + (if visits[|orders| - 1] == i then orders[|orders| - 1].amount else 0.0)
  }

  /** One more chunk adds its amount to what was cut from its own position, and to no other. */
  lemma CutFromSnoc(orders: seq<TxOrder>, visits: seq<nat>, o: TxOrder, v: nat)
    requires |visits| == |orders|
    ensures forall i :: CutFrom(orders + [o], visits + [v], i) == CutFrom(orders, visits, i) + (if v == i then o.amount else 0.0)
  {
    assert (orders + [o])[..|orders|] == orders;
    assert (visits + [v])[..|orders|] == visits;
  }

  /** Nothing has been cut yet from a position past the last one a SlowSells run visited. */
  lemma {:induction false} CutFromLater(fleet: seq<Wallet>, sorted: seq<nat>, lo: real, hi: real, target: real,
                                        draw: nat -> real, orders: seq<TxOrder>, visits: seq<nat>, spent: seq<real>, i: nat)
    requires InRange(fleet, sorted)
    requires forall k: nat :: 0.0 <= draw(k) < 1.0
    requires SlowSells(fleet, sorted, lo, hi, target, draw, orders, visits, spent)
    requires |orders| == 0 || visits[|orders| - 1] < i
    ensures CutFrom(orders, visits, i) == 0.0
    decreases |orders|
  {
    if |orders| > 0 {
      var k := |orders| - 1;
      CutFromLater(fleet, sorted, lo, hi, target, draw, orders[..k], visits[..k], spent[..k], i);
    }
  }

  /** When every sorted position before i has been drained to lo and the run has not gone past
      i, every position before one the run visited has been drained to lo. */
  lemma DrainedBefore(fleet: seq<Wallet>, sorted: seq<nat>, lo: real, hi: real, target: real,
                      draw: nat -> real, orders: seq<TxOrder>, visits: seq<nat>, spent: seq<real>, i: nat)
    requires InRange(fleet, sorted)
    requires forall k: nat :: 0.0 <= draw(k) < 1.0
    requires SlowSells(fleet, sorted, lo, hi, target, draw, orders, visits, spent)
    requires |orders| == 0 || visits[|orders| - 1] <= i
    requires forall j :: 0 <= j < i && j < |sorted| ==> fleet[sorted[j]].tokenBalance - CutFrom(orders, visits, j) <= lo
    ensures forall k :: 0 <= k < |orders| ==> visits[k] < |sorted|
    ensures forall k, j :: 0 <= k < |orders| && 0 <= j < visits[k] ==>
              fleet[sorted[j]].tokenBalance - CutFrom(orders, visits, j) <= lo
  {
    SlowSellsChunks(fleet, sorted, lo, hi, target, draw, orders, visits, spent);
    forall k, j | 0 <= k < |orders| && 0 <= j < visits[k]
      ensures fleet[sorted[j]].tokenBalance - CutFrom(orders, visits, j) <= lo
    {
      assert visits[k] <= visits[|orders| - 1];
    }
  }

  /** The outer loop of startSlowSelling: the wallets in sorted order, each cut into chunks
      while it keeps more than lo, until the chunks reach target. */
  method CutWallets(fleet: seq<Wallet>, sorted: seq<nat>, lo: real, hi: real, target: real, draw: nat -> real)
    returns (orders: seq<TxOrder>, ghost visits: seq<nat>, ghost spent: seq<real>)
    requires InRange(fleet, sorted) && lo >= 1.0 && hi >= 1.0
    requires forall k: nat :: 0.0 <= draw(k) < 1.0
    ensures SlowSells(fleet, sorted, lo, hi, target, draw, orders, visits, spent)
    ensures AmountTotal(orders) < target ==>
              forall j :: 0 <= j < |sorted| ==> fleet[sorted[j]].tokenBalance - CutFrom(orders, visits, j) <= lo
    ensures forall k :: 0 <= k < |orders| ==> visits[k] < |sorted|
    ensures forall k, j :: 0 <= k < |orders| && 0 <= j < visits[k] ==>
              fleet[sorted[j]].tokenBalance - CutFrom(orders, visits, j) <= lo
  {
    orders, visits, spent := [], [], [];
    var totalTokenSum := 0.0;
    for i := 0 to |sorted|
      invariant SlowSells(fleet, sorted, lo, hi, target, draw, orders, visits, spent)
      invariant |orders| == 0 || visits[|orders| - 1] < i
      invariant totalTokenSum == AmountTotal(orders)
      invariant forall j :: 0 <= j < i ==> fleet[sorted[j]].tokenBalance - CutFrom(orders, visits, j) <= lo
    {
      var walletTokenBalance := fleet[sorted[i]].tokenBalance;
      if walletTokenBalance < lo {
        CutFromLater(fleet, sorted, lo, hi, target, draw, orders, visits, spent, i);
        continue;
      }
      var shouldStop;
      orders, visits, spent, totalTokenSum, shouldStop := CutWallet(fleet, sorted, i, lo, hi, target, draw,
                                                                    orders, visits, spent, totalTokenSum);
      if shouldStop {
        DrainedBefore(fleet, sorted, lo, hi, target, draw, orders, visits, spent, i);
        return;
      }
    }
    if |orders| > 0 {
      DrainedBefore(fleet, sorted, lo, hi, target, draw, orders, visits, spent, visits[|orders| - 1]);
    }
  }

  /** The inner loop of startSlowSelling: chunks drawn between lo and hi from the wallet at
      sorted position i while it keeps more than lo; stopping, and saying so, as soon as the
      chunks reach target. */
  method CutWallet(fleet: seq<Wallet>, sorted: seq<nat>, i: nat, lo: real, hi: real, target: real, draw: nat -> real,
                   orders: seq<TxOrder>, ghost visits: seq<nat>, ghost spent: seq<real>, total: real)
    returns (orders': seq<TxOrder>, ghost visits': seq<nat>, ghost spent': seq<real>, total': real, shouldStop: bool)
    requires InRange(fleet, sorted) && i < |sorted| && lo >= 1.0 && hi >= 1.0
    requires forall k: nat :: 0.0 <= draw(k) < 1.0
    requires SlowSells(fleet, sorted, lo, hi, target, draw, orders, visits, spent)
    requires |orders| == 0 || visits[|orders| - 1] < i
    requires total == AmountTotal(orders)
    ensures SlowSells(fleet, sorted, lo, hi, target, draw, orders', visits', spent')
    ensures |orders'| == 0 || visits'[|orders'| - 1] <= i
    ensures total' == AmountTotal(orders')
    ensures shouldStop ==> total' >= target
    ensures forall j :: j != i ==> CutFrom(orders', visits', j) == CutFrom(orders, visits, j)
    ensures !shouldStop ==> fleet[sorted[i]].tokenBalance - CutFrom(orders', visits', i) <= lo
  {
    orders', visits', spent', total', shouldStop := orders, visits, spent, total, false;
    var walletTokenBalance := fleet[sorted[i]].tokenBalance;
    CutFromLater(fleet, sorted, lo, hi, target, draw, orders, visits, spent, i);
    while walletTokenBalance > lo
      invariant Cutting(fleet, sorted, lo, hi, target, draw, orders', visits', spent', i, walletTokenBalance)
      invariant total' == AmountTotal(orders') && !shouldStop
      invariant forall j :: j != i ==> CutFrom(orders', visits', j) == CutFrom(orders, visits, j)
      invariant walletTokenBalance == fleet[sorted[i]].tokenBalance - CutFrom(orders', visits', i)
      decreases (walletTokenBalance - lo).Floor
    {
      if total' >= target {
        shouldStop := true;
        break;
      }
      var randomSum := GetRandomDecimalInRange(lo, hi, draw(|orders'|));
      CuttingSnoc(fleet, sorted, lo, hi, target, draw, orders', visits', spent', i, walletTokenBalance);
      CutFromSnoc(orders', visits', TxOrder(sorted[i], randomSum, SELL), i);
      visits', spent' := visits' + [i], spent' + [Taken(orders', visits', spent', i)];
      orders' := orders' + [TxOrder(sorted[i], randomSum, SELL)];
      walletTokenBalance := walletTokenBalance - randomSum;
      total' := total' + randomSum;
    }
  }

  // ---------------------------------------------------------------------------------------
  // The market maker

  class MM {
    var wallets: seq<Wallet>
    var totalBalance: real
    var totalTokenBalance: real
    const config: Config
    const sb: Sandbox.UniswapAMMSimulator

    /** An empty fleet with zero totals, and a fresh pool simulator switched on when the
        configuration asks for simulation. */
    constructor(config: Config)
      ensures this.config == config
      ensures wallets == [] && totalBalance == 0.0 && totalTokenBalance == 0.0
      ensures fresh(sb) && sb.Valid() && sb.isRunning == config.simulation
      ensures sb.tokenSupply == 1000000000000000000.0 && sb.pooledEthLiquidity == 100.0 && sb.decimals == 18
    {
      this.config := config;
      wallets := [];
      var sim := new Sandbox.UniswapAMMSimulator(1000000000000000000.0, 100.0, 18);
      sim.SetIsRunning(config.simulation);
      sb := sim;
      totalBalance := 0.0;
      totalTokenBalance := 0.0;
    }

    /** createWalletsFromFile: one wallet per non-blank line of the file, built from the trimmed
        line by init, appended in order, its balances added to the totals, until a wallet fails
        to initialise; that failure is caught, and the wallets loaded before it stay. */
    method CreateWalletsFromFile(data: string, init: string -> Result<Wallet, string>)
      modifies this
      ensures wallets == old(wallets) + Loaded(KeyFile.Keys(data), init)
      ensures totalBalance == old(totalBalance) + BalanceSum(Loaded(KeyFile.Keys(data), init))
      ensures totalTokenBalance == old(totalTokenBalance) + TokenSum(Loaded(KeyFile.Keys(data), init))
    {
      var keys := KeyFile.Keys(data);
      AppendWallets(keys, init);
    }

    /** The loop of createWalletsFromFile over the keys, left at the first failing init. */
    method AppendWallets(keys: seq<string>, init: string -> Result<Wallet, string>)
      modifies this
      ensures wallets == old(wallets) + Loaded(keys, init)
      ensures totalBalance == old(totalBalance) + BalanceSum(Loaded(keys, init))
      ensures totalTokenBalance == old(totalTokenBalance) + TokenSum(Loaded(keys, init))
    {
      ghost var added: seq<Wallet> := [];
      for i := 0 to |keys|
        invariant |added| == i
        invariant forall j :: 0 <= j < i ==> init(keys[j]) == Ok(added[j])
        invariant wallets == old(wallets) + added
        invariant totalBalance == old(totalBalance) + BalanceSum(added)
        invariant totalTokenBalance == old(totalTokenBalance) + TokenSum(added)
      {
        var privateKey := keys[i];
        var loaded := init(privateKey);
        if loaded.Err? {
          LoadedExactly(keys, init, added);
          return;
        }
        var wallet := loaded.value;
        FleetSumsSnoc(added, wallet);
        totalBalance := totalBalance + wallet.balance;
        totalTokenBalance := totalTokenBalance + wallet.tokenBalance;
        assert old(wallets) + (added + [wallet]) == wallets + [wallet];
        wallets := wallets + [wallet];
        added := added + [wallet];
      }
      LoadedExactly(keys, init, added);
    }

    /** getAllBalance: every wallet updated by its fetch; the totals restart from zero and add the
        balances of the wallets whose fetches both succeeded. */
    method GetAllBalance(fetches: seq<Fetch>)
      requires |fetches| == |wallets|
      modifies this
      ensures wallets == ApplyAll(old(wallets), fetches)
      ensures totalBalance == CountedBalance(fetches) && totalTokenBalance == CountedTokens(fetches)
    {
      totalBalance := 0.0;
      totalTokenBalance := 0.0;
      for i := 0 to |wallets|
        invariant |wallets| == |old(wallets)| == |fetches|
        invariant forall j :: 0 <= j < i ==> wallets[j] == Apply(old(wallets)[j], fetches[j])
        invariant forall j :: i <= j < |wallets| ==> wallets[j] == old(wallets)[j]
        invariant totalBalance == CountedBalance(fetches[..i])
        invariant totalTokenBalance == CountedTokens(fetches[..i])
      {
        assert fetches[..i + 1][..i] == fetches[..i];
        var wallet := Apply(wallets[i], fetches[i]);
        wallets := wallets[i := wallet];
        if fetches[i].Fetched? {
          totalBalance := totalBalance + wallet.balance;
          totalTokenBalance := totalTokenBalance + wallet.tokenBalance;
        }
      }
      assert fetches[..|fetches|] == fetches;
      assert wallets == ApplyAll(old(wallets), fetches);
    }

    /** The orders of buyFromAll: every wallet, in fleet order, buys with its balance less the
        fee reserve, rounded to 3 decimals. */
    method BuyFromAllOrders() returns (txOrders: seq<TxOrder>)
      ensures |txOrders| == |wallets| && ValidOrders(wallets, txOrders)
      ensures forall i :: 0 <= i < |wallets| ==> txOrders[i] == TxOrder(i, BuyAmount(wallets[i], config.leaveOnFee), BUY)
    {
      txOrders := [];
      for i := 0 to |wallets|
        invariant |txOrders| == i
        invariant forall j :: 0 <= j < i ==> txOrders[j] == TxOrder(j, BuyAmount(wallets[j], config.leaveOnFee), BUY)
      {
        txOrders := txOrders + [TxOrder(i, Round(wallets[i].balance - config.leaveOnFee, 3), BUY)];
      }
    }

    /** The orders of sellFromAll: every wallet, in fleet order, sells its cached token balance. */
    method SellFromAllOrders() returns (txOrders: seq<TxOrder>)
      ensures |txOrders| == |wallets| && ValidOrders(wallets, txOrders)
      ensures forall i :: 0 <= i < |wallets| ==> txOrders[i] == TxOrder(i, wallets[i].tokenBalance, SELL)
    {
      txOrders := [];
      for i := 0 to |wallets|
        invariant |txOrders| == i
        invariant forall j :: 0 <= j < i ==> txOrders[j] == TxOrder(j, wallets[j].tokenBalance, SELL)
      {
        txOrders := txOrders + [TxOrder(i, wallets[i].tokenBalance, SELL)];
      }
    }

    /** The dispatch loop of sendTxFromList: the tally is the fold of the per-order step, and
        the fleet is left as the loop's token balance fetches wrote it. */
    method ExecuteOrders(txOrders: seq<TxOrder>, feeds: seq<Feed>) returns (tally: Tally)
      requires FeedsFor(wallets, txOrders, feeds)
      modifies this`wallets
      ensures tally == Dispatch(old(wallets), txOrders, feeds, config.gasPriceLimitGwei, |txOrders|)
      ensures wallets == FleetAt(old(wallets), txOrders, feeds, config.gasPriceLimitGwei, |txOrders|)
    {
      ghost var w0 := wallets;
      tally := EmptyTally;
      for i := 0 to |txOrders|
        invariant tally == Dispatch(w0, txOrders, feeds, config.gasPriceLimitGwei, i)
        invariant wallets == FleetAt(w0, txOrders, feeds, config.gasPriceLimitGwei, i)
      {
        DispatchStep(w0, txOrders, feeds, config.gasPriceLimitGwei, i);
        tally := HandleOrder(tally, w0, txOrders, feeds, i);
      }
    }

    /** One pass of the dispatch loop body: the gas check, then the guard of the order's type. A
        SELL from a wallet whose cached token balance is not positive fetches the balance, which
        getTokenBalance stores in the wallet. */
    method HandleOrder(t: Tally, ghost w0: seq<Wallet>, txOrders: seq<TxOrder>, feeds: seq<Feed>, i: nat) returns (t': Tally)
      requires FeedsFor(w0, txOrders, feeds) && i < |txOrders|
      requires wallets == FleetAt(w0, txOrders, feeds, config.gasPriceLimitGwei, i)
      modifies this`wallets
      ensures t' == Step(t, txOrders[i], FateAt(w0, txOrders, feeds, config.gasPriceLimitGwei, i), feeds[i].isSuccess, i)
      ensures wallets == FleetAt(w0, txOrders, feeds, config.gasPriceLimitGwei, i + 1)
    {
      var ix := txOrders[i].walletIx;
      var currentWallet := wallets[ix];
      var amount, txType := txOrders[i].amount, txOrders[i].txType;
      if feeds[i].gasPriceGwei > config.gasPriceLimitGwei {
        return t;
      }
      if txType == BUY {
        t' := HandleBuy(t, currentWallet.balance, amount, feeds[i].isSuccess, i);
      } else if txType == SELL {
        var tokenBalance := Finite(currentWallet.tokenBalance);
        if currentWallet.tokenBalance <= 0.0 {
          tokenBalance := feeds[i].fetchedTokenBalance;
          if tokenBalance.Finite? {
            wallets := wallets[ix := currentWallet.(tokenBalance := tokenBalance.value)];
          }
        }
        if tokenBalance.NaN? {
          tokenBalance := Finite(0.0);
        }
        t' := HandleSell(t, tokenBalance.value, amount, feeds[i].isSuccess, i);
      } else {
        t' := t;
      }
    }

    /** A BUY that passed the gas check: counted, skipped when the cached balance does not exceed
        the amount, otherwise submitted and, on success, added to the ETH spent. */
    static method HandleBuy(t: Tally, balance: real, amount: real, isSuccess: bool, i: nat) returns (t': Tally)
      ensures t'.buyAmount == t.buyAmount + 1 && t'.sellAmount == t.sellAmount
      ensures t'.successSellCount == t.successSellCount && t'.totalTokenSum == t.totalTokenSum
      ensures var sub := balance > amount; var win := sub && isSuccess;
        && t'.submitted == (if sub then t.submitted + [i] else t.submitted)
        && t'.succeeded == (if win then t.succeeded + [i] else t.succeeded)
        && t'.successBuyCount == t.successBuyCount + (if win then 1 else 0)
        && t'.totalEthSum == t.totalEthSum + (if win then amount else 0.0)
    {
      t' := t.(buyAmount := t.buyAmount + 1);
      if balance <= amount {
        return;
      }
      t' := t'.(submitted := t'.submitted + [i]);
      if isSuccess {
        t' := t'.(successBuyCount := t'.successBuyCount + 1, totalEthSum := t'.totalEthSum + amount,
                  succeeded := t'.succeeded + [i]);
      }
    }

    /** A SELL that passed the gas check, against the token balance the guard uses. */
    static method HandleSell(t: Tally, tokenBalance: real, amount: real, isSuccess: bool, i: nat) returns (t': Tally)
      ensures t'.sellAmount == t.sellAmount + 1 && t'.buyAmount == t.buyAmount
      ensures t'.successBuyCount == t.successBuyCount && t'.totalEthSum == t.totalEthSum
      ensures var sub := tokenBalance > amount; var win := sub && isSuccess;
        && t'.submitted == (if sub then t.submitted + [i] else t.submitted)
        && t'.succeeded == (if win then t.succeeded + [i] else t.succeeded)
        && t'.successSellCount == t.successSellCount + (if win then 1 else 0)
        && t'.totalTokenSum == t.totalTokenSum + (if win then amount else 0.0)
    {
      t' := t.(sellAmount := t.sellAmount + 1);
      if tokenBalance <= amount {
        return;
      }
      t' := t'.(submitted := t'.submitted + [i]);
      if isSuccess {
        t' := t'.(successSellCount := t'.successSellCount + 1, totalTokenSum := t'.totalTokenSum + amount,
                  succeeded := t'.succeeded + [i]);
      }
    }

    /** The deduplication loop of sendTxFromList, with its set of used addresses. */
    method UniqueWallets(txOrders: seq<TxOrder>) returns (unique: seq<nat>)
      requires ValidOrders(wallets, txOrders)
      ensures unique == Dedup(wallets, txOrders, |txOrders|)
    {
      var usedWallets: set<string> := {};
      unique := [];
      for i := 0 to |txOrders|
        invariant unique == Dedup(wallets, txOrders, i)
        invariant usedWallets == Addresses(wallets, unique)
      {
        var walletAddress := wallets[txOrders[i].walletIx].address;
        if walletAddress !in usedWallets {
          AddressesAppend(wallets, unique, txOrders[i].walletIx);
          usedWallets := usedWallets + {walletAddress};
          unique := unique + [txOrders[i].walletIx];
        }
      }
    }

    /** What sendTxFromList leaves behind, from the fleet w0 and totals b0, t0 it started with: the
        tally of the dispatch loop, the unique wallets, and the fleet as the loop's token balance
        fetches left it; when asked to update balances and some wallet was used, those wallets
        are then refreshed and the totals recomputed over the whole fleet; otherwise the totals
        are as they were. */
    ghost predicate SentFrom(w0: seq<Wallet>, b0: real, t0: real, txOrders: seq<TxOrder>, updateBalance: bool,
                             feeds: seq<Feed>, refreshed: seq<Funds>, tally: Tally, unique: seq<nat>)
      reads this
      requires FeedsFor(w0, txOrders, feeds) && |refreshed| == |w0|
    {
      && tally == Dispatch(w0, txOrders, feeds, config.gasPriceLimitGwei, |txOrders|)
      && unique == Dedup(w0, txOrders, |txOrders|)
      && var dispatched := FleetAt(w0, txOrders, feeds, config.gasPriceLimitGwei, |txOrders|);
         if updateBalance && |unique| > 0 then
           && wallets == Refreshed(dispatched, unique, refreshed)
           && totalBalance == BalanceSum(wallets) && totalTokenBalance == TokenSum(wallets)
         else
           wallets == dispatched && totalBalance == b0 && totalTokenBalance == t0
    }

    /** sendTxFromList: dispatch every order, collect the wallets used, refresh them and
        recompute the totals. */
    method SendTxFromList(txOrders: seq<TxOrder>, updateBalance: bool, feeds: seq<Feed>, refreshed: seq<Funds>)
      returns (tally: Tally, unique: seq<nat>)
      requires FeedsFor(wallets, txOrders, feeds) && |refreshed| == |wallets|
      modifies this
      ensures SentFrom(old(wallets), old(totalBalance), old(totalTokenBalance), txOrders, updateBalance,
                       feeds, refreshed, tally, unique)
    {
      tally := ExecuteOrders(txOrders, feeds);
      FleetAtKeeps(old(wallets), txOrders, feeds, config.gasPriceLimitGwei, |txOrders|);
      DedupSameAddresses(old(wallets), wallets, txOrders, |txOrders|);
      unique := UniqueWallets(txOrders);
      if updateBalance && |unique| > 0 {
        RefreshWallets(unique, refreshed);
        RecomputeTotals();
      }
    }

    /** The refresh loop of sendTxFromList: getBalance and getTokenBalance for each unique wallet. */
    method RefreshWallets(unique: seq<nat>, refreshed: seq<Funds>)
      requires InRange(wallets, unique) && |refreshed| == |wallets|
      modifies this`wallets
      ensures wallets == Refreshed(old(wallets), unique, refreshed)
    {
      for i := 0 to |unique|
        invariant wallets == Refreshed(old(wallets), unique[..i], refreshed)
      {
        assert unique[..i + 1][..i] == unique[..i];
        var currentWallet := unique[i];
        wallets := wallets[currentWallet := Refresh(wallets[currentWallet], refreshed[currentWallet])];
      }
      assert unique[..|unique|] == unique;
    }

    /** The reconciliation loop of sendTxFromList: both totals restart from zero and add up the
        cached balances of the whole fleet. */
    method RecomputeTotals()
      modifies this`totalBalance, this`totalTokenBalance
      ensures totalBalance == BalanceSum(wallets) && totalTokenBalance == TokenSum(wallets)
    {
      totalBalance := 0.0;
      totalTokenBalance := 0.0;
      for i := 0 to |wallets|
        invariant totalBalance == BalanceSum(wallets[..i]) && totalTokenBalance == TokenSum(wallets[..i])
      {
        assert wallets[..i + 1][..i] == wallets[..i];
        totalBalance := totalBalance + wallets[i].balance;
        totalTokenBalance := totalTokenBalance + wallets[i].tokenBalance;
      }
      assert wallets[..|wallets|] == wallets;
    }

    /** buyFromAll: build the all-wallet BUY list and send it, updating balances. */
    method BuyFromAll(feeds: seq<Feed>, refreshed: seq<Funds>) returns (txOrders: seq<TxOrder>, tally: Tally, unique: seq<nat>)
      requires |feeds| == |wallets| && |refreshed| == |wallets|
      modifies this
      ensures |txOrders| == |old(wallets)| && FeedsFor(old(wallets), txOrders, feeds)
      ensures forall i :: 0 <= i < |txOrders| ==> txOrders[i] == TxOrder(i, BuyAmount(old(wallets)[i], config.leaveOnFee), BUY)
      ensures SentFrom(old(wallets), old(totalBalance), old(totalTokenBalance), txOrders, true, feeds, refreshed, tally, unique)
    {
      txOrders := BuyFromAllOrders();
      tally, unique := SendTxFromList(txOrders, true, feeds, refreshed);
    }

    /** sellFromAll: build the all-wallet SELL list and send it. */
    method SellFromAll(updateBalance: bool, feeds: seq<Feed>, refreshed: seq<Funds>)
      returns (txOrders: seq<TxOrder>, tally: Tally, unique: seq<nat>)
      requires |feeds| == |wallets| && |refreshed| == |wallets|
      modifies this
      ensures |txOrders| == |old(wallets)| && FeedsFor(old(wallets), txOrders, feeds)
      ensures forall i :: 0 <= i < |txOrders| ==> txOrders[i] == TxOrder(i, old(wallets)[i].tokenBalance, SELL)
      ensures SentFrom(old(wallets), old(totalBalance), old(totalTokenBalance), txOrders, updateBalance, feeds, refreshed, tally, unique)
    {
      txOrders := SellFromAllOrders();
      tally, unique := SendTxFromList(txOrders, updateBalance, feeds, refreshed);
    }

    // -------------------------------------------------------------------------------------
    // sellAmountInPercents and buyAmountSol

    /** The primary loop of sellAmountInPercents: from the last wallet down, every wallet holding
        more than 10 tokens sells all of them, until the amount sold reaches target. */
    method SelectSellers(target: real) returns (txOrders: seq<TxOrder>, sellAmountReal: real)
      ensures txOrders == Primary(wallets, PrimarySell, Down(|wallets|), target)
      ensures sellAmountReal == AmountTotal(txOrders)
    {
      var fleet := wallets;
      ghost var visit := Down(|fleet|);
      ghost var s := 0;
      sellAmountReal := 0.0;
      txOrders := [];
      var ix := |fleet| - 1;
      while sellAmountReal < target && ix >= 0
        invariant ix == |fleet| - 1 - s && s <= |fleet|
        invariant s <= Consumed(fleet, PrimarySell, visit, target, 0)
        invariant txOrders == OrdersFor(fleet, PrimarySell, visit[..s])
        invariant sellAmountReal == AmountTotal(txOrders)
        decreases ix
      {
        PrimaryAdvance(fleet, PrimarySell, visit, target, s);
        assert visit[s] == ix;
        var wallet := fleet[ix];
        if wallet.tokenBalance > 10.0 {
          sellAmountReal := sellAmountReal + wallet.tokenBalance;
          txOrders := txOrders + [TxOrder(ix, wallet.tokenBalance, SELL)];
        }
        s, ix := s + 1, ix - 1;
      }
      PrimaryDone(fleet, PrimarySell, visit, target, s);
    }

    /** The primary loop of buyAmountSol: from the first wallet up, every wallet holding fewer
        than 20 tokens buys with its balance less the fee reserve, until the ETH spent reaches
        amountSol. */
    method SelectBuyers(amountSol: real) returns (txOrders: seq<TxOrder>, currentEthSum: real)
      ensures txOrders == Primary(wallets, PrimaryBuy(config.leaveOnFee), Up(|wallets|), amountSol)
      ensures currentEthSum == AmountTotal(txOrders)
    {
      var fleet := wallets;
      ghost var visit, rule := Up(|fleet|), PrimaryBuy(config.leaveOnFee);
      currentEthSum := 0.0;
      txOrders := [];
      var ix := 0;
      while currentEthSum < amountSol && ix < |fleet|
        invariant 0 <= ix <= |fleet|
        invariant ix <= Consumed(fleet, rule, visit, amountSol, 0)
        invariant txOrders == OrdersFor(fleet, rule, visit[..ix])
        invariant currentEthSum == AmountTotal(txOrders)
        decreases |fleet| - ix
      {
        PrimaryAdvance(fleet, rule, visit, amountSol, ix);
        assert visit[ix] == ix;
        var wallet := fleet[ix];
        if wallet.tokenBalance >= 20.0 {
          assert !Takes(rule, wallet);
          ix := ix + 1;
          continue;
        }
        var amount := BuyAmount(wallet, config.leaveOnFee);
        assert Takes(rule, wallet) && OrderFor(rule, ix, wallet) == TxOrder(ix, amount, BUY);
        currentEthSum := currentEthSum + amount;
        txOrders := txOrders + [TxOrder(ix, amount, BUY)];
        ix := ix + 1;
      }
      PrimaryDone(fleet, rule, visit, amountSol, ix);
    }

    /** A noise loop that walks the sorted wallets forward: the first requested orders of the
        rule's walk over them, or all of them when there are fewer. */
    method PickNoise(rule: Rule, sorted: seq<nat>, requested: nat) returns (noise: seq<TxOrder>)
      requires InRange(wallets, sorted)
      ensures noise == Take(OrdersFor(wallets, rule, sorted), requested)
    {
      noise := [];
      var randomTxAmount := requested;
      var ix := 0;
      while randomTxAmount > 0 && ix < |sorted|
        invariant 0 <= ix <= |sorted| && |noise| + randomTxAmount == requested
        invariant noise == OrdersFor(wallets, rule, sorted[..ix])
      {
        OrdersForStep(wallets, rule, sorted, ix);
        var wallet := wallets[sorted[ix]];
        if Takes(rule, wallet) {
          noise := noise + [OrderFor(rule, sorted[ix], wallet)];
          randomTxAmount := randomTxAmount - 1;
        }
        ix := ix + 1;
        if randomTxAmount <= 0 {
          break;
        }
      }
      OrdersForPrefix(wallets, rule, sorted, ix);
      if ix == |sorted| {
        assert sorted[..ix] == sorted;
      }
      TakePrefix(OrdersFor(wallets, rule, sorted), noise, requested);
    }

    /** The noise loop of buyAmountSol as written, whose index runs 0, -1: reading
        sortedWallets[-1] throws. */
    method PickNoiseSellsAsWritten(sorted: seq<nat>, requested: nat) returns (r: Result<seq<TxOrder>, string>)
      requires InRange(wallets, sorted)
      ensures r == NoiseSellsAsWritten(wallets, sorted, requested)
    {
      var noise: seq<TxOrder> := [];
      var randomTxAmount := requested;
      var ix: int := 0;
      while randomTxAmount > 0 && ix <= |sorted|
        invariant -1 <= ix <= 0
        invariant ix == 0 ==> noise == [] && randomTxAmount == requested
        invariant ix == -1 ==> (
          && |sorted| > 0 && requested > 0 && |noise| + randomTxAmount == requested
          && noise == if Takes(NoiseSell, wallets[sorted[0]]) then [OrderFor(NoiseSell, sorted[0], wallets[sorted[0]])] else [])
        decreases ix + 1
      {
        if !(0 <= ix < |sorted|) {
          assert ix == -1 ==> requested >= 2 || !Takes(NoiseSell, wallets[sorted[0]]);
          return Err(UNDEFINED_TOKEN_BALANCE);
        }
        var wallet := wallets[sorted[ix]];
        if wallet.tokenBalance >= 20.0 {
          noise := noise + [TxOrder(sorted[ix], Round(wallet.tokenBalance, 3), SELL)];
          randomTxAmount := randomTxAmount - 1;
        }
        ix := ix - 1;
        if randomTxAmount <= 0 {
          break;
        }
      }
      if ix == -1 {
        var o := OrderFor(NoiseSell, sorted[0], wallets[sorted[0]]);
        assert requested == 1 && noise == [o];
        assert NoiseSellsAsWritten(wallets, sorted, requested) == Ok([o]);
      }
      r := Ok(noise);
    }

    /** The total token supply sellAmountInPercents sums up. */
    method TotalSupply() returns (totalSupply: real)
      ensures totalSupply == TokenSum(wallets)
    {
      totalSupply := 0.0;
      for i := 0 to |wallets|
        invariant totalSupply == TokenSum(wallets[..i])
      {
        assert wallets[..i + 1][..i] == wallets[..i];
        totalSupply := totalSupply + wallets[i].tokenBalance;
      }
      assert wallets[..|wallets|] == wallets;
    }

    /** The target of sellAmountInPercents: amountInPercents percent of the fleet's tokens. */
    ghost function SellTarget(amountInPercents: real): real
      reads this
    {
      amountInPercents * TokenSum(wallets) / 100.0
    }

    /** How many noise orders a builder asks for after picking primary orders. */
    function NoiseRequested(pctDraw: real, primary: nat): nat
      reads this
      requires 0.0 <= pctDraw < 1.0
    {
      NoiseCount(GetRandomIntInRange(config.minRandomTxAmountInPercents, config.maxRandomTxAmountInPercents, pctDraw), primary)
    }

    /** The orders of sellAmountInPercents: the primary sells; with randomTx, also noise BUYs of
        whole ETH balances from the wallets holding at most 100 tokens, fewest tokens first, as
        many as the drawn percentage of the primary count (at least one), the whole list then
        shuffled. */
    method SellAmountInPercentsOrders(amountInPercents: real, randomTx: bool, pctDraw: real, shuffleDraw: nat -> nat)
      returns (txOrders: seq<TxOrder>, primary: seq<TxOrder>, noise: seq<TxOrder>)
      requires 0.0 <= pctDraw < 1.0
      ensures primary == Primary(wallets, PrimarySell, Down(|wallets|), SellTarget(amountInPercents))
      ensures noise == if randomTx then Take(OrdersFor(wallets, NoiseBuy, SortBy(wallets, ByTokenBalance, true)),
                                             NoiseRequested(pctDraw, |primary|))
                       else []
      ensures multiset(txOrders) == multiset(primary + noise) && ValidOrders(wallets, txOrders)
      ensures !randomTx ==> txOrders == primary
    {
      var totalSupply := TotalSupply();
      var sellAmountTotal := amountInPercents * totalSupply / 100.0;
      assert sellAmountTotal == SellTarget(amountInPercents);
      var sellAmountReal;
      primary, sellAmountReal := SelectSellers(sellAmountTotal);
      WalksValid(wallets, PrimarySell, Down(|wallets|), sellAmountTotal, NoiseBuy, [], 0);
      if randomTx {
        txOrders, noise := SellNoise(primary, pctDraw, shuffleDraw);
      } else {
        txOrders, noise := primary, [];
      }
    }

    /** The random part of sellAmountInPercents: pick the noise BUYs and shuffle them in. */
    method SellNoise(primary: seq<TxOrder>, pctDraw: real, shuffleDraw: nat -> nat)
      returns (txOrders: seq<TxOrder>, noise: seq<TxOrder>)
      requires 0.0 <= pctDraw < 1.0 && ValidOrders(wallets, primary)
      ensures noise == Take(OrdersFor(wallets, NoiseBuy, SortBy(wallets, ByTokenBalance, true)),
                            NoiseRequested(pctDraw, |primary|))
      ensures multiset(txOrders) == multiset(primary + noise) && ValidOrders(wallets, txOrders)
    {
      var randomTxAmountInPercents := GetRandomIntInRange(config.minRandomTxAmountInPercents,
                                                          config.maxRandomTxAmountInPercents, pctDraw);
      var randomTxAmount := NoiseCount(randomTxAmountInPercents, |primary|);
      var sortedWallets := SortBy(wallets, ByTokenBalance, true);
      noise := PickNoise(NoiseBuy, sortedWallets, randomTxAmount);
      WalksValid(wallets, NoiseBuy, [], 0.0, NoiseBuy, sortedWallets, randomTxAmount);
      txOrders := Shuffle(primary + noise, shuffleDraw);
      PermutedValid(wallets, primary, noise, txOrders);
    }

    /** The orders of buyAmountSol: the primary buys; with randomTx, also noise SELLs from the
        wallets holding at least 20 tokens, least ETH first, as many as the drawn percentage of
        the primary count (at least one) — a loop that, as written, throws unless one order from
        the first sorted wallet was enough; the whole list is then shuffled. */
    method BuyAmountSolOrders(amountSol: real, randomTx: bool, pctDraw: real, shuffleDraw: nat -> nat)
      returns (r: Result<seq<TxOrder>, string>, primary: seq<TxOrder>)
      requires 0.0 <= pctDraw < 1.0
      ensures primary == Primary(wallets, PrimaryBuy(config.leaveOnFee), Up(|wallets|), amountSol)
      ensures var noise := if randomTx then NoiseSellsAsWritten(wallets, SortBy(wallets, ByBalance, true),
                                                                NoiseRequested(pctDraw, |primary|))
                           else Ok([]);
        && (r.Err? <==> noise.Err?)
        && (r.Err? ==> r.error == UNDEFINED_TOKEN_BALANCE)
        && (r.Ok? ==> multiset(r.value) == multiset(primary + noise.value) && ValidOrders(wallets, r.value))
    {
      var currentEthSum;
      primary, currentEthSum := SelectBuyers(amountSol);
      WalksValid(wallets, PrimaryBuy(config.leaveOnFee), Up(|wallets|), amountSol, NoiseSell, [], 0);
      var noise: seq<TxOrder> := [];
      if randomTx {
        var picked := BuyNoise(|primary|, pctDraw);
        if picked.Err? {
          return Err(picked.error), primary;
        }
        noise := picked.value;
      }
      var txOrders := Shuffle(primary + noise, shuffleDraw);
      PermutedValid(wallets, primary, noise, txOrders);
      r := Ok(txOrders);
    }

    /** The random part of buyAmountSol before the shuffle: the noise SELLs, or the error the loop
        as written throws. */
    method BuyNoise(primaryCount: nat, pctDraw: real) returns (picked: Result<seq<TxOrder>, string>)
      requires 0.0 <= pctDraw < 1.0
      ensures picked == NoiseSellsAsWritten(wallets, SortBy(wallets, ByBalance, true), NoiseRequested(pctDraw, primaryCount))
      ensures picked.Err? ==> picked.error == UNDEFINED_TOKEN_BALANCE
      ensures picked.Ok? ==> ValidOrders(wallets, picked.value)
    {
      var randomTxAmountInPercents := GetRandomIntInRange(config.minRandomTxAmountInPercents,
                                                          config.maxRandomTxAmountInPercents, pctDraw);
      var randomTxAmount := NoiseCount(randomTxAmountInPercents, primaryCount);
      var sortedWallets := SortBy(wallets, ByBalance, true);
      picked := PickNoiseSellsAsWritten(sortedWallets, randomTxAmount);
      NoiseSellsAsWrittenAgrees(wallets, sortedWallets, randomTxAmount);
      WalksValid(wallets, NoiseSell, [], 0.0, NoiseSell, sortedWallets, randomTxAmount);
    }

    // -------------------------------------------------------------------------------------
    // startSlowSelling

    /** The orders of startSlowSelling: nothing when the observed volume is not positive;
        otherwise the wallets, most tokens first, cut into SELL chunks drawn between the two
        bounds while a wallet keeps more than the lower bound, until the chunks reach the
        configured share of the volume. Each wallet is drained to the lower bound before the
        next one is touched, so every wallet ahead of one the run cut from keeps at most the
        lower bound, and a run that falls short of that share has left every wallet so. */
    method StartSlowSellingOrders(volume: real, tokenPrice: real, convert: real -> real, draw: nat -> real)
      returns (txOrders: seq<TxOrder>, ghost visits: seq<nat>, ghost spent: seq<real>)
      requires tokenPrice != 0.0
      requires forall k: nat :: 0.0 <= draw(k) < 1.0
      requires volume > 0.0 ==> (TokensFor(config.minSellingAmountUSDC, convert, tokenPrice) > 0.0
                                 && TokensFor(config.maxSellingAmountUSDC, convert, tokenPrice) > 0.0)
      ensures volume <= 0.0 ==> txOrders == []
      ensures ValidOrders(wallets, txOrders)
      ensures SlowSells(wallets, SortBy(wallets, ByTokenBalance, false),
                        TokensFor(config.minSellingAmountUSDC, convert, tokenPrice),
                        TokensFor(config.maxSellingAmountUSDC, convert, tokenPrice),
                        volume * config.totalSellingLimitPercents / 100.0, draw, txOrders, visits, spent)
      ensures volume > 0.0 && AmountTotal(txOrders) < volume * config.totalSellingLimitPercents / 100.0 ==>
                forall j :: 0 <= j < |wallets| ==>
                  wallets[SortBy(wallets, ByTokenBalance, false)[j]].tokenBalance - CutFrom(txOrders, visits, j)
                  <= TokensFor(config.minSellingAmountUSDC, convert, tokenPrice)
      ensures forall k :: 0 <= k < |txOrders| ==> visits[k] < |wallets|
      ensures forall k, j :: 0 <= k < |txOrders| && 0 <= j < visits[k] ==>
                wallets[SortBy(wallets, ByTokenBalance, false)[j]].tokenBalance - CutFrom(txOrders, visits, j)
                <= TokensFor(config.minSellingAmountUSDC, convert, tokenPrice)
    {
      txOrders, visits, spent := [], [], [];
      var sortedWallets := SortBy(wallets, ByTokenBalance, false);
      if volume <= 0.0 {
        return;
      }
      var totalSellAmount := volume * config.totalSellingLimitPercents / 100.0;
      var minSellAmount := convert(config.minSellingAmountUSDC);
      var maxSellAmount := convert(config.maxSellingAmountUSDC);
      var minSellAmountTokens := Round(minSellAmount / tokenPrice, 0);
      var maxSellAmountTokens := Round(maxSellAmount / tokenPrice, 0);
      RoundWholeAtLeastOne(minSellAmount / tokenPrice);
      RoundWholeAtLeastOne(maxSellAmount / tokenPrice);
      txOrders, visits, spent := CutWallets(wallets, sortedWallets, minSellAmountTokens, maxSellAmountTokens,
                                            totalSellAmount, draw);
      SlowSellsValid(wallets, sortedWallets, minSellAmountTokens, maxSellAmountTokens, totalSellAmount, draw,
                     txOrders, visits, spent);
    }

    // -------------------------------------------------------------------------------------
    // Building and sending

    /** sellAmountInPercents: build the list and send it, refreshing the wallets it used. */
    method SellAmountInPercents(amountInPercents: real, randomTx: bool, pctDraw: real, shuffleDraw: nat -> nat,
                                feed: nat -> Feed, refreshed: seq<Funds>)
      returns (txOrders: seq<TxOrder>, tally: Tally, unique: seq<nat>)
      requires 0.0 <= pctDraw < 1.0 && |refreshed| == |wallets|
      modifies this
      ensures var primary := Primary(old(wallets), PrimarySell, Down(|old(wallets)|), old(SellTarget(amountInPercents)));
        && multiset(txOrders)
           == multiset(primary + if randomTx then Take(OrdersFor(old(wallets), NoiseBuy, SortBy(old(wallets), ByTokenBalance, true)),
                                                       NoiseRequested(pctDraw, |primary|))
                                 else [])
        && (!randomTx ==> txOrders == primary)
      ensures FeedsFor(old(wallets), txOrders, FeedList(feed, |txOrders|))
      ensures SentFrom(old(wallets), old(totalBalance), old(totalTokenBalance), txOrders, true,
                       FeedList(feed, |txOrders|), refreshed, tally, unique)
    {
      var primary, noise;
      txOrders, primary, noise := SellAmountInPercentsOrders(amountInPercents, randomTx, pctDraw, shuffleDraw);
      tally, unique := SendTxFromList(txOrders, true, FeedList(feed, |txOrders|), refreshed);
    }

    /** buyAmountSol: build the list and, unless building it threw, send it, refreshing the
        wallets it used. */
    method BuyAmountSol(amountSol: real, randomTx: bool, pctDraw: real, shuffleDraw: nat -> nat,
                        feed: nat -> Feed, refreshed: seq<Funds>)
      returns (r: Result<seq<TxOrder>, string>, tally: Tally, unique: seq<nat>)
      requires 0.0 <= pctDraw < 1.0 && |refreshed| == |wallets|
      modifies this
      ensures var primary := Primary(old(wallets), PrimaryBuy(config.leaveOnFee), Up(|old(wallets)|), amountSol);
              var noise := if randomTx then NoiseSellsAsWritten(old(wallets), SortBy(old(wallets), ByBalance, true),
                                                                NoiseRequested(pctDraw, |primary|))
                           else Ok([]);
        && (r.Err? <==> noise.Err?)
        && (r.Ok? ==> multiset(r.value) == multiset(primary + noise.value))
      ensures r.Err? ==> (r.error == UNDEFINED_TOKEN_BALANCE && wallets == old(wallets)
                          && totalBalance == old(totalBalance) && totalTokenBalance == old(totalTokenBalance))
      ensures r.Ok? ==> (FeedsFor(old(wallets), r.value, FeedList(feed, |r.value|))
                         && SentFrom(old(wallets), old(totalBalance), old(totalTokenBalance), r.value, true,
                                     FeedList(feed, |r.value|), refreshed, tally, unique))
    {
      var primary;
      r, primary := BuyAmountSolOrders(amountSol, randomTx, pctDraw, shuffleDraw);
      tally, unique := EmptyTally, [];
      if r.Ok? {
        tally, unique := SendTxFromList(r.value, true, FeedList(feed, |r.value|), refreshed);
      }
    }

    /** startSlowSelling: nothing at all when the observed volume is not positive; otherwise
        build the chunk list and send it, refreshing the wallets it used. */
    method StartSlowSelling(volume: real, tokenPrice: real, convert: real -> real, draw: nat -> real,
                            feed: nat -> Feed, refreshed: seq<Funds>)
      returns (txOrders: seq<TxOrder>, ghost visits: seq<nat>, ghost spent: seq<real>, tally: Tally, unique: seq<nat>)
      requires tokenPrice != 0.0 && |refreshed| == |wallets|
      requires forall k: nat :: 0.0 <= draw(k) < 1.0
      requires volume > 0.0 ==> (TokensFor(config.minSellingAmountUSDC, convert, tokenPrice) > 0.0
                                 && TokensFor(config.maxSellingAmountUSDC, convert, tokenPrice) > 0.0)
      modifies this
      ensures SlowSells(old(wallets), SortBy(old(wallets), ByTokenBalance, false),
                        TokensFor(config.minSellingAmountUSDC, convert, tokenPrice),
                        TokensFor(config.maxSellingAmountUSDC, convert, tokenPrice),
                        volume * config.totalSellingLimitPercents / 100.0, draw, txOrders, visits, spent)
      ensures volume > 0.0 && AmountTotal(txOrders) < volume * config.totalSellingLimitPercents / 100.0 ==>
                forall j :: 0 <= j < |old(wallets)| ==>
                  old(wallets)[SortBy(old(wallets), ByTokenBalance, false)[j]].tokenBalance - CutFrom(txOrders, visits, j)
                  <= TokensFor(config.minSellingAmountUSDC, convert, tokenPrice)
      ensures forall k :: 0 <= k < |txOrders| ==> visits[k] < |old(wallets)|
      ensures forall k, j :: 0 <= k < |txOrders| && 0 <= j < visits[k] ==>
                old(wallets)[SortBy(old(wallets), ByTokenBalance, false)[j]].tokenBalance - CutFrom(txOrders, visits, j)
                <= TokensFor(config.minSellingAmountUSDC, convert, tokenPrice)
      ensures volume <= 0.0 ==> (txOrders == [] && tally == EmptyTally && unique == [] && wallets == old(wallets)
                                 && totalBalance == old(totalBalance) && totalTokenBalance == old(totalTokenBalance))
      ensures volume > 0.0 ==> (FeedsFor(old(wallets), txOrders, FeedList(feed, |txOrders|))
                                && SentFrom(old(wallets), old(totalBalance), old(totalTokenBalance), txOrders, true,
                                            FeedList(feed, |txOrders|), refreshed, tally, unique))
    {
      txOrders, visits, spent := StartSlowSellingOrders(volume, tokenPrice, convert, draw);
      tally, unique := EmptyTally, [];
      if volume > 0.0 {
        tally, unique := SendTxFromList(txOrders, true, FeedList(feed, |txOrders|), refreshed);
      }
    }
  }

  // ---------------------------------------------------------------------------------------
  // What the all-wallet lists come to at dispatch

  /** With more than half a thousandth left for fees, buyFromAll's orders pass the balance guard:
      an order is handed to its wallet exactly when the gas price is within the limit. */
  lemma BuyFromAllSubmitted(fleet: seq<Wallet>, orders: seq<TxOrder>, feeds: seq<Feed>, limit: real, leaveOnFee: real)
    requires |orders| == |fleet| == |feeds| && leaveOnFee > 0.0005
    requires forall i :: 0 <= i < |orders| ==> orders[i] == TxOrder(i, BuyAmount(fleet[i], leaveOnFee), BUY)
    ensures FeedsFor(fleet, orders, feeds)
    ensures forall k: nat :: k in Dispatch(fleet, orders, feeds, limit, |orders|).submitted <==>
              k < |orders| && feeds[k].gasPriceGwei <= limit
  {
    DispatchSubmitted(fleet, orders, feeds, limit, |orders|);
    forall k | 0 <= k < |orders|
      ensures FateAt(fleet, orders, feeds, limit, k) == Submitted <==> feeds[k].gasPriceGwei <= limit
    {
      BuyAmountBelowBalance(fleet[k], leaveOnFee);
      FleetAtKeeps(fleet, orders, feeds, limit, k);
    }
  }

  /** sellFromAll's orders sell a wallet's whole cached token balance, which the SELL guard
      rejects whenever that balance is positive: only wallets cached at zero or less, whose fetched
      balance exceeds the cached one, are handed an order. */
  lemma SellFromAllSubmitted(fleet: seq<Wallet>, orders: seq<TxOrder>, feeds: seq<Feed>, limit: real)
    requires |orders| == |fleet| == |feeds|
    requires forall i :: 0 <= i < |orders| ==> orders[i] == TxOrder(i, fleet[i].tokenBalance, SELL)
    ensures FeedsFor(fleet, orders, feeds)
    ensures forall k: nat :: k in Dispatch(fleet, orders, feeds, limit, |orders|).submitted <==>
              && k < |orders| && feeds[k].gasPriceGwei <= limit && fleet[k].tokenBalance <= 0.0
              && SellGuardBalance(fleet[k], feeds[k].fetchedTokenBalance) > fleet[k].tokenBalance
  {
    DispatchSubmitted(fleet, orders, feeds, limit, |orders|);
    forall k | 0 <= k < |orders|
      ensures FleetAt(fleet, orders, feeds, limit, k)[k] == fleet[k]
    {
      FleetAtKeeps(fleet, orders, feeds, limit, k);
    }
  }

  /** After sellFromAll's dispatch, every wallet is as its own order's token balance fetch left it:
      a wallet cached at zero or less whose SELL passed the gas check holds the finite balance it
      fetched, and every other wallet is unchanged. */
  lemma {:induction false} SellFromAllFleet(fleet: seq<Wallet>, orders: seq<TxOrder>, feeds: seq<Feed>, limit: real, n: nat)
    requires |orders| == |fleet| == |feeds| && n <= |orders|
    requires forall i :: 0 <= i < |orders| ==> orders[i] == TxOrder(i, fleet[i].tokenBalance, SELL)
    ensures FeedsFor(fleet, orders, feeds)
    ensures forall k :: 0 <= k < |fleet| ==>
              FleetAt(fleet, orders, feeds, limit, n)[k]
              == if k < n then FetchedInto(fleet[k], orders[k], feeds[k], limit) else fleet[k]
    decreases n
  {
    if n > 0 {
      SellFromAllFleet(fleet, orders, feeds, limit, n - 1);
    }
  }
}
