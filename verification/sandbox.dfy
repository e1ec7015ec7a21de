/** The constant-product pool simulator: two reserves and two per-address ledgers updated in
    place by buy and sell, with pure quote functions. Amounts are exact reals, so x * y = k holds
    exactly where the floating-point TypeScript code holds it approximately. */
module Sandbox {
  import opened Wrappers
  import opened Utils

  const SLIPPAGE_TOO_HIGH: string := "Slippage too high"

  /** The { tokenBalance, ethBalance } pair that getPoolState and getAddressHoldings return. */
  datatype Balances = Balances(tokenBalance: real, ethBalance: real)

  // ---------------------------------------------------------------------------------------
  // Ledgers

  /** holdings.get(key) || 0 */
  function Holding(holdings: map<string, real>, key: string): real
  {
    if key in holdings then holdings[key] else 0.0
  }

  /** The sum of all entries of a ledger. */
  ghost function Sum(m: map<string, real>): real
    decreases |m|
  {
    if m == map[] then 0.0
    else
      var k :| k in m;
      assert |m - {k}| < |m| by { assert (m - {k}).Keys == m.Keys - {k}; }
      m[k] + Sum(m - {k})
  }

  lemma {:induction false} SumRemove(m: map<string, real>, k: string)
    requires k in m
    ensures Sum(m) == m[k] + Sum(m - {k})
    decreases |m|
  {
    var j :| j in m && Sum(m) == m[j] + Sum(m - {j});
    if j != k {
      assert (m - {j}).Keys == m.Keys - {j};
      assert (m - {k}).Keys == m.Keys - {k};
      SumRemove(m - {j}, k);
      SumRemove(m - {k}, j);
      assert m - {j} - {k} == m - {k} - {j};
    }
  }

  /** Crediting one entry by amount raises the ledger's sum by exactly amount. */
  lemma SumCredit(m: map<string, real>, key: string, amount: real)
    ensures Sum(m[key := Holding(m, key) + amount]) == Sum(m) + amount
  {
    var m' := m[key := Holding(m, key) + amount];
    SumRemove(m', key);
    if key in m {
      SumRemove(m, key);
      assert m' - {key} == m - {key};
    } else {
      assert m' - {key} == m;
    }
  }

  /** updateHoldings: the entry of key becomes its old value (0 when absent) plus amount. */
  function Credit(holdings: map<string, real>, key: string, amount: real): (r: map<string, real>)
    ensures r.Keys == holdings.Keys + {key}
    ensures r[key] == Holding(holdings, key) + amount
    ensures forall k :: k in holdings && k != key ==> r[k] == holdings[k]
    ensures Sum(r) == Sum(holdings) + amount
  {
    SumCredit(holdings, key, amount);
    holdings[key := Holding(holdings, key) + amount]
  }

  // ---------------------------------------------------------------------------------------
  // Constant-product quote

  lemma QuotientBounds(reserveOut: real, reserveIn: real, amountIn: real, q: real)
    requires reserveOut > 0.0 && reserveIn > 0.0 && amountIn >= 0.0
    requires q * (reserveIn + amountIn) == reserveOut * reserveIn
    ensures 0.0 < q <= reserveOut
    ensures amountIn > 0.0 ==> q < reserveOut
  {
    MulPos(reserveOut, reserveIn);
    FactorSign(q, reserveIn + amountIn);
    assert (reserveOut - q) * (reserveIn + amountIn) == reserveOut * amountIn;
    MulNonneg(reserveOut, amountIn);
    if amountIn > 0.0 {
      MulPos(reserveOut, amountIn);
    }
    FactorSign(reserveOut - q, reserveIn + amountIn);
  }

  lemma QuoteFacts(reserveOut: real, reserveIn: real, amountIn: real)
    requires reserveIn + amountIn != 0.0
    ensures (reserveOut * reserveIn / (reserveIn + amountIn)) * (reserveIn + amountIn) == reserveOut * reserveIn
    ensures reserveOut > 0.0 && reserveIn > 0.0 && amountIn >= 0.0 ==>
              0.0 <= reserveOut - reserveOut * reserveIn / (reserveIn + amountIn) < reserveOut
    ensures reserveOut > 0.0 && reserveIn > 0.0 && amountIn > 0.0 ==>
              reserveOut - reserveOut * reserveIn / (reserveIn + amountIn) > 0.0
  {
    if reserveOut > 0.0 && reserveIn > 0.0 && amountIn >= 0.0 {
      QuotientBounds(reserveOut, reserveIn, amountIn, reserveOut * reserveIn / (reserveIn + amountIn));
    }
  }

  /** reserveOut - k / (reserveIn + amountIn) with k = reserveOut * reserveIn: the output that
      leaves the product of the two reserves unchanged once amountIn is added. */
  function ConstantProductOut(reserveOut: real, reserveIn: real, amountIn: real): (out: real)
    requires reserveIn + amountIn != 0.0
    ensures (reserveOut - out) * (reserveIn + amountIn) == reserveOut * reserveIn
    ensures reserveOut > 0.0 && reserveIn > 0.0 && amountIn >= 0.0 ==> 0.0 <= out < reserveOut
    ensures reserveOut > 0.0 && reserveIn > 0.0 && amountIn > 0.0 ==> out > 0.0
  {
    QuoteFacts(reserveOut, reserveIn, amountIn);
    reserveOut - reserveOut * reserveIn / (reserveIn + amountIn)
  }

  // ---------------------------------------------------------------------------------------
  // The simulator

  class UniswapAMMSimulator {
    const tokenSupply: real
    const pooledEthLiquidity: real
    const decimals: int
    var tokenBalance: real
    var ethBalance: real
    var tokenHoldings: map<string, real>
    var ethHoldings: map<string, real>
    var isRunning: bool
    /** The fees charged by the successful buys so far; the TypeScript code keeps no such field. */
    ghost var feesCharged: real

    /** Conservation: tokens move between pool and ledgers, ETH leaves the system only as buy fees. */
    ghost predicate Valid()
      reads this
    {
      && tokenBalance + Sum(tokenHoldings) == tokenSupply
      && ethBalance + Sum(ethHoldings) == pooledEthLiquidity - feesCharged
    }

    constructor(tokenSupply: real, pooledEthLiquidity: real, decimals: int)
      ensures Valid()
      ensures this.tokenSupply == tokenSupply && this.pooledEthLiquidity == pooledEthLiquidity
      ensures this.decimals == decimals
      ensures tokenBalance == tokenSupply && ethBalance == pooledEthLiquidity
      ensures tokenHoldings == map[] && ethHoldings == map[]
      ensures !isRunning && feesCharged == 0.0
    {
      this.tokenSupply := tokenSupply;
      this.pooledEthLiquidity := pooledEthLiquidity;
      this.decimals := decimals;
      tokenBalance := tokenSupply;
      ethBalance := pooledEthLiquidity;
      tokenHoldings := map[];
      ethHoldings := map[];
      isRunning := false;
      feesCharged := 0.0;
    }

    method SetIsRunning(isRunning: bool)
      modifies this`isRunning
      ensures this.isRunning == isRunning
    {
      this.isRunning := isRunning;
    }

    /** Tokens paid out for ethInput: the product of the reserves is the same after the trade,
        and for a pool with positive reserves the output lies in [0, tokenBalance). */
    function GetTokenOutputForEthInput(ethInput: real): (out: real)
      reads this
      requires ethBalance + ethInput != 0.0
      ensures (tokenBalance - out) * (ethBalance + ethInput) == tokenBalance * ethBalance
      ensures tokenBalance > 0.0 && ethBalance > 0.0 && ethInput >= 0.0 ==> 0.0 <= out < tokenBalance
      ensures tokenBalance > 0.0 && ethBalance > 0.0 && ethInput > 0.0 ==> out > 0.0
    {
      ConstantProductOut(tokenBalance, ethBalance, ethInput)
    }

    /** ETH paid out for tokenInput, the mirror image of GetTokenOutputForEthInput. */
    function GetEthOutputForTokenInput(tokenInput: real): (out: real)
      reads this
      requires tokenBalance + tokenInput != 0.0
      ensures (ethBalance - out) * (tokenBalance + tokenInput) == ethBalance * tokenBalance
      ensures tokenBalance > 0.0 && ethBalance > 0.0 && tokenInput >= 0.0 ==> 0.0 <= out < ethBalance
      ensures tokenBalance > 0.0 && ethBalance > 0.0 && tokenInput > 0.0 ==> out > 0.0
    {
      ConstantProductOut(ethBalance, tokenBalance, tokenInput)
    }

    /** Throws "Slippage too high" exactly when the quote is below minTokenOutput, leaving the state
        as it was; otherwise moves the quote from the pool to the buyer and ethInput + fee from the
        buyer, ethInput of it into the pool. */
    method Buy(buyerPublicKey: string, minTokenOutput: real, ethInput: real, fee: real)
      returns (r: Outcome<string>)
      requires Valid()
      requires ethBalance + ethInput != 0.0
      modifies this
      ensures Valid()
      ensures r.Fail? <==> old(GetTokenOutputForEthInput(ethInput)) < minTokenOutput
      ensures r.Fail? ==> r.error == SLIPPAGE_TOO_HIGH && unchanged(this)
      ensures r.Pass? ==>
        && tokenBalance == old(tokenBalance - GetTokenOutputForEthInput(ethInput))
        && ethBalance == old(ethBalance) + ethInput
        && tokenBalance * ethBalance == old(tokenBalance * ethBalance)
        && tokenHoldings == Credit(old(tokenHoldings), buyerPublicKey, old(GetTokenOutputForEthInput(ethInput)))
        && ethHoldings == Credit(old(ethHoldings), buyerPublicKey, -(ethInput + fee))
        && feesCharged == old(feesCharged) + fee
        && isRunning == old(isRunning)
      ensures r.Pass? && old(tokenBalance) > 0.0 && old(ethBalance) > 0.0 && ethInput > 0.0 ==>
        0.0 < tokenBalance < old(tokenBalance) && ethBalance > old(ethBalance)
    {
      var tokenOutput := GetTokenOutputForEthInput(ethInput);
      if tokenOutput < minTokenOutput {
        return Fail(SLIPPAGE_TOO_HIGH);
      }
      SettleBuy(buyerPublicKey, tokenOutput, ethInput, fee);
      r := Pass;
    }

    /** The state change of a buy that passed the slippage check. */
    method SettleBuy(buyerPublicKey: string, tokenOutput: real, ethInput: real, fee: real)
      requires Valid()
      modifies this
      ensures Valid()
      ensures tokenBalance == old(tokenBalance) - tokenOutput && ethBalance == old(ethBalance) + ethInput
      ensures tokenHoldings == Credit(old(tokenHoldings), buyerPublicKey, tokenOutput)
      ensures ethHoldings == Credit(old(ethHoldings), buyerPublicKey, -(ethInput + fee))
      ensures feesCharged == old(feesCharged) + fee && isRunning == old(isRunning)
    {
      var ethWithFee := ethInput + fee;
      tokenBalance := tokenBalance - tokenOutput;
      ethBalance := ethBalance + ethInput;
      tokenHoldings := Credit(tokenHoldings, buyerPublicKey, tokenOutput);
      ethHoldings := Credit(ethHoldings, buyerPublicKey, -ethWithFee);
      feesCharged := feesCharged + fee;
    }

    /** No slippage or holdings check: the seller's token entry may go negative. The pool pays out
        minEthOutput - fee, which the seller receives. */
    method Sell(sellerPublicKey: string, tokenInput: real, minEthOutput: real, fee: real)
      requires Valid()
      modifies this
      ensures Valid()
      ensures tokenBalance == old(tokenBalance) + tokenInput
      ensures ethBalance == old(ethBalance) - (minEthOutput - fee)
      ensures tokenHoldings == Credit(old(tokenHoldings), sellerPublicKey, -tokenInput)
      ensures ethHoldings == Credit(old(ethHoldings), sellerPublicKey, minEthOutput - fee)
      ensures feesCharged == old(feesCharged) && isRunning == old(isRunning)
    {
      var ethOutputWithFee := minEthOutput - fee;
      tokenBalance := tokenBalance + tokenInput;
      ethBalance := ethBalance - ethOutputWithFee;
      tokenHoldings := Credit(tokenHoldings, sellerPublicKey, -tokenInput);
      ethHoldings := Credit(ethHoldings, sellerPublicKey, ethOutputWithFee);
    }

    /** The current reserves. */
    function GetPoolState(): (state: Balances)
      reads this
      ensures state.tokenBalance == tokenBalance && state.ethBalance == ethBalance
    {
      Balances(tokenBalance, ethBalance)
    }

    /** The ledger entries of one address, zero for an address that never traded. */
    function GetAddressHoldings(publicKey: string): (h: Balances)
      reads this
      ensures publicKey !in tokenHoldings && publicKey !in ethHoldings ==> h == Balances(0.0, 0.0)
      ensures publicKey in tokenHoldings ==> h.tokenBalance == tokenHoldings[publicKey]
      ensures publicKey in ethHoldings ==> h.ethBalance == ethHoldings[publicKey]
    {
      Balances(Holding(tokenHoldings, publicKey), Holding(ethHoldings, publicKey))
    }
  }

  /** The simulator's unit-test scenario, with the slippage example of a near-total buy: the
      initial pool state, the pool after a buy at its own quote, the holdings of an address that
      never traded, and a buy of nearly the whole token reserve for a tiny ETH input. */
  method SimulatorScenario() returns (initial: Balances, afterBuy: Balances, untouched: Balances, nearTotalBuy: Outcome<string>)
    ensures initial == Balances(1000000.0, 100.0)
    ensures afterBuy.tokenBalance < 1000000.0 && afterBuy.ethBalance > 100.0
    ensures untouched == Balances(0.0, 0.0)
    ensures nearTotalBuy.Fail?
  {
    var sim := new UniswapAMMSimulator(1000000.0, 100.0, 18);
    initial := sim.GetPoolState();
    var quote := sim.GetTokenOutputForEthInput(0.1);
    var r := sim.Buy("buyer1", quote, 0.1, 0.1);
    afterBuy := sim.GetPoolState();
    untouched := sim.GetAddressHoldings("buyer2");
    nearTotalBuy := sim.Buy("buyer2", 999999.0, 0.0001, 0.0);
  }
}
