/** The router's state and its trading operations. Every buy and sale goes through an
    external AMM swap; the swap's output amount (and, for a buy, the WETH reserve of
    the token's pair) is passed in as a parameter. A reverted transaction leaves the
    state as it was. */
module Router {
  import opened SafeMath
  import opened Ledger
  import Reward

  type Address = nat

  /** The `TokensPurchased` event. */
  datatype Purchase = Purchase(buyer: Address, token: Address, ethIn: nat, tokensOut: nat, reserve: nat)

  /** The `TokensSold` event. */
  datatype Sale = Sale(seller: Address, token: Address, tokensIn: nat, ethOut: nat,
                       profit: nat, reward: nat, reserve: nat)

  class VanillaRouter {
    /** The deployment block, origin of every holding/trading ratio. */
    const epoch: nat
    /** The reserve limit L of the value-protection coefficient. */
    const reserveLimit: nat
    /** The tokens whose trades are rewarded. */
    const safelist: set<Address>

    /** Position of each (account, token). A missing key is the flat record. */
    var tokenPriceData: map<(Address, Address), Position>
    /** WETH reserve recorded per safelisted token. A missing key is 0. */
    var wethReserves: map<Address, nat>
    /** Block of the latest transaction that changed the state; blocks never go back. */
    var lastBlock: nat

    ghost predicate Valid()
      reads this
    {
      && epoch <= lastBlock
      && wethReserves.Keys <= safelist
      && forall key | key in tokenPriceData ::
           && WellFormed(tokenPriceData[key], epoch)
           && InRange(tokenPriceData[key])
           && tokenPriceData[key].latestBlock <= lastBlock
    }

    /** Deployment at block `deployBlock` with a non-empty safelist. */
    constructor (deployBlock: nat, reserveLimit: nat, safelist: seq<Address>)
      requires |safelist| > 0
      ensures Valid()
      ensures epoch == deployBlock && lastBlock == deployBlock
      ensures this.reserveLimit == reserveLimit && this.safelist == set t | t in safelist
      ensures tokenPriceData == map[] && wethReserves == map[]
    {
      epoch := deployBlock;
      this.reserveLimit := reserveLimit;
      this.safelist := set t | t in safelist;
      tokenPriceData := map[];
      wethReserves := map[];
      lastBlock := deployBlock;
    }

    function PriceData(owner: Address, token: Address): (p: Position)
      reads this
      ensures Valid() ==> WellFormed(p, epoch) && InRange(p) && p.latestBlock <= lastBlock
    {
      if (owner, token) in tokenPriceData then tokenPriceData[(owner, token)] else Flat
    }

    function WethReserve(token: Address): (reserve: nat)
      reads this
      ensures Valid() && token !in safelist ==> reserve == 0
    {
      if token in wethReserves then wethReserves[token] else 0
    }

    /** Whether `token` is on the safelist; a token that is not has no reserve. */
    function IsTokenRewarded(token: Address): (r: bool)
      requires Valid()
      reads this
      ensures !r ==> WethReserve(token) == 0
    {
      token in safelist
    }

    /** The reward that selling the whole tracked position for `releaseEth` WETH at
        `currentBlock` would earn: the reward a successful `Sell` of that position would
        pay. Reverts with "b4" if the account holds no tracked tokens of `token`, and
        with the settlement's overflow if that sale would revert. */
    function EstimateReward(owner: Address, token: Address, releaseEth: nat, currentBlock: nat): (r: Result<nat>)
      requires Valid() && lastBlock <= currentBlock
      reads this
      ensures (r == Err(NotOwned)) <==> PriceData(owner, token).tokenSum == 0
      ensures r.Ok? <==> SettleFullSale(PriceData(owner, token), releaseEth, currentBlock, token in safelist,
                                        WethReserve(token), epoch, reserveLimit).Ok?
      ensures r.Ok? ==> r.value == SettleFullSale(PriceData(owner, token), releaseEth, currentBlock, token in safelist,
                                                  WethReserve(token), epoch, reserveLimit).value.reward
      ensures r.Ok? ==> && PriceData(owner, token).tokenSum > 0
                        && r.value == if token in safelist
                                      then Reward.CalculateReward(epoch, AverageBlock(PriceData(owner, token)),
                                                                  currentBlock, Profit(PriceData(owner, token), releaseEth),
                                                                  WethReserve(token), reserveLimit)
                                      else 0
      ensures r.Ok? ==> r.value <= Profit(PriceData(owner, token), releaseEth)
      ensures PriceData(owner, token).tokenSum > 0 && r.Err? ==>
                r.error == SettleFullSale(PriceData(owner, token), releaseEth, currentBlock, token in safelist,
                                          WethReserve(token), epoch, reserveLimit).error
    {
      var p := PriceData(owner, token);
      if p.tokenSum == 0 then Err(NotOwned)
      else
        match SettleFullSale(p, releaseEth, currentBlock, token in safelist, WethReserve(token), epoch, reserveLimit)
        case Ok(s) =>
          assert WellFormed(p, epoch);
          SaleRewardAtMostProfit(p, releaseEth, currentBlock, token in safelist, WethReserve(token), epoch, reserveLimit);
          Ok(s.reward)
        case Err(e) => Err(e)
    }

    /** Buy `tokensOut` tokens for `ethIn` WETH at `block`; the swap must yield at least
        `minTokensOut` ("a1"). `pairReserve` is the WETH reserve of the token's pair that
        the contract records for a safelisted token. */
    method Buy(buyer: Address, token: Address, ethIn: nat, tokensOut: nat, minTokensOut: nat,
               block: nat, pairReserve: nat) returns (r: Result<Purchase>)
      requires Valid() && lastBlock <= block
      modifies this
      ensures Valid()
      ensures r.Ok? <==> minTokensOut <= tokensOut && RecordBuy(old(PriceData(buyer, token)), ethIn, tokensOut, block).Ok?
      ensures tokensOut < minTokensOut ==> r == Err(SlippageExceeded)
      ensures minTokensOut <= tokensOut && r.Err? ==>
                r.error == RecordBuy(old(PriceData(buyer, token)), ethIn, tokensOut, block).error
      ensures r.Err? ==> && tokenPriceData == old(tokenPriceData) && wethReserves == old(wethReserves)
                         && lastBlock == old(lastBlock)
      ensures r.Ok? ==> && tokenPriceData == old(tokenPriceData)[(buyer, token) :=
                             RecordBuy(old(PriceData(buyer, token)), ethIn, tokensOut, block).value]
                        && wethReserves == (if token in safelist then old(wethReserves)[token := pairReserve]
                                            else old(wethReserves))
                        && lastBlock == block
                        && r.value == Purchase(buyer, token, ethIn, tokensOut, WethReserve(token))
      ensures forall owner: Address, t: Address | (owner, t) != (buyer, token) :: PriceData(owner, t) == old(PriceData(owner, t))
    {
      if tokensOut < minTokensOut {
        return Err(SlippageExceeded);
      }
      var p := PriceData(buyer, token);
      var updated := RecordBuy(p, ethIn, tokensOut, block);
      if updated.Err? {
        return Err(updated.error);
      }
      BuyKeepsWellFormed(p, epoch, ethIn, tokensOut, block);
      tokenPriceData := tokenPriceData[(buyer, token) := updated.value];
      if token in safelist {
        wethReserves := wethReserves[token := pairReserve];
      }
      lastBlock := block;
      r := Ok(Purchase(buyer, token, ethIn, tokensOut, WethReserve(token)));
    }

    /** Sell `amount` tokens for `ethOut` WETH at `block`; the swap must yield at least
        `minEthOut` ("a1"). Only sales of the whole tracked position are modelled; selling
        more than is tracked reverts with SafeMath's subtraction overflow. */
    method Sell(seller: Address, token: Address, amount: nat, ethOut: nat, minEthOut: nat,
                block: nat) returns (r: Result<Sale>)
      requires Valid() && lastBlock <= block
      requires PriceData(seller, token).tokenSum <= amount
      modifies this
      ensures Valid()
      ensures r.Ok? <==> && minEthOut <= ethOut && amount == old(PriceData(seller, token)).tokenSum
                         && SettleFullSale(old(PriceData(seller, token)), ethOut, block, token in safelist,
                                           old(WethReserve(token)), epoch, reserveLimit).Ok?
      ensures ethOut < minEthOut ==> r == Err(SlippageExceeded)
      ensures minEthOut <= ethOut && old(PriceData(seller, token)).tokenSum < amount ==> r == Err(SubtractionOverflow)
      ensures minEthOut <= ethOut && old(PriceData(seller, token)).tokenSum == amount && r.Err? ==>
                r.error == SettleFullSale(old(PriceData(seller, token)), ethOut, block, token in safelist,
                                          old(WethReserve(token)), epoch, reserveLimit).error
      ensures r.Err? ==> && tokenPriceData == old(tokenPriceData) && wethReserves == old(wethReserves)
                         && lastBlock == old(lastBlock)
      ensures r.Ok? ==> && amount == old(PriceData(seller, token)).tokenSum
                        && tokenPriceData == old(tokenPriceData)[(seller, token) := Flat]
                        && wethReserves == old(wethReserves)
                        && lastBlock == block
      ensures r.Ok? ==>
                var s := SettleFullSale(old(PriceData(seller, token)), ethOut, block, token in safelist,
                                        old(WethReserve(token)), epoch, reserveLimit);
                && s.Ok?
                && r.value == Sale(seller, token, amount, ethOut, s.value.profit, s.value.reward,
                                   old(WethReserve(token)))
      ensures r.Ok? ==> r.value.reward <= r.value.profit
      ensures r.Ok? && token !in safelist ==> r.value.reward == 0 && r.value.reserve == 0
      ensures forall owner: Address, t: Address | (owner, t) != (seller, token) :: PriceData(owner, t) == old(PriceData(owner, t))
    {
      if ethOut < minEthOut {
        return Err(SlippageExceeded);
      }
      var p := PriceData(seller, token);
      if p.tokenSum < amount {
        return Err(SubtractionOverflow);
      }
      var reserve := WethReserve(token);
      var settled := SettleFullSale(p, ethOut, block, token in safelist, reserve, epoch, reserveLimit);
      if settled.Err? {
        return Err(settled.error);
      }
      SaleRewardAtMostProfit(p, ethOut, block, token in safelist, reserve, epoch, reserveLimit);
      tokenPriceData := tokenPriceData[(seller, token) := Flat];
      lastBlock := block;
      r := Ok(Sale(seller, token, amount, ethOut, settled.value.profit, settled.value.reward, reserve));
    }
  }

  /** Deployment: an empty safelist reverts with "b6". */
  method Deploy(deployBlock: nat, reserveLimit: nat, safelist: seq<Address>) returns (r: Result<VanillaRouter>)
    ensures r.Err? <==> |safelist| == 0
    ensures r.Err? ==> r.error == EmptySafelist
    ensures r.Ok? ==> && fresh(r.value) && r.value.Valid()
                      && r.value.epoch == deployBlock && r.value.lastBlock == deployBlock
                      && r.value.reserveLimit == reserveLimit
                      && r.value.safelist == (set t | t in safelist)
                      && r.value.tokenPriceData == map[] && r.value.wethReserves == map[]
  {
    if |safelist| == 0 {
      return Err(EmptySafelist);
    }
    var router := new VanillaRouter(deployBlock, reserveLimit, safelist);
    r := Ok(router);
  }

  /** The ledger scenario of the contract's tests: two buys by one trader accumulate into
      `held`; a buy by a second trader leaves that record alone; the first trader's sale
      of more than was bought reverts with SafeMath's subtraction overflow and leaves the
      record as it was (`after`). */
  method TwoTradersScenario(tokenA: Address, trader: Address, trader2: Address,
                            tokens1: nat, tokens2: nat, tokens3: nat)
    returns (held: Position, sale: Result<Sale>, after: Position)
    requires trader != trader2
    requires 0 < tokens1 < 0x1_0000_0000_0000_0000_0000 && 0 < tokens2 < 0x1_0000_0000_0000_0000_0000
    requires 0 < tokens3 < 0x1_0000_0000_0000_0000_0000
    ensures held == Position(15_000_000_000_000_000_000, tokens1 + tokens2, tokens1 * 15 + tokens2 * 16, 16)
    ensures sale == Err(SubtractionOverflow)
    ensures after == held
  {
    var router := new VanillaRouter(13, 100_000_000_000_000_000_000, [tokenA]);
    var buy1 := router.Buy(trader, tokenA, 5_000_000_000_000_000_000, tokens1, 1, 15, 500);
    assert buy1.Ok? && router.PriceData(trader, tokenA) == Position(5_000_000_000_000_000_000, tokens1, tokens1 * 15, 15);
    var buy2 := router.Buy(trader, tokenA, 10_000_000_000_000_000_000, tokens2, 1, 16, 505);
    assert buy2.Ok?;
    held := router.PriceData(trader, tokenA);
    var buy3 := router.Buy(trader2, tokenA, 10_000_000_000_000_000_000, tokens3, 1, 17, 515);
    sale := router.Sell(trader, tokenA, tokens1 + tokens2 + 10, 1, 1, 18);
    after := router.PriceData(trader, tokenA);
  }
}
