/** The per-(account, token) position record the router keeps (`tokenPriceData`), how a
    buy accumulates into it, and how a sale of the whole position is settled into a
    profit and a reward. */
module Ledger {
  import opened SafeMath
  import Reward
  import Arith

  /** Running aggregates of one account's tracked buys of one token. */
  datatype Position = Position(
    ethSum: nat,            // WETH spent on the tracked tokens
    tokenSum: nat,          // tokens bought and not yet sold
    weightedBlockSum: nat,  // sum over buys of tokens * block number of the buy
    latestBlock: nat)       // block of the most recent buy

  /** The record of an account that holds nothing (never bought, or sold everything). */
  const Flat := Position(0, 0, 0, 0)

  /** The three accumulators fit uint256. */
  predicate InRange(p: Position) {
    IsUint256(p.ethSum) && IsUint256(p.tokenSum) && IsUint256(p.weightedBlockSum)
  }

  /** Every tracked token was bought at a block between `epoch` and `latestBlock`:
      epoch * tokenSum <= weightedBlockSum <= latestBlock * tokenSum. */
  predicate WellFormed(p: Position, epoch: nat) {
    epoch * p.tokenSum <= p.weightedBlockSum <= p.latestBlock * p.tokenSum
  }

  /** A buy of `tokensOut` tokens for `ethIn` WETH at `block`: all three sums grow with
      SafeMath, the latest block becomes `block`. */
  function RecordBuy(p: Position, ethIn: nat, tokensOut: nat, block: nat): (r: Result<Position>)
    ensures r.Ok? <==> && IsUint256(p.ethSum + ethIn) && IsUint256(p.tokenSum + tokensOut)
                       && IsUint256(tokensOut * block)
                       && IsUint256(p.weightedBlockSum + tokensOut * block)
    ensures r.Err? ==> r.error in {AdditionOverflow, MultiplicationOverflow}
    ensures r.Ok? ==> InRange(r.value)
    ensures r.Ok? ==> r.value == Position(p.ethSum + ethIn, p.tokenSum + tokensOut,
                                          p.weightedBlockSum + tokensOut * block, block)
  {
    var ethSum :- Add(p.ethSum, ethIn);
    var tokenSum :- Add(p.tokenSum, tokensOut);
    var blockWeight :- Mul(tokensOut, block);
    var weightedBlockSum :- Add(p.weightedBlockSum, blockWeight);
    Ok(Position(ethSum, tokenSum, weightedBlockSum, block))
  }

  /** The token-weighted average block of acquisition. */
  function AverageBlock(p: Position): (avg: nat)
    requires p.tokenSum > 0
    ensures avg * p.tokenSum <= p.weightedBlockSum < avg * p.tokenSum + p.tokenSum
  {
    p.weightedBlockSum / p.tokenSum
  }

  /** The first buy of an account sets the record to (eth, tokens, tokens * block, block). */
  lemma FirstBuy(ethIn: nat, tokensOut: nat, block: nat)
    requires IsUint256(ethIn) && IsUint256(tokensOut) && IsUint256(tokensOut * block)
    ensures RecordBuy(Flat, ethIn, tokensOut, block) == Ok(Position(ethIn, tokensOut, tokensOut * block, block))
  {
  }

  /** A second buy adds to both sums, adds its tokens * block to the weighted sum and
      moves the latest block forward; the two buys together are the sums of the two. */
  lemma {:induction false} SecondBuyAccumulates(eth1: nat, tokens1: nat, block1: nat,
                                                eth2: nat, tokens2: nat, block2: nat)
    requires RecordBuy(Flat, eth1, tokens1, block1).Ok?
    requires RecordBuy(RecordBuy(Flat, eth1, tokens1, block1).value, eth2, tokens2, block2).Ok?
    ensures RecordBuy(RecordBuy(Flat, eth1, tokens1, block1).value, eth2, tokens2, block2).value
            == Position(eth1 + eth2, tokens1 + tokens2, tokens1 * block1 + tokens2 * block2, block2)
  {
  }

  /** A buy at a block no earlier than the previous ones, and not before the epoch,
      keeps every tracked token's buy block within [epoch, latestBlock]. */
  lemma {:induction false} BuyKeepsWellFormed(p: Position, epoch: nat, ethIn: nat, tokensOut: nat, block: nat)
    requires WellFormed(p, epoch)
    requires p.latestBlock <= block && epoch <= block
    requires RecordBuy(p, ethIn, tokensOut, block).Ok?
    ensures WellFormed(RecordBuy(p, ethIn, tokensOut, block).value, epoch)
  {
    var q := RecordBuy(p, ethIn, tokensOut, block).value;
    Arith.MulLe(epoch, tokensOut, block, tokensOut);
    Arith.MulLe(p.latestBlock, p.tokenSum, block, p.tokenSum);
    assert epoch * q.tokenSum == epoch * p.tokenSum + epoch * tokensOut;
    assert block * q.tokenSum == block * p.tokenSum + block * tokensOut;
  }

  /** The average acquisition block lies between the epoch and the latest buy. */
  lemma {:induction false} AverageBlockBounds(p: Position, epoch: nat)
    requires WellFormed(p, epoch) && p.tokenSum > 0
    ensures epoch <= AverageBlock(p) <= p.latestBlock
  {
    Arith.FloorAtLeast(p.weightedBlockSum, p.tokenSum, epoch);
    Arith.DivLe(p.weightedBlockSum, p.latestBlock * p.tokenSum, p.tokenSum);
    Arith.MulDivExact(p.latestBlock, p.tokenSum);
  }

  /** One buy of an account: WETH in, tokens out, and the block it was mined in. */
  datatype Fill = Fill(ethIn: nat, tokensOut: nat, block: nat)

  /** The buys of an account, recorded one after the other; the first overflow reverts. */
  function Replay(p: Position, fills: seq<Fill>): (r: Result<Position>)
    decreases |fills|
  {
    if |fills| == 0 then Ok(p)
    else
      var next :- RecordBuy(p, fills[0].ethIn, fills[0].tokensOut, fills[0].block);
      Replay(next, fills[1..])
  }

  function EthSpent(fills: seq<Fill>): (total: nat) {
    if |fills| == 0 then 0 else fills[0].ethIn + EthSpent(fills[1..])
  }

  function TokensBought(fills: seq<Fill>): (total: nat) {
    if |fills| == 0 then 0 else fills[0].tokensOut + TokensBought(fills[1..])
  }

  function BlockWeight(fills: seq<Fill>): (total: nat) {
    if |fills| == 0 then 0 else fills[0].tokensOut * fills[0].block + BlockWeight(fills[1..])
  }

  /** Buys mined in non-decreasing block order, none before block `from`. */
  predicate InBlockOrder(fills: seq<Fill>, from: nat) {
    && (forall i | 0 <= i < |fills| :: from <= fills[i].block)
    && (forall i, j | 0 <= i < j < |fills| :: fills[i].block <= fills[j].block)
  }

  /** Any number of buys adds up: the record holds the WETH spent, the tokens bought and
      the token-weighted block sum over all of them, and the block of the last one. */
  lemma {:induction false} ReplayAccumulates(p: Position, fills: seq<Fill>)
    requires Replay(p, fills).Ok?
    ensures var q := Replay(p, fills).value;
            && q.ethSum == p.ethSum + EthSpent(fills)
            && q.tokenSum == p.tokenSum + TokensBought(fills)
            && q.weightedBlockSum == p.weightedBlockSum + BlockWeight(fills)
            && q.latestBlock == if |fills| == 0 then p.latestBlock else fills[|fills| - 1].block
    decreases |fills|
  {
    if |fills| > 0 {
      var next := RecordBuy(p, fills[0].ethIn, fills[0].tokensOut, fills[0].block).value;
      ReplayAccumulates(next, fills[1..]);
    }
  }

  /** Buys in block order, none before the epoch or the last recorded buy, keep every
      tracked token's buy block within [epoch, latestBlock]. */
  lemma {:induction false} ReplayKeepsWellFormed(p: Position, epoch: nat, fills: seq<Fill>)
    requires WellFormed(p, epoch)
    requires InBlockOrder(fills, p.latestBlock) && InBlockOrder(fills, epoch)
    requires Replay(p, fills).Ok?
    ensures WellFormed(Replay(p, fills).value, epoch)
    decreases |fills|
  {
    if |fills| > 0 {
      var f := fills[0];
      BuyKeepsWellFormed(p, epoch, f.ethIn, f.tokensOut, f.block);
      var next := RecordBuy(p, f.ethIn, f.tokensOut, f.block).value;
      assert InBlockOrder(fills[1..], next.latestBlock) && InBlockOrder(fills[1..], epoch) by {
        forall i | 0 <= i < |fills[1..]|
          ensures next.latestBlock <= fills[1..][i].block && epoch <= fills[1..][i].block
        {
          assert fills[1..][i] == fills[i + 1];
        }
      }
      ReplayKeepsWellFormed(next, epoch, fills[1..]);
    }
  }

  /** What a sale of the whole position settles to. */
  datatype Settlement = Settlement(avgBlock: nat, profit: nat, reward: nat)

  /** The realised profit of selling for `ethOut` WETH what cost `p.ethSum`: what was
      received above what was spent, and zero at a loss or at cost. */
  function Profit(p: Position, ethOut: nat): (r: nat)
    ensures r + p.ethSum == if ethOut > p.ethSum then ethOut else p.ethSum
  {
    if ethOut > p.ethSum then ethOut - p.ethSum else 0
  }

  /** Selling the whole tracked position for `ethOut` WETH at `currentBlock`: only a
      safelisted (`rewarded`) token earns a reward, the formula's reward at the average
      acquisition block, computed from the token's WETH reserve. The average block is a
      SafeMath division, which reverts on an empty position. */
  function SettleFullSale(p: Position, ethOut: nat, currentBlock: nat, rewarded: bool,
                          wethReserve: nat, epoch: nat, reserveLimit: nat): (r: Result<Settlement>)
    ensures r.Ok? <==> p.tokenSum > 0
                       && (rewarded ==> Reward.CheckedReward(epoch, p.weightedBlockSum / p.tokenSum, currentBlock,
                                                             Profit(p, ethOut), wethReserve, reserveLimit).Ok?)
    ensures p.tokenSum == 0 ==> r == Err(DivisionByZero)
    ensures p.tokenSum > 0 && r.Err? ==>
              r.error == Reward.CheckedReward(epoch, AverageBlock(p), currentBlock,
                                              Profit(p, ethOut), wethReserve, reserveLimit).error
    ensures r.Ok? ==> r.value.avgBlock == AverageBlock(p) && r.value.profit == Profit(p, ethOut)
    ensures r.Ok? ==> r.value.reward == if rewarded
                                        then Reward.CalculateReward(epoch, AverageBlock(p), currentBlock,
                                                                    Profit(p, ethOut), wethReserve, reserveLimit)
                                        else 0
  {
    var avgBlock :- Div(p.weightedBlockSum, p.tokenSum);
    var profit := Profit(p, ethOut);
    if !rewarded then Ok(Settlement(avgBlock, profit, 0))
    else
      var reward :- Reward.CheckedReward(epoch, avgBlock, currentBlock, profit, wethReserve, reserveLimit);
      Reward.CheckedRewardAgrees(epoch, avgBlock, currentBlock, profit, wethReserve, reserveLimit);
      Ok(Settlement(avgBlock, profit, reward))
  }

  /** A settled sale never rewards more than the profit it realised. */
  lemma {:induction false} SaleRewardAtMostProfit(p: Position, ethOut: nat, currentBlock: nat, rewarded: bool,
                                                  wethReserve: nat, epoch: nat, reserveLimit: nat)
    requires WellFormed(p, epoch)
    requires SettleFullSale(p, ethOut, currentBlock, rewarded, wethReserve, epoch, reserveLimit).Ok?
    ensures var s := SettleFullSale(p, ethOut, currentBlock, rewarded, wethReserve, epoch, reserveLimit).value;
            s.reward <= s.profit
  {
    var s := SettleFullSale(p, ethOut, currentBlock, rewarded, wethReserve, epoch, reserveLimit).value;
    if rewarded {
      AverageBlockBounds(p, epoch);
      Reward.CheckedRewardAgrees(epoch, s.avgBlock, currentBlock, s.profit, wethReserve, reserveLimit);
      Reward.RewardAtMostProfit(epoch, s.avgBlock, currentBlock, s.profit, wethReserve, reserveLimit);
    }
  }

  /** A sale at a loss (or at cost) reports zero profit and zero reward. */
  lemma {:induction false} LossEarnsNothing(p: Position, ethOut: nat, currentBlock: nat, rewarded: bool,
                                            wethReserve: nat, epoch: nat, reserveLimit: nat)
    requires ethOut <= p.ethSum
    requires SettleFullSale(p, ethOut, currentBlock, rewarded, wethReserve, epoch, reserveLimit).Ok?
    ensures var s := SettleFullSale(p, ethOut, currentBlock, rewarded, wethReserve, epoch, reserveLimit).value;
            s.profit == 0 && s.reward == 0
  {
    var s := SettleFullSale(p, ethOut, currentBlock, rewarded, wethReserve, epoch, reserveLimit).value;
    if rewarded {
      Reward.CheckedRewardAgrees(epoch, s.avgBlock, currentBlock, 0, wethReserve, reserveLimit);
    }
  }

  /** Within the ranges of the contract's property tests (blocks below 2^32, amounts
      below 2^90) the sale of a non-empty, well-formed position never reverts. */
  lemma {:induction false} SaleSettlesWithinBounds(p: Position, ethOut: nat, currentBlock: nat, rewarded: bool,
                                                   wethReserve: nat, epoch: nat, reserveLimit: nat)
    requires WellFormed(p, epoch) && p.tokenSum > 0 && p.latestBlock <= currentBlock < 0x1_0000_0000
    requires ethOut < 0x400_0000_0000_0000_0000_0000 && wethReserve < 0x400_0000_0000_0000_0000_0000
    requires reserveLimit < 0x400_0000_0000_0000_0000_0000
    ensures SettleFullSale(p, ethOut, currentBlock, rewarded, wethReserve, epoch, reserveLimit).Ok?
  {
    AverageBlockBounds(p, epoch);
    Reward.CheckedRewardNeverOverflows(epoch, AverageBlock(p), currentBlock, Profit(p, ethOut),
                                       wethReserve, reserveLimit);
  }
}
