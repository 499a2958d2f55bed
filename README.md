# Vanilla router: reward formula and position ledger

This project models the accounting core of the Vanilla router as its test suite
`test/VanillaRouter.ts` pins it down. The router is a trading front-end over a Uniswap-style
AMM, and it rewards profitable trades with VNL tokens. The model has two parts.

* **The reward formula** `calculateReward(epoch, avgBlock, currentBlock, profit, wethReserve, reserveLimit)`
  (`reward.dfy`). It is the realised profit P scaled by two coefficients:
  - the value-protection coefficient, `1 - min((P + L) / W, 1)`, where L is the reserve
    limit and W is the token's WETH reserve;
  - the holding/trading ratio squared, `(Bhold / Btrade)^2`. Here
    `Bhold = currentBlock - avgBlock` and `Btrade = currentBlock - epoch`.

  The formula is evaluated as `P * (W - P - L) * Bhold^2 / W / Btrade^2`, with truncating
  division. Every multiplication comes before any division. Under truncation that order is
  observable, and dividing earlier would lose precision. The two divisions, by W and then
  by Btrade^2, equal one division by `W * Btrade^2` on naturals (`RewardAsOneQuotient`). On
  uint256 the single division could differ only by overflowing its divisor.
  The formula appears twice:
  - `CalculateReward`, on unbounded naturals;
  - `CheckedReward`, evaluated with SafeMath on uint256. Every subtraction and product is
    checked. The Solidity contract is not part of this model, so the order of the checks
    is this model's assumption: first the two block differences, then `P + L`, then the
    clamp, then the products. One consequence: when avgBlock > currentBlock, or when
    currentBlock < epoch, `CheckedReward` reverts with a subtraction overflow, while
    `CalculateReward` returns 0.
* **The position ledger** (`ledger.dfy`, `router.dfy`). For each (account, token) pair the
  router keeps a `Position`: the WETH spent, the tokens held, the token-weighted sum of the
  buy blocks, and the latest buy block.
  - A buy adds to the sums.
  - A sale of the whole position settles to the average acquisition block, the profit
    (clamped at zero), and the reward. Only tokens on the safelist earn a reward.
  - The class `VanillaRouter` holds the ledger and the per-token WETH reserves as `map`
    fields. Its `Buy` and `Sell` methods update them in place.
  - A reverted transaction is an `Err` carrying its revert reason, and it leaves the state
    unchanged.

`safemath.dfy` holds the revert reasons and SafeMath's checked arithmetic. `arith.dfy` holds
facts about multiplication and truncating division that the reward proofs use.

The AMM is outside the model. The swap outputs, and the WETH reserve of the token's pair at
buy time, are parameters of `Buy` and `Sell`. The block number is a parameter too. The
router's `lastBlock` field only moves forward.

## Model

| member | source | states |
|---|---|---|
| SafeMath.Sub | test/VanillaRouter.ts:229 | Checked subtraction succeeds exactly when it does not underflow. Otherwise it reverts with "SafeMath: subtraction overflow". |
| SafeMath.Add | test/VanillaRouter.ts:293-309 | Checked addition succeeds exactly when the sum fits uint256, and yields the sum. Otherwise it reverts with an addition overflow. |
| SafeMath.Mul | test/VanillaRouter.ts:296 | Checked multiplication succeeds exactly when the product fits uint256, and yields the product. Otherwise it reverts with a multiplication overflow. |
| SafeMath.Div | test/VanillaRouter.ts:336 | Checked division succeeds exactly when the divisor is non-zero. The result is the truncated quotient. |
| SafeMath.SubUndoesAdd | test/VanillaRouter.ts:293-309 | A checked subtraction undoes a checked addition that did not overflow. |
| Reward.CalculateReward | test/VanillaRouter.ts:331-338 | The reward formula on unbounded naturals, evaluated as the tests write it: all products first, then truncation by W, then by Btrade^2. It is 0 when `P + L > W`. Its properties are the lemmas below. |
| Reward.NothingWithoutProfitOrHolding | test/VanillaRouter.ts:395-401 | No profit, or no holding time (Bhold = 0, so the HTRS is 0), earns reward 0. |
| Reward.CheckedReward | test/VanillaRouter.ts:331-338 | When the blocks are ordered, the uint256 evaluation can revert only through an addition or multiplication overflow. It never underflows and never divides by zero. |
| Reward.CheckedRewardAgrees | test/VanillaRouter.ts:331-338 | Whenever the uint256 evaluation does not revert, it yields the reward of the formula. |
| Reward.CheckedRewardNeverOverflows | test/VanillaRouter.ts:357-367 | For blocks below 2^32, profit and limit below 2^90, and a reserve of at most 2^90 (the HTRS test's fixed reserve), the uint256 evaluation never reverts and equals the formula. |
| Reward.RewardIsFloor | test/VanillaRouter.ts:331-338 | Within the limit, the two nested truncations give exactly the floor of `P*(W-P-L)*Bhold^2 / (W*Btrade^2)`. |
| Reward.RewardAsOneQuotient | test/VanillaRouter.ts:338 | Within the limit, the reward is one division of `P*Bhold^2*(W-P-L)` by `W*Btrade^2`. |
| Reward.RewardAtMostProfit | test/VanillaRouter.ts:373-382 | The reward never exceeds the profit when `epoch <= avgBlock`. This is a weaker requirement than the test's `epoch < avgBlock`, and it does not need `profit < wethReserve`. |
| Reward.RewardZeroAboveLimit | test/VanillaRouter.ts:417-425 | If `P + L > W`, the reward is 0. |
| Reward.ValueProtectionIsolated | test/VanillaRouter.ts:410-435 | At epoch = avgBlock = 1 and currentBlock = 100, the reward is 0 above the limit. Otherwise it is exactly `P*(W-P-L)/W`: the division by 99^2 cancels. |
| Reward.HoldingRatioUpperBound | test/VanillaRouter.ts:385-407 | The reward never exceeds `P*Bhold^2/Btrade^2`, for any reserve and limit. |
| Reward.HoldingRatioLowerBound | test/VanillaRouter.ts:385-407 | When `P*(P+L) <= W`, `P*Bhold^2/Btrade^2` is at most the reward plus one. |
| Reward.HeldShareAtMostProfit | test/VanillaRouter.ts:395-405 | `P*Bhold^2/Btrade^2 <= P` whenever `Bhold <= Btrade`. |
| Reward.LongerHoldingEarnsMore | test/VanillaRouter.ts:395-401 | An earlier average acquisition block never earns a smaller reward. |
| Reward.SaleTestVector | test/VanillaRouter.ts:321-345 | The reward of the profitable-sale test is 827800564712710093. That sale has epoch 13, a buy at 15, a sale at 17, profit 4.161042504234076055 ETH, reserve 510 ETH and limit 100 ETH. |
| Reward.HoldingRatioTestClaimFails | test/VanillaRouter.ts:403-406 | The exact equality asserted by the HTRS property test fails at blocks (11911871, 11911970, 11911971). There the reward is 0 but `P*Bhold^2/Btrade^2` is 1. |
| Reward.HoldingRatioTestCorrected | test/VanillaRouter.ts:388-407 | For every block triple the test draws, the reward r and `q = P*Bhold^2/Btrade^2` satisfy `r <= q <= r + 1`. |
| Ledger.RecordBuy | test/VanillaRouter.ts:293-309 | A buy succeeds exactly when the three new sums fit uint256. Otherwise it reverts with an overflow. On success the sums grow by the WETH spent, the tokens, and tokens * block, and the latest block becomes the buy's block. |
| Ledger.FirstBuy | test/VanillaRouter.ts:288-298 | The first buy sets the position to (eth, tokens, tokens * block, block). |
| Ledger.SecondBuyAccumulates | test/VanillaRouter.ts:300-309 | Two buys give the sums of both buys, and the later block. |
| Ledger.BuyKeepsWellFormed | test/VanillaRouter.ts:293-309 | A buy at a block not before the epoch or the last buy keeps `epoch*tokenSum <= weightedBlockSum <= latestBlock*tokenSum`. |
| Ledger.ReplayAccumulates | test/VanillaRouter.ts:283-310 | After any sequence of buys that does not revert, the record holds the sums over all buys (WETH spent, tokens bought, tokens * block) added to the old ones, and the block of the last buy. |
| Ledger.ReplayKeepsWellFormed | test/VanillaRouter.ts:283-310 | Buys in block order, none before the epoch or the last recorded buy, keep every tracked token's buy block within [epoch, latestBlock]. |
| Ledger.AverageBlock | test/VanillaRouter.ts:336 | The average acquisition block is the truncated quotient of `weightedBlockSum` by `tokenSum`: `avg * tokenSum <= weightedBlockSum < avg * tokenSum + tokenSum`. |
| Ledger.AverageBlockBounds | test/VanillaRouter.ts:336 | The average block `weightedBlockSum / tokenSum` lies between the epoch and the latest buy. |
| Ledger.Profit | test/VanillaRouter.ts:116-122 | The profit plus the WETH spent is the larger of what was received and what was spent. So the profit is the gain of a sale (lines 267, 334), and 0 at a loss or at cost (line 122). |
| Ledger.SettleFullSale | test/VanillaRouter.ts:332-342 | A settlement succeeds exactly when the position is non-empty and, for a safelisted token, the checked reward does not overflow. Otherwise it reverts with the checked reward's error. The average block is `weightedBlockSum / tokenSum`. The profit is what was received above what was spent, or 0 at a loss. A safelisted token's reward is `CalculateReward` at the average block, the profit and the token's reserve; an unlisted token's reward is 0. |
| Ledger.SaleRewardAtMostProfit | test/VanillaRouter.ts:373-382 | A settled sale of a well-formed position never rewards more than its profit. |
| Ledger.LossEarnsNothing | test/VanillaRouter.ts:116-122 | A sale at a loss or at cost reports profit 0 and reward 0. |
| Ledger.SaleSettlesWithinBounds | test/VanillaRouter.ts:357-367 | For blocks below 2^32 and amounts below 2^90, settling a non-empty, well-formed position never reverts. |
| Router.VanillaRouter.constructor | test/VanillaRouter.ts:61 | Deployment records the epoch, the reserve limit and the safelist, and starts with an empty ledger and no reserves. |
| Router.Deploy | test/VanillaRouter.ts:239-242 | Deployment reverts with "b6" exactly when the safelist is empty. Otherwise the new router is valid, has the given epoch, limit and safelist, starts at `lastBlock` = the deployment block, and holds no positions and no reserves. |
| Router.VanillaRouter.PriceData | test/VanillaRouter.ts:293-309 | The `tokenPriceData` record of an (account, token) pair, read at lines 258, 293, 305 and 324. In a valid router every record is well formed (`epoch*tokenSum <= weightedBlockSum <= latestBlock*tokenSum`), fits uint256, and has no buy after the router's latest block. |
| Router.VanillaRouter.WethReserve | test/VanillaRouter.ts:265-271 | The `wethReserves` entry of a token, read at lines 266 and 333. In a valid router a token off the safelist has reserve 0. |
| Router.VanillaRouter.IsTokenRewarded | test/VanillaRouter.ts:348-353 | Reports safelist membership. A token that is not rewarded has WETH reserve 0. |
| Router.VanillaRouter.EstimateReward | test/VanillaRouter.ts:232-236 | Reverts with "b4" exactly when the account holds no tracked tokens. It succeeds exactly when the full sale would settle, and then equals that sale's reward; otherwise it reverts with the settlement's error. That is `CalculateReward` at the average block, the profit and the token's reserve for a safelisted token, and 0 otherwise. The estimate never exceeds the profit. |
| Router.VanillaRouter.Buy | test/VanillaRouter.ts:283-310 | On success: the buyer's position becomes `RecordBuy` of the old one; a safelisted token's reserve becomes the pair's reserve; the purchase event carries the reserve; no other position changes. An output below the minimum reverts with "a1"; any other revert is `RecordBuy`'s overflow. A revert changes nothing. |
| Router.VanillaRouter.Sell | test/VanillaRouter.ts:250-279 | A sale succeeds exactly when the output meets the minimum, the whole tracked position is sold, and its settlement succeeds. An output below the minimum reverts with "a1". Selling more than is tracked reverts with a subtraction overflow (line 229). Any other revert is the settlement's. A revert changes nothing. On success the seller's position becomes flat and no other position changes. The event carries the settled profit and reward, the reward being `CalculateReward` at the average block for a safelisted token (lines 312-346), and the recorded reserve. The reward is at most the profit. An unlisted token has reward 0 and reserve 0. |
| Router.TwoTradersScenario | test/VanillaRouter.ts:283-310 | Two buys by one trader (at blocks 15 and 16) give the summed record, as at lines 283-310. A later buy by a second trader leaves that record alone, and the first trader's sale of 10 more tokens than were bought reverts with a subtraction overflow, leaving the record unchanged, as at lines 215-230. |

## Left out

- AMM pricing: the constant-product swap amounts come from a helper that is not part of this model. `Buy` and `Sell` take the swap outputs as parameters.
- How the WETH reserve is obtained. The tests observe 500 and then 510, which are the pair's WETH reserve at buy time, not a running sum of deposits. `Buy` takes that reserve as a parameter and records it for safelisted tokens.
- WETH deposit and withdrawal, ETH balances net of gas, VNL minting, and the token transfers behind "TransferHelper: TRANSFER_FAILED" (test/VanillaRouter.ts:194). These are token plumbing outside the router's accounting.
- Gas-cost assertions, and the Hardhat and property-test harness.
- The "a2" check that every safelisted token has a Uniswap pair (test/VanillaRouter.ts:244-248). It needs the external factory.
- The contract's behaviour when W = 0 or currentBlock = epoch. The Solidity contract is not part of this model, and the model returns 0 at these inputs. The checked evaluation never divides by zero.
- The contract's behaviour when currentBlock < epoch or currentBlock < avgBlock. `CalculateReward` returns 0 there, while `CheckedReward` reverts with a subtraction overflow; which of the two the contract does is not known to this model. The router never reaches these inputs, because its blocks never go back.
- Router.VanillaRouter.Sell: only sales of the whole tracked position are modelled. Only the gas-cost test sells part of a position (1000 and 493 units, test/VanillaRouter.ts:81 and 92), and it checks nothing but gas. So the partial-sale reduction of `ethSum` and `weightedBlockSum` is not modelled.
- Router.VanillaRouter.Sell: a sale leaves the recorded WETH reserve unchanged. Whether the contract lowers it is not shown, and no test reads it after a sale.
- Router.VanillaRouter.Sell: a sale resets the record to all zeros, including `latestBlock`. The limit on trades per block that the record also serves (named at test/VanillaRouter.ts:283) is not modelled.
- Router.VanillaRouter.Sell: selling tokens that were never bought (test/VanillaRouter.ts:194) reverts here with a subtraction overflow. The contract reverts with "TransferHelper: TRANSFER_FAILED" there, from a token transfer this model does not include.
- Ledger.SettleFullSale: settling an empty position (selling 0 tokens with none tracked) reverts with SafeMath's division by zero. This is the model's choice: no test shows that case.
- Router.VanillaRouter.EstimateReward: the `tokensSold` argument of `estimateReward` is dropped, since only full sales are modelled.
- Reward.SaleTestVector: its value has the digits of the literal at test/VanillaRouter.ts:345. How that literal is scaled depends on the `tokenAmount` helper, which is not part of this model.
- Reward.HoldingRatioTestCorrected: it proves the test's claim only up to one truncation step, because the exact claim is false (see Findings).

## Findings

| source | as written | input that shows it | evidently intended | confidence | as-written member | corrected member |
|---|---|---|---|---|---|---|
| test/VanillaRouter.ts:403-406 | The reward equals `profit * Bhold^2 / Btrade^2` exactly | epoch 11911871, avgBlock 11911970, currentBlock 11911971 (Bhold 1, Btrade 100): `10000*(2^90-10001)/2^90` truncates to 9999, so the reward is 0 where the test expects 1 | The reward lies within one truncation step below `profit * Bhold^2 / Btrade^2` | not executed | Reward.HoldingRatioTestClaimFails | Reward.HoldingRatioTestCorrected |
