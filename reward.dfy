/** The reward formula of the router: realised profit scaled by the value-protection
    coefficient (VPC) and the holding/trading ratio squared (HTRS).

      Bhold  = currentBlock - avgBlock     blocks the tokens were held
      Btrade = currentBlock - epoch        blocks anyone could have traded since deployment
      VPC    = 1 - min((P + L) / W, 1)     P profit, L reserve limit, W WETH reserve
      HTRS   = (Bhold / Btrade)^2
      reward = P * VPC * HTRS, evaluated as  P * (W - P - L) * Bhold^2 / W / Btrade^2

    Every multiplication comes before any division: under truncation that is observable,
    and dividing first would lose precision. The two truncating divisions, by W and then
    by Btrade^2, equal one division by W * Btrade^2 on naturals (`RewardAsOneQuotient`);
    on uint256 the single division could differ only by overflowing its divisor. */
module Reward {
  import opened SafeMath
  import Arith

  /** The reward on unbounded naturals. Zero when the value-protection clamp applies
      (P + L > W), when there is no reserve or no trading window, and when the average
      acquisition block is after the current one. */
  function CalculateReward(epoch: nat, avgBlock: nat, currentBlock: nat,
                           profit: nat, wethReserve: nat, reserveLimit: nat): (r: nat)
  {
    if profit + reserveLimit > wethReserve || wethReserve == 0
       || currentBlock <= epoch || currentBlock < avgBlock then 0
    else
      var bhold: nat := currentBlock - avgBlock;
      var btrade: nat := currentBlock - epoch;
      var headroom: nat := wethReserve - profit - reserveLimit;
      var hold2: nat := (Arith.MulPos(bhold, bhold); bhold * bhold);
      var trade2: nat := (Arith.MulPos(btrade, btrade); btrade * btrade);
      var protectedProfit: nat := (Arith.MulPos(profit, headroom); profit * headroom);
      var numerator: nat := (Arith.MulPos(protectedProfit, hold2); protectedProfit * hold2);
      var scaled: nat := (Arith.DivBounds(numerator, wethReserve); numerator / wethReserve);
      Arith.DivBounds(scaled, trade2);
      scaled / trade2
  }

  /** The formula evaluated on uint256 with SafeMath: the two block differences are
      checked subtractions, every product is checked for overflow. The order of these
      checks (block differences, then P + L, then the clamp, then the products) is this
      model's assumption. */
  function CheckedReward(epoch: nat, avgBlock: nat, currentBlock: nat,
                         profit: nat, wethReserve: nat, reserveLimit: nat): (r: Result<nat>)
    ensures r.Err? && avgBlock <= currentBlock && epoch <= currentBlock ==>
              r.error in {AdditionOverflow, MultiplicationOverflow}
  {
    var bhold :- Sub(currentBlock, avgBlock);
    var btrade :- Sub(currentBlock, epoch);
    var exposure :- Add(profit, reserveLimit);
    if exposure > wethReserve || wethReserve == 0 || btrade == 0 then Ok(0)
    else
      // W - P - L cannot underflow here, and neither divisor is zero
      var headroom := wethReserve - profit - reserveLimit;
      var protectedProfit :- Mul(profit, headroom);
      var hold2 :- Mul(bhold, bhold);
      var trade2 :- Mul(btrade, btrade);
      var numerator :- Mul(protectedProfit, hold2);
      Ok(Quotient(Quotient(numerator, wethReserve), (Arith.MulPos(btrade, btrade); trade2)))
  }

  /** Truncating uint256 division by a divisor known to be non-zero. */
  function Quotient(n: nat, d: nat): (q: nat)
    requires d > 0
  {
    n / d
  }

  /** Whenever the checked evaluation does not revert, it yields the reward. */
  lemma {:induction false} CheckedRewardAgrees(epoch: nat, avgBlock: nat, currentBlock: nat,
                                               profit: nat, wethReserve: nat, reserveLimit: nat)
    ensures var r := CheckedReward(epoch, avgBlock, currentBlock, profit, wethReserve, reserveLimit);
            r.Ok? ==> r.value == CalculateReward(epoch, avgBlock, currentBlock, profit, wethReserve, reserveLimit)
  {
    var r := CheckedReward(epoch, avgBlock, currentBlock, profit, wethReserve, reserveLimit);
    if r.Ok? && !(profit + reserveLimit > wethReserve || wethReserve == 0 || currentBlock <= epoch) {
      var bhold, btrade := currentBlock - avgBlock, currentBlock - epoch;
      var headroom := wethReserve - profit - reserveLimit;
      var numerator := profit * headroom * (bhold * bhold);
      Arith.MulPos(btrade, btrade);
      assert r == Ok(numerator / wethReserve / (btrade * btrade));
    }
  }

  // ----- value protection -----

  /** The clamp: a profit that together with the reserve limit exceeds the reserve earns nothing. */
  lemma RewardZeroAboveLimit(epoch: nat, avgBlock: nat, currentBlock: nat,
                             profit: nat, wethReserve: nat, reserveLimit: nat)
    requires profit + reserveLimit > wethReserve
    ensures CalculateReward(epoch, avgBlock, currentBlock, profit, wethReserve, reserveLimit) == 0
  {
  }

  /** Within the limit the reward is the floor of the exact product
      P * (W - P - L) * Bhold^2 / (W * Btrade^2): the two nested truncations lose no
      more than one truncation of the whole quotient. */
  lemma {:induction false} RewardIsFloor(epoch: nat, avgBlock: nat, currentBlock: nat,
                                         profit: nat, wethReserve: nat, reserveLimit: nat)
    requires profit + reserveLimit <= wethReserve && 0 < wethReserve
    requires epoch < currentBlock && avgBlock <= currentBlock
    ensures var r := CalculateReward(epoch, avgBlock, currentBlock, profit, wethReserve, reserveLimit);
            var bhold, btrade := currentBlock - avgBlock, currentBlock - epoch;
            var n := profit * (wethReserve - profit - reserveLimit) * (bhold * bhold);
            var d := wethReserve * (btrade * btrade);
            r * d <= n < r * d + d
  {
    var bhold, btrade := currentBlock - avgBlock, currentBlock - epoch;
    var n := profit * (wethReserve - profit - reserveLimit) * (bhold * bhold);
    Arith.MulLt(0, 0, btrade, btrade);
    Arith.DivDiv(n, wethReserve, btrade * btrade);
  }

  /** The reward never exceeds the realised profit, whenever the average acquisition
      block is not before the epoch (each coefficient lies in [0, 1]). */
  lemma {:induction false} RewardAtMostProfit(epoch: nat, avgBlock: nat, currentBlock: nat,
                                              profit: nat, wethReserve: nat, reserveLimit: nat)
    requires epoch <= avgBlock
    ensures CalculateReward(epoch, avgBlock, currentBlock, profit, wethReserve, reserveLimit) <= profit
  {
    var r := CalculateReward(epoch, avgBlock, currentBlock, profit, wethReserve, reserveLimit);
    if !(profit + reserveLimit > wethReserve || wethReserve == 0
         || currentBlock <= epoch || currentBlock < avgBlock) {
      var bhold, btrade := currentBlock - avgBlock, currentBlock - epoch;
      var hold2, trade2 := bhold * bhold, btrade * btrade;
      var headroom := wethReserve - profit - reserveLimit;
      var n := profit * headroom * hold2;
      var d := wethReserve * trade2;
      Arith.MulLt(0, 0, btrade, btrade);
      Arith.MulLe(bhold, bhold, btrade, btrade);
      Arith.MulLe(profit, headroom, profit, wethReserve);
      Arith.MulLe(profit * headroom, hold2, profit * wethReserve, trade2);
      assert n <= profit * d;
      Arith.DivDiv(n, wethReserve, trade2);
      Arith.DivLe(n, profit * d, d);
      Arith.MulDivExact(profit, d);
    }
  }

  /** No profit, or no holding time (Bhold = 0, so the HTRS is 0), earns nothing. */
  lemma {:induction false} NothingWithoutProfitOrHolding(epoch: nat, avgBlock: nat, currentBlock: nat,
                                                         profit: nat, wethReserve: nat, reserveLimit: nat)
    requires profit == 0 || currentBlock == avgBlock
    ensures CalculateReward(epoch, avgBlock, currentBlock, profit, wethReserve, reserveLimit) == 0
  {
    if !(profit + reserveLimit > wethReserve || wethReserve == 0 || currentBlock <= epoch) {
      var bhold, btrade := currentBlock - avgBlock, currentBlock - epoch;
      var headroom := wethReserve - profit - reserveLimit;
      assert profit * headroom * (bhold * bhold) == 0;
      Arith.MulPos(btrade, btrade);
    }
  }

  /** Isolating the VPC: with epoch = avgBlock = 1 and currentBlock = 100 the holding
      ratio is 1 and the nested division by 99^2 cancels exactly. */
  lemma {:induction false} ValueProtectionIsolated(profit: nat, wethReserve: nat, reserveLimit: nat)
    ensures var r := CalculateReward(1, 1, 100, profit, wethReserve, reserveLimit);
            && (profit + reserveLimit > wethReserve ==> r == 0)
            && (wethReserve == 0 ==> r == 0)
            && (profit + reserveLimit <= wethReserve && wethReserve > 0 ==>
                  r == profit * (wethReserve - profit - reserveLimit) / wethReserve)
  {
    if profit + reserveLimit <= wethReserve && wethReserve > 0 {
      var x := profit * (wethReserve - profit - reserveLimit);
      assert CalculateReward(1, 1, 100, profit, wethReserve, reserveLimit) == x * 9801 / wethReserve / 9801;
      Arith.DivDiv(x * 9801, wethReserve, 9801);
      Arith.MulDivCancel(x, 9801, wethReserve);
    }
  }

  /** Isolating the HTRS from above: the reward never exceeds
      q = P * Bhold^2 / Btrade^2, the profit scaled by the holding ratio alone. */
  lemma {:induction false} HoldingRatioUpperBound(epoch: nat, avgBlock: nat, currentBlock: nat,
                                                  profit: nat, wethReserve: nat, reserveLimit: nat)
    requires epoch <= avgBlock <= currentBlock && epoch < currentBlock
    ensures CalculateReward(epoch, avgBlock, currentBlock, profit, wethReserve, reserveLimit)
            <= profit * ((currentBlock - avgBlock) * (currentBlock - avgBlock))
               / ((currentBlock - epoch) * (currentBlock - epoch))
  {
    var bhold, btrade := currentBlock - avgBlock, currentBlock - epoch;
    if profit + reserveLimit <= wethReserve && wethReserve > 0 {
      RewardAsOneQuotient(epoch, avgBlock, currentBlock, profit, wethReserve, reserveLimit);
      Arith.MulPos(btrade, btrade);
      Arith.ScaledQuotientAtMost(profit * (bhold * bhold), wethReserve - profit - reserveLimit,
                                 wethReserve, btrade * btrade);
    }
  }

  /** Isolating the HTRS from below: when the profit is small against the reserve
      (P * (P + L) <= W), the reward is at most one truncation step below q. */
  lemma {:induction false} HoldingRatioLowerBound(epoch: nat, avgBlock: nat, currentBlock: nat,
                                                  profit: nat, wethReserve: nat, reserveLimit: nat)
    requires epoch <= avgBlock <= currentBlock && epoch < currentBlock
    requires profit * (profit + reserveLimit) <= wethReserve
    ensures profit * ((currentBlock - avgBlock) * (currentBlock - avgBlock))
            / ((currentBlock - epoch) * (currentBlock - epoch))
            <= CalculateReward(epoch, avgBlock, currentBlock, profit, wethReserve, reserveLimit) + 1
  {
    var bhold, btrade := currentBlock - avgBlock, currentBlock - epoch;
    var x, t := profit * (bhold * bhold), btrade * btrade;
    Arith.MulPos(btrade, btrade);
    HeldShareAtMostProfit(profit, bhold, btrade);
    if profit > 0 {
      Arith.MulLe(1, profit + reserveLimit, profit, profit + reserveLimit);
      Arith.MulLe(x / t, profit + reserveLimit, profit, profit + reserveLimit);
      RewardAsOneQuotient(epoch, avgBlock, currentBlock, profit, wethReserve, reserveLimit);
      Arith.ScaledQuotientAtLeast(x, wethReserve - profit - reserveLimit, profit + reserveLimit,
                                  wethReserve, t);
    }
  }

  /** P * Bhold^2 / Btrade^2 <= P when Bhold <= Btrade. */
  lemma HeldShareAtMostProfit(profit: nat, bhold: nat, btrade: nat)
    requires bhold <= btrade && 0 < btrade
    ensures profit * (bhold * bhold) / (btrade * btrade) <= profit
  {
    Arith.MulPos(btrade, btrade);
    Arith.MulLe(bhold, bhold, btrade, btrade);
    Arith.MulLe(profit, bhold * bhold, profit, btrade * btrade);
    Arith.DivLe(profit * (bhold * bhold), profit * (btrade * btrade), btrade * btrade);
    Arith.MulDivExact(profit, btrade * btrade);
  }

  /** Within the limit the two nested divisions are one division by W * Btrade^2 of
      (P * Bhold^2) * (W - P - L). */
  lemma RewardAsOneQuotient(epoch: nat, avgBlock: nat, currentBlock: nat,
                            profit: nat, wethReserve: nat, reserveLimit: nat)
    requires profit + reserveLimit <= wethReserve && 0 < wethReserve
    requires epoch < currentBlock && avgBlock <= currentBlock
    ensures var bhold, btrade := currentBlock - avgBlock, currentBlock - epoch;
            CalculateReward(epoch, avgBlock, currentBlock, profit, wethReserve, reserveLimit)
            == (profit * (bhold * bhold)) * (wethReserve - profit - reserveLimit)
               / (wethReserve * (btrade * btrade))
  {
    var bhold, btrade := currentBlock - avgBlock, currentBlock - epoch;
    var headroom := wethReserve - profit - reserveLimit;
    Arith.MulPos(btrade, btrade);
    Arith.DivDiv(profit * headroom * (bhold * bhold), wethReserve, btrade * btrade);
    Arith.SwapLast(profit, headroom, bhold * bhold);
  }

  /** An earlier average acquisition block (a longer holding) never earns less. */
  lemma {:induction false} LongerHoldingEarnsMore(epoch: nat, earlier: nat, later: nat, currentBlock: nat,
                                                  profit: nat, wethReserve: nat, reserveLimit: nat)
    requires earlier <= later
    ensures CalculateReward(epoch, later, currentBlock, profit, wethReserve, reserveLimit)
            <= CalculateReward(epoch, earlier, currentBlock, profit, wethReserve, reserveLimit)
  {
    if !(profit + reserveLimit > wethReserve || wethReserve == 0
         || currentBlock <= epoch || currentBlock < later) {
      var shortHold, longHold := currentBlock - later, currentBlock - earlier;
      var btrade := currentBlock - epoch;
      var pv := profit * (wethReserve - profit - reserveLimit);
      Arith.MulLt(0, 0, btrade, btrade);
      Arith.MulLe(shortHold, shortHold, longHold, longHold);
      Arith.MulLe(pv, shortHold * shortHold, pv, longHold * longHold);
      Arith.DivLe(pv * (shortHold * shortHold), pv * (longHold * longHold), wethReserve);
      Arith.DivLe(pv * (shortHold * shortHold) / wethReserve, pv * (longHold * longHold) / wethReserve,
                  btrade * btrade);
    }
  }

  // ----- uint256 evaluation -----

  /** Within the input ranges the contract's property tests draw from (blocks below
      2^32, profit and reserve limit below 2^90, reserve up to the HTRS test's fixed
      2^90) no intermediate product
      overflows uint256, so the checked evaluation never reverts and yields the reward. */
  lemma {:induction false} CheckedRewardNeverOverflows(epoch: nat, avgBlock: nat, currentBlock: nat,
                                                       profit: nat, wethReserve: nat, reserveLimit: nat)
    requires avgBlock <= currentBlock && epoch <= currentBlock
    requires currentBlock < 0x1_0000_0000
    requires profit < 0x400_0000_0000_0000_0000_0000 && wethReserve <= 0x400_0000_0000_0000_0000_0000
    requires reserveLimit < 0x400_0000_0000_0000_0000_0000
    ensures CheckedReward(epoch, avgBlock, currentBlock, profit, wethReserve, reserveLimit)
            == Ok(CalculateReward(epoch, avgBlock, currentBlock, profit, wethReserve, reserveLimit))
  {
    var b32: nat, b90: nat := 0x1_0000_0000, 0x400_0000_0000_0000_0000_0000;
    var bhold, btrade := currentBlock - avgBlock, currentBlock - epoch;
    var exposure := profit + reserveLimit;
    assert IsUint256(exposure);
    if !(exposure > wethReserve || wethReserve == 0 || btrade == 0) {
      var headroom := wethReserve - exposure;
      Arith.MulLt(profit, headroom, b90, b90 + 1);
      Arith.MulLt(bhold, bhold, b32, b32);
      Arith.MulLt(btrade, btrade, b32, b32);
      Arith.MulLt(profit * headroom, bhold * bhold, b90 * (b90 + 1), b32 * b32);
      assert b90 * (b90 + 1) * (b32 * b32) < UINT256_LIMIT;
    }
  }

  // ----- evidence from the contract's tests -----

  /** The sale in the reward test: 10 ETH bought at block 15, sold at block 17 for
      14.161042504234076055 ETH against a reserve of 510 ETH and a limit of 100 ETH,
      epoch 13, gives 0.827800564712710093 VNL (in 18-decimal units). */
  lemma SaleTestVector()
    ensures CalculateReward(13, 15, 17, 4_161_042_504_234_076_055, 510_000_000_000_000_000_000,
                            100_000_000_000_000_000_000) == 827_800_564_712_710_093
  {
  }

  /** What the HTRS property test asserts: with profit 10000, reserve 2^90 and limit 1
      the reward equals exactly profit * Bhold^2 / Btrade^2. */
  predicate HoldingRatioTestClaim(epoch: nat, avgBlock: nat, currentBlock: nat)
    requires avgBlock <= currentBlock && epoch < currentBlock
  {
    CalculateReward(epoch, avgBlock, currentBlock, 10000, 0x400_0000_0000_0000_0000_0000, 1)
      == 10000 * ((currentBlock - avgBlock) * (currentBlock - avgBlock))
           / ((currentBlock - epoch) * (currentBlock - epoch))
  }

  /** The claim fails one block short of the current block: Bhold = 1, Btrade = 100,
      so profit * Bhold^2 / Btrade^2 is exactly 1, but the reward truncates
      10000 * (2^90 - 10001) / 2^90 to 9999 before dividing by 100^2, giving 0. */
  lemma HoldingRatioTestClaimFails()
    ensures !HoldingRatioTestClaim(11911871, 11911970, 11911971)
    ensures CalculateReward(11911871, 11911970, 11911971, 10000, 0x400_0000_0000_0000_0000_0000, 1) == 0
  {
    var w: nat := 0x400_0000_0000_0000_0000_0000;
    var x := 10000 * (w - 10001);
    assert 9999 * w <= x < 10000 * w;
    Arith.DivUnique(x, w, 9999);
    assert CalculateReward(11911871, 11911970, 11911971, 10000, w, 1) == x * 1 / w / 10000;
  }

  /** The corrected form of the HTRS test: the reward lies within one truncation step
      below profit * Bhold^2 / Btrade^2 for every block triple the test draws. */
  lemma HoldingRatioTestCorrected(epoch: nat, avgBlock: nat, currentBlock: nat)
    requires epoch < avgBlock <= currentBlock
    ensures var r := CalculateReward(epoch, avgBlock, currentBlock, 10000, 0x400_0000_0000_0000_0000_0000, 1);
            var q := 10000 * ((currentBlock - avgBlock) * (currentBlock - avgBlock))
                       / ((currentBlock - epoch) * (currentBlock - epoch));
            r <= q <= r + 1
  {
    HoldingRatioUpperBound(epoch, avgBlock, currentBlock, 10000, 0x400_0000_0000_0000_0000_0000, 1);
    HoldingRatioLowerBound(epoch, avgBlock, currentBlock, 10000, 0x400_0000_0000_0000_0000_0000, 1);
  }
}
