/** fee_service.py: escrow fees, always rounded to 0.01 whatever the asset. */
module FeeService {
  import opened Rounding
  import opened Tables

  const MAX_BOT_EXTRA_FEE_PERCENT := 3.0

  datatype FeeBreakdown = FeeBreakdown(platformFee: real, botFee: real, totalFee: real, sellerPayout: real)

  function Money(value: real): real {
    RoundHalfUp(value, 0.01)
  }

  function ValidateBotExtraFeePercent(pct: real): Result<real> {
    if pct < 0.0 || pct > MAX_BOT_EXTRA_FEE_PERCENT then Err(BadFeePercent) else Ok(pct)
  }

  function Share(amount: real, pct: real): real {
    amount * pct / 100.0
  }

  function CalculatePlatformFee(amount: real, platformPct: real): real {
    Money(Share(amount, platformPct))
  }

  function CalculateBotExtraFee(amount: real, botPct: real): Result<real> {
    var pct :- ValidateBotExtraFeePercent(botPct);
    Ok(Money(Share(amount, pct)))
  }

  function CalculateTotalFees(amount: real, platformPct: real, botPct: real): Result<FeeBreakdown> {
    var platformFee := CalculatePlatformFee(amount, platformPct);
    var botFee :- CalculateBotExtraFee(amount, botPct);
    var totalFee := Money(platformFee + botFee);
    Ok(FeeBreakdown(platformFee, botFee, totalFee, Money(amount - totalFee)))
  }

  lemma PercentBound(amount: real, pct: real, cap: real)
    requires 0.0 <= amount && 0.0 <= pct <= cap
    ensures 0.0 <= Share(amount, pct) <= Share(amount, cap)
  {
    assert amount * pct <= amount * cap;
    assert 0.0 <= amount * pct;
  }

  /** Shares of at most 50% and 3%, each rounded to cents, never add up to more than the amount. */
  lemma SharesFit(amount: real, x: real, y: real)
    requires 0.0 <= x <= amount / 2.0 && 0.0 <= y <= 3.0 * amount / 100.0
    ensures 0.0 <= Money(x) && 0.0 <= Money(y) && Money(x) + Money(y) <= amount
  {
    RoundWithin(x, 0.01);
    RoundWithin(y, 0.01);
    GridSum(Money(x), Money(y), 0.01);
    if Money(x) < 0.01 {
      GridGap(Money(x), 0.0, 0.01);
    }
    if Money(y) < 0.01 {
      GridGap(Money(y), 0.0, 0.01);
    }
  }

  /** Whatever the percentages: the total is the sum of the rounded shares, and the payout is the rest, rounded. */
  lemma SharesConserve(amount: real, x: real, y: real)
    ensures Money(Money(x) + Money(y)) == Money(x) + Money(y)
    ensures var total := Money(x) + Money(y);
            && (total + Money(amount - total) == Money(amount) <==>
                  !Tie(amount, 0.01) || (amount >= 0.0 <==> amount - total >= 0.0))
            && (Money(amount - total) >= 0.0 <==> amount - total > -0.005)
  {
    hide RoundHalfUp, OnGrid, Tie;
    RoundWithin(x, 0.01);
    RoundWithin(y, 0.01);
    GridSum(Money(x), Money(y), 0.01);
    RoundOnGrid(Money(x) + Money(y), 0.01);
    RoundShiftIff(amount, Money(x) + Money(y), 0.01);
    RoundNonNegative(amount - (Money(x) + Money(y)), 0.01);
  }

  /**
   For every amount and every percentage: the three shares add up to the amount rounded to cents unless the fees
   carry a half cent across zero, and the seller's share is negative only if the fees exceed the amount by half a
   cent or more. Up to 50% neither can happen.
   */
  lemma FeesConserve(amount: real, platformPct: real, botPct: real)
    ensures CalculateTotalFees(amount, platformPct, botPct).Ok? <==> 0.0 <= botPct <= 3.0
    ensures 0.0 <= botPct <= 3.0 ==>
              var f := CalculateTotalFees(amount, platformPct, botPct).value;
              && f.totalFee == f.platformFee + f.botFee
              && (f.platformFee + f.botFee + f.sellerPayout == Money(amount) <==>
                    !Tie(amount, 0.01) || (amount >= 0.0 <==> amount - f.totalFee >= 0.0))
              && (f.sellerPayout >= 0.0 <==> amount - f.totalFee > -0.005)
              && (amount >= 0.0 && 0.0 <= platformPct <= 50.0 ==>
                    f.platformFee >= 0.0 && f.botFee >= 0.0 && f.totalFee <= amount && f.sellerPayout >= 0.0)
  {
    if 0.0 <= botPct <= 3.0 {
      var x, y := Share(amount, platformPct), Share(amount, botPct);
      SharesConserve(amount, x, y);
      if amount >= 0.0 && 0.0 <= platformPct <= 50.0 {
        PercentBound(amount, platformPct, 50.0);
        PercentBound(amount, botPct, 3.0);
        SharesFit(amount, x, y);
      }
    }
  }
}
