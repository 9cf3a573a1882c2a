/**
 The DEX fee of a trade and how it is split into an amount that is kept and an amount that is burnt.
 Amounts are exact rationals, as in the program.
 */
module DexFee {
  import opened Wrappers

  type Amount = real

  datatype BurnDestination = KmdOpReturn | PreBurnAccount

  datatype Fee =
    | NoFee
    | Standard(amount: Amount)
    | WithBurn(fee: Amount, burn: Amount, destination: BurnDestination)
  {
    function FeeAmount(): Amount {
      match this
      case NoFee => 0.0
      case Standard(amount) => amount
      case WithBurn(fee, _, _) => fee
    }

    function BurnAmount(): Option<Amount> {
      if WithBurn? then Some(burn) else None
    }

    function TotalSpendAmount(): Amount {
      match this
      case NoFee => 0.0
      case Standard(amount) => amount
      case WithBurn(fee, burn, _) => fee + burn
    }
  }

  /** What the fee depends on; the smallest amount of a transaction is not negative. */
  datatype TakerCoin = TakerCoin(
    ticker: string,
    minTx: Amount,
    isPrivacy: bool,
    burnPubkey: seq<bv8>,
    burnsDirectly: bool,
    burnsFee: bool)

  const DISCOUNT_TICKER := "GLEEC"
  const FEE_SHARE: Amount := 0.75

  function Rate(base: string, rel: string): Amount {
    if base == DISCOUNT_TICKER || rel == DISCOUNT_TICKER then 1.0 / 100.0 else 2.0 / 100.0
  }

  function ForOpReturn(dexFee: Amount, minTx: Amount): Fee {
    if dexFee <= minTx then Standard(minTx)
    else
      var newFee := dexFee * FEE_SHARE;
      if newFee >= minTx then WithBurn(newFee, dexFee - newFee, KmdOpReturn)
      else WithBurn(minTx, dexFee - minTx, KmdOpReturn)
  }

  function ForBurnAccount(dexFee: Amount, minTx: Amount): Fee {
    if dexFee <= minTx then Standard(minTx)
    else
      var newFee := dexFee * FEE_SHARE;
      var burn := dexFee - newFee;
      if newFee >= minTx && burn >= minTx then WithBurn(newFee, burn, PreBurnAccount)
      else
        var left := dexFee - minTx;
        if newFee < minTx && left >= minTx then WithBurn(minTx, left, PreBurnAccount) else Standard(dexFee)
  }

  function NewFromTakerCoin(coin: TakerCoin, makerTicker: string, trade: Amount): Fee {
    var dexFee := trade * Rate(coin.ticker, makerTicker);
    if coin.burnsDirectly then ForOpReturn(dexFee, coin.minTx)
    else if coin.burnsFee then ForBurnAccount(dexFee, coin.minTx)
    else if dexFee <= coin.minTx then Standard(coin.minTx)
    else Standard(dexFee)
  }

  function NewWithTakerPubkey(coin: TakerCoin, makerTicker: string, trade: Amount, pubkey: seq<bv8>): Fee {
    if !coin.isPrivacy && coin.burnPubkey == pubkey then NoFee else NewFromTakerCoin(coin, makerTicker, trade)
  }

  // ---------------------------------------------------------------------------------------
  // How the fee is split
  // ---------------------------------------------------------------------------------------

  function Max(a: Amount, b: Amount): Amount {
    if a >= b then a else b
  }

  function Min(a: Amount, b: Amount): Amount {
    if a <= b then a else b
  }

  /** A quarter of the fee is burnt, but no more than what leaves the smallest amount. */
  lemma OpReturnSplit(d: Amount, m: Amount)
    requires m >= 0.0
    ensures var r := ForOpReturn(d, m);
            && (r.WithBurn? <==> d > m)
            && r == if d > m then WithBurn(Max(d * 3.0 / 4.0, m), Min(d / 4.0, d - m), KmdOpReturn) else Standard(m)
  {
  }

  /** A quarter of the fee is no dust. */
  predicate Burns(d: Amount, m: Amount) {
    d > m && d / 4.0 >= m
  }

  /**
   A quarter of the fee is burnt exactly when that quarter is no less than the smallest amount. So
   the case that leaves the smallest amount and burns the rest never occurs.
   */
  lemma BurnAccountSplit(d: Amount, m: Amount)
    requires m >= 0.0
    ensures ForBurnAccount(d, m)
         == if Burns(d, m) then WithBurn(d * 3.0 / 4.0, d / 4.0, PreBurnAccount) else Standard(Max(d, m))
    ensures !(d > m && d * FEE_SHARE < m && d - m >= m)
  {
  }

  /** Two percent, or one percent if either coin is GLEEC. */
  lemma RateIs(base: string, rel: string)
    ensures 100.0 * Rate(base, rel) == if base == "GLEEC" || rel == "GLEEC" then 1.0 else 2.0
  {
  }

  /** The fee and the burnt amount are together the rate of the trade, or the smallest amount if that is more. */
  lemma FeeIsConserved(coin: TakerCoin, maker: string, trade: Amount)
    requires coin.minTx >= 0.0
    ensures NewFromTakerCoin(coin, maker, trade).TotalSpendAmount() == Max(trade * Rate(coin.ticker, maker), coin.minTx)
  {
    var d := trade * Rate(coin.ticker, maker);
    OpReturnSplit(d, coin.minTx);
    BurnAccountSplit(d, coin.minTx);
  }

  /** No amount is dust, and at most a quarter is burnt, and to the destination of the coin. */
  lemma FeeIsSound(coin: TakerCoin, maker: string, trade: Amount)
    requires coin.minTx >= 0.0
    ensures var r := NewFromTakerCoin(coin, maker, trade);
            && r.FeeAmount() >= coin.minTx
            && (r.BurnAmount().Some? ==>
                && 0.0 < r.burn <= trade * Rate(coin.ticker, maker) / 4.0
                && (coin.burnsDirectly || coin.burnsFee)
                && r.destination == (if coin.burnsDirectly then KmdOpReturn else PreBurnAccount)
                && (r.destination == PreBurnAccount ==> r.burn >= coin.minTx))
  {
    var d := trade * Rate(coin.ticker, maker);
    OpReturnSplit(d, coin.minTx);
    BurnAccountSplit(d, coin.minTx);
  }

  /** A larger trade costs no less in total and burns no less. */
  lemma FeeIsMonotone(coin: TakerCoin, maker: string, trade: Amount, more: Amount)
    requires coin.minTx >= 0.0 && trade <= more
    ensures var r, s := NewFromTakerCoin(coin, maker, trade), NewFromTakerCoin(coin, maker, more);
            && r.TotalSpendAmount() <= s.TotalSpendAmount()
            && (r.WithBurn? ==> s.WithBurn? && r.burn <= s.burn)
  {
    FeeIsConserved(coin, maker, trade);
    FeeIsConserved(coin, maker, more);
    var d, e := trade * Rate(coin.ticker, maker), more * Rate(coin.ticker, maker);
    assert d <= e;
    OpReturnSplit(d, coin.minTx);
    OpReturnSplit(e, coin.minTx);
    BurnAccountSplit(d, coin.minTx);
    BurnAccountSplit(e, coin.minTx);
  }

  /**
   The kept fee alone grows too if the coin burns directly. With the burn account it drops, by at most
   a quarter, exactly when the burning starts in between and takes more than the fee has grown by.
   */
  lemma KeptFeeDropsIff(d: Amount, e: Amount, m: Amount)
    requires m >= 0.0 && d <= e
    ensures ForOpReturn(d, m).FeeAmount() <= ForOpReturn(e, m).FeeAmount()
    ensures var kept, after := ForBurnAccount(d, m).FeeAmount(), ForBurnAccount(e, m).FeeAmount();
            && after >= kept * FEE_SHARE
            && (after < kept <==> !Burns(d, m) && Burns(e, m) && e - e / 4.0 < d)
  {
    OpReturnSplit(d, m);
    OpReturnSplit(e, m);
    BurnAccountSplit(d, m);
    BurnAccountSplit(e, m);
  }

  /** There is no fee exactly for the owner of the burn account, and not for privacy coins. */
  lemma NoFeeIff(coin: TakerCoin, maker: string, trade: Amount, pubkey: seq<bv8>)
    ensures NewWithTakerPubkey(coin, maker, trade, pubkey).NoFee? <==> !coin.isPrivacy && coin.burnPubkey == pubkey
  {
  }

  /** The discount halves the fee, and with it the total as long as that is above the smallest amount. */
  lemma DiscountHalvesTotal(coin: TakerCoin, maker: string, discounted: string, trade: Amount)
    requires coin.minTx >= 0.0 && trade >= 0.0
    requires coin.ticker != DISCOUNT_TICKER && maker != DISCOUNT_TICKER && discounted == DISCOUNT_TICKER
    ensures NewFromTakerCoin(coin, discounted, trade).TotalSpendAmount()
         == Max(NewFromTakerCoin(coin, maker, trade).TotalSpendAmount() / 2.0, coin.minTx)
  {
    FeeIsConserved(coin, maker, trade);
    FeeIsConserved(coin, discounted, trade);
  }
}
