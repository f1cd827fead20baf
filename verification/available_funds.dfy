/** The funds checks of the send and staking screens (src/core/utils/available-funds.ts): is the
    amount typed more than the balance, is the fee more than what is left, and how much can be
    sent at most. Amounts are BigNumber values (`Num`, NaN included); the chain-specific unit
    conversions are inputs. */
module AvailableFunds {
  import opened Common
  import opened Transactions

  /** The chain's unit conversions and BigNumber's parsing: `parse` is `new BigNumber(s)`,
      `toStd` is `amountToStd` (display units to the chain's smallest unit) and `fromStd` is
      `amountFromStd`, each taking the token's decimals. */
  datatype AmountCodec = AmountCodec(parse: string -> Num, toStd: (Num, int) -> Num, fromStd: (Num, int) -> Num)

  /** The token configuration fields the checks read. */
  datatype TokenConfig = TokenConfig(tokenType: TokenType, decimals: int)

  /** The two flags `availableFunds` reports. */
  datatype FundsCheck = FundsCheck(insufficientFunds: bool, insufficientFundsFees: bool)

  /** `new BigNumber(amount || 0)`: an empty or absent amount reads as 0. */
  function AmountOrZero(amount: Option<string>, codec: AmountCodec): (r: Num)
    ensures !Truthy(amount) ==> r == Finite(0.0)
    ensures Truthy(amount) ==> r == codec.parse(amount.value)
  {
    if Truthy(amount) then codec.parse(amount.value) else Finite(0.0)
  }

  /** `getInputAmountToStd`: the typed amount in the chain's smallest unit. */
  function InputAmountToStd(amount: Option<string>, config: TokenConfig, codec: AmountCodec): (r: Num)
    ensures !Truthy(amount) ==> r == codec.toStd(Finite(0.0), config.decimals)
    ensures Truthy(amount) ==> r == codec.toStd(codec.parse(amount.value), config.decimals)
  {
    codec.toStd(AmountOrZero(amount, codec), config.decimals)
  }

  /** The balance the checks compare against: the converted `balanceAvailable` when one is
      given, otherwise the token balance (already in the smallest unit). */
  function AvailableValue(tokenBalance: string, config: TokenConfig, balanceAvailable: Option<string>,
                          codec: AmountCodec): (r: Num)
    ensures Truthy(balanceAvailable) ==> r == codec.toStd(codec.parse(balanceAvailable.value), config.decimals)
    ensures !Truthy(balanceAvailable) ==> r == codec.parse(tokenBalance)
  {
    if Truthy(balanceAvailable) then InputAmountToStd(balanceAvailable, config, codec)
    else codec.parse(tokenBalance)
  }

  /** `new BigNumber(feeOptions?.feeTotal)`: NaN when there are no fee options. */
  function FeeTotal(feeOptions: Option<FeeOptions>): (r: Num)
    ensures feeOptions.None? ==> r == NaN
  {
    if feeOptions.Some? then feeOptions.value.feeTotal else NaN
  }

  /** `availableFunds`. `nativeBalance` is the wallet's entry for the chain's native coin:
      None when there is none (reading its balance then throws, which is None here), Some(b)
      with `b` its `balance?.value`. */
  function CheckFunds(amount: Option<string>, tokenBalance: string, config: TokenConfig,
                      feeOptions: Option<FeeOptions>, balanceAvailable: Option<string>,
                      nativeBalance: Option<Option<string>>, codec: AmountCodec): (r: Option<FundsCheck>)
    ensures var input, available := InputAmountToStd(amount, config, codec),
                                    AvailableValue(tokenBalance, config, balanceAvailable, codec);
      && (r.None? <==> !Gt(input, available) && config.tokenType != Native && nativeBalance.None?)
      && (r.Some? ==> (r.value.insufficientFunds <==> Gt(input, available)))
      && (r.Some? && r.value.insufficientFunds ==> !r.value.insufficientFundsFees)
      && (r.Some? && config.tokenType == Native && !r.value.insufficientFunds ==>
            (r.value.insufficientFundsFees <==> Gt(Add(FeeTotal(feeOptions), input), available)))
      && (r.Some? && config.tokenType != Native && !r.value.insufficientFunds ==>
            (r.value.insufficientFundsFees <==>
               Gt(FeeTotal(feeOptions), if nativeBalance.value.Some? then codec.parse(nativeBalance.value.value) else NaN)))
  {
    var input := InputAmountToStd(amount, config, codec);
    var available := AvailableValue(tokenBalance, config, balanceAvailable, codec);
    if Gt(input, available) then Some(FundsCheck(true, false))
    else
      var fee := FeeTotal(feeOptions);
      if config.tokenType == Native then
        Some(FundsCheck(false, Gt(Add(fee, input), available)))
      else
        match nativeBalance
        case None => None
        case Some(b) =>
          var nativeCoinBalance := if b.Some? then codec.parse(b.value) else NaN;
          Some(FundsCheck(false, Gt(fee, nativeCoinBalance)))
  }

  /** Without fee options the fee check never objects: the fee is NaN and every comparison
      with NaN is false. */
  lemma MissingFeeNeverFlags(amount: Option<string>, tokenBalance: string, config: TokenConfig,
                             balanceAvailable: Option<string>, nativeBalance: Option<Option<string>>, codec: AmountCodec)
    ensures var r := CheckFunds(amount, tokenBalance, config, None, balanceAvailable, nativeBalance, codec);
      r.Some? ==> !r.value.insufficientFundsFees
  {
  }

  /** What can be spent, in the smallest unit: the available value less the fee when the fee is
      paid from the same balance, that is for the native coin when fee options are given. */
  function Spendable(tokenBalance: string, config: TokenConfig, feeOptions: Option<FeeOptions>,
                     balanceAvailable: Option<string>, codec: AmountCodec): (r: Num)
    ensures feeOptions.None? || config.tokenType != Native ==>
      r == AvailableValue(tokenBalance, config, balanceAvailable, codec)
    ensures feeOptions.Some? && config.tokenType == Native ==>
      r == Sub(AvailableValue(tokenBalance, config, balanceAvailable, codec), feeOptions.value.feeTotal)
  {
    var balance := AvailableValue(tokenBalance, config, balanceAvailable, codec);
    if feeOptions.Some? && config.tokenType == Native then Sub(balance, feeOptions.value.feeTotal) else balance
  }

  /** `availableAmount` before the final `toString`: what can be spent, converted back to
      display units; a negative remainder (or NaN) gives 0. */
  function AvailableAmount(tokenBalance: string, config: TokenConfig, feeOptions: Option<FeeOptions>,
                           balanceAvailable: Option<string>, codec: AmountCodec): (r: Num)
    ensures var b := Spendable(tokenBalance, config, feeOptions, balanceAvailable, codec);
      (b.Finite? && b.v >= 0.0 ==> r == codec.fromStd(b, config.decimals))
      && (b.NaN? || b.v < 0.0 ==> r == Finite(0.0))
  {
    var balance := Spendable(tokenBalance, config, feeOptions, balanceAvailable, codec);
    if Ge(balance, Finite(0.0)) then codec.fromStd(balance, config.decimals) else Finite(0.0)
  }

  /** The fee is deducted only from the native coin: for any other token the amount offered
      does not depend on the fee options, and without fee options nothing is deducted. */
  lemma FeeDeductedOnlyFromNative(tokenBalance: string, config: TokenConfig, feeOptions: Option<FeeOptions>,
                                  balanceAvailable: Option<string>, codec: AmountCodec)
    ensures config.tokenType != Native ==>
      AvailableAmount(tokenBalance, config, feeOptions, balanceAvailable, codec)
      == AvailableAmount(tokenBalance, config, None, balanceAvailable, codec)
    ensures var b := AvailableValue(tokenBalance, config, balanceAvailable, codec);
      AvailableAmount(tokenBalance, config, None, balanceAvailable, codec)
      == if Ge(b, Finite(0.0)) then codec.fromStd(b, config.decimals) else Finite(0.0)
    ensures config.tokenType == Native && feeOptions.Some? ==>
      Spendable(tokenBalance, config, feeOptions, balanceAvailable, codec)
      == Sub(AvailableValue(tokenBalance, config, balanceAvailable, codec), feeOptions.value.feeTotal)
  {
  }

  /** `amountFromStd` keeps non-negative amounts non-negative (it divides by a power of ten). */
  ghost predicate FromStdKeepsSign(codec: AmountCodec)
  {
    forall x: Num, d: int :: x.Finite? && x.v >= 0.0 ==>
      codec.fromStd(x, d).Finite? && codec.fromStd(x, d).v >= 0.0
  }

  /** The amount offered is never negative and never NaN. */
  lemma AvailableAmountNonNegative(tokenBalance: string, config: TokenConfig, feeOptions: Option<FeeOptions>,
                                   balanceAvailable: Option<string>, codec: AmountCodec)
    requires FromStdKeepsSign(codec)
    ensures var r := AvailableAmount(tokenBalance, config, feeOptions, balanceAvailable, codec);
      r.Finite? && r.v >= 0.0
  {
  }

  /** For a native token with a known fee, the two checks together object exactly when the
      amount exceeds what can be spent: the amount plus the fee exceeds the balance. */
  lemma NativeChecksMatchSpendable(amount: Option<string>, tokenBalance: string, config: TokenConfig,
                                   feeOptions: Option<FeeOptions>, balanceAvailable: Option<string>,
                                   nativeBalance: Option<Option<string>>, codec: AmountCodec)
    requires config.tokenType == Native && feeOptions.Some?
    requires feeOptions.value.feeTotal.Finite? && feeOptions.value.feeTotal.v >= 0.0
    requires InputAmountToStd(amount, config, codec).Finite?
    requires AvailableValue(tokenBalance, config, balanceAvailable, codec).Finite?
    ensures var r := CheckFunds(amount, tokenBalance, config, feeOptions, balanceAvailable, nativeBalance, codec);
      r.Some? && (r.value.insufficientFunds || r.value.insufficientFundsFees <==>
        Gt(InputAmountToStd(amount, config, codec), Spendable(tokenBalance, config, feeOptions, balanceAvailable, codec)))
  {
  }

  /** The fee of a token other than the native coin is checked against the native coin's
      balance alone: the token balance and the amount typed (once within the balance) do not
      matter. */
  lemma TokenFeeIgnoresTokenBalance(amount1: Option<string>, amount2: Option<string>, tokenBalance1: string,
                                    tokenBalance2: string, config: TokenConfig, feeOptions: Option<FeeOptions>,
                                    nativeBalance: Option<Option<string>>, codec: AmountCodec)
    requires config.tokenType != Native
    requires var r1 := CheckFunds(amount1, tokenBalance1, config, feeOptions, None, nativeBalance, codec);
      r1.Some? && !r1.value.insufficientFunds
    requires var r2 := CheckFunds(amount2, tokenBalance2, config, feeOptions, None, nativeBalance, codec);
      r2.Some? && !r2.value.insufficientFunds
    ensures CheckFunds(amount1, tokenBalance1, config, feeOptions, None, nativeBalance, codec)
         == CheckFunds(amount2, tokenBalance2, config, feeOptions, None, nativeBalance, codec)
  {
  }
}
