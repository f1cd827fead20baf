/** Shared vocabulary of the wallet core: optional values, JavaScript numbers that may be NaN,
    transaction types and statuses. */
module Common {

  datatype Option<+T> = None | Some(value: T)

  /** An optional string is truthy in JavaScript when it is present and not empty. */
  predicate Truthy(s: Option<string>)
  {
    s.Some? && s.value != ""
  }

  /** A JavaScript / BigNumber numeric value: either a finite number or NaN
      (what `new BigNumber(undefined)` or `Number("abc")` produce). Every comparison
      with NaN is false and arithmetic with NaN yields NaN. */
  datatype Num = Finite(v: real) | NaN

  function Add(a: Num, b: Num): (r: Num)
    ensures r.Finite? <==> a.Finite? && b.Finite?
    ensures r.Finite? ==> r.v == a.v + b.v
  {
    if a.Finite? && b.Finite? then Finite(a.v + b.v) else NaN
  }

  function Sub(a: Num, b: Num): (r: Num)
    ensures r.Finite? <==> a.Finite? && b.Finite?
    ensures r.Finite? ==> r.v == a.v - b.v
  {
    if a.Finite? && b.Finite? then Finite(a.v - b.v) else NaN
  }

  function Mul(a: Num, b: Num): (r: Num)
    ensures r.Finite? <==> a.Finite? && b.Finite?
    ensures r.Finite? ==> r.v == a.v * b.v
  {
    if a.Finite? && b.Finite? then Finite(a.v * b.v) else NaN
  }

  /** `a.isGreaterThan(b)` / `a > b`: false as soon as either side is NaN. */
  predicate Gt(a: Num, b: Num) { a.Finite? && b.Finite? && a.v > b.v }

  /** `a <= b`: false as soon as either side is NaN. */
  predicate Le(a: Num, b: Num) { a.Finite? && b.Finite? && a.v <= b.v }

  /** `a >= b` / `isGreaterThanOrEqualTo`. */
  predicate Ge(a: Num, b: Num) { a.Finite? && b.Finite? && a.v >= b.v }

  /** Strict inequality `a !== b` between numbers: true whenever either side is NaN. */
  predicate Ne(a: Num, b: Num) { !(a.Finite? && b.Finite? && a.v == b.v) }

  /** TransactionType of the common transaction record. */
  datatype TxType = Transfer | ContractCall

  /** TransactionStatus of the wallet. */
  datatype TxStatus = Created | Signed | Pending | Success | Failed | Dropped

  /** The token standards a client may register (TokenType). */
  datatype TokenType = Native | Erc20 | Zrc2 | OtherTokenType(name: string)

  /** PosBasicActionType values used by the builders and the call-to-action handler. */
  datatype PosAction = Delegate | Stake | Unstake | ClaimReward | Withdraw | Redelegate
                     | ClaimRewardNoInput | OtherPosAction(name: string)
}
