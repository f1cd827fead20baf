/** The Zilliqa chain client (src/core/blockchain/zilliqa/client.ts): each operation maps one
    JSON-RPC answer, or the error it raised, to a value or a rejection. The RPC transport is an
    input: `Transport` says what the node answered or what was thrown. */
module ZilliqaClient {
  import opened Common
  import opened Strings
  import opened Transactions

  /** The `error` member of a JSON-RPC answer. */
  datatype RpcError = RpcError(message: Option<string>)

  /** A JSON-RPC answer: a result when the node succeeded, an error object when it did not. */
  datatype RpcResponse<R> = RpcResponse(result: Option<R>, error: Option<RpcError>)

  /** What `http.jsonRpc` did: it answered, or it threw (a network failure, say) a value whose
      `error` member is `error`. */
  datatype Transport<R> = Answered(response: RpcResponse<R>) | Threw(error: Option<RpcError>)

  /** A value a promise rejects with: an RPC answer that carries an error, some other thrown
      value, or the TypeError of reading a member of `undefined`. */
  datatype Thrown<R> = ResponseThrown(response: RpcResponse<R>) | OtherThrown(error: Option<RpcError>) | TypeError

  /** How a promise settles. */
  datatype Outcome<T, E> = Resolved(value: T) | Rejected(reason: E)

  /** `result?.error?.message` of a rejection. */
  function ErrorMessage<R>(t: Thrown<R>): Option<string>
  {
    match t
    case ResponseThrown(resp) => if resp.error.Some? then resp.error.value.message else None
    case OtherThrown(e) => if e.Some? then e.value.message else None
    case TypeError => None
  }

  /** `call`: an answer that carries an error object rejects with that answer, a thrown value
      rejects as it is, and any other answer is returned unchanged. */
  function Call<R>(t: Transport<R>): (r: Outcome<RpcResponse<R>, Thrown<R>>)
    ensures r.Rejected? <==> t.Threw? || t.response.error.Some?
    ensures r.Resolved? ==> r.value == t.response
    ensures t.Answered? && t.response.error.Some? ==> r == Rejected(ResponseThrown(t.response))
    ensures t.Threw? ==> r == Rejected(OtherThrown(t.error))
  {
    match t
    case Answered(resp) => if resp.error.Some? then Rejected(ResponseThrown(resp)) else Resolved(resp)
    case Threw(e) => Rejected(OtherThrown(e))
  }

  /** The result of `GetBalance`: the balance (as `new BigNumber` reads it) and the nonce of the
      last transaction the node has seen. */
  datatype AccountInfo = AccountInfo(balance: Num, nonce: int)

  const ACCOUNT_NOT_CREATED := "Account is not created"

  /** `getBalance`. An account the node has never seen has balance 0; every other error is
      passed on. */
  function GetBalance(t: Transport<AccountInfo>): (r: Outcome<Num, Thrown<AccountInfo>>)
    ensures Call(t).Resolved? && Call(t).value.result.Some? ==> r == Resolved(Call(t).value.result.value.balance)
    ensures Call(t).Resolved? && Call(t).value.result.None? ==> r == Rejected(TypeError)
    ensures Call(t).Rejected? ==>
      r == if ErrorMessage(Call(t).reason) == Some(ACCOUNT_NOT_CREATED) then Resolved(Finite(0.0)) else Rejected(Call(t).reason)
  {
    match Call(t)
    case Resolved(resp) =>
      if resp.result.Some? then Resolved(resp.result.value.balance)
      else Rejected(TypeError)
    case Rejected(x) =>
      if ErrorMessage(x) == Some(ACCOUNT_NOT_CREATED) then Resolved(Finite(0.0)) else Rejected(x)
  }

  /** `getNonce`: the next nonce to use is one more than the node's; 0 for an account the node
      has never seen; every other error is passed on. */
  function GetNonce(t: Transport<AccountInfo>): (r: Outcome<int, Thrown<AccountInfo>>)
    ensures Call(t).Resolved? && Call(t).value.result.Some? ==> r == Resolved(Call(t).value.result.value.nonce + 1)
    ensures Call(t).Resolved? && Call(t).value.result.None? ==> r == Rejected(TypeError)
    ensures Call(t).Rejected? ==>
      r == if ErrorMessage(Call(t).reason) == Some(ACCOUNT_NOT_CREATED) then Resolved(0) else Rejected(Call(t).reason)
  {
    match Call(t)
    case Resolved(resp) =>
      if resp.result.Some? then Resolved(resp.result.value.nonce + 1)
      else Rejected(TypeError)
    case Rejected(x) =>
      if ErrorMessage(x) == Some(ACCOUNT_NOT_CREATED) then Resolved(0) else Rejected(x)
  }

  /** The two functions agree on which accounts exist: whenever one of them resolves, so does
      the other, and a fresh account has balance 0 and next nonce 0. */
  lemma BalanceAndNonceAgree(t: Transport<AccountInfo>)
    ensures GetBalance(t).Resolved? <==> GetNonce(t).Resolved?
    ensures Call(t).Rejected? && GetBalance(t).Resolved? ==>
      GetBalance(t).value == Finite(0.0) && GetNonce(t).value == 0
    ensures Call(t).Resolved? && GetNonce(t).Resolved? && Call(t).value.result.value.nonce >= 0 ==>
      GetNonce(t).value >= 1
  {
  }

  const TR_UNDERPRICED_TEXT := "transaction underpriced"
  const CONTRACT_TX_NORMAL_TEXT := "Contract account won't accept normal txn"

  /** The rejections of `sendTransaction`: the two translated node messages, or whatever the
      transport or a missing member threw. */
  datatype SendRejection = TrUnderpriced | ContractTxNormalNotAllowed | SendFailed(thrown: Thrown<string>)

  /** `sendTransaction`. `t` is the `CreateTransaction` answer, whose result is the
      transaction id. Resolves with the hash, or with `undefined` (None) for an error the
      wallet does not recognise. */
  function SendTransaction(t: Transport<string>): (r: Outcome<Option<string>, SendRejection>)
    ensures t.Answered? && t.response.result.Some? ==> r == Resolved(Some(t.response.result.value))
    ensures r.Resolved? && r.value.Some? ==> t.Answered? && t.response.result == r.value
    ensures r == Rejected(TrUnderpriced) <==>
      t.Answered? && t.response.result.None? && t.response.error.Some?
      && t.response.error.value.message.Some? && Contains(t.response.error.value.message.value, TR_UNDERPRICED_TEXT)
    ensures r == Rejected(ContractTxNormalNotAllowed) <==>
      t.Answered? && t.response.result.None? && t.response.error.Some? && t.response.error.value.message.Some?
      && !Contains(t.response.error.value.message.value, TR_UNDERPRICED_TEXT)
      && Contains(t.response.error.value.message.value, CONTRACT_TX_NORMAL_TEXT)
    ensures t.Answered? && t.response.result.None? && t.response.error.Some?
      && t.response.error.value.message.Some?
      && !Contains(t.response.error.value.message.value, TR_UNDERPRICED_TEXT)
      && !Contains(t.response.error.value.message.value, CONTRACT_TX_NORMAL_TEXT)
      ==> r == Resolved(None)
    ensures t.Threw? ==> r == Rejected(SendFailed(OtherThrown(t.error)))
    ensures t.Answered? && t.response.result.None? && (t.response.error.None? || t.response.error.value.message.None?)
      ==> r == Rejected(SendFailed(TypeError))
  {
    match t
    case Threw(e) => Rejected(SendFailed(OtherThrown(e)))
    case Answered(res) =>
      if res.result.Some? then Resolved(Some(res.result.value))
      else if res.error.None? || res.error.value.message.None? then Rejected(SendFailed(TypeError))
      else
        var errorMessage := res.error.value.message.value;
        if Contains(errorMessage, TR_UNDERPRICED_TEXT) then Rejected(TrUnderpriced)
        else if Contains(errorMessage, CONTRACT_TX_NORMAL_TEXT) then Rejected(ContractTxNormalNotAllowed)
        else Resolved(None)
  }

  /** A node message that carries both texts is reported as underpriced: that test comes
      first. */
  lemma UnderpricedFirst(m: string)
    requires Contains(m, TR_UNDERPRICED_TEXT) && Contains(m, CONTRACT_TX_NORMAL_TEXT)
    ensures SendTransaction(Answered(RpcResponse(None, Some(RpcError(Some(m)))))) == Rejected(TrUnderpriced)
  {
  }

  /** The defaults of the fee configuration: one gas price, and a gas limit per token type. */
  datatype FeeDefaults = FeeDefaults(gasPrice: real, gasLimit: map<TokenType, real>)

  /** What `estimateFees` (`GetMinimumGasPrice`) did: answered with an optional result, or
      threw. */
  datatype Estimate = EstimateThrew | EstimateAnswered(result: Option<string>)

  /** The price the estimate stands for: its number when it is a non-empty string, and the
      default price otherwise. */
  function EstimatedPrice(estimate: Estimate, defaults: FeeDefaults, jsNumber: string -> Num): Num
  {
    if estimate.EstimateAnswered? && estimate.result.Some? && estimate.result.value != ""
    then jsNumber(estimate.result.value) else Finite(defaults.gasPrice)
  }

  /** `getFees`. `jsNumber` is JavaScript's `Number` conversion of the estimate. The gas limit
      comes from the defaults for the token type; a token type without a default makes
      `gasLimit.toString()` throw (None). The estimate is used when it is a non-empty string,
      and the default price otherwise, including when the estimate throws. */
  function GetFees(tokenType: TokenType, defaults: FeeDefaults, estimate: Estimate, jsNumber: string -> Num): (r: Option<FeeOptions>)
    ensures r.Some? <==> tokenType in defaults.gasLimit
    ensures r.Some? ==> FeeTotalConsistent(r.value)
    ensures r.Some? ==> r.value.gasLimit == Finite(defaults.gasLimit[tokenType])
    ensures r.Some? ==> r.value.gasPrice == EstimatedPrice(estimate, defaults, jsNumber)
  {
    if tokenType !in defaults.gasLimit then None
    else
      var gasLimit := Finite(defaults.gasLimit[tokenType]);
      var gasPrice :=
        match estimate
        case EstimateAnswered(res) =>
          if res.Some? && res.value != "" then jsNumber(res.value) else Finite(defaults.gasPrice)
        case EstimateThrew => Finite(defaults.gasPrice);
      Some(FeeOptions(gasPrice, gasLimit, Mul(gasPrice, gasLimit)))
  }

  /** Without a usable estimate the fee is the default price times the default limit, a
      finite value. */
  lemma DefaultFeesFinite(tokenType: TokenType, defaults: FeeDefaults, jsNumber: string -> Num)
    requires tokenType in defaults.gasLimit
    ensures var r := GetFees(tokenType, defaults, EstimateThrew, jsNumber);
      r.Some? && r.value.feeTotal == Finite(defaults.gasPrice * defaults.gasLimit[tokenType])
    ensures GetFees(tokenType, defaults, EstimateThrew, jsNumber)
         == GetFees(tokenType, defaults, EstimateAnswered(None), jsNumber)
         == GetFees(tokenType, defaults, EstimateAnswered(Some("")), jsNumber)
  {
  }

  /** `isBech32` and `fromBech32Address` of zilliqa-js, which are not part of this model. */
  datatype AddressCodec = AddressCodec(isBech32: string -> bool, fromBech32: string -> string)

  /** The address `getSmartContractInit` sends: bech32 addresses are converted to base16 first;
      then the first "0x" is removed and the letters are lower-cased. */
  function NormaliseContractAddress(address: string, codec: AddressCodec): (r: string)
    ensures IsLower(r)
    ensures !codec.isBech32(address) ==> r == ToLower(ReplaceFirst(address, "0x", ""))
    ensures codec.isBech32(address) ==> r == ToLower(ReplaceFirst(codec.fromBech32(address), "0x", ""))
  {
    var base16 := if codec.isBech32(address) then codec.fromBech32(address) else address;
    ToLower(ReplaceFirst(base16, "0x", ""))
  }

  /** A base16 address "0x" + h that is not bech32 is sent as the lower-cased h. */
  lemma PrefixedAddressStripped(h: string, codec: AddressCodec)
    requires !codec.isBech32("0x" + h)
    ensures NormaliseContractAddress("0x" + h, codec) == ToLower(h)
  {
    var a := "0x" + h;
    assert OccursAt(a, "0x", 0) by { assert a[0..2] == "0x"; }
    ContainsAt(a, "0x", 0);
    assert IndexOf(a, "0x") == 0;
    assert a[..0] + "" + a[2..] == h;
  }

  /** Normalising twice lower-cases nothing more: an address without "0x" left in it is a
      fixed point. */
  lemma NormalisedFixedPoint(address: string, codec: AddressCodec)
    requires !codec.isBech32(address) && !Contains(address, "0x")
    ensures NormaliseContractAddress(address, codec) == ToLower(address)
  {
  }

  /** `getSmartContractInit`: the normalised address goes to the `GetSmartContractInit` call,
      whose answer's result is returned. */
  function GetSmartContractInit<R>(address: string, codec: AddressCodec, t: Transport<R>)
    : (r: (string, Outcome<Option<R>, Thrown<R>>))
    ensures r.0 == NormaliseContractAddress(address, codec)
    ensures r.1.Resolved? <==> Call(t).Resolved?
    ensures r.1.Resolved? ==> r.1.value == t.response.result
  {
    var addr := NormaliseContractAddress(address, codec);
    match Call(t)
    case Resolved(resp) => (addr, Resolved(resp.result))
    case Rejected(x) => (addr, Rejected(x))
  }
}
