/** The wallet's common transaction record (IBlockchainTransaction) and the intents the
    builders consume (ITransferTransaction, IPosTransaction). */
module Transactions {
  import opened Common

  /** NearTransactionActionType, plus any other action type an action list may carry. */
  datatype ActionKind = TransferAction | FunctionCallAction | OtherAction(name: string)

  /** A value of the open `additionalInfo` / `extraFields` bag. */
  datatype InfoValue = Text(text: string) | Actions(kinds: seq<ActionKind>) | PosInfo(action: PosAction)

  datatype FeeOptions = FeeOptions(gasPrice: Num, gasLimit: Num, feeTotal: Num)

  /** The cached total fee is the product of price and limit. */
  predicate FeeTotalConsistent(f: FeeOptions)
  {
    f.feeTotal == Mul(f.gasPrice, f.gasLimit)
  }

  /** One `{vname, type, value}` entry of a Scilla contract call. */
  datatype ContractParam = ContractParam(vname: string, typ: string, value: string)

  /** The `{_tag, params}` object that is `JSON.stringify`-ed into `data.raw`. */
  datatype ContractPayload = ContractPayload(tag: string, params: seq<ContractParam>)

  /** `data`: `null`, or an object with an optional method, call parameters (None where a
      parameter is `undefined`) and raw payload. */
  datatype TxData = NullData | Data(methodName: Option<string>, params: seq<Option<string>>, raw: Option<ContractPayload>)

  const EmptyData := Data(None, [], None)

  datatype Transaction = Transaction(
    id: Option<string>,
    blockchain: string,
    chainId: string,
    txType: TxType,
    token: string,
    address: string,
    publicKey: string,
    toAddress: string,
    amount: string,
    feeOptions: Option<FeeOptions>,
    broadcastedOnBlock: Option<int>,
    nonce: int,
    status: TxStatus,
    data: TxData,
    additionalInfo: map<string, InfoValue>)

  datatype Account = Account(blockchain: string, address: string, publicKey: string)

  /** One entry of a validator's `chartStats`: its title and `data.value`. */
  datatype ChartStat = ChartStat(title: string, value: string)

  /** IValidator as the builders see it. */
  datatype Validator = Validator(id: string, name: string, chartStats: seq<ChartStat>)

  /** ITransferTransaction. */
  datatype TransferIntent = TransferIntent(
    account: Account, chainId: string, toAddress: string, amount: string, token: string,
    feeOptions: Option<FeeOptions>)

  /** IPosTransaction. */
  datatype PosIntent = PosIntent(
    account: Account, chainId: string, token: string, amount: string,
    feeOptions: Option<FeeOptions>, validators: seq<Validator>, extraFields: map<string, InfoValue>)

  /** IBlockInfo returned by `getCurrentBlock`. */
  datatype BlockInfo = BlockInfo(hash: string, number: Option<int>)
}
