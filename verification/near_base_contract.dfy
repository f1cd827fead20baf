/** `buildBaseTransaction` of the NEAR staking contracts
    (src/core/blockchain/near/contracts/base-contract.ts): the contract-call skeleton every NEAR
    staking transaction starts from. */
module NearBaseContract {
  import opened Common
  import opened Transactions

  /** The transaction built from a PoS intent, the live client nonce and the current block.
      `{...extraFields, currentBlockHash}` lets the block hash override an extra field of the
      same name. */
  function BuildBaseTransaction(intent: PosIntent, nonce: int, block: BlockInfo): (tx: Transaction)
    ensures tx.txType == ContractCall && tx.status == Pending
    ensures tx.toAddress == "" && tx.amount == intent.amount && tx.nonce == nonce
    ensures tx.address == intent.account.address && tx.publicKey == intent.account.publicKey
    ensures tx.blockchain == intent.account.blockchain && tx.chainId == intent.chainId
    ensures tx.token == intent.token && tx.feeOptions == intent.feeOptions
    ensures tx.broadcastedOnBlock == block.number
    ensures tx.data == EmptyData && tx.id.None?
    ensures tx.additionalInfo.Keys == intent.extraFields.Keys + {"currentBlockHash"}
    ensures tx.additionalInfo["currentBlockHash"] == Text(block.hash)
    ensures forall k :: k in intent.extraFields && k != "currentBlockHash" ==>
      tx.additionalInfo[k] == intent.extraFields[k]
  {
    Transaction(
      id := None,
      blockchain := intent.account.blockchain,
      chainId := intent.chainId,
      txType := ContractCall,
      token := intent.token,
      address := intent.account.address,
      publicKey := intent.account.publicKey,
      toAddress := "",
      amount := intent.amount,
      feeOptions := intent.feeOptions,
      broadcastedOnBlock := block.number,
      nonce := nonce,
      status := Pending,
      data := EmptyData,
      additionalInfo := intent.extraFields["currentBlockHash" := Text(block.hash)])
  }

  /** Building from intents that differ only in their validators gives the same transaction:
      the validator a NEAR staking call targets is filled in afterwards by the staking contract. */
  lemma BaseIgnoresValidators(intent: PosIntent, vs: seq<Validator>, nonce: int, block: BlockInfo)
    ensures BuildBaseTransaction(intent.(validators := vs), nonce, block)
         == BuildBaseTransaction(intent, nonce, block)
  {
  }
}
