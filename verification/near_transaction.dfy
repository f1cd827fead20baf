/** NearTransactionUtils (src/core/blockchain/near/transaction.ts): mapping abstract actions to
    NEAR actions for signing, the transfer builder, the delegate batch builder and the mapping
    from an execution outcome to a transaction status. */
module NearTransaction {
  import opened Common
  import opened Transactions

  /** Gas attached to every function call (DEFAULT_FUNC_CALL_GAS). */
  const DEFAULT_FUNC_CALL_GAS: nat := 100000000000000

  /** The arguments object of a function call: `{}` or `{ amount }`. */
  datatype FunctionArgs = NoArgs | AmountArg(amount: string)

  /** The near-api-js actions `transfer(deposit)` and `functionCall(method, args, gas, deposit)`. */
  datatype NearAction =
    | TransferOf(deposit: string)
    | FunctionCallOf(methodName: Option<string>, args: FunctionArgs, gas: nat, deposit: string)

  /** Everything `createTransaction` receives before the transaction is serialised and signed. */
  datatype UnsignedNearTx = UnsignedNearTx(
    signerId: string, publicKey: string, receiverId: string, nonce: int,
    actions: seq<NearAction>, blockHash: string)

  /** What one entry of `additionalInfo.actions` becomes: dropped by `filter(Boolean)`, a NEAR
      action, or the TypeError of reading `tx.data.method` when `data` is null. */
  datatype Mapped = Filtered | MappedTo(action: NearAction) | ThrowsTypeError

  /** The action one entry of `additionalInfo.actions` becomes. */
  function ConcreteAction(kind: ActionKind, tx: Transaction): (r: Mapped)
    ensures r.Filtered? <==> kind.OtherAction?
    ensures r.ThrowsTypeError? <==> kind.FunctionCallAction? && tx.data.NullData?
    ensures kind.TransferAction? ==> r == MappedTo(TransferOf(tx.amount))
    ensures kind.FunctionCallAction? && tx.data.Data? ==>
      r.MappedTo? && r.action.FunctionCallOf? && r.action.gas == DEFAULT_FUNC_CALL_GAS
      && r.action.methodName == tx.data.methodName
      && (tx.data.methodName == Some("deposit") ==> r.action.args == NoArgs && r.action.deposit == tx.amount)
      && (tx.data.methodName != Some("deposit") ==> r.action.args == AmountArg(tx.amount) && r.action.deposit == "0")
  {
    match kind
    case TransferAction => MappedTo(TransferOf(tx.amount))
    case FunctionCallAction =>
      if tx.data.NullData? then ThrowsTypeError
      else if tx.data.methodName == Some("deposit") then
        MappedTo(FunctionCallOf(Some("deposit"), NoArgs, DEFAULT_FUNC_CALL_GAS, tx.amount))
      else
        MappedTo(FunctionCallOf(tx.data.methodName, AmountArg(tx.amount), DEFAULT_FUNC_CALL_GAS, "0"))
    case OtherAction(_) => Filtered
  }

  /** Number of entries that survive the `filter(Boolean)`. */
  function KnownCount(kinds: seq<ActionKind>): nat
  {
    if kinds == [] then 0
    else (if kinds[0].OtherAction? then 0 else 1) + KnownCount(kinds[1..])
  }

  /** Some entry asks for a function call. */
  predicate CallsFunction(kinds: seq<ActionKind>)
  {
    exists i :: 0 <= i < |kinds| && kinds[i].FunctionCallAction?
  }

  lemma CallsFunctionCons(kinds: seq<ActionKind>)
    requires kinds != []
    ensures CallsFunction(kinds) <==> kinds[0].FunctionCallAction? || CallsFunction(kinds[1..])
  {
    if CallsFunction(kinds[1..]) {
      var i :| 0 <= i < |kinds[1..]| && kinds[1..][i].FunctionCallAction?;
      assert kinds[i + 1].FunctionCallAction?;
    }
  }

  /** `actions.map(...).filter(Boolean)` of `sign`; None when the map throws. */
  function SignActions(kinds: seq<ActionKind>, tx: Transaction): (r: Option<seq<NearAction>>)
    ensures r.None? <==> tx.data.NullData? && CallsFunction(kinds)
    ensures r.Some? ==> |r.value| == KnownCount(kinds) <= |kinds|
    ensures r.Some? ==> forall i :: 0 <= i < |r.value| && r.value[i].FunctionCallOf? ==> r.value[i].gas == DEFAULT_FUNC_CALL_GAS
  {
    if kinds == [] then Some([])
    else
      CallsFunctionCons(kinds);
      match ConcreteAction(kinds[0], tx)
      case ThrowsTypeError => None
      case Filtered => SignActions(kinds[1..], tx)
      case MappedTo(a) =>
        match SignActions(kinds[1..], tx)
        case None => None
        case Some(rest) => Some([a] + rest)
  }

  /** The mapping respects order: the actions of a concatenation are the concatenation of the
      actions, and it throws exactly when one of the halves does. */
  lemma {:induction false} SignActionsAppend(a: seq<ActionKind>, b: seq<ActionKind>, tx: Transaction)
    ensures SignActions(a + b, tx).Some? <==> SignActions(a, tx).Some? && SignActions(b, tx).Some?
    ensures SignActions(a + b, tx).Some? ==>
      SignActions(a + b, tx).value == SignActions(a, tx).value + SignActions(b, tx).value
  {
    if a == [] {
      assert a + b == b;
    } else {
      assert (a + b)[1..] == a[1..] + b;
      assert (a + b)[0] == a[0];
      SignActionsAppend(a[1..], b, tx);
    }
  }

  /** With no unknown action type and no throw, the i-th NEAR action is the image of the i-th
      entry. */
  lemma {:induction false} SignActionsPointwise(kinds: seq<ActionKind>, tx: Transaction, i: nat)
    requires forall j :: 0 <= j < |kinds| ==> !kinds[j].OtherAction?
    requires SignActions(kinds, tx).Some?
    requires i < |kinds|
    ensures |SignActions(kinds, tx).value| == |kinds|
    ensures MappedTo(SignActions(kinds, tx).value[i]) == ConcreteAction(kinds[i], tx)
  {
    KnownAll(kinds);
    if i > 0 {
      SignActionsPointwise(kinds[1..], tx, i - 1);
    }
  }

  lemma {:induction false} KnownAll(kinds: seq<ActionKind>)
    requires forall j :: 0 <= j < |kinds| ==> !kinds[j].OtherAction?
    ensures KnownCount(kinds) == |kinds|
  {
    if kinds != [] {
      KnownAll(kinds[1..]);
    }
  }

  /** The action list and the block hash `sign` reads from `additionalInfo` are present. */
  predicate SignInputsPresent(tx: Transaction)
  {
    "actions" in tx.additionalInfo && tx.additionalInfo["actions"].Actions?
    && "currentBlockHash" in tx.additionalInfo && tx.additionalInfo["currentBlockHash"].Text?
  }

  /** `sign` up to the signature: None stands for the TypeError thrown when `additionalInfo`
      lacks the action list or the block hash, or when a function call is asked for on a
      transaction whose `data` is null. Key handling, hashing and Borsh encoding are not part
      of this model. */
  function Sign(tx: Transaction): (r: Option<UnsignedNearTx>)
    ensures r.Some? <==>
      SignInputsPresent(tx) && !(tx.data.NullData? && CallsFunction(tx.additionalInfo["actions"].kinds))
    ensures r.Some? ==>
      r.value.signerId == tx.address && r.value.receiverId == tx.toAddress
      && r.value.nonce == tx.nonce && r.value.publicKey == tx.publicKey
      && r.value.blockHash == tx.additionalInfo["currentBlockHash"].text
      && Some(r.value.actions) == SignActions(tx.additionalInfo["actions"].kinds, tx)
  {
    if SignInputsPresent(tx) then
      match SignActions(tx.additionalInfo["actions"].kinds, tx)
      case None => None
      case Some(actions) =>
        Some(UnsignedNearTx(tx.address, tx.publicKey, tx.toAddress, tx.nonce, actions,
                            tx.additionalInfo["currentBlockHash"].text))
    else None
  }

  /** `buildTransferTransaction`, given the awaited client nonce and current block hash.
      The token configuration lookup is represented by the token symbol; dates are left out. */
  function BuildTransferTransaction(intent: TransferIntent, nonce: int, blockHash: string): (tx: Transaction)
    ensures tx.txType == Transfer && tx.status == Pending && tx.nonce == nonce
    ensures tx.address == intent.account.address && tx.publicKey == intent.account.publicKey
    ensures tx.toAddress == intent.toAddress && tx.amount == intent.amount
    ensures tx.feeOptions == intent.feeOptions && tx.broadcastedOnBlock.None?
    ensures tx.additionalInfo.Keys == {"currentBlockHash", "actions"}
    ensures tx.additionalInfo["actions"] == Actions([TransferAction])
  {
    Transaction(
      id := None,
      blockchain := intent.account.blockchain,
      chainId := intent.chainId,
      txType := Transfer,
      token := intent.token,
      address := intent.account.address,
      publicKey := intent.account.publicKey,
      toAddress := intent.toAddress,
      amount := intent.amount,
      feeOptions := intent.feeOptions,
      broadcastedOnBlock := None,
      nonce := nonce,
      status := Pending,
      data := NullData,
      additionalInfo := map["currentBlockHash" := Text(blockHash), "actions" := Actions([TransferAction])])
  }

  /** A built transfer always signs to exactly one transfer of the intent's amount, from the
      account to the recipient, with the client nonce and the current block hash. */
  lemma BuiltTransferSigns(intent: TransferIntent, nonce: int, blockHash: string)
    ensures var u := Sign(BuildTransferTransaction(intent, nonce, blockHash));
      u == Some(UnsignedNearTx(intent.account.address, intent.account.publicKey, intent.toAddress,
                               nonce, [TransferOf(intent.amount)], blockHash))
  {
    var tx := BuildTransferTransaction(intent, nonce, blockHash);
    assert SignInputsPresent(tx);
    var kinds := tx.additionalInfo["actions"].kinds;
    assert kinds[0] == TransferAction && kinds[1..] == [];
    assert SignActions(kinds[1..], tx) == Some([]);
    assert [TransferOf(intent.amount)] + [] == [TransferOf(intent.amount)];
    assert SignActions(kinds, tx) == Some([TransferOf(intent.amount)]);
  }

  /** `getTransactionAmount`: the amount a NEAR transaction reports is its own `amount`. */
  function GetTransactionAmount(tx: Transaction): (r: string)
    ensures r == tx.amount
  {
    tx.amount
  }

  /** The amount reported for a built transfer is the amount the user asked to send. */
  lemma TransferAmountReported(intent: TransferIntent, nonce: int, blockHash: string)
    ensures GetTransactionAmount(BuildTransferTransaction(intent, nonce, blockHash)) == intent.amount
  {
  }

  /** The execution outcome's `status` object: `SuccessValue` and whether `Failure` is set. */
  datatype OutcomeStatus = OutcomeStatus(successValue: Option<string>, failure: bool)

  /** `getTransactionStatusByCode`. */
  function StatusByCode(status: OutcomeStatus): (r: TxStatus)
    ensures r == Success <==> status.successValue == Some("")
    ensures r == Success || r == Failed
  {
    if status.successValue == Some("") then Success
    else if status.failure then Failed
    else Failed
  }

  /** `buildPosTransaction` as written. `deposits[k]` and `stakes[k]` are the transactions that
      the NEAR staking contract builder returns for validator k (each carrying the live client
      nonce); only the stake transaction gets its nonce raised, by the number of transactions
      already queued. */
  method BuildPosTransaction(action: PosAction, validators: seq<Validator>,
                             deposits: seq<Transaction>, stakes: seq<Transaction>)
    returns (txs: seq<Transaction>)
    requires |deposits| == |validators| && |stakes| == |validators|
    ensures action != Delegate ==> txs == []
    ensures action == Delegate ==> |txs| == 2 * |validators|
    ensures action == Delegate ==> forall k :: 0 <= k < |validators| ==>
      txs[2 * k] == deposits[k] && txs[2 * k + 1] == stakes[k].(nonce := stakes[k].nonce + 2 * k + 1)
  {
    txs := [];
    if action == Delegate {
      var k := 0;
      while k < |validators|
        invariant 0 <= k <= |validators|
        invariant |txs| == 2 * k
        invariant forall j :: 0 <= j < k ==>
          txs[2 * j] == deposits[j] && txs[2 * j + 1] == stakes[j].(nonce := stakes[j].nonce + 2 * j + 1)
      {
        txs := txs + [deposits[k]];
        var stakeTx := stakes[k];
        stakeTx := stakeTx.(nonce := stakeTx.nonce + |txs|);
        txs := txs + [stakeTx];
        k := k + 1;
      }
    }
  }

  /** Any batch of the shape `BuildPosTransaction` guarantees, for two or more validators whose
      builders all return the live nonce n, holds the first and the second deposit under the
      same nonce n, and the first stake under n+1 while the second deposit is still at n:
      the node accepts only one transaction per nonce. */
  lemma DepositNoncesCollide(validators: seq<Validator>, deposits: seq<Transaction>,
                             stakes: seq<Transaction>, txs: seq<Transaction>, n: int)
    requires |validators| >= 2 && |deposits| == |validators| && |stakes| == |validators|
    requires forall k :: 0 <= k < |validators| ==> deposits[k].nonce == n && stakes[k].nonce == n
    requires |txs| == 2 * |validators|
    requires forall k :: 0 <= k < |validators| ==>
      txs[2 * k] == deposits[k] && txs[2 * k + 1] == stakes[k].(nonce := stakes[k].nonce + 2 * k + 1)
    ensures txs[0].nonce == n && txs[2].nonce == n
    ensures exists i, j :: 0 <= i < j < |txs| && txs[i].nonce == txs[j].nonce
  {
    assert txs[2 * 0] == deposits[0] && txs[2 * 1] == deposits[1];
    assert txs[0].nonce == txs[2].nonce;
  }

  /** Corrected batch builder: every queued transaction, deposit and stake alike, has its nonce
      raised by the number of transactions queued before it. */
  method BuildPosTransactionSequential(action: PosAction, validators: seq<Validator>,
                                       deposits: seq<Transaction>, stakes: seq<Transaction>)
    returns (txs: seq<Transaction>)
    requires |deposits| == |validators| && |stakes| == |validators|
    ensures action != Delegate ==> txs == []
    ensures action == Delegate ==> |txs| == 2 * |validators|
    ensures action == Delegate ==> forall k :: 0 <= k < |validators| ==>
      txs[2 * k] == deposits[k].(nonce := deposits[k].nonce + 2 * k)
      && txs[2 * k + 1] == stakes[k].(nonce := stakes[k].nonce + 2 * k + 1)
  {
    txs := [];
    if action == Delegate {
      var k := 0;
      while k < |validators|
        invariant 0 <= k <= |validators|
        invariant |txs| == 2 * k
        invariant forall j :: 0 <= j < k ==>
          txs[2 * j] == deposits[j].(nonce := deposits[j].nonce + 2 * j)
          && txs[2 * j + 1] == stakes[j].(nonce := stakes[j].nonce + 2 * j + 1)
      {
        var depositTx := deposits[k];
        depositTx := depositTx.(nonce := depositTx.nonce + |txs|);
        txs := txs + [depositTx];
        var stakeTx := stakes[k];
        stakeTx := stakeTx.(nonce := stakeTx.nonce + |txs|);
        txs := txs + [stakeTx];
        k := k + 1;
      }
    }
  }

  /** When every builder returns the live nonce n, the corrected batch carries the nonces
      n, n+1, ..., n+2N-1 in emission order, so no two of its transactions share a nonce. */
  lemma SequentialNoncesReserved(validators: seq<Validator>, deposits: seq<Transaction>,
                                 stakes: seq<Transaction>, txs: seq<Transaction>, n: int)
    requires |deposits| == |validators| && |stakes| == |validators|
    requires forall k :: 0 <= k < |validators| ==> deposits[k].nonce == n && stakes[k].nonce == n
    requires |txs| == 2 * |validators|
    requires forall k :: 0 <= k < |validators| ==>
      txs[2 * k] == deposits[k].(nonce := deposits[k].nonce + 2 * k)
      && txs[2 * k + 1] == stakes[k].(nonce := stakes[k].nonce + 2 * k + 1)
    ensures forall j :: 0 <= j < |txs| ==> txs[j].nonce == n + j
    ensures forall i, j :: 0 <= i < j < |txs| ==> txs[i].nonce != txs[j].nonce
  {
    forall j | 0 <= j < |txs| ensures txs[j].nonce == n + j {
      var k := j / 2;
      assert 0 <= k < |validators|;
      if j == 2 * k {
        assert txs[2 * k].nonce == deposits[k].nonce + 2 * k;
      } else {
        assert j == 2 * k + 1;
        assert txs[2 * k + 1].nonce == stakes[k].nonce + 2 * k + 1;
      }
    }
  }
}
