/** The Zilliqa staking contract (src/core/blockchain/zilliqa/contracts/staking.ts): the cached
    address of the contract implementation, the eligibility checks over the contract's cycle
    counters, and the builders of the contract-call transactions. */
module ZilliqaStaking {
  import opened Common
  import opened Strings
  import opened Transactions
  import ZilliqaClient

  // ---------------------------------------------------------------------------------------
  // The cached implementation

  /** The `implementation` sub-state: contract field name to address. */
  type Implementation = map<string, string>

  class Staking {
    /** `contractImplementation`: unset until a fetch returned a value. */
    var contractImplementation: Option<Implementation>
    /** How many times the sub-state has been requested from the node. */
    var fetches: nat

    constructor()
      ensures contractImplementation.None? && fetches == 0
    {
      contractImplementation := None;
      fetches := 0;
    }

    /** `getContractImplementation`. `fetched` is what `getSmartContractSubState` settles with
        if it is asked (None when the answer has no result). Only a value is cached, so a
        missing answer is asked for again the next time. */
    method GetContractImplementation(fetched: ZilliqaClient.Outcome<Option<Implementation>, ZilliqaClient.Thrown<Implementation>>)
      returns (r: ZilliqaClient.Outcome<Option<Implementation>, ZilliqaClient.Thrown<Implementation>>)
      modifies this
      ensures old(contractImplementation).Some? ==>
        r == ZilliqaClient.Resolved(old(contractImplementation))
        && contractImplementation == old(contractImplementation) && fetches == old(fetches)
      ensures old(contractImplementation).None? ==>
        fetches == old(fetches) + 1 && r == fetched
        && contractImplementation == (if fetched.Resolved? then fetched.value else None)
    {
      if contractImplementation.None? {
        fetches := fetches + 1;
        match fetched
        case Resolved(v) =>
          contractImplementation := v;
          r := ZilliqaClient.Resolved(v);
        case Rejected(e) =>
          r := ZilliqaClient.Rejected(e);
      } else {
        r := ZilliqaClient.Resolved(contractImplementation);
      }
    }

    /** `canUnstakeFromSsn`: the implementation is looked up (through the cache) and then the
        cycle counters are compared; every failure gives false. The comparison is the intended
        one, `UnstakeAllowed`, not the written `<=` test: the written one also lets a NaN last
        reward cycle through (`UnstakeFailsOpenOnNaN`), and otherwise agrees with it
        (`UnstakeReadingsAgree`). */
    method CanUnstakeFromSsn(accountAddress: string, ssnaddr: string, codec: ZilliqaClient.AddressCodec,
                             fetched: ZilliqaClient.Outcome<Option<Implementation>, ZilliqaClient.Thrown<Implementation>>,
                             cycles: Option<CycleState>, jsNumber: string -> Num)
      returns (eligible: bool)
      modifies this
      ensures eligible <==>
        ImplementationAvailable(old(contractImplementation), fetched)
        && UnstakeAllowed(NormaliseAccount(accountAddress, codec), ssnaddr, cycles, jsNumber)
      ensures eligible ==> UnstakeAllowedAsWritten(NormaliseAccount(accountAddress, codec), ssnaddr, cycles, jsNumber)
      ensures contractImplementation ==
        if old(contractImplementation).Some? then old(contractImplementation)
        else if fetched.Resolved? then fetched.value else None
      ensures fetches == old(fetches) + (if old(contractImplementation).None? then 1 else 0)
    {
      var contract := GetContractImplementation(fetched);
      if contract.Rejected? || contract.value.None? {
        eligible := false;
      } else {
        eligible := UnstakeAllowed(NormaliseAccount(accountAddress, codec), ssnaddr, cycles, jsNumber);
        UnstakeReadingsAgree(NormaliseAccount(accountAddress, codec), ssnaddr, cycles, jsNumber);
      }
    }

    /** `canWithdrawStakeRewardsFromSsn`, with the same shape. */
    method CanWithdrawStakeRewardsFromSsn(accountAddress: string, ssnaddr: string, codec: ZilliqaClient.AddressCodec,
                                          fetched: ZilliqaClient.Outcome<Option<Implementation>, ZilliqaClient.Thrown<Implementation>>,
                                          cycles: Option<CycleState>, jsNumber: string -> Num)
      returns (eligible: bool)
      modifies this
      ensures eligible <==>
        ImplementationAvailable(old(contractImplementation), fetched)
        && WithdrawRewardsAllowed(NormaliseAccount(accountAddress, codec), ssnaddr, cycles, jsNumber)
      ensures contractImplementation ==
        if old(contractImplementation).Some? then old(contractImplementation)
        else if fetched.Resolved? then fetched.value else None
      ensures fetches == old(fetches) + (if old(contractImplementation).None? then 1 else 0)
    {
      var contract := GetContractImplementation(fetched);
      if contract.Rejected? || contract.value.None? {
        eligible := false;
      } else {
        eligible := WithdrawRewardsAllowed(NormaliseAccount(accountAddress, codec), ssnaddr, cycles, jsNumber);
      }
    }
  }

  /** The implementation is known: cached already, or fetched now with a value. */
  predicate ImplementationAvailable(cached: Option<Implementation>,
                                    fetched: ZilliqaClient.Outcome<Option<Implementation>, ZilliqaClient.Thrown<Implementation>>)
  {
    cached.Some? || (fetched.Resolved? && fetched.value.Some?)
  }

  // ---------------------------------------------------------------------------------------
  // Eligibility over the cycle counters

  /** A per-delegator counter field: delegator address to (ssn address to cycle). */
  type CycleMap = map<string, map<string, string>>

  /** What the `Promise.all` of the sub-state calls resolved with. `lastReward` is `res[..]`
      for `lastrewardcycle` (None when the answer had no result, Some(None) when the field is
      missing); `deposits` and `withdraws` are the per-delegator fields the same way. */
  datatype CycleState = CycleState(
    lastReward: Option<Option<string>>,
    deposits: Option<Option<CycleMap>>,
    withdraws: Option<Option<CycleMap>>)

  /** The delegator key: bech32 converted to base16 first, then lower-cased. */
  function NormaliseAccount(accountAddress: string, codec: ZilliqaClient.AddressCodec): (r: string)
    ensures IsLower(r)
  {
    if codec.isBech32(accountAddress) then ToLower(codec.fromBech32(accountAddress)) else ToLower(accountAddress)
  }

  /** `Number(res[..][LASTREWARDCYCLE])`: NaN when the field is missing. */
  function LastRewardCycle(field: Option<string>, jsNumber: string -> Num): Num
  {
    if field.Some? then jsNumber(field.value) else NaN
  }

  /** The counter of `ssnaddr` for the delegator: its number when the entry is a non-empty
      string, 0 otherwise (a missing delegator or ssn counts as 0). */
  function CycleOf(m: CycleMap, address: string, ssnaddr: string, jsNumber: string -> Num): (r: Num)
    ensures !(address in m && ssnaddr in m[address]) ==> r == Finite(0.0)
  {
    if address in m && ssnaddr in m[address] && m[address][ssnaddr] != "" then jsNumber(m[address][ssnaddr])
    else Finite(0.0)
  }

  /** The comparison of `canUnstakeFromSsn` as written: false only when the last reward cycle
      is `<=` the deposit cycle, so that a NaN on either side lets the unstake through. A
      missing answer or field is the TypeError the catch turns into false. */
  predicate UnstakeAllowedAsWritten(address: string, ssnaddr: string, cycles: Option<CycleState>, jsNumber: string -> Num)
  {
    cycles.Some? && cycles.value.lastReward.Some? && cycles.value.deposits.Some? && cycles.value.deposits.value.Some?
    && !Le(LastRewardCycle(cycles.value.lastReward.value, jsNumber),
           CycleOf(cycles.value.deposits.value.value, address, ssnaddr, jsNumber))
  }

  /** The intended check: the last reward cycle is a number strictly after the deposit cycle. */
  predicate UnstakeAllowed(address: string, ssnaddr: string, cycles: Option<CycleState>, jsNumber: string -> Num)
  {
    cycles.Some? && cycles.value.lastReward.Some? && cycles.value.deposits.Some? && cycles.value.deposits.value.Some?
    && Gt(LastRewardCycle(cycles.value.lastReward.value, jsNumber),
          CycleOf(cycles.value.deposits.value.value, address, ssnaddr, jsNumber))
  }

  /** `canWithdrawStakeRewardsFromSsn`: the last reward cycle is after the deposit cycle and is
      not the cycle of the last withdrawal. */
  predicate WithdrawRewardsAllowed(address: string, ssnaddr: string, cycles: Option<CycleState>, jsNumber: string -> Num)
  {
    cycles.Some? && cycles.value.lastReward.Some?
    && cycles.value.deposits.Some? && cycles.value.deposits.value.Some?
    && cycles.value.withdraws.Some? && cycles.value.withdraws.value.Some?
    && var last := LastRewardCycle(cycles.value.lastReward.value, jsNumber);
       Gt(last, CycleOf(cycles.value.deposits.value.value, address, ssnaddr, jsNumber))
       && Ne(last, CycleOf(cycles.value.withdraws.value.value, address, ssnaddr, jsNumber))
  }

  /** As written, a missing `lastrewardcycle` field (NaN) allows the unstake: the check fails
      open. */
  lemma UnstakeFailsOpenOnNaN(address: string, ssnaddr: string, deposits: CycleMap, jsNumber: string -> Num)
    ensures UnstakeAllowedAsWritten(address, ssnaddr, Some(CycleState(Some(None), Some(Some(deposits)), None)), jsNumber)
    ensures !UnstakeAllowed(address, ssnaddr, Some(CycleState(Some(None), Some(Some(deposits)), None)), jsNumber)
  {
  }

  /** The two readings agree whenever both counters are numbers: the discrepancy is NaN only,
      and the intended check never allows more than the written one. */
  lemma UnstakeReadingsAgree(address: string, ssnaddr: string, cycles: Option<CycleState>, jsNumber: string -> Num)
    ensures UnstakeAllowed(address, ssnaddr, cycles, jsNumber) ==> UnstakeAllowedAsWritten(address, ssnaddr, cycles, jsNumber)
    ensures UnstakeAllowedAsWritten(address, ssnaddr, cycles, jsNumber)
      && LastRewardCycle(cycles.value.lastReward.value, jsNumber).Finite?
      && CycleOf(cycles.value.deposits.value.value, address, ssnaddr, jsNumber).Finite?
      ==> UnstakeAllowed(address, ssnaddr, cycles, jsNumber)
  {
  }

  /** Withdrawing rewards is only ever allowed when unstaking is allowed (intended reading):
      both require the last reward cycle to be past the deposit cycle. */
  lemma WithdrawImpliesUnstake(address: string, ssnaddr: string, cycles: Option<CycleState>, jsNumber: string -> Num)
    ensures WithdrawRewardsAllowed(address, ssnaddr, cycles, jsNumber) ==> UnstakeAllowed(address, ssnaddr, cycles, jsNumber)
  {
  }

  /** A delegator without any recorded cycle for the ssn may unstake and withdraw as soon as
      the last reward cycle is a positive number. */
  lemma FreshDelegator(address: string, ssnaddr: string, reward: string, jsNumber: string -> Num)
    requires jsNumber(reward).Finite? && jsNumber(reward).v > 0.0
    ensures var c := Some(CycleState(Some(Some(reward)), Some(Some(map[])), Some(Some(map[]))));
      UnstakeAllowed(address, ssnaddr, c, jsNumber) && WithdrawRewardsAllowed(address, ssnaddr, c, jsNumber)
  {
  }

  // ---------------------------------------------------------------------------------------
  // The builders

  /** The fee environment every builder passes to `getFees(CONTRACT_CALL, ..., ZRC2)`. */
  datatype FeeEnv = FeeEnv(defaults: ZilliqaClient.FeeDefaults, estimate: ZilliqaClient.Estimate, jsNumber: string -> Num)

  /** The fee configuration has a gas limit for ZRC2 contract calls. */
  predicate FeeConfigured(env: FeeEnv)
  {
    Zrc2 in env.defaults.gasLimit
  }

  function ContractCallFees(env: FeeEnv): (f: FeeOptions)
    requires FeeConfigured(env)
    ensures FeeTotalConsistent(f)
    ensures f.gasLimit == Finite(env.defaults.gasLimit[Zrc2])
  {
    ZilliqaClient.GetFees(Zrc2, env.defaults, env.estimate, env.jsNumber).value
  }

  /** A validator id as the contract expects it: bech32 converted first, then lower-cased. */
  function NormaliseValidatorId(id: string, codec: ZilliqaClient.AddressCodec): (r: string)
    ensures IsLower(r) && (!codec.isBech32(id) ==> r == ToLower(id))
  {
    if codec.isBech32(id) then ToLower(codec.fromBech32(id)) else ToLower(id)
  }

  /** A lower-case base16 id is left as it is, so normalising it twice changes nothing. */
  lemma NormaliseValidatorIdIdempotent(id: string, codec: ZilliqaClient.AddressCodec)
    requires !codec.isBech32(id) && !codec.isBech32(ToLower(id))
    ensures NormaliseValidatorId(NormaliseValidatorId(id, codec), codec) == NormaliseValidatorId(id, codec)
  {
    ToLowerIdempotent(id);
  }

  function ByStr20(vname: string, value: string): ContractParam
  {
    ContractParam(vname, "ByStr20", value)
  }

  function Uint128(vname: string, value: string): ContractParam
  {
    ContractParam(vname, "Uint128", value)
  }

  /** The additional information every builder adds: the PoS action and, except for
      `completeWithdrawal`, the validator's name. */
  function PosInfoOf(info: map<string, InfoValue>, action: PosAction, validatorName: Option<string>): map<string, InfoValue>
  {
    var withAction := info["posAction" := PosInfo(action)];
    if validatorName.Some? then withAction["validatorName" := Text(validatorName.value)] else withAction
  }

  /** The fields every builder writes over the base transaction; all others are kept. */
  function Finish(base: Transaction, contractAddress: string, amount: string, fees: FeeOptions,
                  methodName: string, params: seq<Option<string>>, payload: ContractPayload,
                  action: PosAction, validatorName: Option<string>): (tx: Transaction)
    ensures tx.id == base.id && tx.nonce == base.nonce && tx.address == base.address
    ensures tx.publicKey == base.publicKey && tx.txType == base.txType && tx.status == base.status
    ensures tx.toAddress == contractAddress && tx.amount == amount && tx.feeOptions == Some(fees)
    ensures tx.data == Data(Some(methodName), params, Some(payload))
    ensures tx.additionalInfo == PosInfoOf(base.additionalInfo, action, validatorName)
    ensures "posAction" in tx.additionalInfo && tx.additionalInfo["posAction"] == PosInfo(action)
  {
    base.(toAddress := contractAddress, amount := amount, feeOptions := Some(fees),
          data := Data(Some(methodName), params, Some(payload)),
          additionalInfo := PosInfoOf(base.additionalInfo, action, validatorName))
  }

  /** `reDelegateStake`: move the stake from one ssn to another. */
  function ReDelegateStake(base: Transaction, intent: PosIntent, contractAddress: string,
                           fromValidator: Validator, toValidator: Validator,
                           codec: ZilliqaClient.AddressCodec, env: FeeEnv): (tx: Transaction)
    requires FeeConfigured(env)
    ensures tx.amount == "0" && tx.toAddress == contractAddress && tx.feeOptions == Some(ContractCallFees(env))
    ensures tx.data == Data(Some("Stake"), [Some(toValidator.id), Some(intent.amount)],
      Some(ContractPayload("ReDelegateStake", [
        ByStr20("ssnaddr", NormaliseValidatorId(fromValidator.id, codec)),
        ByStr20("to_ssn", NormaliseValidatorId(toValidator.id, codec)),
        Uint128("amount", intent.amount)])))
    ensures tx.additionalInfo == PosInfoOf(base.additionalInfo, Stake, Some(toValidator.name))
  {
    var payload := ContractPayload("ReDelegateStake", [
      ByStr20("ssnaddr", NormaliseValidatorId(fromValidator.id, codec)),
      ByStr20("to_ssn", NormaliseValidatorId(toValidator.id, codec)),
      Uint128("amount", intent.amount)]);
    Finish(base, contractAddress, "0", ContractCallFees(env), "Stake",
           [Some(toValidator.id), Some(intent.amount)], payload, Stake, Some(toValidator.name))
  }

  /** `delegateStake`: the amount of the base transaction is kept. */
  function DelegateStake(base: Transaction, intent: PosIntent, contractAddress: string, validator: Validator,
                         codec: ZilliqaClient.AddressCodec, env: FeeEnv): (tx: Transaction)
    requires FeeConfigured(env)
    ensures tx.amount == base.amount && tx.toAddress == contractAddress && tx.feeOptions == Some(ContractCallFees(env))
    ensures tx.data == Data(Some("Stake"), [Some(validator.id), Some(intent.amount)],
      Some(ContractPayload("DelegateStake", [ByStr20("ssnaddr", NormaliseValidatorId(validator.id, codec))])))
    ensures tx.additionalInfo == PosInfoOf(base.additionalInfo, Stake, Some(validator.name))
  {
    Finish(base, contractAddress, base.amount, ContractCallFees(env), "Stake",
           [Some(validator.id), Some(intent.amount)],
           ContractPayload("DelegateStake", [ByStr20("ssnaddr", NormaliseValidatorId(validator.id, codec))]),
           Stake, Some(validator.name))
  }

  /** `withdrawStakAmt`: unstake `amt` from the ssn. */
  function WithdrawStakeAmount(base: Transaction, intent: PosIntent, contractAddress: string, validator: Validator,
                               codec: ZilliqaClient.AddressCodec, env: FeeEnv): (tx: Transaction)
    requires FeeConfigured(env)
    ensures tx.amount == "0" && tx.toAddress == contractAddress && tx.feeOptions == Some(ContractCallFees(env))
    ensures tx.data == Data(Some("Unstake"), [Some(validator.id), Some(intent.amount)],
      Some(ContractPayload("WithdrawStakeAmt", [
        ByStr20("ssnaddr", NormaliseValidatorId(validator.id, codec)), Uint128("amt", intent.amount)])))
    ensures tx.additionalInfo == PosInfoOf(base.additionalInfo, Unstake, Some(validator.name))
  {
    Finish(base, contractAddress, "0", ContractCallFees(env), "Unstake",
           [Some(validator.id), Some(intent.amount)],
           ContractPayload("WithdrawStakeAmt", [
             ByStr20("ssnaddr", NormaliseValidatorId(validator.id, codec)), Uint128("amt", intent.amount)]),
           Unstake, Some(validator.name))
  }

  /** The index of the first chart at or after `from` with the title, or -1. */
  function FindChartFrom(charts: seq<ChartStat>, title: string, from: nat): (i: int)
    decreases |charts| - from
    ensures i == -1 <==> forall k :: from <= k < |charts| ==> charts[k].title != title
    ensures i != -1 ==>
      from <= i < |charts| && charts[i].title == title && forall k :: from <= k < i ==> charts[k].title != title
  {
    if from >= |charts| then -1
    else if charts[from].title == title then from
    else FindChartFrom(charts, title, from + 1)
  }

  /** `chartStats.find(chart => chart.title === title)`: the first chart with that title. */
  function FindChart(charts: seq<ChartStat>, title: string): (r: Option<ChartStat>)
    ensures r.None? <==> forall k :: 0 <= k < |charts| ==> charts[k].title != title
    ensures r.Some? ==> r.value.title == title
  {
    var i := FindChartFrom(charts, title, 0);
    if i < 0 then None else Some(charts[i])
  }

  /** `withdrawStakRewards`: the reward amount shown is the 'Reward' chart value of the first
      validator of the intent. None is the TypeError thrown when there is no validator or no
      such chart. */
  function WithdrawStakeRewards(base: Transaction, intent: PosIntent, contractAddress: string, validator: Validator,
                                codec: ZilliqaClient.AddressCodec, env: FeeEnv): (r: Option<Transaction>)
    requires FeeConfigured(env)
    ensures r.None? <==> |intent.validators| == 0 || FindChart(intent.validators[0].chartStats, "Reward").None?
    ensures r.Some? ==> r.value.amount == "0" && r.value.toAddress == contractAddress
    ensures r.Some? ==> r.value.feeOptions == Some(ContractCallFees(env))
    ensures r.Some? ==> r.value.data == Data(Some("Claim Rewards"),
      [Some(validator.id), Some(FindChart(intent.validators[0].chartStats, "Reward").value.value)],
      Some(ContractPayload("WithdrawStakeRewards", [ByStr20("ssnaddr", NormaliseValidatorId(validator.id, codec))])))
    ensures r.Some? ==> r.value.additionalInfo == PosInfoOf(base.additionalInfo, ClaimReward, Some(validator.name))
  {
    if |intent.validators| == 0 then None
    else
      match FindChart(intent.validators[0].chartStats, "Reward")
      case None => None
      case Some(chart) =>
        Some(Finish(base, contractAddress, "0", ContractCallFees(env), "Claim Rewards",
                    [Some(validator.id), Some(chart.value)],
                    ContractPayload("WithdrawStakeRewards", [ByStr20("ssnaddr", NormaliseValidatorId(validator.id, codec))]),
                    ClaimReward, Some(validator.name)))
  }

  /** `tx.extraFields.amount`, None when it is not set. */
  function ExtraAmount(intent: PosIntent): Option<string>
  {
    if "amount" in intent.extraFields && intent.extraFields["amount"].Text? then Some(intent.extraFields["amount"].text) else None
  }

  /** `completeWithdrawal`: no parameters, no validator name. */
  function CompleteWithdrawal(base: Transaction, intent: PosIntent, contractAddress: string, env: FeeEnv): (tx: Transaction)
    requires FeeConfigured(env)
    ensures tx.amount == "0" && tx.toAddress == contractAddress && tx.feeOptions == Some(ContractCallFees(env))
    ensures tx.data == Data(Some("withdraw"), [Some(contractAddress), ExtraAmount(intent)],
      Some(ContractPayload("CompleteWithdrawal", [])))
    ensures tx.additionalInfo == base.additionalInfo["posAction" := PosInfo(Withdraw)]
  {
    Finish(base, contractAddress, "0", ContractCallFees(env), "withdraw",
           [Some(contractAddress), ExtraAmount(intent)],
           ContractPayload("CompleteWithdrawal", []), Withdraw, None)
  }

  /** Every builder sends its transaction to the staking contract with a fee whose total is
      price times limit, and keeps the base transaction's nonce and sender. */
  lemma BuildersShareShape(base: Transaction, intent: PosIntent, contractAddress: string, v: Validator, w: Validator,
                           codec: ZilliqaClient.AddressCodec, env: FeeEnv)
    requires FeeConfigured(env)
    ensures forall tx :: tx in {ReDelegateStake(base, intent, contractAddress, v, w, codec, env),
                                DelegateStake(base, intent, contractAddress, v, codec, env),
                                WithdrawStakeAmount(base, intent, contractAddress, v, codec, env),
                                CompleteWithdrawal(base, intent, contractAddress, env)} ==>
      tx.toAddress == contractAddress && tx.nonce == base.nonce && tx.address == base.address
      && tx.feeOptions.Some? && FeeTotalConsistent(tx.feeOptions.value)
  {
  }
}
