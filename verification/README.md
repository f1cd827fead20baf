# Wallet core — a Dafny model

This project models the core of a multi-chain mobile wallet (Ethereum, Zilliqa, NEAR) and proves
properties of that model. Each module follows one source file:

| module | source file | what it covers |
|---|---|---|
| `Common`, `Transactions`, `Strings` | — | shared vocabulary: `Option`, JavaScript/BigNumber numbers that may be NaN (`Num`), the wallet's transaction record, the JavaScript string operations the core relies on |
| `AppConstants` | src/core/constants/app.ts | the failed-login lock-out table, the wipe count, the NEAR account suffixes |
| `Balance` | src/core/utils/balance.ts | `calculateBalance` (a loop over the token entries) and `convertAmount` |
| `AvailableFunds` | src/core/utils/available-funds.ts | `getInputAmountToStd`, `availableFunds`, `availableAmount` |
| `EthereumClient` | src/core/blockchain/ethereum/client.ts | base-16 reading of balances and nonces, `fixAddress`, `callContract`'s signature parsing and result shape, `calculateFees` |
| `ZilliqaClient` | src/core/blockchain/zilliqa/client.ts | `call`, `getBalance`, `getNonce`, `sendTransaction`, `getFees`, `getSmartContractInit` |
| `ZilliqaStaking` | src/core/blockchain/zilliqa/contracts/staking.ts | the `Staking` class: its implementation cache, the two eligibility checks and the five transaction builders |
| `NearBaseContract` | src/core/blockchain/near/contracts/base-contract.ts | `buildBaseTransaction` |
| `NearTransaction` | src/core/blockchain/near/transaction.ts | `sign`'s action mapping, `buildTransferTransaction`, `buildPosTransaction`, `getTransactionStatusByCode`, `getTransactionAmount` |
| `NearClientUtils` | src/core/blockchain/near/client-utils.ts | `getTransactionStatus` and `buildTransactionFromBlockchain`, including its log matching |
| `WalletActions` | src/redux/wallets/actions/wallet-actions.ts | nonce choice in `sendTransaction`, the `createNearAccount` batch, the balance refresh guard, the dropped-transaction rule, `updateTransactionsStatus` |
| `PasswordModal` | src/components/password-modal/password-modal-component.tsx | the PIN modal as a class: entry points, the `updateState` step machine, wrong-PIN handling, the lock-out check |
| `HandleCta` | src/redux/ui/screens/data/handle-cta.ts | call-to-action sequencing and the list transforms of its handlers |

Modelling choices:

- JavaScript and BigNumber numbers are `Num = Finite(real) | NaN`. Every comparison with NaN is
  false, and `!==` with NaN is true. Arithmetic propagates NaN. This matters in several places,
  for example `new BigNumber(undefined)`.
- Network answers, the keychain, the clock and the chain-specific unit conversions are parameters.
- Code that updates state in place is imperative Dafny:
  - loops are `method`s proved against a specification function;
  - the modal and the staking cache are classes;
  - the batch status list is an array.
- Pure code is functions and lemmas.

## Model

| member | source | states |
|---|---|---|
| AppConstants.FailedLoginBlocking | src/core/constants/app.ts:23-28 | a lock-out duration exists exactly for the counts 3, 6, 9 and 12, and each is positive |
| AppConstants.BlockingDurations | src/core/constants/app.ts:23-28 | the four durations are 5 min, 20 min, 1 h and 24 h in milliseconds |
| AppConstants.BlockingDurationsIncrease | src/core/constants/app.ts:23-28 | a higher lock-out count locks strictly longer |
| AppConstants.WipeAfterEveryLockout | src/core/constants/app.ts:22-28 | every lock-out count lies strictly between 0 and the wipe count 15 |
| AppConstants.NearTld | src/core/constants/app.ts:40-43 | the top-level account is non-empty, and it is "near" exactly on mainnet |
| AppConstants.NearLockupSuffix | src/core/constants/app.ts:44-47 | the lockup suffix starts with a dot, and it is ".lockup.near" exactly on mainnet |
| AppConstants.LockupUnderTld | src/core/constants/app.ts:40-47 | each network's lockup suffix ends with that network's top-level account |
| Strings.ToLower | src/core/blockchain/zilliqa/contracts/staking.ts:152-157 | `toLowerCase` keeps the length and lower-cases every ASCII letter, position by position |
| Strings.ToLowerIdempotent | src/core/blockchain/zilliqa/client.ts:151-162 | lower-casing twice is lower-casing once |
| Strings.IndexOfFrom | src/core/blockchain/ethereum/client.ts:123-128 | `indexOf(p, from)` gives the first occurrence at or after `from`, or -1 exactly when there is none |
| Strings.IndexOf | src/core/blockchain/ethereum/client.ts:123-128 | `indexOf` is -1 exactly when the pattern never occurs; otherwise it is the leftmost occurrence |
| Strings.ReplaceFirst | src/core/blockchain/ethereum/client.ts:40-42 | `replace` with a string pattern changes only the first occurrence and leaves a string without it unchanged |
| Strings.Split | src/core/blockchain/ethereum/client.ts:37 | `split(c)` gives at least one piece, and no piece holds the separator |
| Strings.SplitJoin | src/core/blockchain/ethereum/client.ts:37 | joining the pieces of a split with the separator gives the string back |
| Strings.SplitWithoutSeparator | src/core/blockchain/ethereum/client.ts:37 | a string without the separator splits into itself alone |
| Strings.TrimStart | src/core/blockchain/ethereum/client.ts:45 | the result is a suffix that starts with non-blank, and only blanks were removed |
| Strings.TrimEnd | src/core/blockchain/ethereum/client.ts:45 | the result is a prefix that ends with non-blank, and only blanks were removed |
| Strings.Trim | src/core/blockchain/ethereum/client.ts:45 | the trimmed text neither starts nor ends with white space |
| Strings.TrimKeepsNonBlank | src/core/blockchain/ethereum/client.ts:44-45 | a string with one non-blank character trims to a non-empty string |
| Balance.ConvertAmount | src/core/utils/balance.ts:43-63 | the same token gives `amountFromStd(value)` whatever the rates; an empty value or a missing or zero rate gives 0; otherwise result × rate[to] = amount × rate[from] |
| Balance.SameTokenIgnoresRates | src/core/utils/balance.ts:54-56 | converting a token to itself does not depend on the rates |
| Balance.ConvertThereAndBack | src/core/utils/balance.ts:58-60 | converting a to b and back gives the amount back |
| Balance.CalculateBalance | src/core/utils/balance.ts:10-41 | the loop computes the running sum over the active entries; an account without tokens on the chain gives 0 |
| Balance.ActiveOnly | src/core/utils/balance.ts:16-39 | the active entries are a subset of the entries |
| Balance.InactiveTokensIgnored | src/core/utils/balance.ts:16-39 | the total over all entries equals the total over the active ones |
| Balance.NotRemovableIgnoresRates | src/core/utils/balance.ts:25-26 | for a target token marked not removable, the total is the plain sum of the active entries' parsed balances, so it does not depend on the rates |
| Balance.AddAssociative | src/core/utils/balance.ts:24-38 | BigNumber addition, NaN included, is associative, so the sum's grouping does not matter |
| Balance.SumActiveAppend | src/core/utils/balance.ts:16-39 | the total of two entry lists laid end to end is the sum of their totals |
| AvailableFunds.AmountOrZero | src/core/utils/available-funds.ts:15 | an empty or absent amount reads as 0; otherwise the amount is parsed |
| AvailableFunds.InputAmountToStd | src/core/utils/available-funds.ts:8-16 | the typed amount converted to the smallest unit; an empty or absent amount converts 0 |
| AvailableFunds.AvailableValue | src/core/utils/available-funds.ts:34-36 | the converted `balanceAvailable` when it is given and non-empty, otherwise the token balance as it is |
| AvailableFunds.FeeTotal | src/core/utils/available-funds.ts:46 | without fee options the fee is NaN |
| AvailableFunds.CheckFunds | src/core/utils/available-funds.ts:18-64 | `insufficientFunds` holds iff the input exceeds the available value, and then the fee flag is false. For the native coin the fee flag holds iff fee + input > available. For another token it holds iff fee > the native coin's balance. For a token other than the native coin whose amount fits, the call throws exactly when the account has no native coin entry. |
| AvailableFunds.MissingFeeNeverFlags | src/core/utils/available-funds.ts:46-61 | without fee options the fee flag is never raised |
| AvailableFunds.FeeDeductedOnlyFromNative | src/core/utils/available-funds.ts:66-92 | the fee is subtracted only for the native coin with fee options; a token's available amount is the same with or without fee options |
| AvailableFunds.Spendable | src/core/utils/available-funds.ts:73-80 | the available value less the fee total for the native coin with fee options, the available value otherwise |
| AvailableFunds.AvailableAmount | src/core/utils/available-funds.ts:66-92 | a spendable amount ≥ 0 converted back to display units; a negative or NaN spendable amount gives 0 |
| AvailableFunds.AvailableAmountNonNegative | src/core/utils/available-funds.ts:82-91 | the amount offered is never negative and never NaN |
| AvailableFunds.NativeChecksMatchSpendable | src/core/utils/available-funds.ts:33-80 | for the native coin with a finite fee, the two flags together object exactly when the input exceeds the balance less the fee |
| AvailableFunds.TokenFeeIgnoresTokenBalance | src/core/utils/available-funds.ts:53-61 | once a token's amount fits, the result depends neither on the amount nor on the token balance |
| EthereumClient.HexDigitValue | src/core/blockchain/ethereum/client.ts:19 | a hexadecimal digit's value is below 16 |
| EthereumClient.HexDigit | src/core/blockchain/ethereum/client.ts:19 | the digit written for d reads back as d |
| EthereumClient.ToHex | src/core/blockchain/ethereum/client.ts:19 | a quantity is written as a non-empty run of hexadecimal digits |
| EthereumClient.HexRoundTrip | src/core/blockchain/ethereum/client.ts:19 | reading the hexadecimal text of n gives n |
| EthereumClient.HexRun | src/core/blockchain/ethereum/client.ts:104 | the longest hexadecimal prefix ends at the first non-digit |
| EthereumClient.HexRunOfHex | src/core/blockchain/ethereum/client.ts:104 | an all-hexadecimal text is one run |
| EthereumClient.ParseHexBigOfHex | src/core/blockchain/ethereum/client.ts:17-29 | `new BigNumber("0x" + h, 16)` is the value of h when its letters share one case, and NaN when they mix cases (as in "0xaB") |
| EthereumClient.ParseIntHexOfHex | src/core/blockchain/ethereum/client.ts:103-104 | `parseInt("0x" + h, 16)` is the value of h |
| EthereumClient.QuantityRoundTrip | src/core/blockchain/ethereum/client.ts:17-104 | both readings of a node quantity "0x…" give the quantity back |
| EthereumClient.GetBalance | src/core/blockchain/ethereum/client.ts:17-29 | an answer without a result reads as NaN; a result is read as base 16 |
| EthereumClient.FixAddress | src/core/blockchain/ethereum/client.ts:123-128 | the result holds "0x". An address that already holds "0x" anywhere is unchanged; any other address is prefixed. |
| EthereumClient.FixAddressIdempotent | src/core/blockchain/ethereum/client.ts:123-128 | fixing a fixed address changes nothing |
| EthereumClient.NonEmpty | src/core/blockchain/ethereum/client.ts:43 | `filter(Boolean)` keeps exactly the non-empty pieces, never more than the input, and a list without empty pieces unchanged |
| EthereumClient.NonEmptyAppend | src/core/blockchain/ethereum/client.ts:43 | the filter keeps the order: filtering a list laid end to end gives the two filtered lists laid end to end |
| EthereumClient.ParseSignature | src/core/blockchain/ethereum/client.ts:36-46 | the method name is the text before the first colon; the return types come from the second piece |
| EthereumClient.ReturnTypesTrimmed | src/core/blockchain/ethereum/client.ts:40-45 | no return type starts or ends with white space |
| EthereumClient.ReturnTypesNonEmpty | src/core/blockchain/ethereum/client.ts:40-45 | every return type is non-empty when no piece is all blank |
| EthereumClient.NoColonNoReturnTypes | src/core/blockchain/ethereum/client.ts:36-46 | a signature without a colon is the method name with no return types |
| EthereumClient.DecodedResult | src/core/blockchain/ethereum/client.ts:59-63 | one decoded value is returned alone; any other count is returned as a list of the same length, in order |
| EthereumClient.CalculateFees | src/core/blockchain/ethereum/client.ts:66-121 | rejects exactly when the gas estimate or the gas-station request rejects (`Promise.all`). Otherwise the presets are the four converted gas-station prices and the price is the standard one. The limit is the hex estimate when one was given, else the default. Total = price × limit. |
| EthereumClient.EstimateBecomesGasLimit | src/core/blockchain/ethereum/client.ts:102-112 | when both requests succeed, an estimate "0x…" of n gives limit n and total = the standard price × n |
| ZilliqaClient.Call | src/core/blockchain/zilliqa/client.ts:90-100 | rejects iff the transport threw or the answer carries an error; otherwise resolves with the answer unchanged |
| ZilliqaClient.GetBalance | src/core/blockchain/zilliqa/client.ts:27-41 | a result gives its balance; an answer without a result rejects with a TypeError; "Account is not created" gives 0; any other error rejects |
| ZilliqaClient.GetNonce | src/core/blockchain/zilliqa/client.ts:43-57 | a result gives its nonce + 1; an answer without a result rejects with a TypeError; "Account is not created" gives 0; any other error rejects |
| ZilliqaClient.BalanceAndNonceAgree | src/core/blockchain/zilliqa/client.ts:27-57 | the two resolve for the same answers; an account the node does not know has balance 0 and next nonce 0; a reported nonce ≥ 0 gives a next nonce ≥ 1 |
| ZilliqaClient.SendTransaction | src/core/blockchain/zilliqa/client.ts:71-88 | a result resolves with its TranID. The two node messages reject with their own codes, the underpriced test first. Any other error message resolves without a hash. A thrown transport error passes on as the rejection, and an answer without a result or an error message rejects with a TypeError. |
| ZilliqaClient.UnderpricedFirst | src/core/blockchain/zilliqa/client.ts:80-86 | a message with both texts is reported as underpriced |
| ZilliqaClient.GetFees | src/core/blockchain/zilliqa/client.ts:102-135 | gives fees exactly for a token type with a default limit. The limit is that default. The price is the estimate, or the default when the estimate is missing or throws. Total = price × limit. |
| ZilliqaClient.DefaultFeesFinite | src/core/blockchain/zilliqa/client.ts:115-134 | an estimate that throws, has no result or has an empty one gives the same fees: the finite default price × default limit |
| ZilliqaClient.NormaliseContractAddress | src/core/blockchain/zilliqa/client.ts:151-162 | the address is converted from bech32 if needed, loses its first "0x" and is lower-cased |
| ZilliqaClient.PrefixedAddressStripped | src/core/blockchain/zilliqa/client.ts:151-162 | "0x" + h becomes lower-cased h |
| ZilliqaClient.NormalisedFixedPoint | src/core/blockchain/zilliqa/client.ts:151-162 | an address without "0x" is only lower-cased |
| ZilliqaClient.GetSmartContractInit | src/core/blockchain/zilliqa/client.ts:151-162 | the call goes to the normalised address and resolves with the answer's result exactly when `call` resolves |
| ZilliqaStaking.Staking.constructor | src/core/blockchain/zilliqa/contracts/staking.ts:11-13 | a new instance has no cached implementation and has fetched nothing |
| ZilliqaStaking.Staking.GetContractImplementation | src/core/blockchain/zilliqa/contracts/staking.ts:15-28 | a cached implementation is returned without a fetch. Otherwise one fetch is made, and only a value is cached. |
| ZilliqaStaking.Staking.CanUnstakeFromSsn | src/core/blockchain/zilliqa/contracts/staking.ts:45-83 | true iff the implementation is available and the last reward cycle is a number greater than the deposit cycle (missing deposit = 0). This is the corrected comparison; a true answer is also true for the written `<=` test. Every failed read of the contract state gives false. The implementation cache is left as `getContractImplementation` leaves it, with one fetch exactly when nothing was cached. |
| ZilliqaStaking.Staking.CanWithdrawStakeRewardsFromSsn | src/core/blockchain/zilliqa/contracts/staking.ts:85-140 | true iff the implementation is available, last reward > deposit cycle, and last reward ≠ withdraw cycle (missing = 0). Every failed read of the contract state gives false. The implementation cache is left as `getContractImplementation` leaves it, with one fetch exactly when nothing was cached. |
| ZilliqaStaking.NormaliseAccount | src/core/blockchain/zilliqa/contracts/staking.ts:46-48 | the delegator key is lower-case |
| ZilliqaStaking.CycleOf | src/core/blockchain/zilliqa/contracts/staking.ts:67-76 | a delegator or ssn without an entry has cycle 0 |
| ZilliqaStaking.UnstakeFailsOpenOnNaN | src/core/blockchain/zilliqa/contracts/staking.ts:77 | with the last reward cycle missing, the comparison as written allows unstaking and the intended one does not |
| ZilliqaStaking.UnstakeReadingsAgree | src/core/blockchain/zilliqa/contracts/staking.ts:77 | the intended check implies the written one, and the two agree whenever the last reward cycle is a number |
| ZilliqaStaking.WithdrawImpliesUnstake | src/core/blockchain/zilliqa/contracts/staking.ts:77-136 | whoever may withdraw rewards may unstake |
| ZilliqaStaking.FreshDelegator | src/core/blockchain/zilliqa/contracts/staking.ts:67-136 | a delegator with no deposit or withdraw entry may do both once a positive reward cycle exists |
| ZilliqaStaking.ContractCallFees | src/core/blockchain/zilliqa/contracts/staking.ts:173-184 | builder fees come from `getFees` for a ZRC2 contract call: the ZRC2 default limit and a consistent total |
| ZilliqaStaking.NormaliseValidatorId | src/core/blockchain/zilliqa/contracts/staking.ts:152-157 | a validator id is lower-case; a non-bech32 id is only lower-cased |
| ZilliqaStaking.NormaliseValidatorIdIdempotent | src/core/blockchain/zilliqa/contracts/staking.ts:152-157 | normalising a normalised non-bech32 id changes nothing |
| ZilliqaStaking.Finish | src/core/blockchain/zilliqa/contracts/staking.ts:147-199 | a builder keeps the base transaction's id, nonce, sender, type and status. It writes the contract address, amount, fees, data and PoS action. |
| ZilliqaStaking.ReDelegateStake | src/core/blockchain/zilliqa/contracts/staking.ts:142-203 | amount "0" to the staking contract; tag ReDelegateStake with [ssnaddr = from, to_ssn = to, amount]; method "Stake"; action STAKE with the target's name |
| ZilliqaStaking.DelegateStake | src/core/blockchain/zilliqa/contracts/staking.ts:205-252 | the base amount is kept; tag DelegateStake with the single param ssnaddr; action STAKE with the validator's name |
| ZilliqaStaking.WithdrawStakeAmount | src/core/blockchain/zilliqa/contracts/staking.ts:254-306 | amount "0"; tag WithdrawStakeAmt with [ssnaddr, amt]; method "Unstake"; action UNSTAKE |
| ZilliqaStaking.FindChartFrom | src/core/blockchain/zilliqa/contracts/staking.ts:316 | the first chart at or after `from` with the title, or -1 exactly when there is none |
| ZilliqaStaking.FindChart | src/core/blockchain/zilliqa/contracts/staking.ts:316 | `find` returns a chart with the title, and none exactly when no chart has it |
| ZilliqaStaking.WithdrawStakeRewards | src/core/blockchain/zilliqa/contracts/staking.ts:308-358 | it throws exactly when the intent has no validator or no "Reward" chart. Otherwise: amount "0"; tag WithdrawStakeRewards; the reward value in the params; action CLAIM_REWARD. |
| ZilliqaStaking.CompleteWithdrawal | src/core/blockchain/zilliqa/contracts/staking.ts:360-394 | amount "0"; tag CompleteWithdrawal with no params; action WITHDRAW with no validator name |
| ZilliqaStaking.BuildersShareShape | src/core/blockchain/zilliqa/contracts/staking.ts:142-394 | the four builders ReDelegateStake, DelegateStake, WithdrawStakeAmount and CompleteWithdrawal target the staking contract with consistent ZRC2 fees and keep the base nonce and sender |
| NearBaseContract.BuildBaseTransaction | src/core/blockchain/near/contracts/base-contract.ts:5-38 | a pending contract call with empty `toAddress` and data. The nonce is the client's and the broadcast block is the current one. Amount, fees and token are copied. The additional info is the extra fields plus the block hash, which wins over an extra field of that name. |
| NearBaseContract.BaseIgnoresValidators | src/core/blockchain/near/contracts/base-contract.ts:5-38 | the validators of the intent play no part |
| NearTransaction.ConcreteAction | src/core/blockchain/near/transaction.ts:33-60 | TRANSFER becomes a transfer of the amount. FUNCTION_CALL throws when `data` is null. Otherwise it becomes a call of `data.method` with the default gas: `deposit` gets no arguments and the amount attached, any other method gets `{ amount }` and 0 attached. Any other kind is dropped. |
| NearTransaction.SignActions | src/core/blockchain/near/transaction.ts:33-60 | throws exactly when a function call is asked for and `data` is null. Otherwise it gives one action per known kind, never more than the kinds, and every call carries the default gas. |
| NearTransaction.SignActionsAppend | src/core/blockchain/near/transaction.ts:33-60 | the mapping keeps order: a list laid end to end maps to the two mappings laid end to end, and throws exactly when one half does |
| NearTransaction.SignActionsPointwise | src/core/blockchain/near/transaction.ts:33-60 | with only known kinds and no throw, the i-th action is the mapping of the i-th kind |
| NearTransaction.KnownAll | src/core/blockchain/near/transaction.ts:33-60 | a list of known kinds loses none |
| NearTransaction.Sign | src/core/blockchain/near/transaction.ts:28-89 | it fails exactly when the action list or block hash is missing, or when a function call is asked for on a record whose `data` is null. Otherwise the unsigned transaction has the record's signer, receiver, nonce, key, block hash and mapped actions. |
| NearTransaction.BuildTransferTransaction | src/core/blockchain/near/transaction.ts:91-130 | a pending transfer with the client nonce, the intent's parties, amount and fees, and additional info of exactly the block hash and one TRANSFER action |
| NearTransaction.BuiltTransferSigns | src/core/blockchain/near/transaction.ts:28-130 | a built transfer signs to exactly one transfer of the amount, with the client nonce and the block hash |
| NearTransaction.GetTransactionAmount | src/core/blockchain/near/transaction.ts:166-168 | the amount reported is the record's own amount |
| NearTransaction.TransferAmountReported | src/core/blockchain/near/transaction.ts:166-168 | the amount reported for a built transfer is the intent's amount |
| NearTransaction.StatusByCode | src/core/blockchain/near/transaction.ts:170-178 | SUCCESS iff `SuccessValue` is the empty string, FAILED otherwise |
| NearTransaction.BuildPosTransaction | src/core/blockchain/near/transaction.ts:132-164 | DELEGATE gives, per validator in order, its deposit and then its stake with nonce raised by 2k+1; deposit nonces are unchanged; any other action gives no transaction |
| NearTransaction.DepositNoncesCollide | src/core/blockchain/near/transaction.ts:141-160 | with two validators or more, two transactions of the list share the client nonce |
| NearTransaction.BuildPosTransactionSequential | src/core/blockchain/near/transaction.ts:132-164 | the corrected builder: same list, with the j-th transaction given nonce n + j |
| NearTransaction.SequentialNoncesReserved | src/core/blockchain/near/transaction.ts:141-160 | the corrected list carries the nonces n … n+2N−1, all distinct |
| NearClientUtils.GetTransactionStatus | src/core/blockchain/near/client-utils.ts:21-42 | a cached outcome decides. Otherwise the lookup by address decides. Without either it is undefined. It is never anything but SUCCESS or FAILED. |
| NearClientUtils.RunEnd | src/core/blockchain/near/client-utils.ts:79-84 | `[^ ]*` stops at the first space or the end |
| NearClientUtils.MatchAtSound | src/core/blockchain/near/client-utils.ts:79-84 | a match at i is the literal parts, a space-free X, an optional '@' and a space-free Y, followed by " succeeded" |
| NearClientUtils.MatchAtComplete | src/core/blockchain/near/client-utils.ts:79-84 | every such decomposition is found, with Y stripped of its '@' |
| NearClientUtils.FirstMatchFromLeftmost | src/core/blockchain/near/client-utils.ts:89-94 | the search from `from` stops at the first position that matches |
| NearClientUtils.NoMatchPastEnd | src/core/blockchain/near/client-utils.ts:89-94 | nothing matches past the end of the line |
| NearClientUtils.SearchIsLeftmost | src/core/blockchain/near/client-utils.ts:89-94 | the regular-expression search finds nothing exactly when no position matches, and otherwise the leftmost match |
| NearClientUtils.DigitEnd | src/core/blockchain/near/client-utils.ts:97 | `\d*` stops at the first non-digit |
| NearClientUtils.MatchStakingSound | src/core/blockchain/near/client-utils.ts:97-100 | a staking match comes from a line of the form "@?w staking N." |
| NearClientUtils.MatchStakingComplete | src/core/blockchain/near/client-utils.ts:97-100 | every line of that form gives N |
| NearClientUtils.ApplyLogs | src/core/blockchain/near/client-utils.ts:86-102 | log lines change only the amount, the recipient and the sender |
| NearClientUtils.ApplyPatternsEffect | src/core/blockchain/near/client-utils.ts:89-94 | the four patterns change only the amount, the recipient and the sender |
| NearClientUtils.ApplyReceipts | src/core/blockchain/near/client-utils.ts:86-102 | the receipts change only the amount, the recipient and the sender |
| NearClientUtils.ApplyActions | src/core/blockchain/near/client-utils.ts:69-104 | id, nonce, key and chain are kept; the type becomes CONTRACT_CALL exactly when there is a function call |
| NearClientUtils.FromBlockchain | src/core/blockchain/near/client-utils.ts:44-107 | the id, nonce, key and chain come from the raw data; the status is by code; it is a contract call exactly when an action is a function call |
| NearClientUtils.PatternHitFields | src/core/blockchain/near/client-utils.ts:89-94 | a hit sets amount = X, toAddress = Y without '@', address = the receiver |
| NearClientUtils.PatternsForget | src/core/blockchain/near/client-utils.ts:89-94 | after a hit, the three fields no longer depend on what they were before |
| NearClientUtils.NoHitNoEffect | src/core/blockchain/near/client-utils.ts:89-94 | a line no pattern matches changes nothing |
| NearClientUtils.LastHitWins | src/core/blockchain/near/client-utils.ts:86-102 | after a matching line, the fields are what that line alone gives: the last match wins |
| NearClientUtils.SilentLogNoEffect | src/core/blockchain/near/client-utils.ts:86-102 | a line matching nothing (or an empty staking amount) changes nothing |
| NearClientUtils.StakingLineSetsAmount | src/core/blockchain/near/client-utils.ts:97-100 | a staking line with non-empty N sets the amount to N |
| NearClientUtils.TransfersOnly | src/core/blockchain/near/client-utils.ts:71-75 | only transfers give a TRANSFER record with the last deposit as amount |
| NearClientUtils.ReadPatterns | src/core/blockchain/near/client-utils.ts:89-94 | the pattern loop computes the pattern specification |
| NearClientUtils.ReadLogLine | src/core/blockchain/near/client-utils.ts:88-101 | the per-line code computes the line specification |
| NearClientUtils.ReadReceipts | src/core/blockchain/near/client-utils.ts:86-102 | the nested receipt and log loops compute the receipts specification |
| NearClientUtils.ReadAction | src/core/blockchain/near/client-utils.ts:70-103 | the per-action code computes the action specification |
| NearClientUtils.BuildTransactionFromBlockchain | src/core/blockchain/near/client-utils.ts:44-107 | the method computes `FromBlockchain` |
| WalletActions.Outbound | src/redux/wallets/actions/wallet-actions.ts:762-764 | exactly the account's transactions whose address is the account's |
| WalletActions.FindByNonce | src/redux/wallets/actions/wallet-actions.ts:767 | the first transaction holding the nonce, or none exactly when no transaction holds it |
| WalletActions.MaxNonce | src/redux/wallets/actions/wallet-actions.ts:767-784 | an upper bound on the nonces held, at least the client nonce |
| WalletActions.AssignNonce | src/redux/wallets/actions/wallet-actions.ts:751-787 | Without the feature the nonce is the client nonce + pending. With it, the nonce is the smallest n ≥ client nonce that is free or whose first holder is DROPPED. Nothing else of the transaction changes. |
| WalletActions.NearReusesOnlyFreeNonces | src/redux/wallets/actions/wallet-actions.ts:769-780 | on NEAR the status asked for is always undefined, so a nonce is reused only when no outbound transaction holds it |
| WalletActions.AccountCreationBatch | src/redux/wallets/actions/wallet-actions.ts:1015-1041 | the batch is [dropLink, claim] when the key has no access key, [claim] when it has one; the claim is always last |
| WalletActions.NextNearAccountIndex | src/redux/wallets/actions/wallet-actions.ts:1045-1052 | greater than every NEAR account index; 0 or one more than an existing NEAR index |
| WalletActions.StatusOf | src/redux/wallets/actions/wallet-actions.ts:1066-1110 | an entry is SUCCESS iff it got a hash that polling confirmed, else FAILED |
| WalletActions.FirstThrow | src/redux/wallets/actions/wallet-actions.ts:1066-1119 | the position of the first exception, or the length; nothing threw before it |
| WalletActions.ProcessBatch | src/redux/wallets/actions/wallet-actions.ts:1066-1119 | The statuses become the batch specification and the ids of confirmed entries are recorded. It reports whether an exception ended the loop. |
| WalletActions.MarkDropped | src/redux/wallets/actions/wallet-actions.ts:1112-1116 | every entry from the given one on becomes DROPPED; earlier entries are unchanged |
| WalletActions.DroppedOnlyAfterThrow | src/redux/wallets/actions/wallet-actions.ts:1111-1117 | a DROPPED entry follows a FAILED entry that threw, and everything after it is DROPPED too |
| WalletActions.AllSucceedIffAllConfirmed | src/redux/wallets/actions/wallet-actions.ts:1066-1119 | all entries end SUCCESS iff every transaction was confirmed |
| WalletActions.EarlierEntriesKept | src/redux/wallets/actions/wallet-actions.ts:1066-1119 | entries before the exception do not depend on what comes at or after it |
| WalletActions.FirstThrowAtLeast | src/redux/wallets/actions/wallet-actions.ts:1066-1119 | no exception among the first k entries puts the first exception at k or later |
| WalletActions.ClaimDroppedOnlyWhenDropLinkThrows | src/redux/wallets/actions/wallet-actions.ts:1015-1119 | in a two-entry batch, the claim is DROPPED iff the drop-link threw |
| WalletActions.SourceFor | src/redux/wallets/actions/wallet-actions.ts:398-439 | native uses the chain client, a registered type its token client, any other type none |
| WalletActions.GetTokenBalance | src/redux/wallets/actions/wallet-actions.ts:381-439 | nothing exactly when the guard refuses; otherwise in-progress then the balance, or the error when no client or the client threw |
| WalletActions.ForceFetchesEveryActiveToken | src/redux/wallets/actions/wallet-actions.ts:381-389 | a forced refresh of an active token always fetches |
| WalletActions.InactiveNeverFetched | src/redux/wallets/actions/wallet-actions.ts:381-389 | an inactive or missing token is never fetched |
| WalletActions.RefreshStaysDue | src/redux/wallets/actions/wallet-actions.ts:386-389 | a balance that is due stays due later |
| WalletActions.RecentBalanceNotFetched | src/redux/wallets/actions/wallet-actions.ts:386-389 | unforced, a balance fetched within the refresh interval is not fetched |
| WalletActions.TokensToRefresh | src/redux/wallets/actions/wallet-actions.ts:442-451 | exactly the active tokens of the chain are refreshed |
| WalletActions.TokensToRefreshAppend | src/redux/wallets/actions/wallet-actions.ts:442-451 | the tokens are refreshed in key order: entries laid end to end give the two token lists laid end to end |
| WalletActions.DropOnFailedLookup | src/redux/wallets/actions/wallet-actions.ts:468-494 | a stored transaction is marked DROPPED exactly when its broadcast block is known and more than the threshold of blocks have passed |
| WalletActions.DropStaysDue | src/redux/wallets/actions/wallet-actions.ts:474-477 | once due, the drop stays due at later blocks |
| WalletActions.ApplyLogValues | src/redux/wallets/actions/wallet-actions.ts:1244-1273 | the set of stored ids never changes |
| WalletActions.ApplyLogValuesSnoc | src/redux/wallets/actions/wallet-actions.ts:1253-1266 | one more log entry updates only a known id, with SUCCESS iff `success === true` |
| WalletActions.ApplyReport | src/redux/wallets/actions/wallet-actions.ts:1252-1268 | the loop over one report's log continues the specification |
| WalletActions.UpdateTransactionsStatus | src/redux/wallets/actions/wallet-actions.ts:1244-1273 | the nested loops compute the specification over all log entries |
| WalletActions.StatusUpdateLastWins | src/redux/wallets/actions/wallet-actions.ts:1244-1273 | a known transaction takes the status of the last entry naming it; without such an entry it is untouched. That every other field is kept assumes `TRANSACTION_UPSERT` merges the update into the stored record. |
| WalletActions.LoggedStatusIsFinal | src/redux/wallets/actions/wallet-actions.ts:1258-1264 | a logged status is SUCCESS or FAILED; there is none exactly when no entry names the id |
| PasswordModal.ThresholdsSorted | src/components/password-modal/password-modal-component.tsx:220-222 | the thresholds are the lock-out counts and the wipe count, strictly decreasing |
| PasswordModal.NextThresholdIsSmallest | src/components/password-modal/password-modal-component.tsx:224-229 | the index loop picks the smallest threshold above the counter |
| PasswordModal.RemainingAttempts | src/components/password-modal/password-modal-component.tsx:219-231 | the loop computes next threshold − counter − 1 |
| PasswordModal.AttemptsReachNextThreshold | src/components/password-modal/password-modal-component.tsx:219-231 | the attempts left are ≥ 0 and reach exactly the next threshold |
| PasswordModal.AttemptsMessage | src/components/password-modal/password-modal-component.tsx:233-242 | the last-attempt message exactly at 14; otherwise the count of attempts left |
| PasswordModal.PasswordModalComponent.constructor | src/components/password-modal/password-modal-component.tsx:83-98 | the initial state: a hidden modal with no step, no PIN and no message, biometry on, no back button, attempts not counted; it carries the store's counter and lock-out time |
| PasswordModal.PasswordModalComponent.GetPassword | src/components/password-modal/password-modal-component.tsx:143-171 | shows ENTER_PIN with attempts counted and no back button; it rejects at once when a PIN is required and none is stored |
| PasswordModal.PasswordModalComponent.CreatePassword | src/components/password-modal/password-modal-component.tsx:173-189 | shows CREATE_PIN_TERMS with attempts not counted and back allowed |
| PasswordModal.PasswordModalComponent.ChangePassword | src/components/password-modal/password-modal-component.tsx:191-207 | shows CHANGE_PIN_TERMS with attempts counted and back allowed |
| PasswordModal.PasswordModalComponent.OnBackButtonTap | src/components/password-modal/password-modal-component.tsx:209-213 | hides the modal and rejects a promise not yet settled |
| PasswordModal.PasswordModalComponent.HandlePasswordAttempts | src/components/password-modal/password-modal-component.tsx:219-243 | sets the attempts message for the current counter and nothing else |
| PasswordModal.PasswordModalComponent.HandleWrongPassword | src/components/password-modal/password-modal-component.tsx:245-268 | performs exactly the wrong-PIN transition |
| PasswordModal.PasswordModalComponent.UpdateState | src/components/password-modal/password-modal-component.tsx:271-356 | performs exactly the step-machine transition |
| PasswordModal.PasswordModalComponent.EnterPinFlow | src/components/password-modal/password-modal-component.tsx:279-289 | the ENTER_PIN branch |
| PasswordModal.PasswordModalComponent.CreatePinFlow | src/components/password-modal/password-modal-component.tsx:292-312 | the create branches |
| PasswordModal.PasswordModalComponent.ChangePinFlow | src/components/password-modal/password-modal-component.tsx:315-351 | the change branches |
| PasswordModal.PasswordModalComponent.ChangePinCurrentFlow | src/components/password-modal/password-modal-component.tsx:322-333 | CHANGE_PIN_CURRENT: a valid PIN moves on and keeps it; a wrong one is a wrong PIN |
| PasswordModal.PasswordModalComponent.ChangePinConfirmFlow | src/components/password-modal/password-modal-component.tsx:340-350 | CHANGE_PIN_CONFIRM: a match calls `changePIN(new, old)`, saves and resolves; a mismatch is a wrong PIN |
| PasswordModal.PasswordModalComponent.IsMoonletDisabled | src/components/password-modal/password-modal-component.tsx:417-423 | disabled iff a lock-out time is set and later than now |
| PasswordModal.WrongPinKeepsCounterInRange | src/components/password-modal/password-modal-component.tsx:245-268 | a wrong PIN keeps the counter within 0 … 14 |
| PasswordModal.NextKeepsCounterInRange | src/components/password-modal/password-modal-component.tsx:271-356 | every step-machine transition keeps the counter within 0 … 14 |
| PasswordModal.RespondCounter | src/components/password-modal/password-modal-component.tsx:271-356 | a transition leaves the counter as it was, resets it, or applies one wrong PIN |
| PasswordModal.UnlockResets | src/components/password-modal/password-modal-component.tsx:279-286 | a valid PIN or a biometric login clears the counter and the lock-out, hides the modal and resolves with what was typed |
| PasswordModal.UncountedWrongPinOnlyWarns | src/components/password-modal/password-modal-component.tsx:265-267 | without attempts counted, a wrong PIN only shows the invalid-PIN message |
| PasswordModal.CountedWrongPin | src/components/password-modal/password-modal-component.tsx:248-251 | a counted wrong PIN short of the wipe increments the counter and shows what is left; the step, PINs and promise are kept |
| PasswordModal.LockOutLastsItsDuration | src/components/password-modal/password-modal-component.tsx:253-256 | reaching a lock-out count disables the app exactly until now + the table's duration |
| PasswordModal.FifteenthWrongPinWipes | src/components/password-modal/password-modal-component.tsx:258-264 | the 15th counted wrong PIN wipes the data, hides the modal and resets the counter |
| PasswordModal.FourteenthWrongPinWarns | src/components/password-modal/password-modal-component.tsx:234-238 | the 14th shows the last-attempt warning and locks nothing |
| PasswordModal.CreateFlowResolves | src/components/password-modal/password-modal-component.tsx:292-312 | terms, a PIN, the same PIN: resolves with it, saves it once, counts nothing |
| PasswordModal.CreateMismatchStays | src/components/password-modal/password-modal-component.tsx:303-311 | a mismatching confirmation keeps the step and only shows the message |
| PasswordModal.ChangeFlowResolves | src/components/password-modal/password-modal-component.tsx:315-351 | terms, accepted current PIN, new PIN twice: calls `changePIN(new, old)`, saves and resolves with the new PIN; attempts are off after the new PIN |
| PasswordModal.ChangeRejectsWrongCurrent | src/components/password-modal/password-modal-component.tsx:322-333 | a current PIN not confirmed keeps the step and counts a failure |
| HandleCta.HandleCtaActions | src/redux/ui/screens/data/handle-cta.ts:54-73 | no cta does nothing. An actions list is handled in order up to and including the first action that rejects, and `handleCta` then rejects; otherwise every action is handled. Without a list the cta itself is the one action. |
| HandleCta.ClaimRewardValidators | src/redux/ui/screens/data/handle-cta.ts:95-119 | one validator per listed entry, in order; else a single one from the id and name |
| HandleCta.WithdrawValidators | src/redux/ui/screens/data/handle-cta.ts:121-140 | a validator is passed exactly when both id and name are truthy |
| HandleCta.ValidatorKey | src/redux/ui/screens/data/handle-cta.ts:277-299 | the id when truthy, else the address |
| HandleCta.FromInputData | src/redux/ui/screens/data/handle-cta.ts:256-274 | at most one delegation per input entry; with FromInputDataOne and FromInputDataAppend, exactly one per qualifying entry, in entry order |
| HandleCta.FromInputDataAppend | src/redux/ui/screens/data/handle-cta.ts:256-274 | the delegations of entries laid end to end are the two lists of delegations laid end to end |
| HandleCta.FromInputDataOne | src/redux/ui/screens/data/handle-cta.ts:256-274 | one entry gives its delegation (its validator key and converted amount) exactly when it has a validator and an amount > 0, otherwise nothing |
| HandleCta.DelegateToValidatorV2 | src/redux/ui/screens/data/handle-cta.ts:231-309 | the loops build the input delegations followed by the parameter delegations |
| HandleCta.InputDelegationsArePositive | src/redux/ui/screens/data/handle-cta.ts:256-274 | every input delegation comes from an entry with a validator and a positive amount |
| HandleCta.AllQualifyingEntriesDelegated | src/redux/ui/screens/data/handle-cta.ts:256-274 | all entries qualifying gives one delegation each; none qualifying gives none |
| HandleCta.ParamsShareTheSplit | src/redux/ui/screens/data/handle-cta.ts:277-299 | one delegation per parameter validator, all with the same split amount |
| HandleCta.FindIndex | src/redux/ui/screens/data/handle-cta.ts:471-494 | the first index of the reason, -1 exactly when it is absent |
| HandleCta.SwitchNodeSelectReasons | src/redux/ui/screens/data/handle-cta.ts:471-494 | the stored list (or []) with the reason toggled |
| HandleCta.ToggleCounts | src/redux/ui/screens/data/handle-cta.ts:471-494 | an absent reason is added once; a present one loses one occurrence |
| HandleCta.ToggleKeepsOrder | src/redux/ui/screens/data/handle-cta.ts:471-494 | an absent reason goes to the end; a present one's first occurrence is removed and the rest keep their order |
| HandleCta.ToggleTwiceRestoresAbsent | src/redux/ui/screens/data/handle-cta.ts:471-494 | toggling an absent reason twice restores the list |
| HandleCta.ToggleTwiceMovesPresentToEnd | src/redux/ui/screens/data/handle-cta.ts:471-494 | toggling a reason selected once, twice, removes it from its place and appends it at the end, so it does not restore the list |
| HandleCta.LowerOpt | src/redux/ui/screens/data/handle-cta.ts:599-604 | `?.toLowerCase()` is undefined exactly on undefined |
| HandleCta.StakeNowValidator | src/redux/ui/screens/data/handle-cta.ts:606-616 | the dummy validator has the address when truthy, else the id, and the name |
| HandleCta.WithoutMoonlet | src/redux/ui/screens/data/handle-cta.ts:599-616 | the filter never adds a validator; with WithoutMoonletOne and WithoutMoonletAppend, every non-Moonlet validator is kept, in order |
| HandleCta.WithoutMoonletAppend | src/redux/ui/screens/data/handle-cta.ts:599-616 | the validators kept from lists laid end to end are the two kept lists laid end to end |
| HandleCta.WithoutMoonletOne | src/redux/ui/screens/data/handle-cta.ts:599-616 | one validator is kept, keyed by its address or else its id, exactly when neither its address nor its id is the Moonlet id ignoring case |
| HandleCta.MoonletRemoved | src/redux/ui/screens/data/handle-cta.ts:599-604 | every kept validator comes from one whose address and id both differ from the moonlet id |
| HandleCta.MoonletFilterBounds | src/redux/ui/screens/data/handle-cta.ts:599-616 | all kept when none matches; none kept when all match |
| HandleCta.MoonletMatchIgnoresCase | src/redux/ui/screens/data/handle-cta.ts:599-604 | an id equal to the moonlet id up to case is removed |
| HandleCta.MinAmountToStake | src/redux/ui/screens/data/handle-cta.ts:872-918 | the minimum is the parameter when truthy, else 100; never 0 or NaN |
| HandleCta.CheckAmountRoute | src/redux/ui/screens/data/handle-cta.ts:872-918 | part-to-moonlet iff amount > minimum, else `delegateToValidatorV2` |
| HandleCta.CheckAmountDefaults | src/redux/ui/screens/data/handle-cta.ts:872-918 | without a minimum the bar is 100; a NaN amount always goes to `delegateToValidatorV2` |
| HandleCta.CheckAmountMonotone | src/redux/ui/screens/data/handle-cta.ts:872-918 | a larger amount never leaves the part-to-moonlet route |

## Left out

- I/O of every kind is replaced by parameters standing for its result. This covers:
  - JSON-RPC and HTTP calls, the gas-station `fetch`, `Promise.all`;
  - the keychain, the clock, the biometric prompt.
- Sentry reporting, navigation, dialogs, loading modals, titles and subtitles, and the countdown timer of the PIN modal are left out. So are the `TRANSACTION_PUBLISHED` dispatch and the `TRANSACTION_UPSERT` reducer, which is not part of this model.
- The following are parameters: cryptography, key pairs, Borsh encoding, bech32 conversion, ABI encoding and decoding, and the chain-specific `amountToStd`, `amountFromStd` and `toString`.
- `buildDropLinkTransaction`, `buildClaimAccountTransaction`, `buildDummyValidator` and `splitStake` are not part of this model; their results are inputs.
- Decimal rounding of BigNumber and JavaScript's `Number` and `parseFloat` conversions are parameters. Numbers are exact reals, with NaN.
- `Strings.ToLower` only lower-cases ASCII letters; `toLowerCase` on other characters is not modelled.
- Strings.Trim: only ASCII white space is trimmed, not the other Unicode space characters `trim` removes.
- A missing `tokens[chainId]` entry in `getBalance` makes the source throw; the model takes the entry as given.
- The `wallet === undefined` early return of `getBalance` is not modelled.
- The ethereum `sendTransaction` is left out; it only forwards the node's result. So is the `replace('0x', '')` of the call result before decoding.
- The Zilliqa `getCurrentBlock`, `getSmartContractSubState` and the address conversion inside `getBalance` and `getNonce` are left out: they only pass values through to the node.
- `getMinDelegateStake` of the staking contract is left out.
- ZilliqaStaking.ContractCallFees, ReDelegateStake, DelegateStake, WithdrawStakeAmount, WithdrawStakeRewards, CompleteWithdrawal and BuildersShareShape require a ZRC2 gas limit in the fee configuration. The deployed configuration always has one; `getFees` on a configuration without one is modelled only by `ZilliqaClient.GetFees`.
- In the PIN modal, the store's counter is read after `incrementFailedLogins` as its new value. The staleness of React props is not modelled.
- `MNEMONIC_LENGTH` (12) is a constant of the model with nothing to prove about it.
- The refresh guard of `getBalance` compares against `10 * 3600` milliseconds (36 seconds), as written.
- On NEAR, the nonce loop of `sendTransaction` asks `getTransactionStatus` without an address. The answer is therefore always undefined, never DROPPED (`WalletActions.NearReusesOnlyFreeNonces`).
- ZilliqaStaking.Staking.CanUnstakeFromSsn: decides with the corrected comparison `UnstakeAllowed` instead of the written `<=` test of staking.ts:77. The two differ only when the last reward cycle is NaN: the source then answers true and the model false (Findings, `UnstakeFailsOpenOnNaN`).
- EthereumClient.ParseHexBig: white space around the digits, a `+` sign and a fractional part, which bignumber.js also accepts, read as NaN here. Node quantities carry none of them.
- EthereumClient.CalculateFees: the default gas price and default presets of the configuration are never reached, because the gas-station response is always an object. The model therefore has no branch for them.
- Toggling a present reason twice does not restore the list: it moves the reason to the end (`HandleCta.ToggleTwiceMovesPresentToEnd`). The restore property holds only for an absent reason.

## Findings

| source | as written | input that shows it | evidently intended | confidence | as-written member | corrected member |
|---|---|---|---|---|---|---|
| src/core/blockchain/zilliqa/contracts/staking.ts:77 | `canUnstakeFromSsn` returns false only when `lastRewardCycle <= depositCycle` and true otherwise. A NaN last reward cycle therefore allows unstaking: the check fails open. | an answer whose `lastrewardcycle` field is missing, so `Number(undefined)` is NaN | unstake only when the last reward cycle is a number greater than the deposit cycle, as `canWithdrawStakeRewardsFromSsn` does with `>` | medium, not executed | ZilliqaStaking.UnstakeFailsOpenOnNaN | ZilliqaStaking.UnstakeReadingsAgree |
| src/core/blockchain/near/transaction.ts:141-160 | only the stake transaction's nonce is raised by the queue length; every deposit keeps the client nonce | a DELEGATE with two validators and client nonce n: the deposits at positions 0 and 2 both carry n | the j-th transaction carries nonce n + j, so all are distinct | medium, not executed | NearTransaction.DepositNoncesCollide | NearTransaction.SequentialNoncesReserved |
