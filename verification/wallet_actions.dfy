/** The transaction orchestration of the wallet (src/redux/wallets/actions/wallet-actions.ts):
    the nonce given to a transaction before it is signed, the NEAR account-creation batch, the
    balance refresh, the dropped-transaction rule and the status-log update. What the chain,
    the signer and the store answer are parameters. */
module WalletActions {
  import opened Common
  import opened Transactions
  import NearClientUtils

  // ---------------------------------------------------------------------------------------
  // Nonce reconciliation (sendTransaction)
  // ---------------------------------------------------------------------------------------

  /** The transactions of the account sent from `address`, in store order
      (`filter(t => t.address === account.address)`). */
  function Outbound(txs: seq<Transaction>, address: string): (r: seq<Transaction>)
    ensures forall t :: t in r <==> t in txs && t.address == address
  {
    if |txs| == 0 then []
    else
      var last := txs[|txs| - 1];
      Outbound(txs[..|txs| - 1], address) + (if last.address == address then [last] else [])
  }

  /** `find(t => t.nonce === n)`: the position of the first transaction holding nonce `n`. */
  function FindByNonce(xs: seq<Transaction>, n: int): (r: Option<nat>)
    ensures r.Some? ==> r.value < |xs| && xs[r.value].nonce == n
    ensures r.Some? ==> forall j :: 0 <= j < r.value ==> xs[j].nonce != n
    ensures r.None? ==> forall j :: 0 <= j < |xs| ==> xs[j].nonce != n
  {
    if |xs| == 0 then None
    else if xs[0].nonce == n then Some(0)
    else
      match FindByNonce(xs[1..], n)
      case None => None
      case Some(k) => Some(k + 1)
  }

  /** Nonce `n` may be given to the new transaction: no outbound transaction holds it, or the
      first one that does is reported DROPPED. */
  predicate Reusable(outbound: seq<Transaction>, n: int, statusOf: Transaction -> Option<TxStatus>)
  {
    var found := FindByNonce(outbound, n);
    found.None? || statusOf(outbound[found.value]) == Some(Dropped)
  }

  /** The largest nonce held by a transaction of `xs`, or `lo` when that is larger. */
  function MaxNonce(xs: seq<Transaction>, lo: int): (m: int)
    ensures m >= lo
    ensures forall t :: t in xs ==> t.nonce <= m
  {
    if |xs| == 0 then lo
    else
      var rest := MaxNonce(xs[1..], lo);
      assert forall t :: t in xs ==> t == xs[0] || t in xs[1..];
      if xs[0].nonce > rest then xs[0].nonce else rest
  }

  /** The nonce `sendTransaction` signs `tx` with. `clientNonce` is `client.getNonce`,
      `pending` the number of pending transactions of the store, `improvedNonce` the remote
      IMPROVED_NONCE feature, `accountTransactions` the selected account's transactions and
      `statusOf` what `client.utils.getTransactionStatus` answers for one of them. Without the
      feature the nonce is the client's plus the pending count; with it, the pending count is
      dropped and the smallest nonce from the client's on that is free or whose first holder
      was dropped is chosen. */
  method AssignNonce(tx: Transaction, clientNonce: int, pending: nat, improvedNonce: bool,
                     accountTransactions: seq<Transaction>, address: string,
                     statusOf: Transaction -> Option<TxStatus>) returns (signed: Transaction)
    ensures signed == tx.(nonce := signed.nonce)
    ensures !improvedNonce ==> signed.nonce == clientNonce + pending
    ensures improvedNonce ==> clientNonce <= signed.nonce
    ensures improvedNonce ==> Reusable(Outbound(accountTransactions, address), signed.nonce, statusOf)
    ensures improvedNonce ==> forall n :: clientNonce <= n < signed.nonce ==>
      !Reusable(Outbound(accountTransactions, address), n, statusOf)
  {
    var nonce := clientNonce;
    signed := tx.(nonce := nonce + pending);
    if improvedNonce {
      var outbound := Outbound(accountTransactions, address);
      var bound := MaxNonce(outbound, clientNonce);
      var outTx := FindByNonce(outbound, nonce);
      while outTx.Some?
        invariant clientNonce <= nonce
        invariant outTx == FindByNonce(outbound, nonce)
        invariant outTx.Some? ==> nonce <= bound
        invariant forall n :: clientNonce <= n < nonce ==> !Reusable(outbound, n, statusOf)
        decreases bound - nonce + 1
      {
        if statusOf(outbound[outTx.value]) == Some(Dropped) {
          break;
        }
        nonce := nonce + 1;
        outTx := FindByNonce(outbound, nonce);
        if outTx.Some? {
          assert outbound[outTx.value] in outbound;
        }
      }
      signed := signed.(nonce := nonce);
    }
  }

  /** On NEAR the loop asks for the status with neither a cached outcome nor an address, so
      the answer is always undefined and never DROPPED: a nonce is reused only when no outbound
      transaction holds it. */
  lemma NearReusesOnlyFreeNonces(outbound: seq<Transaction>, n: int, chainId: string,
                                 statusOf: Transaction -> Option<TxStatus>,
                                 lookup: Transaction -> Option<NearClientUtils.ChainTx>)
    requires forall t :: statusOf(t) == NearClientUtils.GetTransactionStatus(None, None, lookup(t), chainId)
    ensures Reusable(outbound, n, statusOf) <==> forall t :: t in outbound ==> t.nonce != n
  {
    var found := FindByNonce(outbound, n);
    if found.Some? {
      assert outbound[found.value] in outbound;
      assert statusOf(outbound[found.value]).None?;
    } else {
      forall t | t in outbound
        ensures t.nonce != n
      {
        var j :| 0 <= j < |outbound| && outbound[j] == t;
      }
    }
  }

  // ---------------------------------------------------------------------------------------
  // NEAR account creation (createNearAccount)
  // ---------------------------------------------------------------------------------------

  /** `viewKeyRes && viewKeyRes.result && viewKeyRes.result.permission`: the public key already
      has an access key on the network. `viewKey` is None when there is no response, Some(None)
      when it has no result, Some(Some(p)) with `p` the truthiness of its permission. */
  predicate KeyExists(viewKey: Option<Option<bool>>)
  {
    viewKey.Some? && viewKey.value.Some? && viewKey.value.value
  }

  /** The batch `createNearAccount` submits: the drop-link transaction (only when the key has
      no access key yet) and then the claim of the new account. */
  method AccountCreationBatch(viewKey: Option<Option<bool>>, dropLink: Transaction, claim: Transaction)
    returns (txs: seq<Transaction>)
    ensures |txs| == if KeyExists(viewKey) then 1 else 2
    ensures txs[|txs| - 1] == claim
    ensures !KeyExists(viewKey) ==> txs[0] == dropLink
  {
    txs := [];
    if !KeyExists(viewKey) {
      txs := txs + [dropLink];
    }
    txs := txs + [claim];
  }

  /** An account of the selected wallet as the index search sees it. */
  datatype WalletAccount = WalletAccount(blockchain: string, index: nat)

  const NEAR: string := "NEAR"

  /** The index of the new NEAR account: one more than the largest index of the wallet's NEAR
      accounts, 0 when it has none. */
  method NextNearAccountIndex(accounts: seq<WalletAccount>) returns (index: nat)
    ensures forall a :: a in accounts && a.blockchain == NEAR ==> a.index < index
    ensures index == 0 || exists a :: a in accounts && a.blockchain == NEAR && a.index == index - 1
  {
    var newAccountIndex: int := -1;
    var i := 0;
    while i < |accounts|
      invariant 0 <= i <= |accounts|
      invariant -1 <= newAccountIndex
      invariant forall j :: 0 <= j < i && accounts[j].blockchain == NEAR ==> accounts[j].index < newAccountIndex
      invariant newAccountIndex == -1 || exists j :: 0 <= j < i && accounts[j].blockchain == NEAR
                                                    && accounts[j].index == newAccountIndex - 1
    {
      var acc := accounts[i];
      if acc.blockchain == NEAR && acc.index >= newAccountIndex {
        newAccountIndex := acc.index + 1;
      }
      i := i + 1;
    }
    index := if newAccountIndex == -1 then 0 else newAccountIndex;
    forall a | a in accounts && a.blockchain == NEAR
      ensures a.index < index
    {
      var j :| 0 <= j < |accounts| && accounts[j] == a;
    }
    if newAccountIndex != -1 {
      var j :| 0 <= j < |accounts| && accounts[j].blockchain == NEAR && accounts[j].index == newAccountIndex - 1;
      assert accounts[j] in accounts;
    }
  }

  /** What signing, sending and polling one transaction of the batch gave: an exception, or
      the hash `sendTransaction` answered and what `getTransactionStatusPolling` answered. */
  datatype SendOutcome = Threw | Sent(txHash: Option<string>, polled: Option<string>)

  /** A truthy hash that the polling confirmed. */
  predicate Confirmed(o: SendOutcome)
  {
    o.Sent? && Truthy(o.txHash) && o.polled == o.txHash
  }

  /** The status of an entry whose transaction did not throw. */
  function StatusOf(o: SendOutcome): (r: TxStatus)
    ensures r == Success <==> Confirmed(o)
    ensures r == Success || r == Failed
  {
    if Confirmed(o) then Success else Failed
  }

  /** The position of the first exception, or the length when none is thrown. */
  function FirstThrow(os: seq<SendOutcome>): (k: nat)
    ensures k <= |os|
    ensures forall j :: 0 <= j < k ==> !os[j].Threw?
    ensures k < |os| ==> os[k].Threw?
  {
    if |os| == 0 then 0
    else if os[0].Threw? then 0
    else 1 + FirstThrow(os[1..])
  }

  /** The statuses the batch ends with: each entry before the first exception by its own
      outcome, the throwing entry FAILED, and every later one DROPPED. */
  function BatchStatuses(os: seq<SendOutcome>): seq<TxStatus>
  {
    var k := FirstThrow(os);
    seq(|os|, i requires 0 <= i < |os| => if i < k then StatusOf(os[i]) else if i == k then Failed else Dropped)
  }

  /** The loop of `createNearAccount` over the batch: `statuses` and `ids` are the process
      screen's per-entry status and transaction id, `outcomes` what each entry's signing,
      sending and polling gave. Returns whether an exception ended the loop (it is rethrown). */
  method ProcessBatch(statuses: array<TxStatus>, ids: array<Option<string>>, outcomes: seq<SendOutcome>)
    returns (thrown: bool)
    requires statuses.Length == |outcomes| && ids.Length == |outcomes|
    modifies statuses, ids
    ensures statuses[..] == BatchStatuses(outcomes)
    ensures thrown <==> FirstThrow(outcomes) < |outcomes|
    ensures forall i :: 0 <= i < ids.Length ==>
      ids[i] == if i < FirstThrow(outcomes) && Confirmed(outcomes[i]) then outcomes[i].txHash else old(ids[i])
  {
    var index := 0;
    while index < statuses.Length
      invariant 0 <= index <= statuses.Length
      invariant index <= FirstThrow(outcomes)
      invariant forall j :: 0 <= j < index ==> statuses[j] == StatusOf(outcomes[j])
      invariant forall j :: 0 <= j < ids.Length ==>
        ids[j] == if j < index && Confirmed(outcomes[j]) then outcomes[j].txHash else old(ids[j])
    {
      match outcomes[index]
      case Threw =>
        statuses[index] := Failed;
        MarkDropped(statuses, index + 1);
        assert FirstThrow(outcomes) == index;
        assert statuses[..] == BatchStatuses(outcomes);
        return true;
      case Sent(txHash, polled) =>
        if Truthy(txHash) {
          if Truthy(polled) && polled == txHash {
            ids[index] := txHash;
            statuses[index] := Success;
          } else {
            statuses[index] := Failed;
          }
        } else {
          statuses[index] := Failed;
        }
      index := index + 1;
    }
    assert statuses[..] == BatchStatuses(outcomes);
    thrown := false;
  }

  /** The entries from `from` on are marked DROPPED; the earlier ones are left as they are. */
  method MarkDropped(statuses: array<TxStatus>, from: nat)
    requires from <= statuses.Length
    modifies statuses
    ensures forall j :: 0 <= j < from ==> statuses[j] == old(statuses[j])
    ensures forall j :: from <= j < statuses.Length ==> statuses[j] == Dropped
  {
    var i := from;
    while i < statuses.Length
      invariant from <= i <= statuses.Length
      invariant forall j :: 0 <= j < from ==> statuses[j] == old(statuses[j])
      invariant forall j :: from <= j < i ==> statuses[j] == Dropped
    {
      statuses[i] := Dropped;
      i := i + 1;
    }
  }

  /** A DROPPED entry follows an entry that threw and was marked FAILED, and every entry after
      it is DROPPED too. */
  lemma DroppedOnlyAfterThrow(os: seq<SendOutcome>, j: nat)
    requires j < |os| && BatchStatuses(os)[j] == Dropped
    ensures exists i :: 0 <= i < j && os[i].Threw? && BatchStatuses(os)[i] == Failed
    ensures forall k :: j <= k < |os| ==> BatchStatuses(os)[k] == Dropped
  {
    var i := FirstThrow(os);
    assert i < j && os[i].Threw? && BatchStatuses(os)[i] == Failed;
  }

  /** Every entry ends SUCCESS exactly when every transaction got a hash its polling
      confirmed. */
  lemma AllSucceedIffAllConfirmed(os: seq<SendOutcome>)
    ensures (forall i :: 0 <= i < |os| ==> BatchStatuses(os)[i] == Success)
        <==> (forall i :: 0 <= i < |os| ==> Confirmed(os[i]))
  {
    var k := FirstThrow(os);
    if k < |os| {
      assert BatchStatuses(os)[k] == Failed && !Confirmed(os[k]);
    } else {
      assert forall i :: 0 <= i < |os| ==> BatchStatuses(os)[i] == StatusOf(os[i]);
    }
  }

  /** The entries before the first exception end as if the batch had stopped there: what comes
      at and after the exception does not change them. */
  lemma EarlierEntriesKept(os: seq<SendOutcome>, rest: seq<SendOutcome>)
    requires FirstThrow(os) < |os|
    ensures var k := FirstThrow(os);
      BatchStatuses(os[..k] + rest)[..k] == BatchStatuses(os)[..k]
  {
    var k := FirstThrow(os);
    var other := os[..k] + rest;
    assert forall j :: 0 <= j < k ==> other[j] == os[j];
    FirstThrowAtLeast(other, k);
    var a, b := BatchStatuses(other), BatchStatuses(os);
    assert |a| >= k && |b| >= k;
    forall j | 0 <= j < k
      ensures a[j] == b[j]
    {
      assert a[j] == StatusOf(other[j]);
      assert b[j] == StatusOf(os[j]);
    }
  }

  /** A list whose first `k` outcomes did not throw has its first exception at `k` or later. */
  lemma {:induction false} FirstThrowAtLeast(os: seq<SendOutcome>, k: nat)
    requires k <= |os|
    requires forall j :: 0 <= j < k ==> !os[j].Threw?
    ensures FirstThrow(os) >= k
  {
    if k > 0 {
      assert !os[0].Threw?;
      FirstThrowAtLeast(os[1..], k - 1);
    }
  }

  /** In the two-entry batch (drop-link, claim), the claim is DROPPED exactly when the drop-link
      transaction threw; a drop-link that merely failed still lets the claim be attempted. */
  lemma ClaimDroppedOnlyWhenDropLinkThrows(os: seq<SendOutcome>)
    requires |os| == 2
    ensures BatchStatuses(os)[1] == Dropped <==> os[0].Threw?
  {
  }

  // ---------------------------------------------------------------------------------------
  // Balance refresh (getBalance)
  // ---------------------------------------------------------------------------------------

  /** `balance` of a token entry: whether a request is under way and when it last finished. */
  datatype BalanceInfo = BalanceInfo(inProgress: bool, timestamp: Option<int>)

  /** A token entry of an account on one chain. */
  datatype TokenEntry = TokenEntry(active: bool, balance: Option<BalanceInfo>)

  /** `10 * 3600`: how old a balance must be, in milliseconds, before it is fetched again. */
  const BALANCE_REFRESH_MS: int := 10 * 3600

  /** The token is active and its balance is fetched: forced, or not in progress and last
      fetched more than `BALANCE_REFRESH_MS` ago (a missing time counts as 0). `entry` is
      None when the account has no such token. */
  predicate ShouldFetchBalance(entry: Option<TokenEntry>, force: bool, now: int)
  {
    entry.Some? && entry.value.active &&
    (force ||
      var b := entry.value.balance;
      var inProgress := b.Some? && b.value.inProgress;
      var timestamp := if b.Some? && b.value.timestamp.Some? then b.value.timestamp.value else 0;
      !inProgress && timestamp + BALANCE_REFRESH_MS < now)
  }

  /** Which client answers for a token: the chain client for the native coin, the client
      registered for the token type, or none. */
  datatype BalanceSource = ChainClient | TokenClient(tokenType: TokenType) | NoClient

  function SourceFor(tokenType: TokenType, registered: set<TokenType>): (r: BalanceSource)
    ensures r == ChainClient <==> tokenType == Native
    ensures r == NoClient <==> tokenType != Native && tokenType !in registered
    ensures r.TokenClient? ==> r.tokenType == tokenType && tokenType in registered
  {
    if tokenType == Native then ChainClient
    else if tokenType in registered then TokenClient(tokenType)
    else NoClient
  }

  /** The actions `getBalance` dispatches for one token. */
  datatype BalanceAction = BalanceRequested | BalanceReceived(balance: string) | BalanceFailed

  /** `getBalance` for one token: nothing, or the in-progress action followed by the balance
      or the error. `answer` is what the chosen client's `getBalance` resolved to, None when it
      threw. */
  function GetTokenBalance(entry: Option<TokenEntry>, force: bool, now: int, tokenType: TokenType,
                           registered: set<TokenType>, answer: Option<string>): (r: seq<BalanceAction>)
    ensures |r| == 0 <==> !ShouldFetchBalance(entry, force, now)
    ensures |r| != 0 ==> |r| == 2 && r[0] == BalanceRequested
    ensures |r| != 0 ==> (r[1].BalanceReceived? <==> SourceFor(tokenType, registered) != NoClient && answer.Some?)
    ensures |r| != 0 && r[1].BalanceReceived? ==> r[1].balance == answer.value
    ensures |r| != 0 && !r[1].BalanceReceived? ==> r[1] == BalanceFailed
  {
    if !ShouldFetchBalance(entry, force, now) then []
    else
      var result :=
        match SourceFor(tokenType, registered)
        case NoClient => BalanceFailed
        case _ => if answer.Some? then BalanceReceived(answer.value) else BalanceFailed;
      [BalanceRequested, result]
  }

  /** A forced refresh of an active token always asks the client. */
  lemma ForceFetchesEveryActiveToken(entry: TokenEntry, now: int)
    requires entry.active
    ensures ShouldFetchBalance(Some(entry), true, now)
  {
  }

  /** An inactive or missing token is never fetched, forced or not. */
  lemma InactiveNeverFetched(entry: Option<TokenEntry>, force: bool, now: int)
    requires entry.None? || !entry.value.active
    ensures GetTokenBalance(entry, force, now, Native, {}, Some("0")) == []
  {
  }

  /** Once a balance is due it stays due: the guard is monotone in time. */
  lemma RefreshStaysDue(entry: Option<TokenEntry>, force: bool, now: int, later: int)
    requires now <= later && ShouldFetchBalance(entry, force, now)
    ensures ShouldFetchBalance(entry, force, later)
  {
  }

  /** The balance is not fetched again within `BALANCE_REFRESH_MS` of the last fetch unless
      forced. */
  lemma RecentBalanceNotFetched(entry: TokenEntry, now: int)
    requires entry.balance.Some? && entry.balance.value.timestamp.Some?
    requires now <= entry.balance.value.timestamp.value + BALANCE_REFRESH_MS
    ensures !ShouldFetchBalance(Some(entry), false, now)
  {
  }

  /** Without a token, `getBalance` is called for each active token of the account on the
      chain, in key order. */
  function TokensToRefresh(entries: seq<(string, TokenEntry)>): (r: seq<string>)
    ensures forall s :: s in r <==> exists e :: e in entries && e.0 == s && e.1.active
  {
    if |entries| == 0 then []
    else
      var last := entries[|entries| - 1];
      var init := entries[..|entries| - 1];
      assert forall e :: e in entries <==> e in init || e == last;
      TokensToRefresh(init) + (if last.1.active then [last.0] else [])
  }

  /** The refresh follows the key order: the tokens of entries laid end to end are the two
      lists of tokens laid end to end. */
  lemma {:induction false} TokensToRefreshAppend(a: seq<(string, TokenEntry)>, b: seq<(string, TokenEntry)>)
    ensures TokensToRefresh(a + b) == TokensToRefresh(a) + TokensToRefresh(b)
  {
    if |b| > 0 {
      var init := b[..|b| - 1];
      assert (a + b)[..|a + b| - 1] == a + init;
      assert (a + b)[|a + b| - 1] == b[|b| - 1];
      TokensToRefreshAppend(a, init);
    } else {
      assert a + b == a;
    }
  }

  // ---------------------------------------------------------------------------------------
  // Transaction status (updateTransactionFromBlockchain, updateTransactionsStatus)
  // ---------------------------------------------------------------------------------------

  /** When the chain lookup of a transaction fails: the upsert (wallet id, transaction) that
      marks the stored transaction DROPPED, if any. It is issued only when the transaction is
      stored and more than `threshold` blocks have passed since it was broadcast; an unknown
      broadcast block makes the difference NaN, which never exceeds the threshold. */
  function DropOnFailedLookup(currentBlock: int, broadcastedOnBlock: Option<int>, threshold: int,
                              stored: Option<(string, Transaction)>): (r: Option<(string, Transaction)>)
    ensures r.Some? <==> stored.Some? && broadcastedOnBlock.Some?
                         && currentBlock - broadcastedOnBlock.value > threshold
    ensures r.Some? ==> r.value.0 == stored.value.0 && r.value.1 == stored.value.1.(status := Dropped)
  {
    if stored.Some? && broadcastedOnBlock.Some? && currentBlock - broadcastedOnBlock.value > threshold then
      Some((stored.value.0, stored.value.1.(status := Dropped)))
    else None
  }

  /** A transaction dropped at some block would be dropped at every later block. */
  lemma DropStaysDue(current: int, later: int, broadcastedOnBlock: Option<int>, threshold: int,
                     stored: Option<(string, Transaction)>)
    requires current <= later
    requires DropOnFailedLookup(current, broadcastedOnBlock, threshold, stored).Some?
    ensures DropOnFailedLookup(later, broadcastedOnBlock, threshold, stored)
         == DropOnFailedLookup(current, broadcastedOnBlock, threshold, stored)
  {
  }

  /** One entry of a status report: a transaction id and its `success` field. */
  datatype LogValue = LogValue(id: string, success: Option<bool>)

  /** One report of `updateTransactionsStatus`, with its optional `log`. */
  datatype StatusReport = StatusReport(log: Option<seq<LogValue>>)

  /** The log entries of all reports, in order. */
  function LogValues(reports: seq<StatusReport>): seq<LogValue>
  {
    if |reports| == 0 then []
    else
      var last := reports[|reports| - 1];
      LogValues(reports[..|reports| - 1]) + (if last.log.Some? then last.log.value else [])
  }

  /** `value.success === true ? SUCCESS : FAILED`. */
  function LogStatus(v: LogValue): TxStatus
  {
    if v.success == Some(true) then Success else Failed
  }

  /** The store after the upserts of `values`: each value naming a known transaction sets its
      status, later values over earlier ones. */
  function ApplyLogValues(store: map<string, Transaction>, values: seq<LogValue>): (r: map<string, Transaction>)
    ensures r.Keys == store.Keys
  {
    if |values| == 0 then store
    else
      var s := ApplyLogValues(store, values[..|values| - 1]);
      var v := values[|values| - 1];
      if v.id in store then s[v.id := s[v.id].(status := LogStatus(v))] else s
  }

  /** Applying one more value updates the status of the transaction it names, if stored. */
  lemma ApplyLogValuesSnoc(store: map<string, Transaction>, values: seq<LogValue>, v: LogValue)
    ensures var s := ApplyLogValues(store, values);
      ApplyLogValues(store, values + [v]) == if v.id in store then s[v.id := s[v.id].(status := LogStatus(v))] else s
  {
    var next := values + [v];
    assert next[..|next| - 1] == values && next[|next| - 1] == v;
  }

  /** The upserts of one report's log `values`, applied to `updated`, the store after the
      values `done` of the earlier reports. */
  method ApplyReport(store: map<string, Transaction>, done: seq<LogValue>, updated0: map<string, Transaction>,
                     values: seq<LogValue>)
    returns (updated: map<string, Transaction>)
    requires updated0 == ApplyLogValues(store, done)
    ensures updated == ApplyLogValues(store, done + values)
  {
    updated := updated0;
    var j := 0;
    assert done + values[..0] == done;
    while j < |values|
      invariant 0 <= j <= |values|
      invariant updated == ApplyLogValues(store, done + values[..j])
    {
      var value := values[j];
      assert done + values[..j + 1] == (done + values[..j]) + [value];
      ApplyLogValuesSnoc(store, done + values[..j], value);
      if value.id in store {
        updated := updated[value.id := updated[value.id].(status := if value.success == Some(true) then Success else Failed)];
      }
      j := j + 1;
    }
    assert done + values[..|values|] == done + values;
  }

  /** `updateTransactionsStatus` over the store `store` of the selected wallet. */
  method UpdateTransactionsStatus(store: map<string, Transaction>, reports: seq<StatusReport>)
    returns (updated: map<string, Transaction>)
    ensures updated == ApplyLogValues(store, LogValues(reports))
  {
    updated := store;
    var i := 0;
    while i < |reports|
      invariant 0 <= i <= |reports|
      invariant updated == ApplyLogValues(store, LogValues(reports[..i]))
    {
      var report := reports[i];
      assert reports[..i + 1][..i] == reports[..i] && reports[..i + 1][i] == report;
      if report.log.Some? {
        var done := LogValues(reports[..i]);
        updated := ApplyReport(store, done, updated, report.log.value);
        assert LogValues(reports[..i + 1]) == done + report.log.value;
      } else {
        assert LogValues(reports[..i]) + [] == LogValues(reports[..i]);
        assert LogValues(reports[..i + 1]) == LogValues(reports[..i]);
      }
      i := i + 1;
    }
    assert reports[..|reports|] == reports;
  }

  /** The status the last log entry for `id` gives, if any. */
  function LastStatusFor(values: seq<LogValue>, id: string): Option<TxStatus>
  {
    if |values| == 0 then None
    else if values[|values| - 1].id == id then Some(LogStatus(values[|values| - 1]))
    else LastStatusFor(values[..|values| - 1], id)
  }

  /** Per transaction: a known transaction takes the status of the last log entry naming it
      (SUCCESS iff `success === true`), keeps every other field, and is untouched when no
      entry names it. */
  lemma {:induction false} StatusUpdateLastWins(store: map<string, Transaction>, values: seq<LogValue>, id: string)
    requires id in store
    ensures var r := ApplyLogValues(store, values);
      r[id] == if LastStatusFor(values, id).Some? then store[id].(status := LastStatusFor(values, id).value) else store[id]
  {
    if |values| > 0 {
      StatusUpdateLastWins(store, values[..|values| - 1], id);
    }
  }

  /** A status set from the log is SUCCESS or FAILED. */
  lemma {:induction false} LoggedStatusIsFinal(values: seq<LogValue>, id: string)
    ensures LastStatusFor(values, id).Some? ==>
      LastStatusFor(values, id).value == Success || LastStatusFor(values, id).value == Failed
    ensures LastStatusFor(values, id).None? <==> forall v :: v in values ==> v.id != id
  {
    if |values| > 0 {
      var init := values[..|values| - 1];
      LoggedStatusIsFinal(init, id);
      assert forall v :: v in values <==> v in init || v == values[|values| - 1];
    }
  }
}
