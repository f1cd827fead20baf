/** Application constants of the wallet (src/core/constants/app.ts): the failed-login lockout
    table, the wipe threshold, the mnemonic length and the NEAR account-name suffixes. */
module AppConstants {
  import opened Common

  /** After this many consecutive wrong PINs the app wipes its data. */
  const RESET_APP_FAILED_LOGINS: nat := 15

  /** Number of words of a generated mnemonic. */
  const MNEMONIC_LENGTH: nat := 12

  /** The counts of failed logins that lock the app, in increasing order. */
  const BLOCKING_THRESHOLDS: seq<nat> := [3, 6, 9, 12]

  /** `FAILED_LOGIN_BLOCKING[count]`: how long (in milliseconds) the app stays locked after the
      `count`-th wrong PIN, or None when that count does not lock it. */
  function FailedLoginBlocking(count: int): (r: Option<nat>)
    ensures r.Some? <==> count in BLOCKING_THRESHOLDS
    ensures r.Some? ==> r.value > 0
  {
    if count == 3 then Some(5 * 60 * 1000)
    else if count == 6 then Some(20 * 60 * 1000)
    else if count == 9 then Some(60 * 60 * 1000)
    else if count == 12 then Some(24 * 60 * 60 * 1000)
    else None
  }

  /** The table in words: 5 minutes, 20 minutes, one hour, one day. */
  lemma BlockingDurations()
    ensures FailedLoginBlocking(3) == Some(300000) && FailedLoginBlocking(6) == Some(1200000)
    ensures FailedLoginBlocking(9) == Some(3600000) && FailedLoginBlocking(12) == Some(86400000)
  {
  }

  /** A later lockout always lasts strictly longer than an earlier one. */
  lemma BlockingDurationsIncrease(a: int, b: int)
    requires FailedLoginBlocking(a).Some? && FailedLoginBlocking(b).Some? && a < b
    ensures FailedLoginBlocking(a).value < FailedLoginBlocking(b).value
  {
  }

  /** The wipe comes after every lockout: no lockout count reaches the wipe threshold, so a
      user is always locked out (several times) before the data is wiped. */
  lemma WipeAfterEveryLockout(count: int)
    requires FailedLoginBlocking(count).Some?
    ensures 0 < count < RESET_APP_FAILED_LOGINS
  {
  }

  datatype NearNetwork = Mainnet | Testnet

  /** `NEAR_TLD`: the top-level account of the network. */
  function NearTld(n: NearNetwork): (r: string)
    ensures |r| > 0
    ensures n.Mainnet? <==> r == "near"
  {
    match n
    case Mainnet => "near"
    case Testnet => "testnet"
  }

  /** `NEAR_LOCKUP_SUFFIX`: the suffix of the lockup account names of the network. */
  function NearLockupSuffix(n: NearNetwork): (r: string)
    ensures |r| > 1 && r[0] == '.'
    ensures n.Mainnet? <==> r == ".lockup.near"
  {
    match n
    case Mainnet => ".lockup.near"
    case Testnet => ".testnet"
  }

  /** Each lockup suffix ends with the network's top-level account name: a lockup account is a
      sub-account of the network's top-level account. */
  lemma LockupUnderTld(n: NearNetwork)
    ensures var s, t := NearLockupSuffix(n), NearTld(n);
      |t| < |s| && s[|s| - |t|..] == t && s[|s| - |t| - 1] == '.'
  {
  }
}
