/** The account balance shown in a chosen token (src/core/utils/balance.ts): the sum of the
    balances of the account's active tokens on one chain, each converted through the exchange
    rates. BigNumber values are `Num`; the unit conversion and `toString` are inputs. */
module Balance {
  import opened Common
  import opened AvailableFunds

  /** What the wallet stores for one token of an account: whether it is shown and its balance
      (`balance?.value`). */
  datatype TokenState = TokenState(active: bool, balanceValue: Option<string>)

  /** The token the total is expressed in. `removable` is absent for most tokens. */
  datatype TargetToken = TargetToken(symbol: string, decimals: int, removable: Option<bool>)

  /** The exchange rates by token symbol. */
  type Rates = map<string, Num>

  /** A rate is usable when it is present and truthy (not 0 and not NaN). */
  predicate HasRate(rates: Rates, symbol: string)
  {
    symbol in rates && rates[symbol].Finite? && rates[symbol].v != 0.0
  }

  /** `convertAmount`: `value` (in the smallest unit of `fromToken`) in display units of
      `fromToken`, re-expressed in `toToken` through the rates. */
  function ConvertAmount(rates: Rates, value: string, fromToken: string, toToken: string, decimals: int,
                         codec: AmountCodec): (r: Num)
    ensures var amount := codec.fromStd(codec.parse(value), decimals);
      && (fromToken == toToken ==> r == amount)
      && (fromToken != toToken && !(value != "" && HasRate(rates, fromToken) && HasRate(rates, toToken)) ==>
            r == Finite(0.0))
      && (fromToken != toToken && value != "" && HasRate(rates, fromToken) && HasRate(rates, toToken) ==>
            (r.Finite? <==> amount.Finite?)
            && (r.Finite? ==> r.v * rates[toToken].v == amount.v * rates[fromToken].v))
  {
    var amount := codec.fromStd(codec.parse(value), decimals);
    if fromToken == toToken then amount
    else if value != "" && HasRate(rates, fromToken) && HasRate(rates, toToken) then
      if amount.Finite? then Finite(amount.v * rates[fromToken].v / rates[toToken].v) else NaN
    else Finite(0.0)
  }

  /** The same token needs no rate: the result is the same whatever the rates. */
  lemma SameTokenIgnoresRates(rates1: Rates, rates2: Rates, value: string, symbol: string, decimals: int,
                              codec: AmountCodec)
    ensures ConvertAmount(rates1, value, symbol, symbol, decimals, codec)
         == ConvertAmount(rates2, value, symbol, symbol, decimals, codec)
  {
  }

  /** Converting there and back through two usable rates gives the amount back, when the unit
      conversion of the intermediate value reads it back unchanged. */
  lemma ConvertThereAndBack(rates: Rates, value: string, back: string, a: string, b: string, decimals: int,
                            codec: AmountCodec)
    requires a != b && value != "" && back != "" && HasRate(rates, a) && HasRate(rates, b)
    requires codec.fromStd(codec.parse(value), decimals).Finite?
    requires codec.fromStd(codec.parse(back), decimals) == ConvertAmount(rates, value, a, b, decimals, codec)
    ensures ConvertAmount(rates, back, b, a, decimals, codec) == codec.fromStd(codec.parse(value), decimals)
  {
    var x := codec.fromStd(codec.parse(value), decimals).v;
    var ra, rb := rates[a].v, rates[b].v;
    assert x * ra / rb * rb / ra == x;
  }

  /** What one token adds to the total: its raw balance when the target token is marked not
      removable, its converted balance otherwise. `show` is BigNumber's `toString`. */
  function Contribution(key: string, state: TokenState, target: TargetToken, rates: Rates,
                        show: Num -> string, codec: AmountCodec): Num
  {
    var value := if state.balanceValue.Some? then codec.parse(state.balanceValue.value) else NaN;
    if target.removable == Some(false) then value
    else ConvertAmount(rates, show(value), key, target.symbol, target.decimals, codec)
  }

  /** The total over the active entries, in the order the keys are listed. */
  function SumActive(entries: seq<(string, TokenState)>, target: TargetToken, rates: Rates,
                     show: Num -> string, codec: AmountCodec): Num
  {
    if |entries| == 0 then Finite(0.0)
    else
      var prev := SumActive(entries[..|entries| - 1], target, rates, show, codec);
      var last := entries[|entries| - 1];
      if last.1.active then Add(prev, Contribution(last.0, last.1, target, rates, show, codec)) else prev
  }

  /** `calculateBalance` before the final `toString`. `tokens` is `account.tokens[chainId]` as
      a list of (key, state) in key order; None when the account has no tokens on the chain. */
  method CalculateBalance(tokens: Option<seq<(string, TokenState)>>, target: TargetToken, rates: Rates,
                          show: Num -> string, codec: AmountCodec) returns (balance: Num)
    ensures tokens.None? ==> balance == Finite(0.0)
    ensures tokens.Some? ==> balance == SumActive(tokens.value, target, rates, show, codec)
  {
    var entries := if tokens.Some? then tokens.value else [];
    balance := Finite(0.0);
    var i := 0;
    while i < |entries|
      invariant 0 <= i <= |entries|
      invariant balance == SumActive(entries[..i], target, rates, show, codec)
    {
      var (key, state) := entries[i];
      if state.active {
        balance := Add(balance, Contribution(key, state, target, rates, show, codec));
      }
      assert entries[..i + 1][i] == (key, state);
      assert entries[..i + 1][..i] == entries[..i];
      i := i + 1;
    }
    assert entries[..|entries|] == entries;
  }

  /** The active entries, in order. */
  function ActiveOnly(entries: seq<(string, TokenState)>): (r: seq<(string, TokenState)>)
    ensures |r| <= |entries|
    ensures forall e :: e in r ==> e in entries && e.1.active
  {
    if |entries| == 0 then []
    else
      var last := entries[|entries| - 1];
      ActiveOnly(entries[..|entries| - 1]) + (if last.1.active then [last] else [])
  }

  /** Inactive tokens do not count: the total over all entries is the total over the active
      ones. */
  lemma {:induction false} InactiveTokensIgnored(entries: seq<(string, TokenState)>, target: TargetToken,
                                                 rates: Rates, show: Num -> string, codec: AmountCodec)
    ensures SumActive(entries, target, rates, show, codec) == SumActive(ActiveOnly(entries), target, rates, show, codec)
  {
    if |entries| > 0 {
      var init := entries[..|entries| - 1];
      var last := entries[|entries| - 1];
      InactiveTokensIgnored(init, target, rates, show, codec);
      if last.1.active {
        var r := ActiveOnly(init) + [last];
        assert r[..|r| - 1] == ActiveOnly(init) && r[|r| - 1] == last;
      } else {
        assert ActiveOnly(init) + [] == ActiveOnly(init);
      }
    }
  }

  /** The plain sum of the parsed balances of the active entries (a missing balance is NaN). */
  function RawSum(entries: seq<(string, TokenState)>, codec: AmountCodec): Num
  {
    if |entries| == 0 then Finite(0.0)
    else
      var last := entries[|entries| - 1];
      var prev := RawSum(entries[..|entries| - 1], codec);
      if last.1.active then
        Add(prev, if last.1.balanceValue.Some? then codec.parse(last.1.balanceValue.value) else NaN)
      else prev
  }

  /** When the target token is marked not removable the raw balances are summed and the rates
      play no part. */
  lemma {:induction false} NotRemovableIgnoresRates(entries: seq<(string, TokenState)>, target: TargetToken,
                                                    rates1: Rates, rates2: Rates, show: Num -> string, codec: AmountCodec)
    requires target.removable == Some(false)
    ensures SumActive(entries, target, rates1, show, codec) == RawSum(entries, codec)
    ensures SumActive(entries, target, rates1, show, codec) == SumActive(entries, target, rates2, show, codec)
  {
    if |entries| > 0 {
      NotRemovableIgnoresRates(entries[..|entries| - 1], target, rates1, rates2, show, codec);
    }
  }

  /** Addition of BigNumber values, NaN included, is associative. */
  lemma AddAssociative(a: Num, b: Num, c: Num)
    ensures Add(Add(a, b), c) == Add(a, Add(b, c))
  {
  }

  /** The total over two lists of entries is the sum of their totals. */
  lemma {:induction false} SumActiveAppend(xs: seq<(string, TokenState)>, ys: seq<(string, TokenState)>,
                                           target: TargetToken, rates: Rates, show: Num -> string, codec: AmountCodec)
    ensures SumActive(xs + ys, target, rates, show, codec)
         == Add(SumActive(xs, target, rates, show, codec), SumActive(ys, target, rates, show, codec))
  {
    var total := SumActive(xs, target, rates, show, codec);
    if |ys| == 0 {
      assert xs + ys == xs;
      assert Add(total, Finite(0.0)) == total;
    } else {
      var init := ys[..|ys| - 1];
      var last := ys[|ys| - 1];
      var both := xs + ys;
      assert both[..|both| - 1] == xs + init;
      assert both[|both| - 1] == last;
      var before := SumActive(xs + init, target, rates, show, codec);
      assert SumActive(both, target, rates, show, codec)
          == if last.1.active then Add(before, Contribution(last.0, last.1, target, rates, show, codec)) else before;
      SumActiveAppend(xs, init, target, rates, show, codec);
      if last.1.active {
        AddAssociative(total, SumActive(init, target, rates, show, codec),
                       Contribution(last.0, last.1, target, rates, show, codec));
      }
    }
  }
}
