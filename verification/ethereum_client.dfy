/** The Ethereum chain client (src/core/blockchain/ethereum/client.ts): reading hex quantities
    returned by the node, the `0x` prefix of addresses, the `name:(types)` method signatures of
    contract calls, the shape of a decoded call result, and the fee computation. The JSON-RPC
    answers, the gas-station answer, ABI encoding and unit conversion are inputs. */
module EthereumClient {
  import opened Common
  import opened Strings
  import opened Transactions

  // ---------------------------------------------------------------------------------------
  // Hexadecimal quantities

  function HexDigitValue(c: char): (r: Option<nat>)
    ensures r.Some? ==> r.value < 16
  {
    if '0' <= c <= '9' then Some(c as int - '0' as int)
    else if 'a' <= c <= 'f' then Some(c as int - 'a' as int + 10)
    else if 'A' <= c <= 'F' then Some(c as int - 'A' as int + 10)
    else None
  }

  predicate AllHex(s: string)
  {
    forall i :: 0 <= i < |s| ==> HexDigitValue(s[i]).Some?
  }

  /** The value of a string of hex digits, most significant first. */
  function HexValue(s: string): nat
    requires AllHex(s)
  {
    if |s| == 0 then 0 else HexValue(s[..|s| - 1]) * 16 + HexDigitValue(s[|s| - 1]).value
  }

  /** The lower-case digit of a value below 16. */
  function HexDigit(d: nat): (c: char)
    requires d < 16
    ensures HexDigitValue(c) == Some(d)
    ensures !IsUpperHexLetter(c)
  {
    if d < 10 then ('0' as int + d) as char else ('a' as int + d - 10) as char
  }

  predicate IsUpperHexLetter(c: char) { 'A' <= c <= 'F' }

  predicate IsLowerHexLetter(c: char) { 'a' <= c <= 'f' }

  /** The letters among the digits are all lower-case or all upper-case. */
  predicate SingleCase(s: string)
  {
    (forall i :: 0 <= i < |s| ==> !IsUpperHexLetter(s[i]))
    || (forall i :: 0 <= i < |s| ==> !IsLowerHexLetter(s[i]))
  }

  /** The shortest lower-case hex spelling of `n`, as a node writes quantities. */
  function ToHex(n: nat): (s: string)
    ensures |s| > 0 && AllHex(s)
    ensures forall i :: 0 <= i < |s| ==> !IsUpperHexLetter(s[i])
  {
    if n < 16 then [HexDigit(n)] else ToHex(n / 16) + [HexDigit(n % 16)]
  }

  /** Reading back the spelling of `n` gives `n`. */
  lemma {:induction false} HexRoundTrip(n: nat)
    ensures HexValue(ToHex(n)) == n
  {
    if n >= 16 {
      HexRoundTrip(n / 16);
      var s := ToHex(n);
      assert s[..|s| - 1] == ToHex(n / 16);
    }
  }

  /** `new BigNumber(s, 16)`: an optional minus sign, an optional `0x`/`0X` prefix followed by
      at least one character, then hex digits only, whose letters are all of one case
      (bignumber.js retries with the case changed only when the whole text is in one case);
      anything else is NaN. */
  function ParseHexBig(s: string): (r: Num)
  {
    var negative := |s| > 0 && s[0] == '-';
    var body := if negative then s[1..] else s;
    var digits := if |body| >= 3 && body[0] == '0' && (body[1] == 'x' || body[1] == 'X') then body[2..] else body;
    if |digits| > 0 && AllHex(digits) && SingleCase(digits) then
      Finite(if negative then -(HexValue(digits) as real) else HexValue(digits) as real)
    else NaN
  }

  /** The length of the run of hex digits at the start of `s`. */
  function HexRun(s: string): (n: nat)
    ensures n <= |s| && AllHex(s[..n])
    ensures n < |s| ==> HexDigitValue(s[n]).None?
  {
    if |s| > 0 && HexDigitValue(s[0]).Some? then
      var rest := HexRun(s[1..]);
      assert s[..1 + rest] == [s[0]] + s[1..][..rest];
      1 + rest
    else 0
  }

  /** What follows an optional `0x`/`0X` prefix. */
  function AfterHexPrefix(u: string): (body: string)
  {
    if |u| >= 2 && u[0] == '0' && (u[1] == 'x' || u[1] == 'X') then u[2..] else u
  }

  /** `parseInt(s, 16)`: leading white space and a sign are skipped, then a `0x`/`0X` prefix,
      then the longest run of hex digits is read; no digit at all gives NaN. */
  function ParseIntHex(s: string): (r: Num)
  {
    var t := TrimStart(s);
    var negative := |t| > 0 && t[0] == '-';
    var unsigned := if |t| > 0 && (t[0] == '-' || t[0] == '+') then t[1..] else t;
    HexRunValue(AfterHexPrefix(unsigned), negative)
  }

  /** The value of the run of hex digits at the start of `body`, negated when `negative`;
      NaN when there is no digit. */
  function HexRunValue(body: string, negative: bool): (r: Num)
  {
    var n := HexRun(body);
    if n == 0 then NaN
    else Finite(if negative then -(HexValue(body[..n]) as real) else HexValue(body[..n]) as real)
  }

  /** A string of hex digits is one run. */
  lemma {:induction false} HexRunOfHex(h: string)
    requires AllHex(h)
    ensures HexRun(h) == |h|
  {
    if |h| > 0 {
      HexRunOfHex(h[1..]);
    }
  }

  /** `new BigNumber("0x" + h, 16)` reads the digits of `h` when their letters share one
      case, and is NaN when they mix cases (as in "0xaB"). */
  lemma ParseHexBigOfHex(h: string)
    requires |h| > 0 && AllHex(h)
    ensures ParseHexBig("0x" + h) == if SingleCase(h) then Finite(HexValue(h) as real) else NaN
  {
    var s := "0x" + h;
    assert s[0] == '0' && s[1] == 'x' && s[2..] == h;
  }

  /** `parseInt("0x" + h, 16)` reads the digits of `h`, whatever the case of their letters. */
  lemma ParseIntHexOfHex(h: string)
    requires |h| > 0 && AllHex(h)
    ensures ParseIntHex("0x" + h) == Finite(HexValue(h) as real)
  {
    var s := "0x" + h;
    assert s[0] == '0' && s[1] == 'x' && s[2..] == h;
    assert !IsWhitespace(s[0]);
    assert TrimStart(s) == s;
    assert AfterHexPrefix(s) == h;
    HexRunOfHex(h);
    assert h[..|h|] == h;
    assert HexRunValue(h, false) == Finite(HexValue(h) as real);
  }

  /** Both readings give back every quantity the node writes as `0x` and its hex spelling. */
  lemma QuantityRoundTrip(n: nat)
    ensures ParseHexBig("0x" + ToHex(n)) == Finite(n as real)
    ensures ParseIntHex("0x" + ToHex(n)) == Finite(n as real)
  {
    HexRoundTrip(n);
    ParseHexBigOfHex(ToHex(n));
    ParseIntHexOfHex(ToHex(n));
  }

  /** `getBalance` and `getNonce`: the `result` of the answer read as base 16 (an answer
      without a result reads as NaN). */
  function GetBalance(result: Option<string>): (r: Num)
    ensures result.None? ==> r == NaN
  {
    if result.Some? then ParseHexBig(result.value) else NaN
  }

  // ---------------------------------------------------------------------------------------
  // Addresses

  /** `fixAddress`: prefix `0x` unless `0x` occurs somewhere in the address already. */
  function FixAddress(address: string): (r: string)
    ensures Contains(r, "0x")
    ensures Contains(address, "0x") ==> r == address
    ensures !Contains(address, "0x") ==> r == "0x" + address
  {
    if IndexOf(address, "0x") < 0 then
      ContainsAt("0x" + address, "0x", 0);
      "0x" + address
    else address
  }

  /** Fixing an address twice is fixing it once. */
  lemma FixAddressIdempotent(address: string)
    ensures FixAddress(FixAddress(address)) == FixAddress(address)
  {
  }

  // ---------------------------------------------------------------------------------------
  // Contract method signatures

  /** The non-empty pieces, in order (`filter(Boolean)`). */
  function NonEmpty(pieces: seq<string>): (r: seq<string>)
    ensures forall t :: t in r ==> t in pieces && t != ""
    ensures forall t :: t in pieces && t != "" ==> t in r
    ensures |r| <= |pieces|
    ensures (forall i :: 0 <= i < |pieces| ==> pieces[i] != "") ==> r == pieces
  {
    if |pieces| == 0 then []
    else (if pieces[0] != "" then [pieces[0]] else []) + NonEmpty(pieces[1..])
  }

  /** The filter keeps the order: the pieces kept from a concatenation are the pieces kept
      from the first part followed by those kept from the second. */
  lemma {:induction false} NonEmptyAppend(a: seq<string>, b: seq<string>)
    ensures NonEmpty(a + b) == NonEmpty(a) + NonEmpty(b)
  {
    if a == [] {
      assert a + b == b;
    } else {
      assert (a + b)[0] == a[0];
      assert (a + b)[1..] == a[1..] + b;
      NonEmptyAppend(a[1..], b);
    }
  }

  /** A contract method signature: the method name (with its argument types) and the types
      its result decodes to. */
  datatype Signature = Signature(methodName: string, returnTypes: seq<string>)

  /** The return types of the part after the colon: the first `(` and the first `)` removed,
      split at commas, empty pieces dropped, each piece trimmed. */
  function ReturnTypes(part: string): seq<string>
  {
    var inner := ReplaceFirst(ReplaceFirst(part, "(", ""), ")", "");
    var pieces := NonEmpty(Split(inner, ','));
    seq(|pieces|, i requires 0 <= i < |pieces| => Trim(pieces[i]))
  }

  /** `callContract`'s reading of `methodSignature`: the text before the first colon is the
      method, and only the text between the first and the second colon gives return types. */
  function ParseSignature(methodSignature: string): (r: Signature)
    ensures ':' !in r.methodName
    ensures var parts := Split(methodSignature, ':');
      r.methodName == parts[0]
      && (|parts| < 2 || parts[1] == "" ==> r.returnTypes == [])
      && (|parts| >= 2 && parts[1] != "" ==> r.returnTypes == ReturnTypes(parts[1]))
  {
    var parts := Split(methodSignature, ':');
    var returnTypes := if |parts| >= 2 && parts[1] != "" then ReturnTypes(parts[1]) else [];
    Signature(parts[0], returnTypes)
  }

  /** Every return type is trimmed: it neither starts nor ends with white space. */
  lemma ReturnTypesTrimmed(part: string)
    ensures forall t :: t in ReturnTypes(part) && |t| > 0 ==> !IsWhitespace(t[0]) && !IsWhitespace(t[|t| - 1])
  {
    var inner := ReplaceFirst(ReplaceFirst(part, "(", ""), ")", "");
    var pieces := NonEmpty(Split(inner, ','));
    var r := ReturnTypes(part);
    assert r == seq(|pieces|, i requires 0 <= i < |pieces| => Trim(pieces[i]));
    forall t | t in r && |t| > 0
      ensures !IsWhitespace(t[0]) && !IsWhitespace(t[|t| - 1])
    {
      var k :| 0 <= k < |r| && r[k] == t;
      assert t == Trim(pieces[k]);
    }
  }

  /** A piece that is more than white space gives a non-empty type; a piece of white space
      only (as in `m:(uint256, )`) passes the emptiness filter and is then trimmed to "". */
  lemma ReturnTypesNonEmpty(part: string)
    requires var inner := ReplaceFirst(ReplaceFirst(part, "(", ""), ")", "");
      forall p :: p in Split(inner, ',') && p != "" ==> exists i :: 0 <= i < |p| && !IsWhitespace(p[i])
    ensures forall t :: t in ReturnTypes(part) ==> t != ""
  {
    var inner := ReplaceFirst(ReplaceFirst(part, "(", ""), ")", "");
    var pieces := NonEmpty(Split(inner, ','));
    forall k | 0 <= k < |pieces|
      ensures Trim(pieces[k]) != ""
    {
      assert pieces[k] in Split(inner, ',');
      var i :| 0 <= i < |pieces[k]| && !IsWhitespace(pieces[k][i]);
      TrimKeepsNonBlank(pieces[k], i);
    }
  }

  /** A signature without a colon is all method name and declares no return types. */
  lemma NoColonNoReturnTypes(methodSignature: string)
    requires ':' !in methodSignature
    ensures ParseSignature(methodSignature) == Signature(methodSignature, [])
  {
    SplitWithoutSeparator(methodSignature, ':');
  }

  // ---------------------------------------------------------------------------------------
  // Call results

  /** What `callContract` returns: one string, or one string per decoded value. */
  datatype CallResult = Single(value: string) | Many(values: seq<string>)

  /** The decoded values of a call, each shown with `toString`: a single value is returned on
      its own, any other number of values (none included) as a list. */
  function DecodedResult<V>(decoded: seq<V>, show: V -> string): (r: CallResult)
    ensures r.Single? <==> |decoded| == 1
    ensures r.Single? ==> r.value == show(decoded[0])
    ensures r.Many? ==> |r.values| == |decoded| && forall i :: 0 <= i < |decoded| ==> r.values[i] == show(decoded[i])
  {
    if |decoded| == 1 then Single(show(decoded[0]))
    else Many(seq(|decoded|, i requires 0 <= i < |decoded| => show(decoded[i])))
  }

  // ---------------------------------------------------------------------------------------
  // Fees

  /** The gas-station answer, each field read with `new BigNumber`. */
  datatype GasStation = GasStation(safeLow: Num, average: Num, fast: Num, fastest: Num)

  datatype Presets = Presets(cheap: Num, standard: Num, fast: Num, fastest: Num)

  /** The chain configuration's default gas limit. Its default price and presets are never
      used: the gas-station response is always an object, so the presets always exist. */
  datatype EthFeeDefaults = EthFeeDefaults(gasLimit: Num)

  datatype EthFees = EthFees(fees: FeeOptions, presets: Presets)

  /** How one of the two requests `estimateFees` awaits together settled. */
  datatype Settled<T> = Fulfilled(value: T) | Failed

  /** `calculateFees`. `estimate` is the `result` of the `eth_estimateGas` answer, or Failed when
      that call rejected; `station` is the gas-station answer, or Failed when the fetch or
      reading its JSON body rejected; `convertUnit` is the conversion from the gas-station unit
      to the chain's unit. None is the rejection that `Promise.all` passes on. The standard
      preset always wins over the default price: a BigNumber is truthy even when NaN. */
  function CalculateFees(estimate: Settled<Option<string>>, station: Settled<GasStation>, defaults: EthFeeDefaults,
                         convertUnit: Num -> Num): (r: Option<EthFees>)
    ensures r.None? <==> estimate.Failed? || station.Failed?
    ensures r.Some? ==> FeeTotalConsistent(r.value.fees)
    ensures r.Some? ==>
      r.value.presets == Presets(convertUnit(station.value.safeLow), convertUnit(station.value.average),
                                 convertUnit(station.value.fast), convertUnit(station.value.fastest))
      && r.value.fees.gasPrice == r.value.presets.standard
    ensures r.Some? && Truthy(estimate.value) ==> r.value.fees.gasLimit == ParseIntHex(estimate.value.value)
    ensures r.Some? && !Truthy(estimate.value) ==> r.value.fees.gasLimit == defaults.gasLimit
  {
    match (estimate, station)
    case (Fulfilled(result), Fulfilled(g)) =>
      var presets := Presets(convertUnit(g.safeLow), convertUnit(g.average), convertUnit(g.fast), convertUnit(g.fastest));
      var gasPrice := presets.standard;
      var gasLimit := if Truthy(result) then ParseIntHex(result.value) else defaults.gasLimit;
      Some(EthFees(FeeOptions(gasPrice, gasLimit, Mul(gasPrice, gasLimit)), presets))
    case _ => None
  }

  /** The gas limit is the node's estimate whenever it gave one: the fee is the price times
      that estimate. */
  lemma EstimateBecomesGasLimit(n: nat, station: GasStation, defaults: EthFeeDefaults, convertUnit: Num -> Num)
    ensures var r := CalculateFees(Fulfilled(Some("0x" + ToHex(n))), Fulfilled(station), defaults, convertUnit);
      r.Some? && r.value.fees.gasLimit == Finite(n as real)
      && r.value.fees.feeTotal == Mul(convertUnit(station.average), Finite(n as real))
  {
    var e := "0x" + ToHex(n);
    QuantityRoundTrip(n);
    var r := CalculateFees(Fulfilled(Some(e)), Fulfilled(station), defaults, convertUnit);
    assert e != "";
    assert r.value.fees.gasLimit == ParseIntHex(e);
  }
}
