/** The call-to-action handler of the server-driven screens
    (src/redux/ui/screens/data/handle-cta.ts): how a CTA is split into actions, and the list
    transforms of the staking actions (validator lists, the reason toggle, the Moonlet filter,
    the minimum-amount branch). Navigation, dialogs and the dispatched thunks are left out;
    what they are given is the result. */
module HandleCta {
  import opened Common
  import opened Strings

  // ---------------------------------------------------------------------------------------
  // Sequencing (handleCta)
  // ---------------------------------------------------------------------------------------

  /** A CTA: an optional list of actions (present when `cta.actions` is an array) and its own
      `type`/`params`, here `single`, the action handled when there is no list. */
  datatype Cta<A> = Cta(actions: Option<seq<A>>, single: A)

  /** `handleCta`: the actions handed to `handleCtaAction`, in the order they are handled,
      and whether `handleCta` rejects. `rejects` says which actions `handleCtaAction` rejects
      on. Each action is awaited, so the first rejection ends the loop and is passed on: the
      actions after it are never handled. An absent CTA handles nothing. */
  method HandleCtaActions<A>(cta: Option<Cta<A>>, rejects: A -> bool) returns (handled: seq<A>, rejected: bool)
    ensures cta.None? ==> handled == [] && !rejected
    ensures cta.Some? && cta.value.actions.None? ==>
      handled == [cta.value.single] && rejected == rejects(cta.value.single)
    ensures cta.Some? && cta.value.actions.Some? ==>
      handled <= cta.value.actions.value
      && (forall j :: 0 <= j < |handled| - 1 ==> !rejects(handled[j]))
      && (rejected <==> |handled| > 0 && rejects(handled[|handled| - 1]))
      && (!rejected ==> handled == cta.value.actions.value)
  {
    handled := [];
    rejected := false;
    if cta.None? {
      return;
    }
    match cta.value.actions
    case Some(actions) =>
      var i := 0;
      while i < |actions| && !rejected
        invariant 0 <= i <= |actions|
        invariant handled == actions[..i]
        invariant !rejected ==> forall j :: 0 <= j < i ==> !rejects(actions[j])
        invariant rejected ==> i > 0 && rejects(actions[i - 1]) && forall j :: 0 <= j < i - 1 ==> !rejects(actions[j])
      {
        handled := handled + [actions[i]];
        rejected := rejects(actions[i]);
        i := i + 1;
      }
      if !rejected {
        assert actions[..i] == actions;
      }
    case None =>
      handled := [cta.value.single];
      rejected := rejects(cta.value.single);
  }

  // ---------------------------------------------------------------------------------------
  // Validators of the claim and withdraw actions
  // ---------------------------------------------------------------------------------------

  /** A validator as `buildDummyValidator` makes it from an id and a name. */
  datatype DummyValidator = DummyValidator(id: Option<string>, name: Option<string>)

  /** An entry of `params.validators` of a claim action. */
  datatype ClaimParam = ClaimParam(validatorId: Option<string>, validatorName: Option<string>)

  /** CLAIM_REWARD_NO_INPUT: one validator per entry of `params.validators`, in order, when that
      list is given; otherwise the one validator named by `validatorId`/`validatorName`. */
  method ClaimRewardValidators(listed: Option<seq<ClaimParam>>, validatorId: Option<string>,
                               validatorName: Option<string>) returns (validators: seq<DummyValidator>)
    ensures listed.None? ==> validators == [DummyValidator(validatorId, validatorName)]
    ensures listed.Some? ==> |validators| == |listed.value|
    ensures listed.Some? ==> forall i :: 0 <= i < |validators| ==>
      validators[i] == DummyValidator(listed.value[i].validatorId, listed.value[i].validatorName)
  {
    match listed
    case None =>
      validators := [DummyValidator(validatorId, validatorName)];
    case Some(vs) =>
      validators := [];
      var i := 0;
      while i < |vs|
        invariant 0 <= i <= |vs|
        invariant |validators| == i
        invariant forall j :: 0 <= j < i ==> validators[j] == DummyValidator(vs[j].validatorId, vs[j].validatorName)
      {
        validators := validators + [DummyValidator(vs[i].validatorId, vs[i].validatorName)];
        i := i + 1;
      }
  }

  /** WITHDRAW: the validator list passed on, present only when both the id and the name are
      truthy (otherwise the falsy value is passed, None here). */
  function WithdrawValidators(validatorId: Option<string>, validatorName: Option<string>): (r: Option<seq<DummyValidator>>)
    ensures r.Some? <==> Truthy(validatorId) && Truthy(validatorName)
    ensures r.Some? ==> |r.value| == 1 && r.value[0].id == validatorId && r.value[0].name == validatorName
  {
    if Truthy(validatorId) && Truthy(validatorName) then Some([DummyValidator(validatorId, validatorName)])
    else None
  }

  // ---------------------------------------------------------------------------------------
  // delegateToValidatorV2
  // ---------------------------------------------------------------------------------------

  /** A validator as the screen data or the action params hold it. */
  datatype ScreenValidator = ScreenValidator(id: Option<string>, address: Option<string>, name: Option<string>)

  /** `validator?.id || validator?.address`. */
  function ValidatorKey(v: ScreenValidator): (r: Option<string>)
    ensures Truthy(v.id) ==> r == v.id
    ensures !Truthy(v.id) ==> r == v.address
  {
    if Truthy(v.id) then v.id else v.address
  }

  /** A value of the screen's input data: an object with an optional validator and amount. */
  datatype InputEntry = InputEntry(validator: Option<ScreenValidator>, amount: Option<string>)

  /** A validator and the amount (in the smallest unit) to delegate to it. */
  datatype Delegation = Delegation(validator: DummyValidator, amount: string)

  /** The number parsing and unit conversion the action uses: `parse` is `new BigNumber`,
      `toStd` is `amountToStd(...).toFixed()` with the token's decimals and `split` is
      `splitStake(amount, n)`. */
  datatype StakeCodec = StakeCodec(parse: string -> Num, toStd: string -> string, split: (string, nat) -> string)

  /** The input entry is delegated to: it is an object with a validator and a truthy amount
      greater than 0. */
  predicate Delegated(e: Option<InputEntry>, codec: StakeCodec)
  {
    e.Some? && e.value.validator.Some? && Truthy(e.value.amount) && Gt(codec.parse(e.value.amount.value), Finite(0.0))
  }

  function DelegationOf(e: Option<InputEntry>, codec: StakeCodec): Delegation
    requires Delegated(e, codec)
  {
    var v := e.value.validator.value;
    Delegation(DummyValidator(ValidatorKey(v), v.name), codec.toStd(e.value.amount.value))
  }

  /** The delegations built from the screen's input data, in key order. */
  function FromInputData(entries: seq<Option<InputEntry>>, codec: StakeCodec): (r: seq<Delegation>)
    ensures |r| <= |entries|
  {
    if |entries| == 0 then []
    else
      var last := entries[|entries| - 1];
      FromInputData(entries[..|entries| - 1], codec) + (if Delegated(last, codec) then [DelegationOf(last, codec)] else [])
  }

  /** The delegations built from `params.validators`: each validator gets the screen amount
      split evenly, when both the list and the screen amount are given. */
  function FromParams(paramValidators: Option<seq<ScreenValidator>>, screenAmount: Option<string>,
                      codec: StakeCodec): seq<Delegation>
  {
    if paramValidators.Some? && Truthy(screenAmount) then
      var vs := paramValidators.value;
      var share := codec.toStd(codec.split(screenAmount.value, |vs|));
      seq(|vs|, i requires 0 <= i < |vs| => Delegation(DummyValidator(ValidatorKey(vs[i]), vs[i].name), share))
    else []
  }

  /** `delegateToValidatorV2`: the list handed to `delegateV2`. `entries` are the values of the
      screen's input data in key order (None for a value that is not an object), `screenAmount`
      its `amount`. */
  method DelegateToValidatorV2(entries: seq<Option<InputEntry>>, paramValidators: Option<seq<ScreenValidator>>,
                               screenAmount: Option<string>, codec: StakeCodec) returns (validators: seq<Delegation>)
    ensures validators == FromInputData(entries, codec) + FromParams(paramValidators, screenAmount, codec)
  {
    validators := [];
    var i := 0;
    while i < |entries|
      invariant 0 <= i <= |entries|
      invariant validators == FromInputData(entries[..i], codec)
    {
      var entry := entries[i];
      assert entries[..i + 1][..i] == entries[..i] && entries[..i + 1][i] == entry;
      if entry.Some? && entry.value.validator.Some? && Truthy(entry.value.amount) {
        var amount := entry.value.amount.value;
        if Gt(codec.parse(amount), Finite(0.0)) {
          var validator := entry.value.validator.value;
          validators := validators + [Delegation(DummyValidator(ValidatorKey(validator), validator.name), codec.toStd(amount))];
        }
      }
      i := i + 1;
    }
    assert entries[..|entries|] == entries;
    if paramValidators.Some? && Truthy(screenAmount) {
      var vs := paramValidators.value;
      var amountSplit := codec.split(screenAmount.value, |vs|);
      var j := 0;
      var fromParams: seq<Delegation> := [];
      while j < |vs|
        invariant 0 <= j <= |vs|
        invariant fromParams == FromParams(paramValidators, screenAmount, codec)[..j]
      {
        fromParams := fromParams + [Delegation(DummyValidator(ValidatorKey(vs[j]), vs[j].name), codec.toStd(amountSplit))];
        j := j + 1;
      }
      validators := validators + fromParams;
    }
  }

  /** Every delegation taken from the input data comes, in order, from an entry with a
      validator and an amount greater than 0, and carries that amount converted. */
  lemma {:induction false} InputDelegationsArePositive(entries: seq<Option<InputEntry>>, codec: StakeCodec, k: nat)
    requires k < |FromInputData(entries, codec)|
    ensures exists i :: 0 <= i < |entries| && Delegated(entries[i], codec)
                        && FromInputData(entries, codec)[k] == DelegationOf(entries[i], codec)
  {
    var init := entries[..|entries| - 1];
    var last := entries[|entries| - 1];
    if k < |FromInputData(init, codec)| {
      InputDelegationsArePositive(init, codec, k);
      var i :| 0 <= i < |init| && Delegated(init[i], codec) && FromInputData(init, codec)[k] == DelegationOf(init[i], codec);
      assert entries[i] == init[i];
    } else {
      assert Delegated(last, codec);
      assert FromInputData(entries, codec)[k] == DelegationOf(entries[|entries| - 1], codec);
    }
  }

  /** The input delegations keep the entries' order: the delegations of entries laid end to
      end are the two lists of delegations laid end to end. */
  lemma {:induction false} FromInputDataAppend(a: seq<Option<InputEntry>>, b: seq<Option<InputEntry>>, codec: StakeCodec)
    ensures FromInputData(a + b, codec) == FromInputData(a, codec) + FromInputData(b, codec)
  {
    if |b| == 0 {
      assert a + b == a;
    } else {
      var init := b[..|b| - 1];
      assert (a + b)[..|a + b| - 1] == a + init;
      assert (a + b)[|a + b| - 1] == b[|b| - 1];
      FromInputDataAppend(a, init, codec);
    }
  }

  /** One entry gives its delegation exactly when it qualifies, and nothing otherwise. */
  lemma FromInputDataOne(e: Option<InputEntry>, codec: StakeCodec)
    ensures FromInputData([e], codec) == if Delegated(e, codec) then [DelegationOf(e, codec)] else []
  {
    assert [e][..0] == [];
  }

  /** Every entry that qualifies is delegated to: the list has one delegation per qualifying
      entry. */
  lemma {:induction false} AllQualifyingEntriesDelegated(entries: seq<Option<InputEntry>>, codec: StakeCodec)
    ensures (forall i :: 0 <= i < |entries| ==> Delegated(entries[i], codec)) ==>
      |FromInputData(entries, codec)| == |entries|
    ensures (forall i :: 0 <= i < |entries| ==> !Delegated(entries[i], codec)) ==>
      FromInputData(entries, codec) == []
  {
    if |entries| > 0 {
      var init := entries[..|entries| - 1];
      AllQualifyingEntriesDelegated(init, codec);
      assert forall i :: 0 <= i < |init| ==> init[i] == entries[i];
    }
  }

  /** Every validator of the params gets the same share of the screen amount. */
  lemma ParamsShareTheSplit(paramValidators: Option<seq<ScreenValidator>>, screenAmount: Option<string>,
                            codec: StakeCodec, i: nat, j: nat)
    requires i < |FromParams(paramValidators, screenAmount, codec)| && j < |FromParams(paramValidators, screenAmount, codec)|
    ensures FromParams(paramValidators, screenAmount, codec)[i].amount == FromParams(paramValidators, screenAmount, codec)[j].amount
    ensures |FromParams(paramValidators, screenAmount, codec)| == |paramValidators.value|
  {
  }

  // ---------------------------------------------------------------------------------------
  // switchNodeSelectReasons
  // ---------------------------------------------------------------------------------------

  /** `findIndex(r => r === x)`: the position of the first occurrence, -1 when there is none. */
  function FindIndex(xs: seq<string>, x: string): (r: int)
    ensures -1 <= r < |xs|
    ensures r == -1 <==> x !in xs
    ensures r >= 0 ==> xs[r] == x && forall j :: 0 <= j < r ==> xs[j] != x
  {
    if |xs| == 0 then -1
    else if xs[0] == x then 0
    else
      var k := FindIndex(xs[1..], x);
      assert x in xs[1..] ==> x in xs;
      assert x in xs && xs[0] != x ==> x in xs[1..];
      if k == -1 then -1 else k + 1
  }

  /** The reasons after toggling `x`: appended when absent, its first occurrence removed when
      present. */
  function Toggled(reasons: seq<string>, x: string): seq<string>
  {
    var k := FindIndex(reasons, x);
    if k == -1 then reasons + [x] else reasons[..k] + reasons[k + 1..]
  }

  /** `switchNodeSelectReasons`: the selected reasons of the flow (absent reads as none)
      with `infoText` toggled, by a search for its first occurrence and a push or a splice. */
  method SwitchNodeSelectReasons(stored: Option<seq<string>>, infoText: string) returns (selectReasons: seq<string>)
    ensures var before := if stored.Some? then stored.value else [];
      selectReasons == Toggled(before, infoText)
  {
    selectReasons := if stored.Some? then stored.value else [];
    var reasonIndex := -1;
    var i := 0;
    while i < |selectReasons| && reasonIndex == -1
      invariant 0 <= i <= |selectReasons|
      invariant reasonIndex == -1 ==> forall j :: 0 <= j < i ==> selectReasons[j] != infoText
      invariant reasonIndex != -1 ==> reasonIndex == FindIndex(selectReasons, infoText)
    {
      if selectReasons[i] == infoText {
        reasonIndex := i;
      }
      i := i + 1;
    }
    if reasonIndex == -1 {
      selectReasons := selectReasons + [infoText];
    } else {
      selectReasons := selectReasons[..reasonIndex] + selectReasons[reasonIndex + 1..];
    }
  }

  /** Toggling changes `x`'s count by one (up when absent, down when present) and leaves every
      other reason's count alone. */
  lemma ToggleCounts(reasons: seq<string>, x: string)
    ensures x !in reasons ==> multiset(Toggled(reasons, x)) == multiset(reasons) + multiset{x}
    ensures x in reasons ==> multiset(Toggled(reasons, x)) == multiset(reasons) - multiset{x}
  {
    var k := FindIndex(reasons, x);
    if k != -1 {
      assert reasons == reasons[..k] + [x] + reasons[k + 1..];
      calc {
        multiset(reasons);
        multiset(reasons[..k]) + multiset{x} + multiset(reasons[k + 1..]);
      }
    }
  }

  /** The other reasons keep their relative order: toggling removes or appends `x` only. */
  lemma ToggleKeepsOrder(reasons: seq<string>, x: string)
    ensures x !in reasons ==> Toggled(reasons, x)[..|reasons|] == reasons
    ensures x in reasons ==> exists k :: (0 <= k < |reasons| && reasons[k] == x
                                         && Toggled(reasons, x) == reasons[..k] + reasons[k + 1..])
  {
    var k := FindIndex(reasons, x);
  }

  /** Selecting a reason that was not selected and then unselecting it restores the list. */
  lemma ToggleTwiceRestoresAbsent(reasons: seq<string>, x: string)
    requires x !in reasons
    ensures Toggled(Toggled(reasons, x), x) == reasons
  {
    var once := reasons + [x];
    assert FindIndex(once, x) == |reasons| by {
      assert forall j :: 0 <= j < |reasons| ==> once[j] == reasons[j];
    }
    assert once[..|reasons|] == reasons;
  }

  /** Unselecting a reason selected once and selecting it again does not restore the list:
      the reason moves to the end. */
  lemma ToggleTwiceMovesPresentToEnd(reasons: seq<string>, x: string, k: nat)
    requires k < |reasons| && reasons[k] == x
    requires forall j :: 0 <= j < |reasons| && j != k ==> reasons[j] != x
    ensures Toggled(Toggled(reasons, x), x) == reasons[..k] + reasons[k + 1..] + [x]
  {
    assert FindIndex(reasons, x) == k;
    var once := reasons[..k] + reasons[k + 1..];
    forall j | 0 <= j < |once|
      ensures once[j] != x
    {
      if j < k {
        assert once[j] == reasons[j];
      } else {
        assert once[j] == reasons[j + 1];
      }
    }
    assert x !in once;
  }

  // ---------------------------------------------------------------------------------------
  // stakeNowSupportDialog
  // ---------------------------------------------------------------------------------------

  /** `s?.toLowerCase()`: absent stays absent. */
  function LowerOpt(s: Option<string>): (r: Option<string>)
    ensures r.Some? <==> s.Some?
  {
    if s.Some? then Some(ToLower(s.value)) else None
  }

  /** The validator is not the Moonlet validator: neither its address nor its id equals the
      Moonlet id ignoring case. An absent field compares equal to an absent id. */
  predicate NotMoonlet(v: ScreenValidator, moonletValidatorId: Option<string>)
  {
    LowerOpt(v.address) != LowerOpt(moonletValidatorId) && LowerOpt(v.id) != LowerOpt(moonletValidatorId)
  }

  /** `buildDummyValidator(v?.address || v?.id, v.name)`. */
  function StakeNowValidator(v: ScreenValidator): (r: DummyValidator)
    ensures r.name == v.name
    ensures r.id == if Truthy(v.address) then v.address else v.id
  {
    DummyValidator(if Truthy(v.address) then v.address else v.id, v.name)
  }

  /** The first option of `stakeNowSupportDialog`: the validators without Moonlet, each made
      into a dummy validator keyed by its address (or its id when the address is falsy). */
  function WithoutMoonlet(validators: seq<ScreenValidator>, moonletValidatorId: Option<string>): (r: seq<DummyValidator>)
    ensures |r| <= |validators|
  {
    if |validators| == 0 then []
    else
      var last := validators[|validators| - 1];
      WithoutMoonlet(validators[..|validators| - 1], moonletValidatorId)
        + (if NotMoonlet(last, moonletValidatorId)
           then [StakeNowValidator(last)]
           else [])
  }

  /** Every validator kept by the dialog, in order, is one whose address and id both differ
      from the Moonlet id in every letter case. */
  lemma {:induction false} MoonletRemoved(validators: seq<ScreenValidator>, moonletValidatorId: string, k: nat)
    requires k < |WithoutMoonlet(validators, Some(moonletValidatorId))|
    ensures exists i :: (0 <= i < |validators| && NotMoonlet(validators[i], Some(moonletValidatorId))
                         && WithoutMoonlet(validators, Some(moonletValidatorId))[k] == StakeNowValidator(validators[i]))
  {
    var init := validators[..|validators| - 1];
    if k < |WithoutMoonlet(init, Some(moonletValidatorId))| {
      MoonletRemoved(init, moonletValidatorId, k);
      var i :| 0 <= i < |init| && NotMoonlet(init[i], Some(moonletValidatorId))
        && WithoutMoonlet(init, Some(moonletValidatorId))[k] == StakeNowValidator(init[i]);
      assert validators[i] == init[i];
    } else {
      assert NotMoonlet(validators[|validators| - 1], Some(moonletValidatorId));
    }
  }

  /** The filter keeps the order: the validators kept from lists laid end to end are the two
      kept lists laid end to end. */
  lemma {:induction false} WithoutMoonletAppend(a: seq<ScreenValidator>, b: seq<ScreenValidator>, moonletValidatorId: Option<string>)
    ensures WithoutMoonlet(a + b, moonletValidatorId) == WithoutMoonlet(a, moonletValidatorId) + WithoutMoonlet(b, moonletValidatorId)
  {
    if |b| == 0 {
      assert a + b == a;
    } else {
      var init := b[..|b| - 1];
      assert (a + b)[..|a + b| - 1] == a + init;
      assert (a + b)[|a + b| - 1] == b[|b| - 1];
      WithoutMoonletAppend(a, init, moonletValidatorId);
    }
  }

  /** One validator is kept, as its dummy validator, exactly when it is not Moonlet. */
  lemma WithoutMoonletOne(v: ScreenValidator, moonletValidatorId: Option<string>)
    ensures WithoutMoonlet([v], moonletValidatorId) == if NotMoonlet(v, moonletValidatorId) then [StakeNowValidator(v)] else []
  {
    assert [v][..0] == [];
  }

  /** The count kept: every validator when none is Moonlet, none when all are. */
  lemma {:induction false} MoonletFilterBounds(validators: seq<ScreenValidator>, moonletValidatorId: Option<string>)
    ensures (forall i :: 0 <= i < |validators| ==> NotMoonlet(validators[i], moonletValidatorId)) ==>
      |WithoutMoonlet(validators, moonletValidatorId)| == |validators|
    ensures (forall i :: 0 <= i < |validators| ==> !NotMoonlet(validators[i], moonletValidatorId)) ==>
      WithoutMoonlet(validators, moonletValidatorId) == []
  {
    if |validators| > 0 {
      var init := validators[..|validators| - 1];
      MoonletFilterBounds(init, moonletValidatorId);
      assert forall i :: 0 <= i < |init| ==> init[i] == validators[i];
    }
  }

  /** The comparison ignores letter case: a validator whose id is the Moonlet id in other
      letters is removed too. */
  lemma MoonletMatchIgnoresCase(v: ScreenValidator, moonletValidatorId: string)
    requires v.id.Some? && ToLower(v.id.value) == ToLower(moonletValidatorId)
    ensures !NotMoonlet(v, Some(moonletValidatorId))
  {
  }

  // ---------------------------------------------------------------------------------------
  // navigateToStakeNowPartToMoonletCheckAmount
  // ---------------------------------------------------------------------------------------

  /** Where the check-amount action continues. */
  datatype StakeRoute = PartToMoonlet | DelegateToValidatorV2Route

  /** A number parameter is truthy when present, not NaN and not 0. */
  predicate TruthyNum(n: Option<Num>)
  {
    n.Some? && n.value.Finite? && n.value.v != 0.0
  }

  /** `minAmountToStake || 100`. */
  function MinAmountToStake(param: Option<Num>): (r: Num)
    ensures r.Finite? && r.v != 0.0
    ensures !TruthyNum(param) ==> r == Finite(100.0)
    ensures TruthyNum(param) ==> r == param.value
  {
    if TruthyNum(param) then param.value else Finite(100.0)
  }

  /** The branch: the screen amount (NaN when absent) above the minimum goes on to the
      part-to-Moonlet screen, anything else to `delegateToValidatorV2`. */
  function CheckAmountRoute(amount: Num, minAmountParam: Option<Num>): (r: StakeRoute)
    ensures r == PartToMoonlet <==> Gt(amount, MinAmountToStake(minAmountParam))
  {
    if Gt(amount, MinAmountToStake(minAmountParam)) then PartToMoonlet else DelegateToValidatorV2Route
  }

  /** Without a usable minimum the threshold is 100, and an absent or unreadable amount never
      goes to the part-to-Moonlet screen. */
  lemma CheckAmountDefaults(amount: Num, minAmountParam: Option<Num>)
    ensures !TruthyNum(minAmountParam) ==>
      (CheckAmountRoute(amount, minAmountParam) == PartToMoonlet <==> amount.Finite? && amount.v > 100.0)
    ensures amount.NaN? ==> CheckAmountRoute(amount, minAmountParam) == DelegateToValidatorV2Route
  {
  }

  /** The route is monotone in the amount: a larger amount never goes back to the plain
      delegation once a smaller one went to the part-to-Moonlet screen. */
  lemma CheckAmountMonotone(a: Num, b: Num, minAmountParam: Option<Num>)
    requires a.Finite? && b.Finite? && a.v <= b.v
    requires CheckAmountRoute(a, minAmountParam) == PartToMoonlet
    ensures CheckAmountRoute(b, minAmountParam) == PartToMoonlet
  {
  }
}
