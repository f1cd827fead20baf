/** The PIN-entry modal (src/components/password-modal/password-modal-component.tsx): a state
    machine over the screen step, the PIN typed so far and whether failed attempts are counted,
    together with the failed-login counter and the lock-out time kept in the application store.
    Reading the keychain, the clock and the biometric prompt are inputs; titles, subtitles, the
    countdown timer and navigation are not part of this model. */
module PasswordModal {
  import opened Common
  import opened AppConstants

  /** `ScreenStep`. */
  datatype ScreenStep =
    | EnterPin
    | CreatePinTerms | CreatePin | CreatePinConfirm
    | ChangePinTerms | ChangePinCurrent | ChangePinNew | ChangePinConfirm

  /** The error line shown under the PIN pad. */
  datatype ErrorMessage =
    | NoMessage
    | InvalidPassword                    // a wrong PIN that is not counted
    | InvalidPasswordAttempts(attempts: int)
    | InvalidPasswordLastAttempt         // one more wrong PIN wipes the app
    | GenericError                       // the keychain could not be read

  /** The promise returned to the caller of an entry point. A deferred settles once. */
  datatype Settlement = Unsettled | ResolvedWith(pin: Option<string>) | RejectedResult

  /** What `verifyPassword` found: the PIN matches the keychain (always on the web), it does
      not, or the keychain threw. */
  datatype Verification = Verified | NotVerified | KeychainFailed

  /** What the PIN pad handed to `updateState`: the PIN typed (absent on the terms screens
      and for a biometric login) and whether a biometric login succeeded. */
  datatype PinInput = PinInput(pin: Option<string>, biometryAuthResult: bool)

  /** A snapshot of the component state, the store fields it reads and the calls it made:
      `savedPins` are the `setPassword` calls, `pinChanges` the `changePIN(new, old)` calls,
      `wiped` whether `resetAllData` was called. `blockUntil` is a time in milliseconds. */
  datatype ModalState = ModalState(
    visible: bool,
    currentStep: Option<ScreenStep>,
    password: Option<string>,
    newPassword: Option<string>,
    errorMessage: ErrorMessage,
    enableBiometryAuth: bool,
    allowBackButton: bool,
    showAttempts: bool,
    failedLogins: int,
    blockUntil: Option<int>,
    result: Settlement,
    savedPins: seq<Option<string>>,
    pinChanges: seq<(Option<string>, Option<string>)>,
    wiped: bool)

  // ---------------------------------------------------------------------------------------
  // Remaining attempts

  /** The counts at which a wrong PIN locks or wipes the app, largest first: the keys of
      `FAILED_LOGIN_BLOCKING` together with `RESET_APP_FAILED_LOGINS`, sorted downwards. */
  const ATTEMPT_THRESHOLDS: seq<int> := [15, 12, 9, 6, 3]

  /** The thresholds are exactly the lock-out counts and the wipe count, in strictly
      decreasing order. */
  lemma ThresholdsSorted()
    ensures |ATTEMPT_THRESHOLDS| == |BLOCKING_THRESHOLDS| + 1
    ensures forall t :: t in ATTEMPT_THRESHOLDS <==> t in BLOCKING_THRESHOLDS || t == RESET_APP_FAILED_LOGINS
    ensures forall i, j :: 0 <= i < j < |ATTEMPT_THRESHOLDS| ==> ATTEMPT_THRESHOLDS[i] > ATTEMPT_THRESHOLDS[j]
  {
  }

  /** The next count at which something happens: the smallest threshold above `failedLogins`,
      or the wipe count once every threshold has been passed. */
  function NextThreshold(failedLogins: int): (t: int)
  {
    if failedLogins < 3 then 3
    else if failedLogins < 6 then 6
    else if failedLogins < 9 then 9
    else if failedLogins < 12 then 12
    else 15
  }

  /** `NextThreshold` is a threshold, lies above any counter short of the wipe, and no
      threshold above the counter is smaller. */
  lemma NextThresholdIsSmallest(failedLogins: int)
    ensures NextThreshold(failedLogins) in ATTEMPT_THRESHOLDS
    ensures failedLogins < RESET_APP_FAILED_LOGINS ==> failedLogins < NextThreshold(failedLogins)
    ensures forall u :: u in ATTEMPT_THRESHOLDS && failedLogins < u ==> NextThreshold(failedLogins) <= u
  {
  }

  /** The computation of `handlePasswordAttempts`: the last position in the downward-sorted
      thresholds whose threshold is still above the counter (position 0 when there is none),
      and the number of wrong PINs left before the count at that position. */
  method RemainingAttempts(failedLogins: int) returns (attempts: int)
    ensures attempts == NextThreshold(failedLogins) - failedLogins - 1
  {
    var index := 0;
    var i := 0;
    while i < |ATTEMPT_THRESHOLDS|
      invariant 0 <= i <= |ATTEMPT_THRESHOLDS|
      invariant 0 <= index < |ATTEMPT_THRESHOLDS| && (index < i || index == 0)
      invariant index == 0 || failedLogins < ATTEMPT_THRESHOLDS[index]
      invariant forall j :: index < j < i ==> ATTEMPT_THRESHOLDS[j] <= failedLogins
    {
      if failedLogins < ATTEMPT_THRESHOLDS[i] {
        index := i;
      }
      i := i + 1;
    }
    NextThresholdIsSmallest(failedLogins);
    attempts := ATTEMPT_THRESHOLDS[index] - failedLogins - 1;
  }

  /** The number of attempts shown is what is left before the next lock-out (or the wipe): the
      counter plus the attempts plus one is a threshold, and no threshold lies in between. */
  lemma AttemptsReachNextThreshold(failedLogins: int)
    requires 0 <= failedLogins < RESET_APP_FAILED_LOGINS
    ensures var a := NextThreshold(failedLogins) - failedLogins - 1;
      0 <= a <= 2 && failedLogins + a + 1 in ATTEMPT_THRESHOLDS
      && forall c :: failedLogins < c <= failedLogins + a ==> c !in ATTEMPT_THRESHOLDS
  {
  }

  /** The message `handlePasswordAttempts` shows for the (already incremented) counter. */
  function AttemptsMessage(failedLogins: int): (m: ErrorMessage)
    ensures m.InvalidPasswordLastAttempt? <==> failedLogins == RESET_APP_FAILED_LOGINS - 1
    ensures m.InvalidPasswordAttempts? ==> m.attempts == NextThreshold(failedLogins) - failedLogins - 1
    ensures m.InvalidPasswordAttempts? || m.InvalidPasswordLastAttempt?
  {
    if failedLogins == RESET_APP_FAILED_LOGINS - 1 then InvalidPasswordLastAttempt
    else InvalidPasswordAttempts(NextThreshold(failedLogins) - failedLogins - 1)
  }

  // ---------------------------------------------------------------------------------------
  // The transition functions

  /** A deferred settles once: later resolutions are ignored. */
  function Settle(r: Settlement, v: Settlement): Settlement
  {
    if r.Unsettled? then v else r
  }

  /** `handleWrongPassword` at time `now`. When attempts are counted the counter is
      incremented, the attempts message is shown, a lock-out count sets the lock-out time and
      the wipe count hides the modal, wipes the data and resets the counter. Otherwise only the
      message changes. */
  function WrongPin(s: ModalState, now: int): ModalState
  {
    if s.showAttempts then
      var count := s.failedLogins + 1;
      var blockUntil := match FailedLoginBlocking(count)
        case Some(duration) => Some(now + duration)
        case None => s.blockUntil;
      var counted := s.(failedLogins := count, errorMessage := AttemptsMessage(count), blockUntil := blockUntil);
      if count == RESET_APP_FAILED_LOGINS then counted.(visible := false, wiped := true, failedLogins := 0)
      else counted
    else
      s.(errorMessage := InvalidPassword)
  }

  /** What `verifyPassword` leaves behind before the step is handled: a keychain failure
      shows the generic error. */
  function Prelude(s: ModalState, v: Verification): ModalState
  {
    if v == KeychainFailed then s.(errorMessage := GenericError) else s
  }

  /** The `switch` of `updateState` over the current step, with `valid` whether the PIN (or
      the biometric login) was accepted. */
  function Respond(s: ModalState, input: PinInput, valid: bool, now: int): ModalState
  {
    match s.currentStep
    case None => s
    case Some(EnterPin) =>
      if valid then
        s.(failedLogins := 0, blockUntil := None, visible := false,
           result := Settle(s.result, ResolvedWith(input.pin)))
      else WrongPin(s, now)
    case Some(CreatePinTerms) => s.(currentStep := Some(CreatePin))
    case Some(CreatePin) => s.(currentStep := Some(CreatePinConfirm), password := input.pin)
    case Some(CreatePinConfirm) =>
      if s.password == input.pin then
        s.(savedPins := s.savedPins + [input.pin], visible := false,
           result := Settle(s.result, ResolvedWith(input.pin)))
      else WrongPin(s, now)
    case Some(ChangePinTerms) => s.(currentStep := Some(ChangePinCurrent))
    case Some(ChangePinCurrent) =>
      if valid then s.(currentStep := Some(ChangePinNew), password := input.pin)
      else WrongPin(s, now)
    case Some(ChangePinNew) =>
      s.(currentStep := Some(ChangePinConfirm), newPassword := input.pin, showAttempts := false)
    case Some(ChangePinConfirm) =>
      if s.newPassword == input.pin then
        s.(pinChanges := s.pinChanges + [(s.newPassword, s.password)],
           savedPins := s.savedPins + [s.newPassword], visible := false,
           result := Settle(s.result, ResolvedWith(s.newPassword)))
      else WrongPin(s, now)
  }

  /** `updateState`: one PIN (or terms acknowledgement, or biometric login) handed to the
      modal in state `s`, with `v` what the keychain comparison found. */
  function Next(s: ModalState, input: PinInput, v: Verification, now: int): ModalState
  {
    Respond(Prelude(s, v), input, v == Verified || input.biometryAuthResult, now)
  }

  /** `isMoonletDisabled`: a lock-out time is set and lies after `now`. */
  predicate Disabled(s: ModalState, now: int)
  {
    s.blockUntil.Some? && s.blockUntil.value > now
  }

  // ---------------------------------------------------------------------------------------
  // The component

  class PasswordModalComponent {
    var visible: bool
    var currentStep: Option<ScreenStep>
    var password: Option<string>
    var newPassword: Option<string>
    var errorMessage: ErrorMessage
    var enableBiometryAuth: bool
    var allowBackButton: bool
    var showAttempts: bool
    /** `failedLogins` and `blockUntil` of the application store. */
    var failedLogins: int
    var blockUntil: Option<int>
    var result: Settlement
    var savedPins: seq<Option<string>>
    var pinChanges: seq<(Option<string>, Option<string>)>
    var wiped: bool

    function State(): ModalState
      reads this
    {
      ModalState(visible, currentStep, password, newPassword, errorMessage, enableBiometryAuth,
                 allowBackButton, showAttempts, failedLogins, blockUntil, result, savedPins,
                 pinChanges, wiped)
    }

    /** A hidden modal with no step, over the store's counter and lock-out time. */
    constructor(storedFailedLogins: int, storedBlockUntil: Option<int>)
      ensures State() == ModalState(false, None, None, None, NoMessage, true, false, false,
                                    storedFailedLogins, storedBlockUntil, Unsettled, [], [], false)
    {
      visible := false;
      currentStep := None;
      password := None;
      newPassword := None;
      errorMessage := NoMessage;
      enableBiometryAuth := true;
      allowBackButton := false;
      showAttempts := false;
      failedLogins := storedFailedLogins;
      blockUntil := storedBlockUntil;
      result := Unsettled;
      savedPins := [];
      pinChanges := [];
      wiped := false;
    }

    /** `getPassword`: ask for the PIN, counting failures. When the caller wants a PIN to exist
        and the keychain holds none, the returned promise is rejected at once (the modal is
        shown all the same). */
    method GetPassword(shouldCreatePassword: bool, keychainHasPassword: bool)
      modifies this
      ensures State() == old(State()).(
        visible := true, currentStep := Some(EnterPin), errorMessage := NoMessage,
        enableBiometryAuth := true, allowBackButton := false, showAttempts := true,
        result := if shouldCreatePassword && !keychainHasPassword then RejectedResult else Unsettled)
    {
      result := Unsettled;
      if shouldCreatePassword && !keychainHasPassword {
        result := RejectedResult;
      }
      errorMessage := NoMessage;
      visible := true;
      currentStep := Some(EnterPin);
      enableBiometryAuth := true;
      allowBackButton := false;
      showAttempts := true;
    }

    /** `createPassword`: terms first, failures not counted, back allowed. */
    method CreatePassword()
      modifies this
      ensures State() == old(State()).(
        visible := true, currentStep := Some(CreatePinTerms), errorMessage := NoMessage,
        enableBiometryAuth := false, allowBackButton := true, showAttempts := false, result := Unsettled)
    {
      result := Unsettled;
      errorMessage := NoMessage;
      visible := true;
      currentStep := Some(CreatePinTerms);
      enableBiometryAuth := false;
      allowBackButton := true;
      showAttempts := false;
    }

    /** `changePassword`: terms first, failures counted, back allowed. */
    method ChangePassword()
      modifies this
      ensures State() == old(State()).(
        visible := true, currentStep := Some(ChangePinTerms), errorMessage := NoMessage,
        enableBiometryAuth := false, allowBackButton := true, showAttempts := true, result := Unsettled)
    {
      result := Unsettled;
      errorMessage := NoMessage;
      visible := true;
      currentStep := Some(ChangePinTerms);
      enableBiometryAuth := false;
      allowBackButton := true;
      showAttempts := true;
    }

    /** `onBackButtonTap`: hide the modal and reject the promise. */
    method OnBackButtonTap()
      modifies this
      ensures State() == old(State()).(visible := false, result := Settle(old(result), RejectedResult))
    {
      visible := false;
      if result.Unsettled? {
        result := RejectedResult;
      }
    }

    /** `handlePasswordAttempts`: show how many attempts are left for the current counter. */
    method HandlePasswordAttempts()
      modifies this
      ensures State() == old(State()).(errorMessage := AttemptsMessage(old(failedLogins)))
    {
      var attempts := RemainingAttempts(failedLogins);
      if failedLogins == RESET_APP_FAILED_LOGINS - 1 {
        errorMessage := InvalidPasswordLastAttempt;
      } else {
        errorMessage := InvalidPasswordAttempts(attempts);
      }
    }

    /** `handleWrongPassword` at time `now`. */
    method HandleWrongPassword(now: int)
      modifies this
      ensures State() == WrongPin(old(State()), now)
    {
      if showAttempts {
        failedLogins := failedLogins + 1;
        HandlePasswordAttempts();
        var duration := FailedLoginBlocking(failedLogins);
        if duration.Some? {
          blockUntil := Some(now + duration.value);
        }
        if failedLogins == RESET_APP_FAILED_LOGINS {
          visible := false;
          wiped := true;
          failedLogins := 0;
        }
      } else {
        errorMessage := InvalidPassword;
      }
    }

    /** `updateState`: the keychain answer is read first, then the step decides. */
    method UpdateState(input: PinInput, v: Verification, now: int)
      modifies this
      ensures State() == Next(old(State()), input, v, now)
    {
      if v == KeychainFailed {
        errorMessage := GenericError;
      }
      var isPasswordValid := v == Verified || input.biometryAuthResult;
      match currentStep {
        case None =>
        case Some(EnterPin) =>
          EnterPinFlow(input, isPasswordValid, now);
        case Some(CreatePinTerms) =>
          CreatePinFlow(input, isPasswordValid, now);
        case Some(CreatePin) =>
          CreatePinFlow(input, isPasswordValid, now);
        case Some(CreatePinConfirm) =>
          CreatePinFlow(input, isPasswordValid, now);
        case Some(ChangePinTerms) =>
          ChangePinFlow(input, isPasswordValid, now);
        case Some(ChangePinCurrent) =>
          ChangePinFlow(input, isPasswordValid, now);
        case Some(ChangePinNew) =>
          ChangePinFlow(input, isPasswordValid, now);
        case Some(ChangePinConfirm) =>
          ChangePinFlow(input, isPasswordValid, now);
      }
    }

    /** The ENTER_PIN case of `updateState`. */
    method EnterPinFlow(input: PinInput, isPasswordValid: bool, now: int)
      requires currentStep == Some(EnterPin)
      modifies this
      ensures State() == Respond(old(State()), input, isPasswordValid, now)
    {
      if isPasswordValid {
        failedLogins := 0;
        blockUntil := None;
        visible := false;
        result := Settle(result, ResolvedWith(input.pin));
      } else {
        HandleWrongPassword(now);
      }
    }

    /** The CREATE_PIN_* cases of `updateState`. */
    method CreatePinFlow(input: PinInput, isPasswordValid: bool, now: int)
      requires currentStep in {Some(CreatePinTerms), Some(CreatePin), Some(CreatePinConfirm)}
      modifies this
      ensures State() == Respond(old(State()), input, isPasswordValid, now)
    {
      if currentStep == Some(CreatePinTerms) {
        currentStep := Some(CreatePin);
      } else if currentStep == Some(CreatePin) {
        currentStep := Some(CreatePinConfirm);
        password := input.pin;
      } else if password == input.pin {
        savedPins := savedPins + [input.pin];
        visible := false;
        result := Settle(result, ResolvedWith(input.pin));
      } else {
        HandleWrongPassword(now);
      }
    }

    /** The CHANGE_PIN_* cases of `updateState`. */
    method ChangePinFlow(input: PinInput, isPasswordValid: bool, now: int)
      requires currentStep in {Some(ChangePinTerms), Some(ChangePinCurrent), Some(ChangePinNew), Some(ChangePinConfirm)}
      modifies this
      ensures State() == Respond(old(State()), input, isPasswordValid, now)
    {
      if currentStep == Some(ChangePinTerms) {
        currentStep := Some(ChangePinCurrent);
      } else if currentStep == Some(ChangePinCurrent) {
        ChangePinCurrentFlow(input, isPasswordValid, now);
      } else if currentStep == Some(ChangePinNew) {
        currentStep := Some(ChangePinConfirm);
        newPassword := input.pin;
        showAttempts := false;
      } else {
        ChangePinConfirmFlow(input, isPasswordValid, now);
      }
    }

    /** The CHANGE_PIN_CURRENT case: an accepted current PIN is kept and the new one asked. */
    method ChangePinCurrentFlow(input: PinInput, isPasswordValid: bool, now: int)
      requires currentStep == Some(ChangePinCurrent)
      modifies this
      ensures State() == Respond(old(State()), input, isPasswordValid, now)
    {
      if isPasswordValid {
        currentStep := Some(ChangePinNew);
        password := input.pin;
      } else {
        HandleWrongPassword(now);
      }
    }

    /** The CHANGE_PIN_CONFIRM case: a matching confirmation changes and saves the PIN. */
    method ChangePinConfirmFlow(input: PinInput, isPasswordValid: bool, now: int)
      requires currentStep == Some(ChangePinConfirm)
      modifies this
      ensures State() == Respond(old(State()), input, isPasswordValid, now)
    {
      if newPassword == input.pin {
        pinChanges := pinChanges + [(newPassword, password)];
        savedPins := savedPins + [newPassword];
        visible := false;
        result := Settle(result, ResolvedWith(newPassword));
      } else {
        HandleWrongPassword(now);
      }
    }

    /** `isMoonletDisabled`. */
    function IsMoonletDisabled(now: int): (r: bool)
      reads this
      ensures r <==> Disabled(State(), now)
    {
      blockUntil.Some? && blockUntil.value > now
    }
  }

  // ---------------------------------------------------------------------------------------
  // Properties of the machine

  /** The counter never reaches the wipe count: every transition keeps it in 0..14. */
  predicate CounterInRange(s: ModalState)
  {
    0 <= s.failedLogins < RESET_APP_FAILED_LOGINS
  }

  lemma WrongPinKeepsCounterInRange(s: ModalState, now: int)
    requires CounterInRange(s)
    ensures CounterInRange(WrongPin(s, now))
  {
  }

  lemma {:induction false} NextKeepsCounterInRange(s: ModalState, input: PinInput, v: Verification, now: int)
    requires CounterInRange(s)
    ensures CounterInRange(Next(s, input, v, now))
  {
    var s1 := Prelude(s, v);
    assert CounterInRange(s1);
    WrongPinKeepsCounterInRange(s1, now);
    RespondCounter(s1, input, v == Verified || input.biometryAuthResult, now);
  }

  /** The counter after any step: unchanged, cleared, or as a wrong PIN leaves it. */
  lemma RespondCounter(s: ModalState, input: PinInput, valid: bool, now: int)
    ensures var c := Respond(s, input, valid, now).failedLogins;
      c == s.failedLogins || c == 0 || c == WrongPin(s, now).failedLogins
  {
    var r := Respond(s, input, valid, now);
    match s.currentStep
    case None =>
    case Some(step) =>
      if step == EnterPin && valid {
        assert r.failedLogins == 0;
      } else if (step == EnterPin || step == ChangePinCurrent) && !valid {
        assert r == WrongPin(s, now);
      } else if step == CreatePinConfirm && s.password != input.pin {
        assert r == WrongPin(s, now);
      } else if step == ChangePinConfirm && s.newPassword != input.pin {
        assert r == WrongPin(s, now);
      } else {
        assert r.failedLogins == s.failedLogins;
      }
  }

  /** A correct PIN (or a biometric login) on the unlock screen clears the counter and the
      lock-out, hides the modal and resolves the promise with what was typed. */
  lemma UnlockResets(s: ModalState, input: PinInput, v: Verification, now: int)
    requires s.currentStep == Some(EnterPin) && s.result.Unsettled?
    requires v == Verified || input.biometryAuthResult
    ensures var r := Next(s, input, v, now);
      r.failedLogins == 0 && !Disabled(r, now) && !r.visible && r.result == ResolvedWith(input.pin)
      && r.wiped == s.wiped && r.savedPins == s.savedPins
  {
  }

  /** A wrong PIN when attempts are not counted leaves the counter, the lock-out and the step
      alone and only shows the invalid-PIN message. */
  lemma UncountedWrongPinOnlyWarns(s: ModalState, now: int)
    requires !s.showAttempts
    ensures WrongPin(s, now) == s.(errorMessage := InvalidPassword)
  {
  }

  /** A counted wrong PIN short of the wipe increments the counter and shows what is left;
      none changes the step, the PINs typed or the promise. */
  lemma CountedWrongPin(s: ModalState, now: int)
    requires s.showAttempts && s.failedLogins + 1 < RESET_APP_FAILED_LOGINS
    ensures var r := WrongPin(s, now);
      r.failedLogins == s.failedLogins + 1 && r.errorMessage == AttemptsMessage(r.failedLogins)
      && r.currentStep == s.currentStep && r.result == s.result
      && r.password == s.password && r.newPassword == s.newPassword && r.wiped == s.wiped
  {
  }

  /** A wrong PIN that brings the counter to a lock-out count locks the app for exactly the
      table's duration from now. */
  lemma LockOutLastsItsDuration(s: ModalState, now: int, t: int)
    requires s.showAttempts && FailedLoginBlocking(s.failedLogins + 1).Some?
    ensures var r := WrongPin(s, now);
      r.failedLogins == s.failedLogins + 1 && r.wiped == s.wiped
      && (Disabled(r, t) <==> t < now + FailedLoginBlocking(s.failedLogins + 1).value)
  {
    WipeAfterEveryLockout(s.failedLogins + 1);
  }

  /** The fifteenth wrong PIN in a row (counted) wipes the data and starts the counter over. */
  lemma FifteenthWrongPinWipes(s: ModalState, now: int)
    requires s.showAttempts && s.failedLogins == RESET_APP_FAILED_LOGINS - 1
    ensures var r := WrongPin(s, now);
      r.wiped && r.failedLogins == 0 && !r.visible && r.errorMessage == AttemptsMessage(RESET_APP_FAILED_LOGINS)
  {
  }

  /** The fourteenth wrong PIN shows the last-attempt warning and locks nothing. */
  lemma FourteenthWrongPinWarns(s: ModalState, now: int)
    requires s.showAttempts && s.failedLogins == RESET_APP_FAILED_LOGINS - 2
    ensures var r := WrongPin(s, now);
      r.errorMessage == InvalidPasswordLastAttempt && r.blockUntil == s.blockUntil && r.wiped == s.wiped
  {
  }

  /** The create flow: terms, a PIN, the same PIN again resolves with that PIN and saves it
      once; no failed attempt is counted on the way. */
  lemma CreateFlowResolves(s: ModalState, pin: string, v1: Verification, v2: Verification, v3: Verification, now: int)
    requires s.currentStep == Some(CreatePinTerms) && s.result.Unsettled?
    requires v1 != KeychainFailed && v2 != KeychainFailed && v3 != KeychainFailed
    ensures var s1 := Next(s, PinInput(None, false), v1, now);
      var s2 := Next(s1, PinInput(Some(pin), false), v2, now);
      var s3 := Next(s2, PinInput(Some(pin), false), v3, now);
      s1.currentStep == Some(CreatePin) && s2.currentStep == Some(CreatePinConfirm)
      && s3.result == ResolvedWith(Some(pin)) && s3.savedPins == s.savedPins + [Some(pin)]
      && !s3.visible && s3.failedLogins == s.failedLogins
  {
  }

  /** A confirmation that differs from the PIN chosen keeps the confirm step, and with
      attempts not counted (as `createPassword` sets) nothing but the message changes. */
  lemma CreateMismatchStays(s: ModalState, pin: string, v: Verification, now: int)
    requires s.currentStep == Some(CreatePinConfirm) && s.password != Some(pin) && !s.showAttempts
    requires v != KeychainFailed
    ensures Next(s, PinInput(Some(pin), false), v, now) == s.(errorMessage := InvalidPassword)
  {
  }

  /** The change flow: terms, the current PIN (accepted), a new PIN and the same new PIN again
      calls `changePIN(new, old)`, saves the new PIN and resolves with it. After the new PIN
      is chosen, attempts are no longer counted. */
  lemma ChangeFlowResolves(s: ModalState, old_pin: string, new_pin: string, now: int)
    requires s.currentStep == Some(ChangePinTerms) && s.result.Unsettled?
    ensures var s1 := Next(s, PinInput(None, false), NotVerified, now);
      var s2 := Next(s1, PinInput(Some(old_pin), false), Verified, now);
      var s3 := Next(s2, PinInput(Some(new_pin), false), NotVerified, now);
      var s4 := Next(s3, PinInput(Some(new_pin), false), NotVerified, now);
      s2.currentStep == Some(ChangePinNew) && s2.password == Some(old_pin)
      && s3.currentStep == Some(ChangePinConfirm) && !s3.showAttempts
      && s4.pinChanges == s.pinChanges + [(Some(new_pin), Some(old_pin))]
      && s4.savedPins == s.savedPins + [Some(new_pin)]
      && s4.result == ResolvedWith(Some(new_pin)) && !s4.visible
  {
  }

  /** The current PIN of the change flow is checked: a PIN the keychain does not confirm keeps
      the step and counts a failure when attempts are shown. */
  lemma ChangeRejectsWrongCurrent(s: ModalState, pin: Option<string>, now: int)
    requires s.currentStep == Some(ChangePinCurrent) && s.showAttempts && CounterInRange(s)
    requires s.failedLogins + 1 < RESET_APP_FAILED_LOGINS
    ensures var r := Next(s, PinInput(pin, false), NotVerified, now);
      r.currentStep == Some(ChangePinCurrent) && r.failedLogins == s.failedLogins + 1 && r.password == s.password
  {
  }
}
