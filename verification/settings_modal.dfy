/**
 * The personal-token settings dialog
 * (gui/src/components/settings/ModernSettingsModal.tsx): the token
 * validator, the save sequence and the live revalidation while typing.
 * The `onSave` call is a parameter: whether a handler exists and how it
 * answered.
 */
module SettingsModal {
  import opened Strings
  import opened UiKeys

  const EnterTokenMessage: string := "개인 토큰을 입력해주세요."
  const MinLengthMessage: string := "개인 토큰은 최소 10자 이상이어야 합니다."
  const SavedMessage: string := "개인 토큰이 성공적으로 저장되었습니다!"
  const SaveFailedMessage: string := "설정을 저장하는 중 오류가 발생했습니다."
  const SaveThrewPrefix: string := "저장 중 오류가 발생했습니다: "

  /** The shortest token accepted, after trimming. */
  const MinTokenLength: nat := 10

  /**
   * `validateInput`: a blank token asks for one, a trimmed token shorter
   * than ten characters is too short, anything else is accepted ("").
   */
  function ValidateInput(token: string): (error: string)
    ensures error == EnterTokenMessage <==> Trim(token) == ""
    ensures error == MinLengthMessage <==> 0 < |Trim(token)| < MinTokenLength
    ensures error == "" <==> |Trim(token)| >= MinTokenLength
  {
    if Trim(token) == "" then EnterTokenMessage
    else if |Trim(token)| < MinTokenLength then MinLengthMessage
    else ""
  }

  /** What is handed to `onSave` passes the same validation as what was typed. */
  lemma SavedTokenIsValid(token: string)
    ensures ValidateInput(Trim(token)) == ValidateInput(token)
    ensures ValidateInput(token) == "" ==> |Trim(token)| >= MinTokenLength && Trim(Trim(token)) == Trim(token)
  {
    TrimIdempotent(token);
  }

  /** How the awaited `onSave` went: it resolved to a boolean, or it threw (shown as text). */
  datatype SaveOutcome = Resolved(success: bool) | Threw(error: string)

  /** `messageType`. */
  datatype MessageKind = NoMessage | SuccessMessage | ErrorMessage | InfoMessage

  /** The message shown after an attempt that reached `onSave`. */
  function SaveMessage(outcome: SaveOutcome): (r: (string, MessageKind))
    ensures r.1 == SuccessMessage <==> outcome == Resolved(true)
    ensures r.1 == ErrorMessage <==> outcome != Resolved(true)
    ensures outcome == Resolved(true) ==> r.0 == SavedMessage
    ensures outcome == Resolved(false) ==> r.0 == SaveFailedMessage
    ensures outcome.Threw? ==> r.0 == SaveThrewPrefix + outcome.error
  {
    match outcome
    case Resolved(true) => (SavedMessage, SuccessMessage)
    case Resolved(false) => (SaveFailedMessage, ErrorMessage)
    case Threw(e) => (SaveThrewPrefix + e, ErrorMessage)
  }

  /** The dialog's state. `saveCalls` records each token handed to `onSave`; `closeTimer` the close scheduled after a save. */
  class SettingsForm {
    var personalToken: string
    var showPassword: bool
    var isLoading: bool
    var validationError: string
    var hasAttemptedSave: bool
    var message: string
    var messageType: MessageKind
    var saveCalls: seq<string>
    var closeTimer: bool
    var closeRequests: nat

    /** A shown validation error always belongs to the current token, and only appears after a save attempt. */
    predicate ErrorIsCurrent()
      reads this
    {
      ErrorAfterAttempt() && (validationError != "" ==> validationError == ValidateInput(personalToken))
    }

    /**
     * A validation error only ever appears after a save attempt. This holds
     * in every state the dialog reaches, also after a reopen that replaced
     * the token and left the error of the old one on screen.
     */
    predicate ErrorAfterAttempt()
      reads this
    {
      validationError != "" ==> hasAttemptedSave
    }

    constructor()
      ensures ErrorIsCurrent()
      ensures personalToken == "" && !showPassword && !isLoading && validationError == ""
      ensures !hasAttemptedSave && message == "" && messageType == NoMessage
      ensures saveCalls == [] && !closeTimer && closeRequests == 0
    {
      personalToken := "";
      showPassword := false;
      isLoading := false;
      validationError := "";
      hasAttemptedSave := false;
      message := "";
      messageType := NoMessage;
      saveCalls := [];
      closeTimer := false;
      closeRequests := 0;
    }

    /**
     * The effect run when the dialog opens: a stored token that is not
     * empty replaces the field, and the message is cleared. The
     * validation error is left as it was.
     */
    method OnOpen(initialToken: string)
      modifies this
      ensures personalToken == (if initialToken != "" then initialToken else old(personalToken))
      ensures message == "" && messageType == NoMessage
      ensures validationError == old(validationError) && hasAttemptedSave == old(hasAttemptedSave)
      ensures isLoading == old(isLoading) && showPassword == old(showPassword)
      ensures saveCalls == old(saveCalls) && closeTimer == old(closeTimer) && closeRequests == old(closeRequests)
      ensures old(ErrorAfterAttempt()) ==> ErrorAfterAttempt()
    {
      if initialToken != "" {
        personalToken := initialToken;
      }
      message := "";
      messageType := NoMessage;
    }

    /** `handleKeyDown`: Escape asks to close; other keys do nothing. */
    method HandleKeyDown(key: Key)
      modifies this
      ensures closeRequests == old(closeRequests) + (if key == Escape then 1 else 0)
      ensures personalToken == old(personalToken) && validationError == old(validationError)
      ensures hasAttemptedSave == old(hasAttemptedSave) && isLoading == old(isLoading)
      ensures message == old(message) && messageType == old(messageType) && showPassword == old(showPassword)
      ensures saveCalls == old(saveCalls) && closeTimer == old(closeTimer)
    {
      if key == Escape {
        closeRequests := closeRequests + 1;
      }
    }

    /** `togglePasswordVisibility`. */
    method TogglePasswordVisibility()
      modifies this
      ensures showPassword == !old(showPassword)
      ensures personalToken == old(personalToken) && validationError == old(validationError)
      ensures hasAttemptedSave == old(hasAttemptedSave) && isLoading == old(isLoading)
      ensures message == old(message) && messageType == old(messageType)
      ensures saveCalls == old(saveCalls) && closeTimer == old(closeTimer) && closeRequests == old(closeRequests)
    {
      showPassword := !showPassword;
    }

    /**
     * The input's `onChange`: the field takes the new text; only after a
     * save attempt that left an error is the new text revalidated, by the
     * same rules as `validateInput`.
     */
    method HandleTokenChange(newValue: string)
      modifies this
      ensures old(ErrorAfterAttempt()) ==> ErrorIsCurrent()
      ensures personalToken == newValue
      ensures validationError ==
        (if old(hasAttemptedSave) && old(validationError) != "" then ValidateInput(newValue) else old(validationError))
      ensures hasAttemptedSave == old(hasAttemptedSave) && isLoading == old(isLoading)
      ensures message == old(message) && messageType == old(messageType) && showPassword == old(showPassword)
      ensures saveCalls == old(saveCalls) && closeTimer == old(closeTimer) && closeRequests == old(closeRequests)
    {
      personalToken := newValue;
      if hasAttemptedSave && validationError != "" {
        var error := "";
        if Trim(newValue) == "" {
          error := EnterTokenMessage;
        } else if |Trim(newValue)| < 10 {
          error := MinLengthMessage;
        }
        validationError := error;
      }
    }

    /**
     * `handleSave`: without a handler nothing happens. Otherwise the
     * attempt is recorded and the token validated; an invalid token stops
     * there. A valid one is handed to `onSave` trimmed; success clears the
     * validation error, shows the success message and schedules the
     * close; failure or a throw shows an error message. Loading is off
     * again at the end.
     */
    method HandleSave(hasOnSave: bool, outcome: SaveOutcome)
      modifies this
      ensures hasOnSave ==> ErrorIsCurrent()
      ensures !hasOnSave ==>
        personalToken == old(personalToken) && validationError == old(validationError)
        && hasAttemptedSave == old(hasAttemptedSave) && isLoading == old(isLoading)
        && message == old(message) && messageType == old(messageType)
        && saveCalls == old(saveCalls) && closeTimer == old(closeTimer)
      ensures hasOnSave ==> hasAttemptedSave
      ensures hasOnSave && ValidateInput(old(personalToken)) != "" ==>
        validationError == ValidateInput(old(personalToken)) && isLoading == old(isLoading)
        && message == old(message) && messageType == old(messageType)
        && saveCalls == old(saveCalls) && closeTimer == old(closeTimer)
      ensures hasOnSave && ValidateInput(old(personalToken)) == "" ==>
        saveCalls == old(saveCalls) + [Trim(old(personalToken))]
        && validationError == "" && !isLoading
        && (message, messageType) == SaveMessage(outcome)
        && closeTimer == (old(closeTimer) || outcome == Resolved(true))
      ensures personalToken == old(personalToken) && showPassword == old(showPassword)
      ensures closeRequests == old(closeRequests)
    {
      if !hasOnSave {
        return;
      }
      hasAttemptedSave := true;
      var error := ValidateInput(personalToken);
      validationError := error;
      if error != "" {
        return;
      }
      isLoading := true;
      saveCalls := saveCalls + [Trim(personalToken)];
      ShowSaveResult(outcome);
      isLoading := false;
    }

    /** The `try`/`catch` of `handleSave` once `onSave` has answered. */
    method ShowSaveResult(outcome: SaveOutcome)
      modifies this
      ensures (message, messageType) == SaveMessage(outcome)
      ensures validationError == (if outcome == Resolved(true) then "" else old(validationError))
      ensures closeTimer == (old(closeTimer) || outcome == Resolved(true))
      ensures personalToken == old(personalToken) && showPassword == old(showPassword) && isLoading == old(isLoading)
      ensures hasAttemptedSave == old(hasAttemptedSave) && saveCalls == old(saveCalls) && closeRequests == old(closeRequests)
    {
      match outcome {
        case Resolved(success) =>
          if success {
            validationError := "";
            message := SavedMessage;
            messageType := SuccessMessage;
            closeTimer := true;
          } else {
            message := SaveFailedMessage;
            messageType := ErrorMessage;
          }
        case Threw(e) =>
          message := SaveThrewPrefix + e;
          messageType := ErrorMessage;
      }
    }
  }

  /**
   * Typing while a validation error is shown (current or left over from a
   * reopen) shows an error exactly when the new text is still invalid, and then the right one.
   */
  method TypeAfterFailedSave(form: SettingsForm, newValue: string)
    requires form.hasAttemptedSave && form.validationError != ""
    modifies form
    ensures form.validationError == ValidateInput(newValue)
    ensures form.validationError == "" <==> |Trim(newValue)| >= MinTokenLength
  {
    form.HandleTokenChange(newValue);
  }
}
