/**
 * The change-password dialog: two local checks in a fixed order, then a
 * request to `/api/user/change-password` whose failure message is shown
 * in the dialog.
 */
module ChangePasswordModal {
  import opened Wrappers

  const MismatchError := "New passwords do not match."
  const TooShortError := "New password must be at least 6 characters long."
  const DefaultFailure := "Failed to change password."
  const MinPasswordLength := 6

  /** The verdict of the local checks. */
  datatype Check = Mismatch | TooShort | Proceed

  /**
   * The guards of `handleSubmit`: a confirmation that differs is reported
   * first, whatever the length; only a matching password is measured.
   */
  function CheckNewPassword(newPassword: string, confirmPassword: string): (c: Check)
    ensures c == Mismatch <==> newPassword != confirmPassword
    ensures c == TooShort <==> newPassword == confirmPassword && |newPassword| < MinPasswordLength
    ensures c == Proceed <==> newPassword == confirmPassword && |newPassword| >= MinPasswordLength
  {
    if newPassword != confirmPassword then Mismatch
    else if |newPassword| < MinPasswordLength then TooShort
    else Proceed
  }

  /** The dialog's state; `isOpen` is the parent's prop. */
  datatype ModalState = ModalState(
    isOpen: bool,
    currentPassword: string,
    newPassword: string,
    confirmPassword: string,
    error: string)

  /** The JSON body posted: `{ currentPassword, newPassword }`. */
  datatype PasswordRequest = PasswordRequest(currentPassword: string, newPassword: string)

  /**
   * How the request ended: an ok response; a non-ok response carrying the
   * server's `message` (absent or empty is falsy); or an exception, with
   * its message.
   */
  datatype Reply = ReplyOk | ReplyNotOk(message: Option<string>) | ReplyThrew(errorMessage: string)

  /** The state after a submission, and the request it sent, if any. */
  datatype SubmitResult = SubmitResult(st: ModalState, sent: Option<PasswordRequest>)

  /** The message a failed request leaves in the dialog: `data.message || 'Failed to change password.'`, or the exception's. */
  function FailureMessage(reply: Reply): (m: string)
    requires !reply.ReplyOk?
    ensures reply.ReplyNotOk? && (reply.message.None? || reply.message.value == "") ==> m == DefaultFailure
    ensures reply.ReplyNotOk? && reply.message.Some? && reply.message.value != "" ==> m == reply.message.value
    ensures reply.ReplyThrew? ==> m == reply.errorMessage
  {
    match reply
    case ReplyNotOk(message) => if message.Some? && message.value != "" then message.value else DefaultFailure
    case ReplyThrew(message) => message
  }

  /**
   * `handleSubmit`. A closed dialog renders nothing, so nothing can be
   * submitted. Otherwise the error is cleared, a failed check shows its
   * message and sends nothing, and a passing pair sends exactly the current
   * and the new password; success closes the dialog.
   */
  function Submit(st: ModalState, reply: Reply): (r: SubmitResult)
    ensures !st.isOpen ==> r == SubmitResult(st, None)
    ensures r.sent.Some? <==> st.isOpen && CheckNewPassword(st.newPassword, st.confirmPassword) == Proceed
    ensures r.sent.Some? ==> r.sent.value == PasswordRequest(st.currentPassword, st.newPassword)
    ensures st.isOpen && st.newPassword != st.confirmPassword ==> r.st == st.(error := MismatchError)
    ensures st.isOpen && st.newPassword == st.confirmPassword && |st.newPassword| < MinPasswordLength ==>
      r.st == st.(error := TooShortError)
    ensures r.sent.Some? && reply.ReplyOk? ==> r.st == st.(error := "", isOpen := false)
    ensures r.sent.Some? && !reply.ReplyOk? ==> r.st == st.(error := FailureMessage(reply))
  {
    if !st.isOpen then SubmitResult(st, None)
    else
      var cleared := st.(error := "");
      match CheckNewPassword(st.newPassword, st.confirmPassword)
      case Mismatch => SubmitResult(cleared.(error := MismatchError), None)
      case TooShort => SubmitResult(cleared.(error := TooShortError), None)
      case Proceed =>
        var request := PasswordRequest(st.currentPassword, st.newPassword);
        if reply.ReplyOk? then SubmitResult(cleared.(isOpen := false), Some(request))
        else SubmitResult(cleared.(error := FailureMessage(reply)), Some(request))
  }

  /**
   * The error is cleared at the start of every submission: what a
   * submission leaves behind never depends on the error shown before it.
   */
  lemma PreviousErrorDiscarded(st: ModalState, earlier: string, reply: Reply)
    requires st.isOpen
    ensures Submit(st.(error := earlier), reply) == Submit(st, reply)
  {
    assert st.(error := earlier).(error := "") == st.(error := "");
  }

  /** A rejected pair never reaches the server, whatever the server would have answered. */
  lemma RejectedPairSendsNothing(st: ModalState, reply1: Reply, reply2: Reply)
    requires CheckNewPassword(st.newPassword, st.confirmPassword) != Proceed
    ensures Submit(st, reply1).sent.None?
    ensures Submit(st, reply1) == Submit(st, reply2)
  {
  }

  /** The three inputs are marked `required`: the browser submits the form only when none is empty. */
  predicate RequiredFilled(st: ModalState)
  {
    st.currentPassword != "" && st.newPassword != "" && st.confirmPassword != ""
  }

  /**
   * The form's submit event: the browser's constraint validation runs
   * first, so with an empty input `handleSubmit` never runs and the error
   * on show stays; otherwise it is `Submit`.
   */
  function FormSubmit(st: ModalState, reply: Reply): (r: SubmitResult)
    ensures !RequiredFilled(st) ==> r == SubmitResult(st, None)
    ensures RequiredFilled(st) ==> r == Submit(st, reply)
    ensures r.sent.Some? ==> r.sent.value.currentPassword != "" && |r.sent.value.newPassword| >= MinPasswordLength
  {
    if RequiredFilled(st) then Submit(st, reply) else SubmitResult(st, None)
  }

  /** The dialog's state held by the component. */
  class PasswordDialog {
    var isOpen: bool
    var currentPassword: string
    var newPassword: string
    var confirmPassword: string
    var error: string

    /** The state as a value. */
    function State(): ModalState
      reads this
    {
      ModalState(isOpen, currentPassword, newPassword, confirmPassword, error)
    }

    /** First render, with the parent's `isOpen`: empty fields, no error. */
    constructor (isOpen: bool)
      ensures State() == ModalState(isOpen, "", "", "", "")
    {
      this.isOpen := isOpen;
      currentPassword, newPassword, confirmPassword, error := "", "", "", "";
    }

    /** `handleSubmit`, with the request's outcome as `reply`; success runs the parent's `onClose`. */
    method HandleSubmit(reply: Reply) returns (sent: Option<PasswordRequest>)
      modifies this`isOpen, this`error
      ensures SubmitResult(State(), sent) == Submit(old(State()), reply)
    {
      sent := None;
      if !isOpen {
        return;
      }
      error := "";
      if newPassword != confirmPassword {
        error := MismatchError;
        return;
      }
      if |newPassword| < MinPasswordLength {
        error := TooShortError;
        return;
      }
      sent := Some(PasswordRequest(currentPassword, newPassword));
      match reply {
        case ReplyOk =>
          isOpen := false;
        case ReplyNotOk(message) =>
          error := if message.Some? && message.value != "" then message.value else DefaultFailure;
        case ReplyThrew(message) =>
          error := message;
      }
    }

    /** A press of "Update Password": blocked by the browser while an input is empty, else `handleSubmit`. */
    method OnFormSubmit(reply: Reply) returns (sent: Option<PasswordRequest>)
      modifies this`isOpen, this`error
      ensures SubmitResult(State(), sent) == FormSubmit(old(State()), reply)
    {
      if currentPassword == "" || newPassword == "" || confirmPassword == "" {
        return None;
      }
      sent := HandleSubmit(reply);
    }
  }
}
