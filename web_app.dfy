/** The web client's error wording (toFriendlyErrorMessage in apps/web/src/App.tsx): what the
    page shows for a failed query or mutation, depending on which action was refused. */
module WebApp {
  import JsString
  import ServiceExceptions
  import ApiExceptionHandler
  import DocumentService

  /** The action a "Forbidden" refers to. */
  datatype ForbiddenContext = View | Edit | Share

  /** What was thrown: an Error with its message, or any other value. */
  datatype Thrown = ErrorValue(message: string) | OtherValue

  const Fallback := "Something went wrong. Please try again."
  const ForbiddenText := "Forbidden"

  function ForbiddenWording(context: ForbiddenContext): (r: string)
    ensures Unpadded(r)
    ensures r != ForbiddenText && r != Fallback
  {
    var action := match context
      case View => "view"
      case Edit => "edit"
      case Share => "manage sharing for";
    "You do not have access to " + action + " this document."
  }

  /** Neither empty nor starting or ending with whitespace. */
  predicate Unpadded(s: string) {
    s != [] && !JsString.IsWhitespace(s[0]) && !JsString.IsWhitespace(s[|s| - 1])
  }

  /** toFriendlyErrorMessage: a non-Error is the fallback; a message other than "Forbidden" is shown
      trimmed, or the fallback when it is blank; "Forbidden" becomes the wording of the action.
      Whatever it is given, the page shows some text, without surrounding whitespace. */
  function ToFriendlyErrorMessage(error: Thrown, context: ForbiddenContext): (r: string)
    ensures Unpadded(r)
  {
    match error
    case OtherValue => Fallback
    case ErrorValue(raw) =>
      var message := JsString.Trim(raw);
      if message != ForbiddenText then (if |message| > 0 then message else Fallback)
      else ForbiddenWording(context)
  }

  /** A thrown value that is not an Error is worded as the fallback. */
  lemma NonErrorIsFallback(context: ForbiddenContext)
    ensures ToFriendlyErrorMessage(OtherValue, context) == Fallback
  {
  }

  /** An error message other than "Forbidden" is shown trimmed, in every context; a blank one is
      shown as the fallback. */
  lemma OtherMessagesShownTrimmed(message: string, context: ForbiddenContext)
    requires JsString.Trim(message) != ForbiddenText
    ensures JsString.IsBlank(message) ==> ToFriendlyErrorMessage(ErrorValue(message), context) == Fallback
    ensures !JsString.IsBlank(message) ==> ToFriendlyErrorMessage(ErrorValue(message), context) == JsString.Trim(message)
  {
  }

  /** "Forbidden", however padded, is worded by the action it refused. */
  lemma ForbiddenWordedByAction(message: string, context: ForbiddenContext)
    requires JsString.Trim(message) == ForbiddenText
    ensures ToFriendlyErrorMessage(ErrorValue(message), context) == ForbiddenWording(context)
  {
  }

  /** What the page shows is stable: shown again as an error's message, in any context, it reads
      the same. */
  lemma FriendlyMessageIsStable(error: Thrown, context: ForbiddenContext, other: ForbiddenContext)
    ensures var shown := ToFriendlyErrorMessage(error, context);
      ToFriendlyErrorMessage(ErrorValue(shown), other) == shown
  {
    var shown := ToFriendlyErrorMessage(error, context);
    NeverShownAsForbidden(error, context);
    UnpaddedMessageShownAsIs(shown, other);
  }

  /** The page never shows the bare word "Forbidden". */
  lemma NeverShownAsForbidden(error: Thrown, context: ForbiddenContext)
    ensures ToFriendlyErrorMessage(error, context) != ForbiddenText
  {
    if error.ErrorValue? && JsString.Trim(error.message) == ForbiddenText {
      assert ToFriendlyErrorMessage(error, context) == ForbiddenWording(context);
    } else if error.OtherValue? || JsString.Trim(error.message) == [] {
      assert |Fallback| != |ForbiddenText|;
    }
  }

  /** An unpadded message other than "Forbidden" is shown as it is. */
  lemma UnpaddedMessageShownAsIs(message: string, context: ForbiddenContext)
    requires Unpadded(message) && message != ForbiddenText
    ensures ToFriendlyErrorMessage(ErrorValue(message), context) == message
  {
    JsString.TrimOfUnpadded(message);
  }

  /** The three actions are worded apart. */
  lemma ForbiddenWordingsDistinct()
    ensures ForbiddenWording(View) != ForbiddenWording(Edit)
    ensures ForbiddenWording(View) != ForbiddenWording(Share)
    ensures ForbiddenWording(Edit) != ForbiddenWording(Share)
  {
    assert ForbiddenWording(View)[26] == 'v';
    assert ForbiddenWording(Edit)[26] == 'e';
    assert ForbiddenWording(Share)[26] == 'm';
  }

  /** The document service's refusal of a read, an edit or a share reaches the page as the
      wording of that action. */
  lemma ServiceRefusalWorded(context: ForbiddenContext)
    ensures var response := ApiExceptionHandler.Handle(
              ApiExceptionHandler.Raised(ServiceExceptions.Forbidden(DocumentService.ForbiddenMessage)));
      && response.status == 403
      && ToFriendlyErrorMessage(ErrorValue(response.message), context) == ForbiddenWording(context)
  {
    JsString.TrimOfUnpadded(ForbiddenText);
  }
}
