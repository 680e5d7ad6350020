/** The toast helpers: the notifications shown to the user, and the choice of the
    message shown for a failed API call. */
module Toast {
  import opened Common

  /** A notification as `showToast.success` / `showToast.error` displays it. */
  datatype Toast = Success(message: string) | Error(message: string)

  /** The fields of a thrown error that the message selection looks at:
      `error.isAuthError`, `error.status`, `error.response.data.message` and
      `error.message`; `None` stands for a missing field. */
  datatype ApiError = ApiError(
    isAuthError: bool,
    status: Option<int>,
    responseMessage: Option<string>,
    message: Option<string>)

  const AuthMessage := "Please login again to perform this action"
  const DefaultMessage := "An error occurred"
  const NetworkError := "Network Error"

  /** The authentication check: a flagged error, or HTTP status 401 or 403. */
  predicate IsAuthError(e: ApiError) {
    e.isAuthError || e.status == Some(401) || e.status == Some(403)
  }

  /** The text of the single error toast that `handleApiError(e, defaultMessage)` shows. */
  function ApiErrorMessage(e: ApiError, defaultMessage: string): (m: string)
    ensures IsAuthError(e) ==> m == AuthMessage
  {
    if IsAuthError(e) then AuthMessage
    else if Truthy(e.responseMessage) then e.responseMessage.value
    else if Truthy(e.message) && e.message.value != NetworkError then e.message.value
    else defaultMessage
  }

  /** Outside the authentication case the server's message is preferred, then the
      error's own message unless it is the transport's "Network Error", then the default. */
  lemma SelectionOrder(e: ApiError, defaultMessage: string)
    requires !IsAuthError(e)
    ensures Truthy(e.responseMessage) ==> ApiErrorMessage(e, defaultMessage) == e.responseMessage.value
    ensures !Truthy(e.responseMessage) && Truthy(e.message) && e.message.value != NetworkError ==>
              ApiErrorMessage(e, defaultMessage) == e.message.value
    ensures !Truthy(e.responseMessage) && !(Truthy(e.message) && e.message.value != NetworkError) ==>
              ApiErrorMessage(e, defaultMessage) == defaultMessage
  {
  }

  /** The message always comes from one of four places, and is never empty unless the
      default is. */
  lemma MessageSource(e: ApiError, defaultMessage: string)
    ensures var m := ApiErrorMessage(e, defaultMessage);
            m == AuthMessage || m == defaultMessage ||
            (e.responseMessage.Some? && m == e.responseMessage.value) ||
            (e.message.Some? && m == e.message.value)
    ensures ApiErrorMessage(e, defaultMessage) == "" ==> defaultMessage == ""
  {
  }

  /** A bare "Network Error" from the transport is never shown: only the server's own
      message or the default can read that way. */
  lemma NetworkErrorHidden(e: ApiError, defaultMessage: string)
    requires ApiErrorMessage(e, defaultMessage) == NetworkError
    ensures e.responseMessage == Some(NetworkError) || defaultMessage == NetworkError
  {
  }

  /** Authentication errors are reported the same way whatever else they carry. */
  lemma AuthErrorsIgnoreDetails(e1: ApiError, e2: ApiError, d1: string, d2: string)
    requires IsAuthError(e1) && IsAuthError(e2)
    ensures ApiErrorMessage(e1, d1) == ApiErrorMessage(e2, d2) == AuthMessage
  {
  }

  /** The error a component raises itself with `throw new Error(message)`: no status,
      no server response, not an authentication error. */
  function ThrownError(message: string): (e: ApiError)
    ensures !IsAuthError(e) && e.message == Some(message) && e.responseMessage.None?
  {
    ApiError(false, None, None, Some(message))
  }

  /** The error banner a view sets after a failed load: none for an authentication
      error (the user is sent to log in again), the view's own text otherwise. */
  function FailureBanner(e: ApiError, message: string): (r: Option<string>)
    ensures r.None? <==> IsAuthError(e)
    ensures r.Some? ==> r.value == message
  {
    if IsAuthError(e) then None else Some(message)
  }

  /** A view's own thrown error is toasted with its own text and always sets the
      banner; a banner is missing only where the toast asks the user to log in. */
  lemma ThrownErrorReported(m: string, defaultMessage: string, banner: string, e: ApiError)
    requires m != "" && m != NetworkError
    ensures ApiErrorMessage(ThrownError(m), defaultMessage) == m
    ensures FailureBanner(ThrownError(m), banner) == Some(banner)
    ensures FailureBanner(e, banner).None? ==> ApiErrorMessage(e, defaultMessage) == AuthMessage
  {
  }

  /** The toasts shown so far, in order. */
  class Toaster {
    var shown: seq<Toast>

    constructor ()
      ensures shown == []
    {
      shown := [];
    }

    method ShowSuccess(message: string)
      modifies this
      ensures shown == old(shown) + [Success(message)]
    {
      shown := shown + [Success(message)];
    }

    method ShowError(message: string)
      modifies this
      ensures shown == old(shown) + [Error(message)]
    {
      shown := shown + [Error(message)];
    }

    /** `handleApiError`: exactly one error toast, with the selected message, on every
        path (the authentication branch returns after its own toast). */
    method HandleApiError(e: ApiError, defaultMessage: string)
      modifies this
      ensures shown == old(shown) + [Error(ApiErrorMessage(e, defaultMessage))]
    {
      if IsAuthError(e) {
        ShowError(AuthMessage);
        return;
      }
      var message := defaultMessage;
      if Truthy(e.responseMessage) {
        message := e.responseMessage.value;
      } else if Truthy(e.message) && e.message.value != NetworkError {
        message := e.message.value;
      }
      ShowError(message);
    }
  }
}
