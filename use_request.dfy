/** The `useRequest` hook: a `loading` flag and an `error` text around one
    asynchronous call, with optional callbacks and toasts on either outcome.
    Callbacks and toasts are recorded, in the order they happen, as effects. */
module UseRequest {
  import opened Util
  import opened ErrorMessage

  /** What the request was rejected with: something other than an Axios
      error, or an Axios error with its response body (absent or falsy
      bodies included) and its message. */
  datatype Failure = OtherFailure | AxiosFailure(data: ResponseData, message: string)

  /** An Axios response body: an object (whose `detail` is read), a
      non-empty string, or a falsy value (no response, `null`, `""`). */
  datatype ResponseData = DataObject(detail: Detail) | DataText(text: string) | DataFalsy

  datatype Options = Options(
    successToast: bool, errorToast: bool,
    successMessage: Option<string>, errorMessage: Option<string>,
    hasSuccessCallback: bool, hasErrorCallback: bool)

  datatype Toast = Toast(title: string, description: string, destructive: bool)

  datatype Effect<R> = SuccessCallback(result: R) | ErrorCallback(failure: Failure) | ShowToast(toast: Toast)

  const DefaultFailureText: string := "An error occurred"

  /** The payload that `getErrorMessage` sees: the fixed payload for a
      non-Axios failure; for an Axios failure the response body, or the
      message string when the body is falsy. A string payload has no
      `detail`. The payload is never missing. */
  function FailurePayload(f: Failure): (p: ErrorPayload)
    ensures p.PayloadValue?
    ensures f.OtherFailure? ==> p.detail == DetailText(DefaultFailureText)
    ensures f.AxiosFailure? && f.data.DataObject? ==> p.detail == f.data.detail
    ensures f.AxiosFailure? && !f.data.DataObject? ==> p.detail == DetailOther
  {
    match f
    case OtherFailure => PayloadValue(DetailText(DefaultFailureText))
    case AxiosFailure(data, _) =>
      match data
      case DataObject(detail) => PayloadValue(detail)
      case _ => PayloadValue(DetailOther)
  }

  /** The error text a failure leaves in the hook; `None` where
      `getErrorMessage` throws inside the `catch` handler. */
  function FailureText(f: Failure): Option<string> {
    GetErrorMessage(FailurePayload(f))
  }

  /** A plain failure shows "An error occurred"; an Axios failure without an
      object body shows the fixed unexpected-error text, whatever its message;
      only a response body listing an object without `loc` makes the handler
      throw. */
  lemma FailureTexts(message: string, text: string)
    ensures FailureText(OtherFailure) == Some(DefaultFailureText)
    ensures FailureText(AxiosFailure(DataFalsy, message)) == Some(UnexpectedError)
    ensures FailureText(AxiosFailure(DataText(text), message)) == Some(UnexpectedError)
    ensures FailureText(AxiosFailure(DataObject(DetailList([LocLessItem])), message)) == None
  {
  }

  /** JavaScript truthiness of an optional string. */
  predicate Truthy(s: Option<string>) {
    s.Some? && s.value != ""
  }

  /** `${x}` of an optional string: `undefined` renders as "undefined". */
  function Render(s: Option<string>): string {
    match s
    case None => "undefined"
    case Some(t) => t
  }

  /** The error toast's text as written:
      `${errorMessage ? "" : errorMessage + ":"} ${message}`. */
  function ErrorToastText(errorMessage: Option<string>, message: string): string {
    (if Truthy(errorMessage) then "" else Render(errorMessage) + ":") + " " + message
  }

  /** As written, a configured prefix is dropped, and a missing one is shown
      as "undefined:". */
  lemma ErrorToastInverted(prefix: string, message: string)
    requires prefix != ""
    ensures ErrorToastText(Some(prefix), message) == " " + message
    ensures ErrorToastText(None, message) == "undefined: " + message
    ensures ErrorToastText(Some(""), message) == ": " + message
  {
  }

  /** The text evidently intended: the configured prefix and a colon, or no
      prefix at all. */
  function IntendedErrorToastText(errorMessage: Option<string>, message: string): (text: string)
    ensures Truthy(errorMessage) ==> text == errorMessage.value + ": " + message
    ensures !Truthy(errorMessage) ==> text == " " + message
  {
    (if Truthy(errorMessage) then errorMessage.value + ":" else "") + " " + message
  }

  /** The two texts agree on no input: the written one never has the
      intended prefix. */
  lemma ErrorToastDiffers(errorMessage: Option<string>, message: string)
    ensures ErrorToastText(errorMessage, message) != IntendedErrorToastText(errorMessage, message)
  {
    var w, c := ErrorToastText(errorMessage, message), IntendedErrorToastText(errorMessage, message);
    if Truthy(errorMessage) {
      assert |w| == |message| + 1 && |c| == |errorMessage.value| + 2 + |message|;
    } else {
      assert |w| >= |message| + 2 && |c| == |message| + 1;
    }
  }

  function SuccessEffects<R>(opts: Options, result: R): seq<Effect<R>> {
    (if opts.hasSuccessCallback then [SuccessCallback(result)] else [])
    + (if opts.successToast then [ShowToast(Toast("Success", opts.successMessage.GetOr(""), false))] else [])
  }

  /** Which call of the success handler throws, if any: the success
      callback or the success toast. The throw is caught by the `.catch`
      chained after `.then`. */
  datatype SuccessThrow = NoThrow | CallbackThrows | ToastThrows

  /** The calls the success handler makes, each recorded when it is made,
      and whether one of them threw. A call that is not made cannot throw. */
  function SuccessRun<R>(opts: Options, result: R, t: SuccessThrow): (run: (seq<Effect<R>>, bool))
    ensures !run.1 ==> run.0 == SuccessEffects(opts, result)
    ensures run.1 <==> (t == CallbackThrows && opts.hasSuccessCallback) || (t == ToastThrows && opts.successToast)
  {
    var callback := if opts.hasSuccessCallback then [SuccessCallback(result)] else [];
    if t == CallbackThrows && opts.hasSuccessCallback then (callback, true)
    else
      var toast := if opts.successToast then [ShowToast(Toast("Success", opts.successMessage.GetOr(""), false))] else [];
      (callback + toast, t == ToastThrows && opts.successToast)
  }

  /** A throwing success callback stops the handler before the toast; a
      throwing toast comes after the callback has run. */
  lemma ThrowingSuccessRun<R>(opts: Options, result: R)
    ensures opts.hasSuccessCallback ==> SuccessRun(opts, result, CallbackThrows) == ([SuccessCallback(result)], true)
    ensures opts.successToast ==>
              SuccessRun(opts, result, ToastThrows) == (SuccessEffects(opts, result), true)
    ensures SuccessRun(opts, result, NoThrow) == (SuccessEffects(opts, result), false)
  {
  }

  /** The callback and the toast of a failure; none where the handler
      throws before reaching them. */
  function FailureEffects<R>(opts: Options, f: Failure): seq<Effect<R>> {
    match FailureText(f)
    case None => []
    case Some(text) =>
      (if opts.hasErrorCallback then [ErrorCallback(f)] else [])
      + (if opts.errorToast then [ShowToast(Toast("Error", ErrorToastText(opts.errorMessage, text), true))] else [])
  }

  /** The callback comes before the toast, and a toast appears only when it
      is asked for; the success toast's text is the success message or "". */
  lemma SuccessEffectsOrder<R>(opts: Options, result: R)
    ensures opts.hasSuccessCallback ==> SuccessEffects(opts, result)[0] == SuccessCallback(result)
    ensures !opts.successToast ==> forall e :: e in SuccessEffects(opts, result) ==> !e.ShowToast?
    ensures opts.successToast ==>
              SuccessEffects(opts, result)[|SuccessEffects(opts, result)| - 1]
                == ShowToast(Toast("Success", opts.successMessage.GetOr(""), false))
  {
  }

  /** The error callback receives the raw failure, before any toast; a
      handler that throws runs neither. */
  lemma FailureEffectsOrder<R>(opts: Options, f: Failure)
    ensures FailureText(f).Some? && opts.hasErrorCallback ==> FailureEffects<R>(opts, f)[0] == ErrorCallback(f)
    ensures !opts.errorToast ==> forall e :: e in FailureEffects<R>(opts, f) ==> !e.ShowToast?
    ensures FailureText(f).None? ==> FailureEffects<R>(opts, f) == []
  {
  }

  class RequestHook<R> {
    const options: Options
    var loading: bool
    var error: Option<string>
    var effects: seq<Effect<R>>

    constructor (options: Options)
      ensures this.options == options && !loading && error == None && effects == []
    {
      this.options := options;
      loading, error, effects := false, None, [];
    }

    /** `request`: loading on and the error cleared before the call starts. */
    method Request()
      modifies this
      ensures loading && error == None && effects == old(effects)
    {
      loading := true;
      error := None;
    }

    /** The call resolving with `result`. When the success callback or
        toast throws (`t`), the chained `.catch` receives an error that is
        not an Axios error: the error becomes "An error occurred" and the
        error effects follow the success effects made so far. */
    method Resolve(result: R, t: SuccessThrow)
      modifies this
      ensures !loading
      ensures !SuccessRun(options, result, t).1 ==>
                error == None && effects == old(effects) + SuccessEffects(options, result)
      ensures SuccessRun(options, result, t).1 ==>
                error == Some(DefaultFailureText)
                && effects == old(effects) + SuccessRun(options, result, t).0 + FailureEffects(options, OtherFailure)
    {
      loading := false;
      error := None;
      if options.hasSuccessCallback {
        effects := effects + [SuccessCallback(result)];
        if t == CallbackThrows {
          Reject(OtherFailure);
          return;
        }
      }
      if options.successToast {
        effects := effects + [ShowToast(Toast("Success", options.successMessage.GetOr(""), false))];
        if t == ToastThrows {
          Reject(OtherFailure);
          return;
        }
      }
    }

    /** The call failing with `f`. Loading is cleared before the message is
        decoded, so it stays cleared when decoding throws; the error text and
        the effects then stay as they were. */
    method Reject(f: Failure)
      modifies this
      ensures !loading
      ensures FailureText(f).Some? ==> error == FailureText(f)
      ensures FailureText(f).None? ==> error == old(error)
      ensures effects == old(effects) + FailureEffects(options, f)
    {
      var payload := FailurePayload(f);
      loading := false;
      var decoded := GetErrorMessage(payload);
      if decoded.None? {
        return;
      }
      var message := decoded.value;
      error := Some(message);
      if options.hasErrorCallback {
        effects := effects + [ErrorCallback(f)];
      }
      if options.errorToast {
        var prefix := if Truthy(options.errorMessage) then "" else Render(options.errorMessage) + ":";
        effects := effects + [ShowToast(Toast("Error", prefix + " " + message, true))];
      }
    }
  }
}
