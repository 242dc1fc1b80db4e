/** The authentication slice of the web client's store: who is signed in,
    whether a request is in flight, and the last error or success text.
    Each reducer case assigns fields of the state; the access token kept in
    local storage is modelled as one more field. */
module AuthSlice {
  import opened Util
  import opened ErrorMessage

  datatype User = User(id: string, email: string, name: string, role: string, isActive: bool, username: string)

  /** The slice's state together with the stored access token. */
  datatype AuthState = AuthState(
    user: Option<User>, loading: bool, error: Option<string>, success: Option<string>,
    storedToken: Option<string>)

  /** The asynchronous requests whose lifecycles the slice follows. */
  datatype Thunk = ForgotPassword | GetCurrentUser | ChangePassword | ResetPassword
                 | SignIn | SignOut | SignUp | VerifyEmail

  /** What a request resolves with. */
  datatype ThunkResult = Done | CurrentUser(user: Option<User>) | Token(accessToken: string)
                       | SignedUp(newUser: User, accessToken: string)

  datatype Action =
    | ResetLoading | ResetError | ResetSuccess
    | SetError(error: Option<string>) | SetLoading(truthy: bool) | SetSuccess(success: Option<string>)
    | Pending(thunk: Thunk) | Fulfilled(thunk: Thunk, result: ThunkResult) | Rejected(thunk: Thunk, payload: ErrorPayload)

  /** Each request resolves with the result its type declares. */
  predicate WellTyped(a: Action) {
    a.Fulfilled? ==>
      match a.thunk
      case GetCurrentUser => a.result.CurrentUser?
      case SignIn => a.result.Token?
      case SignUp => a.result.SignedUp?
      case _ => a.result.Done?
  }

  predicate Lifecycle(a: Action) {
    a.Pending? || a.Fulfilled? || a.Rejected?
  }

  /** A rejection whose case reads the payload, with a payload that
      `updateErrorState` throws on: the reducer throws and the store keeps
      the state it had before the action. */
  predicate Throws(a: Action) {
    a.Rejected? && a.thunk != GetCurrentUser && GetErrorMessage(a.payload).None?
  }

  /** At most one of `error` and `success` is set. */
  predicate Exclusive(s: AuthState) {
    s.error.None? || s.success.None?
  }

  const ForgotPasswordText: string := "An email with reset password instructions has been sent."
  const ChangePasswordText: string := "Password has been changed successfully!"
  const ResetPasswordText: string := "Password has been reset successfully!"
  const VerifyEmailText: string := "Email verified successfully."

  /** `initialState`, with no token stored. */
  const Initial: AuthState := AuthState(None, true, None, None, None)

  /** The success text a plain request's fulfilment sets, if any. */
  function SuccessText(t: Thunk): Option<string> {
    match t
    case ForgotPassword => Some(ForgotPasswordText)
    case ChangePassword => Some(ChangePasswordText)
    case ResetPassword => Some(ResetPasswordText)
    case VerifyEmail => Some(VerifyEmailText)
    case _ => None
  }

  /** The state after one action, case by case as the reducers assign it. */
  function Step(s: AuthState, a: Action): (r: AuthState)
    requires WellTyped(a)
    ensures Throws(a) ==> r == s
    ensures !Lifecycle(a) ==> r.user == s.user && r.storedToken == s.storedToken
    ensures a.Pending? ==> r.loading && r.user == s.user && r.storedToken == s.storedToken
  {
    match a
    case ResetLoading => s.(loading := false)
    case ResetError => s.(error := None)
    case ResetSuccess => s.(success := None)
    case SetError(e) => s.(error := e)
    case SetLoading(b) => s.(loading := b)
    case SetSuccess(m) => s.(success := m)
    case Pending(t) =>
      if t == GetCurrentUser then s.(loading := true)
      else s.(loading := true, error := None, success := None)
    case Fulfilled(t, r) =>
      (match t
       case GetCurrentUser => s.(loading := false, user := r.user)
       case SignIn => s.(loading := false, storedToken := Some(r.accessToken), error := None, success := None)
       case SignOut => s.(loading := false, user := None, error := None, success := None)
       case SignUp => s.(loading := false, success := None, error := None, user := Some(r.newUser),
                           storedToken := Some(r.accessToken))
       case _ => s.(loading := false, success := SuccessText(t), error := None))
    case Rejected(t, p) =>
      if t == GetCurrentUser then s.(loading := false, storedToken := None)
      else
        match GetErrorMessage(p)
        case Some(m) => s.(loading := false, success := None, error := Some(m))
        case None => s
  }

  /** Every pending case but the current-user one sets loading and clears
      both texts; the current-user one only sets loading. */
  lemma PendingClears(s: AuthState, t: Thunk)
    ensures t != GetCurrentUser ==> Step(s, Pending(t)) == s.(loading := true, error := None, success := None)
    ensures t == GetCurrentUser ==> Step(s, Pending(t)) == s.(loading := true)
  {
  }

  /** Every fulfilled case and every rejected case that does not throw
      clears loading; one that throws changes nothing. */
  lemma SettledStopsLoading(s: AuthState, a: Action)
    requires WellTyped(a) && (a.Fulfilled? || a.Rejected?)
    ensures !Throws(a) ==> !Step(s, a).loading
    ensures Throws(a) ==> Step(s, a) == s
  {
  }

  /** A request rejected with no payload, or with a list of objects one of
      which has no `loc`, leaves loading set from its pending case. */
  lemma ThrowingRejectionKeepsLoading(s: AuthState, t: Thunk, items: seq<DetailItem>, i: nat)
    requires t != GetCurrentUser
    requires AllObjects(items) && i < |items| && items[i] == LocLessItem
    ensures Step(Step(s, Pending(t)), Rejected(t, PayloadMissing)).loading
    ensures Step(Step(s, Pending(t)), Rejected(t, PayloadValue(DetailList(items)))).loading
  {
    LocLessItemThrows(items, i);
  }

  /** A rejection clears the success text and sets the error text decoded
      from the payload, as `getErrorMessage` decodes it; where decoding
      throws, nothing changes. */
  lemma RejectedDecodes(s: AuthState, t: Thunk, p: ErrorPayload)
    requires t != GetCurrentUser
    ensures GetErrorMessage(p).Some? ==>
              && Step(s, Rejected(t, p)).success == None
              && Step(s, Rejected(t, p)).error == GetErrorMessage(p)
              && Step(s, Rejected(t, p)).user == s.user
              && !Step(s, Rejected(t, p)).loading
    ensures GetErrorMessage(p).None? ==> Step(s, Rejected(t, p)) == s
  {
  }

  /** Forgot, change, reset and verify set their fixed success text and
      clear the error. */
  lemma FulfilledSuccessText(s: AuthState, t: Thunk)
    requires t in {ForgotPassword, ChangePassword, ResetPassword, VerifyEmail}
    ensures Step(s, Fulfilled(t, Done)).success.Some?
    ensures Step(s, Fulfilled(t, Done)).success == SuccessText(t)
    ensures Step(s, Fulfilled(t, Done)).error == None
    ensures Step(s, Fulfilled(t, Done)).user == s.user
  {
  }

  /** Sign-in stores the token and leaves the user as it is; sign-up sets
      the user and stores the token; sign-out clears the user. */
  lemma FulfilledUser(s: AuthState, token: string, u: User)
    ensures Step(s, Fulfilled(SignIn, Token(token))).user == s.user
    ensures Step(s, Fulfilled(SignIn, Token(token))).storedToken == Some(token)
    ensures Step(s, Fulfilled(SignUp, SignedUp(u, token))).user == Some(u)
    ensures Step(s, Fulfilled(SignUp, SignedUp(u, token))).storedToken == Some(token)
    ensures Step(s, Fulfilled(SignOut, Done)).user == None
  {
  }

  /** The current-user cases never touch the texts; its rejection keeps the
      user and drops the stored token. */
  lemma CurrentUserKeepsTexts(s: AuthState, a: Action)
    requires WellTyped(a) && Lifecycle(a) && a.thunk == GetCurrentUser
    ensures Step(s, a).error == s.error && Step(s, a).success == s.success
    ensures a.Rejected? ==> Step(s, a).user == s.user && Step(s, a).storedToken == None
  {
  }

  /** The request lifecycle cases keep at most one text set. */
  lemma LifecycleKeepsExclusive(s: AuthState, a: Action)
    requires WellTyped(a) && Lifecycle(a) && Exclusive(s)
    ensures Exclusive(Step(s, a))
  {
  }

  /** Directly setting a text can leave both set: from any state, setting
      a success text and then an error text keeps both, and nothing else. */
  lemma SetErrorBreaksExclusive(s: AuthState, done: string, failed: string)
    ensures Step(Step(s, SetSuccess(Some(done))), SetError(Some(failed)))
              == s.(success := Some(done), error := Some(failed))
    ensures !Exclusive(Step(Step(s, SetSuccess(Some(done))), SetError(Some(failed))))
  {
  }

  /** The slice as a mutable object: each dispatch assigns the fields its
      case names and no others. */
  class AuthStore {
    var user: Option<User>
    var loading: bool
    var error: Option<string>
    var success: Option<string>
    var storedToken: Option<string>

    function State(): AuthState
      reads this
    {
      AuthState(user, loading, error, success, storedToken)
    }

    /** `initialState`: no user, loading, no texts; the token is whatever
        local storage already holds. */
    constructor (stored: Option<string>)
      ensures State() == Initial.(storedToken := stored)
    {
      user, loading, error, success, storedToken := None, true, None, None, stored;
    }

    /** `updateErrorState`; `thrown` where it throws before assigning. */
    method UpdateErrorState(payload: ErrorPayload) returns (thrown: bool)
      modifies this
      ensures thrown <==> GetErrorMessage(payload).None?
      ensures !thrown ==> State() == old(State()).(error := GetErrorMessage(payload))
      ensures thrown ==> State() == old(State())
    {
      thrown := false;
      match payload
      case PayloadMissing =>
        thrown := true;
      case PayloadValue(detail) =>
        match detail
        case DetailText(t) =>
          error := Some(t);
        case DetailList(items) =>
          if !AllObjects(items) {
            error := Some(UnexpectedError);
          } else if AllHaveLoc(items) {
            error := Some(Join(ItemLines(items), "\n"));
          } else {
            thrown := true;
          }
        case DetailOther =>
          error := Some(UnexpectedError);
    }

    /** One dispatch; `thrown` where the reducer throws, and then the state
        is the one before the action, as the draft of that case is dropped. */
    method Dispatch(a: Action) returns (thrown: bool)
      requires WellTyped(a)
      modifies this
      ensures thrown == Throws(a)
      ensures State() == Step(old(State()), a)
    {
      thrown := false;
      match a
      case ResetLoading => loading := false;
      case ResetError => error := None;
      case ResetSuccess => success := None;
      case SetError(e) => error := e;
      case SetLoading(b) => loading := b;
      case SetSuccess(m) => success := m;
      case Pending(t) =>
        loading := true;
        if t != GetCurrentUser {
          success := None;
          error := success;
        }
      case Fulfilled(t, r) =>
        loading := false;
        match t {
          case GetCurrentUser =>
            user := r.user;
          case SignIn =>
            storedToken := Some(r.accessToken);
            success := None;
            error := success;
          case SignOut =>
            user := None;
            success := None;
            error := success;
          case SignUp =>
            error := None;
            success := error;
            user := Some(r.newUser);
            storedToken := Some(r.accessToken);
          case _ =>
            success := SuccessText(t);
            error := None;
        }
      case Rejected(t, p) =>
        if t == GetCurrentUser {
          loading := false;
          storedToken := None;
        } else {
          var wasLoading, hadSuccess := loading, success;
          loading := false;
          success := None;
          thrown := UpdateErrorState(p);
          if thrown {
            loading, success := wasLoading, hadSuccess;
          }
        }
    }
  }
}
