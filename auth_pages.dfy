/** The authentication pages: their form rules, the request bodies they
    build, and what happens after a request. zod's e-mail check is a
    parameter (`isEmail`); lengths are counted, as zod counts them, in UTF-16
    code units. */

/** What every auth page does when it unmounts. */
module AuthPageCleanup {
  import opened Util
  import opened AuthSlice

  /** `resetError`, `resetLoading`, `resetSuccess`, in that order. */
  const UnmountActions: seq<Action> := [ResetError, ResetLoading, ResetSuccess]

  /** The final state after the three resets. */
  function Unmounted(s: AuthState): AuthState {
    Step(Step(Step(s, UnmountActions[0]), UnmountActions[1]), UnmountActions[2])
  }

  /** Leaving a page clears both texts and the loading flag and keeps the
      user and the stored token. */
  lemma UnmountClears(s: AuthState)
    ensures Unmounted(s) == s.(loading := false, error := None, success := None)
    ensures Exclusive(Unmounted(s))
  {
  }
}

module SignUpPage {
  import opened Util

  datatype SignUpValues = SignUpValues(name: string, username: string, email: string, password: string)
  datatype SignUpDto = SignUpDto(name: string, email: string, username: string, password: string, role: string)

  /** A name, a username of 3 to 12 code units (the message says 3-9), an
      address the e-mail check accepts, and a password of at least 6. */
  predicate Schema(v: SignUpValues, isEmail: string -> bool) {
    && Utf16Length(v.name) >= 1 && 3 <= Utf16Length(v.username) <= 12
    && isEmail(v.email) && Utf16Length(v.password) >= 6
  }

  /** The usernames the message promises are a strict subset of the ones
      the rule accepts: within the Basic Multilingual Plane a username of
      3 to 12 characters passes, so a 12-character one does. */
  lemma UsernameRange(v: SignUpValues, isEmail: string -> bool, u: string)
    requires Utf16Length(v.name) >= 1 && isEmail(v.email) && Utf16Length(v.password) >= 6
    requires forall i :: 0 <= i < |u| ==> u[i] as int < 0x1_0000
    ensures Schema(v, isEmail) <==> 3 <= Utf16Length(v.username) <= 12
    ensures Schema(v.(username := u), isEmail) <==> 3 <= |u| <= 12
  {
    Utf16LengthBmp(u);
  }

  /** Two characters beyond U+FFFF, an emoji pair say, count as four units
      and pass as a username. */
  lemma AstralUsername(v: SignUpValues, isEmail: string -> bool, a: char, b: char)
    requires Utf16Length(v.name) >= 1 && isEmail(v.email) && Utf16Length(v.password) >= 6
    requires a as int >= 0x1_0000 && b as int >= 0x1_0000
    ensures Schema(v.(username := [a, b]), isEmail)
  {
    assert [a, b][1..] == [b] && [b][1..] == [];
  }

  /** `{ ...values, role }`. */
  function Dto(v: SignUpValues, role: string): (d: SignUpDto)
    ensures d.name == v.name && d.email == v.email && d.username == v.username && d.password == v.password
    ensures d.role == role
  {
    SignUpDto(v.name, v.email, v.username, v.password, role)
  }

  /** Where the page goes: "/" after a successful sign-up or whenever a
      user is present; nowhere otherwise. */
  function Navigation(signUpSucceeded: bool, userPresent: bool): (to: Option<string>)
    ensures to.Some? <==> signUpSucceeded || userPresent
    ensures to.Some? ==> to.value == "/"
  {
    if signUpSucceeded || userPresent then Some("/") else None
  }

  /** The role picked in the dropdown; it starts as "customer". */
  class RoleState {
    var role: string

    ghost predicate Valid()
      reads this
    {
      role == "customer" || role == "provider"
    }

    constructor ()
      ensures Valid() && role == "customer"
    {
      role := "customer";
    }

    /** The radio group offers exactly the two roles. */
    method SetRole(r: string)
      requires r == "customer" || r == "provider"
      modifies this
      ensures Valid() && role == r
    {
      role := r;
    }

    /** The DTO carries the role selected at submission time. */
    function SubmitDto(v: SignUpValues): (d: SignUpDto)
      reads this
      requires Valid()
      ensures d.role == role && (d.role == "customer" || d.role == "provider")
      ensures d == Dto(v, role)
    {
      Dto(v, role)
    }
  }
}

/** The second client's sign-up: the same schema, a fixed role. */
module ClientSignUpPage {
  import opened SignUpPage

  function ClientDto(v: SignUpValues): (d: SignUpDto)
    ensures d.role == "customer" && d == Dto(v, "customer")
  {
    Dto(v, "customer")
  }
}

module SignInPage {
  import opened AuthSlice
  import Util

  datatype SignInValues = SignInValues(username: string, password: string)

  /** Any username, the empty one included; a non-empty password. The DTO
      is the values themselves. */
  predicate Schema(v: SignInValues) {
    Util.Utf16Length(v.password) >= 1
  }

  lemma SchemaIgnoresUsername(v: SignInValues, name: string)
    ensures Schema(v) <==> Schema(v.(username := name))
    ensures Schema(SignInValues("", "x"))
    ensures !Schema(SignInValues("someone", ""))
  {
  }

  /** `location.state?.from?.pathname || "/"`: a missing or empty path falls
      back to "/". */
  function RedirectTarget(from: Util.Option<string>): (to: string)
    ensures to != ""
    ensures from.Some? && from.value != "" ==> to == from.value
    ensures from.None? || from.value == "" ==> to == "/"
  {
    if from.Some? && from.value != "" then from.value else "/"
  }

  datatype Navigate = Navigate(to: string, replace: bool)

  /** Submitting: sign-in is dispatched; the current-user request only after
      sign-in succeeds; navigation (with replace) only after both succeed. */
  function SubmitEffects(signInOk: bool, currentUserOk: bool, from: Util.Option<string>): (r: (seq<Thunk>, Util.Option<Navigate>))
    ensures r.0 == if signInOk then [SignIn, GetCurrentUser] else [SignIn]
    ensures r.1.Some? <==> signInOk && currentUserOk
    ensures r.1.Some? ==> r.1.value == Navigate(RedirectTarget(from), true)
  {
    if !signInOk then ([SignIn], Util.None)
    else if !currentUserOk then ([SignIn, GetCurrentUser], Util.None)
    else ([SignIn, GetCurrentUser], Util.Some(Navigate(RedirectTarget(from), true)))
  }

  /** A user already present is sent to the target at once, with replace. */
  function UserPresentRedirect(userPresent: bool, from: Util.Option<string>): (r: Util.Option<Navigate>)
    ensures r.Some? <==> userPresent
    ensures r.Some? ==> r.value.replace && r.value.to == RedirectTarget(from)
  {
    if userPresent then Util.Some(Navigate(RedirectTarget(from), true)) else Util.None
  }
}

module ChangePasswordPage {
  import opened Util

  datatype ChangeValues = ChangeValues(password: string, newPassword: string)
  datatype ChangePasswordDto = ChangePasswordDto(currentPassword: string, newPassword: string)

  /** A non-empty current password and a new one of at least 6. */
  predicate Schema(v: ChangeValues) {
    Utf16Length(v.password) >= 1 && Utf16Length(v.newPassword) >= 6
  }

  /** `password` is sent as `current_password`, `newPassword` as
      `new_password`. */
  function Dto(v: ChangeValues): ChangePasswordDto {
    ChangePasswordDto(v.password, v.newPassword)
  }

  /** The renaming loses nothing: the values can be read back. */
  lemma DtoRoundTrip(v: ChangeValues)
    ensures ChangeValues(Dto(v).currentPassword, Dto(v).newPassword) == v
  {
  }

  const DefaultValues: ChangeValues := ChangeValues("", "")

  /** The form after the request: reset to its defaults only on success. */
  function AfterRequest(v: ChangeValues, succeeded: bool): (r: ChangeValues)
    ensures succeeded ==> r == DefaultValues
    ensures !succeeded ==> r == v
  {
    if succeeded then DefaultValues else v
  }
}

module ResetPasswordPage {
  import opened Util
  import opened AuthSlice

  datatype ResetValues = ResetValues(password: string)
  datatype ResetPasswordDto = ResetPasswordDto(password: string, token: string)

  predicate Schema(v: ResetValues) {
    Utf16Length(v.password) >= 6
  }

  /** `!token` for the query parameter, `null` when absent. */
  predicate TokenMissing(token: Option<string>) {
    token.None? || token.value == ""
  }

  /** `{ ...values, token: token! }`. */
  function Dto(v: ResetValues, token: Option<string>): (d: ResetPasswordDto)
    requires token.Some?
    ensures d.password == v.password && d.token == token.value
  {
    ResetPasswordDto(v.password, token.value)
  }

  /** The effect on a missing token: `setError("Invalid token")`. */
  function TokenEffect(token: Option<string>): (a: Option<Action>)
    ensures a.Some? <==> TokenMissing(token)
    ensures a.Some? ==> a.value == SetError(Some("Invalid token"))
  {
    if TokenMissing(token) then Some(SetError(Some("Invalid token"))) else None
  }

  /** `disabled={loading || !token}`. */
  predicate SubmitEnabled(loading: bool, token: Option<string>) {
    !loading && !TokenMissing(token)
  }

  /** A missing token shows "Invalid token" and keeps the button disabled;
      an enabled button always has a token for the DTO. */
  lemma MissingTokenGuard(s: AuthState, loading: bool, token: Option<string>)
    ensures TokenMissing(token) ==> Step(s, TokenEffect(token).value).error == Some("Invalid token")
    ensures TokenMissing(token) ==> !SubmitEnabled(loading, token)
    ensures SubmitEnabled(loading, token) ==> token.Some? && TokenEffect(token).None?
  {
  }

  const DefaultValues: ResetValues := ResetValues("")

  function AfterRequest(v: ResetValues, succeeded: bool): (r: ResetValues)
    ensures succeeded ==> r == DefaultValues
    ensures !succeeded ==> r == v
  {
    if succeeded then DefaultValues else v
  }
}
