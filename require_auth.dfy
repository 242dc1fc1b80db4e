/** The route guard: a spinner while the session loads, the protected page
    otherwise, and a redirect to the sign-in page, remembering where the
    visitor was, once loading ends without a user. The location is reduced
    to its path. */
module RequireAuth {
  import opened Util
  import SignInPage

  datatype View = Spinner | Children

  /** `navigate("/sign-in", { replace: true, state: { from: location } })`. */
  datatype Redirect = Redirect(to: string, replace: bool, from: string)

  /** What one render shows. */
  function Render(loading: bool): (v: View)
    ensures v == Spinner <==> loading
  {
    if loading then Spinner else Children
  }

  /** What the effect does after a render. */
  function Effect(userPresent: bool, loading: bool, path: string): (r: Option<Redirect>)
    ensures r.Some? <==> !userPresent && !loading
    ensures r.Some? ==> r.value == Redirect("/sign-in", true, path)
  {
    if !userPresent && !loading then Some(Redirect("/sign-in", true, path)) else None
  }

  /** A visitor without a user sees the page for the one render before the
      redirect takes effect: the render does not look at the user. */
  lemma ChildrenBeforeRedirect(path: string)
    ensures Render(false) == Children && Effect(false, false, path).Some?
    ensures Effect(true, false, path).None?
  {
  }

  /** While loading there is never a redirect, whoever is signed in. */
  lemma LoadingNeverRedirects(userPresent: bool, path: string)
    ensures Render(true) == Spinner && Effect(userPresent, true, path).None?
  {
  }

  /** The redirect and the sign-in page fit together: once signed in, the
      sign-in page returns to the path the guard recorded, or to "/" when
      that path is empty. */
  lemma RedirectRoundTrip(path: string)
    ensures Effect(false, false, path).value.from == path
    ensures path != "" ==> SignInPage.RedirectTarget(Some(Effect(false, false, path).value.from)) == path
    ensures path == "" ==> SignInPage.RedirectTarget(Some(Effect(false, false, path).value.from)) == "/"
  {
  }
}
