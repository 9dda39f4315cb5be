/** src/app/dashboard/page.tsx: the admin-only guard of the dashboard. */
module DashboardPage {
  import opened Wrappers
  import opened Types
  import opened Auth

  /** `status` as the session hook reports it. */
  datatype Status = Loading | Authenticated | Unauthenticated

  predicate IsAdmin(session: Option<Session>) {
    session.Some? && session.value.user.Some? && session.value.user.value.role == Some(Admin)
  }

  /** The effect: nothing while loading, otherwise `/` for anyone but an admin. */
  function RedirectTarget(status: Status, session: Option<Session>): (r: Option<string>)
    ensures status == Loading ==> r.None?
    ensures status != Loading ==> (r.Some? <==> !IsAdmin(session))
    ensures r.Some? ==> r.value == "/"
  {
    if status == Loading then None
    else if !IsAdmin(session) then Some("/")
    else None
  }

  /** The render guard: the dashboard itself, or the placeholder text. */
  predicate RendersContent(status: Status, session: Option<Session>) {
    !(status == Loading || !IsAdmin(session))
  }

  /** Content only for a loaded admin session; once loaded, the content is
      hidden exactly when the effect redirects. */
  lemma ContentIffNoRedirect(status: Status, session: Option<Session>)
    ensures RendersContent(status, session) ==> status != Loading && IsAdmin(session)
    ensures status != Loading ==> (RendersContent(status, session) <==> RedirectTarget(status, session).None?)
  {
  }

  /** With sessions as the callbacks build them, no user ever sees the
      dashboard: every loaded visit is sent to `/`. */
  lemma CallbackSessionsAreRedirected(status: Status, s: Session)
    requires status != Loading && RoleFree(s)
    ensures RedirectTarget(status, Some(s)) == Some("/")
    ensures !RendersContent(status, Some(s))
  {
  }
}
