/** Two-step identity resolution shared by both entry handlers: the primary
    user lookup, and the session fallback consulted only when it throws. */
module Identity {
  import opened Wrappers
  import opened EntryTypes
  import opened Backend

  const NotAuthenticated := "Not authenticated"
  const SessionMissing := "Not authenticated. Please log in again."

  datatype Resolution =
    | Resolved(user: User)       // proceed as this user
    | Denied(error: string)      // answer with this error, success = false
    | Faulted(message: string)   // the fallback itself threw; the outer catch takes it

  function Resolve(primary: Call<Option<User>>, session: Call<Option<User>>): (r: Resolution)
    // a resolved user is one the auth service offered, through the fallback only after a throw
    ensures r.Resolved? ==>
      primary == Returned(Some(r.user)) || (primary.Threw? && session == Returned(Some(r.user)))
    ensures primary.Returned? && primary.value.Some? ==> r == Resolved(primary.value.value)
    ensures primary.Threw? && session.Returned? && session.value.Some? ==> r == Resolved(session.value.value)
    // a primary lookup that returns without a user is denied with the short message
    ensures r == Denied(NotAuthenticated) <==> primary == Returned(None)
    // a throw with no session user is denied with the "log in again" message
    ensures r == Denied(SessionMissing) <==> primary.Threw? && session == Returned(None)
    ensures r.Denied? ==> r.error == NotAuthenticated || r.error == SessionMissing
    // only the fallback can fault, and only after the primary lookup threw
    ensures r.Faulted? <==> primary.Threw? && session.Threw?
    ensures r.Faulted? ==> r.message == session.message
  {
    match primary
    case Threw(_) =>
      (match session
       case Returned(Some(u)) => Resolved(u)
       case Returned(None) => Denied(SessionMissing)
       case Threw(m) => Faulted(m))
    case Returned(u) =>
      if u.None? then Denied(NotAuthenticated) else Resolved(u.value)
  }

  /** The session is never consulted unless the primary lookup threw. */
  lemma SessionOnlyAfterThrow(primary: Call<Option<User>>, s1: Call<Option<User>>, s2: Call<Option<User>>)
    requires !primary.Threw?
    ensures Resolve(primary, s1) == Resolve(primary, s2)
  {
  }
}
