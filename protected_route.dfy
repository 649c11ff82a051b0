/**
 * The client's route guard: while the session is loading it shows a spinner;
 * without a user it sends the visitor to the login page; the product form
 * (`/add-product`) is reserved for administrators; any other protected page is
 * shown to every signed-in user.
 */
module ProtectedRoute {
  import opened Wrappers
  import opened Http

  /** What the guard renders. */
  datatype Render = Spinner | Nothing | Page

  /** What the guard renders and where, if anywhere, it navigates. */
  datatype Decision = Decision(render: Render, redirect: Option<string>)

  const AdminOnlyPath: string := "/add-product"

  /** `user.isAdmin` is truthy. */
  predicate Administrator(u: PublicUser) {
    u.isAdmin == Some(true)
  }

  /** The guard's checks, in the order loading, signed in, administrator. */
  function Guard(path: string, user: Option<PublicUser>, isLoading: bool): (r: Decision)
    ensures isLoading ==> r == Decision(Spinner, None)
    ensures !isLoading && user.None? ==> r == Decision(Nothing, Some("/auth"))
    ensures !isLoading && user.Some? && path == AdminOnlyPath && !Administrator(user.value) ==>
      r == Decision(Nothing, Some("/"))
    ensures r.render == Page <==>
      !isLoading && user.Some? && (path != AdminOnlyPath || Administrator(user.value))
    ensures r.redirect.Some? <==> r.render == Nothing
  {
    if isLoading then Decision(Spinner, None)
    else if user.None? then Decision(Nothing, Some("/auth"))
    else if path == AdminOnlyPath && !Administrator(user.value) then Decision(Nothing, Some("/"))
    else Decision(Page, None)
  }

  /** The admin flag matters on the product form only: on any other path every user is treated alike. */
  lemma AdminFlagOnlyGuardsProductForm(path: string, u: PublicUser, isAdmin: Option<bool>, isLoading: bool)
    requires path != AdminOnlyPath
    ensures Guard(path, Some(u), isLoading) == Guard(path, Some(u.(isAdmin := isAdmin)), isLoading)
  {
  }
}
