/** `ProtectedRoute`, the guard around every admin page. */
module ProtectedRoute {

  datatype View = Spinner | Children | Nothing

  /** What the guard renders, and whether its effect sends the browser to
      '/admin/login'. */
  datatype Decision = Decision(view: View, redirect: bool)

  function Decide(loading: bool, hasUser: bool, isAdmin: bool): (r: Decision)
    ensures loading ==> r == Decision(Spinner, false)
    ensures !loading ==> (r.redirect <==> !hasUser || !isAdmin)
    ensures r.view == Children <==> !loading && hasUser && isAdmin
    ensures r.view == Nothing <==> !loading && !(hasUser && isAdmin)
    ensures r.view == Children ==> !r.redirect
  {
    var redirect := !loading && (!hasUser || !isAdmin);
    if loading then Decision(Spinner, redirect)
    else if hasUser && isAdmin then Decision(Children, redirect)
    else Decision(Nothing, redirect)
  }
}
