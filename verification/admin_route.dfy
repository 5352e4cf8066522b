/** The guard in front of the admin pages. */
module AdminRoute {
  import opened Values

  const AdminPath: string := "/admin"
  const AuthKey: string := "adminAuth"

  /** `localStorage.getItem('adminAuth') === 'true'` */
  predicate IsAuthenticated(storage: Storage) {
    GetItem(storage, AuthKey) == Some("true")
  }

  datatype Decision = RenderChildren | Redirect(to: string, from: string)

  function Guard(storage: Storage, pathname: string): (d: Decision)
    ensures d.RenderChildren? <==> (AuthKey in storage && storage[AuthKey] == "true") || pathname == AdminPath
    ensures d.Redirect? ==> d.to == AdminPath && d.from == pathname
  {
    if !IsAuthenticated(storage) && pathname != AdminPath then Redirect(AdminPath, pathname)
    else RenderChildren
  }

  /** The redirect target is itself never redirected, so there is no loop. */
  lemma RedirectTargetRenders(storage: Storage, pathname: string)
    requires Guard(storage, pathname).Redirect?
    ensures Guard(storage, Guard(storage, pathname).to) == RenderChildren
  {
  }

  /** The dashboard's logout removes "isAdmin", which the guard never reads. */
  lemma LogoutKeepsDecision(storage: Storage, pathname: string)
    ensures Guard(storage - {"isAdmin"}, pathname) == Guard(storage, pathname)
  {
    assert GetItem(storage - {"isAdmin"}, AuthKey) == GetItem(storage, AuthKey);
  }
}
