/** The landing page's redirect after the session store has settled. */
module Navigation {
  import opened AttendanceTypes

  datatype Route = AuthPage | ManagerPage | EmployeePage

  /** Where the landing page navigates to, or `None` while the session is still loading. */
  function IndexTarget(auth: AuthState): (target: Option<Route>)
    ensures target == None <==> auth.loading
    ensures !auth.loading && auth.user == None ==> target == Some(AuthPage)
    ensures !auth.loading && auth.user != None && auth.role == Some(Manager) ==> target == Some(ManagerPage)
    ensures !auth.loading && auth.user != None && auth.role != Some(Manager) ==> target == Some(EmployeePage)
  {
    if auth.loading then None
    else if auth.user == None then Some(AuthPage)
    else if auth.role == Some(Manager) then Some(ManagerPage)
    else Some(EmployeePage)
  }

  /** The role is irrelevant when nobody is signed in, and a known non-manager role and a
      missing role lead to the same page. */
  lemma IndexTargetRoleIndependence(loading: bool, user: Option<UserId>, r1: Option<Role>, r2: Option<Role>)
    requires user == None || (r1 != Some(Manager) && r2 != Some(Manager))
    ensures IndexTarget(AuthState(loading, user, r1)) == IndexTarget(AuthState(loading, user, r2))
  {
  }
}
