/**
 * The authenticated page frame (components/layout/MainLayout.tsx): the
 * guard that sends a visitor to the login page or to their own dashboard,
 * and the sidebar's open state that the frame owns and the sidebar and the
 * navigation bar both flip.
 */
module MainLayout {
  import opened Common
  import opened Types

  datatype Outcome = RedirectTo(path: string) | RenderLayout

  /** The guard: login first, then the route's roles (an empty list admits nobody). */
  function Guard(isAuthenticated: bool, user: Option<User>, allowedRoles: Option<seq<UserRole>>): (r: Outcome)
    ensures r == RenderLayout ==> isAuthenticated && user.Some?
    ensures r.RedirectTo? ==> r.path == "/login" || (user.Some? && r.path == "/" + RoleName(user.value.role))
  {
    if !isAuthenticated || user.None? then RedirectTo("/login")
    else if allowedRoles.Some? && user.value.role !in allowedRoles.value then RedirectTo("/" + RoleName(user.value.role))
    else RenderLayout
  }

  /**
   * Without a signed-in user the visitor goes to "/login"; a user whose role
   * the route does not list goes to "/{role}"; everyone else gets the page.
   */
  lemma GuardSpec(isAuthenticated: bool, user: Option<User>, allowedRoles: Option<seq<UserRole>>)
    ensures var r := Guard(isAuthenticated, user, allowedRoles);
      && (r == RedirectTo("/login") <==> !isAuthenticated || user.None?)
      && (r == RenderLayout <==> isAuthenticated && user.Some? && (allowedRoles.None? || user.value.role in allowedRoles.value))
    ensures user.Some? ==>
      var r := Guard(isAuthenticated, user, allowedRoles);
      var home := "/" + RoleName(user.value.role);
      (r == RedirectTo(home) <==> isAuthenticated && allowedRoles.Some? && user.value.role !in allowedRoles.value)
  {
    if user.Some? {
      assert ("/" + RoleName(user.value.role))[1] != "/login"[1];
    }
  }

  /** A route listing no roles redirects every signed-in user to their dashboard. */
  lemma EmptyRoleListAdmitsNobody(u: User)
    ensures Guard(true, Some(u), Some([])) == RedirectTo("/" + RoleName(u.role))
  {
  }

  /** The frame's state: whether the sidebar is open. */
  class LayoutShell {
    var sidebarOpen: bool

    constructor ()
      ensures sidebarOpen
    {
      sidebarOpen := true;
    }

    /** The sidebar's collapse button and the navigation bar's menu button both flip it. */
    method ToggleSidebar()
      modifies this
      ensures sidebarOpen == !old(sidebarOpen)
    {
      sidebarOpen := !sidebarOpen;
    }
  }
}
