/** The page context provider: on every change of the route's pathname it
    sets the two page flags (login page, register page) and shifts a
    two-slot history of paths, so the login page can send the user back. */
module PageProvider {
  import opened Json

  /** What the context exposes to the components below it. */
  datatype PageContext = PageContext(isLoginPageContext: bool, isRegisterPageContext: bool,
                                     currentPath: string, previousPath: string)

  datatype PageFlags = PageFlags(isLoginPage: bool, isRegisterPage: bool)

  /** The flags for a pathname: each is set on its own page only, so they are
      never both set. */
  function FlagsFor(pathname: string): (f: PageFlags)
    ensures f.isLoginPage <==> pathname == "/login"
    ensures f.isRegisterPage <==> pathname == "/register"
    ensures !(f.isLoginPage && f.isRegisterPage)
  {
    if pathname == "/login" then PageFlags(true, false)
    else if pathname == "/register" then PageFlags(false, true)
    else PageFlags(false, false)
  }

  class Provider {
    var isLoginPage: bool
    var isRegisterPage: bool
    var currPath: string
    var prevPath: string
    /** The pathname the effect last ran for (React's dependency memory). */
    var lastPathname: Option<string>
    /** The pathnames the effect has run for, oldest first. */
    ghost var visits: seq<string>

    /** The flags describe the current path, the current path is the last
        visited one and the previous path the one visited before it. */
    ghost predicate Valid()
      reads this
    {
      && !(isLoginPage && isRegisterPage)
      && (visits == [] <==> lastPathname.None?)
      && (visits == [] ==> !isLoginPage && !isRegisterPage && currPath == "" && prevPath == "")
      && (visits != [] ==>
            && lastPathname == Some(visits[|visits| - 1])
            && currPath == visits[|visits| - 1]
            && PageFlags(isLoginPage, isRegisterPage) == FlagsFor(currPath)
            && prevPath == (if |visits| >= 2 then visits[|visits| - 2] else ""))
      && (forall i :: 0 < i < |visits| ==> visits[i - 1] != visits[i])
    }

    constructor ()
      ensures Valid()
      ensures !isLoginPage && !isRegisterPage && currPath == "" && prevPath == "" && visits == []
    {
      isLoginPage, isRegisterPage := false, false;
      currPath, prevPath := "", "";
      lastPathname := None;
      visits := [];
    }

    /** A render with `pathname`: the effect runs only when the pathname
        differs from the one it last ran for. */
    method Render(pathname: string)
      requires Valid()
      modifies this
      ensures Valid()
      ensures old(lastPathname) == Some(pathname) ==>
        && isLoginPage == old(isLoginPage) && isRegisterPage == old(isRegisterPage)
        && currPath == old(currPath) && prevPath == old(prevPath) && visits == old(visits)
      ensures old(lastPathname) != Some(pathname) ==>
        && PageFlags(isLoginPage, isRegisterPage) == FlagsFor(pathname)
        && prevPath == old(currPath) && currPath == pathname
        && visits == old(visits) + [pathname]
    {
      if lastPathname != Some(pathname) {
        var flags := FlagsFor(pathname);
        isLoginPage := flags.isLoginPage;
        isRegisterPage := flags.isRegisterPage;
        prevPath, currPath := currPath, pathname;
        lastPathname := Some(pathname);
        visits := visits + [pathname];
      }
    }

    /** The context value: the two flags and the two paths, unchanged. */
    function Context(): (c: PageContext)
      reads this
      requires Valid()
      ensures !(c.isLoginPageContext && c.isRegisterPageContext)
      ensures c.currentPath == currPath && c.previousPath == prevPath
      ensures c.isLoginPageContext == isLoginPage && c.isRegisterPageContext == isRegisterPage
    {
      PageContext(isLoginPage, isRegisterPage, currPath, prevPath)
    }
  }
}
