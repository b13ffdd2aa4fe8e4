/**
 * The application bar's search state (`isSearchOn`, `searchQuery`), the event
 * handlers that change it, the navigation a search triggers, the active-route test,
 * and the drawer rules that depend on the breakpoint.
 */
module AppBar {
  import opened Wrappers

  const SearchRoutePrefix := "/search/"

  /** The path a search for `query` navigates to. */
  function SearchPath(query: string): (path: string)
    ensures |path| == |SearchRoutePrefix| + |query|
    ensures path[..|SearchRoutePrefix|] == SearchRoutePrefix
    ensures path[|SearchRoutePrefix|..] == query
  {
    SearchRoutePrefix + query
  }

  /** Different queries lead to different paths. */
  lemma SearchPathInjective(q1: string, q2: string)
    requires SearchPath(q1) == SearchPath(q2)
    ensures q1 == q2
  {
  }

  /** A route is active exactly when it is the current path name, character for character. */
  function IsActiveRoute(pathname: string, routeName: string): (active: bool)
    ensures active <==> |pathname| == |routeName| && forall i :: 0 <= i < |pathname| ==> pathname[i] == routeName[i]
  {
    pathname == routeName
  }

  /** The test is an exact match, not a prefix match: the bare search prefix is active
      on a search page only when the query is empty. */
  lemma ActiveRouteIsExact(query: string)
    ensures IsActiveRoute(SearchPath(query), SearchRoutePrefix) <==> query == ""
  {
  }

  /** The owner's handler a menu-button click goes to. */
  datatype DrawerHandler = DesktopDrawerMenuClick | MobileDrawerMenuClick

  function MenuButtonHandler(isDesktop: bool): (h: DrawerHandler)
    ensures h == DesktopDrawerMenuClick <==> isDesktop
    ensures h == MobileDrawerMenuClick <==> !isDesktop
  {
    if isDesktop then DesktopDrawerMenuClick else MobileDrawerMenuClick
  }

  /** Whether a window resize calls the owner's mobile-drawer handler: only on a
      desktop breakpoint, and only while the mobile drawer is open. */
  function ResizeTogglesMobileDrawer(isDesktop: bool, isMobileDrawerOpen: bool): (toggles: bool)
    ensures toggles ==> isMobileDrawerOpen
    ensures toggles <==> isDesktop && isMobileDrawerOpen
  {
    isDesktop && isMobileDrawerOpen
  }

  /** The mobile drawer after a resize, when the owner's handler flips it. */
  function MobileDrawerAfterResize(isDesktop: bool, isMobileDrawerOpen: bool): (open: bool)
  {
    if ResizeTogglesMobileDrawer(isDesktop, isMobileDrawerOpen) then !isMobileDrawerOpen
    else isMobileDrawerOpen
  }

  /** A resize on a desktop breakpoint always leaves the mobile drawer closed, and a
      resize on a smaller breakpoint never changes it. */
  lemma ResizeClosesMobileDrawerOnDesktop(isDesktop: bool, isMobileDrawerOpen: bool)
    ensures isDesktop ==> !MobileDrawerAfterResize(isDesktop, isMobileDrawerOpen)
    ensures !isDesktop ==> MobileDrawerAfterResize(isDesktop, isMobileDrawerOpen) == isMobileDrawerOpen
  {
  }

  /** The component. `hasRouter` says whether the owner passed a router; `pushed` is
      the sequence of paths this component has pushed onto the router's history. */
  class DEAppBar {
    var isSearchOn: bool
    var searchQuery: string
    const hasRouter: bool
    var pushed: seq<string>

    constructor (hasRouter: bool)
      ensures !isSearchOn && searchQuery == ""
      ensures this.hasRouter == hasRouter && pushed == []
    {
      isSearchOn, searchQuery := false, "";
      this.hasRouter := hasRouter;
      pushed := [];
    }

    /** The search button opens the search bar. */
    method HandleSearchClick()
      modifies this
      ensures isSearchOn
      ensures searchQuery == old(searchQuery) && pushed == old(pushed)
    {
      isSearchOn := true;
    }

    /** The close button closes the search bar. */
    method HandleCloseClick()
      modifies this
      ensures !isSearchOn
      ensures searchQuery == old(searchQuery) && pushed == old(pushed)
    {
      isSearchOn := false;
    }

    /** The input's state changed: a non-empty input value becomes the query; an empty
        or absent one changes nothing. */
    method HandleDownshiftStateChange(inputValue: Option<string>)
      modifies this
      ensures inputValue.Some? && inputValue.value != "" ==> searchQuery == inputValue.value
      ensures inputValue.None? || inputValue.value == "" ==> searchQuery == old(searchQuery)
      ensures isSearchOn == old(isSearchOn) && pushed == old(pushed)
    {
      if inputValue.Some? && inputValue.value != "" {
        searchQuery := inputValue.value;
      }
    }

    /** An item was selected: search for it. */
    method HandleDownshiftChange(selectedItem: string)
      modifies this
      ensures !isSearchOn && searchQuery == ""
      ensures pushed == old(pushed) + (if hasRouter then [SearchPath(selectedItem)] else [])
    {
      PerformSearch(selectedItem);
    }

    /** The search form was submitted: search for the current query. */
    method HandleSearchSubmit()
      modifies this
      ensures !isSearchOn && searchQuery == ""
      ensures pushed == old(pushed) + (if hasRouter then [SearchPath(old(searchQuery))] else [])
    {
      PerformSearch(searchQuery);
    }

    /** Close and clear the search bar, then navigate to the search page for `query`
        when there is a router. */
    method PerformSearch(query: string)
      modifies this
      ensures !isSearchOn && searchQuery == ""
      ensures pushed == old(pushed) + (if hasRouter then [SearchPath(query)] else [])
    {
      isSearchOn, searchQuery := false, "";
      if hasRouter {
        pushed := pushed + [SearchPath(query)];
      }
    }
  }

  /** A user opens the search bar, types `query` and submits: the bar closes and the
      router is sent to the search page for exactly that query. An empty input leaves
      the query empty, so the navigation is to the bare search prefix. */
  method TypeAndSubmit(query: string) returns (pushed: seq<string>)
    ensures pushed == [SearchPath(query)]
  {
    var bar := new DEAppBar(true);
    bar.HandleSearchClick();
    bar.HandleDownshiftStateChange(Some(query));
    bar.HandleSearchSubmit();
    pushed := bar.pushed;
  }
}
