/**
  The bottom navigation bar (client/src/components/nav-bar.tsx): which tab is
  highlighted for the current location.
 */
module NavBar {
  import opened Wrappers
  import opened Schema
  import opened Text

  /** The four tabs that navigate to a route, in display order. */
  const RouteTabs: seq<string> := ["/", "/homework", "/live-classes", "/notices"]

  /** `isActive(path)`: the home tab only on "/" itself, every other tab on any location it prefixes. */
  function IsActive(location: string, path: string): (r: bool)
    ensures path == "/" ==> (r <==> location == "/")
    ensures path != "/" ==> (r <==> |path| <= |location| && location[..|path|] == path)
  {
    (path == "/" && location == "/") || (path != "/" && StartsWith(location, path))
  }

  /** The highlight of each tab; `more` is the More tab, lit while its menu is open. */
  datatype NavState = NavState(home: bool, homework: bool, live: bool, notices: bool, more: bool)

  /** Nothing without a signed-in user; otherwise the route tabs by location and More by the menu flag. */
  function NavBarView(user: Option<User>, location: string, showMoreMenu: bool): (r: Option<NavState>)
    ensures r.None? <==> user.None?
    ensures r.Some? ==> r.value.more == showMoreMenu
    ensures r.Some? ==> (r.value.home <==> location == "/")
    ensures r.Some? ==> (r.value.homework <==> StartsWith(location, "/homework"))
    ensures r.Some? ==> (r.value.live <==> StartsWith(location, "/live-classes"))
    ensures r.Some? ==> (r.value.notices <==> StartsWith(location, "/notices"))
  {
    if user.None? then None
    else Some(NavState(IsActive(location, RouteTabs[0]), IsActive(location, RouteTabs[1]),
                       IsActive(location, RouteTabs[2]), IsActive(location, RouteTabs[3]),
                       showMoreMenu))
  }

  /** Tabs whose paths disagree at some position within both can never be active together. */
  lemma DivergingPrefixes(location: string, p: string, q: string, k: nat)
    requires k < |p| && k < |q| && p[k] != q[k]
    ensures StartsWith(location, p) ==> !StartsWith(location, q)
  {
    if StartsWith(location, p) {
      assert location[k] == p[k];
    }
  }

  /** For any location at most one of the four route tabs is highlighted. */
  lemma AtMostOneRouteTab(location: string)
    ensures forall i, j :: 0 <= i < j < |RouteTabs| ==>
      !(IsActive(location, RouteTabs[i]) && IsActive(location, RouteTabs[j]))
  {
    DivergingPrefixes(location, "/homework", "/live-classes", 1);
    DivergingPrefixes(location, "/homework", "/notices", 1);
    DivergingPrefixes(location, "/live-classes", "/notices", 1);
    if location == "/" {
      assert !StartsWith(location, "/homework");
      assert !StartsWith(location, "/live-classes");
      assert !StartsWith(location, "/notices");
    }
  }

  /** The test is a bare prefix test: "/homework" is also lit on "/homeworkX" and on any deeper path. */
  lemma PrefixIsEnough(suffix: string)
    ensures IsActive("/homework" + suffix, "/homework")
    ensures IsActive("/homeworkX", "/homework")
  {
    assert ("/homework" + suffix)[..9] == "/homework";
    assert ("/homework" + "X")[..9] == "/homework";
  }
}
