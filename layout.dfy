/**
 * The navigation of the two layout components (components/layout/sidebar.tsx and
 * components/layout/sider.tsx): both highlight the items whose route the current pathname
 * is in, with the same `isPathActive`, and render nothing before a pathname is known.
 */
module Layout {
  import opened Wrappers
  import opened Strings

  /** `isPathActive(pathname, href)`: the root only at the root; any other route at itself or below it. */
  function IsPathActive(pathname: string, href: string): (active: bool)
    ensures active ==> StartsWith(pathname, href)
    ensures href != "/" && StartsWith(pathname, href + "/") ==> active
  {
    if href == "/" then pathname == "/"
    else pathname == href || StartsWith(pathname, href + "/")
  }

  /** The root item is active exactly at the root pathname. */
  lemma RootActiveOnlyAtRoot(pathname: string)
    ensures IsPathActive(pathname, "/") <==> pathname == "/"
  {
  }

  /** Every item is active on its own route. */
  lemma ActiveOnOwnRoute(href: string)
    ensures IsPathActive(href, href)
  {
  }

  /** Outside the root, an item is active exactly on its route and on the routes below it. */
  lemma ActiveIffAtOrBelow(pathname: string, href: string)
    requires href != "/"
    ensures IsPathActive(pathname, href) <==> pathname == href || exists rest :: pathname == href + "/" + rest
  {
    if StartsWith(pathname, href + "/") {
      var rest := pathname[|href| + 1..];
      assert pathname == pathname[..|href| + 1] + rest;
    }
    if exists rest :: pathname == href + "/" + rest {
      var rest :| pathname == href + "/" + rest;
      assert pathname[..|href + "/"|] == href + "/";
    }
  }

  /** A route that merely extends the item's text, without a `/` after it, does not activate the item. */
  lemma SiblingPrefixNotActive(href: string, extra: string)
    requires href != "/" && extra != [] && extra[0] != '/'
    ensures !IsPathActive(href + extra, href)
  {
    var pathname := href + extra;
    assert pathname[|href|] == extra[0];
  }

  /** The case of a project list route and a project route. */
  lemma ProjectsRouteIsNotUnderProjectRoute()
    ensures !IsPathActive("/gitlab/projects", "/gitlab/project")
    ensures IsPathActive("/gitlab/project/12", "/gitlab/project")
  {
    SiblingPrefixNotActive("/gitlab/project", "s");
    assert "/gitlab/projects" == "/gitlab/project" + "s";
    ActiveIffAtOrBelow("/gitlab/project/12", "/gitlab/project");
    assert "/gitlab/project/12" == "/gitlab/project" + "/" + "12";
  }

  /**
   * What a navigation renders for its item routes: nothing while the pathname is empty,
   * otherwise whether each item is active, in item order.
   */
  function RenderedNavigation(pathname: string, hrefs: seq<string>): (active: Option<seq<bool>>)
    ensures active.None? <==> pathname == ""
    ensures active.Some? ==> |active.value| == |hrefs|
    ensures active.Some? ==> forall i :: 0 <= i < |hrefs| ==> (active.value[i] <==> IsPathActive(pathname, hrefs[i]))
  {
    if pathname == "" then None
    else Some(seq(|hrefs|, i requires 0 <= i < |hrefs| => IsPathActive(pathname, hrefs[i])))
  }
}
