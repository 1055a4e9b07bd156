/**
 * The navigation shell: which navigation entry is highlighted for the current
 * path, when the navigation is hidden, and the entries of the mobile bar.
 */
module AppShell {
  import Seqs

  datatype NavItem = NavItem(href: string, icon: string, labelText: string)

  const NAV_ITEMS: seq<NavItem> := [
    NavItem("/", "pi pi-home", "Dashboard"),
    NavItem("/trips", "pi pi-compass", "Fahrten"),
    NavItem("/new-trip", "pi pi-plus-circle", "Fahrt starten"),
    NavItem("/ranking", "pi pi-chart-line", "Rangliste"),
    NavItem("/profile", "pi pi-user", "Profil")
  ]

  const HIDE_NAV_PATHS: seq<string> := ["/auth"]

  /** `pathname.startsWith(prefix)`. */
  predicate StartsWith(pathname: string, prefix: string) {
    prefix <= pathname
  }

  /** `isActivePath`: the root only for itself, any other entry for itself and every path below it. */
  predicate IsActivePath(href: string, pathname: string) {
    if href == "/" then pathname == "/"
    else pathname == href || StartsWith(pathname, href + "/")
  }

  /**
   * `pathname` is `href` or lies below it: it extends `href` and the next
   * character starts a new path segment.
   */
  predicate BelowOrAt(href: string, pathname: string) {
    href <= pathname && (|pathname| == |href| || pathname[|href|] == '/')
  }

  /** The root entry is highlighted only on the root itself. */
  lemma RootActive(pathname: string)
    ensures IsActivePath("/", pathname) <==> pathname == "/"
  {
  }

  /**
   * Any other entry is highlighted exactly on its own path and the paths
   * below it: a path that merely shares its first characters is not.
   */
  lemma OtherActive(href: string, pathname: string)
    requires href != "/"
    ensures IsActivePath(href, pathname) <==> BelowOrAt(href, pathname)
  {
    if BelowOrAt(href, pathname) && |pathname| != |href| {
      assert pathname[..|href| + 1] == href + "/";
    }
    if StartsWith(pathname, href + "/") {
      assert pathname[..|href|] == (href + "/")[..|href|] == href;
    }
  }

  /** "/tripsX" does not highlight "/trips", while "/trips/TR-1093" does. */
  lemma TripsSegments()
    ensures !IsActivePath("/trips", "/tripsX")
    ensures IsActivePath("/trips", "/trips/TR-1093")
    ensures !IsActivePath("/", "/trips")
  {
    OtherActive("/trips", "/tripsX");
    assert "/tripsX"[6] != '/';
    assert "/trips/" <= "/trips/TR-1093";
  }

  /** `HIDE_NAV_PATHS.some(...)`: the path is a blocked path or lies below one. */
  function HiddenBy(blocked: seq<string>, pathname: string): (r: bool)
    ensures r <==> exists i :: 0 <= i < |blocked| && (pathname == blocked[i] || StartsWith(pathname, blocked[i] + "/"))
  {
    if blocked == [] then false
    else if pathname == blocked[0] || StartsWith(pathname, blocked[0] + "/") then true
    else HiddenBy(blocked[1..], pathname)
  }

  function HideNavigation(pathname: string): bool {
    HiddenBy(HIDE_NAV_PATHS, pathname)
  }

  /** The navigation is hidden on "/auth" and the paths below it, and nowhere else. */
  lemma HideNavigationOnAuth(pathname: string)
    ensures HideNavigation(pathname) <==> pathname == "/auth" || StartsWith(pathname, "/auth/")
  {
    assert HIDE_NAV_PATHS[0] + "/" == "/auth/";
  }

  predicate OnMobileBar(item: NavItem) {
    item.href != "/new-trip"
  }

  /** `mobileNavItems`. */
  function MobileNavItems(): seq<NavItem> {
    Seqs.Filter(NAV_ITEMS, OnMobileBar)
  }

  /** The mobile bar shows every entry but "Fahrt starten", in the sidebar's order. */
  lemma MobileNavItemsValue()
    ensures MobileNavItems() == [NAV_ITEMS[0], NAV_ITEMS[1], NAV_ITEMS[3], NAV_ITEMS[4]]
    ensures forall i :: 0 <= i < |MobileNavItems()| ==> MobileNavItems()[i].href != "/new-trip"
  {
    var s := NAV_ITEMS;
    assert s[..5] == s;
    assert s[..5][..4] == s[..4];
    assert s[..4][..3] == s[..3];
    assert s[..3][..2] == s[..2];
    assert s[..2][..1] == s[..1];
    assert s[..1][..0] == [];
    assert s[2].href == "/new-trip";
    assert s[1].href != "/new-trip" by { assert |s[1].href| != |"/new-trip"|; }
    assert s[3].href != "/new-trip" by { assert s[3].href[1] != 'n'; }
    assert s[4].href != "/new-trip" by { assert s[4].href[1] != 'n'; }
    assert Seqs.Filter(s[..1], OnMobileBar) == [s[0]];
    assert Seqs.Filter(s[..2], OnMobileBar) == [s[0], s[1]];
    assert Seqs.Filter(s[..3], OnMobileBar) == [s[0], s[1]];
    assert Seqs.Filter(s[..4], OnMobileBar) == [s[0], s[1], s[3]];
  }
}
