/**
 * The sidebar of every page (src/components/layout/app-layout.tsx): five
 * navigation items, each highlighted when the current path matches it.
 */
module AppLayout {
  datatype NavItem = NavItem(href: string, caption: string, exact: bool)

  /** `navItems`; only the dashboard item asks for an exact match. */
  const NavItems: seq<NavItem> := [
    NavItem("/dashboard", "Dashboard", true),
    NavItem("/income", "Ingresos", false),
    NavItem("/expenses", "Gastos", false),
    NavItem("/subscriptions", "Suscripciones", false),
    NavItem("/categories", "Categorías", false)
  ]

  /** `item.exact ? pathname === item.href : pathname.startsWith(item.href)` */
  function IsActive(item: NavItem, pathname: string): (active: bool)
    ensures active ==> item.href <= pathname
    ensures pathname == item.href ==> active
  {
    if item.exact then pathname == item.href else item.href <= pathname
  }

  /** The dashboard item is highlighted on "/dashboard" only. */
  lemma DashboardExact(pathname: string)
    ensures IsActive(NavItems[0], pathname) <==> pathname == "/dashboard"
  {
  }

  /** The other items are highlighted on every path under their href. */
  lemma OthersByPrefix(i: int, pathname: string)
    requires 1 <= i < |NavItems|
    ensures IsActive(NavItems[i], pathname) <==> NavItems[i].href <= pathname
  {
  }

  /** Every item is highlighted on its own href. */
  lemma ActiveOnOwnHref(i: int)
    requires 0 <= i < |NavItems|
    ensures IsActive(NavItems[i], NavItems[i].href)
  {
  }

  /** The prefix test is not a path-segment test: "/incomeX" highlights Ingresos. */
  lemma PrefixIsNotSegment()
    ensures IsActive(NavItems[1], "/incomeX")
    ensures !IsActive(NavItems[0], "/dashboard/")
  {
    assert "/incomeX"[..7] == "/income";
  }

  /** Texts that differ in their second character are never both prefixes of one path. */
  lemma DisjointPrefixes(a: string, b: string, p: string)
    requires |a| > 1 && |b| > 1 && a[1] != b[1]
    ensures !(a <= p && b <= p)
  {
  }

  /** No path highlights two items. */
  lemma AtMostOneActive(pathname: string, i: int, j: int)
    requires 0 <= i < j < |NavItems|
    ensures !(IsActive(NavItems[i], pathname) && IsActive(NavItems[j], pathname))
  {
    var a, b := NavItems[i].href, NavItems[j].href;
    assert |a| > 1 && |b| > 1 && a[1] != b[1];
    DisjointPrefixes(a, b, pathname);
  }
}
