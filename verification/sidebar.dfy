/** The sidebar: the menu entries the signed-in user's role may see, which
    one is highlighted for the current path, the collapse toggle, and the
    captions shown for the entries. */
module Sidebar {
  import opened Seqs
  import opened Text
  import opened Types
  import opened Menu
  import opened Language

  function CanSee(user: Option<User>): MenuItem -> bool
  {
    (item: MenuItem) => user.Some? && user.value.role in item.roles
  }

  /** `filteredMenuItems`: the entries whose roles include the user's role,
      in menu order; none at all when nobody is signed in. */
  function VisibleItems(items: seq<MenuItem>, user: Option<User>): (r: seq<MenuItem>)
    ensures forall x :: x in r <==> x in items && user.Some? && user.value.role in x.roles
  {
    Filter(items, CanSee(user))
  }

  /** The visible entries keep the menu's order, and without a user the
      sidebar is empty. */
  lemma VisibleItemsKeepOrder(items: seq<MenuItem>, user: Option<User>)
    ensures exists idx :: EmbedsAt(VisibleItems(items, user), items, idx)
    ensures user.None? ==> VisibleItems(items, user) == []
  {
    FilterIsSubsequence(items, CanSee(user));
    assert EmbedsAt(VisibleItems(items, user), items, KeptPositions(items, CanSee(user)));
    if user.None? {
      FilterDropsAll(items, CanSee(user));
    }
  }

  /** The admin sees the whole menu. */
  lemma AdminSeesEverything(u: User)
    requires u.role == Admin
    ensures VisibleItems(MenuItems, Some(u)) == MenuItems
  {
    MenuShape();
    FilterKeepsAll(MenuItems, CanSee(Some(u)));
  }

  /** A manager sees every entry but the users page. */
  lemma ManagerSeesAllButUsers(u: User)
    requires u.role == Manager
    ensures VisibleItems(MenuItems, Some(u)) == MenuItems[..5] + MenuItems[6..]
  {
    MenuShape();
    MenuRoles();
    FilterAllBut(MenuItems, CanSee(Some(u)), 5);
  }

  /** A cashier sees the dashboard and the sales page only. */
  lemma CashierSeesDashboardAndSales(u: User)
    requires u.role == Cashier
    ensures VisibleItems(MenuItems, Some(u)) == [MenuItems[0], MenuItems[1]]
  {
    MenuShape();
    MenuRoles();
    FilterPrefixOnly(MenuItems, CanSee(Some(u)), 2);
    assert MenuItems[..2] == [MenuItems[0], MenuItems[1]];
  }

  /** `isActive`: the dashboard entry only on "/dashboard" itself; any other
      entry on its own path and on every path below it. */
  predicate IsActive(item: MenuItem, pathname: string)
  {
    if item.href == DashboardHref then pathname == item.href
    else pathname == item.href || StartsWith(pathname, item.href + "/")
  }

  /** A sub-page keeps its entry highlighted, a path that merely begins with
      the same letters does not, and the dashboard entry is not highlighted
      on a sub-page. */
  lemma ActiveExamples()
    ensures IsActive(MenuItems[1], "/dashboard/sales")
    ensures IsActive(MenuItems[1], "/dashboard/sales/42")
    ensures !IsActive(MenuItems[1], "/dashboard/salesX")
    ensures !IsActive(MenuItems[0], "/dashboard/sales")
    ensures IsActive(MenuItems[0], "/dashboard")
  {
    assert ("/dashboard/sales/42")[..17] == "/dashboard/sales/";
    assert ("/dashboard/salesX")[16] == 'X';
  }

  /** An entry at `base + "/" + id` is active on `pathname`: the path is that
      href, possibly followed by '/' and more. */
  lemma ActiveHrefShape(pathname: string, id: string)
    requires IsActive(MenuItem(id, "", "", DashboardHref + "/" + id, [], None), pathname)
    ensures StartsWith(pathname, DashboardHref + "/" + id)
    ensures |pathname| > |DashboardHref + "/" + id| ==> pathname[|DashboardHref + "/" + id|] == '/'
  {
    var h := DashboardHref + "/" + id;
    if pathname != h {
      assert (h + "/")[..|h|] == h;
      assert pathname[..|h|] == pathname[..|h| + 1][..|h|];
      assert pathname[|h|] == (h + "/")[|h|];
    }
  }

  /** Two sub-page entries whose ids contain no '/' are never active on the
      same path unless their ids are equal. */
  lemma ActiveIdsAgree(pathname: string, a: MenuItem, b: MenuItem)
    requires a.href == DashboardHref + "/" + a.id && b.href == DashboardHref + "/" + b.id
    requires '/' !in a.id && '/' !in b.id
    requires IsActive(a, pathname) && IsActive(b, pathname)
    ensures a.id == b.id
    decreases if |a.id| > |b.id| then 1 else 0
  {
    if |a.id| > |b.id| {
      ActiveIdsAgree(pathname, b, a);
    } else {
      var ha := DashboardHref + "/" + a.id;
      var hb := DashboardHref + "/" + b.id;
      assert a.href != DashboardHref && b.href != DashboardHref;
      assert IsActive(MenuItem(a.id, "", "", ha, [], None), pathname);
      assert IsActive(MenuItem(b.id, "", "", hb, [], None), pathname);
      ActiveHrefShape(pathname, a.id);
      ActiveHrefShape(pathname, b.id);
      assert pathname[..|ha|] == ha && pathname[..|hb|] == hb;
      assert forall k :: 0 <= k < |a.id| ==> a.id[k] == pathname[11 + k] == b.id[k];
      assert a.id == b.id[..|a.id|];
    }
  }

  /** On any path at most one entry of the configured menu is highlighted. */
  lemma AtMostOneActive(pathname: string, i: nat, j: nat)
    requires i < |MenuItems| && j < |MenuItems|
    requires IsActive(MenuItems[i], pathname) && IsActive(MenuItems[j], pathname)
    ensures i == j
  {
    MenuShape();
    if i != 0 && j != 0 {
      ActiveIdsAgree(pathname, MenuItems[i], MenuItems[j]);
    }
  }

  /** The collapse button flips the sidebar between wide and narrow. */
  function ToggleCollapse(collapsed: bool): (r: bool)
    ensures r != collapsed
  {
    !collapsed
  }

  lemma ToggleTwiceRestores(collapsed: bool)
    ensures ToggleCollapse(ToggleCollapse(collapsed)) == collapsed
  {
  }

  /** The caption the sidebar shows: `t(item.label)`. */
  function Caption(cat: Catalog, lang: Lang, item: MenuItem): string
  {
    T(cat, lang, item.caption)
  }

  /** Every key of the catalogue carries a section prefix, while the menu's
      labels have no dot: the label is never found, so in either language
      the sidebar shows the English label, although the catalogue holds a
      Thai caption for every entry under "menu." + id. */
  lemma CaptionsStayEnglish(cat: Catalog, lang: Lang, i: nat)
    requires DottedKeys(cat)
    requires i < |MenuItems|
    ensures Caption(cat, lang, MenuItems[i]) == MenuItems[i].caption
  {
    MenuShape();
    UndottedKeyFallsBack(cat, lang, MenuItems[i].caption);
  }

  /** The catalogue key of an entry's caption. */
  function MenuKey(item: MenuItem): string
  {
    "menu." + item.id
  }

  /** The caption looked up under the entry's catalogue key. */
  function KeyedCaption(cat: Catalog, lang: Lang, item: MenuItem): string
  {
    T(cat, lang, MenuKey(item))
  }

  /** Looked up under "menu." + id, every entry shows its English label in
      English and the catalogue's Thai caption, which differs from it, in
      Thai. */
  lemma KeyedCaptionsTranslate(cat: Catalog, i: nat)
    requires HasMenuSections(cat)
    requires i < |MenuItems|
    ensures KeyedCaption(cat, En, MenuItems[i]) == MenuItems[i].caption
    ensures MenuKey(MenuItems[i]) in MenuSectionTh
    ensures KeyedCaption(cat, Th, MenuItems[i]) == MenuSectionTh[MenuKey(MenuItems[i])]
    ensures KeyedCaption(cat, Th, MenuItems[i]) != MenuItems[i].caption
  {
    var m := MenuItems;
    assert MenuKey(m[0]) == "menu.dashboard";
    assert MenuKey(m[1]) == "menu.sales";
    assert MenuKey(m[2]) == "menu.products";
    assert MenuKey(m[3]) == "menu.inventory";
    assert MenuKey(m[4]) == "menu.reports";
    assert MenuKey(m[5]) == "menu.users";
    assert MenuKey(m[6]) == "menu.settings";
  }
}
