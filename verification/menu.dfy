/** The navigation menu of `src/config/menu.ts`: seven pages and the roles
    that may see each of them. */
module Menu {
  import opened Seqs
  import opened Text
  import opened Types

  const DashboardHref: string := "/dashboard"

  const MenuItems: seq<MenuItem> := [
    MenuItem("dashboard", "Dashboard", "LayoutDashboard", "/dashboard", [Admin, Manager, Cashier], None),
    MenuItem("sales", "Sales", "ShoppingCart", "/dashboard/sales", [Admin, Manager, Cashier], None),
    MenuItem("products", "Products", "Package", "/dashboard/products", [Admin, Manager], None),
    MenuItem("inventory", "Inventory", "Warehouse", "/dashboard/inventory", [Admin, Manager], None),
    MenuItem("reports", "Reports", "BarChart3", "/dashboard/reports", [Admin, Manager], None),
    MenuItem("users", "Users", "Users", "/dashboard/users", [Admin], None),
    MenuItem("settings", "Settings", "Settings", "/dashboard/settings", [Admin, Manager], None)
  ]

  /** The shape of the table: seven entries with distinct ids that contain no
      '/' or '.'; the first is the dashboard at "/dashboard", and every other
      entry lives at "/dashboard/" followed by its id; every entry admits the
      admin. */
  lemma MenuShape()
    ensures |MenuItems| == 7
    ensures forall i, j :: 0 <= i < j < |MenuItems| ==> MenuItems[i].id != MenuItems[j].id
    ensures forall i :: 0 <= i < |MenuItems| ==> MenuItems[i].id != "" && '/' !in MenuItems[i].id
    ensures forall i :: 0 <= i < |MenuItems| ==> '.' !in MenuItems[i].caption
    ensures MenuItems[0].id == "dashboard" && MenuItems[0].href == DashboardHref
    ensures forall i :: 1 <= i < |MenuItems| ==> MenuItems[i].href == DashboardHref + "/" + MenuItems[i].id
    ensures forall i :: 0 <= i < |MenuItems| ==> Admin in MenuItems[i].roles
  {
  }

  /** Only the users page is closed to managers, and only the dashboard and
      the sales page are open to cashiers. */
  lemma MenuRoles()
    ensures forall i :: 0 <= i < |MenuItems| ==> (Manager in MenuItems[i].roles <==> MenuItems[i].id != "users")
    ensures forall i :: 0 <= i < |MenuItems| ==> (Cashier in MenuItems[i].roles <==> i < 2)
  {
  }
}
