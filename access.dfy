/**
 * Who sees what: the sidebar's navigation table and its role filter, and the page's choice of
 * screen from the session and the active module.
 */
module Access {
  import opened Wrappers
  import opened Seqs
  import opened Records
  import opened Auth

  /** A navigation entry: the module it opens, its caption and the roles it is shown to. */
  datatype NavItem = NavItem(id: string, caption: string, roles: seq<Role>)

  const Everyone: seq<Role> := [Admin, ProductionManager, QualityInspector]
  const Managers: seq<Role> := [Admin, ProductionManager]
  const Inspectors: seq<Role> := [Admin, QualityInspector]

  /** The sidebar's table, in display order. */
  const NavItems: seq<NavItem> := [
    NavItem("dashboard", "Dashboard", Everyone),
    NavItem("users", "User Management", [Admin]),
    NavItem("inventory", "Inventory", Managers),
    NavItem("production", "Production Planning", Managers),
    NavItem("battery", "Battery & Powertrain", Managers),
    NavItem("quality", "Quality Control", Inspectors),
    NavItem("costs", "Cost & Performance", Managers),
    NavItem("reports", "Reports", Everyone)
  ]

  function Ids(items: seq<NavItem>): (r: seq<string>)
    ensures |r| == |items| && forall i :: 0 <= i < |items| ==> r[i] == items[i].id
  {
    Map((n: NavItem) => n.id, items)
  }

  /** `navItems.filter(item => hasRole(item.roles))`. */
  function Visible(user: Option<PublicUser>): (r: seq<NavItem>)
    ensures forall n :: n in r <==> n in NavItems && Allowed(user, n.roles)
  {
    Filter((n: NavItem) => Allowed(user, n.roles), NavItems)
  }

  /** A user whose role is the given one. */
  predicate HasRoleName(user: Option<PublicUser>, r: Role) {
    user.Some? && user.value.role == RoleName(r)
  }

  /** The filter of the table for a user of role `r`: entry by entry, kept when `r` is listed. */
  lemma {:induction false} FilterByRole(user: Option<PublicUser>, r: Role, items: seq<NavItem>)
    requires HasRoleName(user, r)
    ensures Filter((n: NavItem) => Allowed(user, n.roles), items) == Filter((n: NavItem) => r in n.roles, items)
  {
    if items != [] {
      FilterByRole(user, r, items[1..]);
      var n := items[0];
      assert Allowed(user, n.roles) <==> r in n.roles by {
        if Allowed(user, n.roles) {
          var q :| q in n.roles && RoleName(q) == user.value.role;
          assert q == r;
        }
      }
    }
  }

  /** An administrator sees all eight entries. */
  lemma AdminSeesAll(user: Option<PublicUser>)
    requires HasRoleName(user, Admin)
    ensures Visible(user) == NavItems && |Visible(user)| == 8
  {
    FilterByRole(user, Admin, NavItems);
    AdminListedEverywhere();
    FilterAll((n: NavItem) => Admin in n.roles, NavItems);
  }

  lemma AdminListedEverywhere()
    ensures forall i :: 0 <= i < |NavItems| ==> Admin in NavItems[i].roles
  {
    forall i | 0 <= i < |NavItems|
      ensures Admin in NavItems[i].roles
    {
      assert NavItems[i].roles[0] == Admin;
    }
  }

  /** Filtering eight entries of which the first, sixth and eighth are kept. */
  lemma KeepFirstSixthEighth(p: NavItem -> bool, xs: seq<NavItem>)
    requires |xs| == 8
    requires p(xs[0]) && !p(xs[1]) && !p(xs[2]) && !p(xs[3]) && !p(xs[4]) && p(xs[5]) && !p(xs[6]) && p(xs[7])
    ensures Filter(p, xs) == [xs[0], xs[5], xs[7]]
  {
    Filter8(p, xs);
  }

  /** Filtering eight entries of which the second and sixth are dropped. */
  lemma DropSecondSixth(p: NavItem -> bool, xs: seq<NavItem>)
    requires |xs| == 8
    requires p(xs[0]) && !p(xs[1]) && p(xs[2]) && p(xs[3]) && p(xs[4]) && !p(xs[5]) && p(xs[6]) && p(xs[7])
    ensures Filter(p, xs) == [xs[0], xs[2], xs[3], xs[4], xs[6], xs[7]]
  {
    Filter8(p, xs);
    JoinSixOfEight(Keep(p, xs[0]), Keep(p, xs[1]), Keep(p, xs[2]), Keep(p, xs[3]), Keep(p, xs[4]),
                   Keep(p, xs[5]), Keep(p, xs[6]), Keep(p, xs[7]), xs);
  }

  /** The nested concatenation `Filter8` gives, when the second and sixth parts are empty. */
  lemma JoinSixOfEight<T>(k0: seq<T>, k1: seq<T>, k2: seq<T>, k3: seq<T>, k4: seq<T>, k5: seq<T>,
                          k6: seq<T>, k7: seq<T>, xs: seq<T>)
    requires |xs| == 8
    requires k0 == [xs[0]] && k1 == [] && k2 == [xs[2]] && k3 == [xs[3]]
    requires k4 == [xs[4]] && k5 == [] && k6 == [xs[6]] && k7 == [xs[7]]
    ensures k0 + (k1 + (k2 + (k3 + (k4 + (k5 + (k6 + k7)))))) == [xs[0], xs[2], xs[3], xs[4], xs[6], xs[7]]
  {
    var t := k5 + (k6 + k7);
    assert t == [xs[6], xs[7]];
    assert k4 + t == [xs[4], xs[6], xs[7]];
    assert k3 + (k4 + t) == [xs[3], xs[4], xs[6], xs[7]];
  }

  lemma InspectorListed()
    ensures var p := (n: NavItem) => QualityInspector in n.roles; var t := NavItems;
      p(t[0]) && !p(t[1]) && !p(t[2]) && !p(t[3]) && !p(t[4]) && p(t[5]) && !p(t[6]) && p(t[7])
  {
  }

  lemma ManagerListed()
    ensures var p := (n: NavItem) => ProductionManager in n.roles; var t := NavItems;
      p(t[0]) && !p(t[1]) && p(t[2]) && p(t[3]) && p(t[4]) && !p(t[5]) && p(t[6]) && p(t[7])
  {
  }

  /** A quality inspector sees the dashboard, quality control and reports, in that order. */
  lemma InspectorSees(user: Option<PublicUser>)
    requires HasRoleName(user, QualityInspector)
    ensures Ids(Visible(user)) == ["dashboard", "quality", "reports"]
  {
    FilterByRole(user, QualityInspector, NavItems);
    InspectorListed();
    KeepFirstSixthEighth((n: NavItem) => QualityInspector in n.roles, NavItems);
    IdsOfThree(NavItems[0], NavItems[5], NavItems[7]);
  }

  /** A production manager sees every entry except user management and quality control. */
  lemma ManagerSees(user: Option<PublicUser>)
    requires HasRoleName(user, ProductionManager)
    ensures Ids(Visible(user)) == ["dashboard", "inventory", "production", "battery", "costs", "reports"]
  {
    FilterByRole(user, ProductionManager, NavItems);
    ManagerListed();
    DropSecondSixth((n: NavItem) => ProductionManager in n.roles, NavItems);
    var t := NavItems;
    IdsOfSix(t[0], t[2], t[3], t[4], t[6], t[7]);
  }

  lemma IdsOfThree(a: NavItem, b: NavItem, c: NavItem)
    ensures Ids([a, b, c]) == [a.id, b.id, c.id]
  {
  }

  lemma IdsOfSix(a: NavItem, b: NavItem, c: NavItem, d: NavItem, e: NavItem, f: NavItem)
    ensures Ids([a, b, c, d, e, f]) == [a.id, b.id, c.id, d.id, e.id, f.id]
  {
  }

  /** The kept entries are listed in table order: the filter is a subsequence of the table. */
  lemma VisibleInTableOrder(user: Option<PublicUser>, i: int, j: int)
    requires 0 <= i < j < |Visible(user)|
    ensures exists a, b :: 0 <= a < b < |NavItems| && NavItems[a] == Visible(user)[i] && NavItems[b] == Visible(user)[j]
  {
    FilterOrder((n: NavItem) => Allowed(user, n.roles), NavItems, i, j);
  }

  // ----- the page -----

  /** What the page shows. */
  datatype Screen =
    | LoginScreen | DashboardScreen | UserManagementScreen | InventoryScreen | ProductionScreen
    | BatteryScreen | QualityScreen | CostScreen | ReportsScreen | AccessDenied

  /** `Home`: the login form until authenticated, then `renderModule` for the active module. */
  function Render(isAuthenticated: bool, user: Option<PublicUser>, active: string): (s: Screen)
    ensures !isAuthenticated ==> s == LoginScreen
    ensures isAuthenticated && active == "dashboard" ==> s == DashboardScreen
    ensures isAuthenticated && active == "reports" ==> s == ReportsScreen
    ensures isAuthenticated && active !in Ids(NavItems) ==> s == DashboardScreen
  {
    assert Ids(NavItems)[1] == "users" && Ids(NavItems)[2] == "inventory" && Ids(NavItems)[3] == "production";
    assert Ids(NavItems)[4] == "battery" && Ids(NavItems)[5] == "quality" && Ids(NavItems)[6] == "costs";
    assert Ids(NavItems)[0] == "dashboard" && Ids(NavItems)[7] == "reports";
    if !isAuthenticated then LoginScreen
    else if active == "dashboard" then DashboardScreen
    else if active == "users" then (if Allowed(user, [Admin]) then UserManagementScreen else AccessDenied)
    else if active == "inventory" then (if Allowed(user, Managers) then InventoryScreen else AccessDenied)
    else if active == "production" then (if Allowed(user, Managers) then ProductionScreen else AccessDenied)
    else if active == "battery" then (if Allowed(user, Managers) then BatteryScreen else AccessDenied)
    else if active == "quality" then (if Allowed(user, Inspectors) then QualityScreen else AccessDenied)
    else if active == "costs" then (if Allowed(user, Managers) then CostScreen else AccessDenied)
    else if active == "reports" then ReportsScreen
    else DashboardScreen
  }

  /**
   * Every gated module is shown exactly to the roles the sidebar offers it to; the dashboard
   * and the reports are shown to every signed-in session, as the sidebar offers them to every role.
   */
  lemma GateMatchesSidebar(user: Option<PublicUser>, i: int)
    requires 0 <= i < |NavItems|
    ensures var n := NavItems[i];
      n.id != "dashboard" && n.id != "reports" ==> (Render(true, user, n.id) != AccessDenied <==> Allowed(user, n.roles))
    ensures NavItems[i].roles == Everyone ==> Render(true, user, NavItems[i].id) != AccessDenied
  {
    var n := NavItems[i];
    if i == 0 {
      assert n.id == "dashboard";
    } else if i == 1 {
      assert n.id == "users" && n.roles == [Admin];
    } else if i == 5 {
      assert n.id == "quality" && n.roles == Inspectors;
    } else if i == 7 {
      assert n.id == "reports";
    } else {
      assert n.roles == Managers;
    }
  }

  /** Signing out brings back the login form whatever module was active. */
  lemma LogoutShowsLogin(a: AuthStore, active: string)
    requires !a.isAuthenticated
    ensures Render(a.isAuthenticated, a.user, active) == LoginScreen
  {
  }
}
