/** components/layout/DashboardNav.tsx: the navigation entries a profile's role may see. */
module DashboardNav {
  import opened Wrappers
  import opened Seqs

  /** An entry; `roles` is the array `includes` searches, kept as the set of its elements. */
  datatype NavItem = NavItem(name: string, href: string, roles: set<string>)

  const Everyone: set<string> := {"ADMIN", "COORDINATOR", "TENANT"}
  const Staff: set<string> := {"ADMIN", "COORDINATOR"}

  const DashboardItem: NavItem := NavItem("Dashboard", "/dashboard", Everyone)
  const HousesItem: NavItem := NavItem("Houses", "/dashboard/houses", Staff)
  const RoomsItem: NavItem := NavItem("Rooms", "/dashboard/rooms", Staff)
  const TenanciesItem: NavItem := NavItem("Tenancies", "/dashboard/tenancies", Everyone)
  const MoveOutsItem: NavItem := NavItem("Move-Outs", "/dashboard/move-outs", Everyone)
  const InspectionsItem: NavItem := NavItem("Inspections", "/dashboard/inspections", Everyone)

  /** `navigation`, in its order. */
  const Navigation: seq<NavItem> := [DashboardItem, HousesItem, RoomsItem, TenanciesItem, MoveOutsItem, InspectionsItem]

  /** `profile?.role && item.roles.includes(profile.role)`; `role` is `None` without a profile or a role. */
  predicate Shows(role: Option<string>, item: NavItem) {
    role.Some? && role.value != "" && role.value in item.roles
  }

  /** `filteredNavigation`: the entries whose roles include the profile's role, in their order. */
  function FilteredNavigation(role: Option<string>): (r: seq<NavItem>)
    ensures |r| <= |Navigation|
    ensures forall item :: item in r <==> item in Navigation && Shows(role, item)
  {
    Filter(Navigation, ShowsTo(role))
  }

  /** `Shows` as the filter's callback. */
  function ShowsTo(role: Option<string>): NavItem -> bool {
    (item: NavItem) => Shows(role, item)
  }

  /** Without a profile or a role nothing is shown; the same holds for a role no entry lists. */
  lemma NoRoleNoItems(role: Option<string>)
    requires role.None? || role.value !in Everyone
    ensures FilteredNavigation(role) == []
  {
    FilterKeepsNone(Navigation, ShowsTo(role));
  }

  /** ADMIN and COORDINATOR see every entry. */
  lemma StaffSeeAll(role: string)
    requires role in Staff
    ensures FilteredNavigation(Some(role)) == Navigation
  {
    FilterKeepsAll(Navigation, ShowsTo(Some(role)));
  }

  /** TENANT sees Dashboard, Tenancies, Move-Outs and Inspections. */
  lemma TenantSeesFour()
    ensures FilteredNavigation(Some("TENANT")) == [DashboardItem, TenanciesItem, MoveOutsItem, InspectionsItem]
  {
    var keep := ShowsTo(Some("TENANT"));
    var front, staffOnly, back := [DashboardItem], [HousesItem, RoomsItem], [TenanciesItem, MoveOutsItem, InspectionsItem];
    assert Filter(front + staffOnly, keep) == front by {
      TenantKeepsShared(front);
      TenantDropsStaff();
      FilterConcat(front, staffOnly, keep);
    }
    assert Filter(Navigation, keep) == front + back by {
      assert Navigation == (front + staffOnly) + back;
      TenantKeepsShared(back);
      FilterConcat(front + staffOnly, back, keep);
    }
  }

  /** TENANT keeps the entries open to everyone. */
  lemma TenantKeepsShared(items: seq<NavItem>)
    requires forall i :: 0 <= i < |items| ==> items[i].roles == Everyone
    ensures Filter(items, ShowsTo(Some("TENANT"))) == items
  {
    FilterKeepsAll(items, ShowsTo(Some("TENANT")));
  }

  /** TENANT drops Houses and Rooms. */
  lemma TenantDropsStaff()
    ensures Filter([HousesItem, RoomsItem], ShowsTo(Some("TENANT"))) == []
  {
    assert "TENANT"[0] != "ADMIN"[0] && "TENANT"[0] != "COORDINATOR"[0];
    assert "TENANT" !in Staff;
    FilterKeepsNone([HousesItem, RoomsItem], ShowsTo(Some("TENANT")));
  }

  /** An entry is highlighted when the pathname is its href. */
  predicate IsActive(pathname: string, item: NavItem) {
    pathname == item.href
  }

  /** The hrefs differ, so at most one entry is highlighted. */
  lemma AtMostOneActive(pathname: string, i: nat, j: nat)
    requires i < j < |Navigation|
    ensures !(IsActive(pathname, Navigation[i]) && IsActive(pathname, Navigation[j]))
  {
    assert Navigation[i].href != Navigation[j].href by {
      assert |Navigation[0].href| == 10;
      assert Navigation[1].href[11] == 'h' && Navigation[2].href[11] == 'r' && Navigation[3].href[11] == 't';
      assert Navigation[4].href[11] == 'm' && Navigation[5].href[11] == 'i';
    }
  }
}
