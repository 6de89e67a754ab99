/** The admin navigation (app/admin/_components/admin-sidebar.tsx): its items and which are highlighted. */
module AdminSidebar {
  import opened Text

  /** An entry of `items`; the icon is presentation only. */
  datatype NavItem = NavItem(title: string, url: string)

  const Items: seq<NavItem> := [
    NavItem("Dashboard", "/admin"),
    NavItem("Events", "/admin/events"),
    NavItem("Programs", "/admin/programs"),
    NavItem("Blog", "/admin/blog"),
    NavItem("Users", "/admin/users"),
    NavItem("Notifications", "/admin/notifications"),
    NavItem("Logs", "/admin/logs"),
    NavItem("Settings", "/admin/settings")
  ]

  /** `pathname === item.url || pathname.startsWith(item.url + "/")`. */
  predicate IsActive(pathname: string, item: NavItem) {
    pathname == item.url || StartsWith(pathname, item.url + "/")
  }

  /** The positions of the highlighted items. */
  function ActiveItems(pathname: string): (r: set<nat>)
    ensures forall i: nat :: i in r <==> i < |Items| && IsActive(pathname, Items[i])
  {
    set i: nat | i < |Items| && IsActive(pathname, Items[i])
  }

  /** Eight items; every section lives one "/" below the dashboard's "/admin"; no URL repeats. */
  lemma ItemsShape()
    ensures |Items| == 8
    ensures Items[0] == NavItem("Dashboard", "/admin")
    ensures forall i :: 1 <= i < |Items| ==> StartsWith(Items[i].url, "/admin/") && |Items[i].url| > 7
    ensures forall i, j :: 0 <= i < j < |Items| ==> Items[i].url != Items[j].url
  {
    forall i, j | 0 <= i < j < |Items| ensures Items[i].url != Items[j].url {
      if i == 0 {
        assert |Items[i].url| != |Items[j].url|;
      } else {
        assert Items[i].url[7] != Items[j].url[7] || Items[i].url[8] != Items[j].url[8];
      }
    }
  }

  /** On the dashboard itself only the dashboard is highlighted. */
  lemma OnlyDashboardOnAdmin()
    ensures ActiveItems("/admin") == {0}
  {
    forall i | 1 <= i < |Items| ensures !IsActive("/admin", Items[i]) {
      ItemsShape();
    }
    assert IsActive("/admin", Items[0]);
  }

  /**
   * Any page below "/admin/" highlights the dashboard as well, so two items can
   * be highlighted at once: on "/admin/events/new" both Dashboard and Events are.
   */
  lemma DashboardActiveBelowAdmin(pathname: string)
    requires StartsWith(pathname, "/admin/")
    ensures 0 in ActiveItems(pathname)
  {
    assert Items[0].url + "/" == "/admin/";
  }

  lemma EventsPageHighlightsTwo()
    ensures {0, 1} <= ActiveItems("/admin/events/new")
  {
    DashboardActiveBelowAdmin("/admin/events/new");
    assert "/admin/events/new"[..|"/admin/events/"|] == "/admin/events/";
  }

  /** A highlighted section fixes the path's character after "/admin/". */
  lemma SectionActive(pathname: string, i: nat)
    requires 1 <= i < |Items| && IsActive(pathname, Items[i])
    ensures StartsWith(pathname, "/admin/") && |pathname| > 7 && pathname[7] == Items[i].url[7]
  {
    ItemsShape();
    assert Items[i].url[..7] == "/admin/";
    if pathname != Items[i].url {
      assert pathname[..|Items[i].url + "/"|] == Items[i].url + "/";
      assert pathname[..7] == (Items[i].url + "/")[..7];
      assert pathname[7] == (Items[i].url + "/")[7];
    }
  }

  /**
   * Besides the dashboard at most one section is highlighted, and whenever
   * anything is highlighted the dashboard is too.
   */
  lemma AtMostOneSection(pathname: string)
    ensures forall i, j :: i in ActiveItems(pathname) && j in ActiveItems(pathname) && i != 0 && j != 0 ==> i == j
    ensures ActiveItems(pathname) != {} ==> 0 in ActiveItems(pathname)
  {
    forall i | i in ActiveItems(pathname) && i != 0
      ensures 0 in ActiveItems(pathname) && pathname[7] == Items[i].url[7]
    {
      SectionActive(pathname, i);
      DashboardActiveBelowAdmin(pathname);
    }
    assert forall i, j :: 1 <= i < j < |Items| ==> Items[i].url[7] != Items[j].url[7];
  }

  /** A path that merely extends the URL's text, without "/", does not highlight it. */
  lemma PrefixWithoutSlashInactive()
    ensures !IsActive("/admin/eventsx", Items[1])
    ensures 1 !in ActiveItems("/admin/eventsx")
  {
    assert "/admin/eventsx"[13] != "/admin/events/"[13];
  }
}
