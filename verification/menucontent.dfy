/** The side menu. With a team slug in the route it shows the team's
    products and settings pages; without one it shows the user's pages. An
    item is highlighted according to the active pathname, which is null until
    the router is ready. */
module MenuContent {
  import opened Strings
  import opened Effects

  datatype MenuItem = MenuItem(name: string, href: string, active: bool)

  datatype Menus = Menus(main: seq<MenuItem>, secondary: seq<MenuItem>)

  /** JavaScript truthiness of the optional route slug. */
  predicate SlugGiven(slug: Option<string>) {
    slug.Some? && slug.value != ""
  }

  function ProductsHref(slug: string): string {
    "/teams/" + slug + "/products"
  }

  function SettingsHref(slug: string): string {
    "/teams/" + slug + "/settings"
  }

  /** `activePathname === href` */
  predicate IsPath(pathname: Option<string>, href: string) {
    pathname == Some(href)
  }

  /** `activePathname?.startsWith('/teams/' + slug) && !activePathname.includes('products')` */
  predicate InTeamOutsideProducts(pathname: Option<string>, slug: string) {
    pathname.Some? && StartsWith(pathname.value, "/teams/" + slug) && !Contains(pathname.value, "products")
  }

  /** The `Navigation` component's menu lists. `t` is the translation lookup. */
  function Navigation(slug: Option<string>, pathname: Option<string>, t: string -> string): (m: Menus)
    ensures SlugGiven(slug) ==> |m.main| == 2 && m.secondary == []
    ensures !SlugGiven(slug) ==> |m.main| == 2 && |m.secondary| == 2
  {
    if SlugGiven(slug) then
      var s := slug.value;
      Menus([ MenuItem(t("all-products"), ProductsHref(s), IsPath(pathname, ProductsHref(s))),
              MenuItem(t("settings"), SettingsHref(s), InTeamOutsideProducts(pathname, s)) ],
            [])
    else
      Menus([ MenuItem(t("all-teams"), "/teams", IsPath(pathname, "/teams")),
              MenuItem(t("mui"), "/settings/mui", IsPath(pathname, "/settings/mui")) ],
            [ MenuItem(t("account"), "/settings/account", IsPath(pathname, "/settings/account")),
              MenuItem(t("security"), "/settings/security", IsPath(pathname, "/settings/security")) ])
  }

  /** All items of both lists, main first. */
  function Items(m: Menus): seq<MenuItem> {
    m.main + m.secondary
  }

  /** The team menu: both items lead into the team's own pages. On the
      products page only products is highlighted; a pathname outside
      /teams/{slug} highlights neither; and a team whose slug itself contains
      "products" never gets settings highlighted, not even on its own
      settings page. */
  lemma TeamMenu(slug: string, pathname: Option<string>, t: string -> string)
    requires slug != ""
    ensures var m := Navigation(Some(slug), pathname, t);
      && StartsWith(m.main[0].href, "/teams/" + slug) && StartsWith(m.main[1].href, "/teams/" + slug)
      && (pathname == Some(m.main[0].href) ==> m.main[0].active && !m.main[1].active)
      && (pathname.Some? && !StartsWith(pathname.value, "/teams/" + slug) ==> !m.main[0].active && !m.main[1].active)
      && (Contains(slug, "products") ==> !m.main[1].active)
  {
    StartsWithAppend("/teams/" + slug, "/products");
    StartsWithAppend("/teams/" + slug, "/settings");
    assert ProductsHref(slug) == ("/teams/" + slug) + "/products";
    assert SettingsHref(slug) == ("/teams/" + slug) + "/settings";
    TeamItemsExclusive(slug, pathname, t);
    if Contains(slug, "products") && pathname.Some? && StartsWith(pathname.value, "/teams/" + slug) {
      PrefixContains(pathname.value, "/teams/" + slug, slug, "products");
    }
  }

  /** Whatever a prefix of `s` contains, `s` contains; `"/teams/" + slug`
      contains whatever `slug` does. */
  lemma PrefixContains(s: string, prefix: string, slug: string, sub: string)
    requires StartsWith(s, prefix) && prefix == "/teams/" + slug && Contains(slug, sub)
    ensures Contains(s, sub)
  {
    var i: nat :| i <= |slug| && OccursAt(slug, sub, i);
    assert |prefix| == 7 + |slug|;
    forall k | 0 <= k < |sub|
      ensures s[7 + i + k] == sub[k]
    {
      assert s[7 + i + k] == prefix[7 + i + k];
      assert prefix[7 + i + k] == slug[i + k];
      assert slug[i + k] == slug[i..i + |sub|][k];
    }
    assert s[7 + i..7 + i + |sub|] == sub;
    assert OccursAt(s, sub, 7 + i);
  }

  /** Products and settings are never highlighted together: the products page
      itself contains "products". */
  lemma TeamItemsExclusive(slug: string, pathname: Option<string>, t: string -> string)
    requires slug != ""
    ensures var m := Navigation(Some(slug), pathname, t);
      !(m.main[0].active && m.main[1].active)
  {
    assert ProductsHref(slug) == ("/teams/" + slug + "/") + "products";
    ContainsSuffix("/teams/" + slug + "/", "products");
  }

  /** Before the router is ready nothing is highlighted, in either branch. */
  lemma NullPathnameNothingActive(slug: Option<string>, t: string -> string)
    ensures var items := Items(Navigation(slug, None, t));
      forall i :: 0 <= i < |items| ==> !items[i].active
  {
  }

  /** The user menu: main = [/teams, /settings/mui], secondary =
      [/settings/account, /settings/security]; an item is active exactly on its
      own href, so at most one is active. */
  lemma UserMenu(slug: Option<string>, pathname: Option<string>, t: string -> string)
    requires !SlugGiven(slug)
    ensures var m := Navigation(slug, pathname, t);
      && m.main[0].href == "/teams" && m.main[1].href == "/settings/mui"
      && m.secondary[0].href == "/settings/account" && m.secondary[1].href == "/settings/security"
      && (forall i :: 0 <= i < |Items(m)| ==> (Items(m)[i].active <==> pathname == Some(Items(m)[i].href)))
      && (forall i, j :: 0 <= i < j < |Items(m)| ==> !(Items(m)[i].active && Items(m)[j].active))
  {
    var items := Items(Navigation(slug, pathname, t));
    assert items[0].href == "/teams" && items[1].href == "/settings/mui";
    assert items[2].href == "/settings/account" && items[3].href == "/settings/security";
    assert |items| == 4;
    assert "/teams" != "/settings/mui" && "/settings/account" != "/settings/security";
    assert forall i, j :: 0 <= i < j < 4 ==> items[i].href != items[j].href;
  }
}
