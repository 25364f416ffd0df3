/** The team switcher in the side menu: it finds the team of the current
    route, keeps the select's value in step with it, and renders three
    sections (the user's teams, the profile, "new team") as a flat list of
    divider / subheader / item elements numbered by a running counter. */
module SelectContent {
  import opened Strings
  import opened Effects

  datatype Team = Team(id: string, name: string, slug: string)

  datatype User = User(id: string, name: string, email: string)

  datatype Item = Item(name: string, href: string, subtitle: string)

  datatype Section = Section(name: string, items: seq<Item>, topDivider: bool)

  /** What one rendered element shows, without its key. */
  datatype Slot = DividerSlot(shown: bool) | SubheaderSlot(title: string) | ItemSlot(item: Item)

  /** A rendered element: its slot and the React key the counter gave it. */
  datatype Element = Element(key: nat, slot: Slot)

  function TeamsOrEmpty(teams: Option<seq<Team>>): seq<Team> {
    if teams.Some? then teams.value else []
  }

  predicate SlugMatches(team: Team, routeSlug: Option<string>) {
    routeSlug == Some(team.slug)
  }

  /** `(teams || []).find(team => team.slug === router.query.slug)` */
  function Find(teams: seq<Team>, routeSlug: Option<string>): (r: Option<Team>)
    ensures r.None? <==> forall i :: 0 <= i < |teams| ==> !SlugMatches(teams[i], routeSlug)
    ensures r.Some? ==> exists i :: 0 <= i < |teams| && teams[i] == r.value && SlugMatches(r.value, routeSlug)
                          && forall j :: 0 <= j < i ==> !SlugMatches(teams[j], routeSlug)
  {
    if |teams| == 0 then None
    else if SlugMatches(teams[0], routeSlug) then Some(teams[0])
    else
      var r := Find(teams[1..], routeSlug);
      if r.Some? then
        ghost var i :| 0 <= i < |teams[1..]| && teams[1..][i] == r.value && SlugMatches(r.value, routeSlug)
                       && forall j :: 0 <= j < i ==> !SlugMatches(teams[1..][j], routeSlug);
        assert teams[i + 1] == r.value;
        r
      else r
  }

  /** The current team: a listed team with the route's slug, the first such,
      and none exactly when no listed team has it. */
  function CurrentTeam(teams: Option<seq<Team>>, routeSlug: Option<string>): (r: Option<Team>)
    ensures r.None? <==> forall i :: 0 <= i < |TeamsOrEmpty(teams)| ==> routeSlug != Some(TeamsOrEmpty(teams)[i].slug)
    ensures r.Some? ==> r.value in TeamsOrEmpty(teams) && routeSlug == Some(r.value.slug)
  {
    Find(TeamsOrEmpty(teams), routeSlug)
  }

  function TeamHref(team: Team): string {
    "/teams/" + team.slug + "/settings"
  }

  const AccountHref: string := "/settings/account"
  const NewTeamHref: string := "/teams?newTeam=true"

  /** The effect on the select's value (`company`, initially ''): once the
      pathname is known it points at the current team's settings, or at the
      account page when the route has no known team. */
  function SyncCompany(pathname: Option<string>, current: Option<Team>, company: string): (v: string)
    ensures pathname.None? ==> v == company
    ensures pathname.Some? ==> (v == AccountHref <==> current.None?)
    ensures pathname.Some? && current.Some? ==> StartsWith(v, "/teams/" + current.value.slug)
  {
    if pathname.Some? then
      if current.Some? then
        assert TeamHref(current.value)[1] == 't' != AccountHref[1];
        assert TeamHref(current.value) == ("/teams/" + current.value.slug) + "/settings";
        StartsWithAppend("/teams/" + current.value.slug, "/settings");
        TeamHref(current.value)
      else AccountHref
    else company
  }

  /** The `menus` array: teams, profile, new team. `t` is the translation lookup. */
  function Menus(teams: Option<seq<Team>>, user: User, t: string -> string): (m: seq<Section>)
    ensures |m| == 3
    ensures |m[0].items| == |TeamsOrEmpty(teams)|
  {
    var ts := TeamsOrEmpty(teams);
    [ Section(t("teams"), seq(|ts|, i requires 0 <= i < |ts| => Item(ts[i].name, TeamHref(ts[i]), "")), false),
      Section(t("profile"), [Item(user.name, AccountHref, user.email)], false),
      Section("", [Item(t("new-team"), NewTeamHref, "")], true) ]
  }

  /** Section order and contents: the team items follow the team list, the
      profile holds the account page, the last section holds "new team", only
      the last shows its divider, and clicking an item navigates to its href. */
  lemma MenusLayout(teams: Option<seq<Team>>, user: User, t: string -> string)
    ensures var m := Menus(teams, user, t);
      && (forall i :: 0 <= i < |TeamsOrEmpty(teams)| ==>
            m[0].items[i].href == "/teams/" + TeamsOrEmpty(teams)[i].slug + "/settings")
      && m[1].items == [Item(user.name, "/settings/account", user.email)]
      && |m[2].items| == 1 && m[2].items[0].href == "/teams?newTeam=true"
      && !m[0].topDivider && !m[1].topDivider && m[2].topDivider
      && (forall i :: 0 <= i < |TeamsOrEmpty(teams)| ==>
            Click(m[0].items[i]) == Push("/teams/" + TeamsOrEmpty(teams)[i].slug + "/settings"))
      && Click(m[1].items[0]) == Push("/settings/account")
      && Click(m[2].items[0]) == Push("/teams?newTeam=true")
  {
  }

  /** The slots one section contributes: divider, subheader, then its items. */
  function SectionSlots(s: Section): (r: seq<Slot>)
    ensures |r| == 2 + |s.items|
  {
    [DividerSlot(s.topDivider), SubheaderSlot(s.name)]
      + seq(|s.items|, j requires 0 <= j < |s.items| => ItemSlot(s.items[j]))
  }

  /** `menus.flatMap(...)` without keys. */
  function Layout(sections: seq<Section>): seq<Slot>
  {
    if |sections| == 0 then []
    else Layout(sections[..|sections| - 1]) + SectionSlots(sections[|sections| - 1])
  }

  /** Σ (2 + |items|) over the sections. */
  function ElementCount(sections: seq<Section>): nat
  {
    if |sections| == 0 then 0
    else ElementCount(sections[..|sections| - 1]) + 2 + |sections[|sections| - 1].items|
  }

  lemma {:induction false} LayoutLength(sections: seq<Section>)
    ensures |Layout(sections)| == ElementCount(sections)
    decreases |sections|
  {
    if |sections| > 0 {
      LayoutLength(sections[..|sections| - 1]);
    }
  }

  /** `renderMenuItems`: every element gets key `++counter`, so keys run
      1..N in order, and the elements are the flattened sections. */
  method RenderMenuItems(sections: seq<Section>) returns (els: seq<Element>)
    ensures |els| == |Layout(sections)| == ElementCount(sections)
    ensures forall i :: 0 <= i < |els| ==> els[i].key == i + 1 && els[i].slot == Layout(sections)[i]
  {
    var counter: nat := 0;
    els := [];
    for s := 0 to |sections|
      invariant counter == |els| == |Layout(sections[..s])|
      invariant forall i :: 0 <= i < |els| ==> els[i].key == i + 1 && els[i].slot == Layout(sections[..s])[i]
    {
      var sec := sections[s];
      ghost var before := Layout(sections[..s]);
      assert sections[..s + 1][..s] == sections[..s];
      assert Layout(sections[..s + 1]) == before + SectionSlots(sec);
      counter := counter + 1;
      els := els + [Element(counter, DividerSlot(sec.topDivider))];
      counter := counter + 1;
      els := els + [Element(counter, SubheaderSlot(sec.name))];
      for j := 0 to |sec.items|
        invariant counter == |els| == |before| + 2 + j
        invariant forall i :: 0 <= i < |els| ==> els[i].key == i + 1 && els[i].slot == (before + SectionSlots(sec))[i]
      {
        counter := counter + 1;
        els := els + [Element(counter, ItemSlot(sec.items[j]))];
      }
    }
    assert sections[..|sections|] == sections;
    LayoutLength(sections);
  }

  /** `handleMenuItemClick(item.href)`: a client-side navigation to the
      item's page that sends no request. */
  function Click(item: Item): (e: Effect)
    ensures IsNavigation(e) && !e.Send? && !e.Replace?
    ensures e.path == item.href
  {
    Push(item.href)
  }

  /** While the pathname is unknown the select's value is untouched; once it
      is known the value is the href of one of the select's own items: the
      current team's entry when the route names a listed team, otherwise the
      profile entry. */
  lemma SelectedValueIsAnItem(teams: Option<seq<Team>>, routeSlug: Option<string>, pathname: Option<string>,
                               company: string, user: User, t: string -> string)
    ensures pathname.None? ==> SyncCompany(pathname, CurrentTeam(teams, routeSlug), company) == company
    ensures var m := Menus(teams, user, t);
      var v := SyncCompany(pathname, CurrentTeam(teams, routeSlug), company);
      var ts := TeamsOrEmpty(teams);
      pathname.Some? ==>
        && (exists s, k :: 0 <= s < |m| && 0 <= k < |m[s].items| && m[s].items[k].href == v)
        && ((exists i :: 0 <= i < |ts| && routeSlug == Some(ts[i].slug)) ==>
              exists i :: 0 <= i < |ts| && routeSlug == Some(ts[i].slug) && v == m[0].items[i].href)
        && ((forall i :: 0 <= i < |ts| ==> routeSlug != Some(ts[i].slug)) ==> v == "/settings/account")
  {
    var m := Menus(teams, user, t);
    var cur := CurrentTeam(teams, routeSlug);
    var ts := TeamsOrEmpty(teams);
    if cur.Some? {
      var i :| 0 <= i < |ts| && ts[i] == cur.value && SlugMatches(cur.value, routeSlug);
      assert m[0].items[i].href == TeamHref(cur.value);
    } else {
      assert m[1].items[0].href == AccountHref;
    }
  }
}
