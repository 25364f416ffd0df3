/** The team page's tab bar: "Settings" always, then each further tab when
    its feature flag is on and the user holds every CRUD permission on its
    resource, in a fixed order; the selected index follows the first active
    tab, and choosing a tab navigates to its href. */
module TeamTab {
  import opened Strings
  import opened Effects

  datatype Tab = Settings | Members | Sso | DirectorySync | AuditLogs | Billing | Webhooks | ApiKeys

  /** The flags of the `TeamFeature` record that gate tabs. */
  datatype Features = Features(sso: bool, dsync: bool, auditLog: bool, payments: bool, webhook: bool, apiKey: bool)

  /** `canAccess(resource, actions)` of the permission hook. */
  type Access = (string, seq<string>) -> bool

  datatype Navigation = Navigation(tab: Tab, name: string, href: string, active: bool)

  const AllActions: seq<string> := ["create", "update", "read", "delete"]

  function Rank(t: Tab): nat {
    match t
    case Settings => 0
    case Members => 1
    case Sso => 2
    case DirectorySync => 3
    case AuditLogs => 4
    case Billing => 5
    case Webhooks => 6
    case ApiKeys => 7
  }

  function Label(t: Tab): string {
    match t
    case Settings => "Settings"
    case Members => "Members"
    case Sso => "Single Sign-On"
    case DirectorySync => "Directory Sync"
    case AuditLogs => "Audit Logs"
    case Billing => "Billing"
    case Webhooks => "Webhooks"
    case ApiKeys => "API Keys"
  }

  /** The last segment of the tab's href. */
  function PathSegment(t: Tab): string {
    match t
    case Settings => "settings"
    case Members => "members"
    case Sso => "sso"
    case DirectorySync => "directory-sync"
    case AuditLogs => "audit-logs"
    case Billing => "billing"
    case Webhooks => "webhooks"
    case ApiKeys => "api-keys"
  }

  /** The `activeTab` value that marks the tab active; Billing answers to
      'payments' although its href ends in /billing. */
  function ActiveKey(t: Tab): string {
    match t
    case Settings => "settings"
    case Members => "members"
    case Sso => "sso"
    case DirectorySync => "directory-sync"
    case AuditLogs => "audit-logs"
    case Billing => "payments"
    case Webhooks => "webhooks"
    case ApiKeys => "api-keys"
  }

  function Resource(t: Tab): string {
    match t
    case Settings => "team"
    case Members => "team_member"
    case Sso => "team_sso"
    case DirectorySync => "team_dsync"
    case AuditLogs => "team_audit_log"
    case Billing => "team_payments"
    case Webhooks => "team_webhook"
    case ApiKeys => "team_api_key"
  }

  function FeatureOn(t: Tab, f: Features): bool {
    match t
    case Settings => true
    case Members => true
    case Sso => f.sso
    case DirectorySync => f.dsync
    case AuditLogs => f.auditLog
    case Billing => f.payments
    case Webhooks => f.webhook
    case ApiKeys => f.apiKey
  }

  /** When a tab belongs in the bar, stated independently of the builder. */
  predicate Shown(t: Tab, f: Features, canAccess: Access) {
    t == Settings || (FeatureOn(t, f) && canAccess(Resource(t), AllActions))
  }

  function TeamPrefix(slug: string): string {
    "/teams/" + slug + "/"
  }

  function Entry(t: Tab, slug: string, activeTab: string): Navigation {
    Navigation(t, Label(t), TeamPrefix(slug) + PathSegment(t), activeTab == ActiveKey(t))
  }

  function PushIf(navs: seq<Navigation>, cond: bool, t: Tab, slug: string, activeTab: string): seq<Navigation> {
    if cond then navs + [Entry(t, slug, activeTab)] else navs
  }

  /** One `if (...) navigations.push(...)` of the component. */
  datatype Guard = Guard(cond: bool, tab: Tab)

  /** The guarded pushes after the initial Settings entry, in source order. */
  function Guards(f: Features, canAccess: Access): seq<Guard> {
    [ Guard(canAccess("team_member", AllActions), Members),
      Guard(f.sso && canAccess("team_sso", AllActions), Sso),
      Guard(f.dsync && canAccess("team_dsync", AllActions), DirectorySync),
      Guard(f.auditLog && canAccess("team_audit_log", AllActions), AuditLogs),
      Guard(f.payments && canAccess("team_payments", AllActions), Billing),
      Guard(f.webhook && canAccess("team_webhook", AllActions), Webhooks),
      Guard(f.apiKey && canAccess("team_api_key", AllActions), ApiKeys) ]
  }

  /** The guarded pushes only append: the entries already there stay first,
      and each guard adds at most one entry. */
  function PushAll(navs: seq<Navigation>, guards: seq<Guard>, slug: string, activeTab: string): (r: seq<Navigation>)
    ensures |navs| <= |r| <= |navs| + |guards|
    ensures r[..|navs|] == navs
    decreases |guards|
  {
    if |guards| == 0 then navs
    else PushAll(PushIf(navs, guards[0].cond, guards[0].tab, slug, activeTab), guards[1..], slug, activeTab)
  }

  /** The `navigations` array: Settings, then the guarded pushes in order;
      Settings always comes first and there are at most eight entries. */
  function Navigations(activeTab: string, slug: string, f: Features, canAccess: Access): (navs: seq<Navigation>)
    ensures 1 <= |navs| <= 8
    ensures navs[0] == Entry(Settings, slug, activeTab)
  {
    PushAll([Entry(Settings, slug, activeTab)], Guards(f, canAccess), slug, activeTab)
  }

  /** What the builder has established after considering every tab of rank
      below `k`: entries are well formed, in strictly increasing rank, and a
      tab of rank below `k` is present exactly when `Shown` says so. */
  predicate Built(n: seq<Navigation>, k: nat, slug: string, activeTab: string, f: Features, canAccess: Access) {
    && (forall i :: 0 <= i < |n| ==> n[i] == Entry(n[i].tab, slug, activeTab) && Rank(n[i].tab) < k)
    && (forall i, j :: 0 <= i < j < |n| ==> Rank(n[i].tab) < Rank(n[j].tab))
    && (forall t :: Rank(t) < k ==> (Present(n, t) <==> Shown(t, f, canAccess)))
  }

  predicate Present(n: seq<Navigation>, t: Tab) {
    exists i :: 0 <= i < |n| && n[i].tab == t
  }

  /** Appending an entry adds exactly its tab to those present. */
  lemma PresentPush(n: seq<Navigation>, e: Navigation, u: Tab)
    ensures Present(n + [e], u) <==> Present(n, u) || e.tab == u
  {
    var r := n + [e];
    if Present(r, u) && e.tab != u {
      var i :| 0 <= i < |r| && r[i].tab == u;
      assert i < |n| && n[i].tab == u;
    }
    if Present(n, u) {
      var i :| 0 <= i < |n| && n[i].tab == u;
      assert r[i].tab == u;
    }
    if e.tab == u {
      assert r[|n|].tab == u;
    }
  }

  /** A push keeps every entry well formed and below the next rank. */
  lemma PushWellFormed(n: seq<Navigation>, cond: bool, t: Tab, slug: string, activeTab: string)
    requires forall i :: 0 <= i < |n| ==> n[i] == Entry(n[i].tab, slug, activeTab) && Rank(n[i].tab) < Rank(t)
    ensures var r := PushIf(n, cond, t, slug, activeTab);
      forall i :: 0 <= i < |r| ==> r[i] == Entry(r[i].tab, slug, activeTab) && Rank(r[i].tab) < Rank(t) + 1
  {
    if cond {
      var r := n + [Entry(t, slug, activeTab)];
      assert forall i :: 0 <= i < |n| ==> r[i] == n[i];
      assert r[|n|].tab == t;
    }
  }

  /** A push of a tab ranked above every entry keeps ranks increasing. */
  lemma PushIncreasing(n: seq<Navigation>, cond: bool, t: Tab, slug: string, activeTab: string)
    requires forall i :: 0 <= i < |n| ==> Rank(n[i].tab) < Rank(t)
    requires forall i, j :: 0 <= i < j < |n| ==> Rank(n[i].tab) < Rank(n[j].tab)
    ensures var r := PushIf(n, cond, t, slug, activeTab);
      forall i, j :: 0 <= i < j < |r| ==> Rank(r[i].tab) < Rank(r[j].tab)
  {
    if cond {
      var r := n + [Entry(t, slug, activeTab)];
      assert forall i :: 0 <= i < |n| ==> r[i] == n[i];
      assert r[|n|].tab == t;
    }
  }

  /** A push under `t`'s own `Shown` condition extends the coverage to `t`. */
  lemma PushCovers(n: seq<Navigation>, cond: bool, t: Tab, slug: string, activeTab: string, f: Features, canAccess: Access)
    requires forall i :: 0 <= i < |n| ==> Rank(n[i].tab) < Rank(t)
    requires forall u :: Rank(u) < Rank(t) ==> (Present(n, u) <==> Shown(u, f, canAccess))
    requires cond == Shown(t, f, canAccess)
    ensures forall u :: Rank(u) < Rank(t) + 1 ==> (Present(PushIf(n, cond, t, slug, activeTab), u) <==> Shown(u, f, canAccess))
  {
    var e := Entry(t, slug, activeTab);
    forall u | Rank(u) < Rank(t) + 1
      ensures Present(PushIf(n, cond, t, slug, activeTab), u) <==> Shown(u, f, canAccess)
    {
      PresentPush(n, e, u);
      if u == t {
        assert !Present(n, u);
      } else {
        assert e.tab != u;
      }
    }
  }

  /** One guarded push extends what has been established by one more tab. */
  lemma PushStep(n: seq<Navigation>, cond: bool, t: Tab, slug: string, activeTab: string, f: Features, canAccess: Access)
    requires Built(n, Rank(t), slug, activeTab, f, canAccess)
    requires cond == Shown(t, f, canAccess)
    ensures Built(PushIf(n, cond, t, slug, activeTab), Rank(t) + 1, slug, activeTab, f, canAccess)
  {
    PushWellFormed(n, cond, t, slug, activeTab);
    PushIncreasing(n, cond, t, slug, activeTab);
    PushCovers(n, cond, t, slug, activeTab, f, canAccess);
  }

  /** Pushing guards whose tabs have consecutive ranks, each guarded by its
      `Shown` condition, extends `Built` over all of them. */
  lemma {:induction false} PushAllBuilt(n: seq<Navigation>, guards: seq<Guard>, k: nat, slug: string, activeTab: string, f: Features, canAccess: Access)
    requires Built(n, k, slug, activeTab, f, canAccess)
    requires forall i :: 0 <= i < |guards| ==> Rank(guards[i].tab) == k + i && guards[i].cond == Shown(guards[i].tab, f, canAccess)
    ensures Built(PushAll(n, guards, slug, activeTab), k + |guards|, slug, activeTab, f, canAccess)
    decreases |guards|
  {
    if |guards| > 0 {
      PushStep(n, guards[0].cond, guards[0].tab, slug, activeTab, f, canAccess);
      PushAllBuilt(PushIf(n, guards[0].cond, guards[0].tab, slug, activeTab), guards[1..], k + 1, slug, activeTab, f, canAccess);
    }
  }

  /** The Settings entry alone establishes `Built` for the first tab. */
  lemma SettingsBuilt(slug: string, activeTab: string, f: Features, canAccess: Access)
    ensures Built([Entry(Settings, slug, activeTab)], 1, slug, activeTab, f, canAccess)
  {
    var n0 := [Entry(Settings, slug, activeTab)];
    assert n0[0].tab == Settings;
    forall t | Rank(t) < 1 ensures Present(n0, t) <==> Shown(t, f, canAccess) {
      assert t == Settings && n0[0].tab == t;
    }
  }

  /** The guards list the other seven tabs in rank order, each under its
      `Shown` condition. */
  lemma GuardsRanked(f: Features, canAccess: Access)
    ensures var guards := Guards(f, canAccess);
      forall i :: 0 <= i < |guards| ==> Rank(guards[i].tab) == 1 + i && guards[i].cond == Shown(guards[i].tab, f, canAccess)
  {
  }

  /** The builder establishes `Built` for all eight tabs. */
  lemma NavigationsBuilt(activeTab: string, slug: string, f: Features, canAccess: Access)
    ensures Built(Navigations(activeTab, slug, f, canAccess), 8, slug, activeTab, f, canAccess)
  {
    SettingsBuilt(slug, activeTab, f, canAccess);
    GuardsRanked(f, canAccess);
    PushAllBuilt([Entry(Settings, slug, activeTab)], Guards(f, canAccess), 1, slug, activeTab, f, canAccess);
  }

  /** Strictly increasing ranks below 8 leave room for at most eight entries. */
  lemma {:induction false} RankedLength(n: seq<Navigation>, k: nat)
    requires forall i :: 0 <= i < |n| ==> Rank(n[i].tab) < k
    requires forall i, j :: 0 <= i < j < |n| ==> Rank(n[i].tab) < Rank(n[j].tab)
    ensures |n| <= k
    decreases |n|
  {
    if |n| > 0 {
      var m := n[..|n| - 1];
      var top := Rank(n[|n| - 1].tab);
      assert forall i :: 0 <= i < |m| ==> Rank(m[i].tab) < top;
      RankedLength(m, top);
    }
  }

  /** What `Built` for all eight tabs means for the bar: Settings first, at
      most eight entries, every href inside /teams/{slug}/, and an entry
      active exactly when `activeTab` is its key. */
  lemma BuiltShape(n: seq<Navigation>, slug: string, activeTab: string, f: Features, canAccess: Access)
    requires Built(n, 8, slug, activeTab, f, canAccess)
    ensures 1 <= |n| <= 8 && n[0].tab == Settings
    ensures forall i :: 0 <= i < |n| ==> StartsWith(n[i].href, TeamPrefix(slug))
    ensures forall i :: 0 <= i < |n| ==> (n[i].active <==> activeTab == ActiveKey(n[i].tab))
  {
    assert Rank(Settings) < 8 && Shown(Settings, f, canAccess);
    assert Present(n, Settings);
    var s :| 0 <= s < |n| && n[s].tab == Settings;
    assert Rank(n[0].tab) <= Rank(n[s].tab);
    RankedLength(n, 8);
    forall i | 0 <= i < |n| ensures StartsWith(n[i].href, TeamPrefix(slug)) {
      assert n[i] == Entry(n[i].tab, slug, activeTab);
      StartsWithAppend(TeamPrefix(slug), PathSegment(n[i].tab));
    }
  }

  /** The shape of the tab bar: Settings first, every tab present exactly when
      `Shown` says so, ranks strictly increasing (hence the fixed order and no
      duplicates), at most eight entries, every href inside /teams/{slug}/,
      and an entry active exactly when `activeTab` is its key. */
  lemma NavigationsShape(activeTab: string, slug: string, f: Features, canAccess: Access)
    ensures var navs := Navigations(activeTab, slug, f, canAccess);
      && 1 <= |navs| <= 8
      && navs[0].tab == Settings && navs[0].name == "Settings"
      && navs[0].href == "/teams/" + slug + "/settings"
      && (forall i :: 0 <= i < |navs| ==> navs[i] == Entry(navs[i].tab, slug, activeTab))
      && (forall t :: Present(navs, t) <==> Shown(t, f, canAccess))
      && (forall i, j :: 0 <= i < j < |navs| ==> Rank(navs[i].tab) < Rank(navs[j].tab))
      && (forall i :: 0 <= i < |navs| ==> StartsWith(navs[i].href, TeamPrefix(slug)))
      && (forall i :: 0 <= i < |navs| ==> (navs[i].active <==> activeTab == ActiveKey(navs[i].tab)))
  {
    NavigationsBuilt(activeTab, slug, f, canAccess);
    BuiltShape(Navigations(activeTab, slug, f, canAccess), slug, activeTab, f, canAccess);
    SettingsEntry(slug, activeTab);
  }

  /** The Settings entry's label and href. */
  lemma SettingsEntry(slug: string, activeTab: string)
    ensures Entry(Settings, slug, activeTab).name == "Settings"
    ensures Entry(Settings, slug, activeTab).href == "/teams/" + slug + "/settings"
  {
    assert TeamPrefix(slug) + "settings" == "/teams/" + slug + "/settings";
  }

  /** Only the Members tab is labelled "Members". */
  lemma MembersLabel(t: Tab)
    ensures Label(t) == "Members" <==> t == Members
  {
    if t != Members {
      assert Label(t)[0] != 'M' || |Label(t)| != |"Members"|;
    }
  }

  /** Under `Built` for all eight tabs, an entry labelled "Members" is there
      exactly when the Members tab is shown. */
  lemma MembersLabelled(n: seq<Navigation>, slug: string, activeTab: string, f: Features, canAccess: Access)
    requires Built(n, 8, slug, activeTab, f, canAccess)
    ensures (exists i :: 0 <= i < |n| && n[i].name == "Members") <==> Shown(Members, f, canAccess)
  {
    assert Rank(Members) < 8;
    if exists i :: 0 <= i < |n| && n[i].name == "Members" {
      var i :| 0 <= i < |n| && n[i].name == "Members";
      assert n[i].name == Label(n[i].tab);
      MembersLabel(n[i].tab);
      assert Present(n, Members);
    }
    if Shown(Members, f, canAccess) {
      assert Present(n, Members);
      var i :| 0 <= i < |n| && n[i].tab == Members;
      assert n[i].name == Label(Members);
    }
  }

  /** "Members" is in the bar iff the user holds every CRUD action on team_member. */
  lemma MembersIff(activeTab: string, slug: string, f: Features, canAccess: Access)
    ensures var navs := Navigations(activeTab, slug, f, canAccess);
      (exists i :: 0 <= i < |navs| && navs[i].name == "Members") <==> canAccess("team_member", AllActions)
  {
    NavigationsBuilt(activeTab, slug, f, canAccess);
    MembersLabelled(Navigations(activeTab, slug, f, canAccess), slug, activeTab, f, canAccess);
  }

  lemma ActiveKeyInjective(a: Tab, b: Tab)
    ensures ActiveKey(a) == ActiveKey(b) ==> a == b
  {
  }

  /** No two entries are active at once. */
  lemma AtMostOneActive(activeTab: string, slug: string, f: Features, canAccess: Access, i: nat, j: nat)
    requires var navs := Navigations(activeTab, slug, f, canAccess);
      i < |navs| && j < |navs| && navs[i].active && navs[j].active
    ensures i == j
  {
    NavigationsShape(activeTab, slug, f, canAccess);
    var navs := Navigations(activeTab, slug, f, canAccess);
    ActiveKeyInjective(navs[i].tab, navs[j].tab);
  }

  /** `navigations.findIndex(nav => nav.active)` */
  function FirstActive(navs: seq<Navigation>): (r: int)
    ensures -1 <= r < |navs|
    ensures r == -1 <==> forall i :: 0 <= i < |navs| ==> !navs[i].active
    ensures r >= 0 ==> navs[r].active && forall i :: 0 <= i < r ==> !navs[i].active
  {
    if |navs| == 0 then -1
    else if navs[0].active then 0
    else
      var k := FirstActive(navs[1..]);
      if k == -1 then -1 else k + 1
  }

  /** The effect that synchronises the selected value: the first active index
      when one exists, otherwise the previous value (initially -1). */
  function SyncValue(value: int, navs: seq<Navigation>): (r: int)
    ensures (exists i :: 0 <= i < |navs| && navs[i].active) ==>
              0 <= r < |navs| && navs[r].active && forall i :: 0 <= i < r ==> !navs[i].active
    ensures (forall i :: 0 <= i < |navs| ==> !navs[i].active) ==> r == value
  {
    var k := FirstActive(navs);
    if k != -1 then k else value
  }

  const InitialValue: int := -1

  /** `value == -1 ? false : value`: None renders as "no tab selected". */
  function TabsValue(value: int): (shown: Option<int>)
    ensures shown.None? <==> value == -1
    ensures shown.Some? ==> shown.value == value
  {
    if value == -1 then None else Some(value)
  }

  /** On a page whose `activeTab` names a shown tab, the selection lands on
      that tab; on any other page the previous selection stays. */
  lemma SelectionFollowsActiveTab(value: int, activeTab: string, slug: string, f: Features, canAccess: Access)
    ensures var navs := Navigations(activeTab, slug, f, canAccess);
      var r := SyncValue(value, navs);
      && ((exists t :: Shown(t, f, canAccess) && ActiveKey(t) == activeTab) ==>
            0 <= r < |navs| && ActiveKey(navs[r].tab) == activeTab)
      && ((forall t :: Shown(t, f, canAccess) ==> ActiveKey(t) != activeTab) ==> r == value)
  {
    NavigationsShape(activeTab, slug, f, canAccess);
    var navs := Navigations(activeTab, slug, f, canAccess);
    if exists t :: Shown(t, f, canAccess) && ActiveKey(t) == activeTab {
      var t :| Shown(t, f, canAccess) && ActiveKey(t) == activeTab;
      var i :| 0 <= i < |navs| && navs[i].tab == t;
      assert navs[i].active;
    }
  }

  /** `handleChange`: choosing tab n navigates to its href, which lies under
      the team's pages. */
  function HandleChange(navs: seq<Navigation>, n: nat): (e: Effect)
    requires n < |navs|
    ensures e.Push? && e.path == navs[n].href
  {
    Push(navs[n].href)
  }

  lemma ChangeStaysInTeam(activeTab: string, slug: string, f: Features, canAccess: Access, n: nat)
    requires n < |Navigations(activeTab, slug, f, canAccess)|
    ensures StartsWith(HandleChange(Navigations(activeTab, slug, f, canAccess), n).path, TeamPrefix(slug))
  {
    NavigationsShape(activeTab, slug, f, canAccess);
  }
}
