/** The site-link shortcuts behind `hs open`: a fixed table of shortcuts,
    optional aliases and URLs built from the website origin of the current
    environment and a portal id, and the lookup of a user's query in it. */
module Links {
  import opened Wrappers
  import opened Constants
  import opened Strings

  /** One link of the table: `{ shortcut, alias?, url }`. */
  datatype Link = Link(shortcut: string, alias: Option<string>, url: string)

  /** `getHubSpotWebsiteOrigin`, whose code is not part of this model: one
      origin per environment. */
  datatype Origins = Origins(prod: string, qa: string)

  function Origin(o: Origins, env: Env): string
  {
    match env
    case Prod => o.prod
    case Qa => o.qa
  }

  /** The environment the table is built for: QA exactly when the configured
      environment (`getEnv()`) is the string `qa`. */
  function LinkEnv(configuredEnv: string): (env: Env)
    ensures env == Qa <==> configuredEnv == "qa"
  {
    if configuredEnv == "qa" then Qa else Prod
  }

  /** `baseUrl`: the website origin of that environment. */
  function BaseUrl(configuredEnv: string, o: Origins): (base: string)
    ensures configuredEnv == "qa" ==> base == o.qa
    ensures configuredEnv != "qa" ==> base == o.prod
  {
    Origin(o, LinkEnv(configuredEnv))
  }

  /** Where a link points: a constant URL, or `baseUrl + path + portalId + rest`. */
  datatype Target = Fixed(url: string) | OnPortal(path: string, rest: string)

  /** A row of the table before `baseUrl` and the portal id are filled in. */
  datatype Entry = Entry(shortcut: string, alias: Option<string>, target: Target)

  /** The table in the order its keys are declared, which is the order
      `Object.values` lists them in. */
  const Table: seq<Entry> := [
    Entry("apps-marketplace", Some("apm"), OnPortal("/ecosystem/", "/marketplace/apps")),
    Entry("asset-marketplace", Some("asm"), OnPortal("/ecosystem/", "/marketplace/products")),
    Entry("content-staging", Some("cs"), OnPortal("/content/", "/staging")),
    Entry("design-manager", Some("dm"), OnPortal("/design-manager/", "")),
    Entry("docs", None, Fixed("https://developers.hubspot.com")),
    Entry("file-manager", Some("fm"), OnPortal("/files/", "")),
    Entry("forums", None, Fixed("https://community.hubspot.com")),
    Entry("hubdb", Some("hdb"), OnPortal("/hubdb/", "")),
    Entry("settings", Some("s"), OnPortal("/settings/", "")),
    Entry("settings/navigation", Some("sn"), OnPortal("/menus/", "/edit/")),
    Entry("settings/page", Some("sp"),
          OnPortal("/settings/", "/website/pages/all-domains/page-templates")),
    Entry("settings/url-redirects", Some("sur"), OnPortal("/domains/", "/url-redirects")),
    Entry("purchased-assets", Some("pa"), OnPortal("/marketplace/", "/manage-purchases")),
    Entry("website-pages", Some("wp"), OnPortal("/website/", "/pages/site"))
  ]

  /** The link an entry stands for, given `baseUrl` and the portal id (as
      the text the template literal interpolates). */
  function Render(e: Entry, baseUrl: string, portalId: string): (l: Link)
    ensures l.shortcut == e.shortcut && l.alias == e.alias
    ensures e.target.Fixed? ==> l.url == e.target.url
    ensures e.target.OnPortal? ==>
      StartsWith(l.url, baseUrl) && OccursAt(portalId, l.url, |baseUrl| + |e.target.path|)
  {
    match e.target
    case Fixed(u) => Link(e.shortcut, e.alias, u)
    case OnPortal(path, rest) =>
      var url := baseUrl + path + portalId + rest;
      assert url[..|baseUrl|] == baseUrl;
      assert url[|baseUrl| + |path|..|baseUrl| + |path| + |portalId|] == portalId;
      Link(e.shortcut, e.alias, url)
  }

  /** JavaScript's `l.shortcut === q || (l.alias && l.alias === q)`: an
      empty alias is falsy and matches nothing. */
  predicate Matches(l: Link, q: string)
  {
    l.shortcut == q || (Truthy(l.alias) && l.alias.value == q)
  }

  /** No two links share a shortcut. */
  predicate DistinctShortcuts(s: seq<Link>)
  {
    forall i, j :: 0 <= i < j < |s| ==> s[i].shortcut != s[j].shortcut
  }

  /** The table invariant that makes a lookup unambiguous: shortcuts are
      pairwise distinct, aliases are non-empty and pairwise distinct, and no
      alias is any link's shortcut. */
  predicate Unambiguous(links: seq<Link>)
  {
    && DistinctShortcuts(links)
    && (forall i :: 0 <= i < |links| && links[i].alias.Some? ==> links[i].alias.value != "")
    && (forall i, j :: 0 <= i < j < |links| && links[i].alias.Some? && links[j].alias.Some? ==>
          links[i].alias.value != links[j].alias.value)
    && (forall i, j :: 0 <= i < |links| && 0 <= j < |links| && links[i].alias.Some? ==>
          links[i].alias.value != links[j].shortcut)
  }

  /** `getSiteLinks(portalId)`. */
  function SiteLinks(portalId: string, configuredEnv: string, o: Origins): (links: seq<Link>)
    ensures |links| == 14
    ensures Unambiguous(links)
    ensures forall i :: 0 <= i < |links| ==> ' ' !in links[i].shortcut
    ensures forall i :: 0 <= i < |links| ==>
      (links[i].alias.None? <==> links[i].shortcut == "docs" || links[i].shortcut == "forums")
    ensures forall i :: 0 <= i < |links| && links[i].shortcut == "docs" ==>
      links[i].url == "https://developers.hubspot.com"
    ensures forall i :: 0 <= i < |links| && links[i].shortcut == "forums" ==>
      links[i].url == "https://community.hubspot.com"
    ensures forall i :: 0 <= i < |links| && links[i].alias.Some? ==>
      StartsWith(links[i].url, BaseUrl(configuredEnv, o)) && Contains(links[i].url, portalId)
  {
    var base := BaseUrl(configuredEnv, o);
    var links := RenderAll(base, portalId);
    TableShortcutsDistinct();
    TableAliasesDistinct();
    TableAliasesNotShortcuts();
    TableAliasShape();
    TableFixedUrls();
    TableShortcutsHaveNoSpace();
    forall i | 0 <= i < |links| && links[i].alias.Some?
      ensures StartsWith(links[i].url, base) && Contains(links[i].url, portalId)
    {
      assert OccursAt(portalId, links[i].url, |base| + |Table[i].target.path|);
    }
    links
  }

  /** Every entry of the table rendered, in order. */
  function RenderAll(base: string, portalId: string): (links: seq<Link>)
    ensures |links| == |Table|
    ensures forall i :: 0 <= i < |links| ==> links[i] == Render(Table[i], base, portalId)
  {
    seq(|Table|, i requires 0 <= i < |Table| => Render(Table[i], base, portalId))
  }

  lemma TableShortcutsDistinct()
    ensures forall i, j :: 0 <= i < j < |Table| ==> Table[i].shortcut != Table[j].shortcut
  {
  }

  lemma TableAliasesDistinct()
    ensures forall i :: 0 <= i < |Table| && Table[i].alias.Some? ==> Table[i].alias.value != ""
    ensures forall i, j :: 0 <= i < j < |Table| && Table[i].alias.Some? && Table[j].alias.Some? ==>
      Table[i].alias.value != Table[j].alias.value
  {
  }

  lemma TableAliasesNotShortcuts()
    ensures forall i, j :: 0 <= i < |Table| && 0 <= j < |Table| && Table[i].alias.Some? ==>
      Table[i].alias.value != Table[j].shortcut
  {
  }

  /** Only the two constant links, docs and forums, lack an alias. */
  lemma TableAliasShape()
    ensures forall i :: 0 <= i < |Table| ==>
      (Table[i].alias.None? <==> Table[i].shortcut == "docs" || Table[i].shortcut == "forums")
    ensures forall i :: 0 <= i < |Table| ==> (Table[i].alias.None? <==> Table[i].target.Fixed?)
  {
  }

  /** The two constant URLs. */
  lemma TableFixedUrls()
    ensures forall i :: 0 <= i < |Table| && Table[i].shortcut == "docs" ==>
      Table[i].target == Fixed("https://developers.hubspot.com")
    ensures forall i :: 0 <= i < |Table| && Table[i].shortcut == "forums" ==>
      Table[i].target == Fixed("https://community.hubspot.com")
  {
  }

  /** No shortcut holds a space. */
  lemma TableShortcutsHaveNoSpace()
    ensures forall i :: 0 <= i < |Table| ==> ' ' !in Table[i].shortcut
  {
    FirstShortcutsHaveNoSpace();
    LastShortcutsHaveNoSpace();
  }

  lemma FirstShortcutsHaveNoSpace()
    ensures ' ' !in "apps-marketplace" && ' ' !in "asset-marketplace" && ' ' !in "content-staging"
    ensures ' ' !in "design-manager" && ' ' !in "docs" && ' ' !in "file-manager" && ' ' !in "forums"
  {
  }

  lemma LastShortcutsHaveNoSpace()
    ensures ' ' !in "hubdb" && ' ' !in "settings" && ' ' !in "settings/navigation"
    ensures ' ' !in "settings/page" && ' ' !in "settings/url-redirects"
    ensures ' ' !in "purchased-assets" && ' ' !in "website-pages"
  {
  }

  /** `links[i]` is the first link matching `q`. */
  predicate FirstMatchAt(links: seq<Link>, q: string, i: int)
  {
    0 <= i < |links| && Matches(links[i], q) && forall j :: 0 <= j < i ==> !Matches(links[j], q)
  }

  /** `Array.prototype.find`: the first link matching the query. */
  function Find(links: seq<Link>, q: string): (r: Option<Link>)
    ensures r.Some? ==> r.value in links && Matches(r.value, q)
    ensures r.None? ==> forall l <- links :: !Matches(l, q)
    ensures r.Some? ==> exists i :: FirstMatchAt(links, q, i) && links[i] == r.value
    decreases |links|
  {
    if |links| == 0 then None
    else if Matches(links[0], q) then Some(links[0])
    else
      var r := Find(links[1..], q);
      if r.Some? then
        var i :| FirstMatchAt(links[1..], q, i) && links[1..][i] == r.value;
        assert FirstMatchAt(links, q, i + 1);
        r
      else r
  }

  /** What `openLink` does: open the matched URL, or log that nothing
      matched and return. */
  datatype LinkAction = OpenInBrowser(url: string) | ReportNoMatch(query: string)

  /** `openLink(portalId, shortcut)`. */
  function OpenLink(portalId: string, query: string, configuredEnv: string, o: Origins): (a: LinkAction)
    ensures a.OpenInBrowser? <==> exists l <- SiteLinks(portalId, configuredEnv, o) :: Matches(l, query)
    ensures a.OpenInBrowser? ==>
      exists l <- SiteLinks(portalId, configuredEnv, o) :: Matches(l, query) && a.url == l.url
    ensures a.ReportNoMatch? ==> a.query == query
  {
    match Find(SiteLinks(portalId, configuredEnv, o), query)
    case Some(l) => OpenInBrowser(l.url)
    case None => ReportNoMatch(query)
  }
}

/** What the link table's invariant buys: a query matches at most one link,
    `openLink` opens exactly that link, and the constant links do not depend
    on the portal or the environment. */
module LinkProofs {
  import opened Wrappers
  import opened Strings
  import opened Links

  /** In an unambiguous table no two links match the same query. */
  lemma AtMostOneMatch(links: seq<Link>, q: string, i: int, j: int)
    requires Unambiguous(links)
    requires 0 <= i < |links| && 0 <= j < |links|
    requires Matches(links[i], q) && Matches(links[j], q)
    ensures i == j
  {
  }

  /** In the site-link table a link matches exactly when the query is its
      shortcut or its alias; docs and forums, which have no alias, match by
      shortcut only. */
  lemma SiteLinkMatch(portalId: string, configuredEnv: string, o: Origins, q: string)
    ensures forall l <- SiteLinks(portalId, configuredEnv, o) ::
      Matches(l, q) <==> l.shortcut == q || l.alias == Some(q)
    ensures forall l <- SiteLinks(portalId, configuredEnv, o) ::
      l.shortcut == "docs" || l.shortcut == "forums" ==> (Matches(l, q) <==> l.shortcut == q)
  {
    var links := SiteLinks(portalId, configuredEnv, o);
    forall l <- links
      ensures Matches(l, q) <==> l.shortcut == q || l.alias == Some(q)
      ensures l.shortcut == "docs" || l.shortcut == "forums" ==> (Matches(l, q) <==> l.shortcut == q)
    {
      var i :| 0 <= i < |links| && links[i] == l;
    }
  }

  /** A query that matches a link of the table makes `openLink` open that
      link's URL: since the match is unique, `find` cannot stop at another. */
  lemma OpenLinkOpensTheMatch(portalId: string, q: string, configuredEnv: string, o: Origins, i: int)
    requires 0 <= i < |SiteLinks(portalId, configuredEnv, o)|
    requires Matches(SiteLinks(portalId, configuredEnv, o)[i], q)
    ensures OpenLink(portalId, q, configuredEnv, o) == OpenInBrowser(SiteLinks(portalId, configuredEnv, o)[i].url)
  {
    var links := SiteLinks(portalId, configuredEnv, o);
    var r := Find(links, q);
    var k :| FirstMatchAt(links, q, k) && links[k] == r.value;
    AtMostOneMatch(links, q, i, k);
  }

  /** The docs and forums links are the same for every portal id,
      environment and origin, and every link keeps its shortcut and alias. */
  lemma FixedLinksIgnorePortal(p1: string, e1: string, o1: Origins, p2: string, e2: string, o2: Origins)
    ensures var a := SiteLinks(p1, e1, o1);
      var b := SiteLinks(p2, e2, o2);
      && |a| == |b|
      && (forall i :: 0 <= i < |a| ==> a[i].shortcut == b[i].shortcut && a[i].alias == b[i].alias)
      && (forall i :: 0 <= i < |a| && a[i].alias.None? ==> a[i] == b[i])
  {
    TableAliasShape();
  }
}
