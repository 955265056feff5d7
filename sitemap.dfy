/**
 * The multilingual sitemap (app/sitemap.ts): one entry per page and locale,
 * main pages first and articles after them, each page's entries together and
 * in locale order, every entry carrying the full map of per-locale alternate
 * URLs plus an "x-default" URL that points at the English page.
 */
module Sitemap {
  import opened Wrappers
  import I18n
  import Articles

  datatype ChangeFrequency = Always | Hourly | Daily | Weekly | Monthly | Yearly | Never

  /** A row of the main-page table. Priorities are kept in tenths: 1.0 is 10. */
  datatype MainPage = MainPage(path: string, changeFrequency: ChangeFrequency, priority: nat, lastModified: string)

  /** A row of the article table; dates are kept as the strings the table holds. */
  datatype ArticleRow = ArticleRow(slug: string, date: string)

  /** What a page contributes to each of its entries: its route below the locale, and its metadata. */
  datatype Route = Route(path: string, lastModified: string, changeFrequency: ChangeFrequency, priority: nat)

  /** One sitemap entry; `languages` is its `alternates.languages` object. */
  datatype SitemapEntry = SitemapEntry(
    url: string,
    lastModified: string,
    changeFrequency: ChangeFrequency,
    priority: nat,
    languages: map<string, string>)

  const DefaultBaseUrl: string := "https://global.rakanclinic-tokyo.jp"

  /** The hreflang key for the page shown to visitors whose language is not listed. */
  const XDefault: string := "x-default"

  const ArticlePriority: nat := 7

  const SitemapArticles: seq<ArticleRow> := [
    ArticleRow("what-is-stem-cell-therapy", "2024-01-15"),
    ArticleRow("does-stem-cell-therapy-work", "2024-01-20"),
    ArticleRow("stem-cell-therapy-for-joint-pain", "2024-01-25"),
    ArticleRow("stem-cell-therapy-vs-surgery", "2024-02-01"),
    ArticleRow("stem-cell-therapy-recovery-time", "2024-02-05"),
    ArticleRow("stem-cell-therapy-cost", "2024-02-10"),
    ArticleRow("stem-cell-therapy-japan-safety", "2024-02-18"),
    ArticleRow("stem-cell-therapy-results-timeline", "2024-02-19"),
    ArticleRow("anti-aging-stem-cell-therapy-tokyo", "2024-02-20"),
    ArticleRow("cpc-cell-processing-center-japan", "2024-02-21"),
    ArticleRow("azabudai-hills-stem-table", "2024-02-21"),
    ArticleRow("knee-osteoarthritis-stem-cells-tokyo", "2024-02-22"),
    ArticleRow("adipose-vs-bone-marrow-stem-cells", "2024-02-22"),
    ArticleRow("conditions-stem-cell-therapy", "2024-02-23"),
    ArticleRow("stem-cell-therapy-exclusions", "2024-02-23"),
    ArticleRow("culture-supernatant-explained", "2024-02-24"),
    ArticleRow("best-stem-cell-clinics-tokyo", "2025-02-10"),
    ArticleRow("stem-cell-therapy-cost-tokyo", "2025-02-10"),
    ArticleRow("medical-tourism-tokyo-stem-cell", "2025-02-10"),
    ArticleRow("stem-cell-therapy-legal-japan", "2025-02-10"),
    ArticleRow("choose-safe-stem-cell-clinic-tokyo", "2025-02-10")
  ]

  const MainPages: seq<MainPage> := [
    MainPage("", Weekly, 10, "2025-02-10"),
    MainPage("/treatments", Monthly, 9, "2025-02-10"),
    MainPage("/facilities", Monthly, 8, "2025-02-10"),
    MainPage("/articles", Weekly, 8, "2025-02-10")
  ]

  /** The site's base URL: the configured one when it is set and non-empty, the production URL otherwise. */
  function SiteBaseUrl(env: Option<string>): (baseUrl: string)
    ensures env.Some? && env.value != "" ==> baseUrl == env.value
    ensures env.None? || env.value == "" ==> baseUrl == DefaultBaseUrl
  {
    if env.Some? && env.value != "" then env.value else DefaultBaseUrl
  }

  /** The URL of a route in one locale; the home route "" gives the bare locale URL. */
  function LocalizedUrl(baseUrl: string, locale: string, path: string): string
  {
    baseUrl + "/" + locale + path
  }

  function MainRoute(page: MainPage): Route
  {
    Route(page.path, page.lastModified, page.changeFrequency, page.priority)
  }

  /** Articles live under /articles/<slug>, change yearly and have priority 0.7. */
  function ArticleRoute(article: ArticleRow): Route
  {
    Route("/articles/" + article.slug, article.date, Yearly, ArticlePriority)
  }

  /**
   * The alternates map of a route: every locale mapped to that locale's URL of
   * the route, then "x-default" mapped to the English URL (a locale named
   * "x-default" would be overwritten by it).
   */
  function Alternates(baseUrl: string, locales: seq<string>, path: string): map<string, string>
  {
    (map l | l in locales :: LocalizedUrl(baseUrl, l, path))[XDefault := LocalizedUrl(baseUrl, "en", path)]
  }

  /**
   * The keys of an alternates map are the locales and "x-default"; each
   * locale maps to its own URL of the route and "x-default" to the English one.
   */
  lemma AlternatesContents(baseUrl: string, locales: seq<string>, path: string)
    ensures var languages := Alternates(baseUrl, locales, path);
      && languages.Keys == (set l | l in locales) + {XDefault}
      && (forall l :: l in locales && l != XDefault ==> languages[l] == LocalizedUrl(baseUrl, l, path))
      && languages[XDefault] == LocalizedUrl(baseUrl, "en", path)
  {
  }

  /** The entry of one route in one locale. */
  function Entry(baseUrl: string, locales: seq<string>, route: Route, locale: string): SitemapEntry
  {
    SitemapEntry(
      LocalizedUrl(baseUrl, locale, route.path),
      route.lastModified,
      route.changeFrequency,
      route.priority,
      Alternates(baseUrl, locales, route.path))
  }

  /** The entries of one route, one per locale, in locale order. */
  function Block(baseUrl: string, locales: seq<string>, route: Route): (block: seq<SitemapEntry>)
    ensures |block| == |locales|
    ensures forall i :: 0 <= i < |locales| ==> block[i] == Entry(baseUrl, locales, route, locales[i])
  {
    seq(|locales|, i requires 0 <= i < |locales| => Entry(baseUrl, locales, route, locales[i]))
  }

  /** The entries of a list of routes: the blocks of the routes, in route order. */
  function Entries(baseUrl: string, locales: seq<string>, routes: seq<Route>): seq<SitemapEntry>
  {
    if routes == [] then []
    else Entries(baseUrl, locales, routes[..|routes| - 1]) + Block(baseUrl, locales, routes[|routes| - 1])
  }

  function MainRoutes(mainPages: seq<MainPage>): (routes: seq<Route>)
    ensures |routes| == |mainPages|
    ensures forall p :: 0 <= p < |mainPages| ==> routes[p] == MainRoute(mainPages[p])
  {
    seq(|mainPages|, p requires 0 <= p < |mainPages| => MainRoute(mainPages[p]))
  }

  function ArticleRoutes(articles: seq<ArticleRow>): (routes: seq<Route>)
    ensures |routes| == |articles|
    ensures forall a :: 0 <= a < |articles| ==> routes[a] == ArticleRoute(articles[a])
  {
    seq(|articles|, a requires 0 <= a < |articles| => ArticleRoute(articles[a]))
  }

  /** The routes of the sitemap: the main pages in table order, then the articles in table order. */
  function Routes(mainPages: seq<MainPage>, articles: seq<ArticleRow>): seq<Route>
  {
    MainRoutes(mainPages) + ArticleRoutes(articles)
  }

  /** Every route contributes one entry per locale. */
  lemma {:induction false} EntriesLength(baseUrl: string, locales: seq<string>, routes: seq<Route>)
    ensures |Entries(baseUrl, locales, routes)| == |routes| * |locales|
  {
    if routes != [] {
      var n := |routes|;
      EntriesLength(baseUrl, locales, routes[..n - 1]);
      assert (n - 1) * |locales| + |locales| == n * |locales|;
    }
  }

  /**
   * Entry e is the l-th entry of the p-th block when every block has m
   * entries: it sits at index p * m + l.
   */
  predicate At(entries: seq<SitemapEntry>, m: nat, p: nat, l: nat, e: SitemapEntry)
  {
    p * m + l < |entries| && entries[p * m + l] == e
  }

  /** The entry of route p in locale l sits at index p * |locales| + l. */
  lemma {:induction false} EntriesAt(baseUrl: string, locales: seq<string>, routes: seq<Route>, p: nat, l: nat)
    requires p < |routes| && l < |locales|
    ensures At(Entries(baseUrl, locales, routes), |locales|, p, l, Entry(baseUrl, locales, routes[p], locales[l]))
  {
    var n, m := |routes|, |locales|;
    var init := routes[..n - 1];
    var front := Entries(baseUrl, locales, init);
    var block := Block(baseUrl, locales, routes[n - 1]);
    assert Entries(baseUrl, locales, routes) == front + block;
    EntriesLength(baseUrl, locales, init);
    IndexBound(p, l, n, m);
    if p < n - 1 {
      EntriesAt(baseUrl, locales, init, p, l);
      IndexBound(p, l, n - 1, m);
      assert (front + block)[p * m + l] == front[p * m + l];
    } else {
      assert p * m + l == |front| + l;
      assert (front + block)[p * m + l] == block[l];
    }
  }

  /** Index arithmetic of the block layout. */
  lemma IndexBound(p: nat, l: nat, n: nat, m: nat)
    requires p < n && l < m
    ensures p * m + l < n * m
  {
    assert (p + 1) * m == p * m + m;
    MulMonotone(p + 1, n, m);
  }

  lemma MulMonotone(a: nat, b: nat, m: nat)
    requires a <= b
    ensures a * m <= b * m
  {
  }

  /** The entries of route p are exactly the block of that route. */
  lemma PageEntries(baseUrl: string, locales: seq<string>, routes: seq<Route>, p: nat)
    requires p < |routes|
    ensures (p + 1) * |locales| <= |Entries(baseUrl, locales, routes)|
    ensures Entries(baseUrl, locales, routes)[p * |locales|..(p + 1) * |locales|] == Block(baseUrl, locales, routes[p])
  {
    var m := |locales|;
    var all := Entries(baseUrl, locales, routes);
    EntriesLength(baseUrl, locales, routes);
    MulMonotone(p + 1, |routes|, m);
    assert (p + 1) * m == p * m + m;
    forall l | 0 <= l < m
      ensures all[p * m..(p + 1) * m][l] == Block(baseUrl, locales, routes[p])[l]
    {
      EntriesAt(baseUrl, locales, routes, p, l);
      assert all[p * m + l] == Block(baseUrl, locales, routes[p])[l];
    }
  }

  /** Distinct elements make a set as large as the sequence. */
  lemma {:induction false} DistinctCardinality(s: seq<string>)
    requires forall i, j :: 0 <= i < j < |s| ==> s[i] != s[j]
    ensures |set x | x in s| == |s|
  {
    if s != [] {
      var init := s[..|s| - 1];
      DistinctCardinality(init);
      assert (set x | x in s) == (set x | x in init) + {s[|s| - 1]};
      assert s[|s| - 1] !in (set x | x in init);
    }
  }

  /**
   * With distinct locales, none of them "x-default", every alternates map has
   * exactly one key per locale plus "x-default".
   */
  lemma AlternatesSize(baseUrl: string, locales: seq<string>, path: string)
    requires forall i, j :: 0 <= i < j < |locales| ==> locales[i] != locales[j]
    requires XDefault !in locales
    ensures |Alternates(baseUrl, locales, path)| == |locales| + 1
  {
    DistinctCardinality(locales);
    AlternatesContents(baseUrl, locales, path);
    var keys := Alternates(baseUrl, locales, path).Keys;
    assert keys == (set l | l in locales) + {XDefault};
    assert XDefault !in (set l | l in locales);
  }

  /**
   * Cross-consistency of one page's entries: they all carry the same
   * alternates map; the URLs of the entries are exactly the non-"x-default"
   * values of that map; and, English being a locale, "x-default" is the URL
   * of the English entry.
   */
  lemma BlockConsistent(baseUrl: string, locales: seq<string>, route: Route)
    requires XDefault !in locales
    ensures var block := Block(baseUrl, locales, route);
      forall i, j :: 0 <= i < |locales| && 0 <= j < |locales| ==> block[i].languages == block[j].languages
    ensures var block := Block(baseUrl, locales, route);
      forall i :: 0 <= i < |locales| ==>
        (set e | e in block :: e.url) ==
        (set k | k in block[i].languages && k != XDefault :: block[i].languages[k])
    ensures var block := Block(baseUrl, locales, route);
      "en" in locales ==>
        forall i :: 0 <= i < |locales| ==>
          exists j :: 0 <= j < |locales| && locales[j] == "en" && block[j].url == block[i].languages[XDefault]
  {
    var block := Block(baseUrl, locales, route);
    var languages := Alternates(baseUrl, locales, route.path);
    AlternatesContents(baseUrl, locales, route.path);
    var urls := set e | e in block :: e.url;
    var values := set k | k in languages && k != XDefault :: languages[k];
    forall u | u in urls ensures u in values {
      var e :| e in block && e.url == u;
      var j :| 0 <= j < |block| && block[j] == e;
      assert languages[locales[j]] == u;
    }
    forall u | u in values ensures u in urls {
      var k :| k in languages && k != XDefault && languages[k] == u;
      var j :| 0 <= j < |locales| && locales[j] == k;
      assert block[j].url == u;
    }
    assert urls == values;
    if "en" in locales {
      var j :| 0 <= j < |locales| && locales[j] == "en";
      assert block[j].url == languages[XDefault];
    }
  }

  /** Every entry of a list of routes has an alternates map with one key per locale plus "x-default". */
  lemma {:induction false} EntriesAlternatesSize(baseUrl: string, locales: seq<string>, routes: seq<Route>)
    requires forall i, j :: 0 <= i < j < |locales| ==> locales[i] != locales[j]
    requires XDefault !in locales
    ensures forall e :: e in Entries(baseUrl, locales, routes) ==> |e.languages| == |locales| + 1
  {
    if routes != [] {
      EntriesAlternatesSize(baseUrl, locales, routes[..|routes| - 1]);
      AlternatesSize(baseUrl, locales, routes[|routes| - 1].path);
    }
  }

  /** Appending one more locale's entry to a partial block. */
  lemma BlockStep(baseUrl: string, locales: seq<string>, route: Route, l: nat)
    requires l < |locales|
    ensures Block(baseUrl, locales, route)[..l + 1] ==
      Block(baseUrl, locales, route)[..l] + [Entry(baseUrl, locales, route, locales[l])]
  {
    var block := Block(baseUrl, locales, route);
    assert block[..l + 1] == block[..l] + [block[l]];
  }

  /** Appending the block of one more route to a prefix of the routes. */
  lemma EntriesStep(baseUrl: string, locales: seq<string>, routes: seq<Route>, k: nat)
    requires k < |routes|
    ensures Entries(baseUrl, locales, routes[..k + 1]) ==
      Entries(baseUrl, locales, routes[..k]) + Block(baseUrl, locales, routes[k])
  {
    assert routes[..k + 1][..k] == routes[..k];
  }

  /** The entries of two lists of routes, one after the other, are the entries of the joined list. */
  lemma {:induction false} EntriesAppend(baseUrl: string, locales: seq<string>, first: seq<Route>, second: seq<Route>)
    ensures Entries(baseUrl, locales, first + second) ==
      Entries(baseUrl, locales, first) + Entries(baseUrl, locales, second)
  {
    if second == [] {
      assert first + second == first;
    } else {
      var n := |second|;
      var joined, shorter, last := first + second, second[..n - 1], second[n - 1];
      assert joined[..|joined| - 1] == first + shorter;
      assert joined[|joined| - 1] == last;
      EntriesAppend(baseUrl, locales, first, shorter);
      assert Entries(baseUrl, locales, second) ==
        Entries(baseUrl, locales, shorter) + Block(baseUrl, locales, last);
      assert Entries(baseUrl, locales, joined) ==
        Entries(baseUrl, locales, first + shorter) + Block(baseUrl, locales, last);
    }
  }

  /**
   * Where each entry of the sitemap is: the main pages' blocks first, the
   * articles' blocks after them, each block in locale order.
   */
  lemma SitemapLayout(baseUrl: string, locales: seq<string>, mainPages: seq<MainPage>, articles: seq<ArticleRow>)
    ensures var entries := Entries(baseUrl, locales, Routes(mainPages, articles));
      && |entries| == (|mainPages| + |articles|) * |locales|
      && (forall p, l :: 0 <= p < |mainPages| && 0 <= l < |locales| ==>
            At(entries, |locales|, p, l, Entry(baseUrl, locales, MainRoute(mainPages[p]), locales[l])))
      && (forall a, l :: 0 <= a < |articles| && 0 <= l < |locales| ==>
            At(entries, |locales|, |mainPages| + a, l, Entry(baseUrl, locales, ArticleRoute(articles[a]), locales[l])))
  {
    var routes := Routes(mainPages, articles);
    var entries := Entries(baseUrl, locales, routes);
    EntriesLength(baseUrl, locales, routes);
    forall p, l | 0 <= p < |mainPages| && 0 <= l < |locales|
      ensures At(entries, |locales|, p, l, Entry(baseUrl, locales, MainRoute(mainPages[p]), locales[l]))
    {
      assert routes[p] == MainRoute(mainPages[p]);
      EntriesAt(baseUrl, locales, routes, p, l);
    }
    forall a, l | 0 <= a < |articles| && 0 <= l < |locales|
      ensures At(entries, |locales|, |mainPages| + a, l, Entry(baseUrl, locales, ArticleRoute(articles[a]), locales[l]))
    {
      assert routes[|mainPages| + a] == ArticleRoute(articles[a]);
      EntriesAt(baseUrl, locales, routes, |mainPages| + a, l);
    }
  }

  /**
   * The main-page loops: for each main page and, inside, for each locale,
   * push that page's entry in that locale.
   */
  method PushMainPageEntries(entries0: seq<SitemapEntry>, baseUrl: string, locales: seq<string>, mainPages: seq<MainPage>)
    returns (entries: seq<SitemapEntry>)
    ensures entries == entries0 + Entries(baseUrl, locales, MainRoutes(mainPages))
  {
    ghost var routes := MainRoutes(mainPages);
    entries := entries0;
    var p := 0;
    while p < |mainPages|
      invariant 0 <= p <= |mainPages|
      invariant entries == entries0 + Entries(baseUrl, locales, routes[..p])
    {
      var page := mainPages[p];
      ghost var done := entries;
      ghost var route := routes[p];
      ghost var block := Block(baseUrl, locales, route);
      var l := 0;
      while l < |locales|
        invariant 0 <= l <= |locales|
        invariant entries == done + block[..l]
      {
        var locale := locales[l];
        var entry := SitemapEntry(
          LocalizedUrl(baseUrl, locale, page.path),
          page.lastModified,
          page.changeFrequency,
          page.priority,
          Alternates(baseUrl, locales, page.path));
        assert entry == Entry(baseUrl, locales, route, locale);
        BlockStep(baseUrl, locales, route, l);
        entries := entries + [entry];
        l := l + 1;
      }
      assert block[..l] == block;
      EntriesStep(baseUrl, locales, routes, p);
      p := p + 1;
    }
    assert routes[..p] == routes;
  }

  /**
   * The article loops: for each article and, inside, for each locale, push
   * that article's entry in that locale.
   */
  method PushArticleEntries(entries0: seq<SitemapEntry>, baseUrl: string, locales: seq<string>, articles: seq<ArticleRow>)
    returns (entries: seq<SitemapEntry>)
    ensures entries == entries0 + Entries(baseUrl, locales, ArticleRoutes(articles))
  {
    ghost var routes := ArticleRoutes(articles);
    entries := entries0;
    var a := 0;
    while a < |articles|
      invariant 0 <= a <= |articles|
      invariant entries == entries0 + Entries(baseUrl, locales, routes[..a])
    {
      var article := articles[a];
      ghost var done := entries;
      ghost var route := routes[a];
      ghost var block := Block(baseUrl, locales, route);
      var l := 0;
      while l < |locales|
        invariant 0 <= l <= |locales|
        invariant entries == done + block[..l]
      {
        var locale := locales[l];
        var entry := SitemapEntry(
          LocalizedUrl(baseUrl, locale, "/articles/" + article.slug),
          article.date,
          Yearly,
          ArticlePriority,
          Alternates(baseUrl, locales, "/articles/" + article.slug));
        assert entry == Entry(baseUrl, locales, route, locale);
        BlockStep(baseUrl, locales, route, l);
        entries := entries + [entry];
        l := l + 1;
      }
      assert block[..l] == block;
      EntriesStep(baseUrl, locales, routes, a);
      a := a + 1;
    }
    assert routes[..a] == routes;
  }

  /**
   * The sitemap, built by pushing the main pages' entries and then the
   * articles' entries onto an empty list.
   */
  method BuildSitemap(baseUrl: string, locales: seq<string>, mainPages: seq<MainPage>, articles: seq<ArticleRow>)
    returns (entries: seq<SitemapEntry>)
    ensures entries == Entries(baseUrl, locales, Routes(mainPages, articles))
    ensures |entries| == (|mainPages| + |articles|) * |locales|
    ensures forall p, l :: 0 <= p < |mainPages| && 0 <= l < |locales| ==>
      At(entries, |locales|, p, l, Entry(baseUrl, locales, MainRoute(mainPages[p]), locales[l]))
    ensures forall a, l :: 0 <= a < |articles| && 0 <= l < |locales| ==>
      At(entries, |locales|, |mainPages| + a, l, Entry(baseUrl, locales, ArticleRoute(articles[a]), locales[l]))
  {
    entries := PushMainPageEntries([], baseUrl, locales, mainPages);
    entries := PushArticleEntries(entries, baseUrl, locales, articles);
    EntriesAppend(baseUrl, locales, MainRoutes(mainPages), ArticleRoutes(articles));
    SitemapLayout(baseUrl, locales, mainPages, articles);
  }

  /**
   * The site's sitemap: 4 main pages and 21 articles in 8 locales give 200
   * entries, each with 9 alternates (8 locales and "x-default").
   */
  method SiteSitemap(env: Option<string>) returns (entries: seq<SitemapEntry>)
    ensures entries == Entries(SiteBaseUrl(env), I18n.Locales, Routes(MainPages, SitemapArticles))
    ensures |entries| == 200
    ensures forall e :: e in entries ==> |e.languages| == 9
  {
    var baseUrl := SiteBaseUrl(env);
    entries := BuildSitemap(baseUrl, I18n.Locales, MainPages, SitemapArticles);
    I18n.LocalesWellFormed();
    EntriesAlternatesSize(baseUrl, I18n.Locales, Routes(MainPages, SitemapArticles));
  }

  /** The sitemap's article table lists the registry's slugs, in the registry's order. */
  lemma SitemapArticlesMatchRegistry()
    ensures |SitemapArticles| == |Articles.ArticleSlugs|
    ensures forall i :: 0 <= i < |SitemapArticles| ==> SitemapArticles[i].slug == Articles.ArticleSlugs[i]
  {
  }
}
