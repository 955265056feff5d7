/**
 * The article listing's category pills and filter
 * (components/ArticlesGrid.tsx): per-category counts in order of first
 * appearance, the filter for the active category, and the split of the
 * filtered list into a featured article and the rest.
 */
module ArticlesGrid {

  datatype ArticleData = ArticleData(
    slug: string, title: string, excerpt: string, readTime: string,
    category: string, date: string, href: string, image: string)

  /** A category pill: its label and the number shown beside it. */
  datatype Pill = Pill(category: string, count: nat)

  /** The category of every article, in listing order. */
  function Categories(articles: seq<ArticleData>): (cats: seq<string>)
    ensures |cats| == |articles|
    ensures forall i :: 0 <= i < |articles| ==> cats[i] == articles[i].category
  {
    seq(|articles|, i requires 0 <= i < |articles| => articles[i].category)
  }

  /** How many entries equal c. */
  function Count(cats: seq<string>, c: string): nat
  {
    if cats == [] then 0
    else Count(cats[..|cats| - 1], c) + (if cats[|cats| - 1] == c then 1 else 0)
  }

  /** The distinct entries, each once, in order of first appearance (the key order of a JavaScript Map). */
  function FirstSeen(cats: seq<string>): (keys: seq<string>)
    ensures forall c :: c in keys <==> c in cats
    ensures NoDuplicates(keys)
  {
    if cats == [] then []
    else
      var init := FirstSeen(cats[..|cats| - 1]);
      var last := cats[|cats| - 1];
      assert forall c :: c in cats <==> c in cats[..|cats| - 1] || c == last;
      if last in init then init else init + [last]
  }

  predicate NoDuplicates(s: seq<string>)
  {
    forall i, j :: 0 <= i < j < |s| ==> s[i] != s[j]
  }

  /** The position of the first occurrence of c. */
  function IndexOf(s: seq<string>, c: string): (i: nat)
    requires c in s
    ensures i < |s| && s[i] == c
    ensures forall k :: 0 <= k < i ==> s[k] != c
  {
    if s[0] == c then 0 else 1 + IndexOf(s[1..], c)
  }

  /** The pills, as `categoriesWithCounts` lists them: the "all" pill first, then each category with its count. */
  function CategoryCounts(articles: seq<ArticleData>, allLabel: string): (pills: seq<Pill>)
    ensures |pills| == |FirstSeen(Categories(articles))| + 1
    ensures pills[0] == Pill(allLabel, |articles|)
  {
    var keys := FirstSeen(Categories(articles));
    [Pill(allLabel, |articles|)]
      + seq(|keys|, i requires 0 <= i < |keys| => Pill(keys[i], Count(Categories(articles), keys[i])))
  }

  /**
   * The computation of `categoriesWithCounts`: count into an insertion-ordered
   * map (its key order kept in `keys`), then list the "all" pill and one pill
   * per key.
   */
  method CategoriesWithCounts(articles: seq<ArticleData>, allLabel: string) returns (entries: seq<Pill>)
    ensures entries == CategoryCounts(articles, allLabel)
  {
    var keys, counts := CountCategories(articles);
    entries := [Pill(allLabel, |articles|)];
    var k := 0;
    while k < |keys|
      invariant 0 <= k <= |keys|
      invariant entries == [Pill(allLabel, |articles|)]
        + seq(k, j requires 0 <= j < k => Pill(keys[j], Count(Categories(articles), keys[j])))
    {
      entries := entries + [Pill(keys[k], counts[keys[k]])];
      k := k + 1;
    }
  }

  /** `keys` and `counts` are the insertion order and the contents of a count map over cats. */
  ghost predicate Tally(keys: seq<string>, counts: map<string, nat>, cats: seq<string>)
  {
    && keys == FirstSeen(cats)
    && (forall c :: c in counts <==> c in keys)
    && (forall c :: c in counts ==> counts[c] == Count(cats, c))
  }

  /** `countMap.set(cat, (countMap.get(cat) || 0) + 1)` keeps the tally. */
  lemma TallyStep(keys: seq<string>, counts: map<string, nat>, cats: seq<string>, cat: string)
    requires Tally(keys, counts, cats)
    ensures Tally(if cat in counts then keys else keys + [cat],
                  counts[cat := (if cat in counts then counts[cat] else 0) + 1],
                  cats + [cat])
  {
    FirstSeenStep(cats, cat);
    if cat !in counts {
      CountAbsent(cats, cat);
    }
    var counts' := counts[cat := (if cat in counts then counts[cat] else 0) + 1];
    forall c | c in counts' ensures counts'[c] == Count(cats + [cat], c) {
      CountStep(cats, cat, c);
    }
  }

  /** The tally of the first i categories, advanced over category i. */
  lemma TallyNext(keys: seq<string>, counts: map<string, nat>, cats: seq<string>, i: nat)
    requires i < |cats| && Tally(keys, counts, cats[..i])
    ensures var cat := cats[i];
      Tally(if cat in counts then keys else keys + [cat],
            counts[cat := (if cat in counts then counts[cat] else 0) + 1],
            cats[..i + 1])
  {
    assert cats[..i + 1] == cats[..i] + [cats[i]];
    TallyStep(keys, counts, cats[..i], cats[i]);
  }

  /** The `countMap` loop: `keys` is the map's insertion order, `counts` its contents. */
  method CountCategories(articles: seq<ArticleData>) returns (keys: seq<string>, counts: map<string, nat>)
    ensures Tally(keys, counts, Categories(articles))
  {
    ghost var cats := Categories(articles);
    keys, counts := [], map[];
    var i := 0;
    while i < |articles|
      invariant 0 <= i <= |articles|
      invariant Tally(keys, counts, cats[..i])
    {
      var cat := articles[i].category;
      TallyNext(keys, counts, cats, i);
      if cat !in counts {
        keys := keys + [cat];
      }
      counts := counts[cat := (if cat in counts then counts[cat] else 0) + 1];
      i := i + 1;
    }
    assert cats[..i] == cats;
  }

  lemma FirstSeenStep(cats: seq<string>, x: string)
    ensures FirstSeen(cats + [x]) == if x in FirstSeen(cats) then FirstSeen(cats) else FirstSeen(cats) + [x]
  {
    assert (cats + [x])[..|cats|] == cats;
  }

  lemma CountStep(cats: seq<string>, x: string, c: string)
    ensures Count(cats + [x], c) == Count(cats, c) + (if x == c then 1 else 0)
  {
    assert (cats + [x])[..|cats|] == cats;
  }

  lemma {:induction false} CountAbsent(cats: seq<string>, c: string)
    requires c !in cats
    ensures Count(cats, c) == 0
  {
    if cats != [] {
      CountAbsent(cats[..|cats| - 1], c);
    }
  }

  lemma {:induction false} CountPositive(cats: seq<string>, c: string)
    requires c in cats
    ensures Count(cats, c) >= 1
  {
    var init := cats[..|cats| - 1];
    if cats[|cats| - 1] != c {
      assert c in init;
      CountPositive(init, c);
    }
  }

  /** The pills after the first list every category of the articles exactly once, each with a positive count. */
  lemma PillsCoverCategories(articles: seq<ArticleData>, allLabel: string)
    ensures var pills := CategoryCounts(articles, allLabel);
      && (forall i :: 1 <= i < |pills| ==> pills[i].category in Categories(articles) && pills[i].count >= 1)
      && (forall a :: a in articles ==> exists i :: 1 <= i < |pills| && pills[i].category == a.category)
      && (forall i, j :: 1 <= i < j < |pills| ==> pills[i].category != pills[j].category)
  {
    var pills := CategoryCounts(articles, allLabel);
    var cats := Categories(articles);
    var keys := FirstSeen(cats);
    forall i | 1 <= i < |pills| ensures pills[i].category in cats && pills[i].count >= 1 {
      assert pills[i] == Pill(keys[i - 1], Count(cats, keys[i - 1]));
      CountPositive(cats, keys[i - 1]);
    }
    forall a | a in articles ensures exists i :: 1 <= i < |pills| && pills[i].category == a.category {
      var n :| 0 <= n < |articles| && articles[n] == a;
      assert cats[n] == a.category;
      var k := IndexOf(keys, a.category);
      assert pills[k + 1].category == a.category;
    }
  }

  /** Each key occurs in cats, and earlier keys first occur earlier. */
  predicate InFirstAppearanceOrder(keys: seq<string>, cats: seq<string>)
  {
    forall i, j :: 0 <= i < j < |keys| ==>
      keys[i] in cats && keys[j] in cats && IndexOf(cats, keys[i]) < IndexOf(cats, keys[j])
  }

  /** The keys come in order of their first appearance among the articles. */
  lemma {:induction false} FirstSeenOrder(cats: seq<string>)
    ensures InFirstAppearanceOrder(FirstSeen(cats), cats)
  {
    if cats != [] {
      var init := cats[..|cats| - 1];
      var last := cats[|cats| - 1];
      FirstSeenOrder(init);
      var keys := FirstSeen(cats);
      var initKeys := FirstSeen(init);
      assert init + [last] == cats;
      forall i, j | 0 <= i < j < |keys|
        ensures keys[i] in cats && keys[j] in cats && IndexOf(cats, keys[i]) < IndexOf(cats, keys[j])
      {
        assert keys[i] == initKeys[i] && keys[i] in init;
        IndexOfExtend(init, last, keys[i]);
        if j < |initKeys| {
          assert keys[j] == initKeys[j] && keys[j] in init;
          IndexOfExtend(init, last, keys[j]);
        } else {
          assert keys[j] == last && last !in init;
          LastFirstIndex(init, last);
        }
      }
    }
  }

  /** An element not in s first occurs in s + [x] at the end. */
  lemma LastFirstIndex(s: seq<string>, x: string)
    requires x !in s
    ensures IndexOf(s + [x], x) == |s|
  {
  }

  lemma {:induction false} IndexOfExtend(s: seq<string>, x: string, c: string)
    requires c in s
    ensures IndexOf(s + [x], c) == IndexOf(s, c)
  {
    if s[0] != c {
      assert (s + [x])[1..] == s[1..] + [x];
      IndexOfExtend(s[1..], x, c);
    }
  }

  /** The sum of the counts of the given keys. */
  function SumCounts(keys: seq<string>, cats: seq<string>): nat
  {
    if keys == [] then 0
    else SumCounts(keys[..|keys| - 1], cats) + Count(cats, keys[|keys| - 1])
  }

  /** The per-category counts add up to the number of articles. */
  lemma {:induction false} CountsSumToLength(cats: seq<string>)
    ensures SumCounts(FirstSeen(cats), cats) == |cats|
  {
    if cats != [] {
      var init := cats[..|cats| - 1];
      var last := cats[|cats| - 1];
      var initKeys := FirstSeen(init);
      CountsSumToLength(init);
      assert init + [last] == cats;
      if last in initKeys {
        SumCountsWith(initKeys, init, last);
      } else {
        SumCountsWithout(initKeys, init, last);
        CountAbsent(init, last);
      }
    }
  }

  lemma {:induction false} SumCountsWithout(keys: seq<string>, cats: seq<string>, x: string)
    requires x !in keys
    ensures SumCounts(keys, cats + [x]) == SumCounts(keys, cats)
  {
    if keys != [] {
      SumCountsWithout(keys[..|keys| - 1], cats, x);
      assert (cats + [x])[..|cats|] == cats;
    }
  }

  lemma {:induction false} SumCountsWith(keys: seq<string>, cats: seq<string>, x: string)
    requires x in keys && NoDuplicates(keys)
    ensures SumCounts(keys, cats + [x]) == SumCounts(keys, cats) + 1
  {
    var init := keys[..|keys| - 1];
    var last := keys[|keys| - 1];
    assert (cats + [x])[..|cats|] == cats;
    if last == x {
      assert x !in init;
      SumCountsWithout(init, cats, x);
    } else {
      assert x in init;
      SumCountsWith(init, cats, x);
    }
  }

  /** The sum of the numbers on a list of pills. */
  function SumPills(pills: seq<Pill>): nat
  {
    if pills == [] then 0 else SumPills(pills[..|pills| - 1]) + pills[|pills| - 1].count
  }

  /** The numbers on the category pills add up to the number on the "all" pill. */
  lemma PillCountsSum(articles: seq<ArticleData>, allLabel: string)
    ensures SumPills(CategoryCounts(articles, allLabel)[1..]) == CategoryCounts(articles, allLabel)[0].count
  {
    var cats := Categories(articles);
    var keys := FirstSeen(cats);
    var pills := CategoryCounts(articles, allLabel);
    assert pills[1..] == seq(|keys|, i requires 0 <= i < |keys| => Pill(keys[i], Count(cats, keys[i])));
    SumPillsOfKeys(keys, cats);
    CountsSumToLength(cats);
  }

  /** Summing the pills of some keys is summing the keys' counts. */
  lemma {:induction false} SumPillsOfKeys(keys: seq<string>, cats: seq<string>)
    ensures SumPills(seq(|keys|, i requires 0 <= i < |keys| => Pill(keys[i], Count(cats, keys[i]))))
         == SumCounts(keys, cats)
  {
    if keys != [] {
      var n := |keys|;
      var pills := seq(n, i requires 0 <= i < n => Pill(keys[i], Count(cats, keys[i])));
      var init := keys[..n - 1];
      assert pills[..n - 1] == seq(n - 1, i requires 0 <= i < n - 1 => Pill(init[i], Count(cats, init[i])));
      SumPillsOfKeys(init, cats);
    }
  }

  /** The articles whose category is c, in listing order (`Array.prototype.filter`). */
  function FilterCategory(articles: seq<ArticleData>, c: string): seq<ArticleData>
  {
    if articles == [] then []
    else
      var init := FilterCategory(articles[..|articles| - 1], c);
      if articles[|articles| - 1].category == c then init + [articles[|articles| - 1]] else init
  }

  /** The articles shown for the active category: all of them for the "all" pill. */
  function Filtered(articles: seq<ArticleData>, active: string, allLabel: string): seq<ArticleData>
  {
    if active == allLabel then articles else FilterCategory(articles, active)
  }

  /** Filtering keeps order: filtering a concatenation concatenates the filtered parts. */
  lemma {:induction false} FilterAppend(a: seq<ArticleData>, b: seq<ArticleData>, c: string)
    ensures FilterCategory(a + b, c) == FilterCategory(a, c) + FilterCategory(b, c)
    decreases |b|
  {
    if b == [] {
      assert a + b == a;
    } else {
      var b' := b[..|b| - 1];
      assert (a + b)[..|a + b| - 1] == a + b';
      assert (a + b)[|a + b| - 1] == b[|b| - 1];
      FilterAppend(a, b', c);
    }
  }

  /** The filter keeps exactly the articles of the category, and as many as the category's count. */
  lemma {:induction false} FilterContents(articles: seq<ArticleData>, c: string)
    ensures forall x :: x in FilterCategory(articles, c) <==> x in articles && x.category == c
    ensures |FilterCategory(articles, c)| == Count(Categories(articles), c)
  {
    if articles != [] {
      var init := articles[..|articles| - 1];
      FilterContents(init, c);
      assert Categories(articles)[..|articles| - 1] == Categories(init);
      assert forall x :: x in articles <==> x in init || x == articles[|articles| - 1];
    }
  }

  /**
   * When no article's category is the "all" label, the number on each pill is
   * the number of articles shown after clicking it.
   */
  lemma PillCountMatchesFilter(articles: seq<ArticleData>, allLabel: string, i: nat)
    requires forall a :: a in articles ==> a.category != allLabel
    requires i < |CategoryCounts(articles, allLabel)|
    ensures var pill := CategoryCounts(articles, allLabel)[i];
      |Filtered(articles, pill.category, allLabel)| == pill.count
  {
    var pills := CategoryCounts(articles, allLabel);
    if i > 0 {
      var keys := FirstSeen(Categories(articles));
      assert pills[i] == Pill(keys[i - 1], Count(Categories(articles), keys[i - 1]));
      var n := IndexOf(Categories(articles), keys[i - 1]);
      assert articles[n] in articles;
      FilterContents(articles, keys[i - 1]);
    }
  }

  /** What the grid renders: nothing, or a featured article followed by the rest. */
  datatype GridView = Nothing | Featured(featured: ArticleData, rest: seq<ArticleData>)

  /** Nothing for an empty filtered list; otherwise its head is featured and its tail is the rest. */
  function Layout(filtered: seq<ArticleData>): (view: GridView)
    ensures view.Nothing? <==> filtered == []
    ensures view.Featured? ==> [view.featured] + view.rest == filtered
  {
    if filtered == [] then Nothing else Featured(filtered[0], filtered[1..])
  }

  /** The component's state: the props it was given and the active category. */
  class Grid {
    const articles: seq<ArticleData>
    const allLabel: string
    var activeCategory: string

    /** The active category is always one a pill offers. */
    predicate Valid()
      reads this
    {
      exists i :: 0 <= i < |CategoryCounts(articles, allLabel)|
        && CategoryCounts(articles, allLabel)[i].category == activeCategory
    }

    /** The grid starts on the "all" pill, showing every article. */
    constructor (articles: seq<ArticleData>, allLabel: string)
      ensures this.articles == articles && this.allLabel == allLabel
      ensures activeCategory == allLabel
      ensures Shown() == articles
      ensures Valid()
    {
      this.articles := articles;
      this.allLabel := allLabel;
      activeCategory := allLabel;
      new;
      assert CategoryCounts(articles, allLabel)[0].category == allLabel;
    }

    function Shown(): seq<ArticleData>
      reads this
    {
      Filtered(articles, activeCategory, allLabel)
    }

    /**
     * In a valid state the active category is some pill's, and, when no
     * article's category is the "all" label, the grid shows as many articles
     * as that pill says.
     */
    lemma ShownMatchesActivePill()
      requires Valid()
      ensures exists i :: (0 <= i < |CategoryCounts(articles, allLabel)|
        && CategoryCounts(articles, allLabel)[i].category == activeCategory
        && ((forall a :: a in articles ==> a.category != allLabel)
              ==> |Shown()| == CategoryCounts(articles, allLabel)[i].count))
    {
      var i :| 0 <= i < |CategoryCounts(articles, allLabel)|
        && CategoryCounts(articles, allLabel)[i].category == activeCategory;
      if forall a :: a in articles ==> a.category != allLabel {
        PillCountMatchesFilter(articles, allLabel, i);
      }
    }

    function View(): GridView
      reads this
    {
      Layout(Shown())
    }

    /** Clicking pill i makes its category active; the grid then shows as many articles as the pill says. */
    method SelectPill(i: nat)
      requires i < |CategoryCounts(articles, allLabel)|
      modifies this
      ensures activeCategory == CategoryCounts(articles, allLabel)[i].category
      ensures Valid()
      ensures (forall a :: a in articles ==> a.category != allLabel)
        ==> |Shown()| == CategoryCounts(articles, allLabel)[i].count
    {
      activeCategory := CategoryCounts(articles, allLabel)[i].category;
      if forall a :: a in articles ==> a.category != allLabel {
        PillCountMatchesFilter(articles, allLabel, i);
      }
    }
  }
}
