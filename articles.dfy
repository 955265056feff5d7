/**
 * The shared article registry: the article slugs, the image assigned to each
 * article, and the image lookup with its fallback and optional absolute-URL
 * prefix (lib/articles.ts).
 */
module Articles {
  import opened Wrappers

  /** The slugs of all published articles, in publication order. */
  const ArticleSlugs: seq<string> := [
    "what-is-stem-cell-therapy",
    "does-stem-cell-therapy-work",
    "stem-cell-therapy-for-joint-pain",
    "stem-cell-therapy-vs-surgery",
    "stem-cell-therapy-recovery-time",
    "stem-cell-therapy-cost",
    "stem-cell-therapy-japan-safety",
    "stem-cell-therapy-results-timeline",
    "anti-aging-stem-cell-therapy-tokyo",
    "cpc-cell-processing-center-japan",
    "azabudai-hills-stem-table",
    "knee-osteoarthritis-stem-cells-tokyo",
    "adipose-vs-bone-marrow-stem-cells",
    "conditions-stem-cell-therapy",
    "stem-cell-therapy-exclusions",
    "culture-supernatant-explained",
    "best-stem-cell-clinics-tokyo",
    "stem-cell-therapy-cost-tokyo",
    "medical-tourism-tokyo-stem-cell",
    "stem-cell-therapy-legal-japan",
    "choose-safe-stem-cell-clinic-tokyo"
  ]

  /** The image of each article, as a path relative to the public directory. */
  const ArticleImages: map<string, string> := map[
    "what-is-stem-cell-therapy" := "/images/facilities/stemcells.webp",
    "does-stem-cell-therapy-work" := "/images/facilities/inverted_microscope.jpg",
    "stem-cell-therapy-for-joint-pain" := "/images/reuseable/4.png",
    "stem-cell-therapy-vs-surgery" := "/images/injection.png",
    "stem-cell-therapy-recovery-time" := "/images/reuseable/2.png",
    "stem-cell-therapy-cost" := "/images/azabudai_hills.png",
    "stem-cell-therapy-japan-safety" := "/images/facilities/biological_safety_cabinet.jpg",
    "stem-cell-therapy-results-timeline" := "/images/facilities/working.gif",
    "anti-aging-stem-cell-therapy-tokyo" := "/images/reuseable/1.png",
    "cpc-cell-processing-center-japan" := "/images/facilities/lab.webp",
    "azabudai-hills-stem-table" := "/images/rakan_entrance.png",
    "knee-osteoarthritis-stem-cells-tokyo" := "/images/reuseable/3.png",
    "adipose-vs-bone-marrow-stem-cells" := "/images/facilities/stemcells.webp",
    "conditions-stem-cell-therapy" := "/images/reuseable/5.png",
    "stem-cell-therapy-exclusions" := "/images/facilities/co2incubator.webp",
    "culture-supernatant-explained" := "/images/facilities/centrifuge.webp",
    "best-stem-cell-clinics-tokyo" := "/images/azabudai_hills.png",
    "stem-cell-therapy-cost-tokyo" := "/images/facilities/passbox.jpg",
    "medical-tourism-tokyo-stem-cell" := "/images/azabudai_hills.png",
    "stem-cell-therapy-legal-japan" := "/images/rakan_entrance.png",
    "choose-safe-stem-cell-clinic-tokyo" := "/images/facilities/lab.webp"
  ]

  /** The image used for an article without an entry of its own. */
  const DefaultArticleImage: string := "/images/facilities/lab.webp"

  /**
   * The image path of an article: its own image when it has a non-empty one,
   * the default image otherwise (an empty mapped path is falsy and falls back too).
   */
  function ImagePath(slug: string): (path: string)
    ensures slug in ArticleImages && ArticleImages[slug] != "" ==> path == ArticleImages[slug]
    ensures slug !in ArticleImages ==> path == DefaultArticleImage
    ensures path != ""
  {
    if slug in ArticleImages && ArticleImages[slug] != "" then ArticleImages[slug]
    else DefaultArticleImage
  }

  /**
   * The image of an article as the page uses it: prefixed with the base URL
   * when one is given and non-empty, the bare path otherwise.
   */
  function GetArticleImage(slug: string, baseUrl: Option<string>): (image: string)
    ensures baseUrl.Some? && baseUrl.value != "" ==> image == baseUrl.value + ImagePath(slug)
    ensures baseUrl.None? || baseUrl.value == "" ==> image == ImagePath(slug)
  {
    if baseUrl.Some? && baseUrl.value != "" then baseUrl.value + ImagePath(slug)
    else ImagePath(slug)
  }

  /**
   * Whatever the base URL, the image of an article ends with its image path,
   * and the part before it is the base URL or nothing.
   */
  lemma GetArticleImageSplits(slug: string, baseUrl: Option<string>)
    ensures var image, path := GetArticleImage(slug, baseUrl), ImagePath(slug);
      |path| <= |image| && image[|image| - |path|..] == path &&
      image[..|image| - |path|] == (if baseUrl.Some? then baseUrl.value else "")
  {
    var image, path := GetArticleImage(slug, baseUrl), ImagePath(slug);
    if baseUrl.Some? && baseUrl.value != "" {
      assert image == baseUrl.value + path;
      assert image[|baseUrl.value|..] == path;
      assert image[..|baseUrl.value|] == baseUrl.value;
    }
  }

  /**
   * Every registered article has its own image, so the fallback is never used
   * for a registered slug; and every image entry belongs to a registered slug.
   */
  lemma RegisteredSlugsHaveImages()
    ensures forall s :: s in ArticleSlugs ==> s in ArticleImages && ArticleImages[s] != ""
    ensures forall s :: s in ArticleImages ==> s in ArticleSlugs
  {
  }

  /** A registered slug gets its own image, never the fallback. */
  lemma RegisteredImage(slug: string)
    requires slug in ArticleSlugs
    ensures ImagePath(slug) == ArticleImages[slug]
  {
    RegisteredSlugsHaveImages();
  }

  /** No slug is registered twice. */
  lemma ArticleSlugsDistinct()
    ensures forall i, j :: 0 <= i < j < |ArticleSlugs| ==> ArticleSlugs[i] != ArticleSlugs[j]
  {
  }
}
