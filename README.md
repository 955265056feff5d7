# Rakan Clinic global site: a verified model of its logic

The site is a multilingual Next.js application for a Tokyo clinic. Most of it
is markup. What it computes lives in a few small routines, and this project
models each one in Dafny and proves what it promises:

- **Sitemap** (`sitemap.dfy`, from `app/sitemap.ts`). There is one entry per
  page and locale: the four main pages first, then the 21 articles, each
  page's entries in locale order. Every entry has a map of alternate URLs
  with one key per locale plus `x-default`. The builder is modelled as the
  nested push loops it is, and is proved against a specification function. The
  proofs cover the count (200), each entry's position and contents, the
  alternates map's size, and the consistency of one page's entries.
- **Locales** (`i18n.dfy`, from `i18n.ts`): the eight locales, their display
  names, and the fallback of an unsupported or missing request locale to `en`.
- **Article images** (`articles.dfy`, from `lib/articles.ts`): the slug
  registry, the image table with its default, and the optional base-URL prefix.
- **Language switcher** (`language_switcher.dfy`, from
  `components/LanguageSwitcher.tsx`). The path is split on `/`, the array's
  segment 1 is overwritten in place, and the segments are joined again. The
  model has JavaScript's `split` and `join` with both round trips. It also
  covers the one-segment path, where writing index 1 appends.
- **Contact endpoint** (`contact_route.dfy`, from `app/api/contact/route.ts`).
  - The required-field check, then the email pattern `^[^\s@]+@[^\s@]+\.[^\s@]+$`, then the store, each with its status code.
  - The pattern is a deterministic automaton. It is proved equal to the pattern's language, stated with explicit split points, and to a plain description of an acceptable address.
  - `\s` is ECMAScript's whitespace set.
- **Article grid** (`articles_grid.dfy`, from `components/ArticlesGrid.tsx`).
  - The per-category counts, computed as the source does: an insertion-ordered map filled in a loop.
  - The filter for the active category, and the split into a featured article and the rest.
  - The component's active-category state.
- **Contact form** (`contact_form.dfy`, from `components/ContactForm.tsx`).
  - The form state as a class, and its handlers.
  - The 48-entry country table.
  - The posted payload and its link to the endpoint's required-field check.
  - The reset after a successful submission.
- **Hero carousel** (`hero_carousel.dfy`, from `components/HeroCarousel.tsx`).
  - The slide list chosen by locale, and the modular timer tick.
  - The indicator jump, and the single visible slide.

The environment, the request body and the store's answer are parameters.
This covers `NEXT_PUBLIC_SITE_URL`, the two store variables, the parsed JSON,
the insert result and the response of the form's `fetch`.

In `app/sitemap.ts` every article row carries its own date; there is no
fallback date.

## Model

| member | source | states |
|---|---|---|
| I18n.ResolveLocale | i18n.ts:24-27 | The resolved locale is always supported. A supported requested locale is kept. An absent, empty or unsupported one becomes `en`. |
| I18n.DefaultLocaleSupported | i18n.ts:4-18 | The default locale `en` is one of the supported locales (the first). |
| I18n.LocaleNamesTotal | i18n.ts:7-16 | Every supported locale has a non-empty display name, and only supported locales have one. |
| I18n.ResolveLocaleIdempotent | i18n.ts:25-27 | Resolving an already resolved locale gives the same locale. |
| I18n.LocalesWellFormed | i18n.ts:4 | The locales are distinct and non-empty. None contains `/`, and none is the reserved key `x-default`. |
| Articles.ImagePath | lib/articles.ts:59 | A slug with a non-empty table entry gets that path. An unknown slug gets `/images/facilities/lab.webp`. The path is never empty. |
| Articles.GetArticleImage | lib/articles.ts:58-61 | A non-empty base URL is prefixed to the image path. Without one, the bare path is returned. |
| Articles.GetArticleImageSplits | lib/articles.ts:60 | Every result ends with the image path, and what precedes it is the base URL or nothing. |
| Articles.RegisteredSlugsHaveImages | lib/articles.ts:3-52 | Every registered slug has its own non-empty image entry, and every entry belongs to a registered slug. |
| Articles.RegisteredImage | lib/articles.ts:59 | For a registered slug, the default image is never used. |
| Articles.ArticleSlugsDistinct | lib/articles.ts:3-25 | No slug is registered twice. |
| Sitemap.Alternates | app/sitemap.ts:70-77 | The `alternates.languages` object of a path: each locale mapped to its URL, then `x-default` mapped to the `en` URL. Its contents are stated by AlternatesContents and AlternatesSize. |
| Sitemap.Entry | app/sitemap.ts:65-78 | The entry pushed for one route in one locale: the localized URL, the route's date, frequency and priority, and the route's alternates. BlockConsistent and SitemapLayout state what the entries hold. |
| Sitemap.Block | app/sitemap.ts:64-79 | One entry per locale, in locale order, for one route; the inner `locales.forEach`. PageEntries places it in the sitemap. |
| Sitemap.Entries | app/sitemap.ts:63-100 | The blocks of the routes in route order, the specification the push loops are proved against. Its shape is stated by EntriesLength, EntriesAt and EntriesAppend. |
| Sitemap.SiteBaseUrl | app/sitemap.ts:58 | The base URL is the configured one when non-empty, and `https://global.rakanclinic-tokyo.jp` otherwise. |
| Sitemap.AlternatesContents | app/sitemap.ts:70-77 | The alternates keys are the locales plus `x-default`. Each locale maps to its URL of the same page (`base/locale` + path), and `x-default` maps to the `en` URL. |
| Sitemap.EntriesLength | app/sitemap.ts:63-100 | Each page contributes one entry per locale. |
| Sitemap.EntriesAt | app/sitemap.ts:63-66 | The entry of page p in locale l sits at index p·\|locales\| + l. It has that locale's URL and the page's metadata. |
| Sitemap.PageEntries | app/sitemap.ts:64-79 | The entries of page p form one contiguous run, in locale order. |
| Sitemap.AlternatesSize | app/sitemap.ts:71-76 | With distinct locales, none of them `x-default`, each alternates map has exactly \|locales\| + 1 keys. |
| Sitemap.BlockConsistent | app/sitemap.ts:72-75 | All entries of a page share one alternates map. Its non-`x-default` values are exactly the URLs of those entries. Its `x-default` is the URL of the `en` entry. |
| Sitemap.EntriesAlternatesSize | app/sitemap.ts:91-96 | Every emitted entry has an alternates map of \|locales\| + 1 keys. |
| Sitemap.EntriesAppend | app/sitemap.ts:60-100 | Emitting one list of pages and then another gives the entries of the joined list. |
| Sitemap.SitemapLayout | app/sitemap.ts:63-100 | There are (\|mainPages\| + \|articles\|)·\|locales\| entries. The main pages' entries come first and copy the row's frequency, priority and date. The articles follow with `/articles/slug`, yearly, 0.7 and the article's date. |
| Sitemap.PushMainPageEntries | app/sitemap.ts:63-80 | The main-page loops append exactly the specified entries of the main pages, in page-then-locale order. |
| Sitemap.PushArticleEntries | app/sitemap.ts:83-100 | The article loops append exactly the specified entries of the articles, in article-then-locale order. |
| Sitemap.BuildSitemap | app/sitemap.ts:60-100 | The built list equals the specification function. It has the entry count, and every main-page and article entry sits at its computed index. |
| Sitemap.SiteSitemap | app/sitemap.ts:57-100 | The site's own sitemap has 200 entries, and each entry has 9 alternates. |
| Sitemap.SitemapArticlesMatchRegistry | app/sitemap.ts:5-27 | The sitemap's article table lists the registry's slugs in the registry's order. |
| LanguageSwitcher.Split | components/LanguageSwitcher.tsx:11 | Splitting gives one more piece than there are separators, and no piece contains the separator. |
| LanguageSwitcher.Join | components/LanguageSwitcher.tsx:13 | `join('/')`: the parts with one separator between neighbours. JoinSplit and SplitJoin make it the inverse of Split. |
| LanguageSwitcher.SwitchedPath | components/LanguageSwitcher.tsx:11-13 | The path the switcher pushes: split, segment 1 replaced, joined. SwitchedSegments, SwitchTwice, SwitchToCurrent and SwitchToSupportedLocale describe it. |
| LanguageSwitcher.JoinSplit | components/LanguageSwitcher.tsx:11-13 | Joining the pieces of a split gives back the path. |
| LanguageSwitcher.SplitJoin | components/LanguageSwitcher.tsx:11-13 | Splitting a join of separator-free pieces gives back the pieces. |
| LanguageSwitcher.Relocalized | components/LanguageSwitcher.tsx:12 | Segment 1 becomes the locale and every other segment is kept. A one-segment path grows to two segments. |
| LanguageSwitcher.ChangeLocale | components/LanguageSwitcher.tsx:10-15 | The in-place rewrite yields the specified path. Its segment 1 is the new locale, and every other segment is the old one. The segment count is kept when the path has a `/`. |
| LanguageSwitcher.SwitchedSegments | components/LanguageSwitcher.tsx:11-13 | The new path's segments are the old ones, with the locale at index 1. |
| LanguageSwitcher.SwitchTwice | components/LanguageSwitcher.tsx:12 | Switching to A and then to B gives the same path as switching straight to B. |
| LanguageSwitcher.SwitchToCurrent | components/LanguageSwitcher.tsx:11-13 | Switching to the locale already at segment 1 leaves the path unchanged. |
| LanguageSwitcher.SwitchToSupportedLocale | components/LanguageSwitcher.tsx:10-13 | Any supported locale lands as segment 1 with the other segments kept. |
| ContactRoute.Step | app/api/contact/route.ts:17 | One transition of the automaton for `^[^\s@]+@[^\s@]+\.[^\s@]+$`: local part, `@`, domain, a `.`, suffix, and a dead state. RunAccepts gives each state's language. |
| ContactRoute.Run | app/api/contact/route.ts:17-18 | The automaton run over a whole string, one character at a time. RunAccepts states what it accepts from each state. |
| ContactRoute.EmailMatches | app/api/contact/route.ts:17-18 | `emailRegex.test(email)`: the run from the start state ends in the accepting state. EmailMatchesPattern and EmailMatchesWellFormed state which strings pass. |
| ContactRoute.RunAccepts | app/api/contact/route.ts:17 | From each automaton state, the accepting state is reached exactly on the inputs that state's part of the pattern accepts. |
| ContactRoute.EmailMatchesPattern | app/api/contact/route.ts:17-18 | The test accepts exactly the strings that split as local@domain.suffix, each part a non-empty run of characters other than `@` and whitespace. |
| ContactRoute.EmailMatchesWellFormed | app/api/contact/route.ts:17-18 | The test accepts exactly the strings with no whitespace and exactly one `@`, at a position after the first character, with a `.` after the `@` that has a character on each side. |
| ContactRoute.ToRow | app/api/contact/route.ts:29-37 | The inserted row has exactly the seven snake_case columns. |
| ContactRoute.RowRoundTrip | app/api/contact/route.ts:29-37 | Every request field is read back unchanged from its column. |
| ContactRoute.InsertedRow | app/api/contact/route.ts:26-38 | A row is inserted exactly when the body parsed, the request is valid and both store variables are set. |
| ContactRoute.InsertedRowHoldsRequest | app/api/contact/route.ts:29-37 | The inserted row holds every field of the posted request. |
| ContactRoute.Post | app/api/contact/route.ts:4-73 | The status is always 200, 400 or 500, and 200 exactly when the body is the success message. The branches are 500 for an unparsed body, 400 for a missing field, 400 for a bad email, 500 for a store failure or throw, else 200; MissingFieldsRejected through SuccessMeansAccepted state each of them. |
| ContactRoute.MissingFieldsRejected | app/api/contact/route.ts:9-14 | The answer is 400 `Missing required fields` exactly when one of the five required fields is absent or empty, whatever the email. |
| ContactRoute.InvalidEmailRejected | app/api/contact/route.ts:16-23 | The answer is 400 `Invalid email format` exactly when the required fields are present and the email is not well formed. |
| ContactRoute.BadRequestExactly | app/api/contact/route.ts:9-23 | Status 400 is given exactly to a parsed request that fails validation. |
| ContactRoute.ValidOutcome | app/api/contact/route.ts:26-65 | A valid request gets 200 when the store is unconfigured or saves the row. It gets 500 when a configured store fails or throws. |
| ContactRoute.OptionalFieldsIgnored | app/api/contact/route.ts:9 | `countryCode` and `submittedAt` never change the answer. |
| ContactRoute.StoreOnlyWhenInserted | app/api/contact/route.ts:26-60 | When nothing is inserted, the store's behaviour cannot change the answer. |
| ContactRoute.SuccessMeansAccepted | app/api/contact/route.ts:9-65 | Status 200 means the request parsed and was valid, and was saved whenever a row was inserted. |
| ArticlesGrid.FirstSeen | components/ArticlesGrid.tsx:26-29 | The map's keys are the distinct categories, each once and from the articles. |
| ArticlesGrid.CategoryCounts | components/ArticlesGrid.tsx:28 | The first pill is (all label, number of articles), followed by one pill per distinct category. |
| ArticlesGrid.CountCategories | components/ArticlesGrid.tsx:26-27 | The counting loop leaves the map's key order as first-seen order, and each key's value as that category's count. |
| ArticlesGrid.TallyStep | components/ArticlesGrid.tsx:27 | One `countMap.set(cat, (get(cat) \|\| 0) + 1)` keeps the map equal to the counts of the articles seen so far. |
| ArticlesGrid.CategoriesWithCounts | components/ArticlesGrid.tsx:25-31 | The loops compute exactly the specified pill list. |
| ArticlesGrid.FirstSeenOrder | components/ArticlesGrid.tsx:26-29 | Categories are listed in order of first appearance. |
| ArticlesGrid.PillsCoverCategories | components/ArticlesGrid.tsx:26-29 | Every article's category has a pill. No category has two pills, and each count is positive. |
| ArticlesGrid.CountsSumToLength | components/ArticlesGrid.tsx:27-28 | The per-category counts add up to the number of articles. |
| ArticlesGrid.PillCountsSum | components/ArticlesGrid.tsx:27-28 | The numbers on the pills after the first add up to the number on the first (all) pill. |
| ArticlesGrid.Grid.ShownMatchesActivePill | components/ArticlesGrid.tsx:33-54 | In a valid state the active category is a pill's. When no article's category is the all label, the grid shows as many articles as that pill's number. |
| ArticlesGrid.FilterCategory | components/ArticlesGrid.tsx:39 | `articles.filter((a) => a.category === activeCategory)`. FilterAppend and FilterContents state that it keeps order and exactly the category's articles. |
| ArticlesGrid.Filtered | components/ArticlesGrid.tsx:35-41 | All articles for the all pill, otherwise the category's filter. PillCountMatchesFilter ties its length to the pill numbers. |
| ArticlesGrid.FilterAppend | components/ArticlesGrid.tsx:39 | Filtering preserves order: the filter of a concatenation is the concatenation of the filters. |
| ArticlesGrid.FilterContents | components/ArticlesGrid.tsx:39 | The filter keeps exactly the articles of the category, and as many as the category's count. |
| ArticlesGrid.PillCountMatchesFilter | components/ArticlesGrid.tsx:27-54 | When no article's category is the all label, each pill's number is the count of articles shown after clicking it. |
| ArticlesGrid.Layout | components/ArticlesGrid.tsx:43-45 | Nothing is rendered exactly for an empty list. Otherwise the featured article followed by the rest is the filtered list. |
| ArticlesGrid.Grid.constructor | components/ArticlesGrid.tsx:33 | The grid starts on the all label and shows every article. |
| ArticlesGrid.Grid.SelectPill | components/ArticlesGrid.tsx:51-54 | Clicking a pill activates its category. If no article is in the all label's category, the shown count equals the pill's number. |
| ContactForm.WithInput | components/ContactForm.tsx:82-88 | The named input takes the value. Every other input and the country code are unchanged. |
| ContactForm.WithInputRestore | components/ContactForm.tsx:82-88 | Typing a value and then restoring the old one gives back the same form. |
| ContactForm.PayloadOf | components/ContactForm.tsx:109-113 | The payload's phone is the country code, a space and the number. Every other field is copied. |
| ContactForm.PhoneRecoverable | components/ContactForm.tsx:111 | The typed number and the country code can be read back from the payload's phone. |
| ContactForm.FormPassesRequiredCheck | components/ContactForm.tsx:109-113 | The endpoint's required-field check accepts the payload exactly when name, email and message are filled in. The composed phone is never empty. |
| ContactForm.CountryCodesDistinct | components/ContactForm.tsx:7-56 | The 48 country codes are pairwise distinct, so they can serve as list keys. |
| ContactForm.InitialCountry | components/ContactForm.tsx:69-80 | The table has 48 entries, and the first code is `+1`, which is the initial form's code. All initial inputs are empty. |
| ContactForm.Form.constructor | components/ContactForm.tsx:69-80 | The form starts with nothing sending, submitted or open, the first country, and the initial data. |
| ContactForm.Form.HandleInputChange | components/ContactForm.tsx:82-88 | Only the named input changes, and the country invariant is kept. |
| ContactForm.Form.HandleCountrySelect | components/ContactForm.tsx:90-97 | The country is shown, its code is taken, and the dropdown closes. The inputs are unchanged. |
| ContactForm.Form.ToggleDropdown | components/ContactForm.tsx:224 | The dropdown flips and nothing else changes. |
| ContactForm.Form.BeginSubmit | components/ContactForm.tsx:99-113 | The form is marked as sending, and the payload is composed from the current data. |
| ContactForm.Form.FinishSubmit | components/ContactForm.tsx:116-135 | On success the form is reset with the thank-you view shown. On failure everything is kept. Sending ends either way. |
| ContactForm.Form.SubmitAnother | components/ContactForm.tsx:153 | The thank-you view is left, and the form data stays as it is. |
| HeroCarousel.SlidesFor | components/HeroCarousel.tsx:54 | `ja` gets the Japanese slides, and any other locale the English ones. There are always three slides. |
| HeroCarousel.SlideListsAligned | components/HeroCarousel.tsx:8-47 | Both lists have the same length and the same pictures in the same order. |
| HeroCarousel.NextIndex | components/HeroCarousel.tsx:58 | A tick moves to the next slide and wraps from the last slide to the first. The index stays in range. |
| HeroCarousel.AfterTicksRotates | components/HeroCarousel.tsx:56-59 | k ticks move k slides forward, modulo the number of slides. |
| HeroCarousel.FullCycle | components/HeroCarousel.tsx:58 | After as many ticks as there are slides, the carousel is back where it started. |
| HeroCarousel.Visibility | components/HeroCarousel.tsx:92-95 | A slide is visible exactly when its position is the current one. |
| HeroCarousel.ExactlyOneVisible | components/HeroCarousel.tsx:92-95 | Exactly one slide is visible. |
| HeroCarousel.Carousel.constructor | components/HeroCarousel.tsx:51-54 | The carousel starts on the first slide of the locale's list. |
| HeroCarousel.Carousel.Tick | components/HeroCarousel.tsx:56-58 | The index advances modulo the length, and the list is unchanged. |
| HeroCarousel.Carousel.SelectIndicator | components/HeroCarousel.tsx:145-148 | The index becomes the clicked indicator's position, which is in range. |
| HeroCarousel.Carousel.ChangeLocale | components/HeroCarousel.tsx:53-54 | Under another locale the index stays valid and shows the same picture. |

## Left out

- Network, database and logging: `fetch`, the store insert, `console.*`, `alert` and `router.push`. Their results are inputs (the insert outcome and the form's `ok` flag), and navigation is the computed path.
- Environment and files: `process.env` values are parameters. The dynamic import of the message files in `i18n.ts` is I/O.
- Timers and the DOM: `setInterval` becomes an explicit tick. The scroll listener, the parallax offset (floating point) and `scrollIntoView` are not modelled.
- Dates: `new Date(...)` in the sitemap and `toISOString()` in the form are opaque strings. Sitemap priorities are whole tenths, so 0.7 is 7.
- Sitemap.Alternates: the map records keys and values but not the key order of the JavaScript object.
- Articles.ImagePath: the lookup sees only the table's own keys. A slug naming an inherited `Object.prototype` member (such as `constructor`) is treated as absent, unlike JavaScript.
- HeroCarousel.Carousel.ChangeLocale: models a re-render with a new locale prop that keeps the same carousel instance. The language switcher instead navigates to another page, which mounts a new carousel at index 0.
- HeroCarousel.SlidesFor: inherited object keys are likewise not treated as locales. The locale always comes from the supported list.
- ContactRoute.Post: non-string JSON values (numbers, booleans, nested objects) are not modelled; each field is an optional string, and the empty string counts as missing. A body that does not parse, or parses to `null`, is the `None` body that gets the 500 answer.
- ContactRoute.EmailMatches: the pattern works on UTF-16 code units, the model on Unicode scalar values. For this pattern the two give the same verdict, since both halves of a surrogate pair match `[^\s@]`, but this is argued, not proved.
- ContactForm.Form: the browser's own constraint checks (`required`, `type="email"`) are not modelled.
- The React render cycle is not modelled: batched state updates, re-rendering, styling class strings and markup.
- `Split` is JavaScript's `split` for a one-character separator only. That is the only form the switcher uses.
- The article page's block classifier (`app/[locale]/articles/[slug]/page.tsx:152-185`), which groups body lines into headings, paragraphs and lists, is not modelled.
- The markup-only components are not part of this model: `Header`, `ClientSlideshow`, `PatientDemographics`, `TreatmentGoalsMobile`, `DoctorsMobile`, `DoctorsDesktop` and the page files.
