/**
 * The home page's hero carousel (components/HeroCarousel.tsx): the slide
 * list chosen by locale, the timer tick that advances the current slide,
 * and the indicator buttons that jump to a slide. Time is not modelled: a
 * tick is an explicit step.
 */
module HeroCarousel {

  datatype Slide = Slide(src: string, alt: string, title: string, subtitle: string)

  const EnSlides: seq<Slide> := [
    Slide("/images/azabudai_hills.png",
          "Azabudai Hills - Tokyo's Premier Medical District",
          "Tokyo's Premier Medical District",
          "Located in Azabudai Hills, Tokyo's most prestigious international medical hub"),
    Slide("/images/injection.png",
          "Advanced Regenerative Medicine Treatment",
          "A Pain-Free Future with Regenerative Medicine",
          "PRP therapy and shockwave treatment fundamentally improve pain without relying on surgery"),
    Slide("/images/rakan_entrance.png",
          "Rakan Clinic Tokyo - Premium Medical Facility",
          "World-Class Medical Excellence",
          "State-of-the-art facility with JOA-certified specialists and 35+ years of experience")
  ]

  const JaSlides: seq<Slide> := [
    Slide("/images/azabudai_hills.png",
          "Azabudai Hills - Tokyo's Premier Medical District",
          "東京の最高級医療地区",
          "麻布台ヒルズに位置する、東京で最も権威ある国際医療ハブ"),
    Slide("/images/injection.png",
          "Advanced Regenerative Medicine Treatment",
          "つらい関節の痛みに\n再生医療という選択肢を",
          "PRP療法や衝撃波治療で\n手術に頼らず痛みを根本から改善します"),
    Slide("/images/rakan_entrance.png",
          "Rakan Clinic Tokyo - Premium Medical Facility",
          "世界クラスの医療技術",
          "JOA認定専門医と35年以上の経験を持つ最先端施設")
  ]

  /** The slides for a locale: its own list for "en" and "ja", the English list otherwise. */
  function SlidesFor(locale: string): (slides: seq<Slide>)
    ensures locale == "ja" ==> slides == JaSlides
    ensures locale != "ja" ==> slides == EnSlides
    ensures |slides| == 3
  {
    if locale == "en" then EnSlides else if locale == "ja" then JaSlides else EnSlides
  }

  /** Both lists show the same pictures in the same order; only the captions differ. */
  lemma SlideListsAligned()
    ensures |EnSlides| == |JaSlides|
    ensures forall i :: 0 <= i < |EnSlides| ==> EnSlides[i].src == JaSlides[i].src && EnSlides[i].alt == JaSlides[i].alt
  {
  }

  /** `(prev + 1) % images.length`: the next slide, wrapping from the last to the first. */
  function NextIndex(current: nat, length: nat): (next: nat)
    requires length > 0
    ensures next < length
    ensures current + 1 < length ==> next == current + 1
    ensures current + 1 == length ==> next == 0
  {
    (current + 1) % length
  }

  /** The slide after k ticks. */
  function AfterTicks(current: nat, length: nat, k: nat): (index: nat)
    requires length > 0
    ensures index < length || (k == 0 && index == current)
  {
    if k == 0 then current else NextIndex(AfterTicks(current, length, k - 1), length)
  }

  /** From a slide in range, k ticks move k slides forward, modulo the number of slides. */
  lemma {:induction false} AfterTicksRotates(current: nat, length: nat, k: nat)
    requires current < length
    ensures AfterTicks(current, length, k) == (current + k) % length
  {
    if k > 0 {
      AfterTicksRotates(current, length, k - 1);
      ModSuccessor(current + k - 1, length);
    }
  }

  lemma ModSuccessor(a: nat, n: nat)
    requires n > 0
    ensures (a % n + 1) % n == (a + 1) % n
  {
    var q, r := a / n, a % n;
    if r + 1 < n {
      ModUnique(a + 1, n, q, r + 1);
      ModUnique(r + 1, n, 0, r + 1);
    } else {
      ModUnique(a + 1, n, q + 1, 0);
      ModUnique(r + 1, n, 1, 0);
    }
  }

  /** The remainder is determined by any quotient-remainder decomposition. */
  lemma ModUnique(a: int, n: int, q: int, r: int)
    requires n > 0 && 0 <= r < n && a == q * n + r
    ensures a % n == r
  {
    var q0, r0 := a / n, a % n;
    assert (q - q0) * n == r0 - r;
    if q > q0 {
      MulAtLeast(q - q0, n);
    } else if q < q0 {
      MulAtLeast(q0 - q, n);
    }
  }

  lemma MulAtLeast(k: int, n: int)
    requires k >= 1 && n > 0
    ensures k * n >= n
  {
  }

  /** After as many ticks as there are slides the carousel is back where it started. */
  lemma FullCycle(current: nat, length: nat)
    requires current < length
    ensures AfterTicks(current, length, length) == current
  {
    AfterTicksRotates(current, length, length);
    ModUnique(current + length, length, 1, current);
  }

  /** Which slides are shown: exactly the one at the current position. */
  function Visibility(current: nat, length: nat): (shown: seq<bool>)
    ensures |shown| == length
    ensures forall i :: 0 <= i < length ==> (shown[i] <==> i == current)
  {
    seq(length, i requires 0 <= i < length => i == current)
  }

  /** The number of true flags. */
  function CountShown(flags: seq<bool>): nat
  {
    if flags == [] then 0 else (if flags[|flags| - 1] then 1 else 0) + CountShown(flags[..|flags| - 1])
  }

  /** Exactly one slide is visible at a valid position, none at an invalid one. */
  lemma ExactlyOneVisible(current: nat, length: nat)
    ensures CountShown(Visibility(current, length)) == if current < length then 1 else 0
  {
    VisibleCount(current, length, length);
    assert Visibility(current, length)[..length] == Visibility(current, length);
  }

  lemma {:induction false} VisibleCount(current: nat, length: nat, upTo: nat)
    requires upTo <= length
    ensures CountShown(Visibility(current, length)[..upTo]) == if current < upTo then 1 else 0
  {
    if upTo > 0 {
      var shown := Visibility(current, length);
      assert shown[..upTo][..upTo - 1] == shown[..upTo - 1];
      VisibleCount(current, length, upTo - 1);
    } else {
      assert Visibility(current, length)[..0] == [];
    }
  }

  /** The carousel's state: the locale it renders for and the current slide. */
  class Carousel {
    var locale: string
    var images: seq<Slide>
    var currentImage: nat

    predicate Valid()
      reads this
    {
      images == SlidesFor(locale) && currentImage < |images|
    }

    /** The carousel starts on the first slide. */
    constructor (locale: string)
      ensures this.locale == locale && images == SlidesFor(locale)
      ensures currentImage == 0
      ensures Valid()
    {
      this.locale := locale;
      images := SlidesFor(locale);
      currentImage := 0;
    }

    /** The slide whose title and subtitle are shown. */
    function Current(): Slide
      requires Valid()
      reads this
    {
      images[currentImage]
    }

    /** The five-second timer fires. */
    method Tick()
      requires Valid()
      modifies this
      ensures locale == old(locale) && images == old(images)
      ensures Valid()
      ensures currentImage == NextIndex(old(currentImage), |images|)
    {
      currentImage := NextIndex(currentImage, |images|);
    }

    /** An indicator button was clicked; the buttons enumerate the slides, so the position is in range. */
    method SelectIndicator(index: nat)
      requires Valid() && index < |images|
      modifies this
      ensures currentImage == index
      ensures locale == old(locale) && images == old(images)
      ensures Valid()
    {
      currentImage := index;
    }

    /**
     * The same carousel instance re-rendered with another locale prop: the
     * position is kept and stays valid. Switching language through the
     * switcher navigates to another page, which mounts a fresh carousel at
     * index 0 (the constructor); this method covers only a re-render that
     * keeps the instance.
     */
    method ChangeLocale(newLocale: string)
      requires Valid()
      modifies this
      ensures locale == newLocale && images == SlidesFor(newLocale)
      ensures currentImage == old(currentImage)
      ensures Current().src == old(Current().src)
      ensures Valid()
    {
      SlideListsAligned();
      locale := newLocale;
      images := SlidesFor(newLocale);
    }
  }
}
