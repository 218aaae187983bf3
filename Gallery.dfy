/**
 * The home page's image carousel (`Gallery.tsx`): an index that a
 * five-second timer advances cyclically and that the dots below the image
 * set directly.
 */
module Gallery {
  /** One carousel image: its source and its alternative text. */
  datatype Slide = Slide(src: string, alt: string)

  /** The four images, in the order they are shown. */
  const Slides: seq<Slide> := [
    Slide("gallery-1.jpg", "3D Printed Parts Collection"),
    Slide("gallery-2.jpg", "Precision 3D Printing"),
    Slide("gallery-3.jpg", "Various 3D Printed Prototypes"),
    Slide("gallery-4.jpg", "3D Printing Laboratory")]

  /** One tick of the timer: `(prev + 1) % images.length`. */
  function Advance(index: nat, length: nat): (next: nat)
    requires length > 0
    ensures next < length
    ensures index + 1 < length ==> next == index + 1
    ensures index + 1 == length ==> next == 0
  {
    (index + 1) % length
  }

  /** The index after n ticks. */
  function AfterTicks(index: nat, length: nat, n: nat): nat
    requires length > 0
  {
    if n == 0 then index else Advance(AfterTicks(index, length, n - 1), length)
  }

  /** Division with remainder is unique. */
  lemma ModUnique(a: int, m: int, q: int, r: int)
    requires m > 0 && 0 <= r < m && a == q * m + r
    ensures a % m == r
  {
    var d := q - a / m;
    assert d * m == a % m - r;
    if d >= 1 {
      assert false;
    } else if d <= -1 {
      assert false;
    }
  }

  lemma ModSucc(a: nat, m: nat)
    requires m > 0
    ensures (a % m + 1) % m == (a + 1) % m
  {
    var p, q := a % m, a / m;
    assert a == q * m + p;
    if p + 1 < m {
      ModUnique(p + 1, m, 0, p + 1);
      ModUnique(a + 1, m, q, p + 1);
    } else {
      ModUnique(p + 1, m, 1, 0);
      ModUnique(a + 1, m, q + 1, 0);
    }
  }

  /** n ticks move an index in range n places on, modulo the number of images. */
  lemma {:induction false} AfterTicksIsModular(index: nat, length: nat, n: nat)
    requires length > 0 && index < length
    ensures AfterTicks(index, length, n) == (index + n) % length
  {
    if n > 0 {
      AfterTicksIsModular(index, length, n - 1);
      ModSucc(index + n - 1, length);
    }
  }

  /** After as many ticks as there are images the carousel is back where it began. */
  lemma FullCycle(index: nat, length: nat)
    requires length > 0 && index < length
    ensures AfterTicks(index, length, length) == index
  {
    AfterTicksIsModular(index, length, length);
    ModUnique(index + length, length, 1, index);
  }

  /** The carousel's state. */
  class Carousel {
    const images: seq<Slide>
    var currentIndex: nat

    ghost predicate Valid()
      reads this
    {
      currentIndex < |images|
    }

    /** `useState(0)` over the four images. */
    constructor ()
      ensures Valid() && images == Slides && currentIndex == 0
    {
      images := Slides;
      currentIndex := 0;
    }

    /** The image on screen: `images[currentIndex]`. */
    function Shown(): (slide: Slide)
      requires Valid()
      reads this
      ensures slide in images
    {
      images[currentIndex]
    }

    /** Whether dot k is drawn as the active one. */
    function DotActive(k: nat): bool
      reads this
    {
      k == currentIndex
    }

    /** The timer's callback. */
    method Tick()
      requires Valid()
      modifies this
      ensures Valid()
      ensures currentIndex == Advance(old(currentIndex), |images|)
    {
      currentIndex := (currentIndex + 1) % |images|;
    }

    /** Clicking dot k; there is one dot per image. */
    method SelectDot(k: nat)
      requires Valid() && k < |images|
      modifies this
      ensures Valid()
      ensures currentIndex == k && Shown() == images[k]
      ensures forall j :: DotActive(j) <==> j == k
    {
      currentIndex := k;
    }
  }
}
