/**
 * The gallery page (`GalleryPage.tsx`): the number taken from each image's
 * file name, the images sorted by that number, the grid that grows nine
 * images at a time, and the lightbox with its zoom and previous/next
 * navigation.
 */
module GalleryPage {
  import opened Wrappers

  predicate IsDigit(c: char) {
    '0' <= c <= '9'
  }

  predicate AllDigits(ds: string) {
    forall k :: 0 <= k < |ds| ==> IsDigit(ds[k])
  }

  function DigitValue(c: char): nat
    requires IsDigit(c)
  {
    c as int - '0' as int
  }

  /** `parseInt` of a run of decimal digits; leading zeros add nothing. */
  function DigitsValue(ds: string): nat
    requires AllDigits(ds)
  {
    if ds == [] then 0 else DigitsValue(ds[..|ds| - 1]) * 10 + DigitValue(ds[|ds| - 1])
  }

  /** The decimal digits of n, as a template literal writes a number. */
  function Decimal(n: nat): (ds: string)
    ensures |ds| > 0 && AllDigits(ds)
  {
    var last := ('0' as int + n % 10) as char;
    if n < 10 then [last] else Decimal(n / 10) + [last]
  }

  /** Reading back the digits of a number gives the number. */
  lemma {:induction false} DecimalValue(n: nat)
    ensures DigitsValue(Decimal(n)) == n
  {
    var ds := Decimal(n);
    if n < 10 {
      assert ds[..|ds| - 1] == [];
    } else {
      assert ds[..|ds| - 1] == Decimal(n / 10);
      DecimalValue(n / 10);
    }
  }

  const Prefix: string := "gallery-"
  const Suffix: string := ".jpg"

  /** The end of the run of digits that starts at j. */
  function DigitRunEnd(s: string, j: nat): (k: nat)
    requires j <= |s|
    ensures j <= k <= |s|
    ensures forall m :: j <= m < k ==> IsDigit(s[m])
    ensures k == |s| || !IsDigit(s[k])
    decreases |s| - j
  {
    if j < |s| && IsDigit(s[j]) then DigitRunEnd(s, j + 1) else j
  }

  /** The characters `\d+` takes when the pattern is tried at i: the whole run of digits after the prefix. */
  function Captured(s: string, i: nat): (ds: string)
    requires i + |Prefix| <= |s|
    ensures AllDigits(ds)
  {
    var k := DigitRunEnd(s, i + |Prefix|);
    var ds := s[i + |Prefix|..k];
    assert forall m :: 0 <= m < |ds| ==> ds[m] == s[i + |Prefix| + m];
    ds
  }

  /** `gallery-(\d+)\.jpg` tried at position i: the number its group reads, or None. */
  function MatchAt(s: string, i: nat): Option<nat>
    requires i <= |s|
  {
    if i + |Prefix| <= |s| && s[i..i + |Prefix|] == Prefix then
      var ds := Captured(s, i);
      var k := i + |Prefix| + |ds|;
      if |ds| > 0 && k + |Suffix| <= |s| && s[k..k + |Suffix|] == Suffix then Some(DigitsValue(ds)) else None
    else None
  }

  /** The pattern read literally: the prefix, a non-empty digit string `ds`, then ".jpg", starting at i. */
  ghost predicate Matches(s: string, i: nat, ds: string) {
    var k := i + |Prefix| + |ds|;
    |ds| > 0 && AllDigits(ds) && k + |Suffix| <= |s| &&
    s[i..i + |Prefix|] == Prefix && s[i + |Prefix|..k] == ds && s[k..k + |Suffix|] == Suffix
  }

  /** A match found at i is the pattern read literally, with the whole digit run as its group. */
  lemma MatchAtSound(s: string, i: nat)
    requires i <= |s| && MatchAt(s, i).Some?
    ensures Matches(s, i, Captured(s, i))
    ensures MatchAt(s, i).value == DigitsValue(Captured(s, i))
  {
  }

  /** Every literal reading of the pattern at i is the one MatchAt finds: a digit run followed by '.' cannot end early. */
  lemma MatchAtComplete(s: string, i: nat, ds: string)
    requires Matches(s, i, ds)
    ensures MatchAt(s, i) == Some(DigitsValue(ds))
  {
    var j := i + |Prefix|;
    var k := j + |ds|;
    assert forall m :: j <= m < k ==> s[m] == ds[m - j] by {
      forall m | j <= m < k
        ensures s[m] == ds[m - j]
      {
        assert s[j..k][m - j] == s[m];
      }
    }
    assert s[k] == Suffix[0];
    var e := DigitRunEnd(s, j);
    assert e == k;
    assert Captured(s, i) == ds;
  }

  /** The leftmost match from position i on (`String.prototype.match` without the g flag). */
  function FirstMatch(s: string, i: nat): Option<nat>
    requires i <= |s|
    decreases |s| - i
  {
    if i == |s| then None
    else if MatchAt(s, i).Some? then MatchAt(s, i)
    else FirstMatch(s, i + 1)
  }

  /** `match ? parseInt(match[1]) : 0`. */
  function ImageNumber(path: string): nat {
    FirstMatch(path, 0).GetOr(0)
  }

  /** The number is read from the leftmost place where the pattern matches. */
  lemma {:induction false} FirstMatchLeftmost(s: string, from: nat, i: nat, ds: string)
    requires from <= i && Matches(s, i, ds)
    requires forall j: nat, e: string :: from <= j < i ==> !Matches(s, j, e)
    ensures FirstMatch(s, from) == Some(DigitsValue(ds))
    decreases i - from
  {
    MatchAtComplete(s, i, ds);
    if from < i {
      if MatchAt(s, from).Some? {
        MatchAtSound(s, from);
        assert false;
      }
      FirstMatchLeftmost(s, from + 1, i, ds);
    }
  }

  /** Without any match from position i on, nothing is found. */
  lemma {:induction false} FirstMatchNone(s: string, from: nat)
    requires from <= |s|
    requires forall j: nat, e: string :: from <= j <= |s| ==> !Matches(s, j, e)
    ensures FirstMatch(s, from) == None
    decreases |s| - from
  {
    if from < |s| {
      if MatchAt(s, from).Some? {
        MatchAtSound(s, from);
        assert false;
      }
      FirstMatchNone(s, from + 1);
    }
  }

  /** The digits of the leftmost match are the image's number. */
  lemma ImageNumberOfMatch(path: string, i: nat, ds: string)
    requires Matches(path, i, ds)
    requires forall j: nat, e: string :: j < i ==> !Matches(path, j, e)
    ensures ImageNumber(path) == DigitsValue(ds)
  {
    FirstMatchLeftmost(path, 0, i, ds);
  }

  /** A path the pattern does not match has number 0. */
  lemma ImageNumberWithoutMatch(path: string)
    requires forall j: nat, e: string :: !Matches(path, j, e)
    ensures ImageNumber(path) == 0
  {
    FirstMatchNone(path, 0);
  }

  /** A path ending in `gallery-<n>.jpg`, where no match starts earlier, has number n. */
  lemma ImageNumberOfName(dir: string, n: nat)
    requires forall j: nat, e: string :: j < |dir| ==> !Matches(dir + Prefix + Decimal(n) + Suffix, j, e)
    ensures ImageNumber(dir + Prefix + Decimal(n) + Suffix) == n
  {
    var s := dir + Prefix + Decimal(n) + Suffix;
    var ds := Decimal(n);
    var i := |dir|;
    assert s[i..i + |Prefix|] == Prefix;
    assert s[i + |Prefix|..i + |Prefix| + |ds|] == ds;
    assert s[i + |Prefix| + |ds|..i + |Prefix| + |ds| + |Suffix|] == Suffix;
    assert Matches(s, i, ds);
    ImageNumberOfMatch(s, i, ds);
    DecimalValue(n);
  }

  /** In a directory whose path has no '-', no match can start inside the directory. */
  lemma NoMatchInDashFreeDir(dir: string, n: nat)
    requires forall k :: 0 <= k < |dir| ==> dir[k] != '-'
    ensures forall j: nat, e: string :: j < |dir| ==> !Matches(dir + Prefix + Decimal(n) + Suffix, j, e)
  {
    var s := dir + Prefix + Decimal(n) + Suffix;
    forall j: nat, e: string | j < |dir|
      ensures !Matches(s, j, e)
    {
      if j + |Prefix| <= |s| {
        assert s[j + 7] != '-' by {
          if j + 7 < |dir| {
            assert s[j + 7] == dir[j + 7];
          } else {
            assert s[j + 7] == Prefix[j + 7 - |dir|];
          }
        }
        assert s[j..j + |Prefix|][7] == s[j + 7];
      }
    }
  }

  /** The image files as they sit in the assets folder: `gallery-28.jpg` is image 28. */
  lemma GalleryTwentyEight()
    ensures ImageNumber("/src/assets/gallery/gallery-28.jpg") == 28
  {
    assert Decimal(28) == "28";
    assert "/src/assets/gallery/gallery-28.jpg" == "/src/assets/gallery/" + Prefix + Decimal(28) + Suffix;
    NoMatchInDashFreeDir("/src/assets/gallery/", 28);
    ImageNumberOfName("/src/assets/gallery/", 28);
  }

  /** One entry of `allImagePaths`. */
  datatype GalleryImage = GalleryImage(path: string, number: nat, alt: string)

  function Entry(path: string): (image: GalleryImage)
    ensures image.path == path && image.number == ImageNumber(path)
    ensures image.alt == "3D Printed Project " + Decimal(image.number)
  {
    var number := ImageNumber(path);
    GalleryImage(path, number, "3D Printed Project " + Decimal(number))
  }

  function Entries(paths: seq<string>): (images: seq<GalleryImage>)
    ensures |images| == |paths|
    ensures forall k :: 0 <= k < |paths| ==> images[k] == Entry(paths[k])
  {
    seq(|paths|, k requires 0 <= k < |paths| => Entry(paths[k]))
  }

  ghost predicate SortedByNumber(images: seq<GalleryImage>) {
    forall i, j :: 0 <= i < j < |images| ==> images[i].number <= images[j].number
  }

  /** Places x after the last image whose number is at most x's, as a stable sort does. */
  function Insert(sorted: seq<GalleryImage>, x: GalleryImage): (r: seq<GalleryImage>)
    ensures multiset(r) == multiset(sorted) + multiset{x}
    ensures |r| == |sorted| + 1
  {
    if sorted == [] then [x]
    else
      var init, last := sorted[..|sorted| - 1], sorted[|sorted| - 1];
      assert sorted == init + [last];
      if last.number <= x.number then sorted + [x] else Insert(init, x) + [last]
  }

  /** Inserting into a sorted list keeps it sorted. */
  lemma {:induction false} InsertKeepsSorted(sorted: seq<GalleryImage>, x: GalleryImage)
    requires SortedByNumber(sorted)
    ensures SortedByNumber(Insert(sorted, x))
    decreases |sorted|
  {
    if sorted != [] {
      var init, last := sorted[..|sorted| - 1], sorted[|sorted| - 1];
      assert sorted == init + [last];
      if last.number > x.number {
        assert SortedByNumber(init);
        InsertKeepsSorted(init, x);
        var a := Insert(init, x);
        InsertBounded(init, x, last.number);
        assert Insert(sorted, x) == a + [last];
        SnocKeepsSorted(a, last);
      } else {
        SnocKeepsSorted(sorted, x);
      }
    }
  }

  /** Inserting an image no larger than a bound into a list bounded by it gives a list bounded by it. */
  lemma InsertBounded(a: seq<GalleryImage>, x: GalleryImage, bound: nat)
    requires forall k :: 0 <= k < |a| ==> a[k].number <= bound
    requires x.number <= bound
    ensures forall k :: 0 <= k < |Insert(a, x)| ==> Insert(a, x)[k].number <= bound
  {
    var r := Insert(a, x);
    forall k | 0 <= k < |r|
      ensures r[k].number <= bound
    {
      assert r[k] in multiset(r);
      if r[k] != x {
        assert r[k] in a;
      }
    }
  }

  /** An image no smaller than every image of a sorted list can follow it. */
  lemma SnocKeepsSorted(a: seq<GalleryImage>, y: GalleryImage)
    requires SortedByNumber(a)
    requires forall k :: 0 <= k < |a| ==> a[k].number <= y.number
    ensures SortedByNumber(a + [y])
  {
  }

  /** `.sort((a, b) => a.number - b.number)`: a stable insertion sort on the numbers. */
  function SortByNumber(images: seq<GalleryImage>): (r: seq<GalleryImage>)
    ensures SortedByNumber(r)
    ensures multiset(r) == multiset(images)
  {
    if images == [] then []
    else
      var init := images[..|images| - 1];
      assert images == init + [images[|images| - 1]];
      var sortedInit := SortByNumber(init);
      InsertKeepsSorted(sortedInit, images[|images| - 1]);
      Insert(sortedInit, images[|images| - 1])
  }

  /** `allImagePaths`: every path, numbered and sorted by number. */
  function AllImagePaths(paths: seq<string>): (images: seq<GalleryImage>)
    ensures SortedByNumber(images)
    ensures multiset(images) == multiset(Entries(paths))
    ensures |images| == |paths|
  {
    var r := SortByNumber(Entries(paths));
    assert |r| == |multiset(r)| == |multiset(Entries(paths))| == |paths|;
    r
  }

  /** The images of one number, in their order. */
  function WithNumber(images: seq<GalleryImage>, n: nat): seq<GalleryImage> {
    if images == [] then []
    else WithNumber(images[..|images| - 1], n) + (if images[|images| - 1].number == n then [images[|images| - 1]] else [])
  }

  lemma {:induction false} WithNumberAppend(a: seq<GalleryImage>, b: seq<GalleryImage>, n: nat)
    ensures WithNumber(a + b, n) == WithNumber(a, n) + WithNumber(b, n)
    decreases |b|
  {
    if b == [] {
      assert a + b == a;
    } else {
      var init := b[..|b| - 1];
      assert (a + b)[..|a + b| - 1] == a + init;
      WithNumberAppend(a, init, n);
    }
  }

  lemma {:induction false} InsertWithNumber(sorted: seq<GalleryImage>, x: GalleryImage, n: nat)
    ensures WithNumber(Insert(sorted, x), n) == WithNumber(sorted, n) + (if x.number == n then [x] else [])
    decreases |sorted|
  {
    if sorted == [] {
      assert Insert(sorted, x) == sorted + [x];
      WithNumberSnoc(sorted, x, n);
    } else {
      var init, last := sorted[..|sorted| - 1], sorted[|sorted| - 1];
      if last.number <= x.number {
        assert Insert(sorted, x) == sorted + [x];
        WithNumberSnoc(sorted, x, n);
      } else {
        assert sorted == init + [last];
        InsertWithNumber(init, x, n);
        InsertBeforeLast(init, last, x, n);
      }
    }
  }

  /** The step of `InsertWithNumber` where `x` goes before the last image. */
  lemma InsertBeforeLast(init: seq<GalleryImage>, last: GalleryImage, x: GalleryImage, n: nat)
    requires last.number > x.number
    requires WithNumber(Insert(init, x), n) == WithNumber(init, n) + (if x.number == n then [x] else [])
    ensures WithNumber(Insert(init + [last], x), n) == WithNumber(init + [last], n) + (if x.number == n then [x] else [])
  {
    var sorted := init + [last];
    assert sorted[..|sorted| - 1] == init;
    var a := Insert(init, x);
    assert Insert(sorted, x) == a + [last];
    WithNumberSnoc(a, last, n);
    WithNumberSnoc(init, last, n);
  }

  /** Appending one image adds it to its number's list. */
  lemma WithNumberSnoc(a: seq<GalleryImage>, y: GalleryImage, n: nat)
    ensures WithNumber(a + [y], n) == WithNumber(a, n) + (if y.number == n then [y] else [])
  {
    assert (a + [y])[..|a|] == a;
  }

  /** The sort is stable: images of equal number keep their relative order. */
  lemma {:induction false} SortIsStable(images: seq<GalleryImage>, n: nat)
    ensures WithNumber(SortByNumber(images), n) == WithNumber(images, n)
  {
    if images != [] {
      var init := images[..|images| - 1];
      SortIsStable(init, n);
      InsertWithNumber(SortByNumber(init), images[|images| - 1], n);
    }
  }

  /** `IMAGES_PER_PAGE`. */
  const ImagesPerPage: nat := 9

  function Min(x: int, y: int): int {
    if x <= y then x else y
  }

  function Max(x: int, y: int): int {
    if x >= y then x else y
  }

  /** The count `loadMoreImages` leaves: unchanged at the total, otherwise nine more, capped at the total. */
  function NextCount(count: nat, total: nat): (next: nat)
    ensures count < total ==> count < next <= total && next <= count + ImagesPerPage
    ensures count >= total ==> next == count
  {
    if count >= total then count else Min(count + ImagesPerPage, total)
  }

  /** The count after n calls of `loadMoreImages`. */
  function CountAfter(total: nat, n: nat): nat {
    if n == 0 then ImagesPerPage else NextCount(CountAfter(total, n - 1), total)
  }

  /** After n loads the grid shows 9·(n+1) images, at most all of them, and never fewer than the first page. */
  lemma {:induction false} CountAfterLoads(total: nat, n: nat)
    ensures CountAfter(total, n) == Max(ImagesPerPage, Min(ImagesPerPage * (n + 1), total))
  {
    if n > 0 {
      CountAfterLoads(total, n - 1);
    }
  }

  /** Enough loads show every image, and further loads change nothing. */
  lemma AllShownEventually(total: nat, n: nat)
    requires total <= ImagesPerPage * (n + 1)
    ensures CountAfter(total, n) == Max(ImagesPerPage, total)
    ensures CountAfter(total, n + 1) == CountAfter(total, n)
  {
    CountAfterLoads(total, n);
    CountAfterLoads(total, n + 1);
  }

  /** The zoom levels the buttons reach: multiples of 0.25. */
  predicate OnQuarterGrid(z: real) {
    (z * 4.0).Floor as real == z * 4.0
  }

  lemma QuarterStep(z: real)
    ensures OnQuarterGrid(z) ==> OnQuarterGrid(z + 0.25) && OnQuarterGrid(z - 0.25)
  {
    var f := (z * 4.0).Floor;
    assert (z + 0.25) * 4.0 == z * 4.0 + 1.0;
    assert (z - 0.25) * 4.0 == z * 4.0 - 1.0;
    if OnQuarterGrid(z) {
      assert (z * 4.0 + 1.0).Floor == f + 1;
      assert (z * 4.0 - 1.0).Floor == f - 1;
    }
  }

  /** `Math.min(prev + 0.25, 3)`. */
  function ZoomedIn(z: real): (r: real)
    ensures r <= 3.0 && r <= z + 0.25
    ensures z <= 2.75 ==> r == z + 0.25
    ensures z >= 0.5 ==> r >= 0.5
    ensures OnQuarterGrid(z) && z <= 3.0 ==> OnQuarterGrid(r)
  {
    QuarterStep(z);
    assert (3.0 * 4.0).Floor == 12;
    if z + 0.25 <= 3.0 then z + 0.25 else 3.0
  }

  /** `Math.max(prev - 0.25, 0.5)`. */
  function ZoomedOut(z: real): (r: real)
    ensures r >= 0.5 && r >= z - 0.25
    ensures z >= 0.75 ==> r == z - 0.25
    ensures z <= 3.0 ==> r <= 3.0
    ensures OnQuarterGrid(z) && z >= 0.5 ==> OnQuarterGrid(r)
  {
    QuarterStep(z);
    assert (0.5 * 4.0).Floor == 2;
    if z - 0.25 >= 0.5 then z - 0.25 else 0.5
  }

  /** The gallery page's state over a fixed list of images. */
  class Page {
    const images: seq<GalleryImage>
    var displayedCount: nat
    var hasMore: bool
    var selectedImageIndex: Option<nat>
    var isLightboxOpen: bool
    var zoomLevel: real

    /**
     * More can be loaded exactly while images remain hidden; the selection,
     * if any, names an image of the list; the zoom stays on the buttons'
     * grid within [0.5, 3].
     */
    ghost predicate Valid()
      reads this
    {
      (hasMore <==> displayedCount < |images|) &&
      ImagesPerPage <= displayedCount <= Max(ImagesPerPage, |images|) &&
      (selectedImageIndex.Some? ==> selectedImageIndex.value < |images|) &&
      0.5 <= zoomLevel <= 3.0 && OnQuarterGrid(zoomLevel)
    }

    constructor (images: seq<GalleryImage>)
      ensures Valid() && this.images == images
      ensures displayedCount == ImagesPerPage && hasMore == (|images| > ImagesPerPage)
      ensures selectedImageIndex == None && !isLightboxOpen && zoomLevel == 1.0
    {
      this.images := images;
      displayedCount := ImagesPerPage;
      hasMore := |images| > ImagesPerPage;
      selectedImageIndex := None;
      isLightboxOpen := false;
      zoomLevel := 1.0;
    }

    /** `allImagePaths.slice(0, displayedCount)`. */
    function DisplayedImages(): (shown: seq<GalleryImage>)
      reads this
      ensures |shown| == Min(displayedCount, |images|)
      ensures shown <= images
    {
      if displayedCount <= |images| then images[..displayedCount] else images
    }

    /** `loadMoreImages`. */
    method LoadMore()
      requires Valid()
      modifies this
      ensures Valid()
      ensures displayedCount == NextCount(old(displayedCount), |images|)
      ensures old(displayedCount) < |images| ==> |DisplayedImages()| > old(|DisplayedImages()|)
      ensures selectedImageIndex == old(selectedImageIndex) && isLightboxOpen == old(isLightboxOpen)
      ensures zoomLevel == old(zoomLevel)
    {
      if displayedCount >= |images| {
        hasMore := false;
        return;
      }
      var newCount := Min(displayedCount + ImagesPerPage, |images|);
      displayedCount := newCount;
      if newCount >= |images| {
        hasMore := false;
      }
    }

    /** `openLightbox`, called with the position of a card of the grid; the zoom is left as it was. */
    method Open(index: nat)
      requires Valid() && index < |DisplayedImages()|
      modifies this
      ensures Valid()
      ensures selectedImageIndex == Some(index) && isLightboxOpen
      ensures zoomLevel == old(zoomLevel) && displayedCount == old(displayedCount) && hasMore == old(hasMore)
    {
      selectedImageIndex := Some(index);
      isLightboxOpen := true;
    }

    /** `closeLightbox`. */
    method Close()
      requires Valid()
      modifies this
      ensures Valid()
      ensures !isLightboxOpen && selectedImageIndex == None && zoomLevel == 1.0
      ensures displayedCount == old(displayedCount) && hasMore == old(hasMore)
    {
      isLightboxOpen := false;
      selectedImageIndex := None;
      zoomLevel := 1.0;
    }

    /** The dialog's own open/close events (`onOpenChange={setIsLightboxOpen}`): only the flag changes. */
    method SetLightboxOpen(open: bool)
      requires Valid()
      modifies this
      ensures Valid()
      ensures isLightboxOpen == open
      ensures selectedImageIndex == old(selectedImageIndex) && zoomLevel == old(zoomLevel)
      ensures displayedCount == old(displayedCount) && hasMore == old(hasMore)
    {
      isLightboxOpen := open;
    }

    method ZoomIn()
      requires Valid()
      modifies this
      ensures Valid()
      ensures zoomLevel == ZoomedIn(old(zoomLevel))
      ensures selectedImageIndex == old(selectedImageIndex) && isLightboxOpen == old(isLightboxOpen)
      ensures displayedCount == old(displayedCount) && hasMore == old(hasMore)
    {
      zoomLevel := ZoomedIn(zoomLevel);
    }

    method ZoomOut()
      requires Valid()
      modifies this
      ensures Valid()
      ensures zoomLevel == ZoomedOut(old(zoomLevel))
      ensures selectedImageIndex == old(selectedImageIndex) && isLightboxOpen == old(isLightboxOpen)
      ensures displayedCount == old(displayedCount) && hasMore == old(hasMore)
    {
      zoomLevel := ZoomedOut(zoomLevel);
    }

    method ResetZoom()
      requires Valid()
      modifies this
      ensures Valid()
      ensures zoomLevel == 1.0
      ensures selectedImageIndex == old(selectedImageIndex) && isLightboxOpen == old(isLightboxOpen)
      ensures displayedCount == old(displayedCount) && hasMore == old(hasMore)
    {
      zoomLevel := 1.0;
    }

    /** `goToPrevious`: one image back with the zoom reset; nothing at the first image or without a selection. */
    method GoToPrevious()
      requires Valid()
      modifies this
      ensures Valid()
      ensures old(selectedImageIndex).Some? && old(selectedImageIndex).value > 0 ==>
        selectedImageIndex == Some(old(selectedImageIndex).value - 1) && zoomLevel == 1.0
      ensures old(selectedImageIndex).None? || old(selectedImageIndex).value == 0 ==>
        selectedImageIndex == old(selectedImageIndex) && zoomLevel == old(zoomLevel)
      ensures isLightboxOpen == old(isLightboxOpen)
      ensures displayedCount == old(displayedCount) && hasMore == old(hasMore)
    {
      if selectedImageIndex.Some? && selectedImageIndex.value > 0 {
        selectedImageIndex := Some(selectedImageIndex.value - 1);
        zoomLevel := 1.0;
      }
    }

    /** `goToNext`: one image on with the zoom reset; nothing at the last image or without a selection. */
    method GoToNext()
      requires Valid()
      modifies this
      ensures Valid()
      ensures old(selectedImageIndex).Some? && old(selectedImageIndex).value < |images| - 1 ==>
        selectedImageIndex == Some(old(selectedImageIndex).value + 1) && zoomLevel == 1.0
      ensures old(selectedImageIndex).None? || old(selectedImageIndex).value >= |images| - 1 ==>
        selectedImageIndex == old(selectedImageIndex) && zoomLevel == old(zoomLevel)
      ensures isLightboxOpen == old(isLightboxOpen)
      ensures displayedCount == old(displayedCount) && hasMore == old(hasMore)
    {
      if selectedImageIndex.Some? && selectedImageIndex.value < |images| - 1 {
        selectedImageIndex := Some(selectedImageIndex.value + 1);
        zoomLevel := 1.0;
      }
    }

    /** The window's keydown handler: ignored while the lightbox is closed. */
    method HandleKey(key: string)
      requires Valid()
      modifies this
      ensures Valid()
      ensures !old(isLightboxOpen) ==> selectedImageIndex == old(selectedImageIndex) && zoomLevel == old(zoomLevel) && !isLightboxOpen
      ensures old(isLightboxOpen) && key == "Escape" ==> !isLightboxOpen && selectedImageIndex == None && zoomLevel == 1.0
      ensures old(isLightboxOpen) && key == "ArrowLeft" ==> isLightboxOpen
      ensures old(isLightboxOpen) && key == "ArrowLeft" && old(selectedImageIndex).Some? && old(selectedImageIndex).value > 0 ==>
        selectedImageIndex == Some(old(selectedImageIndex).value - 1) && zoomLevel == 1.0
      ensures old(isLightboxOpen) && key == "ArrowLeft" && (old(selectedImageIndex).None? || old(selectedImageIndex).value == 0) ==>
        selectedImageIndex == old(selectedImageIndex) && zoomLevel == old(zoomLevel)
      ensures old(isLightboxOpen) && key == "ArrowRight" ==> isLightboxOpen
      ensures old(isLightboxOpen) && key == "ArrowRight" && old(selectedImageIndex).Some? && old(selectedImageIndex).value < |images| - 1 ==>
        selectedImageIndex == Some(old(selectedImageIndex).value + 1) && zoomLevel == 1.0
      ensures old(isLightboxOpen) && key == "ArrowRight" && (old(selectedImageIndex).None? || old(selectedImageIndex).value >= |images| - 1) ==>
        selectedImageIndex == old(selectedImageIndex) && zoomLevel == old(zoomLevel)
      ensures key !in {"Escape", "ArrowLeft", "ArrowRight"} ==>
        selectedImageIndex == old(selectedImageIndex) && zoomLevel == old(zoomLevel) && isLightboxOpen == old(isLightboxOpen)
      ensures displayedCount == old(displayedCount) && hasMore == old(hasMore)
    {
      if !isLightboxOpen {
        return;
      }
      if key == "Escape" {
        Close();
      }
      if key == "ArrowLeft" {
        GoToPrevious();
      }
      if key == "ArrowRight" {
        GoToNext();
      }
    }
  }
}
