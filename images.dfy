/**
 * Image geometry of fetch.py: Lutris' target sizes, the STRETCH and CROP
 * branches, Pillow's `thumbnail`, and the centred logo paste box. Pixels are
 * not modelled; an image records its size and where its pixels came from.
 */
module Images {
  import opened Wrappers
  import opened Enums

  /** A width or height of a decoded image (always at least one pixel). */
  type Dim = n: int | n >= 1 witness 1

  /** Where an image's pixels come from. */
  datatype Pixels =
    | Downloaded(url: string)
    | Resampled(source: Pixels)
    | Cropped(source: Pixels, box: Box)
    | Composited(base: Pixels, overlay: Pixels, at: Box)

  datatype Image = Image(width: Dim, height: Dim, pixels: Pixels)

  /** A PIL box: left, upper, right and lower edge. */
  datatype Box = Box(left: int, top: int, right: int, bottom: int)

  /** Pillow refuses to resample to a zero width or height. */
  datatype ImageError = ZeroSize

  const CoverWidth: Dim := 264
  const CoverHeight: Dim := 352
  const CoverCropMargin := 50
  /** The cover crop assumes a 600x900 source and drops 50 rows top and bottom. */
  const CoverCropBox := Box(0, CoverCropMargin, 600, 900 - CoverCropMargin)

  const BannerWidth: Dim := 184
  const BannerHeight: Dim := 69
  const BannerCropBox := Box(133, 0, 1786, 620)

  /** Icons are square: width and height bound. */
  const IconSize: Dim := 128

  predicate ProperBox(b: Box)
  {
    b.left < b.right && b.top < b.bottom
  }

  /** `Image.resize((w, h))`; asking for the current size returns a copy. */
  function Resize(img: Image, w: Dim, h: Dim): (r: Image)
    ensures r.width == w && r.height == h
  {
    if img.width == w && img.height == h then img else Image(w, h, Resampled(img.pixels))
  }

  /** `Image.crop(box)`: the result has the box's extent whatever the source size. */
  function CropImage(img: Image, box: Box): (r: Image)
    requires ProperBox(box)
    ensures r.width == box.right - box.left && r.height == box.bottom - box.top
  {
    Image(box.right - box.left, box.bottom - box.top, Cropped(img.pixels, box))
  }

  /** The resize branches shared by covers and banners: nothing, stretch, or crop then scale. */
  function Fit(img: Image, mode: ResizeMethod, w: Dim, h: Dim, box: Box): Image
    requires ProperBox(box)
  {
    match mode
    case NoResize => img
    case Stretch => Resize(img, w, h)
    case Crop => Resize(CropImage(img, box), w, h)
  }

  /** A cover after the chosen resize method. */
  function FitCover(img: Image, mode: ResizeMethod): Image
  {
    Fit(img, mode, CoverWidth, CoverHeight, CoverCropBox)
  }

  /** A banner after the chosen resize method. */
  function FitBanner(img: Image, mode: ResizeMethod): Image
  {
    Fit(img, mode, BannerWidth, BannerHeight, BannerCropBox)
  }

  /** Floor and ceiling of `a / b`. */
  function FloorDiv(a: nat, b: Dim): nat
  {
    a / b
  }

  function CeilDiv(a: nat, b: Dim): nat
  {
    if (a / b) * b == a then a / b else a / b + 1
  }

  /**
   * Pillow's `round_aspect(y * aspect, key=lambda n: abs(aspect - n / y))`
   * with aspect = w / h: the floor or the ceiling of y*w/h, whichever gives the
   * closer aspect ratio (the floor on a tie), and at least 1.
   */
  function RoundWidth(w: Dim, h: Dim, y: Dim): Dim
  {
    var a := y * w;
    var lo, hi := FloorDiv(a, h), CeilDiv(a, h);
    var n := if a - lo * h <= hi * h - a then lo else hi;
    if n == 0 then 1 else n
  }

  /**
   * Pillow's `round_aspect(x / aspect, key=lambda n: 0 if n == 0 else abs(aspect - x / n))`:
   * the floor or the ceiling of x*h/w with the closer aspect ratio, and at least 1.
   * The comparison of the two keys is cross-multiplied by h*lo*hi.
   */
  function RoundHeight(w: Dim, h: Dim, x: nat): Dim
  {
    var a := x * h;
    var lo, hi := FloorDiv(a, w), CeilDiv(a, w);
    var n := if lo == 0 then 0
             else if (a - w * lo) * hi <= (w * hi - a) * lo then lo
             else hi;
    if n == 0 then 1 else n
  }

  /**
   * `img.thumbnail((maxW, maxH))`: an image that already fits is left alone;
   * otherwise the side that limits the scale takes its bound and the other
   * side is rounded to keep the aspect ratio.
   */
  function Thumbnail(img: Image, maxW: nat, maxH: Dim): Result<Image, ImageError>
  {
    var w, h := img.width, img.height;
    if maxW >= w && maxH >= h then Ok(img)
    else if maxW * h >= w * maxH then Ok(Resize(img, RoundWidth(w, h, maxH), maxH))
    else if maxW == 0 then Err(ZeroSize)
    else Ok(Resize(img, maxW, RoundHeight(w, h, maxW)))
  }

  /** `img.thumbnail((ICON_SIZE, ICON_SIZE))`, which never fails. */
  function IconImage(img: Image): Image
  {
    ThumbnailOfPositiveBound(img, IconSize, IconSize);
    Thumbnail(img, IconSize, IconSize).value
  }

  /** Python's `int()` on a float: truncation toward zero. */
  function Truncate(x: real): int
  {
    if x >= 0.0 then x.Floor else -((-x).Floor)
  }

  /**
   * The paste box of fetch.py, computed as the source does:
   * `(int((W - w) / 2), int((H - h) / 2), int(W - (W - w) / 2), int(H - (H - h) / 2))`.
   */
  function PasteBox(base: Image, logo: Image): Box
  {
    var bw, bh := base.width as real, base.height as real;
    var lw, lh := logo.width as real, logo.height as real;
    Box(Truncate((bw - lw) / 2.0), Truncate((bh - lh) / 2.0),
        Truncate(bw - (bw - lw) / 2.0), Truncate(bh - (bh - lh) / 2.0))
  }

  /** `base.paste(logo, box, logo)`: Pillow demands a box of the logo's own size. */
  function Paste(base: Image, logo: Image, box: Box): (r: Image)
    requires box.right - box.left == logo.width && box.bottom - box.top == logo.height
    ensures r.width == base.width && r.height == base.height
  {
    Image(base.width, base.height, Composited(base.pixels, logo.pixels, box))
  }

  /** The logo is thumbnailed to `banner.width - banner.width * 0.3` by `banner.height`. */
  function LogoBound(banner: Image): (b: nat)
    ensures 10 * b <= 7 * banner.width < 10 * b + 10
  {
    (7 * banner.width) / 10
  }

  /** The banner with the logo shrunk to fit and pasted in its centre. */
  function ComposeBanner(banner: Image, logo: Image): Result<Image, ImageError>
  {
    match Thumbnail(logo, LogoBound(banner), banner.height)
    case Err(e) => Err(e)
    case Ok(t) =>
      ThumbnailFits(logo, LogoBound(banner), banner.height);
      PasteBoxCentred(banner, t);
      Ok(Paste(banner, t, PasteBox(banner, t)))
  }

  // ---------------------------------------------------------------- lemmas

  /** STRETCH and CROP give exactly the target size whatever the input; NONE changes nothing. */
  lemma FitSize(img: Image, mode: ResizeMethod, w: Dim, h: Dim, box: Box)
    requires ProperBox(box)
    ensures mode != NoResize ==> Fit(img, mode, w, h, box).width == w && Fit(img, mode, w, h, box).height == h
    ensures mode == NoResize ==> Fit(img, mode, w, h, box) == img
  {
  }

  /** Covers end up 264x352 and banners 184x69 under STRETCH and CROP. */
  lemma TargetSizes(img: Image, mode: ResizeMethod)
    requires mode != NoResize
    ensures FitCover(img, mode).width == 264 && FitCover(img, mode).height == 352
    ensures FitBanner(img, mode).width == 184 && FitBanner(img, mode).height == 69
  {
  }

  /** The crop boxes are 600x800 (covers) and 1653x620 (banners). */
  lemma CropExtents(img: Image)
    ensures CropImage(img, CoverCropBox).width == 600 && CropImage(img, CoverCropBox).height == 800
    ensures CropImage(img, BannerCropBox).width == 1653 && CropImage(img, BannerCropBox).height == 620
  {
  }

  /** CROP cuts the fixed box first and scales the cut-out second. */
  lemma CropBeforeScale(img: Image)
    ensures FitCover(img, Crop).pixels == Resampled(Cropped(img.pixels, CoverCropBox))
    ensures FitBanner(img, Crop).pixels == Resampled(Cropped(img.pixels, BannerCropBox))
  {
  }

  /** Floor division by a positive divisor leaves a remainder below the divisor. */
  lemma DivBounds(a: nat, b: Dim)
    ensures FloorDiv(a, b) * b <= a < FloorDiv(a, b) * b + b
    ensures CeilDiv(a, b) * b >= a && CeilDiv(a, b) * b < a + b
  {
    var q := a / b;
    assert (q + 1) * b == q * b + b;
  }

  /**
   * Any of the candidates Pillow rounds to (floor, ceiling, or 1 in place of
   * a zero) lies within one divisor of `a`.
   */
  lemma RoundingBounds(a: nat, b: Dim, n: int)
    requires a >= 1
    requires n == FloorDiv(a, b) || n == CeilDiv(a, b) || (FloorDiv(a, b) == 0 && n == 1)
    ensures n * b < a + b && a < n * b + b
  {
    DivBounds(a, b);
  }

  lemma MulLe(p: int, q: int, c: nat)
    ensures p <= q ==> p * c <= q * c
  {
  }

  lemma MulLt(p: int, q: int, c: Dim)
    ensures p < q ==> p * c < q * c
  {
  }

  /** One more in the factor costs a whole `c`. */
  lemma MulStep(p: int, q: int, c: Dim)
    ensures p < q ==> p * c + c <= q * c
  {
    MulLe(p + 1, q, c);
    assert (p + 1) * c == p * c + c;
  }

  lemma MulPos(a: Dim, b: Dim)
    ensures a * b >= 1
  {
    MulLe(1, a, b);
  }

  /** Which side of the bound box limits the scale. */
  lemma LimitingSide(w: Dim, h: Dim, x: nat, y: Dim)
    ensures x * h >= w * y && y >= h ==> x >= w
    ensures x * h < w * y && x >= w ==> y > h
  {
    MulLe(h, y, w);
    MulLt(x, w, h);
    MulLe(w, x, h);
    MulLe(y, h, w);
  }

  /** A rounded side `n` for the exact ratio `a / b` with `a <= x * b` and `a <= (b - 1) * s` is at most `x` and `s`. */
  lemma RoundedWithin(a: nat, b: Dim, n: int, x: Dim, s: Dim)
    requires n * b < a + b && a <= x * b && a <= b * s - s
    ensures n <= x && n <= s
  {
    MulStep(x, n, b);
    MulStep(s, n, b);
  }

  /** The rounded width stays within the width bound and the source width, one pixel off the exact ratio. */
  lemma RoundWidthBounds(w: Dim, h: Dim, x: Dim, y: Dim)
    requires x * h >= w * y && y < h
    ensures RoundWidth(w, h, y) <= x && RoundWidth(w, h, y) <= w
    ensures Abs(RoundWidth(w, h, y) * h - y * w) < h
  {
    var a := y * w;
    MulPos(y, w);
    var n := RoundWidth(w, h, y);
    RoundingBounds(a, h, n);
    MulLe(y, h - 1, w);
    assert (h - 1) * w == h * w - w;
    RoundedWithin(a, h, n, x, w);
  }

  /** The rounded height stays within the height bound and the source height, one pixel off the exact ratio. */
  lemma RoundHeightBounds(w: Dim, h: Dim, x: Dim, y: Dim)
    requires x * h < w * y && x < w
    ensures RoundHeight(w, h, x) <= y && RoundHeight(w, h, x) <= h
    ensures Abs(RoundHeight(w, h, x) * w - x * h) < w
  {
    var a := x * h;
    MulPos(x, h);
    var n := RoundHeight(w, h, x);
    RoundingBounds(a, w, n);
    MulLe(x, w - 1, h);
    assert (w - 1) * h == w * h - h;
    RoundedWithin(a, w, n, y, h);
  }

  function Abs(n: int): nat
  {
    if n < 0 then -n else n
  }

  /**
   * A thumbnail fits the bounds and is never larger than the source in
   * either direction; an image that already fits is returned untouched, and
   * Pillow fails only for a zero width bound.
   */
  lemma ThumbnailFits(img: Image, maxW: nat, maxH: Dim)
    ensures Thumbnail(img, maxW, maxH).Err? <==> maxW == 0
    ensures Thumbnail(img, maxW, maxH).Ok? ==>
      var t := Thumbnail(img, maxW, maxH).value;
      t.width <= maxW && t.height <= maxH && t.width <= img.width && t.height <= img.height
    ensures maxW >= img.width && maxH >= img.height ==> Thumbnail(img, maxW, maxH) == Ok(img)
  {
    var w, h := img.width, img.height;
    LimitingSide(w, h, maxW, maxH);
    MulPos(w, maxH);
    if maxW >= w && maxH >= h {
    } else if maxW * h >= w * maxH {
      RoundWidthBounds(w, h, maxW, maxH);
    } else if maxW > 0 {
      RoundHeightBounds(w, h, maxW, maxH);
    }
  }

  /** With a positive width bound the thumbnail always succeeds. */
  lemma ThumbnailOfPositiveBound(img: Image, maxW: Dim, maxH: Dim)
    ensures Thumbnail(img, maxW, maxH).Ok?
  {
    ThumbnailFits(img, maxW, maxH);
  }

  /**
   * A shrunk thumbnail keeps the aspect ratio up to one pixel of rounding:
   * either it takes the full height bound and its width is within one pixel of
   * `maxH * w / h`, or it takes the full width bound and its height is within
   * one pixel of `maxW * h / w`.
   */
  lemma ThumbnailKeepsAspect(img: Image, maxW: nat, maxH: Dim)
    requires !(maxW >= img.width && maxH >= img.height)
    requires Thumbnail(img, maxW, maxH).Ok?
    ensures var t := Thumbnail(img, maxW, maxH).value;
      (t.height == maxH && Abs(t.width * img.height - maxH * img.width) < img.height) ||
      (t.width == maxW && Abs(t.height * img.width - maxW * img.height) < img.width)
  {
    var w, h := img.width, img.height;
    LimitingSide(w, h, maxW, maxH);
    MulPos(w, maxH);
    if maxW * h >= w * maxH {
      RoundWidthBounds(w, h, maxW, maxH);
    } else {
      RoundHeightBounds(w, h, maxW, maxH);
    }
  }

  /** Icons fit 128x128, are never enlarged, and keep their aspect ratio. */
  lemma IconFits(img: Image)
    ensures IconImage(img).width <= IconSize && IconImage(img).height <= IconSize
    ensures IconImage(img).width <= img.width && IconImage(img).height <= img.height
    ensures img.width <= IconSize && img.height <= IconSize ==> IconImage(img) == img
    ensures !(img.width <= IconSize && img.height <= IconSize) ==>
      (IconImage(img).height == IconSize && Abs(IconImage(img).width * img.height - IconSize * img.width) < img.height) ||
      (IconImage(img).width == IconSize && Abs(IconImage(img).height * img.width - IconSize * img.height) < img.width)
  {
    ThumbnailFits(img, IconSize, IconSize);
    if !(img.width <= IconSize && img.height <= IconSize) {
      ThumbnailKeepsAspect(img, IconSize, IconSize);
    }
  }

  /**
   * For a logo no larger than the banner the paste box starts at the floor of
   * half the spare room and spans exactly the logo, so it lies inside the
   * banner and Pillow accepts it.
   */
  lemma PasteBoxCentred(base: Image, logo: Image)
    requires logo.width <= base.width && logo.height <= base.height
    ensures var b := PasteBox(base, logo);
      && b.left == (base.width - logo.width) / 2
      && b.top == (base.height - logo.height) / 2
      && b.right - b.left == logo.width
      && b.bottom - b.top == logo.height
      && 0 <= b.left && b.right <= base.width
      && 0 <= b.top && b.bottom <= base.height
  {
    HalfSpan(base.width, logo.width);
    HalfSpan(base.height, logo.height);
  }

  /** `int((W - w) / 2)` is `(W - w) / 2` and `int(W - (W - w) / 2)` is `(W + w) / 2`. */
  lemma HalfSpan(big: Dim, small: Dim)
    requires small <= big
    ensures Truncate((big as real - small as real) / 2.0) == (big - small) / 2
    ensures Truncate(big as real - (big as real - small as real) / 2.0) == (big + small) / 2
    ensures (big + small) / 2 - (big - small) / 2 == small
  {
    var d := big - small;
    var q := d / 2;
    assert d == 2 * q || d == 2 * q + 1;
    var x := (big as real - small as real) / 2.0;
    assert x == d as real / 2.0;
    assert q as real <= x < q as real + 1.0;
    assert x.Floor == q;
    var y := big as real - x;
    assert y == (big + small) as real / 2.0;
    var s := big + small;
    assert s == 2 * (small + q) || s == 2 * (small + q) + 1;
    assert (small + q) as real <= y < (small + q) as real + 1.0;
    assert y.Floor == small + q;
  }

  /**
   * The composed banner keeps its size; the logo is shrunk to at most 70% of
   * the banner's width (never enlarged) and pasted centred; only a banner too
   * narrow to leave a one-pixel logo makes Pillow fail.
   */
  lemma ComposeBannerCentresLogo(banner: Image, logo: Image)
    ensures ComposeBanner(banner, logo).Err? <==> LogoBound(banner) == 0
    ensures ComposeBanner(banner, logo).Ok? ==>
      var r := ComposeBanner(banner, logo).value;
      var t := Thumbnail(logo, LogoBound(banner), banner.height).value;
      && r.width == banner.width && r.height == banner.height
      && 10 * t.width <= 7 * banner.width && t.height <= banner.height
      && t.width <= logo.width && t.height <= logo.height
      && r.pixels == Composited(banner.pixels, t.pixels, PasteBox(banner, t))
      && PasteBox(banner, t).left == (banner.width - t.width) / 2
      && PasteBox(banner, t).top == (banner.height - t.height) / 2
      && PasteBox(banner, t).right - PasteBox(banner, t).left == t.width
      && PasteBox(banner, t).bottom - PasteBox(banner, t).top == t.height
  {
    ThumbnailFits(logo, LogoBound(banner), banner.height);
    if Thumbnail(logo, LogoBound(banner), banner.height).Ok? {
      var t := Thumbnail(logo, LogoBound(banner), banner.height).value;
      PasteBoxCentred(banner, t);
    }
  }

  /** Only banners one pixel wide leave no room for a logo. */
  lemma LogoBoundZero(banner: Image)
    ensures LogoBound(banner) == 0 <==> banner.width == 1
  {
  }
}
