/**
 Source-pixel rectangles and the crops of one aspect ratio that fit a source frame
 (`Rect`, `CropRect`, `full_frame_crop`, `clamp_crop`).
 */
module Geometry {
  import opened Prelude

  /** A detector box or a crop: the source keeps two classes with these same fields. */
  datatype Rect = Rect(x: real, y: real, width: real, height: real) {
    function Right(): real { x + width }

    function Bottom(): real { y + height }

    function CenterX(): real { x + width / 2.0 }

    function CenterY(): real { y + height / 2.0 }

    predicate Contains(box: Rect) {
      x <= box.x && y <= box.y && Right() >= box.Right() && Bottom() >= box.Bottom()
    }
  }

  datatype AspectRatio = Landscape | Portrait

  function Ratio(aspect: AspectRatio): (r: real)
    ensures r > 0.0
  {
    match aspect
    case Landscape => 16.0 / 9.0
    case Portrait => 9.0 / 16.0
  }

  function WidthFor(height: real, aspect: AspectRatio): real {
    height * Ratio(aspect)
  }

  function HeightFor(width: real, aspect: AspectRatio): real {
    width / Ratio(aspect)
  }

  /** The two conversions are inverse, and the higher of two crops is the wider. */
  lemma SizesOrdered(h: real, w: real, aspect: AspectRatio)
    ensures WidthFor(HeightFor(w, aspect), aspect) == w
    ensures h <= HeightFor(w, aspect) <==> WidthFor(h, aspect) <= w
    ensures h == HeightFor(w, aspect) <==> WidthFor(h, aspect) == w
    ensures h > 0.0 <==> WidthFor(h, aspect) > 0.0
    ensures w > 0.0 <==> HeightFor(w, aspect) > 0.0
  {
  }

  lemma WidthMonotone(h: real, h': real, aspect: AspectRatio)
    ensures h <= h' <==> WidthFor(h, aspect) <= WidthFor(h', aspect)
    ensures h == h' <==> WidthFor(h, aspect) == WidthFor(h', aspect)
  {
  }

  /** A source frame and the aspect ratio its crops must have. */
  datatype Frame = Frame(width: real, height: real, aspect: AspectRatio)

  ghost predicate ValidFrame(f: Frame) {
    f.width > 0.0 && f.height > 0.0
  }

  function Centered(cx: real, cy: real, width: real, height: real): Rect {
    Rect(cx - width / 2.0, cy - height / 2.0, width, height)
  }

  /** The largest crop of the aspect ratio, in the middle of the source. */
  function FullFrame(f: Frame): Rect
    requires ValidFrame(f)
  {
    if f.width / f.height >= Ratio(f.aspect) then
      Centered(f.width / 2.0, f.height / 2.0, WidthFor(f.height, f.aspect), f.height)
    else
      Centered(f.width / 2.0, f.height / 2.0, f.width, HeightFor(f.width, f.aspect))
  }

  datatype GeometryError = CropExceedsSource

  function ClampCrop(crop: Rect, f: Frame): Result<Rect, GeometryError> {
    if crop.width > f.width || crop.height > f.height then
      Failure(CropExceedsSource)
    else
      Success(Rect(Min(Max(crop.x, 0.0), f.width - crop.width),
                   Min(Max(crop.y, 0.0), f.height - crop.height),
                   crop.width, crop.height))
  }

  ghost predicate InSource(r: Rect, f: Frame) {
    && r.width > 0.0 && r.height > 0.0
    && 0.0 <= r.x && r.Right() <= f.width
    && 0.0 <= r.y && r.Bottom() <= f.height
  }

  /** Exactly of the output aspect ratio, of positive size. */
  ghost predicate Shaped(r: Rect, f: Frame) {
    r.height > 0.0 && r.width == WidthFor(r.height, f.aspect)
  }

  /** What every crop of a plan satisfies. */
  ghost predicate ValidCrop(r: Rect, f: Frame) {
    InSource(r, f) && Shaped(r, f)
  }

  /** The full frame is a valid crop that reaches the source's width or its height. */
  lemma FullFrameValid(f: Frame)
    requires ValidFrame(f)
    ensures ValidCrop(FullFrame(f), f)
    ensures FullFrame(f).width == f.width || FullFrame(f).height == f.height
    ensures if f.aspect == Landscape then 9.0 * FullFrame(f).width == 16.0 * FullFrame(f).height
            else 16.0 * FullFrame(f).width == 9.0 * FullFrame(f).height
  {
    hide Ratio;
    QuotientAtLeast(f.width, f.height, Ratio(f.aspect));
    SizesOrdered(f.height, f.width, f.aspect);
    RatioMeans(FullFrame(f).width, FullFrame(f).height, f.aspect);
  }

  lemma QuotientAtLeast(w: real, h: real, ratio: real)
    requires h > 0.0
    ensures w / h >= ratio <==> h * ratio <= w
  {
    var q := w / h;
    assert q * h == w;
    if q >= ratio {
      NonNegative(q - ratio, h, q * h - ratio * h);
    } else {
      Positive(ratio - q, h, ratio * h - q * h);
    }
  }

  lemma RatioMeans(w: real, h: real, aspect: AspectRatio)
    requires w == h * Ratio(aspect)
    ensures if aspect == Landscape then 9.0 * w == 16.0 * h else 16.0 * w == 9.0 * h
  {
  }

  /** No crop of the aspect ratio that fits the source is larger than the full frame, and
      among shaped sizes fitting the source and not exceeding the full frame coincide. */
  lemma FullFrameLargest(r: Rect, f: Frame)
    requires ValidFrame(f) && Shaped(r, f)
    ensures r.width <= f.width && r.height <= f.height <==> r.height <= FullFrame(f).height
    ensures r.height <= FullFrame(f).height <==> r.width <= FullFrame(f).width
    ensures r.height == FullFrame(f).height <==> r.width == FullFrame(f).width
  {
    FullFrameValid(f);
    WidthMonotone(r.height, FullFrame(f).height, f.aspect);
    hide FullFrame, WidthFor;
  }

  /** Clamping a crop that fits keeps its size, brings it inside, and leaves a crop that is
      already inside alone. */
  lemma ClampInside(crop: Rect, f: Frame)
    requires crop.width > 0.0 && crop.height > 0.0
    ensures ClampCrop(crop, f).Success? <==> crop.width <= f.width && crop.height <= f.height
    ensures ClampCrop(crop, f).Success? ==>
              var c := ClampCrop(crop, f).value;
              && InSource(c, f) && c.width == crop.width && c.height == crop.height
              && (InSource(crop, f) ==> c == crop)
  {
  }

  /** Clamping moves a crop as little as any move into the source does, on each axis. */
  lemma ClampNearest(crop: Rect, f: Frame, other: Rect)
    requires ClampCrop(crop, f).Success?
    requires InSource(other, f) && other.width == crop.width && other.height == crop.height
    ensures var c := ClampCrop(crop, f).value;
            && Abs(c.CenterX() - crop.CenterX()) <= Abs(other.CenterX() - crop.CenterX())
            && Abs(c.CenterY() - crop.CenterY()) <= Abs(other.CenterY() - crop.CenterY())
  {
  }

  /** Clamping never loses an in-source box the crop contained. */
  lemma ClampKeeps(crop: Rect, box: Rect, f: Frame)
    requires InSource(box, f) && crop.Contains(box) && ClampCrop(crop, f).Success?
    ensures ClampCrop(crop, f).value.Contains(box)
  {
  }
}
