/** Boxes, crops and the candidate list of the face engines
    (processor/src/mediapipe_engine.rs, processor/src/opencv_engine.rs).
    Coordinates are reals; what the neural networks return is a parameter. */
module FaceGeometry {
  import opened Text

  datatype Bounds = Bounds(x: real, y: real, width: real, height: real)

  datatype Size = Size(width: int, height: int)

  datatype Rect = Rect(x: int, y: int, width: int, height: int)

  datatype Landmark = Landmark(x: real, y: real, z: real)

  const LEFT_IRIS := 473

  function Max(a: real, b: real): real { if a >= b then a else b }

  function Min(a: real, b: real): real { if a <= b then a else b }

  function Clamp(v: real, low: real, high: real): real
    requires low <= high
  {
    if v < low then low else if v > high then high else v
  }

  function ClampInt(v: int, low: int, high: int): int
    requires low <= high
  {
    if v < low then low else if v > high then high else v
  }

  function Ceil(v: real): int {
    -((-v).Floor)
  }

  /** A box of positive size inside the unit square. */
  predicate InImage(b: Bounds) {
    0.0 <= b.x && 0.0 < b.width && b.x + b.width <= 1.0 && 0.0 <= b.y && 0.0 < b.height && b.y + b.height <= 1.0
  }

  // ----- The detection clipped to the image -----

  function NormalizedBounds(x: real, y: real, width: real, height: real, size: Size): Option<Bounds>
    requires size.width >= 0 && size.height >= 0
  {
    var w, h := size.width as real, size.height as real;
    var left, top := Clamp(x, 0.0, w), Clamp(y, 0.0, h);
    var right, bottom := Clamp(x + width, left, w), Clamp(y + height, top, h);
    if right <= left || bottom <= top then None
    else Some(Bounds(left / w, top / h, (right - left) / w, (bottom - top) / h))
  }

  /** The detection's extent along one axis meets the image's in more than a point. */
  predicate Overlaps(from: real, length: real, image: int) {
    Max(from, 0.0) < Min(from + length, image as real)
  }

  /** A pixel position along one axis lies in a normalised interval. */
  predicate Covers(from: real, length: real, image: int, pixel: real) {
    from * image as real <= pixel <= (from + length) * image as real
  }

  lemma AxisClips(from: real, length: real, image: int, pixel: real)
    requires image >= 0 && Overlaps(from, length, image)
    ensures var w := image as real;
            var left := Clamp(from, 0.0, w);
            var right := Clamp(from + length, left, w);
            && left < right && w > 0.0
            && 0.0 <= left / w && 0.0 < (right - left) / w && left / w + (right - left) / w <= 1.0
            && (Covers(left / w, (right - left) / w, image, pixel)
                <==> (0.0 <= pixel <= w && from <= pixel <= from + length))
  {
    var w := image as real;
    var left := Clamp(from, 0.0, w);
    var right := Clamp(from + length, left, w);
    Quotient(left, w);
    Quotient(right - left, w);
    ScaledBack(left / w, (right - left) / w, left, right, w);
    CoversPixels(left / w, (right - left) / w, image, left, right, pixel);
    hide Covers;
  }

  lemma CoversPixels(from: real, length: real, image: int, left: real, right: real, pixel: real)
    requires from * image as real == left && (from + length) * image as real == right
    ensures Covers(from, length, image, pixel) <==> left <= pixel <= right
  {
  }

  lemma Quotient(a: real, w: real)
    requires w > 0.0
    ensures a / w * w == a
  {
  }

  lemma ScaledBack(q: real, d: real, left: real, right: real, w: real)
    requires w > 0.0 && 0.0 <= left < right <= w && q * w == left && d * w == right - left
    ensures 0.0 <= q && 0.0 < d && q + d <= 1.0 && (q + d) * w == right
  {
    assert (q + d) * w == q * w + d * w;
    if q < 0.0 {
      Scales(q, 0.0, w);
    }
    if d <= 0.0 {
      Scales(d, 0.0, w);
    }
    if q + d > 1.0 {
      Scales(1.0, q + d, w);
    }
  }

  /** The normalised box is the detection clipped to the image, and it is
      refused exactly when nothing of positive area is left. */
  lemma NormalizedIsClipped(x: real, y: real, width: real, height: real, size: Size)
    requires size.width >= 0 && size.height >= 0
    ensures var r := NormalizedBounds(x, y, width, height, size);
            && (r.Some? <==> Overlaps(x, width, size.width) && Overlaps(y, height, size.height))
            && (r.Some? ==>
                  && InImage(r.value)
                  && (forall p :: Covers(r.value.x, r.value.width, size.width, p)
                                  <==> (0.0 <= p <= size.width as real && x <= p <= x + width))
                  && (forall p :: Covers(r.value.y, r.value.height, size.height, p)
                                  <==> (0.0 <= p <= size.height as real && y <= p <= y + height)))
  {
    if Overlaps(x, width, size.width) && Overlaps(y, height, size.height) {
      AxisClips(x, width, size.width, 0.0);
      AxisClips(y, height, size.height, 0.0);
      var b := NormalizedBounds(x, y, width, height, size).value;
      forall p
        ensures Covers(b.x, b.width, size.width, p) <==> (0.0 <= p <= size.width as real && x <= p <= x + width)
      {
        AxisClips(x, width, size.width, p);
      }
      forall p
        ensures Covers(b.y, b.height, size.height, p) <==> (0.0 <= p <= size.height as real && y <= p <= y + height)
      {
        AxisClips(y, height, size.height, p);
      }
    }
  }

  // ----- The crop given to the landmarker -----

  datatype Span = Span(from: int, until: int)

  /** A normalised position in pixels. */
  function Pixel(v: real, image: int): real {
    v * image as real
  }

  /** The pixels of one axis between two positions. */
  function CropSpan(low: real, high: real, image: int): Span
    requires image >= 1
  {
    var from := ClampInt(low.Floor, 0, image - 1);
    Span(from, ClampInt(Ceil(high), from + 1, image))
  }

  function LandmarkerCrop(b: Bounds, size: Size): Option<Rect>
    requires size.width >= 1 && size.height >= 1
  {
    var across := CropSpan(Pixel(b.x - b.width * 0.55, size.width), Pixel(b.x + b.width * 1.55, size.width), size.width);
    var down := CropSpan(Pixel(b.y - b.height * 0.60, size.height), Pixel(b.y + b.height * 1.40, size.height), size.height);
    if across.until <= across.from || down.until <= down.from then None
    else Some(Rect(across.from, down.from, across.until - across.from, down.until - down.from))
  }

  /** The span is non-empty, in the image, and no smaller span contains the
      positions `low` to `high` cut to the image. */
  predicate Smallest(s: Span, low: real, high: real, image: int) {
    && 0 <= s.from < s.until <= image
    && s.from as real <= Max(0.0, low) < (s.from + 1) as real
    && (s.until - 1) as real < Min(image as real, high) <= s.until as real
  }

  predicate Contains(s: Span, low: real, high: real) {
    s.from as real <= low && high <= s.until as real
  }

  lemma SpanContains(low: real, from: real, until: real, high: real, image: int)
    requires image >= 1 && low < from < until < high && 0.0 <= from && until <= image as real
    ensures Smallest(CropSpan(low, high, image), low, high, image) && Contains(CropSpan(low, high, image), from, until)
  {
    var left := CropSpan(low, high, image).from;
    assert low.Floor as real <= low < (low.Floor + 1) as real;
    assert (Ceil(high) - 1) as real < high <= Ceil(high) as real;
    assert low.Floor <= image - 1;
    assert left as real < high;
    assert left + 1 <= Ceil(high);
  }

  lemma Scales(a: real, b: real, w: real)
    requires w > 0.0
    ensures a < b ==> a * w < b * w
    ensures a <= b ==> a * w <= b * w
  {
    if a < b {
      Positive(b - a, w);
      assert (b - a) * w == b * w - a * w;
    }
  }

  lemma Positive(a: real, b: real)
    requires a > 0.0 && b > 0.0
    ensures a * b > 0.0
  {
  }

  lemma PixelsInOrder(low: real, from: real, until: real, high: real, image: int)
    requires 0.0 <= from && until <= 1.0 && low < from < until < high && image >= 1
    ensures Pixel(low, image) < Pixel(from, image) < Pixel(until, image) < Pixel(high, image)
    ensures 0.0 <= Pixel(from, image) && Pixel(until, image) <= image as real
  {
    hide Pixel;
    PixelEnds(image);
    PixelOrder(low, from, image);
    PixelOrder(0.0, from, image);
    PixelOrder(from, until, image);
    PixelOrder(until, high, image);
    PixelOrder(until, 1.0, image);
  }

  lemma PixelOrder(a: real, b: real, image: int)
    requires a <= b && image >= 1
    ensures Pixel(a, image) <= Pixel(b, image) && (a < b ==> Pixel(a, image) < Pixel(b, image))
  {
    Scales(a, b, image as real);
  }

  lemma PixelEnds(image: int)
    ensures Pixel(0.0, image) == 0.0 && Pixel(1.0, image) == image as real
  {
  }

  /** For a box in the image the crop never fails: it is the smallest pixel
      rectangle around the widened box cut to the image, so it is non-empty, in
      the image, and contains the box. */
  lemma CropContainsBox(b: Bounds, size: Size)
    requires InImage(b) && size.width >= 1 && size.height >= 1
    ensures LandmarkerCrop(b, size).Some?
    ensures var c := LandmarkerCrop(b, size).value;
            var (across, down) := (Span(c.x, c.x + c.width), Span(c.y, c.y + c.height));
            var (w, h) := (size.width, size.height);
            && Smallest(across, Pixel(b.x - b.width * 0.55, w), Pixel(b.x + b.width * 1.55, w), w)
            && Smallest(down, Pixel(b.y - b.height * 0.60, h), Pixel(b.y + b.height * 1.40, h), h)
            && Contains(across, Pixel(b.x, w), Pixel(b.x + b.width, w))
            && Contains(down, Pixel(b.y, h), Pixel(b.y + b.height, h))
  {
    hide Pixel;
    var (w, h) := (size.width, size.height);
    PixelsInOrder(b.x - b.width * 0.55, b.x, b.x + b.width, b.x + b.width * 1.55, w);
    PixelsInOrder(b.y - b.height * 0.60, b.y, b.y + b.height, b.y + b.height * 1.40, h);
    SpanContains(Pixel(b.x - b.width * 0.55, w), Pixel(b.x, w), Pixel(b.x + b.width, w), Pixel(b.x + b.width * 1.55, w), w);
    SpanContains(Pixel(b.y - b.height * 0.60, h), Pixel(b.y, h), Pixel(b.y + b.height, h), Pixel(b.y + b.height * 1.40, h), h);
  }

  // ----- The box around landmarks -----

  function Lowest(values: seq<real>): real {
    if values == [] then 1.0 else Min(Lowest(values[..|values| - 1]), values[|values| - 1])
  }

  function Highest(values: seq<real>): real {
    if values == [] then 0.0 else Max(Highest(values[..|values| - 1]), values[|values| - 1])
  }

  function Xs(landmarks: seq<Landmark>): seq<real> {
    seq(|landmarks|, i requires 0 <= i < |landmarks| => landmarks[i].x)
  }

  function Ys(landmarks: seq<Landmark>): seq<real> {
    seq(|landmarks|, i requires 0 <= i < |landmarks| => landmarks[i].y)
  }

  function Padded(left: real, top: real, right: real, bottom: real): Option<Bounds> {
    var width, height := right - left, bottom - top;
    if width <= 0.0 || height <= 0.0 then None
    else
      var l, t := Clamp(left - width * 0.12, 0.0, 1.0), Clamp(top - height * 0.22, 0.0, 1.0);
      var r, b := Clamp(right + width * 0.12, l, 1.0), Clamp(bottom + height * 0.08, t, 1.0);
      Some(Bounds(l, t, r - l, b - t))
  }

  function BoundsOf(landmarks: seq<Landmark>): Option<Bounds> {
    if |landmarks| <= LEFT_IRIS then None
    else Padded(Lowest(Xs(landmarks)), Lowest(Ys(landmarks)), Highest(Xs(landmarks)), Highest(Ys(landmarks)))
  }

  method PaddedBounds(landmarks: seq<Landmark>) returns (bounds: Option<Bounds>)
    ensures bounds == BoundsOf(landmarks)
  {
    if |landmarks| <= LEFT_IRIS {
      return None;
    }
    var left, top, right, bottom := 1.0, 1.0, 0.0, 0.0;
    for i := 0 to |landmarks|
      invariant left == Lowest(Xs(landmarks)[..i]) && top == Lowest(Ys(landmarks)[..i])
      invariant right == Highest(Xs(landmarks)[..i]) && bottom == Highest(Ys(landmarks)[..i])
    {
      var l := landmarks[i];
      assert Xs(landmarks)[..i + 1] == Xs(landmarks)[..i] + [l.x];
      assert Ys(landmarks)[..i + 1] == Ys(landmarks)[..i] + [l.y];
      left, top := Min(left, l.x), Min(top, l.y);
      right, bottom := Max(right, l.x), Max(bottom, l.y);
    }
    assert Xs(landmarks)[..|landmarks|] == Xs(landmarks) && Ys(landmarks)[..|landmarks|] == Ys(landmarks);
    return Padded(left, top, right, bottom);
  }

  lemma {:induction false} ExtremesBound(values: seq<real>, i: nat)
    requires i < |values|
    ensures Lowest(values) <= values[i] <= Highest(values)
  {
    if i < |values| - 1 {
      ExtremesBound(values[..|values| - 1], i);
    }
  }

  lemma {:induction false} ExtremesStart(values: seq<real>)
    ensures Lowest(values) <= 1.0 && 0.0 <= Highest(values)
  {
    if values != [] {
      ExtremesStart(values[..|values| - 1]);
    }
  }

  /** A box that is not refused lies in the image, has positive size, and
      contains every landmark that is itself in the image. */
  lemma BoundsHoldLandmarks(landmarks: seq<Landmark>)
    requires BoundsOf(landmarks).Some?
    ensures var b := BoundsOf(landmarks).value;
            && InImage(b)
            && forall l :: l in landmarks && 0.0 <= l.x <= 1.0 && 0.0 <= l.y <= 1.0 ==>
                 b.x <= l.x <= b.x + b.width && b.y <= l.y <= b.y + b.height
  {
    var (xs, ys) := (Xs(landmarks), Ys(landmarks));
    ExtremesStart(xs);
    ExtremesStart(ys);
    var b := BoundsOf(landmarks).value;
    forall l | l in landmarks && 0.0 <= l.x <= 1.0 && 0.0 <= l.y <= 1.0
      ensures b.x <= l.x <= b.x + b.width && b.y <= l.y <= b.y + b.height
    {
      var i :| 0 <= i < |landmarks| && landmarks[i] == l;
      ExtremesBound(xs, i);
      ExtremesBound(ys, i);
      assert xs[i] == l.x && ys[i] == l.y;
    }
  }

  // ----- Overlap of two boxes -----

  function Area(b: Bounds): real {
    Times(b.width, b.height)
  }

  function Times(a: real, b: real): real {
    a * b
  }

  /** Length of the common part of two intervals. */
  function Shared(a: real, aLength: real, b: real, bLength: real): real {
    Max(Min(a + aLength, b + bLength) - Max(a, b), 0.0)
  }

  function Intersection(a: Bounds, b: Bounds): real {
    Times(Shared(a.x, a.width, b.x, b.width), Shared(a.y, a.height, b.y, b.height))
  }

  function IntersectionOverUnion(a: Bounds, b: Bounds): real {
    OverUnion(Intersection(a, b), Area(a), Area(b))
  }

  function OverUnion(intersection: real, a: real, b: real): real {
    var union := a + b - intersection;
    if union <= 0.0 then 0.0 else intersection / union
  }

  lemma ProductMonotone(a: real, b: real, c: real, d: real)
    requires 0.0 <= a <= c && 0.0 <= b <= d
    ensures 0.0 <= a * b <= c * d
    ensures a * b == c * d && 0.0 < c && 0.0 < d ==> a == c && b == d
  {
    assert a * b <= c * b <= c * d;
    if a * b == c * d && 0.0 < c && 0.0 < d {
      if b < d {
        Scales(b, d, c);
      } else if a < c {
        Scales(a, c, b);
      }
    }
  }

  /** A fraction of non-negative parts, and when it is one. */
  lemma Fraction(n: real, d: real)
    requires 0.0 <= n <= d && 0.0 < d
    ensures 0.0 <= n / d <= 1.0 && (n / d == 1.0 <==> n == d) && (n / d == 0.0 <==> n == 0.0)
  {
    Quotient(n, d);
  }

  lemma OverlapSymmetric(a: Bounds, b: Bounds)
    ensures IntersectionOverUnion(a, b) == IntersectionOverUnion(b, a)
  {
    assert Shared(a.x, a.width, b.x, b.width) == Shared(b.x, b.width, a.x, a.width);
    assert Shared(a.y, a.height, b.y, b.height) == Shared(b.y, b.height, a.y, a.height);
  }

  /** For boxes of positive size the ratio is in [0, 1]: one exactly for equal
      boxes, zero exactly when no interior point is shared. */
  lemma OverlapIsRatio(a: Bounds, b: Bounds)
    requires a.width > 0.0 && a.height > 0.0 && b.width > 0.0 && b.height > 0.0
    ensures var r := IntersectionOverUnion(a, b);
            && 0.0 <= r <= 1.0
            && (r == 1.0 <==> a == b)
            && (r == 0.0 <==> Shared(a.x, a.width, b.x, b.width) == 0.0 || Shared(a.y, a.height, b.y, b.height) == 0.0)
  {
    var (w, h) := (Shared(a.x, a.width, b.x, b.width), Shared(a.y, a.height, b.y, b.height));
    SharedFits(a.x, a.width, b.x, b.width);
    SharedFits(a.y, a.height, b.y, b.height);
    RatioOfParts(w, h, a.width, a.height, b.width, b.height);
    hide Shared, Times, OverUnion;
  }

  lemma SharedFits(a: real, aLength: real, b: real, bLength: real)
    requires aLength > 0.0 && bLength > 0.0
    ensures var s := Shared(a, aLength, b, bLength);
            0.0 <= s <= aLength && s <= bLength && (s == aLength == bLength <==> a == b && aLength == bLength)
  {
  }

  lemma RatioOfParts(w: real, h: real, aw: real, ah: real, bw: real, bh: real)
    requires 0.0 <= w <= aw && w <= bw && 0.0 <= h <= ah && h <= bh
    requires 0.0 < aw && 0.0 < bw && 0.0 < ah && 0.0 < bh
    ensures var r := OverUnion(Times(w, h), Times(aw, ah), Times(bw, bh));
            && 0.0 <= r <= 1.0
            && (r == 1.0 <==> w == aw == bw && h == ah == bh)
            && (r == 0.0 <==> w == 0.0 || h == 0.0)
  {
    ProductMonotone(w, h, aw, ah);
    ProductMonotone(w, h, bw, bh);
    Scales(0.0, aw, ah);
    ZeroProduct(w, h);
    Parts(w * h, aw * ah, bw * bh);
  }

  lemma Parts(n: real, a: real, b: real)
    requires 0.0 <= n <= a && n <= b && 0.0 < a
    ensures var r := OverUnion(n, a, b);
            0.0 <= r <= 1.0 && (r == 1.0 <==> n == a == b) && (r == 0.0 <==> n == 0.0)
  {
    Fraction(n, a + b - n);
  }

  lemma ZeroProduct(a: real, b: real)
    ensures a * b == 0.0 <==> a == 0.0 || b == 0.0
  {
  }

  // ----- Collecting candidates -----

  datatype Detection = Detection(x: real, y: real, width: real, height: real, confidence: real)

  datatype Candidate = Candidate(bounds: Bounds, confidence: real, landmarks: seq<Landmark>)

  /** The photo, the detector's input and the landmark network on a crop. */
  datatype Photo = Photo(size: Size, detectorSize: Size, landmarker: Rect -> seq<seq<Landmark>>)

  predicate ValidPhoto(p: Photo) {
    p.size.width >= 1 && p.size.height >= 1 && p.detectorSize.width >= 0 && p.detectorSize.height >= 0
  }

  const OVERLAP := 0.35

  function OnPhoto(l: Landmark, crop: Rect, size: Size): Landmark
    requires size.width >= 1 && size.height >= 1
  {
    var w := size.width as real;
    Landmark((crop.x as real + l.x * crop.width as real) / w,
             (crop.y as real + l.y * crop.height as real) / size.height as real,
             l.z * crop.width as real / w)
  }

  function FaceOnPhoto(face: seq<Landmark>, crop: Rect, size: Size): seq<Landmark>
    requires size.width >= 1 && size.height >= 1
  {
    seq(|face|, i requires 0 <= i < |face| => OnPhoto(face[i], crop, size))
  }

  /** Every face with its box, or nothing when one of them has none. */
  function Boxed(faces: seq<seq<Landmark>>, confidence: real): Option<seq<Candidate>> {
    if faces == [] then Some([])
    else
      match Boxed(faces[..|faces| - 1], confidence)
      case None => None
      case Some(boxed) =>
        var last := faces[|faces| - 1];
        match BoundsOf(last)
        case None => None
        case Some(b) => Some(boxed + [Candidate(b, confidence, last)])
  }

  function CenterDistance(a: Bounds, b: Bounds): real {
    var x := (a.x + a.width / 2.0) - (b.x + b.width / 2.0);
    var y := (a.y + a.height / 2.0) - (b.y + b.height / 2.0);
    x * x + y * y
  }

  /** The first of the closest. */
  predicate IsClosest(faces: seq<Candidate>, target: Bounds, i: int) {
    && 0 <= i < |faces|
    && (forall k :: 0 <= k < |faces| ==> CenterDistance(faces[i].bounds, target) <= CenterDistance(faces[k].bounds, target))
    && (forall k :: 0 <= k < i ==> CenterDistance(faces[i].bounds, target) < CenterDistance(faces[k].bounds, target))
  }

  function Closest(faces: seq<Candidate>, target: Bounds): (i: int)
    requires faces != []
    ensures IsClosest(faces, target, i)
  {
    var n := |faces| - 1;
    if n == 0 then 0
    else
      var i := Closest(faces[..n], target);
      assert forall k :: 0 <= k < n ==> faces[..n][k] == faces[k];
      if CenterDistance(faces[n].bounds, target) < CenterDistance(faces[i].bounds, target) then n else i
  }

  predicate OverlapsAny(candidates: seq<Candidate>, b: Bounds) {
    exists i :: 0 <= i < |candidates| && IntersectionOverUnion(candidates[i].bounds, b) >= OVERLAP
  }

  datatype Found = Failed | Nothing | Face(face: Candidate)

  /** What one detector row finds: the face of its crop closest to the detection. */
  function FaceOf(photo: Photo, d: Detection): Found
    requires ValidPhoto(photo)
  {
    match NormalizedBounds(d.x, d.y, d.width, d.height, photo.detectorSize)
    case None => Failed
    case Some(detected) =>
      match LandmarkerCrop(detected, photo.size)
      case None => Failed
      case Some(crop) =>
        var found := photo.landmarker(crop);
        var faces := seq(|found|, i requires 0 <= i < |found| => FaceOnPhoto(found[i], crop, photo.size));
        match Boxed(faces, Clamp(d.confidence, 0.0, 1.0))
        case None => Failed
        case Some(boxed) => if boxed == [] then Nothing else Face(boxed[Closest(boxed, detected)])
  }

  /** The candidates after one row, or nothing where the engine fails. */
  function Examined(photo: Photo, candidates: seq<Candidate>, d: Detection): Option<seq<Candidate>>
    requires ValidPhoto(photo)
  {
    match FaceOf(photo, d)
    case Failed => None
    case Nothing => Some(candidates)
    case Face(face) => if OverlapsAny(candidates, face.bounds) then Some(candidates) else Some(candidates + [face])
  }

  function Collected(photo: Photo, full: seq<seq<Landmark>>, detections: seq<Detection>): Option<seq<Candidate>>
    requires ValidPhoto(photo)
  {
    if detections == [] then Boxed(full, 1.0)
    else
      match Collected(photo, full, detections[..|detections| - 1])
      case None => None
      case Some(candidates) => Examined(photo, candidates, detections[|detections| - 1])
  }

  /** Whether `a` may stand before `b`: larger first, then further left. */
  predicate Before(a: Candidate, b: Candidate) {
    Area(a.bounds) > Area(b.bounds) || (Area(a.bounds) == Area(b.bounds) && a.bounds.x <= b.bounds.x)
  }

  function Insert(sorted: seq<Candidate>, c: Candidate): seq<Candidate> {
    if sorted == [] || Before(sorted[|sorted| - 1], c) then sorted + [c]
    else Insert(sorted[..|sorted| - 1], c) + [sorted[|sorted| - 1]]
  }

  /** A stable sort, as `sort_by` is. */
  function SortFaces(candidates: seq<Candidate>): seq<Candidate> {
    if candidates == [] then []
    else Insert(SortFaces(candidates[..|candidates| - 1]), candidates[|candidates| - 1])
  }

  method Process(photo: Photo, full: seq<seq<Landmark>>, detections: seq<Detection>)
    returns (faces: Option<seq<Candidate>>)
    requires ValidPhoto(photo)
    ensures faces == match Collected(photo, full, detections)
                     case None => None
                     case Some(candidates) => Some(SortFaces(candidates))
  {
    var candidates: seq<Candidate> := [];
    for i := 0 to |full|
      invariant Boxed(full[..i], 1.0) == Some(candidates)
    {
      assert full[..i + 1][..i] == full[..i];
      var bounds := PaddedBounds(full[i]);
      if bounds.None? {
        BoxedFails(full, 1.0, i + 1);
        NothingCollected(photo, full, detections, 0);
        return None;
      }
      candidates := candidates + [Candidate(bounds.value, 1.0, full[i])];
    }
    assert full[..|full|] == full;
    for row := 0 to |detections|
      invariant Collected(photo, full, detections[..row]) == Some(candidates)
    {
      assert detections[..row + 1][..row] == detections[..row];
      var examined := Examined(photo, candidates, detections[row]);
      if examined.None? {
        NothingCollected(photo, full, detections, row + 1);
        return None;
      }
      candidates := examined.value;
    }
    assert detections[..|detections|] == detections;
    return Some(SortFaces(candidates));
  }

  lemma {:induction false} BoxedFails(faces: seq<seq<Landmark>>, confidence: real, n: nat)
    requires n <= |faces| && Boxed(faces[..n], confidence).None?
    ensures Boxed(faces, confidence).None?
    decreases |faces| - n
  {
    if n == |faces| {
      assert faces[..n] == faces;
    } else {
      assert faces[..n + 1][..n] == faces[..n];
      BoxedFails(faces, confidence, n + 1);
    }
  }

  lemma {:induction false} NothingCollected(photo: Photo, full: seq<seq<Landmark>>, detections: seq<Detection>, n: nat)
    requires ValidPhoto(photo) && n <= |detections| && Collected(photo, full, detections[..n]).None?
    ensures Collected(photo, full, detections).None?
    decreases |detections| - n
  {
    if n == |detections| {
      assert detections[..n] == detections;
    } else {
      assert detections[..n + 1][..n] == detections[..n];
      NothingCollected(photo, full, detections, n + 1);
    }
  }

  // ----- What the final list keeps -----

  /** From position `n` on, nothing overlaps any other candidate. */
  predicate StandApart(candidates: seq<Candidate>, n: nat) {
    forall i, j :: 0 <= i < |candidates| && n <= j < |candidates| && i != j ==>
      IntersectionOverUnion(candidates[i].bounds, candidates[j].bounds) < OVERLAP
  }

  lemma {:induction false} BoxedLength(faces: seq<seq<Landmark>>, confidence: real)
    requires Boxed(faces, confidence).Some?
    ensures |Boxed(faces, confidence).value| == |faces|
    ensures forall i :: 0 <= i < |faces| ==> Boxed(faces, confidence).value[i].landmarks == faces[i]
                                             && BoundsOf(faces[i]) == Some(Boxed(faces, confidence).value[i].bounds)
                                             && Boxed(faces, confidence).value[i].confidence == confidence
  {
    if faces != [] {
      BoxedLength(faces[..|faces| - 1], confidence);
    }
  }

  /** Full-frame faces stay in front, and every later face stands apart. */
  lemma {:induction false} CropFacesStandApart(photo: Photo, full: seq<seq<Landmark>>, detections: seq<Detection>)
    requires ValidPhoto(photo) && Collected(photo, full, detections).Some?
    ensures Boxed(full, 1.0).Some?
    ensures var candidates := Collected(photo, full, detections).value;
            Boxed(full, 1.0).value <= candidates && StandApart(candidates, |full|)
  {
    BoxedCase(full);
    if detections != [] {
      var before := detections[..|detections| - 1];
      CropFacesStandApart(photo, full, before);
      var candidates := Collected(photo, full, before).value;
      var after := Collected(photo, full, detections).value;
      if after != candidates {
        AppendApart(candidates, |full|, FaceOf(photo, detections[|detections| - 1]).face);
      }
    }
  }

  lemma BoxedCase(full: seq<seq<Landmark>>)
    ensures Boxed(full, 1.0).Some? ==> StandApart(Boxed(full, 1.0).value, |full|)
  {
    if Boxed(full, 1.0).Some? {
      BoxedLength(full, 1.0);
    }
  }

  lemma AppendApart(candidates: seq<Candidate>, n: nat, face: Candidate)
    requires StandApart(candidates, n) && !OverlapsAny(candidates, face.bounds)
    ensures StandApart(candidates + [face], n)
  {
    var after := candidates + [face];
    forall i, j | 0 <= i < |after| && n <= j < |after| && i != j
      ensures IntersectionOverUnion(after[i].bounds, after[j].bounds) < OVERLAP
    {
      if i == |candidates| {
        OverlapSymmetric(after[i].bounds, after[j].bounds);
        assert IntersectionOverUnion(candidates[j].bounds, face.bounds) < OVERLAP;
      } else if j == |candidates| {
        assert IntersectionOverUnion(candidates[i].bounds, face.bounds) < OVERLAP;
      }
    }
  }

  predicate Ordered(faces: seq<Candidate>) {
    forall i, j :: 0 <= i < j < |faces| ==> Before(faces[i], faces[j])
  }

  lemma {:induction false} InsertKeeps(sorted: seq<Candidate>, c: Candidate)
    ensures multiset(Insert(sorted, c)) == multiset(sorted) + multiset{c}
    decreases |sorted|
  {
    hide Before;
    var n := |sorted| - 1;
    if n >= 0 {
      InsertKeeps(sorted[..n], c);
      assert sorted == sorted[..n] + [sorted[n]];
    }
  }

  lemma {:induction false} InsertOrders(sorted: seq<Candidate>, c: Candidate)
    requires Ordered(sorted)
    ensures Ordered(Insert(sorted, c))
    decreases |sorted|
  {
    hide Times;
    var n := |sorted| - 1;
    if n >= 0 && !Before(sorted[n], c) {
      InsertOrders(sorted[..n], c);
      InsertKeeps(sorted[..n], c);
      var rest := Insert(sorted[..n], c);
      forall i | 0 <= i < |rest|
        ensures Before(rest[i], sorted[n])
      {
        assert rest[i] in multiset(rest);
        if rest[i] != c {
          assert rest[i] in sorted[..n];
        }
      }
    }
  }

  lemma {:induction false} SortOrders(candidates: seq<Candidate>)
    ensures Ordered(SortFaces(candidates)) && multiset(SortFaces(candidates)) == multiset(candidates)
  {
    hide Before, Insert;
    if candidates != [] {
      var n := |candidates| - 1;
      SortOrders(candidates[..n]);
      InsertOrders(SortFaces(candidates[..n]), candidates[n]);
      InsertKeeps(SortFaces(candidates[..n]), candidates[n]);
      assert candidates == candidates[..n] + [candidates[n]];
    }
  }

  lemma {:induction false} PairIsFound(s: seq<Candidate>, p: Candidate, q: Candidate) returns (i: nat, j: nat)
    requires multiset{p, q} <= multiset(s)
    ensures i < |s| && j < |s| && i != j && s[i] == p && s[j] == q
    decreases |s|
  {
    assert p in multiset(s) && q in multiset(s);
    i :| i < |s| && s[i] == p;
    assert s == s[..i] + [s[i]] + s[i + 1..];
    assert multiset(s) == multiset(s[..i]) + multiset{p} + multiset(s[i + 1..]);
    assert q in multiset(s[..i]) + multiset(s[i + 1..]);
    if q in multiset(s[..i]) {
      j :| j < i && s[..i][j] == q;
    } else {
      var k :| 0 <= k < |s| - i - 1 && s[i + 1..][k] == q;
      j := i + 1 + k;
    }
  }

  lemma PairIsPart(s: seq<Candidate>, i: nat, j: nat)
    requires i < j < |s|
    ensures multiset{s[i], s[j]} <= multiset(s)
  {
    assert s == s[..i] + [s[i]] + s[i + 1..j] + [s[j]] + s[j + 1..];
    assert multiset(s) == multiset(s[..i]) + multiset{s[i]} + multiset(s[i + 1..j]) + multiset{s[j]} + multiset(s[j + 1..]);
  }

  /** Two faces of the final list overlap only if both come from the full
      frame: a face found in a crop overlaps no other face. */
  lemma CropFacesOverlapNothing(photo: Photo, full: seq<seq<Landmark>>, detections: seq<Detection>, i: nat, j: nat)
    requires ValidPhoto(photo) && Collected(photo, full, detections).Some?
    requires i < j < |SortFaces(Collected(photo, full, detections).value)|
    ensures var faces := SortFaces(Collected(photo, full, detections).value);
            IntersectionOverUnion(faces[i].bounds, faces[j].bounds) >= OVERLAP ==>
              Boxed(full, 1.0).Some? && faces[i] in Boxed(full, 1.0).value && faces[j] in Boxed(full, 1.0).value
  {
    var candidates := Collected(photo, full, detections).value;
    var faces := SortFaces(candidates);
    SortOrders(candidates);
    PairIsPart(faces, i, j);
    var k, m := PairIsFound(candidates, faces[i], faces[j]);
    CropFacesStandApart(photo, full, detections);
    BoxedLength(full, 1.0);
    OverlapSymmetric(faces[i].bounds, faces[j].bounds);
    if IntersectionOverUnion(faces[i].bounds, faces[j].bounds) >= OVERLAP {
      assert k < |full| && m < |full|;
      assert candidates[k] == Boxed(full, 1.0).value[k] && candidates[m] == Boxed(full, 1.0).value[m];
    }
  }

  lemma {:induction false} CollectedInImage(photo: Photo, full: seq<seq<Landmark>>, detections: seq<Detection>)
    requires ValidPhoto(photo) && Collected(photo, full, detections).Some?
    ensures forall c :: c in Collected(photo, full, detections).value ==>
              InImage(c.bounds) && BoundsOf(c.landmarks) == Some(c.bounds)
  {
    if detections == [] {
      BoxedInImage(full, 1.0);
    } else {
      var before := detections[..|detections| - 1];
      CollectedInImage(photo, full, before);
      if FaceOf(photo, detections[|detections| - 1]).Face? {
        FaceInImage(photo, detections[|detections| - 1]);
      }
    }
  }

  lemma BoxedInImage(faces: seq<seq<Landmark>>, confidence: real)
    requires Boxed(faces, confidence).Some?
    ensures forall c :: c in Boxed(faces, confidence).value ==> InImage(c.bounds) && BoundsOf(c.landmarks) == Some(c.bounds)
  {
    BoxedLength(faces, confidence);
    forall c | c in Boxed(faces, confidence).value
      ensures InImage(c.bounds) && BoundsOf(c.landmarks) == Some(c.bounds)
    {
      var i :| 0 <= i < |faces| && Boxed(faces, confidence).value[i] == c;
      BoundsHoldLandmarks(faces[i]);
    }
  }

  lemma FaceInImage(photo: Photo, d: Detection)
    requires ValidPhoto(photo) && FaceOf(photo, d).Face?
    ensures var c := FaceOf(photo, d).face; InImage(c.bounds) && BoundsOf(c.landmarks) == Some(c.bounds)
  {
    var detected := NormalizedBounds(d.x, d.y, d.width, d.height, photo.detectorSize).value;
    var crop := LandmarkerCrop(detected, photo.size).value;
    var found := photo.landmarker(crop);
    var faces := seq(|found|, i requires 0 <= i < |found| => FaceOnPhoto(found[i], crop, photo.size));
    BoxedInImage(faces, Clamp(d.confidence, 0.0, 1.0));
    var boxed := Boxed(faces, Clamp(d.confidence, 0.0, 1.0)).value;
    assert boxed[Closest(boxed, detected)] in boxed;
  }

  /** No detection is lost: some final face overlaps the one found for it. */
  lemma {:induction false} DetectionsAreCovered(photo: Photo, full: seq<seq<Landmark>>, detections: seq<Detection>, k: nat)
    requires ValidPhoto(photo) && Collected(photo, full, detections).Some? && k < |detections|
    ensures !FaceOf(photo, detections[k]).Failed?
    ensures FaceOf(photo, detections[k]).Face? ==>
              OverlapsAny(SortFaces(Collected(photo, full, detections).value), FaceOf(photo, detections[k]).face.bounds)
  {
    FaceIsCovered(photo, full, detections, k);
    var candidates := Collected(photo, full, detections).value;
    if FaceOf(photo, detections[k]).Face? {
      var b := FaceOf(photo, detections[k]).face.bounds;
      var i :| 0 <= i < |candidates| && IntersectionOverUnion(candidates[i].bounds, b) >= OVERLAP;
      SortOrders(candidates);
      assert candidates[i] in multiset(SortFaces(candidates));
      var j :| 0 <= j < |SortFaces(candidates)| && SortFaces(candidates)[j] == candidates[i];
    }
  }

  lemma {:induction false} FaceIsCovered(photo: Photo, full: seq<seq<Landmark>>, detections: seq<Detection>, k: nat)
    requires ValidPhoto(photo) && Collected(photo, full, detections).Some? && k < |detections|
    ensures !FaceOf(photo, detections[k]).Failed?
    ensures FaceOf(photo, detections[k]).Face? ==>
              OverlapsAny(Collected(photo, full, detections).value, FaceOf(photo, detections[k]).face.bounds)
  {
    hide FaceOf, IntersectionOverUnion, InImage;
    var n := |detections| - 1;
    var before := Collected(photo, full, detections[..n]).value;
    if k < n {
      FaceIsCovered(photo, full, detections[..n], k);
      if FaceOf(photo, detections[k]).Face? {
        var b := FaceOf(photo, detections[k]).face.bounds;
        var i :| 0 <= i < |before| && IntersectionOverUnion(before[i].bounds, b) >= OVERLAP;
        assert Collected(photo, full, detections).value[i] == before[i];
      }
    } else if FaceOf(photo, detections[n]).Face? {
      var face := FaceOf(photo, detections[n]).face;
      FaceInImage(photo, detections[n]);
      OverlapIsRatio(face.bounds, face.bounds);
      if !OverlapsAny(before, face.bounds) {
        assert (before + [face])[|before|] == face;
      }
    }
  }
}
