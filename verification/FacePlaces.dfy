/** Where the faces of FaceGeometry lie, in pixels and areas
    (processor/src/mediapipe_engine.rs). */
module FacePlaces {
  import opened Text
  import opened FaceGeometry

  // ----- A crop's landmarks on the photo -----

  /** In pixels, the crop's corner and the landmark's share of the crop. */
  predicate Lands(on: Landmark, l: Landmark, crop: Rect, size: Size) {
    && on.x * size.width as real == crop.x as real + l.x * crop.width as real
    && on.y * size.height as real == crop.y as real + l.y * crop.height as real
    && on.z * size.width as real == l.z * crop.width as real
  }

  lemma LandmarkLands(l: Landmark, crop: Rect, size: Size)
    requires size.width >= 1 && size.height >= 1
    ensures Lands(OnPhoto(l, crop, size), l, crop, size)
  {
    var (w, h) := (size.width as real, size.height as real);
    Quotient(crop.x as real + l.x * crop.width as real, w);
    Quotient(crop.y as real + l.y * crop.height as real, h);
    Quotient(l.z * crop.width as real, w);
  }

  /** A landmark of the crop lands in the crop. */
  lemma LandsInside(on: Landmark, l: Landmark, crop: Rect, size: Size)
    requires Lands(on, l, crop, size) && 0.0 <= l.x <= 1.0 && 0.0 <= l.y <= 1.0 && crop.width >= 0 && crop.height >= 0
    ensures crop.x as real <= on.x * size.width as real <= (crop.x + crop.width) as real
    ensures crop.y as real <= on.y * size.height as real <= (crop.y + crop.height) as real
  {
    InSpan(on.x * size.width as real, crop.x as real, l.x, crop.width as real);
    InSpan(on.y * size.height as real, crop.y as real, l.y, crop.height as real);
  }

  lemma InSpan(at: real, corner: real, part: real, whole: real)
    requires at == corner + part * whole && 0.0 <= part <= 1.0 && 0.0 <= whole
    ensures corner <= at <= corner + whole
  {
    Share(part, whole);
  }

  lemma Share(part: real, whole: real)
    requires 0.0 <= part <= 1.0 && 0.0 <= whole
    ensures 0.0 <= part * whole <= whole
  {
    ProductMonotone(0.0, 0.0, part, whole);
    ProductMonotone(part, whole, 1.0, whole);
  }

  // ----- What one detection finds -----

  /** The candidate is face `k` of the landmark network on the crop, put on the
      photo, with the box of its landmarks. */
  predicate IsFaceOfCrop(photo: Photo, d: Detection, c: Candidate, crop: Rect, k: nat)
    requires ValidPhoto(photo)
  {
    var found := photo.landmarker(crop);
    && k < |found|
    && |c.landmarks| == |found[k]|
    && (forall i :: 0 <= i < |found[k]| ==> Lands(c.landmarks[i], found[k][i], crop, photo.size))
    && BoundsOf(c.landmarks) == Some(c.bounds)
    && c.confidence == (if d.confidence < 0.0 then 0.0 else if d.confidence > 1.0 then 1.0 else d.confidence)
  }

  /** The square of the distance of two boxes' middles. */
  function Apart(a: Bounds, b: Bounds): real {
    Square((2.0 * a.x + a.width - 2.0 * b.x - b.width) / 2.0) + Square((2.0 * a.y + a.height - 2.0 * b.y - b.height) / 2.0)
  }

  function Square(x: real): real {
    x * x
  }

  lemma ApartIsCenterDistance(a: Bounds, b: Bounds)
    ensures CenterDistance(a, b) == Apart(a, b)
  {
    var x := (a.x + a.width / 2.0) - (b.x + b.width / 2.0);
    var y := (a.y + a.height / 2.0) - (b.y + b.height / 2.0);
    assert x == (2.0 * a.x + a.width - 2.0 * b.x - b.width) / 2.0;
    assert y == (2.0 * a.y + a.height - 2.0 * b.y - b.height) / 2.0;
  }

  function FacesOn(photo: Photo, crop: Rect): seq<seq<Landmark>>
    requires ValidPhoto(photo)
  {
    var found := photo.landmarker(crop);
    seq(|found|, i requires 0 <= i < |found| => FaceOnPhoto(found[i], crop, photo.size))
  }

  /** A detection's face is one of its crop, the first of those whose middle is
      nearest to the detection's. */
  lemma FaceOfIsOfCrop(photo: Photo, d: Detection) returns (crop: Rect, k: nat)
    requires ValidPhoto(photo) && FaceOf(photo, d).Face?
    ensures var detected := NormalizedBounds(d.x, d.y, d.width, d.height, photo.detectorSize);
            && detected.Some? && LandmarkerCrop(detected.value, photo.size) == Some(crop)
            && IsFaceOfCrop(photo, d, FaceOf(photo, d).face, crop, k)
            && forall i :: 0 <= i < |FacesOn(photo, crop)| ==>
                 && BoundsOf(FacesOn(photo, crop)[i]).Some?
                 && var (mine, other) := (Apart(FaceOf(photo, d).face.bounds, detected.value),
                                          Apart(BoundsOf(FacesOn(photo, crop)[i]).value, detected.value));
                 mine <= other && (i < k ==> mine < other)
  {
    var detected := NormalizedBounds(d.x, d.y, d.width, d.height, photo.detectorSize).value;
    crop := LandmarkerCrop(detected, photo.size).value;
    var faces := FacesOn(photo, crop);
    var boxed := Boxed(faces, Clamp(d.confidence, 0.0, 1.0)).value;
    k := Closest(boxed, detected);
    BoxedLength(faces, Clamp(d.confidence, 0.0, 1.0));
    var face := boxed[k];
    assert FaceOf(photo, d).face == face;
    var found := photo.landmarker(crop);
    forall i | 0 <= i < |found[k]|
      ensures Lands(face.landmarks[i], found[k][i], crop, photo.size)
    {
      LandmarkLands(found[k][i], crop, photo.size);
    }
    hide BoundsOf, NormalizedBounds, LandmarkerCrop;
    forall i | 0 <= i < |faces|
      ensures Apart(face.bounds, detected) <= Apart(BoundsOf(faces[i]).value, detected)
      ensures i < k ==> Apart(face.bounds, detected) < Apart(BoundsOf(faces[i]).value, detected)
    {
      ApartIsCenterDistance(face.bounds, detected);
      ApartIsCenterDistance(boxed[i].bounds, detected);
    }
  }

  /** A detection fails the photo exactly when nothing of it is in the image or
      some face of its crop has no box, and finds nothing exactly when its crop
      has no face. */
  lemma FaceOfFails(photo: Photo, d: Detection)
    requires ValidPhoto(photo)
    ensures var detected := NormalizedBounds(d.x, d.y, d.width, d.height, photo.detectorSize);
            && (detected.None? ==> FaceOf(photo, d).Failed?)
            && (detected.Some? ==>
                  && LandmarkerCrop(detected.value, photo.size).Some?
                  && var faces := FacesOn(photo, LandmarkerCrop(detected.value, photo.size).value);
                  && (FaceOf(photo, d).Failed? <==> exists i :: 0 <= i < |faces| && BoundsOf(faces[i]).None?)
                  && (FaceOf(photo, d).Nothing? <==> faces == []))
  {
    var detected := NormalizedBounds(d.x, d.y, d.width, d.height, photo.detectorSize);
    if detected.Some? {
      NormalizedIsClipped(d.x, d.y, d.width, d.height, photo.detectorSize);
      CropContainsBox(detected.value, photo.size);
      var faces := FacesOn(photo, LandmarkerCrop(detected.value, photo.size).value);
      BoxedWhen(faces, Clamp(d.confidence, 0.0, 1.0));
      if Boxed(faces, Clamp(d.confidence, 0.0, 1.0)).Some? {
        BoxedLength(faces, Clamp(d.confidence, 0.0, 1.0));
      }
    }
    hide BoundsOf, NormalizedBounds, LandmarkerCrop, InImage;
  }

  lemma {:induction false} BoxedWhen(faces: seq<seq<Landmark>>, confidence: real)
    ensures Boxed(faces, confidence).None? <==> exists i :: 0 <= i < |faces| && BoundsOf(faces[i]).None?
  {
    hide BoundsOf;
    if faces != [] {
      var n := |faces| - 1;
      BoxedWhen(faces[..n], confidence);
      assert forall i :: 0 <= i < n ==> faces[..n][i] == faces[i];
    }
  }

  // ----- The candidates -----

  /** Every candidate after the full-frame faces is some detection's face: its
      landmarks are the crop's, put where the crop is. */
  lemma {:induction false} LaterFacesAreOfCrops(photo: Photo, full: seq<seq<Landmark>>, detections: seq<Detection>, j: nat)
    returns (n: nat)
    requires ValidPhoto(photo) && Collected(photo, full, detections).Some?
    requires |full| <= j < |Collected(photo, full, detections).value|
    ensures n < |detections| && FaceOf(photo, detections[n]).Face?
    ensures Collected(photo, full, detections).value[j] == FaceOf(photo, detections[n]).face
  {
    hide FaceOf, BoundsOf;
    if detections == [] {
      BoxedLength(full, 1.0);
      assert false;
    } else {
      var last := |detections| - 1;
      var before := Collected(photo, full, detections[..last]).value;
      if j < |before| {
        n := LaterFacesAreOfCrops(photo, full, detections[..last], j);
      } else {
        n := last;
      }
    }
  }

  lemma LaterFacesLand(photo: Photo, full: seq<seq<Landmark>>, detections: seq<Detection>, j: nat)
    returns (n: nat, crop: Rect, k: nat)
    requires ValidPhoto(photo) && Collected(photo, full, detections).Some?
    requires |full| <= j < |Collected(photo, full, detections).value|
    ensures n < |detections| && IsFaceOfCrop(photo, detections[n], Collected(photo, full, detections).value[j], crop, k)
    ensures var d := detections[n];
            var detected := NormalizedBounds(d.x, d.y, d.width, d.height, photo.detectorSize);
            detected.Some? && LandmarkerCrop(detected.value, photo.size) == Some(crop)
  {
    n := LaterFacesAreOfCrops(photo, full, detections, j);
    hide IsFaceOfCrop, FaceOf, Collected;
    crop, k := FaceOfIsOfCrop(photo, detections[n]);
  }

  /** The photo fails exactly when some full-frame face has no box or some
      detection fails. */
  lemma {:induction false} CollectedWhen(photo: Photo, full: seq<seq<Landmark>>, detections: seq<Detection>)
    requires ValidPhoto(photo)
    ensures Collected(photo, full, detections).None?
       <==> || (exists i :: 0 <= i < |full| && BoundsOf(full[i]).None?)
            || (exists i :: 0 <= i < |detections| && FaceOf(photo, detections[i]).Failed?)
  {
    hide FaceOf, BoundsOf;
    if detections == [] {
      BoxedWhen(full, 1.0);
    } else {
      var n := |detections| - 1;
      CollectedWhen(photo, full, detections[..n]);
      assert forall i :: 0 <= i < n ==> detections[..n][i] == detections[i];
    }
  }

  // ----- The box around landmarks -----

  /** `low` is the lowest of the values and 1, `high` the highest of them and 0. */
  predicate Extremes(values: seq<real>, low: real, high: real) {
    && low <= 1.0 && (forall i :: 0 <= i < |values| ==> low <= values[i])
    && (low == 1.0 || exists i :: 0 <= i < |values| && values[i] == low)
    && 0.0 <= high && (forall i :: 0 <= i < |values| ==> values[i] <= high)
    && (high == 0.0 || exists i :: 0 <= i < |values| && values[i] == high)
  }

  lemma {:induction false} ExtremesAre(values: seq<real>)
    ensures Extremes(values, Lowest(values), Highest(values))
  {
    if values != [] {
      var n := |values| - 1;
      ExtremesAre(values[..n]);
      assert forall i :: 0 <= i < n ==> values[..n][i] == values[i];
    }
  }

  /** The box is the landmarks' extent widened by 12 percent on each side, by 22
      above and 8 below, cut to the image; none without extent. */
  lemma BoxMargins(landmarks: seq<Landmark>, left: real, right: real, top: real, bottom: real)
    requires |landmarks| >= 474 && Extremes(Xs(landmarks), left, right) && Extremes(Ys(landmarks), top, bottom)
    ensures BoundsOf(landmarks).Some? <==> left < right && top < bottom
    ensures BoundsOf(landmarks).Some? ==>
              var b := BoundsOf(landmarks).value;
              && b.x == Max(0.0, left - 0.12 * (right - left)) && b.x + b.width == Min(1.0, right + 0.12 * (right - left))
              && b.y == Max(0.0, top - 0.22 * (bottom - top)) && b.y + b.height == Min(1.0, bottom + 0.08 * (bottom - top))
  {
    ExtremesAre(Xs(landmarks));
    ExtremesAre(Ys(landmarks));
    OnlyExtremes(Xs(landmarks), left, right, Lowest(Xs(landmarks)), Highest(Xs(landmarks)));
    OnlyExtremes(Ys(landmarks), top, bottom, Lowest(Ys(landmarks)), Highest(Ys(landmarks)));
  }

  /** No box comes from fewer landmarks than the face mesh with its irises has. */
  lemma TooFewLandmarks(landmarks: seq<Landmark>)
    requires |landmarks| < 474
    ensures BoundsOf(landmarks).None?
  {
  }

  lemma OnlyExtremes(values: seq<real>, low: real, high: real, low': real, high': real)
    requires Extremes(values, low, high) && Extremes(values, low', high')
    ensures low == low' && high == high'
  {
  }

  // ----- Overlap and order -----

  predicate Within(p: real, from: real, length: real) {
    from <= p <= from + length
  }

  predicate Interior(p: real, from: real, length: real) {
    from < p < from + length
  }

  /** The common part of two intervals is an interval of the shared length. */
  lemma SharedIsCommon(a: real, aLength: real, b: real, bLength: real) returns (from: real)
    requires aLength > 0.0 && bLength > 0.0
    ensures var s := Shared(a, aLength, b, bLength);
            && s >= 0.0
            && (s > 0.0 ==> forall p :: Within(p, a, aLength) && Within(p, b, bLength) <==> Within(p, from, s))
            && (s == 0.0 ==> forall p :: Interior(p, a, aLength) ==> !Interior(p, b, bLength))
  {
    from := Max(a, b);
  }

  lemma AreasAre(a: Bounds, b: Bounds)
    ensures Area(a) == a.width * a.height
    ensures Intersection(a, b) == Shared(a.x, a.width, b.x, b.width) * Shared(a.y, a.height, b.y, b.height)
  {
  }

  /** Overlap times the area of the union is the area in common. */
  lemma OverlapOfAreas(a: Bounds, b: Bounds)
    requires a.width > 0.0 && a.height > 0.0 && b.width > 0.0 && b.height > 0.0
    ensures IntersectionOverUnion(a, b) * (Area(a) + Area(b) - Intersection(a, b)) == Intersection(a, b)
  {
    PartOfBoth(a, b);
    hide OverUnion, Area, Intersection;
    UnionTimes(Intersection(a, b), Area(a), Area(b));
  }

  lemma PartOfBoth(a: Bounds, b: Bounds)
    requires a.width > 0.0 && a.height > 0.0 && b.width > 0.0 && b.height > 0.0
    ensures 0.0 <= Intersection(a, b) <= Area(a) && Intersection(a, b) <= Area(b) && 0.0 < Area(a)
  {
    SharedFits(a.x, a.width, b.x, b.width);
    SharedFits(a.y, a.height, b.y, b.height);
    hide Shared, Times;
    TimesMonotone(Shared(a.x, a.width, b.x, b.width), Shared(a.y, a.height, b.y, b.height), a.width, a.height);
    TimesMonotone(Shared(a.x, a.width, b.x, b.width), Shared(a.y, a.height, b.y, b.height), b.width, b.height);
  }

  lemma TimesMonotone(a: real, b: real, c: real, d: real)
    requires 0.0 <= a <= c && 0.0 <= b <= d && 0.0 < c && 0.0 < d
    ensures 0.0 <= Times(a, b) <= Times(c, d) && 0.0 < Times(c, d)
  {
    ProductMonotone(a, b, c, d);
    Positive(c, d);
  }

  lemma UnionTimes(n: real, a: real, b: real)
    requires 0.0 <= n <= a && n <= b && 0.0 < a
    ensures OverUnion(n, a, b) * (a + b - n) == n
  {
    Quotient(n, a + b - n);
  }

  /** The faces of one area and left edge, in their order. */
  function Alike(faces: seq<Candidate>, c: Candidate): seq<Candidate> {
    if faces == [] then []
    else
      var last := faces[|faces| - 1];
      Alike(faces[..|faces| - 1], c)
      + if Times(last.bounds.width, last.bounds.height) == Times(c.bounds.width, c.bounds.height) && last.bounds.x == c.bounds.x
        then [last] else []
  }

  lemma AlikeOne(faces: seq<Candidate>, last: Candidate, c: Candidate)
    ensures Alike(faces + [last], c) == Alike(faces, c) + Alike([last], c)
  {
    assert (faces + [last])[..|faces|] == faces && [last][..0] == [];
    assert Alike([], c) == [] && Alike([last], c) == [] + Alike([last], c);
  }

  lemma {:induction false} InsertIsStable(sorted: seq<Candidate>, x: Candidate, c: Candidate)
    ensures Alike(Insert(sorted, x), c) == Alike(sorted, c) + Alike([x], c)
    decreases |sorted|
  {
    hide Times;
    if sorted == [] || Before(sorted[|sorted| - 1], x) {
      AlikeOne(sorted, x, c);
    } else {
      var (rest, last) := (sorted[..|sorted| - 1], sorted[|sorted| - 1]);
      InsertIsStable(rest, x, c);
      AlikeOne(Insert(rest, x), last, c);
      AlikeOne(rest, last, c);
      assert sorted == rest + [last];
      NotAlike(last, x, c);
    }
  }

  /** Of two faces that may not stand in this order, only one is like a third. */
  lemma NotAlike(last: Candidate, x: Candidate, c: Candidate)
    requires !Before(last, x)
    ensures Alike([last], c) == [] || Alike([x], c) == []
  {
    hide Times;
    assert [last][..0] == [] && [x][..0] == [];
  }

  /** The final list is the candidates in order of area, largest first, and of
      left edge where areas are equal; faces equal in both keep their order. */
  lemma SortedFaces(candidates: seq<Candidate>, c: Candidate)
    ensures var faces := SortFaces(candidates);
            && multiset(faces) == multiset(candidates)
            && (forall i, j :: 0 <= i < j < |faces| ==>
                  var (a, b) := (faces[i].bounds, faces[j].bounds);
                  a.width * a.height > b.width * b.height || (a.width * a.height == b.width * b.height && a.x <= b.x))
            && Alike(faces, c) == Alike(candidates, c)
  {
    SortOrders(candidates);
    hide SortFaces;
    var faces := SortFaces(candidates);
    forall i, j | 0 <= i < j < |faces|
      ensures var (a, b) := (faces[i].bounds, faces[j].bounds);
              a.width * a.height > b.width * b.height || (a.width * a.height == b.width * b.height && a.x <= b.x)
    {
      BeforeMeans(faces[i], faces[j]);
    }
    hide Before;
    SortIsStable(candidates, c);
  }

  lemma BeforeMeans(a: Candidate, b: Candidate)
    requires Before(a, b)
    ensures || a.bounds.width * a.bounds.height > b.bounds.width * b.bounds.height
            || (a.bounds.width * a.bounds.height == b.bounds.width * b.bounds.height && a.bounds.x <= b.bounds.x)
  {
  }

  lemma {:induction false} SortIsStable(candidates: seq<Candidate>, c: Candidate)
    ensures Alike(SortFaces(candidates), c) == Alike(candidates, c)
  {
    hide Times, Insert;
    if candidates != [] {
      var n := |candidates| - 1;
      SortIsStable(candidates[..n], c);
      InsertIsStable(SortFaces(candidates[..n]), candidates[n], c);
      AlikeOne(candidates[..n], candidates[n], c);
      assert candidates == candidates[..n] + [candidates[n]];
    }
  }
}
