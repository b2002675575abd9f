/** The MJPEG scanner of device/src/lab.rs: bytes of a camera's stream in, whole
    JPEG frames out. */
module PreviewScanner {
  import opened Text

  const MAX_PREVIEW_JPEG_BYTES: nat := 4 * 1024 * 1024

  // ----- One byte -----

  /** What the reading thread holds between bytes, and every frame it has shown. */
  datatype Scan = Scan(current: seq<byte>, insideJpeg: bool, previousWasFf: bool, shown: seq<seq<byte>>)

  const IDLE := Scan([], false, false, [])

  function Step(s: Scan, b: byte): Scan {
    if !s.insideJpeg then
      if s.previousWasFf && b == 0xd8
      then s.(current := [0xff, 0xd8], insideJpeg := true, previousWasFf := false)
      else s.(previousWasFf := b == 0xff)
    else
      var grown := s.current + [b];
      if |grown| >= 2 && grown[|grown| - 2..] == [0xff, 0xd9] then Scan([], false, false, s.shown + [grown])
      else if |grown| > MAX_PREVIEW_JPEG_BYTES then Scan([], false, false, s.shown)
      else s.(current := grown)
  }

  /** The scan after the bytes of `stream` from position `p` on. */
  function Scanned(s: Scan, stream: seq<byte>, p: nat): Scan
    requires p <= |stream|
    decreases |stream| - p
  {
    if p == |stream| then s else Scanned(Step(s, stream[p]), stream, p + 1)
  }

  // ----- The reading loop -----

  class Preview {
    var current: seq<byte>
    var insideJpeg: bool
    var previousWasFf: bool
    /** The frame the admin page is served. */
    var frame: Option<seq<byte>>
    ghost var shown: seq<seq<byte>>

    ghost function State(): Scan
      reads this
    {
      Scan(current, insideJpeg, previousWasFf, shown)
    }

    ghost predicate Valid()
      reads this
    {
      && |current| <= MAX_PREVIEW_JPEG_BYTES
      && frame == if shown == [] then None else Some(shown[|shown| - 1])
    }

    constructor ()
      ensures Valid() && State() == IDLE && frame == None
    {
      current, insideJpeg, previousWasFf, frame, shown := [], false, false, None, [];
    }

    method ConsumeByte(b: byte)
      requires Valid()
      modifies this
      ensures Valid() && State() == Step(old(State()), b)
    {
      if !insideJpeg {
        if previousWasFf && b == 0xd8 {
          current := [0xff, 0xd8];
          insideJpeg := true;
          previousWasFf := false;
        } else {
          previousWasFf := b == 0xff;
        }
        return;
      }
      current := current + [b];
      var length := |current|;
      if length >= 2 && current[length - 2..] == [0xff, 0xd9] {
        frame := Some(current);
        shown := shown + [current];
        current := [];
        insideJpeg := false;
        previousWasFf := false;
      } else if length > MAX_PREVIEW_JPEG_BYTES {
        current := [];
        insideJpeg := false;
        previousWasFf := false;
      }
    }

    /** One successful read of the pipe. */
    method Consume(buffer: seq<byte>)
      requires Valid()
      modifies this
      ensures Valid() && State() == Scanned(old(State()), buffer, 0)
    {
      var i := 0;
      while i < |buffer|
        invariant 0 <= i <= |buffer|
        invariant Valid()
        invariant Scanned(State(), buffer, i) == Scanned(old(State()), buffer, 0)
      {
        ConsumeByte(buffer[i]);
        i := i + 1;
      }
    }

    /** The whole loop over successive reads, as the pipe happens to split them. */
    method ConsumeAll(pieces: seq<seq<byte>>)
      requires Valid()
      modifies this
      ensures Valid() && State() == Scanned(old(State()), Joined(pieces), 0)
    {
      var i := 0;
      assert pieces[..0] == [];
      while i < |pieces|
        invariant 0 <= i <= |pieces|
        invariant Valid()
        invariant State() == Scanned(old(State()), Joined(pieces[..i]), 0)
      {
        ghost var before := State();
        Consume(pieces[i]);
        JoinedLast(pieces, i);
        ReadsCompose(old(State()), Joined(pieces[..i]), pieces[i]);
        i := i + 1;
      }
      assert pieces[..|pieces|] == pieces;
    }
  }

  // ----- Reads may fall anywhere -----

  function Joined(pieces: seq<seq<byte>>): seq<byte> {
    if pieces == [] then [] else Joined(pieces[..|pieces| - 1]) + pieces[|pieces| - 1]
  }

  lemma JoinedLast(pieces: seq<seq<byte>>, i: nat)
    requires i < |pieces|
    ensures Joined(pieces[..i + 1]) == Joined(pieces[..i]) + pieces[i]
  {
    assert pieces[..i + 1][..i] == pieces[..i];
  }

  /** Reading two pieces one after the other is reading their concatenation. */
  lemma ReadsCompose(s: Scan, a: seq<byte>, b: seq<byte>)
    ensures Scanned(s, a + b, 0) == Scanned(Scanned(s, a, 0), b, 0)
  {
    ScannedSplit(s, a, b, 0);
    ScannedShift(Scanned(s, a, 0), a, b, 0);
  }

  lemma {:induction false} ScannedSplit(s: Scan, a: seq<byte>, b: seq<byte>, p: nat)
    requires p <= |a|
    ensures Scanned(s, a + b, p) == Scanned(Scanned(s, a, p), a + b, |a|)
    decreases |a| - p
  {
    if p < |a| {
      ScannedSplit(Step(s, a[p]), a, b, p + 1);
    }
  }

  lemma {:induction false} ScannedShift(s: Scan, a: seq<byte>, b: seq<byte>, p: nat)
    requires p <= |b|
    ensures Scanned(s, a + b, |a| + p) == Scanned(s, b, p)
    decreases |b| - p
  {
    if p < |b| {
      ScannedShift(Step(s, b[p]), a, b, p + 1);
    }
  }

  // ----- The stream cut into frames, said without the scanner -----

  datatype Cut = Cut(start: nat, end: nat)

  predicate StartsAt(stream: seq<byte>, k: nat) {
    k + 1 < |stream| && stream[k] == 0xff && stream[k + 1] == 0xd8
  }

  predicate EndsAt(stream: seq<byte>, e: nat) {
    2 <= e <= |stream| && stream[e - 2] == 0xff && stream[e - 1] == 0xd9
  }

  /** The first end marker that closes at or after `e`, no further than `limit`. */
  function FirstEnd(stream: seq<byte>, e: nat, limit: nat): Option<nat>
    decreases if e <= limit then limit - e + 1 else 0
  {
    if e > limit || e > |stream| then None
    else if EndsAt(stream, e) then Some(e)
    else FirstEnd(stream, e + 1, limit)
  }

  lemma {:induction false} FirstEndFits(stream: seq<byte>, e: nat, limit: nat)
    ensures var r := FirstEnd(stream, e, limit);
            r.Some? ==> e <= r.value <= limit && EndsAt(stream, r.value)
                        && forall x :: e <= x < r.value ==> !EndsAt(stream, x)
    ensures FirstEnd(stream, e, limit).None? ==> forall x :: e <= x <= limit ==> !EndsAt(stream, x)
    decreases if e <= limit then limit - e + 1 else 0
  {
    if e <= limit && e <= |stream| && !EndsAt(stream, e) {
      FirstEndFits(stream, e + 1, limit);
    }
  }

  /** The longest frame: the size check comes after the end check. */
  function Limit(start: nat): nat {
    start + MAX_PREVIEW_JPEG_BYTES + 1
  }

  /** Frames from position `i` on: skip to a start marker; a frame runs to the
      next end marker within its size limit; an over-long frame is given up and
      the search resumes after it. */
  function Cuts(stream: seq<byte>, i: nat): seq<Cut>
    decreases |stream| - i
  {
    if i >= |stream| then []
    else if !StartsAt(stream, i) then Cuts(stream, i + 1)
    else
      FirstEndFits(stream, i + 3, Limit(i));
      match FirstEnd(stream, i + 3, Limit(i))
      case Some(e) => [Cut(i, e)] + Cuts(stream, e)
      case None => if Limit(i) <= |stream| then Cuts(stream, Limit(i)) else []
  }

  predicate CutsInside(stream: seq<byte>, cuts: seq<Cut>) {
    forall c :: 0 <= c < |cuts| ==> cuts[c].start <= cuts[c].end <= |stream|
  }

  function Slices(stream: seq<byte>, cuts: seq<Cut>): (frames: seq<seq<byte>>)
    requires CutsInside(stream, cuts)
    ensures |frames| == |cuts|
    ensures forall c :: 0 <= c < |cuts| ==> frames[c] == stream[cuts[c].start..cuts[c].end]
  {
    seq(|cuts|, c requires 0 <= c < |cuts| => stream[cuts[c].start..cuts[c].end])
  }

  predicate IsFrame(stream: seq<byte>, c: Cut) {
    && c.start + 4 <= c.end <= |stream|
    && c.end <= Limit(c.start)
    && StartsAt(stream, c.start) && EndsAt(stream, c.end)
    && forall e :: c.start + 2 <= e < c.end ==> !EndsAt(stream, e)
  }

  lemma FirstEndIsFrame(stream: seq<byte>, i: nat)
    requires StartsAt(stream, i) && FirstEnd(stream, i + 3, Limit(i)).Some?
    ensures IsFrame(stream, Cut(i, FirstEnd(stream, i + 3, Limit(i)).value))
  {
    FirstEndFits(stream, i + 3, Limit(i));
    assert !EndsAt(stream, i + 2) && !EndsAt(stream, i + 3);
  }

  predicate InOrder(stream: seq<byte>, cuts: seq<Cut>, i: nat) {
    && (forall c :: 0 <= c < |cuts| ==> IsFrame(stream, cuts[c]) && i <= cuts[c].start)
    && (forall c, d :: 0 <= c < d < |cuts| ==> cuts[c].end <= cuts[d].start)
  }

  lemma PrependFrame(stream: seq<byte>, cut: Cut, rest: seq<Cut>)
    requires IsFrame(stream, cut) && InOrder(stream, rest, cut.end)
    ensures InOrder(stream, [cut] + rest, cut.start)
  {
    var cuts := [cut] + rest;
    assert forall c :: 1 <= c < |cuts| ==> cuts[c] == rest[c - 1];
  }

  /** The cuts are disjoint, in order, within the size limit, and each opens with
      a start marker and meets its first end marker at its last two bytes. */
  lemma {:induction false} CutsAreFrames(stream: seq<byte>, i: nat)
    ensures InOrder(stream, Cuts(stream, i), i) && CutsInside(stream, Cuts(stream, i))
    decreases |stream| - i
  {
    if i < |stream| {
      if !StartsAt(stream, i) {
        CutsAreFrames(stream, i + 1);
      } else {
        FirstEndFits(stream, i + 3, Limit(i));
        match FirstEnd(stream, i + 3, Limit(i))
        case Some(e) =>
          FirstEndIsFrame(stream, i);
          CutsAreFrames(stream, e);
          PrependFrame(stream, Cut(i, e), Cuts(stream, e));
        case None =>
          if Limit(i) <= |stream| {
            CutsAreFrames(stream, Limit(i));
          }
      }
    }
  }

  // ----- The scanner computes the cuts -----

  /** Outside a frame: the scanner at `p` will show the cuts from `i`, where `i`
      is one byte back if that byte may open a start marker. */
  lemma {:induction false} OutsideFollowsCuts(s: Scan, stream: seq<byte>, p: nat)
    requires p <= |stream| && !s.insideJpeg
    requires s.previousWasFf ==> p > 0 && stream[p - 1] == 0xff
    ensures var i := if s.previousWasFf then p - 1 else p;
            && CutsInside(stream, Cuts(stream, i))
            && Scanned(s, stream, p).shown == s.shown + Slices(stream, Cuts(stream, i))
    decreases |stream| - p, 1
  {
    var i := if s.previousWasFf then p - 1 else p;
    CutsAreFrames(stream, i);
    if p < |stream| {
      var next := Step(s, stream[p]);
      if next.insideJpeg {
        InsideFollowsCuts(next, stream, p - 1, p + 1);
      } else {
        OutsideFollowsCuts(next, stream, p + 1);
        assert Cuts(stream, i) == Cuts(stream, if next.previousWasFf then p else p + 1);
      }
    }
  }

  /** Inside a frame that opened at `start` and has not ended by `p`. */
  predicate InFrame(s: Scan, stream: seq<byte>, start: nat, p: nat) {
    && start + 2 <= p <= |stream| && StartsAt(stream, start)
    && s.insideJpeg && !s.previousWasFf && s.current == stream[start..p]
    && p - start <= MAX_PREVIEW_JPEG_BYTES
    && FirstEnd(stream, start + 3, Limit(start)) == FirstEnd(stream, p + 1, Limit(start))
  }

  lemma InFrameStep(s: Scan, stream: seq<byte>, start: nat, p: nat)
    requires InFrame(s, stream, start, p) && p < |stream|
    ensures var next := Step(s, stream[p]);
            if EndsAt(stream, p + 1) then
              next == Scan([], false, false, s.shown + [stream[start..p + 1]])
              && FirstEnd(stream, start + 3, Limit(start)) == Some(p + 1)
            else if p + 1 == Limit(start) then
              next == Scan([], false, false, s.shown) && FirstEnd(stream, start + 3, Limit(start)) == None
            else InFrame(next, stream, start, p + 1) && next.shown == s.shown
  {
    var grown := stream[start..p + 1];
    assert s.current + [stream[p]] == grown;
    assert grown[|grown| - 2..] == [stream[p - 1], stream[p]];
    assert p + 1 == Limit(start) ==> FirstEnd(stream, p + 2, Limit(start)) == None;
  }

  lemma {:induction false} InsideFollowsCuts(s: Scan, stream: seq<byte>, start: nat, p: nat)
    requires InFrame(s, stream, start, p)
    ensures CutsInside(stream, Cuts(stream, start))
    ensures Scanned(s, stream, p).shown == s.shown + Slices(stream, Cuts(stream, start))
    decreases |stream| - p, 0
  {
    CutsAreFrames(stream, start);
    if p == |stream| {
      NoCut(stream, start);
    } else {
      InFrameStep(s, stream, start, p);
      var next := Step(s, stream[p]);
      if EndsAt(stream, p + 1) {
        OutsideFollowsCuts(next, stream, p + 1);
        CutAndRest(stream, start, p + 1);
        Associates(s.shown, [stream[start..p + 1]], Slices(stream, Cuts(stream, p + 1)));
      } else if p + 1 == Limit(start) {
        OutsideFollowsCuts(next, stream, p + 1);
        NoCut(stream, start);
      } else {
        InsideFollowsCuts(next, stream, start, p + 1);
      }
    }
  }

  lemma NoCut(stream: seq<byte>, start: nat)
    requires StartsAt(stream, start) && FirstEnd(stream, start + 3, Limit(start)) == None
    ensures Cuts(stream, start) == if Limit(start) <= |stream| then Cuts(stream, Limit(start)) else []
  {
  }

  lemma CutAndRest(stream: seq<byte>, start: nat, end: nat)
    requires StartsAt(stream, start) && FirstEnd(stream, start + 3, Limit(start)) == Some(end)
    ensures start <= end <= |stream|
    ensures CutsInside(stream, Cuts(stream, start)) && CutsInside(stream, Cuts(stream, end))
    ensures Slices(stream, Cuts(stream, start)) == [stream[start..end]] + Slices(stream, Cuts(stream, end))
  {
    FirstEndIsFrame(stream, start);
    CutsAreFrames(stream, end);
    CutsAreFrames(stream, start);
    SlicesPrepend(stream, Cut(start, end), Cuts(stream, end));
  }

  lemma SlicesPrepend(stream: seq<byte>, cut: Cut, rest: seq<Cut>)
    requires cut.start <= cut.end <= |stream| && CutsInside(stream, rest)
    ensures CutsInside(stream, [cut] + rest)
    ensures Slices(stream, [cut] + rest) == [stream[cut.start..cut.end]] + Slices(stream, rest)
  {
  }

  /** However the pipe splits the stream, the frames shown are its cuts. */
  lemma ShownFramesAreCuts(pieces: seq<seq<byte>>)
    ensures CutsInside(Joined(pieces), Cuts(Joined(pieces), 0))
    ensures Scanned(IDLE, Joined(pieces), 0).shown == Slices(Joined(pieces), Cuts(Joined(pieces), 0))
  {
    OutsideFollowsCuts(IDLE, Joined(pieces), 0);
  }

  /** Every frame shown is one JPEG image, at most one byte over the limit. */
  lemma ShownFramesAreImages(stream: seq<byte>, c: nat)
    requires c < |Scanned(IDLE, stream, 0).shown|
    ensures var f := Scanned(IDLE, stream, 0).shown[c];
            && 4 <= |f| <= MAX_PREVIEW_JPEG_BYTES + 1
            && StartsAt(f, 0) && EndsAt(f, |f|)
            && forall e :: 2 <= e < |f| ==> !EndsAt(f, e)
  {
    OutsideFollowsCuts(IDLE, stream, 0);
    CutsAreFrames(stream, 0);
    var cut := Cuts(stream, 0)[c];
    var f := stream[cut.start..cut.end];
    forall e | 2 <= e < |f| ensures !EndsAt(f, e) {
      assert !EndsAt(stream, cut.start + e);
    }
  }

  // ----- Nothing is lost -----

  /** A JPEG as the camera writes it. */
  predicate IsImage(f: seq<byte>) {
    && 4 <= |f| <= MAX_PREVIEW_JPEG_BYTES + 1
    && StartsAt(f, 0) && EndsAt(f, |f|)
    && forall e :: 2 <= e < |f| ==> !EndsAt(f, e)
  }

  lemma {:induction false} EndOfImage(before: seq<byte>, f: seq<byte>, after: seq<byte>, e: nat)
    requires IsImage(f) && 3 <= e <= |f|
    ensures FirstEnd(before + f + after, |before| + e, Limit(|before|)) == Some(|before| + |f|)
    decreases |f| - e
  {
    var stream := before + f + after;
    assert EndsAt(stream, |before| + e) <==> EndsAt(f, e);
    if e < |f| {
      EndOfImage(before, f, after, e + 1);
    }
  }

  /** A stream of back-to-back images is cut back into exactly those images. */
  lemma {:induction false} ImagesComeBack(before: seq<byte>, images: seq<seq<byte>>)
    requires forall i :: 0 <= i < |images| ==> IsImage(images[i])
    ensures var stream := before + Chained(images);
            && CutsInside(stream, Cuts(stream, |before|))
            && Slices(stream, Cuts(stream, |before|)) == images
    decreases |images|
  {
    var stream := before + Chained(images);
    CutsAreFrames(stream, |before|);
    if images != [] {
      var (f, rest) := (images[0], images[1..]);
      assert stream == before + f + Chained(rest);
      EndOfImage(before, f, Chained(rest), 3);
      assert StartsAt(stream, |before|);
      CutAndRest(stream, |before|, |before| + |f|);
      assert stream == (before + f) + Chained(rest);
      ImagesComeBack(before + f, rest);
      assert stream[|before|..|before| + |f|] == f;
      assert images == [f] + rest;
    }
  }

  function Chained(images: seq<seq<byte>>): seq<byte> {
    if images == [] then [] else images[0] + Chained(images[1..])
  }

  lemma CameraImagesAreShown(images: seq<seq<byte>>)
    requires forall i :: 0 <= i < |images| ==> IsImage(images[i])
    ensures Scanned(IDLE, Chained(images), 0).shown == images
  {
    assert [] + Chained(images) == Chained(images);
    ImagesComeBack([], images);
    OutsideFollowsCuts(IDLE, Chained(images), 0);
  }

  // ----- What comes between images -----

  /** Whatever came before, once the scanner is outside a frame it shows every
      image that follows. */
  lemma ImagesAfterAnything(before: seq<byte>, images: seq<seq<byte>>)
    requires !Scanned(IDLE, before, 0).insideJpeg && !Scanned(IDLE, before, 0).previousWasFf
    requires forall i :: 0 <= i < |images| ==> IsImage(images[i])
    ensures Scanned(IDLE, before + Chained(images), 0).shown == Scanned(IDLE, before, 0).shown + images
  {
    var stream := Chained(images);
    ReadsCompose(IDLE, before, stream);
    assert [] + stream == stream;
    ImagesComeBack([], images);
    OutsideFollowsCuts(Scanned(IDLE, before, 0), stream, 0);
  }

  /** Bytes without a start marker are skipped, but for an 0xff at their end. */
  lemma {:induction false} JunkIsSkipped(s: Scan, junk: seq<byte>, p: nat)
    requires p <= |junk| && !s.insideJpeg && (s.previousWasFf <==> p > 0 && junk[p - 1] == 0xff)
    requires forall k :: 0 <= k < |junk| ==> !StartsAt(junk, k)
    ensures var n := Scanned(s, junk, p);
            !n.insideJpeg && n.shown == s.shown && (n.previousWasFf <==> junk != [] && junk[|junk| - 1] == 0xff)
    decreases |junk| - p
  {
    if p < |junk| {
      assert p > 0 ==> !StartsAt(junk, p - 1);
      JunkIsSkipped(Step(s, junk[p]), junk, p + 1);
    }
  }

  lemma {:induction false} NoEndNoFrame(s: Scan, f: seq<byte>, p: nat)
    requires InFrame(s, f, 0, p) && |f| == MAX_PREVIEW_JPEG_BYTES + 1
    requires forall e :: 2 <= e <= |f| ==> !EndsAt(f, e)
    ensures Scanned(s, f, p) == Scan([], false, false, s.shown)
    decreases |f| - p
  {
    assert p < |f|;
    InFrameStep(s, f, 0, p);
    var next := Step(s, f[p]);
    if p + 1 < Limit(0) {
      NoEndNoFrame(next, f, p + 1);
    } else {
      assert Scanned(next, f, p + 1) == next;
    }
  }

  /** A frame that has not ended when it is one byte over the limit is given up,
      and the scanner is where it started. */
  lemma OverlongIsGivenUp(f: seq<byte>)
    requires |f| == MAX_PREVIEW_JPEG_BYTES + 1 && StartsAt(f, 0)
    requires forall e :: 2 <= e <= |f| ==> !EndsAt(f, e)
    ensures Scanned(IDLE, f, 0) == IDLE
  {
    var s := Step(Step(IDLE, f[0]), f[1]);
    assert s == Scan([0xff, 0xd8], true, false, []) && f[0..2] == [0xff, 0xd8];
    assert Scanned(IDLE, f, 0) == Scanned(s, f, 2) by {
      assert Scanned(IDLE, f, 0) == Scanned(Step(IDLE, f[0]), f, 1);
    }
    NoEndNoFrame(s, f, 2);
  }
}
