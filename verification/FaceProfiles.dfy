/** What a profile of FaceMatching holds, said of the list of faces itself
    (server/src/face_matching.rs). */
module FaceProfiles {
  import opened Text
  import opened FaceMatching

  /** A face that a human gave this person, with an embedding of this kind. */
  predicate Labelled(f: Face, pipeline: string, key: Key) {
    && f.pipeline == pipeline && f.state == Confirmed && f.person == Some(key.person) && f.model == key.model
    && f.vector.Some? && |f.vector.value| == key.dimension
    && f.source.Some? && f.source.value in {"manual", "enrollment"}
  }

  /** The first such face of its photo. */
  predicate First(faces: seq<Face>, pipeline: string, key: Key, i: int) {
    && 0 <= i < |faces| && Labelled(faces[i], pipeline, key)
    && forall j :: 0 <= j < i && Labelled(faces[j], pipeline, key) ==> faces[j].photo != faces[i].photo
  }

  /** The first faces among the first `n`, and those of guided photos. */
  function Firsts(faces: seq<Face>, pipeline: string, key: Key, n: nat): set<int> {
    set i | 0 <= i < n && First(faces, pipeline, key, i)
  }

  function Guided(faces: seq<Face>, pipeline: string, key: Key, n: nat): set<int> {
    set i | 0 <= i < n && First(faces, pipeline, key, i) && faces[i].source == Some("enrollment")
  }

  /** The sum of the first faces' values at one coordinate. */
  function SumAt(faces: seq<Face>, pipeline: string, key: Key, c: nat, n: nat): real
    requires c < key.dimension && n <= |faces|
  {
    if n == 0 then 0.0
    else SumAt(faces, pipeline, key, c, n - 1)
         + if First(faces, pipeline, key, n - 1) then faces[n - 1].vector.value[c] else 0.0
  }

  /** The profile after the first `n` faces. */
  ghost predicate Holds(profiles: Profiles, faces: seq<Face>, pipeline: string, key: Key, n: nat)
    requires n <= |faces|
  {
    var firsts := Firsts(faces, pipeline, key, n);
    && (key in profiles <==> exists i :: 0 <= i < n && Labelled(faces[i], pipeline, key))
    && (key in profiles ==>
          var p := profiles[key];
          && p.photos == (set i | i in firsts :: faces[i].photo)
          && p.days == (set i | i in firsts :: faces[i].day)
          && p.enrollmentPhotos == |Guided(faces, pipeline, key, n)|
          && |p.sum| == key.dimension
          && forall c :: 0 <= c < key.dimension ==> p.sum[c] == SumAt(faces, pipeline, key, c, n))
  }

  lemma LabelledIsExample(f: Face, pipeline: string, key: Key)
    ensures Labelled(f, pipeline, key) <==> IsExample(f, pipeline) && KeyOf(f) == key
  {
  }

  lemma MoreFirsts(faces: seq<Face>, pipeline: string, key: Key, n: nat)
    requires n < |faces|
    ensures Firsts(faces, pipeline, key, n + 1)
         == Firsts(faces, pipeline, key, n) + if First(faces, pipeline, key, n) then {n} else {}
    ensures Guided(faces, pipeline, key, n + 1)
         == Guided(faces, pipeline, key, n)
            + if First(faces, pipeline, key, n) && faces[n].source == Some("enrollment") then {n} else {}
  {
    hide First;
  }

  /** A labelled face is the first of its photo unless an earlier first face has
      that photo. */
  lemma {:induction false} EarlierFirst(faces: seq<Face>, pipeline: string, key: Key, n: nat, k: nat)
    requires k < n <= |faces| && Labelled(faces[k], pipeline, key)
    ensures faces[k].photo in set i | i in Firsts(faces, pipeline, key, n) :: faces[i].photo
    decreases k
  {
    if First(faces, pipeline, key, k) {
      assert k in Firsts(faces, pipeline, key, n);
    } else {
      var j :| 0 <= j < k && Labelled(faces[j], pipeline, key) && faces[j].photo == faces[k].photo;
      EarlierFirst(faces, pipeline, key, n, j);
    }
  }

  lemma FirstWhenNew(faces: seq<Face>, pipeline: string, key: Key, n: nat)
    requires n < |faces| && Labelled(faces[n], pipeline, key)
    ensures First(faces, pipeline, key, n)
       <==> faces[n].photo !in set i | i in Firsts(faces, pipeline, key, n) :: faces[i].photo
  {
    forall k | 0 <= k < n && Labelled(faces[k], pipeline, key)
      ensures faces[k].photo in set i | i in Firsts(faces, pipeline, key, n) :: faces[i].photo
    {
      EarlierFirst(faces, pipeline, key, n, k);
    }
  }

  lemma {:induction false} NothingSummed(faces: seq<Face>, pipeline: string, key: Key, n: nat)
    requires n <= |faces| && forall i :: 0 <= i < n ==> !Labelled(faces[i], pipeline, key)
    ensures forall c :: 0 <= c < key.dimension ==> SumAt(faces, pipeline, key, c, n) == 0.0
  {
    if n > 0 {
      NothingSummed(faces, pipeline, key, n - 1);
    }
  }

  /** The profile before the face, empty where there is none yet. */
  function Before(profiles: Profiles, key: Key): Profile {
    if key in profiles then profiles[key] else Profile(Zero(key.dimension), {}, {}, 0)
  }

  lemma BeforeHolds(profiles: Profiles, faces: seq<Face>, pipeline: string, key: Key, n: nat)
    requires n < |faces| && Holds(profiles, faces, pipeline, key, n)
    ensures var (p, firsts) := (Before(profiles, key), Firsts(faces, pipeline, key, n));
            && p.photos == (set i | i in firsts :: faces[i].photo)
            && p.days == (set i | i in firsts :: faces[i].day)
            && p.enrollmentPhotos == |Guided(faces, pipeline, key, n)|
            && |p.sum| == key.dimension
            && forall c :: 0 <= c < key.dimension ==> p.sum[c] == SumAt(faces, pipeline, key, c, n)
  {
    if key !in profiles {
      assert Firsts(faces, pipeline, key, n) == {} && Guided(faces, pipeline, key, n) == {};
      NothingSummed(faces, pipeline, key, n);
    }
  }

  lemma TaughtIs(profiles: Profiles, f: Face)
    requires f.person.Some? && f.vector.Some?
    ensures var (key, after, v) := (KeyOf(f), Taught(profiles, f), f.vector.value);
            var p := Before(profiles, key);
            && (f.photo in p.photos ==> after == profiles)
            && (f.photo !in p.photos && |p.sum| == |v| ==>
                  && after.Keys == profiles.Keys + {key}
                  && after[key].photos == p.photos + {f.photo} && after[key].days == p.days + {f.day}
                  && after[key].enrollmentPhotos == p.enrollmentPhotos + (if f.source == Some("enrollment") then 1 else 0)
                  && |after[key].sum| == |v| && forall c :: 0 <= c < |v| ==> after[key].sum[c] == p.sum[c] + v[c])
  {
  }

  /** What one more face adds to the first faces, their photos, days and sums. */
  lemma FirstsGrow(faces: seq<Face>, pipeline: string, key: Key, n: nat)
    requires n < |faces|
    ensures var (firsts, more) := (Firsts(faces, pipeline, key, n), Firsts(faces, pipeline, key, n + 1));
            var f := faces[n];
            if First(faces, pipeline, key, n) then
              && (set i | i in more :: faces[i].photo) == (set i | i in firsts :: faces[i].photo) + {f.photo}
              && (set i | i in more :: faces[i].day) == (set i | i in firsts :: faces[i].day) + {f.day}
              && |Guided(faces, pipeline, key, n + 1)|
                 == |Guided(faces, pipeline, key, n)| + (if f.source == Some("enrollment") then 1 else 0)
            else more == firsts && Guided(faces, pipeline, key, n + 1) == Guided(faces, pipeline, key, n)
  {
    MoreFirsts(faces, pipeline, key, n);
    assert n !in Guided(faces, pipeline, key, n);
    hide First, Guided;
    if First(faces, pipeline, key, n) {
      assert Firsts(faces, pipeline, key, n + 1) == Firsts(faces, pipeline, key, n) + {n};
    }
    hide Firsts;
  }

  lemma OneMoreHolds(profiles: Profiles, faces: seq<Face>, pipeline: string, key: Key, n: nat)
    requires n < |faces| && Holds(profiles, faces, pipeline, key, n)
    ensures Holds(if IsExample(faces[n], pipeline) then Taught(profiles, faces[n]) else profiles, faces, pipeline, key, n + 1)
  {
    LabelledIsExample(faces[n], pipeline, key);
    hide First, Firsts, Guided, Taught, IsExample, Labelled;
    FirstsGrow(faces, pipeline, key, n);
    SumsGrow(faces, pipeline, key, n);
    if Labelled(faces[n], pipeline, key) {
      OwnHolds(profiles, faces, pipeline, key, n);
    } else {
      assert !First(faces, pipeline, key, n) by {
        FirstIsLabelled(faces, pipeline, key, n);
      }
      OthersTaught(profiles, faces[n], pipeline, key);
    }
  }

  lemma FirstIsLabelled(faces: seq<Face>, pipeline: string, key: Key, i: nat)
    ensures First(faces, pipeline, key, i) ==> i < |faces| && Labelled(faces[i], pipeline, key)
  {
  }

  lemma OwnHolds(profiles: Profiles, faces: seq<Face>, pipeline: string, key: Key, n: nat)
    requires n < |faces| && Holds(profiles, faces, pipeline, key, n)
    requires faces[n].person.Some? && faces[n].vector.Some? && KeyOf(faces[n]) == key && Labelled(faces[n], pipeline, key)
    ensures Holds(Taught(profiles, faces[n]), faces, pipeline, key, n + 1)
  {
    hide First, Firsts, Guided, Taught, IsExample, Labelled;
    BeforeHolds(profiles, faces, pipeline, key, n);
    FirstWhenNew(faces, pipeline, key, n);
    TaughtIs(profiles, faces[n]);
    FirstsGrow(faces, pipeline, key, n);
    SumsGrow(faces, pipeline, key, n);
    if !First(faces, pipeline, key, n) {
      assert key in profiles && exists i :: 0 <= i < n && Labelled(faces[i], pipeline, key);
    }
  }

  lemma SumsGrow(faces: seq<Face>, pipeline: string, key: Key, n: nat)
    requires n < |faces|
    ensures forall c :: 0 <= c < key.dimension ==>
              SumAt(faces, pipeline, key, c, n + 1)
              == SumAt(faces, pipeline, key, c, n) + if First(faces, pipeline, key, n) then faces[n].vector.value[c] else 0.0
  {
  }

  lemma OthersTaught(profiles: Profiles, f: Face, pipeline: string, key: Key)
    requires !(IsExample(f, pipeline) && KeyOf(f) == key)
    ensures var after := if IsExample(f, pipeline) then Taught(profiles, f) else profiles;
            (key in after <==> key in profiles) && (key in profiles ==> after[key] == profiles[key])
  {
  }

  lemma {:induction false} PrefixHolds(faces: seq<Face>, pipeline: string, key: Key, n: nat)
    requires n <= |faces|
    ensures Holds(ProfilesOf(faces[..n], pipeline), faces, pipeline, key, n)
    decreases n
  {
    if n == 0 {
      assert Firsts(faces, pipeline, key, 0) == {} && Guided(faces, pipeline, key, 0) == {};
    } else {
      assert faces[..n][..n - 1] == faces[..n - 1];
      PrefixHolds(faces, pipeline, key, n - 1);
      OneMoreHolds(ProfilesOf(faces[..n - 1], pipeline), faces, pipeline, key, n - 1);
      hide Holds;
    }
  }

  /** A person has a profile exactly when a human gave them some face. It counts
      the first labelled face of each photo: its photos, its days, how many of
      them are guided, and coordinate by coordinate the sum of their embeddings. */
  lemma ProfileHolds(faces: seq<Face>, pipeline: string, key: Key)
    ensures var profiles := ProfilesOf(faces, pipeline);
            && (key in profiles <==> exists i :: 0 <= i < |faces| && Labelled(faces[i], pipeline, key))
            && (key in profiles ==>
                  var p := profiles[key];
                  && p.photos == (set i | 0 <= i < |faces| && First(faces, pipeline, key, i) :: faces[i].photo)
                  && p.days == (set i | 0 <= i < |faces| && First(faces, pipeline, key, i) :: faces[i].day)
                  && p.enrollmentPhotos
                     == |set i | 0 <= i < |faces| && First(faces, pipeline, key, i) && faces[i].source == Some("enrollment")|
                  && |p.sum| == key.dimension
                  && forall c :: 0 <= c < key.dimension ==> p.sum[c] == SumAt(faces, pipeline, key, c, |faces|))
  {
    assert faces[..|faces|] == faces;
    PrefixHolds(faces, pipeline, key, |faces|);
    hide First;
  }

  /** Five guided photos enrol a person on their own; other photos need five
      and three days. */
  lemma EnrolledExactlyWhen(faces: seq<Face>, pipeline: string, key: Key)
    requires key in ProfilesOf(faces, pipeline)
    ensures var firsts := set i | 0 <= i < |faces| && First(faces, pipeline, key, i);
            Enrolled(ProfilesOf(faces, pipeline)[key])
            <==> || |set i | i in firsts && faces[i].source == Some("enrollment")| >= 5
                 || (|set i | i in firsts :: faces[i].photo| >= 5 && |set i | i in firsts :: faces[i].day| >= 3)
  {
    ProfileHolds(faces, pipeline, key);
    hide First;
    var firsts := set i | 0 <= i < |faces| && First(faces, pipeline, key, i);
    assert (set i | 0 <= i < |faces| && First(faces, pipeline, key, i) :: faces[i].photo)
        == set i | i in firsts :: faces[i].photo;
    assert (set i | 0 <= i < |faces| && First(faces, pipeline, key, i) :: faces[i].day) == set i | i in firsts :: faces[i].day;
    assert (set i | 0 <= i < |faces| && First(faces, pipeline, key, i) && faces[i].source == Some("enrollment"))
        == set i | i in firsts && faces[i].source == Some("enrollment");
  }

  /** A person with five guided photos is proposed for an open face that is at
      least 0.65 like them and 0.15 less like everybody else. */
  lemma GuidedPersonIsProposed(faces: seq<Face>, pipeline: string, photo: Option<string>, cosine: Cosine, key: Key,
                               guided: set<int>, i: nat, score: real)
    requires |guided| >= 5
    requires forall k :: k in guided ==> First(faces, pipeline, key, k) && faces[k].source == Some("enrollment")
    requires i < |faces| && faces[i].pipeline == pipeline && (photo.None? || photo == Some(faces[i].photo))
    requires faces[i].state == Proposed || (faces[i].state == Unknown && faces[i].source.None?)
    requires faces[i].vector.Some? && faces[i].model == key.model && |faces[i].vector.value| == key.dimension
    requires key in ProfilesOf(faces, pipeline) ==>
               cosine(ProfilesOf(faces, pipeline)[key].sum, faces[i].vector.value) == Some(score)
    requires 0.65 <= score <= 1.0
    requires forall other :: other in ProfilesOf(faces, pipeline) && other != key ==>
               var c := cosine(ProfilesOf(faces, pipeline)[other].sum, faces[i].vector.value);
               c.Some? ==> score - c.value >= 0.15
    ensures Pass(faces, pipeline, photo, cosine)[i]
         == faces[i].(person := Some(key.person), state := Proposed, source := Some("centroid-v1"), score := Some(score))
  {
    var profiles := ProfilesOf(faces, pipeline);
    ProfileHolds(faces, pipeline, key);
    var k :| k in guided;
    assert key in profiles;
    EnrolledExactlyWhen(faces, pipeline, key);
    var counted := set j | 0 <= j < |faces| && First(faces, pipeline, key, j) && faces[j].source == Some("enrollment");
    assert guided <= counted;
    Larger(guided, counted);
    hide First, ProfilesOf, Enrolled;
    var v := faces[i].vector.value;
    assert Wins(profiles, key, key.model, v, cosine);
    assert IsMatch(profiles, key.model, v, cosine, Some(Match(key.person, Clamped(score))));
    MatchIsUnique(profiles, key.model, v, cosine, TheMatch(profiles, key.model, v, cosine), Some(Match(key.person, score)));
  }

  lemma {:induction false} Larger<T>(a: set<T>, b: set<T>)
    requires a <= b
    ensures |a| <= |b|
    decreases |a|
  {
    if |a| > 0 {
      var x :| x in a;
      Larger(a - {x}, b - {x});
    }
  }

  // ----- What a pass decides -----

  /** In the pass's own pipeline and photo, and not decided by a human. */
  predicate Open(f: Face, pipeline: string, photo: Option<string>) {
    && f.pipeline == pipeline && (photo.Some? ==> photo.value == f.photo)
    && (f.state == Proposed || (f.state == Unknown && f.source == None))
  }

  /** An open face gets its one winner, with the score cut to -1 .. 1, or loses
      its old suggestion where there is none; no other face is changed. */
  lemma FaceDecided(faces: seq<Face>, pipeline: string, photo: Option<string>, cosine: Cosine, i: nat)
    requires i < |faces|
    ensures var (profiles, f, after) := (ProfilesOf(faces, pipeline), faces[i], Pass(faces, pipeline, photo, cosine)[i]);
            && (!Open(f, pipeline, photo) ==> after == f)
            && (Open(f, pipeline, photo)
                && (f.vector.None? || forall key :: !Wins(profiles, key, f.model, f.vector.value, cosine)) ==>
                  after == f.(person := None, state := Unknown, source := None, score := None))
            && (Open(f, pipeline, photo) && f.vector.Some? ==>
                  forall key :: Wins(profiles, key, f.model, f.vector.value, cosine) ==>
                    var x := cosine(profiles[key].sum, f.vector.value).value;
                    after == f.(person := Some(key.person), state := Proposed, source := Some("centroid-v1"),
                                score := Some(if x < -1.0 then -1.0 else if x > 1.0 then 1.0 else x)))
  {
    var (profiles, f) := (ProfilesOf(faces, pipeline), faces[i]);
    hide ProfilesOf, Enrolled;
    if f.vector.Some? {
      var v := f.vector.value;
      forall key | Wins(profiles, key, f.model, v, cosine)
        ensures TheMatch(profiles, f.model, v, cosine) == Some(Match(key.person, Clamped(cosine(profiles[key].sum, v).value)))
      {
        var m := Some(Match(key.person, Clamped(ScoreOf(profiles, key, v, cosine))));
        assert IsMatch(profiles, f.model, v, cosine, m);
        MatchIsUnique(profiles, f.model, v, cosine, TheMatch(profiles, f.model, v, cosine), m);
      }
      if forall key :: !Wins(profiles, key, f.model, v, cosine) {
        assert IsMatch(profiles, f.model, v, cosine, None);
        MatchIsUnique(profiles, f.model, v, cosine, TheMatch(profiles, f.model, v, cosine), None);
      }
    }
    hide Wins, IsMatch;
  }

  /** The summary counts the open faces, and those that are left with a name. */
  lemma SummaryCounts(faces: seq<Face>, pipeline: string, photo: Option<string>, cosine: Cosine)
    ensures Examined(faces, pipeline, photo) == |set i | 0 <= i < |faces| && Open(faces[i], pipeline, photo)|
    ensures Hits(ProfilesOf(faces, pipeline), faces, pipeline, photo, cosine)
         == |set i | 0 <= i < |faces| && Open(faces[i], pipeline, photo)
                     && Pass(faces, pipeline, photo, cosine)[i].person.Some?|
  {
    var profiles := ProfilesOf(faces, pipeline);
    assert faces[..|faces|] == faces;
    CountsOf(profiles, faces, pipeline, photo, cosine, |faces|);
    hide ProfilesOf;
    assert OpenIn(faces, pipeline, photo, |faces|) == set i | 0 <= i < |faces| && Open(faces[i], pipeline, photo);
    assert NamedIn(profiles, faces, pipeline, photo, cosine, |faces|)
        == set i | 0 <= i < |faces| && Open(faces[i], pipeline, photo) && Pass(faces, pipeline, photo, cosine)[i].person.Some?;
  }

  function OpenIn(faces: seq<Face>, pipeline: string, photo: Option<string>, n: nat): set<int>
    requires n <= |faces|
  {
    set i | 0 <= i < n && Open(faces[i], pipeline, photo)
  }

  ghost function NamedIn(profiles: Profiles, faces: seq<Face>, pipeline: string, photo: Option<string>, cosine: Cosine, n: nat)
    : set<int>
    requires n <= |faces|
  {
    set i | 0 <= i < n && Open(faces[i], pipeline, photo) && After(profiles, faces[i], pipeline, photo, cosine).person.Some?
  }

  lemma MoreOpen(faces: seq<Face>, pipeline: string, photo: Option<string>, n: nat)
    requires n < |faces|
    ensures |OpenIn(faces, pipeline, photo, n + 1)|
         == |OpenIn(faces, pipeline, photo, n)| + (if Open(faces[n], pipeline, photo) then 1 else 0)
  {
    hide Open;
    assert OpenIn(faces, pipeline, photo, n + 1)
        == OpenIn(faces, pipeline, photo, n) + if Open(faces[n], pipeline, photo) then {n} else {};
  }

  lemma NamedNext(profiles: Profiles, faces: seq<Face>, pipeline: string, photo: Option<string>, cosine: Cosine, n: nat)
    requires n < |faces|
    ensures var named := Open(faces[n], pipeline, photo) && After(profiles, faces[n], pipeline, photo, cosine).person.Some?;
            && n !in NamedIn(profiles, faces, pipeline, photo, cosine, n)
            && NamedIn(profiles, faces, pipeline, photo, cosine, n + 1)
            == NamedIn(profiles, faces, pipeline, photo, cosine, n) + if named then {n} else {}
  {
    hide Open, After;
  }

  lemma MoreNamed(profiles: Profiles, faces: seq<Face>, pipeline: string, photo: Option<string>, cosine: Cosine, n: nat)
    requires n < |faces|
    ensures |NamedIn(profiles, faces, pipeline, photo, cosine, n + 1)|
         == |NamedIn(profiles, faces, pipeline, photo, cosine, n)|
            + (if Open(faces[n], pipeline, photo) && After(profiles, faces[n], pipeline, photo, cosine).person.Some?
               then 1 else 0)
  {
    hide *;
    NamedNext(profiles, faces, pipeline, photo, cosine, n);
  }

  lemma NamedIsHit(profiles: Profiles, f: Face, pipeline: string, photo: Option<string>, cosine: Cosine)
    ensures Open(f, pipeline, photo) <==> IsCandidate(f, pipeline, photo)
    ensures Open(f, pipeline, photo) && After(profiles, f, pipeline, photo, cosine).person.Some?
       <==> IsCandidate(f, pipeline, photo) && MatchFor(profiles, f, cosine).Some?
  {
    hide MatchFor;
  }

  lemma {:induction false} CountsOf(profiles: Profiles, faces: seq<Face>, pipeline: string, photo: Option<string>,
                                    cosine: Cosine, n: nat)
    requires n <= |faces|
    ensures Examined(faces[..n], pipeline, photo) == |OpenIn(faces, pipeline, photo, n)|
    ensures Hits(profiles, faces[..n], pipeline, photo, cosine) == |NamedIn(profiles, faces, pipeline, photo, cosine, n)|
    decreases n
  {
    if n == 0 {
      assert OpenIn(faces, pipeline, photo, 0) == {} && NamedIn(profiles, faces, pipeline, photo, cosine, 0) == {};
    } else {
      assert faces[..n][..n - 1] == faces[..n - 1];
      CountsOf(profiles, faces, pipeline, photo, cosine, n - 1);
      MoreOpen(faces, pipeline, photo, n - 1);
      MoreNamed(profiles, faces, pipeline, photo, cosine, n - 1);
      NamedIsHit(profiles, faces[n - 1], pipeline, photo, cosine);
      hide After, IsCandidate, MatchFor, Open, OpenIn, NamedIn;
    }
  }
}
