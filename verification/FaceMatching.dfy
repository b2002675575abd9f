/** Identity suggestions, from server/src/face_matching.rs. A face carries its
    decoded unit embedding, or none if it does not decode; the cosine of a
    profile's centroid with an embedding is a parameter, `None` when the centroid
    has no direction. Numbers are reals. */
module FaceMatching {
  import opened Text

  type Vector = seq<real>

  type Cosine = (Vector, Vector) -> Option<real>

  const MIN_EXAMPLES: nat := 5
  const MIN_DAYS: nat := 3
  const MIN_SCORE: real := 0.65
  const MIN_MARGIN: real := 0.15
  const SOURCE := "centroid-v1"

  datatype State = Unknown | Proposed | Confirmed

  datatype Face = Face(photo: string, day: string, pipeline: string, model: string, vector: Option<Vector>,
                       person: Option<string>, state: State, source: Option<string>, score: Option<real>)

  datatype Key = Key(person: string, model: string, dimension: nat)

  datatype Profile = Profile(sum: Vector, photos: set<string>, days: set<string>, enrollmentPhotos: nat)

  type Profiles = map<Key, Profile>

  datatype Match = Match(person: string, score: real)

  predicate Enrolled(p: Profile) {
    p.enrollmentPhotos >= MIN_EXAMPLES || (|p.photos| >= MIN_EXAMPLES && |p.days| >= MIN_DAYS)
  }

  // ----- Profiles: what human labels teach -----

  predicate IsExample(f: Face, pipeline: string) {
    && f.pipeline == pipeline && f.state == Confirmed && f.person.Some? && f.vector.Some?
    && (f.source == Some("manual") || f.source == Some("enrollment"))
  }

  function KeyOf(f: Face): Key
    requires f.person.Some? && f.vector.Some?
  {
    Key(f.person.value, f.model, |f.vector.value|)
  }

  function Added(sum: Vector, v: Vector): Vector {
    seq(|sum|, i requires 0 <= i < |sum| => if i < |v| then sum[i] + v[i] else sum[i])
  }

  function Zero(n: nat): Vector {
    seq(n, i => 0.0)
  }

  /** One more confirmed face; a second face in one photo teaches nothing. */
  function Taught(profiles: Profiles, f: Face): Profiles
    requires f.person.Some? && f.vector.Some?
  {
    var key := KeyOf(f);
    var p := if key in profiles then profiles[key] else Profile([], {}, {}, 0);
    if f.photo in p.photos then profiles
    else
      var v := f.vector.value;
      profiles[key := Profile(Added(if p.sum == [] then Zero(|v|) else p.sum, v), p.photos + {f.photo}, p.days + {f.day},
                              p.enrollmentPhotos + (if f.source == Some("enrollment") then 1 else 0))]
  }

  /** Faces in ID order, as the query returns them. */
  function ProfilesOf(faces: seq<Face>, pipeline: string): Profiles {
    if faces == [] then map[]
    else
      var earlier := ProfilesOf(faces[..|faces| - 1], pipeline);
      var f := faces[|faces| - 1];
      if IsExample(f, pipeline) then Taught(earlier, f) else earlier
  }

  // ----- The match, said without an order -----

  /** The profiles that can be compared with an embedding. */
  predicate Competes(profiles: Profiles, key: Key, model: string, v: Vector, cosine: Cosine) {
    key in profiles && key.model == model && key.dimension == |v| && cosine(profiles[key].sum, v).Some?
  }

  function ScoreOf(profiles: Profiles, key: Key, v: Vector, cosine: Cosine): real
    requires key in profiles && cosine(profiles[key].sum, v).Some?
  {
    cosine(profiles[key].sum, v).value
  }

  /** An enrolled person scoring high enough, and clear of everyone else. */
  predicate Wins(profiles: Profiles, key: Key, model: string, v: Vector, cosine: Cosine) {
    && Competes(profiles, key, model, v, cosine)
    && Enrolled(profiles[key]) && ScoreOf(profiles, key, v, cosine) >= MIN_SCORE
    && forall other :: other in profiles && other != key && Competes(profiles, other, model, v, cosine) ==>
         ScoreOf(profiles, key, v, cosine) - ScoreOf(profiles, other, v, cosine) >= MIN_MARGIN
  }

  function Clamped(x: real): real {
    if x < -1.0 then -1.0 else if x > 1.0 then 1.0 else x
  }

  ghost predicate IsMatch(profiles: Profiles, model: string, v: Vector, cosine: Cosine, m: Option<Match>) {
    match m
    case None => forall key :: key in profiles ==> !Wins(profiles, key, model, v, cosine)
    case Some(r) => exists key :: Wins(profiles, key, model, v, cosine)
                                  && r == Match(key.person, Clamped(ScoreOf(profiles, key, v, cosine)))
  }

  /** The margin leaves room for one winner only. */
  lemma OneWinner(profiles: Profiles, a: Key, b: Key, model: string, v: Vector, cosine: Cosine)
    requires Wins(profiles, a, model, v, cosine) && Wins(profiles, b, model, v, cosine)
    ensures a == b
  {
  }

  lemma MatchIsUnique(profiles: Profiles, model: string, v: Vector, cosine: Cosine, m: Option<Match>, n: Option<Match>)
    requires IsMatch(profiles, model, v, cosine, m) && IsMatch(profiles, model, v, cosine, n)
    ensures m == n
  {
    if m.Some? && n.Some? {
      var a :| Wins(profiles, a, model, v, cosine) && m.value == Match(a.person, Clamped(ScoreOf(profiles, a, v, cosine)));
      var b :| Wins(profiles, b, model, v, cosine) && n.value == Match(b.person, Clamped(ScoreOf(profiles, b, v, cosine)));
      OneWinner(profiles, a, b, model, v, cosine);
    }
  }

  lemma MatchExists(profiles: Profiles, model: string, v: Vector, cosine: Cosine)
    ensures exists m :: IsMatch(profiles, model, v, cosine, m)
  {
    if forall key :: key in profiles ==> !Wins(profiles, key, model, v, cosine) {
      assert IsMatch(profiles, model, v, cosine, None);
    } else {
      var key :| key in profiles && Wins(profiles, key, model, v, cosine);
      assert IsMatch(profiles, model, v, cosine, Some(Match(key.person, Clamped(ScoreOf(profiles, key, v, cosine)))));
    }
  }

  ghost function TheMatch(profiles: Profiles, model: string, v: Vector, cosine: Cosine): (m: Option<Match>)
    ensures IsMatch(profiles, model, v, cosine, m)
  {
    MatchExists(profiles, model, v, cosine);
    var m :| IsMatch(profiles, model, v, cosine, m);
    m
  }

  /** A newcomer can take a match away or win it, never hand it to another. */
  lemma CompetitorNeverHelps(profiles: Profiles, key: Key, p: Profile, model: string, v: Vector, cosine: Cosine)
    requires key !in profiles
    ensures var after := TheMatch(profiles[key := p], model, v, cosine);
            after.Some? && after.value.person != key.person ==> after == TheMatch(profiles, model, v, cosine)
  {
    var more := profiles[key := p];
    var after := TheMatch(more, model, v, cosine);
    if after.Some? && after.value.person != key.person {
      var winner :| Wins(more, winner, model, v, cosine)
                    && after.value == Match(winner.person, Clamped(ScoreOf(more, winner, v, cosine)));
      forall other | other in profiles && other != winner && Competes(profiles, other, model, v, cosine)
        ensures ScoreOf(profiles, winner, v, cosine) - ScoreOf(profiles, other, v, cosine) >= MIN_MARGIN
      {
        assert Competes(more, other, model, v, cosine);
      }
      assert Wins(profiles, winner, model, v, cosine);
      MatchIsUnique(profiles, model, v, cosine, after, TheMatch(profiles, model, v, cosine));
    }
  }

  // ----- The match, as it is computed -----

  datatype Scored = Scored(key: Key, enrolled: bool, score: real)

  /** Scores in some order, one for each profile that competes. */
  ghost predicate ScoresOf(scores: seq<Scored>, profiles: Profiles, model: string, v: Vector, cosine: Cosine) {
    && (forall i :: 0 <= i < |scores| ==>
         && Competes(profiles, scores[i].key, model, v, cosine)
         && scores[i].enrolled == Enrolled(profiles[scores[i].key])
         && scores[i].score == ScoreOf(profiles, scores[i].key, v, cosine))
    && (forall i, j :: 0 <= i < j < |scores| ==> scores[i].key != scores[j].key)
    && (forall key :: Competes(profiles, key, model, v, cosine) ==> exists i :: 0 <= i < |scores| && scores[i].key == key)
  }

  /** `best_match`: whatever order the profiles come in, the same answer. */
  method BestMatch(profiles: Profiles, model: string, v: Vector, cosine: Cosine) returns (m: Option<Match>)
    ensures m == TheMatch(profiles, model, v, cosine)
  {
    var scores: seq<Scored> := [];
    var rest := profiles.Keys;
    while rest != {}
      invariant rest <= profiles.Keys
      invariant forall i :: 0 <= i < |scores| ==> scores[i].key !in rest
      invariant ScoresOf(scores, map key | key in profiles && key !in rest :: profiles[key], model, v, cosine)
      decreases rest
    {
      var key :| key in rest;
      ghost var seen := map k | k in profiles && k !in rest :: profiles[k];
      rest := rest - {key};
      ghost var now := map k | k in profiles && k !in rest :: profiles[k];
      assert now == seen[key := profiles[key]];
      if Competes(profiles, key, model, v, cosine) {
        var scored := Scored(key, Enrolled(profiles[key]), ScoreOf(profiles, key, v, cosine));
        OneMoreScore(scores, scored, seen, profiles[key], model, v, cosine);
        scores := scores + [scored];
      } else {
        NoMoreScore(scores, key, seen, profiles[key], model, v, cosine);
      }
    }
    assert profiles == map key | key in profiles && key !in rest :: profiles[key];
    m := Decide(scores);
    DecisionIsMatch(scores, profiles, model, v, cosine);
    MatchIsUnique(profiles, model, v, cosine, m, TheMatch(profiles, model, v, cosine));
  }

  lemma OneMoreScore(scores: seq<Scored>, scored: Scored, seen: Profiles, p: Profile, model: string, v: Vector, cosine: Cosine)
    requires ScoresOf(scores, seen, model, v, cosine) && scored.key !in seen
    requires Competes(seen[scored.key := p], scored.key, model, v, cosine)
    requires scored == Scored(scored.key, Enrolled(p), ScoreOf(seen[scored.key := p], scored.key, v, cosine))
    ensures ScoresOf(scores + [scored], seen[scored.key := p], model, v, cosine)
  {
    var (all, now) := (scores + [scored], seen[scored.key := p]);
    forall key | Competes(now, key, model, v, cosine)
      ensures exists i :: 0 <= i < |all| && all[i].key == key
    {
      if key == scored.key {
        assert all[|scores|].key == key;
      } else {
        assert Competes(seen, key, model, v, cosine);
        var i :| 0 <= i < |scores| && scores[i].key == key;
        assert all[i].key == key;
      }
    }
    forall i | 0 <= i < |all|
      ensures Competes(now, all[i].key, model, v, cosine) && all[i].enrolled == Enrolled(now[all[i].key])
              && all[i].score == ScoreOf(now, all[i].key, v, cosine)
    {
      if i < |scores| {
        assert Competes(seen, scores[i].key, model, v, cosine);
      }
    }
  }

  lemma NoMoreScore(scores: seq<Scored>, key: Key, seen: Profiles, p: Profile, model: string, v: Vector, cosine: Cosine)
    requires ScoresOf(scores, seen, model, v, cosine) && key !in seen
    requires !Competes(seen[key := p], key, model, v, cosine)
    ensures ScoresOf(scores, seen[key := p], model, v, cosine)
  {
    var more := seen[key := p];
    forall other | Competes(more, other, model, v, cosine)
      ensures exists i :: 0 <= i < |scores| && scores[i].key == other
    {
      assert Competes(seen, other, model, v, cosine);
    }
    forall i | 0 <= i < |scores| ensures Competes(more, scores[i].key, model, v, cosine) {
      assert Competes(seen, scores[i].key, model, v, cosine);
    }
  }

  /** The front of a descending sort: the first of the highest scores. */
  function Leader(scores: seq<Scored>): (i: nat)
    requires scores != []
    ensures i < |scores|
    ensures forall j :: 0 <= j < |scores| ==> scores[j].score <= scores[i].score
  {
    if |scores| == 1 then 0
    else
      var n := |scores| - 1;
      var i := Leader(scores[..n]);
      assert forall j :: 0 <= j < n ==> scores[..n][j] == scores[j];
      if scores[n].score > scores[i].score then n else i
  }

  function RunnerUp(scores: seq<Scored>, leader: nat): real
    requires leader < |scores|
  {
    var others := scores[..leader] + scores[leader + 1..];
    if others == [] then -1.0 else others[Leader(others)].score
  }

  function Decide(scores: seq<Scored>): Option<Match> {
    if scores == [] then None
    else
      var i := Leader(scores);
      if !scores[i].enrolled || scores[i].score < MIN_SCORE || scores[i].score - RunnerUp(scores, i) < MIN_MARGIN then None
      else Some(Match(scores[i].key.person, Clamped(scores[i].score)))
  }

  lemma RunnerUpBounds(scores: seq<Scored>, leader: nat)
    requires leader < |scores|
    ensures forall j :: 0 <= j < |scores| && j != leader ==> scores[j].score <= RunnerUp(scores, leader)
    ensures |scores| > 1 ==> exists j :: 0 <= j < |scores| && j != leader && scores[j].score == RunnerUp(scores, leader)
    ensures |scores| == 1 ==> RunnerUp(scores, leader) == -1.0
  {
    var others := scores[..leader] + scores[leader + 1..];
    forall j | 0 <= j < |scores| && j != leader ensures scores[j].score <= RunnerUp(scores, leader) {
      assert scores[j] == others[if j < leader then j else j - 1];
    }
    if |scores| > 1 {
      var k := Leader(others);
      assert others[k] == scores[if k < leader then k else k + 1];
    }
  }

  lemma DecisionIsMatch(scores: seq<Scored>, profiles: Profiles, model: string, v: Vector, cosine: Cosine)
    requires ScoresOf(scores, profiles, model, v, cosine)
    ensures IsMatch(profiles, model, v, cosine, Decide(scores))
  {
    if scores != [] {
      var i := Leader(scores);
      RunnerUpBounds(scores, i);
      var m := Decide(scores);
      if m.Some? {
        LeaderWins(scores, i, profiles, model, v, cosine);
      } else {
        forall key | key in profiles ensures !Wins(profiles, key, model, v, cosine) {
          if Wins(profiles, key, model, v, cosine) {
            WinnerLeads(scores, key, profiles, model, v, cosine);
          }
        }
      }
    }
  }

  lemma LeaderWins(scores: seq<Scored>, i: nat, profiles: Profiles, model: string, v: Vector, cosine: Cosine)
    requires ScoresOf(scores, profiles, model, v, cosine) && i < |scores|
    requires scores[i].enrolled && scores[i].score >= MIN_SCORE
    requires forall j :: 0 <= j < |scores| && j != i ==> scores[i].score - scores[j].score >= MIN_MARGIN
    ensures Wins(profiles, scores[i].key, model, v, cosine)
  {
    forall other | other in profiles && other != scores[i].key && Competes(profiles, other, model, v, cosine)
      ensures ScoreOf(profiles, scores[i].key, v, cosine) - ScoreOf(profiles, other, v, cosine) >= MIN_MARGIN
    {
      var j :| 0 <= j < |scores| && scores[j].key == other;
    }
  }

  lemma WinnerLeads(scores: seq<Scored>, key: Key, profiles: Profiles, model: string, v: Vector, cosine: Cosine)
    requires ScoresOf(scores, profiles, model, v, cosine) && Wins(profiles, key, model, v, cosine)
    ensures scores != [] && Decide(scores).Some?
  {
    var k :| 0 <= k < |scores| && scores[k].key == key;
    forall j | 0 <= j < |scores| && j != k ensures scores[k].score - scores[j].score >= MIN_MARGIN {
      assert scores[j].key != key;
    }
    assert Leader(scores) == k;
    RunnerUpBounds(scores, k);
  }

  // ----- A pass over the faces -----

  /** Open to a suggestion: proposed, or never looked at by a human. */
  predicate IsCandidate(f: Face, pipeline: string, photo: Option<string>) {
    && f.pipeline == pipeline && (photo.None? || photo == Some(f.photo))
    && (f.state == Proposed || (f.state == Unknown && f.source.None?))
  }

  function Suggested(f: Face, m: Option<Match>): Face {
    match m
    case Some(r) => f.(person := Some(r.person), state := Proposed, source := Some(SOURCE), score := Some(r.score))
    case None => f.(person := None, state := Unknown, source := None, score := None)
  }

  ghost function MatchFor(profiles: Profiles, f: Face, cosine: Cosine): Option<Match> {
    if f.vector.None? then None else TheMatch(profiles, f.model, f.vector.value, cosine)
  }

  ghost function After(profiles: Profiles, f: Face, pipeline: string, photo: Option<string>, cosine: Cosine): Face {
    if IsCandidate(f, pipeline, photo) then Suggested(f, MatchFor(profiles, f, cosine)) else f
  }

  /** Every face after one pass; the profiles are those before it. */
  ghost function Pass(faces: seq<Face>, pipeline: string, photo: Option<string>, cosine: Cosine): seq<Face> {
    seq(|faces|, i requires 0 <= i < |faces| => After(ProfilesOf(faces, pipeline), faces[i], pipeline, photo, cosine))
  }

  datatype Summary = Summary(examined: nat, proposed: nat)

  function Examined(faces: seq<Face>, pipeline: string, photo: Option<string>): nat {
    if faces == [] then 0
    else Examined(faces[..|faces| - 1], pipeline, photo)
         + (if IsCandidate(faces[|faces| - 1], pipeline, photo) then 1 else 0)
  }

  /** How many candidates are given a name. */
  ghost function Hits(profiles: Profiles, faces: seq<Face>, pipeline: string, photo: Option<string>, cosine: Cosine): nat {
    if faces == [] then 0
    else
      var f := faces[|faces| - 1];
      Hits(profiles, faces[..|faces| - 1], pipeline, photo, cosine)
      + (if IsCandidate(f, pipeline, photo) && MatchFor(profiles, f, cosine).Some? then 1 else 0)
  }

  class Matcher {
    var faces: seq<Face>

    constructor (initial: seq<Face>)
      ensures faces == initial
    {
      faces := initial;
    }

    method TeachProfiles(pipeline: string) returns (profiles: Profiles)
      ensures profiles == ProfilesOf(faces, pipeline)
    {
      profiles := map[];
      assert faces[..0] == [];
      for i := 0 to |faces|
        invariant profiles == ProfilesOf(faces[..i], pipeline)
      {
        assert faces[..i + 1][..i] == faces[..i];
        if IsExample(faces[i], pipeline) {
          profiles := Taught(profiles, faces[i]);
        }
      }
      assert faces[..|faces|] == faces;
    }

    /** One transaction: profiles, then a decision per candidate, then the writes. */
    method Propose(pipeline: string, photo: Option<string>, cosine: Cosine) returns (summary: Summary)
      modifies this
      ensures faces == Pass(old(faces), pipeline, photo, cosine)
      ensures summary.examined == Examined(old(faces), pipeline, photo)
      ensures summary.proposed == Hits(ProfilesOf(old(faces), pipeline), old(faces), pipeline, photo, cosine)
    {
      hide Suggested, IsCandidate, ProfilesOf;
      var profiles := TeachProfiles(pipeline);
      var updated: seq<Face> := [];
      summary := Summary(0, 0);
      assert faces[..0] == [];
      for i := 0 to |faces|
        invariant faces == old(faces) && |updated| == i
        invariant forall k :: 0 <= k < i ==> updated[k] == After(profiles, faces[k], pipeline, photo, cosine)
        invariant summary.examined == Examined(faces[..i], pipeline, photo)
        invariant summary.proposed == Hits(profiles, faces[..i], pipeline, photo, cosine)
      {
        assert faces[..i + 1][..i] == faces[..i];
        var f := faces[i];
        if IsCandidate(f, pipeline, photo) {
          var m: Option<Match> := None;
          if f.vector.Some? {
            m := BestMatch(profiles, f.model, f.vector.value, cosine);
          }
          summary := Summary(summary.examined + 1, summary.proposed + (if m.Some? then 1 else 0));
          f := Suggested(f, m);
        }
        updated := updated + [f];
      }
      assert faces[..|faces|] == faces;
      faces := updated;
    }
  }

  // ----- What a pass keeps -----

  /** Confirmed, rejected and dismissed faces, and other pipelines' faces, are
      left exactly as they were. */
  lemma HumanDecisionsStay(faces: seq<Face>, pipeline: string, photo: Option<string>, cosine: Cosine, i: nat)
    requires i < |faces|
    requires || faces[i].state == Confirmed
             || (faces[i].state == Unknown && faces[i].source.Some?)
             || faces[i].pipeline != pipeline
    ensures Pass(faces, pipeline, photo, cosine)[i] == faces[i]
  {
  }

  /** Suggestions teach nothing: the profiles after a pass are those before it. */
  lemma {:induction false} PassTeachesNothing(faces: seq<Face>, after: seq<Face>, pipeline: string)
    requires |after| == |faces|
    requires forall i :: 0 <= i < |faces| ==>
               after[i] == faces[i] || (!IsExample(faces[i], pipeline) && !IsExample(after[i], pipeline))
    ensures ProfilesOf(after, pipeline) == ProfilesOf(faces, pipeline)
    decreases |faces|
  {
    if faces != [] {
      PassTeachesNothing(faces[..|faces| - 1], after[..|faces| - 1], pipeline);
    }
  }

  lemma PassKeepsProfiles(faces: seq<Face>, pipeline: string, photo: Option<string>, cosine: Cosine)
    ensures ProfilesOf(Pass(faces, pipeline, photo, cosine), pipeline) == ProfilesOf(faces, pipeline)
  {
    PassTeachesNothing(faces, Pass(faces, pipeline, photo, cosine), pipeline);
  }

  /** A second pass, whatever the first did, changes nothing more. */
  lemma PassIsIdempotent(faces: seq<Face>, pipeline: string, photo: Option<string>, cosine: Cosine)
    ensures Pass(Pass(faces, pipeline, photo, cosine), pipeline, photo, cosine) == Pass(faces, pipeline, photo, cosine)
  {
    PassKeepsProfiles(faces, pipeline, photo, cosine);
    var once := Pass(faces, pipeline, photo, cosine);
    var twice := Pass(once, pipeline, photo, cosine);
    forall i | 0 <= i < |faces| ensures twice[i] == once[i] {
      assert once[i] == After(ProfilesOf(faces, pipeline), faces[i], pipeline, photo, cosine);
    }
  }

  ghost function PhotoPasses(faces: seq<Face>, pipeline: string, photos: seq<string>, cosine: Cosine): seq<Face>
    decreases |photos|
  {
    if photos == [] then faces
    else Pass(PhotoPasses(faces, pipeline, photos[..|photos| - 1], cosine), pipeline, Some(photos[|photos| - 1]), cosine)
  }

  /** Passes over single photos, in any order and with repeats, add up to the
      full pass on exactly the photos visited. */
  lemma {:induction false} PhotoPassesAddUp(faces: seq<Face>, pipeline: string, photos: seq<string>, cosine: Cosine)
    ensures var after := PhotoPasses(faces, pipeline, photos, cosine);
            && |after| == |faces|
            && ProfilesOf(after, pipeline) == ProfilesOf(faces, pipeline)
            && forall i :: 0 <= i < |faces| ==>
                 after[i] == if faces[i].photo in photos then Pass(faces, pipeline, None, cosine)[i] else faces[i]
    decreases |photos|
  {
    if photos != [] {
      var (earlier, photo) := (photos[..|photos| - 1], photos[|photos| - 1]);
      PhotoPassesAddUp(faces, pipeline, earlier, cosine);
      var before := PhotoPasses(faces, pipeline, earlier, cosine);
      PassKeepsProfiles(before, pipeline, Some(photo), cosine);
      assert photos == earlier + [photo];
      forall i | 0 <= i < |faces|
        ensures PhotoPasses(faces, pipeline, photos, cosine)[i]
             == if faces[i].photo in photos then Pass(faces, pipeline, None, cosine)[i] else faces[i]
      {
        OneMorePhoto(ProfilesOf(faces, pipeline), faces[i], before[i], pipeline, photo, cosine, faces[i].photo in earlier);
      }
    }
  }

  lemma OneMorePhoto(profiles: Profiles, f: Face, before: Face, pipeline: string, photo: string, cosine: Cosine, visited: bool)
    requires before == if visited then After(profiles, f, pipeline, None, cosine) else f
    ensures After(profiles, before, pipeline, Some(photo), cosine)
         == if visited || f.photo == photo then After(profiles, f, pipeline, None, cosine) else f
  {
  }

  // ----- Profiles count photographs, not faces -----

  ghost predicate Teaches(f: Face, pipeline: string, key: Key) {
    IsExample(f, pipeline) && KeyOf(f) == key
  }

  lemma TaughtPhotos(profiles: Profiles, f: Face, key: Key, photo: string)
    requires f.person.Some? && f.vector.Some?
    ensures var after := Taught(profiles, f);
            (key in after && photo in after[key].photos)
            <==> (key in profiles && photo in profiles[key].photos) || (KeyOf(f) == key && f.photo == photo)
  {
  }

  /** A profile's photos are exactly the photos with a confirmed face of its
      person: a face repeated in one photo does not count again. */
  lemma {:induction false} ProfilePhotos(faces: seq<Face>, pipeline: string, key: Key, photo: string)
    ensures var profiles := ProfilesOf(faces, pipeline);
            (key in profiles && photo in profiles[key].photos)
            <==> exists i :: 0 <= i < |faces| && Teaches(faces[i], pipeline, key) && faces[i].photo == photo
    decreases |faces|
  {
    if faces != [] {
      var (n, f) := (|faces| - 1, faces[|faces| - 1]);
      ProfilePhotos(faces[..n], pipeline, key, photo);
      if IsExample(f, pipeline) {
        TaughtPhotos(ProfilesOf(faces[..n], pipeline), f, key, photo);
      }
      TeachesPrefix(faces, pipeline, key, photo);
    }
  }

  lemma TeachesPrefix(faces: seq<Face>, pipeline: string, key: Key, photo: string)
    requires faces != []
    ensures var n := |faces| - 1;
            (exists i :: 0 <= i < |faces| && Teaches(faces[i], pipeline, key) && faces[i].photo == photo)
            <==> (exists i :: 0 <= i < n && Teaches(faces[..n][i], pipeline, key) && faces[..n][i].photo == photo)
                 || (Teaches(faces[n], pipeline, key) && faces[n].photo == photo)
  {
    var n := |faces| - 1;
    assert forall i :: 0 <= i < n ==> faces[..n][i] == faces[i];
  }
}
